# SSH certificate authority: a verified model

The program is an SSH server that signs user and host keys. Users log in with a
password, hosts with their key. The SSH server holds no signing key: it sends each
request over a Unix socket to a CA process, in an envelope with a shared token and a
counter against replay. The CA looks up the user's template or the host's inventory
entry and signs.

This project models that path from the SSH connection to the issued certificate and
proves what it guarantees, over all interleavings of connections, request tasks,
intruders on the socket and edits of the files.

| file | content |
|---|---|
| `framing.dfy`, `protocol.dfy` | frames, the byte stream they are read from, messages |
| `admission.dfy` | what the server accepts; the replay counter over whole runs |
| `ca_client.dfy`, `ca_server.dfy` | the two ends of the socket, as classes |
| `ipc.dfy` | many request tasks, intruders that replay, and one server: who is rejected, and why |
| `refinement.dfy`, `handler_refinement.dfy` | the objects take the steps of the two step systems |
| `paths.dfy`, `host_inventory.dfy` | path resolution, containment, the two inventory lookups |
| `toml_lexing.dfy`, `user_defaults.dfy` | templates, and why user names cannot leave their strings |
| `key_ids.dfy`, `validity.dfy`, `authority.dfy` | what a certificate says and when it is signed |
| `exec_command.dfy`, `usernames.dfy`, `connection_handler.dfy` | one SSH connection |
| `host_enrollment.dfy` | login and signing of a host in one: which inventory files work for both |
| `client_registry.dfy` | the table of connected clients |
| `signing_system.dfy` | all parts composed: why every certificate exists, and who gets to see it |
| `base.dfy`, `text.dfy` | shared vocabulary |

`dafny verify dfyconfig.toml` checks the whole project.

## Reading the model

Methods follow the code step by step, and each is proved against a function. The step
systems in `ipc.dfy` and `signing_system.dfy` are built from the same functions.
`Refinement.CallAsRun` and `Refinement.TurnAsStep` put the client's and the server's
method beside the step system and show that they end in the same state. The methods in
`HandlerRefinement` do the same for the callbacks of a connection: each is one event of
the composed system, followed by the delivery of the answer, at whatever later moment.

Assumptions, all of them explicit in the contracts:

- JSON decoding undoes encoding, and an encoded object cut short does not decode
  (`Protocol.Codec.Faithful`). Printing an OpenSSH key and parsing it back keeps its
  key data (`HostInventory.Formats.Faithful`).
- The SSH library delivers login attempts only before a success (section 5.1 of
  RFC 4252), channel events only after it, and one callback per connection at a time.
  It verifies that the client holds the private key (section 7 of RFC 4252). A
  presented key has a text form; the code unwraps it.
- Intruders on the socket run as another user, or do not know the token: they may send
  anything without it, and any copy of what a request task has put on the wire, whole
  or cut, as often as they like and on connections made at any time
  (`Ipc.Overheard`, `Ipc.ReplayIsPossible`). The token stands readable in every frame,
  so whoever records a frame could read it; the model assumes that nobody uses it.
- Each request is carried out on one state of the files. Edits come between requests, not
  between two file operations of one request, such as canonicalizing a path and opening it.

Results that a reader may not expect:

- The client connects before it draws its ticket, so two overlapping honest requests
  can swap places and one is refused as a replay
  (`Ipc.OverlapRejectsHonestRequest`). `Ipc.RejectedExactlyWhenOvertaken` says exactly
  when that happens, also with replays on the socket. No envelope is granted twice
  (`Ipc.RepeatsAreStale`, `SigningSystem.EachEnvelopeIsGrantedOnce`).
- The client's atomic counter does wrap to 0 (`src/certificat_authority/ca_client.rs:57`),
  although the comment at line 190 of that file says it saturates. The server stays
  safe (`Ipc.ExhaustedServerStaysClosed`).
- The size gate of the sender looks at a length truncated to 32 bits. It is the
  documented limit for payloads below 2^32 bytes only (`Framing.GatesAgree`,
  `Framing.TruncatedLengthSlipsThrough`).
- A host can log in and then not get its certificate. The login goes by the key and
  finds files anywhere below the inventory; the signing goes by the stem of the file
  found. Where one file holds the key, signing gets through to the certificate builder
  exactly if that file lies directly in the inventory, is not called `.toml` and has a
  stem that passes `validate_hostname`
  (`HostEnrollment.LoginReachesTheBuilderFromTheTop`; with witnesses
  `NestedHostLogsInButCannotSign` and `DottedHostLogsInButMayNotAsk`). Where several
  files hold it, it is the entry called after the first one's stem that matters
  (`HostEnrollment.WhoReachesTheBuilder`).
- `book/src/host-certificates.md:28` says that the inventory file must be named after
  the name the host logs in with. The code ignores that name and uses the stem of the
  file whose key matched; the model follows the code.
- `book/src/how-it-works.md:43` lists the refusal of `root` with the character check.
  In the code it belongs to the PAM authenticator, and the model places it there.
- Templates keep the structure of their strings for all allowed names exactly if no
  placeholder stands outside of strings and comments or inside an escape sequence
  (`TomlLexing.SafeTemplatesExactly`). Inside `\uXXXX` the name becomes part of the
  character, which allowed names can do (`TomlLexing.PlaceholderInEscapeChangesMeaning`).

## Model

| member | source | states |
|---|---|---|
| Framing.BigEndianBijection | src/certificat_authority/ca_client.rs:79-86 | four bytes decode to a u32 value exactly when they are its big-endian encoding |
| Framing.FrameRoundTrip | src/certificat_authority/ca_server.rs:87-106 | every payload up to the limit is read back byte for byte, and what follows it stays unread |
| Framing.GotExactlyFramed | src/certificat_authority/ca_server.rs:88-106 | a reader obtains a payload exactly when the stream starts with that payload's frame |
| Framing.GatesAgree | src/certificat_authority/ca_client.rs:70-77 | sender's and reader's size gates together deliver exactly the payloads within the limit; below 2^32 bytes the sender's gate is the limit |
| Framing.TruncatedLengthSlipsThrough | src/certificat_authority/ca_client.rs:70 | a payload of exactly 2^32 bytes passes the sender's gate and arrives empty |
| Framing.CutFrameIsShort | src/certificat_authority/ca_server.rs:89-106 | a frame cut anywhere before its announced end is dropped, never half-read |
| Framing.LateCutIsHarmless | src/certificat_authority/ca_server.rs:102-106 | bytes lost behind the announced end do not change what is read |
| Framing.ByteStream.ReadExact | src/certificat_authority/ca_server.rs:88-106 | fills a buffer from chunks of any sizes, or fails at the end of the stream; nothing else is consumed |
| Framing.ByteStream.ReceiveFrame | src/certificat_authority/ca_server.rs:88-106 | the result depends on the bytes only, not on how they were chunked |
| Admission.AuthenticExactly | src/certificat_authority/ca_server.rs:70-127 | a message is authentic exactly when it comes from the server's own UID and starts with a frame within the limit whose payload decodes to an envelope with the shared token |
| Admission.RefusalsExactly | src/certificat_authority/ca_server.rs:70-150 | dropped are exactly the messages of another user or without a frame of text, undecodable those whose text is no envelope, and a bad token is an envelope with another token |
| Admission.OutsidersAreNotAuthentic | src/certificat_authority/ca_server.rs:70-127 | another user, or a process without the token, never gets an authentic message through |
| Admission.LastCounterIsMaximum | src/certificat_authority/ca_server.rs:128-136 | the server's counter is always the maximum authenticated counter seen, or 0 |
| Admission.AcceptedExactlyTheRecords | src/certificat_authority/ca_server.rs:128-144 | accepted requests are exactly the strict running maxima above 0 of the authenticated counters, in arrival order |
| Admission.AcceptedCountersIncrease | src/certificat_authority/ca_server.rs:128-136 | accepted counters strictly increase and there are at most as many as the counter's value |
| Admission.AtMostAllCounters | src/certificat_authority/ca_server.rs:38-45 | one server accepts at most 2^64 - 1 requests |
| Admission.ExhaustionIsFinal | src/certificat_authority/ca_server.rs:128-134 | after the largest counter was accepted, nothing is accepted any more |
| Admission.NoiseIsInvisible | src/certificat_authority/ca_server.rs:70-150 | inserting any unauthenticated messages and replays anywhere leaves the final counter and the accepted counters unchanged |
| Admission.NoiseChangesNoVerdict | src/certificat_authority/ca_server.rs:70-150 | and leaves the verdict on every other message unchanged |
| CaClients.ServerSeesTheEnvelopeOrNothing | src/certificat_authority/ca_client.rs:57-80 | of any part of a client's bytes that reaches the server, the server makes exactly the client's envelope or nothing authentic |
| CaClients.CompleteRequestIsAuthentic | src/certificat_authority/ca_client.rs:62-80 | an undisturbed request arrives as the envelope with its own ticket |
| CaClients.ReplyArrivesOrFails | src/certificat_authority/ca_client.rs:83-100 | a reply is read back as sent or the call fails; replies within the limit are read back |
| CaClients.Counter.FetchAdd | src/certificat_authority/ca_client.rs:57 | returns the old value and adds one, wrapping from 2^64 - 1 to 0 |
| CaClients.ExchangeSucceedsExactly | src/certificat_authority/ca_client.rs:53-101 | a call yields a reply exactly if the counter has a ticket left, the envelope encodes within the limit, the connection takes its whole frame, and the peer answers with a frame of that reply |
| CaClients.CaClient.SendRequest | src/certificat_authority/ca_client.rs:53-101 | a failed connect draws no ticket, every later failure has used one; the bytes written, exactly when the call succeeds and with which reply, and that an exhausted counter is reported as such |
| CaClients.CaClient.WriteFrame | src/certificat_authority/ca_client.rs:78-80 | writes length and payload; a broken connection leaves exactly a prefix of the frame |
| CaClients.CaClient.Clone | src/certificat_authority/ca_client.rs:17-24 | a clone shares the counter object |
| CaClients.ExchangeThroughClones | src/certificat_authority/ca_client.rs:17-24 | exchanges through two clones draw consecutive tickets from the one counter; what both put on the wire and return |
| Ipc.ReplayIsPossible | src/certificat_authority/ca_server.rs:6-9 | the attack that the counter is for is in the model: any part of what a request task has put on the wire can be sent again on another connection |
| Ipc.InjectedIsOverheard | src/certificat_authority/ca_server.rs:117-127 | nothing else comes in authentic from an intruder |
| Ipc.RunKeepsInvariant | src/certificat_authority/ca_client.rs:53-80 | in every run, a client's link carries nothing authentic but its own envelope under its own ticket, whatever is authentic was sent by a request task, and the counter matches the served past |
| Ipc.RejectedExactlyWhenOvertaken | src/certificat_authority/ca_client.rs:53-80 | before the counter wraps and with replays present, a connection that delivers a request is rejected for its counter exactly when a connection made earlier delivered the same request or one with a larger ticket, and accepted otherwise |
| Ipc.OnlyDeliveriesAreJudged | src/certificat_authority/ca_server.rs:115-144 | accepted or stale are exactly the connections that deliver some request task's request |
| Ipc.RepeatsAreStale | src/certificat_authority/ca_server.rs:128-136 | over runs of any length: once an envelope has been delivered, every later connection that delivers it again is stale |
| Ipc.OrderedTicketsYieldOnlyToRelays | src/certificat_authority/ca_server.rs:128-136 | where the tickets drawn follow the order of connecting, a client's request is rejected for its counter exactly when an intruder that connected earlier delivered this request or one that connected later |
| Ipc.ApartCallsYieldOnlyToRelays | src/certificat_authority/ca_client.rs:53-80 | if no call connects while another is between connect and draw, the same holds, whatever tickets errors burned |
| Ipc.OverlapRejectsHonestRequest | src/certificat_authority/ca_client.rs:55-61 | two overlapping honest requests: one possible run refuses the second |
| Ipc.TicketsUntilExhaustion | src/certificat_authority/ca_client.rs:57-61 | ticket 0 is never issued, the first 2^64 - 1 draws give distinct tickets across all clones, the next draw fails and wraps the counter |
| Ipc.ExhaustedServerStaysClosed | src/certificat_authority/ca_server.rs:128-136 | over runs of any length, also past the wrap: bounded acceptances, none after the largest counter |
| CaServers.CaServer.Serve | src/certificat_authority/ca_server.rs:66-162 | one connection: all checks in order, the counter moves before the request is carried out, the reply is the one its verdict determines |
| CaServers.CaServer.Run | src/certificat_authority/ca_server.rs:64-165 | every connection is answered by what all earlier arrivals determine; failed accepts leave no trace |
| CaServers.AnsweredIsRight | src/certificat_authority/ca_server.rs:115-150 | dropped peers hear nothing, undecodable messages are told so, bad tokens and stale counters get `authentication failed`, accepted requests a reply of the kind they expect |
| Refinement.CallIsARun | src/certificat_authority/ca_client.rs:53-80 | a call over a connection that breaks at any byte is the run connect, draw, write or break of the step system, and adds one link with exactly the bytes sent |
| Refinement.CallAsRun | src/certificat_authority/ca_client.rs:53-101 | the client's method leaves the counter and the bytes of that run |
| Refinement.TurnAsStep | src/certificat_authority/ca_server.rs:66-162 | the server's method leaves the counter and the reply of the system's next step |
| Paths.CanonicalIsPhysical | src/certificat_authority/host_config_reader.rs:20-43 | canonicalization ends at a place reached without links or `..`, and is idempotent |
| Paths.ResolveSplits | src/certificat_authority/host_config_reader.rs:68-73 | resolving a joined path is resolving the rest from where the first part leads, with the link budget that is left |
| Paths.DotStays | src/certificat_authority/host_config_reader.rs:20-43 | empty components and `.` stay where they are |
| Paths.ThereAndBack | src/certificat_authority/host_config_reader.rs:20-43 | into a directory and back by `..` leads nowhere |
| Paths.LinkIsItsTarget | src/certificat_authority/host_config_reader.rs:20-43 | a symbolic link can be replaced by its target, relative to its place or from the root, at the price of one link of the budget |
| Paths.PushedPath | src/certificat_authority/host_config_reader.rs:69-70 | a pushed name continues the inventory path exactly if it does not begin with a slash |
| Paths.ComponentsJoinBack | src/certificat_authority/host_config_reader.rs:69-70 | splitting a pushed name at slashes loses nothing and leaves no slash |
| Paths.SameEntry | src/certificat_authority/host_config_reader.rs:69-73 | opening an entry through the configured path, links and all, opens what the canonical path opens, if it opens anything |
| Paths.AcceptedPathIsInside | src/certificat_authority/host_config_reader.rs:20-43 | an accepted path lies physically inside the directory, and opening it opens that very place |
| Paths.HostnamesExactly | src/ssh_server/host_key_signer.rs:18-28 | the names that pass are exactly those that are not empty and hold no slash, backslash or NUL and no two dots in a row |
| Paths.DefencesAgree | src/ssh_server/host_key_signer.rs:18-28 | for a name that passes `validate_hostname`, the containment check accepts the plain file of that name and reports a traversal only for a symbolic link |
| HostInventory.FindConfigByPublicKey | src/certificat_authority/host_config_reader.rs:82-163 | the loop with its skips computes the search function |
| HostInventory.SearchYieldsFirstUsable | src/certificat_authority/host_config_reader.rs:87-162 | the result is the first listed file that is contained, readable, well-formed and has the key, under its stem; none exactly when no file is such |
| HostInventory.SkippedFilesAndCommentsAreIrrelevant | src/certificat_authority/host_config_reader.rs:107-158 | adding or removing skipped files anywhere, or changing key comments, does not change the result |
| HostInventory.SigningOpensTheFileThatLoggedIn | src/certificat_authority/host_config_reader.rs:68-77 | if the stem of a file names no symbolic link, the file that signing opens under the stem is that very file exactly when it lies directly in the inventory and is not called `.toml` |
| HostInventory.LoginAndSigningAgree | src/certificat_authority/host_config_reader.rs:68-161 | on an unchanged flat inventory, both lookups yield the same configuration, and its key is the one that logged in |
| HostInventory.SigningReadsInside | src/certificat_authority/host_config_reader.rs:68-77 | whatever the inventory, signing reads a file that lies physically inside it |
| TomlLexing.RenderingPreservesStructure | src/certificat_authority/user_defaults_reader.rs:100-105 | if no placeholder stands outside of strings and comments or inside an escape sequence, lexing the rendered text gives, for an allowed name, the template's tokens with the name substituted inside strings |
| TomlLexing.SafeTemplatesExactly | src/certificat_authority/user_defaults_reader.rs:100-105 | and these are the only such templates: all allowed names keep the structure if and only if the placeholders stand so |
| TomlLexing.PlaceholderInEscapeChangesMeaning | src/certificat_authority/user_defaults_reader.rs:100-105 | witness: a placeholder that ends a `\u` escape, with the name `a` |
| TomlLexing.StringsReadBackWithTheName | src/certificat_authority/user_defaults_reader.rs:100-105 | in every template whose placeholders stand in strings or comments, each rendered string without escapes reads as the template has it, with exactly the name in the place of each placeholder |
| TomlLexing.QuoteBreaksOut | src/ssh_server/mod.rs:32-34 | a name with a quote, which the allowlist refuses, would move the string's end |
| UserDefaultsReader.ReadUserDefaults | src/certificat_authority/user_defaults_reader.rs:54-108 | yields parameters exactly if the template that applies, the user's own if he is listed, beside the list or absolute, else the default, is within the size bound and its rendered text parses to them; a bad list, an unreadable and a too large template are reported exactly as such |
| UserDefaultsReader.OnlyOwnEntryMatters | src/certificat_authority/user_defaults_reader.rs:57-73 | other users' entries never change a user's parameters, nor does the default template those of a listed user |
| KeyIds.KeyIdIsText | src/certificat_authority/mod.rs:187 | the key ID is `user-` or `host-`, the name, a dash and the seconds in decimal |
| KeyIds.KeyIdRoundTrip | src/certificat_authority/mod.rs:106 | kind, name and time can be read back from every key ID, whatever dashes and digits the name holds |
| KeyIds.KeyIdsAreInjective | src/certificat_authority/mod.rs:187 | different grants have different key IDs |
| Validity.ExpiryIsExact | src/certificat_authority/mod.rs:94-102 | the expiry is exactly the configured days of 86,400 seconds after the second clock reading, unless the u64 sum overflows, then it lies before that reading; it never does up to 5,662,224,000 seconds before the end of u64 |
| Validity.WindowIsFullUnlessOverflow | src/certificat_authority/mod.rs:94-102 | the window has its configured length, and at most the time between the readings more, exactly when the u64 sum does not overflow |
| Validity.RenewalsLeaveNoGap | src/certificat_authority/mod.rs:175-183 | renewals in time cover every second from the first start to any later expiry |
| Validity.CoveredExactlyBetween | src/certificat_authority/mod.rs:175-183 | and nothing is covered before the first start or at and after the last expiry |
| Authority.CertBuilder.AddPrincipals | src/certificat_authority/mod.rs:108-111 | exactly the principals the builder takes, each after those it took before, are in the certificate, in order |
| Authority.CertBuilder.AddExtensions | src/certificat_authority/mod.rs:114-116 | succeeds exactly if each extension is accepted after the ones before it, and then all are added in order |
| Authority.BuildCertificate | src/certificat_authority/mod.rs:103-126 | yields a certificate exactly if it fulfils the order, which means: names and key as ordered, principals, extensions and expiry as ordered, and start, key ID, comment, every extension and the signing accepted |
| Authority.CertifiedExactly | src/certificat_authority/mod.rs:103-126 | the same about the function that specifies it |
| Authority.SignUserKey | src/certificat_authority/mod.rs:84-127 | issues a certificate exactly if it is for the requested name and key, with the principals that the builder takes of the user's template, the template's extensions and its exact expiry, and the builder accepts and signs it; the builder is asked exactly if there are such parameters |
| Authority.SignHostKey | src/certificat_authority/mod.rs:150-208 | issues a certificate exactly if the inventory holds the presented key under the name, and the certificate carries the host names that the builder takes of that entry, its extensions and exact expiry, and the builder accepts and signs it; a readable entry with another key is the wrong-key error |
| Authority.SignedHostKeyIsTheInventorys | src/certificat_authority/mod.rs:163-174 | a host certificate is for the key that the inventory holds under that name, inside the inventory directory, at that moment |
| Authority.LoggedInKeyIsNotWrong | src/certificat_authority/mod.rs:133-174 | on an unchanged flat inventory, a key that passed the login check is refused neither as wrong nor for a missing configuration |
| Authority.HandleRequest | src/certificat_authority/ca_server.rs:170-200 | the reply is a certificate exactly if files and builder allow that very certificate for the request, and a host name exactly if it is the stem of the first file that holds the key |
| Authority.DispatchIsRight | src/certificat_authority/ca_server.rs:170-200 | the same about the function that the server and the composed system use |
| Authority.WillingBuilderSigns | src/certificat_authority/ca_server.rs:170-200 | with a builder that accepts everything, signing succeeds exactly for users with a template and hosts whose key the inventory holds, and with all their principals |
| ExecCommand.SplitYieldsAllWords | src/ssh_server/mod.rs:48-54 | the words are non-empty, free of white space, and together the text without its white space |
| ExecCommand.JoinedCommandParses | src/ssh_server/mod.rs:48-54 | words joined by single spaces come back as command name and arguments |
| ExecCommand.CommandNameExactly | src/ssh_server/mod.rs:48-54 | a command has a name exactly if only white space stands before that name, and white space or nothing behind it |
| ConnectionHandlers.ConnectionHandler.AuthPassword | src/ssh_server/mod.rs:223-265 | accepts exactly an allowed name other than root for which some authenticator has PAM's consent and no UID below 1000; a bad name is rejected, everything else denied, and both leave the state unchanged |
| Usernames.UsernamesExactly | src/ssh_server/mod.rs:30-41 | the allowed names are exactly 1 to 64 of the 66 listed characters |
| ConnectionHandlers.ConnectionHandler.AuthPublicKey | src/ssh_server/mod.rs:279-323 | accepts exactly on a positive finding of the CA, under the name the CA answered, whatever name the client logs in with |
| ConnectionHandlers.ConnectionHandler.OnData | src/ssh_server/user_key_signer.rs:14-49 | the CA is asked exactly for data that is a key, on a connection that did not log in with a key, for the session's name and that very key; the bytes sent, the ticket drawn and the effects of each case |
| ConnectionHandlers.DataAsksForTheSentKey | src/ssh_server/user_key_signer.rs:20-39 | the same about the plan that the composed system follows |
| ConnectionHandlers.ConnectionHandler.OnExec | src/ssh_server/mod.rs:356-386 | an exec request is denied without a key session, answered with the disconnect of its case, or asks the CA for the session's host and key; the bytes sent, the ticket drawn and the effects of each case |
| ConnectionHandlers.DataOnlyForACertificate | src/ssh_server/signing_common.rs:33-71 | the client gets data exactly for a certificate that prints, then status 0, end of data and close; the panic branch exactly for a key-check answer; otherwise one disconnect |
| ConnectionHandlers.FailureChangesNothing | src/ssh_server/mod.rs:223-323 | failed login attempts leave the session as it was |
| ConnectionHandlers.OneConnectionOneKind | src/ssh_server/mod.rs:83-89 | over every sequence of login attempts: user name set iff method set, key set iff key method; a connection asks for user certificates or for host certificates, never both |
| ConnectionHandlers.ReauthenticationBreaksCoherence | src/ssh_server/mod.rs:252-254 | were attempts delivered after success, the invariant would break exactly for a password after a key |
| ConnectionHandlers.ExecArgumentsAreIgnored | src/ssh_server/mod.rs:362-372 | whatever surrounds the command name, however it is spaced, never changes what is asked of the CA |
| ConnectionHandlers.ExecAsksForSafeNamesOnly | src/ssh_server/host_key_signer.rs:41-92 | host certificates are requested only with a session key and a name that cannot leave the inventory except through a link of that name |
| HostEnrollment.WhoReachesTheBuilder | src/ssh_server/host_key_signer.rs:41-92 | on any unchanged inventory: a key logs in under the stem of the first file that holds it, and its `sign_host_key` reaches the certificate builder exactly if that stem passes the name check and the inventory's entry of that name can be opened and holds the key |
| HostEnrollment.LoginReachesTheBuilderFromTheTop | src/certificat_authority/host_config_reader.rs:68-162 | where one listed file holds the key: signing reaches the builder exactly if the file lies directly in the inventory, is not `.toml`, has a stem that passes the name check, and can be opened within the link budget, which a plain file always can |
| HostEnrollment.NestedHostLogsInButCannotSign | src/certificat_authority/host_config_reader.rs:107-112 | witness: a configuration in a subdirectory lets its key log in, and signing finds no configuration |
| HostEnrollment.DottedHostLogsInButMayNotAsk | src/ssh_server/host_key_signer.rs:58-62 | witness: the key of `a..b.toml` logs in and is disconnected when it asks |
| ClientRegistry.RegistryIsLeakFree | src/ssh_server/mod.rs:188-196 | over every interleaving of open, drop and removal: no entry without a connection, empty at the end, exact for the first 2^64 connections |
| ClientRegistry.Registry.NewConnection | src/ssh_server/mod.rs:188-196 | hands out the next id |
| ClientRegistry.Registry.ChannelOpenSession | src/ssh_server/mod.rs:326-339 | registers the connection |
| ClientRegistry.Registry.RemovalTask | src/ssh_server/mod.rs:389-398 | removes the dropped connection's entry and keeps the registry sound |
| SigningSystem.Provenance | src/ssh_server/mod.rs:223-387 | in every run, each user certificate goes back to a password login of the connection that asked, under an allowed name other than root and no system account, with PAM's consent, is on a key that this connection sent, and is exactly what the template of that name and the builder allowed at signing time; each host certificate goes back to a key login of the connection that asked, with that very key, granted because the first file that held the key at check time was that host's, and is exactly what the host's entry, still holding the key, and the builder allowed at signing time |
| SigningSystem.ClientsSeeTheirOwnCertificates | src/ssh_server/signing_common.rs:28-71 | in every run, all data a client gets is the print of a certificate that was granted to its own connection, on the link on which that connection asked, and that a login of it justifies; success, end of data and close follow; no answer is shown twice |
| SigningSystem.GrantedCertificatesArrive | src/ssh_server/signing_common.rs:28-71 | and in every run, a connection that still waits for a certificate granted to it finds the answer and shows the client exactly that certificate, unless the reply is larger than a frame may be |
| SigningSystem.GrantedLoginsArrive | src/ssh_server/mod.rs:291-322 | so does a key check: its connection is logged in under the name the CA answered |
| SigningSystem.DisconnectedForGood | src/ssh_server/signing_common.rs:28-71 | in every run, a connection whose client was disconnected is gone, and stays so |
| SigningSystem.FailuresEndTheWait | src/ssh_server/signing_common.rs:33-50 | a call that fails disconnects a client that wants a certificate and rejects one that wants to log in |
| SigningSystem.NoPanic | src/ssh_server/signing_common.rs:33-50 | in every run, replies fit their requests, and neither the reply-kind panics nor the missing-user-name panics occur |
| HandlerRefinement.DataAsEvent | src/ssh_server/user_key_signer.rs:14-49 | the data callback is the system's event for it: the system connects to the CA exactly for data that is a key, for the session's name and that key, and shows the client what it logs, at once or when the answer comes in, whatever happens elsewhere meanwhile |
| HandlerRefinement.ExecAsEvent | src/ssh_server/mod.rs:356-386 | the same for the exec callback |
| HandlerRefinement.KeyAsEvent | src/ssh_server/mod.rs:279-323 | the key login is the system's event for it; session and login log agree when the answer comes in |
| HandlerRefinement.PasswordAsEvent | src/ssh_server/mod.rs:223-265 | the password login is one event of the system |
| SigningSystem.OvertakingInTheWholeSystem | src/certificat_authority/ca_client.rs:53-80 | the overtaking characterisation, replays included, holds in every run of the composed system |
| SigningSystem.EachEnvelopeIsGrantedOnce | src/certificat_authority/ca_server.rs:128-144 | in every run, however often and by whomever an envelope is sent, it is granted at most once, by strictly increasing counters; each was made by a connection for itself; there are at most 2^64 - 1 |

## Left out

- Cryptography, nonces, serials and certificate encodings: keys are compared by opaque key data, the builder refuses by opaque rules.
- JSON, full TOML and template syntax: abstract codecs; templates are literal text with placeholders.
- TOML multi-line strings: the lexer knows single-line strings and comments only.
- UTF-8: text arrives decoded, and lossy decoding happens before the modelled functions.
- CaServers.CaServer.Run: takes any finite number of turns of the endless loop, and replies always encode and leave the server.
- Ipc.RejectedExactlyWhenOvertaken: speaks, like the results built on it, about runs with at most 2^64 draws; past the wrap tickets repeat, and `Admission.AcceptedExactlyTheRecords` and `Ipc.RepeatsAreStale` still hold.
- Ipc.Event: the server takes a connection once all that it will read from it is there, also where it would drop it unread; a peer that stays silent forever, which blocks the accept loop, only shows as a run that serves nothing more.
- Refinement.CallAsRun: the events of the call follow each other directly; the step system also interleaves them with everything else.
- HandlerRefinement.DataAsEvent: a CA connection that cannot be made is, in the step system, one that breaks before the ticket is drawn; that the handler's socket carries the bytes of the system's link is `Refinement.CallAsRun`, not repeated here.
- HostEnrollment.LoginReachesTheBuilderFromTheTop: files that change between login and signing are covered by `SigningSystem.Provenance` only, which says what holds when a certificate exists.
- HostInventory.FindConfigByPublicKey: the recursive glob is a given listing; file names are valid text, and glob characters in the inventory's own path are not considered.
- Authority.ErrorText: error messages are shortened, the distinction of the cases is kept.
- Authority.SignHostKey: the log lines of the mismatch branch, which print both keys, are not modelled.
- ConnectionHandlers.ConnectionHandler.OnData: the key text is parsed after lossy decoding; session output calls are recorded as effects and cannot fail.
- ClientRegistry.Registry.DropConnection: spawning the removal task is a ghost step, since no program state changes until the task runs.
- Overflow checks of debug builds: u64 sums wrap as in release builds.
- PAM, account lookup, peer credentials, clocks: given answers.
- Startup, command line, token file, socket polling, client scripts, and the `test_auth` build.
- `src/certificat_authority/certificat_template_reader.rs`: not a module of the program.
