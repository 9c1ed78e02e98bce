/** The key ID written into every certificate: `user-<name>-<seconds>` or
    `host-<name>-<seconds>`. */
module KeyIds {
  import opened Base
  import opened Protocol
  import opened Text

  function Prefix(kind: CertKind): string {
    match kind
    case UserCert => "user-"
    case HostCert => "host-"
  }

  function KeyId(kind: CertKind, name: string, seconds: nat): string {
    Prefix(kind) + name + "-" + Decimal(seconds)
  }

  /** Reads a key ID back: the kind by its prefix, the time behind the last dash,
      the name in between. */
  function ReadKeyId(id: string): Option<(CertKind, string, nat)> {
    var dash := LastIndex(id, '-');
    if dash < 5 || dash == |id| - 1 || exists i :: dash < i < |id| && !IsDigit(id[i]) then None
    else
      var name, seconds := id[5..dash], DecimalValue(id[dash + 1..]);
      if id[..5] == Prefix(UserCert) then Some((UserCert, name, seconds))
      else if id[..5] == Prefix(HostCert) then Some((HostCert, name, seconds))
      else None
  }

  lemma LastDash(head: string, seconds: nat)
    ensures var id := head + "-" + Decimal(seconds);
            && LastIndex(id, '-') == |head| < |id| - 1
            && id[|head| + 1..] == Decimal(seconds)
            && forall i :: |head| < i < |id| ==> IsDigit(id[i])
  {
    var digits := Decimal(seconds);
    var id := head + "-" + digits;
    DecimalRoundTrip(seconds);
    assert id[|head|] == '-';
    assert forall i :: |head| < i < |id| ==> id[i] == digits[i - |head| - 1];
    LastIndexIsLast(id, '-', |head|);
  }

  lemma Slices(prefix: string, name: string, tail: string)
    requires |prefix| == 5
    ensures (prefix + name + tail)[..5] == prefix
    ensures (prefix + name + tail)[5..5 + |name|] == name
  {
  }

  /** The key ID as it stands in the certificate. */
  lemma KeyIdIsText(name: string, seconds: nat)
    ensures KeyId(UserCert, name, seconds) == "user-" + name + "-" + Decimal(seconds)
    ensures KeyId(HostCert, name, seconds) == "host-" + name + "-" + Decimal(seconds)
  {
  }

  /** Every key ID can be read back, whatever dashes and digits the name holds. */
  lemma KeyIdRoundTrip(kind: CertKind, name: string, seconds: nat)
    ensures ReadKeyId(KeyId(kind, name, seconds)) == Some((kind, name, seconds))
  {
    var prefix, tail := Prefix(kind), "-" + Decimal(seconds);
    LastDash(prefix + name, seconds);
    DecimalRoundTrip(seconds);
    Slices(prefix, name, tail);
    assert KeyId(kind, name, seconds) == prefix + name + tail;
    assert Prefix(UserCert)[0] != Prefix(HostCert)[0];
  }

  /** Key IDs identify the grant. */
  lemma KeyIdsAreInjective(kind: CertKind, name: string, seconds: nat, kind': CertKind, name': string, seconds': nat)
    requires KeyId(kind, name, seconds) == KeyId(kind', name', seconds')
    ensures kind == kind' && name == name' && seconds == seconds'
  {
    KeyIdRoundTrip(kind, name, seconds);
    KeyIdRoundTrip(kind', name', seconds');
  }
}
