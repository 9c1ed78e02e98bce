/** The length-prefixed frames that travel over the Unix socket, in both
    directions, and the stream they are read from. */
module Framing {
  import opened Base

  const MAX_MESSAGE_SIZE: nat := 65_536

  function BeBytes(n: u32): (b: seq<byte>)
    ensures |b| == 4
  {
    var n1 := n / 0x100;
    var n2 := n1 / 0x100;
    [n2 / 0x100, n2 % 0x100, n1 % 0x100, n % 0x100]
  }

  function BeValue(b: seq<byte>): u32
    requires |b| == 4
  {
    var b0: nat := b[0];
    var b01: nat := 0x100 * b0 + b[1];
    var b012: nat := 0x100 * b01 + b[2];
    0x100 * b012 + b[3]
  }

  lemma EncodedValueDecodes(n: u32)
    ensures BeValue(BeBytes(n)) == n
  {
  }

  lemma LowByte(q: nat, r: byte)
    ensures (0x100 * q + r) / 0x100 == q && (0x100 * q + r) % 0x100 == r
  {
  }

  lemma DecodedBytesEncode(b: seq<byte>)
    requires |b| == 4
    ensures BeBytes(BeValue(b)) == b
  {
    var b0: nat := b[0];
    LowByte(b0, b[1]);
    LowByte(0x100 * b0 + b[1], b[2]);
    LowByte(0x100 * (0x100 * b0 + b[1]) + b[2], b[3]);
  }

  /** Big-endian encoding is a bijection between the u32 values and four bytes. */
  lemma BigEndianBijection(n: u32, b: seq<byte>)
    requires |b| == 4
    ensures BeValue(b) == n <==> b == BeBytes(n)
  {
    EncodedValueDecodes(n);
    DecodedBytesEncode(b);
  }

  /** The length field of a payload. The original casts a `usize` to `u32`. */
  function LengthField(payload: seq<byte>): u32 {
    |payload| % TWO_TO_32
  }

  /** The sender's size gate, which looks at the truncated length. */
  predicate SenderAdmits(payload: seq<byte>) {
    LengthField(payload) <= MAX_MESSAGE_SIZE
  }

  function Frame(payload: seq<byte>): seq<byte> {
    BeBytes(LengthField(payload)) + payload
  }

  datatype FrameRead =
    | ShortRead
    | Oversized(length: u32)
    | Got(payload: seq<byte>)

  /** What a reader makes of everything its peer sent before closing. */
  function ReadFrame(stream: seq<byte>): FrameRead {
    if |stream| < 4 then ShortRead
    else
      var n := BeValue(stream[..4]);
      if n > MAX_MESSAGE_SIZE then Oversized(n)
      else if |stream| < 4 + n then ShortRead
      else Got(stream[4..4 + n])
  }

  /** What stays unread in the stream once a frame has been taken from it. */
  ghost function Unread(stream: seq<byte>): seq<byte>
    requires ReadFrame(stream).Got?
  {
    stream[4 + |ReadFrame(stream).payload|..]
  }

  lemma ReadBehindHeader(header: seq<byte>, payload: seq<byte>, tail: seq<byte>)
    requires |header| == 4 && BeValue(header) == |payload| <= MAX_MESSAGE_SIZE
    ensures ReadFrame(header + payload + tail) == Got(payload)
    ensures Unread(header + payload + tail) == tail
  {
    var stream := header + payload + tail;
    assert stream[..4] == header;
    assert stream[4..4 + |payload|] == payload;
    assert stream[4 + |payload|..] == tail;
  }

  /** A frame is read back byte for byte, and whatever follows it stays unread. */
  lemma FrameRoundTrip(payload: seq<byte>, tail: seq<byte>)
    requires |payload| <= MAX_MESSAGE_SIZE
    ensures ReadFrame(Frame(payload) + tail) == Got(payload)
    ensures Unread(Frame(payload) + tail) == tail
  {
    var header := SmallFrame(payload);
    ReadBehindHeader(header, payload, tail);
  }

  lemma SmallFrame(payload: seq<byte>) returns (header: seq<byte>)
    requires |payload| <= MAX_MESSAGE_SIZE
    ensures |header| == 4 && BeValue(header) == |payload| && Frame(payload) == header + payload
  {
    header := BeBytes(|payload|);
    EncodedValueDecodes(|payload|);
    assert LengthField(payload) == |payload|;
  }

  /** A reader gets a payload exactly when the stream starts with its frame. */
  lemma GotExactlyFramed(stream: seq<byte>, payload: seq<byte>)
    ensures ReadFrame(stream) == Got(payload) <==>
            |payload| <= MAX_MESSAGE_SIZE && Frame(payload) <= stream
  {
    if ReadFrame(stream) == Got(payload) {
      HeaderMakesFrame(stream[..4], payload);
      assert stream[..4 + |payload|] == stream[..4] + payload;
    }
    if |payload| <= MAX_MESSAGE_SIZE && Frame(payload) <= stream {
      FrameStartIsGot(stream, payload);
    }
  }

  lemma HeaderMakesFrame(header: seq<byte>, payload: seq<byte>)
    requires |header| == 4 && BeValue(header) == |payload| <= MAX_MESSAGE_SIZE
    ensures Frame(payload) == header + payload
  {
    DecodedBytesEncode(header);
    assert LengthField(payload) == |payload|;
  }

  lemma FrameStartIsGot(stream: seq<byte>, payload: seq<byte>)
    requires |payload| <= MAX_MESSAGE_SIZE && Frame(payload) <= stream
    ensures ReadFrame(stream) == Got(payload)
  {
    var tail := stream[|Frame(payload)|..];
    assert stream == Frame(payload) + tail;
    FrameRoundTrip(payload, tail);
  }

  lemma FrameSplits(payload: seq<byte>, k: nat)
    requires LengthField(payload) + 4 <= k <= |Frame(payload)|
    ensures var n := LengthField(payload);
            Frame(payload)[..k] == Frame(payload[..n]) + payload[n..k - 4]
  {
    var n := LengthField(payload);
    assert LengthField(payload[..n]) == n;
    assert payload[..k - 4] == payload[..n] + payload[n..k - 4];
  }

  /** An admitted payload of any size reaches the reader as the part that its
      truncated length announces. */
  lemma AdmittedFrame(payload: seq<byte>)
    requires SenderAdmits(payload)
    ensures var n := LengthField(payload);
            ReadFrame(Frame(payload)) == Got(payload[..n]) && Unread(Frame(payload)) == payload[n..]
  {
    var n := LengthField(payload);
    FrameSplits(payload, |Frame(payload)|);
    FrameRoundTrip(payload[..n], payload[n..]);
    assert Frame(payload)[..|Frame(payload)|] == Frame(payload);
    assert payload[n..|payload|] == payload[n..];
  }

  /** The sender's gate and the reader's gate together deliver exactly the
      payloads within the limit, and below 2^32 bytes the sender's gate is the
      limit itself. */
  lemma GatesAgree(payload: seq<byte>)
    ensures SenderAdmits(payload) && ReadFrame(Frame(payload)) == Got(payload) && Unread(Frame(payload)) == []
            <==> |payload| <= 65_536
    ensures !SenderAdmits(payload) ==> ReadFrame(Frame(payload)).Oversized?
    ensures |payload| < TWO_TO_32 ==> (SenderAdmits(payload) <==> |payload| <= MAX_MESSAGE_SIZE)
  {
    if SenderAdmits(payload) {
      AdmittedFrame(payload);
    } else {
      var stream := Frame(payload);
      EncodedValueDecodes(LengthField(payload));
      assert stream[..4] == BeBytes(LengthField(payload));
    }
  }

  /** The truncating cast is observable: a payload of exactly 2^32 bytes passes
      the sender's gate and arrives as an empty one. */
  lemma TruncatedLengthSlipsThrough() returns (payload: seq<byte>)
    ensures |payload| == TWO_TO_32
    ensures SenderAdmits(payload)
    ensures ReadFrame(Frame(payload)) == Got([]) && Unread(Frame(payload)) == payload
  {
    payload := seq(TWO_TO_32, _ => 0);
    AdmittedFrame(payload);
    assert payload[..0] == [] && payload[0..] == payload;
  }

  /** A frame cut off anywhere before its announced end is never half-read. */
  lemma CutFrameIsShort(payload: seq<byte>, k: nat)
    requires SenderAdmits(payload)
    requires k < 4 + LengthField(payload)
    ensures ReadFrame(Frame(payload)[..k]) == ShortRead
  {
    var n := LengthField(payload);
    var cut := Frame(payload)[..k];
    if 4 <= k {
      EncodedValueDecodes(n);
      assert cut[..4] == BeBytes(n);
    }
  }

  /** Cutting behind the announced end leaves the payload as it is. */
  lemma LateCutIsHarmless(payload: seq<byte>, k: nat)
    requires SenderAdmits(payload)
    requires 4 + LengthField(payload) <= k <= |Frame(payload)|
    ensures var n := LengthField(payload);
            ReadFrame(Frame(payload)[..k]) == Got(payload[..n])
  {
    var n := LengthField(payload);
    FrameSplits(payload, k);
    FrameRoundTrip(payload[..n], payload[n..k - 4]);
  }

  ghost function Flatten(chunks: seq<seq<byte>>): seq<byte> {
    if chunks == [] then [] else chunks[0] + Flatten(chunks[1..])
  }

  lemma MovedBytes(buf: seq<byte>, chunk: seq<byte>, take: nat, later: seq<byte>)
    requires take <= |chunk|
    ensures buf + (chunk + later) == (buf + chunk[..take]) + (chunk[take..] + later)
  {
  }

  /** The receiving half of a socket: the chunks that will arrive before the
      peer closes, oldest first. Chunks may be of any size, also empty. */
  class ByteStream {
    var chunks: seq<seq<byte>>

    ghost function Pending(): seq<byte>
      reads this
    {
      Flatten(chunks)
    }

    constructor (chunks: seq<seq<byte>>)
      ensures this.chunks == chunks
    {
      this.chunks := chunks;
    }

    /** Fills a buffer of `n` bytes from as many chunks as it takes, or fails at
        the end of the stream. */
    method ReadExact(n: nat) returns (r: Option<seq<byte>>)
      modifies this
      ensures n <= |old(Pending())| ==>
                r == Some(old(Pending())[..n]) && Pending() == old(Pending())[n..]
      ensures |old(Pending())| < n ==> r == None && Pending() == []
    {
      var buf: seq<byte> := [];
      while |buf| < n && chunks != []
        invariant |buf| <= n
        invariant buf + Pending() == old(Pending())
        decreases n - |buf|, |chunks|
      {
        var chunk, later := chunks[0], chunks[1..];
        var take := if |chunk| <= n - |buf| then |chunk| else n - |buf|;
        ghost var before := buf;
        buf := buf + chunk[..take];
        if take < |chunk| {
          chunks := [chunk[take..]] + later;
          assert chunks[1..] == later;
        } else {
          chunks := later;
        }
        assert Pending() == chunk[take..] + Flatten(later);
        MovedBytes(before, chunk, take, Flatten(later));
      }
      r := if |buf| == n then Some(buf) else None;
      assert old(Pending())[..|buf|] == buf;
    }

    /** Reads the length prefix and then exactly the announced payload. How the
        bytes were chunked makes no difference. */
    method ReceiveFrame() returns (r: FrameRead)
      modifies this
      ensures r == ReadFrame(old(Pending()))
      ensures r.Got? ==> Pending() == Unread(old(Pending()))
    {
      ghost var all := Pending();
      var head := ReadExact(4);
      if head == None {
        return ShortRead;
      }
      var n := BeValue(head.value);
      if n > MAX_MESSAGE_SIZE {
        return Oversized(n);
      }
      var body := ReadExact(n);
      if body == None {
        return ShortRead;
      }
      assert all[4..][..n] == all[4..4 + n] && all[4..][n..] == all[4 + n..];
      r := Got(body.value);
    }
  }
}
