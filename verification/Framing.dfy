/** Length-prefixed frames: `WriteFrame`, `ReadFrame` and `readFullBounded`
    (internal/browser/framing.go). The JSON encoder, and what the peer does after its last
    byte, are parameters. */
module Framing {
  import opened Prelude

  type Byte = x: int | 0 <= x < 256

  const DEFAULT_MAX_BYTES: nat := 8 * 1024 * 1024

  const WORD: nat := 0x1_0000_0000

  /** What the peer does after its last byte: close, or stay open and quiet. Only a body read
      gets a deadline, and only on a connection that supports one. */
  datatype Peer = Closes | Quiet(deadlines: bool)

  /** Why a frame could not be read. `PrefixShort` tells how many bytes of the prefix came. */
  datatype FrameError = PrefixShort(got: nat) | Empty | Oversize | BodyShort | Timeout

  /** `Waiting` is no result of the source: the call never returns. It tells how many bytes of
      the frame have come. */
  datatype ReadResult = Frame(body: seq<Byte>) | Failed(error: FrameError) | Waiting(got: nat)

  function EffectiveCap(maxBytes: int): nat { if maxBytes <= 0 then DEFAULT_MAX_BYTES else maxBytes }

  // ---------------------------------------------------------------- the length prefix

  /** `binary.BigEndian.PutUint32(_, uint32(n))`: the low 32 bits, eight at a time. */
  function PutUint32(n: nat): (r: seq<Byte>)
    ensures |r| == 4
  {
    [n / 256 / 256 / 256 % 256, n / 256 / 256 % 256, n / 256 % 256, n % 256]
  }

  /** `high << 8 | low`. */
  function Shift(high: nat, low: Byte): nat { 256 * high + low }

  /** `binary.BigEndian.Uint32`. */
  function Uint32(b: seq<Byte>): (n: nat)
    requires |b| == 4
    ensures n < WORD
  {
    Shift(Shift(Shift(b[0], b[1]), b[2]), b[3])
  }

  lemma Compose(n: int, q1: int, q2: int, q3: int, q4: int, r0: int, r1: int, r2: int, r3: int)
    requires n == 256 * q1 + r0 && q1 == 256 * q2 + r1 && q2 == 256 * q3 + r2 && q3 == 256 * q4 + r3
    ensures n == WORD * q4 + (256 * (256 * (256 * r3 + r2) + r1) + r0)
  {
  }

  lemma Remainder(n: nat, q: int, u: int)
    requires n == WORD * q + u && 0 <= u < WORD
    ensures n % WORD == u && (n < WORD ==> n == u)
  {
  }

  /** The prefix holds the length modulo 2^32. */
  lemma PrefixHoldsLength(n: nat)
    ensures Uint32(PutUint32(n)) == n % WORD
    ensures n < WORD ==> Uint32(PutUint32(n)) == n
  {
    var q1 := n / 256;
    var q2 := q1 / 256;
    var q3 := q2 / 256;
    Compose(n, q1, q2, q3, q3 / 256, n % 256, q1 % 256, q2 % 256, q3 % 256);
    Remainder(n, q3 / 256, Uint32(PutUint32(n)));
  }

  lemma ShiftBack(high: nat, low: Byte)
    ensures Shift(high, low) / 256 == high && Shift(high, low) % 256 == low
  {
  }

  /** Every four bytes are the prefix of the length they denote. */
  lemma LengthHasOnePrefix(b: seq<Byte>)
    requires |b| == 4
    ensures PutUint32(Uint32(b)) == b
  {
    var n1 := Shift(b[0], b[1]);
    var n2 := Shift(n1, b[2]);
    ShiftBack(0, b[0]);
    ShiftBack(b[0], b[1]);
    ShiftBack(n1, b[2]);
    ShiftBack(n2, b[3]);
  }

  /** The prefix is in network order: the most significant byte comes first. */
  lemma BigEndian(b: seq<Byte>)
    requires |b| == 4
    ensures Uint32(b) == 0x1_00_00_00 * b[0] as int + 0x1_00_00 * b[1] as int + 0x100 * b[2] as int + b[3] as int
  {
  }

  // ---------------------------------------------------------------- meaning

  function Encode(body: seq<Byte>): seq<Byte> { PutUint32(|body|) + body }

  /** One frame off the front of a byte stream, and what is left of the stream. */
  function Decode(bytes: seq<Byte>, cap: nat, peer: Peer): (ReadResult, seq<Byte>) {
    if |bytes| < 4 then (if peer.Closes? then Failed(PrefixShort(|bytes|)) else Waiting(|bytes|), [])
    else DecodeBody(Uint32(bytes[..4]), bytes[4..], cap, peer)
  }

  /** The rest of a frame once its prefix announced `n` bytes. */
  function DecodeBody(n: nat, tail: seq<Byte>, cap: nat, peer: Peer): (ReadResult, seq<Byte>) {
    if n == 0 then (Failed(Empty), tail)
    else if n > cap then (Failed(Oversize), tail)
    else if |tail| < n then (ShortBody(|tail|, peer), [])
    else (Frame(tail[..n]), tail[n..])
  }

  function ShortBody(got: nat, peer: Peer): ReadResult {
    match peer
    case Closes => Failed(BodyShort)
    case Quiet(deadlines) => if deadlines then Failed(Timeout) else Waiting(4 + got)
  }

  /** Reading until a call does not deliver a frame: the bodies, and how that call ends. */
  function DecodeAll(bytes: seq<Byte>, cap: nat, peer: Peer): (seq<seq<Byte>>, ReadResult)
    decreases |bytes|
  {
    var (result, rest) := Decode(bytes, cap, peer);
    match result
    case Frame(body) =>
      var (bodies, end) := DecodeAll(rest, cap, peer);
      ([body] + bodies, end)
    case _ => ([], result)
  }

  function EncodeAll(bodies: seq<seq<Byte>>): seq<Byte> {
    if bodies == [] then [] else Encode(bodies[0]) + EncodeAll(bodies[1..])
  }

  /** The bodies that survive a trip. */
  predicate Fits(body: seq<Byte>, cap: nat) { 1 <= |body| <= cap && |body| < WORD }

  /** How reading ends when the next frame does not even begin. */
  function CleanEnd(peer: Peer): ReadResult { if peer.Closes? then Failed(PrefixShort(0)) else Waiting(0) }

  // ---------------------------------------------------------------- the imperative form

  datatype ReadEnd = Full | Eof | Expired | Never

  /** One end of a connection: the bytes that will still arrive, the bytes written, and how
      many more the peer accepts before writes fail. */
  class Connection {
    var incoming: seq<Byte>
    var outgoing: seq<Byte>
    var room: nat
    const peer: Peer

    constructor (bytes: seq<Byte>, accepts: nat, p: Peer)
      ensures incoming == bytes && outgoing == [] && room == accepts && peer == p
    {
      incoming, outgoing, room, peer := bytes, [], accepts, p;
    }

    /** `Write`: all of the bytes, or a part of them and an error. */
    method Write(bytes: seq<Byte>) returns (ok: bool)
      modifies this`outgoing, this`room
      ensures ok <==> |bytes| <= old(room)
      ensures outgoing == old(outgoing) + (if ok then bytes else bytes[..old(room)])
      ensures room == if ok then old(room) - |bytes| else 0
    {
      ok := |bytes| <= room;
      outgoing := outgoing + (if ok then bytes else bytes[..room]);
      room := if ok then room - |bytes| else 0;
    }

    /** `io.ReadFull`: exactly `n` bytes, or what there is. A short read ends in an error when
        the peer closes, and at the deadline when one is set; otherwise it never ends. */
    method ReadFull(n: nat, deadline: bool) returns (end: ReadEnd, bytes: seq<Byte>)
      modifies this`incoming
      ensures end == Full <==> n <= |old(incoming)|
      ensures end != Full ==> end == if peer.Closes? then Eof else if deadline then Expired else Never
      ensures bytes == (if end == Full then old(incoming)[..n] else old(incoming))
      ensures incoming == (if end == Full then old(incoming)[n..] else [])
    {
      if n <= |incoming| {
        end, bytes, incoming := Full, incoming[..n], incoming[n..];
      } else {
        end := if peer.Closes? then Eof else if deadline then Expired else Never;
        bytes, incoming := incoming, [];
      }
    }

    /** `WriteFrame` of a value whose JSON encoding is `json`. A failed call has written a
        strict prefix of the frame. */
    method WriteFrame(json: Option<seq<Byte>>) returns (ok: bool)
      modifies this`outgoing, this`room
      ensures json.None? ==> !ok && outgoing == old(outgoing) && room == old(room)
      ensures json.Some? ==> (ok <==> |Encode(json.value)| <= old(room))
      ensures json.Some? ==>
                && outgoing == old(outgoing) + (if ok then Encode(json.value) else Encode(json.value)[..old(room)])
                && room == (if ok then old(room) - |Encode(json.value)| else 0)
    {
      if json.None? {
        return false;
      }
      var prefix := PutUint32(|json.value|);
      ok := Write(prefix);
      if !ok {
        return;
      }
      ok := Write(json.value);
    }

    /** `ReadFrame`. */
    method ReadFrame(maxBytes: int) returns (r: ReadResult)
      modifies this`incoming
      ensures (r, incoming) == Decode(old(incoming), EffectiveCap(maxBytes), peer)
    {
      var cap := if maxBytes <= 0 then DEFAULT_MAX_BYTES else maxBytes;
      var end, prefix := ReadFull(4, false);
      if end != Full {
        return if end == Never then Waiting(|prefix|) else Failed(PrefixShort(|prefix|));
      }
      var n := Uint32(prefix);
      if n == 0 {
        return Failed(Empty);
      }
      if n > cap {
        return Failed(Oversize);
      }
      var body;
      end, body := ReadFull(n, peer.Quiet? && peer.deadlines);
      match end {
        case Full => r := Frame(body);
        case Eof => r := Failed(BodyShort);
        case Expired => r := Failed(Timeout);
        case Never => r := Waiting(4 + |body|);
      }
    }

    /** A session: frames are written one after the other. A failed session has written as much
        of the stream as the peer accepted; what that reads back as is `CutStream`. */
    method WriteFrames(bodies: seq<seq<Byte>>) returns (ok: bool)
      modifies this`outgoing, this`room
      ensures ok <==> |EncodeAll(bodies)| <= old(room)
      ensures outgoing == old(outgoing) + (if ok then EncodeAll(bodies) else EncodeAll(bodies)[..old(room)])
    {
      ghost var was, had := outgoing, room;
      Units(was);
      for k := 0 to |bodies|
        invariant |EncodeAll(bodies[..k])| + room == had
        invariant outgoing == was + EncodeAll(bodies[..k])
      {
        EncodeAllSnoc(bodies[..k], bodies[k]);
        assert bodies[..k] + [bodies[k]] == bodies[..k + 1];
        Assoc(was, EncodeAll(bodies[..k]), Encode(bodies[k]));
        ok := WriteFrame(Some(bodies[k]));
        if !ok {
          EncodeAllAppend(bodies[..k + 1], bodies[k + 1..]);
          assert bodies[..k + 1] + bodies[k + 1..] == bodies;
          CutInside(EncodeAll(bodies[..k + 1]), EncodeAll(bodies[k + 1..]), had);
          CutInside(EncodeAll(bodies[..k]), Encode(bodies[k]), had);
          Assoc(was, EncodeAll(bodies[..k]), Encode(bodies[k])[..had - |EncodeAll(bodies[..k])|]);
          return;
        }
      }
      assert bodies[..|bodies|] == bodies;
      ok := true;
    }

    /** A session: frames are read until a call delivers none. */
    method ReadFrames(maxBytes: int) returns (bodies: seq<seq<Byte>>, end: ReadResult)
      modifies this`incoming
      ensures (bodies, end) == DecodeAll(old(incoming), EffectiveCap(maxBytes), peer)
    {
      bodies := [];
      ghost var all := DecodeAll(incoming, EffectiveCap(maxBytes), peer);
      Units(all.0);
      while true
        invariant all.0 == bodies + DecodeAll(incoming, EffectiveCap(maxBytes), peer).0
        invariant all.1 == DecodeAll(incoming, EffectiveCap(maxBytes), peer).1
        decreases |incoming|
      {
        var r := ReadFrame(maxBytes);
        if !r.Frame? {
          Units(bodies);
          return bodies, r;
        }
        Assoc(bodies, [r.body], DecodeAll(incoming, EffectiveCap(maxBytes), peer).0);
        bodies := bodies + [r.body];
      }
    }
  }

  // ---------------------------------------------------------------- round trips

  lemma {:induction false} EncodeAllAppend(a: seq<seq<Byte>>, b: seq<seq<Byte>>)
    ensures EncodeAll(a + b) == EncodeAll(a) + EncodeAll(b)
  {
    if a == [] {
      Units(b);
      Units(EncodeAll(b));
    } else {
      assert (a + b)[1..] == a[1..] + b;
      EncodeAllAppend(a[1..], b);
      Assoc(Encode(a[0]), EncodeAll(a[1..]), EncodeAll(b));
    }
  }

  lemma EncodeAllSnoc(a: seq<seq<Byte>>, x: seq<Byte>)
    ensures EncodeAll(a + [x]) == EncodeAll(a) + Encode(x)
  {
    EncodeAllAppend(a, [x]);
    assert [x][1..] == [];
    Units(Encode(x));
  }

  lemma PrefixSplits(prefix: seq<Byte>, tail: seq<Byte>)
    requires |prefix| == 4
    ensures (prefix + tail)[..4] == prefix && (prefix + tail)[4..] == tail
  {
  }

  lemma DecodeBodyIff(n: nat, body: seq<Byte>, rest: seq<Byte>, cap: nat, peer: Peer)
    requires n < WORD && (|body| < WORD ==> n == |body|)
    ensures DecodeBody(n, body + rest, cap, peer) == (Frame(body), rest) <==> Fits(body, cap)
  {
    if Fits(body, cap) {
      assert (body + rest)[..n] == body && (body + rest)[n..] == rest;
    }
  }

  /** A frame followed by anything reads back exactly when its length is from 1 to the cap
      and below 2^32: an empty body is refused, a longer one is refused or misread. */
  lemma FrameRoundTripIff(body: seq<Byte>, rest: seq<Byte>, cap: nat, peer: Peer)
    ensures Decode(Encode(body) + rest, cap, peer) == (Frame(body), rest) <==> Fits(body, cap)
  {
    PrefixHoldsLength(|body|);
    PrefixSplits(PutUint32(|body|), body + rest);
    Assoc(PutUint32(|body|), body, rest);
    DecodeBodyIff(Uint32(PutUint32(|body|)), body, rest, cap, peer);
  }

  /** When a frame is refused for its size: a positive limit refuses exactly the announced
      lengths above it, a limit that is not positive exactly those above 8388608; the empty
      frame is refused as such under every limit. */
  lemma OversizeIff(bytes: seq<Byte>, maxBytes: int, peer: Peer)
    requires |bytes| >= 4
    ensures var n := 0x1_00_00_00 * bytes[0] as int + 0x1_00_00 * bytes[1] as int + 0x100 * bytes[2] as int + bytes[3] as int;
            var r := Decode(bytes, EffectiveCap(maxBytes), peer).0;
            && (r == Failed(Oversize) <==> n > if maxBytes > 0 then maxBytes else 8388608)
            && (r == Failed(Empty) <==> n == 0)
  {
    BigEndian(bytes[..4]);
  }

  /** A frame cut short never yields a body. */
  lemma CutFrame(body: seq<Byte>, c: nat, cap: nat, peer: Peer)
    requires Fits(body, cap) && c < |Encode(body)|
    ensures Decode(Encode(body)[..c], cap, peer) ==
            (if c >= 4 then ShortBody(c - 4, peer) else if peer.Closes? then Failed(PrefixShort(c)) else Waiting(c), [])
  {
    if c >= 4 {
      PrefixHoldsLength(|body|);
      PrefixSplits(PutUint32(|body|), body[..c - 4]);
      assert Encode(body)[..c] == PutUint32(|body|) + body[..c - 4];
    }
  }

  /** How many frames lie wholly within the first `c` bytes. */
  function Whole(bodies: seq<seq<Byte>>, c: nat): (k: nat)
    ensures k <= |bodies|
  {
    if bodies == [] || c < |Encode(bodies[0])| then 0
    else 1 + Whole(bodies[1..], c - |Encode(bodies[0])|)
  }

  /** How many bytes the first `c` bytes hold behind the whole frames. */
  function Left(bodies: seq<seq<Byte>>, c: nat): nat {
    if bodies == [] || c < |Encode(bodies[0])| then c else Left(bodies[1..], c - |Encode(bodies[0])|)
  }

  lemma EncodeFirst(bodies: seq<seq<Byte>>, k: nat)
    requires 0 < k <= |bodies|
    ensures EncodeAll(bodies[..k]) == Encode(bodies[0]) + EncodeAll(bodies[1..][..k - 1])
  {
    assert bodies[..k][1..] == bodies[1..][..k - 1];
  }

  /** `Whole` and `Left` are what they say: the first `k` frames and `Left` bytes make up the
      `c` bytes, and the next frame does not fit. */
  lemma {:induction false} WholeIsMaximal(bodies: seq<seq<Byte>>, c: nat)
    ensures var k := Whole(bodies, c);
            && c == |EncodeAll(bodies[..k])| + Left(bodies, c)
            && (k < |bodies| ==> c < |EncodeAll(bodies[..k + 1])|)
  {
    var k := Whole(bodies, c);
    if bodies != [] {
      if k == 0 {
        assert bodies[..1][1..] == [];
        Units(Encode(bodies[0]));
      } else {
        WholeIsMaximal(bodies[1..], c - |Encode(bodies[0])|);
        EncodeFirst(bodies, k);
        if k < |bodies| { EncodeFirst(bodies, k + 1); }
      }
    }
  }

  lemma {:induction false} AllAreWhole(bodies: seq<seq<Byte>>)
    ensures Whole(bodies, |EncodeAll(bodies)|) == |bodies| && Left(bodies, |EncodeAll(bodies)|) == 0
  {
    if bodies != [] { AllAreWhole(bodies[1..]); }
  }

  lemma CutWithin(body: seq<Byte>, c: nat, cap: nat, peer: Peer)
    requires Fits(body, cap) && c < |Encode(body)|
    ensures DecodeAll(Encode(body)[..c], cap, peer) == ([], CutEnd(c, peer))
  {
    CutFrame(body, c, cap, peer);
  }

  lemma FrameThenRest(body: seq<Byte>, rest: seq<Byte>, cap: nat, peer: Peer)
    requires Fits(body, cap)
    ensures var (bodies, e) := DecodeAll(rest, cap, peer);
            DecodeAll(Encode(body) + rest, cap, peer) == ([body] + bodies, e)
  {
    FrameRoundTripIff(body, rest, cap, peer);
  }

  lemma CutInside<T>(first: seq<T>, later: seq<T>, c: nat)
    requires c <= |first + later|
    ensures (first + later)[..c] == if c < |first| then first[..c] else first + later[..c - |first|]
  {
  }

  /** A stream of frames cut after any number of bytes reads back as the frames that came
      whole, in order, and then no further frame: the next call finds the bytes left behind
      them, which are none exactly at a frame boundary. */
  lemma {:induction false} CutStream(bodies: seq<seq<Byte>>, c: nat, cap: nat, peer: Peer)
    requires forall b :: b in bodies ==> Fits(b, cap)
    requires c <= |EncodeAll(bodies)|
    ensures DecodeAll(EncodeAll(bodies)[..c], cap, peer) == (bodies[..Whole(bodies, c)], CutEnd(Left(bodies, c), peer))
    decreases |bodies|
  {
    if bodies != [] {
      var first, later := Encode(bodies[0]), EncodeAll(bodies[1..]);
      CutInside(first, later, c);
      if c < |first| {
        CutWithin(bodies[0], c, cap, peer);
        assert bodies[..0] == [];
      } else {
        var d := c - |first|;
        CutStream(bodies[1..], d, cap, peer);
        FrameThenRest(bodies[0], later[..d], cap, peer);
        WholeLater(bodies, c);
      }
    }
  }

  /** A cut behind the first frame. */
  lemma WholeLater(bodies: seq<seq<Byte>>, c: nat)
    requires bodies != [] && |Encode(bodies[0])| <= c
    ensures var rest, d := bodies[1..], c - |Encode(bodies[0])|;
            && bodies[..Whole(bodies, c)] == [bodies[0]] + rest[..Whole(rest, d)]
            && Left(bodies, c) == Left(rest, d)
  {
    FirstAndRest(bodies, Whole(bodies[1..], c - |Encode(bodies[0])|));
  }

  /** How the call ends that finds only `left` bytes of a frame. */
  function CutEnd(left: nat, peer: Peer): ReadResult {
    if left >= 4 then ShortBody(left - 4, peer) else if peer.Closes? then Failed(PrefixShort(left)) else Waiting(left)
  }

  /** The exact condition: reading a cut stream returns an error if and only if the peer has
      closed, or the connection supports deadlines and the cut leaves at least the prefix of
      the next frame. Otherwise, and so on every quiet peer between two frames or within a
      prefix, the call never returns. */
  lemma CutStreamReturnsIff(bodies: seq<seq<Byte>>, c: nat, cap: nat, peer: Peer)
    requires forall b :: b in bodies ==> Fits(b, cap)
    requires c <= |EncodeAll(bodies)|
    ensures var left := Left(bodies, c);
            var (_, end) := DecodeAll(EncodeAll(bodies)[..c], cap, peer);
            && (end.Failed? <==> peer.Closes? || (peer.deadlines && left >= 4))
            && (!end.Failed? ==> end == Waiting(left))
            && (end == CleanEnd(peer) <==> left == 0)
  {
    CutStream(bodies, c, cap, peer);
  }

  lemma FirstAndRest<T>(xs: seq<T>, k: nat)
    requires k < |xs|
    ensures [xs[0]] + xs[1..][..k] == xs[..k + 1] && xs[..k + 1][1..] == xs[1..][..k]
  {
  }

  /** Round trip of whole streams: reading the concatenated frames returns the bodies in
      order and leaves nothing over; the next call reports the end of the stream if the peer
      has closed and waits for ever if it has not. */
  lemma StreamRoundTrip(bodies: seq<seq<Byte>>, cap: nat, peer: Peer)
    requires forall b :: b in bodies ==> Fits(b, cap)
    ensures DecodeAll(EncodeAll(bodies), cap, peer) == (bodies, CleanEnd(peer))
  {
    var bytes := EncodeAll(bodies);
    CutStream(bodies, |bytes|, cap, peer);
    AllAreWhole(bodies);
    assert bytes[..|bytes|] == bytes;
    assert bodies[..|bodies|] == bodies;
  }

  /** The other direction: only the encoding of its bodies reads cleanly to the end. */
  lemma {:induction false} CleanStreamIsAnEncoding(bytes: seq<Byte>, cap: nat, peer: Peer)
    requires DecodeAll(bytes, cap, peer).1 == CleanEnd(peer)
    ensures bytes == EncodeAll(DecodeAll(bytes, cap, peer).0)
    ensures forall b :: b in DecodeAll(bytes, cap, peer).0 ==> Fits(b, cap)
    decreases |bytes|
  {
    var (r, rest) := Decode(bytes, cap, peer);
    if r.Frame? {
      CleanStreamIsAnEncoding(rest, cap, peer);
      DecodedFrame(bytes, cap, peer);
      assert ([r.body] + DecodeAll(rest, cap, peer).0)[1..] == DecodeAll(rest, cap, peer).0;
    }
  }

  lemma DecodedFrame(bytes: seq<Byte>, cap: nat, peer: Peer)
    requires Decode(bytes, cap, peer).0.Frame?
    ensures var (r, rest) := Decode(bytes, cap, peer);
            bytes == Encode(r.body) + rest && Fits(r.body, cap)
  {
    var (r, rest) := Decode(bytes, cap, peer);
    LengthHasOnePrefix(bytes[..4]);
    assert bytes[4..] == r.body + rest;
    assert bytes == bytes[..4] + (r.body + rest);
    Assoc(bytes[..4], r.body, rest);
  }
}
