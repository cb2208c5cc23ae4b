/** The framed transport of both ends of the control connection (vm/src/utils.rs and
    app-manager/src/utils.rs): length-delimited frames written to and read from a byte stream.

    `serde_read` builds a frame reader, takes one frame out of it and drops the reader together
    with every byte it had already pulled from the stream. The codec is the default one: a
    four-byte big-endian length, then the payload, at most 8 MiB of it. */
module Framing {
  import opened Common

  const MAX_FRAME: nat := 8 * 1024 * 1024

  type Payload = p: seq<byte> | |p| <= MAX_FRAME

  // ---------------------------------------------------------------- codec

  function Header(n: nat): (h: seq<byte>)
    requires n <= MAX_FRAME
    ensures |h| == 4
  {
    [n / 0x100_0000, n / 0x1_0000 % 256, n / 0x100 % 256, n % 256]
  }

  function HeaderValue(b: seq<byte>): nat
    requires |b| >= 4
  {
    b[0] as int * 0x100_0000 + b[1] as int * 0x1_0000 + b[2] as int * 0x100 + b[3] as int
  }

  function Encode(p: Payload): seq<byte> {
    Header(|p|) + p
  }

  function EncodeAll(ps: seq<Payload>): seq<byte> {
    if ps == [] then [] else Encode(ps[0]) + EncodeAll(ps[1..])
  }

  datatype Decoded = NeedMore | TooBig | Frame(payload: seq<byte>, used: nat)

  /** What the decoder makes of the bytes it holds. */
  function Decode(b: seq<byte>): Decoded {
    if |b| < 4 then NeedMore
    else if HeaderValue(b) > MAX_FRAME then TooBig
    else if |b| < 4 + HeaderValue(b) then NeedMore
    else Frame(b[4..4 + HeaderValue(b)], 4 + HeaderValue(b))
  }

  lemma HeaderRoundTrip(n: nat)
    requires n <= MAX_FRAME
    ensures HeaderValue(Header(n)) == n
  {}

  /** Decoding an encoded frame gives it back and stops exactly at its end, whatever follows. */
  lemma DecodeEncode(p: Payload, rest: seq<byte>)
    ensures Decode(Encode(p) + rest) == Frame(p, |Encode(p)|)
  {
    HeaderRoundTrip(|p|);
    var b := Encode(p) + rest;
    assert b[..4] == Header(|p|);
    assert HeaderValue(b) == HeaderValue(b[..4]);
    assert b[4..4 + |p|] == p;
  }

  /** The decoder exactly: a frame is a big-endian length of at most 8 MiB followed by that many bytes,
      a longer length is refused, and everything else needs more bytes. */
  lemma DecodeExactly(b: seq<byte>)
    ensures var d := Decode(b);
            if |b| < 4 then d == NeedMore
            else
              var n := b[0] as int * 16777216 + b[1] as int * 65536 + b[2] as int * 256 + b[3] as int;
              if n > 8388608 then d == TooBig
              else if |b| < 4 + n then d == NeedMore
              else d == Frame(b[4..4 + n], 4 + n)
  {}

  /** The bytes of a frame: the length, most significant byte first, then the payload. */
  lemma EncodeExactly(p: Payload)
    ensures var b := Encode(p);
            && |b| == 4 + |p| && b[4..] == p
            && b[0] as int * 16777216 + b[1] as int * 65536 + b[2] as int * 256 + b[3] as int == |p|
  {
    HeaderRoundTrip(|p|);
  }

  /** More bytes never change a verdict the decoder has reached. */
  lemma DecodeMonotone(a: seq<byte>, b: seq<byte>)
    requires a <= b
    requires !Decode(a).NeedMore?
    ensures Decode(b) == Decode(a)
  {}

  // ---------------------------------------------------------------- serde_read

  /** The receiving end of a byte stream: everything that will ever have arrived, how much of it
      has been pulled out, and whether the peer closes the stream after the last byte. */
  class Wire {
    const data: seq<byte>
    const closes: bool
    var pos: nat

    ghost predicate Valid() reads this { pos <= |data| }

    function Rest(): seq<byte>
      requires Valid()
      reads this
    {
      data[pos..]
    }

    constructor (data: seq<byte>, closes: bool)
      ensures Valid() && pos == 0 && this.data == data && this.closes == closes
    {
      this.data := data;
      this.closes := closes;
      pos := 0;
    }
  }

  datatype ReadResult =
    | Got(payload: seq<byte>)
    | FrameTooBig        // SerdeReadError
    | StreamIsClosed     // end of stream between two frames
    | Truncated          // SerdeReadError: end of stream inside a frame
    | Blocked            // the read never completes

  /** The result of one `serde_read` as a function of the unread bytes alone. */
  function ReadOutcome(rest: seq<byte>, closes: bool): ReadResult {
    match Decode(rest)
    case Frame(p, _) => Got(p)
    case TooBig => FrameTooBig
    case NeedMore =>
      if !closes then Blocked
      else if rest == [] then StreamIsClosed
      else Truncated
  }

  /** How many bytes one read of the stream delivers when `avail` are left: as many as the next
      entry of `chunks` asks for, at least one; all of them when the list is exhausted. */
  function Chunk(avail: nat, chunks: seq<nat>): (n: nat)
    requires avail > 0
    ensures 1 <= n <= avail
  {
    if chunks == [] || chunks[0] > avail then avail
    else if chunks[0] == 0 then 1
    else chunks[0]
  }

  /** The number of bytes pulled out of `len` when reading goes on from `at` until at least `used`
      have arrived. */
  function Pulled(len: nat, chunks: seq<nat>, at: nat, used: nat): (r: nat)
    requires at <= len && used <= len
    ensures used <= r <= len
    decreases len - at
  {
    if at >= used then at
    else Pulled(len, if chunks == [] then [] else chunks[1..], at + Chunk(len - at, chunks), used)
  }

  lemma ShortOfFrame(a: seq<byte>, b: seq<byte>)
    requires a <= b && Decode(b).Frame?
    ensures Decode(a).NeedMore? <==> |a| < Decode(b).used
  {}

  /** One `serde_read`. Whatever the chunk sizes, the result is the same function of the unread
      bytes; what is left behind is not: everything pulled past the frame goes with the reader. */
  method SerdeRead(w: Wire, chunks: seq<nat>) returns (r: ReadResult)
    requires w.Valid()
    modifies w
    ensures w.Valid()
    ensures r == ReadOutcome(old(w.Rest()), w.closes)
    ensures match Decode(old(w.Rest()))
            case Frame(p, _) => r == Got(p)
            case TooBig => r == FrameTooBig
            case NeedMore =>
              r == if !w.closes then Blocked else if old(w.Rest()) == [] then StreamIsClosed else Truncated
    ensures r.Got? ==>
      w.pos == old(w.pos) + Pulled(|old(w.Rest())|, chunks, 0, Decode(old(w.Rest())).used)
  {
    var buffer: seq<byte> := [];
    ghost var start, rest := w.pos, w.Rest();
    var left := chunks;
    while true
      invariant start <= w.pos <= |w.data|
      invariant buffer == w.data[start..w.pos] == rest[..|buffer|]
      invariant Decode(rest).Frame? ==>
        Pulled(|rest|, left, |buffer|, Decode(rest).used) == Pulled(|rest|, chunks, 0, Decode(rest).used)
      decreases |w.data| - w.pos
    {
      match Decode(buffer) {
        case Frame(p, used) =>
          DecodeMonotone(buffer, rest);
          return Got(p);
        case TooBig =>
          DecodeMonotone(buffer, rest);
          return FrameTooBig;
        case NeedMore =>
          if w.pos == |w.data| {
            assert buffer == rest;
            return if !w.closes then Blocked else if buffer == [] then StreamIsClosed else Truncated;
          }
          if Decode(rest).Frame? { ShortOfFrame(buffer, rest); }
          var n := Chunk(|w.data| - w.pos, left);
          buffer := buffer + w.data[w.pos..w.pos + n];
          w.pos := w.pos + n;
          left := if left == [] then [] else left[1..];
      }
    }
  }

  // ---------------------------------------------------------------- what a read leaves behind

  /** A frame that is alone in flight is read exactly, in any chunks: nothing is lost. */
  lemma LoneFrameReadExactly(p: Payload, chunks: seq<nat>)
    ensures var wire := Encode(p);
            && ReadOutcome(wire, false) == Got(p)
            && Pulled(|wire|, chunks, 0, Decode(wire).used) == |wire|
  {
    DecodeEncode(p, []);
    assert Encode(p) + [] == Encode(p);
  }

  /** With more frames behind it the first frame is still read correctly, and every amount of
      over-reading, from none to everything that follows, is possible. */
  lemma QueuedFramesMayBeLost(p: Payload, rest: seq<byte>, over: nat)
    requires over <= |rest|
    ensures var wire := Encode(p) + rest;
            && ReadOutcome(wire, false) == Got(p)
            && exists chunks :: Pulled(|wire|, chunks, 0, Decode(wire).used) == |Encode(p)| + over
  {
    var wire := Encode(p) + rest;
    DecodeEncode(p, rest);
    var chunks: seq<nat> := [|Encode(p)| + over];
    assert Chunk(|wire|, chunks) == |Encode(p)| + over;
    assert Pulled(|wire|, chunks, 0, |Encode(p)|) == |Encode(p)| + over;
  }

  /** What can remain of a queue of frames after over-reading: some whole frames are gone, and
      possibly the next one has lost a proper, non-empty prefix. */
  ghost predicate Remains(ps: seq<Payload>, left: seq<byte>, gone: nat, cut: nat) {
    && gone <= |ps|
    && (cut == 0 ==> left == EncodeAll(ps[gone..]))
    && (cut > 0 ==> gone < |ps| && cut < |Encode(ps[gone])|
                    && left == Encode(ps[gone])[cut..] + EncodeAll(ps[gone + 1..]))
  }

  lemma {:induction false} OverReadShapes(ps: seq<Payload>, over: nat) returns (gone: nat, cut: nat)
    requires over <= |EncodeAll(ps)|
    ensures Remains(ps, EncodeAll(ps)[over..], gone, cut)
  {
    if over == 0 {
      gone, cut := 0, 0;
    } else if over < |Encode(ps[0])| {
      gone, cut := 0, over;
    } else {
      var skip := |Encode(ps[0])|;
      gone, cut := OverReadShapes(ps[1..], over - skip);
      assert EncodeAll(ps)[over..] == EncodeAll(ps[1..])[over - skip..];
      assert ps[1..][gone..] == ps[gone + 1..];
      if cut > 0 {
        assert ps[1..][gone + 1..] == ps[gone + 2..];
      }
      gone := gone + 1;
    }
  }

  /** One `serde_read` on a queue of frames takes the first one and leaves what over-reading leaves. */
  lemma SerdeReadTakesFirstFrame(head: Payload, ps: seq<Payload>, chunks: seq<nat>) returns (gone: nat, cut: nat)
    ensures var wire := EncodeAll([head] + ps);
            && ReadOutcome(wire, false) == Got(head)
            && Remains(ps, wire[Pulled(|wire|, chunks, 0, Decode(wire).used)..], gone, cut)
    ensures ps == [] ==> gone == 0 && cut == 0
  {
    var wire := EncodeAll([head] + ps);
    assert ([head] + ps)[1..] == ps;
    DecodeEncode(head, EncodeAll(ps));
    var pulled := Pulled(|wire|, chunks, 0, |Encode(head)|);
    var over := pulled - |Encode(head)|;
    gone, cut := OverReadShapes(ps, over);
    assert wire[pulled..] == EncodeAll(ps)[over..];
  }

  /** JSON text: no byte below the space character. */
  predicate IsText(p: seq<byte>) {
    forall i | 0 <= i < |p| :: p[i] >= 0x20
  }

  /** A frame of text shorter than 64 KiB that has lost a proper prefix never decodes: the reader
      waits for bytes that do not come, or refuses the length it finds. */
  lemma TornFrameNeverDecodes(p: Payload, cut: nat)
    requires IsText(p) && |p| < 0x1_0000
    requires 0 < cut < |Encode(p)|
    ensures !Decode(Encode(p)[cut..]).Frame?
  {}

  /** The bound is exact: a text frame of 64 KiB cut after two bytes decodes as another frame. */
  lemma TornLongFrameDecodes(p: Payload)
    requires |p| == 0x1_0000 && forall i | 0 <= i < |p| :: p[i] == 0x20
    ensures IsText(p) && Decode(Encode(p)[2..]).Frame?
  {}

  predicate IsLetter(b: byte) {
    0x41 <= b <= 0x5a || 0x61 <= b <= 0x7a
  }

  /** How the JSON of a command begins: a brace, a quote and a name of at least two letters. */
  predicate IsCommandText(p: seq<byte>) {
    |p| >= 4 && IsText(p) && p[0] == 0x7b && p[1] == 0x22 && IsLetter(p[2]) && IsLetter(p[3])
  }

  /** Of a command of any length: what is left of its frame is too short to decide on, has a length
      that is refused, or decodes to something that begins with a letter, which no command does. */
  lemma TornCommandNeverDelivered(p: Payload, cut: nat)
    requires IsCommandText(p) && 0 < cut < |Encode(p)|
    ensures var d := Decode(Encode(p)[cut..]); d.Frame? ==> d.payload != [] && IsLetter(d.payload[0])
  {
    var left := Encode(p)[cut..];
    if |left| >= 4 && cut < 4 {
      assert left[4 - cut] == p[0] && left[4] == p[cut];
      assert HeaderValue(left) > 0;
    }
  }

  /** Both happen to every command: the last byte alone is too little to decide on, and the payload
      without its length is refused. */
  lemma TornEitherWay(p: Payload)
    requires IsCommandText(p)
    ensures Decode(Encode(p)[|Encode(p)| - 1..]).NeedMore?
    ensures Decode(Encode(p)[4..]).TooBig?
  {
    assert Encode(p)[4..] == p;
  }
}
