/** Hashing while reading (image/handler/src/hasher.rs) and reading to the end
    (image/handler/src/util.rs). */
module Hashing {
  import opened Common
  import opened Manifests

  /** A file on disk. With `faultAt == Some(k)` every read at offset `k` fails. */
  datatype Stored = Stored(data: seq<byte>, faultAt: Option<nat>) {
    /** How far the file can be read. */
    function Limit(): (n: nat)
      ensures n <= |data|
    {
      if faultAt.Some? && faultAt.value <= |data| then faultAt.value else |data|
    }

    function Readable(): seq<byte> { data[..Limit()] }

    /** Reading up to and including the end of the file succeeds. */
    predicate Sound() { faultAt.Some? ==> faultAt.value > |data| }
  }

  /** How the file answers one poll: not yet, or with about `n` bytes. */
  datatype Poll = Later | Bytes(n: nat)

  datatype PollResult = Pending | Ready | Failed

  /** `tokio::io::ReadBuf`: a buffer of fixed size and its filled part. */
  class ReadBuf {
    const capacity: nat
    var filled: seq<byte>

    ghost predicate Valid() reads this { |filled| <= capacity }

    constructor (capacity: nat)
      ensures Valid() && this.capacity == capacity && filled == []
    {
      this.capacity := capacity;
      filled := [];
    }
  }

  /** An open file. `script` says how it answers the coming polls; when it is exhausted, every poll
      delivers as much as it can. */
  class File {
    const content: Stored
    var pos: nat
    var script: seq<Poll>

    ghost predicate Valid() reads this { pos <= content.Limit() }

    constructor (content: Stored, script: seq<Poll>)
      ensures Valid() && pos == 0 && this.content == content && this.script == script
    {
      this.content := content;
      this.script := script;
      pos := 0;
    }

    /** Appends the next bytes of the file to the buffer, at least one if there are any and there is
        room for them. */
    method PollRead(buf: ReadBuf) returns (p: PollResult)
      requires Valid() && buf.Valid()
      modifies this, buf
      ensures Valid() && buf.Valid() && old(pos) <= pos
      ensures buf.filled == old(buf.filled) + content.data[old(pos)..pos]
      ensures p.Pending? ==> old(script) != [] && script == old(script)[1..] && pos == old(pos)
      ensures script == old(script) || (old(script) != [] && script == old(script)[1..])
      ensures p.Failed? ==> pos == old(pos) == content.Limit() && !content.Sound()
      ensures p.Ready? && pos == old(pos) && |buf.filled| < buf.capacity
              ==> pos == content.Limit() && content.Sound()
    {
      var next := if script == [] then Bytes(|content.data|) else script[0];
      script := if script == [] then [] else script[1..];
      if next.Later? {
        return Pending;
      }
      var room, left := buf.capacity - |buf.filled|, content.Limit() - pos;
      if room > 0 && left == 0 && !content.Sound() {
        return Failed;
      }
      var most := if room < left then room else left;
      var n := if next.n > most then most else if next.n == 0 && most > 0 then 1 else next.n;
      buf.filled := buf.filled + content.data[pos..pos + n];
      pos := pos + n;
      p := Ready;
    }
  }

  /** A reader that hashes what passes through it. `absorbed` is the input of the running hash. */
  class Hasher {
    const ty: HashType
    const inner: File
    var absorbed: seq<byte>

    ghost predicate Valid() reads this, inner { inner.Valid() }

    constructor (ty: HashType, inner: File)
      requires inner.Valid()
      ensures Valid() && this.ty == ty && this.inner == inner && absorbed == []
    {
      this.ty := ty;
      this.inner := inner;
      absorbed := [];
    }

    /** The hash of everything absorbed; the running hash starts afresh. */
    method Finalize(hash: (HashType, seq<byte>) -> seq<byte>) returns (digest: seq<byte>)
      modifies this
      ensures digest == hash(ty, old(absorbed)) && absorbed == []
    {
      digest := hash(ty, absorbed);
      absorbed := [];
    }

    /** Exactly the bytes this poll adds to the buffer enter the hash, whatever the buffer already
        holds and however the poll ends. */
    method PollRead(buf: ReadBuf) returns (p: PollResult)
      requires Valid() && buf.Valid()
      modifies this, inner, buf
      ensures Valid() && buf.Valid() && old(inner.pos) <= inner.pos
      ensures absorbed == old(absorbed) + inner.content.data[old(inner.pos)..inner.pos]
      ensures buf.filled == old(buf.filled) + inner.content.data[old(inner.pos)..inner.pos]
      ensures p.Pending? ==> inner.pos == old(inner.pos) && |inner.script| < |old(inner.script)|
      ensures |inner.script| <= |old(inner.script)|
      ensures p.Failed? ==> inner.pos == old(inner.pos) == inner.content.Limit() && !inner.content.Sound()
      ensures p.Ready? && inner.pos == old(inner.pos) && |buf.filled| < buf.capacity
              ==> inner.pos == inner.content.Limit() && inner.content.Sound()
    {
      var previous := |buf.filled|;
      p := inner.PollRead(buf);
      if !p.Pending? {
        var data := buf.filled[previous..];
        absorbed := absorbed + data;
      }
    }

    /** `AsyncReadExt::read` into a buffer of the given size: polls until the reader is ready. */
    method Read(size: nat) returns (r: Option<seq<byte>>)
      requires Valid() && size > 0
      modifies this, inner
      ensures Valid() && old(inner.pos) <= inner.pos
      ensures absorbed == old(absorbed) + inner.content.data[old(inner.pos)..inner.pos]
      ensures r.None? ==> inner.pos == old(inner.pos) == inner.content.Limit() && !inner.content.Sound()
      ensures r.Some? ==> r.value == inner.content.data[old(inner.pos)..inner.pos] && |r.value| <= size
      ensures r == Some([]) ==> inner.pos == inner.content.Limit() && inner.content.Sound()
    {
      var buf := new ReadBuf(size);
      while true
        invariant Valid() && buf.Valid() && buf.capacity == size && fresh(buf)
        invariant inner.pos == old(inner.pos) && absorbed == old(absorbed) && buf.filled == []
        decreases |inner.script|
      {
        var p := PollRead(buf);
        if p.Ready? { return Some(buf.filled); }
        if p.Failed? { return None; }
      }
    }

    /** Reading until the end of the file or a failing read, whichever comes first. The buffer sizes
        come from `sizes`, then stay at 1024. */
    method ReadToEnd(sizes: seq<nat>) returns (ok: bool, content: seq<byte>)
      requires Valid()
      modifies this, inner
      ensures Valid() && inner.pos == inner.content.Limit()
      ensures ok <==> inner.content.Sound()
      ensures content == inner.content.data[old(inner.pos)..inner.pos]
      ensures absorbed == old(absorbed) + content
    {
      content := [];
      var i := 0;
      while true
        invariant Valid() && old(inner.pos) <= inner.pos
        invariant content == inner.content.data[old(inner.pos)..inner.pos]
        invariant absorbed == old(absorbed) + content
        decreases inner.content.Limit() - inner.pos
      {
        var r := Read(if i < |sizes| && sizes[i] > 0 then sizes[i] else 1024);
        if r.None? { return false, content; }
        if r.value == [] { return true, content; }
        content := content + r.value;
        i := i + 1;
      }
    }

    /** Pulls `want` bytes, or as many as can be read, through the hash: what an unpacker does. */
    method Take(want: nat, size: nat) returns (ok: bool)
      requires Valid() && size > 0
      modifies this, inner
      ensures Valid() && old(inner.pos) <= inner.pos
      ensures absorbed == old(absorbed) + inner.content.data[old(inner.pos)..inner.pos]
      ensures ok ==> inner.pos == old(inner.pos) + want
      ensures old(inner.pos) + want <= inner.content.Limit() ==> ok
    {
      var got := 0;
      while got < want
        invariant Valid() && inner.pos == old(inner.pos) + got
        invariant absorbed == old(absorbed) + inner.content.data[old(inner.pos)..inner.pos]
        invariant got <= want
        decreases want - got
      {
        var r := Read(if want - got < size then want - got else size);
        if r.None? || r.value == [] { return false; }
        got := got + |r.value|;
      }
      ok := true;
    }
  }

  /** Reads and drops everything up to the end of the file; a failing read ends it silently. */
  method DiscardRest(h: Hasher)
    requires h.Valid()
    modifies h, h.inner
    ensures h.Valid() && h.inner.pos == h.inner.content.Limit()
    ensures h.absorbed == old(h.absorbed) + h.inner.content.data[old(h.inner.pos)..h.inner.content.Limit()]
  {
    while true
      invariant h.Valid() && old(h.inner.pos) <= h.inner.pos
      invariant h.absorbed == old(h.absorbed) + h.inner.content.data[old(h.inner.pos)..h.inner.pos]
      decreases h.inner.content.Limit() - h.inner.pos
    {
      var v := h.Read(1024);
      if v.None? || |v.value| == 0 { break; }
    }
  }

  /** An unpacker that stops after `want` bytes, then draining: the digest is that of everything in
      the file that can be read, so of the whole file when no read fails. */
  method HashThroughUnpacker(hash: (HashType, seq<byte>) -> seq<byte>, ty: HashType, content: Stored,
                             script: seq<Poll>, want: nat, size: nat)
    returns (unpacked: bool, digest: seq<byte>)
    requires size > 0
    ensures want <= content.Limit() <==> unpacked
    ensures digest == hash(ty, content.Readable())
    ensures content.Sound() ==> digest == hash(ty, content.data)
  {
    var file := new File(content, script);
    var reader := new Hasher(ty, file);
    unpacked := reader.Take(want, size);
    DiscardRest(reader);
    assert content.Sound() ==> content.Readable() == content.data;
    assert reader.absorbed == content.Readable();
    digest := reader.Finalize(hash);
  }

  /** `read_measured`: the content of a file and its hash, or nothing when a read fails. */
  method ReadMeasured(hash: (HashType, seq<byte>) -> seq<byte>, ty: HashType, content: Stored, script: seq<Poll>)
    returns (r: Option<(seq<byte>, seq<byte>)>)
    ensures r == if content.Sound() then Some((content.data, hash(ty, content.data))) else None
  {
    var file := new File(content, script);
    var reader := new Hasher(ty, file);
    var ok, text := reader.ReadToEnd([32, 32, 64]);
    if !ok { return None; }
    assert reader.absorbed == text == content.data;
    var digest := reader.Finalize(hash);
    r := Some((text, digest));
  }
}
