/** Bounded copies: the chunk loop between a source and a sink that may each do less than
    asked, and the sink that seeks over zeros instead of writing them. */
module Copying {
  import opened Common

  datatype Error =
    | Cancelled(at: nat)
    | SourceFailed(at: nat)
    | ShortRead(at: nat)
    | TooMuch(at: nat)
    | OutputFailed(at: nat)

  datatype Copied = Copied(bytes: nat, sha256: string)

  /** What can stop a copy: a signal, a source that cannot be read, ends early or answers more
      than it was asked for, or a call on the file that fails. */
  datatype Cause = Signal | Unreadable | Early | Overfull | Device

  function CauseOf(e: Error): Cause {
    match e
    case Cancelled(_) => Signal
    case SourceFailed(_) => Unreadable
    case ShortRead(_) => Early
    case TooMuch(_) => Overfull
    case OutputFailed(_) => Device
  }

  datatype WriteReply = Took(n: nat) | Interrupted | Refused

  /** Everything that may go wrong around a copy. Signals may arrive before any check; a
      call can only be interrupted finitely often. `trouble` remembers everything that
      has happened and should stop the copy, and `looked` whether a signal has been looked
      for, and none found, since the last call that may take long. */
  class World {
    var patience: nat
    ghost var trouble: set<Cause>
    ghost var looked: bool

    constructor (patience: nat)
      ensures this.patience == patience && trouble == {}
    {
      this.patience, trouble, looked := patience, {}, false;
    }

    method Cancelled() returns (c: bool)
      modifies this`trouble, this`looked
      ensures trouble == old(trouble) + (if c then {Signal} else {}) && looked == !c
    {
      c := *;
      looked := !c;
      trouble := trouble + if c then {Signal} else {};
    }

    /** Whether a call that is not interrupted fails. */
    method Fails(ghost why: Cause) returns (f: bool)
      modifies this`trouble
      ensures trouble == old(trouble) + if f then {why} else {}
    {
      f := *;
      trouble := trouble + if f then {why} else {};
    }

    method Interrupts() returns (i: bool)
      modifies this`patience
      ensures i ==> patience < old(patience)
      ensures !i ==> patience == old(patience)
    {
      i := *;
      if patience == 0 {
        return false;
      }
      if i {
        patience := patience - 1;
      }
    }
  }

  /** A source answers a read with as many of its bytes as it likes, or fails. */
  class Source {
    const content: nat -> Byte
    const size: nat

    constructor (content: nat -> Byte, size: nat)
      ensures this.content == content && this.size == size
    {
      this.content, this.size := content, size;
    }

    method ReadAt(w: World, offset: nat, want: nat) returns (r: Option<Bytes>)
      requires w.looked
      modifies w`trouble, w`looked
      ensures r.Some? ==> r.value == Span(content, offset, |r.value|)
      ensures w.trouble == old(w.trouble) +
        if r.None? then {Unreadable} else if |r.value| == 0 then {Early}
        else if |r.value| > want then {Overfull} else {}
    {
      w.looked := false;
      var f := w.Fails(Unreadable);
      if f {
        return None;
      }
      var n: nat := *;
      r := Some(Span(content, offset, n));
      w.trouble := w.trouble + if n == 0 then {Early} else if n > want then {Overfull} else {};
    }
  }

  /** `n` bytes of a source from `offset` on. */
  function Span(content: nat -> Byte, offset: nat, n: nat): (s: Bytes)
    ensures |s| == n
  {
    seq(n, (i: nat) => content(offset + i))
  }

  lemma SpanJoin(content: nat -> Byte, offset: nat, m: nat, n: nat)
    ensures Span(content, offset, m) + Span(content, offset + m, n) == Span(content, offset, m + n)
  {
  }

  predicate AllZero(s: Bytes) {
    forall i :: 0 <= i < |s| ==> s[i] == 0
  }

  /** An output and its cursor, and what one write of a chunk makes of them when the file
      takes the first `n` bytes of it. */
  datatype Cursor = Cursor(bytes: Bytes, pos: nat)

  function WriteChunk(sparse: bool, c: Cursor, chunk: Bytes, n: nat): Cursor
    requires n <= |chunk|
  {
    if sparse && AllZero(chunk) then Cursor(c.bytes, c.pos + |chunk|)
    else Cursor(Overwrite(c.bytes, c.pos, chunk[..n]), c.pos + n)
  }

  /** The bytes the output stands for: what lies past its end, up to the cursor, is zeros. */
  ghost function Logical(c: Cursor): Bytes {
    if |c.bytes| <= c.pos then c.bytes + Zeros(c.pos - |c.bytes|) else c.bytes
  }

  function Resized(bytes: Bytes, len: nat): Bytes {
    if len <= |bytes| then bytes[..len] else bytes + Zeros(len - |bytes|)
  }

  /** Seeking over zeros stands for the same bytes as writing them. */
  lemma WriteAppends(sparse: bool, c: Cursor, chunk: Bytes, n: nat)
    requires |c.bytes| <= c.pos && n <= |chunk| && (sparse && AllZero(chunk) ==> n == |chunk|)
    ensures var c' := WriteChunk(sparse, c, chunk, n);
      && |c'.bytes| <= c'.pos == c.pos + n
      && Logical(c') == Logical(c) + chunk[..n]
      && (!sparse && |c.bytes| == c.pos ==> |c'.bytes| == c'.pos)
  {
    if sparse && AllZero(chunk) {
      assert chunk[..n] == Zeros(n);
    } else if n == 0 && |c.bytes| == c.pos {
      assert Overwrite(c.bytes, c.pos, chunk[..n]) == c.bytes;
    }
  }

  function Flatten(chunks: seq<Bytes>): Bytes {
    if chunks == [] then [] else chunks[0] + Flatten(chunks[1..])
  }

  function WriteChunks(sparse: bool, c: Cursor, chunks: seq<Bytes>): Cursor
    decreases chunks
  {
    if chunks == [] then c else WriteChunks(sparse, WriteChunk(sparse, c, chunks[0], |chunks[0]|), chunks[1..])
  }

  lemma {:induction false} ChunksAppend(sparse: bool, c: Cursor, chunks: seq<Bytes>)
    requires |c.bytes| <= c.pos
    ensures var c' := WriteChunks(sparse, c, chunks);
      |c'.bytes| <= c'.pos && Logical(c') == Logical(c) + Flatten(chunks)
    decreases chunks
  {
    hide WriteChunk, Logical;
    if chunks == [] {
    } else {
      var chunk, rest := chunks[0], Flatten(chunks[1..]);
      WriteAppends(sparse, c, chunk, |chunk|);
      ChunksAppend(sparse, WriteChunk(sparse, c, chunk, |chunk|), chunks[1..]);
      assert chunk[..|chunk|] == chunk && Logical(c) + chunk + rest == Logical(c) + (chunk + rest);
    }
  }

  /** However the bytes are split into chunks, a sparse copy whose length is then set holds
      the bytes a dense copy holds: all of them. */
  lemma SparseIsDense(chunks: seq<Bytes>, chunks': seq<Bytes>)
    requires Flatten(chunks) == Flatten(chunks')
    ensures var dense := WriteChunks(false, Cursor([], 0), chunks);
      var sparse := WriteChunks(true, Cursor([], 0), chunks');
      Resized(sparse.bytes, |Flatten(chunks)|) == Resized(dense.bytes, |Flatten(chunks)|) == Flatten(chunks)
  {
    var dense := WriteChunks(false, Cursor([], 0), chunks);
    var sparse := WriteChunks(true, Cursor([], 0), chunks');
    ChunksAppend(false, Cursor([], 0), chunks);
    ChunksAppend(true, Cursor([], 0), chunks');
    ResizedIsLogical(dense);
    ResizedIsLogical(sparse);
    assert Logical(Cursor([], 0)) == [];
  }

  /** Setting the length to what was delivered makes the file hold just that. */
  lemma ResizedIsLogical(c: Cursor)
    requires |c.bytes| <= c.pos
    ensures |Logical(c)| == c.pos && Resized(c.bytes, c.pos) == Logical(c)
  {
  }

  /** The file a copy goes to, or a stream, which is a file nobody seeks in. */
  class Output {
    const sparse: bool
    var bytes: Bytes
    var pos: nat
    ghost var flushed: bool

    constructor (sparse: bool)
      ensures this.sparse == sparse && Valid() && Delivered() == [] && bytes == []
    {
      this.sparse, bytes, pos, flushed := sparse, [], 0, false;
    }

    ghost predicate Valid()
      reads this
    {
      |bytes| <= pos && (!sparse ==> |bytes| == pos)
    }

    ghost function Delivered(): Bytes
      reads this
    {
      Logical(Cursor(bytes, pos))
    }

    /** Write some of a chunk, or seek over one that is all zeros. */
    method Write(w: World, chunk: Bytes) returns (r: WriteReply)
      requires Valid() && chunk != [] && w.looked
      modifies this`bytes, this`pos, this`flushed, w
      ensures Valid() && !flushed && w.looked == !r.Interrupted?
      ensures r.Took? ==> r.n <= |chunk| && Delivered() == old(Delivered()) + chunk[..r.n]
      ensures !r.Took? ==> bytes == old(bytes) && pos == old(pos)
      ensures r.Took? && sparse && AllZero(chunk) ==> r.n == |chunk| && bytes == old(bytes)
      ensures r.Took? && !(sparse && AllZero(chunk)) ==> bytes == Overwrite(old(bytes), old(pos), chunk[..r.n])
      ensures if r.Interrupted? then w.patience < old(w.patience) else w.patience == old(w.patience)
      ensures w.trouble == old(w.trouble) + if r.Refused? || r == Took(0) then {Device} else {}
    {
      flushed := false;
      var f := w.Fails(Device);
      if f {
        return Refused;
      }
      if sparse && AllZero(chunk) {
        WriteAppends(sparse, Cursor(bytes, pos), chunk, |chunk|);
        pos := pos + |chunk|;
        return Took(|chunk|);
      }
      var i := w.Interrupts();
      if i {
        w.looked := false;
        return Interrupted;
      }
      var n: nat := *;
      n := Min(n, |chunk|);
      WriteAppends(sparse, Cursor(bytes, pos), chunk, n);
      bytes, pos := Overwrite(bytes, pos, chunk[..n]), pos + n;
      w.trouble := w.trouble + if n == 0 then {Device} else {};
      r := Took(n);
    }

    /** Hand on whatever is buffered. */
    method Flush(w: World) returns (ok: bool)
      requires w.looked
      modifies this`flushed, w`trouble, w`looked
      ensures w.trouble == old(w.trouble) + (if ok then {} else {Device}) && flushed == ok && !w.looked
    {
      w.looked := false;
      var f := w.Fails(Device);
      ok, flushed := !f, !f;
    }

    method SetLen(w: World, len: nat) returns (ok: bool)
      requires Valid()
      modifies this`bytes, w`trouble
      ensures w.trouble == old(w.trouble) + if ok then {} else {Device}
      ensures bytes == if ok then Resized(old(bytes), len) else old(bytes)
    {
      var f := w.Fails(Device);
      if f {
        return false;
      }
      bytes := if len <= |bytes| then bytes[..len] else bytes + Zeros(len - |bytes|);
      ok := true;
    }
  }

  /** Copy a source into an empty output. The output has received exactly the first bytes
      of the source, as many as any error reports; all of them, with their digest, exactly
      when nothing when nothing went wrong. An error says what did, and is a cancellation exactly when a
      signal came; one is looked for before every read, after every interruption, and once
      more at the end. */
  method Pump(source: Source, sink: Output, w: World, hash: Bytes -> string) returns (r: Result<Copied, Error>)
    requires sink.Valid() && sink.Delivered() == [] && w.trouble == {}
    modifies sink, w
    ensures sink.Valid() && |sink.Delivered()| <= source.size
    ensures sink.Delivered() == Span(source.content, 0, |sink.Delivered()|)
    ensures r.Ok? <==> w.trouble == {}
    ensures r.Err? ==> CauseOf(r.error) in w.trouble
    ensures Signal in w.trouble ==> r.Err? && r.error.Cancelled?
    ensures r.Ok? ==> sink.flushed && w.looked
    ensures r.Ok? ==> |sink.Delivered()| == source.size && r.value == Copied(source.size, hash(sink.Delivered()))
    ensures r.Err? ==> r.error.at == |sink.Delivered()|
  {
    var size := source.size;
    var room := Min(size, CHUNK);
    var digested: Bytes, offset := [], 0;
    while offset < size
      invariant sink.Valid() && w.trouble == {} && offset <= size
      invariant sink.Delivered() == digested == Span(source.content, 0, offset)
    {
      var stop := w.Cancelled();
      if stop {
        return Err(Cancelled(offset));
      }
      var want := Min(room, size - offset);
      var got := source.ReadAt(w, offset, want);
      stop := w.Cancelled();
      if stop {
        return Err(Cancelled(offset));
      }
      if got.None? {
        return Err(SourceFailed(offset));
      }
      if |got.value| == 0 {
        return Err(ShortRead(offset));
      }
      if |got.value| > want {
        return Err(TooMuch(offset));
      }
      SpanJoin(source.content, 0, offset, |got.value|);
      digested := digested + got.value;
      var failed := PumpChunk(source, sink, w, offset, got.value);
      if failed.Some? {
        return Err(failed.value);
      }
      offset := offset + |got.value|;
    }
    var stop := w.Cancelled();
    if stop {
      return Err(Cancelled(offset));
    }
    var flushed := sink.Flush(w);
    stop := w.Cancelled();
    if stop {
      return Err(Cancelled(offset));
    }
    if !flushed {
      return Err(OutputFailed(offset));
    }
    r := Ok(Copied(offset, hash(digested)));
  }

  /** Write one chunk, however many writes that takes. */
  method PumpChunk(source: Source, sink: Output, w: World, offset: nat, chunk: Bytes) returns (failed: Option<Error>)
    requires sink.Valid() && w.trouble == {} && w.looked && sink.Delivered() == Span(source.content, 0, offset)
    requires chunk == Span(source.content, offset, |chunk|)
    modifies sink`bytes, sink`pos, sink`flushed, w
    ensures sink.Valid() && |sink.Delivered()| <= offset + |chunk|
    ensures sink.Delivered() == Span(source.content, 0, |sink.Delivered()|)
    ensures failed.None? <==> w.trouble == {}
    ensures failed.Some? ==> CauseOf(failed.value) in w.trouble
    ensures Signal in w.trouble ==> failed.Some? && failed.value.Cancelled?
    ensures failed.None? ==> |sink.Delivered()| == offset + |chunk|
    ensures failed.Some? ==> failed.value.at == |sink.Delivered()|
  {
    var done := 0;
    while done < |chunk|
      invariant sink.Valid() && w.trouble == {} && w.looked && done <= |chunk|
      invariant sink.Delivered() == Span(source.content, 0, offset + done)
      decreases |chunk| - done, w.patience
    {
      var reply := sink.Write(w, chunk[done..]);
      match reply
      case Refused =>
        return Some(OutputFailed(offset + done));
      case Interrupted =>
        var stop := w.Cancelled();
        if stop {
          return Some(Cancelled(offset + done));
        }
      case Took(n) =>
        if n == 0 {
          return Some(OutputFailed(offset + done));
        }
        assert chunk[done..][..n] == Span(source.content, offset + done, n);
        SpanJoin(source.content, 0, offset + done, n);
        done := done + n;
    }
    failed := None;
  }
}
