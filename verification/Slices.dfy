/** Windows on a device, nested to any depth: each clamps itself to what its parent holds
    and moves every request by where it starts. */
module Slices {
  import opened Common

  datatype Error =
    | ReadOnly
    | OutOfBounds(offset: nat, len: nat, size: nat)
    | ShortRead(offset: nat, want: nat, got: nat)

  datatype Geometry = Geometry(start: nat, length: nat)

  /** A base device of so many bytes, or a slice of another device; a slice made for reading
      refuses every write. */
  datatype Device =
    | Base(size: nat, writable: bool)
    | Slice(parent: Device, geom: Geometry, forWriting: bool)

  function Size(d: Device): nat {
    match d
    case Base(size, _) => size
    case Slice(_, geom, _) => geom.length
  }

  predicate Writable(d: Device) {
    match d
    case Base(_, writable) => writable
    case Slice(parent, _, forWriting) => forWriting && Writable(parent)
  }

  /** How much of a window the parent has, or nothing when it starts past the parent's end. */
  function WindowOnParent(parentSize: nat, start: nat, length: nat): Option<nat> {
    if start >= parentSize then None else Some(Min(length, parentSize - start))
  }

  function NewSlice(parent: Device, start: nat, length: nat, forWriting: bool): Device {
    var window := WindowOnParent(Size(parent), start, length);
    Slice(parent, Geometry(start, if window.Some? then window.value else 0), forWriting)
  }

  /** Where a request of a slice lands in its parent. */
  function Rebase(g: Geometry, offset: nat, len: nat): Option<nat> {
    match CheckedAdd(offset, len)
    case None => None
    case Some(end) => if end > g.length then None else CheckedAdd(g.start, offset)
  }

  /** What the device answers to a read when the base holds `bytes`. The base answers what
      a file does: an empty read always, anything else if it ends within the file. */
  function ReadAt(d: Device, bytes: Bytes, offset: nat, len: nat): Result<Bytes, Error> {
    match d
    case Base(_, _) =>
      if len == 0 then Ok([])
      else if offset + len <= |bytes| then Ok(bytes[offset..offset + len])
      else Err(ShortRead(offset, len, SatSub(|bytes|, offset)))
    case Slice(parent, g, _) =>
      match Rebase(g, offset, len)
      case None => Err(ShortRead(offset, len, 0))
      case Some(at) => ReadAt(parent, bytes, at, len)
  }

  /** What a write makes of the base's bytes, and the answer. */
  function WriteAt(d: Device, bytes: Bytes, offset: nat, data: Bytes): (Bytes, Result<(), Error>) {
    match d
    case Base(size, writable) =>
      if !writable then (bytes, Err(ReadOnly))
      else if offset + |data| > |bytes| then (bytes, Err(OutOfBounds(offset, |data|, size)))
      else (bytes[..offset] + data + bytes[offset + |data|..], Ok(()))
    case Slice(parent, g, forWriting) =>
      if !forWriting then (bytes, Err(ReadOnly))
      else match Rebase(g, offset, |data|)
        case None => (bytes, Err(OutOfBounds(offset, |data|, g.length)))
        case Some(at) => if !Writable(parent) then (bytes, Err(ReadOnly)) else WriteAt(parent, bytes, at, data)
  }

  /** Every slice was made from its parent, over a base of `n` bytes, with 64-bit numbers. */
  ghost predicate Made(d: Device, n: nat) {
    match d
    case Base(size, _) => size == n <= U64_MAX
    case Slice(parent, g, forWriting) =>
      && Made(parent, n) && g.start <= U64_MAX
      && exists length: nat :: length <= U64_MAX && d == NewSlice(parent, g.start, length, forWriting)
  }

  /** Where the device begins in the base. */
  function Origin(d: Device): nat {
    match d
    case Base(_, _) => 0
    case Slice(parent, g, _) => Origin(parent) + g.start
  }

  /** However deep it is nested, a device is one window of the base, wholly inside it. */
  lemma {:induction false} InsideBase(d: Device, n: nat)
    requires Made(d, n)
    ensures Size(d) <= n && (Size(d) > 0 ==> Origin(d) + Size(d) <= n)
    ensures d.Slice? ==> Size(d) <= Size(d.parent) && (Size(d) > 0 ==> d.geom.start + Size(d) <= Size(d.parent))
  {
    if d.Base? {
    } else {
      InsideBase(d.parent, n);
    }
  }

  /** A request within the slice's length never overflows on its way to the parent, and
      lands within the parent. */
  lemma RebaseFits(d: Device, n: nat, offset: nat, len: nat)
    requires Made(d, n) && d.Slice? && offset <= U64_MAX && len <= U64_MAX
    ensures Rebase(d.geom, offset, len) == if offset + len <= Size(d) then Some(d.geom.start + offset) else None
    ensures offset + len <= Size(d) && len > 0 ==> d.geom.start + offset + len <= Size(d.parent)
  {
    InsideBase(d, n);
  }

  /** A read that asks for something succeeds exactly within the device's size, and returns
      the base's bytes at its place in the window; a slice refuses any other untouched. */
  lemma {:induction false} ReadIsWindow(d: Device, bytes: Bytes, offset: nat, len: nat)
    requires Made(d, |bytes|) && 0 < len <= U64_MAX && offset <= U64_MAX
    ensures offset + len <= Size(d) ==>
      Origin(d) + offset + len <= |bytes|
      && ReadAt(d, bytes, offset, len) == Ok(bytes[Origin(d) + offset..Origin(d) + offset + len])
    ensures offset + len > Size(d) ==> ReadAt(d, bytes, offset, len).Err?
    ensures offset + len > Size(d) && d.Slice? ==> ReadAt(d, bytes, offset, len) == Err(ShortRead(offset, len, 0))
  {
    if d.Base? {
    } else {
      RebaseFits(d, |bytes|, offset, len);
      if offset + len <= Size(d) {
        InsideBase(d.parent, |bytes|);
        ReadIsWindow(d.parent, bytes, d.geom.start + offset, len);
      }
    }
  }

  /** No slice starts past the end of a slice it was cut from. */
  ghost predicate Grounded(d: Device) {
    d.Slice? && d.parent.Slice? ==> d.geom.start <= Size(d.parent) && Grounded(d.parent)
  }

  /** An empty read succeeds within the device's size, unless somewhere in the nest a slice
      starts past the end of another: then even the empty read of an empty slice fails. */
  lemma {:induction false} EmptyRead(d: Device, bytes: Bytes, offset: nat)
    requires Made(d, |bytes|) && offset <= U64_MAX
    ensures ReadAt(d, bytes, offset, 0).Ok? <==> d.Base? || (offset <= Size(d) && Grounded(d))
  {
    if d.Base? {
    } else {
      RebaseFits(d, |bytes|, offset, 0);
      InsideBase(d, |bytes|);
      if offset <= Size(d) {
        InsideBase(d.parent, |bytes|);
        EmptyRead(d.parent, bytes, d.geom.start + offset);
      }
    }
  }

  /** Such a nest: a slice at 3 of a slice of length 2. */
  lemma EmptyReadRefused(bytes: Bytes)
    requires |bytes| == 4
    ensures var d := NewSlice(NewSlice(Base(4, true), 0, 2, true), 3, 1, true);
      Made(d, 4) && Size(d) == 0 && ReadAt(d, bytes, 0, 0) == Err(ShortRead(3, 0, 0))
  {
    var b := Base(4, true);
    var p := NewSlice(b, 0, 2, true);
    assert p == NewSlice(b, p.geom.start, 2, true) && Made(p, 4);
    var d := NewSlice(p, 3, 1, true);
    assert d == NewSlice(p, d.geom.start, 1, true);
  }

  /** A write that asks for something succeeds exactly when every device down to the base
      takes writes and it lies within the size; it changes the base at its place in the
      window and nowhere else, and a refused write changes nothing. */
  lemma {:induction false} WriteIsWindow(d: Device, bytes: Bytes, offset: nat, data: Bytes)
    requires Made(d, |bytes|) && 0 < |data| <= U64_MAX && offset <= U64_MAX
    ensures var (after, r) := WriteAt(d, bytes, offset, data);
      && (r.Ok? <==> Writable(d) && offset + |data| <= Size(d))
      && (r.Err? ==> after == bytes && r.error in {ReadOnly, OutOfBounds(offset, |data|, Size(d))})
      && (r.Ok? ==>
            && Origin(d) + offset + |data| <= |bytes|
            && after == bytes[..Origin(d) + offset] + data + bytes[Origin(d) + offset + |data|..])
  {
    if d.Base? || !d.forWriting {
    } else {
      RebaseFits(d, |bytes|, offset, |data|);
      if offset + |data| <= Size(d) && Writable(d.parent) {
        InsideBase(d.parent, |bytes|);
        WriteIsWindow(d.parent, bytes, d.geom.start + offset, data);
      }
    }
  }

  /** No slice starts past the end of its parent, the base included. */
  ghost predicate Anchored(d: Device) {
    d.Slice? ==> d.geom.start <= Size(d.parent) && Anchored(d.parent)
  }

  /** An empty write changes nothing, and succeeds exactly on a nest writable to its base,
      within the size, whose slices all start within their parents. */
  lemma {:induction false} EmptyWrite(d: Device, bytes: Bytes, offset: nat)
    requires Made(d, |bytes|) && offset <= U64_MAX
    ensures var (after, r) := WriteAt(d, bytes, offset, []);
      after == bytes && (r.Ok? <==> Writable(d) && offset <= Size(d) && Anchored(d))
  {
    if d.Base? || !d.forWriting {
    } else {
      RebaseFits(d, |bytes|, offset, 0);
      InsideBase(d, |bytes|);
      if offset <= Size(d) && Writable(d.parent) {
        InsideBase(d.parent, |bytes|);
        EmptyWrite(d.parent, bytes, d.geom.start + offset);
      }
    }
  }

  /** The windows of two devices on one base share no byte. */
  ghost predicate Disjoint(a: Device, b: Device) {
    Size(a) == 0 || Size(b) == 0 || Origin(a) + Size(a) <= Origin(b) || Origin(b) + Size(b) <= Origin(a)
  }

  lemma SpliceApart(bytes: Bytes, off: nat, data: Bytes, from: nat, len: nat)
    requires off + |data| <= |bytes| && from + len <= |bytes| && (from + len <= off || off + |data| <= from)
    ensures var after := bytes[..off] + data + bytes[off + |data|..];
      |after| == |bytes| && after[from..from + len] == bytes[from..from + len]
  {
  }

  /** What is written through one slice is never read through another that it does not meet. */
  lemma DisjointNeverMeet(a: Device, b: Device, bytes: Bytes, offset: nat, data: Bytes, at: nat, len: nat)
    requires Made(a, |bytes|) && Made(b, |bytes|) && Disjoint(a, b)
    requires 0 < |data| <= U64_MAX && 0 < len <= U64_MAX && offset <= U64_MAX && at <= U64_MAX
    requires at + len <= Size(b)
    ensures var (after, _) := WriteAt(a, bytes, offset, data);
      |after| == |bytes| && ReadAt(b, after, at, len) == ReadAt(b, bytes, at, len)
  {
    hide WriteAt, ReadAt, Made;
    WriteIsWindow(a, bytes, offset, data);
    var (after, r) := WriteAt(a, bytes, offset, data);
    ReadIsWindow(b, bytes, at, len);
    var from, at' := Origin(b) + at, Origin(a) + offset;
    if r.Ok? {
      SpliceApart(bytes, at', data, from, len);
      ReadIsWindow(b, after, at, len);
    }
  }

  /** What is written through a slice is read back through it, wherever it lies. */
  lemma WriteReadsBack(d: Device, bytes: Bytes, offset: nat, data: Bytes)
    requires Made(d, |bytes|) && Writable(d) && 0 < |data| && offset + |data| <= Size(d)
    ensures ReadAt(d, WriteAt(d, bytes, offset, data).0, offset, |data|) == Ok(data)
  {
    InsideBase(d, |bytes|);
    SizeFits(d, |bytes|);
    WriteIsWindow(d, bytes, offset, data);
    var after := WriteAt(d, bytes, offset, data).0;
    ReadIsWindow(d, after, offset, |data|);
    var from := Origin(d) + offset;
    assert after[from..from + |data|] == data;
  }

  lemma {:induction false} SizeFits(d: Device, n: nat)
    requires Made(d, n)
    ensures n <= U64_MAX
  {
    if d.Base? {
    } else {
      SizeFits(d.parent, n);
    }
  }

  /** Slicing a slice is slicing the base once: same size, same place. */
  lemma NestedIsOne(d: Device, n: nat, start: nat, length: nat, forWriting: bool)
    requires Made(d, n) && start < Size(d)
    ensures var base := Base(n, true);
      var nested, once := NewSlice(d, start, length, forWriting),
        NewSlice(base, Origin(d) + start, Min(length, Size(d) - start), forWriting);
      Size(nested) == Size(once) && Origin(nested) == Origin(once)
  {
    InsideBase(d, n);
  }
}
