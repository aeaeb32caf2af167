/** The block cache used by one thread: the read path that stitches an answer out of
    clamped blocks, and the writes and resizes that sweep on either side of the device. */
module CachingDevices {
  import opened Common
  import opened Recency
  import opened LruStore
  import Protocol = CacheProtocol

  datatype Error =
    | ReadOnly
    | BadBlockSize(size: nat)
    | ShortRead(offset: nat, want: nat, got: nat)
    | OutOfBounds(offset: nat, len: nat, size: nat)
    | Io

  /** The device underneath: its bytes, and the positions that cannot be read just now. */
  class MemDevice {
    var bytes: Bytes
    var bad: set<nat>

    constructor (bytes: Bytes, bad: set<nat>)
      requires |bytes| <= U64_MAX
      ensures this.bytes == bytes && this.bad == bad
    {
      this.bytes, this.bad := bytes, bad;
    }

    /** Other positions become unreadable, or readable again. */
    method Wear(bad: set<nat>)
      modifies this`bad
      ensures this.bad == bad
    {
      this.bad := bad;
    }

    ghost predicate Readable(off: nat, len: nat)
      reads this
    {
      forall p :: off <= p < off + len ==> p !in bad
    }

    /** What the device itself answers. */
    ghost predicate Answers(off: nat, len: nat)
      reads this
    {
      off + len <= |bytes| && Readable(off, len)
    }

    method ReadAt(off: nat, len: nat) returns (r: Result<Bytes, Error>)
      ensures r.Ok? <==> Answers(off, len)
      ensures r.Ok? ==> r.value == bytes[off..off + len]
    {
      if off + len > |bytes| {
        return Err(ShortRead(off, len, SatSub(|bytes|, off)));
      }
      for i := 0 to len
        invariant Readable(off, i)
      {
        if off + i in bad {
          return Err(Io);
        }
      }
      r := Ok(bytes[off..off + len]);
    }

    /** Write; a failing write lands just the bytes of `data` that `fault` names. */
    method WriteAt(off: nat, data: Bytes, fault: Option<set<nat>>) returns (r: Result<(), Error>)
      modifies this`bytes
      ensures Landed(old(bytes), bytes, off, data, fault)
      ensures r.Ok? <==> off + |data| <= |old(bytes)| && fault.None?
    {
      if off + |data| > |bytes| {
        return Err(OutOfBounds(off, |data|, |bytes|));
      }
      var before := bytes;
      bytes := seq(|before|, p requires 0 <= p < |before| =>
        if off <= p < off + |data| && (fault.None? || p - off in fault.value) then data[p - off] else before[p]);
      r := if fault.Some? then Err(Io) else Ok(());
    }

    /** Resize, or fail leaving `wreck` behind: anything that keeps what both lengths hold. */
    method SetLen(newLen: nat, wreck: Option<Bytes>) returns (r: Result<(), Error>)
      requires newLen <= U64_MAX && |bytes| <= U64_MAX
      requires wreck.Some? ==> Protocol.LengthMoved(bytes, wreck.value, newLen)
      modifies this`bytes
      ensures r.Ok? == wreck.None?
      ensures Protocol.LengthMoved(old(bytes), bytes, newLen)
      ensures r.Ok? ==> |bytes| == newLen && forall p :: |old(bytes)| <= p < newLen ==> bytes[p] == 0
    {
      if wreck.Some? {
        bytes := wreck.value;
        return Err(Io);
      }
      bytes := if newLen <= |bytes| then bytes[..newLen] else bytes + Zeros(newLen - |bytes|);
      r := Ok(());
    }
  }

  /** The first position of block `index`, and the block position `n` is in: multiplication
      and division written as repeated addition and subtraction, which keeps the solver
      away from nonlinear arithmetic. `StartIs` and `IndexIs` equate them. */
  function Start(bs: nat, index: nat): nat {
    if index == 0 then 0 else Start(bs, index - 1) + bs
  }

  function IndexOf(bs: nat, n: nat): nat
    requires bs > 0
  {
    if n < bs then 0 else 1 + IndexOf(bs, n - bs)
  }

  lemma {:induction false} StartIs(bs: nat, index: nat)
    ensures Start(bs, index) == index * bs
  {
    if index == 0 {
    } else {
      StartIs(bs, index - 1);
    }
  }

  lemma MulGrows(a: nat, b: nat, d: nat)
    requires a <= b
    ensures a * d <= b * d
  {
  }

  lemma QuotientIs(n: nat, d: nat, q: nat)
    requires d > 0 && q * d <= n < q * d + d
    ensures n / d == q
  {
    var p := n / d;
    assert p * d <= n < p * d + d;
    if p < q {
      MulGrows(p + 1, q, d);
    } else if q < p {
      MulGrows(q + 1, p, d);
    }
  }

  lemma IndexIs(bs: nat, n: nat)
    requires bs > 0
    ensures IndexOf(bs, n) == n / bs
  {
    var k := IndexOf(bs, n);
    IndexHolds(bs, n);
    StartIs(bs, k);
    QuotientIs(n, bs, k);
  }

  /** `n` lies in the block that `IndexOf` names. */
  lemma {:induction false} IndexHolds(bs: nat, n: nat)
    requires bs > 0
    ensures Start(bs, IndexOf(bs, n)) <= n < Start(bs, IndexOf(bs, n) + 1)
  {
    if n < bs {
    } else {
      IndexHolds(bs, n - bs);
    }
  }

  lemma {:induction false} StartGrows(bs: nat, a: nat, b: nat)
    requires a <= b
    ensures Start(bs, a) <= Start(bs, b)
    decreases b
  {
    if a == b {
    } else {
      StartGrows(bs, a, b - 1);
    }
  }

  lemma {:induction false} IndexGrows(bs: nat, m: nat, n: nat)
    requires bs > 0 && m <= n
    ensures IndexOf(bs, m) <= IndexOf(bs, n)
  {
    if m < bs {
    } else {
      IndexGrows(bs, m - bs, n - bs);
    }
  }

  /** The lookups a read makes of blocks `[first, last)`, each with the bytes the device
      holds for it. */
  function Uses(c: Protocol.Config, bytes: Bytes, first: nat, last: nat): (ops: seq<Op>)
    decreases last
  {
    if first >= last then []
    else Uses(c, bytes, first, last - 1)
         + [Use(Start(c.blockSize, last - 1), Protocol.DeviceBlock(c, bytes, Start(c.blockSize, last - 1)))]
  }

  lemma {:induction false} RunAppend(es: seq<Entry>, ops: seq<Op>, op: Op, capacity: nat)
    ensures Run(es, ops + [op], capacity) == Step(Run(es, ops, capacity), op, capacity)
    ensures Hits(es, ops + [op], capacity) ==
      Hits(es, ops, capacity) + (if op.Use? && Held(Run(es, ops, capacity), op.block) then 1 else 0)
    decreases |ops|
  {
    if ops == [] {
      assert [op][1..] == [];
    } else {
      assert (ops + [op])[1..] == ops[1..] + [op];
      RunAppend(Step(es, ops[0], capacity), ops[1..], op, capacity);
    }
  }

  /** What looking up `n` blocks from `first` on made of the held entries and the hits. */
  ghost predicate Traced(c: Protocol.Config, bytes: Bytes, before: seq<Entry>, after: seq<Entry>, first: nat, n: nat,
                         hits: int)
  {
    && after == Run(before, Uses(c, bytes, first, first + n), c.capacity)
    && hits == Hits(before, Uses(c, bytes, first, first + n), c.capacity)
  }

  lemma TraceOne(c: Protocol.Config, bytes: Bytes, before: seq<Entry>, after: seq<Entry>, first: nat, n: nat, hits: int)
    requires Traced(c, bytes, before, after, first, n, hits)
    ensures var b := Start(c.blockSize, first + n);
      var data := Protocol.DeviceBlock(c, bytes, b);
      Traced(c, bytes, before, Step(after, Use(b, data), c.capacity), first, n + 1,
             hits + if Held(after, b) then 1 else 0)
  {
    var b := Start(c.blockSize, first + n);
    var use := Use(b, Protocol.DeviceBlock(c, bytes, b));
    var ops := Uses(c, bytes, first, first + n);
    assert Uses(c, bytes, first, first + n + 1) == ops + [use];
    RunAppend(before, ops, use, c.capacity);
  }

  /** No position of the block at `start`, as far as the device has it, is unreadable. */
  ghost predicate Sound(c: Protocol.Config, bytes: Bytes, bad: set<nat>, start: nat) {
    forall p :: start <= p < start + |Protocol.DeviceBlock(c, bytes, start)| ==> p !in bad
  }

  /** The block `k` is held when a read that begins at block `first` comes to it, after the
      lookups of the blocks before it. */
  ghost predicate HeldAtTurn(c: Protocol.Config, bytes: Bytes, before: seq<Entry>, first: nat, k: nat) {
    Held(Run(before, Uses(c, bytes, first, k), c.capacity), Start(c.blockSize, k))
  }

  /** The block is held when its turn comes, or can be read whole from the device now. */
  ghost predicate Servable(c: Protocol.Config, bytes: Bytes, bad: set<nat>, before: seq<Entry>, first: nat, k: nat) {
    HeldAtTurn(c, bytes, before, first, k) || Sound(c, bytes, bad, Start(c.blockSize, k))
  }

  ghost predicate AllServable(c: Protocol.Config, bytes: Bytes, bad: set<nat>, before: seq<Entry>, first: nat, n: nat) {
    forall k: nat :: first <= k < first + n ==> Servable(c, bytes, bad, before, first, k)
  }

  lemma ServableOne(c: Protocol.Config, bytes: Bytes, bad: set<nat>, before: seq<Entry>, after: seq<Entry>,
                    first: nat, n: nat, hits: int)
    requires AllServable(c, bytes, bad, before, first, n) && Traced(c, bytes, before, after, first, n, hits)
    ensures var b := Start(c.blockSize, first + n);
      && (Servable(c, bytes, bad, before, first, first + n) <==> Held(after, b) || Sound(c, bytes, bad, b))
      && (Servable(c, bytes, bad, before, first, first + n) ==> AllServable(c, bytes, bad, before, first, n + 1))
  {
    hide Sound, Run, Uses, Hits, Start, Find;
    assert HeldAtTurn(c, bytes, before, first, first + n) <==> Held(after, Start(c.blockSize, first + n));
    if Servable(c, bytes, bad, before, first, first + n) {
      forall k: nat | first <= k < first + n + 1 ensures Servable(c, bytes, bad, before, first, k) {
        assert k < first + n || k == first + n;
      }
    }
  }

  /** The number of blocks that `[offset, end)` falls in. */
  function Spanned(bs: nat, offset: nat, end: nat): (n: nat)
    requires bs > 0 && offset < end
    ensures n > 0
  {
    IndexGrows(bs, offset, end - 1);
    IndexOf(bs, end - 1) - IndexOf(bs, offset) + 1
  }

  /** A read served from blocks: how many it looked up, `n`, and what that made of the
      held entries and the counters. It stops at the first block that is neither held when
      its turn comes nor readable. */
  ghost predicate ServedFromBlocks(c: Protocol.Config, bytes: Bytes, bad: set<nat>, offset: nat, end: nat,
                                   before: seq<Entry>, after: seq<Entry>, ok: bool, n: nat, hits: int, misses: int)
    requires c.blockSize > 0 && offset < end
  {
    var first, spanned := IndexOf(c.blockSize, offset), Spanned(c.blockSize, offset, end);
    && n <= spanned && (ok <==> n == spanned)
    && AllServable(c, bytes, bad, before, first, n)
    && (!ok ==> !Servable(c, bytes, bad, before, first, first + n))
    && Traced(c, bytes, before, after, first, n, hits)
    && hits + misses == n + (if ok then 0 else 1)
  }

  /** Every block that `[offset, end)` falls in is held when its turn comes, or readable. */
  ghost predicate BlocksServable(c: Protocol.Config, bytes: Bytes, bad: set<nat>, before: seq<Entry>, offset: nat,
                                 end: nat)
    requires c.blockSize > 0 && offset < end
  {
    AllServable(c, bytes, bad, before, IndexOf(c.blockSize, offset), Spanned(c.blockSize, offset, end))
  }

  lemma ServedExactly(c: Protocol.Config, bytes: Bytes, bad: set<nat>, offset: nat, end: nat,
                      before: seq<Entry>, after: seq<Entry>, ok: bool, n: nat, hits: int, misses: int)
    requires c.blockSize > 0 && offset < end
    requires ServedFromBlocks(c, bytes, bad, offset, end, before, after, ok, n, hits, misses)
    ensures ok <==> BlocksServable(c, bytes, bad, before, offset, end)
  {
    hide Servable, Traced;
    var first, spanned := IndexOf(c.blockSize, offset), Spanned(c.blockSize, offset, end);
    if !ok { assert first <= first + n < first + spanned; }
  }

  lemma SoundExtent(c: Protocol.Config, bytes: Bytes, bad: set<nat>, start: nat)
    requires Protocol.Usable(c) && |bytes| <= U64_MAX
    ensures Sound(c, bytes, bad, start) <==>
      forall p: nat :: start <= p < Min(start + c.blockSize, |bytes|) ==> p !in bad
  {
  }

  /** Position by position: an unreadable one spoils the read exactly when it lies in one of
      the blocks, inside the range or beside it, and that block is not held at its turn. */
  ghost predicate Spoiled(c: Protocol.Config, bytes: Bytes, bad: set<nat>, before: seq<Entry>, offset: nat, end: nat,
                          p: nat)
    requires c.blockSize > 0 && offset < end
  {
    var first, k := IndexOf(c.blockSize, offset), IndexOf(c.blockSize, p);
    && p in bad && p < |bytes| && first <= k < first + Spanned(c.blockSize, offset, end)
    && !HeldAtTurn(c, bytes, before, first, k)
  }

  /** The condition of a cached read beside that of the device's own, which is that no
      position of the range is unreadable: they part where an unreadable position lies
      beside the range, and where one lies in it but its block is held. */
  lemma CachedAgrees(c: Protocol.Config, bytes: Bytes, bad: set<nat>, before: seq<Entry>, offset: nat, end: nat)
    requires Protocol.Usable(c) && offset < end <= |bytes| <= U64_MAX
    ensures BlocksServable(c, bytes, bad, before, offset, end) <==>
      forall p: nat :: !Spoiled(c, bytes, bad, before, offset, end, p)
  {
    hide HeldAtTurn;
    var first, n := IndexOf(c.blockSize, offset), Spanned(c.blockSize, offset, end);
    if BlocksServable(c, bytes, bad, before, offset, end) {
      forall p: nat ensures !Spoiled(c, bytes, bad, before, offset, end, p) {
        var k := IndexOf(c.blockSize, p);
        IndexHolds(c.blockSize, p);
        SoundExtent(c, bytes, bad, Start(c.blockSize, k));
        if first <= k < first + n { assert Servable(c, bytes, bad, before, first, k); }
      }
    }
    if forall p: nat :: !Spoiled(c, bytes, bad, before, offset, end, p) {
      forall k: nat | first <= k < first + n ensures Servable(c, bytes, bad, before, first, k) {
        SoundExtent(c, bytes, bad, Start(c.blockSize, k));
        forall p: nat | Start(c.blockSize, k) <= p < Min(Start(c.blockSize, k) + c.blockSize, |bytes|)
          ensures p !in bad || HeldAtTurn(c, bytes, before, first, k)
        {
          IndexIn(c.blockSize, p, k);
          assert !Spoiled(c, bytes, bad, before, offset, end, p);
        }
      }
    }
  }

  lemma {:induction false} IndexIn(bs: nat, n: nat, k: nat)
    requires bs > 0 && Start(bs, k) <= n < Start(bs, k) + bs
    ensures IndexOf(bs, n) == k
    decreases k
  {
    if k == 0 {
    } else {
      StartGrows(bs, 1, k);
      IndexIn(bs, n - bs, k - 1);
    }
  }

  /** A block that is not held when the read begins is not held when its turn comes; one
      that is held stays so until then wherever the read's blocks fit beside those held. */
  lemma HeldUntilItsTurn(c: Protocol.Config, bytes: Bytes, before: seq<Entry>, first: nat, k: nat)
    requires c.blockSize > 0 && first <= k && Distinct(before) && |before| <= Max(1, c.capacity)
    ensures HeldAtTurn(c, bytes, before, first, k) ==> Held(before, Start(c.blockSize, k))
    ensures Held(before, Start(c.blockSize, k)) && |before| + (k - first) <= Max(1, c.capacity) ==>
      HeldAtTurn(c, bytes, before, first, k)
  {
    var b, ops := Start(c.blockSize, k), Uses(c, bytes, first, k);
    UsesOthers(c, bytes, first, k, k);
    if !Held(before, b) {
      AbsentStays(before, ops, b, c.capacity);
    } else if |before| + (k - first) <= Max(1, c.capacity) {
      var others := Newer(before, b) + Used(ops);
      UsedCount(c, bytes, first, k);
      FewNewer(before, b);
      Retained(before, ops, b, others, c.capacity);
    }
  }

  lemma {:induction false} UsesOthers(c: Protocol.Config, bytes: Bytes, first: nat, last: nat, k: nat)
    requires c.blockSize > 0 && last <= k
    ensures forall op :: op in Uses(c, bytes, first, last) ==> op.Use? && op.block != Start(c.blockSize, k)
    decreases last
  {
    if first >= last {
    } else {
      UsesOthers(c, bytes, first, last - 1, k);
      StartGrows(c.blockSize, last, k);
    }
  }

  lemma {:induction false} UsedCount(c: Protocol.Config, bytes: Bytes, first: nat, last: nat)
    requires first <= last
    ensures |Used(Uses(c, bytes, first, last))| <= last - first
    decreases last
  {
    if first == last {
    } else {
      UsedCount(c, bytes, first, last - 1);
      var b := Start(c.blockSize, last - 1);
      UsedMore(Uses(c, bytes, first, last - 1), Use(b, Protocol.DeviceBlock(c, bytes, b)));
    }
  }

  lemma UsedMore(ops: seq<Op>, op: Op)
    requires op.Use?
    ensures Used(ops + [op]) == Used(ops) + {op.block}
  {
  }

  /** `e` is what the device holds for the block. */
  ghost predicate Exact(c: Protocol.Config, bytes: Bytes, e: Entry) {
    e.data == Protocol.DeviceBlock(c, bytes, e.block)
  }

  class CachingDevice {
    const inner: MemDevice
    const writable: bool
    const blockSize: nat
    const capacity: nat
    const lru: Lru
    var hits: nat
    var misses: nat
    var generation: nat

    function Config(): Protocol.Config {
      Protocol.Config(blockSize, capacity)
    }

    ghost predicate Valid()
      reads this, inner, lru
    {
      && lru.Valid()
      && |inner.bytes| <= U64_MAX
      && |lru.slots| <= Max(1, capacity)
      && (lru.Contents() != [] ==> Protocol.Usable(Config()))
      && forall e :: e in lru.Contents() ==> Exact(Config(), inner.bytes, e)
    }

    constructor (inner: MemDevice, writable: bool, blockSize: nat, capacity: nat)
      requires |inner.bytes| <= U64_MAX
      ensures Valid() && this.inner == inner && this.blockSize == blockSize && this.capacity == capacity
      ensures this.writable == writable && fresh(lru) && lru.Contents() == [] && hits == misses == 0
    {
      this.inner, this.writable, this.blockSize, this.capacity := inner, writable, blockSize, capacity;
      lru := new Lru();
      hits, misses, generation := 0, 0, 0;
    }

    method CheckBlockSize() returns (r: Result<(), Error>)
      ensures r.Ok? <==> Protocol.Usable(Config())
      ensures r.Ok? <==> 1 <= blockSize <= 67_108_864
    {
      if blockSize == 0 || blockSize > Protocol.MAX_BLOCK_SIZE {
        return Err(BadBlockSize(blockSize));
      }
      r := Ok(());
    }

    /** The device's bytes for one block, from the cache or fetched into it. */
    method Block(start: nat) returns (r: Result<Bytes, Error>)
      requires Valid() && Protocol.Usable(Config()) && start < |inner.bytes|
      modifies this`hits, this`misses, lru
      ensures Valid()
      ensures var data := Protocol.DeviceBlock(Config(), inner.bytes, start);
        var held := Held(old(lru.Contents()), start);
        && (r.Ok? <==> held || Sound(Config(), inner.bytes, inner.bad, start))
        && (r.Ok? ==> r.value == data)
        && (r.Err? ==> !held)
        && hits == old(hits) + (if held then 1 else 0)
        && misses == old(misses) + (if held then 0 else 1)
        && lru.Contents() == if r.Ok? then Step(old(lru.Contents()), Use(start, data), capacity)
            else old(lru.Contents())
    {
      hide Chain, Partition, Indexed, Step;
      ghost var es := lru.Contents();
      ghost var data := Protocol.DeviceBlock(Config(), inner.bytes, start);
      var found := lru.Get(start);
      if found.Some? {
        assert Exact(Config(), inner.bytes, es[Find(es, start)]) by { assert es[Find(es, start)] in es; }
        UseExact(Config(), inner.bytes, es, start, capacity);
        UseIs(es, start, data, capacity);
        hits := hits + 1;
        return Ok(found.value);
      }
      UseIs(es, start, data, capacity);
      misses := misses + 1;
      var end := Min(SatAdd(start, blockSize), |inner.bytes|);
      BlockBytes(Config(), inner.bytes, start);
      var fetched := inner.ReadAt(start, SatSub(end, start));
      if fetched.Err? {
        return fetched;
      }
      assert fetched.value == data;
      UseExact(Config(), inner.bytes, es, start, capacity);
      lru.Insert(start, fetched.value, capacity);
      r := fetched;
    }

    /** Whether a read of `len` bytes is passed to the device without touching the cache. */
    predicate Bypasses(offset: nat, len: nat)
      requires len > 0 && Protocol.Usable(Config())
      reads inner
    {
      var spanned := Spanned(blockSize, offset, offset + len);
      offset + len > |inner.bytes| || (spanned > 1 && Min(2 * spanned, U64_MAX) > capacity)
    }

    /** A read goes past the cache just when it runs past the device's end, or falls in several
        blocks that would take up more than half of the cache. So a read within one block of
        the device never does, and one that is served from several blocks leaves half of the
        cache to others. */
    lemma BypassMeans(offset: nat, len: nat)
      requires len > 0 && Protocol.Usable(Config())
      ensures var blocks := (offset + len - 1) / blockSize - offset / blockSize + 1;
        Bypasses(offset, len) <==>
          offset + len > |inner.bytes| || (blocks > 1 && 2 * blocks > capacity && capacity < U64_MAX)
    {
      IndexIs(blockSize, offset);
      IndexIs(blockSize, offset + len - 1);
    }

    /** Read exactly `buf.Length` bytes from `offset`. The last block of a read served from
        blocks is then held. `touched` is the number of blocks
        looked up with success. */
    method ReadAt(offset: nat, buf: array<Byte>) returns (r: Result<(), Error>, ghost touched: nat)
      requires Valid() && offset <= U64_MAX && buf.Length <= U64_MAX
      modifies this`hits, this`misses, lru, buf
      ensures Valid()
      ensures !Protocol.Usable(Config()) ==> r == Err(BadBlockSize(blockSize))
      ensures !Protocol.Usable(Config()) || buf.Length == 0 || Bypasses(offset, buf.Length) ==>
        lru.Contents() == old(lru.Contents()) && hits == old(hits) && misses == old(misses)
      ensures Protocol.Usable(Config()) && buf.Length == 0 ==> r.Ok?
      ensures r.Ok? && buf.Length > 0 ==>
        offset + buf.Length <= |inner.bytes| && buf[..] == inner.bytes[offset..offset + buf.Length]
      ensures Protocol.Usable(Config()) && buf.Length > 0 && Bypasses(offset, buf.Length) ==>
        (r.Ok? <==> inner.Answers(offset, buf.Length))
      ensures Protocol.Usable(Config()) && buf.Length > 0 && !Bypasses(offset, buf.Length) ==>
        && (r.Ok? <==>
            BlocksServable(Config(), inner.bytes, inner.bad, old(lru.Contents()), offset, offset + buf.Length))
        && ServedFromBlocks(Config(), inner.bytes, inner.bad, offset, offset + buf.Length,
                         old(lru.Contents()), lru.Contents(), r.Ok?, touched, hits - old(hits), misses - old(misses))
        && (r.Ok? ==> Held(lru.Contents(), Start(blockSize, IndexOf(blockSize, offset + buf.Length - 1))))
    {
      hide Chain, Partition, Indexed, Exact, ServedFromBlocks, BlocksServable, IndexOf;
      touched := 0;
      var checked := CheckBlockSize();
      if checked.Err? {
        return Err(BadBlockSize(blockSize)), 0;
      }
      if buf.Length == 0 {
        return Ok(()), 0;
      }
      var sum := CheckedAdd(offset, buf.Length);
      if sum.None? {
        return Err(ShortRead(offset, buf.Length, 0)), 0;
      }
      var end := sum.value;
      if end > |inner.bytes| {
        r := PassThrough(offset, buf);
        return;
      }
      var first := offset / blockSize;
      var last := (end - 1) / blockSize;
      IndexIs(blockSize, offset);
      IndexIs(blockSize, end - 1);
      IndexGrows(blockSize, offset, end - 1);
      var spanned := last - first + 1;
      if spanned > 1 && Min(2 * spanned, U64_MAX) > capacity {
        r := PassThrough(offset, buf);
        return;
      }
      r, touched := Stitch(offset, end, first, last, buf);
      ServedExactly(Config(), inner.bytes, inner.bad, offset, end, old(lru.Contents()), lru.Contents(), r.Ok?, touched,
                    hits - old(hits), misses - old(misses));
      if r.Ok? {
        LastIsHeld(Config(), inner.bytes, inner.bad, offset, end, old(lru.Contents()), lru.Contents(), touched,
                   hits - old(hits), misses - old(misses));
      }
    }

    /** The loop of `read_at`: an in-range read, block by block. */
    method Stitch(offset: nat, end: nat, first: nat, last: nat, buf: array<Byte>)
      returns (r: Result<(), Error>, ghost touched: nat)
      requires Valid() && Protocol.Usable(Config())
      requires offset < end == offset + buf.Length <= |inner.bytes|
      requires first == IndexOf(blockSize, offset) && last == IndexOf(blockSize, end - 1) && first <= last
      modifies this`hits, this`misses, lru, buf
      ensures Valid()
      ensures r.Ok? ==> buf[..] == inner.bytes[offset..end]
      ensures ServedFromBlocks(Config(), inner.bytes, inner.bad, offset, end,
                               old(lru.Contents()), lru.Contents(), r.Ok?, touched, hits - old(hits),
                               misses - old(misses))
    {
      hide Progress, ServedFromBlocks, Chain, Partition, Indexed, Exact;
      ghost var es, hits0, misses0 := lru.Contents(), hits, misses;
      var done: nat := 0;
      var index := first;
      touched := 0;
      ProgressStarts(offset, end, first, buf);
      while index <= last
        invariant first <= index <= last + 1 && index == first + touched && done <= buf.Length
        invariant Valid()
        invariant Progress(es, hits0, misses0, first, touched, offset, end, buf, done)
        decreases last + 1 - index
      {
        InSpan(blockSize, offset, end, index);
        var take := OneBlock(es, hits0, misses0, offset, end, index, buf, done, first, touched);
        if take.Err? {
          return Err(take.error), touched;
        }
        if take.value == 0 {
          break;
        }
        done := done + take.value;
        touched := touched + 1;
        index := index + 1;
      }
      ProgressEnds(es, hits0, misses0, first, touched, offset, end, buf, done);
      if done != buf.Length {
        // The short-read error: unreachable while the device's size is stable.
        assert false;
      }
      r := Ok(());
    }

    lemma ProgressStarts(offset: nat, end: nat, first: nat, buf: array<Byte>)
      requires Valid() && blockSize > 0 && offset < end == offset + buf.Length <= |inner.bytes|
      requires first == IndexOf(blockSize, offset)
      ensures Progress(lru.Contents(), hits, misses, first, 0, offset, end, buf, 0)
    {
      IndexHolds(blockSize, offset);
      assert first + 0 == first;
    }

    /** Once every block has been copied the buffer is full, so the short-read error that
        follows the loop is never returned. */
    lemma ProgressEnds(es: seq<Entry>, hits0: nat, misses0: nat, first: nat, touched: nat,
                       offset: nat, end: nat, buf: array<Byte>, done: nat)
      requires Valid() && blockSize > 0 && offset < end == offset + buf.Length <= |inner.bytes| && done <= buf.Length
      requires first == IndexOf(blockSize, offset) && touched == Spanned(blockSize, offset, end)
      requires Progress(es, hits0, misses0, first, touched, offset, end, buf, done)
      ensures done == buf.Length && buf[..] == inner.bytes[offset..end]
      ensures ServedFromBlocks(Config(), inner.bytes, inner.bad, offset, end,
                               es, lru.Contents(), true, touched, hits - hits0, misses - misses0)
    {
      hide Traced, AllServable, Servable, Sound, Chain, Partition, Indexed, Exact;
      InSpan(blockSize, offset, end, IndexOf(blockSize, end - 1));
      assert buf[..] == buf[..done];
    }

    /** What the loop keeps: the buffer holds the device's bytes up to the next block, and
        the cache has gone through the lookups made so far. */
    ghost predicate Progress(es: seq<Entry>, hits0: nat, misses0: nat, first: nat, touched: nat,
                             offset: nat, end: nat, buf: array<Byte>, done: nat)
      requires lru.Valid() && offset < end == offset + buf.Length <= |inner.bytes| && done <= buf.Length
      reads this, inner, lru, buf
    {
      && done == Filled(offset, end, Start(blockSize, first + touched))
      && buf[..done] == inner.bytes[offset..offset + done]
      && AllServable(Config(), inner.bytes, inner.bad, es, first, touched)
      && Traced(Config(), inner.bytes, es, lru.Contents(), first, touched, hits - hits0)
      && hits + misses == hits0 + misses0 + touched
    }

    /** One turn of the loop: look the block up and copy what overlaps. */
    method OneBlock(ghost es: seq<Entry>, ghost hits0: nat, ghost misses0: nat, offset: nat, end: nat, index: nat,
                    buf: array<Byte>, done: nat, ghost first: nat, ghost touched: nat)
      returns (take: Result<nat, Error>)
      requires Valid() && Protocol.Usable(Config()) && index == first + touched
      requires offset < end == offset + buf.Length <= |inner.bytes| && done <= buf.Length
      requires Start(blockSize, index) < end && offset < Start(blockSize, index) + blockSize
      requires first == IndexOf(blockSize, offset) && touched < Spanned(blockSize, offset, end)
      requires Progress(es, hits0, misses0, first, touched, offset, end, buf, done)
      modifies this`hits, this`misses, lru, buf
      ensures Valid()
      ensures take.Ok? ==>
        && take.value > 0 && done + take.value <= buf.Length
        && Progress(es, hits0, misses0, first, touched + 1, offset, end, buf, done + take.value)
      ensures take.Err? ==>
        ServedFromBlocks(Config(), inner.bytes, inner.bad, offset, end,
                         es, lru.Contents(), false, touched, hits - hits0, misses - misses0)
    {
      hide Traced, AllServable, Servable, Sound, Step, Protocol.DeviceBlock, Exact, IndexOf, Filled, Held, Chain,
        Partition, Indexed;
      var blockStart := index * blockSize;
      StartIs(blockSize, index);
      TraceOne(Config(), inner.bytes, es, lru.Contents(), first, touched, hits - hits0);
      ServableOne(Config(), inner.bytes, inner.bad, es, lru.Contents(), first, touched, hits - hits0);
      var fetched := Block(blockStart);
      if fetched.Err? {
        return Err(fetched.error);
      }
      var n := CopyBlock(offset, end, blockStart, fetched.value, buf, done);
      take := Ok(n);
    }

    /** The part of one block that overlaps what was asked for, copied after what is
        already there. */
    method CopyBlock(offset: nat, end: nat, blockStart: nat, block: Bytes, buf: array<Byte>, done: nat)
      returns (take: nat)
      requires Protocol.Usable(Config()) && offset < end == offset + buf.Length <= |inner.bytes|
      requires blockStart < end && offset < blockStart + blockSize
      requires block == Protocol.DeviceBlock(Config(), inner.bytes, blockStart)
      requires done == Filled(offset, end, blockStart) && done <= buf.Length
      requires buf[..done] == inner.bytes[offset..offset + done]
      modifies buf
      ensures take > 0 && done + take == Filled(offset, end, blockStart + blockSize) <= buf.Length
      ensures buf[..done + take] == inner.bytes[offset..offset + done + take]
    {
      hide Protocol.DeviceBlock, Protocol.Usable, Filled, Max, Min, SatSub;
      ghost var whole := inner.bytes;
      var from := From(offset, blockStart);
      take := Take(|block|, from, buf.Length - done);
      TakeFills(Config(), whole, offset, end, blockStart);
      CopyInto(buf, done, block[from..from + take], whole, offset);
    }

    /** A read the cache declines: the device's own answer. */
    method PassThrough(offset: nat, buf: array<Byte>) returns (r: Result<(), Error>)
      modifies buf
      ensures r.Ok? <==> inner.Answers(offset, buf.Length)
      ensures r.Ok? ==> buf[..] == inner.bytes[offset..offset + buf.Length]
    {
      var answer := inner.ReadAt(offset, buf.Length);
      if answer.Err? {
        return Err(answer.error);
      }
      forall i | 0 <= i < buf.Length {
        buf[i] := answer.value[i];
      }
      assert buf[..] == answer.value;
      r := Ok(());
    }

    method Invalidate(start: nat, end: nat)
      requires Valid()
      modifies lru, this`generation
      ensures Valid()
      ensures lru.Contents() == Retain(old(lru.Contents()), Protocol.Outside(Config(), start, end))
      ensures generation == old(generation) + 1
    {
      RetainAll(lru.Contents(), Protocol.Outside(Config(), start, end));
      lru.RetainBlocks(Protocol.Outside(Config(), start, end));
      generation := generation + 1;
    }

    method InvalidateAll()
      requires Valid()
      modifies lru, this`generation
      ensures Valid() && lru.Contents() == [] && generation == old(generation) + 1
    {
      lru.Clear();
      generation := generation + 1;
    }

    method WriteAt(offset: nat, data: Bytes, fault: Option<set<nat>>) returns (r: Result<(), Error>)
      requires Valid() && offset <= U64_MAX && |data| <= U64_MAX
      modifies lru, this`generation, inner
      ensures Valid()
      ensures !writable ==> r == Err(ReadOnly)
      ensures writable && !Protocol.Usable(Config()) ==> r == Err(BadBlockSize(blockSize))
      ensures !writable || !Protocol.Usable(Config()) ==>
        lru.Contents() == old(lru.Contents()) && generation == old(generation) && inner.bytes == old(inner.bytes)
      ensures writable && Protocol.Usable(Config()) ==>
        && lru.Contents() == Retain(old(lru.Contents()), Protocol.Outside(Config(), offset, SatAdd(offset, |data|)))
        && Landed(old(inner.bytes), inner.bytes, offset, data, fault)
        && (r.Ok? <==> offset + |data| <= |old(inner.bytes)| && fault.None?)
        && generation == old(generation) + 2
    {
      if !writable {
        return Err(ReadOnly);
      }
      var checked := CheckBlockSize();
      if checked.Err? {
        return Err(BadBlockSize(blockSize));
      }
      hide Chain, Partition, Indexed, Protocol.DeviceBlock, Sound, Retain, Protocol.Outside, Landed;
      var end := SatAdd(offset, |data|);
      ghost var keep := Protocol.Outside(Config(), offset, end);
      RetainTwice(lru.Contents(), keep);
      RetainAll(lru.Contents(), keep);
      Invalidate(offset, end);
      ghost var before := inner.bytes;
      r := inner.WriteAt(offset, data, fault);
      WritesApart(Config(), before, inner.bytes, offset, data, fault, lru.Contents());
      Invalidate(offset, end);
    }

    method SetLen(newLen: nat, wreck: Option<Bytes>) returns (r: Result<(), Error>)
      requires Valid() && newLen <= U64_MAX
      requires wreck.Some? ==> Protocol.LengthMoved(inner.bytes, wreck.value, newLen)
      modifies lru, this`generation, inner
      ensures Valid()
      ensures !writable ==> r == Err(ReadOnly)
      ensures writable && !Protocol.Usable(Config()) ==> r == Err(BadBlockSize(blockSize))
      ensures !writable || !Protocol.Usable(Config()) ==>
        lru.Contents() == old(lru.Contents()) && generation == old(generation) && inner.bytes == old(inner.bytes)
      ensures writable && Protocol.Usable(Config()) ==>
        && lru.Contents() == Retain(old(lru.Contents()),
            Protocol.Outside(Config(), Min(|old(inner.bytes)|, newLen), U64_MAX))
        && r.Ok? == wreck.None?
        && Protocol.LengthMoved(old(inner.bytes), inner.bytes, newLen)
        && (r.Ok? ==> |inner.bytes| == newLen && forall p :: |old(inner.bytes)| <= p < newLen ==> inner.bytes[p] == 0)
        && generation == old(generation) + 2
    {
      if !writable {
        return Err(ReadOnly);
      }
      var checked := CheckBlockSize();
      if checked.Err? {
        return Err(BadBlockSize(blockSize));
      }
      hide Chain, Partition, Indexed, Protocol.DeviceBlock, Sound, Retain, Protocol.Outside, Protocol.LengthMoved;
      var from := Min(|inner.bytes|, newLen);
      ghost var keep := Protocol.Outside(Config(), from, U64_MAX);
      RetainTwice(lru.Contents(), keep);
      RetainAll(lru.Contents(), keep);
      Invalidate(from, U64_MAX);
      ghost var before := inner.bytes;
      r := inner.SetLen(newLen, wreck);
      ResizesApart(Config(), before, inner.bytes, newLen, lru.Contents());
      Invalidate(from, U64_MAX);
    }
  }

  lemma BlockBytes(c: Protocol.Config, bytes: Bytes, start: nat)
    requires Protocol.Usable(c) && start < |bytes| <= U64_MAX
    ensures var len := SatSub(Min(SatAdd(start, c.blockSize), |bytes|), start);
      start + len <= |bytes| && bytes[start..start + len] == Protocol.DeviceBlock(c, bytes, start)
      && len == |Protocol.DeviceBlock(c, bytes, start)|
  {
  }

  lemma UseExact(c: Protocol.Config, bytes: Bytes, es: seq<Entry>, start: nat, capacity: nat)
    requires forall e :: e in es ==> Exact(c, bytes, e)
    ensures forall e :: e in Step(es, Use(start, Protocol.DeviceBlock(c, bytes, start)), capacity) ==>
      Exact(c, bytes, e)
  {
  }

  /** A lookup promotes what is held and inserts what is not. */
  lemma UseIs(es: seq<Entry>, b: nat, data: Bytes, capacity: nat)
    ensures Held(es, b) ==> Step(es, Use(b, data), capacity) == Promote(es, b)
    ensures !Held(es, b) ==> Promote(es, b) == es && Step(es, Use(b, data), capacity) == Insert(es, b, data, capacity)
  {
  }

  /** How much of the buffer is filled once everything before `pos` has been read. */
  function Filled(offset: nat, end: nat, pos: nat): nat
    requires offset <= end
  {
    if pos <= offset then 0 else Min(pos, end) - offset
  }

  /** Where in a block the bytes asked for begin, and how many of them it holds. */
  function From(offset: nat, start: nat): nat {
    Max(offset, start) - start
  }

  function Take(len: nat, from: nat, room: nat): nat {
    Min(SatSub(len, from), room)
  }

  lemma InSpan(bs: nat, offset: nat, end: nat, index: nat)
    requires bs > 0 && offset < end && IndexOf(bs, offset) <= index <= IndexOf(bs, end - 1)
    ensures Start(bs, index) < end && offset < Start(bs, index) + bs == Start(bs, index + 1)
    ensures index == IndexOf(bs, end - 1) ==> end <= Start(bs, index + 1)
  {
    IndexHolds(bs, offset);
    IndexHolds(bs, end - 1);
    StartGrows(bs, index, IndexOf(bs, end - 1));
    StartGrows(bs, IndexOf(bs, offset) + 1, index + 1);
  }

  /** What one block contributes is exactly what takes the fill to the next block. */
  lemma TakeFills(c: Protocol.Config, bytes: Bytes, offset: nat, end: nat, start: nat)
    requires Protocol.Usable(c) && offset < end <= |bytes|
    requires start < end && offset < start + c.blockSize
    ensures var block := Protocol.DeviceBlock(c, bytes, start);
      var done := Filled(offset, end, start);
      var from := From(offset, start);
      var take := Take(|block|, from, end - offset - done);
      && take > 0 && from + take <= |block|
      && done + take == Filled(offset, end, start + c.blockSize) <= end - offset
      && block[from..from + take] == bytes[offset + done..offset + done + take]
  {
    var stop := Min(start + c.blockSize, |bytes|);
    var block := Protocol.DeviceBlock(c, bytes, start);
    assert block == bytes[start..stop];
    var done := Filled(offset, end, start);
    var from := From(offset, start);
    var take := Take(|block|, from, end - offset - done);
    assert from + take <= |block|;
    SliceOfSlice(bytes, start, stop, from, from + take);
  }

  /** Append `more` to the `done` bytes already there, both being what `whole` holds
      from `offset` on. */
  method CopyInto(buf: array<Byte>, done: nat, more: Bytes, ghost whole: Bytes, ghost offset: nat)
    requires done + |more| <= buf.Length && offset + done + |more| <= |whole|
    requires buf[..done] == whole[offset..offset + done]
    requires more == whole[offset + done..offset + done + |more|]
    modifies buf
    ensures buf[..done + |more|] == whole[offset..offset + done + |more|]
  {
    forall i | 0 <= i < |more| {
      buf[done + i] := more[i];
    }
    assert buf[..done + |more|] == old(buf[..done]) + more;
    SliceJoin(whole, offset, offset + done, offset + done + |more|);
  }

  lemma RetainAll(es: seq<Entry>, keep: nat -> bool)
    ensures forall e :: e in Retain(es, keep) ==> e in es && keep(e.block)
  {
    forall e | e in Retain(es, keep) ensures e in es && keep(e.block) {
      RetainMember(es, keep, e);
    }
  }

  /** A write leaves the blocks outside its range as they were. */
  lemma WriteApart(c: Protocol.Config, before: Bytes, after: Bytes, offset: nat, len: nat, b: nat)
    requires Protocol.Usable(c) && |before| == |after| <= U64_MAX
    requires Protocol.Outside(c, offset, SatAdd(offset, len))(b)
    requires forall p :: 0 <= p < |before| && !(offset <= p < offset + len) ==> before[p] == after[p]
    ensures Protocol.DeviceBlock(c, before, b) == Protocol.DeviceBlock(c, after, b)
  {
  }

  /** The bytes a device holds after a write of which only the bytes `fault` names landed. */
  ghost predicate Landed(before: Bytes, after: Bytes, offset: nat, data: Bytes, fault: Option<set<nat>>) {
    if offset + |data| > |before| then after == before
    else
      && |after| == |before|
      && forall p: nat :: p < |before| ==>
           after[p] ==
             if offset <= p < offset + |data| && (fault.None? || p - offset in fault.value) then data[p - offset]
                       else before[p]
  }

  lemma WritesApart(c: Protocol.Config, before: Bytes, after: Bytes, offset: nat, data: Bytes,
                    fault: Option<set<nat>>, es: seq<Entry>)
    requires Protocol.Usable(c) && |before| <= U64_MAX && Landed(before, after, offset, data, fault)
    requires forall e :: e in es ==> Protocol.Outside(c, offset, SatAdd(offset, |data|))(e.block) && Exact(c, before, e)
    ensures |after| <= U64_MAX && forall e :: e in es ==> Exact(c, after, e)
  {
    hide Protocol.DeviceBlock, Protocol.Outside;
    forall e | e in es ensures Exact(c, after, e) {
      WriteApart(c, before, after, offset, |data|, e.block);
    }
  }

  lemma ResizesApart(c: Protocol.Config, before: Bytes, after: Bytes, newLen: nat, es: seq<Entry>)
    requires Protocol.Usable(c) && |before| <= U64_MAX && newLen <= U64_MAX
      && Protocol.LengthMoved(before, after, newLen)
    requires forall e :: e in es ==> Protocol.Outside(c, Min(|before|, newLen), U64_MAX)(e.block) && Exact(c, before, e)
    ensures |after| <= U64_MAX && forall e :: e in es ==> Exact(c, after, e)
  {
    hide Protocol.DeviceBlock, Protocol.Outside;
    forall e | e in es ensures Exact(c, after, e) {
      ResizeApart(c, before, after, newLen, e.block);
    }
  }

  /** A resize leaves the blocks that end below both lengths as they were. */
  lemma ResizeApart(c: Protocol.Config, before: Bytes, after: Bytes, newLen: nat, b: nat)
    requires Protocol.Usable(c) && |before| <= U64_MAX && |after| <= U64_MAX && newLen <= U64_MAX
    requires Protocol.LengthMoved(before, after, newLen)
    requires Protocol.Outside(c, Min(|before|, newLen), U64_MAX)(b)
    ensures Protocol.DeviceBlock(c, before, b) == Protocol.DeviceBlock(c, after, b)
  {
    var kept := Min(|before|, newLen);
    assert before[..kept] == after[..kept];
    if b + c.blockSize <= kept {
      assert before[b..b + c.blockSize] == before[..kept][b..b + c.blockSize];
      assert after[b..b + c.blockSize] == after[..kept][b..b + c.blockSize];
    }
  }

  const SMALL: Protocol.Config := Protocol.Config(2, 4)

  /** A read of the first byte of a device of one block of two. */
  lemma SmallBlock(bad: set<nat>, before: seq<Entry>)
    ensures BlocksServable(SMALL, [7, 8], bad, before, 0, 1) <==> Held(before, 0) || (0 !in bad && 1 !in bad)
    ensures IndexOf(2, 0) == 0 && Spanned(2, 0, 1) == 1
    ensures Run(before, Uses(SMALL, [7, 8], 0, 0 + 1), 4) == Step(before, Use(0, [7, 8]), 4)
  {
    hide Step, Find;
    var c, bytes := SMALL, [7, 8];
    assert Start(2, 0) == 0 && Uses(c, bytes, 0, 0) == [] && Run(before, [], 4) == before;
    assert Protocol.DeviceBlock(c, bytes, 0) == [7, 8];
    assert AllServable(c, bytes, bad, before, 0, 1) <==> Servable(c, bytes, bad, before, 0, 0);
    RunAppend(before, [], Use(0, [7, 8]), 4);
    assert Uses(c, bytes, 0, 1) == [] + [Use(0, [7, 8])];
  }

  /** A lookup leaves its block held. */
  lemma UsedIsHeld(es: seq<Entry>, b: nat, data: Bytes, capacity: nat)
    ensures Held(Step(es, Use(b, data), capacity), b)
  {
    var r := Step(es, Use(b, data), capacity);
    assert r[0].block == b;
  }

  lemma LastIsHeld(c: Protocol.Config, bytes: Bytes, bad: set<nat>, offset: nat, end: nat,
                   before: seq<Entry>, after: seq<Entry>, n: nat, hits: int, misses: int)
    requires c.blockSize > 0 && offset < end
    requires ServedFromBlocks(c, bytes, bad, offset, end, before, after, true, n, hits, misses)
    ensures Held(after, Start(c.blockSize, IndexOf(c.blockSize, end - 1)))
  {
    hide AllServable, Servable, Held, Step, IndexOf;
    var first, last := IndexOf(c.blockSize, offset), IndexOf(c.blockSize, end - 1);
    var b := Start(c.blockSize, last);
    var data := Protocol.DeviceBlock(c, bytes, b);
    RunAppend(before, Uses(c, bytes, first, last), Use(b, data), c.capacity);
    UsedIsHeld(Run(before, Uses(c, bytes, first, last), c.capacity), b, data, c.capacity);
  }

  method ReadFirst(cache: CachingDevice, buf: array<Byte>) returns (r: Result<(), Error>)
    requires cache.Valid() && cache.Config() == SMALL && cache.inner.bytes == [7, 8] && buf.Length == 1
    modifies cache`hits, cache`misses, cache.lru, buf
    ensures cache.Valid() && cache.inner.bytes == [7, 8]
    ensures r.Ok? <==> Held(old(cache.lru.Contents()), 0) || (0 !in cache.inner.bad && 1 !in cache.inner.bad)
    ensures r.Ok? ==> buf[0] == 7 && Held(cache.lru.Contents(), 0)
  {
    hide BlocksServable, IndexOf, Spanned, Uses, Run, Step, Held, Chain, Partition, Indexed, Exact;
    ghost var before := cache.lru.Contents();
    SmallBlock(cache.inner.bad, before);
    UsedIsHeld(before, 0, [7, 8], 4);
    ghost var touched;
    r, touched := cache.ReadAt(0, buf);
    assert [7, 8][0..1][0] == 7;
    assert r.Ok? ==> buf[..][0] == 7;
  }

  /** A byte of a block of two whose other byte cannot be read: the device answers, the
      cache does not. */
  method NeighbourSpoils() returns (cached: Result<(), Error>, direct: Result<Bytes, Error>)
    ensures cached.Err? && direct == Ok([7])
  {
    hide Chain, Partition, Indexed, Exact;
    var inner := new MemDevice([7, 8], {1});
    var cache := new CachingDevice(inner, false, 2, 4);
    var buf := new Byte[1];
    direct := inner.ReadAt(0, 1);
    assert [7, 8][0..1] == [7];
    cached := ReadFirst(cache, buf);
  }

  /** The same block, fetched while it could be read: once it is held the cache answers for
      it, and the device, which can no longer read it, does not. */
  method HeldOutlastsTheDevice() returns (cached: Result<(), Error>, direct: Result<Bytes, Error>, byte: Byte)
    ensures cached.Ok? && byte == 7 && direct.Err?
  {
    hide Chain, Partition, Indexed, Exact, Held;
    var inner := new MemDevice([7, 8], {});
    var cache := new CachingDevice(inner, false, 2, 4);
    var buf := new Byte[1];
    cached := ReadFirst(cache, buf);
    inner.Wear({0});
    direct := inner.ReadAt(0, 1);
    cached := ReadFirst(cache, buf);
    byte := buf[0];
  }
}
