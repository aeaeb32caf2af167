/** The specification of the block cache's store: the held blocks as one sequence,
    most recently used first. The slab of `Lru.dfy` refines these functions, and
    both the sequential and the concurrent model of the cache are stated over them. */
module Recency {
  import opened Common

  datatype Entry = Entry(block: nat, data: Bytes)

  ghost predicate Distinct(es: seq<Entry>) {
    forall i, j :: 0 <= i < j < |es| ==> es[i].block != es[j].block
  }

  /** The position of block `b`, or `|es|` when it is not held. */
  function Find(es: seq<Entry>, b: nat): (k: nat)
    ensures k <= |es|
    ensures k < |es| ==> es[k].block == b
    ensures forall i :: 0 <= i < k ==> es[i].block != b
  {
    if es == [] then 0 else if es[0].block == b then 0 else 1 + Find(es[1..], b)
  }

  predicate Held(es: seq<Entry>, b: nat) {
    Find(es, b) < |es|
  }

  function Drop(es: seq<Entry>, b: nat): (r: seq<Entry>)
    ensures |r| == if Held(es, b) then |es| - 1 else |es|
    ensures forall i :: 0 <= i < |r| ==> r[i] == es[if i < Find(es, b) then i else i + 1]
  {
    var k := Find(es, b);
    if k < |es| then es[..k] + es[k + 1..] else es
  }

  function Promote(es: seq<Entry>, b: nat): (r: seq<Entry>)
    ensures |r| == |es|
    ensures Held(es, b) ==> r[0] == es[Find(es, b)]
    ensures forall i :: Held(es, b) && 1 <= i < |r| ==> r[i] == es[if i <= Find(es, b) then i - 1 else i]
  {
    var k := Find(es, b);
    if k < |es| then [es[k]] + es[..k] + es[k + 1..] else es
  }

  /** Make room for one more: the last entry goes when the capacity is reached. */
  function Evict(es: seq<Entry>, capacity: nat): seq<Entry> {
    if |es| >= capacity && es != [] then es[..|es| - 1] else es
  }

  function Insert(es: seq<Entry>, b: nat, data: Bytes, capacity: nat): seq<Entry> {
    [Entry(b, data)] + Evict(Drop(es, b), capacity)
  }

  /** The entries whose block is not in `gone`, in the same order. */
  function Without(es: seq<Entry>, gone: set<nat>): (r: seq<Entry>)
    ensures |r| <= |es|
  {
    if es == [] then []
    else if es[0].block in gone then Without(es[1..], gone)
    else [es[0]] + Without(es[1..], gone)
  }

  lemma FindIs(es: seq<Entry>, k: nat)
    requires Distinct(es) && k < |es|
    ensures Find(es, es[k].block) == k
  {
    var f := Find(es, es[k].block);
    assert f == |es| || f >= k;
  }

  lemma {:induction false} WithoutMember(es: seq<Entry>, gone: set<nat>, e: Entry)
    ensures e in Without(es, gone) <==> e in es && e.block !in gone
  {
    if es == [] {
    } else {
      WithoutMember(es[1..], gone, e);
      assert es == [es[0]] + es[1..];
    }
  }

  lemma {:induction false} WithoutDistinct(es: seq<Entry>, gone: set<nat>)
    requires Distinct(es)
    ensures Distinct(Without(es, gone))
  {
    if es == [] {
    } else {
      WithoutDistinct(es[1..], gone);
      var r := Without(es[1..], gone);
      forall j | 0 <= j < |r| ensures r[j].block != es[0].block {
        WithoutMember(es[1..], gone, r[j]);
      }
    }
  }

  lemma {:induction false} WithoutMissing(es: seq<Entry>, b: nat)
    requires !Held(es, b)
    ensures Without(es, {b}) == es
  {
    if es == [] {
    } else {
      WithoutMissing(es[1..], b);
      assert es == [es[0]] + es[1..];
    }
  }

  lemma FindFirst(e: Entry, rest: seq<Entry>, b: nat)
    ensures Find([e] + rest, b) == if e.block == b then 0 else 1 + Find(rest, b)
  {
    assert ([e] + rest)[1..] == rest;
  }

  lemma DropFirst(e: Entry, rest: seq<Entry>, b: nat)
    ensures Drop([e] + rest, b) == if e.block == b then rest else [e] + Drop(rest, b)
  {
    hide Find;
    FindFirst(e, rest, b);
    var k := Find(rest, b);
    if e.block == b {
      assert ([e] + rest)[..0] + ([e] + rest)[1..] == rest;
    } else if k < |rest| {
      CutLater(e, rest, k);
    }
  }

  lemma CutLater(e: Entry, rest: seq<Entry>, k: nat)
    requires k < |rest|
    ensures ([e] + rest)[..k + 1] + ([e] + rest)[k + 2..] == [e] + (rest[..k] + rest[k + 1..])
  {
    assert ([e] + rest)[..k + 1] == [e] + rest[..k];
    assert ([e] + rest)[k + 2..] == rest[k + 1..];
  }

  lemma {:induction false} DropIsWithout(es: seq<Entry>, b: nat)
    requires Distinct(es)
    ensures Drop(es, b) == Without(es, {b})
  {
    hide Drop, Find;
    if es == [] {
      DropNothing(b);
    } else {
      var rest := es[1..];
      assert es == [es[0]] + rest;
      DropFirst(es[0], rest, b);
      if es[0].block == b {
        WithoutMissing(rest, b);
      } else {
        DropIsWithout(rest, b);
      }
    }
  }

  lemma DropNothing(b: nat)
    ensures Drop([], b) == []
  {
  }

  lemma {:induction false} WithoutTwice(es: seq<Entry>, gone: set<nat>, b: nat)
    ensures Without(Without(es, gone), {b}) == Without(es, gone + {b})
  {
    if es == [] {
    } else {
      WithoutTwice(es[1..], gone, b);
      if es[0].block !in gone {
        assert ([es[0]] + Without(es[1..], gone))[1..] == Without(es[1..], gone);
      }
    }
  }

  lemma {:induction false} WithoutNothing(es: seq<Entry>)
    ensures Without(es, {}) == es
  {
    if es == [] {
    } else {
      WithoutNothing(es[1..]);
      assert es == [es[0]] + es[1..];
    }
  }

  /** The entries whose block satisfies `keep`, in the same order. */
  function Retain(es: seq<Entry>, keep: nat -> bool): (r: seq<Entry>)
    ensures |r| <= |es|
  {
    if es == [] then []
    else if keep(es[0].block) then [es[0]] + Retain(es[1..], keep)
    else Retain(es[1..], keep)
  }

  lemma {:induction false} RetainMember(es: seq<Entry>, keep: nat -> bool, e: Entry)
    ensures e in Retain(es, keep) <==> e in es && keep(e.block)
  {
    if es == [] {
    } else {
      RetainMember(es[1..], keep, e);
      assert es == [es[0]] + es[1..];
    }
  }

  lemma {:induction false} RetainIsWithout(es: seq<Entry>, keep: nat -> bool, gone: set<nat>)
    requires forall e :: e in es ==> (e.block in gone <==> !keep(e.block))
    ensures Retain(es, keep) == Without(es, gone)
  {
    if es == [] {
    } else {
      assert es[0] in es;
      RetainIsWithout(es[1..], keep, gone);
    }
  }

  lemma {:induction false} RetainTwice(es: seq<Entry>, keep: nat -> bool)
    ensures Retain(Retain(es, keep), keep) == Retain(es, keep)
  {
    if es == [] {
    } else {
      RetainTwice(es[1..], keep);
      if keep(es[0].block) {
        assert ([es[0]] + Retain(es[1..], keep))[1..] == Retain(es[1..], keep);
      }
    }
  }

  // ----- LRU inclusion

  /** One lookup of a block that inserts it when it is missing, or one removal. */
  datatype Op = Use(block: nat, data: Bytes) | Remove(block: nat)

  function Step(es: seq<Entry>, op: Op, capacity: nat): seq<Entry> {
    match op
    case Use(b, data) => if Held(es, b) then Promote(es, b) else Insert(es, b, data, capacity)
    case Remove(b) => Drop(es, b)
  }

  function Run(es: seq<Entry>, ops: seq<Op>, capacity: nat): seq<Entry>
    decreases |ops|
  {
    if ops == [] then es else Run(Step(es, ops[0], capacity), ops[1..], capacity)
  }

  function Hits(es: seq<Entry>, ops: seq<Op>, capacity: nat): nat
    decreases |ops|
  {
    if ops == [] then 0
    else
      (if ops[0].Use? && Held(es, ops[0].block) then 1 else 0)
      + Hits(Step(es, ops[0], capacity), ops[1..], capacity)
  }

  /** The same blocks in the same order, as far as the shorter one goes. */
  ghost predicate BlocksPrefix(small: seq<Entry>, large: seq<Entry>) {
    && |small| <= |large|
    && forall i :: 0 <= i < |small| ==> small[i].block == large[i].block
  }

  lemma PrefixFind(small: seq<Entry>, large: seq<Entry>, b: nat)
    requires BlocksPrefix(small, large)
    ensures Held(small, b) ==> Find(large, b) == Find(small, b)
    ensures !Held(small, b) ==> Find(large, b) >= |small|
  {
    var l := Find(large, b);
    assert l < |small| ==> small[l].block == b;
    assert Held(small, b) ==> large[Find(small, b)].block == b;
  }

  lemma InclusionDrop(small: seq<Entry>, large: seq<Entry>, b: nat)
    requires BlocksPrefix(small, large)
    ensures BlocksPrefix(Drop(small, b), Drop(large, b))
  {
    PrefixFind(small, large, b);
    var r, r' := Drop(small, b), Drop(large, b);
    forall i | 0 <= i < |r| ensures i < |r'| && r[i].block == r'[i].block {}
  }

  lemma InclusionPromote(small: seq<Entry>, large: seq<Entry>, b: nat)
    requires BlocksPrefix(small, large) && Held(small, b)
    ensures BlocksPrefix(Promote(small, b), Promote(large, b)) && Held(large, b)
  {
    PrefixFind(small, large, b);
  }

  lemma PrefixCons(x: Entry, y: Entry, small: seq<Entry>, large: seq<Entry>)
    requires x.block == y.block && BlocksPrefix(small, large)
    ensures BlocksPrefix([x] + small, [y] + large)
  {
  }

  lemma PrefixEvict(small: seq<Entry>, large: seq<Entry>, c: nat, c': nat)
    requires BlocksPrefix(small, large)
    ensures BlocksPrefix(Evict(small, c), large)
    ensures Max(1, c) <= Max(1, c') ==> BlocksPrefix(Evict(small, c), Evict(large, c'))
  {
  }

  lemma InsertIs(es: seq<Entry>, b: nat, data: Bytes, capacity: nat)
    requires !Held(es, b)
    ensures Insert(es, b, data, capacity) == [Entry(b, data)] + Evict(es, capacity)
  {
    assert Drop(es, b) == es;
  }

  lemma PromoteIs(es: seq<Entry>, b: nat)
    requires Held(es, b)
    ensures Promote(es, b) == [es[Find(es, b)]] + Drop(es, b) && es[Find(es, b)].block == b
  {
    hide Find, Drop, Promote;
    var r, rest := Promote(es, b), Drop(es, b);
    forall i | 0 <= i < |r| ensures r[i] == ([es[Find(es, b)]] + rest)[i] {
      if i > 0 { assert r[i] == rest[i - 1]; }
    }
  }

  /** A block the smaller does not hold is dropped past the end of it. */
  lemma PrefixDrop(small: seq<Entry>, large: seq<Entry>, b: nat)
    requires BlocksPrefix(small, large) && !Held(small, b) && Held(large, b)
    ensures BlocksPrefix(small, Drop(large, b))
  {
    PrefixFind(small, large, b);
    hide Drop, Find;
  }

  lemma InclusionMiss(small: seq<Entry>, large: seq<Entry>, b: nat, data: Bytes, c: nat, c': nat)
    requires BlocksPrefix(small, large) && Max(1, c) <= Max(1, c') && !Held(small, b)
    ensures BlocksPrefix(Insert(small, b, data, c),
                         if Held(large, b) then Promote(large, b) else Insert(large, b, data, c'))
  {
    hide Insert, Evict, Drop, Promote, Find, BlocksPrefix;
    InsertIs(small, b, data, c);
    if Held(large, b) {
      var others := Drop(large, b);
      PrefixDrop(small, large, b);
      PromoteIs(large, b);
      PrefixEvict(small, others, c, c');
      PrefixCons(Entry(b, data), large[Find(large, b)], Evict(small, c), others);
    } else {
      InsertIs(large, b, data, c');
      PrefixEvict(small, large, c, c');
      PrefixCons(Entry(b, data), Entry(b, data), Evict(small, c), Evict(large, c'));
    }
  }

  lemma InclusionStep(small: seq<Entry>, large: seq<Entry>, op: Op, c: nat, c': nat)
    requires BlocksPrefix(small, large) && Max(1, c) <= Max(1, c')
    ensures BlocksPrefix(Step(small, op, c), Step(large, op, c'))
    ensures Held(small, op.block) ==> Held(large, op.block)
  {
    match op
    case Use(b, data) =>
      if Held(small, b) {
        InclusionPromote(small, large, b);
      } else {
        InclusionMiss(small, large, b, data, c, c');
      }
    case Remove(b) => InclusionDrop(small, large, b);
  }

  /** The recency order at a smaller capacity is a prefix of the order at a larger one,
      after any trace of lookups and removals; a capacity of zero acts as one. */
  lemma {:induction false} Inclusion(small: seq<Entry>, large: seq<Entry>, ops: seq<Op>, c: nat, c': nat)
    requires BlocksPrefix(small, large) && Max(1, c) <= Max(1, c')
    ensures BlocksPrefix(Run(small, ops, c), Run(large, ops, c'))
    ensures Hits(small, ops, c) <= Hits(large, ops, c')
    decreases |ops|
  {
    if ops == [] {
    } else {
      InclusionStep(small, large, ops[0], c, c');
      Inclusion(Step(small, ops[0], c), Step(large, ops[0], c'), ops[1..], c, c');
    }
  }

  lemma DropDistinct(es: seq<Entry>, b: nat)
    requires Distinct(es)
    ensures Distinct(Drop(es, b))
    ensures forall i :: 0 <= i < |Drop(es, b)| ==> Drop(es, b)[i].block != b
  {
  }

  lemma PromoteDistinct(es: seq<Entry>, b: nat)
    requires Distinct(es)
    ensures Distinct(Promote(es, b))
  {
    hide Find;
    if Held(es, b) {
      hide Promote;
      var r, k := Promote(es, b), Find(es, b);
      forall i, j | 0 <= i < j < |r| ensures r[i].block != r[j].block {
        var from, to := if i == 0 then k else if i <= k then i - 1 else i, if j <= k then j - 1 else j;
        assert r[i] == es[from] && r[j] == es[to] && from != to;
      }
    }
  }

  lemma InsertDistinct(es: seq<Entry>, b: nat, data: Bytes, capacity: nat)
    requires Distinct(es) && |es| <= Max(1, capacity)
    ensures Distinct(Insert(es, b, data, capacity)) && |Insert(es, b, data, capacity)| <= Max(1, capacity)
  {
    DropDistinct(es, b);
    var kept := Evict(Drop(es, b), capacity);
    assert forall i :: 0 <= i < |kept| ==> kept[i] == Drop(es, b)[i];
  }

  lemma StepKeepsShape(es: seq<Entry>, op: Op, capacity: nat)
    requires Distinct(es) && |es| <= Max(1, capacity)
    ensures Distinct(Step(es, op, capacity)) && |Step(es, op, capacity)| <= Max(1, capacity)
  {
    DropDistinct(es, op.block);
    PromoteDistinct(es, op.block);
    if op.Use? {
      InsertDistinct(es, op.block, op.data, capacity);
    }
  }

  lemma {:induction false} RunKeepsShape(es: seq<Entry>, ops: seq<Op>, capacity: nat)
    requires Distinct(es) && |es| <= Max(1, capacity)
    ensures Distinct(Run(es, ops, capacity)) && |Run(es, ops, capacity)| <= Max(1, capacity)
    decreases |ops|
  {
    if ops == [] {
    } else {
      StepKeepsShape(es, ops[0], capacity);
      RunKeepsShape(Step(es, ops[0], capacity), ops[1..], capacity);
    }
  }

  function Used(ops: seq<Op>): set<nat> {
    set op | op in ops && op.Use? :: op.block
  }

  /** The blocks more recent than `b`. */
  function Newer(es: seq<Entry>, b: nat): set<nat> {
    set i | 0 <= i < Find(es, b) :: es[i].block
  }

  lemma {:induction false} NewerCount(es: seq<Entry>, k: nat, blocks: set<nat>)
    requires Distinct(es) && k <= |es|
    requires forall i :: 0 <= i < k ==> es[i].block in blocks
    ensures k <= |blocks|
  {
    if k == 0 {
    } else {
      forall i | 0 <= i < k - 1 ensures es[i].block in blocks - {es[k - 1].block} {
        assert es[i].block != es[k - 1].block;
      }
      NewerCount(es, k - 1, blocks - {es[k - 1].block});
    }
  }

  /** `b` is at `k` when it is there and everything before it is another block. */
  lemma FindAt(es: seq<Entry>, b: nat, k: nat)
    requires k < |es| && es[k].block == b && forall i :: 0 <= i < k ==> es[i].block != b
    ensures Find(es, b) == k
  {
  }

  ghost predicate Keeps(es: seq<Entry>, es': seq<Entry>, b: nat, others: set<nat>)
    requires Held(es, b)
  {
    Held(es', b) && Newer(es', b) <= others && es'[Find(es', b)] == es[Find(es, b)]
  }

  lemma KeepsAt(es: seq<Entry>, es': seq<Entry>, b: nat, others: set<nat>, k: nat)
    requires Held(es, b) && b !in others
    requires k < |es'| && es'[k] == es[Find(es, b)]
    requires forall i :: 0 <= i < k ==> es'[i].block in others
    ensures Keeps(es, es', b, others)
  {
    FindAt(es', b, k);
  }

  lemma NewerAre(es: seq<Entry>, b: nat, others: set<nat>)
    requires Newer(es, b) <= others
    ensures forall i :: 0 <= i < Find(es, b) ==> es[i].block in others
  {
    forall i | 0 <= i < Find(es, b) ensures es[i].block in others {
      assert es[i].block in Newer(es, b);
    }
  }

  lemma MissKeepsHeld(es: seq<Entry>, u: nat, data: Bytes, b: nat, others: set<nat>, capacity: nat)
    requires Distinct(es) && Held(es, b) && !Held(es, u) && u in others
    requires Newer(es, b) <= others && b !in others && |others| < Max(1, capacity)
    ensures Keeps(es, Insert(es, u, data, capacity), b, others)
  {
    var k := Find(es, b);
    NewerAre(es, b, others);
    NewerCount(es, k, others - {u});
    assert Drop(es, u) == es;
    KeepsAt(es, Insert(es, u, data, capacity), b, others, k + 1);
  }

  lemma StepKeepsHeld(es: seq<Entry>, op: Op, b: nat, others: set<nat>, capacity: nat)
    requires Distinct(es) && Held(es, b) && op.block != b
    requires Newer(es, b) <= others && b !in others && |others| < Max(1, capacity)
    requires op.Use? ==> op.block in others
    ensures Keeps(es, Step(es, op, capacity), b, others)
  {
    var k, f := Find(es, b), Find(es, op.block);
    NewerAre(es, b, others);
    if op.Remove? {
      KeepsAt(es, Drop(es, op.block), b, others, if f < k then k - 1 else k);
    } else if f < |es| {
      KeepsAt(es, Promote(es, op.block), b, others, if f < k then k else k + 1);
    } else {
      MissKeepsHeld(es, op.block, op.data, b, others, capacity);
    }
  }

  /** What least-recently-used means: a block just looked up stays held, with the same
      bytes, for as long as it is not removed and fewer than `Max(1, capacity)` other
      blocks are looked up after it. */
  lemma {:induction false} Retained(es: seq<Entry>, ops: seq<Op>, b: nat, others: set<nat>, capacity: nat)
    requires Distinct(es) && |es| <= Max(1, capacity) && Held(es, b)
    requires forall op :: op in ops ==> op.block != b
    requires Newer(es, b) + Used(ops) <= others && b !in others && |others| < Max(1, capacity)
    ensures var es' := Run(es, ops, capacity);
      Held(es', b) && es'[Find(es', b)] == es[Find(es, b)]
    decreases |ops|
  {
    if ops == [] {
    } else {
      assert ops[0].Use? ==> ops[0].block in Used(ops);
      StepKeepsHeld(es, ops[0], b, others, capacity);
      StepKeepsShape(es, ops[0], capacity);
      assert Used(ops[1..]) <= Used(ops);
      Retained(Step(es, ops[0], capacity), ops[1..], b, others, capacity);
    }
  }

  /** A block that is not held comes to be only by being looked up itself. */
  lemma {:induction false} AbsentStays(es: seq<Entry>, ops: seq<Op>, b: nat, capacity: nat)
    requires !Held(es, b) && forall op :: op in ops ==> op.block != b
    ensures !Held(Run(es, ops, capacity), b)
    decreases |ops|
  {
    if ops == [] {
    } else {
      AbsentAfter(es, ops[0], b, capacity);
      AbsentStays(Step(es, ops[0], capacity), ops[1..], b, capacity);
    }
  }

  lemma AbsentAfter(es: seq<Entry>, op: Op, b: nat, capacity: nat)
    requires !Held(es, b) && op.block != b
    ensures !Held(Step(es, op, capacity), b)
  {
    hide Find, Step;
    AbsentIs(es, b);
    StepMembers(es, op, capacity);
    AbsentIs(Step(es, op, capacity), b);
  }

  lemma AbsentIs(es: seq<Entry>, b: nat)
    ensures !Held(es, b) <==> forall i :: 0 <= i < |es| ==> es[i].block != b
  {
  }

  lemma StepMembers(es: seq<Entry>, op: Op, capacity: nat)
    ensures var r := Step(es, op, capacity);
      forall i :: 0 <= i < |r| ==> r[i] in es || r[i].block == op.block
  {
    hide Find, Drop, Promote;
  }

  /** Fewer blocks are more recent than a held one than are held. */
  lemma FewNewer(es: seq<Entry>, b: nat)
    requires Held(es, b)
    ensures |Newer(es, b)| < |es|
  {
    BlocksCount(es, Find(es, b));
  }

  lemma {:induction false} BlocksCount(es: seq<Entry>, k: nat)
    requires k <= |es|
    ensures |set i | 0 <= i < k :: es[i].block| <= k
  {
    if k == 0 {
    } else {
      BlocksCount(es, k - 1);
      assert (set i | 0 <= i < k :: es[i].block) == (set i | 0 <= i < k - 1 :: es[i].block) + {es[k - 1].block};
    }
  }
}
