/** The block cache's store as it is built: a slab of slots with a free list, a hash
    index, and a recency list threaded through the slots by position. Every operation
    is proved against the most-recent-first sequence of `Recency.dfy`. */
module LruStore {
  import opened Common
  import opened Recency

  /** One cached block and its neighbours in recency order, as slot positions. */
  datatype Node = Node(block: nat, data: Bytes, newer: Option<nat>, older: Option<nat>)

  type Slots = seq<Option<Node>>

  ghost predicate Live(slots: Slots, i: nat) {
    i < |slots| && slots[i].Some?
  }

  function NewerOf(order: seq<nat>, k: nat): Option<nat> {
    if 0 < k <= |order| then Some(order[k - 1]) else None
  }

  function OlderOf(order: seq<nat>, k: nat): Option<nat> {
    if k + 1 < |order| then Some(order[k + 1]) else None
  }

  /** The slot listed at `k` is live and linked to the slots listed either side of it. */
  ghost predicate Linked(slots: Slots, order: seq<nat>, k: nat)
    requires k < |order|
  {
    && Live(slots, order[k])
    && slots[order[k]].value.newer == NewerOf(order, k)
    && slots[order[k]].value.older == OlderOf(order, k)
  }

  /** `order` lists live slots, and the links, head and tail spell exactly that list. */
  ghost predicate Chain(slots: Slots, order: seq<nat>, newest: Option<nat>, oldest: Option<nat>) {
    && NoDup(order)
    && (forall k :: 0 <= k < |order| ==> Linked(slots, order, k))
    && newest == At(order, 0)
    && oldest == NewerOf(order, |order|)
  }

  /** Live and free slots partition the slab. */
  ghost predicate Partition(slots: Slots, order: seq<nat>, free: seq<nat>) {
    && NoDup(free)
    && (forall k :: 0 <= k < |free| ==> free[k] < |slots| && slots[free[k]].None?)
    && (forall i :: 0 <= i < |slots| ==> if slots[i].Some? then i in order else i in free)
  }

  /** The index maps exactly the listed blocks, each to its slot. */
  ghost predicate Indexed(slots: Slots, order: seq<nat>, index: map<nat, nat>) {
    && (forall k :: 0 <= k < |order| ==> Live(slots, order[k]))
    && (forall k :: 0 <= k < |order| ==>
          slots[order[k]].value.block in index && index[slots[order[k]].value.block] == order[k])
    && (forall b :: b in index ==> index[b] in order && Live(slots, index[b]) && slots[index[b]].value.block == b)
  }

  function EntryOf(n: Node): Entry {
    Entry(n.block, n.data)
  }

  ghost function Spell(slots: Slots, order: seq<nat>): (r: seq<Entry>)
    requires forall k :: 0 <= k < |order| ==> Live(slots, order[k])
    ensures |r| == |order|
  {
    seq(|order|, k requires 0 <= k < |order| && Live(slots, order[k]) => EntryOf(slots[order[k]].value))
  }

  function Cut<T>(s: seq<T>, k: nat): (r: seq<T>)
    requires k < |s|
    ensures |r| == |s| - 1
    ensures forall i :: 0 <= i < |r| ==> r[i] == s[if i < k then i else i + 1]
  {
    s[..k] + s[k + 1..]
  }

  function Reversed<T>(s: seq<T>): (r: seq<T>)
    ensures |r| == |s|
    ensures forall i :: 0 <= i < |s| ==> r[i] == s[|s| - 1 - i]
  {
    seq(|s|, i requires 0 <= i < |s| => s[|s| - 1 - i])
  }

  /** The same slots are live and hold the same blocks; only links may differ. */
  ghost predicate SameNodes(a: Slots, b: Slots) {
    && |a| == |b|
    && (forall j :: 0 <= j < |a| ==> a[j].Some? == b[j].Some?)
    && (forall j :: 0 <= j < |a| && a[j].Some? ==> EntryOf(a[j].value) == EntryOf(b[j].value))
  }

  lemma SpellSame(a: Slots, b: Slots, order: seq<nat>)
    requires SameNodes(a, b) && forall k :: 0 <= k < |order| ==> Live(a, order[k])
    ensures forall k :: 0 <= k < |order| ==> Live(b, order[k])
    ensures Spell(a, order) == Spell(b, order)
  {
    forall k | 0 <= k < |order| ensures Live(b, order[k]) {
      assert Live(a, order[k]);
    }
  }

  lemma SameTransitive(a: Slots, b: Slots, c: Slots)
    requires SameNodes(a, b) && SameNodes(b, c)
    ensures SameNodes(a, c)
  {
  }

  /** The lists that promotion and removal leave spell the specified contents. */
  lemma SpellCut(slots: Slots, order: seq<nat>, block: nat)
    requires forall k :: 0 <= k < |order| ==> Live(slots, order[k])
    requires Held(Spell(slots, order), block)
    ensures var es, k := Spell(slots, order), Find(Spell(slots, order), block);
      && (forall j :: 0 <= j < |order| - 1 ==> Live(slots, Cut(order, k)[j]))
      && Spell(slots, Cut(order, k)) == Drop(es, block)
      && (forall j :: 0 <= j < |order| ==> Live(slots, ([order[k]] + Cut(order, k))[j]))
      && Spell(slots, [order[k]] + Cut(order, k)) == Promote(es, block)
  {
    hide Cut, Drop, Promote, Find;
    var es, k := Spell(slots, order), Find(Spell(slots, order), block);
    var cut := Cut(order, k);
    forall j | 0 <= j < |cut| ensures Live(slots, cut[j]) && EntryOf(slots[cut[j]].value) == Drop(es, block)[j] {
      assert Live(slots, order[if j < k then j else j + 1]);
    }
    assert Spell(slots, cut) == Drop(es, block);
    var moved := [order[k]] + cut;
    forall j | 0 <= j < |moved|
      ensures Live(slots, moved[j]) && EntryOf(slots[moved[j]].value) == Promote(es, block)[j]
    {
      var m := if j == 0 then k else if j <= k then j - 1 else j;
      assert moved[j] == order[m] && Live(slots, order[m]);
    }
    assert Spell(slots, moved) == Promote(es, block);
  }

  lemma SpellFreed(slots: Slots, order: seq<nat>, i: nat)
    requires i !in order && i < |slots|
    requires forall k :: 0 <= k < |order| ==> Live(slots, order[k])
    ensures forall k :: 0 <= k < |order| ==> Live(slots[i := None], order[k])
    ensures Spell(slots[i := None], order) == Spell(slots, order)
  {
    forall k | 0 <= k < |order| ensures Live(slots[i := None], order[k]) {
      assert Live(slots, order[k]);
    }
  }

  lemma ChainFreed(slots: Slots, order: seq<nat>, newest: Option<nat>, oldest: Option<nat>, i: nat)
    requires i !in order && i < |slots| && Chain(slots, order, newest, oldest)
    ensures Chain(slots[i := None], order, newest, oldest)
  {
    var b := slots[i := None];
    forall k | 0 <= k < |order| ensures Linked(b, order, k) {
      assert Linked(slots, order, k);
    }
  }

  /** Relinking disturbs neither the index nor the partition, in whatever order. */
  lemma Relinked(a: Slots, b: Slots, order: seq<nat>, order': seq<nat>, index: map<nat, nat>, free: seq<nat>)
    requires SameNodes(a, b) && (forall i :: i in order <==> i in order')
    requires Indexed(a, order, index) && Partition(a, order, free)
    ensures Indexed(b, order', index) && Partition(b, order', free)
  {
    forall k | 0 <= k < |order'|
      ensures Live(b, order'[k])
      ensures b[order'[k]].value.block in index && index[b[order'[k]].value.block] == order'[k]
    {
      assert order'[k] in order;
      var m :| 0 <= m < |order| && order[m] == order'[k];
      assert Live(a, order[m]);
      assert a[order[m]].value.block in index && index[a[order[m]].value.block] == order[m];
    }
  }

  /** Promotion to the head, whatever the relinking did to the slots' links. */
  lemma Promoted(a: Slots, b: Slots, order: seq<nat>, block: nat, index: map<nat, nat>, free: seq<nat>)
    requires SameNodes(a, b) && NoDup(order)
    requires Indexed(a, order, index) && Partition(a, order, free) && Held(Spell(a, order), block)
    ensures var k := Find(Spell(a, order), block);
      var order' := [order[k]] + Cut(order, k);
      && Indexed(b, order', index) && Partition(b, order', free)
      && Spell(b, order') == Promote(Spell(a, order), block)
  {
    var k := Find(Spell(a, order), block);
    CutMembers(order, k);
    SpellCut(a, order, block);
    var order' := [order[k]] + Cut(order, k);
    Relinked(a, b, order, order', index, free);
    SpellSame(a, b, order');
  }

  /** What `Unlink` does to the node listed at `m`: it now points past slot `order[k]`. */
  ghost predicate PointsPast(a: Slots, b: Slots, order: seq<nat>, k: nat, m: nat)
    requires m < |order| && |a| == |b|
  {
    && Linked(a, order, m)
    && (m == k - 1 ==> b[order[m]] == Some(a[order[m]].value.(older := OlderOf(order, k))))
    && (m == k + 1 ==> b[order[m]] == Some(a[order[m]].value.(newer := NewerOf(order, k))))
    && (m != k - 1 && m != k && m != k + 1 ==> b[order[m]] == a[order[m]])
  }

  lemma UnlinkAt(a: Slots, b: Slots, order: seq<nat>, k: nat, j: nat)
    requires k < |order| && j < |order| - 1 && |a| == |b|
    requires PointsPast(a, b, order, k, if j < k then j else j + 1)
    ensures Linked(b, Cut(order, k), j)
  {
    var cut, m := Cut(order, k), if j < k then j else j + 1;
    assert cut[j] == order[m];
    assert j + 1 < |cut| ==> cut[j + 1] == order[if j + 1 < k then j + 1 else j + 2];
    assert 0 < j ==> cut[j - 1] == order[if j - 1 < k then j - 1 else j];
  }

  lemma UnlinkChain(a: Slots, b: Slots, order: seq<nat>, k: nat, newest: Option<nat>, oldest: Option<nat>)
    requires Chain(a, order, newest, oldest) && k < |order| && |a| == |b|
    requires forall m :: 0 <= m < |order| && m != k ==> PointsPast(a, b, order, k, m)
    ensures Chain(b, Cut(order, k),
                  if k == 0 then OlderOf(order, k) else newest,
                  if k == |order| - 1 then NewerOf(order, k) else oldest)
  {
    CutMembers(order, k);
    var cut := Cut(order, k);
    forall j | 0 <= j < |cut| ensures Linked(b, cut, j) {
      var m := if j < k then j else j + 1;
      assert PointsPast(a, b, order, k, m);
      UnlinkAt(a, b, order, k, j);
    }
  }

  lemma LinkChain(a: Slots, b: Slots, order: seq<nat>, i: nat, newest: Option<nat>, oldest: Option<nat>)
    requires Chain(a, order, newest, oldest) && SameNodes(a, b) && Live(a, i) && i !in order
    requires b[i] == Some(a[i].value.(newer := None, older := newest))
    requires order != [] ==> Linked(a, order, 0) && b[order[0]] == Some(a[order[0]].value.(newer := Some(i)))
    requires forall m :: 1 <= m < |order| ==> Linked(a, order, m) && b[order[m]] == a[order[m]]
    ensures Chain(b, [i] + order, Some(i), if order == [] then Some(i) else oldest)
  {
    var all := [i] + order;
    forall j | 1 <= j < |all| ensures Linked(b, all, j) {
      assert Linked(a, order, j - 1) && all[j] == order[j - 1];
    }
  }

  lemma ChainPlaced(a: Slots, b: Slots, order: seq<nat>, newest: Option<nat>, oldest: Option<nat>, i: nat)
    requires Chain(a, order, newest, oldest) && |a| <= |b|
    requires forall j :: 0 <= j < |a| && j != i ==> b[j] == a[j]
    requires i !in order
    ensures Chain(b, order, newest, oldest)
    ensures forall k :: 0 <= k < |order| ==> Live(a, order[k]) && Live(b, order[k])
    ensures Spell(b, order) == Spell(a, order)
  {
    forall k | 0 <= k < |order| ensures Linked(b, order, k) && Live(a, order[k]) && b[order[k]] == a[order[k]] {
      assert Linked(a, order, k);
    }
  }

  /** Once linked at the head, the new node makes the slab spell one more entry. */
  lemma PlaceDone(a: Slots, b: Slots, c: Slots, order: seq<nat>, index: map<nat, nat>, free: seq<nat>, i: nat,
                  node: Node)
    requires Indexed(a, order, index) && Partition(a, order, free) && node.block !in index
    requires if free != [] then i == free[|free| - 1] else i == |a|
    requires b == Placing(a, free, i, node).0 && SameNodes(b, c)
    ensures Indexed(c, [i] + order, index[node.block := i])
    ensures Partition(c, [i] + order, Placing(a, free, i, node).1)
    ensures Spell(c, [i] + order) == [EntryOf(node)] + Spell(a, order)
  {
    Placed(a, order, index, free, i, node);
    Relinked(b, c, [i] + order, [i] + order, index[node.block := i], Placing(a, free, i, node).1);
    SpellSame(b, c, [i] + order);
  }

  /** The slab with `node` put in slot `i`: the last free slot, or a new one at the end. */
  function Placing(a: Slots, free: seq<nat>, i: nat, node: Node): (Slots, seq<nat>)
    requires free != [] ==> i == free[|free| - 1] < |a|
  {
    if free != [] then (a[i := Some(node)], free[..|free| - 1]) else (a + [Some(node)], free)
  }

  lemma Placed(a: Slots, order: seq<nat>, index: map<nat, nat>, free: seq<nat>, i: nat, node: Node)
    requires Indexed(a, order, index) && Partition(a, order, free) && node.block !in index
    requires if free != [] then i == free[|free| - 1] else i == |a|
    ensures i !in order
    ensures var (b, free') := Placing(a, free, i, node);
      && Indexed(b, [i] + order, index[node.block := i]) && Partition(b, [i] + order, free')
      && (forall k :: 0 <= k < |order| ==> b[order[k]] == a[order[k]])
  {
    forall k | 0 <= k < |order| ensures order[k] != i {
      assert Live(a, order[k]);
    }
  }

  lemma IndexSize(slots: Slots, order: seq<nat>, index: map<nat, nat>)
    requires Indexed(slots, order, index) && NoDup(order)
    ensures |index| == |order|
  {
    var blocks := seq(|order|, k requires 0 <= k < |order| && Live(slots, order[k]) => slots[order[k]].value.block);
    forall i, j | 0 <= i < j < |blocks| ensures blocks[i] != blocks[j] {
      assert index[blocks[i]] == order[i] && index[blocks[j]] == order[j];
    }
    var listed := set k | 0 <= k < |blocks| :: blocks[k];
    forall b | b in index ensures b in listed {
      var k :| 0 <= k < |order| && order[k] == index[b];
      assert blocks[k] == b;
    }
    assert index.Keys == listed;
    SeqCard(blocks);
  }

  lemma CutMembers(order: seq<nat>, k: nat)
    requires NoDup(order) && k < |order|
    ensures forall x :: x in Cut(order, k) <==> x in order && x != order[k]
    ensures NoDup(Cut(order, k))
  {
    var cut := Cut(order, k);
    forall x | x in order && x != order[k] ensures x in cut {
      var m :| 0 <= m < |order| && order[m] == x;
      assert cut[if m < k then m else m - 1] == x;
    }
    forall x | x in cut ensures x in order && x != order[k] {
      var m :| 0 <= m < |cut| && cut[m] == x;
      assert order[if m < k then m else m + 1] == x;
    }
  }

  /** Freeing the slot of `order[k]` takes its entry out and keeps the slab consistent. */
  lemma Freed(a: Slots, order: seq<nat>, k: nat, index: map<nat, nat>, free: seq<nat>)
    requires NoDup(order) && k < |order|
    requires Indexed(a, order, index) && Partition(a, order, free)
    ensures var i, cut := order[k], Cut(order, k);
      && Indexed(a[i := None], cut, index - {a[i].value.block})
      && Partition(a[i := None], cut, free + [i])
  {
    CutMembers(order, k);
    FreedPartition(a, order, k, free);
    hide Partition;
    var i, cut := order[k], Cut(order, k);
    var b := a[i := None];
    assert Live(a, i);
    forall j | 0 <= j < |cut|
      ensures Live(b, cut[j])
      ensures b[cut[j]].value.block in index - {a[i].value.block}
    {
      var m := if j < k then j else j + 1;
      assert cut[j] == order[m] && Live(a, order[m]);
      assert index[a[order[m]].value.block] == order[m];
    }
  }

  lemma FreedPartition(a: Slots, order: seq<nat>, k: nat, free: seq<nat>)
    requires NoDup(order) && k < |order| && Live(a, order[k]) && Partition(a, order, free)
    ensures Partition(a[order[k] := None], Cut(order, k), free + [order[k]])
  {
    CutMembers(order, k);
    hide Cut;
    var i := order[k];
    assert forall j :: 0 <= j < |free| ==> free[j] != i;
    assert forall x :: x in free + [i] <==> x in free || x == i;
  }

  /** Once the node of `block` is out of the list, freeing its slot takes its entry out of the
      contents and keeps the slab consistent. */
  lemma Removed(a: Slots, b: Slots, order: seq<nat>, block: nat, index: map<nat, nat>, free: seq<nat>,
                newest: Option<nat>, oldest: Option<nat>)
    requires NoDup(order) && Indexed(a, order, index) && Partition(a, order, free) && SameNodes(a, b)
    requires Held(Spell(a, order), block)
    requires Chain(b, Cut(order, Find(Spell(a, order), block)), newest, oldest)
    ensures var k := Find(Spell(a, order), block);
      var i, cut := order[k], Cut(order, k);
      && i < |b| && Chain(b[i := None], cut, newest, oldest) && Partition(b[i := None], cut, free + [i])
      && Indexed(b[i := None], cut, index - {block})
      && Spell(b[i := None], cut) == Drop(Spell(a, order), block)
  {
    hide Chain, Partition, Drop;
    var k := Find(Spell(a, order), block);
    var i, cut := order[k], Cut(order, k);
    assert Live(a, i) && Spell(a, order)[k].block == block == a[i].value.block;
    SpellCut(a, order, block);
    CutMembers(order, k);
    SpellSame(a, b, cut);
    Relinked(a, b, order, order, index, free);
    Freed(b, order, k, index, free);
    SpellFreed(b, cut, i);
    ChainFreed(b, cut, newest, oldest, i);
  }

  class Lru {
    var slots: Slots
    var free: seq<nat>
    var index: map<nat, nat>
    var newest: Option<nat>
    var oldest: Option<nat>
    /** The slots in recency order, most recent first. */
    ghost var order: seq<nat>

    ghost predicate Valid()
      reads this
    {
      && Chain(slots, order, newest, oldest)
      && Partition(slots, order, free)
      && Indexed(slots, order, index)
    }

    ghost function Contents(): (es: seq<Entry>)
      requires Valid()
      reads this
    {
      Spell(slots, order)
    }

    constructor ()
      ensures Valid() && Contents() == [] && slots == []
    {
      slots, free, index, newest, oldest := [], [], map[], None, None;
      order := [];
    }

    /** No two entries hold the same block, and the index finds each where the list has it. */
    lemma ContentsDistinct()
      requires Valid()
      ensures Distinct(Contents())
      ensures forall b :: b in index <==> Held(Contents(), b)
      ensures forall b :: b in index ==> Held(Contents(), b) && order[Find(Contents(), b)] == index[b]
    {
      var es := Contents();
      forall b | b in index ensures Held(es, b) && order[Find(es, b)] == index[b] {
        var k :| 0 <= k < |order| && order[k] == index[b];
        assert es[k].block == b;
        var f := Find(es, b);
        assert f < |es| && es[f].block == b;
      }
      forall b | Held(es, b) ensures b in index {
        assert es[Find(es, b)].block == b;
      }
    }

    /** Where the index says `block` is, the list has it. */
    lemma Locate(block: nat)
      requires Valid()
      ensures block in index <==> Held(Contents(), block)
      ensures block in index ==>
        var k := Find(Contents(), block);
        k < |order| && order[k] == index[block] && Linked(slots, order, k)
          && Contents()[k] == EntryOf(slots[order[k]].value)
    {
      ContentsDistinct();
    }

    method Len() returns (n: nat)
      requires Valid()
      ensures n == |Contents()|
    {
      IndexSize(slots, order, index);
      n := |index|;
    }

    /** Take slot `i` out of the recency list, leaving its node in place. */
    method Unlink(i: nat, ghost k: nat)
      requires Chain(slots, order, newest, oldest) && k < |order| && order[k] == i
      modifies this`slots, this`newest, this`oldest, this`order
      ensures order == Cut(old(order), k)
      ensures Chain(slots, order, newest, oldest) && SameNodes(old(slots), slots)
    {
      assert Linked(slots, order, k);
      assert k > 0 ==> Linked(slots, order, k - 1);
      assert k < |order| - 1 ==> Linked(slots, order, k + 1);
      ghost var a := slots;
      var n := slots[i].value;
      match n.newer {
        case Some(j) => slots := slots[j := Some(slots[j].value.(older := n.older))];
        case None => newest := n.older;
      }
      match n.older {
        case Some(j) => slots := slots[j := Some(slots[j].value.(newer := n.newer))];
        case None => oldest := n.newer;
      }
      slots := slots[i := Some(slots[i].value.(newer := None, older := None))];
      forall m | 0 <= m < |order| && m != k ensures PointsPast(a, slots, order, k, m) {
        assert Linked(a, order, m) && order[m] != i;
      }
      UnlinkChain(a, slots, order, k, old(newest), old(oldest));
      order := Cut(order, k);
    }

    /** Put the unlinked slot `i` at the head of the recency list. */
    method LinkNewest(i: nat)
      requires Chain(slots, order, newest, oldest) && Live(slots, i) && i !in order
      modifies this`slots, this`newest, this`oldest, this`order
      ensures order == [i] + old(order)
      ensures Chain(slots, order, newest, oldest) && SameNodes(old(slots), slots)
    {
      assert order != [] ==> Linked(slots, order, 0);
      ghost var a := slots;
      var oldHead := newest;
      slots := slots[i := Some(slots[i].value.(newer := None, older := oldHead))];
      match oldHead {
        case Some(j) => slots := slots[j := Some(slots[j].value.(newer := Some(i)))];
        case None => oldest := Some(i);
      }
      newest := Some(i);
      forall m | 1 <= m < |order| ensures Linked(a, order, m) && slots[order[m]] == a[order[m]] {
        assert Linked(a, order, m);
      }
      LinkChain(a, slots, order, i, old(newest), old(oldest));
      order := [i] + order;
    }

    /** The block's bytes, promoted to most recently used. */
    method Get(block: nat) returns (r: Option<Bytes>)
      requires Valid()
      modifies this`slots, this`newest, this`oldest, this`order
      ensures Valid() && |slots| == old(|slots|)
      ensures r ==
        if Held(old(Contents()), block) then Some(old(Contents())[Find(old(Contents()), block)].data) else None
      ensures Contents() == Promote(old(Contents()), block)
    {
      hide Partition, Indexed;
      Locate(block);
      if block !in index {
        return None;
      }
      var i := index[block];
      var data := slots[i].value.data;
      ghost var es, k := Contents(), Find(Contents(), block);
      ghost var slots0, order0 := slots, order;
      if newest != Some(i) {
        assert i !in Cut(order, k) by { CutMembers(order, k); }
        Unlink(i, k);
        ghost var slots1 := slots;
        LinkNewest(i);
        SameTransitive(slots0, slots1, slots);
        Promoted(slots0, slots, order0, block, index, free);
      } else {
        assert k == 0;
        assert Promote(es, block) == es;
      }
      r := Some(data);
    }

    /** Drop one block if it is held, and say whether it was. */
    method Remove(block: nat) returns (held: bool)
      requires Valid()
      modifies this
      ensures Valid() && |slots| == old(|slots|)
      ensures held == Held(old(Contents()), block)
      ensures Contents() == Drop(old(Contents()), block)
      ensures held ==> free != []
      ensures !held ==> free == old(free)
    {
      Locate(block);
      if block !in index {
        return false;
      }
      var i := index[block];
      ghost var k := Find(Contents(), block);
      hide Chain, Partition, Indexed, Cut, Drop, Find;
      ghost var slots0, order0 := slots, order;
      Unlink(i, k);
      Removed(slots0, slots, order0, block, index, free, newest, oldest);
      index := index - {block};
      slots := slots[i := None];
      free := free + [i];
      held := true;
    }

    /** Insert at the head, evicting the least recently used first at capacity. */
    method Insert(block: nat, data: Bytes, capacity: nat)
      requires Valid()
      modifies this
      ensures Valid()
      ensures Contents() == Recency.Insert(old(Contents()), block, data, capacity)
      ensures |slots| <= Max(old(|slots|), Max(1, capacity))
    {
      ContentsDistinct();
      DropDistinct(Contents(), block);
      var _ := Remove(block);
      MakeRoom(block, capacity);
      Place(block, data);
    }

    /** The last entry is the victim: dropping its block drops just that entry. */
    lemma EvictIsDrop(es: seq<Entry>, victim: nat)
      requires Valid() && es == Contents() && es != []
      requires victim == es[|es| - 1].block
      ensures Drop(es, victim) == es[..|es| - 1]
    {
      ContentsDistinct();
      FindIs(es, |es| - 1);
    }

    /** The eviction half of `insert`. */
    method MakeRoom(ghost block: nat, capacity: nat)
      requires Valid() && !Held(Contents(), block)
      modifies this
      ensures Valid() && |slots| == old(|slots|)
      ensures Contents() == Evict(old(Contents()), capacity) && !Held(Contents(), block)
      ensures free == [] ==> |Contents()| < Max(1, capacity)
    {
      var n := Len();
      if n >= capacity {
        if oldest.Some? {
          var victim := slots[oldest.value].value.block;
          EvictIsDrop(Contents(), victim);
          var _ := Remove(victim);
        }
      }
    }

    /** Reuse a free slot before growing the slab, then link the new node at the head. */
    method Place(block: nat, data: Bytes)
      requires Valid() && !Held(Contents(), block)
      modifies this
      ensures Valid()
      ensures Contents() == [Entry(block, data)] + old(Contents())
      ensures |slots| == if old(free) != [] then old(|slots|) else old(|slots|) + 1
      ensures old(free) == [] ==> |slots| == |Contents()|
    {
      Locate(block);
      ghost var es := Contents();
      if free == [] {
        AllLive(slots, order, free);
      }
      ghost var slots0, order0, free0, index0 := slots, order, free, index;
      var node := Node(block, data, None, None);
      var i;
      if free != [] {
        i := free[|free| - 1];
        free := free[..|free| - 1];
        slots := slots[i := Some(node)];
      } else {
        i := |slots|;
        slots := slots + [Some(node)];
      }
      ghost var slots1 := slots;
      index := index[block := i];
      assert i !in order by { Placed(slots0, order, index0, free0, i, node); }
      ChainPlaced(slots0, slots, order, newest, oldest, i);
      LinkNewest(i);
      PlaceDone(slots0, slots1, slots, order0, index0, free0, i, node);
    }

    /** Drop every block that fails `keep`, in whatever order the hash index yields them. */
    method RetainBlocks(keep: nat -> bool)
      requires Valid()
      modifies this
      ensures Valid() && |slots| == old(|slots|)
      ensures Contents() == Retain(old(Contents()), keep)
    {
      hide Chain, Partition, Indexed, Without, Retain;
      ghost var es := Contents();
      var doomed := set b | b in index && !keep(b);
      ghost var all := doomed;
      ghost var gone: set<nat> := {};
      WithoutNothing(es);
      Doomed(keep, doomed);
      while doomed != {}
        invariant Valid() && |slots| == old(|slots|)
        invariant gone + doomed == all
        invariant Contents() == Without(es, gone)
        decreases doomed
      {
        var b :| b in doomed;
        RetainOne(es, gone, b);
        var _ := Remove(b);
        doomed := doomed - {b};
        gone := gone + {b};
      }
    }

    /** Dropping one block at a time filters by the set of those dropped. */
    lemma RetainOne(es: seq<Entry>, gone: set<nat>, b: nat)
      requires Valid() && Contents() == Without(es, gone)
      ensures Drop(Contents(), b) == Without(es, gone + {b})
    {
      ContentsDistinct();
      DropIsWithout(Contents(), b);
      WithoutTwice(es, gone, b);
    }

    lemma Doomed(keep: nat -> bool, doomed: set<nat>)
      requires Valid() && forall b :: b in doomed <==> b in index && !keep(b)
      ensures Retain(Contents(), keep) == Without(Contents(), doomed)
    {
      var es := Contents();
      forall e | e in es ensures e.block in doomed <==> !keep(e.block) {
        var k :| 0 <= k < |es| && es[k] == e;
        assert Live(slots, order[k]);
      }
      RetainIsWithout(es, keep, doomed);
    }

    method Clear()
      modifies this
      ensures Valid() && Contents() == [] && slots == []
    {
      slots, free, index, newest, oldest := [], [], map[], None, None;
      order := [];
    }

    /** The blocks found by following `older` from the head. */
    method RecencyOrder() returns (out: seq<nat>)
      requires Valid()
      ensures |out| == |Contents()| && forall k :: 0 <= k < |out| ==> out[k] == Contents()[k].block
    {
      out := [];
      var cur := newest;
      while cur.Some?
        invariant |out| <= |order|
        invariant cur == if |out| == |order| then None else Some(order[|out|])
        invariant forall k :: 0 <= k < |out| ==> out[k] == Contents()[k].block
        decreases |order| - |out|
      {
        assert Linked(slots, order, |out|);
        var n := slots[cur.value].value;
        out := out + [n.block];
        cur := n.older;
      }
    }

    /** The blocks found by following `newer` from the tail: the same list, backwards. */
    method RecencyOrderReversed() returns (out: seq<nat>)
      requires Valid()
      ensures |out| == |Contents()|
      ensures forall k :: 0 <= k < |out| ==> out[k] == Reversed(Contents())[k].block
    {
      out := [];
      var cur := oldest;
      while cur.Some?
        invariant |out| <= |order|
        invariant cur == if |out| == |order| then None else Some(order[|order| - 1 - |out|])
        invariant forall k :: 0 <= k < |out| ==> out[k] == Reversed(Contents())[k].block
        decreases |order| - |out|
      {
        assert Linked(slots, order, |order| - 1 - |out|);
        var n := slots[cur.value].value;
        out := out + [n.block];
        cur := n.newer;
      }
    }
  }

  /** With nothing free, every slot is listed, so the slab is as long as the list. */
  lemma AllLive(slots: Slots, order: seq<nat>, free: seq<nat>)
    requires NoDup(order) && Partition(slots, order, free) && free == []
    requires forall k :: 0 <= k < |order| ==> Live(slots, order[k])
    ensures |slots| == |order|
  {
    var listed := set k | 0 <= k < |order| :: order[k];
    var all := Range(|slots|);
    forall i | i in all ensures i in listed {
      assert slots[i].Some? ==> i in order;
    }
    forall i | i in listed ensures i in all {
      var k :| 0 <= k < |order| && order[k] == i;
      assert Live(slots, order[k]);
    }
    assert listed == all;
    SeqCard(order);
    RangeCard(|slots|);
  }

  lemma {:induction false} SeqCard(s: seq<nat>)
    requires NoDup(s)
    ensures |set k | 0 <= k < |s| :: s[k]| == |s|
  {
    if s == [] {
    } else {
      var t := s[..|s| - 1];
      SeqCard(t);
      var front := set k | 0 <= k < |t| :: t[k];
      assert (set k | 0 <= k < |s| :: s[k]) == front + {s[|s| - 1]} by {
        forall x | x in front ensures x in (set k | 0 <= k < |s| :: s[k]) {
          var k :| 0 <= k < |t| && t[k] == x;
          assert s[k] == x;
        }
        forall k | 0 <= k < |s| ensures s[k] in front + {s[|s| - 1]} {
          if k < |t| { assert t[k] == s[k]; }
        }
      }
      assert s[|s| - 1] !in front;
    }
  }

  function Range(n: nat): (r: set<nat>)
    ensures forall i :: i in r <==> 0 <= i < n
  {
    if n == 0 then {} else Range(n - 1) + {n - 1}
  }

  lemma {:induction false} RangeCard(n: nat)
    ensures |Range(n)| == n
  {
    if n == 0 {
    } else {
      RangeCard(n - 1);
      assert n - 1 !in Range(n - 1);
    }
  }
}
