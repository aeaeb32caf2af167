/** Walking a tree with an explicit stack: the walk it stands for, and the account of every
    entry it ever puts on the stack. */
module TreeWalk {
  import opened Common
  import opened TreeReport

  /** An entry waiting on the stack. */
  datatype Node<T> = Node(path: Path, depth: nat, what: T)

  /** How a walk goes: what visiting an entry makes of the state and which entries it leads
      to, and when a signal has stopped it. Each visit lowers the state's rank, or leads to
      entries that together weigh no more than the one visited. */
  datatype Rules<!S, !T> = Rules(
    visit: (S, Node<T>) -> (S, seq<Node<T>>),
    stopped: S -> bool,
    rank: S -> nat,
    weight: Node<T> -> nat)

  function Total<S, T>(r: Rules<S, T>, ns: seq<Node<T>>): nat {
    if ns == [] then 0 else 1 + r.weight(ns[0]) + Total(r, ns[1..])
  }

  ghost predicate Descends<S(!new), T(!new)>(r: Rules<S, T>) {
    forall s, n ::
      var (s', children) := r.visit(s, n);
      r.rank(s') < r.rank(s) || (r.rank(s') == r.rank(s) && Total(r, children) <= r.weight(n))
  }

  /** Where a walk ends: the state, and the entries a signal kept it from visiting. */
  datatype End<S, T> = End(state: S, left: seq<Node<T>>)

  /** Visit an entry, then the entries it leads to in their order, each with everything it
      leads to in turn. */
  ghost function Walk<S(!new), T(!new)>(r: Rules<S, T>, s: S, n: Node<T>): (e: End<S, T>)
    requires Descends(r)
    ensures r.rank(e.state) <= r.rank(s)
    decreases r.rank(s), r.weight(n), 1
  {
    if r.stopped(s) then End(s, [n])
    else
      var (s', children) := r.visit(s, n);
      WalkAll(r, s', children)
  }

  ghost function WalkAll<S(!new), T(!new)>(r: Rules<S, T>, s: S, ns: seq<Node<T>>): (e: End<S, T>)
    requires Descends(r)
    ensures r.rank(e.state) <= r.rank(s)
    decreases r.rank(s), Total(r, ns), 0
  {
    if ns == [] then End(s, [])
    else
      var first := Walk(r, s, ns[0]);
      var rest := WalkAll(r, first.state, ns[1..]);
      End(rest.state, first.left + rest.left)
  }

  // ---------------------------------------------------------------- the stack

  function Reversed<T>(ns: seq<Node<T>>): (r: seq<Node<T>>)
    ensures |r| == |ns|
  {
    if ns == [] then [] else Reversed(ns[1..]) + [ns[0]]
  }

  lemma {:induction false} ReversedAppend<T(!new)>(a: seq<Node<T>>, b: seq<Node<T>>)
    ensures Reversed(a + b) == Reversed(b) + Reversed(a)
  {
    if a == [] {
      assert a + b == b;
    } else {
      assert (a + b)[1..] == a[1..] + b;
      ReversedAppend(a[1..], b);
    }
  }

  lemma {:induction false} ReversedTwice<T(!new)>(a: seq<Node<T>>)
    ensures Reversed(Reversed(a)) == a
  {
    if a == [] {
    } else {
      ReversedAppend(Reversed(a[1..]), [a[0]]);
      ReversedTwice(a[1..]);
      assert Reversed([a[0]]) == [a[0]] by { assert [a[0]][1..] == []; }
      assert a == [a[0]] + a[1..];
    }
  }

  lemma {:induction false} ReversedIs<T(!new)>(ns: seq<Node<T>>)
    ensures forall k :: 0 <= k < |ns| ==> Reversed(ns)[k] == ns[|ns| - 1 - k]
    ensures multiset(Reversed(ns)) == multiset(ns)
  {
    if ns == [] {
    } else {
      var rest := Reversed(ns[1..]);
      ReversedIs(ns[1..]);
      assert ns == [ns[0]] + ns[1..] && Reversed(ns) == rest + [ns[0]];
      assert multiset(rest + [ns[0]]) == multiset(rest) + multiset{ns[0]};
      hide Reversed;
    }
  }

  lemma {:induction false} WalkAllAppend<S(!new), T(!new)>(r: Rules<S, T>, s: S, a: seq<Node<T>>, b: seq<Node<T>>)
    requires Descends(r)
    ensures var first := WalkAll(r, s, a);
      var rest := WalkAll(r, first.state, b);
      WalkAll(r, s, a + b) == End(rest.state, first.left + rest.left)
    decreases |a|
  {
    hide Descends, Walk;
    if a == [] {
      assert a + b == b;
    } else {
      assert (a + b)[1..] == a[1..] + b;
      var first := Walk(r, s, a[0]);
      WalkAllAppend(r, first.state, a[1..], b);
    }
  }

  lemma {:induction false} StoppedLeaves<S(!new), T(!new)>(r: Rules<S, T>, s: S, ns: seq<Node<T>>)
    requires Descends(r) && r.stopped(s)
    ensures WalkAll(r, s, ns) == End(s, ns)
  {
    if ns == [] {
    } else {
      StoppedLeaves(r, s, ns[1..]);
    }
  }

  /** Popping an entry and pushing what it leads to, last first, goes on as the recursive
      walk of what was on the stack does. */
  lemma PopWalks<S(!new), T(!new)>(r: Rules<S, T>, s: S, below: seq<Node<T>>, n: Node<T>)
    requires Descends(r) && !r.stopped(s)
    ensures var (s', children) := r.visit(s, n);
      WalkAll(r, s, Reversed(below + [n])) == WalkAll(r, s', Reversed(below + Reversed(children)))
  {
    hide Descends;
    var (s', children) := r.visit(s, n);
    ReversedAppend(below, [n]);
    assert Reversed([n]) == [n] by { assert [n][1..] == []; }
    ReversedAppend(below, Reversed(children));
    ReversedTwice(children);
    WalkAllAppend(r, s, [n], Reversed(below));
    WalkAllAppend(r, s', children, Reversed(below));
    var one := Walk(r, s, n);
    assert [n][1..] == [];
    assert WalkAll(r, s, [n]) == End(one.state, one.left + []);
  }

  /** Put entries on a stack so that the first comes off it first. */
  method Push<T(!new)>(pending: seq<Node<T>>, queued: seq<Node<T>>) returns (after: seq<Node<T>>)
    ensures after == pending + Reversed(queued)
  {
    after := pending;
    var i := |queued|;
    assert queued[i..] == [];
    while i > 0
      invariant 0 <= i <= |queued| && after == pending + Reversed(queued[i..])
    {
      i := i - 1;
      assert queued[i..][1..] == queued[i + 1..];
      after := after + [queued[i]];
    }
    assert queued[0..] == queued;
  }

  lemma OneWalks<S(!new), T(!new)>(r: Rules<S, T>, s: S, n: Node<T>)
    requires Descends(r)
    ensures WalkAll(r, s, Reversed([n])) == Walk(r, s, n)
  {
    hide Descends;
    assert [n][1..] == [] && Reversed([n]) == [n];
    var one := Walk(r, s, n);
    assert one.left + [] == one.left;
  }

  lemma {:induction false} TotalAppend<S(!new), T(!new)>(r: Rules<S, T>, a: seq<Node<T>>, b: seq<Node<T>>)
    ensures Total(r, a + b) == Total(r, a) + Total(r, b)
  {
    if a == [] {
      assert a + b == b;
    } else {
      assert (a + b)[1..] == a[1..] + b;
      TotalAppend(r, a[1..], b);
    }
  }

  lemma {:induction false} TotalReversed<S(!new), T(!new)>(r: Rules<S, T>, ns: seq<Node<T>>)
    ensures Total(r, Reversed(ns)) == Total(r, ns)
  {
    if ns == [] {
    } else {
      TotalReversed(r, ns[1..]);
      TotalAppend(r, Reversed(ns[1..]), [ns[0]]);
      assert [ns[0]][1..] == [];
      assert Total(r, [ns[0]]) == 1 + r.weight(ns[0]);
    }
  }

  /** Each turn of the loop lowers the rank, or the weight of the stack. */
  lemma PopShrinks<S(!new), T(!new)>(r: Rules<S, T>, s: S, below: seq<Node<T>>, n: Node<T>)
    requires Descends(r)
    ensures var (s', children) := r.visit(s, n);
      || r.rank(s') < r.rank(s)
      || (r.rank(s') == r.rank(s) && Total(r, below + Reversed(children)) < Total(r, below + [n]))
  {
    var (s', children) := r.visit(s, n);
    TotalAppend(r, below, Reversed(children));
    TotalReversed(r, children);
    TotalAppend(r, below, [n]);
    assert [n][1..] == [];
    assert Total(r, [n]) == 1 + r.weight(n);
  }

  /** The loop ends with nothing on the stack, or with a signal and what is left there. */
  lemma Ended<S(!new), T(!new)>(r: Rules<S, T>, s: S, pending: seq<Node<T>>)
    requires Descends(r) && (pending == [] || r.stopped(s))
    ensures WalkAll(r, s, Reversed(pending)) == End(s, Reversed(pending)) && Reversed<T>([]) == []
  {
    if r.stopped(s) {
      StoppedLeaves(r, s, Reversed(pending));
    }
  }

  /** What a turn of the loop keeps of the state and the stack. */
  ghost predicate Keeps<S(!new), T(!new)>(r: Rules<S, T>, holds: (S, seq<Node<T>>) -> bool) {
    forall s, pending :: holds(s, pending) && pending != [] && !r.stopped(s) ==>
      var n, below := pending[|pending| - 1], pending[..|pending| - 1];
      holds(r.visit(s, n).0, below + Reversed(r.visit(s, n).1))
  }

  /** What every turn of the loop keeps holds of where the walk ends and of what it leaves. */
  lemma {:induction false} WalkKeeps<S(!new), T(!new)>(r: Rules<S, T>, holds: (S, seq<Node<T>>) -> bool, s: S,
                                                      pending: seq<Node<T>>)
    requires Descends(r) && Keeps(r, holds) && holds(s, pending)
    ensures var e := WalkAll(r, s, Reversed(pending)); holds(e.state, Reversed(e.left))
    decreases r.rank(s), Total(r, pending)
  {
    if pending == [] || r.stopped(s) {
      Ended(r, s, pending);
      ReversedTwice(pending);
    } else {
      hide Descends, Walk, WalkAll;
      var n, below := pending[|pending| - 1], pending[..|pending| - 1];
      assert pending == below + [n];
      var (s', children) := r.visit(s, n);
      PopWalks(r, s, below, n);
      PopShrinks(r, s, below, n);
      WalkKeeps(r, holds, s', below + Reversed(children));
    }
  }

  // ---------------------------------------------------------------- everything ends once

  function LastName<T>(n: Node<T>): string {
    if n.path == [] then "" else n.path[|n.path| - 1]
  }

  /** `kid` is a child of `parent`, one level down, under a name that will do. */
  ghost predicate ChildOf<T>(named: string -> bool, parent: Node<T>, kid: Node<T>) {
    && |kid.path| == |parent.path| + 1 && kid.path[..|parent.path|] == parent.path
    && named(LastName(kid)) && kid.depth == parent.depth + 1
  }

  ghost predicate ChildrenOf<T>(named: string -> bool, parent: Node<T>, kids: seq<Node<T>>) {
    && (forall i :: 0 <= i < |kids| ==> ChildOf(named, parent, kids[i]))
    && (forall i, j :: 0 <= i < j < |kids| ==> LastName(kids[i]) != LastName(kids[j]))
  }

  ghost predicate Distinct<T>(ns: seq<Node<T>>) {
    forall i, j :: 0 <= i < j < |ns| ==> ns[i].path != ns[j].path
  }

  /** `n` is the root, or lies below it, with the entry that led to it visited. */
  ghost predicate Rooted<T>(named: string -> bool, root: Node<T>, visited: seq<Node<T>>, n: Node<T>) {
    || n == root
    || (|n.path| > |root.path| && exists v :: v in visited && ChildOf(named, v, n))
  }

  ghost predicate AllRooted<T(!new)>(named: string -> bool, root: Node<T>, visited: seq<Node<T>>, all: seq<Node<T>>) {
    forall n :: n in all ==> Rooted(named, root, visited, n) && |n.path| >= |root.path|
  }

  /** Every entry was visited after the one that led to it. */
  ghost predicate ParentsFirst<T(!new)>(named: string -> bool, root: Node<T>, visited: seq<Node<T>>) {
    forall j :: 0 <= j < |visited| ==> Rooted(named, root, visited[..j], visited[j])
  }

  /** Everything ever queued was visited or waits, once each under a path of its own, and
      the items report the visited entries in order. */
  ghost predicate Accounted<T(!new)>(named: string -> bool, root: Node<T>, visited: seq<Node<T>>, queued: seq<Node<T>>,
                                    items: seq<Item>, waiting: seq<Node<T>>) {
    && multiset(queued) == multiset(visited + waiting)
    && Distinct(visited + waiting)
    && AllRooted(named, root, visited, visited + waiting)
    && ParentsFirst(named, root, visited)
    && |Entries(items)| == |visited|
    && (forall k :: 0 <= k < |visited| ==> Entries(items)[k].path == visited[k].path)
    && Marked(items)
  }

  lemma AccountedStart<T(!new)>(named: string -> bool, root: Node<T>)
    ensures Accounted(named, root, [], [root], [], [root])
  {
    assert [] + [root] == [root];
  }

  lemma DistinctJoin<T(!new)>(a: seq<Node<T>>, b: seq<Node<T>>)
    requires Distinct(a) && Distinct(b)
    requires forall x, y :: x in a && y in b ==> x.path != y.path
    ensures Distinct(a + b)
  {
  }

  lemma DistinctMove<T(!new)>(visited: seq<Node<T>>, below: seq<Node<T>>, n: Node<T>)
    requires Distinct(visited + (below + [n]))
    ensures Distinct(visited + [n] + below)
  {
    var before, after := visited + (below + [n]), visited + [n] + below;
    var v, m := |visited|, |below|;
    forall i | 0 <= i < |after| ensures after[i] == before[if i < v then i else if i == v then v + m else i - 1] {}
  }

  lemma PushDistinct<T(!new)>(named: string -> bool, root: Node<T>, visited: seq<Node<T>>, below: seq<Node<T>>,
                              n: Node<T>, children: seq<Node<T>>)
    requires Distinct(visited + (below + [n]))
    requires AllRooted(named, root, visited, visited + (below + [n])) && ChildrenOf(named, n, children)
    ensures Distinct(visited + [n] + below + Reversed(children))
  {
    DistinctMove(visited, below, n);
    ChildrenDistinct(named, n, children);
    var already, kids := visited + [n] + below, Reversed(children);
    forall q, kid | q in already && kid in kids ensures q.path != kid.path {
      Reordered(visited, below, n, q);
      NewPath(named, root, visited, below, n, q, kid);
    }
    DistinctJoin(already, kids);
  }

  lemma Reordered<T(!new)>(visited: seq<Node<T>>, below: seq<Node<T>>, n: Node<T>, q: Node<T>)
    ensures q in visited + [n] + below <==> q in visited + (below + [n])
  {
  }

  lemma ChildrenDistinct<T(!new)>(named: string -> bool, n: Node<T>, children: seq<Node<T>>)
    requires ChildrenOf(named, n, children)
    ensures Distinct(Reversed(children)) && forall kid :: kid in Reversed(children) ==> ChildOf(named, n, kid)
  {
    ReversedIs(children);
    forall i, j | 0 <= i < j < |children| ensures Reversed(children)[i].path != Reversed(children)[j].path {
      assert LastName(Reversed(children)[i]) != LastName(Reversed(children)[j]);
    }
  }

  /** A child's path was never queued before: its directory has only now been visited. */
  lemma NewPath<T(!new)>(named: string -> bool, root: Node<T>, visited: seq<Node<T>>, below: seq<Node<T>>, n: Node<T>,
                         q: Node<T>, kid: Node<T>)
    requires Distinct(visited + (below + [n])) && q in visited + (below + [n])
    requires AllRooted(named, root, visited, visited + (below + [n])) && ChildOf(named, n, kid)
    ensures q.path != kid.path
  {
    var all := visited + (below + [n]);
    assert all[|all| - 1] == n && n in all;
    forall v | v in visited ensures v.path != n.path {
      var k :| 0 <= k < |visited| && visited[k] == v;
      assert all[k] == v;
    }
    assert Rooted(named, root, visited, q);
  }

  lemma StepRooted<T(!new)>(named: string -> bool, root: Node<T>, visited: seq<Node<T>>, n: Node<T>,
                            below: seq<Node<T>>, kids: seq<Node<T>>)
    requires AllRooted(named, root, visited, visited + (below + [n]))
    requires forall kid :: kid in kids ==> ChildOf(named, n, kid)
    ensures AllRooted(named, root, visited + [n], visited + [n] + below + kids)
  {
    assert n in visited + (below + [n]) && n in visited + [n];
    forall q | q in visited + [n] + below + kids
      ensures Rooted(named, root, visited + [n], q) && |q.path| >= |root.path|
    {
      if q in kids {
        assert ChildOf(named, n, q);
      } else {
        Reordered(visited, below, n, q);
        assert Rooted(named, root, visited, q);
        if q != root {
          var v :| v in visited && ChildOf(named, v, q);
          assert v in visited + [n];
        }
      }
    }
  }

  /** One turn of the loop keeps the account. */
  lemma StepAccounted<T(!new)>(named: string -> bool, root: Node<T>, visited: seq<Node<T>>, queued: seq<Node<T>>,
                               items: seq<Item>, below: seq<Node<T>>, n: Node<T>, children: seq<Node<T>>,
                               refused: seq<Item>, item: Item)
    requires Accounted(named, root, visited, queued, items, below + [n]) && ChildrenOf(named, n, children)
    requires item.entry && item.path == n.path && (item.verified ==> item.status.Skipped?)
    requires forall i :: 0 <= i < |refused| ==> !refused[i].entry && !refused[i].verified
    ensures Accounted(named, root, visited + [n], queued + children, items + refused + [item],
      below + Reversed(children))
  {
    hide AllRooted, ChildOf, Distinct, ParentsFirst;
    PushDistinct(named, root, visited, below, n, children);
    ChildrenDistinct(named, n, children);
    StepRooted(named, root, visited, n, below, Reversed(children));
    assert visited + [n] + (below + Reversed(children)) == visited + [n] + below + Reversed(children);
    StepQueued(visited, queued, below, n, children);
    EntriesAppend(items, refused, item);
    StepParents(named, root, visited, n, below);
  }

  lemma StepParents<T(!new)>(named: string -> bool, root: Node<T>, visited: seq<Node<T>>, n: Node<T>,
                             below: seq<Node<T>>)
    requires ParentsFirst(named, root, visited) && AllRooted(named, root, visited, visited + (below + [n]))
    ensures ParentsFirst(named, root, visited + [n])
  {
    assert n in visited + (below + [n]);
    var all := visited + [n];
    forall j | 0 <= j < |all| ensures Rooted(named, root, all[..j], all[j]) {
      assert all[..j] == visited[..j];
    }
  }

  lemma StepQueued<T(!new)>(visited: seq<Node<T>>, queued: seq<Node<T>>, below: seq<Node<T>>, n: Node<T>,
                            children: seq<Node<T>>)
    requires multiset(queued) == multiset(visited + (below + [n]))
    ensures multiset(queued + children) == multiset(visited + [n] + (below + Reversed(children)))
  {
    ReversedIs(children);
  }

  lemma DistinctReversed<T(!new)>(visited: seq<Node<T>>, pending: seq<Node<T>>)
    requires Distinct(visited + pending)
    ensures Distinct(visited + Reversed(pending))
  {
    ReversedIs(pending);
    var n, before, after := |pending|, visited + pending, visited + Reversed(pending);
    forall i | 0 <= i < |after|
      ensures after[i] == before[if i < |visited| then i else |visited| + n - 1 - (i - |visited|)]
    {}
  }

  lemma AccountedReversed<T(!new)>(named: string -> bool, root: Node<T>, visited: seq<Node<T>>, queued: seq<Node<T>>,
                                   items: seq<Item>, pending: seq<Node<T>>)
    requires Accounted(named, root, visited, queued, items, pending)
    ensures Accounted(named, root, visited, queued, items, Reversed(pending)) && Marked(items)
  {
    hide Distinct, Rooted, Entries, Marked;
    ReversedIs(pending);
    DistinctReversed(visited, pending);
    var before, after := visited + pending, visited + Reversed(pending);
    assert multiset(after) == multiset(before);
    forall q | q in after ensures q in before { assert q in multiset(before); }
  }

  // ---------------------------------------------------------------- in what order

  /** `all` holds the entries `kids`, each before the next. */
  ghost predicate InOrder<T(!new)>(all: seq<Node<T>>, kids: seq<Node<T>>) {
    && (forall a :: 0 <= a < |kids| ==> kids[a] in all)
    && (forall a, b :: 0 <= a < b < |kids| ==> Before(all, kids[a], kids[b]))
  }

  ghost predicate Before<T(!new)>(all: seq<Node<T>>, p: Node<T>, q: Node<T>) {
    exists i, j :: 0 <= i < j < |all| && all[i] == p && all[j] == q
  }

  /** Entries put in the middle leave those around them in order. */
  lemma InOrderStill<T(!new)>(front: seq<Node<T>>, middle: seq<Node<T>>, back: seq<Node<T>>, kids: seq<Node<T>>)
    requires InOrder(front + back, kids)
    ensures InOrder(front + middle + back, kids)
  {
    var all, more := front + back, front + middle + back;
    forall a | 0 <= a < |kids| ensures kids[a] in more {
      var i :| 0 <= i < |all| && all[i] == kids[a];
      assert more[if i < |front| then i else i + |middle|] == kids[a];
    }
    forall a, b | 0 <= a < b < |kids| ensures Before(more, kids[a], kids[b]) {
      assert Before(all, kids[a], kids[b]);
      var i, j :| 0 <= i < j < |all| && all[i] == kids[a] && all[j] == kids[b];
      var i', j' := if i < |front| then i else i + |middle|, if j < |front| then j else j + |middle|;
      assert more[i'] == kids[a] && more[j'] == kids[b];
    }
  }

  lemma InOrderNew<T(!new)>(front: seq<Node<T>>, middle: seq<Node<T>>, back: seq<Node<T>>)
    ensures InOrder(front + middle + back, middle)
  {
    var all := front + middle + back;
    forall a | 0 <= a < |middle| ensures all[|front| + a] == middle[a] {}
    forall a, b | 0 <= a < b < |middle| ensures Before(all, middle[a], middle[b]) {
      assert all[|front| + a] == middle[a] && all[|front| + b] == middle[b];
    }
  }

  /** The entries in the order the walk takes them: those visited, then those on the stack. */
  function Ahead<T>(visited: seq<Node<T>>, pending: seq<Node<T>>): seq<Node<T>> {
    visited + Reversed(pending)
  }

  /** A turn of the loop puts the children right after their parent. */
  lemma AheadStep<T(!new)>(visited: seq<Node<T>>, below: seq<Node<T>>, n: Node<T>, children: seq<Node<T>>)
    ensures Ahead(visited, below + [n]) == visited + [n] + Reversed(below)
    ensures Ahead(visited + [n], below + Reversed(children)) == visited + [n] + children + Reversed(below)
  {
    hide Reversed;
    var r := Reversed(below);
    ReversedAppend(below, [n]);
    ReversedOne(n);
    assert visited + ([n] + r) == visited + [n] + r;
    ReversedAppend(below, Reversed(children));
    ReversedTwice(children);
    assert visited + [n] + (children + r) == visited + [n] + children + r;
  }

  lemma ReversedOne<T(!new)>(n: Node<T>)
    ensures Reversed([n]) == [n]
  {
    assert [n][1..] == [];
  }

  // ---------------------------------------------------------------- what lies below comes next

  /** `p` leads down to `q`. */
  ghost predicate Above(p: Path, q: Path) {
    |p| < |q| && q[..|p|] == p
  }

  /** Depth first: whatever comes between an entry and one below it lies below it too. */
  ghost predicate DepthFirst<T(!new)>(all: seq<Node<T>>) {
    forall i, j, l :: 0 <= i < j < l < |all| && Above(all[i].path, all[l].path) ==> Above(all[i].path, all[j].path)
  }

  /** Nothing that was ever queued lies below an entry that has not been visited. */
  lemma {:induction false} NothingBelow<T(!new)>(named: string -> bool, root: Node<T>, visited: seq<Node<T>>,
                                                 below: seq<Node<T>>, n: Node<T>, q: Node<T>)
    requires Distinct(visited + (below + [n])) && AllRooted(named, root, visited, visited + (below + [n]))
    requires q in visited + (below + [n])
    ensures !Above(n.path, q.path)
    decreases |q.path|
  {
    var all := visited + (below + [n]);
    assert all[|all| - 1] == n && n in all;
    if Above(n.path, q.path) {
      assert Rooted(named, root, visited, q) && |n.path| >= |root.path|;
      var v :| v in visited && ChildOf(named, v, q);
      var k :| 0 <= k < |visited| && visited[k] == v;
      assert all[k] == v && v.path != n.path;
      assert v.path[..|n.path|] == q.path[..|v.path|][..|n.path|] == n.path;
      NothingBelow(named, root, visited, below, n, v);
    }
  }

  /** What lies above a child lies above its parent, or is its parent. */
  lemma AboveChild<T>(named: string -> bool, p: Path, n: Node<T>, kid: Node<T>)
    requires ChildOf(named, n, kid)
    ensures Above(p, kid.path) <==> Above(p, n.path) || p == n.path
  {
    if Above(p, kid.path) { assert n.path[..|p|] == kid.path[..|n.path|][..|p|]; }
    if Above(p, n.path) { assert kid.path[..|p|] == kid.path[..|n.path|][..|p|]; }
  }

  /** A turn of the loop keeps what is visited and what waits depth first. */
  lemma StepDepthFirst<T(!new)>(named: string -> bool, root: Node<T>, visited: seq<Node<T>>, below: seq<Node<T>>,
                                n: Node<T>, children: seq<Node<T>>)
    requires Distinct(visited + (below + [n])) && AllRooted(named, root, visited, visited + (below + [n]))
    requires ChildrenOf(named, n, children) && DepthFirst(Ahead(visited, below + [n]))
    ensures DepthFirst(Ahead(visited + [n], below + Reversed(children)))
  {
    hide ChildOf, Reversed, Rooted;
    var front, back := visited + [n], Reversed(below);
    AheadStep(visited, below, n, children);
    ReversedIs(below);
    forall q: Node<T> | q in front + back ensures !Above(n.path, q.path) && (q in visited ==> q.path != n.path) {
      assert q in visited + (below + [n]) by {
        if q in back { assert q in multiset(below); }
      }
      NothingBelow(named, root, visited, below, n, q);
      if q in visited { SoonerElsewhere(visited, below, n, q); }
    }
    forall p: Path, kid: Node<T> | kid in children ensures Above(p, kid.path) <==> Above(p, n.path) || p == n.path {
      var c :| 0 <= c < |children| && children[c] == kid;
      AboveChild(named, p, n, kid);
    }
    InsertedDepthFirst(visited, n, children, back);
  }

  lemma SoonerElsewhere<T(!new)>(visited: seq<Node<T>>, below: seq<Node<T>>, n: Node<T>, q: Node<T>)
    requires Distinct(visited + (below + [n])) && q in visited
    ensures q.path != n.path
  {
    var all := visited + (below + [n]);
    var k :| 0 <= k < |visited| && visited[k] == q;
    assert all[k] == q && all[|all| - 1] == n;
  }

  /** Children put right after their parent, with nothing below it yet. */
  ghost predicate Inserts<T(!new)>(visited: seq<Node<T>>, n: Node<T>, children: seq<Node<T>>, back: seq<Node<T>>) {
    && DepthFirst(visited + [n] + back)
    && (forall q: Node<T> :: q in visited + [n] + back ==>
          !Above(n.path, q.path) && (q in visited ==> q.path != n.path))
    && (forall p: Path, kid: Node<T> :: kid in children ==> (Above(p, kid.path) <==> Above(p, n.path) || p == n.path))
  }

  lemma InsertedDepthFirst<T(!new)>(visited: seq<Node<T>>, n: Node<T>, children: seq<Node<T>>, back: seq<Node<T>>)
    requires Inserts(visited, n, children, back)
    ensures DepthFirst(visited + [n] + children + back)
  {
    hide Above, Inserts;
    var now, f := visited + [n] + children + back, |visited| + 1;
    forall i, j, l | 0 <= i < j < l < |now| && Above(now[i].path, now[l].path)
      ensures Above(now[i].path, now[j].path)
    {
      if i < f - 1 && l >= f {
        InsertedAfter(visited, n, children, back, i, j, l);
      } else {
        InsertedElsewhere(visited, n, children, back, i, j, l);
      }
    }
  }

  /** Between an entry visited sooner and one at the children or past them. */
  lemma InsertedAfter<T(!new)>(visited: seq<Node<T>>, n: Node<T>, children: seq<Node<T>>, back: seq<Node<T>>,
                               i: nat, j: nat, l: nat)
    requires Inserts(visited, n, children, back) && i < |visited| < l && i < j < l < |visited| + 1 + |children + back|
    requires var now := visited + [n] + children + back; Above(now[i].path, now[l].path)
    ensures var now := visited + [n] + children + back; Above(now[i].path, now[j].path)
  {
    hide Above;
    var was, now, f, m := visited + [n] + back, visited + [n] + children + back, |visited| + 1, |children|;
    assert was[f - 1] == n && now[i] == was[i] == visited[i] && now[i] in visited && now[i] in was;
    if l < f + m {
      assert now[l] == children[l - f];
    } else {
      assert now[l] == was[l - m] && Above(was[i].path, was[f - 1].path);
    }
    assert Above(was[i].path, was[f - 1].path);
    if j < f {
      assert now[j] == was[j];
    } else if j < f + m {
      assert now[j] == children[j - f];
    } else {
      assert now[j] == was[j - m] && now[l] == was[l - m];
    }
  }

  lemma InsertedElsewhere<T(!new)>(visited: seq<Node<T>>, n: Node<T>, children: seq<Node<T>>, back: seq<Node<T>>,
                                   i: nat, j: nat, l: nat)
    requires Inserts(visited, n, children, back) && i < j < l < |visited| + 1 + |children + back|
    requires i >= |visited| || l <= |visited|
    requires var now := visited + [n] + children + back; Above(now[i].path, now[l].path)
    ensures var now := visited + [n] + children + back; Above(now[i].path, now[j].path)
  {
    hide Above;
    var was, now, f, m := visited + [n] + back, visited + [n] + children + back, |visited| + 1, |children|;
    forall k | f <= k < f + m ensures now[k] in children { assert now[k] == children[k - f]; }
    forall k | f + m <= k < |now| ensures now[k] == was[k - m] && now[k] in was {}
    if l < f {
      assert now[i] == was[i] && now[j] == was[j] && now[l] == was[l];
    } else if i < f + m {
      AboveOrder(n.path, now[i].path, now[l].path);
    } else {
      assert now[i] == was[i - m] && now[j] == was[j - m] && now[l] == was[l - m];
    }
  }

  lemma AboveOrder(p: Path, q: Path, r: Path)
    ensures Above(p, q) && Above(q, r) ==> Above(p, r)
    ensures Above(p, q) ==> !Above(q, p) && p != q
  {
    if Above(p, q) && Above(q, r) { assert r[..|p|] == r[..|q|][..|p|]; }
  }

  /** An entry is visited after everything it lies below. */
  lemma {:induction false} AncestorsFirst<T(!new)>(named: string -> bool, root: Node<T>, visited: seq<Node<T>>, i: nat,
                                                   j: nat)
    requires ParentsFirst(named, root, visited) && Distinct(visited)
    requires forall n :: n in visited ==> |n.path| >= |root.path|
    requires i < |visited| && j < |visited| && Above(visited[i].path, visited[j].path)
    ensures i < j
    decreases j
  {
    hide ParentsFirst, Distinct, ChildOf;
    assert visited[i] in visited;
    var m := ParentAt(named, root, visited, j);
    if |visited[i].path| == |visited[m].path| {
      assert visited[i].path == visited[m].path;
      SamePlace(visited, i, m);
    } else {
      assert visited[m].path[..|visited[i].path|] == visited[j].path[..|visited[i].path|];
      AncestorsFirst(named, root, visited, i, m);
    }
  }

  /** Where the entry was visited that led to another. */
  lemma ParentAt<T(!new)>(named: string -> bool, root: Node<T>, visited: seq<Node<T>>, j: nat) returns (m: nat)
    requires ParentsFirst(named, root, visited) && j < |visited| && |visited[j].path| > |root.path|
    ensures m < j && |visited[j].path| == |visited[m].path| + 1
      && visited[j].path[..|visited[m].path|] == visited[m].path
  {
    assert Rooted(named, root, visited[..j], visited[j]);
    var v :| v in visited[..j] && ChildOf(named, v, visited[j]);
    m :| m < j && visited[m] == v;
  }

  lemma SamePlace<T(!new)>(visited: seq<Node<T>>, i: nat, m: nat)
    requires Distinct(visited) && i < |visited| && m < |visited| && visited[i].path == visited[m].path
    ensures i == m
  {
  }

  /** Item indices in an order that puts what lies below an entry before the entry. */
  ghost predicate BelowFirst(items: seq<Item>, order: seq<nat>) {
    && (forall a :: 0 <= a < |order| ==> order[a] < |items|)
    && forall a, b ::
         0 <= a < |order| && 0 <= b < |order| && Above(items[order[a]].path, items[order[b]].path) ==> b < a
  }

  /** Going back through the items of an account meets what lies below an entry first. */
  lemma BackwardsIsBelowFirst<T(!new)>(named: string -> bool, root: Node<T>, visited: seq<Node<T>>,
                                       queued: seq<Node<T>>, items: seq<Item>, waiting: seq<Node<T>>, order: seq<nat>)
    requires Accounted(named, root, visited, queued, items, waiting)
    requires forall a :: 0 <= a < |order| ==> order[a] < |items| && items[order[a]].entry
    requires forall a, b :: 0 <= a < b < |order| ==> order[b] < order[a]
    ensures BelowFirst(items, order)
  {
    forall a, b | 0 <= a < |order| && 0 <= b < |order| && Above(items[order[a]].path, items[order[b]].path)
      ensures b < a
    {
      EntryRank(items, order[a]);
      EntryRank(items, order[b]);
      var i, j := |Entries(items[..order[a]])|, |Entries(items[..order[b]])|;
      VisitedDistinct(named, root, visited, waiting);
      AncestorsFirst(named, root, visited, i, j);
      if order[b] <= order[a] { RankGrows(items, order[b], order[a]); }
    }
  }

  lemma VisitedDistinct<T(!new)>(named: string -> bool, root: Node<T>, visited: seq<Node<T>>, waiting: seq<Node<T>>)
    requires Distinct(visited + waiting) && AllRooted(named, root, visited, visited + waiting)
    ensures Distinct(visited) && forall n :: n in visited ==> |n.path| >= |root.path|
  {
    var all := visited + waiting;
    forall i | 0 <= i < |visited| ensures all[i] == visited[i] {}
    forall n | n in visited ensures |n.path| >= |root.path| { assert n in all; }
  }
}
