/** Importing a directory tree from the host with an explicit stack: every name is visited,
    also those whose check has already failed. */
module TreeImport {
  import opened Common
  import opened TreeReport
  import opened TreeWalk

  /** What the host has under a name: a file, with the identity its hard links share; a
      directory, with its entries by name in order; a symbolic link; or anything else. */
  datatype Host =
    | Plain(id: Option<nat>)
    | Folder(entries: seq<(string, Host)>)
    | Link
    | Special

  /** An entry on the stack, and what its name's check came to. */
  datatype Entry = Entry(host: Host, checked: Option<Trouble>)

  type Node = TreeWalk.Node<Entry>

  /** What the world answers while one entry is handled: a signal; an alias, a bad root name
      or unreadable metadata; whether a file has evidence of earlier verification; what goes
      wrong in the work; whether a directory was there already; what goes wrong listing it,
      a signal included; the key the sink gives each child's name, or why not; and what goes
      wrong afterwards with attributes or times. */
  datatype Answers = Answers(
    cancelled: bool,
    before: Option<Trouble>,
    earlier: bool,
    body: Option<Trouble>,
    existing: bool,
    listing: Option<Trouble>,
    keys: nat -> Result<string, Trouble>,
    after: Option<Trouble>)

  datatype World = World(
    maxDepth: nat,
    links: bool,
    sparse: bool,
    canSparse: bool,
    times: bool,
    answers: nat -> Answers)

  /** What was done with one name in the image. */
  datatype Act = Nothing | Copied | HardLinked(target: Path) | Found | Entered | SymLinked

  /** `acts` holds what was done with each name visited, `linked` where
      the first name of each file in place is, and `times` the items of directories whose times wait
      for the end. */
  datatype State = State(
    visited: seq<Node>,
    queued: seq<Node>,
    acts: seq<Act>,
    linked: map<nat, Path>,
    items: seq<Item>,
    times: seq<nat>,
    merged: nat,
    stopped: bool)

  function Start(root: Node): State {
    State([], [root], [], map[], [], [], 0, false)
  }

  datatype Outcome = Outcome(status: Status, verified: bool, children: seq<Node>, act: Act, links: bool,
                             merges: bool, timed: bool)

  function Only(s: Status): Outcome {
    Outcome(s, false, [], Act.Nothing, false, false, false)
  }

  /** One act, done unless it runs into trouble. */
  function Done(t: Option<Trouble>, act: Act): Outcome {
    Only(Ended(t)).(act := if t.None? then act else Act.Nothing)
  }

  function Ended(t: Option<Trouble>): Status {
    if t.Some? then StatusOf(t.value) else Completed
  }

  /** The children to visit, each with its name's check: a key the sink refuses, or one an
      earlier name already has, is reported when the child's turn comes. */
  function Queue(parent: Node, entries: seq<(string, Host)>, keys: nat -> Result<string, Trouble>)
    : (seq<Node>, set<string>)
  {
    if entries == [] then ([], {})
    else
      var n := |entries| - 1;
      var (queued, names) := Queue(parent, entries[..n], keys);
      var (checked, names') := Check(keys(n), names);
      (queued + [TreeWalk.Node(parent.path + [entries[n].0], parent.depth + 1, Entry(entries[n].1, checked))], names')
  }

  function Check(key: Result<string, Trouble>, names: set<string>): (Option<Trouble>, set<string>) {
    if key.Err? then (Some(key.error), names)
    else if key.value in names then (Some(Unsupported), names)
    else (None, names + {key.value})
  }

  function HandleFile(w: World, s: State, id: Option<nat>, a: Answers): Outcome {
    if w.sparse && !w.canSparse then Only(Refused)
    else if w.links && id.Some? && id.value in s.linked then Done(a.body, HardLinked(s.linked[id.value]))
    else if a.earlier then Only(Skipped).(verified := true, act := Found, links := w.links)
    else if a.body.Some? then Only(StatusOf(a.body.value))
    else Only(Ended(a.after)).(act := Copied, links := w.links)
  }

  function HandleFolder(w: World, n: Node, entries: seq<(string, Host)>, a: Answers): Outcome {
    if a.body.Some? then Only(StatusOf(a.body.value))
    else
      var entered := Only(Completed).(act := Entered, merges := a.existing, timed := w.times);
      if a.listing.Some? then entered.(status := StatusOf(a.listing.value))
      else entered.(status := Ended(a.after), children := Queue(n, entries, a.keys).0)
  }

  /** A link is there once it is made, whatever then comes of its attributes or times. */
  function HandleLink(w: World, a: Answers): Outcome {
    if !w.links then Only(Refused)
    else if a.body.Some? then Only(StatusOf(a.body.value))
    else Only(Ended(a.after)).(act := SymLinked)
  }

  function Handle(w: World, s: State, n: Node): Outcome {
    var a := w.answers(|s.visited|);
    if a.cancelled then Only(Cancelled)
    else if n.what.checked.Some? then Only(StatusOf(n.what.checked.value))
    else if n.depth > w.maxDepth then Only(Failed)
    else if a.before.Some? then Only(StatusOf(a.before.value))
    else match n.what.host
      case Link => HandleLink(w, a)
      case Plain(id) => HandleFile(w, s, id, a)
      case Folder(entries) => HandleFolder(w, n, entries, a)
      case Special => Only(Refused)
  }

  /** A file with an identity, which its other names share. */
  predicate Shared(h: Host) {
    h.Plain? && h.id.Some?
  }

  function Noted(linked: map<nat, Path>, n: Node): map<nat, Path> {
    if Shared(n.what.host) then linked[n.what.host.id.value := n.path] else linked
  }

  function Record(s: State, n: Node, o: Outcome): State {
    State(s.visited + [n],
          s.queued + o.children,
          s.acts + [o.act],
          if o.links then Noted(s.linked, n) else s.linked,
          s.items + [Item(n.path, o.status, true, o.verified)],
          if o.timed then s.times + [|s.items|] else s.times,
          if o.merges then s.merged + 1 else s.merged,
          o.status.Cancelled?)
  }

  function Visit(w: World, s: State, n: Node): (State, seq<Node>) {
    var o := Handle(w, s, n);
    (Record(s, n, o), o.children)
  }

  // ---------------------------------------------------------------- the walk

  /** How many names lie below. */
  function Below(h: Host): nat
    decreases h, 2
  {
    if h.Folder? then BelowUpto(h, |h.entries|) else 0
  }

  /** The first `k` names of a directory, and what lies below them. */
  function BelowUpto(h: Host, k: nat): nat
    requires h.Folder? && k <= |h.entries|
    decreases h, 1, k
  {
    if k == 0 then 0 else 1 + Below(h.entries[k - 1].1) + BelowUpto(h, k - 1)
  }

  /** The walk of a finite tree: it ends because every directory holds less than it weighs. */
  function Rules(w: World): TreeWalk.Rules<State, Entry> {
    TreeWalk.Rules((s, n) => Visit(w, s, n), (s: State) => s.stopped, s => 0, (n: Node) => Below(n.what.host))
  }

  lemma {:induction false} QueueWeighs(w: World, parent: Node, h: Host, keys: nat -> Result<string, Trouble>, k: nat)
    requires h.Folder? && k <= |h.entries|
    ensures Total(Rules(w), Queue(parent, h.entries[..k], keys).0) == BelowUpto(h, k)
  {
    if k == 0 {
    } else {
      QueueWeighs(w, parent, h, keys, k - 1);
      assert h.entries[..k][..k - 1] == h.entries[..k - 1];
      var queued := Queue(parent, h.entries[..k - 1], keys).0;
      var checked := Check(keys(k - 1), Queue(parent, h.entries[..k - 1], keys).1).0;
      var last := TreeWalk.Node(parent.path + [h.entries[k - 1].0], parent.depth + 1,
        Entry(h.entries[k - 1].1, checked));
      assert Queue(parent, h.entries[..k], keys).0 == queued + [last];
      TotalAppend(Rules(w), queued, [last]);
      assert [last][1..] == [];
      assert Total(Rules(w), [last]) == 1 + Below(h.entries[k - 1].1);
    }
  }

  lemma WalkDescends(w: World)
    ensures Descends(Rules(w))
  {
    forall s, n
      ensures var (s', children) := Rules(w).visit(s, n);
        || Rules(w).rank(s') < Rules(w).rank(s)
        || (Rules(w).rank(s') == Rules(w).rank(s) && Total(Rules(w), children) <= Rules(w).weight(n))
    {
      FolderWeighs(w, s, n);
    }
  }

  lemma FolderWeighs(w: World, s: State, n: Node)
    ensures Total(Rules(w), Handle(w, s, n).children) <= Below(n.what.host)
  {
    if n.what.host.Folder? {
      var h := n.what.host;
      QueueWeighs(w, n, h, w.answers(|s.visited|).keys, |h.entries|);
      assert h.entries[..|h.entries|] == h.entries;
    }
  }

  // ---------------------------------------------------------------- what every turn keeps

  /** A directory holds each name once. */
  ghost predicate OneEach(h: Host) {
    h.Folder? ==>
      && (forall i, j :: 0 <= i < j < |h.entries| ==> h.entries[i].0 != h.entries[j].0)
      && forall i :: 0 <= i < |h.entries| ==> OneEach(h.entries[i].1)
  }

  predicate AnyName(name: string) {
    true
  }

  lemma {:induction false} QueueMeans(parent: Node, entries: seq<(string, Host)>, keys: nat -> Result<string, Trouble>)
    ensures var queued := Queue(parent, entries, keys).0;
      && |queued| == |entries|
      && forall i :: 0 <= i < |queued| ==>
           && ChildOf(AnyName, parent, queued[i])
           && LastName(queued[i]) == entries[i].0 && queued[i].what.host == entries[i].1
  {
    if entries == [] {
    } else {
      QueueMeans(parent, entries[..|entries| - 1], keys);
    }
  }

  /** What the check of the `k`-th name of a directory comes to. */
  ghost function CheckOf(keys: nat -> Result<string, Trouble>, k: nat): Option<Trouble> {
    if keys(k).Err? then Some(keys(k).error)
    else if exists i: nat :: i < k && keys(i) == keys(k) then Some(Unsupported)
    else None
  }

  /** Each name a directory holds is queued in its place, one level down: it goes ahead if the
      sink has a key for it that no earlier name of the directory took, and else is to fail
      as the sink said, or to be refused. */
  lemma {:induction false} FirstKeyWins(parent: Node, entries: seq<(string, Host)>,
                                        keys: nat -> Result<string, Trouble>, k: nat)
    requires k < |entries|
    ensures |Queue(parent, entries, keys).0| == |entries|
    ensures var (name, host) := entries[k];
      Queue(parent, entries, keys).0[k] ==
        TreeWalk.Node(parent.path + [name], parent.depth + 1, Entry(host, CheckOf(keys, k)))
  {
    var n := |entries| - 1;
    QueueMeans(parent, entries[..n], keys);
    QueueMore(parent, entries, keys);
    hide Queue;
    if k < n {
      FirstKeyWins(parent, entries[..n], keys, k);
    } else {
      NamesTaken(parent, entries[..n], keys);
    }
  }

  /** The last name is queued after the others, with its check. */
  lemma QueueMore(parent: Node, entries: seq<(string, Host)>, keys: nat -> Result<string, Trouble>)
    requires entries != []
    ensures var n := |entries| - 1;
      var (queued, names) := Queue(parent, entries[..n], keys);
      var r := Queue(parent, entries, keys).0;
      && |r| == |queued| + 1 && r[..|queued|] == queued
      && r[|queued|] ==
         TreeWalk.Node(parent.path + [entries[n].0], parent.depth + 1, Entry(entries[n].1, Check(keys(n), names).0))
  {
  }

  lemma {:induction false} NamesTaken(parent: Node, entries: seq<(string, Host)>, keys: nat -> Result<string, Trouble>)
    ensures forall key :: key in Queue(parent, entries, keys).1 <==>
      exists i: nat :: i < |entries| && keys(i) == Ok(key)
  {
    if entries == [] {
    } else {
      var n := |entries| - 1;
      NamesTaken(parent, entries[..n], keys);
      var before, after := Queue(parent, entries[..n], keys).1, Queue(parent, entries, keys).1;
      assert after == if keys(n).Ok? then before + {keys(n).value} else before;
      forall key | exists i: nat :: i < |entries| && keys(i) == Ok(key) ensures key in after {
        var i: nat :| i < |entries| && keys(i) == Ok(key);
        assert i < n ==> key in before;
      }
    }
  }

  ghost predicate AllOneEach(ns: seq<Node>) {
    forall n :: n in ns ==> OneEach(n.what.host)
  }

  lemma QueuedChildren(n: Node, keys: nat -> Result<string, Trouble>)
    requires n.what.host.Folder? && OneEach(n.what.host)
    ensures var queued := Queue(n, n.what.host.entries, keys).0; ChildrenOf(AnyName, n, queued) && AllOneEach(queued)
    ensures ChildrenOf(AnyName, n, []) && AllOneEach([])
  {
    QueueMeans(n, n.what.host.entries, keys);
    hide Queue, ChildOf;
  }

  lemma OutcomeMeans(w: World, s: State, n: Node)
    requires OneEach(n.what.host)
    ensures var o := Handle(w, s, n);
      ChildrenOf(AnyName, n, o.children) && AllOneEach(o.children) && (o.verified ==> o.status.Skipped?)
  {
    hide Queue, OneEach, ChildOf;
    if n.what.host.Folder? {
      QueuedChildren(n, w.answers(|s.visited|).keys);
    }
  }

  /** Everything queued is accounted for, and waits in directories that hold each name once. */
  ghost predicate AllAccounted(root: Node, s: State, waiting: seq<Node>) {
    Accounted(AnyName, root, s.visited, s.queued, s.items, waiting) && AllOneEach(waiting)
  }

  lemma StepKeeps(w: World, root: Node, s: State, below: seq<Node>, n: Node)
    requires AllAccounted(root, s, below + [n])
    ensures var (s', children) := Visit(w, s, n); AllAccounted(root, s', below + Reversed(children))
  {
    hide Handle, Accounted, ChildrenOf, OneEach;
    var o := Handle(w, s, n);
    assert n in below + [n];
    OutcomeMeans(w, s, n);
    StepAccounted(AnyName, root, s.visited, s.queued, s.items, below, n, o.children, [],
      Item(n.path, o.status, true, o.verified));
    assert s.items + [] == s.items;
    ReversedIs(o.children);
    forall q | q in below + Reversed(o.children) ensures OneEach(q.what.host) {
      if q in Reversed(o.children) { assert q in multiset(o.children); } else { assert q in below + [n]; }
    }
  }

  // ---------------------------------------------------------------- what each name came to

  /** The `k`-th name visited was handled at all: no signal first, its check passed, within
      the depth bound, nothing in the way of looking at it. */
  ghost predicate Reached(w: World, v: seq<Node>, k: nat)
    requires k < |v|
  {
    !w.answers(k).cancelled && v[k].what.checked.None? && v[k].depth <= w.maxDepth && w.answers(k).before.None?
  }

  /** Sparse files cannot go where the sink has no holes. */
  ghost predicate Holdable(w: World) {
    !w.sparse || w.canSparse
  }

  /** A file that is in place after its turn: found there, copied, or linked. */
  ghost predicate InPlace(w: World, v: seq<Node>, k: nat)
    requires k < |v|
  {
    Reached(w, v, k) && v[k].what.host.Plain? && Holdable(w) && (w.answers(k).earlier || w.answers(k).body.None?)
  }

  /** An earlier name of the same file is in place. */
  ghost predicate InPlaceBefore(w: World, v: seq<Node>, k: nat)
    requires k < |v|
  {
    Shared(v[k].what.host) && exists j: nat :: j < k && InPlace(w, v, j) && v[j].what.host == v[k].what.host
  }

  ghost predicate LinkedBefore(w: World, v: seq<Node>, k: nat)
    requires k < |v|
  {
    w.links && InPlaceBefore(w, v, k)
  }

  /** The `j`-th name is the first in place of the file with that identity. */
  ghost predicate Anchor(w: World, v: seq<Node>, id: nat, j: nat) {
    j < |v| && InPlace(w, v, j) && v[j].what.host == Plain(Some(id)) && !InPlaceBefore(w, v, j)
  }

  ghost predicate AnchoredAt(w: World, v: seq<Node>, h: Host, target: Path) {
    Shared(h) && exists j: nat :: Anchor(w, v, h.id.value, j) && target == v[j].path
  }

  /** The work came to this: its own trouble if it had one, else what came afterwards. */
  predicate TroubledAs(a: Answers, t: Trouble) {
    a.body == Some(t) || (a.body.None? && a.after == Some(t))
  }

  predicate ListedAs(a: Answers, t: Trouble) {
    a.body == Some(t) || (a.body.None? && (a.listing == Some(t) || (a.listing.None? && a.after == Some(t))))
  }

  ghost predicate FileMeans(w: World, v: seq<Node>, k: nat, i: Item, act: Act)
    requires k < |v|
  {
    var a, linked := w.answers(k), LinkedBefore(w, v, k);
    && (i.status.Completed? <==> Holdable(w) && a.body.None? && (linked || (!a.earlier && a.after.None?)))
    && (i.status.Skipped? <==> Holdable(w) && !linked && a.earlier) && (i.verified <==> i.status.Skipped?)
    && (i.status.Refused? <==>
          || !Holdable(w)
          || (linked && a.body == Some(Unsupported))
          || (!linked && !a.earlier && TroubledAs(a, Unsupported)))
    && (i.status.Cancelled? <==>
          Holdable(w) && ((linked && a.body == Some(Signal)) || (!linked && !a.earlier && TroubledAs(a, Signal))))
    && (act.HardLinked? <==> Holdable(w) && linked && a.body.None?)
    && (act.HardLinked? ==> AnchoredAt(w, v[..k], v[k].what.host, act.target))
    && (act.Found? <==> Holdable(w) && !linked && a.earlier)
    && (act.Copied? <==> Holdable(w) && !linked && !a.earlier && a.body.None?)
    && !act.Entered? && !act.SymLinked?
  }

  ghost predicate FolderMeans(w: World, k: nat, i: Item, act: Act) {
    var a := w.answers(k);
    && (i.status.Completed? <==> a.body.None? && a.listing.None? && a.after.None?)
    && !i.status.Skipped? && !i.verified
    && (i.status.Refused? <==> ListedAs(a, Unsupported)) && (i.status.Cancelled? <==> ListedAs(a, Signal))
    && act == if a.body.None? then Entered else Act.Nothing
  }

  ghost predicate LinkMeans(w: World, k: nat, i: Item, act: Act) {
    var a := w.answers(k);
    && (i.status.Completed? <==> w.links && a.body.None? && a.after.None?)
    && !i.status.Skipped? && !i.verified
    && (i.status.Refused? <==> !w.links || TroubledAs(a, Unsupported))
    && (i.status.Cancelled? <==> w.links && TroubledAs(a, Signal))
    && act == if w.links && a.body.None? then SymLinked else Act.Nothing
  }

  /** What the `k`-th name came to, from what the world answered to it and to those before:
      when it completed, when it was refused, skipped or cancelled, and what was done with it. */
  ghost predicate EntryMeans(w: World, v: seq<Node>, k: nat, i: Item, act: Act)
    requires k < |v|
  {
    if !Reached(w, v, k) then
      && act == Act.Nothing && !i.verified
      && i.status == if w.answers(k).cancelled then Cancelled
                     else if v[k].what.checked.Some? then StatusOf(v[k].what.checked.value)
                     else if v[k].depth > w.maxDepth then Failed
                     else StatusOf(w.answers(k).before.value)
    else match v[k].what.host
      case Plain(_) => FileMeans(w, v, k, i, act)
      case Folder(_) => FolderMeans(w, k, i, act)
      case Link => LinkMeans(w, k, i, act)
      case Special => i.status.Refused? && !i.verified && act == Act.Nothing
  }

  /** With links kept, where the first name in place of each file is. */
  ghost predicate LinkedAre(w: World, v: seq<Node>, linked: map<nat, Path>) {
    w.links ==>
      && (forall id :: id in linked ==> AnchoredAt(w, v, Plain(Some(id)), linked[id]))
      && (forall j: nat :: j < |v| && InPlace(w, v, j) && Shared(v[j].what.host) ==> v[j].what.host.id.value in linked)
  }

  ghost predicate RunMeans(w: World, s: State) {
    && |s.acts| == |Entries(s.items)| == |s.visited|
    && (forall k: nat :: k < |s.visited| ==> EntryMeans(w, s.visited, k, Entries(s.items)[k], s.acts[k]))
    && LinkedAre(w, s.visited, s.linked) && Stops(Entries(s.items), s.stopped)
  }

  /** What a name came to does not change as more are visited. */
  lemma MeansStays(w: World, v: seq<Node>, n: Node, k: nat)
    requires k < |v|
    ensures Reached(w, v + [n], k) == Reached(w, v, k) && InPlace(w, v + [n], k) == InPlace(w, v, k)
    ensures InPlaceBefore(w, v + [n], k) == InPlaceBefore(w, v, k)
  {
    if InPlaceBefore(w, v, k) {
      var j: nat :| j < k && InPlace(w, v, j) && v[j].what.host == v[k].what.host;
      assert InPlace(w, v + [n], j);
    }
    if InPlaceBefore(w, v + [n], k) {
      var j: nat :| j < k && InPlace(w, v + [n], j) && (v + [n])[j].what.host == (v + [n])[k].what.host;
      assert InPlace(w, v, j);
    }
  }

  lemma EntryStays(w: World, v: seq<Node>, n: Node, k: nat, i: Item, act: Act)
    requires k < |v|
    ensures EntryMeans(w, v + [n], k, i, act) == EntryMeans(w, v, k, i, act)
  {
    hide Reached, InPlace, InPlaceBefore, AnchoredAt;
    MeansStays(w, v, n, k);
    assert (v + [n])[..k] == v[..k];
  }

  /** Whether the next name is linked, and to what, is what the map says. */
  lemma LinkedIs(w: World, v: seq<Node>, linked: map<nat, Path>, n: Node)
    requires LinkedAre(w, v, linked)
    ensures LinkedBefore(w, v + [n], |v|) <==> w.links && Shared(n.what.host) && n.what.host.id.value in linked
    ensures w.links && Shared(n.what.host) && n.what.host.id.value in linked ==>
      AnchoredAt(w, v, n.what.host, linked[n.what.host.id.value])
  {
    hide InPlace;
    var v', h := v + [n], n.what.host;
    assert v'[|v|] == n;
    forall j: nat | j < |v| ensures v'[j] == v[j] && InPlace(w, v', j) == InPlace(w, v, j) { MeansStays(w, v, n, j); }
    if w.links && Shared(h) && h.id.value in linked {
      assert h == Plain(Some(h.id.value));
      var j: nat :| Anchor(w, v, h.id.value, j);
      assert InPlace(w, v', j);
    }
  }

  /** Handling the next name makes of it what it means. */
  lemma HandleMeans(w: World, s: State, n: Node)
    requires RunMeans(w, s)
    ensures var o, v, k := Handle(w, s, n), s.visited + [n], |s.visited|;
      && EntryMeans(w, v, k, Item(n.path, o.status, true, o.verified), o.act)
      && (o.links ==> InPlace(w, v, k) && !InPlaceBefore(w, v, k))
      && (w.links && InPlace(w, v, k) && Shared(n.what.host) ==> o.links || n.what.host.id.value in s.linked)
  {
    hide Queue, InPlaceBefore, AnchoredAt, RunMeans, HandleFile, FileMeans, HandleFolder, FolderMeans;
    var v, k := s.visited + [n], |s.visited|;
    LinkedOf(w, s);
    LinkedIs(w, s.visited, s.linked, n);
    assert v[k] == n && v[..k] == s.visited;
    var a, host := w.answers(k), n.what.host;
    match host {
      case Plain(id) => FileIs(w, s, v, id, a);
      case Folder(entries) => FolderIs(w, n, entries, a, k);
      case _ =>
    }
  }

  lemma FileIs(w: World, s: State, v: seq<Node>, id: Option<nat>, a: Answers)
    requires |v| == |s.visited| + 1 && a == w.answers(|s.visited|)
    requires v[|s.visited|].what.host == Plain(id) && v[..|s.visited|] == s.visited
    requires LinkedBefore(w, v, |s.visited|) <==> w.links && id.Some? && id.value in s.linked
    requires w.links && id.Some? && id.value in s.linked ==> AnchoredAt(w, s.visited, Plain(id), s.linked[id.value])
    ensures var o := HandleFile(w, s, id, a);
      && FileMeans(w, v, |s.visited|, Item(v[|s.visited|].path, o.status, true, o.verified), o.act)
      && (o.links ==> w.links && Holdable(w) && (a.earlier || a.body.None?) && !LinkedBefore(w, v, |s.visited|))
      && (w.links && Holdable(w) && (a.earlier || a.body.None?) ==> o.links || (id.Some? && id.value in s.linked))
  {
    hide InPlaceBefore, AnchoredAt;
  }

  lemma FolderIs(w: World, n: Node, entries: seq<(string, Host)>, a: Answers, k: nat)
    requires a == w.answers(k)
    ensures var o := HandleFolder(w, n, entries, a);
      FolderMeans(w, k, Item(n.path, o.status, true, o.verified), o.act) && !o.links
  {
    hide Queue;
  }

  lemma LinkedOf(w: World, s: State)
    requires RunMeans(w, s)
    ensures LinkedAre(w, s.visited, s.linked)
  {
  }

  lemma AnchorStays(w: World, v: seq<Node>, n: Node, h: Host, target: Path)
    requires AnchoredAt(w, v, h, target)
    ensures AnchoredAt(w, v + [n], h, target)
  {
    var j: nat :| Anchor(w, v, h.id.value, j) && target == v[j].path;
    MeansStays(w, v, n, j);
    assert Anchor(w, v + [n], h.id.value, j);
  }

  lemma NewAnchor(w: World, v: seq<Node>, k: nat)
    requires k < |v| && InPlace(w, v, k) && !InPlaceBefore(w, v, k) && Shared(v[k].what.host)
    ensures AnchoredAt(w, v, v[k].what.host, v[k].path)
  {
    assert Anchor(w, v, v[k].what.host.id.value, k);
  }

  lemma LinkedStep(w: World, v: seq<Node>, linked: map<nat, Path>, n: Node, links: bool)
    requires LinkedAre(w, v, linked)
    requires links ==> InPlace(w, v + [n], |v|) && !InPlaceBefore(w, v + [n], |v|)
    requires w.links && InPlace(w, v + [n], |v|) && Shared(n.what.host) ==> links || n.what.host.id.value in linked
    ensures LinkedAre(w, v + [n], if links then Noted(linked, n) else linked)
  {
    hide InPlace, AnchoredAt, InPlaceBefore;
    var v' := v + [n];
    forall j: nat | j < |v| ensures v'[j] == v[j] && InPlace(w, v', j) == InPlace(w, v, j) { MeansStays(w, v, n, j); }
    assert v'[|v|] == n;
    if w.links {
      forall id | id in linked ensures AnchoredAt(w, v', Plain(Some(id)), linked[id]) {
        AnchorStays(w, v, n, Plain(Some(id)), linked[id]);
      }
    }
    if links && Shared(n.what.host) {
      NewAnchor(w, v', |v|);
    }
  }

  lemma StepMeans(w: World, s: State, n: Node)
    requires RunMeans(w, s) && !s.stopped
    ensures RunMeans(w, Visit(w, s, n).0)
  {
    hide Handle, EntryMeans, InPlace, InPlaceBefore, LinkedAre, Noted, Stops, Entries;
    var o := Handle(w, s, n);
    var v, s', item := s.visited, Record(s, n, o), Item(n.path, o.status, true, o.verified);
    HandleMeans(w, s, n);
    StopsStep(Entries(s.items), item);
    assert Entries(s'.items) == Entries(s.items) + [item] by {
      EntriesAppend(s.items, [], item);
      assert s.items + [] == s.items;
    }
    LinkedStep(w, v, s.linked, n, o.links);
    forall k: nat | k < |s'.visited| ensures EntryMeans(w, s'.visited, k, Entries(s'.items)[k], s'.acts[k]) {
      if k < |v| { EntryStays(w, v, n, k, Entries(s.items)[k], s.acts[k]); }
    }
  }

  // ---------------------------------------------------------------- what each name led to

  /** The `k`-th name visited was a directory that was entered. */
  ghost predicate Goes(w: World, v: seq<Node>, k: nat)
    requires k < |v|
  {
    Reached(w, v, k) && v[k].what.host.Folder? && w.answers(k).body.None?
  }

  /** What the names queued were: all that the directory holds, if it could be listed. */
  ghost function Kids(w: World, v: seq<Node>, k: nat): seq<Node>
    requires k < |v|
  {
    if Goes(w, v, k) && w.answers(k).listing.None? then Queue(v[k], v[k].what.host.entries, w.answers(k).keys).0
    else []
  }

  ghost predicate Merges(w: World, v: seq<Node>, k: nat)
    requires k < |v|
  {
    Goes(w, v, k) && w.answers(k).existing
  }

  ghost function KidsUpto(w: World, v: seq<Node>, k: nat): seq<Node>
    requires k <= |v|
  {
    if k == 0 then [] else KidsUpto(w, v, k - 1) + Kids(w, v, k - 1)
  }

  ghost function MergedUpto(w: World, v: seq<Node>, k: nat): nat
    requires k <= |v|
  {
    if k == 0 then 0 else MergedUpto(w, v, k - 1) + if Merges(w, v, k - 1) then 1 else 0
  }

  /** The names visited were reported one by one. */
  ghost predicate Reported(s: State) {
    s.items == Entries(s.items) && |s.items| == |s.visited|
  }

  /** Queued were the root and the names that each directory visited led to; merged were the
      directories that were there. */
  ghost predicate Queues(w: World, root: Node, s: State) {
    var v := s.visited;
    s.queued == [root] + KidsUpto(w, v, |v|) && s.merged == MergedUpto(w, v, |v|)
  }

  /** Every name queued was visited or waits. */
  ghost predicate NoneLost(s: State, pending: seq<Node>) {
    multiset(s.queued) == multiset(s.visited + pending)
  }

  /** The names that each directory led to come in listing order. */
  ghost predicate InTurn(w: World, v: seq<Node>, pending: seq<Node>) {
    forall k: nat :: k < |v| ==> InOrder(Ahead(v, pending), Kids(w, v, k))
  }

  ghost predicate LeadsOn(w: World, root: Node, s: State, pending: seq<Node>) {
    Reported(s) && Queues(w, root, s) && NoneLost(s, pending) && InTurn(w, s.visited, pending)
  }

  ghost predicate Waits(w: World, s: State, i: nat) {
    w.times && i < |s.visited| && Goes(w, s.visited, i)
  }

  /** The items whose times wait for the end are those of the directories entered, in the
      order visited. */
  ghost predicate TimesMean(w: World, s: State) {
    Increasing(s.times) && forall i: nat :: i in s.times <==> Waits(w, s, i)
  }

  lemma KidsStay(w: World, v: seq<Node>, n: Node, k: nat)
    requires k < |v|
    ensures Goes(w, v + [n], k) == Goes(w, v, k) && Kids(w, v + [n], k) == Kids(w, v, k)
    ensures Merges(w, v + [n], k) == Merges(w, v, k)
  {
    hide Queue;
  }

  lemma {:induction false} UptoStays(w: World, v: seq<Node>, n: Node, k: nat)
    requires k <= |v|
    ensures KidsUpto(w, v + [n], k) == KidsUpto(w, v, k) && MergedUpto(w, v + [n], k) == MergedUpto(w, v, k)
  {
    hide Kids, Merges;
    if k == 0 {
    } else {
      UptoStays(w, v, n, k - 1);
      KidsStay(w, v, n, k - 1);
    }
  }

  /** Handling the next name leads to just those. */
  lemma HandleLeads(w: World, s: State, n: Node)
    ensures var o, v, k := Handle(w, s, n), s.visited + [n], |s.visited|;
      && o.children == Kids(w, v, k) && (o.merges <==> Merges(w, v, k)) && (o.timed <==> w.times && Goes(w, v, k))
  {
    hide Queue;
    assert (s.visited + [n])[|s.visited|] == n;
    KindsMean(w, s, n, w.answers(|s.visited|));
    hide HandleFile;
  }

  lemma StepLeads(w: World, root: Node, s: State, below: seq<Node>, n: Node)
    requires LeadsOn(w, root, s, below + [n])
    ensures var (s', children) := Visit(w, s, n); LeadsOn(w, root, s', below + Reversed(children))
  {
    hide Handle, Kids, Merges, Goes, Queues, NoneLost, InTurn, Reported, Reversed, Noted;
    var o := Handle(w, s, n);
    HandleLeads(w, s, n);
    StepReported(s, n, o);
    StepQueues(w, root, s, n, o);
    StepNoneLost(s, below, n, o);
    StepInTurn(w, s.visited, below, n, o.children);
  }

  lemma StepReported(s: State, n: Node, o: Outcome)
    requires Reported(s)
    ensures Reported(Record(s, n, o))
  {
    EntriesAppend(s.items, [], Item(n.path, o.status, true, o.verified));
    assert s.items + [] == s.items;
  }

  lemma StepQueues(w: World, root: Node, s: State, n: Node, o: Outcome)
    requires Queues(w, root, s) && o.children == Kids(w, s.visited + [n], |s.visited|)
    requires o.merges <==> Merges(w, s.visited + [n], |s.visited|)
    ensures Queues(w, root, Record(s, n, o))
  {
    hide Kids, Merges, Noted;
    var v := s.visited;
    UptoStays(w, v, n, |v|);
    assert [root] + KidsUpto(w, v, |v|) + o.children == [root] + (KidsUpto(w, v, |v|) + o.children);
  }

  lemma StepNoneLost(s: State, below: seq<Node>, n: Node, o: Outcome)
    requires NoneLost(s, below + [n])
    ensures NoneLost(Record(s, n, o), below + Reversed(o.children))
  {
    hide Reversed, Noted;
    StepQueued(s.visited, s.queued, below, n, o.children);
  }

  lemma StepInTurn(w: World, v: seq<Node>, below: seq<Node>, n: Node, children: seq<Node>)
    requires InTurn(w, v, below + [n]) && children == Kids(w, v + [n], |v|)
    ensures InTurn(w, v + [n], below + Reversed(children))
  {
    hide Kids, InOrder, Ahead, Reversed;
    AheadStep(v, below, n, children);
    forall k: nat | k < |v| + 1 ensures InOrder(Ahead(v + [n], below + Reversed(children)), Kids(w, v + [n], k)) {
      if k < |v| {
        KidsStay(w, v, n, k);
        InOrderStill(v + [n], children, Reversed(below), Kids(w, v, k));
      } else {
        InOrderNew(v + [n], children, Reversed(below));
      }
    }
  }

  lemma StepTimes(w: World, s: State, n: Node)
    requires TimesMean(w, s) && |s.items| == |s.visited|
    ensures TimesMean(w, Visit(w, s, n).0)
  {
    hide Increasing, Handle, Goes;
    var s' := Visit(w, s, n).0;
    HandleLeads(w, s, n);
    forall i: nat | i < |s.visited| ensures Goes(w, s'.visited, i) == Goes(w, s.visited, i) {
      KidsStay(w, s.visited, n, i);
    }
    TimesBelow(w, s);
    IncreasingMore(s.times, |s.items|);
  }

  lemma TimesBelow(w: World, s: State)
    requires TimesMean(w, s)
    ensures forall k :: 0 <= k < |s.times| ==> s.times[k] < |s.visited|
  {
    forall k | 0 <= k < |s.times| ensures s.times[k] < |s.visited| {
      assert s.times[k] in s.times;
    }
  }

  // ---------------------------------------------------------------- whole walks

  /** What every turn keeps of the walk from `root`. */
  ghost predicate Good(w: World, root: Node, s: State, pending: seq<Node>) {
    RunMeans(w, s) && TimesMean(w, s) && LeadsOn(w, root, s, pending)
  }

  lemma StepGood(w: World, root: Node, s: State, pending: seq<Node>)
    requires Good(w, root, s, pending) && pending != [] && !s.stopped
    ensures var n, below := pending[|pending| - 1], pending[..|pending| - 1];
      var (s', children) := Visit(w, s, n); Good(w, root, s', below + Reversed(children))
  {
    hide RunMeans, TimesMean, KidsUpto, MergedUpto, Kids, InOrder, Ahead, Handle, Record, Reversed, Entries;
    var n, below := pending[|pending| - 1], pending[..|pending| - 1];
    assert pending == below + [n];
    StepMeans(w, s, n);
    StepTimes(w, s, n);
    StepLeads(w, root, s, below, n);
  }

  lemma StartGood(w: World, root: Node)
    ensures Good(w, root, Start(root), [root])
  {
  }

  /** Wherever a walk ends, every name it visited came to what it means and led to what it
      leads to. */
  lemma WalkMeans(w: World, root: Node)
    ensures Descends(Rules(w))
    ensures var e := Walk(Rules(w), Start(root), root); Good(w, root, e.state, Reversed(e.left))
  {
    hide Good, Descends, Walk, Visit;
    WalkDescends(w);
    var holds := (s, pending) => Good(w, root, s, pending);
    forall s, pending | holds(s, pending) && pending != [] && !Rules(w).stopped(s)
      ensures var n, below := pending[|pending| - 1], pending[..|pending| - 1];
        holds(Rules(w).visit(s, n).0, below + Reversed(Rules(w).visit(s, n).1))
    {
      StepGood(w, root, s, pending);
    }
    StartGood(w, root);
    OneWalks(Rules(w), Start(root), root);
    WalkKeeps(Rules(w), holds, Start(root), [root]);
  }

  lemma StepFirst(w: World, root: Node, s: State, below: seq<Node>, n: Node)
    requires AllAccounted(root, s, below + [n]) && DepthFirst(Ahead(s.visited, below + [n]))
    ensures var (s', children) := Visit(w, s, n); DepthFirst(Ahead(s'.visited, below + Reversed(children)))
  {
    hide Handle, Distinct, AllRooted, ChildrenOf, DepthFirst, ParentsFirst, Ahead, Entries, Reversed, OneEach;
    assert n in below + [n];
    OutcomeMeans(w, s, n);
    StepDepthFirst(AnyName, root, s.visited, below, n, Handle(w, s, n).children);
  }

  /** In a tree whose directories hold each name once, every name queued was visited or is
      left, once, under a path of its own; and the walk goes depth first: what lies below a
      name comes right after it, with nothing else in between. */
  lemma WalkAccounts(w: World, root: Node)
    requires OneEach(root.what.host)
    ensures Descends(Rules(w))
    ensures var e := Walk(Rules(w), Start(root), root);
      AllAccounted(root, e.state, Reversed(e.left)) && DepthFirst(e.state.visited + e.left)
  {
    hide AllAccounted, DepthFirst, Ahead, Descends, Walk, Visit, Reversed;
    WalkDescends(w);
    var holds := (s, pending) => AllAccounted(root, s, pending) && DepthFirst(Ahead(s.visited, pending));
    forall s, pending | holds(s, pending) && pending != [] && !Rules(w).stopped(s)
      ensures var n, below := pending[|pending| - 1], pending[..|pending| - 1];
        holds(Rules(w).visit(s, n).0, below + Reversed(Rules(w).visit(s, n).1))
    {
      assert pending == pending[..|pending| - 1] + [pending[|pending| - 1]];
      StepKeeps(w, root, s, pending[..|pending| - 1], pending[|pending| - 1]);
      StepFirst(w, root, s, pending[..|pending| - 1], pending[|pending| - 1]);
    }
    StartAccounted(root);
    OneWalks(Rules(w), Start(root), root);
    WalkKeeps(Rules(w), holds, Start(root), [root]);
    var e := Walk(Rules(w), Start(root), root);
    AheadIs(e.state.visited, e.left);
  }

  lemma StartAccounted(root: Node)
    requires OneEach(root.what.host)
    ensures AllAccounted(root, Start(root), [root]) && DepthFirst(Ahead(Start(root).visited, [root]))
  {
    AccountedStart(AnyName, root);
  }

  /** Where a whole walk of the host tree ends. */
  ghost function Whole(w: World, root: Node): (e: End<State, Entry>)
    ensures |e.state.acts| == |Entries(e.state.items)| == |e.state.visited|
  {
    WalkMeans(w, root);
    Walk(Rules(w), Start(root), root)
  }

  /** What a whole walk of the host tree comes to, with one act and one item for each name. */
  ghost function Final(w: World, root: Node): (s: State)
    ensures |s.acts| == |Entries(s.items)| == |s.visited|
  {
    Whole(w, root).state
  }

  lemma WholeMeans(w: World, root: Node)
    ensures RunMeans(w, Final(w, root)) && TimesMean(w, Final(w, root))
    ensures LeadsOn(w, root, Final(w, root), Reversed(Whole(w, root).left))
  {
    hide Walk, RunMeans, TimesMean, LeadsOn;
    WalkMeans(w, root);
  }

  lemma EntryMeant(w: World, root: Node, k: nat)
    requires k < |Final(w, root).acts|
    ensures var s := Final(w, root); EntryMeans(w, s.visited, k, Entries(s.items)[k], s.acts[k])
  {
    hide Final, EntryMeans;
    WholeMeans(w, root);
  }

  /** With links kept, a further name of a file already in place is linked when it completes,
      and neither copied nor skipped. */
  lemma CopiedOnce(w: World, root: Node, i: nat, j: nat)
    requires var s := Final(w, root);
      && w.links && i < j < |s.acts| && (s.acts[i].Copied? || s.acts[i].Found?)
      && s.visited[j].what.host == s.visited[i].what.host && Shared(s.visited[i].what.host)
    ensures var s := Final(w, root);
      !s.acts[j].Copied? && !s.acts[j].Found? && (Entries(s.items)[j].status.Completed? ==> s.acts[j].HardLinked?)
  {
    hide Final, AnchoredAt, TroubledAs;
    EntryMeant(w, root, i);
    EntryMeant(w, root, j);
    assert InPlace(w, Final(w, root).visited, i);
  }

  /** A hard link is made only with links kept, and to the very path where the same file was
      copied, or found in place, before in the same walk. */
  lemma LinkedToACopy(w: World, root: Node, k: nat) returns (i: nat)
    requires var s := Final(w, root); k < |s.acts| && s.acts[k].HardLinked?
    ensures var s := Final(w, root);
      && w.links && i < k && (s.acts[i].Copied? || s.acts[i].Found?) && s.visited[i].what.host == s.visited[k].what.host
      && s.acts[k].target == s.visited[i].path
  {
    hide Final, InPlace, InPlaceBefore, TroubledAs;
    var s := Final(w, root);
    EntryMeant(w, root, k);
    i :| Anchor(w, s.visited[..k], s.visited[k].what.host.id.value, i) && s.acts[k].target == s.visited[..k][i].path;
    FirstIsInPlace(w, s.visited, k, i);
    EntryMeant(w, root, i);
    PlacedMeans(w, s.visited, i, Entries(s.items)[i], s.acts[i]);
  }

  lemma FirstIsInPlace(w: World, v: seq<Node>, k: nat, i: nat)
    requires k < |v| && Shared(v[k].what.host) && Anchor(w, v[..k], v[k].what.host.id.value, i)
    ensures i < k && v[..k][i] == v[i] && v[i].what.host == v[k].what.host
    ensures InPlace(w, v, i) && !InPlaceBefore(w, v, i)
  {
    forall j: nat | j <= i ensures InPlace(w, v[..k], j) == InPlace(w, v, j) && v[..k][j] == v[j] {}
  }

  lemma PlacedMeans(w: World, v: seq<Node>, k: nat, i: Item, act: Act)
    requires k < |v| && EntryMeans(w, v, k, i, act) && InPlace(w, v, k) && !InPlaceBefore(w, v, k)
    ensures act.Copied? || act.Found?
  {
    hide InPlaceBefore, AnchoredAt;
  }

  lemma StopsMeant(w: World, root: Node)
    ensures Stops(Entries(Final(w, root).items), Final(w, root).stopped)
  {
    hide Final, EntryMeans, LinkedAre;
    WholeMeans(w, root);
  }

  /** A walk stops exactly when a signal cancels an entry, which is then the last it visits. */
  lemma StopsAtASignal(w: World, root: Node)
    ensures var s, es := Final(w, root), Entries(Final(w, root).items);
      && (s.stopped <==> exists k :: 0 <= k < |es| && es[k].status.Cancelled?)
      && forall k :: 0 <= k < |es| && es[k].status.Cancelled? ==> k == |s.visited| - 1
  {
    hide Final, Stops, Entries;
    StopsMeant(w, root);
    StopsMean(Entries(Final(w, root).items), Final(w, root).stopped);
  }

  /** No name is lost: each name of a directory that was entered and listed is visited in its
      turn or left by a signal, one level down; it goes ahead if the sink has a key for it
      that no earlier name of the directory took, and else carries why it does not. */
  lemma EveryNameComes(w: World, root: Node, k: nat, c: nat)
    requires var v := Final(w, root).visited;
      k < |v| && Goes(w, v, k) && w.answers(k).listing.None? && c < |v[k].what.host.entries|
    ensures var s, e := Final(w, root), Whole(w, root);
      var parent, (name, host) := s.visited[k], s.visited[k].what.host.entries[c];
      TreeWalk.Node(parent.path + [name], parent.depth + 1, Entry(host, CheckOf(w.answers(k).keys, c)))
        in s.visited + e.left
  {
    hide Whole, Final, RunMeans, TimesMean, Reached, Queue, CheckOf;
    var s, e := Final(w, root), Whole(w, root);
    WholeMeans(w, root);
    var n := s.visited[k];
    FirstKeyWins(n, n.what.host.entries, w.answers(k).keys, c);
    assert InOrder(Ahead(s.visited, Reversed(e.left)), Kids(w, s.visited, k));
    AheadIs(s.visited, e.left);
  }

  lemma AheadIs(visited: seq<Node>, left: seq<Node>)
    ensures Ahead(visited, Reversed(left)) == visited + left
  {
    ReversedTwice(left);
  }

  /** Nothing else comes: what is visited or left is the root, or one of the names that a
      visited directory led to. */
  lemma NothingElseComes(w: World, root: Node, n: Node)
    requires n in Final(w, root).visited + Whole(w, root).left
    ensures var v := Final(w, root).visited;
      n == root || exists k: nat :: k < |v| && n in Kids(w, v, k)
  {
    hide Whole, Final, RunMeans, TimesMean, Kids;
    var s, e := Final(w, root), Whole(w, root);
    WholeMeans(w, root);
    ReversedIs(e.left);
    assert multiset(s.visited + e.left) == multiset(s.visited + Reversed(e.left)) == multiset(s.queued);
    assert n in multiset(s.visited + e.left);
    assert n in s.queued;
    if n != root { FromKids(w, s.visited, |s.visited|, n); }
  }

  lemma {:induction false} FromKids(w: World, v: seq<Node>, m: nat, n: Node)
    requires m <= |v| && n in KidsUpto(w, v, m)
    ensures exists k: nat :: k < m && n in Kids(w, v, k)
  {
    hide Kids;
    if n in Kids(w, v, m - 1) {
    } else {
      FromKids(w, v, m - 1, n);
    }
  }

  /** The names of a directory are visited, or left, in listing order. */
  lemma SiblingsInOrder(w: World, root: Node, k: nat, c: nat, d: nat)
    requires var v := Final(w, root).visited; k < |v| && c < d < |Kids(w, v, k)|
    ensures var s, e := Final(w, root), Whole(w, root);
      Before(s.visited + e.left, Kids(w, s.visited, k)[c], Kids(w, s.visited, k)[d])
  {
    hide Whole, Final, RunMeans, TimesMean, Kids, Before;
    var s, e := Final(w, root), Whole(w, root);
    WholeMeans(w, root);
    AheadIs(s.visited, e.left);
    assert InOrder(Ahead(s.visited, Reversed(e.left)), Kids(w, s.visited, k));
  }

  // ---------------------------------------------------------------- the import

  class Traversal {
    const w: World
    var pending: seq<Node>
    var linked: map<nat, Path>
    var items: seq<Item>
    var counts: Counts
    var skips: nat
    var merged: nat
    var times: seq<nat>
    var visits: nat
    var stopped: bool
    ghost var did: Act
    ghost var s: State

    constructor (w: World, root: Node)
      ensures this.w == w && pending == [root] && s == Start(root) && Current()
    {
      this.w := w;
      pending, linked, items, counts := [root], map[], [], NONE;
      skips, merged, times, visits, stopped := 0, 0, [], 0, false;
      s := Start(root);
    }

    /** The variables hold what `s` says. */
    ghost predicate Current()
      reads this
    {
      && s == State(s.visited, s.queued, s.acts, linked, items, times, merged, stopped)
      && visits == |s.visited| && counts == Tally(items) && skips == Skips(items)
    }

    method Children(n: Node, entries: seq<(string, Host)>, keys: nat -> Result<string, Trouble>)
      returns (queued: seq<Node>)
      ensures queued == Queue(n, entries, keys).0
    {
      var names: set<string> := {};
      queued := [];
      for i := 0 to |entries|
        invariant Queue(n, entries[..i], keys) == (queued, names)
      {
        assert entries[..i + 1][..i] == entries[..i];
        var checked := None;
        var key := keys(i);
        if key.Err? {
          checked := Some(key.error);
        } else if key.value in names {
          checked := Some(Unsupported);
        } else {
          names := names + {key.value};
        }
        queued := queued + [TreeWalk.Node(n.path + [entries[i].0], n.depth + 1, Entry(entries[i].1, checked))];
      }
      assert entries[..|entries|] == entries;
    }

    method AttemptFolder(n: Node, entries: seq<(string, Host)>, a: Answers) returns (r: Status)
      requires did == Act.Nothing
      modifies this`pending, this`merged, this`times, this`did
      ensures var o := HandleFolder(w, n, entries, a);
        && r == o.status && did == o.act && pending == old(pending) + Reversed(o.children)
        && merged == old(merged) + (if o.merges then 1 else 0)
        && times == if o.timed then old(times) + [|items|] else old(times)
    {
      hide Queue, Reversed;
      assert Reversed<Entry>([]) == [] by { ReversedIs<Entry>([]); }
      if a.body.Some? {
        return StatusOf(a.body.value);
      }
      did := Entered;
      if a.existing {
        merged := merged + 1;
      }
      if w.times {
        times := times + [|items|];
      }
      if a.listing.Some? {
        return StatusOf(a.listing.value);
      }
      var children := Children(n, entries, a.keys);
      pending := Push(pending, children);
      r := if a.after.Some? then StatusOf(a.after.value) else Completed;
    }

    method AttemptFile(n: Node, id: Option<nat>, a: Answers) returns (r: Status, verified: bool)
      requires linked == s.linked && did == Act.Nothing && n.what.host == Plain(id)
      modifies this`linked, this`did
      ensures var o := HandleFile(w, s, id, a);
        && r == o.status && did == o.act && verified == o.verified
        && linked == if o.links then Noted(old(linked), n) else old(linked)
    {
      if w.sparse && !w.canSparse {
        return Refused, false;
      }
      var inode := if w.links then id else None;
      if inode.Some? && inode.value in linked {
        if a.body.Some? {
          return StatusOf(a.body.value), false;
        }
        did := HardLinked(linked[inode.value]);
        return Completed, false;
      }
      if !a.earlier && a.body.Some? {
        return StatusOf(a.body.value), false;
      }
      did := if a.earlier then Found else Copied;
      if inode.Some? {
        linked := linked[inode.value := n.path];
      }
      if a.earlier {
        return Skipped, true;
      }
      r, verified := if a.after.Some? then StatusOf(a.after.value) else Completed, false;
    }

    method AttemptLink(a: Answers) returns (r: Status)
      requires did == Act.Nothing
      modifies this`did
      ensures r == HandleLink(w, a).status && did == HandleLink(w, a).act
    {
      if !w.links {
        return Refused;
      }
      if a.body.Some? {
        return StatusOf(a.body.value);
      }
      did := SymLinked;
      r := if a.after.Some? then StatusOf(a.after.value) else Completed;
    }

    /** Handle one entry, queueing what it leads to. */
    method Attempt(n: Node) returns (r: Status, verified: bool)
      requires Current()
      modifies this`pending, this`linked, this`merged, this`times, this`did
      ensures var o := Handle(w, s, n);
        && r == o.status && did == o.act && verified == o.verified && pending == old(pending) + Reversed(o.children)
        && linked == (if o.links then Noted(old(linked), n) else old(linked))
        && merged == old(merged) + (if o.merges then 1 else 0)
        && times == (if o.timed then old(times) + [|items|] else old(times))
    {
      hide Tally, Skips, Reversed, HandleFile, HandleFolder;
      assert Reversed<Entry>([]) == [] by { ReversedIs<Entry>([]); }
      KindsMean(w, s, n, w.answers(visits));
      var a := w.answers(visits);
      verified := false;
      did := Act.Nothing;
      if a.cancelled {
        return Cancelled, false;
      }
      if n.what.checked.Some? {
        return StatusOf(n.what.checked.value), false;
      }
      if n.depth > w.maxDepth {
        return Failed, false;
      }
      if a.before.Some? {
        return StatusOf(a.before.value), false;
      }
      match n.what.host {
        case Link => r := AttemptLink(a);
        case Plain(id) => r, verified := AttemptFile(n, id, a);
        case Folder(entries) => r := AttemptFolder(n, entries, a);
        case Special => r := Refused;
      }
    }

    /** Pop one entry, handle it and report it. */
    method Step()
      requires Current() && pending != [] && !stopped
      modifies this
      ensures Current()
      ensures var n, below := old(pending[|pending| - 1]), old(pending[..|pending| - 1]);
        var (s', children) := Visit(w, old(s), n);
        s == s' && pending == below + Reversed(children)
    {
      hide Handle, Tally, Skips, Reversed, Record, Noted;
      var n := pending[|pending| - 1];
      pending := pending[..|pending| - 1];
      var status, verified := Attempt(n);
      AddItem(n, status, verified, Handle(w, s, n));
    }

    /** Report one entry that has been handled. */
    method AddItem(n: Node, status: Status, verified: bool, ghost o: Outcome)
      requires status == o.status && verified == o.verified && visits == |s.visited| && items == s.items
      requires linked == (if o.links then Noted(s.linked, n) else s.linked)
      requires merged == s.merged + (if o.merges then 1 else 0)
      requires times == if o.timed then s.times + [|items|] else s.times
      requires counts == Tally(items) && skips == Skips(items)
      modifies this`items, this`counts, this`skips, this`visits, this`stopped, this`s
      ensures Current() && s == Record(old(s), n, o)
    {
      hide Tally, Skips, Counted, Record, Noted;
      var item := Item(n.path, status, true, verified);
      TallyAppend(items, item);
      counts := Counted(counts, status);
      skips := if verified then skips + 1 else skips;
      items := items + [item];
      visits, stopped := visits + 1, status.Cancelled?;
      RecordIs(s, n, o, linked, items, times, merged);
      s := Record(s, n, o);
    }
  }

  lemma RecordIs(s: State, n: Node, o: Outcome, linked: map<nat, Path>, items: seq<Item>, times: seq<nat>, merged: nat)
    requires linked == (if o.links then Noted(s.linked, n) else s.linked)
    requires items == s.items + [Item(n.path, o.status, true, o.verified)]
    requires times == if o.timed then s.times + [|s.items|] else s.times
    requires merged == s.merged + (if o.merges then 1 else 0)
    ensures Record(s, n, o) == State(s.visited + [n], s.queued + o.children, s.acts + [o.act], linked, items, times,
      merged, o.status.Cancelled?)
  {
  }

  lemma KindsMean(w: World, s: State, n: Node, a: Answers)
    ensures forall id :: var o := HandleFile(w, s, id, a); o.children == [] && !o.merges && !o.timed
    ensures forall entries :: var o := HandleFolder(w, n, entries, a); !o.links && !o.verified
  {
    hide Queue;
  }

  /** `order` is the items whose times were set, in the order that was done. */
  datatype Report = Report(items: seq<Item>, counts: Counts, merged: nat, left: seq<Node>, order: seq<nat>,
                           stopped: bool, code: nat)

  /** Import everything under `root`. The walk visits what the recursive walk visits, in its
      order, and stops where it stops. Every name queued is visited and reported once, or is
      left over after a signal; the names queued are those the directories visited lead to.
      The counts are those of the items. Times are set on just the directories entered whose
      items are complete, on what lies below a directory before the directory. */
  method Import(w: World, root: Node, verdict: nat -> Option<Status>, signal: nat) returns (r: Report)
    requires OneEach(root.what.host)
    requires forall i: nat :: verdict(i).Some? ==> verdict(i).value.Refused? || verdict(i).value.Failed?
    ensures Descends(Rules(w))
    ensures var e := Walk(Rules(w), Start(root), root);
      && Good(w, root, e.state, Reversed(e.left)) && AllAccounted(root, e.state, e.left)
      && (!r.stopped ==> e.left == [])
      && r.left == e.left && r.stopped == e.state.stopped
      && r.merged == MergedUpto(w, e.state.visited, |e.state.visited|)
      && (r.stopped ==> r.items == e.state.items)
      && (!r.stopped ==> Deferred(e.state.items, r.items, e.state.times, verdict, 0))
      && (forall i: nat :: i in r.order <==> !r.stopped && Waits(w, e.state, i) && e.state.items[i].status.Completed?)
      && BelowFirst(e.state.items, r.order)
    ensures r.counts == Tally(r.items)
    ensures r.code == if r.stopped then 128 + signal else ExitCode(r.counts, Skips(r.items))
    ensures !r.stopped ==> (r.code == 0 <==> forall i :: 0 <= i < |r.items| ==> IsThere(r.items[i]))
  {
    hide Handle, Record, Walk, WalkAll, Accounted, Deferred, Reversed, Descends, Total, AllOneEach, Good, BelowFirst,
      MergedUpto, Goes, Increasing;
    var t := new Traversal(w, root);
    WalkDescends(w);
    OneWalks(Rules(w), Start(root), root);
    while t.pending != [] && !t.stopped
      invariant fresh(t) && t.w == w && t.Current()
      invariant WalkAll(Rules(w), t.s, Reversed(t.pending)) == Walk(Rules(w), Start(root), root)
      decreases Total(Rules(w), t.pending)
    {
      ghost var n, below := t.pending[|t.pending| - 1], t.pending[..|t.pending| - 1];
      assert t.pending == below + [n];
      PopWalks(Rules(w), t.s, below, n);
      PopShrinks(Rules(w), t.s, below, n);
      t.Step();
    }
    TreeWalk.Ended(Rules(w), t.s, t.pending);
    ghost var left := Reversed(t.pending);
    GoodEnd(w, root, t.s, left);
    TimesBelow(w, t.s);
    var pushed := Push([], t.pending);
    assert pushed == left;
    var items, counts, order := SetTimes(t.items, t.counts, t.times, verdict, t.stopped);
    forall a | 0 <= a < |order| ensures order[a] in order {}
    BackwardsIsBelowFirst(AnyName, root, t.s.visited, t.s.queued, t.s.items, left, order);
    if !t.stopped {
      DeferredMarked(t.items, items, t.times, verdict);
      ExitMeans(items);
    }
    r := Report(items, counts, t.merged, pushed, order, t.stopped,
                if t.stopped then 128 + signal else ExitCode(counts, t.skips));
  }

  /** What the end of a walk has to offer to the work that is left until then. */
  lemma GoodEnd(w: World, root: Node, s: State, left: seq<Node>)
    requires OneEach(root.what.host)
    requires Descends(Rules(w)) && Walk(Rules(w), Start(root), root) == End(s, left)
    ensures Good(w, root, s, Reversed(left)) && AllAccounted(root, s, left) && Marked(s.items)
    ensures s.merged == MergedUpto(w, s.visited, |s.visited|) && TimesMean(w, s)
    ensures |s.items| == |s.visited| && forall i :: 0 <= i < |s.items| ==> s.items[i].entry
  {
    hide Walk, RunMeans, TimesMean, KidsUpto, Kids, Ahead, InOrder, Reversed, Descends, MergedUpto, AllAccounted,
      Marked;
    WalkMeans(w, root);
    WalkAccounts(w, root);
    ReversedTwice(left);
    LeftAccounted(root, s, Reversed(left));
    EntriesAlone(s.items);
  }

  lemma {:induction false} EntriesAlone(items: seq<Item>)
    requires |Entries(items)| == |items|
    ensures forall i :: 0 <= i < |items| ==> items[i].entry
  {
    if items == [] {
    } else {
      EntriesAlone(items[..|items| - 1]);
    }
  }

  lemma LeftAccounted(root: Node, s: State, pending: seq<Node>)
    requires AllAccounted(root, s, pending)
    ensures AllAccounted(root, s, Reversed(pending)) && Marked(s.items)
  {
    AccountedReversed(AnyName, root, s.visited, s.queued, s.items, pending);
    hide Accounted, Marked, OneEach;
    ReversedIs(pending);
    forall q | q in Reversed(pending) ensures OneEach(q.what.host) { assert q in multiset(pending); }
  }
}
