/** Exporting a directory tree with an explicit stack, from a source whose directories may
    form cycles. */
module TreeExport {
  import opened Common
  import opened SafeNames
  import opened TreeReport
  import opened TreeWalk

  datatype Kind = File | Directory | Other

  datatype Child = Child(name: string, kind: Kind, inode: nat)

  datatype Entry = Entry(kind: Kind, inode: nat)

  type Node = TreeWalk.Node<Entry>

  datatype Existing = Nothing | APlainFile | ADirectory

  /** How reserving a name goes: the marker is made, or found where the name is taken; or that
      fails, and leaves a marker behind or none. */
  datatype Probe = Works | Fails(marked: bool)

  /** What the world answers while one entry is handled: a signal first; then an alias or a
      symbolic link in the way; what is already there; whether an `Other` entry is a link,
      whether a file has evidence of earlier verification; what goes wrong in the work
      itself; what is there by the time the finished file or link is given its name, and
      whether that is synced; how reserving each child's name goes, and removing the
      reservations; and what goes wrong afterwards. */
  datatype Answers = Answers(
    cancelled: bool,
    before: Option<Trouble>,
    existing: Existing,
    isLink: bool,
    earlier: bool,
    body: Option<Trouble>,
    there: Existing,
    synced: bool,
    probes: nat -> Probe,
    finish: Option<Trouble>,
    after: Option<Trouble>)

  /** The source and the options: listings by inode, how the destination folds names, and
      what the world answers to the n-th entry visited. */
  datatype World = World(
    listings: map<nat, seq<Child>>,
    maxDepth: nat,
    links: bool,
    replace: bool,
    times: bool,
    fold: string -> string,
    answers: nat -> Answers)

  /** The children to queue, in listing order, and the items refused on the spot. */
  datatype Sifted = Sifted(queued: seq<Node>, refused: seq<Item>, taken: set<string>)

  function ChildNode(parent: Node, kid: Child): Node {
    TreeWalk.Node(parent.path + [kid.name], parent.depth + 1, Entry(kid.kind, kid.inode))
  }

  function SiftOne(w: World, parent: Node, sofar: Sifted, kid: Child, probe: Probe): Sifted {
    var path := parent.path + [kid.name];
    if !SafeName(kid.name) then sofar.(refused := sofar.refused + [Item(path, Refused, false, false)])
    else match probe
      case Fails(marked) =>
        Sifted(sofar.queued, sofar.refused + [Item(path, Failed, false, false)],
               if marked then sofar.taken + {w.fold(kid.name)} else sofar.taken)
      case Works =>
        if w.fold(kid.name) in sofar.taken then sofar.(refused := sofar.refused + [Item(path, Refused, false, false)])
        else Sifted(sofar.queued + [ChildNode(parent, kid)], sofar.refused, sofar.taken + {w.fold(kid.name)})
  }

  function Sift(w: World, parent: Node, kids: seq<Child>, probes: nat -> Probe): Sifted {
    if kids == [] then Sifted([], [], {})
    else
      var n := |kids| - 1;
      SiftOne(w, parent, Sift(w, parent, kids[..n], probes), kids[n], probes(n))
  }

  /** What was done with one entry at the destination; `Unsynced` is given its name, and
      reported as failed because that could not be made durable. */
  datatype Act = Nothing | Entered | Copied | HardLinked(target: Path) | SymLinked | Unsynced

  /** What has happened so far. `queued` holds every entry ever put on the stack, `acts` what
      was done with each visited, `seen` the directory inodes visited, `anchors` where
      the first copy of each inode went, `times` the items whose times wait for the end, and `stopped` says
      that a signal ended the walk. */
  datatype State = State(
    visited: seq<Node>,
    queued: seq<Node>,
    acts: seq<Act>,
    seen: set<nat>,
    anchors: map<nat, Path>,
    items: seq<Item>,
    times: seq<nat>,
    merged: nat,
    stopped: bool)

  function Start(root: Node): State {
    State([], [root], [], {}, map[], [], [], 0, false)
  }

  /** The outcome of one entry: its status, the items its children were refused with, the
      children to visit next, and what it adds to the state. */
  datatype Outcome = Outcome(
    status: Status,
    verified: bool,
    refused: seq<Item>,
    children: seq<Node>,
    act: Act,
    merges: bool)

  function Plain(s: Status): Outcome {
    Outcome(s, false, [], [], Act.Nothing, false)
  }

  /** A completed item may still be spoiled by its attributes, times or ledger entry. */
  function Spoiled(o: Outcome, after: Option<Trouble>): Outcome {
    if o.status.Completed? && after.Some? then o.(status := StatusOf(after.value)) else o
  }

  /** An existing destination gives way only to a replacement, and only if it is a file. */
  predicate InTheWay(w: World, e: Existing) {
    e.ADirectory? || (e.APlainFile? && !w.replace)
  }

  /** Give a finished file or link its name, which another may have taken meanwhile. */
  function Place(w: World, a: Answers, act: Act): Outcome {
    if a.body.Some? then Plain(StatusOf(a.body.value))
    else if InTheWay(w, a.there) then Plain(Failed)
    else if !a.synced then Plain(Failed).(act := Unsynced)
    else Plain(Completed).(act := act)
  }

  /** A further name of a file copied before is linked to the first copy, if links are kept. */
  function FileAct(w: World, anchors: map<nat, Path>, n: Node): Act {
    if w.links && n.what.inode in anchors then HardLinked(anchors[n.what.inode]) else Copied
  }

  function Anchored(anchors: map<nat, Path>, n: Node): map<nat, Path> {
    if n.what.inode in anchors then anchors else anchors[n.what.inode := n.path]
  }

  function HandleFile(w: World, s: State, n: Node, a: Answers): Outcome {
    if a.earlier then Plain(Skipped).(verified := true)
    else if InTheWay(w, a.existing) then Plain(Refused)
    else Place(w, a, FileAct(w, s.anchors, n))
  }

  function HandleOther(w: World, a: Answers): Outcome {
    if !a.isLink then Plain(Skipped)
    else if !w.links || InTheWay(w, a.existing) then Plain(Refused)
    else Place(w, a, SymLinked)
  }

  function HandleDirectory(w: World, s: State, n: Node, a: Answers): Outcome {
    if n.what.inode in s.seen then Plain(Refused)
    else if a.existing.APlainFile? then Plain(Refused).(act := Entered)
    else
      var entered := Plain(Completed).(act := Entered, merges := a.existing.ADirectory?);
      if a.body.Some? then entered.(status := StatusOf(a.body.value))
      else if n.what.inode !in w.listings then entered.(status := Failed)
      else
        var sifted := Sift(w, n, w.listings[n.what.inode], a.probes);
        if a.finish.Some? then entered.(status := StatusOf(a.finish.value), refused := sifted.refused)
        else entered.(refused := sifted.refused, children := sifted.queued)
  }

  function Handle(w: World, s: State, n: Node): Outcome {
    var a := w.answers(|s.visited|);
    if a.cancelled then Plain(Cancelled)
    else if n.depth > w.maxDepth then Plain(Failed)
    else if a.before.Some? then Plain(StatusOf(a.before.value))
    else Spoiled(match n.what.kind
                 case File => HandleFile(w, s, n, a)
                 case Other => HandleOther(w, a)
                 case Directory => HandleDirectory(w, s, n, a),
                 a.after)
  }

  function Record(w: World, s: State, n: Node, o: Outcome): State {
    var items := s.items + o.refused;
    State(s.visited + [n],
          s.queued + o.children,
          s.acts + [o.act],
          if o.act.Entered? then s.seen + {n.what.inode} else s.seen,
          if o.act.Copied? then Anchored(s.anchors, n) else s.anchors,
          items + [Item(n.path, o.status, true, o.verified)],
          if o.status.Completed? && w.times && n.what.kind.Directory? then s.times + [|items|] else s.times,
          if o.merges then s.merged + 1 else s.merged,
          o.status.Cancelled?)
  }

  // ---------------------------------------------------------------- the walk

  /** Directory inodes the walk can still enter. */
  function Unseen(w: World, s: State): set<nat> {
    w.listings.Keys - s.seen
  }

  function Visit(w: World, s: State, n: Node): (State, seq<Node>) {
    var o := Handle(w, s, n);
    (Record(w, s, n, o), o.children)
  }

  /** The walk of a source that may hold cycles: it ends because each directory inode is
      entered once. */
  function Rules(w: World): TreeWalk.Rules<State, Entry> {
    TreeWalk.Rules((s, n) => Visit(w, s, n), (s: State) => s.stopped, s => |Unseen(w, s)|, n => 0)
  }

  /** Only a directory not seen before, within the depth bound, has children visited. */
  lemma ChildrenMean(w: World, s: State, n: Node)
    ensures var o := Handle(w, s, n);
      o.children != [] ==>
        && o.act.Entered? && n.what.kind.Directory? && n.what.inode !in s.seen && n.what.inode in w.listings
            && n.depth <= w.maxDepth
        && o.children == Sift(w, n, w.listings[n.what.inode], w.answers(|s.visited|).probes).queued
  {
  }

  lemma EnteringShrinks(w: World, s: State, n: Node)
    ensures var o := Handle(w, s, n);
      && |Unseen(w, Record(w, s, n, o))| <= |Unseen(w, s)|
      && (o.children != [] ==> |Unseen(w, Record(w, s, n, o))| < |Unseen(w, s)|)
  {
    hide Handle;
    ChildrenMean(w, s, n);
    var o := Handle(w, s, n);
    SubsetSize(Unseen(w, Record(w, s, n, o)), Unseen(w, s));
    if o.children != [] {
      SubsetSize(Unseen(w, Record(w, s, n, o)), Unseen(w, s) - {n.what.inode});
    }
  }

  lemma WalkDescends(w: World)
    ensures Descends(Rules(w))
  {
    hide Handle, Record, Unseen;
    forall s, n
      ensures var (s', children) := Rules(w).visit(s, n);
        || Rules(w).rank(s') < Rules(w).rank(s)
        || (Rules(w).rank(s') == Rules(w).rank(s) && Total(Rules(w), children) <= Rules(w).weight(n))
    {
      EnteringShrinks(w, s, n);
    }
  }

  // ---------------------------------------------------------------- the children of a directory

  /** The queued children have safe names that the destination tells apart; each child is
      either queued or refused. */
  lemma {:induction false} SiftMeans(w: World, parent: Node, kids: seq<Child>, probes: nat -> Probe)
    ensures var sifted := Sift(w, parent, kids, probes);
      && |sifted.queued| + |sifted.refused| == |kids|
      && (forall i :: 0 <= i < |sifted.refused| ==> !sifted.refused[i].entry && !sifted.refused[i].verified)
      && (forall i :: 0 <= i < |sifted.queued| ==>
            ChildOf(SafeName, parent, sifted.queued[i]) && w.fold(LastName(sifted.queued[i])) in sifted.taken)
      && (forall i, j :: 0 <= i < j < |sifted.queued| ==>
            w.fold(LastName(sifted.queued[i])) != w.fold(LastName(sifted.queued[j])))
  {
    if kids == [] {
    } else {
      SiftMeans(w, parent, kids[..|kids| - 1], probes);
    }
  }

  /** A child is queued exactly when its name is safe, its reservation works, and no earlier
      safe name that left a marker folds to the same: the first spelling wins. Any other is
      reported, as failed where its reservation fails and else as refused. */
  lemma {:induction false} FirstSpellingWins(w: World, parent: Node, kids: seq<Child>, probes: nat -> Probe, k: nat)
    requires k < |kids|
    ensures
      var node := TreeWalk.Node(parent.path + [kids[k].name], parent.depth + 1, Entry(kids[k].kind, kids[k].inode));
      First(w, kids, probes, k) ==> node in Sift(w, parent, kids, probes).queued
    ensures !First(w, kids, probes, k) ==>
      Item(parent.path + [kids[k].name],
           if SafeName(kids[k].name) && probes(k).Fails? then Failed else Refused, false, false)
        in Sift(w, parent, kids, probes).refused
  {
    var n := |kids| - 1;
    if k < n {
      FirstSpellingWins(w, parent, kids[..n], probes, k);
      assert First(w, kids, probes, k) <==> First(w, kids[..n], probes, k);
    } else {
      TakenMeans(w, parent, kids[..n], probes);
      assert forall i :: 0 <= i < n ==> kids[..n][i] == kids[i];
    }
  }

  /** Two that are queued are so in listing order. */
  lemma {:induction false} SiftedInOrder(w: World, parent: Node, kids: seq<Child>, probes: nat -> Probe, c: nat, d: nat)
    returns (a: nat, b: nat)
    requires c < d < |kids| && First(w, kids, probes, c) && First(w, kids, probes, d)
    ensures var queued := Sift(w, parent, kids, probes).queued;
      a < b < |queued| && queued[a] == ChildNode(parent, kids[c]) && queued[b] == ChildNode(parent, kids[d])
  {
    var n := |kids| - 1;
    var before := Sift(w, parent, kids[..n], probes);
    assert First(w, kids, probes, c) <==> First(w, kids[..n], probes, c);
    if d < n {
      assert First(w, kids, probes, d) <==> First(w, kids[..n], probes, d);
      a, b := SiftedInOrder(w, parent, kids[..n], probes, c, d);
    } else {
      FirstSpellingWins(w, parent, kids[..n], probes, c);
      a :| 0 <= a < |before.queued| && before.queued[a] == ChildNode(parent, kids[c]);
      TakenMeans(w, parent, kids[..n], probes);
      assert forall i :: 0 <= i < n ==> kids[..n][i] == kids[i];
      b := |before.queued|;
    }
  }

  /** A safe name whose marker was made, or left behind by a failure. */
  predicate Marks(kids: seq<Child>, probes: nat -> Probe, i: nat)
    requires i < |kids|
  {
    SafeName(kids[i].name) && (probes(i).Works? || probes(i).marked)
  }

  predicate First(w: World, kids: seq<Child>, probes: nat -> Probe, k: nat)
    requires k < |kids|
  {
    && SafeName(kids[k].name) && probes(k).Works?
    && forall i: nat :: i < k && Marks(kids, probes, i) ==> w.fold(kids[i].name) != w.fold(kids[k].name)
  }

  lemma {:induction false} TakenMeans(w: World, parent: Node, kids: seq<Child>, probes: nat -> Probe)
    ensures forall f :: f in Sift(w, parent, kids, probes).taken <==>
      exists i: nat :: i < |kids| && Marks(kids, probes, i) && f == w.fold(kids[i].name)
  {
    if kids == [] {
    } else {
      var n := |kids| - 1;
      TakenMeans(w, parent, kids[..n], probes);
      var before, after := Sift(w, parent, kids[..n], probes).taken, Sift(w, parent, kids, probes).taken;
      assert after == if Marks(kids, probes, n) then before + {w.fold(kids[n].name)} else before;
      hide Sift;
      forall i: nat | i < n ensures kids[i] == kids[..n][i] && Marks(kids[..n], probes, i) == Marks(kids, probes, i) {}
      hide Marks;
      forall f ensures f in after <==>
        exists i: nat :: i < |kids| && Marks(kids, probes, i) && f == w.fold(kids[i].name)
      {
        if f in before {
          var i: nat :| i < n && Marks(kids[..n], probes, i) && f == w.fold(kids[..n][i].name);
          assert Marks(kids, probes, i) && f == w.fold(kids[i].name);
        }
        if exists i: nat :: i < |kids| && Marks(kids, probes, i) && f == w.fold(kids[i].name) {
          var i: nat :| i < |kids| && Marks(kids, probes, i) && f == w.fold(kids[i].name);
          if i < n { assert Marks(kids[..n], probes, i) && f == w.fold(kids[..n][i].name); }
        }
      }
    }
  }

  /** What one outcome guarantees: children under the entry with names told apart, refusals
      that are not entries, and no verified mark but on a skip. */
  lemma OutcomeMeans(w: World, s: State, n: Node)
    ensures var o := Handle(w, s, n);
      && ChildrenOf(SafeName, n, o.children)
      && (forall i :: 0 <= i < |o.refused| ==> !o.refused[i].entry && !o.refused[i].verified)
      && (o.verified ==> o.status.Skipped?)
  {
    hide Sift, ChildrenOf, HandleDirectory, HandleFile, HandleOther;
    DirectoryMeans(w, s, n, w.answers(|s.visited|));
    FilesMean(w, s, n, w.answers(|s.visited|));
  }

  lemma SiftedChildren(w: World, parent: Node, kids: seq<Child>, probes: nat -> Probe)
    ensures var sifted := Sift(w, parent, kids, probes);
      && ChildrenOf(SafeName, parent, sifted.queued) && ChildrenOf(SafeName, parent, [])
      && (forall i :: 0 <= i < |sifted.refused| ==> !sifted.refused[i].entry && !sifted.refused[i].verified)
  {
    hide ChildOf, LastName;
    SiftMeans(w, parent, kids, probes);
  }

  lemma DirectoryMeans(w: World, s: State, n: Node, a: Answers)
    ensures var o := HandleDirectory(w, s, n, a);
      && ChildrenOf(SafeName, n, o.children)
      && (forall i :: 0 <= i < |o.refused| ==> !o.refused[i].entry && !o.refused[i].verified)
      && !o.act.Copied? && !o.verified
  {
    hide Sift, ChildrenOf;
    SiftedChildren(w, n, [], a.probes);
    if n.what.inode in w.listings {
      SiftedChildren(w, n, w.listings[n.what.inode], a.probes);
    }
  }

  lemma FilesMean(w: World, s: State, n: Node, a: Answers)
    ensures var o := HandleFile(w, s, n, a);
      && o.refused == [] && o.children == [] && ChildrenOf(SafeName, n, o.children)
      && !o.act.Entered? && !o.merges && (o.verified ==> o.status.Skipped?)
    ensures var o := HandleOther(w, a); o == Plain(o.status).(act := o.act) && !o.act.Entered? && !o.act.Copied?
  {
  }

  /** Everything queued is accounted for by what was visited and what waits. */
  ghost predicate AllAccounted(root: Node, s: State, waiting: seq<Node>) {
    Accounted(SafeName, root, s.visited, s.queued, s.items, waiting)
  }

  lemma StepKeeps(w: World, root: Node, s: State, below: seq<Node>, n: Node)
    requires AllAccounted(root, s, below + [n])
    ensures var (s', children) := Visit(w, s, n); AllAccounted(root, s', below + Reversed(children))
  {
    hide Handle, Accounted;
    var o := Handle(w, s, n);
    OutcomeMeans(w, s, n);
    StepAccounted(SafeName, root, s.visited, s.queued, s.items, below, n, o.children, o.refused,
      Item(n.path, o.status, true, o.verified));
  }

  // ---------------------------------------------------------------- what each entry came to

  /** The `k`-th entry visited was handled at all: no signal first, within the depth bound,
      nothing in the way of looking at it. */
  ghost predicate Reached(w: World, v: seq<Node>, k: nat)
    requires k < |v|
  {
    !w.answers(k).cancelled && v[k].depth <= w.maxDepth && w.answers(k).before.None?
  }

  /** The finished file or link was given its name, and that was made durable. */
  ghost predicate Named(w: World, k: nat) {
    var a := w.answers(k); a.body.None? && !InTheWay(w, a.there) && a.synced
  }

  /** A file that went to the destination, copied or linked. */
  ghost predicate Placed(w: World, v: seq<Node>, k: nat)
    requires k < |v|
  {
    var a := w.answers(k);
    Reached(w, v, k) && v[k].what.kind.File? && !a.earlier && !InTheWay(w, a.existing) && Named(w, k)
  }

  /** An earlier entry was a file of the same inode that went to the destination. */
  ghost predicate PlacedBefore(w: World, v: seq<Node>, k: nat)
    requires k < |v|
  {
    exists j: nat :: j < k && Placed(w, v, j) && v[j].what.inode == v[k].what.inode
  }

  /** An earlier entry was the same directory. */
  ghost predicate SeenBefore(w: World, v: seq<Node>, k: nat)
    requires k < |v|
  {
    exists j: nat :: j < k && Reached(w, v, j) && v[j].what.kind.Directory? && v[j].what.inode == v[k].what.inode
  }

  /** The `j`-th entry was the first of that inode to be placed. */
  ghost predicate Anchor(w: World, v: seq<Node>, inode: nat, j: nat) {
    j < |v| && Placed(w, v, j) && v[j].what.inode == inode && !PlacedBefore(w, v, j)
  }

  ghost predicate AnchoredAt(w: World, v: seq<Node>, inode: nat, target: Path) {
    exists j: nat :: Anchor(w, v, inode, j) && target == v[j].path
  }

  /** The work came to this: its own trouble if it had one, else what came after the naming. */
  predicate TroubledAs(w: World, a: Answers, t: Trouble) {
    a.body == Some(t) || (a.body.None? && !InTheWay(w, a.there) && a.synced && a.after == Some(t))
  }

  ghost predicate FileMeans(w: World, v: seq<Node>, k: nat, i: Item, act: Act)
    requires k < |v|
  {
    var a, linked := w.answers(k), w.links && PlacedBefore(w, v, k);
    var tried := !a.earlier && !InTheWay(w, a.existing);
    && (i.status.Completed? <==> Placed(w, v, k) && a.after.None?)
    && (i.status.Skipped? <==> a.earlier) && (i.verified <==> a.earlier)
    && (i.status.Refused? <==> (!a.earlier && InTheWay(w, a.existing)) || (tried && TroubledAs(w, a, Unsupported)))
    && (i.status.Cancelled? <==> tried && TroubledAs(w, a, Signal))
    && (act.Copied? <==> Placed(w, v, k) && !linked)
    && (act.HardLinked? <==> Placed(w, v, k) && linked)
    && (act.HardLinked? ==> AnchoredAt(w, v[..k], v[k].what.inode, act.target))
    && (act.Unsynced? <==> tried && a.body.None? && !InTheWay(w, a.there) && !a.synced)
    && !act.Entered? && !act.SymLinked?
  }

  ghost predicate OtherMeans(w: World, k: nat, i: Item, act: Act) {
    var a := w.answers(k);
    var wanted := a.isLink && w.links && !InTheWay(w, a.existing);
    && (i.status.Completed? <==> wanted && Named(w, k) && a.after.None?)
    && (i.status.Skipped? <==> !a.isLink) && !i.verified
    && (i.status.Refused? <==> a.isLink && (!wanted || TroubledAs(w, a, Unsupported)))
    && (i.status.Cancelled? <==> wanted && TroubledAs(w, a, Signal))
    && (act.SymLinked? <==> wanted && Named(w, k))
    && (act.Unsynced? <==> wanted && a.body.None? && !InTheWay(w, a.there) && !a.synced)
    && (act.SymLinked? || act.Unsynced? || act == Act.Nothing)
  }

  predicate ListedAs(a: Answers, listed: bool, t: Trouble) {
    || a.body == Some(t)
    || (a.body.None? && listed && (a.finish == Some(t) || (a.finish.None? && a.after == Some(t))))
  }

  ghost predicate DirectoryIs(w: World, v: seq<Node>, k: nat, i: Item, act: Act)
    requires k < |v|
  {
    var a, listed := w.answers(k), v[k].what.inode in w.listings;
    var blocked := SeenBefore(w, v, k) || a.existing.APlainFile?;
    && (i.status.Completed? <==> !blocked && a.body.None? && listed && a.finish.None? && a.after.None?)
    && !i.status.Skipped? && !i.verified
    && (i.status.Refused? <==> blocked || ListedAs(a, listed, Unsupported))
    && (i.status.Cancelled? <==> !blocked && ListedAs(a, listed, Signal))
    && (act.Entered? <==> !SeenBefore(w, v, k))
    && (act.Entered? || act == Act.Nothing)
  }

  /** What the `k`-th entry came to, from what the world answered to it and to those before:
      when it completed, when it was refused, skipped or cancelled, and what was done with it. */
  ghost predicate EntryMeans(w: World, v: seq<Node>, k: nat, i: Item, act: Act)
    requires k < |v|
  {
    if !Reached(w, v, k) then
      && act == Act.Nothing && !i.verified
      && i.status == if w.answers(k).cancelled then Cancelled
                     else if v[k].depth > w.maxDepth then Failed
                     else StatusOf(w.answers(k).before.value)
    else match v[k].what.kind
      case File => FileMeans(w, v, k, i, act)
      case Other => OtherMeans(w, k, i, act)
      case Directory => DirectoryIs(w, v, k, i, act)
  }

  /** Every entry visited came to what it means, and what is remembered is just the
      directories seen and where the first copy of each file went. */
  ghost predicate RunMeans(w: World, s: State) {
    && |s.acts| == |Entries(s.items)| == |s.visited|
    && (forall k: nat :: k < |s.visited| ==> EntryMeans(w, s.visited, k, Entries(s.items)[k], s.acts[k]))
    && SeenIs(w, s.visited, s.seen) && AnchorsAre(w, s.visited, s.anchors)
    && Stops(Entries(s.items), s.stopped)
  }

  /** What an entry came to does not change as more are visited. */
  lemma MeansStays(w: World, v: seq<Node>, n: Node, k: nat)
    requires k < |v|
    ensures Reached(w, v + [n], k) == Reached(w, v, k) && Placed(w, v + [n], k) == Placed(w, v, k)
    ensures PlacedBefore(w, v + [n], k) == PlacedBefore(w, v, k) && SeenBefore(w, v + [n], k) == SeenBefore(w, v, k)
  {
    if PlacedBefore(w, v, k) {
      var j: nat :| j < k && Placed(w, v, j) && v[j].what.inode == v[k].what.inode;
      assert Placed(w, v + [n], j);
    }
    if SeenBefore(w, v, k) {
      var j: nat :| j < k && Reached(w, v, j) && v[j].what.kind.Directory? && v[j].what.inode == v[k].what.inode;
      assert Reached(w, v + [n], j);
    }
  }

  /** Handling the next entry makes of it what it means. */
  lemma HandleMeans(w: World, s: State, n: Node)
    requires RunMeans(w, s)
    ensures var o, v, k := Handle(w, s, n), s.visited + [n], |s.visited|;
      && EntryMeans(w, v, k, Item(n.path, o.status, true, o.verified), o.act)
      && (o.act.Entered? ==> Reached(w, v, k) && n.what.kind.Directory?)
      && (Reached(w, v, k) && n.what.kind.Directory? ==> o.act.Entered? || n.what.inode in s.seen)
      && (o.act.Copied? ==> Placed(w, v, k)) && (Placed(w, v, k) ==> o.act.Copied? || n.what.inode in s.anchors)
  {
    hide Handle, EntryMeans, Placed, Reached, Stops;
    var v, k := s.visited + [n], |s.visited|;
    forall j: nat | j < k
      ensures Reached(w, v, j) == Reached(w, s.visited, j) && Placed(w, v, j) == Placed(w, s.visited, j)
        && v[j] == s.visited[j]
    {
      MeansStays(w, s.visited, n, j);
    }
    assert SeenBefore(w, v, k) <==> n.what.inode in s.seen;
    AnchorsKnown(w, s, n);
    KindMeans(w, s, n, v);
  }

  lemma AnchorsKnown(w: World, s: State, n: Node)
    requires AnchorsAre(w, s.visited, s.anchors)
    ensures PlacedBefore(w, s.visited + [n], |s.visited|) <==> n.what.inode in s.anchors
    ensures n.what.inode in s.anchors ==> AnchoredAt(w, s.visited, n.what.inode, s.anchors[n.what.inode])
  {
    hide Placed;
    var v, k := s.visited + [n], |s.visited|;
    forall j: nat | j < k ensures Placed(w, v, j) == Placed(w, s.visited, j) && v[j] == s.visited[j] {
      MeansStays(w, s.visited, n, j);
    }
    if n.what.inode in s.anchors {
      var j: nat :| Anchor(w, s.visited, n.what.inode, j);
      assert Placed(w, v, j);
    }
  }

  lemma KindMeans(w: World, s: State, n: Node, v: seq<Node>)
    requires v == s.visited + [n]
    requires SeenBefore(w, v, |s.visited|) <==> n.what.inode in s.seen
    requires PlacedBefore(w, v, |s.visited|) <==> n.what.inode in s.anchors
    requires n.what.inode in s.anchors ==> AnchoredAt(w, s.visited, n.what.inode, s.anchors[n.what.inode])
    ensures var o, k := Handle(w, s, n), |s.visited|;
      && EntryMeans(w, v, k, Item(n.path, o.status, true, o.verified), o.act)
      && (o.act.Entered? ==> Reached(w, v, k) && n.what.kind.Directory?)
      && (Reached(w, v, k) && n.what.kind.Directory? ==> o.act.Entered? || n.what.inode in s.seen)
      && (o.act.Copied? ==> Placed(w, v, k)) && (Placed(w, v, k) ==> o.act.Copied? || n.what.inode in s.anchors)
  {
    hide SeenBefore, PlacedBefore, HandleFile, HandleOther, HandleDirectory, FileMeans, OtherMeans, DirectoryIs,
      Spoiled, Placed;
    hide AnchoredAt;
    assert v[|s.visited|] == n;
    NotPlaced(w, v, |s.visited|);
    match n.what.kind {
      case File => if Reached(w, v, |s.visited|) { FileComes(w, s, n, v); }
      case Other => OtherComes(w, s, n, v);
      case Directory => DirectoryComes(w, s, n, v);
    }
  }

  lemma NotPlaced(w: World, v: seq<Node>, k: nat)
    requires k < |v|
    ensures !Reached(w, v, k) || !v[k].what.kind.File? ==> !Placed(w, v, k)
  {
  }

  lemma FileComes(w: World, s: State, n: Node, v: seq<Node>)
    requires v == s.visited + [n] && n.what.kind.File? && Reached(w, v, |s.visited|)
    requires PlacedBefore(w, v, |s.visited|) <==> n.what.inode in s.anchors
    requires n.what.inode in s.anchors ==> AnchoredAt(w, s.visited, n.what.inode, s.anchors[n.what.inode])
    ensures var k, a := |s.visited|, w.answers(|s.visited|);
      var o := Spoiled(HandleFile(w, s, n, a), a.after);
      && FileMeans(w, v, k, Item(n.path, o.status, true, o.verified), o.act)
      && (o.act.Copied? ==> Placed(w, v, k)) && (Placed(w, v, k) ==> o.act.Copied? || n.what.inode in s.anchors)
      && !o.act.Entered?
  {
    hide PlacedBefore, AnchoredAt;
    assert v[|s.visited|] == n && v[..|s.visited|] == s.visited;
  }

  lemma OtherComes(w: World, s: State, n: Node, v: seq<Node>)
    requires v == s.visited + [n]
    ensures var k, a := |s.visited|, w.answers(|s.visited|);
      var o := Spoiled(HandleOther(w, a), a.after);
      OtherMeans(w, k, Item(n.path, o.status, true, o.verified), o.act) && !o.act.Copied? && !o.act.Entered?
  {
  }

  lemma DirectoryComes(w: World, s: State, n: Node, v: seq<Node>)
    requires v == s.visited + [n]
    requires SeenBefore(w, v, |s.visited|) <==> n.what.inode in s.seen
    ensures var k, a := |s.visited|, w.answers(|s.visited|);
      var o := Spoiled(HandleDirectory(w, s, n, a), a.after);
      && DirectoryIs(w, v, k, Item(n.path, o.status, true, o.verified), o.act)
      && !o.act.Copied? && (o.act.Entered? || n.what.inode in s.seen)
  {
    hide SeenBefore, Sift;
    assert v[|s.visited|] == n;
  }

  lemma EntryStays(w: World, v: seq<Node>, n: Node, k: nat, i: Item, act: Act)
    requires k < |v|
    ensures EntryMeans(w, v + [n], k, i, act) == EntryMeans(w, v, k, i, act)
  {
    hide Reached, Placed, PlacedBefore, SeenBefore, AnchoredAt;
    MeansStays(w, v, n, k);
    assert (v + [n])[..k] == v[..k];
  }

  ghost predicate SeenIs(w: World, v: seq<Node>, seen: set<nat>) {
    forall inode :: inode in seen <==>
      exists j: nat :: j < |v| && Reached(w, v, j) && v[j].what.kind.Directory? && v[j].what.inode == inode
  }

  ghost predicate AnchorsAre(w: World, v: seq<Node>, anchors: map<nat, Path>) {
    && (forall inode :: inode in anchors ==> AnchoredAt(w, v, inode, anchors[inode]))
    && (forall j: nat :: j < |v| && Placed(w, v, j) ==> v[j].what.inode in anchors)
  }

  lemma SeenStep(w: World, v: seq<Node>, seen: set<nat>, n: Node, seen': set<nat>)
    requires SeenIs(w, v, seen) && seen <= seen' <= seen + {n.what.inode}
    requires n.what.inode in seen' ==> n.what.inode in seen || (Reached(w, v + [n], |v|) && n.what.kind.Directory?)
    requires Reached(w, v + [n], |v|) && n.what.kind.Directory? ==> n.what.inode in seen'
    ensures SeenIs(w, v + [n], seen')
  {
    var v' := v + [n];
    forall j: nat | j < |v| ensures v'[j] == v[j] && Reached(w, v', j) == Reached(w, v, j) { MeansStays(w, v, n, j); }
    assert v'[|v|] == n;
  }

  lemma AnchorStays(w: World, v: seq<Node>, n: Node, inode: nat, target: Path)
    requires AnchoredAt(w, v, inode, target)
    ensures AnchoredAt(w, v + [n], inode, target)
  {
    var j: nat :| Anchor(w, v, inode, j) && target == v[j].path;
    MeansStays(w, v, n, j);
    assert Anchor(w, v + [n], inode, j);
  }

  lemma AnchorsStep(w: World, v: seq<Node>, anchors: map<nat, Path>, n: Node, copied: bool)
    requires AnchorsAre(w, v, anchors)
    requires copied ==> Placed(w, v + [n], |v|)
    requires Placed(w, v + [n], |v|) ==> copied || n.what.inode in anchors
    ensures AnchorsAre(w, v + [n], if copied then Anchored(anchors, n) else anchors)
  {
    hide Placed, AnchoredAt;
    var v' := v + [n];
    forall j: nat | j < |v| ensures v'[j] == v[j] && Placed(w, v', j) == Placed(w, v, j) { MeansStays(w, v, n, j); }
    assert v'[|v|] == n;
    forall inode | inode in anchors ensures AnchoredAt(w, v', inode, anchors[inode]) {
      AnchorStays(w, v, n, inode, anchors[inode]);
    }
    if copied && n.what.inode !in anchors {
      NewAnchor(w, v', |v|);
    }
  }

  lemma NewAnchor(w: World, v: seq<Node>, k: nat)
    requires k < |v| && Placed(w, v, k) && !PlacedBefore(w, v, k)
    ensures AnchoredAt(w, v, v[k].what.inode, v[k].path)
  {
    assert Anchor(w, v, v[k].what.inode, k);
  }

  lemma StepMeans(w: World, s: State, n: Node)
    requires RunMeans(w, s) && !s.stopped
    requires forall i :: 0 <= i < |Handle(w, s, n).refused| ==> !Handle(w, s, n).refused[i].entry
    ensures RunMeans(w, Visit(w, s, n).0)
  {
    hide Handle, EntryMeans, Reached, Placed, SeenIs, AnchorsAre, Anchored, Stops, Entries;
    var o := Handle(w, s, n);
    var v, s', item := s.visited, Record(w, s, n, o), Item(n.path, o.status, true, o.verified);
    HandleMeans(w, s, n);
    EntriesAppend(s.items, o.refused, item);
    StopsStep(Entries(s.items), item);
    SeenStep(w, v, s.seen, n, s'.seen);
    AnchorsStep(w, v, s.anchors, n, o.act.Copied?);
    forall k: nat | k < |s'.visited| ensures EntryMeans(w, s'.visited, k, Entries(s'.items)[k], s'.acts[k]) {
      if k < |v| { EntryStays(w, v, n, k, Entries(s.items)[k], s.acts[k]); }
    }
  }

  // ---------------------------------------------------------------- what each entry led to

  /** The listing of the `k`-th entry visited was gone through. */
  ghost predicate Opens(w: World, v: seq<Node>, k: nat)
    requires k < |v|
  {
    var a := w.answers(k);
    && Reached(w, v, k) && v[k].what.kind.Directory? && !SeenBefore(w, v, k) && !a.existing.APlainFile?
    && a.body.None? && v[k].what.inode in w.listings
  }

  ghost function Sifting(w: World, v: seq<Node>, k: nat): Sifted
    requires k < |v|
  {
    if Opens(w, v, k) then Sift(w, v[k], w.listings[v[k].what.inode], w.answers(k).probes) else Sifted([], [], {})
  }

  /** The children queued, all of them unless the reservations could not be removed. */
  ghost function Kids(w: World, v: seq<Node>, k: nat): seq<Node>
    requires k < |v|
  {
    if w.answers(k).finish.None? then Sifting(w, v, k).queued else []
  }

  ghost predicate Merges(w: World, v: seq<Node>, k: nat)
    requires k < |v|
  {
    Reached(w, v, k) && v[k].what.kind.Directory? && !SeenBefore(w, v, k) && w.answers(k).existing.ADirectory?
  }

  ghost function KidsUpto(w: World, v: seq<Node>, k: nat): seq<Node>
    requires k <= |v|
  {
    if k == 0 then [] else KidsUpto(w, v, k - 1) + Kids(w, v, k - 1)
  }

  /** The items of the entries `es`, each after those of the children refused with it. */
  ghost function ReportUpto(w: World, v: seq<Node>, es: seq<Item>, k: nat): seq<Item>
    requires k <= |v| == |es|
  {
    if k == 0 then [] else ReportUpto(w, v, es, k - 1) + Sifting(w, v, k - 1).refused + [es[k - 1]]
  }

  ghost function MergedUpto(w: World, v: seq<Node>, k: nat): nat
    requires k <= |v|
  {
    if k == 0 then 0 else MergedUpto(w, v, k - 1) + if Merges(w, v, k - 1) then 1 else 0
  }

  /** Queued were the root and the children that each entry visited led to, in listing order;
      reported were the entries and the children refused, and nothing else; merged were the
      directories found there. */
  ghost predicate LeadsOn(w: World, root: Node, s: State, pending: seq<Node>) {
    var v := s.visited;
    && |Entries(s.items)| == |v|
    && s.queued == [root] + KidsUpto(w, v, |v|)
    && s.items == ReportUpto(w, v, Entries(s.items), |v|)
    && s.merged == MergedUpto(w, v, |v|)
    && forall k: nat :: k < |v| ==> InOrder(Ahead(v, pending), Kids(w, v, k))
  }

  /** Item `i` is that of a directory that completed, with times kept. */
  ghost predicate Waits(w: World, s: State, i: nat) {
    && w.times && i < |s.items| && s.items[i].entry && s.items[i].status.Completed?
    && var k := |Entries(s.items[..i])|; k < |s.visited| && s.visited[k].what.kind.Directory?
  }

  /** The entries whose times wait for the end are just those, in the order visited. */
  ghost predicate TimesMean(w: World, s: State) {
    Increasing(s.times) && forall i: nat :: i in s.times <==> Waits(w, s, i)
  }

  lemma KidsStay(w: World, v: seq<Node>, n: Node, k: nat)
    requires k < |v|
    ensures Sifting(w, v + [n], k) == Sifting(w, v, k) && Kids(w, v + [n], k) == Kids(w, v, k)
    ensures Merges(w, v + [n], k) == Merges(w, v, k)
  {
    hide Reached, SeenBefore, Placed, PlacedBefore, Sift;
    MeansStays(w, v, n, k);
  }

  lemma {:induction false} UptoStays(w: World, v: seq<Node>, n: Node, es: seq<Item>, item: Item, k: nat)
    requires k <= |v| == |es|
    ensures KidsUpto(w, v + [n], k) == KidsUpto(w, v, k) && MergedUpto(w, v + [n], k) == MergedUpto(w, v, k)
    ensures ReportUpto(w, v + [n], es + [item], k) == ReportUpto(w, v, es, k)
  {
    hide Sifting, Kids, Merges;
    if k == 0 {
    } else {
      UptoStays(w, v, n, es, item, k - 1);
      KidsStay(w, v, n, k - 1);
    }
  }

  /** Handling the next entry leads to just those children and refusals. */
  lemma HandleLeads(w: World, s: State, n: Node)
    requires RunMeans(w, s)
    ensures var o, v, k := Handle(w, s, n), s.visited + [n], |s.visited|;
      o.children == Kids(w, v, k) && o.refused == Sifting(w, v, k).refused && (o.merges <==> Merges(w, v, k))
  {
    hide Sift, EntryMeans, Stops, AnchorsAre, HandleFile, HandleOther;
    var v, k := s.visited + [n], |s.visited|;
    assert v[k] == n;
    SeenKnown(w, s, n);
    FilesMean(w, s, n, w.answers(k));
    hide SeenBefore, SeenIs;
  }

  lemma SeenKnown(w: World, s: State, n: Node)
    requires SeenIs(w, s.visited, s.seen)
    ensures SeenBefore(w, s.visited + [n], |s.visited|) <==> n.what.inode in s.seen
  {
    hide Reached;
    var v, k := s.visited + [n], |s.visited|;
    forall j: nat | j < k ensures Reached(w, v, j) == Reached(w, s.visited, j) && v[j] == s.visited[j] {
      MeansStays(w, s.visited, n, j);
    }
  }

  lemma StepLeads(w: World, root: Node, s: State, below: seq<Node>, n: Node)
    requires RunMeans(w, s) && LeadsOn(w, root, s, below + [n])
    ensures var (s', children) := Visit(w, s, n); LeadsOn(w, root, s', below + Reversed(children))
  {
    hide RunMeans, Handle, Kids, Sifting, Merges, InOrder, Entries, Ahead;
    var o := Handle(w, s, n);
    var v, es, s', item := s.visited, Entries(s.items), Record(w, s, n, o), Item(n.path, o.status, true, o.verified);
    OutcomeMeans(w, s, n);
    HandleLeads(w, s, n);
    EntriesAppend(s.items, o.refused, item);
    UptoStays(w, v, n, es, item, |v|);
    assert (es + [item])[|v|] == item;
    assert [root] + KidsUpto(w, v, |v|) + o.children == [root] + (KidsUpto(w, v, |v|) + o.children);
    StepOrder(w, v, below, n, o.children);
  }

  /** The children that each directory visited led to stay in order as more come. */
  lemma StepOrder(w: World, v: seq<Node>, below: seq<Node>, n: Node, children: seq<Node>)
    requires forall k: nat :: k < |v| ==> InOrder(Ahead(v, below + [n]), Kids(w, v, k))
    requires children == Kids(w, v + [n], |v|)
    ensures forall k: nat :: k < |v| + 1 ==>
      InOrder(Ahead(v + [n], below + Reversed(children)), Kids(w, v + [n], k))
  {
    hide Kids, InOrder, Ahead, Reversed;
    AheadStep(v, below, n, children);
    forall k: nat | k < |v| + 1 ensures InOrder(Ahead(v + [n], below + Reversed(children)), Kids(w, v + [n], k)) {
      if k < |v| {
        KidsStay(w, v, n, k);
        InOrderStill(v + [n], children, Reversed(below), Kids(w, v, k));
      } else {
        InOrderNew(v + [n], children, Reversed(below));
      }
    }
  }

  lemma StepTimes(w: World, s: State, n: Node, o: Outcome)
    requires TimesMean(w, s) && |Entries(s.items)| == |s.visited|
    requires forall i :: 0 <= i < |o.refused| ==> !o.refused[i].entry
    ensures TimesMean(w, Record(w, s, n, o))
  {
    hide Increasing, Entries;
    var s', last, item := Record(w, s, n, o), |s.items + o.refused|, Item(n.path, o.status, true, o.verified);
    NoEntries(s.items, o.refused);
    assert s'.items[..last] == s.items + o.refused && s'.items[last] == item;
    forall i: nat | i < |s.items| ensures Waits(w, s', i) == Waits(w, s, i) {
      assert s'.items[..i] == s.items[..i];
      if s.items[i].entry { EntryRank(s.items, i); }
    }
    assert forall i: nat :: |s.items| <= i < last ==> !s'.items[i].entry;
    TimesBelow(w, s);
    IncreasingMore(s.times, last);
  }

  lemma TimesBelow(w: World, s: State)
    requires TimesMean(w, s)
    ensures forall k :: 0 <= k < |s.times| ==> s.times[k] < |s.items| && s.items[s.times[k]].entry
    ensures forall k :: 0 <= k < |s.times| ==> s.items[s.times[k]].status.Completed?
  {
    forall k | 0 <= k < |s.times| ensures Waits(w, s, s.times[k]) {
      assert s.times[k] in s.times;
    }
  }

  // ---------------------------------------------------------------- whole walks

  /** What every turn keeps of the walk from `root`. */
  ghost predicate Good(w: World, root: Node, s: State, pending: seq<Node>) {
    && AllAccounted(root, s, pending) && RunMeans(w, s) && TimesMean(w, s) && LeadsOn(w, root, s, pending)
    && DepthFirst(Ahead(s.visited, pending))
  }

  lemma StepFirst(w: World, root: Node, s: State, below: seq<Node>, n: Node)
    requires AllAccounted(root, s, below + [n]) && DepthFirst(Ahead(s.visited, below + [n]))
    ensures var (s', children) := Visit(w, s, n); DepthFirst(Ahead(s'.visited, below + Reversed(children)))
  {
    hide Handle, Distinct, AllRooted, ChildrenOf, DepthFirst, ParentsFirst, Ahead, Entries, Reversed;
    OutcomeMeans(w, s, n);
    StepDepthFirst(SafeName, root, s.visited, below, n, Handle(w, s, n).children);
  }

  lemma StepGood(w: World, root: Node, s: State, pending: seq<Node>)
    requires Good(w, root, s, pending) && pending != [] && !s.stopped
    ensures var n, below := pending[|pending| - 1], pending[..|pending| - 1];
      var (s', children) := Visit(w, s, n); Good(w, root, s', below + Reversed(children))
  {
    hide AllAccounted, RunMeans, TimesMean, LeadsOn, DepthFirst, Ahead, Handle, Record, Reversed, Entries;
    var n, below := pending[|pending| - 1], pending[..|pending| - 1];
    assert pending == below + [n];
    EntriesKept(w, s);
    OutcomeMeans(w, s, n);
    StepKeeps(w, root, s, below, n);
    StepMeans(w, s, n);
    StepTimes(w, s, n, Handle(w, s, n));
    StepLeads(w, root, s, below, n);
    StepFirst(w, root, s, below, n);
  }

  lemma EntriesKept(w: World, s: State)
    requires RunMeans(w, s)
    ensures |s.acts| == |Entries(s.items)| == |s.visited|
  {
  }

  lemma StartGood(w: World, root: Node)
    ensures Good(w, root, Start(root), [root])
  {
    AccountedStart(SafeName, root);
  }

  /** Wherever a walk ends, every entry it visited came to what it means and led to what it
      leads to, and every entry queued was visited or is left. */
  lemma WalkMeans(w: World, root: Node)
    ensures Descends(Rules(w))
    ensures var e := Walk(Rules(w), Start(root), root); Good(w, root, e.state, Reversed(e.left))
  {
    hide Good, Descends, Walk, Visit;
    WalkDescends(w);
    var holds := (s, pending) => Good(w, root, s, pending);
    forall s, pending | holds(s, pending) && pending != [] && !Rules(w).stopped(s)
      ensures var n, below := pending[|pending| - 1], pending[..|pending| - 1];
        holds(Rules(w).visit(s, n).0, below + Reversed(Rules(w).visit(s, n).1))
    {
      StepGood(w, root, s, pending);
    }
    StartGood(w, root);
    OneWalks(Rules(w), Start(root), root);
    WalkKeeps(Rules(w), holds, Start(root), [root]);
  }

  /** Where a whole walk of the source ends. */
  ghost function Whole(w: World, root: Node): (e: End<State, Entry>)
    ensures |e.state.acts| == |Entries(e.state.items)| == |e.state.visited|
  {
    WalkMeans(w, root);
    Walk(Rules(w), Start(root), root)
  }

  /** What a whole walk of the source comes to, with one act and one item for each entry. */
  ghost function Final(w: World, root: Node): (s: State)
    ensures |s.acts| == |Entries(s.items)| == |s.visited|
  {
    Whole(w, root).state
  }

  lemma WholeMeans(w: World, root: Node)
    ensures RunMeans(w, Final(w, root)) && TimesMean(w, Final(w, root))
    ensures LeadsOn(w, root, Final(w, root), Reversed(Whole(w, root).left))
    ensures AllAccounted(root, Final(w, root), Reversed(Whole(w, root).left))
    ensures DepthFirst(Ahead(Final(w, root).visited, Reversed(Whole(w, root).left)))
  {
    hide Walk, RunMeans, TimesMean, LeadsOn, AllAccounted, DepthFirst, Ahead;
    WalkMeans(w, root);
  }

  /** The walk goes depth first: what lies below an entry is visited, or left, right after it,
      with nothing else in between. */
  lemma GoesDepthFirst(w: World, root: Node)
    ensures DepthFirst(Final(w, root).visited + Whole(w, root).left)
  {
    hide Whole, Final, AllAccounted, RunMeans, TimesMean, LeadsOn, DepthFirst, Ahead;
    WholeMeans(w, root);
    AheadIs(Final(w, root).visited, Whole(w, root).left);
  }

  lemma EntryMeant(w: World, root: Node, k: nat)
    requires k < |Final(w, root).acts|
    ensures var s := Final(w, root); EntryMeans(w, s.visited, k, Entries(s.items)[k], s.acts[k])
  {
    hide Final, EntryMeans;
    WholeMeans(w, root);
  }

  /** When an entry completes, from what the world answered to it: nothing stops it or goes
      wrong, and a file or link finds its name free, or a file in its place when replacing,
      both at first and when it is done. */
  lemma CompletesWhen(w: World, root: Node, k: nat)
    requires k < |Final(w, root).acts|
    ensures var s, a := Final(w, root), w.answers(k);
      var free := (e: Existing) => e == Existing.Nothing || (e.APlainFile? && w.replace);
      Entries(s.items)[k].status.Completed? <==>
        && !a.cancelled && s.visited[k].depth <= w.maxDepth && a.before.None? && a.body.None? && a.after.None?
        && match s.visited[k].what.kind
           case File => !a.earlier && free(a.existing) && free(a.there) && a.synced
           case Other => a.isLink && w.links && free(a.existing) && free(a.there) && a.synced
           case Directory =>
             && !SeenBefore(w, s.visited, k) && !a.existing.APlainFile?
             && s.visited[k].what.inode in w.listings && a.finish.None?
  {
    hide Final, SeenBefore, PlacedBefore, TroubledAs, ListedAs, AnchoredAt;
    EntryMeant(w, root, k);
  }

  /** Whatever cycles the source has, a whole walk enters no directory inode twice. */
  lemma EnteredOnce(w: World, root: Node, i: nat, j: nat)
    requires var s := Final(w, root); i < j < |s.acts| && s.acts[i].Entered? && s.acts[j].Entered?
    ensures var s := Final(w, root); s.visited[i].what.inode != s.visited[j].what.inode
  {
    hide Final;
    EntryMeant(w, root, i);
    EntryMeant(w, root, j);
  }

  /** With links kept, a further name of a file already copied is linked when it completes,
      and never copied. */
  lemma CopiedOnce(w: World, root: Node, i: nat, j: nat)
    requires var s := Final(w, root);
      && w.links && i < j < |s.acts| && s.acts[i].Copied?
      && s.visited[j].what.kind.File? && s.visited[i].what.inode == s.visited[j].what.inode
    ensures var s := Final(w, root);
      !s.acts[j].Copied? && (Entries(s.items)[j].status.Completed? ==> s.acts[j].HardLinked?)
  {
    hide Final, Named, TroubledAs, AnchoredAt;
    EntryMeant(w, root, i);
    EntryMeant(w, root, j);
    assert Placed(w, Final(w, root).visited, i);
  }

  /** A hard link is made only with links kept, and to the very path where a copy of the same
      file went before in the same walk. */
  lemma LinkedToACopy(w: World, root: Node, k: nat) returns (i: nat)
    requires var s := Final(w, root); k < |s.acts| && s.acts[k].HardLinked?
    ensures var s := Final(w, root);
      && w.links && i < k && s.acts[i].Copied? && s.visited[i].what.inode == s.visited[k].what.inode
      && s.acts[k].target == s.visited[i].path
  {
    hide Final, Placed, PlacedBefore, TroubledAs;
    var s := Final(w, root);
    EntryMeant(w, root, k);
    i :| Anchor(w, s.visited[..k], s.visited[k].what.inode, i) && s.acts[k].target == s.visited[..k][i].path;
    FirstIsCopied(w, s.visited, k, i);
    EntryMeant(w, root, i);
  }

  lemma FirstIsCopied(w: World, v: seq<Node>, k: nat, i: nat)
    requires k < |v| && Anchor(w, v[..k], v[k].what.inode, i)
    ensures i < k && v[..k][i] == v[i] && v[i].what.inode == v[k].what.inode
    ensures Placed(w, v, i) && !PlacedBefore(w, v, i)
  {
    forall j: nat | j <= i ensures Placed(w, v[..k], j) == Placed(w, v, j) && v[..k][j] == v[j] {}
  }

  /** A whole walk loses nothing that was there: what is given a name at the destination, file
      or link, durably or not, takes the place of nothing, or of a file when replacing, as
      things stand at that moment. */
  lemma NothingLost(w: World, root: Node, k: nat)
    requires var s := Final(w, root);
      k < |s.acts| && (s.acts[k].Copied? || s.acts[k].HardLinked? || s.acts[k].SymLinked? || s.acts[k].Unsynced?)
    ensures !w.answers(k).there.ADirectory? && (w.answers(k).there.APlainFile? ==> w.replace)
  {
    hide Final, PlacedBefore, SeenBefore, TroubledAs, AnchoredAt;
    EntryMeant(w, root, k);
  }

  lemma StopsMeant(w: World, root: Node)
    ensures Stops(Entries(Final(w, root).items), Final(w, root).stopped)
  {
    hide Final, EntryMeans, SeenIs, AnchorsAre;
    WholeMeans(w, root);
  }

  /** A walk stops exactly when a signal cancels an entry, which is then the last it visits. */
  lemma StopsAtASignal(w: World, root: Node)
    ensures var s, es := Final(w, root), Entries(Final(w, root).items);
      && (s.stopped <==> exists k :: 0 <= k < |es| && es[k].status.Cancelled?)
      && forall k :: 0 <= k < |es| && es[k].status.Cancelled? ==> k == |s.visited| - 1
  {
    hide Final, Stops, Entries;
    StopsMeant(w, root);
    StopsMean(Entries(Final(w, root).items), Final(w, root).stopped);
  }

  /** No child is lost: of a directory whose listing is gone through, each child is visited in
      its turn or left by a signal, under its name and one level down, if it is the first
      safe spelling of its name that can be reserved; and any other is reported at once. */
  lemma EveryChildComes(w: World, root: Node, k: nat, c: nat)
    requires var v := Final(w, root).visited;
      k < |v| && Opens(w, v, k) && c < |w.listings[v[k].what.inode]|
    ensures var s, e := Final(w, root), Whole(w, root);
      var parent, kids, probes := s.visited[k], w.listings[s.visited[k].what.inode], w.answers(k).probes;
      var path := parent.path + [kids[c].name];
      && (w.answers(k).finish.None? && First(w, kids, probes, c) ==>
            TreeWalk.Node(path, parent.depth + 1, Entry(kids[c].kind, kids[c].inode)) in s.visited + e.left)
      && (!First(w, kids, probes, c) ==>
            Item(path, if SafeName(kids[c].name) && probes(c).Fails? then Failed else Refused, false, false) in s.items)
  {
    hide Whole, Final, AllAccounted, RunMeans, TimesMean, LeadsOn, Reached, SeenBefore, Sift, First;
    var s, e := Final(w, root), Whole(w, root);
    var kids := w.listings[s.visited[k].what.inode];
    WholeMeans(w, root);
    FirstSpellingWins(w, s.visited[k], kids, w.answers(k).probes, c);
    KidsReported(w, root, s, Reversed(e.left), k);
    AheadIs(s.visited, e.left);
  }

  lemma AheadIs(visited: seq<Node>, left: seq<Node>)
    ensures Ahead(visited, Reversed(left)) == visited + left
  {
    ReversedTwice(left);
  }

  lemma KidsReported(w: World, root: Node, s: State, pending: seq<Node>, k: nat)
    requires LeadsOn(w, root, s, pending) && k < |s.visited|
    ensures forall n :: n in Kids(w, s.visited, k) ==> n in Ahead(s.visited, pending)
    ensures forall i :: i in Sifting(w, s.visited, k).refused ==> i in s.items
  {
    hide Kids, Sifting, Ahead;
    ReportedUpto(w, s.visited, Entries(s.items), |s.visited|, k);
    assert InOrder(Ahead(s.visited, pending), Kids(w, s.visited, k));
    forall n | n in Kids(w, s.visited, k) ensures n in Ahead(s.visited, pending) {
      var a :| 0 <= a < |Kids(w, s.visited, k)| && Kids(w, s.visited, k)[a] == n;
    }
  }

  lemma {:induction false} ReportedUpto(w: World, v: seq<Node>, es: seq<Item>, n: nat, k: nat)
    requires k < n <= |v| == |es|
    ensures forall i :: i in Sifting(w, v, k).refused ==> i in ReportUpto(w, v, es, n)
  {
    hide Sifting;
    if k == n - 1 {
    } else {
      ReportedUpto(w, v, es, n - 1, k);
    }
  }

  /** Nothing else comes: what is visited or left is the root, or a child that a visited
      directory led to. */
  lemma NothingElseComes(w: World, root: Node, n: Node)
    requires n in Final(w, root).visited + Whole(w, root).left
    ensures var v := Final(w, root).visited;
      n == root || exists k: nat :: k < |v| && n in Kids(w, v, k)
  {
    hide Whole, Final, RunMeans, TimesMean, Kids;
    var s, e := Final(w, root), Whole(w, root);
    WholeMeans(w, root);
    ReversedIs(e.left);
    var pending := Reversed(e.left);
    assert multiset(s.visited + e.left) == multiset(s.visited + pending) == multiset(s.queued);
    assert n in multiset(s.visited + e.left);
    assert n in s.queued;
    if n != root { FromKids(w, s.visited, |s.visited|, n); }
  }

  lemma {:induction false} FromKids(w: World, v: seq<Node>, m: nat, n: Node)
    requires m <= |v| && n in KidsUpto(w, v, m)
    ensures exists k: nat :: k < m && n in Kids(w, v, k)
  {
    hide Kids;
    if n in Kids(w, v, m - 1) {
    } else {
      FromKids(w, v, m - 1, n);
    }
  }

  /** Children queued together are visited, or left, in listing order. */
  lemma SiblingsInOrder(w: World, root: Node, k: nat, c: nat, d: nat)
    requires var v := Final(w, root).visited;
      k < |v| && Opens(w, v, k) && w.answers(k).finish.None? && c < d < |w.listings[v[k].what.inode]|
    requires var v := Final(w, root).visited;
      var kids, probes := w.listings[v[k].what.inode], w.answers(k).probes;
      First(w, kids, probes, c) && First(w, kids, probes, d)
    ensures var s, e := Final(w, root), Whole(w, root);
      var parent, kids := s.visited[k], w.listings[s.visited[k].what.inode];
      Before(s.visited + e.left, ChildNode(parent, kids[c]), ChildNode(parent, kids[d]))
  {
    hide Whole, Final, AllAccounted, RunMeans, TimesMean, Reached, SeenBefore, Sift, First, Before;
    var s, e := Final(w, root), Whole(w, root);
    var parent, kids := s.visited[k], w.listings[s.visited[k].what.inode];
    WholeMeans(w, root);
    var a, b := SiftedInOrder(w, parent, kids, w.answers(k).probes, c, d);
    AheadIs(s.visited, e.left);
    assert InOrder(Ahead(s.visited, Reversed(e.left)), Kids(w, s.visited, k));
  }

  // ---------------------------------------------------------------- the export

  /** The walk's own variables: the stack, and everything the report is made from. */
  class Traversal {
    const w: World
    var pending: seq<Node>
    var seen: set<nat>
    var anchors: map<nat, Path>
    var items: seq<Item>
    var counts: Counts
    var skips: nat
    var merged: nat
    var times: seq<nat>
    var visits: nat
    var stopped: bool
    ghost var did: Act
    ghost var s: State

    constructor (w: World, root: Node)
      ensures this.w == w && pending == [root] && s == Start(root) && Current()
    {
      this.w := w;
      pending, seen, anchors, items, counts := [root], {}, map[], [], NONE;
      skips, merged, times, visits, stopped := 0, 0, [], 0, false;
      s := Start(root);
    }

    /** The variables hold what `s` says. */
    ghost predicate Current()
      reads this
    {
      && s == State(s.visited, s.queued, s.acts, seen, anchors, items, times, merged, stopped)
      && visits == |s.visited| && counts == Tally(items) && skips == Skips(items)
    }

    /** Sort the children of a directory into those to queue and those refused, which are
        reported at once. */
    method SiftChildren(parent: Node, kids: seq<Child>, probes: nat -> Probe) returns (queued: seq<Node>)
      requires counts == Tally(items) && skips == Skips(items)
      modifies this`items, this`counts
      ensures queued == Sift(w, parent, kids, probes).queued
      ensures items == old(items) + Sift(w, parent, kids, probes).refused
      ensures counts == Tally(items) && skips == Skips(items)
    {
      hide Tally, Skips;
      var taken: set<string> := {};
      queued := [];
      for i := 0 to |kids|
        invariant queued == Sift(w, parent, kids[..i], probes).queued
          && taken == Sift(w, parent, kids[..i], probes).taken
        invariant items == old(items) + Sift(w, parent, kids[..i], probes).refused
        invariant counts == Tally(items) && skips == Skips(items)
      {
        assert kids[..i + 1][..i] == kids[..i];
        var path, key := parent.path + [kids[i].name], w.fold(kids[i].name);
        var refusal := None;
        if !SafeName(kids[i].name) {
          refusal := Some(Refused);
        } else {
          var probe := probes(i);
          match probe
          case Fails(marked) =>
            refusal := Some(Failed);
            taken := if marked then taken + {key} else taken;
          case Works =>
            if key in taken {
              refusal := Some(Refused);
            } else {
              queued := queued + [TreeWalk.Node(path, parent.depth + 1, Entry(kids[i].kind, kids[i].inode))];
              taken := taken + {key};
            }
        }
        if refusal.Some? {
          var item := Item(path, refusal.value, false, false);
          TallyAppend(items, item);
          counts := Counted(counts, refusal.value);
          items := items + [item];
        }
      }
      assert kids[..|kids|] == kids;
    }

    /** Go through a listing, and queue the children unless the reservations cannot be
        removed. */
    method GoThrough(n: Node, kids: seq<Child>, a: Answers) returns (r: Status)
      requires counts == Tally(items) && skips == Skips(items)
      modifies this`pending, this`items, this`counts
      ensures r == if a.finish.Some? then StatusOf(a.finish.value) else Completed
      ensures var sifted := Sift(w, n, kids, a.probes);
        && items == old(items) + sifted.refused
        && pending == if a.finish.Some? then old(pending) else old(pending) + Reversed(sifted.queued)
      ensures counts == Tally(items) && skips == Skips(items)
    {
      hide Sift, Tally, Skips, Reversed;
      var queued := SiftChildren(n, kids, a.probes);
      if a.finish.Some? {
        return StatusOf(a.finish.value);
      }
      pending := Push(pending, queued);
      r := Completed;
    }

    method AttemptDirectory(n: Node, a: Answers) returns (r: Status)
      requires counts == Tally(items) && skips == Skips(items) && seen == s.seen
      requires did == Act.Nothing
      modifies this`pending, this`seen, this`merged, this`items, this`counts, this`did
      ensures var o := HandleDirectory(w, s, n, a);
        && r == o.status && did == o.act && pending == old(pending) + Reversed(o.children)
        && seen == (if o.act.Entered? then old(seen) + {n.what.inode} else old(seen))
        && merged == old(merged) + (if o.merges then 1 else 0) && items == old(items) + o.refused
      ensures counts == Tally(items) && skips == Skips(items)
    {
      hide Sift, Tally, Skips, Reversed;
      assert Reversed<Entry>([]) == [] by { ReversedIs<Entry>([]); }
      if n.what.inode in seen {
        return Refused;
      }
      seen := seen + {n.what.inode};
      did := Entered;
      if a.existing.APlainFile? {
        return Refused;
      }
      if a.existing.ADirectory? {
        merged := merged + 1;
      }
      if a.body.Some? {
        return StatusOf(a.body.value);
      }
      if n.what.inode !in w.listings {
        return Failed;
      }
      r := GoThrough(n, w.listings[n.what.inode], a);
    }

    /** Give what was made its name. */
    method PlaceAt(a: Answers, act: Act) returns (r: Status)
      requires did == Act.Nothing
      modifies this`did
      ensures r == Place(w, a, act).status && did == Place(w, a, act).act
    {
      if a.body.Some? {
        return StatusOf(a.body.value);
      }
      if a.there.ADirectory? || (a.there.APlainFile? && !w.replace) {
        return Failed;
      }
      if !a.synced {
        did := Unsynced;
        return Failed;
      }
      did := act;
      r := Completed;
    }

    method AttemptFile(n: Node, a: Answers) returns (r: Status, verified: bool)
      requires anchors == s.anchors && did == Act.Nothing
      modifies this`anchors, this`did
      ensures var o := HandleFile(w, s, n, a);
        && r == o.status && did == o.act && verified == o.verified
        && anchors == if o.act.Copied? then Anchored(old(anchors), n) else old(anchors)
    {
      if a.earlier {
        return Skipped, true;
      }
      if a.existing.ADirectory? || (a.existing.APlainFile? && !w.replace) {
        return Refused, false;
      }
      verified := false;
      if w.links && n.what.inode in anchors {
        r := PlaceAt(a, HardLinked(anchors[n.what.inode]));
        return;
      }
      r := PlaceAt(a, Copied);
      if r.Completed? && n.what.inode !in anchors {
        anchors := anchors[n.what.inode := n.path];
      }
    }

    method AttemptOther(a: Answers) returns (r: Status)
      requires did == Act.Nothing
      modifies this`did
      ensures r == HandleOther(w, a).status && did == HandleOther(w, a).act
    {
      if !a.isLink {
        return Skipped;
      }
      if !w.links || a.existing.ADirectory? || (a.existing.APlainFile? && !w.replace) {
        return Refused;
      }
      r := PlaceAt(a, SymLinked);
    }

    /** Handle one entry, queueing what it leads to. */
    method Attempt(n: Node) returns (r: Status, verified: bool)
      requires Current()
      modifies this`pending, this`seen, this`anchors, this`merged, this`items, this`counts, this`did
      ensures var o := Handle(w, s, n);
        && r == o.status && did == o.act && verified == o.verified && pending == old(pending) + Reversed(o.children)
        && seen == (if o.act.Entered? then old(seen) + {n.what.inode} else old(seen))
        && anchors == (if o.act.Copied? then Anchored(old(anchors), n) else old(anchors))
        && merged == old(merged) + (if o.merges then 1 else 0) && items == old(items) + o.refused
      ensures counts == Tally(items) && skips == Skips(items)
    {
      hide HandleDirectory, HandleFile, HandleOther, Tally, Skips;
      DirectoryMeans(w, s, n, w.answers(visits));
      FilesMean(w, s, n, w.answers(visits));
      var a := w.answers(visits);
      did := Act.Nothing;
      if a.cancelled {
        return Cancelled, false;
      }
      if n.depth > w.maxDepth {
        return Failed, false;
      }
      if a.before.Some? {
        return StatusOf(a.before.value), false;
      }
      verified := false;
      match n.what.kind {
        case File => r, verified := AttemptFile(n, a);
        case Other => r := AttemptOther(a);
        case Directory => r := AttemptDirectory(n, a);
      }
      if r.Completed? && a.after.Some? {
        r := StatusOf(a.after.value);
      }
    }

    /** Pop one entry, handle it and report it. */
    method Step()
      requires Current() && pending != [] && !stopped
      modifies this
      ensures Current()
      ensures var n, below := old(pending[|pending| - 1]), old(pending[..|pending| - 1]);
        var o := Handle(w, old(s), n);
        s == Record(w, old(s), n, o) && pending == below + Reversed(o.children)
    {
      hide Handle, Tally, Skips, Reversed, Record;
      var n := pending[|pending| - 1];
      pending := pending[..|pending| - 1];
      var status, verified := Attempt(n);
      AddItem(n, status, verified, Handle(w, s, n));
    }

    /** Put one item in the report and count it. */
    method Tell(item: Item)
      requires counts == Tally(items) && skips == Skips(items)
      modifies this`items, this`counts, this`skips
      ensures items == old(items) + [item] && counts == Tally(items) && skips == Skips(items)
    {
      hide Tally, Skips, Counted;
      TallyAppend(items, item);
      counts := Counted(counts, item.status);
      skips := if item.verified then skips + 1 else skips;
      items := items + [item];
    }

    /** Report one entry that has been handled. */
    method AddItem(n: Node, status: Status, verified: bool, ghost o: Outcome)
      requires status == o.status && verified == o.verified && visits == |s.visited| && times == s.times
        && stopped == s.stopped
      requires seen == (if o.act.Entered? then s.seen + {n.what.inode} else s.seen)
      requires anchors == (if o.act.Copied? then Anchored(s.anchors, n) else s.anchors)
      requires merged == s.merged + (if o.merges then 1 else 0) && items == s.items + o.refused
      requires counts == Tally(items) && skips == Skips(items)
      modifies this`items, this`counts, this`skips, this`times, this`visits, this`stopped, this`s
      ensures Current() && s == Record(w, old(s), n, o)
    {
      hide Tally, Skips, Counted, Record, Anchored;
      if status.Completed? && w.times && n.what.kind.Directory? {
        times := times + [|items|];
      }
      Tell(Item(n.path, status, true, verified));
      visits, stopped := visits + 1, status.Cancelled?;
      RecordIs(w, s, n, o, seen, anchors, items, times, merged);
      s := Record(w, s, n, o);
    }
  }

  lemma RecordIs(w: World, s: State, n: Node, o: Outcome, seen: set<nat>, anchors: map<nat, Path>, items: seq<Item>,
                 times: seq<nat>, merged: nat)
    requires seen == (if o.act.Entered? then s.seen + {n.what.inode} else s.seen)
    requires anchors == (if o.act.Copied? then Anchored(s.anchors, n) else s.anchors)
    requires items == s.items + o.refused + [Item(n.path, o.status, true, o.verified)]
    requires times ==
      if o.status.Completed? && w.times && n.what.kind.Directory? then s.times + [|items| - 1] else s.times
    requires merged == s.merged + (if o.merges then 1 else 0)
    ensures Record(w, s, n, o) == State(s.visited + [n], s.queued + o.children, s.acts + [o.act], seen, anchors,
      items, times, merged, o.status.Cancelled?)
  {
  }

  /** `order` is the items whose times were set, in the order that was done. */
  datatype Report = Report(items: seq<Item>, counts: Counts, merged: nat, left: seq<Node>, order: seq<nat>,
                           stopped: bool, code: nat)

  /** Export everything under `root`. The walk visits what the recursive walk visits, in its
      order, and stops where it stops. Every entry queued is visited, and then reported as
      one item that says what it came to, or is left over after a signal; the entries queued
      are those that the directories visited lead to. The counts are those of the items. Times
      are set on just the directories that completed, on what lies below a directory before
      the directory. */
  method Export(w: World, root: Node, verdict: nat -> Option<Status>, signal: nat) returns (r: Report)
    requires forall i: nat :: verdict(i).Some? ==> verdict(i).value.Failed?
    ensures Descends(Rules(w))
    ensures var e := Walk(Rules(w), Start(root), root);
      && Good(w, root, e.state, Reversed(e.left)) && AllAccounted(root, e.state, e.left)
      && (!r.stopped ==> e.left == [])
      && r.left == e.left && r.stopped == e.state.stopped
      && r.merged == MergedUpto(w, e.state.visited, |e.state.visited|)
      && (r.stopped ==> r.items == e.state.items)
      && (!r.stopped ==> Deferred(e.state.items, r.items, e.state.times, verdict, 0))
      && (forall i: nat :: i in r.order <==> !r.stopped && Waits(w, e.state, i))
      && BelowFirst(e.state.items, r.order)
    ensures r.counts == Tally(r.items)
    ensures r.code == if r.stopped then 128 + signal else ExitCode(r.counts, Skips(r.items))
    ensures !r.stopped ==> (r.code == 0 <==> forall i :: 0 <= i < |r.items| ==> IsThere(r.items[i]))
  {
    hide Handle, Record, Walk, WalkAll, Accounted, Deferred, Unseen, Reversed, Descends, Total, Good, BelowFirst,
      MergedUpto, Waits, Increasing;
    var t := new Traversal(w, root);
    WalkDescends(w);
    OneWalks(Rules(w), Start(root), root);
    while t.pending != [] && !t.stopped
      invariant fresh(t) && t.w == w && t.Current()
      invariant WalkAll(Rules(w), t.s, Reversed(t.pending)) == Walk(Rules(w), Start(root), root)
      decreases |Unseen(w, t.s)|, Total(Rules(w), t.pending)
    {
      ghost var n, below := t.pending[|t.pending| - 1], t.pending[..|t.pending| - 1];
      assert t.pending == below + [n];
      PopWalks(Rules(w), t.s, below, n);
      PopShrinks(Rules(w), t.s, below, n);
      t.Step();
    }
    Ended(Rules(w), t.s, t.pending);
    ghost var left := Reversed(t.pending);
    GoodEnd(w, root, t.s, left);
    TimesBelow(w, t.s);
    var pushed := Push([], t.pending);
    assert pushed == left;
    var items, counts, order := SetTimes(t.items, t.counts, t.times, verdict, t.stopped);
    forall a | 0 <= a < |order| ensures order[a] in order {}
    BackwardsIsBelowFirst(SafeName, root, t.s.visited, t.s.queued, t.s.items, left, order);
    if !t.stopped {
      DeferredMarked(t.items, items, t.times, verdict);
      ExitMeans(items);
    }
    r := Report(items, counts, t.merged, pushed, order, t.stopped,
                if t.stopped then 128 + signal else ExitCode(counts, t.skips));
  }

  /** What the end of a walk has to offer to the work that is left until then. */
  lemma GoodEnd(w: World, root: Node, s: State, left: seq<Node>)
    requires Descends(Rules(w)) && Walk(Rules(w), Start(root), root) == End(s, left)
    ensures Good(w, root, s, Reversed(left)) && AllAccounted(root, s, left) && Marked(s.items)
    ensures s.merged == MergedUpto(w, s.visited, |s.visited|) && TimesMean(w, s)
  {
    hide Walk, RunMeans, TimesMean, Entries, KidsUpto, ReportUpto, Kids, Ahead, InOrder, Reversed, Descends, MergedUpto,
      Marked, DepthFirst;
    WalkMeans(w, root);
    AccountedReversed(SafeName, root, s.visited, s.queued, s.items, Reversed(left));
    ReversedTwice(left);
  }

  // ---------------------------------------------------------------- link targets

  datatype Component = RootDir | Prefix | ParentDir | Normal | CurDir

  /** How far below where it starts a path ends. */
  function Height(target: seq<Component>): int {
    if target == [] then 0
    else Height(target[..|target| - 1]) + match target[|target| - 1]
      case ParentDir => -1
      case Normal => 1
      case _ => 0
  }

  /** Part of the way along, the path is absolute or has climbed above the destination. */
  ghost predicate LeavesAt(target: seq<Component>, depth: nat, k: nat) {
    k < |target| && (target[k].RootDir? || target[k].Prefix? || depth + Height(target[..k + 1]) < 0)
  }

  method TargetEscapes(target: seq<Component>, parentDepth: nat) returns (escapes: bool)
    ensures escapes <==> exists k: nat :: LeavesAt(target, parentDepth, k)
  {
    var depth := parentDepth;
    for i := 0 to |target|
      invariant depth == parentDepth + Height(target[..i])
      invariant forall k: nat :: k < i ==> !LeavesAt(target, parentDepth, k)
    {
      assert target[..i + 1][..i] == target[..i];
      match target[i]
      case RootDir => assert LeavesAt(target, parentDepth, i); return true;
      case Prefix => assert LeavesAt(target, parentDepth, i); return true;
      case ParentDir =>
        if depth == 0 {
          assert LeavesAt(target, parentDepth, i);
          return true;
        }
        depth := depth - 1;
      case Normal => depth := depth + 1;
      case CurDir =>
    }
    escapes := false;
  }
}
