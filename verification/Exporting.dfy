/** Publishing an export all at once: a staging file beside the destination, filled, synced,
    optionally read back, and given its real name in one step, while other processes go on
    changing the same directory. */
module Exporting {
  import opened Common
  import opened Copying
  import opened StagingNames

  /** Entries, by what the directory counts their names as: names it counts as the same are
      one entry. */
  type Names = map<string, nat>

  /** What the directory and its files hold at one moment: entries, folders among the
      objects named, contents, and the objects whose contents are durable. */
  datatype Snap = Snap(names: Names, folders: set<nat>, data: map<nat, Bytes>, synced: set<nat>)

  /** One change this process made. */
  datatype Change = Change(before: Snap, after: Snap)

  datatype Error =
    | IsDirectory
    | Exists
    | NoParent
    | NoStaging
    | Copy(error: Copying.Error)
    | Stage
    | CancelledAt(bytes: nat)
    | Mismatch
    | PublishFailed
    | PublishedStagingLeft
    | PublishedNotSynced

  datatype Done = Done(bytes: nat, sha256: string, replaced: bool)

  // ---------------------------------------------------------------- the directory

  /** The directory holds an object under a name, or not. */
  predicate SameEntry(a: Names, b: Names, name: string) {
    (name in a <==> name in b) && (name in a ==> a[name] == b[name])
  }

  predicate SameData(a: map<nat, Bytes>, b: map<nat, Bytes>, i: nat) {
    (i in a <==> i in b) && (i in a ==> a[i] == b[i])
  }

  /** What other processes leave alone: the staging name and the file behind it. */
  predicate Spares(a: Snap, b: Snap, staging: string, ino: nat) {
    && SameEntry(a.names, b.names, staging) && SameData(a.data, b.data, ino)
    && (ino in a.synced <==> ino in b.synced) && (ino in a.folders <==> ino in b.folders)
    && (forall n | n in b.names :: b.names[n] == ino ==> n in a.names && a.names[n] == ino)
  }

  /** A change to one entry and one object at most. */
  ghost predicate Touches(c: Change, name: string, ino: nat) {
    && (forall n :: n != name ==> SameEntry(c.before.names, c.after.names, n))
    && (forall i :: i != ino ==> SameData(c.before.data, c.after.data, i))
  }

  /** A change that creates an empty file, not yet durable, under a name nobody had. */
  ghost predicate Creates(c: Change, name: string, ino: nat) {
    && Touches(c, name, ino) && name !in c.before.names
    && name in c.after.names && c.after.names[name] == ino
    && ino in c.after.data && c.after.data[ino] == [] && ino !in c.after.synced
  }

  // ---------------------------------------------------------------- what its calls met

  datatype Call = Looking | Creating | Renaming | Linking | Removing | Syncing

  /** One call about a name: whether somebody had the name at that moment, and as a folder,
      and whether the call failed for a reason of its own. */
  datatype Met = Met(call: Call, name: string, taken: bool, folder: bool, failed: bool)

  function Meets(call: Call, name: string, s: Snap, failed: bool): Met {
    Met(call, name, name in s.names, name in s.names && s.names[name] in s.folders, failed)
  }

  /** A call that stands in the way of an export. A look that fails counts as a name nobody
      has, and a staging name that is taken leads to the next. */
  predicate Bars(m: Met, replace: bool) {
    match m.call
    case Looking => !m.failed && m.taken && (m.folder || !replace)
    case Renaming => m.failed || m.folder
    case Linking => m.failed || m.taken
    case _ => m.failed
  }

  ghost predicate Smooth(met: seq<Met>, from: nat, replace: bool) {
    forall k :: from <= k < |met| ==> !Bars(met[k], replace)
  }

  /** A staging name was free, and was created. */
  ghost predicate Begun(met: seq<Met>, from: nat) {
    exists k :: from <= k < |met| && met[k].call.Creating? && !met[k].taken && !met[k].failed
  }

  /** The first `n` staging names were tried in turn, and all were taken. */
  ghost predicate Crowded(met: seq<Met>, from: nat, n: nat, fold: Folding, name: string, pid: nat) {
    && from + n <= |met|
    && forall k :: from <= k < from + n ==>
         met[k].call.Creating? && met[k].taken && met[k].name == Fold(fold, StagingName(name, pid, k - from))
  }

  class Directory {
    var now: Snap
    var next: nat
    var mine: Option<(string, nat)>
    const fold: Folding
    const faithful: bool
    ghost var log: seq<Change>
    ghost var stuck: bool
    ghost var met: seq<Met>

    /** Objects are numbered from below; the staging file, while there is one, is a plain
        file that nothing else names. */
    predicate Valid()
      reads this
    {
      && (forall n | n in now.names :: now.names[n] < next)
      && (mine.Some? ==> Staged(mine.value.0, mine.value.1))
    }

    predicate Staged(staging: string, ino: nat)
      reads this
    {
      && staging in now.names && now.names[staging] == ino
      && ino in now.data && ino !in now.folders && ino < next
      && forall n | n in now.names :: now.names[n] == ino ==> n == staging
    }

    /** `fold` says how the directory tells names apart; the names its methods take are
        folded already. `faithful` says that files read back as what they hold. */
    constructor (names: Names, folders: set<nat>, data: map<nat, Bytes>, next: nat, fold: Folding, faithful: bool)
      requires forall n | n in names :: names[n] < next
      ensures Valid() && now == Snap(names, folders, data, {}) && mine.None? && log == [] && !stuck && met == []
      ensures this.fold == fold && this.faithful == faithful
    {
      now, this.next, mine, log, stuck, met := Snap(names, folders, data, {}), next, None, [], false, [];
      this.fold, this.faithful := fold, faithful;
    }

    /** Other processes change whatever they like, but for the staging file. */
    method Others()
      requires Valid()
      modifies this`now, this`next
      ensures Valid() && next >= old(next)
      ensures mine.Some? ==> Spares(old(now), now, mine.value.0, mine.value.1)
    {
      var after: Snap := *;
      var limit: nat := *;
      if limit >= next && (forall n | n in after.names :: after.names[n] < limit)
         && (mine.Some? ==> Spares(now, after, mine.value.0, mine.value.1)) {
        now, next := after, limit;
      }
    }

    /** What a name stands for, and whether that is a folder; a look that fails finds nothing. */
    method Lookup(name: string) returns (found: Option<nat>, folder: bool)
      requires Valid() && mine.None?
      modifies this`now, this`next, this`met
      ensures Valid() && next >= old(next)
      ensures |met| == |old(met)| + 1 && met[..|old(met)|] == old(met)
      ensures var m := met[|old(met)|];
        && m == Meets(Looking, name, now, m.failed)
        && found == (if m.taken && !m.failed then Some(now.names[name]) else None)
        && (folder <==> found.Some? && m.folder)
    {
      Others();
      var failed: bool := *;
      met := met + [Meets(Looking, name, now, failed)];
      if name in now.names && !failed {
        return Some(now.names[name]), now.names[name] in now.folders;
      }
      found, folder := None, false;
    }

    /** Create a file under a name nobody has; an error says whether somebody has it. */
    method CreateNew(name: string) returns (r: Result<nat, bool>, ghost before: Snap)
      requires Valid() && mine.None?
      modifies this
      ensures Valid() && next >= old(next)
      ensures stuck == old(stuck) && met == old(met) + [Meets(Creating, name, before, r == Err(false))]
      ensures r.Err? ==> (r.error <==> name in before.names)
      ensures r.Ok? ==>
        && mine == Some((name, r.value)) && old(next) <= r.value
        && log == old(log) + [Change(before, now)] && Creates(Change(before, now), name, r.value)
      ensures r.Err? ==> mine.None? && log == old(log)
    {
      Others();
      before := now;
      var failed: bool := *;
      failed := failed && name !in now.names;
      met := met + [Meets(Creating, name, now, failed)];
      if name in now.names {
        return Err(true), before;
      }
      if failed {
        return Err(false), before;
      }
      var ino := next;
      now := Snap(now.names[name := ino], now.folders - {ino}, now.data[ino := []], now.synced - {ino});
      next := next + 1;
      mine := Some((name, ino));
      log := log + [Change(before, now)];
      r := Ok(ino);
    }

    /** Give the staging file other contents. */
    method Fill(bytes: Bytes) returns (ghost before: Snap)
      requires Valid() && mine.Some?
      modifies this`now, this`next, this`log
      ensures Valid() && next >= old(next)
      ensures log == old(log) + [Change(before, now)] && now.names == before.names
      ensures Touches(Change(before, now), mine.value.0, mine.value.1)
      ensures now.data[mine.value.1] == bytes
    {
      Others();
      before := now;
      now := now.(data := now.data[mine.value.1 := bytes], synced := now.synced - {mine.value.1});
      log := log + [Change(before, now)];
    }

    /** Read some of the staging file from `at` on; nothing means its end. A disk that is not
        faithful may answer anything. */
    method ReadStaging(w: World, at: nat) returns (more: Bytes)
      requires Valid() && mine.Some? && w.looked
      modifies this`now, this`next, w`looked
      ensures Valid() && next >= old(next) && Spares(old(now), now, mine.value.0, mine.value.1)
      ensures faithful ==>
        var held := now.data[mine.value.1];
        (more == [] <==> at >= |held|) && (more != [] ==> at + |more| <= |held| && more == held[at..at + |more|])
    {
      w.looked := false;
      Others();
      more := *;
      if faithful {
        var held, n: nat := now.data[mine.value.1], *;
        more := if at >= |held| then [] else held[at..at + Max(1, Min(n, |held| - at))];
      }
    }

    /** Make the staging file's contents durable. */
    method Sync(w: World) returns (ok: bool)
      requires Valid() && mine.Some?
      modifies this`now, this`next, w`trouble, w`looked
      ensures Valid() && next >= old(next) && w.trouble == old(w.trouble) + if ok then {} else {Device}
      ensures now.data[mine.value.1] == old(now.data[mine.value.1])
      ensures ok ==> mine.value.1 in now.synced
      ensures !w.looked
    {
      w.looked := false;
      Others();
      var f := w.Fails(Device);
      if f {
        return false;
      }
      now := now.(synced := now.synced + {mine.value.1});
      ok := true;
    }

    /** Give the staging file the destination's name in place of whatever file has it. */
    method Rename(dest: string) returns (ok: bool, ghost before: Snap)
      requires Valid() && mine.Some?
      modifies this
      ensures Valid() && next >= old(next)
      ensures stuck == old(stuck) && |met| == |old(met)| + 1 && met[..|old(met)|] == old(met)
      ensures var m := met[|old(met)|];
        m == Meets(Renaming, dest, before, m.failed) && (ok <==> !m.failed && !m.folder)
      ensures ok ==>
        var (staging, ino) := old(mine.value);
        && mine.None? && log == old(log) + [Change(before, now)]
        && now == before.(names := (before.names - {staging})[dest := ino])
        && Spares(old(now), before, staging, ino)
        && (dest in before.names ==> before.names[dest] !in before.folders)
      ensures !ok ==> mine == old(mine) && log == old(log) && Spares(old(now), now, mine.value.0, mine.value.1)
    {
      Others();
      before := now;
      var failed: bool := *;
      met := met + [Meets(Renaming, dest, now, failed)];
      if failed || (dest in now.names && now.names[dest] in now.folders) {
        return false, before;
      }
      var (staging, ino) := mine.value;
      now := now.(names := (now.names - {staging})[dest := ino]);
      mine := None;
      log := log + [Change(before, now)];
      ok := true;
    }

    /** Give the staging file a second name, if nobody has it. */
    method Link(dest: string) returns (r: Result<(), bool>, ghost before: Snap)
      requires Valid() && mine.Some?
      modifies this
      ensures Valid() && next >= old(next)
      ensures stuck == old(stuck) && met == old(met) + [Meets(Linking, dest, before, r == Err(false))]
      ensures r.Err? ==> (r.error <==> dest in before.names)
      ensures r.Ok? ==>
        var (staging, ino) := old(mine.value);
        && mine.None? && log == old(log) + [Change(before, now)]
        && now == before.(names := before.names[dest := ino])
        && Spares(old(now), before, staging, ino) && dest !in before.names
      ensures r.Err? ==> mine == old(mine) && log == old(log) && Spares(old(now), now, mine.value.0, mine.value.1)
    {
      Others();
      before := now;
      var failed: bool := *;
      failed := failed && dest !in now.names;
      met := met + [Meets(Linking, dest, now, failed)];
      if dest in now.names {
        return Err(true), before;
      }
      if failed {
        return Err(false), before;
      }
      var (_, ino) := mine.value;
      now := now.(names := now.names[dest := ino]);
      mine := None;
      log := log + [Change(before, now)];
      r := Ok(());
    }

    /** Remove a name of the staging file; nobody else has touched it. */
    method Remove(staging: string) returns (ok: bool, ghost before: Snap)
      requires Valid()
      modifies this
      ensures Valid() && next >= old(next) && met == old(met) + [Meets(Removing, staging, before, !ok)]
      ensures !ok ==> log == old(log) && mine == old(mine) && stuck
      ensures ok ==> stuck == old(stuck) && mine.None?
      ensures ok ==>
        && log == old(log) + [Change(before, now)]
        && now == before.(names := before.names - {staging})
    {
      Others();
      before := now;
      var failed: bool := *;
      failed := failed || staging !in now.names || (mine.Some? && mine.value.0 != staging);
      met := met + [Meets(Removing, staging, now, failed)];
      if failed {
        stuck := true;
        return false, before;
      }
      now := now.(names := now.names - {staging});
      mine := None;
      log := log + [Change(before, now)];
      ok := true;
    }

    /** Make the directory's names durable. */
    method SyncNames() returns (ok: bool)
      requires Valid()
      modifies this`met
      ensures Valid() && met == old(met) + [Met(Syncing, "", false, false, !ok)]
    {
      ok := *;
      met := met + [Met(Syncing, "", false, false, !ok)];
    }
  }

  // ---------------------------------------------------------------- what an error means

  /** A call that makes an export end in this error. */
  ghost predicate Explains(m: Met, e: Error, dest: string, replace: bool) {
    match e
    case IsDirectory => m.call.Looking? && m.name == dest && m.folder
    case Exists => !replace && (m.call.Looking? || m.call.Linking?) && m.name == dest && m.taken
    case NoStaging => m.call.Creating? && m.failed
    case PublishFailed =>
      m.name == dest && ((m.call.Renaming? && (m.failed || m.folder)) || (m.call.Linking? && m.failed))
    case PublishedStagingLeft => m.call.Removing? && m.failed
    case PublishedNotSynced => m.call.Syncing? && m.failed
    case _ => false
  }

  ghost predicate Explained(met: seq<Met>, from: nat, e: Error, dest: string, replace: bool) {
    exists k :: from <= k < |met| && Explains(met[k], e, dest, replace)
  }

  /** What came back is as long as what was copied, and digests to the same. */
  ghost predicate ReadsBack(readBack: Bytes, whole: Bytes, hash: Bytes -> string) {
    |readBack| == |whole| <= U64_MAX && hash(readBack) == hash(whole)
  }

  lemma SmoothJoin(met: seq<Met>, from: nat, mid: nat, replace: bool)
    requires from <= mid <= |met|
    ensures Smooth(met, from, replace) <==> Smooth(met[..mid], from, replace) && Smooth(met, mid, replace)
  {
    forall k | from <= k < mid && !Smooth(met[..mid], from, replace) ensures met[..mid][k] == met[k] {}
  }

  /** Every staging name was tried, and found taken. */
  ghost predicate AllTaken(met: seq<Met>, from: nat, fold: Folding, name: string, pid: nat) {
    exists start: nat :: from <= start && Crowded(met, start, ATTEMPTS, fold, name, pid)
  }

  /** What must have happened for an export to end in an error. */
  ghost predicate Blames(e: Error, met: seq<Met>, from: nat, fold: Folding, name: string, pid: nat, parentOk: bool,
                         replace: bool, trouble: set<Cause>, readBack: Bytes, whole: Bytes, hash: Bytes -> string)
  {
    match e
    case NoParent => !parentOk
    case NoStaging =>
      Explained(met, from, e, Fold(fold, name), replace) || AllTaken(met, from, fold, name, pid)
    case _ => Explained(met, from, e, Fold(fold, name), replace) || Unstaged(e, trouble, readBack, whole, hash)
  }

  lemma SmoothStart(met: seq<Met>, replace: bool)
    ensures Smooth(met, |met|, replace)
  {
  }

  /** One call more, and what it means for an export. */
  lemma MetOne(met: seq<Met>, from: nat, m: Met, dest: string, replace: bool)
    requires from <= |met|
    ensures Smooth(met + [m], from, replace) <==> Smooth(met, from, replace) && !Bars(m, replace)
    ensures forall e :: Explains(m, e, dest, replace) ==> Explained(met + [m], from, e, dest, replace)
  {
    hide Explains, Bars;
    var all := met + [m];
    assert all[|met|] == m;
    assert forall k :: from <= k < |met| ==> all[k] == met[k];
  }

  /** What explains an error goes on doing so. */
  lemma ExplainedOn(met: seq<Met>, met': seq<Met>, from: nat, from': nat, e: Error, dest: string, replace: bool)
    requires Explained(met, from, e, dest, replace) && met <= met' && from' <= from
    ensures Explained(met', from', e, dest, replace)
  {
    var k :| from <= k < |met| && Explains(met[k], e, dest, replace);
    assert met'[k] == met[k];
  }

  /** The error says what happened, and is a cancellation exactly when a signal came. */
  ghost predicate Tells(e: Error, trouble: set<Cause>) {
    && (Signal in trouble <==> Cancels(e))
    && match e
       case Stage => Device in trouble
       case Copy(error) => CauseOf(error) in trouble
       case CancelledAt(_) => Signal in trouble
       case _ => false
  }

  /** The staging file could not be filled, or did not read back as what was copied. */
  ghost predicate Unstaged(e: Error, trouble: set<Cause>, readBack: Bytes, whole: Bytes, hash: Bytes -> string) {
    match e
    case Mismatch => |readBack| != |whole| || hash(readBack) != hash(whole)
    case Stage => Device in trouble || |readBack| > U64_MAX
    case Copy(error) => CauseOf(error) in trouble
    case CancelledAt(_) => Signal in trouble
    case _ => false
  }

  // ---------------------------------------------------------------- what an export promises

  /** The destination's name goes, in one step, to a new and durable file holding the whole
      source; without replacement, only when nobody had the name, and never over a folder. */
  ghost predicate Publishes(c: Change, name: string, replace: bool, floor: nat, whole: Bytes) {
    && (name in c.before.names ==> replace && c.before.names[name] !in c.before.folders)
    && name in c.after.names && floor <= c.after.names[name]
    && c.after.names[name] in c.after.data && c.after.data[c.after.names[name]] == whole
    && c.after.names[name] in c.after.synced
  }

  /** A change that leaves alone everything that was there before but for publication. */
  ghost predicate Private(c: Change, name: string, staging: string, floor: nat) {
    && (forall i: nat :: i < floor ==> SameData(c.before.data, c.after.data, i))
    && (forall n :: n != name && n != staging ==> SameEntry(c.before.names, c.after.names, n))
  }

  /** What this process did from change `from` on: nothing to the destination's name. */
  ghost predicate Untouched(log: seq<Change>, from: nat, name: string, staging: string, floor: nat) {
    from <= |log| &&
    forall k :: from <= k < |log| ==>
      && Private(log[k], name, staging, floor)
      && (staging != name ==> SameEntry(log[k].before.names, log[k].after.names, name))
  }

  /** One of the changes, not the first, publishes the whole source; no other touches the
      destination. */
  ghost predicate PublishedOnce(log: seq<Change>, from: nat, name: string, staging: string, floor: nat,
                                replace: bool, whole: Bytes)
  {
    exists k: nat :: from < k < |log| && PublishedAt(log, from, k, name, staging, floor, replace, whole)
  }

  ghost predicate PublishedAt(log: seq<Change>, from: nat, k: nat, name: string, staging: string, floor: nat,
                              replace: bool, whole: Bytes)
    requires from <= k < |log|
  {
    && Untouched(log[..k], from, name, staging, floor)
    && Private(log[k], name, staging, floor) && Publishes(log[k], name, replace, floor, whole)
    && Untouched(log, k + 1, name, staging, floor)
  }

  lemma UntouchedMore(log: seq<Change>, from: nat, c: Change, name: string, staging: string, floor: nat)
    requires Untouched(log, from, name, staging, floor) && Private(c, name, staging, floor)
    requires staging != name ==> SameEntry(c.before.names, c.after.names, name)
    ensures Untouched(log + [c], from, name, staging, floor)
  {
  }

  lemma PublishedMore(log: seq<Change>, from: nat, c: Change, name: string, staging: string, floor: nat,
                      replace: bool, whole: Bytes)
    requires PublishedOnce(log, from, name, staging, floor, replace, whole) && Private(c, name, staging, floor)
    requires staging != name ==> SameEntry(c.before.names, c.after.names, name)
    ensures PublishedOnce(log + [c], from, name, staging, floor, replace, whole)
  {
    var k: nat :| from < k < |log| && PublishedAt(log, from, k, name, staging, floor, replace, whole);
    assert (log + [c])[..k] == log[..k];
    UntouchedMore(log, k + 1, c, name, staging, floor);
    assert PublishedAt(log + [c], from, k, name, staging, floor, replace, whole);
  }

  /** Whatever change of a publishing process a crash or an observer falls between, the
      destination's name stands where it stood or for the whole new file. */
  lemma AllOrNothing(log: seq<Change>, from: nat, k: nat, name: string, staging: string, floor: nat, replace: bool,
                     whole: Bytes)
    requires staging != name && from <= k < |log|
    requires Untouched(log, from, name, staging, floor)
      || PublishedOnce(log, from, name, staging, floor, replace, whole)
    ensures SameEntry(log[k].before.names, log[k].after.names, name) || Publishes(log[k], name, replace, floor, whole)
  {
  }

  /** Some change before `upto` moved the destination's name. */
  ghost predicate TouchedBefore(log: seq<Change>, from: nat, upto: nat, name: string)
    requires upto <= |log|
  {
    exists k: nat :: from <= k < upto && !SameEntry(log[k].before.names, log[k].after.names, name)
  }

  /** The changes of an export up to `upto`, which is its publication or the end: the first
      creates the staging file and none moves the destination's name but under its own. */
  ghost predicate Staging(log: seq<Change>, from: nat, upto: nat, name: string, staging: string, floor: nat,
                          replace: bool, whole: Bytes)
  {
    && from < upto <= |log|
    && (exists ino :: Creates(log[from], staging, ino))
    && Untouched(log[..upto], from, name, staging, floor)
    && (upto < |log| ==> PublishedAt(log, from, upto, name, staging, floor, replace, whole))
  }

  /** Before publication the destination's name moves if and only if it collides with the
      staging name of the attempt used. It then stands for the new and empty staging file. */
  lemma TouchedEarly(log: seq<Change>, from: nat, upto: nat, fold: Folding, name: string, pid: nat, n: nat,
                     floor: nat, replace: bool, whole: Bytes)
    requires Staging(log, from, upto, Fold(fold, name), Fold(fold, StagingName(name, pid, n)), floor, replace, whole)
    ensures TouchedBefore(log, from, upto, Fold(fold, name)) <==> Collides(fold, name, pid, n)
    ensures Collides(fold, name, pid, n) ==>
      var c, dest := log[from], Fold(fold, name);
      && dest !in c.before.names && dest in c.after.names
      && c.after.names[dest] in c.after.data && c.after.data[c.after.names[dest]] == []
  {
    hide Fold, StagingName, Collides;
    var dest, staging := Fold(fold, name), Fold(fold, StagingName(name, pid, n));
    StagingIsName(fold, name, pid, n);
    var ino :| Creates(log[from], staging, ino);
    if staging == dest {
      assert !SameEntry(log[from].before.names, log[from].after.names, dest);
    } else {
      forall k: nat | from <= k < upto ensures SameEntry(log[k].before.names, log[k].after.names, dest) {
        assert log[..upto][k] == log[k];
      }
    }
  }

  /** At a dotted name, whatever the process and the directory: the first staging file is
      created as the destination, which stands for it while it fills. */
  lemma DottedNameCollides(fold: Folding, pid: nat, c: Change, ino: nat)
    requires Creates(c, Fold(fold, StagingName(Dotted(pid, 0), pid, 0)), ino)
    ensures var dest := Fold(fold, Dotted(pid, 0));
      dest !in c.before.names && dest in c.after.names && c.after.names[dest] == ino && c.after.data[ino] == []
  {
    DottedCollides(fold, pid, 0);
    StagingIsName(fold, Dotted(pid, 0), pid, 0);
  }

  /** And so at the same name with a capital, where the directory folds case. No staging name
      is equal to it. */
  lemma CapitalNameCollides(fold: Folding, pid: nat, c: Change, ino: nat)
    requires fold('P') == fold('p') && Creates(c, Fold(fold, StagingName(Capital(pid), pid, 0)), ino)
    ensures forall n: nat :: n < ATTEMPTS ==> StagingName(Capital(pid), pid, n) != Capital(pid)
    ensures var dest := Fold(fold, Capital(pid));
      dest !in c.before.names && dest in c.after.names && c.after.names[dest] == ino && c.after.data[ino] == []
  {
    CapitalCollides(fold, pid);
    StagingIsName(fold, Capital(pid), pid, 0);
  }

  /** The error that says a signal came. */
  predicate Cancels(e: Error) {
    e.CancelledAt? || (e.Copy? && e.error.Cancelled?)
  }

  // ---------------------------------------------------------------- the export

  lemma CreatingStart(met: seq<Met>, fold: Folding, name: string, pid: nat)
    ensures !Begun(met, |met|) && Crowded(met, |met|, 0, fold, name, pid)
  {
  }

  /** One more staging name is tried: it was free, or taken, or could not be created. */
  lemma CreatingOne(met: seq<Met>, from: nat, n: nat, m: Met, fold: Folding, name: string, pid: nat)
    requires |met| == from + n && !Begun(met, from) && Crowded(met, from, n, fold, name, pid)
    requires m.call.Creating? && m.name == Fold(fold, StagingName(name, pid, n))
    ensures Begun(met + [m], from) <==> !m.taken && !m.failed
    ensures m.taken ==> Crowded(met + [m], from, n + 1, fold, name, pid)
    ensures m.failed ==> Explained(met + [m], from, NoStaging, Fold(fold, name), false)
  {
    hide Fold, StagingName;
    var all := met + [m];
    assert all[from + n] == m && all[|met|] == m;
    forall k | from <= k < |met| ensures all[k] == met[k] {}
    if Begun(all, from) {
      var k :| from <= k < |all| && all[k].call.Creating? && !all[k].taken && !all[k].failed;
      assert k == |met|;
    }
  }

  /** Find a staging name nobody has and create the file. */
  method CreateStaging(dir: Directory, name: string, pid: nat) returns (r: Result<(string, nat), Error>, n: nat)
    requires dir.Valid() && dir.mine.None?
    modifies dir
    ensures dir.Valid() && dir.next >= old(dir.next) && dir.stuck == old(dir.stuck)
    ensures r.Ok? ==>
      && dir.mine == Some(r.value) && old(dir.next) <= r.value.1
      && n < ATTEMPTS && r.value.0 == Fold(dir.fold, StagingName(name, pid, n))
      && |dir.log| == |old(dir.log)| + 1 && old(dir.log) <= dir.log
      && var c, dest := dir.log[|old(dir.log)|], Fold(dir.fold, name);
      && Creates(c, r.value.0, r.value.1)
      && (Collides(dir.fold, name, pid, n) <==> !SameEntry(c.before.names, c.after.names, dest))
    ensures r.Err? ==> dir.mine.None? && r.error.NoStaging? && dir.log == old(dir.log)
    ensures old(dir.met) <= dir.met && (r.Ok? <==> Begun(dir.met, |old(dir.met)|))
    ensures forall k :: |old(dir.met)| <= k < |dir.met| ==> dir.met[k].call.Creating? && (r.Ok? ==> !dir.met[k].failed)
    ensures r.Err? ==>
      || Explained(dir.met, |old(dir.met)|, NoStaging, Fold(dir.fold, name), false)
      || Crowded(dir.met, |old(dir.met)|, ATTEMPTS, dir.fold, name, pid)
    ensures Untouched(dir.log, |old(dir.log)|, Fold(dir.fold, name), Fold(dir.fold, StagingName(name, pid, n)),
      old(dir.next))
  {
    hide Fold, StagingName, Collides, Begun, Crowded, Explained, Explains;
    n := 0;
    ghost var dest, from := Fold(dir.fold, name), |dir.met|;
    CreatingStart(dir.met, dir.fold, name, pid);
    while n < ATTEMPTS
      invariant n <= ATTEMPTS && dir.Valid() && dir.mine.None? && dir.next >= old(dir.next)
      invariant dir.log == old(dir.log) && dir.stuck == old(dir.stuck)
      invariant old(dir.met) <= dir.met && |dir.met| == from + n
      invariant !Begun(dir.met, from) && Crowded(dir.met, from, n, dir.fold, name, pid)
      invariant forall k :: from <= k < |dir.met| ==> dir.met[k].call.Creating? && !dir.met[k].failed
    {
      ghost var met := dir.met;
      var staging := Fold(dir.fold, StagingName(name, pid, n));
      var created, before := dir.CreateNew(staging);
      CreatingOne(met, from, n, dir.met[|met|], dir.fold, name, pid);
      if created.Ok? {
        StagingIsName(dir.fold, name, pid, n);
        UntouchedMore(old(dir.log), |old(dir.log)|, Change(before, dir.now), dest, staging, old(dir.next));
        return Ok((staging, created.value)), n;
      }
      if !created.error {
        return Err(NoStaging), n;
      }
      n := n + 1;
    }
    r := Err(NoStaging);
  }

  /** One read of the staging file at `at`: some bytes, none at its end, or nothing yet after
      an interruption. */
  method ReadMore(dir: Directory, w: World, at: nat) returns (r: Result<Option<Bytes>, Error>)
    requires dir.Valid() && dir.mine.Some? && w.trouble == {}
    modifies dir`now, dir`next, w
    ensures dir.Valid() && dir.next >= old(dir.next)
    ensures Spares(old(dir.now), dir.now, dir.mine.value.0, dir.mine.value.1)
    ensures w.trouble == if r.Ok? then {} else if r.error.CancelledAt? then {Signal} else {Device}
    ensures r.Err? ==> r.error.Stage? || r.error.CancelledAt?
    ensures if r == Ok(None) then w.patience < old(w.patience) else w.patience == old(w.patience)
    ensures dir.faithful && r.Ok? && r.value.Some? ==>
      var held, more := dir.now.data[dir.mine.value.1], r.value.value;
      (more == [] <==> at >= |held|) && (more != [] ==> at + |more| <= |held| && more == held[at..at + |more|])
  {
    var stop := w.Cancelled();
    if stop {
      return Err(CancelledAt(at));
    }
    var again := w.Interrupts();
    if again {
      return Ok(None);
    }
    var failed := w.Fails(Device);
    if failed {
      return Err(Stage);
    }
    var more := dir.ReadStaging(w, at);
    r := Ok(Some(more));
  }

  lemma SparedSelf(a: Snap, staging: string, ino: nat)
    ensures Spares(a, a, staging, ino)
  {
  }

  lemma SparedOn(a: Snap, b: Snap, c: Snap, staging: string, ino: nat)
    requires Spares(a, b, staging, ino) && Spares(b, c, staging, ino)
    ensures Spares(a, c, staging, ino) && SameData(a.data, c.data, ino)
  {
  }

  /** Read the staging file back to its end. It passes exactly when what came back has the
      length and digest copied; from a faithful disk that is what the file holds. */
  method VerifyStaging(dir: Directory, w: World, copied: Copied, hash: Bytes -> string)
    returns (r: Result<(), Error>, readBack: Bytes)
    requires dir.Valid() && dir.mine.Some? && w.trouble == {}
    modifies dir`now, dir`next, w
    ensures dir.Valid() && dir.next >= old(dir.next)
      && Spares(old(dir.now), dir.now, dir.mine.value.0, dir.mine.value.1)
    ensures w.trouble != {} ==>
      && r.Err? && !r.error.Mismatch? && !r.error.Copy?
      && w.trouble == if r.error.CancelledAt? then {Signal} else {Device}
    ensures r.Err? ==> r.error.Stage? || r.error.CancelledAt? || r.error.Mismatch?
    ensures w.trouble == {} ==>
      (r.Ok? <==> |readBack| == copied.bytes && hash(readBack) == copied.sha256 && |readBack| <= U64_MAX)
    ensures r.Err? && w.trouble == {} ==> if |readBack| > U64_MAX then r.error.Stage? else r.error.Mismatch?
    ensures dir.faithful && w.trouble == {} && |dir.now.data[dir.mine.value.1]| <= U64_MAX ==>
      readBack == dir.now.data[dir.mine.value.1]
  {
    hide Spares;
    readBack := [];
    SparedSelf(dir.now, dir.mine.value.0, dir.mine.value.1);
    var failed := w.Fails(Device);
    if failed {
      return Err(Stage), readBack;
    }
    ghost var held := dir.now.data[dir.mine.value.1];
    var left: nat := *;
    if dir.faithful {
      left := |dir.now.data[dir.mine.value.1]|;
    }
    while true
      invariant w.trouble == {} && |readBack| <= U64_MAX && dir.Valid() && dir.next >= old(dir.next)
      invariant Spares(old(dir.now), dir.now, dir.mine.value.0, dir.mine.value.1)
      invariant SameData(old(dir.now.data), dir.now.data, dir.mine.value.1)
      invariant dir.faithful ==> readBack <= held && |held| - |readBack| <= left
      decreases left, w.patience
    {
      ghost var before := dir.now;
      var read := ReadMore(dir, w, |readBack|);
      SparedOn(old(dir.now), before, dir.now, dir.mine.value.0, dir.mine.value.1);
      if read.Err? {
        return Err(read.error), readBack;
      }
      if read.value.None? {
        continue;
      }
      var more := read.value.value;
      if more == [] || left == 0 {
        break;
      }
      left := left - 1;
      readBack := readBack + more;
      if |readBack| > U64_MAX {
        return Err(Stage), readBack;
      }
    }
    if |readBack| != copied.bytes || hash(readBack) != copied.sha256 {
      return Err(Mismatch), readBack;
    }
    r := Ok(());
  }

  /** Fill the staging file with the source and make it durable. */
  method StageContent(dir: Directory, ghost name: string, ghost staging: string, ghost floor: nat, ghost from: nat,
                      source: Source, w: World, hash: Bytes -> string, sparse: bool)
    returns (r: Result<Copied, Error>)
    requires dir.Valid() && dir.mine.Some? && dir.mine.value.0 == staging && floor <= dir.mine.value.1
    requires Untouched(dir.log, from, name, staging, floor) && w.trouble == {}
    modifies dir`now, dir`next, dir`log, w
    ensures dir.Valid() && dir.next >= old(dir.next) && old(dir.log) <= dir.log
    ensures Untouched(dir.log, from, name, staging, floor)
    ensures r.Ok? <==> w.trouble == {}
    ensures r.Err? ==> r.error.Copy? || r.error.Stage? || r.error.CancelledAt?
    ensures r.Err? ==> Tells(r.error, w.trouble)
    ensures r.Ok? ==>
      && dir.now.data[dir.mine.value.1] == Span(source.content, 0, source.size)
      && dir.mine.value.1 in dir.now.synced
      && r.value == Copied(source.size, hash(Span(source.content, 0, source.size)))
  {
    hide Untouched, Private, Touches, Logical, Resized;
    var out := new Output(sparse);
    var copied := Pump(source, out, w, hash);
    ghost var log, ino := dir.log, dir.mine.value.1;
    var before := dir.Fill(out.bytes);
    Refilled(log, from, Change(before, dir.now), name, staging, ino, floor);
    if copied.Err? {
      return Err(Copy(copied.error));
    }
    ResizedIsLogical(Cursor(out.bytes, out.pos));
    WholeCopy(sparse, out.bytes, out.pos);
    if sparse {
      var resized := out.SetLen(w, copied.value.bytes);
      if !resized {
        return Err(Stage);
      }
      log := dir.log;
      before := dir.Fill(out.bytes);
      Refilled(log, from, Change(before, dir.now), name, staging, ino, floor);
    }
    r := MakeDurable(dir, w, copied.value);
  }

  /** Make the staging file's contents durable; a signal is what gets reported, even when that
      failed too. */
  method MakeDurable(dir: Directory, w: World, copied: Copied) returns (r: Result<Copied, Error>)
    requires dir.Valid() && dir.mine.Some? && w.trouble == {}
    modifies dir`now, dir`next, w`trouble, w`looked
    ensures dir.Valid() && dir.next >= old(dir.next)
    ensures dir.now.data[dir.mine.value.1] == old(dir.now.data[dir.mine.value.1])
    ensures r.Ok? ==> r == Ok(copied) && dir.mine.value.1 in dir.now.synced && w.looked
    ensures r.Ok? <==> w.trouble == {}
    ensures r.Err? ==> (r.error.Stage? || r.error.CancelledAt?) && Tells(r.error, w.trouble)
  {
    var synced := dir.Sync(w);
    var stop := w.Cancelled();
    if stop {
      return Err(CancelledAt(copied.bytes));
    }
    if !synced {
      return Err(Stage);
    }
    r := Ok(copied);
  }

  lemma WholeCopy(sparse: bool, bytes: Bytes, pos: nat)
    requires |bytes| <= pos && (!sparse ==> |bytes| == pos)
    ensures !sparse ==> bytes == Logical(Cursor(bytes, pos))
    ensures |Logical(Cursor(bytes, pos))| == pos
  {
  }

  /** Giving the staging file other contents leaves the destination's name alone. */
  lemma Refilled(log: seq<Change>, from: nat, c: Change, name: string, staging: string, ino: nat, floor: nat)
    requires Untouched(log, from, name, staging, floor)
    requires Touches(c, staging, ino) && floor <= ino && c.after.names == c.before.names
    ensures Untouched(log + [c], from, name, staging, floor)
  {
    hide Untouched;
    UntouchedMore(log, from, c, name, staging, floor);
  }

  /** Give the complete staging file its real name, a signal having been looked for last. */
  method Publish(dir: Directory, ghost w: World, staging: string, ino: nat, name: string, replace: bool,
                 ghost floor: nat, ghost from: nat, ghost whole: Bytes)
    returns (r: Result<(), Error>)
    requires dir.Valid() && dir.mine == Some((staging, ino)) && floor <= ino && w.looked
    requires Untouched(dir.log, from, name, staging, floor) && from < |dir.log|
    requires dir.now.data[ino] == whole && ino in dir.now.synced
    modifies dir
    ensures dir.Valid() && old(dir.log) <= dir.log
    ensures r.Ok? || r.error.PublishFailed? || r.error.Exists? || r.error.PublishedStagingLeft?
    ensures r.Ok? || r.error.PublishedStagingLeft? ==>
      dir.mine.None? && PublishedOnce(dir.log, from, name, staging, floor, replace, whole)
    ensures r.Err? && !r.error.PublishedStagingLeft? ==>
      dir.mine == Some((staging, ino)) && Untouched(dir.log, from, name, staging, floor)
    ensures old(dir.met) <= dir.met && (r.Ok? <==> Smooth(dir.met, |old(dir.met)|, replace))
    ensures r.Err? ==> Explained(dir.met, |old(dir.met)|, r.error, name, replace)
    ensures !(r.Err? && r.error.PublishedStagingLeft?) ==> dir.stuck == old(dir.stuck)
  {
    hide Untouched, PublishedOnce, Private, Publishes, Smooth, Explained;
    ghost var log, met := dir.log, dir.met;
    ghost var was := dir.now;
    SmoothStart(met, replace);
    if replace {
      var renamed, before := dir.Rename(name);
      assert dir.met == met + [dir.met[|met|]];
      MetOne(met, |met|, dir.met[|met|], name, replace);
      if !renamed {
        return Err(PublishFailed);
      }
      ghost var c := Change(before, dir.now);
      RenamePublishes(was, c, name, staging, ino, floor, whole);
      PublishedNow(log, from, c, name, staging, floor, replace, whole);
      return Ok(());
    }
    r := PublishNew(dir, staging, ino, name, floor, from, whole);
  }

  /** Give the staging file a name nobody has, and drop its own. */
  method PublishNew(dir: Directory, staging: string, ino: nat, name: string,
                    ghost floor: nat, ghost from: nat, ghost whole: Bytes)
    returns (r: Result<(), Error>)
    requires dir.Valid() && dir.mine == Some((staging, ino)) && floor <= ino
    requires Untouched(dir.log, from, name, staging, floor) && from < |dir.log|
    requires dir.now.data[ino] == whole && ino in dir.now.synced
    modifies dir
    ensures dir.Valid() && old(dir.log) <= dir.log
    ensures r.Ok? || r.error.PublishFailed? || r.error.Exists? || r.error.PublishedStagingLeft?
    ensures r.Ok? || r.error.PublishedStagingLeft? ==>
      dir.mine.None? && PublishedOnce(dir.log, from, name, staging, floor, false, whole)
    ensures r.Err? && !r.error.PublishedStagingLeft? ==>
      dir.mine == Some((staging, ino)) && Untouched(dir.log, from, name, staging, floor)
    ensures old(dir.met) <= dir.met && (r.Ok? <==> Smooth(dir.met, |old(dir.met)|, false))
    ensures r.Err? ==> Explained(dir.met, |old(dir.met)|, r.error, name, false)
    ensures !(r.Err? && r.error.PublishedStagingLeft?) ==> dir.stuck == old(dir.stuck)
  {
    hide Untouched, PublishedOnce, Private, Publishes, Smooth, Explained;
    ghost var log, met, was := dir.log, dir.met, dir.now;
    SmoothStart(met, false);
    var linked, before := dir.Link(name);
    MetOne(met, |met|, dir.met[|met|], name, false);
    if linked.Err? {
      return Err(if linked.error then Exists else PublishFailed);
    }
    ghost var c, met' := Change(before, dir.now), dir.met;
    LinkPublishes(was, c, name, staging, ino, floor, whole);
    PublishedNow(log, from, c, name, staging, floor, false, whole);
    log := dir.log;
    var removed, before' := dir.Remove(staging);
    MetOne(met', |met|, dir.met[|met'|], name, false);
    if !removed {
      return Err(PublishedStagingLeft);
    }
    OnlyStaging(Change(before', dir.now), name, staging, floor);
    PublishedMore(log, from, Change(before', dir.now), name, staging, floor, false, whole);
    r := Ok(());
  }

  lemma RenamePublishes(was: Snap, c: Change, name: string, staging: string, ino: nat, floor: nat, whole: Bytes)
    requires Spares(was, c.before, staging, ino) && floor <= ino
    requires ino in was.data && was.data[ino] == whole && ino in was.synced
    requires c.after == c.before.(names := (c.before.names - {staging})[name := ino])
    requires name in c.before.names ==> c.before.names[name] !in c.before.folders
    ensures Private(c, name, staging, floor) && Publishes(c, name, true, floor, whole)
  {
  }

  lemma LinkPublishes(was: Snap, c: Change, name: string, staging: string, ino: nat, floor: nat, whole: Bytes)
    requires Spares(was, c.before, staging, ino) && floor <= ino
    requires ino in was.data && was.data[ino] == whole && ino in was.synced
    requires c.after == c.before.(names := c.before.names[name := ino]) && name !in c.before.names
    ensures Private(c, name, staging, floor) && Publishes(c, name, false, floor, whole)
  {
  }

  lemma OnlyStaging(c: Change, name: string, staging: string, floor: nat)
    requires c.after == c.before.(names := c.before.names - {staging})
    ensures Private(c, name, staging, floor)
    ensures staging != name ==> SameEntry(c.before.names, c.after.names, name)
  {
  }

  lemma PublishedNow(log: seq<Change>, from: nat, c: Change, name: string, staging: string, floor: nat,
                     replace: bool, whole: Bytes)
    requires Untouched(log, from, name, staging, floor) && from < |log|
    requires Private(c, name, staging, floor) && Publishes(c, name, replace, floor, whole)
    ensures PublishedOnce(log + [c], from, name, staging, floor, replace, whole)
  {
    assert (log + [c])[..|log|] == log;
    assert PublishedAt(log + [c], from, |log|, name, staging, floor, replace, whole);
  }

  /** Remove the staging name after a failure, if it can be removed. */
  method CleanUp(dir: Directory, staging: string, name: string,
                 ghost floor: nat, ghost from: nat, ghost replace: bool, ghost whole: Bytes)
    requires dir.Valid()
    requires dir.mine.Some? ==> dir.mine.value.0 == staging
    requires from <= |dir.log|
    modifies dir
    ensures dir.Valid() && old(dir.log) <= dir.log && (dir.stuck || dir.mine.None?) && old(dir.met) <= dir.met
    ensures old(Untouched(dir.log, from, name, staging, floor)) ==> Untouched(dir.log, from, name, staging, floor)
    ensures old(PublishedOnce(dir.log, from, name, staging, floor, replace, whole)) ==>
      PublishedOnce(dir.log, from, name, staging, floor, replace, whole)
  {
    ghost var log := dir.log;
    var removed, before := dir.Remove(staging);
    if removed {
      ghost var c := Change(before, dir.now);
      if Untouched(log, from, name, staging, floor) { UntouchedMore(log, from, c, name, staging, floor); }
      if PublishedOnce(log, from, name, staging, floor, replace, whole) {
        PublishedMore(log, from, c, name, staging, floor, replace, whole);
      }
    }
  }

  lemma NothingYet(log: seq<Change>, name: string, staging: string, floor: nat)
    ensures Untouched(log, |log|, name, staging, floor)
  {
  }

  lemma UntouchedBelow(log: seq<Change>, from: nat, name: string, staging: string, limit: nat, floor: nat)
    requires Untouched(log, from, name, staging, limit) && floor <= limit
    ensures Untouched(log, from, name, staging, floor)
  {
  }

  /** Fill, read back if asked, and publish. */
  method StageAndPublish(dir: Directory, source: Source, w: World, hash: Bytes -> string, name: string,
                         staging: string, ino: nat, replace: bool, verify: bool, sparse: bool,
                         ghost floor: nat, ghost from: nat)
    returns (r: Result<Done, Error>, readBack: Bytes)
    requires dir.Valid() && dir.mine == Some((staging, ino)) && floor <= ino
    requires Untouched(dir.log, from, name, staging, floor) && from < |dir.log| && w.trouble == {}
    modifies dir, w
    ensures dir.Valid() && old(dir.log) <= dir.log
    ensures dir.mine.Some? ==> dir.mine.value.0 == staging
    ensures r.Ok? ==> dir.mine.None? && !r.value.replaced
    ensures r.Err? ==> !r.error.PublishedNotSynced? && !r.error.NoParent? && !r.error.NoStaging?
    ensures var whole := Span(source.content, 0, source.size);
      && (r.Ok? || AfterPublication(r) ==>
            PublishedOnce(dir.log, from, name, staging, floor, replace, whole)
            && (verify ==> |readBack| == |whole| && hash(readBack) == hash(whole)))
      && (r.Ok? ==> r.value.bytes == |whole| && r.value.sha256 == hash(whole))
    ensures r.Err? && !AfterPublication(r) ==> Untouched(dir.log, from, name, staging, floor)
    ensures old(dir.met) <= dir.met
    ensures var whole := Span(source.content, 0, source.size);
      && (r.Ok? <==>
            && w.trouble == {} && Smooth(dir.met, |old(dir.met)|, replace)
            && (verify ==> ReadsBack(readBack, whole, hash)))
      && (r.Err? ==>
            || Explained(dir.met, |old(dir.met)|, r.error, name, replace)
            || Unstaged(r.error, w.trouble, readBack, whole, hash))
      && (verify && dir.faithful && |whole| <= U64_MAX && w.trouble == {} ==> readBack == whole)
      && (Signal in w.trouble <==> r.Err? && Cancels(r.error))
  {
    hide Untouched, PublishedOnce, Smooth, Explained;
    readBack := [];
    var copied := StageContent(dir, name, staging, floor, from, source, w, hash, sparse);
    if copied.Err? {
      return Err(copied.error), readBack;
    }
    var confirmed;
    confirmed, readBack := Confirm(dir, w, copied.value, hash, verify);
    if confirmed.Err? {
      return Err(confirmed.error), readBack;
    }
    var published := Publish(dir, w, staging, ino, name, replace, floor, from, Span(source.content, 0, source.size));
    if published.Err? {
      return Err(published.error), readBack;
    }
    r := Ok(Done(copied.value.bytes, copied.value.sha256, false));
  }

  /** Read the staging file back if asked, and look for a signal once more. */
  method Confirm(dir: Directory, w: World, copied: Copied, hash: Bytes -> string, verify: bool)
    returns (r: Result<(), Error>, readBack: Bytes)
    requires dir.Valid() && dir.mine.Some? && w.trouble == {}
    modifies dir`now, dir`next, w
    ensures dir.Valid() && Spares(old(dir.now), dir.now, dir.mine.value.0, dir.mine.value.1)
    ensures r.Err? ==> r.error.Stage? || r.error.CancelledAt? || r.error.Mismatch?
    ensures r.Ok? <==>
      w.trouble == {} && (verify ==> |readBack| == copied.bytes <= U64_MAX && hash(readBack) == copied.sha256)
    ensures r.Err? && w.trouble != {} ==> Tells(r.error, w.trouble)
    ensures r.Ok? ==> w.looked
    ensures r.Err? && w.trouble == {} ==>
      if |readBack| > U64_MAX then r.error.Stage?
      else r.error.Mismatch? && (|readBack| != copied.bytes || hash(readBack) != copied.sha256)
    ensures var held := dir.now.data[dir.mine.value.1];
      verify && dir.faithful && |held| <= U64_MAX && w.trouble == {} ==> readBack == held
  {
    hide Spares;
    readBack := [];
    SparedSelf(dir.now, dir.mine.value.0, dir.mine.value.1);
    if verify {
      r, readBack := VerifyStaging(dir, w, copied, hash);
      if r.Err? {
        return;
      }
    }
    var stop := w.Cancelled();
    r := if stop then Err(CancelledAt(copied.bytes)) else Ok(());
  }

  /** Whether an error came after publication. */
  predicate AfterPublication(r: Result<Done, Error>) {
    r.Err? && (r.error.PublishedStagingLeft? || r.error.PublishedNotSynced?)
  }

  /** Where an export's changes stop being those before publication. */
  lemma StagedUpto(log: seq<Change>, from: nat, name: string, staging: string, ino: nat, floor: nat, replace: bool,
                   whole: Bytes)
    returns (upto: nat)
    requires from < |log| && Creates(log[from], staging, ino)
    requires Untouched(log, from, name, staging, floor)
      || PublishedOnce(log, from, name, staging, floor, replace, whole)
    ensures Staging(log, from, upto, name, staging, floor, replace, whole)
  {
    if Untouched(log, from, name, staging, floor) {
      upto := |log|;
      assert log[..|log|] == log;
    } else {
      upto :| from < upto < |log| && PublishedAt(log, from, upto, name, staging, floor, replace, whole);
    }
  }

  /** Create a staging file, fill it, publish it and make the names durable. */
  method StageAnew(dir: Directory, source: Source, w: World, hash: Bytes -> string, name: string, pid: nat,
                   replace: bool, verify: bool, sparse: bool, ghost floor: nat)
    returns (r: Result<Done, Error>, readBack: Bytes, n: nat, ghost upto: nat)
    requires dir.Valid() && dir.mine.None? && w.trouble == {} && floor <= dir.next
    modifies dir, w
    ensures dir.Valid() && old(dir.log) <= dir.log && old(dir.met) <= dir.met && (dir.stuck || dir.mine.None?)
    ensures r.Ok? || r.error.PublishedNotSynced? ==> dir.met != [] && dir.met[|dir.met| - 1].call.Syncing?
    ensures var whole := Span(source.content, 0, source.size);
      var dest, staging := Fold(dir.fold, name), Fold(dir.fold, StagingName(name, pid, n));
      && (r.Ok? || AfterPublication(r) ==>
            PublishedOnce(dir.log, |old(dir.log)|, dest, staging, floor, replace, whole)
            && (verify ==> |readBack| == |whole| && hash(readBack) == hash(whole)))
      && (r.Ok? ==> r.value.bytes == |whole| && r.value.sha256 == hash(whole))
      && (r.Err? && !AfterPublication(r) ==> Untouched(dir.log, |old(dir.log)|, dest, staging, floor))
      && (|dir.log| > |old(dir.log)| ==>
            && Staging(dir.log, |old(dir.log)|, upto, dest, staging, floor, replace, whole)
            && (TouchedBefore(dir.log, |old(dir.log)|, upto, dest) <==> Collides(dir.fold, name, pid, n)))
    ensures var from, whole := |old(dir.met)|, Span(source.content, 0, source.size);
      && (r.Ok? <==>
            && w.trouble == {} && Smooth(dir.met, from, replace) && Begun(dir.met, from)
            && (verify ==> ReadsBack(readBack, whole, hash)))
      && (r.Err? ==>
            Blames(r.error, dir.met, from, dir.fold, name, pid, true, replace, w.trouble, readBack, whole, hash))
      && (verify && dir.faithful && |whole| <= U64_MAX && w.trouble == {} && Begun(dir.met, from) ==> readBack == whole)
      && (Signal in w.trouble <==> r.Err? && Cancels(r.error))
  {
    hide Untouched, PublishedOnce, Staging, TouchedBefore, Fold, StagingName, Collides, Smooth, Begun, Explained,
      Explains, Bars, Crowded, Creates, ReadsBack, Unstaged;
    ghost var from, whole, met := |dir.log|, Span(source.content, 0, source.size), dir.met;
    var dest := Fold(dir.fold, name);
    readBack, upto := [], 0;
    ghost var limit := dir.next;
    var created;
    created, n := CreateStaging(dir, name, pid);
    ghost var start, begun := dir.log, dir.met;
    UntouchedBelow(dir.log, from, dest, Fold(dir.fold, StagingName(name, pid, n)), limit, floor);
    CreatingMeans(met, begun, Fold(dir.fold, name), replace);
    if created.Err? {
      return Err(created.error), readBack, n, upto;
    }
    var (staging, ino) := created.value;
    r, readBack := StageAndPublish(dir, source, w, hash, dest, staging, ino, replace, verify, sparse, floor, from);
    ghost var done := dir.met;
    SmoothOn(met, begun, done, replace);
    if r.Err? {
      CleanUp(dir, staging, dest, floor, from, replace, whole);
      SmoothOn(met, done, dir.met, replace);
      if Explained(done, |begun|, r.error, dest, replace) {
        ExplainedOn(done, dir.met, |begun|, |met|, r.error, dest, replace);
      }
    }
    assert dir.log[from] == start[from];
    upto := StagedUpto(dir.log, from, dest, staging, ino, floor, replace, whole);
    TouchedEarly(dir.log, from, upto, dir.fold, name, pid, n, floor, replace, whole);
    if r.Err? {
      return;
    }
    var synced := dir.SyncNames();
    SyncingMeans(done, |met|, dir.met[|done|], dest, replace);
    if !synced {
      return Err(PublishedNotSynced), readBack, n, upto;
    }
  }

  /** Export a source to a name in a directory others are using. Success, and the two errors
      that say so, mean the destination's name went in one step to a new durable file
      holding the whole source; any other error means this process never moved that name.
      Before publication it moves exactly when it collides with the staging name used. Nothing else
      that was there changes, and the staging name does not stay behind unless removing it
      failed. With `verify`, what was published read back with the length and digest that
      were copied. An export succeeds exactly when nothing it met stood in its way: it had a
      directory to export into, no call failed, no signal came, no look at the name and no
      attempt to give it found it taken, but by a file to replace, a staging name was free,
      and what was to be verified read back, as it does from a disk that reads back what it
      holds. The directory is synced last. An error means that what it says was met, and
      is a cancellation exactly when a signal was. */
  method Export(dir: Directory, source: Source, w: World, hash: Bytes -> string, name: string, pid: nat,
                parentOk: bool, replace: bool, verify: bool, sparse: bool)
    returns (r: Result<Done, Error>, readBack: Bytes, n: nat, ghost upto: nat)
    requires dir.Valid() && dir.mine.None? && !dir.stuck && w.trouble == {}
    modifies dir, w
    ensures dir.Valid() && old(dir.log) <= dir.log && old(dir.met) <= dir.met && (dir.stuck || dir.mine.None?)
    ensures r.Ok? || r.error.PublishedNotSynced? ==> dir.met != [] && dir.met[|dir.met| - 1].call.Syncing?
    ensures var whole := Span(source.content, 0, source.size);
      var dest, staging := Fold(dir.fold, name), Fold(dir.fold, StagingName(name, pid, n));
      && (r.Ok? || AfterPublication(r) ==>
            PublishedOnce(dir.log, |old(dir.log)|, dest, staging, old(dir.next), replace, whole)
            && (verify ==> |readBack| == |whole| && hash(readBack) == hash(whole)))
      && (r.Ok? ==> r.value.bytes == |whole| && r.value.sha256 == hash(whole) && (r.value.replaced ==> replace))
      && (r.Err? && !AfterPublication(r) ==> Untouched(dir.log, |old(dir.log)|, dest, staging, old(dir.next)))
      && (|dir.log| > |old(dir.log)| ==>
            && Staging(dir.log, |old(dir.log)|, upto, dest, staging, old(dir.next), replace, whole)
            && (TouchedBefore(dir.log, |old(dir.log)|, upto, dest) <==> Collides(dir.fold, name, pid, n)))
    ensures var from, whole := |old(dir.met)|, Span(source.content, 0, source.size);
      && (r.Ok? <==>
            && parentOk && w.trouble == {} && Smooth(dir.met, from, replace) && Begun(dir.met, from)
            && (verify ==> ReadsBack(readBack, whole, hash)))
      && (r.Err? ==>
            Blames(r.error, dir.met, from, dir.fold, name, pid, parentOk, replace, w.trouble, readBack, whole, hash))
      && (verify && dir.faithful && |whole| <= U64_MAX && w.trouble == {} && Begun(dir.met, from) ==> readBack == whole)
      && (Signal in w.trouble <==> r.Err? && Cancels(r.error))
    ensures var look := |old(dir.met)|;
      look < |dir.met| && (r.Ok? ==> (r.value.replaced <==> dir.met[look].taken && !dir.met[look].failed))
  {
    hide Untouched, PublishedOnce, Staging, TouchedBefore, Fold, StagingName, Collides, Smooth, Begun, Explained,
      Explains, Bars, Crowded, Unstaged, ReadsBack, Span;
    ghost var floor, met := dir.next, dir.met;
    readBack, n, upto := [], 0, 0;
    var dest := Fold(dir.fold, name);
    NothingYet(dir.log, dest, Fold(dir.fold, StagingName(name, pid, n)), floor);
    var existing, folder := dir.Lookup(dest);
    ghost var look := dir.met;
    LookMeans(met, look, dest, replace);
    if existing.Some? {
      if folder {
        return Err(IsDirectory), readBack, n, upto;
      }
      if !replace {
        return Err(Exists), readBack, n, upto;
      }
    }
    if !parentOk {
      return Err(NoParent), readBack, n, upto;
    }
    r, readBack, n, upto := StageAnew(dir, source, w, hash, name, pid, replace, verify, sparse, floor);
    LookedFirst(met, look, dir.met, replace);
    if r.Ok? {
      r := Ok(r.value.(replaced := existing.Some?));
    }
  }

  /** What follows the first look means the same to the whole. */
  lemma LookedFirst(met: seq<Met>, look: seq<Met>, after: seq<Met>, replace: bool)
    requires |look| == |met| + 1 && met <= look <= after && look[|met|].call.Looking?
    ensures after[|met|] == look[|met|]
    ensures Smooth(after, |met|, replace) <==> Smooth(look, |met|, replace) && Smooth(after, |look|, replace)
    ensures Begun(after, |met|) <==> Begun(after, |look|)
    ensures forall e, dest :: Explained(after, |look|, e, dest, replace) ==> Explained(after, |met|, e, dest, replace)
  {
    SmoothOn(met, look, after, replace);
    assert after[|met|] == look[|met|];
  }

  /** What the first look at the destination's name says. */
  lemma LookMeans(met: seq<Met>, look: seq<Met>, dest: string, replace: bool)
    requires |look| == |met| + 1 && look[..|met|] == met && look[|met|].call.Looking? && look[|met|].name == dest
    ensures var m := look[|met|];
      && met <= look && !Begun(look, |met|)
      && (Smooth(look, |met|, replace) <==> m.failed || !m.taken || (replace && !m.folder))
      && (m.taken && m.folder ==> Explained(look, |met|, IsDirectory, dest, replace))
      && (m.taken && !replace ==> Explained(look, |met|, Exists, dest, replace))
  {
  }

  /** Attempts to create the staging file bar the way only where one fails. */
  lemma CreatingMeans(met: seq<Met>, begun: seq<Met>, dest: string, replace: bool)
    requires met <= begun && forall k :: |met| <= k < |begun| ==> begun[k].call.Creating?
    ensures Smooth(begun, |met|, replace) <==> forall k :: |met| <= k < |begun| ==> !begun[k].failed
    ensures Explained(begun, |met|, NoStaging, dest, false) ==>
      !Smooth(begun, |met|, replace) && Explained(begun, |met|, NoStaging, dest, replace)
  {
  }

  lemma SyncingMeans(done: seq<Met>, from: nat, m: Met, dest: string, replace: bool)
    requires from <= |done| && m.call.Syncing?
    ensures Smooth(done + [m], from, replace) <==> Smooth(done, from, replace) && !m.failed
    ensures Begun(done, from) ==> Begun(done + [m], from)
    ensures m.failed ==> Explained(done + [m], from, PublishedNotSynced, dest, replace)
  {
    MetOne(done, from, m, dest, replace);
    BegunOn(done, done + [m], from);
  }

  /** Further calls leave what was met, and may bar the way themselves. */
  lemma SmoothOn(met: seq<Met>, before: seq<Met>, after: seq<Met>, replace: bool)
    requires met <= before <= after
    ensures Smooth(after, |met|, replace) <==> Smooth(before, |met|, replace) && Smooth(after, |before|, replace)
    ensures Begun(before, |met|) ==> Begun(after, |met|)
  {
    SmoothJoin(after, |met|, |before|, replace);
    assert after[..|before|] == before;
    BegunOn(before, after, |met|);
  }

  lemma BegunOn(before: seq<Met>, after: seq<Met>, from: nat)
    requires before <= after
    ensures Begun(before, from) ==> Begun(after, from)
  {
    assert forall k :: from <= k < |before| ==> after[k] == before[k];
  }
}
