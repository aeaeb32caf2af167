/** A device over a file: its length is declared in a number that readers take without a
    lock, so the number and the file move in an order that never lets the number be larger. */
module FileDevices {
  import opened Common

  datatype Error =
    | ReadOnly
    | NotAFile
    | OutOfBounds(offset: nat, len: nat, size: nat)
    | ShortRead(offset: nat, want: nat, got: nat)
    | Io

  // ---------------------------------------------------------------- the steps of every call

  /** Where one thread is. A read holds the lock shared, or exclusively where a positioned
      read moves the file's cursor; a write has checked its bound before it holds the lock;
      a resize narrows the declared size, truncates, and then publishes or measures. */
  datatype Thread =
    | Idle
    | Reading(offset: nat, want: nat, got: Bytes)
    | Checked(offset: nat, data: Bytes)
    | Writing(offset: nat, data: Bytes, done: nat)
    | Asked(newLen: nat)
    | Locked(newLen: nat)
    | Narrowed(newLen: nat)
    | Truncated(newLen: nat)
    | TruncateFailed

  datatype State = State(file: Bytes, size: nat, threads: seq<Thread>)

  datatype Action =
    | StartRead(t: nat, offset: nat, want: nat)
    | ReadSome(t: nat, n: nat)
    | EndRead(t: nat)
    | StartWrite(t: nat, offset: nat, data: Bytes)
    | LockWrite(t: nat)
    | WriteByte(t: nat)
    | EndWrite(t: nat)
    | StartResize(t: nat, newLen: nat)
    | LockResize(t: nat)
    | Narrow(t: nat)
    | Truncate(t: nat, after: Bytes, ok: bool)
    | Publish(t: nat)
    | Measure(t: nat, ok: bool)

  /** Holds the lock against everybody. */
  predicate Exclusive(th: Thread, cursor: bool) {
    th.Writing? || th.Locked? || th.Narrowed? || th.Truncated? || th.TruncateFailed? || (cursor && th.Reading?)
  }

  predicate Holds(th: Thread) {
    Exclusive(th, true)
  }

  predicate Free(s: State) {
    forall t :: 0 <= t < |s.threads| ==> !Holds(s.threads[t])
  }

  predicate NoExclusive(s: State, cursor: bool) {
    forall t :: 0 <= t < |s.threads| ==> !Exclusive(s.threads[t], cursor)
  }

  /** What a truncation may leave, failed or not: a length between the two, and what both
      lengths hold unchanged. */
  ghost predicate Moved(before: Bytes, after: Bytes, newLen: nat) {
    && Min(|before|, newLen) <= |after| <= Max(|before|, newLen)
    && after[..Min(|before|, newLen)] == before[..Min(|before|, newLen)]
  }

  /** `cursor` says whether positioned reads move the file's cursor, so that readers exclude
      one another. */
  ghost predicate Enabled(cursor: bool, s: State, a: Action) {
    && a.t < |s.threads|
    && var th := s.threads[a.t];
    match a
    case StartRead(_, _, _) => th.Idle? && (if cursor then Free(s) else NoExclusive(s, false))
    case ReadSome(_, n) =>
      && th.Reading? && |th.got| < th.want
      && 0 < n <= th.want - |th.got| && th.offset + |th.got| + n <= |s.file|
    case EndRead(_) => th.Reading?
    case StartWrite(_, offset, data) => th.Idle? && offset + |data| <= s.size && offset + |data| <= U64_MAX
    case LockWrite(_) => th.Checked? && Free(s)
    case WriteByte(_) => th.Writing? && th.done < |th.data|
    case EndWrite(_) => th.Writing?
    case StartResize(_, _) => th.Idle?
    case LockResize(_) => th.Asked? && Free(s)
    case Narrow(_) => th.Locked?
    case Truncate(_, after, ok) => th.Narrowed? && Moved(s.file, after, th.newLen) && (ok ==> |after| == th.newLen)
    case Publish(_) => th.Truncated?
    case Measure(_, _) => th.TruncateFailed?
  }

  function Go(s: State, t: nat, th: Thread): State
    requires t < |s.threads|
  {
    s.(threads := s.threads[t := th])
  }

  function Apply(s: State, a: Action): State
    requires a.t < |s.threads|
  {
    var th := s.threads[a.t];
    match a
    case StartRead(t, offset, want) => Go(s, t, Reading(offset, want, []))
    case ReadSome(t, n) =>
      if th.Reading? && th.offset + |th.got| + n <= |s.file|
      then Go(s, t, th.(got := th.got + s.file[th.offset + |th.got|..th.offset + |th.got| + n])) else s
    case StartWrite(t, offset, data) => Go(s, t, Checked(offset, data))
    case LockWrite(t) => if th.Checked? then Go(s, t, Writing(th.offset, th.data, 0)) else s
    case WriteByte(t) =>
      if th.Writing? && th.done < |th.data|
      then Go(s, t, th.(done := th.done + 1)).(file := Overwrite(s.file, th.offset + th.done, [th.data[th.done]]))
      else s
    case StartResize(t, newLen) => Go(s, t, Asked(newLen))
    case LockResize(t) => if th.Asked? then Go(s, t, Locked(th.newLen)) else s
    case Narrow(t) =>
      if th.Locked? then Go(s, t, Narrowed(th.newLen)).(size := Min(s.size, th.newLen)) else s
    case Truncate(t, after, ok) =>
      if th.Narrowed? then Go(s, t, if ok then Truncated(th.newLen) else TruncateFailed).(file := after) else s
    case Publish(t) => if th.Truncated? then Go(s, t, Idle).(size := th.newLen) else s
    case Measure(t, ok) => Go(s, t, Idle).(size := if ok then |s.file| else s.size)
    case EndRead(t) => Go(s, t, Idle)
    case EndWrite(t) => Go(s, t, Idle)
  }

  // ---------------------------------------------------------------- what every step keeps

  /** One thread that holds the lock exclusively is the only one that holds it. */
  ghost predicate Excludes(cursor: bool, s: State) {
    forall t, u :: 0 <= t < |s.threads| && 0 <= u < |s.threads| && t != u && Exclusive(s.threads[t], cursor) ==>
      !Holds(s.threads[u])
  }

  /** A resize under way has narrowed the declared size, and a finished truncation left
      just the length to publish. */
  ghost predicate ThreadOk(s: State, th: Thread) {
    && (th.Narrowed? ==> s.size <= th.newLen)
    && (th.Truncated? ==> |s.file| == th.newLen)
    && (th.Reading? ==> |th.got| <= th.want && (th.got == [] || th.offset + |th.got| <= |s.file|)
                        && (th.got != [] ==> th.got == s.file[th.offset..th.offset + |th.got|]))
    && (th.Writing? ==> th.done <= |th.data|)
  }

  ghost predicate Inv(cursor: bool, s: State) {
    && s.size <= |s.file|
    && Excludes(cursor, s)
    && forall t :: 0 <= t < |s.threads| ==> ThreadOk(s, s.threads[t])
  }

  /** What a thread does leaves the others' account of the file true: nobody else holds the
      lock when the file or the size changes, and a thread that holds nothing says nothing. */
  lemma OthersKeep(cursor: bool, s: State, a: Action, u: nat)
    requires Inv(cursor, s) && Enabled(cursor, s, a) && u < |s.threads| && u != a.t
    ensures ThreadOk(Apply(s, a), s.threads[u])
  {
    hide Moved, Overwrite;
    assert ThreadOk(s, s.threads[u]);
    if Exclusive(s.threads[a.t], cursor) { assert !Holds(s.threads[u]); }
  }

  lemma OwnKeeps(cursor: bool, s: State, a: Action)
    requires Inv(cursor, s) && Enabled(cursor, s, a)
    ensures var s' := Apply(s, a); s'.size <= |s'.file| && |s'.threads| == |s.threads| && ThreadOk(s', s'.threads[a.t])
  {
    var s', th := Apply(s, a), s.threads[a.t];
    assert ThreadOk(s, th);
    match a
    case ReadSome(t, n) =>
      assert s'.threads[t].got == s.file[th.offset..th.offset + |th.got| + n];
    case _ =>
  }

  /** A step touches its own thread, which takes the lock only as the lock allows. */
  lemma TakesLock(cursor: bool, s: State, a: Action)
    requires Enabled(cursor, s, a)
    ensures |Apply(s, a).threads| == |s.threads|
    ensures forall u :: 0 <= u < |s.threads| && u != a.t ==> Apply(s, a).threads[u] == s.threads[u]
    ensures var th, th' := s.threads[a.t], Apply(s, a).threads[a.t];
      && (Exclusive(th', cursor) ==> Exclusive(th, cursor) || Free(s))
      && (Holds(th') ==> Holds(th) || NoExclusive(s, cursor))
  {
    hide Moved, Overwrite;
  }

  lemma ExcludesStays(cursor: bool, s: State, a: Action)
    requires Excludes(cursor, s) && Enabled(cursor, s, a)
    ensures Excludes(cursor, Apply(s, a))
    ensures |Apply(s, a).threads| == |s.threads|
    ensures forall u :: 0 <= u < |s.threads| && u != a.t ==> Apply(s, a).threads[u] == s.threads[u]
  {
    TakesLock(cursor, s, a);
    OneHolder(cursor, s, Apply(s, a), a.t);
  }

  lemma OneHolder(cursor: bool, s: State, s': State, t: nat)
    requires Excludes(cursor, s) && t < |s.threads| == |s'.threads|
    requires forall u :: 0 <= u < |s.threads| && u != t ==> s'.threads[u] == s.threads[u]
    requires Exclusive(s'.threads[t], cursor) ==> Exclusive(s.threads[t], cursor) || Free(s)
    requires Holds(s'.threads[t]) ==> Holds(s.threads[t]) || NoExclusive(s, cursor)
    ensures Excludes(cursor, s')
  {
  }

  lemma StepKeeps(cursor: bool, s: State, a: Action)
    requires Inv(cursor, s) && Enabled(cursor, s, a)
    ensures Inv(cursor, Apply(s, a))
  {
    hide Moved, Overwrite, ThreadOk, Excludes;
    var s' := Apply(s, a);
    OwnKeeps(cursor, s, a);
    ExcludesStays(cursor, s, a);
    forall u | 0 <= u < |s.threads| && u != a.t ensures ThreadOk(s', s'.threads[u]) {
      OthersKeep(cursor, s, a, u);
    }
  }

  /** A resize that worked, or that could at least measure what it left, declares just what the
      file then holds, which is the length asked for if it worked. */
  lemma ResizeDeclares(cursor: bool, s: State, a: Action)
    requires Inv(cursor, s) && Enabled(cursor, s, a) && (a.Publish? || (a.Measure? && a.ok))
    ensures var s' := Apply(s, a);
      && s'.size == |s'.file| && s'.file == s.file && s'.threads[a.t] == Idle
      && (a.Publish? ==> s.threads[a.t].Truncated? && s'.size == s.threads[a.t].newLen)
  {
    assert ThreadOk(s, s.threads[a.t]);
  }

  ghost predicate IsRun(cursor: bool, states: seq<State>, actions: seq<Action>) {
    && |states| == |actions| + 1
    && states[0].size <= |states[0].file|
    && (forall t :: 0 <= t < |states[0].threads| ==> states[0].threads[t] == Idle)
    && forall k :: 0 <= k < |actions| ==>
         Enabled(cursor, states[k], actions[k]) && states[k + 1] == Apply(states[k], actions[k])
  }

  /** At every moment of every run the declared size is within the file. */
  lemma {:induction false} DeclaredIsHeld(cursor: bool, states: seq<State>, actions: seq<Action>, k: nat)
    requires IsRun(cursor, states, actions) && k < |states|
    ensures Inv(cursor, states[k]) && states[k].size <= |states[k].file|
  {
    if k == 0 {
    } else {
      DeclaredIsHeld(cursor, states, actions, k - 1);
      StepKeeps(cursor, states[k - 1], actions[k - 1]);
    }
  }

  /** While a read is under way nothing changes the file or the declared size, so what it
      has is what the file holds, and it falls short only if it asked past the file's end. */
  lemma ReadsWhole(cursor: bool, s: State, a: Action, t: nat)
    requires Inv(cursor, s) && Enabled(cursor, s, a) && t < |s.threads| && s.threads[t].Reading?
    ensures Apply(s, a).file == s.file && Apply(s, a).size == s.size
    ensures var th := s.threads[t];
      && (th.got != [] ==> th.offset + |th.got| <= |s.file| && th.got == s.file[th.offset..th.offset + |th.got|])
      && (th.offset + th.want <= s.size && |th.got| < th.want ==> Enabled(cursor, s, ReadSome(t, 1)))
  {
    assert ThreadOk(s, s.threads[t]);
    if a.t != t && Exclusive(s.threads[a.t], cursor) {
      assert Holds(s.threads[t]);
    }
  }

  // ---------------------------------------------------------------- what one write does

  /** Thread `t` is writing all the way from state `m + 1` to state `j`. */
  ghost predicate StillWriting(states: seq<State>, t: nat, m: nat, j: nat) {
    j < |states| && forall k :: m < k <= j ==> t < |states[k].threads| && states[k].threads[t].Writing?
  }

  /** What a write has made of the file as it was when the lock was taken. */
  function Written(file: Bytes, offset: nat, data: Bytes): Bytes {
    if data == [] then file else Overwrite(file, offset, data)
  }

  lemma WrittenOn(file: Bytes, offset: nat, data: Bytes, b: Byte)
    ensures Overwrite(Written(file, offset, data), offset + |data|, [b]) == Written(file, offset, data + [b])
  {
    var longer := Overwrite(file, offset, data + [b]);
    if data == [] {
      assert data + [b] == [b];
    } else {
      forall p: nat | p < |longer|
        ensures Overwrite(Written(file, offset, data), offset + |data|, [b])[p] == longer[p]
      {}
    }
  }

  lemma WrittenLength(file: Bytes, offset: nat, data: Bytes)
    ensures |Written(file, offset, data)| == if data == [] then |file| else Max(|file|, offset + |data|)
  {
  }

  /** While one thread is writing, no other changes the file or takes the lock. */
  lemma OthersWait(cursor: bool, s: State, a: Action, t: nat)
    requires Inv(cursor, s) && Enabled(cursor, s, a) && t < |s.threads| && s.threads[t].Writing? && a.t != t
    ensures Apply(s, a).file == s.file && Apply(s, a).threads[t] == s.threads[t]
  {
    assert Exclusive(s.threads[t], cursor) && !Holds(s.threads[a.t]);
  }

  /** What thread `t` has written, over the file as it was. */
  ghost predicate Landed(s: State, t: nat, file: Bytes, offset: nat, data: Bytes)
    requires t < |s.threads| && s.threads[t].Writing?
  {
    var th := s.threads[t];
    th.offset == offset && th.data == data && th.done <= |data| && s.file == Written(file, offset, data[..th.done])
  }

  lemma WriteStep(cursor: bool, s: State, a: Action, t: nat, file: Bytes, offset: nat, data: Bytes)
    requires Inv(cursor, s) && Enabled(cursor, s, a) && t < |s.threads| && s.threads[t].Writing?
    requires Landed(s, t, file, offset, data) && Apply(s, a).threads[t].Writing?
    ensures Landed(Apply(s, a), t, file, offset, data)
  {
    hide Written;
    if a.t != t {
      OthersWait(cursor, s, a, t);
    } else {
      var done := s.threads[t].done;
      assert a == WriteByte(t);
      WrittenOn(file, offset, data[..done], data[done]);
      assert data[..done] + [data[done]] == data[..done + 1];
    }
  }

  /** From the moment it holds the lock, a write and nothing else changes the file: what is
      there is the file as it was with the bytes landed so far written over it. */
  lemma {:induction false} WriteAlone(cursor: bool, states: seq<State>, actions: seq<Action>, t: nat, m: nat, j: nat)
    requires IsRun(cursor, states, actions) && m < j && StillWriting(states, t, m, j) && actions[m] == LockWrite(t)
    ensures t < |states[m].threads| && states[m].threads[t].Checked?
    ensures var before, th := states[m].threads[t], states[j].threads[t];
      && Landed(states[j], t, states[m].file, before.offset, before.data)
      && |states[j].file| == if th.done == 0 then |states[m].file| else Max(|states[m].file|, before.offset + th.done)
  {
    hide Written, Inv, Apply;
    assert Enabled(cursor, states[m], actions[m]) && states[m + 1] == Apply(states[m], actions[m]);
    LockStarts(states[m], t);
    var before := states[m].threads[t];
    if j == m + 1 {
      WrittenNothing(states[m].file, before.offset);
      assert before.data[..0] == [];
    } else {
      hide Enabled;
      WriteAlone(cursor, states, actions, t, m, j - 1);
      DeclaredIsHeld(cursor, states, actions, j - 1);
      assert states[j - 1 + 1] == Apply(states[j - 1], actions[j - 1]);
      WriteStep(cursor, states[j - 1], actions[j - 1], t, states[m].file, before.offset, before.data);
    }
    WrittenLength(states[m].file, before.offset, before.data[..states[j].threads[t].done]);
  }

  lemma LockStarts(s: State, t: nat)
    requires t < |s.threads| && s.threads[t].Checked?
    ensures var s' := Apply(s, LockWrite(t));
      && t < |s'.threads| && s'.threads[t] == Writing(s.threads[t].offset, s.threads[t].data, 0) && s'.file == s.file
  {
  }

  lemma WrittenNothing(file: Bytes, offset: nat)
    ensures Written(file, offset, []) == file
  {
  }

  /** A truncation that leaves the file shorter than `end`. */
  ghost predicate CutsBelow(a: Action, end: nat) {
    a.Truncate? && |a.after| < end
  }

  /** A write that passed its bound check finds the file that long for as long as no
      truncation leaves it shorter. */
  lemma {:induction false} BoundHolds(cursor: bool, states: seq<State>, actions: seq<Action>, i: nat, j: nat)
    requires IsRun(cursor, states, actions) && i < j < |states| && actions[i].StartWrite?
    requires forall k :: i < k < j ==> !CutsBelow(actions[k], actions[i].offset + |actions[i].data|)
    ensures actions[i].offset + |actions[i].data| <= |states[j].file|
  {
    hide Enabled, Apply, CutsBelow;
    if j == i + 1 {
      DeclaredIsHeld(cursor, states, actions, i);
      BoundChecked(cursor, states[i], actions[i]);
    } else {
      BoundHolds(cursor, states, actions, i, j - 1);
      BoundKept(cursor, states[j - 1], actions[j - 1], actions[i].offset + |actions[i].data|);
    }
  }

  lemma BoundKept(cursor: bool, s: State, a: Action, end: nat)
    requires Enabled(cursor, s, a) && end <= |s.file| && !CutsBelow(a, end)
    ensures end <= |Apply(s, a).file|
  {
  }

  lemma BoundChecked(cursor: bool, s: State, a: Action)
    requires Enabled(cursor, s, a) && a.StartWrite? && s.size <= |s.file|
    ensures a.offset + |a.data| <= |Apply(s, a).file|
  {
  }

  /** Only a resize to less than `end` leaves a file that was at least that long shorter. */
  lemma ShorterIsCut(cursor: bool, s: State, a: Action, end: nat)
    requires Enabled(cursor, s, a) && |Apply(s, a).file| < end <= |s.file|
    ensures CutsBelow(a, end) && s.threads[a.t].Narrowed? && s.threads[a.t].newLen < end
  {
  }

  /** Some resize between actions `i` and `m` cut the file below `end`. */
  ghost predicate CutBetween(states: seq<State>, actions: seq<Action>, i: nat, m: nat, end: nat)
    requires m <= |actions| < |states|
  {
    exists k :: i < k < m && CutsBelow(actions[k], end) && end <= |states[k].file|
      && actions[k].t < |states[k].threads| && states[k].threads[actions[k].t].Narrowed?
      && states[k].threads[actions[k].t].newLen < end
  }

  /** The first truncation that leaves the file shorter than a bound that was checked found
      it longer. */
  lemma {:induction false} ShortMeansCut(cursor: bool, states: seq<State>, actions: seq<Action>, i: nat, m: nat)
    requires IsRun(cursor, states, actions) && i < m < |states| && actions[i].StartWrite?
    requires |states[m].file| < actions[i].offset + |actions[i].data|
    ensures CutBetween(states, actions, i, m, actions[i].offset + |actions[i].data|)
  {
    hide Overwrite, Moved;
    var end := actions[i].offset + |actions[i].data|;
    DeclaredIsHeld(cursor, states, actions, m - 1);
    assert states[m - 1 + 1] == Apply(states[m - 1], actions[m - 1]);
    if |states[m - 1].file| < end {
      ShortMeansCut(cursor, states, actions, i, m - 1);
    } else {
      ShorterIsCut(cursor, states[m - 1], actions[m - 1], end);
    }
  }

  /** A write of at least one byte, from its bound check at action `i`, through the lock at
      action `m`, to its last byte by state `j`: it lengthens the file if and only if the
      file was shorter than its end when it took the lock; and that takes a resize to less
      than that end in between. */
  lemma WriteExtends(cursor: bool, states: seq<State>, actions: seq<Action>, t: nat, i: nat, m: nat, j: nat)
    requires IsRun(cursor, states, actions) && i < m < j && StillWriting(states, t, m, j)
    requires actions[i].StartWrite? && actions[m] == LockWrite(t)
    requires states[m].threads[t] == Checked(actions[i].offset, actions[i].data)
    requires states[j].threads[t].done == |actions[i].data| > 0
    ensures var end := actions[i].offset + |actions[i].data|;
      && (|states[j].file| > |states[m].file| <==> |states[m].file| < end)
      && (|states[m].file| < end ==> |states[j].file| == end && CutBetween(states, actions, i, m, end))
      && (|states[m].file| >= end ==> |states[j].file| == |states[m].file|)
  {
    WriteAlone(cursor, states, actions, t, m, j);
    if |states[m].file| < actions[i].offset + |actions[i].data| {
      ShortMeansCut(cursor, states, actions, i, m);
    }
  }

  /** The bound of a write is checked before it holds the lock: a shrink may come between,
      and then the write grows the file beyond what is declared. */
  lemma LateWriteExtends() returns (states: seq<State>, actions: seq<Action>)
    ensures IsRun(false, states, actions)
    ensures var s := states[|actions|];
      s.size == 0 && |s.file| == 1 && forall t :: 0 <= t < |s.threads| ==> s.threads[t] == Idle
  {
    hide Enabled, Apply;
    states := [Late(0), Late(1), Late(2), Late(3), Late(4), Late(5), Late(6), Late(7), Late(8), Late(9)];
    actions := [LateAction(0), LateAction(1), LateAction(2), LateAction(3), LateAction(4), LateAction(5),
                LateAction(6), LateAction(7), LateAction(8)];
    forall k: nat | k < 9
      ensures Enabled(false, Late(k), LateAction(k)) && Late(k + 1) == Apply(Late(k), LateAction(k))
    {
      LateStep(k);
    }
  }

  function Late(k: nat): State {
    var write := Checked(0, [9]);
    match k
    case 0 => State([7], 1, [Idle, Idle])
    case 1 => State([7], 1, [write, Idle])
    case 2 => State([7], 1, [write, Asked(0)])
    case 3 => State([7], 1, [write, Locked(0)])
    case 4 => State([7], 0, [write, Narrowed(0)])
    case 5 => State([], 0, [write, Truncated(0)])
    case 6 => State([], 0, [write, Idle])
    case 7 => State([], 0, [Writing(0, [9], 0), Idle])
    case 8 => State([9], 0, [Writing(0, [9], 1), Idle])
    case _ => State([9], 0, [Idle, Idle])
  }

  function LateAction(k: nat): Action {
    match k
    case 0 => StartWrite(0, 0, [9])
    case 1 => StartResize(1, 0)
    case 2 => LockResize(1)
    case 3 => Narrow(1)
    case 4 => Truncate(1, [], true)
    case 5 => Publish(1)
    case 6 => LockWrite(0)
    case 7 => WriteByte(0)
    case _ => EndWrite(0)
  }

  lemma LateStep(k: nat)
    requires k < 9
    ensures Enabled(false, Late(k), LateAction(k)) && Late(k + 1) == Apply(Late(k), LateAction(k))
  {
    if k < 5 { LateResize(k); } else { LateWrite(k); }
  }

  lemma LateResize(k: nat)
    requires k < 5
    ensures Enabled(false, Late(k), LateAction(k)) && Late(k + 1) == Apply(Late(k), LateAction(k))
  {
    hide Overwrite;
  }

  lemma LateWrite(k: nat)
    requires 5 <= k < 9
    ensures Enabled(false, Late(k), LateAction(k)) && Late(k + 1) == Apply(Late(k), LateAction(k))
  {
    hide Moved;
  }

  // ---------------------------------------------------------------- the calls themselves

  /** The device as one thread uses it. */
  class FileDevice {
    var file: Bytes
    var size: nat
    const writable: bool
    const growable: bool
    ghost var failed: bool

    ghost predicate Valid()
      reads this
    {
      size <= |file|
    }

    constructor (file: Bytes, writable: bool, growable: bool)
      ensures Valid() && this.file == file && size == |file| && this.writable == writable && this.growable == growable
      ensures !failed
    {
      this.file, this.size, this.writable, this.growable, failed := file, |file|, writable, growable, false;
    }

    /** One positioned read: what it likes of what is there, or nothing at the end. `failed`
        remembers whether one has failed. */
    method ReadOnce(offset: nat, want: nat) returns (r: Result<Bytes, Error>)
      requires want > 0
      modifies this`failed
      ensures r.Err? ==> r.error == Io
      ensures failed == (old(failed) || r.Err?)
      ensures r.Ok? ==> |r.value| <= want && (r.value == [] <==> offset >= |file|)
      ensures r.Ok? && r.value != [] ==> offset + |r.value| <= |file| && r.value == file[offset..offset + |r.value|]
    {
      var fails: bool, n: nat := *, *;
      if fails {
        failed := true;
        return Err(Io);
      }
      if offset >= |file| {
        return Ok([]);
      }
      n := Max(1, Min(n, Min(want, |file| - offset)));
      r := Ok(file[offset..offset + n]);
    }

    /** Read everything asked for, however many reads that takes. That succeeds exactly when no
        read fails and the file holds all of it; the end of the file on the way is an error
        that says how much there was. */
    method ReadAt(offset: nat, want: nat) returns (r: Result<Bytes, Error>)
      requires !failed
      modifies this`failed
      ensures r.Ok? <==> !failed && (want == 0 || offset + want <= |file|)
      ensures failed <==> r == Err(Io)
      ensures r.Ok? ==>
        && |r.value| == want
        && (want > 0 ==> offset + want <= |file| && r.value == file[offset..offset + want])
      ensures r.Err? ==>
        || r.error == Io
        || (r.error == ShortRead(offset, want, SatSub(|file|, offset)) && offset + want > |file|)
    {
      var got: Bytes := [];
      while |got| < want
        invariant !failed
        invariant |got| <= want && (got != [] ==> offset + |got| <= |file| && got == file[offset..offset + |got|])
        decreases want - |got|
      {
        var more := ReadOnce(offset + |got|, want - |got|);
        if more.Err? {
          return Err(more.error);
        }
        if more.value == [] {
          return Err(ShortRead(offset, want, |got|));
        }
        got := got + more.value;
      }
      r := Ok(got);
    }

    /** Write within the declared size, landing only the first `fault` bytes when it fails. */
    method WriteAt(offset: nat, data: Bytes, fault: Option<nat>) returns (r: Result<(), Error>)
      requires Valid() && size <= U64_MAX
      modifies this`file
      ensures Valid() && |file| == |old(file)|
      ensures !writable ==> r == Err(ReadOnly) && file == old(file)
      ensures writable && offset + |data| > size ==> r == Err(OutOfBounds(offset, |data|, size)) && file == old(file)
      ensures writable && offset + |data| <= size ==>
        var n := if fault.Some? then Min(fault.value, |data|) else |data|;
        r.Ok? == fault.None? && file == old(file)[..offset] + data[..n] + old(file)[offset + n..]
    {
      if !writable {
        return Err(ReadOnly);
      }
      var end := CheckedAdd(offset, |data|);
      if end.None? || end.value > size {
        return Err(OutOfBounds(offset, |data|, size));
      }
      var n := if fault.Some? then Min(fault.value, |data|) else |data|;
      file := file[..offset] + data[..n] + file[offset + n..];
      r := if fault.Some? then Err(Io) else Ok(());
    }

    /** Set the length. A truncation that fails leaves `wreck`; the size declared is then
        what the file measures, or, when that fails too, no more than either length. */
    method SetLen(newLen: nat, wreck: Option<Bytes>, measured: bool) returns (r: Result<(), Error>)
      requires Valid() && (wreck.Some? ==> Moved(file, wreck.value, newLen))
      modifies this
      ensures Valid()
      ensures !writable ==> r == Err(ReadOnly)
      ensures writable && !growable ==> r == Err(NotAFile)
      ensures !writable || !growable ==> file == old(file) && size == old(size)
      ensures writable && growable ==>
        && r.Ok? == wreck.None? && Moved(old(file), file, newLen)
        && (r.Ok? ==> size == |file| == newLen && forall p :: |old(file)| <= p < newLen ==> file[p] == 0)
        && (r.Err? ==> size == if measured then |file| else Min(old(size), newLen))
    {
      if !writable {
        return Err(ReadOnly);
      }
      if !growable {
        return Err(NotAFile);
      }
      if newLen < size {
        size := newLen;
      }
      if wreck.Some? {
        file := wreck.value;
        if measured {
          size := |file|;
        }
        return Err(Io);
      }
      file := if newLen <= |file| then file[..newLen] else file + Zeros(newLen - |file|);
      size := newLen;
      r := Ok(());
    }
  }
}
