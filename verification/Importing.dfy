/** Staged imports: what one import may ask of a sink and in what order, as an automaton
    over its calls, and the copy loop that stays within it. */
module Importing {
  import opened Common
  import opened Streams
  import opened Copying

  datatype Mode = Mode(size: Option<nat>, sparse: bool, verify: bool)

  /** What stops an import other than a call: a signal, an input that fails or is more than
      there should be, or bytes that read back otherwise. */
  datatype Reason = Signal | Input | Outgrown | Differs

  /** A call to the sink, a validation of the source, a look for a signal that found none, or
      a stop that comes from elsewhere. `ok` says it succeeded. */
  datatype Call =
    | Stage(ok: bool)
    | Space(len: nat, ok: bool)
    | Write(at: nat, n: nat, ok: bool)
    | Validated(total: nat, ok: bool)
    | SparseLen(len: nat, ok: bool)
    | Persist(ok: bool)
    | ReadBack(at: nat, n: nat, ok: bool)
    | Publish(ok: bool, replaced: bool)
    | Look
    | Stop(why: Reason)
    | Abort(ok: bool)

  /** `looked` says that a signal was looked for last. */
  datatype Phase =
    | Fresh(looked: bool)
    | Filling(end: nat, room: nat, looked: bool)
    | Checked(total: nat)
    | Sized(total: nat)
    | Persisted(total: nat, looked: bool)
    | Rechecked(total: nat, back: nat, looked: bool)
    | Published(total: nat)
    | Broken
    | Aborted
    | Wrong

  /** What may follow: writes go forward, within the space asked for; the source is
      validated before and after persisting; nothing is published that did not persist,
      validate twice and, where asked, read back to its length; a signal is looked for before
      staging, before every write, validation and read-back, and before publication; a
      failure is followed by the abort and nothing else. */
  function Next(m: Mode, p: Phase, c: Call): Phase {
    match (p, c)
    case (Fresh(looked), Stage(ok)) => if !looked then Wrong else if ok then Filling(0, 0, false) else Broken
    case (Filling(end, room, looked), Space(len, ok)) =>
      if (if m.size.Some? then end != 0 || len != m.size.value else len <= end || !looked) then Wrong
      else if ok then Filling(end, len, looked) else Broken
    case (Filling(end, room, looked), Write(at, n, ok)) =>
      if !looked || at < end || (!m.sparse && at != end) || n == 0 || at + n > room then Wrong
      else if ok then Filling(at + n, room, false) else Broken
    case (Filling(end, room, looked), Validated(total, ok)) =>
      if !looked || total < end || (!m.sparse && total != end) then Wrong
      else if ok then Checked(total) else Broken
    case (Checked(total), SparseLen(len, ok)) =>
      if !m.sparse || len != total then Wrong else if ok then Sized(total) else Broken
    case (Checked(total), Persist(ok)) =>
      if m.sparse then Wrong else if ok then Persisted(total, false) else Broken
    case (Sized(total), Persist(ok)) => if ok then Persisted(total, false) else Broken
    case (Persisted(total, looked), Validated(again, ok)) =>
      if !looked || again != total then Wrong else if ok then Rechecked(total, 0, false) else Broken
    case (Rechecked(total, back, looked), ReadBack(at, n, ok)) =>
      if !looked || !m.verify || at != back || back > total then Wrong
      else if ok then Rechecked(total, back + n, false) else Broken
    case (Rechecked(total, back, looked), Publish(ok, _)) =>
      if !looked || (m.verify && back != total) then Wrong else if ok then Published(total) else Broken
    case (Broken, Abort(_)) => Aborted
    case (_, Stop(_)) => if Open(p) then Broken else Wrong
    case (Fresh(_), Look) => Fresh(true)
    case (Filling(end, room, _), Look) => Filling(end, room, true)
    case (Persisted(total, _), Look) => Persisted(total, true)
    case (Rechecked(total, back, _), Look) => Rechecked(total, back, true)
    case _ => Wrong
  }

  /** Phases in which something can still go wrong. */
  predicate Open(p: Phase) {
    p.Fresh? || p.Filling? || p.Checked? || p.Sized? || p.Persisted? || p.Rechecked?
  }

  function Run(m: Mode, calls: seq<Call>): Phase {
    if calls == [] then Fresh(false) else Next(m, Run(m, calls[..|calls| - 1]), calls[|calls| - 1])
  }

  // ---------------------------------------------------------------- what the order means

  function Count(calls: seq<Call>, what: Call -> bool): nat {
    if calls == [] then 0 else Count(calls[..|calls| - 1], what) + if what(calls[|calls| - 1]) then 1 else 0
  }

  predicate IsAbort(c: Call) { c.Abort? }
  predicate IsPublication(c: Call) { c.Publish? && c.ok }
  predicate IsValidation(c: Call) { c.Validated? && c.ok }
  predicate IsPersistence(c: Call) { c == Persist(true) }

  /** How many validations and persistences a phase has behind it. */
  function Validations(p: Phase): nat {
    match p
    case Checked(_) => 1
    case Sized(_) => 1
    case Persisted(_, _) => 1
    case Rechecked(_, _, _) => 2
    case Published(_) => 2
    case _ => 0
  }

  /** Every order of calls the automaton accepts publishes at most once and aborts at most
      once, never both; it aborts, once and last, exactly when it ended without publishing;
      and it publishes, last, only after persisting once and validating twice. */
  lemma {:induction false} OrderMeans(m: Mode, calls: seq<Call>)
    requires !Run(m, calls).Wrong?
    ensures var p := Run(m, calls);
      && Count(calls, IsAbort) == (if p.Aborted? then 1 else 0)
      && Count(calls, IsPublication) == (if p.Published? then 1 else 0)
      && (p.Aborted? ==> calls != [] && IsAbort(calls[|calls| - 1]))
      && (p.Published? ==> calls != [] && IsPublication(calls[|calls| - 1]))
      && (p.Published? ==> Count(calls, IsValidation) == 2 && Count(calls, IsPersistence) == 1)
      && (!p.Broken? && !p.Aborted? ==> Count(calls, IsValidation) == Validations(p))
      && (!p.Broken? && !p.Aborted? ==>
            Count(calls, IsPersistence) == (if p.Persisted? || p.Rechecked? || p.Published? then 1 else 0))
  {
    if calls == [] {
    } else {
      OrderMeans(m, calls[..|calls| - 1]);
    }
  }

  /** A call that was made and failed. */
  predicate Fails(c: Call) {
    match c
    case Look => false
    case Stop(_) => false
    case Abort(_) => false
    case _ => !c.ok
  }

  /** No call failed, and no signal came. */
  ghost predicate Quiet(calls: seq<Call>) {
    forall c :: c in calls ==> !Fails(c) && c != Stop(Reason.Signal)
  }

  lemma OpenBefore(m: Mode, p: Phase, c: Call)
    requires Open(Next(m, p, c)) || Next(m, p, c).Published?
    ensures Open(p) && !Fails(c) && !c.Stop?
  {
  }

  /** What goes on, or is published, has met no failure and no stop. */
  lemma {:induction false} OpenIsQuiet(m: Mode, calls: seq<Call>)
    requires Open(Run(m, calls)) || Run(m, calls).Published?
    ensures Quiet(calls) && forall c :: c in calls ==> !c.Stop?
  {
    hide Next, Fails;
    if calls == [] {
    } else {
      var shorter := calls[..|calls| - 1];
      OpenBefore(m, Run(m, shorter), calls[|calls| - 1]);
      OpenIsQuiet(m, shorter);
      assert calls == shorter + [calls[|calls| - 1]];
    }
  }

  /** Bytes read back so far. */
  function ReadBackBytes(calls: seq<Call>): nat {
    if calls == [] then 0
    else
      var c := calls[|calls| - 1];
      ReadBackBytes(calls[..|calls| - 1]) + if c.ReadBack? && c.ok then c.n else 0
  }

  /** Accepted calls begin by staging, unless a signal came first; nothing is read back
      before the second validation, and what is verified is read back whole before it is
      published. */
  lemma {:induction false} StagedFirstVerifiedLast(m: Mode, calls: seq<Call>)
    requires !Run(m, calls).Wrong?
    ensures forall k :: 0 <= k < |calls| && !calls[k].Look? && (forall i :: 0 <= i < k ==> calls[i].Look?) ==>
      calls[k].Stage? || calls[k].Stop?
    ensures var p := Run(m, calls);
      && (p.Fresh? || p.Filling? || p.Checked? || p.Sized? || p.Persisted? ==> ReadBackBytes(calls) == 0)
      && (p.Rechecked? ==> ReadBackBytes(calls) == p.back)
      && (p.Published? && m.verify ==> ReadBackBytes(calls) == p.total)
  {
    if calls == [] {
    } else {
      var shorter := calls[..|calls| - 1];
      StagedFirstVerifiedLast(m, shorter);
      if Run(m, shorter).Fresh? { OnlyLooks(m, shorter); } else { SomeCall(m, shorter); }
      forall k | 0 <= k < |calls| && !calls[k].Look? && (forall i :: 0 <= i < k ==> calls[i].Look?)
        ensures calls[k].Stage? || calls[k].Stop?
      {
        if k < |shorter| { assert shorter[k] == calls[k] && forall i :: 0 <= i < k ==> shorter[i] == calls[i]; }
      }
    }
  }

  /** The writes of accepted calls never overlap and never go back. */
  lemma {:induction false} WritesGoForward(m: Mode, calls: seq<Call>, i: nat, j: nat)
    requires !Run(m, calls).Wrong? && i < j < |calls| && calls[i].Write? && calls[i].ok && calls[j].Write?
    ensures calls[i].at + calls[i].n <= calls[j].at
  {
    RunPrefix(m, calls, j + 1);
    var before := calls[..j];
    assert calls[..j + 1][..j] == before;
    WriteFrom(m, before, calls[j]);
    EndCovers(m, before, i);
  }

  /** A write that may follow starts where the writes before it end, or later. */
  lemma WriteFrom(m: Mode, before: seq<Call>, c: Call)
    requires c.Write? && !Next(m, Run(m, before), c).Wrong?
    ensures Run(m, before).Filling? && Run(m, before).end <= c.at
  {
    hide Run;
  }

  lemma {:induction false} RunPrefix(m: Mode, calls: seq<Call>, k: nat)
    requires !Run(m, calls).Wrong? && k <= |calls|
    ensures !Run(m, calls[..k]).Wrong?
  {
    if k < |calls| {
      var shorter := calls[..|calls| - 1];
      RunPrefix(m, shorter, k);
      assert shorter[..k] == calls[..k];
    } else {
      assert calls[..k] == calls;
    }
  }

  lemma {:induction false} EndCovers(m: Mode, calls: seq<Call>, i: nat)
    requires Run(m, calls).Filling? && i < |calls| && calls[i].Write? && calls[i].ok
    ensures calls[i].at + calls[i].n <= Run(m, calls).end
  {
    if i == |calls| - 1 {
    } else {
      var shorter := calls[..|calls| - 1];
      assert Run(m, shorter).Filling? || Run(m, shorter).Fresh?;
      if Run(m, shorter).Fresh? { OnlyLooks(m, shorter); }
      EndCovers(m, shorter, i);
    }
  }

  /** Room was found for every write that accepted calls make. */
  lemma {:induction false} WritesFit(m: Mode, calls: seq<Call>, j: nat) returns (len: nat)
    requires !Run(m, calls).Wrong? && j < |calls| && calls[j].Write?
    ensures Space(len, true) in calls[..j] && calls[j].at + calls[j].n <= len
  {
    RunPrefix(m, calls, j + 1);
    var before := calls[..j];
    assert calls[..j + 1][..j] == before;
    len := Room(m, before, calls[j]);
    RoomAsked(m, before);
  }

  lemma Room(m: Mode, before: seq<Call>, c: Call) returns (room: nat)
    requires c.Write? && !Next(m, Run(m, before), c).Wrong?
    ensures 0 < c.at + c.n <= room && Run(m, before).Filling? && Run(m, before).room == room
  {
    hide Run;
    room := Run(m, before).room;
  }

  lemma {:induction false} RoomAsked(m: Mode, calls: seq<Call>)
    requires Run(m, calls).Filling?
    ensures Run(m, calls).room == 0 || Space(Run(m, calls).room, true) in calls
  {
    hide Run;
    RunLast(m, calls);
    var shorter := calls[..|calls| - 1];
    assert calls == shorter + [calls[|calls| - 1]];
    if Run(m, shorter).Filling? { RoomAsked(m, shorter); }
  }

  lemma RunLast(m: Mode, calls: seq<Call>)
    requires !Run(m, calls).Fresh?
    ensures calls != [] && Run(m, calls) == Next(m, Run(m, calls[..|calls| - 1]), calls[|calls| - 1])
  {
  }

  /** What is published was validated before it persisted and again afterwards, both times for
      just the bytes published. */
  lemma {:induction false} ValidatedAround(m: Mode, calls: seq<Call>) returns (i: nat, j: nat, k: nat)
    requires var p := Run(m, calls); p.Rechecked? || p.Published?
    ensures i < j < k < |calls| && calls[j] == Call.Persist(true)
    ensures calls[i] == calls[k] == Validated(Run(m, calls).total, true)
  {
    hide Run;
    RunLast(m, calls);
    var last, shorter := |calls| - 1, calls[..|calls| - 1];
    if Run(m, shorter).Rechecked? {
      i, j, k := ValidatedAround(m, shorter);
    } else {
      k := last;
      i, j := ValidatedOnce(m, shorter);
    }
  }

  lemma {:induction false} ValidatedOnce(m: Mode, calls: seq<Call>) returns (i: nat, j: nat)
    requires Run(m, calls).Persisted?
    ensures i < j < |calls| && calls[j] == Call.Persist(true) && calls[i] == Validated(Run(m, calls).total, true)
  {
    hide Run, Next;
    RunLast(m, calls);
    var last, shorter := |calls| - 1, calls[..|calls| - 1];
    PersistedFrom(m, Run(m, shorter), calls[last]);
    if Run(m, shorter).Persisted? {
      i, j := ValidatedOnce(m, shorter);
    } else {
      i := ValidatedLast(m, shorter);
      j := last;
    }
  }

  lemma ValidatedLast(m: Mode, calls: seq<Call>) returns (i: nat)
    requires Run(m, calls).Checked? || Run(m, calls).Sized?
    ensures i < |calls| && calls[i] == Validated(Run(m, calls).total, true)
  {
    hide Run, Next;
    RunLast(m, calls);
    var last, shorter := |calls| - 1, calls[..|calls| - 1];
    CheckedFrom(m, Run(m, shorter), calls[last]);
    i := last;
    if Run(m, calls).Sized? {
      RunLast(m, shorter);
      CheckedFrom(m, Run(m, shorter[..last - 1]), shorter[last - 1]);
      i := last - 1;
    }
  }

  lemma PersistedFrom(m: Mode, p: Phase, c: Call)
    requires Next(m, p, c).Persisted?
    ensures (p.Persisted? && p.total == Next(m, p, c).total)
      || (c == Call.Persist(true) && (p.Checked? || p.Sized?) && p.total == Next(m, p, c).total)
  {
  }

  lemma CheckedFrom(m: Mode, p: Phase, c: Call)
    ensures Next(m, p, c).Checked? ==> c == Validated(Next(m, p, c).total, true)
    ensures Next(m, p, c).Sized? ==> p == Checked(Next(m, p, c).total)
  {
  }

  lemma {:induction false} OnlyLooks(m: Mode, calls: seq<Call>)
    requires Run(m, calls).Fresh?
    ensures forall i :: 0 <= i < |calls| ==> calls[i].Look?
  {
    if calls == [] {
    } else {
      OnlyLooks(m, calls[..|calls| - 1]);
    }
  }

  lemma {:induction false} SomeCall(m: Mode, calls: seq<Call>)
    requires !Run(m, calls).Fresh?
    ensures exists i :: 0 <= i < |calls| && !calls[i].Look?
  {
    hide Run;
    RunLast(m, calls);
    var last, shorter := calls[|calls| - 1], calls[..|calls| - 1];
    if last.Look? {
      SomeCall(m, shorter);
      var i :| 0 <= i < |shorter| && !shorter[i].Look?;
      assert !calls[i].Look?;
    }
  }

  /** Nothing is staged, written, validated, read back or published but after a look for a
      signal that found none, with at most the question for room in between. */
  lemma LookedFirst(m: Mode, calls: seq<Call>, k: nat) returns (i: nat)
    requires !Run(m, calls).Wrong? && k < |calls|
    requires var c := calls[k]; c.Stage? || c.Write? || c.Validated? || c.ReadBack? || c.Publish?
    ensures i < k && calls[i].Look? && forall j :: i < j < k ==> calls[j].Space?
  {
    hide Run, Next, Looked;
    RunPrefix(m, calls, k + 1);
    var before := calls[..k];
    RunIs(m, calls[..k + 1]);
    assert calls[..k + 1][..k] == before;
    LookedBefore(m, before, calls[k]);
    i := LookedLast(m, before);
  }

  lemma LookedBefore(m: Mode, before: seq<Call>, c: Call)
    requires !Next(m, Run(m, before), c).Wrong?
    requires c.Stage? || c.Write? || c.Validated? || c.ReadBack? || c.Publish?
    ensures Looked(Run(m, before))
  {
    hide Run;
  }

  predicate Looked(p: Phase) {
    (p.Fresh? || p.Filling? || p.Persisted? || p.Rechecked?) && p.looked
  }

  lemma {:induction false} LookedLast(m: Mode, calls: seq<Call>) returns (i: nat)
    requires Looked(Run(m, calls))
    ensures i < |calls| && calls[i].Look? && forall j :: i < j < |calls| ==> calls[j].Space?
  {
    hide Run;
    RunNothing(m);
    if calls == [] {
    } else {
      var last, shorter := calls[|calls| - 1], calls[..|calls| - 1];
      RunIs(m, calls);
      if last.Look? {
        i := |calls| - 1;
      } else {
        i := LookedLast(m, shorter);
      }
    }
  }

  lemma RunIs(m: Mode, calls: seq<Call>)
    requires calls != []
    ensures Run(m, calls) == Next(m, Run(m, calls[..|calls| - 1]), calls[|calls| - 1])
  {
  }

  // ---------------------------------------------------------------- the import

  datatype Error =
    | NoSink
    | CannotReplace
    | NoSparse
    | Locked
    | Cancelled(bytes: nat)
    | NoSpace
    | InputFailed(bytes: nat)
    | SourceChanged
    | SinkFailed
    | Mismatch
    | NotRecorded

  datatype Done = Done(bytes: nat, sha256: string, replaced: bool)

  /** What the input delivers is more than 64 bits count, than the size it had, or than was
      asked for at a time. */
  ghost predicate Outgrows(m: Mode, replies: seq<Reply>) {
    var read := Deliver(replies, CHUNK);
    || |read.bytes| > U64_MAX || (m.size.Some? && |read.bytes| > m.size.value)
    || (!read.clean && exists k :: 0 <= k < |replies| && replies[k].Data? && |replies[k].bytes| > CHUNK)
  }

  /** What came back is as long as what was sent, and digests to the same. */
  ghost predicate Matches(readBack: Bytes, sent: Bytes, hash: Bytes -> string) {
    |readBack| == |sent| && hash(readBack) == hash(sent)
  }

  /** The error says what a call or a signal was. */
  ghost predicate FromCalls(e: Error, calls: seq<Call>) {
    match e
    case Cancelled(_) => Stop(Reason.Signal) in calls || Call.Persist(false) in calls
    case NoSpace => exists len :: Space(len, false) in calls
    case SourceChanged => exists n :: Validated(n, false) in calls
    case SinkFailed => exists c :: c in calls && Fails(c) && !c.Space? && !c.Validated?
    case _ => false
  }

  /** The error says what was wrong with the input. */
  ghost predicate FromInput(e: Error, calls: seq<Call>, m: Mode, replies: seq<Reply>) {
    match e
    case InputFailed(_) => Stop(Input) in calls && !Deliver(replies, CHUNK).clean
    case SourceChanged => Stop(Outgrown) in calls && Outgrows(m, replies)
    case _ => false
  }

  /** The error says that something else was read back than what was sent. */
  ghost predicate FromReadBack(e: Error, calls: seq<Call>, readBack: Bytes, sent: Bytes, hash: Bytes -> string) {
    e.Mismatch? && Stop(Differs) in calls && !Matches(readBack, sent, hash)
  }

  /** What an error of an import under way says of the calls, the input and what was read back. */
  ghost predicate Shows(e: Error, calls: seq<Call>, m: Mode, replies: seq<Reply>, readBack: Bytes,
                        hash: Bytes -> string)
  {
    || FromCalls(e, calls) || FromInput(e, calls, m, replies)
    || (m.verify && FromReadBack(e, calls, readBack, Deliver(replies, CHUNK).bytes, hash))
  }

  lemma ShowsOn(e: Error, calls: seq<Call>, c: Call, m: Mode, replies: seq<Reply>, readBack: Bytes,
                hash: Bytes -> string)
    requires Shows(e, calls, m, replies, readBack, hash)
    ensures Shows(e, calls + [c], m, replies, readBack, hash)
  {
    hide Deliver, Outgrows, Fails, Matches;
    assert forall x :: x in calls ==> x in calls + [c];
  }

  /** Calls that do not fail, no signal, an input that ends within its size, and bytes that read
      back leave nothing for an error to say. */
  lemma NothingShows(e: Error, calls: seq<Call>, m: Mode, replies: seq<Reply>, readBack: Bytes, hash: Bytes -> string)
    requires Shows(e, calls, m, replies, readBack, hash) && Quiet(calls)
    ensures Outgrows(m, replies) || !Deliver(replies, CHUNK).clean || (e.Mismatch? && m.verify)
    ensures e.Mismatch? ==> !Matches(readBack, Deliver(replies, CHUNK).bytes, hash)
  {
    hide Deliver, Outgrows, Matches;
    if FromCalls(e, calls) {
      LoudCalls(e, calls);
      assert false;
    }
  }

  /** A call that failed, or a signal, is something for an error to say. */
  lemma CallShows(c: Call, calls: seq<Call>)
    requires c in calls
    ensures Fails(c) ==>
      FromCalls(if c.Space? then NoSpace else if c.Validated? then SourceChanged else SinkFailed, calls)
    ensures c == Stop(Reason.Signal) ==> forall n :: FromCalls(Error.Cancelled(n), calls)
  {
    if Fails(c) && c.Space? { assert c == Space(c.len, false); }
    if Fails(c) && c.Validated? { assert c == Validated(c.total, false); }
  }

  lemma LoudCalls(e: Error, calls: seq<Call>)
    requires FromCalls(e, calls)
    ensures !Quiet(calls)
  {
    match e {
      case Cancelled(_) => assert Fails(Call.Persist(false));
      case NoSpace =>
        var len :| Space(len, false) in calls;
        assert Fails(Space(len, false));
      case SourceChanged =>
        var n :| Validated(n, false) in calls;
        assert Fails(Validated(n, false));
      case SinkFailed =>
    }
  }

  /** A driver's staged file: any call may fail, reads may answer anything, and `calls`
      remembers what was asked. */
  class Sink {
    const canReplace: bool
    const canSparse: bool
    const faithful: bool
    var staged: Bytes
    ghost var calls: seq<Call>

    /** `faithful` says that the staged file reads back as what it holds. */
    constructor (canReplace: bool, canSparse: bool, faithful: bool)
      ensures this.canReplace == canReplace && this.canSparse == canSparse && this.faithful == faithful && calls == []
    {
      this.canReplace, this.canSparse, this.faithful, staged, calls := canReplace, canSparse, faithful, [], [];
    }

    /** One more call, which takes the automaton one step on. */
    twostate predicate Does(c: Call)
      reads this
    {
      && calls == old(calls) + [c] && c in calls
      && forall m :: Run(m, calls) == Next(m, Run(m, old(calls)), c)
    }

    ghost method Note(c: Call)
      modifies this`calls
      ensures Does(c)
    {
      calls := calls + [c];
      assert calls[..|calls| - 1] == old(calls);
    }

    method Stage() returns (ok: bool)
      modifies this
      ensures Does(Call.Stage(ok)) && (ok ==> staged == [])
    {
      ok := *;
      staged := [];
      Note(Call.Stage(ok));
    }

    /** The driver may report the bytes free and the bytes a copy of `len` needs. */
    method CheckSpace(len: nat) returns (ok: bool)
      modifies this`calls
      ensures Does(Space(len, ok))
    {
      var space: Result<Option<(nat, nat)>, ()> := *;
      ok := space.Ok? && !(space.value.Some? && space.value.value.1 > space.value.value.0);
      Note(Space(len, ok));
    }

    method WriteAt(at: nat, bytes: Bytes) returns (ok: bool)
      modifies this
      ensures Does(Write(at, |bytes|, ok))
      ensures ok ==> staged == Overwrite(old(staged), at, bytes)
    {
      ok := *;
      var part: Bytes := *;
      staged := if ok then Overwrite(staged, at, bytes) else part;
      Note(Write(at, |bytes|, ok));
    }

    method SetSparseLen(len: nat) returns (ok: bool)
      modifies this
      ensures Does(SparseLen(len, ok)) && staged == Resized(old(staged), len)
    {
      ok := *;
      staged := Resized(staged, len);
      Note(SparseLen(len, ok));
    }

    method Persist() returns (ok: bool)
      modifies this`calls
      ensures Does(Call.Persist(ok))
    {
      ok := *;
      Note(Call.Persist(ok));
    }

    /** Read back at most a chunk; a longer answer counts as a failure. */
    method ReadAt(at: nat) returns (r: Option<Bytes>)
      modifies this`calls
      ensures Does(if r.Some? then ReadBack(at, |r.value|, true) else ReadBack(at, 0, false))
      ensures r.Some? ==> |r.value| <= CHUNK
      ensures faithful && r.Some? ==>
        (r.value == [] <==> at >= |staged|)
          && (r.value != [] ==> at + |r.value| <= |staged| && r.value == staged[at..at + |r.value|])
    {
      r := *;
      if faithful && r.Some? {
        var n: nat := *;
        r := Some(if at >= |staged| then [] else staged[at..at + Max(1, Min(n, Min(CHUNK, |staged| - at)))]);
      }
      if r.Some? && |r.value| > CHUNK {
        r := None;
      }
      Note(if r.Some? then ReadBack(at, |r.value|, true) else ReadBack(at, 0, false));
    }

    /** Whether a name was replaced, if publishing worked. */
    method Publish() returns (r: Option<bool>)
      modifies this`calls
      ensures Does(Call.Publish(r.Some?, r == Some(true)))
    {
      r := *;
      Note(Call.Publish(r.Some?, r == Some(true)));
    }

    method Abort() returns (ok: bool)
      modifies this`calls
      ensures Does(Call.Abort(ok))
    {
      ok := *;
      Note(Call.Abort(ok));
    }
  }

  /** The check that the source is still what it was, after `total` bytes of it. */
  method Validate(sink: Sink, total: nat) returns (ok: bool)
    modifies sink`calls
    ensures sink.Does(Validated(total, ok))
  {
    ok := *;
    sink.Note(Validated(total, ok));
  }

  /** A signal may have come. */
  method Signalled(sink: Sink) returns (stop: bool)
    modifies sink`calls
    ensures sink.Does(if stop then Stop(Reason.Signal) else Look)
  {
    stop := *;
    sink.Note(if stop then Stop(Reason.Signal) else Look);
  }

  /** The staged file stands for exactly the bytes read so far. */
  ghost predicate Stands(m: Mode, p: Phase, staged: Bytes, done: Bytes) {
    && p.Filling? && p.end <= |done| && (m.size.Some? ==> |done| <= m.size.value == p.room)
    && |staged| <= |done| && Logical(Cursor(staged, |done|)) == done
    && (!m.sparse ==> p.end == |staged| == |done|)
  }

  ghost predicate Holding(m: Mode, sink: Sink, done: Bytes)
    reads sink
  {
    Stands(m, Run(m, sink.calls), sink.staged, done)
  }

  /** Copy the stream into the staged file, which then stands for exactly the bytes read. */
  method Fill(m: Mode, sink: Sink, replies: seq<Reply>) returns (r: Result<Bytes, Error>)
    requires Run(m, sink.calls) == Filling(0, if m.size.Some? then m.size.value else 0, false) && sink.staged == []
    modifies sink
    ensures r.Err? ==>
      Run(m, sink.calls) == Broken && (FromCalls(r.error, sink.calls) || FromInput(r.error, sink.calls, m, replies))
    ensures r.Ok? ==>
      && Deliver(replies, CHUNK) == Delivery(r.value, true)
      && |r.value| <= U64_MAX && Holding(m, sink, r.value)
  {
    hide Stands, Next, Run, Deliver, Ahead;
    HoldingNothing(m, sink);
    AheadStart(replies, CHUNK);
    var digested: Bytes, i := [], 0;
    ghost var read := Deliver(replies, CHUNK);
    while i <= |replies|
      invariant i <= |replies|
      invariant Ahead(read, digested, replies, i, CHUNK)
      invariant |digested| <= U64_MAX && Holding(m, sink, digested)
    {
      HoldingOpen(m, sink, digested);
      var stop := Signalled(sink);
      if stop {
        return Err(Error.Cancelled(|digested|));
      }
      HoldingOpen(m, sink, digested);
      var reply := if i < |replies| then replies[i] else Data([]);
      if i < |replies| {
        AheadStep(read, digested, replies, i, CHUNK);
      } else {
        AheadEnd(read, digested, replies, CHUNK);
      }
      stop := Signalled(sink);
      if stop {
        return Err(Error.Cancelled(|digested|));
      }
      HoldingOpen(m, sink, digested);
      match reply
      case Interrupted =>
        i := i + 1;
      case Failed =>
        sink.Note(Stop(Input));
        return Err(InputFailed(|digested|));
      case Data(chunk) =>
        if chunk == [] {
          break;
        }
        var next := |digested| + |chunk|;
        if |chunk| > CHUNK || next > U64_MAX || (m.size.Some? && next > m.size.value) {
          if |chunk| <= CHUNK { AheadBound(read, digested + chunk, replies, i + 1, CHUNK); }
          sink.Note(Stop(Outgrown));
          return Err(SourceChanged);
        }
        var failed := Put(m, sink, digested, chunk);
        if failed.Some? {
          return Err(failed.value);
        }
        digested := digested + chunk;
        i := i + 1;
    }
    r := Ok(digested);
  }

  lemma HoldingNothing(m: Mode, sink: Sink)
    requires Run(m, sink.calls) == Filling(0, if m.size.Some? then m.size.value else 0, false) && sink.staged == []
    ensures Holding(m, sink, [])
  {
  }

  lemma HoldingOpen(m: Mode, sink: Sink, done: Bytes)
    requires Holding(m, sink, done)
    ensures Run(m, sink.calls).Filling? && forall why :: Next(m, Run(m, sink.calls), Stop(why)) == Broken
    ensures var p := Next(m, Run(m, sink.calls), Look); Stands(m, p, sink.staged, done) && Looked(p)
  {
  }

  lemma HoldingLogical(m: Mode, sink: Sink, done: Bytes)
    requires Holding(m, sink, done) && Looked(Run(m, sink.calls))
    ensures Next(m, Run(m, sink.calls), Validated(|done|, true)) == Checked(|done|)
    ensures Next(m, Run(m, sink.calls), Validated(|done|, false)) == Broken
    ensures m.size.Some? ==> |done| <= m.size.value
    ensures Resized(sink.staged, |done|) == done && (!m.sparse ==> sink.staged == done)
  {
    ResizedIsLogical(Cursor(sink.staged, |done|));
  }

  lemma HoldingFits(m: Mode, sink: Sink, done: Bytes)
    requires Holding(m, sink, done)
    ensures m.size.Some? ==> |done| <= m.size.value
  {
  }

  lemma RunNothing(m: Mode)
    ensures Run(m, []) == Fresh(false)
  {
  }

  /** Write one chunk after the bytes already there, or leave a hole for one of zeros. */
  method Put(m: Mode, sink: Sink, done: Bytes, chunk: Bytes) returns (failed: Option<Error>)
    requires chunk != [] && Holding(m, sink, done) && Looked(Run(m, sink.calls))
    requires m.size.Some? ==> |done| + |chunk| <= m.size.value
    modifies sink
    ensures if failed.Some? then Run(m, sink.calls) == Broken && FromCalls(failed.value, sink.calls)
      else Holding(m, sink, done + chunk)
    ensures m.sparse && AllZero(chunk) ==> failed.None? && sink.calls == old(sink.calls)
    ensures !(m.sparse && AllZero(chunk)) && failed.None? ==>
      |sink.calls| > 0 && sink.calls[|sink.calls| - 1] == Write(|done|, |chunk|, true)
  {
    hide Run, Overwrite, FromCalls;
    if m.sparse && AllZero(chunk) {
      WriteAppends(true, Cursor(sink.staged, |done|), chunk, |chunk|);
      assert chunk[..|chunk|] == chunk;
      return None;
    }
    if m.size.None? {
      var enough := sink.CheckSpace(|done| + |chunk|);
      if !enough {
        CallShows(Space(|done| + |chunk|, false), sink.calls);
        return Some(NoSpace);
      }
    }
    WriteAppends(false, Cursor(sink.staged, |done|), chunk, |chunk|);
    assert chunk[..|chunk|] == chunk;
    var wrote := sink.WriteAt(|done|, chunk);
    CallShows(Write(|done|, |chunk|, wrote), sink.calls);
    failed := if wrote then None else Some(SinkFailed);
  }

  /** Read the persisted file back until it ends or grows past the length sent. A sink that
      reads back what it holds never disagrees about a file that holds what was sent. */
  method VerifyStaged(m: Mode, sink: Sink, sent: Bytes, hash: Bytes -> string)
    returns (failed: Option<Error>, readBack: Bytes)
    requires m.verify && Run(m, sink.calls) == Rechecked(|sent|, 0, false) && |sent| <= U64_MAX
    modifies sink`calls
    ensures failed.Some? ==>
      && Run(m, sink.calls) == Broken
      && (FromCalls(failed.value, sink.calls) || FromReadBack(failed.value, sink.calls, readBack, sent, hash))
    ensures failed.None? ==> Run(m, sink.calls) == Rechecked(|sent|, |sent|, false) && Matches(readBack, sent, hash)
    ensures sink.faithful && sink.staged == sent ==>
      failed != Some(Mismatch) && (failed.None? ==> readBack == sent)
  {
    hide Run, Next, FromCalls, Fails, Overwrite;
    readBack := [];
    while |readBack| <= |sent|
      invariant Run(m, sink.calls) == Rechecked(|sent|, |readBack|, false)
      invariant sink.faithful && sink.staged == sent ==> readBack <= sent
      decreases |sent| + 1 - |readBack|
    {
      ReadBackNext(m, |sent|, |readBack|);
      var stop := Signalled(sink);
      if stop {
        CallShows(Stop(Reason.Signal), sink.calls);
        return Some(Error.Cancelled(|readBack|)), readBack;
      }
      var got := sink.ReadAt(|readBack|);
      if got.None? {
        CallShows(ReadBack(|readBack|, 0, false), sink.calls);
        FailsReadBack(|readBack|);
        return Some(SinkFailed), readBack;
      }
      if got.value == [] {
        assert sink.faithful && sink.staged == sent ==> readBack == sent[..|sent|] == sent;
        break;
      }
      readBack := readBack + got.value;
      ReadBackNext(m, |sent|, |readBack|);
      if |readBack| > U64_MAX {
        sink.Note(Stop(Differs));
        return Some(Mismatch), readBack;
      }
    }
    ReadBackNext(m, |sent|, |readBack|);
    if |readBack| != |sent| || hash(readBack) != hash(sent) {
      sink.Note(Stop(Differs));
      return Some(Mismatch), readBack;
    }
    failed := None;
  }

  lemma ReadBackNext(m: Mode, total: nat, back: nat)
    ensures forall looked, why :: Next(m, Rechecked(total, back, looked), Stop(why)) == Broken
    ensures forall looked :: Next(m, Rechecked(total, back, looked), Look) == Rechecked(total, back, true)
    ensures m.verify && back <= total ==>
      && Next(m, Rechecked(total, back, true), ReadBack(back, 0, false)) == Broken
      && forall n :: Next(m, Rechecked(total, back, true), ReadBack(back, n, true)) == Rechecked(total, back + n, false)
  {
  }

  lemma FailsReadBack(at: nat)
    ensures Fails(ReadBack(at, 0, false))
  {
  }

  /** Create the staged file and ask for room. */
  method Begin(m: Mode, sink: Sink) returns (failed: Option<Error>)
    requires sink.calls == []
    modifies sink
    ensures failed.Some? ==> Run(m, sink.calls) == Broken && FromCalls(failed.value, sink.calls)
    ensures failed.None? ==>
      Run(m, sink.calls) == Filling(0, if m.size.Some? then m.size.value else 0, false) && sink.staged == []
  {
    hide Run;
    RunNothing(m);
    var stop := Signalled(sink);
    if stop {
      return Some(Error.Cancelled(0));
    }
    var ok := sink.Stage();
    if !ok {
      return Some(SinkFailed);
    }
    if m.size.Some? {
      ok := sink.CheckSpace(m.size.value);
      if !ok {
        return Some(NoSpace);
      }
    }
    failed := None;
  }

  /** Fill the staged file with the stream and settle it. */
  method StageStream(m: Mode, sink: Sink, replies: seq<Reply>) returns (r: Result<Bytes, Error>)
    requires sink.calls == []
    modifies sink
    ensures r.Err? ==>
      && Run(m, sink.calls) == Broken && !r.error.Mismatch?
      && (FromCalls(r.error, sink.calls) || FromInput(r.error, sink.calls, m, replies))
    ensures r.Ok? ==>
      && Run(m, sink.calls) == Rechecked(|r.value|, 0, false) && sink.staged == r.value
      && Deliver(replies, CHUNK) == Delivery(r.value, true)
      && |r.value| <= U64_MAX && (m.size.Some? ==> |r.value| <= m.size.value)
  {
    hide Run, Deliver, Stands, Outgrows, Next;
    var failed := Begin(m, sink);
    if failed.Some? {
      return Err(failed.value);
    }
    r := Fill(m, sink, replies);
    if r.Err? {
      return;
    }
    HoldingFits(m, sink, r.value);
    failed := Settle(m, sink, r.value);
    if failed.Some? {
      return Err(failed.value);
    }
  }

  /** Everything between staging and publication. */
  method StageAndPublish(m: Mode, sink: Sink, replies: seq<Reply>, hash: Bytes -> string)
    returns (r: Result<Done, Error>, readBack: Bytes)
    requires sink.calls == []
    modifies sink
    ensures r.Err? ==>
      Run(m, sink.calls) == Broken && Shows(r.error, sink.calls, m, replies, readBack, hash)
    ensures r.Ok? ==>
      var read := Deliver(replies, CHUNK);
      && |read.bytes| <= U64_MAX && Run(m, sink.calls) == Published(|read.bytes|)
      && read.clean && sink.staged == read.bytes && (m.size.Some? ==> |read.bytes| <= m.size.value)
      && r.value.bytes == |read.bytes| && r.value.sha256 == hash(read.bytes)
      && Call.Publish(true, r.value.replaced) in sink.calls
      && (m.verify ==> Matches(readBack, read.bytes, hash))
    ensures sink.faithful ==> r != Err(Mismatch)
  {
    hide Run, Deliver, FromCalls, FromInput, FromReadBack, Matches;
    readBack := [];
    var staged := StageStream(m, sink, replies);
    if staged.Err? {
      return Err(staged.error), readBack;
    }
    var sent := staged.value;
    if m.verify {
      var failed;
      failed, readBack := VerifyStaged(m, sink, sent, hash);
      if failed.Some? {
        return Err(failed.value), readBack;
      }
    }
    var stop := Signalled(sink);
    if stop {
      CallShows(Stop(Reason.Signal), sink.calls);
      return Err(Error.Cancelled(|sent|)), readBack;
    }
    var published := sink.Publish();
    if published.None? {
      CallShows(Call.Publish(false, false), sink.calls);
      return Err(SinkFailed), readBack;
    }
    r := Ok(Done(|sent|, hash(sent), published.value));
  }

  /** Validate the source, set a sparse length, persist, and validate again. */
  method Settle(m: Mode, sink: Sink, read: Bytes) returns (failed: Option<Error>)
    requires Holding(m, sink, read)
    modifies sink
    ensures failed.Some? ==> Run(m, sink.calls) == Broken && FromCalls(failed.value, sink.calls)
    ensures failed.None? ==> Run(m, sink.calls) == Rechecked(|read|, 0, false) && sink.staged == read
  {
    hide Run, Stands, Logical, Resized, FromCalls;
    HoldingOpen(m, sink, read);
    var stop := Signalled(sink);
    if stop {
      CallShows(Stop(Reason.Signal), sink.calls);
      return Some(Error.Cancelled(|read|));
    }
    HoldingLogical(m, sink, read);
    var ok := Validate(sink, |read|);
    if !ok {
      CallShows(Validated(|read|, false), sink.calls);
      return Some(SourceChanged);
    }
    if m.sparse {
      ok := sink.SetSparseLen(|read|);
      if !ok {
        CallShows(SparseLen(|read|, false), sink.calls);
        return Some(SinkFailed);
      }
    }
    failed := PersistChecked(m, sink, |read|);
  }

  /** Persist, and validate again. */
  method PersistChecked(m: Mode, sink: Sink, total: nat) returns (failed: Option<Error>)
    requires Run(m, sink.calls) == if m.sparse then Sized(total) else Checked(total)
    modifies sink`calls
    ensures failed.Some? ==> Run(m, sink.calls) == Broken && FromCalls(failed.value, sink.calls)
    ensures failed.None? ==> Run(m, sink.calls) == Rechecked(total, 0, false)
  {
    hide Run;
    var persisted := sink.Persist();
    var stop := SignalledAfter(m, sink, persisted);
    if stop {
      return Some(Error.Cancelled(total));
    }
    if !persisted {
      return Some(SinkFailed);
    }
    var ok := Validate(sink, total);
    failed := if ok then None else Some(SourceChanged);
  }

  /** A signal may have come while the file was persisting; it is what gets reported, even
      when persisting failed too. */
  method SignalledAfter(m: Mode, sink: Sink, persisted: bool) returns (stop: bool)
    requires if persisted then Open(Run(m, sink.calls)) else Run(m, sink.calls) == Broken
    modifies sink`calls
    ensures stop ==> Run(m, sink.calls) == Broken
    ensures stop && persisted ==> Stop(Reason.Signal) in sink.calls
    ensures !stop && persisted ==> sink.Does(Look)
    ensures !persisted ==> sink.calls == old(sink.calls)
  {
    stop := *;
    if persisted {
      sink.Note(if stop then Stop(Reason.Signal) else Look);
    }
  }

  /** Import a stream through a sink. Refusals make no calls. Otherwise the calls are in
      order, and the import either publishes a file holding exactly the bytes of a stream
      that was read to its end, or aborts; only failing to record what was published is an
      error that does neither. It publishes exactly when no call failed, no signal came, the
      stream ended within its size, and what was to be verified read back, as it does from a
      sink that reads back what it holds; any other error says what was met. */
  method Import(sink: Option<Sink>, locked: bool, replace: bool, m: Mode, record: bool,
                replies: seq<Reply>, hash: Bytes -> string)
    returns (r: Result<Done, Error>, readBack: Bytes)
    requires sink.Some? ==> sink.value.calls == []
    modifies if sink.Some? then {sink.value} else {}
    ensures sink.None? ==> r == Err(NoSink)
    ensures sink.Some? ==>
      var refused := (replace && !sink.value.canReplace) || (m.sparse && !sink.value.canSparse) || !locked;
      var p, read := Run(m, sink.value.calls), Deliver(replies, CHUNK);
      && (refused ==> sink.value.calls == [])
      && (refused <==> r.Err? && (r.error.CannotReplace? || r.error.NoSparse? || r.error.Locked?))
      && (r.Err? && r.error.CannotReplace? ==> replace && !sink.value.canReplace)
      && (r.Err? && r.error.NoSparse? ==> m.sparse && !sink.value.canSparse)
      && (r.Err? && r.error.Locked? ==> !locked)
      && (!refused ==>
            if r.Ok? || r.error.NotRecorded? then
              && p == Published(|read.bytes|) && sink.value.staged == read.bytes
              && (r.Ok? ==>
                    && r.value.bytes == |read.bytes| && r.value.sha256 == hash(read.bytes)
                    && Call.Publish(true, r.value.replaced) in sink.value.calls)
              && (r.Err? ==> record)
            else p == Aborted && Shows(r.error, sink.value.calls, m, replies, readBack, hash))
      && (!refused ==>
            (r.Ok? || r.error.NotRecorded? <==>
               && Quiet(sink.value.calls) && read.clean && !Outgrows(m, replies)
               && (m.verify ==> Matches(readBack, read.bytes, hash))))
      && (!refused && Quiet(sink.value.calls) && read.clean && !Outgrows(m, replies) ==>
            (m.verify ==> sink.value.faithful) ==> r.Ok? || r.error.NotRecorded?)
      && (sink.value.faithful ==> r != Err(Mismatch))
  {
    readBack := [];
    if sink.None? {
      return Err(NoSink), readBack;
    }
    if replace && !sink.value.canReplace {
      return Err(CannotReplace), readBack;
    }
    if m.sparse && !sink.value.canSparse {
      return Err(NoSparse), readBack;
    }
    if !locked {
      return Err(Locked), readBack;
    }
    hide Run, Deliver, Quiet, Matches;
    r, readBack := StageAndPublish(m, sink.value, replies, hash);
    ghost var calls := sink.value.calls;
    if r.Err? {
      var ok := sink.value.Abort();
      ShowsOn(r.error, calls, Call.Abort(ok), m, replies, readBack, hash);
      if Quiet(sink.value.calls) { NothingShows(r.error, sink.value.calls, m, replies, readBack, hash); }
      return;
    }
    OpenIsQuiet(m, calls);
    var recorded: bool := *;
    if record && !recorded {
      return Err(NotRecorded), readBack;
    }
  }
}
