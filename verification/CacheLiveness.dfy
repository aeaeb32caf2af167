/** The block cache's fetch bookkeeping under concurrency: the in-flight list is exactly
    the live fetch guards, the counters are conserved, no thread sleeps while another
    could be waiting for it, no wake-up is lost, and every call can always be finished. */
module CacheLiveness {
  import opened Common
  import opened Recency
  import opened CacheProtocol

  // ----- sums over every call of every thread

  ghost function SumStack(w: Frame -> nat, stack: seq<Frame>): nat {
    if stack == [] then 0 else SumStack(w, stack[..|stack| - 1]) + w(stack[|stack| - 1])
  }

  ghost function SumAll(w: Frame -> nat, stacks: seq<seq<Frame>>): nat {
    if stacks == [] then 0 else SumAll(w, stacks[..|stacks| - 1]) + SumStack(w, stacks[|stacks| - 1])
  }

  lemma SumPush(w: Frame -> nat, stack: seq<Frame>, f: Frame)
    ensures SumStack(w, stack + [f]) == SumStack(w, stack) + w(f)
  {
    assert (stack + [f])[..|stack|] == stack;
  }

  lemma {:induction false} SumPut(w: Frame -> nat, stacks: seq<seq<Frame>>, t: nat, stack: seq<Frame>)
    requires t < |stacks|
    ensures SumAll(w, stacks[t := stack]) + SumStack(w, stacks[t]) == SumAll(w, stacks) + SumStack(w, stack)
  {
    var n := |stacks| - 1;
    if t < n {
      SumPut(w, stacks[..n], t, stack);
      assert stacks[t := stack][..n] == stacks[..n][t := stack];
    } else {
      assert stacks[t := stack][..n] == stacks[..n];
    }
  }

  lemma SumGo(w: Frame -> nat, s: State, t: nat, f: Frame)
    requires Busy(s, t)
    ensures SumAll(w, s.stacks[t := Below(s, t) + [f]]) + w(Top(s, t)) == SumAll(w, s.stacks) + w(f)
    ensures SumAll(w, s.stacks[t := Below(s, t)]) + w(Top(s, t)) == SumAll(w, s.stacks)
    ensures SumStack(w, s.stacks[t]) == SumStack(w, Below(s, t)) + w(Top(s, t))
    ensures SumStack(w, Below(s, t) + [f]) == SumStack(w, Below(s, t)) + w(f)
  {
    SumPush(w, Below(s, t), f);
    SumPut(w, s.stacks, t, Below(s, t) + [f]);
    SumPut(w, s.stacks, t, Below(s, t));
  }

  lemma {:induction false} SumWokenStack(w: Frame -> nat, stack: seq<Frame>, woken: seq<Frame>)
    requires |stack| == |woken|
    requires forall k :: 0 <= k < |stack| ==> woken[k] == WokenFrame(stack[k])
    requires forall b, born :: w(Waiting(b, born)) == w(Looking(b, born))
    ensures SumStack(w, woken) == SumStack(w, stack)
  {
    if stack == [] {
    } else {
      var n := |stack| - 1;
      SumWokenStack(w, stack[..n], woken[..n]);
      assert woken[n] == WokenFrame(stack[n]);
      if stack[n].Waiting? {
        assert w(Waiting(stack[n].block, stack[n].born)) == w(Looking(stack[n].block, stack[n].born));
      }
    }
  }

  lemma {:induction false} SumWoken(w: Frame -> nat, stacks: seq<seq<Frame>>)
    requires forall b, born :: w(Waiting(b, born)) == w(Looking(b, born))
    ensures SumAll(w, Woken(stacks)) == SumAll(w, stacks)
  {
    if stacks == [] {
    } else {
      var n := |stacks| - 1;
      SumWoken(w, stacks[..n]);
      assert Woken(stacks)[..n] == Woken(stacks[..n]);
      SumWokenStack(w, stacks[n], Woken(stacks)[n]);
    }
  }

  // ----- what is counted

  function GuardOn(f: Frame, b: nat): nat {
    if Fetching(f) && f.block == b then 1 else 0
  }

  function GuardOf(b: nat): Frame -> nat {
    (f: Frame) => GuardOn(f, b)
  }

  /** A lookup that has been counted as a hit or a miss and has not returned. */
  function ChargedOne(f: Frame): nat {
    if Fetching(f) || f.Notifying? || f.Returning? then 1 else 0
  }

  function Charged(): Frame -> nat {
    (f: Frame) => ChargedOne(f)
  }

  /** The block of the outermost fetch in a stack. */
  ghost function FirstFetch(stack: seq<Frame>): Option<nat> {
    if stack == [] then None
    else
      var below := FirstFetch(stack[..|stack| - 1]);
      var f := stack[|stack| - 1];
      if below.Some? then below else if Fetching(f) then Some(f.block) else None
  }

  lemma FirstFetchPush(stack: seq<Frame>, f: Frame)
    ensures FirstFetch(stack + [f]) ==
      if FirstFetch(stack).Some? then FirstFetch(stack) else if Fetching(f) then Some(f.block) else None
  {
    assert (stack + [f])[..|stack|] == stack;
  }

  lemma FirstFetchTop(s: State, t: nat)
    requires Busy(s, t)
    ensures FirstFetch(s.stacks[t]) ==
      if FirstFetch(Below(s, t)).Some? then FirstFetch(Below(s, t))
      else if Fetching(Top(s, t)) then Some(Top(s, t).block) else None
  {
    assert s.stacks[t] == Below(s, t) + [Top(s, t)];
    FirstFetchPush(Below(s, t), Top(s, t));
  }

  lemma {:induction false} FirstFetchCounts(stack: seq<Frame>)
    ensures FirstFetch(stack).Some? ==> SumStack(GuardOf(FirstFetch(stack).value), stack) >= 1
    ensures FirstFetch(stack).None? ==> forall b :: SumStack(GuardOf(b), stack) == 0
  {
    if stack == [] {
    } else {
      FirstFetchCounts(stack[..|stack| - 1]);
      var f := stack[|stack| - 1];
      assert Fetching(f) ==> GuardOf(f.block)(f) == 1;
    }
  }

  /** The in-flight list is the multiset of live guards, thread by thread. */
  ghost predicate MarkersExact(s: State) {
    && (forall k :: 0 <= k < |s.inFlight| ==> s.inFlight[k].1 < |s.stacks|)
    && (forall t, b :: 0 <= t < |s.stacks| ==> multiset(s.inFlight)[(b, t)] == SumStack(GuardOf(b), s.stacks[t]))
  }

  /** Only a call inside the device has anything above it. */
  ghost predicate OnlyCallersBelow(s: State) {
    forall t, k :: 0 <= t < |s.stacks| && 0 <= k < |s.stacks[t]| - 1 ==> CanCallOut(s.stacks[t][k])
  }

  ghost predicate Asleep(s: State, t: nat) {
    Busy(s, t) && Top(s, t).Waiting?
  }

  ghost predicate AboutToNotify(s: State, t: nat) {
    Busy(s, t) && Top(s, t).Notifying?
  }

  ghost predicate NotificationDue(s: State) {
    exists u: nat :: AboutToNotify(s, u)
  }

  /** A sleeper owns no fetch, and its block is in flight or a notification is due. */
  ghost predicate SleepersAwaited(s: State) {
    && (forall t: nat :: Asleep(s, t) ==> FirstFetch(s.stacks[t]).None?)
    && (forall t: nat :: Asleep(s, t) ==> BeingFetched(s, Top(s, t).block) || NotificationDue(s))
  }

  /** Outermost fetches of different threads are of different blocks. */
  ghost predicate FirstFetchesDiffer(s: State) {
    forall t, u :: 0 <= t < u < |s.stacks| && FirstFetch(s.stacks[t]).Some? ==>
      FirstFetch(s.stacks[t]) != FirstFetch(s.stacks[u])
  }

  ghost predicate Conserved(s: State) {
    && s.hits + s.misses == s.answered + SumAll(Charged(), s.stacks)
    && s.misses == s.retired + |s.inFlight|
  }

  ghost predicate Orderly(s: State) {
    && |s.dev| <= U64_MAX
    && OnlyCallersBelow(s) && MarkersExact(s) && SleepersAwaited(s) && FirstFetchesDiffer(s) && Conserved(s)
  }

  lemma InFlightIs(s: State, b: nat, t: nat)
    requires MarkersExact(s) && t < |s.stacks|
    ensures (b, t) in s.inFlight <==> SumStack(GuardOf(b), s.stacks[t]) >= 1
  {
    assert (b, t) in s.inFlight <==> (b, t) in multiset(s.inFlight);
  }

  lemma HoldingIs(s: State, t: nat)
    requires MarkersExact(s) && t < |s.stacks|
    ensures HoldingAFetch(s, t) <==> FirstFetch(s.stacks[t]).Some?
  {
    FirstFetchCounts(s.stacks[t]);
    if HoldingAFetch(s, t) {
      var k :| 0 <= k < |s.inFlight| && s.inFlight[k].1 == t;
      assert s.inFlight[k] == (s.inFlight[k].0, t);
      InFlightIs(s, s.inFlight[k].0, t);
    }
    if FirstFetch(s.stacks[t]).Some? {
      var b := FirstFetch(s.stacks[t]).value;
      InFlightIs(s, b, t);
      var k :| 0 <= k < |s.inFlight| && s.inFlight[k] == (b, t);
      assert s.inFlight[k].1 == t;
    }
  }

  lemma InFlightBlock(s: State, b: nat, t: nat)
    requires (b, t) in s.inFlight
    ensures BeingFetched(s, b)
  {
    var k :| 0 <= k < |s.inFlight| && s.inFlight[k] == (b, t);
    assert s.inFlight[k].0 == b;
  }

  lemma UnmarkRemovesOne(l: seq<(nat, nat)>, m: (nat, nat))
    requires m in l
    ensures multiset(Unmark(l, m)) == multiset(l) - multiset{m}
    ensures |Unmark(l, m)| == |l| - 1
    ensures forall x :: x in Unmark(l, m) ==> x in l
  {
    var k := Marker(l, m);
    assert l == l[..k] + [m] + l[k + 1..];
  }

  // ----- a step of one thread that leaves its guard as it was

  /** Same threads, with `t`'s top call replaced by one holding the same fetch, if any. */
  ghost predicate SameGuard(s: State, s': State, t: nat, f: Frame) {
    && Busy(s, t) && s'.stacks == s.stacks[t := Below(s, t) + [f]]
    && s'.inFlight == s.inFlight
    && Fetching(Top(s, t)) == Fetching(f) && (Fetching(f) ==> Top(s, t).block == f.block)
  }

  lemma SameGuardMarkers(s: State, s': State, t: nat, f: Frame)
    requires SameGuard(s, s', t, f) && MarkersExact(s) && FirstFetchesDiffer(s)
    ensures MarkersExact(s') && FirstFetchesDiffer(s')
    ensures FirstFetch(s'.stacks[t]) == FirstFetch(s.stacks[t])
  {
    forall b ensures SumStack(GuardOf(b), s'.stacks[t]) == SumStack(GuardOf(b), s.stacks[t]) {
      SumGo(GuardOf(b), s, t, f);
    }
    FirstFetchTop(s, t);
    FirstFetchPush(Below(s, t), f);
  }

  /** Sleepers stay awaited while they stay put and neither their fetches nor due
      notifications are taken away. */
  lemma SleepersStay(s: State, s': State)
    requires SleepersAwaited(s)
    requires forall u: nat :: Asleep(s', u) ==> Asleep(s, u) && s'.stacks[u] == s.stacks[u]
    requires forall b: nat :: BeingFetched(s, b) ==> BeingFetched(s', b) || NotificationDue(s')
    requires forall v: nat :: AboutToNotify(s, v) ==> AboutToNotify(s', v)
    ensures SleepersAwaited(s')
  {
    forall u: nat | Asleep(s', u) ensures BeingFetched(s', Top(s', u).block) || NotificationDue(s') {
      assert Asleep(s, u);
      if !BeingFetched(s, Top(s, u).block) {
        var v: nat :| AboutToNotify(s, v);
        assert AboutToNotify(s', v);
      }
    }
  }

  lemma SleepersOneThread(s: State, s': State, t: nat, stack: seq<Frame>)
    requires SleepersAwaited(s) && t < |s.stacks| && s'.stacks == s.stacks[t := stack]
    requires stack != [] ==> !stack[|stack| - 1].Waiting?
    requires !AboutToNotify(s, t)
    requires NotificationDue(s') || forall b: nat :: BeingFetched(s, b) ==> BeingFetched(s', b)
    ensures SleepersAwaited(s')
  {
    forall u: nat | AboutToNotify(s, u) ensures AboutToNotify(s', u) {
      assert u != t && s'.stacks[u] == s.stacks[u];
    }
    forall u: nat | Asleep(s', u) ensures Asleep(s, u) && s'.stacks[u] == s.stacks[u] {
      assert u != t;
    }
    SleepersStay(s, s');
  }

  lemma CallersOneThread(s: State, s': State, t: nat, stack: seq<Frame>)
    requires OnlyCallersBelow(s) && t < |s.stacks| && s'.stacks == s.stacks[t := stack]
    requires forall k :: 0 <= k < |stack| - 1 ==> CanCallOut(stack[k])
    ensures OnlyCallersBelow(s')
  {
    forall u: nat, k | u < |s'.stacks| && 0 <= k < |s'.stacks[u]| - 1 ensures CanCallOut(s'.stacks[u][k]) {
      if u != t { assert CanCallOut(s.stacks[u][k]); }
    }
  }

  lemma CallersGo(s: State, s': State, t: nat, f: Frame)
    requires OnlyCallersBelow(s) && Busy(s, t) && s'.stacks == s.stacks[t := Below(s, t) + [f]]
    ensures OnlyCallersBelow(s')
  {
    var stack := Below(s, t) + [f];
    forall k | 0 <= k < |stack| - 1 ensures CanCallOut(stack[k]) {
      assert CanCallOut(s.stacks[t][k]);
    }
    CallersOneThread(s, s', t, stack);
  }

  lemma SleepersKept(s: State, s': State, t: nat, f: Frame)
    requires SameGuard(s, s', t, f) && SleepersAwaited(s) && MarkersExact(s) && FirstFetchesDiffer(s)
    requires !Top(s, t).Notifying?
    requires f.Waiting? ==> FirstFetch(s.stacks[t]).None? && BeingFetched(s, f.block)
    ensures SleepersAwaited(s')
  {
    SameGuardMarkers(s, s', t, f);
    forall u: nat | Asleep(s', u)
      ensures FirstFetch(s'.stacks[u]).None?
      ensures BeingFetched(s', Top(s', u).block) || NotificationDue(s')
    {
      if u != t {
        assert Asleep(s, u);
        if !BeingFetched(s, Top(s, u).block) {
          var v: nat :| AboutToNotify(s, v);
          assert AboutToNotify(s', v);
        }
      }
    }
  }

  lemma SameGuardOrderly(s: State, s': State, t: nat, f: Frame)
    requires Orderly(s) && SameGuard(s, s', t, f) && |s'.dev| <= U64_MAX
    requires !Top(s, t).Notifying?
    requires f.Waiting? ==> FirstFetch(s.stacks[t]).None? && BeingFetched(s, f.block)
    requires s'.misses == s.misses && s'.retired == s.retired && s'.answered == s.answered
    requires s'.hits + ChargedOne(Top(s, t)) == s.hits + ChargedOne(f)
    ensures Orderly(s')
  {
    SameGuardMarkers(s, s', t, f);
    SleepersKept(s, s', t, f);
    SumGo(Charged(), s, t, f);
  }

  lemma LookOrderly(c: Config, s: State, t: nat)
    requires Orderly(s) && Enabled(c, s, Look(t))
    ensures Orderly(LookStep(c, s, t))
  {
    var s' := LookStep(c, s, t);
    var b := Top(s, t).block;
    var f := s'.stacks[t][|s.stacks[t]| - 1];
    HoldingIs(s, t);
    if Held(s.cache, b) || f.Waiting? {
      SameGuardOrderly(s, s', t, f);
    } else {
      ClaimOrderly(c, s, t);
    }
  }

  lemma ClaimMarkers(s: State, s': State, t: nat, f: Frame)
    requires MarkersExact(s) && Busy(s, t) && !Fetching(Top(s, t)) && f.Claimed?
    requires s'.stacks == s.stacks[t := Below(s, t) + [f]]
    requires s'.inFlight == s.inFlight + [(f.block, t)]
    ensures MarkersExact(s')
  {
    forall u: nat, d: nat | u < |s'.stacks|
      ensures multiset(s'.inFlight)[(d, u)] == SumStack(GuardOf(d), s'.stacks[u])
    {
      assert multiset(s.inFlight)[(d, u)] == SumStack(GuardOf(d), s.stacks[u]);
      if u == t { SumGo(GuardOf(d), s, t, f); }
    }
  }

  lemma ClaimFirstFetch(s: State, s': State, t: nat, f: Frame)
    requires MarkersExact(s) && FirstFetchesDiffer(s) && Busy(s, t) && !Fetching(Top(s, t)) && f.Claimed?
    requires s'.stacks == s.stacks[t := Below(s, t) + [f]]
    requires !(BeingFetched(s, f.block) && !HoldingAFetch(s, t))
    ensures FirstFetchesDiffer(s')
  {
    FirstFetchTop(s, t);
    FirstFetchPush(Below(s, t), f);
    HoldingIs(s, t);
    if FirstFetch(s.stacks[t]).None? {
      forall u | 0 <= u < |s.stacks| && u != t ensures FirstFetch(s.stacks[u]) != Some(f.block) {
        FirstFetchCounts(s.stacks[u]);
        InFlightIs(s, f.block, u);
        if (f.block, u) in s.inFlight { InFlightBlock(s, f.block, u); }
      }
    }
  }

  lemma StillFetched(s: State, s': State, marker: (nat, nat))
    requires s'.inFlight == s.inFlight + [marker]
    ensures forall d: nat :: BeingFetched(s, d) ==> BeingFetched(s', d)
  {
    forall d: nat | BeingFetched(s, d) ensures BeingFetched(s', d) {
      var k :| 0 <= k < |s.inFlight| && s.inFlight[k].0 == d;
      assert s'.inFlight[k] == s.inFlight[k];
    }
  }

  lemma ClaimOrderly(c: Config, s: State, t: nat)
    requires Orderly(s) && Enabled(c, s, Look(t)) && !Held(s.cache, Top(s, t).block)
    requires !(BeingFetched(s, Top(s, t).block) && !HoldingAFetch(s, t))
    ensures Orderly(LookStep(c, s, t))
  {
    hide MarkersExact, FirstFetchesDiffer, OnlyCallersBelow, Promote;
    var s' := LookStep(c, s, t);
    var f := Claimed(Top(s, t).block, Top(s, t).born, s.gen);
    ClaimMarkers(s, s', t, f);
    ClaimFirstFetch(s, s', t, f);
    assert Conserved(s') by { SumGo(Charged(), s, t, f); }
    StillFetched(s, s', (f.block, t));
    SleepersOneThread(s, s', t, Below(s, t) + [f]);
    CallersGo(s, s', t, f);
  }

  lemma ClearMarker(s: State, s': State, t: nat, f: Frame, u: nat, d: nat)
    requires Busy(s, t) && Top(s, t).Clearing? && f.Notifying? && u < |s.stacks|
    requires s'.stacks == s.stacks[t := Below(s, t) + [f]]
    requires multiset(s'.inFlight) == multiset(s.inFlight) - multiset{(Top(s, t).block, t)}
    requires multiset(s.inFlight)[(d, u)] == SumStack(GuardOf(d), s.stacks[u])
    ensures multiset(s'.inFlight)[(d, u)] == SumStack(GuardOf(d), s'.stacks[u])
  {
    if u == t { SumGo(GuardOf(d), s, t, f); }
  }

  lemma ClearMarkers(s: State, s': State, t: nat, f: Frame)
    requires MarkersExact(s) && Busy(s, t) && Top(s, t).Clearing? && f.Notifying?
    requires s'.stacks == s.stacks[t := Below(s, t) + [f]]
    requires s'.inFlight == Unmark(s.inFlight, (Top(s, t).block, t))
    ensures MarkersExact(s') && |s'.inFlight| == |s.inFlight| - 1
  {
    var b := Top(s, t).block;
    SumGo(GuardOf(b), s, t, f);
    InFlightIs(s, b, t);
    UnmarkRemovesOne(s.inFlight, (b, t));
    forall u: nat, d: nat | u < |s'.stacks|
      ensures multiset(s'.inFlight)[(d, u)] == SumStack(GuardOf(d), s'.stacks[u])
    {
      ClearMarker(s, s', t, f, u, d);
    }
    forall k | 0 <= k < |s'.inFlight| ensures s'.inFlight[k].1 < |s'.stacks| {
      assert s'.inFlight[k] in s.inFlight;
      var m :| 0 <= m < |s.inFlight| && s.inFlight[m] == s'.inFlight[k];
    }
  }

  lemma ClearFirstFetch(s: State, s': State, t: nat, f: Frame)
    requires FirstFetchesDiffer(s) && Busy(s, t) && Top(s, t).Clearing? && f.Notifying?
    requires s'.stacks == s.stacks[t := Below(s, t) + [f]]
    ensures FirstFetchesDiffer(s')
  {
    FirstFetchTop(s, t);
    FirstFetchPush(Below(s, t), f);
  }

  lemma ClearOrderly(c: Config, s: State, t: nat)
    requires Orderly(s) && Enabled(c, s, Clear(t))
    ensures Orderly(Apply(c, s, Clear(t)))
  {
    hide MarkersExact, FirstFetchesDiffer, OnlyCallersBelow, Unmark;
    var s' := Apply(c, s, Clear(t));
    var f := Notifying(Top(s, t).block, Top(s, t).born, Top(s, t).outcome);
    ClearMarkers(s, s', t, f);
    assert Conserved(s') by { SumGo(Charged(), s, t, f); }
    ClearFirstFetch(s, s', t, f);
    assert AboutToNotify(s', t);
    SleepersOneThread(s, s', t, Below(s, t) + [f]);
    CallersGo(s, s', t, f);
  }

  lemma {:induction false} FirstFetchWoken(stack: seq<Frame>, woken: seq<Frame>)
    requires |stack| == |woken| && forall k :: 0 <= k < |stack| ==> woken[k] == WokenFrame(stack[k])
    ensures FirstFetch(woken) == FirstFetch(stack)
  {
    if stack == [] {
    } else {
      var n := |stack| - 1;
      FirstFetchWoken(stack[..n], woken[..n]);
      assert woken[n] == WokenFrame(stack[n]);
    }
  }

  lemma WokenMarkers(s: State, mid: State)
    requires MarkersExact(s) && FirstFetchesDiffer(s) && mid == s.(stacks := Woken(s.stacks))
    ensures MarkersExact(mid) && FirstFetchesDiffer(mid)
  {
    forall u: nat, b: nat | u < |mid.stacks|
      ensures multiset(mid.inFlight)[(b, u)] == SumStack(GuardOf(b), mid.stacks[u])
    {
      assert multiset(s.inFlight)[(b, u)] == SumStack(GuardOf(b), s.stacks[u]);
      SumWokenStack(GuardOf(b), s.stacks[u], mid.stacks[u]);
    }
    forall u: nat | u < |mid.stacks| ensures FirstFetch(mid.stacks[u]) == FirstFetch(s.stacks[u]) {
      FirstFetchWoken(s.stacks[u], mid.stacks[u]);
    }
  }

  lemma NotifyOrderly(c: Config, s: State, t: nat)
    requires Orderly(s) && Enabled(c, s, Notify(t))
    ensures Orderly(NotifyStep(s, t))
  {
    hide MarkersExact, FirstFetchesDiffer, OnlyCallersBelow, Conserved;
    var mid := s.(stacks := Woken(s.stacks));
    var s' := NotifyStep(s, t);
    var f := s'.stacks[t][|s.stacks[t]| - 1];
    WokenMarkers(s, mid);
    SameGuardMarkers(mid, s', t, f);
    NotifyWakes(c, s, t);
    NotifyConserves(s, t);
  }

  lemma NotifyConserves(s: State, t: nat)
    requires Conserved(s) && Busy(s, t) && Top(s, t).Notifying?
    ensures Conserved(NotifyStep(s, t))
  {
    var mid := s.(stacks := Woken(s.stacks));
    SumWoken(Charged(), s.stacks);
    SumGo(Charged(), mid, t, NotifyStep(s, t).stacks[t][|s.stacks[t]| - 1]);
  }

  lemma NotifyWakes(c: Config, s: State, t: nat)
    requires Orderly(s) && Enabled(c, s, Notify(t))
    ensures OnlyCallersBelow(NotifyStep(s, t)) && forall u: nat :: !Asleep(NotifyStep(s, t), u)
  {
    hide MarkersExact, FirstFetchesDiffer, Conserved;
    var s' := NotifyStep(s, t);
    forall u: nat, k | u < |s'.stacks| && 0 <= k < |s'.stacks[u]| - 1 ensures CanCallOut(s'.stacks[u][k]) {
      assert CanCallOut(s.stacks[u][k]);
    }
    forall u: nat ensures !Asleep(s', u) {
      if Busy(s', u) && u != t {
        assert s'.stacks[u][|s.stacks[u]| - 1] == WokenFrame(s.stacks[u][|s.stacks[u]| - 1]);
      }
    }
  }

  /** A thread's stack grows by a call that holds nothing, or loses one that held nothing. */
  lemma StackOrderly(s: State, s': State, t: nat, stack: seq<Frame>)
    requires Orderly(s) && t < |s.stacks| && s'.stacks == s.stacks[t := stack] && |s'.dev| <= U64_MAX
    requires s'.inFlight == s.inFlight && s'.misses == s.misses && s'.retired == s.retired && s'.hits == s.hits
    requires forall k :: 0 <= k < |stack| - 1 ==> CanCallOut(stack[k])
    requires forall b :: SumStack(GuardOf(b), stack) == SumStack(GuardOf(b), s.stacks[t])
    requires FirstFetch(stack) == FirstFetch(s.stacks[t])
    requires s.answered + SumStack(Charged(), s.stacks[t]) == s'.answered + SumStack(Charged(), stack)
    requires stack != [] ==> !stack[|stack| - 1].Waiting?
    requires !AboutToNotify(s, t)
    ensures Orderly(s')
  {
    assert Conserved(s') by { SumPut(Charged(), s.stacks, t, stack); }
    StackMarkers(s, s', t, stack);
    CallersOneThread(s, s', t, stack);
    forall d: nat | BeingFetched(s, d) ensures BeingFetched(s', d) {}
    SleepersOneThread(s, s', t, stack);
  }

  lemma StackMarkers(s: State, s': State, t: nat, stack: seq<Frame>)
    requires MarkersExact(s) && FirstFetchesDiffer(s)
    requires t < |s.stacks| && s'.stacks == s.stacks[t := stack] && s'.inFlight == s.inFlight
    requires forall b :: SumStack(GuardOf(b), stack) == SumStack(GuardOf(b), s.stacks[t])
    requires FirstFetch(stack) == FirstFetch(s.stacks[t])
    ensures MarkersExact(s') && FirstFetchesDiffer(s')
  {
  }

  lemma BeginOrderly(c: Config, s: State, t: nat, call: Frame)
    requires Orderly(s) && Enabled(c, s, Begin(t, call))
    ensures Orderly(Apply(c, s, Begin(t, call)))
  {
    var stack := s.stacks[t] + [call];
    forall b ensures SumStack(GuardOf(b), stack) == SumStack(GuardOf(b), s.stacks[t]) {
      SumPush(GuardOf(b), s.stacks[t], call);
    }
    BeginStack(s, t, call);
    StackOrderly(s, Apply(c, s, Begin(t, call)), t, stack);
  }

  lemma BeginStack(s: State, t: nat, call: Frame)
    requires t < |s.stacks| && OnlyCallersBelow(s) && (s.stacks[t] == [] || CanCallOut(Top(s, t)))
    requires call.Looking? || call.WriteStart? || call.ResizeStart?
    ensures var stack := s.stacks[t] + [call];
      && (forall k :: 0 <= k < |stack| - 1 ==> CanCallOut(stack[k]))
      && FirstFetch(stack) == FirstFetch(s.stacks[t])
      && SumStack(Charged(), stack) == SumStack(Charged(), s.stacks[t])
      && !AboutToNotify(s, t)
  {
    SumPush(Charged(), s.stacks[t], call);
    FirstFetchPush(s.stacks[t], call);
    var stack := s.stacks[t] + [call];
    forall k | 0 <= k < |stack| - 1 ensures CanCallOut(stack[k]) {
      assert stack[k] == s.stacks[t][k];
      assert k < |s.stacks[t]| - 1 || s.stacks[t][k] == Top(s, t);
    }
  }

  lemma PopStack(s: State, t: nat)
    requires Busy(s, t) && OnlyCallersBelow(s) && !Fetching(Top(s, t))
    ensures forall k :: 0 <= k < |Below(s, t)| ==> CanCallOut(Below(s, t)[k])
    ensures forall b :: SumStack(GuardOf(b), Below(s, t)) == SumStack(GuardOf(b), s.stacks[t])
    ensures FirstFetch(Below(s, t)) == FirstFetch(s.stacks[t])
    ensures SumStack(Charged(), s.stacks[t]) == SumStack(Charged(), Below(s, t)) + ChargedOne(Top(s, t))
  {
    forall b ensures SumStack(GuardOf(b), Below(s, t)) == SumStack(GuardOf(b), s.stacks[t]) {
      SumGo(GuardOf(b), s, t, Top(s, t));
    }
    SumGo(Charged(), s, t, Top(s, t));
    FirstFetchTop(s, t);
    forall k | 0 <= k < |Below(s, t)| ensures CanCallOut(Below(s, t)[k]) {
      assert CanCallOut(s.stacks[t][k]);
    }
  }

  lemma PopOrderly(c: Config, s: State, a: Action)
    requires Orderly(s) && Enabled(c, s, a) && (a.Return? || a.Sweep2?)
    ensures Orderly(Apply(c, s, a))
  {
    PopStack(s, a.t);
    StackOrderly(s, Apply(c, s, a), a.t, Below(s, a.t));
  }

  lemma InvalidateAllOrderly(c: Config, s: State)
    requires Orderly(s)
    ensures Orderly(Apply(c, s, InvalidateAll))
  {
    SleepersStay(s, Apply(c, s, InvalidateAll));
  }

  /** Steps that move one call along without touching its guard. */
  lemma PlainOrderly(c: Config, s: State, a: Action)
    requires Orderly(s) && Enabled(c, s, a)
    requires a.Wake? || a.Size? || a.ReadByte? || a.ReadFail? || a.ReadDone? || a.AskSize? || a.Sweep1?
      || a.WriteByte? || a.ResizeDevice?
    ensures Orderly(Apply(c, s, a))
  {
    var s' := Apply(c, s, a);
    SameGuardOrderly(s, s', a.t, s'.stacks[a.t][|s.stacks[a.t]| - 1]);
  }

  lemma LandOrderly(c: Config, s: State, t: nat)
    requires Orderly(s) && Enabled(c, s, Land(t))
    ensures Orderly(LandStep(c, s, t))
  {
    var s' := LandStep(c, s, t);
    SameGuardOrderly(s, s', t, s'.stacks[t][|s.stacks[t]| - 1]);
  }

  /** Every step keeps the bookkeeping in order. */
  lemma StepOrderly(c: Config, s: State, a: Action)
    requires Orderly(s) && Enabled(c, s, a)
    ensures Orderly(Apply(c, s, a))
  {
    match a
    case Begin(t, call) => BeginOrderly(c, s, t, call);
    case Look(t) => LookOrderly(c, s, t);
    case Clear(t) => ClearOrderly(c, s, t);
    case Notify(t) => NotifyOrderly(c, s, t);
    case Return(t) => PopOrderly(c, s, a);
    case Sweep2(t) => PopOrderly(c, s, a);
    case InvalidateAll => InvalidateAllOrderly(c, s);
    case Land(t) => LandOrderly(c, s, t);
    case _ => PlainOrderly(c, s, a);
  }

  lemma {:induction false} IdleSums(w: Frame -> nat, stacks: seq<seq<Frame>>)
    requires forall t :: 0 <= t < |stacks| ==> stacks[t] == []
    ensures SumAll(w, stacks) == 0
  {
    if stacks == [] {
    } else {
      IdleSums(w, stacks[..|stacks| - 1]);
    }
  }

  lemma {:induction false} RunOrderly(c: Config, states: seq<State>, actions: seq<Action>, k: nat)
    requires IsRun(c, states, actions) && k < |states|
    ensures Orderly(states[k])
  {
    if k > 0 {
      RunOrderly(c, states, actions, k - 1);
      StepOrderly(c, states[k - 1], actions[k - 1]);
    } else {
      IdleSums(Charged(), states[0].stacks);
    }
  }

  ghost predicate Idle(s: State) {
    forall t :: 0 <= t < |s.stacks| ==> s.stacks[t] == []
  }

  lemma IdleBalances(s: State)
    requires Orderly(s) && Idle(s)
    ensures s.hits + s.misses == s.answered && s.inFlight == []
  {
    IdleSums(Charged(), s.stacks);
    if s.inFlight != [] {
      var m := s.inFlight[0];
      assert m in s.inFlight && m == (m.0, m.1);
      InFlightIs(s, m.0, m.1);
    }
  }

  // ----- what holds in every reachable state

  /** The in-flight list is the multiset of live guards: thread `t`'s markers on `b` are as
      many as the calls in its stack that have marked `b` and not yet cleared it. */
  lemma MarkersAreGuards(c: Config, states: seq<State>, actions: seq<Action>, k: nat, t: nat, b: nat)
    requires IsRun(c, states, actions) && k < |states| && t < |states[k].stacks|
    ensures multiset(states[k].inFlight)[(b, t)] == SumStack(GuardOf(b), states[k].stacks[t])
  {
    RunOrderly(c, states, actions, k);
  }

  /** Counters: hits and misses together number the lookups that have returned and those
      counted but still in progress; misses number the fetches started, each either
      retired or in flight. With every thread idle, `hits + misses` is the calls made. */
  lemma CountsConserved(c: Config, states: seq<State>, actions: seq<Action>, k: nat)
    requires IsRun(c, states, actions) && k < |states|
    ensures Conserved(states[k])
    ensures (forall t :: 0 <= t < |states[k].stacks| ==> states[k].stacks[t] == []) ==>
      states[k].hits + states[k].misses == states[k].answered && states[k].inFlight == []
  {
    RunOrderly(c, states, actions, k);
    if Idle(states[k]) { IdleBalances(states[k]); }
  }

  /** The owner of the fetch at `i` has another fetch in flight. */
  ghost predicate OwnsAnother(s: State, i: nat)
    requires i < |s.inFlight|
  {
    exists m :: 0 <= m < |s.inFlight| && m != i && s.inFlight[m].1 == s.inFlight[i].1
  }

  /** Two fetches of one block are in flight at once only if an owner of one of them also
      owns another: one fetch per block is the rule for everyone who is not re-entrant. */
  lemma DuplicateFetchIsReentrant(c: Config, states: seq<State>, actions: seq<Action>, k: nat, i: nat, j: nat)
    requires IsRun(c, states, actions) && k < |states|
    requires i < j < |states[k].inFlight| && states[k].inFlight[i].0 == states[k].inFlight[j].0
    ensures OwnsAnother(states[k], i) || OwnsAnother(states[k], j)
  {
    var s := states[k];
    RunOrderly(c, states, actions, k);
    var b, t, u := s.inFlight[i].0, s.inFlight[i].1, s.inFlight[j].1;
    if t == u {
      assert s.inFlight[j].1 == s.inFlight[i].1;
    } else {
      assert s.inFlight[i] == (b, t) && s.inFlight[j] == (b, u);
      var m := OtherFetch(s, b, if FirstFetch(s.stacks[t]) == Some(b) then u else t);
      assert m != i && m != j;
    }
  }

  /** A thread fetching `b`, but not first of all, has another fetch in flight. */
  lemma OtherFetch(s: State, b: nat, t: nat) returns (m: nat)
    requires MarkersExact(s) && t < |s.stacks| && (b, t) in s.inFlight && FirstFetch(s.stacks[t]) != Some(b)
    ensures m < |s.inFlight| && s.inFlight[m].1 == t && s.inFlight[m].0 != b
  {
    FirstFetchCounts(s.stacks[t]);
    InFlightIs(s, b, t);
    var d := FirstFetch(s.stacks[t]).value;
    InFlightIs(s, d, t);
    m :| 0 <= m < |s.inFlight| && s.inFlight[m] == (d, t);
  }

  /** A sleeper holds no fetch, so nobody waits for a sleeper: the thread a sleeper waits
      for is awake, and the wait-for graph has no path of length two. */
  lemma NobodyWaitsForASleeper(c: Config, states: seq<State>, actions: seq<Action>, k: nat, t: nat, m: nat)
    requires IsRun(c, states, actions) && k < |states| && Asleep(states[k], t)
    requires m < |states[k].inFlight| && states[k].inFlight[m].0 == Top(states[k], t).block
    ensures !HoldingAFetch(states[k], t)
    ensures Busy(states[k], states[k].inFlight[m].1) && !Asleep(states[k], states[k].inFlight[m].1)
  {
    var s := states[k];
    RunOrderly(c, states, actions, k);
    HoldingIs(s, t);
    HoldingIs(s, s.inFlight[m].1);
  }

  /** The steps that carry calls in progress forward: no new call, no spurious wake-up. */
  predicate Forward(a: Action) {
    !a.Begin? && !a.Wake? && !a.InvalidateAll?
  }

  /** A thread awake inside a call can always take its next step. */
  lemma AwakeCanStep(c: Config, s: State, t: nat) returns (a: Action)
    requires |s.dev| <= U64_MAX && Busy(s, t) && !Asleep(s, t)
    ensures Forward(a) && Enabled(c, s, a)
  {
    match Top(s, t) {
      case Looking(_, _) => a := Look(t);
      case Claimed(_, _, _) => a := Size(t);
      case Reading(b, _, _, buf, got) =>
        if i :| 0 <= i < |buf| && i !in got {
          a := if b + i < |s.dev| then ReadByte(t, i) else ReadFail(t);
        } else {
          a := ReadDone(t);
        }
      case Landed(_, _, _, _) => a := Land(t);
      case Clearing(_, _, _) => a := Clear(t);
      case Notifying(_, _, _) => a := Notify(t);
      case Returning(_, _, _) => a := Return(t);
      case WriteStart(_, _) => a := Sweep1(t);
      case Writing(_, _, _) => a := Sweep2(t);
      case ResizeStart(_) => a := AskSize(t);
      case ResizeSized(_, _) => a := Sweep1(t);
      case Resizing(_, _) => a := ResizeDevice(t, s.dev);
      case Resized(_, _) => a := Sweep2(t);
    }
  }

  /** No deadlock and no lost wake-up: while any call is unfinished some thread can step. */
  lemma SomeoneCanStep(c: Config, s: State, t: nat) returns (a: Action)
    requires Orderly(s) && Busy(s, t)
    ensures Forward(a) && Enabled(c, s, a)
  {
    if !Asleep(s, t) {
      a := AwakeCanStep(c, s, t);
    } else if BeingFetched(s, Top(s, t).block) {
      var k :| 0 <= k < |s.inFlight| && s.inFlight[k].0 == Top(s, t).block;
      HoldingIs(s, s.inFlight[k].1);
      a := AwakeCanStep(c, s, s.inFlight[k].1);
    } else {
      var u: nat :| AboutToNotify(s, u);
      a := Notify(u);
    }
  }

  // ----- every call can be finished

  function PhaseOf(f: Frame): nat {
    match f
    case Looking(_, _) => 7
    case Waiting(_, _) => 7
    case Claimed(_, _, _) => 6
    case Reading(_, _, _, _, _) => 5
    case Landed(_, _, _, _) => 4
    case Clearing(_, _, _) => 3
    case Notifying(_, _, _) => 2
    case Returning(_, _, _) => 1
    case WriteStart(_, _) => 2
    case Writing(_, _, _) => 1
    case ResizeStart(_) => 4
    case ResizeSized(_, _) => 3
    case Resizing(_, _) => 2
    case Resized(_, _) => 1
  }

  function AwakeLook(f: Frame): nat {
    if f.Looking? then 1 else 0
  }

  function Missing(n: nat, got: set<nat>): set<nat> {
    set i | 0 <= i < n && i !in got
  }

  function BytesLeft(f: Frame): nat {
    match f
    case Reading(_, _, _, buf, got) => |Missing(|buf|, got)|
    case Writing(_, bytes, landed) => |Missing(|bytes|, landed)|
    case _ => 0
  }

  function Phases(): Frame -> nat { (f: Frame) => PhaseOf(f) }

  function Looks(): Frame -> nat { (f: Frame) => AwakeLook(f) }

  function Lefts(): Frame -> nat { (f: Frame) => BytesLeft(f) }

  ghost predicate Lower(s': State, s: State) {
    var (p', p) := (SumAll(Phases(), s'.stacks), SumAll(Phases(), s.stacks));
    var (l', l) := (SumAll(Looks(), s'.stacks), SumAll(Looks(), s.stacks));
    var (b', b) := (SumAll(Lefts(), s'.stacks), SumAll(Lefts(), s.stacks));
    p' < p || (p' == p && (l' < l || (l' == l && b' < b)))
  }

  lemma ByteLands(n: nat, got: set<nat>, i: nat)
    requires i < n && i !in got
    ensures |Missing(n, got + {i})| < |Missing(n, got)|
  {
    assert Missing(n, got) == Missing(n, got + {i}) + {i};
  }

  lemma GoLowers(s: State, s': State, t: nat, f: Frame)
    requires Busy(s, t) && s'.stacks == s.stacks[t := Below(s, t) + [f]]
    requires
      || PhaseOf(f) < PhaseOf(Top(s, t))
      || (PhaseOf(f) == PhaseOf(Top(s, t)) && AwakeLook(f) < AwakeLook(Top(s, t)))
      || (PhaseOf(f) == PhaseOf(Top(s, t)) && AwakeLook(f) == AwakeLook(Top(s, t))
          && BytesLeft(f) < BytesLeft(Top(s, t)))
    ensures Lower(s', s)
  {
    SumGo(Phases(), s, t, f);
    SumGo(Looks(), s, t, f);
    SumGo(Lefts(), s, t, f);
  }

  lemma PopLowers(s: State, s': State, t: nat)
    requires Busy(s, t) && s'.stacks == s.stacks[t := Below(s, t)]
    ensures Lower(s', s)
  {
    SumGo(Phases(), s, t, Top(s, t));
  }

  lemma NotifyStacks(s: State, t: nat)
    requires Busy(s, t) && Top(s, t).Notifying?
    ensures var mid := s.(stacks := Woken(s.stacks));
      && Busy(mid, t) && Top(mid, t) == Top(s, t)
      && NotifyStep(s, t).stacks ==
           mid.stacks[t := Below(mid, t) + [Returning(Top(s, t).block, Top(s, t).born, Top(s, t).outcome)]]
  {
  }

  lemma PhasesWoken(stacks: seq<seq<Frame>>)
    ensures SumAll(Phases(), Woken(stacks)) == SumAll(Phases(), stacks)
  {
    SumWoken(Phases(), stacks);
  }

  lemma NotifyLowers(s: State, t: nat)
    requires Busy(s, t) && Top(s, t).Notifying?
    ensures Lower(NotifyStep(s, t), s)
  {
    var mid := s.(stacks := Woken(s.stacks));
    NotifyStacks(s, t);
    PhasesWoken(s.stacks);
    SumGo(Phases(), mid, t, Returning(Top(s, t).block, Top(s, t).born, Top(s, t).outcome));
  }

  lemma LookLowers(c: Config, s: State, t: nat)
    requires Enabled(c, s, Look(t))
    ensures Lower(LookStep(c, s, t), s)
  {
    var s' := LookStep(c, s, t);
    GoLowers(s, s', t, s'.stacks[t][|s.stacks[t]| - 1]);
  }

  lemma LandLowers(c: Config, s: State, t: nat)
    requires Enabled(c, s, Land(t))
    ensures Lower(LandStep(c, s, t), s)
  {
    var s' := LandStep(c, s, t);
    GoLowers(s, s', t, s'.stacks[t][|s.stacks[t]| - 1]);
  }

  lemma PlainLowers(c: Config, s: State, a: Action)
    requires Enabled(c, s, a)
    requires a.Size? || a.ReadFail? || a.ReadDone? || a.Clear? || a.AskSize? || a.Sweep1? || a.ResizeDevice?
    ensures Lower(Apply(c, s, a), s)
  {
    var s' := Apply(c, s, a);
    GoLowers(s, s', a.t, s'.stacks[a.t][|s.stacks[a.t]| - 1]);
  }

  /** Every forward step lowers one measure, so calls in progress cannot go round in
      circles: waking, finding the block gone and sleeping again included. */
  lemma ForwardLowers(c: Config, s: State, a: Action)
    requires Forward(a) && Enabled(c, s, a)
    ensures Lower(Apply(c, s, a), s)
  {
    var s' := Apply(c, s, a);
    match a
    case Notify(t) => NotifyLowers(s, t);
    case Return(t) => PopLowers(s, s', t);
    case Sweep2(t) => PopLowers(s, s', t);
    case ReadByte(t, i) =>
      ByteLands(|Top(s, t).buf|, Top(s, t).got, i);
      GoLowers(s, s', t, s'.stacks[t][|s.stacks[t]| - 1]);
    case WriteByte(t, i) =>
      ByteLands(|Top(s, t).bytes|, Top(s, t).landed, i);
      GoLowers(s, s', t, s'.stacks[t][|s.stacks[t]| - 1]);
    case Look(t) => LookLowers(c, s, t);
    case Land(t) => LandLowers(c, s, t);
    case _ => PlainLowers(c, s, a);
  }

  /** `end` is reached from `s` by the forward steps `actions`. */
  ghost predicate Leads(c: Config, s: State, actions: seq<Action>, end: State)
    decreases |actions|
  {
    if actions == [] then s == end
    else Forward(actions[0]) && Enabled(c, s, actions[0]) && Leads(c, Apply(c, s, actions[0]), actions[1..], end)
  }

  /** From every orderly state the calls in progress can all be finished. */
  lemma {:induction false} Drains(c: Config, s: State) returns (actions: seq<Action>, end: State)
    requires Orderly(s)
    ensures Leads(c, s, actions, end) && Idle(end) && Orderly(end)
    decreases SumAll(Phases(), s.stacks), SumAll(Looks(), s.stacks), SumAll(Lefts(), s.stacks)
  {
    if Idle(s) {
      actions, end := [], s;
    } else {
      var t :| 0 <= t < |s.stacks| && s.stacks[t] != [];
      var a := SomeoneCanStep(c, s, t);
      ForwardLowers(c, s, a);
      StepOrderly(c, s, a);
      var rest;
      rest, end := Drains(c, Apply(c, s, a));
      actions := [a] + rest;
    }
  }

  /** No forward step is left to take. */
  ghost predicate Stuck(c: Config, s: State) {
    forall a :: Forward(a) ==> !Enabled(c, s, a)
  }

  /** However the forward steps are chosen, they stop only when every call has returned, with
      the counters balanced and nothing in flight. */
  lemma {:induction false} StopsOnlyIdle(c: Config, s: State, actions: seq<Action>, end: State)
    requires Orderly(s) && Leads(c, s, actions, end) && Stuck(c, end)
    ensures Idle(end) && end.hits + end.misses == end.answered && end.inFlight == []
    decreases |actions|
  {
    if actions == [] {
      if t :| 0 <= t < |s.stacks| && s.stacks[t] != [] {
        var a := SomeoneCanStep(c, s, t);
      }
      IdleBalances(s);
    } else {
      StepOrderly(c, s, actions[0]);
      StopsOnlyIdle(c, Apply(c, s, actions[0]), actions[1..], end);
    }
  }

  /** The `k`-th step of an endless history is a forward one. */
  ghost predicate GoesForward(c: Config, states: nat -> State, actions: nat -> Action, k: nat) {
    Forward(actions(k)) && Enabled(c, states(k), actions(k)) && states(k + 1) == Apply(c, states(k), actions(k))
  }

  /** And they do stop: no history, whatever it begins with and however it is scheduled, goes
      forward for ever from any moment on. */
  lemma {:induction false} NeverForwardForever(c: Config, states: nat -> State, actions: nat -> Action, from: nat)
    returns (k: nat)
    ensures k >= from && !GoesForward(c, states, actions, k)
    decreases SumAll(Phases(), states(from).stacks), SumAll(Looks(), states(from).stacks),
      SumAll(Lefts(), states(from).stacks)
  {
    k := from;
    if GoesForward(c, states, actions, from) {
      ForwardLowers(c, states(from), actions(from));
      k := NeverForwardForever(c, states, actions, from + 1);
    }
  }

  /** No reachable state is a deadlock, and from each the calls in progress can all return. */
  lemma EveryCallCanFinish(c: Config, states: seq<State>, actions: seq<Action>, k: nat)
    returns (rest: seq<Action>, end: State)
    requires IsRun(c, states, actions) && k < |states|
    ensures Leads(c, states[k], rest, end) && Idle(end)
    ensures !Idle(states[k]) ==> rest != []
    ensures end.hits + end.misses == end.answered && end.inFlight == []
  {
    RunOrderly(c, states, actions, k);
    rest, end := Drains(c, states[k]);
    IdleBalances(end);
  }
}
