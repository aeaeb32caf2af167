/** What becomes of a fetch: it is kept unless a sweep came while it was under way. */
module CacheFills {
  import opened Common
  import opened Recency
  import opened CacheProtocol

  predicate IsSweep(a: Action) {
    a.Sweep1? || a.Sweep2? || a.InvalidateAll?
  }

  /** A call that is fetching block `b` since the generation was `gen`. */
  predicate Fetch(f: Frame, b: nat, gen: nat) {
    match f
    case Claimed(block, _, g) => block == b && g == gen
    case Reading(block, _, g, _, _) => block == b && g == gen
    case Landed(block, _, g, _) => block == b && g == gen
    case _ => false
  }

  /** The call at depth `d` of thread `t` is such a fetch. */
  ghost predicate FetchAt(s: State, t: nat, d: nat, b: nat, gen: nat) {
    t < |s.stacks| && d < |s.stacks[t]| && Fetch(s.stacks[t][d], b, gen)
  }

  /** A lookup is answered from the cache exactly when the block is held; it waits exactly when
      another call fetches the block and its own thread fetches nothing; else it fetches. */
  lemma LookMeans(c: Config, s: State, t: nat)
    requires Enabled(c, s, Look(t))
    ensures Busy(Apply(c, s, Look(t)), t)
    ensures var b, f := Top(s, t).block, Top(Apply(c, s, Look(t)), t);
      && (f.Returning? <==> Held(s.cache, b))
      && (f.Waiting? <==> !Held(s.cache, b) && BeingFetched(s, b) && !HoldingAFetch(s, t))
      && (f.Returning? || f.Waiting? || (f.Claimed? && (b, t) in Apply(c, s, Look(t)).inFlight))
  {
    hide Promote, Find;
    var s' := Apply(c, s, Look(t));
    if Top(s', t).Claimed? { assert s'.inFlight[|s.inFlight|] == (Top(s, t).block, t); }
  }

  /** Every sweep, and nothing else, moves the generation. */
  lemma GenMoves(c: Config, s: State, a: Action)
    requires Enabled(c, s, a)
    ensures Apply(c, s, a).gen == s.gen + if IsSweep(a) then 1 else 0
  {
    hide Find, Promote, Insert, Retain, Unmark, LengthMoved, Closed, Marker, Covers, BeingFetched, HoldingAFetch;
  }

  lemma {:induction false} GenCounts(c: Config, states: seq<State>, actions: seq<Action>, i: nat, j: nat)
    requires IsRun(c, states, actions) && i <= j < |states|
    ensures states[i].gen <= states[j].gen
    ensures states[i].gen == states[j].gen <==> forall k :: i <= k < j ==> !IsSweep(actions[k])
  {
    hide Enabled, Apply, IsSweep, Initial;
    if i == j {
    } else {
      GenCounts(c, states, actions, i, j - 1);
      assert Enabled(c, states[j - 1], actions[j - 1]) && states[j - 1 + 1] == Apply(c, states[j - 1], actions[j - 1]);
      GenMoves(c, states[j - 1], actions[j - 1]);
    }
  }

  /** Every step but a notification leaves the calls alone, but for the last of one thread. */
  lemma LastOnly(c: Config, s: State, a: Action, t: nat, d: nat)
    requires Enabled(c, s, a) && !a.Notify? && t < |Apply(c, s, a).stacks| && d < |Apply(c, s, a).stacks[t]|
    requires a.InvalidateAll? || a.t != t || d + 1 < |s.stacks[t]|
    ensures t < |s.stacks| && d < |s.stacks[t]| && Apply(c, s, a).stacks[t][d] == s.stacks[t][d]
  {
    hide Find, Promote, Insert, Retain, Unmark, LengthMoved, Closed, Marker, Covers, BeingFetched, HoldingAFetch;
  }

  lemma NotifiedFetch(c: Config, s: State, a: Action, t: nat, d: nat, b: nat, gen: nat)
    requires Enabled(c, s, a) && a.Notify? && FetchAt(Apply(c, s, a), t, d, b, gen)
    ensures FetchAt(s, t, d, b, gen)
  {
  }

  lemma OwnFetch(c: Config, s: State, a: Action, d: nat, b: nat, gen: nat)
    requires Enabled(c, s, a) && !a.Notify? && !a.InvalidateAll? && FetchAt(Apply(c, s, a), a.t, d, b, gen)
    requires d + 1 >= |s.stacks[a.t]|
    ensures FetchAt(s, a.t, d, b, gen) || (a == Look(a.t) && s.gen == gen && Busy(s, a.t) && d == |s.stacks[a.t]| - 1)
  {
    hide Find, Promote, Insert, Retain, Unmark, LengthMoved, Closed, Marker, Covers, BeingFetched, HoldingAFetch;
  }

  /** A fetch begins with a look by its thread, in the generation it remembers, and goes on. */
  lemma FetchStep(c: Config, s: State, a: Action, t: nat, d: nat, b: nat, gen: nat)
    requires Enabled(c, s, a) && FetchAt(Apply(c, s, a), t, d, b, gen)
    ensures FetchAt(s, t, d, b, gen) || (a == Look(t) && s.gen == gen && Busy(s, t) && d == |s.stacks[t]| - 1)
  {
    hide Enabled, Apply, Fetch;
    if a.Notify? {
      NotifiedFetch(c, s, a, t, d, b, gen);
    } else if a.InvalidateAll? || a.t != t {
      LastOnly(c, s, a, t, d);
    } else {
      ThreadsStay(c, s, a);
      if d + 1 >= |s.stacks[t]| { OwnFetch(c, s, a, d, b, gen); } else { LastOnly(c, s, a, t, d); }
    }
  }

  lemma ThreadsStay(c: Config, s: State, a: Action)
    requires Enabled(c, s, a) && !a.InvalidateAll?
    ensures a.t < |s.stacks| == |Apply(c, s, a).stacks|
  {
    hide Find, Promote, Insert, Retain, Unmark, LengthMoved, Closed, Marker, Covers, BeingFetched, HoldingAFetch;
  }

  /** Where a fetch under way began, and that it has been under way since. */
  lemma {:induction false} FetchBegan(c: Config, states: seq<State>, actions: seq<Action>, j: nat, t: nat, d: nat,
                                      b: nat, gen: nat)
    returns (i: nat)
    requires IsRun(c, states, actions) && j < |states| && FetchAt(states[j], t, d, b, gen)
    ensures i < j && actions[i] == Look(t) && states[i].gen == gen
    ensures forall k :: i < k <= j ==> FetchAt(states[k], t, d, b, gen)
  {
    hide Enabled, Apply, Fetch;
    assert j != 0;
    assert Enabled(c, states[j - 1], actions[j - 1]) && states[j - 1 + 1] == Apply(c, states[j - 1], actions[j - 1]);
    FetchStep(c, states[j - 1], actions[j - 1], t, d, b, gen);
    if FetchAt(states[j - 1], t, d, b, gen) {
      i := FetchBegan(c, states, actions, j - 1, t, d, b, gen);
    } else {
      i := j - 1;
    }
  }

  lemma LandHolds(c: Config, s: State, t: nat)
    requires Enabled(c, s, Land(t))
    ensures var f, s' := Top(s, t), Apply(c, s, Land(t));
      && (Held(s'.cache, f.block) <==> Held(s.cache, f.block) || f.gen == s.gen)
      && (!Held(s.cache, f.block) && f.gen == s.gen ==> s'.cache[0] == Entry(f.block, f.data))
      && (!Held(s.cache, f.block) && f.gen != s.gen ==> s'.cache == s.cache)
      && Busy(s', t) && Answers(s', t, if Held(s.cache, f.block) then s.cache[Find(s.cache, f.block)].data else f.data)
  {
  }

  /** The call on top of thread `t` has the bytes it is to answer. */
  predicate Answers(s: State, t: nat, data: Bytes)
    requires Busy(s, t)
  {
    Top(s, t).Clearing? && Top(s, t).outcome == Served(data)
  }

  /** What was fetched is held once it lands, exactly when it is already held, by another
      fetch, or no sweep came since its lookup looked. The lookup answers what was held
      already, and else what it fetched, kept or not. */
  lemma KeptUnlessSwept(c: Config, states: seq<State>, actions: seq<Action>, j: nat, t: nat) returns (i: nat)
    requires IsRun(c, states, actions) && j < |actions| && actions[j] == Land(t)
    ensures Busy(states[j], t) && Top(states[j], t).Landed?
    ensures var f, d := Top(states[j], t), |states[j].stacks[t]| - 1;
      && i < j && actions[i] == Look(t) && (forall k :: i < k <= j ==> FetchAt(states[k], t, d, f.block, f.gen))
      && (Held(states[j + 1].cache, f.block) <==>
            Held(states[j].cache, f.block) || forall k :: i <= k < j ==> !IsSweep(actions[k]))
      && (Held(states[j + 1].cache, f.block) && !Held(states[j].cache, f.block) ==>
            states[j + 1].cache[0] == Entry(f.block, f.data))
      && Busy(states[j + 1], t) && Answers(states[j + 1], t,
        if Held(states[j].cache, f.block) then states[j].cache[Find(states[j].cache, f.block)].data else f.data)
  {
    assert Enabled(c, states[j], actions[j]) && states[j + 1] == Apply(c, states[j], actions[j]);
    var f, d := Top(states[j], t), |states[j].stacks[t]| - 1;
    hide Enabled, Apply, Held;
    i := FetchBegan(c, states, actions, j, t, d, f.block, f.gen);
    GenCounts(c, states, actions, i, j);
    LandHolds(c, states[j], t);
  }
}
