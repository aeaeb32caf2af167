/** Where the bytes a lookup answers come from: each is one the device held at that position
    while the lookup ran, or since a change that was still open when the lookup began. */
module CacheHistory {
  import opened Common
  import opened Recency
  import opened CacheProtocol

  /** The call at depth `d` of thread `u` is a change to `p` between its sweeps. */
  ghost predicate OpenAt(s: State, u: nat, d: nat, p: nat) {
    u < |s.stacks| && d < |s.stacks[u]| && Covers(s.stacks[u][d], p, Value)
  }

  /** The device held `v` at `p` at the `m`-th moment, and one change to `p` has been open
      ever since. */
  ghost predicate StoodOpen(states: seq<State>, m: nat, k: nat, u: nat, d: nat, p: nat, v: Option<Byte>) {
    m <= k < |states| && At(states[m].dev, p) == v && forall j :: m <= j <= k ==> OpenAt(states[j], u, d, p)
  }

  /** What is held of `p`: what the device has, or had when the change now open was. */
  ghost predicate Stands(states: seq<State>, k: nat, p: nat, v: Option<Byte>)
    requires k < |states|
  {
    At(states[k].dev, p) == v || exists m: nat, u: nat, d: nat :: StoodOpen(states, m, k, u, d, p, v)
  }

  ghost predicate StoodAt(states: seq<State>, m: nat, k: nat, p: nat, v: Option<Byte>, born: nat) {
    m <= k < |states| && states[m].clock >= born && At(states[m].dev, p) == v
  }

  /** The device held `v` at `p` at some moment since `born`. */
  ghost predicate StoodSince(states: seq<State>, k: nat, p: nat, v: Option<Byte>, born: nat) {
    exists m: nat :: StoodAt(states, m, k, p, v, born)
  }

  /** The device held `v` at `p` at the `m`-th moment, and one change to `p` was open from then
      until `born`. */
  ghost predicate StoodTill(states: seq<State>, m: nat, k: nat, u: nat, d: nat, p: nat, v: Option<Byte>, born: nat) {
    && m <= k < |states| && At(states[m].dev, p) == v
    && forall j :: m <= j <= k && states[j].clock <= born ==> OpenAt(states[j], u, d, p)
  }

  /** The device held `v` at `p` since `born`, or since a change that was open at `born`. */
  ghost predicate WasThere(states: seq<State>, k: nat, p: nat, v: Option<Byte>, born: nat) {
    StoodSince(states, k, p, v, born) || exists m: nat, u: nat, d: nat :: StoodTill(states, m, k, u, d, p, v, born)
  }

  ghost predicate BlockStands(c: Config, states: seq<State>, k: nat, b: nat, data: Bytes)
    requires k < |states|
  {
    forall i: nat :: InBlock(c, b, i) ==> Stands(states, k, b + i, At(data, i))
  }

  ghost predicate BlockSince(c: Config, states: seq<State>, k: nat, b: nat, data: Bytes, born: nat) {
    forall i: nat :: InBlock(c, b, i) ==> StoodSince(states, k, b + i, At(data, i), born)
  }

  ghost predicate BlockWas(c: Config, states: seq<State>, k: nat, b: nat, data: Bytes, born: nat) {
    forall i: nat :: InBlock(c, b, i) ==> WasThere(states, k, b + i, At(data, i), born)
  }

  /** A fetch under way: what it has got was there since the lookup began, and stands while no
      sweep has run since its marker was pushed. */
  ghost predicate PartlyWas(c: Config, states: seq<State>, k: nat, f: Frame)
    requires k < |states| && f.Reading?
  {
    && (forall i: nat :: InBlock(c, f.block, i) && Known(f.buf, f.got, i) ==>
          StoodSince(states, k, f.block + i, At(f.buf, i), f.born))
    && (f.gen == states[k].gen ==> forall i: nat :: InBlock(c, f.block, i) && Known(f.buf, f.got, i) ==>
          Stands(states, k, f.block + i, At(f.buf, i)))
  }

  ghost predicate OutcomeWas(c: Config, states: seq<State>, k: nat, f: Frame)
    requires f.Clearing? || f.Notifying? || f.Returning?
  {
    f.outcome.Served? ==> BlockWas(c, states, k, f.block, f.outcome.data, f.born)
  }

  ghost predicate FrameWas(c: Config, states: seq<State>, k: nat, f: Frame)
    requires k < |states|
  {
    match f
    case Reading(_, _, _, _, _) => PartlyWas(c, states, k, f)
    case Landed(b, born, gen, data) =>
      BlockSince(c, states, k, b, data, born) && (gen == states[k].gen ==> BlockStands(c, states, k, b, data))
    case Clearing(_, _, _) => OutcomeWas(c, states, k, f)
    case Notifying(_, _, _) => OutcomeWas(c, states, k, f)
    case Returning(_, _, _) => OutcomeWas(c, states, k, f)
    case _ => true
  }

  ghost predicate EntriesStand(c: Config, states: seq<State>, k: nat)
    requires k < |states|
  {
    forall e :: e in states[k].cache ==> BlockStands(c, states, k, e.block, e.data)
  }

  ghost predicate History(c: Config, states: seq<State>, k: nat)
    requires k < |states|
  {
    && EntriesStand(c, states, k)
    && forall t, d :: 0 <= t < |states[k].stacks| && 0 <= d < |states[k].stacks[t]| ==>
        FrameWas(c, states, k, states[k].stacks[t][d])
  }

  // ----- what one step keeps

  /** The `k`-th step of a run, taken from a coherent state in time. */
  ghost predicate Steps(c: Config, states: seq<State>, actions: seq<Action>, k: nat) {
    && k < |actions| && |states| == |actions| + 1
    && Enabled(c, states[k], actions[k]) && states[k + 1] == Apply(c, states[k], actions[k])
    && Coherent(c, states[k]) && Timely(states[k], actions[k])
  }

  /** The step ends a change to `p`. */
  ghost predicate Closes(s: State, a: Action, p: nat) {
    a.Sweep2? && Busy(s, a.t) && Covers(Top(s, a.t), p, Value)
  }

  /** Steps that put one call in place of the one on top of a thread. */
  predicate Moves(a: Action) {
    !a.Begin? && !a.Notify? && !a.Return? && !a.Sweep2? && !a.InvalidateAll?
  }

  /** Steps by which a call gets hold of something of the device. */
  predicate Handles(a: Action) {
    a.Look? || a.Size? || a.ReadByte? || a.ReadFail? || a.ReadDone? || a.Land? || a.Clear? || a.Notify?
  }

  /** Nothing of the device is in the call's hands. */
  predicate EmptyHanded(f: Frame) {
    !f.Reading? && !f.Landed? && !f.Clearing? && !f.Notifying? && !f.Returning?
  }

  lemma MovesTop(c: Config, s: State, a: Action) returns (f: Frame)
    requires Enabled(c, s, a) && Moves(a)
    ensures Busy(s, a.t) && Apply(c, s, a).stacks == s.stacks[a.t := Below(s, a.t) + [f]]
    ensures forall p: nat :: Covers(Top(s, a.t), p, Value) ==> Covers(f, p, Value)
    ensures Handles(a) || EmptyHanded(f)
  {
    hide Find, Promote, Insert, Retain, Unmark, LengthMoved, Closed, Marker, BeingFetched, HoldingAFetch;
    f := Apply(c, s, a).stacks[a.t][|s.stacks[a.t]| - 1];
  }

  lemma OpenStays(c: Config, s: State, a: Action, u: nat, d: nat, p: nat)
    requires Enabled(c, s, a) && OpenAt(s, u, d, p) && !Closes(s, a, p)
    ensures OpenAt(Apply(c, s, a), u, d, p)
  {
    if Moves(a) {
      hide Apply, Enabled, Covers, Closes;
      var f := MovesTop(c, s, a);
    } else {
      OthersOpen(c, s, a, u, d, p);
    }
  }

  lemma OthersOpen(c: Config, s: State, a: Action, u: nat, d: nat, p: nat)
    requires Enabled(c, s, a) && OpenAt(s, u, d, p) && !Closes(s, a, p) && !Moves(a)
    ensures OpenAt(Apply(c, s, a), u, d, p)
  {
    hide Find, Promote, Insert, Retain, Unmark, LengthMoved, Closed, Marker, BeingFetched, HoldingAFetch;
  }

  /** A step that changes the device at `p` is one of a change to `p`, on top of its stack. */
  lemma ChangedByTop(c: Config, s: State, a: Action, p: nat) returns (u: nat, d: nat)
    requires Enabled(c, s, a) && Timely(s, a) && Coherent(c, s)
    requires At(s.dev, p) != At(Apply(c, s, a).dev, p)
    ensures OpenAt(s, u, d, p) && OpenAt(Apply(c, s, a), u, d, p)
  {
    hide Find, Promote, Insert, Retain, Unmark, Closed, Marker, Coherent;
    assert a.WriteByte? || a.ResizeDevice?;
    u, d := a.t, |s.stacks[a.t]| - 1;
    if a.ResizeDevice? {
      TopOk(c, s, a.t);
      MovedKeeps(s.dev, a.dev, Top(s, a.t).newLen, Top(s, a.t).from, p);
    }
  }

  lemma MovedKeeps(dev: Bytes, dev': Bytes, newLen: nat, from: nat, p: nat)
    requires LengthMoved(dev, dev', newLen) && from <= newLen && from <= |dev|
    ensures p < from ==> At(dev, p) == At(dev', p)
  {
    assert dev'[..from] == dev'[..Min(|dev|, newLen)][..from] == dev[..from];
    assert p < from ==> dev'[..from][p] == dev'[p] && dev[..from][p] == dev[p];
  }

  lemma StandsStill(c: Config, states: seq<State>, actions: seq<Action>, k: nat, p: nat, v: Option<Byte>)
    requires Steps(c, states, actions, k) && Stands(states, k, p, v) && !Closes(states[k], actions[k], p)
    ensures Stands(states, k + 1, p, v)
  {
    hide Apply, Enabled, Coherent, Closes;
    if At(states[k].dev, p) == v {
      if At(states[k + 1].dev, p) != v {
        var u, d := ChangedByTop(c, states[k], actions[k], p);
        assert StoodOpen(states, k, k + 1, u, d, p, v);
      }
    } else {
      var m: nat, u: nat, d: nat :| StoodOpen(states, m, k, u, d, p, v);
      OpenStays(c, states[k], actions[k], u, d, p);
      assert StoodOpen(states, m, k + 1, u, d, p, v);
    }
  }

  lemma SinceStays(states: seq<State>, k: nat, p: nat, v: Option<Byte>, born: nat)
    requires k + 1 < |states| && StoodSince(states, k, p, v, born)
    ensures StoodSince(states, k + 1, p, v, born)
  {
    var m: nat :| StoodAt(states, m, k, p, v, born);
    assert StoodAt(states, m, k + 1, p, v, born);
  }

  lemma WasStays(states: seq<State>, k: nat, p: nat, v: Option<Byte>, born: nat)
    requires k + 1 < |states| && WasThere(states, k, p, v, born) && born < states[k + 1].clock
    ensures WasThere(states, k + 1, p, v, born)
  {
    if StoodSince(states, k, p, v, born) {
      SinceStays(states, k, p, v, born);
    } else {
      var m: nat, u: nat, d: nat :| StoodTill(states, m, k, u, d, p, v, born);
      assert StoodTill(states, m, k + 1, u, d, p, v, born);
    }
  }

  /** What stands when a lookup finds it was there. */
  lemma StandingWas(states: seq<State>, k: nat, p: nat, v: Option<Byte>, born: nat)
    requires k < |states| && Stands(states, k, p, v) && born <= states[k].clock
    ensures WasThere(states, k, p, v, born)
  {
    if At(states[k].dev, p) == v {
      assert StoodAt(states, k, k, p, v, born);
    } else {
      var m: nat, u: nat, d: nat :| StoodOpen(states, m, k, u, d, p, v);
      assert StoodTill(states, m, k, u, d, p, v, born);
    }
  }

  lemma BlockStandingWas(c: Config, states: seq<State>, k: nat, b: nat, data: Bytes, born: nat)
    requires k < |states| && BlockStands(c, states, k, b, data) && born <= states[k].clock
    ensures BlockWas(c, states, k, b, data, born)
  {
    forall i: nat | InBlock(c, b, i) ensures WasThere(states, k, b + i, At(data, i), born) {
      StandingWas(states, k, b + i, At(data, i), born);
    }
  }

  lemma BlockSinceWas(c: Config, states: seq<State>, k: nat, b: nat, data: Bytes, born: nat)
    requires BlockSince(c, states, k, b, data, born)
    ensures BlockWas(c, states, k, b, data, born)
  {
    forall i: nat | InBlock(c, b, i) ensures WasThere(states, k, b + i, At(data, i), born) {
      assert StoodSince(states, k, b + i, At(data, i), born);
    }
  }

  lemma BlockWasStays(c: Config, states: seq<State>, k: nat, b: nat, data: Bytes, born: nat)
    requires k + 1 < |states| && BlockWas(c, states, k, b, data, born) && born < states[k + 1].clock
    ensures BlockWas(c, states, k + 1, b, data, born)
  {
    forall i: nat | InBlock(c, b, i) ensures WasThere(states, k + 1, b + i, At(data, i), born) {
      WasStays(states, k, b + i, At(data, i), born);
    }
  }

  lemma BlockSinceStays(c: Config, states: seq<State>, k: nat, b: nat, data: Bytes, born: nat)
    requires k + 1 < |states| && BlockSince(c, states, k, b, data, born)
    ensures BlockSince(c, states, k + 1, b, data, born)
  {
    forall i: nat | InBlock(c, b, i) ensures StoodSince(states, k + 1, b + i, At(data, i), born) {
      SinceStays(states, k, b + i, At(data, i), born);
    }
  }

  lemma BlockStandsStill(c: Config, states: seq<State>, actions: seq<Action>, k: nat, b: nat, data: Bytes)
    requires Steps(c, states, actions, k) && BlockStands(c, states, k, b, data)
    requires forall i: nat :: InBlock(c, b, i) ==> !Closes(states[k], actions[k], b + i)
    ensures BlockStands(c, states, k + 1, b, data)
  {
    hide Steps, Closes;
    assert |states| == |actions| + 1 && k < |actions| by { StepsLength(c, states, actions, k); }
    forall i: nat | InBlock(c, b, i) ensures Stands(states, k + 1, b + i, At(data, i)) {
      assert !Closes(states[k], actions[k], b + i);
      StandsStill(c, states, actions, k, b + i, At(data, i));
    }
  }

  lemma StepsLength(c: Config, states: seq<State>, actions: seq<Action>, k: nat)
    requires Steps(c, states, actions, k)
    ensures k < |actions| && |states| == |actions| + 1
  {
  }

  lemma StepsClock(c: Config, s: State, a: Action)
    requires Enabled(c, s, a)
    ensures Apply(c, s, a).clock == s.clock + 1
    ensures s.gen <= Apply(c, s, a).gen && (a.Sweep2? || a.Sweep1? ==> s.gen < Apply(c, s, a).gen)
  {
    hide Find, Promote, Insert, Retain, Unmark, LengthMoved, Closed, Marker, Covers;
  }

  lemma SameGenClosesNothing(c: Config, s: State, a: Action, p: nat)
    requires Enabled(c, s, a) && Apply(c, s, a).gen == s.gen
    ensures !Closes(s, a, p)
  {
    hide Covers;
    StepsClock(c, s, a);
  }

  /** What a call has got outlives every step. */
  lemma FrameWasStays(c: Config, states: seq<State>, actions: seq<Action>, k: nat, f: Frame)
    requires Steps(c, states, actions, k) && FrameWas(c, states, k, f) && FrameOk(c, states[k], f)
    ensures FrameWas(c, states, k + 1, f)
  {
    hide Apply, Enabled, Coherent, Timely, Closes, Current, Faithful, PartlyCurrent;
    StepsClock(c, states[k], actions[k]);
    match f {
      case Reading(b, born, gen, buf, got) => PartlyStays(c, states, actions, k, f);
      case Landed(b, born, gen, data) =>
        BlockSinceStays(c, states, k, b, data, born);
        if gen == states[k + 1].gen {
          forall i: nat | InBlock(c, b, i) ensures !Closes(states[k], actions[k], b + i) {
            SameGenClosesNothing(c, states[k], actions[k], b + i);
          }
          BlockStandsStill(c, states, actions, k, b, data);
        }
      case Clearing(b, born, o) => if o.Served? { BlockWasStays(c, states, k, b, o.data, born); }
      case Notifying(b, born, o) => if o.Served? { BlockWasStays(c, states, k, b, o.data, born); }
      case Returning(b, born, o) => if o.Served? { BlockWasStays(c, states, k, b, o.data, born); }
      case _ =>
    }
  }

  lemma PartlyStays(c: Config, states: seq<State>, actions: seq<Action>, k: nat, f: Frame)
    requires Steps(c, states, actions, k) && f.Reading? && f.gen <= states[k].gen && PartlyWas(c, states, k, f)
    ensures PartlyWas(c, states, k + 1, f)
  {
    hide Apply, Enabled, Coherent, Timely, Closes;
    StepsClock(c, states[k], actions[k]);
    forall i: nat | InBlock(c, f.block, i) && Known(f.buf, f.got, i)
      ensures StoodSince(states, k + 1, f.block + i, At(f.buf, i), f.born)
      ensures f.gen == states[k + 1].gen ==> Stands(states, k + 1, f.block + i, At(f.buf, i))
    {
      SinceStays(states, k, f.block + i, At(f.buf, i), f.born);
      if f.gen == states[k + 1].gen {
        SameGenClosesNothing(c, states[k], actions[k], f.block + i);
        StandsStill(c, states, actions, k, f.block + i, At(f.buf, i));
      }
    }
  }

  // ----- what each step gets

  /** Each call after a step was there before, has nothing in hand, or is the one that took
      the step. */
  lemma CallsAfter(c: Config, s: State, a: Action, u: nat, d: nat)
    requires Enabled(c, s, a)
    requires u < |Apply(c, s, a).stacks| && d < |Apply(c, s, a).stacks[u]|
    ensures CameFrom(s, a, u, d, Apply(c, s, a).stacks[u][d])
  {
    if Moves(a) {
      hide Apply, Enabled, Covers;
      var f := MovesTop(c, s, a);
    } else {
      OthersAfter(c, s, a, u, d);
    }
  }

  ghost predicate CameFrom(s: State, a: Action, u: nat, d: nat, f: Frame) {
    || (u < |s.stacks| && d < |s.stacks[u]| && s.stacks[u][d] == f)
    || EmptyHanded(f)
    || (Handles(a) && u == a.t < |s.stacks| && d == |s.stacks[u]| - 1)
  }

  lemma OthersAfter(c: Config, s: State, a: Action, u: nat, d: nat)
    requires Enabled(c, s, a) && !Moves(a)
    requires u < |Apply(c, s, a).stacks| && d < |Apply(c, s, a).stacks[u]|
    ensures CameFrom(s, a, u, d, Apply(c, s, a).stacks[u][d])
  {
    hide Find, Promote, Insert, Retain, Unmark, LengthMoved, Closed, Marker, BeingFetched, HoldingAFetch, Covers;
  }

  lemma TopWas(c: Config, states: seq<State>, k: nat, t: nat)
    requires k < |states| && History(c, states, k) && Coherent(c, states[k]) && Busy(states[k], t)
    ensures FrameWas(c, states, k, Top(states[k], t)) && FrameOk(c, states[k], Top(states[k], t))
  {
    hide FrameWas, FrameOk, EntriesStand;
    assert FrameWas(c, states, k, states[k].stacks[t][|states[k].stacks[t]| - 1]);
    TopOk(c, states[k], t);
  }

  /** A held block is served as it stands. */
  lemma ServedWas(c: Config, states: seq<State>, k: nat, b: nat, born: nat)
    requires k + 1 < |states| && EntriesStand(c, states, k) && Held(states[k].cache, b)
    requires born <= states[k].clock < states[k + 1].clock
    ensures BlockWas(c, states, k + 1, b, states[k].cache[Find(states[k].cache, b)].data, born)
  {
    hide BlockStands, BlockWas;
    var e := states[k].cache[Find(states[k].cache, b)];
    assert e in states[k].cache && e.block == b;
    BlockStandingWas(c, states, k, b, e.data, born);
    BlockWasStays(c, states, k, b, e.data, born);
  }

  lemma LookWas(c: Config, states: seq<State>, actions: seq<Action>, k: nat)
    requires Steps(c, states, actions, k) && History(c, states, k) && actions[k].Look?
    ensures var s, f := states[k], Top(states[k], actions[k].t);
      Held(s.cache, f.block) ==>
        BlockWas(c, states, k + 1, f.block, s.cache[Find(s.cache, f.block)].data, f.born)
  {
    hide FrameOk, FrameWas, BlockWas, EntriesStand, Apply;
    var s, t := states[k], actions[k].t;
    TopWas(c, states, k, t);
    BornBefore(c, s, t);
    StepsClock(c, s, actions[k]);
    if Held(s.cache, Top(s, t).block) { ServedWas(c, states, k, Top(s, t).block, Top(s, t).born); }
  }

  lemma BornBefore(c: Config, s: State, t: nat)
    requires Busy(s, t) && FrameOk(c, s, Top(s, t))
    ensures Top(s, t).Looking? || Top(s, t).Landed? || Top(s, t).Claimed? || Top(s, t).Reading? ==>
      Top(s, t).born <= s.clock
    ensures Top(s, t).Landed? || Top(s, t).Reading? ==> Top(s, t).gen <= s.gen
  {
    hide Current, Faithful, PartlyCurrent;
  }

  /** A buffer just made knows only that the device has nothing past its length. */
  lemma SizeWas(c: Config, states: seq<State>, actions: seq<Action>, k: nat)
    requires Steps(c, states, actions, k) && History(c, states, k) && actions[k].Size?
    ensures var Claimed(b, born, gen) := Top(states[k], actions[k].t);
      PartlyWas(c, states, k + 1, Reading(b, born, gen, Zeros(ClampedLen(c, |states[k].dev|, b)), {}))
  {
    hide FrameWas, EntriesStand;
    var s, t := states[k], actions[k].t;
    TopWas(c, states, k, t);
    BornBefore(c, s, t);
    var Claimed(b, born, gen) := Top(s, t);
    var buf := Zeros(ClampedLen(c, |s.dev|, b));
    forall i: nat | InBlock(c, b, i) && i >= |buf|
      ensures StoodSince(states, k + 1, b + i, At(buf, i), born) && Stands(states, k + 1, b + i, At(buf, i))
    {
      assert At(states[k + 1].dev, b + i) == None;
      assert StoodAt(states, k + 1, k + 1, b + i, At(buf, i), born);
    }
  }

  lemma ReadByteWas(c: Config, states: seq<State>, actions: seq<Action>, k: nat)
    requires Steps(c, states, actions, k) && History(c, states, k) && actions[k].ReadByte?
    ensures var f, i := Top(states[k], actions[k].t), actions[k].i;
      PartlyWas(c, states, k + 1, f.(buf := f.buf[i := states[k].dev[f.block + i]], got := f.got + {i}))
  {
    hide EntriesStand, FrameOk, Coherent, PartlyWas, StoodSince, Stands;
    var s, t := states[k], actions[k].t;
    TopWas(c, states, k, t);
    BornBefore(c, s, t);
    PartlyStays(c, states, actions, k, Top(s, t));
    StepsClock(c, s, actions[k]);
    assert states[k + 1].dev == s.dev;
    ByteWas(c, states, k + 1, Top(s, t), actions[k].i);
  }

  /** One more byte of the device as it is. */
  lemma ByteWas(c: Config, states: seq<State>, k: nat, f: Frame, i: nat)
    requires k < |states| && f.Reading? && PartlyWas(c, states, k, f) && f.born <= states[k].clock
    requires i < |f.buf| && f.block + i < |states[k].dev|
    ensures PartlyWas(c, states, k, f.(buf := f.buf[i := states[k].dev[f.block + i]], got := f.got + {i}))
  {
    var f' := f.(buf := f.buf[i := states[k].dev[f.block + i]], got := f.got + {i});
    assert StoodAt(states, k, k, f.block + i, At(f'.buf, i), f.born);
    forall j: nat | InBlock(c, f.block, j) && Known(f'.buf, f'.got, j)
      ensures StoodSince(states, k, f.block + j, At(f'.buf, j), f.born)
      ensures f.gen == states[k].gen ==> Stands(states, k, f.block + j, At(f'.buf, j))
    {
      if j != i { assert Known(f.buf, f.got, j) && At(f'.buf, j) == At(f.buf, j); }
    }
  }

  lemma ReadDoneWas(c: Config, states: seq<State>, actions: seq<Action>, k: nat)
    requires Steps(c, states, actions, k) && History(c, states, k) && actions[k].ReadDone?
    ensures var Reading(b, born, gen, buf, _) := Top(states[k], actions[k].t);
      FrameWas(c, states, k + 1, Landed(b, born, gen, buf))
  {
    hide EntriesStand, FrameOk, Coherent, StoodSince, Stands;
    var s, t := states[k], actions[k].t;
    TopWas(c, states, k, t);
    BornBefore(c, s, t);
    var f := Top(s, t);
    PartlyStays(c, states, actions, k, f);
    forall i: nat | InBlock(c, f.block, i) ensures Known(f.buf, f.got, i) {}
  }

  /** A fetch that lands: its own bytes were there since it began, and stand if no sweep ran. */
  lemma LandWas(c: Config, states: seq<State>, actions: seq<Action>, k: nat)
    requires Steps(c, states, actions, k) && History(c, states, k) && actions[k].Land?
    ensures var s, f := states[k], Top(states[k], actions[k].t);
      && BlockWas(c, states, k + 1, f.block, f.data, f.born)
      && (f.gen == s.gen ==> BlockStands(c, states, k + 1, f.block, f.data))
      && (Held(s.cache, f.block) ==>
            BlockWas(c, states, k + 1, f.block, s.cache[Find(s.cache, f.block)].data, f.born))
  {
    hide BlockWas, BlockSince, BlockStands, EntriesStand, FrameOk, Coherent;
    var s, t, f := states[k], actions[k].t, Top(states[k], actions[k].t);
    TopWas(c, states, k, t);
    BornBefore(c, s, t);
    StepsClock(c, s, actions[k]);
    FrameWasStays(c, states, actions, k, f);
    BlockSinceWas(c, states, k + 1, f.block, f.data, f.born);
    LandGen(c, s, actions[k]);
    if Held(s.cache, f.block) { ServedWas(c, states, k, f.block, f.born); }
  }

  lemma LandGen(c: Config, s: State, a: Action)
    requires Enabled(c, s, a) && a.Land?
    ensures Apply(c, s, a).gen == s.gen
  {
  }

  /** The call that took the step has got what its claim says. */
  lemma TopAfter(c: Config, states: seq<State>, actions: seq<Action>, k: nat, d: nat)
    requires Steps(c, states, actions, k) && History(c, states, k) && Handles(actions[k])
    requires actions[k].t < |states[k].stacks| && d == |states[k].stacks[actions[k].t]| - 1
    requires actions[k].t < |states[k + 1].stacks| && d < |states[k + 1].stacks[actions[k].t]|
    ensures FrameWas(c, states, k + 1, states[k + 1].stacks[actions[k].t][d])
  {
    hide History, PartlyWas, BlockWas, BlockSince, BlockStands, Coherent, Timely, FrameOk;
    hide Find, Promote, Insert, Unmark, BeingFetched, HoldingAFetch;
    var s, a := states[k], actions[k];
    TopWas(c, states, k, a.t);
    match a {
      case Look(t) => LookWas(c, states, actions, k);
      case Size(t) => SizeWas(c, states, actions, k);
      case ReadByte(t, i) => ReadByteWas(c, states, actions, k);
      case ReadDone(t) => ReadDoneWas(c, states, actions, k);
      case Land(t) => LandWas(c, states, actions, k);
      case ReadFail(t) =>
      case Clear(t) => FrameWasStays(c, states, actions, k, Top(s, t));
      case Notify(t) => FrameWasStays(c, states, actions, k, Top(s, t));
    }
  }

  // ----- every run

  lemma CallsWere(c: Config, states: seq<State>, actions: seq<Action>, k: nat, u: nat, d: nat)
    requires Steps(c, states, actions, k) && History(c, states, k)
    requires u < |states[k + 1].stacks| && d < |states[k + 1].stacks[u]|
    ensures FrameWas(c, states, k + 1, states[k + 1].stacks[u][d])
  {
    hide Apply, Enabled, FrameWas, FrameOk, EntriesStand, Timely;
    var s, f := states[k], states[k + 1].stacks[u][d];
    CallsAfter(c, s, actions[k], u, d);
    if u < |s.stacks| && d < |s.stacks[u]| && s.stacks[u][d] == f {
      assert FrameWas(c, states, k, s.stacks[u][d]) && FrameOk(c, s, s.stacks[u][d]);
      FrameWasStays(c, states, actions, k, f);
    } else if EmptyHanded(f) {
      NothingInHand(c, states, k + 1, f);
    } else {
      TopAfter(c, states, actions, k, d);
    }
  }

  lemma NothingInHand(c: Config, states: seq<State>, k: nat, f: Frame)
    requires k < |states| && EmptyHanded(f)
    ensures FrameWas(c, states, k, f)
  {
  }

  /** If the step is a second sweep, it keeps block `b`. */
  ghost predicate Keeps(c: Config, s: State, a: Action, b: nat) {
    a.Sweep2? && Busy(s, a.t) ==> Outside(c, SweepStart(Top(s, a.t)), SweepEnd(Top(s, a.t)))(b)
  }

  /** Each entry after a step was there before and is not in what the step swept, or has just
      landed. */
  lemma EntriesAfter(c: Config, s: State, a: Action, e: Entry)
    requires Enabled(c, s, a) && e in Apply(c, s, a).cache
    ensures
      || (e in s.cache && Keeps(c, s, a, e.block))
      || (a.Land? && Busy(s, a.t) && Top(s, a.t).Landed? && Top(s, a.t).gen == s.gen
          && e == Entry(Top(s, a.t).block, Top(s, a.t).data))
  {
    hide Find, Unmark, LengthMoved, Closed, Marker, Covers, BeingFetched, HoldingAFetch, Retain, Outside;
    if a.Sweep1? || a.Sweep2? {
      RetainSubset(s.cache, Outside(c, SweepStart(Top(s, a.t)), SweepEnd(Top(s, a.t))));
    }
  }

  lemma EntriesWere(c: Config, states: seq<State>, actions: seq<Action>, k: nat, e: Entry)
    requires Steps(c, states, actions, k) && History(c, states, k) && e in states[k + 1].cache
    ensures BlockStands(c, states, k + 1, e.block, e.data)
  {
    hide Apply, Enabled, FrameWas, Coherent, Timely, BlockStands, Outside, BlockWas;
    var s, a := states[k], actions[k];
    EntriesAfter(c, s, a, e);
    if e in s.cache && Keeps(c, s, a, e.block) {
      forall i: nat | InBlock(c, e.block, i) ensures !Closes(s, a, e.block + i) {
        if a.Sweep2? && Busy(s, a.t) { OutsideIsApart(c, Top(s, a.t), e.block, i); }
      }
      BlockStandsStill(c, states, actions, k, e.block, e.data);
    } else {
      LandWas(c, states, actions, k);
    }
  }

  lemma StepHistory(c: Config, states: seq<State>, actions: seq<Action>, k: nat)
    requires Steps(c, states, actions, k) && History(c, states, k)
    ensures History(c, states, k + 1)
  {
    hide Steps, FrameWas, BlockStands;
    StepsLength(c, states, actions, k);
    forall e | e in states[k + 1].cache ensures BlockStands(c, states, k + 1, e.block, e.data) {
      EntriesWere(c, states, actions, k, e);
    }
    var s' := states[k + 1];
    forall u, d | 0 <= u < |s'.stacks| && 0 <= d < |s'.stacks[u]| ensures FrameWas(c, states, k + 1, s'.stacks[u][d]) {
      CallsWere(c, states, actions, k, u, d);
    }
  }

  lemma {:induction false} RunHistory(c: Config, states: seq<State>, actions: seq<Action>, k: nat)
    requires IsRun(c, states, actions) && k < |states| && TimelyRun(states, actions, k)
    ensures History(c, states, k)
  {
    hide Coherent, History, Apply, Enabled, Timely;
    if k == 0 {
      NoHistory(c, states);
    } else {
      RunHistory(c, states, actions, k - 1);
      RunCoherent(c, states, actions, k - 1);
      StepHistory(c, states, actions, k - 1);
    }
  }

  lemma NoHistory(c: Config, states: seq<State>)
    requires |states| > 0 && Initial(states[0])
    ensures History(c, states, 0)
  {
  }

  /** Whatever overlaps a lookup, every byte it answers is one that the device held there: at
      some moment since the lookup began, or at one from which a single write or resize was
      between its sweeps until it began. */
  lemma AnswerWasThere(c: Config, states: seq<State>, actions: seq<Action>, k: nat, t: nat, i: nat)
    requires Usable(c) && IsRun(c, states, actions) && k < |states| && TimelyRun(states, actions, k)
    requires Busy(states[k], t) && Top(states[k], t).Returning? && Top(states[k], t).outcome.Served?
    requires InBlock(c, Top(states[k], t).block, i)
    ensures var f := Top(states[k], t); WasThere(states, k, f.block + i, At(f.outcome.data, i), f.born)
  {
    hide WasThere, Coherent, IsRun, TimelyRun;
    RunHistory(c, states, actions, k);
    RunCoherent(c, states, actions, k);
    TopWas(c, states, k, t);
  }
}
