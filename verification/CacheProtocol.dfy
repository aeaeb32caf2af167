/** The block cache under concurrency: any number of threads, each with a stack of calls
    into one cache, because a device may call back into the cache that wraps it. Every
    lock region is one atomic step; the device's reads and writes are separate steps,
    one byte at a time, taken with the lock released.

    Assumptions: the generation counter does not wrap during one fetch, so it is a natural
    number here; a device that fails a write may have landed any part of it; a device that
    fails a resize keeps what lies below both lengths. */
module CacheProtocol {
  import opened Common
  import opened Recency

  const MAX_BLOCK_SIZE: nat := 64 * 1024 * 1024

  datatype Config = Config(blockSize: nat, capacity: nat)

  ghost predicate Usable(c: Config) {
    1 <= c.blockSize <= MAX_BLOCK_SIZE
  }

  datatype Outcome = Served(data: Bytes) | Failed

  /** One call in progress, by how far it has got. `born` is the clock at its start. */
  datatype Frame =
    // A block lookup: about to look, asleep on the condition variable, marked as the
    // fetcher, reading the device into a zeroed buffer of which `got` is filled, holding
    // the bytes read, dropping its guard, about to notify, about to return.
    | Looking(block: nat, born: nat)
    | Waiting(block: nat, born: nat)
    | Claimed(block: nat, born: nat, gen: nat)
    | Reading(block: nat, born: nat, gen: nat, buf: Bytes, got: set<nat>)
    | Landed(block: nat, born: nat, gen: nat, data: Bytes)
    | Clearing(block: nat, born: nat, outcome: Outcome)
    | Notifying(block: nat, born: nat, outcome: Outcome)
    | Returning(block: nat, born: nat, outcome: Outcome)
    // A write: before its first sweep, and between its sweeps with `landed` written.
    | WriteStart(off: nat, bytes: Bytes)
    | Writing(off: nat, bytes: Bytes, landed: set<nat>)
    // A resize: before it asks the old size, before its first sweep, between its sweeps
    // before and after the device call.
    | ResizeStart(newLen: nat)
    | ResizeSized(newLen: nat, from: nat)
    | Resizing(newLen: nat, from: nat)
    | Resized(newLen: nat, from: nat)

  /** `stamp(p)` is the clock at which a write or resize covering `p` last completed;
      `retired` counts fetches whose marker has been cleared, `answered` block lookups
      that have returned. The three are history, read by no step. */
  datatype State = State(
    stacks: seq<seq<Frame>>,
    cache: seq<Entry>,
    gen: nat,
    inFlight: seq<(nat, nat)>,
    hits: nat,
    misses: nat,
    dev: Bytes,
    clock: nat,
    stamp: nat -> nat,
    retired: nat,
    answered: nat)

  datatype Action =
    | Begin(t: nat, call: Frame)
    | Look(t: nat)
    | Wake(t: nat)
    | Size(t: nat)
    | ReadByte(t: nat, i: nat)
    | ReadFail(t: nat)
    | ReadDone(t: nat)
    | Land(t: nat)
    | Clear(t: nat)
    | Notify(t: nat)
    | Return(t: nat)
    | AskSize(t: nat)
    | Sweep1(t: nat)
    | WriteByte(t: nat, i: nat)
    | ResizeDevice(t: nat, dev: Bytes)
    | Sweep2(t: nat)
    | InvalidateAll

  // ----- the steps

  predicate Busy(s: State, t: nat) {
    t < |s.stacks| && s.stacks[t] != []
  }

  function Top(s: State, t: nat): Frame
    requires Busy(s, t)
  {
    s.stacks[t][|s.stacks[t]| - 1]
  }

  function Below(s: State, t: nat): seq<Frame>
    requires Busy(s, t)
  {
    s.stacks[t][..|s.stacks[t]| - 1]
  }

  function Put(s: State, t: nat, stack: seq<Frame>): State
    requires t < |s.stacks|
  {
    s.(stacks := s.stacks[t := stack], clock := s.clock + 1)
  }

  /** Replace the call on top of thread `t`'s stack. */
  function Go(s: State, t: nat, f: Frame): State
    requires Busy(s, t)
  {
    Put(s, t, Below(s, t) + [f])
  }

  /** The points at which a call is inside the device, which may call back. */
  predicate CanCallOut(f: Frame) {
    f.Claimed? || f.Reading? || f.ResizeStart? || f.Writing? || f.Resizing?
  }

  predicate Fetching(f: Frame) {
    f.Claimed? || f.Reading? || f.Landed? || f.Clearing?
  }

  predicate BeingFetched(s: State, b: nat) {
    exists k :: 0 <= k < |s.inFlight| && s.inFlight[k].0 == b
  }

  predicate HoldingAFetch(s: State, t: nat) {
    exists k :: 0 <= k < |s.inFlight| && s.inFlight[k].1 == t
  }

  /** The bytes a fetch asks the device for: a block, clamped to the device's size. */
  function ClampedLen(c: Config, size: nat, b: nat): nat {
    SatSub(Min(SatAdd(b, c.blockSize), size), b)
  }

  function Marker(inFlight: seq<(nat, nat)>, m: (nat, nat)): (k: nat)
    ensures k <= |inFlight|
    ensures k < |inFlight| ==> inFlight[k] == m
    ensures k == |inFlight| ==> m !in inFlight
  {
    if inFlight == [] then 0 else if inFlight[0] == m then 0 else 1 + Marker(inFlight[1..], m)
  }

  /** The first matching marker removed, and no other. */
  function Unmark(inFlight: seq<(nat, nat)>, m: (nat, nat)): seq<(nat, nat)> {
    var k := Marker(inFlight, m);
    if k < |inFlight| then inFlight[..k] + inFlight[k + 1..] else inFlight
  }

  /** Whether a sweep of `[start, end)` keeps the entry for block `b`. */
  function Outside(c: Config, start: nat, end: nat): nat -> bool {
    (b: nat) => b >= end || SatAdd(b, c.blockSize) <= start
  }

  /** A sweep of a range drops the blocks that share a position with it, and no others. */
  lemma SweepDropsOverlap(c: Config, start: nat, end: nat, b: nat)
    requires c.blockSize > 0 && start < end <= U64_MAX
    ensures !Outside(c, start, end)(b) <==> exists p: nat :: Within(p, b, b + c.blockSize) && Within(p, start, end)
  {
    if !Outside(c, start, end)(b) {
      var p := Max(b, start);
      assert Within(p, b, b + c.blockSize) && Within(p, start, end);
    }
  }

  ghost predicate Within(p: nat, start: nat, end: nat) {
    start <= p < end
  }

  function SweepStart(f: Frame): nat {
    match f
    case WriteStart(off, _) => off
    case Writing(off, _, _) => off
    case ResizeSized(_, from) => from
    case Resizing(_, from) => from
    case Resized(_, from) => from
    case _ => 0
  }

  function SweepEnd(f: Frame): nat {
    match f
    case WriteStart(off, bytes) => SatAdd(off, |bytes|)
    case Writing(off, bytes, _) => SatAdd(off, |bytes|)
    case _ => U64_MAX
  }

  function Sweep(c: Config, s: State, f: Frame): State {
    s.(cache := Retain(s.cache, Outside(c, SweepStart(f), SweepEnd(f))), gen := s.gen + 1)
  }

  function LookStep(c: Config, s: State, t: nat): State
    requires Busy(s, t) && Top(s, t).Looking?
  {
    var Looking(b, born) := Top(s, t);
    var k := Find(s.cache, b);
    if k < |s.cache| then
      Go(s.(cache := Promote(s.cache, b), hits := s.hits + 1), t, Returning(b, born, Served(s.cache[k].data)))
    else if BeingFetched(s, b) && !HoldingAFetch(s, t) then
      Go(s, t, Waiting(b, born))
    else
      Go(s.(misses := s.misses + 1, inFlight := s.inFlight + [(b, t)]), t, Claimed(b, born, s.gen))
  }

  function LandStep(c: Config, s: State, t: nat): State
    requires Busy(s, t) && Top(s, t).Landed?
  {
    var Landed(b, born, gen, data) := Top(s, t);
    var k := Find(s.cache, b);
    if k < |s.cache| then
      Go(s.(cache := Promote(s.cache, b)), t, Clearing(b, born, Served(s.cache[k].data)))
    else if gen == s.gen then
      Go(s.(cache := Insert(s.cache, b, data, c.capacity)), t, Clearing(b, born, Served(data)))
    else
      Go(s, t, Clearing(b, born, Served(data)))
  }

  function WokenFrame(f: Frame): Frame {
    if f.Waiting? then Looking(f.block, f.born) else f
  }

  /** `notify_all`: every sleeper goes back to looking. */
  function Woken(stacks: seq<seq<Frame>>): (r: seq<seq<Frame>>)
    ensures |r| == |stacks|
  {
    seq(|stacks|, t requires 0 <= t < |stacks| =>
      seq(|stacks[t]|, k requires 0 <= k < |stacks[t]| => WokenFrame(stacks[t][k])))
  }

  function NotifyStep(s: State, t: nat): State
    requires Busy(s, t) && Top(s, t).Notifying?
  {
    var Notifying(b, born, outcome) := Top(s, t);
    Go(s.(stacks := Woken(s.stacks)), t, Returning(b, born, outcome))
  }

  /** What can differ between a held block and the device at one position: the byte, or
      whether there is one at all. A write changes the first, a resize both. */
  datatype Aspect = Value | Presence

  /** Whether a write or resize of which `f` is the call has begun to change `x` of the
      device at `p` and not yet swept for the second time. */
  predicate Covers(f: Frame, p: nat, x: Aspect) {
    match f
    case Writing(off, bytes, _) => x.Value? && off <= p < off + |bytes|
    case Resizing(_, from) => from <= p
    case Resized(_, from) => from <= p
    case _ => false
  }

  function ClosedAt(s: State, f: Frame, p: nat): nat {
    if Covers(f, p, Value) then s.clock else s.stamp(p)
  }

  function Closed(s: State, f: Frame): nat -> nat {
    (p: nat) => ClosedAt(s, f, p)
  }

  /** What a device may hold after a resize to `newLen`, whether it succeeded or not. */
  ghost predicate LengthMoved(dev: Bytes, dev': Bytes, newLen: nat) {
    var kept := Min(|dev|, newLen);
    kept <= |dev'| <= U64_MAX && dev'[..kept] == dev[..kept]
  }

  ghost predicate Enabled(c: Config, s: State, a: Action) {
    match a
    case Begin(t, call) =>
      && t < |s.stacks|
      && (s.stacks[t] == [] || CanCallOut(Top(s, t)))
      && match call {
           case Looking(b, born) => b <= U64_MAX && born == s.clock
           case WriteStart(off, bytes) => off <= U64_MAX && |bytes| <= U64_MAX
           case ResizeStart(newLen) => newLen <= U64_MAX
           case _ => false
         }
    case Look(t) => Busy(s, t) && Top(s, t).Looking?
    case Wake(t) => Busy(s, t) && Top(s, t).Waiting?
    case Size(t) => Busy(s, t) && Top(s, t).Claimed?
    case ReadByte(t, i) =>
      && Busy(s, t) && Top(s, t).Reading?
      && i < |Top(s, t).buf| && i !in Top(s, t).got && Top(s, t).block + i < |s.dev|
    case ReadFail(t) => Busy(s, t) && (Top(s, t).Claimed? || Top(s, t).Reading?)
    case ReadDone(t) =>
      Busy(s, t) && Top(s, t).Reading? && forall i :: 0 <= i < |Top(s, t).buf| ==> i in Top(s, t).got
    case Land(t) => Busy(s, t) && Top(s, t).Landed?
    case Clear(t) => Busy(s, t) && Top(s, t).Clearing?
    case Notify(t) => Busy(s, t) && Top(s, t).Notifying?
    case Return(t) => Busy(s, t) && Top(s, t).Returning?
    case AskSize(t) => Busy(s, t) && Top(s, t).ResizeStart?
    case Sweep1(t) => Busy(s, t) && (Top(s, t).WriteStart? || Top(s, t).ResizeSized?)
    case WriteByte(t, i) =>
      && Busy(s, t) && Top(s, t).Writing?
      && i < |Top(s, t).bytes| && i !in Top(s, t).landed && Top(s, t).off + i < |s.dev|
    case ResizeDevice(t, dev) => Busy(s, t) && Top(s, t).Resizing? && LengthMoved(s.dev, dev, Top(s, t).newLen)
    case Sweep2(t) => Busy(s, t) && (Top(s, t).Writing? || Top(s, t).Resized?)
    case InvalidateAll => true
  }

  ghost function Apply(c: Config, s: State, a: Action): State
    requires Enabled(c, s, a)
  {
    match a
    case Begin(t, call) => Put(s, t, s.stacks[t] + [call])
    case Look(t) => LookStep(c, s, t)
    case Wake(t) => Go(s, t, WokenFrame(Top(s, t)))
    case Size(t) =>
      var Claimed(b, born, gen) := Top(s, t);
      Go(s, t, Reading(b, born, gen, Zeros(ClampedLen(c, |s.dev|, b)), {}))
    case ReadByte(t, i) =>
      var f := Top(s, t);
      Go(s, t, f.(buf := f.buf[i := s.dev[f.block + i]], got := f.got + {i}))
    case ReadFail(t) => Go(s, t, Clearing(Top(s, t).block, Top(s, t).born, Failed))
    case ReadDone(t) =>
      var Reading(b, born, gen, buf, _) := Top(s, t);
      Go(s, t, Landed(b, born, gen, buf))
    case Land(t) => LandStep(c, s, t)
    case Clear(t) =>
      var Clearing(b, born, outcome) := Top(s, t);
      Go(s.(inFlight := Unmark(s.inFlight, (b, t)), retired := s.retired + 1), t, Notifying(b, born, outcome))
    case Notify(t) => NotifyStep(s, t)
    case Return(t) => Put(s.(answered := s.answered + 1), t, Below(s, t))
    case AskSize(t) =>
      var ResizeStart(newLen) := Top(s, t);
      Go(s, t, ResizeSized(newLen, Min(|s.dev|, newLen)))
    case Sweep1(t) =>
      var f := Top(s, t);
      Go(Sweep(c, s, f), t,
         if f.WriteStart? then Writing(f.off, f.bytes, {}) else Resizing(f.newLen, f.from))
    case WriteByte(t, i) =>
      var f := Top(s, t);
      Go(s.(dev := s.dev[f.off + i := f.bytes[i]]), t, f.(landed := f.landed + {i}))
    case ResizeDevice(t, dev) => Go(s.(dev := dev), t, Resized(Top(s, t).newLen, Top(s, t).from))
    case Sweep2(t) => Put(Sweep(c, s, Top(s, t)).(stamp := Closed(s, Top(s, t))), t, Below(s, t))
    case InvalidateAll => s.(cache := [], gen := s.gen + 1, clock := s.clock + 1)
  }

  ghost predicate Initial(s: State) {
    && (forall t :: 0 <= t < |s.stacks| ==> s.stacks[t] == [])
    && s.cache == [] && s.inFlight == [] && |s.dev| <= U64_MAX
    && s.hits == 0 && s.misses == 0 && s.retired == 0 && s.answered == 0
    && forall p: nat :: s.stamp(p) < s.clock
  }

  /** A run: states joined by enabled actions, from an idle cache over any device. */
  ghost predicate IsRun(c: Config, states: seq<State>, actions: seq<Action>) {
    && |states| == |actions| + 1
    && Initial(states[0])
    && forall k :: 0 <= k < |actions| ==>
         Enabled(c, states[k], actions[k]) && states[k + 1] == Apply(c, states[k], actions[k])
  }

  predicate PastSizing(f: Frame) {
    f.ResizeSized? || f.Resizing? || f.Resized?
  }

  /** No two resizes are both past the point where they asked the old size. */
  ghost predicate Serial(s: State) {
    forall t, k, u, m ::
      0 <= t < |s.stacks| && 0 <= k < |s.stacks[t]| && PastSizing(s.stacks[t][k]) &&
      0 <= u < |s.stacks| && 0 <= m < |s.stacks[u]| && PastSizing(s.stacks[u][m]) ==>
        t == u && k == m
  }

  /** When a resize reaches the device, no other has made the device shorter than where its
      sweeps begin: what they leave alone is still all there. */
  ghost predicate Timely(s: State, a: Action) {
    a.ResizeDevice? && Busy(s, a.t) && Top(s, a.t).Resizing? ==> Top(s, a.t).from <= |s.dev|
  }

  /** Every resize of the first `k` actions is timely. */
  ghost predicate TimelyRun(states: seq<State>, actions: seq<Action>, k: nat)
    requires k <= |actions| <= |states|
  {
    forall j :: 0 <= j < k ==> Timely(states[j], actions[j])
  }

  // ----- coherence

  ghost predicate Covered(stack: seq<Frame>, p: nat, x: Aspect) {
    exists k :: 0 <= k < |stack| && Covers(stack[k], p, x)
  }

  /** Some write or resize covering `p` is between its sweeps. */
  ghost predicate Open(s: State, p: nat, x: Aspect) {
    exists t :: 0 <= t < |s.stacks| && Covered(s.stacks[t], p, x)
  }

  /** Some write or resize covering `p` has been open at some moment since `born`. */
  ghost predicate Disturbed(s: State, p: nat, born: nat) {
    Open(s, p, Value) || s.stamp(p) >= born
  }

  /** Position `i` of a block at `b` held as `data` matches the device, in one aspect. */
  ghost predicate Agrees(s: State, b: nat, data: Bytes, i: nat, x: Aspect) {
    if x.Value? then At(data, i) == At(s.dev, b + i) else At(data, i).Some? == At(s.dev, b + i).Some?
  }

  ghost predicate InBlock(c: Config, b: nat, i: nat) {
    i < c.blockSize && b + i < U64_MAX
  }

  ghost predicate Fits(c: Config, b: nat, data: Bytes) {
    |data| <= c.blockSize && b + |data| <= Max(b, U64_MAX)
  }

  /** Every position agrees with the device unless a change to it is between its sweeps. */
  ghost predicate Faithful(c: Config, s: State, b: nat, data: Bytes) {
    && Fits(c, b, data)
    && forall i: nat, x: Aspect :: InBlock(c, b, i) ==> Agrees(s, b, data, i, x) || Open(s, b + i, x)
  }

  /** Every position agrees with the device unless a change to it was open since `born`. */
  ghost predicate Current(c: Config, s: State, b: nat, data: Bytes, born: nat) {
    && Fits(c, b, data)
    && forall i: nat :: InBlock(c, b, i) ==> Agrees(s, b, data, i, Value) || Disturbed(s, b + i, born)
  }

  ghost predicate Known(buf: Bytes, got: set<nat>, i: nat) {
    i in got || i >= |buf|
  }

  /** A fetch under way, as far as it has got: current, and faithful while no sweep has
      run since its marker was pushed. */
  ghost predicate PartlyCurrent(c: Config, s: State, f: Frame)
    requires f.Reading?
  {
    && Fits(c, f.block, f.buf)
    && (forall i: nat :: InBlock(c, f.block, i) && Known(f.buf, f.got, i) ==>
          Agrees(s, f.block, f.buf, i, Value) || Disturbed(s, f.block + i, f.born))
    && (f.gen == s.gen ==>
          forall i: nat, x: Aspect :: InBlock(c, f.block, i) && (Known(f.buf, f.got, i) || x.Presence?) ==>
            Agrees(s, f.block, f.buf, i, x) || Open(s, f.block + i, x))
  }

  ghost predicate OutcomeOk(c: Config, s: State, f: Frame)
    requires f.Clearing? || f.Notifying? || f.Returning?
  {
    f.outcome.Served? ==> Current(c, s, f.block, f.outcome.data, f.born)
  }

  ghost predicate FrameOk(c: Config, s: State, f: Frame) {
    match f
    case Looking(_, born) => born <= s.clock
    case Waiting(_, born) => born <= s.clock
    case Claimed(_, born, gen) => born <= s.clock && gen <= s.gen
    case Reading(_, born, gen, _, _) => born <= s.clock && gen <= s.gen && PartlyCurrent(c, s, f)
    case Landed(b, born, gen, data) =>
      && born <= s.clock && gen <= s.gen && Current(c, s, b, data, born)
      && (gen == s.gen ==> Faithful(c, s, b, data))
    case Clearing(_, born, _) => born <= s.clock && OutcomeOk(c, s, f)
    case Notifying(_, born, _) => born <= s.clock && OutcomeOk(c, s, f)
    case Returning(_, born, _) => born <= s.clock && OutcomeOk(c, s, f)
    case ResizeSized(newLen, from) => from <= newLen
    case Resizing(newLen, from) => from <= newLen
    case _ => true
  }

  ghost predicate Coherent(c: Config, s: State) {
    && |s.dev| <= U64_MAX
    && (forall k :: 0 <= k < |s.cache| ==> Faithful(c, s, s.cache[k].block, s.cache[k].data))
    && (forall t, k :: 0 <= t < |s.stacks| && 0 <= k < |s.stacks[t]| ==> FrameOk(c, s, s.stacks[t][k]))
  }

  /** What every step keeps from `s` to `s'`: the device changes only where a change is
      open, and a change stops being open only by stamping its range and moving the
      generation on. */
  ghost predicate Calm(s: State, s': State) {
    && s.clock <= s'.clock && s.gen <= s'.gen
    && (forall p: nat :: At(s.dev, p) != At(s'.dev, p) ==> Open(s', p, Value))
    && (forall p: nat :: At(s.dev, p).Some? != At(s'.dev, p).Some? ==> Open(s', p, Presence))
    && (forall p: nat, x :: Open(s, p, x) ==> Open(s', p, x) || (s'.stamp(p) >= s.clock && s.gen < s'.gen))
    && (forall p: nat :: s.stamp(p) <= s'.stamp(p) || s'.stamp(p) >= s.clock)
  }

  lemma DisturbedStays(s: State, s': State, p: nat, born: nat)
    requires Calm(s, s') && born <= s.clock && Disturbed(s, p, born)
    ensures Disturbed(s', p, born)
  {
  }

  lemma CurrentStays(c: Config, s: State, s': State, b: nat, data: Bytes, born: nat)
    requires Calm(s, s') && born <= s.clock && Current(c, s, b, data, born)
    ensures Current(c, s', b, data, born)
  {
    forall i: nat | InBlock(c, b, i) ensures Agrees(s', b, data, i, Value) || Disturbed(s', b + i, born) {
      if !Agrees(s, b, data, i, Value) { DisturbedStays(s, s', b + i, born); }
    }
  }

  lemma FaithfulStays(c: Config, s: State, s': State, b: nat, data: Bytes)
    requires Calm(s, s') && s.gen == s'.gen && Faithful(c, s, b, data)
    ensures Faithful(c, s', b, data)
  {
    forall i: nat, x: Aspect | InBlock(c, b, i) ensures Agrees(s', b, data, i, x) || Open(s', b + i, x) {
      assert Agrees(s, b, data, i, x) || Open(s, b + i, x);
    }
  }

  lemma PartlyCurrentStays(c: Config, s: State, s': State, f: Frame)
    requires Calm(s, s') && f.Reading? && f.born <= s.clock && f.gen <= s.gen && PartlyCurrent(c, s, f)
    ensures PartlyCurrent(c, s', f)
  {
    forall i: nat | InBlock(c, f.block, i) && Known(f.buf, f.got, i)
      ensures Agrees(s', f.block, f.buf, i, Value) || Disturbed(s', f.block + i, f.born)
    {
      if !Agrees(s, f.block, f.buf, i, Value) { DisturbedStays(s, s', f.block + i, f.born); }
    }
    if f.gen == s'.gen {
      forall i: nat, x: Aspect | InBlock(c, f.block, i) && (Known(f.buf, f.got, i) || x.Presence?)
        ensures Agrees(s', f.block, f.buf, i, x) || Open(s', f.block + i, x)
      {
        assert Agrees(s, f.block, f.buf, i, x) || Open(s, f.block + i, x);
      }
    }
  }

  /** A call's claim outlives every calm step. */
  lemma FrameStays(c: Config, s: State, s': State, f: Frame)
    requires Calm(s, s') && FrameOk(c, s, f)
    ensures FrameOk(c, s', f)
  {
    match f {
      case Reading(_, _, _, _, _) => PartlyCurrentStays(c, s, s', f);
      case Landed(b, born, gen, data) =>
        CurrentStays(c, s, s', b, data, born);
        if gen == s'.gen { FaithfulStays(c, s, s', b, data); }
      case Clearing(b, born, o) => if o.Served? { CurrentStays(c, s, s', b, o.data, born); }
      case Notifying(b, born, o) => if o.Served? { CurrentStays(c, s, s', b, o.data, born); }
      case Returning(b, born, o) => if o.Served? { CurrentStays(c, s, s', b, o.data, born); }
      case _ =>
    }
  }

  lemma OpenKept(s: State, s': State, t: nat, p: nat, x: Aspect)
    requires t < |s.stacks| && |s'.stacks| == |s.stacks|
    requires forall u :: 0 <= u < |s.stacks| && u != t ==> s'.stacks[u] == s.stacks[u]
    requires Covered(s.stacks[t], p, x) ==> Covered(s'.stacks[t], p, x)
    ensures Open(s, p, x) ==> Open(s', p, x)
  {
    if Open(s, p, x) {
      var u :| 0 <= u < |s.stacks| && Covered(s.stacks[u], p, x);
      assert Covered(s'.stacks[u], p, x);
    }
  }

  lemma CoveredPush(stack: seq<Frame>, f: Frame, p: nat, x: Aspect)
    ensures Covered(stack + [f], p, x) <==> Covered(stack, p, x) || Covers(f, p, x)
  {
    var all := stack + [f];
    if Covered(stack, p, x) {
      var k :| 0 <= k < |stack| && Covers(stack[k], p, x);
      assert Covers(all[k], p, x);
    }
    assert Covers(f, p, x) ==> Covers(all[|stack|], p, x);
  }

  lemma CoveredTop(s: State, t: nat, p: nat, x: Aspect)
    requires Busy(s, t)
    ensures Covered(s.stacks[t], p, x) <==> Covered(Below(s, t), p, x) || Covers(Top(s, t), p, x)
  {
    assert s.stacks[t] == Below(s, t) + [Top(s, t)];
    CoveredPush(Below(s, t), Top(s, t), p, x);
  }

  /** Replacing one thread's top call keeps open what the new call still covers. */
  lemma OpenAfterGo(s: State, s': State, t: nat, f: Frame, p: nat, x: Aspect)
    requires Busy(s, t) && s'.stacks == s.stacks[t := Below(s, t) + [f]]
    ensures Covers(f, p, x) ==> Open(s', p, x)
    ensures Open(s, p, x) && (Covers(Top(s, t), p, x) ==> Covers(f, p, x)) ==> Open(s', p, x)
  {
    CoveredTop(s, t, p, x);
    CoveredPush(Below(s, t), f, p, x);
    assert s'.stacks[t] == Below(s, t) + [f];
    if Covers(Top(s, t), p, x) ==> Covers(f, p, x) {
      OpenKept(s, s', t, p, x);
    }
    if Covers(f, p, x) { assert Covered(s'.stacks[t], p, x); }
  }

  lemma FramesStay(c: Config, s: State, s': State, t: nat, stack: seq<Frame>)
    requires Coherent(c, s) && Calm(s, s')
    requires t < |s.stacks| && s'.stacks == s.stacks[t := stack]
    requires forall k :: 0 <= k < |stack| ==> FrameOk(c, s', stack[k]) || stack[k] in s.stacks[t]
    ensures forall u, k :: 0 <= u < |s'.stacks| && 0 <= k < |s'.stacks[u]| ==> FrameOk(c, s', s'.stacks[u][k])
  {
    forall u, k | 0 <= u < |s'.stacks| && 0 <= k < |s'.stacks[u]| ensures FrameOk(c, s', s'.stacks[u][k]) {
      var f := s'.stacks[u][k];
      if u != t {
        assert FrameOk(c, s, s.stacks[u][k]);
        FrameStays(c, s, s', f);
      } else if f in s.stacks[t] {
        var m :| 0 <= m < |s.stacks[t]| && s.stacks[t][m] == f;
        assert FrameOk(c, s, s.stacks[t][m]);
        FrameStays(c, s, s', f);
      }
    }
  }

  /** Where nothing stops being open, held entries stay faithful. */
  lemma EntriesStay(c: Config, s: State, s': State)
    requires forall k :: 0 <= k < |s.cache| ==> Faithful(c, s, s.cache[k].block, s.cache[k].data)
    requires forall p: nat :: At(s.dev, p) != At(s'.dev, p) ==> Open(s', p, Value)
    requires forall p: nat :: At(s.dev, p).Some? != At(s'.dev, p).Some? ==> Open(s', p, Presence)
    requires forall p: nat, x :: Open(s, p, x) ==> Open(s', p, x)
    ensures forall k :: 0 <= k < |s.cache| ==> Faithful(c, s', s.cache[k].block, s.cache[k].data)
  {
    forall k | 0 <= k < |s.cache| ensures Faithful(c, s', s.cache[k].block, s.cache[k].data) {
      var b, data := s.cache[k].block, s.cache[k].data;
      forall i: nat, x: Aspect | InBlock(c, b, i) ensures Agrees(s', b, data, i, x) || Open(s', b + i, x) {
        assert Agrees(s, b, data, i, x) || Open(s, b + i, x);
      }
    }
  }

  /** A step that leaves the device and the stamps alone and gives thread `t` a call `f`
      covering no less than the one it replaces. */
  lemma QuietGo(c: Config, s: State, s': State, t: nat, f: Frame)
    requires Coherent(c, s) && Busy(s, t) && s'.stacks == s.stacks[t := Below(s, t) + [f]]
    requires s'.clock == s.clock + 1 && s.gen <= s'.gen && s'.dev == s.dev && s'.stamp == s.stamp
    requires forall p: nat, x :: Covers(Top(s, t), p, x) ==> Covers(f, p, x)
    ensures Calm(s, s')
    ensures forall k :: 0 <= k < |s.cache| ==> Faithful(c, s', s.cache[k].block, s.cache[k].data)
    ensures FrameOk(c, s', f) ==>
      forall u, k :: 0 <= u < |s'.stacks| && 0 <= k < |s'.stacks[u]| ==> FrameOk(c, s', s'.stacks[u][k])
  {
    forall p: nat, x ensures Open(s, p, x) ==> Open(s', p, x) { OpenAfterGo(s, s', t, f, p, x); }
    EntriesStay(c, s, s');
    if FrameOk(c, s', f) {
      FramesStay(c, s, s', t, Below(s, t) + [f]);
    }
  }

  /** The same for a call that starts, or one that ends without having covered anything. */
  lemma QuietPut(c: Config, s: State, s': State, t: nat, stack: seq<Frame>)
    requires Coherent(c, s) && t < |s.stacks| && s'.stacks == s.stacks[t := stack]
    requires s'.clock == s.clock + 1 && s'.gen == s.gen && s'.dev == s.dev && s'.stamp == s.stamp && s'.cache == s.cache
    requires forall p: nat, x :: Covered(s.stacks[t], p, x) ==> Covered(stack, p, x)
    requires forall k :: 0 <= k < |stack| ==> FrameOk(c, s', stack[k]) || stack[k] in s.stacks[t]
    ensures Coherent(c, s')
  {
    forall p: nat, x ensures Open(s, p, x) ==> Open(s', p, x) { OpenKept(s, s', t, p, x); }
    EntriesStay(c, s, s');
    FramesStay(c, s, s', t, stack);
  }

  lemma FaithfulSubset(c: Config, s: State, es: seq<Entry>, sub: seq<Entry>)
    requires forall k :: 0 <= k < |es| ==> Faithful(c, s, es[k].block, es[k].data)
    requires forall e :: e in sub ==> e in es
    ensures forall k :: 0 <= k < |sub| ==> Faithful(c, s, sub[k].block, sub[k].data)
  {
    forall k | 0 <= k < |sub| ensures Faithful(c, s, sub[k].block, sub[k].data) {
      assert sub[k] in es;
      var m :| 0 <= m < |es| && es[m] == sub[k];
    }
  }

  lemma FaithfulIsCurrent(c: Config, s: State, b: nat, data: Bytes, born: nat)
    requires Faithful(c, s, b, data)
    ensures Current(c, s, b, data, born)
  {
    forall i: nat | InBlock(c, b, i) ensures Agrees(s, b, data, i, Value) || Disturbed(s, b + i, born) {
      assert Agrees(s, b, data, i, Value) || Open(s, b + i, Value);
    }
  }

  lemma PromoteMembers(es: seq<Entry>, b: nat)
    ensures forall e :: e in Promote(es, b) ==> e in es
  {
  }

  lemma LookCoherent(c: Config, s: State, t: nat)
    requires Coherent(c, s) && Enabled(c, s, Look(t))
    ensures Coherent(c, LookStep(c, s, t))
  {
    var s' := LookStep(c, s, t);
    var b, born := Top(s, t).block, Top(s, t).born;
    assert FrameOk(c, s, s.stacks[t][|s.stacks[t]| - 1]);
    var f := s'.stacks[t][|s.stacks[t]| - 1];
    QuietGo(c, s, s', t, f);
    if Held(s.cache, b) {
      PromoteMembers(s.cache, b);
      FaithfulSubset(c, s', s.cache, s'.cache);
      FaithfulIsCurrent(c, s', b, s.cache[Find(s.cache, b)].data, born);
    }
  }

  lemma LandCoherent(c: Config, s: State, t: nat)
    requires Coherent(c, s) && Enabled(c, s, Land(t))
    ensures Coherent(c, LandStep(c, s, t))
  {
    hide Calm, Fits, Retain;
    var s' := LandStep(c, s, t);
    var Landed(b, born, gen, data) := Top(s, t);
    assert FrameOk(c, s, s.stacks[t][|s.stacks[t]| - 1]);
    var f := s'.stacks[t][|s.stacks[t]| - 1];
    QuietGo(c, s, s', t, f);
    CurrentStays(c, s, s', b, data, born);
    if Held(s.cache, b) {
      PromoteMembers(s.cache, b);
      FaithfulSubset(c, s', s.cache, s'.cache);
      FaithfulIsCurrent(c, s', b, s.cache[Find(s.cache, b)].data, born);
    } else if gen == s.gen {
      FaithfulStays(c, s, s', b, data);
      FaithfulSubset(c, s', s.cache + [Entry(b, data)], s'.cache);
    }
  }

  lemma BeginCoherent(c: Config, s: State, t: nat, call: Frame)
    requires Coherent(c, s) && Enabled(c, s, Begin(t, call))
    ensures Coherent(c, Apply(c, s, Begin(t, call)))
  {
    forall p: nat, x ensures Covered(s.stacks[t], p, x) ==> Covered(s.stacks[t] + [call], p, x) {
      CoveredPush(s.stacks[t], call, p, x);
    }
    QuietPut(c, s, Apply(c, s, Begin(t, call)), t, s.stacks[t] + [call]);
  }

  lemma ReturnCoherent(c: Config, s: State, t: nat)
    requires Coherent(c, s) && Enabled(c, s, Return(t))
    ensures Coherent(c, Apply(c, s, Return(t)))
  {
    forall p: nat, x ensures Covered(s.stacks[t], p, x) ==> Covered(Below(s, t), p, x) {
      CoveredTop(s, t, p, x);
    }
    QuietPut(c, s, Apply(c, s, Return(t)), t, Below(s, t));
  }

  lemma TopOk(c: Config, s: State, t: nat)
    requires Coherent(c, s) && Busy(s, t)
    ensures FrameOk(c, s, Top(s, t))
  {
    assert FrameOk(c, s, s.stacks[t][|s.stacks[t]| - 1]);
  }

  /** The clamped length covers every position of the block that the device has. */
  lemma SizeCoherent(c: Config, s: State, t: nat)
    requires Coherent(c, s) && Enabled(c, s, Size(t))
    ensures Coherent(c, Apply(c, s, Size(t)))
  {
    TopOk(c, s, t);
    var s' := Apply(c, s, Size(t));
    var f := s'.stacks[t][|s.stacks[t]| - 1];
    QuietGo(c, s, s', t, f);
    assert PartlyCurrent(c, s', f) by {
      forall i: nat, x: Aspect | InBlock(c, f.block, i) && (Known(f.buf, f.got, i) || x.Presence?)
        ensures Agrees(s', f.block, f.buf, i, x)
      {}
    }
  }

  lemma ReadByteCurrent(c: Config, s: State, f: Frame, i: nat)
    requires f.Reading? && PartlyCurrent(c, s, f)
    requires i < |f.buf| && f.block + i < |s.dev|
    ensures PartlyCurrent(c, s, f.(buf := f.buf[i := s.dev[f.block + i]], got := f.got + {i}))
  {
    var f' := f.(buf := f.buf[i := s.dev[f.block + i]], got := f.got + {i});
    forall j: nat | InBlock(c, f.block, j) && Known(f'.buf, f'.got, j)
      ensures Agrees(s, f.block, f'.buf, j, Value) || Disturbed(s, f.block + j, f.born)
    {
      if j != i {
        assert Agrees(s, f.block, f.buf, j, Value) ==> Agrees(s, f.block, f'.buf, j, Value);
      }
    }
    if f.gen == s.gen {
      forall j: nat, x: Aspect | InBlock(c, f.block, j) && (Known(f'.buf, f'.got, j) || x.Presence?)
        ensures Agrees(s, f.block, f'.buf, j, x) || Open(s, f.block + j, x)
      {
        if j != i {
          assert Agrees(s, f.block, f.buf, j, x) ==> Agrees(s, f.block, f'.buf, j, x);
        }
      }
    }
  }

  lemma ReadByteCoherent(c: Config, s: State, t: nat, i: nat)
    requires Coherent(c, s) && Enabled(c, s, ReadByte(t, i))
    ensures Coherent(c, Apply(c, s, ReadByte(t, i)))
  {
    hide PartlyCurrent, Calm, Faithful;
    TopOk(c, s, t);
    var s' := Apply(c, s, ReadByte(t, i));
    var f, f' := Top(s, t), s'.stacks[t][|s.stacks[t]| - 1];
    QuietGo(c, s, s', t, f');
    PartlyCurrentStays(c, s, s', f);
    ReadByteCurrent(c, s', f, i);
  }

  lemma ReadDoneCoherent(c: Config, s: State, t: nat)
    requires Coherent(c, s) && Enabled(c, s, ReadDone(t))
    ensures Coherent(c, Apply(c, s, ReadDone(t)))
  {
    TopOk(c, s, t);
    var s' := Apply(c, s, ReadDone(t));
    var f, f' := Top(s, t), s'.stacks[t][|s.stacks[t]| - 1];
    QuietGo(c, s, s', t, f');
    PartlyCurrentStays(c, s, s', f);
    forall i: nat | InBlock(c, f.block, i) ensures Known(f.buf, f.got, i) {}
  }

  /** Steps that change nothing but one call's own progress. */
  lemma PlainCoherent(c: Config, s: State, a: Action)
    requires Coherent(c, s) && Enabled(c, s, a)
    requires a.Wake? || a.ReadFail? || a.Clear? || a.AskSize?
    ensures Coherent(c, Apply(c, s, a))
  {
    TopOk(c, s, a.t);
    var s' := Apply(c, s, a);
    var f := s'.stacks[a.t][|s.stacks[a.t]| - 1];
    QuietGo(c, s, s', a.t, f);
    if a.Clear? && f.outcome.Served? {
      CurrentStays(c, s, s', f.block, f.outcome.data, f.born);
    }
  }

  /** A kept entry has no position in the swept range. */
  lemma OutsideIsApart(c: Config, f: Frame, b: nat, i: nat)
    requires Outside(c, SweepStart(f), SweepEnd(f))(b) && InBlock(c, b, i)
    ensures !Covers(f, b + i, Value) && !Covers(f, b + i, Presence)
  {
  }

  lemma RetainSubset(es: seq<Entry>, keep: nat -> bool)
    ensures forall e :: e in Retain(es, keep) ==> e in es && keep(e.block)
  {
    forall e | e in Retain(es, keep) ensures e in es && keep(e.block) {
      RetainMember(es, keep, e);
    }
  }

  lemma Sweep1Coherent(c: Config, s: State, t: nat)
    requires Coherent(c, s) && Enabled(c, s, Sweep1(t))
    ensures Coherent(c, Apply(c, s, Sweep1(t)))
  {
    hide Calm, Faithful, Retain;
    TopOk(c, s, t);
    var s' := Apply(c, s, Sweep1(t));
    QuietGo(c, s, s', t, s'.stacks[t][|s.stacks[t]| - 1]);
    RetainSubset(s.cache, Outside(c, SweepStart(Top(s, t)), SweepEnd(Top(s, t))));
    FaithfulSubset(c, s', s.cache, s'.cache);
  }

  /** A change lands only on positions its own call keeps open. */
  lemma LandingCalm(c: Config, s: State, s': State, t: nat, f: Frame)
    requires Busy(s, t) && s'.stacks == s.stacks[t := Below(s, t) + [f]]
    requires s'.clock == s.clock + 1 && s'.gen == s.gen && s'.stamp == s.stamp
    requires forall p: nat, x :: Covers(Top(s, t), p, x) ==> Covers(f, p, x)
    requires forall p: nat :: At(s.dev, p) != At(s'.dev, p) ==> Covers(f, p, Value)
    requires forall p: nat :: At(s.dev, p).Some? != At(s'.dev, p).Some? ==> Covers(f, p, Presence)
    ensures Calm(s, s') && forall p: nat, x :: Open(s, p, x) ==> Open(s', p, x)
  {
    forall p: nat, x
      ensures Open(s, p, x) ==> Open(s', p, x)
      ensures Covers(f, p, x) ==> Open(s', p, x)
    {
      OpenAfterGo(s, s', t, f, p, x);
    }
  }

  lemma WriteByteCoherent(c: Config, s: State, t: nat, i: nat)
    requires Coherent(c, s) && Enabled(c, s, WriteByte(t, i))
    ensures Coherent(c, Apply(c, s, WriteByte(t, i)))
  {
    var s' := Apply(c, s, WriteByte(t, i));
    var f := s'.stacks[t][|s.stacks[t]| - 1];
    LandingCalm(c, s, s', t, f);
    EntriesStay(c, s, s');
    FramesStay(c, s, s', t, Below(s, t) + [f]);
  }

  lemma ResizeDeviceCoherent(c: Config, s: State, t: nat, dev: Bytes)
    requires Coherent(c, s) && Enabled(c, s, ResizeDevice(t, dev)) && Timely(s, ResizeDevice(t, dev))
    ensures Coherent(c, Apply(c, s, ResizeDevice(t, dev)))
  {
    TopOk(c, s, t);
    var s' := Apply(c, s, ResizeDevice(t, dev));
    var f := s'.stacks[t][|s.stacks[t]| - 1];
    forall p: nat, x ensures At(s.dev, p) != At(dev, p) ==> Covers(f, p, x) {
      if p < f.from {
        assert s.dev[..f.from][p] == dev[..f.from][p];
      }
    }
    LandingCalm(c, s, s', t, f);
    EntriesStay(c, s, s');
    FramesStay(c, s, s', t, Below(s, t) + [f]);
  }

  lemma Sweep2Calm(c: Config, s: State, t: nat)
    requires Enabled(c, s, Sweep2(t))
    ensures Calm(s, Apply(c, s, Sweep2(t)))
    ensures forall p: nat, x ::
      Open(s, p, x) && !Covers(Top(s, t), p, x) ==> Open(Apply(c, s, Sweep2(t)), p, x)
  {
    hide Retain, Outside, Covered;
    var s' := Apply(c, s, Sweep2(t));
    var f := Top(s, t);
    forall p: nat, x ensures Open(s, p, x) && !Covers(f, p, x) ==> Open(s', p, x) {
      CoveredTop(s, t, p, x);
      if !Covers(f, p, x) { OpenKept(s, s', t, p, x); }
    }
    forall p: nat, x
      ensures Open(s, p, x) ==> Open(s', p, x) || (s'.stamp(p) >= s.clock && s.gen < s'.gen)
      ensures s.stamp(p) <= s'.stamp(p) || s'.stamp(p) >= s.clock
    {
      assert s'.stamp(p) == ClosedAt(s, f, p);
      assert Covers(f, p, x) ==> Covers(f, p, Value);
    }
  }

  /** What the second sweep keeps has no position in the swept range. */
  lemma KeptStays(c: Config, s: State, t: nat, e: Entry)
    requires Enabled(c, s, Sweep2(t)) && Faithful(c, s, e.block, e.data)
    requires Outside(c, SweepStart(Top(s, t)), SweepEnd(Top(s, t)))(e.block)
    ensures Faithful(c, Apply(c, s, Sweep2(t)), e.block, e.data)
  {
    hide Retain, Open, Outside, Covers, Calm;
    var s' := Apply(c, s, Sweep2(t));
    Sweep2Calm(c, s, t);
    forall i: nat, x: Aspect | InBlock(c, e.block, i)
      ensures Agrees(s', e.block, e.data, i, x) || Open(s', e.block + i, x)
    {
      OutsideIsApart(c, Top(s, t), e.block, i);
      assert Agrees(s, e.block, e.data, i, x) || Open(s, e.block + i, x);
    }
  }

  lemma Sweep2Coherent(c: Config, s: State, t: nat)
    requires Coherent(c, s) && Enabled(c, s, Sweep2(t))
    ensures Coherent(c, Apply(c, s, Sweep2(t)))
  {
    hide Calm, Open, Covers, Outside, Retain, Faithful, FrameOk;
    var s' := Apply(c, s, Sweep2(t));
    Sweep2Calm(c, s, t);
    FramesStay(c, s, s', t, Below(s, t));
    RetainSubset(s.cache, Outside(c, SweepStart(Top(s, t)), SweepEnd(Top(s, t))));
    forall k | 0 <= k < |s'.cache| ensures Faithful(c, s', s'.cache[k].block, s'.cache[k].data) {
      assert s'.cache[k] in s'.cache && s'.cache[k] in s.cache;
      var m :| 0 <= m < |s.cache| && s.cache[m] == s'.cache[k];
      KeptStays(c, s, t, s.cache[m]);
    }
  }

  lemma WokenCovered(stacks: seq<seq<Frame>>, t: nat, p: nat, x: Aspect)
    requires t < |stacks|
    ensures Covered(stacks[t], p, x) ==> Covered(Woken(stacks)[t], p, x)
  {
    if Covered(stacks[t], p, x) {
      var k :| 0 <= k < |stacks[t]| && Covers(stacks[t][k], p, x);
      assert Covers(Woken(stacks)[t][k], p, x);
    }
  }

  lemma NotifyCoherent(c: Config, s: State, t: nat)
    requires Coherent(c, s) && Enabled(c, s, Notify(t))
    ensures Coherent(c, NotifyStep(s, t))
  {
    TopOk(c, s, t);
    var mid := s.(stacks := Woken(s.stacks));
    forall p: nat, x ensures Open(s, p, x) ==> Open(mid, p, x) {
      if Open(s, p, x) {
        var u :| 0 <= u < |s.stacks| && Covered(s.stacks[u], p, x);
        WokenCovered(s.stacks, u, p, x);
      }
    }
    EntriesStay(c, s, mid);
    forall u, k | 0 <= u < |mid.stacks| && 0 <= k < |mid.stacks[u]| ensures FrameOk(c, mid, mid.stacks[u][k]) {
      assert FrameOk(c, s, s.stacks[u][k]);
      FrameStays(c, s, mid, s.stacks[u][k]);
    }
    var s' := NotifyStep(s, t);
    var f := s'.stacks[t][|s.stacks[t]| - 1];
    TopOk(c, mid, t);
    QuietGo(c, mid, s', t, f);
    if f.outcome.Served? {
      CurrentStays(c, mid, s', f.block, f.outcome.data, f.born);
    }
  }

  lemma InvalidateAllCoherent(c: Config, s: State)
    requires Coherent(c, s)
    ensures Coherent(c, Apply(c, s, InvalidateAll))
  {
    var s' := Apply(c, s, InvalidateAll);
    forall p: nat, x ensures Open(s, p, x) ==> Open(s', p, x) {
      if Open(s, p, x) {
        var u :| 0 <= u < |s.stacks| && Covered(s.stacks[u], p, x);
        assert Covered(s'.stacks[u], p, x);
      }
    }
    forall u, k | 0 <= u < |s'.stacks| && 0 <= k < |s'.stacks[u]| ensures FrameOk(c, s', s'.stacks[u][k]) {
      assert FrameOk(c, s, s.stacks[u][k]);
      FrameStays(c, s, s', s.stacks[u][k]);
    }
  }

  /** Every step keeps the cache coherent, a resize reaching the device only in time. */
  lemma StepCoherent(c: Config, s: State, a: Action)
    requires Coherent(c, s) && Enabled(c, s, a) && Timely(s, a)
    ensures Coherent(c, Apply(c, s, a))
  {
    match a
    case Begin(t, call) => BeginCoherent(c, s, t, call);
    case Look(t) => LookCoherent(c, s, t);
    case Size(t) => SizeCoherent(c, s, t);
    case ReadByte(t, i) => ReadByteCoherent(c, s, t, i);
    case ReadDone(t) => ReadDoneCoherent(c, s, t);
    case Land(t) => LandCoherent(c, s, t);
    case Notify(t) => NotifyCoherent(c, s, t);
    case Return(t) => ReturnCoherent(c, s, t);
    case Sweep1(t) => Sweep1Coherent(c, s, t);
    case WriteByte(t, i) => WriteByteCoherent(c, s, t, i);
    case ResizeDevice(t, dev) => ResizeDeviceCoherent(c, s, t, dev);
    case Sweep2(t) => Sweep2Coherent(c, s, t);
    case InvalidateAll => InvalidateAllCoherent(c, s);
    case _ => PlainCoherent(c, s, a);
  }

  lemma {:induction false} RunCoherent(c: Config, states: seq<State>, actions: seq<Action>, k: nat)
    requires IsRun(c, states, actions) && k < |states| && TimelyRun(states, actions, k)
    ensures Coherent(c, states[k])
  {
    if k == 0 {
    } else {
      RunCoherent(c, states, actions, k - 1);
      StepCoherent(c, states[k - 1], actions[k - 1]);
    }
  }

  /** What the device holds for block `b`: its bytes up to the block's or the device's end. */
  function DeviceBlock(c: Config, dev: Bytes, b: nat): Bytes {
    if b < |dev| then dev[b..Min(b + c.blockSize, |dev|)] else []
  }

  lemma AgreeingIsExact(c: Config, s: State, b: nat, data: Bytes)
    requires Usable(c) && |s.dev| <= U64_MAX && Fits(c, b, data)
    requires forall i: nat :: InBlock(c, b, i) ==> Agrees(s, b, data, i, Value)
    ensures data == DeviceBlock(c, s.dev, b)
  {
    var block := DeviceBlock(c, s.dev, b);
    forall i: nat | i < c.blockSize ensures At(data, i) == At(block, i) {
      if b + i < U64_MAX { assert InBlock(c, b, i) && Agrees(s, b, data, i, Value); }
    }
    assert |data| < c.blockSize ==> At(data, |data|) == At(block, |data|);
    assert |block| < c.blockSize ==> At(data, |block|) == At(block, |block|);
    forall i | 0 <= i < |data| ensures data[i] == block[i] {
      assert At(data, i) == At(block, i);
    }
  }

  /** In every reachable state a held block is exactly the device's bytes, except where a
      write or resize is between its two sweeps. */
  lemma HeldIsExact(c: Config, states: seq<State>, actions: seq<Action>, k: nat, e: Entry)
    requires Usable(c) && IsRun(c, states, actions) && k < |states| && TimelyRun(states, actions, k)
    requires e in states[k].cache
    ensures forall i: nat :: InBlock(c, e.block, i) ==>
      At(e.data, i) == At(states[k].dev, e.block + i) || Open(states[k], e.block + i, Value)
    ensures (forall i: nat :: InBlock(c, e.block, i) ==> !Open(states[k], e.block + i, Value)) ==>
      e.data == DeviceBlock(c, states[k].dev, e.block)
  {
    var s := states[k];
    RunCoherent(c, states, actions, k);
    var m :| 0 <= m < |s.cache| && s.cache[m] == e;
    assert Faithful(c, s, e.block, e.data);
    forall i: nat | InBlock(c, e.block, i)
      ensures Agrees(s, e.block, e.data, i, Value) || Open(s, e.block + i, Value)
    {
    }
    if forall i: nat :: InBlock(c, e.block, i) ==> !Open(s, e.block + i, Value) {
      AgreeingIsExact(c, s, e.block, e.data);
    }
  }

  /** What a lookup returns differs from the device at a position only if a write or
      resize covering it was between its sweeps at some moment of the call. So once the
      overlapping changes have returned, failed or not, no later lookup is served what the
      device held before them. */
  lemma AnswerIsCurrent(c: Config, states: seq<State>, actions: seq<Action>, k: nat, t: nat)
    requires Usable(c) && IsRun(c, states, actions) && k < |states| && TimelyRun(states, actions, k)
    requires Busy(states[k], t) && Top(states[k], t).Returning? && Top(states[k], t).outcome.Served?
    ensures var s, f := states[k], Top(states[k], t);
      && (forall i: nat :: InBlock(c, f.block, i) ==>
            At(f.outcome.data, i) == At(s.dev, f.block + i) || Disturbed(s, f.block + i, f.born))
      && ((forall i: nat :: InBlock(c, f.block, i) ==> !Disturbed(s, f.block + i, f.born)) ==>
            f.outcome.data == DeviceBlock(c, s.dev, f.block))
  {
    var s, f := states[k], Top(states[k], t);
    RunCoherent(c, states, actions, k);
    TopOk(c, s, t);
    forall i: nat | InBlock(c, f.block, i)
      ensures Agrees(s, f.block, f.outcome.data, i, Value) || Disturbed(s, f.block + i, f.born)
    {
    }
    if forall i: nat :: InBlock(c, f.block, i) ==> !Disturbed(s, f.block + i, f.born) {
      AgreeingIsExact(c, s, f.block, f.outcome.data);
    }
  }

  /** Whenever no resize is between its sweeps, every held block has the length the
      device's present size gives it, whatever the resizes so far did and whatever misses
      ran between their sweeps, even while writes are still landing. */
  lemma HeldLengthIsExact(c: Config, states: seq<State>, actions: seq<Action>, k: nat, e: Entry)
    requires Usable(c) && IsRun(c, states, actions) && k < |states| && TimelyRun(states, actions, k)
    requires forall t, m :: 0 <= t < |states[k].stacks| && 0 <= m < |states[k].stacks[t]| ==>
      !states[k].stacks[t][m].Resizing? && !states[k].stacks[t][m].Resized?
    requires e in states[k].cache
    ensures |e.data| == Min(c.blockSize, SatSub(|states[k].dev|, e.block))
  {
    var s := states[k];
    RunCoherent(c, states, actions, k);
    var m :| 0 <= m < |s.cache| && s.cache[m] == e;
    assert Faithful(c, s, e.block, e.data);
    forall i: nat | i < c.blockSize ensures At(e.data, i).Some? == At(s.dev, e.block + i).Some? {
      var p: nat := e.block + i;
      if p < U64_MAX {
        assert InBlock(c, e.block, i);
        assert !Open(s, p, Presence);
        assert Agrees(s, e.block, e.data, i, Presence);
      }
    }
    var n := SatSub(|s.dev|, e.block);
    assert |e.data| < c.blockSize ==> At(e.data, |e.data|).Some? == At(s.dev, e.block + |e.data|).Some?;
    assert n < c.blockSize ==> At(e.data, n).Some? == At(s.dev, e.block + n).Some?;
  }

  // ----- when resizes are timely

  /** No resize that is to reach the device sweeps from past the device's end. */
  ghost predicate SizesHeld(s: State) {
    forall t, k :: 0 <= t < |s.stacks| && 0 <= k < |s.stacks[t]| ==> SizeHeld(s, s.stacks[t][k])
  }

  ghost predicate SizeHeld(s: State, f: Frame) {
    f.ResizeSized? || f.Resizing? ==> SweepStart(f) <= |s.dev|
  }

  lemma SizesGo(s: State, s': State, t: nat, stack: seq<Frame>)
    requires SizesHeld(s) && t < |s.stacks| && s'.stacks == s.stacks[t := stack] && |s.dev| <= |s'.dev|
    requires forall k :: 0 <= k < |stack| ==> SizeHeld(s', stack[k]) || stack[k] in s.stacks[t]
    ensures SizesHeld(s')
  {
    forall f | f in s.stacks[t] ensures SizeHeld(s, f) {
      var m :| 0 <= m < |s.stacks[t]| && s.stacks[t][m] == f;
    }
    forall u, k | 0 <= u < |s'.stacks| && 0 <= k < |s'.stacks[u]| ensures SizeHeld(s', s'.stacks[u][k]) {
      if u != t { assert SizeHeld(s, s.stacks[u][k]); }
    }
  }

  lemma NotifySizes(s: State, t: nat)
    requires SizesHeld(s) && Busy(s, t) && Top(s, t).Notifying?
    ensures SizesHeld(NotifyStep(s, t))
  {
    var s' := NotifyStep(s, t);
    forall u, k | 0 <= u < |s'.stacks| && 0 <= k < |s'.stacks[u]| ensures SizeHeld(s', s'.stacks[u][k]) {
      assert SizeHeld(s, s.stacks[u][k]);
    }
  }

  lemma ResizeSizes(s: State, s': State, t: nat, f: Frame)
    requires Serial(s) && Busy(s, t) && PastSizing(Top(s, t)) && f.Resized?
      && s'.stacks == s.stacks[t := Below(s, t) + [f]]
    ensures SizesHeld(s')
  {
    forall u, k | 0 <= u < |s'.stacks| && 0 <= k < |s'.stacks[u]| ensures SizeHeld(s', s'.stacks[u][k]) {
      if u != t || k < |s.stacks[t]| - 1 {
        assert PastSizing(s.stacks[t][|s.stacks[t]| - 1]);
        assert !PastSizing(s.stacks[u][k]);
      }
    }
  }

  /** A resize that makes the device shorter finds no other past asking the size. */
  ghost predicate ShrinksAlone(s: State, a: Action) {
    a.ResizeDevice? && |a.dev| < |s.dev| ==> Serial(s)
  }

  lemma SizesStepHolds(c: Config, s: State, a: Action)
    requires SizesHeld(s) && ShrinksAlone(s, a) && Enabled(c, s, a)
    ensures SizesHeld(Apply(c, s, a))
  {
    hide LengthMoved, NotifyStep, ShrinksAlone, SizesHeld, LookStep, LandStep, Sweep, Go, Put;
    var s' := Apply(c, s, a);
    match a
    case Look(t) => LookupSizes(c, s, a);
    case Size(t) => LookupSizes(c, s, a);
    case ReadByte(t, i) => LookupSizes(c, s, a);
    case ReadFail(t) => LookupSizes(c, s, a);
    case ReadDone(t) => LookupSizes(c, s, a);
    case Land(t) => LookupSizes(c, s, a);
    case Clear(t) => LookupSizes(c, s, a);
    case Wake(t) => LookupSizes(c, s, a);
    case ResizeDevice(t, dev) => ResizeStepSizes(c, s, t, dev);
    case _ => ChangeSizes(c, s, a);
  }

  lemma LookupSizes(c: Config, s: State, a: Action)
    requires SizesHeld(s) && Enabled(c, s, a)
    requires a.Look? || a.Size? || a.ReadByte? || a.ReadFail? || a.ReadDone? || a.Land? || a.Clear? || a.Wake?
    ensures SizesHeld(Apply(c, s, a))
  {
    hide SizesHeld, Find, Promote, Insert, Unmark;
    var s' := Apply(c, s, a);
    SizesGo(s, s', a.t, s'.stacks[a.t]);
  }

  lemma ChangeSizes(c: Config, s: State, a: Action)
    requires SizesHeld(s) && Enabled(c, s, a)
    requires a.Begin? || a.Notify? || a.Return? || a.AskSize? || a.Sweep1? || a.WriteByte? || a.Sweep2?
      || a.InvalidateAll?
    ensures SizesHeld(Apply(c, s, a))
  {
    hide LengthMoved, NotifyStep, Serial, SizesHeld, Retain, Closed;
    var s' := Apply(c, s, a);
    match a
    case InvalidateAll => SameSizes(s, s');
    case Notify(t) => NotifySizes(s, t);
    case Sweep1(t) =>
      TopSize(s, t);
      SizesGo(s, s', t, s'.stacks[t]);
    case Begin(t, call) => SizesGo(s, s', t, s'.stacks[t]);
    case Return(t) => SizesGo(s, s', t, s'.stacks[t]);
    case AskSize(t) => SizesGo(s, s', t, s'.stacks[t]);
    case WriteByte(t, i) => SizesGo(s, s', t, s'.stacks[t]);
    case Sweep2(t) => SizesGo(s, s', t, s'.stacks[t]);
    case _ =>
  }

  lemma ResizeStepSizes(c: Config, s: State, t: nat, dev: Bytes)
    requires SizesHeld(s) && ShrinksAlone(s, ResizeDevice(t, dev)) && Enabled(c, s, ResizeDevice(t, dev))
    ensures SizesHeld(Apply(c, s, ResizeDevice(t, dev)))
  {
    hide LengthMoved, Serial, SizesHeld;
    var s' := Apply(c, s, ResizeDevice(t, dev));
    if |dev| < |s.dev| {
      ResizeSizes(s, s', t, Resized(Top(s, t).newLen, Top(s, t).from));
    } else {
      SizesGo(s, s', t, s'.stacks[t]);
    }
  }

  lemma SameSizes(s: State, s': State)
    requires SizesHeld(s) && s'.stacks == s.stacks && s'.dev == s.dev
    ensures SizesHeld(s')
  {
    forall u, k | 0 <= u < |s'.stacks| && 0 <= k < |s'.stacks[u]| ensures SizeHeld(s', s'.stacks[u][k]) {
      assert SizeHeld(s, s.stacks[u][k]);
    }
  }

  lemma TopSize(s: State, t: nat)
    requires SizesHeld(s) && Busy(s, t)
    ensures SizeHeld(s, Top(s, t))
  {
    assert SizeHeld(s, s.stacks[t][|s.stacks[t]| - 1]);
  }

  /** Where every resize that makes the device shorter is alone past asking the size, every
      resize is timely: the results above hold of every run whose resizes do not overlap,
      and of every run in which they only grow. */
  lemma {:induction false} AloneIsTimely(c: Config, states: seq<State>, actions: seq<Action>, k: nat)
    requires IsRun(c, states, actions) && k < |states|
    requires forall j :: 0 <= j < k ==> ShrinksAlone(states[j], actions[j])
    ensures SizesHeld(states[k]) && TimelyRun(states, actions, k)
  {
    if k == 0 {
    } else {
      AloneIsTimely(c, states, actions, k - 1);
      SizesStepHolds(c, states[k - 1], actions[k - 1]);
      var s, a := states[k - 1], actions[k - 1];
      if a.ResizeDevice? { TopSize(s, a.t); }
    }
  }

  /** So with no two resizes overlapping, every block held while none is between its sweeps
      has the length the device's present size gives it. */
  lemma SerialLengthIsExact(c: Config, states: seq<State>, actions: seq<Action>, k: nat, e: Entry)
    requires Usable(c) && IsRun(c, states, actions) && k < |states|
    requires forall j :: 0 <= j < k ==> Serial(states[j])
    requires forall t, m :: 0 <= t < |states[k].stacks| && 0 <= m < |states[k].stacks[t]| ==>
      !states[k].stacks[t][m].Resizing? && !states[k].stacks[t][m].Resized?
    requires e in states[k].cache
    ensures |e.data| == Min(c.blockSize, SatSub(|states[k].dev|, e.block))
  {
    AloneIsTimely(c, states, actions, k);
    HeldLengthIsExact(c, states, actions, k, e);
  }

  /** The resize on top of thread `t` is about to reach the device, and its sweeps leave the
      block alone. */
  ghost predicate Spared(c: Config, s: State, t: nat, b: nat) {
    && Usable(c) && Busy(s, t) && Top(s, t).Resizing?
    && Top(s, t).from <= Top(s, t).newLen <= U64_MAX && |s.dev| <= U64_MAX
    && b + c.blockSize <= Top(s, t).from
  }

  /** A block that the sweeps leave alone, held as the device has it, is still what the
      device has after the resize, whatever the device makes of it, exactly when it ends
      within the device as it is now. A timely resize spares no other. */
  lemma SparedIsExact(c: Config, s: State, t: nat, b: nat)
    requires Spared(c, s, t, b)
    ensures
      (forall dev :: LengthMoved(s.dev, dev, Top(s, t).newLen) ==> DeviceBlock(c, dev, b) == DeviceBlock(c, s.dev, b))
      <==> b + c.blockSize <= |s.dev|
    ensures Top(s, t).from <= |s.dev| ==> b + c.blockSize <= |s.dev|
  {
    var newLen := Top(s, t).newLen;
    if b + c.blockSize <= |s.dev| {
      forall dev | LengthMoved(s.dev, dev, newLen) ensures DeviceBlock(c, dev, b) == DeviceBlock(c, s.dev, b) {
        var kept := Min(|s.dev|, newLen);
        assert dev[..kept][b..b + c.blockSize] == s.dev[..kept][b..b + c.blockSize];
      }
    } else {
      var dev := s.dev + Zeros(newLen - |s.dev|);
      assert LengthMoved(s.dev, dev, newLen);
      assert |DeviceBlock(c, dev, b)| == c.blockSize;
    }
  }

  /** The other half: a resize that reaches the device too late. A block held as the device
      has it, which ends past the device but below where the sweeps begin, stays held
      through both sweeps while the device grows under it. */
  lemma LateResizeLeavesAShortBlock(c: Config, s: State, t: nat, dev: Bytes, e: Entry)
    requires Usable(c) && Enabled(c, s, ResizeDevice(t, dev))
    requires e in s.cache && e.data == DeviceBlock(c, s.dev, e.block)
    requires e.block <= |s.dev| < e.block + c.blockSize <= Top(s, t).from && |s.dev| < |dev|
    ensures !Timely(s, ResizeDevice(t, dev))
    ensures var s' := Apply(c, s, ResizeDevice(t, dev));
      && Enabled(c, s', Sweep2(t))
      && e in Apply(c, s', Sweep2(t)).cache && e.data != DeviceBlock(c, Apply(c, s', Sweep2(t)).dev, e.block)
  {
    var s' := Apply(c, s, ResizeDevice(t, dev));
    var f := s'.stacks[t][|s.stacks[t]| - 1];
    assert Top(s', t) == f;
    RetainMember(s'.cache, Outside(c, SweepStart(f), SweepEnd(f)), e);
    assert |DeviceBlock(c, dev, e.block)| > |e.data|;
  }
}
