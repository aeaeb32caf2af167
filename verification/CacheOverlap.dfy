/** Why a resize must not be overtaken: `set_len` reads the old size before its first sweep,
    so another that shortens the device in between can leave a held block whose length
    nothing corrects. */
module CacheOverlap {
  import opened Common
  import opened Recency
  import opened CacheProtocol

  /** `end` is what the actions lead to from `s`. */
  ghost predicate Leads(c: Config, s: State, actions: seq<Action>, end: State)
    decreases |actions|
  {
    if actions == [] then s == end
    else Enabled(c, s, actions[0]) && Leads(c, Apply(c, s, actions[0]), actions[1..], end)
  }

  lemma Then(c: Config, s: State, a: Action, rest: seq<Action>, end: State)
    requires Enabled(c, s, a) && Leads(c, Apply(c, s, a), rest, end)
    ensures Leads(c, s, [a] + rest, end)
  {
    assert ([a] + rest)[1..] == rest;
  }

  lemma {:induction false} LeadsIsRun(c: Config, s: State, actions: seq<Action>, end: State)
    returns (states: seq<State>)
    requires Leads(c, s, actions, end)
    ensures |states| == |actions| + 1 && states[0] == s && states[|actions|] == end
    ensures forall k :: 0 <= k < |actions| ==>
      Enabled(c, states[k], actions[k]) && states[k + 1] == Apply(c, states[k], actions[k])
    decreases |actions|
  {
    if actions == [] {
      states := [s];
    } else {
      var tail := LeadsIsRun(c, Apply(c, s, actions[0]), actions[1..], end);
      states := [s] + tail;
    }
  }

  const SMALL: Config := Config(8, 4)

  /** A state of two threads with nothing counted that the story depends on. */
  ghost predicate Shows(s: State, first: seq<Frame>, second: seq<Frame>, dev: Bytes, cache: seq<Entry>) {
    s.stacks == [first, second] && s.dev == dev && s.cache == cache
  }

  lemma Moves(s: State, first: seq<Frame>, f: Frame, f': Frame)
    requires s.stacks == [first, [f]]
    ensures Busy(s, 1) && Top(s, 1) == f
    ensures Go(s, 1, f').stacks == [first, [f']] && Put(s, 1, Below(s, 1)).stacks == [first, []]
  {
    assert Below(s, 1) == [];
    assert [] + [f'] == [f'];
  }

  lemma Starts(s: State, first: seq<Frame>, f: Frame)
    requires s.stacks == [first, []]
    ensures Put(s, 1, s.stacks[1] + [f]).stacks == [first, [f]]
  {
    assert [] + [f] == [f];
  }

  lemma BeginShows(s: State, first: seq<Frame>, call: Frame, dev: Bytes, cache: seq<Entry>)
    requires Shows(s, first, [], dev, cache) && Enabled(SMALL, s, Begin(1, call))
    ensures Shows(Apply(SMALL, s, Begin(1, call)), first, [call], dev, cache)
    ensures Apply(SMALL, s, Begin(1, call)).inFlight == s.inFlight && Apply(SMALL, s, Begin(1, call)).gen == s.gen
  {
    Starts(s, first, call);
  }

  lemma AskShows(s: State, first: seq<Frame>, dev: Bytes)
    requires Shows(s, first, [ResizeStart(0)], dev, [])
    ensures Enabled(SMALL, s, AskSize(1))
    ensures Shows(Apply(SMALL, s, AskSize(1)), first, [ResizeSized(0, 0)], dev, [])
    ensures Apply(SMALL, s, AskSize(1)).inFlight == s.inFlight
  {
    Moves(s, first, ResizeStart(0), ResizeSized(0, 0));
  }

  lemma OpenShows(s: State, first: seq<Frame>, dev: Bytes)
    requires Shows(s, first, [ResizeSized(0, 0)], dev, [])
    ensures Enabled(SMALL, s, Sweep1(1))
    ensures Shows(Apply(SMALL, s, Sweep1(1)), first, [Resizing(0, 0)], dev, [])
    ensures Apply(SMALL, s, Sweep1(1)).inFlight == s.inFlight
  {
    Moves(s, first, ResizeSized(0, 0), Resizing(0, 0));
  }

  lemma EmptyShows(s: State, first: seq<Frame>, dev: Bytes)
    requires Shows(s, first, [Resizing(0, 0)], dev, [])
    ensures Enabled(SMALL, s, ResizeDevice(1, []))
    ensures Shows(Apply(SMALL, s, ResizeDevice(1, [])), first, [Resized(0, 0)], [], [])
    ensures Apply(SMALL, s, ResizeDevice(1, [])).inFlight == s.inFlight
  {
    Moves(s, first, Resizing(0, 0), Resized(0, 0));
  }

  lemma CloseShows(s: State, first: seq<Frame>)
    requires Shows(s, first, [Resized(0, 0)], [], [])
    ensures Enabled(SMALL, s, Sweep2(1))
    ensures Shows(Apply(SMALL, s, Sweep2(1)), first, [], [], [])
    ensures Apply(SMALL, s, Sweep2(1)).inFlight == s.inFlight
  {
    Moves(s, first, Resized(0, 0), Resized(0, 0));
    var stacks: seq<seq<Frame>> := [first, []];
    assert Below(s, 1) == [] && s.stacks[1 := []] == stacks;
  }

  /** The second thread's resize to nothing, from start to end. */
  lemma Shrinks(s: State, first: seq<Frame>, dev: Bytes) returns (actions: seq<Action>, end: State)
    requires Shows(s, first, [], dev, []) && s.inFlight == []
    ensures Leads(SMALL, s, actions, end)
    ensures Shows(end, first, [], [], []) && end.inFlight == []
  {
    hide Apply;
    BeginShows(s, first, ResizeStart(0), dev, []);
    var s1 := Apply(SMALL, s, Begin(1, ResizeStart(0)));
    AskShows(s1, first, dev);
    var s2 := Apply(SMALL, s1, AskSize(1));
    OpenShows(s2, first, dev);
    var s3 := Apply(SMALL, s2, Sweep1(1));
    EmptyShows(s3, first, dev);
    var s4 := Apply(SMALL, s3, ResizeDevice(1, []));
    CloseShows(s4, first);
    end := Apply(SMALL, s4, Sweep2(1));
    Then(SMALL, s4, Sweep2(1), [], end);
    actions := [Sweep2(1)];
    Then(SMALL, s3, ResizeDevice(1, []), actions, end);
    actions := [ResizeDevice(1, [])] + actions;
    Then(SMALL, s2, Sweep1(1), actions, end);
    actions := [Sweep1(1)] + actions;
    Then(SMALL, s1, AskSize(1), actions, end);
    actions := [AskSize(1)] + actions;
    Then(SMALL, s, Begin(1, ResizeStart(0)), actions, end);
    actions := [Begin(1, ResizeStart(0))] + actions;
  }

  lemma LookShows(s: State, first: seq<Frame>, born: nat)
    requires Shows(s, first, [Looking(0, born)], [], []) && s.inFlight == []
    ensures Enabled(SMALL, s, Look(1))
    ensures Shows(Apply(SMALL, s, Look(1)), first, [Claimed(0, born, s.gen)], [], [])
  {
    Moves(s, first, Looking(0, born), Claimed(0, born, s.gen));
  }

  lemma SizeShows(s: State, first: seq<Frame>, born: nat, gen: nat)
    requires Shows(s, first, [Claimed(0, born, gen)], [], [])
    ensures Enabled(SMALL, s, Size(1))
    ensures Shows(Apply(SMALL, s, Size(1)), first, [Reading(0, born, gen, [], {})], [], [])
  {
    assert Zeros(ClampedLen(SMALL, 0, 0)) == [];
    Moves(s, first, Claimed(0, born, gen), Reading(0, born, gen, [], {}));
  }

  lemma DoneShows(s: State, first: seq<Frame>, born: nat, gen: nat)
    requires Shows(s, first, [Reading(0, born, gen, [], {})], [], [])
    ensures Enabled(SMALL, s, ReadDone(1))
    ensures Shows(Apply(SMALL, s, ReadDone(1)), first, [Landed(0, born, gen, [])], [], [])
  {
    Moves(s, first, Reading(0, born, gen, [], {}), Landed(0, born, gen, []));
  }

  /** A lookup of block 0 while the device is empty, up to holding the bytes it read. */
  lemma Reads(s: State, first: seq<Frame>) returns (actions: seq<Action>, end: State)
    requires Shows(s, first, [], [], []) && s.inFlight == []
    ensures Leads(SMALL, s, actions, end)
    ensures Shows(end, first, [Landed(0, s.clock, end.gen, [])], [], [])
  {
    var born, gen := s.clock, s.gen;
    BeginShows(s, first, Looking(0, born), [], []);
    var s1 := Apply(SMALL, s, Begin(1, Looking(0, born)));
    LookShows(s1, first, born);
    var s2 := Apply(SMALL, s1, Look(1));
    SizeShows(s2, first, born, gen);
    var s3 := Apply(SMALL, s2, Size(1));
    DoneShows(s3, first, born, gen);
    end := Apply(SMALL, s3, ReadDone(1));
    Then(SMALL, s3, ReadDone(1), [], end);
    actions := [ReadDone(1)];
    Then(SMALL, s2, Size(1), actions, end);
    actions := [Size(1)] + actions;
    Then(SMALL, s1, Look(1), actions, end);
    actions := [Look(1)] + actions;
    Then(SMALL, s, Begin(1, Looking(0, born)), actions, end);
    actions := [Begin(1, Looking(0, born))] + actions;
    assert end.gen == gen;
  }

  lemma InsertFirst(b: nat, data: Bytes, capacity: nat)
    ensures Insert([], b, data, capacity) == [Entry(b, data)]
  {
    assert Evict([], capacity) == [];
  }

  lemma LandShows(s: State, first: seq<Frame>, born: nat)
    requires Shows(s, first, [Landed(0, born, s.gen, [])], [], [])
    ensures Enabled(SMALL, s, Land(1))
    ensures Shows(Apply(SMALL, s, Land(1)), first, [Clearing(0, born, Served([]))], [], [Entry(0, [])])
  {
    Moves(s, first, Landed(0, born, s.gen, []), Clearing(0, born, Served([])));
    InsertFirst(0, [], SMALL.capacity);
  }

  lemma ClearShows(s: State, first: seq<Frame>, born: nat)
    requires Shows(s, first, [Clearing(0, born, Served([]))], [], [Entry(0, [])])
    ensures Enabled(SMALL, s, Clear(1))
    ensures Shows(Apply(SMALL, s, Clear(1)), first, [Notifying(0, born, Served([]))], [], [Entry(0, [])])
  {
    Moves(s, first, Clearing(0, born, Served([])), Notifying(0, born, Served([])));
  }

  /** The fetch lands: the empty block is kept and the marker cleared. */
  lemma Keeps(s: State, first: seq<Frame>, born: nat) returns (actions: seq<Action>, end: State)
    requires Shows(s, first, [Landed(0, born, s.gen, [])], [], [])
    ensures Leads(SMALL, s, actions, end)
    ensures Shows(end, first, [Notifying(0, born, Served([]))], [], [Entry(0, [])])
  {
    LandShows(s, first, born);
    var s1 := Apply(SMALL, s, Land(1));
    ClearShows(s1, first, born);
    end := Apply(SMALL, s1, Clear(1));
    Then(SMALL, s1, Clear(1), [], end);
    Then(SMALL, s, Land(1), [Clear(1)], end);
    actions := [Land(1)] + [Clear(1)];
  }

  lemma NotifyShows(s: State, r: Frame, born: nat)
    requires !r.Waiting? && s.stacks == [[r], [Notifying(0, born, Served([]))]]
    ensures Busy(s, 1) && Top(s, 1) == Notifying(0, born, Served([]))
    ensures NotifyStep(s, 1).stacks == [[r], [Returning(0, born, Served([]))]]
  {
    var f := Notifying(0, born, Served([]));
    assert s.stacks[0] == [r] && s.stacks[1] == [f];
    var woken := Woken(s.stacks);
    assert woken[0] == [r] && woken[1] == [f];
    assert woken == [[r], [f]];
    var mid := s.(stacks := woken);
    Moves(mid, [r], f, Returning(0, born, Served([])));
    Moves(s, [r], f, f);
  }

  /** The lookup notifies and returns. */
  lemma Returns(s: State, r: Frame, born: nat) returns (actions: seq<Action>, end: State)
    requires !r.Waiting? && Shows(s, [r], [Notifying(0, born, Served([]))], [], [Entry(0, [])])
    ensures Leads(SMALL, s, actions, end)
    ensures Shows(end, [r], [], [], [Entry(0, [])])
  {
    var o := Served([]);
    NotifyShows(s, r, born);
    var s1 := Apply(SMALL, s, Notify(1));
    Moves(s1, [r], Returning(0, born, o), Returning(0, born, o));
    end := Apply(SMALL, s1, Return(1));
    Then(SMALL, s1, Return(1), [], end);
    Then(SMALL, s, Notify(1), [Return(1)], end);
    actions := [Notify(1)] + [Return(1)];
  }

  lemma MovesFirst(s: State, f: Frame, f': Frame, second: seq<Frame>)
    requires s.stacks == [[f], second]
    ensures Busy(s, 0) && Top(s, 0) == f
    ensures Go(s, 0, f').stacks == [[f'], second] && Put(s, 0, Below(s, 0)).stacks == [[], second]
  {
    assert Below(s, 0) == [];
    assert [] + [f'] == [f'];
  }

  /** A sweep from 10 up does not reach block 0, which ends at 8. */
  lemma SweepMisses()
    ensures Retain([Entry(0, [])], Outside(SMALL, 10, U64_MAX)) == [Entry(0, [])]
  {
    var held := [Entry(0, [])];
    assert Outside(SMALL, 10, U64_MAX)(0);
    assert held[1..] == [];
  }

  lemma SweepShows(s: State)
    requires Shows(s, [ResizeSized(20, 10)], [], [], [Entry(0, [])])
    ensures Enabled(SMALL, s, Sweep1(0))
    ensures Shows(Apply(SMALL, s, Sweep1(0)), [Resizing(20, 10)], [], [], [Entry(0, [])])
  {
    SweepMisses();
    MovesFirst(s, ResizeSized(20, 10), Resizing(20, 10), []);
  }

  lemma GrowShows(s: State)
    requires Shows(s, [Resizing(20, 10)], [], [], [Entry(0, [])])
    ensures Enabled(SMALL, s, ResizeDevice(0, Zeros(20)))
    ensures Shows(Apply(SMALL, s, ResizeDevice(0, Zeros(20))), [Resized(20, 10)], [], Zeros(20), [Entry(0, [])])
  {
    MovesFirst(s, Resizing(20, 10), Resized(20, 10), []);
  }

  lemma SweepAgainShows(s: State, dev: Bytes)
    requires Shows(s, [Resized(20, 10)], [], dev, [Entry(0, [])])
    ensures Enabled(SMALL, s, Sweep2(0))
    ensures Shows(Apply(SMALL, s, Sweep2(0)), [], [], dev, [Entry(0, [])])
  {
    var f := Resized(20, 10);
    assert s.stacks[0] == [f];
    assert Busy(s, 0) && Top(s, 0) == f;
    assert Below(s, 0) == [];
    var stacks: seq<seq<Frame>> := [[], []];
    assert s.stacks[0 := []] == stacks;
    assert Sweep(SMALL, s, f).cache == [Entry(0, [])] by { SweepMisses(); }
  }

  /** The first thread's resize to 20, from the moment it has asked a size of 10. */
  lemma Grows(s: State) returns (actions: seq<Action>, end: State)
    requires Shows(s, [ResizeSized(20, 10)], [], [], [Entry(0, [])])
    ensures Leads(SMALL, s, actions, end)
    ensures Shows(end, [], [], Zeros(20), [Entry(0, [])])
  {
    SweepShows(s);
    var s1 := Apply(SMALL, s, Sweep1(0));
    GrowShows(s1);
    var s2 := Apply(SMALL, s1, ResizeDevice(0, Zeros(20)));
    SweepAgainShows(s2, Zeros(20));
    end := Apply(SMALL, s2, Sweep2(0));
    Then(SMALL, s2, Sweep2(0), [], end);
    actions := [Sweep2(0)];
    Then(SMALL, s1, ResizeDevice(0, Zeros(20)), actions, end);
    actions := [ResizeDevice(0, Zeros(20))] + actions;
    Then(SMALL, s, Sweep1(0), actions, end);
    actions := [Sweep1(0)] + actions;
  }

  lemma Asks(s: State) returns (actions: seq<Action>, end: State)
    requires Shows(s, [], [], s.dev, []) && |s.dev| == 10 && s.inFlight == []
    ensures Leads(SMALL, s, actions, end)
    ensures Shows(end, [ResizeSized(20, 10)], [], s.dev, []) && end.inFlight == []
  {
    assert [] + [ResizeStart(20)] == [ResizeStart(20)];
    var s1 := Apply(SMALL, s, Begin(0, ResizeStart(20)));
    assert s1.stacks == [[ResizeStart(20)], []];
    MovesFirst(s1, ResizeStart(20), ResizeSized(20, 10), []);
    end := Apply(SMALL, s1, AskSize(0));
    Then(SMALL, s1, AskSize(0), [], end);
    Then(SMALL, s, Begin(0, ResizeStart(20)), [AskSize(0)], end);
    actions := [Begin(0, ResizeStart(20))] + [AskSize(0)];
  }

  lemma {:induction false} Joined(c: Config, s: State, a: seq<Action>, mid: State, b: seq<Action>, end: State)
    requires Leads(c, s, a, mid) && Leads(c, mid, b, end)
    ensures Leads(c, s, a + b, end)
    decreases |a|
  {
    hide Apply, Enabled;
    if a == [] {
      assert a + b == b;
    } else {
      Joined(c, Apply(c, s, a[0]), a[1..], mid, b, end);
      assert (a + b)[1..] == a[1..] + b;
    }
  }

  /** Thread 0 asks the size, 10, and means to set 20; thread 1 then empties the device and
      leaves its reader holding block 0 as empty; thread 0 sweeps from 10 up and grows the
      device. Every call has returned, the device has 20 bytes, block 0 is 8 of them, and
      the cache holds it as none. */
  lemma OverlappingResizesLeaveAShortBlock() returns (states: seq<State>, actions: seq<Action>)
    ensures IsRun(SMALL, states, actions)
    ensures var end := states[|actions|];
      end.stacks == [[], []] && |end.dev| == 20 && end.cache == [Entry(0, [])]
    ensures !TimelyRun(states, actions, |actions|)
  {
    hide Apply, Enabled, Leads;
    var s := State([[], []], [], 0, [], 0, 0, Zeros(10), 1, _ => 0, 0, 0);
    var r := ResizeSized(20, 10);
    var a1, s1 := Asks(s);
    var a2, s2 := Shrinks(s1, [r], s.dev);
    Joined(SMALL, s, a1, s1, a2, s2);
    actions := a1 + a2;
    var a3, s3 := Reads(s2, [r]);
    Joined(SMALL, s, actions, s2, a3, s3);
    actions := actions + a3;
    var a4, s4 := Keeps(s3, [r], s2.clock);
    Joined(SMALL, s, actions, s3, a4, s4);
    actions := actions + a4;
    var a5, s5 := Returns(s4, r, s2.clock);
    Joined(SMALL, s, actions, s4, a5, s5);
    actions := actions + a5;
    var a6, end := Grows(s5);
    Joined(SMALL, s, actions, s5, a6, end);
    actions := actions + a6;
    states := LeadsIsRun(SMALL, s, actions, end);
    Late(states, actions, end);
  }

  /** A timely run could not have ended so. */
  lemma Late(states: seq<State>, actions: seq<Action>, end: State)
    requires IsRun(SMALL, states, actions) && end == states[|actions|]
    requires end.stacks == [[], []] && |end.dev| == 20 && end.cache == [Entry(0, [])]
    ensures !TimelyRun(states, actions, |actions|)
  {
    if TimelyRun(states, actions, |actions|) {
      HeldLengthIsExact(SMALL, states, actions, |actions|, end.cache[0]);
    }
  }
}
