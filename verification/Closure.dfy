/** Which devices change when one does: on Linux everything reachable through partitions and
    holders, on macOS every disk synthesized from a slice of one already known. */
module Closure {
  import opened Common

  // ---------------------------------------------------------------- partitions and holders

  /** A device's partitions and the devices that hold it; a device that cannot be read has
      no entry. */
  datatype Links = Links(partitions: seq<nat>, holders: seq<nat>)

  type Devices = map<nat, Links>

  predicate LinkedFrom(l: Links, e: nat) {
    e in l.partitions || e in l.holders
  }

  /** Every device of `s` is known, and so is everything linked from it. */
  ghost predicate ClosedUnder(sys: Devices, s: set<nat>) {
    forall d :: d in s ==> d in sys && forall e :: LinkedFrom(sys[d], e) ==> e in s
  }

  /** What was added to `before` is readable, with everything it leads to. */
  ghost predicate Complete(sys: Devices, before: set<nat>, after: set<nat>) {
    forall d :: d in after && d !in before ==> d in sys && forall e :: LinkedFrom(sys[d], e) ==> e in after
  }

  /** Nothing was added to `before` that any closed set holding the devices `from` lacks. */
  ghost predicate Minimal(sys: Devices, before: set<nat>, after: set<nat>, from: seq<nat>) {
    forall s: set<nat>, d ::
      ClosedUnder(sys, s) && (forall e :: e in from ==> e in s) && d in after && d !in before ==> d in s
  }

  /** How many readable devices are not collected yet. */
  ghost function Unentered(sys: Devices, devices: set<nat>): nat {
    |sys.Keys - devices|
  }

  lemma Entering(sys: Devices, before: set<nat>, d: nat)
    requires d in sys && d !in before
    ensures Unentered(sys, before + {d}) < Unentered(sys, before)
  {
    assert sys.Keys - before == (sys.Keys - (before + {d})) + {d};
  }

  lemma NoMore(sys: Devices, before: set<nat>, after: set<nat>)
    requires before <= after
    ensures Unentered(sys, after) <= Unentered(sys, before)
  {
    SubsetSize(sys.Keys - after, sys.Keys - before);
  }

  class Collector {
    var devices: set<nat>

    constructor (devices: set<nat>)
      ensures this.devices == devices
    {
      this.devices := devices;
    }

    /** Add a device and everything reachable from it, never entering one twice. It fails
        only where no closed set holds the device, that is, where something reachable from
        it cannot be read. */
    method Collect(sys: Devices, device: nat) returns (ok: bool)
      modifies this
      ensures old(devices) <= devices && Minimal(sys, old(devices), devices, [device])
      ensures ok ==> device in devices && Complete(sys, old(devices), devices)
      ensures !ok ==> forall s: set<nat> :: ClosedUnder(sys, s) ==> device !in s
      decreases Unentered(sys, devices), 1
    {
      if device !in sys {
        return false;
      }
      CompleteOn(sys, devices, devices, devices);
      if device in devices {
        return true;
      }
      hide Complete, Minimal, ClosedUnder, Unentered;
      ghost var before := devices;
      devices := devices + {device};
      Entering(sys, before, device);
      ghost var inner := devices;
      NeedsLinks(sys, device);
      ok := CollectAll(sys, sys[device].partitions);
      ghost var mid := devices;
      if ok {
        NoMore(sys, inner, mid);
        ok := CollectAll(sys, sys[device].holders);
      }
      MinimalEntered(sys, device, before, mid, devices);
      if ok { Entered(sys, device, before, mid, devices); }
    }

    method CollectAll(sys: Devices, ids: seq<nat>) returns (ok: bool)
      modifies this
      ensures old(devices) <= devices && Minimal(sys, old(devices), devices, ids)
      ensures ok ==> (forall e :: e in ids ==> e in devices) && Complete(sys, old(devices), devices)
      ensures !ok ==> forall s: set<nat> :: ClosedUnder(sys, s) ==> exists e :: e in ids && e !in s
      decreases Unentered(sys, devices), 2
    {
      hide Minimal, Complete, ClosedUnder, Unentered;
      ghost var before := devices;
      ok := true;
      MinimalOn(sys, before, before, before, 0, ids);
      CompleteOn(sys, before, before, before);
      for i := 0 to |ids|
        invariant ok && before <= devices && Minimal(sys, before, devices, ids)
        invariant (forall e :: e in ids[..i] ==> e in devices) && Complete(sys, before, devices)
      {
        ghost var here := devices;
        NoMore(sys, before, here);
        ok := Collect(sys, ids[i]);
        MinimalOn(sys, before, here, devices, ids[i], ids);
        if !ok {
          return;
        }
        CompleteOn(sys, before, here, devices);
        assert ids[..i + 1] == ids[..i] + [ids[i]];
      }
      assert ids[..|ids|] == ids;
    }
  }

  lemma MinimalOn(sys: Devices, before: set<nat>, here: set<nat>, after: set<nat>, e: nat, ids: seq<nat>)
    requires before <= here <= after
    requires here == before || Minimal(sys, before, here, ids)
    requires here == after || (e in ids && Minimal(sys, here, after, [e]))
    ensures Minimal(sys, before, after, ids)
  {
    forall s: set<nat>, d | ClosedUnder(sys, s) && (forall e :: e in ids ==> e in s) && d in after && d !in before
      ensures d in s
    {
      if d !in here { assert forall x :: x in [e] ==> x in s; }
    }
  }

  lemma CompleteOn(sys: Devices, before: set<nat>, here: set<nat>, after: set<nat>)
    requires before <= here <= after
    requires here == before || Complete(sys, before, here)
    requires here == after || Complete(sys, here, after)
    ensures Complete(sys, before, after)
  {
  }

  lemma MinimalEntered(sys: Devices, device: nat, before: set<nat>, mid: set<nat>, after: set<nat>)
    requires device in sys && before + {device} <= mid <= after
    requires Minimal(sys, before + {device}, mid, sys[device].partitions)
    requires mid == after || Minimal(sys, mid, after, sys[device].holders)
    ensures Minimal(sys, before, after, [device])
  {
    forall s: set<nat>, d | ClosedUnder(sys, s) && (forall e :: e in [device] ==> e in s) && d in after && d !in before
      ensures d in s
    {
      assert device in [device];
    }
  }

  /** A closed set holds what a device of its links to. */
  lemma NeedsLinks(sys: Devices, device: nat)
    requires device in sys
    ensures forall s: set<nat>, e :: ClosedUnder(sys, s) && device in s && LinkedFrom(sys[device], e) ==> e in s
  {
  }

  lemma Entered(sys: Devices, device: nat, before: set<nat>, mid: set<nat>, after: set<nat>)
    requires device in sys && before + {device} <= mid <= after
    requires Complete(sys, before + {device}, mid) && Complete(sys, mid, after)
    requires forall e :: LinkedFrom(sys[device], e) ==> e in after
    ensures Complete(sys, before, after)
  {
    forall d | d in after && d !in before
      ensures d in sys && forall e :: LinkedFrom(sys[d], e) ==> e in after
    {
      assert d == device || (d in mid && d !in before + {device}) || d !in mid;
    }
  }

  /** Started from a closed set, what comes out is closed, holds the device, and is part of
      every closed set that holds the device and the set started from: the least such set. */
  lemma LeastClosure(sys: Devices, before: set<nat>, after: set<nat>, device: nat)
    requires ClosedUnder(sys, before) && before <= after && device in after
    requires Complete(sys, before, after) && Minimal(sys, before, after, [device])
    ensures ClosedUnder(sys, after)
    ensures forall s: set<nat> :: ClosedUnder(sys, s) && before <= s && device in s ==> after <= s
  {
    forall d | d in after ensures d in sys && forall e :: LinkedFrom(sys[d], e) ==> e in after {
      if d in before { assert before <= after; }
    }
    forall s: set<nat> | ClosedUnder(sys, s) && before <= s && device in s ensures after <= s {
      forall d | d in after ensures d in s {
        if d !in before { assert forall e :: e in [device] ==> e in s; }
      }
    }
  }

  /** There is only one such set, so the order devices are listed in does not matter. */
  lemma LeastIsUnique(sys: Devices, before: set<nat>, a: set<nat>, b: set<nat>, device: nat)
    requires ClosedUnder(sys, a) && before <= a && device in a
    requires ClosedUnder(sys, b) && before <= b && device in b
    requires forall s: set<nat> :: ClosedUnder(sys, s) && before <= s && device in s ==> a <= s
    requires forall s: set<nat> :: ClosedUnder(sys, s) && before <= s && device in s ==> b <= s
    ensures a == b
  {
  }

  /** Collect the devices behind several images, one after another. */
  method CollectFrom(sys: Devices, images: seq<nat>) returns (r: Option<set<nat>>)
    ensures r.Some? ==>
      && ClosedUnder(sys, r.value) && (forall d :: d in images ==> d in r.value)
      && forall s: set<nat> :: ClosedUnder(sys, s) && (forall d :: d in images ==> d in s) ==> r.value <= s
    ensures r.None? <==> !exists s: set<nat> :: ClosedUnder(sys, s) && forall d :: d in images ==> d in s
  {
    var c := new Collector({});
    for i := 0 to |images|
      invariant fresh(c) && ClosedUnder(sys, c.devices) && forall d :: d in images[..i] ==> d in c.devices
      invariant forall s: set<nat> :: ClosedUnder(sys, s) && (forall d :: d in images ==> d in s) ==> c.devices <= s
    {
      ghost var before := c.devices;
      var ok := c.Collect(sys, images[i]);
      if !ok {
        return None;
      }
      LeastClosure(sys, before, c.devices, images[i]);
    }
    r := Some(c.devices);
  }

  // ---------------------------------------------------------------- synthesized disks

  /** A line of the listing: a disk's header, the physical stores of the disk whose header
      came last, or anything else. */
  datatype Line = Header(disk: Option<string>) | Stores(stores: seq<string>) | Other

  function TrimColons(name: string): string {
    if name != "" && name[|name| - 1] == ':' then TrimColons(name[..|name| - 1]) else name
  }

  /** `name` is the disk, or one of its numbered slices. */
  predicate SliceOf(name: string, disk: string) {
    || name == disk
    || (disk + "s" <= name && |name| > |disk| + 1 && '0' <= name[|disk| + 1] <= '9')
  }

  predicate Backed(stores: seq<string>, disks: set<string>) {
    exists store, known :: store in stores && known in disks && SliceOf(store, known)
  }

  /** What a listing says: which disk has which physical stores. */
  function Facts(lines: seq<Line>, current: Option<string>): set<(string, seq<string>)> {
    if lines == [] then {}
    else match lines[0]
      case Header(disk) => Facts(lines[1..], disk)
      case Stores(stores) =>
        (if current.Some? then {(TrimColons(current.value), stores)} else {}) + Facts(lines[1..], current)
      case Other => Facts(lines[1..], current)
  }

  ghost predicate ClosedByStores(facts: set<(string, seq<string>)>, disks: set<string>) {
    forall f :: f in facts && Backed(f.1, disks) ==> f.0 in disks
  }

  function Names(facts: set<(string, seq<string>)>): set<string> {
    set f | f in facts :: f.0
  }

  /** `disks` grew to `grown` by disks every closed set that holds `disks` also holds. */
  ghost predicate Grown(facts: set<(string, seq<string>)>, disks: set<string>, grown: set<string>) {
    && disks <= grown && (forall d :: d in grown && d !in disks ==> d in Names(facts))
    && forall s: set<string> :: ClosedByStores(facts, s) && disks <= s ==> grown <= s
  }

  /** One pass over the listing: everything it can add, in the order of the lines. When it
      adds nothing, the set is closed. */
  method Pass(lines: seq<Line>, disks: set<string>) returns (grown: set<string>, added: bool)
    ensures Grown(Facts(lines, None), disks, grown)
    ensures added <==> grown != disks
    ensures !added ==> ClosedByStores(Facts(lines, None), disks)
  {
    var current: Option<string> := None;
    grown, added := disks, false;
    ghost var facts := Facts(lines, None);
    assert lines[0..] == lines;
    for i := 0 to |lines|
      invariant facts >= Facts(lines[i..], current)
      invariant Grown(facts, disks, grown) && (added <==> grown != disks)
      invariant !added ==> forall f :: f in facts && f !in Facts(lines[i..], current) && Backed(f.1, disks) ==>
        f.0 in disks
    {
      assert lines[i..][1..] == lines[i + 1..];
      match lines[i]
      case Header(disk) => current := disk;
      case Stores(stores) =>
        if current.Some? {
          var name := TrimColons(current.value);
          ghost var f := (name, stores);
          assert f in facts;
          if Backed(stores, grown) && name !in grown {
            assert forall s: set<string> :: ClosedByStores(facts, s) && grown <= s && Backed(stores, s) ==> name in s;
            grown := grown + {name};
            added := true;
          }
        }
      case Other =>
    }
  }

  /** The disks synthesized from those known, and from those in turn, until no line adds
      any: the least closed set that holds the ones known. */
  method Synthesized(lines: seq<Line>, disks: set<string>) returns (all: set<string>)
    ensures disks <= all && ClosedByStores(Facts(lines, None), all)
    ensures forall s: set<string> :: ClosedByStores(Facts(lines, None), s) && disks <= s ==> all <= s
  {
    all := disks;
    ghost var facts := Facts(lines, None);
    while true
      invariant Grown(facts, disks, all)
      decreases Names(facts) - all
    {
      var grown, added := Pass(lines, all);
      if !added {
        return;
      }
      all := grown;
    }
  }

  /** Two listings that say the same, in whatever order, have the same least closed set. */
  lemma ListingOrder(lines: seq<Line>, lines': seq<Line>, disks: set<string>, a: set<string>, b: set<string>)
    requires Facts(lines, None) == Facts(lines', None)
    requires disks <= a && ClosedByStores(Facts(lines, None), a)
    requires disks <= b && ClosedByStores(Facts(lines', None), b)
    requires forall s: set<string> :: ClosedByStores(Facts(lines, None), s) && disks <= s ==> a <= s
    requires forall s: set<string> :: ClosedByStores(Facts(lines', None), s) && disks <= s ==> b <= s
    ensures a == b
  {
  }
}
