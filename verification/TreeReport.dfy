/** What a tree transfer reports: one status for each item, their counts, and the exit code
    taken from the counts. */
module TreeReport {
  import opened Common

  type Path = seq<string>

  datatype Status = Completed | Skipped | Refused | Failed | Cancelled

  /** Why an entry is not completed: the other side cannot hold it, something broke, or a
      signal came. */
  datatype Trouble = Unsupported | Broken | Signal

  function StatusOf(t: Trouble): Status {
    match t
    case Unsupported => Refused
    case Broken => Failed
    case Signal => Cancelled
  }

  /** `entry` tells an entry that was visited from a child refused while its directory was
      listed; `verified` marks a skip on evidence of an earlier verified copy. */
  datatype Item = Item(path: Path, status: Status, entry: bool, verified: bool)

  const EXIT_FAILED: nat := 1
  const EXIT_PARTIAL: nat := 5

  function Slot(s: Status): (i: nat)
    ensures i < 5
  {
    match s
    case Completed => 0
    case Skipped => 1
    case Refused => 2
    case Failed => 3
    case Cancelled => 4
  }

  type Counts = s: seq<nat> | |s| == 5 witness [0, 0, 0, 0, 0]

  const NONE: Counts := [0, 0, 0, 0, 0]

  function Counted(c: Counts, s: Status): Counts {
    c[Slot(s) := c[Slot(s)] + 1]
  }

  function Tally(items: seq<Item>): Counts {
    if items == [] then NONE else Counted(Tally(items[..|items| - 1]), items[|items| - 1].status)
  }

  function Skips(items: seq<Item>): nat {
    if items == [] then 0 else Skips(items[..|items| - 1]) + if items[|items| - 1].verified then 1 else 0
  }

  lemma TallyAppend(items: seq<Item>, item: Item)
    ensures Tally(items + [item]) == Counted(Tally(items), item.status)
    ensures Skips(items + [item]) == Skips(items) + if item.verified then 1 else 0
  {
    assert (items + [item])[..|items|] == items;
  }

  /** The items of the entries visited, in the order they are reported. */
  function Entries(items: seq<Item>): (es: seq<Item>)
    ensures |es| <= |items|
  {
    if items == [] then []
    else Entries(items[..|items| - 1]) + if items[|items| - 1].entry then [items[|items| - 1]] else []
  }

  lemma EntriesAppend(items: seq<Item>, refused: seq<Item>, item: Item)
    requires item.entry && forall i :: 0 <= i < |refused| ==> !refused[i].entry
    ensures Entries(items + refused + [item]) == Entries(items) + [item]
  {
    assert (items + refused + [item])[..|items + refused|] == items + refused;
    NoEntries(items, refused);
  }

  lemma {:induction false} NoEntries(items: seq<Item>, refused: seq<Item>)
    requires forall i :: 0 <= i < |refused| ==> !refused[i].entry
    ensures Entries(items + refused) == Entries(items)
  {
    if refused == [] {
      assert items + refused == items;
    } else {
      var n := |refused| - 1;
      assert (items + refused)[..|items| + n] == items + refused[..n];
      NoEntries(items, refused[..n]);
    }
  }

  /** An entry's place among the entries, which keeps the order of the items. */
  lemma {:induction false} EntryRank(items: seq<Item>, i: nat)
    requires i < |items| && items[i].entry
    ensures |Entries(items[..i])| < |Entries(items)| && Entries(items)[|Entries(items[..i])|] == items[i]
  {
    var n := |items| - 1;
    if i == n {
    } else {
      EntryRank(items[..n], i);
      assert items[..n][..i] == items[..i];
    }
  }

  lemma {:induction false} RankGrows(items: seq<Item>, i: nat, j: nat)
    requires i <= j <= |items|
    ensures |Entries(items[..i])| <= |Entries(items[..j])|
    decreases j
  {
    if i == j {
    } else {
      RankGrows(items, i, j - 1);
      assert items[..j][..j - 1] == items[..j - 1];
    }
  }

  /** A signal stops the walk: an entry it cancels is the last, and nothing else stops one. */
  ghost predicate Stops(es: seq<Item>, stopped: bool) {
    && (forall k :: 0 <= k < |es| - 1 ==> !es[k].status.Cancelled?)
    && (stopped <==> es != [] && es[|es| - 1].status.Cancelled?)
  }

  lemma StopsStep(es: seq<Item>, item: Item)
    requires Stops(es, false)
    ensures Stops(es + [item], item.status.Cancelled?)
  {
  }

  lemma StopsMean(es: seq<Item>, stopped: bool)
    requires Stops(es, stopped)
    ensures stopped <==> exists k :: 0 <= k < |es| && es[k].status.Cancelled?
    ensures forall k :: 0 <= k < |es| && es[k].status.Cancelled? ==> k == |es| - 1
  {
    if stopped {
      assert es[|es| - 1].status.Cancelled?;
    }
  }

  function Sum(c: Counts): nat {
    c[0] + c[1] + c[2] + c[3] + c[4]
  }

  /** The five counts sum to the items; a count is zero exactly when no item has its status. */
  lemma {:induction false} TallyMeans(items: seq<Item>, s: Status)
    ensures Sum(Tally(items)) == |items|
    ensures Tally(items)[Slot(s)] > 0 <==> exists i :: 0 <= i < |items| && items[i].status == s
  {
    if items == [] {
    } else {
      hide Counted, Slot;
      var n := |items| - 1;
      TallyMeans(items[..n], s);
      CountedAt(Tally(items[..n]), items[n].status, s);
      if items[n].status != s && Tally(items)[Slot(s)] > 0 {
        var i :| 0 <= i < n && items[..n][i].status == s;
        assert items[i].status == s;
      }
      forall i | 0 <= i < n ensures items[..n][i] == items[i] {}
    }
  }

  lemma CountedAt(c: Counts, status: Status, s: Status)
    ensures Sum(Counted(c, status)) == Sum(c) + 1
    ensures Counted(c, status)[Slot(s)] == c[Slot(s)] + if status == s then 1 else 0
  {
  }

  function Moved(c: Counts, from: Status, to: Status): Counts
    requires c[Slot(from)] > 0
  {
    Counted(c[Slot(from) := c[Slot(from)] - 1], to)
  }

  lemma CountedCommutes(c: Counts, a: Status, b: Status)
    ensures Counted(Counted(c, a), b) == Counted(Counted(c, b), a)
  {
  }

  lemma MovedCounted(c: Counts, from: Status, to: Status, other: Status)
    requires c[Slot(from)] > 0
    ensures Counted(Moved(c, from, to), other) == Moved(Counted(c, other), from, to)
  {
    var less := c[Slot(from) := c[Slot(from)] - 1];
    assert Counted(less, other) == Counted(c, other)[Slot(from) := Counted(c, other)[Slot(from)] - 1];
    CountedCommutes(less, to, other);
  }

  /** Changing one item's status moves one count. */
  lemma {:induction false} TallyChange(items: seq<Item>, i: nat, s: Status)
    requires i < |items|
    ensures Tally(items)[Slot(items[i].status)] > 0
    ensures Tally(items[i := items[i].(status := s)]) == Moved(Tally(items), items[i].status, s)
    ensures Skips(items[i := items[i].(status := s)]) == Skips(items)
  {
    var n, items' := |items| - 1, items[i := items[i].(status := s)];
    if i == n {
      assert items'[..n] == items[..n];
    } else {
      TallyChange(items[..n], i, s);
      MovedCounted(Tally(items[..n]), items[i].status, s, items[n].status);
      assert items'[..n] == items[..n][i := items[..n][i].(status := s)];
    }
  }

  function ExitCode(c: Counts, verifiedSkips: nat): nat {
    if c[1] <= verifiedSkips && c[2] == 0 && c[3] == 0 && c[4] == 0 then 0
    else if c[0] != 0 || verifiedSkips != 0 then EXIT_PARTIAL
    else EXIT_FAILED
  }

  /** Only skips are marked as verified. */
  ghost predicate Marked(items: seq<Item>) {
    forall i :: 0 <= i < |items| && items[i].verified ==> items[i].status.Skipped?
  }

  predicate IsThere(i: Item) {
    i.status.Completed? || i.verified
  }

  lemma {:induction false} SkipsMean(items: seq<Item>)
    requires Marked(items)
    ensures Skips(items) <= Tally(items)[1]
    ensures Skips(items) == Tally(items)[1] <==>
      forall i :: 0 <= i < |items| && items[i].status.Skipped? ==> items[i].verified
    ensures Skips(items) > 0 <==> exists i :: 0 <= i < |items| && items[i].verified
  {
    if items == [] {
    } else {
      var n := |items| - 1;
      assert Marked(items[..n]);
      SkipsMean(items[..n]);
      forall i | 0 <= i < n ensures items[..n][i] == items[i] {}
      if exists i :: 0 <= i < n && items[i].verified {
        var i :| 0 <= i < n && items[i].verified;
        assert items[..n][i].verified;
      }
      if Skips(items[..n]) > 0 {
        var i :| 0 <= i < n && items[..n][i].verified;
        assert items[i].verified;
      }
      if forall i :: 0 <= i < |items| && items[i].status.Skipped? ==> items[i].verified {
        forall i | 0 <= i < n && items[..n][i].status.Skipped? ensures items[..n][i].verified {
          assert items[i].verified;
        }
      }
    }
  }

  /** A transfer exits 0 exactly when every item is there, completed or skipped on earlier
      evidence; with the partial code exactly when only some are; and with the failed code
      exactly when there are items and none is there. */
  lemma ExitMeans(items: seq<Item>)
    requires Marked(items)
    ensures var code := ExitCode(Tally(items), Skips(items));
      && (code == 0 <==> forall i :: 0 <= i < |items| ==> IsThere(items[i]))
      && (code == EXIT_PARTIAL <==>
            (exists i :: 0 <= i < |items| && IsThere(items[i])) && (exists i :: 0 <= i < |items| && !IsThere(items[i])))
      && (code == EXIT_FAILED <==> items != [] && forall i :: 0 <= i < |items| ==> !IsThere(items[i]))
  {
    SkipsMean(items);
    TallyMeans(items, Completed);
    TallyMeans(items, Refused);
    TallyMeans(items, Failed);
    TallyMeans(items, Cancelled);
    if ExitCode(Tally(items), Skips(items)) == 0 {
      forall i | 0 <= i < |items| ensures IsThere(items[i]) {
        assert items[i].status.Completed? || items[i].status.Skipped?;
      }
    } else if exists i :: 0 <= i < |items| && items[i].status.Skipped? && !items[i].verified {
      var i :| 0 <= i < |items| && items[i].status.Skipped? && !items[i].verified;
      assert !IsThere(items[i]);
    } else {
      var i :| 0 <= i < |items| && (items[i].status.Refused? || items[i].status.Failed? || items[i].status.Cancelled?);
      assert !IsThere(items[i]);
    }
    if exists i :: 0 <= i < |items| && items[i].status.Completed? {
      var i :| 0 <= i < |items| && items[i].status.Completed?;
      assert IsThere(items[i]);
    }
    if exists i :: 0 <= i < |items| && items[i].verified {
      var i :| 0 <= i < |items| && items[i].verified;
      assert IsThere(items[i]);
    }
  }

  /** Setting times after the walk: each deferred item that is still complete may fail, from
      the last visited to the first, and moves from one count to another. */
  ghost predicate Deferred(before: seq<Item>, after: seq<Item>, times: seq<nat>, verdict: nat -> Option<Status>, k: nat)
    requires k <= |times|
  {
    && |after| == |before|
    && forall i: nat :: i < |before| ==>
         after[i] == if i in times[k..] && before[i].status.Completed? && verdict(i).Some?
                     then before[i].(status := verdict(i).value) else before[i]
  }

  lemma DeferredMarked(before: seq<Item>, after: seq<Item>, times: seq<nat>, verdict: nat -> Option<Status>)
    requires Deferred(before, after, times, verdict, 0) && Marked(before)
    ensures Marked(after)
  {
    forall i: nat | i < |after| && after[i].verified ensures after[i].status.Skipped? {
      assert before[i].verified;
    }
  }

  ghost predicate Increasing(times: seq<nat>) {
    forall i, j :: 0 <= i < j < |times| ==> times[i] < times[j]
  }

  /** An item past those that wait may wait next. */
  lemma IncreasingMore(times: seq<nat>, n: nat)
    requires Increasing(times) && forall k :: 0 <= k < |times| ==> times[k] < n
    ensures Increasing(times + [n])
  {
  }

  /** One more deferred item has been tried. */
  lemma DeferredOne(before: seq<Item>, after: seq<Item>, times: seq<nat>, verdict: nat -> Option<Status>, k: nat)
    requires k < |times| && times[k] < |before| && Increasing(times) && Deferred(before, after, times, verdict, k + 1)
    ensures |after| == |before| && after[times[k]] == before[times[k]]
    ensures var i := times[k];
      Deferred(before,
               if before[i].status.Completed? && verdict(i).Some?
               then after[i := after[i].(status := verdict(i).value)] else after,
               times, verdict, k)
  {
    assert times[k..] == [times[k]] + times[k + 1..];
    ghost var later := times[k + 1..];
    assert forall x :: x in later ==> times[k] < x;
  }

  /** `order` is the completed items deferred from place `k` on, the last visited first. */
  ghost predicate Tried(items: seq<Item>, times: seq<nat>, order: seq<nat>, k: nat)
    requires k <= |times| && forall j :: 0 <= j < |times| ==> times[j] < |items|
  {
    && (forall i: nat :: i in order <==> i in times[k..] && items[i].status.Completed?)
    && forall a, b :: 0 <= a < b < |order| ==> order[b] < order[a]
  }

  lemma NothingTried(items: seq<Item>, times: seq<nat>, verdict: nat -> Option<Status>)
    requires forall j :: 0 <= j < |times| ==> times[j] < |items|
    ensures Deferred(items, items, times, verdict, |times|) && Tried(items, times, [], |times|)
  {
    assert times[|times|..] == [];
  }

  lemma TriedOne(items: seq<Item>, times: seq<nat>, order: seq<nat>, k: nat)
    requires k < |times| && forall j :: 0 <= j < |times| ==> times[j] < |items|
    requires Increasing(times) && Tried(items, times, order, k + 1)
    ensures Tried(items, times, if items[times[k]].status.Completed? then order + [times[k]] else order, k)
  {
    ghost var later := times[k + 1..];
    assert times[k..] == [times[k]] + later;
    assert forall x :: x in later ==> times[k] < x;
    assert forall a :: 0 <= a < |order| ==> order[a] in order;
  }

  /** Try the deferred items that are still complete, in the order returned: the last first,
      so that what lies below a directory comes before it. */
  method SetTimes(items: seq<Item>, counts: Counts, times: seq<nat>, verdict: nat -> Option<Status>, stopped: bool)
    returns (after: seq<Item>, counted: Counts, order: seq<nat>)
    requires forall k :: 0 <= k < |times| ==> times[k] < |items|
    requires Increasing(times) && counts == Tally(items)
    ensures stopped ==> after == items && order == []
    ensures !stopped ==> Deferred(items, after, times, verdict, 0)
    ensures !stopped ==> Tried(items, times, order, 0)
    ensures counted == Tally(after) && Skips(after) == Skips(items)
  {
    hide Tally, Skips, Tried, Deferred, Increasing;
    after, counted, order := items, counts, [];
    if stopped {
      return;
    }
    var k: nat := |times|;
    NothingTried(items, times, verdict);
    while k > 0
      invariant k <= |times| && |after| == |items|
      invariant Deferred(items, after, times, verdict, k)
      invariant Tried(items, times, order, k)
      invariant counted == Tally(after) && Skips(after) == Skips(items)
    {
      k := k - 1;
      var i := times[k];
      DeferredOne(items, after, times, verdict, k);
      TriedOne(items, times, order, k);
      if after[i].status.Completed? {
        order := order + [i];
        if verdict(i).Some? {
          var status := verdict(i).value;
          TallyChange(after, i, status);
          counted := counted[0 := counted[0] - 1];
          counted := counted[Slot(status) := counted[Slot(status)] + 1];
          after := after[i := after[i].(status := status)];
        }
      }
    }
  }
}
