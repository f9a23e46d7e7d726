/** The live stream of index changes (`engine/internal/monitor/monitor.go`). */
module Monitor {
  import opened Basics
  import opened Scanner
  import opened Diff

  /** What the monitor can see: a watcher event whose scan succeeded, one whose scan
      failed, or a watcher error. `taken` is false when the monitor is closed while it
      waits for a reader of the changes. */
  datatype Event = Scanned(idx: Index, taken: bool) | ScanFailed | WatcherError

  /** Applies delivered change sets one after the other. */
  function Replay(v: View, sets: seq<seq<Change>>): View {
    if sets == [] then v else ApplyAll(Replay(v, sets[..|sets| - 1]), sets[|sets| - 1])
  }

  /** The index of the last successful scan. */
  function LastScan(first: Index, events: seq<Event>): Index {
    if events == [] then first
    else
      var e := events[|events| - 1];
      if e.Scanned? then e.idx else LastScan(first, events[..|events| - 1])
  }

  /** That is: the index of the last event that is a scan, or the first index if none is. */
  lemma {:induction false} LastScanExactly(first: Index, events: seq<Event>, i: nat)
    ensures (forall k :: 0 <= k < |events| ==> !events[k].Scanned?) ==> LastScan(first, events) == first
    ensures i < |events| && events[i].Scanned? && (forall k :: i < k < |events| ==> !events[k].Scanned?) ==>
              LastScan(first, events) == events[i].idx
    decreases |events|
  {
    if events != [] && !events[|events| - 1].Scanned? {
      LastScanExactly(first, events[..|events| - 1], i);
    }
  }

  lemma LastScanOfFront(first: Index, events: seq<Event>, n: nat)
    requires n <= |events|
    ensures (forall k :: 0 <= k < n ==> !events[k].Scanned?) ==> LastScan(first, events[..n]) == first
    ensures forall i :: 0 <= i < n && events[i].Scanned? && (forall k :: i < k < n ==> !events[k].Scanned?) ==>
              LastScan(first, events[..n]) == events[i].idx
  {
    LastScanExactly(first, events[..n], 0);
    forall i | 0 <= i < n && events[i].Scanned? && forall k :: i < k < n ==> !events[k].Scanned?
      ensures LastScan(first, events[..n]) == events[i].idx
    {
      LastScanExactly(first, events[..n], i);
    }
  }

  /** A difference is empty exactly if the views are equal. */
  lemma EmptyDiffExactly(before: Index, after: Index, cs: seq<Change>)
    requires IsDiff(before, after, cs)
    ensures cs == [] <==> ViewOf(before) == ViewOf(after)
  {
    if cs == [] {
      DiffReachesNewIndex(before, after, cs);
    } else {
      assert cs[0] in cs && InDiff(before, after, cs[0]);
      DifferenceShows(before, after, cs[0]);
    }
  }

  lemma DifferenceShows(before: Index, after: Index, c: Change)
    requires InDiff(before, after, c)
    ensures Lookup(ViewOf(before), c.path) != Lookup(ViewOf(after), c.path)
  {
  }

  /** The i-th event is a scan with another view than the one before it. */
  ghost predicate Changes(first: Index, events: seq<Event>, i: nat) {
    i < |events| && events[i].Scanned? && ViewOf(LastScan(first, events[..i])) != ViewOf(events[i].idx)
  }

  /** `sets` are the differences of the scans at the positions `at`, each to the scan before it,
      and all that there are among the first `n` events, but for those that are not taken. */
  ghost predicate Deliveries(first: Index, events: seq<Event>, n: nat, at: seq<nat>, sets: seq<seq<Change>>)
    requires n <= |events|
  {
    && |at| == |sets| && (forall i, j :: 0 <= i < j < |at| ==> at[i] < at[j])
    && (forall i: nat :: i in at <==> i < n && Changes(first, events, i) && events[i].taken)
    && (forall m :: 0 <= m < |at| ==>
          at[m] < n && events[at[m]].Scanned? && IsDiff(LastScan(first, events[..at[m]]), events[at[m]].idx, sets[m]))
  }

  lemma NothingDelivered(first: Index, events: seq<Event>, n: nat, at: seq<nat>, sets: seq<seq<Change>>)
    requires n < |events| && Deliveries(first, events, n, at, sets) && !(Changes(first, events, n) && events[n].taken)
    ensures Deliveries(first, events, n + 1, at, sets)
  {
  }

  lemma OneDelivered(first: Index, events: seq<Event>, n: nat, at: seq<nat>, sets: seq<seq<Change>>, cs: seq<Change>)
    requires n < |events| && Deliveries(first, events, n, at, sets) && Changes(first, events, n) && events[n].taken
    requires IsDiff(LastScan(first, events[..n]), events[n].idx, cs)
    ensures Deliveries(first, events, n + 1, at + [n], sets + [cs])
  {
    forall i: nat
      ensures i in at + [n] <==> i < n + 1 && Changes(first, events, i) && events[i].taken
    {
      assert i in at + [n] <==> i in at || i == n;
    }
  }

  /** Whoever has replayed `was` and holds the view of `first` holds that of `idx` after `sets`. */
  ghost predicate Leads(first: Index, was: seq<seq<Change>>, sets: seq<seq<Change>>, idx: Index) {
    forall v :: Replay(v, was) == ViewOf(first) ==> Replay(v, sets) == ViewOf(idx)
  }

  lemma ReplayGoesOn(first: Index, was: seq<seq<Change>>, sets: seq<seq<Change>>, before: Index, after: Index, cs: seq<Change>)
    requires Leads(first, was, sets, before) && IsDiff(before, after, cs)
    ensures Leads(first, was, sets + [cs], after) && (cs == [] ==> Leads(first, was, sets, after))
    ensures forall v :: Replay(v, was) == ViewOf(first) ==> ApplyAll(Replay(v, sets), cs) == ViewOf(after)
  {
    DiffReachesNewIndex(before, after, cs);
    assert (sets + [cs])[..|sets|] == sets;
  }

  /** All that holds after `n` events, the monitor having had the sets `was` at the start. */
  ghost predicate Going(first: Index, was: seq<seq<Change>>, events: seq<Event>, n: nat, at: seq<nat>, sets: seq<seq<Change>>,
                        idx: Index)
  {
    && n <= |events| && idx == LastScan(first, events[..n])
    && was <= sets && Deliveries(first, events, n, at, sets[|was|..])
    && Leads(first, was, sets, idx) && forall i :: |was| <= i < |sets| ==> sets[i] != []
  }

  lemma LastScanStep(first: Index, events: seq<Event>, n: nat)
    requires n < |events|
    ensures LastScan(first, events[..n + 1])
            == if events[n].Scanned? then events[n].idx else LastScan(first, events[..n])
  {
    assert events[..n + 1][..n] == events[..n] && events[..n + 1][n] == events[n];
  }

  lemma GoesOnWithoutScan(first: Index, was: seq<seq<Change>>, events: seq<Event>, n: nat, at: seq<nat>,
                          sets: seq<seq<Change>>, idx: Index)
    requires Going(first, was, events, n, at, sets, idx) && n < |events| && !events[n].Scanned?
    ensures Going(first, was, events, n + 1, at, sets, idx)
  {
    LastScanStep(first, events, n);
    NothingDelivered(first, events, n, at, sets[|was|..]);
  }

  lemma GoesOnWithSet(first: Index, was: seq<seq<Change>>, events: seq<Event>, n: nat, at: seq<nat>,
                      sets: seq<seq<Change>>, idx: Index, cs: seq<Change>)
    requires Going(first, was, events, n, at, sets, idx) && n < |events| && events[n].Scanned? && events[n].taken
    requires IsDiff(idx, events[n].idx, cs) && cs != []
    ensures Going(first, was, events, n + 1, at + [n], sets + [cs], events[n].idx)
  {
    LastScanStep(first, events, n);
    EmptyDiffExactly(idx, events[n].idx, cs);
    ReplayGoesOn(first, was, sets, idx, events[n].idx, cs);
    OneDelivered(first, events, n, at, sets[|was|..], cs);
    assert (sets + [cs])[|was|..] == sets[|was|..] + [cs];
  }

  /** A scan without a difference, or with one that is lost. */
  lemma GoesOnWithoutSet(first: Index, was: seq<seq<Change>>, events: seq<Event>, n: nat, at: seq<nat>,
                         sets: seq<seq<Change>>, idx: Index, cs: seq<Change>)
    requires Going(first, was, events, n, at, sets, idx) && n < |events| && events[n].Scanned?
    requires IsDiff(idx, events[n].idx, cs) && (cs == [] || !events[n].taken)
    ensures cs == [] ==> Going(first, was, events, n + 1, at, sets, events[n].idx)
    ensures events[n].idx == LastScan(first, events[..n + 1]) && Deliveries(first, events, n + 1, at, sets[|was|..])
    ensures forall v :: Replay(v, was) == ViewOf(first) ==> ApplyAll(Replay(v, sets), cs) == ViewOf(events[n].idx)
  {
    LastScanStep(first, events, n);
    EmptyDiffExactly(idx, events[n].idx, cs);
    ReplayGoesOn(first, was, sets, idx, events[n].idx, cs);
    NothingDelivered(first, events, n, at, sets[|was|..]);
  }

  class Monitor {
    var baseline: Index
    var delivered: seq<seq<Change>>

    constructor (first: Index)
      ensures baseline == first && delivered == []
    {
      baseline, delivered := first, [];
    }

    /** One scan: the difference is delivered if it is not empty and the reader takes it. */
    method Take(newIdx: Index, taken: bool) returns (changes: seq<Change>)
      modifies this
      ensures baseline == newIdx && IsDiff(old(baseline), newIdx, changes)
      ensures changes == [] <==> ViewOf(old(baseline)) == ViewOf(newIdx)
      ensures delivered == if changes != [] && taken then old(delivered) + [changes] else old(delivered)
    {
      changes := Diff.Diff(baseline, newIdx);
      EmptyDiffExactly(baseline, newIdx, changes);
      baseline := newIdx;
      if changes != [] && taken {
        delivered := delivered + [changes];
      }
    }

    /** Handles `n` of the events. All of them, unless it is closed with a change set
        in hand; that set is then lost and returned here. The sets that are delivered are
        those of the scans at the positions `at`. */
    method Run(events: seq<Event>) returns (n: nat, lost: seq<Change>, ghost at: seq<nat>)
      modifies this
      ensures n <= |events| && baseline == LastScan(old(baseline), events[..n])
      ensures (forall k :: 0 <= k < n ==> !events[k].Scanned?) ==> baseline == old(baseline)
      ensures forall i :: 0 <= i < n && events[i].Scanned? && (forall k :: i < k < n ==> !events[k].Scanned?) ==>
                baseline == events[i].idx
      ensures old(delivered) <= delivered
      ensures Deliveries(old(baseline), events, n, at, delivered[|old(delivered)|..])
      ensures forall v :: Replay(v, old(delivered)) == ViewOf(old(baseline)) ==>
                            ApplyAll(Replay(v, delivered), lost) == ViewOf(baseline)
      ensures forall i :: |old(delivered)| <= i < |delivered| ==> delivered[i] != []
      ensures lost != [] ==>
                n > 0 && events[n - 1].Scanned? && !events[n - 1].taken
                && IsDiff(LastScan(old(baseline), events[..n - 1]), events[n - 1].idx, lost)
      ensures lost == [] ==> n == |events|
      ensures (forall e :: e in events && e.Scanned? ==> e.taken) ==> lost == []
    {
      n, lost, at := 0, [], [];
      ghost var first, was := baseline, delivered;
      while n < |events|
        invariant Going(first, was, events, n, at, delivered, baseline)
      {
        var e := events[n];
        match e {
          case Scanned(newIdx, taken) =>
            ghost var prior, before := baseline, delivered;
            var changes := Take(newIdx, taken);
            if changes != [] && taken {
              GoesOnWithSet(first, was, events, n, at, before, prior, changes);
              at := at + [n];
            } else {
              GoesOnWithoutSet(first, was, events, n, at, before, prior, changes);
              if changes != [] {
                LastScanOfFront(first, events, n + 1);
                return n + 1, changes, at;
              }
            }
          case ScanFailed => GoesOnWithoutScan(first, was, events, n, at, delivered, baseline);
          case WatcherError => GoesOnWithoutScan(first, was, events, n, at, delivered, baseline);
        }
        n := n + 1;
      }
      LastScanOfFront(first, events, n);
    }
  }

  /** A monitor that is never closed in the middle of a delivery keeps its readers in
      step with its baseline, over any run with failures and empty diffs in between. */
  method MonitorWholeRun(first: Index, events: seq<Event>) returns (m: Monitor)
    requires forall e :: e in events && e.Scanned? ==> e.taken
    ensures m.baseline == LastScan(first, events)
    ensures Replay(ViewOf(first), m.delivered) == ViewOf(LastScan(first, events))
  {
    m := new Monitor(first);
    var n, lost, at := m.Run(events);
    assert events[..|events|] == events;
    assert Replay(ViewOf(first), []) == ViewOf(first);
  }
}
