/** The planned time is the best time, measured by the price list the source publishes. */
module BestTime {
  import opened Options
  import opened Prices
  import opened Optimal
  import opened Edges
  import opened History
  import opened Scheduler
  import opened CronRuns

  /** The current point of an increasing list is its latest one not after t. */
  lemma CurrentIsLatest(ps: seq<PricePoint>, t: int, p: PricePoint)
    requires Increasing(ps) && p in ps && p.at <= t
    requires forall q :: q in ps && q.at <= t ==> q.at <= p.at
    ensures CurrentPoint(ps, t) == Some(p)
  {
    var i :| 0 <= i < |ps| && ps[i] == p;
    assert i + 1 < |ps| ==> ps[i + 1] in ps;
    LeadingIs(ps, t, i + 1);
  }

  /** From its first point to its end the window's points price every instant as the whole list does. */
  lemma WindowPrices(ps: seq<PricePoint>, c: int, end: int, t: int)
    requires Increasing(ps) && InWindow(ps, c, end) != [] && InWindow(ps, c, end)[0].at <= t < end
    ensures PriceAt(InWindow(ps, c, end), t) == PriceAt(ps, t)
  {
    var w := InWindow(ps, c, end);
    WindowStaysIncreasing(ps, c, end);
    LeadingFacts(w, t, 0);
    var n := Leading(w, t);
    var p := w[n - 1];
    forall q | q in ps && q.at <= t
      ensures q.at <= p.at
    {
      InWindowIff(ps, c, end, q);
      if q in w {
        var i :| 0 <= i < |w| && w[i] == q;
      }
    }
    InWindowIff(ps, c, end, p);
    CurrentIsLatest(ps, t, p);
  }

  lemma {:induction false} WindowSums(ps: seq<PricePoint>, c: int, end: int, a: int, b: int)
    requires Increasing(ps) && InWindow(ps, c, end) != [] && InWindow(ps, c, end)[0].at <= a <= b <= end
    ensures TickSum(InWindow(ps, c, end), a, b) == TickSum(ps, a, b)
    decreases b - a
  {
    if a < b {
      WindowSums(ps, c, end, a, b - 1);
      WindowPrices(ps, c, end, b - 1);
    }
  }

  lemma SameRunCost(ps: seq<PricePoint>, c: int, end: int, t: int, dur: int)
    requires Increasing(ps) && InWindow(ps, c, end) != [] && dur >= 0
    requires var w := InWindow(ps, c, end); w[0].at <= t && t + dur <= w[|w| - 1].at
    ensures RunCost(InWindow(ps, c, end), t, dur) == RunCost(ps, t, dur)
  {
    WindowSums(ps, c, end, t, t + dur);
  }

  // ---- The planned time against every start of the window ----

  /** No run that lies in the window is better, at the published prices, than one started at t. */
  ghost predicate BestInWindow(ps: seq<PricePoint>, highest: bool, c: int, end: int, dur: int, t: int) {
    dur >= 0 && forall u :: c <= u && u + dur <= end ==> NoWorse(highest, RunCost(ps, t, dur), RunCost(ps, u, dur))
  }

  /** The starts the selection compares: points of the window from which the run ends by the last of them. */
  ghost predicate Compared(w: seq<PricePoint>, dur: int, u: int) {
    exists k :: 0 <= k < |w| && w[k].at == u && u + dur <= w[|w| - 1].at
  }

  /** Some compared run is at least as good as every run from an edge of the window that is not compared. */
  ghost predicate NoBargainElsewhere(ps: seq<PricePoint>, highest: bool, w: seq<PricePoint>, c: int, end: int,
                                     dur: int) {
    dur >= 0
    && exists j ::
         0 <= j < |w| && Compared(w, dur, w[j].at) && NoBetterElsewhere(ps, highest, w, c, end, dur, w[j].at)
  }

  ghost predicate NoBetterElsewhere(ps: seq<PricePoint>, highest: bool, w: seq<PricePoint>, c: int, end: int, dur: int,
                                    t: int) {
    dur >= 0
    && forall u :: IsEdge(ps, c, end, dur, u) && !Compared(w, dur, u) ==>
         NoWorse(highest, RunCost(ps, t, dur), RunCost(ps, u, dur))
  }

  /** A selected point is compared, and no worse than any other compared one. */
  lemma BestOfCompared(ps: seq<PricePoint>, highest: bool, w: seq<PricePoint>, c: int, end: int, dur: int, i: nat)
    requires Increasing(ps) && dur > 0 && w == InWindow(ps, c, end) && IsBest(w, highest, dur, end, i)
    ensures Compared(w, dur, w[i].at)
    ensures forall u :: Compared(w, dur, u) ==> NoWorse(highest, RunCost(ps, w[i].at, dur), RunCost(ps, u, dur))
  {
    WindowStaysIncreasing(ps, c, end);
    BestFitsList(w, highest, dur, end, i);
    FirstIsFirst(w, i);
    SameRunCost(ps, c, end, w[i].at, dur);
    forall u | Compared(w, dur, u)
      ensures NoWorse(highest, RunCost(ps, w[i].at, dur), RunCost(ps, u, dur))
    {
      var k :| 0 <= k < |w| && w[k].at == u && u + dur <= w[|w| - 1].at;
      FirstIsFirst(w, k);
      BestIsNoWorse(w, highest, dur, end, i, k);
      SameRunCost(ps, c, end, u, dur);
    }
  }

  lemma FirstIsFirst(w: seq<PricePoint>, k: nat)
    requires Increasing(w) && k < |w|
    ensures w[0].at <= w[k].at <= w[|w| - 1].at
  {
  }

  lemma BestInWindowIff(ps: seq<PricePoint>, highest: bool, w: seq<PricePoint>, c: int, end: int, dur: int, i: nat)
    requires Increasing(ps) && dur > 0 && w == InWindow(ps, c, end) && IsBest(w, highest, dur, end, i)
    ensures BestInWindow(ps, highest, c, end, dur, w[i].at) <==> NoBargainElsewhere(ps, highest, w, c, end, dur)
  {
    BestOfCompared(ps, highest, w, c, end, dur, i);
    if BestInWindow(ps, highest, c, end, dur, w[i].at) {
      assert NoBetterElsewhere(ps, highest, w, c, end, dur, w[i].at);
    }
    if NoBargainElsewhere(ps, highest, w, c, end, dur) {
      var j :| 0 <= j < |w| && Compared(w, dur, w[j].at) && NoBetterElsewhere(ps, highest, w, c, end, dur, w[j].at);
      forall u | c <= u && u + dur <= end
        ensures NoWorse(highest, RunCost(ps, w[i].at, dur), RunCost(ps, u, dur))
      {
        var v := EdgeIsAsGood(ps, highest, c, end, dur, u);
        assert Compared(w, dur, v) || NoWorse(highest, RunCost(ps, w[j].at, dur), RunCost(ps, v, dur));
      }
    }
  }

  /** A reconcile has just planned time t for a run of some length from an increasing price list. */
  ghost predicate JustPlanned(spec: Spec, s: State, mem: Status, jobs: seq<Job>, c: int, input: Input, f: Fate,
                              t: int) {
    && ValidSpec(spec) && s.status.nextScheduledTime.None? && mem == SyncedStatus(s.jobs, s.status)
    && spec.duration > 0 && input.prices.Read? && Increasing(input.prices.prices)
    && Plan(spec, s, mem, jobs, c, input, f).state.status.nextScheduledTime == Some(t)
  }

  lemma PlannedIsBest(spec: Spec, s: State, mem: Status, jobs: seq<Job>, c: int, input: Input, f: Fate, t: int)
    returns (i: nat)
    requires JustPlanned(spec, s, mem, jobs, c, input, f, t)
    ensures var w := InWindow(input.prices.prices, c, c + spec.window);
            && i < |w| && w[i].at == t
            && IsBest(w, spec.strategy == HIGHEST_PRICE, spec.duration, c + spec.window, i)
  {
    var w := InWindow(input.prices.prices, c, c + spec.window);
    PlannedTimeIsChosen(spec, s, mem, jobs, c, input, f);
    i := Choice(w, spec.strategy, spec.duration, c + spec.window).value;
    ChoiceIsBest(w, spec.strategy, spec.duration, c + spec.window);
  }

  lemma ChoiceIsBest(w: seq<PricePoint>, strategy: string, dur: int, end: int)
    ensures Choice(w, strategy, dur, end).Some? ==>
              IsBest(w, strategy == HIGHEST_PRICE, dur, end, Choice(w, strategy, dur, end).value)
  {
  }

  /**
   * Under either strategy, for any spacing of the points and any duration, the planned time is the best start of the
   * whole window if and only if no run from an edge that is not compared is a bargain: one that starts with the window
   * before its first point, one that ends at a point but starts at none, or one that reaches into the window's last
   * slot, which has no point to close it.
   */
  lemma PlannedTimeIsBestIff(spec: Spec, s: State, mem: Status, jobs: seq<Job>, c: int, input: Input, f: Fate, t: int,
                             ps: seq<PricePoint>, end: int, w: seq<PricePoint>)
    requires JustPlanned(spec, s, mem, jobs, c, input, f, t)
    requires ps == input.prices.prices && end == c + spec.window && w == InWindow(ps, c, end)
    ensures BestInWindow(ps, spec.strategy == HIGHEST_PRICE, c, end, spec.duration, t)
            <==> NoBargainElsewhere(ps, spec.strategy == HIGHEST_PRICE, w, c, end, spec.duration)
  {
    var i := PlannedIsBest(spec, s, mem, jobs, c, input, f, t);
    BestInWindowIff(ps, spec.strategy == HIGHEST_PRICE, w, c, end, spec.duration, i);
  }

  // ---- Evenly spaced points ----

  /** Starts from the window's first point on whose run ends by its last one. */
  ghost predicate Counted(w: seq<PricePoint>, dur: int, u: int) {
    w != [] && w[0].at <= u && u + dur <= w[|w| - 1].at
  }

  ghost predicate BestCounted(ps: seq<PricePoint>, highest: bool, w: seq<PricePoint>, dur: int, t: int) {
    dur >= 0 && forall u :: Counted(w, dur, u) ==> NoWorse(highest, RunCost(ps, t, dur), RunCost(ps, u, dur))
  }

  lemma BestIsBestCounted(ps: seq<PricePoint>, highest: bool, w: seq<PricePoint>, c: int, end: int, d: int, k: nat,
                          i: nat)
    requires Increasing(ps) && w == InWindow(ps, c, end) && w != [] && k > 0 && EvenlySpaced(w, d)
    requires IsBest(w, highest, Times(d, k), end, i)
    ensures BestCounted(ps, highest, w, Times(d, k), w[i].at) && Counted(w, Times(d, k), w[i].at)
  {
    var dur := Times(d, k);
    TimesPositive(d, k);
    WindowStaysIncreasing(ps, c, end);
    BestFitsList(w, highest, dur, end, i);
    FirstIsFirst(w, i);
    SameRunCost(ps, c, end, w[i].at, dur);
    forall u | Counted(w, dur, u)
      ensures NoWorse(highest, RunCost(ps, w[i].at, dur), RunCost(ps, u, dur))
    {
      if highest {
        HighestIsGloballyDearest(w, d, k, end, i, u);
      } else {
        LowestIsGloballyCheapest(w, d, k, end, i, u);
      }
      SameRunCost(ps, c, end, u, dur);
    }
  }

  /** With whole slots the planned time is the best start of all whose run ends by the last point inside the window. */
  lemma PlannedTimeIsBestCounted(spec: Spec, s: State, mem: Status, jobs: seq<Job>, c: int, input: Input, f: Fate,
                                 t: int,
                                 d: int, k: nat, w: seq<PricePoint>)
    requires JustPlanned(spec, s, mem, jobs, c, input, f, t) && k > 0 && spec.duration == Times(d, k)
    requires w == InWindow(input.prices.prices, c, c + spec.window) && EvenlySpaced(w, d)
    ensures BestCounted(input.prices.prices, spec.strategy == HIGHEST_PRICE, w, Times(d, k), t)
  {
    var i := PlannedIsBest(spec, s, mem, jobs, c, input, f, t);
    BestIsBestCounted(input.prices.prices, spec.strategy == HIGHEST_PRICE, w, c, c + spec.window, d, k, i);
  }

  // ---- The window's last slot ----

  ghost predicate PriceIs(ps: seq<PricePoint>, a: int, length: nat, p: real) {
    forall x :: a <= x < a + length ==> PriceAt(ps, x) == p
  }

  /** Starting later drops a price held for a while and takes on another. */
  lemma {:induction false} LaterBy(ps: seq<PricePoint>, a: int, dur: int, length: nat, p: real, q: real)
    requires dur > 0 && PriceIs(ps, a, length, p) && PriceIs(ps, a + dur, length, q)
    ensures RunCost(ps, a + length, dur) + Held(p, length) == RunCost(ps, a, dur) + Held(q, length)
  {
    if length > 0 {
      LaterBy(ps, a, dur, length - 1, p, q);
      SecondLater(ps, a + length - 1, dur);
    }
  }

  /** The window's points begin with the window and end within one slot of its end. */
  ghost predicate Spans(w: seq<PricePoint>, c: int, end: int, d: int) {
    w != [] && EvenlySpaced(w, d) && w[0].at == c && w[|w| - 1].at < end <= w[|w| - 1].at + d
  }

  /** The price of point i holds, in the published list too, for up to a slot within the window. */
  lemma PriceHolds(ps: seq<PricePoint>, c: int, end: int, d: int, i: nat, x: int)
    requires Increasing(ps) && Spans(InWindow(ps, c, end), c, end, d) && i < |InWindow(ps, c, end)|
    requires InWindow(ps, c, end)[i].at <= x < InWindow(ps, c, end)[i].at + d && x < end
    ensures PriceAt(ps, x) == InWindow(ps, c, end)[i].price
  {
    var w := InWindow(ps, c, end);
    EvenIsIncreasing(w, d);
    if i + 1 < |w| {
      SlotsLineUp(w, d, i, 1);
      assert Times(d, 1) == Times(d, 0) + d;
    }
    PriceInSlot(w, i, x);
    WindowPrices(ps, c, end, x);
  }

  lemma SlotHolds(ps: seq<PricePoint>, w: seq<PricePoint>, c: int, end: int, d: int, i: nat, length: nat)
    requires Increasing(ps) && w == InWindow(ps, c, end) && Spans(w, c, end, d) && i < |w| && length <= d
    requires w[i].at + length <= end
    ensures PriceIs(ps, w[i].at, length, w[i].price)
  {
    forall x | w[i].at <= x < w[i].at + length
      ensures PriceAt(ps, x) == w[i].price
    {
      PriceHolds(ps, c, end, d, i, x);
    }
  }

  /** What the run costs that ends with the window, from the last counted one and the prices of two slots. */
  lemma LastRunCost(ps: seq<PricePoint>, w: seq<PricePoint>, c: int, end: int, d: int, k: nat, rest: nat)
    requires Increasing(ps) && w == InWindow(ps, c, end) && Spans(w, c, end, d) && 0 < k < |w|
    requires rest == end - w[|w| - 1].at
    ensures Times(d, k) > 0
    ensures RunCost(ps, end - Times(d, k), Times(d, k)) + Held(w[|w| - 1 - k].price, rest)
            == RunCost(ps, w[|w| - 1 - k].at, Times(d, k)) + Held(w[|w| - 1].price, rest)
  {
    var m, dur := |w| - 1, Times(d, k);
    TimesPositive(d, k);
    SlotsLineUp(w, d, m - k, k);
    SlotHolds(ps, w, c, end, d, m - k, rest);
    SlotHolds(ps, w, c, end, d, m, rest);
    LaterBy(ps, w[m - k].at, dur, rest, w[m - k].price, w[m].price);
  }

  /** Then the one edge that is not compared is the start whose run ends with the window. */
  lemma OneEdgeElsewhere(ps: seq<PricePoint>, w: seq<PricePoint>, c: int, end: int, d: int, k: nat, u: int)
    requires w == InWindow(ps, c, end) && Spans(w, c, end, d) && 0 < k < |w|
    requires IsEdge(ps, c, end, Times(d, k), u) && !Compared(w, Times(d, k), u)
    ensures u == end - Times(d, k)
  {
    TimesPositive(d, k);
    if u + Times(d, k) != end {
      if HasPoint(ps, u) {
        var i := PointOfWindow(ps, c, end, u);
        PointsBeyondReachEnd(w, end, d, k, i);
      } else if u == c {
        assert w[0].at == u;
        PointsBeyondReachEnd(w, end, d, k, 0);
      } else {
        var i := PointOfWindow(ps, c, end, u + Times(d, k));
        EndsAtPointStartsAtPoint(w, c, d, k, i, u);
      }
    }
  }

  /** A point from which the run does not end by the last point is one from which it ends with the window or later. */
  lemma PointsBeyondReachEnd(w: seq<PricePoint>, end: int, d: int, k: nat, i: nat)
    requires w != [] && EvenlySpaced(w, d) && end <= w[|w| - 1].at + d && 0 < k < |w| && i < |w|
    ensures Compared(w, Times(d, k), w[i].at) || w[i].at + Times(d, k) >= end
  {
    var m := |w| - 1;
    if w[i].at + Times(d, k) <= w[m].at {
      assert Compared(w, Times(d, k), w[i].at);
    } else {
      TimesAdds(d, i, k);
      TimesGrows(d, m, i + k);
      TimesGrows(d, m + 1, i + k);
      assert Times(d, m + 1) == Times(d, m) + d;
    }
  }

  lemma EndsAtPointStartsAtPoint(w: seq<PricePoint>, c: int, d: int, k: nat, i: nat, u: int)
    requires w != [] && EvenlySpaced(w, d) && w[0].at == c <= u && i < |w| && u + Times(d, k) == w[i].at
    ensures Compared(w, Times(d, k), u)
  {
    TimesGrows(d, i, k);
    SlotsLineUp(w, d, i - k, k);
    TimesGrows(d, |w| - 1, i);
    assert w[i - k].at == u;
  }

  lemma PointOfWindow(ps: seq<PricePoint>, c: int, end: int, t: int) returns (i: nat)
    requires HasPoint(ps, t) && c <= t < end
    ensures i < |InWindow(ps, c, end)| && InWindow(ps, c, end)[i].at == t
  {
    var j :| 0 <= j < |ps| && ps[j].at == t;
    InWindowIff(ps, c, end, ps[j]);
    i :| 0 <= i < |InWindow(ps, c, end)| && InWindow(ps, c, end)[i] == ps[j];
  }

  /**
   * The last slot is no bargain: some run between points is as good as the last such run would be after trading the
   * price of the slot it begins in for the price of the last slot, for as long as the last slot lasts in the window.
   */
  ghost predicate LastSlotNoBargain(ps: seq<PricePoint>, highest: bool, w: seq<PricePoint>, end: int, d: int, k: nat)
    requires 0 < k < |w| && d > 0 && w[|w| - 1].at <= end
  {
    exists j :: 0 <= j < |w| - k && NoWorseThanLast(ps, highest, w, end, d, k, j)
  }

  ghost predicate NoWorseThanLast(ps: seq<PricePoint>, highest: bool, w: seq<PricePoint>, end: int, d: int, k: nat,
                                  j: nat)
    requires 0 < k < |w| && j < |w| && d > 0 && w[|w| - 1].at <= end
  {
    var m := |w| - 1;
    NoWorse(highest, RunCost(ps, w[j].at, Times(d, k)) + Held(w[m - k].price, end - w[m].at),
            RunCost(ps, w[m - k].at, Times(d, k)) + Held(w[m].price, end - w[m].at))
  }

  lemma NoBargainElsewhereIff(ps: seq<PricePoint>, highest: bool, w: seq<PricePoint>, c: int, end: int, d: int, k: nat)
    requires Increasing(ps) && w == InWindow(ps, c, end) && Spans(w, c, end, d) && 0 < k < |w|
    ensures NoBargainElsewhere(ps, highest, w, c, end, Times(d, k)) <==> LastSlotNoBargain(ps, highest, w, end, d, k)
  {
    if NoBargainElsewhere(ps, highest, w, c, end, Times(d, k)) {
      var j :| 0 <= j < |w| && Compared(w, Times(d, k), w[j].at)
        && NoBetterElsewhere(ps, highest, w, c, end, Times(d, k), w[j].at);
      NoWorseIff(ps, highest, w, c, end, d, k, j);
    }
    if LastSlotNoBargain(ps, highest, w, end, d, k) {
      var j :| 0 <= j < |w| - k && NoWorseThanLast(ps, highest, w, end, d, k, j);
      NoWorseIff(ps, highest, w, c, end, d, k, j);
    }
  }

  lemma NoWorseIff(ps: seq<PricePoint>, highest: bool, w: seq<PricePoint>, c: int, end: int, d: int, k: nat, j: nat)
    requires Increasing(ps) && w == InWindow(ps, c, end) && Spans(w, c, end, d) && 0 < k < |w| && j < |w|
    ensures Compared(w, Times(d, k), w[j].at) <==> j < |w| - k
    ensures NoBetterElsewhere(ps, highest, w, c, end, Times(d, k), w[j].at)
            <==> NoWorseThanLast(ps, highest, w, end, d, k, j)
  {
    ComparedPoints(w, d, k, j);
    LastRunIsEdge(ps, w, c, end, d, k);
    OnlyLastRunDecides(ps, highest, w, c, end, d, k, w[j].at);
    NoWorseThanLastIff(ps, highest, w, c, end, d, k, j);
  }

  lemma NoWorseThanLastIff(ps: seq<PricePoint>, highest: bool, w: seq<PricePoint>, c: int, end: int, d: int, k: nat,
                           j: nat)
    requires Increasing(ps) && w == InWindow(ps, c, end) && Spans(w, c, end, d) && 0 < k < |w| && j < |w|
    ensures NoWorseThanLast(ps, highest, w, end, d, k, j)
            <==> NoWorse(highest, RunCost(ps, w[j].at, Times(d, k)), RunCost(ps, end - Times(d, k), Times(d, k)))
  {
    LastRunCost(ps, w, c, end, d, k, end - w[|w| - 1].at);
  }

  lemma LastRunIsEdge(ps: seq<PricePoint>, w: seq<PricePoint>, c: int, end: int, d: int, k: nat)
    requires Spans(w, c, end, d) && 0 < k < |w|
    ensures IsEdge(ps, c, end, Times(d, k), end - Times(d, k)) && !Compared(w, Times(d, k), end - Times(d, k))
  {
    TimesGrows(d, k, |w| - 1);
  }

  lemma ComparedPoints(w: seq<PricePoint>, d: int, k: nat, j: nat)
    requires w != [] && EvenlySpaced(w, d) && j < |w|
    ensures Compared(w, Times(d, k), w[j].at) <==> j + k < |w|
  {
    TimesAdds(d, j, k);
    TimesGrows(d, |w| - 1, j + k);
  }

  lemma OnlyLastRunDecides(ps: seq<PricePoint>, highest: bool, w: seq<PricePoint>, c: int, end: int, d: int, k: nat,
                           t: int)
    requires w == InWindow(ps, c, end) && Spans(w, c, end, d) && 0 < k < |w|
    requires IsEdge(ps, c, end, Times(d, k), end - Times(d, k)) && !Compared(w, Times(d, k), end - Times(d, k))
    ensures NoBetterElsewhere(ps, highest, w, c, end, Times(d, k), t)
            <==> NoWorse(highest, RunCost(ps, t, Times(d, k)), RunCost(ps, end - Times(d, k), Times(d, k)))
  {
    TimesPositive(d, k);
    forall u | IsEdge(ps, c, end, Times(d, k), u) && !Compared(w, Times(d, k), u)
      ensures u == end - Times(d, k)
    {
      OneEdgeElsewhere(ps, w, c, end, d, k, u);
    }
  }

  /**
   * When the window's points begin with the window and end within a slot of its end, as those of an evenly spaced list
   * covering an aligned window do, and the run takes whole slots, the planned time is the best start of the whole
   * window if and only if the last slot is no bargain.
   */
  lemma PlannedTimeIsBestUnlessLastSlot(spec: Spec, s: State, mem: Status, jobs: seq<Job>, c: int, input: Input,
                                        f: Fate,
                                        t: int, d: int, k: nat, w: seq<PricePoint>)
    requires JustPlanned(spec, s, mem, jobs, c, input, f, t) && k > 0 && spec.duration == Times(d, k)
    requires w == InWindow(input.prices.prices, c, c + spec.window) && Spans(w, c, c + spec.window, d)
    ensures k < |w|
    ensures BestInWindow(input.prices.prices, spec.strategy == HIGHEST_PRICE, c, c + spec.window, Times(d, k), t)
            <==> LastSlotNoBargain(input.prices.prices, spec.strategy == HIGHEST_PRICE, w, c + spec.window, d, k)
    ensures NoWorse(spec.strategy == HIGHEST_PRICE, w[|w| - 1 - k].price, w[|w| - 1].price) ==>
              BestInWindow(input.prices.prices, spec.strategy == HIGHEST_PRICE, c, c + spec.window, Times(d, k), t)
  {
    var i := PlannedIsBest(spec, s, mem, jobs, c, input, f, t);
    BestUnlessLastSlot(input.prices.prices, spec.strategy == HIGHEST_PRICE, w, c, c + spec.window, d, k, i);
  }

  lemma BestUnlessLastSlot(ps: seq<PricePoint>, highest: bool, w: seq<PricePoint>, c: int, end: int, d: int, k: nat,
                           i: nat)
    requires Increasing(ps) && w == InWindow(ps, c, end) && Spans(w, c, end, d) && k > 0
    requires IsBest(w, highest, Times(d, k), end, i)
    ensures k < |w|
    ensures BestInWindow(ps, highest, c, end, Times(d, k), w[i].at) <==> LastSlotNoBargain(ps, highest, w, end, d, k)
    ensures NoWorse(highest, w[|w| - 1 - k].price, w[|w| - 1].price) ==>
              BestInWindow(ps, highest, c, end, Times(d, k), w[i].at)
  {
    TimesPositive(d, k);
    BestOfCompared(ps, highest, w, c, end, Times(d, k), i);
    ComparedPoints(w, d, k, i);
    BestInWindowIff(ps, highest, w, c, end, Times(d, k), i);
    NoBargainElsewhereIff(ps, highest, w, c, end, d, k);
    PoorLastSlot(ps, highest, w, end, d, k);
  }

  lemma PoorLastSlot(ps: seq<PricePoint>, highest: bool, w: seq<PricePoint>, end: int, d: int, k: nat)
    requires 0 < k < |w| && d > 0 && w[|w| - 1].at <= end
    ensures NoWorse(highest, w[|w| - 1 - k].price, w[|w| - 1].price) ==> LastSlotNoBargain(ps, highest, w, end, d, k)
  {
    var m := |w| - 1;
    if NoWorse(highest, w[m - k].price, w[m].price) {
      if highest {
        HeldGrows(w[m].price, w[m - k].price, end - w[m].at);
      } else {
        HeldGrows(w[m - k].price, w[m].price, end - w[m].at);
      }
      assert NoWorseThanLast(ps, highest, w, end, d, k, m - k);
    }
  }

  lemma {:induction false} HeldGrows(p: real, q: real, seconds: nat)
    requires p <= q
    ensures Held(p, seconds) <= Held(q, seconds)
  {
    if seconds > 0 {
      HeldGrows(p, q, seconds - 1);
    }
  }

  /** A list on which the last slot of the window [0, 3) is the bargain. */
  const BARGAIN := [PricePoint(0, 10.0), PricePoint(1, 5.0), PricePoint(2, 1.0), PricePoint(3, 0.0)]

  lemma BargainWindow()
    ensures InWindow(BARGAIN, 0, 3) == [PricePoint(0, 10.0), PricePoint(1, 5.0), PricePoint(2, 1.0)]
  {
    var a, b, c := BARGAIN[..1], BARGAIN[..2], BARGAIN[..3];
    assert c[..2] == b && b[..1] == a && a[..0] == [];
    assert InWindow(a, 0, 3) == [PricePoint(0, 10.0)];
    assert InWindow(b, 0, 3) == [PricePoint(0, 10.0), PricePoint(1, 5.0)];
    assert InWindow(c, 0, 3) == [PricePoint(0, 10.0), PricePoint(1, 5.0), PricePoint(2, 1.0)];
  }

  lemma OneSecond(ps: seq<PricePoint>, i: nat)
    requires Increasing(ps) && i < |ps|
    ensures RunCost(ps, ps[i].at, 1) == ps[i].price
  {
    PriceInSlot(ps, i, ps[i].at);
    assert TickSum(ps, ps[i].at, ps[i].at) == 0.0;
  }

  /** Of three points a second apart, only the first two can begin a run of a second. */
  lemma CheaperOfTwo(w: seq<PricePoint>)
    requires |w| == 3 && w[0].at == 0 && w[1].at == 1 && w[2].at == 2 && w[1].price < w[0].price
    ensures Choice(w, LOWEST_PRICE, 1, 3) == Some(1)
  {
    forall i | 0 <= i < 3
      ensures Cost(w, i, 1, 3) == if i == 2 then None else Some(w[i].price)
    {
      CostIsTickSum(w, i, 1, 3);
      OneSecond(w, i);
    }
    assert IsBest(w, false, 1, 3, 1);
    LowestIsNotHighest();
    ChoiceIsBest(w, LOWEST_PRICE, 1, 3);
    BestIsUnique(w, false, 1, 3, Choice(w, LOWEST_PRICE, 1, 3).value, 1);
  }

  lemma LowestIsNotHighest()
    ensures LOWEST_PRICE != HIGHEST_PRICE
  {
    assert |LOWEST_PRICE| == 11 && |HIGHEST_PRICE| == 12;
  }

  /** The start chosen costs five times what the start at the last point does, whose run lies in the window as well. */
  lemma LastSlotBargainMissed()
    ensures var w := InWindow(BARGAIN, 0, 3);
            && |w| == 3 && Choice(w, LOWEST_PRICE, 1, 3) == Some(1)
            && w[2].at + 1 <= 3 && RunCost(BARGAIN, w[2].at, 1) < RunCost(BARGAIN, w[1].at, 1)
  {
    BargainWindow();
    CheaperOfTwo(InWindow(BARGAIN, 0, 3));
    OneSecond(BARGAIN, 1);
    OneSecond(BARGAIN, 2);
  }
}
