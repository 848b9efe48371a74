/**
 * On evenly spaced price points the best point is the best instant: no start in between, aligned or not, is cheaper.
 */
module Optimal {
  import opened Prices

  function Times(d: int, k: nat): (r: int)
    ensures d >= 0 ==> r >= 0
  {
    if k == 0 then 0 else Times(d, k - 1) + d
  }

  lemma {:induction false} TimesAdds(d: int, i: nat, k: nat)
    ensures Times(d, i + k) == Times(d, i) + Times(d, k)
  {
    if k > 0 {
      TimesAdds(d, i, k - 1);
    }
  }

  lemma {:induction false} TimesGrows(d: int, i: nat, k: nat)
    requires d > 0
    ensures i < k <==> Times(d, i) < Times(d, k)
  {
    if i < k {
      TimesAdds(d, i, k - i);
      TimesPositive(d, k - i);
    } else if k < i {
      TimesAdds(d, k, i - k);
      TimesPositive(d, i - k);
    }
  }

  lemma {:induction false} TimesPositive(d: int, k: nat)
    requires d > 0 && k > 0
    ensures Times(d, k) >= d
  {
    if k > 1 {
      TimesPositive(d, k - 1);
    }
  }

  ghost predicate EvenlySpaced(ps: seq<PricePoint>, d: int) {
    d > 0 && forall i :: 0 <= i < |ps| ==> ps[i].at == ps[0].at + Times(d, i)
  }

  lemma EvenIsIncreasing(ps: seq<PricePoint>, d: int)
    requires EvenlySpaced(ps, d)
    ensures Increasing(ps)
  {
    forall i, j | 0 <= i < j < |ps|
      ensures ps[i].at < ps[j].at
    {
      TimesGrows(d, i, j);
    }
  }

  /** What a run started at instant t costs. */
  function RunCost(ps: seq<PricePoint>, t: int, dur: int): real
    requires dur >= 0
  {
    TickSum(ps, t, t + dur)
  }

  /** Starting a second later drops the first second's price and takes on the one after the end. */
  lemma SecondLater(ps: seq<PricePoint>, t: int, dur: int)
    requires dur > 0
    ensures RunCost(ps, t + 1, dur) == RunCost(ps, t, dur) - PriceAt(ps, t) + PriceAt(ps, t + dur)
  {
    TickSumSplits(ps, t, t + 1, t + dur + 1);
    assert TickSum(ps, t, t + 1) == TickSum(ps, t, t) + PriceAt(ps, t);
  }

  lemma SlotsLineUp(ps: seq<PricePoint>, d: int, i: nat, k: nat)
    requires EvenlySpaced(ps, d) && i + k < |ps|
    ensures ps[i + k].at == ps[i].at + Times(d, k)
  {
    TimesAdds(d, i, k);
  }

  /** Within slots i and j, where a run begins and ends, both prices stand still. */
  lemma PricesStandStill(ps: seq<PricePoint>, i: nat, j: nat, t: int, dur: int)
    requires Increasing(ps) && i + 1 < |ps| && j + 1 < |ps| && ps[i].at <= t < ps[i + 1].at
    requires ps[j].at == ps[i].at + dur && ps[j + 1].at == ps[i + 1].at + dur
    ensures PriceAt(ps, t) == ps[i].price && PriceAt(ps, t + dur) == ps[j].price
  {
    PriceInSlot(ps, i, t);
    PriceInSlot(ps, j, t + dur);
  }

  /** When the slot taken on is no cheaper than the one dropped, the slot's first instant is its cheapest start. */
  lemma {:induction false} CheapestAtSlotStart(ps: seq<PricePoint>, i: nat, j: nat, t: int, dur: int)
    requires Increasing(ps) && dur > 0 && i + 1 < |ps| && j + 1 < |ps| && ps[i].at <= t <= ps[i + 1].at
    requires ps[j].at == ps[i].at + dur && ps[j + 1].at == ps[i + 1].at + dur
    requires ps[i].price <= ps[j].price
    ensures RunCost(ps, ps[i].at, dur) <= RunCost(ps, t, dur)
    decreases t - ps[i].at
  {
    if t > ps[i].at {
      CheapestAtSlotStart(ps, i, j, t - 1, dur);
      PricesStandStill(ps, i, j, t - 1, dur);
      SecondLater(ps, t - 1, dur);
    }
  }

  /** Otherwise the next slot's first instant is. */
  lemma {:induction false} CheapestAtNextSlot(ps: seq<PricePoint>, i: nat, j: nat, t: int, dur: int)
    requires Increasing(ps) && dur > 0 && i + 1 < |ps| && j + 1 < |ps| && ps[i].at <= t <= ps[i + 1].at
    requires ps[j].at == ps[i].at + dur && ps[j + 1].at == ps[i + 1].at + dur
    requires ps[i].price >= ps[j].price
    ensures RunCost(ps, ps[i + 1].at, dur) <= RunCost(ps, t, dur)
    decreases ps[i + 1].at - t
  {
    if t < ps[i + 1].at {
      CheapestAtNextSlot(ps, i, j, t + 1, dur);
      PricesStandStill(ps, i, j, t, dur);
      SecondLater(ps, t, dur);
    }
  }

  lemma {:induction false} SlotOf(ps: seq<PricePoint>, d: int, t: int, n: nat) returns (i: nat)
    requires EvenlySpaced(ps, d) && n < |ps| && ps[0].at <= t < ps[n].at
    ensures i < n && ps[i].at <= t < ps[i + 1].at
  {
    if ps[n - 1].at <= t {
      i := n - 1;
    } else {
      i := SlotOf(ps, d, t, n - 1);
    }
  }

  /** Every start from which the run ends by the last point is matched or beaten by one of the points next to it. */
  lemma AlignedStartIsAsGood(ps: seq<PricePoint>, d: int, k: nat, t: int) returns (j: nat)
    requires EvenlySpaced(ps, d) && k > 0 && ps != []
    requires ps[0].at <= t && t + Times(d, k) <= ps[|ps| - 1].at
    ensures j < |ps| && ps[j].at + Times(d, k) <= ps[|ps| - 1].at
    ensures RunCost(ps, ps[j].at, Times(d, k)) <= RunCost(ps, t, Times(d, k))
  {
    TimesPositive(d, k);
    var i := SlotOf(ps, d, t, |ps| - 1);
    if t == ps[i].at {
      return i;
    }
    SlotReached(ps, d, i, k, t);
    EvenIsIncreasing(ps, d);
    SlotsLineUp(ps, d, i, k);
    SlotsLineUp(ps, d, i + 1, k);
    if ps[i].price <= ps[i + k].price {
      CheapestAtSlotStart(ps, i, i + k, t, Times(d, k));
      j := i;
    } else {
      CheapestAtNextSlot(ps, i, i + k, t, Times(d, k));
      j := i + 1;
    }
  }

  /** A run that starts inside slot i and ends by the last point ends inside a slot that has an end. */
  lemma SlotReached(ps: seq<PricePoint>, d: int, i: nat, k: nat, t: int)
    requires EvenlySpaced(ps, d) && i < |ps| && ps[i].at < t && t + Times(d, k) <= ps[|ps| - 1].at
    ensures i + k + 1 < |ps|
  {
    TimesAdds(d, i, k);
    TimesGrows(d, i + k, |ps| - 1);
  }

  lemma BestBeats(ps: seq<PricePoint>, dur: int, windowEnd: int, best: nat, j: nat)
    requires Increasing(ps) && dur > 0 && IsBest(ps, false, dur, windowEnd, best)
    requires j < |ps| && ps[j].at + dur <= ps[|ps| - 1].at <= windowEnd
    ensures RunCost(ps, ps[best].at, dur) <= RunCost(ps, ps[j].at, dur)
  {
    CostIsTickSum(ps, j, dur, windowEnd);
    CostIsTickSum(ps, best, dur, windowEnd);
  }

  /**
   * With evenly spaced points, a duration of k slots and a window reaching the last point, the selected start is
   * at least as good as every start instant from the first point to the last point less the duration.
   */
  lemma LowestIsGloballyCheapest(ps: seq<PricePoint>, d: int, k: nat, windowEnd: int, best: nat, t: int)
    requires EvenlySpaced(ps, d) && k > 0 && ps != [] && ps[|ps| - 1].at <= windowEnd
    requires IsBest(ps, false, Times(d, k), windowEnd, best)
    requires ps[0].at <= t && t + Times(d, k) <= ps[|ps| - 1].at
    ensures RunCost(ps, ps[best].at, Times(d, k)) <= RunCost(ps, t, Times(d, k))
  {
    TimesPositive(d, k);
    EvenIsIncreasing(ps, d);
    var j := AlignedStartIsAsGood(ps, d, k, t);
    BestBeats(ps, Times(d, k), windowEnd, best, j);
  }

  /** Nothing is selected exactly when no start instant at all would do. */
  lemma NothingFitsIff(ps: seq<PricePoint>, d: int, k: nat, windowEnd: int)
    requires EvenlySpaced(ps, d) && k > 0 && ps != [] && ps[|ps| - 1].at <= windowEnd
    ensures NoneScores(ps, Times(d, k), windowEnd) <==> ps[|ps| - 1].at < ps[0].at + Times(d, k)
  {
    TimesPositive(d, k);
    EvenIsIncreasing(ps, d);
    CostIsTickSum(ps, 0, Times(d, k), windowEnd);
    forall i | 0 <= i < |ps|
      ensures Cost(ps, i, Times(d, k), windowEnd).Some? ==> ps[0].at + Times(d, k) <= ps[|ps| - 1].at
    {
      CostIsTickSum(ps, i, Times(d, k), windowEnd);
    }
  }

  lemma {:induction false} SumNegates(ps: seq<PricePoint>, a: int, b: int)
    requires a <= b
    ensures TickSum(Negated(ps), a, b) == -TickSum(ps, a, b)
    decreases b - a
  {
    if a < b {
      SumNegates(ps, a, b - 1);
      LeadingNegates(ps, b - 1, 0);
    }
  }

  lemma {:induction false} LeadingNegates(ps: seq<PricePoint>, t: int, i: nat)
    requires i <= |ps|
    ensures LeadingFrom(Negated(ps), t, i) == LeadingFrom(ps, t, i)
    decreases |ps| - i
  {
    if i < |ps| {
      LeadingNegates(ps, t, i + 1);
    }
  }

  /** The same for the highest price. */
  lemma HighestIsGloballyDearest(ps: seq<PricePoint>, d: int, k: nat, windowEnd: int, best: nat, t: int)
    requires EvenlySpaced(ps, d) && k > 0 && ps != [] && ps[|ps| - 1].at <= windowEnd
    requires IsBest(ps, true, Times(d, k), windowEnd, best)
    requires ps[0].at <= t && t + Times(d, k) <= ps[|ps| - 1].at
    ensures RunCost(ps, ps[best].at, Times(d, k)) >= RunCost(ps, t, Times(d, k))
  {
    TimesPositive(d, k);
    HighestIsLowestNegated(ps, Times(d, k), windowEnd, best);
    NegatedIsEven(ps, d);
    LowestIsGloballyCheapest(Negated(ps), d, k, windowEnd, best, t);
    RunCostNegates(ps, ps[best].at, Times(d, k));
    RunCostNegates(ps, t, Times(d, k));
  }

  lemma NegatedIsEven(ps: seq<PricePoint>, d: int)
    requires EvenlySpaced(ps, d)
    ensures EvenlySpaced(Negated(ps), d)
  {
  }

  lemma RunCostNegates(ps: seq<PricePoint>, t: int, dur: int)
    requires dur >= 0
    ensures RunCost(Negated(ps), t, dur) == -RunCost(ps, t, dur)
  {
    SumNegates(ps, t, t + dur);
  }
}
