/**
 * On any increasing list and for any duration, the starts that decide how good a run can be are those at which it
 * begins or ends at a price point or with the stretch it may lie in; and what that says of the point the selection
 * picks.
 */
module Edges {
  import opened Options
  import opened Prices
  import opened Optimal

  /** A cost x is at least as good as a cost y. */
  predicate NoWorse(highest: bool, x: real, y: real) {
    if highest then x >= y else x <= y
  }

  ghost predicate HasPoint(ps: seq<PricePoint>, t: int) {
    exists i :: 0 <= i < |ps| && ps[i].at == t
  }

  /** A start at which the run begins or ends with the window or at a price point. */
  ghost predicate IsEdge(ps: seq<PricePoint>, c: int, end: int, dur: int, u: int) {
    c <= u && u + dur <= end && (u == c || u + dur == end || HasPoint(ps, u) || HasPoint(ps, u + dur))
  }

  lemma PriceStays(ps: seq<PricePoint>, t: int)
    requires Increasing(ps) && !HasPoint(ps, t)
    ensures PriceAt(ps, t) == PriceAt(ps, t - 1)
  {
    LeadingFacts(ps, t, 0);
    LeadingIs(ps, t - 1, Leading(ps, t));
  }

  /** While the second taken on is no dearer than the one dropped, starting later is as good, up to the next edge. */
  lemma {:induction false} LaterEdge(ps: seq<PricePoint>, c: int, end: int, dur: int, u: int) returns (v: int)
    requires Increasing(ps) && dur > 0 && c <= u && u + dur <= end && PriceAt(ps, u + dur) <= PriceAt(ps, u)
    ensures IsEdge(ps, c, end, dur, v) && RunCost(ps, v, dur) <= RunCost(ps, u, dur)
    decreases end - u
  {
    v := u;
    if u + dur < end {
      SecondLater(ps, u, dur);
      v := u + 1;
      if !IsEdge(ps, c, end, dur, v) {
        PriceStays(ps, v);
        PriceStays(ps, v + dur);
        v := LaterEdge(ps, c, end, dur, v);
      }
    }
  }

  /** Otherwise starting earlier is. */
  lemma {:induction false} EarlierEdge(ps: seq<PricePoint>, c: int, end: int, dur: int, u: int) returns (v: int)
    requires Increasing(ps) && dur > 0 && c <= u && u + dur <= end && PriceAt(ps, u - 1) <= PriceAt(ps, u - 1 + dur)
    ensures IsEdge(ps, c, end, dur, v) && RunCost(ps, v, dur) <= RunCost(ps, u, dur)
    decreases u - c
  {
    v := u;
    if c < u {
      SecondLater(ps, u - 1, dur);
      v := u - 1;
      if !IsEdge(ps, c, end, dur, v) {
        PriceStays(ps, v);
        PriceStays(ps, v + dur);
        v := EarlierEdge(ps, c, end, dur, v);
      }
    }
  }

  lemma LowestEdge(ps: seq<PricePoint>, c: int, end: int, dur: int, u: int) returns (v: int)
    requires Increasing(ps) && dur > 0 && c <= u && u + dur <= end
    ensures IsEdge(ps, c, end, dur, v) && RunCost(ps, v, dur) <= RunCost(ps, u, dur)
  {
    if IsEdge(ps, c, end, dur, u) {
      v := u;
    } else if PriceAt(ps, u + dur) <= PriceAt(ps, u) {
      v := LaterEdge(ps, c, end, dur, u);
    } else {
      PriceStays(ps, u);
      PriceStays(ps, u + dur);
      v := EarlierEdge(ps, c, end, dur, u);
    }
  }

  lemma NegatedHasPoint(ps: seq<PricePoint>, t: int)
    ensures HasPoint(Negated(ps), t) <==> HasPoint(ps, t)
  {
    if HasPoint(ps, t) {
      var i :| 0 <= i < |ps| && ps[i].at == t;
      assert Negated(ps)[i].at == t;
    }
  }

  /** Every start is matched or beaten by an edge, on any increasing list. */
  lemma EdgeIsAsGood(ps: seq<PricePoint>, highest: bool, c: int, end: int, dur: int, u: int) returns (v: int)
    requires Increasing(ps) && dur > 0 && c <= u && u + dur <= end
    ensures IsEdge(ps, c, end, dur, v) && NoWorse(highest, RunCost(ps, v, dur), RunCost(ps, u, dur))
  {
    if highest {
      v := LowestEdge(Negated(ps), c, end, dur, u);
      NegatedHasPoint(ps, v);
      NegatedHasPoint(ps, v + dur);
      RunCostNegates(ps, v, dur);
      RunCostNegates(ps, u, dur);
    } else {
      v := LowestEdge(ps, c, end, dur, u);
    }
  }

  // ---- The selected point against every instant of the list ----

  /**
   * The selected point's run is no worse than that of any other point from which it fits, and better than of earlier
   * ones.
   */
  lemma BestIsNoWorse(ps: seq<PricePoint>, highest: bool, dur: int, windowEnd: int, best: nat, k: nat)
    requires Increasing(ps) && dur > 0 && IsBest(ps, highest, dur, windowEnd, best)
    requires k < |ps| && ps[k].at + dur <= ps[|ps| - 1].at && ps[k].at + dur <= windowEnd
    ensures NoWorse(highest, RunCost(ps, ps[best].at, dur), RunCost(ps, ps[k].at, dur))
    ensures k < best ==> !NoWorse(highest, RunCost(ps, ps[k].at, dur), RunCost(ps, ps[best].at, dur))
    ensures ps[best].at + dur <= ps[|ps| - 1].at
  {
    CostIsTickSum(ps, k, dur, windowEnd);
    CostIsTickSum(ps, best, dur, windowEnd);
  }

  lemma BestFitsList(ps: seq<PricePoint>, highest: bool, dur: int, windowEnd: int, best: nat)
    requires Increasing(ps) && dur > 0 && IsBest(ps, highest, dur, windowEnd, best)
    ensures best < |ps| && ps[best].at + dur <= ps[|ps| - 1].at
  {
    CostIsTickSum(ps, best, dur, windowEnd);
  }

  /** No start from the first point to the last less the duration is better. */
  ghost predicate IsOptimal(ps: seq<PricePoint>, highest: bool, dur: int, t: int) {
    ps != [] && dur >= 0
    && forall u :: ps[0].at <= u && u + dur <= ps[|ps| - 1].at ==>
         NoWorse(highest, RunCost(ps, t, dur), RunCost(ps, u, dur))
  }

  /** No run that ends at a point is better. */
  ghost predicate NoBetterEnd(ps: seq<PricePoint>, highest: bool, dur: int, t: int) {
    ps != [] && dur >= 0
    && forall i :: 0 <= i < |ps| && ps[0].at + dur <= ps[i].at ==>
         NoWorse(highest, RunCost(ps, t, dur), RunCost(ps, ps[i].at - dur, dur))
  }

  /**
   * Runs are only ever started at points, so on uneven slots, or for a duration that is not a whole number of slots,
   * the selected start need not be the best one. It is if and only if none of the finitely many runs that end at a
   * point is better.
   */
  lemma BestIsOptimalIff(ps: seq<PricePoint>, highest: bool, dur: int, windowEnd: int, best: nat)
    requires Increasing(ps) && dur > 0 && ps != [] && ps[|ps| - 1].at <= windowEnd
    requires IsBest(ps, highest, dur, windowEnd, best)
    ensures IsOptimal(ps, highest, dur, ps[best].at) <==> NoBetterEnd(ps, highest, dur, ps[best].at)
  {
    BestFitsList(ps, highest, dur, windowEnd, best);
    if NoBetterEnd(ps, highest, dur, ps[best].at) {
      forall u | ps[0].at <= u && u + dur <= ps[|ps| - 1].at
        ensures NoWorse(highest, RunCost(ps, ps[best].at, dur), RunCost(ps, u, dur))
      {
        var v := EdgeIsAsGood(ps, highest, ps[0].at, ps[|ps| - 1].at, dur, u);
        if HasPoint(ps, v) {
          var k :| 0 <= k < |ps| && ps[k].at == v;
          BestIsNoWorse(ps, highest, dur, windowEnd, best, k);
        } else {
          var i := EndsAtPoint(ps, dur, v);
        }
      }
    }
  }

  /** An edge of the list that is no point is a run that ends at one. */
  lemma EndsAtPoint(ps: seq<PricePoint>, dur: int, v: int) returns (i: nat)
    requires ps != [] && dur > 0 && IsEdge(ps, ps[0].at, ps[|ps| - 1].at, dur, v) && !HasPoint(ps, v)
    ensures i < |ps| && ps[i].at - dur == v && ps[0].at + dur <= ps[i].at
  {
    if v + dur == ps[|ps| - 1].at {
      i := |ps| - 1;
    } else {
      i :| 0 <= i < |ps| && ps[i].at == v + dur;
    }
  }

  /** Points two seconds apart and a run of three: the best aligned start costs 9, the start in between 5. */
  const UNALIGNED := [PricePoint(0, 5.0), PricePoint(2, 0.0), PricePoint(4, 9.0), PricePoint(6, 0.0)]

  lemma UnalignedCost(t: int)
    requires 0 <= t <= 3
    ensures RunCost(UNALIGNED, t, 3) == if t == 0 then 10.0 else if t == 1 then 5.0 else if t == 2 then 9.0 else 18.0
  {
    assert forall x :: 0 <= x < 6 ==> PriceAt(UNALIGNED, x) == if x < 2 then 5.0 else if x < 4 then 0.0 else 9.0 by {
      forall x | 0 <= x < 6
        ensures PriceAt(UNALIGNED, x) == if x < 2 then 5.0 else if x < 4 then 0.0 else 9.0
      {
        PriceInSlot(UNALIGNED, if x < 2 then 0 else if x < 4 then 1 else 2, x);
      }
    }
    assert TickSum(UNALIGNED, t, t) == 0.0 && TickSum(UNALIGNED, t, t + 1) == PriceAt(UNALIGNED, t);
    assert TickSum(UNALIGNED, t, t + 2) == PriceAt(UNALIGNED, t) + PriceAt(UNALIGNED, t + 1);
  }

  lemma UnalignedStartIsCheaper()
    ensures IsBest(UNALIGNED, false, 3, 6, 1)
    ensures RunCost(UNALIGNED, 1, 3) < RunCost(UNALIGNED, UNALIGNED[1].at, 3)
  {
    forall i | 0 <= i < 4
      ensures Cost(UNALIGNED, i, 3, 6) == if i == 0 then Some(10.0) else if i == 1 then Some(9.0) else None
    {
      CostIsTickSum(UNALIGNED, i, 3, 6);
      if i < 2 {
        UnalignedCost(UNALIGNED[i].at);
      }
    }
    UnalignedCost(1);
    UnalignedCost(2);
  }
}
