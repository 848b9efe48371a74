/**
 * Choosing when to run from a list of price points (internal/controller/energyawarecronjob_controller.go), and the
 * price in force at an instant (internal/controller/energypricesource_metrics.go). Instants are whole seconds.
 */
module Prices {
  import opened Options

  datatype PricePoint = PricePoint(at: int, price: real)

  ghost predicate Increasing(ps: seq<PricePoint>) {
    forall i, j :: 0 <= i < j < |ps| ==> ps[i].at < ps[j].at
  }

  // ---- The price in force ----

  /** How many points come before the first one that lies after t. */
  function Leading(ps: seq<PricePoint>, t: int): (n: nat)
    ensures n <= |ps|
  {
    LeadingFrom(ps, t, 0)
  }

  function LeadingFrom(ps: seq<PricePoint>, t: int, i: nat): (n: nat)
    requires i <= |ps|
    ensures i <= n <= |ps|
    decreases |ps| - i
  {
    if i == |ps| || ps[i].at > t then i else LeadingFrom(ps, t, i + 1)
  }

  lemma {:induction false} LeadingFacts(ps: seq<PricePoint>, t: int, i: nat)
    requires i <= |ps|
    ensures forall k :: i <= k < LeadingFrom(ps, t, i) ==> ps[k].at <= t
    ensures LeadingFrom(ps, t, i) < |ps| ==> ps[LeadingFrom(ps, t, i)].at > t
    decreases |ps| - i
  {
    if i < |ps| && ps[i].at <= t {
      LeadingFacts(ps, t, i + 1);
    }
  }

  function CurrentPoint(ps: seq<PricePoint>, t: int): Option<PricePoint> {
    var n := Leading(ps, t);
    if n == 0 then None else Some(ps[n - 1])
  }

  method CurrentPricePoint(ps: seq<PricePoint>, now: int) returns (r: Option<PricePoint>)
    ensures r == CurrentPoint(ps, now)
    ensures Increasing(ps) && r.Some? ==>
              r.value in ps && r.value.at <= now && forall p :: p in ps && p.at <= now ==> p.at <= r.value.at
    ensures Increasing(ps) && r.None? ==> forall p :: p in ps ==> p.at > now
  {
    r := None;
    var i := 0;
    while i < |ps|
      invariant 0 <= i <= |ps|
      invariant forall j :: 0 <= j < i ==> ps[j].at <= now
      invariant r == if i == 0 then None else Some(ps[i - 1])
    {
      if ps[i].at > now {
        break;
      }
      r := Some(ps[i]);
      i := i + 1;
    }
    LeadingFacts(ps, now, 0);
    assert i == Leading(ps, now);
  }

  function PriceAt(ps: seq<PricePoint>, t: int): real {
    match CurrentPoint(ps, t)
    case None => 0.0
    case Some(p) => p.price
  }

  /** The simple definition of cost: the price in force, summed over every second. */
  function TickSum(ps: seq<PricePoint>, a: int, b: int): real
    requires a <= b
    decreases b - a
  {
    if a == b then 0.0 else TickSum(ps, a, b - 1) + PriceAt(ps, b - 1)
  }

  lemma {:induction false} TickSumSplits(ps: seq<PricePoint>, a: int, b: int, c: int)
    requires a <= b <= c
    ensures TickSum(ps, a, c) == TickSum(ps, a, b) + TickSum(ps, b, c)
    decreases c - b
  {
    if b < c {
      TickSumSplits(ps, a, b, c - 1);
    }
  }

  lemma PriceInSlot(ps: seq<PricePoint>, i: nat, t: int)
    requires Increasing(ps) && i < |ps| && ps[i].at <= t && (i + 1 < |ps| ==> t < ps[i + 1].at)
    ensures CurrentPoint(ps, t) == Some(ps[i]) && PriceAt(ps, t) == ps[i].price
  {
    LeadingIs(ps, t, i + 1);
  }

  /** A price held for a number of seconds, added up second by second. */
  function Held(price: real, seconds: nat): real {
    if seconds == 0 then 0.0 else Held(price, seconds - 1) + price
  }

  lemma HeldOnce(price: real)
    ensures Held(price, 1) == price
  {
    assert Held(price, 0) == 0.0;
  }

  lemma {:induction false} HeldIsProduct(price: real, seconds: nat)
    ensures Held(price, seconds) == price * seconds as real
  {
    if seconds > 0 {
      HeldIsProduct(price, seconds - 1);
      OneMore(price, (seconds - 1) as real);
      assert seconds as real == (seconds - 1) as real + 1.0;
    }
  }

  lemma OneMore(x: real, y: real)
    ensures x * (y + 1.0) == x * y + x
  {
  }

  lemma {:induction false} SlotSum(ps: seq<PricePoint>, i: nat, a: int, b: int)
    requires Increasing(ps) && i + 1 < |ps| && ps[i].at <= a <= b <= ps[i + 1].at
    ensures TickSum(ps, a, b) == Held(ps[i].price, b - a)
    decreases b - a
  {
    if a < b {
      SlotSum(ps, i, a, b - 1);
      PriceInSlot(ps, i, b - 1);
    }
  }

  // ---- Scoring a start ----

  /** Rising points from index i on reach instant end. */
  predicate Reaches(ps: seq<PricePoint>, i: nat, end: int)
    requires i < |ps|
    decreases |ps| - i
  {
    i + 1 < |ps| && ps[i].at < ps[i + 1].at && (end <= ps[i + 1].at || Reaches(ps, i + 1, end))
  }

  /** A run of positive length dur from point i ends in time, and rising points reach its end. */
  predicate Fits(ps: seq<PricePoint>, i: nat, dur: int, windowEnd: int)
    requires i < |ps|
  {
    ps[i].at + dur <= windowEnd && Reaches(ps, i, ps[i].at + dur)
  }

  /** The cost from point i until t, slot by slot; slots that do not rise hold nothing. */
  ghost function Area(ps: seq<PricePoint>, i: nat, t: int): real
    requires i < |ps|
    decreases |ps| - i
  {
    if i + 1 < |ps| && ps[i + 1].at < t then Held(ps[i].price, Length(ps[i].at, ps[i + 1].at)) + Area(ps, i + 1, t)
    else Held(ps[i].price, Length(ps[i].at, t))
  }

  function Length(a: int, b: int): nat {
    if a < b then b - a else 0
  }

  /** What a run from point i costs in all, when that can be known. Without a duration it is the point's price. */
  ghost function Cost(ps: seq<PricePoint>, i: nat, dur: int, windowEnd: int): Option<real>
    requires i < |ps|
  {
    if dur <= 0 then (if ps[i].at <= windowEnd then Some(ps[i].price) else None)
    else if Fits(ps, i, dur, windowEnd) then Some(Area(ps, i, ps[i].at + dur))
    else None
  }

  /** The seconds a score is an average over; without a duration it is a bare price. */
  function Seconds(dur: int): (n: nat)
    ensures n > 0
  {
    if dur <= 0 then 1 else dur
  }

  /** The score is the constant price at which the run would cost the same. */
  method PricePointScore(ps: seq<PricePoint>, startIndex: nat, dur: int, windowEnd: int) returns (score: real, ok: bool)
    requires startIndex < |ps|
    ensures ok <==> Cost(ps, startIndex, dur, windowEnd).Some?
    ensures ok ==> Held(score, Seconds(dur)) == Cost(ps, startIndex, dur, windowEnd).value
    ensures dur <= 0 ==> (ok <==> ps[startIndex].at <= windowEnd) && (ok ==> score == ps[startIndex].price)
  {
    var start := ps[startIndex].at;
    if dur <= 0 {
      HeldOnce(ps[startIndex].price);
      return ps[startIndex].price, start <= windowEnd;
    }
    if start + dur > windowEnd {
      return 0.0, false;
    }
    var weighted;
    weighted, ok := Accumulate(ps, startIndex, dur, windowEnd);
    if !ok {
      return 0.0, false;
    }
    score := Average(weighted, dur);
  }

  /** The loop over the slots a run covers: price times span, until the duration is covered or the points give out. */
  method Accumulate(ps: seq<PricePoint>, startIndex: nat, dur: int, windowEnd: int) returns (weighted: real, ok: bool)
    requires startIndex < |ps| && dur > 0 && ps[startIndex].at + dur <= windowEnd
    ensures ok <==> Fits(ps, startIndex, dur, windowEnd)
    ensures ok ==> weighted == Area(ps, startIndex, ps[startIndex].at + dur)
  {
    var start := ps[startIndex].at;
    var end := start + dur;
    weighted := 0.0;
    var covered := 0;
    var i := startIndex;
    while i < |ps| && covered < dur
      invariant startIndex <= i <= |ps| && 0 <= covered <= dur
      invariant covered < dur ==> i < |ps| && ps[i].at == start + covered
      invariant covered < dur ==> Reaches(ps, i, end) == Reaches(ps, startIndex, end)
      invariant covered < dur ==> weighted + Area(ps, i, end) == Area(ps, startIndex, end)
      invariant covered == dur ==> Reaches(ps, startIndex, end) && weighted == Area(ps, startIndex, end)
    {
      var intervalStart := ps[i].at;
      if intervalStart > start + covered {
        return 0.0, false;
      }
      if i + 1 >= |ps| {
        return 0.0, false;
      }
      var intervalEnd := ps[i + 1].at;
      if intervalEnd > end {
        intervalEnd := end;
      }
      var span := intervalEnd - (start + covered);
      if span <= 0 {
        return 0.0, false;
      }
      var contribution := Weigh(ps[i].price, span);
      weighted := weighted + contribution;
      covered := covered + span;
      i := i + 1;
    }
    ok := covered == dur;
  }

  method Weigh(price: real, span: nat) returns (r: real)
    ensures r == Held(price, span)
  {
    HeldIsProduct(price, span);
    r := price * span as real;
  }

  method Average(total: real, dur: int) returns (score: real)
    requires dur > 0
    ensures Held(score, dur) == total
  {
    score := total / dur as real;
    HeldIsProduct(score, dur);
  }

  // ---- The score is the simple definition ----

  lemma {:induction false} AreaIsTickSum(ps: seq<PricePoint>, i: nat, t: int)
    requires Increasing(ps) && i < |ps| && ps[i].at <= t <= ps[|ps| - 1].at
    ensures Area(ps, i, t) == TickSum(ps, ps[i].at, t)
    decreases |ps| - i
  {
    if i + 1 < |ps| && ps[i + 1].at < t {
      AreaIsTickSum(ps, i + 1, t);
      SlotSum(ps, i, ps[i].at, ps[i + 1].at);
      TickSumSplits(ps, ps[i].at, ps[i + 1].at, t);
    } else if i + 1 < |ps| {
      SlotSum(ps, i, ps[i].at, t);
    }
  }

  /** On a strictly increasing list the points reach just the instants up to the last one. */
  lemma {:induction false} ReachesIff(ps: seq<PricePoint>, i: nat, end: int)
    requires Increasing(ps) && i < |ps| && ps[i].at < end
    ensures Reaches(ps, i, end) <==> end <= ps[|ps| - 1].at
    decreases |ps| - i
  {
    if i + 1 < |ps| && ps[i + 1].at < end {
      ReachesIff(ps, i + 1, end);
    }
  }

  /**
   * So a start scores exactly when its run ends within the window and no later than the last point, and then
   * score times duration is the price in force summed over every second of the run.
   */
  lemma CostIsTickSum(ps: seq<PricePoint>, i: nat, dur: int, windowEnd: int)
    requires Increasing(ps) && i < |ps| && dur > 0
    ensures Cost(ps, i, dur, windowEnd)
            == if ps[i].at + dur <= windowEnd && ps[i].at + dur <= ps[|ps| - 1].at
               then Some(TickSum(ps, ps[i].at, ps[i].at + dur)) else None
  {
    ReachesIff(ps, i, ps[i].at + dur);
    if ps[i].at + dur <= ps[|ps| - 1].at {
      AreaIsTickSum(ps, i, ps[i].at + dur);
    }
  }

  // ---- Lists in any order ----

  /** From point i on the points rise at least up to point e. */
  ghost predicate RisesTo(ps: seq<PricePoint>, i: nat, e: nat) {
    i < e < |ps| && Increasing(ps[i..e + 1])
  }

  lemma RisesOn(ps: seq<PricePoint>, i: nat, e: nat)
    requires RisesTo(ps, i, e)
    ensures ps[i].at < ps[i + 1].at && (i + 1 < e ==> RisesTo(ps, i + 1, e))
  {
    var q := ps[i..e + 1];
    assert q[0] == ps[i] && q[1] == ps[i + 1];
    if i + 1 < e {
      assert ps[i + 1..e + 1] == q[1..];
    }
  }

  lemma RisesFrom(ps: seq<PricePoint>, i: nat, e: nat)
    requires RisesTo(ps, i + 1, e) && ps[i].at < ps[i + 1].at
    ensures RisesTo(ps, i, e)
  {
    var p, q := ps[i + 1..e + 1], ps[i..e + 1];
    assert q == [ps[i]] + p && p[0] == ps[i + 1];
  }

  lemma {:induction false} RisingReaches(ps: seq<PricePoint>, i: nat, e: nat, end: int)
    requires RisesTo(ps, i, e) && end <= ps[e].at
    ensures Reaches(ps, i, end)
    decreases e - i
  {
    RisesOn(ps, i, e);
    if i + 1 < e {
      RisingReaches(ps, i + 1, e, end);
    }
  }

  lemma {:induction false} ReachingRises(ps: seq<PricePoint>, i: nat, end: int) returns (e: nat)
    requires i < |ps| && Reaches(ps, i, end)
    ensures RisesTo(ps, i, e) && end <= ps[e].at
    decreases |ps| - i
  {
    e := i + 1;
    assert ps[i..e + 1] == [ps[i], ps[i + 1]];
    if ps[i + 1].at < end {
      e := ReachingRises(ps, i + 1, end);
      RisesFrom(ps, i, e);
    }
  }

  /** Only the points up to the first one not before t matter. */
  lemma {:induction false} AreaIsLocal(ps: seq<PricePoint>, i: nat, qs: seq<PricePoint>, j: nat, m: nat, t: int)
    requires i + m < |ps| && j + m < |qs| && t <= ps[i + m].at
    requires forall k {:trigger ps[k]} :: i <= k <= i + m ==> ps[k] == qs[k + (j - i)]
    ensures ps[i] == qs[j] && (m > 0 ==> Area(ps, i, t) == Area(qs, j, t))
    decreases m
  {
    assert ps[i] == qs[i + (j - i)] && ps[i + m] == qs[i + m + (j - i)];
    if m > 0 {
      assert ps[i + 1] == qs[i + 1 + (j - i)];
      if m > 1 {
        AreaIsLocal(ps, i + 1, qs, j + 1, m - 1, t);
      }
    }
  }

  /**
   * On a list in any order a run can be scored if and only if it ends within the window and the points from its start
   * on rise up to one that is not before its end; it costs what the prices of those points add up to.
   */
  lemma CostInAnyOrder(ps: seq<PricePoint>, i: nat, dur: int, windowEnd: int)
    requires i < |ps| && dur > 0
    ensures var end := ps[i].at + dur;
            Cost(ps, i, dur, windowEnd).Some?
            <==> end <= windowEnd && exists e: nat :: RisesTo(ps, i, e) && end <= ps[e].at
  {
    if Reaches(ps, i, ps[i].at + dur) {
      var e := ReachingRises(ps, i, ps[i].at + dur);
    }
    forall e: nat | RisesTo(ps, i, e) && ps[i].at + dur <= ps[e].at
      ensures Reaches(ps, i, ps[i].at + dur)
    {
      RisingReaches(ps, i, e, ps[i].at + dur);
    }
  }

  lemma CostOfRisingPoints(ps: seq<PricePoint>, i: nat, dur: int, windowEnd: int, e: nat)
    requires dur > 0 && RisesTo(ps, i, e) && ps[i].at + dur <= ps[e].at && ps[i].at + dur <= windowEnd
    ensures Cost(ps, i, dur, windowEnd) == Some(TickSum(ps[i..e + 1], ps[i].at, ps[i].at + dur))
  {
    var qs := ps[i..e + 1];
    RisingReaches(ps, i, e, ps[i].at + dur);
    AreaIsLocal(ps, i, qs, 0, e - i, ps[i].at + dur);
    AreaIsTickSum(qs, 0, ps[i].at + dur);
  }

  /** qs is ps with slot i cut in two at instant t, both parts at the old price. */
  ghost predicate IsSplit(ps: seq<PricePoint>, qs: seq<PricePoint>, i: nat, t: int) {
    && i + 1 < |ps| && |qs| == |ps| + 1 && ps[i].at < t < ps[i + 1].at
    && (forall k {:trigger qs[k]} :: 0 <= k <= i ==> qs[k] == ps[k])
    && qs[i + 1] == PricePoint(t, ps[i].price)
    && (forall k {:trigger qs[k]} :: i + 2 <= k < |qs| ==> qs[k] == ps[k - 1])
  }

  lemma SplitKeepsPrices(ps: seq<PricePoint>, qs: seq<PricePoint>, i: nat, t: int, u: int)
    requires Increasing(ps) && Increasing(qs) && IsSplit(ps, qs, i, t)
    ensures PriceAt(qs, u) == PriceAt(ps, u)
  {
    LeadingFacts(ps, u, 0);
    LeadingIs(qs, u, if u < t then Leading(ps, u) else Leading(ps, u) + 1);
  }

  lemma LeadingIs(ps: seq<PricePoint>, t: int, n: nat)
    requires Increasing(ps) && n <= |ps| && (n > 0 ==> ps[n - 1].at <= t) && (n < |ps| ==> ps[n].at > t)
    ensures Leading(ps, t) == n
  {
    LeadingFacts(ps, t, 0);
  }

  lemma {:induction false} SplitKeepsSums(ps: seq<PricePoint>, qs: seq<PricePoint>, i: nat, t: int, a: int, b: int)
    requires Increasing(ps) && Increasing(qs) && IsSplit(ps, qs, i, t) && a <= b
    ensures TickSum(qs, a, b) == TickSum(ps, a, b)
    decreases b - a
  {
    if a < b {
      SplitKeepsSums(ps, qs, i, t, a, b - 1);
      SplitKeepsPrices(ps, qs, i, t, b - 1);
    }
  }

  /** Lists that agree on the start, the last instant and the prices of a run agree on its cost. */
  lemma SameCost(ps: seq<PricePoint>, k: nat, qs: seq<PricePoint>, j: nat, dur: int, windowEnd: int)
    requires Increasing(ps) && Increasing(qs) && k < |ps| && j < |qs| && dur > 0
    requires ps[k].at == qs[j].at && ps[|ps| - 1].at == qs[|qs| - 1].at
    requires TickSum(ps, ps[k].at, ps[k].at + dur) == TickSum(qs, ps[k].at, ps[k].at + dur)
    ensures Cost(ps, k, dur, windowEnd) == Cost(qs, j, dur, windowEnd)
  {
    CostIsTickSum(ps, k, dur, windowEnd);
    CostIsTickSum(qs, j, dur, windowEnd);
  }

  /** Splitting a slot into equal-priced parts changes no cost, and so no score. */
  lemma SplitKeepsCosts(ps: seq<PricePoint>, qs: seq<PricePoint>, i: nat, t: int, k: nat, j: nat, dur: int,
                        windowEnd: int)
    requires Increasing(ps) && Increasing(qs) && IsSplit(ps, qs, i, t) && k < |ps| && dur > 0
    requires j == if k <= i then k else k + 1
    ensures qs[j] == ps[k] && Cost(qs, j, dur, windowEnd) == Cost(ps, k, dur, windowEnd)
  {
    SplitKeepsSums(ps, qs, i, t, ps[k].at, ps[k].at + dur);
    SameCost(ps, k, qs, j, dur, windowEnd);
  }

  /** Comparing scores is comparing costs. */
  lemma {:induction false} CompareScores(x: real, y: real, seconds: nat)
    requires seconds > 0
    ensures Held(x, seconds) < Held(y, seconds) <==> x < y
  {
    if seconds == 1 {
      HeldOnce(x);
      HeldOnce(y);
    } else {
      CompareScores(x, y, seconds - 1);
    }
  }

  // ---- Selecting ----

  const LOWEST_PRICE := "LowestPrice"
  const HIGHEST_PRICE := "HighestPrice"

  datatype Selection = Selected(point: PricePoint) | NoPrices | UnsupportedStrategy | NothingFits

  predicate Better(highest: bool, x: real, y: real) {
    if highest then x > y else x < y
  }

  /** Point i scores, no other point scores better, and no earlier point scores as well. */
  ghost predicate IsBest(ps: seq<PricePoint>, highest: bool, dur: int, windowEnd: int, i: nat) {
    i < |ps| && Cost(ps, i, dur, windowEnd).Some?
    && BestUpTo(ps, highest, dur, windowEnd, |ps|, i, Cost(ps, i, dur, windowEnd).value)
  }

  ghost predicate NoneScores(ps: seq<PricePoint>, dur: int, windowEnd: int) {
    forall i :: 0 <= i < |ps| ==> Cost(ps, i, dur, windowEnd).None?
  }

  method SelectPricePoint(ps: seq<PricePoint>, strategy: string, dur: int, windowEnd: int)
    returns (r: Selection, ghost index: nat)
    ensures r.NoPrices? <==> ps == []
    ensures r.UnsupportedStrategy? <==> ps != [] && strategy !in {"", LOWEST_PRICE, HIGHEST_PRICE}
    ensures r.NothingFits? ==> NoneScores(ps, dur, windowEnd)
    ensures r.Selected? ==> IsBest(ps, strategy == HIGHEST_PRICE, dur, windowEnd, index) && r.point == ps[index]
    ensures dur <= 0 && r.NothingFits? ==> forall j :: 0 <= j < |ps| ==> ps[j].at > windowEnd
    ensures dur <= 0 && r.Selected? ==>
              && ps[index].at <= windowEnd
              && forall j :: 0 <= j < |ps| && ps[j].at <= windowEnd ==>
                   && (strategy == HIGHEST_PRICE ==>
                        ps[j].price <= r.point.price && (j < index ==> ps[j].price < r.point.price))
                   && (strategy != HIGHEST_PRICE ==>
                        ps[j].price >= r.point.price && (j < index ==> ps[j].price > r.point.price))
  {
    index := 0;
    if |ps| == 0 {
      return NoPrices, 0;
    }
    var chosen := if strategy == "" then LOWEST_PRICE else strategy;
    if chosen != LOWEST_PRICE && chosen != HIGHEST_PRICE {
      return UnsupportedStrategy, 0;
    }
    r, index := SelectScored(ps, strategy == HIGHEST_PRICE, dur, windowEnd);
    if dur <= 0 {
      assert forall j :: 0 <= j < |ps| ==> Cost(ps, j, dur, windowEnd)
                                           == if ps[j].at <= windowEnd then Some(ps[j].price) else None;
    }
  }

  /** The scan over all points; a later point must beat the selected one, not match it. */
  method SelectScored(ps: seq<PricePoint>, highest: bool, dur: int, windowEnd: int)
    returns (r: Selection, ghost index: nat)
    ensures r.NothingFits? || r.Selected?
    ensures r.NothingFits? ==> NoneScores(ps, dur, windowEnd)
    ensures r.Selected? ==> IsBest(ps, highest, dur, windowEnd, index) && r.point == ps[index]
  {
    index := 0;
    var selected := PricePoint(0, 0.0);
    var selectedScore := 0.0;
    var found := false;
    ghost var selectedCost := 0.0;
    for i := 0 to |ps|
      invariant found ==> Held(selectedScore, Seconds(dur)) == selectedCost
      invariant found ==> BestUpTo(ps, highest, dur, windowEnd, i, index, selectedCost) && selected == ps[index]
      invariant !found ==> forall j :: 0 <= j < i ==> Cost(ps, j, dur, windowEnd).None?
    {
      var score, ok := PricePointScore(ps, i, dur, windowEnd);
      if !ok {
        continue;
      }
      ghost var cost := Cost(ps, i, dur, windowEnd).value;
      if !found {
        selected, selectedScore, found := ps[i], score, true;
        index, selectedCost := i, cost;
        continue;
      }
      CompareScores(score, selectedScore, Seconds(dur));
      CompareScores(selectedScore, score, Seconds(dur));
      BestSoFar(ps, highest, dur, windowEnd, i, index, selectedCost, cost);
      if Better(highest, score, selectedScore) {
        selected, selectedScore := ps[i], score;
        index, selectedCost := i, cost;
      }
    }
    return if found then Selected(selected) else NothingFits, index;
  }

  /**
   * Among the first n points, the one at index i has the given cost and beats every other, ties going to the earlier.
   */
  ghost predicate BestUpTo(ps: seq<PricePoint>, highest: bool, dur: int, windowEnd: int, n: nat, i: nat, cost: real)
    requires n <= |ps|
  {
    && i < n && Cost(ps, i, dur, windowEnd) == Some(cost)
    && forall j :: 0 <= j < n && Cost(ps, j, dur, windowEnd).Some? ==>
         !Better(highest, Cost(ps, j, dur, windowEnd).value, cost)
         && (j < i ==> Better(highest, cost, Cost(ps, j, dur, windowEnd).value))
  }

  lemma BestSoFar(ps: seq<PricePoint>, highest: bool, dur: int, windowEnd: int, n: nat, i: nat, best: real, cost: real)
    requires n < |ps| && BestUpTo(ps, highest, dur, windowEnd, n, i, best) && Cost(ps, n, dur, windowEnd) == Some(cost)
    ensures if Better(highest, cost, best) then BestUpTo(ps, highest, dur, windowEnd, n + 1, n, cost)
            else BestUpTo(ps, highest, dur, windowEnd, n + 1, i, best)
  {
  }

  /** The selection is determined: there is at most one best point. */
  lemma BestIsUnique(ps: seq<PricePoint>, highest: bool, dur: int, windowEnd: int, i: nat, j: nat)
    requires IsBest(ps, highest, dur, windowEnd, i) && IsBest(ps, highest, dur, windowEnd, j)
    ensures i == j
  {
    assert Cost(ps, i, dur, windowEnd).Some? && Cost(ps, j, dur, windowEnd).Some?;
  }

  function Negated(ps: seq<PricePoint>): (qs: seq<PricePoint>)
    ensures |qs| == |ps| && forall i :: 0 <= i < |ps| ==> qs[i] == PricePoint(ps[i].at, -ps[i].price)
  {
    seq(|ps|, i requires 0 <= i < |ps| => PricePoint(ps[i].at, -ps[i].price))
  }

  lemma {:induction false} HeldNegates(price: real, seconds: nat)
    ensures Held(-price, seconds) == -Held(price, seconds)
  {
    if seconds > 0 {
      HeldNegates(price, seconds - 1);
    }
  }

  lemma {:induction false} AreaNegates(ps: seq<PricePoint>, i: nat, t: int)
    requires i < |ps|
    ensures Area(Negated(ps), i, t) == -Area(ps, i, t)
    decreases |ps| - i
  {
    if i + 1 < |ps| && ps[i + 1].at < t {
      HeldNegates(ps[i].price, Length(ps[i].at, ps[i + 1].at));
      AreaNegates(ps, i + 1, t);
    } else {
      HeldNegates(ps[i].price, Length(ps[i].at, t));
    }
  }

  lemma {:induction false} ReachesNegates(ps: seq<PricePoint>, i: nat, end: int)
    requires i < |ps|
    ensures Reaches(Negated(ps), i, end) == Reaches(ps, i, end)
    decreases |ps| - i
  {
    if i + 1 < |ps| {
      ReachesNegates(ps, i + 1, end);
    }
  }

  lemma CostNegates(ps: seq<PricePoint>, i: nat, dur: int, windowEnd: int)
    requires i < |ps|
    ensures Cost(Negated(ps), i, dur, windowEnd)
            == match Cost(ps, i, dur, windowEnd) case None => None case Some(x) => Some(-x)
  {
    ReachesNegates(ps, i, ps[i].at + dur);
    AreaNegates(ps, i, ps[i].at + dur);
  }

  /** HighestPrice is LowestPrice on negated prices. */
  lemma HighestIsLowestNegated(ps: seq<PricePoint>, dur: int, windowEnd: int, i: nat)
    ensures IsBest(ps, true, dur, windowEnd, i) <==> IsBest(Negated(ps), false, dur, windowEnd, i)
  {
    forall j | 0 <= j < |ps|
      ensures Cost(Negated(ps), j, dur, windowEnd)
              == match Cost(ps, j, dur, windowEnd) case None => None case Some(x) => Some(-x)
    {
      CostNegates(ps, j, dur, windowEnd);
    }
  }

  // ---- The window's points ----

  function InWindow(ps: seq<PricePoint>, earliest: int, latest: int): (r: seq<PricePoint>)
    ensures forall k :: 0 <= k < |r| ==> earliest <= r[k].at < latest
  {
    if ps == [] then []
    else
      var n := |ps| - 1;
      var r := InWindow(ps[..n], earliest, latest);
      if earliest <= ps[n].at < latest then r + [ps[n]] else r
  }

  lemma {:induction false} InWindowIff(ps: seq<PricePoint>, earliest: int, latest: int, p: PricePoint)
    ensures p in InWindow(ps, earliest, latest) <==> p in ps && earliest <= p.at < latest
  {
    if ps != [] {
      var n := |ps| - 1;
      InWindowIff(ps[..n], earliest, latest, p);
      assert ps == ps[..n] + [ps[n]];
    }
  }

  method FilterPricesInWindow(ps: seq<PricePoint>, earliest: int, latest: int) returns (r: seq<PricePoint>)
    ensures r == InWindow(ps, earliest, latest)
  {
    r := [];
    for i := 0 to |ps|
      invariant r == InWindow(ps[..i], earliest, latest)
    {
      assert ps[..i + 1][..i] == ps[..i];
      if !(ps[i].at < earliest) && ps[i].at < latest {
        r := r + [ps[i]];
      }
    }
    assert ps[..|ps|] == ps;
  }

  lemma {:induction false} WindowStaysIncreasing(ps: seq<PricePoint>, earliest: int, latest: int)
    requires Increasing(ps)
    ensures Increasing(InWindow(ps, earliest, latest))
    ensures ps != [] ==> forall k :: 0 <= k < |InWindow(ps, earliest, latest)| ==>
              InWindow(ps, earliest, latest)[k].at <= ps[|ps| - 1].at
  {
    if ps != [] {
      var n := |ps| - 1;
      WindowStaysIncreasing(ps[..n], earliest, latest);
      var q, r := InWindow(ps[..n], earliest, latest), InWindow(ps, earliest, latest);
      assert r == q || r == q + [ps[n]];
      assert n > 0 ==> ps[..n][n - 1].at < ps[n].at;
    }
  }

  /** On an increasing list wholly before end, a run scores if and only if it ends no later than the last point. */
  lemma ScoresBeforeIff(w: seq<PricePoint>, i: nat, dur: int, end: int)
    requires Increasing(w) && dur > 0 && i < |w| && forall k :: 0 <= k < |w| ==> w[k].at < end
    ensures Cost(w, i, dur, end).Some? <==> w[i].at + dur <= w[|w| - 1].at
  {
    CostIsTickSum(w, i, dur, end);
  }

  /**
   * The window's points do not include the one that closes its last slot. On an increasing list a run from a
   * window point scores if and only if it ends no later than the last point inside the window, hence strictly
   * before the window ends.
   */
  lemma ScoresInWindowIff(ps: seq<PricePoint>, open: int, end: int, i: nat, dur: int)
    requires Increasing(ps) && dur > 0 && i < |InWindow(ps, open, end)|
    ensures var w := InWindow(ps, open, end);
            && (Cost(w, i, dur, end).Some? <==> w[i].at + dur <= w[|w| - 1].at)
            && (Cost(w, i, dur, end).Some? ==> open <= w[i].at && w[i].at + dur < end)
  {
    var w := InWindow(ps, open, end);
    WindowStaysIncreasing(ps, open, end);
    ScoresBeforeIff(w, i, dur, end);
  }

  /** So a duration equal to the whole window, which the webhook admits, is never schedulable. */
  lemma FullWindowNeverFits(ps: seq<PricePoint>, open: int, end: int)
    requires Increasing(ps) && open < end
    ensures NoneScores(InWindow(ps, open, end), end - open, end)
  {
    var w, dur := InWindow(ps, open, end), end - open;
    forall i | 0 <= i < |w|
      ensures Cost(w, i, dur, end).None?
    {
      ScoresInWindowIff(ps, open, end, i, dur);
    }
  }
}
