/**
 * The option chain of one underlying (Option.h / Option.cpp): a ladder of
 * strikes around the rounded spot, and one call and one put quote per
 * strike from the PSOR pricer.
 */
module OptionChain {
  import opened CMath
  import opened AmericanPsor

  /** Rungs the ladder starts with (`chainLength = 51`). */
  const ChainLength: int := 51
  /** First rung index (`stepStart = 1`). */
  const FirstRung: int := 1
  /** `minStrike`: the lowest strike the shrink loop aims for. */
  const MinStrike: real := 5.0
  /** `minStep`: the step of the lowest price bracket. */
  const MinStep: real := 0.5
  /** The risk-free rate every quote of the chain is priced with. */
  const RiskFreeRate: real := 0.05

  // ---------------------------------------------------------------------
  // The strike ladder
  // ---------------------------------------------------------------------

  /**
   * Strike of rung i of a ladder of `length` rungs around `center`:
   * `currStrike + i*step - int((chainLength/2)*step)`, the C++ int
   * division and the truncating conversion written out. The truncation
   * lifts the rung by less than 1 above center + (i - chainLength/2)*step.
   */
  function Rung(center: real, i: int, length: int, step: real): (k: real)
    ensures 0 <= length && 0.0 <= step ==>
      0.0 <= k - (center + i as real * step - Half(length) as real * step) < 1.0
  {
    center + i as real * step - Trunc(Half(length) as real * step) as real
  }

  /** The next rung is exactly one step higher. */
  lemma RungNext(center: real, i: int, length: int, step: real)
    ensures Rung(center, i + 1, length, step) == Rung(center, i, length, step) + step
  {
    assert (i + 1) as real * step == i as real * step + step;
  }

  /** Rungs of a ladder with a positive step strictly increase with their index. */
  lemma RungIncreasing(center: real, i: int, j: int, length: int, step: real)
    requires i < j && step > 0.0
    ensures Rung(center, i, length, step) < Rung(center, j, length, step)
  {
    MulPos((j - i) as real, step);
    assert j as real * step - i as real * step == (j - i) as real * step;
  }

  /** Twice the distance of the lowest rung below 5, rounded down: the shrink loop's variant. */
  function ShrinkGap(center: real, length: int, start: int): int
  {
    (2.0 * (MinStrike - Rung(center, start, length, MinStep))).Floor
  }

  /** A value at least half higher and still below 5 has a strictly smaller gap, and the old gap is not negative. */
  lemma GapShrinks(a: real, b: real)
    requires a < MinStrike && b >= a + MinStep
    ensures 0 <= (2.0 * (MinStrike - a)).Floor
    ensures (2.0 * (MinStrike - b)).Floor < (2.0 * (MinStrike - a)).Floor
  {
    var x := 2.0 * (MinStrike - a);
    var y := 2.0 * (MinStrike - b);
    assert y <= x - 1.0;
    assert y.Floor as real <= y && x < x.Floor as real + 1.0;
  }

  /**
   * One pass of the shrink loop raises the lowest rung by at least half a
   * step: stepStart grows by one and `int((chainLength/2)*0.5)` cannot grow.
   */
  lemma ShrinkProgress(center: real, length: int, start: int)
    ensures Rung(center, start + 1, length - 1, MinStep) >= Rung(center, start, length, MinStep) + MinStep
    ensures Rung(center, start, length, MinStep) < MinStrike ==>
      0 <= ShrinkGap(center, length, start) &&
      ShrinkGap(center, length - 1, start + 1) < ShrinkGap(center, length, start)
  {
    HalfMonotone(length - 1, length);
    var h, h' := Half(length) as real * MinStep, Half(length - 1) as real * MinStep;
    assert h' <= h;
    TruncMonotone(h', h);
    assert (start + 1) as real * MinStep == start as real * MinStep + MinStep;
    var a, b := Rung(center, start, length, MinStep), Rung(center, start + 1, length - 1, MinStep);
    assert b >= a + MinStep;
    if a < MinStrike {
      GapShrinks(a, b);
    }
  }

  /**
   * The counters the shrink loop leaves: while the lowest rung is below 5,
   * stepStart goes up by one and chainLength down by one. Both counters
   * move by the same number of passes, stepStart never moves down, and the
   * loop stops with the lowest rung at 5 or above.
   */
  function Shrink(center: real, length: int, start: int): (r: (int, int))
    ensures r.0 + r.1 == length + start && r.1 >= start
    ensures Rung(center, r.1, r.0, MinStep) >= MinStrike
    decreases if Rung(center, start, length, MinStep) < MinStrike then ShrinkGap(center, length, start) + 1 else 0
  {
    if Rung(center, start, length, MinStep) < MinStrike then
      ShrinkProgress(center, length, start);
      Shrink(center, length - 1, start + 1)
    else
      (length, start)
  }

  /**
   * The shrink loop stops at the first stepStart whose rung reaches 5:
   * every stepStart it passes over had its rung below 5.
   */
  lemma {:induction false} ShrinkStopsFirst(center: real, length: int, start: int, s: int)
    requires start <= s < Shrink(center, length, start).1
    ensures Rung(center, s, length + start - s, MinStep) < MinStrike
    decreases if Rung(center, start, length, MinStep) < MinStrike then ShrinkGap(center, length, start) + 1 else 0
  {
    ShrinkProgress(center, length, start);
    if s == start {
      assert length + start - s == length;
    } else {
      ShrinkStopsFirst(center, length - 1, start + 1, s);
      assert (length - 1) + (start + 1) - s == length + start - s;
    }
  }

  /** The step and the counters `setStrikeStep` leaves behind. */
  datatype Ladder = Ladder(step: real, length: int, start: int)

  /**
   * `setStrikeStep` on a rounded spot and the counters passed by reference:
   * the step comes from the price bracket, and only the lowest bracket at
   * 17.5 or below shrinks the ladder.
   */
  function LadderFor(center: real, length: int, start: int): (lad: Ladder)
    ensures lad.step == 5.0 <==> center >= 135.0
    ensures lad.step == 2.5 <==> 72.5 <= center < 135.0
    ensures lad.step == 1.0 <==> 35.0 <= center < 72.5
    ensures lad.step == MinStep <==> center < 35.0
    ensures !(lad.step == MinStep && center <= 17.5) ==> lad.length == length && lad.start == start
  {
    if center - 130.0 >= MinStrike then Ladder(5.0, length, start)
    else if center - 67.5 >= MinStrike then Ladder(2.5, length, start)
    else if center - 30.0 >= MinStrike then Ladder(1.0, length, start)
    else if center <= 17.5 then
      var r := Shrink(center, length, start);
      Ladder(MinStep, r.0, r.1)
    else Ladder(MinStep, length, start)
  }

  /**
   * Strikes for rung indices start..length, in order (none when start >
   * length): the first is rung `start`, the last rung `length`, and each
   * lies one step above the one before.
   */
  function Rungs(center: real, lad: Ladder): (s: seq<real>)
    ensures |s| == if lad.start <= lad.length then lad.length - lad.start + 1 else 0
    ensures |s| > 0 ==> s[0] == Rung(center, lad.start, lad.length, lad.step) &&
                        s[|s| - 1] == Rung(center, lad.length, lad.length, lad.step)
    ensures forall k :: 0 <= k < |s| - 1 ==> s[k + 1] == s[k] + lad.step
  {
    var s := seq(if lad.start <= lad.length then lad.length - lad.start + 1 else 0,
                 k => Rung(center, lad.start + k, lad.length, lad.step));
    RungsStep(center, lad, s);
    s
  }

  /** A run of consecutive rungs climbs by the step from one to the next. */
  lemma RungsStep(center: real, lad: Ladder, s: seq<real>)
    requires forall k :: 0 <= k < |s| ==> s[k] == Rung(center, lad.start + k, lad.length, lad.step)
    ensures forall k :: 0 <= k < |s| - 1 ==> s[k + 1] == s[k] + lad.step
  {
    forall k | 0 <= k < |s| - 1
      ensures s[k + 1] == s[k] + lad.step
    {
      RungNext(center, lad.start + k, lad.length, lad.step);
    }
  }

  /**
   * The strikes `setStrikeChain` generates for a spot: never more than 51,
   * and none below 5.
   */
  function StrikeChain(stockPrice: real): (s: seq<real>)
    ensures |s| <= ChainLength
    ensures forall k :: 0 <= k < |s| ==> s[k] >= MinStrike
  {
    var center := NearbyInt(stockPrice) as real;
    StartLadderCounters(center);
    LadderAboveFloor(center);
    Rungs(center, LadderFor(center, ChainLength, FirstRung))
  }

  /** The ladder that starts from 51 rungs keeps stepStart + chainLength = 52 and stepStart >= 1. */
  lemma StartLadderCounters(center: real)
    ensures LadderFor(center, ChainLength, FirstRung).length + LadderFor(center, ChainLength, FirstRung).start
         == ChainLength + FirstRung
    ensures LadderFor(center, ChainLength, FirstRung).start >= FirstRung
  {
  }

  /**
   * A chain has exactly 51 strikes when the shrink loop did not move
   * stepStart, which is always the case above 17.5.
   */
  lemma ChainLengthBound(stockPrice: real)
    ensures LadderFor(NearbyInt(stockPrice) as real, ChainLength, FirstRung).start == FirstRung
            ==> |StrikeChain(stockPrice)| == ChainLength
    ensures NearbyInt(stockPrice) as real > 17.5 ==> |StrikeChain(stockPrice)| == ChainLength
  {
    StartLadderCounters(NearbyInt(stockPrice) as real);
  }

  /** Consecutive strikes differ by exactly the step, which is positive, so the chain strictly increases. */
  lemma ChainIncreasing(stockPrice: real)
    ensures var center := NearbyInt(stockPrice) as real;
            var lad := LadderFor(center, ChainLength, FirstRung);
            var s := StrikeChain(stockPrice);
            lad.step > 0.0 &&
            (forall k :: 0 <= k < |s| - 1 ==> s[k + 1] == s[k] + lad.step) &&
            (forall i, j :: 0 <= i < j < |s| ==> s[i] < s[j])
  {
    var center := NearbyInt(stockPrice) as real;
    var lad := LadderFor(center, ChainLength, FirstRung);
    var s := StrikeChain(stockPrice);
    forall i, j | 0 <= i < j < |s|
      ensures s[i] < s[j]
    {
      RungIncreasing(center, lad.start + i, lad.start + j, lad.length, lad.step);
    }
  }

  /**
   * The lowest strike of every chain is at least 5: the shrink loop stops
   * there, and the other brackets start well above it.
   */
  lemma LowestStrikeAboveFloor(center: real)
    ensures var lad := LadderFor(center, ChainLength, FirstRung);
            Rung(center, lad.start, lad.length, lad.step) >= MinStrike
  {
    var lad := LadderFor(center, ChainLength, FirstRung);
    assert Half(ChainLength) == 25;
    if lad.step == MinStep && center <= 17.5 {
    } else if lad.step == MinStep {
      assert Trunc(12.5) == 12;
    } else if lad.step == 1.0 {
      assert Trunc(25.0) == 25;
    } else if lad.step == 2.5 {
      assert Trunc(62.5) == 62;
    } else {
      assert Trunc(125.0) == 125;
    }
  }

  /** Every strike of the ladder around a rounded spot is at least 5. */
  lemma LadderAboveFloor(center: real)
    ensures var s := Rungs(center, LadderFor(center, ChainLength, FirstRung));
            forall k :: 0 <= k < |s| ==> s[k] >= MinStrike
  {
    var lad := LadderFor(center, ChainLength, FirstRung);
    var s := Rungs(center, lad);
    LowestStrikeAboveFloor(center);
    forall k | 0 < k < |s|
      ensures s[k] >= MinStrike
    {
      RungIncreasing(center, lad.start, lad.start + k, lad.length, lad.step);
    }
  }

  // ---------------------------------------------------------------------
  // Quotes along the chain
  // ---------------------------------------------------------------------

  /** One guarded quote per strike, in strike order, at the chain's rate. */
  function ChainQuotes(strikes: seq<real>, S: real, T: real, isCall: bool, exp: real -> real): (q: seq<Quote>)
    ensures |q| == |strikes|
  {
    if |strikes| == 0 then []
    else ChainQuotes(strikes[..|strikes| - 1], S, T, isCall, exp)
         + [QuoteSpec(S, T, strikes[|strikes| - 1], RiskFreeRate, isCall, exp)]
  }

  /** Quote k of the chain is the guarded price at strike k. */
  lemma {:induction false} ChainQuoteAt(strikes: seq<real>, S: real, T: real, isCall: bool, exp: real -> real)
    ensures forall k :: 0 <= k < |strikes| ==>
      ChainQuotes(strikes, S, T, isCall, exp)[k] == QuoteSpec(S, T, strikes[k], RiskFreeRate, isCall, exp)
  {
    if |strikes| > 0 {
      var init := strikes[..|strikes| - 1];
      ChainQuoteAt(init, S, T, isCall, exp);
      var q := ChainQuotes(strikes, S, T, isCall, exp);
      assert q == ChainQuotes(init, S, T, isCall, exp)
                  + [QuoteSpec(S, T, strikes[|strikes| - 1], RiskFreeRate, isCall, exp)];
      forall k | 0 <= k < |strikes|
        ensures q[k] == QuoteSpec(S, T, strikes[k], RiskFreeRate, isCall, exp)
      {
        if k < |init| {
          assert init[k] == strikes[k];
        }
      }
    }
  }

  /** Every priced quote of a chain respects the American lower bound at its strike. */
  lemma ChainAboveIntrinsic(stockPrice: real, T: real, isCall: bool, exp: real -> real)
    requires stockPrice >= 0.0
    ensures var s := StrikeChain(stockPrice);
            var q := ChainQuotes(s, stockPrice, T, isCall, exp);
            forall k :: 0 <= k < |s| && q[k].Priced? ==> q[k].value >= Intrinsic(stockPrice, s[k], isCall)
  {
    var s := StrikeChain(stockPrice);
    ChainQuoteAt(s, stockPrice, T, isCall, exp);
    forall k | 0 <= k < |s|
      ensures var q := QuoteSpec(stockPrice, T, s[k], RiskFreeRate, isCall, exp);
              q.Priced? ==> q.value >= Intrinsic(stockPrice, s[k], isCall)
    {
      QuoteAboveIntrinsic(stockPrice, T, s[k], RiskFreeRate, isCall, exp);
    }
  }

  /** With a positive expiry, a strike of the chain gets a price exactly when the spot is below twice that strike. */
  lemma ChainPricedIff(stockPrice: real, T: real, isCall: bool, exp: real -> real)
    requires stockPrice >= 0.0 && T > 0.0
    ensures var s := StrikeChain(stockPrice);
            var q := ChainQuotes(s, stockPrice, T, isCall, exp);
            forall k :: 0 <= k < |s| ==> (q[k].Priced? <==> stockPrice < 2.0 * s[k])
  {
    var s := StrikeChain(stockPrice);
    ChainQuoteAt(s, stockPrice, T, isCall, exp);
    forall k | 0 <= k < |s|
      ensures QuoteSpec(stockPrice, T, s[k], RiskFreeRate, isCall, exp).Priced? <==> stockPrice < 2.0 * s[k]
    {
      QuotePricedIff(stockPrice, T, s[k], RiskFreeRate, isCall, exp);
    }
  }

  /**
   * At a spot of 199 the ladder runs from 79 to 329 in steps of 5, and the
   * lowest strike puts the spot at grid index 125 of a 101-node layer: the
   * unguarded `priceAmericanPSOR` would read v(125) and v(126).
   */
  lemma OffGridStrike(T: real, r: real)
    ensures |StrikeChain(199.0)| == ChainLength
    ensures StrikeChain(199.0)[0] == 79.0 && StrikeChain(199.0)[ChainLength - 1] == 329.0
    ensures Trunc(199.0 / GridStep(79.0)) == 125 && !OnGrid(199.0, 79.0) && !Solvable(199.0, T, 79.0, r)
  {
    assert NearbyInt(199.0) == 199;
    var lad := LadderFor(199.0, ChainLength, FirstRung);
    assert lad == Ladder(5.0, ChainLength, FirstRung);
    assert Half(ChainLength) == 25 && Trunc(125.0) == 125;
    var s := StrikeChain(199.0);
    assert s == Rungs(199.0, lad);
    assert s[0] == Rung(199.0, 1, ChainLength, 5.0) == 79.0;
    assert s[ChainLength - 1] == Rung(199.0, ChainLength, ChainLength, 5.0) == 329.0;
    assert GridStep(79.0) == 1.58;
    assert 125.0 * 1.58 <= 199.0 < 126.0 * 1.58;
    DivMonotone(125.0 * 1.58, 199.0, 1.58);
    DivMonotone(199.0, 126.0 * 1.58, 1.58);
    DivCancel(125.0, 1.58);
    DivCancel(126.0, 1.58);
  }

  // ---------------------------------------------------------------------
  // The Option class
  // ---------------------------------------------------------------------

  /** Appending to an empty chain gives the appended elements. */
  lemma EmptyPrefix<T>(s: seq<T>)
    ensures [] + s == s
  {
  }

  /** One row of `getOptionChain`, in the order the code pushes it: put, strike, call. */
  datatype Straddle = Straddle(put: Quote, strike: real, call: Quote)

  class Option {
    const symbol: string
    const stockPrice: real
    const daysToExp: real
    const volatility: real
    /** The exponential the pricer discounts with. */
    const exp: real -> real
    var strikeChain: seq<real>
    var callChain: seq<Quote>
    var putChain: seq<Quote>

    /** The three chains run in parallel: one call and one put per strike. */
    predicate Valid()
      reads this
    {
      |callChain| == |strikeChain| && |putChain| == |strikeChain|
    }

    /** Builds the strike chain, then the calls, then the puts. */
    constructor (sym: string, stockPr: real, dte: real, vol: real, exp: real -> real)
      ensures symbol == sym && stockPrice == stockPr && daysToExp == dte && volatility == vol && this.exp == exp
      ensures strikeChain == StrikeChain(stockPr)
      ensures callChain == ChainQuotes(strikeChain, stockPr, dte, true, exp)
      ensures putChain == ChainQuotes(strikeChain, stockPr, dte, false, exp)
      ensures Valid()
    {
      symbol := sym;
      stockPrice := stockPr;
      daysToExp := dte;
      volatility := vol;
      this.exp := exp;
      strikeChain := [];
      callChain := [];
      putChain := [];
      new;
      SetStrikeChain();
      ghost var strikes := StrikeChain(stockPr);
      EmptyPrefix(strikes);
      SetCallChain();
      ghost var calls := ChainQuotes(strikes, stockPr, dte, true, exp);
      EmptyPrefix(calls);
      SetPutChain();
      ghost var puts := ChainQuotes(strikes, stockPr, dte, false, exp);
      EmptyPrefix(puts);
    }

    method GetSymbol() returns (s: string)
      ensures s == symbol
    {
      s := symbol;
    }

    method GetStockPrice() returns (p: real)
      ensures p == stockPrice
    {
      p := stockPrice;
    }

    method GetDTE() returns (d: real)
      ensures d == daysToExp
    {
      d := daysToExp;
    }

    method GetVolatility() returns (v: real)
      ensures v == volatility
    {
      v := volatility;
    }

    method AddStrike(strike: real)
      modifies this
      ensures strikeChain == old(strikeChain) + [strike]
      ensures callChain == old(callChain) && putChain == old(putChain)
    {
      strikeChain := strikeChain + [strike];
    }

    method AddCall(callPrice: Quote)
      modifies this
      ensures callChain == old(callChain) + [callPrice]
      ensures strikeChain == old(strikeChain) && putChain == old(putChain)
    {
      callChain := callChain + [callPrice];
    }

    method AddPut(putPrice: Quote)
      modifies this
      ensures putChain == old(putChain) + [putPrice]
      ensures strikeChain == old(strikeChain) && callChain == old(callChain)
    {
      putChain := putChain + [putPrice];
    }

    method GetStrikeChain() returns (s: seq<real>)
      ensures s == strikeChain
    {
      s := strikeChain;
    }

    method GetCallChain() returns (s: seq<Quote>)
      ensures s == callChain
    {
      s := callChain;
    }

    method GetPutChain() returns (s: seq<Quote>)
      ensures s == putChain
    {
      s := putChain;
    }

    /**
     * `setStrikeStep`: the step for a rounded spot; in the lowest bracket at
     * 17.5 or below, the by-reference counters are moved until the lowest
     * rung reaches 5.
     */
    static method SetStrikeStep(currStrike: real, chainLength: int, stepStart: int)
      returns (strikeStep: real, newLength: int, newStart: int)
      ensures Ladder(strikeStep, newLength, newStart) == LadderFor(currStrike, chainLength, stepStart)
    {
      newLength, newStart := chainLength, stepStart;
      if currStrike - 130.0 >= MinStrike {
        strikeStep := 5.0;
      } else if currStrike - 67.5 >= MinStrike {
        strikeStep := 2.5;
      } else if currStrike - 30.0 >= MinStrike {
        strikeStep := 1.0;
      } else {
        strikeStep := MinStep;
        if currStrike <= 17.5 {
          while Rung(currStrike, newStart, newLength, strikeStep) < 5.0
            invariant Shrink(currStrike, newLength, newStart) == Shrink(currStrike, chainLength, stepStart)
            decreases ShrinkGap(currStrike, newLength, newStart)
          {
            ShrinkProgress(currStrike, newLength, newStart);
            newStart := newStart + 1;
            newLength := newLength - 1;
          }
        }
      }
    }

    /** `setStrikeChain`: appends the strikes of rungs stepStart..chainLength around the rounded spot. */
    method SetStrikeChain()
      modifies this
      ensures strikeChain == old(strikeChain) + StrikeChain(stockPrice)
      ensures callChain == old(callChain) && putChain == old(putChain)
    {
      var currStrike := NearbyInt(stockPrice) as real;
      var chainLength := ChainLength;
      var stepStart := FirstRung;
      var strikeStep;
      strikeStep, chainLength, stepStart := SetStrikeStep(currStrike, chainLength, stepStart);
      ghost var strikes := Rungs(currStrike, Ladder(strikeStep, chainLength, stepStart));
      var i := stepStart;
      while i <= chainLength
        invariant stepStart <= i && i - stepStart <= |strikes|
        invariant stepStart <= chainLength ==> i <= chainLength + 1
        invariant strikeChain == old(strikeChain) + strikes[..i - stepStart]
        invariant callChain == old(callChain) && putChain == old(putChain)
        decreases chainLength - i
      {
        AddStrike(Rung(currStrike, i, chainLength, strikeStep));
        assert strikes[..i + 1 - stepStart] == strikes[..i - stepStart] + [strikes[i - stepStart]];
        i := i + 1;
      }
      assert strikes[..i - stepStart] == strikes;
    }

    /** `setCallChain`: appends one call quote per strike, in strike order. */
    method SetCallChain()
      modifies this
      ensures callChain == old(callChain) + ChainQuotes(strikeChain, stockPrice, daysToExp, true, exp)
      ensures strikeChain == old(strikeChain) && putChain == old(putChain)
    {
      var strikes := GetStrikeChain();
      for k := 0 to |strikes|
        invariant callChain == old(callChain) + ChainQuotes(strikes[..k], stockPrice, daysToExp, true, exp)
        invariant strikeChain == old(strikeChain) && putChain == old(putChain)
      {
        var q := GuardedPrice(stockPrice, daysToExp, volatility, strikes[k], RiskFreeRate, true, exp);
        AddCall(q);
        assert strikes[..k + 1][..k] == strikes[..k];
      }
      assert strikes[..|strikes|] == strikes;
    }

    /** `setPutChain`: appends one put quote per strike, in strike order. */
    method SetPutChain()
      modifies this
      ensures putChain == old(putChain) + ChainQuotes(strikeChain, stockPrice, daysToExp, false, exp)
      ensures strikeChain == old(strikeChain) && callChain == old(callChain)
    {
      var strikes := GetStrikeChain();
      for k := 0 to |strikes|
        invariant putChain == old(putChain) + ChainQuotes(strikes[..k], stockPrice, daysToExp, false, exp)
        invariant strikeChain == old(strikeChain) && callChain == old(callChain)
      {
        var q := GuardedPrice(stockPrice, daysToExp, volatility, strikes[k], RiskFreeRate, false, exp);
        AddPut(q);
        assert strikes[..k + 1][..k] == strikes[..k];
      }
      assert strikes[..|strikes|] == strikes;
    }

    /** `getOptionChain`: one row per strike, in strike order, as (put, strike, call). */
    method GetOptionChain() returns (rows: seq<Straddle>)
      requires Valid()
      ensures |rows| == |strikeChain|
      ensures forall k :: 0 <= k < |rows| ==>
        rows[k].put == putChain[k] && rows[k].strike == strikeChain[k] && rows[k].call == callChain[k]
    {
      rows := [];
      for i := 0 to |strikeChain|
        invariant |rows| == i
        invariant forall k :: 0 <= k < i ==>
          rows[k].put == putChain[k] && rows[k].strike == strikeChain[k] && rows[k].call == callChain[k]
      {
        var putPrice := putChain[i];
        var strike := strikeChain[i];
        var callPrice := callChain[i];
        rows := rows + [Straddle(putPrice, strike, callPrice)];
      }
    }
  }
}
