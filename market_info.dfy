/** The market summary panel: best bid and ask read from the heads of the
    published order lists, and the mid price, spread, spread percentage and
    spread class derived from them. */
module MarketInfo {
  import opened Wrappers
  import opened Decimal
  import opened Orders

  /** What a value label shows: the placeholder "--" or a number (the
      currency and percent formatting is presentation only). */
  datatype Display = Dashes | Shows(value: real)

  /** The style class the spread percentage label carries. */
  datatype SpreadClass = Tight | Normal | Wide

  /** The derived values of one update: not computed (a side is not
      positive), failed (the mid price rounded to zero and the percentage
      division threw), or fully computed. */
  datatype Derived =
    | Hidden
    | Failed(mid: real, spread: real)
    | Computed(mid: real, spread: real, percent: real, style: SpreadClass)

  const Cent: real := 0.01
  const PercentUnit: real := 0.000001

  lemma CentIsPow10()
    ensures Pow10(-2) == Cent
  {
    assert Pow10(-1) == 0.1;
  }

  lemma PercentUnitIsPow10()
    ensures Pow10(-6) == PercentUnit
  {
    assert Pow10(-1) == 0.1;
    assert Pow10(-2) == 0.01;
    assert Pow10(-3) == 0.001;
    assert Pow10(-4) == 0.0001;
    assert Pow10(-5) == 0.00001;
  }

  /** The best price of a best-first order list: zero when the list is
      empty, otherwise the head's price text read as a decimal; None is the
      NumberFormatException of an unreadable head. */
  function HeadPrice(orders: seq<Order>): (r: Option<real>)
    ensures |orders| == 0 ==> r == Some(0.0)
    ensures |orders| > 0 ==> r == Parse(orders[0].price)
  {
    if |orders| == 0 then Some(0.0) else Parse(orders[0].price)
  }

  /** The best bid and best ask labels show their price only when it is
      strictly positive. */
  function PriceLabel(price: real): (d: Display)
    ensures d.Shows? <==> price > 0.0
    ensures d.Shows? ==> d.value == price
  {
    if price > 0.0 then Shows(price) else Dashes
  }

  /** (bid + ask) / 2 to two decimal places, ties away from zero. */
  function MidPrice(bid: real, ask: real): (m: real)
    ensures IsIntegral(m / Cent)
    ensures bid + ask >= 0.0 ==> m >= 0.0 && -0.005 < m - (bid + ask) / 2.0 <= 0.005
  {
    CentIsPow10();
    RoundHalfUp((bid + ask) / 2.0, 2)
  }

  /** spread / mid to six decimal places, ties away from zero; None when the
      mid price is zero, where the division throws. */
  function SpreadPercent(spread: real, mid: real): (r: Option<real>)
    ensures r.None? <==> mid == 0.0
    ensures r.Some? ==> IsIntegral(r.value / PercentUnit)
    ensures r.Some? && spread / mid >= 0.0 ==> -0.0000005 < r.value - spread / mid <= 0.0000005
    ensures r.Some? && spread / mid <= 0.0 ==> -0.0000005 <= r.value - spread / mid < 0.0000005
    ensures r.Some? && mid > 0.0 && spread <= 0.0 ==> r.value <= 0.0
    ensures r.Some? && mid > 0.0 && spread >= 0.0 ==> r.value >= 0.0
  {
    if mid == 0.0 then None
    else
      var q := spread / mid;
      PercentUnitIsPow10();
      QuotientSign(spread, mid);
      Some(RoundHalfUp(q, 6))
  }

  lemma QuotientSign(n: real, d: real)
    ensures d > 0.0 && n <= 0.0 ==> n / d <= 0.0
    ensures d > 0.0 && n >= 0.0 ==> n / d >= 0.0
  {
    if d > 0.0 {
      Cancel(n, d);
    }
  }

  /** Below 0.1% the spread is tight, below 0.5% normal, otherwise wide. */
  function Classify(percent: real): (c: SpreadClass)
    ensures c == Tight <==> percent < 0.001
    ensures c == Normal <==> 0.001 <= percent < 0.005
    ensures c == Wide <==> 0.005 <= percent
  {
    if percent < 0.001 then Tight else if percent < 0.005 then Normal else Wide
  }

  function Rank(c: SpreadClass): nat {
    match c
    case Tight => 0
    case Normal => 1
    case Wide => 2
  }

  /** The mid price, spread and spread percentage of one update. */
  function Derive(bid: real, ask: real): (d: Derived)
    ensures d.Hidden? <==> !(bid > 0.0 && ask > 0.0)
    ensures d.Failed? <==> bid > 0.0 && ask > 0.0 && bid + ask < 0.01
    ensures !d.Hidden? ==> d.spread == ask - bid
    ensures !d.Hidden? ==> IsIntegral(d.mid / Cent) && -0.005 < d.mid - (bid + ask) / 2.0 <= 0.005
    ensures d.Computed? ==> d.mid > 0.0 && d.style == Classify(d.percent)
    ensures d.Computed? ==> SpreadPercent(d.spread, d.mid) == Some(d.percent)
    ensures d.Computed? ==> IsIntegral(d.percent / PercentUnit)
    ensures d.Computed? && d.spread >= 0.0 ==> -0.0000005 < d.percent - d.spread / d.mid <= 0.0000005
    ensures d.Computed? && d.spread <= 0.0 ==> -0.0000005 <= d.percent - d.spread / d.mid < 0.0000005
  {
    if bid > 0.0 && ask > 0.0 then
      var mid := MidPrice(bid, ask);
      var spread := ask - bid;
      MidRoundsToZero(bid, ask);
      match SpreadPercent(spread, mid)
      case None => Failed(mid, spread)
      case Some(p) => Computed(mid, spread, p, Classify(p))
    else
      Hidden
  }

  /** The label state and remembered best prices of the panel. */
  class MarketInfoWidget {
    var currentBestBid: real
    var currentBestAsk: real
    var bestBidLabel: Display
    var bestAskLabel: Display
    var midPriceLabel: Display
    var spreadLabel: Display
    var spreadPercentLabel: Display
    var spreadStyle: Option<SpreadClass>

    constructor()
      ensures currentBestBid == 0.0 && currentBestAsk == 0.0
      ensures bestBidLabel == Dashes && bestAskLabel == Dashes
      ensures midPriceLabel == Dashes && spreadLabel == Dashes && spreadPercentLabel == Dashes
      ensures spreadStyle == None
    {
      currentBestBid, currentBestAsk := 0.0, 0.0;
      bestBidLabel, bestAskLabel := Dashes, Dashes;
      midPriceLabel, spreadLabel, spreadPercentLabel := Dashes, Dashes, Dashes;
      spreadStyle := None;
    }

    /** Refreshes the panel from the heads of the two published lists. An
        unreadable head price throws before anything changes; a mid price
        of zero throws after the price, mid and spread labels are set, so
        the percentage label, its style and the remembered prices keep
        their old values. */
    method UpdateMarketInfo(bidOrders: seq<Order>, askOrders: seq<Order>)
      modifies this
      ensures HeadPrice(bidOrders).None? || HeadPrice(askOrders).None? ==> unchanged(this)
      ensures HeadPrice(bidOrders).Some? && HeadPrice(askOrders).Some? ==>
        var bid, ask := HeadPrice(bidOrders).value, HeadPrice(askOrders).value;
        var d := Derive(bid, ask);
        && bestBidLabel == PriceLabel(bid) && bestAskLabel == PriceLabel(ask)
        && midPriceLabel == (if d.Hidden? then Dashes else Shows(d.mid))
        && spreadLabel == (if d.Hidden? then Dashes else Shows(d.spread))
        && spreadPercentLabel == (match d
                                  case Hidden => Dashes
                                  case Failed(_, _) => old(spreadPercentLabel)
                                  case Computed(_, _, p, _) => Shows(p))
        && spreadStyle == (if d.Computed? then Some(d.style) else old(spreadStyle))
        && (d.Failed? ==> currentBestBid == old(currentBestBid) && currentBestAsk == old(currentBestAsk))
        && (!d.Failed? ==> currentBestBid == bid && currentBestAsk == ask)
    {
      var newBestBid := HeadPrice(bidOrders);
      var newBestAsk := HeadPrice(askOrders);
      if newBestBid.None? || newBestAsk.None? {
        return;
      }
      bestBidLabel := PriceLabel(newBestBid.value);
      bestAskLabel := PriceLabel(newBestAsk.value);
      var completed := UpdateDerivedValues(newBestBid.value, newBestAsk.value);
      if completed {
        currentBestBid, currentBestAsk := newBestBid.value, newBestAsk.value;
      }
    }

    /** Sets the mid, spread and percentage labels; `completed` is false
        when the percentage division throws. */
    method UpdateDerivedValues(bid: real, ask: real) returns (completed: bool)
      modifies this
      ensures completed <==> !Derive(bid, ask).Failed?
      ensures currentBestBid == old(currentBestBid) && currentBestAsk == old(currentBestAsk)
      ensures bestBidLabel == old(bestBidLabel) && bestAskLabel == old(bestAskLabel)
      ensures var d := Derive(bid, ask);
        && midPriceLabel == (if d.Hidden? then Dashes else Shows(d.mid))
        && spreadLabel == (if d.Hidden? then Dashes else Shows(d.spread))
        && spreadPercentLabel == (match d
                                  case Hidden => Dashes
                                  case Failed(_, _) => old(spreadPercentLabel)
                                  case Computed(_, _, p, _) => Shows(p))
        && spreadStyle == (if d.Computed? then Some(d.style) else old(spreadStyle))
    {
      if bid > 0.0 && ask > 0.0 {
        var midPrice := MidPrice(bid, ask);
        midPriceLabel := Shows(midPrice);
        var spread := ask - bid;
        spreadLabel := Shows(spread);
        var spreadPercent := SpreadPercent(spread, midPrice);
        if spreadPercent.None? {
          return false;
        }
        spreadPercentLabel := Shows(spreadPercent.value);
        spreadStyle := Some(Classify(spreadPercent.value));
      } else {
        midPriceLabel, spreadLabel, spreadPercentLabel := Dashes, Dashes, Dashes;
      }
      return true;
    }

    /** Puts every value label back to "--" and forgets the best prices;
        the spread style is left as it is. */
    method Clear()
      modifies this
      ensures bestBidLabel == Dashes && bestAskLabel == Dashes
      ensures midPriceLabel == Dashes && spreadLabel == Dashes && spreadPercentLabel == Dashes
      ensures currentBestBid == 0.0 && currentBestAsk == 0.0
      ensures spreadStyle == old(spreadStyle)
    {
      bestBidLabel, bestAskLabel := Dashes, Dashes;
      midPriceLabel, spreadLabel, spreadPercentLabel := Dashes, Dashes, Dashes;
      currentBestBid, currentBestAsk := 0.0, 0.0;
    }
  }

  // ---------------------------------------------------------------------
  // Lemmas

  /** With both sides positive, the mid price rounds to zero exactly when
      the two prices add up to less than one cent. */
  lemma MidRoundsToZero(bid: real, ask: real)
    requires bid > 0.0 && ask > 0.0
    ensures MidPrice(bid, ask) == 0.0 <==> bid + ask < 0.01
  {
    var m := MidPrice(bid, ask);
    if bid + ask < 0.01 {
      var k := (m / Cent).Floor;
      assert k as real == m / Cent;
      assert 0 <= k < 1;
    }
  }

  /** A crossed or locked book (ask not above bid) with a non-zero mid
      price is always classed as tight. */
  lemma CrossedBookIsTight(bid: real, ask: real)
    requires bid > 0.0 && ask > 0.0 && ask <= bid && bid + ask >= 0.01
    ensures Derive(bid, ask).Computed? && Derive(bid, ask).style == Tight
  {
    var d := Derive(bid, ask);
    assert d.mid == MidPrice(bid, ask);
    assert SpreadPercent(d.spread, d.mid) == Some(d.percent);
  }

  /** A wider (or equal) spread percentage never gets a tighter class. */
  lemma ClassifyMonotone(p: real, q: real)
    requires p <= q
    ensures Rank(Classify(p)) <= Rank(Classify(q))
  {
  }

  lemma DigitsSnoc(s: string, c: char)
    ensures DigitsValue(s + [c]) == 10 * DigitsValue(s) + DigitValue(c)
  {
    assert (s + [c])[..|s|] == s;
  }

  lemma DigitsTenThousand()
    ensures DigitsValue("100" + "00") == 10000
  {
    DigitsSnoc("1000", '0');
    DigitsSnoc("100", '0');
    DigitsSnoc("10", '0');
    DigitsSnoc("1", '0');
    DigitsSnoc("", '1');
    assert "1000" + ['0'] == "10000" == "100" + "00";
    assert "100" + ['0'] == "1000";
    assert "10" + ['0'] == "100";
    assert "1" + ['0'] == "10";
    assert "" + ['1'] == "1";
  }

  lemma DigitsTenThousandFifty()
    ensures DigitsValue("100" + "50") == 10050
  {
    DigitsSnoc("1005", '0');
    DigitsSnoc("100", '5');
    DigitsSnoc("10", '0');
    DigitsSnoc("1", '0');
    DigitsSnoc("", '1');
    assert "1005" + ['0'] == "10050" == "100" + "50";
    assert "100" + ['5'] == "1005";
    assert "10" + ['0'] == "100";
    assert "1" + ['0'] == "10";
    assert "" + ['1'] == "1";
  }

  lemma ParseHundredParts()
    ensures Parse("100" + "." + "00") == Some(100.0)
  {
    DigitsTenThousand();
    CentsValue(DigitsValue("100" + "00") as real, "00", 100.0);
    ParseCents("100", "00", 100.0);
  }

  lemma ParseHundred()
    ensures Parse("100.00") == Some(100.0)
  {
    ParseHundredParts();
    assert "100" + "." + "00" == "100.00";
  }

  lemma ParseHundredAndHalfParts()
    ensures Parse("100" + "." + "50") == Some(100.5)
  {
    DigitsTenThousandFifty();
    CentsValue(DigitsValue("100" + "50") as real, "50", 100.5);
    ParseCents("100", "50", 100.5);
  }

  /** A plain numeral with two decimals reads as its digits in hundredths. */
  lemma ParseCents(whole: string, cents: string, x: real)
    requires |whole| > 0 && AllDigits(whole) && AllDigits(cents) && |cents| == 2
    requires DigitsValue(whole + cents) as real * Pow10(-|cents|) == x
    ensures Parse(whole + "." + cents) == Some(x)
  {
    ParsePlainDecimal(whole, cents);
  }

  /** A count of hundredths scaled by 10^-2. */
  lemma CentsValue(units: real, cents: string, x: real)
    requires |cents| == 2 && units == x * 100.0
    ensures units * Pow10(-|cents|) == x
  {
    CentIsPow10();
    assert Pow10(-|cents|) == Cent;
  }

  lemma ParseHundredAndHalf()
    ensures Parse("100.50") == Some(100.5)
  {
    ParseHundredAndHalfParts();
    assert "100" + "." + "50" == "100.50";
  }

  /** A sample book (bids 100.00 and 99.50, ask 100.50) gives a mid price
      of 100.25, a spread of 0.50 and a spread percentage of 0.4988%,
      classed normal. */
  lemma ExampleBook()
    ensures HeadPrice([Order("100.00", "1.5"), Order("99.50", "2.0")]) == Some(100.0)
    ensures HeadPrice([Order("100.50", "1.0")]) == Some(100.5)
    ensures Derive(100.0, 100.5) == Computed(100.25, 0.5, 0.004988, Normal)
  {
    ParseHundred();
    ParseHundredAndHalf();
    ExampleMid();
    ExamplePercent();
  }

  lemma ExampleMid()
    ensures MidPrice(100.0, 100.5) == 100.25
  {
    CentIsPow10();
    assert HalfUp(100.25 / 0.01) == 10025;
  }

  lemma ExamplePercent()
    ensures SpreadPercent(0.5, 100.25) == Some(0.004988)
  {
    PercentUnitIsPow10();
    assert HalfUp(0.5 / 100.25 / 0.000001) == 4988;
  }
}
