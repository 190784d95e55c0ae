/** The cumulative depth chart: for each side, the points (price, total
    quantity from the best level down to this one), built from the
    published best-first order lists. */
module DepthChart {
  import opened Wrappers
  import opened Orders

  /** `Double.parseDouble` as a value: the number a text denotes, or None
      for the NumberFormatException. It is a platform routine, so the model
      takes it as a parameter. */
  type NumberReader = string -> Option<real>

  /** One chart point: a price and the cumulative quantity at it. */
  datatype Point = Point(price: real, cumulative: real)

  /** An order whose price and quantity both read as numbers. */
  datatype Quote = Quote(price: real, quantity: real)

  /** The numbers of an order; None when either text does not parse, which
      is the NumberFormatException that makes the loop skip the order. */
  function ReadOrder(parseDouble: NumberReader, o: Order): (r: Option<Quote>)
    ensures r.Some? <==> parseDouble(o.price).Some? && parseDouble(o.quantity).Some?
    ensures r.Some? ==> r.value == Quote(parseDouble(o.price).value, parseDouble(o.quantity).value)
  {
    var price := parseDouble(o.price);
    var quantity := parseDouble(o.quantity);
    if price.Some? && quantity.Some? then Some(Quote(price.value, quantity.value)) else None
  }

  /** Every order read, in list order. */
  function ReadOrders(parseDouble: NumberReader, orders: seq<Order>): (rs: seq<Option<Quote>>)
    ensures |rs| == |orders|
    ensures forall i :: 0 <= i < |orders| ==> rs[i] == ReadOrder(parseDouble, orders[i])
  {
    seq(|orders|, i requires 0 <= i < |orders| => ReadOrder(parseDouble, orders[i]))
  }

  /** Index j of `rs` holds a present entry. */
  predicate PresentAt(rs: seq<Option<Quote>>, j: int) {
    0 <= j < |rs| && rs[j].Some?
  }

  /** How many of the entries before index i are present. */
  function PresentBefore(rs: seq<Option<Quote>>, i: int): nat {
    |set j | 0 <= j < i && PresentAt(rs, j)|
  }

  /** The values present, in order. */
  function Present(rs: seq<Option<Quote>>): (qs: seq<Quote>)
  {
    if rs == [] then
      []
    else
      var front := rs[..|rs| - 1];
      match rs[|rs| - 1]
      case Some(q) => Present(front) + [q]
      case None => Present(front)
  }

  /** The readable orders, in list order. */
  function Readable(parseDouble: NumberReader, orders: seq<Order>): (qs: seq<Quote>)
  {
    Present(ReadOrders(parseDouble, orders))
  }

  /** Order j of the list reads. */
  predicate ReadableAt(parseDouble: NumberReader, orders: seq<Order>, j: int) {
    0 <= j < |orders| && ReadOrder(parseDouble, orders[j]).Some?
  }

  /** How many of the orders before index i are readable. */
  function ReadableBefore(parseDouble: NumberReader, orders: seq<Order>, i: int): nat {
    |set j | 0 <= j < i && ReadableAt(parseDouble, orders, j)|
  }

  /** Sum of the quantities. */
  function Total(qs: seq<Quote>): real
  {
    if qs == [] then 0.0 else Total(qs[..|qs| - 1]) + qs[|qs| - 1].quantity
  }

  predicate NonNegative(qs: seq<Quote>) {
    forall i :: 0 <= i < |qs| ==> qs[i].quantity >= 0.0
  }

  /** The running-total curve: point i carries quote i's price and the
      total of quotes 0..i. */
  function Curve(qs: seq<Quote>): (c: seq<Point>)
    ensures |c| == |qs|
  {
    if qs == [] then []
    else
      Curve(qs[..|qs| - 1]) + [Point(qs[|qs| - 1].price, Total(qs))]
  }

  function Reverse<T>(s: seq<T>): (r: seq<T>)
    ensures |r| == |s|
    ensures forall i :: 0 <= i < |s| ==> r[i] == s[|s| - 1 - i]
  {
    if s == [] then [] else Reverse(s[1..]) + [s[0]]
  }

  /** What the bid series holds after an update: the curve over the
      readable bids, last point first. */
  function BidDepth(parseDouble: NumberReader, bidOrders: seq<Order>): seq<Point>
  {
    Reverse(Curve(Readable(parseDouble, bidOrders)))
  }

  /** What the ask series holds after an update: the curve over the
      readable asks, in list order. */
  function AskDepth(parseDouble: NumberReader, askOrders: seq<Order>): seq<Point>
  {
    Curve(Readable(parseDouble, askOrders))
  }

  /** The two series of the chart. */
  class DepthChartView {
    var bidSeries: seq<Point>
    var askSeries: seq<Point>

    constructor()
      ensures bidSeries == [] && askSeries == []
    {
      bidSeries, askSeries := [], [];
    }

    /** Replaces the bid series by the reversed running-total curve of the
        readable bids. */
    method UpdateBidSeries(parseDouble: NumberReader, bidOrders: seq<Order>)
      modifies this
      ensures bidSeries == BidDepth(parseDouble, bidOrders)
      ensures askSeries == old(askSeries)
    {
      var bidData: seq<Point> := [];
      if |bidOrders| > 0 {
        var points := RunningTotals(parseDouble, bidOrders);
        var buffer := new Point[|points|](i requires 0 <= i < |points| => points[i]);
        ReverseInPlace(buffer);
        bidData := buffer[..];
      }
      bidSeries := bidData;
    }

    /** Replaces the ask series by the running-total curve of the readable
        asks. */
    method UpdateAskSeries(parseDouble: NumberReader, askOrders: seq<Order>)
      modifies this
      ensures askSeries == AskDepth(parseDouble, askOrders)
      ensures bidSeries == old(bidSeries)
    {
      var askData: seq<Point> := [];
      if |askOrders| > 0 {
        askData := RunningTotals(parseDouble, askOrders);
      }
      askSeries := askData;
    }

    /** Empties both series. */
    method Clear()
      modifies this
      ensures bidSeries == [] && askSeries == []
    {
      bidSeries, askSeries := [], [];
    }
  }

  /** The loop shared by both sides: walk the orders in list order, skip
      the unreadable ones, and append (price, running total) for the rest. */
  method RunningTotals(parseDouble: NumberReader, orders: seq<Order>) returns (data: seq<Point>)
    ensures data == Curve(Readable(parseDouble, orders))
  {
    data := [];
    var cumulativeSize := 0.0;
    ghost var rs := ReadOrders(parseDouble, orders);
    ghost var qs: seq<Quote> := [];
    for i := 0 to |orders|
      invariant qs == Present(rs[..i])
      invariant data == Curve(qs)
      invariant cumulativeSize == Total(qs)
    {
      var quote := ReadOrder(parseDouble, orders[i]);
      PresentSnoc(rs, i);
      assert quote == rs[i];
      if quote.Some? {
        CurveSnoc(qs, quote.value);
        cumulativeSize := cumulativeSize + quote.value.quantity;
        qs := qs + [quote.value];
        data := data + [Point(quote.value.price, cumulativeSize)];
      }
    }
    assert rs[..|orders|] == rs;
  }

  /** Reverses the points in place by swapping from both ends. */
  method ReverseInPlace(a: array<Point>)
    modifies a
    ensures a[..] == Reverse(old(a[..]))
  {
    var i := 0;
    while i < a.Length - 1 - i
      invariant 0 <= i <= a.Length - i
      invariant forall k :: 0 <= k < i ==> a[k] == old(a[a.Length - 1 - k]) && a[a.Length - 1 - k] == old(a[k])
      invariant forall k :: i <= k < a.Length - i ==> a[k] == old(a[k])
    {
      a[i], a[a.Length - 1 - i] := a[a.Length - 1 - i], a[i];
      i := i + 1;
    }
  }

  // ---------------------------------------------------------------------
  // Lemmas

  /** Counting one index further adds one exactly when that entry is
      present. */
  lemma PresentBeforeStep(rs: seq<Option<Quote>>, i: nat)
    requires i < |rs|
    ensures PresentBefore(rs, i + 1) == PresentBefore(rs, i) + (if rs[i].Some? then 1 else 0)
  {
    var below := set j | 0 <= j < i && PresentAt(rs, j);
    var upTo := set j | 0 <= j < i + 1 && PresentAt(rs, j);
    if rs[i].Some? {
      assert upTo == below + {i};
    } else {
      assert upTo == below;
    }
  }

  /** The count before index i does not look past i. */
  lemma PresentBeforePrefix(rs: seq<Option<Quote>>, k: nat, i: int)
    requires i <= k <= |rs|
    ensures PresentBefore(rs[..k], i) == PresentBefore(rs, i)
  {
    assert (set j | 0 <= j < i && PresentAt(rs[..k], j)) == (set j | 0 <= j < i && PresentAt(rs, j));
  }

  lemma ReadableBeforeIsPresentBefore(parseDouble: NumberReader, orders: seq<Order>, i: int)
    ensures ReadableBefore(parseDouble, orders, i) == PresentBefore(ReadOrders(parseDouble, orders), i)
  {
    var rs := ReadOrders(parseDouble, orders);
    assert (set j | 0 <= j < i && ReadableAt(parseDouble, orders, j)) == (set j | 0 <= j < i && PresentAt(rs, j));
  }

  /** There is one present value per present entry. */
  lemma {:induction false} PresentCount(rs: seq<Option<Quote>>)
    ensures |Present(rs)| == PresentBefore(rs, |rs|)
  {
    if rs == [] {
      assert (set j | 0 <= j < 0 && PresentAt(rs, j)) == {};
    } else {
      var front := rs[..|rs| - 1];
      PresentCount(front);
      PresentBeforeStep(rs, |rs| - 1);
      PresentBeforePrefix(rs, |front|, |front|);
    }
  }

  /** Each present entry's value sits in the present values at the number
      of present entries before it; with PresentCount this fixes every
      value and its order. */
  lemma {:induction false} PresentPositions(rs: seq<Option<Quote>>)
    ensures forall i :: 0 <= i < |rs| && rs[i].Some? ==>
              PresentBefore(rs, i) < |Present(rs)| && Present(rs)[PresentBefore(rs, i)] == rs[i].value
  {
    if rs != [] {
      var front := rs[..|rs| - 1];
      var qs := Present(rs);
      PresentPositions(front);
      PresentCount(front);
      assert qs[..|Present(front)|] == Present(front);
      forall i | 0 <= i < |rs| && rs[i].Some?
        ensures PresentBefore(rs, i) < |qs| && qs[PresentBefore(rs, i)] == rs[i].value
      {
        PresentBeforePrefix(rs, |front|, i);
        if i < |front| {
          assert front[i] == rs[i];
        }
      }
    }
  }

  /** There is one quote per readable order, and each readable order's
      numbers sit at the number of readable orders before it: the series
      keeps every readable order, in list order, and nothing else. */
  lemma ReadablePositions(parseDouble: NumberReader, orders: seq<Order>)
    ensures |Readable(parseDouble, orders)| == ReadableBefore(parseDouble, orders, |orders|)
    ensures forall i :: 0 <= i < |orders| && ReadOrder(parseDouble, orders[i]).Some? ==>
              ReadableBefore(parseDouble, orders, i) < |Readable(parseDouble, orders)| &&
              Readable(parseDouble, orders)[ReadableBefore(parseDouble, orders, i)] == ReadOrder(parseDouble, orders[i]).value
  {
    var rs := ReadOrders(parseDouble, orders);
    PresentCount(rs);
    PresentPositions(rs);
    ReadableBeforeIsPresentBefore(parseDouble, orders, |orders|);
    forall i | 0 <= i < |orders| ensures ReadableBefore(parseDouble, orders, i) == PresentBefore(rs, i) {
      ReadableBeforeIsPresentBefore(parseDouble, orders, i);
    }
  }

  /** One more entry read: it joins the present values exactly when it is
      present. */
  lemma PresentSnoc(rs: seq<Option<Quote>>, i: nat)
    requires i < |rs|
    ensures Present(rs[..i + 1]) == Present(rs[..i]) + (if rs[i].Some? then [rs[i].value] else [])
  {
    assert rs[..i + 1][..i] == rs[..i];
  }

  /** One more quote extends the curve by one point at the new total. */
  lemma CurveSnoc(qs: seq<Quote>, q: Quote)
    ensures Total(qs + [q]) == Total(qs) + q.quantity
    ensures Curve(qs + [q]) == Curve(qs) + [Point(q.price, Total(qs) + q.quantity)]
  {
    assert (qs + [q])[..|qs|] == qs;
  }

  /** Point i of the curve carries quote i's price and the total of quotes
      0..i. */
  lemma {:induction false} CurvePoints(qs: seq<Quote>)
    ensures forall i :: 0 <= i < |qs| ==> Curve(qs)[i] == Point(qs[i].price, Total(qs[..i + 1]))
  {
    if qs != [] {
      var front := qs[..|qs| - 1];
      CurvePoints(front);
      assert forall k :: 0 < k <= |front| ==> front[..k] == qs[..k];
      assert qs[..|qs|] == qs;
    }
  }

  /** No more quotes than entries, and as many exactly when every entry is
      present. */
  lemma {:induction false} PresentLength(rs: seq<Option<Quote>>)
    ensures |Present(rs)| <= |rs|
    ensures |Present(rs)| == |rs| <==> forall i :: 0 <= i < |rs| ==> rs[i].Some?
  {
    if rs != [] {
      var front := rs[..|rs| - 1];
      PresentLength(front);
      assert forall i :: 0 <= i < |front| ==> front[i] == rs[i];
    }
  }

  /** As many readable orders as orders exactly when every order reads. */
  lemma ReadableLength(parseDouble: NumberReader, orders: seq<Order>)
    ensures |Readable(parseDouble, orders)| <= |orders|
    ensures |Readable(parseDouble, orders)| == |orders| <==>
              forall i :: 0 <= i < |orders| ==> ReadOrder(parseDouble, orders[i]).Some?
  {
    PresentLength(ReadOrders(parseDouble, orders));
  }

  /** With non-negative quantities, a longer prefix never has a smaller total. */
  lemma {:induction false} TotalGrows(qs: seq<Quote>, i: nat, j: nat)
    requires NonNegative(qs) && i <= j <= |qs|
    ensures Total(qs[..i]) <= Total(qs[..j])
    decreases j - i
  {
    if i < j {
      TotalGrows(qs, i, j - 1);
      assert qs[..j][..j - 1] == qs[..j - 1];
    }
  }

  /** With non-negative quantities the running totals never decrease, never
      go below zero, and the last one is the sum of all the quantities. */
  lemma CurveShape(qs: seq<Quote>)
    requires NonNegative(qs)
    ensures var c := Curve(qs);
            && (forall i, j :: 0 <= i <= j < |c| ==> 0.0 <= c[i].cumulative <= c[j].cumulative)
            && (|c| > 0 ==> c[|c| - 1].cumulative == Total(qs))
  {
    var c := Curve(qs);
    CurvePoints(qs);
    assert qs[..0] == [];
    forall i, j | 0 <= i <= j < |c|
      ensures 0.0 <= c[i].cumulative <= c[j].cumulative
    {
      assert c[i].cumulative == Total(qs[..i + 1]);
      assert c[j].cumulative == Total(qs[..j + 1]);
      TotalGrows(qs, 0, i + 1);
      TotalGrows(qs, i + 1, j + 1);
    }
    if |c| > 0 {
      assert qs[..|qs|] == qs;
    }
  }

  /** The bid series, read left to right, ends at the best bid: its
      cumulative quantities never increase, and when the bids arrive best
      (highest) first its prices strictly increase. */
  lemma BidDepthAscends(parseDouble: NumberReader, bidOrders: seq<Order>)
    requires NonNegative(Readable(parseDouble, bidOrders))
    ensures var qs, d := Readable(parseDouble, bidOrders), BidDepth(parseDouble, bidOrders);
            && |d| == |qs|
            && (forall i, j :: 0 <= i <= j < |d| ==> d[i].cumulative >= d[j].cumulative)
            && ((forall i, j :: 0 <= i < j < |qs| ==> qs[i].price > qs[j].price) ==>
                  forall i, j :: 0 <= i < j < |d| ==> d[i].price < d[j].price)
  {
    CurveShape(Readable(parseDouble, bidOrders));
    CurvePoints(Readable(parseDouble, bidOrders));
  }

}
