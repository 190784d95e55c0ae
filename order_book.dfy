/** The live order book: two price-keyed sides changed in place by diff
    messages, with the best level of each side and a top-of-book snapshot. */
module OrderBook {
  import opened Wrappers
  import Decimal

  /** The two sides of the book. The bid side lists its highest price
      first, the ask side its lowest. */
  datatype Side = Bid | Ask

  /** `a` comes before `b` in the listing order of `side`. */
  predicate Better(side: Side, a: real, b: real) {
    if side == Bid then a > b else a < b
  }

  /** One price level: a numeric price and the quantity text stored for it. */
  datatype Level = Level(price: real, quantity: string)

  /** What the book publishes after a message: the best level of each side
      (None is shown as "-") and the first `SnapshotDepth` levels of each. */
  datatype Snapshot = Snapshot(bestBid: Option<Level>, bestAsk: Option<Level>,
                               topBids: seq<Level>, topAsks: seq<Level>)

  /** The number of levels per side in the published table. */
  const SnapshotDepth: nat := 10

  /** The two quantity spellings that delete a level; any other text,
      including "0.0", is stored as it is. */
  predicate IsRemoval(quantity: string) {
    quantity == "0.00000000" || quantity == "0"
  }

  // ---------------------------------------------------------------------
  // Applying diff entries

  /** One decoded entry: the numeric price and the quantity text. */
  datatype Entry = Entry(price: real, quantity: string)

  /** Reads one entry `[price, quantity, ...]`: the price must be a decimal
      numeral and a quantity must follow it. */
  function ParseEntry(raw: seq<string>): (r: Option<Entry>)
    ensures r.Some? <==> |raw| >= 2 && Decimal.Parse(raw[0]).Some?
    ensures r.Some? ==> r.value == Entry(Decimal.Parse(raw[0]).value, raw[1])
  {
    if |raw| == 0 then None
    else match Decimal.Parse(raw[0])
      case None => None
      case Some(price) => if |raw| < 2 then None else Some(Entry(price, raw[1]))
  }

  /** Every entry of a list read on its own. */
  function ParseEntries(raws: seq<seq<string>>): (ps: seq<Option<Entry>>)
    ensures |ps| == |raws|
    ensures forall i :: 0 <= i < |raws| ==> ps[i] == ParseEntry(raws[i])
  {
    seq(|raws|, i requires 0 <= i < |raws| => ParseEntry(raws[i]))
  }

  /** Every entry of the list parses. */
  predicate Parses(raws: seq<seq<string>>) {
    forall i :: 0 <= i < |raws| ==> ParseEntry(raws[i]).Some?
  }

  /** The entries read before the first one that fails. */
  function Prefix(ps: seq<Option<Entry>>): (es: seq<Entry>)
    ensures |es| <= |ps|
    ensures forall i :: 0 <= i < |es| ==> ps[i] == Some(es[i])
    ensures |es| < |ps| ==> ps[|es|].None?
    decreases |ps|
  {
    if |ps| == 0 || ps[0].None? then []
    else
      var rest := Prefix(ps[1..]);
      assert forall i :: 0 < i < |ps| ==> ps[i] == ps[1..][i - 1];
      [ps[0].value] + rest
  }

  /** The entries of a list that are applied: those before the first one
      that does not parse, which ends the message. */
  function Applicable(raws: seq<seq<string>>): (es: seq<Entry>)
    ensures |es| <= |raws|
    ensures |es| == |raws| <==> Parses(raws)
    ensures forall i :: 0 <= i < |es| ==> ParseEntry(raws[i]) == Some(es[i])
    ensures |es| < |raws| ==> ParseEntry(raws[|es|]).None?
  {
    var ps := ParseEntries(raws);
    var es := Prefix(ps);
    assert Parses(raws) ==> |es| == |raws| by {
      if |es| < |raws| {
        assert ps[|es|].None?;
      }
    }
    es
  }

  /** The effect of one entry on a side: a removal quantity deletes the
      price, any other quantity is stored there, and no other level moves. */
  function ApplyEntry(side: map<real, string>, e: Entry): (r: map<real, string>)
    ensures IsRemoval(e.quantity) ==> e.price !in r
    ensures !IsRemoval(e.quantity) ==> e.price in r && r[e.price] == e.quantity
    ensures forall p :: p != e.price ==> (p in r <==> p in side)
    ensures forall p :: p != e.price && p in r ==> r[p] == side[p]
  {
    if IsRemoval(e.quantity) then side - {e.price} else side[e.price := e.quantity]
  }

  /** Entries applied one after another, in list order. */
  function ApplyAll(side: map<real, string>, es: seq<Entry>): (r: map<real, string>)
    ensures r.Keys <= side.Keys + EntryPrices(es)
    decreases |es|
  {
    if |es| == 0 then side
    else
      var r := ApplyAll(ApplyEntry(side, es[0]), es[1..]);
      EntryPricesSplit(es);
      r
  }

  /** Applying the entries from `i` on is applying entry `i`, then the rest. */
  lemma ApplyAllStep(side: map<real, string>, es: seq<Entry>, i: nat)
    requires i < |es|
    ensures ApplyAll(side, es[i..]) == ApplyAll(ApplyEntry(side, es[i]), es[i + 1..])
  {
    assert es[i..][1..] == es[i + 1..];
  }

  /** The prices a run of entries names. */
  function EntryPrices(es: seq<Entry>): set<real> {
    set i | 0 <= i < |es| :: es[i].price
  }

  lemma EntryPricesSplit(es: seq<Entry>)
    requires |es| > 0
    ensures EntryPrices(es) == {es[0].price} + EntryPrices(es[1..])
  {
    forall p | p in EntryPrices(es) ensures p in {es[0].price} + EntryPrices(es[1..]) {
      var i :| 0 <= i < |es| && es[i].price == p;
      if i > 0 { assert es[1..][i - 1] == es[i]; }
    }
    forall p | p in EntryPrices(es[1..]) ensures p in EntryPrices(es) {
      var i :| 0 <= i < |es[1..]| && es[1..][i].price == p;
      assert es[i + 1].price == p;
    }
  }

  // ---------------------------------------------------------------------
  // The net effect of a batch

  /** The status one quantity leaves at its price: Some(quantity) for a
      stored level, None for a removed one. */
  function Status(quantity: string): (s: Option<string>)
    ensures s.None? <==> IsRemoval(quantity)
    ensures s.Some? ==> s.value == quantity
  {
    if IsRemoval(quantity) then None else Some(quantity)
  }

  /** What a run of entries leaves at each price it touches; it does not
      depend on the side the entries are applied to. */
  function Effect(es: seq<Entry>): (effect: map<real, Option<string>>)
    ensures forall p :: p in effect <==> exists i :: 0 <= i < |es| && es[i].price == p
    decreases |es|
  {
    if |es| == 0 then map[]
    else
      var later := Effect(es[1..]);
      assert forall i :: 0 < i < |es| ==> es[i] == es[1..][i - 1];
      if es[0].price in later then later else later[es[0].price := Status(es[0].quantity)]
  }

  /** A side overlaid with a net effect. */
  function Merge(side: map<real, string>, effect: map<real, Option<string>>): (r: map<real, string>)
    ensures forall p :: p in effect ==> (p in r <==> effect[p].Some?)
    ensures forall p :: p in effect && p in r ==> r[p] == effect[p].value
    ensures forall p :: p !in effect ==> (p in r <==> p in side)
    ensures forall p :: p !in effect && p in r ==> r[p] == side[p]
  {
    map p | p in side.Keys + effect.Keys && (p in effect ==> effect[p].Some?)
      :: if p in effect then effect[p].value else side[p]
  }

  /** Two sides with the same levels are the same side. */
  lemma SameLevels(a: map<real, string>, b: map<real, string>)
    requires forall p :: p in a <==> p in b
    requires forall p :: p in a ==> a[p] == b[p]
    ensures a == b
  {
    forall p ensures p in a.Keys <==> p in b.Keys {
    }
    assert a.Keys == b.Keys;
    forall p | p in a.Keys ensures a[p] == b[p] {
    }
  }

  /** A run of entries does to any side exactly what its net effect says. */
  lemma {:induction false} ApplyAllIsMerge(side: map<real, string>, es: seq<Entry>)
    ensures ApplyAll(side, es) == Merge(side, Effect(es))
    decreases |es|
  {
    if |es| == 0 {
      SameLevels(side, Merge(side, map[]));
    } else {
      var next := ApplyEntry(side, es[0]);
      ApplyAllIsMerge(next, es[1..]);
      var later := Effect(es[1..]);
      var effect := Effect(es);
      var a, b := Merge(next, later), Merge(side, effect);
      forall p ensures (p in a <==> p in b) && (p in a ==> a[p] == b[p]) {
        if p in later {
        } else if p == es[0].price {
        } else {
        }
      }
      SameLevels(a, b);
    }
  }

  /** Applying the same run of entries a second time changes nothing: it
      writes the same statuses again. */
  lemma ApplyAllIdempotent(side: map<real, string>, es: seq<Entry>)
    ensures ApplyAll(ApplyAll(side, es), es) == ApplyAll(side, es)
  {
    ApplyAllIsMerge(side, es);
    ApplyAllIsMerge(ApplyAll(side, es), es);
    var effect := Effect(es);
    SameLevels(Merge(Merge(side, effect), effect), Merge(side, effect));
  }

  /** The last entry for a price decides what the price holds afterwards. */
  lemma {:induction false} LastEntryWins(es: seq<Entry>, j: nat)
    requires j < |es|
    requires forall i :: j < i < |es| ==> es[i].price != es[j].price
    ensures es[j].price in Effect(es) && Effect(es)[es[j].price] == Status(es[j].quantity)
    decreases |es|
  {
    if j == 0 {
      assert forall i :: 0 <= i < |es| - 1 ==> es[1..][i] == es[i + 1];
      assert es[j].price !in Effect(es[1..]);
    } else {
      assert es[1..][j - 1] == es[j];
      assert forall i :: j - 1 < i < |es| - 1 ==> es[1..][i] == es[i + 1];
      LastEntryWins(es[1..], j - 1);
    }
  }

  /** A price that no entry mentions keeps its level. */
  lemma UntouchedPrice(side: map<real, string>, es: seq<Entry>, price: real)
    requires forall i :: 0 <= i < |es| ==> es[i].price != price
    ensures price in ApplyAll(side, es) <==> price in side
    ensures price in side ==> ApplyAll(side, es)[price] == side[price]
  {
    ApplyAllIsMerge(side, es);
  }

  /** Storing a level and then sending the removal for its price leaves the
      side as it was, when the price was not there before. */
  lemma InsertThenRemove(side: map<real, string>, price: real, quantity: string)
    requires price !in side && !IsRemoval(quantity)
    ensures ApplyEntry(ApplyEntry(side, Entry(price, quantity)), Entry(price, "0")) == side
  {
    var r := ApplyEntry(ApplyEntry(side, Entry(price, quantity)), Entry(price, "0"));
    SameLevels(r, side);
  }

  /** Storing the same non-removal level twice is the same as storing it
      once. */
  lemma StoreTwice(side: map<real, string>, price: real, quantity: string)
    requires !IsRemoval(quantity)
    ensures ApplyEntry(ApplyEntry(side, Entry(price, quantity)), Entry(price, quantity))
         == ApplyEntry(side, Entry(price, quantity))
  {
    var once := ApplyEntry(side, Entry(price, quantity));
    SameLevels(once[price := quantity], once);
  }

  // ---------------------------------------------------------------------
  // The sorted view

  /** `k` is the first price of `prices` in the listing order of `side`. */
  predicate IsBest(side: Side, prices: set<real>, k: real) {
    k in prices && forall p :: p in prices && p != k ==> Better(side, k, p)
  }

  lemma Pick(prices: set<real>) returns (x: real)
    requires |prices| > 0
    ensures x in prices
  {
    if forall y :: y !in prices {
      assert false;
    }
    x :| x in prices;
  }

  lemma {:induction false} BestExists(side: Side, prices: set<real>)
    requires |prices| > 0
    ensures exists k :: IsBest(side, prices, k)
    decreases |prices|
  {
    var x := Pick(prices);
    if prices != {x} {
      var rest := prices - {x};
      BestExists(side, rest);
      var y :| IsBest(side, rest, y);
      if Better(side, x, y) {
        forall p | p in prices && p != x ensures Better(side, x, p) {
          assert p in rest;
        }
        assert IsBest(side, prices, x);
      } else {
        forall p | p in prices && p != y ensures Better(side, y, p) {
          if p != x { assert p in rest; }
        }
        assert IsBest(side, prices, y);
      }
    } else {
      assert forall p :: p in prices ==> p in {x};
      assert IsBest(side, prices, x);
    }
  }

  /** The first key of a side: TreeMap.firstKey under the side's ordering. */
  function BestKey(side: Side, prices: set<real>): (k: real)
    requires |prices| > 0
    ensures IsBest(side, prices, k)
  {
    BestExists(side, prices);
    var k :| IsBest(side, prices, k);
    k
  }

  /** The prices of a side in its listing order: the TreeMap's key order. */
  function Ordered(side: Side, prices: set<real>): (ks: seq<real>)
    ensures |ks| == |prices|
    ensures forall i :: 0 <= i < |ks| ==> ks[i] in prices
    ensures forall p :: p in prices ==> p in ks
    ensures forall i, j :: 0 <= i < j < |ks| ==> Better(side, ks[i], ks[j])
    decreases |prices|
  {
    if |prices| == 0 then []
    else
      var k := BestKey(side, prices);
      var rest := Ordered(side, prices - {k});
      assert |prices - {k}| == |prices| - 1;
      [k] + rest
  }

  /** In a strictly ordered listing, a price ranked before another sits at
      an earlier index. */
  lemma RanksBefore(side: Side, ks: seq<real>, i: nat, j: nat)
    requires forall a, b :: 0 <= a < b < |ks| ==> Better(side, ks[a], ks[b])
    requires i < |ks| && j < |ks| && Better(side, ks[j], ks[i])
    ensures j < i
  {
  }

  function Prices(levels: seq<Level>): (ps: seq<real>)
    ensures |ps| == |levels|
    ensures forall i :: 0 <= i < |levels| ==> ps[i] == levels[i].price
  {
    seq(|levels|, i requires 0 <= i < |levels| => levels[i].price)
  }

  /** The first `n` levels of a side in its listing order, as
      `entrySet().stream().limit(n)` yields them: no more than `n`, all of
      the side when it is shorter, each one a level of the side, strictly
      ordered, and nothing left out that ranks before a listed level. */
  function Top(side: Side, book: map<real, string>, n: nat): (r: seq<Level>)
    ensures |r| == if n < |book| then n else |book|
    ensures forall i :: 0 <= i < |r| ==> r[i].price in book && r[i].quantity == book[r[i].price]
    ensures forall i, j :: 0 <= i < j < |r| ==> Better(side, r[i].price, r[j].price)
    ensures forall i, p :: 0 <= i < |r| && p in book && Better(side, p, r[i].price) ==> p in Prices(r)
  {
    var ks := Ordered(side, book.Keys);
    var len := if n < |ks| then n else |ks|;
    var r := seq(len, i requires 0 <= i < len => Level(ks[i], book[ks[i]]));
    forall i, p | 0 <= i < |r| && p in book && Better(side, p, r[i].price)
      ensures p in Prices(r)
    {
      var j :| 0 <= j < |ks| && ks[j] == p;
      RanksBefore(side, ks, i, j);
      assert Prices(r)[j] == p;
    }
    r
  }

  /** The best level of a side, or None ("-") when the side is empty. */
  function Best(side: Side, book: map<real, string>): (r: Option<Level>)
    ensures r.None? <==> book == map[]
    ensures r.Some? ==> r.value.price in book && r.value.quantity == book[r.value.price]
    ensures r.Some? ==> forall p :: p in book && p != r.value.price ==> Better(side, r.value.price, p)
  {
    if book == map[] then None
    else
      assert |book.Keys| == |book|;
      var k := BestKey(side, book.Keys);
      Some(Level(k, book[k]))
  }

  /** The best level heads the published table. */
  lemma BestHeadsTop(side: Side, book: map<real, string>, n: nat)
    requires book != map[] && n > 0
    ensures Top(side, book, n)[0] == Best(side, book).value
  {
  }

  /** The view built from both sides after a message that applied fully. */
  function View(bids: map<real, string>, asks: map<real, string>): Snapshot
  {
    Snapshot(Best(Bid, bids), Best(Ask, asks), Top(Bid, bids, SnapshotDepth), Top(Ask, asks, SnapshotDepth))
  }

  // ---------------------------------------------------------------------
  // The handler

  /** A decoded depth message: the bid entries and the ask entries, each
      None when the message has no such list. */
  datatype Update = Update(bids: Option<seq<seq<string>>>, asks: Option<seq<seq<string>>>)

  /** The message is processed to its end and a view is published. */
  predicate Completes(update: Update) {
    update.bids.Some? && Parses(update.bids.value) && update.asks.Some? && Parses(update.asks.value)
  }

  class OrderBookHandler {
    var bids: map<real, string>
    var asks: map<real, string>

    constructor()
      ensures bids == map[] && asks == map[]
    {
      bids := map[];
      asks := map[];
    }

    /** Applies one depth message: the bid entries in order, then the ask
        entries. A failure (a missing list, an entry without a quantity, a
        price that is not a numeral) ends the message where it happens, is
        swallowed, and publishes nothing; what was applied stays applied. */
    method HandleMessage(update: Update) returns (published: Option<Snapshot>)
      modifies this
      ensures bids == if update.bids.Some? then ApplyAll(old(bids), Applicable(update.bids.value)) else old(bids)
      ensures asks == if update.bids.Some? && Parses(update.bids.value) && update.asks.Some?
                      then ApplyAll(old(asks), Applicable(update.asks.value)) else old(asks)
      ensures published.Some? <==> Completes(update)
      ensures published.Some? ==> published.value.bestBid == Best(Bid, bids) && published.value.bestAsk == Best(Ask, asks)
      ensures published.Some? ==> published.value.topBids == Top(Bid, bids, SnapshotDepth)
                                  && published.value.topAsks == Top(Ask, asks, SnapshotDepth)
    {
      published := None;
      if update.bids.None? {
        return;
      }
      var done := ApplyBids(update.bids.value);
      if !done {
        return;
      }
      if update.asks.None? {
        return;
      }
      done := ApplyAsks(update.asks.value);
      if !done {
        return;
      }
      published := Some(View(bids, asks));
    }

    /** The loop over the bid entries. */
    method ApplyBids(raws: seq<seq<string>>) returns (done: bool)
      modifies this
      ensures done <==> Parses(raws)
      ensures bids == ApplyAll(old(bids), Applicable(raws)) && asks == old(asks)
    {
      ghost var ps := ParseEntries(raws);
      ghost var es := Prefix(ps);
      var i := 0;
      while i < |raws|
        invariant 0 <= i <= |es| && asks == old(asks)
        invariant ApplyAll(old(bids), es) == ApplyAll(bids, es[i..])
      {
        var entry := ParseEntry(raws[i]);
        assert entry == ps[i];
        if entry.None? {
          return false;
        }
        ApplyAllStep(bids, es, i);
        ghost var before := bids;
        var price, quantity := entry.value.price, entry.value.quantity;
        if IsRemoval(quantity) {
          bids := bids - {price};
        } else {
          bids := bids[price := quantity];
        }
        assert bids == ApplyEntry(before, es[i]);
        i := i + 1;
      }
      assert es[i..] == [];
      return true;
    }

    /** The loop over the ask entries. */
    method ApplyAsks(raws: seq<seq<string>>) returns (done: bool)
      modifies this
      ensures done <==> Parses(raws)
      ensures asks == ApplyAll(old(asks), Applicable(raws)) && bids == old(bids)
    {
      ghost var ps := ParseEntries(raws);
      ghost var es := Prefix(ps);
      var i := 0;
      while i < |raws|
        invariant 0 <= i <= |es| && bids == old(bids)
        invariant ApplyAll(old(asks), es) == ApplyAll(asks, es[i..])
      {
        var entry := ParseEntry(raws[i]);
        assert entry == ps[i];
        if entry.None? {
          return false;
        }
        ApplyAllStep(asks, es, i);
        ghost var before := asks;
        var price, quantity := entry.value.price, entry.value.quantity;
        if IsRemoval(quantity) {
          asks := asks - {price};
        } else {
          asks := asks[price := quantity];
        }
        assert asks == ApplyEntry(before, es[i]);
        i := i + 1;
      }
      assert es[i..] == [];
      return true;
    }
  }
}
