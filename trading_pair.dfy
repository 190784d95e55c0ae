/** A market such as BTC/USDT: the case-normalised asset codes and the
    names derived from them (stream symbol, display name, stream address). */
module TradingPairs {

  predicate IsUpperLetter(c: char) { 'A' <= c <= 'Z' }
  predicate IsLowerLetter(c: char) { 'a' <= c <= 'z' }

  /** String.toUpperCase on one character, for the ASCII letters. */
  function UpperChar(c: char): (u: char)
    ensures !IsLowerLetter(u)
    ensures IsLowerLetter(c) ==> u as int == c as int - 32
    ensures !IsLowerLetter(c) ==> u == c
  {
    if IsLowerLetter(c) then (c as int - 32) as char else c
  }

  /** String.toLowerCase on one character, for the ASCII letters. */
  function LowerChar(c: char): (l: char)
    ensures !IsUpperLetter(l)
    ensures IsUpperLetter(c) ==> l as int == c as int + 32
    ensures !IsUpperLetter(c) ==> l == c
  {
    if IsUpperLetter(c) then (c as int + 32) as char else c
  }

  function Upper(s: string): (r: string)
    ensures |r| == |s|
    ensures forall i :: 0 <= i < |s| ==> r[i] == UpperChar(s[i])
  {
    seq(|s|, i requires 0 <= i < |s| => UpperChar(s[i]))
  }

  function Lower(s: string): (r: string)
    ensures |r| == |s|
    ensures forall i :: 0 <= i < |s| ==> r[i] == LowerChar(s[i])
  {
    seq(|s|, i requires 0 <= i < |s| => LowerChar(s[i]))
  }

  /** The two strings differ at most in the case of their letters. */
  predicate SameIgnoringCase(s: string, t: string) {
    Lower(s) == Lower(t)
  }

  /** The immutable pair: the asset codes in upper case, the stream symbol
      in lower case, and "BASE/QUOTE" for display. */
  datatype TradingPair = TradingPair(baseAsset: string, quoteAsset: string,
                                     symbol: string, displayName: string)

  /** The constructor's normalisation of the two asset codes. */
  function NewPair(base: string, quote: string): (p: TradingPair)
    ensures forall i :: 0 <= i < |p.baseAsset| ==> !IsLowerLetter(p.baseAsset[i])
    ensures forall i :: 0 <= i < |p.quoteAsset| ==> !IsLowerLetter(p.quoteAsset[i])
    ensures forall i :: 0 <= i < |p.symbol| ==> !IsUpperLetter(p.symbol[i])
    ensures SameIgnoringCase(p.baseAsset, base) && SameIgnoringCase(p.quoteAsset, quote)
    ensures SameIgnoringCase(p.symbol, base + quote)
    ensures p.displayName == p.baseAsset + "/" + p.quoteAsset
  {
    var p := TradingPair(Upper(base), Upper(quote), Lower(base + quote), Upper(base) + "/" + Upper(quote));
    LowerOfUpper(base);
    LowerOfUpper(quote);
    LowerTwice(base + quote);
    p
  }

  const StreamPrefix: string := "wss://stream.binance.com:9443/ws/"
  const StreamSuffix: string := "@depth"

  /** The address of the pair's depth stream. */
  function WebSocketUrl(p: TradingPair): (url: string)
    ensures |url| == |StreamPrefix| + |p.symbol| + |StreamSuffix|
    ensures url[..|StreamPrefix|] == StreamPrefix
    ensures url[|StreamPrefix|..|url| - |StreamSuffix|] == p.symbol
    ensures url[|url| - |StreamSuffix|..] == StreamSuffix
  {
    var url := StreamPrefix + p.symbol + StreamSuffix;
    assert url[..|StreamPrefix|] == StreamPrefix;
    assert url[|StreamPrefix|..|url| - |StreamSuffix|] == p.symbol;
    assert url[|url| - |StreamSuffix|..] == StreamSuffix;
    url
  }

  /** The text shown for the pair. */
  function ToString(p: TradingPair): string
  {
    p.displayName
  }

  // ---------------------------------------------------------------------
  // Lemmas

  lemma LowerOfUpper(s: string)
    ensures Lower(Upper(s)) == Lower(s)
  {
    forall i | 0 <= i < |s| ensures Lower(Upper(s))[i] == Lower(s)[i] {
      var c := s[i];
      if IsLowerLetter(c) {
        assert IsUpperLetter(UpperChar(c));
      }
    }
  }

  lemma UpperOfLower(s: string)
    ensures Upper(Lower(s)) == Upper(s)
  {
    forall i | 0 <= i < |s| ensures Upper(Lower(s))[i] == Upper(s)[i] {
      var c := s[i];
      if IsUpperLetter(c) {
        assert IsLowerLetter(LowerChar(c));
      }
    }
  }

  lemma LowerTwice(s: string)
    ensures Lower(Lower(s)) == Lower(s)
  {
  }

  /** Asset codes that differ only in letter case give the same pair: the
      same codes, symbol, display name and stream address. */
  lemma CaseInsensitive(base1: string, quote1: string, base2: string, quote2: string)
    requires SameIgnoringCase(base1, base2) && SameIgnoringCase(quote1, quote2)
    ensures NewPair(base1, quote1) == NewPair(base2, quote2)
    ensures WebSocketUrl(NewPair(base1, quote1)) == WebSocketUrl(NewPair(base2, quote2))
  {
    UpperOfLower(base1);
    UpperOfLower(base2);
    UpperOfLower(quote1);
    UpperOfLower(quote2);
    assert Lower(base1 + quote1) == Lower(base1) + Lower(quote1);
    assert Lower(base2 + quote2) == Lower(base2) + Lower(quote2);
  }

  /** The stream address names exactly one symbol: the symbol can be read
      back from between the fixed prefix and suffix. */
  lemma UrlDeterminesSymbol(p: TradingPair, q: TradingPair)
    requires WebSocketUrl(p) == WebSocketUrl(q)
    ensures p.symbol == q.symbol
  {
    var u := WebSocketUrl(p);
    assert p.symbol == u[|StreamPrefix|..|u| - |StreamSuffix|];
  }

  /** The text of a new pair reads "BASE/QUOTE": the inputs joined by '/',
      upper-cased, so equal to them up to letter case. */
  lemma ToStringOfNewPair(base: string, quote: string)
    ensures ToString(NewPair(base, quote)) == Upper(base) + "/" + Upper(quote)
    ensures SameIgnoringCase(ToString(NewPair(base, quote)), base + "/" + quote)
  {
    var s := ToString(NewPair(base, quote));
    LowerOfUpper(base);
    LowerOfUpper(quote);
    assert Lower(s) == Lower(Upper(base)) + "/" + Lower(Upper(quote));
    assert Lower(base + "/" + quote) == Lower(base) + "/" + Lower(quote);
  }

  /** When the base code has no '/', the display name splits back at its
      first '/' into the two normalised codes. */
  lemma DisplayNameSplits(base: string, quote: string)
    requires forall i :: 0 <= i < |base| ==> base[i] != '/'
    ensures var d := NewPair(base, quote).displayName;
            var k := |base|;
            k < |d| && d[k] == '/' && (forall i :: 0 <= i < k ==> d[i] != '/')
            && d[..k] == Upper(base) && d[k + 1..] == Upper(quote)
  {
    var d := NewPair(base, quote).displayName;
    assert d == Upper(base) + "/" + Upper(quote);
    assert d[..|base|] == Upper(base);
    assert d[|base| + 1..] == Upper(quote);
  }
}
