/** The CSV trade import: header aliasing, the normalisers for type, market
    and symbol, market inference from the symbol, the locale-tolerant number
    parser, the row validator and the loop that turns the rows PapaParse
    produced into per-row results. */
module TradeParser {
  import Js
  import opened JsString

  // ---------------------------------------------------------------------
  // Headers

  /** `COLUMN_ALIASES`: accepted header spellings and their canonical column. */
  const ColumnAliases: map<string, string> := map[
    "symbol" := "symbol", "type" := "type", "market" := "market",
    "entry_price" := "entry_price", "entry price" := "entry_price", "entryprice" := "entry_price",
    "exit_price" := "exit_price", "exit price" := "exit_price", "exitprice" := "exit_price",
    "qty" := "qty", "quantity" := "qty", "fees" := "fees", "pnl" := "pnl",
    "pnl_percent" := "pnl_percent", "pnl %" := "pnl_percent", "pnl percent" := "pnl_percent",
    "pnlpercent" := "pnl_percent", "notes" := "notes", "date" := "date",
    "created_at" := "date", "created at" := "date", "createdat" := "date"]

  /** The eleven canonical column names, the values of `COLUMN_ALIASES`. */
  const CanonicalColumns: set<string> := {
    "symbol", "type", "market", "entry_price", "exit_price", "qty", "fees",
    "pnl", "pnl_percent", "notes", "date"}

  /** A header after `trim()`, `toLowerCase()` and `replace(/\s+/g, " ")`. */
  function HeaderKey(h: string): string
  {
    Collapse(Lower(Trim(h)), ' ')
  }

  /** `normalizeHeader` */
  function NormalizeHeader(h: string): (r: string)
    ensures HeaderKey(h) in ColumnAliases ==> r in CanonicalColumns
    ensures HeaderKey(h) !in ColumnAliases ==> r == HeaderKey(h)
  {
    var k := HeaderKey(h);
    if k in ColumnAliases then ColumnAliases[k] else k
  }

  /** Trimmed, free of upper-case letters, and single-spaced. */
  predicate NormalKey(k: string)
  {
    Unpadded(k) && NoUpper(k) && SingleSpaced(k)
  }

  lemma LowerKeepsUnpadded(s: string)
    requires Unpadded(s)
    ensures Unpadded(Lower(s))
  {
  }

  lemma LowerOfNoUpper(s: string)
    requires NoUpper(s)
    ensures Lower(s) == s
  {
    assert forall i :: 0 <= i < |s| ==> Lower(s)[i] == s[i];
  }

  /** A padded-free word without capitals is its own trimmed lower case. */
  lemma PlainWord(s: string)
    requires NoUpper(s) && Unpadded(s)
    ensures Trim(Lower(s)) == s
  {
    LowerOfNoUpper(s);
  }

  /** Every header key is in normal form. */
  lemma HeaderKeyIsNormal(h: string)
    ensures NormalKey(HeaderKey(h))
  {
    var l := Lower(Trim(h));
    LowerKeepsUnpadded(Trim(h));
    CollapseKeepsUnpadded(l, ' ');
    CollapseNoUpper(l, ' ');
    CollapseIsSingleSpaced(l);
  }

  /** A key in normal form is its own header key. */
  lemma HeaderKeyOfNormal(k: string)
    requires NormalKey(k)
    ensures HeaderKey(k) == k
  {
    LowerOfNoUpper(k);
    CollapseOfSingleSpaced(k);
  }

  /** Lower-case letters and underscores only. */
  predicate SnakeCase(k: string)
  {
    forall i :: 0 <= i < |k| ==> 'a' <= k[i] <= 'z' || k[i] == '_'
  }

  lemma SnakeCaseIsNormal(k: string)
    requires SnakeCase(k)
    ensures NormalKey(k)
  {
  }

  lemma CanonicalColumnsAreSnakeCase(v: string)
    requires v in CanonicalColumns
    ensures SnakeCase(v)
  {
  }

  lemma CanonicalColumnsAreKeys(v: string)
    requires v in CanonicalColumns
    ensures v in ColumnAliases && ColumnAliases[v] == v
  {
  }

  /** Every canonical column maps to itself and is its own header key. */
  lemma CanonicalColumnsAreFixed(v: string)
    requires v in CanonicalColumns
    ensures v in ColumnAliases && ColumnAliases[v] == v && HeaderKey(v) == v
  {
    CanonicalColumnsAreKeys(v);
    CanonicalColumnsAreSnakeCase(v);
    SnakeCaseIsNormal(v);
    HeaderKeyOfNormal(v);
  }

  /** Normalising a header twice changes nothing. */
  lemma NormalizeHeaderIdempotent(h: string)
    ensures NormalizeHeader(NormalizeHeader(h)) == NormalizeHeader(h)
  {
    var k := HeaderKey(h);
    HeaderKeyIsNormal(h);
    if k in ColumnAliases {
      var v := ColumnAliases[k];
      CanonicalColumnsAreFixed(v);
    } else {
      HeaderKeyOfNormal(k);
    }
  }

  lemma CollapseWord(s: string, repl: char)
    requires s != [] && !IsSpace(s[0])
    ensures Collapse(s, repl) == [s[0]] + Collapse(s[1..], repl)
  {
  }

  lemma NoSpaceTail(x: string)
    requires x != [] && NoSpace(x)
    ensures NoSpace(x[1..])
  {
    forall i | 0 <= i < |x| - 1 ensures !IsSpace(x[1..][i]) {
      assert x[1..][i] == x[i + 1];
    }
  }

  /** Collapsing passes over a stretch without white space. */
  lemma {:induction false} CollapseAfterWord(x: string, t: string, repl: char)
    requires NoSpace(x)
    ensures Collapse(x + t, repl) == x + Collapse(t, repl)
    decreases |x|
  {
    if x != [] {
      var s := x + t;
      assert s[0] == x[0] && s[1..] == x[1..] + t;
      CollapseWord(s, repl);
      NoSpaceTail(x);
      CollapseAfterWord(x[1..], t, repl);
      AppendAssoc([x[0]], x[1..], Collapse(t, repl));
      assert [x[0]] + x[1..] == x;
    } else {
      assert x + t == t;
    }
  }

  /** Collapsing a leading run of white space. */
  lemma CollapseSpace(s: string, repl: char)
    requires s != [] && IsSpace(s[0])
    ensures Collapse(s, repl) == [repl] + Collapse(TrimStart(s), repl)
  {
  }

  lemma TrimOneSpace(s: string)
    requires |s| >= 2 && IsSpace(s[0]) && !IsSpace(s[1])
    ensures TrimStart(s) == s[1..]
  {
  }

  /** A single space before a word becomes one `repl`. */
  lemma CollapseLeadingSpace(y: string, repl: char)
    requires y != [] && !IsSpace(y[0])
    ensures Collapse([' '] + y, repl) == [repl] + Collapse(y, repl)
  {
    var s := [' '] + y;
    assert s[1..] == y;
    TrimOneSpace(s);
    CollapseSpace(s, repl);
  }

  /** Two words with one space between them: the space becomes `repl`. */
  lemma CollapseOfTwoWords(x: string, y: string, repl: char)
    requires NoSpace(x) && NoSpace(y) && y != []
    ensures Collapse(x + [' '] + y, repl) == x + [repl] + y
  {
    assert x + [' '] + y == x + ([' '] + y);
    CollapseAfterWord(x, [' '] + y, repl);
    CollapseLeadingSpace(y, repl);
    CollapseOfNoSpace(y, repl);
  }

  lemma EntryPriceSpelling()
    ensures Trim("Entry Price") == "Entry Price"
    ensures Lower("Entry Price") == "entry" + [' '] + "price"
  {
    assert Unpadded("Entry Price");
    var r := "entry" + [' '] + "price";
    assert |r| == 11 && r[0] == 'e' && r[1] == 'n' && r[2] == 't' && r[3] == 'r' && r[4] == 'y' &&
           r[5] == ' ' && r[6] == 'p' && r[7] == 'r' && r[8] == 'i' && r[9] == 'c' && r[10] == 'e';
  }

  lemma EntryPriceWords()
    ensures NoSpace("entry") && NoSpace("price")
    ensures "entry" + [' '] + "price" == "entry price"
  {
    var r := "entry" + [' '] + "price";
    assert |r| == 11 && r[0] == 'e' && r[1] == 'n' && r[2] == 't' && r[3] == 'r' && r[4] == 'y' &&
           r[5] == ' ' && r[6] == 'p' && r[7] == 'r' && r[8] == 'i' && r[9] == 'c' && r[10] == 'e';
  }

  lemma EntryPriceKey()
    ensures HeaderKey("Entry Price") == "entry price"
  {
    EntryPriceSpelling();
    EntryPriceWords();
    var lowered := "entry" + [' '] + "price";
    assert Lower(Trim("Entry Price")) == lowered;
    CollapseOfTwoWords("entry", "price", ' ');
    assert Collapse(lowered, ' ') == lowered;
  }

  lemma EntryPriceAlias()
    ensures "entry price" in ColumnAliases && ColumnAliases["entry price"] == "entry_price"
  {
  }

  /** "Entry Price" names the `entry_price` column. */
  lemma EntryPriceHeader()
    ensures NormalizeHeader("Entry Price") == "entry_price"
  {
    EntryPriceKey();
    EntryPriceAlias();
  }

  // ---------------------------------------------------------------------
  // Type, market and symbol

  datatype TradeType = Long | Short

  datatype Market = Crypto | Forex | Stocks

  /** The canonical spelling of a trade type. */
  function TypeName(t: TradeType): string
  {
    match t
    case Long => "long"
    case Short => "short"
  }

  /** The canonical spelling of a market. */
  function MarketName(m: Market): string
  {
    match m
    case Crypto => "crypto"
    case Forex => "forex"
    case Stocks => "stocks"
  }

  /** `normalizeType`: long/buy/b/1 and short/sell/s/-1, case and padding aside. */
  function NormalizeType(s: string): Js.Option<TradeType>
  {
    var t := Trim(Lower(s));
    if t == "long" || t == "buy" || t == "b" || t == "1" then Js.Some(Long)
    else if t == "short" || t == "sell" || t == "s" || t == "-1" then Js.Some(Short)
    else Js.None
  }

  lemma LowerOfUpper(s: string)
    ensures Lower(Upper(s)) == Lower(s)
  {
    assert forall i :: 0 <= i < |s| ==> Lower(Upper(s))[i] == Lower(s)[i];
  }

  /** The canonical spelling of a type is read back as that type. */
  lemma NormalizeTypeRoundTrip(t: TradeType)
    ensures NormalizeType(TypeName(t)) == Js.Some(t)
  {
    match t
    case Long =>
      assert NoUpper("long") && Unpadded("long");
      PlainWord("long");
    case Short =>
      assert NoUpper("short") && Unpadded("short");
      PlainWord("short");
      assert "short" != "long" && "short" != "buy" && "short" != "b" && "short" != "1";
  }

  /** Letter case does not matter to the type column. */
  lemma NormalizeTypeIgnoresCase(s: string)
    ensures NormalizeType(Upper(s)) == NormalizeType(s)
  {
    LowerOfUpper(s);
  }

  /** "BUY" is a long trade. */
  lemma NormalizeTypeBuy()
    ensures NormalizeType("BUY") == Js.Some(Long)
  {
    assert Lower("BUY") == "buy";
    assert Unpadded("buy");
  }

  /** "-1" is a short trade. */
  lemma NormalizeTypeMinusOne()
    ensures NormalizeType("-1") == Js.Some(Short)
  {
    assert NoUpper("-1");
    LowerOfNoUpper("-1");
    assert Unpadded("-1");
  }

  /** "hold" is no trade type. */
  lemma NormalizeTypeHold()
    ensures NormalizeType("hold") == Js.None
  {
    assert NoUpper("hold");
    LowerOfNoUpper("hold");
    assert Unpadded("hold");
  }

  /** `MARKET_ALIASES` */
  const MarketAliases: map<string, Market> := map[
    "forex" := Forex, "fx" := Forex, "cfd_fx" := Forex, "cfd" := Forex,
    "crypto" := Crypto, "cryptocurrency" := Crypto, "spot" := Crypto, "futures" := Crypto,
    "stocks" := Stocks, "stock" := Stocks, "equities" := Stocks, "shares" := Stocks]

  /** A market value after `toLowerCase()`, `trim()` and `replace(/\s+/g, "_")`. */
  function MarketKey(s: string): string
  {
    Collapse(Trim(Lower(s)), '_')
  }

  /** `normalizeMarket`, with the alias table read as own keys only (see
      `MarketLookupAsWritten` for the inherited keys of a JavaScript object). */
  function NormalizeMarket(s: string): (r: Js.Option<Market>)
    ensures r.Some? <==> MarketKey(s) in MarketAliases
  {
    var key := MarketKey(s);
    if key in MarketAliases then Js.Some(MarketAliases[key]) else Js.None
  }

  /** A word without capitals or white space is its own market key. */
  lemma MarketKeyOfPlain(n: string)
    requires NoUpper(n) && NoSpace(n)
    ensures MarketKey(n) == n
  {
    LowerOfNoUpper(n);
    assert Trim(n) == n;
    CollapseOfNoSpace(n, '_');
  }

  lemma MarketNamesArePlain(m: Market)
    ensures NoUpper(MarketName(m)) && NoSpace(MarketName(m))
  {
  }

  lemma MarketNamesAreAliases(m: Market)
    ensures MarketName(m) in MarketAliases && MarketAliases[MarketName(m)] == m
  {
  }

  lemma NormalizeMarketRoundTrip(m: Market)
    ensures NormalizeMarket(MarketName(m)) == Js.Some(m)
  {
    MarketNamesArePlain(m);
    MarketKeyOfPlain(MarketName(m));
    MarketNamesAreAliases(m);
  }

  /** A string without white space is not changed by collapsing. */
  lemma {:induction false} CollapseOfNoSpace(s: string, repl: char)
    requires NoSpace(s)
    ensures Collapse(s, repl) == s
    decreases |s|
  {
    if s != [] {
      assert NoSpace(s[1..]) by {
        forall i | 0 <= i < |s| - 1 ensures !IsSpace(s[1..][i]) {
          assert s[1..][i] == s[i + 1];
        }
      }
      CollapseOfNoSpace(s[1..], repl);
      assert s == [s[0]] + s[1..];
    }
  }

  /** Letter case does not matter to the market column. */
  lemma NormalizeMarketIgnoresCase(s: string)
    ensures NormalizeMarket(Upper(s)) == NormalizeMarket(s)
  {
    LowerOfUpper(s);
  }

  /** Any string spelling `CFD FX`, lower-cased, is two words. */
  lemma CfdFxLower(s: string)
    requires |s| == 6 && s[0] == 'C' && s[1] == 'F' && s[2] == 'D' && s[3] == ' ' && s[4] == 'F' && s[5] == 'X'
    ensures var l := Lower(s);
            |l| == 6 && l[0] == 'c' && l[1] == 'f' && l[2] == 'd' && l[3] == ' ' && l[4] == 'f' && l[5] == 'x'
    ensures Trim(Lower(s)) == Lower(s)
  {
    assert Unpadded(Lower(s));
  }

  /** Collapsing the white space of `cfd fx` into an underscore. */
  lemma CfdFxCollapse(l: string)
    requires |l| == 6 && l[0] == 'c' && l[1] == 'f' && l[2] == 'd' && l[3] == ' ' && l[4] == 'f' && l[5] == 'x'
    ensures Collapse(l, '_') == "cfd_fx"
  {
    var x, y := l[..3], l[4..];
    assert l == x + [' '] + y;
    assert NoSpace(x) && NoSpace(y);
    CollapseOfTwoWords(x, y, '_');
    var r := x + ['_'] + y;
    assert |r| == 6 && r[0] == 'c' && r[1] == 'f' && r[2] == 'd' && r[3] == '_' && r[4] == 'f' && r[5] == 'x';
  }

  lemma CfdFxKey(s: string)
    requires |s| == 6 && s[0] == 'C' && s[1] == 'F' && s[2] == 'D' && s[3] == ' ' && s[4] == 'F' && s[5] == 'X'
    ensures MarketKey(s) == "cfd_fx"
  {
    CfdFxLower(s);
    var l := Lower(s);
    CfdFxCollapse(l);
    assert MarketKey(s) == Collapse(l, '_');
  }

  lemma CfdFxAlias()
    ensures "cfd_fx" in MarketAliases && MarketAliases["cfd_fx"] == Forex
  {
  }

  /** Inner white space becomes an underscore: "CFD FX" is forex. */
  lemma NormalizeMarketUnderscores()
    ensures NormalizeMarket("CFD FX") == Js.Some(Forex)
  {
    CfdFxKey("CFD FX");
    CfdFxAlias();
  }

  /** `normalizeSymbol`: trimmed, upper-cased, white space removed, `-` read as `/`. */
  function NormalizeSymbol(s: string): (r: string)
    ensures NoSpace(r) && '-' !in r
    ensures NoLower(r)
  {
    var u := Upper(Trim(s));
    assert NoLower(u);
    RemoveSpacesNoLower(u);
    var t := RemoveSpaces(u);
    ReplaceAll(t, '-', '/')
  }

  lemma UpperOfNoLower(s: string)
    requires NoLower(s)
    ensures Upper(s) == s
  {
    assert forall i :: 0 <= i < |s| ==> Upper(s)[i] == s[i];
  }

  /** Normalising a symbol twice changes nothing. */
  lemma NormalizeSymbolIdempotent(s: string)
    ensures NormalizeSymbol(NormalizeSymbol(s)) == NormalizeSymbol(s)
  {
    var r := NormalizeSymbol(s);
    assert Trim(r) == r;
    UpperOfNoLower(r);
    assert RemoveSpaces(r) == r;
    assert ReplaceAll(r, '-', '/') == r;
  }

  // ---------------------------------------------------------------------
  // Market inference

  /** `FIAT_CODES` */
  const FiatCodes: set<string> := {
    "USD", "EUR", "GBP", "JPY", "CHF", "CAD", "AUD", "NZD", "NOK", "SEK", "DKK", "PLN", "CZK",
    "HUF", "RON", "BGN", "TRY", "ZAR", "MXN", "BRL", "CNY", "HKD", "SGD", "INR", "RUB"}

  /** `CRYPTO_QUOTES` */
  const CryptoQuotes: seq<string> :=
    ["USDT", "USDC", "BTC", "ETH", "BNB", "DAI", "FDUSD", "TUSD", "BUSD", "EURT"]

  /** `CRYPTO_BASES` */
  const CryptoBases: seq<string> :=
    ["BTC", "ETH", "SOL", "ADA", "AVAX", "DOGE", "XRP", "DOT", "LTC", "LINK", "TRX", "TON", "MATIC"]

  /** `s.split("/")[k]` for k = 0 and 1, when `s` holds a `/`. */
  function BeforeSlash(s: string): string
  {
    var i := IndexOf(s, '/');
    if i == -1 then s else s[..i]
  }

  function AfterSlash(s: string): string
  {
    var i := IndexOf(s, '/');
    if i == -1 then "" else BeforeSlash(s[i + 1..])
  }

  /** A fiat pair: `A/B` with both halves fiat codes, or six letters `AAABBB`. */
  predicate FiatPair(sym: string)
  {
    if '/' in sym then
      var a := Trim(BeforeSlash(sym));
      var b := Trim(AfterSlash(sym));
      a != "" && b != "" && a in FiatCodes && b in FiatCodes
    else
      |sym| == 6 && sym[..3] in FiatCodes && sym[3..] in FiatCodes
  }

  /** A crypto symbol: it contains a quote token, or its base starts with a base ticker. */
  predicate CryptoLike(sym: string)
  {
    var base := if '/' in sym then Trim(BeforeSlash(sym)) else sym;
    HasQuoteToken(sym) || HasBaseTicker(base)
  }

  /** `CRYPTO_QUOTES.some(q => sym.includes(q))` */
  predicate HasQuoteToken(sym: string)
  {
    exists q :: q in CryptoQuotes && Includes(sym, q)
  }

  /** `CRYPTO_BASES.some(b => base.startsWith(b))` */
  predicate HasBaseTicker(base: string)
  {
    exists c :: c in CryptoBases && StartsWith(base, c)
  }

  /** `inferMarketFromSymbol`: forex first, then crypto, then stocks. */
  function InferMarket(symbol: string): (m: Market)
    ensures var sym := RemoveSpaces(Upper(symbol));
            (m == Forex <==> FiatPair(sym)) &&
            (m == Crypto <==> !FiatPair(sym) && CryptoLike(sym))
  {
    var sym := RemoveSpaces(Upper(symbol));
    if FiatPair(sym) then Forex
    else if CryptoLike(sym) then Crypto
    else Stocks
  }

  /** Letter case does not matter to market inference. */
  lemma InferMarketIgnoresCase(s: string)
    ensures InferMarket(Upper(s)) == InferMarket(s)
  {
    UpperOfNoLower(Upper(s));
  }

  lemma SixLetters(s: string)
    requires |s| == 6 && '/' !in s
    ensures FiatPair(s) <==> s[..3] in FiatCodes && s[3..] in FiatCodes
  {
  }

  /** An upper-case symbol without white space is its own inference key. */
  lemma PlainSymbol(s: string)
    requires NoSpace(s) && NoLower(s)
    ensures RemoveSpaces(Upper(s)) == s
  {
    UpperOfNoLower(s);
  }

  /** A plain six-letter symbol made of two fiat codes is forex. */
  lemma InferSixLetterPair(s: string)
    requires NoSpace(s) && NoLower(s) && '/' !in s
    requires |s| == 6 && s[..3] in FiatCodes && s[3..] in FiatCodes
    ensures InferMarket(s) == Forex
  {
    PlainSymbol(s);
  }

  /** A plain symbol that starts with a base ticker, and is not six letters
      long, is crypto. */
  lemma InferBaseTicker(s: string, c: string)
    requires NoSpace(s) && NoLower(s) && '/' !in s && |s| != 6
    requires c in CryptoBases && StartsWith(s, c)
    ensures InferMarket(s) == Crypto
  {
    PlainSymbol(s);
  }

  /** A plain symbol without a slash that is not six letters long and holds
      no quote token and no base ticker is a stock. */
  lemma InferOther(s: string)
    requires NoSpace(s) && NoLower(s) && '/' !in s && |s| != 6
    requires !HasQuoteToken(s) && !HasBaseTicker(s)
    ensures InferMarket(s) == Stocks
  {
    PlainSymbol(s);
  }

  lemma EurUsdPlain()
    ensures NoSpace("EURUSD") && NoLower("EURUSD") && '/' !in "EURUSD"
  {
  }

  lemma EurUsdHalves()
    ensures "EURUSD"[..3] in FiatCodes && "EURUSD"[3..] in FiatCodes
  {
    assert "EURUSD"[..3] == "EUR";
    assert "EURUSD"[3..] == "USD";
  }

  /** EURUSD is forex. */
  lemma InferEurUsd()
    ensures InferMarket("EURUSD") == Forex
  {
    EurUsdPlain();
    EurUsdHalves();
    InferSixLetterPair("EURUSD");
  }

  lemma UpperOfBtcUsdt()
    ensures Upper("btcusdt") == "BTCUSDT"
  {
  }

  lemma BtcUsdtPlain()
    ensures NoSpace("BTCUSDT") && NoLower("BTCUSDT") && '/' !in "BTCUSDT"
    ensures "BTC" in CryptoBases && StartsWith("BTCUSDT", "BTC")
  {
    assert "BTCUSDT"[..3] == "BTC";
  }

  /** BTCUSDT is crypto: it starts with the base BTC. */
  lemma BtcUsdtInferred()
    ensures InferMarket("BTCUSDT") == Crypto
  {
    BtcUsdtPlain();
    InferBaseTicker("BTCUSDT", "BTC");
  }

  /** btcusdt is crypto too: letter case does not matter. */
  lemma InferBtcUsdt()
    ensures InferMarket("btcusdt") == Crypto
  {
    UpperOfBtcUsdt();
    InferMarketIgnoresCase("btcusdt");
    BtcUsdtInferred();
  }

  lemma AaplPlain()
    ensures NoSpace("AAPL") && NoLower("AAPL") && '/' !in "AAPL"
  {
  }

  lemma AaplHasNoQuote()
    ensures !HasQuoteToken("AAPL")
  {
    forall q | q in CryptoQuotes ensures !Includes("AAPL", q) {
      NotIncludedLonger("AAPL", q);
    }
  }

  lemma AaplHasNoBase()
    ensures !HasBaseTicker("AAPL")
  {
    forall c | c in CryptoBases ensures !StartsWith("AAPL", c) {
      assert |c| >= 3 && (c[0] != 'A' || c[1] != 'A');
    }
  }

  /** AAPL is a stock: no fiat pair, no quote token, no base ticker. */
  lemma InferAapl()
    ensures InferMarket("AAPL") == Stocks
  {
    AaplPlain();
    AaplHasNoQuote();
    AaplHasNoBase();
    InferOther("AAPL");
  }

  /** A string does not include anything whose first letter it lacks. */
  lemma {:induction false} NotIncludedLonger(s: string, q: string)
    requires q != [] && q[0] !in s
    ensures !Includes(s, q)
    decreases |s|
  {
    if s != [] {
      assert s[0] != q[0];
      NotIncludedLonger(s[1..], q);
    }
  }

  // ---------------------------------------------------------------------
  // Numbers

  /** The separator handling of `parseNumberSafe`: when both `.` and `,`
      occur, the later one is the decimal point and every copy of the other
      is dropped; a lone `,` is a decimal comma. */
  function DecimalPoint(s: string): (r: string)
    ensures ',' !in s ==> r == s
  {
    var lastDot := LastIndexOf(s, '.');
    var lastComma := LastIndexOf(s, ',');
    if lastDot != -1 && lastComma != -1 then
      if lastDot > lastComma then ReplaceFirst(RemoveAll(s, ','), '.', '.')
      else ReplaceFirst(RemoveAll(s, '.'), ',', '.')
    else if lastComma != -1 then ReplaceAll(s, ',', '.')
    else s
  }

  /** `parseNumberSafe`: null for a missing or empty value and for anything
      `Number` does not read as a finite number. */
  function ParseNumberSafe(v: Js.Option<string>): (r: Js.Option<real>)
    ensures v.None? || v == Js.Some("") ==> r.None?
  {
    if v.None? || v.value == "" then Js.None
    else
      var s := RemoveSpaces(Trim(v.value));
      if s == "" then Js.None
      else NumberOf(DecimalPoint(s))
  }

  lemma {:induction false} RemoveAllAppend(x: string, y: string, c: char)
    ensures RemoveAll(x + y, c) == RemoveAll(x, c) + RemoveAll(y, c)
    decreases |x|
  {
    if x != [] {
      assert (x + y)[0] == x[0];
      assert (x + y)[1..] == x[1..] + y;
      RemoveAllAppend(x[1..], y, c);
    } else {
      assert x + y == y;
    }
  }

  /** Dropping the one `c` between two stretches without `c` joins them. */
  lemma RemoveAllSplice(x: string, c: char, y: string)
    requires c !in x && c !in y
    ensures RemoveAll(x + [c] + y, c) == x + y
  {
    RemoveAllAppend(x + [c], y, c);
    RemoveAllAppend(x, [c], c);
    RemoveAllOfOne(c);
  }

  lemma RemoveAllOfOne(c: char)
    ensures RemoveAll([c], c) == []
  {
    assert [c][1..] == [];
  }

  /** `c` is last at `p` when it occurs there and not later. */
  lemma LastIndexOfAt(s: string, c: char, p: int)
    requires 0 <= p < |s| && s[p] == c && c !in s[p + 1..]
    ensures LastIndexOf(s, c) == p
  {
  }

  /** `c` is first at `p` when it occurs there and not before. */
  lemma IndexOfAt(s: string, c: char, p: int)
    requires 0 <= p < |s| && s[p] == c && c !in s[..p]
    ensures IndexOf(s, c) == p
  {
  }

  lemma NoMark(s: string, c: char)
    requires Decimals(s) && !('0' <= c <= '9')
    ensures c !in s
  {
  }

  lemma ReplaceFirstSame(s: string, c: char)
    ensures ReplaceFirst(s, c, c) == s
  {
  }

  /** A later dot is the decimal point: every comma goes. */
  lemma DecimalPointDotLast(s: string)
    requires LastIndexOf(s, ',') != -1 && LastIndexOf(s, '.') > LastIndexOf(s, ',')
    ensures DecimalPoint(s) == RemoveAll(s, ',')
  {
    ReplaceFirstSame(RemoveAll(s, ','), '.');
  }

  /** A later comma is the decimal point: every dot goes and the first comma becomes a dot. */
  lemma DecimalPointCommaLast(s: string)
    requires LastIndexOf(s, '.') != -1 && LastIndexOf(s, ',') > LastIndexOf(s, '.')
    ensures DecimalPoint(s) == ReplaceFirst(RemoveAll(s, '.'), ',', '.')
  {
  }

  /** Where the separators of `a,b.c` are. */
  lemma MarksUS(a: string, b: string, c: string)
    requires ',' !in a && ',' !in b && ',' !in c && '.' !in c
    ensures var s := a + [','] + b + ['.'] + c;
            LastIndexOf(s, '.') == |a| + |b| + 1 && LastIndexOf(s, ',') == |a|
  {
    var s := a + [','] + b + ['.'] + c;
    assert s[|a| + |b| + 2..] == c;
    LastIndexOfAt(s, '.', |a| + |b| + 1);
    assert s[|a| + 1..] == b + ['.'] + c;
    LastIndexOfAt(s, ',', |a|);
  }

  /** Where the separators of `a.b,c` are. */
  lemma MarksEU(a: string, b: string, c: string)
    requires '.' !in a && '.' !in b && '.' !in c && ',' !in c
    ensures var s := a + ['.'] + b + [','] + c;
            LastIndexOf(s, ',') == |a| + |b| + 1 && LastIndexOf(s, '.') == |a|
  {
    var s := a + ['.'] + b + [','] + c;
    assert s[|a| + |b| + 2..] == c;
    LastIndexOfAt(s, ',', |a| + |b| + 1);
    assert s[|a| + 1..] == b + [','] + c;
    LastIndexOfAt(s, '.', |a|);
  }

  /** A US-style number with one thousands comma: `a,b.c` is read as `ab.c`. */
  lemma DecimalPointUS(a: string, b: string, c: string)
    requires Decimals(a) && Decimals(b) && Decimals(c)
    ensures DecimalPoint(a + [','] + b + ['.'] + c) == a + b + ['.'] + c
  {
    NoMark(a, ','); NoMark(b, ','); NoMark(c, ','); NoMark(c, '.');
    var tail := b + ['.'] + c;
    var s := a + [','] + tail;
    AppendAssoc(a + [','], b + ['.'], c);
    AppendAssoc(a + [','], b, ['.']);
    MarksUS(a, b, c);
    DecimalPointDotLast(s);
    RemoveAllSplice(a, ',', tail);
    AppendAssoc(a, b + ['.'], c);
    AppendAssoc(a, b, ['.']);
  }

  /** Replacing the only comma of `x,c` by a dot. */
  lemma ReplaceTheComma(x: string, c: string)
    requires ',' !in x && ',' !in c
    ensures ReplaceFirst(x + [','] + c, ',', '.') == x + ['.'] + c
  {
    var t := x + [','] + c;
    assert t[..|x|] == x;
    IndexOfAt(t, ',', |x|);
    assert t[|x| := '.'] == x + ['.'] + c;
  }

  /** A European-style number with one thousands dot: `a.b,c` is read as `ab.c`. */
  lemma DecimalPointEU(a: string, b: string, c: string)
    requires Decimals(a) && Decimals(b) && Decimals(c)
    ensures DecimalPoint(a + ['.'] + b + [','] + c) == a + b + ['.'] + c
  {
    NoMark(a, '.'); NoMark(b, '.'); NoMark(c, '.'); NoMark(c, ',');
    NoMark(a, ','); NoMark(b, ',');
    var tail := b + [','] + c;
    var s := a + ['.'] + tail;
    AppendAssoc(a + ['.'], b + [','], c);
    AppendAssoc(a + ['.'], b, [',']);
    MarksEU(a, b, c);
    DecimalPointCommaLast(s);
    RemoveAllSplice(a, '.', tail);
    AppendAssoc(a, b + [','], c);
    AppendAssoc(a, b, [',']);
    ReplaceTheComma(a + b, c);
  }

  /** A lone comma is a decimal comma: `a,c` is read as `a.c`. */
  lemma DecimalPointComma(a: string, c: string)
    requires Decimals(a) && Decimals(c)
    ensures DecimalPoint(a + [','] + c) == a + ['.'] + c
  {
    NoMark(a, '.'); NoMark(c, '.'); NoMark(a, ','); NoMark(c, ',');
    var s := a + [','] + c;
    assert '.' !in s;
    assert s[|a|] == ',';
    assert forall i :: 0 <= i < |s| ==> ReplaceAll(s, ',', '.')[i] == (a + ['.'] + c)[i];
  }

  /** Digits, dots and commas are left alone by trimming and space removal. */
  lemma CompactOfPlain(s: string)
    requires NoSpace(s)
    ensures RemoveSpaces(Trim(s)) == s
  {
  }

  lemma DecimalsAppend(a: string, b: string)
    requires Decimals(a) && Decimals(b)
    ensures Decimals(a + b)
  {
    forall i | 0 <= i < |a + b| ensures '0' <= (a + b)[i] <= '9' {
      if i < |a| {
        assert (a + b)[i] == a[i];
      } else {
        assert (a + b)[i] == b[i - |a|];
      }
    }
  }

  lemma DecimalsNoSpace(s: string)
    requires Decimals(s)
    ensures NoSpace(s)
  {
  }

  /** The fields of `a.c`, with the digits on either side. */
  lemma FractionMarks(a: string, c: string)
    requires a != [] && Decimals(a) && Decimals(c)
    ensures var s := a + ['.'] + c;
            ExponentMark(s) == -1 && IndexOf(s, '.') == |a| && RadixOf(s) == 0 &&
            s[0] != '+' && s[0] != '-' && s[..|a|] == a && s[|a| + 1..] == c
  {
    var s := a + ['.'] + c;
    NoMark(a, '.'); NoMark(a, 'e'); NoMark(a, 'E'); NoMark(c, 'e'); NoMark(c, 'E');
    assert 'e' !in s && 'E' !in s;
    assert s[..|a|] == a;
    IndexOfAt(s, '.', |a|);
    assert s[|a| + 1..] == c;
    assert '0' <= s[0] <= '9';
    if |s| >= 2 {
      assert s[1] == '.' || '0' <= s[1] <= '9';
    }
  }

  /** `Number("a.c")` for digit strings `a` and `c`. */
  lemma NumberOfFraction(a: string, c: string)
    requires a != [] && Decimals(a) && c != [] && Decimals(c)
    ensures AllDigits(a + c, 10)
    ensures NumberOf(a + ['.'] + c) == Js.Some(DigitsValue(a + c, 10) as real / Pow10(|c|))
  {
    FractionMarks(a, c);
    assert Decimals(a + c);
  }

  /** Digits around two separators hold no white space. */
  lemma GroupedNoSpace(a: string, b: string, c: string, x: char, y: char)
    requires Decimals(a) && Decimals(b) && Decimals(c) && (x == ',' || x == '.') && (y == ',' || y == '.')
    ensures NoSpace(a + [x] + b + [y] + c)
  {
    var s := a + [x] + b + [y] + c;
    forall i | 0 <= i < |s| ensures !IsSpace(s[i]) {
      if i < |a| {
        assert s[i] == a[i];
      } else if i == |a| {
        assert s[i] == x;
      } else if i < |a| + 1 + |b| {
        assert s[i] == b[i - |a| - 1];
      } else if i == |a| + 1 + |b| {
        assert s[i] == y;
      } else {
        assert s[i] == c[i - |a| - |b| - 2];
      }
    }
  }

  /** A non-empty text without white space is read through its decimal point. */
  lemma ParseNumberSafeOfCompact(s: string)
    requires s != [] && NoSpace(s)
    ensures ParseNumberSafe(Js.Some(s)) == NumberOf(DecimalPoint(s))
  {
    CompactOfPlain(s);
  }

  /** A US-style grouped number `a,b.c` is `abc / 10^|c|`. */
  lemma ParseNumberSafeUS(a: string, b: string, c: string)
    requires a != [] && Decimals(a) && Decimals(b) && c != [] && Decimals(c)
    ensures AllDigits(a + b + c, 10)
    ensures ParseNumberSafe(Js.Some(a + [','] + b + ['.'] + c))
         == Js.Some(DigitsValue(a + b + c, 10) as real / Pow10(|c|))
  {
    GroupedNoSpace(a, b, c, ',', '.');
    ParseNumberSafeOfCompact(a + [','] + b + ['.'] + c);
    DecimalPointUS(a, b, c);
    DecimalsAppend(a, b);
    NumberOfFraction(a + b, c);
  }

  /** An EU-style grouped number `a.b,c` is `abc / 10^|c|`. */
  lemma ParseNumberSafeEU(a: string, b: string, c: string)
    requires a != [] && Decimals(a) && Decimals(b) && c != [] && Decimals(c)
    ensures AllDigits(a + b + c, 10)
    ensures ParseNumberSafe(Js.Some(a + ['.'] + b + [','] + c))
         == Js.Some(DigitsValue(a + b + c, 10) as real / Pow10(|c|))
  {
    GroupedNoSpace(a, b, c, '.', ',');
    ParseNumberSafeOfCompact(a + ['.'] + b + [','] + c);
    DecimalPointEU(a, b, c);
    DecimalsAppend(a, b);
    NumberOfFraction(a + b, c);
  }

  /** A number with a thousands separator and a decimal part, in either
      convention, is `abc / 10^|c|`. */
  lemma ParseNumberSafeGrouped(a: string, b: string, c: string)
    requires a != [] && Decimals(a) && Decimals(b) && c != [] && Decimals(c)
    ensures AllDigits(a + b + c, 10)
    ensures var value := Js.Some(DigitsValue(a + b + c, 10) as real / Pow10(|c|));
            ParseNumberSafe(Js.Some(a + [','] + b + ['.'] + c)) == value &&
            ParseNumberSafe(Js.Some(a + ['.'] + b + [','] + c)) == value
  {
    ParseNumberSafeUS(a, b, c);
    ParseNumberSafeEU(a, b, c);
  }

  /** A lone comma is a decimal point: `a,c` is `ac / 10^|c|`. */
  lemma ParseNumberSafeDecimalComma(a: string, c: string)
    requires a != [] && Decimals(a) && c != [] && Decimals(c)
    ensures AllDigits(a + c, 10)
    ensures ParseNumberSafe(Js.Some(a + [','] + c)) == Js.Some(DigitsValue(a + c, 10) as real / Pow10(|c|))
  {
    var s := a + [','] + c;
    DecimalsNoSpace(a); DecimalsNoSpace(c);
    assert NoSpace(s);
    CompactOfPlain(s);
    DecimalPointComma(a, c);
    NumberOfFraction(a, c);
  }

  lemma {:induction false} DigitsValueAppend(s: string, d: char)
    requires AllDigits(s + [d], 10)
    ensures AllDigits(s, 10)
    ensures DigitsValue(s + [d], 10) == DigitsValue(s, 10) * 10 + DigitValue(d)
  {
    assert (s + [d])[..|s|] == s;
    assert forall i :: 0 <= i < |s| ==> s[i] == (s + [d])[i];
  }

  lemma OneComma5Split()
    ensures "1,5" == "1" + [','] + "5" && "1" + "5" == [] + ['1'] + ['5']
  {
    var r := "1" + [','] + "5";
    assert |r| == 3 && r[0] == '1' && r[1] == ',' && r[2] == '5';
    var t := [] + ['1'] + ['5'];
    assert |t| == 2 && t[0] == '1' && t[1] == '5';
  }

  lemma Fifteen()
    ensures AllDigits([] + ['1'] + ['5'], 10) && DigitsValue([] + ['1'] + ['5'], 10) == 15
  {
    DigitsValueAppend([] + ['1'], '5');
    DigitsValueAppend([], '1');
  }

  lemma OneComma5Value()
    ensures AllDigits("1" + "5", 10)
    ensures ParseNumberSafe(Js.Some("1,5")) == Js.Some(DigitsValue("1" + "5", 10) as real / Pow10(|"5"|))
  {
    OneComma5Split();
    ParseNumberSafeDecimalComma("1", "5");
  }

  lemma FifteenTenths()
    ensures AllDigits("1" + "5", 10)
    ensures DigitsValue("1" + "5", 10) as real / Pow10(|"5"|) == 1.5
  {
    OneComma5Split();
    Fifteen();
    assert Pow10(1) == 10.0;
  }

  /** "1,5" is 1.5. */
  lemma ParseNumberSafeOneComma5()
    ensures ParseNumberSafe(Js.Some("1,5")) == Js.Some(1.5)
  {
    OneComma5Value();
    FifteenTenths();
  }

  /** An ASCII letter. */
  predicate IsLetter(c: char)
  {
    'a' <= c <= 'z' || 'A' <= c <= 'Z'
  }

  lemma MantissaOfWord(m: string)
    requires m != [] && IsLetter(m[0])
    ensures Mantissa(m) == Js.None
  {
    var dot := IndexOf(m, '.');
    var whole := if dot == -1 then m else m[..dot];
    assert whole != [] && whole[0] == m[0];
    assert !AllDigits(whole, 10) by { assert !(0 <= DigitValue(whole[0]) < 10); }
  }

  /** `Number` reads nothing that starts with a letter as a finite number. */
  lemma NumberOfWord(s: string)
    requires s != [] && IsLetter(s[0])
    ensures NumberOf(s) == Js.None
  {
    assert RadixOf(s) == 0;
    var e := ExponentMark(s);
    if e == 0 {
      assert s[..e] == [];
    } else {
      var m := if e == -1 then s else s[..e];
      assert m != [] && m[0] == s[0];
      MantissaOfWord(m);
    }
  }

  lemma RemoveAllKeepsHead(s: string, c: char)
    requires s != [] && s[0] != c
    ensures RemoveAll(s, c) != [] && RemoveAll(s, c)[0] == s[0]
  {
  }

  /** The separator handling leaves a first character that is no separator in place. */
  lemma DecimalPointKeepsHead(s: string)
    requires s != [] && s[0] != ',' && s[0] != '.'
    ensures DecimalPoint(s) != [] && DecimalPoint(s)[0] == s[0]
  {
    RemoveAllKeepsHead(s, ',');
    RemoveAllKeepsHead(s, '.');
  }

  lemma RemoveSpacesKeepsHead(s: string)
    requires s != [] && !IsSpace(s[0])
    ensures RemoveSpaces(s) != [] && RemoveSpaces(s)[0] == s[0]
  {
  }

  lemma TrimKeepsHead(s: string)
    requires s != [] && !IsSpace(s[0])
    ensures Trim(s) != [] && Trim(s)[0] == s[0]
  {
    assert TrimStart(s) == s;
  }

  /** A value that starts with a letter is null. */
  lemma ParseNumberSafeOfWord(v: string)
    requires v != [] && IsLetter(v[0])
    ensures ParseNumberSafe(Js.Some(v)) == Js.None
  {
    TrimKeepsHead(v);
    var t := Trim(v);
    RemoveSpacesKeepsHead(t);
    var s := RemoveSpaces(t);
    DecimalPointKeepsHead(s);
    NumberOfWord(DecimalPoint(s));
  }

  /** Empty and non-numeric values are null. */
  lemma ParseNumberSafeRejects()
    ensures ParseNumberSafe(Js.Some("")) == Js.None
    ensures ParseNumberSafe(Js.Some("abc")) == Js.None
  {
    ParseNumberSafeOfWord("abc");
  }

  lemma DecimalCompact(n: nat)
    ensures DecimalPoint(RemoveSpaces(Trim(Js.Decimal(n)))) == Js.Decimal(n)
  {
    var s := Js.Decimal(n);
    assert Decimals(s);
    DecimalsHaveNoMarks(s);
    DecimalsNoSpace(s);
    CompactOfPlain(s);
  }

  /** A whole number written out in decimal is read back as itself. */
  lemma ParseNumberSafeOfDecimal(n: nat)
    ensures ParseNumberSafe(Js.Some(Js.Decimal(n))) == Js.Some(n as real)
  {
    DecimalCompact(n);
    NumberOfDecimal(n);
  }

  // ---------------------------------------------------------------------
  // Rows

  /** `ParsedTradeRow` */
  datatype ParsedTradeRow = ParsedTradeRow(
    symbol: string, tradeType: TradeType, market: Market,
    entryPrice: real, exitPrice: real, qty: real,
    fees: real, pnl: real, pnlPercent: real,
    notes: Js.Option<string>, date: Js.Option<string>)

  /** `validateRow`: the first problem found, or none. Here the type and
      market checks always pass, because both fields hold a canonical value;
      the market check as written, which rejects a member inherited from
      `Object.prototype`, is `MarketCheckAsWritten`. */
  function ValidateRow(r: ParsedTradeRow): (e: Js.Option<string>)
    ensures e.None? <==> Trim(r.symbol) != "" && r.entryPrice > 0.0 && r.exitPrice > 0.0 && r.qty > 0.0
    ensures e == Js.Some("Missing symbol") <==> Trim(r.symbol) == ""
  {
    if r.symbol == "" || Trim(r.symbol) == "" then Js.Some("Missing symbol")
    else if !(r.entryPrice > 0.0) then Js.Some("entry_price must be > 0")
    else if !(r.exitPrice > 0.0) then Js.Some("exit_price must be > 0")
    else if !(r.qty > 0.0) then Js.Some("qty must be > 0")
    else Js.None
  }

  /** What every accepted row satisfies: a normalised, non-empty symbol and
      positive prices and quantity. */
  predicate GoodRow(r: ParsedTradeRow)
  {
    r.symbol != "" && NoSpace(r.symbol) && '-' !in r.symbol &&
    r.entryPrice > 0.0 && r.exitPrice > 0.0 && r.qty > 0.0
  }

  /** `validateRow` accepts every good row. */
  lemma GoodRowIsValid(r: ParsedTradeRow)
    requires GoodRow(r)
    ensures ValidateRow(r) == Js.None
  {
    assert Trim(r.symbol) == r.symbol;
  }

  /** `raw.k`: a column of the record PapaParse produced. */
  function Field(raw: map<string, string>, k: string): Js.Option<string>
  {
    if k in raw then Js.Some(raw[k]) else Js.None
  }

  /** `trimVal` */
  function TrimVal(v: Js.Option<string>): (r: string)
    ensures Unpadded(r)
  {
    match v
    case None => ""
    case Some(s) => Trim(s)
  }

  /** `parseDate`: `toIso` stands for `new Date(s).toISOString()`, or none
      when the date is invalid. */
  function ParseDate(v: Js.Option<string>, toIso: string -> Js.Option<string>): Js.Option<string>
  {
    var s := TrimVal(v);
    if s == "" then Js.None else toIso(s)
  }

  /** A required positive amount, or the message the row is rejected with. */
  datatype Amount = Amount(value: real) | Rejected(error: string)

  function Required(v: Js.Option<string>, name: string): (a: Amount)
    ensures a.Amount? <==> ParseNumberSafe(v).Some? && ParseNumberSafe(v).value > 0.0
    ensures a.Amount? ==> a.value == ParseNumberSafe(v).value
  {
    match ParseNumberSafe(v)
    case None => Rejected("Invalid " + name)
    case Some(x) => if x <= 0.0 then Rejected(name + " must be > 0") else Amount(x)
  }

  /** An optional amount: 0 when blank, null when present and unreadable. */
  function Optional(v: Js.Option<string>): (r: Js.Option<real>)
    ensures TrimVal(v) == "" ==> r == Js.Some(0.0)
  {
    if TrimVal(v) == "" then Js.Some(0.0) else ParseNumberSafe(v)
  }

  /** The row a record yields, or the message it is rejected with before validation. */
  datatype Built = Built(row: ParsedTradeRow) | Unbuilt(error: string)

  function Notes(raw: map<string, string>): Js.Option<string>
  {
    var n := TrimVal(Field(raw, "notes"));
    if n == "" then Js.None else Js.Some(n)
  }

  /** A blank fees, pnl or pnl_percent column is 0 in the row. */
  predicate BlankIsZero(raw: map<string, string>, row: ParsedTradeRow)
  {
    (TrimVal(Field(raw, "fees")) == "" ==> row.fees == 0.0) &&
    (TrimVal(Field(raw, "pnl")) == "" ==> row.pnl == 0.0) &&
    (TrimVal(Field(raw, "pnl_percent")) == "" ==> row.pnlPercent == 0.0)
  }

  /** `normalizeMarket(marketStr) ?? inferMarketFromSymbol(symbol)`: the
      market column wins when it names a market, otherwise the symbol decides. */
  function RowMarket(raw: map<string, string>, symbol: string): Market
  {
    match NormalizeMarket(TrimVal(Field(raw, "market")))
    case Some(m) => m
    case None => InferMarket(symbol)
  }

  /** The body of the row loop up to the `validateRow` call: symbol and type. */
  function BuildRow(raw: map<string, string>, toIso: string -> Js.Option<string>): (b: Built)
    ensures b.Built? ==> GoodRow(b.row)
    ensures b.Built? ==> b.row.symbol == NormalizeSymbol(TrimVal(Field(raw, "symbol")))
    ensures b.Built? ==> b.row.market == RowMarket(raw, b.row.symbol)
    ensures b.Built? ==> BlankIsZero(raw, b.row)
  {
    var symbol := NormalizeSymbol(TrimVal(Field(raw, "symbol")));
    if symbol == "" then Unbuilt("Missing symbol")
    else
      match NormalizeType(TrimVal(Field(raw, "type")))
      case None => Unbuilt("Invalid type")
      case Some(tradeType) => BuildPriced(raw, symbol, tradeType, RowMarket(raw, symbol), toIso)
  }

  /** Then the three required amounts. */
  function BuildPriced(raw: map<string, string>, symbol: string, tradeType: TradeType, market: Market,
                       toIso: string -> Js.Option<string>): (b: Built)
    requires symbol != "" && NoSpace(symbol) && '-' !in symbol
    ensures b.Built? ==> GoodRow(b.row) && b.row.symbol == symbol && b.row.market == market
    ensures b.Built? ==> BlankIsZero(raw, b.row)
  {
    match Required(Field(raw, "entry_price"), "entry_price")
    case Rejected(e) => Unbuilt(e)
    case Amount(entry) =>
      match Required(Field(raw, "exit_price"), "exit_price")
      case Rejected(e) => Unbuilt(e)
      case Amount(exit) =>
        match Required(Field(raw, "qty"), "qty")
        case Rejected(e) => Unbuilt(e)
        case Amount(qty) => BuildCosted(raw, symbol, tradeType, market, entry, exit, qty, toIso)
  }

  /** Then the optional amounts, the notes and the date. */
  function BuildCosted(raw: map<string, string>, symbol: string, tradeType: TradeType, market: Market,
                       entry: real, exit: real, qty: real, toIso: string -> Js.Option<string>): (b: Built)
    requires symbol != "" && NoSpace(symbol) && '-' !in symbol && entry > 0.0 && exit > 0.0 && qty > 0.0
    ensures b.Built? ==> GoodRow(b.row) && b.row.symbol == symbol && b.row.market == market
    ensures b.Built? ==> BlankIsZero(raw, b.row)
  {
    match Optional(Field(raw, "fees"))
    case None => Unbuilt("Invalid fees")
    case Some(fees) =>
      match Optional(Field(raw, "pnl"))
      case None => Unbuilt("Invalid pnl")
      case Some(pnl) =>
        match Optional(Field(raw, "pnl_percent"))
        case None => Unbuilt("Invalid pnl_percent")
        case Some(pnlPercent) =>
          Built(ParsedTradeRow(symbol, tradeType, market, entry, exit, qty, fees, pnl, pnlPercent,
                               Notes(raw), ParseDate(Field(raw, "date"), toIso)))
  }

  /** `RowResult` */
  datatype RowResult =
    | Valid(row: ParsedTradeRow, rowIndex: nat)
    | Invalid(rowIndex: nat, error: string, raw: map<string, string>)

  /** One pass of the row loop for record `i` (shown to the user as line `i + 2`). */
  function RowResultOf(raw: map<string, string>, i: nat, toIso: string -> Js.Option<string>): (r: RowResult)
    ensures r.rowIndex == i + 2
    ensures r.Invalid? ==> r.raw == raw
    ensures r.Valid? <==> BuildRow(raw, toIso).Built? && ValidateRow(BuildRow(raw, toIso).row).None?
    ensures r.Valid? ==> r.row == BuildRow(raw, toIso).row
  {
    match BuildRow(raw, toIso)
    case Unbuilt(e) => Invalid(i + 2, e, raw)
    case Built(row) =>
      match ValidateRow(row)
      case Some(e) => Invalid(i + 2, e, raw)
      case None => Valid(row, i + 2)
  }

  /** With the market read from own alias keys (`RowMarket`), `validateRow`
      never rejects a row the loop built: a record is valid exactly when it
      gets through the loop body. The inherited-key records that the
      source's check rejects are covered by `RowMarketAsWrittenAgrees`. */
  lemma RowResultValidIffBuilt(raw: map<string, string>, i: nat, toIso: string -> Js.Option<string>)
    ensures RowResultOf(raw, i, toIso).Valid? <==> BuildRow(raw, toIso).Built?
  {
    var b := BuildRow(raw, toIso);
    if b.Built? {
      GoodRowIsValid(b.row);
    }
  }

  /** The results of the row loop, one per record, in order. */
  function RowResults(rows: seq<map<string, string>>, toIso: string -> Js.Option<string>): (rr: seq<RowResult>)
    ensures |rr| == |rows|
  {
    if rows == [] then []
    else RowResults(rows[..|rows| - 1], toIso) + [RowResultOf(rows[|rows| - 1], |rows| - 1, toIso)]
  }

  /** Result `i` is the loop's pass over record `i`. */
  lemma {:induction false} RowResultsAt(rows: seq<map<string, string>>, toIso: string -> Js.Option<string>, i: nat)
    requires i < |rows|
    ensures RowResults(rows, toIso)[i] == RowResultOf(rows[i], i, toIso)
    decreases |rows|
  {
    if i < |rows| - 1 {
      var init := rows[..|rows| - 1];
      RowResultsAt(init, toIso, i);
      assert init[i] == rows[i];
    }
  }

  /** `validRows`: the rows of the valid results, in order. */
  function ValidRowsOf(rr: seq<RowResult>): seq<ParsedTradeRow>
  {
    if rr == [] then []
    else
      var last := rr[|rr| - 1];
      ValidRowsOf(rr[..|rr| - 1]) + (if last.Valid? then [last.row] else [])
  }

  /** `rowResults.filter((r) => !r.valid).length` */
  function CountInvalid(rr: seq<RowResult>): nat
  {
    if rr == [] then 0
    else CountInvalid(rr[..|rr| - 1]) + (if rr[|rr| - 1].Invalid? then 1 else 0)
  }

  /** Every result is counted once: as a valid row or as an invalid result. */
  lemma {:induction false} ValidPlusInvalid(rr: seq<RowResult>)
    ensures |ValidRowsOf(rr)| + CountInvalid(rr) == |rr|
    decreases |rr|
  {
    if rr != [] {
      ValidPlusInvalid(rr[..|rr| - 1]);
    }
  }

  lemma {:induction false} ValidRowsAppend(x: seq<RowResult>, y: seq<RowResult>)
    ensures ValidRowsOf(x + y) == ValidRowsOf(x) + ValidRowsOf(y)
    decreases |y|
  {
    if y != [] {
      var y' := y[..|y| - 1];
      assert (x + y)[..|x + y| - 1] == x + y';
      ValidRowsAppend(x, y');
    } else {
      assert x + y == x;
    }
  }

  /** The valid result at position `k` is the valid row numbered by how many
      valid results precede it: `validRows` keeps the order of the records. */
  lemma ValidRowsInOrder(rr: seq<RowResult>, k: nat)
    requires k < |rr| && rr[k].Valid?
    ensures |ValidRowsOf(rr[..k])| < |ValidRowsOf(rr)|
    ensures ValidRowsOf(rr)[|ValidRowsOf(rr[..k])|] == rr[k].row
  {
    assert rr == rr[..k + 1] + rr[k + 1..];
    ValidRowsAppend(rr[..k + 1], rr[k + 1..]);
    assert rr[..k + 1][..k] == rr[..k];
  }

  /** Every valid row comes from a valid result. */
  lemma {:induction false} ValidRowsAreGood(rr: seq<RowResult>)
    requires forall k :: 0 <= k < |rr| && rr[k].Valid? ==> GoodRow(rr[k].row)
    ensures forall j :: 0 <= j < |ValidRowsOf(rr)| ==> GoodRow(ValidRowsOf(rr)[j])
    decreases |rr|
  {
    if rr != [] {
      ValidRowsAreGood(rr[..|rr| - 1]);
    }
  }

  // ---------------------------------------------------------------------
  // parseTradesCsv

  /** What `Papa.parse` returned: its errors' messages and the records,
      keyed by the headers `normalizeHeader` produced. */
  datatype PapaError = PapaError(message: Js.Option<string>)

  datatype Parsed = Parsed(errors: seq<PapaError>, data: seq<map<string, string>>)

  /** `ParseResult` */
  datatype ParseResult = ParseResult(
    success: bool, error: Js.Option<string>, rowResults: seq<RowResult>,
    validRows: seq<ParsedTradeRow>, invalidCount: nat)

  const MissingColumns: string :=
    "Missing required columns. Expected at least: symbol, type, entry_price, exit_price, qty (market is optional, auto-detected from symbol if missing)"

  /** The columns without which nothing is imported. */
  predicate HasRequired(headers: set<string>)
  {
    "symbol" in headers && "type" in headers && "entry_price" in headers &&
    "exit_price" in headers && "qty" in headers
  }

  /** The failure result: no rows at all. */
  function Failure(error: string): ParseResult
  {
    ParseResult(false, Js.Some(error), [], [], 0)
  }

  /** `parseTradesCsv` after `Papa.parse`. */
  function ParseOf(parsed: Parsed, toIso: string -> Js.Option<string>): (r: ParseResult)
    ensures !r.success ==> r.error.Some? && r.rowResults == [] && r.validRows == [] && r.invalidCount == 0
    ensures r.success <==> parsed.errors == [] && (parsed.data == [] || HasRequired(parsed.data[0].Keys))
    ensures r.success ==> r.error.None? && |r.rowResults| == |parsed.data|
    ensures |r.validRows| + r.invalidCount == |r.rowResults|
  {
    if |parsed.errors| > 0 then
      var first := parsed.errors[0];
      Failure(if first.message.Some? then first.message.value else "CSV parse error")
    else if parsed.data == [] then ParseResult(true, Js.None, [], [], 0)
    else if !HasRequired(parsed.data[0].Keys) then Failure(MissingColumns)
    else
      var rr := RowResults(parsed.data, toIso);
      ValidPlusInvalid(rr);
      ParseResult(true, Js.None, rr, ValidRowsOf(rr), CountInvalid(rr))
  }

  /** Each record yields one result, numbered from line 2, and every valid row is good. */
  lemma ParsedRows(parsed: Parsed, toIso: string -> Js.Option<string>)
    requires ParseOf(parsed, toIso).success
    ensures var r := ParseOf(parsed, toIso);
            (forall i :: 0 <= i < |r.rowResults| ==> r.rowResults[i].rowIndex == i + 2) &&
            (forall j :: 0 <= j < |r.validRows| ==> GoodRow(r.validRows[j]))
  {
    if parsed.data != [] {
      var rr := RowResults(parsed.data, toIso);
      forall i | 0 <= i < |rr| ensures rr[i].rowIndex == i + 2 && (rr[i].Valid? ==> GoodRow(rr[i].row)) {
        RowResultsAt(parsed.data, toIso, i);
      }
      ValidRowsAreGood(rr);
    }
  }

  /** `parseTradesCsv`'s result, built by the row loop. */
  method ParseTradesCsv(parsed: Parsed, toIso: string -> Js.Option<string>) returns (result: ParseResult)
    ensures result == ParseOf(parsed, toIso)
  {
    if |parsed.errors| > 0 {
      var first := parsed.errors[0];
      return Failure(if first.message.Some? then first.message.value else "CSV parse error");
    }
    var rows := parsed.data;
    if |rows| == 0 {
      return ParseResult(true, Js.None, [], [], 0);
    }
    if !HasRequired(rows[0].Keys) {
      return Failure(MissingColumns);
    }
    var rowResults, validRows := RowLoop(rows, toIso);
    result := ParseResult(true, Js.None, rowResults, validRows, CountInvalid(rowResults));
  }

  /** The row loop of `parseTradesCsv`: one result per record, and the valid rows collected alongside. */
  method RowLoop(rows: seq<map<string, string>>, toIso: string -> Js.Option<string>)
    returns (rowResults: seq<RowResult>, validRows: seq<ParsedTradeRow>)
    ensures rowResults == RowResults(rows, toIso)
    ensures validRows == ValidRowsOf(rowResults)
  {
    rowResults := [];
    validRows := [];
    for i := 0 to |rows|
      invariant rowResults == RowResults(rows[..i], toIso)
      invariant validRows == ValidRowsOf(rowResults)
    {
      var r := RowResultOf(rows[i], i, toIso);
      RowResultsStep(rows, toIso, i);
      ValidRowsStep(rowResults, r);
      rowResults := rowResults + [r];
      if r.Valid? {
        validRows := validRows + [r.row];
      }
    }
    assert rows[..|rows|] == rows;
  }

  lemma RowResultsStep(rows: seq<map<string, string>>, toIso: string -> Js.Option<string>, i: nat)
    requires i < |rows|
    ensures RowResults(rows[..i + 1], toIso) == RowResults(rows[..i], toIso) + [RowResultOf(rows[i], i, toIso)]
  {
    assert rows[..i + 1][..i] == rows[..i];
  }

  lemma ValidRowsStep(rr: seq<RowResult>, r: RowResult)
    ensures ValidRowsOf(rr + [r]) == ValidRowsOf(rr) + (if r.Valid? then [r.row] else [])
  {
    assert (rr + [r])[..|rr|] == rr;
  }

  // ---------------------------------------------------------------------
  // The market lookup as written

  /** What `MARKET_ALIASES[key]` yields on a plain JavaScript object: an own
      alias, or a member inherited from `Object.prototype`, which `?? null`
      lets through because it is not nullish. */
  datatype AliasValue = Own(market: Market) | Inherited(member: string)

  /** The members of `Object.prototype` whose names are already lower case,
      so that a lower-cased market value can reach them. */
  const InheritedMembers: set<string> := {"constructor", "__proto__"}

  /** `normalizeMarket` as written. */
  function MarketLookupAsWritten(s: string): (r: Js.Option<AliasValue>)
    ensures r.Some? && r.value.Own? ==> NormalizeMarket(s) == Js.Some(r.value.market)
  {
    var key := MarketKey(s);
    if key in MarketAliases then Js.Some(Own(MarketAliases[key]))
    else if key in InheritedMembers then Js.Some(Inherited(key))
    else Js.None
  }

  /** `normalizeMarket(marketStr) ?? inferMarketFromSymbol(symbol)` as written. */
  function RowMarketAsWritten(marketStr: string, symbol: string): AliasValue
  {
    match MarketLookupAsWritten(marketStr)
    case Some(v) => v
    case None => Own(InferMarket(symbol))
  }

  /** The market test of `validateRow` as written: only the three canonical
      markets pass. */
  function MarketCheckAsWritten(v: AliasValue): (e: Js.Option<string>)
    ensures e.None? <==> v.Own?
  {
    if v.Own? then Js.None else Js.Some("Invalid market (use crypto, forex, or stocks)")
  }

  /** The source's lookup agrees with the own-key one on every market text
      whose key names no inherited member; on the others it yields that
      member. */
  lemma MarketLookupAgrees(s: string)
    ensures MarketKey(s) !in InheritedMembers ==>
              MarketLookupAsWritten(s) == match NormalizeMarket(s) case Some(m) => Js.Some(Own(m)) case None => Js.None
    ensures MarketKey(s) in InheritedMembers ==> MarketLookupAsWritten(s) == Js.Some(Inherited(MarketKey(s)))
  {
    var key := MarketKey(s);
    if key in InheritedMembers {
      InheritedAreNoAliases(key);
    }
  }

  /** The market the loop takes from a record's market text `m` (the
      `RowMarket` of a record whose trimmed market column is `m`) agrees with
      the source's on every `m` except one whose key names an inherited
      member: there the source yields that member and `validateRow` rejects
      the row. */
  lemma RowMarketAsWrittenAgrees(m: string, symbol: string)
    ensures MarketKey(m) !in InheritedMembers ==>
              RowMarketAsWritten(m, symbol) == Own(match NormalizeMarket(m) case Some(v) => v case None => InferMarket(symbol))
    ensures MarketKey(m) in InheritedMembers ==>
              RowMarketAsWritten(m, symbol) == Inherited(MarketKey(m)) &&
              MarketCheckAsWritten(RowMarketAsWritten(m, symbol)).Some?
  {
    MarketLookupAgrees(m);
  }

  /** No inherited member of `Object.prototype` is an alias. */
  lemma InheritedAreNoAliases(key: string)
    requires key in InheritedMembers
    ensures key !in MarketAliases
  {
  }

  lemma ConstructorKey()
    ensures MarketKey("Constructor") == "constructor"
  {
    assert Lower("Constructor") == "constructor";
    assert Unpadded("constructor") && NoSpace("constructor");
    CollapseOfNoSpace("constructor", '_');
  }

  lemma ConstructorIsNoAlias()
    ensures "constructor" !in MarketAliases && "constructor" in InheritedMembers
  {
  }

  /** As written, a market column reading "Constructor" yields the inherited
      `Object` constructor: the symbol is never consulted and `validateRow`,
      which only accepts the three markets, rejects the row. */
  lemma ConstructorMarketAsWritten()
    ensures RowMarketAsWritten("Constructor", "BTCUSDT") == Inherited("constructor")
    ensures MarketCheckAsWritten(RowMarketAsWritten("Constructor", "BTCUSDT")).Some?
  {
    ConstructorKey();
    ConstructorIsNoAlias();
  }

  /** With the alias table read as own keys, the same row falls back to
      inference from the symbol and is crypto. */
  lemma ConstructorMarketCorrected()
    ensures NormalizeMarket("Constructor") == Js.None
    ensures RowMarket(map["market" := "Constructor", "symbol" := "BTCUSDT"], "BTCUSDT") == Crypto
  {
    ConstructorKey();
    ConstructorIsNoAlias();
    ConstructorRowMarket();
  }

  lemma ConstructorField()
    ensures TrimVal(Field(map["market" := "Constructor", "symbol" := "BTCUSDT"], "market")) == "Constructor"
  {
    assert Unpadded("Constructor");
  }

  lemma ConstructorRowMarket()
    ensures RowMarket(map["market" := "Constructor", "symbol" := "BTCUSDT"], "BTCUSDT") == Crypto
  {
    ConstructorField();
    ConstructorKey();
    ConstructorIsNoAlias();
    BtcUsdtInferred();
  }
}
