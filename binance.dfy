/**
 * The coin-id / exchange-symbol mapping (src/utils/binance.ts): one constant
 * table of supported coins, and two dictionaries built from it by folds, one
 * from the market-data coin id to the lowercase exchange trading pair and one
 * back. JavaScript plain objects used as dictionaries are modelled as their
 * own entries in insertion order.
 */
module Binance {
  import opened Wrappers

  datatype CoinMetadata = CoinMetadata(id: string, symbol: string, name: string, binanceSymbol: string)

  /** The supported coins, in table order. */
  const SupportedCoins: seq<CoinMetadata> := [
    CoinMetadata("bitcoin", "BTC", "Bitcoin", "btcusdt"),
    CoinMetadata("ethereum", "ETH", "Ethereum", "ethusdt"),
    CoinMetadata("solana", "SOL", "Solana", "solusdt"),
    CoinMetadata("ripple", "XRP", "Ripple", "xrpusdt"),
    CoinMetadata("dogecoin", "DOGE", "Dogecoin", "dogeusdt"),
    CoinMetadata("cardano", "ADA", "Cardano", "adausdt"),
    CoinMetadata("polkadot", "DOT", "Polkadot", "dotusdt"),
    CoinMetadata("litecoin", "LTC", "Litecoin", "ltcusdt"),
    CoinMetadata("chainlink", "LINK", "Chainlink", "linkusdt"),
    CoinMetadata("shiba-inu", "SHIB", "Shiba Inu", "shibusdt"),
    CoinMetadata("avalanche", "AVAX", "Avalanche", "avaxusdt"),
    CoinMetadata("stellar", "XLM", "Stellar", "xlmusdt"),
    CoinMetadata("tron", "TRX", "TRON", "trxusdt"),
    CoinMetadata("monero", "XMR", "Monero", "xmrusdt"),
    CoinMetadata("cosmos", "ATOM", "Cosmos", "atomusdt"),
    CoinMetadata("uniswap", "UNI", "Uniswap", "uniusdt"),
    CoinMetadata("aptos", "APT", "Aptos", "aptusdt"),
    CoinMetadata("near", "NEAR", "NEAR Protocol", "nearusdt"),
    CoinMetadata("vechain", "VET", "VeChain", "vetusdt"),
    CoinMetadata("filecoin", "FIL", "Filecoin", "filusdt"),
    CoinMetadata("optimism", "OP", "Optimism", "opusdt"),
    CoinMetadata("arbitrum", "ARB", "Arbitrum", "arbusdt"),
    CoinMetadata("celestia", "TIA", "Celestia", "tiausdt"),
    CoinMetadata("sei", "SEI", "Sei", "seiusdt"),
    CoinMetadata("injective", "INJ", "Injective", "injusdt"),
    CoinMetadata("fantom", "FTM", "Fantom", "ftmusdt"),
    CoinMetadata("sui", "SUI", "Sui", "suiusdt"),
    CoinMetadata("polygon", "MATIC", "Polygon", "maticusdt"),
    CoinMetadata("pepe", "PEPE", "Pepe", "pepeusdt"),
    CoinMetadata("worldcoin", "WLD", "Worldcoin", "wldusdt")
  ]

  /** A plain object used as a string dictionary: its own entries, in insertion order. */
  type Record = seq<(string, string)>

  function Keys(r: Record): seq<string> {
    seq(|r|, i requires 0 <= i < |r| => r[i].0)
  }

  function Values(r: Record): seq<string> {
    seq(|r|, i requires 0 <= i < |r| => r[i].1)
  }

  predicate Distinct(s: seq<string>) {
    forall i, j :: 0 <= i < j < |s| ==> s[i] != s[j]
  }

  /** Reading an own property: the value stored under `key`, if any. */
  function Lookup(r: Record, key: string): (v: Option<string>)
    ensures v.None? <==> key !in Keys(r)
    ensures v.Some? ==> (key, v.value) in r && v.value in Values(r)
  {
    if |r| == 0 then None
    else
      assert Keys(r) == [r[0].0] + Keys(r[1..]);
      assert Values(r) == [r[0].1] + Values(r[1..]);
      if r[0].0 == key then Some(r[0].1) else Lookup(r[1..], key)
  }

  /**
   * `{ ...acc, [key]: value }`: an existing key keeps its place and takes the
   * new value; a new key is added at the end. Either way the key now reads the
   * new value and every other key reads what it read before.
   */
  function Assign(r: Record, key: string, value: string): (r': Record)
    ensures |r'| == if key in Keys(r) then |r| else |r| + 1
    ensures key in Keys(r) ==> Keys(r') == Keys(r)
    ensures key !in Keys(r) ==> r' == r + [(key, value)]
    ensures forall k :: Lookup(r', k) == if k == key then Some(value) else Lookup(r, k)
    ensures forall v :: v in Values(r') ==> v in Values(r) || v == value
  {
    if |r| == 0 then [(key, value)]
    else
      assert Keys(r) == [r[0].0] + Keys(r[1..]);
      assert Values(r) == [r[0].1] + Values(r[1..]);
      if r[0].0 == key then
        var r' := [(key, value)] + r[1..];
        assert r'[1..] == r[1..];
        assert Keys(r') == [key] + Keys(r[1..]);
        assert Values(r') == [value] + Values(r[1..]);
        r'
      else
        var rest := Assign(r[1..], key, value);
        var r' := [r[0]] + rest;
        assert r'[1..] == rest;
        assert Keys(r') == [r[0].0] + Keys(rest);
        assert Values(r') == [r[0].1] + Values(rest);
        r'
  }

  /** COINGECKO_TO_BINANCE: the fold over the table assigning each coin id its exchange symbol. */
  function IdToSymbol(coins: seq<CoinMetadata>): (r: Record)
    ensures forall k :: k in Keys(r) <==> k in Ids(coins)
    ensures forall v :: v in Values(r) ==> v in Symbols(coins)
  {
    if |coins| == 0 then []
    else
      var prefix, last := coins[..|coins| - 1], coins[|coins| - 1];
      assert Ids(coins) == Ids(prefix) + [last.id];
      assert Symbols(coins) == Symbols(prefix) + [last.binanceSymbol];
      var r := Assign(IdToSymbol(prefix), last.id, last.binanceSymbol);
      assert forall k :: k in Keys(r) <==> Lookup(r, k).Some?;
      assert forall k :: k in Keys(IdToSymbol(prefix)) <==> Lookup(IdToSymbol(prefix), k).Some?;
      r
  }

  /** BINANCE_TO_COIN_ID: the fold over a record's entries assigning each value its key. */
  function Inverted(entries: Record): (r: Record)
    ensures forall k :: k in Keys(r) <==> k in Values(entries)
    ensures forall v :: v in Values(r) ==> v in Keys(entries)
  {
    if |entries| == 0 then []
    else
      var prefix, last := entries[..|entries| - 1], entries[|entries| - 1];
      assert Keys(entries) == Keys(prefix) + [last.0];
      assert Values(entries) == Values(prefix) + [last.1];
      var r := Assign(Inverted(prefix), last.1, last.0);
      assert forall k :: k in Keys(r) <==> Lookup(r, k).Some?;
      assert forall k :: k in Keys(Inverted(prefix)) <==> Lookup(Inverted(prefix), k).Some?;
      r
  }

  const CoinGeckoToBinance: Record := IdToSymbol(SupportedCoins)
  const BinanceToCoinId: Record := Inverted(CoinGeckoToBinance)

  /** `value || null` on a string read: the empty string is falsy, so it becomes null too. */
  function OrNull(v: Option<string>): (r: Option<string>)
    ensures r.Some? <==> v.Some? && v.value != ""
    ensures r.Some? ==> r == v
  {
    if v.Some? && v.value != "" then v else None
  }

  /** The lowercase form of an ASCII letter; every other character is kept. */
  function LowerChar(c: char): char {
    if 'A' <= c <= 'Z' then (c as int - 'A' as int + 'a' as int) as char else c
  }

  /** `String.prototype.toLowerCase` on ASCII letters. */
  function ToLowerCase(s: string): (t: string)
    ensures |t| == |s|
    ensures forall i :: 0 <= i < |s| ==> t[i] == LowerChar(s[i])
  {
    if |s| == 0 then "" else [LowerChar(s[0])] + ToLowerCase(s[1..])
  }

  predicate IsLowerCase(s: string) {
    forall i :: 0 <= i < |s| ==> !('A' <= s[i] <= 'Z')
  }

  /** `getBinanceSymbol`: the exchange symbol of a supported coin id, or null. */
  function GetBinanceSymbol(id: string): (s: Option<string>)
    ensures s.Some? ==> id in Ids(SupportedCoins) && s.value in Symbols(SupportedCoins)
  {
    OrNull(Lookup(CoinGeckoToBinance, id))
  }

  /** `getCoinId`: the coin id of an exchange symbol, looked up in lowercase, or null. */
  function GetCoinId(symbol: string): (id: Option<string>)
    ensures id.Some? ==> ToLowerCase(symbol) in Symbols(SupportedCoins) && id.value in Ids(SupportedCoins)
  {
    OrNull(Lookup(BinanceToCoinId, ToLowerCase(symbol)))
  }

  /** The table's ids, symbols and id-to-symbol entries, in table order. */
  function Ids(coins: seq<CoinMetadata>): seq<string> {
    seq(|coins|, i requires 0 <= i < |coins| => coins[i].id)
  }

  function Symbols(coins: seq<CoinMetadata>): seq<string> {
    seq(|coins|, i requires 0 <= i < |coins| => coins[i].binanceSymbol)
  }

  function Entries(coins: seq<CoinMetadata>): (r: Record)
    ensures Keys(r) == Ids(coins) && Values(r) == Symbols(coins)
  {
    seq(|coins|, i requires 0 <= i < |coins| => (coins[i].id, coins[i].binanceSymbol))
  }

  /** A record with every entry turned around. */
  function Swapped(r: Record): (r': Record)
    ensures Keys(r') == Values(r) && Values(r') == Keys(r)
  {
    seq(|r|, i requires 0 <= i < |r| => (r[i].1, r[i].0))
  }

  /** In a record with distinct keys, every key reads back its own entry's value. */
  lemma {:induction false} LookupDistinct(r: Record, i: int)
    requires Distinct(Keys(r)) && 0 <= i < |r|
    ensures Lookup(r, r[i].0) == Some(r[i].1)
  {
    assert Keys(r)[i] == r[i].0;
    var v := Lookup(r, r[i].0).value;
    var j :| 0 <= j < |r| && r[j] == (r[i].0, v);
    assert Keys(r)[j] == Keys(r)[i];
  }

  /** With distinct coin ids no assignment of the fold overwrites, so the dictionary lists the table in order. */
  lemma {:induction false} IdToSymbolIsEntries(coins: seq<CoinMetadata>)
    requires Distinct(Ids(coins))
    ensures IdToSymbol(coins) == Entries(coins)
  {
    if |coins| > 0 {
      var prefix, last := coins[..|coins| - 1], coins[|coins| - 1];
      assert forall i :: 0 <= i < |prefix| ==> Ids(prefix)[i] == Ids(coins)[i];
      IdToSymbolIsEntries(prefix);
      assert Ids(coins)[|coins| - 1] == last.id;
      assert last.id !in Ids(prefix);
      assert Entries(coins) == Entries(prefix) + [(last.id, last.binanceSymbol)];
    }
  }

  /** With distinct values no assignment of the inverting fold overwrites, so it turns every entry around. */
  lemma {:induction false} InvertedIsSwapped(entries: Record)
    requires Distinct(Values(entries))
    ensures Inverted(entries) == Swapped(entries)
  {
    if |entries| > 0 {
      var prefix, last := entries[..|entries| - 1], entries[|entries| - 1];
      assert forall i :: 0 <= i < |prefix| ==> Values(prefix)[i] == Values(entries)[i];
      InvertedIsSwapped(prefix);
      assert Values(entries)[|entries| - 1] == last.1;
      assert last.1 !in Values(prefix);
      assert Swapped(entries) == Swapped(prefix) + [(last.1, last.0)];
    }
  }

  /**
   * The round trip through both dictionaries, for any table whose ids and
   * symbols are each distinct: a coin's symbol maps back to its id.
   */
  lemma {:induction false} RoundTripWithDistinctKeys(coins: seq<CoinMetadata>, i: int)
    requires Distinct(Ids(coins)) && Distinct(Symbols(coins)) && 0 <= i < |coins|
    ensures Lookup(IdToSymbol(coins), coins[i].id) == Some(coins[i].binanceSymbol)
    ensures Lookup(Inverted(IdToSymbol(coins)), coins[i].binanceSymbol) == Some(coins[i].id)
  {
    IdToSymbolIsEntries(coins);
    InvertedIsSwapped(Entries(coins));
    LookupDistinct(Entries(coins), i);
    LookupDistinct(Swapped(Entries(coins)), i);
  }

  /**
   * Distinct symbols are needed: when two coins share one, the later coin
   * overwrites the earlier in the inverted dictionary, and the earlier coin's
   * round trip lands on the wrong id.
   */
  lemma SharedSymbolBreaksRoundTrip()
    ensures
      var coins := [CoinMetadata("first", "A", "First", "ausdt"), CoinMetadata("second", "A", "Second", "ausdt")];
      && Lookup(IdToSymbol(coins), "first") == Some("ausdt")
      && Lookup(Inverted(IdToSymbol(coins)), "ausdt") == Some("second")
  {
    var coins := [CoinMetadata("first", "A", "First", "ausdt"), CoinMetadata("second", "A", "Second", "ausdt")];
    assert coins[..1] == [coins[0]] && [coins[0]][..0] == [];
    assert IdToSymbol([coins[0]]) == [("first", "ausdt")];
    var forward := IdToSymbol(coins);
    assert forward == [("first", "ausdt"), ("second", "ausdt")];
    assert forward[..1] == [("first", "ausdt")] && [("first", "ausdt")][..0] == [];
    assert Inverted([("first", "ausdt")]) == [("ausdt", "first")];
    assert Inverted(forward) == [("ausdt", "second")];
  }

  /** A trading-pair symbol quoted in USDT: it ends in the four letters u, s, d, t. */
  predicate EndsInUsdt(s: string) {
    |s| > 4 && s[|s| - 4] == 'u' && s[|s| - 3] == 's' && s[|s| - 2] == 'd' && s[|s| - 1] == 't'
  }

  /** A table row the lookups rely on: a non-empty id and a lowercase USDT pair. */
  predicate WellFormedRow(coin: CoinMetadata) {
    coin.id != "" && IsLowerCase(coin.binanceSymbol) && EndsInUsdt(coin.binanceSymbol)
  }

  // The facts about the literal table are checked a block of rows at a time:
  // each row is well formed, and shares neither its id nor its exchange
  // symbol with any later row.

  lemma FirstRowsWellFormed()
    ensures forall i :: 0 <= i < 6 ==> WellFormedRow(SupportedCoins[i])
  {
  }

  lemma SecondRowsWellFormed()
    ensures forall i :: 6 <= i < 12 ==> WellFormedRow(SupportedCoins[i])
  {
  }

  lemma ThirdRowsWellFormed()
    ensures forall i :: 12 <= i < 18 ==> WellFormedRow(SupportedCoins[i])
  {
  }

  lemma FourthRowsWellFormed()
    ensures forall i :: 18 <= i < 24 ==> WellFormedRow(SupportedCoins[i])
  {
  }

  lemma FifthRowsWellFormed()
    ensures forall i :: 24 <= i < 30 ==> WellFormedRow(SupportedCoins[i])
  {
  }


  lemma FirstIdsUnique()
    ensures forall i, j :: 0 <= i < 4 && i < j < |SupportedCoins| ==> SupportedCoins[i].id != SupportedCoins[j].id
  {
  }

  lemma MiddleIdsUnique()
    ensures forall i, j :: 4 <= i < 10 && i < j < |SupportedCoins| ==> SupportedCoins[i].id != SupportedCoins[j].id
  {
  }

  lemma LastIdsUnique()
    ensures forall i, j :: 10 <= i < 30 && i < j < |SupportedCoins| ==> SupportedCoins[i].id != SupportedCoins[j].id
  {
  }

  lemma FirstSymbolsUnique()
    ensures forall i, j :: 0 <= i < 4 && i < j < |SupportedCoins| ==> SupportedCoins[i].binanceSymbol != SupportedCoins[j].binanceSymbol
  {
  }

  lemma MiddleSymbolsUnique()
    ensures forall i, j :: 4 <= i < 10 && i < j < |SupportedCoins| ==> SupportedCoins[i].binanceSymbol != SupportedCoins[j].binanceSymbol
  {
  }

  lemma LastSymbolsUnique()
    ensures forall i, j :: 10 <= i < 30 && i < j < |SupportedCoins| ==> SupportedCoins[i].binanceSymbol != SupportedCoins[j].binanceSymbol
  {
  }

  /** Every table symbol is a lowercase USDT pair, and no id is empty. */
  lemma SupportedRowsWellFormed()
    ensures forall i :: 0 <= i < |SupportedCoins| ==> WellFormedRow(SupportedCoins[i])
  {
    FirstRowsWellFormed();
    SecondRowsWellFormed();
    ThirdRowsWellFormed();
    FourthRowsWellFormed();
    FifthRowsWellFormed();
  }

  /** One row of the table is well formed. */
  lemma SupportedRowWellFormed(i: int)
    requires 0 <= i < |SupportedCoins|
    ensures WellFormedRow(SupportedCoins[i])
  {
    SupportedRowsWellFormed();
  }

  /** The table's coin ids and its exchange symbols are each free of duplicates. */
  lemma SupportedKeysDistinct()
    ensures Distinct(Ids(SupportedCoins)) && Distinct(Symbols(SupportedCoins))
  {
    FirstIdsUnique();
    MiddleIdsUnique();
    LastIdsUnique();
    FirstSymbolsUnique();
    MiddleSymbolsUnique();
    LastSymbolsUnique();
  }

  /** COINGECKO_TO_BINANCE lists the table's id-to-symbol pairs in table order, and BINANCE_TO_COIN_ID the same pairs turned around. */
  lemma DictionariesListTheTable()
    ensures CoinGeckoToBinance == Entries(SupportedCoins)
    ensures BinanceToCoinId == Swapped(Entries(SupportedCoins))
  {
    SupportedKeysDistinct();
    IdToSymbolIsEntries(SupportedCoins);
    InvertedIsSwapped(Entries(SupportedCoins));
  }

  /** `getBinanceSymbol` gives every supported coin its exchange symbol. */
  lemma GetBinanceSymbolOfSupportedCoin(i: int)
    requires 0 <= i < |SupportedCoins|
    ensures GetBinanceSymbol(SupportedCoins[i].id) == Some(SupportedCoins[i].binanceSymbol)
  {
    SupportedKeysDistinct();
    SupportedRowWellFormed(i);
    DictionariesListTheTable();
    LookupDistinct(Entries(SupportedCoins), i);
  }

  /** `getBinanceSymbol` is non-null exactly for the supported ids: an unknown id gives null. */
  lemma GetBinanceSymbolNullIffUnknown(id: string)
    ensures GetBinanceSymbol(id).None? <==> id !in Ids(SupportedCoins)
  {
    DictionariesListTheTable();
    if id in Ids(SupportedCoins) {
      var i :| 0 <= i < |SupportedCoins| && Ids(SupportedCoins)[i] == id;
      GetBinanceSymbolOfSupportedCoin(i);
    }
  }

  /** Lowercasing a lowercase string changes nothing. */
  lemma ToLowerCaseKeepsLowerCase(s: string)
    requires IsLowerCase(s)
    ensures ToLowerCase(s) == s
  {
  }

  /** Lowercasing twice is lowercasing once. */
  lemma ToLowerCaseIdempotent(s: string)
    ensures IsLowerCase(ToLowerCase(s))
    ensures ToLowerCase(ToLowerCase(s)) == ToLowerCase(s)
  {
    ToLowerCaseKeepsLowerCase(ToLowerCase(s));
  }

  /** `getCoinId` maps a supported coin's symbol, in any letter case, back to the coin's id. */
  lemma GetCoinIdOfSupportedSymbol(i: int, symbol: string)
    requires 0 <= i < |SupportedCoins|
    requires ToLowerCase(symbol) == SupportedCoins[i].binanceSymbol
    ensures GetCoinId(symbol) == Some(SupportedCoins[i].id)
  {
    SupportedKeysDistinct();
    SupportedRowWellFormed(i);
    DictionariesListTheTable();
    LookupDistinct(Swapped(Entries(SupportedCoins)), i);
  }

  /** `getCoinId` is non-null exactly for the symbols whose lowercase form is in the table: an absent symbol gives null. */
  lemma GetCoinIdNullIffUnknown(symbol: string)
    ensures GetCoinId(symbol).None? <==> ToLowerCase(symbol) !in Symbols(SupportedCoins)
  {
    DictionariesListTheTable();
    if ToLowerCase(symbol) in Symbols(SupportedCoins) {
      var i :| 0 <= i < |SupportedCoins| && Symbols(SupportedCoins)[i] == ToLowerCase(symbol);
      GetCoinIdOfSupportedSymbol(i, symbol);
    }
  }

  /** `getCoinId` ignores letter case: a symbol and its lowercase form give the same id. */
  lemma GetCoinIdIgnoresCase(symbol: string)
    ensures GetCoinId(symbol) == GetCoinId(ToLowerCase(symbol))
  {
    ToLowerCaseIdempotent(symbol);
  }

  /** The round trip through both dictionaries: a supported id comes back from its own symbol. */
  lemma SymbolRoundTrip(id: string)
    requires id in Ids(SupportedCoins)
    ensures GetBinanceSymbol(id).Some?
    ensures GetCoinId(GetBinanceSymbol(id).value) == Some(id)
  {
    var i :| 0 <= i < |SupportedCoins| && Ids(SupportedCoins)[i] == id;
    GetBinanceSymbolOfSupportedCoin(i);
    SupportedRowWellFormed(i);
    ToLowerCaseKeepsLowerCase(SupportedCoins[i].binanceSymbol);
    GetCoinIdOfSupportedSymbol(i, SupportedCoins[i].binanceSymbol);
  }

  /** The other way round: whatever id `getCoinId` finds has the lowercased symbol as its own. */
  lemma IdRoundTrip(symbol: string)
    requires GetCoinId(symbol).Some?
    ensures GetBinanceSymbol(GetCoinId(symbol).value) == Some(ToLowerCase(symbol))
  {
    GetCoinIdNullIffUnknown(symbol);
    var i :| 0 <= i < |SupportedCoins| && Symbols(SupportedCoins)[i] == ToLowerCase(symbol);
    GetCoinIdOfSupportedSymbol(i, symbol);
    GetBinanceSymbolOfSupportedCoin(i);
  }

  /** The exchange reports symbols in upper case; `getCoinId` still finds the coin. */
  lemma UpperCaseBitcoinSymbol()
    ensures GetCoinId("BTCUSDT") == Some("bitcoin")
  {
    assert ToLowerCase("BTCUSDT") == "btcusdt";
    GetCoinIdOfSupportedSymbol(0, "BTCUSDT");
  }

  // Reading a property of a plain object in JavaScript also finds the members
  // every object inherits from Object.prototype. The two lookups read the
  // dictionaries with `dict[key] || null`, so a key naming one of those
  // members yields the inherited function or object instead of null.

  /** The value of a JavaScript property read or of `|| null`, as far as the lookups can see it. */
  datatype JsValue = Null | Undefined | Str(s: string) | Inherited(member: string)

  /** The properties every plain object inherits from Object.prototype. */
  const ObjectPrototypeMembers: set<string> := {
    "constructor", "__proto__", "hasOwnProperty", "isPrototypeOf", "propertyIsEnumerable",
    "toString", "toLocaleString", "valueOf",
    "__defineGetter__", "__defineSetter__", "__lookupGetter__", "__lookupSetter__"
  }

  /** `dict[key]`: an own property first, then an inherited member, otherwise undefined. */
  function PropertyRead(r: Record, key: string): (v: JsValue)
    ensures v.Str? <==> key in Keys(r)
    ensures v.Inherited? <==> key !in Keys(r) && key in ObjectPrototypeMembers
    ensures v.Str? ==> Lookup(r, key) == Some(v.s)
    ensures v.Inherited? ==> v.member == key
  {
    match Lookup(r, key)
    case Some(value) => Str(value)
    case None => if key in ObjectPrototypeMembers then Inherited(key) else Undefined
  }

  /** JavaScript truthiness: the empty string, null and undefined are falsy; functions and objects are truthy. */
  predicate Truthy(v: JsValue) {
    match v
    case Null => false
    case Undefined => false
    case Str(s) => s != ""
    case Inherited(_) => true
  }

  /** `getBinanceSymbol` as written: `COINGECKO_TO_BINANCE[id] || null`. */
  function GetBinanceSymbolAsWritten(id: string): (v: JsValue)
    ensures v.Null? || Truthy(v)
  {
    var read := PropertyRead(CoinGeckoToBinance, id);
    if Truthy(read) then read else Null
  }

  /** A nullable string as the JavaScript value that carries it. */
  function AsJsValue(v: Option<string>): JsValue {
    match v
    case None => Null
    case Some(s) => Str(s)
  }

  /** No supported id is as long as "constructor". */
  lemma SupportedIdsAreShort()
    ensures forall i :: 0 <= i < |SupportedCoins| ==> |SupportedCoins[i].id| < |"constructor"|
  {
  }

  /**
   * The id "constructor" is not a supported coin, yet the lookup as written
   * answers with the inherited Object constructor rather than null.
   */
  lemma ConstructorIdLeaksPrototype()
    ensures "constructor" !in Ids(SupportedCoins)
    ensures GetBinanceSymbol("constructor") == None
    ensures GetBinanceSymbolAsWritten("constructor") == Inherited("constructor")
  {
    SupportedIdsAreShort();
    assert "constructor" !in Ids(SupportedCoins);
    GetBinanceSymbolNullIffUnknown("constructor");
    DictionariesListTheTable();
  }

  /** Off the inherited member names, the lookup as written and the own-property lookup agree. */
  lemma AsWrittenAgreesOffPrototype(id: string)
    requires id !in ObjectPrototypeMembers
    ensures GetBinanceSymbolAsWritten(id) == AsJsValue(GetBinanceSymbol(id))
  {
  }

  /** `getCoinId` as written: `BINANCE_TO_COIN_ID[symbol.toLowerCase()] || null`. */
  function GetCoinIdAsWritten(symbol: string): (v: JsValue)
    ensures v.Null? || Truthy(v)
  {
    var read := PropertyRead(BinanceToCoinId, ToLowerCase(symbol));
    if Truthy(read) then read else Null
  }

  /** No exchange symbol in the table is as long as "constructor". */
  lemma SupportedSymbolsAreShort()
    ensures forall i :: 0 <= i < |SupportedCoins| ==> |SupportedCoins[i].binanceSymbol| < |"constructor"|
  {
  }

  lemma ConstructorIsNoSymbol()
    ensures "constructor" !in Symbols(SupportedCoins)
  {
    SupportedSymbolsAreShort();
  }

  /**
   * The symbol "constructor" is already in lower case and is no table symbol,
   * yet the lookup as written answers with the inherited Object constructor
   * rather than null.
   */
  lemma ConstructorSymbolLeaksPrototype()
    ensures ToLowerCase("constructor") == "constructor"
    ensures "constructor" !in Symbols(SupportedCoins)
    ensures GetCoinId("constructor") == None
    ensures GetCoinIdAsWritten("constructor") == Inherited("constructor")
  {
    ToLowerCaseKeepsLowerCase("constructor");
    ConstructorIsNoSymbol();
    GetCoinIdNullIffUnknown("constructor");
    DictionariesListTheTable();
  }

  /** When the lowercased symbol is not an inherited member name, both forms of `getCoinId` agree. */
  lemma CoinIdAsWrittenAgreesOffPrototype(symbol: string)
    requires ToLowerCase(symbol) !in ObjectPrototypeMembers
    ensures GetCoinIdAsWritten(symbol) == AsJsValue(GetCoinId(symbol))
  {
  }

  /** Every inherited member name that is not a supported id leaks: the lookup as written answers with that member. */
  lemma AsWrittenOnPrototype(id: string)
    requires id in ObjectPrototypeMembers
    ensures id !in Ids(SupportedCoins)
    ensures GetBinanceSymbolAsWritten(id) == Inherited(id)
  {
    PrototypeMembersAreNoIds();
    DictionariesListTheTable();
  }

  /** No inherited member name is a supported id. */
  lemma PrototypeMembersAreNoIds()
    ensures forall id :: id in ObjectPrototypeMembers ==> id !in Ids(SupportedCoins)
  {
    SupportedIdsAreShort();
    assert forall i :: 0 <= i < |SupportedCoins| ==> SupportedCoins[i].id != "valueOf";
  }

  /**
   * Among the inherited member names only "constructor" and "__proto__" are in
   * lower case, so they are the only ones a symbol can reach through
   * `toLowerCase`; a symbol that lowercases to either leaks.
   */
  lemma CoinIdAsWrittenOnPrototype(symbol: string)
    requires ToLowerCase(symbol) in {"constructor", "__proto__"}
    ensures GetCoinIdAsWritten(symbol) == Inherited(ToLowerCase(symbol))
  {
    ConstructorIsNoSymbol();
    ProtoIsNoSymbol();
    DictionariesListTheTable();
  }

  lemma ProtoIsNoSymbol()
    ensures "__proto__" !in Symbols(SupportedCoins)
  {
    SupportedRowsWellFormed();
  }
}
