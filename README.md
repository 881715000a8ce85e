# Paper-trading core in Dafny

This project models the accounting core of a crypto paper-trading web app. It has three parts:

- **Trade engine** (`trade_engine.dfy`, module `TradeEngine`). This models `executeTrade`. Given a USD balance, the position held in one asset, a reference price and a BUY or SELL request, it computes:
  - the execution price, with adverse slippage of 0.01%–0.05%;
  - the quantity traded;
  - the 0.1% fee;
  - the new balance;
  - the new position, with its weighted-average cost basis;
  - for a sale, the realized profit or loss.

  It is pure: a function over `real`, defined for a positive amount and a positive reference price (and, for a BUY, a non-negative held quantity), which is what every caller passes. The random draw is an explicit parameter in [0, 1).
- **Wallet state transitions** (`wallet_context.dfy`, module `WalletContext`). These are the `buy`, `sell`, `setUser` and `getUnrealizedPnl` members of the wallet context. Each user id owns a wallet: a balance, positions keyed by asset id, and a trade history with the newest trade first.
  - The three updaters are React state updaters, so they are modelled as pure functions from the previous state to the next.
  - `buy` and `sell` run the engine. They record a trade at the head of the history. They leave the state untouched when there is no user, the amount is not positive, or the engine rejects the trade.
  - `setUser` lazily creates a wallet with the default balance of 10000.
- **Coin-id / exchange-symbol mapping** (`binance.dfy`, module `Binance`). This covers:
  - the constant table of 30 supported coins;
  - the two dictionaries the source builds from it with folds (`COINGECKO_TO_BINANCE` and `BINANCE_TO_COIN_ID`);
  - the lookups `getBinanceSymbol` and `getCoinId`.

  A JavaScript plain object used as a dictionary is modelled as its own entries in insertion order (`Record`). A spread-and-assign step (`Assign`) keeps an existing key in place and adds a new key at the end.

`wrappers.dfy` holds the `Option` type.

The properties proved are these:

- **Slippage.** It always works against the trader.
- **Fees and balances.** Fee and balance arithmetic are exact. A non-negative balance stays non-negative.
- **Acceptance and rejection.** A trade is accepted exactly when the balance or the holding covers it. A rejected trade changes nothing.
- **Cost basis.** The new cost basis lies between the old basis and the execution price.
- **Partial sales.** A partial sale keeps the basis, and a full sale resets it. Split trades at one price add up to the combined trade. A buy-then-sell round trip from an empty position always loses money.
- **Wallet updates.** Each wallet update is exact, and it is a no-op precisely in the source's no-op cases. It touches no other wallet and no other position.
- **Wallet invariant.** `setUser`, `buy` and `sell` preserve a wallet invariant: positions are filed under their own id, quantities are positive, and balances are non-negative. Selling a whole position realizes exactly the unrealized P&L shown at the execution price, less the fee.
- **Lookups.** The lookups answer for every supported coin. Read as own-property lookups, they give null for every unknown id or symbol. As written, `getBinanceSymbol` answers each of the twelve names every JavaScript object inherits (such as "constructor") with that inherited member instead of null. `getCoinId` does the same for every symbol whose lowercase form is "constructor" or "__proto__", the only inherited names in lower case (see "## Findings"). `getCoinId` ignores letter case. Both round trips hold. The round trip needs distinct symbols: a shared symbol breaks it.
- **Table facts.** All table symbols are lowercase USDT pairs, and ids and symbols are each distinct.

## Model

| member | source | states |
|---|---|---|
| TradeEngine.SlippageFactor | src/utils/tradeEngine.ts:50 | the slippage fraction lies in [MIN_SLIPPAGE, MAX_SLIPPAGE) for every draw in [0, 1) |
| TradeEngine.PriceFactor | src/utils/tradeEngine.ts:51 | the price multiplier is in [1.0001, 1.0005) for a BUY and in (0.9995, 0.9999] for a SELL |
| TradeEngine.ExecutionPrice | src/utils/tradeEngine.ts:50-52 | the execution price is the target times the multiplier; it is strictly above the target on a BUY and strictly between 0 and the target on a SELL |
| TradeEngine.WeightedMean | src/utils/tradeEngine.ts:74-80 | the new average satisfies total quantity × average = old cost basis + added cost; it lies between the old average and the new price; it equals the new price when nothing was held |
| TradeEngine.ExecuteBuy | src/utils/tradeEngine.ts:54-96 | fee = 0.1% of the spend; total cost = spend + fee; the BUY succeeds iff spend × 1.001 ≤ balance. On failure: the error, quantity 0, the balance unchanged, and the position passed in or a zero placeholder. On success: balance − spend × 1.001 ≥ 0; quantity × price = spend; the quantities add; the cost basis grows by the spend; no realized P&L |
| TradeEngine.ExecuteSell | src/utils/tradeEngine.ts:97-143 | the SELL succeeds iff amount ≤ held quantity, where a missing position holds 0. On failure: quantity, fee and total 0, the balance unchanged. On success: fee = 0.1% of gross; total = gross − fee; balance + net; remaining = held − amount ≥ 0; realized P&L = net − amount × average; the average is kept while quantity remains and is 0 once closed |
| TradeEngine.ExecuteTrade | src/utils/tradeEngine.ts:42-144 | runs the branch of the request type at the slipped price; a non-negative balance never goes negative; success iff no error; a success trades a positive quantity of the requested asset |
| TradeEngine.RoundTripLoses | src/utils/tradeEngine.ts:50-143 | buying into no position and selling it all at the same reference price closes the position with a negative realized P&L; the final balance is the start − buy fee + that P&L, below the start |
| TradeEngine.SplitSellIsAdditive | src/utils/tradeEngine.ts:116-140 | two sales at one price give the same balance, total fee, final position and total realized P&L as one sale of their sum |
| TradeEngine.SplitBuyCostsTheSame | src/utils/tradeEngine.ts:55-88 | two purchases at one price cost the same total fee and leave the same balance as one purchase of their sum |
| TradeEngine.SplitBuyHoldsTheSame | src/utils/tradeEngine.ts:73-95 | two purchases at one price leave the same position (quantity and average price) as one purchase of their sum |
| TradeEngine.SplitBuyQuantity | src/utils/tradeEngine.ts:73-79 | the quantity half of the split-purchase property |
| TradeEngine.SplitBuyAverage | src/utils/tradeEngine.ts:74-80 | the average-price half of the split-purchase property |
| TradeEngine.WeightedMeanSplit | src/utils/tradeEngine.ts:80 | averaging in two lots at one price equals averaging in their sum |
| TradeEngine.FirstBuyScenario | src/utils/tradeEngine.ts:54-96 | $1,000 bought at $50,000 from $10,000 costs a $1 fee, leaves $8,999, and executes in [50005, 50025) at an average equal to that price |
| TradeEngine.ProfitableSellScenario | src/utils/tradeEngine.ts:116-140 | selling half of a position bought at $40,000 when quoted at $50,000 keeps the average and realizes a positive P&L |
| TradeEngine.OversellScenario | src/utils/tradeEngine.ts:99-114 | selling 0.5 out of 0.2 held is rejected with the quantity error and changes nothing |
| TradeEngine.MarginalBuyScenario | src/utils/tradeEngine.ts:55-71 | spending a whole $100 balance is rejected with a required total of $100.10 including a $0.10 fee |
| WalletContext.Buy | src/context/WalletContext.tsx:374-454 | the state is unchanged iff there is no user, a non-positive spend, or an uncovered cost. Otherwise: the wallet (or a new default one) pays spend × 1.001; the asset's position becomes held + spend/price at the weighted mean; one BUY trade (usdAmount = spend, P&L absent) is prepended; nothing else changes |
| WalletContext.Sell | src/context/WalletContext.tsx:456-539 | the state is unchanged iff there is no user, wallet or position, a non-positive quantity, or more than is held. Otherwise: the net proceeds are credited; the position is removed iff all of it is sold, else it shrinks at the same average; one SELL trade with net proceeds and realized P&L is prepended; nothing else changes |
| WalletContext.GetUnrealizedPnl | src/context/WalletContext.tsx:546-553 | 0 without a position or price; otherwise quantity × (price − average); in a valid state it is positive or negative exactly as the price is above or below the average |
| WalletContext.SetUser | src/context/WalletContext.tsx:562-591 | sets the user and owner name; keeps every existing wallet unchanged; adds a default wallet only for a new non-empty user id and never removes one |
| WalletContext.InitialStateValid | src/context/WalletContext.tsx:100-106 | the default state has no user and satisfies the wallet invariant |
| WalletContext.ValidHoldingsNonNegative | src/context/WalletContext.tsx:395-418 | the wallet invariant gives the non-negative holdings the engine's BUY needs |
| WalletContext.SetUserPreservesValid | src/context/WalletContext.tsx:570-580 | `setUser` preserves the wallet invariant |
| WalletContext.SetUserIdempotent | src/context/WalletContext.tsx:562-591 | setting the same user twice is setting it once |
| WalletContext.BuyPreservesValid | src/context/WalletContext.tsx:374-454 | `buy` preserves the wallet invariant |
| WalletContext.SellPreservesValid | src/context/WalletContext.tsx:456-539 | `sell` preserves the wallet invariant, including the removal of a position sold out |
| WalletContext.SellAllRealizesUnrealizedPnl | src/context/WalletContext.tsx:505-553 | selling a whole position removes it; the recorded P&L equals the unrealized P&L at the execution price minus the fee |
| Binance.Lookup | src/utils/binance.ts:55-61 | reading a dictionary finds a value iff the key is present, and the value found is stored under that key |
| Binance.Assign | src/utils/binance.ts:45-53 | `{...acc, [key]: value}`: afterwards the key reads the new value and every other key reads what it read before. A new key is appended at the end; an existing key keeps its place, so the key sequence is unchanged. No value appears that was not there or assigned |
| Binance.IdToSymbol | src/utils/binance.ts:45-48 | COINGECKO_TO_BINANCE: its keys are exactly the table's ids, and its values are table symbols; with distinct ids it is the table's pairs in order (IdToSymbolIsEntries) |
| Binance.Inverted | src/utils/binance.ts:50-53 | BINANCE_TO_COIN_ID: its keys are exactly the values it inverts, and its values are the inverted keys; with distinct values it swaps every entry (InvertedIsSwapped) |
| Binance.OrNull | src/utils/binance.ts:56 | `value \|\| null` is non-null exactly for a present, non-empty string, and is that string |
| Binance.ToLowerCase | src/utils/binance.ts:60 | lowercasing keeps the length and lowercases each ASCII letter |
| Binance.LookupDistinct | src/utils/binance.ts:55-61 | in a record with distinct keys, each key reads its own entry's value |
| Binance.IdToSymbolIsEntries | src/utils/binance.ts:45-48 | for a table with distinct ids, the id-to-symbol fold lists each coin's pair in table order |
| Binance.InvertedIsSwapped | src/utils/binance.ts:50-53 | for entries with distinct values, the inverting fold turns every entry around |
| Binance.RoundTripWithDistinctKeys | src/utils/binance.ts:45-53 | for any table with distinct ids and symbols, a coin's id finds its symbol and that symbol finds the id |
| Binance.SharedSymbolBreaksRoundTrip | src/utils/binance.ts:50-53 | when two coins share a symbol, the later one overwrites the earlier in the inverted dictionary, so the earlier coin's round trip lands on the wrong id |
| Binance.SupportedRowsWellFormed | src/utils/binance.ts:12-43 | every table row has a non-empty id and a lowercase exchange symbol ending in "usdt" |
| Binance.SupportedKeysDistinct | src/utils/binance.ts:12-43 | the table's ids are distinct, and so are its exchange symbols |
| Binance.DictionariesListTheTable | src/utils/binance.ts:45-53 | COINGECKO_TO_BINANCE is the table's (id, symbol) pairs in order; BINANCE_TO_COIN_ID is the same pairs swapped |
| Binance.GetBinanceSymbol | src/utils/binance.ts:55-57 | `getBinanceSymbol` read as an own-property lookup: a non-null answer is a table symbol for a supported id. GetBinanceSymbolOfSupportedCoin and GetBinanceSymbolNullIffUnknown pin it down; GetBinanceSymbolAsWritten is the source's inherited-property read |
| Binance.GetCoinId | src/utils/binance.ts:59-61 | `getCoinId` read as an own-property lookup of the lowercased symbol: a non-null answer is a supported id for a lowercased table symbol. GetCoinIdOfSupportedSymbol and GetCoinIdNullIffUnknown pin it down; GetCoinIdAsWritten is the source's inherited-property read |
| Binance.GetBinanceSymbolOfSupportedCoin | src/utils/binance.ts:55-57 | every supported coin's id gives its exchange symbol |
| Binance.GetBinanceSymbolNullIffUnknown | src/utils/binance.ts:55-57 | the own-property symbol lookup gives null exactly for ids outside the table (the corrected behaviour; see "## Findings") |
| Binance.ToLowerCaseKeepsLowerCase | src/utils/binance.ts:60 | lowercasing a lowercase string changes nothing |
| Binance.ToLowerCaseIdempotent | src/utils/binance.ts:60 | lowercasing gives a lowercase string, so lowercasing twice is lowercasing once |
| Binance.GetCoinIdOfSupportedSymbol | src/utils/binance.ts:59-61 | any symbol whose lowercase form is a coin's exchange symbol gives that coin's id |
| Binance.GetCoinIdNullIffUnknown | src/utils/binance.ts:59-61 | the own-property id lookup gives null exactly when the lowercased symbol is outside the table (the corrected behaviour; see "## Findings") |
| Binance.GetCoinIdIgnoresCase | src/utils/binance.ts:60 | a symbol and its lowercase form give the same id |
| Binance.SymbolRoundTrip | src/utils/binance.ts:45-61 | every supported id has a symbol, and looking that symbol up gives the id back |
| Binance.IdRoundTrip | src/utils/binance.ts:45-61 | an id found from a symbol has the lowercased symbol as its own exchange symbol |
| Binance.UpperCaseBitcoinSymbol | src/utils/binance.ts:59-61 | "BTCUSDT" gives "bitcoin" |
| Binance.PropertyRead | src/utils/binance.ts:56 | a JavaScript property read yields the stored string iff the key is an own entry, and the inherited member of that name iff it names an Object.prototype member and is not an own entry; otherwise undefined |
| Binance.GetBinanceSymbolAsWritten | src/utils/binance.ts:55-57 | the lookup as written answers null or a truthy value |
| Binance.ConstructorIdLeaksPrototype | src/utils/binance.ts:55-57 | "constructor" is not a supported id and the own-property lookup gives null, yet the lookup as written answers with the inherited Object constructor |
| Binance.AsWrittenAgreesOffPrototype | src/utils/binance.ts:55-57 | for every id that is not an inherited member name, the lookup as written agrees with the own-property lookup |
| Binance.AsWrittenOnPrototype | src/utils/binance.ts:55-57 | every inherited member name is not a supported id, and the lookup as written answers it with that inherited member |
| Binance.GetCoinIdAsWritten | src/utils/binance.ts:59-61 | `BINANCE_TO_COIN_ID[symbol.toLowerCase()] \|\| null` answers null or a truthy value |
| Binance.ConstructorSymbolLeaksPrototype | src/utils/binance.ts:59-61 | "constructor" lowercases to itself and is not a table symbol, and the own-property lookup gives null, yet the lookup as written answers with the inherited Object constructor |
| Binance.CoinIdAsWrittenAgreesOffPrototype | src/utils/binance.ts:59-61 | when the lowercased symbol is not an inherited member name, the id lookup as written agrees with the own-property lookup |
| Binance.CoinIdAsWrittenOnPrototype | src/utils/binance.ts:59-61 | every symbol whose lowercase form is "constructor" or "__proto__" gets that inherited member from the lookup as written |

## Left out

- The random draw (`Math.random()`, src/utils/tradeEngine.ts:50) is the parameter `draw` in [0, 1). The trade id (`generateId`) and the timestamp are parameters of `Buy` and `Sell`.
- Floating point is not modelled: every amount is a `real`, so IEEE rounding, NaN and Infinity do not arise. The engine's error strings and their `toFixed` formatting become the `TradeError` values, which carry the figures the message shows.
- TradeEngine.ExecuteTrade requires a positive amount and a positive reference price. Callers never pass anything else: the wallet guards the amount (src/context/WalletContext.tsx:405, 485), and the trading card returns early without a price (src/components/TradingCard.tsx:87). For a BUY with an amount of 0 and no position, the source would divide 0 by 0 at tradeEngine.ts:80.
- TradeEngine.ExecuteTrade and TradeEngine.ExecuteBuy also require, for a BUY, that the held quantity is not negative; otherwise the division at tradeEngine.ts:80 could be by 0. Every position the wallet stores has a positive quantity (`Valid`), and a missing position counts as 0.
- WalletContext.Buy and WalletContext.Sell require `priceUsd > 0` for the same reason. `Buy` also requires non-negative holdings, which every valid state has (`ValidHoldingsNonNegative`).
- WalletContext.Buy and WalletContext.Sell read the user from the same state they update. In the source, the callbacks read `state.user` from the rendered state while `setState` updates the latest state. The model does not capture that stale-closure interleaving.
- The price feed is not modelled: the WebSocket connection, its subscriptions and reconnects (src/context/WalletContext.tsx:267-365). This is network I/O and concurrency.
- Hydration from the server and `localStorage`, and debounced persistence, are not modelled (src/context/WalletContext.tsx:147-244). This is I/O.
- `setOwnerName`, `subscribeToPrice` and the other context members outside `buy`, `sell`, `setUser` and `getUnrealizedPnl` are not modelled: they are plumbing for the UI and the price feed.
- `activeWallet` is modelled only as the wallet the UI reads (`ActiveWallet`). Its memoisation is not modelled.
- Binance.ToLowerCase lowercases ASCII letters only, whereas `String.prototype.toLowerCase` applies Unicode case mapping. Non-ASCII input that lowercases onto an ASCII table symbol is therefore not captured. For example, "LIN\u212AUSDT" (with the Kelvin sign U+212A) lowercases in the source to "linkusdt" and gives "chainlink", but the model's `GetCoinId` gives null for it. The callers pass trading-pair symbols taken from exchange stream messages (src/context/WalletContext.tsx:320-322, src/hooks/useBinanceWebSocket.ts:27-28), which are ASCII.
- WalletContext.SetUser does not model the `localStorage` write or removal of the user (src/context/WalletContext.tsx:584-590). This is I/O outside the state update.
- The `logo` field of the coin table is not modelled. It is display-only data that no lookup reads.
- A `Record` keeps insertion order, which is how JavaScript orders non-integer string keys. Integer-like keys, which JavaScript lists first, do not occur in the table.
- WalletContext.SetUser, WalletContext.Buy, WalletContext.Sell and WalletContext.GetUnrealizedPnl model the `userWallets` and `positions` dictionaries (src/context/WalletContext.tsx:53-58) as own entries only. In the source they are plain objects, so a user id or asset id naming an Object.prototype member (such as "constructor") would read an inherited member there too. `setUser` would then create no wallet (line 571), `buy` would throw (lines 387-393), and `getUnrealizedPnl` would answer NaN (line 550). No such id arises: user ids are md5 hex digests (src/app/api/auth/login/route.ts:28), and asset ids are market-data coin ids.
- The API routes, the database layer, the pages and components, and the formatting helpers are not part of this model.

## Findings

| source | as written | input that shows it | evidently intended | confidence | as-written member | corrected member |
|---|---|---|---|---|---|---|
| src/utils/binance.ts:55-57 | `COINGECKO_TO_BINANCE[id] \|\| null` also reads properties every object inherits from Object.prototype | the id "constructor", e.g. from the page route /coin/constructor, which subscribes to its id (src/hooks/useCoinDetails.ts:193): the lookup yields the Object function, not null, so src/context/WalletContext.tsx:277-290 keeps it and calls `toLowerCase` on it | null for every id outside the table | medium, not executed | Binance.ConstructorIdLeaksPrototype | Binance.GetBinanceSymbolNullIffUnknown |
| src/utils/binance.ts:59-61 | `BINANCE_TO_COIN_ID[symbol.toLowerCase()] \|\| null` also reads inherited Object.prototype properties | the symbol "constructor" (or "CONSTRUCTOR", which lowercases to it): the lookup yields the Object function, not null, and a caller that receives it files a price under that function as key (src/context/WalletContext.tsx:322-327) | null for every symbol outside the table | low, not executed: the callers pass symbols from exchange stream messages | Binance.ConstructorSymbolLeaksPrototype | Binance.GetCoinIdNullIffUnknown |
