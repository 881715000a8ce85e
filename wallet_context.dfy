/**
 * The wallet state transitions of the trading context
 * (src/context/WalletContext.tsx): `buy`, `sell` and `setUser` are React
 * state updaters, pure functions from the previous `WalletState` to the next
 * one, and `getUnrealizedPnl` reads the active wallet. Each wallet is kept per
 * user id; `buy` and `sell` hand the arithmetic to the trade engine and record
 * the outcome as a new trade at the head of the history.
 *
 * The trade id (`generateId`) and the ISO timestamp are parameters, and so is
 * the engine's random draw.
 */
module WalletContext {
  import opened Wrappers
  import opened TradeEngine

  /** Balance of a wallet created for a user who has none. */
  const DefaultBalance: real := 10000.0
  const DefaultOwnerName: string := "Demo Trader"

  datatype UserProfile = UserProfile(id: string, email: string, name: string, avatarUrl: Option<string>)

  /** One entry of a wallet's trade history; only SELL entries carry a realized P&L. */
  datatype Trade = Trade(
    id: string,
    tradeType: TradeType,
    assetId: string,
    symbol: string,
    name: string,
    usdAmount: real,
    quantity: real,
    priceUsd: real,
    realizedPnlUsd: Option<real>,
    timestamp: string)

  /** A user's wallet: USD balance, positions keyed by asset id, newest trade first. */
  datatype Wallet = Wallet(balanceUsd: real, positions: map<string, Position>, trades: seq<Trade>)

  datatype WalletState = WalletState(
    user: Option<UserProfile>,
    ownerName: Option<string>,
    userWallets: map<string, Wallet>)

  /** The arguments of `buy` and `sell`: a USD amount, a quantity, or both, at a quoted price. */
  datatype OrderParams = OrderParams(
    assetId: string,
    symbol: string,
    name: string,
    usdAmount: Option<real>,
    quantity: Option<real>,
    priceUsd: real)

  const NewWallet: Wallet := Wallet(DefaultBalance, map[], [])

  /** The provider's state before anything is loaded (`defaultState`). */
  const InitialState: WalletState := WalletState(None, Some(DefaultOwnerName), map[])

  /** `state.user?.id`, which counts as absent when the user is missing or the id is empty. */
  function ActiveUserId(s: WalletState): Option<string> {
    if s.user.Some? && s.user.value.id != "" then Some(s.user.value.id) else None
  }

  /** `prev.userWallets[userId] ?? {DEFAULT_BALANCE, {}, []}`. */
  function WalletOrNew(s: WalletState, userId: string): Wallet {
    if userId in s.userWallets then s.userWallets[userId] else NewWallet
  }

  function PositionIn(w: Wallet, assetId: string): Option<Position> {
    if assetId in w.positions then Some(w.positions[assetId]) else None
  }

  /** The USD a `buy` spends: `usdAmount` when given, otherwise `quantity * priceUsd`, otherwise 0. */
  function SpendUsd(params: OrderParams): real {
    if params.usdAmount.Some? then params.usdAmount.value
    else if params.quantity.Some? then params.quantity.value * params.priceUsd
    else 0.0
  }

  /** The quantity a `sell` sells: `quantity` when given, otherwise `usdAmount / priceUsd`, otherwise 0. */
  function SellQuantity(params: OrderParams): real
    requires params.priceUsd > 0.0
  {
    if params.quantity.Some? then params.quantity.value
    else if params.usdAmount.Some? then params.usdAmount.value / params.priceUsd
    else 0.0
  }

  /** Every position is filed under its own asset id and holds a positive quantity at a non-negative cost basis. */
  predicate ValidWallet(w: Wallet) {
    && w.balanceUsd >= 0.0
    && forall a :: a in w.positions ==>
         w.positions[a].assetId == a && w.positions[a].quantity > 0.0 && w.positions[a].avgBuyPriceUsd >= 0.0
  }

  /** The invariant every state reached from InitialState by setUser, buy and sell keeps. */
  predicate Valid(s: WalletState) {
    forall u :: u in s.userWallets ==> ValidWallet(s.userWallets[u])
  }

  /** The weaker condition `buy` needs: no stored position holds a negative quantity. */
  predicate HoldingsNonNegative(s: WalletState) {
    forall u, a :: u in s.userWallets && a in s.userWallets[u].positions ==>
      s.userWallets[u].positions[a].quantity >= 0.0
  }

  /** Every wallet other than `userId`'s is present in `next` exactly when in `prev`, and unchanged. */
  ghost predicate SameOtherWallets(prev: WalletState, next: WalletState, userId: string) {
    forall u :: u != userId ==>
      (u in prev.userWallets <==> u in next.userWallets) &&
      (u in prev.userWallets ==> next.userWallets[u] == prev.userWallets[u])
  }

  /** Every position other than `assetId`'s is present in `next` exactly when in `prev`, and unchanged. */
  ghost predicate SameOtherPositions(prev: map<string, Position>, next: map<string, Position>, assetId: string) {
    forall a :: a != assetId ==> (a in prev <==> a in next) && (a in prev ==> next[a] == prev[a])
  }

  /** `t` is the history entry of a purchase spending `spend` USD at `price`; a purchase realizes no P&L. */
  predicate IsPurchaseRecord(t: Trade, tradeId: string, params: OrderParams, spend: real, price: real, timestamp: string)
    requires price > 0.0
  {
    && t.id == tradeId && t.tradeType == BUY && t.timestamp == timestamp
    && t.assetId == params.assetId && t.symbol == params.symbol && t.name == params.name
    && t.usdAmount == spend && t.quantity == spend / price && t.priceUsd == price
    && t.realizedPnlUsd.None?
  }

  /**
   * `t` is the history entry of a sale of `quantity` at `price` out of a
   * position bought at `avgPrice`: it records the net proceeds and, as
   * realized P&L, those proceeds less the cost basis of the quantity sold.
   */
  predicate IsSaleRecord(t: Trade, tradeId: string, params: OrderParams, quantity: real, price: real,
                         avgPrice: real, timestamp: string)
  {
    var proceeds := quantity * price * (1.0 - TransactionFeeRate);
    && t.id == tradeId && t.tradeType == SELL && t.timestamp == timestamp
    && t.assetId == params.assetId && t.symbol == params.symbol && t.name == params.name
    && t.usdAmount == proceeds && t.quantity == quantity && t.priceUsd == price
    && t.realizedPnlUsd.Some? && t.realizedPnlUsd.value == proceeds - quantity * avgPrice
  }

  /** When `buy` goes through: a user is logged in, the spend is positive and the balance covers it plus the fee. */
  predicate BuyAccepted(s: WalletState, params: OrderParams) {
    && ActiveUserId(s).Some?
    && SpendUsd(params) > 0.0
    && SpendUsd(params) * (1.0 + TransactionFeeRate) <= WalletOrNew(s, ActiveUserId(s).value).balanceUsd
  }

  /**
   * `buy`: spend USD on an asset for the logged-in user. A missing user, a
   * non-positive spend and a rejected trade leave the state as it was;
   * otherwise the user's wallet (created with the default balance if
   * missing) pays the spend plus fee, its position in the asset grows at the
   * execution price, and one BUY trade is put at the head of its history.
   * No other wallet and no other position changes.
   */
  function Buy(prev: WalletState, params: OrderParams, draw: real, tradeId: string, timestamp: string): (next: WalletState)
    requires params.priceUsd > 0.0 && 0.0 <= draw < 1.0
    requires HoldingsNonNegative(prev)
    ensures next.user == prev.user && next.ownerName == prev.ownerName
    ensures next == prev <==> !BuyAccepted(prev, params)
    ensures BuyAccepted(prev, params) ==>
      var userId := ActiveUserId(prev).value;
      var w := WalletOrNew(prev, userId);
      var held := PositionIn(w, params.assetId);
      var spend := SpendUsd(params);
      var price := ExecutionPrice(BUY, params.priceUsd, draw);
      && SameOtherWallets(prev, next, userId)
      && userId in next.userWallets
      && next.userWallets[userId].balanceUsd == w.balanceUsd - spend * (1.0 + TransactionFeeRate)
      && SameOtherPositions(w.positions, next.userWallets[userId].positions, params.assetId)
      && params.assetId in next.userWallets[userId].positions
      && next.userWallets[userId].positions[params.assetId]
           == Position(params.assetId, params.symbol, params.name,
                       HeldQuantity(held) + spend / price,
                       WeightedMean(HeldQuantity(held), HeldAvgPrice(held), spend / price, price))
      && |next.userWallets[userId].trades| == |w.trades| + 1
      && next.userWallets[userId].trades[1..] == w.trades
      && IsPurchaseRecord(next.userWallets[userId].trades[0], tradeId, params, spend, price, timestamp)
  {
    match ActiveUserId(prev)
    case None => prev
    case Some(userId) =>
      var currentWallet := WalletOrNew(prev, userId);
      var currentPosition := PositionIn(currentWallet, params.assetId);
      var usdToSpend := SpendUsd(params);
      if usdToSpend <= 0.0 then prev
      else
        var result := ExecuteTrade(currentWallet.balanceUsd, currentPosition, params.priceUsd,
                                   TradeRequest(BUY, params.assetId, params.symbol, params.name, usdToSpend), draw);
        if !result.success then prev
        else
          var trade := Trade(tradeId, BUY, params.assetId, params.symbol, params.name,
                             result.totalCostUsd - result.feeUsd, result.quantity, result.executedPrice,
                             None, timestamp);
          var wallet := Wallet(result.newBalance,
                               currentWallet.positions[params.assetId := result.newPosition],
                               [trade] + currentWallet.trades);
          assert result.quantity == usdToSpend / result.executedPrice;
          assert wallet.trades[1..] == currentWallet.trades;
          assert userId in prev.userWallets ==> |wallet.trades| != |prev.userWallets[userId].trades|;
          prev.(userWallets := prev.userWallets[userId := wallet])
  }

  /** When `sell` goes through: the logged-in user's wallet holds the asset, and enough of it for a positive quantity. */
  predicate SellAccepted(s: WalletState, params: OrderParams)
    requires params.priceUsd > 0.0
  {
    && ActiveUserId(s).Some?
    && ActiveUserId(s).value in s.userWallets
    && params.assetId in s.userWallets[ActiveUserId(s).value].positions
    && 0.0 < SellQuantity(params) <= s.userWallets[ActiveUserId(s).value].positions[params.assetId].quantity
  }

  /**
   * `sell`: sell part or all of the logged-in user's position in an asset. A
   * missing user, wallet or position, a non-positive quantity and a rejected
   * trade leave the state as it was; otherwise the net proceeds are credited,
   * the position shrinks at its unchanged cost basis or is removed once
   * nothing is left, and one SELL trade carrying the realized P&L is put at
   * the head of the history. No other wallet and no other position changes.
   */
  function Sell(prev: WalletState, params: OrderParams, draw: real, tradeId: string, timestamp: string): (next: WalletState)
    requires params.priceUsd > 0.0 && 0.0 <= draw < 1.0
    ensures next.user == prev.user && next.ownerName == prev.ownerName
    ensures next == prev <==> !SellAccepted(prev, params)
    ensures SellAccepted(prev, params) ==>
      var userId := ActiveUserId(prev).value;
      var w := prev.userWallets[userId];
      var pos := w.positions[params.assetId];
      var quantity := SellQuantity(params);
      var price := ExecutionPrice(SELL, params.priceUsd, draw);
      var proceeds := quantity * price * (1.0 - TransactionFeeRate);
      && SameOtherWallets(prev, next, userId)
      && userId in next.userWallets
      && next.userWallets[userId].balanceUsd == w.balanceUsd + proceeds
      && SameOtherPositions(w.positions, next.userWallets[userId].positions, params.assetId)
      && (params.assetId in next.userWallets[userId].positions <==> quantity < pos.quantity)
      && (quantity < pos.quantity ==>
            next.userWallets[userId].positions[params.assetId]
              == Position(params.assetId, params.symbol, params.name, pos.quantity - quantity, pos.avgBuyPriceUsd))
      && |next.userWallets[userId].trades| == |w.trades| + 1
      && next.userWallets[userId].trades[1..] == w.trades
      && IsSaleRecord(next.userWallets[userId].trades[0], tradeId, params, quantity, price, pos.avgBuyPriceUsd, timestamp)
  {
    match ActiveUserId(prev)
    case None => prev
    case Some(userId) =>
      if userId !in prev.userWallets then prev
      else
        var currentWallet := prev.userWallets[userId];
        if params.assetId !in currentWallet.positions then prev
        else
          var currentPosition := currentWallet.positions[params.assetId];
          var quantityToSell := SellQuantity(params);
          if quantityToSell <= 0.0 then prev
          else
            var request := TradeRequest(SELL, params.assetId, params.symbol, params.name, quantityToSell);
            var result := ExecuteTrade(currentWallet.balanceUsd, Some(currentPosition), params.priceUsd, request, draw);
            assert result.executedPrice == ExecutionPrice(SELL, params.priceUsd, draw) > 0.0;
            assert result == ExecuteSell(currentWallet.balanceUsd, Some(currentPosition), result.executedPrice, request);
            if !result.success then prev
            else
              var trade := Trade(tradeId, SELL, params.assetId, params.symbol, params.name,
                                 result.totalCostUsd, result.quantity, result.executedPrice,
                                 result.realizedPnl, timestamp);
              var newPositions :=
                if result.newPosition.quantity <= 0.0 then currentWallet.positions - {params.assetId}
                else currentWallet.positions[params.assetId := result.newPosition];
              var wallet := Wallet(result.newBalance, newPositions, [trade] + currentWallet.trades);
              assert result.totalCostUsd == quantityToSell * result.executedPrice * (1.0 - TransactionFeeRate);
              assert HeldAvgPrice(Some(currentPosition)) == currentPosition.avgBuyPriceUsd;
              assert result.realizedPnl.value
                  == result.totalCostUsd - quantityToSell * currentPosition.avgBuyPriceUsd;
              assert wallet.trades[1..] == currentWallet.trades;
              assert |wallet.trades| != |currentWallet.trades|;
              prev.(userWallets := prev.userWallets[userId := wallet])
  }

  /** The wallet the UI reads (`activeWallet`): empty with no user, the default for a user without a wallet. */
  function ActiveWallet(s: WalletState): Wallet {
    match ActiveUserId(s)
    case None => Wallet(0.0, map[], [])
    case Some(userId) => WalletOrNew(s, userId)
  }

  /**
   * `getUnrealizedPnl`: the paper gain of the active wallet's position,
   * market value at the given price minus cost basis; 0 without a position
   * or without a price.
   */
  function GetUnrealizedPnl(s: WalletState, assetId: string, currentPriceUsd: real): (pnl: real)
    ensures assetId !in ActiveWallet(s).positions || currentPriceUsd == 0.0 ==> pnl == 0.0
    ensures assetId in ActiveWallet(s).positions && currentPriceUsd != 0.0 ==>
      var pos := ActiveWallet(s).positions[assetId];
      pnl == pos.quantity * currentPriceUsd - pos.quantity * pos.avgBuyPriceUsd
    // In a valid state the sign says whether the price is above or below the cost basis.
    ensures Valid(s) && assetId in ActiveWallet(s).positions && currentPriceUsd != 0.0 ==>
      var pos := ActiveWallet(s).positions[assetId];
      (pnl > 0.0 <==> currentPriceUsd > pos.avgBuyPriceUsd) && (pnl < 0.0 <==> currentPriceUsd < pos.avgBuyPriceUsd)
  {
    var positions := ActiveWallet(s).positions;
    if assetId !in positions || currentPriceUsd == 0.0 then 0.0
    else
      var pos := positions[assetId];
      SignOfProduct(currentPriceUsd - pos.avgBuyPriceUsd, pos.quantity);
      (currentPriceUsd - pos.avgBuyPriceUsd) * pos.quantity
  }

  lemma SignOfProduct(x: real, q: real)
    ensures q > 0.0 ==> (x * q > 0.0 <==> x > 0.0) && (x * q < 0.0 <==> x < 0.0)
  {
    if q > 0.0 {
      if x > 0.0 { assert x * q > 0.0; }
      if x < 0.0 { assert x * q < 0.0; }
      if x == 0.0 { assert x * q == 0.0; }
    }
  }

  /**
   * `setUser`: switch the logged-in user and the owner name. A user with a
   * non-empty id who has no wallet yet gets one with the default balance; an
   * existing wallet is never replaced, and no wallet is ever removed.
   */
  function SetUser(prev: WalletState, user: Option<UserProfile>): (next: WalletState)
    ensures next.user == user
    ensures next.ownerName == if user.Some? then Some(user.value.name)
                              else if prev.ownerName.Some? then prev.ownerName
                              else Some(DefaultOwnerName)
    ensures forall u :: u in prev.userWallets ==> u in next.userWallets && next.userWallets[u] == prev.userWallets[u]
    ensures ActiveUserId(next).None? ==> next.userWallets == prev.userWallets
    ensures ActiveUserId(next).Some? ==>
      var userId := ActiveUserId(next).value;
      && next.userWallets.Keys == prev.userWallets.Keys + {userId}
      && next.userWallets[userId] == WalletOrNew(prev, userId)
  {
    var ownerName := if user.Some? then Some(user.value.name)
                     else if prev.ownerName.Some? then prev.ownerName
                     else Some(DefaultOwnerName);
    var newState := prev.(user := user, ownerName := ownerName);
    if user.Some? && user.value.id != "" && user.value.id !in prev.userWallets then
      newState.(userWallets := prev.userWallets[user.value.id := NewWallet])
    else newState
  }

  /** The state before anything is loaded is valid. */
  lemma InitialStateValid()
    ensures Valid(InitialState) && ActiveUserId(InitialState).None?
  {
  }

  /** A valid state meets what `buy` needs. */
  lemma ValidHoldingsNonNegative(s: WalletState)
    requires Valid(s)
    ensures HoldingsNonNegative(s)
  {
    forall u, a | u in s.userWallets && a in s.userWallets[u].positions
      ensures s.userWallets[u].positions[a].quantity >= 0.0
    {
      assert ValidWallet(s.userWallets[u]);
    }
  }

  /** `setUser` keeps every wallet valid: it only ever adds a fresh default wallet. */
  lemma SetUserPreservesValid(prev: WalletState, user: Option<UserProfile>)
    requires Valid(prev)
    ensures Valid(SetUser(prev, user))
  {
    var next := SetUser(prev, user);
    forall u | u in next.userWallets ensures ValidWallet(next.userWallets[u]) {
      if u !in prev.userWallets {
        assert next.userWallets[u] == NewWallet;
      }
    }
  }

  /** Logging the same user in twice is the same as once. */
  lemma SetUserIdempotent(prev: WalletState, user: Option<UserProfile>)
    ensures SetUser(SetUser(prev, user), user) == SetUser(prev, user)
  {
  }

  /**
   * `buy` keeps every wallet valid: the balance stays covered, and the bought
   * position holds a positive quantity at a cost basis between the old basis
   * and the execution price.
   */
  lemma BuyPreservesValid(prev: WalletState, params: OrderParams, draw: real, tradeId: string, timestamp: string)
    requires params.priceUsd > 0.0 && 0.0 <= draw < 1.0
    requires Valid(prev)
    ensures HoldingsNonNegative(prev) && Valid(Buy(prev, params, draw, tradeId, timestamp))
  {
    ValidHoldingsNonNegative(prev);
    var next := Buy(prev, params, draw, tradeId, timestamp);
    if BuyAccepted(prev, params) {
      var userId := ActiveUserId(prev).value;
      var w := WalletOrNew(prev, userId);
      assert ValidWallet(w);
      var held := PositionIn(w, params.assetId);
      assert HeldAvgPrice(held) >= 0.0;
      var nw := next.userWallets[userId];
      forall a | a in nw.positions
        ensures nw.positions[a].assetId == a && nw.positions[a].quantity > 0.0 && nw.positions[a].avgBuyPriceUsd >= 0.0
      {
        if a != params.assetId {
          assert nw.positions[a] == w.positions[a];
        }
      }
      assert ValidWallet(nw);
      forall u | u in next.userWallets ensures ValidWallet(next.userWallets[u]) {
        if u != userId {
          assert next.userWallets[u] == prev.userWallets[u];
        }
      }
    }
  }

  /**
   * `sell` keeps every wallet valid: proceeds only add to the balance, and a
   * position either keeps a positive remainder at its old cost basis or is
   * removed.
   */
  lemma SellPreservesValid(prev: WalletState, params: OrderParams, draw: real, tradeId: string, timestamp: string)
    requires params.priceUsd > 0.0 && 0.0 <= draw < 1.0
    requires Valid(prev)
    ensures Valid(Sell(prev, params, draw, tradeId, timestamp))
  {
    var next := Sell(prev, params, draw, tradeId, timestamp);
    if SellAccepted(prev, params) {
      var userId := ActiveUserId(prev).value;
      var w := prev.userWallets[userId];
      assert ValidWallet(w);
      var price := ExecutionPrice(SELL, params.priceUsd, draw);
      var quantity := SellQuantity(params);
      assert quantity * price > 0.0;
      assert quantity * price * (1.0 - TransactionFeeRate) > 0.0;
      var nw := next.userWallets[userId];
      forall a | a in nw.positions
        ensures nw.positions[a].assetId == a && nw.positions[a].quantity > 0.0 && nw.positions[a].avgBuyPriceUsd >= 0.0
      {
        if a != params.assetId {
          assert nw.positions[a] == w.positions[a];
        }
      }
      assert ValidWallet(nw);
      forall u | u in next.userWallets ensures ValidWallet(next.userWallets[u]) {
        if u != userId {
          assert next.userWallets[u] == prev.userWallets[u];
        }
      }
    }
  }

  /**
   * "Sell All" (the whole position, given as a quantity) empties the position,
   * and the P&L it records is what `getUnrealizedPnl` showed at the execution
   * price, less the fee.
   */
  lemma SellAllRealizesUnrealizedPnl(prev: WalletState, params: OrderParams, draw: real, tradeId: string, timestamp: string)
    requires params.priceUsd > 0.0 && 0.0 <= draw < 1.0
    requires ActiveUserId(prev).Some? && ActiveUserId(prev).value in prev.userWallets
    requires params.assetId in ActiveWallet(prev).positions
    requires params.quantity == Some(ActiveWallet(prev).positions[params.assetId].quantity)
    requires params.quantity.value > 0.0
    ensures
      var next := Sell(prev, params, draw, tradeId, timestamp);
      var price := ExecutionPrice(SELL, params.priceUsd, draw);
      var quantity := params.quantity.value;
      var t := next.userWallets[ActiveUserId(prev).value].trades[0];
      && params.assetId !in ActiveWallet(next).positions
      && t.realizedPnlUsd.Some?
      && t.realizedPnlUsd.value
           == GetUnrealizedPnl(prev, params.assetId, price) - quantity * price * TransactionFeeRate
  {
    var next := Sell(prev, params, draw, tradeId, timestamp);
    var userId := ActiveUserId(prev).value;
    assert ActiveWallet(prev) == prev.userWallets[userId];
    assert SellAccepted(prev, params);
    assert ActiveUserId(next) == ActiveUserId(prev);
    var price := ExecutionPrice(SELL, params.priceUsd, draw);
    var pos := prev.userWallets[userId].positions[params.assetId];
    var q := pos.quantity;
    assert GetUnrealizedPnl(prev, params.assetId, price) == q * price - q * pos.avgBuyPriceUsd;
    assert q * price * (1.0 - TransactionFeeRate) == q * price - q * price * TransactionFeeRate;
  }
}
