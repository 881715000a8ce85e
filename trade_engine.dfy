/**
 * The trade execution engine of the paper-trading simulator
 * (src/utils/tradeEngine.ts): given a USD balance, the position held in one
 * asset (if any), a reference price and a BUY or SELL request, it computes the
 * slippage-adjusted execution price, the quantity traded, the 0.1% fee, the
 * new balance, the new position with its weighted-average cost basis and, for
 * a sale, the realized profit or loss.
 *
 * Amounts are `real`: floating-point rounding is not modelled. The random
 * draw `Math.random()` is the parameter `draw`, a value in [0, 1).
 */
module TradeEngine {
  import opened Wrappers

  /** Fee charged on the gross USD value of every trade: 0.1%. */
  const TransactionFeeRate: real := 0.001
  /** Bounds of the adverse slippage fraction: 0.01% to 0.05%. */
  const MinSlippage: real := 0.0001
  const MaxSlippage: real := 0.0005

  datatype TradeType = BUY | SELL

  /** A holding of one asset; `symbol` and `name` are display metadata. */
  datatype Position = Position(
    assetId: string,
    symbol: string,
    name: string,
    quantity: real,
    avgBuyPriceUsd: real)

  /** For a BUY `amount` is the USD to spend; for a SELL it is the asset quantity. */
  datatype TradeRequest = TradeRequest(
    tradeType: TradeType,
    assetId: string,
    symbol: string,
    name: string,
    amount: real)

  /**
   * The two rejections, carrying the figures the source formats into its
   * error message (the required total and its fee, or the quantity held).
   */
  datatype TradeError =
    | InsufficientBalance(requiredUsd: real, feeUsd: real)
    | InsufficientQuantity(symbol: string, available: real)

  datatype TradeResult = TradeResult(
    success: bool,
    error: Option<TradeError>,
    executedPrice: real,
    quantity: real,
    feeUsd: real,
    totalCostUsd: real,
    newBalance: real,
    newPosition: Position,
    realizedPnl: Option<real>)

  function Min(a: real, b: real): real { if a <= b then a else b }
  function Max(a: real, b: real): real { if a <= b then b else a }

  /** `currentPosition?.quantity || 0`: a missing position holds nothing. */
  function HeldQuantity(position: Option<Position>): real {
    if position.Some? then position.value.quantity else 0.0
  }

  /** `currentPosition?.avgBuyPriceUsd || 0`. */
  function HeldAvgPrice(position: Option<Position>): real {
    if position.Some? then position.value.avgBuyPriceUsd else 0.0
  }

  /** The position reported back on a rejected trade. */
  function UnchangedPosition(position: Option<Position>, request: TradeRequest): Position {
    if position.Some? then position.value
    else Position(request.assetId, request.symbol, request.name, 0.0, 0.0)
  }

  /** The slippage fraction drawn uniformly from [MinSlippage, MaxSlippage). */
  function SlippageFactor(draw: real): (f: real)
    requires 0.0 <= draw < 1.0
    ensures MinSlippage <= f < MaxSlippage
  {
    MinSlippage + draw * (MaxSlippage - MinSlippage)
  }

  /**
   * The multiple of the reference price a trade executes at,
   * `1 + slippageFactor` for a BUY and `1 - slippageFactor` for a SELL: above 1
   * when buying and below 1 when selling, by 0.01% to 0.05%.
   */
  function PriceFactor(tradeType: TradeType, draw: real): (f: real)
    requires 0.0 <= draw < 1.0
    ensures tradeType == BUY ==> 1.0 + MinSlippage <= f < 1.0 + MaxSlippage
    ensures tradeType == SELL ==> 1.0 - MaxSlippage < f <= 1.0 - MinSlippage
  {
    if tradeType == BUY then 1.0 + SlippageFactor(draw) else 1.0 - SlippageFactor(draw)
  }

  /**
   * The execution price: slippage always works against the trader, raising
   * the price paid on a BUY and lowering the price received on a SELL.
   */
  function ExecutionPrice(tradeType: TradeType, targetPrice: real, draw: real): (p: real)
    requires targetPrice > 0.0 && 0.0 <= draw < 1.0
    ensures p == targetPrice * PriceFactor(tradeType, draw)
    ensures tradeType == BUY ==> p > targetPrice
    ensures tradeType == SELL ==> 0.0 < p < targetPrice
  {
    var factor := PriceFactor(tradeType, draw);
    ScaleStrict(targetPrice, 0.0, factor);
    if tradeType == BUY then
      ScaleStrict(targetPrice, 1.0, factor);
      targetPrice * factor
    else
      ScaleStrict(targetPrice, factor, 1.0);
      targetPrice * factor
  }

  /** Scaling by a positive factor keeps a strict order. */
  lemma ScaleStrict(c: real, x: real, y: real)
    requires c > 0.0 && x < y
    ensures c * x < c * y
  {
  }

  /**
   * The quantity-weighted mean of an old cost basis and a new purchase price,
   * the formula for the new average buy price.
   */
  function WeightedMean(oldQuantity: real, oldPrice: real, addedQuantity: real, addedPrice: real): (m: real)
    requires oldQuantity >= 0.0 && addedQuantity > 0.0
    ensures (oldQuantity + addedQuantity) * m == oldQuantity * oldPrice + addedQuantity * addedPrice
    ensures Min(oldPrice, addedPrice) <= m <= Max(oldPrice, addedPrice)
    ensures oldQuantity == 0.0 ==> m == addedPrice
  {
    var m := (oldQuantity * oldPrice + addedQuantity * addedPrice) / (oldQuantity + addedQuantity);
    WeightedMeanBetween(oldQuantity, oldPrice, addedQuantity, addedPrice, m);
    m
  }

  lemma WeightedMeanBetween(q0: real, p0: real, q1: real, p1: real, m: real)
    requires q0 >= 0.0 && q1 > 0.0
    requires m == (q0 * p0 + q1 * p1) / (q0 + q1)
    ensures (q0 + q1) * m == q0 * p0 + q1 * p1
    ensures Min(p0, p1) <= m <= Max(p0, p1)
    ensures q0 == 0.0 ==> m == p1
  {
    var total := q0 + q1;
    assert total * m == q0 * p0 + q1 * p1;
    var lo, hi := Min(p0, p1), Max(p0, p1);
    assert q0 * lo <= q0 * p0 <= q0 * hi;
    assert q1 * lo <= q1 * p1 <= q1 * hi;
    assert total * lo <= total * m <= total * hi;
    if q0 == 0.0 {
      assert q1 * m == q1 * p1;
    }
  }

  /** The BUY branch (tradeEngine.ts lines 54-96), at an already drawn execution price. */
  function ExecuteBuy(currentBalance: real, currentPosition: Option<Position>, executedPrice: real, request: TradeRequest): (r: TradeResult)
    requires executedPrice > 0.0 && request.amount > 0.0
    requires HeldQuantity(currentPosition) >= 0.0
    // The fee model: 0.1% of the USD spent, added on top of it.
    ensures r.feeUsd == request.amount * TransactionFeeRate >= 0.0
    ensures r.totalCostUsd == request.amount + r.feeUsd
    ensures r.executedPrice == executedPrice
    ensures r.realizedPnl.None?
    // A BUY is accepted exactly when the balance covers the spend plus fee.
    ensures r.success <==> request.amount * (1.0 + TransactionFeeRate) <= currentBalance
    ensures r.success <==> r.error.None?
    ensures !r.success ==>
      && r.error == Some(InsufficientBalance(r.totalCostUsd, r.feeUsd))
      && r.quantity == 0.0
      && r.newBalance == currentBalance
      && r.newPosition == UnchangedPosition(currentPosition, request)
    ensures r.success ==>
      && r.newBalance == currentBalance - request.amount * (1.0 + TransactionFeeRate) >= 0.0
      && r.quantity > 0.0
      && r.quantity * executedPrice == request.amount
      && r.newPosition.assetId == request.assetId
      && r.newPosition.symbol == request.symbol
      && r.newPosition.name == request.name
      && r.newPosition.quantity == HeldQuantity(currentPosition) + r.quantity
      // The cost basis grows by exactly the USD spent (fee excluded) ...
      && r.newPosition.quantity * r.newPosition.avgBuyPriceUsd
           == HeldQuantity(currentPosition) * HeldAvgPrice(currentPosition) + request.amount
      // ... so the new average lies between the old one and the execution price,
      && Min(HeldAvgPrice(currentPosition), executedPrice) <= r.newPosition.avgBuyPriceUsd
      && r.newPosition.avgBuyPriceUsd <= Max(HeldAvgPrice(currentPosition), executedPrice)
      // ... and is the execution price itself for a first purchase.
      && (HeldQuantity(currentPosition) == 0.0 ==> r.newPosition.avgBuyPriceUsd == executedPrice)
  {
    var usdToSpend := request.amount;
    var feeUsd := usdToSpend * TransactionFeeRate;
    var totalCostUsd := usdToSpend + feeUsd;
    if totalCostUsd > currentBalance then
      TradeResult(false, Some(InsufficientBalance(totalCostUsd, feeUsd)), executedPrice, 0.0,
                  feeUsd, totalCostUsd, currentBalance, UnchangedPosition(currentPosition, request), None)
    else
      var quantityBought := usdToSpend / executedPrice;
      var oldQuantity := HeldQuantity(currentPosition);
      var oldAvgPrice := HeldAvgPrice(currentPosition);
      var newQuantity := oldQuantity + quantityBought;
      var newAvgPrice := WeightedMean(oldQuantity, oldAvgPrice, quantityBought, executedPrice);
      assert quantityBought * executedPrice == usdToSpend;
      TradeResult(true, None, executedPrice, quantityBought, feeUsd, totalCostUsd,
                  currentBalance - totalCostUsd,
                  Position(request.assetId, request.symbol, request.name, newQuantity, newAvgPrice),
                  None)
  }

  /** The SELL branch (tradeEngine.ts lines 97-143), at an already drawn execution price. */
  function ExecuteSell(currentBalance: real, currentPosition: Option<Position>, executedPrice: real, request: TradeRequest): (r: TradeResult)
    requires executedPrice > 0.0 && request.amount > 0.0
    ensures r.executedPrice == executedPrice
    ensures r.feeUsd >= 0.0
    // A SELL is accepted exactly when the position covers the quantity; no position holds 0.
    ensures r.success <==> request.amount <= HeldQuantity(currentPosition)
    ensures r.success <==> r.error.None?
    ensures !r.success ==>
      && r.error == Some(InsufficientQuantity(request.symbol, HeldQuantity(currentPosition)))
      && r.quantity == 0.0 && r.feeUsd == 0.0 && r.totalCostUsd == 0.0
      && r.newBalance == currentBalance
      && r.newPosition == UnchangedPosition(currentPosition, request)
      && r.realizedPnl.None?
    ensures r.success ==>
      && r.quantity == request.amount
      // The fee is 0.1% of the gross proceeds; totalCostUsd reports the net proceeds.
      && r.feeUsd == request.amount * executedPrice * TransactionFeeRate
      && r.totalCostUsd == request.amount * executedPrice - r.feeUsd > 0.0
      && r.newBalance == currentBalance + r.totalCostUsd
      && r.newPosition.assetId == request.assetId
      && r.newPosition.symbol == request.symbol
      && r.newPosition.name == request.name
      && r.newPosition.quantity == HeldQuantity(currentPosition) - request.amount >= 0.0
      // Realized P&L: net proceeds minus the cost basis of the quantity sold.
      && r.realizedPnl == Some(r.totalCostUsd - request.amount * HeldAvgPrice(currentPosition))
      // The cost basis survives a partial sale and is reset once the position is closed.
      && r.newPosition.avgBuyPriceUsd
           == (if r.newPosition.quantity > 0.0 then HeldAvgPrice(currentPosition) else 0.0)
  {
    var quantityToSell := request.amount;
    var currentQuantity := HeldQuantity(currentPosition);
    if quantityToSell > currentQuantity then
      TradeResult(false, Some(InsufficientQuantity(request.symbol, currentQuantity)), executedPrice,
                  0.0, 0.0, 0.0, currentBalance, UnchangedPosition(currentPosition, request), None)
    else
      var grossProceeds := quantityToSell * executedPrice;
      var feeUsd := grossProceeds * TransactionFeeRate;
      var netProceeds := grossProceeds - feeUsd;
      var costOfQuantitySold := quantityToSell * HeldAvgPrice(currentPosition);
      var realizedPnl := grossProceeds - costOfQuantitySold - feeUsd;
      assert realizedPnl == netProceeds - request.amount * HeldAvgPrice(currentPosition);
      var newQuantity := currentQuantity - quantityToSell;
      TradeResult(true, None, executedPrice, quantityToSell, feeUsd, netProceeds,
                  currentBalance + netProceeds,
                  Position(request.assetId, request.symbol, request.name, newQuantity,
                           if newQuantity > 0.0 then HeldAvgPrice(currentPosition) else 0.0),
                  Some(realizedPnl))
  }

  /**
   * `executeTrade`: draws the execution price, then runs the BUY or the SELL
   * branch. Callers pass a positive reference price and a positive amount.
   */
  function ExecuteTrade(currentBalance: real, currentPosition: Option<Position>, targetPrice: real, request: TradeRequest, draw: real): (r: TradeResult)
    requires targetPrice > 0.0 && request.amount > 0.0 && 0.0 <= draw < 1.0
    requires request.tradeType == BUY ==> HeldQuantity(currentPosition) >= 0.0
    ensures r.executedPrice == ExecutionPrice(request.tradeType, targetPrice, draw)
    ensures r == if request.tradeType == BUY
                 then ExecuteBuy(currentBalance, currentPosition, r.executedPrice, request)
                 else ExecuteSell(currentBalance, currentPosition, r.executedPrice, request)
    // Neither branch can drive a non-negative balance below zero.
    ensures currentBalance >= 0.0 ==> r.newBalance >= 0.0
    ensures r.success <==> r.error.None?
    ensures r.success ==> r.quantity > 0.0 && r.newPosition.assetId == request.assetId
  {
    var executedPrice := ExecutionPrice(request.tradeType, targetPrice, draw);
    if request.tradeType == BUY then ExecuteBuy(currentBalance, currentPosition, executedPrice, request)
    else ExecuteSell(currentBalance, currentPosition, executedPrice, request)
  }

  /**
   * Buying into an empty position and immediately selling all of it at the same
   * reference price never pays: the sale realizes a loss (adverse slippage on
   * both legs and the sale fee), and the balance ends lower by exactly the buy
   * fee minus that realized P&L.
   */
  lemma {:induction false} RoundTripLoses(balance: real, targetPrice: real, spend: real,
                                          buyDraw: real, sellDraw: real,
                                          assetId: string, symbol: string, name: string)
    requires targetPrice > 0.0 && spend > 0.0
    requires 0.0 <= buyDraw < 1.0 && 0.0 <= sellDraw < 1.0
    requires spend * (1.0 + TransactionFeeRate) <= balance
    ensures
      var bought := ExecuteTrade(balance, None, targetPrice, TradeRequest(BUY, assetId, symbol, name, spend), buyDraw);
      var sold := ExecuteTrade(bought.newBalance, Some(bought.newPosition), targetPrice,
                               TradeRequest(SELL, assetId, symbol, name, bought.quantity), sellDraw);
      && bought.success && sold.success
      && sold.newPosition.quantity == 0.0 && sold.newPosition.avgBuyPriceUsd == 0.0
      && sold.realizedPnl.Some? && sold.realizedPnl.value < 0.0
      && sold.newBalance == balance - spend * TransactionFeeRate + sold.realizedPnl.value
      && sold.newBalance < balance
  {
    var bought := ExecuteTrade(balance, None, targetPrice, TradeRequest(BUY, assetId, symbol, name, spend), buyDraw);
    var q := bought.quantity;
    var buyPrice := bought.executedPrice;
    var sellPrice := ExecutionPrice(SELL, targetPrice, sellDraw);
    assert bought.newPosition.avgBuyPriceUsd == buyPrice;
    assert q * buyPrice == spend;
    var sold := ExecuteTrade(bought.newBalance, Some(bought.newPosition), targetPrice,
                             TradeRequest(SELL, assetId, symbol, name, q), sellDraw);
    assert sold.success;
    // The sale price is below the purchase price, so the net proceeds fall short of the spend.
    assert sellPrice < buyPrice;
    ScaleStrict(q, sellPrice, buyPrice);
    assert q * sellPrice < spend;
    assert sold.totalCostUsd == q * sellPrice * (1.0 - TransactionFeeRate);
    assert sold.totalCostUsd < spend;
    assert sold.realizedPnl.value == sold.totalCostUsd - spend;
  }

  /**
   * Because a partial sale keeps the cost basis, selling `first` and then
   * `second` at one execution price yields the same balance, fees, remaining
   * quantity and total realized P&L as selling `first + second` at once.
   */
  lemma {:induction false} SplitSellIsAdditive(balance: real, position: Position, executedPrice: real,
                                               first: real, second: real)
    requires executedPrice > 0.0 && first > 0.0 && second > 0.0
    requires first + second <= position.quantity
    ensures
      var req := (q: real) => TradeRequest(SELL, position.assetId, position.symbol, position.name, q);
      var one := ExecuteSell(balance, Some(position), executedPrice, req(first));
      var two := ExecuteSell(one.newBalance, Some(one.newPosition), executedPrice, req(second));
      var both := ExecuteSell(balance, Some(position), executedPrice, req(first + second));
      && one.success && two.success && both.success
      && two.newBalance == both.newBalance
      && one.feeUsd + two.feeUsd == both.feeUsd
      && two.newPosition == both.newPosition
      && one.realizedPnl.value + two.realizedPnl.value == both.realizedPnl.value
  {
    var req := (q: real) => TradeRequest(SELL, position.assetId, position.symbol, position.name, q);
    var one := ExecuteSell(balance, Some(position), executedPrice, req(first));
    assert one.newPosition.quantity > 0.0;
    assert one.newPosition.avgBuyPriceUsd == position.avgBuyPriceUsd;
    var two := ExecuteSell(one.newBalance, Some(one.newPosition), executedPrice, req(second));
    var both := ExecuteSell(balance, Some(position), executedPrice, req(first + second));
    assert (first + second) * executedPrice == first * executedPrice + second * executedPrice;
    assert (first + second) * position.avgBuyPriceUsd
        == first * position.avgBuyPriceUsd + second * position.avgBuyPriceUsd;
  }

  /**
   * Two purchases at one execution price cost the same as a single purchase
   * of the combined USD amount: the same fees and the same final balance.
   */
  lemma SplitBuyCostsTheSame(balance: real, position: Option<Position>, executedPrice: real,
                             request: TradeRequest, first: real, second: real)
    requires executedPrice > 0.0 && first > 0.0 && second > 0.0
    requires HeldQuantity(position) >= 0.0
    requires (first + second) * (1.0 + TransactionFeeRate) <= balance
    ensures
      var one := ExecuteBuy(balance, position, executedPrice, request.(amount := first));
      var two := ExecuteBuy(one.newBalance, Some(one.newPosition), executedPrice, request.(amount := second));
      var both := ExecuteBuy(balance, position, executedPrice, request.(amount := first + second));
      && one.success && two.success && both.success
      && two.newBalance == both.newBalance
      && one.feeUsd + two.feeUsd == both.feeUsd
  {
  }

  /**
   * Weighted-average accounting makes two purchases at one execution price
   * leave the same position (quantity and average price) as a single purchase
   * of the combined USD amount.
   */
  lemma {:induction false} SplitBuyHoldsTheSame(balance: real, position: Option<Position>, executedPrice: real,
                                                request: TradeRequest, first: real, second: real)
    requires executedPrice > 0.0 && first > 0.0 && second > 0.0
    requires HeldQuantity(position) >= 0.0
    requires (first + second) * (1.0 + TransactionFeeRate) <= balance
    ensures
      var one := ExecuteBuy(balance, position, executedPrice, request.(amount := first));
      var two := ExecuteBuy(one.newBalance, Some(one.newPosition), executedPrice, request.(amount := second));
      var both := ExecuteBuy(balance, position, executedPrice, request.(amount := first + second));
      one.success && two.success && both.success && two.newPosition == both.newPosition
  {
    SplitBuyQuantity(balance, position, executedPrice, request, first, second);
    SplitBuyAverage(balance, position, executedPrice, request, first, second);
  }

  /** The quantity half of SplitBuyHoldsTheSame. */
  lemma SplitBuyQuantity(balance: real, position: Option<Position>, executedPrice: real,
                         request: TradeRequest, first: real, second: real)
    requires executedPrice > 0.0 && first > 0.0 && second > 0.0
    requires HeldQuantity(position) >= 0.0
    requires (first + second) * (1.0 + TransactionFeeRate) <= balance
    ensures
      var one := ExecuteBuy(balance, position, executedPrice, request.(amount := first));
      var two := ExecuteBuy(one.newBalance, Some(one.newPosition), executedPrice, request.(amount := second));
      var both := ExecuteBuy(balance, position, executedPrice, request.(amount := first + second));
      && one.success && two.success && both.success
      && two.newPosition.quantity == both.newPosition.quantity > 0.0
  {
    var one := ExecuteBuy(balance, position, executedPrice, request.(amount := first));
    var two := ExecuteBuy(one.newBalance, Some(one.newPosition), executedPrice, request.(amount := second));
    var both := ExecuteBuy(balance, position, executedPrice, request.(amount := first + second));
    assert one.success && two.success && both.success;
    // Each leg buys its USD amount divided by the one price.
    assert one.quantity == first / executedPrice;
    assert two.quantity == second / executedPrice;
    assert both.quantity == (first + second) / executedPrice;
    DivAdd(first, second, executedPrice);
  }

  /** The average-price half of SplitBuyHoldsTheSame: both routes carry the same cost basis. */
  lemma SplitBuyAverage(balance: real, position: Option<Position>, executedPrice: real,
                        request: TradeRequest, first: real, second: real)
    requires executedPrice > 0.0 && first > 0.0 && second > 0.0
    requires HeldQuantity(position) >= 0.0
    requires (first + second) * (1.0 + TransactionFeeRate) <= balance
    ensures
      var one := ExecuteBuy(balance, position, executedPrice, request.(amount := first));
      var two := ExecuteBuy(one.newBalance, Some(one.newPosition), executedPrice, request.(amount := second));
      var both := ExecuteBuy(balance, position, executedPrice, request.(amount := first + second));
      two.newPosition.avgBuyPriceUsd == both.newPosition.avgBuyPriceUsd
  {
    SplitBuyQuantity(balance, position, executedPrice, request, first, second);
    var one := ExecuteBuy(balance, position, executedPrice, request.(amount := first));
    var two := ExecuteBuy(one.newBalance, Some(one.newPosition), executedPrice, request.(amount := second));
    var both := ExecuteBuy(balance, position, executedPrice, request.(amount := first + second));
    var q0, a0 := HeldQuantity(position), HeldAvgPrice(position);
    assert one.newPosition.avgBuyPriceUsd == WeightedMean(q0, a0, one.quantity, executedPrice);
    assert two.newPosition.avgBuyPriceUsd
        == WeightedMean(q0 + one.quantity, one.newPosition.avgBuyPriceUsd, two.quantity, executedPrice);
    assert both.newPosition.avgBuyPriceUsd == WeightedMean(q0, a0, one.quantity + two.quantity, executedPrice);
    WeightedMeanSplit(q0, a0, one.quantity, two.quantity, executedPrice);
  }

  /** Averaging in two lots at one price is averaging in their sum. */
  lemma WeightedMeanSplit(q0: real, a0: real, q1: real, q2: real, price: real)
    requires q0 >= 0.0 && q1 > 0.0 && q2 > 0.0
    ensures WeightedMean(q0 + q1, WeightedMean(q0, a0, q1, price), q2, price)
         == WeightedMean(q0, a0, q1 + q2, price)
  {
    var m1 := WeightedMean(q0, a0, q1, price);
    var lhs := WeightedMean(q0 + q1, m1, q2, price);
    var rhs := WeightedMean(q0, a0, q1 + q2, price);
    assert (q0 + q1 + q2) * lhs == (q0 + q1) * m1 + q2 * price == q0 * a0 + q1 * price + q2 * price;
    assert (q0 + q1 + q2) * rhs == q0 * a0 + (q1 + q2) * price;
    SharedDivisor(q0 + q1 + q2, lhs, 0.0, rhs, q0 * a0 + (q1 + q2) * price, 0.0);
  }

  lemma DivAdd(a: real, b: real, d: real)
    requires d > 0.0
    ensures (a + b) / d == a / d + b / d
  {
  }

  /** If `x` and `y` are the quotients of `a` and `b` by one positive divisor, `x + y` is that of `a + b`. */
  lemma SharedDivisor(d: real, x: real, y: real, z: real, a: real, b: real)
    requires d > 0.0 && x * d == a && y * d == b && z * d == a + b
    ensures x + y == z
  {
    assert (x + y) * d == z * d;
  }

  /** First purchase: $1,000 of an asset quoted at $50,000 from a $10,000 balance. */
  lemma FirstBuyScenario(draw: real)
    requires 0.0 <= draw < 1.0
    ensures
      var r := ExecuteTrade(10000.0, None, 50000.0, TradeRequest(BUY, "bitcoin", "btc", "Bitcoin", 1000.0), draw);
      && r.success && r.feeUsd == 1.0 && r.newBalance == 8999.0
      && 50005.0 <= r.executedPrice < 50025.0
      && r.newPosition.avgBuyPriceUsd == r.executedPrice
      && r.quantity * r.executedPrice == 1000.0
  {
  }

  /** Selling half of a position bought at $40,000 when the asset trades at $50,000 realizes a profit. */
  lemma ProfitableSellScenario(balance: real, draw: real)
    requires 0.0 <= draw < 1.0
    ensures
      var r := ExecuteTrade(balance, Some(Position("bitcoin", "btc", "Bitcoin", 1.0, 40000.0)), 50000.0,
                            TradeRequest(SELL, "bitcoin", "btc", "Bitcoin", 0.5), draw);
      && r.success && r.newPosition.quantity == 0.5 && r.newPosition.avgBuyPriceUsd == 40000.0
      && r.realizedPnl == Some(0.5 * (r.executedPrice - 40000.0) - r.feeUsd)
      && r.realizedPnl.value > 0.0
  {
  }

  /** Selling 0.5 units out of 0.2 held is rejected and changes nothing. */
  lemma OversellScenario(balance: real, draw: real)
    requires 0.0 <= draw < 1.0
    ensures
      var held := Position("bitcoin", "btc", "Bitcoin", 0.2, 40000.0);
      var r := ExecuteTrade(balance, Some(held), 50000.0, TradeRequest(SELL, "bitcoin", "btc", "Bitcoin", 0.5), draw);
      && !r.success && r.error == Some(InsufficientQuantity("btc", 0.2))
      && r.newBalance == balance && r.newPosition == held && r.quantity == 0.0
  {
  }

  /** Spending a whole $100 balance fails once the $0.10 fee is added. */
  lemma MarginalBuyScenario(draw: real)
    requires 0.0 <= draw < 1.0
    ensures
      var r := ExecuteTrade(100.0, None, 50000.0, TradeRequest(BUY, "bitcoin", "btc", "Bitcoin", 100.0), draw);
      && !r.success && r.error == Some(InsufficientBalance(100.1, 0.1))
      && r.newBalance == 100.0 && r.quantity == 0.0
      && r.newPosition == Position("bitcoin", "btc", "Bitcoin", 0.0, 0.0)
  {
  }
}
