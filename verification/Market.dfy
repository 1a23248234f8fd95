/** The trading vocabulary shared by the position holding and the strategy engine.
    Volumes are whole lots, prices are reals. */
module Market {

  datatype Direction = LONG | SHORT | NET

  datatype Offset = NONE | OPEN | CLOSE | CLOSETODAY | CLOSEYESTERDAY

  /** Only SHFE and INE are told apart by the code; every other exchange is an `Other`. */
  datatype Exchange = SHFE | INE | Other(code: nat) {
    /** The exchanges on which today's and yesterday's volume are closed separately. */
    predicate SplitsToday() { this == SHFE || this == INE }
  }

  datatype Status = SUBMITTING | NOTTRADED | PARTTRADED | ALLTRADED | CANCELLED | REJECTED

  datatype OrderType = LIMIT | MARKET | STOP | FAK | FOK | RFQ

  datatype OrderData = OrderData(
    symbol: string, exchange: Exchange, orderid: string, orderType: OrderType, direction: Direction,
    offset: Offset, price: real, volume: int, traded: int, status: Status, reference: string,
    exchangeName: string)
  {
    predicate IsActive() { status in {SUBMITTING, NOTTRADED, PARTTRADED} }

    function KtOrderid(): string { exchangeName + "." + orderid }

    function Remaining(): int { volume - traded }
  }

  /** An order is active until one of three statuses ends it. */
  lemma ActiveOrFinal(o: OrderData)
    ensures o.IsActive() <==> o.status !in {ALLTRADED, CANCELLED, REJECTED}
  {
    match o.status
    case SUBMITTING | NOTTRADED | PARTTRADED =>
    case ALLTRADED | CANCELLED | REJECTED =>
  }

  datatype OrderRequest = OrderRequest(
    symbol: string, exchange: Exchange, direction: Direction, orderType: OrderType, volume: int,
    price: real, offset: Offset, reference: string)
  {
    function CreateOrderData(orderid: string, exchangeName: string): OrderData {
      OrderData(symbol, exchange, orderid, orderType, direction, offset, price, volume, 0, SUBMITTING,
                reference, exchangeName)
    }
  }

  datatype TradeData = TradeData(
    exchange: Exchange, direction: Direction, offset: Offset, volume: int, ktOrderid: string, ktTradeid: string)

  /** Times are milliseconds since the epoch. */
  datatype TickData = TickData(
    ktSymbol: string, symbol: string, exchangeName: string, datetime: nat, volume: real, openInterest: real,
    lastPrice: real, limitUp: real, limitDown: real, askPrice5: real, bidPrice5: real)

  datatype BarData = BarData(
    symbol: string, exchangeName: string, datetime: nat, volume: real, openInterest: real,
    openPrice: real, highPrice: real, lowPrice: real, closePrice: real)

  datatype PositionData = PositionData(direction: Direction, volume: int, ydVolume: int)

  function Min(a: int, b: int): int { if a < b then a else b }

  function Max(a: int, b: int): int { if a < b then b else a }

  function Higher(a: real, b: real): real { if a < b then b else a }

  function Lower(a: real, b: real): real { if b < a then b else a }

  /** Position of the first '.' at or after `from`, or |s| when there is none. */
  function FindDot(s: string, from: nat): (p: nat)
    requires from <= |s|
    ensures from <= p <= |s|
    ensures forall i :: from <= i < p ==> s[i] != '.'
    ensures p < |s| ==> s[p] == '.'
    decreases |s| - from
  {
    if from == |s| || s[from] == '.' then from else FindDot(s, from + 1)
  }

  /** The two `substr` calls of `update_order_request`; with no '.' both yield the whole id,
      because `npos + 1` is 0. */
  function SplitKtOrderid(id: string): (string, string) {
    var p := FindDot(id, 0);
    if p == |id| then (id, id) else (id[..p], id[p + 1..])
  }

  /** The order made from a request is filed under the id it was sent with exactly when
      that id contains a '.'. */
  lemma RegisteredUnderOwnId(req: OrderRequest, id: string)
    ensures var (exchangeName, orderid) := SplitKtOrderid(id);
            req.CreateOrderData(orderid, exchangeName).KtOrderid() == id <==> '.' in id
  {
    var p := FindDot(id, 0);
    if p < |id| {
      assert id == id[..p] + [id[p]] + id[p + 1..];
      assert id[p] in id;
    } else {
      assert |id + "." + id| == 2 * |id| + 1;
    }
  }
}
