/** `PositionHolding`: today's and yesterday's volume per side, the volume frozen by active
    closing orders, and the three request splitters. */
module Holding {
  import opened Market
  import opened Frozen

  /** One side of the position, as the fields of the holding show it. */
  datatype Side = Side(pos: int, yd: int, td: int, posFrozen: int, ydFrozen: int, tdFrozen: int) {
    function TdAvailable(): int { td - tdFrozen }
    function YdAvailable(): int { yd - ydFrozen }
    function PosAvailable(): int { pos - posFrozen }
  }

  /** The whole visible state of a holding. */
  datatype Book = Book(exchange: Exchange, orders: map<string, OrderData>, long: Side, short: Side) {
    /** The side a request or an order closes; everything that is not LONG closes the long side. */
    function Closed(d: Direction): Side { if d == LONG then short else long }
  }

  const EMPTY_SIDE := Side(0, 0, 0, 0, 0, 0)

  function Snapped(b: Book, p: PositionData): Book {
    if p.direction == LONG
    then b.(long := b.long.(pos := p.volume, yd := p.ydVolume, td := p.volume - p.ydVolume))
    else b.(short := b.short.(pos := p.volume, yd := p.ydVolume, td := p.volume - p.ydVolume))
  }

  /** Volume `v` leaves a side under offset `off`; a plain CLOSE takes yesterday's volume on the
      splitting exchanges and today's volume first elsewhere. */
  function CloseVolume(s: Side, off: Offset, v: int, splits: bool): Side {
    match off
    case CLOSETODAY => s.(td := s.td - v)
    case CLOSEYESTERDAY => s.(yd := s.yd - v)
    case CLOSE =>
      if splits then s.(yd := s.yd - v)
      else if s.td >= v then s.(td := s.td - v)
      else s.(td := 0, yd := s.yd - (v - s.td))
    case _ => s
  }

  function OpenVolume(s: Side, off: Offset, v: int): Side {
    if off == OPEN then s.(td := s.td + v) else s
  }

  /** `pos` and the clamped frozen fields follow `td` and `yd`. */
  function Summed(s: Side): Side {
    var f := Clamped(Frozen(s.tdFrozen, s.ydFrozen), s.td, s.yd);
    s.(pos := s.td + s.yd, tdFrozen := f.td, ydFrozen := f.yd, posFrozen := f.td + f.yd)
  }

  function Traded(b: Book, t: TradeData): Book {
    var splits := t.exchange.SplitsToday();
    if t.direction == LONG
    then b.(long := Summed(OpenVolume(b.long, t.offset, t.volume)),
            short := Summed(CloseVolume(b.short, t.offset, t.volume, splits)))
    else b.(short := Summed(OpenVolume(b.short, t.offset, t.volume)),
            long := Summed(CloseVolume(b.long, t.offset, t.volume, splits)))
  }

  function WithFrozen(s: Side, f: Frozen): Side {
    var c := Clamped(f, s.td, s.yd);
    s.(tdFrozen := c.td, ydFrozen := c.yd, posFrozen := c.td + c.yd)
  }

  /** The book after `calculate_frozen` has walked the active orders in the order `ks`. */
  ghost function Refrozen(b: Book, ks: seq<string>): Book
    requires Enumerates(ks, b.orders)
  {
    b.(long := WithFrozen(b.long, FreezeAll(Orders(ks, b.orders), SHORT, b.long.td)),
       short := WithFrozen(b.short, FreezeAll(Orders(ks, b.orders), LONG, b.short.td)))
  }

  function Filed(b: Book, o: OrderData): Book {
    b.(orders := if o.IsActive() then b.orders[o.KtOrderid() := o] else b.orders - {o.KtOrderid()})
  }

  /** `b` may become `b'` when order `o` is reported: some walk of the updated map explains it. */
  ghost predicate OrderUpdated(b: Book, o: OrderData, b': Book) {
    exists ks :: Enumerates(ks, Filed(b, o).orders) && b' == Refrozen(Filed(b, o), ks)
  }

  /** An order report files the order as reported unless its status is one of the three final ones, which take
      it out; what is held does not change. */
  lemma ReportFiles(b: Book, o: OrderData, b': Book)
    requires OrderUpdated(b, o, b')
    ensures o.status in {SUBMITTING, NOTTRADED, PARTTRADED} ==>
              b'.orders == b.orders[o.exchangeName + "." + o.orderid := o]
    ensures o.status in {ALLTRADED, CANCELLED, REJECTED} ==> b'.orders == b.orders - {o.exchangeName + "." + o.orderid}
    ensures b'.exchange == b.exchange
    ensures b'.long.td == b.long.td && b'.long.yd == b.long.yd && b'.long.pos == b.long.pos
    ensures b'.short.td == b.short.td && b'.short.yd == b.short.yd && b'.short.pos == b.short.pos
  {
  }

  lemma WalkNext(ks: seq<string>, k: string, left: set<string>, m: map<string, OrderData>)
    requires k in left && left <= m.Keys && Enumerates(ks, m - left)
    ensures Enumerates(ks + [k], m - (left - {k})) && forall j <- ks :: j in m
  {
    assert k !in ks;
    forall x ensures x in ks + [k] <==> x in m - (left - {k}) {
      assert x in ks + [k] <==> x in ks || x == k;
    }
    forall i, j | 0 <= i < j < |ks + [k]| ensures (ks + [k])[i] != (ks + [k])[j] {
      if j == |ks| { assert ks[i] in ks; }
    }
  }

  lemma FreezeNext(ks: seq<string>, k: string, m: map<string, OrderData>, longTd: int, shortTd: int)
    requires (forall j <- ks :: j in m) && k in m
    ensures FreezeAll(Orders(ks + [k], m), SHORT, longTd)
            == Freeze(FreezeAll(Orders(ks, m), SHORT, longTd), m[k], SHORT, longTd)
    ensures FreezeAll(Orders(ks + [k], m), LONG, shortTd)
            == Freeze(FreezeAll(Orders(ks, m), LONG, shortTd), m[k], LONG, shortTd)
  {
    assert Orders(ks + [k], m)[..|ks|] == Orders(ks, m);
  }

  // ---- request splitting ----

  function Leg(req: OrderRequest, off: Offset, v: int): OrderRequest { req.(offset := off, volume := v) }

  function ShfeLegs(b: Book, req: OrderRequest): seq<OrderRequest> {
    var s := b.Closed(req.direction);
    if req.offset == OPEN then [req]
    else if req.volume > s.PosAvailable() then []
    else if req.volume <= s.TdAvailable() then [Leg(req, CLOSETODAY, req.volume)]
    else (if s.TdAvailable() > 0 then [Leg(req, CLOSETODAY, s.TdAvailable())] else [])
         + [Leg(req, CLOSEYESTERDAY, req.volume - s.TdAvailable())]
  }

  function LockLegs(b: Book, req: OrderRequest): seq<OrderRequest> {
    var s := b.Closed(req.direction);
    var splits := b.exchange.SplitsToday();
    if s.td != 0 && !splits then [Leg(req, OPEN, req.volume)]
    else (if s.YdAvailable() > 0
          then [Leg(req, if splits then CLOSEYESTERDAY else CLOSE, Min(req.volume, s.YdAvailable()))] else [])
         + (if req.volume > s.YdAvailable() then [Leg(req, OPEN, req.volume - s.YdAvailable())] else [])
  }

  function NetLegs(b: Book, req: OrderRequest): seq<OrderRequest> {
    var s := b.Closed(req.direction);
    if req.exchange.SplitsToday() then
      var td := if s.TdAvailable() > 0 then Min(s.TdAvailable(), req.volume) else 0;
      var yd := if s.YdAvailable() > 0 && req.volume - td > 0 then Min(s.YdAvailable(), req.volume - td) else 0;
      (if s.TdAvailable() > 0 then [Leg(req, CLOSETODAY, td)] else [])
      + (if s.YdAvailable() > 0 && req.volume - td > 0 then [Leg(req, CLOSEYESTERDAY, yd)] else [])
      + (if req.volume - td - yd > 0 then [Leg(req, OPEN, req.volume - td - yd)] else [])
    else
      var pos := if s.PosAvailable() > 0 then Min(s.PosAvailable(), req.volume) else 0;
      (if s.PosAvailable() > 0 then [Leg(req, CLOSE, pos)] else [])
      + (if req.volume - pos > 0 then [Leg(req, OPEN, req.volume - pos)] else [])
  }

  /** The dispatch of `OffsetConverter::convert_order_request` for a contract that needs conversion. */
  function ConvertedLegs(b: Book, req: OrderRequest, lock: bool, net: bool): seq<OrderRequest> {
    if lock then LockLegs(b, req)
    else if net then NetLegs(b, req)
    else if req.exchange.SplitsToday() then ShfeLegs(b, req)
    else [req]
  }

  class PositionHolding {
    const exchange: Exchange
    var activeOrders: map<string, OrderData>
    var longPos: int
    var longYd: int
    var longTd: int
    var shortPos: int
    var shortYd: int
    var shortTd: int
    var longPosFrozen: int
    var longYdFrozen: int
    var longTdFrozen: int
    var shortPosFrozen: int
    var shortYdFrozen: int
    var shortTdFrozen: int

    ghost function Snapshot(): Book
      reads this
    {
      Book(exchange, activeOrders,
           Side(longPos, longYd, longTd, longPosFrozen, longYdFrozen, longTdFrozen),
           Side(shortPos, shortYd, shortTd, shortPosFrozen, shortYdFrozen, shortTdFrozen))
    }

    constructor (exchange: Exchange)
      ensures Snapshot() == Book(exchange, map[], Side(0, 0, 0, 0, 0, 0), Side(0, 0, 0, 0, 0, 0))
    {
      this.exchange := exchange;
      activeOrders := map[];
      longPos, longYd, longTd, shortPos, shortYd, shortTd := 0, 0, 0, 0, 0, 0;
      longPosFrozen, longYdFrozen, longTdFrozen := 0, 0, 0;
      shortPosFrozen, shortYdFrozen, shortTdFrozen := 0, 0, 0;
    }

    method UpdatePosition(p: PositionData)
      modifies this
      ensures Snapshot() == Snapped(old(Snapshot()), p)
      ensures if p.direction == LONG
              then longPos == longTd + longYd == p.volume && longYd == p.ydVolume
                   && Snapshot().short == old(Snapshot()).short
              else shortPos == shortTd + shortYd == p.volume && shortYd == p.ydVolume
                   && Snapshot().long == old(Snapshot()).long
    {
      if p.direction == LONG {
        longPos := p.volume;
        longYd := p.ydVolume;
        longTd := longPos - longYd;
      } else {
        shortPos := p.volume;
        shortYd := p.ydVolume;
        shortTd := shortPos - shortYd;
      }
    }

    method UpdateOrder(o: OrderData)
      modifies this
      ensures OrderUpdated(old(Snapshot()), o, Snapshot())
      ensures o.status in {SUBMITTING, NOTTRADED, PARTTRADED} ==>
                activeOrders == old(activeOrders)[o.exchangeName + "." + o.orderid := o]
      ensures o.status in {ALLTRADED, CANCELLED, REJECTED} ==>
                activeOrders == old(activeOrders) - {o.exchangeName + "." + o.orderid}
    {
      if o.IsActive() {
        activeOrders := activeOrders[o.KtOrderid() := o];
      } else {
        activeOrders := activeOrders - {o.KtOrderid()};
      }
      assert Snapshot() == Filed(old(Snapshot()), o);
      CalculateFrozen();
    }

    method UpdateOrderRequest(req: OrderRequest, ktOrderid: string)
      modifies this
      ensures var (exchangeName, orderid) := SplitKtOrderid(ktOrderid);
              OrderUpdated(old(Snapshot()), req.CreateOrderData(orderid, exchangeName), Snapshot())
    {
      var (exchangeName, orderid) := SplitKtOrderid(ktOrderid);
      UpdateOrder(req.CreateOrderData(orderid, exchangeName));
    }

    /** The LONG branch of `update_trade`. */
    method Bought(t: TradeData)
      modifies this`longTd, this`shortTd, this`shortYd
      ensures var b := old(Snapshot());
              Snapshot() == b.(long := OpenVolume(b.long, t.offset, t.volume),
                               short := CloseVolume(b.short, t.offset, t.volume, t.exchange.SplitsToday()))
    {
      if t.offset == OPEN {
        longTd := longTd + t.volume;
      } else if t.offset == CLOSETODAY {
        shortTd := shortTd - t.volume;
      } else if t.offset == CLOSEYESTERDAY {
        shortYd := shortYd - t.volume;
      } else if t.offset == CLOSE {
        if t.exchange == SHFE || t.exchange == INE {
          shortYd := shortYd - t.volume;
        } else {
          shortTd := shortTd - t.volume;
          if shortTd < 0 {
            shortYd := shortYd + shortTd;
            shortTd := 0;
          }
        }
      }
    }

    /** The other branch of `update_trade`. */
    method Sold(t: TradeData)
      modifies this`shortTd, this`longTd, this`longYd
      ensures var b := old(Snapshot());
              Snapshot() == b.(short := OpenVolume(b.short, t.offset, t.volume),
                               long := CloseVolume(b.long, t.offset, t.volume, t.exchange.SplitsToday()))
    {
      if t.offset == OPEN {
        shortTd := shortTd + t.volume;
      } else if t.offset == CLOSETODAY {
        longTd := longTd - t.volume;
      } else if t.offset == CLOSEYESTERDAY {
        longYd := longYd - t.volume;
      } else if t.offset == CLOSE {
        if t.exchange == SHFE || t.exchange == INE {
          longYd := longYd - t.volume;
        } else {
          longTd := longTd - t.volume;
          if longTd < 0 {
            longYd := longYd + longTd;
            longTd := 0;
          }
        }
      }
    }

    method UpdateTrade(t: TradeData)
      modifies this
      ensures Snapshot() == Traded(old(Snapshot()), t)
    {
      hide OpenVolume, CloseVolume, Min;
      if t.direction == LONG {
        Bought(t);
      } else {
        Sold(t);
      }
      longPos := longTd + longYd;
      shortPos := shortTd + shortYd;
      SumPosFrozen();
    }

    /** The loop body of `calculate_frozen`. */
    method FreezeOrder(order: OrderData)
      modifies this`longYdFrozen, this`longTdFrozen, this`shortYdFrozen, this`shortTdFrozen
      ensures Frozen(longTdFrozen, longYdFrozen)
              == Freeze(Frozen(old(longTdFrozen), old(longYdFrozen)), order, SHORT, longTd)
      ensures Frozen(shortTdFrozen, shortYdFrozen)
              == Freeze(Frozen(old(shortTdFrozen), old(shortYdFrozen)), order, LONG, shortTd)
    {
      if order.offset != OPEN {
        var frozen := order.volume - order.traded;
        if order.direction == LONG {
          if order.offset == CLOSETODAY {
            shortTdFrozen := shortTdFrozen + frozen;
          } else if order.offset == CLOSEYESTERDAY {
            shortYdFrozen := shortYdFrozen + frozen;
          } else if order.offset == CLOSE {
            shortTdFrozen := shortTdFrozen + frozen;
            if shortTdFrozen > shortTd {
              shortYdFrozen := shortYdFrozen + (shortTdFrozen - shortTd);
              shortTdFrozen := shortTd;
            }
          }
        } else if order.direction == SHORT {
          if order.offset == CLOSETODAY {
            longTdFrozen := longTdFrozen + frozen;
          } else if order.offset == CLOSEYESTERDAY {
            longYdFrozen := longYdFrozen + frozen;
          } else if order.offset == CLOSE {
            longTdFrozen := longTdFrozen + frozen;
            if longTdFrozen > longTd {
              longYdFrozen := longYdFrozen + (longTdFrozen - longTd);
              longTdFrozen := longTd;
            }
          }
        }
      }
    }

    /** The loop of `calculate_frozen`: the map may be walked in any order. */
    method FreezeOrders() returns (ghost ks: seq<string>)
      requires Frozen(longTdFrozen, longYdFrozen) == Frozen(shortTdFrozen, shortYdFrozen) == Frozen(0, 0)
      modifies this`longYdFrozen, this`longTdFrozen, this`shortYdFrozen, this`shortTdFrozen
      ensures Enumerates(ks, activeOrders)
      ensures Frozen(longTdFrozen, longYdFrozen) == FreezeAll(Orders(ks, activeOrders), SHORT, longTd)
      ensures Frozen(shortTdFrozen, shortYdFrozen) == FreezeAll(Orders(ks, activeOrders), LONG, shortTd)
    {
      var left := activeOrders.Keys;
      ks := [];
      assert Orders(ks, activeOrders) == [];
      assert Enumerates(ks, activeOrders - left);
      assert FreezeAll([], SHORT, longTd) == FreezeAll([], LONG, shortTd) == Frozen(0, 0);
      hide FreezeAll, Orders, Enumerates, Freeze;
      while left != {}
        invariant left <= activeOrders.Keys && Enumerates(ks, activeOrders - left)
        invariant Frozen(longTdFrozen, longYdFrozen) == FreezeAll(Orders(ks, activeOrders), SHORT, longTd)
        invariant Frozen(shortTdFrozen, shortYdFrozen) == FreezeAll(Orders(ks, activeOrders), LONG, shortTd)
        decreases left
      {
        var k :| k in left;
        var order := activeOrders[k];
        WalkNext(ks, k, left, activeOrders);
        FreezeNext(ks, k, activeOrders, longTd, shortTd);
        left, ks := left - {k}, ks + [k];
        FreezeOrder(order);
      }
      assert activeOrders - {} == activeOrders;
    }

    /** The result is the fold over some walk of the map. */
    method CalculateFrozen()
      modifies this`longPosFrozen, this`longYdFrozen, this`longTdFrozen,
               this`shortPosFrozen, this`shortYdFrozen, this`shortTdFrozen
      ensures exists ks :: Enumerates(ks, activeOrders) && Snapshot() == Refrozen(old(Snapshot()), ks)
    {
      hide FreezeAll, Orders, Enumerates, Min;
      longPosFrozen, longYdFrozen, longTdFrozen := 0, 0, 0;
      shortPosFrozen, shortYdFrozen, shortTdFrozen := 0, 0, 0;
      ghost var ks := FreezeOrders();
      SumPosFrozen();
      assert Snapshot() == Refrozen(old(Snapshot()), ks);
    }

    method SumPosFrozen()
      modifies this`longPosFrozen, this`longYdFrozen, this`longTdFrozen,
               this`shortPosFrozen, this`shortYdFrozen, this`shortTdFrozen
      ensures Snapshot() == old(Snapshot()).(
                long := WithFrozen(old(Snapshot()).long, Frozen(old(longTdFrozen), old(longYdFrozen))),
                short := WithFrozen(old(Snapshot()).short, Frozen(old(shortTdFrozen), old(shortYdFrozen))))
    {
      longTdFrozen := Min(longTdFrozen, longTd);
      longYdFrozen := Min(longYdFrozen, longYd);
      shortTdFrozen := Min(shortTdFrozen, shortTd);
      shortYdFrozen := Min(shortYdFrozen, shortYd);
      longPosFrozen := longTdFrozen + longYdFrozen;
      shortPosFrozen := shortTdFrozen + shortYdFrozen;
    }

    method ConvertOrderRequestShfe(req: OrderRequest) returns (reqs: seq<OrderRequest>)
      ensures reqs == ShfeLegs(Snapshot(), req)
    {
      if req.offset == OPEN { return [req]; }
      var posAvailable := if req.direction == LONG then shortPos - shortPosFrozen else longPos - longPosFrozen;
      var tdAvailable := if req.direction == LONG then shortTd - shortTdFrozen else longTd - longTdFrozen;
      if req.volume > posAvailable {
        return [];
      } else if req.volume <= tdAvailable {
        return [req.(offset := CLOSETODAY)];
      } else {
        reqs := [];
        if tdAvailable > 0 {
          reqs := reqs + [req.(offset := CLOSETODAY, volume := tdAvailable)];
        }
        reqs := reqs + [req.(offset := CLOSEYESTERDAY, volume := req.volume - tdAvailable)];
      }
    }

    method ConvertOrderRequestLock(req: OrderRequest) returns (reqs: seq<OrderRequest>)
      ensures reqs == LockLegs(Snapshot(), req)
    {
      var tdVolume := if req.direction == LONG then shortTd else longTd;
      var ydAvailable := if req.direction == LONG then shortYd - shortYdFrozen else longYd - longYdFrozen;
      var closeYdExchanges := {SHFE, INE};
      if tdVolume != 0 && exchange !in closeYdExchanges {
        return [req.(offset := OPEN)];
      }
      var closeVolume := Min(req.volume, ydAvailable);
      var openVolume := Max(0, req.volume - ydAvailable);
      reqs := [];
      if ydAvailable > 0 {
        reqs := reqs + [req.(offset := if exchange in closeYdExchanges then CLOSEYESTERDAY else CLOSE,
                             volume := closeVolume)];
      }
      if openVolume > 0 {
        reqs := reqs + [req.(offset := OPEN, volume := openVolume)];
      }
    }

    method ConvertOrderRequestNet(req: OrderRequest) returns (reqs: seq<OrderRequest>)
      ensures reqs == NetLegs(Snapshot(), req)
    {
      var posAvailable := if req.direction == LONG then shortPos - shortPosFrozen else longPos - longPosFrozen;
      var tdAvailable := if req.direction == LONG then shortTd - shortTdFrozen else longTd - longTdFrozen;
      var ydAvailable := if req.direction == LONG then shortYd - shortYdFrozen else longYd - longYdFrozen;
      reqs := [];
      var volumeLeft := req.volume;
      if req.exchange == SHFE || req.exchange == INE {
        if tdAvailable > 0 {
          var tdVolume := Min(tdAvailable, volumeLeft);
          volumeLeft := volumeLeft - tdVolume;
          reqs := reqs + [req.(offset := CLOSETODAY, volume := tdVolume)];
        }
        if ydAvailable > 0 && volumeLeft > 0 {
          var ydVolume := Min(ydAvailable, volumeLeft);
          volumeLeft := volumeLeft - ydVolume;
          reqs := reqs + [req.(offset := CLOSEYESTERDAY, volume := ydVolume)];
        }
      } else {
        if posAvailable > 0 {
          var posVolume := Min(posAvailable, volumeLeft);
          volumeLeft := volumeLeft - posVolume;
          reqs := reqs + [req.(offset := CLOSE, volume := posVolume)];
        }
      }
      if volumeLeft > 0 {
        reqs := reqs + [req.(offset := OPEN, volume := volumeLeft)];
      }
    }

    /** `OffsetConverter::convert_order_request`, once the contract is known to need conversion. */
    method ConvertOrderRequest(req: OrderRequest, lock: bool, net: bool) returns (reqs: seq<OrderRequest>)
      ensures reqs == ConvertedLegs(Snapshot(), req, lock, net)
    {
      if lock {
        reqs := ConvertOrderRequestLock(req);
      } else if net {
        reqs := ConvertOrderRequestNet(req);
      } else if req.exchange == SHFE || req.exchange == INE {
        reqs := ConvertOrderRequestShfe(req);
      } else {
        reqs := [req];
      }
    }
  }
}
