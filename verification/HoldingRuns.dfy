/** Whole-run safety of an SHFE or INE holding: the orders the splitters produce never close
    more than the position holds, on any run of submissions, fills, cancels and rejects. */
module HoldingRuns {
  import opened Market
  import opened Frozen
  import opened FrozenOrder
  import opened Holding
  import opened Splitting

  // ---- the invariant ----

  ghost predicate OrderOk(k: string, o: OrderData, exchange: Exchange) {
    && o.KtOrderid() == k && o.IsActive() && o.exchange == exchange && o.Remaining() >= 0
    && o.offset in {OPEN, CLOSETODAY, CLOSEYESTERDAY}
  }

  /** The active closing volume against each bucket fits into the bucket. */
  ghost predicate Covered(b: Book, d: Direction) {
    var s := b.Closed(d);
    && s.pos == s.td + s.yd
    && 0 <= MapTotal(b.orders, d, CLOSETODAY) <= s.td
    && 0 <= MapTotal(b.orders, d, CLOSEYESTERDAY) <= s.yd
  }

  /** The frozen fields are those volumes. */
  ghost predicate FrozenExact(b: Book, d: Direction) {
    var s := b.Closed(d);
    && s.tdFrozen == MapTotal(b.orders, d, CLOSETODAY)
    && s.ydFrozen == MapTotal(b.orders, d, CLOSEYESTERDAY)
    && s.posFrozen == s.tdFrozen + s.ydFrozen
  }

  ghost predicate CoveredBook(b: Book) {
    && b.exchange.SplitsToday()
    && (forall k <- b.orders :: OrderOk(k, b.orders[k], b.exchange))
    && Covered(b, LONG) && Covered(b, SHORT)
  }

  ghost predicate SettledBook(b: Book) { CoveredBook(b) && FrozenExact(b, LONG) && FrozenExact(b, SHORT) }

  /** No order carries the direction NET, which `calculate_frozen` overlooks. */
  ghost predicate NoneNet(m: map<string, OrderData>) { forall k <- m :: m[k].direction != NET }

  ghost predicate Inv(b: Book) { SettledBook(b) && NoneNet(b.orders) }

  // ---- runs ----

  datatype Event =
    | Submit(req: OrderRequest, lock: bool, net: bool, legs: seq<OrderRequest>, ids: seq<string>)
    | Fill(id: string, volume: int, status: Status)
    | Report(id: string, status: Status)

  /** The legs are sent one by one; an empty id means that the leg could not be sent. */
  ghost predicate Registered(b: Book, legs: seq<OrderRequest>, ids: seq<string>, b': Book)
    requires |legs| == |ids|
    decreases |legs|
  {
    if legs == [] then b' == b else
    if ids[0] == "" then Registered(b, legs[1..], ids[1..], b') else
    && '.' in ids[0] && ids[0] !in b.orders
    && exists next :: && OrderUpdated(b, Sent(legs[0], ids[0]), next)
                      && Registered(next, legs[1..], ids[1..], b')
  }

  function Sent(leg: OrderRequest, id: string): OrderData {
    var (exchangeName, orderid) := SplitKtOrderid(id);
    leg.CreateOrderData(orderid, exchangeName)
  }

  function TradeOf(o: OrderData, volume: int): TradeData {
    TradeData(o.exchange, o.direction, o.offset, volume, o.KtOrderid(), "")
  }

  ghost predicate Step(b: Book, e: Event, b': Book) {
    match e
    case Submit(req, lock, net, legs, ids) =>
      && legs == ConvertedLegs(b, req, lock, net)
      && req.exchange == b.exchange && req.direction != NET && req.volume >= 0
      && |ids| == |legs| && Registered(b, legs, ids, b')
    case Fill(id, volume, status) =>
      && id in b.orders && 0 <= volume <= b.orders[id].Remaining()
      && var o := b.orders[id];
         exists gap :: && OrderUpdated(b, o.(traded := o.traded + volume, status := status), gap)
                       && b' == Traded(gap, TradeOf(o, volume))
    case Report(id, status) =>
      id in b.orders && OrderUpdated(b, b.orders[id].(status := status), b')
  }

  ghost predicate Run(b: Book, es: seq<Event>, b': Book)
    decreases |es|
  {
    if es == [] then b' == b else exists next :: Step(b, es[0], next) && Run(next, es[1..], b')
  }

  // ---- recomputing the frozen fields ----

  lemma NoSplitClose(m: map<string, OrderData>, d: Direction, exchange: Exchange)
    requires forall k <- m :: OrderOk(k, m[k], exchange)
    ensures MapNoneOverfilled(m) && !MapHasClose(m, d) && MapTotal(m, d, CLOSE) == 0
  {
    hide MapTotal;
    var ks := SomeWalk(m);
    WalkFacts(ks, m, d);
    NoCloseNoTotal(Orders(ks, m), d);
  }

  lemma SettledSide(b: Book, ks: seq<string>, d: Direction)
    requires CoveredBook(b) && Enumerates(ks, b.orders) && d in {LONG, SHORT}
    ensures FrozenExact(Refrozen(b, ks), d)
  {
    hide MapTotal, FreezeAll, Enumerates;
    var s := b.Closed(d);
    NoSplitClose(b.orders, d, b.exchange);
    SettledForEveryWalk(ks, b.orders, d, s.td, s.yd);
    assert Walked(ks, b.orders, d, s.td, s.yd)
        == Frozen(MapTotal(b.orders, d, CLOSETODAY), MapTotal(b.orders, d, CLOSEYESTERDAY));
  }

  /** However the map is walked, an order report leaves the frozen fields exact. */
  lemma ReportSettles(b: Book, o: OrderData, b': Book)
    requires CoveredBook(Filed(b, o)) && OrderUpdated(b, o, b')
    ensures SettledBook(b')
    ensures var f := Filed(b, o);
            && b'.exchange == b.exchange && b'.orders == f.orders
            && b'.long.td == b.long.td && b'.long.yd == b.long.yd && b'.long.pos == b.long.pos
            && b'.short.td == b.short.td && b'.short.yd == b.short.yd && b'.short.pos == b.short.pos
  {
    hide MapTotal, FreezeAll, Enumerates;
    var f := Filed(b, o);
    var ks :| Enumerates(ks, f.orders) && b' == Refrozen(f, ks);
    SettledSide(f, ks, LONG);
    SettledSide(f, ks, SHORT);
  }

  /** Active volume of one kind after an order report. */
  lemma FiledTotal(b: Book, o: OrderData, d: Direction, off: Offset)
    ensures var k := o.KtOrderid();
            MapTotal(Filed(b, o).orders, d, off)
            == MapTotal(b.orders, d, off)
               - (if k in b.orders then Weight(b.orders[k], d, off) else 0)
               + (if o.IsActive() then Weight(o, d, off) else 0)
  {
    var k := o.KtOrderid();
    if k in b.orders { MapTotalRemove(b.orders, k, d, off); } else { assert b.orders - {k} == b.orders; }
    MapTotalInsert(b.orders, k, o, d, off);
  }

  lemma FiledTotals(b: Book, o: OrderData)
    ensures forall d, off :: var k := o.KtOrderid();
            MapTotal(Filed(b, o).orders, d, off)
            == MapTotal(b.orders, d, off)
               - (if k in b.orders then Weight(b.orders[k], d, off) else 0)
               + (if o.IsActive() then Weight(o, d, off) else 0)
  {
    forall d, off ensures var k := o.KtOrderid();
            MapTotal(Filed(b, o).orders, d, off)
            == MapTotal(b.orders, d, off)
               - (if k in b.orders then Weight(b.orders[k], d, off) else 0)
               + (if o.IsActive() then Weight(o, d, off) else 0)
    { FiledTotal(b, o, d, off); }
  }

  // ---- submissions ----

  /** Every leg closes side `d` of this exchange and together they stay within what is available. */
  ghost predicate Fits(b: Book, legs: seq<OrderRequest>, d: Direction) {
    && d in {LONG, SHORT}
    && (forall l <- legs :: && l.direction == d && l.exchange == b.exchange && l.volume >= 0
                            && l.offset in {OPEN, CLOSETODAY, CLOSEYESTERDAY})
    && VolumeOf(legs, CLOSETODAY) <= b.Closed(d).TdAvailable()
    && VolumeOf(legs, CLOSEYESTERDAY) <= b.Closed(d).YdAvailable()
  }

  lemma AvailableNonNegative(b: Book, d: Direction)
    requires Inv(b) && d in {LONG, SHORT}
    ensures var s := b.Closed(d);
            s.TdAvailable() >= 0 && s.YdAvailable() >= 0 && FrozenWithinHeld(s)
    ensures b.exchange.SplitsToday()
  {
    hide MapTotal;
  }

  lemma ConvertedLegsFit(b: Book, req: OrderRequest, lock: bool, net: bool)
    requires Inv(b) && req.exchange == b.exchange && req.direction != NET && req.volume >= 0
    ensures Fits(b, ConvertedLegs(b, req, lock, net), req.direction)
  {
    hide MapTotal, Inv, VolumeOf;
    AvailableNonNegative(b, req.direction);
    ConversionConserves(b, req, lock, net);
  }

  lemma {:induction false} VolumeOfNonNegative(legs: seq<OrderRequest>, off: Offset)
    requires forall l <- legs :: l.volume >= 0
    ensures VolumeOf(legs, off) >= 0
  {
    if legs == [] {
    } else {
      VolumeOfNonNegative(legs[1..], off);
    }
  }

  lemma RegisterOne(b: Book, leg: OrderRequest, id: string, next: Book, d: Direction)
    requires Inv(b) && Fits(b, [leg], d) && '.' in id && id !in b.orders
    requires OrderUpdated(b, Sent(leg, id), next)
    ensures Inv(next)
    ensures next.exchange == b.exchange
    ensures next.Closed(d).TdAvailable()
            == b.Closed(d).TdAvailable() - (if leg.offset == CLOSETODAY then leg.volume else 0)
    ensures next.Closed(d).YdAvailable()
            == b.Closed(d).YdAvailable() - (if leg.offset == CLOSEYESTERDAY then leg.volume else 0)
  {
    hide MapTotal, OrderUpdated;
    var o := Sent(leg, id);
    RegisteredUnderOwnId(leg, id);
    FiledTotals(b, o);
    assert leg in [leg] && VolumeOf([leg], leg.offset) == leg.volume;
    assert CoveredBook(Filed(b, o));
    ReportSettles(b, o, next);
  }

  lemma {:induction false} RegisterAll(b: Book, legs: seq<OrderRequest>, ids: seq<string>, b': Book, d: Direction)
    requires Inv(b) && Fits(b, legs, d) && |legs| == |ids| && Registered(b, legs, ids, b')
    ensures Inv(b')
    decreases |legs|
  {
    hide Inv, OrderUpdated;
    if legs == [] {
    } else {
      var leg, rest := legs[0], legs[1..];
      assert forall l <- rest :: l in legs;
      VolumeOfNonNegative(rest, CLOSETODAY);
      VolumeOfNonNegative(rest, CLOSEYESTERDAY);
      if ids[0] == "" {
        RegisterAll(b, rest, ids[1..], b', d);
      } else {
        var next :| OrderUpdated(b, Sent(leg, ids[0]), next) && Registered(next, rest, ids[1..], b');
        assert VolumeOf([leg], CLOSETODAY) <= VolumeOf(legs, CLOSETODAY);
        assert VolumeOf([leg], CLOSEYESTERDAY) <= VolumeOf(legs, CLOSEYESTERDAY);
        RegisterOne(b, leg, ids[0], next, d);
        RegisterAll(next, rest, ids[1..], b', d);
      }
    }
  }

  // ---- reports and fills ----

  lemma ReportKeepsInv(b: Book, id: string, traded: int, status: Status, b': Book)
    requires Inv(b) && id in b.orders
    requires b.orders[id].traded <= traded <= b.orders[id].volume
    requires OrderUpdated(b, b.orders[id].(traded := traded, status := status), b')
    ensures Inv(b') && b'.exchange == b.exchange
    ensures b'.long.td == b.long.td && b'.long.yd == b.long.yd
    ensures b'.short.td == b.short.td && b'.short.yd == b.short.yd
    ensures var o := b.orders[id];
            MapTotal(b'.orders, o.direction, o.offset)
            <= MapTotal(b.orders, o.direction, o.offset) - (traded - o.traded)
  {
    hide MapTotal, OrderUpdated;
    var o := b.orders[id].(traded := traded, status := status);
    assert o.KtOrderid() == id;
    FiledTotals(b, o);
    BucketsNonNegative(Filed(b, o).orders, b.exchange);
    ReportSettles(b, o, b');
  }

  lemma BucketsNonNegative(m: map<string, OrderData>, exchange: Exchange)
    requires forall k <- m :: OrderOk(k, m[k], exchange)
    ensures forall d <- {LONG, SHORT}, off <- {CLOSETODAY, CLOSEYESTERDAY} :: MapTotal(m, d, off) >= 0
  {
    hide MapTotal;
    var ks := SomeWalk(m);
    NoSplitClose(m, LONG, exchange);
    WalkFacts(ks, m, LONG);
    WalkFacts(ks, m, SHORT);
  }

  /** A trade for volume that is no longer frozen keeps every bucket covered. */
  lemma TradeKeepsInv(b: Book, t: TradeData)
    requires Inv(b) && t.exchange == b.exchange && t.direction != NET && t.volume >= 0
    requires t.offset == CLOSETODAY ==>
               MapTotal(b.orders, t.direction, CLOSETODAY) + t.volume <= b.Closed(t.direction).td
    requires t.offset == CLOSEYESTERDAY ==>
               MapTotal(b.orders, t.direction, CLOSEYESTERDAY) + t.volume <= b.Closed(t.direction).yd
    requires t.offset in {OPEN, CLOSETODAY, CLOSEYESTERDAY}
    ensures Inv(Traded(b, t))
  {
    hide MapTotal, OrderOk;
    var b' := Traded(b, t);
    assert b'.orders == b.orders;
    assert Covered(b', LONG) && FrozenExact(b', LONG);
    assert Covered(b', SHORT) && FrozenExact(b', SHORT);
  }

  lemma FillKeepsInv(b: Book, id: string, volume: int, status: Status, gap: Book)
    requires Inv(b) && id in b.orders && 0 <= volume <= b.orders[id].Remaining()
    requires var o := b.orders[id]; OrderUpdated(b, o.(traded := o.traded + volume, status := status), gap)
    ensures Inv(Traded(gap, TradeOf(b.orders[id], volume)))
  {
    hide MapTotal, OrderUpdated;
    var o := b.orders[id];
    ReportKeepsInv(b, id, o.traded + volume, status, gap);
    assert OrderOk(id, o, b.exchange) && Covered(b, o.direction);
    TradeKeepsInv(gap, TradeOf(o, volume));
  }

  // ---- the theorems ----

  lemma StepKeepsInv(b: Book, e: Event, b': Book)
    requires Inv(b) && Step(b, e, b')
    ensures Inv(b')
  {
    hide OrderUpdated, MapTotal;
    match e
    case Submit(req, lock, net, legs, ids) =>
      ConvertedLegsFit(b, req, lock, net);
      RegisterAll(b, legs, ids, b', req.direction);
    case Fill(id, volume, status) =>
      var o := b.orders[id];
      var gap :| && OrderUpdated(b, o.(traded := o.traded + volume, status := status), gap)
                 && b' == Traded(gap, TradeOf(o, volume));
      FillKeepsInv(b, id, volume, status, gap);
    case Report(id, status) =>
      ReportKeepsInv(b, id, b.orders[id].traded, status, b');
  }

  lemma {:induction false} RunKeepsInv(b: Book, es: seq<Event>, b': Book)
    requires Inv(b) && Run(b, es, b')
    ensures Inv(b')
    decreases |es|
  {
    hide Inv, Step;
    if es == [] {
    } else {
      var next :| Step(b, es[0], next) && Run(next, es[1..], b');
      StepKeepsInv(b, es[0], next);
      RunKeepsInv(next, es[1..], b');
    }
  }

  // ---- a position snapshot ----

  /** A fresh holding after the exchange's position snapshot, before any order. */
  function Started(exchange: Exchange, long: PositionData, short: PositionData): Book {
    Snapped(Snapped(Book(exchange, map[], EMPTY_SIDE, EMPTY_SIDE), long), short)
  }

  /** The snapshot says of each side what is yesterday's; the rest is today's, and a first closing request is split
      accordingly, for either side. */
  lemma FirstConversion(exchange: Exchange, long: PositionData, short: PositionData, req: OrderRequest, lock: bool,
                        net: bool)
    requires long.direction == LONG && 0 <= long.ydVolume <= long.volume
    requires short.direction == SHORT && 0 <= short.ydVolume <= short.volume
    requires exchange.SplitsToday() && req.exchange == exchange && req.volume >= 0 && req.offset != OPEN
    ensures var p, v := if req.direction == LONG then short else long, req.volume;
            var today := if lock then 0 else Min(v, p.volume - p.ydVolume);
            var legs := ConvertedLegs(Started(exchange, long, short), req, lock, net);
            if !lock && !net && v > p.volume then legs == []
            else
              && VolumeOf(legs, CLOSETODAY) == today
              && VolumeOf(legs, CLOSEYESTERDAY) == Min(v - today, p.ydVolume)
              && VolumeOf(legs, OPEN) == v - today - Min(v - today, p.ydVolume)
  {
    hide VolumeOf, ConvertedLegs;
    SplitShares(Started(exchange, long, short), req, lock, net);
  }

  // ---- what works at the exchange, from the events alone ----

  /** Each order by its id, as the leg that was sent with the volume not yet filled. */
  type Ledger = map<string, OrderRequest>

  function Placed(w: Ledger, legs: seq<OrderRequest>, ids: seq<string>): Ledger
    requires |legs| == |ids|
    decreases |legs|
  {
    if legs == [] then w else Placed(if ids[0] == "" then w else w[ids[0] := legs[0]], legs[1..], ids[1..])
  }

  /** Statuses after which nothing more happens to an order. */
  predicate Final(status: Status) { status == ALLTRADED || status == CANCELLED || status == REJECTED }

  function Reported(w: Ledger, id: string, status: Status): Ledger {
    if Final(status) then w - {id} else w
  }

  function Filled(w: Ledger, id: string, volume: int, status: Status): Ledger {
    Reported(if id in w then w[id := w[id].(volume := w[id].volume - volume)] else w, id, status)
  }

  function WorksNext(w: Ledger, e: Event): Ledger
    requires e.Submit? ==> |e.legs| == |e.ids|
  {
    match e
    case Submit(_, _, _, legs, ids) => Placed(w, legs, ids)
    case Fill(id, volume, status) => Filled(w, id, volume, status)
    case Report(id, status) => Reported(w, id, status)
  }

  function Works(w: Ledger, es: seq<Event>): Ledger
    requires forall e <- es :: e.Submit? ==> |e.legs| == |e.ids|
    decreases |es|
  {
    if es == [] then w else Works(WorksNext(w, es[0]), es[1..])
  }

  /** The volume at work in one direction with one offset. */
  ghost function AtWork(w: Ledger, d: Direction, off: Offset): int {
    if w == map[] then 0
    else
      var k :| k in w;
      (if w[k].direction == d && w[k].offset == off then w[k].volume else 0) + AtWork(w - {k}, d, off)
  }

  /** The holding's orders are those at work. */
  ghost predicate Agree(w: Ledger, m: map<string, OrderData>) {
    && w.Keys == m.Keys
    && forall k <- w :: m[k].direction == w[k].direction && m[k].offset == w[k].offset
                        && m[k].volume - m[k].traded == w[k].volume
  }

  lemma AgreeWithout(w: Ledger, m: map<string, OrderData>, k: string)
    requires Agree(w, m) && k in w
    ensures Agree(w - {k}, m - {k}) && k in m
    ensures m[k].direction == w[k].direction && m[k].offset == w[k].offset && m[k].Remaining() == w[k].volume
  {
  }

  lemma {:induction false} AgreeTotals(w: Ledger, m: map<string, OrderData>, d: Direction, off: Offset)
    requires Agree(w, m)
    ensures AtWork(w, d, off) == MapTotal(m, d, off)
    decreases |w|
  {
    if w == map[] {
      assert m == map[];
    } else {
      hide MapTotal;
      var k :| k in w && AtWork(w, d, off)
                         == (if w[k].direction == d && w[k].offset == off then w[k].volume else 0)
                            + AtWork(w - {k}, d, off);
      AgreeWithout(w, m, k);
      hide Agree;
      AgreeTotals(w - {k}, m - {k}, d, off);
      MapTotalRemove(m, k, d, off);
    }
  }

  lemma {:induction false} PlacedAgrees(b: Book, w: Ledger, legs: seq<OrderRequest>, ids: seq<string>, b': Book)
    requires |legs| == |ids| && Registered(b, legs, ids, b') && Agree(w, b.orders)
    ensures Agree(Placed(w, legs, ids), b'.orders)
    decreases |legs|
  {
    hide OrderUpdated;
    if legs == [] {
    } else if ids[0] == "" {
      PlacedAgrees(b, w, legs[1..], ids[1..], b');
    } else {
      var next :| OrderUpdated(b, Sent(legs[0], ids[0]), next) && Registered(next, legs[1..], ids[1..], b');
      RegisteredUnderOwnId(legs[0], ids[0]);
      ReportFiles(b, Sent(legs[0], ids[0]), next);
      PlacedAgrees(next, w[ids[0] := legs[0]], legs[1..], ids[1..], b');
    }
  }

  lemma FiledAgrees(w: Ledger, m: map<string, OrderData>, id: string, o: OrderData, m': map<string, OrderData>)
    requires Agree(w, m) && id in m && o.direction == m[id].direction && o.offset == m[id].offset
    requires o.volume == m[id].volume && m' == if Final(o.status) then m - {id} else m[id := o]
    ensures Agree(Filled(w, id, o.traded - m[id].traded, o.status), m')
    ensures o.traded == m[id].traded ==> Agree(Reported(w, id, o.status), m')
  {
  }

  lemma ReportAgrees(b: Book, w: Ledger, id: string, traded: int, status: Status, b': Book)
    requires Agree(w, b.orders) && id in b.orders && b.orders[id].KtOrderid() == id
    requires OrderUpdated(b, b.orders[id].(traded := traded, status := status), b')
    ensures Agree(Filled(w, id, traded - b.orders[id].traded, status), b'.orders)
    ensures traded == b.orders[id].traded ==> Agree(Reported(w, id, status), b'.orders)
  {
    hide OrderUpdated, Agree, Filled, Reported;
    var o := b.orders[id].(traded := traded, status := status);
    assert o.exchangeName + "." + o.orderid == id;
    ReportFiles(b, o, b');
    FiledAgrees(w, b.orders, id, o, b'.orders);
  }

  lemma StepAgrees(b: Book, w: Ledger, e: Event, b': Book)
    requires Inv(b) && Agree(w, b.orders) && Step(b, e, b')
    ensures e.Submit? ==> |e.legs| == |e.ids|
    ensures Agree(WorksNext(w, e), b'.orders)
  {
    hide MapTotal, OrderUpdated, Agree, Covered, FrozenExact, Filled, Reported;
    match e
    case Submit(_, _, _, legs, ids) => PlacedAgrees(b, w, legs, ids, b');
    case Fill(id, volume, status) =>
      var o := b.orders[id];
      var gap :| && OrderUpdated(b, o.(traded := o.traded + volume, status := status), gap)
                 && b' == Traded(gap, TradeOf(o, volume));
      assert OrderOk(id, o, b.exchange);
      ReportAgrees(b, w, id, o.traded + volume, status, gap);
    case Report(id, status) =>
      assert OrderOk(id, b.orders[id], b.exchange);
      SameTraded(b.orders[id], status);
      ReportAgrees(b, w, id, b.orders[id].traded, status, b');
  }

  /** Along any run the holding's orders are those that the events leave at work. */
  lemma {:induction false} RunAgrees(b: Book, w: Ledger, es: seq<Event>, b': Book)
    requires Inv(b) && Agree(w, b.orders) && Run(b, es, b')
    ensures forall e <- es :: e.Submit? ==> |e.legs| == |e.ids|
    ensures Agree(Works(w, es), b'.orders)
    decreases |es|
  {
    hide Inv, Step, Agree, WorksNext;
    if es == [] {
    } else {
      var next :| Step(b, es[0], next) && Run(next, es[1..], b');
      StepKeepsInv(b, es[0], next);
      StepAgrees(b, w, es[0], next);
      RunAgrees(next, WorksNext(w, es[0]), es[1..], b');
      assert forall e <- es :: e == es[0] || e in es[1..];
    }
  }

  lemma SameTraded(o: OrderData, status: Status)
    ensures o.(status := status) == o.(traded := o.traded, status := status)
  {
  }

  // ---- safety ----

  /** On every run from a position snapshot, under either splitting exchange and any mix of the
      three splitters, what the events leave at work to close each side (sent, less filled, less what was
      cancelled, rejected or fully traded) stays within what the side holds and is exactly what is frozen. */
  lemma NeverOverCloses(exchange: Exchange, long: PositionData, short: PositionData, es: seq<Event>, b: Book)
    requires exchange.SplitsToday()
    requires long.direction == LONG && 0 <= long.ydVolume <= long.volume
    requires short.direction == SHORT && 0 <= short.ydVolume <= short.volume
    requires Run(Started(exchange, long, short), es, b)
    ensures forall e <- es :: e.Submit? ==> |e.legs| == |e.ids|
    ensures Agree(Works(map[], es), b.orders)
    ensures forall d <- {LONG, SHORT} :: var s, w := b.Closed(d), Works(map[], es);
            && 0 <= s.tdFrozen == AtWork(w, d, CLOSETODAY) <= s.td
            && 0 <= s.ydFrozen == AtWork(w, d, CLOSEYESTERDAY) <= s.yd
            && AtWork(w, d, CLOSE) == 0
            && s.posFrozen == s.tdFrozen + s.ydFrozen && s.pos == s.td + s.yd
  {
    hide Run, AtWork, Works;
    assert Inv(Started(exchange, long, short));
    hide MapTotal;
    RunKeepsInv(Started(exchange, long, short), es, b);
    RunAgrees(Started(exchange, long, short), map[], es, b);
    NoSplitClose(b.orders, LONG, b.exchange);
    NoSplitClose(b.orders, SHORT, b.exchange);
    forall d <- {LONG, SHORT}, off <- {CLOSE, CLOSETODAY, CLOSEYESTERDAY}
      ensures AtWork(Works(map[], es), d, off) == MapTotal(b.orders, d, off)
    {
      AgreeTotals(Works(map[], es), b.orders, d, off);
    }
  }
}
