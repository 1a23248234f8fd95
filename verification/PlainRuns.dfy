/** Whole-run safety outside SHFE and INE. There it holds as long as an order report comes between a fill and the
    next submission, since only an order report recomputes the frozen volume; `HoldingLimits` has a run without. */
module PlainRuns {
  import opened Market
  import opened Frozen
  import opened Holding
  import opened HoldingRuns
  import opened HoldingLimits
  import opened Splitting

  /** The frozen volume of each side is that of its CLOSE orders, which fit into the position. */
  ghost predicate PlainInv(b: Book) {
    && PlainBook(b) && NoneNet(b.orders)
    && PlainlyFrozen(b.long, MapTotal(b.orders, SHORT, CLOSE))
    && PlainlyFrozen(b.short, MapTotal(b.orders, LONG, CLOSE))
  }

  /** A fill is its order report, its trade report and then another order report: the same again or any other
      that uses up no volume. */
  datatype PlainEvent =
    | Submit(req: OrderRequest, lock: bool, net: bool, legs: seq<OrderRequest>, ids: seq<string>)
    | Fill(id: string, volume: int, status: Status, next: OrderData)
    | Report(id: string, status: Status)

  ghost predicate PlainStep(b: Book, e: PlainEvent, b': Book) {
    match e
    case Submit(req, lock, net, legs, ids) =>
      && legs == ConvertedLegs(b, req, lock, net)
      && (lock || net) && req.exchange == b.exchange && req.direction != NET && req.volume >= 0
      && |ids| == |legs| && Registered(b, legs, ids, b')
    case Fill(id, volume, status, next) =>
      && id in b.orders && 0 <= volume <= b.orders[id].Remaining()
      && exists gap :: FilledOver(b, b.orders[id], volume, status, gap, next, b')
    case Report(id, status) =>
      id in b.orders && OrderUpdated(b, b.orders[id].(status := status), b')
  }

  /** The order report of a fill leaves `gap`; the trade report and the next order report then lead to `b'`. */
  ghost predicate FilledOver(b: Book, o: OrderData, volume: int, status: Status, gap: Book, next: OrderData, b': Book) {
    var filled := o.(traded := o.traded + volume, status := status);
    && OrderUpdated(b, filled, gap) && ReportsAgain(gap, filled, next)
    && OrderUpdated(Traded(gap, TradeOf(o, volume)), next, b')
  }

  predicate ReportsAgain(b: Book, filled: OrderData, next: OrderData) {
    || next == filled
    || (next.KtOrderid() in b.orders && next == b.orders[next.KtOrderid()].(status := next.status))
  }

  ghost predicate PlainRun(b: Book, es: seq<PlainEvent>, b': Book)
    decreases |es|
  {
    if es == [] then b' == b else exists next :: PlainStep(b, es[0], next) && PlainRun(next, es[1..], b')
  }

  // ---- one order report ----

  /** Any order report settles the frozen volume, if the closing orders still fit. */
  lemma PlainSettles(b: Book, o: OrderData, b': Book)
    requires PlainBook(b) && NoneNet(b.orders) && o.direction != NET
    requires PlainOrderOk(o.KtOrderid(), o.(status := SUBMITTING), b.exchange)
    requires forall d <- {LONG, SHORT} :: MapTotal(Filed(b, o).orders, d, CLOSE) <= b.Closed(d).pos
    requires OrderUpdated(b, o, b')
    ensures PlainInv(b') && b'.orders == Filed(b, o).orders && b'.exchange == b.exchange
    ensures forall d <- {LONG, SHORT} :: b'.Closed(d).td == b.Closed(d).td && b'.Closed(d).yd == b.Closed(d).yd
  {
    hide MapTotal, OrderUpdated, PlainlyFrozen;
    PlainReported(b, o, b', LONG);
    PlainReported(b, o, b', SHORT);
    PlainNonNegative(b'.Closed(LONG), MapTotal(b'.orders, LONG, CLOSE));
    PlainNonNegative(b'.Closed(SHORT), MapTotal(b'.orders, SHORT, CLOSE));
    assert forall k <- b'.orders :: PlainOrderOk(k, b'.orders[k], b'.exchange);
  }

  // ---- submissions ----

  ghost predicate PlainFits(b: Book, legs: seq<OrderRequest>, d: Direction) {
    && d in {LONG, SHORT}
    && (forall l <- legs :: l.direction == d && l.exchange == b.exchange && l.volume >= 0 && l.offset in {OPEN, CLOSE})
    && VolumeOf(legs, CLOSE) <= b.Closed(d).PosAvailable()
  }

  lemma PlainLegsFit(b: Book, req: OrderRequest, lock: bool, net: bool)
    requires PlainInv(b) && req.exchange == b.exchange && req.direction != NET && req.volume >= 0 && (lock || net)
    ensures PlainFits(b, ConvertedLegs(b, req, lock, net), req.direction)
  {
    hide MapTotal, VolumeOf, ConvertedLegs;
    PlainConversionConserves(b, req, lock, net);
  }

  lemma RegisterPlain(b: Book, leg: OrderRequest, id: string, next: Book, d: Direction)
    requires PlainInv(b) && PlainFits(b, [leg], d) && '.' in id && id !in b.orders
    requires OrderUpdated(b, Sent(leg, id), next)
    ensures PlainInv(next) && next.exchange == b.exchange
    ensures next.Closed(d).PosAvailable()
            == b.Closed(d).PosAvailable() - (if leg.offset == CLOSE then leg.volume else 0)
  {
    hide MapTotal, OrderUpdated;
    var o := Sent(leg, id);
    RegisteredUnderOwnId(leg, id);
    FiledTotals(b, o);
    assert leg in [leg];
    OneLeg([leg]);
    hide VolumeOf;
    PlainSettles(b, o, next);
  }

  lemma {:induction false} RegisterAllPlain(b: Book, legs: seq<OrderRequest>, ids: seq<string>, b': Book, d: Direction)
    requires PlainInv(b) && PlainFits(b, legs, d) && |legs| == |ids| && Registered(b, legs, ids, b')
    ensures PlainInv(b')
    decreases |legs|
  {
    hide PlainInv, OrderUpdated;
    if legs == [] {
    } else {
      var leg, rest := legs[0], legs[1..];
      assert forall l <- rest :: l in legs;
      VolumeOfNonNegative(rest, CLOSE);
      if ids[0] == "" {
        RegisterAllPlain(b, rest, ids[1..], b', d);
      } else {
        var next :| OrderUpdated(b, Sent(leg, ids[0]), next) && Registered(next, rest, ids[1..], b');
        assert VolumeOf([leg], CLOSE) <= VolumeOf(legs, CLOSE);
        RegisterPlain(b, leg, ids[0], next, d);
        RegisterAllPlain(next, rest, ids[1..], b', d);
      }
    }
  }

  // ---- reports and fills ----

  lemma PlainReportKeeps(b: Book, id: string, traded: int, status: Status, b': Book)
    requires PlainInv(b) && id in b.orders && b.orders[id].traded <= traded <= b.orders[id].volume
    requires OrderUpdated(b, b.orders[id].(traded := traded, status := status), b')
    ensures PlainInv(b') && b'.orders == Filed(b, b.orders[id].(traded := traded, status := status)).orders
    ensures b'.exchange == b.exchange
    ensures forall d <- {LONG, SHORT} :: b'.Closed(d).td == b.Closed(d).td && b'.Closed(d).yd == b.Closed(d).yd
    ensures var o := b.orders[id];
            forall d <- {LONG, SHORT} ::
              MapTotal(b'.orders, d, CLOSE)
              <= MapTotal(b.orders, d, CLOSE) - if o.direction == d && o.offset == CLOSE then traded - o.traded else 0
  {
    hide MapTotal, OrderUpdated;
    var o := b.orders[id].(traded := traded, status := status);
    assert PlainOrderOk(id, b.orders[id], b.exchange) && o.KtOrderid() == id;
    FiledTotals(b, o);
    PlainSettles(b, o, b');
  }

  /** The trade report takes what the order report set free, so the closing orders still fit; but it only clamps. */
  lemma PlainTradeFits(gap: Book, t: TradeData)
    requires PlainInv(gap) && t.exchange == gap.exchange && t.direction in {LONG, SHORT} && t.volume >= 0
    requires t.offset in {OPEN, CLOSE}
    requires t.offset == CLOSE ==>
               MapTotal(gap.orders, t.direction, CLOSE) + t.volume <= gap.Closed(t.direction).pos
    ensures PlainBook(Traded(gap, t)) && Traded(gap, t).orders == gap.orders
  {
    hide MapTotal, PlainOrderOk;
  }

  lemma PlainFillKeeps(b: Book, id: string, v: int, status: Status, gap: Book, next: OrderData, b': Book)
    requires PlainInv(b) && id in b.orders && 0 <= v <= b.orders[id].Remaining()
    requires FilledOver(b, b.orders[id], v, status, gap, next, b')
    ensures PlainInv(b')
  {
    hide MapTotal, OrderUpdated, PlainlyFrozen;
    var o := b.orders[id];
    var after := Traded(gap, TradeOf(o, v));
    assert PlainOrderOk(id, o, b.exchange) && PlainCovered(b, LONG) && PlainCovered(b, SHORT);
    PlainReportKeeps(b, id, o.traded + v, status, gap);
    PlainTradeFits(gap, TradeOf(o, v));
    NextUsesNothing(after, o.(traded := o.traded + v, status := status), next);
    hide Traded;
    PlainSettles(after, next, b');
  }

  lemma NextUsesNothing(b: Book, filled: OrderData, next: OrderData)
    requires PlainBook(b) && NoneNet(b.orders) && ReportsAgain(b, filled, next)
    requires PlainOrderOk(filled.KtOrderid(), filled.(status := SUBMITTING), b.exchange) && filled.direction != NET
    requires if filled.IsActive() then filled.KtOrderid() in b.orders && b.orders[filled.KtOrderid()] == filled
             else filled.KtOrderid() !in b.orders
    ensures PlainOrderOk(next.KtOrderid(), next.(status := SUBMITTING), b.exchange) && next.direction != NET
    ensures forall d <- {LONG, SHORT} :: MapTotal(Filed(b, next).orders, d, CLOSE) <= b.Closed(d).pos
  {
    hide MapTotal;
    FiledTotals(b, next);
    assert PlainCovered(b, LONG) && PlainCovered(b, SHORT);
    assert next != filled ==> PlainOrderOk(next.KtOrderid(), b.orders[next.KtOrderid()], b.exchange);
  }

  // ---- the theorems ----

  lemma PlainStepKeepsInv(b: Book, e: PlainEvent, b': Book)
    requires PlainInv(b) && PlainStep(b, e, b')
    ensures PlainInv(b')
  {
    hide OrderUpdated, MapTotal, PlainlyFrozen, FilledOver;
    match e
    case Submit(req, lock, net, legs, ids) =>
      PlainLegsFit(b, req, lock, net);
      RegisterAllPlain(b, legs, ids, b', req.direction);
    case Fill(id, volume, status, next) =>
      var gap :| FilledOver(b, b.orders[id], volume, status, gap, next, b');
      PlainFillKeeps(b, id, volume, status, gap, next, b');
    case Report(id, status) =>
      assert PlainOrderOk(id, b.orders[id], b.exchange);
      PlainReportKeeps(b, id, b.orders[id].traded, status, b');
  }

  lemma {:induction false} PlainRunKeepsInv(b: Book, es: seq<PlainEvent>, b': Book)
    requires PlainInv(b) && PlainRun(b, es, b')
    ensures PlainInv(b')
    decreases |es|
  {
    hide PlainInv, PlainStep;
    if es == [] {
    } else {
      var next :| PlainStep(b, es[0], next) && PlainRun(next, es[1..], b');
      PlainStepKeepsInv(b, es[0], next);
      PlainRunKeepsInv(next, es[1..], b');
    }
  }

  // ---- what works at the exchange, from the events alone ----

  function PlainWorks(w: Ledger, es: seq<PlainEvent>): Ledger
    requires forall e <- es :: e.Submit? ==> |e.legs| == |e.ids|
    decreases |es|
  {
    if es == [] then w else PlainWorks(PlainNext(w, es[0]), es[1..])
  }

  function PlainNext(w: Ledger, e: PlainEvent): Ledger
    requires e.Submit? ==> |e.legs| == |e.ids|
  {
    match e
    case Submit(_, _, _, legs, ids) => Placed(w, legs, ids)
    case Fill(id, volume, status, next) =>
      Reported(Filled(w, id, volume, status), next.exchangeName + "." + next.orderid, next.status)
    case Report(id, status) => Reported(w, id, status)
  }

  lemma NextAgrees(b: Book, w: Ledger, filled: OrderData, next: OrderData, b': Book)
    requires Agree(w, b.orders) && ReportsAgain(b, filled, next) && OrderUpdated(b, next, b')
    requires filled.IsActive() ==> filled.KtOrderid() in b.orders && b.orders[filled.KtOrderid()] == filled
    ensures Agree(Reported(w, next.exchangeName + "." + next.orderid, next.status), b'.orders)
  {
    ReportFiles(b, next, b');
    hide OrderUpdated;
  }

  lemma PlainFillAgrees(b: Book, w: Ledger, id: string, v: int, status: Status, gap: Book, next: OrderData, b': Book)
    requires PlainInv(b) && Agree(w, b.orders) && id in b.orders
    requires FilledOver(b, b.orders[id], v, status, gap, next, b')
    ensures Agree(PlainNext(w, PlainEvent.Fill(id, v, status, next)), b'.orders)
  {
    hide OrderUpdated, MapTotal, PlainlyFrozen, Agree, Filled, Reported;
    var o := b.orders[id];
    var filled := o.(traded := o.traded + v, status := status);
    assert PlainOrderOk(id, o, b.exchange) && filled.exchangeName + "." + filled.orderid == id;
    ReportAgrees(b, w, id, o.traded + v, status, gap);
    ReportFiles(b, filled, gap);
    NextAgrees(Traded(gap, TradeOf(o, v)), Filled(w, id, v, status), filled, next, b');
  }

  lemma PlainStepAgrees(b: Book, w: Ledger, e: PlainEvent, b': Book)
    requires PlainInv(b) && Agree(w, b.orders) && PlainStep(b, e, b')
    ensures e.Submit? ==> |e.legs| == |e.ids|
    ensures Agree(PlainNext(w, e), b'.orders)
  {
    hide OrderUpdated, MapTotal, PlainlyFrozen, FilledOver, Agree, Filled, Reported;
    match e
    case Submit(_, _, _, legs, ids) => PlacedAgrees(b, w, legs, ids, b');
    case Fill(id, volume, status, next) =>
      var gap :| FilledOver(b, b.orders[id], volume, status, gap, next, b');
      PlainFillAgrees(b, w, id, volume, status, gap, next, b');
    case Report(id, status) =>
      assert PlainOrderOk(id, b.orders[id], b.exchange);
      SameTraded(b.orders[id], status);
      ReportAgrees(b, w, id, b.orders[id].traded, status, b');
  }

  lemma {:induction false} PlainRunAgrees(b: Book, w: Ledger, es: seq<PlainEvent>, b': Book)
    requires PlainInv(b) && Agree(w, b.orders) && PlainRun(b, es, b')
    ensures forall e <- es :: e.Submit? ==> |e.legs| == |e.ids|
    ensures Agree(PlainWorks(w, es), b'.orders)
    decreases |es|
  {
    hide PlainInv, PlainStep, Agree, PlainNext;
    if es == [] {
    } else {
      var next :| PlainStep(b, es[0], next) && PlainRun(next, es[1..], b');
      PlainStepKeepsInv(b, es[0], next);
      PlainStepAgrees(b, w, es[0], next);
      PlainRunAgrees(next, PlainNext(w, es[0]), es[1..], b');
      assert forall e <- es :: e == es[0] || e in es[1..];
    }
  }

  // ---- safety ----

  /** On every run from a position snapshot in which an order report follows each fill, in lock and net mode, what
      the events leave at work to close each side stays within the position and is exactly what is frozen. */
  lemma PlainNeverOverCloses(exchange: Exchange, long: PositionData, short: PositionData, es: seq<PlainEvent>, b: Book)
    requires !exchange.SplitsToday()
    requires long.direction == LONG && 0 <= long.ydVolume <= long.volume
    requires short.direction == SHORT && 0 <= short.ydVolume <= short.volume
    requires PlainRun(Started(exchange, long, short), es, b)
    ensures forall e <- es :: e.Submit? ==> |e.legs| == |e.ids|
    ensures Agree(PlainWorks(map[], es), b.orders)
    ensures forall d <- {LONG, SHORT} :: var s, w := b.Closed(d), PlainWorks(map[], es);
            && 0 <= s.posFrozen == AtWork(w, d, CLOSE) <= s.pos
            && s.pos == s.td + s.yd && 0 <= s.tdFrozen <= s.td && 0 <= s.ydFrozen <= s.yd
  {
    hide PlainRun, PlainWorks, AtWork;
    var b0 := Started(exchange, long, short);
    NothingFrozen(b0.orders);
    hide MapTotal;
    assert PlainInv(b0);
    PlainRunKeepsInv(b0, es, b);
    PlainRunAgrees(b0, map[], es, b);
    AgreeTotals(PlainWorks(map[], es), b.orders, LONG, CLOSE);
    AgreeTotals(PlainWorks(map[], es), b.orders, SHORT, CLOSE);
  }
}
