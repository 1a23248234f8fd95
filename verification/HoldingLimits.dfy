/** Where the safety of `HoldingRuns` ends, each limit with its exact condition. */
module HoldingLimits {
  import opened Market
  import opened Frozen
  import opened FrozenOrder
  import opened Holding
  import opened HoldingRuns
  import opened Splitting

  // ---- NET orders ----

  /** What a side has not frozen of the bucket that offset `off` closes. */
  function Available(s: Side, off: Offset): int { if off == CLOSETODAY then s.TdAvailable() else s.YdAvailable() }

  /** Filing a closing order freezes its volume exactly when its direction is LONG or SHORT and the bucket
      has that much left: a NET order closes the long side but is frozen on neither. */
  lemma FrozenUnlessNet(b: Book, o: OrderData, b': Book)
    requires Inv(b) && OrderOk(o.KtOrderid(), o, b.exchange) && o.KtOrderid() !in b.orders
    requires o.offset in {CLOSETODAY, CLOSEYESTERDAY} && OrderUpdated(b, o, b')
    ensures b'.long.posFrozen + b'.short.posFrozen == b.long.posFrozen + b.short.posFrozen + o.Remaining()
            <==> || o.Remaining() == 0
                 || (o.direction != NET && o.Remaining() <= Available(b.Closed(o.direction), o.offset))
  {
    hide MapTotal, FreezeAll, Enumerates;
    FiledTotals(b, o);
    var f := Filed(b, o);
    var ks :| Enumerates(ks, f.orders) && b' == Refrozen(f, ks);
    SplitWalk(f, ks, LONG);
    SplitWalk(f, ks, SHORT);
  }

  /** Without CLOSE orders the walk's fields are the clamped sums. */
  lemma SplitWalk(b: Book, ks: seq<string>, d: Direction)
    requires Enumerates(ks, b.orders) && d in {LONG, SHORT} && b.Closed(d).td >= 0
    requires forall k <- b.orders :: OrderOk(k, b.orders[k], b.exchange)
    ensures var s := b.Closed(d);
            Clamped(FreezeAll(Orders(ks, b.orders), d, s.td), s.td, s.yd)
            == Frozen(Min(MapTotal(b.orders, d, CLOSETODAY), s.td), Min(MapTotal(b.orders, d, CLOSEYESTERDAY), s.yd))
  {
    hide MapTotal, FreezeAll, Enumerates;
    NoSplitClose(b.orders, d, b.exchange);
    SettledForEveryWalk(ks, b.orders, d, b.Closed(d).td, b.Closed(d).yd);
  }

  function NetClose(id: string): OrderData {
    OrderData("rb", SHFE, id, LIMIT, NET, CLOSETODAY, 1.0, 1, 0, SUBMITTING, "", "ctp")
  }

  /** One lot of the long side, offered twice: the second NET request still finds it available. */
  lemma NetCanOverClose() returns (b1: Book)
    ensures var b := Started(SHFE, PositionData(LONG, 1, 0), PositionData(SHORT, 0, 0));
            OrderUpdated(b, NetClose("1"), b1)
    ensures var req := OrderRequest("rb", SHFE, NET, LIMIT, 1, 1.0, CLOSE, "");
            && ShfeLegs(b1, req) == [Leg(req, CLOSETODAY, 1)]
            && MapTotal(b1.orders, NET, CLOSETODAY) + VolumeOf(ShfeLegs(b1, req), CLOSETODAY) > b1.long.td
  {
    var b := Started(SHFE, PositionData(LONG, 1, 0), PositionData(SHORT, 0, 0));
    var o := NetClose("1");
    hide MapTotal, OrderUpdated, Refrozen;
    var ks := SomeWalk(Filed(b, o).orders);
    b1 := Refrozen(Filed(b, o), ks);
    WalkExplains(b, o, ks);
    NothingFrozen(b.orders);
    FiledTotals(b, o);
    assert CoveredBook(Filed(b, o));
    ReportSettles(b, o, b1);
    var req := OrderRequest("rb", SHFE, NET, LIMIT, 1, 1.0, CLOSE, "");
    assert ShfeLegs(b1, req)[1..] == [];
  }

  lemma WalkExplains(b: Book, o: OrderData, ks: seq<string>)
    requires Enumerates(ks, Filed(b, o).orders)
    ensures OrderUpdated(b, o, Refrozen(Filed(b, o), ks))
  {
  }

  lemma NothingFrozen(m: map<string, OrderData>)
    requires m == map[]
    ensures forall d, off :: MapTotal(m, d, off) == 0
  {
  }

  // ---- between the order report and the trade report of a fill ----

  /** After the order report and before the trade report the holding offers the filled lots again: what is
      available of the bucket is overstated by exactly the fill. */
  lemma GapOverstatesAvailable(b: Book, id: string, volume: int, status: Status, gap: Book)
    requires Inv(b) && id in b.orders && 0 <= volume <= b.orders[id].Remaining()
    requires b.orders[id].offset in {CLOSETODAY, CLOSEYESTERDAY}
    requires var o := b.orders[id]; OrderUpdated(b, o.(traded := o.traded + volume, status := status), gap)
    ensures var o := b.orders[id];
            Available(gap.Closed(o.direction), o.offset)
            == Available(Traded(gap, TradeOf(o, volume)).Closed(o.direction), o.offset) + volume
  {
    hide MapTotal, OrderUpdated;
    var o := b.orders[id];
    ReportKeepsInv(b, id, o.traded + volume, status, gap);
    FillKeepsInv(b, id, volume, status, gap);
    assert OrderOk(id, o, b.exchange);
  }

  // ---- exchanges that do not split today from yesterday ----

  /** A side with plain CLOSE orders for `C` lots against it, its frozen fields just recomputed. */
  predicate PlainlyFrozen(s: Side, C: int) {
    && 0 <= s.td && 0 <= s.yd && s.pos == s.td + s.yd && 0 <= C <= s.pos
    && s.tdFrozen == Min(C, s.td) && s.ydFrozen == C - Min(C, s.td) && s.posFrozen == C
  }

  /** After `v` of the frozen lots have been filled: the order report recomputes with `C` lots left,
      the trade report then only clamps. The frozen volume is still `C` exactly when the fill took
      nothing from today's volume or today's volume still covers all of `C`. */
  lemma PlainFillFrozenExactIff(s: Side, C: int, v: int)
    requires PlainlyFrozen(s, C) && 0 <= v <= s.pos - C
    ensures var s' := Summed(CloseVolume(s, CLOSE, v, false));
            && s'.pos == s.pos - v
            && s'.posFrozen <= C
            && (s'.posFrozen == C <==> v == 0 || s.td == 0 || C <= Max(0, s.td - v))
  {
  }

  /** The fields the order report leaves are the ones assumed above, for any walk. */
  lemma PlainReportSettles(b: Book, ks: seq<string>, d: Direction)
    requires Enumerates(ks, b.orders) && MapNoneOverfilled(b.orders) && d in {LONG, SHORT}
    requires forall k <- b.orders :: b.orders[k].offset in {OPEN, CLOSE}
    requires var s := b.Closed(d);
             0 <= s.td && 0 <= s.yd && s.pos == s.td + s.yd && MapTotal(b.orders, d, CLOSE) <= s.pos
    ensures PlainlyFrozen(Refrozen(b, ks).Closed(d), MapTotal(b.orders, d, CLOSE))
  {
    hide MapTotal, FreezeAll;
    var s := b.Closed(d);
    var os := Orders(ks, b.orders);
    WalkFacts(ks, b.orders, d);
    assert forall o <- os :: o.offset in {OPEN, CLOSE} by { WalkOffsets(ks, b.orders); }
    NoSuchTotal(os, d, CLOSETODAY);
    NoSuchTotal(os, d, CLOSEYESTERDAY);
    if !MapHasClose(b.orders, d) { NoCloseNoTotal(os, d); }
    SettledForEveryWalk(ks, b.orders, d, s.td, s.yd);
    assert Walked(ks, b.orders, d, s.td, s.yd) == Settled(b.orders, d, s.td, s.yd);
  }

  lemma WalkOffsets(ks: seq<string>, m: map<string, OrderData>)
    requires Enumerates(ks, m) && forall k <- m :: m[k].offset in {OPEN, CLOSE}
    ensures forall o <- Orders(ks, m) :: o.offset in {OPEN, CLOSE}
  {
    var os := Orders(ks, m);
    forall o | o in os ensures o.offset in {OPEN, CLOSE} {
      var i :| 0 <= i < |os| && os[i] == o;
      assert ks[i] in ks;
    }
  }

  /** A holding outside SHFE and INE whose closing orders are plain CLOSE and fit into the position. */
  ghost predicate PlainBook(b: Book) {
    && !b.exchange.SplitsToday()
    && (forall k <- b.orders :: PlainOrderOk(k, b.orders[k], b.exchange))
    && PlainCovered(b, LONG) && PlainCovered(b, SHORT)
  }

  ghost predicate PlainOrderOk(k: string, o: OrderData, exchange: Exchange) {
    && o.KtOrderid() == k && o.IsActive() && o.exchange == exchange && o.Remaining() >= 0
    && o.offset in {OPEN, CLOSE}
  }

  ghost predicate PlainCovered(b: Book, d: Direction) {
    var s := b.Closed(d);
    0 <= s.td && 0 <= s.yd && s.pos == s.td + s.yd && MapTotal(b.orders, d, CLOSE) <= s.pos
  }

  /** An order report on such a holding leaves each side plainly frozen. */
  lemma PlainReported(b: Book, o: OrderData, b': Book, d: Direction)
    requires PlainBook(b) && PlainOrderOk(o.KtOrderid(), o.(status := SUBMITTING), b.exchange)
    requires OrderUpdated(b, o, b') && d in {LONG, SHORT}
    requires MapTotal(Filed(b, o).orders, d, CLOSE) <= b.Closed(d).pos
    ensures b'.orders == Filed(b, o).orders && b'.exchange == b.exchange
    ensures b'.Closed(d).td == b.Closed(d).td && b'.Closed(d).yd == b.Closed(d).yd
    ensures PlainlyFrozen(b'.Closed(d), MapTotal(b'.orders, d, CLOSE))
  {
    hide MapTotal, FreezeAll, Enumerates, PlainlyFrozen;
    var f := Filed(b, o);
    var ks :| Enumerates(ks, f.orders) && b' == Refrozen(f, ks);
    assert forall k <- f.orders :: PlainOrderOk(k, f.orders[k], b.exchange);
    PlainReportSettles(f, ks, d);
  }

  /** What the net mode closes on such a holding. */
  lemma NetClosesPlain(b: Book, req: OrderRequest)
    requires !req.exchange.SplitsToday() && req.volume >= 0
    ensures var available := b.Closed(req.direction).PosAvailable();
            VolumeOf(NetLegs(b, req), CLOSE) == if available > 0 then Min(available, req.volume) else 0
  {
    var pos := b.Closed(req.direction).PosAvailable();
    var v := if pos > 0 then Min(pos, req.volume) else 0;
    var x, y := Leg(req, CLOSE, v), Leg(req, OPEN, req.volume - v);
    assert [x, y][1..] == [y] && [x][1..] == [] && [y][1..] == [];
    assert VolumeOf([x], CLOSE) == v && VolumeOf([y], CLOSE) == 0 && VolumeOf([x, y], CLOSE) == v;
    assert [x] + [y] == [x, y] && [x] + [] == [x] && [] + [y] == [y];
  }

  /** What the lock mode closes there. */
  lemma LockClosesPlain(b: Book, req: OrderRequest)
    requires !b.exchange.SplitsToday() && req.volume >= 0
    ensures var s := b.Closed(req.direction);
            VolumeOf(LockLegs(b, req), CLOSE)
            == if s.td == 0 && s.YdAvailable() > 0 then Min(s.YdAvailable(), req.volume) else 0
  {
    var s := b.Closed(req.direction);
    var yd := s.YdAvailable();
    var v := if yd > 0 then Min(req.volume, yd) else 0;
    var x, y := Leg(req, CLOSE, v), Leg(req, OPEN, req.volume - yd);
    OneLeg([Leg(req, OPEN, req.volume)]);
    OneLeg([x]);
    OneLeg([y]);
    assert [x, y][1..] == [y] && VolumeOf([x, y], CLOSE) == v;
    assert [x] + [y] == [x, y] && [x] + [] == [x] && [] + [y] == [y];
  }

  /** After a fill of `v` lots of a CLOSE order: the fields its order report leaves, which the trade report then
      only clamps. */
  lemma PlainFilled(b: Book, id: string, v: int, status: Status, gap: Book)
    requires PlainBook(b) && id in b.orders && 0 <= v <= b.orders[id].Remaining()
    requires b.orders[id].offset == CLOSE && b.orders[id].direction in {LONG, SHORT}
    requires var o := b.orders[id]; OrderUpdated(b, o.(traded := o.traded + v, status := status), gap)
    ensures var o := b.orders[id];
            var s, after := gap.Closed(o.direction), Traded(gap, TradeOf(o, v));
            var C := MapTotal(gap.orders, o.direction, CLOSE);
            && PlainlyFrozen(s, C) && 0 <= C <= s.pos - v && s.pos == b.Closed(o.direction).pos
            && s.td == b.Closed(o.direction).td && after.Closed(o.direction) == Summed(CloseVolume(s, CLOSE, v, false))
            && after.orders == gap.orders && after.exchange == b.exchange
  {
    hide MapTotal, OrderUpdated, PlainlyFrozen;
    var o := b.orders[id];
    var o', d := o.(traded := o.traded + v, status := status), o.direction;
    assert PlainOrderOk(id, o, b.exchange) && o'.KtOrderid() == id && PlainCovered(b, d);
    FiledTotals(b, o');
    PlainReported(b, o', gap, d);
    PlainNonNegative(gap.Closed(d), MapTotal(gap.orders, d, CLOSE));
  }

  /** After a fill of `v` lots of a CLOSE order, with `C` lots of closing orders left, a request in net mode keeps
      all closing orders within the position if and only if the fill left the frozen volume exact, or the
      request asks for no more than the orders leave of the position. */
  lemma PlainFillThenNetIff(b: Book, id: string, v: int, status: Status, gap: Book, req: OrderRequest)
    requires PlainBook(b) && id in b.orders && 0 <= v <= b.orders[id].Remaining()
    requires b.orders[id].offset == CLOSE && b.orders[id].direction in {LONG, SHORT}
    requires var o := b.orders[id]; OrderUpdated(b, o.(traded := o.traded + v, status := status), gap)
    requires req.direction == b.orders[id].direction && req.exchange == b.exchange && req.volume >= 0
    ensures var o := b.orders[id];
            var s, after := b.Closed(o.direction), Traded(gap, TradeOf(o, v));
            var C := MapTotal(gap.orders, o.direction, CLOSE);
            && after.orders == gap.orders && after.Closed(o.direction).pos == s.pos - v
            && (C + VolumeOf(NetLegs(after, req), CLOSE) <= s.pos - v
                <==> (v == 0 || s.td == 0 || C <= Max(0, s.td - v)) || req.volume <= s.pos - v - C)
  {
    hide MapTotal, OrderUpdated, VolumeOf, NetLegs;
    var o := b.orders[id];
    PlainFilled(b, id, v, status, gap);
    PlainFillFrozenExactIff(gap.Closed(o.direction), MapTotal(gap.orders, o.direction, CLOSE), v);
    NetClosesPlain(Traded(gap, TradeOf(o, v)), req);
  }

  /** The lock mode, which closes only where nothing was opened today, over-closes just when the fill has used up
      today's volume while more of the position is still being closed. */
  lemma PlainFillThenLockIff(b: Book, id: string, v: int, status: Status, gap: Book, req: OrderRequest)
    requires PlainBook(b) && id in b.orders && 0 <= v <= b.orders[id].Remaining()
    requires b.orders[id].offset == CLOSE && b.orders[id].direction in {LONG, SHORT}
    requires var o := b.orders[id]; OrderUpdated(b, o.(traded := o.traded + v, status := status), gap)
    requires req.direction == b.orders[id].direction && req.volume >= 0
    ensures var o := b.orders[id];
            var s, after := b.Closed(o.direction), Traded(gap, TradeOf(o, v));
            var C := MapTotal(gap.orders, o.direction, CLOSE);
            C + VolumeOf(LockLegs(after, req), CLOSE) <= s.pos - v
            <==> s.td == 0 || C == 0 || v < s.td || req.volume <= s.pos - v - C
  {
    hide MapTotal, OrderUpdated, VolumeOf, LockLegs;
    var o := b.orders[id];
    PlainFilled(b, id, v, status, gap);
    LockClosesPlain(Traded(gap, TradeOf(o, v)), req);
    PlainFillLock(gap.Closed(o.direction), MapTotal(gap.orders, o.direction, CLOSE), v, req.volume);
  }

  lemma PlainFillLock(s: Side, C: int, v: int, volume: int)
    requires PlainlyFrozen(s, C) && 0 <= v <= s.pos - C && volume >= 0
    ensures var s' := Summed(CloseVolume(s, CLOSE, v, false));
            var closed := if s'.td == 0 && s'.YdAvailable() > 0 then Min(s'.YdAvailable(), volume) else 0;
            C + closed <= s.pos - v <==> s.td == 0 || C == 0 || v < s.td || volume <= s.pos - v - C
  {
  }

  lemma PlainNonNegative(s: Side, C: int)
    requires PlainlyFrozen(s, C)
    ensures 0 <= C && 0 <= s.td && 0 <= s.yd && s.pos == s.td + s.yd
  {
  }

  function PlainClose(traded: int): OrderData {
    OrderData("rb", Other(0), "1", LIMIT, SHORT, CLOSE, 1.0, 8, traded, if traded == 0 then SUBMITTING else PARTTRADED,
              "", "ctp")
  }

  /** Ten lots, eight of them being closed, four of these filled: a net-mode request for six is told to close five
      of the six lots left, while four of them are still being closed. */
  lemma PlainFillCanOverClose() returns (b1: Book, gap: Book)
    ensures OrderUpdated(Started(Other(0), PositionData(LONG, 10, 5), PositionData(SHORT, 0, 0)), PlainClose(0), b1)
    ensures OrderUpdated(b1, PlainClose(4), gap)
    ensures var after := Traded(gap, TradeOf(PlainClose(0), 4));
            var req := OrderRequest("rb", Other(0), SHORT, LIMIT, 6, 1.0, CLOSE, "");
            && after.long.pos == 6 && MapTotal(after.orders, SHORT, CLOSE) == 4
            && VolumeOf(NetLegs(after, req), CLOSE) == 5
  {
    hide MapTotal, OrderUpdated, VolumeOf, NetLegs, PlainlyFrozen, PlainClose;
    b1 := PlainFiled();
    gap := PlainHalfFilled(b1);
    PlainFilledHalf(gap);
  }

  lemma PlainFiled() returns (b1: Book)
    ensures OrderUpdated(Started(Other(0), PositionData(LONG, 10, 5), PositionData(SHORT, 0, 0)), PlainClose(0), b1)
    ensures PlainBook(b1) && b1.exchange == Other(0) && b1.long.td == 5 && b1.long.yd == 5
    ensures b1.orders == map[PlainClose(0).KtOrderid() := PlainClose(0)] && MapTotal(b1.orders, SHORT, CLOSE) == 8
  {
    hide MapTotal, OrderUpdated, Refrozen, PlainlyFrozen;
    var b, o := Started(Other(0), PositionData(LONG, 10, 5), PositionData(SHORT, 0, 0)), PlainClose(0);
    NothingFrozen(b.orders);
    FiledTotals(b, o);
    var ks := SomeWalk(Filed(b, o).orders);
    b1 := Refrozen(Filed(b, o), ks);
    WalkExplains(b, o, ks);
    PlainReported(b, o, b1, LONG);
    PlainReported(b, o, b1, SHORT);
    PlainAgain(b1, o);
  }

  lemma PlainHalfFilled(b1: Book) returns (gap: Book)
    requires PlainBook(b1) && b1.exchange == Other(0) && b1.long.td == 5 && b1.long.yd == 5
    requires b1.orders == map[PlainClose(0).KtOrderid() := PlainClose(0)] && MapTotal(b1.orders, SHORT, CLOSE) == 8
    ensures OrderUpdated(b1, PlainClose(4), gap)
    ensures gap.exchange == Other(0) && MapTotal(gap.orders, SHORT, CLOSE) == 4
    ensures PlainlyFrozen(gap.long, 4) && gap.long.td == 5 && gap.long.yd == 5
  {
    hide MapTotal, OrderUpdated, Refrozen, PlainlyFrozen;
    var o' := PlainClose(4);
    FiledTotals(b1, o');
    var ks := SomeWalk(Filed(b1, o').orders);
    gap := Refrozen(Filed(b1, o'), ks);
    WalkExplains(b1, o', ks);
    PlainReported(b1, o', gap, SHORT);
  }

  lemma PlainAgain(b1: Book, o: OrderData)
    requires o == PlainClose(0) && b1.orders == map[o.KtOrderid() := o] && b1.exchange == Other(0)
    requires PlainlyFrozen(b1.long, MapTotal(b1.orders, SHORT, CLOSE)) && b1.long.td == 5 && b1.long.yd == 5
    requires PlainlyFrozen(b1.short, MapTotal(b1.orders, LONG, CLOSE))
    ensures PlainBook(b1)
  {
    hide MapTotal;
  }

  lemma PlainFilledHalf(gap: Book)
    requires gap.exchange == Other(0) && MapTotal(gap.orders, SHORT, CLOSE) == 4
    requires PlainlyFrozen(gap.long, 4) && gap.long.td == 5 && gap.long.yd == 5
    ensures var after := Traded(gap, TradeOf(PlainClose(0), 4));
            var req := OrderRequest("rb", Other(0), SHORT, LIMIT, 6, 1.0, CLOSE, "");
            after.orders == gap.orders && after.long.pos == 6 && VolumeOf(NetLegs(after, req), CLOSE) == 5
  {
    hide MapTotal, VolumeOf, NetLegs;
    var after := Traded(gap, TradeOf(PlainClose(0), 4));
    NetClosesPlain(after, OrderRequest("rb", Other(0), SHORT, LIMIT, 6, 1.0, CLOSE, ""));
  }
}
