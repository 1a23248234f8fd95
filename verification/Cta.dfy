/** The strategy engine: order book-keeping with callbacks that re-enter it. Exchanges and strategies are
    not seen: what they do is chosen freely, within what their interfaces let them do. */
module Cta {
  import opened Market
  import opened StopLog
  import opened CtaBook
  import opened Rounding
  import opened Trades
  import opened Options
  import Holding

  class CtaEngine {
    const classes: set<string>
    var strategies: map<string, CtaTemplate>
    var symbolStrategyMap: map<string, seq<CtaTemplate>>
    var orderidStrategyMap: map<string, CtaTemplate>
    var strategyOrderidMap: map<string, set<string>>
    var stopOrderCount: nat
    var stopOrders: map<string, StopOrder>
    var ktTradeids: set<string>

    // Tables of the trade engine that are read here.
    var contracts: map<string, Contract>
    var orders: map<string, OrderData>
    // Order ids exchanges have handed out so far.
    var given: set<string>

    ghost var trace: seq<Event>
    // Of the history, the strategies that run and the triggers. Callbacks change neither: see what they modify.
    ghost var running: set<string>
    ghost var triggers: seq<Event>
    ghost var deliveries: seq<Delivery<CtaTemplate>>
    ghost var known: set<CtaTemplate>

    ghost function Team(): Roster
      reads `strategies, `symbolStrategyMap, `contracts, `known, known`trading
    {
      Roster(strategies, symbolStrategyMap, contracts, (set s | s in known && s.trading), known)
    }

    ghost function Book(): Orders
      reads `orderidStrategyMap, `strategyOrderidMap, `stopOrders, `stopOrderCount, `given, `trace, `running,
            `triggers
    {
      Orders(orderidStrategyMap, strategyOrderidMap, stopOrders, stopOrderCount, given, trace, running, triggers)
    }

    /** What holds whenever a callback runs. */
    ghost predicate Ready()
      reads this, known
    {
      RosterOk(Team()) && Linked(Team(), Book())
    }

    /** What holds between the calls from outside. */
    ghost predicate Valid()
      reads this, known
    {
      Ready() && AllTrading(Team(), Book()) && PosOk()
    }

    /** Every strategy's position is what the trades heard of so far credit to it, each trade id once and to
        the owner its order had when it was first heard of. */
    ghost predicate PosOk()
      reads `deliveries, `ktTradeids, `known, known`pos
    {
      && ktTradeids == Heard(deliveries)
      && (forall s <- known :: s.pos == Credited(deliveries, s))
      && (forall d <- deliveries :: d.owner.Some? ==> d.owner.value in known)
    }

    constructor (classes: set<string>)
      ensures Valid() && known == {} && strategies == map[] && stopOrders == map[] && trace == [] && deliveries == []
      ensures this.classes == classes && contracts == map[] && orders == map[]
    {
      this.classes := classes;
      strategies, symbolStrategyMap, orderidStrategyMap, strategyOrderidMap := map[], map[], map[], map[];
      stopOrderCount, stopOrders, ktTradeids := 0, map[], {};
      contracts, orders, given := map[], map[], {};
      trace, running, triggers, deliveries, known := [], {}, [], [], {};
    }

    // ---- sending ----

    /** `TradeEngine::send_order`, which enters each answer in the history: an exchange refuses, or answers
        with an id it never gave before; ids of exchanges do not look like local ones. */
    method ExchangeSend(req: OrderRequest, ghost asked: OrderRequest) returns (id: string)
      modifies `given, `trace
      ensures id == "" ==> given == old(given)
      ensures id != "" ==> !IsLocal(id) && id !in old(given) && given == old(given) + {id}
      ensures trace == old(trace) + [Answer(req, asked, id)]
    {
      id := *;
      if id in given || IsLocal(id) {
        id := "";
      }
      if id != "" {
        given := given + {id};
      }
      trace := trace + [Answer(req, asked, id)];
    }

    /** `OmsEngine::convert_order_request`, which enters each request in the history. Without a converter the
        request is its own leg; with one the legs are those of a holding in any state. The argument `net` is
        bound to a constant there, so what is not locked is netted, whatever the caller says. */
    method Convert(req: OrderRequest, lock: bool, net: bool) returns (legs: seq<OrderRequest>)
      modifies `trace
      ensures legs == [req] || ConverterGives(req, lock, legs)
      ensures (forall leg <- legs :: LegOf(leg, req)) && (legs == [] ==> req.volume <= 0)
      ensures Book() == Noted(old(Book()), Requested(req, legs))
    {
      var converted: bool := *;
      legs := [req];
      if converted {
        var holding: Holding.Book := *;
        legs := Holding.ConvertedLegs(holding, req, lock, true);
        LegsOfRequest(holding, req, lock);
      }
      trace := trace + [Requested(req, legs)];
    }

    /** One leg is put to its exchange and, if that takes it, is filed under its id. */
    method SendLeg(s: CtaTemplate, req: OrderRequest, ghost asked: OrderRequest) returns (ktOrderid: string)
      modifies `orderidStrategyMap, `strategyOrderidMap, `given, `trace
      ensures ktOrderid == "" ==> Book() == Noted(old(Book()), Declined(req, asked))
      ensures ktOrderid != "" ==> !IsLocal(ktOrderid) && ktOrderid !in old(given)
      ensures ktOrderid != "" ==> Book() == Recorded(old(Book()), s, ktOrderid, req, asked)
    {
      ktOrderid := ExchangeSend(req, asked);
      if ktOrderid == "" {
        return;
      }
      orderidStrategyMap := orderidStrategyMap[ktOrderid := s];
      strategyOrderidMap := strategyOrderidMap[
        s.strategyName := Of(strategyOrderidMap, s.strategyName) + {ktOrderid}];
    }

    /** `send_server_order`: the request goes to the converter and each leg to the exchange, in turn and once;
        the legs taken are returned. Every id returned is in the strategy's set and belongs to it. */
    method SendServerOrder(s: CtaTemplate, contract: Contract, direction: Direction, offset: Offset, price: real,
                           volume: int, orderType: OrderType, lock: bool, net: bool)
      returns (ktOrderids: seq<string>, ghost original: OrderRequest)
      requires Ready() && Registered(Team(), s)
      modifies `orderidStrategyMap, `strategyOrderidMap, `given, `trace
      ensures Ready() && Progress(Team(), old(Book()), Book())
      ensures original == OrderRequest(contract.symbol, contract.exchange, direction, orderType, volume, price,
                                       offset, REFERENCE)
      ensures forall id <- ktOrderids :: Placed(Book(), id, s, original)
      ensures Attempt(old(trace), trace, original, ktOrderids)
    {
      hide Linked, RosterOk, Progress, AllTrading, Placed, Recorded, Noted, IsLocal, Answers, Taken, LegOf,
           Attempt, Legal, Replayed, Triggers, Allowed, Holding.ConvertedLegs;
      var originalReq := OrderRequest(contract.symbol, contract.exchange, direction, orderType, volume, price, offset,
                                      REFERENCE);
      original := originalReq;
      var legs := Convert(originalReq, lock, net);
      RequestOk(Team(), old(Book()), original, legs);
      ktOrderids := [];
      ghost var ids: seq<string> := [];
      ghost var asking := trace;
      NoAnswers(original);
      assert legs[..0] == [] && asking + [] == asking;
      for i := 0 to |legs|
        invariant Ready() && Progress(Team(), old(Book()), Book())
        invariant forall id <- ktOrderids :: Placed(Book(), id, s, original)
        invariant |ids| == i && ktOrderids == Taken(ids) && trace == asking + Answers(original, legs[..i], ids)
      {
        ghost var before := Book();
        var ktOrderid := SendLeg(s, legs[i], original);
        assert legs[..i + 1] == legs[..i] + [legs[i]];
        AnswersGrow(original, legs[..i], ids, legs[i], ktOrderid);
        ids := ids + [ktOrderid];
        assert trace == before.trace + [Answer(legs[i], original, ktOrderid)];
        if ktOrderid == "" {
          DeclinedOk(Team(), before, legs[i], original);
          ProgressTrans(Team(), old(Book()), before, Book());
          continue;
        }
        ktOrderids := ktOrderids + [ktOrderid];
        RecordedOk(Team(), before, s, ktOrderid, legs[i], original);
        ProgressTrans(Team(), old(Book()), before, Book());
        RecordedPlaces(Team(), before, s, ktOrderid, legs[i], original);
      }
      assert legs[..|legs|] == legs;
      AttemptMade(old(trace), trace, original, legs, ids);
    }

    // ---- orders and callbacks ----

    /** Any callback of a strategy: it may send and cancel orders through its template, as often as it
        likes, and each of those may call back again. `fuel` bounds how often and how deep; whatever a
        callback that returns can do, it does for some `fuel`. */
    method React(s: CtaTemplate, fuel: nat)
      requires Ready() && s in known
      modifies `orderidStrategyMap, `strategyOrderidMap, `stopOrderCount, `stopOrders, `given, `trace
      ensures Ready() && Progress(Team(), old(Book()), Book())
      ensures !s.trading || fuel == 0 ==> Book() == old(Book())
      decreases fuel, 0
    {
      hide Linked, RosterOk, Progress;
      ProgressRefl(Team(), Book());
      var left: nat := fuel;
      while left > 0
        invariant left <= fuel
        invariant Ready() && Progress(Team(), old(Book()), Book())
        invariant !s.trading || left == fuel ==> Book() == old(Book())
      {
        left := left - 1;
        ghost var before := Book();
        if {
          case true =>
            var direction, offset, price, volume, stop, lock, net := Anything();
            var _ := TemplateSendOrder(s, direction, offset, price, volume, stop, lock, net, left);
          case true =>
            var id: string := *;
            TemplateCancelOrder(s, id, left);
          case true =>
            TemplateCancelAll(s, left);
        }
        ProgressTrans(Team(), old(Book()), before, Book());
      }
    }

    method Anything() returns (direction: Direction, offset: Offset, price: real, volume: int, stop: bool, lock: bool,
                               net: bool)
    {
      direction, offset, price, volume, stop, lock, net := *, *, *, *, *, *, *;
    }

    /** What a send with a known contract has done since `before`: a local stop order at the rounded price and
        volume was announced, or its request was put to the exchange. */
    ghost predicate SendDone(before: Orders, ktOrderids: seq<string>, s: CtaTemplate, direction: Direction,
                             offset: Offset, price: real, volume: int, stop: bool, lock: bool, net: bool)
      requires s.ktSymbol in contracts
      reads this, known
    {
      var c := contracts[s.ktSymbol];
      var p, v := RoundTo(price, c.priceTick), RoundLots(volume, c.minVolume);
      if stop && !c.stopSupported then
        && ktOrderids == [LocalId(before.count + 1)]
        && Progress(Team(), Announced(before, StopOrder(s.ktSymbol, direction, offset, p, v, ktOrderids[0],
                                                        s.strategyName, lock, net, [], WAITING)), Book())
      else
        var req := OrderRequest(c.symbol, c.exchange, direction, if stop then STOP else LIMIT, v, p, offset, REFERENCE);
        && (forall id <- ktOrderids :: Placed(Book(), id, s, req))
        && Attempt(before.trace, trace, req, ktOrderids)
    }

    /** `CtaTemplate::send_order`. */
    method TemplateSendOrder(s: CtaTemplate, direction: Direction, offset: Offset, price: real, volume: int,
                             stop: bool, lock: bool, net: bool, fuel: nat)
      returns (ktOrderids: seq<string>)
      requires Ready() && s in known
      modifies `orderidStrategyMap, `strategyOrderidMap, `stopOrderCount, `stopOrders, `given, `trace
      ensures Ready() && Progress(Team(), old(Book()), Book())
      ensures !s.trading ==> ktOrderids == [] && Book() == old(Book())
      ensures s.trading && s.ktSymbol in contracts ==>
                SendDone(old(Book()), ktOrderids, s, direction, offset, price, volume, stop, lock, net)
      decreases fuel, 4
    {
      hide Linked, Progress, SendDone;
      ProgressRefl(Team(), Book());
      if s.trading {
        assert s in Team().trading;
        ktOrderids := SendOrder(s, direction, offset, price, volume, stop, lock, net, fuel);
      } else {
        ktOrderids := [];
      }
    }

    /** `CtaTemplate::cancel_order`. */
    method TemplateCancelOrder(s: CtaTemplate, ktOrderid: string, fuel: nat)
      requires Ready() && s in known
      modifies `orderidStrategyMap, `strategyOrderidMap, `stopOrderCount, `stopOrders, `given, `trace
      ensures Ready() && Progress(Team(), old(Book()), Book())
      ensures !s.trading ==> Book() == old(Book())
      ensures s.trading ==> Dealt(Book(), orders, ktOrderid, |old(trace)|)
      decreases fuel, 4
    {
      hide Linked, RosterOk, Progress, Dealt;
      ProgressRefl(Team(), Book());
      TradersRun(Team(), Book());
      if s.trading {
        assert s in Team().trading;
        CancelOrder(s, ktOrderid, fuel);
      }
    }

    /** `CtaTemplate::cancel_all`. */
    method TemplateCancelAll(s: CtaTemplate, fuel: nat)
      requires Ready() && s in known
      modifies `orderidStrategyMap, `strategyOrderidMap, `stopOrderCount, `stopOrders, `given, `trace
      ensures Ready() && Progress(Team(), old(Book()), Book())
      ensures !s.trading ==> Book() == old(Book())
      ensures s.trading ==> forall id <- old(Of(strategyOrderidMap, s.strategyName)) ::
                              Dealt(Book(), orders, id, |old(trace)|)
      decreases fuel, 4
    {
      hide Linked, RosterOk, Progress, Dealt;
      ProgressRefl(Team(), Book());
      TradersRun(Team(), Book());
      if s.trading {
        assert s in Team().trading;
        CancelAll(s, fuel);
      }
    }

    /** `send_order`: nothing happens unless the contract is known. */
    method SendOrder(s: CtaTemplate, direction: Direction, offset: Offset, price: real, volume: int, stop: bool,
                     lock: bool, net: bool, fuel: nat)
      returns (ktOrderids: seq<string>)
      requires Ready() && s in Team().trading && Registered(Team(), s)
      modifies `orderidStrategyMap, `strategyOrderidMap, `stopOrderCount, `stopOrders, `given, `trace
      ensures Ready() && Progress(Team(), old(Book()), Book())
      ensures s.ktSymbol !in contracts ==> ktOrderids == [] && Book() == old(Book())
      ensures s.ktSymbol in contracts ==>
                SendDone(old(Book()), ktOrderids, s, direction, offset, price, volume, stop, lock, net)
      decreases fuel, 2
    {
      hide Linked, RosterOk, Progress, Placed, Announced, RoundTo, RoundLots, LocalId;
      if s.ktSymbol !in contracts {
        ProgressRefl(Team(), Book());
        return [];
      }
      ghost var original;
      var contract := contracts[s.ktSymbol];
      var roundedPrice := RoundTo(price, contract.priceTick);
      var roundedVolume := RoundLots(volume, contract.minVolume);
      if stop {
        if contract.stopSupported {
          ktOrderids, original := SendServerOrder(s, contract, direction, offset, roundedPrice, roundedVolume, STOP,
                                                  lock, net);
        } else {
          ktOrderids := SendLocalStopOrder(s, direction, offset, roundedPrice, roundedVolume, lock, net, fuel);
        }
      } else {
        ktOrderids, original := SendServerOrder(s, contract, direction, offset, roundedPrice, roundedVolume, LIMIT,
                                                lock, net);
      }
    }

    method FileStop(so: StopOrder)
      modifies `strategyOrderidMap, `stopOrderCount, `stopOrders, `trace
      ensures Book() == Announced(old(Book()), so)
    {
      stopOrderCount := stopOrderCount + 1;
      stopOrders := stopOrders[so.stopOrderid := so];
      strategyOrderidMap := strategyOrderidMap[
        so.strategyName := Of(strategyOrderidMap, so.strategyName) + {so.stopOrderid}];
      trace := trace + [Told(so)];
    }

    method TakeStop(stopOrderid: string, name: string)
      modifies `strategyOrderidMap, `stopOrders
      ensures Book() == TakenOut(old(Book()), name, stopOrderid)
    {
      stopOrders := stopOrders - {stopOrderid};
      strategyOrderidMap := strategyOrderidMap[name := Of(strategyOrderidMap, name) - {stopOrderid}];
    }

    /** `send_local_stop_order`: the order is filed under a fresh id and announced, and what the callback
        does comes after that. */
    method SendLocalStopOrder(s: CtaTemplate, direction: Direction, offset: Offset, price: real, volume: int,
                              lock: bool, net: bool, fuel: nat)
      returns (ktOrderids: seq<string>)
      requires Ready() && s in Team().trading && Registered(Team(), s) && s.ktSymbol in contracts
      modifies `orderidStrategyMap, `strategyOrderidMap, `stopOrderCount, `stopOrders, `given, `trace
      ensures Ready() && Progress(Team(), old(Book()), Book())
      ensures ktOrderids == [LocalId(old(stopOrderCount) + 1)]
      ensures var so := StopOrder(s.ktSymbol, direction, offset, price, volume, ktOrderids[0], s.strategyName, lock,
                                  net, [], WAITING);
              Progress(Team(), Announced(old(Book()), so), Book())
      decreases fuel, 1
    {
      hide Linked, RosterOk, Progress, LocalId, Announced;
      var stopOrder := StopOrder(s.ktSymbol, direction, offset, price, volume, LocalId(stopOrderCount + 1),
                                 s.strategyName, lock, net, [], WAITING);
      AnnouncedOk(Team(), Book(), stopOrder);
      FileStop(stopOrder);
      ghost var after := Book();
      React(s, fuel);
      ProgressTrans(Team(), old(Book()), after, Book());
      ktOrderids := [stopOrder.stopOrderid];
    }

    /** `cancel_server_order`: a request goes out if the trade engine knows the order. */
    method CancelServerOrder(s: CtaTemplate, ktOrderid: string)
      modifies `trace
      ensures Book() == if ktOrderid in orders then Noted(old(Book()), CancelAsked(ktOrderid)) else old(Book())
    {
      if ktOrderid !in orders {
        return;
      }
      trace := trace + [CancelAsked(ktOrderid)];
    }

    /** `cancel_local_stop_order`, on a copy of the stop order. The strategy told is the one it names,
        whoever asked; the history has who did. */
    method CancelLocalStopOrder(s: CtaTemplate, stopOrderid: string, fuel: nat)
      requires Ready() && s.strategyName in running
      modifies `orderidStrategyMap, `strategyOrderidMap, `stopOrderCount, `stopOrders, `given, `trace
      ensures Ready() && Progress(Team(), old(Book()), Book())
      ensures stopOrderid !in stopOrders
      ensures stopOrderid !in old(stopOrders) ==> Book() == old(Book())
      ensures stopOrderid in old(stopOrders) ==>
                var so := old(stopOrders)[stopOrderid];
                var told := Cancelled(so.(status := StopOrderStatus.CANCELLED), s.strategyName);
                Progress(Team(), Withdrawn(old(Book()), so.strategyName, stopOrderid, told), Book())
      ensures fuel == 0 ==> stopOrders == old(stopOrders) - {stopOrderid}
      decreases fuel, 1
    {
      hide Linked, RosterOk, Progress, LocalId, Issued, Legal, Replayed, Triggers, Allowed, IsLocal, Of;
      if stopOrderid !in stopOrders {
        ProgressRefl(Team(), Book());
        return;
      }
      StopIsListed(Team(), Book(), stopOrderid);
      var stopOrder := stopOrders[stopOrderid];
      var owner := strategies[stopOrder.strategyName];
      stopOrder := stopOrder.(status := StopOrderStatus.CANCELLED);
      WithdrawnOk(Team(), Book(), stopOrderid, Cancelled(stopOrder, s.strategyName));
      TakeStop(stopOrderid, owner.strategyName);
      trace := trace + [Cancelled(stopOrder, s.strategyName)];
      ghost var after := Book();
      assert after == Withdrawn(old(Book()), owner.strategyName, stopOrderid, Cancelled(stopOrder, s.strategyName));
      React(owner, fuel);
      ProgressTrans(Team(), old(Book()), after, Book());
      GoneForGood(Team(), after, Book(), stopOrderid);
    }

    /** `cancel_order`: the prefix tells a local id from a server id. */
    method CancelOrder(s: CtaTemplate, ktOrderid: string, fuel: nat)
      requires Ready() && s.strategyName in running
      modifies `orderidStrategyMap, `strategyOrderidMap, `stopOrderCount, `stopOrders, `given, `trace
      ensures Ready() && Progress(Team(), old(Book()), Book())
      ensures Dealt(Book(), orders, ktOrderid, |old(trace)|)
      ensures fuel == 0 ==> stopOrders == old(stopOrders) - {ktOrderid}
      decreases fuel, 2
    {
      StopIdsLocal(Team(), Book(), ktOrderid);
      hide Linked, RosterOk, Progress, IsLocal, Withdrawn, Allowed, Replayed;
      if IsLocal(ktOrderid) {
        CancelLocalStopOrder(s, ktOrderid, fuel);
      } else {
        ProgressRefl(Team(), Book());
        NotedOk(Team(), Book(), CancelAsked(ktOrderid));
        CancelServerOrder(s, ktOrderid);
        assert ktOrderid in orders ==> trace[|old(trace)|] == CancelAsked(ktOrderid);
      }
    }

    /** `cancel_all`: of the ids in the strategy's set on entry every one is dealt with. */
    method CancelAll(s: CtaTemplate, fuel: nat)
      requires Ready() && s.strategyName in running
      modifies `orderidStrategyMap, `strategyOrderidMap, `stopOrderCount, `stopOrders, `given, `trace
      ensures Ready() && Progress(Team(), old(Book()), Book())
      ensures forall id <- old(Of(strategyOrderidMap, s.strategyName)) :: Dealt(Book(), orders, id, |old(trace)|)
      ensures fuel == 0 ==> stopOrders == old(stopOrders) - old(Of(strategyOrderidMap, s.strategyName))
      decreases fuel, 3
    {
      hide Linked, RosterOk, Progress, AllIssued, Dealt;
      var ktOrderids := Of(strategyOrderidMap, s.strategyName);
      ghost var start := Book();
      ProgressRefl(Team(), start);
      ListedIssued(Team(), start, s.strategyName);
      var left := ktOrderids;
      while left != {}
        invariant left <= ktOrderids && AllIssued(Book(), ktOrderids)
        invariant Ready() && Progress(Team(), start, Book())
        invariant forall id <- ktOrderids - left :: Dealt(Book(), orders, id, |start.trace|)
        invariant fuel == 0 ==> stopOrders == start.stops - (ktOrderids - left)
        decreases left
      {
        var ktOrderid :| ktOrderid in left;
        left := left - {ktOrderid};
        ghost var before := Book();
        CancelOrder(s, ktOrderid, fuel);
        ProgressTrans(Team(), start, before, Book());
        StillIssued(Team(), before, Book(), ktOrderids);
        ProgressGrows(Team(), start, before);
        DealtStays(Team(), before, Book(), orders, ktOrderids, left + {ktOrderid}, |start.trace|);
        DealtSooner(Book(), orders, ktOrderid, |before.trace|, |start.trace|);
      }
    }

    // ---- ticks ----

    /** The limit price that should fill at once. */
    method PriceFor(direction: Direction, tick: TickData) returns (price: real)
      ensures price == TriggerPrice(direction, tick)
      ensures direction == LONG ==> price == if tick.limitUp == 0.0 then tick.askPrice5 else tick.limitUp
      ensures direction != LONG ==> price == if tick.limitDown == 0.0 then tick.bidPrice5 else tick.limitDown
    {
      if direction == LONG {
        if tick.limitUp != 0.0 {
          price := tick.limitUp;
        } else {
          price := tick.askPrice5;
        }
      } else {
        if tick.limitDown != 0.0 {
          price := tick.limitDown;
        } else {
          price := tick.bidPrice5;
        }
      }
    }

    ghost method EnterFired(so: StopOrder, tick: TickData)
      modifies `trace, `triggers
      ensures Book() == old(Book()).(trace := old(trace) + [Fired(so, tick)],
                                     triggers := old(triggers) + [Fired(so, tick)])
    {
      trace, triggers := trace + [Fired(so, tick)], triggers + [Fired(so, tick)];
    }

    /** The tail of the loop body, for a stop order whose legs are placed. */
    method Fire(stopOrderid: string, strategy: CtaTemplate, ktOrderids: seq<string>, tick: TickData, fuel: nat)
      requires Ready() && stopOrderid in stopOrders
      requires strategy in known && strategy.strategyName == stopOrders[stopOrderid].strategyName
      requires Allowed(Replayed(trace),
                       Fired(stopOrders[stopOrderid].(status := TRIGGERED, ktOrderids := ktOrderids), tick))
      modifies `triggers
      modifies `orderidStrategyMap, `strategyOrderidMap, `stopOrderCount, `stopOrders, `given, `trace
      ensures Ready() && Progress(Team(), old(Book()), Book())
      ensures stopOrderid !in stopOrders
      ensures var so := old(stopOrders)[stopOrderid].(status := TRIGGERED, ktOrderids := ktOrderids);
              && Progress(Team(), Withdrawn(old(Book()), so.strategyName, stopOrderid, Fired(so, tick)), Book())
              && triggers == old(triggers) + [Fired(so, tick)]
              && (fuel == 0 ==> Book() == Withdrawn(old(Book()), so.strategyName, stopOrderid, Fired(so, tick)))
    {
      hide Linked, Progress, Issued, Legal, Replayed, Triggers, Allowed, RosterOk, IsLocal, Of;
      var stopOrder := stopOrders[stopOrderid];
      StopIsListed(Team(), Book(), stopOrderid);
      stopOrder := stopOrder.(status := TRIGGERED, ktOrderids := ktOrderids);
      WithdrawnOk(Team(), Book(), stopOrderid, Fired(stopOrder, tick));
      TakeStop(stopOrderid, strategy.strategyName);
      EnterFired(stopOrder, tick);
      ghost var after := Book();
      assert after == Withdrawn(old(Book()), strategy.strategyName, stopOrderid, Fired(stopOrder, tick));
      React(strategy, fuel);
      ProgressTrans(Team(), old(Book()), after, Book());
      GoneForGood(Team(), after, Book(), stopOrderid);
    }

    /** The body of the loop in `check_stop_order`, on a copy of the stop order, for one that crossed: its
        request is put to the exchange, and the order goes on waiting exactly when no leg was taken. */
    method TriggerStop(stopOrderid: string, tick: TickData, fuel: nat)
      returns (ktOrderids: seq<string>, ghost sent: seq<Event>)
      requires Ready() && stopOrderid in stopOrders && Crossed(stopOrders[stopOrderid], tick)
      requires stopOrders[stopOrderid].ktSymbol in contracts
      modifies `triggers
      modifies `orderidStrategyMap, `strategyOrderidMap, `stopOrderCount, `stopOrders, `given, `trace
      ensures Ready() && Progress(Team(), old(Book()), Book())
      ensures Carried(Team(), old(Book()), Book(), old(stopOrders)[stopOrderid], tick, sent, ktOrderids, fuel == 0)
      ensures var so := old(stopOrders)[stopOrderid];
              Bracketed(tick) ==> Marketable(StopRequest(contracts[so.ktSymbol], so, tick).price, so, tick)
      ensures fuel == 0 ==> stopOrders == old(stopOrders) - if ktOrderids == [] then {} else {stopOrderid}
    {
      hide Linked, Progress, Issued, Legal, Replayed, Triggers, Allowed, Placed, RosterOk, IsLocal,
           TriggerPrice, Attempt, Crosses, Of, Bracketed, Marketable;
      StopIsListed(Team(), Book(), stopOrderid);
      var stopOrder := stopOrders[stopOrderid];
      TriggerPriceFills(stopOrder, tick);
      var strategy := strategies[stopOrder.strategyName];
      var price := PriceFor(stopOrder.direction, tick);
      var contract := contracts[stopOrder.ktSymbol];
      ghost var original;
      ktOrderids, original := SendServerOrder(strategy, contract, stopOrder.direction, stopOrder.offset, price,
                                              stopOrder.volume, LIMIT, stopOrder.lock, stopOrder.net);
      sent := trace;
      ProgressGrows(Team(), old(Book()), Book());
      if ktOrderids == [] {
        return;
      }
      ghost var before := Book();
      FiredAllowed(Team(), before, stopOrderid, strategy, original, ktOrderids, tick);
      Fire(stopOrderid, strategy, ktOrderids, tick, fuel);
      ProgressTrans(Team(), old(Book()), before, Book());
      ghost var fired := Fired(stopOrder.(status := TRIGGERED, ktOrderids := ktOrderids), tick);
      ProgressGrows(Team(), Withdrawn(before, stopOrder.strategyName, stopOrderid, fired), Book());
    }

    /** One id of the snapshot: it is looked up again, and triggered if the tick crossed. */
    method CheckOne(id: string, tick: TickData, fuel: nat)
      requires Ready()
      modifies `triggers
      modifies `orderidStrategyMap, `strategyOrderidMap, `stopOrderCount, `stopOrders, `given, `trace
      ensures Ready() && Progress(Team(), old(Book()), Book())
      ensures Checked(Team(), old(Book()), Book(), tick, id, fuel == 0)
    {
      hide Linked, Progress, RosterOk, AllTrading, Crosses, Carried;
      ProgressRefl(Team(), Book());
      if id !in stopOrders {
        return;
      }
      if stopOrders[id].ktSymbol != tick.ktSymbol {
        return;
      }
      var longTriggered := stopOrders[id].direction == LONG && tick.lastPrice >= stopOrders[id].price;
      var shortTriggered := stopOrders[id].direction == SHORT && tick.lastPrice <= stopOrders[id].price;
      TriggerTest(stopOrders[id], tick);
      if longTriggered || shortTriggered {
        StopIsListed(Team(), Book(), id);
        var _, _ := TriggerStop(id, tick, fuel);
      }
    }

    /** `check_stop_order`, over a snapshot of the ids taken in any order: each is checked once, so exactly the
        orders that the tick crossed are put to the exchange, and the others wait on. Meanwhile the callbacks of
        triggered orders may ask for cancels, of orders still to be checked as of any other. */
    method CheckStopOrder(tick: TickData, fuel: nat) returns (ghost ids: seq<string>, ghost books: seq<Orders>)
      requires Valid()
      modifies `triggers
      modifies `orderidStrategyMap, `strategyOrderidMap, `stopOrderCount, `stopOrders, `given, `trace
      ensures Valid() && Progress(Team(), old(Book()), Book())
      ensures EachOnce(ids, old(stopOrders).Keys)
      ensures Swept(Team(), books, tick, ids, fuel == 0) && books[0] == old(Book()) && books[|ids|] == Book()
      ensures forall id <- old(stopOrders) :: Handled(Team(), old(Book()), Book(), tick, id, fuel == 0)
      ensures fuel == 0 ==> stopOrders.Keys <= old(stopOrders).Keys
    {
      hide Linked, Progress, RosterOk, AllTrading, Handled, Checked, SweepStep, PosOk;
      ghost var start := Book();
      ProgressRefl(Team(), start);
      var left := stopOrders.Keys;
      ids, books := [], [start];
      while left != {}
        invariant Ready() && Progress(Team(), start, Book()) && left <= start.stops.Keys
        invariant EachOnce(ids, start.stops.Keys - left)
        invariant Swept(Team(), books, tick, ids, fuel == 0) && books[0] == start && books[|ids|] == Book()
        decreases left
      {
        var id :| id in left;
        OnceMore(ids, start.stops.Keys - left, id);
        assert start.stops.Keys - (left - {id}) == start.stops.Keys - left + {id};
        left := left - {id};
        ghost var before := Book();
        CheckOne(id, tick, fuel);
        ProgressTrans(Team(), start, before, Book());
        Stepped(Team(), before, Book(), tick, id, fuel == 0);
        SweptMore(Team(), books, tick, ids, Book(), id, fuel == 0);
        ids, books := ids + [id], books + [Book()];
      }
      ProgressKeepsTrading(Team(), start, Book());
      SweptHandled(Team(), books, tick, ids, fuel == 0, |ids|);
      assert ids[..|ids|] == ids;
    }

    /** The loop of `process_tick_event` over the strategies of the symbol. */
    method TellTick(listed: seq<CtaTemplate>, fuel: nat)
      requires Ready() && forall s <- listed :: s in known
      modifies `orderidStrategyMap, `strategyOrderidMap, `stopOrderCount, `stopOrders, `given, `trace
      ensures Ready() && Progress(Team(), old(Book()), Book())
      ensures fuel == 0 ==> Book() == old(Book())
    {
      hide Linked, Progress, RosterOk;
      ProgressRefl(Team(), Book());
      for i := 0 to |listed|
        invariant Ready() && Progress(Team(), old(Book()), Book())
        invariant fuel == 0 ==> Book() == old(Book())
      {
        ghost var before := Book();
        if listed[i].inited {
          React(listed[i], fuel);
          ProgressTrans(Team(), old(Book()), before, Book());
        }
      }
    }

    /** `process_tick_event`: for a symbol no strategy has nothing happens, and nothing waits. */
    method ProcessTickEvent(tick: TickData, fuel: nat)
      requires Valid()
      modifies `symbolStrategyMap, `triggers
      modifies `orderidStrategyMap, `strategyOrderidMap, `stopOrderCount, `stopOrders, `given, `trace
      ensures Valid() && Progress(Team(), old(Book()), Book())
      ensures forall id <- old(stopOrders) :: Handled(Team(), old(Book()), Book(), tick, id, fuel == 0)
      ensures fuel == 0 ==> stopOrders.Keys <= old(stopOrders).Keys
    {
      hide Linked, Progress, RosterOk, AllTrading, Handled, Swept, PosOk;
      var listed := if tick.ktSymbol in symbolStrategyMap then symbolStrategyMap[tick.ktSymbol] else [];
      ghost var r := Team();
      symbolStrategyMap := symbolStrategyMap[tick.ktSymbol := listed];
      ghost var team := Team();
      assert team == Looked(r, tick.ktSymbol);
      SymbolLooked(r, Book(), tick.ktSymbol);
      ListedKnown(team, tick.ktSymbol);
      if listed == [] {
        ProgressRefl(Team(), Book());
        NobodyHandled(team, Book(), tick, fuel == 0);
        return;
      }
      ghost var _, _ := CheckStopOrder(tick, fuel);
      ghost var start := Book();
      TellTick(listed, fuel);
      ProgressTrans(team, old(Book()), start, Book());
      ProgressKeepsTrading(Team(), old(Book()), Book());
      AllHandledStays(Team(), old(Book()), start, Book(), tick, fuel == 0);
    }

    // ---- reports ----

    /** The trade engine files an order report. */
    method FileOrder(order: OrderData)
      requires Valid()
      modifies `orders
      ensures Valid() && orders == old(orders)[order.KtOrderid() := order]
    {
      hide Linked, RosterOk, AllTrading, PosOk;
      orders := orders[order.KtOrderid() := order];
    }

    /** The trade engine files a contract; none is ever taken away. */
    method FileContract(ktSymbol: string, contract: Contract)
      requires Valid()
      modifies `contracts
      ensures Valid() && contracts == old(contracts)[ktSymbol := contract]
    {
      hide HistoryOk, OwnersOk, PosOk;
      ghost var r := Team();
      contracts := contracts[ktSymbol := contract];
      ContractFiled(r, Team(), Book(), ktSymbol, contract);
    }

    /** `on_stop_order` for a stop order kept by the server, and `on_order` for every order. */
    method TellStrategy(s: CtaTemplate, order: OrderData, fuel: nat)
      requires Ready() && s in known
      modifies `orderidStrategyMap, `strategyOrderidMap, `stopOrderCount, `stopOrders, `given, `trace
      ensures Ready() && Progress(Team(), old(Book()), Book())
    {
      hide Linked, Progress, RosterOk;
      ProgressRefl(Team(), Book());
      if order.orderType == STOP {
        React(s, fuel);
      }
      ghost var told := Book();
      React(s, fuel);
      ProgressTrans(Team(), old(Book()), told, Book());
    }

    /** `process_order_event`: an order leaves its strategy's set on the three final statuses and on no other, for
        good, and what the strategy then does comes after that. */
    method ProcessOrderEvent(order: OrderData, fuel: nat)
      requires Valid()
      modifies `orderidStrategyMap, `strategyOrderidMap, `stopOrderCount, `stopOrders, `given, `trace
      ensures Valid() && old(trace) <= trace
      ensures var id := order.KtOrderid();
              if id !in old(orderidStrategyMap) then Book() == old(Book())
              else
                var name := old(orderidStrategyMap)[id].strategyName;
                var final := order.status in {ALLTRADED, Status.CANCELLED, REJECTED};
                && Progress(Team(), Finished(old(Book()), name, if final then {id} else {}), Book())
                && (id in Of(strategyOrderidMap, name) <==> id in old(Of(strategyOrderidMap, name)) && !final)
    {
      hide Linked, Progress, RosterOk, AllTrading, PosOk;
      var id := order.KtOrderid();
      if id !in orderidStrategyMap {
        return;
      }
      OwnerKnown(Team(), Book(), id);
      var strategy := orderidStrategyMap[id];
      var ids := Of(strategyOrderidMap, strategy.strategyName);
      if id in ids && !order.IsActive() {
        ids := ids - {id};
      }
      strategyOrderidMap := strategyOrderidMap[strategy.strategyName := ids];
      ghost var gone := if order.status in {ALLTRADED, Status.CANCELLED, REJECTED} then {id} else {};
      ActiveOrFinal(order);
      ghost var after := Finished(old(Book()), strategy.strategyName, gone);
      assert ids == Of(old(strategyOrderidMap), strategy.strategyName) - gone;
      assert Book() == after;
      FinishedOk(Team(), old(Book()), strategy.strategyName, gone);
      TellStrategy(strategy, order, fuel);
      ProgressKeepsTrading(Team(), after, Book());
      ProgressGrows(Team(), after, Book());
      FinishedStaysOut(Team(), old(Book()), Book(), strategy.strategyName, id, gone);
    }

    /** A trade as it is heard of now. */
    ghost function Delivered(trade: TradeData): Delivery<CtaTemplate>
      reads `orderidStrategyMap
    {
      Delivery(trade, if trade.ktOrderid in orderidStrategyMap then Some(orderidStrategyMap[trade.ktOrderid]) else None)
    }

    /** The first part of `process_trade_event`: the strategy whose position has changed, if any. */
    method Credit(trade: TradeData) returns (owner: Option<CtaTemplate>)
      requires PosOk()
      requires trade.ktOrderid in orderidStrategyMap ==> orderidStrategyMap[trade.ktOrderid] in known
      modifies `ktTradeids, `deliveries, known`pos
      ensures PosOk() && deliveries == old(deliveries) + [Delivered(trade)]
      ensures owner == if trade.ktTradeid in old(ktTradeids) then None else Delivered(trade).owner
    {
      hide Heard, Credited;
      deliveries := deliveries + [Delivered(trade)];
      forall s <- known { OneDelivery(old(deliveries), Delivered(trade), s); }
      HeardMore(old(deliveries), Delivered(trade));
      if trade.ktTradeid in ktTradeids {
        return None;
      }
      ktTradeids := ktTradeids + {trade.ktTradeid};
      if trade.ktOrderid !in orderidStrategyMap {
        return None;
      }
      var strategy := orderidStrategyMap[trade.ktOrderid];
      if trade.direction == LONG {
        strategy.pos := strategy.pos + trade.volume;
      } else {
        strategy.pos := strategy.pos - trade.volume;
      }
      return Some(strategy);
    }

    /** `process_trade_event`: a trade id counts once, and only for the strategy that owns the order. With
        `Valid` this determines every position. */
    method ProcessTradeEvent(trade: TradeData, fuel: nat)
      requires Valid()
      modifies `ktTradeids, `deliveries, known`pos
      modifies `orderidStrategyMap, `strategyOrderidMap, `stopOrderCount, `stopOrders, `given, `trace
      ensures Valid() && Progress(Team(), old(Book()), Book())
      ensures deliveries == old(deliveries) + [old(Delivered(trade))]
    {
      hide Linked, Progress, RosterOk, AllTrading, PosOk;
      ProgressRefl(Team(), Book());
      if trade.ktOrderid in orderidStrategyMap {
        OwnerKnown(Team(), Book(), trade.ktOrderid);
      }
      var owner := Credit(trade);
      if owner.None? {
        return;
      }
      React(owner.value, fuel);
      ProgressKeepsTrading(Team(), old(Book()), Book());
    }

    // ---- the life of a strategy ----

    /** `add_strategy`. */
    method AddStrategy(className: string, name: string, ktSymbol: string)
      requires Valid()
      modifies `strategies, `symbolStrategyMap, `known
      ensures Valid() && known >= old(known) && fresh(known - old(known))
      ensures if name in old(strategies) || className !in classes || '.' !in ktSymbol then
                strategies == old(strategies) && symbolStrategyMap == old(symbolStrategyMap) && known == old(known)
              else
                && name in strategies && fresh(strategies[name])
                && strategies[name].strategyName == name && strategies[name].ktSymbol == ktSymbol
                && !strategies[name].inited && !strategies[name].trading && strategies[name].pos == 0
                && strategies == old(strategies)[name := strategies[name]]
    {
      hide Linked, RosterOk, AllTrading, Heard, Credited;
      if name in strategies {
        return;
      }
      if className !in classes {
        return;
      }
      if FindDot(ktSymbol, 0) == |ktSymbol| {
        return;
      }
      ghost var r := Team();
      var strategy := new CtaTemplate(name, ktSymbol);
      NeverOwnedNothing(deliveries, strategy);
      known := known + {strategy};
      strategies := strategies[name := strategy];
      var listed := if ktSymbol in symbolStrategyMap then symbolStrategyMap[ktSymbol] else [];
      symbolStrategyMap := symbolStrategyMap[ktSymbol := listed + [strategy]];
      assert Team() == More(r, strategy);
      StrategyAdded(r, Book(), strategy);
    }

    /** `init_strategy`. */
    method InitStrategy(name: string, fuel: nat)
      requires Valid() && name in strategies
      modifies known`inited
      modifies `orderidStrategyMap, `strategyOrderidMap, `stopOrderCount, `stopOrders, `given, `trace
      ensures Valid() && Progress(Team(), old(Book()), Book()) && strategies[name].inited
    {
      hide Linked, RosterOk, Progress, AllTrading, PosOk;
      FiledUnderOwnName(Team(), name);
      var strategy := strategies[name];
      ProgressRefl(Team(), Book());
      if strategy.inited {
        return;
      }
      React(strategy, fuel);
      strategy.inited := true;
      ProgressKeepsTrading(Team(), old(Book()), Book());
    }

    method SetTrading(s: CtaTemplate, trading: bool)
      requires s in known
      modifies s`trading
      ensures Team() == old(Team()).(
                          trading := if trading then old(Team()).trading + {s} else old(Team()).trading - {s})
      ensures s.trading == trading && (old(PosOk()) ==> PosOk())
    {
      s.trading := trading;
    }

    ghost method EnterStarted(name: string)
      modifies `running, `trace
      ensures Book() == Begun(old(Book()), name) && Team() == old(Team()) && (old(PosOk()) ==> PosOk())
    {
      running, trace := running + {name}, trace + [Started(name)];
    }

    ghost method EnterStopped(name: string)
      modifies `running, `trace
      ensures Book() == Halted(old(Book()), name) && Team() == old(Team()) && (old(PosOk()) ==> PosOk())
    {
      running, trace := running - {name}, trace + [Stopped(name)];
    }

    /** `start_strategy`. Nothing can be sent from `on_start`, since trading starts after it. */
    method StartStrategy(name: string, fuel: nat)
      requires Valid() && name in strategies
      modifies known`trading, `running
      modifies `orderidStrategyMap, `strategyOrderidMap, `stopOrderCount, `stopOrders, `given, `trace
      ensures Valid()
      ensures Book() == if old(strategies[name].trading) || !strategies[name].inited then old(Book())
                        else Begun(old(Book()), name)
      ensures Team().trading == old(Team()).trading + if strategies[name].inited then {strategies[name]} else {}
    {
      hide Linked, RosterOk, AllTrading, Registered, PosOk;
      FiledUnderOwnName(Team(), name);
      var strategy := strategies[name];
      if !strategy.inited {
        return;
      }
      if strategy.trading {
        return;
      }
      React(strategy, fuel);
      StartedOk(Team(), Book(), strategy);
      SetTrading(strategy, true);
      EnterStarted(name);
    }

    /** `stop_strategy`: in the end the strategy does not trade and no stop order names it, and stop orders of
        other strategies are gone only if a strategy asked for their cancel. */
    method StopStrategy(name: string, fuel: nat)
      requires Valid() && name in strategies
      modifies known`trading, `running
      modifies `orderidStrategyMap, `strategyOrderidMap, `stopOrderCount, `stopOrders, `given, `trace
      ensures Valid() && Progress(Team(), old(Book()), Book())
      ensures Team() == old(Team()).(trading := old(Team()).trading - {strategies[name]})
      ensures running == old(running) - {name}
      ensures forall id <- stopOrders :: stopOrders[id].strategyName != name
      ensures forall id <- old(stopOrders) :: WaitsOn(old(Book()), Book(), id, false)
      ensures fuel == 0 ==> stopOrders == WithoutOwner(old(stopOrders), name)
    {
      hide Linked, RosterOk, Progress, AllTrading, Registered, Dealt, PosOk, WaitsOn, Of, Issued;
      FiledUnderOwnName(Team(), name);
      ghost var r, start := Team(), Book();
      var strategy := strategies[name];
      if !strategy.trading {
        assert r.trading - {strategy} == r.trading && r == r.(trading := r.trading - {strategy});
        ProgressRefl(Team(), Book());
        IdleHasNoStops(Team(), Book(), strategy);
        AllWait(start);
        return;
      }
      React(strategy, fuel);
      ProgressKeepsTrading(Team(), start, Book());
      ghost var stopping := Book();
      StoppingOk(r, stopping, strategy);
      TradersRun(r, stopping);
      SetTrading(strategy, false);
      ghost var r' := Team();
      assert r' == r.(trading := r.trading - {strategy}) && PosOk();
      CancelAll(strategy, fuel);
      assert Team() == r' && PosOk();
      ghost var stopped := Book();
      StoppedTrading(r, r', strategy, stopping, stopped, orders, |stopping.trace|);
      StopsOfOthers(r, start, name);
      StopEnded(r, r', strategy, start, stopping, stopped);
      EnterStopped(name);
    }

    /** The loop of `remove_strategy` over the ids of the strategy. */
    method ForgetOwners(ktOrderids: set<string>)
      modifies `orderidStrategyMap
      ensures orderidStrategyMap == old(orderidStrategyMap) - ktOrderids
    {
      var left := ktOrderids;
      while left != {}
        invariant left <= ktOrderids
        invariant orderidStrategyMap == old(orderidStrategyMap) - (ktOrderids - left)
        decreases left
      {
        var ktOrderid :| ktOrderid in left;
        left := left - {ktOrderid};
        if ktOrderid in orderidStrategyMap {
          orderidStrategyMap := orderidStrategyMap - {ktOrderid};
        }
      }
    }

    method ForgetOrders(name: string)
      modifies `orderidStrategyMap, `strategyOrderidMap
      ensures Book() == Less(old(Book()), name)
    {
      if name in strategyOrderidMap {
        ForgetOwners(strategyOrderidMap[name]);
        strategyOrderidMap := strategyOrderidMap - {name};
      }
    }

    /** `remove_strategy`: refused while trading; otherwise no stop order is lost or orphaned, and the ids in
        its set are forgotten. */
    method RemoveStrategy(name: string) returns (ok: bool)
      requires Valid() && name in strategies
      modifies `strategies, `symbolStrategyMap, `orderidStrategyMap, `strategyOrderidMap
      ensures Valid() && stopOrders == old(stopOrders)
      ensures ok <==> !old(strategies[name].trading)
      ensures !ok ==> strategies == old(strategies) && orderidStrategyMap == old(orderidStrategyMap)
                      && strategyOrderidMap == old(strategyOrderidMap)
      ensures ok ==> strategies == old(strategies) - {name} && strategyOrderidMap == old(strategyOrderidMap) - {name}
      ensures ok ==> orderidStrategyMap == old(orderidStrategyMap) - old(Of(strategyOrderidMap, name))
      ensures ok ==> forall id <- stopOrders :: stopOrders[id].strategyName in strategies
    {
      hide Linked, RosterOk, AllTrading, PosOk, Registered, Without;
      FiledUnderOwnName(Team(), name);
      var strategy := strategies[name];
      if strategy.trading {
        return false;
      }
      ghost var r, o := Team(), Book();
      StrategyRemoved(r, o, strategy);
      var listed := symbolStrategyMap[strategy.ktSymbol];
      symbolStrategyMap := symbolStrategyMap[strategy.ktSymbol := Without(listed, strategy)];
      ForgetOrders(name);
      strategies := strategies - {name};
      assert Team().trading == r.trading;
      assert Team() == Fewer(r, strategy);
      assert Book() == Less(o, name);
      OwnersNamed(Team(), Book());
      return true;
    }

    // ---- whole runs ----

    /** Any sequence of calls from outside, each with callbacks of any extent. */
    method Serve(inputs: seq<Input>, fuel: nat)
      requires Valid()
      modifies this, known
      ensures Valid() && known >= old(known) && fresh(known - old(known))
      ensures old(trace) <= trace && Legal(trace) && Replayed(trace).live == stopOrders
      ensures TradesOf(deliveries) == old(TradesOf(deliveries)) + TradesIn(inputs)
      ensures forall s <- known :: s.pos == Credited(deliveries, s)
    {
      hide Linked, RosterOk, Progress, AllTrading;
      for i := 0 to |inputs|
        invariant Valid() && known >= old(known) && fresh(known - old(known)) && old(trace) <= trace
        invariant TradesOf(deliveries) == old(TradesOf(deliveries)) + TradesIn(inputs[..i])
      {
        ServeOne(inputs[i], fuel);
        assert inputs[..i + 1][..i] == inputs[..i];
      }
      assert inputs[..|inputs|] == inputs;
      LegalHistory(Team(), Book());
    }

    method ServeOne(input: Input, fuel: nat)
      requires Valid()
      modifies this, known
      ensures Valid() && known >= old(known) && fresh(known - old(known))
      ensures old(trace) <= trace
      ensures TradesOf(deliveries) == old(TradesOf(deliveries)) + if input.OnTrade? then [input.trade] else []
    {
      hide Linked, RosterOk, Progress, AllTrading, Registered, PosOk;
      ghost var before := Book();
      match input
      case OnTick(tick) =>
        ProcessTickEvent(tick, fuel);
        ProgressGrows(Team(), before, Book());
      case OnOrder(order) =>
        FileOrder(order);
        ProcessOrderEvent(order, fuel);
      case OnTrade(trade) =>
        ProcessTradeEvent(trade, fuel);
        ProgressGrows(Team(), before, Book());
      case OnContract(ktSymbol, contract) => FileContract(ktSymbol, contract);
      case Add(className, name, ktSymbol) => AddStrategy(className, name, ktSymbol);
      case Init(name) =>
        if name in strategies {
          InitStrategy(name, fuel);
          ProgressGrows(Team(), before, Book());
        }
      case Start(name) =>
        if name in strategies {
          StartStrategy(name, fuel);
        }
      case Stop(name) =>
        if name in strategies {
          StopStrategy(name, fuel);
          ProgressGrows(Team(), before, Book());
        }
      case Remove(name) =>
        if name in strategies {
          var _ := RemoveStrategy(name);
        }
    }
  }

  datatype Input =
    | OnTick(tick: TickData)
    | OnOrder(order: OrderData)
    | OnTrade(trade: TradeData)
    | OnContract(ktSymbol: string, contract: Contract)
    | Add(className: string, name: string, ktSymbol: string)
    | Init(name: string)
    | Start(name: string)
    | Stop(name: string)
    | Remove(name: string)

  function TradesIn(inputs: seq<Input>): seq<TradeData> {
    if inputs == [] then []
    else
      var last := inputs[|inputs| - 1];
      TradesIn(inputs[..|inputs| - 1]) + if last.OnTrade? then [last.trade] else []
  }

  lemma {:induction false} EveryTradeIn(inputs: seq<Input>, i: nat)
    requires i < |inputs| && inputs[i].OnTrade?
    ensures inputs[i].trade in TradesIn(inputs)
  {
    var n := |inputs| - 1;
    if i < n {
      assert inputs[..n][i] == inputs[i];
      EveryTradeIn(inputs[..n], i);
    }
  }

  /** On any run, the position is the signed sum over the distinct trades of the strategy's orders, if each was
      first heard of while the strategy owned its order. */
  lemma PosOfRun(e: CtaEngine, s: CtaTemplate, owned: set<string>)
    requires e.Valid() && s in e.known && IdsNameTrades(TradesOf(e.deliveries))
    requires OnlyOwned(e.deliveries, s, owned) && FirstHeardWhileOwned(e.deliveries, s, owned)
    ensures s.pos == SetSum(Owned(e.deliveries, owned))
  {
    CreditedSum(e.deliveries, s, owned);
    NothingMissed(e.deliveries, s, owned);
  }

  /** Two runs in which a strategy's orders were filled by the same trades, in whatever order and however often
      these were delivered, leave it in the same position. */
  lemma SameTradesSamePos(e: CtaEngine, s: CtaTemplate, f: CtaEngine, t: CtaTemplate, owned: set<string>)
    requires e.Valid() && s in e.known && f.Valid() && t in f.known
    requires IdsNameTrades(TradesOf(e.deliveries)) && IdsNameTrades(TradesOf(f.deliveries))
    requires OnlyOwned(e.deliveries, s, owned) && FirstHeardWhileOwned(e.deliveries, s, owned)
    requires OnlyOwned(f.deliveries, t, owned) && FirstHeardWhileOwned(f.deliveries, t, owned)
    requires Owned(e.deliveries, owned) == Owned(f.deliveries, owned)
    ensures s.pos == t.pos
  {
    PosOfRun(e, s, owned);
    PosOfRun(f, t, owned);
  }

  /** The legs of a request in some state of the holding. */
  ghost predicate ConverterGives(req: OrderRequest, lock: bool, legs: seq<OrderRequest>) {
    exists b: Holding.Book :: legs == Holding.ConvertedLegs(b, req, lock, true)
  }

  /** Whatever the state of the holding, each leg is the request with another offset and volume, and there is
      one if any volume is asked for. */
  lemma LegsOfRequest(b: Holding.Book, req: OrderRequest, lock: bool)
    ensures var legs := Holding.ConvertedLegs(b, req, lock, true);
            && ConverterGives(req, lock, legs)
            && (forall leg <- legs :: LegOf(leg, req)) && (legs == [] ==> req.volume <= 0)
  {
  }

  lemma LegalHistory(r: Roster, o: Orders)
    requires Linked(r, o)
    ensures Legal(o.trace) && Replayed(o.trace).live == o.stops
  {
  }
}
