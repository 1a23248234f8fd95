/** The maps of the strategy engine as values, what keeps them consistent, and what may happen to them
    while a strategy's callback runs. */
module CtaBook {
  import opened Market
  import opened StopLog

  /** The fields of `CtaTemplate` that the engine works with. */
  class CtaTemplate {
    const strategyName: string
    const ktSymbol: string
    var inited: bool
    var trading: bool
    var pos: int

    constructor (strategyName: string, ktSymbol: string)
      ensures this.strategyName == strategyName && this.ktSymbol == ktSymbol
      ensures !inited && !trading && pos == 0
    {
      this.strategyName := strategyName;
      this.ktSymbol := ktSymbol;
      inited, trading, pos := false, false, 0;
    }
  }

  type Tick = r: real | r > 0.0 witness 1.0
  type Lot = n: int | n > 0 witness 1

  /** The literal that goes out with every request; its braces are never filled in. */
  const REFERENCE := "{APP_NAME}_{strategy.strategy_name}"

  datatype Contract = Contract(
    symbol: string, exchange: Exchange, exchangeName: string, priceTick: Tick, minVolume: Lot, stopSupported: bool)

  // ---- who is registered ----

  /** What stays put while orders come and go. `known` are all strategies ever created. */
  datatype Roster = Roster(
    strategies: map<string, CtaTemplate>, symbols: map<string, seq<CtaTemplate>>,
    contracts: map<string, Contract>, trading: set<CtaTemplate>, known: set<CtaTemplate>)

  predicate Registered(r: Roster, s: CtaTemplate) {
    s.strategyName in r.strategies && r.strategies[s.strategyName] == s
  }

  /** Strategies are filed under their own name and symbol, and only registered ones trade. */
  ghost predicate RosterOk(r: Roster) {
    && (forall n <- r.strategies :: r.strategies[n].strategyName == n && r.strategies[n] in r.known)
    && (forall n <- r.strategies :: r.strategies[n].ktSymbol in r.symbols
                                    && r.strategies[n] in r.symbols[r.strategies[n].ktSymbol])
    && (forall k <- r.symbols, s <- r.symbols[k] :: s.ktSymbol == k && Registered(r, s))
    && (forall s <- r.trading :: Registered(r, s))
  }

  // ---- the order maps ----

  /** `orderid_strategy_map`, `strategy_orderid_map`, `stop_orders`, `stop_order_count`, the ids exchanges
      have given out, the history, and of that the strategies that run and the triggers. */
  datatype Orders = Orders(
    owners: map<string, CtaTemplate>, ids: map<string, set<string>>, stops: map<string, StopOrder>,
    count: nat, given: set<string>, trace: seq<Event>, running: set<string>, triggers: seq<Event>)

  /** A read through `operator[]`. */
  function Of(ids: map<string, set<string>>, name: string): set<string> {
    if name in ids then ids[name] else {}
  }

  /** The stop orders are what the history leaves live. */
  ghost predicate HistoryOk(o: Orders) {
    && Legal(o.trace)
    && Replayed(o.trace).live == o.stops && Replayed(o.trace).count == o.count
    && Replayed(o.trace).requests.Keys == o.given
    && Replayed(o.trace).running == o.running && Triggers(o.trace) == o.triggers
  }

  /** A local id is in `stop_orders` if and only if it is in the set of the strategy it names, which is
      registered and trades a known contract. */
  ghost predicate StopsOk(r: Roster, ids: map<string, set<string>>, stops: map<string, StopOrder>) {
    && (forall id <- stops :: StopOk(r, ids, id, stops[id]))
    && (forall n, id :: id in Of(ids, n) && IsLocal(id) ==> id in stops && stops[id].strategyName == n)
  }

  ghost predicate StopOk(r: Roster, ids: map<string, set<string>>, id: string, so: StopOrder) {
    && IsLocal(id) && so.strategyName in r.strategies && r.strategies[so.strategyName].ktSymbol == so.ktSymbol
    && so.ktSymbol in r.contracts && id in Of(ids, so.strategyName)
  }

  /** A server id in a strategy's set is owned by that strategy. */
  ghost predicate OwnersOk(r: Roster, ids: map<string, set<string>>, owners: map<string, CtaTemplate>,
                           given: set<string>)
  {
    && (forall n, id :: id in Of(ids, n) && !IsLocal(id) ==>
          id in owners && n in r.strategies && owners[id] == r.strategies[n])
    && (forall id <- owners :: !IsLocal(id) && id in given && owners[id] in r.known)
  }

  ghost predicate Linked(r: Roster, o: Orders) {
    && HistoryOk(o) && StopsOk(r, o.ids, o.stops) && OwnersOk(r, o.ids, o.owners, o.given)
    && forall s <- r.trading :: s.strategyName in o.running
  }

  /** The strategies that run are those that trade, and so is that of every stop order. This fails for a moment
      inside `stop_strategy`. */
  ghost predicate AllTrading(r: Roster, o: Orders)
    requires Linked(r, o)
  {
    && (forall id <- o.stops :: r.strategies[o.stops[id].strategyName] in r.trading)
    && (forall n <- o.running :: n in r.strategies && r.strategies[n] in r.trading)
  }

  // ---- one change at a time ----

  function Announced(o: Orders, so: StopOrder): Orders {
    var id, n := so.stopOrderid, so.strategyName;
    o.(ids := o.ids[n := Of(o.ids, n) + {id}], stops := o.stops[id := so], count := o.count + 1,
       trace := o.trace + [Told(so)])
  }

  function TakenOut(o: Orders, name: string, id: string): Orders {
    o.(ids := o.ids[name := Of(o.ids, name) - {id}], stops := o.stops - {id})
  }

  function Withdrawn(o: Orders, name: string, id: string, e: Event): Orders {
    TakenOut(o, name, id).(trace := o.trace + [e], triggers := o.triggers + TriggerIn(e))
  }

  function Recorded(o: Orders, s: CtaTemplate, id: string, leg: OrderRequest, asked: OrderRequest): (b: Orders)
    ensures b.trace == o.trace + [Sent(id, leg, asked)] && b.stops == o.stops
  {
    var n := s.strategyName;
    o.(owners := o.owners[id := s], ids := o.ids[n := Of(o.ids, n) + {id}], given := o.given + {id},
       trace := o.trace + [Sent(id, leg, asked)])
  }

  /** An id that went out for strategy `s` with a leg of `asked`. */
  ghost predicate Placed(o: Orders, id: string, s: CtaTemplate, asked: OrderRequest) {
    && id in o.owners && o.owners[id] == s && id in Of(o.ids, s.strategyName)
    && id in Replayed(o.trace).requests && Replayed(o.trace).requests[id] == asked
  }

  function Finished(o: Orders, name: string, gone: set<string>): Orders {
    o.(ids := o.ids[name := Of(o.ids, name) - gone])
  }

  /** An event that leaves the maps alone. */
  function Noted(o: Orders, e: Event): (b: Orders)
    ensures b.trace == o.trace + [e] && b.stops == o.stops
  {
    o.(trace := o.trace + [e])
  }

  function Begun(o: Orders, name: string): Orders {
    o.(running := o.running + {name}, trace := o.trace + [Started(name)])
  }

  function Halted(o: Orders, name: string): Orders {
    o.(running := o.running - {name}, trace := o.trace + [Stopped(name)])
  }

  // ---- what callbacks may do ----

  /** From `a` to `b` history only grew, owners were only added, no server id has left a set, and whatever is new is
      fresh; a new stop order belongs to a strategy that trades. */
  ghost predicate Progress(r: Roster, a: Orders, b: Orders) {
    && a.count <= b.count && a.given <= b.given && a.trace <= b.trace
    && (forall id <- a.owners :: id in b.owners && b.owners[id] == a.owners[id])
    && (forall id <- b.stops ::
          || (id in a.stops && a.stops[id] == b.stops[id])
          || (!Issued(a.count, id) && b.stops[id].strategyName in r.strategies
              && r.strategies[b.stops[id].strategyName] in r.trading))
    && (forall n, id :: id in Of(b.ids, n) ==> id in Of(a.ids, n) || (!Issued(a.count, id) && id !in a.given))
    && (forall n, id :: id in Of(a.ids, n) && !IsLocal(id) ==> id in Of(b.ids, n))
  }

  lemma ProgressRefl(r: Roster, a: Orders)
    ensures Progress(r, a, a)
  {
  }

  lemma ProgressTrans(r: Roster, a: Orders, b: Orders, c: Orders)
    requires Progress(r, a, b) && Progress(r, b, c)
    ensures Progress(r, a, c)
  {
    forall id | !Issued(b.count, id) ensures !Issued(a.count, id) {}
  }

  lemma ProgressGrows(r: Roster, a: Orders, b: Orders)
    requires Progress(r, a, b)
    ensures a.trace <= b.trace && a.count <= b.count
  {
  }

  lemma ProgressKeepsTrading(r: Roster, a: Orders, b: Orders)
    requires Linked(r, a) && Linked(r, b) && AllTrading(r, a) && Progress(r, a, b) && a.running == b.running
    ensures AllTrading(r, b)
  {
  }

  /** What was issued and is no longer waiting never waits again. */
  lemma GoneForGood(r: Roster, a: Orders, b: Orders, id: string)
    requires Progress(r, a, b) && Issued(a.count, id)
    ensures id in b.stops ==> id in a.stops && a.stops[id] == b.stops[id]
  {
  }

  /** Whatever waits was issued, under its own id. */
  lemma StopsIssued(o: Orders, id: string)
    requires HistoryOk(o) && id in o.stops
    ensures Issued(o.count, id) && o.stops[id].stopOrderid == id && o.stops[id].status == WAITING
  {
    LifeCycle(o.trace, id);
    LiveUnderOwnId(o.trace);
  }

  lemma OfUpdate(ids: map<string, set<string>>, name: string, these: set<string>)
    ensures forall n :: Of(ids[name := these], n) == if n == name then these else Of(ids, n)
  {
    forall n ensures Of(ids[name := these], n) == if n == name then these else Of(ids, n) {
      if n == name {
        assert ids[name := these][n] == these;
      } else {
        assert n in ids[name := these] <==> n in ids;
      }
    }
  }

  /** Taking ids away that are not waiting, or adding server ids, leaves the stop orders alone. */
  lemma StopsKept(r: Roster, ids: map<string, set<string>>, stops: map<string, StopOrder>, name: string,
                  these: set<string>)
    requires StopsOk(r, ids, stops)
    requires forall id | IsLocal(id) :: id in these <==> id in Of(ids, name)
    ensures StopsOk(r, ids[name := these], stops)
  {
    var ids' := ids[name := these];
    OfUpdate(ids, name, these);
    hide Of;
    forall id <- stops ensures StopOk(r, ids', id, stops[id]) {
      assert StopOk(r, ids, id, stops[id]) && id in Of(ids', stops[id].strategyName);
    }
    forall n, id | id in Of(ids', n) && IsLocal(id) ensures id in stops && stops[id].strategyName == n {
      assert id in Of(ids, n);
    }
  }

  lemma StopAdded(r: Roster, ids: map<string, set<string>>, stops: map<string, StopOrder>, id: string, so: StopOrder)
    requires StopsOk(r, ids, stops) && id !in stops
    requires StopOk(r, ids[so.strategyName := Of(ids, so.strategyName) + {id}], id, so)
    ensures StopsOk(r, ids[so.strategyName := Of(ids, so.strategyName) + {id}], stops[id := so])
  {
    var name := so.strategyName;
    var ids', stops' := ids[name := Of(ids, name) + {id}], stops[id := so];
    OfUpdate(ids, name, Of(ids, name) + {id});
    hide Of, IsLocal;
    forall i <- stops' ensures StopOk(r, ids', i, stops'[i]) {
      if i == id {
        assert stops'[i] == so && StopOk(r, ids', id, so);
      } else {
        assert stops'[i] == stops[i] && StopOk(r, ids, i, stops[i]) && i in Of(ids', stops[i].strategyName);
      }
    }
    forall n, i | i in Of(ids', n) && IsLocal(i) ensures i in stops' && stops'[i].strategyName == n {
      if n == name {
        assert i == id || i in Of(ids, name);
      } else {
        assert i in Of(ids, n);
      }
    }
  }

  lemma StopRemoved(r: Roster, ids: map<string, set<string>>, stops: map<string, StopOrder>, id: string)
    requires StopsOk(r, ids, stops) && id in stops
    ensures var n := stops[id].strategyName; StopsOk(r, ids[n := Of(ids, n) - {id}], stops - {id})
  {
    var name := stops[id].strategyName;
    var ids', stops' := ids[name := Of(ids, name) - {id}], stops - {id};
    OfUpdate(ids, name, Of(ids, name) - {id});
    hide Of, IsLocal;
    assert IsLocal(id) by { assert StopOk(r, ids, id, stops[id]); }
    forall i <- stops' ensures StopOk(r, ids', i, stops'[i]) {
      assert StopOk(r, ids, i, stops[i]) && i in Of(ids', stops[i].strategyName);
    }
    forall n, i | i in Of(ids', n) && IsLocal(i) ensures i in stops' && stops'[i].strategyName == n {
      assert i in Of(ids, n);
    }
  }

  lemma OwnersKept(r: Roster, ids: map<string, set<string>>, owners: map<string, CtaTemplate>, given: set<string>,
                   name: string, these: set<string>)
    requires OwnersOk(r, ids, owners, given)
    requires forall id | !IsLocal(id) :: id in these ==> id in Of(ids, name)
    ensures OwnersOk(r, ids[name := these], owners, given)
  {
    var ids' := ids[name := these];
    OfUpdate(ids, name, these);
    hide Of;
    forall n, id | id in Of(ids', n) && !IsLocal(id)
      ensures id in owners && n in r.strategies && owners[id] == r.strategies[n]
    {
      assert id in Of(ids, n);
    }
  }

  lemma OwnerAdded(r: Roster, ids: map<string, set<string>>, owners: map<string, CtaTemplate>, given: set<string>,
                   s: CtaTemplate, id: string)
    requires OwnersOk(r, ids, owners, given) && Registered(r, s) && s in r.known && id !in given && !IsLocal(id)
    ensures var n := s.strategyName;
            OwnersOk(r, ids[n := Of(ids, n) + {id}], owners[id := s], given + {id})
  {
    var ids' := ids[s.strategyName := Of(ids, s.strategyName) + {id}];
    OfUpdate(ids, s.strategyName, Of(ids, s.strategyName) + {id});
    hide Of;
    forall n, i | i in Of(ids', n) && !IsLocal(i)
      ensures i in owners[id := s] && n in r.strategies && owners[id := s][i] == r.strategies[n]
    {
      assert i == id || i in Of(ids, n);
    }
  }

  lemma AnnouncedHistory(o: Orders, so: StopOrder)
    requires HistoryOk(o) && so.status == WAITING && so.ktOrderids == [] && so.stopOrderid == LocalId(o.count + 1)
    requires so.strategyName in o.running
    ensures HistoryOk(Announced(o, so)) && so.stopOrderid !in o.stops && so.stopOrderid !in o.given
    ensures !Issued(o.count, so.stopOrderid)
  {
    var id := so.stopOrderid;
    OneMore(o.trace, Told(so));
    NextIsNew(o.count);
    hide Legal, Replayed, Triggers, LocalId, Issued, Of;
    assert id !in o.stops by { if id in o.stops { StopsIssued(o, id); } }
    assert id !in o.given by { if id in o.given { RequestsAreServerIds(o.trace, id); } }
  }

  lemma AnnouncedOk(r: Roster, o: Orders, so: StopOrder)
    requires RosterOk(r) && Linked(r, o)
    requires so.status == WAITING && so.ktOrderids == [] && so.stopOrderid == LocalId(o.count + 1)
    requires so.strategyName in r.strategies && r.strategies[so.strategyName] in r.trading
    requires so.ktSymbol == r.strategies[so.strategyName].ktSymbol && so.ktSymbol in r.contracts
    ensures Linked(r, Announced(o, so)) && Progress(r, o, Announced(o, so))
  {
    var id, n := so.stopOrderid, so.strategyName;
    FiledUnderOwnName(r, n);
    AnnouncedHistory(o, so);
    hide HistoryOk, LocalId, Issued, RosterOk;
    StopAdded(r, o.ids, o.stops, id, so);
    OwnersKept(r, o.ids, o.owners, o.given, n, Of(o.ids, n) + {id});
    IdAdded(o.ids, n, id);
    hide StopsOk, OwnersOk, Of, IsLocal;
  }

  lemma IdAdded(ids: map<string, set<string>>, name: string, id: string)
    ensures forall n, i :: i in Of(ids[name := Of(ids, name) + {id}], n) ==> i in Of(ids, n) || i == id
    ensures forall n, i :: i in Of(ids, n) ==> i in Of(ids[name := Of(ids, name) + {id}], n)
  {
    OfUpdate(ids, name, Of(ids, name) + {id});
  }

  lemma IdsTaken(ids: map<string, set<string>>, name: string, gone: set<string>)
    ensures forall n, i :: i in Of(ids[name := Of(ids, name) - gone], n) ==> i in Of(ids, n)
    ensures forall n, i :: i in Of(ids, n) && i !in gone ==> i in Of(ids[name := Of(ids, name) - gone], n)
  {
    OfUpdate(ids, name, Of(ids, name) - gone);
  }

  lemma WithdrawnHistory(o: Orders, name: string, id: string, e: Event)
    requires HistoryOk(o) && (e.Cancelled? || e.Fired?)
    requires e.order.stopOrderid == id && Allowed(Replayed(o.trace), e)
    ensures HistoryOk(Withdrawn(o, name, id, e))
  {
    OneMore(o.trace, e);
    hide Legal, Replayed, Triggers, Allowed, Of;
  }

  lemma WithdrawnOk(r: Roster, o: Orders, id: string, e: Event)
    requires Linked(r, o) && id in o.stops
    requires e.Cancelled? || e.Fired?
    requires e.order.stopOrderid == id && Allowed(Replayed(o.trace), e)
    ensures var b := Withdrawn(o, o.stops[id].strategyName, id, e);
            Linked(r, b) && Progress(r, o, b) && id !in b.stops
  {
    var n := o.stops[id].strategyName;
    WithdrawnHistory(o, n, id, e);
    assert IsLocal(id) by { assert StopOk(r, o.ids, id, o.stops[id]); }
    StopRemoved(r, o.ids, o.stops, id);
    OwnersKept(r, o.ids, o.owners, o.given, n, Of(o.ids, n) - {id});
    IdsTaken(o.ids, n, {id});
    hide HistoryOk, Replayed, LocalId, Issued, Allowed, StopsOk, OwnersOk, Of, TriggerIn;
  }

  lemma ServerIdNeverIssued(count: nat, id: string)
    requires !IsLocal(id)
    ensures !Issued(count, id)
  {
  }

  lemma RecordedHistory(o: Orders, s: CtaTemplate, id: string, leg: OrderRequest, asked: OrderRequest)
    requires HistoryOk(o) && id != "" && !IsLocal(id) && id !in o.given && LegOf(leg, asked)
    ensures HistoryOk(Recorded(o, s, id, leg, asked))
  {
    OneMore(o.trace, Sent(id, leg, asked));
    hide Legal, Replayed, Triggers, IsLocal, LegOf, Of;
  }

  lemma RecordedOk(r: Roster, o: Orders, s: CtaTemplate, id: string, leg: OrderRequest, asked: OrderRequest)
    requires RosterOk(r) && Linked(r, o) && Registered(r, s)
    requires id != "" && !IsLocal(id) && id !in o.given && LegOf(leg, asked)
    ensures var b := Recorded(o, s, id, leg, asked); Linked(r, b) && Progress(r, o, b)
  {
    var n := s.strategyName;
    RecordedHistory(o, s, id, leg, asked);
    ServerIdNeverIssued(o.count, id);
    StopsKept(r, o.ids, o.stops, n, Of(o.ids, n) + {id});
    OwnerAdded(r, o.ids, o.owners, o.given, s, id);
    assert id !in o.owners;
    IdAdded(o.ids, n, id);
    hide HistoryOk, LocalId, Issued, StopsOk, OwnersOk, RosterOk, Of, LegOf, IsLocal;
  }

  lemma RecordedPlaces(r: Roster, o: Orders, s: CtaTemplate, id: string, leg: OrderRequest, asked: OrderRequest)
    requires Linked(r, o) && id !in o.given
    ensures Placed(Recorded(o, s, id, leg, asked), id, s, asked)
    ensures forall i, t, q :: Placed(o, i, t, q) ==> Placed(Recorded(o, s, id, leg, asked), i, t, q)
  {
    OneMore(o.trace, Sent(id, leg, asked));
    hide Legal, Replayed, Triggers, StopsOk, OwnersOk;
    OfUpdate(o.ids, s.strategyName, Of(o.ids, s.strategyName) + {id});
  }

  /** A request that the converter has split may be entered. */
  lemma RequestOk(r: Roster, o: Orders, asked: OrderRequest, legs: seq<OrderRequest>)
    requires Linked(r, o) && (forall leg <- legs :: LegOf(leg, asked)) && (legs == [] ==> asked.volume <= 0)
    ensures var b := Noted(o, Requested(asked, legs)); Linked(r, b) && Progress(r, o, b)
  {
    hide Linked, Progress, LegOf;
    NotedOk(r, o, Requested(asked, legs));
  }

  /** A refused leg changes nothing else. */
  lemma DeclinedOk(r: Roster, o: Orders, leg: OrderRequest, asked: OrderRequest)
    requires Linked(r, o) && LegOf(leg, asked)
    ensures var b := Noted(o, Declined(leg, asked)); Linked(r, b) && Progress(r, o, b)
    ensures forall i, t, q :: Placed(o, i, t, q) ==> Placed(Noted(o, Declined(leg, asked)), i, t, q)
  {
    OneMore(o.trace, Declined(leg, asked));
    hide Linked, Progress, LegOf, Of;
    NotedOk(r, o, Declined(leg, asked));
  }

  lemma FinishedOk(r: Roster, o: Orders, name: string, gone: set<string>)
    requires Linked(r, o) && forall id <- gone :: !IsLocal(id)
    ensures var b := Finished(o, name, gone); Linked(r, b) && (AllTrading(r, o) ==> AllTrading(r, b))
  {
    StopsKept(r, o.ids, o.stops, name, Of(o.ids, name) - gone);
    OwnersKept(r, o.ids, o.owners, o.given, name, Of(o.ids, name) - gone);
    IdsTaken(o.ids, name, gone);
    hide Legal, Replayed, Triggers, StopsOk, OwnersOk, Of;
  }

  /** Since the history was `from` long, the order was cancelled here or its exchange was asked to. */
  ghost predicate Dealt(o: Orders, orders: map<string, OrderData>, id: string, from: nat) {
    if IsLocal(id) then id !in o.stops
    else id in orders ==> exists i :: from <= i < |o.trace| && o.trace[i] == CancelAsked(id)
  }

  ghost predicate AllIssued(o: Orders, these: set<string>) {
    forall id <- these :: IsLocal(id) ==> Issued(o.count, id)
  }

  lemma ListedIssued(r: Roster, o: Orders, name: string)
    requires Linked(r, o)
    ensures AllIssued(o, Of(o.ids, name))
  {
    hide IsLocal, Issued, Legal, Replayed;
    forall id <- Of(o.ids, name) | IsLocal(id) ensures Issued(o.count, id) { StopsIssued(o, id); }
  }

  lemma StillIssued(r: Roster, a: Orders, b: Orders, these: set<string>)
    requires AllIssued(a, these) && Progress(r, a, b)
    ensures AllIssued(b, these)
  {
    hide IsLocal;
  }

  lemma DealtStays(r: Roster, a: Orders, b: Orders, orders: map<string, OrderData>, all: set<string>,
                   open: set<string>, from: nat)
    requires Progress(r, a, b) && AllIssued(a, all)
    requires forall id <- all - open :: Dealt(a, orders, id, from)
    ensures forall id <- all - open :: Dealt(b, orders, id, from)
  {
    hide IsLocal, Issued;
    forall id <- all - open ensures Dealt(b, orders, id, from) {
      assert Dealt(a, orders, id, from);
      if !IsLocal(id) && id in orders {
        var i :| from <= i < |a.trace| && a.trace[i] == CancelAsked(id);
        assert b.trace[i] == CancelAsked(id);
      }
    }
  }

  lemma DealtSooner(o: Orders, orders: map<string, OrderData>, id: string, from: nat, sooner: nat)
    requires Dealt(o, orders, id, from) && sooner <= from
    ensures Dealt(o, orders, id, sooner)
  {
  }

  /** What the look-ups about a waiting stop order find. */
  lemma StopIsListed(r: Roster, o: Orders, id: string)
    requires RosterOk(r) && Linked(r, o) && id in o.stops
    ensures var so := o.stops[id];
            && so.strategyName in r.strategies && r.strategies[so.strategyName].strategyName == so.strategyName
            && Registered(r, r.strategies[so.strategyName]) && r.strategies[so.strategyName] in r.known
            && so.ktSymbol in r.contracts && so.ktSymbol == r.strategies[so.strategyName].ktSymbol
            && so.stopOrderid == id && so.status == WAITING && Issued(o.count, id) && IsLocal(id)
            && forall n <- o.running ::
                 Allowed(Replayed(o.trace), Cancelled(so.(status := StopOrderStatus.CANCELLED), n))
  {
    StopsIssued(o, id);
    hide Legal, Replayed, Triggers, Issued, IsLocal;
    assert StopOk(r, o.ids, id, o.stops[id]);
  }

  lemma NotedOk(r: Roster, o: Orders, e: Event)
    requires Linked(r, o) && Allowed(Replayed(o.trace), e)
    requires e.Requested? || e.Declined? || e.CancelAsked?
    ensures Linked(r, Noted(o, e)) && Progress(r, o, Noted(o, e))
  {
    OneMore(o.trace, e);
    hide Legal, Replayed, Triggers, StopsOk, OwnersOk, Allowed;
  }

  // ---- steps that change who is registered or trades ----

  /** Reading a symbol's list through `operator[]` leaves an empty one behind. */
  function Looked(r: Roster, symbol: string): Roster {
    r.(symbols := r.symbols[symbol := if symbol in r.symbols then r.symbols[symbol] else []])
  }

  lemma RosterLooked(r: Roster, symbol: string)
    requires RosterOk(r)
    ensures RosterOk(Looked(r, symbol))
  {
    var r' := Looked(r, symbol);
    forall k <- r'.symbols, s <- r'.symbols[k] ensures s.ktSymbol == k && Registered(r', s) {
      assert s in r.symbols[k];
    }
  }

  lemma SymbolLooked(r: Roster, o: Orders, symbol: string)
    requires RosterOk(r) && Linked(r, o) && AllTrading(r, o)
    ensures RosterOk(Looked(r, symbol)) && Linked(Looked(r, symbol), o) && AllTrading(Looked(r, symbol), o)
  {
    RosterLooked(r, symbol);
    hide RosterOk, Linked, AllTrading;
    SameStops(r, Looked(r, symbol), o);
  }

  lemma ListedKnown(r: Roster, symbol: string)
    requires RosterOk(r) && symbol in r.symbols
    ensures forall s <- r.symbols[symbol] :: s in r.known
  {
    forall s <- r.symbols[symbol] ensures s in r.known { assert Registered(r, s); }
  }

  /** Nothing known in `r` is missing in `r'`. */
  ghost predicate Extends(r: Roster, r': Roster) {
    && (forall n <- r.strategies :: n in r'.strategies && r'.strategies[n] == r.strategies[n])
    && r.contracts.Keys <= r'.contracts.Keys && r.known <= r'.known
  }

  /** The order maps look only at registered names, known contracts and known strategies. */
  lemma SameStops(r: Roster, r': Roster, o: Orders)
    requires Extends(r, r') && Linked(r, o) && r'.trading <= r.trading
    ensures Linked(r', o) && (AllTrading(r, o) && r.trading == r'.trading ==> AllTrading(r', o))
  {
    hide HistoryOk, Of, IsLocal;
    forall id <- o.stops ensures StopOk(r', o.ids, id, o.stops[id]) { assert StopOk(r, o.ids, id, o.stops[id]); }
  }

  lemma NobodyWaits(r: Roster, o: Orders, symbol: string)
    requires RosterOk(r) && Linked(r, o)
    requires symbol !in r.symbols || r.symbols[symbol] == []
    ensures forall id <- o.stops :: o.stops[id].ktSymbol != symbol
  {
    hide HistoryOk, Of, IsLocal;
    forall id <- o.stops ensures o.stops[id].ktSymbol != symbol { assert StopOk(r, o.ids, id, o.stops[id]); }
  }

  lemma ContractFiled(r: Roster, r': Roster, o: Orders, symbol: string, c: Contract)
    requires RosterOk(r) && Linked(r, o) && AllTrading(r, o)
    requires r' == r.(contracts := r.contracts[symbol := c])
    ensures RosterOk(r') && Linked(r', o) && AllTrading(r', o)
  {
    hide Linked, AllTrading;
    SameStops(r, r', o);
  }

  /** Whoever trades runs. */
  lemma TradersRun(r: Roster, o: Orders)
    requires Linked(r, o)
    ensures forall s <- r.trading :: s.strategyName in o.running
  {
  }

  lemma StartedOk(r: Roster, o: Orders, s: CtaTemplate)
    requires RosterOk(r) && Linked(r, o) && AllTrading(r, o) && Registered(r, s) && s !in r.trading
    ensures var r', b := r.(trading := r.trading + {s}), Begun(o, s.strategyName);
            RosterOk(r') && Linked(r', b) && AllTrading(r', b)
  {
    StartedHistory(o, s.strategyName);
    hide HistoryOk, StopsOk, OwnersOk;
    StopsAnywhere(r, r.(trading := r.trading + {s}), o);
  }

  lemma StartedHistory(o: Orders, name: string)
    requires HistoryOk(o) && name !in o.running
    ensures HistoryOk(Begun(o, name))
  {
    OneMore(o.trace, Started(name));
    hide Legal, Replayed, Triggers;
  }

  lemma StopsAnywhere(r: Roster, r': Roster, o: Orders)
    requires r' == r.(trading := r'.trading) && Linked(r, o)
    ensures StopsOk(r', o.ids, o.stops) && OwnersOk(r', o.ids, o.owners, o.given)
  {
    hide HistoryOk, Of, IsLocal;
    forall id <- o.stops ensures StopOk(r', o.ids, id, o.stops[id]) { assert StopOk(r, o.ids, id, o.stops[id]); }
  }

  /** A strategy no longer trades, and its stop goes on. */
  lemma StoppingOk(r: Roster, o: Orders, s: CtaTemplate)
    requires RosterOk(r) && Linked(r, o)
    ensures var r' := r.(trading := r.trading - {s}); RosterOk(r') && Linked(r', o)
  {
    hide Linked, AllTrading;
    SameStops(r, r.(trading := r.trading - {s}), o);
  }

  /** The end of a stop: nothing names the strategy any more. */
  lemma HaltedOk(r: Roster, r': Roster, s: CtaTemplate, o: Orders)
    requires RosterOk(r) && Registered(r, s) && s in r.trading && r' == r.(trading := r.trading - {s})
    requires Linked(r', o) && s.strategyName in o.running
    requires forall n <- o.running :: n in r.strategies && r.strategies[n] in r.trading
    requires forall id <- o.stops ::
               o.stops[id].strategyName != s.strategyName && r.strategies[o.stops[id].strategyName] in r'.trading
    ensures var b := Halted(o, s.strategyName); Linked(r', b) && AllTrading(r', b) && Progress(r', o, b)
  {
    OneMore(o.trace, Stopped(s.strategyName));
    hide Legal, Replayed, Triggers, StopsOk, OwnersOk;
  }

  /** Everything the stopped strategy waited for is gone, and it cannot have asked for more. */
  lemma StoppedTrading(r: Roster, r': Roster, s: CtaTemplate, a: Orders, b: Orders, orders: map<string, OrderData>,
                       from: nat)
    requires RosterOk(r) && Registered(r, s) && r' == r.(trading := r.trading - {s})
    requires Linked(r, a) && AllTrading(r, a) && Linked(r', b) && Progress(r', a, b)
    requires forall id <- Of(a.ids, s.strategyName) :: Dealt(b, orders, id, from)
    ensures forall id <- b.stops ::
              b.stops[id].strategyName != s.strategyName && r.strategies[b.stops[id].strategyName] in r'.trading
  {
    hide HistoryOk, Issued, OwnersOk;
    forall id <- b.stops
      ensures r.strategies[b.stops[id].strategyName] in r'.trading && b.stops[id].strategyName != s.strategyName
    {
      assert StopOk(r', b.ids, id, b.stops[id]);
      if id in a.stops && a.stops[id] == b.stops[id] {
        assert StopOk(r, a.ids, id, a.stops[id]);
        assert b.stops[id].strategyName == s.strategyName ==> Dealt(b, orders, id, from);
      }
    }
  }

  /** What callbacks did before and during a stop, seen from its end. */
  lemma ProgressAcrossStop(r: Roster, r': Roster, a: Orders, m: Orders, b: Orders)
    requires Progress(r, a, m) && Progress(r', m, b) && r' == r.(trading := r'.trading)
    requires forall id <- b.stops ::
               b.stops[id].strategyName in r.strategies && r.strategies[b.stops[id].strategyName] in r'.trading
    ensures Progress(r', a, b)
  {
    forall id | !Issued(m.count, id) ensures !Issued(a.count, id) {}
  }

  /** At its end a stop keeps everything consistent, and orders are gone only by cancels. */
  lemma StopEnded(r: Roster, r': Roster, s: CtaTemplate, a: Orders, m: Orders, b: Orders)
    requires RosterOk(r) && Registered(r, s) && s in r.trading && r' == r.(trading := r.trading - {s})
    requires Linked(r, a) && AllTrading(r, a) && Linked(r, m) && Linked(r', b)
    requires Progress(r, a, m) && Progress(r', m, b)
    requires a.running == m.running == b.running && a.triggers == b.triggers
    requires forall id <- b.stops ::
               b.stops[id].strategyName != s.strategyName && r.strategies[b.stops[id].strategyName] in r'.trading
    ensures var c := Halted(b, s.strategyName);
            Linked(r', c) && AllTrading(r', c) && Progress(r', a, c)
            && forall id <- a.stops :: WaitsOn(a, c, id, false)
  {
    TradersRun(r, a);
    TradingRuns(r, a);
    HaltedOk(r, r', s, b);
    OwnersNamed(r', b);
    hide Linked, RosterOk;
    ProgressAcrossStop(r, r', a, m, b);
    var c := Halted(b, s.strategyName);
    ProgressTrans(r', a, b, c);
    hide Progress, WaitsOn, AllTrading;
    StoppingOk(r, a, s);
    forall id <- a.stops ensures WaitsOn(a, c, id, false) { NoTriggerWaitsOn(r', a, c, id); }
  }

  lemma TradingRuns(r: Roster, o: Orders)
    requires Linked(r, o) && AllTrading(r, o)
    ensures forall n <- o.running :: n in r.strategies && r.strategies[n] in r.trading
  {
  }

  lemma IdleHasNoStops(r: Roster, o: Orders, s: CtaTemplate)
    requires RosterOk(r) && Linked(r, o) && AllTrading(r, o) && Registered(r, s) && s !in r.trading
    ensures s.strategyName !in o.running
    ensures forall id <- o.stops :: o.stops[id].strategyName != s.strategyName
    ensures WithoutOwner(o.stops, s.strategyName) == o.stops
  {
  }

  lemma AllWait(o: Orders)
    ensures forall id <- o.stops :: WaitsOn(o, o, id, false)
  {
  }

  lemma StopIdsLocal(r: Roster, o: Orders, id: string)
    requires Linked(r, o)
    ensures id in o.stops ==> IsLocal(id)
  {
    if id in o.stops { assert StopOk(r, o.ids, id, o.stops[id]); }
  }

  function WithoutOwner(stops: map<string, StopOrder>, name: string): map<string, StopOrder> {
    map id <- stops | stops[id].strategyName != name :: stops[id]
  }

  /** The stop orders that name a strategy are those of its set. */
  lemma StopsOfOthers(r: Roster, o: Orders, name: string)
    requires Linked(r, o)
    ensures o.stops - Of(o.ids, name) == WithoutOwner(o.stops, name)
  {
    hide HistoryOk, Of;
    forall id <- o.stops ensures id in Of(o.ids, name) <==> o.stops[id].strategyName == name {
      assert StopOk(r, o.ids, id, o.stops[id]);
    }
  }

  function More(r: Roster, s: CtaTemplate): Roster {
    Roster(r.strategies[s.strategyName := s],
           r.symbols[s.ktSymbol := (if s.ktSymbol in r.symbols then r.symbols[s.ktSymbol] else []) + [s]],
           r.contracts, r.trading, r.known + {s})
  }

  lemma StrategyAdded(r: Roster, o: Orders, s: CtaTemplate)
    requires RosterOk(r) && Linked(r, o) && AllTrading(r, o) && s.strategyName !in r.strategies
    ensures RosterOk(More(r, s)) && Linked(More(r, s), o) && AllTrading(More(r, s), o)
  {
    RosterGrows(r, s);
    hide Linked, AllTrading, RosterOk;
    SameStops(r, More(r, s), o);
  }

  lemma RosterGrows(r: Roster, s: CtaTemplate)
    requires RosterOk(r) && s.strategyName !in r.strategies
    ensures RosterOk(More(r, s))
  {
    var r' := More(r, s);
    forall k <- r'.symbols, t <- r'.symbols[k] ensures t.ktSymbol == k && Registered(r', t) {
      assert t == s || t in r.symbols[k];
    }
    forall n <- r'.strategies
      ensures r'.strategies[n].ktSymbol in r'.symbols && r'.strategies[n] in r'.symbols[r'.strategies[n].ktSymbol]
    {
      var t := r'.strategies[n];
      if t.ktSymbol == s.ktSymbol {
        var list := if s.ktSymbol in r.symbols then r.symbols[s.ktSymbol] else [];
        assert (list + [s])[|list|] == s;
        assert t == s || t in list;
      }
    }
  }

  function Without(list: seq<CtaTemplate>, s: CtaTemplate): (rest: seq<CtaTemplate>)
    ensures (forall x <- rest :: x in list && x != s) && forall x <- list :: x == s || x in rest
  {
    if list == [] then [] else (if list[0] == s then [] else [list[0]]) + Without(list[1..], s)
  }

  function Fewer(r: Roster, s: CtaTemplate): Roster
    requires s.ktSymbol in r.symbols
  {
    r.(strategies := r.strategies - {s.strategyName},
       symbols := r.symbols[s.ktSymbol := Without(r.symbols[s.ktSymbol], s)])
  }

  function Less(o: Orders, name: string): Orders {
    o.(owners := o.owners - Of(o.ids, name), ids := o.ids - {name})
  }

  lemma RosterShrinks(r: Roster, s: CtaTemplate)
    requires RosterOk(r) && Registered(r, s) && s !in r.trading
    ensures s.ktSymbol in r.symbols && RosterOk(Fewer(r, s))
  {
    var r' := Fewer(r, s);
    forall k <- r'.symbols, t <- r'.symbols[k] ensures t.ktSymbol == k && Registered(r', t) {
      assert t in r.symbols[k] && t != s;
    }
    forall n <- r'.strategies
      ensures r'.strategies[n].ktSymbol in r'.symbols && r'.strategies[n] in r'.symbols[r'.strategies[n].ktSymbol]
    {
      assert r.strategies[n] in r.symbols[r.strategies[n].ktSymbol];
    }
  }

  lemma StrategyRemoved(r: Roster, o: Orders, s: CtaTemplate)
    requires RosterOk(r) && Linked(r, o) && AllTrading(r, o) && Registered(r, s) && s !in r.trading
    ensures s.ktSymbol in r.symbols && RosterOk(Fewer(r, s))
    ensures Linked(Fewer(r, s), Less(o, s.strategyName)) && AllTrading(Fewer(r, s), Less(o, s.strategyName))
  {
    var r', o', name := Fewer(r, s), Less(o, s.strategyName), s.strategyName;
    RosterShrinks(r, s);
    OfLess(o.ids, name);
    SameHistory(o, o');
    StopsShrink(r, r', o, o', s);
    OwnersShrink(r, r', o, o', s);
    hide RosterOk, HistoryOk, StopsOk, OwnersOk;
  }

  lemma StopsShrink(r: Roster, r': Roster, o: Orders, o': Orders, s: CtaTemplate)
    requires Linked(r, o) && AllTrading(r, o) && Registered(r, s) && s !in r.trading
    requires forall n :: Of(o'.ids, n) == if n == s.strategyName then {} else Of(o.ids, n)
    requires r'.strategies == r.strategies - {s.strategyName} && r'.contracts == r.contracts
    ensures StopsOk(r', o'.ids, o.stops)
    ensures forall id <- o.stops :: o.stops[id].strategyName in r'.strategies
                                    && r'.strategies[o.stops[id].strategyName] in r.trading
  {
    hide HistoryOk, OwnersOk, Of, IsLocal;
    forall id <- o.stops
      ensures StopOk(r', o'.ids, id, o.stops[id]) && r'.strategies[o.stops[id].strategyName] in r.trading
    {
      assert StopOk(r, o.ids, id, o.stops[id]) && id in Of(o'.ids, o.stops[id].strategyName);
    }
    forall n, id | id in Of(o'.ids, n) && IsLocal(id) ensures id in o.stops && o.stops[id].strategyName == n {
      assert id in Of(o.ids, n);
    }
  }

  lemma OwnersShrink(r: Roster, r': Roster, o: Orders, o': Orders, s: CtaTemplate)
    requires RosterOk(r) && Linked(r, o) && Registered(r, s)
    requires forall n :: Of(o'.ids, n) == if n == s.strategyName then {} else Of(o.ids, n)
    requires r'.strategies == r.strategies - {s.strategyName} && r'.known == r.known
    requires o'.owners == o.owners - Of(o.ids, s.strategyName)
    ensures OwnersOk(r', o'.ids, o'.owners, o.given)
  {
    hide HistoryOk, StopsOk, Of, IsLocal;
    forall n, id | id in Of(o'.ids, n) && !IsLocal(id)
      ensures id in o'.owners && n in r'.strategies && o'.owners[id] == r'.strategies[n]
    {
      assert id in Of(o.ids, n);
      assert id in o.owners && o.owners[id] == r.strategies[n] && r.strategies[n].strategyName == n;
    }
  }

  /** Removal forgets exactly the orders still in the strategy's set. One that had finished goes on being
      credited to the removed strategy. */
  lemma RemovalForgetsExactly(r: Roster, o: Orders, s: CtaTemplate, id: string)
    requires RosterOk(r) && Linked(r, o) && AllTrading(r, o) && Registered(r, s) && s !in r.trading
    requires id in o.owners && o.owners[id] == s
    ensures var o' := Less(o, s.strategyName);
            id in o'.owners && o'.owners[id] == s <==> id !in Of(o.ids, s.strategyName)
    ensures s.ktSymbol in r.symbols && !Registered(Fewer(r, s), s)
  {
    RosterShrinks(r, s);
  }

  lemma OfLess(ids: map<string, set<string>>, name: string)
    ensures forall n :: Of(ids - {name}, n) == if n == name then {} else Of(ids, n)
  {
    forall n ensures Of(ids - {name}, n) == if n == name then {} else Of(ids, n) {
      assert n in ids - {name} <==> n in ids && n != name;
    }
  }

  lemma SameHistory(a: Orders, b: Orders)
    requires HistoryOk(a) && a.stops == b.stops && a.count == b.count && a.given == b.given && a.trace == b.trace
    requires a.running == b.running && a.triggers == b.triggers
    ensures HistoryOk(b)
  {
  }

  lemma FiledUnderOwnName(r: Roster, name: string)
    requires RosterOk(r) && name in r.strategies
    ensures r.strategies[name].strategyName == name && Registered(r, r.strategies[name])
    ensures r.strategies[name] in r.known
  {
  }

  lemma OwnersNamed(r: Roster, o: Orders)
    requires Linked(r, o)
    ensures forall id <- o.stops :: o.stops[id].strategyName in r.strategies
  {
    hide HistoryOk;
    forall id <- o.stops ensures o.stops[id].strategyName in r.strategies { assert StopOk(r, o.ids, id, o.stops[id]); }
  }

  // ---- small consequences of progress ----

  lemma OldStopsStay(r: Roster, a: Orders, b: Orders)
    requires Progress(r, a, b) && Linked(r, a)
    ensures forall id <- b.stops | id in a.stops :: b.stops[id] == a.stops[id]
  {
    hide Issued, Legal, Replayed, StopsOk, OwnersOk;
    forall id <- b.stops | id in a.stops ensures b.stops[id] == a.stops[id] { StopsIssued(a, id); }
  }

  /** Of the orders that waited at `a`, those gone at `b` are gone at `c`. */
  lemma GoneStayGone(r: Roster, a: Orders, b: Orders, c: Orders)
    requires Progress(r, a, b) && Progress(r, b, c) && Linked(r, a)
    ensures forall id <- a.stops :: id !in b.stops ==> id !in c.stops
  {
    hide Legal, Replayed, Triggers, StopsOk, OwnersOk;
    forall id <- a.stops | id !in b.stops ensures id !in c.stops {
      StopsIssued(a, id);
      assert Issued(b.count, id);
    }
  }

  lemma LastStays(r: Roster, a: Orders, b: Orders, c: Orders, d: Orders, e: Event)
    requires Progress(r, a, b) && c.trace == b.trace + [e] && Progress(r, c, d)
    ensures e in d.trace[|a.trace|..]
  {
    assert d.trace[|a.trace|..][|b.trace| - |a.trace|] == e;
  }

  lemma OwnerKnown(r: Roster, o: Orders, id: string)
    requires Linked(r, o) && id in o.owners
    ensures o.owners[id] in r.known && !IsLocal(id) && id in o.given
  {
  }

  lemma FinishedStaysOut(r: Roster, a: Orders, b: Orders, name: string, id: string, gone: set<string>)
    requires Progress(r, Finished(a, name, gone), b) && id in a.given && !IsLocal(id)
    ensures id in Of(b.ids, name) <==> id in Of(a.ids, name) && id !in gone
  {
    hide Issued;
    OfUpdate(a.ids, name, Of(a.ids, name) - gone);
  }

  lemma TriggerTest(so: StopOrder, tick: TickData)
    ensures Crosses(so, tick) <==> || (so.direction == LONG && tick.lastPrice >= so.price)
                                   || (so.direction == SHORT && tick.lastPrice <= so.price)
  {
  }

  // ---- what became of the stop orders a tick crossed ----

  /** What is asked for when a stop order triggers. */
  function StopRequest(c: Contract, so: StopOrder, tick: TickData): OrderRequest {
    OrderRequest(c.symbol, c.exchange, so.direction, LIMIT, so.volume, TriggerPrice(so.direction, tick), so.offset,
                 REFERENCE)
  }

  predicate Crossed(so: StopOrder, tick: TickData) { so.ktSymbol == tick.ktSymbol && Crosses(so, tick) }

  /** What the loop body does for one id: the request of a waiting order that the tick crossed is put to the
      exchange, and if any leg was taken the order is told triggered right after that and waits no more;
      nothing at all is done for any other id. Callbacks follow, unless things stay `quiet`. */
  ghost predicate Checked(r: Roster, a: Orders, b: Orders, tick: TickData, id: string, quiet: bool) {
    && (if id in a.stops && Crossed(a.stops[id], tick) then
          && a.stops[id].ktSymbol in r.contracts
          && exists sent, taken :: Carried(r, a, b, a.stops[id], tick, sent, taken, quiet)
        else b == a)
    && (quiet ==> b.stops.Keys <= a.stops.Keys && forall i <- a.stops | i != id :: i in b.stops)
  }

  ghost predicate Carried(r: Roster, a: Orders, b: Orders, so: StopOrder, tick: TickData, sent: seq<Event>,
                          taken: seq<string>, quiet: bool)
    requires so.ktSymbol in r.contracts
  {
    && a.trace <= sent && Attempt(a.trace, sent, StopRequest(r.contracts[so.ktSymbol], so, tick), taken)
    && sent + Outcome(so, tick, taken) <= b.trace && (quiet ==> b.trace == sent + Outcome(so, tick, taken))
    && b.triggers == a.triggers + Outcome(so, tick, taken)
    && (so.stopOrderid in b.stops <==> taken == [])
  }

  /** The ids are gone through in turn; `books` are the states before, between and after. */
  ghost predicate Swept(r: Roster, books: seq<Orders>, tick: TickData, ids: seq<string>, quiet: bool) {
    && |books| == |ids| + 1
    && (forall i :: 0 <= i <= |ids| ==> Linked(r, books[i]))
    && (forall i :: 0 <= i < |ids| ==> SweepStep(r, books[i], books[i + 1], tick, ids[i], quiet))
  }

  ghost predicate SweepStep(r: Roster, a: Orders, b: Orders, tick: TickData, id: string, quiet: bool) {
    Progress(r, a, b) && Checked(r, a, b, tick, id, quiet)
  }

  ghost predicate EachOnce(ids: seq<string>, all: set<string>) {
    && (forall id :: id in ids <==> id in all)
    && (forall i, j :: 0 <= i < j < |ids| ==> ids[i] != ids[j])
  }

  lemma OnceMore(ids: seq<string>, all: set<string>, id: string)
    requires EachOnce(ids, all) && id !in all
    ensures EachOnce(ids + [id], all + {id})
  {
  }

  lemma SweptMore(r: Roster, books: seq<Orders>, tick: TickData, ids: seq<string>, b: Orders, id: string, quiet: bool)
    requires Swept(r, books, tick, ids, quiet) && Linked(r, b)
    requires SweepStep(r, books[|ids|], b, tick, id, quiet)
    ensures Swept(r, books + [b], tick, ids + [id], quiet)
  {
    hide SweepStep, Linked;
  }

  /** The order's request was put to the exchange since `a`; it waits at `b` if and only if no leg was taken,
      and its trigger was told since `a` otherwise. */
  ghost predicate Tried(r: Roster, a: Orders, b: Orders, so: StopOrder, tick: TickData, taken: seq<string>)
    requires so.ktSymbol in r.contracts
  {
    && AttemptedSince(b.trace, |a.trace|, StopRequest(r.contracts[so.ktSymbol], so, tick), taken)
    && a.trace <= b.trace
    && (taken != [] ==> Fired(so.(status := TRIGGERED, ktOrderids := taken), tick) in b.trace[|a.trace|..])
    && (so.stopOrderid in b.stops <==> taken == [])
  }

  /** What has become at `b` of an order that waited at `a`: if the tick crossed it, it was tried, and otherwise
      it still waits. Unless things stayed `quiet`, a strategy may have asked for its cancel. */
  ghost predicate Handled(r: Roster, a: Orders, b: Orders, tick: TickData, id: string, quiet: bool)
    requires id in a.stops
  {
    var so := a.stops[id];
    || (!quiet && CancelledSince(b.trace, |a.trace|, so))
    || (if Crossed(so, tick) then so.ktSymbol in r.contracts && exists taken :: Tried(r, a, b, so, tick, taken)
        else id in b.stops)
  }

  ghost predicate WaitsOn(a: Orders, b: Orders, id: string, quiet: bool)
    requires id in a.stops
  {
    id in b.stops || (!quiet && CancelledSince(b.trace, |a.trace|, a.stops[id]))
  }

  /** A stop order ends by a cancel or by a trigger. */
  lemma Stepped(r: Roster, a: Orders, b: Orders, tick: TickData, id: string, quiet: bool)
    requires Progress(r, a, b) && Checked(r, a, b, tick, id, quiet)
    ensures SweepStep(r, a, b, tick, id, quiet)
  {
  }

  lemma GoneHow(r: Roster, a: Orders, b: Orders, id: string)
    requires Linked(r, a) && Linked(r, b) && Progress(r, a, b) && id in a.stops && id !in b.stops
    ensures CancelledSince(b.trace, |a.trace|, a.stops[id])
            || (a.triggers <= b.triggers
                && exists e <- b.triggers[|a.triggers|..] :: e.Fired? && e.order.stopOrderid == id)
  {
    hide StopsOk, OwnersOk, Legal, Replayed, Triggers, Issued;
    GoneWasTold(a.trace, b.trace, id);
    TriggersAdded(a.trace, b.trace);
    StopsIssued(a, id);
    var e :| e in b.trace[|a.trace|..] && Ends(e, a.stops[id]);
  }

  /** Where nothing triggers, orders end by cancels only. */
  lemma NoTriggerWaitsOn(r: Roster, a: Orders, b: Orders, id: string)
    requires Linked(r, a) && Linked(r, b) && Progress(r, a, b) && a.triggers == b.triggers && id in a.stops
    ensures WaitsOn(a, b, id, false)
  {
    hide Linked, Progress, CancelledSince;
    if id !in b.stops { GoneHow(r, a, b, id); }
  }

  /** The loop body leaves the other orders to wait on. */
  lemma OthersWaitOn(r: Roster, a: Orders, b: Orders, tick: TickData, id: string, other: string, quiet: bool)
    requires Linked(r, a) && Linked(r, b) && Progress(r, a, b) && Checked(r, a, b, tick, id, quiet)
    requires other in a.stops && other != id
    ensures WaitsOn(a, b, other, quiet)
  {
    hide Linked, Progress, CancelledSince, Crossed, Attempt, StopRequest;
    if other !in b.stops && !quiet {
      GoneHow(r, a, b, other);
      StopIdIsKey(r, a, id);
    }
  }

  lemma StopIdIsKey(r: Roster, o: Orders, id: string)
    requires Linked(r, o)
    ensures id in o.stops ==> o.stops[id].stopOrderid == id
  {
    hide StopsOk, OwnersOk, Legal, Replayed, Triggers, Issued;
    if id in o.stops { StopsIssued(o, id); }
  }

  lemma WaitsOnTrans(r: Roster, a: Orders, b: Orders, c: Orders, id: string, quiet: bool)
    requires Linked(r, a) && Progress(r, a, b) && Progress(r, b, c) && id in a.stops && WaitsOn(a, b, id, quiet)
    requires id in b.stops ==> WaitsOn(b, c, id, quiet)
    ensures WaitsOn(a, c, id, quiet)
  {
    OldStopsStay(r, a, b);
    ProgressGrows(r, a, b);
    ProgressGrows(r, b, c);
    hide Linked, Progress, CancelledSince;
    if id in b.stops {
      if id !in c.stops { CancelledSooner(c.trace, |b.trace|, |a.trace|, a.stops[id]); }
    } else {
      CancelledSinceStays(b.trace, c.trace, |a.trace|, a.stops[id]);
    }
  }

  /** What has become of an order stays so while it waits on or is gone. */
  lemma HandledStays(r: Roster, a: Orders, b: Orders, c: Orders, tick: TickData, id: string, quiet: bool)
    requires Linked(r, a) && Progress(r, a, b) && Progress(r, b, c) && id in a.stops
    requires Handled(r, a, b, tick, id, quiet) && (id in b.stops ==> WaitsOn(b, c, id, quiet))
    ensures Handled(r, a, c, tick, id, quiet)
  {
    OldStopsStay(r, a, b);
    GoneStayGone(r, a, b, c);
    ProgressGrows(r, a, b);
    ProgressGrows(r, b, c);
    StopIdIsKey(r, a, id);
    hide Linked, Progress, CancelledSince, Crossed, Tried;
    var so := a.stops[id];
    if !quiet && CancelledSince(b.trace, |a.trace|, so) {
      CancelledSinceStays(b.trace, c.trace, |a.trace|, so);
    } else if id in b.stops && id !in c.stops {
      CancelledSooner(c.trace, |b.trace|, |a.trace|, so);
    } else if Crossed(so, tick) {
      var taken :| Tried(r, a, b, so, tick, taken);
      TriedStays(r, a, b, c, so, tick, taken);
    }
  }

  lemma TriedStays(r: Roster, a: Orders, b: Orders, c: Orders, so: StopOrder, tick: TickData, taken: seq<string>)
    requires so.ktSymbol in r.contracts && Tried(r, a, b, so, tick, taken) && b.trace <= c.trace
    requires so.stopOrderid in b.stops <==> so.stopOrderid in c.stops
    ensures Tried(r, a, c, so, tick, taken)
  {
    hide AttemptedSince, StopRequest, Outcome;
    AttemptSinceStays(b.trace, c.trace, |a.trace|, StopRequest(r.contracts[so.ktSymbol], so, tick), taken);
    assert b.trace[|a.trace|..] <= c.trace[|a.trace|..];
  }

  /** An order that waited on until it was checked is handled. */
  lemma CheckedHandled(r: Roster, a: Orders, b: Orders, c: Orders, tick: TickData, id: string, quiet: bool)
    requires Linked(r, a) && Progress(r, a, b) && id in a.stops && WaitsOn(a, b, id, quiet)
    requires Checked(r, b, c, tick, id, quiet)
    ensures Handled(r, a, c, tick, id, quiet)
  {
    OldStopsStay(r, a, b);
    ProgressGrows(r, a, b);
    StopIdIsKey(r, a, id);
    hide Linked, Progress, CancelledSince, Crossed, Tried, Carried;
    if id in b.stops && Crossed(b.stops[id], tick) {
      var so := b.stops[id];
      var sent, taken :| Carried(r, b, c, so, tick, sent, taken, quiet);
      CarriedTried(r, a, b, c, so, tick, sent, taken, quiet);
    }
  }

  lemma CarriedTried(r: Roster, a: Orders, b: Orders, c: Orders, so: StopOrder, tick: TickData, sent: seq<Event>,
                     taken: seq<string>, quiet: bool)
    requires so.ktSymbol in r.contracts && a.trace <= b.trace && Carried(r, b, c, so, tick, sent, taken, quiet)
    ensures Tried(r, a, c, so, tick, taken)
  {
    hide Attempt, AttemptedSince, StopRequest;
    var out := Outcome(so, tick, taken);
    assert sent <= sent + out;
    AttemptSince(b.trace, sent, c.trace, |a.trace|, StopRequest(r.contracts[so.ktSymbol], so, tick), taken);
    assert c.trace[|sent|..][..|out|] == out;
    assert c.trace[|a.trace|..][|sent| - |a.trace|..] == c.trace[|sent|..];
    assert taken != [] ==> c.trace[|a.trace|..][|sent| - |a.trace|] == out[0];
  }

  /** After `n` ids were gone through, every order of them is handled: exactly the crossed ones were tried, and
      what else is gone was cancelled because a strategy asked for it. */
  lemma {:induction false} SweptHandled(r: Roster, books: seq<Orders>, tick: TickData, ids: seq<string>, quiet: bool,
                                        n: nat)
    requires Swept(r, books, tick, ids, quiet) && n <= |ids|
    requires forall i, j :: 0 <= i < j < |ids| ==> ids[i] != ids[j]
    ensures Progress(r, books[0], books[n])
    ensures forall id <- books[0].stops ::
              if id in ids[..n] then Handled(r, books[0], books[n], tick, id, quiet)
              else WaitsOn(books[0], books[n], id, quiet)
    ensures quiet ==> books[n].stops.Keys <= books[0].stops.Keys
  {
    if n == 0 {
      ProgressRefl(r, books[0]);
      hide Linked, Progress, Handled;
    } else {
      SweptHandled(r, books, tick, ids, quiet, n - 1);
      assert ids[n - 1] !in ids[..n - 1] && ids[..n] == ids[..n - 1] + [ids[n - 1]];
      assert SweepStep(r, books[n - 1], books[n], tick, ids[n - 1], quiet);
      hide Linked, Progress, Handled, WaitsOn, Checked;
      SweptOneMore(r, books[0], books[n - 1], books[n], tick, ids[..n - 1], ids[n - 1], quiet);
    }
  }

  lemma SweptOneMore(r: Roster, a: Orders, m: Orders, b: Orders, tick: TickData, ids: seq<string>, last: string,
                     quiet: bool)
    requires SweepStep(r, m, b, tick, last, quiet) && last !in ids && Progress(r, a, m)
    requires Linked(r, a) && Linked(r, m) && Linked(r, b)
    requires forall id <- a.stops :: if id in ids then Handled(r, a, m, tick, id, quiet) else WaitsOn(a, m, id, quiet)
    requires quiet ==> m.stops.Keys <= a.stops.Keys
    ensures Progress(r, a, b)
    ensures forall id <- a.stops ::
              if id in ids + [last] then Handled(r, a, b, tick, id, quiet) else WaitsOn(a, b, id, quiet)
    ensures quiet ==> b.stops.Keys <= a.stops.Keys
  {
    ProgressTrans(r, a, m, b);
    hide Linked, Progress, Handled, WaitsOn, Carried, Crossed;
    forall id <- a.stops
      ensures if id in ids + [last] then Handled(r, a, b, tick, id, quiet) else WaitsOn(a, b, id, quiet)
    {
      OneSwept(r, a, m, b, tick, ids, last, id, quiet);
    }
  }

  lemma OneSwept(r: Roster, a: Orders, m: Orders, b: Orders, tick: TickData, ids: seq<string>, last: string,
                 id: string, quiet: bool)
    requires Checked(r, m, b, tick, last, quiet) && last !in ids && id in a.stops
    requires Linked(r, a) && Linked(r, m) && Linked(r, b) && Progress(r, a, m) && Progress(r, m, b)
    requires if id in ids then Handled(r, a, m, tick, id, quiet) else WaitsOn(a, m, id, quiet)
    ensures if id in ids || id == last then Handled(r, a, b, tick, id, quiet) else WaitsOn(a, b, id, quiet)
  {
    hide Linked, Progress, Handled, WaitsOn, Checked;
    if id == last {
      CheckedHandled(r, a, m, b, tick, id, quiet);
    } else {
      if id in m.stops { OthersWaitOn(r, m, b, tick, last, id, quiet); }
      if id in ids {
        HandledStays(r, a, m, b, tick, id, quiet);
      } else {
        WaitsOnTrans(r, a, m, b, id, quiet);
      }
    }
  }

  /** Callbacks that follow a tick change nothing about that, since they trigger nothing. */
  lemma AllHandledStays(r: Roster, a: Orders, b: Orders, c: Orders, tick: TickData, quiet: bool)
    requires Linked(r, a) && Linked(r, b) && Linked(r, c) && Progress(r, a, b) && Progress(r, b, c)
    requires b.triggers == c.triggers && (quiet ==> b == c)
    requires forall id <- a.stops :: Handled(r, a, b, tick, id, quiet)
    ensures forall id <- a.stops :: Handled(r, a, c, tick, id, quiet)
  {
    hide Linked, Progress, Handled, CancelledSince;
    if b != c {
      forall id <- a.stops ensures Handled(r, a, c, tick, id, quiet) {
        if id in b.stops { NoTriggerWaitsOn(r, b, c, id); }
        HandledStays(r, a, b, c, tick, id, quiet);
      }
    }
  }

  /** A symbol nobody is registered for has no stop order waiting. */
  lemma NobodyHandled(r: Roster, o: Orders, tick: TickData, quiet: bool)
    requires RosterOk(r) && Linked(r, o)
    requires tick.ktSymbol !in r.symbols || r.symbols[tick.ktSymbol] == []
    ensures forall id <- o.stops :: Handled(r, o, o, tick, id, quiet)
  {
    NobodyWaits(r, o, tick.ktSymbol);
    hide Crosses, Tried, CancelledSince;
  }

  /** Once its legs are placed, the triggered order may be reported. */
  lemma FiredAllowed(r: Roster, o: Orders, id: string, s: CtaTemplate, req: OrderRequest, legs: seq<string>,
                     tick: TickData)
    requires Linked(r, o) && id in o.stops && legs != [] && forall leg <- legs :: Placed(o, leg, s, req)
    requires o.stops[id].ktSymbol == tick.ktSymbol && Crosses(o.stops[id], tick)
    requires Executes(req, o.stops[id], tick)
    ensures Allowed(Replayed(o.trace), Fired(o.stops[id].(status := TRIGGERED, ktOrderids := legs), tick))
  {
    StopsIssued(o, id);
    hide Replayed, Legal, StopsOk, OwnersOk, TriggerPrice;
    forall leg <- legs
      ensures leg in Replayed(o.trace).requests && Executes(Replayed(o.trace).requests[leg], o.stops[id], tick)
    {
      assert Placed(o, leg, s, req);
    }
  }
}
