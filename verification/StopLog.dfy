/** The history of a strategy engine: the requests it sent to exchanges and the stop-order callbacks it
    made. A legal history is one in which every local stop order lives once. */
module StopLog {
  import opened Market
  import Integers

  datatype StopOrderStatus = WAITING | CANCELLED | TRIGGERED

  datatype StopOrder = StopOrder(
    ktSymbol: string, direction: Direction, offset: Offset, price: real, volume: int, stopOrderid: string,
    strategyName: string, lock: bool, net: bool, ktOrderids: seq<string>, status: StopOrderStatus)

  /** The tick has reached the stop price from the side the order waits on. */
  predicate Crosses(so: StopOrder, tick: TickData) {
    || (so.direction == LONG && tick.lastPrice >= so.price)
    || (so.direction == SHORT && tick.lastPrice <= so.price)
  }

  /** The limit of the day when the tick carries one, otherwise the fifth quote of the other side. */
  function TriggerPrice(direction: Direction, tick: TickData): real {
    if direction == LONG then if tick.limitUp != 0.0 then tick.limitUp else tick.askPrice5
    else if tick.limitDown != 0.0 then tick.limitDown else tick.bidPrice5
  }

  /** A tick that carries, on each side, the limit of the day or the fifth quote, with those it carries above and
      below its last price. */
  predicate Bracketed(tick: TickData) {
    && (tick.limitUp != 0.0 || tick.askPrice5 != 0.0) && (tick.limitDown != 0.0 || tick.bidPrice5 != 0.0)
    && (tick.limitUp != 0.0 ==> tick.lastPrice <= tick.limitUp)
    && (tick.askPrice5 != 0.0 ==> tick.lastPrice <= tick.askPrice5)
    && (tick.limitDown != 0.0 ==> tick.limitDown <= tick.lastPrice)
    && (tick.bidPrice5 != 0.0 ==> tick.bidPrice5 <= tick.lastPrice)
  }

  /** A limit order at `price` would trade at once at the last price, and that is beyond the stop price. */
  predicate Marketable(price: real, so: StopOrder, tick: TickData) {
    match so.direction
    case LONG => so.price <= tick.lastPrice <= price
    case SHORT => price <= tick.lastPrice <= so.price
    case NET => false
  }

  /** On such a tick the trigger price is at the last price or beyond it, so that the order fills at once. The
      limit is taken when the tick has one. */
  lemma TriggerPriceFills(so: StopOrder, tick: TickData)
    ensures Bracketed(tick) ==> if so.direction == LONG then tick.lastPrice <= TriggerPrice(so.direction, tick)
                                else TriggerPrice(so.direction, tick) <= tick.lastPrice
    ensures Bracketed(tick) && Crosses(so, tick) ==> Marketable(TriggerPrice(so.direction, tick), so, tick)
    ensures so.direction == LONG ==>
              TriggerPrice(so.direction, tick) == if tick.limitUp == 0.0 then tick.askPrice5 else tick.limitUp
    ensures so.direction != LONG ==>
              TriggerPrice(so.direction, tick) == if tick.limitDown == 0.0 then tick.bidPrice5 else tick.limitDown
  {
  }

  const STOPORDER_PREFIX := "STOP"

  predicate IsLocal(id: string) { |id| >= 4 && id[..4] == STOPORDER_PREFIX }

  /** `Printf("%s.%d", ...)`. */
  function LocalId(n: nat): (id: string)
    ensures IsLocal(id)
  {
    STOPORDER_PREFIX + "." + Integers.Decimal(n)
  }

  lemma LocalIdInjective(m: nat, n: nat)
    requires LocalId(m) == LocalId(n)
    ensures m == n
  {
    assert LocalId(m)[5..] == Integers.Decimal(m) && LocalId(n)[5..] == Integers.Decimal(n);
    Integers.ValueOfDecimal(m, 0);
    Integers.ValueOfDecimal(n, 0);
    assert Integers.Zeros(0) + Integers.Decimal(m) == Integers.Zeros(0) + Integers.Decimal(n);
  }

  lemma FirstLocalIds(id: string)
    ensures LocalId(1) == "STOP.1" && LocalId(20) == "STOP.20"
    ensures IsLocal(id) <==> "STOP" <= id
  {
  }

  ghost predicate Issued(count: nat, id: string) { exists n :: 1 <= n <= count && id == LocalId(n) }

  lemma NextIsNew(count: nat)
    ensures !Issued(count, LocalId(count + 1))
  {
    if n :| 1 <= n <= count && LocalId(count + 1) == LocalId(n) { LocalIdInjective(count + 1, n); }
  }

  // ---- histories ----

  /** `Requested` is what was asked for and the legs the offset converter made of it; each leg is then `Sent`
      or `Declined` by its exchange. `Told`, `Cancelled` and `Fired` are calls of `on_stop_order` about a local
      stop order: that it waits, that it was cancelled and which strategy asked for that, and that it was
      triggered and by which tick. A strategy runs from `Started` to `Stopped`, the end of `stop_strategy`. */
  datatype Event =
    | Requested(asked: OrderRequest, legs: seq<OrderRequest>)
    | Sent(ktOrderid: string, leg: OrderRequest, asked: OrderRequest)
    | Declined(leg: OrderRequest, asked: OrderRequest)
    | CancelAsked(ktOrderid: string)
    | Told(order: StopOrder)
    | Cancelled(order: StopOrder, asker: string)
    | Fired(order: StopOrder, tick: TickData)
    | Started(strategyName: string)
    | Stopped(strategyName: string)

  /** What a history has led to; `requests` is what was asked for under each id, `running` the strategies that
      were started and not stopped since. */
  datatype Seen = Seen(
    count: nat, live: map<string, StopOrder>, requests: map<string, OrderRequest>, running: set<string>)

  /** What is asked for when a stop order triggers: the order itself, as a limit order at the trigger price. */
  predicate Executes(asked: OrderRequest, so: StopOrder, tick: TickData) {
    && asked.direction == so.direction && asked.offset == so.offset && asked.volume == so.volume
    && asked.orderType == LIMIT && asked.price == TriggerPrice(so.direction, tick)
  }

  /** A leg differs from what was asked for in offset and volume only. */
  predicate LegOf(leg: OrderRequest, asked: OrderRequest) {
    leg == asked.(offset := leg.offset, volume := leg.volume)
  }

  predicate Allowed(s: Seen, e: Event) {
    match e
    case Requested(asked, legs) => (forall leg <- legs :: LegOf(leg, asked)) && (legs == [] ==> asked.volume <= 0)
    case Declined(leg, asked) => LegOf(leg, asked)
    case Sent(id, leg, asked) => id !in s.requests && !IsLocal(id) && id != "" && LegOf(leg, asked)
    case CancelAsked(id) => !IsLocal(id)
    case Told(so) =>
      && so.status == WAITING && so.stopOrderid == LocalId(s.count + 1) && so.ktOrderids == []
      && so.strategyName in s.running
    case Cancelled(so, asker) =>
      && so.stopOrderid in s.live && so == s.live[so.stopOrderid].(status := StopOrderStatus.CANCELLED)
      && asker in s.running
    case Fired(so, tick) =>
      && so.stopOrderid in s.live
      && so == s.live[so.stopOrderid].(status := TRIGGERED, ktOrderids := so.ktOrderids)
      && so.ktSymbol == tick.ktSymbol && Crosses(so, tick)
      && so.ktOrderids != []
      && forall id <- so.ktOrderids :: id in s.requests && Executes(s.requests[id], so, tick)
    case Started(name) => name !in s.running
    case Stopped(name) => name in s.running && forall id <- s.live :: s.live[id].strategyName != name
  }

  function After(s: Seen, e: Event): Seen {
    match e
    case Sent(id, _, asked) => s.(requests := s.requests[id := asked])
    case Requested(_, _) | Declined(_, _) | CancelAsked(_) => s
    case Told(so) => s.(count := s.count + 1, live := s.live[so.stopOrderid := so])
    case Cancelled(so, _) => s.(live := s.live - {so.stopOrderid})
    case Fired(so, _) => s.(live := s.live - {so.stopOrderid})
    case Started(name) => s.(running := s.running + {name})
    case Stopped(name) => s.(running := s.running - {name})
  }

  function Replayed(trace: seq<Event>): Seen {
    if trace == [] then Seen(0, map[], map[], {}) else After(Replayed(trace[..|trace| - 1]), trace[|trace| - 1])
  }

  predicate Legal(trace: seq<Event>) {
    trace == [] || (Legal(trace[..|trace| - 1]) && Allowed(Replayed(trace[..|trace| - 1]), trace[|trace| - 1]))
  }

  /** The triggers of a history. */
  function Triggers(trace: seq<Event>): seq<Event> {
    if trace == [] then [] else Triggers(trace[..|trace| - 1]) + TriggerIn(trace[|trace| - 1])
  }

  function TriggerIn(e: Event): seq<Event> { if e.Fired? then [e] else [] }

  lemma OneMore(trace: seq<Event>, e: Event)
    ensures Replayed(trace + [e]) == After(Replayed(trace), e)
    ensures Triggers(trace + [e]) == Triggers(trace) + TriggerIn(e)
    ensures Legal(trace + [e]) <==> Legal(trace) && Allowed(Replayed(trace), e)
  {
    assert (trace + [e])[..|trace|] == trace;
  }

  // ---- what legality means for one stop order ----

  /** What an event tells about one id. */
  function Mention(e: Event, id: string): seq<StopOrderStatus> {
    if (e.Told? || e.Cancelled? || e.Fired?) && e.order.stopOrderid == id then [e.order.status] else []
  }

  /** The statuses a strategy was told for one id, in order. */
  function Statuses(trace: seq<Event>, id: string): seq<StopOrderStatus> {
    if trace == [] then [] else Statuses(trace[..|trace| - 1], id) + Mention(trace[|trace| - 1], id)
  }

  ghost predicate OnceThrough(s: Seen, id: string, h: seq<StopOrderStatus>) {
    && (h == [] || h == [WAITING] || h == [WAITING, StopOrderStatus.CANCELLED] || h == [WAITING, TRIGGERED])
    && (h != [] <==> Issued(s.count, id))
    && (h == [WAITING] <==> id in s.live)
  }

  /** Every local stop order is first waiting and then at most once cancelled or triggered; it is live
      exactly in between, and only ids that were issued are ever mentioned. */
  lemma {:induction false} LifeCycle(trace: seq<Event>, id: string)
    requires Legal(trace)
    ensures OnceThrough(Replayed(trace), id, Statuses(trace, id))
  {
    if trace == [] {
    } else {
      var init, last := trace[..|trace| - 1], trace[|trace| - 1];
      LifeCycle(init, id);
      LiveUnderOwnId(init);
      hide OnceThrough, Allowed, After, Mention;
      NextStatus(Replayed(init), last, id, Statuses(init, id));
    }
  }

  lemma NextStatus(s: Seen, e: Event, id: string, h: seq<StopOrderStatus>)
    requires Allowed(s, e) && OnceThrough(s, id, h)
    requires forall id <- s.live :: s.live[id].stopOrderid == id && s.live[id].status == WAITING
    ensures OnceThrough(After(s, e), id, h + Mention(e, id))
  {
    NextIsNew(s.count);
    assert Issued(s.count + 1, id) <==> Issued(s.count, id) || id == LocalId(s.count + 1) by {
      if id == LocalId(s.count + 1) { assert Issued(s.count + 1, id); }
    }
    hide LocalId, Issued, Crosses, Executes, LegOf, IsLocal;
    if Mention(e, id) == [] {
      assert h + [] == h;
    }
  }

  lemma {:induction false} LiveUnderOwnId(trace: seq<Event>)
    requires Legal(trace)
    ensures forall id <- Replayed(trace).live ::
              && Replayed(trace).live[id].stopOrderid == id && Replayed(trace).live[id].status == WAITING
              && Replayed(trace).live[id].ktOrderids == []
  {
    if trace == [] {
    } else {
      LiveUnderOwnId(trace[..|trace| - 1]);
    }
  }

  /** A live order was announced exactly as it stands. */
  lemma {:induction false} LiveWasAnnounced(trace: seq<Event>, id: string)
    requires Legal(trace) && id in Replayed(trace).live
    ensures Told(Replayed(trace).live[id]) in trace
    ensures Replayed(trace).live[id].status == WAITING && Replayed(trace).live[id].stopOrderid == id
  {
    var init, last := trace[..|trace| - 1], trace[|trace| - 1];
    if !(last.Told? && last.order.stopOrderid == id) {
      LiveWasAnnounced(init, id);
      assert Replayed(trace).live[id] == Replayed(init).live[id];
    } else {
      assert last == trace[|trace| - 1];
    }
  }

  lemma {:induction false} RequestWasSent(trace: seq<Event>, id: string)
    requires Legal(trace) && id in Replayed(trace).requests
    ensures exists e <- trace :: e.Sent? && e.ktOrderid == id && e.asked == Replayed(trace).requests[id]
  {
    var init, last := trace[..|trace| - 1], trace[|trace| - 1];
    if !(last.Sent? && last.ktOrderid == id) {
      RequestWasSent(init, id);
      var e :| e in init && e.Sent? && e.ktOrderid == id && e.asked == Replayed(init).requests[id];
      assert e in trace;
    } else {
      assert last in trace;
    }
  }

  /** What was asked for under an id stays on record. */
  lemma {:induction false} RequestsStay(a: seq<Event>, b: seq<Event>, id: string)
    requires Legal(b) && a <= b && id in Replayed(a).requests
    ensures id in Replayed(b).requests && Replayed(b).requests[id] == Replayed(a).requests[id]
    decreases |b|
  {
    if |a| < |b| {
      RequestsStay(a, b[..|b| - 1], id);
    } else {
      assert a == b;
    }
  }

  /** Exchanges never gave out a local id. */
  lemma {:induction false} RequestsAreServerIds(trace: seq<Event>, id: string)
    requires Legal(trace) && id in Replayed(trace).requests
    ensures !IsLocal(id)
  {
    var init, last := trace[..|trace| - 1], trace[|trace| - 1];
    if !(last.Sent? && last.ktOrderid == id) { RequestsAreServerIds(init, id); }
  }

  lemma {:induction false} PrefixLegal(trace: seq<Event>, k: nat)
    requires Legal(trace) && k <= |trace|
    ensures Legal(trace[..k])
    decreases |trace|
  {
    if k < |trace| {
      PrefixLegal(trace[..|trace| - 1], k);
      assert trace[..|trace| - 1][..k] == trace[..k];
    } else {
      assert trace[..k] == trace;
    }
  }

  lemma EventAllowed(trace: seq<Event>, k: nat)
    requires Legal(trace) && k < |trace|
    ensures Legal(trace[..k]) && Allowed(Replayed(trace[..k]), trace[k])
  {
    hide Replayed, Legal, Triggers, Allowed;
    PrefixLegal(trace, k + 1);
    assert trace[..k + 1] == trace[..k] + [trace[k]];
    OneMore(trace[..k], trace[k]);
  }

  /** The strategy was started and not stopped since. */
  ghost predicate Runs(trace: seq<Event>, name: string) {
    exists i :: 0 <= i < |trace| && trace[i] == Started(name) && Stopped(name) !in trace[i..]
  }

  lemma {:induction false} RunningMeansRuns(trace: seq<Event>, name: string)
    requires Legal(trace)
    ensures name in Replayed(trace).running <==> Runs(trace, name)
  {
    if trace == [] {
    } else {
      var init, last := trace[..|trace| - 1], trace[|trace| - 1];
      assert trace == init + [last];
      OneMore(init, last);
      hide Allowed, After, Legal, Replayed, Runs, Triggers;
      RunningMeansRuns(init, name);
      RunningOneMore(Replayed(init), last, name);
      RunsOneMore(init, last, name);
    }
  }

  lemma RunningOneMore(s: Seen, e: Event, name: string)
    ensures name in After(s, e).running <==> e == Started(name) || (name in s.running && e != Stopped(name))
  {
  }

  lemma RunsOneMore(trace: seq<Event>, e: Event, name: string)
    ensures Runs(trace + [e], name) <==> e == Started(name) || (Runs(trace, name) && e != Stopped(name))
  {
    var more := trace + [e];
    assert forall i :: 0 <= i <= |trace| ==> more[i..] == trace[i..] + [e];
    if e == Started(name) {
      assert more[|trace|] == Started(name) && Stopped(name) !in more[|trace|..];
    } else if Runs(trace, name) && e != Stopped(name) {
      var i :| 0 <= i < |trace| && trace[i] == Started(name) && Stopped(name) !in trace[i..];
      assert more[i] == Started(name) && Stopped(name) !in more[i..];
    }
  }

  /** Only strategies that run have stop orders waiting. */
  lemma {:induction false} LiveWhileRunning(trace: seq<Event>)
    requires Legal(trace)
    ensures forall id <- Replayed(trace).live :: Replayed(trace).live[id].strategyName in Replayed(trace).running
  {
    if trace == [] {
    } else {
      LiveWhileRunning(trace[..|trace| - 1]);
    }
  }

  /** A stop order is reported cancelled only after it was announced, and only because a strategy that was
      started and whose stop has not ended asked for it. */
  lemma CancelJustified(trace: seq<Event>, k: nat)
    requires Legal(trace) && k < |trace| && trace[k].Cancelled?
    ensures var so := trace[k].order;
            && so.status == StopOrderStatus.CANCELLED && so.ktOrderids == []
            && Told(so.(status := WAITING)) in trace[..k]
            && Runs(trace[..k], trace[k].asker) && Runs(trace[..k], so.strategyName)
  {
    hide Replayed, Legal, Runs;
    EventAllowed(trace, k);
    var so := trace[k].order;
    LiveWasAnnounced(trace[..k], so.stopOrderid);
    LiveUnderOwnId(trace[..k]);
    LiveWhileRunning(trace[..k]);
    RunningMeansRuns(trace[..k], trace[k].asker);
    RunningMeansRuns(trace[..k], so.strategyName);
  }

  /** A stop order is reported triggered only after it was announced, while its strategy runs, on a tick of its
      own symbol that crossed its price in its direction, and after orders at the trigger price went to the
      exchange; if the tick's price is bracketed, each was sent at a price no worse than its stop price. */
  lemma TriggerJustified(trace: seq<Event>, k: nat)
    requires Legal(trace) && k < |trace| && trace[k].Fired?
    ensures var so, tick := trace[k].order, trace[k].tick;
            && so.ktSymbol == tick.ktSymbol && Crosses(so, tick)
            && so.status == TRIGGERED && so.ktOrderids != []
            && Told(so.(status := WAITING, ktOrderids := [])) in trace[..k] && Runs(trace[..k], so.strategyName)
            && forall id <- so.ktOrderids :: SentFor(trace[..k], id, so, tick)
  {
    hide Replayed, Legal, Allowed, Crosses, SentFor, Runs;
    EventAllowed(trace, k);
    assert trace[k] == Fired(trace[k].order, trace[k].tick);
    TriggerAllowed(trace[..k], trace[k].order, trace[k].tick);
  }

  lemma TriggerAllowed(trace: seq<Event>, so: StopOrder, tick: TickData)
    requires Legal(trace) && Allowed(Replayed(trace), Fired(so, tick))
    ensures so.ktSymbol == tick.ktSymbol && Crosses(so, tick) && so.status == TRIGGERED && so.ktOrderids != []
    ensures Told(so.(status := WAITING, ktOrderids := [])) in trace && Runs(trace, so.strategyName)
    ensures forall id <- so.ktOrderids :: SentFor(trace, id, so, tick)
  {
    hide Replayed, Legal, Triggers, Crosses, Executes, SentFor, Runs;
    LiveWasAnnounced(trace, so.stopOrderid);
    LiveUnderOwnId(trace);
    LiveWhileRunning(trace);
    RunningMeansRuns(trace, so.strategyName);
    forall id <- so.ktOrderids ensures SentFor(trace, id, so, tick) { LegWasSent(trace, id, so, tick); }
  }

  ghost predicate SentFor(trace: seq<Event>, id: string, so: StopOrder, tick: TickData) {
    exists e <- trace :: && e.Sent? && e.ktOrderid == id
                         && e.asked.direction == so.direction && e.asked.offset == so.offset
                         && e.asked.volume == so.volume && e.asked.orderType == LIMIT
                         && e.asked.price == TriggerPrice(so.direction, tick)
                         && (Bracketed(tick) ==> Marketable(e.asked.price, so, tick))
  }

  lemma LegWasSent(trace: seq<Event>, id: string, so: StopOrder, tick: TickData)
    requires Legal(trace) && id in Replayed(trace).requests
    requires Executes(Replayed(trace).requests[id], so, tick) && Crosses(so, tick)
    ensures SentFor(trace, id, so, tick)
  {
    hide Replayed, Legal, Crosses, TriggerPrice, Bracketed, Marketable;
    TriggerPriceFills(so, tick);
    RequestWasSent(trace, id);
  }

  // ---- attempts to send ----

  /** What an exchange's answer to one leg looks like; the empty id is a refusal. */
  function Answer(leg: OrderRequest, asked: OrderRequest, id: string): Event {
    if id == "" then Declined(leg, asked) else Sent(id, leg, asked)
  }

  function Answers(asked: OrderRequest, legs: seq<OrderRequest>, ids: seq<string>): (es: seq<Event>)
    requires |legs| == |ids|
    ensures |es| == |legs| && forall i :: 0 <= i < |legs| ==> es[i] == Answer(legs[i], asked, ids[i])
  {
    seq(|legs|, i requires 0 <= i < |legs| => Answer(legs[i], asked, ids[i]))
  }

  /** The ids of the legs that were taken. */
  function Taken(ids: seq<string>): seq<string> {
    if ids == [] then []
    else Taken(ids[..|ids| - 1]) + if ids[|ids| - 1] == "" then [] else [ids[|ids| - 1]]
  }

  /** From `before` to `after`, `asked` was asked for once, each of its legs was put to the exchange once and in
      turn, the exchange took those under `taken`, and nothing else happened. */
  ghost predicate Attempt(before: seq<Event>, after: seq<Event>, asked: OrderRequest, taken: seq<string>) {
    exists legs, ids :: |legs| == |ids| && Taken(ids) == taken
                        && after == before + [Requested(asked, legs)] + Answers(asked, legs, ids)
  }

  /** At some time since the history was `from` long. */
  ghost predicate AttemptedSince(trace: seq<Event>, from: nat, asked: OrderRequest, taken: seq<string>) {
    exists k, n :: from <= k <= n <= |trace| && Attempt(trace[..k], trace[..n], asked, taken)
  }

  lemma AnswersGrow(asked: OrderRequest, legs: seq<OrderRequest>, ids: seq<string>, leg: OrderRequest, id: string)
    requires |legs| == |ids|
    ensures Answers(asked, legs + [leg], ids + [id]) == Answers(asked, legs, ids) + [Answer(leg, asked, id)]
    ensures Taken(ids + [id]) == Taken(ids) + if id == "" then [] else [id]
  {
    assert (ids + [id])[..|ids|] == ids;
  }

  lemma NoAnswers(asked: OrderRequest)
    ensures Answers(asked, [], []) == [] && Taken([]) == []
  {
  }

  lemma AttemptMade(before: seq<Event>, after: seq<Event>, asked: OrderRequest, legs: seq<OrderRequest>,
                    ids: seq<string>)
    requires |legs| == |ids| && after == before + [Requested(asked, legs)] + Answers(asked, legs, ids)
    ensures Attempt(before, after, asked, Taken(ids)) && before <= after
  {
    hide Answers, Taken;
  }

  lemma AttemptSince(before: seq<Event>, after: seq<Event>, trace: seq<Event>, from: nat, asked: OrderRequest,
                     taken: seq<string>)
    requires Attempt(before, after, asked, taken) && before <= after <= trace && from <= |before|
    ensures AttemptedSince(trace, from, asked, taken)
  {
    hide Attempt;
    assert trace[..|before|] == before && trace[..|after|] == after;
  }

  lemma AttemptSinceStays(a: seq<Event>, b: seq<Event>, from: nat, asked: OrderRequest, taken: seq<string>)
    requires AttemptedSince(a, from, asked, taken) && a <= b
    ensures AttemptedSince(b, from, asked, taken)
  {
    hide Attempt;
    var k, n :| from <= k <= n <= |a| && Attempt(a[..k], a[..n], asked, taken);
    assert b[..k] == a[..k] && b[..n] == a[..n];
  }

  lemma {:induction false} NoneTaken(ids: seq<string>)
    requires Taken(ids) == []
    ensures forall i :: 0 <= i < |ids| ==> ids[i] == ""
  {
    if ids == [] {
    } else {
      NoneTaken(ids[..|ids| - 1]);
    }
  }

  /** A refused request was put to the exchange leg by leg and every leg was declined; there was at least one,
      unless no volume was asked for. */
  lemma RefusalMeansDeclined(trace: seq<Event>, from: nat, asked: OrderRequest)
    returns (k: nat, legs: seq<OrderRequest>)
    requires Legal(trace) && AttemptedSince(trace, from, asked, [])
    ensures from <= k && k + 1 + |legs| <= |trace| && trace[k] == Requested(asked, legs)
    ensures forall i :: 0 <= i < |legs| ==> trace[k + 1 + i] == Declined(legs[i], asked)
    ensures forall leg <- legs :: LegOf(leg, asked)
    ensures asked.volume > 0 ==> legs != []
  {
    hide Legal, Replayed, Taken, Answers, LegOf, Executes, Crosses, IsLocal;
    var n, ids;
    k, n :| from <= k <= n <= |trace| && Attempt(trace[..k], trace[..n], asked, []);
    legs, ids :| |legs| == |ids| && Taken(ids) == []
                 && trace[..n] == trace[..k] + [Requested(asked, legs)] + Answers(asked, legs, ids);
    NoneTaken(ids);
    AttemptAt(trace[..k], trace, asked, legs, ids);
    RequestAllowed(trace, k);
  }

  lemma AttemptAt(before: seq<Event>, trace: seq<Event>, asked: OrderRequest, legs: seq<OrderRequest>, ids: seq<string>)
    requires |legs| == |ids|
    requires before + [Requested(asked, legs)] + Answers(asked, legs, ids) <= trace
    ensures var k := |before|;
            && k + 1 + |legs| <= |trace| && trace[k] == Requested(asked, legs)
            && forall i :: 0 <= i < |legs| ==> trace[k + 1 + i] == Answer(legs[i], asked, ids[i])
  {
    var es := Answers(asked, legs, ids);
    hide Answer, Answers;
    Joined(before, Requested(asked, legs), es);
    Shares(before + [Requested(asked, legs)] + es, trace);
  }

  lemma Joined<T>(a: seq<T>, x: T, b: seq<T>)
    ensures (a + [x] + b)[|a|] == x && forall i :: 0 <= i < |b| ==> (a + [x] + b)[|a| + 1 + i] == b[i]
  {
  }

  lemma Shares<T>(a: seq<T>, b: seq<T>)
    requires a <= b
    ensures forall i :: 0 <= i < |a| ==> a[i] == b[i]
  {
  }

  lemma RequestAllowed(trace: seq<Event>, k: nat)
    requires Legal(trace) && k < |trace| && trace[k].Requested?
    ensures forall leg <- trace[k].legs :: LegOf(leg, trace[k].asked)
    ensures trace[k].legs == [] ==> trace[k].asked.volume <= 0
  {
    hide Replayed, Legal, LegOf, Allowed;
    EventAllowed(trace, k);
    RequestSound(Replayed(trace[..k]), trace[k]);
  }

  lemma RequestSound(s: Seen, e: Event)
    requires Allowed(s, e) && e.Requested?
    ensures (forall leg <- e.legs :: LegOf(leg, e.asked)) && (e.legs == [] ==> e.asked.volume <= 0)
  {
  }

  lemma {:induction false} TakenHasPlace(ids: seq<string>, id: string)
    requires id in Taken(ids)
    ensures id != "" && exists i :: 0 <= i < |ids| && ids[i] == id
  {
    var n := |ids| - 1;
    if ids[n] != id || ids[n] == "" {
      TakenHasPlace(ids[..n], id);
      var i :| 0 <= i < n && ids[..n][i] == id;
      assert ids[i] == id;
    }
  }

  /** What an attempt reports as taken was sent in it, for what was asked. */
  lemma TakenWasSent(before: seq<Event>, after: seq<Event>, asked: OrderRequest, taken: seq<string>, id: string)
    requires Attempt(before, after, asked, taken) && id in taken
    ensures exists e <- after[|before|..] :: e.Sent? && e.ktOrderid == id && e.asked == asked
  {
    hide Taken, Answers;
    var legs, ids :| |legs| == |ids| && Taken(ids) == taken
                     && after == before + [Requested(asked, legs)] + Answers(asked, legs, ids);
    TakenHasPlace(ids, id);
    var i :| 0 <= i < |ids| && ids[i] == id;
    AttemptAt(before, after, asked, legs, ids);
    assert after[|before|..][1 + i] == Answer(legs[i], asked, id);
  }

  // ---- the end of a stop order ----

  /** The event that ends the wait of a stop order. */
  predicate Ends(e: Event, so: StopOrder) {
    || (e.Cancelled? && e.order == so.(status := StopOrderStatus.CANCELLED))
    || (e.Fired? && e.order == so.(status := TRIGGERED, ktOrderids := e.order.ktOrderids))
  }

  /** The end of a stop order was told since the history was `from` long. */
  ghost predicate Ended(trace: seq<Event>, from: nat, so: StopOrder) {
    from <= |trace| && exists e <- trace[from..] :: Ends(e, so)
  }

  /** A stop order that waits goes on waiting as it stands until its end is told. */
  lemma {:induction false} LiveUntilTold(a: seq<Event>, b: seq<Event>, id: string)
    requires a <= b && Legal(b) && id in Replayed(a).live
    ensures Ended(b, |a|, Replayed(a).live[id])
            || (id in Replayed(b).live && Replayed(b).live[id] == Replayed(a).live[id])
    decreases |b|
  {
    hide Legal, Replayed, Triggers, Allowed, After, Ends, Ended;
    assert |a| == |b| ==> a == b;
    if |a| < |b| {
      var init, last, so := b[..|b| - 1], b[|b| - 1], Replayed(a).live[id];
      assert b == init + [last];
      OneMore(init, last);
      LiveUntilTold(a, init, id);
      if Ended(init, |a|, so) {
        EndedStays(init, b, |a|, so);
      } else {
        LifeCycle(init, id);
        StepKeepsOrEnds(Replayed(init), last, id, Statuses(init, id));
        EndedNow(init, last, |a|, so);
      }
    }
  }

  lemma StepKeepsOrEnds(s: Seen, e: Event, id: string, h: seq<StopOrderStatus>)
    requires Allowed(s, e) && OnceThrough(s, id, h) && id in s.live
    ensures Ends(e, s.live[id]) || (id in After(s, e).live && After(s, e).live[id] == s.live[id])
  {
    NextIsNew(s.count);
    hide Issued, LocalId, Crosses, Executes, LegOf;
  }

  lemma EndedStays(a: seq<Event>, b: seq<Event>, from: nat, so: StopOrder)
    requires Ended(a, from, so) && a <= b
    ensures Ended(b, from, so)
  {
    hide Ends;
    var e :| e in a[from..] && Ends(e, so);
    assert a[from..] <= b[from..];
    assert e in b[from..];
  }

  lemma EndedNow(trace: seq<Event>, e: Event, from: nat, so: StopOrder)
    requires from <= |trace|
    ensures Ends(e, so) ==> Ended(trace + [e], from, so)
  {
    hide Ends;
    assert (trace + [e])[from..] == trace[from..] + [e];
    assert e in trace[from..] + [e];
  }

  /** A stop order that waited and no longer does was told cancelled or triggered in between. */
  lemma GoneWasTold(a: seq<Event>, b: seq<Event>, id: string)
    requires a <= b && Legal(b) && id in Replayed(a).live && id !in Replayed(b).live
    ensures Ended(b, |a|, Replayed(a).live[id])
  {
    hide Legal, Replayed, Ended;
    LiveUntilTold(a, b, id);
  }

  /** Whatever triggered between `a` and `b` is among the triggers added. */
  lemma {:induction false} TriggersAdded(a: seq<Event>, b: seq<Event>)
    requires a <= b
    ensures Triggers(a) <= Triggers(b)
    ensures forall e <- b[|a|..] | e.Fired? :: e in Triggers(b)[|Triggers(a)|..]
    decreases |b|
  {
    assert |a| == |b| ==> a == b;
    if |a| < |b| {
      var init, last := b[..|b| - 1], b[|b| - 1];
      assert b[|a|..] == init[|a|..] + [last];
      TriggersAdded(a, init);
      var n := |Triggers(a)|;
      assert Triggers(b)[n..] == Triggers(init)[n..] + TriggerIn(last);
    }
  }

  /** How a triggered stop order is told, if any leg was taken. */
  function Outcome(so: StopOrder, tick: TickData, taken: seq<string>): seq<Event> {
    if taken == [] then [] else [Fired(so.(status := TRIGGERED, ktOrderids := taken), tick)]
  }

  /** The order was told cancelled since the history was `from` long. */
  ghost predicate CancelledSince(trace: seq<Event>, from: nat, so: StopOrder) {
    from <= |trace| && exists e <- trace[from..] :: e.Cancelled? && Ends(e, so)
  }

  lemma CancelledSinceStays(a: seq<Event>, b: seq<Event>, from: nat, so: StopOrder)
    requires CancelledSince(a, from, so) && a <= b
    ensures CancelledSince(b, from, so)
  {
    var e :| e in a[from..] && e.Cancelled? && Ends(e, so);
    assert a[from..] <= b[from..];
    assert e in b[from..];
  }

  lemma CancelledSooner(trace: seq<Event>, from: nat, sooner: nat, so: StopOrder)
    requires CancelledSince(trace, from, so) && sooner <= from
    ensures CancelledSince(trace, sooner, so)
  {
    var e :| e in trace[from..] && e.Cancelled? && Ends(e, so);
    assert trace[from..] == trace[sooner..][from - sooner..];
    assert e in trace[sooner..];
  }
}
