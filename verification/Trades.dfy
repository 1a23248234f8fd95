/** What a stream of trades adds up to: in the holding, and in a strategy's own `pos`. */
module Trades {
  import opened Holding
  import opened Market
  import opened Options

  function Signed(t: TradeData): int { if t.direction == LONG then t.volume else -t.volume }

  function Moved(t: TradeData): int { if t.offset == NONE then 0 else Signed(t) }

  function OpenedLessClosed(t: TradeData): int {
    if t.offset == NONE then 0 else if t.offset == OPEN then t.volume else -t.volume
  }

  function AllTraded(b: Book, ts: seq<TradeData>): Book {
    if ts == [] then b else Traded(AllTraded(b, ts[..|ts| - 1]), ts[|ts| - 1])
  }

  function Sum(ts: seq<TradeData>, f: TradeData -> int): int {
    if ts == [] then 0 else Sum(ts[..|ts| - 1], f) + f(ts[|ts| - 1])
  }

  /** What was opened is today's volume, so closing as much of today's takes it back. */
  lemma OpenThenCloseToday(b: Book, opening: TradeData, closing: TradeData)
    requires opening.offset == OPEN && closing.offset == CLOSETODAY && closing.volume == opening.volume
    requires opening.direction == LONG <==> closing.direction != LONG
    ensures var b' := Traded(Traded(b, opening), closing);
            && b'.long.td == b.long.td && b'.long.yd == b.long.yd
            && b'.short.td == b.short.td && b'.short.yd == b.short.yd
  {
  }

  /** What a closing trade takes from the side it closes, and only there: today's or yesterday's volume as it says;
      a plain CLOSE takes yesterday's on SHFE and INE, and elsewhere today's as far as that reaches. */
  lemma ClosingTakes(b: Book, t: TradeData)
    requires t.offset in {CLOSE, CLOSETODAY, CLOSEYESTERDAY} && t.volume >= 0
    ensures var d, b' := t.direction, Traded(b, t);
            var s, s' := b.Closed(d), b'.Closed(d);
            var other, other' := if d == LONG then b.long else b.short, if d == LONG then b'.long else b'.short;
            && other'.td == other.td && other'.yd == other.yd && b'.orders == b.orders
            && s'.td + s'.yd == s.td + s.yd - t.volume
            && (t.offset == CLOSETODAY ==> s'.yd == s.yd)
            && (t.offset == CLOSEYESTERDAY ==> s'.td == s.td)
            && (t.offset == CLOSE ==>
                  if t.exchange == SHFE || t.exchange == INE then s'.td == s.td
                  else if t.volume <= s.td then s'.yd == s.yd else s'.td == 0)
  {
  }

  lemma TradeConserves(b: Book, t: TradeData)
    ensures var b' := Traded(b, t);
            && b'.long.pos == b'.long.td + b'.long.yd && b'.short.pos == b'.short.td + b'.short.yd
            && (b.long.pos == b.long.td + b.long.yd && b.short.pos == b.short.td + b.short.yd ==>
                  && b'.long.pos - b'.short.pos == b.long.pos - b.short.pos + Moved(t)
                  && b'.long.pos + b'.short.pos == b.long.pos + b.short.pos + OpenedLessClosed(t))
  {
  }

  /** Over any stream of trades the two sides keep `pos == td + yd`, their difference moves by the
      signed volume and their sum by opens less closes, whatever the spill between td and yd. */
  lemma {:induction false} TradesConserve(b: Book, ts: seq<TradeData>)
    requires b.long.pos == b.long.td + b.long.yd && b.short.pos == b.short.td + b.short.yd
    ensures var b' := AllTraded(b, ts);
            && b'.long.pos == b'.long.td + b'.long.yd && b'.short.pos == b'.short.td + b'.short.yd
            && b'.long.pos - b'.short.pos == b.long.pos - b.short.pos + Sum(ts, Moved)
            && b'.long.pos + b'.short.pos == b.long.pos + b.short.pos + Sum(ts, OpenedLessClosed)
  {
    if ts == [] {
    } else {
      TradesConserve(b, ts[..|ts| - 1]);
      hide AllTraded, Sum;
      TradeConserves(AllTraded(b, ts[..|ts| - 1]), ts[|ts| - 1]);
    }
  }

  // ---- the strategy's position ----

  /** A trade as the strategy engine hears of it, with the owner its order has at that moment. */
  datatype Delivery<T> = Delivery(trade: TradeData, owner: Option<T>)

  function TradesOf<T>(ds: seq<Delivery<T>>): (ts: seq<TradeData>)
    ensures |ts| == |ds| && forall i :: 0 <= i < |ds| ==> ts[i] == ds[i].trade
  {
    seq(|ds|, i requires 0 <= i < |ds| => ds[i].trade)
  }

  /** The trade ids heard of. */
  function Heard<T>(ds: seq<Delivery<T>>): set<string> {
    if ds == [] then {} else Heard(ds[..|ds| - 1]) + {ds[|ds| - 1].trade.ktTradeid}
  }

  /** The last delivery is the first of its trade and goes to `s`. */
  predicate FirstFor<T(==)>(ds: seq<Delivery<T>>, s: T)
    requires ds != []
  {
    var last := ds[|ds| - 1];
    last.trade.ktTradeid !in Heard(ds[..|ds| - 1]) && last.owner == Some(s)
  }

  /** What `process_trade_event` has added to the position of `s`. */
  function Credited<T(==)>(ds: seq<Delivery<T>>, s: T): int {
    if ds == [] then 0
    else Credited(ds[..|ds| - 1], s) + if FirstFor(ds, s) then Signed(ds[|ds| - 1].trade) else 0
  }

  lemma OneDelivery<T>(ds: seq<Delivery<T>>, d: Delivery<T>, s: T)
    ensures Heard(ds + [d]) == Heard(ds) + {d.trade.ktTradeid}
    ensures Credited(ds + [d], s) == Credited(ds, s)
              + if d.trade.ktTradeid !in Heard(ds) && d.owner == Some(s) then Signed(d.trade) else 0
  {
    assert (ds + [d])[..|ds|] == ds;
  }

  lemma HeardMore<T>(ds: seq<Delivery<T>>, d: Delivery<T>)
    ensures Heard(ds + [d]) == Heard(ds) + {d.trade.ktTradeid}
    ensures TradesOf(ds + [d]) == TradesOf(ds) + [d.trade]
  {
    assert (ds + [d])[..|ds|] == ds;
  }

  lemma {:induction false} NeverOwnedNothing<T>(ds: seq<Delivery<T>>, s: T)
    requires forall d <- ds :: d.owner != Some(s)
    ensures Credited(ds, s) == 0
  {
    if ds == [] {
    } else {
      assert ds[|ds| - 1] in ds && forall d <- ds[..|ds| - 1] :: d in ds;
      NeverOwnedNothing(ds[..|ds| - 1], s);
    }
  }

  // ---- the position as a sum over trades ----

  /** A trade id names one trade. */
  ghost predicate IdsNameTrades(ts: seq<TradeData>) {
    forall t <- ts, u <- ts :: t.ktTradeid == u.ktTradeid ==> t == u
  }

  ghost function SetSum(ts: set<TradeData>): int {
    if ts == {} then 0 else var t :| t in ts; Signed(t) + SetSum(ts - {t})
  }

  lemma {:induction false} SetSumRemove(ts: set<TradeData>, t: TradeData)
    requires t in ts
    ensures SetSum(ts) == Signed(t) + SetSum(ts - {t})
    decreases |ts|
  {
    var u :| u in ts && SetSum(ts) == Signed(u) + SetSum(ts - {u});
    if u != t {
      SetSumRemove(ts - {u}, t);
      SetSumRemove(ts - {t}, u);
      assert ts - {u} - {t} == ts - {t} - {u};
    }
  }

  lemma SetSumAdd(ts: set<TradeData>, t: TradeData)
    requires t !in ts
    ensures SetSum(ts + {t}) == SetSum(ts) + Signed(t)
  {
    SetSumRemove(ts + {t}, t);
    assert ts + {t} - {t} == ts;
  }

  /** The trades of the orders `owned`, each once. */
  ghost function Owned<T>(ds: seq<Delivery<T>>, owned: set<string>): set<TradeData> {
    set t | t in TradesOf(ds) && t.ktOrderid in owned
  }

  /** Those of them that were first heard of while `s` did not own their order. */
  ghost function Missed<T>(ds: seq<Delivery<T>>, s: T, owned: set<string>): set<TradeData> {
    if ds == [] then {}
    else
      var init, last := ds[..|ds| - 1], ds[|ds| - 1];
      Missed(init, s, owned) +
      if last.trade.ktTradeid !in Heard(init) && last.owner != Some(s) && last.trade.ktOrderid in owned
      then {last.trade} else {}
  }

  /** What `s` is credited with belongs to the orders `owned`. */
  predicate OnlyOwned<T(==)>(ds: seq<Delivery<T>>, s: T, owned: set<string>) {
    forall d <- ds :: d.owner == Some(s) ==> d.trade.ktOrderid in owned
  }

  lemma {:induction false} HeardIds<T>(ds: seq<Delivery<T>>, t: TradeData)
    requires t in TradesOf(ds)
    ensures t.ktTradeid in Heard(ds)
  {
    if ds == [] {
    } else {
      var init, last := ds[..|ds| - 1], ds[|ds| - 1];
      assert TradesOf(ds) == TradesOf(init) + [last.trade];
      if t != last.trade { HeardIds(init, t); }
    }
  }

  lemma {:induction false} HeardFrom<T>(ds: seq<Delivery<T>>, id: string) returns (t: TradeData)
    requires id in Heard(ds)
    ensures t in TradesOf(ds) && t.ktTradeid == id
  {
    var init, last := ds[..|ds| - 1], ds[|ds| - 1];
    assert TradesOf(ds) == TradesOf(init) + [last.trade];
    if last.trade.ktTradeid == id {
      t := last.trade;
      assert TradesOf(ds)[|init|] == t;
    } else {
      t := HeardFrom(init, id);
    }
  }

  lemma {:induction false} MissedWasHeard<T>(ds: seq<Delivery<T>>, s: T, owned: set<string>)
    ensures Missed(ds, s, owned) <= Owned(ds, owned)
  {
    if ds == [] {
    } else {
      var init, last := ds[..|ds| - 1], ds[|ds| - 1];
      MissedWasHeard(init, s, owned);
      OwnedGrows(ds, owned);
    }
  }

  lemma OwnedGrows<T>(ds: seq<Delivery<T>>, owned: set<string>)
    requires ds != []
    ensures var init, last := ds[..|ds| - 1], ds[|ds| - 1].trade;
            Owned(ds, owned) == Owned(init, owned) + if last.ktOrderid in owned then {last} else {}
  {
    var init, last := ds[..|ds| - 1], ds[|ds| - 1].trade;
    assert TradesOf(ds) == TradesOf(init) + [last];
  }

  /** On any run the position is the signed sum over the distinct trades of the strategy's orders, less those
      first heard of while it did not own their order. */
  lemma {:induction false} CreditedSum<T>(ds: seq<Delivery<T>>, s: T, owned: set<string>)
    requires IdsNameTrades(TradesOf(ds)) && OnlyOwned(ds, s, owned)
    ensures Credited(ds, s) == SetSum(Owned(ds, owned)) - SetSum(Missed(ds, s, owned))
  {
    if ds == [] {
    } else {
      var init, last := ds[..|ds| - 1], ds[|ds| - 1];
      assert last in ds && forall d <- init :: d in ds;
      TradesOfInit(ds);
      CreditedSum(init, s, owned);
      hide SetSum, Heard, Credited, Owned, Missed, TradesOf, IdsNameTrades;
      if last.trade.ktTradeid in Heard(init) {
        RepeatedTrade(ds, s, owned);
      } else {
        NewTrade(ds, s, owned);
      }
    }
  }

  lemma TradesOfInit<T>(ds: seq<Delivery<T>>)
    requires ds != []
    ensures var init, last := ds[..|ds| - 1], ds[|ds| - 1];
            && TradesOf(ds) == TradesOf(init) + [last.trade] && last.trade in TradesOf(ds)
            && (IdsNameTrades(TradesOf(ds)) ==> IdsNameTrades(TradesOf(init)))
  {
    var init, last := ds[..|ds| - 1], ds[|ds| - 1];
    assert TradesOf(ds) == TradesOf(init) + [last.trade];
    assert TradesOf(ds)[|init|] == last.trade;
    assert forall t <- TradesOf(init) :: t in TradesOf(ds);
  }

  lemma RepeatedTrade<T>(ds: seq<Delivery<T>>, s: T, owned: set<string>)
    requires ds != [] && IdsNameTrades(TradesOf(ds))
    requires ds[|ds| - 1].trade.ktTradeid in Heard(ds[..|ds| - 1])
    ensures var init := ds[..|ds| - 1];
            && Credited(ds, s) == Credited(init, s)
            && Owned(ds, owned) == Owned(init, owned) && Missed(ds, s, owned) == Missed(init, s, owned)
  {
    var init, last := ds[..|ds| - 1], ds[|ds| - 1];
    TradesOfInit(ds);
    OwnedGrows(ds, owned);
    var t := HeardFrom(init, last.trade.ktTradeid);
    hide Heard, TradesOf;
    assert t in TradesOf(ds) && t == last.trade;
  }

  lemma NewTrade<T>(ds: seq<Delivery<T>>, s: T, owned: set<string>)
    requires ds != [] && OnlyOwned(ds, s, owned)
    requires ds[|ds| - 1].trade.ktTradeid !in Heard(ds[..|ds| - 1])
    requires var init := ds[..|ds| - 1];
             Credited(init, s) == SetSum(Owned(init, owned)) - SetSum(Missed(init, s, owned))
    ensures Credited(ds, s) == SetSum(Owned(ds, owned)) - SetSum(Missed(ds, s, owned))
  {
    var init, last := ds[..|ds| - 1], ds[|ds| - 1];
    assert last in ds;
    if last.trade in TradesOf(init) { HeardIds(init, last.trade); }
    OwnedGrows(ds, owned);
    MissedWasHeard(init, s, owned);
    assert last.trade !in Owned(init, owned);
    hide SetSum, Heard, TradesOf, Owned;
    SetSumAdd(Owned(init, owned), last.trade);
    SetSumAdd(Missed(init, s, owned), last.trade);
    assert Owned(init, owned) + {} == Owned(init, owned) && Missed(init, s, owned) + {} == Missed(init, s, owned);
  }

  /** Every trade of the orders `owned` was first heard of while `s` owned its order. */
  predicate FirstHeardWhileOwned<T(==)>(ds: seq<Delivery<T>>, s: T, owned: set<string>) {
    ds == [] ||
    var init, last := ds[..|ds| - 1], ds[|ds| - 1];
    && FirstHeardWhileOwned(init, s, owned)
    && (last.trade.ktTradeid !in Heard(init) && last.trade.ktOrderid in owned ==> last.owner == Some(s))
  }

  lemma {:induction false} NothingMissed<T>(ds: seq<Delivery<T>>, s: T, owned: set<string>)
    ensures FirstHeardWhileOwned(ds, s, owned) <==> Missed(ds, s, owned) == {}
  {
    if ds == [] {
    } else {
      NothingMissed(ds[..|ds| - 1], s, owned);
    }
  }

  /** Then the order and the repetition of deliveries do not matter. */
  lemma DeliveryOrderIrrelevant<T>(ds: seq<Delivery<T>>, es: seq<Delivery<T>>, s: T, owned: set<string>)
    requires IdsNameTrades(TradesOf(ds)) && forall t :: t in TradesOf(ds) <==> t in TradesOf(es)
    requires OnlyOwned(ds, s, owned) && OnlyOwned(es, s, owned)
    requires FirstHeardWhileOwned(ds, s, owned) && FirstHeardWhileOwned(es, s, owned)
    ensures Credited(ds, s) == Credited(es, s) == SetSum(Owned(ds, owned))
  {
    CreditedSum(ds, s, owned);
    CreditedSum(es, s, owned);
    NothingMissed(ds, s, owned);
    NothingMissed(es, s, owned);
    assert Owned(ds, owned) == Owned(es, owned);
  }

  /** Without that they do: the same two deliveries of one trade, in either order. */
  lemma EarlyTradeIsLost<T>(t: TradeData, s: T)
    ensures Credited([Delivery(t, None), Delivery(t, Some(s))], s) == 0
    ensures Credited([Delivery(t, Some(s)), Delivery(t, None)], s) == Signed(t)
  {
    var none, some := Delivery(t, None), Delivery(t, Some(s));
    assert Credited<T>([], s) == 0 && Heard<T>([]) == {};
    OneDelivery([], none, s);
    OneDelivery([none], some, s);
    OneDelivery([], some, s);
    OneDelivery([some], none, s);
    assert [] + [none] == [none] && [none] + [some] == [none, some];
    assert [] + [some] == [some] && [some] + [none] == [some, none];
  }

  /** When every trade is of the strategy's orders and reaches the holding once, then however often and in
      whatever order the engine hears of it, the position is the holding's net change. */
  lemma PosIsNetChange<T>(b: Book, once: seq<TradeData>, ds: seq<Delivery<T>>, s: T, owned: set<string>)
    requires b.long.pos == b.long.td + b.long.yd && b.short.pos == b.short.td + b.short.yd
    requires forall i, j :: 0 <= i < j < |once| ==> once[i].ktTradeid != once[j].ktTradeid
    requires forall t <- once :: t.ktOrderid in owned && t.offset != NONE
    requires forall t :: t in once <==> t in TradesOf(ds)
    requires OnlyOwned(ds, s, owned) && FirstHeardWhileOwned(ds, s, owned)
    ensures var b' := AllTraded(b, once);
            Credited(ds, s) == (b'.long.pos - b'.short.pos) - (b.long.pos - b.short.pos)
  {
    CreditedSum(ds, s, owned);
    NothingMissed(ds, s, owned);
    TradesConserve(b, once);
    SumOnce(once);
    assert Owned(ds, owned) == (set t | t in once);
  }

  lemma {:induction false} SumOnce(ts: seq<TradeData>)
    requires forall i, j :: 0 <= i < j < |ts| ==> ts[i].ktTradeid != ts[j].ktTradeid
    requires forall t <- ts :: t.offset != NONE
    ensures Sum(ts, Moved) == SetSum(set t | t in ts)
  {
    if ts == [] {
    } else {
      var init, last := ts[..|ts| - 1], ts[|ts| - 1];
      assert last in ts && forall t <- init :: t in ts;
      SumOnce(init);
      SetSumAdd((set t | t in init), last);
      assert (set t | t in ts) == (set t | t in init) + {last};
    }
  }
}
