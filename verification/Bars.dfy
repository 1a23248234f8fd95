/** `BarGenerator`: ticks in, one-minute bars out, against the bars one gets by grouping the ticks. */
module Bars {

  import opened Market
  import opened Options

  const MINUTE := 60000

  /** `getMinutes`. */
  function Minutes(datetime: nat): nat { datetime / MINUTE }

  /** `replaceMinutes`. */
  function ReplaceMinutes(datetime: nat): nat { Minutes(datetime) * MINUTE }

  // ---- the specification: group, then summarise ----

  /** What the generator is given: a tick whose price is not zero, or a call of `generate`. */
  datatype Input = Tick(tick: TickData) | Flush

  /** How many ticks from the front are of one minute. */
  function Together(es: seq<Input>): (n: nat)
    requires es != [] && es[0].Tick?
    ensures 1 <= n <= |es|
    ensures forall i :: 0 <= i < n ==> es[i].Tick? && Minutes(es[i].tick.datetime) == Minutes(es[0].tick.datetime)
    ensures n < |es| ==> es[n].Flush? || Minutes(es[n].tick.datetime) != Minutes(es[0].tick.datetime)
  {
    if |es| > 1 && es[1].Tick? && Minutes(es[1].tick.datetime) == Minutes(es[0].tick.datetime)
    then 1 + Together(es[1..]) else 1
  }

  predicate AllTicks(g: seq<Input>) { g != [] && forall e <- g :: e.Tick? }

  function Highest(g: seq<Input>): real
    requires AllTicks(g)
  {
    if |g| == 1 then g[0].tick.lastPrice else Higher(Highest(g[..|g| - 1]), g[|g| - 1].tick.lastPrice)
  }

  function Lowest(g: seq<Input>): real
    requires AllTicks(g)
  {
    if |g| == 1 then g[0].tick.lastPrice else Lower(Lowest(g[..|g| - 1]), g[|g| - 1].tick.lastPrice)
  }

  /** By how much a tick raises the day's volume; without a tick before it, not at all. */
  function Rise(before: Option<TickData>, t: TickData): real {
    if before.None? then 0.0 else Higher(t.volume - before.value.volume, 0.0)
  }

  /** The last tick of `es`, or `before` when it has none. */
  function LastTick(es: seq<Input>, before: Option<TickData>): Option<TickData> {
    if es == [] then before
    else if es[|es| - 1].Tick? then Some(es[|es| - 1].tick)
    else LastTick(es[..|es| - 1], before)
  }

  /** The sum of the rises over consecutive ticks. */
  function Rises(es: seq<Input>, before: Option<TickData>): real {
    if es == [] then 0.0
    else
      var init, last := es[..|es| - 1], es[|es| - 1];
      Rises(init, before) + if last.Tick? then Rise(LastTick(init, before), last.tick) else 0.0
  }

  /** One minute's ticks in one bar: first, highest, lowest and last price, the rises in volume. The time
      is the last tick's while the bar is open. */
  function Summary(g: seq<Input>, before: Option<TickData>): BarData
    requires AllTicks(g)
  {
    var first, last := g[0].tick, g[|g| - 1].tick;
    BarData(first.symbol, first.exchangeName, last.datetime, Rises(g, before), last.openInterest,
            first.lastPrice, Highest(g), Lowest(g), last.lastPrice)
  }

  /** All groups in order, summarised. */
  function Summaries(es: seq<Input>, before: Option<TickData>): (bs: seq<BarData>)
    ensures es != [] && es[|es| - 1].Tick? ==> bs != []
    decreases |es|
  {
    if es == [] then []
    else if es[0].Flush? then Summaries(es[1..], before)
    else
      var n := Together(es);
      [Summary(es[..n], before)] + Summaries(es[n..], Some(es[n - 1].tick))
  }

  function Stamped(b: BarData): BarData { b.(datetime := ReplaceMinutes(b.datetime)) }

  function AllStamped(bs: seq<BarData>): (r: seq<BarData>)
    ensures |r| == |bs| && forall i :: 0 <= i < |bs| ==> r[i] == Stamped(bs[i])
  {
    if bs == [] then [] else AllStamped(bs[..|bs| - 1]) + [Stamped(bs[|bs| - 1])]
  }

  predicate Open(es: seq<Input>) { es != [] && es[|es| - 1].Tick? }

  /** The bars that are out: every group but the one still open. */
  function Emitted(es: seq<Input>): seq<BarData> { Out(Summaries(es, None), Open(es)) }

  function Out(bs: seq<BarData>, open: bool): seq<BarData>
    requires open ==> bs != []
  {
    AllStamped(if open then bs[..|bs| - 1] else bs)
  }

  function Pending(es: seq<Input>): Option<BarData> {
    var bs := Summaries(es, None);
    if Open(es) then Some(bs[|bs| - 1]) else None
  }

  // ---- one more input ----

  /** A tick of the minute that is open joins its bar; any other tick starts a bar. */
  function Joined(b: BarData, t: TickData, before: Option<TickData>): BarData {
    b.(datetime := t.datetime, volume := b.volume + Rise(before, t), openInterest := t.openInterest,
       highPrice := Higher(b.highPrice, t.lastPrice), lowPrice := Lower(b.lowPrice, t.lastPrice),
       closePrice := t.lastPrice)
  }

  function Fresh(t: TickData, before: Option<TickData>): BarData {
    BarData(t.symbol, t.exchangeName, t.datetime, Rise(before, t), t.openInterest, t.lastPrice, t.lastPrice,
            t.lastPrice, t.lastPrice)
  }

  predicate SameMinute(es: seq<Input>, t: TickData) {
    Open(es) && Minutes(es[|es| - 1].tick.datetime) == Minutes(t.datetime)
  }

  function Next(bs: seq<BarData>, es: seq<Input>, t: TickData, before: Option<TickData>): seq<BarData>
    requires Open(es) ==> bs != []
  {
    if SameMinute(es, t) then ReplaceLast(bs, Joined(bs[|bs| - 1], t, LastTick(es, before)))
    else bs + [Fresh(t, LastTick(es, before))]
  }

  function ReplaceLast(bs: seq<BarData>, b: BarData): seq<BarData>
    requires bs != []
  {
    bs[..|bs| - 1] + [b]
  }

  lemma {:induction false} TogetherGrows(es: seq<Input>, e: Input)
    requires es != [] && es[0].Tick?
    ensures var n := Together(es);
            Together(es + [e]) == if n == |es| && e.Tick? && SameMinute(es, e.tick) then n + 1 else n
    decreases |es|
  {
    if |es| > 1 {
      assert (es + [e])[1] == es[1] && (es + [e])[1..] == es[1..] + [e];
      if es[1].Tick? { TogetherGrows(es[1..], e); }
    } else {
      assert (es + [e])[1] == e && (es + [e])[1..] == [e];
    }
  }

  lemma SummaryGrows(g: seq<Input>, t: TickData, before: Option<TickData>)
    requires AllTicks(g)
    ensures AllTicks(g + [Tick(t)])
    ensures Summary(g + [Tick(t)], before) == Joined(Summary(g, before), t, LastTick(g, before))
  {
    assert (g + [Tick(t)])[..|g|] == g;
  }

  lemma LastTickSplit(a: seq<Input>, b: seq<Input>, before: Option<TickData>)
    ensures LastTick(a + b, before) == LastTick(b, LastTick(a, before))
  {
    if b == [] {
      assert a + b == a;
    } else {
      assert (a + b)[..|a + b| - 1] == a + b[..|b| - 1];
      LastTickSplit(a, b[..|b| - 1], before);
    }
  }

  lemma SummaryOfOne(t: TickData, before: Option<TickData>)
    ensures Summary([Tick(t)], before) == Fresh(t, before)
  {
    var g := [Tick(t)];
    assert g[..|g| - 1] == [] && g[|g| - 1].tick == t;
    assert Rises(g, before) == Rises([], before) + Rise(LastTick([], before), t);
  }

  lemma SummariesStep(es: seq<Input>, before: Option<TickData>)
    requires es != [] && es[0].Tick?
    ensures var n := Together(es);
            Summaries(es, before) == [Summary(es[..n], before)] + Summaries(es[n..], Some(es[n - 1].tick))
  {
    hide Together, Summary;
  }

  lemma ReplaceBehind(a: BarData, bs: seq<BarData>, b: BarData)
    requires bs != []
    ensures ([a] + bs)[|bs|] == bs[|bs| - 1] && ReplaceLast([a] + bs, b) == [a] + ReplaceLast(bs, b)
  {
    assert ([a] + bs)[..|bs|] == [a] + bs[..|bs| - 1];
  }

  /** A tick after a whole group does not touch its bar. */
  lemma NextBehind(b: BarData, bs: seq<BarData>, g: seq<Input>, rest: seq<Input>, t: TickData, before: Option<TickData>)
    requires rest != [] && (rest[|rest| - 1].Tick? ==> bs != [])
    ensures Next([b] + bs, g + rest, t, before) == [b] + Next(bs, rest, t, LastTick(g, before))
  {
    LastTickSplit(g, rest, before);
    assert (g + rest)[|g + rest| - 1] == rest[|rest| - 1];
    assert SameMinute(g + rest, t) == SameMinute(rest, t);
    var last := LastTick(rest, LastTick(g, before));
    hide LastTick, Joined, Fresh, ReplaceLast, Open, SameMinute;
    if SameMinute(rest, t) {
      assert Open(rest) by { assert SameMinute(rest, t); OpenIfSame(rest, t); }
      ReplaceBehind(b, bs, Joined(bs[|bs| - 1], t, last));
    } else {
      assert ([b] + bs) + [Fresh(t, last)] == [b] + (bs + [Fresh(t, last)]);
    }
  }

  lemma NextAfterWhole(b: BarData, g: seq<Input>, t: TickData, before: Option<TickData>)
    requires g != [] && g[|g| - 1].Tick? && !SameMinute(g, t)
    ensures Next([b], g, t, before) == [b] + Next([], [], t, LastTick(g, before))
  {
    hide Fresh;
    assert LastTick([], LastTick(g, before)) == LastTick(g, before);
    assert [b] + ([] + [Fresh(t, LastTick(g, before))]) == [b] + [Fresh(t, LastTick(g, before))];
  }

  lemma OpenIfSame(es: seq<Input>, t: TickData)
    requires SameMinute(es, t)
    ensures Open(es)
  {
  }

  /** The heart of the refinement: how the groups change when a tick arrives. */
  lemma {:induction false} SummariesOneTick(es: seq<Input>, t: TickData, before: Option<TickData>)
    ensures Summaries(es + [Tick(t)], before) == Next(Summaries(es, before), es, t, before)
    decreases |es|
  {
    hide Minutes, Together, Summary, LastTick, Fresh, Joined, ReplaceLast;
    if es == [] {
      FirstTick(t, before);
      assert es + [Tick(t)] == [Tick(t)];
    } else if es[0].Flush? {
      SummariesOneTick(es[1..], t, before);
      PassesFlush(es, t, before);
    } else {
      var n := Together(es);
      var rest, last := es[n..], Some(es[n - 1].tick);
      SummariesOneTick(rest, t, last);
      if n == |es| && SameMinute(es, t) { JoinsFirst(es, t, before); } else { PassesFirst(es, t, before); }
    }
  }

  lemma FirstTick(t: TickData, before: Option<TickData>)
    ensures Summaries([Tick(t)], before) == Next(Summaries([], before), [], t, before)
  {
    SummariesStep([Tick(t)], before);
    SummaryOfOne(t, before);
    NothingToSummarise(before, Some(t));
    hide Together, Summary, Summaries, Fresh;
    assert [Tick(t)][..1] == [Tick(t)] && [Tick(t)][1..] == [];
    assert Next([], [], t, before) == [] + [Fresh(t, before)];
  }

  lemma PassesFlush(es: seq<Input>, t: TickData, before: Option<TickData>)
    requires es != [] && es[0].Flush?
    requires Summaries(es[1..] + [Tick(t)], before) == Next(Summaries(es[1..], before), es[1..], t, before)
    ensures Summaries(es + [Tick(t)], before) == Next(Summaries(es, before), es, t, before)
  {
    FlushAhead(es, t, before);
    assert (es + [Tick(t)])[1..] == es[1..] + [Tick(t)];
    hide Together, Summary, LastTick, Joined, Fresh, ReplaceLast, SameMinute;
  }

  lemma FlushAhead(es: seq<Input>, t: TickData, before: Option<TickData>)
    requires es != [] && es[0].Flush?
    ensures LastTick(es, before) == LastTick(es[1..], before) && SameMinute(es, t) == SameMinute(es[1..], t)
  {
    assert [es[0]] + es[1..] == es && LastTick([es[0]], before) == before by { assert [es[0]][..0] == []; }
    LastTickSplit([es[0]], es[1..], before);
  }

  lemma JoinsFirst(es: seq<Input>, t: TickData, before: Option<TickData>)
    requires es != [] && es[0].Tick? && Together(es) == |es| && SameMinute(es, t)
    ensures Summaries(es + [Tick(t)], before) == Next(Summaries(es, before), es, t, before)
  {
    var es' := es + [Tick(t)];
    TogetherGrows(es, Tick(t));
    SummariesStep(es, before);
    SummariesStep(es', before);
    assert es[..|es|] == es && es'[..|es'|] == es' && es[|es|..] == es'[|es'|..] == [];
    SummaryGrows(es, t, before);
    NothingToSummarise(Some(t), Some(es[|es| - 1].tick));
    hide Together, Summary, Summaries, LastTick, Joined, Fresh;
    assert [Summary(es, before)] + [] == [Summary(es, before)];
  }

  lemma PassesFirst(es: seq<Input>, t: TickData, before: Option<TickData>)
    requires es != [] && es[0].Tick? && !(Together(es) == |es| && SameMinute(es, t))
    requires var rest, last := es[Together(es)..], Some(es[Together(es) - 1].tick);
             Summaries(rest + [Tick(t)], last) == Next(Summaries(rest, last), rest, t, last)
    ensures Summaries(es + [Tick(t)], before) == Next(Summaries(es, before), es, t, before)
  {
    var n := Together(es);
    var g, rest, last := es[..n], es[n..], Some(es[n - 1].tick);
    TogetherGrows(es, Tick(t));
    SummariesStep(es, before);
    SummariesStep(es + [Tick(t)], before);
    CutAt(es, Tick(t), n);
    assert LastTick(g, before) == last;
    if rest == [] { NothingToSummarise(last, last); }
    hide Together, Summary, Summaries, LastTick, Next, Open;
    Reassembled(Summary(g, before), Summaries(rest, last), g, rest, t, before);
  }

  lemma CutAt(es: seq<Input>, e: Input, n: nat)
    requires 1 <= n <= |es|
    ensures (es + [e])[..n] == es[..n] && (es + [e])[n..] == es[n..] + [e] && (es + [e])[n - 1] == es[n - 1]
    ensures es[..n] + es[n..] == es && (n == |es| ==> es[..n] == es)
  {
  }

  lemma Reassembled(b: BarData, bs: seq<BarData>, g: seq<Input>, rest: seq<Input>, t: TickData,
                    before: Option<TickData>)
    requires g != [] && g[|g| - 1].Tick?
    requires if rest == [] then bs == [] && !SameMinute(g, t) else rest[|rest| - 1].Tick? ==> bs != []
    ensures Next([b] + bs, g + rest, t, before) == [b] + Next(bs, rest, t, LastTick(g, before))
  {
    hide LastTick, Next, SameMinute;
    if rest == [] {
      assert g + rest == g && [b] + bs == [b];
      NextAfterWhole(b, g, t, before);
    } else {
      NextBehind(b, bs, g, rest, t, before);
    }
  }

  lemma NothingToSummarise(a: Option<TickData>, b: Option<TickData>)
    ensures Summaries([], a) == Summaries([], b) == []
  {
  }

  lemma {:induction false} SummariesFlush(es: seq<Input>, before: Option<TickData>)
    ensures Summaries(es + [Flush], before) == Summaries(es, before)
    decreases |es|
  {
    var es' := es + [Flush];
    if es == [] {
      assert es'[1..] == [];
    } else if es[0].Flush? {
      SummariesFlush(es[1..], before);
      assert es'[1..] == es[1..] + [Flush];
    } else {
      var n := Together(es);
      TogetherGrows(es, Flush);
      assert es'[..n] == es[..n] && es'[n..] == es[n..] + [Flush];
      SummariesFlush(es[n..], Some(es[n - 1].tick));
    }
  }

  // ---- the generator ----

  class BarGenerator {
    var bar: Option<BarData>
    var lastTick: Option<TickData>
    // What `on_bar` was called with.
    var bars: seq<BarData>
    // The ticks with a price and the flushes so far.
    ghost var inputs: seq<Input>

    /** The generator is always where grouping everything it was given would leave it. */
    ghost predicate Valid()
      reads this
    {
      && bars == Emitted(inputs)
      && bar == Pending(inputs)
      && lastTick == LastTick(inputs, None)
    }

    constructor ()
      ensures Valid() && inputs == []
    {
      bar, lastTick, bars, inputs := None, None, [], [];
    }

    /** The first half of `update_tick`: a bar of another minute goes out. */
    method CloseOther(tick: TickData) returns (newMinute: bool)
      modifies `bars
      ensures newMinute <==> bar.None? || Minutes(bar.value.datetime) != Minutes(tick.datetime)
      ensures bars == old(bars) + if newMinute && bar.Some? then [Stamped(bar.value)] else []
    {
      newMinute := false;
      if bar.None? {
        newMinute := true;
      } else if Minutes(bar.value.datetime) != Minutes(tick.datetime) {
        bars := bars + [bar.value.(datetime := ReplaceMinutes(bar.value.datetime))];
        newMinute := true;
      }
    }

    /** The second half of `update_tick`: the bar the tick starts or joins, with the volume it adds. */
    method BarWith(tick: TickData, newMinute: bool) returns (b: BarData)
      requires !newMinute ==> bar.Some?
      ensures b == if newMinute then Fresh(tick, lastTick) else Joined(bar.value, tick, lastTick)
    {
      hide Higher, Lower;
      if newMinute {
        b := BarData(tick.symbol, tick.exchangeName, tick.datetime, 0.0, tick.openInterest, tick.lastPrice,
                     tick.lastPrice, tick.lastPrice, tick.lastPrice);
      } else {
        b := bar.value.(highPrice := Higher(bar.value.highPrice, tick.lastPrice),
                        lowPrice := Lower(bar.value.lowPrice, tick.lastPrice),
                        closePrice := tick.lastPrice, openInterest := tick.openInterest, datetime := tick.datetime);
      }
      if lastTick.Some? {
        b := b.(volume := b.volume + Higher(tick.volume - lastTick.value.volume, 0.0));
      }
    }

    method UpdateTick(tick: TickData)
      requires Valid()
      modifies this
      ensures Valid()
      ensures inputs == if tick.lastPrice == 0.0 then old(inputs) else old(inputs) + [Tick(tick)]
    {
      if tick.lastPrice == 0.0 {
        return;
      }
      ghost var es := inputs;
      TickArrives(es, tick);
      hide Emitted, Pending, LastTick, Minutes, Stamped, Joined, Fresh;
      var newMinute := CloseOther(tick);
      assert bars == Emitted(es + [Tick(tick)]);
      var b := BarWith(tick, newMinute);
      assert Some(b) == Pending(es + [Tick(tick)]);
      bar := Some(b);
      lastTick := Some(tick);
      inputs := es + [Tick(tick)];
    }

    /** `generate`: the open bar goes out at once. The code has it only called with a bar open. */
    method Generate()
      requires Valid() && bar.Some?
      modifies this
      ensures Valid() && inputs == old(inputs) + [Flush]
    {
      FlushArrives(inputs);
      hide Emitted, Pending, LastTick, Stamped;
      bars := bars + [Stamped(bar.value)];
      bar := None;
      inputs := inputs + [Flush];
    }
  }

  /** What a tick does to the bars that are out, the one open, and the tick remembered. */
  lemma TickArrives(es: seq<Input>, t: TickData)
    ensures var es', p := es + [Tick(t)], Pending(es);
            && LastTick(es', None) == Some(t)
            && if p.Some? && Minutes(p.value.datetime) == Minutes(t.datetime) then
                 Emitted(es') == Emitted(es) && Pending(es') == Some(Joined(p.value, t, LastTick(es, None)))
               else
                 && Emitted(es') == Emitted(es) + (if p.Some? then [Stamped(p.value)] else [])
                 && Pending(es') == Some(Fresh(t, LastTick(es, None)))
  {
    var bs, es' := Summaries(es, None), es + [Tick(t)];
    SummariesOneTick(es, t, None);
    PendingTime(es, None);
    assert es'[|es'| - 1] == Tick(t);
    hide Summaries, LastTick, Joined, Fresh, Minutes, Out, ReplaceLast;
    if SameMinute(es, t) {
      OutJoined(bs, Joined(bs[|bs| - 1], t, LastTick(es, None)));
    } else {
      OutFresh(bs, Fresh(t, LastTick(es, None)), Open(es));
    }
  }

  lemma OutJoined(bs: seq<BarData>, b: BarData)
    requires bs != []
    ensures var bs' := ReplaceLast(bs, b); bs' != [] && bs'[|bs'| - 1] == b && Out(bs', true) == Out(bs, true)
  {
    assert ReplaceLast(bs, b)[..|bs| - 1] == bs[..|bs| - 1];
  }

  lemma OutFresh(bs: seq<BarData>, b: BarData, open: bool)
    requires open ==> bs != []
    ensures Out(bs + [b], true) == Out(bs, open) + if open then [Stamped(bs[|bs| - 1])] else []
  {
    assert (bs + [b])[..|bs|] == bs;
    if open { OutAll(bs); }
  }

  /** Closing the last bar. */
  lemma OutAll(bs: seq<BarData>)
    requires bs != []
    ensures Out(bs, false) == Out(bs, true) + [Stamped(bs[|bs| - 1])]
  {
    hide Stamped;
    assert bs == bs[..|bs| - 1] + [bs[|bs| - 1]];
    StampMore(bs[..|bs| - 1], bs[|bs| - 1]);
  }

  lemma StampMore(bs: seq<BarData>, b: BarData)
    ensures AllStamped(bs + [b]) == AllStamped(bs) + [Stamped(b)]
  {
    assert (bs + [b])[..|bs|] == bs;
  }

  /** The open bar carries the time of the last tick. */
  lemma {:induction false} PendingTime(es: seq<Input>, before: Option<TickData>)
    ensures Open(es) ==> var bs := Summaries(es, before); bs[|bs| - 1].datetime == es[|es| - 1].tick.datetime
    decreases |es|
  {
    if !Open(es) {
    } else {
      var init, t := es[..|es| - 1], es[|es| - 1].tick;
      assert es == init + [Tick(t)];
      SummariesOneTick(init, t, before);
    }
  }

  lemma FlushArrives(es: seq<Input>)
    requires Pending(es).Some?
    ensures var es' := es + [Flush];
            && Emitted(es') == Emitted(es) + [Stamped(Pending(es).value)]
            && Pending(es') == None && LastTick(es', None) == LastTick(es, None)
  {
    SummariesFlush(es, None);
    assert (es + [Flush])[|es|] == Flush && (es + [Flush])[..|es|] == es;
    hide Summaries, Out, Stamped;
    OutAll(Summaries(es, None));
  }

  // ---- what the bars say ----

  predicate InOrder(b: BarData) {
    b.lowPrice <= b.openPrice <= b.highPrice && b.lowPrice <= b.closePrice <= b.highPrice
  }

  /** High and low are the greatest and the least of the group's prices. */
  lemma {:induction false} Extremes(g: seq<Input>)
    requires AllTicks(g)
    ensures forall e <- g :: Lowest(g) <= e.tick.lastPrice <= Highest(g)
    ensures (exists e <- g :: e.tick.lastPrice == Highest(g)) && (exists e <- g :: e.tick.lastPrice == Lowest(g))
  {
    var init, last := g[..|g| - 1], g[|g| - 1];
    assert last in g;
    if |g| == 1 {
    } else {
      Extremes(init);
      assert forall e <- g :: e in init || e == last;
      assert forall e <- init :: e in g;
    }
  }

  lemma {:induction false} SummariesInOrder(es: seq<Input>, before: Option<TickData>)
    ensures forall b <- Summaries(es, before) :: InOrder(b)
    decreases |es|
  {
    if es == [] {
    } else if es[0].Flush? {
      SummariesInOrder(es[1..], before);
    } else {
      var g := es[..Together(es)];
      assert g[0] in g && g[|g| - 1] in g;
      Extremes(g);
      SummariesStep(es, before);
      SummariesInOrder(es[Together(es)..], Some(es[Together(es) - 1].tick));
    }
  }

  lemma EveryBarInOrder(es: seq<Input>)
    ensures forall b <- Emitted(es) :: InOrder(b) && b.datetime % 60000 == 0
    ensures Pending(es).Some? ==> InOrder(Pending(es).value)
  {
    var all := Summaries(es, None);
    SummariesInOrder(es, None);
    hide Summaries, InOrder, Stamped, AllStamped;
    var bs := if Open(es) then all[..|all| - 1] else all;
    forall i | 0 <= i < |bs| ensures InOrder(AllStamped(bs)[i]) && AllStamped(bs)[i].datetime % 60000 == 0 {
      assert bs[i] in all;
      StampInOrder(bs[i]);
    }
  }

  lemma StampInOrder(b: BarData)
    requires InOrder(b)
    ensures InOrder(Stamped(b)) && Stamped(b).datetime % 60000 == 0
  {
  }

  // ---- which ticks a bar is made of ----

  /** Where the groups of `es` lie when it begins at position `at`: from the first number to before the second. */
  function Spans(es: seq<Input>, at: nat): seq<(nat, nat)>
    decreases |es|
  {
    if es == [] then []
    else if es[0].Flush? then Spans(es[1..], at + 1)
    else [(at, at + Together(es))] + Spans(es[Together(es)..], at + Together(es))
  }

  /** A tick of that minute. */
  predicate OfMinute(e: Input, minute: nat) { e.Tick? && e.tick.datetime / 60000 == minute }

  /** `b` is the bar of the ticks from `lo` to before `hi`, which are a whole run of ticks of one minute. */
  ghost predicate BarOf(es: seq<Input>, lo: nat, hi: nat, b: BarData) {
    && lo < hi <= |es| && es[lo].Tick? && es[hi - 1].Tick?
    && var minute := es[lo].tick.datetime / 60000;
    && (forall k :: lo <= k < hi ==> OfMinute(es[k], minute))
    && (lo > 0 ==> !OfMinute(es[lo - 1], minute)) && (hi < |es| ==> !OfMinute(es[hi], minute))
    && b.openPrice == es[lo].tick.lastPrice && b.closePrice == es[hi - 1].tick.lastPrice
    && (forall k :: lo <= k < hi ==> b.lowPrice <= es[k].tick.lastPrice <= b.highPrice)
    && (exists k :: lo <= k < hi && es[k].tick.lastPrice == b.highPrice)
    && (exists k :: lo <= k < hi && es[k].tick.lastPrice == b.lowPrice)
    && b.symbol == es[lo].tick.symbol && b.exchangeName == es[lo].tick.exchangeName
    && b.openInterest == es[hi - 1].tick.openInterest && b.datetime == es[hi - 1].tick.datetime
  }

  /** A tick at this position does not go on with a run. */
  predicate RunStarts(all: seq<Input>, at: nat) {
    0 < at < |all| && all[at].Tick? ==> !OfMinute(all[at - 1], all[at].tick.datetime / 60000)
  }

  lemma GroupAt(all: seq<Input>, at: nat)
    requires at < |all| && all[at].Tick?
    ensures var n, minute := Together(all[at..]), all[at].tick.datetime / 60000;
            && at + n <= |all| && AllTicks(all[at..][..n])
            && (forall k :: 0 <= k < n ==> all[at..][..n][k] == all[at + k])
            && (forall k :: at <= k < at + n ==> OfMinute(all[k], minute))
            && (at + n < |all| ==> !OfMinute(all[at + n], minute))
  {
    var es := all[at..];
    var n := Together(es);
    assert forall k :: 0 <= k < n ==> es[k] == all[at + k];
    assert at + n < |all| ==> es[n] == all[at + n];
    forall k | at <= k < at + n ensures OfMinute(all[k], all[at].tick.datetime / 60000) {
      assert all[k] == es[k - at];
    }
  }

  /** High and low of a group, by the positions of its ticks. */
  lemma ExtremesAt(all: seq<Input>, at: nat, g: seq<Input>)
    requires AllTicks(g) && at + |g| <= |all| && forall k :: 0 <= k < |g| ==> g[k] == all[at + k]
    ensures forall k :: at <= k < at + |g| ==> all[k].Tick? && Lowest(g) <= all[k].tick.lastPrice <= Highest(g)
    ensures exists k :: at <= k < at + |g| && all[k].Tick? && all[k].tick.lastPrice == Highest(g)
    ensures exists k :: at <= k < at + |g| && all[k].Tick? && all[k].tick.lastPrice == Lowest(g)
  {
    Extremes(g);
    hide Highest, Lowest;
    forall k | at <= k < at + |g|
      ensures all[k].Tick? && Lowest(g) <= all[k].tick.lastPrice <= Highest(g)
    {
      assert g[k - at] == all[k] && g[k - at] in g;
    }
    var h :| h in g && h.tick.lastPrice == Highest(g);
    var i :| 0 <= i < |g| && g[i] == h;
    assert all[at + i] == h;
    var l :| l in g && l.tick.lastPrice == Lowest(g);
    var j :| 0 <= j < |g| && g[j] == l;
    assert all[at + j] == l;
  }

  lemma FirstBarOf(all: seq<Input>, at: nat, before: Option<TickData>)
    requires at < |all| && all[at].Tick? && RunStarts(all, at)
    ensures var n := Together(all[at..]);
            BarOf(all, at, at + n, Summary(all[at..][..n], before))
  {
    var g := all[at..][..Together(all[at..])];
    GroupAt(all, at);
    ExtremesAt(all, at, g);
    hide Highest, Lowest, Together, Rises;
    assert g[0] == all[at] && g[|g| - 1] == all[at + |g| - 1];
  }

  ghost predicate Covered(spans: seq<(nat, nat)>, k: nat) {
    exists i :: 0 <= i < |spans| && spans[i].0 <= k < spans[i].1
  }

  ghost predicate Fit(all: seq<Input>, at: nat, bs: seq<BarData>, spans: seq<(nat, nat)>) {
    |spans| == |bs| && forall i :: 0 <= i < |bs| ==> at <= spans[i].0 && BarOf(all, spans[i].0, spans[i].1, bs[i])
  }

  ghost predicate AllCovered(all: seq<Input>, at: nat, spans: seq<(nat, nat)>) {
    forall k :: at <= k < |all| && all[k].Tick? ==> Covered(spans, k)
  }

  /** Every bar is that of one whole run of ticks of a minute, the runs follow one another, and no tick from
      position `at` on is in none of them. */
  ghost predicate RunsOk(all: seq<Input>, at: nat, bs: seq<BarData>, spans: seq<(nat, nat)>) {
    Fit(all, at, bs, spans) && AllCovered(all, at, spans) && InTurn(spans)
  }

  ghost predicate InTurn(spans: seq<(nat, nat)>) {
    forall i, j :: 0 <= i < j < |spans| ==> spans[i].1 <= spans[j].0
  }

  lemma InTurnBehind(at: nat, n: nat, spans: seq<(nat, nat)>)
    requires InTurn(spans) && forall i :: 0 <= i < |spans| ==> at + n <= spans[i].0
    ensures InTurn([(at, at + n)] + spans)
  {
  }

  lemma FitBehind(all: seq<Input>, at: nat, n: nat, b: BarData, bs: seq<BarData>, spans: seq<(nat, nat)>)
    requires Fit(all, at + n, bs, spans) && BarOf(all, at, at + n, b)
    ensures Fit(all, at, [b] + bs, [(at, at + n)] + spans)
  {
    hide BarOf;
  }

  lemma CoveredBehind(all: seq<Input>, at: nat, n: nat, spans: seq<(nat, nat)>)
    requires AllCovered(all, at + n, spans)
    ensures AllCovered(all, at, [(at, at + n)] + spans)
  {
    var more := [(at, at + n)] + spans;
    forall k | at <= k < |all| && all[k].Tick? ensures Covered(more, k) {
      if k < at + n {
        assert more[0].0 <= k < more[0].1;
      } else {
        assert Covered(spans, k);
        var i :| 0 <= i < |spans| && spans[i].0 <= k < spans[i].1;
        assert more[i + 1].0 <= k < more[i + 1].1;
      }
    }
  }

  lemma RunsBehind(all: seq<Input>, at: nat, n: nat, b: BarData, bs: seq<BarData>, spans: seq<(nat, nat)>)
    requires RunsOk(all, at + n, bs, spans) && BarOf(all, at, at + n, b)
    ensures RunsOk(all, at, [b] + bs, [(at, at + n)] + spans)
  {
    FitBehind(all, at, n, b, bs, spans);
    CoveredBehind(all, at, n, spans);
    InTurnBehind(at, n, spans);
    hide BarOf, AllCovered, InTurn, Fit;
  }

  lemma RunsPastFlush(all: seq<Input>, at: nat, bs: seq<BarData>, spans: seq<(nat, nat)>)
    requires at < |all| && all[at].Flush? && RunsOk(all, at + 1, bs, spans)
    ensures RunsOk(all, at, bs, spans)
  {
    hide BarOf, Covered;
  }

  lemma RunEnds(all: seq<Input>, at: nat)
    requires at < |all|
    ensures var n := if all[at].Tick? then Together(all[at..]) else 1; RunStarts(all, at + n)
  {
    if all[at].Tick? { GroupAt(all, at); }
    hide Together;
  }

  lemma {:induction false} RunsFrom(all: seq<Input>, at: nat, before: Option<TickData>)
    requires at <= |all| && RunStarts(all, at)
    ensures RunsOk(all, at, Summaries(all[at..], before), Spans(all[at..], at))
    decreases |all| - at
  {
    hide RunsOk, BarOf, Together, Summary, RunStarts;
    var es := all[at..];
    if es == [] {
      NoRuns(all);
    } else if es[0].Flush? {
      assert es[1..] == all[at + 1..];
      RunEnds(all, at);
      RunsFrom(all, at + 1, before);
      RunsPastFlush(all, at, Summaries(es[1..], before), Spans(es[1..], at + 1));
    } else {
      RunsFromTick(all, at, before);
    }
  }

  lemma {:induction false} RunsFromTick(all: seq<Input>, at: nat, before: Option<TickData>)
    requires at < |all| && all[at].Tick? && RunStarts(all, at)
    ensures RunsOk(all, at, Summaries(all[at..], before), Spans(all[at..], at))
    decreases |all| - at, 0
  {
    hide RunsOk, BarOf, Summary;
    var es := all[at..];
    var n := Together(es);
    var rest := es[n..];
    assert rest == all[at + n..];
    FirstBarOf(all, at, before);
    RunEnds(all, at);
    hide RunStarts, Together;
    RunsFrom(all, at + n, Some(es[n - 1].tick));
    SummariesStep(es, before);
    RunsBehind(all, at, n, Summary(es[..n], before), Summaries(rest, Some(es[n - 1].tick)), Spans(rest, at + n));
    assert Spans(es, at) == [(at, at + n)] + Spans(rest, at + n);
  }

  lemma NoRuns(all: seq<Input>)
    ensures RunsOk(all, |all|, Summaries([], None), Spans([], |all|))
    ensures forall before :: Summaries([], before) == []
  {
  }

  lemma StampWithin(b: BarData)
    ensures Stamped(b) == b.(datetime := Stamped(b).datetime) && Stamped(b).datetime % 60000 == 0
    ensures Stamped(b).datetime <= b.datetime < Stamped(b).datetime + 60000
  {
  }

  /** A bar that is out is the bar of its ticks with the whole minute of the last of them as its time. */
  ghost predicate OutAt(b: BarData, made: BarData) {
    && b == made.(datetime := b.datetime) && b.datetime <= made.datetime < b.datetime + 60000
    && b.datetime % 60000 == 0
  }

  /** The bars out and the bar open are those of the runs of ticks of a minute, in order and without a gap. */
  lemma BarsOfRuns(es: seq<Input>)
    ensures RunsOk(es, 0, Summaries(es, None), Spans(es, 0))
    ensures |Emitted(es)| == |Summaries(es, None)| - if Open(es) then 1 else 0
    ensures forall i :: 0 <= i < |Emitted(es)| ==> OutAt(Emitted(es)[i], Summaries(es, None)[i])
    ensures Pending(es) == if Open(es) then Some(Summaries(es, None)[|Summaries(es, None)| - 1]) else None
  {
    assert RunStarts(es, 0);
    RunsFrom(es, 0, None);
    assert es[0..] == es;
    hide RunsOk, Summaries, Spans, Stamped, OutAt;
    var bs := Summaries(es, None);
    forall i | 0 <= i < |Emitted(es)| ensures OutAt(Emitted(es)[i], bs[i]) { StampedOut(bs[i]); }
  }

  lemma StampedOut(b: BarData)
    ensures OutAt(Stamped(b), b)
  {
    StampWithin(b);
  }

  function TotalVolume(bs: seq<BarData>): real {
    if bs == [] then 0.0 else bs[0].volume + TotalVolume(bs[1..])
  }

  lemma {:induction false} TotalVolumeOfOneMore(bs: seq<BarData>, b: BarData)
    ensures TotalVolume(bs + [b]) == TotalVolume(bs) + b.volume
  {
    if bs == [] {
      assert bs + [b] == [b] && [b][1..] == [];
    } else {
      assert (bs + [b])[1..] == bs[1..] + [b];
      TotalVolumeOfOneMore(bs[1..], b);
    }
  }

  /** No rise in volume is lost or counted twice between bars. */
  lemma {:induction false} VolumeConserved(es: seq<Input>, before: Option<TickData>)
    ensures TotalVolume(Summaries(es, before)) == Rises(es, before)
    decreases |es|
  {
    if es == [] {
    } else {
      var init, last := es[..|es| - 1], es[|es| - 1];
      var bs := Summaries(init, before);
      assert es == init + [last];
      VolumeConserved(init, before);
      if last.Flush? {
        SummariesFlush(init, before);
      } else {
        SummariesOneTick(init, last.tick, before);
        hide Summaries, LastTick, Rise;
        if SameMinute(init, last.tick) {
          assert bs == bs[..|bs| - 1] + [bs[|bs| - 1]];
          TotalVolumeOfOneMore(bs[..|bs| - 1], bs[|bs| - 1]);
          TotalVolumeOfOneMore(bs[..|bs| - 1], Joined(bs[|bs| - 1], last.tick, LastTick(init, before)));
        } else {
          TotalVolumeOfOneMore(bs, Fresh(last.tick, LastTick(init, before)));
        }
      }
    }
  }

  lemma {:induction false} StampingKeepsVolume(bs: seq<BarData>)
    ensures TotalVolume(AllStamped(bs)) == TotalVolume(bs)
  {
    if bs == [] {
    } else {
      var init, last := bs[..|bs| - 1], bs[|bs| - 1];
      StampingKeepsVolume(init);
      TotalVolumeOfOneMore(init, last);
      TotalVolumeOfOneMore(AllStamped(init), Stamped(last));
      assert bs == init + [last];
    }
  }

  /** The volume never goes down from one tick to the next. */
  predicate Monotone(es: seq<Input>, before: Option<TickData>) {
    es == [] ||
    (&& Monotone(es[..|es| - 1], before)
     && var p := LastTick(es[..|es| - 1], before);
        (p.Some? && es[|es| - 1].Tick? ==> p.value.volume <= es[|es| - 1].tick.volume))
  }

  lemma {:induction false} Telescopes(es: seq<Input>, first: TickData)
    requires Monotone(es, Some(first))
    ensures LastTick(es, Some(first)).Some?
    ensures Rises(es, Some(first)) == LastTick(es, Some(first)).value.volume - first.volume
  {
    if es == [] {
    } else {
      Telescopes(es[..|es| - 1], first);
    }
  }

  /** All the volume that is out and open is the sum of the rises; when the ticks' volume never goes down
      that is the last tick's volume less the first's. */
  lemma AllVolume(es: seq<Input>)
    ensures TotalVolume(Emitted(es)) + (if Pending(es).Some? then Pending(es).value.volume else 0.0) == Rises(es, None)
  {
    var bs := Summaries(es, None);
    VolumeConserved(es, None);
    StampingKeepsVolume(bs);
    hide Summaries, Rises, TotalVolume, AllStamped, Stamped;
    if Open(es) {
      assert bs == bs[..|bs| - 1] + [bs[|bs| - 1]];
      TotalVolumeOfOneMore(bs[..|bs| - 1], bs[|bs| - 1]);
      StampingKeepsVolume(bs[..|bs| - 1]);
    }
  }

  lemma AllVolumeTelescopes(first: TickData, es: seq<Input>)
    requires Monotone(es, Some(first))
    ensures var all := [Tick(first)] + es;
            && LastTick(es, Some(first)).Some?
            && TotalVolume(Emitted(all)) + (if Pending(all).Some? then Pending(all).value.volume else 0.0)
               == LastTick(es, Some(first)).value.volume - first.volume
  {
    AllVolume([Tick(first)] + es);
    Telescopes(es, first);
    FirstRisesNothing(first, es);
  }

  lemma {:induction false} FirstRisesNothing(first: TickData, es: seq<Input>)
    ensures Rises([Tick(first)] + es, None) == Rises(es, Some(first))
  {
    var all := [Tick(first)] + es;
    if es == [] {
      assert all == [Tick(first)] && all[..0] == [];
      assert Rises(all[..0], None) == 0.0 && LastTick(all[..0], None) == None;
    } else {
      assert all[..|all| - 1] == [Tick(first)] + es[..|es| - 1];
      FirstRisesNothing(first, es[..|es| - 1]);
      LastTickSplit([Tick(first)], es[..|es| - 1], None);
      assert LastTick([Tick(first)], None) == Some(first);
    }
  }
}
