/** The R-Breaker strategy's bar handler: the day's range, the six levels taken from the day before, and
    the stop orders they lead to. */
module RBreak {
  import opened Market
  import opened Options

  const SETUP_COEF := 0.25
  const BREAK_COEF := 0.2
  const ENTER_COEF_1 := 1.07
  const ENTER_COEF_2 := 0.07
  const FIXED_SIZE := 1
  const TRAILING_LONG := 0.4
  const TRAILING_SHORT := 0.4
  const MULTIPLIER := 3
  const ARRAY_SIZE := 100

  /** `getDays`. */
  function Days(datetime: nat): nat { datetime / 86400000 }

  predicate NewDay(last: BarData, bar: BarData) { Days(last.datetime) != Days(bar.datetime) }

  /** A day begins at midnight UTC: two bars are of different days exactly when a multiple of 24 hours lies
      between them. */
  lemma NewDayAtMidnight(last: BarData, bar: BarData)
    requires last.datetime <= bar.datetime
    ensures NewDay(last, bar) <==> exists k: nat :: last.datetime < 24 * 60 * 60 * 1000 * k <= bar.datetime
  {
    var a, b := last.datetime, bar.datetime;
    if NewDay(last, bar) {
      assert a < 24 * 60 * 60 * 1000 * Days(b) <= b;
    }
  }

  datatype Day = Day(open: real, high: real, low: real, close: real)

  const NO_DAY := Day(0.0, 0.0, 0.0, 0.0)

  datatype Levels = Levels(
    buyBreak: real, sellSetup: real, sellEnter: real, buyEnter: real, buySetup: real, sellBreak: real)

  const NO_LEVELS := Levels(0.0, 0.0, 0.0, 0.0, 0.0, 0.0)

  function LevelsOf(d: Day): Levels {
    var buySetup := d.low - SETUP_COEF * (d.high - d.close);
    var sellSetup := d.high + SETUP_COEF * (d.close - d.low);
    Levels(sellSetup + BREAK_COEF * (sellSetup - buySetup), sellSetup,
           ENTER_COEF_1 / 2.0 * (d.high + d.low) - ENTER_COEF_2 * d.low,
           ENTER_COEF_1 / 2.0 * (d.high + d.low) - ENTER_COEF_2 * d.high,
           buySetup, buySetup - BREAK_COEF * (sellSetup - buySetup))
  }

  // ---- the specification: whole days ----

  /** The first bar of the latest day among `bs`, as far as a change of day has been noticed. The first two
      bars are only remembered. */
  function Start(bs: seq<BarData>): (j: Option<nat>)
    ensures j.Some? ==> 2 <= j.value < |bs|
  {
    var n := |bs|;
    if n < 3 then None
    else if NewDay(bs[n - 2], bs[n - 1]) then Some(n - 1)
    else Start(bs[..n - 1])
  }

  /** A day begins at the start and none begins after it. */
  lemma {:induction false} StartIsLatest(bs: seq<BarData>)
    ensures Start(bs).Some? ==> NewDay(bs[Start(bs).value - 1], bs[Start(bs).value])
    ensures forall i :: 2 <= i < |bs| && (Start(bs).Some? ==> Start(bs).value < i) ==> !NewDay(bs[i - 1], bs[i])
  {
    hide NewDay;
    var n := |bs|;
    if n >= 3 && !NewDay(bs[n - 2], bs[n - 1]) {
      var init := bs[..n - 1];
      StartIsLatest(init);
      assert forall i :: 0 <= i < n - 1 ==> init[i] == bs[i];
    }
  }

  function Top(bs: seq<BarData>): real
    requires bs != []
  {
    if |bs| == 1 then bs[0].highPrice else Higher(Top(bs[..|bs| - 1]), bs[|bs| - 1].highPrice)
  }

  function Bottom(bs: seq<BarData>): real
    requires bs != []
  {
    if |bs| == 1 then bs[0].lowPrice else Lower(Bottom(bs[..|bs| - 1]), bs[|bs| - 1].lowPrice)
  }

  /** The range of the latest day: of all its bars, once its first bar was noticed; before that the range
      is stretched to zero and there is no opening price. */
  function Range(bs: seq<BarData>): Day {
    var n := |bs|;
    if n < 3 then NO_DAY
    else match Start(bs)
         case Some(j) => Day(bs[j].openPrice, Top(bs[j..]), Bottom(bs[j..]), bs[n - 1].closePrice)
         case None => Day(0.0, Higher(0.0, Top(bs[2..])), Lower(0.0, Bottom(bs[2..])), bs[n - 1].closePrice)
  }

  /** Where the day began before which the levels were taken. */
  function SetAt(bs: seq<BarData>): (j: Option<nat>)
    ensures j.Some? ==> j.value < |bs|
    decreases |bs|
  {
    match Start(bs)
    case None => None
    case Some(j) => if Range(bs[..j]).open != 0.0 then Some(j) else SetAt(bs[..j])
  }

  function LevelsIn(bs: seq<BarData>): Levels {
    match SetAt(bs)
    case None => NO_LEVELS
    case Some(j) => LevelsOf(Range(bs[..j]))
  }

  // ---- one more bar ----

  function NextRange(d: Day, last: BarData, bar: BarData): Day {
    if NewDay(last, bar) then Day(bar.openPrice, bar.highPrice, bar.lowPrice, bar.closePrice)
    else Day(d.open, Higher(d.high, bar.highPrice), Lower(d.low, bar.lowPrice), bar.closePrice)
  }

  lemma StartStep(bs: seq<BarData>)
    requires |bs| >= 3
    ensures var n := |bs|;
            Start(bs) == if NewDay(bs[n - 2], bs[n - 1]) then Some(n - 1) else Start(bs[..n - 1])
  {
    hide NewDay;
  }

  lemma Pushed(bs: seq<BarData>, bar: BarData)
    requires |bs| >= 1
    ensures var bs', n := bs + [bar], |bs| + 1;
            bs'[..n - 1] == bs && bs'[n - 1] == bar && bs'[n - 2] == bs[|bs| - 1]
  {
  }

  lemma StartOneMore(bs: seq<BarData>, bar: BarData)
    requires |bs| >= 2
    ensures Start(bs + [bar]) == if NewDay(bs[|bs| - 1], bar) then Some(|bs|) else Start(bs)
  {
    hide Start, NewDay;
    StartStep(bs + [bar]);
    Pushed(bs, bar);
  }

  lemma RangeOneMore(bs: seq<BarData>, bar: BarData)
    requires |bs| >= 2
    ensures Range(bs + [bar]) == NextRange(Range(bs), bs[|bs| - 1], bar)
  {
    StartOneMore(bs, bar);
    hide Start, NewDay, Top, Bottom;
    var n, bs' := |bs|, bs + [bar];
    assert bs'[n] == bar;
    if NewDay(bs[n - 1], bar) {
      assert bs'[n..] == [bar] == [] + [bar];
      TopOneMore([], bar);
    } else {
      var j := if Start(bs).Some? then Start(bs).value else 2;
      TailOneMore(bs, bar, j);
      TopOneMore(bs[j..], bar);
    }
  }

  lemma TailOneMore(bs: seq<BarData>, bar: BarData, j: nat)
    requires j <= |bs|
    ensures (bs + [bar])[j..] == bs[j..] + [bar] && (j < |bs| ==> (bs + [bar])[j] == bs[j])
  {
  }

  lemma TopOneMore(bs: seq<BarData>, bar: BarData)
    ensures Top(bs + [bar]) == if bs == [] then bar.highPrice else Higher(Top(bs), bar.highPrice)
    ensures Bottom(bs + [bar]) == if bs == [] then bar.lowPrice else Lower(Bottom(bs), bar.lowPrice)
  {
    assert (bs + [bar])[..|bs|] == bs;
  }

  lemma LevelsOneMore(bs: seq<BarData>, bar: BarData)
    requires |bs| >= 2
    ensures LevelsIn(bs + [bar]) ==
            if NewDay(bs[|bs| - 1], bar) && Range(bs).open != 0.0 then LevelsOf(Range(bs))
            else LevelsIn(bs)
  {
    StartOneMore(bs, bar);
    hide Range, LevelsOf, NewDay, Start;
    var n, bs' := |bs|, bs + [bar];
    assert bs'[..n] == bs;
    if !NewDay(bs[n - 1], bar) {
      if Start(bs).Some? { assert bs'[..Start(bs).value] == bs[..Start(bs).value]; }
      assert SetAt(bs') == SetAt(bs);
    }
    hide SetAt;
    if SetAt(bs).Some? { assert bs'[..SetAt(bs).value] == bs[..SetAt(bs).value]; }
  }

  // ---- orders ----

  datatype Request = Request(direction: Direction, offset: Offset, price: real, volume: int)

  /** What the position becomes when a request is filled. */
  function AfterFill(pos: int, r: Request): int { if r.direction == LONG then pos + r.volume else pos - r.volume }

  datatype Trail = Trail(high: real, low: real)

  /** The extreme prices since the last bar on which the position was flat. */
  function Trailed(t: Trail, bar: BarData, pos: int): Trail {
    if pos == 0 then Trail(bar.highPrice, bar.lowPrice)
    else if pos > 0 then Trail(Higher(t.high, bar.highPrice), t.low)
    else Trail(t.high, Lower(t.low, bar.lowPrice))
  }

  function LongStop(t: Trail): real { t.high * (1.0 - TRAILING_LONG / 100.0) }

  function ShortStop(t: Trail): real { t.low * (1.0 + TRAILING_SHORT / 100.0) }

  /** `ArrayManager::donchian` as it stands: the channel is not computed. */
  function Donchian(): (real, real) { (0.0, 0.0) }

  /** The stop orders sent for a position, given the day, the levels and the trail. */
  function Requests(l: Levels, d: Day, t: Trail, pos: int): seq<Request> {
    var (tendHigh, tendLow) := Donchian();
    if pos == 0 then
      if tendHigh > l.sellSetup then
        [Request(LONG, OPEN, Higher(l.buyBreak, d.high), FIXED_SIZE),
         Request(SHORT, OPEN, l.sellEnter, MULTIPLIER * FIXED_SIZE)]
      else if tendLow < l.buySetup then
        [Request(SHORT, OPEN, Lower(l.sellBreak, d.low), FIXED_SIZE),
         Request(LONG, OPEN, l.buyEnter, MULTIPLIER * FIXED_SIZE)]
      else []
    else if pos > 0 then [Request(SHORT, CLOSE, LongStop(t), pos)]
    else [Request(LONG, CLOSE, ShortStop(t), -pos)]
  }

  /** The bars the handler works on: from the hundredth on, which fills the array. */
  function Worked(all: seq<BarData>): (r: seq<BarData>)
    ensures |all| >= 100 ==> all[99..] == r
    ensures |all| < 100 ==> r == []
  {
    if |all| < ARRAY_SIZE then [] else all[ARRAY_SIZE - 1..]
  }

  class RBreakStrategy {
    var count: nat
    var inited: bool
    var bars: seq<BarData>
    var buyBreak: real
    var sellSetup: real
    var sellEnter: real
    var buyEnter: real
    var buySetup: real
    var sellBreak: real
    var intraTradeHigh: real
    var intraTradeLow: real
    var dayHigh: real
    var dayOpen: real
    var dayClose: real
    var dayLow: real
    // Every bar so far.
    ghost var all: seq<BarData>

    ghost function TheLevels(): Levels
      reads this
    {
      Levels(buyBreak, sellSetup, sellEnter, buyEnter, buySetup, sellBreak)
    }

    ghost function TheDay(): Day
      reads this
    {
      Day(dayOpen, dayHigh, dayLow, dayClose)
    }

    ghost function TheTrail(): Trail
      reads this
    {
      Trail(intraTradeHigh, intraTradeLow)
    }

    /** Day and levels are those of the whole days seen. */
    ghost predicate Valid()
      reads this
    {
      var bs := Worked(all);
      && BarsKept() && TheDay() == Range(bs) && TheLevels() == LevelsIn(bs)
    }

    constructor ()
      ensures Valid() && all == [] && TheLevels() == Levels(0.0, 0.0, 0.0, 0.0, 0.0, 0.0)
      ensures TheDay() == Day(0.0, 0.0, 0.0, 0.0) && TheTrail() == Trail(0.0, 0.0)
    {
      count, inited, bars, all := 0, false, [], [];
      buyBreak, sellSetup, sellEnter, buyEnter, buySetup, sellBreak := 0.0, 0.0, 0.0, 0.0, 0.0, 0.0;
      intraTradeHigh, intraTradeLow := 0.0, 0.0;
      dayHigh, dayOpen, dayClose, dayLow := 0.0, 0.0, 0.0, 0.0;
    }

    /** The new-day branch. */
    method TakeLevels()
      modifies `buyBreak, `sellSetup, `sellEnter, `buyEnter, `buySetup, `sellBreak
      ensures TheLevels() == LevelsOf(TheDay())
    {
      buySetup := dayLow - SETUP_COEF * (dayHigh - dayClose);
      sellSetup := dayHigh + SETUP_COEF * (dayClose - dayLow);
      buyEnter := ENTER_COEF_1 / 2.0 * (dayHigh + dayLow) - ENTER_COEF_2 * dayHigh;
      sellEnter := ENTER_COEF_1 / 2.0 * (dayHigh + dayLow) - ENTER_COEF_2 * dayLow;
      buyBreak := sellSetup + BREAK_COEF * (sellSetup - buySetup);
      sellBreak := buySetup - BREAK_COEF * (sellSetup - buySetup);
    }

    /** Day and levels after a bar that follows `lastBar`. */
    method UpdateDay(lastBar: BarData, bar: BarData)
      modifies `buyBreak, `sellSetup, `sellEnter, `buyEnter, `buySetup, `sellBreak
      modifies `dayOpen, `dayHigh, `dayLow, `dayClose
      ensures TheDay() == NextRange(old(TheDay()), lastBar, bar)
      ensures TheLevels() == if NewDay(lastBar, bar) && old(dayOpen) != 0.0
                             then LevelsOf(old(TheDay())) else old(TheLevels())
    {
      hide LevelsOf, Days;
      if Days(lastBar.datetime) != Days(bar.datetime) {
        if dayOpen != 0.0 {
          TakeLevels();
        }
        dayOpen, dayHigh, dayClose, dayLow := bar.openPrice, bar.highPrice, bar.closePrice, bar.lowPrice;
      } else {
        dayHigh := Higher(dayHigh, bar.highPrice);
        dayLow := Lower(dayLow, bar.lowPrice);
        dayClose := bar.closePrice;
      }
    }

    /** The orders for a bar on which levels are known; a position held is closed. */
    method SendOrders(bar: BarData, pos: int) returns (requests: seq<Request>)
      modifies `intraTradeHigh, `intraTradeLow
      ensures TheTrail() == Trailed(old(TheTrail()), bar, pos)
      ensures pos != 0 ==> |requests| == 1 && requests[0].offset == CLOSE && AfterFill(pos, requests[0]) == 0
      ensures requests == Requests(TheLevels(), TheDay(), TheTrail(), pos)
    {
      requests := [];
      var (tendHigh, tendLow) := Donchian();
      if pos == 0 {
        intraTradeLow := bar.lowPrice;
        intraTradeHigh := bar.highPrice;
        if tendHigh > sellSetup {
          var longEntry := Higher(buyBreak, dayHigh);
          requests := requests + [Request(LONG, OPEN, longEntry, FIXED_SIZE)];
          requests := requests + [Request(SHORT, OPEN, sellEnter, MULTIPLIER * FIXED_SIZE)];
        } else if tendLow < buySetup {
          var shortEntry := Lower(sellBreak, dayLow);
          requests := requests + [Request(SHORT, OPEN, shortEntry, FIXED_SIZE)];
          requests := requests + [Request(LONG, OPEN, buyEnter, MULTIPLIER * FIXED_SIZE)];
        }
      } else if pos > 0 {
        intraTradeHigh := Higher(intraTradeHigh, bar.highPrice);
        var longStop := intraTradeHigh * (1.0 - TRAILING_LONG / 100.0);
        requests := requests + [Request(SHORT, CLOSE, longStop, pos)];
      } else {
        intraTradeLow := Lower(intraTradeLow, bar.lowPrice);
        var shortStop := intraTradeLow * (1.0 + TRAILING_SHORT / 100.0);
        requests := requests + [Request(LONG, CLOSE, shortStop, -pos)];
      }
    }

    ghost predicate BarsKept()
      reads this
    {
      var bs := Worked(all);
      && count == |all| && inited == (|all| >= ARRAY_SIZE)
      && bars == Recent(bs)
    }

    /** The first part of `on_bar`: the array is filled, then the last two bars are kept. Returns the bar
        before this one, once there are three. */
    method KeepBar(bar: BarData) returns (lastBar: Option<BarData>)
      requires BarsKept()
      modifies `count, `inited, `bars, `all
      ensures BarsKept() && all == old(all) + [bar]
      ensures lastBar.Some? <==> |Worked(all)| >= 3
      ensures lastBar.Some? ==> var bs := Worked(old(all));
                                |bs| >= 2 && Worked(all) == bs + [bar] && lastBar.value == bs[|bs| - 1]
      ensures lastBar.None? ==> |Worked(old(all))| < 3
    {
      hide Worked, Recent;
      count := count + 1;
      if !inited && count >= ARRAY_SIZE {
        inited := true;
      }
      all := all + [bar];
      WorkedGrows(old(all), bar);
      lastBar := None;
      if inited {
        lastBar := PushBar(bar, Worked(old(all)));
      }
    }

    /** The deque: push, and pop the oldest of three. */
    method PushBar(bar: BarData, ghost bs: seq<BarData>) returns (lastBar: Option<BarData>)
      requires bars == Recent(bs)
      modifies `bars
      ensures bars == Recent(bs + [bar])
      ensures lastBar == if |bs| < 2 then None else Some(bs[|bs| - 1])
    {
      hide Recent;
      bars := bars + [bar];
      if |bars| <= 2 {
        RecentGrows(bs, bar);
        return None;
      }
      bars := bars[1..];
      RecentMoves(bs, bar);
      return Some(bars[|bars| - 2]);
    }

    /** `on_bar`, after all earlier orders were cancelled. Orders are sent once three bars were worked on and
        the upper level is not zero. */
    method OnBar(bar: BarData, pos: int) returns (requests: seq<Request>)
      requires Valid()
      modifies this
      ensures Valid() && all == old(all) + [bar]
      ensures var ready := |Worked(all)| >= 3 && LevelsIn(Worked(all)).sellSetup != 0.0;
              && TheTrail() == (if ready then Trailed(old(TheTrail()), bar, pos) else old(TheTrail()))
              && requests == if ready then Requests(LevelsIn(Worked(all)), Range(Worked(all)), TheTrail(), pos) else []
      ensures requests != [] && pos != 0 ==>
                |all| >= 102 && |requests| == 1 && requests[0].offset == CLOSE && AfterFill(pos, requests[0]) == 0
    {
      hide Range, LevelsIn, NextRange, LevelsOf, Requests, Trailed, Worked, Recent, NewDay;
      ghost var bs := Worked(all);
      requests := [];
      var lastBar := KeepBar(bar);
      if lastBar.None? {
        NothingYet(bs);
        NothingYet(Worked(all));
        return;
      }
      RangeOneMore(bs, bar);
      LevelsOneMore(bs, bar);
      UpdateDay(lastBar.value, bar);
      if sellSetup == 0.0 {
        return;
      }
      requests := SendOrders(bar, pos);
    }
  }

  lemma WorkedGrows(all: seq<BarData>, bar: BarData)
    ensures Worked(all + [bar]) == if |all| + 1 < ARRAY_SIZE then [] else Worked(all) + [bar]
    ensures |all| < ARRAY_SIZE ==> Worked(all) == []
  {
  }

  function Recent(bs: seq<BarData>): (r: seq<BarData>)
    ensures |r| == if |bs| < 2 then |bs| else 2
  {
    if |bs| < 2 then bs else bs[|bs| - 2..]
  }

  lemma RecentGrows(bs: seq<BarData>, bar: BarData)
    requires |bs| < 2
    ensures Recent(bs + [bar]) == Recent(bs) + [bar]
  {
    if |bs| == 1 { assert (bs + [bar])[0..] == bs + [bar]; }
  }

  lemma RecentMoves(bs: seq<BarData>, bar: BarData)
    requires |bs| >= 2
    ensures Recent(bs + [bar]) == (Recent(bs) + [bar])[1..] && Recent(bs + [bar])[0] == bs[|bs| - 1]
  {
  }

  lemma NothingYet(bs: seq<BarData>)
    requires |bs| < 3
    ensures Range(bs) == NO_DAY && LevelsIn(bs) == NO_LEVELS
  {
  }

  // ---- what the levels mean ----

  predicate WellFormed(bs: seq<BarData>) { forall b <- bs :: b.lowPrice <= b.closePrice <= b.highPrice }

  predicate Ordered(d: Day) { d.low <= d.close <= d.high }

  lemma {:induction false} Within(bs: seq<BarData>)
    requires bs != [] && WellFormed(bs)
    ensures forall b <- bs :: Bottom(bs) <= b.lowPrice && b.highPrice <= Top(bs)
    ensures (exists b <- bs :: b.highPrice == Top(bs)) && exists b <- bs :: b.lowPrice == Bottom(bs)
  {
    var init, last := bs[..|bs| - 1], bs[|bs| - 1];
    assert last in bs;
    if |bs| == 1 {
    } else {
      Within(init);
      assert forall b <- bs :: b in init || b == last;
      assert forall b <- init :: b in bs;
    }
  }

  /** The day's close never leaves the day's range. */
  lemma RangeOrdered(bs: seq<BarData>)
    requires WellFormed(bs)
    ensures Ordered(Range(bs))
  {
    if |bs| >= 3 {
      var j := if Start(bs).Some? then Start(bs).value else 2;
      assert bs[j..][|bs| - 1 - j] == bs[|bs| - 1];
      assert bs[|bs| - 1] in bs[j..];
      assert forall b <- bs[j..] :: b in bs;
      Within(bs[j..]);
    }
  }

  predicate Ladder(l: Levels, low: real, high: real) {
    l.sellBreak <= l.buySetup <= low <= l.buyEnter <= l.sellEnter <= high <= l.sellSetup <= l.buyBreak
  }

  lemma LadderOfDay(d: Day)
    requires Ordered(d)
    ensures Ladder(LevelsOf(d), d.low, d.high)
  {
  }

  /** The six levels by their distances: the setups lie a quarter of the close's distance from the other extreme
      beyond the extremes, the breaks a fifth of the setups' distance beyond these, and the entries at either
      side of the middle, seven hundredths of the range apart. */
  lemma LevelsByDistance(d: Day)
    ensures var l := LevelsOf(d);
            && 4.0 * (l.sellSetup - d.high) == d.close - d.low && 4.0 * (d.low - l.buySetup) == d.high - d.close
            && 5.0 * (l.buyBreak - l.sellSetup) == l.sellSetup - l.buySetup == 5.0 * (l.buySetup - l.sellBreak)
            && l.sellEnter + l.buyEnter == d.high + d.low
            && 100.0 * (l.sellEnter - l.buyEnter) == 7.0 * (d.high - d.low)
  {
  }

  /** Whenever levels are set they stand in order around the low and the high of the day they were taken
      from, which was a whole day from its first bar to its last. */
  lemma LevelsFormLadder(bs: seq<BarData>)
    requires WellFormed(bs)
    ensures LevelsIn(bs) != NO_LEVELS ==> SetAt(bs).Some?
    ensures SetAt(bs).Some? ==>
              var j := SetAt(bs).value;
              && 3 <= j && Start(bs[..j]).Some? && NewDay(bs[j - 1], bs[j])
              && var day := bs[Start(bs[..j]).value..j];
              && day != [] && Ladder(LevelsIn(bs), Bottom(day), Top(day))
  {
    if SetAt(bs).Some? {
      var j := SetAt(bs).value;
      assert forall b <- bs[..j] :: b in bs;
      RangeOrdered(bs[..j]);
      LadderOfDay(Range(bs[..j]));
      SetAtStart(bs);
      assert bs[..j][Start(bs[..j]).value..] == bs[Start(bs[..j]).value..j];
    }
  }

  lemma {:induction false} SetAtStart(bs: seq<BarData>)
    requires SetAt(bs).Some?
    ensures var j := SetAt(bs).value;
            3 <= j < |bs| && NewDay(bs[j - 1], bs[j]) && Start(bs[..j]).Some?
    decreases |bs|
  {
    hide NewDay, Top, Bottom;
    var j := Start(bs).value;
    var before := bs[..j];
    StartIsLatest(bs);
    if Range(before).open == 0.0 {
      hide Range, Start;
      SetAtStart(before);
      var k := SetAt(before).value;
      assert before[..k] == bs[..k] && before[k] == bs[k] && before[k - 1] == bs[k - 1];
    }
  }

  /** A flat strategy never asks to sell above where it asks to buy on a break upwards, or to buy below where
      it sells on a break downwards. Since the channel is not computed, the upward pair is sent exactly when
      the upper level is negative, and the downward pair exactly when it is not and the lower one is positive. */
  lemma FlatOrders(d: Day, today: Day, t: Trail)
    requires Ordered(d) && Ordered(today)
    ensures var l, rs := LevelsOf(d), Requests(LevelsOf(d), today, t, 0);
            && (rs != [] ==> |rs| == 2)
            && (rs != [] && rs[0].direction == LONG ==> today.high <= rs[0].price && rs[1].price <= rs[0].price)
            && (rs != [] && rs[0].direction == SHORT ==> rs[0].price <= today.low && rs[0].price <= rs[1].price)
            && (rs != [] ==> rs[0].offset == rs[1].offset == OPEN && rs[0].volume == 1 && rs[1].volume == 3)
            && (rs != [] && rs[0].direction == LONG ==>
                  && rs[1].direction == SHORT && rs[1].price == l.sellEnter
                  && l.buyBreak <= rs[0].price && (rs[0].price == l.buyBreak || rs[0].price == today.high))
            && (rs != [] && rs[0].direction != LONG ==>
                  && rs[0].direction == SHORT && rs[1].direction == LONG && rs[1].price == l.buyEnter
                  && rs[0].price <= l.sellBreak && (rs[0].price == l.sellBreak || rs[0].price == today.low))
            && (rs != [] && rs[0].direction == LONG <==> l.sellSetup < 0.0)
            && (rs != [] && rs[0].direction == SHORT <==> l.sellSetup >= 0.0 && l.buySetup > 0.0)
            && (d.high >= 0.0 ==> l.sellSetup >= 0.0)
  {
    LadderOfDay(d);
  }

  // ---- the trailing stop ----

  function TrailedAll(t: Trail, moves: seq<(BarData, int)>): Trail {
    if moves == [] then t
    else Trailed(TrailedAll(t, moves[..|moves| - 1]), moves[|moves| - 1].0, moves[|moves| - 1].1)
  }

  /** While a long position is held the trail is the highest price since it was flat, and the stop that
      protects it never moves away. */
  lemma {:induction false} LongTrail(t: Trail, flat: BarData, held: seq<(BarData, int)>)
    requires forall m <- held :: m.1 > 0
    ensures var now := TrailedAll(Trailed(t, flat, 0), held);
            && now.high == Top([flat] + Bars(held)) && now.low == flat.lowPrice
            && (held != [] ==> LongStop(TrailedAll(Trailed(t, flat, 0), held[..|held| - 1])) <= LongStop(now))
            && (now.high >= 0.0 ==> LongStop(now) <= now.high)
  {
    if held == [] {
      assert [flat] + Bars(held) == [flat];
    } else {
      var init, last := held[..|held| - 1], held[|held| - 1];
      assert last in held && forall m <- init :: m in held;
      LongTrail(t, flat, init);
      assert ([flat] + Bars(held))[..|held|] == [flat] + Bars(init);
    }
  }

  lemma {:induction false} ShortTrail(t: Trail, flat: BarData, held: seq<(BarData, int)>)
    requires forall m <- held :: m.1 < 0
    ensures var now := TrailedAll(Trailed(t, flat, 0), held);
            && now.low == Bottom([flat] + Bars(held)) && now.high == flat.highPrice
            && (held != [] ==> ShortStop(now) <= ShortStop(TrailedAll(Trailed(t, flat, 0), held[..|held| - 1])))
            && (now.low >= 0.0 ==> now.low <= ShortStop(now))
  {
    if held == [] {
      assert [flat] + Bars(held) == [flat];
    } else {
      var init, last := held[..|held| - 1], held[|held| - 1];
      assert last in held && forall m <- init :: m in held;
      ShortTrail(t, flat, init);
      assert ([flat] + Bars(held))[..|held|] == [flat] + Bars(init);
    }
  }

  /** While a long position is held there is one request: it closes exactly what is held, at 99.6 percent of the
      highest price since the strategy was flat; so it is never below the one sent before, whatever day and levels
      were then, and never above the extreme. */
  lemma LongOrders(l: Levels, d: Day, lBefore: Levels, dBefore: Day, t: Trail, flat: BarData,
                   held: seq<(BarData, int)>)
    requires held != [] && forall m <- held :: m.1 > 0
    ensures var t0, n := Trailed(t, flat, 0), |held|;
            var pos, high := held[n - 1].1, Top([flat] + Bars(held));
            var rs := Requests(l, d, TrailedAll(t0, held), pos);
            && |rs| == 1 && rs[0].offset == CLOSE && AfterFill(pos, rs[0]) == 0
            && 1000.0 * rs[0].price == 996.0 * high && (high >= 0.0 ==> rs[0].price <= high)
            && (n > 1 ==>
                  Requests(lBefore, dBefore, TrailedAll(t0, held[..n - 1]), held[n - 2].1)[0].price <= rs[0].price)
  {
    var n := |held|;
    LongTrail(t, flat, held);
    assert held[n - 1] in held && (n > 1 ==> held[n - 2] in held);
    hide Trailed, TrailedAll, Top;
  }

  /** The same for a short position: 100.4 percent of the lowest price. */
  lemma ShortOrders(l: Levels, d: Day, lBefore: Levels, dBefore: Day, t: Trail, flat: BarData,
                   held: seq<(BarData, int)>)
    requires held != [] && forall m <- held :: m.1 < 0
    ensures var t0, n := Trailed(t, flat, 0), |held|;
            var pos, low := held[n - 1].1, Bottom([flat] + Bars(held));
            var rs := Requests(l, d, TrailedAll(t0, held), pos);
            && |rs| == 1 && rs[0].offset == CLOSE && AfterFill(pos, rs[0]) == 0
            && 1000.0 * rs[0].price == 1004.0 * low && (low >= 0.0 ==> low <= rs[0].price)
            && (n > 1 ==>
                  rs[0].price <= Requests(lBefore, dBefore, TrailedAll(t0, held[..n - 1]), held[n - 2].1)[0].price)
  {
    var n := |held|;
    ShortTrail(t, flat, held);
    assert held[n - 1] in held && (n > 1 ==> held[n - 2] in held);
    hide Trailed, TrailedAll, Bottom;
  }

  function Bars(moves: seq<(BarData, int)>): (bs: seq<BarData>)
    ensures |bs| == |moves| && forall i :: 0 <= i < |bs| ==> bs[i] == moves[i].0
  {
    if moves == [] then [] else Bars(moves[..|moves| - 1]) + [moves[|moves| - 1].0]
  }
}
