/** From ticks to levels: the bars of any stream of ticks are fit for the strategy. */
module Pipeline {
  import Bars
  import RBreak

  /** Every bar that goes out has its close within its range. */
  lemma BarsWellFormed(es: seq<Bars.Input>)
    ensures RBreak.WellFormed(Bars.Emitted(es)) && RBreak.WellFormed(RBreak.Worked(Bars.Emitted(es)))
  {
    hide Bars.Emitted;
    var all := Bars.Emitted(es);
    Bars.EveryBarInOrder(es);
    assert forall b <- all :: Bars.InOrder(b);
    assert forall b <- RBreak.Worked(all) :: b in all;
  }

  /** Whatever the ticks, the day's close stays in the day's range, and levels that are set form the ladder
      around the range of a whole earlier day. */
  lemma LadderOfTicks(es: seq<Bars.Input>)
    ensures var bs := RBreak.Worked(Bars.Emitted(es));
            && RBreak.Ordered(RBreak.Range(bs))
            && (RBreak.LevelsIn(bs) != RBreak.NO_LEVELS ==>
                  && RBreak.SetAt(bs).Some?
                  && var j := RBreak.SetAt(bs).value;
                  && RBreak.Start(bs[..j]).Some?
                  && var day := bs[RBreak.Start(bs[..j]).value..j];
                  day != [] && RBreak.Ladder(RBreak.LevelsIn(bs), RBreak.Bottom(day), RBreak.Top(day)))
  {
    hide Bars.Emitted, RBreak.Worked;
    BarsWellFormed(es);
    RBreak.RangeOrdered(RBreak.Worked(Bars.Emitted(es)));
    RBreak.LevelsFormLadder(RBreak.Worked(Bars.Emitted(es)));
  }
}
