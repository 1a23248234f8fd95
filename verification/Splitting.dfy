/** What the three request splitters have in common: each pours the requested volume through the
    closable buckets in a fixed order and opens what is left. */
module Splitting {
  import opened Market
  import opened Holding

  datatype Bucket = Bucket(offset: Offset, available: int)

  /** The reference splitter: fill each bucket in turn, skip empty ones, open the remainder. */
  function Waterfall(req: OrderRequest, buckets: seq<Bucket>, left: int): seq<OrderRequest> {
    if left <= 0 then []
    else if buckets == [] then [Leg(req, OPEN, left)]
    else
      var take := Min(buckets[0].available, left);
      var rest := Waterfall(req, buckets[1..], left - take);
      if take > 0 then [Leg(req, buckets[0].offset, take)] + rest else rest
  }

  /** The waterfall's first step, in the form the proofs use. */
  lemma WaterfallStep(req: OrderRequest, buckets: seq<Bucket>, left: int)
    requires left > 0 && buckets != [] && buckets[0].available >= 0
    ensures var take := Min(buckets[0].available, left);
            var legs, rest := Waterfall(req, buckets, left), Waterfall(req, buckets[1..], left - take);
            && Volume(legs) == take + Volume(rest)
            && (forall off :: VolumeOf(legs, off)
                              == (if buckets[0].offset == off then take else 0) + VolumeOf(rest, off))
            && (forall l <- legs :: l in rest || (take > 0 && l == Leg(req, buckets[0].offset, take)))
  {
    var take := Min(buckets[0].available, left);
    var rest := Waterfall(req, buckets[1..], left - take);
    var leg := Leg(req, buckets[0].offset, take);
    assert ([leg] + rest)[1..] == rest;
  }

  function Volume(legs: seq<OrderRequest>): int {
    if legs == [] then 0 else legs[0].volume + Volume(legs[1..])
  }

  function VolumeOf(legs: seq<OrderRequest>, off: Offset): int {
    if legs == [] then 0 else (if legs[0].offset == off then legs[0].volume else 0) + VolumeOf(legs[1..], off)
  }

  function Capacity(buckets: seq<Bucket>): int {
    if buckets == [] then 0 else buckets[0].available + Capacity(buckets[1..])
  }

  predicate Sound(buckets: seq<Bucket>) {
    && (forall k <- buckets :: k.available >= 0 && k.offset != OPEN)
    && (forall i, j :: 0 <= i < j < |buckets| ==> buckets[i].offset != buckets[j].offset)
  }

  /** No lot is lost or invented, every leg is positive and differs from the request in offset and volume only. */
  lemma {:induction false} WaterfallConserves(req: OrderRequest, buckets: seq<Bucket>, left: int)
    requires left >= 0 && Sound(buckets)
    ensures var legs := Waterfall(req, buckets, left);
            && Volume(legs) == left
            && (forall l <- legs :: l.volume > 0 && l == Leg(req, l.offset, l.volume))
  {
    if left <= 0 || buckets == [] {
    } else {
      var take := Min(buckets[0].available, left);
      assert buckets[0] in buckets;
      WaterfallStep(req, buckets, left);
      WaterfallConserves(req, buckets[1..], left - take);
    }
  }

  /** Bucket `i` gets what the buckets before it could not take, up to its own volume. */
  lemma {:induction false} WaterfallBucket(req: OrderRequest, buckets: seq<Bucket>, left: int, i: nat)
    requires left >= 0 && Sound(buckets) && i < |buckets|
    ensures VolumeOf(Waterfall(req, buckets, left), buckets[i].offset)
            == Min(buckets[i].available, Max(0, left - Capacity(buckets[..i])))
  {
    CapacityNonNegative(buckets[..i]);
    assert buckets[i] in buckets;
    if left == 0 {
    } else {
      var take := Min(buckets[0].available, left);
      assert buckets[0] in buckets;
      WaterfallStep(req, buckets, left);
      if i == 0 {
        OtherOffset(req, buckets[1..], left - take, buckets[0].offset);
      } else {
        assert buckets[..i][1..] == buckets[1..][..i - 1];
        CapacityNonNegative(buckets[1..][..i - 1]);
        WaterfallBucket(req, buckets[1..], left - take, i - 1);
      }
    }
  }

  lemma {:induction false} OtherOffset(req: OrderRequest, buckets: seq<Bucket>, left: int, off: Offset)
    requires off != OPEN && forall k <- buckets :: k.offset != off && k.available >= 0
    ensures VolumeOf(Waterfall(req, buckets, left), off) == 0
  {
    if left <= 0 || buckets == [] {
    } else {
      assert buckets[0] in buckets;
      WaterfallStep(req, buckets, left);
      OtherOffset(req, buckets[1..], left - Min(buckets[0].available, left), off);
    }
  }

  lemma {:induction false} CapacityNonNegative(buckets: seq<Bucket>)
    requires forall k <- buckets :: k.available >= 0
    ensures Capacity(buckets) >= 0
  {
    if buckets == [] {
    } else {
      assert buckets[0] in buckets;
      CapacityNonNegative(buckets[1..]);
    }
  }

  /** Only what exceeds all buckets is opened. */
  lemma {:induction false} WaterfallOpens(req: OrderRequest, buckets: seq<Bucket>, left: int)
    requires left >= 0 && Sound(buckets)
    ensures VolumeOf(Waterfall(req, buckets, left), OPEN) == Max(0, left - Capacity(buckets))
  {
    CapacityNonNegative(buckets);
    if left <= 0 || buckets == [] {
    } else {
      assert buckets[0] in buckets;
      WaterfallStep(req, buckets, left);
      WaterfallOpens(req, buckets[1..], left - Min(buckets[0].available, left));
      CapacityNonNegative(buckets[1..]);
    }
  }

  // ---- each splitter is the waterfall over its own buckets ----

  predicate FrozenWithinHeld(s: Side) {
    && s.tdFrozen <= s.td && s.ydFrozen <= s.yd
    && s.pos == s.td + s.yd && s.posFrozen == s.tdFrozen + s.ydFrozen
  }

  function TodayFirst(s: Side): seq<Bucket> {
    [Bucket(CLOSETODAY, s.TdAvailable()), Bucket(CLOSEYESTERDAY, s.YdAvailable())]
  }

  function NetBuckets(s: Side, exchange: Exchange): seq<Bucket> {
    if exchange.SplitsToday() then TodayFirst(s) else [Bucket(CLOSE, s.PosAvailable())]
  }

  function LockBuckets(s: Side, exchange: Exchange): seq<Bucket> {
    if exchange.SplitsToday() then [Bucket(CLOSEYESTERDAY, s.YdAvailable())]
    else if s.td != 0 then []
    else [Bucket(CLOSE, s.YdAvailable())]
  }

  lemma CapacityOf(x: Bucket, y: Bucket)
    ensures Capacity([x]) == x.available && Capacity([x, y]) == x.available + y.available
  {
    assert [x][1..] == [] && [y][1..] == [] && [x, y][1..] == [y];
    assert Capacity([y]) == y.available;
  }

  /** A leg of `v` lots, or none when there is nothing to send. */
  function Part(req: OrderRequest, off: Offset, v: int): seq<OrderRequest> {
    if v > 0 then [Leg(req, off, v)] else []
  }

  lemma OneBucket(req: OrderRequest, x: Bucket, left: int)
    requires left > 0 && x.available >= 0
    ensures Waterfall(req, [x], left) ==
            Part(req, x.offset, Min(x.available, left)) + Part(req, OPEN, left - Min(x.available, left))
  {
    assert [x][1..] == [];
  }

  lemma TwoBuckets(req: OrderRequest, x: Bucket, y: Bucket, left: int)
    requires left > 0 && x.available >= 0 && y.available >= 0
    ensures var first := Min(x.available, left);
            var second := Min(y.available, left - first);
            Waterfall(req, [x, y], left) ==
            Part(req, x.offset, first) + Part(req, y.offset, second) + Part(req, OPEN, left - first - second)
  {
    assert [x, y][1..] == [y];
    if left > x.available { OneBucket(req, y, left - x.available); }
  }

  /** What becomes of a request for no lots in the lock and net modes: a leg for the first bucket, if that has
      any volume, carries the zero on. */
  function ZeroLegs(req: OrderRequest, buckets: seq<Bucket>): seq<OrderRequest> {
    if buckets == [] then [Leg(req, OPEN, 0)]
    else if buckets[0].available > 0 then [Leg(req, buckets[0].offset, 0)]
    else []
  }

  /** A closing request beyond the available position is refused outright; any other one is poured
      through today's and yesterday's volume with nothing left to open. One for no lots is sent on as one leg. */
  lemma ShfeIsWaterfall(b: Book, req: OrderRequest)
    requires req.volume >= 0 && FrozenWithinHeld(b.Closed(req.direction))
    ensures var s := b.Closed(req.direction);
            ShfeLegs(b, req) ==
            if req.volume == 0 then [Leg(req, if req.offset == OPEN then OPEN else CLOSETODAY, 0)]
            else if req.offset == OPEN then Waterfall(req, [], req.volume)
            else if req.volume > Capacity(TodayFirst(s)) then []
            else Waterfall(req, TodayFirst(s), req.volume)
  {
    hide Waterfall, ShfeLegs, Capacity;
    if req.volume == 0 {
      ShfeOfNone(b, req);
    } else {
      ShfeOfSome(b, req);
    }
  }

  lemma ShfeOfSome(b: Book, req: OrderRequest)
    requires req.volume > 0 && FrozenWithinHeld(b.Closed(req.direction))
    ensures var s := b.Closed(req.direction);
            ShfeLegs(b, req) ==
            if req.offset == OPEN then Waterfall(req, [], req.volume)
            else if req.volume > Capacity(TodayFirst(s)) then []
            else Waterfall(req, TodayFirst(s), req.volume)
  {
    hide Waterfall;
    var s := b.Closed(req.direction);
    var x, y := Bucket(CLOSETODAY, s.TdAvailable()), Bucket(CLOSEYESTERDAY, s.YdAvailable());
    CapacityOf(x, y);
    if req.offset == OPEN {
      NoBuckets(req, req.volume);
    } else if req.volume <= s.PosAvailable() {
      TwoBuckets(req, x, y, req.volume);
      hide Capacity;
      if req.volume <= s.TdAvailable() {
        assert Part(req, CLOSETODAY, req.volume) + [] + [] == [Leg(req, CLOSETODAY, req.volume)];
      } else {
        assert Part(req, CLOSETODAY, s.TdAvailable()) + Part(req, CLOSEYESTERDAY, req.volume - s.TdAvailable()) + []
            == Part(req, CLOSETODAY, s.TdAvailable()) + [Leg(req, CLOSEYESTERDAY, req.volume - s.TdAvailable())];
      }
    }
  }

  lemma ShfeOfNone(b: Book, req: OrderRequest)
    requires FrozenWithinHeld(b.Closed(req.direction)) && req.volume == 0
    ensures ShfeLegs(b, req) == [Leg(req, if req.offset == OPEN then OPEN else CLOSETODAY, 0)]
  {
  }

  lemma NoBuckets(req: OrderRequest, left: int)
    requires left > 0
    ensures Waterfall(req, [], left) == [Leg(req, OPEN, left)]
  {
  }

  lemma LockIsWaterfall(b: Book, req: OrderRequest)
    requires req.volume >= 0 && FrozenWithinHeld(b.Closed(req.direction))
    ensures var k := LockBuckets(b.Closed(req.direction), b.exchange);
            LockLegs(b, req) == if req.volume == 0 then ZeroLegs(req, k) else Waterfall(req, k, req.volume)
  {
    hide Waterfall;
    if req.volume == 0 { return; }
    var s := b.Closed(req.direction);
    NoBuckets(req, req.volume);
    OneBucket(req, Bucket(CLOSEYESTERDAY, s.YdAvailable()), req.volume);
    OneBucket(req, Bucket(CLOSE, s.YdAvailable()), req.volume);
  }

  lemma NetIsWaterfall(b: Book, req: OrderRequest)
    requires req.volume >= 0 && FrozenWithinHeld(b.Closed(req.direction))
    ensures var k := NetBuckets(b.Closed(req.direction), req.exchange);
            NetLegs(b, req) == if req.volume == 0 then ZeroLegs(req, k) else Waterfall(req, k, req.volume)
  {
    hide Waterfall, NetLegs, Part;
    NetOfNone(b, req);
    if req.volume == 0 { return; }
    var s := b.Closed(req.direction);
    NetParts(b, req);
    if req.exchange.SplitsToday() {
      TwoBuckets(req, Bucket(CLOSETODAY, s.TdAvailable()), Bucket(CLOSEYESTERDAY, s.YdAvailable()), req.volume);
    } else {
      OneBucket(req, Bucket(CLOSE, s.PosAvailable()), req.volume);
    }
  }

  lemma NetOfNone(b: Book, req: OrderRequest)
    requires FrozenWithinHeld(b.Closed(req.direction))
    ensures req.volume == 0 ==>
              NetLegs(b, req) == ZeroLegs(req, NetBuckets(b.Closed(req.direction), req.exchange))
  {
  }

  lemma NetParts(b: Book, req: OrderRequest)
    requires req.volume > 0 && FrozenWithinHeld(b.Closed(req.direction))
    ensures var s := b.Closed(req.direction);
            var td := Min(s.TdAvailable(), req.volume);
            var yd := Min(s.YdAvailable(), req.volume - td);
            var pos := Min(s.PosAvailable(), req.volume);
            NetLegs(b, req) ==
            if req.exchange.SplitsToday()
            then Part(req, CLOSETODAY, td) + Part(req, CLOSEYESTERDAY, yd) + Part(req, OPEN, req.volume - td - yd)
            else Part(req, CLOSE, pos) + Part(req, OPEN, req.volume - pos)
  {
  }

  /** The buckets a request is poured through in each mode, or none when it is only opened or passed on. */
  function ModeBuckets(b: Book, req: OrderRequest, lock: bool, net: bool): seq<Bucket> {
    var s := b.Closed(req.direction);
    if lock then LockBuckets(s, b.exchange)
    else if net then NetBuckets(s, req.exchange)
    else if req.offset != OPEN then TodayFirst(s)
    else []
  }

  predicate Refused(b: Book, req: OrderRequest, lock: bool, net: bool) {
    !lock && !net && req.offset != OPEN && req.volume > b.Closed(req.direction).PosAvailable()
  }

  /** The conservation law of request conversion on SHFE and INE, in every mode: the legs carry exactly
      the requested volume, none is a plain CLOSE, each bucket is asked for no more than it has available,
      and the only request for any lots without legs is a plain-mode close beyond the available position. */
  lemma ConversionConserves(b: Book, req: OrderRequest, lock: bool, net: bool)
    requires req.volume >= 0 && FrozenWithinHeld(b.Closed(req.direction))
    requires req.exchange == b.exchange && b.exchange.SplitsToday()
    ensures var s := b.Closed(req.direction);
            var legs := ConvertedLegs(b, req, lock, net);
            && (if req.volume == 0 then |legs| <= 1 else (legs == [] <==> Refused(b, req, lock, net)))
            && Volume(legs) == (if Refused(b, req, lock, net) then 0 else req.volume)
            && (forall l <- legs :: l == Leg(req, l.offset, l.volume)
                                    && l.offset in {OPEN, CLOSETODAY, CLOSEYESTERDAY}
                                    && (if req.volume == 0 then l.volume == 0 else l.volume > 0))
            && VolumeOf(legs, CLOSETODAY) <= s.TdAvailable()
            && VolumeOf(legs, CLOSEYESTERDAY) <= s.YdAvailable()
  {
    var s, k := b.Closed(req.direction), ModeBuckets(b, req, lock, net);
    CapacityOf(Bucket(CLOSETODAY, s.TdAvailable()), Bucket(CLOSEYESTERDAY, s.YdAvailable()));
    hide Waterfall, VolumeOf, Volume, LockLegs, NetLegs, ShfeLegs;
    LockIsWaterfall(b, req);
    NetIsWaterfall(b, req);
    ShfeIsWaterfall(b, req);
    OneLeg([]);
    if req.volume == 0 {
      OneLeg(ConvertedLegs(b, req, lock, net));
    } else if !Refused(b, req, lock, net) {
      WaterfallConserves(req, k, req.volume);
      WaterfallOffsets(req, k, req.volume);
      BucketShare(req, k, req.volume, CLOSETODAY, s.TdAvailable());
      BucketShare(req, k, req.volume, CLOSEYESTERDAY, s.YdAvailable());
    }
  }

  lemma OneLeg(legs: seq<OrderRequest>)
    requires |legs| <= 1
    ensures Volume(legs) == if legs == [] then 0 else legs[0].volume
    ensures forall off :: VolumeOf(legs, off) == if legs == [] || legs[0].offset != off then 0 else legs[0].volume
  {
    if legs != [] { assert legs[1..] == []; }
  }

  predicate OffsetOf(off: Offset, buckets: seq<Bucket>) {
    off == OPEN || exists i :: 0 <= i < |buckets| && buckets[i].offset == off
  }

  /** Legs have the offsets of the buckets, or open. */
  lemma {:induction false} WaterfallOffsets(req: OrderRequest, buckets: seq<Bucket>, left: int)
    requires forall k <- buckets :: k.available >= 0
    ensures forall l <- Waterfall(req, buckets, left) :: OffsetOf(l.offset, buckets)
  {
    if left <= 0 || buckets == [] {
    } else {
      assert buckets[0] in buckets;
      var rest := left - Min(buckets[0].available, left);
      WaterfallStep(req, buckets, left);
      WaterfallOffsets(req, buckets[1..], rest);
      assert OffsetOf(buckets[0].offset, buckets);
      forall l <- Waterfall(req, buckets, left) ensures OffsetOf(l.offset, buckets) {
        if l in Waterfall(req, buckets[1..], rest) { OffsetInTail(l.offset, buckets); }
      }
    }
  }

  lemma OffsetInTail(off: Offset, buckets: seq<Bucket>)
    requires buckets != [] && OffsetOf(off, buckets[1..])
    ensures OffsetOf(off, buckets)
  {
    if off != OPEN {
      var i :| 0 <= i < |buckets| - 1 && buckets[1..][i].offset == off;
      assert buckets[i + 1].offset == off;
    }
  }

  lemma BucketShare(req: OrderRequest, buckets: seq<Bucket>, left: int, off: Offset, available: int)
    requires left >= 0 && Sound(buckets) && off != OPEN && available >= 0
    requires forall k <- buckets :: k.offset == off ==> k.available == available
    ensures VolumeOf(Waterfall(req, buckets, left), off) <= available
  {
    if i :| 0 <= i < |buckets| && buckets[i].offset == off {
      assert buckets[i] in buckets;
      WaterfallBucket(req, buckets, left, i);
    } else {
      OtherOffset(req, buckets, left, off);
    }
  }

  /** Elsewhere, lock and net mode conserve the volume too and never close more than is available; the plain mode
      passes the request on. */
  lemma PlainConversionConserves(b: Book, req: OrderRequest, lock: bool, net: bool)
    requires req.volume >= 0 && FrozenWithinHeld(b.Closed(req.direction))
    requires req.exchange == b.exchange && !b.exchange.SplitsToday()
    ensures var legs := ConvertedLegs(b, req, lock, net);
            && Volume(legs) == req.volume
            && (forall l <- legs :: l == Leg(req, l.offset, l.volume)
                                    && (if req.volume == 0 then l.volume == 0 else l.volume > 0))
            && (if lock || net then
                  && (forall l <- legs :: l.offset in {OPEN, CLOSE})
                  && VolumeOf(legs, CLOSE) <= b.Closed(req.direction).PosAvailable()
                else |legs| == 1 && legs[0].offset == req.offset)
  {
    hide Waterfall, VolumeOf, Volume, LockLegs, NetLegs;
    var s, k := b.Closed(req.direction), ModeBuckets(b, req, lock, net);
    LockIsWaterfall(b, req);
    NetIsWaterfall(b, req);
    if req.volume == 0 || (!lock && !net) {
      OneLeg(ConvertedLegs(b, req, lock, net));
    } else {
      WaterfallConserves(req, k, req.volume);
      WaterfallOffsets(req, k, req.volume);
      BucketShare(req, k, req.volume, CLOSE, if k == [] then 0 else k[0].available);
    }
  }

  /** How much each bucket of an SHFE or INE holding is asked for, and how much is opened. */
  lemma SplitShares(b: Book, req: OrderRequest, lock: bool, net: bool)
    requires req.volume >= 0 && FrozenWithinHeld(b.Closed(req.direction))
    requires req.exchange == b.exchange && b.exchange.SplitsToday()
    ensures var s, v, legs := b.Closed(req.direction), req.volume, ConvertedLegs(b, req, lock, net);
            var today := if lock || (!net && req.offset == OPEN) then 0 else Min(v, s.TdAvailable());
            var yesterday := if !lock && !net && req.offset == OPEN then 0 else Min(v - today, s.YdAvailable());
            if Refused(b, req, lock, net) then legs == []
            else
              && VolumeOf(legs, CLOSETODAY) == today && VolumeOf(legs, CLOSEYESTERDAY) == yesterday
              && VolumeOf(legs, OPEN) == v - today - yesterday
  {
    var s, k := b.Closed(req.direction), ModeBuckets(b, req, lock, net);
    var x, y := Bucket(CLOSETODAY, s.TdAvailable()), Bucket(CLOSEYESTERDAY, s.YdAvailable());
    CapacityOf(x, y);
    CapacityOf(y, x);
    hide Waterfall, VolumeOf, LockLegs, NetLegs, ShfeLegs;
    LockIsWaterfall(b, req);
    NetIsWaterfall(b, req);
    ShfeIsWaterfall(b, req);
    if req.volume == 0 {
      OneLeg(ConvertedLegs(b, req, lock, net));
    } else if !Refused(b, req, lock, net) {
      WaterfallOpens(req, k, req.volume);
      if k == [] {
        OtherOffset(req, k, req.volume, CLOSETODAY);
        OtherOffset(req, k, req.volume, CLOSEYESTERDAY);
      } else if lock {
        OtherOffset(req, k, req.volume, CLOSETODAY);
        WaterfallBucket(req, k, req.volume, 0);
      } else {
        WaterfallBucket(req, k, req.volume, 0);
        WaterfallBucket(req, k, req.volume, 1);
        assert k[..1] == [x];
      }
    }
  }
}
