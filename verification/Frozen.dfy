/** The frozen-volume fold of `calculate_frozen`, one side at a time, and what it yields for
    every order in which the hash map may be walked. */
module Frozen {
  import opened Market

  /** The two accumulators of one side while the active orders are walked. */
  datatype Frozen = Frozen(td: int, yd: int)

  /** Orders of direction `d` close the opposite side; OPEN and NONE orders freeze nothing. */
  function Freeze(f: Frozen, o: OrderData, d: Direction, td: int): Frozen {
    if o.direction != d then f else
    match o.offset
    case CLOSETODAY => f.(td := f.td + o.Remaining())
    case CLOSEYESTERDAY => f.(yd := f.yd + o.Remaining())
    case CLOSE =>
      var sum := f.td + o.Remaining();
      if sum > td then Frozen(td, f.yd + (sum - td)) else f.(td := sum)
    case _ => f
  }

  function FreezeAll(os: seq<OrderData>, d: Direction, td: int): Frozen {
    if os == [] then Frozen(0, 0)
    else Freeze(FreezeAll(os[..|os| - 1], d, td), os[|os| - 1], d, td)
  }

  /** What is left in the holding's fields after `sum_pos_frozen`. */
  function Clamped(f: Frozen, td: int, yd: int): Frozen { Frozen(Min(f.td, td), Min(f.yd, yd)) }

  /** Volume an order of direction `d` and offset `off` still has to trade. */
  function Weight(o: OrderData, d: Direction, off: Offset): int {
    if o.direction == d && o.offset == off then o.Remaining() else 0
  }

  function Total(os: seq<OrderData>, d: Direction, off: Offset): int {
    if os == [] then 0 else Total(os[..|os| - 1], d, off) + Weight(os[|os| - 1], d, off)
  }

  ghost predicate NoneOverfilled(os: seq<OrderData>) { forall o <- os :: o.Remaining() >= 0 }

  /** Before clamping, the two buckets together hold exactly the remaining volume of the closing orders. */
  lemma {:induction false} FreezeConserves(os: seq<OrderData>, d: Direction, td: int)
    ensures var f := FreezeAll(os, d, td);
            f.td + f.yd == Total(os, d, CLOSE) + Total(os, d, CLOSETODAY) + Total(os, d, CLOSEYESTERDAY)
  {
    if os == [] {
    } else {
      FreezeConserves(os[..|os| - 1], d, td);
    }
  }

  lemma {:induction false} TotalNonNegative(os: seq<OrderData>, d: Direction, off: Offset)
    requires NoneOverfilled(os)
    ensures Total(os, d, off) >= 0
  {
    if os == [] {
    } else {
      TotalNonNegative(os[..|os| - 1], d, off);
    }
  }

  /** The bounds that hold after any prefix of any walk. */
  lemma {:induction false} FreezeBounds(os: seq<OrderData>, d: Direction, td: int)
    requires NoneOverfilled(os)
    ensures var f := FreezeAll(os, d, td);
            var T, C, Y := Total(os, d, CLOSETODAY), Total(os, d, CLOSE), Total(os, d, CLOSEYESTERDAY);
            && T >= 0 && C >= 0 && Y >= 0
            && f.td <= T + C && f.yd >= Y
            && (f.td < td ==> f.td == T + C)
            && (f.td >= td ==> T + C >= td)
            && (td >= 0 ==> f.td <= T + Min(C, td))
            && ((forall o <- os :: o.direction == d ==> o.offset != CLOSE) ==> f.td == T)
  {
    if os == [] {
    } else {
      var init := os[..|os| - 1];
      assert forall o <- init :: o in os;
      FreezeBounds(init, d, td);
      assert os[|os| - 1] in os;
    }
  }

  /** Today's frozen volume has the same closed form for every walk. */
  lemma TodayFrozenClosedForm(os: seq<OrderData>, d: Direction, td: int, yd: int)
    requires NoneOverfilled(os)
    ensures Clamped(FreezeAll(os, d, td), td, yd).td == Min(Total(os, d, CLOSETODAY) + Total(os, d, CLOSE), td)
  {
    FreezeBounds(os, d, td);
  }

  ghost predicate HasClose(os: seq<OrderData>, d: Direction) {
    exists o <- os :: o.direction == d && o.offset == CLOSE
  }

  /** The guard under which the walk order cannot matter. */
  ghost predicate OrderIrrelevant(os: seq<OrderData>, d: Direction, td: int, yd: int) {
    var T, C, Y := Total(os, d, CLOSETODAY), Total(os, d, CLOSE), Total(os, d, CLOSEYESTERDAY);
    !HasClose(os, d) || T == 0 || T + C <= td || Y + Max(0, C - td) >= yd
  }

  /** Under the guard both fields are functions of the three sums alone. */
  lemma FrozenClosedForm(os: seq<OrderData>, d: Direction, td: int, yd: int)
    requires NoneOverfilled(os) && td >= 0
    requires OrderIrrelevant(os, d, td, yd)
    ensures var T, C, Y := Total(os, d, CLOSETODAY), Total(os, d, CLOSE), Total(os, d, CLOSEYESTERDAY);
            Clamped(FreezeAll(os, d, td), td, yd) ==
            Frozen(Min(T + C, td), Min(if HasClose(os, d) then Y + Max(0, C - td) else Y, yd))
  {
    FreezeBounds(os, d, td);
    FreezeConserves(os, d, td);
    if !HasClose(os, d) { NoCloseNoTotal(os, d); }
  }

  lemma {:induction false} NoCloseNoTotal(os: seq<OrderData>, d: Direction)
    requires !HasClose(os, d)
    ensures Total(os, d, CLOSE) == 0
  {
    if os == [] {
    } else {
      assert os[|os| - 1] in os;
      assert forall o <- os[..|os| - 1] :: o in os;
      NoCloseNoTotal(os[..|os| - 1], d);
    }
  }

  // ---- walks of the map ----

  /** `ks` visits every key of `m` exactly once. */
  ghost predicate Enumerates<K(!new)>(ks: seq<K>, m: map<K, OrderData>) {
    (forall i, j :: 0 <= i < j < |ks| ==> ks[i] != ks[j]) && (forall k :: k in ks <==> k in m)
  }

  ghost function Orders<K(!new)>(ks: seq<K>, m: map<K, OrderData>): (os: seq<OrderData>)
    requires forall k <- ks :: k in m
    ensures |os| == |ks| && forall i :: 0 <= i < |ks| ==> os[i] == m[ks[i]]
  {
    seq(|ks|, i requires 0 <= i < |ks| => m[ks[i]])
  }

  /** Remaining volume of the map's orders, without reference to a walk. */
  ghost function MapTotal<K(!new)>(m: map<K, OrderData>, d: Direction, off: Offset): int {
    if m == map[] then 0 else var k :| k in m; Weight(m[k], d, off) + MapTotal(m - {k}, d, off)
  }

  lemma {:induction false} MapTotalRemove<K(!new)>(m: map<K, OrderData>, k: K, d: Direction, off: Offset)
    requires k in m
    ensures MapTotal(m, d, off) == Weight(m[k], d, off) + MapTotal(m - {k}, d, off)
    decreases |m|
  {
    var j :| j in m && MapTotal(m, d, off) == Weight(m[j], d, off) + MapTotal(m - {j}, d, off);
    if j != k {
      MapTotalRemove(m - {j}, k, d, off);
      MapTotalRemove(m - {k}, j, d, off);
      assert m - {j} - {k} == m - {k} - {j};
    }
  }

  lemma MapTotalInsert<K(!new)>(m: map<K, OrderData>, k: K, o: OrderData, d: Direction, off: Offset)
    ensures MapTotal(m[k := o], d, off) == Weight(o, d, off) + MapTotal(m - {k}, d, off)
  {
    MapTotalRemove(m[k := o], k, d, off);
    assert m[k := o] - {k} == m - {k};
  }

  lemma {:induction false} TotalOfWalk<K(!new)>(ks: seq<K>, m: map<K, OrderData>, d: Direction, off: Offset)
    requires Enumerates(ks, m)
    ensures Total(Orders(ks, m), d, off) == MapTotal(m, d, off)
    decreases |ks|
  {
    if ks == [] {
      EmptyWalk(m);
    } else {
      var k := ks[|ks| - 1];
      WithoutLast(ks, m);
      OrdersWithoutLast(ks, m);
      TotalOfWalk(ks[..|ks| - 1], m - {k}, d, off);
      MapTotalRemove(m, k, d, off);
    }
  }

  lemma EmptyWalk<K(!new)>(m: map<K, OrderData>)
    requires Enumerates([], m)
    ensures m == map[]
  {
    assert forall k :: k in m ==> k in [];
  }

  lemma OrdersWithoutLast<K(!new)>(ks: seq<K>, m: map<K, OrderData>)
    requires ks != [] && Enumerates(ks, m) && Enumerates(ks[..|ks| - 1], m - {ks[|ks| - 1]})
    ensures var os := Orders(ks, m);
            && os[|ks| - 1] == m[ks[|ks| - 1]]
            && os[..|ks| - 1] == Orders(ks[..|ks| - 1], m - {ks[|ks| - 1]})
  {
  }

  lemma WithoutLast<K(!new)>(ks: seq<K>, m: map<K, OrderData>)
    requires Enumerates(ks, m) && ks != []
    ensures Enumerates(ks[..|ks| - 1], m - {ks[|ks| - 1]})
    ensures ks[|ks| - 1] in m
  {
    var init, k := ks[..|ks| - 1], ks[|ks| - 1];
    assert k in ks;
    forall x ensures x in init <==> x in m - {k} {
      if x in m && x != k {
        var i :| 0 <= i < |ks| && ks[i] == x;
        assert init[i] == x;
      }
      if x in init {
        var i :| 0 <= i < |init| && init[i] == x;
        assert ks[i] == x && x in ks;
      }
    }
  }
}
