/** Exactly when the result of `calculate_frozen` does not depend on the hash map's walk order. */
module FrozenOrder {
  import opened Market
  import opened Frozen

  ghost predicate MapNoneOverfilled<K(!new)>(m: map<K, OrderData>) { forall k <- m :: m[k].Remaining() >= 0 }

  ghost predicate MapHasClose<K(!new)>(m: map<K, OrderData>, d: Direction) {
    exists k <- m :: m[k].direction == d && m[k].offset == CLOSE
  }

  ghost predicate MapOrderIrrelevant<K(!new)>(m: map<K, OrderData>, d: Direction, td: int, yd: int) {
    var T, C, Y := MapTotal(m, d, CLOSETODAY), MapTotal(m, d, CLOSE), MapTotal(m, d, CLOSEYESTERDAY);
    !MapHasClose(m, d) || T == 0 || T + C <= td || Y + Max(0, C - td) >= yd
  }

  /** The side's fields after walking `m` in the order `ks`. */
  ghost function Walked<K(!new)>(ks: seq<K>, m: map<K, OrderData>, d: Direction, td: int, yd: int): Frozen
    requires Enumerates(ks, m)
  {
    Clamped(FreezeAll(Orders(ks, m), d, td), td, yd)
  }

  ghost predicate WalkIndependent<K(!new)>(m: map<K, OrderData>, d: Direction, td: int, yd: int) {
    forall a, b :: Enumerates(a, m) && Enumerates(b, m) ==> Walked(a, m, d, td, yd) == Walked(b, m, d, td, yd)
  }

  /** The closed form of the side's fields. */
  ghost function Settled<K(!new)>(m: map<K, OrderData>, d: Direction, td: int, yd: int): Frozen {
    var T, C, Y := MapTotal(m, d, CLOSETODAY), MapTotal(m, d, CLOSE), MapTotal(m, d, CLOSEYESTERDAY);
    Frozen(Min(T + C, td), Min(if MapHasClose(m, d) then Y + Max(0, C - td) else Y, yd))
  }

  lemma WalkOrders<K(!new)>(ks: seq<K>, m: map<K, OrderData>, d: Direction)
    requires Enumerates(ks, m)
    ensures MapNoneOverfilled(m) ==> NoneOverfilled(Orders(ks, m))
    ensures HasClose(Orders(ks, m), d) <==> MapHasClose(m, d)
  {
    var os := Orders(ks, m);
    forall o | o in os ensures exists k <- m :: m[k] == o {
      var i :| 0 <= i < |os| && os[i] == o;
      assert ks[i] in ks && ks[i] in m && m[ks[i]] == o;
    }
    forall k | k in m ensures m[k] in os {
      var i :| 0 <= i < |ks| && ks[i] == k;
      assert os[i] == m[k];
    }
  }

  lemma WalkFacts<K(!new)>(ks: seq<K>, m: map<K, OrderData>, d: Direction)
    requires Enumerates(ks, m) && MapNoneOverfilled(m)
    ensures var os := Orders(ks, m);
            && NoneOverfilled(os)
            && (HasClose(os, d) <==> MapHasClose(m, d))
            && Total(os, d, CLOSETODAY) == MapTotal(m, d, CLOSETODAY) >= 0
            && Total(os, d, CLOSE) == MapTotal(m, d, CLOSE) >= 0
            && Total(os, d, CLOSEYESTERDAY) == MapTotal(m, d, CLOSEYESTERDAY) >= 0
  {
    WalkOrders(ks, m, d);
    hide Total, MapTotal, Orders;
    TotalOfWalk(ks, m, d, CLOSETODAY);
    TotalOfWalk(ks, m, d, CLOSE);
    TotalOfWalk(ks, m, d, CLOSEYESTERDAY);
    TotalNonNegative(Orders(ks, m), d, CLOSETODAY);
    TotalNonNegative(Orders(ks, m), d, CLOSE);
    TotalNonNegative(Orders(ks, m), d, CLOSEYESTERDAY);
  }

  /** Whatever the walk, the guard makes the fields equal the closed form. */
  lemma SettledForEveryWalk<K(!new)>(ks: seq<K>, m: map<K, OrderData>, d: Direction, td: int, yd: int)
    requires Enumerates(ks, m) && MapNoneOverfilled(m) && td >= 0
    requires MapOrderIrrelevant(m, d, td, yd)
    ensures Walked(ks, m, d, td, yd) == Settled(m, d, td, yd)
  {
    hide Total, MapTotal, FreezeAll;
    WalkFacts(ks, m, d);
    FrozenClosedForm(Orders(ks, m), d, td, yd);
  }

  /** Without any guard, today's field is the same for every walk: only the spill into yesterday's can differ. */
  lemma TodayWalkIndependent<K(!new)>(a: seq<K>, b: seq<K>, m: map<K, OrderData>, d: Direction, td: int, yd: int)
    requires Enumerates(a, m) && Enumerates(b, m) && MapNoneOverfilled(m)
    ensures Walked(a, m, d, td, yd).td == Walked(b, m, d, td, yd).td
            == Min(MapTotal(m, d, CLOSETODAY) + MapTotal(m, d, CLOSE), td)
  {
    hide Total, MapTotal, FreezeAll, Orders;
    WalkFacts(a, m, d);
    WalkFacts(b, m, d);
    TodayFrozenClosedForm(Orders(a, m), d, td, yd);
    TodayFrozenClosedForm(Orders(b, m), d, td, yd);
  }

  lemma {:induction false} SomeWalk<K(!new)>(m: map<K, OrderData>) returns (ks: seq<K>)
    ensures Enumerates(ks, m)
    decreases |m|
  {
    if m == map[] {
      ks := [];
    } else {
      var k :| k in m;
      var init := SomeWalk(m - {k});
      ks := init + [k];
      assert k in ks;
    }
  }

  lemma {:induction false} TotalConcat(a: seq<OrderData>, b: seq<OrderData>, d: Direction, off: Offset)
    ensures Total(a + b, d, off) == Total(a, d, off) + Total(b, d, off)
  {
    if b == [] {
      assert a + b == a;
    } else {
      assert (a + b)[..|a + b| - 1] == a + b[..|b| - 1];
      TotalConcat(a, b[..|b| - 1], d, off);
    }
  }

  lemma {:induction false} NoSuchTotal(os: seq<OrderData>, d: Direction, off: Offset)
    requires forall o <- os :: !(o.direction == d && o.offset == off)
    ensures Total(os, d, off) == 0
  {
    if os == [] {
    } else {
      assert os[|os| - 1] in os;
      NoSuchTotal(os[..|os| - 1], d, off);
    }
  }

  /** Orders that are not CLOSE never move volume between the buckets. */
  lemma {:induction false} FreezeAfter(a: seq<OrderData>, b: seq<OrderData>, d: Direction, td: int)
    requires !HasClose(b, d)
    ensures FreezeAll(a + b, d, td).yd == FreezeAll(a, d, td).yd + Total(b, d, CLOSEYESTERDAY)
  {
    if b == [] {
      assert a + b == a;
    } else {
      assert (a + b)[..|a + b| - 1] == a + b[..|b| - 1];
      assert b[|b| - 1] in b;
      assert forall o <- b[..|b| - 1] :: o in b;
      FreezeAfter(a, b[..|b| - 1], d, td);
    }
  }

  lemma WalkConcat<K(!new)>(a: seq<K>, b: seq<K>, m: map<K, OrderData>, p: map<K, OrderData>, q: map<K, OrderData>)
    requires Enumerates(a, p) && Enumerates(b, q)
    requires p.Keys !! q.Keys && m == p + q
    ensures Enumerates(a + b, m)
    ensures Orders(a + b, m) == Orders(a, p) + Orders(b, q)
  {
    hide Orders;
    forall i, j | 0 <= i < j < |a + b| ensures (a + b)[i] != (a + b)[j] {
      if i < |a| <= j { assert a[i] in a && b[j - |a|] in b; }
    }
    forall k ensures k in a + b <==> k in m { }
    OrdersConcat(a, b, m, p, q);
  }

  lemma OrdersConcat<K(!new)>(a: seq<K>, b: seq<K>, m: map<K, OrderData>, p: map<K, OrderData>, q: map<K, OrderData>)
    requires (forall k <- a :: k in p) && (forall k <- b :: k in q) && (forall k <- a + b :: k in m)
    requires p.Keys !! q.Keys && m == p + q
    ensures Orders(a + b, m) == Orders(a, p) + Orders(b, q)
  {
    forall i | 0 <= i < |a + b| ensures Orders(a + b, m)[i] == (Orders(a, p) + Orders(b, q))[i] {
      if i < |a| { assert a[i] in a; } else { assert b[i - |a|] in b; }
    }
  }

  lemma SplitMap<K(!new)>(m: map<K, OrderData>, closing: set<K>, d: Direction)
    requires closing == set k | k in m && m[k].direction == d && m[k].offset == CLOSE
    ensures var p, q := m - (m.Keys - closing), m - closing;
            && m == p + q && m == q + p && p.Keys !! q.Keys
            && (forall k <- p :: p[k].direction == d && p[k].offset == CLOSE) && !MapHasClose(q, d)
            && (MapNoneOverfilled(m) ==> MapNoneOverfilled(p))
  {
  }

  /** Walking the CLOSE orders first spills the least, walking them last spills the most. */
  lemma ExtremeWalks<K(!new)>(m: map<K, OrderData>, d: Direction, td: int) returns (first: seq<K>, last: seq<K>)
    requires MapNoneOverfilled(m) && td >= 0 && MapHasClose(m, d)
    ensures Enumerates(first, m) && Enumerates(last, m)
    ensures var T, C, Y := MapTotal(m, d, CLOSETODAY), MapTotal(m, d, CLOSE), MapTotal(m, d, CLOSEYESTERDAY);
            && FreezeAll(Orders(first, m), d, td).yd == Y + Max(0, C - td)
            && (T + C > td ==> FreezeAll(Orders(last, m), d, td).yd == Y + T + C - td)
  {
    hide Total, MapTotal, FreezeAll, Orders, Enumerates, MapHasClose, MapNoneOverfilled;
    var closing := set k | k in m && m[k].direction == d && m[k].offset == CLOSE;
    var p, q := m - (m.Keys - closing), m - closing;
    var a := SomeWalk(p);
    var b := SomeWalk(q);
    first, last := a + b, b + a;
    SplitMap(m, closing, d);
    WalkConcat(a, b, m, p, q);
    WalkConcat(b, a, m, q, p);
    ClosesFirst(a, p, b, q, m, d, td);
    if MapTotal(m, d, CLOSETODAY) + MapTotal(m, d, CLOSE) > td { ClosesLast(a, p, b, q, m, d, td); }
  }

  lemma ClosesFirst<K(!new)>(a: seq<K>, p: map<K, OrderData>, b: seq<K>, q: map<K, OrderData>,
                    m: map<K, OrderData>, d: Direction, td: int)
    requires Enumerates(a, p) && Enumerates(b, q) && Enumerates(a + b, m)
    requires Orders(a + b, m) == Orders(a, p) + Orders(b, q)
    requires MapNoneOverfilled(p) && td >= 0
    requires (forall k <- p :: p[k].direction == d && p[k].offset == CLOSE) && !MapHasClose(q, d)
    ensures FreezeAll(Orders(a + b, m), d, td).yd == MapTotal(m, d, CLOSEYESTERDAY) + Max(0, MapTotal(m, d, CLOSE) - td)
  {
    hide Total, MapTotal, FreezeAll;
    var A, B := Orders(a, p), Orders(b, q);
    WalkOrders(a, p, d);
    WalkOrders(b, q, d);
    forall o | o in A ensures o.direction == d && o.offset == CLOSE {
      var i :| 0 <= i < |A| && A[i] == o;
      assert a[i] in a;
    }
    NoSuchTotal(A, d, CLOSETODAY);
    NoSuchTotal(A, d, CLOSEYESTERDAY);
    NoCloseNoTotal(B, d);
    FreezeBounds(A, d, td);
    FreezeConserves(A, d, td);
    FreezeAfter(A, B, d, td);
    TotalConcat(A, B, d, CLOSE);
    TotalConcat(A, B, d, CLOSEYESTERDAY);
    TotalOfWalk(a + b, m, d, CLOSE);
    TotalOfWalk(a + b, m, d, CLOSEYESTERDAY);
  }

  lemma LastClose(os: seq<OrderData>, d: Direction, td: int)
    requires os != [] && os[|os| - 1].direction == d && os[|os| - 1].offset == CLOSE
    ensures FreezeAll(os, d, td).td <= td
  {
  }

  /** A walk that ends among the CLOSE orders. */
  lemma EndsWithClose<K(!new)>(a: seq<K>, p: map<K, OrderData>, b: seq<K>, q: map<K, OrderData>,
                               m: map<K, OrderData>, d: Direction)
    requires Enumerates(a, p) && Enumerates(b, q) && Enumerates(b + a, m)
    requires Orders(b + a, m) == Orders(b, q) + Orders(a, p)
    requires MapHasClose(m, d) && !MapHasClose(q, d)
    requires forall k <- p :: p[k].direction == d && p[k].offset == CLOSE
    ensures var os := Orders(b + a, m);
            os != [] && os[|os| - 1].direction == d && os[|os| - 1].offset == CLOSE
  {
    var os := Orders(b + a, m);
    WalkOrders(b + a, m, d);
    WalkOrders(b, q, d);
    hide Enumerates, MapHasClose, HasClose;
    LaterPart(Orders(b, q), Orders(a, p), d);
    assert a[|a| - 1] in a;
    assert os[|os| - 1] == Orders(a, p)[|a| - 1];
    assert a[|a| - 1] in p by { WalkVisits(a, p, a[|a| - 1]); }
  }

  lemma WalkVisits<K(!new)>(ks: seq<K>, m: map<K, OrderData>, k: K)
    requires Enumerates(ks, m)
    ensures k in ks <==> k in m
  {
  }

  /** A CLOSE order that is not in the first part is in the second. */
  lemma LaterPart(a: seq<OrderData>, b: seq<OrderData>, d: Direction)
    requires HasClose(a + b, d) && !HasClose(a, d)
    ensures b != []
  {
    assert b == [] ==> a + b == a;
  }

  lemma ClosesLast<K(!new)>(a: seq<K>, p: map<K, OrderData>, b: seq<K>, q: map<K, OrderData>,
                   m: map<K, OrderData>, d: Direction, td: int)
    requires Enumerates(a, p) && Enumerates(b, q) && Enumerates(b + a, m)
    requires Orders(b + a, m) == Orders(b, q) + Orders(a, p)
    requires MapNoneOverfilled(m) && td >= 0 && MapHasClose(m, d) && !MapHasClose(q, d)
    requires forall k <- p :: p[k].direction == d && p[k].offset == CLOSE
    requires MapTotal(m, d, CLOSETODAY) + MapTotal(m, d, CLOSE) > td
    ensures FreezeAll(Orders(b + a, m), d, td).yd
            == MapTotal(m, d, CLOSEYESTERDAY) + MapTotal(m, d, CLOSETODAY) + MapTotal(m, d, CLOSE) - td
  {
    EndsWithClose(a, p, b, q, m, d);
    hide Total, MapTotal, FreezeAll, Orders, Enumerates, MapHasClose;
    var os := Orders(b + a, m);
    LastClose(os, d, td);
    WalkFacts(b + a, m, d);
    FreezeBounds(os, d, td);
    FreezeConserves(os, d, td);
  }

  /** The result is the same for every walk exactly when the guard holds. */
  lemma WalkIndependentIff<K(!new)>(m: map<K, OrderData>, d: Direction, td: int, yd: int)
    requires MapNoneOverfilled(m) && td >= 0
    ensures WalkIndependent(m, d, td, yd) <==> MapOrderIrrelevant(m, d, td, yd)
  {
    if MapOrderIrrelevant(m, d, td, yd) {
      hide Walked, Enumerates, MapOrderIrrelevant, Settled;
      forall a, b | Enumerates(a, m) && Enumerates(b, m)
        ensures Walked(a, m, d, td, yd) == Walked(b, m, d, td, yd)
      {
        SettledForEveryWalk(a, m, d, td, yd);
        SettledForEveryWalk(b, m, d, td, yd);
      }
    } else {
      var first, last := ExtremeWalks(m, d, td);
      WalkFacts(first, m, d);
      hide Total, MapTotal, FreezeAll, Orders, Enumerates, MapHasClose, HasClose;
      assert Walked(first, m, d, td, yd) != Walked(last, m, d, td, yd);
    }
  }
}
