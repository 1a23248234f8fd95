/** Calls that several threads make of one operation, told apart by their number: what each was called with, which
    have not got the lock yet, and in which order the others got it. */
module Calls {

  /** `waiting` are the threads that have called and not got the lock, with the number of their call. */
  datatype Calls<T> = Calls(args: seq<T>, waiting: map<nat, nat>, entered: seq<nat>) {
    function Called(p: nat, arg: T): Calls<T> {
      this.(args := args + [arg], waiting := waiting[p := |args|])
    }

    function Entered(p: nat): Calls<T>
      requires p in waiting
    {
      this.(waiting := waiting - {p}, entered := entered + [waiting[p]])
    }
  }

  /** Every call is either waiting or has entered, and once only. */
  ghost predicate EachOnce<T>(c: Calls<T>) {
    && (forall k <- c.entered :: k < |c.args|)
    && (forall i, j :: 0 <= i < j < |c.entered| ==> c.entered[i] != c.entered[j])
    && (forall p <- c.waiting :: c.waiting[p] < |c.args| && c.waiting[p] !in c.entered)
    && (forall p, q :: p in c.waiting && q in c.waiting && p != q ==> c.waiting[p] != c.waiting[q])
    && (forall k: nat :: k < |c.args| ==> k in c.entered || Waits(c, k))
  }

  ghost predicate Waits<T>(c: Calls<T>, k: nat) { exists p :: p in c.waiting && c.waiting[p] == k }

  /** What the calls `ks` were called with, in that order. */
  ghost predicate ArgsOf<T>(c: Calls<T>, ks: seq<nat>, xs: seq<T>) {
    |xs| == |ks| && forall i :: 0 <= i < |xs| ==> ks[i] < |c.args| && xs[i] == c.args[ks[i]]
  }

  lemma CalledOnce<T>(c: Calls<T>, p: nat, arg: T)
    requires EachOnce(c) && p !in c.waiting
    ensures EachOnce(c.Called(p, arg))
  {
    var c' := c.Called(p, arg);
    assert forall k <- c.entered :: k < |c.args|;
    forall k: nat | k < |c'.args| ensures k in c'.entered || Waits(c', k) {
      if k == |c.args| {
        assert c'.waiting[p] == k;
      } else if k !in c.entered {
        var q :| q in c.waiting && c.waiting[q] == k;
        assert c'.waiting[q] == k;
      }
    }
  }

  lemma EnteredOnce<T>(c: Calls<T>, p: nat)
    requires EachOnce(c) && p in c.waiting
    ensures EachOnce(c.Entered(p))
  {
    var c' := c.Entered(p);
    assert c'.entered[|c.entered|] == c.waiting[p];
    assert forall k :: k in c'.entered <==> k in c.entered || k == c.waiting[p];
    forall k: nat | k < |c'.args| ensures k in c'.entered || Waits(c', k) {
      if k !in c'.entered {
        var q :| q in c.waiting && c.waiting[q] == k;
        assert c'.waiting[q] == k;
      }
    }
  }

  /** When nobody waits, the calls that entered are all of them, each once. */
  lemma AllEntered<T>(c: Calls<T>)
    requires EachOnce(c) && c.waiting == map[]
    ensures |c.entered| == |c.args| && forall k: nat :: k < |c.args| <==> k in c.entered
  {
    assert forall k: nat :: k < |c.args| ==> !Waits(c, k);
    Pigeonhole(c.entered, |c.args|);
  }

  lemma {:induction false} Pigeonhole(ks: seq<nat>, n: nat)
    requires forall i, j :: 0 <= i < j < |ks| ==> ks[i] != ks[j]
    requires forall k: nat :: k < n <==> k in ks
    ensures |ks| == n
    decreases n
  {
    if n == 0 {
      assert forall j :: 0 <= j < |ks| ==> ks[j] in ks;
    } else {
      var m: nat := n - 1;
      assert m in ks;
      var i :| 0 <= i < |ks| && ks[i] == m;
      var rest := ks[..i] + ks[i + 1..];
      assert forall j :: 0 <= j < |rest| ==> rest[j] == ks[if j < i then j else j + 1];
      forall j | 0 <= j < |rest| ensures rest[j] in ks && rest[j] != m {
        assert ks[if j < i then j else j + 1] in ks;
      }
      forall k: nat | k < n - 1 ensures k in rest {
        assert k in ks;
        var j :| 0 <= j < |ks| && ks[j] == k;
        assert rest[if j < i then j else j - 1] == k;
      }
      Pigeonhole(rest, n - 1);
    }
  }
}
