/** Search and replace in a string, as `ReplaceString` does it. */
module Replace {

  predicate Occurs(h: string, needle: string, i: int) {
    0 <= i <= |h| - |needle| && h[i..i + |needle|] == needle
  }

  /** `std::string::npos`. */
  const NPOS := -1

  ghost predicate FoundAt(h: string, needle: string, from: nat, r: int) {
    if r == NPOS then forall i :: from <= i ==> !Occurs(h, needle, i)
    else from <= r && Occurs(h, needle, r) && forall i :: from <= i < r ==> !Occurs(h, needle, i)
  }

  /** `std::string::find`: the first place at or after `from`, or npos. */
  function Find(h: string, needle: string, from: nat): (r: int)
    ensures r != NPOS ==> from <= r <= |h| - |needle| && h[r..r + |needle|] == needle
    ensures FoundAt(h, needle, from, r)
    decreases |h| - from
  {
    if from > |h| - |needle| then NPOS
    else if Occurs(h, needle, from) then from
    else Find(h, needle, from + 1)
  }

  lemma FindUnique(h: string, needle: string, from: nat, r: int, q: int)
    requires FoundAt(h, needle, from, r) && FoundAt(h, needle, from, q)
    ensures r == q
  {
  }

  lemma OccursInSuffix(done: string, rest: string, needle: string, i: nat)
    ensures Occurs(done + rest, needle, |done| + i) <==> Occurs(rest, needle, i)
  {
    var h := done + rest;
    if i <= |rest| - |needle| { assert h[|done| + i..|done| + i + |needle|] == rest[i..i + |needle|]; }
  }

  /** What precedes position `from` has no say in a search that starts there. */
  lemma FindInSuffix(done: string, rest: string, needle: string)
    ensures var k := Find(rest, needle, 0);
            Find(done + rest, needle, |done|) == if k == NPOS then NPOS else |done| + k
  {
    var k := Find(rest, needle, 0);
    Shifted(done, rest, needle, k);
    hide FoundAt;
    FindUnique(done + rest, needle, |done|, Find(done + rest, needle, |done|), if k == NPOS then NPOS else |done| + k);
  }

  lemma Shifted(done: string, rest: string, needle: string, k: int)
    requires FoundAt(rest, needle, 0, k)
    ensures FoundAt(done + rest, needle, |done|, if k == NPOS then NPOS else |done| + k)
  {
    hide Occurs;
    var h := done + rest;
    forall i | |done| <= i ensures Occurs(h, needle, i) <==> Occurs(rest, needle, i - |done|) {
      OccursInSuffix(done, rest, needle, i - |done|);
    }
  }

  /** The text cut at its leftmost occurrences, none overlapping the one before. */
  function Pieces(h: string, needle: string): (ps: seq<string>)
    requires needle != ""
    ensures ps != []
    decreases |h|
  {
    var k := Find(h, needle, 0);
    if k == NPOS then [h] else [h[..k]] + Pieces(h[k + |needle|..], needle)
  }

  function Join(ps: seq<string>, sep: string): string {
    if ps == [] then "" else if |ps| == 1 then ps[0] else ps[0] + sep + Join(ps[1..], sep)
  }

  /** `ReplaceString`, with the reference argument as a parameter and a result. The loop ends although the
      replacement may hold the needle, since what has not been searched gets shorter. */
  method ReplaceString(hayStack: string, needle: string, replaceWith: string) returns (res: string)
    ensures res == if needle == "" then hayStack else Join(Pieces(hayStack, needle), replaceWith)
  {
    hide Find, FoundAt, Pieces, Join;
    res := hayStack;
    if needle == "" {
      return;
    }
    ghost var goal := Join(Pieces(hayStack, needle), replaceWith);
    ghost var done, rest := "", res;
    assert done + rest == res && done + goal == goal;
    var pos1 := Find(res, needle, 0);
    while pos1 != NPOS
      invariant res == done + rest && pos1 == Find(res, needle, |done|)
      invariant goal == done + Join(Pieces(rest, needle), replaceWith)
      decreases |rest|
    {
      var k := pos1 - |done|;
      Cut(done, rest, needle, replaceWith);
      assert res[..pos1] == done + rest[..k] && res[pos1 + |needle|..] == rest[k + |needle|..];
      res := res[..pos1] + replaceWith + res[pos1 + |needle|..];
      done, rest := done + rest[..k] + replaceWith, rest[k + |needle|..];
      pos1 := Find(res, needle, pos1 + |replaceWith|);
    }
    Cut(done, rest, needle, replaceWith);
  }

  lemma Cut(done: string, rest: string, needle: string, sep: string)
    requires needle != ""
    ensures var j := Find(done + rest, needle, |done|);
            && (j == NPOS ==> done + Join(Pieces(rest, needle), sep) == done + rest)
            && (j != NPOS ==>
                  && |done| <= j && j - |done| + |needle| <= |rest|
                  && done + Join(Pieces(rest, needle), sep)
                     == (done + rest[..j - |done|] + sep)
                        + Join(Pieces(rest[j - |done| + |needle|..], needle), sep))
  {
    hide Find, FoundAt;
    FindInSuffix(done, rest, needle);
    var k := Find(rest, needle, 0);
    if k != NPOS {
      var tail := Pieces(rest[k + |needle|..], needle);
      assert ([rest[..k]] + tail)[1..] == tail;
    }
  }

  // ---- what the pieces are ----

  /** No occurrence was missed, none overlaps the piece before it, and each was found as early as it could. */
  ghost predicate LeftmostCut(ps: seq<string>, needle: string)
    requires needle != ""
  {
    && ps != []
    && (forall i :: 0 <= i < |ps| - 1 ==> FoundAt(ps[i] + needle, needle, 0, |ps[i]|))
    && FoundAt(ps[|ps| - 1], needle, 0, NPOS)
  }

  /** Prepending text never hides a later occurrence, and appending it never hides an earlier one. */
  lemma FirstStaysFirst(p: string, needle: string, after: string)
    ensures FoundAt(p + needle, needle, 0, |p|) <==> FoundAt(p + needle + after, needle, 0, |p|)
  {
    var shorter, longer := p + needle, p + needle + after;
    forall i | 0 <= i <= |p| ensures Occurs(shorter, needle, i) <==> Occurs(longer, needle, i) {
      assert longer[i..i + |needle|] == shorter[i..i + |needle|];
    }
  }

  /** Putting the needle back between the pieces gives the text, and the pieces are its leftmost cut. */
  lemma {:induction false} PiecesRejoin(h: string, needle: string)
    requires needle != ""
    ensures Join(Pieces(h, needle), needle) == h
    ensures LeftmostCut(Pieces(h, needle), needle)
    decreases |h|
  {
    hide FoundAt;
    var k := Find(h, needle, 0);
    if k == NPOS {
    } else {
      var after := h[k + |needle|..];
      var tail := Pieces(after, needle);
      PiecesRejoin(after, needle);
      assert h == h[..k] + needle + after by {
        hide Pieces, Join, LeftmostCut;
        assert h == h[..k] + h[k..k + |needle|] + after;
      }
      FirstStaysFirst(h[..k], needle, after);
      assert Pieces(h, needle) == [h[..k]] + tail;
      hide Pieces;
      CutGrows(h[..k], tail, needle);
    }
  }

  lemma CutGrows(p: string, tail: seq<string>, needle: string)
    requires needle != "" && LeftmostCut(tail, needle)
    requires FoundAt(p + needle, needle, 0, |p|)
    ensures LeftmostCut([p] + tail, needle)
    ensures Join([p] + tail, needle) == p + needle + Join(tail, needle)
  {
    hide FoundAt;
    assert ([p] + tail)[1..] == tail;
    assert forall i :: 0 < i < |tail| + 1 ==> ([p] + tail)[i] == tail[i - 1];
  }

  lemma TailOfCut(ps: seq<string>, needle: string)
    requires needle != "" && |ps| > 1 && LeftmostCut(ps, needle)
    ensures LeftmostCut(ps[1..], needle) && FoundAt(ps[0] + needle, needle, 0, |ps[0]|)
  {
    hide FoundAt;
    assert forall i :: 0 <= i < |ps| - 1 ==> ps[1..][i] == ps[i + 1];
  }

  lemma PiecesAfterFirst(p: string, after: string, needle: string)
    requires needle != "" && FoundAt(p + needle + after, needle, 0, |p|)
    ensures Pieces(p + needle + after, needle) == [p] + Pieces(after, needle)
  {
    var h := p + needle + after;
    FindUnique(h, needle, 0, Find(h, needle, 0), |p|);
    hide FoundAt, Find;
    assert h[..|p|] == p && h[|p| + |needle|..] == after;
  }

  /** There is only one such cut: `Pieces` is the split at leftmost occurrences, whoever computes it. */
  lemma {:induction false} CutIsUnique(ps: seq<string>, needle: string)
    requires needle != "" && LeftmostCut(ps, needle)
    ensures Pieces(Join(ps, needle), needle) == ps
  {
    if |ps| == 1 {
      var h := Join(ps, needle);
      FindUnique(h, needle, 0, Find(h, needle, 0), NPOS);
    } else {
      hide FoundAt, Pieces;
      TailOfCut(ps, needle);
      CutIsUnique(ps[1..], needle);
      FirstStaysFirst(ps[0], needle, Join(ps[1..], needle));
      PiecesAfterFirst(ps[0], Join(ps[1..], needle), needle);
      assert [ps[0]] + ps[1..] == ps;
    }
  }

  /** Each occurrence changes the length by the same amount. */
  lemma {:induction false} LengthAfter(ps: seq<string>, needle: string, sep: string)
    requires ps != []
    ensures |Join(ps, sep)| == |Join(ps, needle)| + (|ps| - 1) * (|sep| - |needle|)
  {
    if |ps| == 1 {
    } else {
      LengthAfter(ps[1..], needle, sep);
    }
  }
}
