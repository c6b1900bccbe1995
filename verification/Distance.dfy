/** The edit distance by its recurrence, and why cutting a common prefix and suffix off two
    files before searching loses nothing (box/diff.go, diffLines). */
module Distance {
  import opened EditGraph

  /** The fewest inserts and deletes between the first x lines of `a` and the first y of `b`. */
  ghost function Dist<T>(a: seq<T>, b: seq<T>, x: nat, y: nat): nat
    requires x <= |a| && y <= |b|
  {
    if x == 0 then y
    else if y == 0 then x
    else if a[x - 1] == b[y - 1] then Dist(a, b, x - 1, y - 1)
    else
      var del, ins := Dist(a, b, x - 1, y), Dist(a, b, x, y - 1);
      1 + if del <= ins then del else ins
  }

  /** One line more on either side moves the distance by at most one, and it is never less
      than the difference in length. */
  lemma {:induction false} DistSmooth<T>(a: seq<T>, b: seq<T>, x: nat, y: nat)
    requires x <= |a| && y <= |b|
    ensures x - y <= Dist(a, b, x, y) && y - x <= Dist(a, b, x, y)
    ensures x > 0 ==> Dist(a, b, x - 1, y) <= Dist(a, b, x, y) + 1 && Dist(a, b, x, y) <= Dist(a, b, x - 1, y) + 1
    ensures y > 0 ==> Dist(a, b, x, y - 1) <= Dist(a, b, x, y) + 1 && Dist(a, b, x, y) <= Dist(a, b, x, y - 1) + 1
    decreases x + y
  {
    if x > 0 && y > 0 {
      DistSmooth(a, b, x - 1, y - 1);
      DistSmooth(a, b, x - 1, y);
      DistSmooth(a, b, x, y - 1);
    }
  }

  /** No path is shorter than the distance. */
  lemma {:induction false} DistIsLeast<T>(a: seq<T>, b: seq<T>, d: int, x: nat, y: nat)
    requires x <= |a| && y <= |b| && Reachable(a, b, d, x, y)
    ensures Dist(a, b, x, y) <= d
    decreases x + y, d
  {
    DistSmooth(a, b, x, y);
    if d > 0 && x > 0 && Reachable(a, b, d - 1, x - 1, y) {
      DistIsLeast(a, b, d - 1, x - 1, y);
    } else if d > 0 && y > 0 && Reachable(a, b, d - 1, x, y - 1) {
      DistIsLeast(a, b, d - 1, x, y - 1);
    } else if !(d == 0 && x == 0 && y == 0) {
      DistIsLeast(a, b, d, x - 1, y - 1);
    }
  }

  /** And one is exactly that long. */
  lemma {:induction false} DistIsReached<T>(a: seq<T>, b: seq<T>, x: nat, y: nat)
    requires x <= |a| && y <= |b|
    ensures Reachable(a, b, Dist(a, b, x, y), x, y)
    decreases x + y
  {
    if x == 0 || y == 0 {
      ReachableByReplacing(a, b, x, y);
    } else if a[x - 1] == b[y - 1] {
      DistIsReached(a, b, x - 1, y - 1);
    } else {
      DistIsReached(a, b, x - 1, y);
      DistIsReached(a, b, x, y - 1);
    }
  }

  lemma {:induction false} DistOfCommon<T>(a: seq<T>, b: seq<T>, p: nat)
    requires p <= |a| && p <= |b| && a[..p] == b[..p]
    ensures Dist(a, b, p, p) == 0
  {
    if p > 0 {
      assert a[p - 1] == a[..p][p - 1] == b[..p][p - 1] == b[p - 1];
      assert a[..p - 1] == a[..p][..p - 1] == b[..p][..p - 1] == b[..p - 1];
      DistOfCommon(a, b, p - 1);
    }
  }

  /** From the end of a common prefix, lines of one file alone each cost one. */
  lemma {:induction false} DistAlongEdge<T>(a: seq<T>, b: seq<T>, p: nat, x: nat, y: nat)
    requires p + x <= |a| && p + y <= |b| && (x == 0 || y == 0) && Dist(a, b, p, p) == 0
    ensures Dist(a, b, p + x, p + y) == x + y
    decreases x + y
  {
    DistSmooth(a, b, p + x, p + y);
    if x > 0 {
      DistAlongEdge(a, b, p, x - 1, y);
    } else if y > 0 {
      DistAlongEdge(a, b, p, x, y - 1);
    }
  }

  /** Past a common prefix, the distance is the distance of the rests. */
  lemma {:induction false} DistPastPrefix<T>(a: seq<T>, b: seq<T>, p: nat, ar: seq<T>, br: seq<T>, x: nat, y: nat)
    requires p <= |a| && p <= |b| && Dist(a, b, p, p) == 0 && ar == a[p..] && br == b[p..]
    requires x <= |ar| && y <= |br|
    ensures Dist(a, b, p + x, p + y) == Dist(ar, br, x, y)
    decreases x + y
  {
    if x == 0 || y == 0 {
      DistAlongEdge(a, b, p, x, y);
    } else if a[p + x - 1] == b[p + y - 1] {
      DistPastPrefix(a, b, p, ar, br, x - 1, y - 1);
    } else {
      DistPastPrefix(a, b, p, ar, br, x - 1, y);
      DistPastPrefix(a, b, p, ar, br, x, y - 1);
    }
  }

  lemma {:induction false} DistOnPrefixes<T>(a: seq<T>, b: seq<T>, a': seq<T>, b': seq<T>, x: nat, y: nat)
    requires x <= |a| && y <= |b| && a <= a' && b <= b'
    ensures Dist(a', b', x, y) == Dist(a, b, x, y)
    decreases x + y
  {
    if x > 0 && y > 0 {
      DistOnPrefixes(a, b, a', b', x - 1, y - 1);
      DistOnPrefixes(a, b, a', b', x - 1, y);
      DistOnPrefixes(a, b, a', b', x, y - 1);
    }
  }

  /** Ahead of a common suffix of s lines, the distance is the distance of what stands before it. */
  lemma {:induction false} DistBeforeSuffix<T>(a: seq<T>, b: seq<T>, s: nat)
    requires s <= |a| && s <= |b| && a[|a| - s..] == b[|b| - s..]
    ensures Dist(a, b, |a|, |b|) == Dist(a, b, |a| - s, |b| - s)
  {
    if s > 0 {
      var (a0, b0) := (a[..|a| - 1], b[..|b| - 1]);
      assert a[|a| - 1] == a[|a| - s..][s - 1] == b[|b| - s..][s - 1] == b[|b| - 1];
      assert a0[|a0| - (s - 1)..] == a[|a| - s..][..s - 1] == b[|b| - s..][..s - 1] == b0[|b0| - (s - 1)..];
      DistBeforeSuffix(a0, b0, s - 1);
      DistOnPrefixes(a0, b0, a, b, |a| - 1, |b| - 1);
      DistOnPrefixes(a0, b0, a, b, |a| - s, |b| - s);
    }
  }

  /** `am` and `bm` are what is left of `a` and `b` between a common prefix and a common suffix. */
  ghost predicate Middles<T>(a: seq<T>, b: seq<T>, pre: nat, suf: nat, am: seq<T>, bm: seq<T>)
  {
    && pre + suf <= |a| && pre + suf <= |b|
    && a[..pre] == b[..pre] && a[|a| - suf..] == b[|b| - suf..]
    && am == a[pre..|a| - suf] && bm == b[pre..|b| - suf]
  }

  /** The whole files are as far apart as their middles. */
  lemma DistOfMiddles<T>(a: seq<T>, b: seq<T>, pre: nat, suf: nat, am: seq<T>, bm: seq<T>)
    requires Middles(a, b, pre, suf, am, bm)
    ensures Dist(a, b, |a|, |b|) == Dist(am, bm, |am|, |bm|)
  {
    DistBeforeSuffix(a, b, suf);
    DistOfCommon(a, b, pre);
    DistPastPrefix(a, b, pre, a[pre..], b[pre..], |am|, |bm|);
    assert am <= a[pre..] && bm <= b[pre..];
    DistOnPrefixes(am, bm, a[pre..], b[pre..], |am|, |bm|);
  }

  /** What no script of the middles costs less than, no script of the whole files does. */
  lemma MiddlesBound<T(!new)>(a: seq<T>, b: seq<T>, pre: nat, suf: nat, am: seq<T>, bm: seq<T>, c: nat)
    requires Middles(a, b, pre, suf, am, bm)
    requires forall es :: IsScript(es, am, bm) ==> c <= Cost(es)
    ensures forall es :: IsScript(es, a, b) ==> c <= Cost(es)
  {
    var d := Dist(am, bm, |am|, |bm|);
    assert c <= d by {
      DistIsReached(am, bm, |am|, |bm|);
      var best := ReachableHasWalk(am, bm, d, |am|, |bm|);
      assert IsScript(best, am, bm);
    }
    forall es | IsScript(es, a, b) ensures c <= Cost(es) {
      DistOfMiddles(a, b, pre, suf, am, bm);
      WalkReaches(es, a, b, 0, 0, |a|, |b|, 0);
      DistIsLeast(a, b, Cost(es), |a|, |b|);
    }
  }
}
