/** The bounded shortest-edit-script search (box/diff.go, myers and backtrack). */
module Myers {
  import opened EditGraph

  /** Which neighbouring diagonal the furthest d-edit path on diagonal k comes from:
      k + 1 by an insertion, k - 1 by a deletion. */
  function PrevDiagonal(v: seq<int>, off: int, d: int, k: int): (prev: int)
    requires 0 <= d && -d <= k <= d && d < off && off + d + 1 < |v|
    ensures prev == k - 1 || prev == k + 1
  {
    if k == -d || (k != d && v[off + k - 1] < v[off + k + 1]) then k + 1 else k - 1
  }

  /** The entries of v from lo to hi with d's parity hold how far d edits go, diagonal by diagonal. */
  ghost predicate Frontier<T>(v: seq<int>, off: int, a: seq<T>, b: seq<T>, d: int, lo: int, hi: int)
  {
    forall i :: 0 <= i < |v| && lo <= i <= hi && (i - off - d) % 2 == 0 ==> Furthest(a, b, d, i - off, v[i])
  }

  /** v is what round d reads: the frontier of round d - 1, or the zeros it starts from. */
  ghost predicate BeforeRound<T>(v: seq<int>, off: int, a: seq<T>, b: seq<T>, d: int)
  {
    && 0 <= d < off && off + d + 1 < |v|
    && (d == 0 ==> v[off + 1] == 0)
    && Frontier(v, off, a, b, d - 1, off - (d - 1), off + (d - 1))
  }

  /** Each snapshot is what its round read. */
  ghost predicate Traced<T>(trace: seq<seq<int>>, off: int, a: seq<T>, b: seq<T>)
  {
    forall e :: 0 <= e < |trace| ==> BeforeRound(trace[e], off, a, b, e)
  }

  lemma TracedGrows<T>(trace: seq<seq<int>>, v: seq<int>, off: int, a: seq<T>, b: seq<T>)
    requires Traced(trace, off, a, b) && BeforeRound(v, off, a, b, |trace|)
    ensures Traced(trace + [v], off, a, b)
  {
  }

  /** Fewer than d edits do not reach the end of both files. */
  ghost predicate Unreached<T>(a: seq<T>, b: seq<T>, d: int)
  {
    forall e :: e < d ==> !Reachable(a, b, e, |a|, |b|)
  }

  ghost function EntryOf(v: seq<int>, off: int, d: int, k: int): int
    requires 0 <= d && -d <= k <= d && d < off && off + d + 1 < |v|
  {
    if PrevDiagonal(v, off, d, k) == k + 1 then v[off + k + 1] else v[off + k - 1] + 1
  }

  /** The point the search steps to first on diagonal k is where every d-edit path enters it. */
  lemma EntryIsFurthest<T>(v: seq<int>, off: int, a: seq<T>, b: seq<T>, d: int, k: int)
    requires BeforeRound(v, off, a, b, d)
    requires -d <= k <= d && (k - d) % 2 == 0
    ensures Enters(a, b, d, k, EntryOf(v, off, d, k))
    ensures d > 0 ==> var p := PrevDiagonal(v, off, d, k); -d < p < d && Furthest(a, b, d - 1, p, v[off + p])
  {
    var x := EntryOf(v, off, d, k);
    if d == 0 {
      assert OnDiagonal(a, b, 0, 0, 0);
    } else {
      var p := PrevDiagonal(v, off, d, k);
      if k > -d {
        assert Furthest(a, b, d - 1, (off + k - 1) - off, v[off + k - 1]);
      } else {
        NoSuchDiagonal(a, b, d - 1, k - 1, x - 1);
      }
      if k < d {
        assert Furthest(a, b, d - 1, (off + k + 1) - off, v[off + k + 1]);
      } else {
        NoSuchDiagonal(a, b, d - 1, k + 1, x);
      }
      assert OnDiagonal(a, b, d - 1, p, v[off + p]);
      assert Reachable(a, b, d, x, x - k) by {
        if p == k + 1 {
          assert x - (k + 1) == x - k - 1;
        } else {
          assert (x - 1) - (k - 1) == x - k;
        }
      }
    }
  }

  /** The first point the search finds past both files' ends is exactly where both end:
      leaving the grid costs an edit, so a shorter search would have ended already. */
  lemma EndIsCorner<T>(a: seq<T>, b: seq<T>, d: int, x: int, y: int)
    requires Reachable(a, b, d, x, y) && |a| <= x && |b| <= y
    requires Unreached(a, b, d)
    ensures x == |a| && y == |b|
  {
    ClipPath(a, b, d, x, y);
  }

  /** None of round d's diagonals up to index hi is past both files' ends. */
  ghost predicate Short<T>(v: seq<int>, off: int, a: seq<T>, b: seq<T>, d: int, hi: int)
  {
    forall i :: 0 <= i < |v| && off - d <= i <= hi && (i - off - d) % 2 == 0 ==> v[i] < |a| || v[i] - (i - off) < |b|
  }

  /** A finished round that did not end the search has not reached the end of both files. */
  lemma RoundMissesCorner<T>(v: seq<int>, off: int, a: seq<T>, b: seq<T>, d: int)
    requires 0 <= d && d < off && off + d + 1 < |v|
    requires Frontier(v, off, a, b, d, off - d, off + d)
    requires Short(v, off, a, b, d, off + d)
    ensures !Reachable(a, b, d, |a|, |b|)
  {
    if Reachable(a, b, d, |a|, |b|) {
      DiagonalBound(a, b, d, |a|, |b|);
      var i := off + |a| - |b|;
      assert Furthest(a, b, d, i - off, v[i]);
      assert OnDiagonal(a, b, d, i - off, |a|);
    }
  }

  lemma MinimalCost<T(!new)>(a: seq<T>, b: seq<T>, d: int)
    requires Unreached(a, b, d)
    ensures forall es :: IsScript(es, a, b) ==> d <= Cost(es)
  {
    forall es | IsScript(es, a, b) ensures d <= Cost(es) {
      WalkReaches(es, a, b, 0, 0, |a|, |b|, 0);
    }
  }

  /** Recording how far diagonal k goes takes the round one diagonal on. */
  lemma FrontierGrows<T>(v: seq<int>, off: int, a: seq<T>, b: seq<T>, d: int, k: int, x: int)
    requires 0 <= off + k < |v| && (k - d) % 2 == 0
    requires Frontier(v, off, a, b, d, off - d, off + k - 2) && Furthest(a, b, d, k, x)
    ensures Frontier(v[off + k := x], off, a, b, d, off - d, off + k)
    ensures Short(v, off, a, b, d, off + k - 2) && (x < |a| || x - k < |b|) ==>
              Short(v[off + k := x], off, a, b, d, off + k)
  {
  }

  method Myers<T(==, !new)>(a: seq<T>, b: seq<T>, limit: nat) returns (es: seq<Edit>, ok: bool)
    ensures ok ==> IsScript(es, a, b) && Cost(es) <= limit
    ensures ok ==> forall es' :: IsScript(es', a, b) ==> Cost(es) <= Cost(es')
    ensures !ok ==> es == [] && forall es' :: IsScript(es', a, b) ==> limit < Cost(es')
  {
    var n, m := |a|, |b|;
    var maxD := if n + m < limit then n + m else limit;
    var off := maxD + 1;
    var v := new int[2 * maxD + 3](_ => 0);
    var trace: seq<seq<int>> := [];
    for d := 0 to maxD + 1
      invariant |trace| == d && Traced(trace, off, a, b)
      invariant d <= maxD ==> BeforeRound(v[..], off, a, b, d)
      invariant Unreached(a, b, d)
    {
      TracedGrows(trace, v[..], off, a, b);
      trace := trace + [v[..]];
      var found := Round(v, off, a, b, d);
      if found {
        MinimalCost(a, b, d);
        es := Backtrack(trace, off, a, b, n, m, d);
        return es, true;
      }
    }
    ReachableByReplacing(a, b, n, m);
    MinimalCost(a, b, maxD + 1);
    return [], false;
  }

  /** One round: every diagonal d edits can end on, each pushed as far as it goes.
      It stops at the first point past both ends. */
  method Round<T(==)>(v: array<int>, off: int, a: seq<T>, b: seq<T>, d: int) returns (found: bool)
    requires BeforeRound(v[..], off, a, b, d)
    requires Unreached(a, b, d)
    modifies v
    ensures found ==> Furthest(a, b, d, |a| - |b|, |a|)
    ensures !found ==> Frontier(v[..], off, a, b, d, off - d, off + d) && !Reachable(a, b, d, |a|, |b|)
  {
    ghost var before := v[..];
    var k := -d;
    while k <= d
      invariant -d <= k <= d + 2 && (k - d) % 2 == 0
      invariant forall i :: 0 <= i < v.Length && ((i - off - d) % 2 != 0 || i >= off + k) ==> v[i] == before[i]
      invariant Frontier(v[..], off, a, b, d, off - d, off + k - 2)
      invariant Short(v[..], off, a, b, d, off + k - 2)
    {
      var x := PushDiagonal(v, before, off, a, b, d, k);
      FrontierGrows(v[..], off, a, b, d, k, x);
      ghost var next := v[..][off + k := x];
      v[off + k] := x;
      assert v[..] == next;
      if x >= |a| && x - k >= |b| {
        EndIsCorner(a, b, d, x, x - k);
        return true;
      }
      k := k + 2;
    }
    RoundMissesCorner(v[..], off, a, b, d);
    return false;
  }

  /** The step onto diagonal k, then the snake; round d has left the two neighbours as it found them. */
  method PushDiagonal<T(==)>(v: array<int>, ghost before: seq<int>, off: int, a: seq<T>, b: seq<T>, d: int, k: int)
    returns (x: int)
    requires BeforeRound(before, off, a, b, d) && |before| == v.Length && -d <= k <= d && (k - d) % 2 == 0
    requires v[off + k - 1] == before[off + k - 1] && v[off + k + 1] == before[off + k + 1]
    ensures Furthest(a, b, d, k, x)
  {
    EntryIsFurthest(before, off, a, b, d, k);
    if PrevDiagonal(v[..], off, d, k) == k + 1 {
      x := v[off + k + 1]; // down: an insertion
    } else {
      x := v[off + k - 1] + 1; // right: a deletion
    }
    x := Snake(a, b, d, k, x);
  }

  /** Down the diagonal from where it is entered, for as long as the lines match. */
  method Snake<T(==)>(a: seq<T>, b: seq<T>, ghost d: int, k: int, entry: int) returns (x: int)
    requires Enters(a, b, d, k, entry)
    ensures Furthest(a, b, d, k, x)
  {
    x := entry;
    var y := x - k;
    while x < |a| && y < |b| && a[x] == b[y]
      invariant y == x - k && 0 <= x && 0 <= y && entry <= x && OnDiagonal(a, b, d, k, x)
      decreases |a| - x
    {
      NextOnDiagonal(a, b, d, k, x);
      x, y := x + 1, y + 1;
    }
    FurthestAtMismatch(a, b, d, k, entry, x);
  }

  /** Rebuilds the script from the snapshots, last edit first. */
  method Backtrack<T>(trace: seq<seq<int>>, off: int, ghost a: seq<T>, ghost b: seq<T>, endX: int, endY: int, endD: int)
    returns (es: seq<Edit>)
    requires endX == |a| && endY == |b|
    requires 0 <= endD < |trace| && Traced(trace, off, a, b)
    requires Furthest(a, b, endD, endX - endY, endX)
    ensures IsScript(es, a, b) && Cost(es) == endD
  {
    var rev: seq<Edit> := [];
    ghost var tail: seq<Edit> := []; // rev, front to back
    var x, y, d := endX, endY, endD;
    while d > 0
      invariant 0 <= d <= endD && Furthest(a, b, d, x - y, x)
      invariant Found(rev, tail, a, b, x, y, endD - d)
    {
      x, y, rev, tail := BackOneEdit(trace[d], off, a, b, x, y, d, rev, tail);
      d := d - 1;
    }
    DiagonalBound(a, b, 0, x, y);
    while x > 0 && y > 0
      invariant x == y && OnDiagonal(a, b, 0, 0, x)
      invariant Found(rev, tail, a, b, x, y, endD)
    {
      assert OnDiagonal(a, b, 0, 0, x - 1);
      x, y := x - 1, y - 1;
      tail := Push(rev, tail, Edit(Equal, x, y), a, b, x + 1, y + 1, endD);
      rev := rev + [Edit(Equal, x, y)];
    }
    es := Reversed(rev);
    assert es == tail;
  }

  /** One level of the trace: back along the snake to where it was entered, and over the edit that entered it. */
  method BackOneEdit<T>(v: seq<int>, off: int, ghost a: seq<T>, ghost b: seq<T>, x0: int, y0: int, d: int,
                        rev0: seq<Edit>, ghost tail0: seq<Edit>)
    returns (x: int, y: int, rev: seq<Edit>, ghost tail: seq<Edit>)
    requires d > 0 && BeforeRound(v, off, a, b, d) && Furthest(a, b, d, x0 - y0, x0)
    requires Found(rev0, tail0, a, b, x0, y0, Cost(tail0))
    ensures Furthest(a, b, d - 1, x - y, x)
    ensures Found(rev, tail, a, b, x, y, Cost(tail0) + 1)
  {
    x, y, rev, tail := x0, y0, rev0, tail0;
    var k := x - y;
    DiagonalBound(a, b, d, x, y);
    EntryIsFurthest(v, off, a, b, d, k);
    ghost var entry := EntryOf(v, off, d, k);
    var prevK := PrevDiagonal(v, off, d, k);
    var prevX := v[off + prevK];
    var prevY := prevX - prevK;
    while x > prevX && y > prevY
      invariant x - y == k && entry <= x && OnDiagonal(a, b, d, k, x)
      invariant Found(rev, tail, a, b, x, y, Cost(tail0))
    {
      PastEntryIsMatch(a, b, d, k, entry, x);
      x, y := x - 1, y - 1;
      tail := Push(rev, tail, Edit(Equal, x, y), a, b, x + 1, y + 1, Cost(tail0));
      rev := rev + [Edit(Equal, x, y)];
    }
    assert OnDiagonal(a, b, d - 1, prevK, prevX);
    if x == prevX {
      y := y - 1;
      tail := Push(rev, tail, Edit(Insert, x, y), a, b, x, y + 1, Cost(tail0));
      rev := rev + [Edit(Insert, x, y)];
    } else {
      x := x - 1;
      tail := Push(rev, tail, Edit(Delete, x, y), a, b, x + 1, y, Cost(tail0));
      rev := rev + [Edit(Delete, x, y)];
    }
  }

  method Reversed(rev: seq<Edit>) returns (es: seq<Edit>)
    ensures Mirrored(rev, es)
  {
    var out := new Edit[|rev|](_ => Edit(Equal, 0, 0));
    for i := 0 to |rev|
      invariant forall j :: |rev| - i <= j < |rev| ==> out[j] == rev[|rev| - 1 - j]
    {
      out[|rev| - 1 - i] := rev[i];
    }
    es := out[..];
  }

  ghost predicate Mirrored<T>(rev: seq<T>, s: seq<T>)
  {
    |rev| == |s| && forall i :: 0 <= i < |s| ==> s[i] == rev[|s| - 1 - i]
  }

  /** `rev` holds, last edit first, a walk of the given cost from (x, y) to the end of both files. */
  ghost predicate Found<T>(rev: seq<Edit>, tail: seq<Edit>, a: seq<T>, b: seq<T>, x: int, y: int, cost: nat)
  {
    0 <= x <= |a| && 0 <= y <= |b| && Mirrored(rev, tail) && Walks(tail, a, b, x, y, |a|, |b|) && Cost(tail) == cost
  }

  /** One more edit at the front of the walk found so far. */
  lemma Push<T>(rev: seq<Edit>, tail: seq<Edit>, e: Edit, a: seq<T>, b: seq<T>, x: nat, y: nat, cost: nat)
    returns (tail': seq<Edit>)
    requires Found(rev, tail, a, b, x, y, cost)
    requires match e.kind
             case Equal => x == e.a + 1 && y == e.b + 1 && a[e.a] == b[e.b]
             case Delete => x == e.a + 1 && y == e.b
             case Insert => x == e.a && y == e.b + 1
    ensures Found(rev + [e], tail', a, b, e.a, e.b, cost + (if e.kind == Equal then 0 else 1))
  {
    tail' := [e] + tail;
    assert tail'[1..] == tail;
  }
}
