/** Edit scripts between two line lists and the edit graph they walk
    (box/diff.go).

    A script consumes the old file `a` and the new file `b` from the front: an
    `Equal` edit takes a line from both, a `Delete` one from `a`, an `Insert` one
    from `b`.  Each edit carries the number of lines of `a` and of `b` consumed
    before it.

    The search of `Myers` leaves the |a| x |b| grid, so the graph here has every
    point with natural coordinates: horizontal and vertical moves go anywhere,
    diagonal moves only where two lines match. */
module EditGraph {

  datatype Kind = Equal | Delete | Insert

  datatype Edit = Edit(kind: Kind, a: nat, b: nat)

  /** `es` takes the files from x lines of `a` and y lines of `b` consumed to x' and y'. */
  ghost predicate Walks<T>(es: seq<Edit>, a: seq<T>, b: seq<T>, x: nat, y: nat, x': nat, y': nat)
  {
    if es == [] then x == x' && y == y'
    else
      && es[0].a == x && es[0].b == y
      && match es[0].kind
         case Equal => x < |a| && y < |b| && a[x] == b[y] && Walks(es[1..], a, b, x + 1, y + 1, x', y')
         case Delete => x < |a| && Walks(es[1..], a, b, x + 1, y, x', y')
         case Insert => y < |b| && Walks(es[1..], a, b, x, y + 1, x', y')
  }

  /** `es` is a whole edit script from `a` to `b`. */
  ghost predicate IsScript<T>(es: seq<Edit>, a: seq<T>, b: seq<T>)
  {
    Walks(es, a, b, 0, 0, |a|, |b|)
  }

  /** How many lines a script inserts and deletes. */
  ghost function Cost(es: seq<Edit>): nat
  {
    if es == [] then 0 else (if es[0].kind == Equal then 0 else 1) + Cost(es[1..])
  }

  /** The point (x, y) can be reached from (0, 0) with exactly d moves that are not diagonal. */
  ghost predicate Reachable<T>(a: seq<T>, b: seq<T>, d: int, x: int, y: int)
    decreases x + y, d
  {
    && d >= 0 && x >= 0 && y >= 0
    && (|| (d == 0 && x == 0 && y == 0)
        || (d > 0 && x > 0 && Reachable(a, b, d - 1, x - 1, y))
        || (d > 0 && y > 0 && Reachable(a, b, d - 1, x, y - 1))
        || (0 < x <= |a| && 0 < y <= |b| && a[x - 1] == b[y - 1] && Reachable(a, b, d, x - 1, y - 1)))
  }

  /** The point of diagonal k with abscissa x, reached with d edits. */
  ghost predicate OnDiagonal<T>(a: seq<T>, b: seq<T>, d: int, k: int, x: int)
  {
    Reachable(a, b, d, x, x - k)
  }

  /** No path of d edits gets past x on diagonal k. */
  ghost predicate Within<T>(a: seq<T>, b: seq<T>, d: int, k: int, x: int)
  {
    forall x' :: OnDiagonal(a, b, d, k, x') ==> x' <= x
  }

  /** x is as far as d edits go on diagonal k. */
  ghost predicate Furthest<T>(a: seq<T>, b: seq<T>, d: int, k: int, x: int)
  {
    OnDiagonal(a, b, d, k, x) && Within(a, b, d, k, x)
  }

  // ----- scripts

  /** The two files a script rebuilds: the lines it keeps and deletes, and the lines it keeps and inserts. */
  ghost function OldLines<T>(es: seq<Edit>, a: seq<T>): (r: seq<T>)
    requires forall e <- es :: e.kind != Insert ==> e.a < |a|
  {
    if es == [] then [] else
      (if es[0].kind == Insert then [] else [a[es[0].a]]) + OldLines(es[1..], a)
  }

  ghost function NewLines<T>(es: seq<Edit>, a: seq<T>, b: seq<T>): (r: seq<T>)
    requires forall e <- es :: (e.kind == Equal ==> e.a < |a|) && (e.kind == Insert ==> e.b < |b|)
  {
    if es == [] then [] else
      (match es[0].kind case Equal => [a[es[0].a]] case Delete => [] case Insert => [b[es[0].b]])
      + NewLines(es[1..], a, b)
  }

  lemma {:induction false} WalksInRange<T>(es: seq<Edit>, a: seq<T>, b: seq<T>, x: nat, y: nat, x': nat, y': nat)
    requires Walks(es, a, b, x, y, x', y')
    requires x <= |a| && y <= |b|
    ensures forall e <- es :: (e.kind != Insert ==> e.a < |a|) && (e.kind != Delete ==> e.b < |b|)
    ensures x <= x' <= |a| && y <= y' <= |b|
  {
    if es != [] {
      var e := es[0];
      WalksInRange(es[1..], a, b, if e.kind == Insert then x else x + 1, if e.kind == Delete then y else y + 1, x', y');
      assert es == [e] + es[1..];
    }
  }

  /** A script rebuilds both files. */
  lemma {:induction false} WalksRebuild<T>(es: seq<Edit>, a: seq<T>, b: seq<T>, x: nat, y: nat, x': nat, y': nat)
    requires Walks(es, a, b, x, y, x', y')
    requires x <= |a| && y <= |b|
    ensures x <= x' <= |a| && y <= y' <= |b|
    ensures forall e <- es :: (e.kind != Insert ==> e.a < |a|) && (e.kind != Delete ==> e.b < |b|)
    ensures OldLines(es, a) == a[x..x']
    ensures NewLines(es, a, b) == b[y..y']
  {
    WalksInRange(es, a, b, x, y, x', y');
    if es != [] {
      var e := es[0];
      var (nx, ny) := (if e.kind == Insert then x else x + 1, if e.kind == Delete then y else y + 1);
      WalksRebuild(es[1..], a, b, nx, ny, x', y');
      if e.kind != Insert { assert a[x..x'] == [a[x]] + a[x + 1..x']; }
      if e.kind != Delete { assert b[y..y'] == [b[y]] + b[y + 1..y']; }
    }
  }

  lemma {:induction false} WalksConcat<T>(es: seq<Edit>, fs: seq<Edit>, a: seq<T>, b: seq<T>,
                                          x: nat, y: nat, x1: nat, y1: nat, x2: nat, y2: nat)
    requires Walks(es, a, b, x, y, x1, y1) && Walks(fs, a, b, x1, y1, x2, y2)
    ensures Walks(es + fs, a, b, x, y, x2, y2)
    ensures Cost(es + fs) == Cost(es) + Cost(fs)
  {
    if es == [] {
      assert es + fs == fs;
    } else {
      var e := es[0];
      WalksConcat(es[1..], fs, a, b, if e.kind == Insert then x else x + 1,
                  if e.kind == Delete then y else y + 1, x1, y1, x2, y2);
      assert (es + fs)[1..] == es[1..] + fs;
    }
  }

  // ----- the graph

  /** A path of d edits ends on a diagonal of its parity, at most d away from the middle. */
  lemma {:induction false} DiagonalBound<T>(a: seq<T>, b: seq<T>, d: int, x: int, y: int)
    requires Reachable(a, b, d, x, y)
    ensures -d <= x - y <= d && (x - y - d) % 2 == 0
    decreases x + y, d
  {
    if d > 0 && x > 0 && Reachable(a, b, d - 1, x - 1, y) {
      DiagonalBound(a, b, d - 1, x - 1, y);
    } else if d > 0 && y > 0 && Reachable(a, b, d - 1, x, y - 1) {
      DiagonalBound(a, b, d - 1, x, y - 1);
    } else if !(d == 0 && x == 0 && y == 0) {
      DiagonalBound(a, b, d, x - 1, y - 1);
    }
  }

  ghost function Excess(x: int, bound: nat): nat
  {
    if x > bound then x - bound else 0
  }

  ghost function Clip(x: int, bound: nat): int
  {
    if x > bound then bound else x
  }

  /** A path that leaves the grid spends an edit on every step outside it: pulled back
      into the grid, it is that much shorter. */
  lemma {:induction false} ClipPath<T>(a: seq<T>, b: seq<T>, d: int, x: int, y: int)
    requires Reachable(a, b, d, x, y)
    ensures Reachable(a, b, d - Excess(x, |a|) - Excess(y, |b|), Clip(x, |a|), Clip(y, |b|))
    decreases x + y, d
  {
    if d > 0 && x > 0 && Reachable(a, b, d - 1, x - 1, y) {
      ClipPath(a, b, d - 1, x - 1, y);
    } else if d > 0 && y > 0 && Reachable(a, b, d - 1, x, y - 1) {
      ClipPath(a, b, d - 1, x, y - 1);
    } else if !(d == 0 && x == 0 && y == 0) {
      ClipPath(a, b, d, x - 1, y - 1);
    }
  }

  /** Deleting x lines and inserting y is one way to (x, y). */
  lemma {:induction false} ReachableByReplacing<T>(a: seq<T>, b: seq<T>, x: nat, y: nat)
    ensures Reachable(a, b, x + y, x, y)
    decreases x + y
  {
    if x > 0 {
      ReachableByReplacing(a, b, x - 1, y);
    } else if y > 0 {
      ReachableByReplacing(a, b, x, y - 1);
    }
  }

  /** A walk of cost c moves a reachable point to one reachable with c more edits. */
  lemma {:induction false} WalkReaches<T>(es: seq<Edit>, a: seq<T>, b: seq<T>, x: nat, y: nat, x': nat, y': nat, d: nat)
    requires Walks(es, a, b, x, y, x', y') && Reachable(a, b, d, x, y)
    ensures Reachable(a, b, d + Cost(es), x', y')
  {
    if es != [] {
      match es[0].kind
      case Equal => WalkReaches(es[1..], a, b, x + 1, y + 1, x', y', d);
      case Delete => WalkReaches(es[1..], a, b, x + 1, y, x', y', d + 1);
      case Insert => WalkReaches(es[1..], a, b, x, y + 1, x', y', d + 1);
    }
  }

  /** The other way round: inside the grid every reachable point has a script to it. */
  lemma {:induction false} ReachableHasWalk<T>(a: seq<T>, b: seq<T>, d: int, x: int, y: int) returns (es: seq<Edit>)
    requires Reachable(a, b, d, x, y) && x <= |a| && y <= |b|
    ensures Walks(es, a, b, 0, 0, x, y) && Cost(es) == d
    decreases x + y, d
  {
    if d == 0 && x == 0 && y == 0 {
      return [];
    }
    var last: Edit;
    if d > 0 && x > 0 && Reachable(a, b, d - 1, x - 1, y) {
      es := ReachableHasWalk(a, b, d - 1, x - 1, y);
      last := Edit(Delete, x - 1, y);
      assert Walks([last], a, b, x - 1, y, x, y);
      WalksConcat(es, [last], a, b, 0, 0, x - 1, y, x, y);
    } else if d > 0 && y > 0 && Reachable(a, b, d - 1, x, y - 1) {
      es := ReachableHasWalk(a, b, d - 1, x, y - 1);
      last := Edit(Insert, x, y - 1);
      assert Walks([last], a, b, x, y - 1, x, y);
      WalksConcat(es, [last], a, b, 0, 0, x, y - 1, x, y);
    } else {
      es := ReachableHasWalk(a, b, d, x - 1, y - 1);
      last := Edit(Equal, x - 1, y - 1);
      assert Walks([last], a, b, x - 1, y - 1, x, y);
      WalksConcat(es, [last], a, b, 0, 0, x - 1, y - 1, x, y);
    }
    es := es + [last];
  }

  // ----- furthest points

  /** Where a d-edit path enters diagonal k: right of the furthest (d-1)-edit point on k - 1,
      or below the one on k + 1, whichever is further. */
  ghost predicate Enters<T>(a: seq<T>, b: seq<T>, d: int, k: int, x: int)
  {
    && OnDiagonal(a, b, d, k, x)
    && Within(a, b, d - 1, k - 1, x - 1)
    && Within(a, b, d - 1, k + 1, x)
  }

  /** Past the entry point, the last move of a d-edit path on its diagonal is a match. */
  lemma PastEntryIsMatch<T>(a: seq<T>, b: seq<T>, d: int, k: int, entry: int, x: int)
    requires Enters(a, b, d, k, entry) && entry < x && OnDiagonal(a, b, d, k, x)
    ensures 0 < x <= |a| && 0 < x - k <= |b| && a[x - 1] == b[x - k - 1] && OnDiagonal(a, b, d, k, x - 1)
  {
    assert !OnDiagonal(a, b, d - 1, k - 1, x - 1);
    assert !OnDiagonal(a, b, d - 1, k + 1, x);
    assert (x - 1) - (k - 1) == x - k && x - (k + 1) == x - k - 1 && x - 1 - k == x - k - 1;
  }

  /** No d-edit path passes a point of its diagonal where the lines stop matching. */
  lemma {:induction false} StopsAtMismatch<T>(a: seq<T>, b: seq<T>, d: int, k: int, entry: int, stop: int, x: int)
    requires Enters(a, b, d, k, entry) && entry <= stop
    requires !(0 <= stop < |a| && 0 <= stop - k < |b| && a[stop] == b[stop - k])
    requires OnDiagonal(a, b, d, k, x)
    ensures x <= stop
    decreases x
  {
    if x > stop {
      PastEntryIsMatch(a, b, d, k, entry, x);
      StopsAtMismatch(a, b, d, k, entry, stop, x - 1);
    }
  }

  lemma FurthestAtMismatch<T>(a: seq<T>, b: seq<T>, d: int, k: int, entry: int, stop: int)
    requires Enters(a, b, d, k, entry) && entry <= stop && OnDiagonal(a, b, d, k, stop)
    requires !(0 <= stop < |a| && 0 <= stop - k < |b| && a[stop] == b[stop - k])
    ensures Furthest(a, b, d, k, stop)
  {
    forall x | OnDiagonal(a, b, d, k, x) ensures x <= stop {
      StopsAtMismatch(a, b, d, k, entry, stop, x);
    }
  }

  lemma NoSuchDiagonal<T>(a: seq<T>, b: seq<T>, d: int, k: int, x: int)
    requires k < -d || d < k
    ensures Within(a, b, d, k, x)
  {
    forall x' | OnDiagonal(a, b, d, k, x') ensures false {
      DiagonalBound(a, b, d, x', x' - k);
    }
  }

  lemma NextOnDiagonal<T>(a: seq<T>, b: seq<T>, d: int, k: int, x: int)
    requires OnDiagonal(a, b, d, k, x) && 0 <= x < |a| && 0 <= x - k < |b| && a[x] == b[x - k]
    ensures OnDiagonal(a, b, d, k, x + 1)
  {
    assert x + 1 - k == x - k + 1;
  }
}
