/** The edit script of two files' lines (box/diff.go, diffLines). */
module LineDiff {
  import opened EditGraph
  import opened Distance
  import Myers

  /** The edit distance the search is bounded by. */
  const MAX_EDITS := 512

  /** One edit more at the end of a walk from the start. */
  lemma WalkOn<T>(es: seq<Edit>, e: Edit, a: seq<T>, b: seq<T>, x: nat, y: nat)
    requires Walks(es, a, b, 0, 0, x, y) && e.a == x && e.b == y
    requires e.kind != Insert ==> x < |a|
    requires e.kind != Delete ==> y < |b|
    requires e.kind == Equal ==> a[x] == b[y]
    ensures Walks(es + [e], a, b, 0, 0, if e.kind == Insert then x else x + 1, if e.kind == Delete then y else y + 1)
    ensures Cost(es + [e]) == Cost(es) + if e.kind == Equal then 0 else 1
  {
    var (x', y') := (if e.kind == Insert then x else x + 1, if e.kind == Delete then y else y + 1);
    assert [e][1..] == [];
    assert Walks([e], a, b, x, y, x', y');
    WalksConcat(es, [e], a, b, 0, 0, x, y, x', y');
  }

  /** How many lines the two files share at their front. */
  method CommonPrefix<T(==)>(a: seq<T>, b: seq<T>) returns (pre: nat)
    ensures pre <= |a| && pre <= |b| && a[..pre] == b[..pre]
    ensures pre < |a| && pre < |b| ==> a[pre] != b[pre]
  {
    pre := 0;
    while pre < |a| && pre < |b| && a[pre] == b[pre]
      invariant pre <= |a| && pre <= |b| && a[..pre] == b[..pre]
      decreases |a| - pre
    {
      pre := pre + 1;
    }
  }

  /** How many lines the two files share at their end, past the first pre. */
  method CommonSuffix<T(==)>(a: seq<T>, b: seq<T>, pre: nat) returns (suf: nat)
    requires pre <= |a| && pre <= |b|
    ensures pre + suf <= |a| && pre + suf <= |b| && a[|a| - suf..] == b[|b| - suf..]
    ensures pre + suf < |a| && pre + suf < |b| ==> a[|a| - 1 - suf] != b[|b| - 1 - suf]
  {
    suf := 0;
    while suf < |a| - pre && suf < |b| - pre && a[|a| - 1 - suf] == b[|b| - 1 - suf]
      invariant pre + suf <= |a| && pre + suf <= |b| && a[|a| - suf..] == b[|b| - suf..]
      decreases |a| - suf
    {
      assert a[|a| - 1 - suf..] == [a[|a| - 1 - suf]] + a[|a| - suf..];
      assert b[|b| - 1 - suf..] == [b[|b| - 1 - suf]] + b[|b| - suf..];
      suf := suf + 1;
    }
  }

  /** Everything of one file deleted, everything of the other inserted. */
  method ReplaceAll<T(==)>(a: seq<T>, b: seq<T>) returns (es: seq<Edit>)
    ensures IsScript(es, a, b)
  {
    es := [];
    for i := 0 to |a|
      invariant Walks(es, a, b, 0, 0, i, 0)
    {
      WalkOn(es, Edit(Delete, i, 0), a, b, i, 0);
      es := es + [Edit(Delete, i, 0)];
    }
    for j := 0 to |b|
      invariant Walks(es, a, b, 0, 0, |a|, j)
    {
      WalkOn(es, Edit(Insert, |a|, j), a, b, |a|, j);
      es := es + [Edit(Insert, |a|, j)];
    }
  }

  /** The edit script from a to b: the common prefix and suffix as they stand, the middle by the
      bounded search, or replaced whole when it is more than MAX_EDITS edits apart.  No script
      of the two whole files has fewer edits, unless it is past that bound itself. */
  method DiffLines<T(==, !new)>(a: seq<T>, b: seq<T>) returns (es: seq<Edit>)
    ensures IsScript(es, a, b)
    ensures forall es' :: IsScript(es', a, b) ==> Cost(es) <= Cost(es') || MAX_EDITS < Cost(es')
  {
    var pre := CommonPrefix(a, b);
    var suf := CommonSuffix(a, b, pre);
    assert a[0..pre] == a[..pre] && b[0..pre] == b[..pre];
    assert a[|a| - suf..|a|] == a[|a| - suf..] && b[|b| - suf..|b|] == b[|b| - suf..];
    var am, bm := a[pre..|a| - suf], b[pre..|b| - suf];
    var mid, ok := Myers.Myers(am, bm, MAX_EDITS);
    MiddlesBound(a, b, pre, suf, am, bm, if ok then Cost(mid) else MAX_EDITS + 1);
    if !ok {
      mid := ReplaceAll(am, bm);
    }
    es := Kept([], a, b, 0, 0, pre, pre);
    es := Shifted(es, mid, a, b, pre, |a| - suf, |b| - suf);
    es := Kept(es, a, b, |a| - suf, |b| - suf, |a|, |b|);
  }

  /** The lines of both files from (x, y) to (x', y'), kept. */
  method Kept<T>(es0: seq<Edit>, ghost a: seq<T>, ghost b: seq<T>, x: nat, y: nat, x': nat, y': nat)
    returns (es: seq<Edit>)
    requires Walks(es0, a, b, 0, 0, x, y)
    requires x <= x' <= |a| && y <= y' <= |b| && x' - x == y' - y && a[x..x'] == b[y..y']
    ensures Walks(es, a, b, 0, 0, x', y') && Cost(es) == Cost(es0)
  {
    es := es0;
    var i, j := x, y;
    while i < x'
      invariant i <= x' && x' - i == y' - j
      invariant Walks(es, a, b, 0, 0, i, j) && Cost(es) == Cost(es0)
    {
      assert a[i] == a[x..x'][i - x] == b[y..y'][j - y] == b[j];
      WalkOn(es, Edit(Equal, i, j), a, b, i, j);
      es := es + [Edit(Equal, i, j)];
      i, j := i + 1, j + 1;
    }
  }

  /** The middle's edits, moved past the common prefix and appended. */
  method Shifted<T>(es0: seq<Edit>, mid: seq<Edit>, ghost a: seq<T>, ghost b: seq<T>, pre: nat,
                    ghost x': nat, ghost y': nat)
    returns (es: seq<Edit>)
    requires pre <= x' <= |a| && pre <= y' <= |b|
    requires Walks(es0, a, b, 0, 0, pre, pre) && Cost(es0) == 0 && IsScript(mid, a[pre..x'], b[pre..y'])
    ensures Walks(es, a, b, 0, 0, x', y') && Cost(es) == Cost(mid)
  {
    ghost var am, bm := a[pre..x'], b[pre..y'];
    es := es0;
    ghost var x: nat, y: nat := 0, 0;
    for i := 0 to |mid|
      invariant x <= |am| && y <= |bm|
      invariant Walks(mid[i..], am, bm, x, y, |am|, |bm|)
      invariant Walks(es, a, b, 0, 0, pre + x, pre + y) && Cost(es) + Cost(mid[i..]) == Cost(mid)
    {
      var e := mid[i];
      assert mid[i..][0] == e && mid[i..][1..] == mid[i + 1..];
      WalkOn(es, Edit(e.kind, e.a + pre, e.b + pre), a, b, pre + x, pre + y);
      es := es + [Edit(e.kind, e.a + pre, e.b + pre)];
      x, y := if e.kind == Insert then x else x + 1, if e.kind == Delete then y else y + 1;
    }
  }
}
