/** What a unified diff shows of an edit script: the hunks, their headers, and what applying
    them to the old file gives (box/diff.go, splitKeepNL, renderDiff, writeHunk, hunkRange). */
module Hunks {
  import opened EditGraph
  import LineDiff
  import opened Options

  type Line = string

  /** The unchanged lines shown around a change. */
  const CONTEXT := 3

  /** A header's "start,count": 1-based, and an empty range names the line before it. */
  datatype Range = Range(first: nat, count: nat)

  datatype Hunk = Hunk(minus: Range, plus: Range, body: seq<(Kind, Line)>)

  function HunkRange(start: nat, n: nat): Range
  {
    if n == 0 then Range(start, 0) else Range(start + 1, n)
  }

  // ----- how a patch is applied: the reader's side, from headers and bodies alone

  /** How many lines of its file stand before a range; none if the header is not one. */
  function LinesBefore(r: Range): Option<nat>
  {
    if r.count == 0 then Some(r.first) else if r.first == 0 then None else Some(r.first - 1)
  }

  /** A body applied with pos lines of the file behind it: the lines it leaves, and the lines
      of the file then behind it. */
  function ApplyBody(body: seq<(Kind, Line)>, a: seq<Line>, pos: nat): Option<(seq<Line>, nat)>
  {
    if body == [] then Some(([], pos))
    else
      var (kind, line) := body[0];
      if kind != Insert && (pos >= |a| || a[pos] != line) then None
      else
        match ApplyBody(body[1..], a, if kind == Insert then pos else pos + 1)
        case None => None
        case Some(rest) => Some(((if kind == Delete then [] else [line]) + rest.0, rest.1))
  }

  /** A hunk applied with pos lines of the file behind it and made lines written: nothing unless
      its header and every line it keeps or deletes are where it says. */
  function ApplyHunk(h: Hunk, a: seq<Line>, pos: nat, made: nat): (r: Option<(seq<Line>, nat)>)
    requires pos <= |a|
    ensures r.Some? ==> r.value.1 <= |a|
  {
    match (LinesBefore(h.minus), LinesBefore(h.plus))
    case (Some(x), Some(y)) =>
      if !(pos <= x <= |a|) || y != made + (x - pos) then None
      else (
        match ApplyBody(h.body, a, x)
        case None => None
        case Some(out) =>
          if out.1 > |a| || out.1 != x + h.minus.count || |out.0| != h.plus.count then None
          else Some((a[pos..x] + out.0, out.1)))
    case _ => None
  }

  function ApplyHunks(hs: seq<Hunk>, a: seq<Line>, pos: nat, made: nat): Option<seq<Line>>
    requires pos <= |a|
  {
    if hs == [] then Some(a[pos..])
    else
      match ApplyHunk(hs[0], a, pos, made)
      case None => None
      case Some(out) =>
        match ApplyHunks(hs[1..], a, out.1, made + |out.0|)
        case None => None
        case Some(rest) => Some(out.0 + rest)
  }

  // ----- positions in a script

  /** Lines of both files consumed before edit i. */
  ghost function OldAt(es: seq<Edit>, a: seq<Line>, i: nat): nat { if i < |es| then es[i].a else |a| }
  ghost function NewAt(es: seq<Edit>, b: seq<Line>, i: nat): nat { if i < |es| then es[i].b else |b| }

  lemma {:induction false} WalkSuffix(es: seq<Edit>, a: seq<Line>, b: seq<Line>, i: nat)
    requires IsScript(es, a, b) && i <= |es|
    ensures OldAt(es, a, i) <= |a| && NewAt(es, b, i) <= |b|
    ensures Walks(es[i..], a, b, OldAt(es, a, i), NewAt(es, b, i), |a|, |b|)
  {
    if i == 0 {
      assert es[0..] == es;
    } else {
      WalkSuffix(es, a, b, i - 1);
      assert es[i - 1..][1..] == es[i..];
      assert i < |es| ==> es[i..][0] == es[i];
      WalksInRange(es[i - 1..], a, b, OldAt(es, a, i - 1), NewAt(es, b, i - 1), |a|, |b|);
    }
  }

  /** Each edit of a script stands where its neighbours say. */
  lemma EditAt(es: seq<Edit>, a: seq<Line>, b: seq<Line>, i: nat)
    requires IsScript(es, a, b) && i < |es|
    ensures var e := es[i];
            && e.a <= |a| && e.b <= |b|
            && OldAt(es, a, i + 1) == (if e.kind == Insert then e.a else e.a + 1) <= |a|
            && NewAt(es, b, i + 1) == (if e.kind == Delete then e.b else e.b + 1) <= |b|
            && (e.kind != Insert ==> e.a < |a|) && (e.kind != Delete ==> e.b < |b|)
            && (e.kind == Equal ==> a[e.a] == b[e.b])
  {
    WalkSuffix(es, a, b, i);
    WalkSuffix(es, a, b, i + 1);
    assert es[i..][0] == es[i] && es[i..][1..] == es[i + 1..];
  }

  /** Between two positions of a script with nothing but kept lines, the files agree. */
  lemma {:induction false} KeptLines(es: seq<Edit>, a: seq<Line>, b: seq<Line>, i: nat, j: nat)
    requires IsScript(es, a, b) && i <= j <= |es| && AllEqual(es, i, j)
    ensures OldAt(es, a, i) <= OldAt(es, a, j) <= |a| && NewAt(es, b, i) <= NewAt(es, b, j) <= |b|
    ensures OldAt(es, a, j) - OldAt(es, a, i) == NewAt(es, b, j) - NewAt(es, b, i) == j - i
    ensures a[OldAt(es, a, i)..OldAt(es, a, j)] == b[NewAt(es, b, i)..NewAt(es, b, j)]
    decreases j - i
  {
    if i == j {
      WalkSuffix(es, a, b, i);
    } else {
      EditAt(es, a, b, i);
      KeptLines(es, a, b, i + 1, j);
      var (x, y) := (OldAt(es, a, i), NewAt(es, b, i));
      assert a[x..OldAt(es, a, j)] == [a[x]] + a[x + 1..OldAt(es, a, j)];
      assert b[y..NewAt(es, b, j)] == [b[y]] + b[y + 1..NewAt(es, b, j)];
    }
  }

  // ----- hunks

  ghost predicate AllEqual(es: seq<Edit>, lo: int, hi: int)
  {
    forall t :: 0 <= t < |es| && lo <= t < hi ==> es[t].kind == Equal
  }

  ghost predicate IsChange(es: seq<Edit>, t: int)
  {
    0 <= t < |es| && es[t].kind != Equal
  }

  /** Where a hunk is in the script: from start to end, its changes from first to last. */
  datatype Cut = Cut(start: nat, first: nat, last: nat, end: nat)

  /** A hunk runs from a change to a change, with CONTEXT kept lines on either side, or all there
      are; no two of its changes are more than 2 * CONTEXT kept lines apart, and the next
      change after it is. */
  ghost predicate IsCut(es: seq<Edit>, c: Cut)
  {
    && c.start <= c.first <= c.last < c.end <= |es|
    && IsChange(es, c.first) && IsChange(es, c.last)
    && (c.start == c.first - CONTEXT || (c.start == 0 && c.first <= CONTEXT)) && AllEqual(es, c.start, c.first)
    && IsCutEnd(es, c.last, c.end)
    && Close(es, c.first, c.last)
  }

  ghost predicate IsCutEnd(es: seq<Edit>, last: nat, end: nat)
  {
    && (end == last + 1 + CONTEXT || (end == |es| && |es| <= last + 1 + CONTEXT))
    && AllEqual(es, last + 1, last + 2 + 2 * CONTEXT)
  }

  ghost predicate Close(es: seq<Edit>, first: nat, last: nat)
  {
    forall t :: first <= t < last && IsChange(es, t) ==>
      exists u :: t < u <= t + 1 + 2 * CONTEXT && u <= last && IsChange(es, u)
  }

  /** The hunks' places are in order and apart, and every change before upto is in one. */
  ghost predicate Covers(es: seq<Edit>, cuts: seq<Cut>, upto: nat)
  {
    && (forall j :: 0 <= j < |cuts| ==> Follows(es, cuts, j))
    && AllEqual(es, CutEnd(cuts, |cuts|), upto)
    && CutEnd(cuts, |cuts|) <= upto <= |es|
  }

  ghost predicate Follows(es: seq<Edit>, cuts: seq<Cut>, j: nat)
    requires j < |cuts|
  {
    CutEnd(cuts, j) <= cuts[j].start <= cuts[j].end <= |es| && AllEqual(es, CutEnd(cuts, j), cuts[j].start)
  }

  /** Where the hunk before the j-th ends. */
  ghost function CutEnd(cuts: seq<Cut>, j: nat): nat
    requires j <= |cuts|
  {
    if j == 0 then 0 else cuts[j - 1].end
  }

  /** h shows the edits of es from i to j. */
  ghost predicate Shows(h: Hunk, es: seq<Edit>, a: seq<Line>, b: seq<Line>, i: nat, j: nat)
  {
    && i <= j <= |es|
    && OldAt(es, a, i) <= OldAt(es, a, j) && NewAt(es, b, i) <= NewAt(es, b, j)
    && h.minus == HunkRange(OldAt(es, a, i), OldAt(es, a, j) - OldAt(es, a, i))
    && h.plus == HunkRange(NewAt(es, b, i), NewAt(es, b, j) - NewAt(es, b, i))
    && ShowsBody(h.body, es, a, b, i, j)
  }

  ghost predicate ShowsEdit(shown: (Kind, Line), e: Edit, a: seq<Line>, b: seq<Line>)
  {
    && shown.0 == e.kind
    && (e.kind != Insert ==> e.a < |a| && shown.1 == a[e.a])
    && (e.kind == Insert ==> e.b < |b| && shown.1 == b[e.b])
  }

  ghost predicate ShowsBody(body: seq<(Kind, Line)>, es: seq<Edit>, a: seq<Line>, b: seq<Line>, i: nat, j: nat)
    requires i <= j <= |es|
  {
    && |body| == j - i
    && forall u :: 0 <= u < |body| ==> ShowsEdit(body[u], es[i + u], a, b)
  }

  /** A hunk's body turns the old lines it spans into the new ones. */
  lemma {:induction false} BodyApplies(body: seq<(Kind, Line)>, es: seq<Edit>, a: seq<Line>, b: seq<Line>,
                                       i: nat, j: nat)
    requires IsScript(es, a, b) && i <= j <= |es| && ShowsBody(body, es, a, b, i, j)
    ensures OldAt(es, a, i) <= OldAt(es, a, j) <= |a| && NewAt(es, b, i) <= NewAt(es, b, j) <= |b|
    ensures ApplyBody(body, a, OldAt(es, a, i)) == Some((b[NewAt(es, b, i)..NewAt(es, b, j)], OldAt(es, a, j)))
    decreases j - i
  {
    if i == j {
      WalkSuffix(es, a, b, i);
    } else {
      EditAt(es, a, b, i);
      assert ShowsEdit(body[0], es[i + 0], a, b);
      forall u | 0 <= u < |body[1..]| ensures ShowsEdit(body[1..][u], es[i + 1 + u], a, b) {
        assert ShowsEdit(body[u + 1], es[i + (u + 1)], a, b);
      }
      BodyApplies(body[1..], es, a, b, i + 1, j);
      var y, z := NewAt(es, b, i), NewAt(es, b, j);
      if es[i].kind == Delete {
        assert b[y..z] == [] + b[y..z];
      } else {
        assert b[y..z] == [body[0].1] + b[y + 1..z];
      }
    }
  }

  /** A hunk, applied where the one before it ended, takes the new file from there to its own end. */
  lemma HunkApplies(h: Hunk, es: seq<Edit>, a: seq<Line>, b: seq<Line>, i: nat, start: nat, end: nat)
    requires IsScript(es, a, b) && i <= start <= end <= |es| && AllEqual(es, i, start) && Shows(h, es, a, b, start, end)
    ensures OldAt(es, a, i) <= |a| && NewAt(es, b, i) <= NewAt(es, b, end) <= |b|
    ensures ApplyHunk(h, a, OldAt(es, a, i), NewAt(es, b, i))
            == Some((b[NewAt(es, b, i)..NewAt(es, b, end)], OldAt(es, a, end)))
  {
    KeptLines(es, a, b, i, start);
    BodyApplies(h.body, es, a, b, start, end);
    var y0, y1, y2 := NewAt(es, b, i), NewAt(es, b, start), NewAt(es, b, end);
    assert b[y0..y2] == b[y0..y1] + b[y1..y2];
  }

  lemma ApplyOneMore(hs: seq<Hunk>, a: seq<Line>, pos: nat, made: nat,
                     out: seq<Line>, pos': nat, made': nat, rest: seq<Line>)
    requires hs != [] && pos <= |a| && ApplyHunk(hs[0], a, pos, made) == Some((out, pos'))
    requires pos' <= |a| && made' == made + |out| && ApplyHunks(hs[1..], a, pos', made') == Some(rest)
    ensures ApplyHunks(hs, a, pos, made) == Some(out + rest)
  {
  }

  /** h takes the files from x old and y new lines to x' and y'. */
  ghost predicate Advances(h: Hunk, a: seq<Line>, b: seq<Line>, x: nat, y: nat, x': nat, y': nat)
  {
    x <= |a| && x' <= |a| && y <= y' <= |b| && ApplyHunk(h, a, x, y) == Some((b[y..y'], x'))
  }

  /** Hunks that each start where the one before ended, with nothing but kept lines left at the end. */
  lemma {:induction false} ChainApplies(hs: seq<Hunk>, a: seq<Line>, b: seq<Line>, xs: seq<nat>, ys: seq<nat>)
    requires |xs| == |ys| == |hs| + 1
    requires forall j :: 0 <= j < |hs| ==> Advances(hs[j], a, b, xs[j], ys[j], xs[j + 1], ys[j + 1])
    requires xs[|hs|] <= |a| && ys[|hs|] <= |b| && a[xs[|hs|]..] == b[ys[|hs|]..]
    ensures xs[0] <= |a| && ys[0] <= |b| && ApplyHunks(hs, a, xs[0], ys[0]) == Some(b[ys[0]..])
    decreases |hs|
  {
    if hs != [] {
      assert Advances(hs[0], a, b, xs[0], ys[0], xs[0 + 1], ys[0 + 1]);
      forall j | 0 <= j < |hs[1..]|
        ensures Advances(hs[1..][j], a, b, xs[1..][j], ys[1..][j], xs[1..][j + 1], ys[1..][j + 1]) {
        assert Advances(hs[j + 1], a, b, xs[j + 1], ys[j + 1], xs[j + 1 + 1], ys[j + 1 + 1]);
      }
      ChainApplies(hs[1..], a, b, xs[1..], ys[1..]);
      ApplyOneMore(hs, a, xs[0], ys[0], b[ys[0]..ys[1]], xs[1], ys[1], b[ys[1]..]);
      assert b[ys[0]..] == b[ys[0]..ys[1]] + b[ys[1]..];
    }
  }

  /** Hunks that show all of a script's changes, applied to the old file, give the new one. */
  lemma HunksApply(hs: seq<Hunk>, cuts: seq<Cut>, es: seq<Edit>, a: seq<Line>, b: seq<Line>)
    requires IsScript(es, a, b) && Covers(es, cuts, |es|) && |hs| == |cuts|
    requires forall t :: 0 <= t < |cuts| ==> Shows(hs[t], es, a, b, cuts[t].start, cuts[t].end)
    ensures ApplyHunks(hs, a, 0, 0) == Some(b)
  {
    var xs := seq(|cuts| + 1, j requires 0 <= j <= |cuts| => OldAt(es, a, CutEnd(cuts, j)));
    var ys := seq(|cuts| + 1, j requires 0 <= j <= |cuts| => NewAt(es, b, CutEnd(cuts, j)));
    forall j | 0 <= j < |hs| ensures Advances(hs[j], a, b, xs[j], ys[j], xs[j + 1], ys[j + 1]) {
      assert Follows(es, cuts, j) && Shows(hs[j], es, a, b, cuts[j].start, cuts[j].end);
      HunkApplies(hs[j], es, a, b, CutEnd(cuts, j), cuts[j].start, cuts[j].end);
      WalkSuffix(es, a, b, cuts[j].end);
    }
    KeptLines(es, a, b, CutEnd(cuts, |cuts|), |es|);
    assert a[xs[|hs|]..] == a[xs[|hs|]..|a|] && b[ys[|hs|]..] == b[ys[|hs|]..|b|];
    ChainApplies(hs, a, b, xs, ys);
    assert b[0..] == b;
  }

  // ----- how much the hunks show

  /** The inserted and deleted lines of a body, and of all hunks. */
  ghost function BodyChanges(body: seq<(Kind, Line)>): nat
  {
    if body == [] then 0 else (if body[0].0 == Equal then 0 else 1) + BodyChanges(body[1..])
  }

  ghost function Changes(hs: seq<Hunk>): nat
  {
    if hs == [] then 0 else Changes(hs[..|hs| - 1]) + BodyChanges(hs[|hs| - 1].body)
  }

  lemma {:induction false} CostSplit(es: seq<Edit>, fs: seq<Edit>)
    ensures Cost(es + fs) == Cost(es) + Cost(fs)
  {
    if es == [] {
      assert es + fs == fs;
    } else {
      CostSplit(es[1..], fs);
      assert (es + fs)[1..] == es[1..] + fs;
    }
  }

  lemma {:induction false} CostOfKept(es: seq<Edit>)
    requires AllEqual(es, 0, |es|)
    ensures Cost(es) == 0
  {
    if es != [] {
      CostOfKept(es[1..]);
    }
  }

  lemma CostOnward(es: seq<Edit>, i: nat, start: nat, end: nat)
    requires i <= start <= end <= |es| && AllEqual(es, i, start)
    ensures Cost(es[..end]) == Cost(es[..i]) + Cost(es[start..end])
  {
    CostOfKept(es[i..start]);
    CostSplit(es[..i], es[i..start]);
    CostSplit(es[..start], es[start..end]);
    assert es[..i] + es[i..start] == es[..start];
    assert es[..start] + es[start..end] == es[..end];
  }

  lemma {:induction false} BodyCost(body: seq<(Kind, Line)>, es: seq<Edit>, a: seq<Line>, b: seq<Line>, i: nat, j: nat)
    requires i <= j <= |es| && ShowsBody(body, es, a, b, i, j)
    ensures BodyChanges(body) == Cost(es[i..j])
    decreases j - i
  {
    if i < j {
      assert ShowsEdit(body[0], es[i + 0], a, b);
      forall u | 0 <= u < |body[1..]| ensures ShowsEdit(body[1..][u], es[i + 1 + u], a, b) {
        assert ShowsEdit(body[u + 1], es[i + (u + 1)], a, b);
      }
      BodyCost(body[1..], es, a, b, i + 1, j);
      assert es[i..j][1..] == es[i + 1..j];
    }
  }

  /** The first n hunks show as many changed lines as the script has edits up to their end. */
  lemma {:induction false} ChangesUpTo(hs: seq<Hunk>, cuts: seq<Cut>, es: seq<Edit>, a: seq<Line>, b: seq<Line>, n: nat)
    requires Covers(es, cuts, |es|) && |hs| == |cuts| && n <= |cuts|
    requires forall t :: 0 <= t < |cuts| ==> Shows(hs[t], es, a, b, cuts[t].start, cuts[t].end)
    ensures CutEnd(cuts, n) <= |es| && Changes(hs[..n]) == Cost(es[..CutEnd(cuts, n)])
  {
    if n > 0 {
      ChangesUpTo(hs, cuts, es, a, b, n - 1);
      assert hs[..n][..n - 1] == hs[..n - 1];
      var j := n - 1;
      var i, c := CutEnd(cuts, j), cuts[j];
      assert Follows(es, cuts, j) && CutEnd(cuts, n) == c.end && hs[..n][j] == hs[j];
      assert Shows(hs[j], es, a, b, cuts[j].start, cuts[j].end);
      BodyCost(hs[j].body, es, a, b, c.start, c.end);
      CostOnward(es, i, c.start, c.end);
    }
  }

  /** The hunks show exactly the script's inserts and deletes. */
  lemma ShownChanges(hs: seq<Hunk>, cuts: seq<Cut>, es: seq<Edit>, a: seq<Line>, b: seq<Line>)
    requires Covers(es, cuts, |es|) && |hs| == |cuts|
    requires forall t :: 0 <= t < |cuts| ==> Shows(hs[t], es, a, b, cuts[t].start, cuts[t].end)
    ensures Changes(hs) == Cost(es)
  {
    ChangesUpTo(hs, cuts, es, a, b, |cuts|);
    assert hs[..|hs|] == hs;
    var i := CutEnd(cuts, |cuts|);
    CostOfKept(es[i..]);
    CostSplit(es[..i], es[i..]);
    assert es[..i] + es[i..] == es;
  }

  // ----- the writer's side

  /** Where the hunk whose first change is at first ends. */
  method GroupEnd(es: seq<Edit>, first: nat) returns (end: nat, ghost last: nat)
    requires IsChange(es, first)
    ensures first <= last < end <= |es| && IsChange(es, last) && IsCutEnd(es, last, end) && Close(es, first, last)
  {
    end, last := first, first;
    while end < |es|
      invariant first <= last <= end <= |es| && IsChange(es, last) && Close(es, first, last)
      invariant end <= last + 1 + 2 * CONTEXT && AllEqual(es, last + 1, end)
      invariant end == last + 1 || IsChange(es, end)
      decreases |es| - end
    {
      if es[end].kind != Equal {
        CloseOn(es, first, last, end);
        last := end;
        end := end + 1;
        continue;
      }
      var run := end;
      while run < |es| && es[run].kind == Equal
        invariant end <= run <= |es| && AllEqual(es, end, run)
      {
        run := run + 1;
      }
      if run == |es| || run - end > 2 * CONTEXT {
        end := if end + CONTEXT < |es| then end + CONTEXT else |es|;
        return;
      }
      end := run;
    }
  }

  lemma CloseOn(es: seq<Edit>, first: nat, last: nat, next: nat)
    requires Close(es, first, last) && IsChange(es, last) && IsChange(es, next)
    requires first <= last <= next <= last + 1 + 2 * CONTEXT && AllEqual(es, last + 1, next)
    ensures Close(es, first, next)
  {
    forall t | first <= t < next && IsChange(es, t)
      ensures exists u :: t < u <= t + 1 + 2 * CONTEXT && u <= next && IsChange(es, u)
    {
      if t < last {
        var u :| t < u <= t + 1 + 2 * CONTEXT && u <= last && IsChange(es, u);
      } else {
        assert t == last;
      }
    }
  }

  /** One hunk of the script, from edit i to edit j. */
  method WriteHunk(es: seq<Edit>, a: seq<Line>, b: seq<Line>, i: nat, j: nat) returns (h: Hunk)
    requires IsScript(es, a, b) && i < j <= |es|
    ensures Shows(h, es, a, b, i, j)
  {
    var aStart, bStart := es[i].a, es[i].b;
    var aLen, bLen := 0, 0;
    var body: seq<(Kind, Line)> := [];
    for t := i to j
      invariant OldAt(es, a, t) == aStart + aLen && NewAt(es, b, t) == bStart + bLen
      invariant ShowsBody(body, es, a, b, i, t)
    {
      var e := es[t];
      EditAt(es, a, b, t);
      var line;
      match e.kind {
        case Equal =>
          aLen, bLen := aLen + 1, bLen + 1;
          line := a[e.a];
        case Delete =>
          aLen := aLen + 1;
          line := a[e.a];
        case Insert =>
          bLen := bLen + 1;
          line := b[e.b];
      }
      body := body + [(e.kind, line)];
    }
    h := Hunk(HunkRange(aStart, aLen), HunkRange(bStart, bLen), body);
  }

  /** Each hunk shows its cut of the script. */
  ghost predicate AllShown(hs: seq<Hunk>, cuts: seq<Cut>, es: seq<Edit>, a: seq<Line>, b: seq<Line>)
  {
    && |hs| == |cuts|
    && forall j :: 0 <= j < |cuts| ==> IsCut(es, cuts[j]) && Shows(hs[j], es, a, b, cuts[j].start, cuts[j].end)
  }

  /** The next change from i on. */
  method SkipEqual(es: seq<Edit>, i: nat, ghost cuts: seq<Cut>) returns (next: nat)
    requires i <= |es| && Covers(es, cuts, i)
    ensures i <= next <= |es| && Covers(es, cuts, next) && (next < |es| ==> IsChange(es, next))
  {
    next := i;
    while next < |es| && es[next].kind == Equal
      invariant i <= next <= |es| && Covers(es, cuts, next)
    {
      next := next + 1;
    }
  }

  /** The hunk of the change at i, with those close to it. */
  method NextHunk(es: seq<Edit>, a: seq<Line>, b: seq<Line>, i: nat, ghost cuts: seq<Cut>)
    returns (h: Hunk, end: nat, ghost c: Cut)
    requires IsScript(es, a, b) && IsChange(es, i) && Covers(es, cuts, i)
    requires cuts != [] ==> IsCut(es, cuts[|cuts| - 1])
    ensures i < end <= |es| && c.end == end && IsCut(es, c) && Shows(h, es, a, b, c.start, c.end)
    ensures Covers(es, cuts + [c], end)
  {
    var start := if i - CONTEXT > 0 then i - CONTEXT else 0;
    ghost var last;
    end, last := GroupEnd(es, i);
    h := WriteHunk(es, a, b, start, end);
    c := Cut(start, i, last, end);
    CoversOn(es, cuts, c);
  }

  /** The hunks of a script: each change is in one, and applied to the old file they give the new one. */
  method WriteHunks(es: seq<Edit>, a: seq<Line>, b: seq<Line>) returns (hs: seq<Hunk>, ghost cuts: seq<Cut>)
    requires IsScript(es, a, b)
    ensures AllShown(hs, cuts, es, a, b) && Covers(es, cuts, |es|)
    ensures ApplyHunks(hs, a, 0, 0) == Some(b)
  {
    hs, cuts := [], [];
    var i := SkipEqual(es, 0, cuts);
    while i < |es|
      invariant i <= |es| && (i < |es| ==> IsChange(es, i))
      invariant AllShown(hs, cuts, es, a, b) && Covers(es, cuts, i)
      decreases |es| - i
    {
      var h, end; ghost var c;
      h, end, c := NextHunk(es, a, b, i, cuts);
      hs, cuts := hs + [h], cuts + [c];
      i := SkipEqual(es, end, cuts);
    }
    HunksApply(hs, cuts, es, a, b);
  }

  /** The next hunk starts after the one before it: the change it starts at is further from that
      one's last than both their contexts reach. */
  lemma CoversOn(es: seq<Edit>, cuts: seq<Cut>, c: Cut)
    requires Covers(es, cuts, c.first) && IsCut(es, c)
    requires cuts != [] ==> IsCut(es, cuts[|cuts| - 1])
    ensures Covers(es, cuts + [c], c.end)
  {
    var cuts' := cuts + [c];
    var n := |cuts|;
    if n > 0 {
      assert es[c.first].kind != Equal;
      assert CutEnd(cuts, n) <= c.start;
    }
    forall j | 0 <= j < |cuts'| ensures Follows(es, cuts', j) {
      if j < n {
        assert Follows(es, cuts, j);
      }
    }
  }

  // ----- files

  function Concat(lines: seq<Line>): string
  {
    if lines == [] then "" else lines[0] + Concat(lines[1..])
  }

  lemma {:induction false} ConcatOn(lines: seq<Line>, l: Line)
    ensures Concat(lines + [l]) == Concat(lines) + l
  {
    if lines == [] {
      assert [l][1..] == [];
    } else {
      ConcatOn(lines[1..], l);
      assert (lines + [l])[1..] == lines[1..] + [l];
    }
  }

  /** A line has a line break at its end or nowhere. */
  ghost predicate IsLine(l: Line)
  {
    l != "" && forall i :: 0 <= i < |l| - 1 ==> l[i] != '\n'
  }

  /** The lines of a file, each with its line break; only the last may have none. */
  ghost predicate AreLines(lines: seq<Line>)
  {
    && (forall i :: 0 <= i < |lines| ==> IsLine(lines[i]))
    && (forall i :: 0 <= i < |lines| - 1 ==> lines[i][|lines[i]| - 1] == '\n')
  }

  method IndexByte(s: string, c: char) returns (i: int)
    ensures -1 <= i < |s|
    ensures i >= 0 ==> s[i] == c && c !in s[..i]
    ensures i < 0 ==> c !in s
  {
    for j := 0 to |s|
      invariant c !in s[..j]
    {
      if s[j] == c {
        return j;
      }
    }
    return -1;
  }

  /** All lines end with a line break. */
  ghost predicate Ended(lines: seq<Line>)
  {
    forall i :: 0 <= i < |lines| ==> lines[i] != "" && lines[i][|lines[i]| - 1] == '\n'
  }

  lemma LineOn(lines: seq<Line>, l: Line, rest: string)
    requires AreLines(lines) && Ended(lines) && IsLine(l)
    ensures AreLines(lines + [l]) && Concat(lines + [l]) + rest == Concat(lines) + (l + rest)
    ensures l[|l| - 1] == '\n' ==> Ended(lines + [l])
  {
    ConcatOn(lines, l);
    assert Concat(lines) + l + rest == Concat(lines) + (l + rest);
  }

  method SplitKeepNL(file: string) returns (lines: seq<Line>)
    ensures Concat(lines) == file && AreLines(lines)
  {
    lines := [];
    var rest := file;
    while rest != ""
      invariant Concat(lines) + rest == file && AreLines(lines) && Ended(lines)
      decreases |rest|
    {
      var i := IndexByte(rest, '\n');
      if i < 0 {
        LineOn(lines, rest, "");
        assert rest + "" == rest;
        lines := lines + [rest];
        return;
      }
      var l := rest[..i + 1];
      assert IsLine(l) by {
        assert forall j :: 0 <= j < i ==> l[j] == rest[..i][j];
      }
      LineOn(lines, l, rest[i + 1..]);
      assert l + rest[i + 1..] == rest;
      lines := lines + [l];
      rest := rest[i + 1..];
    }
  }

  /** A hunk shows something, of lines that are lines. */
  ghost predicate Proper(h: Hunk)
  {
    h.body != [] && forall u :: 0 <= u < |h.body| ==> IsLine(h.body[u].1)
  }

  lemma ShownIsProper(h: Hunk, c: Cut, es: seq<Edit>, a: seq<Line>, b: seq<Line>)
    requires AreLines(a) && AreLines(b) && IsCut(es, c) && Shows(h, es, a, b, c.start, c.end)
    ensures Proper(h)
  {
    forall u | 0 <= u < |h.body| ensures IsLine(h.body[u].1) {
      assert ShowsEdit(h.body[u], es[c.start + u], a, b);
    }
  }

  /** The hunks for two files' lines, some if those differ: applied to the old file's they give the new one's, and no
      edit script changes fewer lines than they show unless it is past the search's bound. */
  method FindHunks(al: seq<Line>, bl: seq<Line>) returns (hs: seq<Hunk>)
    requires AreLines(al) && AreLines(bl)
    ensures al != bl ==> hs != []
    ensures ApplyHunks(hs, al, 0, 0) == Some(bl)
    ensures forall es :: IsScript(es, al, bl) ==> Changes(hs) <= Cost(es) || LineDiff.MAX_EDITS < Cost(es)
    ensures forall h :: h in hs ==> Proper(h)
  {
    var es := LineDiff.DiffLines(al, bl);
    ghost var cuts;
    hs, cuts := WriteHunks(es, al, bl);
    ShownChanges(hs, cuts, es, al, bl);
    assert al[0..] == al;
    forall j | 0 <= j < |hs| ensures Proper(hs[j]) {
      ShownIsProper(hs[j], cuts[j], es, al, bl);
    }
  }
}
