/** A unified diff as text: what renderDiff writes, where its limit cuts it, and how a reader takes it apart again
    (box/diff.go, renderDiff, writeHunk, hunkRange). */
module DiffText {
  import opened EditGraph
  import opened Hunks
  import LineDiff
  import opened Options

  const OLD_NAME := "--- installed\n"
  const NEW_NAME := "+++ pushed\n"
  const NO_NEWLINE := "\\ No newline at end of file\n"

  // ----- numbers and headers

  predicate IsDigit(c: char) { '0' <= c <= '9' }

  function Digit(n: nat): (c: char)
    requires n < 10
    ensures IsDigit(c)
  {
    ('0' as int + n) as char
  }

  function Decimal(n: nat): (s: string)
    ensures s != "" && forall c :: c in s ==> IsDigit(c)
  {
    if n < 10 then [Digit(n)] else Decimal(n / 10) + [Digit(n % 10)]
  }

  function ReadDecimal(s: string): Option<nat>
  {
    if s == "" || !IsDigit(s[|s| - 1]) then None
    else
      var d := s[|s| - 1] as int - '0' as int;
      if |s| == 1 then Some(d)
      else
        match ReadDecimal(s[..|s| - 1])
        case None => None
        case Some(n) => Some(10 * n + d)
  }

  lemma {:induction false} DecimalReads(n: nat)
    ensures ReadDecimal(Decimal(n)) == Some(n)
  {
    if n >= 10 {
      DecimalReads(n / 10);
      assert Decimal(n)[..|Decimal(n)| - 1] == Decimal(n / 10);
    }
  }

  /** The place of the first c, the length if there is none. */
  function Find(s: string, c: char): (i: nat)
    ensures i <= |s|
  {
    if s == "" || s[0] == c then 0 else 1 + Find(s[1..], c)
  }

  /** Where a text without c ends and c follows, c is found. */
  lemma {:induction false} FindAt(s: string, c: char, rest: string)
    requires c !in s
    ensures Find(s + ([c] + rest), c) == |s| && Find(s, c) == |s|
  {
    if s == "" {
      assert s + ([c] + rest) == [c] + rest;
    } else {
      FindAt(s[1..], c, rest);
      assert (s + ([c] + rest))[1..] == s[1..] + ([c] + rest);
    }
  }

  /** A count of one is not written. */
  function RangeText(r: Range): (s: string)
    ensures forall c :: c in s ==> IsDigit(c) || c == ','
  {
    if r.count == 1 then Decimal(r.first) else Decimal(r.first) + ([','] + Decimal(r.count))
  }

  function ReadRange(s: string): Option<Range>
  {
    var i := Find(s, ',');
    match (ReadDecimal(s[..i]), if i < |s| then ReadDecimal(s[i + 1..]) else Some(1))
    case (Some(first), Some(count)) => Some(Range(first, count))
    case _ => None
  }

  /** A text in three parts, and its parts. */
  lemma Parts(x: string, y: string, z: string)
    ensures (x + (y + z))[..|x|] == x && (x + (y + z))[|x| + |y|..] == z && (x + (y + z))[|x|..|x| + |y|] == y
  {
  }

  lemma RangeReads(r: Range)
    ensures ReadRange(RangeText(r)) == Some(r)
  {
    var (x, y) := (Decimal(r.first), Decimal(r.count));
    DecimalReads(r.first);
    if r.count == 1 {
      FindAt(x, ',', "");
      assert x[..|x|] == x;
    } else {
      DecimalReads(r.count);
      FindAt(x, ',', y);
      Parts(x, [','], y);
    }
  }

  const OPEN := "@@ -"
  const CLOSE := " @@\n"

  function Ranges(h: Hunk): string { RangeText(h.minus) + ([' '] + (['+'] + RangeText(h.plus))) }

  function Head(h: Hunk): string { OPEN + (Ranges(h) + CLOSE) }

  function ReadPair(minus: string, rest: string): Option<(Range, Range)>
  {
    if rest == "" || rest[0] != '+' then None
    else
      match (ReadRange(minus), ReadRange(rest[1..]))
      case (Some(x), Some(y)) => Some((x, y))
      case _ => None
  }

  function ReadRanges(s: string): Option<(Range, Range)>
  {
    var i := Find(s, ' ');
    if i == |s| then None else ReadPair(s[..i], s[i + 1..])
  }

  function ReadHead(l: Line): Option<(Range, Range)>
  {
    if |l| < |OPEN| + |CLOSE| || l[..|OPEN|] != OPEN || l[|l| - |CLOSE|..] != CLOSE then None
    else ReadRanges(l[|OPEN|..|l| - |CLOSE|])
  }

  lemma PairReads(x: string, y: string, minus: Range, plus: Range)
    requires ' ' !in x && ReadRange(x) == Some(minus) && ReadRange(y) == Some(plus)
    ensures ReadRanges(x + ([' '] + (['+'] + y))) == Some((minus, plus))
  {
    var tail := ['+'] + y;
    FindAt(x, ' ', tail);
    Parts(x, [' '], tail);
    assert ReadPair(x, tail) == Some((minus, plus)) by {
      assert tail[1..] == y;
    }
  }

  lemma RangesRead(h: Hunk)
    ensures ReadRanges(Ranges(h)) == Some((h.minus, h.plus))
  {
    RangeReads(h.minus);
    RangeReads(h.plus);
    PairReads(RangeText(h.minus), RangeText(h.plus), h.minus, h.plus);
  }

  lemma Framed(open: string, s: string, close: string)
    ensures var l := open + (s + close);
            l[..|open|] == open && l[|l| - |close|..] == close && l[|open|..|l| - |close|] == s
  {
  }

  lemma HeadReads(h: Hunk)
    ensures ReadHead(Head(h)) == Some((h.minus, h.plus))
  {
    RangesRead(h);
    Framed(OPEN, Ranges(h), CLOSE);
  }

  // ----- bodies

  function Sign(k: Kind): char { match k case Equal => ' ' case Delete => '-' case Insert => '+' }

  function KindOf(c: char): Option<Kind>
  {
    if c == ' ' then Some(Equal) else if c == '-' then Some(Delete) else if c == '+' then Some(Insert) else None
  }

  predicate Broken(l: Line) { l != "" && l[|l| - 1] == '\n' }

  /** A line shown, with the mark of one that has no line break. */
  function Show(k: Kind, l: Line): seq<Line>
  {
    if Broken(l) then [[Sign(k)] + l] else [[Sign(k)] + l + "\n", NO_NEWLINE]
  }

  /** A body, and the lines after it. */
  function ShowBody(body: seq<(Kind, Line)>, rest: seq<Line>): seq<Line>
  {
    if body == [] then rest else Show(body[0].0, body[0].1) + ShowBody(body[1..], rest)
  }

  function ShowHunks(hs: seq<Hunk>): seq<Line>
  {
    if hs == [] then [] else [Head(hs[0])] + ShowBody(hs[0].body, ShowHunks(hs[1..]))
  }

  function Text(hs: seq<Hunk>): string { Concat([OLD_NAME, NEW_NAME] + ShowHunks(hs)) }

  predicate IsMark(l: Line) { l != "" && l[0] == '\\' }

  /** The lines a body goes on for, and the lines after it. */
  function ReadBody(ls: seq<Line>): (r: (seq<(Kind, Line)>, seq<Line>))
    ensures |r.1| <= |ls|
  {
    if ls == [] || ls[0] == "" || KindOf(ls[0][0]).None? then ([], ls)
    else
      var k, l := KindOf(ls[0][0]).value, ls[0][1..];
      if |ls| > 1 && IsMark(ls[1]) && l != "" then
        var rest := ReadBody(ls[2..]);
        ([(k, l[..|l| - 1])] + rest.0, rest.1)
      else
        var rest := ReadBody(ls[1..]);
        ([(k, l)] + rest.0, rest.1)
  }

  function ReadHunks(ls: seq<Line>): Option<seq<Hunk>>
    decreases |ls|
  {
    if ls == [] then Some([])
    else
      match ReadHead(ls[0])
      case None => None
      case Some(ranges) =>
        var (body, rest) := ReadBody(ls[1..]);
        match ReadHunks(rest)
        case None => None
        case Some(hs) => Some([Hunk(ranges.0, ranges.1, body)] + hs)
  }

  /** What may come after a body: nothing, or a header. */
  predicate AfterBody(rest: seq<Line>) { rest == [] || (rest[0] != "" && rest[0][0] == '@') }

  ghost predicate ProperBody(body: seq<(Kind, Line)>)
  {
    forall u :: 0 <= u < |body| ==> IsLine(body[u].1)
  }

  lemma ShownReads(k: Kind, l: Line, ls: seq<Line>)
    requires IsLine(l) && (ls == [] || !IsMark(ls[0]))
    ensures ReadBody(Show(k, l) + ls) == ([(k, l)] + ReadBody(ls).0, ReadBody(ls).1)
  {
    var all := Show(k, l) + ls;
    assert KindOf(Sign(k)) == Some(k) && all[0][0] == Sign(k);
    if Broken(l) {
      assert all[1..] == ls && all[0][1..] == l;
      assert |all| > 1 ==> all[1] == ls[0];
    } else {
      assert all[1] == NO_NEWLINE && IsMark(all[1]);
      assert all[2..] == ls && all[0][1..] == l + "\n" && (l + "\n")[..|l|] == l;
    }
  }

  lemma NoMarkFirst(body: seq<(Kind, Line)>, rest: seq<Line>)
    requires AfterBody(rest)
    ensures ShowBody(body, rest) == [] || !IsMark(ShowBody(body, rest)[0])
  {
    if body != [] {
      var shown := Show(body[0].0, body[0].1);
      assert ShowBody(body, rest)[0] == shown[0] && shown[0][0] == Sign(body[0].0);
    }
  }

  lemma {:induction false} BodyReads(body: seq<(Kind, Line)>, rest: seq<Line>)
    requires ProperBody(body) && AfterBody(rest)
    ensures ReadBody(ShowBody(body, rest)) == (body, rest)
  {
    if body != [] {
      var tail := ShowBody(body[1..], rest);
      BodyReads(body[1..], rest);
      NoMarkFirst(body[1..], rest);
      assert IsLine(body[0].1);
      ShownReads(body[0].0, body[0].1, tail);
      assert body == [(body[0].0, body[0].1)] + body[1..];
    }
  }

  lemma HeadBegins(h: Hunk, rest: seq<Line>)
    ensures AfterBody([Head(h)] + rest)
  {
    assert Head(h)[0] == OPEN[0];
  }

  lemma HunkReads(h: Hunk, rest: seq<Line>, hs: seq<Hunk>)
    requires Proper(h) && AfterBody(rest) && ReadHunks(rest) == Some(hs)
    ensures ReadHunks([Head(h)] + ShowBody(h.body, rest)) == Some([h] + hs)
  {
    HeadReads(h);
    BodyReads(h.body, rest);
    var ls := [Head(h)] + ShowBody(h.body, rest);
    assert ls[0] == Head(h) && ls[1..] == ShowBody(h.body, rest);
  }

  lemma {:induction false} HunksRead(hs: seq<Hunk>)
    requires forall h :: h in hs ==> Proper(h)
    ensures ReadHunks(ShowHunks(hs)) == Some(hs) && AfterBody(ShowHunks(hs))
  {
    if hs != [] {
      HunksRead(hs[1..]);
      HunkReads(hs[0], ShowHunks(hs[1..]), hs[1..]);
      HeadBegins(hs[0], ShowBody(hs[0].body, ShowHunks(hs[1..])));
      assert hs == [hs[0]] + hs[1..];
    }
  }

  // ----- the text of a file, line by line

  function Lines(s: string): (ls: seq<Line>)
    ensures AreLines(ls) && Concat(ls) == s
  {
    var i := Find(s, '\n');
    if s == "" then []
    else if i == |s| then
      NotBefore(s, '\n');
      [s]
    else
      NotBefore(s, '\n');
      assert s == s[..i + 1] + s[i + 1..];
      [s[..i + 1]] + Lines(s[i + 1..])
  }

  lemma {:induction false} NotBefore(s: string, c: char)
    ensures forall j :: 0 <= j < Find(s, c) ==> s[j] != c
    ensures Find(s, c) < |s| ==> s[Find(s, c)] == c
  {
    if s != "" && s[0] != c {
      NotBefore(s[1..], c);
    }
  }

  /** A file is of one list of lines. */
  lemma {:induction false} OneSplit(x: seq<Line>, y: seq<Line>)
    requires AreLines(x) && AreLines(y) && Concat(x) == Concat(y)
    ensures x == y
  {
    if x != [] && y != [] {
      FirstLine(x, y);
      FirstLine(y, x);
      assert Concat(x)[|x[0]|..] == Concat(x[1..]) && Concat(y)[|y[0]|..] == Concat(y[1..]);
      assert x[0] == Concat(x)[..|x[0]|] && y[0] == Concat(y)[..|y[0]|];
      OneSplit(x[1..], y[1..]);
      assert x == [x[0]] + x[1..] && y == [y[0]] + y[1..];
    }
  }

  lemma FirstLine(x: seq<Line>, y: seq<Line>)
    requires AreLines(x) && AreLines(y) && Concat(x) == Concat(y) && x != [] && y != []
    ensures |y[0]| <= |x[0]|
  {
    if |x| == 1 {
      assert Concat(x[1..]) == "";
    } else {
      var i := |x[0]| - 1;
      assert Concat(x)[i] == '\n';
      assert i < |y[0]| ==> y[0][i] == Concat(y)[i];
    }
  }

  /** The reader's side: a diff applied to a file. */
  function Patch(d: string, file: string): Option<string>
  {
    var ls := Lines(d);
    if |ls| < 2 || ls[0] != OLD_NAME || ls[1] != NEW_NAME then None
    else
      match ReadHunks(ls[2..])
      case None => None
      case Some(hs) =>
        match ApplyHunks(hs, Lines(file), 0, 0)
        case None => None
        case Some(lines) => Some(Concat(lines))
  }

  ghost predicate Whole(ls: seq<Line>)
  {
    forall i :: 0 <= i < |ls| ==> IsLine(ls[i]) && Broken(ls[i])
  }

  lemma ShownIsWhole(k: Kind, l: Line)
    requires IsLine(l)
    ensures Whole(Show(k, l))
  {
  }

  lemma {:induction false} BodyIsWhole(body: seq<(Kind, Line)>, rest: seq<Line>)
    requires ProperBody(body) && Whole(rest)
    ensures Whole(ShowBody(body, rest))
  {
    if body != [] {
      assert IsLine(body[0].1);
      ShownIsWhole(body[0].0, body[0].1);
      BodyIsWhole(body[1..], rest);
    }
  }

  lemma HeadIsWhole(h: Hunk)
    ensures IsLine(Head(h)) && Broken(Head(h))
  {
    var (x, y) := (RangeText(h.minus), RangeText(h.plus));
    assert '\n' !in x && '\n' !in y;
    Framed(OPEN, Ranges(h), CLOSE);
    var l := Head(h);
    forall i | 0 <= i < |l| - 1 ensures l[i] != '\n' {
      assert l[i] in OPEN || l[i] in x || l[i] == ' ' || l[i] == '+' || l[i] in y || i >= |l| - 4;
    }
  }

  lemma {:induction false} HunksAreWhole(hs: seq<Hunk>)
    requires forall h :: h in hs ==> Proper(h)
    ensures Whole(ShowHunks(hs))
  {
    if hs != [] {
      assert Proper(hs[0]);
      HunksAreWhole(hs[1..]);
      HeadIsWhole(hs[0]);
      BodyIsWhole(hs[0].body, ShowHunks(hs[1..]));
    }
  }

  /** The text of hunks, read back, is those hunks. */
  lemma TextReads(hs: seq<Hunk>, file: string, made: seq<Line>)
    requires (forall h :: h in hs ==> Proper(h)) && ApplyHunks(hs, Lines(file), 0, 0) == Some(made)
    ensures Patch(Text(hs), file) == Some(Concat(made))
  {
    var ls := [OLD_NAME, NEW_NAME] + ShowHunks(hs);
    HunksAreWhole(hs);
    NamesAreWhole();
    assert Whole(ls);
    OneSplit(Lines(Text(hs)), ls);
    HunksRead(hs);
    assert ls[2..] == ShowHunks(hs);
  }

  lemma NamesAreWhole()
    ensures Whole([OLD_NAME, NEW_NAME])
  {
  }

  // ----- the writer, and its limit

  /** What is written for each line shown: the first of a hunk has the header before it. */
  function HunkPieces(head: string, body: seq<(Kind, Line)>): seq<string>
    decreases body
  {
    if body == [] then [] else [head + Concat(Show(body[0].0, body[0].1))] + HunkPieces("", body[1..])
  }

  function Pieces(hs: seq<Hunk>): seq<string>
  {
    if hs == [] then [] else HunkPieces(Head(hs[0]), hs[0].body) + Pieces(hs[1..])
  }

  /** A text from its top to the end of its n-th piece. */
  function Upto(top: string, ps: seq<string>, n: nat): string
    requires n <= |ps|
  {
    top + Concat(ps[..n])
  }

  lemma Assoc(x: string, y: string, z: string)
    ensures x + (y + z) == (x + y) + z
  {
  }

  lemma {:induction false} ConcatSum(x: seq<Line>, y: seq<Line>)
    ensures Concat(x + y) == Concat(x) + Concat(y)
  {
    if x == [] {
      assert x + y == y;
    } else {
      ConcatSum(x[1..], y);
      assert (x + y)[1..] == x[1..] + y;
      Assoc(x[0], Concat(x[1..]), Concat(y));
    }
  }

  lemma {:induction false} PiecesOfBody(head: string, body: seq<(Kind, Line)>, rest: seq<Line>)
    requires body != [] || head == ""
    ensures Concat(HunkPieces(head, body)) + Concat(rest) == head + Concat(ShowBody(body, rest))
    decreases body
  {
    if body != [] {
      var (shown, tail) := (Concat(Show(body[0].0, body[0].1)), Concat(ShowBody(body[1..], rest)));
      PiecesOfBody("", body[1..], rest);
      ConcatSum(Show(body[0].0, body[0].1), ShowBody(body[1..], rest));
      Assoc(head, shown, tail);
      Assoc(head + shown, Concat(HunkPieces("", body[1..])), Concat(rest));
      assert HunkPieces(head, body)[1..] == HunkPieces("", body[1..]);
    }
  }

  lemma {:induction false} PiecesAreText(hs: seq<Hunk>)
    requires forall h :: h in hs ==> Proper(h)
    ensures Concat(Pieces(hs)) == Concat(ShowHunks(hs))
  {
    if hs != [] {
      assert Proper(hs[0]);
      PiecesAreText(hs[1..]);
      PiecesOfBody(Head(hs[0]), hs[0].body, ShowHunks(hs[1..]));
      ConcatSum(HunkPieces(Head(hs[0]), hs[0].body), Pieces(hs[1..]));
      assert ShowHunks(hs)[1..] == ShowBody(hs[0].body, ShowHunks(hs[1..]));
    }
  }

  lemma UptoAll(hs: seq<Hunk>)
    requires forall h :: h in hs ==> Proper(h)
    ensures Upto(OLD_NAME + NEW_NAME, Pieces(hs), |Pieces(hs)|) == Text(hs)
  {
    PiecesAreText(hs);
    assert Pieces(hs)[..|Pieces(hs)|] == Pieces(hs);
    ConcatSum([OLD_NAME, NEW_NAME], ShowHunks(hs));
    assert [OLD_NAME, NEW_NAME][1..] == [NEW_NAME] && [NEW_NAME][1..] == [];
    assert Concat([NEW_NAME]) == NEW_NAME;
  }

  lemma {:induction false} PieceAt(head: string, body: seq<(Kind, Line)>, u: nat)
    requires u < |body|
    ensures |HunkPieces(head, body)| == |body|
    ensures HunkPieces(head, body)[u] == (if u == 0 then head else "") + Concat(Show(body[u].0, body[u].1))
    decreases body
  {
    if |body| > 1 {
      PieceAt("", body[1..], if u == 0 then 0 else u - 1);
    } else {
      assert HunkPieces("", body[1..]) == [];
    }
  }

  /** What a hunk's writer has written after u lines: at first its header alone. */
  ghost function Wrote(h: Hunk, u: nat): string
    requires u <= |HunkPieces(Head(h), h.body)|
  {
    if u == 0 then Head(h) else Concat(HunkPieces(Head(h), h.body)[..u])
  }

  lemma WroteOn(out: string, h: Hunk, u: nat)
    requires u < |h.body|
    ensures |HunkPieces(Head(h), h.body)| == |h.body|
    ensures out + Wrote(h, u) + Concat(Show(h.body[u].0, h.body[u].1)) == out + Wrote(h, u + 1)
  {
    var ps := HunkPieces(Head(h), h.body);
    var shown := Concat(Show(h.body[u].0, h.body[u].1));
    PieceAt(Head(h), h.body, u);
    assert ps[..u + 1] == ps[..u] + [ps[u]];
    ConcatOn(ps[..u], ps[u]);
    Assoc(out, Wrote(h, u), shown);
  }

  /** A hunk, line by line, until the text is over the limit, if there is one. */
  method WriteHunkText(out: string, h: Hunk, limit: nat) returns (out': string, ok: bool, ghost n: nat)
    requires Proper(h)
    ensures 0 < n <= |HunkPieces(Head(h), h.body)|
    ensures out' == Upto(out, HunkPieces(Head(h), h.body), n)
    ensures n > 1 && limit > 0 ==> |Upto(out, HunkPieces(Head(h), h.body), n - 1)| <= limit
    ensures if ok then limit == 0 || |out'| <= limit else 0 < limit < |out'|
    ensures ok ==> n == |HunkPieces(Head(h), h.body)|
  {
    PieceAt(Head(h), h.body, 0);
    out', ok, n := out + Head(h), true, 0;
    for u := 0 to |h.body|
      invariant n == u && out' == out + Wrote(h, u)
      invariant u > 0 && limit > 0 ==> |out'| <= limit
      invariant u > 1 && limit > 0 ==> |out + Wrote(h, u - 1)| <= limit
    {
      WroteOn(out, h, u);
      out' := out' + Concat(Show(h.body[u].0, h.body[u].1));
      n := u + 1;
      if limit > 0 && |out'| > limit {
        return out', false, n;
      }
    }
  }

  /** The text stops past the limit: at the end of the first piece that takes it there. */
  ghost predicate StopsPast(d: string, top: string, ps: seq<string>, limit: nat)
  {
    exists n :: StopsAt(d, top, ps, limit, n)
  }

  ghost predicate StopsAt(d: string, top: string, ps: seq<string>, limit: nat, n: nat)
  {
    && 0 < n <= |ps| && d == Upto(top, ps, n)
    && limit < |d| && (n > 1 ==> |Upto(top, ps, n - 1)| <= limit)
  }

  lemma UptoMore(top: string, all: seq<string>, done: seq<string>, ps: seq<string>, rest: seq<string>, n: nat)
    requires all == done + (ps + rest) && n <= |ps|
    ensures |done| + n <= |all| && Upto(top, all, |done| + n) == Upto(Upto(top, all, |done|), ps, n)
    ensures all == (done + ps) + rest
  {
    assert all[..|done|] == done && all[..|done| + n] == done + ps[..n];
    ConcatSum(done, ps[..n]);
    Assoc(top, Concat(done), Concat(ps[..n]));
  }

  lemma UptoShorter(top: string, ps: seq<string>, n: nat)
    requires n <= |ps|
    ensures |Upto(top, ps, n)| <= |Upto(top, ps, |ps|)|
  {
    assert ps[..|ps|] == ps == ps[..n] + ps[n..];
    ConcatSum(ps[..n], ps[n..]);
  }

  lemma StopsWithin(top: string, all: seq<string>, done: seq<string>, ps: seq<string>, rest: seq<string>, n: nat,
                    limit: nat)
    requires all == done + (ps + rest) && 0 < n <= |ps|
    requires var d := Upto(top, all, |done|);
             && limit < |Upto(d, ps, n)|
             && (if n > 1 then |Upto(d, ps, n - 1)| <= limit else done == [] || |d| <= limit)
    ensures StopsPast(Upto(Upto(top, all, |done|), ps, n), top, all, limit) && limit < |Upto(top, all, |all|)|
  {
    UptoMore(top, all, done, ps, rest, n);
    UptoMore(top, all, done, ps, rest, n - 1);
    UptoShorter(top, all, |done| + n);
    UptoNone(Upto(top, all, |done|), ps);
    assert StopsAt(Upto(top, all, |done| + n), top, all, limit, |done| + n);
  }

  lemma UptoNone(top: string, ps: seq<string>)
    ensures Upto(top, ps, 0) == top
  {
  }

  lemma PiecesFrom(hs: seq<Hunk>, i: nat)
    requires i < |hs|
    ensures Pieces(hs[i..]) == HunkPieces(Head(hs[i]), hs[i].body) + Pieces(hs[i + 1..])
  {
    assert hs[i..][1..] == hs[i + 1..];
  }

  /** The text of some hunks under its top, cut exactly if it is over the limit. */
  method WriteHunkTexts(top: string, hs: seq<Hunk>, limit: nat) returns (d: string, cut: bool)
    requires hs != [] && forall h :: h in hs ==> Proper(h)
    ensures cut <==> 0 < limit < |Upto(top, Pieces(hs), |Pieces(hs)|)|
    ensures if cut then StopsPast(d, top, Pieces(hs), limit) else d == Upto(top, Pieces(hs), |Pieces(hs)|)
  {
    d := top;
    ghost var all, done: seq<string> := Pieces(hs), [];
    UptoNone(top, all);
    assert hs[0..] == hs;
    for i := 0 to |hs|
      invariant all == done + Pieces(hs[i..]) && d == Upto(top, all, |done|)
      invariant if i == 0 then done == [] else limit == 0 || |d| <= limit
    {
      assert Proper(hs[i]);
      PiecesFrom(hs, i);
      ghost var ps, rest := HunkPieces(Head(hs[i]), hs[i].body), Pieces(hs[i + 1..]);
      var out, ok; ghost var n;
      out, ok, n := WriteHunkText(d, hs[i], limit);
      if !ok {
        StopsWithin(top, all, done, ps, rest, n, limit);
        return out, true;
      }
      UptoMore(top, all, done, ps, rest, n);
      d, done := out, done + ps;
    }
    assert hs[|hs|..] == [] && done == all;
    return d, false;
  }

  /** The diff of two files: none when they are equal.  Otherwise, as written with no limit, applied to the old file it
      gives the new one, and it shows no more changes than it must; a limit it is over cuts it, at the end of a line. */
  method RenderDiff(a: string, b: string, limit: nat) returns (d: string, cut: bool, ghost hs: seq<Hunk>)
    ensures d == "" <==> a == b
    ensures a == b ==> !cut
    ensures a != b ==> Patch(Text(hs), a) == Some(b)
    ensures a != b ==> (cut <==> 0 < limit < |Text(hs)|)
    ensures a != b ==> if cut then StopsPast(d, OLD_NAME + NEW_NAME, Pieces(hs), limit) else d == Text(hs)
    ensures a != b ==> forall es :: IsScript(es, Lines(a), Lines(b)) ==>
              Changes(hs) <= Cost(es) || LineDiff.MAX_EDITS < Cost(es)
  {
    hs := [];
    if a == b {
      return "", false, hs;
    }
    var al := SplitKeepNL(a);
    var bl := SplitKeepNL(b);
    OneSplit(al, Lines(a));
    OneSplit(bl, Lines(b));
    var found := FindHunks(al, bl);
    hs := found;
    TextReads(hs, a, bl);
    d, cut := WriteHunkTexts(OLD_NAME + NEW_NAME, found, limit);
    UptoAll(hs);
  }
}
