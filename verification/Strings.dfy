/** Strings as the box's text formats read them: an order, spaces, lines, cuts. */
module Strings {

  /** Bytewise order. */
  predicate Less(a: string, b: string)
  {
    b != "" && (a == "" || a[0] < b[0] || (a[0] == b[0] && Less(a[1..], b[1..])))
  }

  lemma {:induction false} LessTrans(a: string, b: string, c: string)
    requires Less(a, b) && Less(b, c)
    ensures Less(a, c)
  {
    if a != "" && a[0] == b[0] && b[0] == c[0] {
      LessTrans(a[1..], b[1..], c[1..]);
    }
  }

  lemma {:induction false} LessTotal(a: string, b: string)
    ensures Less(a, b) || a == b || Less(b, a)
  {
    if a != "" && b != "" && a[0] == b[0] {
      LessTotal(a[1..], b[1..]);
      assert a == [a[0]] + a[1..] && b == [b[0]] + b[1..];
    }
  }

  lemma {:induction false} LessIrreflexive(a: string, b: string)
    requires Less(a, b)
    ensures a != b && !Less(b, a)
  {
    if a != "" && a[0] == b[0] {
      LessIrreflexive(a[1..], b[1..]);
    }
  }

  /** A rune Unicode counts as white space. */
  predicate IsSpace(c: char)
  {
    || c == '\t' || c == '\n' || c == '\U{000B}' || c == '\U{000C}' || c == '\r' || c == ' '
    || c == '\U{0085}' || c == '\U{00A0}' || c == '\U{1680}' || '\U{2000}' <= c <= '\U{200a}'
    || c == '\U{2028}' || c == '\U{2029}' || c == '\U{202f}' || c == '\U{205f}' || c == '\U{3000}'
  }

  function TrimLeft(s: string): string
  {
    if s != "" && IsSpace(s[0]) then TrimLeft(s[1..]) else s
  }

  function TrimRight(s: string): string
  {
    if s != "" && IsSpace(s[|s| - 1]) then TrimRight(s[..|s| - 1]) else s
  }

  function Trim(s: string): string { TrimRight(TrimLeft(s)) }

  function TrimPrefix(s: string, p: string): string
  {
    if p <= s then s[|p|..] else s
  }

  /** What stands before the first c and after it; found says that there is one. */
  function Cut(s: string, c: char): (r: (string, string, bool))
    ensures r.2 ==> s == r.0 + [c] + r.1 && c !in r.0
    ensures !r.2 ==> r.0 == s && r.1 == "" && c !in s
  {
    if s == "" then ("", "", false)
    else if s[0] == c then ("", s[1..], true)
    else
      var r := Cut(s[1..], c);
      ([s[0]] + r.0, r.1, r.2)
  }

  lemma {:induction false} CutAt(l: string, c: char, r: string)
    requires c !in l
    ensures Cut(l + [c] + r, c) == (l, r, true)
  {
    var s := l + [c] + r;
    if l == "" {
      assert s[1..] == r;
    } else {
      assert s[1..] == l[1..] + [c] + r;
      CutAt(l[1..], c, r);
      assert [l[0]] + l[1..] == l;
    }
  }

  /** The lines of a text, without their breaks. */
  function Lines(s: string): (ls: seq<string>)
    ensures |ls| > 0
  {
    if s == "" then [""]
    else
      var rest := Lines(s[1..]);
      if s[0] == '\n' then [""] + rest else [[s[0]] + rest[0]] + rest[1..]
  }

  lemma {:induction false} LinesOf(l: string, r: string)
    requires '\n' !in l
    ensures Lines(l + "\n" + r) == [l] + Lines(r)
  {
    var s := l + "\n" + r;
    if l == "" {
      assert s[1..] == r;
    } else {
      assert s[1..] == l[1..] + "\n" + r;
      LinesOf(l[1..], r);
      assert [l[0]] + l[1..] == l;
    }
  }
}
