/** `{$NAME}` and `{$NAME:default}` with every variable unset (box/tokens.go, expandEmptyEnv): one pass over the
    input, and Caddy's own way, which splices each value into the buffer and resumes after it. */
module Placeholders {
  import opened Options

  /** Where "{$" first is, from i on. */
  function IndexOpen(s: string, i: nat): (r: Option<nat>)
    ensures r.Some? ==> i <= r.value && r.value + 2 <= |s|
    decreases |s| - i
  {
    if i + 2 > |s| then None
    else if s[i] == '{' && s[i + 1] == '$' then Some(i)
    else IndexOpen(s, i + 1)
  }

  /** Where c first is, from i on. */
  function IndexOf(s: string, c: char, i: nat): (r: Option<nat>)
    ensures r.Some? ==> i <= r.value < |s|
    decreases |s| - i
  {
    if i >= |s| then None else if s[i] == c then Some(i) else IndexOf(s, c, i + 1)
  }

  lemma {:induction false} IndexOpenIsFirst(s: string, i: nat)
    ensures var r := IndexOpen(s, i);
            && (r.Some? ==> s[r.value] == '{' && s[r.value + 1] == '$')
            && forall k :: i <= k < (if r.Some? then r.value else |s| - 1) ==> !(s[k] == '{' && s[k + 1] == '$')
    decreases |s| - i
  {
    if i + 2 <= |s| {
      IndexOpenIsFirst(s, i + 1);
    }
  }

  lemma {:induction false} IndexOfIsFirst(s: string, c: char, i: nat)
    ensures var r := IndexOf(s, c, i);
            && (r.Some? ==> s[r.value] == c)
            && forall k :: i <= k < (if r.Some? then r.value else |s|) ==> s[k] != c
    decreases |s| - i
  {
    if i < |s| {
      IndexOfIsFirst(s, c, i + 1);
    }
  }

  /** The first placeholder from i on, if it closes: where it begins, and where its "}" is. */
  function Span(s: string, i: nat): (r: Option<(nat, nat)>)
    ensures r.Some? ==> i <= r.value.0 && r.value.0 + 2 <= r.value.1 < |s|
  {
    var begin := IndexOpen(s, i);
    if begin.None? then None
    else
      var end := IndexOf(s, '}', begin.value + 2);
      if end.None? then None else Some((begin.value, end.value))
  }

  /** An unset variable's value: its default, or nothing. */
  function Default(name: string): string
  {
    var colon := IndexOf(name, ':', 0);
    if colon.None? then "" else name[colon.value + 1..]
  }

  /** The default is everything after the name's first colon. */
  lemma DefaultIsAfterColon(name: string, rest: string)
    requires ':' !in name
    ensures Default(name) == "" && Default(name + ":" + rest) == rest
  {
    var all := name + ":" + rest;
    IndexOfIsFirst(name, ':', 0);
    IndexOfIsFirst(all, ':', 0);
    assert all[|name|] == ':' && forall k :: 0 <= k < |name| ==> all[k] == name[k];
    assert IndexOf(all, ':', 0) == Some(|name|);
    assert all[|name| + 1..] == rest;
  }

  /** What stands for the placeholder at begin, closed at end: `{$}` is left as it is. */
  function ValueAt(buf: string, begin: nat, end: nat): string
    requires begin + 2 <= end < |buf|
  {
    if begin + 2 == end then "{$}" else Default(buf[begin + 2..end])
  }

  /** The buffer with a value in place of its bytes from begin through end, and where the value ends. */
  function Put(buf: string, begin: nat, end: nat, value: string): (r: (string, nat))
    requires begin <= end < |buf|
    ensures r.1 <= |r.0| && |r.0| - r.1 == |buf| - end - 1
  {
    (buf[..begin] + value + buf[end + 1..], begin + |value|)
  }

  /** One placeholder expanded Caddy's way: its value spliced into the buffer, and the scan to go on right after it,
      so that nothing of a default is expanded again. */
  function SpliceOne(buf: string, offset: nat): (r: Option<(string, nat)>)
    ensures r.Some? ==> r.value.1 <= |r.value.0| && |r.value.0| - r.value.1 < |buf| - offset
  {
    var span := Span(buf, offset);
    if span.None? then None
    else
      var (begin, end) := span.value;
      Some(Put(buf, begin, end, ValueAt(buf, begin, end)))
  }

  /** Caddy's expansion of a buffer from an offset on. */
  function Splice(buf: string, offset: nat): string
    requires offset <= |buf|
    decreases |buf| - offset
  {
    var next := SpliceOne(buf, offset);
    if next.None? then buf else Splice(next.value.0, next.value.1)
  }

  function Shift(i: Option<nat>, n: nat): Option<nat>
  {
    if i.None? then None else Some(i.value + n)
  }

  lemma {:induction false} OpenShifts(done: string, rest: string, i: nat)
    ensures IndexOpen(done + rest, |done| + i) == Shift(IndexOpen(rest, i), |done|)
    decreases |rest| - i
  {
    if i + 2 <= |rest| {
      OpenShifts(done, rest, i + 1);
    }
  }

  lemma {:induction false} IndexShifts(done: string, rest: string, c: char, i: nat)
    ensures IndexOf(done + rest, c, |done| + i) == Shift(IndexOf(rest, c, i), |done|)
    decreases |rest| - i
  {
    if i < |rest| {
      IndexShifts(done, rest, c, i + 1);
    }
  }

  /** What has been scanned takes no part in where the next placeholder is. */
  lemma SpanShifts(done: string, rest: string)
    ensures Span(rest, 0).None? ==> Span(done + rest, |done|).None?
    ensures Span(rest, 0).Some? ==>
              Span(done + rest, |done|) == Some((|done| + Span(rest, 0).value.0, |done| + Span(rest, 0).value.1))
  {
    OpenShifts(done, rest, 0);
    if IndexOpen(rest, 0).Some? {
      IndexShifts(done, rest, '}', IndexOpen(rest, 0).value + 2);
    }
  }

  lemma ValueShifts(done: string, rest: string, begin: nat, end: nat)
    requires begin + 2 <= end < |rest|
    ensures ValueAt(done + rest, |done| + begin, |done| + end) == ValueAt(rest, begin, end)
  {
    assert (done + rest)[|done| + begin + 2..|done| + end] == rest[begin + 2..end];
  }

  lemma PutShifts(done: string, rest: string, begin: nat, end: nat, value: string)
    requires begin <= end < |rest|
    ensures Put(done + rest, |done| + begin, |done| + end, value) ==
              ((done + (rest[..begin] + value)) + rest[end + 1..], |done + (rest[..begin] + value)|)
  {
    assert (done + rest)[..|done| + begin] == done + rest[..begin];
    assert (done + rest)[|done| + end + 1..] == rest[end + 1..];
    assert (done + rest[..begin]) + value == done + (rest[..begin] + value);
  }

  lemma SpliceOneIs(buf: string, offset: nat, begin: nat, end: nat, value: string)
    requires Span(buf, offset) == Some((begin, end)) && ValueAt(buf, begin, end) == value
    ensures SpliceOne(buf, offset) == Some(Put(buf, begin, end, value))
  {
  }

  lemma SpliceOneShifts(done: string, rest: string, begin: nat, end: nat)
    requires Span(rest, 0) == Some((begin, end))
    ensures SpliceOne(done + rest, |done|) ==
              Some(Put(done + rest, |done| + begin, |done| + end, ValueAt(rest, begin, end)))
  {
    var buf, n, value := done + rest, |done|, ValueAt(rest, begin, end);
    assert Span(buf, n) == Some((n + begin, n + end)) by {
      SpanShifts(done, rest);
    }
    assert ValueAt(buf, n + begin, n + end) == value by {
      ValueShifts(done, rest, begin, end);
    }
    SpliceOneIs(buf, n, n + begin, n + end, value);
  }

  /** A splice in a buffer whose first part has been scanned only moves where that part ends. */
  lemma SpliceOneOn(done: string, rest: string, begin: nat, end: nat, done': string)
    requires Span(rest, 0) == Some((begin, end)) && done' == done + (rest[..begin] + ValueAt(rest, begin, end))
    ensures SpliceOne(done + rest, |done|) == Some((done' + rest[end + 1..], |done'|))
  {
    SpliceOneShifts(done, rest, begin, end);
    PutShifts(done, rest, begin, end, ValueAt(rest, begin, end));
  }

  lemma SpliceOn(done: string, rest: string, done': string, rest': string)
    requires SpliceOne(done + rest, |done|) == Some((done' + rest', |done'|))
    ensures Splice(done + rest, |done|) == Splice(done' + rest', |done'|)
  {
  }

  /** The pass gives what splicing does, for every input. */
  method ExpandEmptyEnv(input: string) returns (out: string)
    ensures out == Splice(input, 0)
  {
    out := "";
    var rest := input;
    assert out + rest == input;
    while Span(rest, 0).Some?
      invariant Splice(out + rest, |out|) == Splice(input, 0)
      decreases |rest|
    {
      var (begin, end) := Span(rest, 0).value;
      var out' := out + (rest[..begin] + ValueAt(rest, begin, end));
      SpliceOneOn(out, rest, begin, end, out');
      SpliceOn(out, rest, out', rest[end + 1..]);
      out, rest := out', rest[end + 1..];
    }
    SpanShifts(out, rest);
    out := out + rest;
  }
}
