/** The env files the box writes and every launch reads (liveswap/app.go, parseEnvLines and RenderEnvFile). */
module EnvFile {
  import opened Options
  import opened Sorting
  import opened Strings

  predicate KeyStart(c: char) { 'A' <= c <= 'Z' || 'a' <= c <= 'z' || c == '_' }
  predicate KeyChar(c: char) { KeyStart(c) || '0' <= c <= '9' }

  /** What systemd accepts as a variable's name. */
  predicate ValidEnvKey(key: string)
  {
    key != "" && KeyStart(key[0]) && forall i :: 0 <= i < |key| ==> KeyChar(key[i])
  }

  /** The names the shell every app runs behind sets for itself. */
  predicate ShellOwned(key: string) { key in {"IFS", "OPTIND", "PPID", "PWD"} }

  /** A name an env file may carry. */
  predicate CarriesKey(key: string) { ValidEnvKey(key) && !ShellOwned(key) }

  datatype Pair = Pair(key: string, value: string)

  function KeyOf(p: Pair): string { p.key }

  function Assignment(p: Pair): string { p.key + "=" + p.value }

  // ----- reading

  /** One pair of matching quotes around the value goes; nothing else is undone. */
  function Unquote(v: string): string
  {
    if |v| >= 2 && (v[0] == v[|v| - 1] == '"' || v[0] == v[|v| - 1] == '\'') then v[1..|v| - 1] else v
  }

  datatype LineRead = Skip | Bad | Var(pair: Pair)

  function ReadLine(raw: string): LineRead
  {
    var line := Trim(raw);
    if line == "" || line[0] == '#' then Skip
    else
      var (key0, value, found) := Cut(TrimPrefix(line, "export "), '=');
      var key := Trim(key0);
      if !found || key == "" || !CarriesKey(key) then Bad
      else Var(Pair(key, Unquote(Trim(value))))
  }

  /** The assignments of a file's lines, in order; nothing if one of them is not an assignment. */
  function ReadLines(lines: seq<string>): Option<seq<Pair>>
  {
    if lines == [] then Some([])
    else
      match (ReadLine(lines[0]), ReadLines(lines[1..]))
      case (Bad, _) => None
      case (_, None) => None
      case (Skip, Some(rest)) => Some(rest)
      case (Var(p), Some(rest)) => Some([p] + rest)
  }

  lemma ReadCons(l: string, rest: seq<string>)
    ensures ReadLines([l] + rest) == match ReadLine(l)
                                     case Bad => None
                                     case Skip => ReadLines(rest)
                                     case Var(p) => After([p], ReadLines(rest))
  {
    assert ([l] + rest)[1..] == rest;
  }

  function After(read: seq<Pair>, rest: Option<seq<Pair>>): Option<seq<Pair>>
  {
    if rest.None? then None else Some(read + rest.value)
  }

  /** The environment a file gives, or nothing if a line of it does not read. */
  method ParseEnvLines(data: string) returns (vars: Option<seq<string>>)
    ensures var read := ReadLines(Lines(data));
            vars == if read.None? then None else Some(Assignments(read.value))
  {
    var lines := Lines(data);
    var out: seq<string> := [];
    ghost var read: seq<Pair> := [];
    assert lines[0..] == lines;
    assert ReadLines(lines) == After([], ReadLines(lines)) by {
      if ReadLines(lines).Some? { assert [] + ReadLines(lines).value == ReadLines(lines).value; }
    }
    for i := 0 to |lines|
      invariant ReadLines(lines) == After(read, ReadLines(lines[i..])) && out == Assignments(read)
    {
      ReadAt(read, lines, i);
      match ReadLine(lines[i]) {
        case Skip =>
        case Bad =>
          return None;
        case Var(p) =>
          out := out + [Assignment(p)];
          read := read + [p];
      }
    }
    assert read + [] == read;
    return Some(out);
  }

  lemma ReadAt(read: seq<Pair>, lines: seq<string>, i: nat)
    requires i < |lines|
    ensures After(read, ReadLines(lines[i..])) == match ReadLine(lines[i])
                                                  case Bad => None
                                                  case Skip => After(read, ReadLines(lines[i + 1..]))
                                                  case Var(p) => After(read + [p], ReadLines(lines[i + 1..]))
  {
    assert lines[i..] == [lines[i]] + lines[i + 1..];
    ReadCons(lines[i], lines[i + 1..]);
    if ReadLine(lines[i]).Var? {
      AfterOne(read, ReadLine(lines[i]).pair, ReadLines(lines[i + 1..]));
    }
  }

  lemma AfterOne(read: seq<Pair>, p: Pair, rest: Option<seq<Pair>>)
    ensures After(read, After([p], rest)) == After(read + [p], rest)
  {
    if rest.Some? {
      assert read + ([p] + rest.value) == (read + [p]) + rest.value;
    }
  }

  function Assignments(ps: seq<Pair>): seq<string> { seq(|ps|, i requires 0 <= i < |ps| => Assignment(ps[i])) }

  // ----- writing

  /** A value an env file can carry: on one line, with no NUL. */
  predicate CarriesValue(v: string) { forall i :: 0 <= i < |v| ==> v[i] != '\n' && v[i] != '\r' && v[i] != '\0' }

  function RenderLine(p: Pair): string { p.key + "=\"" + p.value + "\"" }

  function RenderPairs(ps: seq<Pair>): string
  {
    if ps == [] then "" else RenderLine(ps[0]) + "\n" + RenderPairs(ps[1..])
  }

  ghost predicate Carried(ps: seq<Pair>)
  {
    forall i :: 0 <= i < |ps| ==> CarriesKey(ps[i].key) && CarriesValue(ps[i].value)
  }

  // ----- what is written reads back

  lemma TrimNothing(s: string)
    requires s != "" ==> !IsSpace(s[0]) && !IsSpace(s[|s| - 1])
    ensures Trim(s) == s
  {
  }

  lemma RenderedLineReads(p: Pair)
    requires CarriesKey(p.key) && CarriesValue(p.value)
    ensures ReadLine(RenderLine(p)) == Var(p)
  {
    var line := RenderLine(p);
    var quoted := "\"" + p.value + "\"";
    assert line == p.key + ['='] + quoted;
    TrimNothing(line);
    if |p.key| <= 6 { // no key's line begins with the export prefix
      assert line[|p.key|] == '=' && "export "[|p.key|] != '=';
    } else {
      assert line[6] == p.key[6] && "export "[6] == ' ';
    }
    assert TrimPrefix(line, "export ") == line;
    assert '=' !in p.key;
    CutAt(p.key, '=', quoted);
    TrimNothing(p.key);
    TrimNothing(quoted);
    assert quoted[1..|quoted| - 1] == p.value;
  }

  lemma RenderedLineIsOne(p: Pair)
    requires CarriesKey(p.key) && CarriesValue(p.value)
    ensures '\n' !in RenderLine(p)
  {
  }

  lemma {:induction false} RenderedPairsRead(ps: seq<Pair>)
    requires Carried(ps)
    ensures ReadLines(Lines(RenderPairs(ps))) == Some(ps)
  {
    if ps == [] {
      assert [""][1..] == [];
      assert ReadLines([""]) == Some([]);
    } else {
      var rest := Lines(RenderPairs(ps[1..]));
      RenderedPairsRead(ps[1..]);
      RenderedLineReads(ps[0]);
      RenderedLineIsOne(ps[0]);
      LinesOf(RenderLine(ps[0]), RenderPairs(ps[1..]));
      ReadCons(RenderLine(ps[0]), rest);
      assert [ps[0]] + ps[1..] == ps;
    }
  }

  /** Blank, or a comment, whatever white space is around it. */
  predicate IsComment(line: string) { TrimLeft(line) == "" || TrimLeft(line)[0] == '#' }

  lemma {:induction false} TrimRightKeepsFirst(s: string)
    requires s != "" && !IsSpace(s[0])
    ensures TrimRight(s) != "" && TrimRight(s)[0] == s[0]
  {
    if IsSpace(s[|s| - 1]) {
      TrimRightKeepsFirst(s[..|s| - 1]);
    }
  }

  /** A file with a blank line or a comment ahead of it reads the same. */
  lemma HeaderIsSkipped(header: string, body: string)
    requires IsComment(header) && '\n' !in header
    ensures ReadLines(Lines(header + "\n" + body)) == ReadLines(Lines(body))
  {
    LinesOf(header, body);
    if TrimLeft(header) != "" {
      TrimRightKeepsFirst(TrimLeft(header));
    }
    ReadCons(header, Lines(body));
  }

  // ----- from a list of assignments in any order

  /** The pairs a list of KEY=VALUE strings gives, if every key is one an env file may carry. */
  function PairsOf(vars: seq<string>): Option<seq<Pair>>
  {
    if vars == [] then Some([])
    else
      var (key, value, found) := Cut(vars[0], '=');
      if !found || !CarriesKey(key) then None else After([Pair(key, value)], PairsOf(vars[1..]))
  }

  predicate CarriesValues(ps: seq<Pair>) { forall i :: 0 <= i < |ps| ==> CarriesValue(ps[i].value) }

  /** The env file for a list of assignments: nothing for a key or a value it cannot carry, or a key given twice. */
  function Render(vars: seq<string>): Option<string>
  {
    var ps := PairsOf(vars);
    if ps.None? then None
    else
      var s := Sort(KeyOf, ps.value);
      if NoTwins(KeyOf, s) && CarriesValues(s) then Some(RenderPairs(s)) else None
  }

  method RenderEnvFile(vars: seq<string>) returns (data: Option<string>)
    ensures data == Render(vars)
  {
    var pairs: seq<Pair> := [];
    assert vars[0..] == vars;
    assert PairsOf(vars) == After([], PairsOf(vars)) by {
      if PairsOf(vars).Some? { assert [] + PairsOf(vars).value == PairsOf(vars).value; }
    }
    for i := 0 to |vars|
      invariant PairsOf(vars) == After(pairs, PairsOf(vars[i..]))
    {
      assert vars[i..][0] == vars[i] && vars[i..][1..] == vars[i + 1..];
      var (key, value, found) := Cut(vars[i], '=');
      if !found || !CarriesKey(key) {
        return None;
      }
      AfterOne(pairs, Pair(key, value), PairsOf(vars[i + 1..]));
      pairs := pairs + [Pair(key, value)];
    }
    assert pairs + [] == pairs;
    data := WritePairs(Sort(KeyOf, pairs));
  }

  method WritePairs(s: seq<Pair>) returns (data: Option<string>)
    ensures data == if NoTwins(KeyOf, s) && CarriesValues(s) then Some(RenderPairs(s)) else None
  {
    var out := "";
    assert s[0..] == s;
    for i := 0 to |s|
      invariant out + RenderPairs(s[i..]) == RenderPairs(s)
      invariant forall j :: 0 < j < i ==> s[j - 1].key != s[j].key
      invariant forall j :: 0 <= j < i ==> CarriesValue(s[j].value)
    {
      if i > 0 && s[i].key == s[i - 1].key {
        return None;
      }
      if !CarriesValue(s[i].value) {
        return None;
      }
      assert s[i..][0] == s[i] && s[i..][1..] == s[i + 1..];
      assert out + (RenderLine(s[i]) + "\n" + RenderPairs(s[i + 1..])) ==
        (out + (RenderLine(s[i]) + "\n")) + RenderPairs(s[i + 1..]);
      out := out + (RenderLine(s[i]) + "\n");
    }
    assert out + "" == out;
    return Some(out);
  }

  lemma ValuesPermute(ps: seq<Pair>, qs: seq<Pair>)
    requires multiset(ps) == multiset(qs) && CarriesValues(ps)
    ensures CarriesValues(qs)
  {
    forall i | 0 <= i < |qs| ensures CarriesValue(qs[i].value) {
      assert qs[i] in multiset(ps);
      var j :| 0 <= j < |ps| && ps[j] == qs[i];
    }
  }

  /** A list renders exactly when its keys and values can be carried and no key is given twice. */
  lemma RendersWhen(vars: seq<string>)
    ensures Render(vars).Some? <==>
            PairsOf(vars).Some? && DistinctKeys(KeyOf, PairsOf(vars).value) && CarriesValues(PairsOf(vars).value)
  {
    if PairsOf(vars).Some? {
      var ps := PairsOf(vars).value;
      SortSorts(KeyOf, ps);
      SortKeys(KeyOf, ps);
      TwinsAreRepeats(KeyOf, Sort(KeyOf, ps));
      if CarriesValues(ps) {
        ValuesPermute(ps, Sort(KeyOf, ps));
      }
      if CarriesValues(Sort(KeyOf, ps)) {
        ValuesPermute(Sort(KeyOf, ps), ps);
      }
    }
  }

  /** Every list that renders reads back as exactly its pairs, sorted by key. */
  lemma RenderReadsBack(vars: seq<string>)
    requires Render(vars).Some?
    ensures PairsOf(vars).Some?
    ensures var s := Sort(KeyOf, PairsOf(vars).value);
            && StrictlySorted(KeyOf, s) && multiset(Assignments(s)) == multiset(vars)
            && ReadLines(Lines(Render(vars).value)) == Some(s)
  {
    var s := Sort(KeyOf, PairsOf(vars).value);
    SortSorts(KeyOf, PairsOf(vars).value);
    NoTwinsIsStrict(KeyOf, s);
    PairsAssign(vars);
    AssignmentsPermute(s, PairsOf(vars).value);
    forall i | 0 <= i < |s| ensures CarriesKey(s[i].key) {
      assert s[i] in multiset(PairsOf(vars).value);
      var j :| 0 <= j < |PairsOf(vars).value| && PairsOf(vars).value[j] == s[i];
    }
    RenderedPairsRead(s);
  }

  lemma {:induction false} PairsAssign(vars: seq<string>)
    requires PairsOf(vars).Some?
    ensures Assignments(PairsOf(vars).value) == vars
    ensures forall i :: 0 <= i < |PairsOf(vars).value| ==> CarriesKey(PairsOf(vars).value[i].key)
  {
    if vars != [] {
      PairsAssign(vars[1..]);
      assert vars == [vars[0]] + vars[1..];
    }
  }

  lemma {:induction false} AssignmentsPermute(ps: seq<Pair>, qs: seq<Pair>)
    requires multiset(ps) == multiset(qs)
    ensures multiset(Assignments(ps)) == multiset(Assignments(qs))
  {
    if ps == [] {
      assert |multiset(qs)| == |qs|;
    } else {
      assert ps[0] in multiset(qs);
      var k :| 0 <= k < |qs| && qs[k] == ps[0];
      var rest := qs[..k] + qs[k + 1..];
      TakeOut(ps, qs, k);
      AssignmentsPermute(ps[1..], rest);
      assert Assignments(qs) == Assignments(qs[..k]) + [Assignment(qs[k])] + Assignments(qs[k + 1..]);
      assert Assignments(rest) == Assignments(qs[..k]) + Assignments(qs[k + 1..]);
      assert Assignments(ps) == [Assignment(ps[0])] + Assignments(ps[1..]);
    }
  }

  lemma {:induction false} PairsConcat(us: seq<string>, vs: seq<string>)
    ensures PairsOf(us + vs) == if PairsOf(us).None? then None else After(PairsOf(us).value, PairsOf(vs))
  {
    if us == [] {
      assert us + vs == vs;
      if PairsOf(vs).Some? { assert [] + PairsOf(vs).value == PairsOf(vs).value; }
    } else {
      assert (us + vs)[1..] == us[1..] + vs;
      PairsConcat(us[1..], vs);
      var (key, value, _) := Cut(us[0], '=');
      if PairsOf(us[1..]).Some? && PairsOf(vs).Some? {
        assert [Pair(key, value)] + (PairsOf(us[1..]).value + PairsOf(vs).value) ==
          ([Pair(key, value)] + PairsOf(us[1..]).value) + PairsOf(vs).value;
      }
    }
  }

  /** One assignment in the middle of a list gives one pair more, and nothing else. */
  lemma PairsInMiddle(us: seq<string>, v: string, vs: seq<string>)
    ensures PairsOf(us + ([v] + vs)).Some? <==> PairsOf([v]).Some? && PairsOf(us + vs).Some?
    ensures PairsOf([v]).Some? ==> |PairsOf([v]).value| == 1
    ensures PairsOf(us + ([v] + vs)).Some? ==>
              multiset(PairsOf(us + ([v] + vs)).value) ==
              multiset(PairsOf([v]).value) + multiset(PairsOf(us + vs).value)
  {
    PairsConcat(us, vs);
    PairsConcat([v], vs);
    PairsConcat(us, [v] + vs);
    assert [v][1..] == [];
  }

  lemma {:induction false} PairsPermute(us: seq<string>, vs: seq<string>)
    requires multiset(us) == multiset(vs) && PairsOf(us).Some?
    ensures PairsOf(vs).Some? && multiset(PairsOf(vs).value) == multiset(PairsOf(us).value)
  {
    assert |multiset(us)| == |us| && |multiset(vs)| == |vs|;
    if us != [] {
      assert us[0] in multiset(vs);
      var k :| 0 <= k < |vs| && vs[k] == us[0];
      var head, tail := vs[..k], vs[k + 1..];
      assert vs == head + ([us[0]] + tail);
      assert us == [] + ([us[0]] + us[1..]) && [] + us[1..] == us[1..];
      TakeOut(us, vs, k);
      PairsInMiddle([], us[0], us[1..]);
      PairsPermute(us[1..], head + tail);
      PairsInMiddle(head, us[0], tail);
    }
  }

  lemma RendersAlike(us: seq<string>, vs: seq<string>)
    requires multiset(us) == multiset(vs) && Render(us).Some?
    ensures Render(vs) == Render(us)
  {
    PairsPermute(us, vs);
    var ps, qs := PairsOf(us).value, PairsOf(vs).value;
    SortSorts(KeyOf, ps);
    SortSorts(KeyOf, qs);
    NoTwinsIsStrict(KeyOf, Sort(KeyOf, ps));
    SortedUnique(KeyOf, Sort(KeyOf, ps), Sort(KeyOf, qs));
  }

  /** The file does not depend on the order the assignments are given in. */
  lemma RenderIgnoresOrder(us: seq<string>, vs: seq<string>)
    requires multiset(us) == multiset(vs)
    ensures Render(us) == Render(vs)
  {
    if Render(us).Some? {
      RendersAlike(us, vs);
    } else if Render(vs).Some? {
      RendersAlike(vs, us);
    }
  }
}
