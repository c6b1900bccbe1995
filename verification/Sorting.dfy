/** Lists in the order of a key: sorting, and what tells a key given twice (Go's slices.SortFunc by a string key). */
module Sorting {
  import opened Strings

  function Insert<T>(key: T -> string, x: T, s: seq<T>): seq<T>
  {
    if s == [] then [x] else if Less(key(s[0]), key(x)) then [s[0]] + Insert(key, x, s[1..]) else [x] + s
  }

  function Sort<T>(key: T -> string, s: seq<T>): seq<T>
  {
    if s == [] then [] else Insert(key, s[0], Sort(key, s[1..]))
  }

  /** No two neighbours have the same key. */
  predicate NoTwins<T>(key: T -> string, s: seq<T>) { forall i :: 0 < i < |s| ==> key(s[i - 1]) != key(s[i]) }

  /** By key, no key twice. */
  predicate StrictlySorted<T>(key: T -> string, s: seq<T>)
  {
    forall i, j :: 0 <= i < j < |s| ==> Less(key(s[i]), key(s[j]))
  }

  ghost predicate WeaklySorted<T>(key: T -> string, s: seq<T>)
  {
    forall i, j :: 0 <= i < j < |s| ==> !Less(key(s[j]), key(s[i]))
  }

  lemma ConsSorted<T>(key: T -> string, x: T, s: seq<T>)
    requires WeaklySorted(key, s) && forall y :: y in s ==> !Less(key(y), key(x))
    ensures WeaklySorted(key, [x] + s)
  {
  }

  /** Nothing in a sorted list is below a key its first one is not below. */
  lemma FirstIsLeast<T>(key: T -> string, k: string, s: seq<T>, y: T)
    requires WeaklySorted(key, s) && y in s && !Less(key(s[0]), k)
    ensures !Less(key(y), k)
  {
    if Less(key(y), k) {
      LessTotal(key(s[0]), key(y));
      if Less(key(s[0]), key(y)) {
        LessTrans(key(s[0]), key(y), k);
      }
    }
  }

  lemma {:induction false} InsertSorts<T>(key: T -> string, x: T, s: seq<T>)
    requires WeaklySorted(key, s)
    ensures WeaklySorted(key, Insert(key, x, s)) && multiset(Insert(key, x, s)) == multiset{x} + multiset(s)
  {
    if s == [] {
    } else if Less(key(s[0]), key(x)) {
      assert s == [s[0]] + s[1..];
      var rest := Insert(key, x, s[1..]);
      InsertSorts(key, x, s[1..]);
      forall y | y in rest ensures !Less(key(y), key(s[0])) {
        assert y in multiset(rest);
        if y == x {
          LessIrreflexive(key(s[0]), key(x));
        } else {
          assert y in s[1..];
        }
      }
      ConsSorted(key, s[0], rest);
    } else {
      forall y | y in s ensures !Less(key(y), key(x)) {
        FirstIsLeast(key, key(x), s, y);
      }
      ConsSorted(key, x, s);
    }
  }

  lemma {:induction false} SortSorts<T>(key: T -> string, s: seq<T>)
    ensures WeaklySorted(key, Sort(key, s)) && multiset(Sort(key, s)) == multiset(s)
  {
    if s != [] {
      SortSorts(key, s[1..]);
      InsertSorts(key, s[0], Sort(key, s[1..]));
      assert s == [s[0]] + s[1..];
    }
  }

  /** Between two equal keys of a sorted list there is a pair of equal neighbours. */
  lemma TwinBetween<T>(key: T -> string, s: seq<T>, i: nat, j: nat)
    requires WeaklySorted(key, s) && i < j < |s| && key(s[i]) == key(s[j])
    ensures !NoTwins(key, s)
  {
    LessTotal(key(s[i]), key(s[i + 1]));
    var n := i + 1;
    assert key(s[n - 1]) == key(s[n]);
  }

  /** A sorted list with no two equal neighbours is strictly sorted. */
  lemma NoTwinsIsStrict<T>(key: T -> string, s: seq<T>)
    requires WeaklySorted(key, s) && NoTwins(key, s)
    ensures StrictlySorted(key, s)
  {
    forall i, j | 0 <= i < j < |s| ensures Less(key(s[i]), key(s[j])) {
      LessTotal(key(s[i]), key(s[j]));
      if key(s[i]) == key(s[j]) {
        TwinBetween(key, s, i, j);
      }
    }
  }

  /** Two lists of the same elements stay so when one element is taken from both. */
  lemma TakeOut<T>(s: seq<T>, t: seq<T>, k: nat)
    requires multiset(s) == multiset(t) && k < |t| && s != [] && t[k] == s[0]
    ensures multiset(s[1..]) == multiset(t[..k] + t[k + 1..])
  {
    assert s == [s[0]] + s[1..];
    assert t == t[..k] + [t[k]] + t[k + 1..];
    assert multiset(s[1..]) == multiset(s) - multiset{s[0]};
    assert multiset(t[..k] + t[k + 1..]) == multiset(t) - multiset{t[k]};
  }

  lemma SameFirst<T>(key: T -> string, s: seq<T>, t: seq<T>)
    requires StrictlySorted(key, s) && WeaklySorted(key, t) && multiset(s) == multiset(t) && s != [] && t != []
    ensures s[0] == t[0]
  {
    assert t[0] in multiset(s) && s[0] in multiset(t);
    var k :| 0 <= k < |s| && s[k] == t[0];
    var m :| 0 <= m < |t| && t[m] == s[0];
    if k > 0 {
      LessIrreflexive(key(s[0]), key(s[k]));
    }
  }

  /** There is one way to sort elements whose keys are distinct. */
  lemma {:induction false} SortedUnique<T>(key: T -> string, s: seq<T>, t: seq<T>)
    requires StrictlySorted(key, s) && WeaklySorted(key, t) && multiset(s) == multiset(t)
    ensures s == t
  {
    assert |multiset(s)| == |s| && |multiset(t)| == |t|;
    if s != [] {
      SameFirst(key, s, t);
      var s1, t1 := s[1..], t[1..];
      assert s == [s[0]] + s1 && t == [t[0]] + t1;
      assert multiset(s1) == multiset(t1) by {
        TakeOut(s, t, 0);
        assert t[..0] + t[1..] == t1;
      }
      SortedUnique(key, s1, t1);
    }
  }

  function Keys<T>(key: T -> string, s: seq<T>): set<string>
  {
    if s == [] then {} else {key(s[0])} + Keys(key, s[1..])
  }

  /** No key is given again later in the list. */
  predicate DistinctKeys<T>(key: T -> string, s: seq<T>)
  {
    s == [] || (key(s[0]) !in Keys(key, s[1..]) && DistinctKeys(key, s[1..]))
  }

  lemma {:induction false} InsertKeys<T>(key: T -> string, x: T, s: seq<T>)
    ensures Keys(key, Insert(key, x, s)) == {key(x)} + Keys(key, s)
    ensures DistinctKeys(key, Insert(key, x, s)) <==> key(x) !in Keys(key, s) && DistinctKeys(key, s)
  {
    if s == [] {
      assert [x][1..] == [];
    } else if Less(key(s[0]), key(x)) {
      InsertKeys(key, x, s[1..]);
      LessIrreflexive(key(s[0]), key(x));
      assert ([s[0]] + Insert(key, x, s[1..]))[1..] == Insert(key, x, s[1..]);
    } else {
      assert ([x] + s)[1..] == s;
    }
  }

  lemma {:induction false} SortKeys<T>(key: T -> string, s: seq<T>)
    ensures Keys(key, Sort(key, s)) == Keys(key, s) && (DistinctKeys(key, Sort(key, s)) <==> DistinctKeys(key, s))
  {
    if s != [] {
      SortKeys(key, s[1..]);
      InsertKeys(key, s[0], Sort(key, s[1..]));
    }
  }

  lemma {:induction false} KeyListed<T>(key: T -> string, s: seq<T>, k: string)
    ensures k in Keys(key, s) <==> exists i :: 0 <= i < |s| && key(s[i]) == k
  {
    if s != [] {
      var rest := s[1..];
      KeyListed(key, rest, k);
      if i :| 0 <= i < |rest| && key(rest[i]) == k {
        assert key(s[i + 1]) == k;
      }
      if j :| 0 < j < |s| && key(s[j]) == k {
        assert key(rest[j - 1]) == k;
      }
    }
  }

  /** In a sorted list, comparing neighbours finds every key given twice. */
  lemma {:induction false} TwinsAreRepeats<T>(key: T -> string, s: seq<T>)
    requires WeaklySorted(key, s)
    ensures NoTwins(key, s) <==> DistinctKeys(key, s)
  {
    if s != [] {
      var rest := s[1..];
      TwinsAreRepeats(key, rest);
      KeyListed(key, rest, key(s[0]));
      assert forall i :: 0 < i < |rest| ==> rest[i - 1] == s[i] && rest[i] == s[i + 1];
      assert NoTwins(key, s) ==> NoTwins(key, rest);
      if key(s[0]) in Keys(key, rest) {
        var i :| 0 <= i < |rest| && key(rest[i]) == key(s[0]);
        TwinBetween(key, s, 0, i + 1);
      } else if NoTwins(key, rest) {
        forall i | 0 < i < |s| ensures key(s[i - 1]) != key(s[i]) {
          if i == 1 {
            assert rest[0] == s[1];
          } else {
            assert rest[i - 2] == s[i - 1] && rest[i - 1] == s[i];
          }
        }
      }
    }
  }

  function Itself(s: string): string { s }

  /** A set's members in order. */
  method Ordered(s: set<string>) returns (list: seq<string>)
    ensures StrictlySorted(Itself, list) && forall x :: x in list <==> x in s
  {
    list := [];
    var left := s;
    while left != {}
      invariant left <= s && WeaklySorted(Itself, list) && DistinctKeys(Itself, list) && Keys(Itself, list) == s - left
      decreases left
    {
      var x :| x in left;
      InsertSorts(Itself, x, list);
      InsertKeys(Itself, x, list);
      list, left := Insert(Itself, x, list), left - {x};
    }
    TwinsAreRepeats(Itself, list);
    NoTwinsIsStrict(Itself, list);
    forall x ensures x in list <==> x in s {
      KeyListed(Itself, list, x);
    }
  }
}
