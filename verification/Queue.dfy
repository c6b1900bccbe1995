/** The order a run takes its bundles in (box/apply.go, take): by the time of their push's marker, those with no marker
    that reads last, and otherwise by name. */
module Queue {
  import opened Box
  import opened Retention
  import opened Strings

  predicate Sooner(posted: map<Id, Time>, x: Id, y: Id)
  {
    if x !in posted then y !in posted && Less(x, y)
    else y !in posted || posted[x] < posted[y] || (posted[x] == posted[y] && Less(x, y))
  }

  lemma SoonerTrans(posted: map<Id, Time>, x: Id, y: Id, z: Id)
    requires Sooner(posted, x, y) && Sooner(posted, y, z)
    ensures Sooner(posted, x, z)
  {
    if Less(x, y) && Less(y, z) {
      LessTrans(x, y, z);
    }
  }

  lemma SoonerTotal(posted: map<Id, Time>, x: Id, y: Id)
    ensures Sooner(posted, x, y) || x == y || Sooner(posted, y, x)
  {
    LessTotal(x, y);
  }

  /** Each comes before every one after it. */
  ghost predicate InTurn(posted: map<Id, Time>, s: seq<Id>)
  {
    forall i, j :: 0 <= i < j < |s| ==> Sooner(posted, s[i], s[j])
  }

  function Members(s: seq<Id>): set<Id> { set x | x in s }

  /** One more in its place. */
  method Enqueue(posted: map<Id, Time>, s: seq<Id>, x: Id) returns (s': seq<Id>)
    requires InTurn(posted, s) && x !in s
    ensures InTurn(posted, s') && |s'| == |s| + 1 && Members(s') == Members(s) + {x}
  {
    var i := 0;
    while i < |s| && Sooner(posted, s[i], x)
      invariant i <= |s| && forall j :: 0 <= j < i ==> Sooner(posted, s[j], x)
    {
      i := i + 1;
    }
    forall j | i <= j < |s| ensures Sooner(posted, x, s[j]) {
      SoonerTotal(posted, s[i], x);
      if j > i {
        SoonerTrans(posted, x, s[i], s[j]);
      }
    }
    assert s == s[..i] + s[i..];
    s' := s[..i] + [x] + s[i..];
  }

  method Order(posted: map<Id, Time>, ids: set<Id>) returns (s: seq<Id>)
    ensures InTurn(posted, s) && Members(s) == ids && |s| == |ids|
  {
    s := [];
    var left := ids;
    while left != {}
      invariant left <= ids && InTurn(posted, s) && Members(s) == ids - left && |s| + |left| == |ids|
      decreases left
    {
      var x :| x in left;
      s := Enqueue(posted, s, x);
      left := left - {x};
    }
  }

  /** The first comes once: what is left without it is the rest. */
  lemma FirstLeaves(posted: map<Id, Time>, s: seq<Id>)
    requires InTurn(posted, s) && s != []
    ensures Members(s) - {s[0]} == Members(s[1..]) && InTurn(posted, s[1..])
  {
    if s[0] in s[1..] {
      var j :| 0 < j < |s| && s[j] == s[0];
      assert Sooner(posted, s[0], s[j]);
      LessIrreflexive(s[0], s[j]);
    }
    assert forall x :: x in s <==> x == s[0] || x in s[1..];
  }
}
