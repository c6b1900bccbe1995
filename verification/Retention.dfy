/** Which markers block the next push, which are settled as stranded, and which ids a sweep keeps (box/retention.go;
    box/admission.go, pending).  Times are nanoseconds since the zero time; differences are Go's 64-bit durations. */
module Retention {
  import opened Box
  import opened Options
  import opened Strings

  const MIN_DURATION := -0x8000_0000_0000_0000
  const MAX_DURATION := 0x7FFF_FFFF_FFFF_FFFF
  const PENDING_AGE := 1_800_000_000_000
  const KEEP_AGE := 86_400_000_000_000
  const KEEP_IDS := 32

  type Time = int

  /** time.Time.Sub: the difference, at the nearest end of a duration's range when it is past it. */
  function Sub(t: Time, u: Time): int
  {
    if t - u < MIN_DURATION then MIN_DURATION else if t - u > MAX_DURATION then MAX_DURATION else t - u
  }

  /** A duration's negation: the least one is its own. */
  function Neg(d: int): int
  {
    if d == MIN_DURATION then d else -d
  }

  // ----- a marker with no result, of a push nowhere to be found

  /** It keeps the next push out. */
  predicate Blocks(posted: Time, now: Time)
  {
    var age := Sub(now, posted);
    !(age >= PENDING_AGE || Neg(age) > PENDING_AGE)
  }

  /** What the sweep takes it to be dated: one too far ahead of the clock, at the zero time. */
  function MarkerKey(posted: Time, now: Time): Time
  {
    if Sub(posted, now) > PENDING_AGE then 0 else posted
  }

  /** The sweep settles it. */
  predicate Stranded(posted: Time, now: Time) { Sub(now, MarkerKey(posted, now)) >= PENDING_AGE }

  /** The two are complements exactly when the marker is dated less than a duration's range ahead of the clock: beyond
      that the age's negation wraps, and the marker blocks as well. */
  lemma BlocksOrStranded(posted: Time, now: Time)
    requires now >= PENDING_AGE
    ensures (Blocks(posted, now) <==> !Stranded(posted, now)) <==> posted - now <= MAX_DURATION
    ensures Blocks(posted, now) || Stranded(posted, now)
  {
  }

  /** A marker dated 300 years ahead, in 2026, is both. */
  lemma BothAtOnce()
    ensures var now := 63_900_000_000 * 1_000_000_000;
            var posted := now + 300 * 31_536_000 * 1_000_000_000;
            Blocks(posted, now) && Stranded(posted, now)
  {
  }

  // ----- the sweep's decision

  /** One id: when its result was written, and when its marker is dated, if it has one. */
  datatype IdState = IdState(result: Option<Time>, marker: Option<Time>)

  function Key(s: IdState, now: Time): Time
  {
    match s
    case IdState(Some(written), _) => if written < now then written else now
    case IdState(None, Some(posted)) => MarkerKey(posted, now)
    case IdState(None, None) => 0
  }

  type Ids = map<Id, IdState>

  /** The ids the sweep judges: those with a result, and the stranded ones that this run did not answer. */
  function Candidates(ids: Ids, mine: set<Id>, busy: set<Id>, now: Time): set<Id>
  {
    set id | id in ids &&
             (ids[id].result.Some? || (id !in mine && id !in busy && Sub(now, Key(ids[id], now)) >= PENDING_AGE))
  }

  /** Newest first, ties by id. */
  predicate Newer(ids: Ids, now: Time, x: Id, y: Id)
    requires x in ids && y in ids
  {
    Key(ids[x], now) > Key(ids[y], now) || (Key(ids[x], now) == Key(ids[y], now) && Less(x, y))
  }

  lemma NewerTrans(ids: Ids, now: Time, x: Id, y: Id, z: Id)
    requires x in ids && y in ids && z in ids && Newer(ids, now, x, y) && Newer(ids, now, y, z)
    ensures Newer(ids, now, x, z)
  {
    if Key(ids[x], now) == Key(ids[z], now) {
      LessTrans(x, y, z);
    }
  }

  lemma NewerTotal(ids: Ids, now: Time, x: Id, y: Id)
    requires x in ids && y in ids
    ensures Newer(ids, now, x, y) || x == y || Newer(ids, now, y, x)
    ensures Newer(ids, now, x, y) ==> x != y && !Newer(ids, now, y, x)
  {
    LessTotal(x, y);
    if Less(x, y) {
      LessIrreflexive(x, y);
    }
  }

  /** How many of the candidates are newer. */
  function Rank(ids: Ids, now: Time, cs: set<Id>, id: Id): nat
    requires id in ids && cs <= ids.Keys
  {
    |set x | x in cs && Newer(ids, now, x, id)|
  }

  predicate Keeps(ids: Ids, now: Time, cs: set<Id>, mine: set<Id>, id: Id)
    requires id in ids && cs <= ids.Keys
  {
    id in mine || (Rank(ids, now, cs, id) < KEEP_IDS && Sub(now, Key(ids[id], now)) < KEEP_AGE)
  }

  /** The newest of some ids. */
  method Newest(ids: Ids, now: Time, left: set<Id>) returns (id: Id)
    requires left != {} && left <= ids.Keys
    ensures id in left && forall x :: x in left && x != id ==> Newer(ids, now, id, x)
  {
    id :| id in left;
    var rest := left - {id};
    while rest != {}
      invariant rest <= left && id in left && id !in rest
      invariant forall x :: x in left - rest && x != id ==> Newer(ids, now, id, x)
      decreases rest
    {
      var y :| y in rest;
      NewerTotal(ids, now, id, y);
      if Newer(ids, now, y, id) {
        forall x | x in left - rest && x != id ensures Newer(ids, now, y, x) {
          NewerTrans(ids, now, y, id, x);
        }
        id := y;
      }
      rest := rest - {y};
    }
  }

  /** The candidates in turn, newest first: the 32 newest that are young enough stay, and those this run answered. */
  method Decide(ids: Ids, mine: set<Id>, busy: set<Id>, now: Time) returns (cs: set<Id>, keep: set<Id>)
    ensures cs == Candidates(ids, mine, busy, now)
    ensures forall id :: id in keep <==> id in cs && Keeps(ids, now, cs, mine, id)
    ensures |keep - mine| <= KEEP_IDS
  {
    cs := Candidates(ids, mine, busy, now);
    keep := {};
    var left, n := cs, 0;
    while left != {}
      invariant left <= cs && n == |cs - left| && Sorted(ids, now, cs, left)
      invariant forall id :: id in keep <==> id in cs - left && Keeps(ids, now, cs, mine, id)
      decreases left
    {
      var id := Newest(ids, now, left);
      RankIsPlace(ids, now, cs, left, id);
      if id in mine || (n < KEEP_IDS && Sub(now, Key(ids[id], now)) < KEEP_AGE) {
        keep := keep + {id};
      }
      assert cs - (left - {id}) == cs - left + {id};
      left, n := left - {id}, n + 1;
    }
    KeepsFew(ids, now, cs, mine, keep);
  }

  /** Those already seen are newer than those left. */
  ghost predicate Sorted(ids: Ids, now: Time, cs: set<Id>, left: set<Id>)
    requires left <= cs <= ids.Keys
  {
    forall x, y :: x in cs - left && y in left ==> Newer(ids, now, x, y)
  }

  lemma RankIsPlace(ids: Ids, now: Time, cs: set<Id>, left: set<Id>, id: Id)
    requires left <= cs <= ids.Keys && id in left
    requires forall x :: x in cs - left ==> Newer(ids, now, x, id)
    requires forall x :: x in left && x != id ==> Newer(ids, now, id, x)
    ensures Rank(ids, now, cs, id) == |cs - left|
  {
    forall x | x in cs ensures Newer(ids, now, x, id) <==> x in cs - left {
      NewerTotal(ids, now, x, id);
    }
    assert (set x | x in cs && Newer(ids, now, x, id)) == cs - left;
  }

  /** Any number of the newest are no more than that. */
  lemma {:induction false} FewRankBelow(ids: Ids, now: Time, cs: set<Id>, s: set<Id>, n: nat)
    requires s <= cs <= ids.Keys && forall x :: x in s ==> Rank(ids, now, cs, x) < n
    ensures |s| <= n
  {
    if s != {} {
      var last := Oldest(ids, now, s);
      var newer := set x | x in cs && Newer(ids, now, x, last);
      assert s - {last} <= newer;
      SubsetSize(s - {last}, newer);
    }
  }

  lemma {:induction false} Oldest(ids: Ids, now: Time, s: set<Id>) returns (id: Id)
    requires s != {} && s <= ids.Keys
    ensures id in s && forall x :: x in s && x != id ==> Newer(ids, now, x, id)
  {
    id :| id in s;
    if s != {id} {
      var y := Oldest(ids, now, s - {id});
      NewerTotal(ids, now, id, y);
      if Newer(ids, now, id, y) {
        id := y;
      } else {
        forall x | x in s && x != id ensures Newer(ids, now, x, id) {
          if x != y {
            NewerTrans(ids, now, x, y, id);
          }
        }
      }
    }
  }

  lemma {:induction false} SubsetSize<T>(a: set<T>, b: set<T>)
    requires a <= b
    ensures |a| <= |b|
  {
    if a != {} {
      var x :| x in a;
      SubsetSize(a - {x}, b - {x});
    }
  }

  /** A sweep keeps at most 32 ids that this run did not answer. */
  lemma KeepsFew(ids: Ids, now: Time, cs: set<Id>, mine: set<Id>, keep: set<Id>)
    requires keep <= cs <= ids.Keys && forall id :: id in keep ==> Keeps(ids, now, cs, mine, id)
    ensures |keep - mine| <= KEEP_IDS
  {
    FewRankBelow(ids, now, cs, keep - mine, KEEP_IDS);
  }
}
