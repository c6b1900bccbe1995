/** An app's releases, deploy records, deploy marker, state.json and running units, as single steps
    (liveswap/deploying.go, liveswap/app.go): what may follow what, and what holds over every run of such steps.

    Nothing of motel's memory is here, so a run goes on over a crash and the next start; module Deploy shows that
    the code makes only such steps. */
module Releases {
  import opened Box
  import opened Options

  type Version = string

  /** When a deploy began: no two begin at once. */
  type Time = nat

  datatype Marker = Marker(version: Version, start: Time)

  /** Each release with the start of the deploy that extracted it, each record with the start of the deploy it is
      of, and each unit that may be running with its version.  `began` is the version each deploy is of, `logged`
      every deploy that has ever had a record; `failed` says that removing the marker has failed. */
  datatype Site = Site(releases: map<Version, Time>, records: map<Version, Time>, marker: Option<Marker>,
                       current: Option<Version>, units: map<Time, Version>,
                       clock: Time, began: map<Time, Version>, logged: set<Time>, failed: bool)

  datatype Event =
    | Begins(v: Version)
    | Marks(m: Marker)
    | Extracts(m: Marker)
    | Logs(v: Version, t: Time)
    | Clears
    | ClearFails
    | Settles(m: Marker, stateRead: bool) // the release of a deploy no motel finished is removed
    | CleansUp(m: Marker) // a failed deploy removes the release it extracted
    | Collects(v: Version) // release GC
    | Starts(u: Time, v: Version)
    | Stops(u: Time)
    | Names(v: Version) // state.json

  /** No unit runs out of the release. */
  ghost predicate Unused(s: Site, v: Version) { forall u :: u in s.units ==> s.units[u] != v }

  ghost predicate Next(s: Site, ev: Event, s': Site)
  {
    match ev
    case Begins(v) => s' == s.(clock := s.clock + 1, began := s.began[s.clock := v])
    case Marks(m) =>
      && m.version !in s.releases && Lookup(s.began, m.start) == Some(m.version) && m.start !in s.logged
      && s' == s.(marker := Some(m))
    case Extracts(m) =>
      s.marker == Some(m) && m.version !in s.releases && s' == s.(releases := s.releases[m.version := m.start])
    case Logs(v, t) =>
      && Lookup(s.began, t) == Some(v)
      && (!s.failed && s.marker.Some? && s.marker.value.version == v ==> s.marker.value.start == t)
      && s' == s.(records := s.records[v := t], logged := s.logged + {t})
    case Clears => s' == s.(marker := None)
    case ClearFails => s' == s.(failed := true)
    case Settles(m, stateRead) =>
      && s.marker == Some(m) && Lookup(s.records, m.version) != Some(m.start)
      && (stateRead ==> s.current != Some(m.version)) && Unused(s, m.version)
      && s' == s.(releases := s.releases - {m.version})
    case CleansUp(m) => s.marker == Some(m) && Unused(s, m.version) && s' == s.(releases := s.releases - {m.version})
    case Collects(v) => Unused(s, v) && s' == s.(releases := s.releases - {v})
    case Starts(u, v) => v in s.releases && u < s.clock && s' == s.(units := s.units[u := v])
    case Stops(u) => s' == s.(units := s.units - {u})
    case Names(v) => s' == s.(current := Some(v))
  }

  ghost predicate Inv(s: Site)
  {
    && (s.marker.Some? && s.marker.value.version in s.releases ==>
          s.releases[s.marker.value.version] == s.marker.value.start)
    && (forall u :: u in s.units ==> s.units[u] in s.releases)
    && (forall t :: t in s.began || t in s.units ==> t < s.clock) && s.logged <= s.began.Keys
    && (s.marker.Some? ==> Lookup(s.began, s.marker.value.start) == Some(s.marker.value.version))
    && (!s.failed && s.marker.Some? && s.marker.value.start in s.logged ==>
          Lookup(s.records, s.marker.value.version) == Some(s.marker.value.start))
  }

  lemma NextKeepsInv(s: Site, ev: Event, s': Site)
    requires Inv(s) && Next(s, ev, s')
    ensures Inv(s')
  {
  }

  /** Settling a marker removes only what the deploy that wrote it extracted, if that deploy has no record and no
      unit runs out of it, and not the release state.json names if state.json could be read; and, unless removing a
      marker has failed before, the deploy never had a record. */
  lemma SettlesOnlyItsOwn(s: Site, m: Marker, stateRead: bool, s': Site)
    requires Inv(s) && Next(s, Settles(m, stateRead), s')
    ensures forall v :: v in s.releases && v !in s'.releases ==>
              && v == m.version && s.releases[v] == m.start
              && Lookup(s.records, v) != Some(m.start) && Unused(s, v) && (stateRead ==> s.current != Some(v))
              && (!s.failed ==> m.start !in s.logged)
  {
  }

  // ----- runs

  datatype Run = Run(start: Site, steps: seq<(Event, Site)>)

  ghost function At(r: Run, i: nat): Site
    requires i <= |r.steps|
  {
    if i == 0 then r.start else r.steps[i - 1].1
  }

  ghost predicate StepAt(r: Run, i: nat)
    requires i < |r.steps|
  {
    Next(At(r, i), r.steps[i].0, At(r, i + 1))
  }

  ghost predicate Lawful(r: Run)
  {
    Inv(r.start) && forall i :: 0 <= i < |r.steps| ==> StepAt(r, i)
  }

  lemma {:induction false} LawfulKeepsInv(r: Run, i: nat)
    requires Lawful(r) && i <= |r.steps|
    ensures Inv(At(r, i))
  {
    if i > 0 {
      LawfulKeepsInv(r, i - 1);
      assert StepAt(r, i - 1);
      NextKeepsInv(At(r, i - 1), r.steps[i - 1].0, At(r, i));
    }
  }

  /** At every instant of every run, the release a running unit came from is on disk. */
  lemma UnitsKeepTheirReleases(r: Run, i: nat, u: Time)
    requires Lawful(r) && i <= |r.steps| && u in At(r, i).units
    ensures At(r, i).units[u] in At(r, i).releases
  {
    LawfulKeepsInv(r, i);
  }

  // ----- when settling removes a finished deploy's release

  ghost predicate LogAt(r: Run, j: nat, v: Version, t: Time) { j < |r.steps| && r.steps[j].0 == Logs(v, t) }

  /** The marker's deploy was recorded, and another deploy of its version replaced that record while the marker
      stood. */
  ghost predicate Replaced(r: Run, i: nat, m: Marker)
    requires i <= |r.steps|
  {
    exists j: nat, k: nat, t ::
      && LogAt(r, j, m.version, m.start) && LogAt(r, k, m.version, t)
      && j < k < i && t != m.start && At(r, k).marker == Some(m)
  }

  lemma {:induction false} OnlyGrows(r: Run, i: nat, n: nat)
    requires Lawful(r) && i <= n <= |r.steps|
    ensures At(r, i).logged <= At(r, n).logged && (At(r, i).failed ==> At(r, n).failed)
    ensures forall t :: t in At(r, i).began ==> Lookup(At(r, n).began, t) == Some(At(r, i).began[t])
    decreases n
  {
    if i < n {
      OnlyGrows(r, i, n - 1);
      LawfulKeepsInv(r, n - 1);
      assert StepAt(r, n - 1);
    }
  }

  /** A record stays until another replaces it. */
  lemma {:induction false} RecordReplaced(r: Run, i: nat, n: nat, v: Version, t: Time) returns (k: nat, t': Time)
    requires Lawful(r) && i <= n <= |r.steps|
    requires Lookup(At(r, i).records, v) == Some(t) && Lookup(At(r, n).records, v) != Some(t)
    ensures i <= k < n && LogAt(r, k, v, t') && t' != t
    decreases n
  {
    assert StepAt(r, n - 1);
    if Lookup(At(r, n - 1).records, v) == Some(t) {
      k, t' := n - 1, At(r, n).records[v];
    } else {
      k, t' := RecordReplaced(r, i, n - 1, v, t);
    }
  }

  /** A recorded deploy's marker that stands has stood since. */
  lemma {:induction false} MarkerStood(r: Run, i: nat, n: nat, m: Marker)
    requires Lawful(r) && i <= n <= |r.steps| && m.start in At(r, i).logged && At(r, n).marker == Some(m)
    ensures At(r, i).marker == Some(m)
    decreases n
  {
    if i < n {
      OnlyGrows(r, i, n - 1);
      assert StepAt(r, n - 1);
      MarkerStood(r, i, n - 1, m);
    }
  }

  lemma {:induction false} LoggedAt(r: Run, n: nat, t: Time) returns (j: nat, v: Version)
    requires Lawful(r) && n <= |r.steps| && t in At(r, n).logged && t !in r.start.logged
    ensures j < n && LogAt(r, j, v, t)
    decreases n
  {
    assert StepAt(r, n - 1);
    if t in At(r, n - 1).logged {
      j, v := LoggedAt(r, n - 1, t);
    } else {
      j, v := n - 1, r.steps[n - 1].0.v;
    }
  }

  lemma FinishedIsReplaced(r: Run, i: nat, m: Marker, stateRead: bool)
    requires Lawful(r) && i < |r.steps| && r.steps[i].0 == Settles(m, stateRead)
    requires m.start !in r.start.logged && m.start in At(r, i).logged
    ensures Replaced(r, i, m)
  {
    var j, v := LoggedAt(r, i, m.start);
    assert StepAt(r, i) && StepAt(r, j);
    LawfulKeepsInv(r, i);
    OnlyGrows(r, j, i);
    var k, t := RecordReplaced(r, j + 1, i, m.version, m.start);
    OnlyGrows(r, j + 1, k);
    MarkerStood(r, k, i, m);
    assert LogAt(r, j, m.version, m.start) && LogAt(r, k, m.version, t);
  }

  /** Settling removes the release of a deploy that was recorded if and only if another deploy of the version, a
      rollback, has replaced that record while the marker stood. */
  lemma SettlesFinishedExactly(r: Run, i: nat, m: Marker, stateRead: bool)
    requires Lawful(r) && i < |r.steps| && r.steps[i].0 == Settles(m, stateRead) && m.start !in r.start.logged
    ensures m.start in At(r, i).logged <==> Replaced(r, i, m)
  {
    if m.start in At(r, i).logged {
      FinishedIsReplaced(r, i, m, stateRead);
    }
    if j: nat, k: nat, t :| LogAt(r, j, m.version, m.start) && LogAt(r, k, m.version, t)
                            && j < k < i && t != m.start && At(r, k).marker == Some(m) {
      assert StepAt(r, j);
      OnlyGrows(r, j + 1, i);
    }
  }

  lemma ReplacedNeedsFailure(r: Run, i: nat, m: Marker)
    requires Lawful(r) && i <= |r.steps| && Replaced(r, i, m)
    ensures At(r, i).failed
  {
    var j: nat, k: nat, t :| LogAt(r, j, m.version, m.start) && LogAt(r, k, m.version, t)
                             && j < k < i && t != m.start && At(r, k).marker == Some(m);
    assert StepAt(r, k);
    OnlyGrows(r, k, i);
  }

  /** That takes a marker whose removal failed: with none, what settling removes was extracted by the marker's
      deploy, and that deploy has had no record at any time. */
  lemma SettlesNothingFinished(r: Run, i: nat, m: Marker, stateRead: bool)
    requires Lawful(r) && i < |r.steps| && r.steps[i].0 == Settles(m, stateRead) && !At(r, i).failed
    ensures m.start !in At(r, i).logged
    ensures m.version in At(r, i).releases ==> At(r, i).releases[m.version] == m.start
  {
    LawfulKeepsInv(r, i);
    assert StepAt(r, i);
  }

  ghost function Last(r: Run): Site { At(r, |r.steps|) }

  /** A run goes on by one step. */
  lemma Extend(r: Run, ev: Event, s: Site) returns (r': Run)
    requires Lawful(r) && Next(Last(r), ev, s)
    ensures Lawful(r') && Last(r') == s && |r'.steps| == |r.steps| + 1 && At(r', |r.steps|) == Last(r)
    ensures r'.steps[|r.steps|].0 == ev
  {
    r' := r.(steps := r.steps + [(ev, s)]);
    forall i | 0 <= i < |r'.steps| ensures StepAt(r', i) {
      assert i < |r.steps| ==> StepAt(r, i) && At(r', i) == At(r, i) && At(r', i + 1) == At(r, i + 1);
    }
  }

  /** u's deploy at 0, v's at 1, then rollbacks to u, to v and to u. */
  function Began(u: Version, v: Version): map<Time, Version> { map[0 := u, 1 := v, 2 := u, 3 := v, 4 := u] }

  /** u and v on disk, each with a record, and a marker for v's deploy, begun at 1, that could not be removed. */
  function Stuck(u: Version, v: Version, recordU: Time, recordV: Time, current: Version, logged: set<Time>): Site
  {
    Site(map[u := 0, v := 1], map[u := recordU, v := recordV], Some(Marker(v, 1)), Some(current), map[],
         5, Began(u, v), logged, true)
  }

  lemma DeployWithStuckMarker(u: Version, v: Version) returns (r: Run)
    requires u != v
    ensures Lawful(r) && Last(r) == Stuck(u, v, 0, 1, v, {0, 1})
  {
    var m := Marker(v, 1);
    var s := Site(map[u := 0], map[u := 0], None, Some(u), map[], 5, Began(u, v), {0}, false);
    r := Run(s, []);
    s := s.(marker := Some(m));
    r := Extend(r, Marks(m), s);
    s := s.(releases := s.releases[v := 1]);
    r := Extend(r, Extracts(m), s);
    s := s.(current := Some(v));
    r := Extend(r, Names(v), s);
    s := s.(records := s.records[v := 1], logged := s.logged + {1});
    r := Extend(r, Logs(v, 1), s);
    s := s.(failed := true);
    r := Extend(r, ClearFails, s);
    assert s == Stuck(u, v, 0, 1, v, {0, 1});
  }

  /** A rollback to a version: it serves, and the version's record is the rollback's. */
  lemma RollBackTo(r: Run, s: Site, target: Version, t: Time) returns (r': Run)
    requires Lawful(r) && Last(r) == s && s.failed && Lookup(s.began, t) == Some(target)
    ensures Lawful(r')
    ensures Last(r') == s.(current := Some(target), records := s.records[target := t], logged := s.logged + {t})
  {
    r' := Extend(r, Names(target), s.(current := Some(target)));
    r' := Extend(r', Logs(target, t),
                 s.(current := Some(target), records := s.records[target := t], logged := s.logged + {t}));
  }

  /** With one failed, it may: a deploy's marker outlives the deploy, a rollback to its version replaces the deploy's
      record, and settling, once another version serves, takes the release for one nobody finished. */
  lemma SettlesFinishedAfterFailure(u: Version, v: Version) returns (r: Run)
    requires u != v
    ensures Lawful(r) && |r.steps| > 0
    ensures r.steps[|r.steps| - 1].0 == Settles(Marker(v, 1), true)
    ensures var s := At(r, |r.steps| - 1); Lookup(s.releases, v) == Some(1) && 1 in s.logged && v !in Last(r).releases
  {
    r := DeployWithStuckMarker(u, v);
    r := RollBackTo(r, Stuck(u, v, 0, 1, v, {0, 1}), u, 2);
    r := RollBackTo(r, Last(r), v, 3);
    r := RollBackTo(r, Last(r), u, 4);
    var s := Last(r);
    r := Extend(r, Settles(Marker(v, 1), true), s.(releases := s.releases - {v}));
  }
}
