/** Deploys, rollbacks, relaunches and recovery of one app, and the deploy marker they settle
    (liveswap/deploying.go; liveswap/app.go, deployLocked and ensureRunning).  Each holds the app's deploy lock
    throughout, so one runs at a time. */
module Deploy {
  import opened Box
  import opened Options
  import opened Releases

  /** A running instance: its unit, and the version it came from. */
  datatype Instance = Instance(unit: Time, version: Version)

  function VersionOf(i: Option<Instance>): Option<Version>
  {
    if i.Some? then Some(i.value.version) else None
  }

  /** What the reads and the removal of a settling do: whether the marker, state.json and the version's record can
      be read, and whether the release can be removed. */
  datatype Oracle = Oracle(markerReads: bool, stateReads: bool, recordReads: bool, removes: bool)

  /** The marker is one of a deploy no motel finished: not of the version that serves or that state.json names, and
      not of a deploy with a record. */
  predicate Interrupted(s: Site, keep: Option<Version>, o: Oracle)
  {
    && s.marker.Some? && o.markerReads
    && var m := s.marker.value;
    && keep != Some(m.version)
    && !(o.stateReads && s.current == Some(m.version))
    && o.recordReads && Lookup(s.records, m.version) != Some(m.start)
  }

  /** The releases a settling leaves. */
  function Left(s: Site, keep: Option<Version>, o: Oracle): map<Version, Time>
  {
    if Interrupted(s, keep, o) && o.removes then s.releases - {s.marker.value.version} else s.releases
  }

  /** r' is r gone on, with no failed deploy's release removed unless cleans. */
  ghost predicate Grew(r: Run, r': Run, cleans: bool)
  {
    && r'.start == r.start && r.steps <= r'.steps
    && (!cleans ==> forall i :: |r.steps| <= i < |r'.steps| ==> !r'.steps[i].0.CleansUp?)
  }

  datatype Launched = NotUp | MayBeUp | Up

  class App {
    var site: Site
    var run: Run
    var inst: Option<Instance>

    ghost predicate Valid()
      reads this
    {
      Lawful(run) && Last(run) == site && (inst.Some? ==> inst.value.unit < site.clock)
    }

    /** The instance's unit is there. */
    ghost predicate Runs(i: Option<Instance>)
      reads this
    {
      i.Some? && i.value.unit in site.units && site.units[i.value.unit] == i.value.version
    }

    /** What a launch leaves: the new instance serves, or the one that served does and was not stopped. */
    twostate predicate Serves(up: bool, to: Instance)
      reads this
    {
      if up then inst == Some(to) && Runs(inst) else inst == old(inst) && (old(Runs(inst)) ==> Runs(inst))
    }

    constructor (s: Site)
      requires Inv(s)
      ensures Valid() && site == s && inst.None?
    {
      site, run, inst := s, Run(s, []), None;
    }

    /** Every unit that may be running is the given one. */
    ghost predicate Only(keep: Option<Instance>)
      reads this
    {
      forall u :: u in site.units ==> keep.Some? && site.units[u] == keep.value.version
    }

    lemma InvNow()
      requires Valid()
      ensures Inv(site)
    {
      LawfulKeepsInv(run, |run.steps|);
    }

    method Do(ev: Event, s: Site)
      requires Valid() && Next(site, ev, s) && s.clock >= site.clock
      modifies this`site, this`run
      ensures Valid() && site == s && Grew(old(run), run, ev.CleansUp?)
    {
      run := run.(steps := run.steps + [(ev, s)]);
      site := s;
      forall i | 0 <= i < |run.steps| ensures StepAt(run, i) {
        assert i < |old(run).steps| ==>
          StepAt(old(run), i) && At(run, i) == At(old(run), i) && At(run, i + 1) == At(old(run), i + 1);
      }
    }

    /** A deploy that began at t has left nothing yet. */
    ghost predicate Fresh(t: Time)
      reads this
    {
      && t < site.clock && t !in site.logged && t !in site.units
      && (site.marker.Some? ==> site.marker.value.start < t)
    }

    // ----- what can fail

    /** A deploy of v, or a launch of it, begins. */
    method Tick(v: Version) returns (t: Time)
      requires Valid()
      modifies this`site, this`run
      ensures Valid() && Grew(old(run), run, false)
      ensures Lookup(site.began, t) == Some(v) && Fresh(t) && (inst.Some? ==> inst.value.unit < t)
      ensures site == old(site).(clock := site.clock, began := site.began)
    {
      InvNow();
      t := site.clock;
      Do(Begins(v), site.(clock := site.clock + 1, began := site.began[t := v]));
    }

    method Clear()
      requires Valid()
      modifies this`site, this`run
      ensures Valid() && Grew(old(run), run, false)
      ensures site == old(site).(marker := None) || site == old(site).(failed := true)
    {
      var ok: bool := *;
      if ok {
        Do(Clears, site.(marker := None));
      } else {
        Do(ClearFails, site.(failed := true));
      }
    }

    /** The deploy's record, if it can be written. */
    method Log(v: Version, t: Time)
      requires Valid() && Next(site, Logs(v, t), site.(records := site.records[v := t], logged := site.logged + {t}))
      modifies this`site, this`run
      ensures Valid() && Grew(old(run), run, false)
      ensures site == old(site) ||
              site == old(site).(records := old(site).records[v := t], logged := old(site).logged + {t})
    {
      var ok: bool := *;
      if ok {
        Do(Logs(v, t), site.(records := site.records[v := t], logged := site.logged + {t}));
      }
    }

    method SaveMarker(m: Marker) returns (ok: bool)
      requires Valid() && m.version !in site.releases && Lookup(site.began, m.start) == Some(m.version)
      requires m.start !in site.logged
      modifies this`site, this`run
      ensures Valid() && Grew(old(run), run, false)
      ensures site == old(site).(marker := Some(m)) || (!ok && site == old(site))
    {
      ok := *;
      var landed: bool := *;
      if ok || landed {
        Do(Marks(m), site.(marker := Some(m)));
      }
    }

    /** Every unit but the one to keep is stopped, and said to be. */
    method Sweep(keep: Option<Instance>) returns (ok: bool)
      requires Valid()
      modifies this`site, this`run
      ensures Valid() && Grew(old(run), run, false)
      ensures site == old(site).(units := site.units) && site.units.Keys <= old(site.units).Keys
      ensures (ok ==> Only(keep)) && (old(Runs(keep)) ==> Runs(keep))
      ensures forall u :: u in site.units ==> site.units[u] == old(site.units)[u]
    {
      var left := site.units.Keys;
      while left != {}
        invariant Valid() && Grew(old(run), run, false) && site == old(site).(units := site.units)
        invariant site.units.Keys <= old(site.units).Keys && left <= old(site.units).Keys
        invariant forall u :: u in site.units ==> site.units[u] == old(site.units)[u]
        invariant forall u :: u in site.units && u !in left ==> keep.Some? && site.units[u] == keep.value.version
        invariant old(Runs(keep)) ==> Runs(keep)
        decreases left
      {
        var u :| u in left;
        if u in site.units && !(keep == Some(Instance(u, site.units[u]))) {
          var stopped: bool := *;
          if !stopped {
            return false;
          }
          Do(Stops(u), site.(units := site.units - {u}));
        }
        left := left - {u};
      }
      return true;
    }

    // ----- settling

    /** Settles a marker that no running deploy wrote.  The release goes exactly when the marker's deploy was
        interrupted, it is recorded as failed if that can be written, and the marker goes. */
    method SettleInterrupted(keep: Option<Instance>, o: Oracle)
      requires Valid() && Only(keep)
      modifies this`site, this`run
      ensures Valid() && Grew(old(run), run, false)
      ensures site.units == old(site.units) && site.current == old(site.current)
      ensures site.clock == old(site.clock) && site.began == old(site.began)
      ensures site.releases == Left(old(site), VersionOf(keep), o)
      ensures site.marker.None? || site.failed
      ensures site.logged <= old(site.logged) + (if old(site.marker).Some? then {old(site.marker).value.start} else {})
    {
      if site.marker.None? {
        return;
      }
      var m := site.marker.value;
      if Interrupted(site, VersionOf(keep), o) {
        SettleRelease(m, o);
      }
      Clear();
    }

    method SettleRelease(m: Marker, o: Oracle)
      requires Valid() && site.marker == Some(m) && Lookup(site.records, m.version) != Some(m.start)
      requires Unused(site, m.version) && (o.stateReads ==> site.current != Some(m.version))
      modifies this`site, this`run
      ensures Valid() && Grew(old(run), run, false)
      ensures site.releases == if o.removes then old(site.releases) - {m.version} else old(site.releases)
      ensures site == old(site).(releases := site.releases, records := site.records, logged := site.logged)
      ensures site.logged <= old(site.logged) + {m.start}
    {
      if o.removes {
        Do(Settles(m, o.stateReads), site.(releases := site.releases - {m.version}));
      }
      InvNow();
      Log(m.version, m.start);
    }

    /** Ahead of a deploy: only a marker there costs the sweep. */
    method SettleBeforeDeploy(serving: Option<Instance>, ghost t: Time) returns (ok: bool)
      requires Valid() && Fresh(t)
      modifies this`site, this`run
      ensures Valid() && Grew(old(run), run, false) && site.began == old(site.began)
      ensures t < site.clock && t !in site.logged && t !in site.units
      ensures ok ==> site.marker.None? || site.failed
      ensures old(Runs(serving)) ==> Runs(serving)
    {
      if site.marker.None? {
        return true;
      }
      ok := Sweep(serving);
      if ok {
        var o: Oracle := *;
        SettleInterrupted(serving, o);
      }
    }

    // ----- launching

    /** Starts a release as a unit, every unit but the serving one stopped first, and waits for it to be healthy;
        one that is not is stopped, if that can be confirmed. */
    method Launch(v: Version, u: Time, serving: Option<Instance>) returns (r: Launched)
      requires Valid() && v in site.releases && u < site.clock && u !in site.units
      modifies this`site, this`run
      ensures Valid() && Grew(old(run), run, false) && site == old(site).(units := site.units)
      ensures r == NotUp && old(Unused(site, v)) ==> Unused(site, v)
      ensures r == Up ==> forall x :: x in site.units ==>
                site.units[x] == v || (serving.Some? && site.units[x] == serving.value.version)
      ensures (old(Runs(serving)) ==> Runs(serving)) && (r == Up ==> Runs(Some(Instance(u, v))))
    {
      var swept := Sweep(serving);
      var starts, ambiguous, healthy, stopped: bool := *, *, *, *;
      if !swept || (!starts && !ambiguous) {
        return NotUp;
      }
      Do(Starts(u, v), site.(units := site.units[u := v]));
      if !starts {
        return MayBeUp;
      }
      if healthy {
        return Up;
      }
      if !stopped {
        return MayBeUp;
      }
      Do(Stops(u), site.(units := site.units - {u}));
      return NotUp;
    }

    /** The cutover: in memory, in state.json if that can be written, and the old instance stopped. */
    method Cutover(v: Version, u: Time, serving: Option<Instance>)
      requires Valid() && Runs(Some(Instance(u, v))) && u < site.clock && (serving.Some? ==> serving.value.unit != u)
      modifies this
      ensures Valid() && Grew(old(run), run, false) && inst == Some(Instance(u, v)) && Runs(inst)
      ensures site == old(site).(current := site.current, units := site.units)
    {
      inst := Some(Instance(u, v));
      var named, stopped: bool := *, *;
      if named {
        Do(Names(v), site.(current := Some(v)));
      }
      if serving.Some? && stopped {
        Do(Stops(serving.value.unit), site.(units := site.units - {serving.value.unit}));
      }
    }

    /** The cutover, and releases collected once nothing but the new instance can run. */
    method Promote(v: Version, u: Time, serving: Option<Instance>)
      requires Valid() && Runs(Some(Instance(u, v))) && u < site.clock && (serving.Some? ==> serving.value.unit != u)
      modifies this
      ensures Valid() && Grew(old(run), run, false) && inst == Some(Instance(u, v)) && Runs(inst)
      ensures site == old(site).(current := site.current, units := site.units, releases := site.releases)
    {
      Cutover(v, u, serving);
      var swept := Sweep(inst);
      if swept {
        Collect(v, VersionOf(serving));
      }
    }

    /** Release GC: any of the others, but not the new version's or the one it replaced. */
    method Collect(v: Version, previous: Option<Version>)
      requires Valid() && forall u :: u in site.units ==> site.units[u] == v
      modifies this`site, this`run
      ensures Valid() && Grew(old(run), run, false) && site == old(site).(releases := site.releases)
      ensures forall w :: w in old(site.releases) && (w == v || Some(w) == previous) ==> w in site.releases
    {
      var left := site.releases.Keys - {v} - (if previous.Some? then {previous.value} else {});
      ghost var all := left;
      while left != {}
        invariant left <= all && Valid() && Grew(old(run), run, false) && site == old(site).(releases := site.releases)
        invariant forall w :: w in old(site.releases) && w !in all ==> w in site.releases
        decreases left
      {
        var w :| w in left;
        var goes: bool := *;
        if goes {
          Do(Collects(w), site.(releases := site.releases - {w}));
        }
        left := left - {w};
      }
    }

    // ----- deploys

    /** A deploy that extracts its release: marker, release, launch; then its record, and the marker goes. */
    method RunNew(v: Version, t: Time, serving: Option<Instance>) returns (up: bool)
      requires serving == inst && (inst.Some? ==> inst.value.unit != t)
      requires Valid() && v !in site.releases && Lookup(site.began, t) == Some(v) && t !in site.logged
      requires t !in site.units
      requires site.marker.None? || site.failed
      modifies this
      ensures Valid() && Grew(old(run), run, true)
      // it left no marker of a release
      ensures site.failed || site.marker.None? || site.marker.value.version !in site.releases
      ensures Serves(up, Instance(t, v))
    {
      up := false;
      var m := Marker(v, t);
      InvNow();
      var marked := SaveMarker(m);
      if !marked {
        Log(v, t);
        return;
      }
      up := ExtractAndLaunch(m, serving);
      Log(v, t);
      Clear();
    }

    method ExtractAndLaunch(m: Marker, serving: Option<Instance>) returns (up: bool)
      requires serving == inst && (inst.Some? ==> inst.value.unit != m.start)
      requires Valid() && m.version !in site.releases && site.marker == Some(m) && m.start < site.clock
      requires m.start !in site.units
      modifies this
      ensures Valid() && Grew(old(run), run, true)
      ensures site == old(site).(current := site.current, units := site.units, releases := site.releases)
      ensures Serves(up, Instance(m.start, m.version))
    {
      InvNow();
      var fetched: bool := *;
      if !fetched {
        return false;
      }
      Do(Extracts(m), site.(releases := site.releases[m.version := m.start]));
      up := LaunchNew(m, serving);
    }

    /** The new release launched; if it never serves, and nothing of it may still run, it goes again. */
    method LaunchNew(m: Marker, serving: Option<Instance>) returns (up: bool)
      requires serving == inst && (inst.Some? ==> inst.value.unit != m.start)
      requires Valid() && m.version in site.releases && Unused(site, m.version) && site.marker == Some(m)
      requires m.start < site.clock && m.start !in site.units
      modifies this
      ensures Valid() && Grew(old(run), run, true)
      ensures site == old(site).(current := site.current, units := site.units, releases := site.releases)
      ensures Serves(up, Instance(m.start, m.version))
    {
      up := false;
      var r := Launch(m.version, m.start, serving);
      if r == Up {
        Promote(m.version, m.start, serving);
        up := true;
      } else if r == NotUp {
        var removes: bool := *;
        if removes {
          Do(CleansUp(m), site.(releases := site.releases - {m.version}));
        }
      }
    }

    /** A rollback or a relaunch: a release already on disk is launched, and nothing removes it if it does not come
        up. */
    method RunOld(v: Version, t: Time, serving: Option<Instance>, relaunch: bool) returns (up: bool)
      requires serving == inst && (inst.Some? ==> inst.value.unit != t)
      requires Valid() && Lookup(site.began, t) == Some(v) && t !in site.units && (site.marker.None? || site.failed)
      modifies this
      ensures Valid() && Grew(old(run), run, false)
      ensures Serves(up, Instance(t, v))
    {
      up := false;
      InvNow();
      if v in site.releases {
        var r := Launch(v, t, serving);
        if r == Up {
          Promote(v, t, serving);
          up := true;
        }
      }
      if !relaunch {
        Log(v, t);
      }
    }

    /** A deploy, a rollback or a relaunch.  Either the version asked for is up and serves, or the instance that
        served is the one that does, and was not stopped. */
    method DeployLocked(v: Version, rollback: bool) returns (extracted: bool, up: bool)
      requires Valid()
      modifies this
      ensures Valid() && Grew(old(run), run, extracted) && (rollback ==> !extracted)
      ensures if up
                then inst.Some? && inst.value.version == v && Runs(inst)
                else inst == old(inst) && (old(Runs(inst)) ==> Runs(inst))
    {
      var t := Tick(v);
      var serving := inst;
      var relaunch := serving.Some? && serving.value.version == v && serving.value.unit in site.units;
      var refused: bool := *;
      if relaunch && !rollback && refused { // not for the same artifact
        return false, false;
      }
      var ok := SettleBeforeDeploy(serving, t);
      extracted := !rollback && !relaunch;
      if !ok || (extracted && v in site.releases) { // versions are immutable
        return false, false;
      }
      if extracted {
        up := RunNew(v, t, serving);
      } else {
        up := RunOld(v, t, serving, relaunch);
      }
    }

    // ----- recovery

    method SettleAfterRecovery(keep: Option<Instance>)
      requires Valid() && Only(keep)
      modifies this`site, this`run
      ensures Valid() && Grew(old(run), run, false)
    {
      var o: Oracle := *;
      SettleInterrupted(keep, o);
    }

    /** After a start or a reload: the instance in memory, the unit state.json names, or that version launched again. */
    method EnsureRunning()
      requires Valid()
      modifies this
      ensures Valid() && Grew(old(run), run, false)
    {
      var stateReads, attaches: bool := *, *;
      if inst.Some? && inst.value.unit in site.units {
        SweepAndSettle(inst);
        return;
      }
      if !stateReads {
        return;
      }
      if site.current.None? {
        SweepAndSettle(None);
        return;
      }
      var v := site.current.value;
      if v !in site.releases {
        return;
      }
      var named := set u | u in site.units && site.units[u] == v;
      if attaches && named != {} {
        var u :| u in named;
        InvNow();
        inst := Some(Instance(u, v));
        SweepAndSettle(inst);
        return;
      }
      Relaunch(v);
    }

    method SweepAndSettle(keep: Option<Instance>)
      requires Valid()
      modifies this`site, this`run
      ensures Valid() && Grew(old(run), run, false)
    {
      var ok := Sweep(keep);
      if ok {
        SettleAfterRecovery(keep);
      }
    }

    method Relaunch(v: Version)
      requires Valid() && v in site.releases
      modifies this
      ensures Valid() && Grew(old(run), run, false)
    {
      var u := Tick(v);
      var r := Launch(v, u, None);
      if r == Up {
        inst := Some(Instance(u, v));
        var named: bool := *;
        if named {
          Do(Names(v), site.(current := Some(v)));
        }
        SettleAfterRecovery(inst);
      }
    }

    // ----- over crashes

    /** motel stops, at any instant since n steps had been made: its memory goes, its units do not. */
    method Crash(n: nat)
      requires Valid() && n <= |run.steps|
      modifies this
      ensures Valid() && inst.None? && n <= |run.steps| <= |old(run).steps|
      ensures run == Run(old(run).start, old(run).steps[..|run.steps|])
    {
      var k: nat := *;
      if !(n <= k <= |run.steps|) {
        k := |run.steps|;
      }
      run := run.(steps := run.steps[..k]);
      site := if k == 0 then run.start else run.steps[k - 1].1;
      inst := None;
      forall i | 0 <= i < k ensures StepAt(run, i) {
        assert StepAt(old(run), i) && At(run, i) == At(old(run), i) && At(run, i + 1) == At(old(run), i + 1);
      }
    }

    /** Any number of deploys, rollbacks, recoveries and crashes. */
    method Lifetime(n: nat)
      requires Valid()
      modifies this
      ensures Valid()
    {
      for i := 0 to n
        invariant Valid()
      {
        var before := |run.steps|;
        var recovers, rollback, crashes: bool := *, *, *;
        if recovers {
          EnsureRunning();
        } else {
          var v: Version := *;
          var _, _ := DeployLocked(v, rollback);
        }
        if crashes {
          Crash(before);
        }
      }
    }
  }
}
