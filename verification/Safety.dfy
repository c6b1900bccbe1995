/** What else holds over every run of the install protocol, crashes and recoveries included. */
module Safety {
  import opened Box
  import opened Options
  import opened Protocol

  // ----- the Caddyfile on disk names no env file that is not there

  /** Every env file the new Caddyfile names is there once the set is installed over f; the previous one's, before. */
  ghost predicate NewSetCovered(job: Job, f: Files)
  {
    forall app :: app in job.next.names ==>
      if EntryOf(job.env, app).Some? then EntryOf(job.env, app).value.next.Some? else app in f.env
  }

  ghost predicate PrevSetCovered(job: Job, f: Files)
  {
    forall app :: app in job.prev.names ==>
      if EntryOf(job.env, app).Some? then EntryOf(job.env, app).value.prev.Some? else app in f.env
  }

  ghost predicate SetsCovered(w: World)
  {
    w.record.Some? ==> NewSetCovered(w.record.value.job, w.files) && PrevSetCovered(w.record.value.job, w.files)
  }

  /** In the order the swap and the rollback keep, a mix of two covered sets is covered. */
  lemma MixIsCovered(job: Job, f: Files)
    requires DistinctApps(job.env) && InOrder(job, f) && NewSetCovered(job, f) && PrevSetCovered(job, f)
    ensures Covered(f)
  {
    forall app | app in f.caddy.value.names ensures app in f.env {
      if EntryOf(job.env, app).Some? {
        var i := EntryFound(job.env, app);
        assert AtPrev(job.env[i], f) || AtNext(job.env[i], f);
      }
    }
  }

  /** A set keeps its cover while only its own env files change. */
  lemma CoverStays(job: Job, f: Files, g: Files)
    requires NewSetCovered(job, f) && PrevSetCovered(job, f)
    requires forall app :: EntryOf(job.env, app).None? ==> Lookup(g.env, app) == Lookup(f.env, app)
    ensures NewSetCovered(job, g) && PrevSetCovered(job, g)
  {
    forall app | EntryOf(job.env, app).None? ensures app in f.env <==> app in g.env {
      assert Lookup(g.env, app) == Lookup(f.env, app);
    }
  }

  lemma FileStepCovered(w: World, w': World)
    requires Inv(w) && SetsCovered(w) && FileStep(w, w')
    ensures SetsCovered(w')
  {
    OnlySetChanges(w, w');
    CoverStays(w.record.value.job, w.files, w'.files);
  }

  lemma OnlySetChanges(w: World, w': World)
    requires Inv(w) && FileStep(w, w')
    ensures w.record.Some? && w'.record == w.record
    ensures forall app :: EntryOf(w.record.value.job.env, app).None? ==>
              Lookup(w'.files.env, app) == Lookup(w.files.env, app)
  {
    if i :| WritesEnv(w, w', i) {
      EntryAt(w.record.value.job.env, i);
    } else if i :| RestoresEnv(w, w', i) {
      EntryAt(w.record.value.job.env, i);
    }
  }

  lemma BeginsCovered(w: World, w': World)
    requires Begins(w, w') && Covered(w.files) && NewSetCovered(w'.record.value.job, w'.files)
    ensures SetsCovered(w')
  {
    var job := w'.record.value.job;
    forall app | app in job.prev.names && EntryOf(job.env, app).Some?
      ensures EntryOf(job.env, app).value.prev.Some?
    {
      var i := EntryFound(job.env, app);
      assert AtPrev(job.env[i], w.files);
    }
  }

  /** Every other step leaves the files, and the set if there still is one. */
  lemma ElseCovered(w: World, w': World)
    requires SetsCovered(w) && w'.files == w.files
    requires w'.record.Some? ==> w.record.Some? && w'.record.value.job == w.record.value.job
    ensures SetsCovered(w')
  {
  }

  lemma SetsStayCovered(w: World, w': World)
    requires Inv(w) && Next(w, w') && Covered(w.files) && SetsCovered(w)
    requires Begins(w, w') ==> NewSetCovered(w'.record.value.job, w'.files)
    ensures SetsCovered(w')
  {
    StepKinds(w, w');
    if FileStep(w, w') {
      FileStepCovered(w, w');
    } else if Begins(w, w') {
      BeginsCovered(w, w');
    } else {
      ElseCovered(w, w');
    }
  }

  lemma StepCovered(w: World, w': World)
    requires Inv(w) && Next(w, w') && Covered(w.files) && SetsCovered(w)
    requires Begins(w, w') ==> NewSetCovered(w'.record.value.job, w'.files)
    ensures Covered(w'.files) && SetsCovered(w')
  {
    NextKeepsInv(w, w');
    SetsStayCovered(w, w');
    if w'.record.Some? {
      MixIsCovered(w'.record.value.job, w'.files);
    } else {
      assert w'.files == w.files;
    }
  }

  ghost predicate BringsCovered(run: seq<World>, k: nat)
    requires k < |run| - 1
  {
    Begins(run[k], run[k + 1]) ==> NewSetCovered(run[k + 1].record.value.job, run[k + 1].files)
  }

  /** At every instant of every run — mid-swap, mid-rollback, after any crash — the Caddyfile on disk names no managed
      env file that is absent, if that holds at the start and of every set a push brings. */
  lemma {:induction false} NamesNoAbsentFile(run: seq<World>, i: nat)
    requires Run(run) && Inv(run[0]) && i < |run|
    requires Covered(run[0].files) && SetsCovered(run[0])
    requires forall k :: 0 <= k < |run| - 1 ==> BringsCovered(run, k)
    ensures Covered(run[i].files) && SetsCovered(run[i])
  {
    if i > 0 {
      NamesNoAbsentFile(run, i - 1);
      RunKeepsInv(run, i - 1);
      var k := i - 1;
      assert StepAt(run, k) && BringsCovered(run, k);
      StepCovered(run[k], run[k + 1]);
    }
  }

  // ----- the baseline

  ghost predicate BeginsAt(run: seq<World>, k: nat)
    requires k < |run| - 1
  {
    Begins(run[k], run[k + 1])
  }

  lemma AdvancedStays(w: World, w': World)
    requires Inv(w) && Next(w, w') && w.marks.advanced && !Begins(w, w')
    ensures w'.marks.advanced && w'.baseline == w.baseline
  {
    if FileStep(w, w') {
      FileStepShape(w, w');
    } else if ResultStep(w, w') {
      ResultStepShape(w, w');
    } else if RecordStep(w, w') {
    } else {
      ElseShape(w, w');
    }
  }

  /** Once written, the baseline names the bytes that stand until the next transaction begins: the transaction that
      wrote it is never rolled back. */
  lemma {:induction false} BaselineIsNotRolledBack(run: seq<World>, j: nat, i: nat)
    requires Run(run) && Inv(run[0]) && j < i < |run|
    requires WritesBaseline(run[j], run[j + 1])
    requires forall k :: j < k < i ==> !BeginsAt(run, k)
    ensures run[i].marks.advanced && run[i].baseline == Option.Some(BaselineOf(run[j].record.value.job))
    ensures BaselineStands(run[i].baseline.value, run[i].files)
    ensures run[i].record.Some? ==> InForce(run[i])
    decreases i
  {
    RunKeepsInv(run, i);
    if i > j + 1 {
      BaselineIsNotRolledBack(run, j, i - 1);
      var k := i - 1;
      RunKeepsInv(run, k);
      assert StepAt(run, k) && !BeginsAt(run, k);
      AdvancedStays(run[k], run[k + 1]);
    }
  }

  /** The baseline moves only under a record that says `applied` or `no_change`, every file of its set at its new
      bytes, and to what that record installs. */
  lemma BaselineFollowsRecord(w: World, w': World)
    requires Inv(w) && Next(w, w') && w'.baseline != w.baseline
    ensures InForce(w)
    ensures w'.baseline == Option.Some(BaselineOf(w.record.value.job)) && BaselineStands(w'.baseline.value, w'.files)
  {
    NextKeepsInv(w, w');
    OnlyWritingMoves(w, w');
  }

  lemma OnlyWritingMoves(w: World, w': World)
    requires Next(w, w') && w'.baseline != w.baseline
    ensures WritesBaseline(w, w')
  {
    if FileStep(w, w') {
      FileStepShape(w, w');
    } else if ResultStep(w, w') {
      ResultStepShape(w, w');
    }
  }

  // ----- results

  lemma SettledStays(w: World, w': World, id: Id)
    requires Next(w, w') && Settled(w, id)
    ensures || (Settled(w', id) && w'.tale.results[id] == w.tale.results[id])
            || RemovesResult(w, w', id)
  {
    if ResultStep(w, w') {
      SettledStaysWritten(w, w', id);
    } else if FileStep(w, w') {
      FileStepShape(w, w');
    } else if RecordStep(w, w') {
    } else {
      ElseShape(w, w');
    }
  }

  lemma SettledStaysWritten(w: World, w': World, id: Id)
    requires ResultStep(w, w') && Settled(w, id)
    ensures || (Settled(w', id) && w'.tale.results[id] == w.tale.results[id])
            || RemovesResult(w, w', id)
  {
    if id', p :| WritesResult(w, w', id', p) {
      assert id' != id;
    } else if id', p :| MissesResult(w, w', id', p) {
    } else {
      var id' :| RemovesResult(w, w', id');
    }
  }

  ghost predicate ResultRemovedAt(run: seq<World>, k: nat, id: Id)
    requires k < |run| - 1
  {
    RemovesResult(run[k], run[k + 1], id)
  }

  /** A push settles once: while retention keeps its terminal result, nothing writes it another. */
  lemma {:induction false} SettlesOnce(run: seq<World>, id: Id, i: nat, j: nat)
    requires Run(run) && i <= j < |run| && Settled(run[i], id)
    requires forall k :: i <= k < j ==> !ResultRemovedAt(run, k, id)
    ensures Settled(run[j], id) && run[j].tale.results[id] == run[i].tale.results[id]
    decreases j
  {
    if i < j {
      SettlesOnce(run, id, i, j - 1);
      var k := j - 1;
      assert StepAt(run, k) && !ResultRemovedAt(run, k, id);
      SettledStays(run[k], run[k + 1], id);
    }
  }

  /** A terminal result tells the truth of the record on disk when it is written.  `applied`: every file of the set
      is new, motel runs the new Caddyfile if it changed (or will, when it starts), and the baseline says so.
      `no_change`: the same, with nothing to change.  `rolled_back`: every file is previous, and motel runs the
      previous Caddyfile. `failed` and `refused`: if the push has a record, every file of its set is previous (if it
      has none, see Answers). */
  lemma ResultTellsTruth(w: World, w': World, id: Id, p: ResultPhase)
    requires Inv(w) && WritesResult(w, w', id, p)
    ensures p == WasApplied || p == WasNoChange ==>
              && Holds(w, id) && AllNext(w.record.value.job, w.files)
              && (CaddyInSet(w.record.value.job) ==> w.loaded.None? || w.loaded == Option.Some(w.record.value.job.next))
              && w.baseline == Option.Some(BaselineOf(w.record.value.job)) && BaselineStands(w.baseline.value, w.files)
    ensures p == RolledBack ==>
              && Holds(w, id) && AllPrev(w.record.value.job, w.files)
              && (CaddyInSet(w.record.value.job) ==> w.loaded.None? || w.loaded == Option.Some(w.record.value.job.prev))
    ensures (p == Failed || p == Refused) && Holds(w, id) ==> AllPrev(w.record.value.job, w.files)
  {
  }

  /** No marker outlives its push's terminal result: wherever one is gone, there was an instant it stood without its
      marker. */
  lemma {:induction false} MarkerGoesFirst(run: seq<World>, id: Id, i: nat, j: nat) returns (k: nat)
    requires Run(run) && i < j < |run| && Settled(run[i], id) && !Settled(run[j], id)
    ensures i <= k < j && Settled(run[k], id) && id !in run[k].arrivals.markers
    decreases j
  {
    if Settled(run[j - 1], id) {
      k := j - 1;
      assert StepAt(run, k);
      SettledStays(run[k], run[k + 1], id);
    } else {
      k := MarkerGoesFirst(run, id, i, j - 1);
    }
  }

  lemma EntryStays(w: World, w': World, id: Id)
    requires Next(w, w') && InTrays(w, id) && !Dealt(w, id)
    ensures InTrays(w', id)
  {
    if FileStep(w, w') {
      FileStepShape(w, w');
    } else if ResultStep(w, w') {
      ResultStepShape(w, w');
    }
  }

  /** No bundle goes unanswered: wherever one is gone from in/ and work/, there was an instant it was there with its
      push's terminal result written, or failed to land. */
  lemma {:induction false} EntryGoesLast(run: seq<World>, id: Id, i: nat, j: nat) returns (k: nat)
    requires Run(run) && i < j < |run| && InTrays(run[i], id) && !InTrays(run[j], id)
    ensures i <= k < j && InTrays(run[k], id) && Dealt(run[k], id)
    decreases j
  {
    k := j - 1;
    if InTrays(run[k], id) {
      assert StepAt(run, k);
      if !Dealt(run[k], id) {
        EntryStays(run[k], run[j], id);
      }
    } else {
      k := EntryGoesLast(run, id, i, k);
    }
  }
}
