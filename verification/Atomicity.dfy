/** A push applies whole or not at all: over every run of the install protocol, whatever fails and wherever it
    crashes, the files are those of the start with whole sets installed in turn — unless two writes of one record
    go wrong: an `applied` that lands though it was reported failed, and a `rolling_back` that does not land. */
module Atomicity {
  import opened Box
  import opened Options
  import opened Protocol

  // ----- files with a set put in place

  function PutNext(env: map<App, Bytes>, es: seq<EnvEntry>): map<App, Bytes>
  {
    if es == [] then env else Put(PutNext(env, es[1..]), es[0].app, es[0].next)
  }

  function PutPrev(env: map<App, Bytes>, es: seq<EnvEntry>): map<App, Bytes>
  {
    if es == [] then env else Put(PutPrev(env, es[1..]), es[0].app, es[0].prev)
  }

  /** f with the job's set at its new bytes, and at its previous ones. */
  function InstallOver(f: Files, job: Job): Files { Files(Option.Some(job.next), PutNext(f.env, job.env)) }

  function RestoreOver(f: Files, job: Job): Files { Files(Option.Some(job.prev), PutPrev(f.env, job.env)) }

  /** f with the sets of some jobs installed, in order. */
  function InstallAll(f: Files, jobs: seq<Job>): Files
  {
    if jobs == [] then f else InstallOver(InstallAll(f, jobs[..|jobs| - 1]), jobs[|jobs| - 1])
  }

  lemma {:induction false} PutNextAt(env: map<App, Bytes>, es: seq<EnvEntry>, app: App)
    ensures Lookup(PutNext(env, es), app) ==
              if EntryOf(es, app).Some? then EntryOf(es, app).value.next else Lookup(env, app)
  {
    if es != [] {
      PutNextAt(env, es[1..], app);
      PutLookup(PutNext(env, es[1..]), es[0].app, es[0].next, app);
    }
  }

  lemma {:induction false} PutPrevAt(env: map<App, Bytes>, es: seq<EnvEntry>, app: App)
    ensures Lookup(PutPrev(env, es), app) ==
              if EntryOf(es, app).Some? then EntryOf(es, app).value.prev else Lookup(env, app)
  {
    if es != [] {
      PutPrevAt(env, es[1..], app);
      PutLookup(PutPrev(env, es[1..]), es[0].app, es[0].prev, app);
    }
  }

  lemma SameByLookup(m: map<App, Bytes>, n: map<App, Bytes>)
    requires forall app :: Lookup(m, app) == Lookup(n, app)
    ensures m == n
  {
    assert forall app :: app in m <==> Lookup(m, app).Some?;
    assert forall app :: app in n <==> Lookup(n, app).Some?;
    assert forall app :: app in m ==> m[app] == Lookup(m, app).value == Lookup(n, app).value;
  }

  /** Files that differ only in the set are the same once it is put back. */
  lemma RestoreForgets(f: Files, g: Files, job: Job)
    requires forall app :: EntryOf(job.env, app).None? ==> Lookup(f.env, app) == Lookup(g.env, app)
    ensures RestoreOver(f, job) == RestoreOver(g, job)
  {
    forall app ensures Lookup(PutPrev(f.env, job.env), app) == Lookup(PutPrev(g.env, job.env), app) {
      PutPrevAt(f.env, job.env, app);
      PutPrevAt(g.env, job.env, app);
    }
    SameByLookup(PutPrev(f.env, job.env), PutPrev(g.env, job.env));
  }

  /** Files all at their previous bytes are as if put back. */
  lemma RestoredAlready(f: Files, job: Job)
    requires AllPrev(job, f)
    ensures RestoreOver(f, job) == f
  {
    forall app ensures Lookup(PutPrev(f.env, job.env), app) == Lookup(f.env, app) {
      PutPrevAt(f.env, job.env, app);
      if EntryOf(job.env, app).Some? {
        var i := EntryFound(job.env, app);
        assert AtPrev(job.env[i], f);
      }
    }
    SameByLookup(PutPrev(f.env, job.env), f.env);
  }

  /** Files all at their new bytes are the set installed over what putting it back gives. */
  lemma InstalledAlready(f: Files, job: Job)
    requires AllNext(job, f)
    ensures InstallOver(RestoreOver(f, job), job) == f
  {
    var g := RestoreOver(f, job);
    forall app ensures Lookup(PutNext(g.env, job.env), app) == Lookup(f.env, app) {
      PutNextAt(g.env, job.env, app);
      PutPrevAt(f.env, job.env, app);
      if EntryOf(job.env, app).Some? {
        var i := EntryFound(job.env, app);
        assert AtNext(job.env[i], f);
      }
    }
    SameByLookup(PutNext(g.env, job.env), f.env);
  }

  // ----- how the files read

  /** The files as the record says they are to be read: as they stand if there is none or its new bytes are in
      force, and otherwise with its set at its previous bytes, whatever mix the disk holds meanwhile. */
  function Reading(w: World): Files
  {
    if w.record.None? || InForce(w) then w.files else RestoreOver(w.files, w.record.value.job)
  }

  /** The commit: the one step that turns a job's set from its previous bytes to its new ones. */
  ghost predicate Commits(w: World, w': World)
  {
    Moves(w, w') && w'.record.value.phase == Applied
  }

  /** Its undoing: an `applied` record that landed though its write failed is rolled back, or its files are, before the
      baseline is written. */
  ghost predicate Retracts(w: World, w': World)
  {
    && InForce(w) && w.record.value.phase == Applied && !InForce(w')
    && w'.record.Some? && w'.record.value.job == w.record.value.job && w'.record.value.phase in {Applied, RollingBack}
  }

  /** A record that says `applied` goes, or is begun over, with its files partway back. */
  ghost predicate Abandons(w: World, w': World)
  {
    Torn(w) && (RemovesRecord(w, w') || Begins(w, w'))
  }

  /** With nothing under way, the files are read as they stand. */
  lemma QuietReadsAsIs(w: World)
    requires Quiet(w)
    ensures Reading(w) == w.files
  {
    if w.record.Some? && !InForce(w) {
      RestoredAlready(w.files, w.record.value.job);
    }
  }

  /** How a step may change the way the files read: the commit installs the job's set whole, its undoing takes that set
      back whole, and nothing else changes it. */
  ghost predicate Atomic(w: World, w': World)
  {
    && (Commits(w, w') ==> Reading(w') == w.files == InstallOver(Reading(w), w.record.value.job))
    && (Retracts(w, w') ==> Reading(w') == RestoreOver(w.files, w.record.value.job))
    && (!Commits(w, w') && !Retracts(w, w') ==> Reading(w') == Reading(w))
  }

  lemma EnvStepIsAtomic(w: World, w': World, i: nat)
    requires Inv(w) && (WritesEnv(w, w', i) || RestoresEnv(w, w', i))
    ensures Atomic(w, w')
  {
    var job := w.record.value.job;
    EntryAt(job.env, i);
    RestoreForgets(w.files, w'.files, job);
    if InForce(w) && InForce(w') {
      assert AtNext(job.env[i], w.files) && AtNext(job.env[i], w'.files);
      forall app ensures Lookup(w'.files.env, app) == Lookup(w.files.env, app) {}
      SameByLookup(w'.files.env, w.files.env);
    } else if !InForce(w) && w.record.value.phase == Applied {
      StillTorn(w, w', i);
    }
  }

  /** Putting files back never brings an `applied` record's new bytes into force again. */
  lemma StillTorn(w: World, w': World, i: nat)
    requires Inv(w) && RestoresEnv(w, w', i) && w.record.value.phase == Applied && !InForce(w)
    ensures !InForce(w')
  {
    var job := w.record.value.job;
    PutEntry(job, w.files, i, job.env[i].prev);
    if AllNext(job, w'.files) {
      forall k | 0 <= k < |job.env| ensures AtNext(job.env[k], w.files) {
        assert AtNext(job.env[k], w'.files);
        assert AtPrev(job.env[k], w.files) || AtNext(job.env[k], w.files);
      }
    }
  }

  lemma CaddyStepIsAtomic(w: World, w': World)
    requires Inv(w) && (WritesCaddy(w, w') || RestoresCaddy(w, w'))
    ensures Atomic(w, w')
  {
    RestoreForgets(w.files, w'.files, w.record.value.job);
  }

  lemma FileStepIsAtomic(w: World, w': World)
    requires Inv(w) && FileStep(w, w')
    ensures Atomic(w, w')
  {
    if i :| WritesEnv(w, w', i) {
      EnvStepIsAtomic(w, w', i);
    } else if i :| RestoresEnv(w, w', i) {
      EnvStepIsAtomic(w, w', i);
    } else {
      CaddyStepIsAtomic(w, w');
    }
  }

  lemma BeginIsAtomic(w: World, w': World)
    requires Quiet(w) && Begins(w, w')
    ensures Atomic(w, w')
  {
    QuietReadsAsIs(w);
    RestoredAlready(w.files, w'.record.value.job);
  }

  lemma MoveIsAtomic(w: World, w': World)
    requires Moves(w, w')
    ensures Atomic(w, w')
  {
    if Commits(w, w') {
      InstalledAlready(w.files, w.record.value.job);
    }
  }

  lemma RemovalIsAtomic(w: World, w': World)
    requires Quiet(w) && RemovesRecord(w, w')
    ensures Atomic(w, w')
  {
    QuietReadsAsIs(w);
  }

  lemma RecordStepIsAtomic(w: World, w': World)
    requires RecordStep(w, w') && !Abandons(w, w')
    ensures Atomic(w, w')
  {
    if Begins(w, w') {
      BeginIsAtomic(w, w');
    } else if Moves(w, w') {
      MoveIsAtomic(w, w');
    } else {
      RemovalIsAtomic(w, w');
    }
  }

  lemma ElseIsAtomic(w: World, w': World)
    requires w'.files == w.files && w'.record == w.record
    ensures Atomic(w, w')
  {
  }

  /** So does every step, but one that gives up a torn record. */
  lemma EveryStepIsAtomic(w: World, w': World)
    requires Inv(w) && Next(w, w') && !Abandons(w, w')
    ensures Atomic(w, w')
  {
    StepKinds(w, w');
    if FileStep(w, w') {
      FileStepIsAtomic(w, w');
    } else if RecordStep(w, w') {
      RecordStepIsAtomic(w, w');
    } else {
      ElseIsAtomic(w, w');
    }
  }

  // ----- over runs

  ghost predicate AbandonsAt(run: seq<World>, k: nat)
    requires k < |run| - 1
  {
    Abandons(run[k], run[k + 1])
  }

  /** The jobs whose commits stand at an instant of a run: each commit adds its job, each undoing drops the last. */
  ghost function Standing(run: seq<World>, i: nat): seq<Job>
    requires i < |run|
  {
    if i == 0 then [] else StandingAfter(run[i - 1], run[i], Standing(run, i - 1))
  }

  ghost function StandingAfter(w: World, w': World, jobs: seq<Job>): seq<Job>
  {
    if Commits(w, w') then jobs + [w'.record.value.job]
    else if Retracts(w, w') && jobs != [] then jobs[..|jobs| - 1]
    else jobs
  }

  /** The files read as the standing jobs installed in order; and while the last one's record is in force, taking
      its set back gives the ones before it. */
  ghost predicate Stacked(w: World, f: Files, jobs: seq<Job>)
  {
    && Reading(w) == InstallAll(f, jobs)
    && (InForce(w) && w.record.value.phase == Applied ==>
          && jobs != [] && jobs[|jobs| - 1] == w.record.value.job
          && RestoreOver(w.files, w.record.value.job) == InstallAll(f, jobs[..|jobs| - 1]))
  }

  lemma InstallAllOn(f: Files, jobs: seq<Job>, job: Job)
    ensures InstallAll(f, jobs + [job]) == InstallOver(InstallAll(f, jobs), job)
  {
    assert (jobs + [job])[..|jobs|] == jobs;
  }

  lemma StackedOn(w: World, w': World, f: Files, jobs: seq<Job>)
    requires Inv(w) && Next(w, w') && !Abandons(w, w') && Stacked(w, f, jobs)
    ensures Stacked(w', f, StandingAfter(w, w', jobs))
  {
    EveryStepIsAtomic(w, w');
    if Commits(w, w') {
      InstallAllOn(f, jobs, w'.record.value.job);
      assert (jobs + [w'.record.value.job])[..|jobs|] == jobs;
    } else if InForce(w') && w'.record.value.phase == Applied {
      InForceStays(w, w');
    }
  }

  /** A record that says `applied` with its bytes in force, if it has not just been written, was so before. */
  lemma InForceStays(w: World, w': World)
    requires Inv(w) && Next(w, w') && !Commits(w, w') && InForce(w') && w'.record.value.phase == Applied
    ensures InForce(w) && w.record.value.phase == Applied && w.record.value.job == w'.record.value.job
    ensures w'.files == w.files
  {
    StepKinds(w, w');
    if FileStep(w, w') {
      FileStepStays(w, w');
    }
  }

  lemma FileStepStays(w: World, w': World)
    requires Inv(w) && FileStep(w, w') && InForce(w') && w'.record.value.phase == Applied
    ensures InForce(w) && w'.files == w.files && w'.record == w.record
  {
    if i :| RestoresEnv(w, w', i) {
      RestoreStays(w, w', i);
    }
  }

  lemma RestoreStays(w: World, w': World, i: nat)
    requires Inv(w) && RestoresEnv(w, w', i) && InForce(w') && w.record.value.phase == Applied
    ensures InForce(w) && w'.files == w.files
  {
    if !InForce(w) {
      StillTorn(w, w', i);
    }
    var job := w.record.value.job;
    assert AtNext(job.env[i], w.files) && AtNext(job.env[i], w'.files);
    forall app ensures Lookup(w'.files.env, app) == Lookup(w.files.env, app) {}
    SameByLookup(w'.files.env, w.files.env);
  }

  lemma {:induction false} StackedThroughout(run: seq<World>, i: nat)
    requires Run(run) && Inv(run[0]) && run[0].record.None? && i < |run|
    requires forall k :: 0 <= k < i ==> !AbandonsAt(run, k)
    ensures Stacked(run[i], run[0].files, Standing(run, i))
  {
    if i > 0 {
      StackedThroughout(run, i - 1);
      RunKeepsInv(run, i - 1);
      var k := i - 1;
      assert StepAt(run, k) && !AbandonsAt(run, k);
      StackedOn(run[k], run[k + 1], run[0].files, Standing(run, k));
    }
  }

  lemma WholeUnlessAbandoned(run: seq<World>, i: nat)
    requires Run(run) && Inv(run[0]) && run[0].record.None? && i < |run|
    requires forall k :: 0 <= k < i ==> !AbandonsAt(run, k)
    ensures Reading(run[i]) == InstallAll(run[0].files, Standing(run, i))
    ensures Quiet(run[i]) ==> run[i].files == InstallAll(run[0].files, Standing(run, i))
  {
    StackedThroughout(run, i);
    if Quiet(run[i]) {
      QuietReadsAsIs(run[i]);
    }
  }

  /** And every such giving up leaves something else at once: reading whole holds throughout a run exactly when no
      record is given up so. */
  lemma WholeExactly(run: seq<World>)
    requires Run(run) && Inv(run[0]) && run[0].record.None?
    ensures (forall i :: 0 <= i < |run| ==> Reading(run[i]) == InstallAll(run[0].files, Standing(run, i)))
            <==> (forall k :: 0 <= k < |run| - 1 ==> !AbandonsAt(run, k))
  {
    if forall k :: 0 <= k < |run| - 1 ==> !AbandonsAt(run, k) {
      forall i | 0 <= i < |run| ensures Reading(run[i]) == InstallAll(run[0].files, Standing(run, i)) {
        WholeUnlessAbandoned(run, i);
      }
    } else {
      var k :| 0 <= k < |run| - 1 && AbandonsAt(run, k);
      RunKeepsInv(run, k);
      AbandonBreaks(run[k], run[k + 1]);
      assert Standing(run, k + 1) == Standing(run, k);
    }
  }

  lemma AbandonBreaks(w: World, w': World)
    requires Inv(w) && Abandons(w, w')
    ensures Reading(w') != Reading(w) && !Commits(w, w') && !Retracts(w, w')
  {
    var job := w.record.value.job;
    if Begins(w, w') {
      RestoredAlready(w.files, w'.record.value.job);
    }
    if RestoreOver(w.files, job) == w.files {
      forall i | 0 <= i < |job.env| ensures AtPrev(job.env[i], w.files) {
        EntryAt(job.env, i);
        PutPrevAt(w.files.env, job.env, job.env[i].app);
      }
    }
  }

  // ----- what it takes to tear a record

  /** A record is committed unawares: its `applied` lands though the write is reported failed. */
  ghost predicate CommitsUnawares(w: World, w': World) { Commits(w, w') && w'.marks.stray }

  /** At j a record is committed unawares, and at k, with that record still on disk, a `rolling_back` to take its place
      fails to land. */
  ghost predicate Slips(run: seq<World>, j: nat, k: nat)
    requires j < k < |run| - 1
  {
    && CommitsUnawares(run[j], run[j + 1])
    && MissesRecord(run[k], run[k + 1]) && !run[k].marks.stuck
    && forall n :: j < n <= k ==> run[n].record == run[j + 1].record
  }

  ghost predicate SaysApplied(w: World) { w.record.Some? && w.record.value.phase == Applied }

  /** A step that leaves an `applied` record either commits it or finds it there. */
  lemma AppliedBefore(w: World, w': World)
    requires Next(w, w') && SaysApplied(w') && !Commits(w, w')
    ensures w.record == w'.record && w.marks.stray == w'.marks.stray
    ensures (w.marks.advanced ==> w'.marks.advanced) && (w.marks.answered ==> w'.marks.answered)
    ensures w'.marks.stuck && !w.marks.stuck ==> MissesRecord(w, w')
  {
    if RecordStep(w, w') {
    } else if FileStep(w, w') {
      FileStepShape(w, w');
    } else if ResultStep(w, w') {
      ResultStepShape(w, w');
    } else {
      ElseShape(w, w');
    }
  }

  lemma {:induction false} StraySince(run: seq<World>, i: nat) returns (j: nat)
    requires Run(run) && run[0].record.None? && i < |run| && SaysApplied(run[i]) && run[i].marks.stray
    ensures j < i && CommitsUnawares(run[j], run[j + 1])
    ensures forall n :: j < n <= i ==> run[n].record == run[i].record
  {
    j := i - 1;
    assert StepAt(run, j);
    if !Commits(run[j], run[i]) {
      AppliedBefore(run[j], run[i]);
      j := StraySince(run, i - 1);
    }
  }

  lemma {:induction false} StuckSince(run: seq<World>, i: nat) returns (j: nat, k: nat)
    requires Run(run) && run[0].record.None? && i < |run|
    requires SaysApplied(run[i]) && run[i].marks.stray && run[i].marks.stuck
    ensures j < k < i && Slips(run, j, k)
  {
    k := i - 1;
    assert StepAt(run, k);
    AppliedBefore(run[k], run[i]);
    if run[k].marks.stuck {
      j, k := StuckSince(run, k);
    } else {
      j := StraySince(run, k);
    }
  }

  /** A record that says `applied` over files partway back has had both its writes go wrong. */
  lemma TornNeedsBoth(run: seq<World>, i: nat) returns (j: nat, k: nat)
    requires Run(run) && Inv(run[0]) && run[0].record.None? && i < |run| && Torn(run[i])
    ensures j < k < i && Slips(run, j, k)
  {
    RunKeepsInv(run, i);
    j, k := StuckSince(run, i);
  }

  /** Over every run, from an instant with no record on, in which no `rolling_back` fails to land for a record committed
      unawares: at every instant the files read as the start's with whole sets installed, in the order of their commits;
      and so they are, whenever nothing is under way. */
  lemma AllOrNothing(run: seq<World>, i: nat)
    requires Run(run) && Inv(run[0]) && run[0].record.None? && i < |run|
    requires forall j, k :: 0 <= j < k < i ==> !Slips(run, j, k)
    ensures Reading(run[i]) == InstallAll(run[0].files, Standing(run, i))
    ensures Quiet(run[i]) ==> run[i].files == InstallAll(run[0].files, Standing(run, i))
  {
    forall n | 0 <= n < i ensures !AbandonsAt(run, n) {
      if AbandonsAt(run, n) {
        var j, k := TornNeedsBoth(run, n);
      }
    }
    WholeUnlessAbandoned(run, i);
  }

  /** A run leaves anything else only if both writes of a record have gone wrong in it. */
  lemma MixedOnlyBySlipping(run: seq<World>, i: nat) returns (j: nat, k: nat)
    requires Run(run) && Inv(run[0]) && run[0].record.None? && i < |run|
    requires Quiet(run[i]) && run[i].files != InstallAll(run[0].files, Standing(run, i))
    ensures j < k < i && Slips(run, j, k)
  {
    if forall j, k :: 0 <= j < k < i ==> !Slips(run, j, k) {
      AllOrNothing(run, i);
    }
    j, k :| 0 <= j < k < i && Slips(run, j, k);
  }

  // ----- and when a record can be torn

  /** At least two files of the set are to change. */
  ghost predicate TwoChange(job: Job)
  {
    || (CaddyInSet(job) && exists i :: 0 <= i < |job.env| && Differs(job.env[i]))
    || (exists i, j :: 0 <= i < j < |job.env| && Differs(job.env[i]) && Differs(job.env[j]))
  }

  predicate Differs(e: EnvEntry) { e.prev != e.next }

  /** A run from w, its record on disk throughout, that ends with the record torn. */
  ghost predicate Tears(run: seq<World>, w: World)
  {
    && Run(run) && run[0] == w && Torn(run[|run| - 1])
    && forall n :: 0 <= n < |run| ==> run[n].record == w.record
  }

  lemma TornTwoChange(job: Job, f: Files)
    requires Known(job, f) && !AllPrev(job, f) && !AllNext(job, f)
    ensures TwoChange(job)
  {
    if EnvAtNext(job, f) {
      var i :| 0 <= i < |job.env| && !AtPrev(job.env[i], f);
      assert AtNext(job.env[i], f) && Differs(job.env[i]);
    } else {
      var i :| 0 <= i < |job.env| && !AtNext(job.env[i], f);
      assert AtPrev(job.env[i], f) && Differs(job.env[i]);
      if !EnvAtPrev(job, f) {
        var j :| 0 <= j < |job.env| && !AtPrev(job.env[j], f);
        assert AtNext(job.env[j], f) && Differs(job.env[j]);
        assert i < j || j < i;
      }
    }
  }

  /** Under one `applied` record, what has been written stays written. */
  lemma {:induction false} WrittenStays(run: seq<World>, i: nat)
    requires Run(run) && i < |run| && SaysApplied(run[0]) && forall n :: 0 <= n <= i ==> run[n].record == run[0].record
    ensures run[i].marks.stray == run[0].marks.stray
    ensures (run[0].marks.advanced ==> run[i].marks.advanced) && (run[0].marks.answered ==> run[i].marks.answered)
  {
    if i > 0 {
      WrittenStays(run, i - 1);
      assert StepAt(run, i - 1);
      AppliedBefore(run[i - 1], run[i]);
    }
  }

  lemma {:induction false} FirstBack(run: seq<World>, i: nat)
    requires Run(run) && i < |run| && SaysApplied(run[0]) && InForce(run[0]) && !InForce(run[i])
    requires forall n :: 0 <= n <= i ==> run[n].record == run[0].record
    ensures run[0].marks.stray && !run[0].marks.advanced && !run[0].marks.answered
  {
    if InForce(run[i - 1]) {
      assert StepAt(run, i - 1);
      StepKinds(run[i - 1], run[i]);
      WrittenStays(run, i - 1);
    } else {
      FirstBack(run, i - 1);
    }
  }

  lemma TearNeeds(run: seq<World>, w: World)
    requires Inv(w) && SaysApplied(w) && InForce(w) && Tears(run, w)
    ensures w.marks.stray && !w.marks.advanced && !w.marks.answered && TwoChange(w.record.value.job)
  {
    var i := |run| - 1;
    RunKeepsInv(run, i);
    FirstBack(run, i);
    TornTwoChange(w.record.value.job, run[i].files);
  }

  /** One file back of two that were to change: no longer all new, and not yet all previous. */
  lemma EnvBackTears(w: World, w': World, i: nat)
    requires Inv(w) && SaysApplied(w) && InForce(w) && RestoresEnv(w, w', i)
    requires Differs(w.record.value.job.env[i]) && TwoChange(w.record.value.job)
    ensures Torn(w')
  {
    var job := w.record.value.job;
    PutEntry(job, w.files, i, job.env[i].prev);
    assert AtNext(job.env[i], w.files) && !AtNext(job.env[i], w'.files);
    if !CaddyInSet(job) {
      var j :| 0 <= j < |job.env| && j != i && Differs(job.env[j]);
      assert AtNext(job.env[j], w.files) && !AtPrev(job.env[j], w'.files);
    }
  }

  lemma CaddyBackTears(w: World, w': World)
    requires Inv(w) && SaysApplied(w) && InForce(w) && RestoresCaddy(w, w')
    requires CaddyInSet(w.record.value.job) && TwoChange(w.record.value.job)
    ensures Torn(w')
  {
    var job := w.record.value.job;
    var j :| 0 <= j < |job.env| && Differs(job.env[j]);
    assert AtNext(job.env[j], w.files) && !AtPrev(job.env[j], w'.files);
  }

  /** The first file back: an env file that had bytes; or the Caddyfile; or an env file that had none. */
  lemma FirstFileBack(w: World) returns (w': World)
    requires Inv(w) && SaysApplied(w) && InForce(w) && PutsBack(w) && TwoChange(w.record.value.job)
    ensures FileStep(w, w') && Torn(w') && w'.record == w.record
  {
    var job := w.record.value.job;
    if i :| 0 <= i < |job.env| && job.env[i].prev.Some? && Differs(job.env[i]) {
      w' := w.(files := w.files.(env := Put(w.files.env, job.env[i].app, job.env[i].prev)));
      assert RestoresEnv(w, w', i);
      EnvBackTears(w, w', i);
    } else if CaddyInSet(job) {
      w' := w.(files := w.files.(caddy := Option.Some(job.prev)));
      forall i | 0 <= i < |job.env| && job.env[i].prev.Some? ensures AtPrev(job.env[i], w.files) {
        assert !Differs(job.env[i]) && AtNext(job.env[i], w.files);
      }
      assert RestoresCaddy(w, w');
      CaddyBackTears(w, w');
    } else {
      var i :| 0 <= i < |job.env| && Differs(job.env[i]);
      w' := w.(files := w.files.(env := Put(w.files.env, job.env[i].app, job.env[i].prev)));
      assert RestoresEnv(w, w', i);
      EnvBackTears(w, w', i);
    }
  }

  lemma CanTear(w: World) returns (run: seq<World>)
    requires Inv(w) && SaysApplied(w) && InForce(w)
    requires w.marks.stray && !w.marks.advanced && !w.marks.answered && TwoChange(w.record.value.job)
    ensures Tears(run, w)
  {
    var stuck := w.(marks := w.marks.(stuck := true));
    assert MissesRecord(w, stuck);
    NextKeepsInv(w, stuck);
    var torn := FirstFileBack(stuck);
    run := RunOn([w], stuck);
    run := RunOn(run, torn);
  }

  /** A committed record can come to stand over files partway back if and only if its commit was unawares, its push has
      not been told of it and the baseline not advanced, and there are two files to be apart. */
  lemma TearsExactly(w: World)
    requires Inv(w) && SaysApplied(w) && InForce(w)
    ensures (exists run :: Tears(run, w))
            <==> w.marks.stray && !w.marks.advanced && !w.marks.answered && TwoChange(w.record.value.job)
  {
    if run :| Tears(run, w) {
      TearNeeds(run, w);
    }
    if w.marks.stray && !w.marks.advanced && !w.marks.answered && TwoChange(w.record.value.job) {
      var run := CanTear(w);
    }
  }
}
