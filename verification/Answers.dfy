/** What a push is told, over every run: a result that says nothing was changed is true exactly if the push was not
    lost — applied, its record gone, and its terminal result never written — and a push is lost only if that result
    failed to land. */
module Answers {
  import opened Atomicity
  import opened Box
  import opened Options
  import opened Protocol

  /** The push gets a terminal result. */
  ghost predicate Answers(w: World, w': World, id: Id)
  {
    exists p :: Terminal(p) && WritesResult(w, w', id, p)
  }

  /** How many of a push's commits stand since it last had a terminal result. */
  ghost function Debt(run: seq<World>, i: nat, id: Id): int
    requires i < |run|
  {
    if i == 0 then 0 else DebtAfter(run[i - 1], run[i], id, Debt(run, i - 1, id))
  }

  ghost function DebtAfter(w: World, w': World, id: Id, debt: int): int
  {
    if Answers(w, w', id) then 0
    else if Commits(w, w') && Holds(w', id) then debt + 1
    else if Retracts(w, w') && Holds(w, id) then debt - 1
    else debt
  }

  /** Beside the record on disk, commits of the push stand exactly if it is lost. */
  ghost predicate Accounted(w: World, id: Id, debt: int)
  {
    var rest := if Owed(w, id) then debt - 1 else debt;
    rest >= 0 && (rest > 0 <==> id in w.tale.lost)
  }

  lemma AnswersOnly(w: World, w': World, id: Id, id': Id, p: ResultPhase)
    requires WritesResult(w, w', id', p)
    ensures Answers(w, w', id) <==> id' == id && Terminal(p)
  {
    if q :| Terminal(q) && WritesResult(w, w', id, q) {
      assert w'.tale.results[id] == q && Lookup(w.tale.results, id) != Option.Some(q);
    }
  }

  lemma ResultAccounted(w: World, w': World, id: Id, debt: int, id': Id, p: ResultPhase)
    requires WritesResult(w, w', id', p) && Accounted(w, id, debt)
    ensures Accounted(w', id, DebtAfter(w, w', id, debt))
  {
    AnswersOnly(w, w', id, id', p);
    assert !Commits(w, w') && !Retracts(w, w');
  }

  lemma RecordAccounted(w: World, w': World, id: Id, debt: int)
    requires Inv(w) && RecordStep(w, w') && Accounted(w, id, debt)
    ensures Accounted(w', id, DebtAfter(w, w', id, debt))
  {
    assert !Answers(w, w', id) by {
      UnansweredIfSame(w, w', id);
    }
  }

  lemma UnansweredIfSame(w: World, w': World, id: Id)
    requires Lookup(w'.tale.results, id) == Lookup(w.tale.results, id)
    ensures !Answers(w, w', id)
  {
  }

  lemma FilesAccounted(w: World, w': World, id: Id, debt: int)
    requires Inv(w) && FileStep(w, w') && Accounted(w, id, debt)
    ensures Accounted(w', id, DebtAfter(w, w', id, debt))
  {
    UnansweredIfSame(w, w', id);
    if InForce(w') && w'.record.value.phase == Applied {
      FileStepStays(w, w');
    }
  }

  lemma ElseAccounted(w: World, w': World, id: Id, debt: int)
    requires Accounted(w, id, debt) && w'.files == w.files && w'.record == w.record
    requires w'.marks.answered == w.marks.answered && w'.tale.lost == w.tale.lost
    requires forall p :: Terminal(p) ==> !WritesResult(w, w', id, p)
    ensures Accounted(w', id, DebtAfter(w, w', id, debt))
  {
  }

  lemma StepAccounted(w: World, w': World, id: Id, debt: int)
    requires Inv(w) && Next(w, w') && Accounted(w, id, debt)
    ensures Accounted(w', id, DebtAfter(w, w', id, debt))
  {
    StepKinds(w, w');
    if id', p :| WritesResult(w, w', id', p) {
      ResultAccounted(w, w', id, debt, id', p);
    } else if FileStep(w, w') {
      FilesAccounted(w, w', id, debt);
    } else if RecordStep(w, w') {
      RecordAccounted(w, w', id, debt);
    } else {
      ElseAccounted(w, w', id, debt);
    }
  }

  lemma {:induction false} AccountedThroughout(run: seq<World>, i: nat, id: Id)
    requires Run(run) && Inv(run[0]) && run[0].record.None? && id !in run[0].tale.lost && i < |run|
    ensures Accounted(run[i], id, Debt(run, i, id))
  {
    if i > 0 {
      AccountedThroughout(run, i - 1, id);
      RunKeepsInv(run, i - 1);
      var k := i - 1;
      assert StepAt(run, k);
      StepAccounted(run[k], run[k + 1], id, Debt(run, k, id));
    }
  }

  /** `failed` and `refused` are true exactly if the push is not lost: no commit of it stands since it last had a
      terminal result. */
  lemma FailedIsTrue(run: seq<World>, i: nat, id: Id, p: ResultPhase)
    requires Run(run) && Inv(run[0]) && run[0].record.None? && id !in run[0].tale.lost && i < |run| - 1
    requires (p == Failed || p == Refused) && WritesResult(run[i], run[i + 1], id, p)
    ensures Debt(run, i, id) == 0 <==> id !in run[i].tale.lost
  {
    AccountedThroughout(run, i, id);
  }

  /** A bundle with no record behind it: nothing of its push stands since it last had a terminal result, exactly if
      the push is not lost. */
  lemma NoRecordNoChange(run: seq<World>, i: nat, id: Id)
    requires Run(run) && Inv(run[0]) && run[0].record.None? && id !in run[0].tale.lost && i < |run|
    requires !Holds(run[i], id)
    ensures Debt(run, i, id) == 0 <==> id !in run[i].tale.lost
  {
    AccountedThroughout(run, i, id);
  }

  ghost predicate AnswersAt(run: seq<World>, k: nat, id: Id)
    requires k < |run| - 1
  {
    Answers(run[k], run[k + 1], id)
  }

  // ----- when a push is lost

  /** The record goes, or is begun over, with its push applied and not told so: its terminal result failed to land. */
  ghost predicate Loses(w: World, w': World, id: Id)
  {
    Owed(w, id) && id in w.tale.untold && (RemovesRecord(w, w') || Begins(w, w'))
  }

  ghost predicate LosesAt(run: seq<World>, k: nat, id: Id)
    requires k < |run| - 1
  {
    Loses(run[k], run[k + 1], id)
  }

  /** The push was lost at a step, and has had no terminal result since. */
  ghost predicate LostSince(run: seq<World>, k: nat, i: nat, id: Id)
    requires k < i < |run|
  {
    LosesAt(run, k, id) && forall j :: k < j < i ==> !AnswersAt(run, j, id)
  }

  lemma LostByResult(w: World, w': World, id: Id, id': Id, p: ResultPhase)
    requires WritesResult(w, w', id', p)
    ensures id in w'.tale.lost <==> id in w.tale.lost && !Answers(w, w', id)
  {
    AnswersOnly(w, w', id, id', p);
  }

  lemma LostByRecord(w: World, w': World, id: Id)
    requires RecordStep(w, w')
    ensures id in w'.tale.lost <==> Loses(w, w', id) || id in w.tale.lost
    ensures !Answers(w, w', id)
  {
    UnansweredIfSame(w, w', id);
  }

  lemma LostByElse(w: World, w': World, id: Id)
    requires FileStep(w, w') || ElseStep(w, w') || ResultStep(w, w')
    requires !exists id, p :: WritesResult(w, w', id, p)
    ensures w'.tale.lost == w.tale.lost && w'.record == w.record
    ensures !Answers(w, w', id)
  {
    if FileStep(w, w') {
      FileStepShape(w, w');
    } else if ResultStep(w, w') {
      ResultStepShape(w, w');
    } else {
      ElseShape(w, w');
    }
  }

  lemma LostAfter(w: World, w': World, id: Id)
    requires Next(w, w')
    ensures id in w'.tale.lost <==> Loses(w, w', id) || (id in w.tale.lost && !Answers(w, w', id))
  {
    if RecordStep(w, w') {
      LostByRecord(w, w', id);
    } else if id', p :| WritesResult(w, w', id', p) {
      LostByResult(w, w', id, id', p);
    } else {
      LostByElse(w, w', id);
    }
  }

  ghost predicate WasLost(run: seq<World>, i: nat, id: Id)
    requires i < |run|
  {
    exists k :: 0 <= k < i && LostSince(run, k, i, id)
  }

  lemma WasLostAfter(run: seq<World>, i: nat, id: Id)
    requires i < |run| - 1
    ensures WasLost(run, i + 1, id) <==> LosesAt(run, i, id) || (WasLost(run, i, id) && !AnswersAt(run, i, id))
  {
    var n := i + 1;
    assert LostSince(run, i, n, id) == LosesAt(run, i, id);
    forall k | 0 <= k < i ensures LostSince(run, k, n, id) <==> LostSince(run, k, i, id) && !AnswersAt(run, i, id) {
    }
  }

  /** A push is lost exactly if it was applied, its terminal result failed to land, its record went so, and it has had
      no terminal result since. */
  lemma {:induction false} LostExactly(run: seq<World>, i: nat, id: Id)
    requires Run(run) && id !in run[0].tale.lost && i < |run|
    ensures id in run[i].tale.lost <==> WasLost(run, i, id)
  {
    if i > 0 {
      LostExactly(run, i - 1, id);
      assert StepAt(run, i - 1);
      LostAfter(run[i - 1], run[i], id);
      WasLostAfter(run, i - 1, id);
    }
  }

  // ----- what it takes to lose a push

  ghost predicate Misses(w: World, w': World, id: Id) { exists p :: MissesResult(w, w', id, p) }

  /** A terminal result of the push fails to land, and none had before it in its transaction. */
  ghost predicate MissesAt(run: seq<World>, k: nat, id: Id)
    requires k < |run| - 1
  {
    id !in run[k].tale.untold && Misses(run[k], run[k + 1], id)
  }

  /** It has had no terminal result since. */
  ghost predicate MissedSince(run: seq<World>, k: nat, i: nat, id: Id)
    requires k < i < |run|
  {
    MissesAt(run, k, id) && forall j :: k < j < i ==> !AnswersAt(run, j, id)
  }

  ghost predicate WasMissed(run: seq<World>, i: nat, id: Id)
    requires i < |run|
  {
    exists k :: 0 <= k < i && MissedSince(run, k, i, id)
  }

  lemma UntoldByResult(w: World, w': World, id: Id)
    requires ResultStep(w, w') && id in w'.tale.untold
    ensures w'.record == w.record && (id in w.tale.untold || Misses(w, w', id))
  {
    ResultStepShape(w, w');
    if id', p :| WritesResult(w, w', id', p) {
    } else if id', p :| MissesResult(w, w', id', p) {
      assert id in w.tale.untold || id' == id;
    }
  }

  lemma UntoldBefore(w: World, w': World, id: Id)
    requires Next(w, w') && id in w'.tale.untold && Holds(w', id)
    ensures if id in w.tale.untold then Holds(w, id) else Misses(w, w', id)
  {
    if ResultStep(w, w') {
      UntoldByResult(w, w', id);
    } else if FileStep(w, w') {
      FileStepShape(w, w');
    } else if RecordStep(w, w') {
    } else {
      ElseShape(w, w');
    }
  }

  lemma UntoldIsUnanswered(w: World, w': World, id: Id)
    requires id in w'.tale.untold
    ensures !Answers(w, w', id)
  {
  }

  /** While its record is on disk, a push is untold only if a result of it has failed to land since the record began. */
  lemma {:induction false} UntoldIsMissed(run: seq<World>, i: nat, id: Id)
    requires Run(run) && run[0].record.None? && i < |run| && id in run[i].tale.untold && Holds(run[i], id)
    ensures WasMissed(run, i, id)
  {
    var n := i - 1;
    assert StepAt(run, n);
    UntoldBefore(run[n], run[i], id);
    UntoldIsUnanswered(run[n], run[i], id);
    if id in run[n].tale.untold {
      UntoldIsMissed(run, n, id);
      var k :| 0 <= k < n && MissedSince(run, k, n, id);
      assert !AnswersAt(run, n, id);
      assert MissedSince(run, k, i, id);
    } else {
      assert MissedSince(run, n, i, id);
    }
  }

  /** No push is lost but one whose terminal result failed to land, and that has had none since. */
  lemma LostIsMissed(run: seq<World>, i: nat, id: Id)
    requires Run(run) && run[0].record.None? && id !in run[0].tale.lost && i < |run| && id in run[i].tale.lost
    ensures WasMissed(run, i, id)
  {
    LostExactly(run, i, id);
    var n :| 0 <= n < i && LostSince(run, n, i, id);
    UntoldIsMissed(run, n, id);
    var k :| 0 <= k < n && MissedSince(run, k, n, id);
    UnansweredIfSame(run[n], run[n + 1], id);
    assert !AnswersAt(run, n, id);
    assert MissedSince(run, k, i, id);
  }

  /** If no terminal result of the push has failed to land, or one has landed since, then whenever no record of it is on
      disk, or one is and says it is not applied, no commit of it stands since it last had a terminal result. */
  lemma TruthIfWritten(run: seq<World>, i: nat, id: Id)
    requires Run(run) && Inv(run[0]) && run[0].record.None? && id !in run[0].tale.lost && i < |run|
    requires !Owed(run[i], id) && !WasMissed(run, i, id)
    ensures Debt(run, i, id) == 0
  {
    AccountedThroughout(run, i, id);
    if id in run[i].tale.lost {
      LostIsMissed(run, i, id);
    }
  }

  // ----- what that says of the files

  predicate Of(job: Job, id: Id) { job.origin == FromApplier && job.id == id }

  function CountOf(jobs: seq<Job>, id: Id): nat
  {
    if jobs == [] then 0
    else CountOf(jobs[..|jobs| - 1], id) + if Of(jobs[|jobs| - 1], id) then 1 else 0
  }

  /** The record whose bytes are in force is of the last job that stands. */
  lemma {:induction false} LastStands(run: seq<World>, i: nat)
    requires Run(run) && Inv(run[0]) && run[0].record.None? && i < |run|
    ensures InForce(run[i]) && run[i].record.value.phase == Applied ==>
              var jobs := Standing(run, i); jobs != [] && jobs[|jobs| - 1] == run[i].record.value.job
  {
    if i > 0 {
      LastStands(run, i - 1);
      RunKeepsInv(run, i - 1);
      var k := i - 1;
      assert StepAt(run, k);
      if InForce(run[i]) && run[i].record.value.phase == Applied && !Commits(run[k], run[i]) {
        InForceStays(run[k], run[i]);
      }
    }
  }

  lemma CountAfter(w: World, w': World, id: Id, jobs: seq<Job>)
    requires !Answers(w, w', id)
    requires InForce(w) && w.record.value.phase == Applied ==> jobs != [] && jobs[|jobs| - 1] == w.record.value.job
    ensures DebtAfter(w, w', id, CountOf(jobs, id)) == CountOf(StandingAfter(w, w', jobs), id)
  {
    if Commits(w, w') {
      assert (jobs + [w'.record.value.job])[..|jobs|] == jobs;
    }
  }

  /** A push not answered yet has as many commits standing as there are jobs of it among those that stand. */
  lemma {:induction false} DebtIsCount(run: seq<World>, i: nat, id: Id)
    requires Run(run) && Inv(run[0]) && run[0].record.None? && i < |run|
    requires forall k :: 0 <= k < i ==> !AnswersAt(run, k, id)
    ensures Debt(run, i, id) == CountOf(Standing(run, i), id)
  {
    if i > 0 {
      var k := i - 1;
      DebtIsCount(run, k, id);
      LastStands(run, k);
      assert !AnswersAt(run, k, id);
      CountAfter(run[k], run[k + 1], id, Standing(run, k));
    }
  }

  lemma {:induction false} NoneOf(jobs: seq<Job>, id: Id)
    requires CountOf(jobs, id) == 0
    ensures forall job :: job in jobs ==> !Of(job, id)
  {
    if jobs != [] {
      NoneOf(jobs[..|jobs| - 1], id);
      assert jobs == jobs[..|jobs| - 1] + [jobs[|jobs| - 1]];
    }
  }

  /** The first thing a push is told, if it is `failed` or `refused` and no result of it has failed to land: the files
      read as the start's with whole sets of other jobs installed, and none of this push's. */
  lemma FailedLeftTheFiles(run: seq<World>, i: nat, id: Id, p: ResultPhase)
    requires Run(run) && Inv(run[0]) && run[0].record.None? && id !in run[0].tale.lost && i < |run| - 1
    requires (p == Failed || p == Refused) && WritesResult(run[i], run[i + 1], id, p)
    requires forall k :: 0 <= k < i ==> !AnswersAt(run, k, id) && !MissesAt(run, k, id)
    requires forall j, k :: 0 <= j < k < i ==> !Slips(run, j, k)
    ensures Reading(run[i]) == InstallAll(run[0].files, Standing(run, i))
    ensures forall job :: job in Standing(run, i) ==> !Of(job, id)
  {
    AllOrNothing(run, i);
    TruthIfWritten(run, i, id);
    DebtIsCount(run, i, id);
    NoneOf(Standing(run, i), id);
  }
}
