/** Two runs of the install protocol that end where it does not promise to, step by step. */
module Incidents {
  import opened Answers
  import opened Atomicity
  import opened Box
  import opened Options
  import opened Protocol
  import opened Recovery

  const OLD := Caddyfile("old", {})
  const NEW := Caddyfile("new", {})
  const SHOP := EnvEntry("shop", Option.Some("1"), Option.Some("2"))

  /** A push of one env file and the Caddyfile. */
  const PUSH := Job("a", FromApplier, "c", OLD, NEW, [SHOP], "t", map["shop" := "2"], [], [], [], [])

  /** A disk with the Caddyfile and the shop's file at these bytes, and the push's record, if any, at this phase. */
  function Scene(caddy: Caddyfile, shop: Bytes, phase: Option<Phase>, loaded: Caddyfile): World
  {
    var record := if phase.Some? then Option.Some(Record(PUSH, phase.value, "")) else None;
    World(Files(Option.Some(caddy), map["shop" := shop]), record, None, Marks(false, false, false, false),
          Tale(map[], {}, {}), Arrivals({}, {}), {}, Option.Some(loaded))
  }

  lemma ShopSet(caddy: Caddyfile, from: Bytes, to: Bytes)
    ensures Put(map["shop" := from], "shop", Option.Some(to)) == map["shop" := to]
  {
  }

  lemma PushBegins()
    ensures Next(Scene(OLD, "1", None, OLD), Scene(OLD, "1", Some(Installing), OLD))
    ensures Inv(Scene(OLD, "1", None, OLD))
  {
    var w, w' := Scene(OLD, "1", None, OLD), Scene(OLD, "1", Some(Installing), OLD);
    assert AtPrev(PUSH.env[0], w.files);
    assert Begins(w, w');
  }

  lemma PushSwaps()
    ensures Next(Scene(OLD, "1", Some(Installing), OLD), Scene(OLD, "2", Some(Installing), OLD))
    ensures Next(Scene(OLD, "2", Some(Installing), OLD), Scene(NEW, "2", Some(Installing), OLD))
  {
    ShopSet(OLD, "1", "2");
    assert WritesEnv(Scene(OLD, "1", Some(Installing), OLD), Scene(OLD, "2", Some(Installing), OLD), 0);
    assert AtNext(PUSH.env[0], Scene(OLD, "2", Some(Installing), OLD).files);
    assert WritesCaddy(Scene(OLD, "2", Some(Installing), OLD), Scene(NEW, "2", Some(Installing), OLD));
  }

  lemma PushReloads()
    ensures Next(Scene(NEW, "2", Some(Installing), OLD), Scene(NEW, "2", Some(Swapped), OLD))
    ensures Next(Scene(NEW, "2", Some(Swapped), OLD), Scene(NEW, "2", Some(Swapped), NEW))
  {
    assert AtNext(PUSH.env[0], Scene(NEW, "2", Some(Swapped), NEW).files);
    assert Moves(Scene(NEW, "2", Some(Installing), OLD), Scene(NEW, "2", Some(Swapped), OLD));
    assert Loads(Scene(NEW, "2", Some(Swapped), OLD), Scene(NEW, "2", Some(Swapped), NEW));
  }

  /** The push from its beginning to its swap, and to its reload. */
  lemma Swaps() returns (run: seq<World>)
    ensures Run(run) && Inv(run[0]) && run[0] == Scene(OLD, "1", None, OLD)
    ensures |run| == 4 && run[3] == Scene(NEW, "2", Some(Installing), OLD)
  {
    PushBegins();
    PushSwaps();
    run := [Scene(OLD, "1", None, OLD)];
    run := RunOn(run, Scene(OLD, "1", Some(Installing), OLD));
    run := RunOn(run, Scene(OLD, "2", Some(Installing), OLD));
    run := RunOn(run, Scene(NEW, "2", Some(Installing), OLD));
  }

  lemma Reloads() returns (run: seq<World>)
    ensures Run(run) && Inv(run[0]) && run[0] == Scene(OLD, "1", None, OLD)
    ensures |run| == 6 && run[5] == Scene(NEW, "2", Some(Swapped), NEW)
  {
    PushReloads();
    run := Swaps();
    run := RunOn(run, Scene(NEW, "2", Some(Swapped), OLD));
    run := RunOn(run, Scene(NEW, "2", Some(Swapped), NEW));
  }

  /** Its commit; stray says that the write of the record is reported failed all the same. */
  function Committed(stray: bool): World
  {
    Scene(NEW, "2", Some(Applied), NEW).(marks := Marks(false, false, stray, false))
  }

  lemma CommitStep(stray: bool)
    ensures Commits(Scene(NEW, "2", Some(Swapped), NEW), Committed(stray))
  {
    assert AtNext(PUSH.env[0], Committed(stray).files);
  }

  lemma Applies(stray: bool) returns (run: seq<World>)
    ensures Run(run) && Inv(run[0]) && run[0] == Scene(OLD, "1", None, OLD)
    ensures |run| == 7 && run[5] == Scene(NEW, "2", Some(Swapped), NEW) && run[6] == Committed(stray)
  {
    run := Reloads();
    CommitStep(stray);
    run := RunOn(run, Committed(stray));
  }

  /** One run, and then another from where a step of the first's end leads. */
  lemma RunsOn(run: seq<World>, more: seq<World>)
    requires Run(run) && Run(more) && Next(run[|run| - 1], more[0])
    ensures Run(run + more)
  {
    forall i | 0 <= i < |run + more| - 1 ensures StepAt(run + more, i) {
      if i < |run| - 1 {
        assert StepAt(run, i);
      } else if i >= |run| {
        assert StepAt(more, i - |run|);
      }
    }
  }

  lemma ThreeSteps(w0: World, w1: World, w2: World, w3: World)
    requires Next(w0, w1) && Next(w1, w2) && Next(w2, w3)
    ensures Run([w0, w1, w2, w3])
  {
    var run := [w0, w1, w2, w3];
    assert StepAt(run, 0) && StepAt(run, 1) && StepAt(run, 2);
  }

  // ----- a mix

  /** The `applied` record landed though its write failed, and the `rolling_back` did not: the shop's file is put back
      under it, and the rollback gets no further.  Recovery reads a mix under `applied`, says that it cannot tell, and
      the record goes. */
  const STUCK := Committed(true).(marks := Marks(false, false, true, true))
  const TORN := Scene(NEW, "1", Some(Applied), NEW).(marks := Marks(false, false, true, true))
  const TOLD := TORN.(tale := Tale(map["a" := Unknown], {}, {}), marks := Marks(false, true, true, true))
  const GONE := TOLD.(record := None, marks := Marks(false, true, false, false))

  lemma Sticks()
    ensures MissesRecord(Committed(true), STUCK)
  {
  }

  lemma Mixed()
    ensures Torn(TORN) && Torn(TOLD) && Recover(PUSH, Applied, StandingOf(PUSH, TOLD.files)) == LeaveAsFound
  {
    assert !AtNext(PUSH.env[0], TORN.files) && !CaddyAtPrev(PUSH, TORN.files);
    StandingReads(PUSH, TOLD.files);
  }

  lemma TearsUp()
    ensures Next(STUCK, TORN)
  {
    ShopSet(NEW, "2", "1");
    assert RestoresEnv(STUCK, TORN, 0);
  }

  lemma GivesUp()
    ensures Next(TORN, TOLD) && Next(TOLD, GONE) && Abandons(TOLD, GONE)
  {
    Mixed();
    assert WritesResult(TORN, TOLD, "a", Unknown);
    assert RemovesRecord(TOLD, GONE);
  }

  lemma SlipsThere(run: seq<World>, j: nat)
    requires |run| > j + 2 && run[j] == Scene(NEW, "2", Some(Swapped), NEW)
    requires run[j + 1] == Committed(true) && run[j + 2] == STUCK
    ensures Slips(run, j, j + 1)
  {
    CommitStep(true);
    Sticks();
  }

  lemma MixLeft() returns (run: seq<World>)
    ensures Run(run) && Inv(run[0]) && run[0].record.None? && |run| == 11 && run[10].record.None?
    // the Caddyfile new, the env file previous
    ensures run[10].files == Files(Option.Some(PUSH.next), map["shop" := "1"])
    ensures Recover(PUSH, Applied, StandingOf(PUSH, run[9].files)) == LeaveAsFound && AbandonsAt(run, 9)
    ensures Slips(run, 5, 6)
  {
    var start := Applies(true);
    Sticks();
    TearsUp();
    GivesUp();
    Mixed();
    ThreeSteps(STUCK, TORN, TOLD, GONE);
    RunsOn(start, [STUCK, TORN, TOLD, GONE]);
    run := start + [STUCK, TORN, TOLD, GONE];
    SlipsThere(run, 5);
  }

  // ----- a lie

  /** The push is applied and its baseline written; its `applied` result fails to land, its record goes, and the next
      run finds the bundle with no record and no result. */
  const DONE := Committed(false).(baseline := Option.Some(BaselineOf(PUSH)), marks := Marks(true, false, false, false))
  const MISSED := DONE.(tale := Tale(map[], {"a"}, {}))
  const LOST := MISSED.(record := None, tale := Tale(map[], {"a"}, {"a"}))
  const LIED := LOST.(tale := Tale(map["a" := Failed], {}, {}))

  lemma BaselineMoves()
    ensures Next(Committed(false), DONE)
  {
    assert AtNext(PUSH.env[0], DONE.files);
    assert WritesBaseline(Committed(false), DONE);
  }

  lemma ResultMissed()
    ensures MissesResult(DONE, MISSED, "a", WasApplied) && Next(DONE, MISSED)
  {
    assert MissesResult(DONE, MISSED, "a", WasApplied);
    assert ResultStep(DONE, MISSED);
  }

  lemma RecordGoes()
    ensures Next(MISSED, LOST) && WritesResult(LOST, LIED, "a", Failed) && Next(LOST, LIED)
  {
    assert AtNext(PUSH.env[0], MISSED.files);
    assert RemovesRecord(MISSED, LOST);
    assert WritesResult(LOST, LIED, "a", Failed);
    assert ResultStep(LOST, LIED);
  }

  lemma FailedThoughApplied() returns (run: seq<World>)
    ensures Run(run) && Inv(run[0]) && run[0].record.None? && run[0].tale.lost == {} && |run| == 11
    ensures MissesAt(run, 7, "a")
    ensures WritesResult(run[9], run[10], "a", Failed) && Debt(run, 9, "a") > 0
    ensures run[10].files == Files(Option.Some(PUSH.next), map["shop" := "2"])
    ensures run[10].baseline == Option.Some(BaselineOf(PUSH))
  {
    var start := Applies(false);
    BaselineMoves();
    ResultMissed();
    RecordGoes();
    ThreeSteps(DONE, MISSED, LOST, LIED);
    RunsOn(start, [DONE, MISSED, LOST, LIED]);
    run := start + [DONE, MISSED, LOST, LIED];
    FailedIsTrue(run, 9, "a", Failed);
    AccountedThroughout(run, 9, "a");
  }
}
