/** The box's disk as a process sees it: durable writes and removals that may fail, a service manager that may not
    answer, and a console and a motel that move on their own (box/durable.go, box/systemd.go). */
module Durable {
  import opened Box
  import opened Options
  import opened Protocol
  import opened Secrets

  /** What may happen meanwhile: motel loads the file on disk or stops, and bundles and markers come in. */
  ghost predicate Meanwhile(w: World, w': World)
  {
    && w' == w.(loaded := w'.loaded, arrivals := w'.arrivals)
    && (LoadedCurrent(w) ==> LoadedCurrent(w'))
  }

  /** w with a record on it: a transaction's first, or a later phase of the one on disk. */
  function WithRecord(w: World, r: Record, stray: bool): World
  {
    if r.phase == Installing || r.phase == NoChange then
      w.(record := Option.Some(r), marks := Marks(false, false, stray, false),
         tale := Tale(w.tale.results, Without(w.tale.untold, PushOf(r.job)), LostWith(w)))
    else w.(record := Option.Some(r), marks := w.marks.(stray := stray, stuck := false))
  }

  /** w after a record that did not land. */
  function RecordMissed(w: World, r: Record): World
  {
    if r.phase == RollingBack then w.(marks := w.marks.(stuck := true)) else w
  }

  function WithoutRecord(w: World): World
  {
    w.(record := None, marks := w.marks.(stray := false, stuck := false), tale := w.tale.(lost := LostWith(w)))
  }

  /** w after a result that did not land. */
  function ResultMissed(w: World, id: Id, p: ResultPhase): World
  {
    if Terminal(p) then w.(tale := w.tale.(untold := w.tale.untold + {id})) else w
  }

  ghost function WithEnv(w: World, app: App, v: Option<Bytes>): World
  {
    w.(files := w.files.(env := Put(w.files.env, app, v)))
  }

  ghost function WithCaddy(w: World, c: Caddyfile): World
  {
    w.(files := w.files.(caddy := Option.Some(c)))
  }

  datatype MotelState = Active | Reloading | Activating | Down

  /** The disk.  `hist` is every state it has been in, as far back as is of interest; `clean` says that no console
      has edited a file of the set: while it does, every state is one step of the protocol after the one before.
      `smooth` says that, besides, nothing a process asked for has failed; `writes` counts the files of a set that
      processes have tried to write or remove. */
  class Disk {
    var world: World
    var hist: seq<World>
    ghost var clean: bool
    ghost var smooth: bool
    ghost var writes: nat

    /** What every method leaves: the history has gone on, and what failed has failed. */
    twostate predicate Went()
      reads this
    {
      && Valid() && old(hist) <= hist && writes >= old(writes)
      && (smooth ==> old(smooth)) && (clean ==> old(clean))
    }

    /** And what one leaves that writes no file of a set. */
    twostate predicate LeftFiles()
      reads this
    {
      Went() && writes == old(writes)
    }

    ghost predicate Valid()
      reads this
    {
      |hist| > 0 && hist[|hist| - 1] == world && (smooth ==> clean) && (clean ==> Lawful(hist))
    }

    lemma InvNow()
      requires Valid() && clean
      ensures Inv(world)
    {
      assert LawfulAt(hist, |hist| - 1);
    }

    constructor (w: World)
      requires Inv(w)
      ensures Valid() && clean && smooth && world == w && hist == [w]
    {
      world := w;
      hist := [w];
      clean, smooth, writes := true, true, 0;
      new;
      assert LawfulAt(hist, 0);
    }

    /** The disk is now w'. */
    method Step(w': World)
      requires Valid() && (clean ==> Next(world, w'))
      modifies this`world, this`hist
      ensures Valid() && world == w' && hist == old(hist) + [w']
    {
      if clean {
        InvNow();
        NextKeepsInv(world, w');
        LawfulGrows(hist, w');
      }
      world := w';
      hist := hist + [w'];
    }

    /** The process that began when n states had been seen is killed, or the power goes: the disk is left in any of the
        states it has been in since. */
    method Crash(n: nat)
      requires Valid() && 0 < n <= |hist|
      modifies this`world, this`hist
      ensures Valid() && n <= |hist| <= |old(hist)| && hist == old(hist)[..|hist|] && world == hist[|hist| - 1]
    {
      var k: nat := *;
      if !(n <= k <= |hist|) {
        k := |hist|;
      }
      if clean {
        LawfulPrefix(hist, k);
      }
      hist := hist[..k];
      world := hist[k - 1];
    }

    /** What may happen between any two steps of a process: motel stops, or starts on the file on disk; a bundle
        lands in in/, and its marker if the push has no result; or a console edits the files. */
    method Elsewhere()
      requires Valid()
      modifies this
      ensures LeftFiles()
      ensures clean ==> Meanwhile(old(world), world)
      ensures forall id :: id in world.arrivals.markers ==>
                id in old(world).arrivals.markers || id !in world.tale.results
    {
      var moves, loads, edits: bool := *, *, *;
      if moves {
        Step(world.(loaded := if loads then world.files.caddy else None));
      }
      Arrive();
      if edits {
        var files: Files := *;
        clean, smooth := false, false;
        Step(world.(files := files));
      }
    }

    method Arrive()
      requires Valid()
      modifies this`world, this`hist
      ensures LeftFiles()
      ensures world == old(world).(arrivals := world.arrivals)
      ensures forall id :: id in world.arrivals.markers ==>
                id in old(world).arrivals.markers || id !in world.tale.results
    {
      var arrives: Option<Id> := *;
      if arrives.Some? {
        Step(world.(arrivals := world.arrivals.(inbox := world.arrivals.inbox + {arrives.value})));
        if arrives.value !in world.tale.results {
          Step(world.(arrivals := world.arrivals.(markers := world.arrivals.markers + {arrives.value})));
        }
      }
    }

    /** Whether something asked of the system is done. */
    method Succeeds() returns (ok: bool)
      requires Valid()
      modifies this`smooth
      ensures Valid() && (smooth ==> old(smooth)) && (!ok ==> !smooth) && (ok ==> smooth == old(smooth))
    {
      ok := *;
      if !ok {
        smooth := false;
      }
    }

    // ----- writes and removals: one that fails may have landed all the same

    /** txn.json, only a record that reads back.  One reported failed may be on disk, and is then a stray; a
        `rolling_back` that is not leaves the record that is stuck. */
    method WriteRecord(r: Record) returns (ok: bool)
      requires Valid() && (clean && WellFormed(r) ==> RecordLands(world, r))
      requires clean && r.phase == RollingBack ==> Undoable(world)
      modifies this
      ensures LeftFiles()
      ensures clean ==>
                || Meanwhile(WithRecord(old(world), r, !ok), world)
                || (!ok && Meanwhile(RecordMissed(old(world), r), world))
      ensures (ok ==> ValidRecord(r)) && (!ok && ValidRecord(r) ==> !smooth)
    {
      Elsewhere();
      if !ValidRecord(r) {
        MissRecord(r);
        return false;
      }
      ValidIsWellFormed(r);
      ok := PutRecord(r);
    }

    method PutRecord(r: Record) returns (ok: bool)
      requires Valid() && (clean ==> RecordLands(world, r)) && (clean && r.phase == RollingBack ==> Undoable(world))
      modifies this`world, this`hist, this`smooth
      ensures LeftFiles() && clean == old(clean) && (!ok ==> !smooth)
      ensures world == WithRecord(old(world), r, !ok) || (!ok && world == RecordMissed(old(world), r))
    {
      ok := Succeeds();
      var landed: bool := *;
      if ok || landed {
        Step(WithRecord(world, r, !ok));
      } else {
        MissRecord(r);
      }
    }

    method MissRecord(r: Record)
      requires Valid() && (clean && r.phase == RollingBack ==> Undoable(world))
      modifies this`world, this`hist
      ensures LeftFiles() && world == RecordMissed(old(world), r)
    {
      if r.phase == RollingBack {
        Step(RecordMissed(world, r));
      }
    }

    method RemoveRecord()
      requires Valid() && (clean ==> Rested(world) && Told(world))
      modifies this
      ensures LeftFiles()
      ensures clean ==> (Meanwhile(WithoutRecord(old(world)), world) || Meanwhile(old(world), world))
      ensures smooth ==> world.record.None?
    {
      Elsewhere();
      var ok := Succeeds();
      var landed: bool := *;
      if ok || landed {
        Step(WithoutRecord(world));
      }
    }

    /** An env file set to v, or removed; i is its place in the set of the record on disk. */
    method PutEnv(app: App, v: Option<Bytes>, ghost i: nat) returns (ok: bool)
      requires Valid() && (clean ==> EnvLands(world, app, v, i))
      modifies this
      ensures Went()
      ensures clean ==> (Meanwhile(WithEnv(old(world), app, v), world) || (!ok && Meanwhile(old(world), world)))
      ensures !ok ==> !smooth
    {
      Elsewhere();
      writes := writes + 1;
      ok := Succeeds();
      var landed: bool := *;
      if ok || landed {
        assert clean ==> EnvLands(world, app, v, i);
        Step(world.(files := world.files.(env := Put(world.files.env, app, v))));
      }
    }

    method PutCaddy(c: Caddyfile) returns (ok: bool)
      requires Valid() && (clean ==> CaddyLands(world, c))
      modifies this
      ensures Went()
      ensures clean ==>
                || WithCaddy(old(world), c) == world.(loaded := old(world).loaded, arrivals := old(world).arrivals)
                || (!ok && Meanwhile(old(world), world))
      ensures !ok ==> !smooth
    {
      Elsewhere();
      writes := writes + 1;
      ok := Succeeds();
      var landed: bool := *;
      if ok || landed {
        assert clean ==> CaddyLands(world, c);
        Step(world.(files := world.files.(caddy := Option.Some(c))));
      }
    }

    /** applied.json, from the job on disk. */
    method WriteBaseline(job: Job) returns (ok: bool)
      requires Valid()
      requires clean ==> InForce(world) && world.record.value.job == job && ListedStand(job, world.files)
      modifies this
      ensures LeftFiles()
      ensures clean ==> (Meanwhile(WithBaseline(old(world), job), world) || (!ok && Meanwhile(old(world), world)))
      ensures !ok ==> !smooth
    {
      Elsewhere();
      ok := Succeeds();
      var landed: bool := *;
      if ok || landed {
        Step(world.(baseline := Option.Some(BaselineOf(job)), marks := world.marks.(advanced := true)));
      }
    }

    /** A result, terminal or not; one that did not land is owed. */
    method WriteResult(id: Id, p: ResultPhase) returns (ok: bool)
      requires Valid() && (clean ==> MayReport(world, id, p))
      modifies this
      ensures LeftFiles()
      ensures clean ==>
                || Meanwhile(WithResult(old(world), id, p), world)
                || (!ok && Meanwhile(ResultMissed(old(world), id, p), world))
      ensures !ok ==> !smooth
    {
      Elsewhere();
      ok := Succeeds();
      var landed: bool := *;
      if ok || landed {
        assert clean ==> WritesResult(world, WithResult(world, id, p), id, p);
        Step(WithResult(world, id, p));
      } else if Terminal(p) {
        assert clean ==> MissesResult(world, ResultMissed(world, id, p), id, p);
        Step(ResultMissed(world, id, p));
      }
    }

    method RemoveResult(id: Id)
      requires Valid() && (clean ==> Settled(world, id) ==> id !in world.arrivals.markers)
      modifies this
      ensures LeftFiles()
      ensures clean ==> (Meanwhile(WithoutResult(old(world), id), world) || Meanwhile(old(world), world))
      ensures smooth ==> id !in world.tale.results
    {
      Elsewhere();
      var ok := Succeeds();
      var landed: bool := *;
      if ok || landed {
        assert clean ==> RemovesResult(world, WithoutResult(world, id), id);
        Step(WithoutResult(world, id));
      }
    }

    /** A bundle renamed from in/ into work/; ok says that it landed. */
    method TakeEntry(id: Id) returns (ok: bool)
      requires Valid()
      modifies this
      ensures LeftFiles()
      ensures clean ==> Meanwhile(old(world).(work := old(world).work + if ok then {id} else {}), world)
    {
      Elsewhere();
      ok := *;
      if ok {
        Step(world.(arrivals := world.arrivals.(inbox := world.arrivals.inbox - {id}), work := world.work + {id}));
      }
    }

    /** A bundle removed from work/, or from in/ where it could not be taken: its push has been dealt with. */
    method RemoveWork(id: Id)
      requires Valid() && (clean ==> Dealt(world, id))
      modifies this
      ensures LeftFiles()
      ensures clean ==> Meanwhile(old(world).(work := old(world).work - {id}), world) || Meanwhile(old(world), world)
    {
      Elsewhere();
      var landed: bool := *;
      if landed {
        Step(world.(work := world.work - {id}));
      }
    }

    method RemoveInbox(id: Id)
      requires Valid() && (clean ==> Dealt(world, id))
      modifies this
      ensures LeftFiles()
      ensures clean ==> Meanwhile(old(world), world)
    {
      Elsewhere();
      var landed: bool := *;
      if landed {
        Step(world.(arrivals := world.arrivals.(inbox := world.arrivals.inbox - {id})));
      }
    }

    /** A marker removed; ok only if it is gone. */
    method RemoveMarker(id: Id) returns (ok: bool)
      requires Valid()
      modifies this
      ensures LeftFiles()
      ensures clean ==> Meanwhile(old(world), world) && (ok ==> id !in world.arrivals.markers)
      ensures !ok ==> !smooth
    {
      Elsewhere();
      ok := Succeeds();
      var landed: bool := *;
      if ok || landed {
        Step(world.(arrivals := world.arrivals.(markers := world.arrivals.markers - {id})));
      }
    }

    // ----- motel

    /** `systemctl reload`: on success motel runs the file on disk; on failure it may do so too. */
    method Reload() returns (ok: bool)
      requires Valid()
      modifies this
      ensures LeftFiles()
      ensures clean ==> Meanwhile(old(world), world) && (ok ==> LoadedCurrent(world))
      ensures !ok ==> !smooth
    {
      Elsewhere();
      ok := Succeeds();
      var landed: bool := *;
      if ok || landed {
        Step(world.(loaded := world.files.caddy));
      }
    }

    /** `systemctl is-active`, waited out: motel's state, or no answer. */
    method IsActive() returns (state: Option<MotelState>)
      requires Valid()
      modifies this
      ensures LeftFiles()
      ensures clean ==> Meanwhile(old(world), world)
      ensures state != Option.Some(Active) ==> !smooth
    {
      Elsewhere();
      var active := Succeeds();
      state := Option.Some(Active);
      if !active {
        state := *;
      }
    }
  }

  ghost function WithBaseline(w: World, job: Job): World
  {
    w.(baseline := Option.Some(BaselineOf(job)), marks := w.marks.(advanced := true))
  }

  function WithoutResult(w: World, id: Id): World { w.(tale := w.tale.(results := w.tale.results - {id})) }

  /** The record may be written, whatever is reported of the write. */
  ghost predicate RecordLands(w: World, r: Record)
  {
    Begins(w, WithRecord(w, r, false)) || Moves(w, WithRecord(w, r, false))
  }

  ghost predicate EnvLands(w: World, app: App, v: Option<Bytes>, i: nat)
  {
    WritesEnv(w, WithEnv(w, app, v), i) || RestoresEnv(w, WithEnv(w, app, v), i)
  }

  ghost predicate CaddyLands(w: World, c: Caddyfile)
  {
    WritesCaddy(w, WithCaddy(w, c)) || RestoresCaddy(w, WithCaddy(w, c))
  }

  /** Every state of the history keeps the protocol's invariant and is one step after the one before. */
  ghost predicate Lawful(hist: seq<World>)
  {
    forall i :: 0 <= i < |hist| ==> LawfulAt(hist, i)
  }

  ghost predicate LawfulAt(hist: seq<World>, i: nat)
    requires i < |hist|
  {
    Inv(hist[i]) && (i > 0 ==> Next(hist[i - 1], hist[i]))
  }

  lemma LawfulGrows(hist: seq<World>, w: World)
    requires |hist| > 0 && Lawful(hist) && Inv(w) && Next(hist[|hist| - 1], w)
    ensures Lawful(hist + [w])
  {
    var hist' := hist + [w];
    forall i | 0 <= i < |hist'| ensures LawfulAt(hist', i) {
      if i < |hist| {
        assert LawfulAt(hist, i);
      }
    }
  }

  /** A lawful history is a run of the protocol, from wherever one looks. */
  lemma LawfulIsRun(hist: seq<World>, i: nat)
    requires Lawful(hist) && i < |hist|
    ensures Run(hist[i..]) && Inv(hist[i..][0])
  {
    assert LawfulAt(hist, i);
    forall k | 0 <= k < |hist[i..]| - 1 ensures StepAt(hist[i..], k) {
      assert LawfulAt(hist, i + k + 1);
    }
  }

  /** And so is what a crash leaves of it. */
  lemma LawfulPrefix(hist: seq<World>, n: nat)
    requires Lawful(hist) && n <= |hist|
    ensures Lawful(hist[..n])
  {
    forall i | 0 <= i < n ensures LawfulAt(hist[..n], i) {
      assert LawfulAt(hist, i);
    }
  }
}
