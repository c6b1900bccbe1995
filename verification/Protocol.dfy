/** The install transaction as a protocol over the disk: which single durable step may follow which
    state, and what holds over every run of such steps (box/txn.go, box/apply.go, box/results.go).

    A run is any sequence of states in which each is one step after the one before.  Nothing of a process's
    memory is in it, so a run goes on over a crash and the next process's recovery as over any other step;
    module Applier shows that every durable write the code makes is such a step. */
module Protocol {
  import opened Box
  import opened Options

  /** Of the transaction on disk, or the last one: it has written the baseline; its push has had its terminal result.
      Of the record on disk: it landed though its write was reported failed; a `rolling_back` to take its place has
      failed to land. */
  datatype Marks = Marks(advanced: bool, answered: bool, stray: bool, stuck: bool)

  /** The results on disk; the pushes whose terminal result failed to land, in the last transaction of theirs or since;
      and the pushes that were applied and whose record went with no terminal result written since. */
  datatype Tale = Tale(results: map<Id, ResultPhase>, untold: set<Id>, lost: set<Id>)

  datatype Arrivals = Arrivals(markers: set<Id>, inbox: set<Id>)

  /** The disk, and what motel has loaded (none: it is not running). */
  datatype World = World(files: Files, record: Option<Record>, baseline: Option<Baseline>, marks: Marks, tale: Tale,
                         arrivals: Arrivals, work: set<Id>, loaded: Option<Caddyfile>)

  /** The phase ends its push. */
  predicate Ends(p: Option<ResultPhase>) { p.Some? && Terminal(p.value) }

  ghost predicate Settled(w: World, id: Id) { Ends(Lookup(w.tale.results, id)) }

  /** motel runs the Caddyfile on disk, or is stopped and will load it when it starts. */
  ghost predicate LoadedCurrent(w: World) { w.loaded.None? || w.loaded == w.files.caddy }

  /** The transaction on disk has not settled: only then does it write anything. */
  ghost predicate Live(w: World)
  {
    w.record.Some? && (w.record.value.job.origin == FromApplier ==> !Settled(w, w.record.value.job.id))
  }

  predicate WellFormed(r: Record)
  {
    && DistinctApps(r.job.env) && Proper(r.job.env) && ListsItsSet(r.job)
    && (r.phase == NoChange ==> r.job.prev == r.job.next && r.job.env == [])
  }

  /** Phases whose new bytes are to stand. */
  predicate Committed(p: Phase) { p == Applied || p == NoChange }

  /** The record's new bytes are in force: its phase says so, and they stand. */
  predicate InForce(w: World)
  {
    w.record.Some? && Committed(w.record.value.phase) && AllNext(w.record.value.job, w.files)
  }

  /** Nothing is under way: no record, or one whose files are all where its phase leaves them, or all previous. */
  predicate Quiet(w: World)
  {
    w.record.Some? ==> InForce(w) || AllPrev(w.record.value.job, w.files)
  }

  /** A restore stopped partway under a record that says `applied`. */
  predicate Torn(w: World)
  {
    w.record.Some? && w.record.value.phase == Applied && !Quiet(w)
  }

  /** Nothing more will be done for the record on disk. */
  predicate Rested(w: World) { Quiet(w) || Torn(w) }

  /** The record may be rolled back: it has not committed, or it did so unawares and its push has not been told. */
  ghost predicate Undoable(w: World)
  {
    && Live(w) && w.record.value.phase != NoChange
    && (w.record.value.phase == Applied ==> w.marks.stray && !w.marks.advanced && !w.marks.answered)
  }

  /** Its files may be put back: if it says `applied`, only once it could not be made to say otherwise. */
  ghost predicate PutsBack(w: World)
  {
    Undoable(w) && (w.record.value.phase == Applied ==> w.marks.stuck)
  }

  /** The record on disk is of the push. */
  predicate Holds(w: World, id: Id)
  {
    w.record.Some? && w.record.value.job.origin == FromApplier && w.record.value.job.id == id
  }

  /** The record on disk is of the push, which is applied and has not been told so. */
  predicate Owed(w: World, id: Id)
  {
    InForce(w) && w.record.value.phase == Applied && Holds(w, id) && !w.marks.answered
  }

  /** The push of the record on disk has had its terminal result, or that failed to land. */
  predicate Told(w: World)
  {
    w.record.Some? && w.record.value.job.origin == FromApplier ==>
      w.marks.answered || w.record.value.job.id in w.tale.untold
  }

  /** The pushes lost once the record on disk goes. */
  function LostWith(w: World): set<Id>
  {
    if w.record.Some? && Owed(w, w.record.value.job.id) then w.tale.lost + {w.record.value.job.id} else w.tale.lost
  }

  /** The push a job is of; init's is of none. */
  function PushOf(job: Job): Option<Id>
  {
    if job.origin == FromApplier then Option.Some(job.id) else None
  }

  // ----- the steps

  ghost predicate WritesEnv(w: World, w': World, i: nat)
  {
    && Live(w) && w.record.value.phase == Installing && i < |w.record.value.job.env|
    && var e := w.record.value.job.env[i];
    && (e.next.None? ==> CaddyAtNext(w.record.value.job, w.files))
    && w' == w.(files := w.files.(env := Put(w.files.env, e.app, e.next)))
  }

  ghost predicate WritesCaddy(w: World, w': World)
  {
    && Live(w) && w.record.value.phase == Installing
    && var job := w.record.value.job;
    && (forall i :: 0 <= i < |job.env| && job.env[i].next.Some? ==> AtNext(job.env[i], w.files))
    && w' == w.(files := w.files.(caddy := Option.Some(job.next)))
  }

  ghost predicate RestoresEnv(w: World, w': World, i: nat)
  {
    && PutsBack(w) && i < |w.record.value.job.env|
    && var e := w.record.value.job.env[i];
    && (e.prev.None? ==> CaddyAtPrev(w.record.value.job, w.files))
    && w' == w.(files := w.files.(env := Put(w.files.env, e.app, e.prev)))
  }

  ghost predicate RestoresCaddy(w: World, w': World)
  {
    && PutsBack(w)
    && var job := w.record.value.job;
    && (forall i :: 0 <= i < |job.env| && job.env[i].prev.Some? ==> AtPrev(job.env[i], w.files))
    && w' == w.(files := w.files.(caddy := Option.Some(job.prev)))
  }

  /** A transaction begins: over nothing under way, its record holding the bytes that stand. */
  ghost predicate Begins(w: World, w': World)
  {
    && Rested(w) && Told(w) && Live(w')
    && var r := w'.record.value;
    && w' == w.(record := w'.record, marks := Marks(false, false, w'.marks.stray, false),
                tale := Tale(w.tale.results, Without(w.tale.untold, PushOf(r.job)), LostWith(w)))
    && WellFormed(r) && AllPrev(r.job, w.files) && (r.phase == Installing || r.phase == NoChange)
  }

  function Without(ids: set<Id>, id: Option<Id>): set<Id> { if id.Some? then ids - {id.value} else ids }

  /** The record moves on to another phase of the same job. */
  ghost predicate Moves(w: World, w': World)
  {
    && Live(w) && w'.record.Some?
    && w' == w.(record := w'.record, marks := w.marks.(stray := w'.marks.stray, stuck := false))
    && var (r, r') := (w.record.value, w'.record.value);
    && r.job == r'.job
    && match r'.phase
       case Swapped => r.phase == Installing && AllNext(r.job, w.files)
       case Applied =>
         r.phase == Swapped && !w.marks.answered && AllNext(r.job, w.files) && (CaddyInSet(r.job) ==> LoadedCurrent(w))
       case RollingBack => Undoable(w)
       case _ => false
  }

  /** The record goes, once its push has been told how it ended, or could not be. */
  ghost predicate RemovesRecord(w: World, w': World)
  {
    && Rested(w) && Told(w)
    && w' == w.(record := None, marks := w.marks.(stray := false, stuck := false), tale := w.tale.(lost := LostWith(w)))
  }

  /** A `rolling_back` fails to land. */
  ghost predicate MissesRecord(w: World, w': World)
  {
    Undoable(w) && w' == w.(marks := w.marks.(stuck := true))
  }

  /** Every env file a push's baseline will list is as it will list it. */
  ghost predicate ListedStand(job: Job, f: Files)
  {
    job.origin == FromApplier ==> forall app :: app in job.installed ==>
      Lookup(f.env, app) == Option.Some(job.installed[app])
  }

  ghost predicate WritesBaseline(w: World, w': World)
  {
    && InForce(w)
    && ListedStand(w.record.value.job, w.files)
    && w' == w.(baseline := Option.Some(BaselineOf(w.record.value.job)), marks := w.marks.(advanced := true))
  }

  /** When a result may say p of a push: by the record on disk alone. */
  ghost predicate MayReport(w: World, id: Id, p: ResultPhase)
  {
    && !Settled(w, id)
    && match p
       case Verified => true
       case WasApplied => Holds(w, id) && w.record.value.phase == Applied && w.marks.advanced
       case WasNoChange => Holds(w, id) && w.record.value.phase == NoChange && w.marks.advanced
       case RolledBack =>
         && Holds(w, id) && w.record.value.phase != NoChange && !w.marks.advanced
         && AllPrev(w.record.value.job, w.files)
         && (CaddyInSet(w.record.value.job) ==> LoadedCurrent(w))
       case Unknown => Rested(w)
       case _ => Rested(w) && (Holds(w, id) ==> w.record.value.phase != Applied) // failed, refused
  }

  /** w with the result in it. */
  function WithResult(w: World, id: Id, p: ResultPhase): World
  {
    if Terminal(p) then
      w.(tale := Tale(w.tale.results[id := p], w.tale.untold - {id}, w.tale.lost - {id}),
         marks := w.marks.(answered := w.marks.answered || Holds(w, id)))
    else w.(tale := w.tale.(results := w.tale.results[id := p]))
  }

  ghost predicate WritesResult(w: World, w': World, id: Id, p: ResultPhase)
  {
    MayReport(w, id, p) && w' == WithResult(w, id, p)
  }

  /** A terminal result fails to land. */
  ghost predicate MissesResult(w: World, w': World, id: Id, p: ResultPhase)
  {
    Terminal(p) && MayReport(w, id, p) && w' == w.(tale := w.tale.(untold := w.tale.untold + {id}))
  }

  /** A result goes when it is only `verified`, or once the push's marker has gone. */
  ghost predicate RemovesResult(w: World, w': World, id: Id)
  {
    (Settled(w, id) ==> id !in w.arrivals.markers) && w' == w.(tale := w.tale.(results := w.tale.results - {id}))
  }

  /** The push has its terminal result, or that failed to land. */
  ghost predicate Dealt(w: World, id: Id) { Settled(w, id) || id in w.tale.untold }

  /** The push's bundle is in in/ or work/. */
  predicate InTrays(w: World, id: Id) { id in w.arrivals.inbox || id in w.work }

  /** Markers come and go; bundles come, and go once their push has been dealt with. */
  ghost predicate MovesEntries(w: World, w': World)
  {
    && w' == w.(arrivals := w'.arrivals, work := w'.work)
    && forall id :: InTrays(w, id) ==> InTrays(w', id) || Dealt(w, id)
  }

  /** motel loads the Caddyfile on disk, or stops. */
  ghost predicate Loads(w: World, w': World)
  {
    (w'.loaded.None? || w'.loaded == w.files.caddy) && w' == w.(loaded := w'.loaded)
  }

  /** A file of the set changes. */
  ghost predicate FileStep(w: World, w': World)
  {
    || (exists i :: WritesEnv(w, w', i)) || WritesCaddy(w, w')
    || (exists i :: RestoresEnv(w, w', i)) || RestoresCaddy(w, w')
  }

  ghost predicate RecordStep(w: World, w': World) { Begins(w, w') || Moves(w, w') || RemovesRecord(w, w') }

  ghost predicate ResultStep(w: World, w': World)
  {
    || (exists id, p :: WritesResult(w, w', id, p)) || (exists id, p :: MissesResult(w, w', id, p))
    || (exists id :: RemovesResult(w, w', id))
  }

  ghost predicate ElseStep(w: World, w': World)
  {
    w' == w || WritesBaseline(w, w') || MissesRecord(w, w') || MovesEntries(w, w') || Loads(w, w')
  }

  ghost predicate Next(w: World, w': World)
  {
    FileStep(w, w') || RecordStep(w, w') || ResultStep(w, w') || ElseStep(w, w')
  }

  /** A step changes a file of the set, or the record, or neither. */
  lemma StepKinds(w: World, w': World)
    requires Next(w, w')
    ensures FileStep(w, w') || RecordStep(w, w') || (w'.files == w.files && w'.record == w.record)
    ensures FileStep(w, w') ==> w.record.Some? && w' == w.(files := w'.files)
    ensures RecordStep(w, w') ==> w'.files == w.files && w'.tale.results == w.tale.results
  {
    if FileStep(w, w') {
      FileStepShape(w, w');
    } else if RecordStep(w, w') {
    } else if ResultStep(w, w') {
      ResultStepShape(w, w');
    } else {
      ElseShape(w, w');
    }
  }

  lemma FileStepShape(w: World, w': World)
    requires FileStep(w, w')
    ensures w.record.Some? && w' == w.(files := w'.files)
  {
    if i :| WritesEnv(w, w', i) {
    } else if i :| RestoresEnv(w, w', i) {
    }
  }

  lemma ResultStepShape(w: World, w': World)
    requires ResultStep(w, w')
    ensures w' == w.(tale := w'.tale, marks := w.marks.(answered := w'.marks.answered))
    ensures w.marks.answered ==> w'.marks.answered
  {
    if id, p :| WritesResult(w, w', id, p) {
    } else if id, p :| MissesResult(w, w', id, p) {
    } else {
      var id :| RemovesResult(w, w', id);
    }
  }

  lemma ElseShape(w: World, w': World)
    requires ElseStep(w, w')
    ensures w' == w.(baseline := w'.baseline, marks := w'.marks, arrivals := w'.arrivals, work := w'.work,
                     loaded := w'.loaded)
    ensures w'.marks == w.marks.(advanced := w'.marks.advanced, stuck := w'.marks.stuck)
    ensures w.marks.advanced ==> w'.marks.advanced
  {
  }

  ghost predicate Run(run: seq<World>)
  {
    |run| > 0 && forall i :: 0 <= i < |run| - 1 ==> StepAt(run, i)
  }

  ghost predicate StepAt(run: seq<World>, i: nat)
    requires i < |run| - 1
  {
    Next(run[i], run[i + 1])
  }

  // ----- what every step keeps

  /** Where the set's files stand while its record is on disk: each at its previous or its new bytes, in an
      order in which the Caddyfile names no file that is not there. */
  ghost predicate InOrder(job: Job, f: Files)
  {
    && Known(job, f)
    && (CaddyInSet(job) && CaddyAtNext(job, f) ==>
          forall i :: 0 <= i < |job.env| && job.env[i].prev.None? ==> AtNext(job.env[i], f))
    && (CaddyInSet(job) && CaddyAtPrev(job, f) ==>
          forall i :: 0 <= i < |job.env| && job.env[i].next.None? ==> AtPrev(job.env[i], f))
  }

  ghost predicate RecordHolds(w: World, r: Record)
  {
    && WellFormed(r) && InOrder(r.job, w.files)
    && (r.phase == NoChange ==> AllNext(r.job, w.files))
    && (r.phase == Applied && InForce(w) && CaddyInSet(r.job) ==> LoadedCurrent(w))
    && (r.phase == Applied && !InForce(w) ==> w.marks.stray && w.marks.stuck)
    && (r.job.origin == FromApplier && Settled(w, r.job.id) ==> w.marks.answered)
  }

  /** The baseline's bytes are the ones that stand. */
  ghost predicate BaselineStands(b: Baseline, f: Files)
  {
    && f.caddy == Option.Some(b.caddy)
    && (b.signer == FromApplier ==> forall app :: app in b.secrets ==>
          Lookup(f.env, app) == Option.Some(b.secrets[app]))
  }

  ghost predicate Inv(w: World)
  {
    && (w.record.Some? ==> RecordHolds(w, w.record.value) && (Rested(w) || Live(w)))
    && (w.marks.advanced ==>
          && w.baseline.Some? && BaselineStands(w.baseline.value, w.files)
          && (w.record.Some? ==> InForce(w) && w.baseline.value == BaselineOf(w.record.value.job)))
  }

  lemma PutLookup<K, V>(m: map<K, V>, k: K, v: Option<V>, k': K)
    ensures Lookup(Put(m, k, v), k') == if k' == k then v else Lookup(m, k')
  {
  }

  /** Setting one env file of a set leaves the others where they were. */
  lemma PutEntry(job: Job, f: Files, i: nat, v: Option<Bytes>)
    requires DistinctApps(job.env) && i < |job.env|
    ensures var g := f.(env := Put(f.env, job.env[i].app, v));
            && (AtPrev(job.env[i], g) <==> v == job.env[i].prev) && (AtNext(job.env[i], g) <==> v == job.env[i].next)
            && forall j :: 0 <= j < |job.env| && j != i ==>
                 (AtPrev(job.env[j], g) <==> AtPrev(job.env[j], f)) &&
                 (AtNext(job.env[j], g) <==> AtNext(job.env[j], f))
  {
  }

  lemma EnvStepKeepsInv(w: World, w': World, i: nat)
    requires Inv(w) && (WritesEnv(w, w', i) || RestoresEnv(w, w', i))
    ensures Inv(w')
  {
    var job := w.record.value.job;
    PutEntry(job, w.files, i, if WritesEnv(w, w', i) then job.env[i].next else job.env[i].prev);
    if RestoresEnv(w, w', i) {
      PutEntry(job, w.files, i, job.env[i].prev);
    }
  }

  lemma RecordStepKeepsInv(w: World, w': World)
    requires Inv(w) && RecordStep(w, w')
    ensures Inv(w')
  {
  }

  lemma ResultStepKeepsInv(w: World, w': World)
    requires Inv(w) && ResultStep(w, w')
    ensures Inv(w')
  {
    ResultStepShape(w, w');
    if w.record.Some? && Settled(w', w.record.value.job.id) && w.record.value.job.origin == FromApplier {
      SettledIsAnswered(w, w', w.record.value.job.id);
    }
  }

  lemma SettledIsAnswered(w: World, w': World, own: Id)
    requires ResultStep(w, w') && Holds(w, own) && Settled(w', own)
    ensures Settled(w, own) || w'.marks.answered
  {
    if id, p :| WritesResult(w, w', id, p) {
      assert id == own || Lookup(w'.tale.results, own) == Lookup(w.tale.results, own);
    } else if id, p :| MissesResult(w, w', id, p) {
    } else {
      var id :| RemovesResult(w, w', id);
      assert Lookup(w'.tale.results, own) == Lookup(w.tale.results, own);
    }
  }

  lemma CaddyStepKeepsInv(w: World, w': World)
    requires Inv(w) && (WritesCaddy(w, w') || RestoresCaddy(w, w'))
    ensures Inv(w')
  {
  }

  lemma FileStepKeepsInv(w: World, w': World)
    requires Inv(w) && FileStep(w, w')
    ensures Inv(w')
  {
    if i :| WritesEnv(w, w', i) {
      EnvStepKeepsInv(w, w', i);
    } else if i :| RestoresEnv(w, w', i) {
      EnvStepKeepsInv(w, w', i);
    } else {
      CaddyStepKeepsInv(w, w');
    }
  }

  lemma ElseKeepsInv(w: World, w': World)
    requires Inv(w) && ElseStep(w, w')
    ensures Inv(w')
  {
  }

  lemma NextKeepsInv(w: World, w': World)
    requires Inv(w) && Next(w, w')
    ensures Inv(w')
  {
    if FileStep(w, w') {
      FileStepKeepsInv(w, w');
    } else if RecordStep(w, w') {
      RecordStepKeepsInv(w, w');
    } else if ResultStep(w, w') {
      ResultStepKeepsInv(w, w');
    } else {
      ElseKeepsInv(w, w');
    }
  }

  lemma {:induction false} RunKeepsInv(run: seq<World>, i: nat)
    requires Run(run) && Inv(run[0]) && i < |run|
    ensures Inv(run[i])
  {
    if i > 0 {
      RunKeepsInv(run, i - 1);
      assert StepAt(run, i - 1);
      NextKeepsInv(run[i - 1], run[i]);
    }
  }

  /** A run goes on by one step. */
  lemma RunOn(run: seq<World>, w: World) returns (run': seq<World>)
    requires Run(run) && Next(run[|run| - 1], w)
    ensures run' == run + [w] && Run(run')
  {
    run' := run + [w];
    forall i | 0 <= i < |run'| - 1 ensures StepAt(run', i) {
      assert i < |run| - 1 ==> StepAt(run, i);
    }
  }
}
