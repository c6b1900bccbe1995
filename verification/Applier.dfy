/** The install transaction as it runs, over a disk whose every write may fail (box/txn.go, box/envfiles.go). */
module Applier {
  import opened Box
  import opened Options
  import opened Protocol
  import opened Durable
  import opened Recovery
  import opened Secrets

  /** How a transaction leaves a run: ended; the previous bytes could not be written back; something could not be read
      or asked.  In the last two the record stays for the next run. */
  datatype Ended = Done | FullDisk | Unsettled

  /** How far putting the files back came. */
  datatype Restored = AllBack | EnvStuck(i: nat) | CaddyStuck

  /** One transaction in memory. */
  class Txn {
    var rec: Record
    const entry: bool // it has a bundle in work/
    var recorded: bool // a record of it may be on disk
    var outcome: Option<ResultPhase>

    constructor (rec: Record, entry: bool, recorded: bool)
      ensures this.rec == rec && this.entry == entry && this.recorded == recorded && outcome == None
    {
      this.rec, this.entry, this.recorded, this.outcome := rec, entry, recorded, None;
    }
  }

  /** Nothing has changed but the files, and what changes meanwhile. */
  ghost predicate SameBut(w: World, w': World)
  {
    w' == w.(files := w'.files, loaded := w'.loaded, arrivals := w'.arrivals)
  }

  /** Nothing of another push has changed. */
  ghost predicate OnlyThisPush(w: World, w': World, id: Id)
  {
    && (forall x :: x != id ==> Lookup(w'.tale.results, x) == Lookup(w.tale.results, x))
    && w'.tale.untold - {id} == w.tale.untold - {id} && w'.work - {id} == w.work - {id}
  }

  ghost predicate WroteOnly(m: map<Id, ResultPhase>, m': map<Id, ResultPhase>, id: Id)
  {
    forall x :: x != id ==> Lookup(m', x) == Lookup(m, x)
  }

  /** The push whose record is on disk, if one is. */
  function OwedTo(w: World): Option<Id>
  {
    if w.record.Some? then PushOf(w.record.value.job) else None
  }

  class Applier {
    const d: Disk
    /** Every id whose result this run wrote, or could not write, with its phase. */
    var wrote: map<Id, ResultPhase>

    constructor (d: Disk)
      ensures this.d == d && wrote == map[]
    {
      this.d := d;
      wrote := map[];
    }

    /** The push has ended: its terminal result is on disk, or this run could not write it. */
    ghost predicate SettledHere(id: Id)
      reads this, d
    {
      Ends(Lookup(wrote, id)) || Settled(d.world, id)
    }

    /** A record on disk is the given push's, or init's, or one of a push that has settled. */
    ghost predicate OthersSettled(mine: Option<Id>)
      reads this, d
    {
      d.clean && OwedTo(d.world).Some? && OwedTo(d.world) != mine ==> SettledHere(OwedTo(d.world).value)
    }

    /** Every push this run has ended has its terminal result, or that failed to land. */
    ghost predicate Honest()
      reads this, d
    {
      d.clean ==> forall x :: Ends(Lookup(wrote, x)) ==> Dealt(d.world, x)
    }

    /** Between transactions nothing is under way. */
    ghost predicate AtRest()
      reads this, d
    {
      (d.clean ==> Rested(d.world)) && OthersSettled(None) && Honest()
    }

    /** Within a transaction that has not settled. */
    ghost predicate Open(t: Txn)
      reads this, d, t
    {
      && d.Valid() && OthersSettled(PushOf(t.rec.job)) && Honest() && (t.entry ==> t.rec.job.origin == FromApplier)
      && (d.clean && t.rec.job.origin == FromApplier ==> !SettledHere(t.rec.job.id))
    }

    /** What every step of a transaction leaves: its job is what it was, and no other push is touched. */
    twostate predicate Kept(t: Txn)
      reads this, d, t
    {
      && d.Went() && t.rec.job == old(t.rec.job) && WroteOnly(old(wrote), wrote, t.rec.job.id)
      && (d.clean ==> OnlyThisPush(old(d.world), d.world, t.rec.job.id))
    }

    /** How a transaction leaves a run: ended, with nothing under way and its push answered; and with no failure it has
        ended, no record is left, and the push's result says how. */
    ghost predicate Closed(e: Ended, t: Txn)
      reads this, d, t
    {
      && (e == Done ==> AtRest() && (t.rec.job.origin == FromApplier ==> Ends(Lookup(wrote, t.rec.job.id))))
      && (d.smooth ==> e == Done && d.world.record.None? && Reported(t, d.world))
    }

    /** The transaction's record is on disk. */
    ghost predicate OnDisk(t: Txn)
      reads d, t
    {
      d.world.record.Some? && d.world.record.value.job == t.rec.job
    }

    // ----- results and removals

    method WriteResult(id: Id, p: ResultPhase) returns (ok: bool)
      requires d.Valid() && (d.clean ==> MayReport(d.world, id, p))
      modifies d, this`wrote
      ensures d.LeftFiles()
      ensures d.clean ==>
                || Meanwhile(WithResult(old(d.world), id, p), d.world)
                || (!ok && Meanwhile(ResultMissed(old(d.world), id, p), d.world))
      ensures d.clean ==> Finished(old(d.world), d.world, id) && d.world.record == old(d.world).record
      ensures d.clean && Terminal(p) ==> Dealt(d.world, id)
      ensures wrote == if Ends(Lookup(old(wrote), id)) then old(wrote) else old(wrote)[id := p]
      ensures !ok ==> !d.smooth
    {
      ok := d.WriteResult(id, p);
      if !Ends(Lookup(wrote, id)) { // an ended push stays ended
        wrote := wrote[id := p];
      }
    }

    method RemoveEntry(id: Id)
      requires d.Valid() && (d.clean ==> Dealt(d.world, id))
      modifies d
      ensures d.LeftFiles()
      ensures d.clean ==>
                && Finished(old(d.world), d.world, id) && d.world.record == old(d.world).record
                && d.world.tale == old(d.world).tale
    {
      d.RemoveWork(id);
    }

    /** Removes a `verified` whose push could not be answered otherwise. */
    method RemoveVerified(id: Id)
      requires d.Valid()
      modifies d
      ensures d.LeftFiles()
      ensures d.clean ==> Finished(old(d.world), d.world, id) && d.world.record == old(d.world).record
      ensures d.clean ==> (Settled(old(d.world), id) <==> Settled(d.world, id))
      ensures d.clean ==> d.world.tale.untold == old(d.world).tale.untold
    {
      if id in d.world.tale.results && d.world.tale.results[id] == Verified {
        d.RemoveResult(id);
      }
    }

    /** Ends a transaction: the result, then the record, then the entry.  The record goes only once the result has been
        written or has failed to land, and the entry likewise. */
    method Finish(t: Txn, p: ResultPhase)
      requires Open(t) && Terminal(p)
      requires d.clean ==>
                 && (t.recorded ==> Rested(d.world))
                 && (t.rec.job.origin == FromApplier ==> MayReport(d.world, t.rec.job.id, p))
      modifies d, this`wrote, t`outcome
      ensures d.LeftFiles()
      ensures d.clean ==> Finished(old(d.world), d.world, t.rec.job.id)
      ensures WroteOnly(old(wrote), wrote, t.rec.job.id) && t.outcome == Option.Some(p)
      ensures t.rec.job.origin == FromApplier ==> Ends(Lookup(wrote, t.rec.job.id))
      ensures d.clean && t.rec.job.origin == FromApplier ==> Dealt(d.world, t.rec.job.id)
      ensures (old(d.clean) ==> Rested(old(d.world))) ==> AtRest()
      ensures d.smooth ==> Reported(t, d.world)
      ensures d.smooth && t.recorded ==> d.world.record.None?
    {
      t.outcome := Option.Some(p);
      Report(t, p);
      ghost var w := d.world;
      CleanUp(t);
      if d.clean {
        FinishedOn(old(d.world), w, d.world, t.rec.job.id);
      }
      AtRestAfter(old(d.world), old(wrote), t.rec.job);
    }

    /** The record, then the entry. */
    method CleanUp(t: Txn)
      requires d.Valid() && (d.clean && t.recorded ==> Rested(d.world) && Told(d.world))
      requires d.clean && t.entry ==> Dealt(d.world, t.rec.job.id)
      modifies d
      ensures d.LeftFiles()
      ensures d.clean ==> Finished(old(d.world), d.world, t.rec.job.id)
      ensures d.clean ==> d.world.tale.results == old(d.world).tale.results
      ensures d.clean ==> d.world.tale.untold == old(d.world).tale.untold
      ensures d.smooth && t.recorded ==> d.world.record.None?
    {
      DropRecord(t);
      ghost var w := d.world;
      if t.entry {
        RemoveEntry(t.rec.job.id);
      }
      if d.clean {
        FinishedOn(old(d.world), w, d.world, t.rec.job.id);
      }
    }

    /** The result; after it, the record on disk may go. */
    method Report(t: Txn, p: ResultPhase)
      requires Open(t) && Terminal(p)
      requires d.clean && t.rec.job.origin == FromApplier ==> MayReport(d.world, t.rec.job.id, p)
      modifies d, this`wrote
      ensures d.LeftFiles()
      ensures d.clean ==> Finished(old(d.world), d.world, t.rec.job.id) && d.world.record == old(d.world).record
      ensures d.clean ==> Told(d.world) && (t.rec.job.origin == FromApplier ==> Dealt(d.world, t.rec.job.id))
      ensures d.smooth && t.rec.job.origin == FromApplier ==>
                Lookup(d.world.tale.results, t.rec.job.id) == Option.Some(p)
      ensures WroteOnly(old(wrote), wrote, t.rec.job.id)
      ensures t.rec.job.origin == FromApplier ==> Ends(Lookup(wrote, t.rec.job.id))
      ensures t.rec.job.origin == FromInit ==> wrote == old(wrote) && d.world == old(d.world) && d.clean == old(d.clean)
    {
      ToldOthers(t);
      if t.rec.job.origin == FromApplier {
        var _ := WriteResult(t.rec.job.id, p);
      }
    }

    /** A record on disk that is not the transaction's may go. */
    lemma ToldOthers(t: Txn)
      requires Open(t)
      ensures d.clean && OwedTo(d.world) != PushOf(t.rec.job) ==> Told(d.world)
    {
      if d.clean {
        d.InvNow();
      }
    }

    lemma ToldAtRest()
      requires d.Valid() && AtRest()
      ensures d.clean ==> Told(d.world)
    {
      if d.clean {
        d.InvNow();
      }
    }

    method DropRecord(t: Txn)
      requires d.Valid() && (d.clean && t.recorded ==> Rested(d.world) && Told(d.world))
      modifies d
      ensures d.LeftFiles()
      ensures d.clean ==> Finished(old(d.world), d.world, t.rec.job.id)
      ensures d.clean ==> d.world.tale.results == old(d.world).tale.results
      ensures d.clean ==> d.world.tale.untold == old(d.world).tale.untold
      ensures d.smooth && t.recorded ==> d.world.record.None?
    {
      if t.recorded {
        d.RemoveRecord();
      }
    }

    /** A console edited a file under the transaction: nothing is written, and it ends unknown. */
    method Changed(t: Txn) returns (e: Ended)
      requires Open(t) && (d.clean ==> Rested(d.world))
      modifies d, this`wrote, t`outcome
      ensures d.LeftFiles() && Kept(t)
      ensures e == Done && AtRest() && (t.rec.job.origin == FromApplier ==> Ends(Lookup(wrote, t.rec.job.id)))
      ensures d.smooth ==> Reported(t, d.world) && (t.recorded ==> d.world.record.None?)
      ensures d.clean ==> d.world.files == old(d.world).files
    {
      Finish(t, Unknown);
      return Done;
    }

    // ----- reading the set

    /** One env file of the set as it stands; it may not read. */
    method StateOf(t: Txn, i: nat) returns (err: bool, f: FileAt)
      requires d.Valid() && i < |t.rec.job.env|
      modifies d
      ensures d.LeftFiles()
      ensures d.clean ==> Meanwhile(old(d.world), d.world)
      ensures f == FileAt(AtPrev(t.rec.job.env[i], d.world.files), AtNext(t.rec.job.env[i], d.world.files))
      ensures err ==> !d.smooth
    {
      d.Elsewhere();
      var readable := d.Succeeds();
      err := !readable;
      f := FileAt(AtPrev(t.rec.job.env[i], d.world.files), AtNext(t.rec.job.env[i], d.world.files));
    }

    method CaddyStateOf(t: Txn) returns (err: bool, f: FileAt)
      requires d.Valid()
      modifies d
      ensures d.LeftFiles()
      ensures d.clean ==> Meanwhile(old(d.world), d.world)
      ensures f == FileAt(CaddyAtPrev(t.rec.job, d.world.files), CaddyAtNext(t.rec.job, d.world.files))
      ensures err ==> !d.smooth
    {
      d.Elsewhere();
      var readable := d.Succeeds();
      err := !readable;
      f := FileAt(CaddyAtPrev(t.rec.job, d.world.files), CaddyAtNext(t.rec.job, d.world.files));
    }

    /** Every file of the set as it stands: each as it was at some instant since the reading began. */
    method States(t: Txn) returns (err: bool, s: Standing)
      requires d.Valid()
      modifies d
      ensures d.LeftFiles()
      ensures d.clean ==> Meanwhile(old(d.world), d.world)
      ensures !err ==> |s.env| == |t.rec.job.env|
      ensures d.clean && !err ==> s == StandingOf(t.rec.job, d.world.files)
      ensures !err ==> AsSeen(t.rec.job, s, d.hist, |old(d.hist)| - 1)
      ensures err ==> !d.smooth
    {
      var caddy, env: seq<FileAt> := FileAt(false, false), [];
      err, caddy := CaddyStateOf(t);
      if err {
        return true, Standing(caddy, []);
      }
      assert CaddySeen(t.rec.job, caddy, d.hist, |old(d.hist)| - 1) by {
        assert d.hist[|d.hist| - 1] == d.world;
      }
      ghost var h := d.hist;
      err, env := EnvStates(t);
      if !err {
        SeenStays(t.rec.job, caddy, [], h, d.hist, |old(d.hist)| - 1);
        SinceStays(t.rec.job, env, d.hist, |old(d.hist)| - 1, |h| - 1);
      }
      return err, Standing(caddy, env);
    }

    method EnvStates(t: Txn) returns (err: bool, env: seq<FileAt>)
      requires d.Valid()
      modifies d
      ensures d.LeftFiles()
      ensures d.clean ==> Meanwhile(old(d.world), d.world)
      ensures !err ==> |env| == |t.rec.job.env|
      ensures d.clean && !err ==> env == StandingOf(t.rec.job, d.world.files).env
      ensures !err ==> EnvsSeen(t.rec.job, env, d.hist, |old(d.hist)| - 1)
      ensures err ==> !d.smooth
    {
      env := [];
      err := false;
      for i := 0 to |t.rec.job.env|
        invariant d.LeftFiles() && |env| == i && !err
        invariant d.clean ==> Meanwhile(old(d.world), d.world)
        invariant d.clean ==> env == StandingOf(t.rec.job, d.world.files).env[..i]
        invariant EnvsSeen(t.rec.job, env, d.hist, |old(d.hist)| - 1)
      {
        ghost var h := d.hist;
        var f;
        err, f := StateOf(t, i);
        if err {
          return;
        }
        SeenStays(t.rec.job, FileAt(false, false), env, h, d.hist, |old(d.hist)| - 1);
        assert EnvSeen(t.rec.job.env[i], f, d.hist, |old(d.hist)| - 1) by {
          assert d.hist[|d.hist| - 1] == d.world;
        }
        env := env + [f];
      }
    }

    // ----- applied and no_change

    /** Writes the baseline from a record that says `applied` or `no_change`, every file of the set re-read first, and
        for a push every env file the baseline will list; then ends the transaction as the phase says. */
    method Advance(t: Txn, p: ResultPhase) returns (e: Ended)
      requires Open(t) && t.recorded
      requires p == WasApplied || p == WasNoChange
      requires d.clean ==> OnDisk(t) && d.world.record.value.phase == (if p == WasApplied then Applied else NoChange)
      modifies d, this`wrote, t`outcome
      ensures d.LeftFiles() && Kept(t)
      ensures Closed(e, t)
      ensures d.smooth && InForce(old(d.world)) && MayList(t.rec.job, old(d.world).files) ==>
                Succeeded(e, t, p, d.world)
      ensures d.clean ==> d.world.files == old(d.world).files
    {
      var err, s := States(t);
      if err {
        return Unsettled;
      }
      if d.clean {
        d.InvNow();
        StandingReads(t.rec.job, d.world.files);
      }
      if !Every(s, AtItsNext) {
        e := Changed(t);
        return;
      }
      e := AdvanceListed(t, p);
    }

    /** For a push, every env file the baseline will list must stand too. */
    method AdvanceListed(t: Txn, p: ResultPhase) returns (e: Ended)
      requires Open(t) && t.recorded
      requires p == WasApplied || p == WasNoChange
      requires d.clean ==> OnDisk(t) && d.world.record.value.phase == (if p == WasApplied then Applied else NoChange)
      requires d.clean ==> InForce(d.world)
      modifies d, this`wrote, t`outcome
      ensures d.LeftFiles() && Kept(t)
      ensures Closed(e, t)
      ensures d.smooth && MayList(t.rec.job, old(d.world).files) ==> Succeeded(e, t, p, d.world)
      ensures d.clean ==> d.world.files == old(d.world).files
    {
      if t.rec.job.origin == FromApplier {
        var err, stand := ListedAsRecorded(t);
        if err {
          return Unsettled;
        }
        if !stand {
          e := Changed(t);
          return;
        }
      }
      PutBaseline(t, p);
      return Done;
    }

    method PutBaseline(t: Txn, p: ResultPhase)
      requires Open(t) && t.recorded
      requires p == WasApplied || p == WasNoChange
      requires d.clean ==> OnDisk(t) && d.world.record.value.phase == (if p == WasApplied then Applied else NoChange)
      requires d.clean ==> InForce(d.world) && ListedStand(t.rec.job, d.world.files)
      modifies d, this`wrote, t`outcome
      ensures d.LeftFiles() && Kept(t)
      ensures AtRest() && (t.rec.job.origin == FromApplier ==> Ends(Lookup(wrote, t.rec.job.id)))
      ensures d.smooth ==> Succeeded(Done, t, p, d.world)
      ensures d.smooth ==> d.world.record.None? && Reported(t, d.world)
      ensures d.clean ==> d.world.files == old(d.world).files
    {
      var ok := d.WriteBaseline(t.rec.job);
      if !ok {
        Finish(t, Unknown);
      } else {
        Finish(t, p);
      }
    }

    /** Whether one env file is as the baseline will list it. */
    method Stands(app: App, bytes: Bytes) returns (err: bool, same: bool)
      requires d.Valid()
      modifies d
      ensures d.LeftFiles()
      ensures d.clean ==> Meanwhile(old(d.world), d.world)
      ensures err ==> !d.smooth
      ensures d.clean && !err ==> same == (Lookup(d.world.files.env, app) == Option.Some(bytes))
    {
      d.Elsewhere();
      var readable := d.Succeeds();
      return !readable, Lookup(d.world.files.env, app) == Option.Some(bytes);
    }

    /** Whether every env file the baseline will list, those of the set aside, is as it will list it. */
    method ListedAsRecorded(t: Txn) returns (err: bool, stand: bool)
      requires d.Valid()
      requires d.clean ==> OnDisk(t) && InForce(d.world)
      modifies d
      ensures d.LeftFiles()
      ensures d.clean ==> Meanwhile(old(d.world), d.world)
      ensures d.clean && !err && stand ==> ListedStand(t.rec.job, d.world.files)
      ensures err ==> !d.smooth
      ensures d.clean && !err && !stand ==> !Ready(t.rec.job, d.world.files)
    {
      var job := t.rec.job;
      var left := set app | app in job.installed && EntryOf(job.env, app).None?;
      ghost var rest := left;
      while left != {}
        invariant d.LeftFiles()
        invariant d.clean ==> Meanwhile(old(d.world), d.world)
        invariant left <= rest
        invariant d.clean ==> forall app :: app in rest - left ==>
                    Lookup(d.world.files.env, app) == Option.Some(job.installed[app])
        decreases left
      {
        var app :| app in left;
        err, stand := Stands(app, job.installed[app]);
        if err || !stand {
          return err, false;
        }
        left := left - {app};
      }
      if d.clean {
        d.InvNow();
        SetIsListed(job, d.world.files);
      }
      return false, true;
    }

    // ----- rolling back

    /** The record is on disk, and may be rolled back. */
    ghost predicate Undoing(t: Txn)
      reads d, t
    {
      d.clean ==>
        && OnDisk(t) && d.world.record.value.phase != NoChange
        && (d.world.record.value.phase == Applied ==>
              d.world.marks.stray && !d.world.marks.advanced && !d.world.marks.answered)
    }

    /** And its files may be put back. */
    ghost predicate Restoring(t: Txn)
      reads d, t
    {
      Undoing(t) && (d.clean && d.world.record.value.phase == Applied ==> d.world.marks.stuck)
    }

    /** Puts one env file back — its bytes, or no file — retrying once; a write whose rename landed counts. */
    method RestoreEnv(t: Txn, i: nat) returns (ok: bool)
      requires Open(t) && Restoring(t) && i < |t.rec.job.env|
      requires d.clean && t.rec.job.env[i].prev.None? ==> CaddyAtPrev(t.rec.job, d.world.files)
      modifies d
      ensures d.Went()
      ensures d.clean ==> OneEnvBack(old(d.world), d.world, t.rec.job.env[i])
      ensures d.clean && ok ==> AtPrev(t.rec.job.env[i], d.world.files)
      ensures !ok ==> !d.smooth
    {
      ok := TryEnvBack(t, i);
      ghost var w1 := d.world;
      if !ok {
        ok := TryEnvBack(t, i);
        if d.clean {
          OneEnvBackTwice(old(d.world), w1, d.world, t.rec.job.env[i]);
        }
      }
      if !ok {
        ghost var w2 := d.world;
        var err, f := StateOf(t, i);
        ok := !err && f.prev;
        if d.clean {
          OneEnvBackTwice(old(d.world), w2, d.world, t.rec.job.env[i]);
        }
      }
    }

    method TryEnvBack(t: Txn, i: nat) returns (ok: bool)
      requires Open(t) && Restoring(t) && i < |t.rec.job.env|
      requires d.clean && t.rec.job.env[i].prev.None? ==> CaddyAtPrev(t.rec.job, d.world.files)
      modifies d
      ensures d.Went()
      ensures d.clean ==> OneEnvBack(old(d.world), d.world, t.rec.job.env[i])
      ensures d.clean && ok ==> AtPrev(t.rec.job.env[i], d.world.files)
      ensures !ok ==> !d.smooth
    {
      ok := d.PutEnv(t.rec.job.env[i].app, t.rec.job.env[i].prev, i);
    }

    /** Writes the previous Caddyfile back, the same way. */
    method RestoreCaddy(t: Txn) returns (ok: bool)
      requires Open(t) && Restoring(t)
      requires d.clean ==> forall j :: 0 <= j < |t.rec.job.env| && t.rec.job.env[j].prev.Some? ==>
                 AtPrev(t.rec.job.env[j], d.world.files)
      modifies d
      ensures d.Went()
      ensures d.clean ==> CaddyBack(old(d.world), d.world, t.rec.job)
      ensures d.clean && ok ==> CaddyAtPrev(t.rec.job, d.world.files)
      ensures !ok ==> !d.smooth
    {
      ok := d.PutCaddy(t.rec.job.prev);
      if !ok {
        ok := d.PutCaddy(t.rec.job.prev);
      }
      if !ok {
        var err, f := CaddyStateOf(t);
        ok := !err && f.prev;
      }
    }

    /** Puts back, of the env files that were not read at their previous bytes, those that had bytes, or those that
        had none. */
    method RestoreEnvs(t: Txn, s: Standing, withBytes: bool) returns (ok: bool, i: nat)
      requires Open(t) && Restoring(t) && |s.env| == |t.rec.job.env|
      requires d.clean ==> AsRead(t.rec.job, s, d.world.files)
      requires d.clean && !withBytes ==> CaddyAtPrev(t.rec.job, d.world.files)
      modifies d
      ensures d.Went()
      ensures !ok ==> i < |t.rec.job.env|
      ensures d.clean ==> EnvsBack(old(d.world), d.world, t.rec.job)
      ensures d.clean && ok ==>
                forall j :: 0 <= j < |t.rec.job.env| && t.rec.job.env[j].prev.Some? == withBytes ==>
                  AtPrev(t.rec.job.env[j], d.world.files)
      ensures !ok ==> !d.smooth
    {
      var job := t.rec.job;
      i := 0;
      while i < |job.env|
        invariant i <= |job.env| && Open(t) && Restoring(t) && d.Went()
        invariant d.clean ==> EnvsBack(old(d.world), d.world, job)
        invariant d.clean ==>
                    forall j :: 0 <= j < i && job.env[j].prev.Some? == withBytes ==> AtPrev(job.env[j], d.world.files)
      {
        if !s.env[i].prev && job.env[i].prev.Some? == withBytes {
          ghost var w := d.world;
          if d.clean {
            d.InvNow();
          }
          ok := RestoreEnv(t, i);
          if d.clean {
            EnvsBackOn(old(d.world), w, d.world, job, i);
          }
          if !ok {
            return false, i;
          }
        }
        i := i + 1;
      }
      return true, i;
    }

    /** Every file of the set put back, the swap's order reversed: the env files that had bytes, then the Caddyfile,
        then the ones the push added go; then, if the Caddyfile was in the set, a reload. */
    method RollBackFiles(t: Txn, recovering: bool) returns (e: Ended, ghost read: Option<Standing>)
      requires Open(t) && t.recorded && Restoring(t)
      requires d.clean && recovering ==> d.world.record.value.phase != Applied
      modifies d, this`wrote, t`outcome
      ensures Kept(t)
      ensures Closed(e, t)
      ensures d.smooth ==> t.outcome == Option.Some(RolledBack) && AllPrev(t.rec.job, d.world.files)
      ensures read.Some? ==> AsSeen(t.rec.job, read.value, d.hist, |old(d.hist)| - 1)
      ensures read.Some? && !EveryOfSet(t.rec.job, read.value, IsKnown) ==> d.writes == old(d.writes) // left as found
    {
      var err, s := States(t);
      read := None;
      if err {
        return Unsettled, None;
      }
      read := Option.Some(s);
      ghost var h := d.hist;
      e := PutBack(t, s, recovering);
      AsSeenStays(t.rec.job, s, h, d.hist, |old(d.hist)| - 1);
    }

    method PutBack(t: Txn, s: Standing, recovering: bool) returns (e: Ended)
      requires Open(t) && t.recorded && Restoring(t)
      requires d.clean && recovering ==> d.world.record.value.phase != Applied
      requires |s.env| == |t.rec.job.env| && (d.clean ==> s == StandingOf(t.rec.job, d.world.files))
      modifies d, this`wrote, t`outcome
      ensures Kept(t)
      ensures Closed(e, t)
      ensures d.smooth ==> t.outcome == Option.Some(RolledBack) && AllPrev(t.rec.job, d.world.files)
      ensures !EveryOfSet(t.rec.job, s, IsKnown) ==> d.writes == old(d.writes)
    {
      if d.clean {
        d.InvNow();
        StandingReads(t.rec.job, d.world.files);
      }
      if !EveryOfSet(t.rec.job, s, IsKnown) {
        e := Changed(t);
        return;
      }
      var back := RestoreAll(t, s);
      match back {
        case EnvStuck(i) =>
          e := RestoreFailed(t, i);
        case CaddyStuck =>
          e := FullDisk;
        case AllBack =>
          e := AfterRollback(t, recovering);
      }
    }

    method RestoreAll(t: Txn, s: Standing) returns (back: Restored)
      requires Open(t) && Restoring(t) && |s.env| == |t.rec.job.env|
      requires d.clean ==> s == StandingOf(t.rec.job, d.world.files)
      modifies d
      ensures d.Went()
      ensures d.clean ==> SameBut(old(d.world), d.world)
      ensures back.EnvStuck? ==> back.i < |t.rec.job.env|
      ensures d.clean && back == AllBack ==> AllPrev(t.rec.job, d.world.files)
      ensures back != AllBack ==> !d.smooth
    {
      if d.clean {
        d.InvNow();
      }
      var ok, i := RestoreEnvs(t, s, true);
      if !ok {
        return EnvStuck(i);
      }
      back := RestoreFrom(t, s);
    }

    /** Then the Caddyfile. */
    method RestoreFrom(t: Txn, s: Standing) returns (back: Restored)
      requires Open(t) && Restoring(t) && |s.env| == |t.rec.job.env|
      requires d.clean ==> AsRead(t.rec.job, s, d.world.files) && HadBytesBack(t.rec.job, d.world.files)
      requires d.clean && (CaddyInSet(t.rec.job) ==> s.caddy.prev) ==> CaddyAtPrev(t.rec.job, d.world.files)
      modifies d
      ensures d.Went()
      ensures d.clean ==> SameBut(old(d.world), d.world)
      ensures back.EnvStuck? ==> back.i < |t.rec.job.env|
      ensures d.clean && back == AllBack ==> AllPrev(t.rec.job, d.world.files)
      ensures back != AllBack ==> !d.smooth
    {
      if CaddyInSet(t.rec.job) && !s.caddy.prev {
        var ok := RestoreCaddy(t);
        if !ok {
          return CaddyStuck;
        }
      }
      back := RestoreRest(t, s);
    }

    /** Last, the env files that were not there go. */
    method RestoreRest(t: Txn, s: Standing) returns (back: Restored)
      requires Open(t) && Restoring(t) && |s.env| == |t.rec.job.env|
      requires d.clean ==> CaddyAtPrev(t.rec.job, d.world.files) && AsRead(t.rec.job, s, d.world.files)
      requires d.clean ==> HadBytesBack(t.rec.job, d.world.files)
      modifies d
      ensures d.Went()
      ensures d.clean ==> SameBut(old(d.world), d.world)
      ensures back != CaddyStuck && (back.EnvStuck? ==> back.i < |t.rec.job.env|)
      ensures d.clean && back == AllBack ==> AllPrev(t.rec.job, d.world.files)
      ensures back != AllBack ==> !d.smooth
    {
      var ok, i := RestoreEnvs(t, s, false);
      return if ok then AllBack else EnvStuck(i);
    }

    /** An env file's write-back failed: a console's doing if it now reads as neither, else the disk is full. */
    method RestoreFailed(t: Txn, i: nat) returns (e: Ended)
      requires Open(t) && Restoring(t) && i < |t.rec.job.env|
      modifies d, this`wrote, t`outcome
      ensures d.LeftFiles() && Kept(t)
      ensures e == Done ==> AtRest() && (t.rec.job.origin == FromApplier ==> Ends(Lookup(wrote, t.rec.job.id)))
    {
      var err, f := StateOf(t, i);
      if d.clean {
        d.InvNow();
      }
      if !err && !f.prev && !f.next {
        e := Changed(t);
        return;
      }
      return FullDisk;
    }

    /** The end of a rollback whose files are back. */
    method AfterRollback(t: Txn, recovering: bool) returns (e: Ended)
      requires Open(t) && t.recorded && Restoring(t)
      requires d.clean && recovering ==> d.world.record.value.phase != Applied
      requires d.clean ==> AllPrev(t.rec.job, d.world.files)
      modifies d, this`wrote, t`outcome
      ensures d.LeftFiles() && Kept(t)
      ensures Closed(e, t)
      ensures d.smooth ==> t.outcome == Option.Some(RolledBack) && AllPrev(t.rec.job, d.world.files)
    {
      e := Done;
      if !CaddyInSet(t.rec.job) {
        EndBack(t, RolledBack);
        return;
      }
      if recovering {
        var state := d.IsActive();
        if state.None? {
          return Unsettled;
        }
        if !(state.value == Active || state.value == Reloading) { // the previous bytes load at its next start
          EndBack(t, Failed);
          return;
        }
      }
      ReloadBack(t);
    }

    /** motel is reloaded on the previous bytes, or the push cannot be told what it runs. */
    method ReloadBack(t: Txn)
      requires Open(t) && t.recorded && Restoring(t)
      requires d.clean ==> AllPrev(t.rec.job, d.world.files)
      modifies d, this`wrote, t`outcome
      ensures d.LeftFiles()
      ensures d.clean ==> OnlyThisPush(old(d.world), d.world, t.rec.job.id) && AllPrev(t.rec.job, d.world.files)
      ensures WroteOnly(old(wrote), wrote, t.rec.job.id)
      ensures AtRest() && (t.rec.job.origin == FromApplier ==> Ends(Lookup(wrote, t.rec.job.id)))
      ensures d.smooth ==> d.world.record.None? && t.outcome == Option.Some(RolledBack) && Reported(t, d.world)
    {
      var ok := d.Reload();
      EndBack(t, if ok then RolledBack else Unknown);
    }

    /** Ends a rollback whose files are back, as what could be learned of motel says. */
    method EndBack(t: Txn, p: ResultPhase)
      requires Open(t) && t.recorded && Restoring(t) && (p == RolledBack || p == Failed || p == Unknown)
      requires d.clean && p == RolledBack && CaddyInSet(t.rec.job) ==> LoadedCurrent(d.world)
      requires d.clean && p == Failed ==> d.world.record.value.phase != Applied
      requires d.clean ==> AllPrev(t.rec.job, d.world.files)
      modifies d, this`wrote, t`outcome
      ensures d.LeftFiles() && t.outcome == Option.Some(p)
      ensures d.clean ==> OnlyThisPush(old(d.world), d.world, t.rec.job.id) && AllPrev(t.rec.job, d.world.files)
      ensures WroteOnly(old(wrote), wrote, t.rec.job.id)
      ensures AtRest() && (t.rec.job.origin == FromApplier ==> Ends(Lookup(wrote, t.rec.job.id)))
      ensures d.smooth ==> d.world.record.None? && Reported(t, d.world)
    {
      if d.clean {
        d.InvNow();
      }
      Finish(t, p);
    }

    /** Says so in the record, if it can be written, then rolls back: also under a record on disk that says `applied`
        though its write failed, if this write fails too. */
    method Rollback(t: Txn, why: string, recovering: bool) returns (e: Ended)
      requires Open(t)
      requires Undoing(t) && (d.clean && recovering ==> d.world.record.value.phase != Applied)
      modifies d, this`wrote, t
      ensures Kept(t)
      ensures Closed(e, t)
      ensures d.smooth ==> t.outcome == Option.Some(RolledBack) && AllPrev(t.rec.job, d.world.files)
    {
      t.rec := t.rec.(phase := RollingBack, why := why);
      t.recorded := true;
      if d.clean {
        d.InvNow();
      }
      var _ := d.WriteRecord(t.rec);
      ghost var read;
      e, read := RollBackFiles(t, recovering);
    }

    // ----- the swap

    ghost predicate InPhase(t: Txn, phase: Phase)
      reads d, t
    {
      d.clean ==> OnDisk(t) && d.world.record.value.phase == phase && !d.world.marks.answered
    }

    /** One env file of the set, written or removed. */
    method SwapOne(t: Txn, i: nat) returns (ok: bool)
      requires Open(t) && InPhase(t, Installing) && i < |t.rec.job.env|
      requires d.clean && t.rec.job.env[i].next.None? ==> CaddyAtNext(t.rec.job, d.world.files)
      modifies d
      ensures Open(t) && InPhase(t, Installing)
      ensures d.Went()
      ensures d.clean ==> OneEnvNew(old(d.world), d.world, t.rec.job, i, ok)
      ensures !ok ==> !d.smooth
    {
      var e := t.rec.job.env[i];
      if d.clean {
        d.InvNow();
      }
      ok := d.PutEnv(e.app, e.next, i);
      if d.clean {
        PutEntry(t.rec.job, old(d.world).files, i, e.next);
        EntryAt(t.rec.job.env, i);
      }
    }

    /** Writes the env files the push writes, or removes the ones it removes; changed says that some file's bytes have.
        It stops at the first write that fails. */
    method SwapEnvs(t: Txn, removing: bool, changed0: bool) returns (ok: bool, i: nat, changed: bool)
      requires Open(t) && InPhase(t, Installing)
      requires d.clean && removing ==> CaddyAtNext(t.rec.job, d.world.files)
      requires d.clean && !changed0 ==> AllPrev(t.rec.job, d.world.files)
      modifies d
      ensures d.Went()
      ensures d.clean ==> OnlyEnvs(old(d.world), d.world, t.rec.job)
      ensures d.clean && ok ==> Swapped1(t.rec.job, old(d.world).files, d.world.files, removing, |t.rec.job.env|)
      ensures d.clean && ok && !changed ==> AllPrev(t.rec.job, d.world.files)
      ensures changed0 ==> changed
      ensures !ok ==> !d.smooth && i < |t.rec.job.env|
      ensures d.clean && !ok && !changed ==>
                forall j :: 0 <= j < |t.rec.job.env| && j != i ==> AtPrev(t.rec.job.env[j], d.world.files)
    {
      var job := t.rec.job;
      changed := changed0;
      i := 0;
      while i < |job.env|
        invariant i <= |job.env| && Open(t) && InPhase(t, Installing) && d.Went()
        invariant d.clean ==> OnlyEnvs(old(d.world), d.world, job)
        invariant d.clean ==> Swapped1(job, old(d.world).files, d.world.files, removing, i)
        invariant (d.clean && !changed ==> AllPrev(job, d.world.files)) && (changed0 ==> changed)
      {
        if job.env[i].next.None? == removing {
          ok := SwapOne(t, i);
          if !ok {
            return;
          }
          changed := changed || job.env[i].prev != job.env[i].next;
        }
        i := i + 1;
      }
      return true, i, changed;
    }

    /** A write of the swap failed, of the Caddyfile (None) or an env file.  Once a file's bytes have changed, every
        file goes back; before that, what is on disk decides. */
    method SwapFailed(t: Txn, which: Option<nat>, changed: bool) returns (e: Ended)
      requires Open(t) && InPhase(t, Installing) && t.recorded && StoppedAt(t, which, changed)
      modifies d, this`wrote, t
      ensures Kept(t)
      ensures Closed(e, t)
    {
      if changed {
        e := Rollback(t, "unrecorded", false);
        return;
      }
      var err, f;
      if which.Some? {
        err, f := StateOf(t, which.value);
      } else {
        err, f := CaddyStateOf(t);
      }
      if err {
        return Unsettled;
      }
      if d.clean {
        d.InvNow();
      }
      if f.prev {
        Finish(t, Failed);
        return Done;
      }
      if f.next {
        e := Rollback(t, "unrecorded", false);
        return;
      }
      e := Changed(t);
    }

    /** Where a swap that stopped can have left the other files: if no file's bytes changed, at their previous ones. */
    ghost predicate StoppedAt(t: Txn, which: Option<nat>, changed: bool)
      reads d, t
    {
      && (which.Some? ==> which.value < |t.rec.job.env|)
      && (d.clean && !changed ==>
            && (which.Some? ==> CaddyAtPrev(t.rec.job, d.world.files))
            && (forall j :: 0 <= j < |t.rec.job.env| && which != Option.Some(j) ==>
                  AtPrev(t.rec.job.env[j], d.world.files)))
    }

    /** The swap's writes: each env file the push writes, then the Caddyfile, then each env file it removes. */
    method SwapFiles(t: Txn) returns (ok: bool, which: Option<nat>, changed: bool)
      requires Open(t) && InPhase(t, Installing)
      requires d.clean ==> AllPrev(t.rec.job, d.world.files)
      modifies d
      ensures d.Went()
      ensures d.clean ==> SameBut(old(d.world), d.world)
      ensures d.clean && ok ==> Installed(t.rec.job, old(d.world).files, d.world.files)
      ensures !ok ==> !d.smooth && StoppedAt(t, which, changed)
    {
      var i;
      ok, i, changed := SwapEnvs(t, false, false);
      if !ok {
        return false, Option.Some(i), changed;
      }
      if CaddyInSet(t.rec.job) {
        ok := d.PutCaddy(t.rec.job.next);
        if !ok {
          return false, None, changed;
        }
        changed := true;
      }
      ok, i, changed := SwapEnvs(t, true, changed);
      which := Option.Some(i);
    }

    /** The swap, then the record. */
    method Swap(t: Txn) returns (e: Ended)
      requires Open(t) && InPhase(t, Installing) && t.recorded
      requires d.clean ==> AllPrev(t.rec.job, d.world.files)
      modifies d, this`wrote, t
      ensures Kept(t)
      ensures Closed(e, t)
      ensures d.smooth && MayEnd(t.rec.job, old(d.world).files) ==>
                Succeeded(e, t, WasApplied, d.world) && Installed(t.rec.job, old(d.world).files, d.world.files)
    {
      var ok, which, changed := SwapFiles(t);
      if !ok {
        e := SwapFailed(t, which, changed);
        return;
      }
      e := RecordSwapped(t);
    }

    method RecordSwapped(t: Txn) returns (e: Ended)
      requires Open(t) && InPhase(t, Installing) && t.recorded
      requires d.clean ==> AllNext(t.rec.job, d.world.files)
      modifies d, this`wrote, t
      ensures Kept(t)
      ensures Closed(e, t)
      ensures d.smooth && MayEnd(t.rec.job, old(d.world).files) ==>
                Succeeded(e, t, WasApplied, d.world) && d.world.files == old(d.world).files
    {
      t.rec := t.rec.(phase := Swapped);
      if d.clean {
        d.InvNow();
      }
      StaysValid(t);
      var ok := d.WriteRecord(t.rec);
      if !ok {
        e := Rollback(t, "unrecorded", false);
        return;
      }
      e := ReloadSwapped(t);
    }

    /** swapped to applied: the reload, if the Caddyfile is in the set, then every file read back. */
    method ReloadSwapped(t: Txn) returns (e: Ended)
      requires Open(t) && InPhase(t, Swapped) && t.recorded
      requires d.clean ==> AllNext(t.rec.job, d.world.files)
      modifies d, this`wrote, t
      ensures Kept(t)
      ensures Closed(e, t)
      ensures d.smooth && MayEnd(t.rec.job, old(d.world).files) ==>
                Succeeded(e, t, WasApplied, d.world) && d.world.files == old(d.world).files
    {
      if CaddyInSet(t.rec.job) {
        var ok := d.Reload();
        if !ok {
          e := Rollback(t, "reload failed", false);
          return;
        }
      }
      e := ReadBack(t);
    }

    method ReadBack(t: Txn) returns (e: Ended)
      requires Open(t) && InPhase(t, Swapped) && t.recorded
      requires d.clean ==> AllNext(t.rec.job, d.world.files) && (CaddyInSet(t.rec.job) ==> LoadedCurrent(d.world))
      modifies d, this`wrote, t
      ensures Kept(t)
      ensures Closed(e, t)
      ensures d.smooth && MayEnd(t.rec.job, old(d.world).files) ==>
                Succeeded(e, t, WasApplied, d.world) && d.world.files == old(d.world).files
    {
      var err, s := States(t);
      if err {
        return Unsettled;
      }
      if d.clean {
        StandingReads(t.rec.job, d.world.files);
      }
      if !Every(s, AtItsNext) {
        e := Changed(t);
        return;
      }
      e := RecordApplied(t);
    }

    /** The record, then the baseline. */
    method RecordApplied(t: Txn) returns (e: Ended)
      requires Open(t) && InPhase(t, Swapped) && t.recorded
      requires d.clean ==> AllNext(t.rec.job, d.world.files) && (CaddyInSet(t.rec.job) ==> LoadedCurrent(d.world))
      modifies d, this`wrote, t
      ensures Kept(t)
      ensures Closed(e, t)
      ensures d.smooth && MayEnd(t.rec.job, old(d.world).files) ==>
                Succeeded(e, t, WasApplied, d.world) && d.world.files == old(d.world).files
    {
      t.rec := t.rec.(phase := Applied);
      if d.clean {
        d.InvNow();
      }
      StaysValid(t);
      var ok := d.WriteRecord(t.rec);
      if !ok {
        e := Rollback(t, "record after reload", false); // the baseline must never run ahead of the record
        return;
      }
      e := Advance(t, WasApplied);
    }

    /** The transaction, from the comparison of the files on. */
    method Install(t: Txn) returns (e: Ended)
      requires Open(t) && !t.recorded && AtRest()
      requires d.clean ==> AllPrev(t.rec.job, d.world.files)
      modifies d, this`wrote, t
      ensures Kept(t)
      ensures Closed(e, t)
      ensures d.smooth && Sensible(t.rec.job, old(d.world).files) ==>
                Succeeded(e, t, EndOf(t.rec.job), d.world) && Installed(t.rec.job, old(d.world).files, d.world.files)
    {
      if t.rec.job.prev == t.rec.job.next && |t.rec.job.env| == 0 {
        e := InstallNothing(t);
        return;
      }
      if t.rec.job.origin == FromApplier {
        var ok := WriteResult(t.rec.job.id, Verified);
        if d.clean {
          HonestOn(old(d.world), old(wrote), d.world, wrote, t.rec.job.id);
        }
        if !ok {
          NotVerified(t);
          return Done;
        }
      }
      e := InstallSet(t);
    }

    /** The transaction's first record. */
    method Begin(t: Txn) returns (ok: bool)
      requires Open(t) && AtRest() && (t.rec.phase == Installing || t.rec.phase == NoChange)
      requires d.clean ==> AllPrev(t.rec.job, d.world.files)
      modifies d
      ensures d.LeftFiles() && Open(t)
      ensures d.clean ==> d.world.files == old(d.world).files && OnlyThisPush(old(d.world), d.world, t.rec.job.id)
      ensures d.clean ==> Rested(d.world)
      ensures d.clean && PushOf(t.rec.job).Some? && Holds(d.world, t.rec.job.id) ==>
                d.world.record.value.phase != Applied
      ensures ok ==> InPhase(t, t.rec.phase)
      ensures !ok && ValidRecord(t.rec) ==> !d.smooth
    {
      ToldAtRest();
      ok := d.WriteRecord(t.rec);
      if d.clean {
        HonestOn(old(d.world), wrote, d.world, wrote, t.rec.job.id);
      }
    }

    method InstallNothing(t: Txn) returns (e: Ended)
      requires Open(t) && AtRest() && t.rec.job.prev == t.rec.job.next && t.rec.job.env == []
      requires d.clean ==> AllPrev(t.rec.job, d.world.files)
      modifies d, this`wrote, t
      ensures t.rec.job == old(t.rec.job)
      ensures d.LeftFiles() && Kept(t)
      ensures Closed(e, t)
      ensures d.smooth && Sensible(t.rec.job, old(d.world).files) ==>
                Succeeded(e, t, WasNoChange, d.world) && Installed(t.rec.job, old(d.world).files, d.world.files)
    {
      t.rec := t.rec.(phase := NoChange);
      t.recorded := true;
      var ok := Begin(t);
      if !ok {
        Finish(t, Failed);
        return Done;
      }
      e := Advance(t, WasNoChange);
    }

    /** `verified` could not be written: nothing has changed, and the push ends failed if that can be written. */
    method NotVerified(t: Txn)
      requires Open(t) && AtRest() && t.rec.job.origin == FromApplier
      modifies d, this`wrote
      ensures d.LeftFiles() && Kept(t)
      ensures AtRest() && Ends(Lookup(wrote, t.rec.job.id))
    {
      var ok := WriteResult(t.rec.job.id, Failed);
      ghost var w1 := d.world;
      if !ok {
        RemoveVerified(t.rec.job.id);
      }
      ghost var w2 := d.world;
      assert d.clean ==> Finished(w1, w2, t.rec.job.id);
      if t.entry {
        RemoveEntry(t.rec.job.id);
      }
      if d.clean {
        FinishedOn(old(d.world), w1, w2, t.rec.job.id);
        FinishedOn(old(d.world), w2, d.world, t.rec.job.id);
      }
      AtRestAfter(old(d.world), old(wrote), t.rec.job);
    }

    method InstallSet(t: Txn) returns (e: Ended)
      requires Open(t) && AtRest()
      requires d.clean ==> AllPrev(t.rec.job, d.world.files)
      modifies d, this`wrote, t
      ensures Kept(t)
      ensures Closed(e, t)
      ensures d.smooth && MayEnd(t.rec.job, old(d.world).files) ==>
                Succeeded(e, t, WasApplied, d.world) && Installed(t.rec.job, old(d.world).files, d.world.files)
    {
      t.rec := t.rec.(phase := Installing);
      t.recorded := true;
      StaysValid(t);
      var ok := Begin(t);
      if !ok {
        Finish(t, Failed);
        return Done;
      }
      e := SwapRecorded(t);
    }

    /** Every file of the set must still be the bytes the plan was made from; then the swap. */
    method SwapRecorded(t: Txn) returns (e: Ended)
      requires Open(t) && InPhase(t, Installing) && t.recorded
      requires d.clean ==> AllPrev(t.rec.job, d.world.files)
      modifies d, this`wrote, t
      ensures Kept(t)
      ensures Closed(e, t)
      ensures d.smooth && MayEnd(t.rec.job, old(d.world).files) ==>
                Succeeded(e, t, WasApplied, d.world) && Installed(t.rec.job, old(d.world).files, d.world.files)
    {
      var err, s := States(t);
      if err {
        Finish(t, Failed);
        return Done;
      }
      if d.clean {
        StandingReads(t.rec.job, d.world.files);
      }
      if !Every(s, AtItsPrev) {
        e := Changed(t);
        return;
      }
      e := Swap(t);
    }

    // ----- recovery

    /** Settles a record a crash left, by its phase, after reading every file of the set. */
    method RecoverRecord(rec: Record) returns (e: Ended)
      requires d.Valid() && wrote == map[]
      requires d.clean ==> d.world.record == Option.Some(rec)
      modifies d, this`wrote
      ensures d.Went()
      ensures d.clean ==> OnlyThisPush(old(d.world), d.world, rec.job.id)
      ensures e == Done ==> AtRest()
      ensures d.smooth ==> e == Done && d.world.record.None?
      ensures d.smooth && !Torn(old(d.world)) ==> AllPrev(rec.job, d.world.files) || AllNext(rec.job, d.world.files)
    {
      var t := new Txn(rec, rec.job.origin == FromApplier, true);
      if d.clean {
        d.InvNow();
      }
      if rec.job.origin == FromApplier && Ends(Lookup(d.world.tale.results, rec.job.id)) {
        // it finished all but its removals
        CleanUp(t);
        return Done;
      }
      ghost var read;
      e, read := RecoverLive(t);
    }

    method RecoverLive(t: Txn) returns (e: Ended, ghost read: Option<Standing>)
      requires Open(t) && t.recorded
      requires d.clean ==> d.world.record == Option.Some(t.rec)
      modifies d, this`wrote, t
      ensures Kept(t)
      ensures Closed(e, t)
      ensures d.smooth && !Torn(old(d.world)) ==> AllPrev(t.rec.job, d.world.files) || AllNext(t.rec.job, d.world.files)
      ensures read.Some? ==> AsSeen(t.rec.job, read.value, d.hist, |old(d.hist)| - 1)
      ensures read.Some? && !EveryOfSet(t.rec.job, read.value, IsKnown) ==> d.writes == old(d.writes) // left as found
    {
      var err, s := States(t);
      read := None;
      if err {
        return Unsettled, None;
      }
      read := Option.Some(s);
      ghost var h := d.hist;
      e := ActOn(t, s);
      AsSeenStays(t.rec.job, s, h, d.hist, |old(d.hist)| - 1);
    }

    method ActOn(t: Txn, s: Standing) returns (e: Ended)
      requires Open(t) && t.recorded && |s.env| == |t.rec.job.env|
      requires d.clean ==> d.world.record == Option.Some(t.rec) && s == StandingOf(t.rec.job, d.world.files)
      modifies d, this`wrote, t
      ensures Kept(t)
      ensures Closed(e, t)
      ensures d.smooth && !Torn(old(d.world)) ==> AllPrev(t.rec.job, d.world.files) || AllNext(t.rec.job, d.world.files)
      ensures !EveryOfSet(t.rec.job, s, IsKnown) ==> d.writes == old(d.writes)
    {
      if d.clean {
        d.InvNow();
        StandingReads(t.rec.job, d.world.files);
      }
      match Recover(t.rec.job, t.rec.phase, s) {
        case Advance =>
          e := this.Advance(t, if t.rec.phase == Applied then WasApplied else WasNoChange);
        case FinishFailed =>
          Finish(t, Failed);
          e := Done;
        case RollBack =>
          e := Rollback(t, "interrupted", true);
        case ResumeRollBack =>
          ghost var again;
          e, again := RollBackFiles(t, true);
        case LeaveAsFound =>
          e := Changed(t);
      }
    }

    lemma StaysValid(t: Txn)
      requires t.rec.phase != NoChange
      ensures ValidRecord(Record(t.rec.job, Installing, "")) ==> ValidRecord(t.rec)
    {
      if ValidRecord(Record(t.rec.job, Installing, "")) {
        ValidInPhase(Record(t.rec.job, Installing, ""), t.rec);
      }
    }

    /** A finished transaction leaves nothing under way, if nothing was. */
    lemma AtRestAfter(w: World, m: map<Id, ResultPhase>, job: Job)
      requires d.clean ==> Finished(w, d.world, job.id)
      requires WroteOnly(m, wrote, job.id) && (job.origin == FromApplier ==> Ends(Lookup(wrote, job.id)))
      requires d.clean && OwedTo(w).Some? && OwedTo(w) != PushOf(job) ==>
                 Ends(Lookup(m, OwedTo(w).value)) || Settled(w, OwedTo(w).value)
      requires d.clean ==> forall x :: Ends(Lookup(m, x)) ==> Dealt(w, x)
      requires d.clean && job.origin == FromApplier ==> Dealt(d.world, job.id)
      requires job.origin == FromInit ==>
                 && wrote == m
                 && (d.clean ==> d.world.tale.results == w.tale.results && d.world.tale.untold == w.tale.untold)
      ensures (d.clean ==> Rested(w)) ==> AtRest()
    {
      if d.clean && job.origin == FromApplier {
        HonestOn(w, m, d.world, wrote, job.id);
      }
    }
  }

  /** What is done to one push leaves the others as dealt with as they were. */
  lemma HonestOn(w: World, m: map<Id, ResultPhase>, w': World, m': map<Id, ResultPhase>, id: Id)
    requires OnlyThisPush(w, w', id) && WroteOnly(m, m', id)
    requires forall x :: Ends(Lookup(m, x)) ==> Dealt(w, x)
    requires Ends(Lookup(m', id)) ==> Dealt(w', id)
    ensures forall x :: Ends(Lookup(m', x)) ==> Dealt(w', x)
  {
    forall x | Ends(Lookup(m', x)) ensures Dealt(w', x) {
      if x != id {
        assert Lookup(m', x) == Lookup(m, x) && Lookup(w'.tale.results, x) == Lookup(w.tale.results, x);
        assert x in w.tale.untold - {id} <==> x in w'.tale.untold - {id};
      }
    }
  }

  /** What a finished transaction leaves: the files and the baseline as they are, the record as it is or gone. */
  ghost predicate Finished(w: World, w': World, id: Id)
  {
    && w'.files == w.files && w'.baseline == w.baseline && w'.marks.advanced == w.marks.advanced
    && (w'.record == w.record || w'.record == None)
    && OnlyThisPush(w, w', id)
  }

  lemma FinishedOn(w: World, w1: World, w2: World, id: Id)
    requires Finished(w, w1, id) && Finished(w1, w2, id)
    ensures Finished(w, w2, id)
  {
    forall x | x != id ensures Lookup(w2.tale.results, x) == Lookup(w.tale.results, x) {
      assert Lookup(w1.tale.results, x) == Lookup(w.tale.results, x);
    }
  }

  /** The set's own env files, at their new bytes, are as the baseline will list them. */
  lemma SetIsListed(job: Job, f: Files)
    requires DistinctApps(job.env) && ListsItsSet(job) && EnvAtNext(job, f)
    ensures forall app :: app in job.installed && EntryOf(job.env, app).Some? ==>
              Lookup(f.env, app) == Option.Some(job.installed[app])
  {
    forall app | app in job.installed && EntryOf(job.env, app).Some?
      ensures Lookup(f.env, app) == Option.Some(job.installed[app]) {
      var i := EntryFound(job.env, app);
      assert AtNext(job.env[i], f);
    }
  }

  // ----- what was read

  /** The Caddyfile was as read at some instant of the history from on; and an env file of the set. */
  ghost predicate CaddySeen(job: Job, f: FileAt, hist: seq<World>, from: nat)
  {
    exists k :: from <= k < |hist| && f == FileAt(CaddyAtPrev(job, hist[k].files), CaddyAtNext(job, hist[k].files))
  }

  ghost predicate EnvSeen(e: EnvEntry, f: FileAt, hist: seq<World>, from: nat)
  {
    exists k :: from <= k < |hist| && f == FileAt(AtPrev(e, hist[k].files), AtNext(e, hist[k].files))
  }

  ghost predicate AsSeen(job: Job, s: Standing, hist: seq<World>, from: nat)
  {
    CaddySeen(job, s.caddy, hist, from) && |s.env| == |job.env| && EnvsSeen(job, s.env, hist, from)
  }

  ghost predicate EnvsSeen(job: Job, env: seq<FileAt>, hist: seq<World>, from: nat)
  {
    |env| <= |job.env| && forall j :: 0 <= j < |env| ==> EnvSeen(job.env[j], env[j], hist, from)
  }

  lemma SinceStays(job: Job, env: seq<FileAt>, hist: seq<World>, from: nat, later: nat)
    requires from <= later && EnvsSeen(job, env, hist, later)
    ensures EnvsSeen(job, env, hist, from)
  {
  }

  lemma SeenStays(job: Job, caddy: FileAt, env: seq<FileAt>, hist: seq<World>, hist': seq<World>, from: nat)
    requires hist <= hist' && |env| <= |job.env|
    ensures CaddySeen(job, caddy, hist, from) ==> CaddySeen(job, caddy, hist', from)
    ensures EnvsSeen(job, env, hist, from) ==> EnvsSeen(job, env, hist', from)
  {
    assert forall k :: 0 <= k < |hist| ==> hist[k] == hist'[k];
    forall j | 0 <= j < |env| && EnvSeen(job.env[j], env[j], hist, from)
      ensures EnvSeen(job.env[j], env[j], hist', from) {
      EnvSeenStays(job.env[j], env[j], hist, hist', from);
    }
  }

  lemma EnvSeenStays(e: EnvEntry, f: FileAt, hist: seq<World>, hist': seq<World>, from: nat)
    requires hist <= hist' && EnvSeen(e, f, hist, from)
    ensures EnvSeen(e, f, hist', from)
  {
    var k :| from <= k < |hist| && f == FileAt(AtPrev(e, hist[k].files), AtNext(e, hist[k].files));
    assert hist'[k] == hist[k];
  }

  lemma AsSeenStays(job: Job, s: Standing, hist: seq<World>, hist': seq<World>, from: nat)
    requires hist <= hist' && AsSeen(job, s, hist, from)
    ensures AsSeen(job, s, hist', from)
  {
    SeenStays(job, s.caddy, s.env, hist, hist', from);
  }

  // ----- what putting files back changes

  /** Only the env file e is of has changed, and only to its previous bytes. */
  ghost predicate OneEnvBack(w: World, w': World, e: EnvEntry)
  {
    && SameBut(w, w') && w'.files.caddy == w.files.caddy
    && (forall app :: app != e.app ==> Lookup(w'.files.env, app) == Lookup(w.files.env, app))
    && (AtPrev(e, w'.files) || Lookup(w'.files.env, e.app) == Lookup(w.files.env, e.app))
  }

  lemma OneEnvBackTwice(w: World, w1: World, w2: World, e: EnvEntry)
    requires OneEnvBack(w, w1, e) && OneEnvBack(w1, w2, e)
    ensures OneEnvBack(w, w2, e)
  {
    forall app | app != e.app ensures Lookup(w2.files.env, app) == Lookup(w.files.env, app) {
      assert Lookup(w1.files.env, app) == Lookup(w.files.env, app);
    }
  }

  ghost predicate CaddyBack(w: World, w': World, job: Job)
  {
    && SameBut(w, w') && w'.files.env == w.files.env
    && (CaddyAtPrev(job, w'.files) || w'.files.caddy == w.files.caddy)
  }

  /** Only env files of the set have changed, and none from its previous bytes. */
  ghost predicate EnvsBack(w: World, w': World, job: Job)
  {
    && SameBut(w, w') && w'.files.caddy == w.files.caddy
    && (forall j :: 0 <= j < |job.env| && AtPrev(job.env[j], w.files) ==> AtPrev(job.env[j], w'.files))
  }

  lemma EnvsBackOn(w: World, w1: World, w2: World, job: Job, i: nat)
    requires DistinctApps(job.env) && i < |job.env| && EnvsBack(w, w1, job) && OneEnvBack(w1, w2, job.env[i])
    ensures EnvsBack(w, w2, job)
    ensures forall j :: 0 <= j < |job.env| && AtPrev(job.env[j], w1.files) ==> AtPrev(job.env[j], w2.files)
  {
  }

  /** Every env file that had bytes has them again. */
  ghost predicate HadBytesBack(job: Job, f: Files)
  {
    forall j :: 0 <= j < |job.env| && job.env[j].prev.Some? ==> AtPrev(job.env[j], f)
  }

  /** What was read at its previous bytes still is. */
  ghost predicate AsRead(job: Job, s: Standing, f: Files)
  {
    |s.env| == |job.env| && forall j :: 0 <= j < |job.env| && s.env[j].prev ==> AtPrev(job.env[j], f)
  }

  /** Of the first n env files, those the push removes, or those it writes, are at their new bytes; the others are as
      they were. */
  ghost predicate Swapped1(job: Job, f: Files, g: Files, removing: bool, n: nat)
  {
    forall j :: 0 <= j < |job.env| ==>
      if j < n && job.env[j].next.None? == removing then AtNext(job.env[j], g)
      else (AtPrev(job.env[j], g) <==> AtPrev(job.env[j], f)) && (AtNext(job.env[j], g) <==> AtNext(job.env[j], f))
  }

  /** Nothing has changed but env files of the set. */
  ghost predicate OnlyEnvs(w: World, w': World, job: Job)
  {
    && SameBut(w, w') && w'.files.caddy == w.files.caddy
    && (forall app :: EntryOf(job.env, app).None? ==> Lookup(w'.files.env, app) == Lookup(w.files.env, app))
  }

  /** The i-th env file of the set is at its new bytes, or, if that failed, perhaps not. */
  ghost predicate OneEnvNew(w: World, w': World, job: Job, i: nat, ok: bool)
    requires i < |job.env|
  {
    && OnlyEnvs(w, w', job)
    && (AtNext(job.env[i], w'.files) || !ok)
    && (forall j :: 0 <= j < |job.env| && j != i ==>
          (AtPrev(job.env[j], w'.files) <==> AtPrev(job.env[j], w.files)) &&
          (AtNext(job.env[j], w'.files) <==> AtNext(job.env[j], w.files)))
  }

  // ----- when nothing fails

  /** The env files the baseline will list beside the set's stand as it will list them. */
  ghost predicate Ready(job: Job, f: Files)
  {
    forall app :: app in job.installed && EntryOf(job.env, app).None? ==>
      Lookup(f.env, app) == Option.Some(job.installed[app])
  }

  ghost predicate MayList(job: Job, f: Files) { job.origin == FromApplier ==> Ready(job, f) }

  /** And its record is valid in every phase of an installation. */
  ghost predicate MayEnd(job: Job, f: Files) { ValidRecord(Record(job, Installing, "")) && MayList(job, f) }

  /** A job whose first record is valid, over files it can end on. */
  ghost predicate Sensible(job: Job, f: Files)
  {
    ValidRecord(Record(job, if EndOf(job) == WasNoChange then NoChange else Installing, "")) && MayList(job, f)
  }

  function EndOf(job: Job): ResultPhase
  {
    if job.prev == job.next && |job.env| == 0 then WasNoChange else WasApplied
  }

  /** The transaction has ended, and the result on disk says so. */
  ghost predicate Reported(t: Txn, w: World)
    reads t
  {
    Ends(t.outcome) && (t.rec.job.origin == FromApplier ==> Lookup(w.tale.results, t.rec.job.id) == t.outcome)
  }

  ghost predicate Succeeded(e: Ended, t: Txn, p: ResultPhase, w: World)
    reads t
  {
    e == Done && t.outcome == Option.Some(p) && w.baseline == Option.Some(BaselineOf(t.rec.job))
  }
}
