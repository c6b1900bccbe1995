/** One run of the applier, `motel init`'s, and any number of them with crashes between (box/apply.go; box/txn.go,
    runInit).

    What a run decides from outside the disk — the verdict on a bundle, the order bundles are tried in, the times of
    files — is left open here: whatever it is, the run's writes keep the protocol. */
module Apply {
  import opened A = Applier
  import opened Answers
  import opened Atomicity
  import opened Box
  import opened Durable
  import opened Options
  import opened Protocol
  import opened Queue
  import opened Retention
  import opened Safety
  import opened Secrets

  /** The check's verdict on a bundle: the box's own error, a refusal, or a push. */
  datatype Verdict = Error | Refusal | Pass(commit: string, next: Caddyfile, tree: string, head: map<App, Bytes>)

  /** A record with nothing in it but whose push it is. */
  function Bare(id: Id): Record
  {
    var none := Caddyfile("", {});
    Record(Job(id, FromApplier, "", none, none, [], "", map[], [], [], [], []), Installing, "")
  }

  /** Every bundle in work/ has been answered, or is one of these. */
  ghost predicate Answered(a: Applier, but: set<Id>)
    reads a, a.d
  {
    a.d.clean ==> forall id :: id in a.d.world.work && id !in but ==> SettledIn(a.d.world, a.wrote, id)
  }

  ghost predicate SettledIn(w: World, m: map<Id, ResultPhase>, id: Id) { Ends(Lookup(m, id)) || Settled(w, id) }

  /** What is done to one push leaves the others as answered as they were. */
  lemma OthersStay(w: World, m: map<Id, ResultPhase>, w': World, m': map<Id, ResultPhase>, id: Id)
    requires OnlyThisPush(w, w', id) && WroteOnly(m, m', id)
    ensures forall x :: x != id ==> (x in w'.work <==> x in w.work) && (SettledIn(w', m', x) <==> SettledIn(w, m, x))
  {
    forall x | x != id ensures x in w'.work <==> x in w.work {
      assert x in w'.work - {id} <==> x in w.work - {id};
    }
  }

  method IsSettled(a: Applier, id: Id) returns (settled: bool)
    ensures settled <==> a.SettledHere(id)
  {
    settled := Ends(Lookup(a.wrote, id)) || Ends(Lookup(a.d.world.tale.results, id));
  }

  /** Ends a push that changed nothing. */
  method FinishBare(a: Applier, id: Id, entry: bool, p: ResultPhase)
    requires a.d.Valid() && a.AtRest() && (a.d.clean ==> !a.SettledHere(id)) && (p == Failed || p == Refused)
    modifies a.d, a`wrote
    ensures a.d.Went()
    ensures a.d.clean ==> OnlyThisPush(old(a.d.world), a.d.world, id)
    ensures WroteOnly(old(a.wrote), a.wrote, id)
    ensures a.AtRest() && Ends(Lookup(a.wrote, id))
    ensures a.d.clean && old(a.d.world).record.None? ==> a.d.world.record.None?
    ensures a.d.smooth ==> Lookup(a.d.world.tale.results, id) == Option.Some(p)
  {
    var t := new Txn(Bare(id), entry, false);
    a.Finish(t, p);
  }

  /** A bundle a crash left in work/ with no record behind it. */
  method SettleEntry(a: Applier, id: Id, ghost but: set<Id>)
    requires a.d.Valid() && a.AtRest() && Answered(a, but)
    modifies a.d, a`wrote
    ensures a.d.Went()
    ensures a.AtRest() && Answered(a, but - {id})
    ensures a.d.clean && old(a.d.world).record.None? ==> a.d.world.record.None?
  {
    var settled := IsSettled(a, id);
    if settled {
      SettledIsDealt(a, id);
      a.RemoveEntry(id);
    } else {
      FinishBare(a, id, true, Failed);
      a.RemoveVerified(id);
    }
    if a.d.clean {
      OthersStay(old(a.d.world), old(a.wrote), a.d.world, a.wrote, id);
    }
  }

  /** Settles what a crash left: the record, then every bundle in work/.  If nothing fails, no record is left. */
  method RecoverAll(a: Applier) returns (e: Ended)
    requires a.d.Valid() && a.wrote == map[]
    modifies a.d, a`wrote
    ensures a.d.Went()
    ensures e == Done ==> a.AtRest() && Answered(a, {})
    ensures a.d.smooth ==> e == Done && a.d.world.record.None?
  {
    var rec := a.d.world.record;
    if rec.Some? {
      var readable := a.d.Succeeds();
      if !readable {
        return Unsettled;
      }
      e := a.RecoverRecord(rec.value);
      if e != Done {
        return;
      }
    }
    var lists := a.d.Succeeds();
    if !lists {
      return Unsettled;
    }
    e := Done;
    var left := a.d.world.work;
    while left != {}
      invariant a.d.Went()
      invariant a.AtRest() && Answered(a, left) && (a.d.smooth ==> a.d.world.record.None?)
      decreases left
    {
      var id :| id in left;
      SettleEntry(a, id, left);
      left := left - {id};
    }
  }

  /** Takes every bundle of in/ into work/, and answers those it cannot take; the others, none of them settled, are the
      run's, in the order their markers say. */
  method Take(a: Applier) returns (ids: seq<Id>, posted: map<Id, Time>)
    requires a.d.Valid() && a.AtRest() && Answered(a, {})
    modifies a.d, a`wrote
    ensures a.d.Went()
    ensures a.AtRest() && Answered(a, Members(ids)) && NoneSettled(a, Members(ids))
    ensures InTurn(posted, ids) && posted.Keys <= a.d.world.arrivals.markers
  {
    var taken := TakeAll(a);
    var times: map<Id, Time> := *;
    posted := map id | id in times && id in a.d.world.arrivals.markers :: times[id];
    ids := Order(posted, taken);
  }

  method TakeAll(a: Applier) returns (ids: set<Id>)
    requires a.d.Valid() && a.AtRest() && Answered(a, {})
    modifies a.d, a`wrote
    ensures a.d.Went()
    ensures a.AtRest() && Answered(a, ids) && NoneSettled(a, ids)
  {
    ids := {};
    var lists: bool := *;
    if !lists {
      return;
    }
    var left := a.d.world.arrivals.inbox;
    while left != {}
      invariant a.d.Went()
      invariant a.AtRest() && Answered(a, ids) && NoneSettled(a, ids)
      decreases left
    {
      var id :| id in left;
      ids := TakeOne(a, id, ids);
      left := left - {id};
    }
  }

  /** A push the run holds to be settled has been dealt with. */
  lemma SettledIsDealt(a: Applier, id: Id)
    requires a.AtRest() && a.SettledHere(id)
    ensures a.d.clean ==> Dealt(a.d.world, id)
  {
  }

  ghost predicate NoneSettled(a: Applier, ids: set<Id>)
    reads a, a.d
  {
    a.d.clean ==> forall id :: id in ids ==> !SettledIn(a.d.world, a.wrote, id)
  }

  method TakeOne(a: Applier, id: Id, ids: set<Id>) returns (ids': set<Id>)
    requires a.d.Valid() && a.AtRest() && Answered(a, ids) && NoneSettled(a, ids)
    modifies a.d, a`wrote
    ensures a.d.Went()
    ensures a.AtRest() && Answered(a, ids') && NoneSettled(a, ids')
  {
    ids' := ids;
    var landed := a.d.TakeEntry(id);
    var settled := IsSettled(a, id);
    if !landed {
      if !settled {
        FinishBare(a, id, false, Failed);
        ids' := ids - {id};
      }
      SettledIsDealt(a, id);
      a.d.RemoveInbox(id);
    } else if settled {
      SettledIsDealt(a, id);
      a.RemoveEntry(id);
    } else {
      ids' := ids + {id};
    }
    if a.d.clean {
      OthersStay(old(a.d.world), old(a.wrote), a.d.world, a.wrote, id);
    }
  }

  /** What stands at every env file's name.  Whether a file is a link, or not as root writes it, is not the disk model's
      to say. */
  method ReadEnvs(a: Applier) returns (view: App -> Found)
    requires a.d.Valid()
    modifies a.d`smooth
    ensures a.d.Valid() && (a.d.smooth ==> old(a.d.smooth))
    ensures forall app :: !view(app).Unreadable? ==> DataOf(view(app)) == Lookup(a.d.world.files.env, app)
    ensures forall app :: view(app).Regular? ==> |view(app).data| <= MAX_ENV_READ
    ensures a.d.smooth ==> forall app :: view(app).Unreadable? ==>
              app in a.d.world.files.env && |a.d.world.files.env[app]| > MAX_ENV_READ
  {
    var unreadable: set<App>, links: set<App>, foreign: set<App> := *, *, *;
    var ok := a.d.Succeeds();
    var env := a.d.world.files.env;
    view := (app: App) =>
      if (!ok && app in unreadable) || (app in env && |env[app]| > MAX_ENV_READ) then Unreadable
      else if app in env then Regular(env[app], app !in foreign)
      else if app in links then Link
      else Absent;
  }

  /** An app's env file once the push is applied. */
  ghost function Wanted(w: World, v: Verdict, app: App): Option<Bytes>
    requires v.Pass? && w.baseline.Some?
  {
    if app in v.head then Option.Some(v.head[app])
    else if app in w.baseline.value.secrets then None
    else Lookup(w.files.env, app)
  }

  /** What an accepted push comes to when nothing fails: the commit's Caddyfile and env files stand, the env files the
      commit no longer has are gone, every other env file is as it was, and the baseline says so. */
  ghost predicate Applies(w: World, w': World, v: Verdict)
    requires v.Pass? && w.baseline.Some?
  {
    && w'.files.caddy == Option.Some(v.next)
    && (forall app :: Lookup(w'.files.env, app) == Wanted(w, v, app))
    && w'.baseline == Option.Some(Baseline(v.commit, v.next, FromApplier, v.tree, v.head))
  }

  /** A push that can be applied: it was accepted, with secrets within the caps the proof of a commit holds them to,
      over a valid baseline and files the box can read. */
  ghost predicate Appliable(w: World, v: Verdict)
  {
    && v.Pass? && w.baseline.Some? && w.files.caddy.Some?
    && ManagedValid(v.tree, v.head) && ManagedValid(w.baseline.value.tree, w.baseline.value.secrets)
    && (forall app :: app in w.files.env && app in v.head.Keys + w.baseline.value.secrets.Keys ==>
          |w.files.env[app]| <= MAX_ENV_READ)
  }

  /** One bundle, through the check and the transaction. */
  method Process(a: Applier, id: Id, v: Verdict) returns (e: Ended, outcome: Option<ResultPhase>)
    requires a.d.Valid() && a.AtRest() && (a.d.clean ==> !a.SettledHere(id))
    modifies a.d, a`wrote
    ensures a.d.Went()
    ensures a.d.clean ==> OnlyThisPush(old(a.d.world), a.d.world, id)
    ensures WroteOnly(old(a.wrote), a.wrote, id)
    ensures e == Done ==> a.AtRest() && Ends(Lookup(a.wrote, id))
    ensures a.d.smooth ==> e == Done && Ends(outcome) && Lookup(a.d.world.tale.results, id) == outcome
    ensures a.d.smooth && Appliable(old(a.d.world), v) ==>
              && (outcome == Option.Some(WasApplied) || outcome == Option.Some(WasNoChange))
              && Applies(old(a.d.world), a.d.world, v)
  {
    var readable := a.d.Succeeds();
    var base, caddy := a.d.world.baseline, a.d.world.files.caddy;
    if !readable || v.Error? || base.None? || caddy.None? {
      FinishBare(a, id, true, Failed);
      return Done, Option.Some(Failed);
    }
    if v.Refusal? {
      FinishBare(a, id, true, Refused);
      return Done, Option.Some(Refused);
    }
    e, outcome := ProcessPush(a, id, v, base.value, caddy.value);
  }

  method ProcessPush(a: Applier, id: Id, v: Verdict, base: Baseline, caddy: Caddyfile)
    returns (e: Ended, outcome: Option<ResultPhase>)
    requires a.d.Valid() && a.AtRest() && (a.d.clean ==> !a.SettledHere(id))
    requires v.Pass? && a.d.world.baseline == Option.Some(base) && a.d.world.files.caddy == Option.Some(caddy)
    modifies a.d, a`wrote
    ensures a.d.Went()
    ensures a.d.clean ==> OnlyThisPush(old(a.d.world), a.d.world, id)
    ensures WroteOnly(old(a.wrote), a.wrote, id)
    ensures e == Done ==> a.AtRest() && Ends(Lookup(a.wrote, id))
    ensures a.d.smooth ==> e == Done && Ends(outcome) && Lookup(a.d.world.tale.results, id) == outcome
    ensures a.d.smooth && Appliable(old(a.d.world), v) ==>
              && (outcome == Option.Some(WasApplied) || outcome == Option.Some(WasNoChange))
              && Applies(old(a.d.world), a.d.world, v)
  {
    var job := MakeJob(a, id, v, base, caddy);
    if job.None? {
      FinishBare(a, id, true, Failed);
      return Done, Option.Some(Failed);
    }
    e, outcome := Proceed(a, job.value);
    if a.d.smooth && Appliable(old(a.d.world), v) {
      JobApplies(job.value, old(a.d.world), a.d.world, v);
    }
  }

  /** The job, its set installed, leaves what the verdict's commit calls for. */
  ghost predicate Fulfils(job: Job, w: World, v: Verdict)
    requires v.Pass? && w.baseline.Some?
  {
    && BaselineOf(job) == Baseline(v.commit, v.next, FromApplier, v.tree, v.head)
    && forall app :: Wanted(w, v, app) ==
         if EntryOf(job.env, app).Some? then EntryOf(job.env, app).value.next else Lookup(w.files.env, app)
  }

  lemma JobApplies(job: Job, w: World, w': World, v: Verdict)
    requires v.Pass? && w.baseline.Some? && Fulfils(job, w, v)
    requires Installed(job, w.files, w'.files) && w'.baseline == Option.Some(BaselineOf(job))
    ensures Applies(w, w', v)
  {
    forall app ensures Lookup(w'.files.env, app) == Wanted(w, v, app) {
      if EntryOf(job.env, app).Some? {
        var i := EntryFound(job.env, app);
        assert AtNext(job.env[i], w'.files);
      }
    }
  }

  /** Steps 10 to 15a: the job of an accepted push, from what stands; none if a file cannot be taken the place of. */
  method MakeJob(a: Applier, id: Id, v: Verdict, base: Baseline, caddy: Caddyfile) returns (job: Option<Job>)
    requires a.d.Valid() && v.Pass?
    requires a.d.world.baseline == Option.Some(base) && a.d.world.files.caddy == Option.Some(caddy)
    modifies a.d`smooth
    ensures a.d.Went()
    ensures job.Some? ==> job.value.origin == FromApplier && job.value.id == id && AllPrev(job.value, a.d.world.files)
    ensures a.d.smooth && Appliable(a.d.world, v) ==>
              job.Some? && Sensible(job.value, a.d.world.files) && Fulfils(job.value, a.d.world, v)
  {
    var view := ReadEnvs(a);
    var c := Facts(v.head, base.secrets, view);
    var plan := PlanSecrets(v.tree, c);
    if plan.None? {
      return None;
    }
    var p := plan.value;
    var made := Job(id, FromApplier, v.commit, caddy, v.next, p.entries, p.tree, p.installed,
                    p.added, p.changed, p.removed, p.outOfBand);
    PlanTakesWhatStands(c, p, a.d.world.files);
    if Appliable(a.d.world, v) {
      PlanServes(c, p, made, a.d.world, v);
    }
    return Some(made);
  }

  lemma PlanServes(c: Facts, p: Plan, job: Job, w: World, v: Verdict)
    requires Appliable(w, v) && c.head == v.head && c.listed == w.baseline.value.secrets
    requires Planned(c, p) && Carries(job, p) && p.tree == v.tree
    requires job.commit == v.commit && job.next == v.next && job.origin == FromApplier
    requires forall app :: app in Apps(c) ==> DataOf(c.view(app)) == Lookup(w.files.env, app)
    requires forall app :: c.view(app).Regular? ==> |c.view(app).data| <= MAX_ENV_READ
    ensures Sensible(job, w.files) && Fulfils(job, w, v)
  {
    PlanIsSensible(c, p, job, w.files);
    PlanFulfils(c, p, job, w, v);
  }

  lemma PlanFulfils(c: Facts, p: Plan, job: Job, w: World, v: Verdict)
    requires v.Pass? && w.baseline.Some? && c.head == v.head && c.listed == w.baseline.value.secrets
    requires Planned(c, p) && Carries(job, p) && p.tree == v.tree
    requires job.commit == v.commit && job.next == v.next && job.origin == FromApplier
    requires forall app :: app in Apps(c) ==> DataOf(c.view(app)) == Lookup(w.files.env, app)
    ensures Fulfils(job, w, v)
  {
    forall app
      ensures Wanted(w, v, app) ==
                if EntryOf(job.env, app).Some? then EntryOf(job.env, app).value.next else Lookup(w.files.env, app)
    {
      assert EntryOf(p.entries, app) == EntryFor(c, app);
    }
  }

  /** Step 16, and the transaction. */
  method Proceed(a: Applier, job: Job) returns (e: Ended, outcome: Option<ResultPhase>)
    requires a.d.Valid() && a.AtRest() && job.origin == FromApplier && (a.d.clean ==> !a.SettledHere(job.id))
    requires a.d.clean ==> AllPrev(job, a.d.world.files)
    modifies a.d, a`wrote
    ensures a.d.Went()
    ensures a.d.clean ==> OnlyThisPush(old(a.d.world), a.d.world, job.id)
    ensures WroteOnly(old(a.wrote), a.wrote, job.id)
    ensures e == Done ==> a.AtRest() && Ends(Lookup(a.wrote, job.id))
    ensures a.d.smooth ==> e == Done && Ends(outcome) && Lookup(a.d.world.tale.results, job.id) == outcome
    ensures a.d.smooth && Sensible(job, old(a.d.world).files) ==>
              && outcome == Option.Some(EndOf(job)) && a.d.world.baseline == Option.Some(BaselineOf(job))
              && Installed(job, old(a.d.world).files, a.d.world.files)
  {
    var state := a.d.IsActive();
    match state {
      case None =>
        FinishBare(a, job.id, true, Failed);
        return Done, Option.Some(Failed);
      case Some(Active) =>
        var t := new Txn(Record(job, Installing, ""), true, false);
        e := a.Install(t);
        outcome := t.outcome;
      case Some(_) =>
        FinishBare(a, job.id, true, Refused);
        return Done, Option.Some(Refused);
    }
  }

  /** A plan's job has a valid record, and ends on files as the baseline will list them. */
  lemma PlanIsSensible(c: Facts, p: Plan, job: Job, f: Files)
    requires Planned(c, p) && Sound(c, p.tree) && Carries(job, p) && job.origin == FromApplier
    requires forall app :: app in Apps(c) ==> DataOf(c.view(app)) == Lookup(f.env, app)
    ensures Sensible(job, f)
  {
    PlanIsValid(c, p, Record(job, if EndOf(job) == WasNoChange then NoChange else Installing, ""));
    forall app | app in job.installed && EntryOf(job.env, app).None?
      ensures Lookup(f.env, app) == Option.Some(job.installed[app])
    {
      assert app in Apps(c) && EntryFor(c, app) == None;
    }
  }

  /** `motel init`: recovery, then the same transaction with a set of the Caddyfile alone and no result. */
  method RunInit(a: Applier, id: Id, commit: string, file: Caddyfile) returns (e: Ended)
    requires a.d.Valid() && a.wrote == map[]
    modifies a.d, a`wrote
    ensures a.d.Went()
    ensures e == Done ==> a.AtRest()
    ensures a.d.smooth ==> e == Done || a.d.world.files.caddy.None?
    ensures a.d.smooth && e == Done ==> Initialized(a.d.world, commit, file)
  {
    e := RecoverAll(a);
    if e != Done {
      return;
    }
    var state := a.d.IsActive();
    var readable := a.d.Succeeds();
    if state != Option.Some(Active) || a.d.world.files.caddy.None? || !readable {
      return Unsettled;
    }
    e := InstallInit(a, id, commit, file);
  }

  ghost predicate Initialized(w: World, commit: string, file: Caddyfile)
  {
    && w.files.caddy == Option.Some(file)
    && w.baseline.Some? && w.baseline.value.caddy == file && w.baseline.value.commit == commit
  }

  method InstallInit(a: Applier, id: Id, commit: string, file: Caddyfile) returns (e: Ended)
    requires a.d.Valid() && a.AtRest() && a.d.world.files.caddy.Some?
    modifies a.d, a`wrote
    ensures a.d.Went()
    ensures e == Done ==> a.AtRest()
    ensures a.d.smooth ==> e == Done && Initialized(a.d.world, commit, file)
  {
    var was := a.d.world.baseline;
    var tree, listed := "", map[];
    if was.Some? && ManagedValid(was.value.tree, was.value.secrets) { // one that does not read is like a missing one
      tree, listed := was.value.tree, was.value.secrets;
    }
    var job := Job(id, FromInit, commit, a.d.world.files.caddy.value, file, [], tree, listed, [], [], [], []);
    InitIsSensible(job, a.d.world.files);
    var t := new Txn(Record(job, Installing, ""), false, false);
    e := a.Install(t);
  }

  lemma InitIsSensible(job: Job, f: Files)
    requires job.origin == FromInit && job.env == [] && ManagedValid(job.tree, job.installed)
    requires job.added == [] && job.changed == [] && job.removed == [] && job.outOfBand == []
    ensures Sensible(job, f)
  {
  }

  /** What the sweep reads of every id: the times are the files', not the disk model's to say. */
  method Dates(w: World, now: Time) returns (ids: Ids)
    ensures ids.Keys == w.tale.results.Keys + w.arrivals.markers
    ensures forall id :: id in ids ==>
              (ids[id].result.Some? <==> id in w.tale.results) && (ids[id].marker.Some? <==> id in w.arrivals.markers)
  {
    var written: map<Id, Time>, posted: map<Id, Time> := *, *;
    ids := map id | id in w.tale.results.Keys + w.arrivals.markers ::
      IdState(if id in w.tale.results then Option.Some(if id in written then written[id] else now) else None,
              if id in w.arrivals.markers then Option.Some(if id in posted then posted[id] else 0) else None);
  }

  /** The sweep's decision: at most 32 ids that this run did not answer stay, and no id the record is of is judged
      unless it has a result. */
  method Judge(w: World, mine: set<Id>, now: Time) returns (cs: set<Id>, keep: set<Id>)
    ensures keep <= cs && |keep - mine| <= KEEP_IDS
    ensures forall id :: id in cs && id !in w.tale.results ==> w.record.None? || w.record.value.job.id != id
  {
    var ids := Dates(w, now);
    var held := if w.record.Some? then {w.record.value.job.id} else {};
    cs, keep := Decide(ids, mine, held + w.arrivals.inbox + w.work, now);
  }

  /** Retention's sweep, once a run's bundles are done; if nothing fails, the result of every id judged and not kept
      goes. */
  method Sweep(a: Applier, now: Time) returns (cs: set<Id>, keep: set<Id>)
    requires a.d.Valid() && (a.d.clean ==> Rested(a.d.world))
    modifies a.d, a`wrote
    ensures a.d.Went()
    ensures keep <= cs && |keep - old(a.wrote).Keys| <= KEEP_IDS
    ensures a.d.smooth ==> forall id :: id in cs && id !in keep ==> id !in a.d.world.tale.results
  {
    cs, keep := Judge(a.d.world, a.wrote.Keys, now);
    SweepAll(a, cs, keep);
  }

  method SweepAll(a: Applier, cs: set<Id>, keep: set<Id>)
    requires a.d.Valid() && (a.d.clean ==> Rested(a.d.world)) && NotHeld(a.d.world, cs)
    modifies a.d, a`wrote
    ensures a.d.Went()
    ensures a.d.smooth ==> forall id :: id in cs && id !in keep ==> id !in a.d.world.tale.results
  {
    var left := cs;
    while left != {}
      invariant left <= cs && a.d.Valid() && (a.d.clean ==> Rested(a.d.world) && NotHeld(a.d.world, left))
      invariant a.d.Went()
      invariant a.d.smooth ==>
                  forall id :: id in cs - left && id !in keep ==> Lookup(a.d.world.tale.results, id) == None
      decreases left
    {
      var id :| id in left;
      SweepOne(a, id, id in keep);
      left := left - {id};
    }
    assert a.d.smooth ==> forall id :: id in cs && id !in keep ==> Lookup(a.d.world.tale.results, id) == None;
  }

  /** Of these, one the record is of has a result. */
  ghost predicate NotHeld(w: World, ids: set<Id>)
  {
    forall id :: id in ids && Lookup(w.tale.results, id) == None ==> w.record.None? || w.record.value.job.id != id
  }

  /** A stranded marker's push is answered if the id is kept.  Otherwise the id goes marker first, its result only
      once the marker is gone. */
  method SweepOne(a: Applier, id: Id, keep: bool)
    requires a.d.Valid() && (a.d.clean ==> Rested(a.d.world))
    requires a.d.clean && id !in a.d.world.tale.results ==>
               a.d.world.record.None? || a.d.world.record.value.job.id != id
    modifies a.d, a`wrote
    ensures a.d.Valid() && (a.d.clean ==> Rested(a.d.world) && a.d.world.record == old(a.d.world).record)
    ensures a.d.Went()
    ensures a.d.clean ==>
              forall x :: x != id ==> Lookup(a.d.world.tale.results, x) == Lookup(old(a.d.world).tale.results, x)
    ensures a.d.smooth && !keep ==> Lookup(a.d.world.tale.results, id) == None
  {
    var w := a.d.world;
    if keep {
      if id !in w.tale.results {
        var _ := a.WriteResult(id, Failed);
      }
      return;
    }
    if id in w.arrivals.markers {
      var ok := a.d.RemoveMarker(id);
      if !ok {
        return;
      }
    }
    if id in w.tale.results {
      a.d.RemoveResult(id);
    }
  }

  /** One run: recovery, then every bundle in turn, then the sweep. */
  method Run(a: Applier) returns (e: Ended)
    requires a.d.Valid() && a.wrote == map[]
    modifies a.d, a`wrote
    ensures a.d.Went()
  {
    e := RecoverAll(a);
    if e != Done {
      return;
    }
    var ids, posted := Take(a);
    e := ProcessAll(a, ids, posted);
    if e == Done {
      var now: Time := *;
      var _, _ := Sweep(a, now);
    }
  }

  /** Every bundle in turn; if none stops the run, each that was taken has been answered. */
  method ProcessAll(a: Applier, ids: seq<Id>, ghost posted: map<Id, Time>) returns (e: Ended)
    requires a.d.Valid() && a.AtRest() && Answered(a, Members(ids)) && NoneSettled(a, Members(ids))
    requires InTurn(posted, ids)
    modifies a.d, a`wrote
    ensures a.d.Went()
    ensures e == Done ==> a.AtRest() && Answered(a, {})
  {
    e := Done;
    assert ids[0..] == ids;
    for i := 0 to |ids|
      invariant a.d.Went()
      invariant e == Done && a.AtRest() && Answered(a, Members(ids[i..])) && NoneSettled(a, Members(ids[i..]))
    {
      FirstLeaves(posted, ids[i..]);
      e := ProcessNext(a, ids[i], Members(ids[i..]));
      if e != Done {
        return;
      }
      assert ids[i..][1..] == ids[i + 1..];
    }
    assert ids[|ids|..] == [];
  }

  method ProcessNext(a: Applier, id: Id, ghost left: set<Id>) returns (e: Ended)
    requires a.d.Valid() && a.AtRest() && Answered(a, left) && NoneSettled(a, left) && id in left
    modifies a.d, a`wrote
    ensures a.d.Went()
    ensures e == Done ==> a.AtRest() && Answered(a, left - {id}) && NoneSettled(a, left - {id})
  {
    var v: Verdict := *;
    var outcome;
    e, outcome := Process(a, id, v);
    if a.d.clean {
      OthersStay(old(a.d.world), old(a.wrote), a.d.world, a.wrote, id);
    }
  }

  /** Any number of runs of the applier and of init, each in a process of its own that may be killed at any instant: the
      disk's history is lawful throughout. */
  method Lifetime(d: Disk, runs: nat)
    requires d.Valid()
    modifies d
    ensures d.Valid() && (d.clean ==> old(d.clean))
  {
    for i := 0 to runs
      invariant d.Valid() && (d.clean ==> old(d.clean))
    {
      OneProcess(d);
    }
  }

  method OneProcess(d: Disk)
    requires d.Valid()
    modifies d
    ensures d.Valid() && |d.hist| >= |old(d.hist)| && (d.clean ==> old(d.clean))
  {
    var n := |d.hist|;
    var a := new Applier(d);
    var init: bool := *;
    if init {
      var id, commit, file := *, *, *;
      var _ := RunInit(a, id, commit, file);
    } else {
      var _ := Run(a);
    }
    d.Crash(n);
  }

  // ----- what the protocol's theorems say of such a history

  /** Whatever crashes, recoveries, failed writes and other pushes lie between: from one instant with no record to
      another, the files are those of the first with whole sets installed in the order of their commits, unless an
      `applied` record landed that was reported failed, and a `rolling_back` to take its place did not land. */
  lemma HistoryIsAtomic(d: Disk, i: nat, j: nat)
    requires d.Valid() && d.clean && i <= j < |d.hist| && d.hist[i].record.None? && d.hist[j].record.None?
    requires forall m, n :: i <= m < n < j ==> !Slips(d.hist, m, n)
    ensures d.hist[j].files == InstallAll(d.hist[i].files, Standing(d.hist[i..j + 1], j - i))
  {
    LawfulPrefix(d.hist, j + 1);
    LawfulIsRun(d.hist[..j + 1], i);
    var run := d.hist[..j + 1][i..];
    assert run == d.hist[i..j + 1];
    forall m, n | 0 <= m < n < j - i ensures !Slips(run, m, n) {
      SlipsWithin(d.hist, i, run, m, n);
    }
    AllOrNothing(run, j - i);
  }

  /** Nor does a record that says `applied` ever stand over files partway back, but after both those writes. */
  lemma HistoryIsNeverTorn(d: Disk, i: nat, j: nat)
    requires d.Valid() && d.clean && i <= j < |d.hist| && d.hist[i].record.None?
    requires forall m, n :: i <= m < n < j ==> !Slips(d.hist, m, n)
    ensures !Torn(d.hist[j])
  {
    LawfulIsRun(d.hist, i);
    var run := d.hist[i..];
    if Torn(run[j - i]) {
      var m, n := TornNeedsBoth(run, j - i);
      SlipsWithin(d.hist, i, run, m, n);
    }
  }

  lemma SlipsWithin(hist: seq<World>, i: nat, run: seq<World>, m: nat, n: nat)
    requires i + |run| <= |hist| && run == hist[i..i + |run|] && m < n < |run| - 1
    ensures Slips(run, m, n) ==> Slips(hist, i + m, i + n)
  {
    if Slips(run, m, n) {
      forall k | i + m < k <= i + n ensures hist[k].record == hist[i + m + 1].record {
        assert hist[k] == run[k - i];
      }
    }
  }

  /** And from an instant with no record on, a push told `failed` or `refused` has no commit standing since it last had
      a terminal result, if none of its results has failed to land; and exactly if it is not lost. */
  lemma HistoryTellsTruth(d: Disk, i: nat, j: nat, id: Id, p: ResultPhase)
    requires d.Valid() && d.clean && i <= j < |d.hist| - 1 && d.hist[i].record.None? && id !in d.hist[i].tale.lost
    requires (p == Failed || p == Refused) && WritesResult(d.hist[j], d.hist[j + 1], id, p)
    ensures (forall k :: i <= k < j ==> !MissesAt(d.hist, k, id)) ==> Debt(d.hist[i..], j - i, id) == 0
    ensures Debt(d.hist[i..], j - i, id) == 0 <==> id !in d.hist[j].tale.lost
  {
    LawfulIsRun(d.hist, i);
    var run := d.hist[i..];
    FailedIsTrue(run, j - i, id, p);
    if forall k :: i <= k < j ==> !MissesAt(d.hist, k, id) {
      forall k | 0 <= k < j - i ensures !MissesAt(run, k, id) {
        assert !MissesAt(d.hist, i + k, id);
      }
      TruthIfWritten(run, j - i, id);
    }
  }

  /** The same of a bundle found with no record of its push behind it, which recovery answers `failed`. */
  lemma HistoryLeavesNothing(d: Disk, i: nat, j: nat, id: Id)
    requires d.Valid() && d.clean && i <= j < |d.hist| && d.hist[i].record.None? && id !in d.hist[i].tale.lost
    requires !Holds(d.hist[j], id) && forall k :: i <= k < j ==> !MissesAt(d.hist, k, id)
    ensures Debt(d.hist[i..], j - i, id) == 0
  {
    LawfulIsRun(d.hist, i);
    var run := d.hist[i..];
    forall k | 0 <= k < j - i ensures !MissesAt(run, k, id) {
      assert !MissesAt(d.hist, i + k, id);
    }
    TruthIfWritten(run, j - i, id);
  }

  /** A push's new Caddyfile names only env files that will be there, if it names only those of the commit's secrets. */
  lemma PlanCoversNames(c: Facts, p: Plan, job: Job, f: Files)
    requires Planned(c, p) && job.env == p.entries && job.next.names <= c.head.Keys
    requires forall app :: app in Apps(c) ==> DataOf(c.view(app)) == Lookup(f.env, app)
    ensures NewSetCovered(job, f)
  {
    forall app | app in job.next.names
      ensures if EntryOf(job.env, app).Some? then EntryOf(job.env, app).value.next.Some? else app in f.env
    {
      assert app in Apps(c) && EntryOf(job.env, app) == EntryFor(c, app);
      assert DataOf(c.view(app)) == Lookup(f.env, app);
    }
  }
}
