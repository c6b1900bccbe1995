/** Admission: the handler's pushes, root's takes, and crashes, one step at a time (box/admission.go; box/apply.go,
    takeOne).

    A directory has what a process sees in it and what a power loss would leave of it.  Its changes reach the disk
    in their order: at a sync, or at any other instant, what is seen becomes what would be left. */
module Admission {
  import opened Box
  import opened Options

  /** A push's bundle, and its marker: a client may use an id again, so each push has a number of its own. */
  datatype Bundle = Bundle(id: Id, n: nat)

  datatype Dir = Dir(now: set<Bundle>, durable: set<Bundle>)

  function Synced(d: Dir): Dir { Dir(d.now, d.now) }

  /** How far an admission has come. */
  datatype At = Locked | Checked | Dropped | InSynced | Marked

  type Request = nat

  datatype Admitting = Admitting(b: Bundle, at: At)

  /** The exchange tree, the requests in admission, who holds stage/lock, and how many there have been.  `kept` is every
      bundle a power loss would have left at some time, in in/ or in work/. */
  datatype State = State(inbox: Dir, work: Dir, stage: Dir, lock: Option<Request>, at: map<Request, Admitting>,
                         pushes: nat, kept: set<Bundle>)

  datatype Which = In | Work | Stage

  datatype Step =
    | Lock(r: Request, id: Id) // another that finds the lock held is answered, and changes nothing
    | Check(r: Request)
    | Drop(r: Request)
    | SyncIn(r: Request)
    | Mark(r: Request)
    | Release(r: Request) // answered, failed, or done: at any point
    | Take(b: Bundle)
    | RemoveTaken(b: Bundle)
    | RemoveMarker(b: Bundle)
    | Sync(dir: Which) // a process's, or the kernel's own
    | Restart // the handler's process ends; its locks go with it
    | PowerLoss

  predicate InAdmission(s: State, r: Request, at: At) { r in s.at && s.at[r].at == at }

  /** No marker of the id stands. */
  predicate Unmarked(s: State, id: Id) { forall b :: b in s.stage.now ==> b.id != id }

  predicate Enabled(s: State, step: Step)
  {
    match step
    case Lock(r, _) => s.lock.None? && r !in s.at
    case Check(r) => InAdmission(s, r, Locked) && s.inbox.now == {} && Unmarked(s, s.at[r].b.id)
    case Drop(r) => InAdmission(s, r, Checked)
    case SyncIn(r) => InAdmission(s, r, Dropped)
    case Mark(r) => InAdmission(s, r, InSynced)
    case Release(r) => r in s.at
    case Take(b) => b in s.inbox.now
    case _ => true
  }

  function To(s: State, r: Request, at: At): State
    requires r in s.at
  {
    s.(at := s.at[r := Admitting(s.at[r].b, at)])
  }

  /** work/ once the bundle has been renamed into it. */
  function Into(work: set<Bundle>, b: Bundle): set<Bundle> { (set x | x in work && x.id != b.id) + {b} }

  function After(s: State, step: Step): State
    requires Enabled(s, step)
  {
    match step
    case Lock(r, id) =>
      s.(lock := Some(r), at := s.at[r := Admitting(Bundle(id, s.pushes), Locked)], pushes := s.pushes + 1)
    case Check(r) => To(s, r, Checked)
    case Drop(r) => To(s, r, Dropped).(inbox := s.inbox.(now := s.inbox.now + {s.at[r].b}))
    case SyncIn(r) => To(s, r, InSynced).(inbox := Synced(s.inbox), kept := s.kept + s.inbox.now)
    case Mark(r) => To(s, r, Marked).(stage := s.stage.(now := s.stage.now + {s.at[r].b}))
    case Release(r) => s.(lock := None, at := s.at - {r})
    case Take(b) =>
      s.(inbox := s.inbox.(now := s.inbox.now - {b}), work := s.work.(now := Into(s.work.now, b)))
    case RemoveTaken(b) => s.(work := s.work.(now := s.work.now - {b}))
    case RemoveMarker(b) => s.(stage := s.stage.(now := s.stage.now - {b}))
    case Sync(In) => s.(inbox := Synced(s.inbox), kept := s.kept + s.inbox.now)
    case Sync(Work) => s.(work := Synced(s.work), kept := s.kept + s.work.now)
    case Sync(Stage) => s.(stage := Synced(s.stage))
    case Restart => s.(lock := None, at := map[])
    case PowerLoss =>
      s.(inbox := Dir(s.inbox.durable, s.inbox.durable), work := Dir(s.work.durable, s.work.durable),
         stage := Dir(s.stage.durable, s.stage.durable), lock := None, at := map[])
  }

  const EMPTY := State(Dir({}, {}), Dir({}, {}), Dir({}, {}), None, map[], 0, {})

  /** Steps, and the states before, between and after them. */
  datatype Trace = Trace(states: seq<State>, steps: seq<Step>)

  predicate StepAt(t: Trace, i: nat)
    requires |t.states| == |t.steps| + 1 && i < |t.steps|
  {
    Enabled(t.states[i], t.steps[i]) && t.states[i + 1] == After(t.states[i], t.steps[i])
  }

  predicate Legal(t: Trace)
  {
    |t.states| == |t.steps| + 1 && forall i :: 0 <= i < |t.steps| ==> StepAt(t, i)
  }

  /** A legal trace from the empty tree. */
  predicate FromEmpty(t: Trace) { Legal(t) && t.states[0] == EMPTY }

  // ----- what every step keeps

  ghost predicate AtMostOne(bs: set<Bundle>) { forall x, y :: x in bs && y in bs ==> x == y }

  function Known(s: State): set<Bundle>
  {
    s.inbox.now + s.inbox.durable + s.work.now + s.work.durable + s.kept
  }

  /** Only the holder of the lock is in admission, and it goes on only over an empty in/. */
  ghost predicate OneAtATime(s: State)
  {
    && (forall r :: r in s.at ==> s.lock == Some(r))
    && (forall r :: r in s.at && s.at[r].at == Checked ==> s.inbox.now == {})
    && AtMostOne(s.inbox.now) && AtMostOne(s.inbox.durable)
  }

  /** A bundle is nowhere before it is dropped. */
  ghost predicate Fresh(s: State)
  {
    && (forall r :: r in s.at ==> s.at[r].b.n < s.pushes)
    && (forall r :: r in s.at && (s.at[r].at == Locked || s.at[r].at == Checked) ==> s.at[r].b !in Known(s))
    && (forall b :: b in Known(s) ==> b.n < s.pushes)
  }

  ghost predicate Inv(s: State) { OneAtATime(s) && Fresh(s) }

  lemma OneAtATimeOn(s: State, step: Step)
    requires OneAtATime(s) && Enabled(s, step)
    ensures OneAtATime(After(s, step))
  {
  }

  lemma KnownOn(s: State, step: Step)
    requires Enabled(s, step)
    ensures Known(After(s, step)) <= Known(s) + if step.Drop? then {s.at[step.r].b} else {}
  {
  }

  lemma FreshOn(s: State, step: Step)
    requires OneAtATime(s) && Fresh(s) && Enabled(s, step)
    ensures Fresh(After(s, step))
  {
    KnownOn(s, step);
  }

  lemma StepKeepsInv(s: State, step: Step)
    requires Inv(s) && Enabled(s, step)
    ensures Inv(After(s, step))
  {
    OneAtATimeOn(s, step);
    FreshOn(s, step);
  }

  lemma {:induction false} InvAt(t: Trace, i: nat)
    requires Legal(t) && Inv(t.states[0]) && i <= |t.steps|
    ensures Inv(t.states[i])
  {
    if i > 0 {
      InvAt(t, i - 1);
      assert StepAt(t, i - 1);
      StepKeepsInv(t.states[i - 1], t.steps[i - 1]);
    }
  }

  /** In every interleaving, in/ never holds, and a power loss never leaves in it, more than one bundle. */
  lemma OneBundleAtATime(t: Trace, i: nat)
    requires Legal(t) && Inv(t.states[0]) && i <= |t.steps|
    ensures AtMostOne(t.states[i].inbox.now) && AtMostOne(t.states[i].inbox.durable)
  {
    InvAt(t, i);
  }

  // ----- what a power loss would have left

  /** The step syncs in/. */
  predicate SyncsIn(step: Step) { step.SyncIn? || step == Sync(In) }

  /** It makes the bundle durable where it is: in in/, or in work/. */
  predicate Keeps(s: State, step: Step, b: Bundle)
  {
    (SyncsIn(step) && b in s.inbox.now) || (step == Sync(Work) && b in s.work.now)
  }

  predicate KeepsAt(t: Trace, k: nat, b: Bundle)
    requires Legal(t) && k < |t.steps|
  {
    Keeps(t.states[k], t.steps[k], b)
  }

  lemma KeptAfter(s: State, step: Step, b: Bundle)
    requires Enabled(s, step)
    ensures b in After(s, step).kept <==> b in s.kept || Keeps(s, step, b)
  {
  }

  /** A bundle is kept exactly if a sync has found it in in/, or in work/. */
  lemma {:induction false} KeptExactly(t: Trace, i: nat, b: Bundle)
    requires FromEmpty(t) && i <= |t.steps|
    ensures b in t.states[i].kept <==> exists k :: 0 <= k < i && KeepsAt(t, k, b)
  {
    if i > 0 {
      KeptExactly(t, i - 1, b);
      assert StepAt(t, i - 1);
      KeptAfter(t.states[i - 1], t.steps[i - 1], b);
      assert KeepsAt(t, i - 1, b) == Keeps(t.states[i - 1], t.steps[i - 1], b);
    }
  }

  // ----- a bundle taken early

  /** At d the request drops its bundle, and does not again before i. */
  predicate DropsAt(t: Trace, d: nat, i: nat, r: Request)
    requires d < i <= |t.steps|
  {
    t.steps[d] == Drop(r) && forall k :: d < k < i ==> t.steps[k] != Drop(r)
  }

  /** No step from after d to before i syncs in/. */
  predicate Unsynced(t: Trace, d: nat, i: nat)
    requires d < i <= |t.steps|
  {
    forall k :: d < k < i ==> !SyncsIn(t.steps[k])
  }

  /** Root takes the bundle at x, with no sync of in/ since d; and up to i nothing syncs work/ with the bundle in it. */
  predicate Early(t: Trace, d: nat, x: nat, i: nat, b: Bundle)
    requires Legal(t) && d < x < i <= |t.steps|
  {
    && t.steps[x] == Take(b) && Unsynced(t, d, x)
    && forall k :: x < k < i ==> !(t.steps[k] == Sync(Work) && b in t.states[k].work.now)
  }

  predicate TakenEarly(t: Trace, d: nat, i: nat, b: Bundle)
    requires Legal(t) && d < i <= |t.steps|
  {
    exists x :: d < x < i && Early(t, d, x, i, b)
  }

  lemma TakenEarlyOn(t: Trace, d: nat, i: nat, b: Bundle)
    requires Legal(t) && d < i < |t.steps|
    ensures TakenEarly(t, d, i + 1, b) <==>
              || (TakenEarly(t, d, i, b) && !(t.steps[i] == Sync(Work) && b in t.states[i].work.now))
              || (t.steps[i] == Take(b) && Unsynced(t, d, i))
  {
    var n := i + 1;
    forall x | d < x < i
      ensures Early(t, d, x, n, b) <==>
                Early(t, d, x, i, b) && !(t.steps[i] == Sync(Work) && b in t.states[i].work.now)
    {
    }
    assert Early(t, d, i, n, b) <==> t.steps[i] == Take(b) && Unsynced(t, d, i);
  }

  /** Where a bundle is that was dropped at d: still in in/, which has not been synced; kept; or taken early. */
  predicate Fate(t: Trace, d: nat, i: nat, b: Bundle)
    requires Legal(t) && d < i <= |t.steps|
  {
    var s := t.states[i];
    && (b in s.kept <==> !(b in s.inbox.now && Unsynced(t, d, i)) && !TakenEarly(t, d, i, b))
    && (b in s.inbox.now && Unsynced(t, d, i) ==> b !in s.work.now)
    && (TakenEarly(t, d, i, b) ==> b !in s.inbox.now)
  }

  lemma FateOn(t: Trace, d: nat, i: nat, b: Bundle, r: Request)
    requires Legal(t) && d < i < |t.steps| && Inv(t.states[i]) && Fate(t, d, i, b)
    requires r in t.states[i].at && r in t.states[i + 1].at && t.states[i].at[r].b == b
    requires t.states[i].at[r].at != Locked && t.states[i].at[r].at != Checked
    ensures Fate(t, d, i + 1, b)
  {
    assert StepAt(t, i);
    TakenEarlyOn(t, d, i, b);
    KeptAfter(t.states[i], t.steps[i], b);
    assert Unsynced(t, d, i + 1) <==> Unsynced(t, d, i) && !SyncsIn(t.steps[i]);
  }

  /** A request that has dropped its bundle did so at some step, and the bundle's fate since is one of the three; once
      in/ has been synced for it, it is not the first. */
  lemma {:induction false} FateOfDropped(t: Trace, i: nat, r: Request) returns (d: nat)
    requires FromEmpty(t) && i <= |t.steps| && r in t.states[i].at
    requires t.states[i].at[r].at != Locked && t.states[i].at[r].at != Checked
    ensures d < i && DropsAt(t, d, i, r) && Fate(t, d, i, t.states[i].at[r].b)
    ensures t.states[i].at[r].at != Dropped ==> !Unsynced(t, d, i)
  {
    d := i - 1;
    assert StepAt(t, d);
    InvAt(t, d);
    if t.steps[d] != Drop(r) {
      d := FateOfDropped(t, i - 1, r);
      FateOn(t, d, i - 1, t.states[i].at[r].b, r);
    } else {
      NotYetTaken(t, d, t.states[i].at[r].b);
    }
  }

  lemma OneDrop(t: Trace, d: nat, e: nat, i: nat, r: Request)
    requires d < i && e < i <= |t.steps| && DropsAt(t, d, i, r) && DropsAt(t, e, i, r)
    ensures d == e
  {
  }

  lemma NotYetTaken(t: Trace, d: nat, b: Bundle)
    requires Legal(t) && d < |t.steps|
    ensures !TakenEarly(t, d, d + 1, b) && Unsynced(t, d, d + 1)
  {
  }

  /** A marker is written too early: since its push dropped the bundle, root took it before any sync of in/, and nothing
      has synced work/ with the bundle in it. */
  predicate TooEarly(t: Trace, m: nat)
    requires Legal(t) && m < |t.steps|
  {
    && t.steps[m].Mark? && t.steps[m].r in t.states[m].at
    && exists d :: 0 <= d < m && DropsAt(t, d, m, t.steps[m].r) && TakenEarly(t, d, m, t.states[m].at[t.steps[m].r].b)
  }

  /** A marker's bundle has been made durable when the marker is written exactly if that is not too early. */
  lemma MarkedInTime(t: Trace, m: nat)
    requires FromEmpty(t) && m < |t.steps| && t.steps[m].Mark?
    ensures t.steps[m].r in t.states[m].at
    ensures t.states[m].at[t.steps[m].r].b in t.states[m].kept <==> !TooEarly(t, m)
  {
    assert StepAt(t, m);
    var r := t.steps[m].r;
    var d := FateOfDropped(t, m, r);
    forall e | 0 <= e < m && DropsAt(t, e, m, r) ensures e == d {
      OneDrop(t, d, e, m, r);
    }
  }

  /** Every marker that stands or would be left has had its bundle made durable. */
  ghost predicate Backed(s: State) { s.stage.now + s.stage.durable <= s.kept }

  lemma BackedOn(s: State, step: Step)
    requires Backed(s) && Enabled(s, step)
    ensures Backed(After(s, step)) <==> (step.Mark? ==> s.at[step.r].b in s.kept)
  {
  }

  lemma {:induction false} BackedIfInTime(t: Trace, i: nat)
    requires FromEmpty(t) && i <= |t.steps| && forall m :: 0 <= m < i ==> !TooEarly(t, m)
    ensures Backed(t.states[i])
  {
    if i > 0 {
      BackedIfInTime(t, i - 1);
      assert StepAt(t, i - 1);
      if t.steps[i - 1].Mark? {
        MarkedInTime(t, i - 1);
      }
      BackedOn(t.states[i - 1], t.steps[i - 1]);
    }
  }

  lemma TooEarlyIsNotBacked(t: Trace, m: nat)
    requires FromEmpty(t) && m < |t.steps| && TooEarly(t, m)
    ensures !Backed(t.states[m + 1])
  {
    assert StepAt(t, m);
    MarkedInTime(t, m);
  }

  /** In every interleaving from an empty tree: every marker that stands or would be left has had its bundle made
      durable, at every instant, if and only if no marker is written too early. */
  lemma MarkerFollowsBundle(t: Trace)
    requires FromEmpty(t)
    ensures (forall i :: 0 <= i <= |t.steps| ==> Backed(t.states[i]))
            <==> (forall m :: 0 <= m < |t.steps| ==> !TooEarly(t, m))
  {
    if forall m :: 0 <= m < |t.steps| ==> !TooEarly(t, m) {
      forall i | 0 <= i <= |t.steps| ensures Backed(t.states[i]) {
        BackedIfInTime(t, i);
      }
    } else {
      var m :| 0 <= m < |t.steps| && TooEarly(t, m);
      TooEarlyIsNotBacked(t, m);
    }
  }

  // ----- such a marker

  /** One step more. */
  lemma Extend(t: Trace, step: Step) returns (t': Trace)
    requires FromEmpty(t) && Enabled(t.states[|t.steps|], step)
    ensures t' == Trace(t.states + [After(t.states[|t.steps|], step)], t.steps + [step]) && FromEmpty(t')
  {
    t' := Trace(t.states + [After(t.states[|t.steps|], step)], t.steps + [step]);
    forall i | 0 <= i < |t'.steps| ensures StepAt(t', i) {
      assert i < |t.steps| ==> StepAt(t, i);
    }
  }

  /** The push with this id at some point of its admission, its bundle dropped and taken. */
  function Taken(id: Id, at: At, stage: Dir): State
  {
    var b := Bundle(id, 0);
    State(Dir({}, {}), Dir({b}, {}), stage, Some(0), map[0 := Admitting(b, at)], 1, {})
  }

  lemma DroppedAndTaken(id: Id) returns (t: Trace)
    ensures FromEmpty(t) && |t.steps| == 4 && t.states[4] == Taken(id, Dropped, Dir({}, {}))
  {
    var b := Bundle(id, 0);
    t := Extend(Trace([EMPTY], []), Lock(0, id));
    t := Extend(t, Check(0));
    t := Extend(t, Drop(0));
    t := Extend(t, Take(b));
    assert Into({}, b) == {b} && {b} - {b} == {};
  }

  /** Such a marker can outlive its bundle: root takes the bundle before the handler syncs in/, and the power goes
      after the marker is synced and before work/ is. */
  lemma MarkerWithoutBundle(id: Id) returns (t: Trace)
    ensures FromEmpty(t)
    ensures var (s, b) := (t.states[|t.steps|], Bundle(id, 0));
            b in s.stage.durable && b !in s.kept && b !in s.inbox.now && b !in s.work.now
    ensures |t.steps| == 8 && TooEarly(t, 5)
  {
    var b := Bundle(id, 0);
    t := DroppedAndTaken(id);
    t := Extend(t, SyncIn(0));
    assert t.states[5] == Taken(id, InSynced, Dir({}, {}));
    t := Extend(t, Mark(0));
    assert t.states[6] == Taken(id, Marked, Dir({b}, {}));
    t := Extend(t, Sync(Stage));
    t := Extend(t, PowerLoss);
    MarkedInTime(t, 5);
  }
}
