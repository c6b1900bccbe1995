/** What recovery does with a record a crash left: by its phase, after every file of the set has been read
    (box/txn.go, recoverRecord). */
module Recovery {
  import opened Box
  import opened Options

  /** One file of the set as it stands: at its previous bytes, at its new ones, at both, or at neither. */
  datatype FileAt = FileAt(prev: bool, next: bool)

  predicate AtItsPrev(f: FileAt) { f.prev }
  predicate AtItsNext(f: FileAt) { f.next }
  predicate IsKnown(f: FileAt) { f.prev || f.next }

  /** The files of a set as read: the Caddyfile, and each env file in the record's order. */
  datatype Standing = Standing(caddy: FileAt, env: seq<FileAt>)

  function StandingOf(job: Job, f: Files): Standing
  {
    Standing(FileAt(CaddyAtPrev(job, f), CaddyAtNext(job, f)),
             seq(|job.env|, i requires 0 <= i < |job.env| => FileAt(AtPrev(job.env[i], f), AtNext(job.env[i], f))))
  }

  predicate EveryEnv(s: Standing, want: FileAt -> bool) { forall i :: 0 <= i < |s.env| ==> want(s.env[i]) }

  predicate Every(s: Standing, want: FileAt -> bool) { want(s.caddy) && EveryEnv(s, want) }

  /** The same of the files a rollback puts back: the Caddyfile only if the push changed it. */
  predicate EveryOfSet(job: Job, s: Standing, want: FileAt -> bool)
  {
    (CaddyInSet(job) ==> want(s.caddy)) && EveryEnv(s, want)
  }

  datatype Action =
    | Advance        // write the baseline, then end as the phase says
    | FinishFailed   // nothing changed
    | RollBack       // say so in the record, then put every file back
    | ResumeRollBack // go on putting them back
    | LeaveAsFound   // a console edit: change nothing, end unknown

  function Recover(job: Job, phase: Phase, s: Standing): Action
  {
    match phase
    case NoChange => if Every(s, AtItsPrev) then Advance else LeaveAsFound
    case Installing =>
      if EveryOfSet(job, s, AtItsPrev) then FinishFailed
      else if EveryOfSet(job, s, IsKnown) then RollBack // the crash fell in or after the swap
      else LeaveAsFound
    case Swapped => if EveryOfSet(job, s, IsKnown) then RollBack else LeaveAsFound
    case Applied => if Every(s, AtItsNext) then Advance else LeaveAsFound
    case RollingBack => if EveryOfSet(job, s, IsKnown) then ResumeRollBack else LeaveAsFound
  }

  /** Reading the files says where they all stand. */
  lemma StandingReads(job: Job, f: Files)
    ensures var s := StandingOf(job, f);
            && (Every(s, AtItsPrev) <==> AllPrev(job, f))
            && (Every(s, AtItsNext) <==> AllNext(job, f))
            && (Every(s, IsKnown) <==> Known(job, f))
            && (Known(job, f) ==> EveryOfSet(job, s, IsKnown) && (EveryOfSet(job, s, AtItsPrev) <==> AllPrev(job, f)))
  {
    var s := StandingOf(job, f);
    assert forall i :: 0 <= i < |job.env| ==> s.env[i] == FileAt(AtPrev(job.env[i], f), AtNext(job.env[i], f));
    assert EveryEnv(s, AtItsPrev) <==> EnvAtPrev(job, f);
    assert EveryEnv(s, AtItsNext) <==> EnvAtNext(job, f);
  }

  /** Where recovery leaves the files if no write of it fails: put back, or as they stand. */
  ghost predicate Leaves(job: Job, phase: Phase, f: Files, g: Files)
  {
    match Recover(job, phase, StandingOf(job, f))
    case RollBack => AllPrev(job, g)
    case ResumeRollBack => AllPrev(job, g)
    case _ => g == f
  }

  ghost predicate Mixed(job: Job, f: Files) { !AllPrev(job, f) && !AllNext(job, f) }

  /** Recovery leaves no mix of previous and new bytes, whatever mix it finds, exactly when the record does not say
      `applied` over a mix. */
  lemma RecoveryEndsMixes(job: Job, phase: Phase, f: Files, g: Files)
    requires Known(job, f) && (phase == NoChange ==> job.prev == job.next && job.env == [])
    requires Leaves(job, phase, f, g)
    ensures Mixed(job, g) <==> phase == Applied && Mixed(job, f)
  {
    StandingReads(job, f);
  }
}
