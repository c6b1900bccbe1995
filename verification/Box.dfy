/** What the box keeps on disk, and the words of the install transaction (box/txn.go, box/results.go).

    A digest stands for the bytes it names: files are compared as contents.  A Caddyfile carries, with its
    text, the apps whose managed env file it names. */
module Box {
  import opened Options

  type Id = string
  type App = string
  type Bytes = string

  datatype Caddyfile = Caddyfile(text: string, names: set<App>)

  /** The files a push can change: the Caddyfile, and the env file of each app that has one. */
  datatype Files = Files(caddy: Option<Caddyfile>, env: map<App, Bytes>)

  function Lookup<K, V>(m: map<K, V>, k: K): Option<V>
  {
    if k in m then Some(m[k]) else None
  }

  function Put<K, V>(m: map<K, V>, k: K, v: Option<V>): map<K, V>
  {
    if v.Some? then m[k := v.value] else m - {k}
  }

  datatype Origin = FromApplier | FromInit

  /** A record's phases. */
  datatype Phase = NoChange | Installing | Swapped | Applied | RollingBack

  /** A result's phases: verified, or terminal. */
  datatype ResultPhase = Verified | Refused | WasNoChange | WasApplied | Failed | RolledBack | Unknown

  predicate Terminal(p: ResultPhase) { p != Verified }

  /** One env file of a push's set: its bytes before and after, none where no file stands. */
  datatype EnvEntry = EnvEntry(app: App, prev: Option<Bytes>, next: Option<Bytes>)

  /** What a transaction is about, fixed when it begins. */
  datatype Job = Job(id: Id, origin: Origin, commit: string, prev: Caddyfile, next: Caddyfile, env: seq<EnvEntry>,
                     tree: string, installed: map<App, Bytes>,
                     added: seq<string>, changed: seq<string>, removed: seq<string>, outOfBand: seq<App>)

  /** txn.json: the job, how far it has come, and why it is rolling back. */
  datatype Record = Record(job: Job, phase: Phase, why: string)

  /** applied.json; the signer is who stands for it: a push's signer, or init. */
  datatype Baseline = Baseline(commit: string, caddy: Caddyfile, signer: Origin, tree: string, secrets: map<App, Bytes>)

  function BaselineOf(job: Job): Baseline
  {
    Baseline(job.commit, job.next, job.origin, job.tree, job.installed)
  }

  /** The Caddyfile is written, and motel reloaded, only when its bytes change. */
  predicate CaddyInSet(job: Job) { job.prev != job.next }

  /** The set's entry for an app, if it has one. */
  function EntryOf(es: seq<EnvEntry>, app: App): Option<EnvEntry>
  {
    if es == [] then None else if es[0].app == app then Some(es[0]) else EntryOf(es[1..], app)
  }

  predicate DistinctApps(es: seq<EnvEntry>)
  {
    forall i, j :: 0 <= i < j < |es| ==> es[i].app != es[j].app
  }

  /** No env file of the set is absent before and after. */
  predicate Proper(es: seq<EnvEntry>)
  {
    forall i :: 0 <= i < |es| ==> es[i].prev.Some? || es[i].next.Some?
  }

  /** What the baseline will list agrees with the set's env files. */
  predicate ListsItsSet(job: Job)
  {
    forall i :: 0 <= i < |job.env| ==> Lookup(job.installed, job.env[i].app) == job.env[i].next
  }

  lemma {:induction false} EntryAt(es: seq<EnvEntry>, i: nat)
    requires DistinctApps(es) && i < |es|
    ensures EntryOf(es, es[i].app) == Some(es[i])
  {
    if i > 0 {
      assert es[0].app != es[i].app;
      EntryAt(es[1..], i - 1);
    }
  }

  lemma {:induction false} EntryFound(es: seq<EnvEntry>, app: App) returns (i: nat)
    requires EntryOf(es, app).Some?
    ensures i < |es| && es[i].app == app && EntryOf(es, app).value == es[i]
  {
    if es[0].app == app {
      return 0;
    }
    i := EntryFound(es[1..], app);
    i := i + 1;
  }

  // ----- where the files of a set stand

  predicate CaddyAtPrev(job: Job, f: Files) { f.caddy == Option.Some(job.prev) }
  predicate CaddyAtNext(job: Job, f: Files) { f.caddy == Option.Some(job.next) }
  predicate AtPrev(e: EnvEntry, f: Files) { Lookup(f.env, e.app) == e.prev }
  predicate AtNext(e: EnvEntry, f: Files) { Lookup(f.env, e.app) == e.next }

  predicate EnvAtPrev(job: Job, f: Files) { forall i :: 0 <= i < |job.env| ==> AtPrev(job.env[i], f) }
  predicate EnvAtNext(job: Job, f: Files) { forall i :: 0 <= i < |job.env| ==> AtNext(job.env[i], f) }

  predicate AllPrev(job: Job, f: Files) { CaddyAtPrev(job, f) && EnvAtPrev(job, f) }
  predicate AllNext(job: Job, f: Files) { CaddyAtNext(job, f) && EnvAtNext(job, f) }

  /** Every file of the set is at its previous bytes or at its new ones. */
  ghost predicate Known(job: Job, f: Files)
  {
    && (CaddyAtPrev(job, f) || CaddyAtNext(job, f))
    && (forall i :: 0 <= i < |job.env| ==> AtPrev(job.env[i], f) || AtNext(job.env[i], f))
  }

  /** g is f with the job's set at its new bytes. */
  ghost predicate Installed(job: Job, f: Files, g: Files)
  {
    && AllNext(job, g)
    && (forall app :: EntryOf(job.env, app).None? ==> Lookup(g.env, app) == Lookup(f.env, app))
  }

  /** Every env file the Caddyfile names is there. */
  ghost predicate Covered(f: Files)
  {
    f.caddy.Some? && f.caddy.value.names <= f.env.Keys
  }
}
