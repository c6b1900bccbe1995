/** Which env files a push writes and removes, and what the record of it says (box/envfiles.go, planSecrets and names;
    box/txn.go, record.valid).  A digest stands for the bytes it names. */
module Secrets {
  import opened Box
  import opened EnvFile
  import opened Options
  import opened Protocol
  import opened Sorting
  import opened Strings

  const MAX_APPS := 32
  const MAX_VARS := 256
  const MAX_NAMES := MAX_APPS * MAX_VARS
  const MAX_VAR_NAME := 128
  const MAX_ENV_READ := 66560

  predicate AppName(s: string)
  {
    1 <= |s| <= 63 && forall i :: 0 <= i < |s| ==> 'a' <= s[i] <= 'z' || '0' <= s[i] <= '9' || s[i] == '-'
  }

  /** What stands at an env file's name: nothing, a link, a file (`ours`: with the mode and owner root gives it), or
      something the box cannot take the place of: too large, of another kind, or unreadable. */
  datatype Found = Absent | Link | Regular(data: Bytes, ours: bool) | Unreadable

  function DataOf(f: Found): Option<Bytes>
  {
    if f.Regular? then Some(f.data) else None
  }

  /** The file is there, as root wrote it. */
  predicate Kept(f: Found, bytes: Bytes) { f == Regular(bytes, true) }

  // ----- an env file's variables

  /** A later assignment of a variable replaces an earlier one; a name no secret can have is left out. */
  function VarsOf(ps: seq<Pair>): map<string, string>
  {
    if ps == [] then map[]
    else
      var vars, last := VarsOf(ps[..|ps| - 1]), ps[|ps| - 1];
      if |last.key| > MAX_VAR_NAME then vars else vars[last.key := last.value]
  }

  function Vars(data: Option<Bytes>): map<string, string>
  {
    if data.None? then map[]
    else
      var read := ReadLines(Lines(data.value));
      if read.None? then map[] else VarsOf(read.value)
  }

  method EnvVars(data: Option<Bytes>) returns (vars: map<string, string>)
    ensures vars == Vars(data)
  {
    vars := map[];
    if data.None? {
      return;
    }
    var kvs := ParseEnvLines(data.value);
    if kvs.None? {
      return;
    }
    ghost var ps := ReadLines(Lines(data.value)).value;
    ReadsKeys(Lines(data.value));
    for i := 0 to |kvs.value|
      invariant vars == VarsOf(ps[..i])
    {
      assert ps[..i + 1][..i] == ps[..i];
      assert kvs.value[i] == ps[i].key + ['='] + ps[i].value;
      CutAt(ps[i].key, '=', ps[i].value);
      var (k, v, _) := Cut(kvs.value[i], '=');
      if |k| <= MAX_VAR_NAME {
        vars := vars[k := v];
      }
    }
    assert ps[..|ps|] == ps;
  }

  /** Every key read is one an env file may carry. */
  lemma {:induction false} ReadsKeys(lines: seq<string>)
    requires ReadLines(lines).Some?
    ensures forall i :: 0 <= i < |ReadLines(lines).value| ==>
              CarriesKey(ReadLines(lines).value[i].key) && '=' !in ReadLines(lines).value[i].key
  {
    if lines != [] {
      ReadsKeys(lines[1..]);
    }
  }

  lemma {:induction false} VarsAreListed(ps: seq<Pair>, k: string)
    requires k in VarsOf(ps)
    ensures |k| <= MAX_VAR_NAME && Pair(k, VarsOf(ps)[k]) in ps
  {
    var rest, last := ps[..|ps| - 1], ps[|ps| - 1];
    if |last.key| > MAX_VAR_NAME || last.key != k {
      VarsAreListed(rest, k);
    }
  }

  lemma VarsAreNames(data: Option<Bytes>, k: string)
    ensures k in Vars(data) ==> CarriesKey(k) && |k| <= MAX_VAR_NAME
  {
    if k in Vars(data) {
      var read := ReadLines(Lines(data.value));
      VarsAreListed(read.value, k);
      ReadsKeys(Lines(data.value));
    }
  }

  // ----- the plan

  /** What a push's env files come to, and what the baseline and the results will say of them. */
  datatype Plan = Plan(tree: string, entries: seq<EnvEntry>, installed: map<App, Bytes>,
                       added: seq<string>, changed: seq<string>, removed: seq<string>, outOfBand: seq<App>)

  /** What the decision is made from: the commit's files, those the baseline lists, and what stands. */
  datatype Facts = Facts(head: map<App, Bytes>, listed: map<App, Bytes>, view: App -> Found)

  function Apps(c: Facts): set<App> { c.head.Keys + c.listed.Keys }

  /** The set's entry for an app: the file is written unless it stands, and removed if the commit no longer has it. */
  function EntryFor(c: Facts, app: App): Option<EnvEntry>
  {
    if app in c.head then
      if Kept(c.view(app), c.head[app]) then None
      else Some(EnvEntry(app, DataOf(c.view(app)), Some(c.head[app])))
    else if app in c.listed && c.view(app).Regular? then Some(EnvEntry(app, DataOf(c.view(app)), None))
    else None
  }

  /** Something other than the box's last push wrote the app's file. */
  predicate Edited(c: Facts, app: App)
  {
    if app in c.listed then !Kept(c.view(app), c.listed[app])
    else app in c.head && c.view(app) != Absent && !Kept(c.view(app), c.head[app])
  }

  datatype Change = Added | Changed | Removed

  /** The app's variables that the push adds, changes or removes. */
  function VarChanges(was: map<string, string>, now: map<string, string>, ch: Change): set<string>
  {
    match ch
    case Added => now.Keys - was.Keys
    case Changed => set k | k in now && k in was && was[k] != now[k]
    case Removed => was.Keys - now.Keys
  }

  function Name(app: App, v: string): string { app + "/" + v }

  function AppNames(c: Facts, app: App, ch: Change): set<string>
  {
    set v | v in VarChanges(Vars(DataOf(c.view(app))), Vars(Lookup(c.head, app)), ch) :: Name(app, v)
  }

  ghost predicate IsNamed(c: Facts, apps: set<App>, ch: Change, n: string)
  {
    exists app :: app in apps && n in AppNames(c, app, ch)
  }

  /** A report of the names: in order, cut at the cap. */
  ghost predicate Reports(c: Facts, ch: Change, list: seq<string>)
  {
    exists all: seq<string> :: StrictlySorted(Itself, all) &&
      (forall n :: n in all <==> IsNamed(c, Apps(c), ch, n)) && list == Capped(all)
  }

  function Capped(names: seq<string>): seq<string>
  {
    if |names| > MAX_NAMES then names[..MAX_NAMES] else names
  }

  function AppOf(e: EnvEntry): string { e.app }

  ghost predicate Planned(c: Facts, p: Plan)
  {
    && p.installed == c.head
    && StrictlySorted(AppOf, p.entries) && (forall app :: EntryOf(p.entries, app) == EntryFor(c, app))
    && Reports(c, Added, p.added) && Reports(c, Changed, p.changed) && Reports(c, Removed, p.removed)
    && StrictlySorted(Itself, p.outOfBand) && (forall app :: app in p.outOfBand <==> app in Apps(c) && Edited(c, app))
  }

  /** What has been collected for some of the apps. */
  ghost predicate Gathered(c: Facts, apps: set<App>, entries: map<App, EnvEntry>,
                           names: map<Change, set<string>>, edited: set<App>)
  {
    && NamesAre(c, apps, names)
    && (forall app :: Lookup(entries, app) == if app in apps then EntryFor(c, app) else None)
    && (forall app :: app in edited <==> app in apps && Edited(c, app))
  }

  ghost predicate NamesAre(c: Facts, apps: set<App>, names: map<Change, set<string>>)
  {
    names.Keys == {Added, Changed, Removed} &&
    forall ch, n :: ch in names ==> (n in names[ch] <==> IsNamed(c, apps, ch, n))
  }

  method AddNames(c: Facts, app: App, ghost done: set<App>, names: map<Change, set<string>>)
    returns (names': map<Change, set<string>>)
    requires NamesAre(c, done, names)
    ensures NamesAre(c, done + {app}, names')
  {
    var was := EnvVars(DataOf(c.view(app)));
    var now := EnvVars(Lookup(c.head, app));
    names' := map ch | ch in names :: names[ch] + set v | v in VarChanges(was, now, ch) :: Name(app, v);
    assert forall ch :: ch in names ==> names'[ch] == names[ch] + AppNames(c, app, ch);
  }

  /** One app more. */
  method Gather(c: Facts, app: App, ghost done: set<App>, entries: map<App, EnvEntry>,
                names: map<Change, set<string>>, edited: set<App>)
    returns (entries': map<App, EnvEntry>, names': map<Change, set<string>>, edited': set<App>)
    requires Gathered(c, done, entries, names, edited) && app in Apps(c) && app !in done
    ensures Gathered(c, done + {app}, entries', names', edited')
  {
    entries', edited' := entries, edited;
    var cur := c.view(app);
    if app in c.head {
      var write := !cur.Regular? || !cur.ours || cur.data != c.head[app];
      if app in c.listed {
        if !cur.Regular? || !cur.ours || cur.data != c.listed[app] {
          edited' := edited + {app};
        }
      } else if cur != Absent && write {
        edited' := edited + {app};
      }
      if write {
        entries' := entries[app := EnvEntry(app, DataOf(cur), Some(c.head[app]))];
      }
    } else {
      if !cur.Regular? || cur.data != c.listed[app] || !cur.ours {
        edited' := edited + {app};
      }
      if cur.Regular? {
        entries' := entries[app := EnvEntry(app, DataOf(cur), None)];
      }
    }
    names' := AddNames(c, app, done, names);
  }

  /** Everything gathered, in order and capped. */
  method ListPlan(tree: string, c: Facts, entries: map<App, EnvEntry>, names: map<Change, set<string>>,
                  edited: set<App>) returns (p: Plan)
    requires Gathered(c, Apps(c), entries, names, edited)
    ensures Planned(c, p) && p.tree == tree
  {
    var apps := Ordered(entries.Keys);
    var list := seq(|apps|, i requires 0 <= i < |apps| => entries[apps[i]]);
    ListedEntries(c, apps, entries, list);
    var added := CapNames(c, Added, names);
    var changed := CapNames(c, Changed, names);
    var removed := CapNames(c, Removed, names);
    var outOfBand := Ordered(edited);
    p := Plan(tree, list, c.head, added, changed, removed, outOfBand);
  }

  method CapNames(c: Facts, ch: Change, names: map<Change, set<string>>) returns (list: seq<string>)
    requires ch in names && forall n :: n in names[ch] <==> IsNamed(c, Apps(c), ch, n)
    ensures Reports(c, ch, list)
  {
    list := Ordered(names[ch]);
    ghost var all := list;
    if |list| > MAX_NAMES {
      list := list[..MAX_NAMES];
    }
    assert list == Capped(all);
  }

  lemma ListedEntries(c: Facts, apps: seq<App>, entries: map<App, EnvEntry>, list: seq<EnvEntry>)
    requires StrictlySorted(Itself, apps) && forall app :: app in apps <==> app in entries
    requires |list| == |apps| && forall i :: 0 <= i < |apps| ==> list[i] == entries[apps[i]]
    requires forall app :: Lookup(entries, app) == if app in Apps(c) then EntryFor(c, app) else None
    ensures StrictlySorted(AppOf, list) && forall app :: EntryOf(list, app) == EntryFor(c, app)
  {
    forall i | 0 <= i < |list| ensures list[i].app == apps[i] && EntryFor(c, apps[i]) == Some(list[i]) {
      assert Lookup(entries, apps[i]) == Some(list[i]);
    }
    assert StrictlySorted(AppOf, list);
    StrictIsDistinct(list);
    forall app ensures EntryOf(list, app) == EntryFor(c, app) {
      if EntryOf(list, app).Some? {
        var i := EntryFound(list, app);
      } else if app in entries {
        var i :| 0 <= i < |apps| && apps[i] == app;
        EntryAt(list, i);
      } else {
        assert Lookup(entries, app) == None;
      }
    }
  }

  lemma StrictIsDistinct(list: seq<EnvEntry>)
    requires StrictlySorted(AppOf, list)
    ensures DistinctApps(list)
  {
    forall i, j | 0 <= i < j < |list| ensures list[i].app != list[j].app {
      LessIrreflexive(AppOf(list[i]), AppOf(list[j]));
    }
  }

  /** The plan, or nothing when something stands at a name that no file can be put at. */
  method PlanSecrets(tree: string, c: Facts) returns (p: Option<Plan>)
    ensures p.None? <==> exists app :: app in Apps(c) && c.view(app).Unreadable?
    ensures p.Some? ==> Planned(c, p.value) && p.value.tree == tree
  {
    var entries: map<App, EnvEntry> := map[];
    var names := map[Added := {}, Changed := {}, Removed := {}];
    var edited: set<App> := {};
    var left := Apps(c);
    while left != {}
      invariant left <= Apps(c) && (forall app :: app in Apps(c) - left ==> !c.view(app).Unreadable?)
      invariant Gathered(c, Apps(c) - left, entries, names, edited)
      decreases left
    {
      var app :| app in left;
      if c.view(app).Unreadable? {
        return None;
      }
      entries, names, edited := Gather(c, app, Apps(c) - left, entries, names, edited);
      assert Apps(c) - left + {app} == Apps(c) - (left - {app});
      left := left - {app};
    }
    assert Apps(c) - left == Apps(c);
    var listed := ListPlan(tree, c, entries, names, edited);
    return Some(listed);
  }

  // ----- the record a plan gives is one that reads back

  /** `<app>/<VAR>`. */
  predicate SecretName(n: string)
  {
    var (app, v, found) := Cut(n, '/');
    found && AppName(app) && |v| <= MAX_VAR_NAME && CarriesKey(v)
  }

  /** The app a name is of has a file in the set; one the push writes, if the push gives the variable a value. */
  predicate InSet(job: Job, n: string, ch: Change)
  {
    var (app, _, _) := Cut(n, '/');
    EntryOf(job.env, app).Some? && (ch != Removed ==> app in job.installed)
  }

  predicate NamesValid(job: Job, names: seq<string>, ch: Change)
  {
    |names| <= MAX_NAMES && forall n :: n in names ==> SecretName(n) && InSet(job, n, ch)
  }

  predicate SetValid(env: seq<EnvEntry>)
  {
    && |env| <= 2 * MAX_APPS && StrictlySorted(AppOf, env) && Proper(env)
    && forall i :: 0 <= i < |env| ==> AppName(env[i].app) && (env[i].prev.Some? ==> |env[i].prev.value| <= MAX_ENV_READ)
  }

  predicate ManagedValid(tree: string, installed: map<App, Bytes>)
  {
    && |installed| <= MAX_APPS && (installed != map[] ==> tree != "")
    && forall app :: app in installed ==> AppName(app)
  }

  /** The relations txn.json is held to, written and read. */
  predicate ValidRecord(r: Record)
  {
    var job := r.job;
    var changes := |job.added| + |job.changed| + |job.removed|;
    && (r.phase == NoChange ==> job.prev == job.next && job.env == [] && changes == 0)
    && (job.origin == FromInit ==> job.env == [] && changes == 0)
    && SetValid(job.env) && ManagedValid(job.tree, job.installed) && ListsItsSet(job)
    && NamesValid(job, job.added, Added) && NamesValid(job, job.changed, Changed)
    && NamesValid(job, job.removed, Removed)
    && |job.outOfBand| <= 2 * MAX_APPS && forall app :: app in job.outOfBand ==> AppName(app)
  }

  lemma ValidIsWellFormed(r: Record)
    requires ValidRecord(r)
    ensures WellFormed(r)
  {
    StrictIsDistinct(r.job.env);
  }

  /** A record valid as it begins is valid in every later phase. */
  lemma ValidInPhase(r: Record, r': Record)
    requires ValidRecord(r) && r'.job == r.job && r'.phase != NoChange
    ensures ValidRecord(r')
  {
  }

  /** What the proof of a commit's secrets, and the baseline's own validator, promise of the facts. */
  ghost predicate Sound(c: Facts, tree: string)
  {
    && |c.head| <= MAX_APPS && |c.listed| <= MAX_APPS && (c.head != map[] ==> tree != "")
    && (forall app :: app in Apps(c) ==> AppName(app))
    && (forall app :: c.view(app).Regular? ==> |c.view(app).data| <= MAX_ENV_READ)
  }

  predicate Carries(job: Job, p: Plan)
  {
    && job.env == p.entries && job.tree == p.tree && job.installed == p.installed
    && job.added == p.added && job.changed == p.changed && job.removed == p.removed && job.outOfBand == p.outOfBand
  }

  /** Every record a plan goes into is valid. */
  lemma PlanIsValid(c: Facts, p: Plan, r: Record)
    requires Planned(c, p) && Sound(c, p.tree) && Carries(r.job, p) && r.job.origin == FromApplier
    requires r.phase == NoChange ==> r.job.prev == r.job.next && p.entries == []
    ensures ValidRecord(r)
  {
    SetIsValid(c, p);
    NamesAreValid(c, r.job, Added, p.added);
    NamesAreValid(c, r.job, Changed, p.changed);
    NamesAreValid(c, r.job, Removed, p.removed);
    FitsIn(Itself, p.outOfBand, Apps(c));
    forall i | 0 <= i < |p.entries| ensures Lookup(p.installed, p.entries[i].app) == p.entries[i].next {
      EntryStands(c, p, i);
    }
    if p.entries == [] {
      EmptySetNamesNothing(r.job, p.added, Added);
      EmptySetNamesNothing(r.job, p.changed, Changed);
      EmptySetNamesNothing(r.job, p.removed, Removed);
    }
  }

  lemma SomeOrNone(names: seq<string>)
    ensures names == [] || exists n :: n in names
  {
    assert names == [] || names[0] in names;
  }

  lemma EmptySetNamesNothing(job: Job, names: seq<string>, ch: Change)
    requires NamesValid(job, names, ch) && job.env == []
    ensures names == []
  {
    SomeOrNone(names);
  }

  /** Each entry of the set has the bytes that stand before it and the commit's after it. */
  lemma EntryStands(c: Facts, p: Plan, i: nat)
    requires Planned(c, p) && i < |p.entries|
    ensures var e := p.entries[i];
            && e.app in Apps(c) && e.prev == DataOf(c.view(e.app)) && e.next == Lookup(c.head, e.app)
            && (e.prev.Some? || e.next.Some?)
  {
    StrictIsDistinct(p.entries);
    EntryAt(p.entries, i);
    assert EntryFor(c, p.entries[i].app) == Some(p.entries[i]);
  }

  lemma SetIsValid(c: Facts, p: Plan)
    requires Planned(c, p) && Sound(c, p.tree)
    ensures SetValid(p.entries)
  {
    forall i | 0 <= i < |p.entries|
      ensures AppOf(p.entries[i]) in Apps(c)
      ensures AppName(p.entries[i].app) && (p.entries[i].prev.Some? || p.entries[i].next.Some?)
      ensures p.entries[i].prev.Some? ==> |p.entries[i].prev.value| <= MAX_ENV_READ
    {
      EntryStands(c, p, i);
    }
    FitsIn(AppOf, p.entries, Apps(c));
    assert |Apps(c)| <= 2 * MAX_APPS;
  }

  lemma {:induction false} FitsIn<T>(key: T -> string, list: seq<T>, s: set<string>)
    requires StrictlySorted(key, list) && forall i :: 0 <= i < |list| ==> key(list[i]) in s
    ensures |list| <= |s|
  {
    if list != [] {
      forall i | 0 < i < |list| ensures key(list[i]) in s - {key(list[0])} {
        LessIrreflexive(key(list[0]), key(list[i]));
      }
      FitsIn(key, list[1..], s - {key(list[0])});
    }
  }

  lemma NoEntryNoChange(c: Facts, app: App)
    requires app in Apps(c) && EntryFor(c, app).None?
    ensures DataOf(c.view(app)) == Lookup(c.head, app)
  {
  }

  /** A variable changes only in a file the set writes or removes, and is given a value only in one it writes. */
  lemma NamedHasEntry(c: Facts, app: App, ch: Change, n: string) returns (v: string)
    requires app in Apps(c)
    ensures n in AppNames(c, app, ch) ==>
              && EntryFor(c, app).Some? && (ch != Removed ==> app in c.head)
              && n == Name(app, v) && CarriesKey(v) && |v| <= MAX_VAR_NAME
  {
    v := "";
    if n in AppNames(c, app, ch) {
      var was, now := DataOf(c.view(app)), Lookup(c.head, app);
      v :| v in VarChanges(Vars(was), Vars(now), ch) && n == Name(app, v);
      assert was != now && (v in Vars(was) || v in Vars(now)) && (ch != Removed ==> v in Vars(now));
      if EntryFor(c, app).None? {
        NoEntryNoChange(c, app);
      }
      VarsAreNames(was, v);
      VarsAreNames(now, v);
    }
  }

  lemma ReportedIsNamed(c: Facts, ch: Change, names: seq<string>, n: string)
    requires Reports(c, ch, names) && n in names
    ensures IsNamed(c, Apps(c), ch, n)
  {
    var all: seq<string> :| StrictlySorted(Itself, all) &&
        (forall n :: n in all <==> IsNamed(c, Apps(c), ch, n)) && names == Capped(all);
    assert n in all;
  }

  lemma NamesAreValid(c: Facts, job: Job, ch: Change, names: seq<string>)
    requires Reports(c, ch, names) && (forall app :: app in Apps(c) ==> AppName(app))
    requires job.installed == c.head && forall app :: EntryOf(job.env, app) == EntryFor(c, app)
    ensures NamesValid(job, names, ch)
  {
    forall n | n in names ensures SecretName(n) && InSet(job, n, ch) {
      ReportedIsNamed(c, ch, names, n);
      var app :| app in Apps(c) && n in AppNames(c, app, ch);
      var v := NamedHasEntry(c, app, ch, n);
      assert n == app + ['/'] + v;
      CutAt(app, '/', v);
    }
  }

  // ----- a plan takes the files as they stand, and once applied leaves nothing to do

  lemma PlanTakesWhatStands(c: Facts, p: Plan, f: Files)
    requires Planned(c, p) && forall app :: app in Apps(c) ==> DataOf(c.view(app)) == Lookup(f.env, app)
    ensures forall i :: 0 <= i < |p.entries| ==> AtPrev(p.entries[i], f)
  {
    forall i | 0 <= i < |p.entries| ensures AtPrev(p.entries[i], f) {
      EntryStands(c, p, i);
    }
  }

  /** What stands at an app's name once the set's entries are written and removed. */
  function Then(c: Facts, p: Plan, app: App): Found
  {
    var e := EntryOf(p.entries, app);
    if e.None? then c.view(app) else if e.value.next.Some? then Regular(e.value.next.value, true) else Absent
  }

  /** Planned again over its own result, the same commit changes, reports and finds edited nothing. */
  lemma AppliedPlanIsSettled(c: Facts, p: Plan, c': Facts, p': Plan)
    requires Planned(c, p) && Planned(c', p')
    requires c'.head == c.head && c'.listed == p.installed && forall app :: c'.view(app) == Then(c, p, app)
    ensures p'.entries == [] && p'.added == [] && p'.changed == [] && p'.removed == [] && p'.outOfBand == []
  {
    forall app | app in Apps(c') ensures EntryFor(c', app) == None && !Edited(c', app) {
      assert EntryOf(p.entries, app) == EntryFor(c, app);
    }
    if p'.entries != [] {
      assert EntryOf(p'.entries, p'.entries[0].app) == Some(p'.entries[0]);
    }
    NothingNamed(c', Added, p'.added);
    NothingNamed(c', Changed, p'.changed);
    NothingNamed(c', Removed, p'.removed);
    SomeOrNone(p'.outOfBand);
  }

  lemma NothingNamed(c: Facts, ch: Change, names: seq<string>)
    requires Reports(c, ch, names) && forall app :: app in Apps(c) ==> EntryFor(c, app) == None
    ensures names == []
  {
    if names != [] {
      ReportedIsNamed(c, ch, names, names[0]);
      var app :| app in Apps(c) && names[0] in AppNames(c, app, ch);
      var _ := NamedHasEntry(c, app, ch, names[0]);
    }
  }

  // ----- the file rendered from a commit's secrets reads as those secrets

  lemma {:induction false} VarsOfDistinct(ps: seq<Pair>, k: string, v: string)
    requires StrictlySorted(KeyOf, ps) && forall i :: 0 <= i < |ps| ==> |ps[i].key| <= MAX_VAR_NAME
    ensures Lookup(VarsOf(ps), k) == Some(v) <==> Pair(k, v) in ps
  {
    if ps != [] {
      var rest, last := ps[..|ps| - 1], ps[|ps| - 1];
      VarsOfDistinct(rest, k, v);
      assert ps == rest + [last];
      if Pair(k, v) in rest {
        var i :| 0 <= i < |rest| && rest[i] == Pair(k, v);
        LessIrreflexive(KeyOf(ps[i]), KeyOf(last));
      }
    }
  }

  /** The box reads from the file it writes, a comment line ahead of it, exactly the commit's variables and values. */
  lemma FileCarriesSecrets(header: string, vars: seq<string>, k: string, v: string)
    requires header != "" && header[0] == '#' && !IsSpace(header[|header| - 1]) && '\n' !in header
    requires Render(vars).Some? && forall p :: p in PairsOf(vars).value ==> |p.key| <= MAX_VAR_NAME
    ensures Lookup(Vars(Some(header + "\n" + Render(vars).value)), k) == Some(v) <==> Pair(k, v) in PairsOf(vars).value
  {
    var ps := PairsOf(vars).value;
    var s := Sort(KeyOf, ps);
    RenderReadsBack(vars);
    HeaderIsSkipped(header, Render(vars).value);
    SameMembers(s, ps);
    VarsOfDistinct(s, k, v);
  }

  lemma SameMembers(s: seq<Pair>, ps: seq<Pair>)
    requires s == Sort(KeyOf, ps)
    ensures forall p :: p in s <==> p in ps
  {
    SortSorts(KeyOf, ps);
    assert forall p :: p in s <==> p in multiset(s);
    assert forall p :: p in ps <==> p in multiset(ps);
  }
}
