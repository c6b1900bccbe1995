# hotserve, verified

Dafny models of the hard parts of hotserve's `box` and `liveswap`: the code that installs a pushed Caddyfile and its
apps' env files as root, and the code that swaps one running release of an app for another. Everything here is proved
for all inputs, or over all runs of a state machine; `dafny verify dfyconfig.toml` checks the whole project.

**The install transaction** (`Box`, `Protocol`, `Atomicity`, `Answers`, `Incidents`, `Safety`, `Durable`, `Recovery`,
`Applier`, `Secrets`, `Retention`, `Queue`, `Apply`). `Protocol` says which single durable step may follow which state
of the disk. `Atomicity`, `Answers` and `Safety` prove what holds over every run of such steps: a push applies whole
or not at all, what a push is told is true of the files, the Caddyfile on disk never names an env file that is not
there, the baseline follows the record and is not rolled back, a push settles once, and no bundle goes unanswered.
`Durable` is the disk as a process sees it, and `Applier` and `Apply` are the code, step by step, over it: every write
it makes is shown to be a step of the protocol. A crash leaves the disk in any state it has been in (`Disk.Crash`) and
loses the process's memory, so `Apply.Lifetime` carries the theorems over any number of runs, of the applier and of
`motel init`, each killed anywhere. The other half is progress: if nothing asked of the system fails, an accepted push
is applied exactly (`Apply.Process`), and recovery leaves no transaction behind (`Apply.RecoverAll`).

The fault model: any write, rename, reload or question to systemd may fail; a write that is reported failed may have
landed, and one that landed is taken as durable, even where the fsync of its directory failed; result files read back
as written. motel may stop, or start on the file on disk, and bundles and markers may arrive, between any two steps.
The ghost flag `clean` falls when a console edits a file of the set, and only then; `smooth` falls when anything
fails. Safety is promised while `clean`, progress while `smooth`; whether or not a console has edited, recovery and
rollback write nothing once a file of the set reads as neither its previous nor its new bytes.

What goes wrong with a write is part of the state, so that promises can be stated in terms of it: a record on disk is
a *stray* if its write was reported failed, and *stuck* once a `rolling_back` to take its place has failed to land; a
push is *untold* once a terminal result of it has failed to land. The code must show that it meets the steps'
conditions on these: a record or a bundle goes only after its push's terminal result was written or failed to land,
and files are put back under a record that says `applied` only if it is a stray and is stuck.

Five promises of the design hold only under a condition; each is proved with its exact condition, beside a run or a
date that breaks it:

- A push applies whole or not at all, over every run in which no stray `applied` record gets stuck:
  `Atomicity.AllOrNothing` and `Apply.HistoryIsAtomic`. A committed record can come to stand over files partway back
  if and only if it is a stray, its push has not been told and the baseline not advanced, and its set has two files to
  change: `Atomicity.TearsExactly`. `Incidents.MixLeft` is a run, and `Recovery.RecoveryEndsMixes` says that recovery
  leaves no other mix.
- `failed` and `refused` say that nothing of the push is in force, if no terminal result of it has failed to land:
  `Answers.TruthIfWritten` and `Apply.HistoryTellsTruth`. They are false if and only if the push is lost: it was
  applied, its result failed to land, its record went, and no result has been written since (`Answers.FailedIsTrue`,
  `Answers.LostExactly`). `Incidents.FailedThoughApplied` is a run.
- A marker with nothing behind it either blocks admission or is stranded, unless it is dated 2^63 ns or more ahead of
  the clock: `Retention.BlocksOrStranded`, and `Retention.BothAtOnce` for a date.
- Every marker's bundle is durable before it, if and only if no marker is written for a bundle that root took before
  any sync of `in/` since it was dropped, with no sync of `work/` since that found it there:
  `Admission.MarkerFollowsBundle`, and `Admission.MarkerWithoutBundle` for a run.
- Settling a deploy marker removes no release whose deploy was recorded, unless another deploy of that version has
  replaced the record while the marker stood: `Releases.SettlesFinishedExactly`, and
  `Releases.SettlesFinishedAfterFailure` for a run.

**The diff** (`EditGraph`, `Myers`, `Distance`, `LineDiff`, `Hunks`, `DiffText`). The Myers search as it runs, on its
array of furthest-reaching diagonals, finds a shortest edit script within its limit or shows that there is none; the
text rendered from a script, read back and applied as a patch to the old file, gives the new one character for
character; and a limit cuts that text exactly when it is over it.

**The reachability walk** (`Routes`, `Reach`, `ReachWalk`, `ReachOrder`). Against an executor of Caddy's routes in
which every undecided matcher may answer anything: where the walk says the webhook is reached, every request reaches
it, in whatever order Caddy runs the matchers of any set; with nothing undecided the verdict is exact.

**Env files and placeholders** (`Strings`, `Sorting`, `EnvFile`, `Placeholders`). What is rendered reads back exactly,
in an order that does not depend on the input's; the one-pass expansion of `{$NAME:default}` is Caddy's splicing one.

**Admission, deploys, publication, health** (`Admission`, `Releases`, `Deploy`, `Publish`, `Health`). Interleavings as
steps of a state machine; the deploy pipeline as a class whose every step is one of `Releases`' steps. A release
appears whole, as one rename of what was extracted beside it (`liveswap/download.go`).

## Model

| member | source | states |
|---|---|---|
| `Protocol.NextKeepsInv` | box/txn.go:485-912 | every durable step of a transaction keeps the invariant: the record's files are each at their previous or new bytes in an order that names no absent file; motel runs an applied Caddyfile or is stopped; an `applied` record whose files are not all new is a stray and stuck; a settled push's record is answered; and once a transaction has written the baseline its files are all new and are the bytes the baseline names |
| `Protocol.RunKeepsInv` | box/txn.go:485-912 | so does every run of steps, crashes and recoveries among them |
| `Atomicity.EveryStepIsAtomic` | box/txn.go:485-640 | read through the record, the files change only at the one step that records `applied`, which installs the whole set, and at its undoing, which takes the whole set back; no other step changes the reading, but one that gives up a record over a half-done restore |
| `Atomicity.AllOrNothing` | box/txn.go:485-762 | over any run, whatever jobs, failed writes and records left standing it holds, from an instant with no record to any other: the files read as the first instant's with whole sets installed in the order of their commits, and are so when nothing is under way, if no `rolling_back` failed to land for a record whose `applied` landed though reported failed |
| `Atomicity.TornNeedsBoth` | box/txn.go:598-694 | wherever an `applied` record stands over files partway back, there were two steps before: its `applied` landed though reported failed, and later, that record still on disk, a `rolling_back` failed to land |
| `Atomicity.MixedOnlyBySlipping` | box/txn.go:852-912 | a run that ends with any other files than whole sets has two such steps, which it finds |
| `Atomicity.TearsExactly` | box/txn.go:598-762 | from any state with a committed record, some run under that record leaves its files partway back if and only if its `applied` was reported failed, its push has not been told and the baseline not advanced, and at least two files of the set change |
| `Atomicity.WholeExactly` | box/txn.go:852-912 | a run reads whole throughout exactly if no `applied` record is removed or begun over with its files partway back: the half that is not a guard read back is that nothing else ever breaks it |
| `Answers.FailedIsTrue` | box/apply.go:235-284 | over any run, when `failed` or `refused` is written, no commit of the push stands since it last had a terminal result, if and only if the push is not lost |
| `Answers.TruthIfWritten` | box/txn.go:378-392 | over any run, at any instant the push is not applied under a record on disk: no commit of it stands since it last had a terminal result, if no terminal result of it has failed to land, or one has landed since |
| `Answers.LostIsMissed` | box/txn.go:378-392 | no push is lost but one whose terminal result failed to land while its record was on disk, and that has had none since |
| `Answers.NoRecordNoChange` | box/apply.go:256-282 | the same of every instant with no record of the push on disk: a bundle that is found there changed nothing exactly if its push is not lost |
| `Answers.LostExactly` | box/txn.go:378-392 | a push is lost exactly if it was applied, its terminal result failed to land, its record went so, and it has had no terminal result since |
| `Answers.FailedLeftTheFiles` | box/txn.go:378-392 | the first result of a push, if `failed` or `refused`, and if none failed to land and no stray `applied` record got stuck: the files read as the start's with whole sets of other jobs installed and none of this push's |
| `Incidents.MixLeft` | box/txn.go:598-762 | eleven states, each one step after the last, from a push's beginning over an `applied` reported failed and a `rolling_back` that does not land to a disk with no record, a new Caddyfile and a previous env file, on which recovery decided to leave what it found |
| `Incidents.FailedThoughApplied` | box/txn.go:378-392 | eleven states from a push's beginning over an `applied` result that does not land to its `failed` result with every file new and the baseline the push's |
| `Safety.MixIsCovered` | box/txn.go:512-560 | any mix that the order of swap and rollback allows has every env file its Caddyfile names, if both sets do |
| `Safety.NamesNoAbsentFile` | box/txn.go:512-560 | at every instant of every run the Caddyfile on disk names no managed env file that is absent, if that holds at the start and of each set pushed |
| `Safety.BaselineIsNotRolledBack` | box/txn.go:641-680 | once written, the baseline names the standing bytes until the next transaction begins, and the record never leaves its committed phase |
| `Safety.BaselineFollowsRecord` | box/txn.go:356-376 | the baseline changes only under a committed record with every file of the set new, and to what that record installs; that the bytes it names stand comes of the invariant, the rest is the condition the code meets at `Applier.Applier.Advance` |
| `Safety.SettlesOnce` | box/apply.go:286-304 | a terminal result is never replaced while it is kept |
| `Safety.ResultTellsTruth` | box/txn.go:378-392 | when `applied`, `no_change` or `rolled_back` is written, what it says of the files, of what motel has loaded and of the baseline holds; when `failed` or `refused` is, over the push's own record, every file of its set is previous |
| `Safety.MarkerGoesFirst` | box/retention.go:143-163 | in every run in which a terminal result goes, there was an instant it stood without its marker; it rests on the one condition of a result's removal, which the code meets at `Apply.Sweep`, and on no other step removing one |
| `Safety.EntryGoesLast` | box/txn.go:378-399 | in every run in which a bundle goes from `in/` and `work/`, there was an instant it was there with its push's terminal result written or failed to land; it rests on the one condition of a bundle's removal, which the code meets at `Applier.Applier.Finish`, `Apply.RecoverAll` and `Apply.Take` |
| `Recovery.StandingReads` | box/txn.go:410-484 | reading the set's files decides exactly whether all are previous, all new, or each one of the two |
| `Recovery.RecoveryEndsMixes` | box/txn.go:852-912 | what recovery decides leaves no mix of previous and new files, if and only if the record does not say `applied` over a mix |
| `Durable.Disk.WriteRecord` | box/txn.go:331-336 | the record lands, a stray if that is reported failed; or it fails to land, and a `rolling_back` that does leaves the record on disk stuck; a record that breaks any of the validator's nine relations is never written, and only a failure keeps a valid one from it |
| `Durable.Disk.WriteResult` | box/results.go:185-205 | the result lands, or the write failed and it may have; a push whose terminal result did not land is untold |
| `Durable.Disk.RemoveRecord` | box/txn.go:393-399 | asked only once nothing is under way and the record's push has its terminal result or is untold; the record goes, or that failed and may have happened |
| `Durable.Disk.PutEnv` | box/envfiles.go:388-457 | an env file takes its bytes or goes, or that failed and may have happened |
| `Durable.Disk.Crash` | box/durable.go:27-47 | a kill, or a power loss with every landed write durable, leaves the disk in any state it has been in since the process began, of a history that is still lawful |
| `Durable.LawfulIsRun` | box/durable.go:48-109 | a disk's history, from any instant on, is a run of the protocol |
| `Applier.Applier.WriteResult` | box/results.go:185-205 | the result lands or the write failed; either way the run remembers an ended push as ended |
| `Applier.Applier.Finish` | box/txn.go:378-392 | ends a transaction: the record and the entry go only after the result was written or failed to land; nothing is under way after it if nothing was; with no failure the result on disk is the outcome and no record is left |
| `Applier.Applier.States` | box/txn.go:425-449 | reads every file of the set, or says that it could not; each is as it was at some instant since the reading began, whatever a console does, and all as they stand if none does |
| `Applier.Applier.ListedAsRecorded` | box/txn.go:655-668 | finds whether every env file the baseline will list stands as it will be listed |
| `Applier.Applier.Advance` | box/txn.go:641-680 | writes the baseline from a committed record only over files that stand, and ends; with no failure it says `applied` or `no_change` |
| `Applier.Applier.SwapEnvs` | box/txn.go:524-556 | writes the env files the push writes, or removes those it removes, and no other; where it stops, only the file it stopped at is in doubt |
| `Applier.Applier.SwapFiles` | box/txn.go:518-560 | the swap leaves the set installed over the old files, or says where it stopped and whether bytes had changed |
| `Applier.Applier.SwapFailed` | box/txn.go:574-594 | a swap that failed ends with all files previous, or as found, or leaves its record |
| `Applier.Applier.ReloadSwapped` | box/txn.go:598-640 | records `applied` only after a reload, if the Caddyfile changed, and every file read back new |
| `Applier.Applier.Rollback` | box/txn.go:681-694 | asks the record to say `rolling_back` first, and then puts the files back whether or not that lands: under a record that says `applied` every write back is a step of the protocol only because it was asked and failed to land; with no failure every file is previous and the push ends `rolled_back` |
| `Applier.Applier.RollBackFiles` | box/txn.go:695-762 | every file goes back in the reverse order, or the record stays; with no failure every file is previous, the push ends `rolled_back` and no record is left; nothing is written if a file was, when it was read, at neither its previous nor its new bytes, whatever a console has done |
| `Applier.Applier.RestoreAll` | box/txn.go:780-797 | all files of the set are previous, or it says which could not be put back, which only a failure causes |
| `Applier.Applier.Install` | box/txn.go:485-573 | every write is a step of the protocol, only this push is touched, the push is answered; with no failure and a valid set, the set is installed whole and the baseline is the job's |
| `Applier.Applier.RecoverRecord` | box/txn.go:852-925 | settles whatever record a crash left, from the disk alone; with no failure it ends, no record is left, and unless the record was given up half-restored the set's files are all previous or all new |
| `Applier.Applier.RecoverLive` | box/txn.go:852-912 | of a record still live: the same, and no file is written if one of the set was, when it was read, at neither its previous nor its new bytes, whatever a console has done |
| `Apply.RecoverAll` | box/apply.go:235-284 | after it nothing is under way and every bundle in `work/` has been answered; with no failure no record is left |
| `Apply.Take` | box/apply.go:366-465 | every bundle in `work/` has been answered or is one of the run's, none of which has settled; the run's are each there once, by the times of the markers that read, then those with none, and otherwise by name |
| `Queue.Order` | box/apply.go:422-439 | the bundles each once, those whose marker reads first, by its time, and otherwise by name |
| `Apply.Process` | box/apply.go:470-551 | touches only this push and answers it; with no failure the push's terminal result is on disk and is the outcome, and an accepted push ends `applied` or `no_change`, with exactly the commit's Caddyfile and env files on disk, those it no longer has gone, every other as it was, and the baseline saying so |
| `Apply.RunInit` | box/txn.go:937-995 | init's transaction is one of the same protocol, over a disk recovered first; with no failure its file is installed and the baseline is of its commit |
| `Apply.ProcessAll` | box/apply.go:169-182 | bundle after bundle, each that was taken is answered unless the run stops |
| `Apply.Sweep` | box/retention.go:48-166 | every removal is a step of the protocol; at most 32 ids that this run did not answer are kept, and with no failure the result of every other id judged is gone |
| `Apply.Lifetime` | box/apply.go:156-182 | over any number of runs and crashes the disk's whole history stays lawful |
| `Apply.HistoryIsAtomic` | box/apply.go:156-182 | of such a history: from any instant with no record to another, the files are those of the first with whole sets installed in the order of their commits, if no `rolling_back` failed to land for a record whose `applied` landed though reported failed |
| `Apply.HistoryIsNeverTorn` | box/apply.go:156-182 | under the same condition no state of it has an `applied` record over files partway back |
| `Apply.HistoryTellsTruth` | box/apply.go:156-182 | and a push told `failed` or `refused` has no commit standing since it last had a terminal result, if no terminal result of it failed to land; and if and only if it is not lost |
| `Apply.HistoryLeavesNothing` | box/apply.go:256-282 | the same of any instant with no record of the push on disk: a bundle recovery finds so has changed nothing |
| `Apply.PlanFulfils` | box/envfiles.go:233-321 | a plan's set, put over the files it was made from, gives each app's env file as the commit has it, gone if the box managed it and the commit has none, untouched otherwise, and the baseline of the commit |
| `Apply.JobApplies` | box/txn.go:641-680 | such a set installed, with its baseline written, leaves exactly what the push asked for |
| `Apply.PlanCoversNames` | box/secrets.go:283-341 | a plan's set covers every env file the new Caddyfile names, if it names only apps with secrets |
| `Secrets.EnvVars` | box/envfiles.go:359-379 | the variables a file gives are the last assignment of each name, none over 128 bytes, none at all if a line does not read |
| `Secrets.PlanSecrets` | box/envfiles.go:233-321 | a plan, unless something stands at a name that no file can be put at; its entries, names and edited apps are exactly those the commit, the baseline and the standing files call for, in order |
| `Secrets.PlanIsValid` | box/txn.go:106-243 | every record made from a plan satisfies the nine relations the record's validator holds it to |
| `Secrets.ValidIsWellFormed` | box/txn.go:106-191 | and is one the protocol can begin from |
| `Secrets.NamedHasEntry` | box/envfiles.go:336-357 | a variable is reported only of an app whose file the set changes, as added or changed only if the commit has the app |
| `Secrets.PlanTakesWhatStands` | box/envfiles.go:255-317 | every entry's previous bytes are the ones that stand |
| `Secrets.AppliedPlanIsSettled` | box/envfiles.go:233-321 | planned again over its own result, the same commit gives no entries, no names and no edited apps |
| `Secrets.FileCarriesSecrets` | box/secrets.go:175-211 | the file written for an app, header and all, reads as exactly the commit's variables and values |
| `Retention.BlocksOrStranded` | box/retention.go:102-172 | a marker with nothing behind it either blocks admission or is stranded, and not both, if and only if it is dated within a duration's range ahead of the clock |
| `Retention.BothAtOnce` | box/admission.go:194-211 | a marker dated 300 years ahead does both |
| `Retention.Decide` | box/retention.go:98-150 | keeps exactly the ids this run answered and those among the 32 newest that are under a day old; at most 32 of the others |
| `Admission.OneBundleAtATime` | box/admission.go:38-106 | in every interleaving of pushes, takes, syncs, restarts and power losses, `in/` holds, and would be left with, at most one bundle |
| `Admission.KeptExactly` | box/admission.go:222-276 | in every interleaving from an empty tree, a bundle has been made durable exactly if some sync found it in `in/`, or in `work/` |
| `Admission.MarkedInTime` | box/admission.go:231-261 | a marker's bundle has been made durable when the marker is written if and only if it is not the case that, since the push dropped it, root took it before any sync of `in/` and no sync of `work/` has found it there |
| `Admission.MarkerFollowsBundle` | box/admission.go:222-276 | in every interleaving from an empty tree: every marker that stands or would be left has had its bundle made durable, at every instant, if and only if no marker is written after such a take |
| `Admission.MarkerWithoutBundle` | box/admission.go:222-276 | an interleaving with such a marker, which ends with the marker durable and no bundle anywhere |
| `EditGraph.WalksRebuild` | box/diff.go:66-77 | an edit script's kept and deleted lines are the old file and its kept and inserted ones the new |
| `EditGraph.WalkReaches` | box/diff.go:229-258 | a script of some cost puts its end within that many edits' reach |
| `EditGraph.ReachableHasWalk` | box/diff.go:229-258 | and every point within reach has a script of that cost |
| `Myers.EntryIsFurthest` | box/diff.go:236-250 | stepping from the better neighbour and running the snake gives the furthest point of a diagonal at that cost |
| `Myers.Myers` | box/diff.go:229-258 | returns a script of least cost, within the limit, or fails only if every script costs more |
| `Myers.Round` | box/diff.go:235-256 | one round of the search advances every diagonal of its parity to its furthest point, or finds the corner |
| `Myers.Backtrack` | box/diff.go:260-296 | the snapshots of the search give back a script from the origin to the corner, of the cost found |
| `Distance.DistIsLeast` | box/diff.go:193-224 | the recurrence is a lower bound on every script's cost |
| `Distance.DistIsReached` | box/diff.go:193-224 | and some script meets it |
| `Distance.DistOfMiddles` | box/diff.go:193-210 | cutting off a common prefix and suffix leaves the distance as it was |
| `LineDiff.DiffLines` | box/diff.go:193-224 | a script from one file to the other, in which every edit carries the lines consumed so far; none is shorter unless the distance after trimming is over 512 |
| `Hunks.HunksApply` | box/diff.go:129-174 | hunks that show a script's changes in order, applied as a patch to the old file, give the new one |
| `Hunks.ShownChanges` | box/diff.go:85-125 | the hunks show every change of the script, no fewer and no more |
| `Hunks.WriteHunks` | box/diff.go:96-121 | the hunks are ordered and disjoint, each with the ranges of what it shows |
| `Hunks.SplitKeepNL` | box/diff.go:176-188 | the lines put together are the file, and each but the last ends in its one newline |
| `Hunks.FindHunks` | box/diff.go:85-125 | the hunks, applied to the old file's lines, give the new one's; there are some if the files differ; the changes shown are as few as can be within the search's limit |
| `DiffText.HunksRead` | box/diff.go:129-174 | the text of any hunks, headers, signs and marks of a missing line break, reads back as exactly those hunks |
| `DiffText.RenderDiff` | box/diff.go:79-125 | nothing exactly when the files are equal; otherwise the text as written with no limit, read back and applied to the old file, gives the new one; the text is cut if and only if it is over the limit, and then at the end of the first line shown that takes it over |
| `Reach.SetInAnyOrder` | box/reach.go:972-991 | a set's verdict does not depend on the order of its matchers |
| `Reach.SetsSound` | box/reach.go:951-991 | whatever the undecided matchers answer, a route's answer is one its verdict allows |
| `Reach.RoutesSound` | box/reach.go:828-899 | under any enclosing verdict and route groups, where a walk ends is where every request it describes ends |
| `Reach.ReachedIsReached` | box/reach.go:828-899 | if the walk reaches the webhook, every request does |
| `Reach.DecidedIsExact` | box/reach.go:828-899 | with no matcher decided per request, the walk's end is every request's |
| `ReachWalk.Walk.Routes` | box/reach.go:828-899 | the loop over routes, with its shared map of groups, is the walk |
| `ReachOrder.ReachedInAnyOrder` | box/reach.go:972-991 | if the walk reaches the webhook, every request does, with the matchers of any set in any order at every depth, inside negations too |
| `ReachWalk.Match` | box/reach.go:951-971 | the loop over matcher sets gives the route's verdict |
| `ReachWalk.MatchSet` | box/reach.go:972-991 | the loop over matchers gives the set's verdict, a failing one's whatever the others say |
| `ReachWalk.Reaches` | box/reach.go:828-899 | passes only if the routes hold the webhook and every request meets it; falls through only if every request runs past |
| `EnvFile.ParseEnvLines` | liveswap/app.go:2120-2149 | the assignments of the file's lines in order, or nothing if a line is not one |
| `EnvFile.RenderEnvFile` | liveswap/app.go:2178-2214 | the rendering of the list, sorted by key, or nothing |
| `EnvFile.RendersWhen` | liveswap/app.go:2178-2207 | a list renders exactly when its keys and values can be carried and no key is given twice |
| `EnvFile.RenderReadsBack` | liveswap/app.go:2120-2214 | what is rendered parses to exactly the given pairs, sorted strictly by key |
| `EnvFile.HeaderIsSkipped` | liveswap/app.go:2124-2127 | a blank or comment line ahead of a file, with any white space around it, changes nothing of what is read |
| `EnvFile.RenderIgnoresOrder` | liveswap/app.go:2192-2195 | lists of the same assignments render alike, refusals included |
| `Sorting.TwinsAreRepeats` | liveswap/app.go:2195-2200 | in a sorted list, comparing neighbours finds every key given twice |
| `Placeholders.ExpandEmptyEnv` | box/tokens.go:504-543 | the single pass gives, for every input, what splicing each value into the buffer and resuming after it gives |
| `Placeholders.DefaultIsAfterColon` | box/tokens.go:536-538 | an unset variable becomes what follows its first colon, or nothing |
| `Placeholders.IndexOpenIsFirst` | box/tokens.go:519-526 | a placeholder is looked for at the first place one opens |
| `Releases.NextKeepsInv` | liveswap/deploying.go:17-40 | every step of a deploy, a settling, a recovery or GC keeps: a marker's release was extracted by the marker's deploy, every running unit's release is on disk, and, while no marker's removal has failed, a marker's recorded deploy still has its record |
| `Releases.SettlesOnlyItsOwn` | liveswap/deploying.go:105-172 | whatever state a run is in, what settling removes was extracted by the marker's own deploy and, if no marker's removal has failed, of a deploy that never had a record: neither is checked by the code, and both come of the invariant; with what it does check, the release has no record of that deploy, no unit running out of it, and no readable state.json naming it |
| `Releases.UnitsKeepTheirReleases` | liveswap/app.go:905-932 | at every instant of every run, the release a running unit came from is on disk |
| `Releases.SettlesFinishedExactly` | liveswap/deploying.go:135-172 | over any run, settling removes the release of a deploy that was recorded if and only if another deploy of the version replaced that record while the marker stood |
| `Releases.ReplacedNeedsFailure` | liveswap/deploying.go:135-172 | which takes a marker whose removal failed: a deploy is recorded over a standing marker of another only so, a condition the code meets at `Deploy.App.DeployLocked` |
| `Releases.SettlesNothingFinished` | liveswap/deploying.go:135-172 | in every run with none failed, what settling removes was extracted by the marker's deploy, and that deploy never had a record |
| `Releases.SettlesFinishedAfterFailure` | liveswap/deploying.go:135-172 | a run with one failed in which settling removes the release of a recorded deploy |
| `Deploy.App.SettleInterrupted` | liveswap/deploying.go:105-172 | the release goes exactly when the marker is of an interrupted deploy and it can be removed; the marker goes unless that fails |
| `Deploy.App.Launch` | liveswap/app.go:1010-1050 | a launch stops no unit of the serving instance, and one that did not come up leaves no unit of a release that had none, unless it says that one may still run |
| `Deploy.App.Collect` | liveswap/app.go:1078-1098 | GC keeps the new version's release and the one it replaced |
| `Deploy.App.RunNew` | liveswap/app.go:735-932 | a deploy that extracts writes its marker first, removes its release only if nothing may run out of it, and leaves no marker of a release unless removing it failed |
| `Deploy.App.DeployLocked` | liveswap/app.go:735-1099 | every step is one of the protocol's; either the version asked for is up and serves, or the instance that served still does and was not stopped; a rollback or a relaunch makes no step that cleans up a release |
| `Deploy.App.EnsureRunning` | liveswap/app.go:1161-1316 | recovery's steps are the protocol's too, and clean up no release |
| `Deploy.App.Crash` | liveswap/deploying.go:13-40 | a stop at any instant loses the instance in memory and leaves a run that is still lawful |
| `Deploy.App.Lifetime` | liveswap/deploying.go:17-40 | over any deploys, rollbacks, recoveries and crashes the whole run stays lawful |
| `Publish.PublishedIsRouted` | liveswap/app.go:1583-1630 | in every interleaving, a completed publication leaves traffic on its instance unless that instance was itself withdrawn, and never on another |
| `Publish.SyncedCapsAreLatest` | liveswap/app.go:1540-1570 | in every interleaving that leaves no sync owed or under way, a running instance carries the latest definition's caps |
| `Health.WaitHealthy` | liveswap/health.go:41-113 | opens exactly when consecutive healthy looks first span the soak; looks past the deadline once at most, and only if that can complete the soak; ends within deadline, interval and two timeouts |
| `Health.SoakedBySince` | liveswap/health.go:72-91 | the time the loop keeps decides exactly whether some run of healthy looks up to the last spans the soak |

## Left out

- Apply.Lifetime: promises nothing of the protocol once a console has edited a file of the set; what is promised then is `Applier.Applier.RecoverLive`'s and `Applier.Applier.RollBackFiles`' last two clauses.
- Durable.Disk.Crash: takes a write that landed as durable, so a power loss that undoes a rename whose directory's fsync failed, after later writes became durable, is not modelled.
- Durable.Disk.WriteRecord: does not model the syntax of ids, commits and paths that the validator also checks.
- Retention.BlocksOrStranded: the complement is stated with the condition it needs, since the code's negated duration wraps.
- EnvFile.RenderEnvFile: does not model the refusal of values that are not UTF-8, because text here is characters; limits on sizes, the diff's among them, count characters for the same reason.
- Admission.OneBundleAtATime: of the check under the lock, models that `in/` is empty and the id has no marker; markers of other pushes still pending only refuse more.
- Health.WaitHealthy: time passes in probes and sleeps only.
- The proof of a bundle (`box/proof`), signatures, age, JWT and OIDC: the check's verdict and the opened secrets are inputs.
- JSON, file modes and owners, links and FIFOs, temporaries, the flock and fsync calls themselves: modelled as atomic steps, a lock, or what a read says.
- The token walk of a Caddyfile apart from placeholders, and the connection, TLS and listener tables of the reachability check: flat case tables.
- HTTP handling, redaction, journal lines and message texts.
- systemd, the runner and the watchdog's timing: oracles for start, stop and liveness.
