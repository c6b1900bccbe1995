/** Which instance traffic goes to, and which resource caps it carries, in every interleaving of publications, the
    watchdog's withdrawals, reloads and caps syncs (liveswap/app.go: publishInstance, unrouteIf, dropIf, installSpec,
    restoreSpec, syncCaps).  Publications hold the deploy lock, so one runs at a time; a sync holds its own. */
module Publish {
  import opened Options

  type Instance = nat
  type Caps = nat

  /** A sync: it has the lock; it has read the spec; it has read the instance too. */
  datatype Sync = Begun | ReadSpec(want: Caps) | ReadInstance(want: Caps, inst: Option<Instance>)

  /** `spec` is the caps of the definition installed, `caps` those each launched instance carries.  `publishing` is
      an instance that is current and not yet routed to; `owed` counts the threads that have installed a definition
      or routed to an instance and have yet to begin the sync that follows.  `last` is the instance last made
      current, `withdrawn` every instance that was unrouted or dropped while it was current. */
  datatype State = State(spec: Caps, caps: map<Instance, Caps>, alive: set<Instance>,
                         current: Option<Instance>, route: Option<Instance>, publishing: Option<Instance>,
                         owed: nat, sync: Option<Sync>,
                         last: Option<Instance>, published: set<Instance>, withdrawn: set<Instance>)

  datatype Step =
    | Launch(i: Instance, caps: Caps) // from a definition read at some earlier time
    | Dies(i: Instance)
    | Swap(i: Instance) // publishInstance: under the lock, current
    | Route // and then, outside it, traffic
    | UnrouteIf(i: Instance)
    | DropIf(i: Instance)
    | Install(caps: Caps) // a reload's definition, or the one a rejected reload gives back
    | SyncBegins
    | SyncReadsSpec
    | SyncReadsInstance
    | SyncApplies // setting caps succeeds

  predicate Enabled(s: State, step: Step)
  {
    match step
    case Launch(i, _) => i !in s.caps
    case Swap(i) => s.publishing.None? && i in s.caps && i !in s.published
    case Route => s.publishing.Some?
    case SyncBegins => s.owed > 0 && s.sync.None?
    case SyncReadsSpec => s.sync == Some(Begun)
    case SyncReadsInstance => s.sync.Some? && s.sync.value.ReadSpec?
    case SyncApplies => s.sync.Some? && s.sync.value.ReadInstance?
    case _ => true
  }

  function After(s: State, step: Step): State
    requires Enabled(s, step)
  {
    match step
    case Launch(i, c) => s.(caps := s.caps[i := c], alive := s.alive + {i})
    case Dies(i) => s.(alive := s.alive - {i})
    case Swap(i) => s.(current := Some(i), publishing := Some(i), last := Some(i), published := s.published + {i})
    case Route => s.(route := s.publishing, publishing := None, owed := s.owed + 1)
    case UnrouteIf(i) => if s.current == Some(i) then s.(route := None, withdrawn := s.withdrawn + {i}) else s
    case DropIf(i) =>
      if s.current == Some(i) then s.(current := None, route := None, withdrawn := s.withdrawn + {i}) else s
    case Install(c) => s.(spec := c, owed := s.owed + 1)
    case SyncBegins => s.(owed := s.owed - 1, sync := Some(Begun))
    case SyncReadsSpec => s.(sync := Some(ReadSpec(s.spec)))
    case SyncReadsInstance => s.(sync := Some(ReadInstance(s.sync.value.want, s.current)))
    case SyncApplies =>
      var ReadInstance(want, inst) := s.sync.value;
      s.(sync := None, caps := if inst.Some? && inst.value in s.alive then s.caps[inst.value := want] else s.caps)
  }

  predicate Legal(s: State, steps: seq<Step>)
    decreases |steps|
  {
    steps == [] || (Enabled(s, steps[0]) && Legal(After(s, steps[0]), steps[1..]))
  }

  function Run(s: State, steps: seq<Step>): State
    requires Legal(s, steps)
    decreases |steps|
  {
    if steps == [] then s else Run(After(s, steps[0]), steps[1..])
  }

  const EMPTY := State(0, map[], {}, None, None, None, 0, None, None, {}, {})

  // ----- what every step keeps

  /** Traffic goes to the instance last published unless it was itself withdrawn; between the swap and the route, to
      it, to the one before, or nowhere. */
  ghost predicate Routed(s: State)
  {
    && (s.publishing.Some? ==> s.publishing == s.last)
    && (s.publishing.None? && s.last.Some? && s.last.value !in s.withdrawn ==> s.route == s.last)
    && (s.publishing.None? && s.route.Some? ==> s.route == s.last)
    && (s.last.Some? && s.last.value !in s.withdrawn ==> s.current == s.last)
    && (s.current.Some? ==> s.current == s.last)
    && (s.last.Some? ==> s.last.value in s.published) && s.withdrawn <= s.published
  }

  /** A sync will yet bring the current instance the definition's caps. */
  ghost predicate WillSync(s: State)
  {
    || s.owed > 0 || s.publishing.Some? || s.sync == Some(Begun) || s.sync == Some(ReadSpec(s.spec))
    || s.sync == Some(ReadInstance(s.spec, s.current))
  }

  ghost predicate CapsFollow(s: State)
  {
    && (s.current.Some? ==> s.current.value in s.caps)
    && (s.current.Some? && s.current.value in s.alive ==> s.caps[s.current.value] == s.spec || WillSync(s))
    && (s.sync.Some? && !s.sync.value.Begun? ==> s.sync.value.want == s.spec || s.owed > 0)
    && (s.sync.Some? && s.sync.value.ReadInstance? ==>
          && (s.sync.value.inst.Some? ==> s.sync.value.inst.value in s.caps)
          && (s.sync.value.inst == s.current || s.current.None? || s.owed > 0 || s.publishing.Some?))
    && (s.publishing.Some? ==> s.publishing.value in s.caps) && s.alive <= s.caps.Keys && s.published <= s.caps.Keys
  }

  ghost predicate Inv(s: State) { Routed(s) && CapsFollow(s) }

  lemma StepKeepsInv(s: State, step: Step)
    requires Inv(s) && Enabled(s, step)
    ensures Inv(After(s, step))
  {
  }

  lemma {:induction false} RunKeepsInv(s: State, steps: seq<Step>)
    requires Inv(s) && Legal(s, steps)
    ensures Inv(Run(s, steps))
    decreases |steps|
  {
    if steps != [] {
      StepKeepsInv(s, steps[0]);
      RunKeepsInv(After(s, steps[0]), steps[1..]);
    }
  }

  /** After any steps: a completed publication leaves traffic on its instance unless that instance was itself
      withdrawn, and never on another. */
  lemma PublishedIsRouted(steps: seq<Step>)
    requires Legal(EMPTY, steps)
    ensures var s := Run(EMPTY, steps);
            s.publishing.None? && s.last.Some? ==>
              && (s.last.value !in s.withdrawn ==> s.route == s.last && s.current == s.last)
              && (s.route.None? || s.route == s.last)
  {
    RunKeepsInv(EMPTY, steps);
  }

  /** After any steps that leave no sync owed or under way: a running instance carries the latest definition's caps. */
  lemma SyncedCapsAreLatest(steps: seq<Step>)
    requires Legal(EMPTY, steps)
    ensures var s := Run(EMPTY, steps);
            s.publishing.None? && s.owed == 0 && s.sync.None? && s.current.Some? && s.current.value in s.alive ==>
              s.current.value in s.caps && s.caps[s.current.value] == s.spec
  {
    RunKeepsInv(EMPTY, steps);
  }
}
