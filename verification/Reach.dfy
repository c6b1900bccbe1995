/** The walk that decides, before any request is made, whether one will meet box_webhook
    (box/reach.go, match, set, one, routes). */
module Reach {
  import opened Routes

  /** What a matcher, a set or a route says of the request: no, it may, it does. */
  datatype Status = NoMatch | MayMatch | Matches

  function Rank(s: Status): nat { match s case NoMatch => 0 case MayMatch => 1 case Matches => 2 }

  /** With it, whether a matcher may fail at request time. */
  datatype Verdict = Verdict(status: Status, fails: bool)

  datatype WalkEnd = FellThrough | ReachedWebhook | Blocked

  // ----- matchers

  /** The matcher table. */
  function One(m: Matcher): Verdict
    decreases m
  {
    match m
    case Static(_, matched) => Verdict(if matched then Matches else NoMatch, false)
    case PerRequest(_) => Verdict(MayMatch, false)
    case Unknown(_) => Verdict(MayMatch, true)
    case Not(sets) =>
      if sets == [] then Verdict(Matches, false) // nothing negated
      else
        var inner := Sets(sets);
        if inner.fails then Verdict(MayMatch, true)
        else Verdict(match inner.status
                     case Matches => NoMatch case NoMatch => Matches case MayMatch => MayMatch, false)
  }

  /** One set, whatever order its matchers run in: one that may fail decides; then one that says
      no; then one that may. */
  function Set(ms: seq<Matcher>): Verdict
    decreases ms
  {
    if ms == [] then Verdict(Matches, false)
    else
      var first, rest := One(ms[0]), Set(ms[1..]);
      if first.fails || rest.fails then Verdict(MayMatch, true)
      else if first.status == NoMatch || rest.status == NoMatch then Verdict(NoMatch, false)
      else if first.status == MayMatch || rest.status == MayMatch then Verdict(MayMatch, false)
      else Verdict(Matches, false)
  }

  /** Sets in order: the first that matches for sure or may fail decides; otherwise one that may. */
  function Sets(sets: seq<MatcherSet>): Verdict
    decreases sets
  {
    if sets == [] then Verdict(NoMatch, false)
    else
      var first := Set(sets[0].matchers);
      if first.fails || first.status == Matches then first
      else
        var rest := Sets(sets[1..]);
        if rest.fails || rest.status == Matches || first.status == NoMatch then rest else first
  }

  function MatchRoute(sets: seq<MatcherSet>): Verdict
  {
    if sets == [] then Verdict(Matches, false) else Sets(sets)
  }

  /** What a verdict lets a request answer. */
  ghost predicate Allows(v: Verdict, r: Outcome)
  {
    match r
    case Error => v.fails
    case True => v.fails || v.status != NoMatch
    case False => v.fails || v.status != Matches
  }

  /** Every request answers within the verdict. */
  lemma {:induction false} OneSound(m: Matcher, o: Oracle, n: nat)
    ensures Allows(One(m), EvalMatcher(m, o, n).0)
    decreases m
  {
    if m.Not? && m.sets != [] {
      SetsSound(m.sets, o, n);
    }
  }

  lemma {:induction false} SetSound(ms: seq<Matcher>, o: Oracle, n: nat)
    ensures Allows(Set(ms), EvalSet(ms, o, n).0)
    decreases ms
  {
    if ms != [] {
      OneSound(ms[0], o, n);
      SetSound(ms[1..], o, EvalMatcher(ms[0], o, n).1);
    }
  }

  lemma {:induction false} SetsSound(sets: seq<MatcherSet>, o: Oracle, n: nat)
    ensures Allows(Sets(sets), EvalSets(sets, o, n).0)
    decreases sets
  {
    if sets != [] {
      SetSound(sets[0].matchers, o, n);
      SetsSound(sets[1..], o, EvalSet(sets[0].matchers, o, n).1);
    }
  }

  /** A set's verdict by what its matchers say, not by their order, which Caddy fixes only at load. */
  lemma {:induction false} SetByMembers(ms: seq<Matcher>)
    ensures Set(ms).fails <==> Some(ms, m => One(m).fails)
    ensures Set(ms).fails ==> Set(ms).status == MayMatch
    ensures !Set(ms).fails ==> (Set(ms).status == NoMatch <==> Some(ms, m => One(m).status == NoMatch))
    ensures !Set(ms).fails ==> (Set(ms).status == Matches <==> !Some(ms, m => One(m).status != Matches))
  {
    if ms != [] {
      SetByMembers(ms[1..]);
      SomeCons(ms, m => One(m).fails);
      SomeCons(ms, m => One(m).status == NoMatch);
      SomeCons(ms, m => One(m).status != Matches);
    }
  }

  ghost predicate Some(ms: seq<Matcher>, p: Matcher -> bool)
  {
    exists i :: 0 <= i < |ms| && p(ms[i])
  }

  lemma SomeCons(ms: seq<Matcher>, p: Matcher -> bool)
    requires ms != []
    ensures Some(ms, p) <==> p(ms[0]) || Some(ms[1..], p)
  {
    if i :| 0 <= i < |ms[1..]| && p(ms[1..][i]) {
      assert p(ms[i + 1]);
    }
    if i :| 0 < i < |ms| && p(ms[i]) {
      assert p(ms[1..][i - 1]);
    }
  }

  lemma SomePermuted(ms: seq<Matcher>, ms': seq<Matcher>, p: Matcher -> bool)
    requires multiset(ms) == multiset(ms') && Some(ms, p)
    ensures Some(ms', p)
  {
    var i :| 0 <= i < |ms| && p(ms[i]);
    assert ms[i] in multiset(ms');
    var j :| 0 <= j < |ms'| && ms'[j] == ms[i];
  }

  lemma SetInAnyOrder(ms: seq<Matcher>, ms': seq<Matcher>)
    requires multiset(ms) == multiset(ms')
    ensures Set(ms) == Set(ms')
  {
    SetByMembers(ms);
    SetByMembers(ms');
    forall p: Matcher -> bool ensures Some(ms, p) <==> Some(ms', p) {
      if Some(ms, p) { SomePermuted(ms, ms', p); }
      if Some(ms', p) { SomePermuted(ms', ms, p); }
    }
  }

  // ----- routes

  /** What each route group has matched so far; a group not here has matched nothing. */
  type Groups = map<string, Status>

  function GroupStatus(groups: Groups, name: string): Status
  {
    if name in groups then groups[name] else NoMatch
  }

  datatype Walked = Walked(end: WalkEnd, groups: Groups)

  /** The walk over routes, each under the enclosing verdict. */
  function WalkRoutes(rs: seq<Route>, outer: Status, groups: Groups): Walked
    decreases rs
  {
    if rs == [] then Walked(FellThrough, groups)
    else
      var r := rs[0];
      var v := MatchRoute(r.sets);
      if v.fails then Walked(Blocked, groups)
      else if v.status == NoMatch then WalkRoutes(rs[1..], outer, groups)
      else
        var own := if Rank(outer) < Rank(v.status) then outer else v.status;
        var g := GroupStatus(groups, r.group);
        if r.group != "" && g == Matches then WalkRoutes(rs[1..], outer, groups)
        else
          var w := WalkHandlers(r.handlers, Effective(r, own, g), Recorded(r, own, groups));
          if w.end != FellThrough then w
          else if r.terminal then Walked(Blocked, w.groups)
          else WalkRoutes(rs[1..], outer, w.groups)
  }

  /** A route's verdict once an earlier member of its group may have matched. */
  function Effective(r: Route, own: Status, g: Status): Status
  {
    if r.group != "" && g == MayMatch && own == Matches then MayMatch else own
  }

  /** The groups once the route has matched as far as own says: the group records the member's own
      match, not what an earlier member's "may" leaves of it. */
  function Recorded(r: Route, own: Status, groups: Groups): Groups
  {
    if r.group != "" && Rank(own) > Rank(GroupStatus(groups, r.group)) then groups[r.group := own] else groups
  }

  function WalkHandlers(hs: seq<Handler>, v: Status, groups: Groups): Walked
    decreases hs
  {
    if hs == [] then Walked(FellThrough, groups)
    else
      match Classify(hs[0])
      case Reached => Walked(if v == MayMatch then Blocked else ReachedWebhook, groups)
      case Passes => WalkHandlers(hs[1..], v, groups)
      case Subroute =>
        var w := WalkRoutes(hs[0].sub, v, groups);
        if w.end != FellThrough then w else WalkHandlers(hs[1..], v, w.groups)
      case _ => Walked(Blocked, groups)
  }

  // ----- soundness

  /** The walk's groups describe the request's: a group it knows matched has, one that has matched
      nothing has not. */
  ghost predicate Describes(groups: Groups, satisfied: set<string>)
  {
    forall name :: name != "" ==>
      && (GroupStatus(groups, name) == Matches ==> name in satisfied)
      && (GroupStatus(groups, name) == NoMatch ==> name !in satisfied)
  }

  /** Under an enclosing "may", the walk only turns "nothing" into "may": what it then knows of the
      groups also holds of a request that never got there. */
  ghost predicate OnlyMay(before: Groups, after: Groups)
  {
    forall name :: GroupStatus(after, name) == GroupStatus(before, name)
                   || (GroupStatus(before, name) == NoMatch && GroupStatus(after, name) == MayMatch)
  }

  lemma {:induction false} MayRoutes(rs: seq<Route>, groups: Groups)
    ensures var w := WalkRoutes(rs, MayMatch, groups); w.end != ReachedWebhook && OnlyMay(groups, w.groups)
    decreases rs
  {
    if rs != [] {
      var r := rs[0];
      var v := MatchRoute(r.sets);
      if !v.fails {
        var g := GroupStatus(groups, r.group);
        if v.status == NoMatch || (r.group != "" && g == Matches) {
          MayRoutes(rs[1..], groups);
        } else {
          var groups1 := Recorded(r, MayMatch, groups);
          MayHandlers(r.handlers, groups1);
          MayRoutes(rs[1..], WalkHandlers(r.handlers, MayMatch, groups1).groups);
        }
      }
    }
  }

  lemma {:induction false} MayHandlers(hs: seq<Handler>, groups: Groups)
    ensures var w := WalkHandlers(hs, MayMatch, groups); w.end != ReachedWebhook && OnlyMay(groups, w.groups)
    decreases hs
  {
    if hs != [] {
      MayHandlers(hs[1..], groups);
      if Classify(hs[0]) == Subroute {
        MayRoutes(hs[0].sub, groups);
        MayHandlers(hs[1..], WalkRoutes(hs[0].sub, MayMatch, groups).groups);
      }
    }
  }

  /** What a walk promises of a request served on the same routes: where the walk meets box_webhook
      every request does, and where it falls through every request does, its groups described. */
  ghost predicate Promises(w: Walked, ran: Ran)
  {
    && (w.end == ReachedWebhook ==> ran.end == AtWebhook)
    && (w.end == FellThrough ==> ran.end == RanOut && Describes(w.groups, ran.groups))
  }

  lemma {:induction false} RoutesSound(rs: seq<Route>, outer: Status, groups: Groups, satisfied: set<string>,
                                       o: Oracle, n: nat)
    requires outer != NoMatch && Describes(groups, satisfied)
    ensures Promises(WalkRoutes(rs, outer, groups), Serve(rs, satisfied, o, n))
    decreases rs, 1
  {
    if rs == [] { return; }
    var r := rs[0];
    var v := MatchRoute(r.sets);
    if v.fails { return; }
    if r.sets != [] {
      SetsSound(r.sets, o, n);
    }
    var (answer, n1) := EvalRoute(r, o, n);
    var g := GroupStatus(groups, r.group);
    if v.status == NoMatch || (r.group != "" && g == Matches) {
      RoutesSound(rs[1..], outer, groups, satisfied, o, n1);
      return;
    }
    if answer == True && (r.group == "" || r.group !in satisfied) {
      TakenSound(rs, outer, groups, satisfied, o, n);
    } else {
      SkippedSound(rs, outer, groups, satisfied, o, n);
    }
  }

  function Own(outer: Status, r: Route): Status
  {
    var v := MatchRoute(r.sets);
    if Rank(outer) < Rank(v.status) then outer else v.status
  }

  /** The walk goes into the route's handlers. */
  predicate Enters(r: Route, groups: Groups)
  {
    var v := MatchRoute(r.sets);
    !v.fails && v.status != NoMatch && (r.group == "" || GroupStatus(groups, r.group) != Matches)
  }

  function WalkInto(r: Route, outer: Status, groups: Groups): Walked
  {
    var own := Own(outer, r);
    WalkHandlers(r.handlers, Effective(r, own, GroupStatus(groups, r.group)), Recorded(r, own, groups))
  }

  /** The request goes where the walk does. */
  lemma {:induction false} TakenSound(rs: seq<Route>, outer: Status, groups: Groups, satisfied: set<string>,
                                      o: Oracle, n: nat)
    requires outer != NoMatch && Describes(groups, satisfied) && rs != [] && Enters(rs[0], groups)
    requires EvalRoute(rs[0], o, n).0 == True && (rs[0].group == "" || rs[0].group !in satisfied)
    ensures Promises(WalkRoutes(rs, outer, groups), Serve(rs, satisfied, o, n))
    decreases rs, 0
  {
    var r, n1 := rs[0], EvalRoute(rs[0], o, n).1;
    var own := Own(outer, r);
    var satisfied1 := if r.group == "" then satisfied else satisfied + {r.group};
    var w, ran := WalkInto(r, outer, groups), ServeHandlers(r.handlers, satisfied1, o, n1);
    HandlersSound(r.handlers, Effective(r, own, GroupStatus(groups, r.group)), Recorded(r, own, groups),
                  satisfied1, o, n1);
    if w.end == FellThrough && !r.terminal {
      RoutesSound(rs[1..], outer, w.groups, ran.groups, o, ran.asked);
    }
  }

  /** The request skips the route: the walk saw only a "may" there. */
  lemma {:induction false} SkippedSound(rs: seq<Route>, outer: Status, groups: Groups, satisfied: set<string>,
                                        o: Oracle, n: nat)
    requires outer != NoMatch && Describes(groups, satisfied) && rs != [] && Enters(rs[0], groups)
    requires EvalRoute(rs[0], o, n).0 != Error
    requires Effective(rs[0], Own(outer, rs[0]), GroupStatus(groups, rs[0].group)) == MayMatch
    requires if EvalRoute(rs[0], o, n).0 == False
               then Own(outer, rs[0]) == MayMatch
               else rs[0].group != "" && rs[0].group in satisfied
    ensures Promises(WalkRoutes(rs, outer, groups), Serve(rs, satisfied, o, n))
    decreases rs, 0
  {
    var r := rs[0];
    MayHandlers(r.handlers, Recorded(r, Own(outer, r), groups));
    var w := WalkInto(r, outer, groups);
    if w.end == FellThrough && !r.terminal {
      RoutesSound(rs[1..], outer, w.groups, satisfied, o, EvalRoute(r, o, n).1);
    }
  }

  lemma {:induction false} HandlersSound(hs: seq<Handler>, v: Status, groups: Groups, satisfied: set<string>,
                                         o: Oracle, n: nat)
    requires v != NoMatch && Describes(groups, satisfied)
    ensures Promises(WalkHandlers(hs, v, groups), ServeHandlers(hs, satisfied, o, n))
    decreases hs, 1
  {
    if hs == [] { return; }
    HandlersSound(hs[1..], v, groups, satisfied, o, n);
    if Classify(hs[0]) == Subroute {
      RoutesSound(hs[0].sub, v, groups, satisfied, o, n);
      var w, ran := WalkRoutes(hs[0].sub, v, groups), Serve(hs[0].sub, satisfied, o, n);
      if w.end == FellThrough {
        HandlersSound(hs[1..], v, w.groups, ran.groups, o, ran.asked);
      }
    }
  }

  /** If the walk says so, every request, whatever the undecided matchers answer it, meets
      box_webhook with only passing handlers before it and no matcher failing. */
  lemma ReachedIsReached(rs: seq<Route>, o: Oracle)
    requires WalkRoutes(rs, Matches, map[]).end == ReachedWebhook
    ensures Serve(rs, {}, o, 0).end == AtWebhook
  {
    RoutesSound(rs, Matches, map[], {}, o, 0);
  }

  /** And where it falls through, every request runs past all routes. */
  lemma FellThroughIsPast(rs: seq<Route>, o: Oracle)
    requires WalkRoutes(rs, Matches, map[]).end == FellThrough
    ensures Serve(rs, {}, o, 0).end == RanOut
  {
    RoutesSound(rs, Matches, map[], {}, o, 0);
  }

  // ----- exactness

  predicate DecidedMatcher(m: Matcher)
    decreases m
  {
    match m
    case Static(_, _) => true
    case Not(sets) => DecidedSets(sets)
    case _ => false
  }

  predicate DecidedSet(ms: seq<Matcher>)
    decreases ms
  {
    ms == [] || (DecidedMatcher(ms[0]) && DecidedSet(ms[1..]))
  }

  predicate DecidedSets(sets: seq<MatcherSet>)
    decreases sets
  {
    sets == [] || (DecidedSet(sets[0].matchers) && DecidedSets(sets[1..]))
  }

  /** No matcher of the routes, at any depth, is decided per request. */
  predicate DecidedRoutes(rs: seq<Route>)
    decreases rs
  {
    rs == [] || (DecidedSets(rs[0].sets) && DecidedHandlers(rs[0].handlers) && DecidedRoutes(rs[1..]))
  }

  predicate DecidedHandlers(hs: seq<Handler>)
    decreases hs
  {
    hs == [] || (DecidedRoutes(hs[0].sub) && DecidedHandlers(hs[1..]))
  }

  /** A decided verdict says exactly what every request answers. */
  ghost predicate Exact(v: Verdict, r: Outcome)
  {
    !v.fails && v.status != MayMatch && (r == True <==> v.status == Matches) && (r == False <==> v.status == NoMatch)
  }

  lemma {:induction false} OneExact(m: Matcher, o: Oracle, n: nat)
    requires DecidedMatcher(m)
    ensures Exact(One(m), EvalMatcher(m, o, n).0)
    decreases m
  {
    if m.Not? && m.sets != [] {
      SetsExact(m.sets, o, n);
    }
  }

  lemma {:induction false} SetExact(ms: seq<Matcher>, o: Oracle, n: nat)
    requires DecidedSet(ms)
    ensures Exact(Set(ms), EvalSet(ms, o, n).0)
    decreases ms
  {
    if ms != [] {
      OneExact(ms[0], o, n);
      SetExact(ms[1..], o, EvalMatcher(ms[0], o, n).1);
    }
  }

  lemma {:induction false} SetsExact(sets: seq<MatcherSet>, o: Oracle, n: nat)
    requires DecidedSets(sets)
    ensures Exact(Sets(sets), EvalSets(sets, o, n).0)
    decreases sets
  {
    if sets != [] {
      SetExact(sets[0].matchers, o, n);
      SetsExact(sets[1..], o, EvalSet(sets[0].matchers, o, n).1);
    }
  }

  /** The walk knows of every group whether it has been satisfied. */
  ghost predicate Knows(groups: Groups, satisfied: set<string>)
  {
    forall name :: name != "" ==>
      GroupStatus(groups, name) == (if name in satisfied then Matches else NoMatch)
  }

  ghost predicate Agrees(w: Walked, ran: Ran)
  {
    && (w.end == ReachedWebhook <==> ran.end == AtWebhook)
    && (w.end == FellThrough <==> ran.end == RanOut)
    && (w.end == FellThrough ==> Knows(w.groups, ran.groups))
  }

  lemma {:induction false} RoutesExact(rs: seq<Route>, groups: Groups, satisfied: set<string>, o: Oracle, n: nat)
    requires DecidedRoutes(rs) && Knows(groups, satisfied)
    ensures Agrees(WalkRoutes(rs, Matches, groups), Serve(rs, satisfied, o, n))
    decreases rs
  {
    if rs == [] { return; }
    var r := rs[0];
    var v := MatchRoute(r.sets);
    if r.sets != [] {
      SetsExact(r.sets, o, n);
    }
    var n1 := EvalRoute(r, o, n).1;
    if v.status == NoMatch || (r.group != "" && r.group in satisfied) {
      RoutesExact(rs[1..], groups, satisfied, o, n1);
    } else {
      var groups1 := Recorded(r, Matches, groups);
      var satisfied1 := if r.group == "" then satisfied else satisfied + {r.group};
      HandlersExact(r.handlers, groups1, satisfied1, o, n1);
      var w, ran := WalkHandlers(r.handlers, Matches, groups1), ServeHandlers(r.handlers, satisfied1, o, n1);
      if w.end == FellThrough && !r.terminal {
        RoutesExact(rs[1..], w.groups, ran.groups, o, ran.asked);
      }
    }
  }

  lemma {:induction false} HandlersExact(hs: seq<Handler>, groups: Groups, satisfied: set<string>, o: Oracle, n: nat)
    requires DecidedHandlers(hs) && Knows(groups, satisfied)
    ensures Agrees(WalkHandlers(hs, Matches, groups), ServeHandlers(hs, satisfied, o, n))
    decreases hs
  {
    if hs == [] { return; }
    HandlersExact(hs[1..], groups, satisfied, o, n);
    if Classify(hs[0]) == Subroute {
      RoutesExact(hs[0].sub, groups, satisfied, o, n);
      var w, ran := WalkRoutes(hs[0].sub, Matches, groups), Serve(hs[0].sub, satisfied, o, n);
      if w.end == FellThrough {
        HandlersExact(hs[1..], w.groups, ran.groups, o, ran.asked);
      }
    }
  }

  /** With no matcher decided per request, the walk's verdict is the request's fate. */
  lemma DecidedIsExact(rs: seq<Route>, o: Oracle)
    requires DecidedRoutes(rs)
    ensures WalkRoutes(rs, Matches, map[]).end == ReachedWebhook <==> Serve(rs, {}, o, 0).end == AtWebhook
    ensures WalkRoutes(rs, Matches, map[]).end == Blocked <==> Serve(rs, {}, o, 0).end == Stopped
  {
    RoutesExact(rs, map[], {}, o, 0);
  }

  // ----- a server the walk passes carries the webhook

  lemma {:induction false} RoutesCarry(rs: seq<Route>, outer: Status, groups: Groups)
    requires WalkRoutes(rs, outer, groups).end == ReachedWebhook
    ensures CarriesWebhook(rs)
    decreases rs
  {
    var r := rs[0];
    var v := MatchRoute(r.sets);
    var own := if Rank(outer) < Rank(v.status) then outer else v.status;
    var g := GroupStatus(groups, r.group);
    if v.status == NoMatch || (r.group != "" && g == Matches) {
      RoutesCarry(rs[1..], outer, groups);
    } else {
      var w := WalkHandlers(r.handlers, Effective(r, own, g), Recorded(r, own, groups));
      if w.end == ReachedWebhook {
        ReachedHandlersCarry(r.handlers, Effective(r, own, g), Recorded(r, own, groups));
      } else {
        RoutesCarry(rs[1..], outer, w.groups);
      }
    }
  }

  lemma {:induction false} ReachedHandlersCarry(hs: seq<Handler>, v: Status, groups: Groups)
    requires WalkHandlers(hs, v, groups).end == ReachedWebhook
    ensures HandlersCarry(hs)
    decreases hs
  {
    match Classify(hs[0])
    case Reached =>
    case Passes => ReachedHandlersCarry(hs[1..], v, groups);
    case Subroute =>
      var w := WalkRoutes(hs[0].sub, v, groups);
      if w.end == ReachedWebhook {
        RoutesCarry(hs[0].sub, v, groups);
      } else {
        ReachedHandlersCarry(hs[1..], v, w.groups);
      }
  }
}
