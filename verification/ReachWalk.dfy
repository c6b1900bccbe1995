/** The reachability walk as it runs: loops over sets, matchers, routes and handlers, and one map of
    groups for the whole walk (box/reach.go). */
module ReachWalk {
  import opened Routes
  import opened Reach

  class Walk {
    var groups: Groups

    constructor ()
      ensures groups == map[]
    {
      groups := map[];
    }

    /** Walks routes in Caddy's order, each under the enclosing verdict, and ends at the first
        handler that decides. */
    method Routes(rs: seq<Route>, outer: Status) returns (end: WalkEnd)
      modifies this
      ensures Walked(end, groups) == WalkRoutes(rs, outer, old(groups))
      decreases rs
    {
      for i := 0 to |rs|
        invariant WalkRoutes(rs[i..], outer, groups) == WalkRoutes(rs, outer, old(groups))
      {
        var r := rs[i];
        assert rs[i..][0] == r && rs[i..][1..] == rs[i + 1..];
        var v := Match(r.sets);
        if v.fails {
          return Blocked;
        }
        if v.status == NoMatch {
          continue;
        }
        var status := if Rank(outer) < Rank(v.status) then outer else v.status;
        if r.group != "" {
          var g := GroupStatus(groups, r.group);
          if g == Matches {
            continue;
          }
          if Rank(status) > Rank(g) {
            groups := groups[r.group := status];
          }
          if g == MayMatch && status == Matches {
            status := MayMatch;
          }
        }
        end := Handlers(r.handlers, status);
        if end != FellThrough {
          return;
        }
        if r.terminal {
          return Blocked;
        }
      }
      return FellThrough;
    }

    /** One route's handlers, in order. */
    method Handlers(hs: seq<Handler>, status: Status) returns (end: WalkEnd)
      modifies this
      ensures Walked(end, groups) == WalkHandlers(hs, status, old(groups))
      decreases hs
    {
      for j := 0 to |hs|
        invariant WalkHandlers(hs[j..], status, groups) == WalkHandlers(hs, status, old(groups))
      {
        var h := hs[j];
        assert hs[j..][0] == h && hs[j..][1..] == hs[j + 1..];
        match Classify(h) {
          case Reached =>
            return if status == MayMatch then Blocked else ReachedWebhook;
          case Passes =>
          case Subroute =>
            end := Routes(h.sub, status);
            if end != FellThrough {
              return;
            }
          case _ =>
            return Blocked;
        }
      }
      return FellThrough;
    }
  }

  /** A route's matcher sets, tried in order until one matches for sure or may fail. */
  method Match(sets: seq<MatcherSet>) returns (v: Verdict)
    ensures v == MatchRoute(sets)
    decreases sets
  {
    if |sets| == 0 {
      return Verdict(Matches, false);
    }
    var best := Verdict(NoMatch, false);
    for i := 0 to |sets|
      invariant !best.fails && best.status != Matches
      invariant var rest := Sets(sets[i..]);
                Sets(sets) == if rest.fails || rest.status == Matches || best.status == NoMatch then rest else best
    {
      assert sets[i..][0] == sets[i] && sets[i..][1..] == sets[i + 1..];
      v := MatchSet(sets[i].matchers);
      if v.fails || v.status == Matches {
        return;
      }
      if v.status == MayMatch && best.status == NoMatch {
        best := v;
      }
    }
    return best;
  }

  /** One set: every matcher must match, and one that may fail counts whatever the others say. */
  method MatchSet(ms: seq<Matcher>) returns (v: Verdict)
    ensures v == Set(ms)
    decreases ms
  {
    var best := Verdict(Matches, false);
    for i := 0 to |ms|
      invariant !best.fails
      invariant Set(ms) == Both(best, Set(ms[i..]))
    {
      assert ms[i..][0] == ms[i] && ms[i..][1..] == ms[i + 1..];
      v := MatchOne(ms[i]);
      if v.fails {
        return;
      }
      if v.status == NoMatch {
        best := v;
      } else if v.status == MayMatch && best.status == Matches {
        best := v;
      }
    }
    return best;
  }

  ghost function Both(a: Verdict, b: Verdict): Verdict
  {
    if a.fails || b.fails then Verdict(MayMatch, true)
    else if a.status == NoMatch || b.status == NoMatch then Verdict(NoMatch, false)
    else if a.status == MayMatch || b.status == MayMatch then Verdict(MayMatch, false)
    else Verdict(Matches, false)
  }

  method MatchOne(m: Matcher) returns (v: Verdict)
    ensures v == One(m)
    ensures v.fails ==> v.status == MayMatch
    decreases m
  {
    match m {
      case Static(_, matched) =>
        return Verdict(if matched then Matches else NoMatch, false);
      case PerRequest(_) =>
        return Verdict(MayMatch, false);
      case Unknown(_) =>
        return Verdict(MayMatch, true);
      case Not(sets) =>
        if |sets| == 0 {
          return Verdict(Matches, false);
        }
        var inner := Match(sets);
        if inner.fails {
          return Verdict(MayMatch, true);
        }
        match inner.status {
          case Matches => return Verdict(NoMatch, false);
          case NoMatch => return Verdict(Matches, false);
          case MayMatch => return Verdict(MayMatch, false);
        }
    }
  }

  /** The question asked of a server's routes for one request: only where it passes does every
      such request meet box_webhook. */
  method Reaches(rs: seq<Route>) returns (end: WalkEnd)
    ensures end == ReachedWebhook ==> CarriesWebhook(rs) && forall o: Oracle :: Serve(rs, {}, o, 0).end == AtWebhook
    ensures end == FellThrough ==> forall o: Oracle :: Serve(rs, {}, o, 0).end == RanOut
    ensures DecidedRoutes(rs) ==>
              forall o: Oracle :: Serve(rs, {}, o, 0).end ==
                (match end case ReachedWebhook => AtWebhook case FellThrough => RanOut case Blocked => Stopped)
  {
    var w := new Walk();
    end := w.Routes(rs, Matches);
    forall o: Oracle
      ensures end == ReachedWebhook ==> Serve(rs, {}, o, 0).end == AtWebhook
      ensures end == FellThrough ==> Serve(rs, {}, o, 0).end == RanOut
      ensures DecidedRoutes(rs) && end == Blocked ==> Serve(rs, {}, o, 0).end == Stopped
    {
      if end == ReachedWebhook { ReachedIsReached(rs, o); }
      if end == FellThrough { FellThroughIsPast(rs, o); }
      if DecidedRoutes(rs) { DecidedIsExact(rs, o); }
    }
    if end == ReachedWebhook {
      RoutesCarry(rs, Matches, map[]);
    }
  }
}
