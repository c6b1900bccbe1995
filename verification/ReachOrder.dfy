/** Caddy fixes the order of a set's matchers only when it loads a config: the walk's verdict is of the routes in
    any such order, at any depth (box/reach.go, set). */
module ReachOrder {
  import opened Reach
  import opened Routes

  /** The matchers are the same but for the order within sets, a negation's among them. */
  ghost predicate Alike(m: Matcher, m': Matcher)
    decreases m
  {
    if m.Not? && m'.Not? then AlikeSets(m.sets, m'.sets) else m == m'
  }

  ghost predicate AlikeSets(sets: seq<MatcherSet>, sets': seq<MatcherSet>)
    decreases sets
  {
    && |sets| == |sets'|
    && (sets != [] ==> AlikeSet(sets[0].matchers, sets'[0].matchers) && AlikeSets(sets[1..], sets'[1..]))
  }

  /** Some order of ms' has each matcher like ms's. */
  ghost predicate AlikeSet(ms: seq<Matcher>, ms': seq<Matcher>)
    decreases ms, 1
  {
    exists mid: seq<Matcher> :: multiset(mid) == multiset(ms') && AlikeEach(ms, mid)
  }

  ghost predicate AlikeEach(ms: seq<Matcher>, ms': seq<Matcher>)
    decreases ms, 0
  {
    |ms| == |ms'| && (ms != [] ==> Alike(ms[0], ms'[0]) && AlikeEach(ms[1..], ms'[1..]))
  }

  ghost predicate AlikeRoutes(rs: seq<Route>, rs': seq<Route>)
    decreases rs
  {
    && |rs| == |rs'|
    && (rs != [] ==>
          && rs[0].group == rs'[0].group && rs[0].terminal == rs'[0].terminal && AlikeSets(rs[0].sets, rs'[0].sets)
          && AlikeHandlers(rs[0].handlers, rs'[0].handlers) && AlikeRoutes(rs[1..], rs'[1..]))
  }

  ghost predicate AlikeHandlers(hs: seq<Handler>, hs': seq<Handler>)
    decreases hs
  {
    && |hs| == |hs'|
    && (hs != [] ==>
          && hs[0].name == hs'[0].name && hs[0].request == hs'[0].request && hs[0].setting == hs'[0].setting
          && AlikeRoutes(hs[0].sub, hs'[0].sub) && AlikeHandlers(hs[1..], hs'[1..]))
  }

  // ----- the same verdicts

  lemma {:induction false} OneAlike(m: Matcher, m': Matcher)
    requires Alike(m, m')
    ensures One(m) == One(m')
    decreases m
  {
    if m.Not? && m'.Not? {
      SetsAlike(m.sets, m'.sets);
    }
  }

  lemma {:induction false} SetsAlike(sets: seq<MatcherSet>, sets': seq<MatcherSet>)
    requires AlikeSets(sets, sets')
    ensures Sets(sets) == Sets(sets')
    decreases sets
  {
    if sets != [] {
      SetAlike(sets[0].matchers, sets'[0].matchers);
      SetsAlike(sets[1..], sets'[1..]);
    }
  }

  lemma {:induction false} SetAlike(ms: seq<Matcher>, ms': seq<Matcher>)
    requires AlikeSet(ms, ms')
    ensures Set(ms) == Set(ms')
    decreases ms, 1
  {
    var mid: seq<Matcher> :| multiset(mid) == multiset(ms') && AlikeEach(ms, mid);
    EachAlike(ms, mid);
    SetInAnyOrder(mid, ms');
  }

  lemma {:induction false} EachAlike(ms: seq<Matcher>, ms': seq<Matcher>)
    requires AlikeEach(ms, ms')
    ensures Set(ms) == Set(ms')
    decreases ms, 0
  {
    if ms != [] {
      OneAlike(ms[0], ms'[0]);
      EachAlike(ms[1..], ms'[1..]);
    }
  }

  lemma {:induction false} WalkAlike(rs: seq<Route>, rs': seq<Route>, outer: Status, groups: Groups)
    requires AlikeRoutes(rs, rs')
    ensures WalkRoutes(rs, outer, groups) == WalkRoutes(rs', outer, groups)
    decreases rs, 1
  {
    if rs == [] {
      return;
    }
    SetsAlike(rs[0].sets, rs'[0].sets);
    assert Enters(rs[0], groups) <==> Enters(rs'[0], groups);
    if Enters(rs[0], groups) {
      TakenAlike(rs, rs', outer, groups);
    } else if !MatchRoute(rs[0].sets).fails {
      WalkAlike(rs[1..], rs'[1..], outer, groups);
    }
  }

  lemma {:induction false} TakenAlike(rs: seq<Route>, rs': seq<Route>, outer: Status, groups: Groups)
    requires AlikeRoutes(rs, rs') && rs != [] && Enters(rs[0], groups)
    requires MatchRoute(rs[0].sets) == MatchRoute(rs'[0].sets)
    ensures WalkRoutes(rs, outer, groups) == WalkRoutes(rs', outer, groups)
    decreases rs, 0
  {
    var r, r' := rs[0], rs'[0];
    var own := Own(outer, r);
    HandlersAlike(r.handlers, r'.handlers, Effective(r, own, GroupStatus(groups, r.group)), Recorded(r, own, groups));
    var w := WalkInto(r, outer, groups);
    assert w == WalkInto(r', outer, groups);
    if w.end == FellThrough && !r.terminal {
      WalkAlike(rs[1..], rs'[1..], outer, w.groups);
    }
  }

  lemma {:induction false} HandlersAlike(hs: seq<Handler>, hs': seq<Handler>, v: Status, groups: Groups)
    requires AlikeHandlers(hs, hs')
    ensures WalkHandlers(hs, v, groups) == WalkHandlers(hs', v, groups)
    decreases hs, 1
  {
    if hs != [] {
      HandlersAlike(hs[1..], hs'[1..], v, groups);
      WalkAlike(hs[0].sub, hs'[0].sub, v, groups);
      HandlersAlike(hs[1..], hs'[1..], v, WalkRoutes(hs[0].sub, v, groups).groups);
    }
  }

  /** If the walk reaches box_webhook, every request does, whatever order Caddy runs the matchers of any set in. */
  lemma ReachedInAnyOrder(rs: seq<Route>, rs': seq<Route>, o: Oracle)
    requires AlikeRoutes(rs, rs') && WalkRoutes(rs, Matches, map[]).end == ReachedWebhook
    ensures Serve(rs', {}, o, 0).end == AtWebhook
  {
    WalkAlike(rs, rs', Matches, map[]);
    ReachedIsReached(rs', o);
  }
}
