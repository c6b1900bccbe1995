/** A server's routes as the reachability question reads them (box/reach.go), and what Caddy does
    with a request on them. */
module Routes {

  /** A matcher of a route: one decided from the request's line alone, one decided per request,
      one the walk does not know (decided per request, and it may fail), or a negation. */
  datatype Matcher =
    | Static(key: string, matched: bool)
    | PerRequest(key: string)
    | Unknown(key: string)
    | Not(sets: seq<MatcherSet>)

  /** All of a set's matchers must match. */
  datatype MatcherSet = MatcherSet(matchers: seq<Matcher>)

  /** A handler: its module name, whether a headers handler changes the request, which of a
      request_body's or a timeouts handler's settings stands in the way, a subroute's routes. */
  datatype Handler = Handler(name: string, request: bool, setting: string, sub: seq<Route>)

  /** A route: its group, its matcher sets (any may match; all of one must), its handlers. */
  datatype Route = Route(group: string, sets: seq<MatcherSet>, handlers: seq<Handler>, terminal: bool)

  datatype HandlerClass = Answers | Passes | Changes | Caps | Cuts | Subroute | Reached

  /** The table of what may stand before box_webhook: a handler it does not name answers. */
  function Classify(h: Handler): HandlerClass
  {
    match h.name
    case "box_webhook" => Reached
    case "subroute" => Subroute
    case "vars" => Passes
    case "map" => Passes
    case "log_append" => Passes
    case "tracing" => Passes
    case "encode" => Passes
    case "push" => Passes
    case "hint_penaltybox" => Passes
    case "headers" => if h.request then Changes else Passes
    case "request_body" => if h.setting == "set" then Changes else if h.setting == "max_size" then Caps else Passes
    case "timeouts" => if h.setting != "" then Cuts else Passes
    case "rewrite" => Changes
    case _ => Answers
  }

  /** Whether a box_webhook handler stands anywhere in the routes. */
  predicate CarriesWebhook(rs: seq<Route>)
    decreases rs
  {
    rs != [] && (HandlersCarry(rs[0].handlers) || CarriesWebhook(rs[1..]))
  }

  predicate HandlersCarry(hs: seq<Handler>)
    decreases hs
  {
    hs != [] &&
    (hs[0].name == "box_webhook" || (hs[0].name == "subroute" && CarriesWebhook(hs[0].sub)) || HandlersCarry(hs[1..]))
  }

  // ----- one request

  /** What a matcher says of one request. */
  datatype Outcome = True | False | Error

  /** How one request ends: at box_webhook with nothing but passing handlers before it; at
      something else (another handler, a terminal route's end, a matcher's error); or past
      every route. */
  datatype End = AtWebhook | Stopped | RanOut

  /** The answers undecided matchers give one request, in the order they are asked. */
  type Oracle = nat -> Outcome

  function EvalMatcher(m: Matcher, o: Oracle, n: nat): (Outcome, nat)
    decreases m
  {
    match m
    case Static(_, matched) => (if matched then True else False, n)
    case PerRequest(_) => (if o(n) == True then True else False, n + 1) // it never fails
    case Unknown(_) => (o(n), n + 1)
    case Not(sets) =>
      if sets == [] then (True, n)
      else
        var (r, n') := EvalSets(sets, o, n);
        (match r case True => False case False => True case Error => Error, n')
  }

  /** Every matcher of a set, until one does not match or fails. */
  function EvalSet(ms: seq<Matcher>, o: Oracle, n: nat): (Outcome, nat)
    decreases ms
  {
    if ms == [] then (True, n)
    else
      var (r, n') := EvalMatcher(ms[0], o, n);
      if r == True then EvalSet(ms[1..], o, n') else (r, n')
  }

  /** Sets in order, until one matches or fails. */
  function EvalSets(sets: seq<MatcherSet>, o: Oracle, n: nat): (Outcome, nat)
    decreases sets
  {
    if sets == [] then (False, n)
    else
      var (r, n') := EvalSet(sets[0].matchers, o, n);
      if r == False then EvalSets(sets[1..], o, n') else (r, n')
  }

  /** A route with no matcher sets matches. */
  function EvalRoute(r: Route, o: Oracle, n: nat): (Outcome, nat)
  {
    if r.sets == [] then (True, n) else EvalSets(r.sets, o, n)
  }

  datatype Ran = Ran(end: End, groups: set<string>, asked: nat)

  /** A request on the routes, with the groups already satisfied: a route's matchers run before its
      group is asked; a member of a satisfied group is skipped; the first member that matches
      satisfies the group, for the whole request, however deeply nested; a terminal route ends
      the request when its handlers have passed it on. */
  function Serve(rs: seq<Route>, groups: set<string>, o: Oracle, n: nat): Ran
    decreases rs
  {
    if rs == [] then Ran(RanOut, groups, n)
    else
      var (r, n1) := EvalRoute(rs[0], o, n);
      if r == Error then Ran(Stopped, groups, n1)
      else if r == False || (rs[0].group != "" && rs[0].group in groups) then Serve(rs[1..], groups, o, n1)
      else
        var ran := ServeHandlers(rs[0].handlers, if rs[0].group == "" then groups else groups + {rs[0].group}, o, n1);
        if ran.end != RanOut then ran
        else if rs[0].terminal then ran.(end := Stopped)
        else Serve(rs[1..], ran.groups, o, ran.asked)
  }

  function ServeHandlers(hs: seq<Handler>, groups: set<string>, o: Oracle, n: nat): Ran
    decreases hs
  {
    if hs == [] then Ran(RanOut, groups, n)
    else
      match Classify(hs[0])
      case Reached => Ran(AtWebhook, groups, n)
      case Passes => ServeHandlers(hs[1..], groups, o, n)
      case Subroute =>
        var ran := Serve(hs[0].sub, groups, o, n);
        if ran.end != RanOut then ran else ServeHandlers(hs[1..], ran.groups, o, ran.asked)
      case _ => Ran(Stopped, groups, n)
  }
}
