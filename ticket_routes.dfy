/**
 * The ticket router: an ordered list of routes, each a method, a path
 * pattern relative to /api/tickets and a middleware chain, registered one
 * after the other. A request runs the chain of the first route whose
 * method and pattern match; path patterns match case-insensitively, with
 * an optional trailing slash, and a `:name` segment takes any non-empty
 * text without a slash.
 */
module TicketRoutes {
  import opened Options
  import opened JsString
  import opened AuthMiddleware

  datatype Verb = GET | POST | PUT | DELETE

  /** One `/`-separated piece of a route pattern. */
  datatype Segment = Literal(text: string) | Param(name: string)

  /** The ticket controller's handlers. */
  datatype Handler =
    | CreateTicket | GetTickets | GetTicket | UpdateTicket | AssignTicket | DeleteTicket | GetStats

  datatype Middleware = Protect | Authorize(roles: seq<string>) | Controller(handler: Handler)

  datatype Route = Route(verb: Verb, pattern: seq<Segment>, chain: seq<Middleware>)

  const IdPattern: seq<Segment> := [Param("id")]
  const AssignPattern: seq<Segment> := [Param("id"), Literal("assign")]
  const Managers: seq<string> := ["manager"]

  /** The routes in the order the router file registers them. */
  function TicketRouteTable(): seq<Route> {
    [ Route(GET, [], [Protect, Controller(GetTickets)]),
      Route(POST, [], [Protect, Controller(CreateTicket)]),
      Route(GET, [Literal("stats")], [Protect, Controller(GetStats)]),
      Route(GET, IdPattern, [Protect, Controller(GetTicket)]),
      Route(PUT, IdPattern, [Protect, Controller(UpdateTicket)]),
      Route(DELETE, IdPattern, [Protect, Authorize(Managers), Controller(DeleteTicket)]),
      Route(PUT, AssignPattern, [Protect, Authorize(Managers), Controller(AssignTicket)]) ]
  }

  /** An Express router under construction: each registration appends. */
  class Router {
    var routes: seq<Route>

    constructor ()
      ensures routes == []
    {
      routes := [];
    }

    /** `router.<verb>(pattern, ...chain)`. */
    method Register(verb: Verb, pattern: seq<Segment>, chain: seq<Middleware>)
      modifies this
      ensures routes == old(routes) + [Route(verb, pattern, chain)]
    {
      routes := routes + [Route(verb, pattern, chain)];
    }
  }

  /** The router file: `route('/')` with GET and POST, `get('/stats')`,
      `route('/:id')` with GET, PUT and DELETE, then `put('/:id/assign')`. */
  method BuildTicketRouter() returns (router: Router)
    ensures fresh(router)
    ensures router.routes == TicketRouteTable()
  {
    router := new Router();
    router.Register(GET, [], [Protect, Controller(GetTickets)]);
    router.Register(POST, [], [Protect, Controller(CreateTicket)]);
    router.Register(GET, [Literal("stats")], [Protect, Controller(GetStats)]);
    router.Register(GET, IdPattern, [Protect, Controller(GetTicket)]);
    router.Register(PUT, IdPattern, [Protect, Controller(UpdateTicket)]);
    router.Register(DELETE, IdPattern, [Protect, Authorize(Managers), Controller(DeleteTicket)]);
    router.Register(PUT, AssignPattern, [Protect, Authorize(Managers), Controller(AssignTicket)]);
  }

  /** The path without the one trailing slash a non-strict pattern allows. */
  function Body(path: string): string {
    if |path| > 0 && path[|path| - 1] == '/' then path[..|path| - 1] else path
  }

  /** Each piece fits its segment: a parameter takes any non-empty piece,
      a literal the same text up to letter case. */
  predicate SegmentsAgree(pattern: seq<Segment>, parts: seq<string>) {
    && |pattern| == |parts|
    && (forall i :: 0 <= i < |pattern| && pattern[i].Param? ==> parts[i] != "")
    && (forall i :: 0 <= i < |pattern| && pattern[i].Literal? ==> ToLower(parts[i]) == ToLower(pattern[i].text))
  }

  /** Segment `i` is the last parameter of its name; Express assigns the
      parameters in pattern order, so that one's piece is the value kept. */
  predicate LastOfName(pattern: seq<Segment>, i: int)
    requires 0 <= i < |pattern| && pattern[i].Param?
  {
    forall j :: i < j < |pattern| && pattern[j].Param? ==> pattern[j].name != pattern[i].name
  }

  /** The parameter names a pattern declares. */
  function ParamNames(pattern: seq<Segment>): set<string> {
    set i | 0 <= i < |pattern| && pattern[i].Param? :: pattern[i].name
  }

  /** Matching the pieces of a path against a pattern piece by piece: the
      parameters it binds, or None. */
  function MatchSegments(pattern: seq<Segment>, parts: seq<string>): (r: Option<map<string, string>>)
    ensures r.Some? <==> SegmentsAgree(pattern, parts)
    ensures r.Some? ==> r.value.Keys == ParamNames(pattern)
    ensures r.Some? ==> forall i :: 0 <= i < |pattern| && pattern[i].Param? && LastOfName(pattern, i) ==>
      r.value[pattern[i].name] == parts[i]
  {
    if |pattern| != |parts| then None
    else if |pattern| == 0 then Some(map[])
    else
      var rest := MatchSegments(pattern[1..], parts[1..]);
      SegmentsAgreeStep(pattern, parts);
      ParamNamesStep(pattern);
      match rest
      case None => None
      case Some(m) =>
        match pattern[0]
        case Literal(t) => if ToLower(parts[0]) == ToLower(t) then Some(m) else None
        case Param(n) => if parts[0] != "" then Some(if n in m then m else m[n := parts[0]]) else None
  }

  /** Agreement splits into the first piece and the rest. */
  lemma SegmentsAgreeStep(pattern: seq<Segment>, parts: seq<string>)
    requires |pattern| == |parts| > 0
    ensures SegmentsAgree(pattern, parts) <==>
      && SegmentsAgree(pattern[1..], parts[1..])
      && (pattern[0].Param? ==> parts[0] != "")
      && (pattern[0].Literal? ==> ToLower(parts[0]) == ToLower(pattern[0].text))
  {
    if SegmentsAgree(pattern[1..], parts[1..]) {
      forall i | 1 <= i < |pattern|
        ensures (pattern[i].Param? ==> parts[i] != "")
             && (pattern[i].Literal? ==> ToLower(parts[i]) == ToLower(pattern[i].text))
      {
        assert pattern[1..][i - 1] == pattern[i] && parts[1..][i - 1] == parts[i];
      }
    }
  }

  /** The names of a pattern are those of its first segment and the rest. */
  lemma ParamNamesStep(pattern: seq<Segment>)
    requires |pattern| > 0
    ensures ParamNames(pattern) == ParamNames(pattern[1..]) + (if pattern[0].Param? then {pattern[0].name} else {})
  {
    forall x | x in ParamNames(pattern)
      ensures x in ParamNames(pattern[1..]) + (if pattern[0].Param? then {pattern[0].name} else {})
    {
      var i :| 0 <= i < |pattern| && pattern[i].Param? && pattern[i].name == x;
      if i > 0 {
        assert pattern[1..][i - 1] == pattern[i];
      }
    }
    forall x | x in ParamNames(pattern[1..]) ensures x in ParamNames(pattern) {
      var i :| 0 <= i < |pattern[1..]| && pattern[1..][i].Param? && pattern[1..][i].name == x;
      assert pattern[i + 1] == pattern[1..][i];
    }
  }

  /** A router-relative path against a pattern: the root pattern takes
      only the root, and any other pattern takes a slash followed by one
      piece per segment. */
  function Match(pattern: seq<Segment>, path: string): Option<map<string, string>> {
    var body := Body(path);
    if |pattern| == 0 then (if body == "" then Some(map[]) else None)
    else if |body| == 0 || body[0] != '/' then None
    else MatchSegments(pattern, Split(body[1..], '/'))
  }

  predicate Applies(route: Route, verb: Verb, path: string) {
    route.verb == verb && Match(route.pattern, path).Some?
  }

  /** The route a request lands on and the parameters it binds. */
  datatype Resolved = Resolved(index: nat, params: map<string, string>)

  /** First match wins. */
  function Dispatch(routes: seq<Route>, verb: Verb, path: string): (r: Option<Resolved>)
    ensures r.Some? ==>
      && r.value.index < |routes|
      && Applies(routes[r.value.index], verb, path)
      && Match(routes[r.value.index].pattern, path) == Some(r.value.params)
      && forall j :: 0 <= j < r.value.index ==> !Applies(routes[j], verb, path)
    ensures r.None? ==> forall j :: 0 <= j < |routes| ==> !Applies(routes[j], verb, path)
  {
    if |routes| == 0 then None
    else if Applies(routes[0], verb, path) then Some(Resolved(0, Match(routes[0].pattern, path).value))
    else match Dispatch(routes[1..], verb, path)
      case None => None
      case Some(res) => Some(Resolved(res.index + 1, res.params))
  }

  /** The route that applies first is the one dispatched to. */
  lemma DispatchFirst(routes: seq<Route>, verb: Verb, path: string, i: nat)
    requires i < |routes| && Applies(routes[i], verb, path)
    requires forall j :: 0 <= j < i ==> !Applies(routes[j], verb, path)
    ensures Dispatch(routes, verb, path) == Some(Resolved(i, Match(routes[i].pattern, path).value))
  {
    assert Dispatch(routes, verb, path).Some?;
  }

  /** What running a request through a chain does, in order. */
  datatype Event =
    | Invoke(handler: Handler, user: Option<Identity>, params: map<string, string>)
    | Answer(code: nat, error: string)
    | Crashed   // a middleware read `req.user` before `protect` set it
    | PassedOn  // the last middleware called `next`: the router falls through

  /** The chain as Express runs it: each middleware either answers or
      calls `next`, which runs the rest of the chain first. */
  function RunChain(chain: seq<Middleware>, user: Option<Identity>, params: map<string, string>,
                    header: Option<string>, verify: Verifier): (r: seq<Event>)
    ensures |r| >= 1
    ensures forall e :: e in r && e.Invoke? ==> e.params == params && Controller(e.handler) in chain
    ensures user.Some? || (|chain| > 0 && chain[0] == Protect) ==>
      forall e :: e in r && e.Invoke? ==> e.user.Some?
    ensures forall e :: e in r && e.Answer? ==> e.code in {401, 403}
    decreases |chain|, 0
  {
    if |chain| == 0 then [PassedOn]
    else match chain[0]
      case Protect => RunEffects(ProtectEffects(header, verify), chain[1..], params, header, verify)
      case Authorize(roles) =>
        if user.None? then [Crashed]
        else (match AuthMiddleware.Authorize(roles, user.value)
          case Next(u) => RunChain(chain[1..], Some(u), params, header, verify)
          case Respond(c, e) => [Answer(c, e)])
      case Controller(h) => [Invoke(h, user, params)]
  }

  /** The effects of `protect`, with `next` running the rest of the chain. */
  function RunEffects(effects: seq<Effect>, rest: seq<Middleware>, params: map<string, string>,
                      header: Option<string>, verify: Verifier): (r: seq<Event>)
    ensures |effects| > 0 ==> |r| >= 1
    ensures forall e :: e in r && e.Invoke? ==> e.params == params && Controller(e.handler) in rest && e.user.Some?
    ensures (forall i :: 0 <= i < |effects| && effects[i].Respond? ==> effects[i].code == 401) ==>
      forall e :: e in r && e.Answer? ==> e.code in {401, 403}
    decreases |rest|, 1, |effects|
  {
    if |effects| == 0 then []
    else
      var first := match effects[0]
        case Next(u) => RunChain(rest, Some(u), params, header, verify)
        case Respond(c, e) => [Answer(c, e)];
      first + RunEffects(effects[1..], rest, params, header, verify)
  }

  /** A request to the router: dispatch, then the chain of that route. */
  function Handle(routes: seq<Route>, verb: Verb, path: string,
                  header: Option<string>, verify: Verifier): (r: seq<Event>)
    ensures Dispatch(routes, verb, path).None? ==> r == [PassedOn]
    ensures forall e :: e in r && e.Invoke? ==>
      var d := Dispatch(routes, verb, path);
      d.Some? && e.params == d.value.params && Controller(e.handler) in routes[d.value.index].chain
    ensures forall e :: e in r && e.Answer? ==> e.code in {401, 403}
  {
    match Dispatch(routes, verb, path)
    case None => [PassedOn]
    case Some(res) => RunChain(routes[res.index].chain, None, res.params, header, verify)
  }

  /** Every route is authenticated first and ends in a handler; only
      deletion and assignment carry a role gate, and that gate is
      `manager` alone. */
  lemma ChainShapes()
    ensures forall i :: 0 <= i < |TicketRouteTable()| ==>
      var chain := TicketRouteTable()[i].chain;
      && 2 <= |chain| <= 3
      && chain[0] == Protect
      && chain[|chain| - 1].Controller?
      && (|chain| == 3 ==> chain[1] == Authorize(["manager"]) && chain[2].handler in {DeleteTicket, AssignTicket})
      && (|chain| == 2 ==> chain[1].handler !in {DeleteTicket, AssignTicket})
  {
  }

  /** A one-segment pattern against a one-piece path. */
  lemma MatchOne(seg: Segment, part: string)
    ensures MatchSegments([seg], [part]) == match seg
      case Literal(t) => if ToLower(part) == ToLower(t) then Some(map[]) else None
      case Param(n) => if part != "" then Some(map[n := part]) else None
  {
    assert [seg][1..] == [] && [part][1..] == [];
  }

  lemma MatchLiteralStats(path: string)
    requires path == "/stats" || path == "/stats/"
    ensures Match([Literal("stats")], path) == Some(map[])
    ensures Match(IdPattern, path) == Some(map["id" := "stats"])
    ensures Match([], path) == None
  {
    assert Body(path) == "/stats";
    assert Body(path)[1..] == "stats";
    SplitWithoutSeparator("stats", '/');
    MatchOne(Literal("stats"), "stats");
    MatchOne(Param("id"), "stats");
  }

  /** GET /stats goes to the statistics handler although `/:id` would
      also take it: the first match wins. */
  lemma StatsShadowsId(path: string)
    requires path == "/stats" || path == "/stats/"
    ensures Applies(TicketRouteTable()[3], GET, path)
    ensures Dispatch(TicketRouteTable(), GET, path) == Some(Resolved(2, map[]))
    ensures TicketRouteTable()[2].chain[1] == Controller(GetStats)
  {
    MatchLiteralStats(path);
    DispatchStats(path);
  }

  /** Dispatch for a GET whose path the statistics pattern takes. */
  lemma DispatchStats(path: string)
    requires Match([], path) == None && Match([Literal("stats")], path) == Some(map[])
    ensures Dispatch(TicketRouteTable(), GET, path) == Some(Resolved(2, map[]))
  {
    DispatchFirst(TicketRouteTable(), GET, path, 2);
  }

  /** "/<id>" binds `id`, with or without a trailing slash. */
  lemma MatchId(id: string, path: string)
    requires id != "" && '/' !in id
    requires path == "/" + id || path == "/" + id + "/"
    ensures Match(IdPattern, path) == Some(map["id" := id])
    ensures Match([], path) == None
    ensures Match(AssignPattern, path) == None
  {
    assert Body(path) == "/" + id;
    assert Body(path)[1..] == id;
    SplitWithoutSeparator(id, '/');
    MatchOne(Param("id"), id);
  }

  /** Any path with two non-empty pieces misses `/:id`. */
  lemma TwoSegmentsNeverMatchId(a: string, b: string)
    requires '/' !in a && b != ""
    ensures Match(IdPattern, "/" + a + "/" + b) == None
  {
    var path := "/" + a + "/" + b;
    var c := if b[|b| - 1] == '/' then b[..|b| - 1] else b;
    assert Body(path) == "/" + a + "/" + c;
    assert Body(path)[1..] == a + ['/'] + c;
    SplitAfterFirst(a, '/', c);
  }

  /** "/<id>/assign" binds `id` for the assignment route. */
  lemma MatchAssign(id: string)
    requires id != "" && '/' !in id
    ensures Match(AssignPattern, "/" + id + "/assign") == Some(map["id" := id])
  {
    var path := "/" + id + "/assign";
    assert Body(path) == path;
    assert path[1..] == id + ['/'] + "assign";
    SplitAfterFirst(id, '/', "assign");
    SplitWithoutSeparator("assign", '/');
    assert Split(path[1..], '/') == [id, "assign"];
    assert MatchSegments(AssignPattern[1..], ["assign"]) == Some(map[]);
  }

  /** A one-piece path other than "stats" misses the statistics route. */
  lemma NotStats(id: string, path: string)
    requires id != "" && '/' !in id && ToLower(id) != "stats"
    requires path == "/" + id
    ensures Match([Literal("stats")], path) == None
  {
    assert Body(path)[1..] == id;
    SplitWithoutSeparator(id, '/');
    MatchOne(Literal("stats"), id);
    assert ToLower("stats") == "stats";
  }

  /** GET "/<id>" reaches the single-ticket handler unless the id is
      "stats" in some letter case. */
  lemma GetTicketPath(id: string)
    requires id != "" && '/' !in id && ToLower(id) != "stats"
    ensures Dispatch(TicketRouteTable(), GET, "/" + id) == Some(Resolved(3, map["id" := id]))
  {
    MatchId(id, "/" + id);
    NotStats(id, "/" + id);
    DispatchGetId("/" + id, map["id" := id]);
  }

  lemma DispatchGetId(path: string, params: map<string, string>)
    requires Match([], path) == None && Match([Literal("stats")], path) == None
    requires Match(IdPattern, path) == Some(params)
    ensures Dispatch(TicketRouteTable(), GET, path) == Some(Resolved(3, params))
  {
    DispatchFirst(TicketRouteTable(), GET, path, 3);
  }

  /** PUT and DELETE on "/<id>" reach update and deletion. */
  lemma UpdateAndDeletePaths(id: string)
    requires id != "" && '/' !in id
    ensures Dispatch(TicketRouteTable(), PUT, "/" + id) == Some(Resolved(4, map["id" := id]))
    ensures Dispatch(TicketRouteTable(), DELETE, "/" + id) == Some(Resolved(5, map["id" := id]))
  {
    MatchId(id, "/" + id);
    DispatchUpdateDeleteId("/" + id, map["id" := id]);
  }

  lemma DispatchUpdateDeleteId(path: string, params: map<string, string>)
    requires Match([], path) == None && Match(IdPattern, path) == Some(params)
    ensures Dispatch(TicketRouteTable(), PUT, path) == Some(Resolved(4, params))
    ensures Dispatch(TicketRouteTable(), DELETE, path) == Some(Resolved(5, params))
  {
    DispatchFirst(TicketRouteTable(), PUT, path, 4);
    DispatchFirst(TicketRouteTable(), DELETE, path, 5);
  }

  /** PUT "/<id>/assign" reaches assignment, not update. */
  lemma AssignPath(id: string)
    requires id != "" && '/' !in id
    ensures Dispatch(TicketRouteTable(), PUT, "/" + id + "/assign") == Some(Resolved(6, map["id" := id]))
  {
    var path := "/" + id + "/assign";
    MatchAssign(id);
    TwoSegmentsNeverMatchId(id, "assign");
    assert Body(path) == path && path[0] == '/';
    DispatchAssign(path, map["id" := id]);
  }

  lemma DispatchAssign(path: string, params: map<string, string>)
    requires Match([], path) == None && Match(IdPattern, path) == None
    requires Match(AssignPattern, path) == Some(params)
    ensures Dispatch(TicketRouteTable(), PUT, path) == Some(Resolved(6, params))
  {
    DispatchFirst(TicketRouteTable(), PUT, path, 6);
  }

  /** The effects protect produces for one request, with rest of the
      chain run after each `next`: a single effect, unfolded. */
  lemma RunOneEffect(eff: Effect, rest: seq<Middleware>, params: map<string, string>,
                     header: Option<string>, verify: Verifier)
    ensures eff.Next? ==> RunEffects([eff], rest, params, header, verify)
                          == RunChain(rest, Some(eff.user), params, header, verify)
    ensures eff.Respond? ==> RunEffects([eff], rest, params, header, verify) == [Answer(eff.code, eff.error)]
  {
    assert [eff][1..] == [];
  }

  /** A role gate in front of a handler. */
  lemma RunGate(roles: seq<string>, h: Handler, u: Identity, params: map<string, string>,
                header: Option<string>, verify: Verifier)
    ensures RunChain([Authorize(roles), Controller(h)], Some(u), params, header, verify)
         == if u.role in roles then [Invoke(h, Some(u), params)]
            else [Answer(403, RoleErrorPrefix + u.role + RoleErrorSuffix)]
  {
    var chain: seq<Middleware> := [Authorize(roles), Controller(h)];
    assert chain[1..] == [Controller(h)];
  }

  /** Every route the router dispatches to runs `protect` first. */
  lemma HandleProtected(verb: Verb, path: string, header: Option<string>, verify: Verifier)
    ensures var d := Dispatch(TicketRouteTable(), verb, path);
      d.Some? ==>
      Handle(TicketRouteTable(), verb, path, header, verify)
        == RunEffects(ProtectEffects(header, verify), TicketRouteTable()[d.value.index].chain[1..],
                      d.value.params, header, verify)
  {
    ChainShapes();
  }

  /** Behind a role gate, every handler call is made for a user whose
      role the gate lists, whatever `protect` decided. */
  lemma {:induction false} GatedEffects(effects: seq<Effect>, roles: seq<string>, h: Handler,
                                        params: map<string, string>, header: Option<string>, verify: Verifier)
    ensures forall e :: e in RunEffects(effects, [Authorize(roles), Controller(h)], params, header, verify) && e.Invoke? ==>
      e.user.Some? && e.user.value.role in roles
  {
    if |effects| > 0 {
      GatedEffects(effects[1..], roles, h, params, header, verify);
      if effects[0].Next? {
        RunGate(roles, h, effects[0].user, params, header, verify);
      }
    }
  }

  /** Only a manager reaches deletion or assignment. */
  lemma ManagerOnlyReachesGatedHandlers(verb: Verb, path: string, header: Option<string>, verify: Verifier)
    ensures var d := Dispatch(TicketRouteTable(), verb, path);
      d.Some? && d.value.index in {5, 6} ==>
      forall e :: e in Handle(TicketRouteTable(), verb, path, header, verify) && e.Invoke? ==>
        e.user.Some? && e.user.value.role == "manager"
  {
    var t := TicketRouteTable();
    var d := Dispatch(t, verb, path);
    if d.Some? && d.value.index in {5, 6} {
      HandleProtected(verb, path, header, verify);
      var h := t[d.value.index].chain[2].handler;
      assert t[d.value.index].chain[1..] == [Authorize(Managers), Controller(h)];
      GatedEffects(ProtectEffects(header, verify), Managers, h, d.value.params, header, verify);
    }
  }

  /** An authenticated caller whose role is not manager asking to assign a
      ticket gets 403 naming the role, and the handler is never called. */
  lemma AssignRefusedToOthers(id: string, header: Option<string>, verify: Verifier, u: Identity)
    requires id != "" && '/' !in id
    requires ProtectEffects(header, verify) == [Next(u)] && u.role != "manager"
    ensures Handle(TicketRouteTable(), PUT, "/" + id + "/assign", header, verify)
         == [Answer(403, RoleErrorPrefix + u.role + RoleErrorSuffix)]
  {
    AssignPath(id);
    HandleProtected(PUT, "/" + id + "/assign", header, verify);
    var rest := TicketRouteTable()[6].chain[1..];
    assert rest == [Authorize(Managers), Controller(AssignTicket)];
    RunOneEffect(Next(u), rest, map["id" := id], header, verify);
    RunGate(Managers, AssignTicket, u, map["id" := id], header, verify);
  }

  /** The routes without a role gate reach their handler for every
      authenticated caller, whatever the role. */
  lemma OpenRoutesReachHandler(verb: Verb, path: string, header: Option<string>, verify: Verifier, u: Identity)
    requires ProtectEffects(header, verify) == [Next(u)]
    ensures var d := Dispatch(TicketRouteTable(), verb, path);
      d.Some? && d.value.index < 5 ==>
      Handle(TicketRouteTable(), verb, path, header, verify)
        == [Invoke(TicketRouteTable()[d.value.index].chain[1].handler, Some(u), d.value.params)]
  {
    var t := TicketRouteTable();
    var d := Dispatch(t, verb, path);
    if d.Some? && d.value.index < 5 {
      HandleProtected(verb, path, header, verify);
      var rest := t[d.value.index].chain[1..];
      assert rest == [Controller(t[d.value.index].chain[1].handler)];
      RunOneEffect(Next(u), rest, d.value.params, header, verify);
    }
  }

  /** Without a Bearer header every route answers 401 before anything
      else runs. */
  lemma UnauthenticatedRefused(verb: Verb, path: string, header: Option<string>, verify: Verifier)
    requires !HasBearer(header)
    ensures Dispatch(TicketRouteTable(), verb, path).Some? ==>
      Handle(TicketRouteTable(), verb, path, header, verify) == [Answer(401, NoTokenError)]
  {
    var d := Dispatch(TicketRouteTable(), verb, path);
    if d.Some? {
      HandleProtected(verb, path, header, verify);
      RunOneEffect(Respond(401, NoTokenError), TicketRouteTable()[d.value.index].chain[1..],
                   d.value.params, header, verify);
    }
  }
}
