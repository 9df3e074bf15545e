/** The request path through the application as registered: the two
    middleware functions, then the JSON routes. Static files, the portfolio
    document and the single-page fallback are outside the model. */
module Server {
  import opened Text
  import opened Http
  import Middleware
  import Chat
  import Contact

  /** An incoming request whose body the parsers accepted: method, path
      (without query) and parsed JSON body. */
  datatype Request = Request(verb: string, path: string, body: map<string, Field>)

  /** How a request ends: answered by the preflight short-circuit, answered
      by one of the two modelled JSON routes, or handed to a handler that is
      not modelled (static files, `/api/portfolio`, the `*` page). */
  datatype Handled = Preflight(status: nat) | Api(reply: Reply) | Elsewhere

  datatype Exchange = Exchange(headers: map<string, string>, handled: Handled)

  /** Express's default route matching: letters compared without regard to
      case, and one trailing slash tolerated. */
  predicate RouteMatches(path: string, route: string)
    // a lower-case route is matched by its own spelling in any letter case
    ensures AllLower(route) && SameUpToCase(path, route) ==> RouteMatches(path, route)
    // and by nothing longer than itself plus one slash
    ensures RouteMatches(path, route) ==> |path| == |route| || |path| == |route| + 1
  {
    Lower(path) == route || Lower(path) == route + "/"
  }

  /** No path reaches both JSON routes. */
  lemma RoutesDisjoint(path: string)
    ensures !(RouteMatches(path, "/api/contact") && RouteMatches(path, "/api/ai-chat"))
  {
    if RouteMatches(path, "/api/contact") {
      assert Lower(path)[5] == 'c';
    }
  }

  /** The handling of one request under environment mode `env`; `upstream`
      is what the completion provider would answer, consulted only by the chat
      route. */
  function Serve(env: string, req: Request, upstream: Chat.Upstream): (x: Exchange)
    // every response carries the middleware's headers, preflight or not
    ensures x.headers == Middleware.Policy(env, req.verb).headers
    // an OPTIONS request never reaches a route
    ensures req.verb == "OPTIONS" <==> x.handled == Preflight(200)
    ensures x.handled.Api? ==> req.verb == "POST"
    ensures (req.verb == "POST" && RouteMatches(req.path, "/api/ai-chat")) ==>
              x.handled == Api(Chat.Resolve(Get(req.body, "message"), upstream))
    ensures (req.verb == "POST" && RouteMatches(req.path, "/api/contact")) ==>
              x.handled == Api(Contact.Submit(Get(req.body, "name"), Get(req.body, "email"),
                                              Get(req.body, "message"), Get(req.body, "subject")))
  {
    RoutesDisjoint(req.path);
    var policy := Middleware.Policy(env, req.verb);
    var handled :=
      if policy.outcome.Respond? then Preflight(policy.outcome.status)
      else if req.verb == "POST" && RouteMatches(req.path, "/api/contact") then
        Api(Contact.Submit(Get(req.body, "name"), Get(req.body, "email"),
                           Get(req.body, "message"), Get(req.body, "subject")))
      else if req.verb == "POST" && RouteMatches(req.path, "/api/ai-chat") then
        Api(Chat.Resolve(Get(req.body, "message"), upstream))
      else Elsewhere;
    Exchange(policy.headers, handled)
  }

  /** The provider is asked nothing on a preflight, and the answer it would
      give cannot change a preflight's response. */
  lemma PreflightIgnoresUpstream(env: string, req: Request, u: Chat.Upstream, v: Chat.Upstream)
    requires req.verb == "OPTIONS"
    ensures Serve(env, req, u) == Serve(env, req, v)
  {
  }

  /** In production every response that reaches the middleware carries HSTS
      and the site origin; in any other mode neither HSTS nor a restricted
      origin. A request whose body the parsers reject is answered before the
      middleware runs and is not a `Request`, so it is not covered. */
  lemma ProductionHeaders(env: string, req: Request, u: Chat.Upstream)
    ensures Middleware.Hsts in Serve(env, req, u).headers <==> Middleware.IsProduction(env)
    ensures Serve(env, req, u).headers[Middleware.AllowOrigin]
              == (if Middleware.IsProduction(env) then Middleware.SiteOrigin else "*")
  {
  }
}
