/** The two middleware functions every request passes first: hardening
    headers, then CORS headers with the preflight short-circuit. */
module Middleware {
  import opened Http

  const SiteOrigin := "https://arunregmi.com.np"
  const Hsts := "Strict-Transport-Security"
  const AllowOrigin := "Access-Control-Allow-Origin"

  /** `NODE_ENV === 'production'`. */
  predicate IsProduction(env: string) { env == "production" }

  /** The headers the security middleware sets. */
  function SecurityHeaders(env: string): (h: map<string, string>)
    ensures Hsts in h <==> IsProduction(env)
    ensures IsProduction(env) ==> h[Hsts] == "max-age=31536000; includeSubDomains"
    ensures "X-Content-Type-Options" in h && h["X-Content-Type-Options"] == "nosniff"
    ensures "X-Frame-Options" in h && h["X-Frame-Options"] == "DENY"
    ensures "X-XSS-Protection" in h && h["X-XSS-Protection"] == "1; mode=block"
    ensures "Referrer-Policy" in h && h["Referrer-Policy"] == "strict-origin-when-cross-origin"
  {
    var base := map[
      "X-Content-Type-Options" := "nosniff",
      "X-Frame-Options" := "DENY",
      "X-XSS-Protection" := "1; mode=block",
      "Referrer-Policy" := "strict-origin-when-cross-origin"
    ];
    if IsProduction(env) then base[Hsts := "max-age=31536000; includeSubDomains"] else base
  }

  /** The headers the CORS middleware sets. */
  function CorsHeaders(env: string): (h: map<string, string>)
    ensures AllowOrigin in h && h[AllowOrigin] == (if IsProduction(env) then SiteOrigin else "*")
    ensures "Access-Control-Allow-Headers" in h
    ensures "Access-Control-Allow-Methods" in h
    ensures "Access-Control-Allow-Credentials" in h && h["Access-Control-Allow-Credentials"] == "true"
    ensures Hsts !in h
  {
    map[
      AllowOrigin := if IsProduction(env) then SiteOrigin else "*",
      "Access-Control-Allow-Headers" := "Origin, X-Requested-With, Content-Type, Accept, Authorization",
      "Access-Control-Allow-Methods" := "GET, POST, PUT, DELETE, OPTIONS",
      "Access-Control-Allow-Credentials" := "true"
    ]
  }

  /** Whether the middleware chain hands the request on, or answers it. */
  datatype Outcome = Continue | Respond(status: nat)

  /** What the two middleware functions together decide for a request. */
  datatype Decision = Decision(headers: map<string, string>, outcome: Outcome)

  /** The header policy for a request method under an environment mode. */
  function Policy(env: string, verb: string): (d: Decision)
    ensures Hsts in d.headers <==> IsProduction(env)
    ensures AllowOrigin in d.headers
    ensures d.headers[AllowOrigin] == (if IsProduction(env) then SiteOrigin else "*")
    ensures "X-Content-Type-Options" in d.headers && d.headers["X-Content-Type-Options"] == "nosniff"
    ensures "X-Frame-Options" in d.headers && d.headers["X-Frame-Options"] == "DENY"
    ensures "Referrer-Policy" in d.headers && d.headers["Referrer-Policy"] == "strict-origin-when-cross-origin"
    ensures d.outcome == Respond(200) <==> verb == "OPTIONS"
    ensures d.outcome == Continue <==> verb != "OPTIONS"
  {
    Decision(SecurityHeaders(env) + CorsHeaders(env), if verb == "OPTIONS" then Respond(200) else Continue)
  }

  /** The parts of the outgoing response the middleware touches: its header
      map and the status it has been answered with, if any. */
  class ServerResponse {
    var headers: map<string, string>
    var sent: Option<nat>

    constructor ()
      ensures headers == map[] && sent == None
    {
      headers := map[];
      sent := None;
    }

    /** `res.header(name, value)`: set one header, replacing any earlier value. */
    method Header(name: string, value: string)
      modifies this
      ensures headers == old(headers)[name := value]
      ensures sent == old(sent)
    {
      headers := headers[name := value];
    }

    /** `res.sendStatus(code)`: answer the request with `code`. */
    method SendStatus(code: nat)
      modifies this
      ensures sent == Some(code)
      ensures headers == old(headers)
    {
      sent := Some(code);
    }
  }

  /** The security middleware; it always calls `next()`. */
  method Security(res: ServerResponse, env: string) returns (next: bool)
    modifies res
    ensures next
    ensures res.headers == old(res.headers) + SecurityHeaders(env)
    ensures res.sent == old(res.sent)
  {
    res.Header("X-Content-Type-Options", "nosniff");
    res.Header("X-Frame-Options", "DENY");
    res.Header("X-XSS-Protection", "1; mode=block");
    res.Header("Referrer-Policy", "strict-origin-when-cross-origin");
    if IsProduction(env) {
      res.Header(Hsts, "max-age=31536000; includeSubDomains");
    }
    next := true;
  }

  /** The CORS middleware: a preflight is answered with 200 here and goes no
      further; any other request is handed on. */
  method Cors(res: ServerResponse, env: string, verb: string) returns (next: bool)
    modifies res
    ensures res.headers == old(res.headers) + CorsHeaders(env)
    ensures next <==> verb != "OPTIONS"
    ensures res.sent == if verb == "OPTIONS" then Some(200) else old(res.sent)
  {
    var origin := if IsProduction(env) then SiteOrigin else "*";
    res.Header(AllowOrigin, origin);
    res.Header("Access-Control-Allow-Headers", "Origin, X-Requested-With, Content-Type, Accept, Authorization");
    res.Header("Access-Control-Allow-Methods", "GET, POST, PUT, DELETE, OPTIONS");
    res.Header("Access-Control-Allow-Credentials", "true");
    if verb == "OPTIONS" {
      res.SendStatus(200);
      next := false;
    } else {
      next := true;
    }
  }

  /** Both middleware functions in registration order, run on a fresh
      response; the result agrees with `Policy`. */
  method RunMiddleware(env: string, verb: string) returns (res: ServerResponse, next: bool)
    ensures res.headers == Policy(env, verb).headers
    ensures next <==> Policy(env, verb).outcome == Continue
    ensures !next ==> res.sent == Some(Policy(env, verb).outcome.status)
    ensures next ==> res.sent == None
  {
    res := new ServerResponse();
    var proceed := Security(res, env);
    if proceed {
      next := Cors(res, env, verb);
    } else {
      assert false;
    }
  }
}
