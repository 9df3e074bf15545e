# Portfolio backend: chat fallback, contact validation and header policy

This project models the decision logic of a small Express server that backs a
personal portfolio site (`index.js`). Four pieces of that server decide
anything, and each is modelled here:

- **Fallback replies** (module `Fallback`). When the completion provider
  answers the chat endpoint with a non-success status, the server lower-cases
  the message. It then scans six keyword/reply pairs in declared order:
  services, projects, contact, technologies, price, experience. The first key
  that is a substring of the message picks the reply; otherwise a fixed
  default is sent. The table is an ordered `seq<(string, string)>`. The scan
  is a method with the source's `for`/`break` loop (`SelectReply`), proved
  equal to a recursive first-match function (`FirstMatch`). Lemmas about that
  function state first-match-wins (both directions), the default case (both
  directions), that the reply is one of seven fixed strings, and that the
  ASCII case of the message never matters.
- **Chat resolution** (module `Chat`). `Resolve` maps the body field
  `message` and the provider's outcome to a reply. A falsy message gets 400.
  A provider success passes its content through. A non-success status uses
  the fallback. An exception gets 500 with an apology.
- **Contact form** (module `Contact`). Name, email and message must be truthy
  or the reply is 400; otherwise a fixed thank-you is sent, whatever the subject.
- **Header middleware** (module `Middleware`). A `ServerResponse` class holds
  the header map that `res.header(...)` updates in place and the status that
  `res.sendStatus` sends. The methods `Security` and `Cors` are proved against
  the pure `SecurityHeaders`, `CorsHeaders` and `Policy` functions. HSTS is
  set only in production. The allowed origin is the site origin in production
  and `*` otherwise. An OPTIONS request is answered with 200 and goes no further.

Module `Server` puts these in registration order: middleware, then the
`POST /api/contact` and `POST /api/ai-chat` routes.

Request body fields are modelled by `Http.Field`: absent, a string, or
another JSON value with its JavaScript truthiness. This follows the handlers'
`!field` tests exactly. An empty string is refused. A whitespace-only string
is accepted, because nothing is trimmed. A truthy non-string `message`
reaches the provider. If the provider then answers with a non-success status,
`message.toLowerCase()` throws and the reply is the 500 apology.

Behaviour the model takes from the code where a reader might expect otherwise:

- Validation is truthiness, not "non-empty after trimming". `" "` is a valid
  chat message and a valid contact field (`Chat.WhitespaceIsAccepted`).
- Only a non-success HTTP status from the provider leads to the fallback. A
  rejected `fetch` (network failure) or an unparsable body throws inside the
  `try` and is answered with 500, not with a fallback reply (`Chat.Upstream.Threw`).

## Model

| member | source | states |
|---|---|---|
| Text.Lower | index.js:215 | lower-casing keeps the length and lowers each ASCII letter, leaving every other character alone |
| Text.Includes | index.js:217 | `includes` holds exactly when the key occurs at some index of the text |
| Text.LowerOccurrence | index.js:215-217 | a lower-case key spelled in any case inside the message is found in the lower-cased message at the same index |
| Fallback.FirstMatch | index.js:213-221 | for any table, the scan returns the default or the value of an entry whose key the text includes |
| Fallback.FallbackReply | index.js:204-221 | the fallback reply is the default or the reply of a key that occurs in the lower-cased message |
| Fallback.SelectReply | index.js:213-221 | the loop that starts from the default and breaks at the first included key returns exactly the first-match reply for the message |
| Fallback.FirstMatchAt | index.js:216-219 | the entry at index i is chosen when its key is included and no earlier key is |
| Fallback.FirstMatchNone | index.js:213-221 | when no key is included, the default is kept |
| Fallback.FirstMatchCases | index.js:213-221 | the scan returns either the default with no key included, or the value of the first entry whose key is included |
| Fallback.FallbackPicksEntryIff | index.js:204-221 | the reply is entry i's value if and only if key i occurs in the lower-cased message and no earlier key does |
| Fallback.FallbackDefaultIff | index.js:204-221 | the reply is the default if and only if no key occurs in the lower-cased message |
| Fallback.FallbackInReplies | index.js:204-221 | the fallback reply is always one of the six table values or the default |
| Fallback.FallbackCaseInsensitive | index.js:204-217 | two messages that differ only in the ASCII case of letters get the same fallback reply |
| Fallback.FallbackUpperLower | index.js:215-217 | upper-casing or lower-casing a message does not change its fallback reply |
| Fallback.ServicesWins | index.js:204-219 | a message containing "services" in any case gets the services reply, whatever other keys (such as "projects") it contains |
| Http.Truthy | index.js:162 | a field fails the `!field` test exactly when it is undefined, the empty string, or a falsy non-string JSON value |
| Http.Get | index.js:128 | a key missing from the body reads as undefined, which is falsy; a present key reads as its value |
| Chat.Resolve | index.js:159-234 | 400 "Message is required" if and only if the message is falsy; a provider success passes the first choice's content through with success; a non-success status on a string message gives the fallback reply with success; 500 with the apology exactly on a thrown exception; success if and only if status 200 |
| Chat.NotOkAnswersFromRuleSet | index.js:203-226 | with a non-success provider status, a non-empty string message always gets status 200, success, and one of the seven fixed replies |
| Chat.RefusalIgnoresUpstream | index.js:162-167 | a refused message gets the same reply whatever the provider would answer |
| Chat.WhitespaceIsAccepted | index.js:162-221 | every non-empty message of spaces, tabs and line breaks is not refused with 400, and with a non-success provider status it gets the default reply with success |
| Chat.NoKeyInBlank | index.js:204-217 | no key starting with a letter is included in a lowered whitespace-only message |
| Contact.Submit | index.js:127-156 | 400 with "Name, email, and message are required" if and only if one of the three fields is falsy; otherwise 200 with the fixed thank-you; success if and only if status 200 |
| Contact.SubjectIgnored | index.js:128-155 | the subject never changes the reply |
| Contact.AnyMissingFieldRefused | index.js:131-136 | a missing or empty name, email or message gives status 400 and no success |
| Middleware.SecurityHeaders | index.js:22-31 | nosniff, frame denial, XSS protection and the referrer policy are always set; HSTS is present if and only if the mode is production |
| Middleware.CorsHeaders | index.js:34-39 | the allowed origin is the site origin in production and `*` otherwise; credentials are allowed; no HSTS header is added |
| Middleware.Policy | index.js:22-45 | the combined headers carry HSTS if and only if in production, the mode's allowed origin, and the hardening headers; the outcome is a 200 response if and only if the method is OPTIONS, and continuation otherwise |
| Middleware.ServerResponse.Header | index.js:23-28 | setting a header replaces that one entry of the header map and nothing else |
| Middleware.ServerResponse.SendStatus | index.js:41 | answering records the status and leaves the headers alone |
| Middleware.Security | index.js:22-31 | the middleware adds exactly the security headers for the mode to the response's map, sends nothing, and calls next |
| Middleware.Cors | index.js:34-45 | the middleware adds exactly the CORS headers for the mode; on OPTIONS it sends 200 and does not call next, otherwise it calls next and sends nothing |
| Middleware.RunMiddleware | index.js:21-45 | running both middleware functions on a fresh response yields the headers and the continue/stop decision of the policy |
| Server.RouteMatches | index.js:127 | a route path is matched by its own spelling in any letter case, and by nothing longer than itself plus one trailing slash |
| Server.Serve | index.js:22-159 | for a request whose body parses, every response carries the policy headers; an OPTIONS request ends as a 200 preflight and never reaches a route; a POST to either JSON route gets that route's reply |
| Server.PreflightIgnoresUpstream | index.js:40-44 | a preflight's response does not depend on what the provider would answer |
| Server.ProductionHeaders | index.js:27-36 | every response to a request whose body parses carries HSTS if and only if in production, and the allowed origin of the mode |

## Left out

- The outbound `fetch` to the completion provider, its request body (model name, system prompt, `max_tokens`, the `temperature` float, `stream`) and the parsing of its JSON answer: network I/O, abstracted as the `Chat.Upstream` outcome.
- Chat.Resolve: the provider's first-choice content is modelled as an optional string. A non-string JSON value there would be passed through unchanged by the server; the model does not represent that.
- Reading `NODE_ENV`, `PORT` and the API key from the environment: the mode is a parameter of the middleware and of `Server.Serve`.
- Requests whose body the JSON or URL-encoded parser rejects (malformed JSON, a non-object JSON body, a body over 10mb): Express answers them with 400, 413 or 415 before either middleware runs, so they carry none of the policy headers, and an OPTIONS request with such a body gets that error instead of the 200 preflight. They cannot be expressed as a `Server.Request`, which carries an already parsed body, so `Server.Serve` and `Server.ProductionHeaders` cover only requests whose body parses.
- Express setup, static file serving, the `/api/portfolio` constant document, the `*` single-page fallback and `app.listen`: framework plumbing and I/O; requests that reach them after the middleware end as `Server.Handled.Elsewhere`.
- A provider call that never settles: the `fetch` is made without a timeout or abort signal, so a provider that never answers leaves the chat request unanswered, which is neither a fallback reply nor a 500. `Chat.Upstream` assumes every call settles.
- Middleware.Cors: `res.sendStatus(200)` also writes the body "OK" and a content type; only the status is modelled.
- Logging, the submission timestamp and the process-level `uncaughtException`/`unhandledRejection` handlers: side effects only.
- Text.Lower: only ASCII letters are mapped; the full Unicode case mapping of `toLowerCase` (including mappings that change the length) is not modelled.
- Server.Serve: paths are compared after ASCII lower-casing with an optional trailing slash, which is how Express matches routes by default; percent-encoding and query strings are not modelled.
