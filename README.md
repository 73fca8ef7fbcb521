# node-hostname-proxy: routing decision and port-status table

A model, in Dafny, of the core of `app.js` in node-hostname-proxy. This is a
reverse proxy, something like Apache virtual hosts. It maps each request's
`Host` header to a local backend port, or redirects it to another domain. It
keeps a table of the last status code seen for each backend port, and it
probes a port again before giving up on it.

- `js_values.dfy` (module `JsValues`): the JavaScript values the table stores
  (the initial `0`, HTTP status numbers, error-code strings, `undefined`). It
  also holds JavaScript truthiness, the loose `!= 'ECONNREFUSED'` test, and
  `res.statusCode || res.code`.
- `port_status.dfy` (module `PortStatus`): the `portStatus` table.
  - The seeding loop is a method with a loop, `InitialStatus`.
  - A probe completion is a single-entry overwrite, `Recorded`.
  - Racing completions are a sequence of such overwrites applied in arrival
    order, `Applied`, so the last write wins.
  - `isAlive` is `IsAlive`.
- `router.dfy` (module `Router`): the request handler's if/else chain.
  - `Decide` returns `Redirect(location) | NotFound | Route(port) | Verify(port)`.
  - The verify callback is `AfterVerify`, a function of the fresh code alone.
  - `Outcome` is the terminal outcome of a request.
  - The class `HostProxy` holds the configuration and the mutable table. Its
    methods are the startup seeding (constructor), `checkPort` with its
    completion (`CheckPort`), `checkPorts` (`CheckPorts`, one sweep) and the
    handler (`HandleRequest`).

Ports are naturals, and `0` stands for a missing or falsy port. A missing
redirect reads as `""`, which is also falsy. A probe's answer is an input
(`ProbeReply`): the HTTP response or the error object that `http.get` hands
to the completion handler.

Liveness is exactly what `isAlive` tests: a port counts as down only when its
stored code is the string `"ECONNREFUSED"`. So the seeded `0`, any HTTP
status, any other error code and a missing entry all count as alive, and a
freshly seeded proxy routes a configured host without a probe.
`StartupRoutesWithoutProbe` and `SeededPortsAreAlive` state this.

## Model

| member | source | states |
|---|---|---|
| `JsValues.Truthy` | app.js:37 | falsy are exactly `undefined`, `0` and `""`, the values that make `||` and the `if (domain)`/`if (!port)` tests fall through |
| `JsValues.IsRefused` | app.js:47 | under loose `!=`, only the string "ECONNREFUSED" matches: no number and not `undefined` |
| `PortStatus.Lookup` | app.js:47 | reading `portStatus[port]` gives the stored entry, or `undefined` for a port without one |
| `PortStatus.IsAlive` | app.js:46-49 | alive implies a non-zero port; a non-zero port is alive when it has no entry or any entry but ECONNREFUSED (the seeded 0, any HTTP status, any other error code); a stored ECONNREFUSED makes it not alive |
| `PortStatus.PortsOf` | app.js:38 | helper: unpacks the set of ports a sequence of completions touches (each completion's port is in it, and only those) |
| `PortStatus.Applied` | app.js:38 | completions arriving in sequence only overwrite or add entries: no key is ever removed |
| `Router.PortFor` | app.js:74 | `config.hostnames[host]`: the configured port, or 0 (falsy) for an unknown host |
| `Router.RedirectFor` | app.js:75 | `config.redirects[host]`: the configured domain, or "" (falsy) for a host without one |
| `PortStatus.InitialStatus` | app.js:19-23 | the seeded table has exactly the ports that some hostname maps to as keys, each with the value 0 |
| `Router.HostProxy.constructor` | app.js:19-23 | at startup the proxy keeps the configuration; its table has one entry 0 per configured port and no other entry |
| `JsValues.CompletionCode` | app.js:37 | the stored code is the status code or the error code, never a mix; both halves of `||`: a truthy status code is stored, otherwise the error code (even when that is `undefined`); the code is truthy iff one of the two fields is |
| `JsValues.ResponseIsNeverRefused` | app.js:37-38 | any HTTP response, whatever its status, is stored as that number and never reads as refused |
| `JsValues.FailureStoresErrorCode` | app.js:37-38 | a failed probe stores its error code; it reads as refused exactly for ECONNREFUSED |
| `PortStatus.Recorded` | app.js:36-38 | a completion sets the probed port's entry to the completion code, adds no other key, and leaves every other entry unchanged |
| `Router.HostProxy.CheckPort` | app.js:35-44 | a completion overwrites that port's entry (and only it) and hands the callback the same code; the key set is unchanged for a known port; the every-configured-port-has-an-entry invariant is kept |
| `Router.HostProxy.CheckPorts` | app.js:29-33 | one sweep probes every port of the table exactly once (as multisets, the probes equal the key set) and changes nothing |
| `PortStatus.AppliedKeys` | app.js:36-38 | after any sequence of completions the keys are the old keys plus the probed ports; completions for known ports keep the key set |
| `PortStatus.LastCompletionWins` | app.js:36-38 | last write wins: the last completion for a port decides its entry, whatever completed before it |
| `PortStatus.UntouchedPortKeepsEntry` | app.js:36-38 | a port that no completion touches keeps its entry, or its lack of one |
| `PortStatus.EntryIsSomeCompletion` | app.js:36-38 | racing completions never corrupt an entry: it is the previous value or the code of one completion for that port |
| `PortStatus.SweepRefreshesEveryPort` | app.js:29-41 | when a sweep's probes all complete, in any order, each port holds its own probe's code and the key set is unchanged |
| `PortStatus.SeededPortsAreAlive` | app.js:46-49 | right after seeding, every non-zero configured port is alive (0 is not ECONNREFUSED) |
| `PortStatus.AliveAfterCompletion` | app.js:46-49 | after a completion, the probed non-zero port is alive iff the new code is not ECONNREFUSED; every other port keeps its liveness |
| `PortStatus.AliveAfterRace` | app.js:35-49 | after racing completions, a port's liveness is decided by the last completion for it |
| `Router.Location` | app.js:65-68 | the Location header is "http://", then the domain, then the request URL unchanged |
| `Router.Decide` | app.js:74-96 | a routed or verified port is the host's configured non-zero port; a redirect goes to the configured domain, keeping the URL |
| `Router.AfterVerify` | app.js:85-93 | the verify callback either routes to the port or answers 404, and answers 404 iff the fresh code is ECONNREFUSED |
| `Router.Outcome` | app.js:74-96 | provided the verifying probe answers exactly once, a request ends as redirect, 404 or route, never half-way in verify; a routed port is the host's configured non-zero port |
| `Router.DecisionBranches` | app.js:77-96 | exactly one branch is taken, in order: redirect iff a truthy domain; 404 iff no domain and no port; route iff no domain and the port is alive; verify iff no domain and the port is non-zero and not alive |
| `Router.RedirectTakesPrecedence` | app.js:74-79 | a truthy redirect gives the same 301 to "http://" + domain + url whatever the port mapping and whatever the table |
| `Router.UnmappedHostIsNotFound` | app.js:80-82 | with no redirect and no port the answer is 404 whatever the table, and no probe answer changes it |
| `Router.AliveRoutesDirectly` | app.js:94-95 | a port that is alive is routed to at once, whatever a probe would answer |
| `Router.DownIsVerified` | app.js:83-93 | a port that is not alive is probed again; the fresh code alone decides: route unless ECONNREFUSED, else 404 |
| `Router.DecisionReadsOnlyOwnPort` | app.js:74-96 | the decision reads the table only through the liveness of the host's own port |
| `Router.VerifyAgreesWithTable` | app.js:83-93 | on the verify branch the request is routed iff the code its probe stored makes the port alive |
| `Router.NextRequestAfterVerify` | app.js:83-93 | with no completion in between, the next request for the host routes directly after a verified route, and probes again after a verified 404 |
| `Router.StartupRoutesWithoutProbe` | app.js:46-49 | for any configuration, on a freshly seeded table a host with no redirect and a non-zero port is routed without a probe |
| `Router.RefusedPortIsVerifiedThenNotFound` | app.js:83-93 | after a refused probe of port 3000, a request for a.com verifies; a refused answer gives 404 and an HTTP 200 routes to 3000 |
| `Router.RedirectKeepsPathAndQuery` | app.js:65-68 | www.a.com redirected to a.com with URL /x?y=1 goes to http://a.com/x?y=1 |
| `Router.HostProxy.HandleRequest` | app.js:74-96 | the handler's outcome is `Outcome` on the table as it was. It probes exactly once, the host's port, on the verify branch (and records that answer). On every other branch it probes nothing and leaves the table unchanged. A host's non-zero port always has an entry, before and after, so `isAlive` never reads a missing entry for it |

## Left out

- HandleRequest: assumes the verifying probe answers exactly once. The `http.get` at app.js:43 has no timeout, so a backend that accepts the connection and never replies leaves the request pending forever; that is not modelled. The handler is registered for both the response and the error, so it can fire twice for one probe (a response, then an error). On the table side each firing is one more `CheckPort` step; the second answer that the callback would send to the same request is not modelled.
- The HTTP listener on port 80, `httpProxy.createServer` and `proxy.proxyRequest`: foreign transport. "Route" is only a decision value.
- The HTTP probe `http.get`: network I/O. Its answer is the `ProbeReply` parameter.
- `setInterval(checkPorts, 5*60*1000)` and the startup call of `checkPorts`: timer plumbing. `CheckPorts` is one sweep, and its completions are `CheckPort` steps or an `Applied` sequence.
- Concurrency of callbacks: racing completions are a sequence of single-entry overwrites in arrival order (`Applied`). `HandleRequest` applies its own probe's completion at once. Other completions that arrive while it waits are further `CheckPort` steps, and they do not affect its outcome, which depends on the fresh code alone.
- Response writing (`writeHead`, `write`, `end`) and the 404 body text: only the status (301, 404) and the Location string are modelled.
- `console.log` output.
- Loading `./config`: `hostnames` and `redirects` are given maps of ports and domain strings.
- JavaScript key stringification and `parseInt`: ports are naturals, and a missing or zero port is falsy. A request without a Host header (which JavaScript looks up under the key "undefined") and inherited object keys such as "constructor" are not modelled.
