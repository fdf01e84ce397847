# App Store Connect auto-inviter: a Dafny model of its provisioning pipeline

The program invites throwaway testers to a TestFlight beta group. Each
pipeline run takes a disposable email address and looks the tester up. It
creates the tester if the lookup finds none, then enrols the new tester into
the group. Finally it fetches the tester's invitation URL and appends an
`{email, link}` record to `g.invitation_links`. Every App Store Connect call goes
through `api_request`. That function mints a fifteen-minute ES256 token and
then makes up to three HTTP attempts, sleeping `2 ** attempt` seconds between
failed attempts.

This project models that decision logic and proves its properties:

- `token.dfy` (module `Token`): the claims and header of the token. `exp`
  is the truncated timestamp fifteen minutes ahead.
- `client.dfy` (module `Client`): `api_request` as a method with a `while`
  loop. It records a ghost trace of attempts, each with its bearer token, and
  of sleeps. The loop is proved against a recursive specification, and
  lemmas derive its closed form from that specification: the attempt bound,
  the sleep schedule, the first-success return, the immediate bail-out on an
  unexpected exception, and the equal treatment of HTTP and transport errors.
- `registration.dfy` (module `Registration`): `check_tester_exists`,
  `add_tester_to_group` and `get_invitation_link` as functions over the
  responses to their calls. They follow Python semantics, including the
  exceptions raised by subscripts on bodies of an unexpected shape.
  `add_tester_to_group` also returns the list of calls it issued; the
  link-fetch call is recorded by `Worker.InviteOutcome`.
- `worker.dfy` (module `Worker`): the rule that decides whether one run
  appends nothing or exactly one record, and what that record holds. It also
  has `invite_worker` as a module-level method that takes a `ResultStore`
  object and modifies it; the store's list only grows at its end.
- `control.dfy` (module `Control`): the worker-count clamp and the form
  defaults of the start command.
- `pyjson.dfy` and `wrappers.dfy`: parsed JSON bodies with Python
  truthiness and subscripting, `Option`, and `Py<T>`. A `Py<T>` value is
  either a returned value or a raised exception.

Remote calls are oracles. For `api_request`, `outcome(k)` says how attempt
`k` ends: a status below 400 with a parsed body, an `HTTPError`, another
`RequestException`, or any other exception. For the higher steps, each
response is the value `api_request` returned for that call. Python's `None`
is `Null` in the model, because a missing response and a JSON `null` body
behave identically in every caller.

A 204 No Content answer has an empty body, so `response.json()` raises on
it. Depending on the `requests` version, that exception is either a
`RequestException`, which is retried, or an unexpected one. Either way
`api_request` returns `None`. `add_tester_to_group` then takes its
`if not add_response` branch, as written at main.py:144, whatever the
comment on that line says. `Worker.EnrolWithoutBodyRecordsNothing` states
the consequence: the tester now exists remotely, but the run records
nothing.

## Model

| member | source | states |
|---|---|---|
| `Token.TruncSeconds` | main.py:53 | `int()` of the timestamp truncates toward zero: the result brackets the time to within one second, from below for times after the epoch and from above before it |
| `Token.ExpiryAt` | main.py:51-53 | `exp` is strictly later than the minting time, at most fifteen minutes ahead once it is after the epoch, and within one second of the fifteen-minute mark |
| `Token.CreateJwt` | main.py:49-60 | a token exists exactly when signing succeeds; it carries the fixed issuer, the `appstoreconnect-v1` audience, the `ES256`/`kid`/`JWT` header and the signature produced, and exactly the expiry `ExpiryAt` gives for the minting time |
| `Client.AttemptsFrom` | main.py:73-91 | the loop from attempt `k`: nothing when `k >= retries`; otherwise it starts with attempt `k`, never ends on a sleep, and a non-None value is the body of some success at or after `k` |
| `Client.RequestSpec` | main.py:66-91 | a whole call: no token or `retries <= 0` gives None and no event; otherwise attempt 0 with the call's token comes first, the call ends on an attempt, and a non-None value is the body of a successful attempt |
| `Client.FirstStop` | main.py:73-90 | the first attempt at or after `k` that ends the loop by itself (success or unexpected exception); every attempt before it failed with a retryable error; it is `retries` when all of them fail |
| `Client.AttemptCount` | main.py:73-91 | the number of HTTP attempts is 0 when `retries <= 0` and between 1 and `retries` otherwise; every attempt but the last failed with a retryable error; when fewer than `retries` are made, the last one did not fail retryably |
| `Client.ApiRequest` | main.py:62-91 | the loop returns exactly the value and trace of the specification; without a token, or with `retries <= 0`, it returns None and makes no attempt |
| `Client.AttemptsFromClosedForm` | main.py:73-91 | from attempt `k`, the loop makes the attempts up to the first stopping one, with a sleep of `backoff^j` after each failed attempt `j`, and returns the stopping attempt's body or None |
| `Client.RequestClosedForm` | main.py:62-91 | a whole call: no token means no attempt and None; otherwise `AttemptCount` attempts numbered 0, 1, … alternate with sleeps `backoff^0`, `backoff^1`, …, and the body of the stopping success (or None) is returned |
| `Client.SleepsFollowFailures` | main.py:78-87 | every sleep comes right after a retryable failure of an attempt `j < retries-1`, lasts `backoff^j` seconds and is followed by attempt `j+1`; no sleep follows the last attempt |
| `Client.AttemptsBounded` | main.py:66-75 | every attempt carries the one token minted for the call; attempts are numbered in order, and each number is below `retries` |
| `Client.FirstSuccessWins` | main.py:73-77 | the first success after retryable failures is returned, and it is the last event of the call |
| `Client.UnexpectedStopsAtOnce` | main.py:88-90 | an unexpected exception returns None at once: no further attempt and no sleep after it |
| `Client.AllFailuresReturnNone` | main.py:78-87 | when every attempt fails retryably, all `retries` attempts are made with sleeps between them, and None is returned |
| `Client.ErrorsHandledAlike` | main.py:78-87 | HTTP errors and transport errors are interchangeable: oracles that differ only in which one they report give the same result and trace |
| `Client.DefaultPolicy` | main.py:62 | with the defaults, a call that keeps failing sleeps 1 s, then 2 s, and stops after its third attempt |
| `Registration.CheckTesterExists` | main.py:106-112 | returns the id of the first tester listed under `data`; returns None when the response is missing or `data` is missing or empty; a non-None result is always that listed id; it raises exactly when a truthy body is not an object, a truthy `data` is not a list, or the first entry has no `id` |
| `Registration.AddTesterToGroup` | main.py:114-149 | the calls are always a lookup, then at most one create, then at most one enrol, never anything else; an existing tester is returned with no create or enrol; a create is issued exactly when no tester was found; a failed create (no body, or `'data' in` false) gives None and no enrol; a create body without a readable `data.id` raises and no enrol follows; an enrol is issued only after a create whose id was read; an exception escapes exactly from a malformed lookup or create body; after a successful create, one enrol of the new id follows, and the id is returned only if the enrol response is truthy |
| `Registration.CreateWithoutIdStops` | main.py:134-137 | a create answering `{"data": {}}` passes the `'data' in` test, then reading `data.id` raises: no enrol is issued and no id is returned |
| `Registration.GetInvitationLink` | main.py:151-159 | returns `data.attributes.inviteUrl` when it is present and truthy; returns None when the body, `data`, `attributes` or `inviteUrl` is missing or falsy; a non-None result is always that URL; it raises exactly when the body, its `data` or `data.attributes` is truthy but not an object |
| `Worker.InviteOutcome` | main.py:161-180 | with no email, no record and no calls; a record is appended exactly when an email was allocated, the tester was registered, and reading the link did not raise; the record holds that email and either the URL or `Error: Could not retrieve link`; the link is fetched for the registered id |
| `Worker.ResultStore.constructor` | main.py:173-174 | the list of records starts empty |
| `Worker.ResultStore.Append` | main.py:177 | appending adds the record at the end and changes nothing else |
| `Worker.InviteWorker` | main.py:161-180 | one run leaves the store's earlier records untouched and appends exactly the record `InviteOutcome` decides, if any |
| `Worker.NewTesterRecorded` | main.py:163-177 | lookup lists nobody, create gives `T1`, enrol answers, detail carries the URL: the calls are lookup, create, enrol, fetch, and the record `{a@x.com, URL}` is appended |
| `Worker.EnrolWithoutBodyRecordsNothing` | main.py:141-146 | when the enrol call yields None (as a 204 does), the tester has been created but nothing is appended |
| `Worker.ExistingTesterSkipsCreate` | main.py:116-119 | when the lookup lists `T2`, only the lookup and the link fetch for `T2` are issued |
| `Control.ClampThreads` | main.py:210 | the worker count always lies in [1, 20]; a count already in range is kept, and counts below or above the range become 1 or 20 |
| `Control.StartSettings` | main.py:208-210 | a missing thread count gives 5 and a missing interval gives 60; a given thread count becomes `ClampThreads` of it (kept in [1, 20], 1 below, 20 above) and the interval is taken as given |

## Left out

- HTTP itself (`requests.request`, `requests.get`), JSON decoding and the 15 s and 10 s timeouts. Each attempt's outcome is an oracle input, and the URL, method and JSON body of a request only reach the model as the `Call` records.
- ES256 signing through `jwt.encode`: a foreign crypto library. The signature is an `Option<string>` input, where None stands for an exception while signing.
- Wall-clock time: it is an input in integer microseconds. The float rounding inside `timestamp()` is not modelled.
- `time.sleep`: sleeps are recorded in the ghost trace, not performed. `Client.ApiRequest` takes the backoff factor as a `nat`, since a negative sleep length makes `time.sleep` raise.
- `create_temp_email` (main.py:93-104): network allocation. Its result is the `email` input of `Worker.InviteOutcome`, where a falsy value stands for None.
- `run_invites` (main.py:182-190): an endless loop over a thread pool, with a 60 s wait and an interval sleep. It is about concurrency and timing, so rounds, timeouts and concurrent appends are not modelled.
- Flask routes, the `authenticate` decorator, `render_template`, the `/status` handler and the app-context storage in `flask.g`. The store is one shared sequence because `get_status` (main.py:215-221) reads the same `g.invitation_links` that the workers append to, so the program means to keep one list.
- `Worker.ResultStore`: does not model that each `invite_worker` opens a new application context (main.py:172) whose `g` has no `invitation_links` yet. In the program every run therefore appends to a fresh list that is discarded when the `with` block ends, and `/status` answers `[]`.
- The `headers` argument of `api_request` (main.py:64-71): `Authorization` is written into a caller-supplied dict in place, an aliasing effect not modelled; no caller passes `headers`.
- Loading the private key, and `exit(1)` when it is missing (main.py:36-46). Logging is not modelled either.
- JSON numbers are integers only. Python's `1 == True` and float equality do not arise in the membership tests modelled here.
