/** api_request: one token per call, then up to `retries` HTTP attempts with
    exponential backoff between failed attempts. The network is an oracle:
    `outcome(k)` is how attempt k ends. Sleeps are recorded, not performed. */
module Client {
  import opened Wrappers
  import opened PyJson
  import opened Token

  const DefaultRetries: int := 3
  const DefaultBackoff: nat := 2

  /** How one `requests.request` attempt ends: a status below 400 with its
      parsed body,
      an HTTPError from raise_for_status, another RequestException
      (connection, timeout, ...), or any other exception. */
  datatype Attempt =
    | Success(body: Json)
    | HttpError(status: int)
    | TransportError
    | Unexpected

  /** The two failures the loop retries; they are handled alike. */
  predicate Retryable(a: Attempt) {
    a.HttpError? || a.TransportError?
  }

  /** What a call does, in order: attempt k with the bearer token, or a sleep. */
  datatype Event = Attempted(index: nat, bearer: Jwt) | Slept(seconds: nat)

  /** The value api_request returns (Null for None) and the events it caused. */
  datatype Reply = Reply(body: Json, trace: seq<Event>)

  function Pow(b: nat, k: nat): nat {
    if k == 0 then 1 else b * Pow(b, k - 1)
  }

  /** The attempt loop, from attempt k on, as a function of the oracle. */
  function AttemptsFrom(bearer: Jwt, k: nat, retries: int, backoff: nat, outcome: nat -> Attempt): (r: Reply)
    decreases retries - k
    ensures retries <= k ==> r == Reply(Null, [])
    // the loop starts with attempt k and never ends on a sleep
    ensures k < retries ==> r.trace != [] && r.trace[0] == Attempted(k, bearer)
                            && r.trace[|r.trace| - 1].Attempted?
    // a value other than None is the body of some success at or after k
    ensures r.body != Null ==> exists j :: k <= j < retries && outcome(j) == Success(r.body)
  {
    if retries <= k then Reply(Null, [])
    else
      var a := outcome(k);
      if !Retryable(a) then
        Reply(if a.Success? then a.body else Null, [Attempted(k, bearer)])
      else if k == retries - 1 then
        Reply(Null, [Attempted(k, bearer)])
      else
        var rest := AttemptsFrom(bearer, k + 1, retries, backoff, outcome);
        Reply(rest.body, [Attempted(k, bearer), Slept(Pow(backoff, k))] + rest.trace)
  }

  /** A whole api_request call given the token create_jwt produced. */
  function RequestSpec(token: Option<Jwt>, retries: int, backoff: nat, outcome: nat -> Attempt): (r: Reply)
    // no token, or no attempt allowed: None and nothing issued
    ensures token.None? || retries <= 0 ==> r == Reply(Null, [])
    // otherwise attempt 0, made with the call's token, comes first and the
    // call ends on an attempt, not on a sleep
    ensures token.Some? && retries > 0 ==>
              r.trace != [] && r.trace[0] == Attempted(0, token.value) && r.trace[|r.trace| - 1].Attempted?
    // a value other than None is the body of some successful attempt
    ensures r.body != Null ==> exists j :: 0 <= j < retries && outcome(j) == Success(r.body)
  {
    match token
    case None => Reply(Null, [])
    case Some(bearer) => AttemptsFrom(bearer, 0, retries, backoff, outcome)
  }

  /** The first attempt at or after k that ends the loop by itself (a success
      or an unexpected exception); `retries` when every remaining attempt
      fails with a retryable error. */
  function FirstStop(k: nat, retries: int, outcome: nat -> Attempt): (s: nat)
    decreases retries - k
    ensures k <= s
    ensures retries <= k ==> s == k
    ensures k < retries ==> s <= retries
    ensures forall j :: k <= j < s ==> Retryable(outcome(j))
    ensures s < retries ==> !Retryable(outcome(s))
  {
    if retries <= k || !Retryable(outcome(k)) then k else FirstStop(k + 1, retries, outcome)
  }

  /** Number of HTTP attempts a call with a token makes. */
  function AttemptCount(retries: int, outcome: nat -> Attempt): (n: nat)
    ensures retries <= 0 ==> n == 0
    ensures retries > 0 ==> 1 <= n <= retries
    ensures forall j :: 0 <= j < n - 1 ==> Retryable(outcome(j))
    ensures 0 < n < retries ==> !Retryable(outcome(n - 1))
  {
    if retries <= 0 then 0
    else
      var s := FirstStop(0, retries, outcome);
      if s < retries then s + 1 else retries
  }

  /** The value returned: the body of the attempt that stopped the loop if
      it was a success, None otherwise. */
  function StopBody(retries: int, outcome: nat -> Attempt): Json {
    var s := FirstStop(0, retries, outcome);
    if s < retries && outcome(s).Success? then outcome(s).body else Null
  }

  /** m attempts numbered from k, each but the last followed by its sleep:
      event 2i is attempt k+i, event 2i+1 is a sleep of backoff^(k+i). */
  function Schedule(bearer: Jwt, k: nat, m: nat, backoff: nat): seq<Event> {
    if m == 0 then []
    else seq(2 * m - 1, i requires 0 <= i < 2 * m - 1 =>
               if i % 2 == 0 then Attempted(k + i / 2, bearer) else Slept(Pow(backoff, k + i / 2)))
  }

  lemma ScheduleStep(bearer: Jwt, k: nat, m: nat, backoff: nat)
    requires m >= 2
    ensures Schedule(bearer, k, m, backoff)
            == [Attempted(k, bearer), Slept(Pow(backoff, k))] + Schedule(bearer, k + 1, m - 1, backoff)
  {
    var lhs := Schedule(bearer, k, m, backoff);
    var rhs := [Attempted(k, bearer), Slept(Pow(backoff, k))] + Schedule(bearer, k + 1, m - 1, backoff);
    assert |lhs| == |rhs|;
    forall i | 2 <= i < |lhs| ensures lhs[i] == rhs[i] {
      assert rhs[i] == Schedule(bearer, k + 1, m - 1, backoff)[i - 2];
      assert (i - 2) / 2 == i / 2 - 1 && (i - 2) % 2 == i % 2;
    }
  }

  /** The loop from attempt k, in closed form. */
  lemma {:induction false} AttemptsFromClosedForm(bearer: Jwt, k: nat, retries: int, backoff: nat, outcome: nat -> Attempt)
    requires k < retries
    ensures var s := FirstStop(k, retries, outcome);
            AttemptsFrom(bearer, k, retries, backoff, outcome)
            == Reply(if s < retries && outcome(s).Success? then outcome(s).body else Null,
                     Schedule(bearer, k, if s < retries then s - k + 1 else retries - k, backoff))
    decreases retries - k
  {
    var a := outcome(k);
    if !Retryable(a) {
      assert Schedule(bearer, k, 1, backoff) == [Attempted(k, bearer)];
    } else if k == retries - 1 {
      assert FirstStop(k, retries, outcome) == retries;
      assert Schedule(bearer, k, 1, backoff) == [Attempted(k, bearer)];
    } else {
      AttemptsFromClosedForm(bearer, k + 1, retries, backoff, outcome);
      var s := FirstStop(k, retries, outcome);
      assert s == FirstStop(k + 1, retries, outcome);
      ScheduleStep(bearer, k, if s < retries then s - k + 1 else retries - k, backoff);
    }
  }

  /** A call's whole behaviour: with no token nothing is attempted and None
      is returned; otherwise exactly AttemptCount attempts are made, numbered
      0, 1, ..., separated by sleeps of backoff^0, backoff^1, ..., and the
      stopping attempt's body (or None) is returned. */
  lemma RequestClosedForm(token: Option<Jwt>, retries: int, backoff: nat, outcome: nat -> Attempt)
    ensures RequestSpec(token, retries, backoff, outcome)
            == if token.None? then Reply(Null, [])
               else Reply(StopBody(retries, outcome),
                          Schedule(token.value, 0, AttemptCount(retries, outcome), backoff))
  {
    if token.Some? && retries > 0 {
      AttemptsFromClosedForm(token.value, 0, retries, backoff, outcome);
    }
  }

  /** Every sleep follows a retryable failure of an attempt j that was not
      the last one allowed, lasts backoff^j seconds and is followed by
      attempt j+1: in particular no sleep comes after the last attempt. */
  lemma SleepsFollowFailures(token: Option<Jwt>, retries: int, backoff: nat, outcome: nat -> Attempt, i: nat)
    requires i < |RequestSpec(token, retries, backoff, outcome).trace|
    requires RequestSpec(token, retries, backoff, outcome).trace[i].Slept?
    ensures var t := RequestSpec(token, retries, backoff, outcome).trace;
            0 < i < |t| - 1 && t[i - 1].Attempted? && t[i + 1].Attempted?
            && t[i + 1].index == t[i - 1].index + 1
            && t[i - 1].index < retries - 1
            && Retryable(outcome(t[i - 1].index))
            && t[i].seconds == Pow(backoff, t[i - 1].index)
  {
    RequestClosedForm(token, retries, backoff, outcome);
    var t := RequestSpec(token, retries, backoff, outcome).trace;
    var n := AttemptCount(retries, outcome);
    assert i % 2 == 1;
    assert t[i - 1] == Attempted((i - 1) / 2, token.value);
    assert t[i + 1] == Attempted((i + 1) / 2, token.value);
  }

  /** Every attempt carries the call's one token, attempts are numbered in
      order, and there are at most `retries` of them (none if retries <= 0). */
  lemma AttemptsBounded(token: Option<Jwt>, retries: int, backoff: nat, outcome: nat -> Attempt, i: nat)
    requires i < |RequestSpec(token, retries, backoff, outcome).trace|
    requires RequestSpec(token, retries, backoff, outcome).trace[i].Attempted?
    ensures var e := RequestSpec(token, retries, backoff, outcome).trace[i];
            token == Some(e.bearer) && e.index == i / 2 && e.index < retries
  {
    RequestClosedForm(token, retries, backoff, outcome);
  }

  /** The first success, preceded only by retryable failures, is returned
      and ends the call. */
  lemma FirstSuccessWins(bearer: Jwt, retries: int, backoff: nat, outcome: nat -> Attempt, k: nat)
    requires k < retries && outcome(k).Success?
    requires forall j :: 0 <= j < k ==> Retryable(outcome(j))
    ensures var r := RequestSpec(Some(bearer), retries, backoff, outcome);
            r.body == outcome(k).body && |r.trace| == 2 * k + 1 && r.trace[2 * k] == Attempted(k, bearer)
  {
    RequestClosedForm(Some(bearer), retries, backoff, outcome);
    FirstStopIs(retries, outcome, k);
  }

  /** An unexpected exception ends the call at once with None: no further
      attempt and no sleep. */
  lemma UnexpectedStopsAtOnce(bearer: Jwt, retries: int, backoff: nat, outcome: nat -> Attempt, k: nat)
    requires k < retries && outcome(k).Unexpected?
    requires forall j :: 0 <= j < k ==> Retryable(outcome(j))
    ensures var r := RequestSpec(Some(bearer), retries, backoff, outcome);
            r.body == Null && |r.trace| == 2 * k + 1 && r.trace[2 * k] == Attempted(k, bearer)
  {
    RequestClosedForm(Some(bearer), retries, backoff, outcome);
    FirstStopIs(retries, outcome, k);
  }

  lemma FirstStopIs(retries: int, outcome: nat -> Attempt, k: nat)
    requires k < retries && !Retryable(outcome(k))
    requires forall j :: 0 <= j < k ==> Retryable(outcome(j))
    ensures FirstStop(0, retries, outcome) == k
  {
  }

  /** When every allowed attempt fails with a retryable error the call
      makes all `retries` attempts, sleeps between them and returns None. */
  lemma AllFailuresReturnNone(bearer: Jwt, retries: int, backoff: nat, outcome: nat -> Attempt)
    requires retries > 0
    requires forall j :: 0 <= j < retries ==> Retryable(outcome(j))
    ensures var r := RequestSpec(Some(bearer), retries, backoff, outcome);
            r.body == Null && r.trace == Schedule(bearer, 0, retries, backoff)
  {
    RequestClosedForm(Some(bearer), retries, backoff, outcome);
  }

  /** HTTP errors and transport errors are handled identically: two oracles
      that differ only in which retryable failure they report give the same
      call behaviour. */
  lemma {:induction false} ErrorsHandledAlike(token: Option<Jwt>, retries: int, backoff: nat,
                                               o1: nat -> Attempt, o2: nat -> Attempt)
    requires forall j :: o1(j) == o2(j) || (Retryable(o1(j)) && Retryable(o2(j)))
    ensures RequestSpec(token, retries, backoff, o1) == RequestSpec(token, retries, backoff, o2)
  {
    if token.Some? {
      SameFailuresFrom(token.value, 0, retries, backoff, o1, o2);
    }
  }

  lemma {:induction false} SameFailuresFrom(bearer: Jwt, k: nat, retries: int, backoff: nat,
                                            o1: nat -> Attempt, o2: nat -> Attempt)
    requires forall j :: o1(j) == o2(j) || (Retryable(o1(j)) && Retryable(o2(j)))
    ensures AttemptsFrom(bearer, k, retries, backoff, o1) == AttemptsFrom(bearer, k, retries, backoff, o2)
    decreases retries - k
  {
    if k < retries - 1 && Retryable(o1(k)) {
      SameFailuresFrom(bearer, k + 1, retries, backoff, o1, o2);
    }
  }

  /** With the defaults (3 attempts, factor 2) a call that keeps failing
      sleeps 1 s, then 2 s, and never after its third attempt. */
  lemma DefaultPolicy(bearer: Jwt, outcome: nat -> Attempt)
    requires forall j :: 0 <= j < DefaultRetries ==> Retryable(outcome(j))
    ensures RequestSpec(Some(bearer), DefaultRetries, DefaultBackoff, outcome)
            == Reply(Null, [Attempted(0, bearer), Slept(1), Attempted(1, bearer), Slept(2), Attempted(2, bearer)])
  {
    AllFailuresReturnNone(bearer, DefaultRetries, DefaultBackoff, outcome);
    var t := Schedule(bearer, 0, 3, DefaultBackoff);
    assert Pow(2, 1) == 2;
    assert t == [Attempted(0, bearer), Slept(1), Attempted(1, bearer), Slept(2), Attempted(2, bearer)];
  }

  /** `rest`, preceded by the events already recorded. */
  function Prepend(done: seq<Event>, rest: Reply): Reply {
    Reply(rest.body, done + rest.trace)
  }

  /** One failed attempt that is not the last: the loop records it and its
      sleep, then carries on from the next attempt. */
  lemma RetryStep(bearer: Jwt, k: nat, retries: int, backoff: nat, outcome: nat -> Attempt, done: seq<Event>)
    requires k < retries - 1 && Retryable(outcome(k))
    ensures Prepend(done, AttemptsFrom(bearer, k, retries, backoff, outcome))
            == Prepend(done + [Attempted(k, bearer), Slept(Pow(backoff, k))],
                       AttemptsFrom(bearer, k + 1, retries, backoff, outcome))
  {
    var rest := AttemptsFrom(bearer, k + 1, retries, backoff, outcome);
    assert done + ([Attempted(k, bearer), Slept(Pow(backoff, k))] + rest.trace)
           == (done + [Attempted(k, bearer), Slept(Pow(backoff, k))]) + rest.trace;
  }

  /** The attempt that ends the loop (a success, an unexpected exception, or
      a failure of the last allowed attempt) is recorded with no sleep. */
  lemma StopStep(bearer: Jwt, k: nat, retries: int, backoff: nat, outcome: nat -> Attempt, done: seq<Event>)
    requires k < retries && (!Retryable(outcome(k)) || k == retries - 1)
    ensures Prepend(done, AttemptsFrom(bearer, k, retries, backoff, outcome))
            == Reply(if outcome(k).Success? then outcome(k).body else Null, done + [Attempted(k, bearer)])
  {
  }

  /** api_request(url, method, data, retries, backoff_factor). The request
      itself (URL, method, JSON body, 15 s timeout) is what `outcome`
      answers; `nowMicros` and `signature` feed create_jwt. */
  method ApiRequest(nowMicros: int, signature: Option<string>, retries: int, backoff: nat, outcome: nat -> Attempt)
    returns (r: Json, ghost trace: seq<Event>)
    ensures r == RequestSpec(CreateJwt(nowMicros, signature), retries, backoff, outcome).body
    ensures trace == RequestSpec(CreateJwt(nowMicros, signature), retries, backoff, outcome).trace
    ensures CreateJwt(nowMicros, signature).None? || retries <= 0 ==> r == Null && trace == []
  {
    trace := [];
    var token := CreateJwt(nowMicros, signature);
    if token.None? {
      return Null, trace;
    }
    var bearer := token.value;
    ghost var spec := AttemptsFrom(bearer, 0, retries, backoff, outcome);
    var attempt: nat := 0;
    while attempt < retries
      invariant retries > 0 ==> attempt <= retries
      invariant spec == Prepend(trace, AttemptsFrom(bearer, attempt, retries, backoff, outcome))
      decreases retries - attempt
    {
      var a := outcome(attempt);
      if !Retryable(a) || attempt == retries - 1 {
        // a success returns its body; an unexpected exception, or a failure
        // of the last attempt, returns None without sleeping
        StopStep(bearer, attempt, retries, backoff, outcome, trace);
        trace := trace + [Attempted(attempt, bearer)];
        r := if a.Success? then a.body else Null;
        return;
      }
      RetryStep(bearer, attempt, retries, backoff, outcome, trace);
      trace := trace + [Attempted(attempt, bearer), Slept(Pow(backoff, attempt))];
      attempt := attempt + 1;
    }
    return Null, trace;
  }
}
