/** The retry loop around an HTTP client: crates/talon-backend/src/retry.rs. Durations are
    whole nanoseconds. The inner client, its answers and the time they take are arbitrary,
    and so is every random draw. */
module Retry {
  import opened Text
  import opened Http

  const NANOS_PER_SEC := 1_000_000_000
  const NANOS_PER_MILLI := 1_000_000
  /** `Duration::MAX`, where saturating arithmetic stops. */
  const DURATION_MAX := U64_MAX * NANOS_PER_SEC + 999_999_999

  datatype Response = Response(status: nat, headers: Headers)

  type Outcome = Result<Response, string>

  datatype Config = Config(maxRetries: nat, baseDelay: nat, maxDelay: nat, timeoutFloor: nat, minThroughput: u64)
  {
    /** Every delay is a `Duration`, and the largest leaves its count of milliseconds room
        for one more. */
    predicate Valid() {
      && baseDelay <= DURATION_MAX && timeoutFloor <= DURATION_MAX
      && maxDelay / NANOS_PER_MILLI < U64_MAX
    }
  }

  // ----- classification --------------------------------------------------

  predicate RetryableStatus(status: nat) {
    status in {408, 429, 500, 502, 503, 504}
  }

  predicate Conditional(headers: Headers) {
    || Header(headers, "if-match").Some?
    || Header(headers, "if-none-match").Some?
    || Header(headers, "x-goog-if-generation-match").Some?
  }

  /** A body stands for "mutates": a conditional mutation is not sent again. */
  predicate RetryableRequest(r: Request) {
    r.body == [] || !Conditional(r.headers)
  }

  /** Transport errors, timeouts and the transient statuses. */
  predicate Transient(o: Outcome) {
    o.Err? || RetryableStatus(o.value.status)
  }

  function ParseRetryAfter(value: string): Option<nat> {
    match ParseU64(Trim(value))
    case None => None
    case Some(seconds) => Some(seconds * NANOS_PER_SEC)
  }

  function HintOf(o: Outcome): Option<nat> {
    if o.Ok? && (o.value.status == 429 || o.value.status == 503) then
      match Header(o.value.headers, "retry-after")
      case None => None
      case Some(value) => ParseRetryAfter(value)
    else None
  }

  function StatusOf(o: Outcome): Option<nat> {
    if o.Ok? then Some(o.value.status) else None
  }

  // ----- deadlines and delays --------------------------------------------

  function AttemptTimeout(c: Config, bytes: nat): nat {
    if c.minThroughput == 0 then c.timeoutFloor
    else Min(c.timeoutFloor + bytes / c.minThroughput * NANOS_PER_SEC, DURATION_MAX)
  }

  function Pow2(n: nat): nat {
    if n == 0 then 1 else 2 * Pow2(n - 1)
  }

  function Window(c: Config, attempt: nat): nat {
    Min(Min(c.baseDelay * Pow2(Min(attempt, 16)), DURATION_MAX), c.maxDelay)
  }

  /** `backoff_delay` for one draw of the generator. */
  function BackoffDelay(c: Config, attempt: nat, retryAfter: Option<nat>, draw: u64): nat {
    if retryAfter.Some? then Min(retryAfter.value, c.maxDelay)
    else
      var windowMs := Window(c, attempt) / NANOS_PER_MILLI;
      if windowMs == 0 then 0 else draw % (windowMs + 1) * NANOS_PER_MILLI
  }

  lemma WholeMillis(ms: nat, window: nat, draw: nat)
    requires ms == window / NANOS_PER_MILLI
    ensures draw % (ms + 1) * NANOS_PER_MILLI <= window
  {
    assert draw % (ms + 1) <= ms;
  }

  /** A wait never exceeds the cap; without a hint it stays in the exponential window, and
      a hint is obeyed up to the cap. Every whole millisecond of the window can be drawn. */
  lemma BackoffIsBounded(c: Config, attempt: nat, hint: Option<nat>, draw: u64)
    ensures var d := BackoffDelay(c, attempt, hint, draw);
            && d <= c.maxDelay
            && (hint.None? ==> d <= c.baseDelay * Pow2(Min(attempt, 16)))
            && (hint.Some? ==> d == Min(hint.value, c.maxDelay))
  {
    WholeMillis(Window(c, attempt) / NANOS_PER_MILLI, Window(c, attempt), draw);
  }

  /** A `Retry-After` in seconds decides the wait after 429 and 503, up to the cap, and
      has no say after any other outcome; nor has one that is not a number. */
  lemma RetryAfterIsObeyed(c: Config, attempt: nat, headers: Headers, text: string, seconds: u64, status: nat,
                           draw: u64)
    requires Header(headers, "retry-after") == Some(text)
    ensures var o: Outcome := Ok(Response(status, headers));
            && ((status == 429 || status == 503) && Trim(text) == PrintNat(seconds) ==>
                  BackoffDelay(c, attempt, HintOf(o), draw) == Min(seconds * 1_000_000_000, c.maxDelay))
            && (status != 429 && status != 503 ==> HintOf(o).None?)
            && (ParseU64(Trim(text)).None? ==> HintOf(o).None?)
  {
    hide Header, PrintNat, ParseU64, Trim;
    ParsePrinted(seconds);
  }

  lemma WindowReaches(c: Config, attempt: nat, ms: nat)
    requires c.Valid() && ms * 1_000_000 <= c.baseDelay * Pow2(Min(attempt, 16)) && ms * 1_000_000 <= c.maxDelay
    ensures ms * NANOS_PER_MILLI <= Window(c, attempt)
  {
  }

  lemma PowersOfTwo(n: nat)
    ensures Pow2(0) == 1 && Pow2(n + 1) == 2 * Pow2(n) && Pow2(16) == 65536
  {
    assert Pow2(4) == 16;
    assert Pow2(8) == 256;
    assert Pow2(12) == 4096;
  }

  /** Full jitter: every whole millisecond up to the cap and the base doubled once for each
      attempt, but at most sixteen times, is the wait for some draw. */
  lemma EveryMilliIsDrawn(c: Config, attempt: nat, ms: u64)
    requires c.Valid() && ms * 1_000_000 <= c.baseDelay * Pow2(Min(attempt, 16)) && ms * 1_000_000 <= c.maxDelay
    ensures BackoffDelay(c, attempt, None, ms) == ms * 1_000_000
  {
    var windowMs := Window(c, attempt) / NANOS_PER_MILLI;
    WindowReaches(c, attempt, ms);
    hide Window;
    assert ms <= windowMs;
    if windowMs != 0 {
      SmallMod(ms, windowMs + 1);
    }
  }

  lemma SmallMod(x: nat, m: nat)
    requires x < m
    ensures x % m == x
  {
  }

  // ----- the loop --------------------------------------------------------

  /** One call of the inner client and how long it would take. */
  datatype Attempt = Attempt(result: Outcome, took: nat)

  const TIMED_OUT := "request timed out"

  /** What the deadline leaves of an attempt. */
  function Bounded(a: Attempt, timeout: nat): Outcome {
    if a.took <= timeout then a.result else Err(TIMED_OUT)
  }

  function Spent(a: Attempt, timeout: nat): nat {
    Min(a.took, timeout)
  }

  /** Whether the loop goes on after the outcome of an attempt. */
  predicate GoesOn(maxRetries: nat, retryable: bool, attempt: nat, o: Outcome) {
    Transient(o) && retryable && attempt < maxRetries
  }

  /** The attempt at which the loop stops, given all outcomes it would see. */
  function LastAttempt(maxRetries: nat, retryable: bool, outcomes: nat -> Outcome, attempt: nat): nat
    decreases maxRetries - attempt
  {
    if GoesOn(maxRetries, retryable, attempt, outcomes(attempt))
    then LastAttempt(maxRetries, retryable, outcomes, attempt + 1)
    else attempt
  }

  lemma {:induction false} LastAttemptIs(maxRetries: nat, retryable: bool, outcomes: nat -> Outcome, from: nat, k: nat)
    requires from <= k && !GoesOn(maxRetries, retryable, k, outcomes(k))
    requires forall i :: from <= i < k ==> GoesOn(maxRetries, retryable, i, outcomes(i))
    ensures LastAttempt(maxRetries, retryable, outcomes, from) == k
    decreases k - from
  {
    hide GoesOn;
    if from == k {
    } else {
      LastAttemptIs(maxRetries, retryable, outcomes, from + 1, k);
    }
  }

  /** The outcomes of all attempts under their deadline. */
  function Outcomes(inner: nat -> Attempt, timeout: nat): nat -> Outcome {
    (i: nat) => Bounded(inner(i), timeout)
  }

  datatype Notice = Notice(attempt: nat, status: Option<nat>)

  function Sum(xs: seq<nat>): nat {
    if xs == [] then 0 else Sum(xs[..|xs| - 1]) + xs[|xs| - 1]
  }

  /** The time that the first `n` attempts take under their deadline. */
  function TotalSpent(inner: nat -> Attempt, timeout: nat, n: nat): nat {
    if n == 0 then 0 else TotalSpent(inner, timeout, n - 1) + Spent(inner(n - 1), timeout)
  }

  lemma {:induction false} SpentIsBounded(inner: nat -> Attempt, timeout: nat, n: nat)
    ensures TotalSpent(inner, timeout, n) <= n * timeout
  {
    hide Spent;
    if n == 0 {
    } else {
      SpentIsBounded(inner, timeout, n - 1);
      assert Spent(inner(n - 1), timeout) <= timeout by { SpentOnce(inner(n - 1), timeout); }
      assert n * timeout == (n - 1) * timeout + timeout;
    }
  }

  lemma SpentOnce(a: Attempt, timeout: nat)
    ensures Spent(a, timeout) <= timeout
  {
  }

  lemma SumAppend(xs: seq<nat>, x: nat)
    ensures Sum(xs + [x]) == Sum(xs) + x
  {
    assert (xs + [x])[..|xs|] == xs;
  }

  lemma {:induction false} SumBounded(xs: seq<nat>, most: nat)
    requires forall i :: 0 <= i < |xs| ==> xs[i] <= most
    ensures Sum(xs) <= |xs| * most
  {
    if xs == [] {
    } else {
      SumBounded(xs[..|xs| - 1], most);
    }
  }

  /** What has happened when the loop is about to make attempt number `n`. */
  ghost predicate Progress(c: Config, r: Request, inner: nat -> Attempt, draws: nat -> u64, n: nat,
                           notices: seq<Notice>, waits: seq<nat>, elapsed: nat)
  {
    var timeout := AttemptTimeout(c, ExpectedTransferBytes(r));
    && n <= c.maxRetries && |notices| == n && |waits| == n
    && (n > 0 ==> RetryableRequest(r))
    && (forall i :: 0 <= i < n ==> Transient(Bounded(inner(i), timeout)))
    && (forall i :: 0 <= i < n ==> notices[i] == Notice(i, StatusOf(Bounded(inner(i), timeout))))
    && (forall i :: 0 <= i < n ==> waits[i] == BackoffDelay(c, i, HintOf(Bounded(inner(i), timeout)), draws(i)))
    && elapsed == TotalSpent(inner, timeout, n) + Sum(waits)
  }

  lemma Progressed(c: Config, r: Request, inner: nat -> Attempt, draws: nat -> u64, n: nat,
                   notices: seq<Notice>, waits: seq<nat>, elapsed: nat)
    requires Progress(c, r, inner, draws, n, notices, waits, elapsed)
    requires n < c.maxRetries && RetryableRequest(r)
    requires Transient(Bounded(inner(n), AttemptTimeout(c, ExpectedTransferBytes(r))))
    ensures var timeout := AttemptTimeout(c, ExpectedTransferBytes(r));
            var o := Bounded(inner(n), timeout);
            var wait := BackoffDelay(c, n, HintOf(o), draws(n));
            Progress(c, r, inner, draws, n + 1, notices + [Notice(n, StatusOf(o))], waits + [wait],
                     elapsed + Spent(inner(n), timeout) + wait)
  {
    hide AttemptTimeout, ExpectedTransferBytes, Transient, Bounded, RetryableRequest, HintOf, StatusOf, BackoffDelay,
      Sum;
    var timeout := AttemptTimeout(c, ExpectedTransferBytes(r));
    SumAppend(waits, BackoffDelay(c, n, HintOf(Bounded(inner(n), timeout)), draws(n)));
  }

  /** The waits together stay within `maxRetries` times the cap. */
  lemma WaitsAreBounded(c: Config, r: Request, inner: nat -> Attempt, draws: nat -> u64, n: nat,
                        notices: seq<Notice>, waits: seq<nat>, elapsed: nat)
    requires Progress(c, r, inner, draws, n, notices, waits, elapsed)
    ensures Sum(waits) <= c.maxRetries * c.maxDelay
  {
    hide AttemptTimeout, ExpectedTransferBytes, Transient, Bounded, RetryableRequest, HintOf, StatusOf, BackoffDelay,
      Sum;
    var timeout := AttemptTimeout(c, ExpectedTransferBytes(r));
    forall i | 0 <= i < n ensures waits[i] <= c.maxDelay {
      BackoffIsBounded(c, i, HintOf(Bounded(inner(i), timeout)), draws(i));
    }
    SumBounded(waits, c.maxDelay);
    Products(n, c.maxRetries, c.maxDelay);
  }

  /** All that a run of the loop has done when it returns after `calls` attempts. */
  ghost predicate Completed(c: Config, r: Request, inner: nat -> Attempt, draws: nat -> u64, calls: nat,
                            notices: seq<Notice>, waits: seq<nat>, elapsed: nat)
    requires 1 <= calls
  {
    var timeout := AttemptTimeout(c, ExpectedTransferBytes(r));
    && calls == 1 + LastAttempt(c.maxRetries, RetryableRequest(r), Outcomes(inner, timeout), 0)
    && calls <= c.maxRetries + 1 && |notices| == |waits| == calls - 1
    && (calls > 1 ==> RetryableRequest(r))
    && (forall i :: 0 <= i < calls - 1 ==> Transient(Bounded(inner(i), timeout)))
    && (forall i :: 0 <= i < calls - 1 ==> notices[i] == Notice(i, StatusOf(Bounded(inner(i), timeout))))
    && (forall i :: 0 <= i < calls - 1 ==>
          waits[i] == BackoffDelay(c, i, HintOf(Bounded(inner(i), timeout)), draws(i)))
    && elapsed == TotalSpent(inner, timeout, calls) + Sum(waits)
    && elapsed <= calls * timeout + Sum(waits) <= (c.maxRetries + 1) * timeout + c.maxRetries * c.maxDelay
  }

  lemma Completes(c: Config, r: Request, inner: nat -> Attempt, draws: nat -> u64, n: nat,
                  notices: seq<Notice>, waits: seq<nat>, elapsed: nat)
    requires Progress(c, r, inner, draws, n, notices, waits, elapsed)
    requires var timeout := AttemptTimeout(c, ExpectedTransferBytes(r));
             !GoesOn(c.maxRetries, RetryableRequest(r), n, Bounded(inner(n), timeout))
    ensures var timeout := AttemptTimeout(c, ExpectedTransferBytes(r));
            Completed(c, r, inner, draws, n + 1, notices, waits, elapsed + Spent(inner(n), timeout))
  {
    hide AttemptTimeout, ExpectedTransferBytes, Transient, Bounded, RetryableRequest, HintOf, StatusOf, BackoffDelay,
      Sum, Spent;
    var timeout := AttemptTimeout(c, ExpectedTransferBytes(r));
    LastAttemptIs(c.maxRetries, RetryableRequest(r), Outcomes(inner, timeout), 0, n);
    WaitsAreBounded(c, r, inner, draws, n, notices, waits, elapsed);
    SpentIsBounded(inner, timeout, n + 1);
    Products(n + 1, c.maxRetries + 1, timeout);
  }

  /** `execute`. It makes at most one attempt more than the retries allowed, goes on only
      after transient outcomes of requests it may send again, stops only where it must,
      returns the last outcome as it is, announces each retry once, and takes no longer
      than its deadlines and waits. */
  method Execute(c: Config, r: Request, inner: nat -> Attempt, draws: nat -> u64)
    returns (result: Outcome, calls: nat, notices: seq<Notice>, waits: seq<nat>, elapsed: nat)
    ensures 1 <= calls && Completed(c, r, inner, draws, calls, notices, waits, elapsed)
    ensures result == Bounded(inner(calls - 1), AttemptTimeout(c, ExpectedTransferBytes(r)))
    ensures Transient(result) && RetryableRequest(r) ==> calls == c.maxRetries + 1
    ensures RetryableRequest(r) && calls <= c.maxRetries ==>
              && inner(calls - 1).took <= AttemptTimeout(c, ExpectedTransferBytes(r))
              && result.Ok? && result.value.status !in {408, 429, 500, 502, 503, 504}
    ensures forall i :: 0 <= i < calls - 1 ==>
              || inner(i).took > AttemptTimeout(c, ExpectedTransferBytes(r))
              || inner(i).result.Err? || inner(i).result.value.status in {408, 429, 500, 502, 503, 504}
    ensures calls > 1 ==> RetryableRequest(r)
  {
    hide AttemptTimeout, ExpectedTransferBytes, HintOf, StatusOf, BackoffDelay, Sum, RetryableStatus, Conditional,
      Progress, Completed, RetryableRequest, Bounded, Transient;
    var retryable := RetryableRequest(r);
    var timeout := AttemptTimeout(c, ExpectedTransferBytes(r));
    var attempt := 0;
    notices, waits, elapsed := [], [], 0;
    Begins(c, r, inner, draws);
    while true
      invariant 0 <= attempt <= c.maxRetries && Progress(c, r, inner, draws, attempt, notices, waits, elapsed)
      decreases c.maxRetries - attempt
    {
      var a := inner(attempt);
      result := Bounded(a, timeout);
      var shouldRetry := Transient(result);
      var exhausted := attempt >= c.maxRetries;
      if !shouldRetry || !retryable || exhausted {
        Completes(c, r, inner, draws, attempt, notices, waits, elapsed);
        calls := attempt + 1;
        elapsed := elapsed + Spent(a, timeout);
        StopMeans(c, r, inner, draws, calls, notices, waits, elapsed);
        OutcomeMeans(a, timeout);
        return;
      }
      Progressed(c, r, inner, draws, attempt, notices, waits, elapsed);
      var delay := BackoffDelay(c, attempt, HintOf(result), draws(attempt));
      notices := notices + [Notice(attempt, StatusOf(result))];
      waits := waits + [delay];
      elapsed := elapsed + Spent(a, timeout) + delay;
      attempt := attempt + 1;
    }
  }

  /** Which outcomes are transient: a missed deadline, an error, and six statuses. Within
      its deadline an attempt counts as it is, takes its time, and has its status announced. */
  lemma OutcomeMeans(a: Attempt, timeout: nat)
    ensures Transient(Bounded(a, timeout)) <==>
              a.took > timeout || a.result.Err? || a.result.value.status in {408, 429, 500, 502, 503, 504}
    ensures a.took <= timeout ==> Bounded(a, timeout) == a.result && Spent(a, timeout) == a.took
    ensures a.took > timeout ==> Bounded(a, timeout).Err? && Spent(a, timeout) == timeout
    ensures StatusOf(a.result) == if a.result.Ok? then Some(a.result.value.status) else None
  {
  }

  lemma StopMeans(c: Config, r: Request, inner: nat -> Attempt, draws: nat -> u64, calls: nat,
                  notices: seq<Notice>, waits: seq<nat>, elapsed: nat)
    requires 1 <= calls && Completed(c, r, inner, draws, calls, notices, waits, elapsed)
    ensures calls > 1 ==> RetryableRequest(r)
    ensures forall i :: 0 <= i < calls - 1 ==>
              || inner(i).took > AttemptTimeout(c, ExpectedTransferBytes(r))
              || inner(i).result.Err? || inner(i).result.value.status in {408, 429, 500, 502, 503, 504}
  {
    hide AttemptTimeout, ExpectedTransferBytes, Transient, Bounded, RetryableRequest, HintOf, StatusOf, BackoffDelay,
      Sum;
    var timeout := AttemptTimeout(c, ExpectedTransferBytes(r));
    forall i | 0 <= i < calls - 1
      ensures || inner(i).took > timeout || inner(i).result.Err?
              || inner(i).result.value.status in {408, 429, 500, 502, 503, 504}
    {
      OutcomeMeans(inner(i), timeout);
    }
  }

  /** A request is repeated exactly if it has no body or no header, in any ASCII case, that
      states a precondition. */
  lemma RepeatableExactly(r: Request)
    ensures RetryableRequest(r) <==>
              || r.body == []
              || forall i :: 0 <= i < |r.headers| ==>
                   && !EqualIgnoringCase(r.headers[i].0, "if-match")
                   && !EqualIgnoringCase(r.headers[i].0, "if-none-match")
                   && !EqualIgnoringCase(r.headers[i].0, "x-goog-if-generation-match")
  {
    hide Header, EqualIgnoringCase;
    HeaderIsFirst(r.headers, "if-match", 0);
    HeaderIsFirst(r.headers, "if-none-match", 0);
    HeaderIsFirst(r.headers, "x-goog-if-generation-match", 0);
  }

  lemma Begins(c: Config, r: Request, inner: nat -> Attempt, draws: nat -> u64)
    ensures Progress(c, r, inner, draws, 0, [], [], 0)
  {
    hide AttemptTimeout, ExpectedTransferBytes;
  }

  lemma Products(a: nat, b: nat, x: nat)
    requires a <= b
    ensures a * x <= b * x
  {
  }

  /** A deadline is the floor and, for every whole second that the transfer takes at the
      slowest tolerated rate, one second more, as far as a `Duration` goes. */
  lemma DeadlineScales(c: Config, bytes: nat, seconds: nat)
    requires c.Valid()
    ensures c.timeoutFloor <= AttemptTimeout(c, bytes) <= DURATION_MAX
    ensures c.minThroughput != 0 && c.minThroughput * seconds <= bytes ==>
              AttemptTimeout(c, bytes) >= Min(c.timeoutFloor + seconds * 1_000_000_000, DURATION_MAX)
    ensures c.minThroughput != 0 && bytes < c.minThroughput * (seconds + 1) ==>
              AttemptTimeout(c, bytes) <= c.timeoutFloor + seconds * 1_000_000_000
    ensures c.minThroughput == 0 ==> AttemptTimeout(c, bytes) == c.timeoutFloor
  {
    hide AttemptTimeout;
    if c.minThroughput == 0 {
      FloorOnly(c, bytes);
    } else {
      var whole := WholeSeconds(c, bytes);
      if c.minThroughput * seconds <= bytes {
        QuotientAtLeast(bytes, c.minThroughput, seconds);
      }
      if bytes < c.minThroughput * (seconds + 1) {
        QuotientAtMost(bytes, c.minThroughput, seconds);
      }
    }
  }

  lemma FloorOnly(c: Config, bytes: nat)
    requires c.minThroughput == 0
    ensures AttemptTimeout(c, bytes) == c.timeoutFloor
  {
  }

  lemma WholeSeconds(c: Config, bytes: nat) returns (whole: nat)
    requires c.minThroughput != 0
    ensures whole == bytes / c.minThroughput
    ensures AttemptTimeout(c, bytes) == Min(c.timeoutFloor + whole * 1_000_000_000, DURATION_MAX)
  {
    whole := bytes / c.minThroughput;
  }

  lemma QuotientAtMost(a: nat, d: nat, q: nat)
    requires d != 0 && a < d * (q + 1)
    ensures a / d <= q
  {
    if q < a / d {
      Products(q + 1, a / d, d);
    }
  }

  lemma QuotientAtLeast(a: nat, d: nat, q: nat)
    requires d != 0 && d * q <= a
    ensures q <= a / d
  {
    if a / d < q {
      Products(a / d + 1, q, d);
    }
  }
}
