/** When credentials are refreshed and by whom: `RefreshPolicy` and the background loop of
    crates/talon-backend/src/credentials.rs, and `BrokerCredentials` of
    crates/talon-backend/src/broker.rs. Time is one clock, counted in seconds; the calls
    of `prepare` interleave at their awaits and may be dropped at any of them. */
module Refresh {
  import opened Text

  // ----- pacing ----------------------------------------------------------

  datatype Policy = Policy(marginFraction: real, minMargin: real, maxMargin: real,
                           retryInterval: real, unknownExpiryInterval: real)
  {
    /** Durations are not negative, and `clamp` wants its bounds in order. */
    predicate Valid() {
      0.0 <= minMargin <= maxMargin && 0.0 <= retryInterval && 0.0 <= unknownExpiryInterval
    }
  }

  function Clamp(x: real, lo: real, hi: real): real {
    if x < lo then lo else if x > hi then hi else x
  }

  /** How long before its expiry a credential of some lifetime is refreshed. */
  function Margin(p: Policy, lifetime: real): real {
    Clamp(lifetime * Clamp(p.marginFraction, 0.0, 1.0), p.minMargin, p.maxMargin)
  }

  /** `Duration` subtraction stops at zero. */
  function Minus(x: real, y: real): real {
    if x < y then 0.0 else x - y
  }

  function RequestDelay(p: Policy, now: real, expiry: Option<real>): real {
    match expiry
    case None => p.unknownExpiryInterval
    case Some(e) =>
      var lifetime := Minus(e, now);
      Minus(lifetime, Margin(p, lifetime))
  }

  function NextDelay(p: Policy, now: real, expiry: Option<real>): real {
    if expiry.None? then p.unknownExpiryInterval
    else
      var d := RequestDelay(p, now, expiry);
      if d < p.retryInterval then p.retryInterval else d
  }

  lemma Scaled(x: real, y: real, f: real)
    requires 0.0 <= x <= y && 0.0 <= f <= 1.0
    ensures 0.0 <= x * f <= y * f && y * f - x * f <= y - x
  {
    assert (y - x) * f <= (y - x) * 1.0;
    assert (y - x) * f == y * f - x * f;
  }

  lemma Clamped(x: real, y: real, lo: real, hi: real)
    requires x <= y && lo <= hi
    ensures lo <= Clamp(x, lo, hi) <= Clamp(y, lo, hi) <= hi && Clamp(y, lo, hi) - Clamp(x, lo, hi) <= y - x
  {
  }

  /** A longer lifetime has a longer margin, but gains less margin than lifetime. */
  lemma MarginIsGentle(p: Policy, x: real, y: real)
    requires p.Valid() && 0.0 <= x <= y
    ensures 0.0 <= Margin(p, x) <= Margin(p, y) && Margin(p, y) - Margin(p, x) <= y - x
  {
    var f := Clamp(p.marginFraction, 0.0, 1.0);
    assert 0.0 <= f <= 1.0;
    hide Clamp;
    Scaled(x, y, f);
    Clamped(x * f, y * f, p.minMargin, p.maxMargin);
  }

  /** A refresh is due before the credential expires: by the set fraction of its lifetime,
      but by at least the smallest margin if its lifetime allows it and never by more than
      the largest. */
  lemma DueBeforeExpiry(p: Policy, now: real, e: real)
    requires p.Valid()
    ensures var d := RequestDelay(p, now, Some(e));
            && 0.0 <= d
            && (now <= e ==> now + d <= e && e - p.maxMargin <= now + d)
            && (now + p.minMargin <= e ==> now + d <= e - p.minMargin)
            && (e <= now + p.minMargin ==> d == 0.0)
            && RequestDelay(p, now, None) == p.unknownExpiryInterval
            && (now <= e && 0.0 <= p.marginFraction <= 1.0
                && p.minMargin <= (e - now) * p.marginFraction <= p.maxMargin
                ==> now + d == e - (e - now) * p.marginFraction)
  {
    hide Margin;
    var lifetime := Minus(e, now);
    MarginIsGentle(p, lifetime, lifetime);
    MarginIsClamped(p, lifetime);
  }

  lemma MarginIsClamped(p: Policy, lifetime: real)
    requires p.Valid()
    ensures p.minMargin <= Margin(p, lifetime) <= p.maxMargin
    ensures 0.0 <= p.marginFraction <= 1.0 && p.minMargin <= lifetime * p.marginFraction <= p.maxMargin
            ==> Margin(p, lifetime) == lifetime * p.marginFraction
  {
  }

  /** A later expiry is never refreshed earlier, and neither delay of the background loop
      nor due time moves back as the clock moves on. */
  lemma DelaysAreMonotone(p: Policy, now: real, later: real, e: real, f: real)
    requires p.Valid() && now <= later && e <= f
    ensures RequestDelay(p, now, Some(e)) <= RequestDelay(p, now, Some(f))
    ensures NextDelay(p, now, Some(e)) <= NextDelay(p, now, Some(f))
    ensures now + RequestDelay(p, now, Some(e)) <= later + RequestDelay(p, later, Some(e))
    ensures now + NextDelay(p, now, Some(e)) <= later + NextDelay(p, later, Some(e))
    ensures p.retryInterval <= NextDelay(p, now, Some(e))
  {
    LongerLifetime(p, Minus(e, now), Minus(f, now));
    DueMovesOn(p, now, later, e);
  }

  lemma LongerLifetime(p: Policy, x: real, y: real)
    requires p.Valid() && 0.0 <= x <= y
    ensures Minus(x, Margin(p, x)) <= Minus(y, Margin(p, y))
  {
    hide Margin;
    MarginIsGentle(p, x, y);
  }

  lemma DueMovesOn(p: Policy, now: real, later: real, e: real)
    requires p.Valid() && now <= later
    ensures now + RequestDelay(p, now, Some(e)) <= later + RequestDelay(p, later, Some(e))
  {
    hide Margin;
    MarginIsGentle(p, Minus(e, later), Minus(e, now));
  }

  // ----- the first fetch -------------------------------------------------

  const BROKER_INITIAL_ATTEMPTS := 4
  const BROKER_INITIAL_RETRY_DELAY_MS := 100

  function Doubled(n: nat): nat {
    if n == 0 then 1 else 2 * Doubled(n - 1)
  }

  datatype Credential = Credential(value: string, expiry: Option<real>)

  /** `bootstrap`: the first of four fetches to succeed, or the error of the fourth. The
      waits between them double, and together stay within the backoff that callers add to
      their deadlines. */
  method Bootstrap(fetch: nat -> Result<Credential, string>)
    returns (r: Result<Credential, string>, fetches: nat, sleptMs: nat)
    ensures 1 <= fetches <= 4 && r == fetch(fetches - 1)
    ensures forall i :: 0 <= i < fetches - 1 ==> fetch(i).Err?
    ensures r.Err? ==> fetches == 4
    ensures sleptMs == [0, 100, 300, 700][fetches - 1]
  {
    var attempt := 0;
    sleptMs := 0;
    while true
      invariant 0 <= attempt < BROKER_INITIAL_ATTEMPTS
      invariant forall i :: 0 <= i < attempt ==> fetch(i).Err?
      invariant sleptMs == BROKER_INITIAL_RETRY_DELAY_MS * (Doubled(attempt) - 1)
      decreases BROKER_INITIAL_ATTEMPTS - attempt
    {
      r := fetch(attempt);
      DoubledUpTo3(attempt);
      if r.Ok? {
        return r, attempt + 1, sleptMs;
      }
      attempt := attempt + 1;
      if attempt == BROKER_INITIAL_ATTEMPTS {
        return r, attempt, sleptMs;
      }
      sleptMs := sleptMs + BROKER_INITIAL_RETRY_DELAY_MS * Doubled(attempt - 1);
    }
  }

  lemma DoubledUpTo3(n: nat)
    requires n <= 3
    ensures Doubled(n) == [1, 2, 4, 8][n]
  {
    assert Doubled(1) == 2;
    assert Doubled(2) == 4;
  }

  // ----- the background loop ---------------------------------------------

  /** What is installed after the first `n` fetches of the background loop. */
  function LastGood(first: Credential, fetch: nat -> Result<Credential, string>, n: nat): Credential {
    if n == 0 then first
    else
      match fetch(n - 1)
      case Ok(c) => c
      case Err(_) => LastGood(first, fetch, n - 1)
  }

  /** The last success stays in use through any number of failures. */
  lemma {:induction false} LastGoodIsKept(first: Credential, fetch: nat -> Result<Credential, string>, k: nat, n: nat)
    requires k <= n && forall i :: k <= i < n ==> fetch(i).Err?
    ensures LastGood(first, fetch, n) == LastGood(first, fetch, k)
    ensures k > 0 && fetch(k - 1).Ok? ==> LastGood(first, fetch, n) == fetch(k - 1).value
    decreases n
  {
    if k == n {
    } else {
      LastGoodIsKept(first, fetch, k, n - 1);
    }
  }

  /** How long the loop sleeps after a fetch. */
  function DelayAfter(p: Policy, now: real, outcome: Result<Credential, string>): real {
    match outcome
    case Ok(c) => NextDelay(p, now, c.expiry)
    case Err(_) => p.retryInterval
  }

  /** The loop never spins: it sleeps the retry interval after a failure, the interval for
      credentials without expiry after one of those, and otherwise until the credential is
      due, but at least the retry interval. And it wakes before a credential expires, unless
      less than the retry interval is left. */
  lemma SleepsAreBounded(p: Policy, now: real, outcome: Result<Credential, string>)
    requires p.Valid()
    ensures var d := DelayAfter(p, now, outcome);
            && (outcome.Err? ==> d == p.retryInterval)
            && (outcome.Ok? && outcome.value.expiry.None? ==> d == p.unknownExpiryInterval)
            && (outcome.Ok? && outcome.value.expiry.Some? ==>
                  && d >= p.retryInterval && d >= RequestDelay(p, now, outcome.value.expiry)
                  && (d == p.retryInterval || d == RequestDelay(p, now, outcome.value.expiry)))
            && (outcome.Ok? && outcome.value.expiry.Some? && now + p.retryInterval <= outcome.value.expiry.value
                ==> now + d <= outcome.value.expiry.value)
  {
    hide Margin;
    if outcome.Ok? && outcome.value.expiry.Some? {
      DueBeforeExpiry(p, now, outcome.value.expiry.value);
    }
  }

  /** `RefreshingCredentials`: the cells that a background loop keeps up to date. */
  class RefreshingCredentials {
    var current: string
    var expiresAt: Option<real>

    constructor (first: Credential)
      ensures Installed() == first
    {
      current, expiresAt := first.value, first.expiry;
    }

    ghost function Installed(): Credential
      reads this
    {
      Credential(current, expiresAt)
    }

    method Install(value: string, expiry: Option<real>)
      modifies this
      ensures Installed() == Credential(value, expiry)
    {
      current := value;
      expiresAt := expiry;
    }

    /** `n` rounds of `spawn_refresh`; `clock(i)` is the time at which the i-th sleep is
        decided. A failure keeps what is installed. */
    method Refresh(p: Policy, fetch: nat -> Result<Credential, string>, clock: nat -> real, n: nat)
      returns (sleeps: seq<real>)
      modifies this
      ensures Installed() == LastGood(old(Installed()), fetch, n)
      ensures |sleeps| == n + 1 && sleeps[0] == NextDelay(p, clock(0), old(expiresAt))
      ensures forall i :: 0 <= i < n ==> sleeps[i + 1] == DelayAfter(p, clock(i + 1), fetch(i))
    {
      hide NextDelay;
      sleeps := [NextDelay(p, clock(0), expiresAt)];
      for i := 0 to n
        invariant Installed() == LastGood(old(Installed()), fetch, i)
        invariant |sleeps| == i + 1 && sleeps[0] == NextDelay(p, clock(0), old(expiresAt))
        invariant forall j :: 0 <= j < i ==> sleeps[j + 1] == DelayAfter(p, clock(j + 1), fetch(j))
      {
        var delay: real;
        match fetch(i) {
          case Ok(c) =>
            Install(c.value, c.expiry);
            delay := NextDelay(p, clock(i + 1), c.expiry);
          case Err(_) =>
            delay := p.retryInterval;
        }
        sleeps := sleeps + [delay];
      }
    }
  }

  // ----- concurrent `prepare` calls --------------------------------------

  /** What an observer of the fetcher sees: when a fetch starts and what becomes of it. */
  datatype Entry =
    | Started(at: real)
    | Installed(value: string, expiry: Option<real>, at: real)
    | Failed(at: real)
    | Abandoned(at: real)

  datatype Ending =
    | StillFresh
    | Refreshed(checkedAt: real)
    | RefreshFailed

  /** Where a call stands. An ended call remembers when it ended and what credential was
      then in place. */
  datatype Position =
    | Begun
    | Queued
    | Holding
    | Fetching(since: real)
    | Ended(ending: Ending, at: real, credential: Entry)
    | Dropped

  datatype Snapshot = Snapshot(value: string, due: real)

  datatype State = State(policy: Policy, now: real, snapshot: Snapshot, lock: Option<nat>,
                         log: seq<Entry>, calls: seq<Position>)

  /** A broker's answer that parsed: its credential and expiry. */
  datatype Reply = Reply(value: string, expiry: real)

  datatype Event =
    | Tick(seconds: real)
    | Begin
    | FirstCheck(call: nat)
    | Acquire(call: nat)
    | SecondCheck(call: nat)
    | Fetched(call: nat, reply: Option<Reply>, checkedAt: real)
    | Drop(call: nat)

  predicate LogStarts(log: seq<Entry>) {
    log != [] && log[0].Installed?
  }

  /** The last successful fetch. */
  function Latest(log: seq<Entry>): (e: Entry)
    requires LogStarts(log)
    ensures e.Installed? && e in log
  {
    if log[|log| - 1].Installed? then log[|log| - 1] else Latest(log[..|log| - 1])
  }

  function DueOf(p: Policy, e: Entry): real
    requires e.Installed?
  {
    e.at + RequestDelay(p, e.at, e.expiry)
  }

  /** The state that `bootstrap` leaves. */
  function Initial(p: Policy, now: real, c: Credential): State {
    State(p, now, Snapshot(c.value, now + RequestDelay(p, now, c.expiry)), None,
          [Installed(c.value, c.expiry, now)], [])
  }

  function End(s: State, c: nat, ending: Ending): State
    requires c < |s.calls| && LogStarts(s.log)
  {
    s.(calls := s.calls[c := Ended(ending, s.now, Latest(s.log))])
  }

  function FirstCheckStep(s: State, c: nat): State
    requires c < |s.calls| && LogStarts(s.log)
  {
    if !s.calls[c].Begun? then s
    else if s.now < s.snapshot.due then End(s, c, StillFresh)
    else s.(calls := s.calls[c := Queued])
  }

  function AcquireStep(s: State, c: nat): State
    requires c < |s.calls|
  {
    if s.calls[c].Queued? && s.lock.None? then s.(lock := Some(c), calls := s.calls[c := Holding]) else s
  }

  function SecondCheckStep(s: State, c: nat): State
    requires c < |s.calls| && LogStarts(s.log)
  {
    if !s.calls[c].Holding? then s
    else if s.now < s.snapshot.due then End(s, c, StillFresh).(lock := None)
    else s.(log := s.log + [Started(s.now)], calls := s.calls[c := Fetching(s.now)])
  }

  /** `BrokerFetch::exchange` refuses a credential that has expired when it looks. */
  predicate Accepted(reply: Option<Reply>, checkedAt: real) {
    reply.Some? && checkedAt < reply.value.expiry
  }

  function Install(s: State, value: string, expiry: Option<real>): State {
    s.(snapshot := Snapshot(value, s.now + RequestDelay(s.policy, s.now, expiry)),
       log := s.log + [Installed(value, expiry, s.now)])
  }

  function FetchedStep(s: State, c: nat, reply: Option<Reply>, checkedAt: real): State
    requires c < |s.calls| && LogStarts(s.log)
  {
    if !(s.calls[c].Fetching? && s.calls[c].since <= checkedAt <= s.now) then s
    else if Accepted(reply, checkedAt) then
      End(Install(s, reply.value.value, Some(reply.value.expiry)), c, Refreshed(checkedAt)).(lock := None)
    else
      End(s.(log := s.log + [Failed(s.now)]), c, RefreshFailed).(lock := None)
  }

  function DropStep(s: State, c: nat): State
    requires c < |s.calls|
  {
    match s.calls[c]
    case Begun => s.(calls := s.calls[c := Dropped])
    case Queued => s.(calls := s.calls[c := Dropped])
    case Holding => s.(lock := None, calls := s.calls[c := Dropped])
    case Fetching(_) => s.(lock := None, log := s.log + [Abandoned(s.now)], calls := s.calls[c := Dropped])
    case _ => s
  }

  function CallStep(s: State, e: Event, c: nat): State
    requires c < |s.calls| && LogStarts(s.log)
  {
    match e
    case FirstCheck(_) => FirstCheckStep(s, c)
    case Acquire(_) => AcquireStep(s, c)
    case SecondCheck(_) => SecondCheckStep(s, c)
    case Fetched(_, reply, checkedAt) => FetchedStep(s, c, reply, checkedAt)
    case Drop(_) => DropStep(s, c)
    case _ => s
  }

  /** One step of a run; an event that is not enabled changes nothing. */
  function Apply(s: State, e: Event): (t: State)
    requires LogStarts(s.log)
    ensures LogStarts(t.log) && t.policy == s.policy
  {
    match e
    case Tick(seconds) => if 0.0 <= seconds then s.(now := s.now + seconds) else s
    case Begin => s.(calls := s.calls + [Begun])
    case FirstCheck(c) => if c < |s.calls| then CallStep(s, e, c) else s
    case Acquire(c) => if c < |s.calls| then CallStep(s, e, c) else s
    case SecondCheck(c) => if c < |s.calls| then CallStep(s, e, c) else s
    case Fetched(c, _, _) => if c < |s.calls| then CallStep(s, e, c) else s
    case Drop(c) => if c < |s.calls| then CallStep(s, e, c) else s
  }

  // ----- the invariant ---------------------------------------------------

  /** What may come next in the log: a fetch starts when none is in flight and the latest
      credential is due; anything else ends the fetch in flight. */
  predicate Follows(p: Policy, log: seq<Entry>, e: Entry)
    requires LogStarts(log)
  {
    var last := log[|log| - 1];
    if e.Started? then !last.Started? && DueOf(p, Latest(log)) <= e.at
    else last.Started? && last.at <= e.at
  }

  /** Fetches never overlap, and each starts when the credential before it is due. */
  predicate Paced(p: Policy, log: seq<Entry>) {
    LogStarts(log) &&
    (|log| == 1 ||
     (LogStarts(log[..|log| - 1]) && Paced(p, log[..|log| - 1])
      && Follows(p, log[..|log| - 1], log[|log| - 1])))
  }

  predicate LogFits(s: State) {
    && s.policy.Valid() && Paced(s.policy, s.log)
    && s.log[|s.log| - 1].at <= s.now && Latest(s.log).at <= s.now
    && s.snapshot == Snapshot(Latest(s.log).value, DueOf(s.policy, Latest(s.log)))
  }

  predicate Holds(x: Position) {
    x.Holding? || x.Fetching?
  }

  /** Exactly the lock's owner is past it, and a fetch is in the log as in flight exactly
      while its owner is fetching. */
  predicate LockFits(s: State) {
    && (forall c :: 0 <= c < |s.calls| && Holds(s.calls[c]) ==> s.lock == Some(c))
    && (s.lock.Some? ==> s.lock.value < |s.calls| && Holds(s.calls[s.lock.value]))
    && LogStarts(s.log)
    && (s.log[|s.log| - 1].Started? <==>
          s.lock.Some? && s.lock.value < |s.calls|
          && s.calls[s.lock.value] == Fetching(s.log[|s.log| - 1].at))
    && (s.lock.Some? && s.lock.value < |s.calls| && s.calls[s.lock.value].Fetching? ==>
          s.log[|s.log| - 1].Started?)
  }

  predicate ExpiredAt(e: Entry, t: real)
    requires e.Installed?
  {
    e.expiry.Some? && e.expiry.value <= t
  }

  /** What an ended call has shown: it left an expired credential in place only because
      its own fetch failed, or because the credential it installed ran out between the
      broker's check and the installation. */
  predicate CallFits(x: Position) {
    x.Ended? ==>
      && x.credential.Installed?
      && (ExpiredAt(x.credential, x.at) ==>
            || x.ending.RefreshFailed?
            || (x.ending.Refreshed? && x.ending.checkedAt < x.credential.expiry.value <= x.at))
  }

  predicate CallsFit(s: State) {
    forall c :: 0 <= c < |s.calls| ==> CallFits(s.calls[c])
  }

  predicate Inv(s: State) {
    LogFits(s) && LockFits(s) && CallsFit(s)
  }

  // ----- every step keeps it ---------------------------------------------

  /** A credential that is not due has not expired. */
  lemma NotDueIsValid(s: State)
    requires LogFits(s) && s.now < s.snapshot.due
    ensures !ExpiredAt(Latest(s.log), s.now)
  {
    hide Margin;
    var e := Latest(s.log);
    if e.expiry.Some? {
      DueBeforeExpiry(s.policy, e.at, e.expiry.value);
    }
  }

  lemma OneCallFits(s: State, c: nat, x: Position)
    requires CallsFit(s) && c < |s.calls| && CallFits(x)
    ensures CallsFit(s.(calls := s.calls[c := x]))
  {
  }

  lemma TickKeeps(s: State, seconds: real)
    requires Inv(s) && 0.0 <= seconds
    ensures Inv(s.(now := s.now + seconds))
  {
    hide CallFits, Paced, DueOf;
  }

  lemma BeginKeeps(s: State)
    requires Inv(s)
    ensures Inv(s.(calls := s.calls + [Begun]))
  {
    hide Paced, DueOf;
  }

  lemma FirstCheckKeeps(s: State, c: nat)
    requires Inv(s) && c < |s.calls|
    ensures Inv(FirstCheckStep(s, c))
  {
    hide Paced, DueOf, RequestDelay;
    if s.calls[c].Begun? && s.now < s.snapshot.due {
      NotDueIsValid(s);
    }
  }

  lemma AcquireKeeps(s: State, c: nat)
    requires Inv(s) && c < |s.calls|
    ensures Inv(AcquireStep(s, c))
  {
    hide Paced, DueOf, RequestDelay;
  }

  lemma Appended(p: Policy, log: seq<Entry>, e: Entry)
    requires Paced(p, log) && Follows(p, log, e)
    ensures Paced(p, log + [e]) && (log + [e])[|log|] == e
    ensures LogStarts(log + [e]) && Latest(log + [e]) == if e.Installed? then e else Latest(log)
  {
    hide DueOf;
    assert (log + [e])[..|log|] == log;
  }

  /** Nothing but an installation moves the snapshot. */
  lemma LogGoesOn(s: State, e: Entry)
    requires LogFits(s) && Follows(s.policy, s.log, e) && e.at == s.now && !e.Installed?
    ensures LogFits(s.(log := s.log + [e]))
    ensures LogStarts(s.log + [e]) && Latest(s.log + [e]) == Latest(s.log)
  {
    hide Paced, Latest, DueOf, Follows;
    Appended(s.policy, s.log, e);
  }

  lemma InstallFits(s: State, value: string, expiry: Option<real>)
    requires LogFits(s) && s.log[|s.log| - 1].Started?
    ensures LogFits(Install(s, value, expiry))
    ensures Latest(Install(s, value, expiry).log) == Installed(value, expiry, s.now)
  {
    hide Paced, Latest, RequestDelay;
    Appended(s.policy, s.log, Installed(value, expiry, s.now));
  }

  lemma StartFits(s: State)
    requires LogFits(s) && !s.log[|s.log| - 1].Started? && s.snapshot.due <= s.now
    ensures LogFits(s.(log := s.log + [Started(s.now)]))
  {
    hide Paced, Latest, RequestDelay;
    LogGoesOn(s, Started(s.now));
  }

  /** A change of calls and lock does not touch the log. */
  lemma LogStays(s: State, t: State)
    requires LogFits(s) && t == s.(calls := t.calls, lock := t.lock)
    ensures LogFits(t)
  {
    hide Paced, DueOf;
  }

  lemma SecondCheckLock(s: State, c: nat)
    requires LockFits(s) && c < |s.calls|
    ensures LockFits(SecondCheckStep(s, c))
  {
    hide Latest;
  }

  lemma SecondCheckKeeps(s: State, c: nat)
    requires Inv(s) && c < |s.calls|
    ensures Inv(SecondCheckStep(s, c))
  {
    SecondCheckLock(s, c);
    if s.calls[c].Holding? {
      var t := SecondCheckStep(s, c);
      if s.now < s.snapshot.due {
        NotDueIsValid(s);
        hide LogFits, LockFits;
        LogStays(s, t);
        OneCallFits(s, c, t.calls[c]);
      } else {
        assert !s.log[|s.log| - 1].Started?;
        hide LogFits, LockFits;
        StartKeepsLog(s, t);
        OneCallFits(s, c, t.calls[c]);
      }
    }
  }

  lemma StartKeepsLog(s: State, t: State)
    requires LogFits(s) && !s.log[|s.log| - 1].Started? && s.snapshot.due <= s.now
    requires t == s.(log := s.log + [Started(s.now)], calls := t.calls)
    ensures LogFits(t)
  {
    hide LogFits;
    StartFits(s);
    LogStays(s.(log := s.log + [Started(s.now)]), t);
  }

  /** When the fetch of the lock's owner ends, whatever the outcome. */
  lemma ReleaseFits(s: State, t: State, c: nat)
    requires LockFits(s) && c < |s.calls| && s.calls[c].Fetching?
    requires |t.calls| == |s.calls| && t.calls == s.calls[c := t.calls[c]] && !Holds(t.calls[c])
    requires t.lock.None? && LogStarts(t.log) && !t.log[|t.log| - 1].Started?
    ensures LockFits(t)
  {
  }

  /** A fetching call owns the fetch in flight. */
  lemma FetchInFlight(s: State, c: nat)
    requires LockFits(s) && c < |s.calls| && s.calls[c].Fetching?
    ensures s.log[|s.log| - 1] == Started(s.calls[c].since)
  {
  }

  lemma FetchedOk(s: State, c: nat, reply: Reply, checkedAt: real)
    requires Inv(s) && c < |s.calls| && s.calls[c].Fetching?
    requires checkedAt < reply.expiry
    ensures Inv(End(Install(s, reply.value, Some(reply.expiry)), c, Refreshed(checkedAt)).(lock := None))
  {
    var u := Install(s, reply.value, Some(reply.expiry));
    FetchInFlight(s, c);
    InstallFits(s, reply.value, Some(reply.expiry));
    var t := End(u, c, Refreshed(checkedAt)).(lock := None);
    ReleaseFits(s, t, c);
    hide LogFits, LockFits, Install, Latest;
    LogStays(u, t);
    OneCallFits(s, c, t.calls[c]);
  }

  lemma FetchedErr(s: State, c: nat, e: Entry, x: Position)
    requires Inv(s) && c < |s.calls| && s.calls[c].Fetching? && e.at == s.now && (e.Failed? || e.Abandoned?)
    requires CallFits(x) && !Holds(x)
    ensures Inv(s.(log := s.log + [e], calls := s.calls[c := x], lock := None))
  {
    var t := s.(log := s.log + [e], calls := s.calls[c := x], lock := None);
    FetchInFlight(s, c);
    ReleaseFits(s, t, c);
    FailureKeepsLog(s, e);
    hide LogFits, LockFits, Latest, CallFits;
    LogStays(s.(log := s.log + [e]), t);
    OneCallFits(s, c, x);
  }

  lemma FailureKeepsLog(s: State, e: Entry)
    requires LogFits(s) && s.log[|s.log| - 1].Started? && e.at == s.now && (e.Failed? || e.Abandoned?)
    ensures LogFits(s.(log := s.log + [e])) && LogStarts(s.log + [e]) && Latest(s.log + [e]) == Latest(s.log)
  {
    hide Paced, Latest, DueOf;
    LogGoesOn(s, e);
  }

  lemma FetchedKeeps(s: State, c: nat, reply: Option<Reply>, checkedAt: real)
    requires Inv(s) && c < |s.calls|
    ensures Inv(FetchedStep(s, c, reply, checkedAt))
  {
    hide Inv, Install, Latest;
    if s.calls[c].Fetching? && s.calls[c].since <= checkedAt <= s.now {
      if Accepted(reply, checkedAt) {
        FetchedOk(s, c, reply.value, checkedAt);
      } else {
        InFlight(s, c);
        FailureKeepsLog(s, Failed(s.now));
        FetchedErr(s, c, Failed(s.now), Ended(RefreshFailed, s.now, Latest(s.log)));
      }
    }
  }

  lemma InFlight(s: State, c: nat)
    requires Inv(s) && c < |s.calls| && s.calls[c].Fetching?
    ensures LogFits(s) && s.log[|s.log| - 1].Started?
  {
    hide LogFits, CallsFit;
    FetchInFlight(s, c);
  }

  lemma DropKeeps(s: State, c: nat)
    requires Inv(s) && c < |s.calls|
    ensures Inv(DropStep(s, c))
  {
    if s.calls[c].Fetching? {
      FetchedErr(s, c, Abandoned(s.now), Dropped);
    } else {
      hide Paced, DueOf, RequestDelay, CallFits;
      assert CallFits(Dropped) by { DroppedFits(); }
    }
  }

  lemma DroppedFits()
    ensures CallFits(Dropped)
  {
  }

  lemma CallStepKeeps(s: State, e: Event, c: nat)
    requires Inv(s) && c < |s.calls|
    ensures Inv(CallStep(s, e, c))
  {
    hide Inv, FirstCheckStep, AcquireStep, SecondCheckStep, FetchedStep, DropStep;
    match e
    case FirstCheck(_) => FirstCheckKeeps(s, c);
    case Acquire(_) => AcquireKeeps(s, c);
    case SecondCheck(_) => SecondCheckKeeps(s, c);
    case Fetched(_, reply, checkedAt) => FetchedKeeps(s, c, reply, checkedAt);
    case Drop(_) => DropKeeps(s, c);
    case _ =>
  }

  lemma StepKeeps(s: State, e: Event)
    requires Inv(s)
    ensures Inv(Apply(s, e))
  {
    hide Inv, CallStep;
    match e
    case Tick(seconds) =>
      if 0.0 <= seconds {
        TickKeeps(s, seconds);
      }
    case Begin => BeginKeeps(s);
    case _ =>
      if e.call < |s.calls| {
        CallStepKeeps(s, e, e.call);
      }
  }

  lemma InvStarts(s: State)
    requires Inv(s)
    ensures LogStarts(s.log)
  {
  }

  function Run(s: State, events: seq<Event>): (t: State)
    requires LogStarts(s.log)
    ensures LogStarts(t.log) && t.policy == s.policy
    decreases |events|
  {
    if events == [] then s else Run(Apply(s, events[0]), events[1..])
  }

  lemma {:induction false} RunKeeps(s: State, events: seq<Event>)
    requires Inv(s)
    ensures LogStarts(s.log) && Inv(Run(s, events))
    decreases |events|
  {
    hide Inv, Apply;
    InvStarts(s);
    if events == [] {
    } else {
      StepKeeps(s, events[0]);
      RunKeeps(Apply(s, events[0]), events[1..]);
    }
  }

  lemma InitialFits(p: Policy, now: real, c: Credential)
    requires p.Valid()
    ensures Inv(Initial(p, now, c))
  {
    hide RequestDelay;
  }

  /** The state after a run of events that follows `bootstrap`. */
  function Reach(p: Policy, start: real, first: Credential, events: seq<Event>): (t: State)
    ensures LogStarts(t.log) && t.policy == p
  {
    Run(Initial(p, start, first), events)
  }

  lemma ReachedFits(p: Policy, start: real, first: Credential, events: seq<Event>)
    requires p.Valid()
    ensures Inv(Reach(p, start, first, events))
  {
    hide Inv, Run;
    InitialFits(p, start, first);
    RunKeeps(Initial(p, start, first), events);
  }

  // ----- what every run guarantees ---------------------------------------

  /** At most one fetch is in flight, and it started when the credential still in place
      was due: nobody can have replaced it since. */
  lemma FetchesAreExclusive(p: Policy, start: real, first: Credential, events: seq<Event>, c: nat, d: nat)
    requires p.Valid()
    requires var t := Reach(p, start, first, events);
             c < |t.calls| && t.calls[c].Fetching? && d < |t.calls| && t.calls[d].Fetching?
    ensures var t := Reach(p, start, first, events);
            c == d && t.snapshot.due <= t.calls[c].since <= t.now
  {
    hide Reach;
    ReachedFits(p, start, first, events);
    var t := Reach(p, start, first, events);
    FetchInFlight(t, c);
    assert t.lock == Some(c) && t.lock == Some(d);
    InFlightWasDue(t.policy, t.log);
  }

  lemma InFlightWasDue(p: Policy, log: seq<Entry>)
    requires Paced(p, log) && log[|log| - 1].Started?
    ensures DueOf(p, Latest(log)) <= log[|log| - 1].at
  {
    hide DueOf;
  }

  lemma {:induction false} PacedSoFar(p: Policy, log: seq<Entry>, n: nat)
    requires Paced(p, log) && 0 < n < |log|
    ensures LogStarts(log[..n]) && Follows(p, log[..n], log[n])
    decreases |log|
  {
    hide Follows;
    var front := log[..|log| - 1];
    if n < |front| {
      PacedSoFar(p, front, n);
      assert front[..n] == log[..n];
    }
  }

  /** In the log of every run, a fetch starts only when none is in flight and the latest
      credential installed until then is due; and whatever else is logged ends the fetch
      that is in flight. */
  lemma EveryFetchIsPaced(p: Policy, start: real, first: Credential, events: seq<Event>, n: nat)
    requires p.Valid() && 0 < n < |Reach(p, start, first, events).log|
    ensures var log := Reach(p, start, first, events).log;
            && LogStarts(log[..n])
            && (log[n].Started? ==> !log[n - 1].Started? && DueOf(p, Latest(log[..n])) <= log[n].at)
            && (!log[n].Started? ==> log[n - 1].Started? && log[n - 1].at <= log[n].at)
  {
    hide Reach, Paced, Latest, DueOf, LockFits, CallsFit;
    ReachedFits(p, start, first, events);
    PacedSoFar(p, Reach(p, start, first, events).log, n);
  }

  /** Value and due time come from one and the same fetch, the last that succeeded. */
  lemma SnapshotIsOneFetch(p: Policy, start: real, first: Credential, events: seq<Event>)
    requires p.Valid()
    ensures var t := Reach(p, start, first, events);
            && Paced(p, t.log) && Latest(t.log) in t.log
            && t.snapshot.value == Latest(t.log).value
            && t.snapshot.due == DueOf(p, Latest(t.log))
  {
    hide Reach;
    ReachedFits(p, start, first, events);
  }

  /** A call that ends while an expired credential is in place has itself tried and
      failed, unless the credential it installed ran out after the broker's check; so if
      that check and the installation see one time, its own fetch failed. */
  lemma ExpiredMeansFailed(p: Policy, start: real, first: Credential, events: seq<Event>, c: nat)
    requires p.Valid()
    requires var t := Reach(p, start, first, events);
             && c < |t.calls| && t.calls[c].Ended? && t.calls[c].credential.Installed?
             && ExpiredAt(t.calls[c].credential, t.calls[c].at)
    ensures var x := Reach(p, start, first, events).calls[c];
            && (x.ending.RefreshFailed? ||
                (x.ending.Refreshed? && x.ending.checkedAt < x.credential.expiry.value <= x.at))
            && (x.ending.Refreshed? ==> x.ending.checkedAt < x.at)
  {
    hide Reach, LogFits, LockFits;
    ReachedFits(p, start, first, events);
    assert CallFits(Reach(p, start, first, events).calls[c]);
  }

  /** A call that refreshed leaves a valid credential exactly when the broker's expiry is
      still ahead at the installation; the broker's own check came earlier. */
  lemma RefreshedIsValidExactlyWhen(s: State, c: nat, reply: Reply, checkedAt: real)
    requires Inv(s) && c < |s.calls| && s.calls[c].Fetching? && s.calls[c].since <= checkedAt <= s.now
    requires Accepted(Some(reply), checkedAt)
    ensures LogStarts(s.log)
    ensures var x := Apply(s, Fetched(c, Some(reply), checkedAt)).calls[c];
            && x.Ended? && x.ending == Refreshed(checkedAt) && x.credential.Installed?
            && (!ExpiredAt(x.credential, x.at) <==> s.now < reply.expiry)
  {
    hide Paced, RequestDelay, DueOf;
    InvStarts(s);
  }

  /** A run in which it does not: the credential runs out while it is on its way. */
  lemma RefreshedMayBeExpired(p: Policy, was: string, newer: string)
    requires p.Valid()
    ensures var t := Reach(p, 0.0, Credential(was, Some(0.0)),
                           [Begin, FirstCheck(0), Acquire(0), SecondCheck(0), Tick(2.0),
                            Fetched(0, Some(Reply(newer, 1.0)), 0.0)]);
            && |t.calls| == 1 && t.calls[0] == Ended(Refreshed(0.0), 2.0, Installed(newer, Some(1.0), 2.0))
            && ExpiredAt(t.calls[0].credential, t.calls[0].at)
  {
    var s := State(p, 0.0, Snapshot(was, 0.0), None, [Installed(was, Some(0.0), 0.0)], []);
    assert Initial(p, 0.0, Credential(was, Some(0.0))) == s by { DueBeforeExpiry(p, 0.0, 0.0); }
    hide RequestDelay, Apply, Run;
    var arrived := Fetched(0, Some(Reply(newer, 1.0)), 0.0);
    var rest := [Tick(2.0), arrived];
    DueCallFetches(s, rest);
    ExpiresOnItsWay(s, newer, 1.0, 2.0);
    assert [Begin, FirstCheck(0), Acquire(0), SecondCheck(0), Tick(2.0), arrived]
        == [Begin] + ([FirstCheck(0)] + ([Acquire(0)] + ([SecondCheck(0)] + rest)));
  }

  /** The state of a lone call that fetches. */
  function LoneFetch(s: State): State {
    s.(calls := [Fetching(s.now)], lock := Some(0), log := s.log + [Started(s.now)])
  }

  lemma DueCallFetches(s: State, rest: seq<Event>)
    requires LogStarts(s.log) && s.calls == [] && s.lock.None? && s.snapshot.due <= s.now
    ensures Run(s, [Begin] + ([FirstCheck(0)] + ([Acquire(0)] + ([SecondCheck(0)] + rest))))
         == Run(LoneFetch(s), rest)
  {
    hide Run, Latest;
    var s1, s2 := s.(calls := [Begun]), s.(calls := [Queued]);
    var s3 := s.(calls := [Holding], lock := Some(0));
    assert Apply(s, Begin) == s1;
    assert Apply(s1, FirstCheck(0)) == s2;
    assert Apply(s2, Acquire(0)) == s3;
    assert Apply(s3, SecondCheck(0)) == LoneFetch(s);
    hide Apply;
    RunsNext(s, Begin, [FirstCheck(0)] + ([Acquire(0)] + ([SecondCheck(0)] + rest)));
    RunsNext(s1, FirstCheck(0), [Acquire(0)] + ([SecondCheck(0)] + rest));
    RunsNext(s2, Acquire(0), [SecondCheck(0)] + rest);
    RunsNext(s3, SecondCheck(0), rest);
  }

  lemma ExpiresOnItsWay(s: State, newer: string, expiry: real, passed: real)
    requires LogStarts(s.log) && s.calls == [] && s.now < expiry && 0.0 <= passed
    ensures Run(LoneFetch(s), [Tick(passed), Fetched(0, Some(Reply(newer, expiry)), s.now)]).calls
         == [Ended(Refreshed(s.now), s.now + passed, Installed(newer, Some(expiry), s.now + passed))]
  {
    hide Run, RequestDelay;
    var s4 := LoneFetch(s);
    var s5 := s4.(now := s.now + passed);
    var arrived := Fetched(0, Some(Reply(newer, expiry)), s.now);
    assert Apply(s4, Tick(passed)) == s5;
    assert Apply(s5, arrived).calls
        == [Ended(Refreshed(s.now), s5.now, Installed(newer, Some(expiry), s5.now))];
    hide Apply;
    RunsNext(s4, Tick(passed), [arrived]);
    RunsNext(s5, arrived, []);
    RunsNext(Apply(s5, arrived), arrived, []);
    assert [Tick(passed), arrived] == [Tick(passed)] + [arrived];
    assert [arrived] == [arrived] + [];
  }

  lemma RunsNext(s: State, e: Event, rest: seq<Event>)
    requires LogStarts(s.log)
    ensures Run(s, [e] + rest) == Run(Apply(s, e), rest)
    ensures Run(s, []) == s
  {
    hide Apply;
    assert ([e] + rest)[1..] == rest;
  }

  /** The lock is never stranded: whoever holds it can end or be dropped, which frees it
      and leaves the snapshot as it was unless a credential was installed. */
  lemma LockIsReleased(s: State, c: nat, reply: Option<Reply>, checkedAt: real)
    requires Inv(s) && s.lock == Some(c)
    ensures c < |s.calls| && LogStarts(s.log)
    ensures Apply(s, Drop(c)).lock.None? && Apply(s, Drop(c)).snapshot == s.snapshot
    ensures s.calls[c].Holding? && s.now < s.snapshot.due ==> Apply(s, SecondCheck(c)).lock.None?
    ensures s.calls[c].Fetching? && s.calls[c].since <= checkedAt <= s.now ==>
              var t := Apply(s, Fetched(c, reply, checkedAt));
              t.lock.None? && (!Accepted(reply, checkedAt) ==> t.snapshot == s.snapshot)
  {
    hide Paced, Latest, RequestDelay, DueOf;
    InvStarts(s);
  }

  lemma DroppedStays(s: State, e: Event, c: nat)
    requires LogStarts(s.log) && c < |s.calls| && s.calls[c].Dropped?
    ensures var t := Apply(s, e); c < |t.calls| && t.calls[c].Dropped?
  {
    hide Latest, RequestDelay;
  }

  lemma {:induction false} DroppedForGood(s: State, c: nat, events: seq<Event>)
    requires LogStarts(s.log) && c < |s.calls| && s.calls[c].Dropped?
    ensures var t := Run(s, events); c < |t.calls| && t.calls[c].Dropped?
    decreases |events|
  {
    hide Apply;
    if events == [] {
    } else {
      DroppedStays(s, events[0], c);
      DroppedForGood(Apply(s, events[0]), c, events[1..]);
    }
  }

  /** A call that is dropped before it ends never ends, whatever comes; at once it holds
      nothing, and its fetch, if it had one in flight, is abandoned in the log. */
  lemma DroppedIsGone(s: State, c: nat, events: seq<Event>)
    requires Inv(s) && c < |s.calls| && !s.calls[c].Ended?
    ensures LogStarts(s.log)
    ensures var u := Apply(s, Drop(c));
            && u.lock != Some(c) && u.snapshot == s.snapshot
            && u.log == s.log + (if s.calls[c].Fetching? then [Abandoned(s.now)] else [])
    ensures var t := Run(Apply(s, Drop(c)), events); c < |t.calls| && t.calls[c] == Dropped
  {
    hide Run;
    InvStarts(s);
    LockHolds(s, c);
    var u := Apply(s, Drop(c));
    assert c < |u.calls| && u.calls[c].Dropped?;
    hide Inv, Apply;
    DroppedForGood(u, c, events);
  }

  /** After a failed fetch the credential is still due, so the next call fetches at once. */
  lemma FailureIsRetried(s: State, c: nat, d: nat, reply: Option<Reply>, checkedAt: real)
    requires Inv(s) && c < |s.calls| && s.calls[c].Fetching? && s.calls[c].since <= checkedAt <= s.now
    requires !Accepted(reply, checkedAt) && d < |s.calls| && s.calls[d].Queued?
    ensures LogStarts(s.log)
    ensures var t := Apply(s, Fetched(c, reply, checkedAt));
            && t.calls[c].Ended? && t.calls[c].ending.RefreshFailed? && t.snapshot == s.snapshot
            && LogStarts(t.log) && LogStarts(Apply(t, Acquire(d)).log)
            && var u := Apply(Apply(t, Acquire(d)), SecondCheck(d));
               d < |u.calls| && u.calls[d] == Fetching(s.now)
  {
    hide Paced, Latest, RequestDelay, DueOf;
    InvStarts(s);
    StillDue(s, c);
  }

  lemma StillDue(s: State, c: nat)
    requires Inv(s) && c < |s.calls| && s.calls[c].Fetching?
    ensures s.snapshot.due <= s.now
  {
    hide RequestDelay;
    FetchInFlight(s, c);
    InFlightWasDue(s.policy, s.log);
  }

  // ----- the credentials as the code keeps them ---------------------------

  lemma CheckMeans(s: State, c: nat)
    requires Inv(s) && c < |s.calls|
    ensures s.now < s.snapshot.due ==> LogStarts(s.log) && !ExpiredAt(Latest(s.log), s.now)
    ensures s.calls[c].Holding? ==> s.lock == Some(c) && forall d :: 0 <= d < |s.calls| ==> !s.calls[d].Fetching?
  {
    hide Paced, DueOf, CallsFit;
    if s.now < s.snapshot.due {
      NotDueIsValid(s);
    }
  }

  lemma FetchedMeans(s: State, c: nat, reply: Option<Reply>, checkedAt: real)
    requires Inv(s) && c < |s.calls| && s.calls[c].Fetching? && s.calls[c].since <= checkedAt <= s.now
    ensures s.lock == Some(c) && s.snapshot.due <= s.now
    ensures forall d :: 0 <= d < |s.calls| && d != c ==> !s.calls[d].Fetching?
    ensures Accepted(reply, checkedAt) && s.now < reply.value.expiry ==>
              s.now <= s.now + RequestDelay(s.policy, s.now, Some(reply.value.expiry)) <= reply.value.expiry
  {
    hide RequestDelay, Paced, DueOf, CallsFit;
    StillDue(s, c);
    if Accepted(reply, checkedAt) {
      DueBeforeExpiry(s.policy, s.now, reply.value.expiry);
    }
  }

  lemma FetchedApplies(s: State, c: nat, reply: Option<Reply>, checkedAt: real)
    requires LogStarts(s.log) && c < |s.calls|
    ensures Apply(s, Fetched(c, reply, checkedAt)) == FetchedStep(s, c, reply, checkedAt)
  {
    hide FetchedStep;
  }

  lemma LatestInstalled(log: seq<Entry>, e: Entry)
    requires LogStarts(log) && e.Installed?
    ensures LogStarts(log + [e]) && Latest(log + [e]) == e
  {
  }

  /** `BrokerCredentials` with the calls inside `prepare`. Each method is the code between
      two awaits: it performs the event of its name and keeps the credentials valid. */
  class BrokerCredentials {
    const policy: Policy
    var now: real
    var snapshot: Snapshot
    var lock: Option<nat>
    var log: seq<Entry>
    var calls: seq<Position>

    constructor (p: Policy, clock: real, c: Credential)
      requires p.Valid()
      ensures View() == Initial(p, clock, c) && Valid()
    {
      policy, now := p, clock;
      snapshot := Snapshot(c.value, clock + RequestDelay(p, clock, c.expiry));
      lock, log, calls := None, [Installed(c.value, c.expiry, clock)], [];
      InitialFits(p, clock, c);
    }

    ghost function View(): State
      reads this
    {
      State(policy, now, snapshot, lock, log, calls)
    }

    ghost predicate Valid()
      reads this
    {
      LogStarts(log) && Inv(View())
    }

    /** Whether the credential in place has expired. */
    ghost predicate Expired()
      requires Valid()
      reads this
    {
      ExpiredAt(Latest(log), now)
    }

    method Advance(seconds: real)
      requires Valid() && 0.0 <= seconds
      modifies this`now
      ensures Valid() && View() == Apply(old(View()), Tick(seconds)) && now == old(now) + seconds
    {
      hide Inv;
      StepKeeps(View(), Tick(seconds));
      now := now + seconds;
    }

    method Enter() returns (c: nat)
      requires Valid()
      modifies this`calls
      ensures Valid() && View() == Apply(old(View()), Begin)
      ensures c == |old(calls)| && calls == old(calls) + [Begun]
    {
      hide Inv;
      StepKeeps(View(), Begin);
      c := |calls|;
      calls := calls + [Begun];
    }

    /** Before the lock: the call may go on exactly when the credential is not due, and
        then it has not expired. */
    method CheckFirst(c: nat) returns (ready: bool)
      requires Valid() && c < |calls| && calls[c].Begun?
      modifies this`calls
      ensures Valid() && View() == Apply(old(View()), FirstCheck(c))
      ensures ready <==> now < snapshot.due
      ensures ready ==> !Expired()
      ensures c < |calls| && (if ready then calls[c].Ended? else calls[c].Queued?)
    {
      hide Inv;
      StepKeeps(View(), FirstCheck(c));
      CheckMeans(View(), c);
      ready := now < snapshot.due;
      if ready {
        calls := calls[c := Ended(StillFresh, now, Latest(log))];
      } else {
        calls := calls[c := Queued];
      }
    }

    method Lock(c: nat)
      requires Valid() && c < |calls| && calls[c].Queued? && lock.None?
      modifies this`lock, this`calls
      ensures Valid() && View() == Apply(old(View()), Acquire(c))
      ensures lock == Some(c) && c < |calls| && calls[c].Holding?
    {
      hide Inv;
      StepKeeps(View(), Acquire(c));
      lock := Some(c);
      calls := calls[c := Holding];
    }

    /** Under the lock: a call that waited while another refreshed goes on with that
        credential and frees the lock; otherwise it is the only one to fetch. */
    method CheckAgain(c: nat) returns (ready: bool)
      requires Valid() && c < |calls| && calls[c].Holding?
      modifies this`lock, this`log, this`calls
      ensures Valid() && View() == Apply(old(View()), SecondCheck(c))
      ensures ready <==> now < snapshot.due
      ensures ready ==> !Expired() && lock.None? && log == old(log) && c < |calls| && calls[c].Ended?
      ensures !ready ==> && lock == Some(c) && log == old(log) + [Started(now)]
                         && c < |calls| && calls[c] == Fetching(now)
                         && forall d :: 0 <= d < |calls| && calls[d].Fetching? ==> d == c
    {
      hide Inv;
      StepKeeps(View(), SecondCheck(c));
      CheckMeans(View(), c);
      ready := now < snapshot.due;
      if ready {
        lock := None;
        calls := calls[c := Ended(StillFresh, now, Latest(log))];
        return;
      }
      log := log + [Started(now)];
      calls := calls[c := Fetching(now)];
    }

    /** The fetch returns: the lock is free, none is in flight, and either the snapshot is
        the new credential, due before it expires if it has not yet, or it stays as it was
        and due, for the next call to try. */
    method FinishFetch(c: nat, reply: Option<Reply>, checkedAt: real) returns (refreshed: bool)
      requires Valid() && c < |calls| && calls[c].Fetching? && calls[c].since <= checkedAt <= now
      modifies this`snapshot, this`lock, this`log, this`calls
      ensures Valid() && View() == Apply(old(View()), Fetched(c, reply, checkedAt))
      ensures refreshed <==> Accepted(reply, checkedAt)
      ensures lock.None? && forall d :: 0 <= d < |calls| ==> !calls[d].Fetching?
      ensures |log| == |old(log)| + 1 && old(log) <= log && log[|old(log)|].at == now
      ensures refreshed ==> && snapshot.value == reply.value.value && (Expired() <==> reply.value.expiry <= now)
                            && (now < reply.value.expiry ==> now <= snapshot.due <= reply.value.expiry)
      ensures !refreshed ==> snapshot == old(snapshot) && snapshot.due <= now && log[|old(log)|].Failed?
    {
      hide Inv, RequestDelay, Apply, Latest;
      StepKeeps(View(), Fetched(c, reply, checkedAt));
      FetchedMeans(View(), c, reply, checkedAt);
      FetchedApplies(View(), c, reply, checkedAt);
      refreshed := reply.Some? && checkedAt < reply.value.expiry;
      lock := None;
      if refreshed {
        var expiry := Some(reply.value.expiry);
        snapshot := Snapshot(reply.value.value, now + RequestDelay(policy, now, expiry));
        LatestInstalled(log, Installed(reply.value.value, expiry, now));
        log := log + [Installed(reply.value.value, expiry, now)];
        calls := calls[c := Ended(Refreshed(checkedAt), now, Latest(log))];
      } else {
        log := log + [Failed(now)];
        calls := calls[c := Ended(RefreshFailed, now, Latest(log))];
      }
    }

    /** A call is dropped at an await: no other call notices, the snapshot stays, and the
        lock is free if the call had it. */
    method DropCall(c: nat)
      requires Valid() && c < |calls|
      modifies this`lock, this`log, this`calls
      ensures Valid() && View() == Apply(old(View()), Drop(c))
      ensures lock == if old(lock) == Some(c) then None else old(lock)
      ensures calls == old(calls)[c := if old(calls[c].Ended?) then old(calls[c]) else Dropped]
    {
      LockHolds(View(), c);
      hide Inv;
      StepKeeps(View(), Drop(c));
      if calls[c].Ended? || calls[c].Dropped? {
        return;
      }
      if calls[c].Fetching? {
        log := log + [Abandoned(now)];
      }
      if calls[c].Fetching? || calls[c].Holding? {
        lock := None;
      }
      calls := calls[c := Dropped];
    }

    /** `prepare` when nobody else holds the lock; the broker answers after `waited`
        seconds and is checked as the answer arrives. It leaves an expired credential in
        place only if it has asked the broker and was refused or failed. */
    method Prepare(reply: Option<Reply>, waited: real)
      requires Valid() && lock.None? && 0.0 <= waited
      modifies this
      ensures Valid() && lock.None?
      ensures old(now < snapshot.due) ==> !Expired() && now == old(now) && snapshot == old(snapshot) && log == old(log)
      ensures old(snapshot.due <= now) ==>
                && now == old(now) + waited && |log| == |old(log)| + 2 && log[|old(log)|] == Started(old(now))
                && (Expired() ==> !Accepted(reply, now) && snapshot == old(snapshot))
                && (Accepted(reply, now) ==> snapshot.value == reply.value.value)
    {
      hide Inv, Apply, Latest;
      var c := Enter();
      var ready := CheckFirst(c);
      if ready {
        return;
      }
      Lock(c);
      ready := CheckAgain(c);
      Advance(waited);
      var refreshed := FinishFetch(c, reply, now);
    }
  }

  /** The lock's owner is past it. */
  lemma LockHolds(s: State, c: nat)
    requires Inv(s) && c < |s.calls|
    ensures s.lock == Some(c) <==> Holds(s.calls[c])
  {
    hide LogFits, CallsFit;
  }
}
