/** The retry loop of retry.rs composed with an origin that keeps one versioned object, other
    writers, and a network that may lose, delay or answer for any request. A run is any
    sequence of events; the client follows the decision of `Retry.Execute`. */
module RetryOrigin {
  import opened Text
  import opened Http
  import opened Retry

  /** The object's version, fresh for every write, and its content. */
  datatype Object = Absent | Present(version: nat, content: seq<byte>)

  /** `writes` counts all writes so far and numbers the next version. */
  datatype Origin = Origin(blob: Object, writes: nat)

  /** A precondition: the object must be absent, or at a version, which S3 and Azure call
      by its tag and GCS by its generation. */
  datatype Condition = IfAbsent | IfVersion(version: nat) | IfGeneration(version: nat)

  datatype Put = Put(condition: Option<Condition>, body: seq<byte>)

  predicate Met(condition: Option<Condition>, o: Object) {
    match condition
    case None => true
    case Some(IfAbsent) => o.Absent?
    case Some(IfVersion(v)) => o.Present? && o.version == v
    case Some(IfGeneration(v)) => o.Present? && o.version == v
  }

  function Write(o: Origin, content: seq<byte>): Origin {
    Origin(Present(o.writes, content), o.writes + 1)
  }

  /** The headers that carry a precondition. */
  function HeadersOf(condition: Option<Condition>): Headers {
    match condition
    case None => []
    case Some(IfAbsent) => [("if-none-match", "*")]
    case Some(IfVersion(v)) => [("if-match", PrintNat(v))]
    case Some(IfGeneration(v)) => [("x-goog-if-generation-match", PrintNat(v))]
  }

  function RequestOf(put: Put): Request {
    Request(HeadersOf(put.condition), put.body)
  }

  /** An attempt on the wire: on its way to the origin, or processed there and answered. */
  datatype Wire = Outbound | Processed(status: nat)

  datatype Client = Waiting | Finished(outcome: Outcome)

  /** `outcomes` are those that the client has seen; `landed` counts the applications of
      its write, and `undisturbed` says that nobody else has written since the last. */
  datatype State = State(put: Put, maxRetries: nat, origin: Origin, wires: seq<Wire>, client: Client,
                         outcomes: seq<Outcome>, landed: nat, undisturbed: bool)

  datatype Event =
    | Deliver(attempt: nat)                // the request reaches the origin, perhaps late
    | Respond                              // the origin's answer to the last attempt arrives
    | Fault(status: Option<nat>)           // the last attempt fails, or something else answers it
    | OtherWrite(content: Option<seq<byte>>)  // somebody else writes or deletes

  function Start(put: Put, maxRetries: nat, origin: Origin): State {
    State(put, maxRetries, origin, [Outbound], Waiting, [], 0, false)
  }

  /** The origin answers 200 if it applied the write and 412 if the precondition failed. */
  function DeliverStep(s: State, i: nat): State
    requires i < |s.wires| && s.wires[i].Outbound?
  {
    if Met(s.put.condition, s.origin.blob) then
      s.(origin := Write(s.origin, s.put.body), wires := s.wires[i := Processed(200)],
         landed := s.landed + 1, undisturbed := true)
    else
      s.(wires := s.wires[i := Processed(412)])
  }

  /** What `execute` does with the outcome of its last attempt. */
  function Decide(s: State, outcome: Outcome): State
    requires s.wires != []
  {
    var t := s.(outcomes := s.outcomes + [outcome]);
    if GoesOn(s.maxRetries, RetryableRequest(RequestOf(s.put)), |s.wires| - 1, outcome)
    then t.(wires := s.wires + [Outbound])
    else t.(client := Finished(outcome))
  }

  /** An answer that does not come from the origin's decision: anything but a success or
      a failed precondition. */
  predicate Foreign(status: nat) {
    !(200 <= status < 300) && status != 412
  }

  function Apply(s: State, e: Event): State
    requires s.wires != []
  {
    match e
    case Deliver(i) => if i < |s.wires| && s.wires[i].Outbound? then DeliverStep(s, i) else s
    case Respond =>
      if s.client.Waiting? && s.wires[|s.wires| - 1].Processed?
      then Decide(s, Ok(Response(s.wires[|s.wires| - 1].status, [])))
      else s
    case Fault(status) =>
      if s.client.Finished? then s
      else
        (match status
         case None => Decide(s, Err("transport"))
         case Some(code) => if Foreign(code) then Decide(s, Ok(Response(code, []))) else s)
    case OtherWrite(content) =>
      s.(undisturbed := false,
         origin := if content.Some? then Write(s.origin, content.value) else s.origin.(blob := Absent))
  }

  function Run(s: State, events: seq<Event>): (t: State)
    requires s.wires != []
    ensures t.wires != [] && t.put == s.put && t.maxRetries == s.maxRetries
    decreases |events|
  {
    if events == [] then s else Run(Apply(s, events[0]), events[1..])
  }

  // ----- what the client may send again ----------------------------------

  /** The guard looks at the body, not the method. */
  lemma SentAgain(put: Put)
    ensures RetryableRequest(RequestOf(put)) <==> put.condition.None? || put.body == []
  {
    hide Header, PrintNat;
    match put.condition
    case None =>
      NoHeaders("if-match");
      NoHeaders("if-none-match");
      NoHeaders("x-goog-if-generation-match");
    case Some(IfAbsent) =>
      OneHeader("if-none-match", "*");
    case Some(IfVersion(v)) =>
      OneHeader("if-match", PrintNat(v));
    case Some(IfGeneration(v)) =>
      OneHeader("x-goog-if-generation-match", PrintNat(v));
  }

  lemma NoHeaders(name: string)
    ensures Header([], name).None?
  {
  }

  lemma OneHeader(name: string, value: string)
    ensures Header([(name, value)], name) == Some(value)
  {
    hide Lower;
  }

  // ----- the invariant ---------------------------------------------------

  function Landings(wires: seq<Wire>): nat {
    if wires == [] then 0
    else Landings(wires[..|wires| - 1]) + (if wires[|wires| - 1] == Processed(200) then 1 else 0)
  }

  lemma {:induction false} LandingsUpdate(wires: seq<Wire>, i: nat, w: Wire)
    requires i < |wires| && wires[i].Outbound?
    ensures Landings(wires[i := w]) == Landings(wires) + (if w == Processed(200) then 1 else 0)
  {
    var front := wires[..|wires| - 1];
    if i < |front| {
      LandingsUpdate(front, i, w);
      assert wires[i := w][..|wires| - 1] == front[i := w];
    } else {
      assert wires[i := w][..|wires| - 1] == front;
    }
  }

  lemma LandingsAppend(wires: seq<Wire>)
    ensures Landings(wires + [Outbound]) == Landings(wires)
  {
    assert (wires + [Outbound])[..|wires|] == wires;
  }

  lemma {:induction false} LandingsBounds(wires: seq<Wire>, i: nat)
    requires i < |wires|
    ensures Landings(wires) <= |wires|
    ensures wires[i] == Processed(200) ==> 1 <= Landings(wires)
    ensures |wires| == 1 ==> Landings(wires) == if wires[0] == Processed(200) then 1 else 0
  {
    var front := wires[..|wires| - 1];
    if front == [] {
    } else {
      LandingsBounds(front, if i < |front| then i else 0);
    }
  }

  /** The origin said only 200 or 412, and 412 only to a conditional request. */
  predicate WiresFit(s: State) {
    forall i :: 0 <= i < |s.wires| && s.wires[i].Processed? ==>
      s.wires[i].status == 200 || (s.wires[i].status == 412 && s.put.condition.Some?)
  }

  /** The client has gone on as long as `execute` does, and stopped where it does. */
  predicate ClientFits(s: State) {
    var retryable, last := RetryableRequest(RequestOf(s.put)), |s.wires| - 1;
    && 0 <= last && |s.outcomes| == (if s.client.Waiting? then last else last + 1)
    && (forall i :: 0 <= i < last ==> GoesOn(s.maxRetries, retryable, i, s.outcomes[i]))
    && (s.client.Finished? ==>
          s.client.outcome == s.outcomes[last] && !GoesOn(s.maxRetries, retryable, last, s.outcomes[last]))
  }

  predicate Inv(s: State) {
    && ClientFits(s)
    && 1 <= |s.wires| <= s.maxRetries + 1
    && (|s.wires| > 1 ==> RetryableRequest(RequestOf(s.put)))
    && WiresFit(s)
    && s.landed == Landings(s.wires)
    && (s.undisturbed ==> s.landed >= 1 && s.origin.blob.Present? && s.origin.blob.content == s.put.body)
    && (s.client.Finished? && s.client.outcome.Ok? && !Foreign(s.client.outcome.value.status) ==>
          s.wires[|s.wires| - 1] == Processed(s.client.outcome.value.status))
  }

  lemma DeliverKeeps(s: State, i: nat)
    requires Inv(s) && i < |s.wires| && s.wires[i].Outbound?
    ensures Inv(DeliverStep(s, i))
  {
    hide RetryableRequest, Landings;
    LandingsUpdate(s.wires, i, Processed(200));
    LandingsUpdate(s.wires, i, Processed(412));
  }

  lemma DecideKeeps(s: State, outcome: Outcome)
    requires Inv(s) && s.client.Waiting?
    requires outcome.Ok? && !Foreign(outcome.value.status) ==>
               s.wires[|s.wires| - 1] == Processed(outcome.value.status)
    ensures Inv(Decide(s, outcome))
  {
    hide RetryableRequest, Transient, Landings, Foreign;
    LandingsAppend(s.wires);
    DecideGoesOn(s, outcome);
  }

  lemma DecideGoesOn(s: State, outcome: Outcome)
    requires ClientFits(s) && s.client.Waiting? && s.wires != []
    ensures ClientFits(Decide(s, outcome))
  {
    hide RetryableRequest, GoesOn;
  }

  lemma StepKeeps(s: State, e: Event)
    requires Inv(s)
    ensures Inv(Apply(s, e))
  {
    hide RetryableRequest, Landings, Transient;
    match e
    case Deliver(i) =>
      if i < |s.wires| && s.wires[i].Outbound? {
        DeliverKeeps(s, i);
      }
    case Respond =>
      if s.client.Waiting? && s.wires[|s.wires| - 1].Processed? {
        DecideKeeps(s, Ok(Response(s.wires[|s.wires| - 1].status, [])));
      }
    case Fault(status) =>
      if s.client.Waiting? {
        if status.None? {
          DecideKeeps(s, Err("transport"));
        } else if Foreign(status.value) {
          DecideKeeps(s, Ok(Response(status.value, [])));
        }
      }
    case OtherWrite(_) =>
  }

  lemma {:induction false} RunKeeps(s: State, events: seq<Event>)
    requires Inv(s)
    ensures Inv(Run(s, events))
    decreases |events|
  {
    hide Inv, Apply;
    if events == [] {
    } else {
      Nonempty(s);
      StepKeeps(s, events[0]);
      NextIsNonempty(s, events[0]);
      RunKeeps(Apply(s, events[0]), events[1..]);
    }
  }

  lemma Nonempty(s: State)
    requires Inv(s)
    ensures s.wires != []
  {
  }

  lemma StartFits(put: Put, maxRetries: nat, origin: Origin)
    ensures Inv(Start(put, maxRetries, origin))
  {
    hide RetryableRequest;
    assert [Outbound][..0] == [];
    assert Landings([Outbound]) == 0;
  }

  // ----- what every run guarantees ---------------------------------------

  predicate Says(s: State, status: nat) {
    s.client.Finished? && s.client.outcome.Ok? && s.client.outcome.value.status == status
  }

  lemma Reached(put: Put, maxRetries: nat, origin: Origin, events: seq<Event>)
    ensures Inv(Run(Start(put, maxRetries, origin), events))
  {
    hide Inv, Run;
    StartFits(put, maxRetries, origin);
    RunKeeps(Start(put, maxRetries, origin), events);
  }

  /** The composed client is `execute`: a finished run stops at the attempt, and with the
      outcome, that `execute` stops at for any inner client with the outcomes seen. */
  lemma ClientIsExecute(put: Put, maxRetries: nat, origin: Origin, events: seq<Event>, inner: nat -> Attempt,
                        timeout: nat)
    requires var s := Run(Start(put, maxRetries, origin), events);
             s.client.Finished? && forall i :: 0 <= i < |s.outcomes| ==> Bounded(inner(i), timeout) == s.outcomes[i]
    ensures var s := Run(Start(put, maxRetries, origin), events);
            var last := LastAttempt(maxRetries, RetryableRequest(RequestOf(put)), Outcomes(inner, timeout), 0);
            |s.wires| == last + 1 && s.client.outcome == Bounded(inner(last), timeout)
  {
    hide Run, RetryableRequest, Landings, WiresFit, GoesOn, Bounded;
    Reached(put, maxRetries, origin, events);
    var s := Run(Start(put, maxRetries, origin), events);
    LastAttemptIs(maxRetries, RetryableRequest(RequestOf(put)), Outcomes(inner, timeout), 0, |s.wires| - 1);
  }

  lemma SingleAttempt(s: State)
    requires Inv(s) && s.put.condition.Some? && (s.put.body != [] || s.maxRetries == 0)
    ensures |s.wires| == 1 && s.landed <= 1
    ensures Says(s, 412) ==> s.landed == 0
    ensures Says(s, 200) ==> s.landed == 1
  {
    hide RetryableRequest, Landings;
    SentAgain(s.put);
    LandingsBounds(s.wires, 0);
  }

  /** A conditional PUT with a body is applied at most once, whatever is lost or late; if
      the client is told 412 its write did not land and never will, and if it is told 200
      it landed exactly once. */
  lemma ConditionalPutLandsOnce(put: Put, maxRetries: nat, origin: Origin, events: seq<Event>)
    requires put.condition.Some? && put.body != []
    ensures var s := Run(Start(put, maxRetries, origin), events);
            && s.landed <= 1 && |s.wires| == 1
            && (Says(s, 412) ==> s.landed == 0)
            && (Says(s, 200) ==> s.landed == 1)
  {
    hide Run, Inv, Says;
    Reached(put, maxRetries, origin, events);
    SingleAttempt(Run(Start(put, maxRetries, origin), events));
  }

  lemma {:induction false} RunSplits(s: State, a: seq<Event>, b: seq<Event>)
    requires s.wires != []
    ensures Run(s, a + b) == Run(Run(s, a), b)
    decreases |a|
  {
    hide Apply;
    if a == [] {
      assert a + b == b;
    } else {
      HeadTail(a, b);
      NextIsNonempty(s, a[0]);
      RunSplits(Apply(s, a[0]), a[1..], b);
    }
  }

  lemma NextIsNonempty(s: State, e: Event)
    requires s.wires != []
    ensures Apply(s, e).wires != []
  {
    hide Met, Transient, RetryableRequest;
  }

  lemma FinishedStays(s: State, e: Event)
    requires s.wires != [] && s.client.Finished?
    ensures Apply(s, e).client == s.client && Apply(s, e).wires != []
  {
    hide Met, Transient, RetryableRequest;
  }

  lemma {:induction false} FinishedForGood(s: State, events: seq<Event>)
    requires s.wires != [] && s.client.Finished?
    ensures Run(s, events).client == s.client
    decreases |events|
  {
    hide Apply;
    if events == [] {
    } else {
      FinishedStays(s, events[0]);
      FinishedForGood(Apply(s, events[0]), events[1..]);
    }
  }

  /** After a 412 the write stays away for good: no request is left on the wire. */
  lemma RefusedForGood(put: Put, maxRetries: nat, origin: Origin, events: seq<Event>, later: seq<Event>)
    requires put.condition.Some? && put.body != []
    requires Says(Run(Start(put, maxRetries, origin), events), 412)
    ensures Run(Run(Start(put, maxRetries, origin), events), later).landed == 0
  {
    hide Run, Inv;
    var s := Run(Start(put, maxRetries, origin), events);
    FinishedForGood(s, later);
    RunSplits(Start(put, maxRetries, origin), events, later);
    ConditionalPutLandsOnce(put, maxRetries, origin, events + later);
  }

  /** An unconditional PUT is sent at most `maxRetries + 1` times; a client that is told
      200 has had it applied, and however often it was applied the object holds exactly
      its content until somebody else writes. */
  lemma UnconditionalPutLeavesOneContent(put: Put, maxRetries: nat, origin: Origin, events: seq<Event>)
    requires put.condition.None?
    ensures var s := Run(Start(put, maxRetries, origin), events);
            && s.landed <= maxRetries + 1
            && (Says(s, 200) ==> s.landed >= 1)
            && !Says(s, 412)
            && (s.undisturbed ==> s.origin.blob.Present? && s.origin.blob.content == put.body)
  {
    hide Run;
    Reached(put, maxRetries, origin, events);
    LastWire(Run(Start(put, maxRetries, origin), events));
  }

  lemma LastWire(s: State)
    requires Inv(s)
    ensures s.landed <= s.maxRetries + 1
    ensures Says(s, 200) ==> s.landed >= 1
    ensures s.put.condition.None? ==> !Says(s, 412)
  {
    hide RetryableRequest, Landings;
    LandingsBounds(s.wires, |s.wires| - 1);
  }

  predicate NobodyElseWrites(events: seq<Event>) {
    forall i :: 0 <= i < |events| ==> !events[i].OtherWrite?
  }

  /** Without other writers, a landed PUT is undisturbed. */
  lemma {:induction false} LandedIsUndisturbed(s: State, events: seq<Event>)
    requires s.wires != [] && NobodyElseWrites(events) && (s.landed > 0 ==> s.undisturbed)
    ensures Run(s, events).landed > 0 ==> Run(s, events).undisturbed
    decreases |events|
  {
    hide Apply;
    if events == [] {
    } else {
      StepStaysUndisturbed(s, events[0]);
      NextIsNonempty(s, events[0]);
      LandedIsUndisturbed(Apply(s, events[0]), events[1..]);
    }
  }

  lemma StepStaysUndisturbed(s: State, e: Event)
    requires s.wires != [] && !e.OtherWrite? && (s.landed > 0 ==> s.undisturbed)
    ensures Apply(s, e).landed > 0 ==> Apply(s, e).undisturbed
  {
    hide Met, Transient, RetryableRequest;
  }

  /** Retried any number of times, an unconditional PUT leaves what one application does. */
  lemma RetriesLeaveOneApplication(put: Put, maxRetries: nat, origin: Origin, events: seq<Event>)
    requires put.condition.None? && NobodyElseWrites(events)
    ensures var s := Run(Start(put, maxRetries, origin), events);
            s.landed > 0 ==> && s.origin.blob.Present?
                             && s.origin.blob.content == Write(origin, put.body).blob.content
  {
    hide Run, Inv;
    LandedIsUndisturbed(Start(put, maxRetries, origin), events);
    UnconditionalPutLeavesOneContent(put, maxRetries, origin, events);
  }

  // ----- exactly when 412 can be believed --------------------------------

  ghost predicate RefusalIsHonest(put: Put, maxRetries: nat) {
    forall origin, events ::
      Says(Run(Start(put, maxRetries, origin), events), 412) ==>
        Run(Start(put, maxRetries, origin), events).landed == 0
  }

  /** Told 412, a caller may conclude that its write did not land, except where the guard
      takes a conditional PUT for a read: its body is empty and a retry is allowed. */
  lemma RefusalIsHonestExactlyWhen(put: Put, maxRetries: nat)
    ensures RefusalIsHonest(put, maxRetries) <==>
              !(put.condition.Some? && put.body == [] && maxRetries >= 1)
  {
    if put.condition.Some? && put.body == [] && maxRetries >= 1 {
      SpuriousRefusal(put, maxRetries);
    } else {
      forall origin, events | Says(Run(Start(put, maxRetries, origin), events), 412)
        ensures Run(Start(put, maxRetries, origin), events).landed == 0
      {
        hide Run, Inv, Says;
        Reached(put, maxRetries, origin, events);
        var s := Run(Start(put, maxRetries, origin), events);
        if put.condition.None? {
          LastWire(s);
        } else {
          SingleAttempt(s);
        }
      }
    }
  }

  /** An origin at which a precondition holds, and holds no longer once it is written. */
  function Willing(condition: Condition): Origin {
    match condition
    case IfAbsent => Origin(Absent, 0)
    case IfVersion(v) => Origin(Present(v, []), v + 1)
    case IfGeneration(v) => Origin(Present(v, []), v + 1)
  }

  /** The write lands, its answer is lost, and the second attempt is refused. */
  lemma SpuriousRefusal(put: Put, maxRetries: nat)
    requires put.condition.Some? && put.body == [] && maxRetries >= 1
    ensures var s := Run(Start(put, maxRetries, Willing(put.condition.value)),
                         [Deliver(0), Fault(None), Deliver(1), Respond]);
            Says(s, 412) && s.landed == 1
  {
    var s0 := Start(put, maxRetries, Willing(put.condition.value));
    var s1 := Apply(s0, Deliver(0));
    assert s1 == s0.(origin := Write(s0.origin, []), wires := [Processed(200)], landed := 1, undisturbed := true);
    SentAgain(put);
    var s2 := Apply(s1, Fault(None));
    assert s2 == s1.(wires := [Processed(200), Outbound], outcomes := [Err("transport")]) by { Resent(s1); }
    var s3 := Apply(s2, Deliver(1));
    assert s3 == s2.(wires := [Processed(200), Processed(412)]);
    var s4 := Apply(s3, Respond);
    assert Says(s4, 412) && s4.landed == 1;
    hide Apply;
    RunOfFour(s0, Deliver(0), Fault(None), Deliver(1), Respond);
  }

  lemma Resent(s: State)
    requires |s.wires| == 1 && s.client.Waiting? && RetryableRequest(RequestOf(s.put)) && s.maxRetries >= 1
    ensures Apply(s, Fault(None)) == s.(wires := s.wires + [Outbound], outcomes := s.outcomes + [Err("transport")])
  {
  }

  lemma RunOfFour(s: State, a: Event, b: Event, c: Event, d: Event)
    requires s.wires != [] && Apply(s, a).wires != [] && Apply(Apply(s, a), b).wires != []
    requires Apply(Apply(Apply(s, a), b), c).wires != []
    requires Apply(Apply(Apply(Apply(s, a), b), c), d).wires != []
    ensures Run(s, [a, b, c, d]) == Apply(Apply(Apply(Apply(s, a), b), c), d)
  {
    hide Apply;
    assert [a, b, c, d][1..] == [b, c, d];
    assert [b, c, d][1..] == [c, d];
    assert [c, d][1..] == [d];
    assert [d][1..] == [];
    var s1 := Apply(s, a);
    var s2 := Apply(s1, b);
    var s3 := Apply(s2, c);
    assert Run(s3, [d]) == Apply(s3, d);
    assert Run(s2, [c, d]) == Run(s3, [d]);
    assert Run(s1, [b, c, d]) == Run(s2, [c, d]);
  }
}
