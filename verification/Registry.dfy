/** The single-flight registry of dynamic stores: `resolve_dynamic` and the construction
    task it spawns, in crates/talon-backend/src/routing.rs. Callers look a key up under
    the read lock, re-check and register it under the write lock, and then wait for the
    one task that builds its store. Every critical section and every step around an await
    is an event, so that a run is any sequence of events. */
module Registry {
  import opened Text
  import opened Routing

  const MAX_DYNAMIC_BACKENDS := 4096

  datatype Failure = LimitReached | BuildFailed(message: string)

  type Outcome = Result<Store, Failure>

  /** How far the construction task of a slot has come. */
  datatype Stage =
    | Building
    | Built(result: Outcome)      // built, refused or panicked; nobody knows yet
    | Recorded(result: Outcome)   // the maps are updated
    | Published(result: Outcome)  // the slot's result cell is set
    | Notified(result: Outcome)   // the waiters are woken

  /** A `PendingBackend` together with the construction task that fills it. */
  datatype Slot = Slot(key: Key, stage: Stage)

  /** Where a caller stands. `woken` says that its `Notified` future has fired. */
  datatype Position =
    | Start
    | Unregistered
    | Waiting(slot: nat)
    | Enabled(slot: nat, woken: bool)
    | Parked(slot: nat, woken: bool)
    | Answered(outcome: Outcome)
    | Dropped

  /** `rounds` counts how often the caller has entered the body of its waiting loop. */
  datatype Caller = Caller(key: Key, at: Position, rounds: nat)

  datatype State = State(backend: Backend, stores: map<Key, Store>, pending: map<Key, nat>,
                         slots: seq<Slot>, callers: seq<Caller>)

  datatype Event =
    | Arrive(key: Key)
    | Lookup(caller: nat)
    | Register(caller: nat)
    | Enable(caller: nat)
    | Check(caller: nat)
    | Wake(caller: nat)
    | Cancel(caller: nat)
    | Finish(slot: nat, failure: Option<string>)
    | Record(slot: nat)
    | Publish(slot: nat)
    | Notify(slot: nat)

  function Initial(backend: Backend): State {
    State(backend, map[], map[], [], [])
  }

  // ----- steps -----------------------------------------------------------

  function Move(s: State, c: nat, at: Position): State
    requires c < |s.callers|
  {
    s.(callers := s.callers[c := s.callers[c].(at := at)])
  }

  function SetStage(s: State, i: nat, stage: Stage): State
    requires i < |s.slots|
  {
    s.(slots := s.slots[i := s.slots[i].(stage := stage)])
  }

  function LookupStep(s: State, c: nat): State
    requires c < |s.callers|
  {
    var key := s.callers[c].key;
    if !s.callers[c].at.Start? then s
    else if key in s.stores then Move(s, c, Answered(Ok(s.stores[key])))
    else if key in s.pending then Move(s, c, Waiting(s.pending[key]))
    else Move(s, c, Unregistered)
  }

  function Reserve(s: State, key: Key): State {
    s.(pending := s.pending[key := |s.slots|], slots := s.slots + [Slot(key, Building)])
  }

  function RegisterStep(s: State, c: nat): State
    requires c < |s.callers|
  {
    var key := s.callers[c].key;
    if !s.callers[c].at.Unregistered? then s
    else if key in s.stores then Move(s, c, Answered(Ok(s.stores[key])))
    else if key in s.pending then Move(s, c, Waiting(s.pending[key]))
    else if |s.stores| + |s.pending| >= MAX_DYNAMIC_BACKENDS then Move(s, c, Answered(Err(LimitReached)))
    else Move(Reserve(s, key), c, Waiting(|s.slots|))
  }

  function EnableStep(s: State, c: nat): State
    requires c < |s.callers|
  {
    var x := s.callers[c];
    if x.at.Waiting? then s.(callers := s.callers[c := Caller(x.key, Enabled(x.at.slot, false), x.rounds + 1)])
    else s
  }

  /** The content of a slot's result cell. */
  function ResultOf(s: State, i: nat): Option<Outcome> {
    if i < |s.slots| && (s.slots[i].stage.Published? || s.slots[i].stage.Notified?)
    then Some(s.slots[i].stage.result)
    else None
  }

  function CheckStep(s: State, c: nat): State
    requires c < |s.callers|
  {
    var at := s.callers[c].at;
    if !at.Enabled? then s
    else
      match ResultOf(s, at.slot)
      case Some(result) => Move(s, c, Answered(result))
      case None => Move(s, c, Parked(at.slot, at.woken))
  }

  function WakeStep(s: State, c: nat): State
    requires c < |s.callers|
  {
    var at := s.callers[c].at;
    if at.Parked? && at.woken then Move(s, c, Waiting(at.slot)) else s
  }

  function CancelStep(s: State, c: nat): State
    requires c < |s.callers|
  {
    if s.callers[c].at.Answered? then s else Move(s, c, Dropped)
  }

  function FinishStep(s: State, i: nat, failure: Option<string>): State
    requires i < |s.slots|
  {
    if !s.slots[i].stage.Building? then s
    else
      match failure
      case Some(message) => SetStage(s, i, Built(Err(BuildFailed(message))))
      case None => SetStage(s, i, Built(Ok(Store(i, s.backend, s.slots[i].key.bucket))))
  }

  function RecordStep(s: State, i: nat): State
    requires i < |s.slots|
  {
    var slot := s.slots[i];
    if !slot.stage.Built? then s
    else
      var stores := if slot.stage.result.Ok? then s.stores[slot.key := slot.stage.result.value] else s.stores;
      SetStage(s, i, Recorded(slot.stage.result)).(stores := stores, pending := s.pending - {slot.key})
  }

  function PublishStep(s: State, i: nat): State
    requires i < |s.slots|
  {
    if s.slots[i].stage.Recorded? then SetStage(s, i, Published(s.slots[i].stage.result)) else s
  }

  /** `notify_waiters` fires the enabled futures of a slot. */
  function WakeOne(x: Caller, i: nat): Caller {
    match x.at
    case Enabled(j, _) => if j == i then x.(at := Enabled(i, true)) else x
    case Parked(j, _) => if j == i then x.(at := Parked(i, true)) else x
    case _ => x
  }

  function WakeAll(callers: seq<Caller>, i: nat): (woken: seq<Caller>)
    ensures |woken| == |callers|
    ensures forall c :: 0 <= c < |callers| ==> woken[c] == WakeOne(callers[c], i)
  {
    if callers == [] then [] else WakeAll(callers[..|callers| - 1], i) + [WakeOne(callers[|callers| - 1], i)]
  }

  function NotifyStep(s: State, i: nat): State
    requires i < |s.slots|
  {
    if s.slots[i].stage.Published?
    then SetStage(s, i, Notified(s.slots[i].stage.result)).(callers := WakeAll(s.callers, i))
    else s
  }

  function CallerStep(s: State, e: Event, c: nat): State
    requires c < |s.callers|
  {
    match e
    case Lookup(_) => LookupStep(s, c)
    case Register(_) => RegisterStep(s, c)
    case Enable(_) => EnableStep(s, c)
    case Check(_) => CheckStep(s, c)
    case Wake(_) => WakeStep(s, c)
    case Cancel(_) => CancelStep(s, c)
    case _ => s
  }

  function TaskStep(s: State, e: Event, i: nat): State
    requires i < |s.slots|
  {
    match e
    case Finish(_, failure) => FinishStep(s, i, failure)
    case Record(_) => RecordStep(s, i)
    case Publish(_) => PublishStep(s, i)
    case Notify(_) => NotifyStep(s, i)
    case _ => s
  }

  /** One step of a run; an event that is not enabled changes nothing. */
  function Apply(s: State, e: Event): State {
    match e
    case Arrive(key) => s.(callers := s.callers + [Caller(key, Start, 0)])
    case Lookup(c) => if c < |s.callers| then CallerStep(s, e, c) else s
    case Register(c) => if c < |s.callers| then CallerStep(s, e, c) else s
    case Enable(c) => if c < |s.callers| then CallerStep(s, e, c) else s
    case Check(c) => if c < |s.callers| then CallerStep(s, e, c) else s
    case Wake(c) => if c < |s.callers| then CallerStep(s, e, c) else s
    case Cancel(c) => if c < |s.callers| then CallerStep(s, e, c) else s
    case Finish(i, _) => if i < |s.slots| then TaskStep(s, e, i) else s
    case Record(i) => if i < |s.slots| then TaskStep(s, e, i) else s
    case Publish(i) => if i < |s.slots| then TaskStep(s, e, i) else s
    case Notify(i) => if i < |s.slots| then TaskStep(s, e, i) else s
  }

  function Run(s: State, events: seq<Event>): State
    decreases |events|
  {
    if events == [] then s else Run(Apply(s, events[0]), events[1..])
  }

  // ----- the invariant ---------------------------------------------------

  predicate Live(slot: Slot) {
    slot.stage.Building? || slot.stage.Built?
  }

  predicate Succeeded(slot: Slot) {
    !slot.stage.Building? && slot.stage.result.Ok?
  }

  /** The maps are disjoint and within the limit. */
  predicate Bounded(s: State) {
    s.stores.Keys !! s.pending.Keys && |s.stores| + |s.pending| <= MAX_DYNAMIC_BACKENDS
  }

  /** A pending entry names a live task for its key. */
  predicate PendingIsLive(s: State) {
    forall k :: k in s.pending ==>
      s.pending[k] < |s.slots| && s.slots[s.pending[k]].key == k && Live(s.slots[s.pending[k]])
  }

  /** A live task is the one its key's pending entry names; a task that has recorded
      a store has put exactly that store in the map. */
  predicate SlotFits(s: State, i: nat)
    requires i < |s.slots|
  {
    var slot := s.slots[i];
    && (Live(slot) ==> slot.key in s.pending && s.pending[slot.key] == i)
    && (Succeeded(slot) ==> slot.stage.result.value == Store(i, s.backend, slot.key.bucket))
    && (Succeeded(slot) && !Live(slot) ==> slot.key in s.stores && s.stores[slot.key] == slot.stage.result.value)
  }

  predicate SlotsFit(s: State) {
    forall i :: 0 <= i < |s.slots| ==> SlotFits(s, i)
  }

  /** A stored store came from a task for its key. */
  predicate StoresAreBuilt(s: State) {
    forall k :: k in s.stores ==>
      && s.stores[k].id < |s.slots| && s.slots[s.stores[k].id].key == k
      && s.stores[k] == Store(s.stores[k].id, s.backend, k.bucket)
  }

  predicate HasSlot(s: State, x: Caller, i: nat) {
    i < |s.slots| && s.slots[i].key == x.key
  }

  /** What a caller's position says of the registry. A caller that has been through its
      loop once, or whose future has fired, will find the result set; a parked caller is
      unwoken exactly while its task has yet to notify. */
  predicate CallerFits(s: State, x: Caller) {
    x.rounds <= 2 &&
    match x.at
    case Start => x.rounds == 0
    case Unregistered => x.rounds == 0
    case Waiting(i) => HasSlot(s, x, i) && x.rounds <= 1 && (x.rounds == 1 ==> ResultOf(s, i).Some?)
    case Enabled(i, woken) =>
      HasSlot(s, x, i) && 1 <= x.rounds && (woken || x.rounds == 2 ==> ResultOf(s, i).Some?)
    case Parked(i, woken) => HasSlot(s, x, i) && x.rounds == 1 && (woken <==> s.slots[i].stage.Notified?)
    case Answered(outcome) => outcome.Ok? ==> x.key in s.stores && s.stores[x.key] == outcome.value
    case Dropped => true
  }

  predicate CallersFit(s: State) {
    forall c :: 0 <= c < |s.callers| ==> CallerFits(s, s.callers[c])
  }

  predicate Inv(s: State) {
    Bounded(s) && PendingIsLive(s) && SlotsFit(s) && StoresAreBuilt(s) && CallersFit(s)
  }

  // ----- every step keeps the invariant ----------------------------------

  /** What a caller relies on survives every change that keeps the stores, the slots'
      keys and results, and which of them have notified. */
  predicate Grows(s: State, t: State) {
    && s.backend == t.backend && |s.slots| <= |t.slots|
    && (forall k :: k in s.stores ==> k in t.stores && t.stores[k] == s.stores[k])
    && forall i :: 0 <= i < |s.slots| ==>
         && t.slots[i].key == s.slots[i].key
         && (ResultOf(s, i).Some? ==> ResultOf(t, i) == ResultOf(s, i))
         && (t.slots[i].stage.Notified? <==> s.slots[i].stage.Notified?)
  }

  lemma CallerStillFits(s: State, t: State, x: Caller)
    requires Grows(s, t) && CallerFits(s, x)
    ensures CallerFits(t, x)
  {
  }

  lemma CallersStillFit(s: State, t: State)
    requires Grows(s, t) && CallersFit(s) && t.callers == s.callers
    ensures CallersFit(t)
  {
    hide CallerFits, Grows;
    forall c | 0 <= c < |t.callers| ensures CallerFits(t, t.callers[c]) {
      CallerStillFits(s, t, s.callers[c]);
    }
  }

  lemma OneCallerMoves(s: State, c: nat, x: Caller)
    requires Inv(s) && c < |s.callers| && CallerFits(s, x)
    ensures Inv(s.(callers := s.callers[c := x]))
  {
    hide CallerFits;
    var t := s.(callers := s.callers[c := x]);
    forall d | 0 <= d < |t.callers| ensures CallerFits(t, t.callers[d]) {
      SameRegistry(s, t, t.callers[d]);
    }
    SameMaps(s, t);
  }

  lemma SameRegistry(s: State, t: State, x: Caller)
    requires CallerFits(s, x) && t == s.(callers := t.callers)
    ensures CallerFits(t, x)
  {
  }

  lemma SameMaps(s: State, t: State)
    requires Bounded(s) && PendingIsLive(s) && SlotsFit(s) && StoresAreBuilt(s)
    requires t == s.(callers := t.callers)
    ensures Bounded(t) && PendingIsLive(t) && SlotsFit(t) && StoresAreBuilt(t)
  {
    forall i | 0 <= i < |t.slots| ensures SlotFits(t, i) {
      assert SlotFits(s, i);
    }
  }

  lemma ArriveKeeps(s: State, key: Key)
    requires Inv(s)
    ensures Inv(s.(callers := s.callers + [Caller(key, Start, 0)]))
  {
    hide CallerFits;
    var t := s.(callers := s.callers + [Caller(key, Start, 0)]);
    assert CallerFits(s, Caller(key, Start, 0)) by { FreshCallerFits(s, key); }
    forall d | 0 <= d < |t.callers| ensures CallerFits(t, t.callers[d]) {
      SameRegistry(s, t, t.callers[d]);
    }
    SameMaps(s, t);
  }

  lemma FreshCallerFits(s: State, key: Key)
    ensures CallerFits(s, Caller(key, Start, 0))
  {
  }

  /** Where a caller goes on finding its key in one of the maps. */
  lemma FoundFits(s: State, x: Caller)
    requires Inv(s) && x.rounds == 0
    ensures x.key in s.stores ==> CallerFits(s, x.(at := Answered(Ok(s.stores[x.key]))))
    ensures x.key in s.pending ==> CallerFits(s, x.(at := Waiting(s.pending[x.key])))
    ensures CallerFits(s, x.(at := Unregistered)) && CallerFits(s, x.(at := Answered(Err(LimitReached))))
  {
    hide SlotsFit, CallersFit, StoresAreBuilt;
  }

  lemma RoundsOf(s: State, c: nat)
    requires Inv(s) && c < |s.callers|
    ensures CallerFits(s, s.callers[c])
    ensures s.callers[c].at.Start? || s.callers[c].at.Unregistered? ==> s.callers[c].rounds == 0
  {
    hide Bounded, PendingIsLive, SlotsFit, StoresAreBuilt;
  }

  lemma LookupKeeps(s: State, c: nat)
    requires Inv(s) && c < |s.callers|
    ensures Inv(LookupStep(s, c))
  {
    hide Inv, CallerFits;
    RoundsOf(s, c);
    var x := s.callers[c];
    if x.at.Start? {
      FoundFits(s, x);
      var at := if x.key in s.stores then Answered(Ok(s.stores[x.key]))
                else if x.key in s.pending then Waiting(s.pending[x.key]) else Unregistered;
      OneCallerMoves(s, c, x.(at := at));
    }
  }

  lemma ReserveGrows(s: State, key: Key)
    ensures Grows(s, Reserve(s, key))
  {
  }

  lemma ReserveSlots(s: State, key: Key)
    requires SlotsFit(s) && key !in s.pending
    ensures SlotsFit(Reserve(s, key))
  {
    var t := Reserve(s, key);
    forall i | 0 <= i < |t.slots| ensures SlotFits(t, i) {
      if i < |s.slots| {
        assert SlotFits(s, i);
      }
    }
  }

  lemma ReserveMaps(s: State, key: Key)
    requires PendingIsLive(s) && StoresAreBuilt(s) && Bounded(s)
    requires key !in s.pending && key !in s.stores && |s.stores| + |s.pending| < MAX_DYNAMIC_BACKENDS
    ensures PendingIsLive(Reserve(s, key)) && StoresAreBuilt(Reserve(s, key)) && Bounded(Reserve(s, key))
  {
  }

  lemma ReserveKeeps(s: State, key: Key)
    requires Inv(s)
    requires key !in s.pending && key !in s.stores && |s.stores| + |s.pending| < MAX_DYNAMIC_BACKENDS
    ensures Inv(Reserve(s, key))
  {
    hide Bounded, PendingIsLive, SlotsFit, StoresAreBuilt, CallersFit, Grows;
    ReserveMaps(s, key);
    ReserveSlots(s, key);
    ReserveGrows(s, key);
    CallersStillFit(s, Reserve(s, key));
  }

  lemma ReserverFits(s: State, x: Caller)
    requires x.rounds == 0
    ensures CallerFits(Reserve(s, x.key), x.(at := Waiting(|s.slots|)))
  {
  }

  lemma RegisterKeeps(s: State, c: nat)
    requires Inv(s) && c < |s.callers|
    ensures Inv(RegisterStep(s, c))
  {
    hide Inv, CallerFits;
    RoundsOf(s, c);
    var x := s.callers[c];
    if x.at.Unregistered? {
      FoundFits(s, x);
      if x.key in s.stores {
        OneCallerMoves(s, c, x.(at := Answered(Ok(s.stores[x.key]))));
      } else if x.key in s.pending {
        OneCallerMoves(s, c, x.(at := Waiting(s.pending[x.key])));
      } else if |s.stores| + |s.pending| >= MAX_DYNAMIC_BACKENDS {
        OneCallerMoves(s, c, x.(at := Answered(Err(LimitReached))));
      } else {
        ReserveKeeps(s, x.key);
        ReserverFits(s, x);
        OneCallerMoves(Reserve(s, x.key), c, x.(at := Waiting(|s.slots|)));
      }
    }
  }

  lemma EnableKeeps(s: State, c: nat)
    requires Inv(s) && c < |s.callers|
    ensures Inv(EnableStep(s, c))
  {
    hide Inv;
    RoundsOf(s, c);
    var x := s.callers[c];
    if x.at.Waiting? {
      OneCallerMoves(s, c, Caller(x.key, Enabled(x.at.slot, false), x.rounds + 1));
    }
  }

  /** A published store is the stored one. */
  lemma ResultIsStored(s: State, i: nat)
    requires Inv(s) && i < |s.slots| && ResultOf(s, i).Some? && ResultOf(s, i).value.Ok?
    ensures s.slots[i].key in s.stores && s.stores[s.slots[i].key] == ResultOf(s, i).value.value
  {
    hide Bounded, PendingIsLive, StoresAreBuilt, CallersFit;
    assert SlotFits(s, i);
  }

  lemma CheckedFits(s: State, x: Caller)
    requires Inv(s) && CallerFits(s, x) && x.at.Enabled?
    ensures ResultOf(s, x.at.slot).Some? ==> CallerFits(s, x.(at := Answered(ResultOf(s, x.at.slot).value)))
    ensures ResultOf(s, x.at.slot).None? ==> CallerFits(s, x.(at := Parked(x.at.slot, x.at.woken)))
  {
    hide Inv;
    var r := ResultOf(s, x.at.slot);
    if r.Some? && r.value.Ok? {
      ResultIsStored(s, x.at.slot);
    }
  }

  lemma CheckKeeps(s: State, c: nat)
    requires Inv(s) && c < |s.callers|
    ensures Inv(CheckStep(s, c))
  {
    hide Inv, CallerFits, ResultOf;
    RoundsOf(s, c);
    var x := s.callers[c];
    if x.at.Enabled? {
      CheckedFits(s, x);
      var r := ResultOf(s, x.at.slot);
      OneCallerMoves(s, c, x.(at := if r.Some? then Answered(r.value) else Parked(x.at.slot, x.at.woken)));
    }
  }

  lemma WakeKeeps(s: State, c: nat)
    requires Inv(s) && c < |s.callers|
    ensures Inv(WakeStep(s, c))
  {
    hide Inv;
    RoundsOf(s, c);
    var x := s.callers[c];
    if x.at.Parked? && x.at.woken {
      OneCallerMoves(s, c, x.(at := Waiting(x.at.slot)));
    }
  }

  lemma CancelKeeps(s: State, c: nat)
    requires Inv(s) && c < |s.callers|
    ensures Inv(CancelStep(s, c))
  {
    hide Inv;
    RoundsOf(s, c);
    var x := s.callers[c];
    if !x.at.Answered? {
      OneCallerMoves(s, c, x.(at := Dropped));
    }
  }

  // A change of one slot's stage.

  lemma StageMaps(s: State, i: nat, stage: Stage)
    requires Bounded(s) && PendingIsLive(s) && StoresAreBuilt(s) && i < |s.slots|
    requires Live(s.slots[i]) ==> Live(s.slots[i].(stage := stage))
    ensures var t := SetStage(s, i, stage); Bounded(t) && PendingIsLive(t) && StoresAreBuilt(t)
  {
  }

  lemma StageSlots(s: State, i: nat, stage: Stage)
    requires SlotsFit(s) && i < |s.slots| && SlotFits(SetStage(s, i, stage), i)
    ensures SlotsFit(SetStage(s, i, stage))
  {
    var t := SetStage(s, i, stage);
    forall j | 0 <= j < |t.slots| ensures SlotFits(t, j) {
      if j != i {
        assert SlotFits(s, j);
      }
    }
  }

  lemma StageGrows(s: State, i: nat, stage: Stage)
    requires i < |s.slots| && ResultOf(s, i).None? && !stage.Notified?
    ensures Grows(s, SetStage(s, i, stage))
  {
  }

  lemma StageKeeps(s: State, i: nat, stage: Stage)
    requires Inv(s) && i < |s.slots| && ResultOf(s, i).None? && !stage.Notified?
    requires Live(s.slots[i]) ==> Live(s.slots[i].(stage := stage))
    requires SlotFits(SetStage(s, i, stage), i)
    ensures Inv(SetStage(s, i, stage))
  {
    hide Bounded, PendingIsLive, SlotsFit, StoresAreBuilt, CallersFit, Grows, SlotFits, Live, ResultOf;
    StageMaps(s, i, stage);
    StageSlots(s, i, stage);
    StageGrows(s, i, stage);
    CallersStillFit(s, SetStage(s, i, stage));
  }

  lemma SlotOf(s: State, i: nat)
    requires Inv(s) && i < |s.slots|
    ensures SlotFits(s, i)
  {
    hide Bounded, PendingIsLive, StoresAreBuilt, CallersFit, SlotFits;
  }

  lemma FinishKeeps(s: State, i: nat, failure: Option<string>)
    requires Inv(s) && i < |s.slots|
    ensures Inv(FinishStep(s, i, failure))
  {
    hide Inv;
    SlotOf(s, i);
    if s.slots[i].stage.Building? {
      var r: Outcome := match failure
                        case Some(m) => Err(BuildFailed(m))
                        case None => Ok(Store(i, s.backend, s.slots[i].key.bucket));
      StageKeeps(s, i, Built(r));
    }
  }

  lemma PublishKeeps(s: State, i: nat)
    requires Inv(s) && i < |s.slots|
    ensures Inv(PublishStep(s, i))
  {
    hide Inv;
    SlotOf(s, i);
    if s.slots[i].stage.Recorded? {
      StageKeeps(s, i, Published(s.slots[i].stage.result));
    }
  }

  lemma Removed(pending: map<Key, nat>, k: Key)
    requires k in pending
    ensures |pending - {k}| == |pending| - 1
  {
    assert (pending - {k}).Keys == pending.Keys - {k};
  }

  lemma RecordBounded(s: State, i: nat)
    requires Bounded(s) && i < |s.slots| && SlotFits(s, i) && s.slots[i].stage.Built?
    ensures Bounded(RecordStep(s, i))
    ensures |RecordStep(s, i).pending| == |s.pending| - 1
  {
    Removed(s.pending, s.slots[i].key);
  }

  lemma RecordPending(s: State, i: nat)
    requires PendingIsLive(s) && i < |s.slots| && SlotFits(s, i) && s.slots[i].stage.Built?
    ensures PendingIsLive(RecordStep(s, i))
  {
  }

  lemma RecordStores(s: State, i: nat)
    requires StoresAreBuilt(s) && i < |s.slots| && SlotFits(s, i) && s.slots[i].stage.Built?
    ensures StoresAreBuilt(RecordStep(s, i))
  {
  }

  lemma RecordSlots(s: State, i: nat)
    requires Bounded(s) && SlotsFit(s) && i < |s.slots| && s.slots[i].stage.Built?
    ensures SlotsFit(RecordStep(s, i))
  {
    var t := RecordStep(s, i);
    assert SlotFits(s, i);
    forall j | 0 <= j < |t.slots| ensures SlotFits(t, j) {
      if j != i {
        assert SlotFits(s, j);
      }
    }
  }

  lemma RecordGrows(s: State, i: nat)
    requires Bounded(s) && i < |s.slots| && SlotFits(s, i) && s.slots[i].stage.Built?
    ensures Grows(s, RecordStep(s, i))
  {
  }

  lemma RecordKeeps(s: State, i: nat)
    requires Inv(s) && i < |s.slots|
    ensures Inv(RecordStep(s, i))
  {
    hide Bounded, PendingIsLive, SlotsFit, StoresAreBuilt, CallersFit, Grows, SlotFits;
    if s.slots[i].stage.Built? {
      SlotOf(s, i);
      RecordBounded(s, i);
      RecordPending(s, i);
      RecordStores(s, i);
      RecordSlots(s, i);
      RecordGrows(s, i);
      CallersStillFit(s, RecordStep(s, i));
    }
  }

  /** Notifying wakes exactly the callers that would otherwise be parked for good. */
  lemma WokenFits(s: State, i: nat, x: Caller)
    requires CallerFits(s, x) && i < |s.slots| && s.slots[i].stage.Published?
    ensures CallerFits(NotifyStep(s, i), WakeOne(x, i))
  {
    hide WakeAll;
  }

  lemma NotifyKeeps(s: State, i: nat)
    requires Inv(s) && i < |s.slots|
    ensures Inv(NotifyStep(s, i))
  {
    hide CallerFits, SlotFits;
    if s.slots[i].stage.Published? {
      var t := NotifyStep(s, i);
      NotifyMaps(s, i);
      forall c | 0 <= c < |t.callers| ensures CallerFits(t, t.callers[c]) {
        WokenFits(s, i, s.callers[c]);
      }
    }
  }

  lemma NotifyMaps(s: State, i: nat)
    requires Inv(s) && i < |s.slots| && s.slots[i].stage.Published?
    ensures var t := NotifyStep(s, i); Bounded(t) && PendingIsLive(t) && StoresAreBuilt(t) && SlotsFit(t)
  {
    hide CallersFit, Bounded, PendingIsLive, StoresAreBuilt, SlotsFit, WakeAll;
    var u := SetStage(s, i, Notified(s.slots[i].stage.result));
    SlotOf(s, i);
    StageMaps(s, i, u.slots[i].stage);
    StageSlots(s, i, u.slots[i].stage);
    SameMaps(u, NotifyStep(s, i));
  }

  lemma CallerStepKeeps(s: State, e: Event, c: nat)
    requires Inv(s) && c < |s.callers|
    ensures Inv(CallerStep(s, e, c))
  {
    hide Inv, LookupStep, RegisterStep, EnableStep, CheckStep, WakeStep, CancelStep;
    match e
    case Lookup(_) => LookupKeeps(s, c);
    case Register(_) => RegisterKeeps(s, c);
    case Enable(_) => EnableKeeps(s, c);
    case Check(_) => CheckKeeps(s, c);
    case Wake(_) => WakeKeeps(s, c);
    case Cancel(_) => CancelKeeps(s, c);
    case _ =>
  }

  lemma TaskStepKeeps(s: State, e: Event, i: nat)
    requires Inv(s) && i < |s.slots|
    ensures Inv(TaskStep(s, e, i))
  {
    hide Inv, FinishStep, RecordStep, PublishStep, NotifyStep;
    match e
    case Finish(_, failure) => FinishKeeps(s, i, failure);
    case Record(_) => RecordKeeps(s, i);
    case Publish(_) => PublishKeeps(s, i);
    case Notify(_) => NotifyKeeps(s, i);
    case _ =>
  }

  lemma StepKeeps(s: State, e: Event)
    requires Inv(s)
    ensures Inv(Apply(s, e))
  {
    hide Inv, CallerStep, TaskStep;
    if e.Arrive? {
      ArriveKeeps(s, e.key);
    } else if e.Finish? || e.Record? || e.Publish? || e.Notify? {
      if e.slot < |s.slots| {
        TaskStepKeeps(s, e, e.slot);
      }
    } else if e.caller < |s.callers| {
      CallerStepKeeps(s, e, e.caller);
    }
  }

  lemma {:induction false} RunKeeps(s: State, events: seq<Event>)
    requires Inv(s)
    ensures Inv(Run(s, events))
    decreases |events|
  {
    hide Inv, Apply;
    if events == [] {
    } else {
      StepKeeps(s, events[0]);
      RunKeeps(Apply(s, events[0]), events[1..]);
    }
  }

  // ----- what every run guarantees ---------------------------------------

  /** Whatever callers, tasks and cancellations do, no store is registered and pending at
      once, no more than the limit are held, and every pending key has a live task of its
      own, so that dropping a caller cannot strand it. */
  lemma RegistryStaysSound(backend: Backend, events: seq<Event>)
    ensures var s := Run(Initial(backend), events);
            && Inv(s) && s.stores.Keys !! s.pending.Keys
            && |s.stores| + |s.pending| <= 4096
            && forall k :: k in s.pending ==>
                 s.pending[k] < |s.slots| && s.slots[s.pending[k]].key == k && Live(s.slots[s.pending[k]])
  {
    hide Run;
    RunKeeps(Initial(backend), events);
  }

  lemma SlotsOfAKey(s: State, i: nat, j: nat)
    requires Inv(s) && i < |s.slots| && j < |s.slots| && i != j && s.slots[i].key == s.slots[j].key
    ensures !(Live(s.slots[i]) && Live(s.slots[j]))
    ensures !(Succeeded(s.slots[i]) && Succeeded(s.slots[j]))
    ensures Live(s.slots[j]) ==> !Succeeded(s.slots[i])
  {
    hide PendingIsLive, SlotsFit, StoresAreBuilt, CallersFit;
    SlotOf(s, i);
    SlotOf(s, j);
  }

  /** Single flight: of all the tasks ever started for a key at most one is at work, at
      most one ever succeeds, and one that starts anew finds every earlier one failed. */
  lemma SingleFlight(backend: Backend, events: seq<Event>, i: nat, j: nat)
    requires var s := Run(Initial(backend), events);
             i < |s.slots| && j < |s.slots| && i != j && s.slots[i].key == s.slots[j].key
    ensures var s := Run(Initial(backend), events);
            && !(Live(s.slots[i]) && Live(s.slots[j]))
            && !(Succeeded(s.slots[i]) && Succeeded(s.slots[j]))
            && (Live(s.slots[j]) ==> !Succeeded(s.slots[i]))
  {
    hide Run, Inv, Live, Succeeded;
    RegistryStaysSound(backend, events);
    SlotsOfAKey(Run(Initial(backend), events), i, j);
  }

  lemma AnswerIsStored(s: State, c: nat)
    requires Inv(s) && c < |s.callers| && s.callers[c].at.Answered? && s.callers[c].at.outcome.Ok?
    ensures var x := s.callers[c];
            && x.key in s.stores && s.stores[x.key] == x.at.outcome.value
            && x.at.outcome.value.backend == s.backend && x.at.outcome.value.bucket == x.key.bucket
  {
    hide Bounded, PendingIsLive, SlotsFit;
    assert CallerFits(s, s.callers[c]);
  }

  /** All callers of a key that are given a store are given the same one, and it stays
      the one the registry holds. */
  lemma AnswersAgree(backend: Backend, events: seq<Event>, c: nat, d: nat)
    requires var s := Run(Initial(backend), events);
             && c < |s.callers| && s.callers[c].at.Answered? && s.callers[c].at.outcome.Ok?
             && d < |s.callers| && s.callers[d].at.Answered? && s.callers[d].at.outcome.Ok?
             && s.callers[c].key == s.callers[d].key
    ensures var s := Run(Initial(backend), events);
            && s.callers[c].key in s.stores
            && s.callers[c].at.outcome == s.callers[d].at.outcome == Ok(s.stores[s.callers[c].key])
  {
    hide Run, Inv;
    var s := Run(Initial(backend), events);
    RegistryStaysSound(backend, events);
    AnswerIsStored(s, c);
    AnswerIsStored(s, d);
  }

  lemma {:induction false} BackendIsFixed(s: State, events: seq<Event>)
    ensures Run(s, events).backend == s.backend
    decreases |events|
  {
    if events == [] {
    } else {
      BackendIsFixedStep(s, events[0]);
      hide Apply;
      BackendIsFixed(Apply(s, events[0]), events[1..]);
    }
  }

  lemma BackendIsFixedStep(s: State, e: Event)
    ensures Apply(s, e).backend == s.backend
  {
  }

  /** The store that a request resolves to serves the bucket the request named, and
      refuses every other target. */
  lemma ResolvedStoreIsBound(backend: Backend, events: seq<Event>, c: nat, r: Request, target: Request)
    requires var s := Run(Initial(backend), events);
             && c < |s.callers| && s.callers[c].at.Answered? && s.callers[c].at.outcome.Ok?
             && r.broker.Some? && KeyFor(backend, r) == Ok(s.callers[c].key)
    ensures Admits(Run(Initial(backend), events).callers[c].at.outcome.value, target)
            <==> target.backend == r.backend && target.bucket == r.bucket && target.broker.None?
  {
    var s := Run(Initial(backend), events);
    assert r.backend == backend;
    hide Run, Inv, KeyFor;
    RegistryStaysSound(backend, events);
    BackendIsFixed(Initial(backend), events);
    AnswerIsStored(s, c);
    KeyNamesItsBucket(backend, r);
  }

  lemma RecordKeepsStores(s: State, i: nat, k: Key)
    requires Inv(s) && k in s.stores && i < |s.slots|
    ensures k in RecordStep(s, i).stores && RecordStep(s, i).stores[k] == s.stores[k]
  {
    hide PendingIsLive, SlotsFit, StoresAreBuilt, CallersFit;
    SlotOf(s, i);
  }

  lemma OthersKeepStores(s: State, e: Event)
    requires !e.Record?
    ensures Apply(s, e).stores == s.stores
  {
    hide WakeAll, ResultOf;
  }

  lemma StepKeepsStores(s: State, e: Event, k: Key)
    requires Inv(s) && k in s.stores
    ensures k in Apply(s, e).stores && Apply(s, e).stores[k] == s.stores[k]
  {
    hide Inv, CallerStep, RecordStep;
    if e.Record? {
      if e.slot < |s.slots| {
        RecordKeepsStores(s, e.slot, k);
      }
    } else {
      OthersKeepStores(s, e);
    }
  }

  /** A registered store is never removed and never replaced. */
  lemma {:induction false} StoresAreKept(s: State, events: seq<Event>, k: Key)
    requires Inv(s) && k in s.stores
    ensures k in Run(s, events).stores && Run(s, events).stores[k] == s.stores[k]
    decreases |events|
  {
    hide Inv, Apply;
    if events == [] {
    } else {
      StepKeeps(s, events[0]);
      StepKeepsStores(s, events[0], k);
      StoresAreKept(Apply(s, events[0]), events[1..], k);
    }
  }

  /** No wakeup is lost: a caller that is parked and not woken waits for a task that has
      yet to notify, and no caller enters its waiting loop more than twice. */
  lemma NoWaiterIsStranded(backend: Backend, events: seq<Event>, c: nat)
    requires c < |Run(Initial(backend), events).callers|
    ensures var s := Run(Initial(backend), events);
            var x := s.callers[c];
            && x.rounds <= 2
            && (x.at.Parked? && !x.at.woken ==> x.at.slot < |s.slots| && !s.slots[x.at.slot].stage.Notified?)
            && (x.at.Parked? && x.at.woken ==> ResultOf(s, x.at.slot).Some?)
  {
    hide Run, Inv;
    RegistryStaysSound(backend, events);
    RoundsOf(Run(Initial(backend), events), c);
  }

  // ----- what a task achieves whatever its callers do ---------------------

  lemma RunOfTwo(s: State, a: Event, b: Event)
    ensures Run(s, [a, b]) == Apply(Apply(s, a), b)
  {
    hide Apply;
    assert [a, b][1..] == [b];
    assert Run(s, [a, b]) == Run(Apply(s, a), [b]);
    assert [b][1..] == [];
  }

  /** Where a slot is once its task has finished and recorded. */
  lemma TaskRecords(s: State, i: nat, failure: Option<string>)
    requires Inv(s) && i < |s.slots| && Live(s.slots[i])
    ensures var t := Run(s, [Finish(i, failure), Record(i)]);
            var k := s.slots[i].key;
            && Inv(t) && t.callers == s.callers && i < |t.slots| && t.slots[i].key == k
            && t.slots[i].stage.Recorded? && k !in t.pending && |t.pending| == |s.pending| - 1
            && (k in t.stores <==> Succeeded(t.slots[i]))
  {
    hide Run, Inv;
    RunOfTwo(s, Finish(i, failure), Record(i));
    var u := FinishStep(s, i, failure);
    FinishKeeps(s, i, failure);
    RecordKeeps(u, i);
    SlotOf(u, i);
    MapsOf(u);
    RecordBounded(u, i);
  }

  lemma MapsOf(s: State)
    requires Inv(s)
    ensures Bounded(s)
  {
    hide PendingIsLive, SlotsFit, StoresAreBuilt, CallersFit, Bounded;
  }

  /** A pending key is freed by its own task alone, with no help from any caller. */
  lemma PendingKeyIsFreed(s: State, k: Key, failure: Option<string>)
    requires Inv(s) && k in s.pending
    ensures var t := Run(s, [Finish(s.pending[k], failure), Record(s.pending[k])]);
            t.callers == s.callers && k !in t.pending && |t.pending| == |s.pending| - 1
  {
    hide Run, SlotsFit, StoresAreBuilt, CallersFit, Bounded;
    TaskRecords(s, s.pending[k], failure);
  }

  /** A build that fails or panics leaves its key free and a place in the registry, so
      that the next caller to reach the write lock starts a new task for it. */
  lemma FailedKeyCanBeRetried(s: State, i: nat, c: nat)
    requires Inv(s) && i < |s.slots| && s.slots[i].stage.Built? && s.slots[i].stage.result.Err?
    requires c < |s.callers| && s.callers[c].at.Unregistered? && s.callers[c].key == s.slots[i].key
    ensures var k := s.slots[i].key;
            var t := Run(s, [Record(i), Register(c)]);
            && k !in t.stores && k in t.pending && t.pending[k] == |s.slots|
            && |t.slots| == |s.slots| + 1 && t.slots[|s.slots|] == Slot(k, Building)
            && t.slots[i].stage == Recorded(s.slots[i].stage.result)
            && |t.callers| == |s.callers| && t.callers[c].at == Waiting(|s.slots|)
  {
    hide Run, Inv;
    RunOfTwo(s, Record(i), Register(c));
    SlotOf(s, i);
    MapsOf(s);
    RecordBounded(s, i);
  }

  /** A caller in its waiting loop for a slot. */
  predicate WaitsFor(x: Caller, i: nat) {
    (x.at.Waiting? || x.at.Enabled? || x.at.Parked?) && x.at.slot == i
  }

  function Rank(stage: Stage): nat {
    match stage
    case Building => 0
    case Built(_) => 1
    case Recorded(_) => 2
    case Published(_) => 3
    case Notified(_) => 4
  }

  /** How far a waiting caller and its slot's task have come together: four steps of the
      task, then three of the caller. */
  function Level(s: State, c: nat, i: nat): nat
    requires c < |s.callers| && i < |s.slots|
  {
    var at, rank := s.callers[c].at, Rank(s.slots[i].stage);
    if at.Answered? then 7
    else if rank < 4 then rank
    else if at.Enabled? then 6
    else if at.Waiting? then 5
    else 4
  }

  /** The caller waits for the slot, or has been answered with its result. */
  predicate Bound(s: State, c: nat, i: nat) {
    && c < |s.callers| && i < |s.slots|
    && (WaitsFor(s.callers[c], i) || (s.callers[c].at.Answered? && ResultOf(s, i) == Some(s.callers[c].at.outcome)))
  }

  predicate Pledged(s: State, c: nat, i: nat) {
    Bound(s, c, i) && CallerFits(s, s.callers[c])
  }

  /** The step that leads on from each level. */
  predicate IsStep(e: Event, k: nat, c: nat, i: nat) {
    match k
    case 0 => e.Finish? && e.slot == i
    case 1 => e == Record(i)
    case 2 => e == Publish(i)
    case 3 => e == Notify(i)
    case 4 => e == Wake(c)
    case 5 => e == Enable(c)
    case 6 => e == Check(c)
    case _ => false
  }

  /** The slot's task and the caller take their remaining steps in order, among any others. */
  predicate Takes(events: seq<Event>, k: nat, c: nat, i: nat)
    decreases |events|
  {
    k >= 7 || (events != [] && Takes(events[1..], if IsStep(events[0], k, c, i) then k + 1 else k, c, i))
  }

  /** Between two states of a bound caller: never back, and on if the event is the step. */
  predicate Lifts(s: State, e: Event, t: State, c: nat, i: nat)
    requires Bound(s, c, i)
  {
    && Bound(t, c, i) && Level(t, c, i) >= Level(s, c, i)
    && (IsStep(e, Level(s, c, i), c, i) ==> Level(t, c, i) > Level(s, c, i))
  }

  predicate IsCallerEvent(e: Event) {
    e.Lookup? || e.Register? || e.Enable? || e.Check? || e.Wake? || e.Cancel?
  }

  predicate IsTaskEvent(e: Event) {
    e.Finish? || e.Record? || e.Publish? || e.Notify?
  }

  lemma OwnStepLifts(s: State, e: Event, c: nat, i: nat)
    requires Pledged(s, c, i) && IsCallerEvent(e) && e.caller == c && !e.Cancel?
    ensures Lifts(s, e, CallerStep(s, e, c), c, i)
  {
    hide Reserve;
  }

  lemma TaskStepLifts(s: State, e: Event, c: nat, i: nat)
    requires Pledged(s, c, i) && IsTaskEvent(e) && e.slot == i
    ensures Lifts(s, e, TaskStep(s, e, i), c, i)
  {
  }

  /** A step of somebody else touches neither the caller nor its slot. */
  predicate Untouched(s: State, t: State, c: nat, i: nat)
    requires Bound(s, c, i)
  {
    c < |t.callers| && i < |t.slots| && t.callers[c] == s.callers[c] && t.slots[i] == s.slots[i]
  }

  lemma OtherCallerLeaves(s: State, e: Event, c: nat, d: nat, i: nat)
    requires Bound(s, c, i) && d < |s.callers| && d != c
    ensures Untouched(s, CallerStep(s, e, d), c, i)
  {
    hide ResultOf;
  }

  lemma OtherTaskLeaves(s: State, e: Event, c: nat, j: nat, i: nat)
    requires Bound(s, c, i) && j < |s.slots| && j != i
    ensures Untouched(s, TaskStep(s, e, j), c, i)
  {
  }

  lemma UntouchedLifts(s: State, e: Event, t: State, c: nat, i: nat)
    requires Bound(s, c, i) && Untouched(s, t, c, i)
    requires IsCallerEvent(e) ==> e.caller != c
    requires IsTaskEvent(e) ==> e.slot != i
    ensures Lifts(s, e, t, c, i)
  {
  }

  /** Nothing but its own cancellation sets a waiting caller back, and each step in turn
      takes it on. */
  lemma EventLifts(s: State, e: Event, c: nat, i: nat)
    requires Pledged(s, c, i) && e != Cancel(c)
    ensures Lifts(s, e, Apply(s, e), c, i)
  {
    hide Lifts, CallerStep, TaskStep, CallerFits, WaitsFor;
    if IsTaskEvent(e) && e.slot == i {
      TaskStepLifts(s, e, c, i);
    } else if IsCallerEvent(e) && e.caller == c {
      OwnStepLifts(s, e, c, i);
    } else {
      if IsTaskEvent(e) && e.slot < |s.slots| {
        OtherTaskLeaves(s, e, c, e.slot, i);
      } else if IsCallerEvent(e) && e.caller < |s.callers| {
        OtherCallerLeaves(s, e, c, e.caller, i);
      }
      UntouchedLifts(s, e, Apply(s, e), c, i);
    }
  }

  lemma StepLifts(s: State, e: Event, c: nat, i: nat, k: nat)
    requires Inv(s) && Pledged(s, c, i) && e != Cancel(c) && k <= Level(s, c, i)
    ensures var t := Apply(s, e);
            && Inv(t) && Pledged(t, c, i) && k <= Level(t, c, i)
            && (IsStep(e, k, c, i) ==> k + 1 <= Level(t, c, i))
  {
    hide Inv, Apply, CallerFits, WaitsFor, Level, IsStep;
    StepKeeps(s, e);
    EventLifts(s, e, c, i);
    RoundsOf(Apply(s, e), c);
  }

  lemma {:induction false} StepsLift(s: State, c: nat, i: nat, k: nat, events: seq<Event>)
    requires Inv(s) && Pledged(s, c, i) && k <= Level(s, c, i)
    requires Takes(events, k, c, i) && Cancel(c) !in events
    ensures var t := Run(s, events); Pledged(t, c, i) && Level(t, c, i) == 7
    decreases |events|
  {
    hide Inv, Apply, CallerFits;
    if events == [] {
    } else {
      var next := if IsStep(events[0], k, c, i) then k + 1 else k;
      StepLifts(s, events[0], c, i, k);
      StepsLift(Apply(s, events[0]), c, i, next, events[1..]);
    }
  }

  /** From every reachable state a waiting caller that is not cancelled is answered, with
      its slot's result, once the slot's task and then the caller have taken their steps,
      whatever others do in between and whatever became of the caller that started it. */
  lemma WaiterIsAnswered(s: State, i: nat, c: nat, events: seq<Event>)
    requires Inv(s) && i < |s.slots| && c < |s.callers| && WaitsFor(s.callers[c], i)
    requires Takes(events, 0, c, i) && Cancel(c) !in events
    ensures var t := Run(s, events);
            && i < |t.slots| && c < |t.callers|
            && t.callers[c].at.Answered? && ResultOf(t, i) == Some(t.callers[c].at.outcome)
  {
    hide Inv, Run, Takes;
    RoundsOf(s, c);
    StepsLift(s, c, i, 0, events);
  }

  // ----- what cancelling does, and does not do -----------------------------

  predicate OfCaller(e: Event, c: nat) {
    IsCallerEvent(e) && e.caller == c
  }

  /** The events but those of one caller. */
  function LeavingOut(events: seq<Event>, c: nat): seq<Event> {
    if events == [] then []
    else if OfCaller(events[0], c) then LeavingOut(events[1..], c)
    else [events[0]] + LeavingOut(events[1..], c)
  }

  /** Two states that differ at most in one caller. */
  predicate SameBut(s: State, t: State, c: nat) {
    && s.backend == t.backend && s.stores == t.stores && s.pending == t.pending && s.slots == t.slots
    && |s.callers| == |t.callers| && c < |s.callers|
    && forall d :: 0 <= d < |s.callers| && d != c ==> s.callers[d] == t.callers[d]
  }

  predicate Gone(s: State, c: nat) {
    c < |s.callers| && s.callers[c].at.Dropped?
  }

  lemma UpdateAlike(s: State, t: State, c: nat, d: nat, x: Caller)
    requires SameBut(s, t, c) && d < |s.callers| && d < |t.callers| && d != c
    ensures SameBut(s.(callers := s.callers[d := x]), t.(callers := t.callers[d := x]), c)
    ensures Gone(s, c) ==> Gone(s.(callers := s.callers[d := x]), c)
  {
  }

  lemma ReserveAlike(s: State, t: State, c: nat, key: Key)
    requires SameBut(s, t, c)
    ensures SameBut(Reserve(s, key), Reserve(t, key), c)
  {
  }

  lemma AlikeMeans(s: State, t: State, c: nat, d: nat)
    requires SameBut(s, t, c) && d < |s.callers| && d != c
    ensures d < |t.callers| && s.callers[d] == t.callers[d]
    ensures s.stores == t.stores && s.pending == t.pending && s.slots == t.slots
  {
  }

  lemma OtherCallerAlike(s: State, t: State, e: Event, c: nat, d: nat)
    requires SameBut(s, t, c) && d < |s.callers| && d != c
    ensures SameBut(CallerStep(s, e, d), CallerStep(t, e, d), c)
    ensures Gone(s, c) ==> Gone(CallerStep(s, e, d), c)
  {
    hide SameBut, Gone;
    AlikeMeans(s, t, c, d);
    var after := CallerStep(s, e, d);
    ReserveAlike(s, t, c, s.callers[d].key);
    GoneInReserve(s, c, s.callers[d].key);
    OwnUpdate(s, e, d);
    var x := after.callers[d];
    UpdateAlike(s, t, c, d, x);
    UpdateAlike(Reserve(s, s.callers[d].key), Reserve(t, s.callers[d].key), c, d, x);
    OwnUpdate(t, e, d);
  }

  lemma GoneInReserve(s: State, c: nat, key: Key)
    ensures Gone(s, c) ==> Gone(Reserve(s, key), c)
  {
  }

  /** A caller's step moves that caller, and at most reserves its key. */
  lemma OwnUpdate(s: State, e: Event, d: nat)
    requires d < |s.callers|
    ensures var after := CallerStep(s, e, d);
            && d < |after.callers|
            && after == (if |after.slots| > |s.slots| then Reserve(s, s.callers[d].key) else s)
                          .(callers := s.callers[d := after.callers[d]])
  {
    assert s.callers[d := s.callers[d]] == s.callers;
  }

  lemma TaskAlike(s: State, t: State, e: Event, c: nat, i: nat)
    requires SameBut(s, t, c) && i < |s.slots|
    ensures SameBut(TaskStep(s, e, i), TaskStep(t, e, i), c)
    ensures Gone(s, c) ==> Gone(TaskStep(s, e, i), c)
  {
  }

  lemma StepAlike(s: State, t: State, e: Event, c: nat)
    requires SameBut(s, t, c) && !OfCaller(e, c)
    ensures SameBut(Apply(s, e), Apply(t, e), c)
    ensures Gone(s, c) ==> Gone(Apply(s, e), c)
  {
    if e.Arrive? {
      hide CallerStep, TaskStep;
    } else if IsTaskEvent(e) {
      hide SameBut, CallerStep, TaskStep;
      if e.slot < |s.slots| && SameSizes(s, t, c) {
        TaskAlike(s, t, e, c, e.slot);
      }
    } else {
      hide SameBut, CallerStep, TaskStep;
      if e.caller < |s.callers| && SameSizes(s, t, c) {
        OtherCallerAlike(s, t, e, c, e.caller);
      }
    }
  }

  predicate SameSizes(s: State, t: State, c: nat) {
    |s.slots| == |t.slots| && |s.callers| == |t.callers|
  }

  lemma GoneStays(s: State, e: Event, c: nat)
    requires Gone(s, c) && OfCaller(e, c)
    ensures Apply(s, e) == s
  {
    if e.Cancel? {
      assert s.callers[c := s.callers[c]] == s.callers;
    }
  }

  lemma {:induction false} GoneForGood(s: State, t: State, c: nat, events: seq<Event>)
    requires SameBut(s, t, c) && Gone(s, c)
    ensures Gone(Run(s, events), c) && SameBut(Run(s, events), Run(t, LeavingOut(events, c)), c)
    decreases |events|
  {
    hide Apply, SameBut, Gone, OfCaller;
    if events == [] {
    } else if OfCaller(events[0], c) {
      GoneStays(s, events[0], c);
      GoneForGood(s, t, c, events[1..]);
    } else {
      StepAlike(s, t, events[0], c);
      GoneForGood(Apply(s, events[0]), Apply(t, events[0]), c, events[1..]);
      var rest := LeavingOut(events[1..], c);
      assert ([events[0]] + rest)[1..] == rest;
    }
  }

  /** A caller that is cancelled before it is answered is never answered; and to the maps,
      the slots and all other callers it is as if it had just taken no further step. */
  lemma CancelledIsGone(s: State, c: nat, events: seq<Event>)
    requires c < |s.callers| && !s.callers[c].at.Answered?
    ensures var t, u := Run(Apply(s, Cancel(c)), events), Run(s, LeavingOut(events, c));
            && c < |t.callers| && t.callers[c].at == Dropped
            && t.stores == u.stores && t.pending == u.pending && t.slots == u.slots
            && |t.callers| == |u.callers|
            && forall d :: 0 <= d < |t.callers| && d != c ==> t.callers[d] == u.callers[d]
  {
    hide Run, LeavingOut;
    GoneForGood(Apply(s, Cancel(c)), s, c, events);
  }

  /** A task that has not failed, and how far it has come. */
  predicate Sound(s: State, i: nat) {
    i < |s.slots| && (s.slots[i].stage.Building? || s.slots[i].stage.result.Ok?)
  }

  function BuildLevel(s: State, i: nat): nat
    requires i < |s.slots|
  {
    if s.slots[i].stage.Building? then 0 else if s.slots[i].stage.Built? then 1 else 2
  }

  /** The task finishes without failure and later records, among any other events. */
  predicate Builds(events: seq<Event>, k: nat, i: nat)
    decreases |events|
  {
    k >= 2 ||
    (events != [] &&
     Builds(events[1..], if events[0] == (if k == 0 then Finish(i, None) else Record(i)) then k + 1 else k, i))
  }

  predicate FailsBuild(e: Event, i: nat) {
    e.Finish? && e.slot == i && e.failure.Some?
  }

  lemma StepBuilds(s: State, e: Event, i: nat)
    requires Sound(s, i) && !FailsBuild(e, i)
    ensures var t := Apply(s, e);
            && Sound(t, i) && t.slots[i].key == s.slots[i].key && BuildLevel(t, i) >= BuildLevel(s, i)
            && (e == Finish(i, None) ==> BuildLevel(t, i) >= 1)
            && (e == Record(i) && BuildLevel(s, i) >= 1 ==> BuildLevel(t, i) >= 2)
  {
    hide WakeAll, ResultOf;
  }

  lemma {:induction false} StepsBuild(s: State, i: nat, k: nat, events: seq<Event>)
    requires Inv(s) && Sound(s, i) && k <= BuildLevel(s, i) && Builds(events, k, i)
    requires forall j :: 0 <= j < |events| ==> !FailsBuild(events[j], i)
    ensures var t := Run(s, events);
            Inv(t) && Sound(t, i) && BuildLevel(t, i) >= 2 && t.slots[i].key == s.slots[i].key
    decreases |events|
  {
    hide Inv, Apply, Sound, BuildLevel, FailsBuild;
    assert Sound(s, i) ==> i < |s.slots| by { SoundIsASlot(s, i); }
    if events == [] {
    } else {
      StepBuilds(s, events[0], i);
      StepKeeps(s, events[0]);
      SoundIsASlot(Apply(s, events[0]), i);
      var next := if events[0] == (if k == 0 then Finish(i, None) else Record(i)) then k + 1 else k;
      StepsBuild(Apply(s, events[0]), i, if next <= 2 then next else 2, events[1..]);
    }
  }

  lemma SoundIsASlot(s: State, i: nat)
    requires Sound(s, i)
    ensures i < |s.slots|
  {
  }

  /** The task that a caller started registers its key even if the caller is cancelled: it
      is enough that the build succeeds and is recorded, whatever else happens. */
  lemma CancelledBuildIsKept(s: State, c: nat, events: seq<Event>)
    requires Inv(s) && c < |s.callers| && s.callers[c].at.Unregistered?
    requires s.callers[c].key !in s.stores && s.callers[c].key !in s.pending
    requires |s.stores| + |s.pending| < 4096
    requires Builds(events, 0, |s.slots|)
    requires forall j :: 0 <= j < |events| ==> !FailsBuild(events[j], |s.slots|)
    ensures var t := Run(Apply(Apply(s, Register(c)), Cancel(c)), events);
            && s.callers[c].key in t.stores && t.stores[s.callers[c].key].id == |s.slots|
            && c < |t.callers| && t.callers[c].at == Dropped
  {
    var u := Apply(s, Register(c));
    var v := Apply(u, Cancel(c));
    assert Sound(v, |s.slots|) && v.slots[|s.slots|] == Slot(s.callers[c].key, Building);
    assert c < |u.callers| && !u.callers[c].at.Answered?;
    hide Inv, Run, Apply;
    StepKeeps(s, Register(c));
    StepKeeps(u, Cancel(c));
    StepsBuild(v, |s.slots|, 0, events);
    SlotOf(Run(v, events), |s.slots|);
    CancelledIsGone(u, c, events);
  }

  /** When a second task of a key starts while an earlier one is unfinished: exactly when
      the key is in neither map, and then the earlier one has recorded a failure that it
      has still to publish or announce. */
  lemma OverlapExactlyWhen(s: State, i: nat, c: nat)
    requires Inv(s) && i < |s.slots| && !s.slots[i].stage.Notified?
    requires c < |s.callers| && s.callers[c].at.Unregistered? && s.callers[c].key == s.slots[i].key
    requires |s.stores| + |s.pending| < 4096
    ensures var k, t := s.slots[i].key, Apply(s, Register(c));
            && (|t.slots| > |s.slots| <==> k !in s.stores && k !in s.pending)
            && (|t.slots| > |s.slots| ==>
                  && t.slots == s.slots + [Slot(k, Building)]
                  && (s.slots[i].stage.Recorded? || s.slots[i].stage.Published?) && s.slots[i].stage.result.Err?)
  {
    hide Inv;
    SlotOf(s, i);
  }

  /** Why `Live` and not "unfinished": a failed task that has freed its key but not yet
      published may still be running when its successor starts. */
  lemma FailedTaskMayOverlap(backend: Backend, k: Key)
    ensures var s := Run(Initial(backend),
                         [Arrive(k), Lookup(0), Register(0), Finish(0, Some("refused")), Record(0),
                          Arrive(k), Lookup(1), Register(1)]);
            s.slots == [Slot(k, Recorded(Err(BuildFailed("refused")))), Slot(k, Building)]
  {
    var s3 := State(backend, map[], map[k := 0], [Slot(k, Building)], [Caller(k, Waiting(0), 0)]);
    var failed: Outcome := Err(BuildFailed("refused"));
    var s5 := State(backend, map[], map[], [Slot(k, Recorded(failed))], [Caller(k, Waiting(0), 0)]);
    var first := [Arrive(k), Lookup(0), Register(0)];
    var second := [Finish(0, Some("refused")), Record(0)];
    var third := [Arrive(k), Lookup(1), Register(1)];
    assert Run(Initial(backend), first) == s3 by { FirstBuild(backend, k); }
    assert Run(s3, second) == s5 by { FirstFails(backend, k, "refused"); }
    assert Run(s5, third).slots == [Slot(k, Recorded(failed)), Slot(k, Building)] by {
      SecondBuild(backend, k, failed);
    }
    hide Run, Apply;
    RunSplits(Initial(backend), first, second + third);
    RunSplits(s3, second, third);
    assert [Arrive(k), Lookup(0), Register(0), Finish(0, Some("refused")), Record(0),
            Arrive(k), Lookup(1), Register(1)] == first + (second + third);
  }

  lemma RunOfThree(s: State, a: Event, b: Event, c: Event)
    ensures Run(s, [a, b, c]) == Apply(Apply(Apply(s, a), b), c)
  {
    hide Apply;
    assert [a, b, c][1..] == [b, c];
    assert Run(s, [a, b, c]) == Run(Apply(s, a), [b, c]);
    RunOfTwo(Apply(s, a), b, c);
  }

  lemma FirstBuild(backend: Backend, k: Key)
    ensures Run(Initial(backend), [Arrive(k), Lookup(0), Register(0)])
            == State(backend, map[], map[k := 0], [Slot(k, Building)], [Caller(k, Waiting(0), 0)])
  {
    hide Run;
    RunOfThree(Initial(backend), Arrive(k), Lookup(0), Register(0));
    var s1 := Apply(Initial(backend), Arrive(k));
    assert s1.callers == [Caller(k, Start, 0)];
    var s2 := Apply(s1, Lookup(0));
    assert s2.callers == [Caller(k, Unregistered, 0)];
  }

  lemma FirstFails(backend: Backend, k: Key, why: string)
    ensures Run(State(backend, map[], map[k := 0], [Slot(k, Building)], [Caller(k, Waiting(0), 0)]),
                [Finish(0, Some(why)), Record(0)])
            == State(backend, map[], map[], [Slot(k, Recorded(Err(BuildFailed(why))))], [Caller(k, Waiting(0), 0)])
  {
    hide Run;
    var s := State(backend, map[], map[k := 0], [Slot(k, Building)], [Caller(k, Waiting(0), 0)]);
    RunOfTwo(s, Finish(0, Some(why)), Record(0));
    var failed: Outcome := Err(BuildFailed(why));
    assert Apply(s, Finish(0, Some(why))).slots == [Slot(k, Built(failed))];
    assert map[k := 0] - {k} == map[];
  }

  lemma SecondBuild(backend: Backend, k: Key, failed: Outcome)
    ensures Run(State(backend, map[], map[], [Slot(k, Recorded(failed))], [Caller(k, Waiting(0), 0)]),
                [Arrive(k), Lookup(1), Register(1)]).slots
            == [Slot(k, Recorded(failed)), Slot(k, Building)]
  {
    hide Run;
    var s := State(backend, map[], map[], [Slot(k, Recorded(failed))], [Caller(k, Waiting(0), 0)]);
    RunOfThree(s, Arrive(k), Lookup(1), Register(1));
    var s1 := Apply(s, Arrive(k));
    assert s1.callers == [Caller(k, Waiting(0), 0), Caller(k, Start, 0)];
    var s2 := Apply(s1, Lookup(1));
    assert s2.callers == [Caller(k, Waiting(0), 0), Caller(k, Unregistered, 0)];
  }

  lemma {:induction false} RunSplits(s: State, a: seq<Event>, b: seq<Event>)
    ensures Run(s, a + b) == Run(Run(s, a), b)
    decreases |a|
  {
    hide Apply;
    if a == [] {
      assert a + b == b;
    } else {
      HeadTail(a, b);
      RunSplits(Apply(s, a[0]), a[1..], b);
    }
  }

  // ----- the registry as the code keeps it --------------------------------

  lemma FoundMeans(s: State, key: Key)
    requires Inv(s)
    ensures key in s.stores ==> s.stores[key].backend == s.backend && s.stores[key].bucket == key.bucket
    ensures key in s.pending ==> s.pending[key] < |s.slots| && s.slots[s.pending[key]].key == key
                                 && Live(s.slots[s.pending[key]]) && key !in s.stores
  {
    hide SlotsFit, CallersFit;
  }

  lemma BuiltMeans(s: State, i: nat)
    requires Inv(s) && i < |s.slots| && Live(s.slots[i])
    ensures s.slots[i].key in s.pending && s.pending[s.slots[i].key] == i && s.slots[i].key !in s.stores
    ensures |s.pending - {s.slots[i].key}| == |s.pending| - 1
  {
    hide PendingIsLive, StoresAreBuilt, CallersFit;
    SlotOf(s, i);
    Removed(s.pending, s.slots[i].key);
  }

  /** Other keys keep their stores and pending entries. */
  ghost predicate OthersKept(s: State, t: State, key: Key) {
    && (forall k :: k != key ==> (k in t.pending <==> k in s.pending) && (k in t.stores <==> k in s.stores))
    && (forall k :: k in t.pending ==> k in s.pending && t.pending[k] == s.pending[k])
    && (forall k :: k in s.stores ==> k in t.stores && t.stores[k] == s.stores[k])
  }

  lemma RecordMeans(s: State, i: nat)
    requires Inv(s) && i < |s.slots| && s.slots[i].stage.Built?
    ensures var key, t := s.slots[i].key, RecordStep(s, i);
            && key !in t.pending && |t.pending| == |s.pending| - 1
            && (key in t.stores <==> s.slots[i].stage.result.Ok?)
            && OthersKept(s, t, key)
  {
    hide Inv;
    BuiltMeans(s, i);
  }

  /** `DynamicBackends` with its slots and the callers inside `resolve_dynamic`. Each
      method is one critical section or one step between awaits: it performs the event of
      its name and keeps the registry valid. */
  class DynamicBackends {
    const backend: Backend
    var stores: map<Key, Store>
    var pending: map<Key, nat>
    var slots: seq<Slot>
    var callers: seq<Caller>

    constructor (family: Backend)
      ensures View() == Initial(family) && Valid()
    {
      backend := family;
      stores, pending, slots, callers := map[], map[], [], [];
    }

    ghost function View(): State
      reads this
    {
      State(backend, stores, pending, slots, callers)
    }

    ghost predicate Valid()
      reads this
    {
      Inv(View())
    }

    /** The caller waits for the live task of its own key. */
    ghost predicate Served(x: Caller)
      reads this
    {
      x.at.Waiting? && x.key in pending && pending[x.key] == x.at.slot && x.at.slot < |slots|
      && slots[x.at.slot].key == x.key && Live(slots[x.at.slot])
    }

    /** The key is in neither map and there is room for it. */
    ghost predicate Free(key: Key)
      reads this
    {
      key !in stores && key !in pending && |stores| + |pending| < 4096
    }

    /** A request arrives with its key. */
    method Enter(key: Key) returns (c: nat)
      requires Valid()
      modifies this`callers
      ensures Valid() && View() == Apply(old(View()), Arrive(key))
      ensures c == |old(callers)| && callers == old(callers) + [Caller(key, Start, 0)]
    {
      hide Inv;
      StepKeeps(View(), Arrive(key));
      c := |callers|;
      callers := callers + [Caller(key, Start, 0)];
    }

    method MoveTo(c: nat, at: Position)
      requires c < |callers|
      modifies this`callers
      ensures View() == Move(old(View()), c, at)
    {
      callers := callers[c := callers[c].(at := at)];
    }

    /** Under the read lock: a registered store answers the caller, and is bound to the
        key's bucket; a pending key makes it wait for the key's live task; and otherwise
        the key is in neither map. */
    method LookUp(c: nat)
      requires Valid() && c < |callers| && callers[c].at.Start?
      modifies this`callers
      ensures Valid() && View() == Apply(old(View()), Lookup(c))
      ensures |callers| == |old(callers)| && callers[c].key == old(callers[c].key)
      ensures var x := callers[c];
              if x.key in stores then x.at == Answered(Ok(stores[x.key])) && stores[x.key].bucket == x.key.bucket
              else if x.key in pending then Served(x)
              else x.at.Unregistered?
    {
      hide Inv;
      StepKeeps(View(), Lookup(c));
      var key := callers[c].key;
      FoundMeans(View(), key);
      if key in stores {
        MoveTo(c, Answered(Ok(stores[key])));
      } else if key in pending {
        MoveTo(c, Waiting(pending[key]));
      } else {
        MoveTo(c, Unregistered);
      }
    }

    /** Under the write lock: nothing pending is disturbed; the caller is answered by a
        store that was registered meanwhile, waits for the live task of its key, or is
        refused; a task is started exactly for a key in neither map while there is room. */
    method TryRegister(c: nat)
      requires Valid() && c < |callers| && callers[c].at.Unregistered?
      modifies this`callers, this`pending, this`slots
      ensures Valid() && View() == Apply(old(View()), Register(c))
      ensures |callers| == |old(callers)| && callers[c].key == old(callers[c].key)
      ensures forall k :: k in old(pending) ==> k in pending && pending[k] == old(pending)[k]
      ensures var x := callers[c];
              if x.key in stores then x.at == Answered(Ok(stores[x.key]))
              else if x.key in pending then Served(x)
              else x.at == Answered(Err(LimitReached)) && |stores| + |pending| >= 4096
      ensures slots == old(slots) + (if old(Free(callers[c].key)) then [Slot(callers[c].key, Building)] else [])
    {
      hide Inv;
      StepKeeps(View(), Register(c));
      var key := callers[c].key;
      FoundMeans(View(), key);
      if key in stores {
        MoveTo(c, Answered(Ok(stores[key])));
        return;
      }
      if key in pending {
        MoveTo(c, Waiting(pending[key]));
        return;
      }
      if |stores| + |pending| >= MAX_DYNAMIC_BACKENDS {
        MoveTo(c, Answered(Err(LimitReached)));
        return;
      }
      var slot := |slots|;
      pending := pending[key := slot];
      slots := slots + [Slot(key, Building)];
      MoveTo(c, Waiting(slot));
    }

    /** The caller is among those that the next notification of its slot wakes. */
    method EnableNotified(c: nat)
      requires Valid() && c < |callers| && callers[c].at.Waiting?
      modifies this`callers
      ensures Valid() && View() == Apply(old(View()), Enable(c))
      ensures |callers| == |old(callers)| && callers[c].key == old(callers[c].key)
      ensures callers[c].at == Enabled(old(callers[c].at.slot), false)
      ensures callers[c].rounds == old(callers[c].rounds) + 1
    {
      hide Inv;
      StepKeeps(View(), Enable(c));
      var x := callers[c];
      callers := callers[c := Caller(x.key, Enabled(x.at.slot, false), x.rounds + 1)];
    }

    /** A set result answers the caller, a store being the one registered for its key;
        otherwise it parks in its first round, and its slot's task has yet to notify. */
    method CheckResult(c: nat)
      requires Valid() && c < |callers| && callers[c].at.Enabled?
      modifies this`callers
      ensures Valid() && View() == Apply(old(View()), Check(c))
      ensures |callers| == |old(callers)| && callers[c].key == old(callers[c].key)
      ensures callers[c].rounds == old(callers[c].rounds)
      ensures var x, i := callers[c], old(callers[c].at.slot);
              && i < |slots| && slots[i].key == x.key
              && (x.at.Answered? || x.at == Parked(i, false))
              && (x.at.Answered? && x.at.outcome.Ok? ==> x.key in stores && x.at.outcome == Ok(stores[x.key]))
              && (x.at.Parked? ==> x.rounds == 1 && !slots[i].stage.Notified?)
    {
      hide Inv;
      StepKeeps(View(), Check(c));
      RoundsOf(View(), c);
      RoundsOf(Apply(View(), Check(c)), c);
      var at := callers[c].at;
      if at.slot < |slots| && (slots[at.slot].stage.Published? || slots[at.slot].stage.Notified?) {
        MoveTo(c, Answered(slots[at.slot].stage.result));
      } else {
        MoveTo(c, Parked(at.slot, at.woken));
      }
    }

    /** A woken caller finds the result of its slot set. */
    method Resume(c: nat)
      requires Valid() && c < |callers| && callers[c].at.Parked? && callers[c].at.woken
      modifies this`callers
      ensures Valid() && View() == Apply(old(View()), Wake(c))
      ensures |callers| == |old(callers)| && callers[c].key == old(callers[c].key)
      ensures callers[c].at == Waiting(old(callers[c].at.slot)) && callers[c].rounds == old(callers[c].rounds)
      ensures ResultOf(View(), callers[c].at.slot).Some?
    {
      hide Inv;
      StepKeeps(View(), Wake(c));
      RoundsOf(View(), c);
      MoveTo(c, Waiting(callers[c].at.slot));
    }

    /** Dropping a caller leaves every other caller where it is. */
    method Drop(c: nat)
      requires Valid() && c < |callers| && !callers[c].at.Answered?
      modifies this`callers
      ensures Valid() && View() == Apply(old(View()), Cancel(c))
      ensures callers == old(callers)[c := Caller(old(callers[c].key), Dropped, old(callers[c].rounds))]
    {
      hide Inv;
      StepKeeps(View(), Cancel(c));
      MoveTo(c, Dropped);
    }

    /** The build returns, or panics and is caught: the key stays pending, and a store is
        bound to the key's bucket. */
    method FinishBuild(i: nat, failure: Option<string>)
      requires Valid() && i < |slots| && slots[i].stage.Building?
      modifies this`slots
      ensures Valid() && View() == Apply(old(View()), Finish(i, failure))
      ensures |slots| == |old(slots)| && slots[i].key == old(slots[i].key) && slots[i].stage.Built?
      ensures slots[i].key in pending && pending[slots[i].key] == i
      ensures slots[i].stage.result.Ok? <==> failure.None?
      ensures failure.None? ==> slots[i].stage.result.value.bucket == slots[i].key.bucket
    {
      hide Inv;
      StepKeeps(View(), Finish(i, failure));
      BuiltMeans(View(), i);
      var result: Outcome;
      if failure.Some? {
        result := Err(BuildFailed(failure.value));
      } else {
        result := Ok(Store(i, backend, slots[i].key.bucket));
      }
      slots := slots[i := slots[i].(stage := Built(result))];
    }

    /** Under the write lock: the key is freed in either case, and registered exactly if
        the build succeeded; every other key keeps its store or its pending entry. */
    method RecordResult(i: nat)
      requires Valid() && i < |slots| && slots[i].stage.Built?
      modifies this`stores, this`pending, this`slots
      ensures Valid() && View() == Apply(old(View()), Record(i))
      ensures |slots| == |old(slots)| && slots[i].key == old(slots[i].key)
      ensures slots[i].stage == Recorded(old(slots[i].stage.result))
      ensures slots[i].key !in pending && |pending| == |old(pending)| - 1
      ensures slots[i].key in stores <==> slots[i].stage.result.Ok?
      ensures OthersKept(old(View()), View(), slots[i].key)
    {
      hide Inv, OthersKept;
      StepKeeps(View(), Record(i));
      RecordMeans(View(), i);
      var key, result := slots[i].key, slots[i].stage.result;
      if result.Ok? {
        stores := stores[key := result.value];
      }
      pending := pending - {key};
      slots := slots[i := slots[i].(stage := Recorded(result))];
    }

    /** Every later check of the slot finds this result. */
    method SetResult(i: nat)
      requires Valid() && i < |slots| && slots[i].stage.Recorded?
      modifies this`slots
      ensures Valid() && View() == Apply(old(View()), Publish(i))
      ensures |slots| == |old(slots)| && slots[i].key == old(slots[i].key) && slots[i].stage.Published?
      ensures ResultOf(View(), i) == Some(old(slots[i].stage.result))
    {
      hide Inv;
      StepKeeps(View(), Publish(i));
      slots := slots[i := slots[i].(stage := Published(slots[i].stage.result))];
    }

    /** Nobody stays parked on the slot without being woken. */
    method NotifyWaiters(i: nat)
      requires Valid() && i < |slots| && slots[i].stage.Published?
      modifies this`slots, this`callers
      ensures Valid() && View() == Apply(old(View()), Notify(i))
      ensures |slots| == |old(slots)| && slots[i] == Slot(old(slots[i].key), Notified(old(slots[i].stage.result)))
      ensures |callers| == |old(callers)|
      ensures forall c :: 0 <= c < |callers| ==> callers[c] == WakeOne(old(callers)[c], i)
    {
      hide Inv;
      StepKeeps(View(), Notify(i));
      slots := slots[i := slots[i].(stage := Notified(slots[i].stage.result))];
      for c := 0 to |callers|
        invariant slots == old(slots)[i := old(slots)[i].(stage := Notified(old(slots)[i].stage.result))]
        invariant |callers| == |old(callers)|
        invariant callers[c..] == old(callers)[c..]
        invariant forall d :: 0 <= d < c ==> callers[d] == WakeOne(old(callers)[d], i)
      {
        var x := callers[c];
        assert x == old(callers)[c];
        if (x.at.Enabled? || x.at.Parked?) && x.at.slot == i {
          callers := callers[c := x.(at := x.at.(woken := true))];
        }
      }
      assert callers == WakeAll(old(callers), i);
    }

    /** The construction task of a slot, from wherever it stands to its end. */
    method RunTask(i: nat, failure: Option<string>)
      requires Valid() && i < |slots|
      modifies this
      ensures Valid() && |slots| == |old(slots)| && slots[i].stage.Notified? && slots[i].key == old(slots[i].key)
      ensures |callers| == |old(callers)|
      ensures forall c :: 0 <= c < |callers| ==>
                callers[c] == old(callers)[c] || callers[c] == WakeOne(old(callers)[c], i)
      ensures forall k :: k in old(stores) ==> k in stores && stores[k] == old(stores)[k]
    {
      hide Inv, Apply;
      if slots[i].stage.Building? {
        FinishBuild(i, failure);
      }
      if slots[i].stage.Built? {
        RecordResult(i);
      }
      if slots[i].stage.Recorded? {
        SetResult(i);
      }
      if slots[i].stage.Published? {
        NotifyWaiters(i);
      }
    }

    /** One round of the waiting loop: enable, check and, if there is nothing yet, park
        until the slot's task notifies. */
    method AwaitOnce(c: nat, failure: Option<string>)
      requires Valid() && c < |callers| && callers[c].at.Waiting?
      modifies this
      ensures Valid() && |callers| == |old(callers)| && callers[c].key == old(callers[c].key)
      ensures callers[c].at.Answered? || callers[c].at.Waiting?
      ensures callers[c].at.Answered? && callers[c].at.outcome.Ok? ==>
                callers[c].key in stores && stores[callers[c].key] == callers[c].at.outcome.value
      ensures old(callers[c].rounds) < callers[c].rounds <= 2
      ensures forall k :: k in old(stores) ==> k in stores && stores[k] == old(stores)[k]
    {
      hide Inv, Apply;
      EnableNotified(c);
      CheckResult(c);
      RoundsOf(View(), c);
      if callers[c].at.Parked? {
        RunTask(callers[c].at.slot, failure);
        RoundsOf(View(), c);
        Resume(c);
      }
    }

    /** `resolve_dynamic` for one caller, whose slot's task runs while it is parked. It
        goes round its loop at most twice, a registered store is returned as it is, a
        store that it returns is the registered one, and no store is lost. */
    method Resolve(key: Key, failure: Option<string>) returns (outcome: Outcome)
      requires Valid()
      modifies this
      ensures Valid()
      ensures forall k :: k in old(stores) ==> k in stores && stores[k] == old(stores)[k]
      ensures outcome.Ok? ==> key in stores && stores[key] == outcome.value
      ensures key in old(stores) ==> outcome == Ok(old(stores)[key])
    {
      hide Inv, Apply;
      var c := Enter(key);
      LookUp(c);
      if callers[c].at.Unregistered? {
        TryRegister(c);
      }
      while !callers[c].at.Answered?
        invariant Valid() && c < |callers| && callers[c].key == key
        invariant callers[c].at.Answered? || callers[c].at.Waiting?
        invariant callers[c].at.Answered? && callers[c].at.outcome.Ok? ==>
                    key in stores && stores[key] == callers[c].at.outcome.value
        invariant key in old(stores) ==> callers[c].at == Answered(Ok(old(stores)[key]))
        invariant forall k :: k in old(stores) ==> k in stores && stores[k] == old(stores)[k]
        decreases !callers[c].at.Answered?, 2 - callers[c].rounds
      {
        AwaitOnce(c, failure);
      }
      outcome := callers[c].at.outcome;
    }
  }
}
