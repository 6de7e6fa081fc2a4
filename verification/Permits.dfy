/** The budget of block reads that all reads of a client and its clones share:
    `read_into_resolved` and `read_segment_into` of clients/rust/src/client.rs. A pending
    segment first waits for a permit and holds it until its read completes, fails or is
    dropped. A run is any sequence of events of any number of reads. */
module Permits {
  import opened ReadPlan
  import opened ReadAssembly

  /** A read: the range left in its plan, its pending segments, which of them hold a
      permit, and whether it has failed or been dropped. */
  datatype Read = Read(offset: nat, end: nat, blockSize: nat, position: nat,
                       pending: seq<Segment>, granted: seq<bool>, over: bool)

  datatype State = State(budget: nat, available: nat, open: seq<Read>)

  datatype Event =
    | Open(offset: nat, end: nat, blockSize: nat)
    | Grant(read: nat, piece: nat)
    | Complete(read: nat, piece: nat)
    | Fail(read: nat, piece: nat)
    | Drop(read: nat)

  function Initial(budget: nat): State {
    State(budget, budget, [])
  }

  // ----- steps -----------------------------------------------------------

  /** Hand out up to `k` segments of the plan. */
  function Issue(x: Read, k: nat): (r: Read)
    ensures r == x.(position := r.position, pending := r.pending, granted := r.granted)
    decreases k
  {
    if k == 0 || x.position >= x.end || x.blockSize == 0 then x
    else
      var g := Cut(x.position, x.end, x.blockSize);
      CutFits(x.position, x.end, x.blockSize);
      Issue(x.(position := To(g), pending := x.pending + [g], granted := x.granted + [false]), k - 1)
  }

  function Opened(offset: nat, end: nat, blockSize: nat): Read {
    Issue(Read(offset, end, blockSize, offset, [], [], false), MAX_CONCURRENT_BLOCK_READS_PER_READ)
  }

  function Count(granted: seq<bool>): nat {
    if granted == [] then 0 else (if granted[0] then 1 else 0) + Count(granted[1..])
  }

  /** A read that has failed or been dropped: nothing is pending any more. */
  function Over(x: Read): Read {
    x.(pending := [], granted := [], over := true)
  }

  predicate Pending(s: State, r: nat, i: nat) {
    r < |s.open| && i < |s.open[r].pending| && i < |s.open[r].granted|
  }

  /** One step of a run; an event that is not enabled changes nothing. */
  function Apply(s: State, e: Event): State {
    match e
    case Open(offset, end, blockSize) =>
      if blockSize > 0 && offset <= end then s.(open := s.open + [Opened(offset, end, blockSize)]) else s
    case Grant(r, i) =>
      if Pending(s, r, i) && !s.open[r].granted[i] && s.available > 0 then
        State(s.budget, s.available - 1, s.open[r := s.open[r].(granted := s.open[r].granted[i := true])])
      else s
    case Complete(r, i) =>
      if Pending(s, r, i) && s.open[r].granted[i] then
        State(s.budget, s.available + 1, s.open[r := Issue(Without(s.open[r], i), 1)])
      else s
    case Fail(r, i) =>
      if Pending(s, r, i) && s.open[r].granted[i] then Ended(s, r) else s
    case Drop(r) =>
      if r < |s.open| then Ended(s, r) else s
  }

  function Without(x: Read, i: nat): Read
    requires i < |x.pending| && i < |x.granted|
  {
    x.(pending := RemoveAt(x.pending, i), granted := RemoveAt(x.granted, i))
  }

  /** A failure or a cancellation drops every pending segment and with it its permit. */
  function Ended(s: State, r: nat): State
    requires r < |s.open|
  {
    State(s.budget, s.available + Count(s.open[r].granted), s.open[r := Over(s.open[r])])
  }

  // ----- counting permits ------------------------------------------------

  function Held(open: seq<Read>): nat {
    if open == [] then 0 else Count(open[0].granted) + Held(open[1..])
  }

  lemma {:induction false} CountPush(granted: seq<bool>)
    ensures Count(granted + [false]) == Count(granted)
  {
    if granted == [] {
      assert [false][1..] == [];
    } else {
      CountPush(granted[1..]);
      assert (granted + [false])[1..] == granted[1..] + [false];
    }
  }

  lemma {:induction false} CountGrant(granted: seq<bool>, i: nat)
    requires i < |granted| && !granted[i]
    ensures Count(granted[i := true]) == Count(granted) + 1
  {
    if i == 0 {
      assert granted[0 := true][1..] == granted[1..];
    } else {
      CountGrant(granted[1..], i - 1);
      assert granted[i := true][1..] == granted[1..][i - 1 := true];
    }
  }

  lemma {:induction false} CountRemove(granted: seq<bool>, i: nat)
    requires i < |granted|
    ensures Count(granted) == Count(RemoveAt(granted, i)) + (if granted[i] then 1 else 0)
  {
    if i == 0 {
      assert RemoveAt(granted, 0) == granted[1..];
    } else {
      CountRemove(granted[1..], i - 1);
      assert RemoveAt(granted, i)[1..] == RemoveAt(granted[1..], i - 1);
      assert RemoveAt(granted, i)[0] == granted[0];
    }
  }

  lemma {:induction false} HeldPush(open: seq<Read>, x: Read)
    ensures Held(open + [x]) == Held(open) + Count(x.granted)
  {
    if open == [] {
      assert [x][1..] == [];
    } else {
      HeldPush(open[1..], x);
      assert (open + [x])[1..] == open[1..] + [x];
    }
  }

  lemma {:induction false} HeldUpdate(open: seq<Read>, r: nat, x: Read)
    requires r < |open|
    ensures Held(open[r := x]) + Count(open[r].granted) == Held(open) + Count(x.granted)
  {
    if r == 0 {
      assert open[0 := x][1..] == open[1..];
    } else {
      HeldUpdate(open[1..], r - 1, x);
      assert open[r := x][1..] == open[1..][r - 1 := x];
    }
  }

  lemma {:induction false} CountPositive(granted: seq<bool>) returns (i: nat)
    requires Count(granted) > 0
    ensures i < |granted| && granted[i]
  {
    if granted[0] {
      i := 0;
    } else {
      i := CountPositive(granted[1..]);
      i := i + 1;
    }
  }

  lemma {:induction false} HeldPositive(open: seq<Read>) returns (r: nat)
    requires Held(open) > 0
    ensures r < |open| && Count(open[r].granted) > 0
  {
    if Count(open[0].granted) > 0 {
      r := 0;
    } else {
      r := HeldPositive(open[1..]);
      r := r + 1;
    }
  }

  // ----- the invariant ---------------------------------------------------

  /** At most eight segments are pending, over disjoint slices of what was handed out. */
  predicate ReadFits(x: Read) {
    && x.blockSize > 0 && x.offset <= x.position <= x.end
    && |x.granted| == |x.pending| <= MAX_CONCURRENT_BLOCK_READS_PER_READ
    && Disjoint(x.pending, x.offset, x.position)
  }

  /** While the plan of a read that goes on has segments left, eight are pending. */
  predicate Busy(x: Read) {
    if x.over then x.pending == []
    else x.position < x.end ==> |x.pending| == MAX_CONCURRENT_BLOCK_READS_PER_READ
  }

  predicate ReadsFit(s: State) {
    forall r :: 0 <= r < |s.open| ==> ReadFits(s.open[r]) && Busy(s.open[r])
  }

  predicate Inv(s: State) {
    ReadsFit(s) && s.available + Held(s.open) == s.budget
  }

  /** Handing out segments adds waiting pieces and no permits. */
  lemma {:induction false} IssueFits(x: Read, k: nat)
    requires ReadFits(x) && |x.pending| + k <= MAX_CONCURRENT_BLOCK_READS_PER_READ
    ensures ReadFits(Issue(x, k)) && Count(Issue(x, k).granted) == Count(x.granted)
    ensures x.position <= Issue(x, k).position <= Issue(x, k).end == x.end && Issue(x, k).over == x.over
    ensures Issue(x, k).position < x.end ==> |Issue(x, k).pending| == |x.pending| + k
    decreases k
  {
    hide Cut, Count, Disjoint;
    if k == 0 || x.position >= x.end {
    } else {
      var g := Cut(x.position, x.end, x.blockSize);
      CutFits(x.position, x.end, x.blockSize);
      PushDisjoint(x.pending, x.offset, x.position, g);
      CountPush(x.granted);
      IssueFits(x.(position := To(g), pending := x.pending + [g], granted := x.granted + [false]), k - 1);
    }
  }

  lemma OpenedFits(offset: nat, end: nat, blockSize: nat)
    requires blockSize > 0 && offset <= end
    ensures var x := Opened(offset, end, blockSize); ReadFits(x) && Busy(x) && Count(x.granted) == 0
  {
    hide Issue;
    IssueFits(Read(offset, end, blockSize, offset, [], [], false), MAX_CONCURRENT_BLOCK_READS_PER_READ);
  }

  lemma CompletedFits(x: Read, i: nat)
    requires ReadFits(x) && Busy(x) && i < |x.pending| && x.granted[i]
    ensures var y := Issue(Without(x, i), 1); ReadFits(y) && Busy(y) && Count(y.granted) == Count(x.granted) - 1
  {
    hide Issue, Disjoint, Count, RemoveAt;
    RemoveDisjoint(x.pending, x.offset, x.position, i);
    CountRemove(x.granted, i);
    IssueFits(Without(x, i), 1);
  }

  /** A step of one read moves permits between it and the budget. */
  lemma OneRead(s: State, r: nat, x: Read, available: nat)
    requires Inv(s) && r < |s.open| && ReadFits(x) && Busy(x)
    requires available + Count(x.granted) == s.available + Count(s.open[r].granted)
    ensures Inv(State(s.budget, available, s.open[r := x]))
  {
    hide ReadFits, Busy, Count, Held;
    HeldUpdate(s.open, r, x);
  }

  lemma StepKeeps(s: State, e: Event)
    requires Inv(s)
    ensures Inv(Apply(s, e))
  {
    hide Count, Held, Opened, Issue, Without, Disjoint;
    match e
    case Open(offset, end, blockSize) =>
      if blockSize > 0 && offset <= end {
        OpenedFits(offset, end, blockSize);
        HeldPush(s.open, Opened(offset, end, blockSize));
      }
    case Grant(r, i) =>
      if Pending(s, r, i) && !s.open[r].granted[i] && s.available > 0 {
        CountGrant(s.open[r].granted, i);
        OneRead(s, r, s.open[r].(granted := s.open[r].granted[i := true]), s.available - 1);
      }
    case Complete(r, i) =>
      if Pending(s, r, i) && s.open[r].granted[i] {
        CompletedFits(s.open[r], i);
        OneRead(s, r, Issue(Without(s.open[r], i), 1), s.available + 1);
      }
    case Fail(r, i) =>
      if Pending(s, r, i) {
        EndedFits(s, r);
      }
    case Drop(r) =>
      if r < |s.open| {
        EndedFits(s, r);
      }
  }

  lemma EndedFits(s: State, r: nat)
    requires Inv(s) && r < |s.open|
    ensures Inv(Ended(s, r)) && Count(Ended(s, r).open[r].granted) == 0
  {
    hide Held;
    OneRead(s, r, Over(s.open[r]), s.available + Count(s.open[r].granted));
  }

  function Run(s: State, events: seq<Event>): State
    decreases |events|
  {
    if events == [] then s else Run(Apply(s, events[0]), events[1..])
  }

  lemma {:induction false} RunKeeps(s: State, events: seq<Event>)
    requires Inv(s)
    ensures Inv(Run(s, events)) && Run(s, events).budget == s.budget
    decreases |events|
  {
    hide Inv, Apply;
    if events == [] {
    } else {
      StepKeeps(s, events[0]);
      BudgetIsFixed(s, events[0]);
      RunKeeps(Apply(s, events[0]), events[1..]);
    }
  }

  lemma BudgetIsFixed(s: State, e: Event)
    ensures Apply(s, e).budget == s.budget
  {
    hide Count, Issue, Without;
  }

  // ----- what every run guarantees ---------------------------------------

  /** Over any run: permits are conserved, and every read has at most eight pending
      segments over pairwise disjoint slices of its range. */
  lemma PermitsAreConserved(budget: nat, events: seq<Event>)
    ensures var t := Run(Initial(budget), events);
            && Inv(t) && t.available + Held(t.open) == budget
            && forall r :: 0 <= r < |t.open| ==>
                 && |t.open[r].pending| <= 8
                 && (!t.open[r].over && t.open[r].position < t.open[r].end ==> |t.open[r].pending| == 8)
                 && Disjoint(t.open[r].pending, t.open[r].offset, t.open[r].end)
  {
    hide Run;
    RunKeeps(Initial(budget), events);
    var t := Run(Initial(budget), events);
    forall r | 0 <= r < |t.open| ensures Disjoint(t.open[r].pending, t.open[r].offset, t.open[r].end) {
      WiderIsDisjoint(t.open[r].pending, t.open[r].offset, t.open[r].position, t.open[r].end);
    }
  }

  lemma WiderIsDisjoint(pending: seq<Segment>, lo: nat, hi: nat, end: nat)
    requires Disjoint(pending, lo, hi) && hi <= end
    ensures Disjoint(pending, lo, end)
  {
    hide Apart;
  }

  /** A failed or cancelled read gives back every permit it held, at once, and disturbs no
      other read. */
  lemma EndReturnsPermits(s: State, r: nat, i: nat, e: Event)
    requires Inv(s) && r < |s.open|
    requires e == Drop(r) || (e == Fail(r, i) && Pending(s, r, i) && s.open[r].granted[i])
    ensures var t := Apply(s, e);
            && Inv(t) && |t.open| == |s.open|
            && t.available == s.available + Count(s.open[r].granted)
            && t.open[r].pending == [] && Count(t.open[r].granted) == 0
            && forall q :: 0 <= q < |s.open| && q != r ==> t.open[q] == s.open[q]
  {
    hide Held;
    EndedFits(s, r);
  }

  lemma {:induction false} AllOverHoldNone(open: seq<Read>)
    requires forall r :: 0 <= r < |open| ==> open[r].pending == [] && |open[r].granted| == 0
    ensures Held(open) == 0
  {
    if open == [] {
    } else {
      AllOverHoldNone(open[1..]);
    }
  }

  /** Once no read has anything pending, the whole budget is available again, and every
      plan is exhausted but those of reads that failed or were dropped. */
  lemma QuietClientIsWhole(budget: nat, events: seq<Event>)
    requires forall r :: 0 <= r < |Run(Initial(budget), events).open| ==>
               Run(Initial(budget), events).open[r].pending == []
    ensures var t := Run(Initial(budget), events);
            && t.available == budget
            && forall r :: 0 <= r < |t.open| && !t.open[r].over ==> t.open[r].position == t.open[r].end
  {
    hide Run;
    RunKeeps(Initial(budget), events);
    var t := Run(Initial(budget), events);
    assert forall r :: 0 <= r < |t.open| ==> ReadFits(t.open[r]) && Busy(t.open[r]);
    AllOverHoldNone(t.open);
  }

  /** No deadlock: while a segment waits, either a permit is free for it or some segment
      holds one and can complete. */
  lemma SomebodyCanMove(s: State, r: nat, i: nat)
    requires Inv(s) && s.budget > 0 && Pending(s, r, i)
    ensures exists q: nat, j: nat :: Pending(s, q, j) && (s.open[q].granted[j] || s.available > 0)
  {
    if s.available > 0 {
      assert Pending(s, r, i);
    } else {
      var q := HeldPositive(s.open);
      var j := CountPositive(s.open[q].granted);
      assert ReadFits(s.open[q]);
      assert Pending(s, q, j);
    }
  }

  // ----- the budget as the code keeps it ----------------------------------

  lemma ReadMeans(s: State, r: nat)
    requires Inv(s) && r < |s.open|
    ensures ReadFits(s.open[r]) && Busy(s.open[r])
  {
    hide Held, ReadFits, Busy;
  }

  /** A read without permits: its first segment waits for one. */
  lemma NoneGranted(granted: seq<bool>)
    requires Count(granted) == 0
    ensures granted != [] ==> !granted[0]
  {
  }

  /** The semaphore of a client with the reads that use it. Each method is what a read
      does between two awaits: it performs the event of its name and keeps the client
      valid. */
  class Client {
    const budget: nat
    var available: nat
    var open: seq<Read>

    constructor (max: nat)
      ensures View() == Initial(max) && Valid()
    {
      budget, available, open := max, max, [];
    }

    ghost function View(): State
      reads this
    {
      State(budget, available, open)
    }

    ghost predicate Valid()
      reads this
    {
      Inv(View())
    }

    /** The loop that primes a read: at most eight segments before the first await, none
        with a permit. */
    method OpenRead(offset: nat, end: nat, blockSize: nat) returns (r: nat)
      requires Valid() && blockSize > 0 && offset <= end
      modifies this`open
      ensures Valid() && View() == Apply(old(View()), Open(offset, end, blockSize))
      ensures r == |old(open)| && |open| == r + 1 && open[..r] == old(open)
      ensures Count(open[r].granted) == 0 && open[r].end == end && !open[r].over
    {
      hide Inv;
      StepKeeps(View(), Open(offset, end, blockSize));
      OpenedFits(offset, end, blockSize);
      var x := Read(offset, end, blockSize, offset, [], [], false);
      var k := MAX_CONCURRENT_BLOCK_READS_PER_READ;
      while k > 0 && x.position < x.end
        invariant x.blockSize == blockSize && 0 <= k && !x.over && x.end == end
        invariant Issue(x, k) == Opened(offset, end, blockSize)
        decreases k
      {
        var g := Cut(x.position, x.end, x.blockSize);
        x := x.(position := To(g), pending := x.pending + [g], granted := x.granted + [false]);
        k := k - 1;
      }
      r := |open|;
      open := open + [x];
    }

    /** A waiting segment takes a permit out of the budget, for its own read alone. */
    method Acquire(r: nat, i: nat)
      requires Valid() && Pending(View(), r, i) && !open[r].granted[i] && available > 0
      modifies this
      ensures Valid() && View() == Apply(old(View()), Grant(r, i))
      ensures available == old(available) - 1 && open == old(open)[r := open[r]]
      ensures Count(open[r].granted) == Count(old(open[r].granted)) + 1
      ensures open[r] == old(open[r]).(granted := open[r].granted)
      ensures Pending(View(), r, i) && open[r].granted[i]
    {
      hide Inv, Count;
      StepKeeps(View(), Grant(r, i));
      CountGrant(open[r].granted, i);
      available := available - 1;
      open := open[r := open[r].(granted := open[r].granted[i := true])];
    }

    /** A segment completes: its permit goes back, and the plan hands out another segment
        if it has one, or one less is pending. */
    method Finish(r: nat, i: nat)
      requires Valid() && Pending(View(), r, i) && open[r].granted[i]
      modifies this
      ensures Valid() && View() == Apply(old(View()), Complete(r, i))
      ensures available == old(available) + 1 && open == old(open)[r := open[r]]
      ensures Count(open[r].granted) == Count(old(open[r].granted)) - 1
      ensures open[r].end == old(open[r].end) && open[r].over == old(open[r].over)
      ensures if old(open[r].position) < open[r].end
              then old(open[r].position) < open[r].position && |open[r].pending| == |old(open[r].pending)|
              else open[r].position == old(open[r].position) && |open[r].pending| == |old(open[r].pending)| - 1
    {
      hide Inv, Count, Disjoint;
      StepKeeps(View(), Complete(r, i));
      ReadMeans(View(), r);
      CompletedFits(open[r], i);
      available := available + 1;
      var x := open[r].(pending := RemoveAt(open[r].pending, i), granted := RemoveAt(open[r].granted, i));
      if x.position < x.end {
        var g := Cut(x.position, x.end, x.blockSize);
        CutFits(x.position, x.end, x.blockSize);
        x := x.(position := To(g), pending := x.pending + [g], granted := x.granted + [false]);
      }
      open := open[r := x];
    }

    /** The pending futures are dropped one by one, each releasing its permit: the budget
        gets back all that the read held. */
    method Abort(r: nat)
      requires Valid() && r < |open|
      modifies this
      ensures Valid() && View() == Apply(old(View()), Drop(r))
      ensures available == old(available) + Count(old(open[r].granted))
      ensures open == old(open)[r := open[r]] && open[r].pending == [] && open[r].over
    {
      hide Inv;
      StepKeeps(View(), Drop(r));
      var x := open[r];
      var i := 0;
      while i < |x.granted|
        invariant 0 <= i <= |x.granted| && open == old(open)
        invariant available + Count(x.granted[i..]) == old(available) + Count(x.granted)
      {
        assert x.granted[i..][1..] == x.granted[i + 1..];
        if x.granted[i] {
          available := available + 1;
        }
        i := i + 1;
      }
      assert x.granted[i..] == [];
      open := open[r := x.(pending := [], granted := [], over := true)];
    }

    /** A read by itself, one segment after the other: with a permit to be had it gets to
        the end of its range and leaves the budget as it was. */
    method ReadToEnd(offset: nat, end: nat, blockSize: nat) returns (r: nat)
      requires Valid() && available > 0 && blockSize > 0 && offset <= end
      modifies this
      ensures Valid() && available == old(available)
      ensures r == |old(open)| && |open| == r + 1 && open[..r] == old(open)
      ensures open[r].pending == [] && open[r].position == end && !open[r].over
    {
      hide Inv, Apply, Count, Disjoint;
      r := OpenRead(offset, end, blockSize);
      ReadMeans(View(), r);
      while open[r].pending != []
        invariant Valid() && available == old(available) > 0
        invariant |open| == r + 1 && open[..r] == old(open)
        invariant Count(open[r].granted) == 0 && open[r].end == end && !open[r].over
        invariant ReadFits(open[r]) && Busy(open[r])
        decreases end - open[r].position, |open[r].pending|
      {
        NoneGranted(open[r].granted);
        Acquire(r, 0);
        Finish(r, 0);
        ReadMeans(View(), r);
      }
    }
  }
}
