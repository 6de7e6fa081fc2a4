/** A read filled out of order: `Client::read_into_resolved`, `read_inner` and `read_exact`
    of clients/rust/src/client.rs. At most eight segments are pending at a time, each over
    its own slice of the destination; they complete in any order, and any of them may
    fail. A segment's read fills its slice exactly or fails, as `fails` says. */
module ReadAssembly {
  import opened Text
  import opened ReadPlan

  const MAX_CONCURRENT_BLOCK_READS_PER_READ := 8
  const MAX_EXACT_READ_LEN := 1_048_576
  const ISIZE_MAX := 0x7FFF_FFFF_FFFF_FFFF

  datatype Error = InvalidArgument | ReadFailed

  // ----- what is settled while segments are pending -----------------------

  predicate Within(g: Segment, lo: nat, hi: nat) {
    lo <= From(g) && 0 < g.len && To(g) <= hi
  }

  predicate Apart(g: Segment, h: Segment) {
    To(g) <= From(h) || To(h) <= From(g)
  }

  predicate Covers(g: Segment, x: nat) {
    From(g) <= x < To(g)
  }

  predicate InFlight(pending: seq<Segment>, x: nat) {
    exists i :: 0 <= i < |pending| && Covers(pending[i], x)
  }

  /** The pending segments cut disjoint slices out of what has been handed out. */
  predicate Disjoint(pending: seq<Segment>, lo: nat, hi: nat) {
    && (forall i :: 0 <= i < |pending| ==> Within(pending[i], lo, hi))
    && (forall i, j :: 0 <= i < j < |pending| ==> Apart(pending[i], pending[j]))
  }

  /** Every byte handed out is in flight or in place; nothing beyond has been touched. */
  predicate Settled(content: seq<byte>, offset: nat, before: seq<byte>, dst: seq<byte>, pending: seq<Segment>, p: nat) {
    && offset <= p <= |content| && p - offset <= |dst| == |before|
    && (forall k :: 0 <= k < p - offset ==> InFlight(pending, offset + k) || dst[k] == content[offset + k])
    && (forall k :: p - offset <= k < |dst| ==> dst[k] == before[k])
  }

  function Lengths(pending: seq<Segment>): nat {
    if pending == [] then 0 else pending[0].len + Lengths(pending[1..])
  }

  function RemoveAt<T>(s: seq<T>, i: nat): (r: seq<T>)
    requires i < |s|
    ensures |r| == |s| - 1
    ensures forall j :: 0 <= j < i ==> r[j] == s[j]
    ensures forall j :: i <= j < |r| ==> r[j] == s[j + 1]
  {
    s[..i] + s[i + 1..]
  }

  lemma {:induction false} LengthsRemove(pending: seq<Segment>, i: nat)
    requires i < |pending|
    ensures Lengths(RemoveAt(pending, i)) == Lengths(pending) - pending[i].len
  {
    if i == 0 {
      assert RemoveAt(pending, 0) == pending[1..];
    } else {
      LengthsRemove(pending[1..], i - 1);
      assert RemoveAt(pending, i)[1..] == RemoveAt(pending[1..], i - 1);
      assert RemoveAt(pending, i)[0] == pending[0];
    }
  }

  lemma {:induction false} LengthsPush(pending: seq<Segment>, g: Segment)
    ensures Lengths(pending + [g]) == Lengths(pending) + g.len
  {
    if pending == [] {
      assert [g][1..] == [];
    } else {
      LengthsPush(pending[1..], g);
      HeadTail(pending, [g]);
      assert (pending + [g])[1..] == pending[1..] + [g];
    }
  }

  // ----- handing out a segment --------------------------------------------

  lemma PushDisjoint(pending: seq<Segment>, lo: nat, hi: nat, g: Segment)
    requires Disjoint(pending, lo, hi) && lo <= hi && From(g) == hi && 0 < g.len
    ensures Disjoint(pending + [g], lo, To(g))
  {
    var more := pending + [g];
    forall i | 0 <= i < |more| ensures Within(more[i], lo, To(g)) {
      assert i < |pending| ==> Within(pending[i], lo, hi);
    }
    forall i, j | 0 <= i < j < |more| ensures Apart(more[i], more[j]) {
      assert Within(pending[i], lo, hi);
      assert j < |pending| ==> Apart(pending[i], pending[j]);
    }
  }

  lemma StillInFlight(pending: seq<Segment>, g: Segment, x: nat)
    requires InFlight(pending, x) || Covers(g, x)
    ensures InFlight(pending + [g], x)
  {
    var more := pending + [g];
    if Covers(g, x) {
      assert Covers(more[|pending|], x);
    } else {
      var i :| 0 <= i < |pending| && Covers(pending[i], x);
      assert Covers(more[i], x);
    }
  }

  lemma PushSettled(content: seq<byte>, offset: nat, before: seq<byte>, dst: seq<byte>, pending: seq<Segment>,
                    p: nat, g: Segment)
    requires Settled(content, offset, before, dst, pending, p)
    requires From(g) == p && To(g) <= |content| && To(g) - offset <= |dst|
    ensures Settled(content, offset, before, dst, pending + [g], To(g))
  {
    hide InFlight;
    forall k | 0 <= k < To(g) - offset
      ensures InFlight(pending + [g], offset + k) || dst[k] == content[offset + k]
    {
      if InFlight(pending, offset + k) || Covers(g, offset + k) {
        StillInFlight(pending, g, offset + k);
      }
    }
  }

  // ----- completing a segment ---------------------------------------------

  lemma RemoveDisjoint(pending: seq<Segment>, lo: nat, hi: nat, i: nat)
    requires Disjoint(pending, lo, hi) && i < |pending|
    ensures Disjoint(RemoveAt(pending, i), lo, hi)
  {
    hide Within, Apart;
  }

  lemma OthersInFlight(pending: seq<Segment>, i: nat, x: nat)
    requires i < |pending| && InFlight(pending, x) && !Covers(pending[i], x)
    ensures InFlight(RemoveAt(pending, i), x)
  {
    var j :| 0 <= j < |pending| && Covers(pending[j], x);
    var rest := RemoveAt(pending, i);
    if j < i {
      assert Covers(rest[j], x);
    } else {
      assert Covers(rest[j - 1], x);
    }
  }

  /** `dst` with a slice overwritten. */
  predicate Overwritten(dst: seq<byte>, after: seq<byte>, at: nat, bytes: seq<byte>) {
    && at + |bytes| <= |dst| == |after|
    && (forall k :: at <= k < at + |bytes| ==> after[k] == bytes[k - at])
    && (forall k :: 0 <= k < |dst| && !(at <= k < at + |bytes|) ==> after[k] == dst[k])
  }

  lemma CompleteSettled(content: seq<byte>, offset: nat, before: seq<byte>, dst: seq<byte>, after: seq<byte>,
                        pending: seq<Segment>, p: nat, i: nat)
    requires Settled(content, offset, before, dst, pending, p) && i < |pending| && Within(pending[i], offset, p)
    requires Overwritten(dst, after, From(pending[i]) - offset, content[From(pending[i])..To(pending[i])])
    ensures Settled(content, offset, before, after, RemoveAt(pending, i), p)
  {
    hide InFlight;
    var g := pending[i];
    forall k | 0 <= k < p - offset
      ensures InFlight(RemoveAt(pending, i), offset + k) || after[k] == content[offset + k]
    {
      if Covers(g, offset + k) {
        assert after[k] == content[From(g)..To(g)][k - (From(g) - offset)];
      } else if InFlight(pending, offset + k) {
        OthersInFlight(pending, i, offset + k);
      }
    }
  }

  /** With nothing pending the bytes handed out are in place. */
  lemma SettledIsDone(content: seq<byte>, offset: nat, before: seq<byte>, dst: seq<byte>, p: nat)
    requires Settled(content, offset, before, dst, [], p)
    ensures dst[..p - offset] == content[offset..p] && dst[p - offset..] == before[p - offset..]
  {
    forall k | 0 <= k < p - offset ensures dst[k] == content[offset + k] {
      assert !InFlight([], offset + k);
    }
  }

  // ----- the loop ---------------------------------------------------------

  /** How much of a read the object can serve. */
  function Planned(offset: nat, requested: nat, size: nat): nat {
    if offset >= size then 0 else Min(requested, size - offset)
  }

  /** A segment's read: the slice is filled, or failure leaves it with any content. */
  method ReadSegment(content: seq<byte>, g: Segment, dst: array<byte>, at: nat, fails: Segment -> bool)
    returns (ok: bool)
    requires To(g) <= |content| && at + g.len <= dst.Length
    modifies dst
    ensures ok == !fails(g)
    ensures ok ==> Overwritten(old(dst[..]), dst[..], at, content[From(g)..To(g)])
    ensures forall k :: 0 <= k < dst.Length && !(at <= k < at + g.len) ==> dst[k] == old(dst[k])
  {
    ok := !fails(g);
    var garbage: byte := *;
    var bytes := content[From(g)..To(g)];
    forall k | 0 <= k < g.len {
      dst[at + k] := if ok then bytes[k] else garbage;
    }
    ghost var after := dst[..];
    assert forall k :: at <= k < at + g.len ==> after[k] == dst[at + (k - at)];
  }

  /** Dropping the pending segments of a failed read: each may leave its slice half done. */
  method Abandon(pending: seq<Segment>, offset: nat, p: nat, dst: array<byte>)
    requires Disjoint(pending, offset, p) && offset <= p && p - offset <= dst.Length
    modifies dst
    ensures forall k :: p - offset <= k < dst.Length ==> dst[k] == old(dst[k])
  {
    for i := 0 to |pending|
      invariant forall k :: p - offset <= k < dst.Length ==> dst[k] == old(dst[k])
    {
      var g := pending[i];
      assert Within(g, offset, p);
      var garbage: byte := *;
      forall k | 0 <= k < g.len {
        dst[From(g) - offset + k] := garbage;
      }
    }
  }

  /** The state between two steps of the loop, with `n` segments handed out so far. */
  ghost predicate Assembling(content: seq<byte>, offset: nat, before: seq<byte>, dst: seq<byte>, pending: seq<Segment>,
                             p: nat, end: nat, blockSize: nat, written: nat, n: nat)
    requires blockSize > 0
  {
    && Disjoint(pending, offset, p)
    && Settled(content, offset, before, dst, pending, p)
    && written + Lengths(pending) == p - offset && p <= end <= |content| && end - offset <= |dst|
    && n + |Plan(p, end, blockSize)| == |Plan(offset, end, blockSize)|
  }

  lemma Begins(content: seq<byte>, offset: nat, dst: seq<byte>, end: nat, blockSize: nat)
    requires blockSize > 0 && offset <= end <= |content| && end - offset <= |dst|
    ensures Assembling(content, offset, dst, dst, [], offset, end, blockSize, 0, 0)
  {
    hide Plan;
  }

  lemma HandsOut(content: seq<byte>, offset: nat, before: seq<byte>, dst: seq<byte>, pending: seq<Segment>,
                 p: nat, end: nat, blockSize: nat, written: nat, n: nat, g: Segment)
    requires blockSize > 0 && Assembling(content, offset, before, dst, pending, p, end, blockSize, written, n)
    requires p < end && g == Cut(p, end, blockSize)
    ensures Assembling(content, offset, before, dst, pending + [g], To(g), end, blockSize, written, n + 1)
  {
    CutFits(p, end, blockSize);
    assert |Plan(p, end, blockSize)| == 1 + |Plan(To(g), end, blockSize)|;
    hide Disjoint, Settled, Lengths, Plan, Cut;
    PushDisjoint(pending, offset, p, g);
    PushSettled(content, offset, before, dst, pending, p, g);
    LengthsPush(pending, g);
  }

  lemma Completes(content: seq<byte>, offset: nat, before: seq<byte>, dst: seq<byte>, after: seq<byte>,
                  pending: seq<Segment>, p: nat, end: nat, blockSize: nat, written: nat, n: nat, i: nat)
    requires blockSize > 0 && Assembling(content, offset, before, dst, pending, p, end, blockSize, written, n)
    requires i < |pending| && Within(pending[i], offset, p)
    requires Overwritten(dst, after, From(pending[i]) - offset, content[From(pending[i])..To(pending[i])])
    ensures Assembling(content, offset, before, after, RemoveAt(pending, i), p, end, blockSize,
                       written + pending[i].len, n)
  {
    hide Disjoint, Settled, Lengths, Plan, Overwritten;
    RemoveDisjoint(pending, offset, p, i);
    CompleteSettled(content, offset, before, dst, after, pending, p, i);
    LengthsRemove(pending, i);
    SameLength(dst, after, From(pending[i]) - offset, content[From(pending[i])..To(pending[i])]);
  }

  lemma SameLength(dst: seq<byte>, after: seq<byte>, at: nat, bytes: seq<byte>)
    requires Overwritten(dst, after, at, bytes)
    ensures |after| == |dst|
  {
  }

  lemma PendingFits(content: seq<byte>, offset: nat, before: seq<byte>, dst: seq<byte>, pending: seq<Segment>,
                    p: nat, end: nat, blockSize: nat, written: nat, n: nat, i: nat)
    requires blockSize > 0 && Assembling(content, offset, before, dst, pending, p, end, blockSize, written, n)
    requires i < |pending|
    ensures Within(pending[i], offset, p) && p <= |content| && offset <= p && p - offset <= |dst|
    ensures Disjoint(RemoveAt(pending, i), offset, p)
  {
    hide Plan, Lengths;
    RemoveDisjoint(pending, offset, p, i);
  }

  lemma Finishes(content: seq<byte>, offset: nat, before: seq<byte>, dst: seq<byte>, end: nat, blockSize: nat,
                 written: nat, n: nat)
    requires blockSize > 0 && Assembling(content, offset, before, dst, [], end, end, blockSize, written, n)
    requires offset < end
    ensures written == end - offset && |dst| == |before|
    ensures dst[..written] == content[offset..end] && dst[written..] == before[written..]
    ensures n == CeilDiv(offset % blockSize + written, blockSize)
  {
    hide CeilDiv;
    PlanCount(offset, end, blockSize);
    assert Plan(end, end, blockSize) == [];
    hide Plan;
    SettledIsDone(content, offset, before, dst, end);
  }

  /** The bytes of a read: as many as were asked for and exist. */
  function Served(content: seq<byte>, offset: nat, requested: nat): seq<byte> {
    if offset >= |content| then [] else content[offset..Min(offset + requested, |content|)]
  }

  lemma EndIs(offset: u64, requested: u64, blockSize: u64, size: u64)
    requires blockSize > 0 && Planned(offset, requested, size) > 0
    ensures offset < EndOf(offset, requested, blockSize, size) == offset + Planned(offset, requested, size) <= size
    ensures Planned(offset, requested, size) <= requested
  {
  }

  /** A slice of the destination. */
  datatype Slice = Slice(start: nat, len: nat)

  /** `split_at_mut`, which panics beyond the end of the slice. */
  method SplitAt(rest: Slice, n: nat) returns (chunk: Slice, tail: Slice)
    requires n <= rest.len
    ensures chunk == Slice(rest.start, n) && tail == Slice(rest.start + n, rest.len - n)
  {
    chunk, tail := Slice(rest.start, n), Slice(rest.start + n, rest.len - n);
  }

  /** Each pending segment has the slice of the destination that its bytes belong in. */
  predicate Placed(pending: seq<Segment>, chunks: seq<Slice>, offset: nat) {
    |chunks| == |pending| &&
    forall i :: 0 <= i < |pending| ==>
      offset + chunks[i].start == From(pending[i]) && chunks[i].len == pending[i].len
  }

  lemma PlacedPush(pending: seq<Segment>, chunks: seq<Slice>, offset: nat, g: Segment, chunk: Slice)
    requires Placed(pending, chunks, offset) && offset + chunk.start == From(g) && chunk.len == g.len
    ensures Placed(pending + [g], chunks + [chunk], offset)
  {
  }

  lemma PlacedRemove(pending: seq<Segment>, chunks: seq<Slice>, offset: nat, i: nat)
    requires Placed(pending, chunks, offset) && i < |pending|
    ensures Placed(RemoveAt(pending, i), RemoveAt(chunks, i), offset)
    ensures offset + chunks[i].start == From(pending[i]) && chunks[i].len == pending[i].len
  {
  }

  /** Some segment of a plan cannot be read. */
  predicate SomeFails(gs: seq<Segment>, fails: Segment -> bool) {
    exists i :: 0 <= i < |gs| && fails(gs[i])
  }

  /** Of the `n` segments handed out, those no longer pending have been read. */
  predicate Tracked(plan: seq<Segment>, n: nat, pending: seq<Segment>, fails: Segment -> bool) {
    && n <= |plan|
    && (forall i :: 0 <= i < |pending| ==> pending[i] in plan)
    && (forall i :: 0 <= i < n ==> plan[i] in pending || !fails(plan[i]))
  }

  lemma TrackedPush(plan: seq<Segment>, n: nat, pending: seq<Segment>, fails: Segment -> bool, g: Segment)
    requires Tracked(plan, n, pending, fails) && n < |plan| && plan[n] == g
    ensures Tracked(plan, n + 1, pending + [g], fails)
  {
  }

  lemma TrackedRemove(plan: seq<Segment>, n: nat, pending: seq<Segment>, fails: Segment -> bool, i: nat)
    requires Tracked(plan, n, pending, fails) && i < |pending| && !fails(pending[i])
    ensures Tracked(plan, n, RemoveAt(pending, i), fails)
  {
    var others := RemoveAt(pending, i);
    forall k | 0 <= k < n ensures plan[k] in others || !fails(plan[k]) {
      if plan[k] in pending && fails(plan[k]) {
        var j :| 0 <= j < |pending| && pending[j] == plan[k];
        assert others[if j < i then j else j - 1] == plan[k];
      }
    }
  }

  lemma TrackedFailure(plan: seq<Segment>, n: nat, pending: seq<Segment>, fails: Segment -> bool, i: nat)
    requires Tracked(plan, n, pending, fails) && i < |pending| && fails(pending[i])
    ensures SomeFails(plan, fails)
  {
  }

  lemma TrackedToTheEnd(plan: seq<Segment>, fails: Segment -> bool)
    requires Tracked(plan, |plan|, [], fails)
    ensures !SomeFails(plan, fails)
  {
  }

  /** The plan from here on is what is left of the whole plan. */
  lemma PlanRest(plan: seq<Segment>, n: nat, g: Segment, rest: seq<Segment>)
    requires n <= |plan| && plan[n..] == [g] + rest
    ensures n < |plan| && plan[n] == g && plan[n + 1..] == rest
  {
    assert plan[n..][0] == g && plan[n..][1..] == rest;
  }

  /** The two loops: hand out up to eight segments, then one for each that completes. The
      read fails exactly when some segment of its plan does. */
  method Assemble(content: seq<byte>, offset: u64, dst: array<byte>, plan: Cursor, fails: Segment -> bool)
    returns (r: Result<nat, Error>, segments: nat, peak: nat)
    requires plan.blockSize > 0 && plan.position == offset < plan.end <= |content|
    requires plan.end - offset <= dst.Length
    modifies dst, plan
    ensures var n := plan.end - offset;
            && (r.Ok? ==> && r.value == n && dst[..n] == content[offset..plan.end]
                          && segments == CeilDiv(offset % plan.blockSize + n, plan.blockSize))
            && (r.Err? ==> r.error.ReadFailed?)
            && (r.Err? <==> SomeFails(Plan(offset, plan.end, plan.blockSize), fails))
            && forall k :: n <= k < dst.Length ==> dst[k] == old(dst[k])
    ensures peak <= 8
  {
    hide Assembling, Plan, Cut, Settled, CeilDiv, Lengths, Disjoint, Placed, Overwritten, Tracked, SomeFails;
    ghost var before := dst[..];
    var end, blockSize := plan.end, plan.blockSize;
    var pending: seq<Segment>, chunks: seq<Slice> := [], [];
    var rest := Slice(0, end - offset);
    segments := 0;
    Begins(content, offset, before, end, blockSize);
    ghost var whole := Plan(offset, end, blockSize);
    assert Tracked(whole, 0, [], fails) by { NothingTracked(whole, fails); }
    assert Placed([], [], offset) by { NothingPlaced(offset); }
    while plan.position < end && |pending| < MAX_CONCURRENT_BLOCK_READS_PER_READ
      invariant offset <= plan.position <= end && dst[..] == before
      invariant rest == Slice(plan.position - offset, end - plan.position) && Placed(pending, chunks, offset)
      invariant Assembling(content, offset, before, before, pending, plan.position, end, blockSize, 0, segments)
      invariant Tracked(whole, segments, pending, fails)
      invariant segments <= |whole| && whole[segments..] == Plan(plan.position, end, blockSize)
      invariant |pending| <= MAX_CONCURRENT_BLOCK_READS_PER_READ
      decreases end - plan.position
    {
      var p := plan.position;
      var next := plan.Next();
      var chunk, tail := SplitAt(rest, next.value.len);
      rest := tail;
      HandsOut(content, offset, before, before, pending, p, end, blockSize, 0, segments, next.value);
      PlacedPush(pending, chunks, offset, next.value, chunk);
      PlanRest(whole, segments, next.value, Plan(plan.position, end, blockSize));
      TrackedPush(whole, segments, pending, fails, next.value);
      pending, chunks := pending + [next.value], chunks + [chunk];
      segments := segments + 1;
    }
    peak := |pending|;
    var written: nat := 0;
    while pending != []
      invariant offset <= plan.position <= end
      invariant rest == Slice(plan.position - offset, end - plan.position) && Placed(pending, chunks, offset)
      invariant plan.position < end ==> |pending| == MAX_CONCURRENT_BLOCK_READS_PER_READ
      invariant |pending| <= MAX_CONCURRENT_BLOCK_READS_PER_READ && peak <= MAX_CONCURRENT_BLOCK_READS_PER_READ
      invariant Assembling(content, offset, before, dst[..], pending, plan.position, end, blockSize, written, segments)
      invariant Tracked(whole, segments, pending, fails)
      invariant segments <= |whole| && whole[segments..] == Plan(plan.position, end, blockSize)
      invariant forall k :: end - offset <= k < dst.Length ==> dst[k] == before[k]
      decreases end - plan.position, |pending|
    {
      var i :| 0 <= i < |pending|;
      PlacedLength(pending, chunks, offset);
      var g, chunk := pending[i], chunks[i];
      var others, otherChunks := RemoveAt(pending, i), RemoveAt(chunks, i);
      PlacedRemove(pending, chunks, offset, i);
      PendingFits(content, offset, before, dst[..], pending, plan.position, end, blockSize, written, segments, i);
      ghost var was := dst[..];
      var ok := ReadSegment(content, g, dst, chunk.start, fails);
      if !ok {
        TrackedFailure(whole, segments, pending, fails, i);
        Abandon(others, offset, plan.position, dst);
        r := Err(ReadFailed);
        return;
      }
      Completes(content, offset, before, was, dst[..], pending, plan.position, end, blockSize, written, segments, i);
      TrackedRemove(whole, segments, pending, fails, i);
      written := written + g.len;
      pending, chunks := others, otherChunks;
      if plan.position < end {
        var p := plan.position;
        var next := plan.Next();
        var chunk, tail := SplitAt(rest, next.value.len);
        rest := tail;
        HandsOut(content, offset, before, dst[..], pending, p, end, blockSize, written, segments, next.value);
        PlacedPush(pending, chunks, offset, next.value, chunk);
        PlanRest(whole, segments, next.value, Plan(plan.position, end, blockSize));
        TrackedPush(whole, segments, pending, fails, next.value);
        pending, chunks := pending + [next.value], chunks + [chunk];
        segments := segments + 1;
      }
      if |pending| > peak {
        peak := |pending|;
      }
    }
    Finishes(content, offset, before, dst[..], end, blockSize, written, segments);
    NothingLeft(whole, segments, end, blockSize);
    TrackedToTheEnd(whole, fails);
    r := Ok(written);
  }

  lemma NothingTracked(plan: seq<Segment>, fails: Segment -> bool)
    ensures Tracked(plan, 0, [], fails)
  {
  }

  lemma NothingLeft(plan: seq<Segment>, n: nat, end: nat, blockSize: nat)
    requires blockSize > 0 && n <= |plan| && plan[n..] == Plan(end, end, blockSize)
    ensures n == |plan|
  {
  }

  lemma NothingPlaced(offset: nat)
    ensures Placed([], [], offset)
  {
  }

  lemma PlacedLength(pending: seq<Segment>, chunks: seq<Slice>, offset: nat)
    requires Placed(pending, chunks, offset)
    ensures |chunks| == |pending|
  {
  }

  /** `read_into_resolved`. Whatever the completion order, success means that the
      destination starts with exactly the bytes asked for that exist and is otherwise
      untouched; reading past the end succeeds with nothing; failure spoils no byte
      beyond the plan. The segments number what was recorded, and no more than eight are
      pending at once. */
  method ReadIntoResolved(content: seq<byte>, offset: u64, dst: array<byte>, version: string, blockSize: u64,
                          fails: Segment -> bool)
    returns (r: Result<nat, Error>, recorded: nat, segments: nat, peak: nat)
    requires blockSize > 0 && |content| <= U64_MAX && dst.Length <= U64_MAX
    modifies dst
    ensures r == Err(InvalidArgument) <==> Trim(version) == ""
    ensures r == Err(ReadFailed) <==>
              && Trim(version) != ""
              && SomeFails(Plan(offset, offset + Planned(offset, dst.Length, |content|), blockSize), fails)
    ensures r == Err(InvalidArgument) ==> dst[..] == old(dst[..])
    ensures r.Ok? ==> && r.value == |Served(content, offset, dst.Length)| == Planned(offset, dst.Length, |content|)
                      && dst[..r.value] == Served(content, offset, dst.Length)
                      && (r.value > 0 ==>
                            offset + r.value <= |content| && dst[..r.value] == content[offset..offset + r.value])
                      && (r.value == dst.Length || |content| <= offset + r.value)
                      && segments == recorded
    ensures forall k :: Planned(offset, dst.Length, |content|) <= k < dst.Length ==> dst[k] == old(dst[k])
    ensures peak <= 8
  {
    hide CeilDiv, Trim, EndOf, SomeFails;
    recorded, segments, peak := 0, 0, 0;
    if Trim(version) == "" {
      r := Err(InvalidArgument);
      return;
    }
    var planned := Planned(offset, dst.Length, |content|);
    if planned == 0 {
      assert !SomeFails(Plan(offset, offset, blockSize), fails) by { NothingToFail(offset, blockSize, fails); }
      r := Ok(0);
      return;
    }
    recorded := CeilDiv(offset % blockSize + planned, blockSize);
    EndIs(offset, dst.Length, blockSize, |content|);
    var plan := new Cursor(offset, dst.Length, blockSize, |content|);
    hide Plan;
    r, segments, peak := Assemble(content, offset, dst, plan, fails);
  }

  lemma NothingToFail(offset: nat, blockSize: nat, fails: Segment -> bool)
    requires blockSize > 0
    ensures !SomeFails(Plan(offset, offset, blockSize), fails)
  {
  }

  function Remaining(size: nat, offset: nat): nat {
    if offset >= size then 0 else size - offset
  }

  /** `read_inner`: a read without a length goes to the end of the object. The argument
      is refused exactly when there is something to read and it does not fit in memory or
      names no version. */
  method ReadInner(content: seq<byte>, offset: u64, length: Option<u64>, version: string, blockSize: u64,
                   fails: Segment -> bool)
    returns (r: Result<seq<byte>, Error>)
    requires blockSize > 0 && |content| <= U64_MAX
    ensures var requested := if length.None? then |content| else length.value;
            && (r.Ok? ==> r.value == Served(content, offset, requested))
            && (r == Err(InvalidArgument) <==>
                  && Served(content, offset, requested) != []
                  && (|Served(content, offset, requested)| > 0x7FFF_FFFF_FFFF_FFFF || Trim(version) == ""))
            && (r == Err(ReadFailed) <==>
                  && |Served(content, offset, requested)| <= 0x7FFF_FFFF_FFFF_FFFF && Trim(version) != ""
                  && SomeFails(Plan(offset, offset + |Served(content, offset, requested)|, blockSize), fails))
  {
    hide Trim, SomeFails;
    assert !SomeFails(Plan(offset, offset, blockSize), fails) by { NothingToFail(offset, blockSize, fails); }
    hide Plan;
    if length == Some(0) {
      return Ok([]);
    }
    var requested := if length.None? then Remaining(|content|, offset) else length.value;
    var planned := Min(requested, Remaining(|content|, offset));
    if planned > ISIZE_MAX {
      return Err(InvalidArgument);
    }
    if planned == 0 {
      return Ok([]);
    }
    var bytes := new byte[planned](_ => 0);
    var written, _, _, _ := ReadIntoResolved(content, offset, bytes, version, blockSize, fails);
    match written {
      case Err(e) => return Err(e);
      case Ok(n) => return Ok(bytes[..n]);
    }
  }

  /** `read_exact`: all of the range or an error, and an argument error exactly for a range
      that is too long, overflows, leaves the object or names no version. */
  method ReadExact(content: seq<byte>, offset: u64, length: u64, version: string, blockSize: u64,
                   fails: Segment -> bool)
    returns (r: Result<seq<byte>, Error>)
    requires blockSize > 0 && |content| <= U64_MAX
    ensures r.Ok? && length > 0 ==> offset + length <= |content| && r.value == content[offset..offset + length]
    ensures r.Ok? && length == 0 ==> r.value == []
    ensures r == Err(InvalidArgument) <==>
              || length > 1_048_576 || offset + length > 0xFFFF_FFFF_FFFF_FFFF
              || (length > 0 && (offset + length > |content| || Trim(version) == ""))
    ensures r == Err(ReadFailed) <==>
              && 0 < length <= 1_048_576 && offset + length <= |content| && Trim(version) != ""
              && (if |content| < 1_048_576 then SomeFails(Plan(offset, offset + length, blockSize), fails)
                  else fails(Segment(offset, 0, length)))
  {
    hide Trim, SomeFails, Plan;
    if length > MAX_EXACT_READ_LEN {
      return Err(InvalidArgument);
    }
    if offset + length > U64_MAX {
      return Err(InvalidArgument);
    }
    if length == 0 {
      return Ok([]);
    }
    if offset + length > |content| || Trim(version) == "" {
      return Err(InvalidArgument);
    }
    var bytes := new byte[length](_ => 0);
    if |content| < MAX_EXACT_READ_LEN {
      var written, _, _, _ := ReadIntoResolved(content, offset, bytes, version, blockSize, fails);
      if written.Err? {
        return Err(written.error);
      }
      return Ok(bytes[..]);
    }
    var ok := ReadSegment(content, Segment(offset, 0, length), bytes, 0, fails);
    if !ok {
      return Err(ReadFailed);
    }
    assert bytes[..] == content[offset..offset + length];
    return Ok(bytes[..]);
  }
}
