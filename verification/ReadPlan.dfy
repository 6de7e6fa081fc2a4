/** How a range is cut into block-local segments: `iter_read` and `ReadPlan` of
    crates/talon-cache-client/src/read_plan.rs. */
module ReadPlan {
  import opened Text

  datatype Segment = Segment(blockStart: nat, offsetInBlock: nat, len: nat)

  /** Where in the object a segment begins and ends. */
  function From(g: Segment): nat {
    g.blockStart + g.offsetInBlock
  }

  function To(g: Segment): nat {
    From(g) + g.len
  }

  function CeilDiv(a: nat, b: nat): nat
    requires b > 0
  {
    (a + b - 1) / b
  }

  /** The first cut of a range that is not empty. */
  function Cut(position: nat, end: nat, blockSize: nat): Segment
    requires blockSize > 0 && position < end
  {
    var start := position / blockSize * blockSize;
    Segment(start, position - start, Min(start + blockSize, end) - position)
  }

  /** All segments of a range, in order. */
  function Plan(position: nat, end: nat, blockSize: nat): seq<Segment>
    requires blockSize > 0
    decreases end - position
  {
    if position >= end then []
    else
      var g := Cut(position, end, blockSize);
      CutFits(position, end, blockSize);
      [g] + Plan(To(g), end, blockSize)
  }

  lemma BlockOf(position: nat, blockSize: nat)
    requires blockSize > 0
    ensures position / blockSize * blockSize <= position < position / blockSize * blockSize + blockSize
    ensures position - position / blockSize * blockSize == position % blockSize
  {
  }

  lemma Multiple(q: nat, d: nat)
    requires d > 0
    ensures (q * d) % d == 0
  {
    DivMod(q * d, d, q, 0);
  }

  /** A quotient and a remainder are the quotient and the remainder. */
  lemma DivMod(a: nat, d: nat, q: nat, r: nat)
    requires d > 0 && a == q * d + r && r < d
    ensures a / d == q && a % d == r
  {
    var e := a / d - q;
    assert e * d == a / d * d - q * d;
    ProductGrows(e, d);
  }

  lemma ProductGrows(e: int, d: nat)
    ensures e >= 1 ==> e * d >= d
    ensures e <= -1 ==> e * d <= 0 - d
  {
  }

  /** A segment is not empty, starts where it should, and stays inside one block. */
  lemma CutFits(position: nat, end: nat, blockSize: nat)
    requires blockSize > 0 && position < end
    ensures var g := Cut(position, end, blockSize);
            && From(g) == position && 0 < g.len && To(g) <= end
            && g.offsetInBlock == position % blockSize && g.offsetInBlock + g.len <= blockSize
            && (To(g) == end || g.offsetInBlock + g.len == blockSize)
            && g.blockStart % blockSize == 0
  {
    BlockOf(position, blockSize);
    Multiple(position / blockSize, blockSize);
  }

  /** Segments that follow one another from one position to another. */
  predicate Tiles(gs: seq<Segment>, position: nat, end: nat) {
    if gs == [] then position >= end
    else From(gs[0]) == position && 0 < gs[0].len && To(gs[0]) <= end && Tiles(gs[1..], To(gs[0]), end)
  }

  predicate InOneBlock(g: Segment, blockSize: nat)
    requires blockSize > 0
  {
    g.blockStart % blockSize == 0 && g.offsetInBlock + g.len <= blockSize
  }

  /** The plan tiles the range, and every piece lies in one aligned block. */
  lemma {:induction false} PlanTiles(position: nat, end: nat, blockSize: nat)
    requires blockSize > 0
    ensures Tiles(Plan(position, end, blockSize), position, end)
    ensures forall i :: 0 <= i < |Plan(position, end, blockSize)| ==>
              InOneBlock(Plan(position, end, blockSize)[i], blockSize)
    decreases end - position
  {
    if position >= end {
    } else {
      CutFits(position, end, blockSize);
      var g := Cut(position, end, blockSize);
      assert Plan(position, end, blockSize)[1..] == Plan(To(g), end, blockSize);
      hide Cut;
      PlanTiles(To(g), end, blockSize);
    }
  }

  lemma CeilSmall(a: nat, d: nat)
    requires d > 0 && 0 < a <= d
    ensures CeilDiv(a, d) == 1
  {
    DivMod(a + d - 1, d, 1, a - 1);
  }

  lemma CeilStep(a: nat, d: nat)
    requires d > 0
    ensures CeilDiv(a + d, d) == CeilDiv(a, d) + 1
  {
    var q, r := (a + d - 1) / d, (a + d - 1) % d;
    assert a + d + d - 1 == (q + 1) * d + r;
    DivMod(a + d + d - 1, d, q + 1, r);
  }

  /** The number of segments is the number that the client records beforehand. */
  lemma {:induction false} PlanCount(position: nat, end: nat, blockSize: nat)
    requires blockSize > 0 && position < end
    ensures |Plan(position, end, blockSize)| == CeilDiv(position % blockSize + (end - position), blockSize)
    decreases end - position
  {
    hide Cut, CeilDiv;
    CutFits(position, end, blockSize);
    var g := Cut(position, end, blockSize);
    if To(g) == end {
      CeilSmall(position % blockSize + (end - position), blockSize);
    } else {
      PlanCount(To(g), end, blockSize);
      NextBlock(position, blockSize, To(g));
      CeilStep(end - To(g), blockSize);
    }
  }

  lemma NextBlock(position: nat, blockSize: nat, next: nat)
    requires blockSize > 0 && next == position + (blockSize - position % blockSize)
    ensures next % blockSize == 0
  {
    var q := position / blockSize;
    assert next == (q + 1) * blockSize;
    Multiple(q + 1, blockSize);
  }

  /** Where `iter_read` ends. */
  function EndOf(offset: u64, len: u64, blockSize: nat, size: u64): u64 {
    if blockSize == 0 || len == 0 || offset >= size then offset
    else Min(SaturatingAdd(offset, len), size)
  }

  /** The lazy plan: it hands out the segments of `Plan` one at a time. */
  class Cursor {
    const blockSize: u64
    const end: u64
    var position: u64

    constructor (offset: u64, len: u64, block: u64, size: u64)
      ensures position == offset && blockSize == block && end == EndOf(offset, len, block, size)
    {
      blockSize := block;
      position := offset;
      end := if block == 0 || len == 0 || offset >= size then offset else Min(SaturatingAdd(offset, len), size);
    }

    method Next() returns (r: Option<Segment>)
      requires position < end ==> blockSize > 0
      modifies this`position
      ensures r.None? <==> old(position) >= end
      ensures r.None? ==> position == old(position)
      ensures r.Some? ==> && blockSize > 0 && r.value == Cut(old(position), end, blockSize)
                          && From(r.value) == old(position) && position == To(r.value)
                          && old(position) < position <= end
                          && Plan(old(position), end, blockSize) == [r.value] + Plan(position, end, blockSize)
    {
      if position >= end {
        return None;
      }
      CutFits(position, end, blockSize);
      var blockStart := position / blockSize * blockSize;
      var offsetInBlock := position - blockStart;
      var segmentEnd := Min(SaturatingAdd(blockStart, blockSize), end);
      var len := segmentEnd - position;
      position := segmentEnd;
      return Some(Segment(blockStart, offsetInBlock, len));
    }
  }
}
