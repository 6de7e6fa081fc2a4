/** Requests, responses and byte ranges: crates/talon-backend/src/http.rs, the range
    printers of azure.rs and gcs.rs, and the two decoders of what they print
    (`expected_transfer_bytes` in retry.rs and the range bound in monoio_client.rs). */
module Http {
  import opened Text

  type Headers = seq<(string, string)>

  datatype Request = Request(headers: Headers, body: seq<byte>)

  /** First header whose name matches, ignoring ASCII case. */
  function Header(headers: Headers, name: string): Option<string> {
    if headers == [] then None
    else if Lower(headers[0].0) == Lower(name) then Some(headers[0].1)
    else Header(headers[1..], name)
  }

  /** A lookup finds the first header with the name in any ASCII case, and fails exactly
      when there is none. */
  lemma {:induction false} HeaderIsFirst(headers: Headers, name: string, i: nat)
    ensures Header(headers, name).None? <==>
              forall j :: 0 <= j < |headers| ==> !EqualIgnoringCase(headers[j].0, name)
    ensures i < |headers| && EqualIgnoringCase(headers[i].0, name)
            && (forall j :: 0 <= j < i ==> !EqualIgnoringCase(headers[j].0, name))
            ==> Header(headers, name) == Some(headers[i].1)
  {
    hide EqualIgnoringCase, Lower;
    if headers == [] {
    } else {
      LowerDecides(headers[0].0, name);
      var rest := headers[1..];
      HeaderIsFirst(rest, name, if i == 0 then 0 else i - 1);
      assert forall j :: 0 <= j < |rest| ==> rest[j] == headers[j + 1];
      assert forall j :: 1 <= j < |headers| ==> headers[j] == rest[j - 1];
    }
  }

  // ----- ranged responses ------------------------------------------------

  datatype ContentRange = ContentRange(start: u64, end: u64, total: Option<u64>)

  /** `parse_content_range`: `bytes <start>-<end>/<total or *>` (RFC 7233, section 4.2). */
  function ParseContentRange(value: string): (r: Option<ContentRange>)
    ensures r.Some? ==> r.value.start <= r.value.end
  {
    match StripPrefix(Trim(value), "bytes ")
    case None => None
    case Some(rest) =>
      match SplitOnce(rest, '/')
      case None => None
      case Some((range, total)) =>
        match SplitOnce(range, '-')
        case None => None
        case Some((start, end)) => ContentRangeOf(ParseU64(Trim(start)), ParseU64(Trim(end)), Trim(total))
  }

  function ContentRangeOf(start: Option<u64>, end: Option<u64>, total: string): Option<ContentRange> {
    if start.None? || end.None? || end.value < start.value then None
    else if total == "*" then Some(ContentRange(start.value, end.value, None))
    else
      match ParseU64(total)
      case None => None
      case Some(t) => Some(ContentRange(start.value, end.value, Some(t)))
  }

  datatype RangeError = Malformed | WrongStart | TooLong | ShortRead | UnexpectedStatus

  /** `range_body`: the bytes of `[offset, offset + len)` out of a 206 or 200 response. */
  function RangeBody(status: nat, body: seq<byte>, offset: u64, len: u64, contentRange: Option<string>)
    : Result<seq<byte>, RangeError>
  {
    if status == 206 then
      if contentRange.None? then PartialBody(body, offset, len, None)
      else
        match ParseContentRange(contentRange.value)
        case None => Err(Malformed)
        case Some(cr) => PartialBody(body, offset, len, Some(cr))
    else if status == 200 then
      var start := Min(offset, |body|);
      // `checked_add` failing stands for an end beyond every body.
      var end := if offset + len <= U64_MAX then Min(offset + len, |body|) else |body|;
      Ok(body[start..end])
    else Err(UnexpectedStatus)
  }

  function PartialBody(body: seq<byte>, offset: u64, len: u64, cr: Option<ContentRange>)
    : Result<seq<byte>, RangeError>
  {
    var got := |body|;
    if cr.Some? && cr.value.start != offset then Err(WrongStart)
    else if got == len then Ok(body)
    else if len < got then Err(TooLong)
    else if cr.Some? && cr.value.total.Some? && cr.value.end + 1 == cr.value.total.value
            && offset + got == cr.value.total.value then Ok(body)
    else Err(ShortRead)
  }

  /** The requested window of an object, clamped at its end. */
  function Window(content: seq<byte>, offset: nat, len: nat): seq<byte> {
    content[Min(offset, |content|)..Min(offset + len, |content|)]
  }

  /** The header, where it parses at all, tells the truth about which slice `body` is. */
  predicate Truthful(content: seq<byte>, body: seq<byte>, contentRange: string) {
    var cr := ParseContentRange(contentRange);
    cr.Some? ==>
      && cr.value.end < |content|
      && body == content[cr.value.start..cr.value.end + 1]
      && (cr.value.total.Some? ==> cr.value.total.value == |content|)
  }

  /** A server that answers 200 with the object, or 206 with a slice of it and a truthful
      `Content-Range`, can only make `range_body` fail or return the requested window. */
  lemma RangeBodyIsSound(content: seq<byte>, status: nat, body: seq<byte>, offset: u64, len: u64,
                         contentRange: Option<string>)
    requires |content| <= U64_MAX
    requires status == 200 ==> body == content
    requires status == 206 ==> contentRange.Some? && Truthful(content, body, contentRange.value)
    ensures var r := RangeBody(status, body, offset, len, contentRange);
            r.Ok? ==> r.value == Window(content, offset, len)
  {
    hide ParseContentRange;
  }

  function PrintContentRange(start: nat, end: nat, total: Option<nat>): string {
    var t := if total.Some? then PrintNat(total.value) else "*";
    "bytes " + (PrintNat(start) + "-" + PrintNat(end) + "/" + t)
  }

  lemma DigitsLack(s: string, c: char)
    requires AllDigits(s) && !IsDigit(c)
    ensures c !in s
  {
  }

  lemma RangeTextTrims(rest: string)
    requires rest != "" && !IsSpace(rest[|rest| - 1])
    ensures Trim("bytes " + rest) == "bytes " + rest
    ensures StripPrefix("bytes " + rest, "bytes ") == Some(rest)
  {
    var s := "bytes " + rest;
    assert s[0] == 'b' && s[|s| - 1] == rest[|rest| - 1];
    TrimKeeps(s);
  }

  /** A dash or slash between two decimal numbers is where the text splits. */
  lemma NumbersSplit(a: nat, c: char, b: string)
    requires !IsDigit(c)
    ensures SplitOnce(PrintNat(a) + [c] + b, c) == Some((PrintNat(a), b))
  {
    DigitsLack(PrintNat(a), c);
    SplitOnceAt(PrintNat(a), c, b);
  }

  /** Reading back a printed `Content-Range`. */
  lemma ContentRangeRoundTrip(start: u64, end: u64, total: Option<u64>)
    requires start <= end
    ensures ParseContentRange(PrintContentRange(start, end, total)) == Some(ContentRange(start, end, total))
  {
    hide SplitOnce, Trim, StripPrefix, ParseU64, PrintNat;
    var s, e := PrintNat(start), PrintNat(end);
    var t := if total.Some? then PrintNat(total.value) else "*";
    var range := s + "-" + e;
    ParsePrinted(start);
    ParsePrinted(end);
    TotalParses(total);
    RangeTextTrims(range + "/" + t);
    DigitsLack(s, '/');
    DigitsLack(e, '/');
    SplitOnceAt(range, '/', t);
    NumbersSplit(start, '-', e);
  }

  lemma TotalParses(total: Option<u64>)
    ensures var t := if total.Some? then PrintNat(total.value) else "*";
            && t != "" && !IsSpace(t[|t| - 1]) && Trim(t) == t
            && (total.Some? ==> t != "*" && ParseU64(t) == total)
  {
    if total.Some? {
      ParsePrinted(total.value);
      assert IsDigit(PrintNat(total.value)[0]);
    } else {
      TrimKeeps("*");
    }
  }

  /** The compliant answer to a range that starts inside the object is never rejected, the
      short final block included, if it names the object's length. An answer that leaves
      the length out is accepted exactly when the range ends inside the object: a short
      final block that says `*` for its total is compliant but refused. */
  lemma RangeBodyIsComplete(content: seq<byte>, offset: u64, len: u64)
    requires |content| <= U64_MAX && offset < |content| && 0 < len
    ensures var w := Window(content, offset, len);
            var last := offset + |w| - 1;
            && RangeBody(200, content, offset, len, None) == Ok(w)
            && RangeBody(206, w, offset, len, Some(PrintContentRange(offset, last, Some(|content|)))) == Ok(w)
            && (RangeBody(206, w, offset, len, Some(PrintContentRange(offset, last, None))) == Ok(w)
                <==> offset + len <= |content|)
            && (RangeBody(206, w, offset, len, None) == Ok(w) <==> offset + len <= |content|)
  {
    hide ParseContentRange, PrintContentRange;
    var w := Window(content, offset, len);
    var last := offset + |w| - 1;
    ContentRangeRoundTrip(offset, last, Some(|content|));
    ContentRangeRoundTrip(offset, last, None);
  }

  // ----- range requests --------------------------------------------------

  function SaturatingSub(a: u64, b: u64): u64 {
    if b <= a then a - b else 0
  }

  /** `range_header`, the same in both backends. */
  function RangeHeader(offset: u64, len: u64): string {
    var end := SaturatingAdd(offset, SaturatingSub(len, 1));
    "bytes=" + (PrintNat(offset) + "-" + PrintNat(end))
  }

  /** The range part of `expected_transfer_bytes`. The source computes `e - s + 1` in u64;
      here the exact value is returned, so a result above `U64_MAX` is an overflow there. */
  function DeadlineBytes(range: string): nat {
    match StripPrefix(Trim(range), "bytes=")
    case None => 0
    case Some(spec) =>
      match SplitOnce(spec, '-')
      case None => 0
      case Some((start, end)) => InclusiveLength(ParseU64(Trim(start)), ParseU64(Trim(end)))
  }

  function InclusiveLength(start: Option<u64>, end: Option<u64>): nat {
    if start.Some? && end.Some? && start.value <= end.value then end.value - start.value + 1 else 0
  }

  function ExpectedTransferBytes(req: Request): nat {
    if req.body != [] then |req.body|
    else
      match Header(req.headers, "range")
      case Some(range) => DeadlineBytes(range)
      case None =>
        match Header(req.headers, "x-ms-range")
        case Some(range) => DeadlineBytes(range)
        case None => DeadlineBytes("")
  }

  /** The native transport's bound on a range, on a 64-bit target. */
  function NativeBound(range: string): Option<u64> {
    match StripPrefix(range, "bytes=")
    case None => None
    case Some(spec) =>
      match SplitOnce(spec, '-')
      case None => None
      case Some((start, end)) =>
        var s, e := ParseU64(start), ParseU64(end);
        if s.None? || e.None? || e.value < s.value || U64_MAX < e.value - s.value + 1 then None
        else Some(e.value - s.value + 1)
  }

  lemma RangeHeaderReads(offset: u64, len: u64)
    ensures var end := SaturatingAdd(offset, SaturatingSub(len, 1));
            && DeadlineBytes(RangeHeader(offset, len)) == end - offset + 1
            && NativeBound(RangeHeader(offset, len)) ==
               if end - offset + 1 <= U64_MAX then Some(end - offset + 1) else None
  {
    hide SplitOnce, Trim, StripPrefix, ParseU64, PrintNat;
    var end := SaturatingAdd(offset, SaturatingSub(len, 1));
    ParsePrinted(offset);
    ParsePrinted(end);
    NumbersSplit(offset, '-', PrintNat(end));
    SpecTrims(offset, end);
  }

  lemma SpecTrims(offset: u64, end: u64)
    ensures var spec := PrintNat(offset) + "-" + PrintNat(end);
            && Trim("bytes=" + spec) == "bytes=" + spec
            && StripPrefix("bytes=" + spec, "bytes=") == Some(spec)
  {
    hide Trim, StripPrefix;
    var spec := PrintNat(offset) + "-" + PrintNat(end);
    assert spec[|spec| - 1] == PrintNat(end)[|PrintNat(end)| - 1];
    assert IsDigit(spec[|spec| - 1]);
    hide PrintNat;
    SpecTextTrims(spec);
  }

  lemma SpecTextTrims(rest: string)
    requires rest != "" && !IsSpace(rest[|rest| - 1])
    ensures Trim("bytes=" + rest) == "bytes=" + rest
    ensures StripPrefix("bytes=" + rest, "bytes=") == Some(rest)
  {
    var s := "bytes=" + rest;
    assert s[0] == 'b' && s[|s| - 1] == rest[|rest| - 1];
    TrimKeeps(s);
  }

  /** Both decoders recover `len` from a printed range that does not saturate. */
  lemma RangeHeaderRoundTrip(offset: u64, len: u64)
    requires 0 < len && offset + len - 1 <= U64_MAX
    ensures RangeHeader(offset, len) == "bytes=" + (PrintNat(offset) + "-" + PrintNat(offset + len - 1))
    ensures DeadlineBytes(RangeHeader(offset, len)) == len
    ensures NativeBound(RangeHeader(offset, len)) == Some(len)
  {
    hide DeadlineBytes, NativeBound;
    RangeHeaderReads(offset, len);
  }

  /** No printed range, saturated or not, overflows the deadline arithmetic. */
  lemma RangeHeaderNeverOverflows(offset: u64, len: u64)
    ensures 1 <= DeadlineBytes(RangeHeader(offset, len)) <= U64_MAX
    ensures NativeBound(RangeHeader(offset, len)) == Some(DeadlineBytes(RangeHeader(offset, len)))
  {
    hide DeadlineBytes, NativeBound, RangeHeader;
    RangeHeaderReads(offset, len);
  }

  /** A request with a body is sized by it, and one with neither body nor range by nothing. */
  lemma OtherTransfers(req: Request)
    ensures req.body != [] ==> ExpectedTransferBytes(req) == |req.body|
    ensures req.body == [] && Header(req.headers, "range").None? && Header(req.headers, "x-ms-range").None? ==>
              ExpectedTransferBytes(req) == 0
  {
    hide Header;
    assert DeadlineBytes("") == 0 by { NoRange(); }
  }

  lemma NoRange()
    ensures DeadlineBytes("") == 0
  {
  }

  /** The deadline of a built ranged read is sized by exactly the requested length. */
  lemma RangedReadTransfer(req: Request, name: string, offset: u64, len: u64)
    requires req.body == [] && 0 < len && offset + len - 1 <= U64_MAX
    requires name == "range" || (name == "x-ms-range" && Header(req.headers, "range").None?)
    requires Header(req.headers, name) == Some(RangeHeader(offset, len))
    ensures ExpectedTransferBytes(req) == len
  {
    hide DeadlineBytes, RangeHeader, Header;
    RangeHeaderRoundTrip(offset, len);
  }
}
