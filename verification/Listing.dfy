/** Listing responses: `parse_list_response` of crates/talon-backend/src/azure.rs and
    `parse_xml_list_response` of crates/talon-backend/src/gcs.rs, and the documents
    they are meant to read. */
module Listing {
  import opened Text
  import opened Xml

  datatype Listed = Listed(key: string, size: u64)

  datatype Page = Page(objects: seq<Listed>, next: Option<string>)

  datatype Error =
    | NoName
    | NoSize(key: string)
    | DirectoryWithContent(key: string, size: u64)
    | NoRoot
    | NoToken
    | NoTruncationFlag

  // ----- parsing, as the code does it ------------------------------------

  function UsableSize(text: Option<string>): Option<u64> {
    if text.None? then None else ParseU64(Trim(text.value))
  }

  predicate SaysIgnoringCase(text: Option<string>, word: string) {
    text.Some? && Lower(Trim(text.value)) == word
  }

  function AzureRecord(record: string): Result<Listed, Error> {
    match ElementOf(record, "Name")
    case None => Err(NoName)
    case Some(raw) =>
      var key := Unescape(raw);
      match UsableSize(ElementOf(record, "Content-Length"))
      case None => Err(NoSize(key))
      case Some(size) =>
        if SaysIgnoringCase(ElementOf(record, "ResourceType"), "directory") then
          if size != 0 then Err(DirectoryWithContent(key, size))
          else if key == "" || key[|key| - 1] != '/' then Ok(Listed(key + "/", size))
          else Ok(Listed(key, size))
        else Ok(Listed(key, size))
  }

  function GcsRecord(record: string): Result<Listed, Error> {
    match ElementOf(record, "Key")
    case None => Err(NoName)
    case Some(raw) =>
      var key := Unescape(raw);
      match UsableSize(ElementOf(record, "Size"))
      case None => Err(NoSize(key))
      case Some(size) => Ok(Listed(key, size))
  }

  /** Collecting stops at the first failing record. */
  function Collect(records: seq<string>, parse: string -> Result<Listed, Error>): Result<seq<Listed>, Error> {
    if records == [] then Ok([])
    else
      match parse(records[0])
      case Err(e) => Err(e)
      case Ok(x) =>
        match Collect(records[1..], parse)
        case Err(e) => Err(e)
        case Ok(xs) => Ok([x] + xs)
  }

  function AzureCursor(text: Option<string>): Option<string> {
    if text.Some? && Trim(Unescape(text.value)) != "" then Some(Unescape(text.value)) else None
  }

  /** `AzureBackend::parse_list_response`. */
  function ParseAzure(body: string): Result<Page, Error> {
    match Collect(ElementsOf(body, "Blob"), AzureRecord)
    case Err(e) => Err(e)
    case Ok(objects) => Ok(Page(objects, AzureCursor(ElementOf(body, "NextMarker"))))
  }

  function GcsCursor(truncated: Option<string>, token: Option<string>): Result<Option<string>, Error> {
    if SaysIgnoringCase(truncated, "true") then
      if token.Some? && token.value != "" then Ok(Some(Unescape(token.value))) else Err(NoToken)
    else if SaysIgnoringCase(truncated, "false") then Ok(None)
    else Err(NoTruncationFlag)
  }

  const ROOT := "ListBucketResult"

  predicate HasRoot(body: string) {
    Find(body, "<" + ROOT).Some? && Find(body, CloseTag(ROOT)).Some?
  }

  /** `GcsBackend::parse_xml_list_response`. */
  function ParseGcs(body: string): Result<Page, Error> {
    if !HasRoot(body) then Err(NoRoot)
    else
      match Collect(ElementsOf(body, "Contents"), GcsRecord)
      case Err(e) => Err(e)
      case Ok(objects) =>
        match GcsCursor(ElementOf(body, "IsTruncated"), ElementOf(body, "NextContinuationToken"))
        case Err(e) => Err(e)
        case Ok(next) => Ok(Page(objects, next))
  }

  // ----- documents -------------------------------------------------------

  /** Part of a record: an element with text, or markup that names no element of interest. */
  datatype Item = Field(tag: string, text: string) | Other(tokens: seq<Token>)

  function ItemTokens(item: Item): seq<Token> {
    match item
    case Field(tag, text) => [Open(tag), Chars(text), Close(tag)]
    case Other(tokens) => tokens
  }

  function Tokens(items: seq<Item>): seq<Token> {
    if items == [] then [] else ItemTokens(items[0]) + Tokens(items[1..])
  }

  /** A token that opens none of the elements of interest. */
  predicate Foreign(t: Token, tags: set<string>) {
    t.Open? ==> t.tag !in tags
  }

  /** Well-formed markup whose elements of interest are all fields with a tag in `fields`. */
  predicate ValidItem(item: Item, fields: set<string>, tags: set<string>) {
    match item
    case Field(tag, text) => tag in fields && '<' !in text
    case Other(tokens) => AllWellFormed(tokens) && forall i :: 0 <= i < |tokens| ==> Foreign(tokens[i], tags)
  }

  predicate ValidItems(items: seq<Item>, fields: set<string>, tags: set<string>) {
    forall i :: 0 <= i < |items| ==> ValidItem(items[i], fields, tags)
  }

  function Lookup(items: seq<Item>, tag: string): Option<string> {
    if items == [] then None
    else if items[0].Field? && items[0].tag == tag then Some(items[0].text)
    else Lookup(items[1..], tag)
  }

  lemma {:induction false} LookupAppend(a: seq<Item>, b: seq<Item>, tag: string)
    ensures Lookup(a + b, tag) == if Lookup(a, tag).Some? then Lookup(a, tag) else Lookup(b, tag)
  {
    if a == [] {
      assert a + b == b;
    } else {
      assert (a + b)[0] == a[0] && (a + b)[1..] == a[1..] + b;
      LookupAppend(a[1..], b, tag);
    }
  }

  /** A record element and what follows it up to the next one. */
  datatype Record = Record(items: seq<Item>, gap: seq<Item>)

  function RecordTokens(tag: string, r: Record): seq<Token> {
    [Open(tag)] + Tokens(r.items) + [Close(tag)] + Tokens(r.gap)
  }

  function AllRecordTokens(tag: string, rs: seq<Record>): seq<Token> {
    if rs == [] then [] else RecordTokens(tag, rs[0]) + AllRecordTokens(tag, rs[1..])
  }

  // ----- scanning tokens -------------------------------------------------

  lemma {:induction false} IndexOfSkips(a: seq<Token>, b: seq<Token>, t: Token)
    requires t !in a
    ensures IndexOf(a + b, t) == Shifted(IndexOf(b, t), |a|)
  {
    if a == [] {
      assert a + b == b;
    } else {
      assert (a + b)[0] == a[0] && (a + b)[1..] == a[1..] + b;
      IndexOfSkips(a[1..], b, t);
    }
  }

  lemma ScanSkips(a: seq<Token>, b: seq<Token>, tag: string)
    requires Open(tag) !in a
    ensures TokenElements(a + b, tag) == TokenElements(b, tag)
  {
    hide IndexOf, FromOpened;
    IndexOfSkips(a, b, Open(tag));
    var i := IndexOf(b, Open(tag));
    if i.Some? {
      assert (a + b)[|a| + i.value + 1..] == b[i.value + 1..];
    }
  }

  lemma ScanTakes(a: seq<Token>, b: seq<Token>, tag: string)
    requires Close(tag) !in a
    ensures TokenElements([Open(tag)] + a + [Close(tag)] + b, tag) == [a] + TokenElements(b, tag)
  {
    var ts := [Open(tag)] + a + [Close(tag)] + b;
    var after := a + ([Close(tag)] + b);
    assert ts[0] == Open(tag) && ts[1..] == after;
    assert IndexOf(ts, Open(tag)) == Some(0);
    IndexOfSkips(a, [Close(tag)] + b, Close(tag));
    assert IndexOf([Close(tag)] + b, Close(tag)) == Some(0);
    assert after[..|a|] == a && after[|a| + 1..] == b;
  }

  lemma {:induction false} ItemsAvoid(items: seq<Item>, fields: set<string>, tags: set<string>, tag: string)
    requires ValidItems(items, fields, tags) && tag in tags && tag !in fields
    ensures Open(tag) !in Tokens(items)
  {
    if items == [] {
    } else {
      ItemsAvoid(items[1..], fields, tags, tag);
      assert Open(tag) !in ItemTokens(items[0]);
    }
  }

  /** Scanning items and then more markup: the first field with the tag is found first, and
      items without one are passed over. */
  lemma {:induction false} LookupScans(items: seq<Item>, rest: seq<Token>, fields: set<string>, tags: set<string>,
                                       tag: string)
    requires ValidItems(items, fields, tags) && tag in tags
    ensures var found := TokenElements(Tokens(items) + rest, tag);
            match Lookup(items, tag)
            case None => found == TokenElements(rest, tag)
            case Some(text) => found != [] && found[0] == [Chars(text)]
  {
    hide TokenElements;
    if items == [] {
      assert Tokens(items) + rest == rest;
    } else {
      var more := Tokens(items[1..]) + rest;
      LookupScans(items[1..], rest, fields, tags, tag);
      Assoc(ItemTokens(items[0]), Tokens(items[1..]), rest);
      if items[0].Field? && items[0].tag == tag {
        ScanTakes([Chars(items[0].text)], more, tag);
        assert [Open(tag)] + [Chars(items[0].text)] + [Close(tag)] == ItemTokens(items[0]);
      } else {
        assert Open(tag) !in ItemTokens(items[0]);
        ScanSkips(ItemTokens(items[0]), more, tag);
      }
    }
  }

  // ----- whole documents -------------------------------------------------

  /** What a listing dialect calls its elements: those of a record, and those that stand
      beside the records. */
  datatype Dialect = Dialect(record: string, fields: set<string>, outer: set<string>) {
    function Tags(): set<string> {
      {record} + fields + outer
    }

    predicate Valid() {
      && record !in fields && record !in outer && fields !! outer
      && forall tag :: tag in Tags() ==> WellFormed(Open(tag))
    }
  }

  /** Records with markup and outer elements before, between and after them. */
  datatype Document = Document(before: seq<Item>, records: seq<Record>)

  function Gaps(rs: seq<Record>): seq<Item> {
    if rs == [] then [] else rs[0].gap + Gaps(rs[1..])
  }

  /** Everything outside the records, in order. */
  function Outside(doc: Document): seq<Item> {
    doc.before + Gaps(doc.records)
  }

  /** Outside the records no record opens and outer elements hold only text. */
  predicate ValidOutside(items: seq<Item>, d: Dialect) {
    ValidItems(items, d.outer, {d.record} + d.outer)
  }

  /** A record's fields hold only text, no outer element opens in it, and it ends once. */
  predicate ValidRecord(r: Record, d: Dialect) {
    && ValidItems(r.items, d.fields, d.Tags()) && Close(d.record) !in Tokens(r.items)
    && ValidOutside(r.gap, d)
  }

  predicate ValidRecords(rs: seq<Record>, d: Dialect) {
    forall i :: 0 <= i < |rs| ==> ValidRecord(rs[i], d)
  }

  predicate ValidDocument(doc: Document, d: Dialect) {
    d.Valid() && ValidOutside(doc.before, d) && ValidRecords(doc.records, d)
  }

  function DocumentTokens(doc: Document, d: Dialect): seq<Token> {
    Tokens(doc.before) + AllRecordTokens(d.record, doc.records)
  }

  function DocumentText(doc: Document, d: Dialect): string {
    Render(DocumentTokens(doc, d))
  }

  function Bodies(rs: seq<Record>): seq<seq<Token>> {
    if rs == [] then [] else [Tokens(rs[0].items)] + Bodies(rs[1..])
  }

  lemma {:induction false} ItemsWellFormed(items: seq<Item>, fields: set<string>, tags: set<string>, d: Dialect)
    requires d.Valid() && fields <= d.Tags() && ValidItems(items, fields, tags)
    ensures AllWellFormed(Tokens(items))
  {
    if items == [] {
    } else {
      ItemsWellFormed(items[1..], fields, tags, d);
      if items[0].Field? {
        var tag := items[0].tag;
        assert tag in d.Tags();
        assert WellFormed(Open(tag));
        assert WellFormed(Close(tag));
      }
      assert AllWellFormed(ItemTokens(items[0]));
    }
  }

  lemma {:induction false} RecordsWellFormed(rs: seq<Record>, d: Dialect)
    requires d.Valid() && ValidRecords(rs, d)
    ensures AllWellFormed(AllRecordTokens(d.record, rs))
  {
    if rs == [] {
    } else {
      RecordsWellFormed(rs[1..], d);
      ItemsWellFormed(rs[0].items, d.fields, d.Tags(), d);
      ItemsWellFormed(rs[0].gap, d.outer, {d.record} + d.outer, d);
      assert d.record in d.Tags();
      assert WellFormed(Open(d.record)) && WellFormed(Close(d.record));
      assert AllWellFormed(RecordTokens(d.record, rs[0]));
    }
  }

  lemma DocumentWellFormed(doc: Document, d: Dialect)
    requires ValidDocument(doc, d)
    ensures AllWellFormed(DocumentTokens(doc, d))
  {
    RecordsWellFormed(doc.records, d);
    ItemsWellFormed(doc.before, d.outer, {d.record} + d.outer, d);
  }

  /** The block scan isolates exactly the records, in order. */
  lemma {:induction false} BlocksAreRecords(rs: seq<Record>, d: Dialect)
    requires d.Valid() && ValidRecords(rs, d)
    ensures TokenElements(AllRecordTokens(d.record, rs), d.record) == Bodies(rs)
  {
    hide TokenElements, Tokens, WellFormed;
    if rs == [] {
      NothingToScan([], d.record);
    } else {
      var body, gap := Tokens(rs[0].items), Tokens(rs[0].gap);
      var rest := AllRecordTokens(d.record, rs[1..]);
      BlocksAreRecords(rs[1..], d);
      ItemsAvoid(rs[0].gap, d.outer, {d.record} + d.outer, d.record);
      ScanSkips(gap, rest, d.record);
      ScanTakes(body, gap + rest, d.record);
      Assoc([Open(d.record)] + body + [Close(d.record)], gap, rest);
    }
  }

  lemma NothingToScan(ts: seq<Token>, tag: string)
    requires Open(tag) !in ts
    ensures TokenElements(ts, tag) == []
  {
    assert ts + [] == ts;
    IndexOfSkips(ts, [], Open(tag));
  }

  /** What a scan for an outer element finds first. */
  predicate FindsFirst(found: seq<seq<Token>>, text: Option<string>) {
    match text
    case None => found == []
    case Some(t) => found != [] && found[0] == [Chars(t)]
  }

  /** Outer elements are found between the records as if the records were not there. */
  lemma {:induction false} GapsScan(rs: seq<Record>, d: Dialect, tag: string)
    requires d.Valid() && ValidRecords(rs, d) && tag in d.outer
    ensures FindsFirst(TokenElements(AllRecordTokens(d.record, rs), tag), Lookup(Gaps(rs), tag))
  {
    hide TokenElements, Tokens, WellFormed, Lookup;
    assert tag in d.Tags() && tag !in d.fields && tag != d.record;
    if rs == [] {
      NothingToScan([], tag);
      assert Lookup([], tag) == None by { LookupInNothing(tag); }
    } else {
      var head := [Open(d.record)] + Tokens(rs[0].items) + [Close(d.record)];
      var gap, rest := Tokens(rs[0].gap), AllRecordTokens(d.record, rs[1..]);
      GapsScan(rs[1..], d, tag);
      ItemsAvoid(rs[0].items, d.fields, d.Tags(), tag);
      Assoc(head, gap, rest);
      ScanSkips(head, gap + rest, tag);
      LookupScans(rs[0].gap, rest, d.outer, {d.record} + d.outer, tag);
      LookupAppend(rs[0].gap, Gaps(rs[1..]), tag);
    }
  }

  lemma LookupInNothing(tag: string)
    ensures Lookup([], tag) == None
  {
  }

  /** Reading a document's text isolates its records and finds its outer elements,
      wherever they stand. */
  lemma DocumentReads(doc: Document, d: Dialect, tag: string)
    requires ValidDocument(doc, d) && tag in d.outer
    ensures ElementsOf(DocumentText(doc, d), d.record) == RenderEach(Bodies(doc.records))
    ensures ElementOf(DocumentText(doc, d), tag) == Lookup(Outside(doc), tag)
  {
    hide TokenElements, ElementsOf, Render, WellFormed, Lookup, AllRecordTokens, Tokens, ValidItems, ValidRecords;
    var ts := DocumentTokens(doc, d);
    var before, records := Tokens(doc.before), AllRecordTokens(d.record, doc.records);
    assert tag in d.Tags() && d.record in d.Tags();
    assert WellFormed(Open(tag)) && WellFormed(Open(d.record));
    DocumentWellFormed(doc, d);
    ElementsAreTokenElements(ts, d.record);
    ItemsAvoid(doc.before, d.outer, {d.record} + d.outer, d.record);
    ScanSkips(before, records, d.record);
    BlocksAreRecords(doc.records, d);
    ElementsAreTokenElements(ts, tag);
    LookupScans(doc.before, records, d.outer, {d.record} + d.outer, tag);
    GapsScan(doc.records, d, tag);
    LookupAppend(doc.before, Gaps(doc.records), tag);
    FirstText(TokenElements(ts, tag));
  }

  /** The text of the first scanned element, when that element holds only text. */
  lemma FirstText(found: seq<seq<Token>>)
    ensures found != [] && |found[0]| == 1 && found[0][0].Chars? ==>
              RenderEach(found)[0] == found[0][0].text
  {
    if found != [] && |found[0]| == 1 {
      assert Render(found[0]) == RenderToken(found[0][0]) + Render([]);
    }
  }

  /** Reading a field inside one record finds the first field with that tag. */
  lemma RecordReads(r: Record, d: Dialect, tag: string)
    requires d.Valid() && ValidRecord(r, d) && tag in d.fields
    ensures ElementOf(Render(Tokens(r.items)), tag) == Lookup(r.items, tag)
  {
    hide TokenElements, ElementsOf, Render, WellFormed, Lookup, Tokens, ValidOutside;
    assert tag in d.Tags();
    ItemsWellFormed(r.items, d.fields, d.Tags(), d);
    ElementsAreTokenElements(Tokens(r.items), tag);
    LookupScans(r.items, [], d.fields, d.Tags(), tag);
    NothingToScan([], tag);
    assert Tokens(r.items) + [] == Tokens(r.items);
    FirstText(TokenElements(Tokens(r.items), tag));
  }

  // ----- round trips -----------------------------------------------------

  /** `parse` reads every record of `rs` as `expected` says, in order. */
  lemma {:induction false} CollectEach(rs: seq<Record>, expected: seq<Result<Listed, Error>>,
                                       parse: string -> Result<Listed, Error>)
    requires |rs| == |expected|
    requires forall i :: 0 <= i < |rs| ==> parse(Render(Tokens(rs[i].items))) == expected[i]
    ensures Collect(RenderEach(Bodies(rs)), parse) == AllOk(expected)
  {
    hide Render, Tokens;
    if rs == [] {
    } else {
      RenderEachCons(Tokens(rs[0].items), Bodies(rs[1..]));
      CollectEach(rs[1..], expected[1..], parse);
    }
  }

  /** The values, or the first error. */
  function AllOk(rs: seq<Result<Listed, Error>>): Result<seq<Listed>, Error> {
    if rs == [] then Ok([])
    else if rs[0].Err? then Err(rs[0].error)
    else
      match AllOk(rs[1..])
      case Err(e) => Err(e)
      case Ok(xs) => Ok([rs[0].value] + xs)
  }

  const AZURE := Dialect("Blob", {"Name", "Content-Length", "ResourceType"}, {"NextMarker"})

  lemma AzureDialect()
    ensures AZURE.Valid()
    ensures AZURE.record == "Blob" && AZURE.outer == {"NextMarker"}
    ensures "Name" in AZURE.fields && "Content-Length" in AZURE.fields && "ResourceType" in AZURE.fields
  {
    hide WellFormed;
    AzureTags();
    AzureTypeTag();
    LongAzureTag();
    forall tag | tag in AZURE.Tags()
      ensures WellFormed(Open(tag))
    {
    }
    assert |"Blob"| == |"Name"| == 4 && "Blob"[0] != "Name"[0];
    assert |"Content-Length"| == 14 && |"ResourceType"| == 12 && |"NextMarker"| == 10;
  }

  lemma AzureTags()
    ensures WellFormed(Open("Blob")) && WellFormed(Open("Name")) && WellFormed(Open("NextMarker"))
  {
  }

  lemma AzureTypeTag()
    ensures WellFormed(Open("ResourceType"))
  {
  }

  lemma LongAzureTag()
    ensures WellFormed(Open("Content-Length"))
  {
  }

  datatype Blob = Blob(name: string, size: u64, directory: bool)

  /** What a record describes: an item, or nothing usable for want of a name or a size. */
  datatype Entry<+T> = Whole(item: T) | Nameless | Sizeless(name: string)

  /** The text is a word in any ASCII case, with white space around it or not. */
  predicate IsWord(text: Option<string>, word: string) {
    text.Some? && EqualIgnoringCase(Trim(text.value), word)
  }

  lemma WordIsSaid(text: Option<string>, word: string)
    requires forall i :: 0 <= i < |word| ==> 'a' <= word[i] <= 'z'
    ensures SaysIgnoringCase(text, word) <==> IsWord(text, word)
  {
    hide Trim, EqualIgnoringCase, Lower;
    LowerKeeps(word);
    if text.Some? {
      LowerDecides(Trim(text.value), word);
    }
  }

  /** The text spells a number of 64 bits, with white space around it or not. */
  ghost predicate IsSize(text: Option<string>, n: nat) {
    text.Some? && n <= 0xFFFF_FFFF_FFFF_FFFF && exists k :: Spells(Trim(text.value), n, k)
  }

  ghost predicate IsNoSize(text: Option<string>) {
    forall n: nat :: !IsSize(text, n)
  }

  lemma SizeReads(text: Option<string>, n: nat)
    ensures IsSize(text, n) <==> UsableSize(text) == Some(n)
  {
    hide Trim, Spells, ParseU64;
    if text.Some? {
      ParsesExactly(Trim(text.value), n);
    }
  }

  lemma NoSizeReads(text: Option<string>)
    ensures IsNoSize(text) <==> UsableSize(text).None?
  {
    hide IsSize, UsableSize;
    forall n: nat ensures IsSize(text, n) <==> UsableSize(text) == Some(n) {
      SizeReads(text, n);
    }
    if UsableSize(text).Some? {
      assert IsSize(text, UsableSize(text).value);
    }
  }

  /** The record names the blob (escaped in any way), gives its size, and says whether it is
      a directory; the fields may come in any order among other markup. */
  ghost predicate DescribesBlob(items: seq<Item>, b: Blob) {
    && Lookup(items, "Name").Some? && IsEscaping(b.name, Lookup(items, "Name").value)
    && IsSize(Lookup(items, "Content-Length"), b.size)
    && (b.directory <==> IsWord(Lookup(items, "ResourceType"), "directory"))
  }

  ghost predicate DescribesEntry(items: seq<Item>, x: Entry<Blob>) {
    match x
    case Whole(b) => DescribesBlob(items, b)
    case Nameless => Lookup(items, "Name").None?
    case Sizeless(name) =>
      && Lookup(items, "Name").Some? && IsEscaping(name, Lookup(items, "Name").value)
      && IsNoSize(Lookup(items, "Content-Length"))
  }

  /** A directory is listed with exactly one trailing slash added when it has none; a
      directory with content is an inconsistent listing. */
  function ListedBlob(b: Blob): Result<Listed, Error> {
    if !b.directory then Ok(Listed(b.name, b.size))
    else if b.size != 0 then Err(DirectoryWithContent(b.name, b.size))
    else if b.name != "" && b.name[|b.name| - 1] == '/' then Ok(Listed(b.name, 0))
    else Ok(Listed(b.name + "/", 0))
  }

  function ListedEntry(x: Entry<Blob>): Result<Listed, Error> {
    match x
    case Whole(b) => ListedBlob(b)
    case Nameless => Err(NoName)
    case Sizeless(name) => Err(NoSize(name))
  }

  lemma DirectoryIsAWord()
    ensures forall i :: 0 <= i < |"directory"| ==> 'a' <= "directory"[i] <= 'z'
  {
  }

  lemma AzureRecordReads(r: Record, x: Entry<Blob>)
    requires AZURE.Valid() && ValidRecord(r, AZURE) && DescribesEntry(r.items, x)
    ensures AzureRecord(Render(Tokens(r.items))) == ListedEntry(x)
  {
    hide Render, Tokens, Lookup, ElementOf, Unescape, IsEscaping, ValidItems, IsSize, IsNoSize, UsableSize, IsWord,
      SaysIgnoringCase;
    AzureDialect();
    RecordReads(r, AZURE, "Name");
    RecordReads(r, AZURE, "Content-Length");
    RecordReads(r, AZURE, "ResourceType");
    NoSizeReads(Lookup(r.items, "Content-Length"));
    DirectoryIsAWord();
    WordIsSaid(Lookup(r.items, "ResourceType"), "directory");
    match x
    case Whole(b) =>
      SizeReads(Lookup(r.items, "Content-Length"), b.size);
      UnescapeUndoesEscaping(b.name, Lookup(r.items, "Name").value);
    case Nameless =>
    case Sizeless(name) =>
      UnescapeUndoesEscaping(name, Lookup(r.items, "Name").value);
  }

  /** `<NextMarker>` carries the cursor, or is absent or blank when there is none. */
  predicate DescribesCursor(text: Option<string>, next: Option<string>) {
    match next
    case Some(m) => text.Some? && IsEscaping(m, text.value) && Trim(m) != ""
    case None => text.Some? ==> Trim(text.value) == "" && '&' !in text.value
  }

  lemma AzureCursorReads(text: Option<string>, next: Option<string>)
    requires DescribesCursor(text, next)
    ensures AzureCursor(text) == next
  {
    hide Trim, IsEscaping;
    if next.Some? {
      UnescapeUndoesEscaping(next.value, text.value);
    }
  }

  function ListedEntries(xs: seq<Entry<Blob>>): (r: seq<Result<Listed, Error>>)
    ensures |r| == |xs| && forall i :: 0 <= i < |xs| ==> r[i] == ListedEntry(xs[i])
  {
    seq(|xs|, i requires 0 <= i < |xs| => ListedEntry(xs[i]))
  }

  /** Parsing undoes printing: for every document that describes the entries and the cursor,
      the page holds the blobs in order and that cursor, or the error of the first record
      that lacks a name or a usable size or is inconsistent. */
  lemma AzureListingRoundTrip(doc: Document, entries: seq<Entry<Blob>>, next: Option<string>)
    requires ValidDocument(doc, AZURE) && |entries| == |doc.records|
    requires forall i :: 0 <= i < |entries| ==> DescribesEntry(doc.records[i].items, entries[i])
    requires DescribesCursor(Lookup(Outside(doc), "NextMarker"), next)
    ensures ParseAzure(DocumentText(doc, AZURE)) ==
            match AllOk(ListedEntries(entries))
            case Err(e) => Err(e)
            case Ok(objects) => Ok(Page(objects, next))
  {
    hide Render, Tokens, Lookup, ElementOf, ElementsOf, DocumentText, AzureRecord, ListedEntry, AzureCursor,
      DescribesEntry, DescribesCursor, Collect, AllOk, ValidRecord;
    AzureDialect();
    DocumentReads(doc, AZURE, "NextMarker");
    forall i | 0 <= i < |entries|
      ensures AzureRecord(Render(Tokens(doc.records[i].items))) == ListedEntries(entries)[i]
    {
      AzureRecordReads(doc.records[i], entries[i]);
    }
    CollectEach(doc.records, ListedEntries(entries), AzureRecord);
    AzureCursorReads(Lookup(Outside(doc), "NextMarker"), next);
  }

  const GCS := Dialect("Contents", {"Key", "Size"}, {"IsTruncated", "NextContinuationToken"})

  lemma GcsDialect()
    ensures GCS.Valid()
    ensures GCS.record == "Contents" && "Key" in GCS.fields && "Size" in GCS.fields
    ensures "IsTruncated" in GCS.outer && "NextContinuationToken" in GCS.outer
  {
    hide WellFormed;
    GcsTags();
    LongGcsTag();
    forall tag | tag in GCS.Tags()
      ensures WellFormed(Open(tag))
    {
    }
    assert |"Contents"| == 8 && |"Key"| == 3 && |"Size"| == 4;
    assert |"IsTruncated"| == 11 && |"NextContinuationToken"| == 21;
  }

  lemma GcsTags()
    ensures WellFormed(Open("Contents")) && WellFormed(Open("Key")) && WellFormed(Open("Size"))
    ensures WellFormed(Open("IsTruncated"))
  {
  }

  lemma LongGcsTag()
    ensures WellFormed(Open("NextContinuationToken"))
  {
  }

  ghost predicate DescribesObject(items: seq<Item>, x: Entry<Listed>) {
    match x
    case Whole(o) =>
      && Lookup(items, "Key").Some? && IsEscaping(o.key, Lookup(items, "Key").value)
      && IsSize(Lookup(items, "Size"), o.size)
    case Nameless => Lookup(items, "Key").None?
    case Sizeless(name) =>
      && Lookup(items, "Key").Some? && IsEscaping(name, Lookup(items, "Key").value)
      && IsNoSize(Lookup(items, "Size"))
  }

  function ListedObject(x: Entry<Listed>): Result<Listed, Error> {
    match x
    case Whole(o) => Ok(o)
    case Nameless => Err(NoName)
    case Sizeless(name) => Err(NoSize(name))
  }

  lemma GcsRecordReads(r: Record, x: Entry<Listed>)
    requires GCS.Valid() && ValidRecord(r, GCS) && DescribesObject(r.items, x)
    ensures GcsRecord(Render(Tokens(r.items))) == ListedObject(x)
  {
    hide Render, Tokens, Lookup, ElementOf, Unescape, IsEscaping, ValidItems, IsSize, IsNoSize, UsableSize;
    GcsDialect();
    RecordReads(r, GCS, "Key");
    RecordReads(r, GCS, "Size");
    NoSizeReads(Lookup(r.items, "Size"));
    match x
    case Whole(o) =>
      SizeReads(Lookup(r.items, "Size"), o.size);
      UnescapeUndoesEscaping(o.key, Lookup(r.items, "Key").value);
    case Nameless =>
    case Sizeless(name) =>
      UnescapeUndoesEscaping(name, Lookup(r.items, "Key").value);
  }

  function ListedObjects(xs: seq<Entry<Listed>>): (r: seq<Result<Listed, Error>>)
    ensures |r| == |xs| && forall i :: 0 <= i < |xs| ==> r[i] == ListedObject(xs[i])
  {
    seq(|xs|, i requires 0 <= i < |xs| => ListedObject(xs[i]))
  }

  /** The truncation flag, and the continuation token that it announces. */
  predicate DescribesToken(flag: Option<string>, token: Option<string>, next: Option<string>) {
    match next
    case Some(t) => IsWord(flag, "true") && token.Some? && t != "" && IsEscaping(t, token.value)
    case None => IsWord(flag, "false")
  }

  lemma FlagIsSaid(flag: Option<string>)
    ensures SaysIgnoringCase(flag, "true") <==> IsWord(flag, "true")
    ensures SaysIgnoringCase(flag, "false") <==> IsWord(flag, "false")
    ensures !(IsWord(flag, "true") && IsWord(flag, "false"))
  {
    hide SaysIgnoringCase, EqualIgnoringCase;
    assert forall i :: 0 <= i < |"true"| ==> 'a' <= "true"[i] <= 'z';
    assert forall i :: 0 <= i < |"false"| ==> 'a' <= "false"[i] <= 'z';
    WordIsSaid(flag, "true");
    WordIsSaid(flag, "false");
    if flag.Some? {
      SameLengths(Trim(flag.value), "true");
      SameLengths(Trim(flag.value), "false");
    }
  }

  lemma SameLengths(a: string, b: string)
    ensures EqualIgnoringCase(a, b) ==> |a| == |b|
  {
  }

  lemma GcsCursorReads(flag: Option<string>, token: Option<string>, next: Option<string>)
    requires DescribesToken(flag, token, next)
    ensures GcsCursor(flag, token) == Ok(next)
  {
    hide SaysIgnoringCase, IsWord, Unescape;
    FlagIsSaid(flag);
    if next.Some? {
      UnescapeUndoesEscaping(next.value, token.value);
    }
  }

  /** The tokens open the root element, with any attributes, and close it. */
  predicate HoldsRoot(ts: seq<Token>) {
    (exists i :: 0 <= i < |ts| && Opens(ts[i], "ListBucketResult")) && Close("ListBucketResult") in ts
  }

  lemma RootIsAName()
    ensures IsName(ROOT) && WellFormed(Close(ROOT))
  {
  }

  lemma {:induction false} IndexOfFinds(ts: seq<Token>, t: Token)
    ensures IndexOf(ts, t).Some? <==> t in ts
  {
    if ts == [] {
    } else {
      IndexOfFinds(ts[1..], t);
    }
  }

  /** The text has a root exactly when the tokens do. */
  lemma RootIsFound(ts: seq<Token>)
    requires AllWellFormed(ts)
    ensures HasRoot(Render(ts)) <==> HoldsRoot(ts)
  {
    hide Find, Render, CloseTag, IndexOf, WellFormed, IsName, Opens;
    RootIsAName();
    OpeningIsFound(ts, ROOT);
    CutAt(ts, Close(ROOT));
    IndexOfFinds(ts, Close(ROOT));
  }

  /** What the checks of a listing make of a document: a missing root first, then the first
      unusable record, then the flag and the token. */
  lemma GcsDocumentReads(doc: Document, entries: seq<Entry<Listed>>)
    requires ValidDocument(doc, GCS) && |entries| == |doc.records|
    requires forall i :: 0 <= i < |entries| ==> DescribesObject(doc.records[i].items, entries[i])
    ensures ParseGcs(DocumentText(doc, GCS)) ==
            if !HoldsRoot(DocumentTokens(doc, GCS)) then Err(NoRoot) else
            match AllOk(ListedObjects(entries))
            case Err(e) => Err(e)
            case Ok(objects) =>
              match GcsCursor(Lookup(Outside(doc), "IsTruncated"), Lookup(Outside(doc), "NextContinuationToken"))
              case Err(e) => Err(e)
              case Ok(next) => Ok(Page(objects, next))
  {
    hide Render, Tokens, Lookup, ElementOf, ElementsOf, GcsRecord, GcsCursor, DocumentTokens,
      DescribesObject, Collect, AllOk, ValidRecord, HasRoot, HoldsRoot, ValidOutside, Outside, ListedObject;
    GcsDialect();
    DocumentWellFormed(doc, GCS);
    RootIsFound(DocumentTokens(doc, GCS));
    DocumentReads(doc, GCS, "IsTruncated");
    DocumentReads(doc, GCS, "NextContinuationToken");
    forall i | 0 <= i < |entries|
      ensures GcsRecord(Render(Tokens(doc.records[i].items))) == ListedObjects(entries)[i]
    {
      GcsRecordReads(doc.records[i], entries[i]);
    }
    CollectEach(doc.records, ListedObjects(entries), GcsRecord);
  }

  /** The same for the XML listing of Google Cloud Storage: from every document with a root
      that describes the entries and the continuation token, the page holds the objects in
      order and that token, wherever flag and token stand, or the first unusable record. */
  lemma GcsListingRoundTrip(doc: Document, entries: seq<Entry<Listed>>, next: Option<string>)
    requires ValidDocument(doc, GCS) && |entries| == |doc.records|
    requires HoldsRoot(DocumentTokens(doc, GCS))
    requires forall i :: 0 <= i < |entries| ==> DescribesObject(doc.records[i].items, entries[i])
    requires DescribesToken(Lookup(Outside(doc), "IsTruncated"), Lookup(Outside(doc), "NextContinuationToken"), next)
    ensures ParseGcs(DocumentText(doc, GCS)) ==
            match AllOk(ListedObjects(entries))
            case Err(e) => Err(e)
            case Ok(objects) => Ok(Page(objects, next))
  {
    hide Lookup, DocumentText, GcsCursor, DescribesObject, DescribesToken, ValidDocument, HoldsRoot, Outside, ParseGcs,
      AllOk;
    GcsDocumentReads(doc, entries);
    GcsCursorReads(Lookup(Outside(doc), "IsTruncated"), Lookup(Outside(doc), "NextContinuationToken"), next);
  }

  /** All records are usable exactly when all entries are whole, and then the objects are
      theirs, in order. */
  lemma {:induction false} AllWholeAreListed(entries: seq<Entry<Listed>>)
    ensures AllOk(ListedObjects(entries)).Ok? <==> forall i :: 0 <= i < |entries| ==> entries[i].Whole?
    ensures AllOk(ListedObjects(entries)).Ok? ==>
              var objects := AllOk(ListedObjects(entries)).value;
              && |objects| == |entries|
              && forall i :: 0 <= i < |entries| ==> entries[i].Whole? && objects[i] == entries[i].item
  {
    if entries == [] {
    } else {
      var rest := entries[1..];
      AllWholeAreListed(rest);
      assert ListedObjects(entries)[1..] == ListedObjects(rest);
      assert forall i :: 1 <= i < |entries| ==> entries[i] == rest[i - 1];
      assert forall i :: 0 <= i < |rest| ==> rest[i] == entries[i + 1];
    }
  }

  /** A listing is refused exactly when its root is missing, some record has no name or no
      usable size, its flag says neither, or it is truncated and gives no token. */
  lemma GcsListingRefused(doc: Document, entries: seq<Entry<Listed>>)
    requires ValidDocument(doc, GCS) && |entries| == |doc.records|
    requires forall i :: 0 <= i < |entries| ==> DescribesObject(doc.records[i].items, entries[i])
    ensures var flag, token := Lookup(Outside(doc), "IsTruncated"), Lookup(Outside(doc), "NextContinuationToken");
            ParseGcs(DocumentText(doc, GCS)).Err? <==>
              || !HoldsRoot(DocumentTokens(doc, GCS))
              || (exists i :: 0 <= i < |entries| && !entries[i].Whole?)
              || !(IsWord(flag, "true") || IsWord(flag, "false"))
              || (IsWord(flag, "true") && (token.None? || token.value == ""))
  {
    hide Lookup, DocumentText, DescribesObject, ValidDocument, HoldsRoot, Outside, ParseGcs, SaysIgnoringCase, Unescape,
      IsWord, AllOk;
    GcsDocumentReads(doc, entries);
    AllWholeAreListed(entries);
    FlagIsSaid(Lookup(Outside(doc), "IsTruncated"));
  }
}
