/** URLs built by interpolation: the listing URLs of crates/talon-backend/src/azure.rs and
    gcs.rs and the HMAC object URL of gcs.rs. Prefixes, cursors, buckets and keys that the
    code percent-encodes are given as their UTF-8 bytes. */
module Urls {
  import opened Text
  import opened Percent

  // ----- queries ---------------------------------------------------------

  type Params = seq<(string, seq<byte>)>

  function RenderParam(p: (string, seq<byte>)): string {
    p.0 + "=" + Encode(p.1)
  }

  function RenderParams(ps: Params): (r: seq<string>)
    ensures |r| == |ps| && forall i :: 0 <= i < |ps| ==> r[i] == RenderParam(ps[i])
  {
    seq(|ps|, i requires 0 <= i < |ps| => RenderParam(ps[i]))
  }

  function RenderQuery(ps: Params): string {
    Join(RenderParams(ps), '&')
  }

  /** Reading a query: cut at `&`, cut each piece at its first `=`, decode the value. */
  function ParseParam(s: string): Option<(string, seq<byte>)> {
    match SplitOnce(s, '=')
    case None => None
    case Some((name, value)) =>
      match Decode(value)
      case None => None
      case Some(bytes) => Some((name, bytes))
  }

  function ParseParams(parts: seq<string>): Option<Params> {
    if parts == [] then Some([])
    else
      match ParseParam(parts[0])
      case None => None
      case Some(p) =>
        match ParseParams(parts[1..])
        case None => None
        case Some(ps) => Some([p] + ps)
  }

  predicate ValidNames(ps: Params) {
    forall i :: 0 <= i < |ps| ==> '&' !in ps[i].0 && '=' !in ps[i].0
  }

  lemma ParamRoundTrip(p: (string, seq<byte>))
    requires '=' !in p.0 && '&' !in p.0
    ensures ParseParam(RenderParam(p)) == Some(p)
    ensures '&' !in RenderParam(p)
  {
    hide SplitOnce, Decode, Encode;
    SplitOnceAt(p.0, '=', Encode(p.1));
    DecodeUndoesEncode(p.1);
    EncodedHasNoDelimiter(p.1, '&');
  }

  lemma {:induction false} ParamsRoundTrip(ps: Params)
    requires ValidNames(ps)
    ensures ParseParams(RenderParams(ps)) == Some(ps)
    ensures AllLack(RenderParams(ps), '&')
  {
    hide ParseParam, RenderParam;
    if ps == [] {
    } else {
      ParamRoundTrip(ps[0]);
      ParamsRoundTrip(ps[1..]);
      assert RenderParams(ps)[1..] == RenderParams(ps[1..]);
      HeadTail(ps, []);
    }
  }

  lemma {:induction false} JoinMore(a: seq<string>, s: string)
    requires a != []
    ensures Join(a + [s], '&') == Join(a, '&') + "&" + s
  {
    if |a| == 1 {
      assert (a + [s])[1..] == [s];
    } else {
      JoinMore(a[1..], s);
      assert (a + [s])[0] == a[0] && (a + [s])[1..] == a[1..] + [s];
      assert Join(a, '&') == a[0] + ['&'] + Join(a[1..], '&');
    }
  }

  lemma RenderMore(ps: Params, p: (string, seq<byte>))
    requires ps != []
    ensures RenderQuery(ps + [p]) == RenderQuery(ps) + "&" + RenderParam(p)
  {
    hide RenderParam;
    assert RenderParams(ps + [p]) == RenderParams(ps) + [RenderParam(p)];
    JoinMore(RenderParams(ps), RenderParam(p));
  }

  lemma {:induction false} SplitJoinMore(parts: seq<string>, rest: string)
    requires parts != [] && AllLack(parts, '&')
    ensures Split(Join(parts, '&') + "&" + rest, '&') == parts + Split(rest, '&')
  {
    if |parts| == 1 {
      SplitAppend(parts[0], '&', rest);
    } else {
      hide Split;
      var more := Join(parts[1..], '&') + "&" + rest;
      SplitJoinMore(parts[1..], rest);
      SplitAppend(parts[0], '&', more);
      assert Join(parts, '&') + "&" + rest == parts[0] + "&" + more;
      HeadTail(parts, Split(rest, '&'));
    }
  }

  /** Cutting a built URL at its first `?` and reading the query returns exactly the
      parameters put in; a shared access signature joined with `&` keeps its own pieces. */
  lemma QueryRoundTrip(base: string, ps: Params, sas: Option<string>)
    requires '?' !in base && ps != [] && ValidNames(ps)
    ensures var query := RenderQuery(ps) + SasSuffix(sas);
            && SplitOnce(base + "?" + query, '?') == Some((base, query))
            && (sas.None? ==> ParseParams(Split(query, '&')) == Some(ps))
            && (sas.Some? ==>
                  && Split(query, '&') == RenderParams(ps) + Split(TrimMarks(sas.value), '&')
                  && ParseParams(Split(query, '&')[..|ps|]) == Some(ps))
  {
    hide SplitOnce, Split, Join, RenderParam, ParseParams, TrimMarks;
    var parts := RenderParams(ps);
    ParamsRoundTrip(ps);
    SplitOnceAt(base, '?', RenderQuery(ps) + SasSuffix(sas));
    if sas.None? {
      SplitJoin(parts, '&');
      assert RenderQuery(ps) + SasSuffix(sas) == RenderQuery(ps);
    } else {
      var rest := TrimMarks(sas.value);
      SplitJoinMore(parts, rest);
      Assoc(RenderQuery(ps), "&", rest);
      assert (parts + Split(rest, '&'))[..|ps|] == parts;
    }
  }

  /** `trim_start_matches('?')`. */
  function TrimMarks(s: string): string {
    if s != "" && s[0] == '?' then TrimMarks(s[1..]) else s
  }

  function SasSuffix(sas: Option<string>): string {
    if sas.None? then "" else "&" + TrimMarks(sas.value)
  }

  /** A parameter that is present only when it has a value. */
  function With(ps: Params, name: string, value: Option<seq<byte>>): Params {
    if value.None? then ps else ps + [(name, value.value)]
  }

  function NonEmpty(value: seq<byte>): Option<seq<byte>> {
    if value == [] then None else Some(value)
  }

  /** The value of the first parameter with a name. */
  function Get(ps: Params, name: string): Option<seq<byte>> {
    if ps == [] then None
    else if ps[0].0 == name then Some(ps[0].1)
    else Get(ps[1..], name)
  }

  lemma {:induction false} GetWith(ps: Params, name: string, value: Option<seq<byte>>, key: string)
    ensures Get(With(ps, name, value), key) ==
            if Get(ps, key).Some? then Get(ps, key) else if key == name then value else None
    ensures |With(ps, name, value)| == |ps| + (if value.Some? then 1 else 0)
  {
    if value.None? {
    } else if ps == [] {
      assert [] + [(name, value.value)] == [(name, value.value)];
    } else {
      GetWith(ps[1..], name, value, key);
      assert (ps + [(name, value.value)])[0] == ps[0];
      assert (ps + [(name, value.value)])[1..] == ps[1..] + [(name, value.value)];
    }
  }

  /** Bytes as the characters they are in ASCII. */
  function Chars(bytes: seq<byte>): (s: string)
    ensures |s| == |bytes| && forall i :: 0 <= i < |bytes| ==> s[i] as int == bytes[i]
  {
    seq(|bytes|, i requires 0 <= i < |bytes| => bytes[i] as char)
  }

  lemma CharsOfAscii(s: string)
    requires Plain(s)
    ensures Chars(Ascii(s)) == s
  {
    forall i | 0 <= i < |s| ensures Chars(Ascii(s))[i] == s[i] {
      assert Chars(Ascii(s))[i] as int == s[i] as int;
    }
  }

  /** A parameter with fixed text. */
  predicate Says(value: Option<seq<byte>>, text: string) {
    value.Some? && Chars(value.value) == text
  }

  predicate IsCount(value: Option<seq<byte>>, max: nat) {
    value.Some? && ParseU64(Chars(value.value)) == if max <= 0xFFFF_FFFF_FFFF_FFFF then Some(max) else None
  }

  function One(present: bool): nat {
    if present then 1 else 0
  }

  // ----- Azure -----------------------------------------------------------

  datatype AzureConfig = AzureConfig(account: string, endpointSuffix: string, tls: bool,
                                     endpointHost: Option<string>, pathStyle: bool)
  {
    function Scheme(): string {
      if tls then "https" else "http"
    }

    function Host(): string {
      if endpointHost.Some? then endpointHost.value else account + "." + endpointSuffix
    }

    function ContainerUrl(container: string): string {
      Scheme() + "://" + Host() + "/" + (if pathStyle then account + "/" + container else container)
    }
  }

  lemma AzureWordsArePlain()
    ensures Plain("container") && Plain("list")
  {
  }

  /** What a container listing asks for. */
  ghost function AzureParams(prefix: seq<byte>, delimiter: Option<seq<byte>>, cursor: Option<seq<byte>>, max: nat)
    : Params
  {
    AzureWordsArePlain();
    NumbersArePlain(max);
    var always := [("restype", Ascii("container")), ("comp", Ascii("list")), ("maxresults", Ascii(PrintNat(max)))];
    var prefixed := With(always, "prefix", NonEmpty(prefix));
    With(With(prefixed, "delimiter", if delimiter.None? then None else NonEmpty(delimiter.value)), "marker", cursor)
  }

  /** The parameters ask for a container listing: each is present exactly when it has
      something to say, says that, and there are no others. */
  predicate AsksAzure(ps: Params, prefix: seq<byte>, delimiter: Option<seq<byte>>, cursor: Option<seq<byte>>,
                      max: nat)
  {
    && Says(Get(ps, "restype"), "container") && Says(Get(ps, "comp"), "list") && IsCount(Get(ps, "maxresults"), max)
    && Get(ps, "prefix") == (if prefix == [] then None else Some(prefix))
    && Get(ps, "delimiter") == (if delimiter == Some([]) then None else delimiter)
    && Get(ps, "marker") == cursor
    && |ps| == 3 + One(prefix != []) + One(delimiter.Some? && delimiter.value != []) + One(cursor.Some?)
  }

  lemma AzureStartAsks(max: nat)
    requires Plain("container") && Plain("list") && Plain(PrintNat(max))
    ensures var ps := [("restype", Ascii("container")), ("comp", Ascii("list")),
                       ("maxresults", Ascii(PrintNat(max)))];
            && Get(ps, "restype") == Some(Ascii("container")) && Get(ps, "comp") == Some(Ascii("list"))
            && Get(ps, "maxresults") == Some(Ascii(PrintNat(max)))
            && Get(ps, "prefix").None? && Get(ps, "delimiter").None? && Get(ps, "marker").None?
  {
    hide PrintNat, Ascii, Plain;
    AzureNamesDiffer();
    var p1, p2, p3 := ("restype", Ascii("container")), ("comp", Ascii("list")), ("maxresults", Ascii(PrintNat(max)));
    GetThree(p1, p2, p3, "restype");
    GetThree(p1, p2, p3, "comp");
    GetThree(p1, p2, p3, "maxresults");
    GetThree(p1, p2, p3, "prefix");
    GetThree(p1, p2, p3, "delimiter");
    GetThree(p1, p2, p3, "marker");
  }

  lemma GetThree(a: (string, seq<byte>), b: (string, seq<byte>), c: (string, seq<byte>), key: string)
    ensures Get([a, b, c], key) ==
            if a.0 == key then Some(a.1) else if b.0 == key then Some(b.1) else if c.0 == key then Some(c.1) else None
  {
    assert [a, b, c][1..] == [b, c] && [b, c][1..] == [c] && [c][1..] == [];
    assert Get([c], key) == if c.0 == key then Some(c.1) else None;
    assert Get([b, c], key) == if b.0 == key then Some(b.1) else Get([c], key);
  }

  lemma AzureNamesDiffer()
    ensures "restype" != "comp" && "restype" != "maxresults" && "comp" != "maxresults"
    ensures "prefix" !in ["restype", "comp", "maxresults"] && "delimiter" !in ["restype", "comp", "maxresults"]
    ensures "marker" !in ["restype", "comp", "maxresults"]
    ensures "prefix" != "delimiter" && "prefix" != "marker" && "delimiter" != "marker"
  {
    assert |"restype"| == 7 && |"comp"| == 4 && |"maxresults"| == 10 && |"prefix"| == 6 && |"delimiter"| == 9;
    assert |"marker"| == 6 && "marker"[0] == 'm' && "prefix"[0] == 'p';
  }

  lemma AzureParamsAsk(prefix: seq<byte>, delimiter: Option<seq<byte>>, cursor: Option<seq<byte>>, max: nat)
    ensures AsksAzure(AzureParams(prefix, delimiter, cursor, max), prefix, delimiter, cursor, max)
  {
    hide PrintNat, Ascii, Plain, Get, Chars, ParseU64;
    AzureWordsArePlain();
    NumbersArePlain(max);
    AzureStartAsks(max);
    AzureNamesDiffer();
    CharsOfAscii("container");
    CharsOfAscii("list");
    CharsOfAscii(PrintNat(max));
    ParsePrinted(max);
    var always := [("restype", Ascii("container")), ("comp", Ascii("list")), ("maxresults", Ascii(PrintNat(max)))];
    var given := if delimiter.None? then None else NonEmpty(delimiter.value);
    assert |always| == 3;
    ThreeMore(always, "prefix", NonEmpty(prefix), "delimiter", given, "marker", cursor, "restype");
    ThreeMore(always, "prefix", NonEmpty(prefix), "delimiter", given, "marker", cursor, "comp");
    ThreeMore(always, "prefix", NonEmpty(prefix), "delimiter", given, "marker", cursor, "maxresults");
    ThreeMore(always, "prefix", NonEmpty(prefix), "delimiter", given, "marker", cursor, "prefix");
    ThreeMore(always, "prefix", NonEmpty(prefix), "delimiter", given, "marker", cursor, "delimiter");
    ThreeMore(always, "prefix", NonEmpty(prefix), "delimiter", given, "marker", cursor, "marker");
  }

  lemma ThreeMore(ps: Params, n1: string, v1: Option<seq<byte>>, n2: string, v2: Option<seq<byte>>,
                  n3: string, v3: Option<seq<byte>>, key: string)
    requires n1 != n2 && n1 != n3 && n2 != n3
    ensures var all := With(With(With(ps, n1, v1), n2, v2), n3, v3);
            && |all| == |ps| + One(v1.Some?) + One(v2.Some?) + One(v3.Some?)
            && Get(all, key) ==
               if Get(ps, key).Some? then Get(ps, key)
               else if key == n1 then v1 else if key == n2 then v2 else if key == n3 then v3 else None
  {
    hide Get, With;
    GetWith(ps, n1, v1, key);
    GetWith(With(ps, n1, v1), n2, v2, key);
    GetWith(With(With(ps, n1, v1), n2, v2), n3, v3, key);
  }

  lemma AzureNamesAreValid(prefix: seq<byte>, delimiter: Option<seq<byte>>, cursor: Option<seq<byte>>, max: nat)
    ensures ValidNames(AzureParams(prefix, delimiter, cursor, max))
  {
    hide Plain, PrintNat;
    assert '&' !in "restype" && '=' !in "restype" && '&' !in "comp" && '=' !in "comp";
    assert '&' !in "maxresults" && '=' !in "maxresults" && '&' !in "prefix" && '=' !in "prefix";
    assert '&' !in "delimiter" && '=' !in "delimiter" && '&' !in "marker" && '=' !in "marker";
  }

  /** The listing URL, as parameters rather than text. */
  ghost function AzureUrl(config: AzureConfig, sas: Option<string>, container: string, prefix: seq<byte>,
                          delimiter: Option<seq<byte>>, cursor: Option<seq<byte>>, max: nat): string
  {
    config.ContainerUrl(container) + "?"
    + (RenderQuery(AzureParams(prefix, delimiter, cursor, max)) + SasSuffix(sas))
  }

  /** Appending one encoded parameter to the query under construction. */
  method PushParam(query: string, name: string, value: seq<byte>, ghost ps: Params) returns (r: string)
    requires ps != [] && query == RenderQuery(ps)
    ensures r == RenderQuery(ps + [(name, value)])
  {
    hide RenderQuery;
    var encoded := EncodeQueryValue(value);
    r := query + "&" + (name + "=" + encoded);
    RenderMore(ps, (name, value));
  }

  /** Appending a parameter whose value needs no escaping. */
  lemma RenderPlain(ps: Params, name: string, value: string)
    requires Plain(value)
    ensures RenderParam((name, Ascii(value))) == name + "=" + value
    ensures RenderQuery([(name, Ascii(value))]) == name + "=" + value
    ensures ps != [] ==> RenderQuery(ps + [(name, Ascii(value))]) == RenderQuery(ps) + "&" + (name + "=" + value)
  {
    hide Join, Encode;
    PlainIsEncoded(value);
    JoinOne(RenderParams([(name, Ascii(value))]));
    if ps != [] {
      RenderMore(ps, (name, Ascii(value)));
    }
  }

  lemma JoinOne(parts: seq<string>)
    requires |parts| == 1
    ensures Join(parts, '&') == parts[0]
  {
  }

  lemma AzureQueryStart(max: nat)
    requires Plain("container") && Plain("list") && Plain(PrintNat(max))
    ensures RenderQuery([("restype", Ascii("container")), ("comp", Ascii("list")),
                         ("maxresults", Ascii(PrintNat(max)))])
            == "restype=container&comp=list&maxresults=" + PrintNat(max)
  {
    hide RenderQuery, RenderParam, PrintNat, Ascii, Plain;
    var p1, p2, p3 := ("restype", Ascii("container")), ("comp", Ascii("list")), ("maxresults", Ascii(PrintNat(max)));
    RenderPlain([], "restype", "container");
    RenderPlain([p1], "comp", "list");
    RenderPlain([p1] + [p2], "maxresults", PrintNat(max));
    assert [p1] + [p2] + [p3] == [p1, p2, p3];
  }

  /** What a listing URL says when it is read: the scheme, host and container before the
      first `?`; the signature's own pieces at the end of the query; and before them the
      parameters of the listing. */
  ghost predicate ListsContainer(url: string, config: AzureConfig, sas: Option<string>, container: string,
                                 prefix: seq<byte>, delimiter: Option<seq<byte>>, cursor: Option<seq<byte>>, max: nat)
  {
    var cut := SplitOnce(url, '?');
    && cut.Some?
    && cut.value.0 == (if config.tls then "https" else "http") + "://"
                      + (if config.endpointHost.Some? then config.endpointHost.value
                         else config.account + "." + config.endpointSuffix)
                      + "/" + (if config.pathStyle then config.account + "/" + container else container)
    && var pieces, signature := Split(cut.value.1, '&'), if sas.None? then [] else Split(TrimMarks(sas.value), '&');
       && |signature| <= |pieces| && pieces[|pieces| - |signature|..] == signature
       && var own := ParseParams(pieces[..|pieces| - |signature|]);
          own.Some? && AsksAzure(own.value, prefix, delimiter, cursor, max)
  }

  /** Leading question marks are taken off, and nothing else. */
  lemma {:induction false} TrimMarksIs(s: string) returns (marks: string)
    ensures s == marks + TrimMarks(s) && forall i :: 0 <= i < |marks| ==> marks[i] == '?'
    ensures TrimMarks(s) == "" || TrimMarks(s)[0] != '?'
  {
    if s == "" || s[0] != '?' {
      marks := "";
    } else {
      var rest := TrimMarksIs(s[1..]);
      marks := "?" + rest;
      HeadTail(s, []);
      Assoc("?", rest, TrimMarks(s));
    }
  }

  /** `list_url_with_delimiter`: the query grows by appending, then meets the signature. */
  method AzureListUrl(config: AzureConfig, sas: Option<string>, container: string, prefix: seq<byte>,
                      delimiter: Option<seq<byte>>, cursor: Option<seq<byte>>, max: nat) returns (url: string)
    ensures url == AzureUrl(config, sas, container, prefix, delimiter, cursor, max)
    ensures '?' !in config.ContainerUrl(container) ==>
              ListsContainer(url, config, sas, container, prefix, delimiter, cursor, max)
  {
    hide RenderQuery, PrintNat, Ascii, Plain, TrimMarks, ListsContainer;
    if '?' !in config.ContainerUrl(container) {
      AzureListUrlRoundTrip(config, sas, container, prefix, delimiter, cursor, max);
    }
    AzureWordsArePlain();
    NumbersArePlain(max);
    AzureQueryStart(max);
    ghost var ps: Params :=
      [("restype", Ascii("container")), ("comp", Ascii("list")), ("maxresults", Ascii(PrintNat(max)))];
    var query := "restype=container&comp=list&maxresults=" + PrintNat(max);
    if prefix != [] {
      query := PushParam(query, "prefix", prefix, ps);
    }
    ps := With(ps, "prefix", NonEmpty(prefix));
    if delimiter.Some? && delimiter.value != [] {
      query := PushParam(query, "delimiter", delimiter.value, ps);
    }
    ps := With(ps, "delimiter", if delimiter.None? then None else NonEmpty(delimiter.value));
    if cursor.Some? {
      query := PushParam(query, "marker", cursor.value, ps);
    }
    if sas.Some? {
      query := query + ("&" + TrimMarks(sas.value));
    }
    url := config.ContainerUrl(container) + "?" + query;
  }

  // ----- Google Cloud Storage --------------------------------------------

  datatype GcsConfig = GcsConfig(endpoint: string, tls: bool) {
    function Root(): string {
      (if tls then "https" else "http") + "://" + endpoint + "/"
    }

    function ListBase(hmac: bool, bucket: seq<byte>): string {
      if hmac then Root() + Encode(bucket) else Root() + "storage/v1/b/" + Encode(bucket) + "/o"
    }
  }

  lemma GcsWordsArePlain()
    ensures Plain("2")
  {
  }

  ghost function GcsParams(hmac: bool, prefix: seq<byte>, cursor: Option<seq<byte>>, max: nat): Params {
    GcsWordsArePlain();
    NumbersArePlain(max);
    var always := if hmac then [("list-type", Ascii("2")), ("max-keys", Ascii(PrintNat(max)))]
                  else [("maxResults", Ascii(PrintNat(max)))];
    With(With(always, "prefix", NonEmpty(prefix)), if hmac then "continuation-token" else "pageToken", cursor)
  }

  lemma GcsNamesAreValid(hmac: bool, prefix: seq<byte>, cursor: Option<seq<byte>>, max: nat)
    ensures ValidNames(GcsParams(hmac, prefix, cursor, max))
  {
    hide Plain, PrintNat;
    GcsStartNames();
    GcsCursorNames();
  }

  lemma GcsStartNames()
    ensures '&' !in "list-type" && '=' !in "list-type" && '&' !in "max-keys" && '=' !in "max-keys"
    ensures '&' !in "maxResults" && '=' !in "maxResults" && '&' !in "prefix" && '=' !in "prefix"
  {
  }

  lemma GcsCursorNames()
    ensures '&' !in "continuation-token" && '=' !in "continuation-token"
    ensures '&' !in "pageToken" && '=' !in "pageToken"
  {
  }

  lemma GcsQueryStart(max: nat)
    requires Plain("2") && Plain(PrintNat(max))
    ensures RenderQuery([("list-type", Ascii("2")), ("max-keys", Ascii(PrintNat(max)))])
            == "list-type=2&max-keys=" + PrintNat(max)
    ensures RenderQuery([("maxResults", Ascii(PrintNat(max)))]) == "maxResults=" + PrintNat(max)
  {
    hide RenderQuery, RenderParam, PrintNat, Ascii, Plain;
    var p1, p2 := ("list-type", Ascii("2")), ("max-keys", Ascii(PrintNat(max)));
    RenderPlain([], "list-type", "2");
    RenderPlain([p1], "max-keys", PrintNat(max));
    RenderPlain([], "maxResults", PrintNat(max));
    assert [p1] + [p2] == [p1, p2];
  }

  /** The parameters ask for a bucket listing in the dialect of the key kind: each is present
      exactly when it has something to say, says that, and there are no others. */
  predicate AsksGcs(ps: Params, hmac: bool, prefix: seq<byte>, cursor: Option<seq<byte>>, max: nat) {
    && (if hmac then Says(Get(ps, "list-type"), "2") && IsCount(Get(ps, "max-keys"), max)
        else IsCount(Get(ps, "maxResults"), max))
    && Get(ps, "prefix") == (if prefix == [] then None else Some(prefix))
    && (if hmac then Get(ps, "continuation-token") == cursor else Get(ps, "pageToken") == cursor)
    && |ps| == (if hmac then 2 else 1) + One(prefix != []) + One(cursor.Some?)
  }

  lemma GcsNamesDiffer()
    ensures "list-type" != "max-keys" && "prefix" !in ["list-type", "max-keys", "maxResults"]
    ensures "continuation-token" !in ["list-type", "max-keys", "prefix"]
    ensures "pageToken" !in ["maxResults", "prefix"]
  {
    assert |"list-type"| == 9 && |"max-keys"| == 8 && |"maxResults"| == 10 && |"prefix"| == 6;
    assert |"continuation-token"| == 18 && |"pageToken"| == 9;
  }

  lemma TwoMore(ps: Params, n1: string, v1: Option<seq<byte>>, n2: string, v2: Option<seq<byte>>, key: string)
    requires n1 != n2
    ensures var all := With(With(ps, n1, v1), n2, v2);
            && |all| == |ps| + One(v1.Some?) + One(v2.Some?)
            && Get(all, key) ==
               if Get(ps, key).Some? then Get(ps, key) else if key == n1 then v1 else if key == n2 then v2 else None
  {
    hide Get, With;
    GetWith(ps, n1, v1, key);
    GetWith(With(ps, n1, v1), n2, v2, key);
  }

  lemma GetTwo(a: (string, seq<byte>), b: (string, seq<byte>), key: string)
    ensures Get([a, b], key) == if a.0 == key then Some(a.1) else if b.0 == key then Some(b.1) else None
    ensures Get([a], key) == if a.0 == key then Some(a.1) else None
  {
    assert [a, b][1..] == [b] && [b][1..] == [] && [a][1..] == [];
    assert Get([b], key) == if b.0 == key then Some(b.1) else None;
  }

  lemma HmacParamsAsk(prefix: seq<byte>, cursor: Option<seq<byte>>, max: nat)
    ensures AsksGcs(GcsParams(true, prefix, cursor, max), true, prefix, cursor, max)
  {
    hide PrintNat, Ascii, Plain, Get, Chars, ParseU64;
    GcsWordsArePlain();
    NumbersArePlain(max);
    GcsNamesDiffer();
    CharsOfAscii("2");
    CharsOfAscii(PrintNat(max));
    ParsePrinted(max);
    var a, b := ("list-type", Ascii("2")), ("max-keys", Ascii(PrintNat(max)));
    assert |[a, b]| == 2;
    GetTwo(a, b, "list-type");
    GetTwo(a, b, "max-keys");
    GetTwo(a, b, "prefix");
    GetTwo(a, b, "continuation-token");
    TwoMore([a, b], "prefix", NonEmpty(prefix), "continuation-token", cursor, "list-type");
    TwoMore([a, b], "prefix", NonEmpty(prefix), "continuation-token", cursor, "max-keys");
    TwoMore([a, b], "prefix", NonEmpty(prefix), "continuation-token", cursor, "prefix");
    TwoMore([a, b], "prefix", NonEmpty(prefix), "continuation-token", cursor, "continuation-token");
  }

  lemma BearerParamsAsk(prefix: seq<byte>, cursor: Option<seq<byte>>, max: nat)
    ensures AsksGcs(GcsParams(false, prefix, cursor, max), false, prefix, cursor, max)
  {
    hide PrintNat, Ascii, Plain, Get, Chars, ParseU64;
    NumbersArePlain(max);
    GcsNamesDiffer();
    CharsOfAscii(PrintNat(max));
    ParsePrinted(max);
    var a := ("maxResults", Ascii(PrintNat(max)));
    assert |[a]| == 1;
    GetTwo(a, a, "maxResults");
    GetTwo(a, a, "prefix");
    GetTwo(a, a, "pageToken");
    TwoMore([a], "prefix", NonEmpty(prefix), "pageToken", cursor, "maxResults");
    TwoMore([a], "prefix", NonEmpty(prefix), "pageToken", cursor, "prefix");
    TwoMore([a], "prefix", NonEmpty(prefix), "pageToken", cursor, "pageToken");
  }

  /** What a listing URL says when it is read: where the bucket is, and what is asked. */
  ghost predicate ListsBucket(url: string, config: GcsConfig, hmac: bool, bucket: seq<byte>, prefix: seq<byte>,
                              cursor: Option<seq<byte>>, max: nat)
  {
    var cut := SplitOnce(url, '?');
    && cut.Some?
    && cut.value.0 == (if config.tls then "https" else "http") + "://" + config.endpoint + "/"
                      + (if hmac then Encode(bucket) else "storage/v1/b/" + Encode(bucket) + "/o")
    && var own := ParseParams(Split(cut.value.1, '&'));
       own.Some? && AsksGcs(own.value, hmac, prefix, cursor, max)
  }

  /** `GcsBackend::list_url`, for HMAC keys and for bearer tokens. */
  method GcsListUrl(config: GcsConfig, hmac: bool, bucket: seq<byte>, prefix: seq<byte>,
                    cursor: Option<seq<byte>>, max: nat) returns (url: string)
    ensures url == config.ListBase(hmac, bucket) + "?" + RenderQuery(GcsParams(hmac, prefix, cursor, max))
    ensures '?' !in config.endpoint ==> ListsBucket(url, config, hmac, bucket, prefix, cursor, max)
  {
    hide RenderQuery, PrintNat, Ascii, Plain, Encode, ListsBucket;
    if '?' !in config.endpoint {
      GcsListUrlRoundTrip(config, hmac, bucket, prefix, cursor, max);
    }
    GcsWordsArePlain();
    NumbersArePlain(max);
    GcsQueryStart(max);
    ghost var ps: Params;
    var query;
    if hmac {
      query := "list-type=2&max-keys=" + PrintNat(max);
      ps := [("list-type", Ascii("2")), ("max-keys", Ascii(PrintNat(max)))];
    } else {
      query := "maxResults=" + PrintNat(max);
      ps := [("maxResults", Ascii(PrintNat(max)))];
    }
    if prefix != [] {
      query := PushParam(query, "prefix", prefix, ps);
    }
    ps := With(ps, "prefix", NonEmpty(prefix));
    var name := if hmac then "continuation-token" else "pageToken";
    if cursor.Some? {
      query := PushParam(query, name, cursor.value, ps);
    }
    url := config.ListBase(hmac, bucket) + "?" + query;
  }

  /** The query of a listing URL reads back as the parameters of the request, whatever
      bytes the bucket, prefix and cursor hold. */
  lemma GcsListUrlRoundTrip(config: GcsConfig, hmac: bool, bucket: seq<byte>, prefix: seq<byte>,
                            cursor: Option<seq<byte>>, max: nat)
    requires '?' !in config.endpoint
    ensures var base, ps := config.ListBase(hmac, bucket), GcsParams(hmac, prefix, cursor, max);
            && SplitOnce(base + "?" + RenderQuery(ps), '?') == Some((base, RenderQuery(ps)))
            && ParseParams(Split(RenderQuery(ps), '&')) == Some(ps)
            && ListsBucket(base + "?" + RenderQuery(ps), config, hmac, bucket, prefix, cursor, max)
  {
    hide SplitOnce, Split, RenderQuery, ParseParams, Encode, Plain, PrintNat, AsksGcs, GcsParams;
    GcsNamesAreValid(hmac, prefix, cursor, max);
    EncodedHasNoDelimiter(bucket, '?');
    NoMarkInRoot(config);
    var ps := GcsParams(hmac, prefix, cursor, max);
    assert RenderQuery(ps) + SasSuffix(None) == RenderQuery(ps);
    assert ps != [] by { GcsParamsExist(hmac, prefix, cursor, max); }
    QueryRoundTrip(config.ListBase(hmac, bucket), ps, None);
    if hmac {
      HmacParamsAsk(prefix, cursor, max);
    } else {
      BearerParamsAsk(prefix, cursor, max);
    }
    ListBaseIs(config, hmac, bucket);
  }

  lemma GcsParamsExist(hmac: bool, prefix: seq<byte>, cursor: Option<seq<byte>>, max: nat)
    ensures GcsParams(hmac, prefix, cursor, max) != []
  {
    hide Plain, PrintNat, Ascii;
  }

  lemma ListBaseIs(config: GcsConfig, hmac: bool, bucket: seq<byte>)
    ensures config.ListBase(hmac, bucket) ==
            (if config.tls then "https" else "http") + "://" + config.endpoint + "/"
            + (if hmac then Encode(bucket) else "storage/v1/b/" + Encode(bucket) + "/o")
  {
    hide Encode;
    if !hmac {
      Assoc(config.Root(), "storage/v1/b/", Encode(bucket));
      Assoc(config.Root(), "storage/v1/b/" + Encode(bucket), "/o");
    }
  }

  lemma NoMarkInRoot(config: GcsConfig)
    requires '?' !in config.endpoint
    ensures '?' !in config.Root() && '?' !in "storage/v1/b/" && '?' !in "/o"
  {
  }

  /** The same for the container listing, with or without a signature. */
  lemma AzureListUrlRoundTrip(config: AzureConfig, sas: Option<string>, container: string, prefix: seq<byte>,
                              delimiter: Option<seq<byte>>, cursor: Option<seq<byte>>, max: nat)
    requires '?' !in config.ContainerUrl(container)
    ensures var ps := AzureParams(prefix, delimiter, cursor, max);
            var cut := SplitOnce(AzureUrl(config, sas, container, prefix, delimiter, cursor, max), '?');
            && cut.Some? && cut.value.0 == config.ContainerUrl(container)
            && (sas.None? ==> ParseParams(Split(cut.value.1, '&')) == Some(ps))
            && (sas.Some? ==>
                  && Split(cut.value.1, '&') == RenderParams(ps) + Split(TrimMarks(sas.value), '&')
                  && ParseParams(Split(cut.value.1, '&')[..|ps|]) == Some(ps))
            && ListsContainer(AzureUrl(config, sas, container, prefix, delimiter, cursor, max),
                              config, sas, container, prefix, delimiter, cursor, max)
  {
    hide SplitOnce, Split, RenderQuery, ParseParams, TrimMarks, Plain, PrintNat, AsksAzure, AzureParams;
    AzureNamesAreValid(prefix, delimiter, cursor, max);
    AzureParamsAsk(prefix, delimiter, cursor, max);
    var ps := AzureParams(prefix, delimiter, cursor, max);
    assert ps != [] by { AzureParamsExist(prefix, delimiter, cursor, max); }
    QueryRoundTrip(config.ContainerUrl(container), ps, sas);
    var query := RenderQuery(ps) + SasSuffix(sas);
    var pieces := Split(query, '&');
    if sas.None? {
      assert pieces[..|pieces|] == pieces;
    } else {
      PiecesSplit(RenderParams(ps), Split(TrimMarks(sas.value), '&'));
    }
  }

  lemma AzureParamsExist(prefix: seq<byte>, delimiter: Option<seq<byte>>, cursor: Option<seq<byte>>, max: nat)
    ensures AzureParams(prefix, delimiter, cursor, max) != []
  {
    hide Plain, PrintNat, Ascii;
  }

  lemma PiecesSplit(a: seq<string>, b: seq<string>)
    ensures |(a + b)| - |b| == |a| && (a + b)[|a|..] == b && (a + b)[..|a|] == a
  {
  }

  // ----- object paths signed with HMAC keys ------------------------------

  const SLASH: byte := '/' as int

  /** `trim_start_matches('/')`. */
  function TrimSlashes(key: seq<byte>): seq<byte> {
    if key != [] && key[0] == SLASH then TrimSlashes(key[1..]) else key
  }

  function EncodeEach(parts: seq<seq<byte>>): (r: seq<string>)
    ensures |r| == |parts|
    ensures forall i :: 0 <= i < |parts| ==> r[i] == Encode(parts[i])
  {
    seq(|parts|, i requires 0 <= i < |parts| => Encode(parts[i]))
  }

  /** The path that `object_url` builds in its HMAC branch, after `scheme://endpoint/`. */
  function HmacPath(bucket: seq<byte>, key: seq<byte>): string {
    Encode(bucket) + "/" + Join(EncodeEach(Split(TrimSlashes(key), SLASH)), '/')
  }

  function DecodeEach(parts: seq<string>): Option<seq<seq<byte>>> {
    if parts == [] then Some([])
    else
      match Decode(parts[0])
      case None => None
      case Some(bytes) =>
        match DecodeEach(parts[1..])
        case None => None
        case Some(more) => Some([bytes] + more)
  }

  lemma {:induction false} DecodeEachUndoes(parts: seq<seq<byte>>)
    ensures DecodeEach(EncodeEach(parts)) == Some(parts)
  {
    hide Decode, Encode;
    if parts == [] {
    } else {
      DecodeUndoesEncode(parts[0]);
      DecodeEachUndoes(parts[1..]);
      assert EncodeEach(parts)[1..] == EncodeEach(parts[1..]);
      HeadTail(parts, []);
    }
  }

  lemma {:induction false} JoinLacks(parts: seq<string>, sep: char, c: char)
    requires AllLack(parts, c) && sep != c
    ensures c !in Join(parts, sep)
  {
    if |parts| <= 1 {
    } else {
      JoinLacks(parts[1..], sep, c);
    }
  }

  /** Cutting the path at its slashes and decoding each piece returns the bucket and the
      components of the key; the key's own `%`, `?` and `#` bytes never act as syntax. */
  lemma HmacPathRoundTrip(bucket: seq<byte>, key: seq<byte>)
    ensures var path, parts := HmacPath(bucket, key), Split(TrimSlashes(key), SLASH);
            && '?' !in path && '#' !in path
            && DecodeEach(Split(path, '/')) == Some([bucket] + parts)
            && Join(parts, SLASH) == TrimSlashes(key)
  {
    hide Split, Join, Encode, DecodeEach, TrimSlashes;
    var parts := Split(TrimSlashes(key), SLASH);
    var all := EncodeEach([bucket] + parts);
    JoinSplit(TrimSlashes(key), SLASH);
    assert all == [Encode(bucket)] + EncodeEach(parts);
    JoinCons(Encode(bucket), EncodeEach(parts));
    EncodedLacks([bucket] + parts, '/');
    EncodedLacks([bucket] + parts, '?');
    EncodedLacks([bucket] + parts, '#');
    SplitJoin(all, '/');
    JoinLacks(all, '/', '?');
    JoinLacks(all, '/', '#');
    DecodeEachUndoes([bucket] + parts);
  }

  lemma JoinCons(s: string, parts: seq<string>)
    requires parts != []
    ensures Join([s] + parts, '/') == s + "/" + Join(parts, '/')
  {
    assert ([s] + parts)[1..] == parts;
  }

  lemma EncodedLacks(parts: seq<seq<byte>>, c: char)
    requires Delimiter(c)
    ensures AllLack(EncodeEach(parts), c)
  {
    hide Encode;
    forall i | 0 <= i < |parts|
      ensures c !in EncodeEach(parts)[i]
    {
      EncodedHasNoDelimiter(parts[i], c);
    }
  }

  /** Leading slashes are taken off, and nothing else. */
  lemma {:induction false} TrimSlashesIs(key: seq<byte>) returns (slashes: seq<byte>)
    ensures key == slashes + TrimSlashes(key) && forall i :: 0 <= i < |slashes| ==> slashes[i] == 47
    ensures TrimSlashes(key) == [] || TrimSlashes(key)[0] != 47
  {
    if key == [] || key[0] != SLASH {
      slashes := [];
    } else {
      var rest := TrimSlashesIs(key[1..]);
      slashes := [SLASH] + rest;
      HeadTail(key, []);
      Assoc([SLASH], rest, TrimSlashes(key));
    }
  }
}
