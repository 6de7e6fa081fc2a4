/** The key and bucket checks of crates/talon-backend/src/routing.rs, against what a URL
    parser makes of the raw path that azure.rs and gcs.rs interpolate them into. */
module ObjectKeys {
  import opened Text

  // ----- validation, as the code does it ---------------------------------

  predicate BucketChar(c: char) {
    'a' <= c <= 'z' || 'A' <= c <= 'Z' || '0' <= c <= '9' || c in ".-_"
  }

  /** `validate_bucket_name`. */
  predicate ValidBucket(name: string) {
    name != "" && name != "." && name != ".." && forall i :: 0 <= i < |name| ==> BucketChar(name[i])
  }

  /** `char::is_control`: the Unicode category Cc. */
  predicate IsControl(c: char) {
    c <= '\U{1F}' || '\U{7F}' <= c <= '\U{9F}'
  }

  predicate DotOrEmpty(component: string) {
    component == "" || component == "." || component == ".."
  }

  predicate UrlSyntax(c: char) {
    c == '%' || c == '?' || c == '#' || c == '\\'
  }

  /** `validate_object_key`. */
  predicate ValidKey(key: string) {
    && (forall i :: 0 <= i < |Split(key, '/')| ==> !DotOrEmpty(Split(key, '/')[i]))
    && (key != "" ==> key[|key| - 1] != ' ')
    && (forall i :: 0 <= i < |key| ==> !IsControl(key[i]) && !UrlSyntax(key[i]))
  }

  function TrimSlashes(key: string): string {
    if key != "" && key[0] == '/' then TrimSlashes(key[1..]) else key
  }

  /** The path part of a blob or object URL: the raw bucket and key, an account in front
      of them when addressing is path-style. */
  function RawPath(account: Option<string>, bucket: string, key: string): string {
    (if account.Some? then "/" + account.value else "") + "/" + bucket + "/" + TrimSlashes(key)
  }

  // ----- what a URL parser does with a raw path --------------------------

  /** Trailing spaces and C0 controls are dropped from the whole URL. */
  function DropTrailing(s: string): string {
    if s != "" && s[|s| - 1] <= ' ' then DropTrailing(s[..|s| - 1]) else s
  }

  /** Tabs and newlines are dropped; `?` and `#` end the path; a backslash is a slash. */
  function ReadPath(s: string): string {
    if s == "" || s[0] == '?' || s[0] == '#' then ""
    else if s[0] == '\t' || s[0] == '\n' || s[0] == '\r' then ReadPath(s[1..])
    else [if s[0] == '\\' then '/' else s[0]] + ReadPath(s[1..])
  }

  /** `%2e` spells a dot. */
  function ReadDots(s: string): string
    decreases |s|
  {
    if s == "" then ""
    else if "%2e" <= s || "%2E" <= s then ['.'] + ReadDots(s[3..])
    else [s[0]] + ReadDots(s[1..])
  }

  /** The length of the first path segment, with its leading slash if any. */
  function SegmentLength(s: string): (n: nat)
    requires s != ""
    ensures 1 <= n <= |s|
  {
    if |s| == 1 || s[1] == '/' then 1 else 1 + SegmentLength(s[1..])
  }

  function DropLastSegment(output: string): string {
    if output == "" then ""
    else if output[|output| - 1] == '/' then output[..|output| - 1]
    else DropLastSegment(output[..|output| - 1])
  }

  /** `remove_dot_segments` of RFC 3986, section 5.2.4, with its two buffers. */
  function RemoveDots(input: string, output: string): string
    decreases |input|
  {
    if input == "" then output
    else if "../" <= input then RemoveDots(input[3..], output)
    else if "./" <= input then RemoveDots(input[2..], output)
    else if "/./" <= input then RemoveDots(input[2..], output)
    else if input == "/." then RemoveDots("/", output)
    else if "/../" <= input then RemoveDots(input[3..], DropLastSegment(output))
    else if input == "/.." then RemoveDots("/", DropLastSegment(output))
    else if input == "." || input == ".." then output
    else RemoveDots(input[SegmentLength(input)..], output + input[..SegmentLength(input)])
  }

  function Normalize(raw: string): string {
    RemoveDots(ReadDots(ReadPath(DropTrailing(raw))), "")
  }

  // ----- accepted keys are read as they are written ----------------------

  predicate PlainChars(s: string) {
    forall i :: 0 <= i < |s| ==> !IsControl(s[i]) && !UrlSyntax(s[i])
  }

  lemma {:induction false} ReadPathKeeps(s: string)
    requires PlainChars(s)
    ensures ReadPath(s) == s
  {
    if s == "" {
    } else {
      ReadPathKeeps(s[1..]);
      HeadTail(s, "");
    }
  }

  lemma {:induction false} ReadDotsKeeps(s: string)
    requires PlainChars(s)
    ensures ReadDots(s) == s
  {
    if s == "" {
    } else {
      assert s[0] != '%';
      ReadDotsKeeps(s[1..]);
      HeadTail(s, "");
    }
  }

  /** A path component that survives: no slash, and neither empty nor dots. */
  predicate Solid(part: string) {
    '/' !in part && !DotOrEmpty(part)
  }

  predicate AllSolid(parts: seq<string>) {
    forall i :: 0 <= i < |parts| ==> Solid(parts[i])
  }

  function PathOf(parts: seq<string>): string {
    if parts == [] then "" else "/" + parts[0] + PathOf(parts[1..])
  }

  lemma {:induction false} SegmentLengthIs(part: string, rest: string, c: char)
    requires '/' !in part && (rest == "" || rest[0] == '/')
    ensures SegmentLength([c] + part + rest) == 1 + |part|
    decreases |part|
  {
    var s := [c] + part + rest;
    if part == "" {
    } else {
      SegmentLengthIs(part[1..], rest, part[0]);
      assert s[1..] == [part[0]] + part[1..] + rest;
      assert s[1] == part[0];
    }
  }

  /** None of the dot-segment rules applies to a solid first segment. */
  lemma NoDotRule(part: string, rest: string)
    requires Solid(part) && (rest == "" || rest[0] == '/')
    ensures var input := "/" + part + rest;
            && !("../" <= input) && !("./" <= input) && !("/./" <= input) && !("/../" <= input)
            && input != "/." && input != "/.." && input != "." && input != ".."
  {
    var input := "/" + part + rest;
    assert input[0] == '/' && input[1] == part[0];
    assert forall i :: 0 <= i < |part| ==> input[1 + i] == part[i];
    assert forall i :: 0 <= i < |part| ==> part[i] != '/';
    assert rest != "" ==> input[1 + |part|] == '/';
    if |part| == 1 {
      assert part != "." && part == [part[0]];
    } else if |part| == 2 {
      assert part != ".." && part == [part[0], part[1]];
    } else {
      assert input[2] == part[1] != '/' && input[3] == part[2] != '/';
    }
  }

  /** Solid segments move to the output unchanged. */
  lemma {:induction false} RemoveDotsMoves(parts: seq<string>, rest: string, output: string)
    requires AllSolid(parts) && (rest == "" || rest[0] == '/')
    ensures RemoveDots(PathOf(parts) + rest, output) == RemoveDots(rest, output + PathOf(parts))
    decreases |parts|
  {
    hide SegmentLength, Solid, RemoveDots;
    if parts == [] {
      assert PathOf(parts) + rest == rest && output + PathOf(parts) == output;
    } else {
      var part, tail := parts[0], PathOf(parts[1..]);
      assert Solid(part);
      assert tail + rest == "" || (tail + rest)[0] == '/';
      NoDotRule(part, tail + rest);
      SolidHasNoSlash(part);
      SegmentLengthIs(part, tail + rest, '/');
      TakesSegment("/" + part, tail + rest, output);
      RemoveDotsMoves(parts[1..], rest, output + ("/" + part));
      Assoc(output, "/" + part, tail);
      Assoc("/" + part, tail, rest);
    }
  }

  lemma RemoveDotsKeeps(parts: seq<string>, output: string)
    requires AllSolid(parts)
    ensures RemoveDots(PathOf(parts), output) == output + PathOf(parts)
  {
    RemoveDotsMoves(parts, "", output);
    assert PathOf(parts) + "" == PathOf(parts);
  }

  lemma SolidHasNoSlash(part: string)
    requires Solid(part)
    ensures '/' !in part
  {
  }

  lemma TakesSegment(segment: string, rest: string, output: string)
    requires segment != ""
    requires var input := segment + rest;
             && SegmentLength(input) == |segment|
             && !("../" <= input) && !("./" <= input) && !("/./" <= input) && !("/../" <= input)
             && input != "/." && input != "/.." && input != "." && input != ".."
    ensures RemoveDots(segment + rest, output) == RemoveDots(rest, output + segment)
  {
    hide SegmentLength;
    var input := segment + rest;
    assert input[|segment|..] == rest && input[..|segment|] == segment;
  }

  lemma {:induction false} PathOfSplit(parts: seq<string>)
    requires parts != []
    ensures PathOf(parts) == "/" + Join(parts, '/')
  {
    if |parts| <= 1 {
    } else {
      PathOfSplit(parts[1..]);
    }
  }

  function Components(account: Option<string>, bucket: string, key: string): seq<string> {
    (if account.Some? then [account.value] else []) + ([bucket] + Split(key, '/'))
  }

  lemma BucketIsSolid(name: string)
    requires ValidBucket(name)
    ensures Solid(name) && PlainChars(name)
  {
  }

  lemma KeyIsSolid(key: string)
    requires ValidKey(key)
    ensures AllSolid(Split(key, '/')) && PlainChars(key)
    ensures key != "" && key[0] != '/' && TrimSlashes(key) == key
    ensures Join(Split(key, '/'), '/') == key
  {
    JoinSplit(key, '/');
    assert !DotOrEmpty(Split(key, '/')[0]);
  }

  lemma PlainConcat(a: string, b: string)
    requires PlainChars(a) && PlainChars(b)
    ensures PlainChars(a + b)
  {
  }

  /** The raw path of an accepted bucket and key is exactly their components. */
  lemma RawPathIsComponents(account: Option<string>, bucket: string, key: string)
    requires (account.Some? ==> ValidBucket(account.value)) && ValidBucket(bucket) && ValidKey(key)
    ensures AllSolid(Components(account, bucket, key))
    ensures RawPath(account, bucket, key) == PathOf(Components(account, bucket, key))
    ensures PlainChars(RawPath(account, bucket, key))
  {
    hide ValidKey, ValidBucket, Split, Join, PlainChars, TrimSlashes, Solid;
    var parts := Split(key, '/');
    KeyIsSolid(key);
    BucketIsSolid(bucket);
    PathOfSplit(parts);
    var tail := [bucket] + parts;
    assert tail[1..] == parts;
    assert PathOf(tail) == "/" + bucket + "/" + key;
    SlashIsPlain();
    PlainConcat("/", bucket);
    PlainConcat("/" + bucket, "/");
    PlainConcat("/" + bucket + "/", key);
    if account.Some? {
      BucketIsSolid(account.value);
      PlainConcat("/", account.value);
      PlainConcat("/" + account.value, "/" + bucket + "/" + key);
      assert ([account.value] + tail)[1..] == tail;
    } else {
      assert [] + tail == tail;
    }
  }

  lemma SlashIsPlain()
    ensures PlainChars("/")
  {
  }

  /** Cutting at `?` and `#`, reading backslashes as slashes and removing dot segments
      leaves the path of an accepted bucket and key as it is, component for component. */
  lemma AcceptedPathIsStable(account: Option<string>, bucket: string, key: string)
    requires (account.Some? ==> ValidBucket(account.value)) && ValidBucket(bucket) && ValidKey(key)
    ensures Normalize(RawPath(account, bucket, key)) == RawPath(account, bucket, key)
    ensures Split(Normalize(RawPath(account, bucket, key)), '/') == [""] + Components(account, bucket, key)
  {
    hide ReadPath, ReadDots, RemoveDots, RawPath, Components, ValidBucket, PlainChars, Solid, PathOf, Split, Join;
    var raw, parts := RawPath(account, bucket, key), Components(account, bucket, key);
    RawPathIsComponents(account, bucket, key);
    KeepsTrailing(account, bucket, key);
    ReadPathKeeps(raw);
    ReadDotsKeeps(raw);
    RemoveDotsKeeps(parts, "");
    assert "" + PathOf(parts) == PathOf(parts);
    ComponentsNonEmpty(account, bucket, key);
    SplitPath(parts);
  }

  lemma ComponentsNonEmpty(account: Option<string>, bucket: string, key: string)
    ensures Components(account, bucket, key) != []
  {
  }

  lemma SplitPath(parts: seq<string>)
    requires parts != [] && AllSolid(parts)
    ensures Split(PathOf(parts), '/') == [""] + parts
  {
    hide Split, Join;
    PathOfSplit(parts);
    assert AllLack(parts, '/') by {
      forall i | 0 <= i < |parts|
        ensures '/' !in parts[i]
      {
        assert Solid(parts[i]);
      }
    }
    SplitJoin(parts, '/');
    SplitAppend("", '/', Join(parts, '/'));
    assert "" + ['/'] + Join(parts, '/') == "/" + Join(parts, '/');
  }

  lemma KeepsTrailing(account: Option<string>, bucket: string, key: string)
    requires ValidKey(key)
    ensures DropTrailing(RawPath(account, bucket, key)) == RawPath(account, bucket, key)
  {
    KeyIsSolid(key);
    var raw := RawPath(account, bucket, key);
    assert raw[|raw| - 1] == key[|key| - 1];
    assert !IsControl(key[|key| - 1]) && key[|key| - 1] != ' ';
  }

  /** Two accepted targets under one addressing style never name the same path. */
  lemma AcceptedPathsAreDistinct(account: Option<string>, bucket: string, key: string, bucket': string, key': string)
    requires account.Some? ==> ValidBucket(account.value)
    requires ValidBucket(bucket) && ValidKey(key) && ValidBucket(bucket') && ValidKey(key')
    requires Normalize(RawPath(account, bucket, key)) == Normalize(RawPath(account, bucket', key'))
    ensures bucket == bucket' && key == key'
  {
    hide Normalize, RawPath, Split, Join, ValidBucket, ValidKey;
    AcceptedPathIsStable(account, bucket, key);
    AcceptedPathIsStable(account, bucket', key');
    var a, b := Components(account, bucket, key), Components(account, bucket', key');
    assert a == ([""] + a)[1..] == ([""] + b)[1..] == b;
    var n := if account.Some? then 1 else 0;
    assert a[n] == bucket && b[n] == bucket';
    assert a[n + 1..] == Split(key, '/') && b[n + 1..] == Split(key', '/');
    KeyIsSolid(key);
    KeyIsSolid(key');
  }

  /** Why the check refuses what it refuses: the path of a key followed by a query, a
      fragment or a space is read as the path of the key alone. */
  lemma RefusedSuffixesAlias(account: Option<string>, bucket: string, key: string, suffix: string)
    requires (account.Some? ==> ValidBucket(account.value)) && ValidBucket(bucket) && ValidKey(key)
    requires suffix == " " || (suffix != "" && suffix[0] in "?#" && suffix[|suffix| - 1] > ' ')
    ensures Normalize(RawPath(account, bucket, key) + suffix) == Normalize(RawPath(account, bucket, key))
  {
    hide RemoveDots, ReadDots, RawPath, PlainChars, ValidKey, ValidBucket;
    var raw := RawPath(account, bucket, key);
    RawPathIsComponents(account, bucket, key);
    KeepsTrailing(account, bucket, key);
    if suffix == " " {
      assert (raw + suffix)[|raw|] == ' ' && (raw + suffix)[..|raw|] == raw;
    } else {
      assert (raw + suffix)[|raw + suffix| - 1] == suffix[|suffix| - 1];
      ReadPathKeeps(raw);
      ReadPathStops(raw, suffix);
    }
  }

  lemma {:induction false} ReadPathStops(s: string, suffix: string)
    requires PlainChars(s) && suffix != "" && suffix[0] in "?#"
    ensures ReadPath(s + suffix) == s
  {
    if s == "" {
      assert s + suffix == suffix;
    } else {
      ReadPathStops(s[1..], suffix);
      HeadTail(s, suffix);
      assert (s + suffix)[1..] == s[1..] + suffix;
    }
  }

  /** Likewise a parent segment is read as the key without the segment before it. */
  lemma ParentSegmentAliases(account: Option<string>, bucket: string, part: string, key: string)
    requires (account.Some? ==> ValidBucket(account.value)) && ValidBucket(bucket) && ValidKey(key)
    requires ValidKey(part) && '/' !in part
    ensures RemoveDots(RawPath(account, bucket, part) + "/../" + key, "") == RawPath(account, bucket, key)
  {
    hide RemoveDots, PathOf, ValidKey, ValidBucket, Split, Solid, TrimSlashes;
    var front := (if account.Some? then [account.value] else []) + [bucket];
    var parts := Split(key, '/');
    KeyIsSolid(key);
    KeyIsSolid(part);
    SplitNone(part, '/');
    RawPathIsComponents(account, bucket, part);
    RawPathIsComponents(account, bucket, key);
    assert Components(account, bucket, part) == front + [part];
    assert Components(account, bucket, key) == front + parts;
    PathOfSplit(parts);
    AllSolidParts(front, part, parts);
    StepsBack(front, part, parts);
    PathAppend(front, parts);
    assert PathOf(front + [part]) + "/../" + key == PathOf(front + [part]) + ("/.." + PathOf(parts));
  }

  lemma AllSolidParts(front: seq<string>, part: string, parts: seq<string>)
    requires AllSolid(front + [part]) && AllSolid(front + parts)
    ensures AllSolid(front) && Solid(part) && AllSolid(parts)
  {
    hide Solid;
    assert (front + [part])[|front|] == part;
    assert forall i :: 0 <= i < |front| ==> (front + [part])[i] == front[i];
    assert forall i :: 0 <= i < |parts| ==> (front + parts)[|front| + i] == parts[i];
  }

  lemma StepsBack(front: seq<string>, part: string, parts: seq<string>)
    requires AllSolid(front) && Solid(part) && AllSolid(parts) && parts != []
    ensures RemoveDots(PathOf(front + [part]) + ("/.." + PathOf(parts)), "") == PathOf(front) + PathOf(parts)
  {
    hide RemoveDots, Solid, DropLastSegment;
    var moved := PathOf(front + [part]);
    RemoveDotsMoves(front + [part], "/.." + PathOf(parts), "");
    assert "" + moved == moved;
    PathAppend(front, [part]);
    assert PathOf([part]) == "/" + part + PathOf([]);
    assert moved == PathOf(front) + "/" + part;
    SolidHasNoSlash(part);
    DropsSegment(PathOf(front), part);
    ParentRule(PathOf(parts), moved);
    RemoveDotsKeeps(parts, PathOf(front));
  }

  lemma ParentRule(rest: string, output: string)
    requires rest != "" && rest[0] == '/'
    ensures RemoveDots("/.." + rest, output) == RemoveDots(rest, DropLastSegment(output))
  {
    hide DropLastSegment;
    var input := "/.." + rest;
    assert input[0] == '/' && input[1] == '.' && input[2] == '.' && input[3] == '/';
    assert "/../" <= input && input[3..] == rest;
  }

  lemma {:induction false} DropsSegment(front: string, part: string)
    requires '/' !in part
    ensures DropLastSegment(front + "/" + part) == front
    decreases |part|
  {
    var s := front + "/" + part;
    if part == "" {
      assert s[..|s| - 1] == front;
    } else {
      var part' := part[..|part| - 1];
      DropsSegment(front, part');
      assert s[..|s| - 1] == front + "/" + part' && s[|s| - 1] == part[|part| - 1];
    }
  }

  lemma {:induction false} PathAppend(a: seq<string>, b: seq<string>)
    ensures PathOf(a + b) == PathOf(a) + PathOf(b)
  {
    if a == [] {
      assert a + b == b;
    } else {
      PathAppend(a[1..], b);
      assert (a + b)[0] == a[0] && (a + b)[1..] == a[1..] + b;
      Assoc("/" + a[0], PathOf(a[1..]), PathOf(b));
    }
  }

  // ----- exactly what is accepted ------------------------------------------

  /** A component that may appear in a key. */
  predicate Component(part: string) {
    && part != "" && part != "." && part != ".." && '/' !in part
    && forall i :: 0 <= i < |part| ==>
         && 32 <= part[i] as int && !(127 <= part[i] as int <= 159)
         && part[i] != '%' && part[i] != '?' && part[i] != '#' && part[i] != '\\'
  }

  predicate SpellsKey(parts: seq<string>, key: string) {
    && parts != [] && key == Join(parts, '/')
    && (forall i :: 0 <= i < |parts| ==> Component(parts[i]))
    && parts[|parts| - 1][|parts[|parts| - 1]| - 1] != ' '
  }

  /** Exactly the keys that consist of components with single slashes between them, and
      do not end in a space, are accepted. */
  lemma KeysAcceptedExactly(key: string)
    ensures ValidKey(key) <==> exists parts :: SpellsKey(parts, key)
  {
    if ValidKey(key) {
      AcceptedKeySpelled(key);
    }
    if exists parts :: SpellsKey(parts, key) {
      var parts :| SpellsKey(parts, key);
      SpelledKeyAccepted(parts, key);
    }
  }

  lemma AcceptedKeySpelled(key: string)
    requires ValidKey(key)
    ensures SpellsKey(Split(key, '/'), key)
  {
    hide Split, Join;
    var parts := Split(key, '/');
    JoinSplit(key, '/');
    forall i | 0 <= i < |parts| ensures Component(parts[i]) {
      assert !DotOrEmpty(parts[i]);
      forall k | 0 <= k < |parts[i]| ensures parts[i][k] in key {
        JoinHolds(parts, '/', parts[i][k]);
      }
      assert forall c :: c in key ==> !IsControl(c) && !UrlSyntax(c);
    }
    JoinEnds(parts, '/');
  }

  lemma SpelledKeyAccepted(parts: seq<string>, key: string)
    requires SpellsKey(parts, key)
    ensures ValidKey(key)
  {
    hide Split, Join;
    SplitJoin(parts, '/');
    forall i | 0 <= i < |key| ensures !IsControl(key[i]) && !UrlSyntax(key[i]) {
      JoinHolds(parts, '/', key[i]);
    }
    JoinEnds(parts, '/');
  }

  /** Exactly the names of ASCII letters, digits, dots, hyphens and underscores other than
      `.` and `..` are accepted. */
  lemma BucketsAcceptedExactly(name: string)
    ensures ValidBucket(name) <==>
              && name != "" && name != "." && name != ".."
              && forall i :: 0 <= i < |name| ==>
                   || 97 <= name[i] as int <= 122 || 65 <= name[i] as int <= 90 || 48 <= name[i] as int <= 57
                   || name[i] == '.' || name[i] == '-' || name[i] == '_'
  {
    assert forall c: char :: c in ".-_" <==> c == '.' || c == '-' || c == '_';
  }

  /** Leading slashes are taken off, and nothing else. */
  lemma {:induction false} TrimSlashesIs(key: string) returns (slashes: string)
    ensures key == slashes + TrimSlashes(key) && forall i :: 0 <= i < |slashes| ==> slashes[i] == '/'
    ensures TrimSlashes(key) == "" || TrimSlashes(key)[0] != '/'
  {
    if key == "" || key[0] != '/' {
      slashes := "";
    } else {
      var rest := TrimSlashesIs(key[1..]);
      slashes := "/" + rest;
      HeadTail(key, []);
      Assoc("/", rest, TrimSlashes(key));
    }
  }
}
