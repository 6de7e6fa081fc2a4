/** `normalize_config` of crates/talon-backend/src/broker.rs. A JSON object is a map from
    fields, so member order, which the code sorts away, is not represented; the URL is
    given parsed. */
module BrokerConfig {
  import opened Text

  // ----- data ------------------------------------------------------------

  /** The request fields that the broker protocol names, and all others. */
  datatype Field =
    | Csp | CredentialType | Region | Bucket | DurationSeconds | RoleArn | ExternalId
    | GcpServiceAccountEmail | AzureClientId | AzureTenantId | AzureAccountName
    | Extra(name: string)

  datatype Json =
    | Null
    | Bool(b: bool)
    | Int(n: int)
    | Float(digits: string)
    | Str(s: string)
    | Arr(items: seq<Json>)
    | Obj(members: map<string, Json>)

  type Fields = map<Field, Json>

  datatype Url = Url(http: bool, hasHost: bool, hasUserinfo: bool, hasFragment: bool, text: string)

  /** Request-scoped origin settings: whether they validate, the broker deadline, and the
      effective addressing that the rest of the origin code makes of them. */
  datatype Origin = Origin(valid: bool, requestTimeoutMs: Option<u64>, address: string, reserved: Option<string>)

  /** A broker configuration; `request` is `None` when the JSON value is not an object. */
  datatype Config = Config(url: Option<Url>, request: Option<Fields>, origin: Option<Origin>)

  datatype Normalized = Normalized(url: string, request: Fields, timeoutMs: u64)

  datatype Provider = Aws | Gcp | Azure | Ali | Tc | Hwc | Unknown

  datatype Error =
    | BadOrigin | BadUrl | NotAnObject | BadCredentialType | Missing(field: Field) | DurationNotInteger
    | ProviderMismatch | BadRegion | AccountMismatch | BadAzureNames | UnsupportedProvider
    | NegativeDuration | DurationOutOfRange

  const IGNORED_BY_IAM: set<Field> :=
    {RoleArn, ExternalId, GcpServiceAccountEmail, AzureClientId, AzureTenantId}

  const DEFAULT_DURATION := 3600
  const MAX_DURATION := 3600
  const MIN_STS_DURATION := 900
  const MIN_IAM_DURATION := 1
  const DEFAULT_TIMEOUT_MS: u64 := 3000

  // ----- checks ----------------------------------------------------------

  function ProviderOf(csp: string): Provider {
    if csp == "aws" then Aws
    else if csp == "gcp" then Gcp
    else if csp == "azure" then Azure
    else if csp == "ali" then Ali
    else if csp == "tc" then Tc
    else if csp == "hwc" then Hwc
    else Unknown
  }

  predicate HasAsciiControl(s: string) {
    exists i :: 0 <= i < |s| && (s[i] < ' ' || s[i] == '\U{7F}')
  }

  /** `required_string`. */
  function RequiredString(request: Fields, field: Field): Option<string> {
    if field in request && request[field].Str? && Trim(request[field].s) != "" && !HasAsciiControl(request[field].s)
    then Some(request[field].s)
    else None
  }

  /** Whether the request asks for the broker's own identity; every spelling of the
      target-identity mode, including none, asks for the other. */
  function Mode(request: Fields): Option<bool> {
    if CredentialType !in request then Some(false)
    else
      match request[CredentialType]
      case Str(s) => if s == "" || s == "stsAssumeRole" then Some(false) else if s == "iam" then Some(true) else None
      case _ => None
  }

  predicate FitsI64(n: int) {
    -0x8000_0000_0000_0000 <= n < 0x8000_0000_0000_0000
  }

  function RawDuration(request: Fields): Option<int> {
    if DurationSeconds !in request then Some(DEFAULT_DURATION)
    else if request[DurationSeconds].Int? && FitsI64(request[DurationSeconds].n) then Some(request[DurationSeconds].n)
    else None
  }

  predicate LowerAlnum(c: char) {
    'a' <= c <= 'z' || '0' <= c <= '9'
  }

  predicate AllLowerAlnum(s: string) {
    forall i :: 0 <= i < |s| ==> LowerAlnum(s[i])
  }

  predicate ValidRegion(region: string)
    requires region != ""
  {
    && |region| <= 63 && 'a' <= region[0] <= 'z' && '-' in region
    && var parts := Split(region, '-');
       forall i :: 0 <= i < |parts| ==> parts[i] != "" && AllLowerAlnum(parts[i])
  }

  predicate ValidAzureNames(account: string, bucket: string)
    requires bucket != ""
  {
    && 3 <= |account| <= 24 && AllLowerAlnum(account)
    && 3 <= |bucket| <= 63 && Find(bucket, "--").None?
    && LowerAlnum(bucket[0]) && LowerAlnum(bucket[|bucket| - 1])
    && forall i :: 0 <= i < |bucket| ==> LowerAlnum(bucket[i]) || bucket[i] == '-'
  }

  /** The provider-specific checks of the IAM mode; their value is the least duration. */
  function CheckIam(request: Fields, provider: Provider, account: Option<string>): Result<int, Error> {
    match provider
    case Aws | Ali | Tc | Hwc =>
      var region := RequiredString(request, Region);
      if region.None? then Err(Missing(Region))
      else if region.value == "" || !ValidRegion(region.value) then Err(BadRegion)
      else Ok(if provider.Aws? || provider.Ali? then MIN_STS_DURATION else MIN_IAM_DURATION)
    case Gcp => Ok(MIN_IAM_DURATION)
    case Azure =>
      var bucket, name := RequiredString(request, Bucket), RequiredString(request, AzureAccountName);
      if bucket.None? then Err(Missing(Bucket))
      else if name.None? then Err(Missing(AzureAccountName))
      else if name != account then Err(AccountMismatch)
      else if bucket.value == "" || !ValidAzureNames(name.value, bucket.value) then Err(BadAzureNames)
      else Ok(MIN_IAM_DURATION)
    case Unknown => Err(UnsupportedProvider)
  }

  function RequireAll(request: Fields, fields: seq<Field>): Option<Error> {
    if fields == [] then None
    else if RequiredString(request, fields[0]).None? then Some(Missing(fields[0]))
    else RequireAll(request, fields[1..])
  }

  /** The provider-specific checks of the target-identity mode, if any fails. */
  function CheckSts(request: Fields, provider: Provider, account: Option<string>, duration: int): Option<Error> {
    match provider
    case Aws =>
      var missing := RequireAll(request, [Region, RoleArn]);
      if missing.Some? then missing
      else if !(MIN_STS_DURATION <= duration <= MAX_DURATION) then Some(DurationOutOfRange)
      else None
    case Gcp => RequireAll(request, [GcpServiceAccountEmail])
    case Azure =>
      var missing := RequireAll(request, [Region, Bucket, AzureClientId, AzureTenantId, AzureAccountName]);
      if missing.Some? then missing
      else if RequiredString(request, AzureAccountName) != account then Some(AccountMismatch)
      else None
    case _ => Some(UnsupportedProvider)
  }

  predicate BadEndpoint(url: Option<Url>) {
    url.None? || !url.value.http || !url.value.hasHost || url.value.hasUserinfo || url.value.hasFragment
  }

  // ----- the specification -----------------------------------------------

  /** What a request means: the mode, the duration it stands for, and the fields that
      take part in the exchange. */
  datatype Meaning = Meaning(iam: bool, rawDuration: int, fields: Fields) {
    function Duration(): int {
      if rawDuration == 0 || (!iam && rawDuration < 0) then DEFAULT_DURATION else rawDuration
    }
  }

  function Relevant(request: Fields, iam: bool): Fields {
    request - {CredentialType, DurationSeconds} - (if iam then IGNORED_BY_IAM else {})
  }

  /** The first check that the meaning fails, if any. */
  function Refusal(m: Meaning, expected: Provider, account: Option<string>): Option<Error> {
    var csp := RequiredString(m.fields, Csp);
    if csp.None? then Some(Missing(Csp))
    else
      var provider := ProviderOf(csp.value);
      if m.iam then
        if provider != expected && !(expected == Aws && provider in {Ali, Tc, Hwc}) then Some(ProviderMismatch)
        else
          match CheckIam(m.fields, provider, account)
          case Err(e) => Some(e)
          case Ok(least) =>
            if m.rawDuration < 0 then Some(NegativeDuration)
            else if !(least <= m.Duration() <= MAX_DURATION) then Some(DurationOutOfRange)
            else None
      else if provider != expected then Some(ProviderMismatch)
      else CheckSts(m.fields, provider, account, m.Duration())
  }

  /** The canonical request for a meaning: one spelling of the mode, an explicit duration. */
  function Canonical(m: Meaning): Fields {
    var timed := m.fields[DurationSeconds := Int(m.Duration())];
    if m.iam then timed[CredentialType := Str("iam")] else timed
  }

  /** `normalize_config`, as a specification. */
  function Normalize(config: Config, expected: Provider, account: Option<string>): Result<Normalized, Error> {
    if config.origin.Some? && !config.origin.value.valid then Err(BadOrigin)
    else if BadEndpoint(config.url) then Err(BadUrl)
    else if config.request.None? then Err(NotAnObject)
    else NormalizeRequest(config.url.value.text, config.request.value, Timeout(config.origin), expected, account)
  }

  function Timeout(origin: Option<Origin>): u64 {
    if origin.Some? && origin.value.requestTimeoutMs.Some? then origin.value.requestTimeoutMs.value
    else DEFAULT_TIMEOUT_MS
  }

  function NormalizeRequest(url: string, request: Fields, timeoutMs: u64, expected: Provider, account: Option<string>)
    : Result<Normalized, Error>
  {
    var mode, raw := Mode(request), RawDuration(request);
    if mode.None? then Err(BadCredentialType)
    else if RequiredString(request, Csp).None? then Err(Missing(Csp))
    else if raw.None? then Err(DurationNotInteger)
    else
      var m := Meaning(mode.value, raw.value, Relevant(request, mode.value));
      match Refusal(m, expected, account)
      case Some(e) => Err(e)
      case None => Ok(Normalized(url, Canonical(m), timeoutMs))
  }

  // ----- the code --------------------------------------------------------

  const IGNORED_LIST: seq<Field> := [RoleArn, ExternalId, GcpServiceAccountEmail, AzureClientId, AzureTenantId]

  /** The loop that drops the identity fields that the IAM mode ignores. */
  method RemoveIgnored(fields: Fields) returns (request: Fields)
    ensures request == fields - IGNORED_BY_IAM
  {
    request := fields;
    for i := 0 to |IGNORED_LIST|
      invariant request == fields - (set f | f in IGNORED_LIST[..i])
    {
      request := request - {IGNORED_LIST[i]};
    }
    IgnoredListed();
    assert IGNORED_LIST[..|IGNORED_LIST|] == IGNORED_LIST;
  }

  lemma IgnoredListed()
    ensures (set f | f in IGNORED_LIST) == IGNORED_BY_IAM
  {
    assert IGNORED_LIST[0] == RoleArn && IGNORED_LIST[1] == ExternalId;
    assert IGNORED_LIST[2] == GcpServiceAccountEmail;
    assert IGNORED_LIST[3] == AzureClientId && IGNORED_LIST[4] == AzureTenantId;
  }

  /** Removing fields in place leaves the relevant fields readable, and setting the
      duration completes the canonical request. */
  lemma RemovedMeans(original: Fields, m: Meaning)
    requires Mode(original) == Some(m.iam) && m.fields == Relevant(original, m.iam)
    ensures var request := original - (if m.iam then IGNORED_BY_IAM else {CredentialType});
            && AgreeOnChecks(request, m.fields)
            && request[DurationSeconds := Int(m.Duration())] == Canonical(m)
  {
    var request := original - (if m.iam then IGNORED_BY_IAM else {CredentialType});
    forall f | f != CredentialType && f != DurationSeconds
      ensures f in request <==> f in m.fields
      ensures f in request ==> request[f] == m.fields[f]
    {
    }
    ReadsAgree(request, m.fields);
  }

  lemma ReadsAgree(a: Fields, b: Fields)
    requires forall f :: f != CredentialType && f != DurationSeconds ==>
                           (f in a <==> f in b) && (f in a ==> a[f] == b[f])
    ensures AgreeOnChecks(a, b)
  {
  }

  /** The branch for the broker's own identity. */
  method NormalizeIam(original: Fields, csp: string, raw: int, expected: Provider, account: Option<string>)
    returns (r: Result<Fields, Error>)
    requires Mode(original) == Some(true) && RequiredString(original, Csp) == Some(csp)
    ensures var m := Meaning(true, raw, Relevant(original, true));
            r == match Refusal(m, expected, account) { case Some(e) => Err(e) case None => Ok(Canonical(m)) }
  {
    hide RequiredString, CheckIam, CheckSts, ProviderOf, Mode, AgreeOnChecks, Canonical, Relevant;
    ghost var m := Meaning(true, raw, Relevant(original, true));
    RelevantShape(original, true);
    var provider := ProviderOf(csp);
    if provider != expected && !(expected == Aws && provider in {Ali, Tc, Hwc}) { return Err(ProviderMismatch); }
    var request := RemoveIgnored(original);
    RemovedMeans(original, m);
    ChecksAgree(request, m.fields, provider, account, 0);
    var least := CheckIam(request, provider, account);
    if least.Err? { return Err(least.error); }
    if raw < 0 { return Err(NegativeDuration); }
    var duration := if raw == 0 then DEFAULT_DURATION else raw;
    if !(least.value <= duration <= MAX_DURATION) { return Err(DurationOutOfRange); }
    r := Ok(request[DurationSeconds := Int(duration)]);
  }

  /** The branch for a target identity, under any of its spellings. */
  method NormalizeSts(original: Fields, csp: string, raw: int, expected: Provider, account: Option<string>)
    returns (r: Result<Fields, Error>)
    requires Mode(original) == Some(false) && RequiredString(original, Csp) == Some(csp)
    ensures var m := Meaning(false, raw, Relevant(original, false));
            r == match Refusal(m, expected, account) { case Some(e) => Err(e) case None => Ok(Canonical(m)) }
  {
    hide RequiredString, CheckIam, CheckSts, ProviderOf, Mode, AgreeOnChecks, Canonical, Relevant;
    ghost var m := Meaning(false, raw, Relevant(original, false));
    RelevantShape(original, false);
    var provider := ProviderOf(csp);
    if provider != expected { return Err(ProviderMismatch); }
    var request := original - {CredentialType};
    RemovedMeans(original, m);
    var duration := if raw <= 0 then DEFAULT_DURATION else raw;
    ChecksAgree(request, m.fields, provider, account, duration);
    var refused := CheckSts(request, provider, account, duration);
    if refused.Some? { return Err(refused.value); }
    r := Ok(request[DurationSeconds := Int(duration)]);
  }

  /** `normalize_config`: early returns, fields removed one by one, the duration set last. */
  method NormalizeConfig(config: Config, expected: Provider, account: Option<string>)
    returns (r: Result<Normalized, Error>)
    requires expected != Unknown
    ensures r == Normalize(config, expected, account)
  {
    hide RequiredString, Mode, RawDuration, Canonical, Refusal, Relevant;
    if config.origin.Some? && !config.origin.value.valid { return Err(BadOrigin); }
    if BadEndpoint(config.url) { return Err(BadUrl); }
    if config.request.None? { return Err(NotAnObject); }
    var request := config.request.value;
    var mode := Mode(request);
    if mode.None? { return Err(BadCredentialType); }
    var csp := RequiredString(request, Csp);
    if csp.None? { return Err(Missing(Csp)); }
    var raw := RawDuration(request);
    if raw.None? { return Err(DurationNotInteger); }
    var fields;
    if mode.value {
      fields := NormalizeIam(request, csp.value, raw.value, expected, account);
    } else {
      fields := NormalizeSts(request, csp.value, raw.value, expected, account);
    }
    if fields.Err? { return Err(fields.error); }
    r := Ok(Normalized(config.url.value.text, fields.value, Timeout(config.origin)));
  }

  /** The provider checks read neither the mode nor the duration field. */
  ghost predicate AgreeOnChecks(a: Fields, b: Fields) {
    forall f :: f != CredentialType && f != DurationSeconds ==> RequiredString(a, f) == RequiredString(b, f)
  }

  lemma {:induction false} RequireAllAgrees(a: Fields, b: Fields, fields: seq<Field>)
    requires forall i :: 0 <= i < |fields| ==> RequiredString(a, fields[i]) == RequiredString(b, fields[i])
    ensures RequireAll(a, fields) == RequireAll(b, fields)
  {
    if fields == [] {
    } else {
      RequireAllAgrees(a, b, fields[1..]);
    }
  }

  lemma ChecksAgree(a: Fields, b: Fields, provider: Provider, account: Option<string>, duration: int)
    requires AgreeOnChecks(a, b)
    ensures CheckIam(a, provider, account) == CheckIam(b, provider, account)
    ensures CheckSts(a, provider, account, duration) == CheckSts(b, provider, account, duration)
  {
    hide RequiredString, RequireAll;
    RequireAllAgrees(a, b, [Region, RoleArn]);
    RequireAllAgrees(a, b, [GcpServiceAccountEmail]);
    RequireAllAgrees(a, b, [Region, Bucket, AzureClientId, AzureTenantId, AzureAccountName]);
  }

  // ----- properties ------------------------------------------------------

  predicate Readable(request: Fields) {
    Mode(request).Some? && RawDuration(request).Some? && RequiredString(request, Csp).Some?
  }

  function MeaningOf(request: Fields): Meaning
    requires Readable(request)
  {
    var iam := Mode(request).value;
    Meaning(iam, RawDuration(request).value, Relevant(request, iam))
  }

  /** Two requests mean the same exchange: the same mode under any of its spellings, the
      same effective duration, and the same fields apart from those that the mode ignores. */
  predicate SameExchange(a: Fields, b: Fields)
    requires Readable(a) && Readable(b)
  {
    var m, n := MeaningOf(a), MeaningOf(b);
    m.iam == n.iam && m.Duration() == n.Duration() && m.fields == n.fields
  }

  lemma ModeOfIam(request: Fields)
    requires CredentialType in request && request[CredentialType] == Str("iam")
    ensures Mode(request) == Some(true)
  {
    assert "iam"[0] == 'i' && "stsAssumeRole"[0] == 's';
  }

  /** The canonical request reads back as the meaning it was made from, its default
      duration spelled out. */
  lemma CanonicalReads(m: Meaning)
    requires CredentialType !in m.fields && DurationSeconds !in m.fields
    requires m.iam ==> m.fields.Keys !! IGNORED_BY_IAM
    requires FitsI64(m.rawDuration)
    ensures Mode(Canonical(m)) == Some(m.iam)
    ensures RawDuration(Canonical(m)) == Some(m.Duration())
    ensures Relevant(Canonical(m), m.iam) == m.fields
    ensures RequiredString(Canonical(m), Csp) == RequiredString(m.fields, Csp)
  {
    hide RequiredString;
    if m.iam {
      ModeOfIam(Canonical(m));
    }
    CspAgrees(Canonical(m), m.fields);
  }

  lemma CspAgrees(a: Fields, b: Fields)
    requires (Csp in a <==> Csp in b) && (Csp in a ==> a[Csp] == b[Csp])
    ensures RequiredString(a, Csp) == RequiredString(b, Csp)
  {
  }

  lemma RefusalIgnoresSpelling(m: Meaning, n: Meaning, expected: Provider, account: Option<string>)
    requires m.iam == n.iam && m.fields == n.fields && m.Duration() == n.Duration()
    ensures Refusal(m, expected, account) == Refusal(n, expected, account)
    ensures Canonical(m) == Canonical(n)
  {
    hide RequiredString, CheckIam, CheckSts, ProviderOf;
  }

  lemma RelevantShape(request: Fields, iam: bool)
    ensures var fields := Relevant(request, iam);
            && CredentialType !in fields && DurationSeconds !in fields
            && (iam ==> fields.Keys !! IGNORED_BY_IAM)
            && RequiredString(fields, Csp) == RequiredString(request, Csp)
  {
    CspAgrees(Relevant(request, iam), request);
  }

  /** Normalizing is idempotent: what it returns, given back, returns itself. */
  lemma NormalizeIsIdempotent(config: Config, expected: Provider, account: Option<string>)
    requires Normalize(config, expected, account).Ok?
    ensures var n := Normalize(config, expected, account);
            Normalize(config.(request := Some(n.value.request)), expected, account) == n
  {
    hide Refusal, RequiredString, Canonical, Relevant;
    var request := config.request.value;
    var m := MeaningOf(request);
    RelevantShape(request, m.iam);
    CanonicalReads(m);
    var m' := Meaning(m.iam, m.Duration(), m.fields);
    RefusalIgnoresSpelling(m, m', expected, account);
  }

  /** Normalizing is constant on requests that mean the same exchange, errors included. */
  lemma NormalizeRespectsMeaning(c: Config, d: Config, expected: Provider, account: Option<string>)
    requires c.url == d.url && c.origin == d.origin && c.request.Some? && d.request.Some?
    requires Readable(c.request.value) && Readable(d.request.value)
    requires SameExchange(c.request.value, d.request.value)
    ensures Normalize(c, expected, account) == Normalize(d, expected, account)
  {
    hide Refusal, RequiredString, Canonical, Relevant, Mode, RawDuration;
    RefusalIgnoresSpelling(MeaningOf(c.request.value), MeaningOf(d.request.value), expected, account);
  }

  /** And it tells apart requests that do not: two accepted requests have the same
      normal form exactly when they mean the same exchange, whatever accounts were expected. */
  lemma NormalFormDecidesMeaning(c: Config, d: Config, expected: Provider,
                                account: Option<string>, account': Option<string>)
    requires Normalize(c, expected, account).Ok? && Normalize(d, expected, account').Ok?
    ensures Readable(c.request.value) && Readable(d.request.value)
    ensures Normalize(c, expected, account).value.request == Normalize(d, expected, account').value.request
            <==> SameExchange(c.request.value, d.request.value)
  {
    hide Refusal, RequiredString, Canonical, Relevant, Mode;
    var a, b := c.request.value, d.request.value;
    RelevantShape(a, MeaningOf(a).iam);
    RelevantShape(b, MeaningOf(b).iam);
    CanonicalReads(MeaningOf(a));
    CanonicalReads(MeaningOf(b));
    if SameExchange(a, b) {
      RefusalIgnoresSpelling(MeaningOf(a), MeaningOf(b), expected, account);
    }
  }

  // ----- what is accepted, in the protocol's own terms --------------------

  /** A field that holds text: not blank, and without ASCII control characters. */
  predicate Filled(request: Fields, f: Field) {
    && f in request && request[f].Str? && Trim(request[f].s) != ""
    && forall i :: 0 <= i < |request[f].s| ==> ' ' <= request[f].s[i] && request[f].s[i] as int != 127
  }

  /** Words of lowercase letters and digits with single hyphens between them, a letter
      first and at least one hyphen. */
  predicate RegionName(r: string) {
    && 0 < |r| <= 63 && 'a' <= r[0] <= 'z'
    && (forall i :: 0 <= i < |r| ==> 'a' <= r[i] <= 'z' || '0' <= r[i] <= '9' || r[i] == '-')
    && (exists i :: 0 <= i < |r| && r[i] == '-')
    && (forall i :: 0 <= i < |r| && r[i] == '-' ==> i + 1 < |r| && r[i + 1] != '-')
  }

  predicate AccountName(a: string) {
    3 <= |a| <= 24 && forall i :: 0 <= i < |a| ==> 'a' <= a[i] <= 'z' || '0' <= a[i] <= '9'
  }

  predicate ContainerName(b: string) {
    && 3 <= |b| <= 63 && b[0] != '-' && b[|b| - 1] != '-'
    && (forall i :: 0 <= i < |b| ==> 'a' <= b[i] <= 'z' || '0' <= b[i] <= '9' || b[i] == '-')
    && (forall i :: 0 <= i < |b| - 1 ==> !(b[i] == '-' && b[i + 1] == '-'))
  }

  predicate AsksIam(request: Fields) {
    CredentialType in request && request[CredentialType] == Str("iam")
  }

  predicate KnownMode(request: Fields) {
    CredentialType in request ==>
      request[CredentialType] == Str("") || request[CredentialType] == Str("stsAssumeRole") || AsksIam(request)
  }

  predicate WholeDuration(request: Fields) {
    DurationSeconds in request ==>
      && request[DurationSeconds].Int?
      && -9223372036854775808 <= request[DurationSeconds].n <= 9223372036854775807
  }

  /** The duration that takes effect: an hour where none, zero or (except for the broker's
      own identity) a negative one is given. */
  function Effective(request: Fields): int
    requires WholeDuration(request)
  {
    if DurationSeconds !in request then 3600
    else
      var n := request[DurationSeconds].n;
      if n == 0 || (n < 0 && !AsksIam(request)) then 3600 else n
  }

  predicate AcceptsIam(request: Fields, expected: Provider, account: Option<string>)
    requires WholeDuration(request) && Filled(request, Csp)
  {
    var csp, d := request[Csp].s, Effective(request);
    match expected
    case Aws =>
      && Filled(request, Region) && RegionName(request[Region].s)
      && (((csp == "aws" || csp == "ali") && 900 <= d <= 3600) || ((csp == "tc" || csp == "hwc") && 1 <= d <= 3600))
    case Gcp => csp == "gcp" && 1 <= d <= 3600
    case Azure =>
      && csp == "azure" && Filled(request, Bucket) && Filled(request, AzureAccountName)
      && account == Some(request[AzureAccountName].s)
      && AccountName(request[AzureAccountName].s) && ContainerName(request[Bucket].s) && 1 <= d <= 3600
    case _ => false
  }

  predicate AcceptsSts(request: Fields, expected: Provider, account: Option<string>)
    requires WholeDuration(request) && Filled(request, Csp)
  {
    var csp, d := request[Csp].s, Effective(request);
    match expected
    case Aws => csp == "aws" && (forall f :: f in {Region, RoleArn} ==> Filled(request, f)) && 900 <= d <= 3600
    case Gcp => csp == "gcp" && Filled(request, GcpServiceAccountEmail)
    case Azure =>
      && csp == "azure"
      && (forall f :: f in {Region, Bucket, AzureClientId, AzureTenantId} ==> Filled(request, f))
      && Filled(request, AzureAccountName) && account == Some(request[AzureAccountName].s)
    case _ => false
  }

  /** A request that a backend of the expected provider may exchange. */
  predicate Acceptable(request: Fields, expected: Provider, account: Option<string>) {
    && KnownMode(request) && Filled(request, Csp) && WholeDuration(request)
    && (if AsksIam(request) then AcceptsIam(request, expected, account) else AcceptsSts(request, expected, account))
  }

  predicate UsableEndpoint(url: Option<Url>) {
    url.Some? && url.value.http && url.value.hasHost && !url.value.hasUserinfo && !url.value.hasFragment
  }

  // The code's checks are these.

  lemma FilledIsRequired(request: Fields, f: Field)
    ensures Filled(request, f) <==> RequiredString(request, f).Some?
    ensures Filled(request, f) ==> RequiredString(request, f) == Some(request[f].s)
  {
    hide Trim;
    assert '\U{7F}' as int == 127;
  }

  /** Words of lowercase letters and digits, of which only the first may be empty. */
  predicate Words(parts: seq<string>) {
    && (forall i :: 0 <= i < |parts| ==> AllLowerAlnum(parts[i]))
    && (forall i :: 1 <= i < |parts| ==> parts[i] != "")
  }

  /** The same of the text: every hyphen is followed by a letter or digit. */
  predicate Hyphenated(r: string) {
    && (forall i :: 0 <= i < |r| ==> LowerAlnum(r[i]) || r[i] == '-')
    && (forall i :: 0 <= i < |r| && r[i] == '-' ==> i + 1 < |r| && r[i + 1] != '-')
  }

  lemma HyphenatedStep(r: string)
    requires r != ""
    ensures Hyphenated(r) <==>
              && Hyphenated(r[1..])
              && (if r[0] == '-' then |r| > 1 && r[1] != '-' else LowerAlnum(r[0]))
  {
    hide LowerAlnum;
    var t := r[1..];
    assert forall i :: 0 <= i < |t| ==> t[i] == r[i + 1];
    assert forall i :: 1 <= i < |r| ==> r[i] == t[i - 1];
  }

  lemma WordsAfterHyphen(parts: seq<string>)
    requires parts != []
    ensures Words([""] + parts) <==> Words(parts) && parts[0] != ""
  {
    hide LowerAlnum;
    var more := [""] + parts;
    assert forall i :: 0 <= i < |parts| ==> parts[i] == more[i + 1];
  }

  lemma WordsWithLonger(c: char, parts: seq<string>)
    requires parts != []
    ensures Words([[c] + parts[0]] + parts[1..]) <==> Words(parts) && LowerAlnum(c)
  {
    hide LowerAlnum;
    var more, first := [[c] + parts[0]] + parts[1..], [c] + parts[0];
    assert more[0] == first && first[0] == c;
    assert forall i :: 0 <= i < |parts[0]| ==> parts[0][i] == first[i + 1];
    assert forall i :: 1 <= i < |parts| ==> parts[i] == more[i];
  }

  lemma {:induction false} WordsAreHyphenated(r: string)
    ensures Words(Split(r, '-')) <==> Hyphenated(r)
    ensures Split(r, '-')[0] != "" <==> r != "" && r[0] != '-'
  {
    hide Words, Hyphenated, LowerAlnum;
    if r == "" {
      assert Words([""]) && Hyphenated("") by { NoWords(); }
    } else {
      WordsAreHyphenated(r[1..]);
      HyphenatedStep(r);
      var parts := Split(r[1..], '-');
      if r[0] == '-' {
        WordsAfterHyphen(parts);
        assert |r| > 1 ==> r[1..][0] == r[1];
      } else {
        WordsWithLonger(r[0], parts);
      }
    }
  }

  lemma NoWords()
    ensures Words([""]) && Hyphenated("")
  {
  }

  lemma RegionIsValid(r: string)
    requires r != ""
    ensures ValidRegion(r) <==> RegionName(r)
  {
    hide Split;
    WordsAreHyphenated(r);
    var parts := Split(r, '-');
    assert ('-' in r) <==> exists i :: 0 <= i < |r| && r[i] == '-';
  }

  lemma DoubleHyphenAt(b: string, i: nat)
    requires i + 1 < |b|
    ensures OccursAt(b, "--", i) <==> b[i] == '-' && b[i + 1] == '-'
  {
    assert b[i..][0] == b[i] && b[i..][1] == b[i + 1];
  }

  lemma NamesAreValid(account: string, bucket: string)
    requires bucket != ""
    ensures ValidAzureNames(account, bucket) <==> AccountName(account) && ContainerName(bucket)
  {
    hide Find;
    if Find(bucket, "--").Some? {
      FindIsFirst(bucket, "--", 0);
      var i := Find(bucket, "--").value;
      assert bucket[i..][0] == "--"[0] && bucket[i..][1] == "--"[1];
    } else {
      forall i | 0 <= i < |bucket| - 1 ensures !(bucket[i] == '-' && bucket[i + 1] == '-') {
        FindIsFirst(bucket, "--", i);
        DoubleHyphenAt(bucket, i);
      }
    }
  }

  /** The fields that take part in the exchange read as they do in the request. */
  lemma RelevantReads(request: Fields, iam: bool, f: Field)
    requires f != CredentialType && f != DurationSeconds && (iam ==> f !in IGNORED_BY_IAM)
    ensures RequiredString(Relevant(request, iam), f) == RequiredString(request, f)
  {
    hide Trim, HasAsciiControl;
  }

  lemma ModeIsKnown(request: Fields)
    ensures Mode(request).Some? <==> KnownMode(request)
    ensures Mode(request).Some? ==> Mode(request).value == AsksIam(request)
  {
    assert |"iam"| == 3 && |"stsAssumeRole"| == 13;
  }

  lemma DurationIsWhole(request: Fields)
    ensures RawDuration(request).Some? <==> WholeDuration(request)
  {
  }

  lemma ProviderNames(csp: string)
    ensures ProviderOf(csp) == Aws <==> csp == "aws"
    ensures ProviderOf(csp) == Gcp <==> csp == "gcp"
    ensures ProviderOf(csp) == Azure <==> csp == "azure"
    ensures ProviderOf(csp) == Ali <==> csp == "ali"
    ensures ProviderOf(csp) == Tc <==> csp == "tc"
    ensures ProviderOf(csp) == Hwc <==> csp == "hwc"
  {
    assert |"aws"| == |"gcp"| == |"ali"| == |"hwc"| == 3 && |"azure"| == 5 && |"tc"| == 2;
    assert "aws"[1] != "ali"[1] && "aws"[0] == "ali"[0] == 'a' && "gcp"[0] == 'g' && "hwc"[0] == 'h';
  }

  lemma StsChecksAre(request: Fields, m: Meaning, expected: Provider, account: Option<string>)
    requires KnownMode(request) && Filled(request, Csp) && WholeDuration(request) && !AsksIam(request)
    requires m.fields == Relevant(request, false) && !m.iam && m.Duration() == Effective(request)
    requires expected in {Aws, Gcp, Azure}
    ensures Refusal(m, expected, account).None? <==> AcceptsSts(request, expected, account)
  {
    hide RequiredString, Filled, ProviderOf, Relevant, Effective, RequireAll;
    ReadsSts(request);
    FilledAll(request);
    FilledIsText(request);
    ProviderNames(request[Csp].s);
    StsRequirements(m.fields);
  }

  lemma ReadsSts(request: Fields)
    ensures forall f :: f in {Csp, Region, RoleArn, Bucket, GcpServiceAccountEmail, AzureClientId, AzureTenantId,
                              AzureAccountName} ==>
              RequiredString(Relevant(request, false), f) == RequiredString(request, f)
  {
    hide RequiredString, Relevant;
    forall f | f in {Csp, Region, RoleArn, Bucket, GcpServiceAccountEmail, AzureClientId, AzureTenantId,
                     AzureAccountName}
      ensures RequiredString(Relevant(request, false), f) == RequiredString(request, f)
    {
      RelevantReads(request, false, f);
    }
  }

  lemma FilledAll(request: Fields)
    ensures forall f :: Filled(request, f) <==> RequiredString(request, f).Some?
    ensures forall f :: Filled(request, f) ==> RequiredString(request, f) == Some(request[f].s)
  {
    hide RequiredString;
    forall f
      ensures Filled(request, f) <==> RequiredString(request, f).Some?
      ensures Filled(request, f) ==> RequiredString(request, f) == Some(request[f].s)
    {
      FilledIsRequired(request, f);
    }
  }

  /** What the three lists of required fields demand. */
  lemma StsRequirements(fields: Fields)
    ensures RequireAll(fields, [Region, RoleArn]).None? <==>
              RequiredString(fields, Region).Some? && RequiredString(fields, RoleArn).Some?
    ensures RequireAll(fields, [GcpServiceAccountEmail]).None? <==>
              RequiredString(fields, GcpServiceAccountEmail).Some?
    ensures RequireAll(fields, [Region, Bucket, AzureClientId, AzureTenantId, AzureAccountName]).None? <==>
              && RequiredString(fields, Region).Some? && RequiredString(fields, Bucket).Some?
              && RequiredString(fields, AzureClientId).Some? && RequiredString(fields, AzureTenantId).Some?
              && RequiredString(fields, AzureAccountName).Some?
  {
    hide RequiredString;
    RequireAllMeans(fields, [Region, RoleArn]);
    RequireAllMeans(fields, [GcpServiceAccountEmail]);
    var azure := [Region, Bucket, AzureClientId, AzureTenantId, AzureAccountName];
    RequireAllMeans(fields, azure);
    assert azure[0] == Region && azure[1] == Bucket && azure[2] == AzureClientId;
    assert azure[3] == AzureTenantId && azure[4] == AzureAccountName;
    assert [Region, RoleArn][0] == Region && [Region, RoleArn][1] == RoleArn;
    assert [GcpServiceAccountEmail][0] == GcpServiceAccountEmail;
  }

  lemma {:induction false} RequireAllMeans(fields: Fields, list: seq<Field>)
    ensures RequireAll(fields, list).None? <==>
              forall i :: 0 <= i < |list| ==> RequiredString(fields, list[i]).Some?
  {
    hide RequiredString;
    if list == [] {
    } else {
      RequireAllMeans(fields, list[1..]);
      assert forall i :: 1 <= i < |list| ==> list[i] == list[1..][i - 1];
    }
  }

  lemma IamChecksAre(request: Fields, m: Meaning, expected: Provider, account: Option<string>)
    requires KnownMode(request) && Filled(request, Csp) && WholeDuration(request) && AsksIam(request)
    requires m.fields == Relevant(request, true) && m.iam && RawDuration(request) == Some(m.rawDuration)
    requires expected in {Aws, Gcp, Azure}
    ensures Refusal(m, expected, account).None? <==> AcceptsIam(request, expected, account)
  {
    hide RequiredString, Filled, ProviderOf, Relevant, ValidRegion, RegionName, ValidAzureNames, AccountName,
      ContainerName;
    RelevantReads(request, true, Csp);
    RelevantReads(request, true, Region);
    RelevantReads(request, true, Bucket);
    RelevantReads(request, true, AzureAccountName);
    FilledAll(request);
    FilledIsText(request);
    ProviderNames(request[Csp].s);
    if Filled(request, Region) {
      RegionIsValid(request[Region].s);
    }
    if Filled(request, Bucket) && Filled(request, AzureAccountName) {
      NamesAreValid(request[AzureAccountName].s, request[Bucket].s);
    }
  }

  lemma FilledIsText(request: Fields)
    ensures forall f :: Filled(request, f) ==> f in request && request[f].Str? && request[f].s != ""
  {
  }

  /** Exactly which configurations are accepted, in the terms of the broker protocol. */
  lemma AcceptedExactly(config: Config, expected: Provider, account: Option<string>)
    requires expected in {Aws, Gcp, Azure}
    ensures Normalize(config, expected, account).Ok? <==>
              && (config.origin.Some? ==> config.origin.value.valid)
              && UsableEndpoint(config.url)
              && config.request.Some? && Acceptable(config.request.value, expected, account)
  {
    hide Refusal, AcceptsIam, AcceptsSts, RequiredString, Filled, Relevant, Mode, Canonical;
    if config.request.Some? {
      var request := config.request.value;
      ModeIsKnown(request);
      DurationIsWhole(request);
      FilledIsRequired(request, Csp);
      if KnownMode(request) && Filled(request, Csp) && WholeDuration(request) {
        var m := MeaningOf(request);
        if AsksIam(request) {
          IamChecksAre(request, m, expected, account);
        } else {
          StsChecksAre(request, m, expected, account);
        }
      }
    }
  }

  /** The fields that name a target identity. */
  predicate NamesIdentity(f: Field) {
    f == RoleArn || f == ExternalId || f == GcpServiceAccountEmail || f == AzureClientId || f == AzureTenantId
  }

  /** What an accepted configuration becomes: the URL and the deadline are kept, three
      seconds being the default; the duration in effect is spelled out; the target-identity
      mode loses its name, and the broker's own identity the fields that it ignores; and
      every other field stays as it is. */
  lemma AcceptedBecomes(config: Config, expected: Provider, account: Option<string>)
    requires Normalize(config, expected, account).Ok?
    ensures var n, request := Normalize(config, expected, account).value, config.request.value;
            && n.url == config.url.value.text
            && n.timeoutMs == (if config.origin.Some? && config.origin.value.requestTimeoutMs.Some?
                               then config.origin.value.requestTimeoutMs.value else 3000)
            && WholeDuration(request) && DurationSeconds in n.request
            && n.request[DurationSeconds] == Int(Effective(request))
            && (CredentialType in n.request <==> AsksIam(request))
            && (AsksIam(request) ==> n.request[CredentialType] == Str("iam"))
            && forall f :: f != DurationSeconds && f != CredentialType ==>
                 && (f in n.request <==> f in request && !(AsksIam(request) && NamesIdentity(f)))
                 && (f in n.request ==> n.request[f] == request[f])
  {
    hide Refusal, RequiredString, Mode;
    ModeIsKnown(config.request.value);
    DurationIsWhole(config.request.value);
  }
}
