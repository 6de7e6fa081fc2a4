/** Which requests share a store: `prepare_dynamic`, `RouteBuildConfig::key` and
    `BoundBackend` of crates/talon-backend/src/routing.rs. The key is kept as its parts;
    the code prints them as one JSON array. */
module Routing {
  import opened Text
  import opened ObjectKeys
  import B = BrokerConfig

  datatype Backend = S3 | Gcs | AzureBlob

  datatype Request = Request(backend: Backend, bucket: string, broker: Option<B.Config>)

  datatype Error =
    | WrongBackend | NotAnObject | BucketMismatch | BadBucket | NoOrigin | NoAccount
    | Broker(cause: B.Error)

  /** `ConfigKey`: equal keys share one store. */
  datatype Key = Key(address: string, bucket: string, url: string, request: B.Fields, reserved: Option<string>)

  function ProviderFor(backend: Backend): B.Provider {
    match backend
    case S3 => B.Aws
    case Gcs => B.Gcp
    case AzureBlob => B.Azure
  }

  /** The bucket field, filled in where the broker protocol does not demand it. */
  function WithBucket(backend: Backend, bucket: string, request: B.Fields): Option<B.Fields> {
    if B.Bucket in request then (if request[B.Bucket] == B.Str(bucket) then Some(request) else None)
    else if backend != AzureBlob then Some(request[B.Bucket := B.Str(bucket)])
    else Some(request)
  }

  /** The Azure account that the request names, if it names one. */
  function AccountOf(request: B.Fields): Option<string> {
    if B.AzureAccountName in request && request[B.AzureAccountName].Str? && Trim(request[B.AzureAccountName].s) != ""
    then Some(request[B.AzureAccountName].s)
    else None
  }

  function Finish(backend: Backend, bucket: string, config: B.Config, request: B.Fields): Result<Key, Error> {
    if !ValidBucket(bucket) then Err(BadBucket)
    else if config.origin.None? then Err(NoOrigin)
    else if backend == AzureBlob && AccountOf(request).None? then Err(NoAccount)
    else
      var account := if backend == AzureBlob then AccountOf(request) else None;
      match B.Normalize(config.(request := Some(request)), ProviderFor(backend), account)
      case Err(e) => Err(Broker(e))
      case Ok(n) => Ok(Key(config.origin.value.address, bucket, n.url, n.request, config.origin.value.reserved))
  }

  /** `prepare_dynamic` followed by `key`, for a resolver of one backend family. */
  function KeyFor(backend: Backend, r: Request): Result<Key, Error>
    requires r.broker.Some?
  {
    var config := r.broker.value;
    if r.backend != backend then Err(WrongBackend)
    else if config.request.None? then Err(NotAnObject)
    else
      match WithBucket(backend, r.bucket, config.request.value)
      case None => Err(BucketMismatch)
      case Some(request) => Finish(backend, r.bucket, config, request)
  }

  /** Leaving out the bucket field of a request to a family other than Azure changes
      neither the answer nor the key. */
  lemma BucketMayBeOmitted(backend: Backend, r: Request)
    requires r.broker.Some? && r.broker.value.request.Some?
    requires backend != AzureBlob && B.Bucket !in r.broker.value.request.value
    ensures var filled := r.broker.value.request.value[B.Bucket := B.Str(r.bucket)];
            KeyFor(backend, r) == KeyFor(backend, r.(broker := Some(r.broker.value.(request := Some(filled)))))
  {
    hide ValidBucket, AccountOf, B.NormalizeRequest;
    var config := r.broker.value;
    var filled := config.request.value[B.Bucket := B.Str(r.bucket)];
    assert config.(request := Some(filled)).(request := Some(filled)) == config.(request := Some(filled));
  }

  lemma CanonicalKeepsBucket(m: B.Meaning)
    ensures B.Bucket in m.fields <==> B.Bucket in B.Canonical(m)
    ensures B.Bucket in m.fields ==> B.Canonical(m)[B.Bucket] == m.fields[B.Bucket]
  {
  }

  lemma AzureNeedsBucket(m: B.Meaning, account: Option<string>)
    requires B.Refusal(m, B.Azure, account).None?
    ensures B.RequiredString(m.fields, B.Bucket).Some?
  {
    hide B.RequiredString, B.ProviderOf, B.ValidRegion, B.ValidAzureNames;
    RequiresSecond(m.fields);
  }

  lemma RequiresSecond(fields: B.Fields)
    ensures B.RequireAll(fields, [B.Region, B.Bucket, B.AzureClientId, B.AzureTenantId, B.AzureAccountName]).None?
            ==> B.RequiredString(fields, B.Bucket).Some?
  {
    hide B.RequiredString;
    var all := [B.Region, B.Bucket, B.AzureClientId, B.AzureTenantId, B.AzureAccountName];
    assert B.RequireAll(fields, all).None? ==> B.RequireAll(fields, all[1..]).None?;
    assert all[1..][0] == B.Bucket;
  }

  /** A key names its bucket twice and consistently: the store built for it and the
      credentials fetched for it are for the same bucket, the one the caller asked for. */
  lemma KeyNamesItsBucket(backend: Backend, r: Request)
    requires r.broker.Some? && KeyFor(backend, r).Ok?
    ensures var key := KeyFor(backend, r).value;
            && key.bucket == r.bucket && ValidBucket(key.bucket)
            && B.Bucket in key.request && key.request[B.Bucket] == B.Str(key.bucket)
  {
    hide ValidBucket, AccountOf, B.Refusal, B.Canonical, B.Mode, B.RawDuration;
    var config := r.broker.value;
    var request := WithBucket(backend, r.bucket, config.request.value).value;
    var m := B.MeaningOf(request);
    CanonicalKeepsBucket(m);
    if backend == AzureBlob {
      AzureNeedsBucket(m, AccountOf(request));
    }
  }

  /** Two accepted requests share a store exactly when they name the same bucket, broker
      and origin and, their buckets filled in, mean the same exchange. */
  lemma KeysDecideSharing(backend: Backend, r1: Request, r2: Request)
    requires r1.broker.Some? && r2.broker.Some? && KeyFor(backend, r1).Ok? && KeyFor(backend, r2).Ok?
    ensures var c1, c2 := r1.broker.value, r2.broker.value;
            var f1, f2 := WithBucket(backend, r1.bucket, c1.request.value).value,
                          WithBucket(backend, r2.bucket, c2.request.value).value;
            && B.Readable(f1) && B.Readable(f2)
            && (KeyFor(backend, r1) == KeyFor(backend, r2) <==>
                  && r1.bucket == r2.bucket && c1.url.value.text == c2.url.value.text
                  && c1.origin.value.address == c2.origin.value.address
                  && c1.origin.value.reserved == c2.origin.value.reserved
                  && B.SameExchange(f1, f2))
  {
    hide ValidBucket, AccountOf, B.NormalizeRequest, B.SameExchange, B.Readable;
    var c1, c2 := r1.broker.value, r2.broker.value;
    var f1, f2 := WithBucket(backend, r1.bucket, c1.request.value).value,
                  WithBucket(backend, r2.bucket, c2.request.value).value;
    var p := ProviderFor(backend);
    var a1 := if backend == AzureBlob then AccountOf(f1) else None;
    var a2 := if backend == AzureBlob then AccountOf(f2) else None;
    NormalFormAcrossAccounts(c1.(request := Some(f1)), c2.(request := Some(f2)), p, a1, a2);
  }

  /** The normal form decides the meaning whatever accounts the two checks expected. */
  lemma NormalFormAcrossAccounts(c: B.Config, d: B.Config, p: B.Provider, a1: Option<string>, a2: Option<string>)
    requires B.Normalize(c, p, a1).Ok? && B.Normalize(d, p, a2).Ok?
    ensures B.Readable(c.request.value) && B.Readable(d.request.value)
    ensures B.Normalize(c, p, a1).value.request == B.Normalize(d, p, a2).value.request
            <==> B.SameExchange(c.request.value, d.request.value)
    ensures B.Normalize(c, p, a1).value.url == c.url.value.text
    ensures B.Normalize(d, p, a2).value.url == d.url.value.text
  {
    hide B.Refusal, B.RequiredString, B.Canonical, B.Relevant, B.Mode, B.RawDuration;
    B.NormalFormDecidesMeaning(c, d, p, a1, a2);
  }

  /** The bucket field that the request gives or that is filled in for it. */
  function Filled(backend: Backend, bucket: string, request: B.Fields): B.Fields {
    if B.Bucket in request || backend == AzureBlob then request else request[B.Bucket := B.Str(bucket)]
  }

  /** Exactly which requests a resolver has a key for: those of its own family, for a valid
      bucket that the broker request does not contradict, whose broker configuration is one
      for Amazon, Google or Azure as the family demands, Azure's account being the one that
      the request itself names. */
  lemma AcceptedExactly(backend: Backend, r: Request)
    requires r.broker.Some?
    ensures var config := r.broker.value;
            KeyFor(backend, r).Ok? <==>
              && r.backend == backend && ValidBucket(r.bucket)
              && config.origin.Some? && config.origin.value.valid && B.UsableEndpoint(config.url)
              && config.request.Some?
              && (B.Bucket in config.request.value ==> config.request.value[B.Bucket] == B.Str(r.bucket))
              && var request := Filled(backend, r.bucket, config.request.value);
                 match backend
                 case S3 => B.Acceptable(request, B.Aws, None)
                 case Gcs => B.Acceptable(request, B.Gcp, None)
                 case AzureBlob =>
                   && B.AzureAccountName in request && request[B.AzureAccountName].Str?
                   && B.Acceptable(request, B.Azure, Some(request[B.AzureAccountName].s))
  {
    hide ValidBucket, B.Normalize, B.Acceptable, B.UsableEndpoint;
    var config := r.broker.value;
    if config.request.Some? {
      var request := Filled(backend, r.bucket, config.request.value);
      var account := if backend == AzureBlob then AccountOf(request) else None;
      B.AcceptedExactly(config.(request := Some(request)), ProviderFor(backend), account);
      if backend == AzureBlob && account.None? && B.AzureAccountName in request && request[B.AzureAccountName].Str? {
        NamelessIsRefused(request);
      }
    }
  }

  /** What a key is made of: the origin's address and reserved settings, the bucket, the
      broker's URL, and the normal form of the request with its bucket filled in. */
  lemma KeyIsMadeOf(backend: Backend, r: Request)
    requires r.broker.Some? && KeyFor(backend, r).Ok?
    ensures var key, config := KeyFor(backend, r).value, r.broker.value;
            && key.address == config.origin.value.address && key.reserved == config.origin.value.reserved
            && key.bucket == r.bucket && key.url == config.url.value.text
            && var request := Filled(backend, r.bucket, config.request.value);
               var normal := match backend
                             case S3 => B.Normalize(config.(request := Some(request)), B.Aws, None)
                             case Gcs => B.Normalize(config.(request := Some(request)), B.Gcp, None)
                             case AzureBlob =>
                               B.Normalize(config.(request := Some(request)), B.Azure, AccountOf(request));
               normal.Ok? && key.request == normal.value.request
  {
    hide ValidBucket, AccountOf, B.NormalizeRequest;
    var config := r.broker.value;
    var request := Filled(backend, r.bucket, config.request.value);
    var account := if backend == AzureBlob then AccountOf(request) else None;
    B.AcceptedBecomes(config.(request := Some(request)), ProviderFor(backend), account);
  }

  lemma NamelessIsRefused(request: B.Fields)
    requires AccountOf(request).None? && B.AzureAccountName in request && request[B.AzureAccountName].Str?
    ensures !B.Acceptable(request, B.Azure, Some(request[B.AzureAccountName].s))
  {
  }

  // ----- bound stores ----------------------------------------------------

  /** `BoundBackend`: a store that serves one bucket of one backend family. */
  datatype Store = Store(id: nat, backend: Backend, bucket: string)

  /** `BoundBackend::validate`. */
  predicate Admits(s: Store, r: Request) {
    r.backend == s.backend && r.bucket == s.bucket && r.broker.None?
  }
}
