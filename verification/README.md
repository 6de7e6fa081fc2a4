# Verified model of the Talon origin layer

This project models, in Dafny, the parts of Talon that stand between a cache and the object
stores it reads from, and proves what they promise. Its subjects are

- the **registry of dynamic stores**: callers race through a read lock and a re-check under the
  write lock, share one detached construction task per key, and meet it through a result cell and
  a notification (`Routing`, `Registry`);
- the **out-of-order read** that fills a destination from at most eight concurrent block segments,
  and the permit budget that all reads of a client share (`ReadPlan`, `ReadAssembly`, `Permits`);
- the **credential refresh**: a double-checked refresh under an async lock, with cancellation at
  every await, the background loop, and the arithmetic of their margins (`Refresh`);
- the **retry loop**, by itself and composed with a versioned origin, other writers and a network
  that loses and delays requests and answers (`Retry`, `RetryOrigin`);
- the **broker configuration** whose normal form decides which requests share a store
  (`BrokerConfig`);
- the **text and arithmetic** of the wire: object paths, byte ranges, listings, entity references,
  percent-encoding, listing URLs, the calendar and the Shared Key resource (`ObjectKeys`, `Http`,
  `Xml`, `Listing`, `Percent`, `Urls`, `Calendar`, `SharedKey`, over `Text`).

Each of the three protocols is a state with a list of events and a function `Apply` that performs one
event; an event that is not enabled changes nothing, so that *any* sequence of events is a run and a
theorem about `Run` is a theorem about every interleaving. Beside it stands a class with the fields
that the code keeps, whose methods are the code between two awaits. Each performs the event of its
name, keeps the invariant of the protocol as `Valid()`, and states what its section promises; the
methods `Resolve`, `Prepare` and `ReadToEnd` put them together into a whole call. Loops of the code are methods with loops, proved against a specification
function whose own properties are then lemmas.

The environment appears as parameters or as arbitrary choices: the answers of a broker or of an inner
HTTP client and the time they take, random draws, completion order, failures and cancellations.

`dafny verify dfyconfig.toml` checks the whole project.

Four statements that one might expect are false of the code. Each comes with the exact condition
under which it does hold.

- *A 412 means that the write did not land.* The guard against repeating a conditional write looks at
  the body, so a conditional PUT with an empty body is repeated, and the second attempt is refused
  because the first one landed (`RetryOrigin.RefusalIsHonestExactlyWhen`).
- *A compliant answer to a range that starts inside the object is accepted.* A short final block whose
  `Content-Range` gives `*` for the total is refused (`Http.RangeBodyIsComplete`).
- *One construction task per key exists at a time.* One is at work; a failed task that has already
  freed its key may still be publishing when its successor starts, and that is the only way
  (`Registry.FailedTaskMayOverlap`, `Registry.OverlapExactlyWhen`).
- *A call of `prepare` that fetched successfully leaves a valid credential.* It may run out between
  the broker's check and the installation (`Refresh.RefreshedMayBeExpired`,
  `Refresh.RefreshedIsValidExactlyWhen`).

## Model

| member | source | states |
|---|---|---|
| `Registry.RunKeeps` | crates/talon-backend/src/routing.rs:228-322 | every event sequence from a state that satisfies the registry invariant ends in one that does: maps disjoint and bounded, pending entries and live tasks in one-to-one correspondence, recorded results equal to the stored stores, and every caller's position justified |
| `Registry.RegistryStaysSound` | crates/talon-backend/src/routing.rs:242-306 | in every reachable state `stores` and `pending` share no key, hold at most 4096 together, and every pending key names a live task of its own |
| `Registry.CancelledIsGone` | crates/talon-backend/src/routing.rs:271-272 | a caller cancelled before its answer is dropped in every continuation, and maps, slots and all other callers are those of the run in which it just takes no further step |
| `Registry.CancelledBuildIsKept` | crates/talon-backend/src/routing.rs:271-303 | if the caller that registered a key is cancelled, the key is registered all the same, in every run in which its task finishes without failure and records |
| `Registry.SingleFlight` | crates/talon-backend/src/routing.rs:242-303 | of two tasks ever started for one key, at most one is at work, at most one ever succeeds, and while one is at work the other has failed |
| `Registry.AnswersAgree` | crates/talon-backend/src/routing.rs:228-322 | two callers of one key that were given a store were given the same store, and it is the one registered |
| `Registry.StoresAreKept` | crates/talon-backend/src/routing.rs:294-300 | no continuation of a run removes or replaces a registered store |
| `Registry.NoWaiterIsStranded` | crates/talon-backend/src/routing.rs:301-321 | a parked, unwoken caller waits for a task that has not yet notified; a woken one will find the result set; no caller enters its loop more than twice |
| `Registry.WaiterIsAnswered` | crates/talon-backend/src/routing.rs:273-321 | from every reachable state a waiting caller that is not cancelled is answered with its slot's result once the slot's task and then the caller have taken their steps in order, whatever steps of others come in between |
| `Registry.PendingKeyIsFreed` | crates/talon-backend/src/routing.rs:271-300 | a pending key is freed by its own task alone, and no caller's state changes |
| `Registry.FailedKeyCanBeRetried` | crates/talon-backend/src/routing.rs:254-300 | after a failed or panicking build the key is in neither map and there is room for it: the next caller under the write lock starts a new task, while the failed one has still to publish |
| `Registry.FailedTaskMayOverlap` | crates/talon-backend/src/routing.rs:294-303 | a run in which a failed task has not yet published while the next task for its key is building |
| `Registry.OverlapExactlyWhen` | crates/talon-backend/src/routing.rs:254-303 | while an earlier task of a key is unfinished, registering starts a second one exactly when the key is in neither map, and then the earlier one has recorded a failure and has yet to notify |
| `Registry.ResolvedStoreIsBound` | crates/talon-backend/src/routing.rs:282-293 | the store that a request resolves to admits a target exactly when it names the request's backend and bucket and no broker |
| `Registry.WakeAll` | crates/talon-backend/src/routing.rs:302-302 | notifying wakes every enabled or parked waiter of the slot, position by position, and nobody else |
| `Registry.DynamicBackends.LookUp` | crates/talon-backend/src/routing.rs:232-241 | keeps the invariant; a registered store answers the caller and is bound to the key's bucket, a pending key makes it wait for the live task of that key, and otherwise the key is in neither map |
| `Registry.DynamicBackends.TryRegister` | crates/talon-backend/src/routing.rs:242-270 | keeps the invariant and every pending entry; the caller ends answered by the registered store, waiting for the live task of its key, or refused by a full registry; a task is started exactly for a key in neither map with room left |
| `Registry.DynamicBackends.CheckResult` | crates/talon-backend/src/routing.rs:311-320 | keeps the invariant; a store that it answers with is the one registered for the caller's key, and a caller that it parks is in its first round and its task has yet to notify |
| `Registry.DynamicBackends.FinishBuild` | crates/talon-backend/src/routing.rs:273-293 | keeps the invariant; success, error and panic leave the key pending for this task, and a store is bound to the key's bucket |
| `Registry.DynamicBackends.RecordResult` | crates/talon-backend/src/routing.rs:294-300 | keeps the invariant; frees the key in both outcomes, registers it exactly on success, and leaves the stores and pending entries of all other keys |
| `Registry.DynamicBackends.NotifyWaiters` | crates/talon-backend/src/routing.rs:302-302 | the loop keeps the invariant and wakes every enabled or parked waiter of the slot and nobody else |
| `Registry.DynamicBackends.Resolve` | crates/talon-backend/src/routing.rs:228-322 | one caller from lookup to answer, in at most two rounds of its loop: a registered store is returned as it is, a store returned is the registered one, and no store is lost |
| `Routing.BucketMayBeOmitted` | crates/talon-backend/src/routing.rs:208-216 | leaving out the bucket field of a request to a family other than Azure changes neither acceptance nor key |
| `Routing.AcceptedExactly` | crates/talon-backend/src/routing.rs:196-226 | a request has a key exactly if it is for the resolver's family and a valid bucket that the broker request does not contradict, and its broker configuration is acceptable for Amazon, Google or Azure as the family demands, with the account that it names itself |
| `Routing.KeyIsMadeOf` | crates/talon-backend/src/routing.rs:518-530 | a key holds the origin's address and reserved settings, the bucket, the broker's URL and the normal form of the request with its bucket filled in |
| `Routing.KeyNamesItsBucket` | crates/talon-backend/src/routing.rs:196-226 | an accepted request's key carries the requested bucket, which is valid, both as the store's bucket and in the broker request |
| `Routing.KeysDecideSharing` | crates/talon-backend/src/routing.rs:518-530 | two accepted requests have one key exactly when bucket, broker URL and origin agree and, buckets filled in, they mean the same exchange |
| `BrokerConfig.NormalizeConfig` | crates/talon-backend/src/broker.rs:218-400 | the step-by-step normalization, with its early returns, equals its specification in every outcome and error |
| `BrokerConfig.AcceptedExactly` | crates/talon-backend/src/broker.rs:218-400 | a configuration is accepted exactly if its endpoint is a plain HTTP one, its mode and provider are known and match, every field that provider and mode require holds text, regions and Azure names have their shape, the Azure account is the expected one, and the duration in effect lies in 900..3600 or 1..3600 |
| `BrokerConfig.AcceptedBecomes` | crates/talon-backend/src/broker.rs:218-400 | what an accepted configuration becomes: URL and deadline kept, 3000 ms and 3600 s by default, one spelling of each mode, the five identity fields gone for the broker's own identity, every other field as it was |
| `BrokerConfig.RemoveIgnored` | crates/talon-backend/src/broker.rs:218-400 | the loop that removes fields leaves exactly the fields that the IAM mode does not ignore |
| `BrokerConfig.NormalizeIsIdempotent` | crates/talon-backend/src/broker.rs:218-400 | normalizing a normal form returns it unchanged |
| `BrokerConfig.NormalizeRespectsMeaning` | crates/talon-backend/src/broker.rs:218-400 | requests that mean one exchange (mode spelling, ignored identity fields, default durations) normalize alike, errors included |
| `BrokerConfig.NormalFormDecidesMeaning` | crates/talon-backend/src/broker.rs:218-400 | two accepted requests have one normal form exactly when they mean the same exchange |
| `ReadPlan.PlanTiles` | crates/talon-cache-client/src/read_plan.rs:40-64 | the segments follow one another without gap or overlap from start to end, none is empty, and each lies in one aligned block |
| `ReadPlan.PlanCount` | clients/rust/src/client.rs:594-600 | the number of segments is the rounded-up quotient that the client records before reading |
| `ReadPlan.Cursor.Next` | crates/talon-cache-client/src/read_plan.rs:43-64 | the lazy iterator hands out the plan's next segment, ends exactly at the end, and never overflows |
| `ReadAssembly.Assemble` | clients/rust/src/client.rs:604-638 | for every completion order: the read fails exactly if some segment of its plan does; otherwise the planned bytes are in place and the segments number the formula; nothing beyond the plan is touched; at most eight are pending |
| `ReadAssembly.ReadIntoResolved` | clients/rust/src/client.rs:566-638 | success returns min(destination, object end - offset), zero past the end, with exactly the object's bytes and the rest of the destination unchanged; the only errors are a blank version, which touches nothing, and a failing segment of the range |
| `ReadAssembly.ReadInner` | clients/rust/src/client.rs:483-519 | success returns exactly the window asked for, to the end of the object without a length; the argument is refused exactly when something is to be read and it exceeds the largest vector or names no version; otherwise the read fails exactly with a segment of it |
| `ReadAssembly.ReadExact` | clients/rust/src/client.rs:419-481 | success returns the whole range; the argument is refused exactly when it is longer than 1 MiB, overflows, leaves the object or names no version; otherwise the read fails exactly with a segment of it |
| `ReadAssembly.CompleteSettled` | clients/rust/src/client.rs:620-637 | when any pending segment completes, every byte handed out is still in flight or in place |
| `ReadAssembly.PushDisjoint` | clients/rust/src/client.rs:606-618 | handing out the next segment keeps the pending slices pairwise disjoint |
| `Permits.RunKeeps` | clients/rust/src/client.rs:604-676 | every sequence of events of any reads keeps the invariant: permits conserved in a fixed budget, at most eight pending segments over disjoint slices, and eight while the plan has more |
| `Permits.PermitsAreConserved` | clients/rust/src/client.rs:604-676 | after every run held plus available permits equal the budget, and each read has at most eight pending segments, exactly eight while it goes on and its plan has more, over pairwise disjoint slices of its range |
| `Permits.EndReturnsPermits` | clients/rust/src/client.rs:621-622 | a failed or cancelled read returns exactly the permits it held and disturbs no other read |
| `Permits.QuietClientIsWhole` | clients/rust/src/client.rs:641-676 | after every run that leaves nothing pending the whole budget is available, and every plan is exhausted but those of reads that failed or were dropped |
| `Permits.SomebodyCanMove` | clients/rust/src/client.rs:650-653 | while a segment waits, a permit is free or some segment holds one and can complete |
| `Permits.Client.OpenRead` | clients/rust/src/client.rs:604-618 | the priming loop keeps the invariant and hands out at most eight segments, none with a permit |
| `Permits.Client.Finish` | clients/rust/src/client.rs:621-636 | keeps the invariant; the segment's permit goes back to the budget, no other read is touched, and another segment is handed out exactly if the plan has one |
| `Permits.Client.Abort` | clients/rust/src/client.rs:621-622 | dropping the pending segments one by one keeps the invariant and returns all that the read held |
| `Permits.Client.ReadToEnd` | clients/rust/src/client.rs:604-638 | with one permit to be had a read by itself gets to the end of its range and leaves the budget as it was |
| `Refresh.DueBeforeExpiry` | crates/talon-backend/src/credentials.rs:161-173 | a credential is due no later than its expiry: by the set fraction of its lifetime where that lies between the margins, by at least the smallest margin where its lifetime allows it and at most the largest, and at once when less than the smallest is left |
| `Refresh.DelaysAreMonotone` | crates/talon-backend/src/credentials.rs:153-173 | a later expiry is not refreshed earlier, the due time never moves back as the clock moves on, and the background delay respects the retry interval |
| `Refresh.SleepsAreBounded` | crates/talon-backend/src/credentials.rs:153-158 | the background loop sleeps the retry interval after a failure, the interval for unknown expiry after a credential without one, and otherwise until the credential is due but at least the retry interval; it wakes before expiry unless less than that is left |
| `Refresh.LastGoodIsKept` | crates/talon-backend/src/credentials.rs:264-282 | through any number of failures the last success stays installed |
| `Refresh.RefreshingCredentials.Refresh` | crates/talon-backend/src/credentials.rs:255-283 | after any number of rounds the cells hold the last success, and each sleep is decided by the outcome before it |
| `Refresh.Bootstrap` | crates/talon-backend/src/broker.rs:478-508 | the first success among four fetches or the fourth error, with doubling waits of at most 700 ms in all |
| `Refresh.StepKeeps` | crates/talon-backend/src/broker.rs:514-540 | every event keeps the invariant that ties snapshot, lock, log of fetches and ended calls together |
| `Refresh.RunKeeps` | crates/talon-backend/src/broker.rs:514-540 | and so does every sequence of events, in particular from the state that `bootstrap` leaves |
| `Refresh.FetchesAreExclusive` | crates/talon-backend/src/broker.rs:514-540 | in every run at most one fetch is in flight, and the credential still in place was due when it started |
| `Refresh.EveryFetchIsPaced` | crates/talon-backend/src/broker.rs:518-524 | in the log of every run a fetch starts only with none in flight and the latest installed credential due, and every other entry ends the fetch in flight |
| `Refresh.SnapshotIsOneFetch` | crates/talon-backend/src/broker.rs:525-529 | in every run value and due time come from one fetch, the last that succeeded |
| `Refresh.ExpiredMeansFailed` | crates/talon-backend/src/broker.rs:205-212 | in every run a call that ends with an expired credential in place has itself fetched and failed, or installed one that ran out after the broker's check |
| `Refresh.RefreshedIsValidExactlyWhen` | crates/talon-backend/src/broker.rs:524-529 | a call that refreshed leaves a valid credential exactly when the broker's expiry is still ahead at the installation |
| `Refresh.RefreshedMayBeExpired` | crates/talon-backend/src/broker.rs:524-529 | a run, for every valid policy, in which it is not: the credential runs out on its way |
| `Refresh.LockIsReleased` | crates/talon-backend/src/broker.rs:520-540 | whoever holds the lock frees it by ending, with any answer checked at any time of the fetch, or by being dropped, and without an installation the snapshot stays |
| `Refresh.DroppedIsGone` | crates/talon-backend/src/broker.rs:467-472 | a call dropped before it ends never ends in any continuation, holds no lock, leaves the snapshot, and a fetch that it had in flight is abandoned |
| `Refresh.FailureIsRetried` | crates/talon-backend/src/broker.rs:531-537 | a failed fetch keeps the snapshot and its due time, and the next call in line fetches at once |
| `Refresh.BrokerCredentials.CheckFirst` | crates/talon-backend/src/broker.rs:515-517 | keeps the invariant; the call goes on exactly when the credential is not due, and then it has not expired |
| `Refresh.BrokerCredentials.CheckAgain` | crates/talon-backend/src/broker.rs:521-524 | keeps the invariant; a credential refreshed meanwhile is valid and frees the lock, and otherwise this call is the only one to fetch |
| `Refresh.BrokerCredentials.FinishFetch` | crates/talon-backend/src/broker.rs:524-539 | keeps the invariant and frees the lock with no fetch in flight; an accepted credential is in place, expired exactly if its expiry has passed and otherwise due by then; a refused one leaves the snapshot, which is still due |
| `Refresh.BrokerCredentials.DropCall` | crates/talon-backend/src/broker.rs:467-472 | keeps the invariant and the snapshot, frees the lock exactly if the call had it, and moves no other call |
| `Refresh.BrokerCredentials.Prepare` | crates/talon-backend/src/broker.rs:514-540 | a whole call with the lock free: nothing happens before the due time; after it exactly one fetch is made, and an expired credential is left in place only if the broker's answer was not accepted |
| `Retry.Execute` | crates/talon-backend/src/retry.rs:266-343 | the number of inner calls and the result are a function of the outcomes; a repeatable request stops early exactly at a response within its deadline whose status is none of 408, 429, 500, 502, 503, 504; the last outcome is returned as it is; one notice and one wait per retry; total time is that of the attempts under their deadlines plus the waits, hence at most max_retries + 1 deadlines and max_retries caps |
| `Retry.RepeatableExactly` | crates/talon-backend/src/retry.rs:61-77 | a request is repeated exactly if it has no body or no header that states a precondition, in any ASCII case |
| `Retry.OutcomeMeans` | crates/talon-backend/src/retry.rs:57-59 | exactly a missed deadline, a transport error and the six statuses are transient; within its deadline an attempt counts as it is |
| `Retry.BackoffIsBounded` | crates/talon-backend/src/retry.rs:246-261 | a wait is at most the cap, without a hint at most base times two to the capped attempt, and with a hint exactly the hint up to the cap |
| `Retry.RetryAfterIsObeyed` | crates/talon-backend/src/retry.rs:307-317 | a numeric `Retry-After` among any headers decides the wait after 429 and 503, up to the cap, and has no say after any other status or when it is no number |
| `Retry.EveryMilliIsDrawn` | crates/talon-backend/src/retry.rs:251-261 | full jitter: every whole millisecond up to the cap and base times two to the capped attempt is the wait for some draw |
| `Retry.PowersOfTwo` | crates/talon-backend/src/retry.rs:251-254 | the factor of the window starts at one, doubles with each attempt, and is 65536 at the sixteenth |
| `Retry.DeadlineScales` | crates/talon-backend/src/retry.rs:166-177 | a deadline is the floor plus exactly one second for every whole second that the transfer takes at the slowest rate, saturating, and just the floor without a rate |
| `RetryOrigin.ConditionalPutLandsOnce` | crates/talon-backend/src/retry.rs:72-77 | in every run a conditional PUT with a body is applied at most once; 412 means it did not land and 200 that it landed once |
| `RetryOrigin.RefusedForGood` | crates/talon-backend/src/retry.rs:18-24 | after such a 412 no continuation of the run applies the write |
| `RetryOrigin.UnconditionalPutLeavesOneContent` | crates/talon-backend/src/retry.rs:266-343 | an unconditional PUT is applied at most max_retries + 1 times, 200 means at least once, 412 never comes, and the object holds its content until somebody else writes |
| `RetryOrigin.RetriesLeaveOneApplication` | crates/talon-backend/src/retry.rs:21-24 | without other writers, any number of applications leaves the content of one |
| `RetryOrigin.RefusalIsHonestExactlyWhen` | crates/talon-backend/src/retry.rs:66-77 | 412 implies "not landed" in every run exactly unless the PUT is conditional, its body is empty and a retry is allowed |
| `RetryOrigin.SpuriousRefusal` | crates/talon-backend/src/retry.rs:66-77 | the run that shows it: the write lands, its answer is lost, the repetition is refused |
| `RetryOrigin.SentAgain` | crates/talon-backend/src/retry.rs:61-77 | a PUT may be sent again exactly when it carries no precondition header or no body |
| `RetryOrigin.ClientIsExecute` | crates/talon-backend/src/retry.rs:266-343 | a finished run of the composed client stops at the attempt and with the outcome at which `execute` stops for any inner client with the outcomes seen |
| `ObjectKeys.AcceptedPathIsStable` | crates/talon-backend/src/routing.rs:605-626 | URL reading (cut at `?` and `#`, backslash to slash, dot segments removed as in section 5.2.4 of RFC 3986) leaves the path of an accepted bucket and key as it is, component by component |
| `ObjectKeys.AcceptedPathsAreDistinct` | crates/talon-backend/src/routing.rs:544-554 | accepted targets that are read as one path are one bucket and one key |
| `ObjectKeys.KeysAcceptedExactly` | crates/talon-backend/src/routing.rs:605-626 | a key is accepted exactly if it is components joined by single slashes, none empty or dots or with a control or URL character, and does not end in a space |
| `ObjectKeys.BucketsAcceptedExactly` | crates/talon-backend/src/routing.rs:544-554 | a bucket name is accepted exactly if it is of ASCII letters, digits, dots, hyphens and underscores and neither `.` nor `..` |
| `ObjectKeys.TrimSlashesIs` | crates/talon-backend/src/azure.rs:210-224 | exactly the leading slashes of a key are taken off when its URL is built |
| `ObjectKeys.RefusedSuffixesAlias` | crates/talon-backend/src/routing.rs:612-616 | a query, fragment or space after a key would be read as the key alone |
| `ObjectKeys.ParentSegmentAliases` | crates/talon-backend/src/routing.rs:607-611 | a parent segment in a key would be read as the key without the segment before it |
| `Http.RangeBodyIsSound` | crates/talon-backend/src/http.rs:173-239 | for any 200 body that is the object and any 206 slice with a truthful header, the result is an error or exactly the window asked for |
| `Http.RangeBodyIsComplete` | crates/talon-backend/src/http.rs:173-239 | the compliant answer, short final block included, is accepted if it names the length; without the length exactly when the range ends inside the object |
| `Http.ContentRangeRoundTrip` | crates/talon-backend/src/http.rs:253-268 | parsing a printed `Content-Range` (section 4.2 of RFC 7233) returns its parts, for every range and known or unknown total |
| `Http.ParseContentRange` | crates/talon-backend/src/http.rs:253-268 | whatever is accepted has its start no later than its end |
| `Http.RangeHeaderRoundTrip` | crates/talon-backend/src/azure.rs:383-387 | the printed range is `bytes=` first-last, and the deadline decoder and the native transport's bound both read the length back if it does not saturate |
| `Http.RangeHeaderNeverOverflows` | crates/talon-backend/src/retry.rs:95-114 | for every offset and length the decoded length of the printed range is between 1 and the largest u64, and both decoders agree |
| `Http.RangedReadTransfer` | crates/talon-backend/src/retry.rs:95-114 | a request without a body that carries a printed range has its deadline sized by exactly the length |
| `Http.OtherTransfers` | crates/talon-backend/src/retry.rs:95-103 | a request with a body is sized by its length, one with neither body nor range by nothing |
| `Http.HeaderIsFirst` | crates/talon-backend/src/http.rs:92-97 | a header is looked up by its name in any ASCII case, the first one counts, and the lookup fails exactly when there is none |
| `Xml.UnescapeIsSinglePass` | crates/talon-backend/src/xml.rs:60-70 | the five successive replacements equal one left-to-right decoding on every string |
| `Xml.UnescapeUndoesEscaping` | crates/talon-backend/src/xml.rs:60-70 | unescaping recovers the text from every escaped form of it (section 4.6 of XML 1.0) |
| `Xml.ReferencesAre` | crates/talon-backend/src/xml.rs:64-69 | the five references and their characters |
| `Xml.Elements` | crates/talon-backend/src/xml.rs:24-41 | the scanning loop ends on every input and returns what the specification of the scan says |
| `Xml.ElementsAreTokenElements` | crates/talon-backend/src/xml.rs:24-41 | on every document of well-formed tokens the text scan returns the tokens between each opening tag and the next closing one |
| `Listing.AzureListingRoundTrip` | crates/talon-backend/src/azure.rs:334-376 | parsing any listing document that describes entries and a cursor, with names escaped in any way and unrelated markup anywhere, returns the blobs in order, directories with exactly one added slash where missing, or the error of the first record without a name or a usable size or with a directory that has content |
| `Listing.GcsListingRoundTrip` | crates/talon-backend/src/gcs.rs:124-165 | parsing any listing document with a root element that describes entries and a continuation token, flag and token standing before, between or after the records, returns the objects in order and the token, or the error of the first record without a name or a usable size |
| `Listing.GcsListingRefused` | crates/talon-backend/src/gcs.rs:125-160 | a document is refused exactly when it has no root, some record has no name or no usable size, its flag says neither word in any case, or it is truncated without a token |
| `Listing.AllWholeAreListed` | crates/talon-backend/src/gcs.rs:131-146 | all records are listed, in order, exactly if each has a name and a size |
| `Listing.RootIsFound` | crates/talon-backend/src/gcs.rs:125-129 | the text search for the root finds it exactly when the tokens open it, with any attributes, and close it |
| `Percent.EncodeQueryValue` | crates/talon-backend/src/azure.rs:42-53 | the loop over the bytes computes the encoding |
| `Percent.KeptExactly` | crates/talon-backend/src/azure.rs:42-53 | exactly letters, digits, `-`, `.`, `_` and `~` are kept, and every other byte becomes a percent sign and two upper-case hexadecimal digits |
| `Percent.DecodeUndoesEncode` | crates/talon-backend/src/gcs.rs:25-36 | percent-decoding undoes the encoding on every byte string |
| `Percent.EncodedHasNoDelimiter` | crates/talon-backend/src/gcs.rs:25-36 | encoded text holds no path or query delimiter |
| `Urls.AzureListUrl` | crates/talon-backend/src/azure.rs:277-316 | the URL returned, read back, has the scheme, host and container, the signature's own pieces last, and before them exactly the parameters of the listing: prefix and delimiter exactly if not empty, the marker exactly if a cursor is given, the count and the two fixed words |
| `Urls.AzureListUrlRoundTrip` | crates/talon-backend/src/azure.rs:277-316 | cutting the specified URL at `?`, `&` and `=` and decoding returns its parameters, and they say what was asked; a signature keeps its own pieces |
| `Urls.TrimMarksIs` | crates/talon-backend/src/azure.rs:308-308 | exactly the leading question marks of a signature are taken off |
| `Urls.GcsListUrl` | crates/talon-backend/src/gcs.rs:212-243 | the URL returned, read back, has the scheme, endpoint and encoded bucket and exactly the parameters of the listing in the dialect of the key kind: prefix exactly if not empty, the token exactly if a cursor is given, and the count |
| `Urls.GcsListUrlRoundTrip` | crates/talon-backend/src/gcs.rs:212-243 | cutting and decoding the query returns its parameters, and they say what was asked |
| `Urls.HmacPathRoundTrip` | crates/talon-backend/src/gcs.rs:187-204 | decoding the path piece by piece returns the bucket and the key without its leading slashes, for keys that hold `%`, `?` or `#` |
| `Urls.TrimSlashesIs` | crates/talon-backend/src/gcs.rs:189-189 | exactly the leading slashes of a key are taken off |
| `Calendar.CivilRefinesCalendar` | crates/talon-backend/src/azure_sharedkey.rs:46-57 | day 0 is 1970-01-01, and for every integer stepping n days in the Gregorian calendar is adding n |
| `Calendar.CountUndoesCivil` | crates/talon-backend/src/azure_sharedkey.rs:46-57 | the date computed for any integer is the calendar date with that day count |
| `Calendar.WeekdaysCycle` | crates/talon-backend/src/azure_sharedkey.rs:31-36 | the name of every day, from Thursday at the epoch |
| `Calendar.Rfc1123RoundTrip` | crates/talon-backend/src/azure_sharedkey.rs:26-43 | reading the printed IMF-fixdate (section 7.1.1.1 of RFC 7231) back gives the same second, up to the end of the year 9999 |
| `Calendar.Rfc1123Example` | crates/talon-backend/src/azure_sharedkey.rs:26-43 | the example of section 7.1.1.1 of RFC 7231, piece by piece |
| `SharedKey.CanonicalizedResource` | crates/talon-backend/src/azure_sharedkey.rs:69-87 | the loops print account, path and a grouping of the query: names lowercased and strictly increasing, each with exactly its values in sorted order, and no name missing |
| `SharedKey.GroupingIsCanonical` | crates/talon-backend/src/azure_sharedkey.rs:69-87 | the grouping is determined by the multiset of lowercased name and value pairs |
| `SharedKey.LeIsLexicographic` | crates/talon-backend/src/azure_sharedkey.rs:72-80 | the order of names and values is the lexicographic one, upwards |
| `SharedKey.ResourceIsDetermined` | crates/talon-backend/src/azure_sharedkey.rs:69-87 | account, path and the multiset of lowercased name and value pairs determine the text |
| `SharedKey.ResourceIgnoresQueryOrder` | crates/talon-backend/src/azure_sharedkey.rs:69-87 | every permutation of the query has the same text |
| `Text.ParsePrinted` | crates/talon-backend/src/http.rs:258-259 | parsing a printed number returns it exactly when it fits 64 bits |
| `Text.ParsesExactly` | crates/talon-backend/src/http.rs:258-259 | a text parses to a number exactly if it spells it in decimal, with any zeros and at most a plus sign in front, and the number fits 64 bits |
| `Text.TrimIs` | crates/talon-backend/src/http.rs:255-259 | trimming takes off white space at both ends and nothing else |
| `Text.LowerDecides` | crates/talon-backend/src/azure_sharedkey.rs:75-75 | lowercasing identifies exactly the texts that differ in ASCII case |

## Left out

- HMAC, SHA-256, base64 and request signing; only the canonicalized resource that is signed is modelled.
- Sockets, TLS and the HTTP clients themselves: an inner client is any function from attempts to outcomes.
- Placement, workers and the block reader behind a segment: reading a segment fills its slice exactly or fails.
- Cloud-specific construction of a store in `origin.rs`: a build succeeds or fails arbitrarily, and the effective origin enters a key as abstract data.
- Building static and legacy routes from a configuration, and lazy legacy discovery: wiring that would only add easy members.
- Readers between the two locks under which `RefreshingCredentials` installs a value and its expiry; the background loop is modelled as rounds, without them.
- Parsing and serializing JSON: broker requests are maps from fields to values, so the order of members is not modelled, and a key is the tuple of its parts instead of its text.
- URL parsing beyond the path rules named above, such as host syntax, and percent-encoding that a URL parser applies to other characters, which cannot merge two paths.
- Floating-point rounding of the refresh margin, which is computed over the reals, and drift between the two clocks, which are one.
- The random generator: a draw is any 64-bit number.
- Poisoned locks and panics outside a store's construction.
- Fairness of locks and permits: any waiter may be next, so the safety results hold for every queue discipline, and the progress results name the steps that lead to the answer instead of claiming that a scheduler takes them.
- Telemetry, metrics and logging, apart from the notices of retries.
- Retry.Execute: a delay cap of 2^64 - 1 milliseconds or more, for which the source's count of milliseconds overflows, is not distinguished; the model counts without bound there.
- ReadAssembly.ReadIntoResolved: the object's size is that of the version read, so a stat that lies about the size is not modelled.
