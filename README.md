# ai-dial-core: a verified model of the gateway's core rules

This project models, in Dafny, the parts of the DIAL gateway core whose behaviour is plain logic. It also proves properties of them.

- **Streaming parser.** The server-sent-events body parser (`EventStreamParser`) decodes the `data: <json>` lines of an upstream's streamed answer. It handles chunks cut at arbitrary points and stops at a `data: [DONE]` line. It is module `EventStream`: a byte-at-a-time scanner (`ByteStep`, `Run`) as specification, and the imperative class `EventStream.EventStreamParser`, with the source's fields and loops, proved to implement one call (`ParseChunk`). The main result is that the decoded lines depend only on the bytes of the body and not on where chunk boundaries fall. The one exception is the byte-order mark, which is dropped only from the very first chunk.
- **Rate limits.** Request admission checks an hourly and a daily rolling window (`RequestRateLimit`). It is module `RateLimiting`, a class over two buckets with a reference model of the bucket.
- **Upstream failover.** The failover route over a deployment's upstreams (`UpstreamRoute`) is module `Upstreams`. Its tests fix its behaviour.
- **Entity tags.** Conditional-request matching on entity tags (`EtagHeader`) for the If-Match and If-None-Match headers is module `Etags`. It follows the behaviour the tests fix, which differs from RFC 9110 in the ways listed under "Left out".
- **Publications.** Publication bookkeeping (`PublicationService`) is module `Publications`. It covers:
  - request validation: target folder, resources, duplicate URLs and rules;
  - the store of publications plus the public index of publications awaiting review;
  - the PENDING → APPROVED / REJECTED workflow;
  - metadata copies and link replacement.
- **Deployments.** The deployment listing and lookup, and the construction of a deployment's feature flags (`DeploymentController`), are module `Deployments`.
- **Request keys.** The per-request key data (`ApiKeyData`) is module `ApiKeys`. It covers key inheritance, the execution path of nested calls and the interceptor predicate.
- **Resource types.** The resource-type table and its decoder (`ResourceType`) are module `ResourceTypes`.
- **Application status.** The application function status, its predicates and its legacy aliases (`Application.Function.Status`) are module `Applications`.

Strings are `seq<char>` and raw bytes are `seq<bv8>`. The services the code calls are parameters of the model: JSON decoding, access checks, the storage lookups behind validation, and encryption. Each model says which parameters it takes.

Where the code and its surrounding documentation differ, the model follows the code:

- A failed `data: ` prefix match does not stop the parser for good. The state stays at the mismatching byte, and the next call continues from there. Chunk-boundary independence is therefore stated for sequences of calls in which no call failed.
- A request with rules but no resources passes the "nothing to publish" check. The loop over resources then dereferences the missing list. This is modelled as the error `MissingResources`.

## Model

| member | source | states |
|---|---|---|
| EventStream.EventStreamParser.constructor | server/src/main/java/com/epam/aidial/core/server/util/EventStreamParser.java:51-54 | a new parser is in the initial state: first chunk pending, EVENT stage, empty buffer, nothing emitted |
| EventStream.EventStreamParser.Parse | server/src/main/java/com/epam/aidial/core/server/util/EventStreamParser.java:56-90 | one call moves the parser exactly as `ParseChunk` does. It returns the same result (completion flag or failure) and emits its lines. The handler receives the decoded payloads of this call only. A completed parser answers `true` and keeps its futures |
| EventStream.EventStreamParser.ScanChunk | server/src/main/java/com/epam/aidial/core/server/util/EventStreamParser.java:69-79 | the byte loop consumes the rest of the chunk as the scanner specification `Run` does. It stops at a failure or once the stream is complete |
| EventStream.EventStreamParser.ScanStep | server/src/main/java/com/epam/aidial/core/server/util/EventStreamParser.java:69-79 | one dispatch on the stage makes progress (consumes a byte or moves to an earlier stage) and agrees with `Run` |
| EventStream.EventStreamParser.HandleEventStage | server/src/main/java/com/epam/aidial/core/server/util/EventStreamParser.java:92-103 | prefix matching agrees with `Run`. A mismatch fails with the state at the mismatching byte. A full match switches to DATA with the match counter reset |
| EventStream.MatchPrefix | server/src/main/java/com/epam/aidial/core/server/util/EventStreamParser.java:93-97 | the matching loop advances the chunk position and the match counter together. It ends at the end of the prefix or of the chunk, or fails at the first differing byte, and agrees with `Run` |
| EventStream.EventStreamParser.HandleDataStage | server/src/main/java/com/epam/aidial/core/server/util/EventStreamParser.java:105-128 | at a line end, `[DONE]` completes the stream and is not handed over. Any other line is emitted once, its decoded payload is added to the futures, and the buffer is emptied with the stage set to EOL. The result agrees with `Run` |
| EventStream.EventStreamParser.AccumulateBuffer | server/src/main/java/com/epam/aidial/core/server/util/EventStreamParser.java:134-143 | the buffer grows by exactly the bytes before the first line end. The result reports whether a line end was reached, and the position is left on it |
| EventStream.EventStreamParser.IsLastMessage | server/src/main/java/com/epam/aidial/core/server/util/EventStreamParser.java:145-156 | true exactly when the buffer is the bytes of `[DONE]` |
| EventStream.EventStreamParser.HandleEndOfLineStage | server/src/main/java/com/epam/aidial/core/server/util/EventStreamParser.java:158-167 | line-end bytes are skipped, and the first other byte switches back to EVENT without being consumed. The result agrees with `Run` |
| EventStream.SkipBom | server/src/main/java/com/epam/aidial/core/server/util/EventStreamParser.java:169-179 | skips 3 bytes exactly when the chunk starts with the whole byte-order mark, and nothing otherwise |
| EventStream.RunAppend | server/src/main/java/com/epam/aidial/core/server/util/EventStreamParser.java:30-44 | scanning `a + b` is scanning `a` and continuing from the state reached with `b`. This is why state carried across calls suffices |
| EventStream.FeedMatchesRun | server/src/main/java/com/epam/aidial/core/server/util/EventStreamParser.java:56-90 | after the first chunk, a sequence of calls fails exactly when one scan of the concatenated chunks fails. Otherwise it emits the same lines and ends in the same state |
| EventStream.ChunkBoundaryIndependence | server/src/main/java/com/epam/aidial/core/server/util/EventStreamParser.java:56-90 | from a new parser, any chunking of a body gives what one scan of the body gives, after dropping the first chunk's byte-order mark: the same failure verdict, and otherwise the same lines and final state |
| EventStream.SameBodySameLines | server/src/main/java/com/epam/aidial/core/server/util/EventStreamParser.java:56-90 | two chunkings of the same body whose first chunks drop the same mark give the same failure verdict, lines and final scanner |
| EventStream.SplitFrameYieldsOneLine | server/src/main/java/com/epam/aidial/core/server/util/EventStreamParser.java:105-143 | a framed line cut at any two places into three chunks yields exactly that line and no failure |
| EventStream.DecodeFramedStream | server/src/main/java/com/epam/aidial/core/server/util/EventStreamParser.java:56-128 | a chunk of framed lines followed by `data: [DONE]` yields exactly those lines and completes the stream, whatever bytes follow |
| EventStream.DoneIgnoresRest | server/src/main/java/com/epam/aidial/core/server/util/EventStreamParser.java:76-78 | once the scan reaches `[DONE]`, further bytes change nothing |
| EventStream.FeedAfterCompletion | server/src/main/java/com/epam/aidial/core/server/util/EventStreamParser.java:57-59 | after completion, every later call answers `true`, emits nothing and changes no state |
| EventStream.BomSkippedInFirstChunk | server/src/main/java/com/epam/aidial/core/server/util/EventStreamParser.java:62-66 | a first chunk that starts with the byte-order mark parses as the chunk without it |
| EventStream.BomFailsAfterFirstChunk | server/src/main/java/com/epam/aidial/core/server/util/EventStreamParser.java:62-66 | a later chunk that starts with the byte-order mark, arriving outside a data line, is a bad event |
| EventStream.RunLinesWellFormed | server/src/main/java/com/epam/aidial/core/server/util/EventStreamParser.java:105-128 | every emitted line contains no line end and is never `[DONE]` |
| EventStream.RunData | server/src/main/java/com/epam/aidial/core/server/util/EventStreamParser.java:134-143 | in DATA, bytes without a line end only extend the buffer |
| EventStream.ResumeAtEvent | server/src/main/java/com/epam/aidial/core/server/util/EventStreamParser.java:158-167 | by definition: in EOL, the first byte that is not a line end is scanned as the start of an event |
| EventStream.RunPrefix | server/src/main/java/com/epam/aidial/core/server/util/EventStreamParser.java:92-103 | at the start of the stream or between events, the bytes of `data: ` lead to the DATA stage with an empty buffer |
| EventStream.RunFrames | server/src/main/java/com/epam/aidial/core/server/util/EventStreamParser.java:92-128 | a run of framed lines emits exactly those lines, in order, and returns to the state between events |
| EventStream.RunDoneLine | server/src/main/java/com/epam/aidial/core/server/util/EventStreamParser.java:105-111 | `data: [DONE]` and a line end complete the stream without emitting anything |
| EventStream.EventByte | server/src/main/java/com/epam/aidial/core/server/util/EventStreamParser.java:93-97 | by definition: a matching byte advances the prefix match. A differing byte fails with the state at that byte |
| EventStream.RunAccumulate | server/src/main/java/com/epam/aidial/core/server/util/EventStreamParser.java:105-107 | the bytes collected before a line end are exactly what the buffer gains |
| EventStream.DataLineEnd | server/src/main/java/com/epam/aidial/core/server/util/EventStreamParser.java:108-127 | by definition: at a line end, `[DONE]` completes the stream. Any other buffered line is emitted, and scanning continues in EOL with an empty buffer |
| EventStream.DecodedAppend | server/src/main/java/com/epam/aidial/core/server/util/EventStreamParser.java:113-126 | the payloads handed to the handler for two runs of lines are those of the first run followed by those of the second |
| RateLimiting.RequestRateLimit.constructor | server/src/main/java/com/epam/aidial/core/server/limiter/RequestRateLimit.java:10-11 | a new limiter has an empty hour bucket and an empty day bucket |
| RateLimiting.RequestRateLimit.Check | server/src/main/java/com/epam/aidial/core/server/limiter/RequestRateLimit.java:13-30 | both buckets are advanced to the timestamp. The request is refused exactly when the hour total reaches its ceiling or the day total reaches its ceiling. A refused request is not counted and gets 429 with the larger of the two retry-after values. An admitted request is added to both buckets |
| RateLimiting.RequestRateLimit.Update | server/src/main/java/com/epam/aidial/core/server/limiter/RequestRateLimit.java:32-37 | both buckets are advanced and nothing is added. The statistics receive the hour total and the day total |
| RateLimiting.RateBucket.constructor | server/src/main/java/com/epam/aidial/core/server/limiter/RequestRateLimit.java:10-11 | a new bucket has no hits and the window length of its kind |
| RateLimiting.RateBucket.Update | server/src/main/java/com/epam/aidial/core/server/limiter/RequestRateLimit.java:14-15 | advancing a bucket reports the total of the hits inside the window ending at the timestamp, and keeps the hits |
| RateLimiting.RateBucket.Add | server/src/main/java/com/epam/aidial/core/server/limiter/RequestRateLimit.java:26-27 | adding records exactly one hit of the given count at the timestamp |
| RateLimiting.RetryAfterFrom | server/src/main/java/com/epam/aidial/core/server/limiter/RequestRateLimit.java:21-23 | the wait is the least delay, within the window, after which the rolling total is below the ceiling |
| RateLimiting.AddedHitCountedOnce | server/src/main/java/com/epam/aidial/core/server/limiter/RequestRateLimit.java:25-28 | an admitted request raises the window total by exactly its count |
| RateLimiting.AdmittedTotalBound | server/src/main/java/com/epam/aidial/core/server/limiter/RequestRateLimit.java:17-28 | admission compares the total before adding, so an admitted request can leave the total above the ceiling by less than its count, and does when its count exceeds the remaining room |
| RateLimiting.TotalNonIncreasing | server/src/main/java/com/epam/aidial/core/server/limiter/RequestRateLimit.java:14-17 | with no new hits, a window total never grows as time passes |
| RateLimiting.RefusedMeansWait | server/src/main/java/com/epam/aidial/core/server/limiter/RequestRateLimit.java:18-24 | for a window of positive length, the bucket's wait, in milliseconds and in whole seconds, is positive exactly when the window total has reached the ceiling |
| RateLimiting.RetryAfterSuffices | server/src/main/java/com/epam/aidial/core/server/limiter/RequestRateLimit.java:21-24 | for the reference bucket with a positive ceiling: at or after the reported wait, the total is below the ceiling |
| RateLimiting.RetryAfterCountsDown | server/src/main/java/com/epam/aidial/core/server/limiter/RequestRateLimit.java:21-24 | for the reference bucket with a positive ceiling: asking again k milliseconds later, within the wait, gives a wait k smaller |
| RateLimiting.RetryAfterAdmits | server/src/main/java/com/epam/aidial/core/server/limiter/RequestRateLimit.java:18-24 | for the reference buckets with positive ceilings: waiting the larger of the two retry-after values, in whole seconds, brings both totals under their ceilings, so the request is then admitted |
| RateLimiting.BothWaitsAdmit | server/src/main/java/com/epam/aidial/core/server/limiter/RequestRateLimit.java:18-24 | any time at or after both buckets' waits admits the request |
| RateLimiting.WaitEndAdmits | server/src/main/java/com/epam/aidial/core/server/limiter/RequestRateLimit.java:21-24 | at the end of the wait the total is below a positive ceiling |
| RateLimiting.WindowEmpties | server/src/main/java/com/epam/aidial/core/server/limiter/RequestRateLimit.java:14-17 | a full window after the last hit, the total is zero |
| RateLimiting.Seconds | server/src/main/java/com/epam/aidial/core/server/limiter/RequestRateLimit.java:21-24 | a millisecond wait rounded up to whole seconds: the seconds cover the wait by less than one second |
| RateLimiting.RecheckAfterRefusal | server/src/main/java/com/epam/aidial/core/server/limiter/RequestRateLimit.java:13-30 | a refused request leaves the buckets as they were, so repeating it at the same time gives the same refusal |
| Upstreams.UpstreamRoute.constructor | server/src/test/java/com/epam/aidial/core/server/upstream/UpstreamRouteTest.java:43-44 | a new route has tried nothing, holds no upstream and has count 0 |
| Upstreams.UpstreamRoute.Get | server/src/test/java/com/epam/aidial/core/server/upstream/UpstreamRouteTest.java:47-48 | returns an upstream of the route exactly when the route is available |
| Upstreams.UpstreamRoute.Next | server/src/test/java/com/epam/aidial/core/server/upstream/UpstreamRouteTest.java:45-78 | while attempts remain, it picks an untried upstream, holds it and raises the count by one. Otherwise it fails, drops the current upstream and keeps the count |
| Upstreams.UpstreamRoute.Fail | server/src/test/java/com/epam/aidial/core/server/upstream/UpstreamRouteTest.java:51-52 | records the failure and nothing else, so the route goes on |
| Upstreams.DriveToExhaustion | server/src/test/java/com/epam/aidial/core/server/upstream/UpstreamRouteTest.java:45-78 | over N upstreams, exactly N draws succeed. Each draw is an upstream of the route, and no index is drawn twice, so each upstream is tried once. The next draw fails with exhaustion, leaving the route unavailable, `Get` empty and the count at N |
| Upstreams.FourUpstreamsWithRetry | server/src/test/java/com/epam/aidial/core/server/upstream/UpstreamRouteTest.java:33-79 | the four-upstream scenario: counts 1 to 4, still available after the fourth, unavailable with count 4 after the fifth draw |
| Upstreams.TwoUpstreamsWithRetry | server/src/test/java/com/epam/aidial/core/server/upstream/UpstreamRouteTest.java:82-111 | the two-upstream scenario with 429 failures carrying a 30-second hint |
| Etags.ParseRendered | storage/src/test/java/com/epam/aidial/core/storage/util/EtagHeaderTest.java:23-27 | a comma-separated list of bare or quoted tags parses to exactly the set of those tags |
| Etags.SplitJoin | storage/src/test/java/com/epam/aidial/core/storage/util/EtagHeaderTest.java:24-26 | splitting comma-joined elements without commas gives back those elements |
| Etags.JoinSplit | storage/src/test/java/com/epam/aidial/core/storage/util/EtagHeaderTest.java:24-26 | joining the comma-separated elements of a header value gives back the value |
| Etags.SingleTagAccepted | storage/src/test/java/com/epam/aidial/core/storage/util/EtagHeaderTest.java:11-20 | a single If-Match tag, bare or quoted, accepts that tag |
| Etags.TagListMatching | storage/src/test/java/com/epam/aidial/core/storage/util/EtagHeaderTest.java:23-81 | an If-Match list accepts exactly its tags. An If-None-Match list refuses exactly its tags |
| Etags.AnyOrMissingAccepts | storage/src/test/java/com/epam/aidial/core/storage/util/EtagHeaderTest.java:30-39 | If-Match `*`, or no header at all, accepts any tag |
| Etags.NoOverwrite | storage/src/test/java/com/epam/aidial/core/storage/util/EtagHeaderTest.java:48-51 | If-None-Match `*` refuses any existing tag |
| Etags.BothHeaders | storage/src/test/java/com/epam/aidial/core/storage/util/EtagHeaderTest.java:54-63 | with both headers and a matching If-Match (list or `*`), the write is accepted exactly when the tag is not in the If-None-Match list |
| Etags.SingleTagScenarios | storage/src/test/java/com/epam/aidial/core/storage/util/EtagHeaderTest.java:11-20 | `123` and `"123"` accept `123` |
| Etags.SingleTagMismatch | storage/src/test/java/com/epam/aidial/core/storage/util/EtagHeaderTest.java:42-45 | `123` refuses `234` with 412 |
| Etags.QuotedListScenario | storage/src/test/java/com/epam/aidial/core/storage/util/EtagHeaderTest.java:23-27 | `"123","234"` accepts both `123` and `234` |
| Etags.NoneMatchListScenarios | storage/src/test/java/com/epam/aidial/core/storage/util/EtagHeaderTest.java:54-81 | the If-None-Match list cases: `299,123` with `235,326` and `*` with `235,326` accept `123`. `235,326` alone refuses `326` and accepts `123` |
| Etags.ParseList | storage/src/test/java/com/epam/aidial/core/storage/util/EtagHeaderTest.java:11-81 | by definition: `*` is any tag, otherwise the set of the non-empty elements' tags. ParseRendered states what it parses |
| Etags.ParseHeader | storage/src/test/java/com/epam/aidial/core/storage/util/EtagHeaderTest.java:11-81 | by definition: an absent or blank header imposes no condition |
| Etags.FromHeader | storage/src/test/java/com/epam/aidial/core/storage/util/EtagHeaderTest.java:11-81 | by definition: both headers parsed |
| Publications.ReviewPathIsReviewBucket | server/src/main/java/com/epam/aidial/core/server/service/PublicationService.java:62-64 | the location of a publication's review copies is recognised as a review bucket |
| Publications.PublicIsNotReviewBucket | server/src/main/java/com/epam/aidial/core/server/service/PublicationService.java:62-64 | by definition: a public location is never a review bucket |
| Publications.IsReviewBucket | server/src/main/java/com/epam/aidial/core/server/service/PublicationService.java:62-64 | by definition: a private bucket whose location contains the publications folder name |
| Publications.MetadataProjection | server/src/main/java/com/epam/aidial/core/server/service/PublicationService.java:626-638 | both metadata forms are idempotent and agree on the kept fields. Stripping loses only resources and rules |
| Publications.LeaveMetadata | server/src/main/java/com/epam/aidial/core/server/service/PublicationService.java:626-628 | by definition: the listing form, resources and rules dropped. MetadataProjection states its properties |
| Publications.ReplaceLink | server/src/main/java/com/epam/aidial/core/server/service/PublicationService.java:658-669 | a URL whose decoded path is a link becomes that link's target; any other URL, and a missing one, is kept. A missing URL stays missing, and a changed URL is one of the link targets |
| Publications.ReplaceLinkIdempotent | server/src/main/java/com/epam/aidial/core/server/service/PublicationService.java:658-669 | when no link target is itself a link source, replacing twice is replacing once |
| Publications.ReplaceLinkWithoutLinks | server/src/main/java/com/epam/aidial/core/server/service/PublicationService.java:658-669 | with no links, every URL is kept |
| Publications.RuleFailure | server/src/main/java/com/epam/aidial/core/server/service/PublicationService.java:465-485 | a rule list passes exactly when every rule has a function and a source, and has a non-empty target list unless its function is TRUE or FALSE. A failure is one of those three errors |
| Publications.ValidateRules | server/src/main/java/com/epam/aidial/core/server/service/PublicationService.java:465-485 | missing rules pass. Present rules pass exactly when every rule is complete |
| Publications.ValidateForAddition | server/src/main/java/com/epam/aidial/core/server/service/PublicationService.java:371-430 | an added resource is checked as the specification step says. Its source, target and review URLs must be new to the request, and all three are then claimed |
| Publications.ValidateForDeletion | server/src/main/java/com/epam/aidial/core/server/service/PublicationService.java:432-463 | a deleted resource is checked as the specification step says: it needs a target, passes the shape check, must be new to the request, and must be deletable by this user |
| Publications.ValidateResources | server/src/main/java/com/epam/aidial/core/server/service/PublicationService.java:342-356 | the loop checks the resources in order with one shared set of claimed URLs, and stops at the first failure |
| Publications.VerdictClaims | server/src/main/java/com/epam/aidial/core/server/service/PublicationService.java:342-356 | accepted resources keep their number and their actions. No URL is claimed twice across sources, targets and review copies. The claimed set is exactly the URLs of the accepted resources |
| Publications.VerdictErrExtends | server/src/main/java/com/epam/aidial/core/server/service/PublicationService.java:342-356 | a failure among the first resources is the verdict on the whole request |
| Publications.PrepareAndValidate | server/src/main/java/com/epam/aidial/core/server/service/PublicationService.java:307-369 | the checks run in the source's order: target folder, root-folder rules, nothing to publish, public folder, resources, access, rules. The result is the specification `Prepared` |
| Publications.Prepared | server/src/main/java/com/epam/aidial/core/server/service/PublicationService.java:307-369 | by definition: the first failing check, or the prepared publication. PreparedShape states what an accepted request becomes |
| Publications.PreparedShape | server/src/main/java/com/epam/aidial/core/server/service/PublicationService.java:307-369 | an accepted request is a PENDING publication at its new URL with the creation time, in a public folder. It has its name, types and rules, complete rules, no rules in the public root, one checked resource per requested one and no URL claimed twice |
| Publications.PublicationStore.Get | server/src/main/java/com/epam/aidial/core/server/service/PublicationService.java:124-138 | by definition: the stored publication, or not-found when there is none. Create's, Delete's and List's contracts state how it relates to them |
| Publications.PublicationStore.List | server/src/main/java/com/epam/aidial/core/server/service/PublicationService.java:76-89 | lists exactly the stored publications under the user's URL prefix. Each listed entry is what Get answers for its URL, without resources or rules |
| Publications.ListingsDisjoint | server/src/main/java/com/epam/aidial/core/server/service/PublicationService.java:76-89 | the listings of two different buckets share no publication |
| Publications.BucketPrefixesDisjoint | server/src/main/java/com/epam/aidial/core/server/service/PublicationService.java:76-89 | no URL lies under the prefixes of two different buckets |
| Publications.PublicationStore.Create | server/src/main/java/com/epam/aidial/core/server/service/PublicationService.java:140-174 | a refused request changes nothing. An existing URL in the user's file is refused. An existing index entry is refused after the user's file was written. Otherwise the publication and its metadata copy are stored, Get then answers the new publication, and it is in the bucket's listing. The store invariant is kept |
| Publications.PublicationStore.Delete | server/src/main/java/com/epam/aidial/core/server/service/PublicationService.java:176-210 | the index entry is removed whether or not it exists. The publication is removed and returned, or not-found is answered when it is absent. Afterwards Get answers not-found |
| Publications.PublicationStore.CommitApproval | server/src/main/java/com/epam/aidial/core/server/service/PublicationService.java:231-241 | the status becomes APPROVED only when the stored publication still equals the one fetched. Otherwise nothing changes |
| Publications.PublicationStore.Approve | server/src/main/java/com/epam/aidial/core/server/service/PublicationService.java:213-260 | approval succeeds exactly for a PENDING publication whose resources pass the check. It sets APPROVED and removes the index entry. An absent publication is not-found, a decided one is refused, and every failure changes nothing |
| Publications.PublicationStore.Reject | server/src/main/java/com/epam/aidial/core/server/service/PublicationService.java:263-305 | rejection succeeds exactly for a PENDING publication. It sets REJECTED and removes the index entry. An absent publication is not-found, a decided one is refused, and every failure changes nothing |
| Publications.Workflow | server/src/main/java/com/epam/aidial/core/server/service/PublicationService.java:140-305 | a created publication is PENDING and indexed. After approval it is APPROVED and out of the index. Approving or rejecting it again is refused |
| Deployments.CreateFeaturesFields | server/src/main/java/com/epam/aidial/core/server/controller/DeploymentController.java:100-145 | by definition, field by field: no features give the default data; each endpoint flag is set exactly when its endpoint is configured; each optional capability is copied when present and keeps its default otherwise |
| Deployments.CreateFeatures | server/src/main/java/com/epam/aidial/core/server/controller/DeploymentController.java:100-145 | by definition: the feature data built from the defaults and the configured features |
| Deployments.MissingLikeEmpty | server/src/main/java/com/epam/aidial/core/server/controller/DeploymentController.java:100-145 | missing features give the same data as an all-empty feature record exactly when the default data has no endpoint flag set |
| Deployments.CreateFeaturesIdempotent | server/src/main/java/com/epam/aidial/core/server/controller/DeploymentController.java:100-145 | building the data again from its own result and the same features changes nothing |
| Deployments.GetDeployments | server/src/main/java/com/epam/aidial/core/server/controller/DeploymentController.java:48-63 | the loop lists the data of the accessible models in configuration order |
| Deployments.AccessibleMembers | server/src/main/java/com/epam/aidial/core/server/controller/DeploymentController.java:52-57 | a model is listed exactly when it is configured and the user has access to it |
| Deployments.AccessibleInOrder | server/src/main/java/com/epam/aidial/core/server/controller/DeploymentController.java:52-57 | the listed models appear in configuration order |
| Deployments.GetDeployment | server/src/main/java/com/epam/aidial/core/server/controller/DeploymentController.java:32-46 | 404 exactly for an unknown id, 200 exactly for a known id the user may access, and 403 for a known id the user may not access. Only a 200 carries a body, and it is the data of the looked-up model |
| Deployments.FoundDeploymentIsListed | server/src/main/java/com/epam/aidial/core/server/controller/DeploymentController.java:32-63 | a deployment answered with 200 is also in the listing |
| ApiKeys.ApiKeyData.constructor | server/src/main/java/com/epam/aidial/core/server/data/ApiKeyData.java:27-46 | a new key record has nothing set and interceptor index -1, so it is not an interceptor |
| ApiKeys.InitFromContext | server/src/main/java/com/epam/aidial/core/server/data/ApiKeyData.java:54-77 | interceptors and initial deployment are always copied. A root request takes key, claims and trace from the context and starts the path at the project (or user hash) and the deployment. A nested request inherits key, claims and trace and extends the caller's path by the deployment. The source deployment is the path's last element. A nested caller without a path leaves the path untouched. The record is an interceptor afterwards exactly when it has a per-request key, the context has interceptors and its index is within them |
| ApiKeys.ApiKeyData.IsInterceptor | server/src/main/java/com/epam/aidial/core/server/data/ApiKeyData.java:80-82 | by definition: a per-request key, interceptors present and the index within them |
| ApiKeys.RootThenNested | server/src/main/java/com/epam/aidial/core/server/data/ApiKeyData.java:61-76 | a call made from a root request has the path caller, first deployment, second deployment, with the root's key and trace |
| ResourceTypes.OfGroup | server/src/main/java/com/epam/aidial/core/server/data/ResourceType.java:18-28 | decoding a type's group gives the type back for the six decodable types, and fails for the others |
| ResourceTypes.GroupsDistinct | server/src/main/java/com/epam/aidial/core/server/data/ResourceType.java:7-10 | the 13 types have pairwise distinct groups |
| ResourceTypes.OfRange | server/src/main/java/com/epam/aidial/core/server/data/ResourceType.java:19-27 | the decoder's range is exactly the six decodable types |
| ResourceTypes.Group | server/src/main/java/com/epam/aidial/core/server/data/ResourceType.java:7-16 | by definition: each type's group name in resource URLs. GroupsDistinct states that the names differ |
| ResourceTypes.Of | server/src/main/java/com/epam/aidial/core/server/data/ResourceType.java:18-28 | a decoded name is a decodable type whose group is that name. The result is None exactly when no decodable type has that group; the source throws IllegalArgumentException there |
| Applications.PendingExactly | config/src/main/java/com/epam/aidial/core/config/Application.java:50-55 | by definition: pending exactly for DEPLOYING and UNDEPLOYING |
| Applications.InactiveExactly | config/src/main/java/com/epam/aidial/core/config/Application.java:57-62 | by definition: inactive exactly for FAILED and UNDEPLOYED |
| Applications.PendingIsActive | config/src/main/java/com/epam/aidial/core/config/Application.java:50-62 | pending implies active. DEPLOYED is active and not pending |
| Applications.DecodeName | config/src/main/java/com/epam/aidial/core/config/Application.java:39-48 | every status decodes from its own name |
| Applications.LegacyAliases | config/src/main/java/com/epam/aidial/core/config/Application.java:40-47 | by definition: STARTING, STOPPING, STARTED, CREATED and STOPPED decode to DEPLOYING, UNDEPLOYING, DEPLOYED, UNDEPLOYED and UNDEPLOYED |
| Applications.DecodeOnlyKnown | config/src/main/java/com/epam/aidial/core/config/Application.java:39-48 | only the canonical names and the five aliases decode |
| Applications.IsPending | config/src/main/java/com/epam/aidial/core/config/Application.java:50-55 | by definition: pending for DEPLOYING and UNDEPLOYING |
| Applications.IsActive | config/src/main/java/com/epam/aidial/core/config/Application.java:57-62 | by definition: active for DEPLOYING, DEPLOYED and UNDEPLOYING |
| Applications.Decode | config/src/main/java/com/epam/aidial/core/config/Application.java:39-48 | by definition: the canonical names and the five JSON aliases, and None for any other name |

## Left out

- JSON parsing and UTF-8 decoding of stream lines. The decoder is a parameter, a partial function on byte lines. A line it rejects adds no payload, and the stage still becomes EOL.
- The futures returned by the handler and their joining. The model keeps the decoded payloads of the current call in order, and the emitted lines in a ghost sequence.
- The `synchronized` keyword of the parser, the event-loop threading and all concurrency. The model is sequential.
- The parser's initial `null` stage. The model starts in EVENT, which the first call sets anyway.
- RateLimiting.RateBucket: the source's bucket class is not part of this model, so `RateBucket` is the model's own reference bucket. It keeps every timed hit and sums a rolling window of one hour or one day in milliseconds. It does not model the source's fixed time slots. Its retry-after is the least wait, rounded up to whole seconds, after which the total is below the ceiling. The rows citing RequestRateLimit.java:21-24 state properties of this reference bucket, not of the source's bucket.
- The text of the 429 message. The model keeps the figures the message quotes.
- Overflow of `long` totals and timestamps. Integers are unbounded.
- The weighted random choice of `UpstreamRoute` and the propagation of retry-after hints. The implementation is not part of this model, and its tests do not fix them. A draw is an arbitrary untried upstream.
- The `EtagHeader` implementation is not part of this model. Its parser is the model's own, as the tests fix it: split on commas, trim whitespace, remove one pair of double quotes, ignore empty elements, and read `*` as any tag.
- Etags: unlike RFC 9110 section 8.8.3, bare (unquoted) tags are accepted. There are no weak `W/` tags and no weak comparison; tags are compared as plain strings.
- PublicationService's storage, copy, notification and rule services. Their answers are fields of `Services`: resource checks for additions, shape and permission checks for deletions, public access, encryption. The copying of review resources, the deletion of review copies in delete, and the storing of rules on approval are not modelled.
- The `ResourceDescription` URL-shape checks done by get, delete, approve, reject and list: type, public, folder and parent. URL normalization is the identity. The target-folder check is "starts with `public/` and ends with `/`".
- The rule-function enumeration, reduced to TRUE, FALSE and any other function.
- Publications.PublicationStore: the users' publication files are one map keyed by publication URL. A user's file is its part under `publications/<bucket>/`.
- The attached-files and attached-folders maps of the request context.
- `DeploymentController.selectDeployment`, which uses blocking execution, encryption and storage lookups.
- The legacy `ApiKeyData` in the config package, the file upload and download controllers, and the timer service.
- Deployments.CreateFeatures: the default feature data is a parameter. The source's defaults come from the features class, which is not part of this model.
