# Verified model of the registry's protocol and algorithm cores

This project models, in Dafny, the parts of an OCI container registry whose
correctness does not follow from reading one function: the policy verdict cache
against rule reloads, the edit-distance table of the typosquatting detector, the
event broker, path cleaning and storage keys, the Redis-backed store, the
in-memory blob store with Go's aliasing slices, the two byte pipelines, the
independent implementations of authorisation, the login lockout, peer
replication, usage metering, and the SQL statement splitter.

Concurrent code is a step system: a `State`, a `Step` for every action of every
process, `Next`, and `IsRun` for the runs that start in an initial state. The
theorems about it hold for the last state of every run, hence for every
reachable state. Loops that update variables are methods with loops, proved
against specifications that do not follow the loops. Objects are classes. Every
lemma switches automatic induction off, so its body is the whole proof.

| module | source | what is proved |
|---|---|---|
| `CleanPaths`, `StorageKeys`, `BlobKeys` | storage paths, layer extraction | the byte loop is the segment normaliser; containment; which keys collide |
| `EditDistance`, `PackageNames` | typosquatting detector | the greedy table gives the shortest edit script length, a metric; what normalising a name does |
| `SqlSplitter` | tenant provisioning | exact cuts, contents kept, splitting again changes nothing |
| `PolicyCache` | policy enforcement | every answer is right; no verdict of old rules outlives a reload, other reloads notwithstanding; age; which requests share a key |
| `EventBroker` | event hub | no send on a closed channel; order; what can be missed |
| `CachedStores`, `CacheStaleness` | cache-aside store | equal to the bare store in sequence; staleness under concurrency bounded exactly when the ttl is positive |
| `MemoryStore` | in-memory blobs | a map from path to bytes; readers keep their bytes under `append` |
| `ProxyPipe`, `StreamPipe` | byte pipelines | contents, no lost consumer, closing |
| `Scopes`, `ScopeClaims`, `LoginLockout` | authorisation | tokens never widen scopes; exactly which scopes claims widen; exactly when failures per window are bounded |
| `Replication`, `Metering` | peers, usage | blobs before manifests; every peer served and reported once; conservation of events |

## Assumptions

- Manifest rows are a map keyed by (repository, reference) and scan reports by
  (digest, scanner); repository and scanner names have no colon where the cache
  keys need it. Section "Pulling manifests" of the OCI Distribution
  Specification 1.1 gives repository names without colons.
- Time is monotone and is the same for Redis and the server. A policy verdict is
  as old as the instant its expiry was stamped.
- JSON decoding undoes JSON encoding. A transaction commits whole or not at all.
- Handles are not used after `Close`. `bytes.Buffer.Bytes` handed over by a
  closed writer is seen by nobody else, so it is modelled as a new array.
- A `char` is a byte, except where text is trimmed (`Scopes`, `ScopeClaims`,
  `SqlSplitter`): there it is a rune of valid UTF-8.
- `Clean`, `Join` and `Rel` are Go's documented lexical functions on a Unix
  system. `path.Join` skips empty elements and gives "" for none.
- What upload and the closing of its prefix return, whether a blob is stored, a
  writer opens or fails after some number of bytes, and whether the database
  takes a record, is arbitrary but given from the start of a run.
- The query that counts failed logins succeeds. The code ignores its error, and
  a failed query then counts as no failures (`internal/auth/handler.go`, line 69).
- A peer keeps the blobs it has accepted, and parsing a digest returns it
  unchanged.
- A CEL rule is an uninterpreted predicate on the facts of a request that may
  also end in an error; a Starlark decision and a database or network result are
  arbitrary.

## Where the code is weaker than its documentation

Each point is proved for all inputs, with the condition under which the code
does meet the property, in both directions.

- `SafeJoin` is said to re-anchor any key under the root. It fails for the empty
  root, and for the roots that clean to "." or "/" with every key that has a
  name, and for nothing else (`SafeJoinContained`).
- `BlobPath` confuses the digests "", "." and ".." with other blobs, and no other
  slash-free digests (`BlobDigestCondition`). A slash-free digest can meet an
  upload exactly when it has no colon (`UploadFreeExactly`).
- `RepositoryPath` is said not to repeat the namespace of a qualified repository.
  Applied twice it moves a path exactly when ".." has taken the path out of its
  namespace, unless that namespace climbs as often as it descends
  (`RepositoryPathExact`).
- `ScopesToAccess` is said never to grant more than the user holds. `Keeps` says
  of which stored scopes that is true (`WidensExactly`): a padded "*", a leading
  blank, a blank after a name without actions, a blank action list and a third
  colon each break it.
- The lockout counts failures of the name as sent but records access-token
  failures without the "-oci" suffix. A name's failures are bounded exactly when
  no access token is sent as that name with "-oci" behind it (`LockoutExact`).
- A proxied blob is recorded as complete although the client left early; it is
  complete if and only if the client had read it all (`RecordedIffRead`).
- Moving a path onto itself in the in-memory store deletes it (`Move`).
- Cached answers have a bounded age exactly when the ttl of their family is
  positive (`BoundedIffTtl`); the configuration replaces zero by a default.
- A policy cache key belongs to exactly one request without ':' in the method,
  '/' in the namespace and ':' in the repository, and every request that breaks
  this shares the key of another one (`SeparableExact`).

## Model

| member | source | states |
|---|---|---|
| `CleanPaths.CleanBytes` | internal/storage/path.go:28-31 | the one-pass byte loop documented for `Clean`, with its shrinking buffer and ".." mark, equals the segment-stack normaliser on every path |
| `CleanPaths.CleanIdempotent` | internal/storage/path.go:28-31 | a cleaned path is in normal form and cleaning it again changes nothing |
| `CleanPaths.RenderRoundTrip` | internal/storage/path.go:28-31 | printing a normal segment stack and parsing it back loses nothing |
| `StorageKeys.SafeJoinContained` | internal/storage/path.go:25-36 | for every root and key: the result is the cleaned root followed by proper names only, and failure happens exactly for the empty root, or roots "." and "/" with a key that has a name |
| `StorageKeys.ExtractionStaysBelow` | internal/scanner/layers.go:133-144 | a layer entry is rejected exactly when it is absolute, empty after cleaning or climbs; everything else lands strictly below the root, so the second check never rejects |
| `StorageKeys.RelBelow` | internal/scanner/layers.go:138-142 | `Rel` from a directory to a descendant is exactly the added names |
| `BlobKeys.BlobNames` | internal/storage/blob.go:7-9 | a blob's key is its repository's segments followed by its digest, also after `SafeJoin`'s cleaning |
| `BlobKeys.UploadNames` | internal/storage/blob.go:12-14 | an upload's key is its repository's segments, "uploads" and its uuid |
| `BlobKeys.BlobFilesDistinct` | internal/storage/blob.go:7-9 | distinct (repository, digest) pairs never share a file under any root |
| `BlobKeys.BlobDigestCondition` | internal/storage/blob.go:7-9 | a slash-free digest is told apart from all other blobs if and only if it is not "", "." or ".." |
| `BlobKeys.BlobIsNeverUpload` | internal/storage/blob.go:7-14 | a blob with a colon in its digest never lands on the file of an upload with colon-free repository and uuid |
| `BlobKeys.UploadCollides` | internal/storage/blob.go:7-14 | every blob of the repository "R/uploads" has the key of an upload of R |
| `BlobKeys.UploadFreeExactly` | internal/storage/blob.go:7-14 | a slash-free digest meets no upload with colon-free repository and uuid, from any clean repository and under any root, if and only if it has a colon |
| `BlobKeys.RepositoryUnderNamespace` | internal/storage/blob.go:18-23 | for a clean namespace and a repository without "..", the names of the result are the namespace's followed by the repository's own (less the namespace if it is already there), blanks and dots dropped |
| `BlobKeys.RepositoryPathInjective` | internal/storage/blob.go:18-23 | two such repositories get the same path if and only if they spell the same names below the namespace |
| `BlobKeys.RepositoryAlone` | internal/storage/blob.go:19-20 | without a namespace the path is the repository's own names |
| `BlobKeys.RepositoryPathIdempotent` | internal/storage/blob.go:18-23 | qualifying a repository twice is qualifying it once |
| `BlobKeys.RepositoryPathExact` | internal/storage/blob.go:18-23 | for every clean namespace and every repository, a second application changes nothing if and only if the path lies inside the namespace or the namespace has as many ".." as names |
| `EditDistance.Levenshtein` | internal/supplychain/validators.go:143-173 | the table's last entry is the length of a shortest insert/delete/substitute script |
| `EditDistance.Lipschitz` | internal/supplychain/validators.go:158-168 | neighbouring entries differ by at most one and the diagonal never decreases, which makes the greedy equal-byte step optimal |
| `EditDistance.LevIsDistance` | internal/supplychain/validators.go:143-173 | the greedy recurrence reaches some script's length and no script is shorter |
| `EditDistance.DistanceUnique` | internal/supplychain/validators.go:143-173 | there is only one shortest length |
| `EditDistance.DistanceIsMetric` | internal/supplychain/validators.go:143-173 | symmetry, the triangle inequality, and zero exactly for equal strings |
| `EditDistance.DistanceOne` | internal/supplychain/validators.go:188-190 | distance one is the same as different and one edit apart |
| `EditDistance.Check` | internal/supplychain/validators.go:176-194 | a name is reported exactly when it is not known itself and some known name is one edit from its normal form; the reported name is such a one |
| `PackageNames.ReplaceFirst` | internal/supplychain/validators.go:183-185 | replacing leaves what is before the first occurrence, puts the replacement there, and treats the rest alike |
| `PackageNames.ReplaceNone` | internal/supplychain/validators.go:183-185 | without an occurrence replacing changes nothing |
| `PackageNames.NormalizedIsNormal` | internal/supplychain/validators.go:182-185 | the three replacements in a row are one pass that reads "rn" as "m" and drops hyphens and underscores |
| `PackageNames.NormalClean` | internal/supplychain/validators.go:182-185 | no normal form has a hyphen or an underscore |
| `PackageNames.NormalFixed` | internal/supplychain/validators.go:182-185 | a name without "rn", hyphen and underscore is its own normal form |
| `PackageNames.NormalFirst` | internal/supplychain/validators.go:182-185 | the first "rn" of a name becomes "m" |
| `SqlSplitter.SplitSQL` | internal/tenancy/provision.go:449-497 | the whole splitter computes the pieces of the comment-free text and the trimmed rest |
| `SqlSplitter.ScanLines` | internal/tenancy/provision.go:455-486 | the line loop scans exactly the text of the lines that are not comments |
| `SqlSplitter.ScanLine` | internal/tenancy/provision.go:464-485 | the rune loop keeps pieces, current text and quote state equal to the scan of what was read |
| `SqlSplitter.SplitsAtUnquotedSemicolons` | internal/tenancy/provision.go:449-497 | a piece ends right after a semicolon outside quotes, every such semicolon ends one, and the statements concatenate to the comment-free text up to blanks around the last piece |
| `SqlSplitter.ConcatenationKept` | internal/tenancy/provision.go:456-462 | no line of the concatenated statements is a comment line |
| `SqlSplitter.SplitAgain` | internal/tenancy/provision.go:449-497 | splitting the concatenated statements gives the same list |
| `PolicyCache.QuietCacheIsCurrent` | internal/policy/cel.go:94-102 | in every interleaving, when no reload is between its swap and the end of its clearing, every cached verdict is what the rules installed now say |
| `PolicyCache.NeverOlderThanReload` | internal/policy/cel.go:94-104 | once a reload has returned, with any number of others running, every cached verdict comes from the rules it had listed or later ones |
| `PolicyCache.AnswersRight` | internal/policy/cel.go:147-251 | in every interleaving each answer is to the request asked, and is: true where an empty rule set was installed, the verdict of the entry served, or what the rules evaluated say of facts of this request |
| `PolicyCache.EvaluatesRulesInForce` | internal/policy/cel.go:219-244 | from taking the read lock until the verdict is stored the rules evaluated are the ones installed |
| `PolicyCache.ServedExactly` | internal/policy/cel.go:159-169 | a cached entry answers exactly if it was stamped less than 30 seconds ago |
| `PolicyCache.FastExactly` | internal/policy/cel.go:147-155 | evaluation is skipped exactly when no rule is installed |
| `PolicyCache.ServedVerdicts` | internal/policy/cel.go:158-170 | a verdict from the cache is less than 30 seconds old, was right for an installed rule set, and belongs to the same key, so to the same separable request |
| `PolicyCache.StepKeeps` | internal/policy/cel.go:219-244 | every step of every request and reload keeps the invariant of lock, cache, answers and clearing |
| `PolicyCache.KeyInjective` | internal/policy/cel.go:158-158 | requests with a colon-free method, slash-free namespace and colon-free repository have distinct keys |
| `PolicyCache.KeyCollides` | internal/policy/cel.go:158-158 | every request shares its key with a separable one, another one if it is not separable itself |
| `PolicyCache.SeparableExact` | internal/policy/cel.go:158-158 | a request is told apart from all separable ones if and only if it is separable |
| `EventBroker.NeverSendsOnClosed` | internal/events/broker.go:33-62 | no interleaving of publishers, subscribers and unsubscribers sends on or closes a closed channel |
| `EventBroker.InOrderWithoutDuplicates` | internal/events/broker.go:33-47 | what a subscriber received and still has buffered holds each publisher's events in order and at most once |
| `EventBroker.PayloadsKept` | internal/events/broker.go:33-47 | the n-th event received from a publisher carries the n-th payload it was given to publish |
| `EventBroker.MissedOnlyIfFull` | internal/events/broker.go:41-46 | after a publish every subscriber registered during it has the event, unless its 64 slots were full when it was offered |
| `EventBroker.RegisteredThroughout` | internal/events/broker.go:39-62 | the subscribers of a publish in progress are exactly those registered at every moment of it |
| `CachedStores.ManifestKeyInjective` | internal/cache/redis.go:120-122 | manifest keys of colon-free repositories are distinct |
| `CachedStores.ScanKeyInjective` | internal/cache/redis.go:130-132 | scan report keys of colon-free scanner names are distinct |
| `CachedStores.KeyFamiliesDisjoint` | internal/cache/redis.go:112-132 | a manifest key is never a scan report key |
| `CachedStores.ManifestChange` | internal/cache/cached_db.go:82-109 | after a change at one manifest the cache is truthful everywhere if and only if it is truthful there |
| `CachedStores.ReportChange` | internal/cache/cached_db.go:112-151 | the same for a scan report |
| `CachedStores.CachedStore.constructor` | internal/cache/cached_db.go:26-33 | an empty cache is truthful |
| `CachedStores.CachedStore.GetManifest` | internal/cache/cached_db.go:36-79 | answers what the database holds, from the cache or not, and keeps the cache truthful |
| `CachedStores.CachedStore.PutManifest` | internal/cache/cached_db.go:82-95 | writes the row, and leaves the cache truthful exactly when the invalidation took effect, nothing was cached, or the same manifest was |
| `CachedStores.CachedStore.DeleteManifest` | internal/cache/cached_db.go:98-109 | removes the row, and leaves the cache truthful exactly when the invalidation took effect or nothing was cached |
| `CachedStores.CachedStore.GetScanReport` | internal/cache/cached_db.go:112-135 | answers what the database holds and keeps the cache truthful |
| `CachedStores.CachedStore.SaveScanReport` | internal/cache/cached_db.go:138-151 | writes through; truthful exactly when the cache took the report, held none, or held the same bytes |
| `CachedStores.CachedStore.Evict` | internal/cache/redis.go:72-78 | losing any entry keeps the cache truthful |
| `CachedStores.Apply` | internal/cache/cached_db.go:36-151 | one call answers and changes the rows as the bare store would |
| `CachedStores.RunLikeBare` | internal/cache/cached_db.go:36-151 | for every sequence of calls and evictions all answers and the final rows are the bare store's |
| `CacheStaleness.KeysApart` | internal/cache/redis.go:120-132 | manifests of colon-free repositories and reports of colon-free scanners, taken together, all have distinct keys |
| `CacheStaleness.BoundedStaleness` | internal/cache/cached_db.go:36-151 | in every interleaving over all rows, with failed cache calls and evictions, each value served was that row's, less than ttl plus one fill or save latency before if its ttl is positive, and a row reported missing is missing |
| `CacheStaleness.CallsDone` | internal/cache/cached_db.go:36-151 | every finished read got an answer, every finished write or delete reached its row |
| `CacheStaleness.FamilyTtls` | internal/cache/cached_db.go:74-147 | the bound of a manifest is the manifest ttl's, that of a scan report the report ttl's |
| `CacheStaleness.UnboundedWithoutTtl` | internal/cache/cached_db.go:82-95 | for every row whose ttl is zero a value can be served arbitrarily long after the row stopped holding it, after one lost cache call |
| `CacheStaleness.BoundedIffTtl` | internal/config/config.go:423-431 | for every row a bound on the age of its answers exists if and only if its ttl is positive |
| `MemoryStore.Append` | internal/storage/memory.go:118-119 | Go's `append` gives old contents plus new bytes, in place or copied, and writes only past the end of its argument |
| `MemoryStore.MemoryReader.Read` | internal/storage/memory.go:43-43 | successive reads return successive bytes of what was present at opening |
| `MemoryStore.MemoryProvider.CloseWriter` | internal/storage/memory.go:97-102 | the abstract map gets the written bytes and every reader keeps its own |
| `MemoryStore.MemoryProvider.CloseAppender` | internal/storage/memory.go:114-121 | one file grows by the appended bytes (or appears), no other file changes, and every open reader still sees what it opened |
| `MemoryStore.MemoryProvider.BeyondTheEnd` | internal/storage/memory.go:118-119 | writing past the end of one file in its own array is noticed by no file and no reader |
| `MemoryStore.MemoryProvider.Reader` | internal/storage/memory.go:30-44 | not found exactly for a missing path, a panic exactly for a negative offset; otherwise the reader holds the file from the offset on, nothing past its end |
| `MemoryStore.MemoryProvider.Delete` | internal/storage/memory.go:54-59 | the path leaves the map, open readers stay intact |
| `MemoryStore.MemoryProvider.Move` | internal/storage/memory.go:61-73 | fails exactly for a missing source; otherwise the destination gets the bytes and the source goes, even when both are the same path |
| `MemoryStore.MemoryProvider.Stat` | internal/storage/memory.go:75-85 | the length of the file, or not found |
| `MemoryStore.Rename` | internal/storage/memory.go:70-71 | pointing the destination at the source's array and dropping the source keeps files apart and readers within their file |
| `ProxyPipe.CachedBytes` | internal/proxy/registry_proxy.go:188-201 | bytes cached are a prefix of the upstream body, and all of it once the copy is over if the client read to EOF, the blob was not stored already, a writer opened and took it all |
| `ProxyPipe.RecordedAtTheEnd` | internal/proxy/registry_proxy.go:224-250 | when the goroutine is done, exactly what the client had read is recorded if storage and database worked, and nothing if the blob was there already, no writer opened or the database failed |
| `ProxyPipe.BlockedClientHasConsumer` | internal/proxy/registry_proxy.go:191-199 | a client blocked in a pipe write always has a goroutine that can move, and all its moves take bytes or come closer to taking them |
| `ProxyPipe.RecordedIffRead` | internal/proxy/registry_proxy.go:238-248 | the bytes recorded are exactly those the client had read, so the blob is whole if and only if the client read it all |
| `ProxyPipe.TruncatedBlobRecorded` | internal/proxy/registry_proxy.go:303-306 | for every body, a client that closes at once leaves an empty blob recorded |
| `StreamPipe.UploadSeesEverything` | internal/storage/stream.go:10-39 | an upload that read to EOF saw the prefix and then, in the order they were started, the bytes each `Write` reported of its buffer, with the part taken of one in progress; a `Write` without error reported its whole buffer |
| `StreamPipe.WholeUpload` | internal/storage/stream.go:10-39 | if no `Write` that was let in failed, the upload saw the prefix and their buffers, in order |
| `StreamPipe.PrefixOutlivesUpload` | internal/storage/stream.go:17-23 | the prefix is closed only after upload has returned |
| `StreamPipe.ClosesAgree` | internal/storage/stream.go:41-52 | every `Close` gives upload's error, else the prefix's, all alike, and the prefix has been closed |
| `StreamPipe.CloseCompletes` | internal/storage/stream.go:17-52 | once upload has returned, a `Close` in progress is never stuck: some step uses up remaining work until it can answer |
| `StreamPipe.LeftNeverGrows` | internal/storage/stream.go:17-52 | no step of any process adds to the work `Close` waits for |
| `Scopes.MatchesScope` | internal/auth/handler.go:345-399 | the matcher with its action set decides type, name pattern and coverage of all requested actions |
| `Scopes.AllowsFewerActions` | internal/auth/handler.go:377-396 | a scope that covers an action list covers each of its actions, and everything if "*" was covered |
| `Scopes.ExtractRepo` | internal/auth/middleware.go:278-290 | the repository of a path is the part before the first listed endpoint marker that occurs, without the API prefix, "*" when nothing is left |
| `Scopes.CutUnique` | internal/auth/middleware.go:279-284 | that cut is determined by the path |
| `Scopes.RepoUnique` | internal/auth/middleware.go:278-290 | so the two copies of the loop agree on every path |
| `Scopes.BasicBranch` | internal/auth/middleware.go:95-106 | the Basic decision: an open path, "*", or a scope that allows the action on the repository |
| `Scopes.BasicVerbs` | internal/auth/middleware.go:266-275 | through Basic auth a pull scope opens a repository to all methods but POST, PUT, PATCH and DELETE, a push scope to exactly these; open paths aside |
| `Scopes.BearerVerbs` | internal/auth/middleware.go:266-275 | the same of a token with one entry |
| `Scopes.BearerBranch` | internal/auth/middleware.go:139-197 | the Bearer decision over the token's access entries |
| `Scopes.TokenGrant` | internal/auth/handler.go:220-276 | which access entries a token request gets, or that it is forbidden |
| `Scopes.TokenNeverWidens` | internal/auth/handler.go:229-276 | for every scope list, requested scope, path and method, what an issued token passes the same scopes pass through Basic auth |
| `ScopeClaims.FilterInPlace` | internal/auth/token.go:112-118 | filtering into the array being read gives the trimmed non-blank actions of the original |
| `ScopeClaims.ScopesToAccess` | internal/auth/token.go:95-126 | the loop with its early return computes the entries of the scopes |
| `ScopeClaims.ClaimsExactly` | internal/auth/token.go:97-123 | for every scope: which entry it becomes, with its type, name and exactly the trimmed actions it lists, "pull" if it lists none |
| `ScopeClaims.ClaimsNeverWiden` | internal/auth/token.go:92-95 | for scopes that satisfy `Keeps`, what the claims grant on a repository "*" or some stored scope allows |
| `ScopeClaims.WellFormedKeeps` | internal/auth/token.go:87-90 | scopes without surrounding blanks, with at most two colons and no blank action list satisfy `Keeps` |
| `ScopeClaims.WidensExactly` | internal/auth/token.go:95-126 | every stored scope whatsoever claims no more than it allows if and only if it satisfies `Keeps`, a condition on its blanks, colons and action list |
| `ScopeClaims.LeadingBlankWidens` | internal/auth/token.go:98-98 | every scope with a leading blank and at least two parts claims an entry of its type while the matcher denies everything of that type |
| `ScopeClaims.ThirdColonWidens` | internal/auth/token.go:105-105 | an action hidden behind a third colon is granted though the matcher denies it |
| `LoginLockout.LockoutBound` | internal/auth/handler.go:67-73 | with at most k requests for a name in flight and no access token sent as the name with "-oci" behind it, no fifteen-minute window ever holds more than 9+k failures of the name |
| `LoginLockout.SequentialBound` | internal/auth/handler.go:67-73 | one request at a time: at most ten |
| `LoginLockout.BoundReached` | internal/auth/handler.go:67-73 | for every name and k, k password logins at a time can record 9+k failures in one window, so the bound is exact |
| `LoginLockout.AdmittedExactly` | internal/auth/handler.go:67-73 | in every run a login is let in exactly when fewer than ten failures of its name are on record since fifteen minutes before it came |
| `LoginLockout.SuffixEvades` | internal/auth/handler.go:78-126 | for every name, one sequential client that sends it with the suffix and a token records any number of failures for it in one window |
| `LoginLockout.LockoutExact` | internal/auth/handler.go:67-126 | whatever kinds of requests are admitted, the bound holds for a name if and only if access tokens sent as the name with "-oci" behind it are not |
| `Replication.CollectDigests` | internal/sync/manager.go:275-283 | exactly the digests of the array items that have one |
| `Replication.ParseManifestLayers` | internal/sync/manager.go:259-304 | fails exactly when the payload does not parse; otherwise config and layers are exactly the digests the manifest refers to for its media type |
| `Replication.BlobsBeforeManifest` | internal/sync/manager.go:209-243 | over every run with any workers, failures and retries, a peer holds every digest of a manifest before it receives the manifest |
| `Replication.EveryPeerSettled` | internal/sync/manager.go:126-206 | every job accepted is queued, with a worker or finished; at each peer a worker is past, the job was reported exactly once if the peer pushes and the policy agreed, not at all otherwise, and as a success exactly if the peer acknowledged the manifest fetched last, else after three failed attempts or a cancellation |
| `Replication.AcknowledgedIsReceived` | internal/sync/manager.go:237-240 | an acknowledged manifest is among those the peer received |
| `Replication.AttemptsPeersAndMetrics` | internal/sync/manager.go:126-206 | at most three attempts per job and peer, only push and bidirectional peers are contacted or receive anything, and the metrics count the reports, successes those of acknowledged pushes |
| `Replication.ReceiptKept` | internal/sync/manager.go:225-240 | every action of a worker keeps received manifests complete |
| `Replication.LedgerKept` | internal/sync/manager.go:484-503 | every action of a worker keeps contacts to push peers and the metrics consistent |
| `Metering.NothingLostOrInvented` | internal/tenancy/metering.go:53-60 | every event was tracked exactly as often as it is cached, in flight, stored or in a rolled-back batch, and the table holds exactly the whole batches of committed flushes |
| `Metering.FlushStoresItsBatch` | internal/tenancy/metering.go:76-122 | a flush that is over and had no failed database call has stored every event of its batch |
| `Metering.FlushGoesOn` | internal/tenancy/metering.go:102-121 | a running flush can insert what is left, and commit once nothing is |
| `Metering.StoredAtMostOnce` | internal/tenancy/metering.go:76-122 | an event tracked once is never stored twice |

## Left out

- Command line, web front end, deployment scripts, server wiring, configuration defaults, logging and health checks: plumbing.
- Cloud token providers, LDAP, Vault, OIDC, JWT signing and password hashing: foreign calls; a login or a parsed token is an arbitrary outcome.
- The CEL, Starlark, Redis and SQL engines: a rule is a predicate, Redis an expiring map, a transaction all or nothing.
- Lookups of signatures and vulnerability counts before a policy evaluation: the facts handed to the rules are arbitrary.
- The writer preference of `sync.RWMutex` and fairness of any lock: only safety under all schedules and, for the pipes, absence of stuck states are claimed.
- `ProtectAdmin` and the pass-through methods of the stores: easy members.
- The namespace and digest filters of the two event streams: they only drop events after they were received.
- Repository and blob lookups of the proxy before streaming starts, and manifest caching: no shared state.
- Closing a proxied body while another goroutine is inside a `Read` of it: the handlers read and close from one goroutine.
- Database errors in the cache-aside store: the call then returns before it touches the cache. Repositories and scanner names with a colon are not covered.
- Manifest lists: sub-manifests go through the blob path, and only the digests extracted are claimed about; the manifest of a sub-image is not followed.
- Rolling average latency and time stamps of the replication metrics.
- Dollar-quoted SQL bodies and comments after code: the splitter does not know them.
- Queries over stored usage, quotas, supply-chain scoring, severity counting, secret detection and user-agent parsing: easy or resting on a regular-expression library.
- Writing extracted layer files to disk: only the path check is modelled.
