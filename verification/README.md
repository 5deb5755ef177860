# Verified model of gooners

gooners is a set of MCP servers written in Go: a gateway that aggregates upstream servers, an SSH session
pool with file transfers, blob stores, a Grafana dashboard builder and an OAuth facade. This project models
the parts whose correctness depends on interleavings or on state that several operations share, and proves
what they guarantee. `dafny verify dfyconfig.toml` checks everything.

There is one module per component. Concurrent components are step machines: a step is one critical section or
one action between two of them, a run is any sequence of enabled steps, and the results hold in every reachable
state. Where the program keeps an object that its methods update, the model has a class with those fields, and
each critical section is a method tied to the function the machine uses. Sequential algorithms are methods with
the program's loops, proved against an independent reference definition.

| module | component |
|---|---|
| Upload | the pipelined upload: one reader, many writers, recycled buffers |
| Lifecycle | an upstream's calls, drain, Close, dialer and supervisor |
| Registry | who owns each exposed name, and what clients see |
| Scope | scoped credentials, tool calls and tool discovery |
| Secrets, Reload | secret references and live reload of the configuration |
| Router | the byte trie router and the route table |
| Jobs | transfer jobs and the pool's event loop |
| BlobStore, S3Keys | the HTTP blob store; bucket keys |
| Layout, LayoutFlow | dashboard rows and panels; what their flow and their moves keep |
| LogSplitter | splitting log output into bounded lines |
| Collisions | the name-collision check of a build |
| OAuth | authorization codes and access tokens |
| Redactor | replacing windows of high entropy |

## Where the code does not do what it says

For each, one lemma gives a run or an input that shows it and another the exact condition.

- A source that ends early with io.ErrUnexpectedEOF is taken for complete: the upload returns nil and the job
  reports completion (`Upload.TruncatedIsSuccess`, `Upload.SuccessIsComplete`; `Jobs.CompletedShort`,
  `Jobs.CompletedExactly`).
- A job canceled explicitly can end as failed, or even as completed with nothing transferred: `abortCause`
  marks the job before it cancels the context, and a transfer that looks in between finds no cause
  (`Jobs.CanceledReportedFailed`, `Jobs.ErrorAfterAbort`; `Jobs.CompletedWithoutCopying`, `Jobs.CompletedExactly`).
- Route validation compares hosts as written while the router lower-cases them, so validated routes can depend on
  the order of registration (`Router.ValidatedRoutesMayDepend`, `Router.OrderIndependentIff`).
- A blob handler mounted at the root of its listener does not find an id whose path begins with the base
  path (`BlobStore.RootMountMisses`, `BlobStore.RootMountedPathParses`).
- Row recomputation moves a collapsed row's header but not its panels, so their offsets are lost
  (`Layout.CollapsedLosesOffsets`, `Layout.OffsetsKept`).
- A top-level panel with explicit coordinates can be overlapped by the next panel of the flow, although the extent
  is kept for it (`Layout.ExplicitIsOverlapped`, `Layout.NextIsFreeIff`, `Layout.ExtentHolds`).
- A name an upstream lists can stay unowned after the upstream that owned it is detached
  (`Registry.ListedButUnowned`, `Registry.OwnedIffLastListed`).
- Without a resolver a reference with white space after its brace passes through unresolved
  (`Secrets.SpacedReferencePasses`, `Secrets.RefusedIffTight`).
- The form of an over-long log line depends on where writes end (`LogSplitter.FormDependsOnCut`, `LogSplitter.CutIff`).
- The collision check compares only the last definition an upstream lists under a raw name
  (`Collisions.RepeatedNameIgnored`, `Collisions.CheckListings`).
- The collision check does not skip reserved names, so a build can fail over a name that registration would drop
  (`Collisions.ReservedNameRefused`, `Collisions.CheckIsStricter`).
- Without a configured client id a code is not tied to the client it was issued to (`OAuth.RedeemedByAnother`,
  `OAuth.RedeemedByItsClientIff`).
- Validation refuses a colon in scope names but not in upstream names, so a sub-scope of one upstream can be the
  scope of another (`Scope.SubScopeReachesAnother`, `Scope.SubScopesStayIff`).

## Assumptions

- Ids, codes and tokens are fresh, clocks do not run back, and the removal of a file succeeds.
- Lower-casing, trimming, glob matching, entropy, hashing and the sorting of names are parameters of the model.
- Attached mounts are disjoint from the store's own files.
- Upstream names are distinct, as validation guarantees. Each register call is one step, since it holds the
  registry's mutex, and a detach does not interleave with a list-changed callback of the same upstream.
- An upstream is connected once, so the supervisor is its only later dialer.
- Sizes, counts and times are unbounded integers.

## Model

| member | source | states |
|---|---|---|
| `Upload.ProgramConfig` | internal/session/copy.go:11-18 | the configuration the program runs with is one the results cover |
| `Upload.StepInv` | internal/session/copy.go:27-87 | every atomic step of reader, writers and caller keeps ownership, conservation of bytes and content |
| `Upload.RunInv` | internal/session/copy.go:27-87 | the invariant holds after any interleaving |
| `Upload.SingleOwner` | internal/session/copy.go:33-84 | in every reachable state each buffer is in the free list, with the reader or with one writer, and in only one of them |
| `Upload.RecycleNeverBlocks` | internal/session/copy.go:36-84 | a writer that returns its buffer always finds room in the free channel |
| `Upload.InFlightUntouched` | internal/session/copy.go:47-84 | no step changes a chunk that a writer is still sending, and that chunk is the source's bytes at its offset |
| `Upload.ProgressIsAcknowledged` | internal/session/copy.go:73-84 | counted bytes never exceed acknowledged bytes, which never exceed the source |
| `Upload.SuccessIsPrefix` | internal/session/copy.go:43-87 | when the call returns nil the remote file is exactly what was read, byte for byte, and Bytes is its length |
| `Upload.SuccessIsComplete` | internal/session/copy.go:64-69 | a nil return means the whole source arrived exactly when no read ended early with io.ErrUnexpectedEOF, which is when Bytes is the source's length |
| `Upload.TruncatedIsSuccess` | internal/session/copy.go:64-69 | for every non-empty source, a run in which the first read ends early and the call returns nil with nothing sent |
| `Upload.NilIff` | internal/session/copy.go:64-87 | a finished call returns nil exactly when no read and no write failed and the reader did not give up; a clean end of the source is no failure |
| `Upload.CleanRunSucceeds` | internal/session/copy.go:64-87 | an upload that nobody cancels and in which nothing fails or ends early returns nil with the whole source sent |
| `Upload.CancelReachesReader` | internal/session/copy.go:48-60 | wherever the reader waits, a cancellation lets it give up at once with an error |
| `Upload.Progress` | internal/session/copy.go:36-87 | from any unfinished state some goroutine can step without help from the caller |
| `Upload.NoDeadlock` | internal/session/copy.go:36-87 | no reachable unfinished state is stuck, whatever reads, writes or cancellations failed before |
| `Upload.StepRank` | internal/session/copy.go:27-87 | every step but a cancellation lowers the work left |
| `Upload.AlwaysReturns` | internal/session/copy.go:27-87 | every schedule is bounded by a function of the source length and ends with the call returned |
| `Lifecycle.Upstream.Enter` | internal/gateway/drain.go:47-58 | admits a call exactly when the upstream is not closed and holds a session; counts it |
| `Lifecycle.Upstream.Leave` | internal/gateway/drain.go:95-103 | uncounts a call and closes the drain channel when the last one leaves |
| `Lifecycle.Upstream.ArmDrain` | internal/gateway/drain.go:113-131 | arms the channel only if a call is in flight |
| `Lifecycle.Upstream.Install` | internal/gateway/upstream.go:221-279 | installs a dialed session unless the upstream was closed meanwhile |
| `Lifecycle.Upstream.TakeResources` | internal/gateway/upstream.go:402-425 | hands session and cleanup to one caller and forgets them |
| `Lifecycle.Upstream.MarkClosed` | internal/gateway/upstream.go:483-527 | closes the upstream once |
| `Lifecycle.StepInv` | internal/gateway/upstream.go:205-329 | every critical section of calls, drain, Close, dialer and supervisor keeps the invariant |
| `Lifecycle.InflightCountsClaims` | internal/gateway/drain.go:47-103 | in every run the counter is the number of outstanding claims, and an armed drain channel means a call in flight |
| `Lifecycle.ChannelClosedOnce` | internal/gateway/drain.go:95-131 | a drain channel is closed at most once |
| `Lifecycle.NoLostWakeup` | internal/gateway/drain.go:95-131 | once the last call has left, the channel a drain waits on is closed |
| `Lifecycle.NoClaimAfterClose` | internal/gateway/drain.go:47-58 | after closed is set the set of claims only shrinks, over any further run |
| `Lifecycle.DrainTrueIsQuiet` | internal/gateway/drain.go:113-131 | a drain that reports true leaves no call in flight then and in every later state |
| `Lifecycle.DrainReports` | internal/gateway/drain.go:113-131 | a drain is true at once when no call is in flight, and otherwise exactly when the channel it waits on is closed |
| `Lifecycle.ExactlyOnePlace` | internal/gateway/upstream.go:221-329 | each transport ever built is mid-dial, held, pending cleanup or cleaned up, in exactly one place and exactly once |
| `Lifecycle.NothingPending` | internal/gateway/upstream.go:402-527 | once Close and the supervisor have ended, whatever they took out of the upstream has been cleaned up; only a build may still be in closeSessionResources |
| `Lifecycle.ShutDownIsClean` | internal/gateway/upstream.go:402-527 | after Close, the dialer and the build are done no session is held, none is installed later and every transport was cleaned up exactly once |
| `Lifecycle.CloseDuringDial` | internal/gateway/upstream.go:221-279 | a Close in the middle of a dial leaves the dialed session refused and its transport cleaned up |
| `Lifecycle.AdmittedIff` | internal/gateway/drain.go:47-58 | in the machine a call is admitted exactly while the upstream is open and holds a session, and counts |
| `Lifecycle.OpenDialConnects` | internal/gateway/upstream.go:221-279 | a dial that nothing disturbs ends with its session installed |
| `Lifecycle.LostIsRedialed` | internal/gateway/upstream.go:296-329 | a supervised upstream without a session is dialed again |
| `Lifecycle.DroppedIsRedialed` | internal/gateway/upstream.go:296-329 | a session that drops leaves the upstream and is cleaned up before the next dial |
| `Lifecycle.CloseInOrder` | internal/gateway/upstream.go:483-527 | Close drains before it cancels the supervisor, takes the session only after that, and joins last |
| `Lifecycle.CloseGoesOn` | internal/gateway/upstream.go:483-527 | until Close has returned some step takes it, or the cleanup it waits for, further |
| `Lifecycle.SupervisedUntilCanceled` | internal/gateway/upstream.go:296-394 | over any run a supervised upstream stays supervised until its context is canceled |
| `Registry.Gateway.EnsureUpstream` | internal/gateway/feature_registry.go:19-23 | adds an empty set for a new upstream and touches no other |
| `Registry.Gateway.Collect` | internal/gateway/gateway.go:951-976 | the filtered, prefixed listing, later items winning |
| `Registry.ListingIsLast` | internal/gateway/gateway.go:951-976 | a final name is listed exactly when an eligible item has it, and the last such item defines it |
| `Registry.ListedIff` | internal/gateway/upstream.go:678-699 | a name is listed exactly when an item with that name behind the prefix matches no deny pattern and, if there are allow patterns, one of them, and the name is not reserved |
| `Registry.DeniedIsHidden` | internal/gateway/upstream.go:678-699 | a denied tool is not listed, nor owned by its upstream after a sync |
| `Registry.Gateway.Diff` | internal/gateway/feature_registry.go:25-54 | exactly the dropped names, the gained or changed names and the collisions, each once |
| `Registry.Gateway.Apply` | internal/gateway/feature_registry.go:56-73 | owner, payload and set after removals and additions, at every name |
| `Registry.Gateway.SyncListing` | internal/gateway/gateway.go:1058-1079 | diff, server update and apply together compute the specified sync to any listing and report exactly its collisions |
| `Registry.Gateway.RegisterFeatures` | internal/gateway/gateway.go:1035-1082 | the same for every item an upstream lists, unfiltered |
| `Registry.UnfilteredIsListing` | internal/gateway/gateway.go:1045-1056 | the unfiltered listing is the tool listing when nothing is denied or reserved |
| `Registry.Gateway.RegisterTools` | internal/gateway/gateway.go:938-1033 | the one-pass tool sync computes the same specified sync and the same collisions |
| `Registry.GenericIsSync` | internal/gateway/feature_registry.go:25-73 | the effect of diff then apply is the sync, at every name of every map |
| `Registry.SyncedIsUnique` | internal/gateway/gateway.go:934-1033 | a sync has one outcome, so the two implementations cannot differ |
| `Registry.Gateway.DetachTools` | internal/gateway/reload.go:246-265 | a detach is a sync against nothing that also forgets the upstream's set |
| `Registry.SyncKeepsConsistent` | internal/gateway/gateway.go:938-1082 | a sync keeps owner, sets, payloads and server in agreement and never gives a reserved name away |
| `Registry.RunKeepsInv` | internal/gateway/gateway.go:934-1082 | agreement holds after any sequence of attaches, syncs and detaches of any upstreams |
| `Registry.OwnedIffLastListed` | internal/gateway/gateway.go:934-1082 | over any run from an empty registry an upstream owns a name exactly when its last listing has it and nobody else owned it at that sync, and then the payload equals the listed definition |
| `Registry.ListedButUnowned` | internal/gateway/reload.go:246-265 | a run in which a listed name ends up unowned: its owner is detached and the upstream that collided is not synced again |
| `Registry.SyncOutcome` | internal/gateway/gateway.go:988-1022 | after a sync each eligible name is owned with an equal payload or collides with its true owner |
| `Registry.SyncAtListed` | internal/gateway/gateway.go:988-1022 | an equal registration stays untouched; anything else is replaced by the listed definition and exposed under its raw name |
| `Registry.SyncFrees` | internal/gateway/gateway.go:978-1022 | a sync drops what its upstream no longer lists and never touches another upstream's name |
| `Registry.DetachFrees` | internal/gateway/reload.go:246-265 | a detach frees exactly the upstream's names and changes nothing else |
| `Scope.ListTools` | internal/gateway/scope.go:25-68 | tools/list keeps exactly the permitted tools, minus lazy ones under discovery, with their multiplicity |
| `Scope.VisibleTools` | internal/gateway/discovery.go:177-198 | the search and describe set, payloads included |
| `Scope.CheckedNameIsForwardedName` | internal/gateway/scope.go:74-89 | the raw name the scope check uses is the raw name the call is forwarded under, to the same upstream |
| `Scope.CallIsScoped` | internal/gateway/scope.go:25-109 | a call reaches an upstream exactly when it owns the name and the credential covers the forwarded raw name |
| `Scope.UnknownOrRefused` | internal/gateway/scope.go:25-48 | with a credential an unknown name is refused like an owned tool it does not cover; without one it is not found |
| `Scope.VisibleIsCallable` | internal/gateway/discovery.go:177-198 | search and describe see exactly the callable upstream tools |
| `Scope.ListIsCallableMinusLazy` | internal/gateway/discovery.go:229-250 | tools/list is the callable tools minus those of lazy upstreams; the gateway's own tools always stay |
| `Scope.DiscoveryMatchesCalls` | internal/gateway/scope.go:25-109 | both equalities hold in every state of every run, for every credential |
| `Scope.ReservedIsOwn` | internal/gateway/discovery.go:37-54 | the reserved names are exactly the gateway's own tools under the features that are on |
| `Scope.GrantsAdd` | internal/gateway/scope.go:94-109 | a credential may do what one of its scopes allows, no more and no less |
| `Scope.BaseScopeReaches` | internal/gateway/scope.go:94-109 | what the base scope of one upstream allows on any upstream |
| `Scope.SubScopeReaches` | internal/gateway/auth.go:44-50 | what a sub-scope of one upstream allows on any upstream: its patterns at home, everything on an upstream named by the two with a colon between, nothing elsewhere |
| `Scope.SubScopesStayIff` | internal/gateway/config.go:455-463 | an upstream's sub-scopes stay with it exactly when no other upstream is named after it with a colon and a colon-free rest |
| `Scope.SubScopeReachesAnother` | internal/gateway/auth.go:44-50 | a sub-scope of one upstream that allows every tool of another |
| `Secrets.IsValidSecretName` | internal/gateway/secret.go:132-144 | true exactly for non-empty names of allowed characters |
| `Secrets.ExtractSecretRefs` | internal/gateway/secret.go:174-190 | yields the names of the string's references, in order |
| `Secrets.Interpolate` | internal/gateway/secret.go:193-233 | asks for exactly those names in that order, and returns the rendered string or the last error |
| `Secrets.SourceOfTokens` | internal/gateway/secret.go:150-233 | the tokens both scanners cut are the input, nothing lost or moved |
| `Secrets.InnerName` | internal/gateway/secret.go:159-169 | a name found between braces is a valid secret name |
| `Secrets.InnerNameIff` | internal/gateway/secret.go:159-169 | a name is found exactly when the text before the first colon trims to secret and that after it to a valid name |
| `Secrets.SecretNameChars` | internal/gateway/secret.go:132-144 | the characters of a name, listed |
| `Secrets.ParseSecretRef` | internal/gateway/secret.go:150-170 | a token starts at an opening brace, ends at the first closing one and has a valid name |
| `Secrets.ParsesIff` | internal/gateway/secret.go:150-170 | a token starts at a brace exactly when what stands before the next closing brace is a reference, and ends there |
| `Secrets.SucceedsIffAllResolve` | internal/gateway/secret.go:193-233 | succeeds exactly when every reference resolves |
| `Secrets.LastErrorSpec` | internal/gateway/secret.go:205-233 | the reported error is that of the last reference that does not resolve |
| `Secrets.ResolvedIsSubstituted` | internal/gateway/secret.go:193-233 | a reference whose name resolves becomes its value, in place |
| `Secrets.LoneReferenceResolves` | internal/gateway/secret.go:193-233 | braces around text that trims to secret:NAME give the value of NAME |
| `Secrets.OutsideIsVerbatim` | internal/gateway/secret.go:193-233 | for every resolver each token stands in the output where the values of the tokens before it end, so every byte outside a reference is copied verbatim and in order |
| `Secrets.IdentityWithoutReferences` | internal/gateway/secret.go:193-233 | a string without references is returned unchanged, whatever the resolver |
| `Secrets.DependsOnReferences` | internal/gateway/secret.go:174-233 | two resolvers that agree on the extracted names give the same result |
| `Secrets.WrittenReferenceParses` | internal/gateway/secret.go:150-170 | braces around text that trims to secret:NAME parse to that name wherever they stand, and end at the closing brace |
| `Secrets.LoneReferenceIsToken` | internal/gateway/secret.go:150-190 | such text is one reference to both scanners, white space or not |
| `Secrets.RefusedIffTight` | internal/gateway/secret.go:193-199 | without a resolver a lone reference is refused exactly when nothing stands between its brace and its keyword |
| `Secrets.SpacedReferencePasses` | internal/gateway/secret.go:193-199 | a reference with a space after its brace, which passes through unresolved |
| `Secrets.TightReferenceRefused` | internal/gateway/secret.go:193-199 | in any string, one reference with its keyword right after its brace makes the call fail without a resolver |
| `Reload.PlanUpstreams` | internal/gateway/reload.go:156-187 | which sections are added, restarted, kept and removed, both directions |
| `Reload.SecretRefsChanged` | internal/gateway/reload.go:197-208 | true exactly when some referenced secret is defined differently |
| `Reload.SecretsByNameAre` | internal/gateway/reload.go:189-195 | with distinct names the map holds each secret under its name, and nothing else |
| `Reload.RestartIff` | internal/gateway/reload.go:156-208 | over the configured lists: a section is restarted exactly when it changed, relies on a global redaction that changed, or mentions a secret that is defined differently |
| `Reload.PlanPartitions` | internal/gateway/reload.go:156-187 | each name of the two configurations falls in exactly one of the lists it can fall in |
| `Reload.Gateway.constructor` | internal/gateway/gateway.go:221-294 | every configured upstream is built once from its section |
| `Reload.Gateway.Reload` | internal/gateway/reload.go:36-127 | an error leaves the running state untouched; success leads to a reloaded state |
| `Reload.Gateway.Validate` | internal/gateway/config.go:330-437 | rejects unusable or repeated names |
| `Reload.Gateway.DetachAll` | internal/gateway/reload.go:95-110 | exactly the named upstreams are gone and the others stay, in their order |
| `Reload.AssembleReload` | internal/gateway/reload.go:36-127 | what stays and what was built have exactly the new names, each fresh or kept unchanged |
| `Reload.ReloadKeepsInv` | internal/gateway/reload.go:36-127 | a kept upstream stays up to date through any number of reloads |
| `Reload.RunningMatchesConfig` | internal/gateway/reload.go:36-208 | after any run of reloads exactly the configured names run, and each interpolates and redacts as one built now would |
| `Reload.RunningHoldsConfig` | internal/gateway/reload.go:36-208 | after any run of reloads each upstream holds every configured secret its section mentions, and the redaction of its section or else the global one |
| `Reload.RunningResolves` | internal/gateway/reload.go:36-208 | a mentioned secret resolves through the definition configured now, or to nothing if there is none |
| `Router.ScanIsLongestLatest` | internal/gateway/router/router.go:55-111 | the reference scan returns the latest value at the longest registered prefix that ends on a boundary |
| `Router.MatchesIff` | internal/gateway/router/router.go:98-111 | a registered path matches exactly when it is the request path, ends in a slash and starts it, or is followed in it by a slash |
| `Router.TableIsScan` | internal/gateway/router/router.go:69-111 | looking up the table of places is the linear scan |
| `Router.Router.Add` | internal/gateway/router/router.go:34-53 | the heap trie stays a tree and represents its old table with the one entry added |
| `Router.Router.LookupNode` | internal/gateway/router/router.go:69-96 | the walk finds the longest boundary hit of one host's table |
| `Router.Router.Lookup` | internal/gateway/router/router.go:58-67 | the result is the scan's for the lower-cased host, else for any host |
| `Router.UnambiguousIsEnough` | internal/gateway/router/router.go:34-67 | registration order is irrelevant if no place has two values |
| `Router.OrderIndependentIff` | internal/gateway/router/router.go:34-67 | it is irrelevant exactly then |
| `Router.ValidatedRoutesMayDepend` | internal/gateway/config.go:480-493 | routes that pass validation can still depend on the order, because hosts are compared before lower-casing |
| `Router.DistinctLoweredIsEnough` | internal/gateway/gateway.go:822-848 | distinct lower-cased hosts and paths never depend on the order |
| `Router.RouteTable.SetRouteServer` | internal/gateway/gateway.go:822-848 | replaces an upstream's server in place or appends its route, and rebuilds the router to match |
| `Router.RouteTable.RemoveRoute` | internal/gateway/reload.go:339-353 | drops the upstream's routes and leaves a router for the rest |
| `Router.WithoutShrinks` | internal/gateway/reload.go:339-353 | skipping the rebuild is right: nothing was dropped |
| `Router.WithoutKeepsOthers` | internal/gateway/reload.go:339-353 | exactly the upstream's entries go; the others stay in their order |
| `Jobs.TransferJob.SetCloser` | internal/session/job.go:117-125 | takes the client unless the job was aborted |
| `Jobs.TransferJob.MarkAborted` | internal/session/job.go:136-144 | only the first abort takes effect, and it takes the client out |
| `Jobs.TransferJob.Finish` | internal/session/job.go:162-176 | records the terminal state by the kind of error |
| `Jobs.JobTable.Evict` | internal/session/pool_handlers.go:42-48 | drops exactly the jobs that finished more than the retention ago |
| `Jobs.JobTable.JobsOf` | internal/session/pool_handlers.go:31-39 | exactly the session's jobs whose done channel is open |
| `Jobs.StepInv` | internal/session/job.go:117-180 | every handler action, critical section and context operation keeps the invariant |
| `Jobs.ClientHandedOnce` | internal/session/job.go:117-149 | in every interleaving the client is with the job, handed to one abort, or the transfer's own; an abort before the end never misses it |
| `Jobs.FirstCauseWins` | internal/session/job.go:136-149 | no later abort relabels the first, and a terminal status never changes |
| `Jobs.ErrorAfterAbort` | internal/session/job.go:153-180 | a failed transfer ends canceled exactly when an explicit cancel was the first to reach its context before finish looked; an explicit first abort always is, unless finish looked between its mark and its cancel or the pool was going down |
| `Jobs.FailureIsExplained` | internal/session/job.go:153-176 | a failed transfer reports the first abort's cause and reason whenever that had reached the context, otherwise its own error |
| `Jobs.CanceledReportedFailed` | internal/session/job.go:136-160 | a run in which that window makes an explicit cancel end as failed |
| `Jobs.CompletedExactly` | internal/session/scp.go:33-67 | a job is completed exactly when the file was transferred, an upload's source ended early, or its client was refused before the abort's cancel fired |
| `Jobs.UntouchedCompletes` | internal/session/scp.go:26-67 | in any run, a job nobody aborts and none of whose operations fails or is cut short ends completed with its whole file transferred |
| `Jobs.CompletedShort` | internal/session/scp.go:56-60 | a run in which an upload nobody aborted reports completion although its source ended early |
| `Jobs.CompletedWithoutCopying` | internal/session/scp.go:47-49 | a run in which a canceled upload reports completion with nothing sent |
| `Jobs.LiveJobsHaveSessions` | internal/session/pool_handlers.go:224-321 | across all handler steps a job neither aborted nor terminal belongs to an open session |
| `Jobs.LeavesOnlyWhenOld` | internal/session/pool_handlers.go:42-48 | over any run a job leaves the table only when terminal for longer than the retention |
| `Jobs.StartEvicts` | internal/session/pool_handlers.go:288-321 | starting a job on an open session lists it and drops exactly the jobs of its kind that finished longer ago than the retention |
| `Jobs.CancelReaches` | internal/session/job.go:127-149 | a cancel takes the client at once and then reaches the context unless that was canceled before; a second one changes nothing |
| `Jobs.CloseCancels` | internal/session/pool_handlers.go:224-242 | closing a session cancels the contexts of all its jobs and sets out to abort exactly the listed ones that have not ended |
| `Jobs.CloseEnds` | internal/session/pool_handlers.go:224-260 | the close then always ends, with the session gone and its listed jobs aborted or ended |
| `Jobs.NoLiveContextLeft` | internal/session/job.go:82-96 | in any run no job outlives its session or its pool with a live context, whenever it was started |
| `Jobs.TransferGoesOn` | internal/session/scp.go:26-67 | a transfer that has not ended can always take its next step, whatever the event loop is doing |
| `BlobStore.Store.Put` | blob/http.go:173-285 | an object is stored whole exactly when neither its declared size nor its payload exceeds the limit; otherwise no file and no entry is left |
| `BlobStore.Store.Lookup` | blob/http.go:329-348 | a live object is found; an expired one leaves the index on the way |
| `BlobStore.Store.Take` | blob/http.go:304-316 | drops one id and returns what it held |
| `BlobStore.Store.TakeExpired` | blob/http.go:366-378 | splits the index into exactly the live and the expired objects |
| `BlobStore.Store.TakeAll` | blob/http.go:380-389 | empties the index and returns all of it |
| `BlobStore.RemoveAll` | blob/http.go:320-400 | removes the files the store owns, and only those |
| `BlobStore.StepInv` | blob/http.go:173-400 | every critical section and file operation keeps index, files and history in agreement |
| `BlobStore.OpensExactly` | blob/http.go:288-378 | in every run an id opens exactly when it was stored, not deleted or purged, and now is before the moment it was described plus its lifetime |
| `BlobStore.ReadsPayload` | blob/http.go:288-301 | an opened stored object gives its exact payload, within the limit; a miss means it was dropped or has expired |
| `BlobStore.FilesAccounted` | blob/http.go:262-400 | every file of the store is indexed, mid-write or pending removal, exactly one of them, and a removal always finds its file |
| `BlobStore.QuietDiskIsIndex` | blob/http.go:173-400 | with no write or removal under way the files are the indexed objects, byte for byte |
| `BlobStore.MountsUntouched` | blob/http.go:203-325 | no run of the store changes or removes a file it does not own |
| `BlobStore.DiscardIsRemove` | blob/http.go:320-325 | a pending removal takes away the file of an object the store owns and nothing of an attached one |
| `BlobStore.AttachIff` | blob/http.go:203-242 | a file can be attached exactly when it is there and within the limit |
| `BlobStore.AttachedIsServed` | blob/http.go:203-301 | an attached file is found and read as it is in its mount |
| `BlobStore.StoredIffFits` | blob/http.go:262-285 | a finished copy is stored exactly when the whole payload fits, and then whole |
| `BlobStore.DiskIsBounded` | blob/http.go:262-268 | however long a payload is, no file of the store is ever more than one byte over the limit |
| `BlobStore.PutGoesOn` | blob/http.go:173-285 | a put begins unless its declared size is over the limit, and can always go on to its end |
| `BlobStore.HistoryIsFinal` | blob/http.go:173-242 | what is recorded under an id never changes |
| `BlobStore.MintedPathParses` | blob/http.go:444-453 | the path of a minted URL parses back to its id under every base path |
| `BlobStore.RootMountedPathParses` | blob/http.go:442-453 | mounted at the root, it parses back exactly when the base path is empty or a slash, does not start the path, or is followed there by the id once more |
| `BlobStore.RootMountMisses` | blob/http.go:442-453 | a base path and an id for which the root-mounted handler does not find the id |
| `Layout.Session.PlaceInRow` | internal/tools/grafana/panels.go:132-171 | the row's new cursor, the panel's position and the new extent, with or without explicit coordinates |
| `Layout.Session.PlaceOnTop` | internal/tools/grafana/panels.go:173-213 | the same for the top level, with the line's height taken before the panel's |
| `Layout.Session.Put` | internal/tools/grafana/panels.go:111-130 | placement in the top level or a row, and the panel appended there |
| `Layout.Session.AddRow` | internal/tools/grafana/rows.go:23-45 | a row below everything, with a fresh id |
| `Layout.Session.MoveRow` | internal/tools/grafana/rows.go:109-150 | the rows reordered, or unchanged with an error |
| `Layout.Session.AddPanel` | internal/tools/grafana/panels.go:215-279 | sizes the panel by its kind, places and appends it, or changes nothing when the row is unknown |
| `Layout.Session.Collapse` | internal/tools/grafana/rows.go:54-73 | folds or unfolds the row, or changes nothing |
| `Layout.Session.DeleteRow` | internal/tools/grafana/rows.go:82-102 | takes the row out, its panels going with it or to the end of the top level |
| `Layout.Session.DeletePanel` | internal/tools/grafana/panels.go:481-501 | takes the panel out of its container, or changes nothing |
| `Layout.Session.MovePanel` | internal/tools/grafana/panels.go:539-586 | takes the panel out of its row or the top level and places it in another container; nothing changes when either is unknown or both are the same |
| `Layout.MovePermutes` | internal/tools/grafana/rows.go:109-150 | moving a row only reorders |
| `Layout.MovePlaces` | internal/tools/grafana/rows.go:109-150 | the moved row ends up directly before the named one, or last |
| `LayoutFlow.MovedIff` | internal/tools/grafana/rows.go:109-150 | with distinct ids a row is moved exactly when it exists and the one named is another that exists |
| `LayoutFlow.MoveKeepsOrder` | internal/tools/grafana/rows.go:109-150 | the other rows keep their order |
| `Layout.PlacementKeepsRow` | internal/tools/grafana/panels.go:132-171 | a placed panel overlaps none of its row, stays in 24 columns and below the header |
| `Layout.StepKeeps` | internal/tools/grafana/panels.go:132-171 | every tool call keeps every row well laid out and inside the extent |
| `Layout.RunKeeps` | internal/tools/grafana/rows.go:23-150 | so does any run of them, in any row order |
| `Layout.ExtentHolds` | internal/tools/grafana/panels.go:98-110 | any run of tool calls, explicit coordinates and promoted panels included, keeps NextY below everything |
| `Layout.NextIsFreeIff` | internal/tools/grafana/panels.go:98-110 | whatever was placed before, the flow never overlaps at the top level exactly when its line is full or nothing reaches into the rest of it |
| `Layout.ExplicitIsOverlapped` | internal/tools/grafana/panels.go:173-213 | a panel with explicit coordinates that the next panel of the flow overlaps |
| `Layout.MovePanels` | internal/tools/grafana/grafana.go:1055-1068 | the shifted panels and their lowest edge |
| `Layout.RecomputeRowPositions` | internal/tools/grafana/grafana.go:1039-1073 | the loop computes the recursive recomputation |
| `Layout.OffsetsKept` | internal/tools/grafana/grafana.go:1039-1073 | each header goes below the rows before it, and a row keeps its panels' offsets exactly when it is expanded, empty, or has its header there already; sizes and columns never change |
| `Layout.CollapsedLosesOffsets` | internal/tools/grafana/grafana.go:1050-1055 | a run after which the export shows a collapsed row's panel above its header |
| `Layout.RecomputeIdempotent` | internal/tools/grafana/grafana.go:1039-1073 | recomputing twice is recomputing once |
| `Layout.RecomputedDisjoint` | internal/tools/grafana/grafana.go:1039-1073 | all headers and visible panels are disjoint and never above zero |
| `Layout.AnyRunExportsDisjoint` | internal/tools/grafana/grafana.go:1035-1073 | the export of any run of tool calls has no overlap |
| `Layout.TopRunKeeps` | internal/tools/grafana/panels.go:173-213 | any run of top-level panels is disjoint, in 24 columns, with NextY exactly the lowest edge |
| `LayoutFlow.RowsStayTight` | internal/tools/grafana/panels.go:132-171 | over any run that takes no panel out: each row's panels stand in the order they came in, each right of the one before or, where the 24 columns have no room, at the left directly below everything so far |
| `LayoutFlow.ExplicitInRow` | internal/tools/grafana/panels.go:132-171 | an explicit column leaves the cursor where it is; a cursor never set starts at the extent |
| `LayoutFlow.TopStaysTight` | internal/tools/grafana/panels.go:173-213 | the same at the top level, from the top edge on |
| `LayoutFlow.NextHeaderTouches` | internal/tools/grafana/grafana.go:1039-1073 | an export starts at the top, and each header touches the header or the lowest visible panel above it |
| `LayoutFlow.StepConserves` | internal/tools/grafana/panels.go:215-586 | adding counts the fresh panel, deleting uncounts the one named, and moves of panels and rows lose and double nothing |
| `LayoutFlow.DeletedRowCounts` | internal/tools/grafana/rows.go:75-100 | deleting a row with its panels uncounts exactly those |
| `LayoutFlow.DeleteActs` | internal/tools/grafana/rows.go:82-102 | the first row with the id goes, and its panels go to the end of the top level exactly if they are kept |
| `LayoutFlow.EachPanelOnce` | internal/tools/grafana/panels.go:215-586 | in any run each panel is in exactly one container |
| `LayoutFlow.MovedPanelIsLast` | internal/tools/grafana/panels.go:539-586 | a moved panel is the last of its new container, of the size it had and at the coordinates given, and the old container closes up |
| `Layout.LowestAttained` | internal/tools/grafana/panels.go:203-206 | that edge is some panel's |
| `LogSplitter.Writer.Append` | tunnel/cloudflared/slogio.go:78-104 | the buffer after one bounded append |
| `LogSplitter.Writer.Write` | tunnel/cloudflared/slogio.go:35-76 | log, buffer and pending skip are what the history of writes says |
| `LogSplitter.Writer.Close` | tunnel/cloudflared/slogio.go:118-127 | an unended line is flushed unless empty |
| `LogSplitter.AppendRenders` | tunnel/cloudflared/slogio.go:78-104 | a bounded append to a rendered line renders the longer line |
| `LogSplitter.FeedIsSplit` | tunnel/cloudflared/slogio.go:47-73 | the byte-wise split is the split of the whole text on CR LF, CR or LF |
| `LogSplitter.SplitIs` | tunnel/cloudflared/slogio.go:47-73 | the split cuts the text into lines without CR or LF, each followed by one of the three delimiters, and a rest; no CR LF is cut in two |
| `LogSplitter.OnlyOneCut` | tunnel/cloudflared/slogio.go:47-73 | there is only one such cut, so the split is determined |
| `LogSplitter.HistoryIsSplit` | tunnel/cloudflared/slogio.go:35-76 | how input is cut into writes does not matter to the lines, even between CR and LF |
| `LogSplitter.ClosedLog` | tunnel/cloudflared/slogio.go:35-127 | after Close there is one entry per line, bounded, in one of three forms; with short lines the log is the split itself |
| `LogSplitter.CutIff` | tunnel/cloudflared/slogio.go:78-104 | an over-long line keeps its first 4096 bytes exactly when a write ended with precisely those received |
| `LogSplitter.FormDependsOnCut` | tunnel/cloudflared/slogio.go:78-104 | every over-long line gets the marker when it arrives in one write and does not when the first of two writes ends at its 4096th byte |
| `Collisions.CollisionSet.Add` | internal/gateway/ns.go:170-181 | the contributed names in order and the last definition of each |
| `Collisions.LastDefsAre` | internal/gateway/ns.go:170-181 | under a raw name an upstream contributes the definition of its last kept item |
| `Collisions.CollisionSet.DetectCollisions` | internal/gateway/ns.go:97-144 | exactly the contributions under names with more than one, equal names together |
| `Collisions.CollisionSet.IdenticalGroup` | internal/gateway/ns.go:242-261 | whether all of a group equal its first |
| `Collisions.CollisionSet.DropIdentical` | internal/gateway/ns.go:208-240 | keeps the conflicts of disagreeing names in order, and ignores each agreeing name once |
| `Collisions.RunEnd` | internal/gateway/ns.go:210-214 | the inner loop ends at the end of a maximal run |
| `Collisions.RunDecides` | internal/gateway/ns.go:208-261 | a run compared with its first member decides the whole name |
| `Collisions.CollisionSet.Check` | internal/gateway/ns.go:186-199 | passes exactly when under every final name all contributions are pairwise equal; otherwise lists all and only those that are not |
| `Collisions.CheckListings` | internal/gateway/gateway.go:650-687 | the build's check in terms of what the upstreams listed |
| `Collisions.CollisionsAreHarmless` | internal/gateway/gateway.go:689-696 | after a passing check, registration in order from empty reports collisions only between equal raw definitions |
| `Collisions.CheckIsStricter` | internal/gateway/ns.go:186-261 | the check passes exactly when registration reports only harmless collisions and contributions under reserved names agree as well |
| `Collisions.ReservedNameRefused` | internal/gateway/ns.go:170-181 | two upstreams that fail the check over a reserved name neither would get |
| `Collisions.RepeatedNameIgnored` | internal/gateway/ns.go:170-181 | two definitions one upstream lists under one raw name are not compared |
| `OAuth.VerifyPKCEIsStandard` | mcpauth/oauth.go:397-418 | the check is that of section 4.6 of RFC 7636 plus the refusal of an empty challenge or verifier |
| `OAuth.Facade.AuthorizePost` | mcpauth/oauth.go:157-241 | the verdict in the order of the checks; only a grant stores a code, with its request's data and a five-minute life |
| `OAuth.GrantIff` | mcpauth/oauth.go:157-241 | a code is granted exactly for an allowed redirect URI, the code response type, a valid client, a challenge and the operator's secret |
| `OAuth.RefusalIs` | mcpauth/oauth.go:170-241 | which refusal a request gets, in the order of the checks; only an allowed redirect URI is told an error |
| `OAuth.ScopesOfCode` | mcpauth/oauth.go:374-391 | a code's scopes: those requested, else the configured, else the derived, else mcp |
| `OAuth.JoinAppends` | mcpauth/oauth.go:374-391 | joined with one space between |
| `OAuth.Facade.ServeToken` | mcpauth/oauth.go:274-336 | a token is stored exactly when the code was there and may be exchanged; the code is gone either way |
| `OAuth.RedeemsIff` | mcpauth/oauth.go:293-315 | a code is exchanged exactly within five minutes, for the same redirect URI, by a valid client, with a verifier for which the proof key holds |
| `OAuth.GoodCodeGetsToken` | mcpauth/oauth.go:274-336 | a code that is presented and redeems becomes a token with its scopes and the configured lifetime |
| `OAuth.Facade.TakeCode` | mcpauth/oauth.go:293-299 | a presented code is gone, and returned if it was there |
| `OAuth.Facade.VerifyAccessToken` | mcpauth/oauth.go:347-361 | succeeds exactly before or at the expiry; an expired token is dropped |
| `OAuth.StepInv` | mcpauth/oauth.go:157-361 | every critical section keeps codes, exchanges, tokens and history in agreement |
| `OAuth.TokenProvenance` | mcpauth/oauth.go:157-336 | each token comes from a code issued under an operator secret to an allowed redirect URI, redeemed within five minutes with the same URI and a proof key that holds, with that code's scopes |
| `OAuth.OneTokenPerCode` | mcpauth/oauth.go:293-336 | a code yields at most one token in every interleaving |
| `OAuth.FirstPresentationConsumes` | mcpauth/oauth.go:293-305 | after its first presentation a code is refused in every later state |
| `OAuth.VerifiesExactly` | mcpauth/oauth.go:347-361 | a token verifies exactly until its expiry, whatever was verified before |
| `OAuth.ExpiredForGood` | mcpauth/oauth.go:347-361 | an expired token never verifies again |
| `OAuth.ConfiguredClientRedeems` | mcpauth/oauth.go:303-308 | with a configured client id the redeeming client is the one the code was issued to, as section 4.1.3 of RFC 6749 asks |
| `OAuth.RedeemedByAnother` | mcpauth/oauth.go:303-308 | without one, a run in which another client redeems the code |
| `OAuth.RedeemedByItsClientIff` | mcpauth/oauth.go:303-308 | with some redirect URI allowed, every token is redeemed by its code's client exactly when a client id is configured |
| `Redactor.Redact` | internal/gateway/detect.go:77-110 | the lazily allocated output is the eager one |
| `Redactor.EagerIsPiecewise` | internal/gateway/detect.go:86-109 | the text splits into literal runes, kept, and windows, replaced; nothing is lost or moved |
| `Redactor.ReplacedAreHot` | internal/gateway/detect.go:86-96 | only 20-rune windows at the threshold are replaced |
| `Redactor.ReplacedAreSpaced` | internal/gateway/detect.go:86-96 | the windows replaced in the output are at the threshold, in order and without overlap |
| `Redactor.HotIsCovered` | internal/gateway/detect.go:86-102 | every window at the threshold starts inside one that the output replaces |
| `Redactor.NothingReplacedIff` | internal/gateway/detect.go:104-106 | nothing is replaced exactly when no window qualifies, and then the input is returned |
| `S3Keys.CleanPrefixIs` | blob/s3/s3.go:496-502 | a cleaned prefix is its plain components joined |
| `S3Keys.CleanPrefixIdempotent` | blob/s3/s3.go:496-502 | cleaning is idempotent |
| `S3Keys.RootedStep` | blob/s3/s3.go:496-502 | what one more component does to a cleaned path: empty and dot nothing, a plain one stays, two dots take one back, and nothing at the root |
| `S3Keys.KeyShape` | blob/s3/s3.go:505-514 | a well-formed id's key is the prefix's components followed by the id's two |
| `S3Keys.KeyDeterminesBoth` | blob/s3/s3.go:505-514 | a key determines its cleaned prefix and its id, nested prefixes included |
| `S3Keys.KeyStaysUnderPrefix` | blob/s3/s3.go:509-514 | every id that parses leads to a key under the configured prefix |
| `S3Keys.MintedIdParses` | blob/s3/s3.go:469-475 | a minted id parses back to its parts |
| `S3Keys.ParsedIdIsMinted` | blob/s3/s3.go:533-539 | only ids of the minted form parse |
| `S3Keys.ParsesIff` | blob/s3/s3.go:509-514 | the store acts on an id exactly when it is a namespace, a slash and a UUID |
| `S3Keys.UuidIs` | blob/s3/s3.go:516-531 | the id's second part: groups of 8, 4, 4, 4 and 12 lower-case hexadecimal digits |
| `S3Keys.NamespaceIs` | blob/s3/s3.go:516-531 | the id's first part: 1 to 64 of the allowed characters, the first a letter or digit |

## Left out

- SSH, SFTP, HTTP, TLS, MCP framing, regular expressions and real file systems: foreign libraries and I/O.
- The GitLab, Alertmanager and Grafana clients and the dashboard builders: wrappers with no state of their own.
- Logging, tracing, metrics, flags and the text of error messages.
- Entropy and transfer speeds: floating point without a clean bound; entropy is a parameter.
- Widths of integers: a dashboard over 2^32 units tall, or byte counts over 2^63, would wrap around.
- Imported dashboards, whose cursors the program calls an approximation, and negative explicit coordinates, which
  would wrap around.
- Disjointness of panels with explicit coordinates, and of top-level panels mixed with rows: the program lets them
  overlap; only the extent is claimed for them.
- Layout.Session: row and panel objects are values in a sequence, so aliasing between a session and its clone is not modelled.
- The four feature kinds share one registry model; only tools have reserved names and allow and deny lists, and
  resources and templates are the case of an empty prefix.
- Per-upstream route servers and the refresh of what they list.
- The drain timeout an upstream was built with is not compared on reload; the program reports such a change as
  needing a restart.
- Timeouts: a drain that gives up is a step that may happen at any moment, and a back-off may last any time.
- Reload.Gateway.Validate: checks the uniqueness of names; the validity of durations, patterns, routes and scopes is
  one abstract predicate, because no result depends on which configurations it rejects.
- Purging does not stop writes under way, so a Put that ends after a purge is stored; the model has this, and no
  claim is made about it.
