# go-bricks: a verified model of its cores

A Dafny 4.11 model of the parts of go-bricks where the promise is harder than the code looks. Each module pairs the
code, in the form the code has (loops and mutable fields as methods and classes, pure functions as functions), with
statements about every input, every run or every interleaving. `dafny verify dfyconfig.toml` checks all of it.

| module | what it models | main results |
|---|---|---|
| `LoadThrough`, `LoadThroughRuns` | the flight protocol behind load-through reads: callers interleave at every lock section, write and channel operation | one loader per cache, type and key at a time; the table holds exactly the running leaders; outcomes are final once published; no follower inherits a cancellation, waits in vain or retries more often than peers were cancelled |
| `ConfigTree`, `ConfigSource` | layered configuration: defaults, then operator layers, merged and recorded | for any number and kind of layers, a final leaf carries the last operator layer's value, and reads as delivered exactly when an operator supplied it; exactly which layers break this, read off their keys |
| `KeySpelling`, `Presence` | case-folded key spelling and the presence lookup | the fold groups are the equivalence classes; the spelling check accepts exactly the twin-free, correctly spelled trees; over those a leaf key has exactly one delivery, or none |
| `Flattening`, `KeystoreTree` | nested keystore and selector trees read into dotted names | accepted exactly when well formed; every stored value is the node the tree has there; unflattening gives the tree back; names are prefix-free |
| `AddressSpans`, `Cidr`, `CidrPrefixes` | does a list of nets trust a whole address family | the sort-and-sweep agrees with "every address is in some net", down to the bytes containment compares |
| `PostgresDsn` | the keyword/value connection string tokenizer | printing and scanning undo each other, in both directions; what is refused |
| `Jwks`, `JwksRuns` | the key set resolver: rate floor, stale ceiling, closed flag, shared refresh | keys come from the latest fetch inside its ceiling; attempts per window are bounded; healthy issuers never read as unavailable within a sharp bound |
| `Verdicts`, `VerdictLines` | the readiness verdict store and its two locks | the freshest observation wins in any commit order; warnings are spaced and recoveries answer them; log lines come out in commit order, so both hold of the log of every run |
| `Lifecycle` | slot startup, and the two-sender serve-error channel | a fatal start unwinds exactly what is up; no sender blocks and no serve failure is lost |
| `Readiness` | probes, the gate and the debug summary | unhealthy carries an error, leases are released once, the two views agree, and exactly when they would not |
| `DatabaseSection`, `DatabaseRules` | normalization of a database section | all or nothing; exactly which sections are accepted and what they are filled with; exactly when it is idempotent and when it keeps the configured verdict |
| `Realm` | the issuer as the body of an HTTP quoted-string | every issuer reads back without its control bytes and nothing more |
| `Options`, `Octets`, `Sorting`, `Trimming` | shared helpers | |

## Reading notes

- A run is a sequence of enabled actions; `Next` is the effect of one. Fields marked as history in a state are
  bookkeeping the statements speak about; no step branches on them.
- `LoadThroughRuns`, `JwksRuns` and the last parts of `Lifecycle` and `VerdictLines` speak of the actions of a run, not
  of the fields the steps write: who was cancelled, what a loader or listener returned, when a fetch was started.
- Where the code reads a clock, an error, a fetch outcome, a cancellation or a map's iteration order, the model takes
  any value or any order.
- `KeySpelling` takes the case fold as a parameter: any function from runes to runes will do, so the results hold for
  Unicode simple folding. Only the statement about the framework's own section names asks that lowercase ASCII letters
  fold to themselves.
- Three places where the code does not do what one would expect of it:
  - `configSource.record` names a leaf by joining its keys with dots, and adds none after an empty prefix. A key that
    holds a dot, at any depth, or an empty top-level key can therefore record the name of another leaf, and a default
    of that name then reads as delivered. `ConfigSource.ReadsRightIff` says exactly which layers do this. The
    environment is one way in: a variable `_APP_NAME` lands below an empty top-level key and makes the default
    `app.name` read as delivered, while a variable `_` is harmless (`ConfigSource.DotFreeLayerHarmlessIff`).
  - `normalizeWithFields` checks the host before trimming it, so an Oracle section with a blank host passes once and is
    refused the second time (`DatabaseSection.BlankHostPassesOnce`).
  - `PublicKey` looks and judges in separate lock sections, so a kid fetched in between is reported as unknown
    (`Jwks.SplitIsExact`, `Jwks.StoreBetweenMisleads`).

## Model

| member | source | states |
|---|---|---|
| LoadThrough.OneLoaderAtATime | cache/load_through.go:198-221 | in every reachable state two running loaders for one identified id are the same caller, and the table entry is that caller's own flight |
| LoadThrough.TableHoldsLeaders | cache/load_through.go:157-162 | the table maps an id to a flight exactly while that flight's leader has not yet deleted its entry |
| LoadThrough.JoinFindsItsFlight | cache/load_through.go:172-187 | a caller joins the entry present or leads a new flight; the type assertion never fails; only a cache without identity loads alone |
| LoadThrough.JoinIsFresh | cache/load_through.go:198-215 | a caller going round again never meets a flight it has met before |
| LoadThrough.SettleTouchesOwnFlight | cache/load_through.go:189-196 | the delete removes the leader's own entry, and the close meets a channel still open whose outcome is already written |
| LoadThrough.ClosedForever | cache/load_through.go:134-146 | once a flight is closed no later step of any run changes its fields |
| LoadThrough.ReturnedOutcomes | cache/load_through.go:211-219 | what a caller returns is its own context's end or the outcome of one loader run for its id; a follower live at the check never returns an error its flight marks as a cancelled leader's |
| LoadThrough.WaitersHaveALeader | cache/load_through.go:205-221 | the flight a follower waits on is closed, or its leader has a step left towards closing it |
| LoadThrough.QuiescentTableIsEmpty | cache/load_through.go:157-162 | when every caller has returned, the table is empty and every flight closed |
| LoadThrough.RetriesBoundedByCancelledPeers | cache/load_through.go:202-215 | a follower's retries are at most the number of other callers of its id whose context has ended |
| LoadThrough.RunKeepsInv | cache/load_through.go:164-221 | the protocol invariant holds after every run |
| LoadThroughRuns.FollowerVerdict | cache/load_through.go:202-219 | over every run, a woken follower's flight was published by another caller of its id with what that caller's loader returned; it goes round again exactly when that is an error, the leader had been cancelled before publishing and the follower has not been, and otherwise returns it |
| LoadThroughRuns.ReturnedInRun | cache/load_through.go:198-221 | every return of a run traced to its actions: a cancellation of the caller, its own loader's result, or another's that is never an error of a leader cancelled before publishing to a follower live when it woke |
| LoadThroughRuns.LiveFollowersShareNoCancellation | cache/load_through.go:189-216 | whatever follows a publication by a cancelled leader, no follower that returns live from that flight returns an error |
| LoadThroughRuns.PublicationStays | cache/load_through.go:189-196 | a flight keeps, through any later steps, the outcome its leader carried and whether its context was done at the publication |
| LoadThroughRuns.ContextDoneIff | cache/load_through.go:204-219 | a caller's context is done exactly when the run cancelled it |
| LoadThroughRuns.CarriedFromLoad | cache/load_through.go:223-238 | what a leader carries and returns is what its own loader's result gives |
| LoadThroughRuns.LeadGives | cache/load_through.go:223-256 | a panic and an unencodable value give an error over the zero value, anything else is returned as it came, and only a nil or encodable value without error succeeds |
| LoadThrough.FlightTable.JoinOrStart | cache/load_through.go:172-187 | the lock section moves the shared table and the caller as the protocol's join step does |
| LoadThrough.FlightTable.WriteOutcome | cache/load_through.go:190-191 | the outcome fields are written as the publish step does |
| LoadThrough.FlightTable.DeleteEntry | cache/load_through.go:192-194 | the entry is deleted as the unlist step does |
| LoadThrough.FlightTable.CloseDone | cache/load_through.go:195-195 | the channel is closed as the close step does |
| ConfigSource.MergedLeaf | config/config.go:242-268 | a leaf of a merged tree is the incoming layer's where that layer has a leaf there, else the one that was there |
| ConfigSource.MergedLeafIff | config/config.go:242-268 | exactly which leaves a merge has: the layer's, unless a map guards it away, and the old ones the layer spares |
| ConfigSource.MergedMap | config/config.go:229-268 | exactly where a merge has a map, under either merge |
| ConfigSource.GuardedMergeKeepsMaps | config/config.go:229-268 | the guarded merge never turns a map node into anything else |
| ConfigSource.MergeIsIdempotent | config/config.go:242-268 | merging the same layer twice is merging it once, under either merge |
| ConfigSource.MergeInto | config/config.go:245-268 | the mutating loop, in any key order, computes the merge |
| ConfigSource.RecordedNames | config/source.go:84-109 | the names recorded for a layer are the composed names of its leaves that are leaves of the merged tree |
| ConfigSource.DeliveredNames | config/source.go:48-109 | the presence set is exactly the names of the leaves that pass their layer's merge, a condition on the layers' keys |
| ConfigSource.FinalLeafValue | config/config.go:53-129 | over any sequence of layers a final leaf has the value of the last operator layer with a leaf at that path, else the default's |
| ConfigSource.FinalLeafRecorded | config/source.go:69-109 | on segment paths a final leaf was recorded exactly when its value is an operator's |
| ConfigSource.DefaultLeafIff | config/config.go:53-129 | a final leaf is the default's exactly when every layer spares it |
| ConfigSource.DeliveredIffOperators | config/source.go:17-24 | over any sequence of layers that does not misname, which ReadsRightIff shows to be the exact condition, a final leaf reads as delivered exactly when an operator layer supplied its value |
| ConfigSource.WronglyDelivered | config/source.go:88-107 | with arbitrary operator keys, a final leaf at a readable path reads as delivered exactly when an operator supplied it or a layer passes another leaf whose name reads as it |
| ConfigSource.ReadsRightIff | config/source.go:84-109 | a sequence of layers reads right over all clean defaults if and only if no layer passes a leaf whose name reads as another readable path that every layer spares |
| ConfigSource.OneLayerReadsRightIff | config/source.go:84-109 | the same for one layer: none of its leaves is named like a readable path that it spares |
| ConfigSource.SafeRootKeys | config/source.go:88-107 | delivering one top-level scalar reads right over all clean defaults if and only if the key has no dot or starts with one |
| ConfigSource.DotFreeLayerHarmlessIff | config/source.go:88-93 | a layer without dots in its keys, as the environment's is, is harmless exactly when nothing but all-empty paths sits below an empty top-level key |
| ConfigSource.EmptyRootKeyMisreports | config/source.go:88-93 | over any defaults, a layer that holds a spared default's path below an empty top-level key makes it read as delivered though its value is the default's |
| ConfigSource.ConfigStore.LoadRecording | config/source.go:56-82 | merge first, record what survived afterwards |
| ConfigSource.ConfigStore.Record | config/source.go:84-109 | the recursive walk adds exactly the layer's surviving names |
| KeySpelling.FoldGroups | config/key_spelling.go:98-111 | the groups are the fold's equivalence classes on the keys, complete, disjoint and in order |
| KeySpelling.SameSegmentIff | config/source.go:273-278 | two segments are the same exactly when they fold to one string |
| KeySpelling.SectionNamed | config/key_spelling.go:54-63 | the section a key folds to, or none when it folds to none |
| KeySpelling.TwinGroups | config/key_spelling.go:86-91 | no group is reported exactly when no two keys fold together, root groups that fold to a section aside; each report is a whole class |
| KeySpelling.CaseTwins | config/key_spelling.go:65-96 | nothing is reported exactly when no map node below, sequences included, holds case twins, root groups that fold to a section aside |
| KeySpelling.MisspelledSections | config/key_spelling.go:32-52 | exactly the root keys that fold to a section without being spelled as it, by section |
| KeySpelling.CheckKeySpelling | config/key_spelling.go:15-30 | a tree is accepted if and only if no map node holds two fold-equal keys and every section is spelled as its name |
| KeySpelling.SectionsAreFoldDistinct | config/config.go:34-51 | the sixteen section names never fold to each other |
| Presence.Deliveries | config/source.go:243-256 | exactly the recorded paths that match the key and that the tree's own lookup finds, with their raw values, sorted |
| Presence.DeliveredValue | config/source.go:286-295 | the raw value of the first delivery, or none exactly when there is none |
| Presence.TwinFreePathsAgree | config/source.go:258-278 | without case twins two nodes whose paths fold together are one node |
| Presence.OnlyOwnNameIsFound | config/source.go:230-256 | over a twin-free tree none of whose nodes is known by another path's name, any spelling of a readable leaf finds at most one delivery, under the leaf's own name |
| Presence.LeafDeliveriesIff | config/source.go:230-256 | for any layers, that one delivery is found exactly when an operator supplied the leaf or a layer passes another leaf whose name reads as it |
| Presence.LeafHasOneDelivery | config/source.go:286-295 | over layers that do not misname, any spelling of a readable leaf finds one delivery with the last operator layer's value, and none for a default |
| Presence.OwnKeyFindsLeaf | config/source.go:230-295 | a leaf's own dotted name finds it exactly when an operator supplied it |
| Presence.LeavesBelowAreFound | config/source.go:230-271 | with under, a key finds every delivered leaf below it, and without it none of those |
| Flattening.UnflattenOfFlat | config/keystore_tree.go:220-279 | flattening an accepted tree and nesting it again gives every node back |
| Flattening.NamingRoundTrip | config/keystore_tree.go:220-279 | the same for dotted names, split at their dots |
| Flattening.NamesArePrefixFree | config/keystore_tree.go:220-279 | every segment of every name is non-empty and dot-free and no name is a dotted prefix of another |
| KeystoreTree.CheckTreeKey | config/keystore_tree.go:394-414 | a key is refused exactly when it is empty or contains a dot |
| KeystoreTree.WalkKeys | config/keystore_tree.go:231-241 | a namespace is refused exactly when it is not acceptable, else its entries are added under their names |
| KeystoreTree.ReadKeyNode | config/keystore_tree.go:243-279 | the same for one node: entry, namespace or refusal |
| KeystoreTree.ReadKeyTree | config/keystore_tree.go:220-229 | the flat map, refused exactly when not acceptable, holds under each name the node the tree has there, a null as an empty map, and unflattens to the input |
| KeystoreTree.KeyNodeIs | config/keystore_tree.go:243-353 | which nodes are entries, namespaces and refusals, in the field names an operator writes, and that an entry is stored as it stands |
| KeystoreTree.NoKeyIsDropped | config/keystore_tree.go:220-279 | at, above or below every node of an accepted tree an entry is stored |
| KeystoreTree.WalkSelectors | config/keystore_tree.go:367-392 | a selector namespace is refused exactly when it holds a bad key or an empty map, else its leaves are added |
| KeystoreTree.SelectorNodeIs | config/keystore_tree.go:367-392 | only an empty map is refused, a non-empty one is a namespace, anything else is stored as it stands |
| KeystoreTree.ReadSelectorTree | config/keystore_tree.go:355-365 | the flat selector map unflattens to exactly the input tree |
| AddressSpans.SortByLo | config/cidr.go:87-87 | a permutation of the spans, sorted by lower end |
| AddressSpans.Sweep | config/cidr.go:89-107 | true exactly when every address up to the top lies in some span |
| Cidr.MaskedValue | config/cidr.go:79-79 | masking an address byte by byte clears exactly the host bits of its value |
| Cidr.SpanFits | config/cidr.go:79-81 | a net's span is never empty and never leaves its family |
| Cidr.RangeIsContainment | config/cidr.go:35-52 | for a well-shaped net the span is exactly what byte-wise containment admits of its family, v4-mapped nets included |
| Cidr.SpanExactIffWellShaped | config/cidr.go:41-52 | that holds if and only if the mask is as long as the family's address |
| Cidr.CoverageIsContainment | config/cidr.go:57-68 | over well-shaped nets coverage is containment of every address of the family, the v4-mapped IPv6 block judged by range |
| Cidr.FamilySpans | config/cidr.go:70-83 | the spans collected hit exactly the covered addresses |
| Cidr.CoversAddressFamily | config/cidr.go:57-108 | true exactly when every integer of the family lies in the masked range of some net, for any order, nesting or duplication |
| Cidr.RejectTotalCoverage | config/cidr.go:110-143 | a list is accepted exactly when it covers neither family; a refusal names its one parsed entry, or all of them |
| CidrPrefixes.MaskOnesOf | config/cidr.go:41-52 | a prefix mask of k ones measures as k, for every k and length |
| CidrPrefixes.To4Iff | config/cidr.go:41-52 | an address is IPv4 exactly as its four bytes or behind the v4-mapped prefix |
| CidrPrefixes.NormalizeEntry | config/cidr.go:35-52 | the family, address and prefix length of every CIDR entry |
| CidrPrefixes.CoversIffPrefixes | config/cidr.go:57-108 | a list of CIDR entries covers a family exactly when every integer of it shares its leading bits with some entry |
| CidrPrefixes.ContainsIffPrefix | config/cidr.go:35-52 | containment is sharing the leading bits, v4-mapped entries and every prefix length included |
| CidrPrefixes.EntryCoverageIsContainment | config/cidr.go:57-68 | coverage is containment of every address of the family, for every list of CIDR entries |
| PostgresDsn.KeywordValue | config/postgres_dsn.go:297-318 | the byte loop reads one value, quoted or not, and leaves the rest |
| PostgresDsn.KeywordSettings | config/postgres_dsn.go:277-295 | the loop reads the settings, consuming input every round |
| PostgresDsn.ScanUndoesWrite | config/postgres_dsn.go:277-318 | scanning any written list of settings, quoted or bare, an empty bare one at the end included, under any spacing, gives the last value of each key |
| PostgresDsn.ScannedKeysOk | config/postgres_dsn.go:282-286 | every key the scanner yields is non-empty, without spaces and without an equals sign |
| PostgresDsn.WriteUndoesScan | config/postgres_dsn.go:277-318 | whatever the scanner accepts can be written down and read back unchanged |
| PostgresDsn.UnclosedQuoteIsRefused | config/postgres_dsn.go:297-318 | a quote that is never closed is refused, whatever is behind it |
| PostgresDsn.KeyWithoutEqualsIsRefused | config/postgres_dsn.go:281-286 | text without an equals sign is refused |
| PostgresDsn.EmptyKeyIsRefused | config/postgres_dsn.go:281-286 | an equals sign without a key is refused |
| PostgresDsn.SpacedKeyIsRefused | config/postgres_dsn.go:281-286 | a key that holds a space is refused |
| PostgresDsn.ScanOfWriteThen | config/postgres_dsn.go:277-295 | behind any written settings the rest of the text decides, so such a refusal refuses the whole |
| Jwks.Validate | auth/config.go:134-177 | settings are accepted exactly when the endpoint is fine, the durations are ordered and the body cap is in range |
| Jwks.Resolver.ClaimAttempt | auth/jwks.go:461-484 | an attempt is claimed exactly when open and outside the floor at the first clock reading, or forced, and recorded at the second |
| Jwks.Resolver.StoreKeys | auth/jwks.go:448-454 | a success replaces the set and its time and reports whether it was the first fill |
| Jwks.Resolver.TolerateInitialFailure | auth/jwks.go:159-168 | the failed attempt is forgotten and the first fill awaited |
| Jwks.Resolver.LookupKey | auth/jwks.go:337-368 | a key is found exactly in a non-empty set whose age is between zero and the ceiling |
| Jwks.Resolver.Close | auth/jwks.go:611-615 | the closed flag is set and nothing else |
| Jwks.OnlyStoresChangeKeys | auth/jwks.go:429-459 | a failed or skipped attempt, like every other step, changes neither the keys nor the fetch time |
| Jwks.KeysAreFresh | auth/jwks.go:304-368 | over every run from construction, under any clock, a key handed out was in the most recent successful fetch at that moment, whose age was then within the ceiling |
| Jwks.AttemptsAreSpaced | auth/jwks.go:461-484 | over every run under a clock that does not step back, claimed attempts are at least the floor apart, the forgotten construction failure aside |
| Jwks.AttemptsPerWindow | auth/jwks.go:60-65 | from construction on, any window of length w holds at most w / floor + 1 attempts, plus one for a tolerated construction failure, whatever the load and the fetch outcomes |
| Jwks.ClosedForever | auth/jwks.go:607-615 | once closed, no attempt is ever claimed again |
| Jwks.StaleMeansFloorLapsed | auth/config.go:163-169 | over every run whose attempts succeed, a set past its ceiling with no fetch out means the next claim may fetch |
| Jwks.NeverUnavailable | auth/jwks.go:304-335 | with accepted settings and succeeding attempts no lookup judged at most ceiling less floor plus one tick after its refresh settled reports the set unavailable |
| Jwks.UnavailableIffLate | auth/jwks.go:304-335 | that bound is sharp: a run with succeeding attempts can report unavailable at a given delay if and only if the delay is beyond it |
| Jwks.SplitIsExact | auth/jwks.go:318-335 | over every run, unavailable is reported exactly when no fetch succeeded within the last ceiling, and unknown, with no fetch since the second look, means the latest set lacks the kid |
| Jwks.StoreBetweenMisleads | auth/jwks.go:318-335 | a run from construction, for any accepted settings, sets and missing kid, in which a live caller is told unknown while the set it was judged by holds the kid |
| JwksRuns.FetchesAreSpaced | auth/jwks.go:461-484 | any two requests a run sends are at least the floor apart |
| JwksRuns.FirstFetchIsSpaced | auth/jwks.go:461-484 | the first comes at least the floor after a construction fetch that succeeded |
| JwksRuns.NoFetchAfterClose | auth/jwks.go:461-467 | once the run has closed the resolver no request is sent |
| JwksRuns.HeldKeys | auth/jwks.go:429-459 | the set held is what the run's last successful fetch brought, at the time it did |
| JwksRuns.LookFinds | auth/jwks.go:304-368 | a look hands out the key exactly when the set held has the kid and is inside the ceiling, and else goes on to the refresh or the verdict |
| JwksRuns.FirstFillAwaitedIff | auth/jwks.go:159-168 | a first fill is awaited exactly from a tolerated construction failure to the first successful fetch |
| Verdicts.StoresFreshest | app/readiness_verdicts.go:113-141 | the stored verdict is that of the last commit with the greatest observation time |
| Verdicts.OlderCommitIsDropped | app/readiness_verdicts.go:117-133 | a strictly older commit changes nothing and owes no line |
| Verdicts.CommitOrderIsIrrelevant | app/readiness_verdicts.go:117-141 | with distinct observation times every permutation of commits ends in the same verdict |
| Verdicts.FailingHasWarned | app/readiness_verdicts.go:143-161 | a failing non-critical kind warned within its streak and has been silent since |
| Verdicts.EntryIntoUnhealthyWarns | app/readiness_verdicts.go:143-155 | every stored entry into unhealthy is reported |
| Verdicts.WarningsAreSpaced | app/readiness_verdicts.go:143-155 | warnings of one unhealthy streak are at least the interval apart |
| Verdicts.RecoveryAnswersWarning | app/readiness_verdicts.go:156-157 | every recovery line answers a warning no other recovery has answered |
| Verdicts.RecoveryIsReportedIff | app/readiness_verdicts.go:143-161 | a recovery is reported exactly when a healthy verdict is stored over an unhealthy one |
| Verdicts.WarningIsGivenIff | app/readiness_verdicts.go:143-161 | a warning is given exactly when a stored unhealthy verdict starts a streak or comes the interval after the streak's last warning |
| Verdicts.CriticalIsSilent | app/readiness_verdicts.go:126-141 | a critical kind owes no line |
| Verdicts.VerdictStore.CommitVerdict | app/readiness_verdicts.go:126-161 | exactly one kind's entry moves, by the ordering and transition rules, and the line it owes is returned |
| Verdicts.VerdictStore.Readings | app/readiness_verdicts.go:163-181 | one reading per judged kind with its last status and criticality |
| VerdictLines.LinesComeOutInCommitOrder | app/readiness_verdicts.go:79-111 | in every interleaving the log is the commits' lines in commit order, at most the last one unwritten, and no reader waits behind a write |
| VerdictLines.RunKeepsHistory | app/readiness_verdicts.go:113-141 | in every interleaving the entries are what each kind's commits, in commit order, lead to |
| VerdictLines.ReportIsCommitted | app/readiness_verdicts.go:79-141 | whatever runs in between, a call's verdict reaches its kind's history as it was given, at the clock of the commit |
| VerdictLines.LoggedWarningsAreSpaced | app/readiness_verdicts.go:79-161 | in the log of every run, warnings of one unhealthy streak of a kind are at least the interval apart |
| VerdictLines.LoggedRecoveryAnswersWarning | app/readiness_verdicts.go:79-161 | in the log of every run, each recovery stands after a warning of its kind with no other recovery of it between |
| Lifecycle.App.StartSlots | app/lifecycle.go:136-174 | the whole start, seal and stop trace: a fatal start at slot k stops exactly slots 0 to k-1; the judge is started only if every slot started and sealed |
| Lifecycle.StartTraceHolds | app/lifecycle.go:136-174 | a fatal start at k has started slots 0 to k, and exactly slots 0 to k-1 were sealed and then stopped; without one all are started and sealed and none stopped |
| Lifecycle.StartAndSealIs | app/lifecycle.go:136-174 | slots are started and sealed once each, slot by slot |
| Lifecycle.StopFirstIs | app/lifecycle.go:182-188 | slots are stopped once each, in order |
| Lifecycle.AdvisoriesAre | app/lifecycle.go:136-174 | exactly the slots' advisories are reported |
| Lifecycle.NoSenderBlocks | app/lifecycle.go:274-302 | in every interleaving a sender that is ready finds room and an open channel, and the channel closes only after both senders finish |
| Lifecycle.NoFailureIsLost | app/lifecycle.go:274-477 | if the drain sees the close, Run reports what the two senders held, each exactly once and in the order sent; after a drain timeout, a prefix of it |
| Lifecycle.RunReportsFailures | app/lifecycle.go:274-477 | told by the run's actions: if the drain sees the close, Run reports exactly the failure Start returned and the first failure the probe listener reported, each once; after a drain timeout, a prefix of those |
| Lifecycle.SendersHold | app/lifecycle.go:278-316 | the senders hold what Start returned and the first failure the probe listener reported |
| Lifecycle.ForwardProbeError | app/lifecycle.go:304-316 | at most one send, the first serve failure |
| Lifecycle.ReceiveServeFailures | app/lifecycle.go:388-409 | every serve failure the channel carries, plus the timeout's own error if it fires |
| Readiness.Judge | app/readiness.go:100-140 | the status machine gives the verdict of the first cause on its way |
| Readiness.Judged | app/readiness.go:100-140 | unhealthy exactly with an error; a lease taken is checked, snapshotted and then released once, last; no lease, no release |
| Readiness.VerdictIs | app/readiness.go:100-140 | the status, the error and the lease events of every probe, on its own fields |
| Readiness.HealthyMeansChecked | app/readiness.go:100-140 | a healthy kind has a check, and every check it has passed |
| Readiness.FailedCheckIsUnhealthy | app/readiness.go:100-140 | a failing check, a failed lease and a kind without any check are never passed over |
| Readiness.Walk | app/readiness_render.go:63-84 | the report is the full report, or its prefix ending at the first failing critical kind |
| Readiness.Gate | app/readiness_render.go:45-52 | closed before start; afterwards blocks exactly when some critical kind fails |
| Readiness.GateOfSlots | app/readiness_render.go:45-84 | the gate of a started application blocks exactly when some critical slot is judged unhealthy |
| Readiness.ReportIsOfSlots | app/readiness_render.go:63-84 | a full report holds exactly the described slots' names, criticality and verdicts |
| Readiness.DebugComponents | app/readiness_render.go:161-184 | the component map of a report, the later of two equal names standing |
| Readiness.SummarizeHealth | app/readiness_render.go:186-216 | exact counts, and the overall status they imply |
| Readiness.SummaryCriticalIff | app/readiness_render.go:161-216 | the summary is critical exactly when some blocking kind is not hidden by a later kind of its name |
| Readiness.SummaryIs | app/readiness_render.go:186-216 | degraded exactly when a shown kind fails without the summary being critical, healthy when something is shown and nothing fails, unknown only when empty |
| Readiness.ViewsAgree | app/readiness_render.go:9-12 | over slots with distinct names the summary of the full report is critical exactly when some kind blocks |
| Readiness.BothViews | app/readiness_render.go:45-61 | run through the gate, the walk, the component map and the summary, a critical summary means a closed gate, and with distinct slot names the converse |
| Readiness.SameNameHidesBlocking | app/readiness_render.go:161-216 | with a repeated name the gate can block while the summary is not critical |
| DatabaseSection.NormalizedIsSettled | config/database_section.go:518-591 | every default filled, idle capped at max, text trimmed, and no other identity field moved but an unset type |
| DatabaseSection.NormalizeIsIdempotentIff | config/database_section.go:61-140 | a second pass gives the section back if and only if it is not a startup section without connection string whose host is blank |
| DatabaseSection.ConfiguredVerdictIff | config/database_section.go:278-314 | the configured verdict survives if and only if it is not the connect door meeting a section whose only identity is a blank host |
| DatabaseSection.BlankHostPassesOnce | config/database_section.go:396-399 | an Oracle section with a blank host that every other rule accepts is accepted once and refused for its host the second time |
| DatabaseRules.AcceptedIff | config/database_section.go:61-140 | exactly which sections each door accepts, on their own fields |
| DatabaseRules.PoolAcceptedIff | config/database_section.go:518-591 | the timezone loads and no count or duration is negative |
| DatabaseRules.CoreAcceptedIff | config/database_section.go:396-428 | which core fields suffice without a connection string |
| DatabaseRules.VendorAcceptedIff | config/database_section.go:631-689 | which TLS, host and identifier settings each vendor takes |
| DatabaseRules.FilledWith | config/database_section.go:447-591 | explicit values survive, each unset field gets its default, and idle connections are capped at the maximum |
| DatabaseRules.PostgresSchemeIsTyped | config/database_section.go:316-340 | a postgres or postgresql scheme, in any case and under surrounding space, types as postgresql |
| DatabaseRules.OracleSchemeIsTyped | config/database_section.go:316-340 | an oracle scheme types as oracle |
| DatabaseRules.KeywordFormIsTyped | config/database_section.go:316-375 | without a scheme, exactly the keyword form types as postgresql, and nothing as oracle |
| DatabaseRules.ConfiguredIff | config/database_section.go:278-314 | nothing is configured exactly when every identity field is at its zero value |
| DatabaseRules.SocketHostIff | config/database_section.go:827-863 | a socket host is an absolute path, or one on a drive |
| DatabaseSection.Section.ApplyConnectionCountDefaults | config/database_section.go:447-470 | maximum first, then idle defaulted to it and capped at it, or the negative count refused |
| DatabaseSection.Section.ApplyPoolDefaults | config/database_section.go:518-591 | the first bad value refused in order, else every default filled |
| DatabaseSection.Section.ValidateVendorFields | config/database_section.go:631-656 | trimmed values, judged by the vendor's rules |
| DatabaseSection.Section.NormalizeForConnect | config/database_section.go:88-100 | the connect door's refusals and result |
| DatabaseSection.Section.NormalizeWithConnectionString | config/database_section.go:102-126 | the startup door's refusals and result for a connection string |
| DatabaseSection.Section.NormalizeWithFields | config/database_section.go:128-140 | the startup door's refusals and result for fields |
| DatabaseSection.Section.NormalizeValues | config/database_section.go:61-86 | a refused section comes back untouched, an accepted one normalized |
| Realm.SanitizeRealm | auth/middleware.go:208-232 | the byte loop renders the issuer so that, between quotes, it reads back without its control bytes |
| Realm.RealmReadsBack | auth/middleware.go:208-232 | whatever follows, a quoted-string reader stops exactly at the closing quote |
| Realm.NoControlIsEmitted | auth/middleware.go:214-223 | no control byte is ever emitted |

## Left out

- Error messages, field paths in errors and hints, and which of several tree refusals is reported first: wording, or settled by sorted order alone.
- The write-back goroutine and the cache lookup before `fill`: detached I/O that no other part of the protocol reads.
- `recordSelectors`, `recordSequences` and the checks over them; the environment provider's own unflattening; the overlay suffix: one-pass collections and foreign code.
- `keyToEnvVar`, `envVarToKey`, `envVarForKey`: a character-wise pair settled by reading; an environment layer is any tree without dots in its keys.
- Go map aliasing in the merge: the model merges values, as koanf copies the destination before a custom merge.
- ConfigSource.DeliveredIffOperators: asks that the framework's own defaults have clean keys, and that the layers do not misname, because it is false otherwise.
- Presence.LeafHasOneDelivery: asks for a leaf at a readable path, because a leaf below an empty top-level key or under a dotted key is recorded under another path's name and cannot be found by its own; and for a tree none of whose nodes is known by another readable path's name, as a tree without dots in its keys is (DotFreeReadsBack), because a lookup may otherwise find the wrong node.
- koanf itself: its lookup is a parameter of Presence, known to find a node by its keys joined with dots.
- Parsing CIDR text: nets come as bytes; an unparsed entry, a nil net and a net whose address is nil are all absent ones.
- The connection string's URI form (`pgURISettings`, `pgURIHosts`, `pgURIQuery`) and the environment merge of its TLS claims: DatabaseSection takes the verdict on a connection string as a parameter.
- Byte lengths of passwords: DatabaseSection counts characters.
- HTTP, key set parsing, redirects, metrics and log wording in the resolver: a fetch is any success with a non-empty set or any failure.
- Jwks.NeverUnavailable: asks that the lookup waited its refresh out and is judged within the stated bound of its settling, because a slower caller can outlive the set; UnavailableIffLate shows the bound cannot be moved.
- Kinds whose criticality changes between verdicts: the reporting lemmas of Verdicts take a kind that is never critical, as a sealed description fixes it, and a commit clock that does not step back.
- Lifecycle after a hard shutdown timeout: Run returns without draining, so nothing is promised about failures then.
- Probe statistics, durations and details maps, module teardown, route registration and debug endpoints: presentation and plumbing.
- Scheduling fairness: all results are safety statements; WaitersHaveALeader says only that a step is enabled.
