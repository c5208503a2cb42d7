# kube-ssh: a verified model of its core

kube-ssh is an SSH gateway for Kubernetes. This project models the parts of it whose correctness is not
obvious from the text of one function, and proves what they promise for every input, every run and every
interleaving:

- **SCP copy** (`Scp*.dfy`): the source walks a tree and prints a protocol of lines and bytes, the sink parses
  it with a stack of directories. A tree copied into a directory arrives exactly as it was if and only if times
  are not sent and no name has a line break; copied over something, it is merged or clashes; whatever is sent,
  nothing outside the target changes; whatever is answered, the source stops at the first refusal; and the two
  programs run in lockstep.
- **Target selection** (`Selection`, `Selector`, `SelectionRuns`): weighted round robin, weighted least
  connections, newest, oldest, sticky sessions with expiry, and counted connections with release handles.
- **Wildcard matching** (`Wildcard`): the greedy matcher is exact.
- **Access policy** (`Credentials`, `AccessValidation`, `CredentialMatching`, `ValidAccess`, `Locators`, `Pods`,
  `Accesses`, `Resolver`, `LoginOutcomes`, `Readiness`): the Valid and Ready conditions, authentication, username
  parsing and target resolution look at the same Access from different sides, and agree. `ValidAccess` and
  `LoginOutcomes` say what they come to on the stored objects and the configuration alone.
- **Registries and lifecycles** (`RemoteForward`, `RemoteForwardRuns`, `SshProxy`, `SshProxyRuns`,
  `SshProxyAdmission`, `HelperCache`, `RpcConnection`):
  each locked section is one atomic step; the theorems are about all interleavings of the steps.
- **Session limits** (`SessionTimeout`): one timer, never re-armed by activity, enforces a lifetime limit and an
  idle limit.

`Text`, `Numerals`, `HostPort` and `Sorting` model the parts of Go's libraries that the rest needs; `Wrappers` has
the option type and `Counting` the number of occurrences in a list.

## How it is built

A byte string is a `string`, one `char` a byte. Objects that change in place are classes; each method's contract
equates the new abstract value (`Value()`, or the table it holds) with a function of the old one. Whole runs are
sequences of events over those same functions, on numbers instead of objects where the source has pointers:
`Enabled` says when an event can happen, `Step` or `Apply` what it does, `Possible` which sequences are runs and
`End` where they lead. Time, the random draw, the answers of the Kubernetes API, the upstream SSH server and the Pod
lister are parameters or events. `keyFingerprint` is an arbitrary function from key lines to fingerprints, and the
Secrets are one snapshot.

Where a promise does not hold for all inputs, the condition under which it does is part of the theorem, and a lemma
shows an input or a run for which it fails:

- `ScpTransfer.RoundTrip`: with `-p` the source prints a time header of four fields (`scp.go:322`) where the
  sink demands five (`scp.go:392`), so such a copy always fails; and a name with a line break cannot be sent.
- `ScpNewDirectory.RoundTripToNewTarget`: the same for a target that does not exist yet. There the name at the top is
  not used, and the rest of a broken name of a directory is read as further lines. It is harmless if these are blank,
  time or end lines, and there is no end line or nothing below: `ScpNewDirectory.BrokenDirNameMayArrive` and
  `ScpNewDirectory.BrokenDirNameMayFail` show both.
- `SshProxyRuns.OperationsAreConserved`: if the upstream server reports a port that is already forwarded, the
  operation filed there is overwritten and never finished. `SshProxyRuns.CollisionHappens` is such a run.
- `SshProxy.GrantedHostIsRequested`: a forward for port zero on a host written in square brackets is filed under the
  host without them. `SshProxyAdmission.BracketsAdmitAnotherHost` is a run in which a connection for a host that
  nobody asked for is admitted.
- `RemoteForwardRuns.OrphansAreOverrun`: if the helper gives a listener a bind that another one has, the other stays
  open and closing the client does not reach it. `RemoteForwardRuns.OverrunHappens` is such a run.
- `HelperCache.SingleFlight`: two preparations for one key overlap only if the key was invalidated in between, and
  then they may: `HelperCache.InvalidateStartsAnother`.
- `RpcConnection.Lifecycle`: `RegisterStreamHandler` gives up the lock between its check and its store
  (`connection.go:148`), so a registration that passed its check is stored even if the connection closes first, and
  no other is: `RpcConnection.LateStore`.
- `SessionTimeout.DecisionIs`: reads and writes store their times without ordering, so an older time may overwrite a
  newer one; the idle limit is then enforced early, never late. `SessionTimeout.OutOfOrderClosesEarly` is such a run.
- `Readiness.NotReadyWithoutDefault`: an Access whose Pods name a default container that does not exist is never
  ready, though a login that names a container succeeds: `Readiness.ReachableThoughNotReady`.
- `Readiness.ReadyMeansReachable`: an active Pod named like a Pod and a container takes precedence over them.
  `Readiness.ReadyThoughShadowed` is such a list of Pods.
- `Readiness.ExternalReady`: an External Access without endpoints is reported ready and serves nobody.
- `Locators.LocatorRoundTrip`: an Access named like another Access and a container takes precedence.
  `Locators.LocatorIsShadowed` is such a store.

## Model

| member | source | states |
|---|---|---|
| Wildcard.Match | pkg/wildcard/pattern.go:8-36 | True if and only if the value is the pattern with each star replaced by some string |
| Wildcard.MatchRest | pkg/wildcard/pattern.go:24-35 | The shrinking loop over the parts decides the greedy search |
| Wildcard.MatchAny | pkg/wildcard/pattern.go:40-47 | True if and only if some pattern matches |
| Wildcard.LeftmostSuffices | pkg/wildcard/pattern.go:24-33 | Taking the leftmost occurrence of a part loses no match of the parts after it |
| Wildcard.GreedyIsGapped | pkg/wildcard/pattern.go:24-35 | The greedy search succeeds exactly when the parts occur in order with arbitrary gaps |
| Wildcard.MatchesOnParts | pkg/wildcard/pattern.go:16-23 | Replacing stars is the same as spreading the parts between stars over the value |
| ScpFormat.FileHeaderParses | pkg/podssh/backend/helper/scp.go:353-371 | A printed file header parses back to its mode, size and name |
| ScpFormat.DirHeaderParses | pkg/podssh/backend/helper/scp.go:373-383 | A printed directory header parses back to its mode and name |
| ScpFormat.TimesHeaderRejected | pkg/podssh/backend/helper/scp.go:319-326 | Every time header the source prints is refused by the sink's parser |
| ScpFormat.HeadersAreLines | pkg/podssh/backend/helper/scp.go:250-251 | No header of a one-line name contains a line break |
| ScpFormat.LineMeans | pkg/podssh/backend/helper/scp.go:118-187 | The sink reads each printed header as the command it was printed for, or as malformed if it is a time header |
| ScpFormat.LetterDecides | pkg/podssh/backend/helper/scp.go:115-187 | A line is a header of a kind only if it begins with the letter of that kind, whatever follows |
| ScpFormat.FiveFieldsAreTimes | pkg/podssh/backend/helper/scp.go:385-407 | A time header of five fields is taken, with the first and the third as the times |
| Numerals.IntParses | pkg/podssh/backend/helper/scp.go:396-403 | A number of either sign parses back from its decimal form if and only if it fits 64 bits |
| Numerals.OnlyItsDigitsParse | pkg/podssh/backend/helper/scp.go:353-383 | A mode or a size has at least one digit and only digits of its base |
| ScpTree.PlaceVacant | pkg/podssh/backend/helper/scp.go:140-148 | Making the directories and files of a tree at a free place adds exactly the image of the tree |
| ScpTree.CleanIsEntryName | pkg/podssh/backend/helper/scp.go:409-414 | The names the sink takes are exactly those an entry of a directory can have |
| ScpSink.ReceiveFile | pkg/podssh/backend/helper/scp.go:212-242 | Receiving a file by copying leaves the same final state as the byte-by-byte specification |
| ScpSink.CopyBody | pkg/podssh/backend/helper/scp.go:221-241 | Length-framed copying with its terminator, truncation and bad-terminator cases |
| ScpSink.ReceiveDir | pkg/podssh/backend/helper/scp.go:129-156 | Entering a directory: the path, the made directories, the stack and the acknowledgement |
| ScpSink.HandleLine | pkg/podssh/backend/helper/scp.go:114-187 | One pass of the loop, for every header, keeps the final state of the whole reception |
| ScpSink.RunSink | pkg/podssh/backend/helper/scp.go:96-189 | The loop over any input ends in the state of the specification, with its files, stack and acknowledgements |
| ScpSink.LineIsAnswered | pkg/podssh/backend/helper/scp.go:114-187 | Every line but a blank one is answered, with zero exactly as long as the sink goes on |
| ScpSink.TruncatedBody | pkg/podssh/backend/helper/scp.go:221-235 | What came of a body that ends early is in the file, the copy fails, and only missing data is answered |
| ScpSource.SendFile | pkg/podssh/backend/helper/scp.go:244-273 | Writes the pieces of a file, or of a special file with its reported size, each after the response to the one before, stopping at the first error |
| ScpSource.SendDir | pkg/podssh/backend/helper/scp.go:275-317 | The same for a whole directory tree, skipping special files |
| ScpSource.RunSource | pkg/podssh/backend/helper/scp.go:191-210 | Sends nothing unless the first response is zero, refuses a directory without -r, and otherwise exchanges the pieces of the tree, for every sequence of responses |
| ScpSource.EndsWellIffAllZero | pkg/podssh/backend/helper/scp.go:244-351 | For all responses, the source ends well if and only if there is a zero response to every piece, and then has sent them all |
| ScpSource.StopsAtFirstRefusal | pkg/podssh/backend/helper/scp.go:244-351 | For all responses, at the first that is missing or not zero the source fails, and has sent exactly the pieces up to the one it answers |
| ScpSource.SpecialIsSentAsFile | pkg/podssh/backend/helper/scp.go:244-273 | A special file is sent like a regular one if and only if its size is reported right |
| ScpTransfer.BytesStep | pkg/podssh/backend/helper/scp.go:107-187 | On the bytes of one printed piece the sink takes one step, that of the piece, and reads no further |
| ScpTransfer.Transfers | pkg/podssh/backend/helper/scp.go:275-317 | The pieces of a tree make the sink create that tree, return to the directory it was in, and acknowledge once per piece; or fail when the file system refuses |
| ScpTransfer.ExchangeOks | pkg/podssh/backend/helper/scp.go:337-351 | With a good response to every piece the source sends the whole stream and ends well |
| ScpTransfer.DirEndsWithE | pkg/podssh/backend/helper/scp.go:312-316 | The stream of every directory ends with a line that is the letter E alone |
| ScpTransfer.PreserveFails | pkg/podssh/backend/helper/scp.go:390-394 | With times sent, the sink refuses the first header and stores nothing |
| ScpTransfer.ReceiveKeepsPlain | pkg/podssh/backend/helper/scp.go:409-414 | Whatever the input, the sink creates no path with a line break below its root |
| ScpContainment.SinkStaysBelowTarget | pkg/podssh/backend/helper/scp.go:96-189 | Whatever bytes arrive, everything outside the target is unchanged, and every new path is reached from the target by clean names or leads to it |
| ScpTransfer.RoundTrip | pkg/podssh/backend/helper/scp.go:96-189 | A copy into a directory rebuilds the same paths, contents and modes under root/name, with the stack back at the root, if and only if times are not sent and names have no line break |
| ScpMerge.PlaceMerges | pkg/podssh/backend/helper/scp.go:129-242 | Copying a tree step by step over any file system lays its image over what is there, or fails exactly where a file meets a directory |
| ScpMerge.CopyMerges | pkg/podssh/backend/helper/scp.go:96-189 | A copy to any target below a directory: without a clash files are replaced and keep their modes, directories are kept, the rest is added and nothing else changes; with a clash it fails |
| ScpMerge.NoPlaceForFile | pkg/podssh/backend/helper/scp.go:212-220 | A file for which there is no directory is refused and nothing changes |
| ScpNewTarget.BrokenFileFails | pkg/podssh/backend/helper/scp.go:221-241 | A file whose own name has a line break never arrives at a new target, whatever its content |
| ScpNewDirectory.ArrivesIffLedHome | pkg/podssh/backend/helper/scp.go:106-163 | A directory, whatever its name, whose header opens no file arrives at a new target if and only if its entries, placed where the lines of the header lead the sink, give the tree |
| ScpNewDirectory.OverIsNotTheTree | pkg/podssh/backend/helper/scp.go:140-144 | Entries received after the directory was left early are placed over the target itself, which never gives the tree unless nothing is sent |
| ScpNewDirectory.RoundTripToNewTarget | pkg/podssh/backend/helper/scp.go:96-189 | A copy to a target that does not exist rebuilds the tree at the target itself if and only if times are not sent, no name below has a line break, and the own name has none or is a directory's whose further lines are blank, time or end lines, without an end line unless nothing is below |
| ScpNewDirectory.BrokenDirNameMayArrive | pkg/podssh/backend/helper/scp.go:107-117 | Every directory whose name ends in a line break and is otherwise admissible does arrive at a new target |
| ScpNewDirectory.BrokenDirNameMayFail | pkg/podssh/backend/helper/scp.go:157-163 | A directory whose name goes on with an end line arrives only if nothing is below it |
| ScpLockstep.OneSideMoves | pkg/podssh/backend/helper/scp.go:328-351 | At every point of a transfer exactly one side can move, until both are finished, and its move leads to the next point |
| ScpLockstep.SourceIsExchange | pkg/podssh/backend/helper/scp.go:191-351 | Whatever the responses are, the source of the lockstep writes what the sending side writes, and is done exactly when that ends well |
| ScpLockstep.Lockstep | pkg/podssh/backend/helper/scp.go:96-351 | There is one interleaving: after every step the responses heard, the pieces sent and the acknowledgements match one to one and in order but for the one item on its way, one side can move, and the run ends after two steps per piece and one more with the tree in place |
| Selection.TotalWeight | pkg/accesspolicy/strategy.go:188-194 | The loop computes the sum of the weights |
| Selection.WeightedIndex | pkg/accesspolicy/strategy.go:178-186 | The candidate on whose stretch of the weight line the index falls, the first one beyond the line |
| Selection.RatioTransitive | pkg/accesspolicy/strategy.go:162-172 | The cross-multiplied comparison of ratios is transitive, strictly if either part is strict |
| Selection.LeastConnectionsIndex | pkg/accesspolicy/strategy.go:162-172 | The smallest ratio of connections to weight over all candidates and, among equals, the smallest key |
| Selection.OldestIndex | pkg/accesspolicy/strategy.go:207-216 | The earliest creation time and, among equals, the smallest key |
| Selection.NewestIndex | pkg/accesspolicy/strategy.go:196-205 | The latest creation time and, among equals, the smallest key |
| Selector.StrategySelector.AffinityIndex | pkg/accesspolicy/strategy.go:135-154 | Finds a remembered target that is still valid, and forgets any other entry of the key |
| Selector.StrategySelector.RoundRobinIndex | pkg/accesspolicy/strategy.go:156-160 | The candidate whose turn it is; the counter advances by one |
| Selector.StrategySelector.StrategyIndex | pkg/accesspolicy/strategy.go:113-125 | The choice is one the strategy allows, and only round robin changes a counter |
| Selector.StrategySelector.Choose | pkg/accesspolicy/strategy.go:113-131 | The strategy's choice, remembered when the request has an affinity key |
| Selector.StrategySelector.TrackTarget | pkg/accesspolicy/strategy.go:218-242 | One more connection is counted and an unused release handle for it is returned |
| Selector.StrategySelector.SelectTarget | pkg/accesspolicy/strategy.go:101-133 | The whole selection: an eligible candidate, the complete new state, and its release handle |
| Selector.Lease.Release | pkg/accesspolicy/strategy.go:226-240 | Only the first call gives the connection back |
| SelectionRuns.CountsAreExact | pkg/accesspolicy/strategy.go:218-242 | In every run of selections and releases, in any order and repeated, each count is the number of unreleased selections and no zero is stored |
| SelectionRuns.CountsFromStart | pkg/accesspolicy/strategy.go:50-56 | The same for every run of a new selector |
| SelectionRuns.ReleaseUndoesTrack | pkg/accesspolicy/strategy.go:226-240 | A selection released at once leaves the state as it was |
| SelectionRuns.ReleaseClosesOne | pkg/accesspolicy/strategy.go:226-240 | The first release of a handle closes one connection of its key, a second changes nothing |
| SelectionRuns.NamedIsCounted | pkg/accesspolicy/strategy.go:75-85 | A connection to a named target is counted like any other, at any time |
| SelectionRuns.LeastIsByOpenHandles | pkg/accesspolicy/strategy.go:162-172 | In every run a choice by least connections has, for its weight, no more handles still open than any other candidate, and among equals the least key |
| SelectionRuns.ConnectionKeysDiffer | pkg/accesspolicy/strategy.go:244-246 | Different Accesses or targets are counted under different keys |
| SelectionRuns.FairRounds | pkg/accesspolicy/strategy.go:156-194 | From any counter value, k rounds of turns fall to each candidate exactly k times its weight |
| SelectionRuns.RoundRobinIsFair | pkg/accesspolicy/strategy.go:156-194 | The same in every run, whatever other selections and releases interleave |
| SelectionRuns.TurnsFromStart | pkg/accesspolicy/strategy.go:156-160 | In every run of a new selector the picks of an access are those of the turns from zero on |
| SelectionRuns.StaysWithTarget | pkg/accesspolicy/strategy.go:135-154 | In every run, a remembered target is returned by every selection that comes no later than its expiry and still offers it |
| SelectionRuns.ReplacesTarget | pkg/accesspolicy/strategy.go:113-154 | A selection with no entry, one past its expiry, or one whose target is not offered makes a choice the strategy allows, remembers it until its timeout, and later selections return it |
| Locators.ParsedRenders | pkg/accesspolicy/resolver.go:186-200 | Whatever the parser after authentication accepts is written as the username it was given |
| Locators.ParsersAgree | pkg/accesspolicy/resolver.go:142-200 | Whatever the parser before authentication makes of a username, the one after authentication makes the same of it |
| Locators.ProvidedIsNamed | pkg/accesspolicy/resolver.go:142-184 | What is provided is stored under its namespace and name, neither of them empty, and names at most one of a Pod and a container |
| Locators.LocatorRoundTrip | pkg/accesspolicy/resolver.go:142-184 | A locator of separator-free names is read back from its username if and only if its Access exists and no Access named like it and the container shadows it |
| Locators.LocatorIsShadowed | pkg/accesspolicy/resolver.go:142-184 | With Accesses a and a.c the username for container c of the first resolves to the second |
| Credentials.SplitSecretLines | pkg/accesspolicy/policy_cache.go:240-250 | The non-blank trimmed lines, in order |
| Credentials.SecretTokens | pkg/accesspolicy/policy_cache.go:240-250 | The tokens of a Secret value are exactly its trimmed lines that are not blank |
| Credentials.CheckPasswordRefs | pkg/accesspolicy/status_controller.go:389-402 | The tokens of all password references, or the first failure |
| Credentials.CheckKeyRefs | pkg/accesspolicy/status_controller.go:403-420 | The fingerprints of all key references, or the first failure |
| Credentials.ValidateCredential | pkg/accesspolicy/status_controller.go:368-425 | All material of a credential, or the first reason against it |
| Credentials.ValidatedIsMatched | pkg/accesspolicy/policy_cache.go:144-186 | Where validation finds material, authentication reads exactly the same and no empty password |
| AccessValidation.DuplicateMaterialOwner | pkg/accesspolicy/status_controller.go:427-435 | Reports a duplicate exactly when some value belongs to another user, otherwise enters all values |
| AccessValidation.ValidateCapabilityPolicy | pkg/accesspolicy/status_controller.go:334-361 | True exactly when every forward expression is a wildcard or a host and port |
| AccessValidation.ValidateCredentials | pkg/accesspolicy/status_controller.go:294-318 | The fault of the first faulty credential: name, duplicate name, material, shared material, capabilities |
| AccessValidation.ValidateContainers | pkg/accesspolicy/status_controller.go:322-330 | True exactly when every container a credential names is exposed by the Access |
| AccessValidation.ValidateAccess | pkg/accesspolicy/status_controller.go:290-332 | The Valid condition, equal to its declarative definition on every Access |
| ValidAccess.ReasonOfReference | pkg/accesspolicy/status_controller.go:437-452 | Which of the three reasons a reference that cannot be used is given |
| ValidAccess.SoundIsGood | pkg/accesspolicy/status_controller.go:368-425 | A credential is sound if and only if it has material, no empty password, usable references and keys with fingerprints; what is collected is exactly what it has |
| ValidAccess.ValidIff | pkg/accesspolicy/status_controller.go:290-361 | An Access is valid if and only if it has a credential, each is named, sound and has readable rules, no two share a name, a password or a key, and the containers they name are exposed |
| CredentialMatching.CredentialPasswords | pkg/accesspolicy/policy_cache.go:144-161 | The passwords of a credential, or an error when a reference cannot be read |
| CredentialMatching.CredentialPublicKeys | pkg/accesspolicy/policy_cache.go:163-186 | The fingerprints of a credential, or an error when a key or reference cannot be read |
| CredentialMatching.CredentialMatch | pkg/accesspolicy/policy_cache.go:133-142 | One holder is an identity, none is not provided, several are an error |
| CredentialMatching.MatchPassword | pkg/accesspolicy/policy_cache.go:81-106 | The outcome for a password, equal to its declarative definition |
| CredentialMatching.MatchPublicKey | pkg/accesspolicy/policy_cache.go:108-131 | The outcome for a public key, equal to its declarative definition |
| CredentialMatching.HoldingsAreMaterial | pkg/accesspolicy/policy_cache.go:144-186 | Against a faultless Access authentication reads the material that validation collected, credential by credential |
| CredentialMatching.ValidMeansDecided | pkg/accesspolicy/status_controller.go:290-332 | Against a valid Access every password and key gives the one credential that holds it or not provided, never an error |
| ValidAccess.BelongsToItsOwner | pkg/accesspolicy/policy_cache.go:81-142 | In a valid Access a password or a key belongs to a credential if and only if that credential has it |
| ValidAccess.PasswordOutcome | pkg/accesspolicy/policy_cache.go:81-161 | Against any Access a password is an error if and only if a Secret cannot be read or two credentials have it; otherwise it belongs to the one that has it, or to nobody |
| ValidAccess.KeyOutcome | pkg/accesspolicy/policy_cache.go:108-186 | The same of a public key by its fingerprint |
| CredentialMatching.DuplicateIsAmbiguous | pkg/accesspolicy/status_controller.go:309-314 | A verdict of duplicate material implies a password or key on which authentication fails |
| Pods.ActivePods | pkg/accesspolicy/strategy.go:263-273 | The Pods neither deleted nor finished, sorted |
| Pods.CandidatePods | pkg/accesspolicy/strategy.go:248-261 | The ready ones among them, or all when none is ready |
| Pods.CandidatesAre | pkg/accesspolicy/strategy.go:248-291 | Candidates are sorted, exactly the active Pods that are ready or all when none is, and missing only when no Pod is active |
| Pods.ResolveContainer | pkg/podtarget/resolver.go:110-131 | The requested or default container if the Pod has it, with the Pod's default |
| Pods.SplitLocator | pkg/accesspolicy/resolver.go:212-222 | Cutting at the first dot with a fallback to the last is a split at the last dot, refusing a leading dot |
| Pods.ResolveExplicitPodLocator | pkg/accesspolicy/resolver.go:205-229 | An exact name of an active Pod wins, otherwise the last dot separates the container |
| Sorting.SortOrders | pkg/accesspolicy/strategy.go:284-291 | Sorting orders the elements for every total order |
| Accesses.ContainerAllowed | pkg/accesspolicy/resolver.go:231-233 | An empty list allows every container, otherwise some pattern matches |
| Accesses.FindCredential | pkg/accesspolicy/authorizer.go:61-68 | The first credential of that name |
| Accesses.PodWeightOf | pkg/accesspolicy/strategy.go:293-306 | The weight of the first matching entry, never less than one |
| Accesses.FirstMatchDecides | pkg/accesspolicy/strategy.go:293-321 | A Pod has the weight of the first entry whose labels it has, if positive, and one otherwise |
| Accesses.PodKeysDiffer | pkg/accesspolicy/strategy.go:368-373 | Two Pods have the same key exactly if they are the same Pod |
| Accesses.AffinityKeysDiffer | pkg/accesspolicy/strategy.go:338-359 | Two logins share an affinity key only on the same Access, by the same kind and value |
| Resolver.Admit | pkg/accesspolicy/resolver.go:96-110 | The container of the selected Pod is granted exactly when Access, limit and credential allow it |
| Resolver.TrackedAndReleased | pkg/accesspolicy/resolver.go:98-110 | Counting a selection and giving it back leaves every count as it was, in any state |
| LoginOutcomes.MissingContainer | pkg/podtarget/resolver.go:110-131 | A request is bad if and only if the Pod does not have the container asked for, or its default |
| LoginOutcomes.OnlyTheDefault | pkg/podtarget/resolver.go:135-146 | Under the mode KubernetesDefault naming any container but the default one is forbidden |
| LoginOutcomes.UnknownModeForbids | pkg/podtarget/resolver.go:135-146 | A mode that is not known forbids every container |
| LoginOutcomes.ListsDecide | pkg/accesspolicy/resolver.go:102-110 | Without a limit, or for the default container, the lists of the Access and the credential alone decide |
| LoginOutcomes.AuthenticationBinds | pkg/accesspolicy/resolver.go:116-137 | A login that was authenticated for an Access reaches that Access and no other, by a username written for it |
| LoginOutcomes.AuthenticationRefuses | pkg/accesspolicy/resolver.go:119-126 | Half an identity, or a username written for something else, is a bad request |
| LoginOutcomes.StoreAnswers | pkg/accesspolicy/resolver.go:127-134 | An Access that is gone is not provided, a store that fails is an error, and neither changes the selector |
| LoginOutcomes.ExternalLogin | pkg/accesspolicy/resolver.go:53-64 | Every run on an External Access gives one of its endpoints, refuses a Pod or a container, or is unavailable without endpoints |
| LoginOutcomes.PodLogin | pkg/accesspolicy/resolver.go:65-114 | Every run on a Pod Access without a named Pod gives a running Pod, ready unless none is, and the container asked for or its default; it is unavailable exactly when no Pod runs |
| LoginOutcomes.LoginIsCounted | pkg/accesspolicy/resolver.go:96-114 | A granted login counts one connection to its Pod and no other; a failed one none |
| LoginOutcomes.NamedPodLeavesTurns | pkg/accesspolicy/strategy.go:75-85 | A login that names its Pod neither takes a turn nor is remembered |
| LoginOutcomes.RefusedTakesItsTurn | pkg/accesspolicy/resolver.go:87-110 | Any other takes its turn and is remembered, even if it is refused in the end |
| LoginOutcomes.AlikeGetsTheSamePod | pkg/accesspolicy/strategy.go:101-154 | A login that the configured affinity takes for the same gets the earlier Pod until the configured timeout, and afterwards what the strategy allows |
| LoginOutcomes.NotRemembered | pkg/accesspolicy/strategy.go:338-359 | Without an affinity that applies nothing is remembered and the strategy alone decides |
| LoginOutcomes.ConfiguredStrategy | pkg/accesspolicy/strategy.go:113-125 | The choice is the oldest, the newest, the least loaded or the one whose turn it is, as the Access configures |
| LoginOutcomes.ConfiguredWeight | pkg/accesspolicy/strategy.go:58-72 | A Pod counts by the weight of the first configured entry whose labels it has |
| LoginOutcomes.EndpointChoice | pkg/accesspolicy/strategy.go:87-99 | Endpoints are chosen in turn or by connections, with the configured weights, and at random under any other strategy |
| Resolver.AccessResolver.SelectPodByName | pkg/accesspolicy/strategy.go:75-85 | The active Pod of that name, counted, without strategy or affinity |
| Resolver.AccessResolver.SelectPod | pkg/accesspolicy/strategy.go:58-73 | An eligible candidate Pod, the complete new state, and its release handle |
| Resolver.AccessResolver.SelectEndpoint | pkg/accesspolicy/strategy.go:87-99 | The same for the endpoints of an external Access |
| Resolver.AccessResolver.Bind | pkg/accesspolicy/resolver.go:96-113 | A selected Pod is bound, or given back with an error and unchanged counts |
| Resolver.AccessResolver.ResolveThePod | pkg/accesspolicy/resolver.go:75-86 | A named Pod is resolved, selected and bound as planned |
| Resolver.AccessResolver.ResolveSomePod | pkg/accesspolicy/resolver.go:87-95 | A Pod is chosen by the strategy and bound as planned |
| Resolver.AccessResolver.ResolveRequested | pkg/accesspolicy/resolver.go:53-113 | The outcome and state for a known Access, for every kind of Access and locator |
| Resolver.AccessResolver.Resolve | pkg/accesspolicy/resolver.go:45-114 | The outcome and complete state of a resolution; every failure leaves all connection counts unchanged |
| Readiness.ExposedTo | pkg/accesspolicy/status_controller.go:272-285 | True exactly when some credential is admitted to the container |
| Readiness.StatusContainer | pkg/accesspolicy/status_controller.go:267-288 | The first exposed container of a Pod whose default container exists |
| Readiness.StatusFor | pkg/accesspolicy/status_controller.go:172-252 | The Ready condition, equal to its declarative definition |
| Readiness.PlanIsThePod | pkg/accesspolicy/resolver.go:75-86 | A login that names a Pod and a container is planned for exactly those, or for the active Pod literally named so if there is one |
| Readiness.ExposedIsReachable | pkg/accesspolicy/resolver.go:45-114 | Such a login is granted exactly those if and only if the credential is admitted to the container and no active Pod is named like them |
| Readiness.ReachableIsResolved | pkg/accesspolicy/resolver.go:45-114 | Every run of the resolution of a reachable login succeeds with that Pod and container |
| Readiness.ReadyMeansReachable | pkg/accesspolicy/status_controller.go:172-288 | If a Pod Access is reported ready, some credential naming some Pod and container of it is granted exactly those, if and only if no active Pod is literally named like the two |
| Readiness.ReachableMeansReady | pkg/accesspolicy/status_controller.go:267-288 | A valid Access with a reachable container in a Pod whose default container exists is ready |
| Readiness.NotReadyWithoutDefault | pkg/accesspolicy/status_controller.go:267-271 | Without a Pod whose default container exists the Access is not ready |
| Readiness.ExternalReady | pkg/accesspolicy/status_controller.go:196-205 | An External Access is ready exactly when it is valid, and usable exactly when it has an endpoint |
| Readiness.ReachableThoughNotReady | pkg/accesspolicy/status_controller.go:267-271 | A valid Access, a Pod and a login that is granted a container although the Access is not ready |
| Readiness.ReadyThoughShadowed | pkg/accesspolicy/resolver.go:205-228 | Two Pods, one named like the other and its container: the Access is ready, and asking for that container reaches the other Pod |
| HostPort.JoinInjective | pkg/sshproxy/proxy.go:559-561 | Different hosts and ports are joined to different texts |
| HostPort.SplitUndoesJoin | pkg/sshproxy/proxy.go:563-574 | A joined address splits back if and only if the host has no square brackets, and what it splits into otherwise |
| SshProxy.KeyInjective | pkg/sshproxy/proxy.go:559-561 | Different endpoints have different table keys |
| SshProxy.ActualKeyIsKey | pkg/sshproxy/proxy.go:563-574 | The key under which an accepted forward is filed is the key of its actual endpoint |
| SshProxy.PortZeroFiledUnderAllocatedPort | pkg/sshproxy/proxy.go:563-574 | A forward for port zero is filed under the requested host and the allocated port if and only if the host has no square brackets |
| SshProxy.GrantedHostIsRequested | pkg/sshproxy/proxy.go:563-574 | The host filed is the host requested if and only if the port was not zero, no port was reported, or the host is not written in square brackets; and the port that is filed |
| SshProxy.Proxy.AddRemoteForward | pkg/sshproxy/proxy.go:470-479 | Stores the operation, or finishes it when closed |
| SshProxy.Proxy.RemoveRemoteForward | pkg/sshproxy/proxy.go:481-487 | Removes and finishes the operation, if there is one |
| SshProxy.Proxy.SetAgentForward | pkg/sshproxy/proxy.go:496-507 | Replaces and finishes the operation before, or finishes the new one when closed |
| SshProxy.Proxy.Close | pkg/sshproxy/proxy.go:140-165 | Empties the tables and finishes everything they held; a second call changes nothing |
| SshProxy.Proxy.HandleRequest | pkg/sshproxy/proxy.go:94-137 | The answer and the tables for every kind of request and every outcome upstream; a forward that is there already and a cancel of one that is not are refused whatever upstream would say |
| SshProxyRuns.StepsAreMethods | pkg/sshproxy/proxy.go:481-507 | The steps that take an operation out change the tables as the methods do, once it is finished; closing again changes nothing |
| SshProxyRuns.CloseIsTheMethod | pkg/sshproxy/proxy.go:140-165 | In every run the step of Close, followed by finishing what it took, in any order of the forwards and the agent last, is possible and satisfies the contract of the method |
| SshProxyRuns.NeverTwice | pkg/sshproxy/proxy.go:94-165 | In every interleaving, whatever upstream reports, an operation is in at most one place and finished at most once |
| SshProxyRuns.RefusedIsFinished | pkg/sshproxy/proxy.go:458-468 | In every run an operation that was not allowed is finished once and is nowhere else, in every continuation |
| SshProxyRuns.AllowedIsHeld | pkg/sshproxy/proxy.go:458-468 | One that was allowed is in the hands of its handler and not finished |
| SshProxyRuns.AnsweredOnce | pkg/sshproxy/proxy.go:94-137 | After the answer of a request there is no other until the next request starts |
| SshProxyRuns.CollisionHappens | pkg/sshproxy/proxy.go:470-479 | Runs in which upstream answers port zero with a port that is taken: the first forward is nowhere at the end and never finished |
| SshProxyRuns.RequestedPortIsFresh | pkg/sshproxy/proxy.go:103-106 | In every run only a request for port zero can be filed over another forward |
| SshProxyRuns.OperationsAreConserved | pkg/sshproxy/proxy.go:94-165 | In every interleaving each begun operation is in exactly one place - a handler, one slot, taken to be finished, a channel, or finished once - if and only if upstream never reported a port already forwarded |
| SshProxyRuns.ClosedHoldsNothing | pkg/sshproxy/proxy.go:140-165 | In every run that has closed the proxy nothing is held, however it went on and whatever upstream reports |
| SshProxyRuns.CloseReleasesAll | pkg/sshproxy/proxy.go:146-164 | Whatever was held when a run closed is, in every continuation, waiting to be finished or finished exactly once |
| SshProxyAdmission.HandlerIsCurrent | pkg/sshproxy/proxy.go:94-137 | A request being handled is the one that arrived last in the run, and was authorised |
| SshProxyAdmission.OnlyGrantedForwardsPass | pkg/sshproxy/proxy.go:231-241 | In every run, whatever upstream reports, a forwarded-tcpip channel passes if and only if the history has an authorised, accepted forward that came to that host and port, no accepted cancel of it since, and no close (section 7.2 of RFC 4254) |
| SshProxyAdmission.CheckDecides | pkg/sshproxy/proxy.go:103-111 | At every point of every run a forward goes on to upstream exactly when its endpoint is not forwarded, and a cancel exactly when it is |
| SshProxyAdmission.CancelWasLive | pkg/sshproxy/proxy.go:107-111 | In every run a cancel that is put to upstream was checked when its endpoint was forwarded |
| SshProxyAdmission.BracketsAdmitAnotherHost | pkg/sshproxy/proxy.go:563-574 | Runs in which a forward for port zero on a host in square brackets admits connections for a host nobody asked for |
| RemoteForward.RemoteListener.Deliver | pkg/podssh/backend/helper/remote_forward.go:417-434 | Queues the stream last, or has it reset when the listener or the client is closed |
| RemoteForward.RemoteListener.TryAccept | pkg/podssh/backend/helper/remote_forward.go:368-401 | One pass of the waiting loop: the first queued stream, or the reason to stop, or waiting |
| RemoteForward.RemoteListener.CloseLocal | pkg/podssh/backend/helper/remote_forward.go:436-452 | Closes once, keeps the first reason, and hands back the queue to be reset |
| RemoteForward.RemoteForwardClient.Add | pkg/podssh/backend/helper/remote_forward.go:286-294 | Registers unless the bind is taken |
| RemoteForward.AddedKeeps | pkg/podssh/backend/helper/remote_forward.go:286-294 | A bind that is taken keeps its listener, a free one gets the new one, and no other changes |
| RemoteForward.RemoteForwardClient.RemoveIfMatch | pkg/podssh/backend/helper/remote_forward.go:296-302 | Removes the bind only if it is this listener's |
| RemoteForward.RemoteForwardClient.Rekey | pkg/podssh/backend/helper/remote_forward.go:304-317 | Moves the listener to its actual bind, and refuses if it was removed |
| RemoteForward.RemoteForwardClient.Lookup | pkg/podssh/backend/helper/remote_forward.go:319-333 | The listener of the bind, else of the requested bind |
| RemoteForward.RemoteForwardClient.RemoveForward | pkg/podssh/backend/helper/remote_forward.go:335-345 | Removes every bind of this listener and no other |
| RemoteForwardRuns.StreamsAreConserved | pkg/podssh/backend/helper/remote_forward.go:261-359 | In every interleaving each arrived stream is exactly one of on its way, queued in or handed out by one listener, or reset |
| RemoteForwardRuns.HandedOutInOrder | pkg/podssh/backend/helper/remote_forward.go:368-434 | Every listener hands out in order of delivery, and a closed one has an empty queue |
| RemoteForwardRuns.ClosedForGood | pkg/podssh/backend/helper/remote_forward.go:417-452 | A closed listener never changes again |
| RemoteForwardRuns.NeverResurrected | pkg/podssh/backend/helper/remote_forward.go:304-317 | A listener taken out of the table never comes back, not by a late rekey either |
| RemoteForwardRuns.CanceledForGood | pkg/podssh/backend/helper/remote_forward.go:405-415 | A canceled listener is out of the table under all its binds in every continuation |
| RemoteForwardRuns.EarlyStreamFindsItsListener | pkg/podssh/backend/helper/remote_forward.go:319-333 | A stream under an unregistered bind goes to the open listener under its requested bind: in every continuation it is on its way there, was delivered there, or was reset after that listener or the client had closed |
| RemoteForwardRuns.StreamFindsItsListener | pkg/podssh/backend/helper/remote_forward.go:319-333 | In every run a stream under a bind in the table goes to the listener there, which is open, whatever other bind it names: it is on its way, delivered, or reset after that listener or the client had closed |
| RemoteForwardRuns.UnknownStreamIsReset | pkg/podssh/backend/helper/remote_forward.go:328-331 | In every run a stream that names no bind of the table is reset at once and is nowhere else ever after |
| RemoteForwardRuns.QueuedCanBeAccepted | pkg/podssh/backend/helper/remote_forward.go:368-401 | Whatever is queued can be accepted, oldest first |
| RemoteForwardRuns.DoomedCanBeClosed | pkg/podssh/backend/helper/remote_forward.go:436-452 | Every listener that is about to be closed can be |
| RemoteForwardRuns.CanceledCanBeClosed | pkg/podssh/backend/helper/remote_forward.go:405-452 | A listener that is set up can be canceled and closed, is out of the table then, and what it had queued is reset |
| RemoteForwardRuns.TakenBindIsRefused | pkg/podssh/backend/helper/remote_forward.go:261-269 | A Listen for a bind that is taken changes nothing, any other registers a new listener before its call |
| RemoteForwardRuns.BindIsKept | pkg/podssh/backend/helper/remote_forward.go:286-294 | In every run a listener keeps its bind but for its own cancel or call, a rekey and the end of the client |
| RemoteForwardRuns.CallEndsOnce | pkg/podssh/backend/helper/remote_forward.go:261-284 | In every run the call of a listener ends once |
| RemoteForwardRuns.EndedClientResets | pkg/podssh/backend/helper/remote_forward.go:417-434 | In every run after the client has ended, every stream that is delivered is reset |
| RemoteForwardRuns.OrphansAreOverrun | pkg/podssh/backend/helper/remote_forward.go:304-317 | In every run an open listener is in the table, being set up or about to be closed, except exactly when a rekey landed on its bind and it was not canceled since |
| RemoteForwardRuns.OverrunHappens | pkg/podssh/backend/helper/remote_forward.go:304-317 | Runs in which a rekey lands on a taken bind and closing the client never reaches the listener that had it |
| HelperCache.CopyHelperAcquirer.HelperState | pkg/podssh/backend/apiserver/helper_copy.go:112-121 | The cached entry, or a new one with the caller as its owner |
| HelperCache.CopyHelperAcquirer.FinishHelperState | pkg/podssh/backend/apiserver/helper_copy.go:123-130 | A failed entry is forgotten unless it has been replaced; the waiters are released |
| HelperCache.CopyHelperAcquirer.Invalidate | pkg/podssh/backend/apiserver/helper_copy.go:94-103 | Forgets exactly the entries with the prefix |
| HelperCache.PrefixIdentifiesTarget | pkg/podssh/backend/apiserver/helper_copy.go:298-304 | The prefix of a target is a prefix of exactly that target's keys |
| HelperCache.KeyIdentifiesBuild | pkg/podssh/backend/apiserver/helper_copy.go:298-304 | Two keys are equal exactly for the same target, container, version and commit |
| HelperCache.StepKeepsSound | pkg/podssh/backend/apiserver/helper_copy.go:55-130 | Every step of every interleaving keeps owners, callers and cache entries consistent |
| HelperCache.OneOwnerOneSignal | pkg/podssh/backend/apiserver/helper_copy.go:66-74 | Each attempt has one owner of its own, and its signal fires once, when that owner has its result |
| HelperCache.WaitersShareOwnersResult | pkg/podssh/backend/apiserver/helper_copy.go:75-84 | Whoever got a result from an attempt got what its owner got |
| HelperCache.WaiterCanWake | pkg/podssh/backend/apiserver/helper_copy.go:75-81 | A waiter whose attempt was signalled can go on, with the owner's result |
| HelperCache.SingleFlight | pkg/podssh/backend/apiserver/helper_copy.go:55-130 | In every run of a new cache without an invalidation of the key, of two attempts for the key the earlier has failed and was taken out, and while one is not taken out, whoever asks for the key waits for it and starts no other |
| HelperCache.InvalidateStartsAnother | pkg/podssh/backend/apiserver/helper_copy.go:94-121 | From every sound state, invalidating a cached key lets the next caller start a second preparation while the first is not taken out |
| HelperCache.ResultsAreShared | pkg/podssh/backend/apiserver/helper_copy.go:55-130 | In every interleaving of a new cache attempts have distinct owners, are signalled at most once, results are the owner's, and cached attempts are those prepared under their key and not taken out |
| HelperCache.OwnerCanSignal | pkg/podssh/backend/apiserver/helper_copy.go:66-81 | From every sound state the owner of an attempt can go on to its signal, and every waiter can then go on |
| HelperCache.RemoveSparesSuccessors | pkg/podssh/backend/apiserver/helper_copy.go:123-128 | A finishing owner removes its own failed entry and nobody else's |
| HelperCache.FailureIsNotShared | pkg/podssh/backend/apiserver/helper_copy.go:55-130 | In every continuation, whoever was not attached when a failed attempt was taken out never sees its error |
| HelperCache.FailureIsTakenOutFirst | pkg/podssh/backend/apiserver/helper_copy.go:123-130 | A failed attempt is out of the cache before its signal fires |
| HelperCache.OutcomesAreFinal | pkg/podssh/backend/apiserver/helper_copy.go:105-110 | A recorded outcome never changes |
| HelperCache.RecordedIsReturned | pkg/podssh/backend/apiserver/helper_copy.go:66-89 | In every run, what an owner records is what everyone gets who gets something from that attempt |
| HelperCache.GiveUpIsFinal | pkg/podssh/backend/apiserver/helper_copy.go:76-80 | A waiter whose context ends gets nothing any more, and changes nothing for the others |
| HelperCache.PreparedStaysCached | pkg/podssh/backend/apiserver/helper_copy.go:94-121 | A prepared helper stays cached until it is invalidated |
| RpcConnection.Connection.Register | pkg/spdyrpc/connection.go:114-134 | Every error case, and a handler added only before Serve |
| RpcConnection.Connection.CheckStream | pkg/spdyrpc/connection.go:138-151 | Every error case of the check, which ends with the lock released |
| RpcConnection.Connection.StoreStream | pkg/spdyrpc/connection.go:152-156 | A kind that is taken is refused, any other is stored, whatever the stage is by then |
| RpcConnection.Connection.RegisterStreamHandler | pkg/spdyrpc/connection.go:137-157 | Every error case, and the stored handler, when nothing comes between the check and the store |
| RpcConnection.Connection.EnterServe | pkg/spdyrpc/connection.go:205-212 | Only a new connection starts serving |
| RpcConnection.Connection.BeginWork | pkg/spdyrpc/connection.go:271-279 | Work is counted only while serving |
| RpcConnection.Connection.Fail | pkg/spdyrpc/connection.go:252-257 | The first fatal error is kept |
| RpcConnection.Connection.Shutdown | pkg/spdyrpc/connection.go:281-293 | The first call moves to closing, cancels the context and closes the transport; later ones change nothing |
| RpcConnection.Lifecycle | pkg/spdyrpc/connection.go:137-327 | In every run the stage only moves forward, at most one Serve enters, the count is tasks begun minus ended, none begins once closing, the count is zero for good once Serve is through, no handler is replaced, and after closing the one stream registration that had passed its check may still be stored, and no other |
| RpcConnection.LifecycleFromStart | pkg/spdyrpc/connection.go:92-112 | The same between any two points of any run of a new connection |
| RpcConnection.LateStore | pkg/spdyrpc/connection.go:144-156 | From every state that is not closing, a stream registration can pass its check, the connection close, and the handler be stored afterwards |
| RpcConnection.HandlersFrozen | pkg/spdyrpc/connection.go:295-309 | The handler map is the one at the start of Serve in every continuation |
| RpcConnection.RegisteredForGood | pkg/spdyrpc/connection.go:114-134 | A method registered before Serve has its handler in every continuation, and a second registration is refused |
| RpcConnection.BeginsIffServing | pkg/spdyrpc/connection.go:271-279 | Work begins exactly while serving, and Serve returns only after it has ended |
| RpcConnection.FirstFailureIsKept | pkg/spdyrpc/connection.go:252-257 | The first failure of a task is kept in every continuation |
| RpcConnection.EveryReasonStops | pkg/spdyrpc/connection.go:216-231 | The parent context, the end of the transport and a failure each let a serving connection come to its end |
| RpcConnection.ServeCanReturn | pkg/spdyrpc/connection.go:205-231 | From every state with a reason to stop, the server can come to its return once its shutdown and its tasks end |
| RpcConnection.TeardownCanFinish | pkg/spdyrpc/connection.go:281-293 | From every state past closing the context can come to be canceled and the transport closed |
| SessionTimeout.SessionPolicyConn.constructor | pkg/gateway/session_policy_conn.go:24-29 | A new connection is armed for its policy's deadline |
| SessionTimeout.SessionPolicyConn.NextDeadline | pkg/gateway/session_policy_conn.go:116-128 | The earlier of the limits that are set, from the stored activity |
| SessionTimeout.SessionPolicyConn.Schedule | pkg/gateway/session_policy_conn.go:96-114 | Reports an expired policy, otherwise arms the timer for the deadline or stops it |
| SessionTimeout.SessionPolicyConn.ApplyPolicy | pkg/gateway/session_policy_conn.go:31-43 | A new policy takes effect at once, and closes the connection if it has expired |
| SessionTimeout.SessionPolicyConn.OnTimer | pkg/gateway/session_policy_conn.go:81-92 | The callback closes an expired connection and re-arms any other |
| SessionTimeout.SessionPolicyConn.Close | pkg/gateway/session_policy_conn.go:61-73 | Closes once and stops the timer |
| SessionTimeout.SessionPolicyConn.Touch | pkg/gateway/session_policy_conn.go:75-79 | Activity stores a time and nothing else |
| SessionTimeout.RunsAreSound | pkg/gateway/session_policy_conn.go:31-128 | Every timed run keeps the timer no later than any limit in force |
| SessionTimeout.NeverOverstays | pkg/gateway/session_policy_conn.go:81-128 | In every timed run with punctual timers an open connection is past neither the lifetime limit nor the idle limit of its current policy |
| SessionTimeout.ClosedForAReason | pkg/gateway/session_policy_conn.go:61-92 | In every run that ends a connection there is a first event that ended it, and that event is a Close from outside or a decision that found it past the earlier limit of the policy then in force |
| SessionTimeout.DecisionIs | pkg/gateway/session_policy_conn.go:96-128 | At every point of every run a decision closes a connection if a limit is reached from the latest activity, and closes it early if and only if an older activity was stored last and the idle limit is reached from that alone |
| SessionTimeout.ExactWhenInOrder | pkg/gateway/session_policy_conn.go:75-128 | In a run that stores activity in order a decision closes a connection exactly when a limit is reached |
| SessionTimeout.OutOfOrderClosesEarly | pkg/gateway/session_policy_conn.go:75-79 | Two stores out of order close a session early |
| SessionTimeout.StaysClosed | pkg/gateway/session_policy_conn.go:61-73 | Once closed, always closed |
| SessionTimeout.CloseCloses | pkg/gateway/session_policy_conn.go:61-73 | Every run with a Close from outside ends closed |
| SessionTimeout.FinishCloses | pkg/gateway/session_policy_conn.go:81-92 | Every run that lets a decision finish ends closed, by that decision if it was still open |
| SessionTimeout.ClosedHasNoTimer | pkg/gateway/session_policy_conn.go:61-73 | In every run a closed connection has no timer armed |
| SessionTimeout.StepsAreMethods | pkg/gateway/session_policy_conn.go:31-92 | The steps change the connection as the methods do, once the Close they call is through |
| SessionTimeout.EndsAtItsDeadline | pkg/gateway/session_policy_conn.go:96-128 | Without activity time comes exactly as far as the deadline, and exactly there the session expires |
| SessionTimeout.ClockGoesOn | pkg/gateway/session_policy_conn.go:81-114 | Time is never stuck: closing or waking up lets it pass |

## Left out

- Errors of the disk and of the two streams in the middle of an SCP copy, cancellation, the text of error lines, umask, and file times on disk.
- ScpContainment.SinkStaysBelowTarget: the file system modelled has no symbolic links; one below the target, which the operating system would follow, can lead out of it.
- ScpTransfer.Transfers: the mode of a directory never stops the sink from creating something in it later, as it would for a user without that permission.
- ScpNewDirectory.RoundTripToNewTarget: leaves out a directory whose own name spells another header after a line break; `ScpNewDirectory.ArrivesIffLedHome` has the condition for those that spell directory headers only, and there is none for those that open a file, whose content would be the rest of the stream. Names with a zero byte, which Unix does not have, are left out for files.
- ScpSource.RunSource: reading a special file that never ends, or that cannot be opened, is not modelled; its content is what reading it gives.
- Parsing of the SCP command line.
- Readiness.ReadyMeansReachable: assumes what Kubernetes guarantees of names (Pod names are unique and do not begin with a dot, container names have no dot).
- SelectionRuns.RoundRobinIsFair: the turn counter is unbounded; wrap-around of a machine integer is not modelled.
- SshProxyRuns.OperationsAreConserved: stops where an operation is handed to a channel; the per-channel slot in `proxiedChannel` is not modelled.
- RemoteForwardRuns.EarlyStreamFindsItsListener: does not claim that a listener registered later under the same requested bind is told apart from an earlier one.
- Requests without a wanted reply count as accepted upstream, as in the code; the wire encoding of requests and replies is a parsed value here.
- Matching of the Access selector and the gateway class against Pods and Accesses: the list of Pods and the store are given.
- The order of equal elements in `sort.Slice`: names that are told apart have only one order.
- Messages of conditions, the advertised endpoints of a status, and the errors of an unavailable informer cache.
- The random draw is any number; that it is uniform is not claimed.
- The manifest check and the copying in the helper cache, and how a prepared helper is run.
- Reading the one-slot error channel of an RPC connection: the slot keeps its first error.
- Capability checks of the authorizer, authorizer chains, session policy bounds, audit, metrics and the node server: one- or two-branch decisions.
- The helper's own listeners, agent forwarding and `pkg/podssh/client_state.go`: they repeat the shape of the remote listeners with a simpler table.
- The SSH handshake, SPDY framing, JSON, TLS and the Kubernetes client libraries.
