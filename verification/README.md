# aitori: decisions, forwarding and settings injection

aitori is an agent on a user's machine that intercepts the traffic of AI clients, classifies each
request and sends the governed ones through a gateway. This project models the parts of it that
decide and forward, as the program has them (branches, edge cases, constants), and proves what its
documentation and comments promise of them.

| module | what it models |
|---|---|
| `PathMatch` | the glob matcher, loop and recursion, against a declarative language of patterns |
| `Circuit` | the circuit breaker as a refinement of its event history; the bound on attempts to a dead gateway |
| `ClientCfg`, `SettingsLifecycle` | inject and revert of client settings files, as a protocol of single writes that may be killed between any two, with user edits |
| `HostMatch` | host patterns and loop prevention |
| `Classifier`, `Pipeline`, `Profiles` | first-match rules, compilation of the tiered policy, the built-in overlay |
| `Headers`, `Http`, `Body` | header maps and hop-by-hop removal, requests, single-use body streams |
| `Router`, `Gateway` | the reroute rewrite and the reference gateway as its inverse |
| `Fate`, `Forward`, `EndToEnd` | serving one request; policy, forwarding, router and gateway together |
| `Interleaving` | any number of requests and reloads at once, one breaker per configuration generation |
| `Capture`, `LiveUi` | the record of a request; the live ring and its subscribers |
| `Peek` | peeking at a connection and replaying it |
| `Common`, `Config`, `Text` | shared datatypes and the string functions the code uses |

Conventions. Strings are sequences of Go bytes, one `char` per byte. Clock readings are integer
nanoseconds and arguments of the operation that takes them. What lies outside the agent (the two remote
ends, process attribution, the token file, the JSON parser) is an argument: `Forward.Env` collects it
for one request. `Forward.Proxy.Serve` keeps the source's order of effects, with blocks of the Go function as
methods of their own. `Interleaving.ServedAlone` ties the two views together: a request among many ends
with the very steps that `Serve` takes for it alone.

## Results that are not what one might expect

- One inject and one revert give the disk back, except that a blank settings file becomes `{}`, and that
  an object comes back changed exactly when its `env` block is neither absent nor an object or a managed
  key holds something other than a string (`SettingsLifecycle.RoundTripIff`).
- Revert keeps the file of a record if and only if the record says that it existed
  (`RevertKeepsFileIff`). So what the user puts into a file that aitori created is lost
  (`CreatedFileIsRemoved`), and so is a file that aitori never wrote, if `up` was killed between the
  record and the settings file and the client made the file afterwards (`KilledInjectCostsLaterFile`).
- Entries of one `up` may repeat, but an app with two targets or a target with two apps can leave residue.
  An app with two targets is reverted cleanly exactly when injection skips the first one or changes
  nothing in the second (`RepeatedAppIsCleanIff`). A shared target is reverted cleanly exactly when the
  later record is undone first, or injection changes nothing (`SharedTargetIsCleanIff`); since RevertAll
  lists the records by file name, that depends on how the two apps are called.
- Rerouting is transparent to the provider exactly when the request has no `x-tfy-*` header, no other
  configured static header changes it, and its query holds no raw `#`, which the gateway's URL parser
  would take for a fragment (`Gateway.RerouteTransparent`).
- docs/configuration.md says that `fail_closed` returns an error when the gateway is unreachable. It
  does so only after an attempt: a request that Rewrite declines, because the breaker is open for
  instance, goes upstream in either mode (`EndToEnd.FailClosedForwardsDeclined`).
- docs/gateway.md says that the three identity headers win over any collision. The token header does so
  only when there is a token (`Router.IdentityHeadersWin`).
- The package comment of hostmatch has the port stripped from both sides. `Match` strips none from the
  pattern (`HostMatch.PatternPortNeverMatches`). `Normalize` is not idempotent; its fixed points are
  `HostMatch.Canonical`. For a bracketed gateway name with exactly one colon, `[a:1]` say, the proxy and
  the router derive different gateway hosts (`GatewayHostsCoincideIff`), and validation lets a pattern
  that matches it through; for no other name does it (`LoopPreventionIff`). shouldMITM still says no
  (`GatewayNeverIntercepted`), because it normalizes twice.
- A user's host entry keeps deciding under the built-in overlay exactly when no built-in rule matches the
  request, since those rules come first (`Profiles.UserEntryWins`).
- Concatenated glob patterns split the subject unless stars meet at the seam
  (`PathMatch.ConcatSplits`); then the joined run swallows anything (`PathMatch.StraddledSeam`).
- Half-open always has its probe in flight, so the branch of `Allow` that would hand out a second probe
  is dead, and the agent, which never calls `Allow`, never reaches half-open at all
  (`Interleaving.BreakerHearsItsOwn`).

## Model

| member | source | states |
|---|---|---|
| `PathMatch.Glob` | internal/pathmatch/pathmatch.go:45-77 | the backtracking matcher terminates and accepts exactly the language of the pattern: some cut of the subject gives each token a piece it accepts |
| `PathMatch.AcceptsIsLanguage` | internal/pathmatch/pathmatch.go:45-77 | the recursive and the declarative meaning of a token list agree |
| `PathMatch.MatchIsLanguage` | internal/pathmatch/pathmatch.go:20-25 | the star-free equality shortcut agrees with glob, so Match accepts the same language on all inputs |
| `PathMatch.StarFree` | internal/pathmatch/pathmatch.go:20-25 | a pattern without a star accepts only itself |
| `PathMatch.MatchAnyIff` | internal/pathmatch/pathmatch.go:28-35 | a list accepts a path iff some pattern of it has the path in its language |
| `PathMatch.ConcatSplits` | internal/pathmatch/pathmatch.go:45-77 | p + q accepts s iff s splits between them, when stars do not meet at the seam |
| `PathMatch.StraddledSeam` | internal/pathmatch/pathmatch.go:45-77 | when they do, the run takes any middle part, slashes included: exact for all patterns and subjects |
| `PathMatch.StraddlingSeamFails` | internal/pathmatch/pathmatch.go:45-77 | "*" then "*" cannot split "/", yet their concatenation accepts it |
| `PathMatch.StarRunMeaning` | internal/pathmatch/pathmatch.go:45-77 | greedy pairing of stars means the same as reading maximal runs: one star a segment run, two or more any run |
| `PathMatch.LongRunIsDoubleStar` | internal/pathmatch/pathmatch.go:45-77 | a run of two or more stars anywhere in a pattern means "**" |
| `PathMatch.SubtreePattern` | internal/pathmatch/pathmatch.go:20-77 | for star-free p, p followed by "**" accepts exactly the paths with prefix p |
| `PathMatch.SegmentTheorem` | internal/pathmatch/pathmatch.go:45-77 | without "**", a path is accepted iff pattern and path have equally many segments and each matches its counterpart |
| `Circuit.Breaker.constructor` | internal/circuit/breaker.go:36-44 | closed with an empty history; non-positive settings take the defaults |
| `Circuit.Breaker.Allow` | internal/circuit/breaker.go:49-70 | grants iff the history is not tripped, or it has cooled down and no probe is out since the latest outcome |
| `Circuit.Breaker.Success` | internal/circuit/breaker.go:73-79 | appends a success and closes |
| `Circuit.Breaker.Failure` | internal/circuit/breaker.go:83-95 | appends a failure; open iff the failures since the last success reach the threshold |
| `Circuit.Breaker.Trip` | internal/circuit/breaker.go:97-101 | opens at the time of the failure just recorded |
| `Circuit.Breaker.IsOpen` | internal/circuit/breaker.go:104-108 | answers exactly what the event history says |
| `Circuit.OpenIsCooldownWindow` | internal/circuit/breaker.go:104-108 | under a monotone clock: open iff the run of failures reached the threshold and now is within the cooldown of the latest failure, probes or not |
| `Circuit.OneProbePerOutcome` | internal/circuit/breaker.go:55-67 | after the one probe nothing more is granted until the next outcome, whatever the clock says |
| `Circuit.FailureRunCounts` | internal/circuit/breaker.go:73-95 | what counts is the number of failures after the latest success |
| `Circuit.LatestFailureIs` | internal/circuit/breaker.go:97-101 | the cooldown starts at the latest failure, whatever was asked since |
| `Circuit.FirstAskAfterCooldown` | internal/circuit/breaker.go:56-62 | after the failure that trips it, asks are refused, and the first one at or past the cooldown is granted |
| `Circuit.ClosedGrantsAll` | internal/circuit/breaker.go:53-55 | below the threshold everything is granted and Open says no |
| `Circuit.HalfOpenUnreachable` | internal/router/router.go:169-171 | without Allow, half-open is never reached |
| `Circuit.DeadGatewayInvariant` | internal/circuit/breaker.go:83-108 | what every step of a run against a dead gateway keeps, relating attempts, attempts in flight and time |
| `Circuit.DeadGatewayBound` | internal/circuit/breaker.go:83-108 | with at most m in flight, at most threshold + m - 1 + m * (T / cooldown) attempts in time T |
| `Circuit.SequentialDeadGatewayBound` | internal/circuit/breaker.go:83-108 | one at a time: at most threshold + T / cooldown |
| `ClientCfg.EnvWant` | internal/clientcfg/claudecode.go:171-182 | sets exactly the managed keys |
| `ClientCfg.EnvWantSpelled` | internal/clientcfg/claudecode.go:171-182 | the four values: the proxy twice, with http:// only if it has no scheme, the local hosts, the CA |
| `ClientCfg.Machine.InjectAt` | internal/clientcfg/claudecode.go:215-243 | outcome, final disk and the disk after every single write are those of the protocol |
| `ClientCfg.CapturePrior` | internal/clientcfg/claudecode.go:226-232 | the loop records presence and text of every managed key |
| `ClientCfg.Overlay` | internal/clientcfg/claudecode.go:238-242 | the loop overlays the wanted variables on the env block |
| `ClientCfg.Machine.RevertAt` | internal/clientcfg/claudecode.go:246-287 | the same for revert: remove a created file, else restore the managed keys, then drop the record |
| `ClientCfg.RestoreManaged` | internal/clientcfg/claudecode.go:265-281 | the loop over the record removes or restores each key |
| `ClientCfg.RestoredEnvPointwise` | internal/clientcfg/claudecode.go:265-281 | key by key: recorded keys get their recorded value or go, all others stay |
| `ClientCfg.Machine.RevertOne` | internal/clientcfg/claudecode.go:88-107 | an unreadable record is discarded, another is reverted |
| `ClientCfg.Machine.RevertAllBackups` | internal/clientcfg/claudecode.go:80-109 | every record of the listing in turn; errors do not stop it |
| `ClientCfg.Machine.ApplyInjections` | cmd/aitori/commands.go:320-338 | every enabled entry in turn; a failing one is skipped |
| `ClientCfg.Machine.SetupOS` | cmd/aitori/commands.go:267-314 | first revert what an earlier start left, then inject if the CA and the system proxy could be set up |
| `SettingsLifecycle.BackupWrite` | internal/clientcfg/claudecode.go:224-236 | the invariant holds between the two writes of an injection |
| `SettingsLifecycle.SettingsWrite` | internal/clientcfg/claudecode.go:237-243 | and after the second write, whether the record is new or from an earlier inject |
| `SettingsLifecycle.InjectKeeps` | internal/clientcfg/claudecode.go:215-243 | wherever a first or repeated inject is killed, the record describes the true original, the file differs from it in managed keys only, and no existing record has changed |
| `SettingsLifecycle.RepeatedInjectKeeps` | internal/clientcfg/claudecode.go:222-243 | the repeated inject, over a record of its own, whatever the file holds by then |
| `SettingsLifecycle.InjectTwice` | internal/clientcfg/claudecode.go:50-51 | idempotent: on every disk, a second inject with the same values leaves it as it is |
| `SettingsLifecycle.InjectAllKeeps` | cmd/aitori/commands.go:320-338 | a list of entries, which may repeat, over records or none |
| `SettingsLifecycle.RevertAllKeeps` | internal/clientcfg/claudecode.go:80-109 | wherever RevertAll is killed, the same |
| `SettingsLifecycle.CompleteRevert` | internal/clientcfg/claudecode.go:80-109 | a completed RevertAll succeeds from every state the protocol can leave, restores every file and leaves no record |
| `SettingsLifecycle.UpKeeps` | cmd/aitori/commands.go:267-314 | wherever `up` is killed, the invariant holds |
| `SettingsLifecycle.UpConfigures` | cmd/aitori/commands.go:267-338 | after an `up` that is not cut short, every entry whose file was not malformed has its app's record, and its file is an object whose env sets each wanted variable |
| `SettingsLifecycle.UpCrashesOnlyOnNull` | cmd/aitori/commands.go:320-338 | and it is cut short only by an entry whose file the user has made null |
| `SettingsLifecycle.UpWithoutEntries` | cmd/aitori/commands.go:274-298 | when the CA or the system proxy cannot be set up, it is a complete revert |
| `SettingsLifecycle.EditKeeps` | internal/clientcfg/claudecode.go:246-287 | so it does after a user edit of unmanaged keys, applied to the actual and the ideal file alike |
| `SettingsLifecycle.StepKeeps` | cmd/aitori/commands.go:267-338 | every operation, killed after any number of writes, keeps the invariant |
| `SettingsLifecycle.RunKeeps` | cmd/aitori/commands.go:267-338 | so does every run of ups, repeated injects, downs, kills, edits, and writes to created files, with targets that change from one up to the next |
| `SettingsLifecycle.EditsCommuteWithRevert` | internal/clientcfg/claudecode.go:246-287 | after every such run, a completed revert leaves what the user's edits alone would have left, up to an empty env block |
| `SettingsLifecycle.OriginalsRestored` | internal/clientcfg/claudecode.go:80-109 | after every run without edits of the user's own files, each settings file holds its original JSON value, where a blank file has become {}, and created files are gone |
| `SettingsLifecycle.DocumentRoundTrip` | internal/clientcfg/claudecode.go:215-287 | one document: patched and restored it is unchanged iff env is absent or an object and managed keys hold strings |
| `SettingsLifecycle.RoundTripIff` | internal/clientcfg/claudecode.go:215-287 | one inject and one revert give every disk back, absent, malformed and null files included, iff an object is of that kind; a blank file becomes {} |
| `SettingsLifecycle.RevertKeepsFileIff` | internal/clientcfg/claudecode.go:259-286 | whatever the file holds by then, revert keeps it iff the record has it existing; top-level keys but env and unrecorded variables stay as the user left them |
| `SettingsLifecycle.CreatedFileIsRemoved` | internal/clientcfg/claudecode.go:259-263 | revert removes a file that inject created, whatever it holds by then |
| `SettingsLifecycle.KilledInjectCostsLaterFile` | internal/clientcfg/claudecode.go:233-263 | a kill between the two writes: revert removes the file that the user made afterwards |
| `SettingsLifecycle.RepeatedAppLeavesResidue` | internal/clientcfg/claudecode.go:224-243 | one app with two targets, on any clean disk: after a completed revert the second file is patched and all else is as it was |
| `SettingsLifecycle.RepeatedAppIsCleanIff` | internal/clientcfg/claudecode.go:224-243 | the revert is clean iff the targets are one, or injection skips the first, or changes nothing in the second |
| `SettingsLifecycle.LaterUndone` | internal/clientcfg/claudecode.go:224-287 | two apps with one target: undoing the later gives the disk that the earlier left |
| `SettingsLifecycle.SharedTargetLeavesResidue` | internal/clientcfg/claudecode.go:80-109 | undoing the earlier first brings the injected values back, on any clean disk |
| `SettingsLifecycle.SharedTargetIsCleanIff` | internal/clientcfg/claudecode.go:80-109 | the revert is clean iff the later record is listed first or injection changes nothing |
| `HostMatch.NormalizeFixedPoints` | internal/hostmatch/hostmatch.go:19-38 | exactly which hosts Normalize leaves alone |
| `HostMatch.NormalizeAuthority` | internal/hostmatch/hostmatch.go:19-38 | brackets, port and letter case of a well-formed host never matter |
| `HostMatch.NormalizeName` | internal/hostmatch/hostmatch.go:19-38 | a bare name is normal iff it has not exactly one colon |
| `HostMatch.PatternPortNeverMatches` | internal/hostmatch/hostmatch.go:41-58 | an exact pattern with a port matches no well-formed host |
| `HostMatch.StarPattern` | internal/hostmatch/hostmatch.go:41-58 | "*.d" matches exactly the hosts below d, whatever port, brackets and letter case |
| `HostMatch.DotPattern` | internal/hostmatch/hostmatch.go:41-58 | ".d" matches d and the hosts below it |
| `HostMatch.PlainPattern` | internal/hostmatch/hostmatch.go:41-58 | a plain name matches itself only |
| `HostMatch.GatewayHostsCoincideIff` | internal/proxy/proxy.go:139-149 | the proxy's and the router's gateway hosts coincide iff the name has not exactly one colon |
| `HostMatch.GatewayNeverMatched` | internal/config/load.go:165-170 | after validation no port, bracket or letter case makes an intercept pattern match the gateway host |
| `HostMatch.LoopPreventionIff` | internal/config/load.go:165-170 | that holds for every list of patterns iff the gateway name has not exactly one colon |
| `HostMatch.GatewayNeverIntercepted` | internal/proxy/proxy.go:339-349 | after validation shouldMITM says no for every gateway, port, bracket and letter case, even without its own gateway check |
| `HostMatch.InterceptedIff` | internal/proxy/proxy.go:339-349 | a CONNECT is decrypted iff its name is not the gateway's and some configured host covers it, as itself, "*.d" or ".d", whatever port, brackets and letter case |
| `HostMatch.LoopCheckIff` | internal/config/load.go:165-170 | a configuration passes the loop check iff no configured host covers the gateway's name |
| `HostMatch.MatchCovers` | internal/hostmatch/hostmatch.go:41-58 | the same for one pattern of any text, white space around it included |
| `HostMatch.OneColonNameSlipsThrough` | internal/config/load.go:165-170 | for every gateway name with exactly one colon, its own lower-case text passes validation as a pattern and matches it |
| `HostMatch.OneColonExample` | internal/config/load.go:165-170 | "[a:1]" with the pattern "a:1" |
| `Headers.HeaderMap.RemoveHopByHop` | internal/proxy/forward.go:314-326 | removes exactly the fixed list and what Connection names |
| `Headers.HeaderMap.CopyFields` | internal/proxy/forward.go:328-334 | copies every field that has a value, unchanged |
| `Headers.StrippedKeeps` | internal/proxy/forward.go:301-326 | a header survives, unchanged, iff it is neither on the list nor named (section 6.1 of RFC 7230) |
| `Headers.StrippedIff` | internal/proxy/forward.go:301-326 | the same with the nine names of the list, and with the items of the Connection fields, spelled out |
| `Headers.SameNameIff` | internal/proxy/forward.go:314-326 | header names denote one header iff they differ in letter case only |
| `Text.ItemsOfSplit` | internal/proxy/forward.go:317-318 | splitting at commas and trimming yields exactly the items of a list: what stands between commas, without the white space around it |
| `Text.TrimOf` | internal/proxy/forward.go:318 | trimming takes the white space off both ends and nothing else |
| `Headers.StrippedIdempotent` | internal/proxy/forward.go:314-326 | a second removal changes nothing |
| `Classifier.FirstMatchWins` | internal/classify/classify.go:40-60 | the verdict is that of the first matching rule |
| `Classifier.MatchedIff` | internal/classify/classify.go:40-60 | a verdict counts as matched iff some rule matches |
| `Classifier.RuleMatchesIff` | internal/classify/classify.go:62-119 | a rule matches iff each clause it has does: some host, some prefix, some pattern, some method in any case, every body key |
| `Classifier.RuleVerdictSpelled` | internal/classify/classify.go:27-54 | what a matching rule decides; a missing action follows from the category |
| `Classifier.UnmatchedVerdict` | internal/classify/classify.go:133-151 | without a match, rerouted iff the body is a JSON-RPC 2.0 call or names a model and holds a prompt |
| `Classifier.BodyFreeVerdict` | internal/classify/classify.go:40-79 | without body clauses, a matched verdict is the same for every body |
| `Pipeline.CompileRules` | internal/pipeline/pipeline.go:63-100 | the loops build user rules, host entries and one catch-all per scoped host, in that order |
| `Pipeline.New` | internal/pipeline/pipeline.go:37-51 | the flag says whether some compiled rule looks at the body |
| `Pipeline.BodyMattersIff` | internal/pipeline/pipeline.go:37-51 | that is so iff some top-level rule does |
| `Pipeline.EntryRulesMeaning` | internal/pipeline/pipeline.go:67-85 | classifying over the compiled entries finds the first matching policy-bearing entry |
| `Pipeline.RestRulesMeaning` | internal/pipeline/pipeline.go:86-98 | classifying over the catch-alls finds the first entry that scopes the host |
| `Pipeline.CompilationPreservesMeaning` | internal/pipeline/pipeline.go:63-100 | first match over the compiled list is the tiered meaning: rules, then entries, then scoped hosts, then the heuristic |
| `Pipeline.TieredVerdictUnique` | internal/pipeline/pipeline.go:63-100 | the tiered meaning leaves no choice |
| `Pipeline.EntryMatchesIff` | internal/pipeline/pipeline.go:68-85 | which requests a host entry governs; one without action, category and scope governs none |
| `Pipeline.EntryVerdictSpelled` | internal/pipeline/pipeline.go:69-84 | and what it decides: an entry that only scopes reroutes what is in scope |
| `Pipeline.OffScopePasses` | internal/pipeline/pipeline.go:86-98 | off its scope a request passes through unless a rule or another entry matches |
| `Pipeline.WebSocketNeverRerouted` | internal/pipeline/pipeline.go:112-135 | with Upgrade "websocket" and the item "upgrade" anywhere in the Connection list, in any letter case and spacing, the action is not reroute |
| `Pipeline.DecideElse` | internal/pipeline/pipeline.go:107-123 | every other request is decided as classified, with the app and pid it came with |
| `Pipeline.LazyDecisionIsFinal` | internal/proxy/forward.go:61-71 | a decision that settles the request without its body is the decision for every body |
| `Profiles.Settings.Apply` | internal/profiles/profiles.go:31-73 | the new configuration is the overlay of the old one and the built-ins |
| `Profiles.Settings.AddApps` | internal/profiles/profiles.go:37-48 | adds the built-in apps the user does not define |
| `Profiles.Settings.AddHosts` | internal/profiles/profiles.go:50-59 | adds each built-in host not yet listed, once |
| `Profiles.Settings.AddInject` | internal/profiles/profiles.go:63-71 | adds the built-in entries for apps the user has none for |
| `Profiles.AddedAppsAreNew` | internal/profiles/profiles.go:37-48 | no added app has the id of a user's app |
| `Profiles.AddedHostsAreNew` | internal/profiles/profiles.go:50-59 | added hosts clash neither with the user's nor with each other |
| `Profiles.AddedInjectIsNew` | internal/profiles/profiles.go:63-71 | no inject entry is added for an app the user has one for |
| `Profiles.AppAdded` | internal/profiles/profiles.go:37-48 | a built-in app is added iff the user has none of its id |
| `Profiles.InjectAdded` | internal/profiles/profiles.go:63-71 | a built-in inject entry is added iff the user has none for its app |
| `Profiles.NewHostsCover` | internal/profiles/profiles.go:50-59 | every built-in host name is listed afterwards |
| `Profiles.HostAdded` | internal/profiles/profiles.go:50-59 | what is added is a built-in entry for a host the user does not list |
| `Profiles.OverlayKeepsUser` | internal/profiles/profiles.go:31-73 | the user's definitions stay in front and the built-in rules come behind the user's |
| `Profiles.UserRuleWins` | internal/profiles/profiles.go:31-73 | a request decided by a user rule keeps its verdict under the overlay |
| `Profiles.UserEntryWins` | internal/profiles/profiles.go:31-73 | one decided by a user host entry keeps it iff no built-in rule matches; otherwise the first such rule decides |
| `Profiles.OverlayTwice` | internal/profiles/profiles.go:31-73 | a second overlay grows the rule list and decides every request like the first |
| `Router.Router.Rewrite` | internal/router/router.go:145-235 | reroutes iff a gateway is set, neither host of the request is the gateway's name in another spelling, a token is there or not needed, and the breaker is not open; the request is then rewritten, else untouched |
| `Router.AdmittedIff` | internal/router/router.go:146-171 | the guards amount to that rule, both ways |
| `Router.RewrittenTarget` | internal/router/router.go:216-232 | scheme, host, path and query of a rewritten request, for every gateway URL |
| `Router.OriginalUrlSpelled` | internal/router/router.go:239-249 | the text of the original URL |
| `Router.Router.AddHeaders` | internal/router/router.go:176-207 | statics in the order visited, then the original URL, the token and the context |
| `Router.Router.NoteGatewaySuccess` | internal/router/router.go:261 | appends a success to the router's own breaker |
| `Router.Router.NoteGatewayFailure` | internal/router/router.go:262 | appends a failure to it |
| `Router.RewriteIsAdditive` | internal/router/router.go:176-207 | a header that is neither one of the three nor a static, provider credentials in particular, goes through unchanged |
| `Router.IdentityHeadersWin` | internal/router/router.go:176-207 | the gateway reads the agent's URL, context and token whatever is configured; without a token a static may stand in |
| `Router.NeverRewrittenTwice` | internal/router/router.go:150-155 | a rewritten request loops, so it is never rewritten again |
| `Gateway.Handle` | tools/aitori-gateway/main.go:91-187 | missing URL, missing token, unparsable URL, or the request forwarded without its x-tfy-* headers and with its whole body |
| `Gateway.AnswerSpelled` | tools/aitori-gateway/main.go:114-178 | the three ways to be turned away, and when; a forwarded request keeps method and body |
| `Gateway.TurnedAwayIff` | tools/aitori-gateway/main.go:114-157 | a rerouted request is refused for want of a token iff one is asked for and nobody brought one |
| `Gateway.TargetRoundTrip` | internal/router/router.go:239-249 | parsing the original URL gives scheme, host and request URI back iff the query holds no raw '#' |
| `Gateway.AddedHeadersStripped` | tools/aitori-gateway/main.go:179-186 | none of the three added headers reaches the provider |
| `Gateway.StaticsStripped` | tools/aitori-gateway/main.go:179-186 | the provider gets the client's headers iff none is x-tfy-* and no other static changes them |
| `Gateway.RerouteTransparent` | internal/router/router.go:145-249 | through the gateway the provider gets the method, absolute URL, headers and body of the direct request, whatever the gateway's URL, iff those conditions hold |
| `Forward.DrainBody` | internal/proxy/forward.go:275-292 | full iff there is no body or it fits the positive limit; the bytes read are returned then, and the request still holds exactly its original bytes |
| `Forward.Choose` | internal/proxy/forward.go:56-71 | the two-phase decision is that of draining first, on all requests; the body is conserved |
| `Forward.NewBody` | internal/proxy/forward.go:81-92 | a fresh reader over the buffered bytes, or the one stream there is |
| `Forward.NewOutgoing` | internal/proxy/forward.go:207-220 | a clone with its own header map, aimed at scheme and host, without hop-by-hop headers |
| `Forward.CopyResponse` | internal/proxy/forward.go:224-269 | the client gets status, end-to-end headers and the body as far as it reads; the outcome says so |
| `Forward.StreamBody` | internal/proxy/forward.go:243-261 | whatever the chunks, exactly the body, or what the client took before it hung up |
| `Forward.StreamUsedOnce` | internal/proxy/forward.go:117-153 | two RoundTrips iff a buffered request failed open; never more; each is offered the original bytes; a declined reroute costs none |
| `Forward.WhatIsSent` | internal/proxy/forward.go:207-220 | each RoundTrip against the client's request: method, path, query, scheme, host, every header that is not hop-by-hop and no other, the whole body; the gateway's address and added headers apart |
| `Forward.AnswerSpelled` | internal/proxy/forward.go:109-269 | status, text, headers and body that the client gets in each case |
| `Forward.NotesSpelled` | internal/proxy/forward.go:119-128 | the breaker hears of every gateway attempt once, and of nothing else |
| `Forward.ReplayableIff` | internal/proxy/forward.go:61-71 | which requests are buffered for a second attempt |
| `Fate.StepsSpelled` | internal/proxy/forward.go:109-153 | which steps a request takes and which answer it gets, from its action and the answers of the outside |
| `Forward.Proxy.Serve` | internal/proxy/forward.go:21-154 | decision, requests sent with the bytes offered, breaker notes, steps, the one answer and the one record of a request, for every behaviour of the outside, each RoundTrip spelled out against the client's request; the client's own request keeps its headers |
| `Forward.Proxy.Handle` | internal/proxy/forward.go:56-153 | the same, on the generation loaded at the start |
| `Forward.Proxy.Dispatch` | internal/proxy/forward.go:109-153 | block, reroute or pass through, with the fate that follows from the answers |
| `Forward.Proxy.RerouteOrDecline` | internal/proxy/forward.go:117-150 | one gateway attempt with its fail-open and fail-closed ends; a declined one leaves everything as it was |
| `Forward.Proxy.OfferToGateway` | internal/proxy/forward.go:118-128 | the gateway is offered a rewritten clone; the breaker hears the result; unless the one stream went with it, the body is still there |
| `Forward.Proxy.TryGateway` | internal/proxy/forward.go:119-128 | a RoundTrip and its note, iff Rewrite accepts |
| `Forward.Proxy.FailOpenOrClosed` | internal/proxy/forward.go:128-144 | after a failure: an error in fail_closed mode or without a buffered body, else the unrewritten request upstream |
| `Forward.Proxy.SendUpstream` | internal/proxy/forward.go:143-153 | the upstream is sent the client's request minus hop-by-hop headers, even after the gateway's clone was rewritten |
| `Forward.Proxy.ForwardUpstream` | internal/proxy/forward.go:194-203 | one RoundTrip, then its response or an error |
| `Forward.Proxy.WriteError` | internal/proxy/forward.go:165-169 | answers 502 and records it |
| `Forward.Proxy.Record` | internal/proxy/forward.go:171-192 | one exchange per request |
| `Forward.Proxy.Reload` | internal/proxy/proxy.go:162-164 | swaps the generation |
| `EndToEnd.EveryLegIsTransparent` | internal/proxy/forward.go:117-153 | every RoundTrip of a request, to the gateway or upstream, brings the provider the same method, URL, headers and body |
| `EndToEnd.ServedDecisionIsTiered` | internal/pipeline/pipeline.go:107-123 | what is served is the tiered policy, except that a request for a WebSocket passes through instead of being rerouted |
| `EndToEnd.GatewayTrafficNotRerouted` | internal/router/router.go:150-155 | a request to the gateway host, with any port, brackets or letter case, is never rerouted |
| `EndToEnd.FailClosedForwardsDeclined` | internal/proxy/forward.go:146-153 | in fail_closed mode a request decided to be rerouted goes upstream iff Rewrite declines it |
| `Interleaving.MoveKeeps` | internal/proxy/forward.go:56-153 | one move of one request keeps its phase, its emitted steps and the fate that its generation gives it in agreement |
| `Interleaving.NextKeepsInv` | internal/proxy/forward.go:36-153 | every act of the system keeps the invariant of all requests and breakers |
| `Interleaving.RunKeepsInv` | internal/proxy/forward.go:36-153 | so does every run |
| `Interleaving.InterleavingIsSafe` | internal/proxy/forward.go:36-153 | at most one gateway and one upstream attempt, one reply, one generation; upstream after the gateway only if it failed, fail-open and buffered; in the end the fate that this generation's rules and router give it |
| `Interleaving.ServedAlone` | internal/proxy/forward.go:21-154 | a request among many has taken the steps that Serve takes for it alone on the generation it loaded, for some answers of the outside |
| `Interleaving.RerouteAsksItsBreaker` | internal/router/router.go:157-171 | the breaker's answer it went by was that of its own generation at the moment of its Rewrite |
| `Interleaving.BreakerHearsItsOwn` | internal/router/router.go:260-262 | a generation's breaker hears exactly its own attempts' results, and never goes half-open |
| `Interleaving.GenerationIsLoadedOnce` | internal/proxy/forward.go:34-36 | a request keeps the generation that was live when it arrived, over all reloads |
| `Interleaving.RunKeepsDead` | internal/circuit/breaker.go:83-108 | under any interleaving a generation whose gateway is dead performs a dead-gateway run |
| `Interleaving.DeadGatewayIsSpared` | internal/circuit/breaker.go:83-108 | the dead-gateway bound for the whole agent, per generation, with at most m of its requests at the gateway at a time |
| `LiveUi.Chan.TrySend` | internal/liveui/liveui.go:71-74 | enqueues, or drops only when 256 events wait; never on a closed channel |
| `LiveUi.Chan.Receive` | internal/liveui/liveui.go:147-150 | the oldest queued event, or the end |
| `LiveUi.Chan.Close` | internal/liveui/liveui.go:88 | never on a closed channel |
| `LiveUi.Server.constructor` | internal/liveui/liveui.go:45-51 | an open server with an empty ring and no subscribers |
| `LiveUi.Server.Record` | internal/liveui/liveui.go:55-76 | keeps the feed invariant: the ring is the last 500 recorded, every channel is offered the event, none after close |
| `LiveUi.Server.Broadcast` | internal/liveui/liveui.go:70-75 | each subscriber is offered the event once |
| `LiveUi.Server.Close` | internal/liveui/liveui.go:80-92 | closes every open channel once and keeps the rest of its state; a second call does nothing |
| `LiveUi.Server.Subscribe` | internal/liveui/liveui.go:171-180 | a new empty channel, or none once closed |
| `LiveUi.Server.Unsubscribe` | internal/liveui/liveui.go:182-189 | closes the channel unless that has happened; safe after Close |
| `LiveUi.Server.Deliver` | internal/liveui/liveui.go:143-160 | a reader's receive keeps the invariant |
| `LiveUi.Server.Snapshot` | internal/liveui/liveui.go:163-169 | a fresh copy of the ring |
| `LiveUi.Server.HandleEvents` | internal/liveui/liveui.go:114-122 | the in-place reversal gives the ring newest first |
| `LiveUi.FeedIsFaithful` | internal/liveui/liveui.go:53-76 | received and queued events are an in-order selection of those recorded since subscribing, and all of them if the buffer was never found full |
| `LiveUi.RingSpelled` | internal/liveui/liveui.go:64-69 | the ring holds the latest 500 recorded events, or all, oldest first |
| `LiveUi.NewestFirst` | internal/liveui/liveui.go:114-122 | the page gets them latest first |
| `Capture.RedactedIff` | internal/capture/exchange.go:31-36 | redaction drops the query and nothing else |
| `Peek.PeekClientHello` | internal/proxy/sni.go:21-29 | for any pattern of reads, stopped anywhere, the replacement holds the whole original stream |
| `Peek.Replay` | internal/proxy/sni.go:63-68 | reading the replacement in any pattern yields the original bytes, each once and in order |

## Left out

- TLS, certificates, ClientHello parsing, raw splicing, trailers and flush timing.
- OS adapters, process lookup, signals, transparent capture; of `setupOS` only the order of its steps.
- JSON and YAML text: documents and policies are parsed values; a JSON body reaches the classifier through a parser that is an argument, as the text of each top-level value.
- Case folding and trimming beyond ASCII, and the width of Go's integers: counters and times are unbounded.
- The attribution JSON of the context header, with its 128-character clamp: its text is an argument.
- Config values that validation refuses (unknown actions or categories), and path expansion.
- Which of the managed and the user file becomes the inject target (a directory is writable or not): the target is an argument.
- Trace store, exporters, UI pages, CLI, token file watching, logging, app resolution.
- Go's map iteration order: statics are visited in any given order; header maps and subscriber sets in an arbitrary one.
- Forward.DrainBody: a body whose reading fails part way, which the code treats as if it ended there.
- Forward.CopyResponse: a response body that breaks off is one that ends there; headers that http.Error and the server add are not modelled.
- Gateway.Handle: tracing spans and the response path; userinfo in URLs.
- Gateway.RerouteTransparent: stated for the default names of the three headers, which are the ones the reference gateway reads.
- ClientCfg.Machine.InjectAt: file ownership, directory creation and partial writes; each write is atomic and succeeds. The text of a JSON object as a prior value is a fixed word.
- SettingsLifecycle.RunKeeps: user edits come between operations, not between two writes of one. An edit of a file under a record leaves the managed keys and the env block's type alone; SettingsLifecycle.RevertKeepsFileIff says what happens to any other. Entries of one list that give an app two targets or a target two apps are in no run; the two IsCleanIff lemmas say exactly what they do.
- Interleaving.RunKeepsInv: the bytes and headers of each RoundTrip, which Forward.Proxy.Serve covers; the breaker's answer and the start of the attempt are one act, since nothing shared lies between them.
- LiveUi.Server.Record: each operation is one act under the server's lock.
