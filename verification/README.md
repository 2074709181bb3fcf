# Verification of the authorization, token and delivery cores

A Dafny model of the parts of arizuko that decide who may do what, hand out and
rotate tokens, and carry messages between platforms and the router, with proofs
of what those parts promise. `dafny verify dfyconfig.toml` checks all of it.

| files | part of the repository |
|---|---|
| `Text`, `Globs`, `PathMatch` | strings, and what a glob means, stated once for all three matchers |
| `Acl`, `Params`, `Authorize`, `Axes`, `Namespaces`, `FailedReads`, `Verdict` | the ACL evaluator: scope globs, argument rules, principal expansion, the two-axis decision, hold and shell-key rules, and what a failed membership read does to a decision, and the verdict said once more by meaning |
| `Delegate`, `OwnDeny`, `Concrete` | the subset check on grants, its soundness for the evaluator, runs of grants, and its exactness on concrete folders |
| `Scope`, `Tokens`, `Downscope`, `Keyring`, `Refresh`, `RefreshRuns` | the token authority: scopes, stamping and verifying, downscoping chains, key rotation, refresh rotation with reuse detection (section 4.14.2 of RFC 9700) |
| `StoreWrites`, `Dedup`, `Inbound`, `Mark`, `UrlCache` | adapter delivery: outbound idempotency, inbound retention, acknowledgement marks, the file URL cache |
| `Pager`, `Registry` | the audit reader and the channel registry |

Code that updates objects is a class with the same fields; its methods are tied
to a step function over a value of the same shape, and the theorems are about
every run of those steps. Concurrent code is split at its atomic store and
platform calls: any step of any other call, a crash, or a failure before or after
a write took effect may come between two of them. Clocks, key generators and the
answers of the platform and of the store are parameters.

## Where the code and its promises part

Each point is proved, with a concrete input where something fails and with the
condition under which it holds.

- **Own denies.** `auth/delegate.go:62-67` says a granter cannot delegate past its
  own deny. The overlap test compares actions by the lattice only. Authorize's sender
  axis reads `ns:*` in an allow as a wildcard, and the hold and shell-key rules read it
  so in an allow and in a deny. `OverlapMissesIff` and `OverlapMissesRuleIff` give the
  exact pairs the test misses under each reading, `OwnDenyBrokenIff` and
  `NamespacedDelegationIff` what that means on a target, `KeySlipsPastTheOwnDeny` and
  `NamespaceDenyIsNotCompared` a shell key handed on by someone denied it, in either
  spelling. Requests through the lattice and `mcp:` requests are unaffected
  (`DelegationIsSound`).
- **Conservative tests.** `scopeCovers` and `mayMeet` are exact on concrete folders
  (`ScopeCoversConcrete`, `FoldersMeetIff`) and give way in two places: a recursive scope
  whose folder is a pattern (`GlobFolderIsConservative`), and a deny below the wanted
  folder, which blocks a grant on the folder alone (`AboveIsConservative`).
  `SubtreeSpansIff` and `ApartIff` say exactly what they answer.
- **Failed membership reads.** `store/membership.go:379-383` answers no parents when a
  read fails, so a decision goes on without the role and without the role's denies:
  `RoleDenyIsLost` is an allow that should have been refused and a delegation past it.
  Delegate reads the granter's policy twice, and the walks of the two reads fail apart:
  `RoleOnlyDenyIsLost` is delegated only then. `VerdictUnaffectedIff`, `ToolVerdictIff`
  and `DelegationSoundIff` say exactly when the answer is still that of the stored
  memberships.
- **Two axes.** Row retrieval takes a star-free principal literally, while the axis
  test reads `?`, `[` and `\` in it as patterns and lets names of one namespace match
  when nothing follows the colon in either (`LookalikeLeaks`). And the folder's
  memberships are walked twice, once for the principals and once for the route's own
  reading, so one walk can fail alone (`SplitReadsLeak`). `RouteDecidesIff` is the exact
  condition for the verdict whatever reads fail. When the two walks agree it is that
  there is no lookalike (`RouteDecidesIffNoLookalike`), which plain principals ensure
  (`PlainHasNoLookalike`); when they do not agree, plain principals do not ensure it. A
  sender that has only extra principals is refused alone and honoured next to a route
  (`NamelessSenderNeedsBoth`, with `OneAxisIff` for the exact condition).
- **Rotation count.** A family starts with a count of 1
  (`authd/authstore/refresh_tokens.go:53-80`), so the count is of tokens issued: spent
  tokens plus one (`OneUnspentToken`).
- **Expiry of a child token.** The cut to the parent's remaining time applies only
  while some remains. A parent inside the verifier's thirty seconds of skew yields a
  child that outlives it (`ExpiryBoundIff`, `SkewAcceptsExpired`).
- **Rotation and minting.** A mint between a rotation's batch and its reload, or after a
  reload that failed, signs with a retired key. Until memory is rebuilt that token
  verifies (`StaleMemoryHonoursLate`, `LateTokenHonouredIff`), and afterwards it is
  refused for the rest of its life (`SplitRotationOrphans`, `LiveTokenVerifiesIff`).
  A reload reads the slot, then the keys, and loads both later: of two that overlap the
  older reading may be loaded last (`OverlappedReloadForgets`, with `SeenLostIff` for the
  exact step), and a rotation between the two reads makes the process refuse its own
  tokens (`StraddlingReloadRefusesItsOwn`, `MintThenVerify`).
  Retirement instants hold whole seconds, so the maximum lifetime is taken to be whole
  seconds, as `authd/main.go:21-23` has it.
- **Inbound and crashes.** A crash after a failed post and before the write that retains
  the message loses it with no report (`CrashBeforeRetain`); `LostSilentlyIff` says that
  crashes of the last call that has the message are the only such steps.
- **Marks and crashes.** A crash between the platform's addition and its record leaves a
  mark for good (`CrashLeavesAMark`). `Sweep` reads the marks before it takes the lock,
  and both adapters start it in the background (`slakd/main.go:66`, `gitd/main.go:62`),
  so a turn that ends and one that starts in between lose the newer record
  (`SweepRaceLosesTheNewMark`), or its full time (`SweepRaceArmsEarly`). `LeftBehindIff`
  lists every step that leaves a mark, `MisarmedIff` every step that mistimes one.
- **Registry.** A failing token generator leaves a name without its token. An entry's
  principal can change to empty where the old entry has no origin address. The principal
  index forgets a live account that shared its principal; that and the failing
  generator are the only ways it becomes incomplete (`SharedPrincipalIsForgotten`,
  `FoundBeside`, `ServeOne`).
- **Assumptions that are needed.** The four released error classes mean nothing was
  posted (`LyingRefusalPostsTwice`); no two URLs share an id
  (`CollisionSplitsCacheAndStore`).

## Model

| member | source | states |
|---|---|---|
| `Acl.MatchSegments` | auth/acl.go:76-107 | The loop that consumes the input and recurses at `**` answers what the recursive specification answers: match, no match or malformed |
| `Acl.MatchPatternIffCovers` | auth/acl.go:63-107 | For every pattern and path, a match holds iff `**` can be assigned runs of segments and every other segment one segment that path.Match accepts; a malformed segment anywhere denies |
| `Acl.VerdictComplete` | auth/acl.go:76-107 | A well-formed pattern is never reported malformed, and whatever it reads it matches |
| `Acl.LiteralScope` | auth/acl.go:63-74 | A scope without a pattern character covers exactly itself |
| `PathMatch.LiteralSegment` | auth/acl.go:97-103 | path.Match on a segment without `*?[\` accepts that segment alone |
| `PathMatch.TokensRead` | auth/acl.go:97-103 | On one segment a parsed pattern reads as a glob: a star any run, every other token one character it takes |
| `PathMatch.StarMark` | auth/acl.go:97-103 | `*` and a literal accept exactly the segments that end with the literal |
| `PathMatch.QuestionMark` | auth/acl.go:97-103 | `?` accepts exactly one character |
| `PathMatch.Quoted` | auth/acl.go:97-103 | A backslash takes the next character as it is |
| `PathMatch.CharacterRange` | auth/acl.go:97-103 | `[a-b]` and `[^a-b]` accept exactly one character in, or outside, the range |
| `PathMatch.OpenIsMalformed` | auth/acl.go:97-103 | An open class and a quote of nothing are malformed whatever the name is |
| `Acl.MatchGroups` | auth/acl.go:21-31 | True iff some allowed pattern covers the folder, the `**` shortcut included |
| `Acl.MatchSlot` | auth/acl.go:46-58 | True iff the trimmed path is not empty and some ancestor-or-self on the way down to it is covered |
| `Acl.TrimSlashesTakesSlashes` | auth/acl.go:46-50 | Trimming takes slashes off both ends and nothing else |
| `Acl.ContainsTransitive` | groupfolder/folder.go:24-39 | Folder containment is transitive: `acme` never reaches into `acmecorp` through a chain |
| `Acl.ContainsIff` | groupfolder/folder.go:24-39 | A folder contains another iff it is not empty and its segments open the other's |
| `Acl.SubtreeCovers` | auth/delegate.go:165-167 | Whatever a glob under a base covers, the base followed by `/**` covers |
| `Params.SegGlobIffSpells` | auth/authorize.go:359-386 | segGlob holds iff each star run of the pattern can be replaced by some string |
| `Params.SegGlobLoop` | auth/authorize.go:359-386 | The loop that consumes pattern and string terminates with exactly that meaning |
| `Params.ValidateParams` | auth/authorize.go:481-502 | Accepts exactly the specs whose clauses carry a name, no surrounding space, and no repeated name |
| `Params.AcceptedSpecReadsAsWritten` | auth/authorize.go:443-502 | On every accepted spec trimming changes no clause, and the spec holds iff its clauses hold with no trimming at all |
| `Params.ParamsSpec` | auth/authorize.go:515-543 | Yields a rule iff every name and value can be stated exactly; the rule is storable and holds of exactly the calls that agree with the values on every key |
| `Params.RenderedMatches` | auth/authorize.go:443-543 | Rendering then reading is the identity on meaning: the printed rule matches p iff p agrees with the values |
| `Params.RenderedValid` | auth/authorize.go:515-543 | A rendered rule passes the writer's validation iff no name is empty |
| `Authorization.UnseenParents` | store/membership.go:379-386 | The parents of one node that are not yet seen, each once |
| `Authorization.Ancestors` | store/membership.go:367-391 | The depth-first walk terminates on any edge set, cycles included, with exactly the transitive parents, each once, without the child; a read that fails on the way makes it answer none |
| `Authorization.ExpandPrincipals` | auth/authorize.go:289-314 | Exactly the non-empty principals the walks from the name, the extras and the route's folder find, each once, whatever reads fail |
| `Authorization.AnyPrincipalMatches` | auth/authorize.go:318-325 | True iff some principal of the set matches the row's principal |
| `Authorization.RowsFor` | store/acl.go:331-396 | Exactly the rows named by a held principal and the starred rows that glob onto one |
| `Authorization.PolicyRows` | auth/authorize.go:267-282 | Exactly the rows that reach the caller; an unreadable table is an error |
| `Authorization.RoutePrincipals` | auth/authorize.go:129-135 | Exactly the route folder and the roles its own walk finds, nothing without a route |
| `Authorization.Weigh` | auth/authorize.go:89-116 | One row: a deny is never confined; an allow the route does not reach is confined to the route's subtree and to the identity action test |
| `Authorization.Evaluate` | auth/authorize.go:88-116 | The pass over the rows collects exactly whether some row grants and whether some row forbids |
| `Authorization.Authorize` | auth/authorize.go:59-123 | Over any failed reads: allowed iff the guard passes, the table is readable, some row that reaches the caller grants and none forbids |
| `Verdicts.VerdictIff` | auth/authorize.go:59-123 | Authorize permits iff the guard passes, the table is readable, some row grants by its meaning and none denies by its meaning, said without any of the evaluator's own tests |
| `Verdicts.PrincipalIff` | auth/authorize.go:289-314 | A caller is its name, its extras, `folder:` and its route, and what a walk from these finds whose reads all answer |
| `Verdicts.MatchPrincipalIff` | auth/authorize.go:330-348 | A row's principal matches iff it is the name, or `**`, or its namespace spells the namespace and its rest covers the rest |
| `Verdicts.NamespacePattern` | auth/authorize.go:330-348 | `ns:g` matches itself and exactly the members of `ns` whose rest `g` covers |
| `Verdicts.NamespaceRowReaches` | auth/authorize.go:267-282 | A row for `ns:g` reaches, and can grant or forbid, exactly those callers |
| `Verdicts.StrangersAreRefused` | auth/authorize.go:330-348 | A table of one namespace row permits nothing to a caller outside the namespace |
| `Verdicts.SpecIffSays` | auth/authorize.go:410-470 | A claim predicate and an argument rule hold iff every clause says so: a bare name asks for the value, `name=glob` for one the glob spells |
| `Verdicts.RowAppliesIff` | auth/authorize.go:89-98 | A row applies iff its scope covers the target and its predicate and rule say so |
| `Verdicts.ActionCoversIff` | auth/authorize.go:391-405 | A row action covers another iff the other lies under it in the order `*` over all, `admin` over talking and the tools, `mcp:*` over each tool |
| `Verdicts.IdentityCoversIff` | auth/authorize.go:163-169 | The identity test accepts the action itself and the wildcard of its own namespace |
| `Verdicts.WithinSubtreeIff` | auth/authorize.go:146-151 | A target is within a subtree iff it is concrete and the folder's segments open its own |
| `Axes.PrincipalsSplit` | auth/authorize.go:289-314 | Whatever reads fail, the full caller's principals are the sender's plus those of the route alone; these are the route's own reading when the two walks from the folder agree |
| `Axes.ReachedSplit` | auth/authorize.go:267-282 | So a row reaches the caller iff it reaches the sender alone or the route alone |
| `Axes.PlainMatchesItself` | auth/authorize.go:330-348 | A principal `ns:rest` without a pattern character, read as a pattern, matches itself alone |
| `Axes.RouteRowsIff` | auth/authorize.go:105-112 | The rows treated as the route's own are those the route alone treats so iff no row leaks; with walks that agree, they are the rows of the route alone iff there is no lookalike |
| `Axes.LeakIsLookalike` | auth/authorize.go:105-112 | When the two walks from the folder agree, what leaks is exactly a star-free principal off the route that reads as a pattern for one of the route |
| `Axes.PlainHasNoLookalike` | auth/authorize.go:330-348 | A table whose star-free principals are plain has no lookalike for any caller |
| `Axes.OutsideSubtreeTheRouteDecides` | auth/authorize.go:86-118 | Non-interference, whatever reads fail: outside the route's subtree the verdict of the full caller is the route's own verdict minus what the caller's rows forbid, unless a row leaks |
| `Axes.RouteDecidesIff` | auth/authorize.go:86-118 | Exactly when that holds for every table of rows and every target outside the subtree, whatever reads fail: iff nothing a row may name counts as the route's own for the caller without reaching the route alone |
| `Axes.RouteDecidesIffNoLookalike` | auth/authorize.go:86-118 | When the two walks from the folder agree: iff no principal of the caller is a lookalike |
| `Axes.SplitReadsLeak` | auth/authorize.go:86-118 | Concrete input where they do not: plain principals only, and the sender carries a grant outside the subtree |
| `Axes.LookalikeLeaks` | auth/authorize.go:105-112 | Counterexample without the condition: a sender named `r:?` carries its own grant outside the subtree |
| `Axes.ToolNeedsOneAxis` | auth/authorize.go:137-169 | For every `mcp:` action, whatever reads fail, an allow of the full caller implies an allow of the route alone or of the named sender alone |
| `Axes.OneAxisIff` | auth/authorize.go:65-118 | Exactly when that holds for every table and every tool: iff the sender is named or no row principal separates it from the route where it could count |
| `Axes.NamelessSenderNeedsBoth` | auth/authorize.go:65-67 | Counterexample for a sender without a name: the guard refuses it alone, yet its extra principal is honoured next to a route |
| `Axes.EffectiveActions` | auth/authorize.go:184-227 | Lists an `mcp:` tool iff some reaching allow row confers it on the axis it is reached through |
| `Axes.ConfersIff` | auth/authorize.go:171-227 | A row confers a tool in the list iff there is a folder on which its axis would grant it |
| `Axes.PermittedToolIsListed` | auth/authorize.go:171-227 | The list never hides a tool the gate would let through |
| `FailedReads.VerdictUnaffectedIff` | store/membership.go:379-383 | For every table and request the verdict is that of the stored memberships iff the failed reads neither hide a row principal from the caller nor take one off the route |
| `FailedReads.AnsweredReadsHideNothing` | store/membership.go:367-391 | Walks whose reads all answer meet that condition |
| `FailedReads.ToolVerdictIff` | auth/authorize.go:86-118 | For a tool failed reads change the verdict iff they lose every deny that applies and keep a grant, or lose every grant where no deny applies |
| `FailedReads.RoleDenyIsLost` | store/membership.go:379-383 | Concrete input: a role's deny is lost with the role, Authorize permits and Delegate hands on |
| `FailedReads.RoleOnlyDenyIsLost` | auth/delegate.go:38-46 | Concrete input for reads that fail apart: allow and deny through one role, delegated when only the deny read fails, refused under any failure both meet |
| `FailedReads.DelegationSoundIff` | auth/delegate.go:35-70 | A delegation judged under reads that fail in either walk is sound for the stored memberships iff no deny of the granter for the request was hidden from the deny read |
| `Namespaces.NamespacedAllows` | auth/authorize.go:619-646 | True iff an allow row speaks of the name or of its whole namespace and no deny row does |
| `Namespaces.OthersDecideNothing` | auth/authorize.go:609-618 | Rows of any other action, the blanket row included, change no namespaced answer |
| `Namespaces.OperatorIsNotHeld` | auth/authorize.go:609-618 | A caller whose only rows are blanket rows is never held and gets no shell key |
| `Namespaces.CheckHold` | auth/authorize.go:589-607 | True iff the caller is named, the tool is named, the table is readable and the caller's own rows rule the tool held |
| `Namespaces.RuledForIff` | auth/authorize.go:589-646 | By meaning: an allow that reaches the caller and speaks of the target names the rule or its namespace, and no deny does |
| `Namespaces.ShellEnvKeys` | auth/authorize.go:664-684 | Before the final sort: exactly the asked keys that a rule grants, in the order asked |
| `Namespaces.GrantedKeys` | auth/authorize.go:677-682 | A granted key is answered as often as it was asked, any other never |
| `Delegation.ScopeCoversSound` | auth/delegate.go:161-175 | scopeCovers(held, want) implies every path want covers, held covers, for all glob pairs with `**` |
| `ConcreteGrants.ScopeCoversConcrete` | auth/delegate.go:161-175 | The other half: on a concrete folder a scope whose recursive tail hangs on a concrete folder covers it syntactically iff it covers it |
| `ConcreteGrants.SubtreeSpansIff` | auth/delegate.go:165-167 | A subtree scope spans itself and exactly what is written under its folder, patterns included |
| `ConcreteGrants.SubtreeIff` | auth/delegate.go:165-167 | A folder followed by `/**` covers exactly the folder and what is under it |
| `ConcreteGrants.GlobFolderIsConservative` | auth/delegate.go:151-167 | Concrete input where the test gives less than the scope covers: a recursive scope on a pattern |
| `Delegation.MayMeetLoop` | auth/delegate.go:181-192 | The index loop over both globs answers the recursive test |
| `Delegation.MayMeetSound` | auth/delegate.go:177-192 | The answer false is a proof: two globs that share a path are never reported apart |
| `ConcreteGrants.ApartIff` | auth/delegate.go:177-192 | For all glob pairs the answer is false iff a written-out segment differs before any `**`, or neither has one and the lengths differ |
| `ConcreteGrants.FoldersMeetIff` | auth/delegate.go:177-192 | Two folders meet iff they are one |
| `ConcreteGrants.SubtreeMeetsIff` | auth/delegate.go:177-192 | A subtree and a folder meet iff one lies on the way to the other |
| `ConcreteGrants.AboveIsConservative` | auth/delegate.go:177-192 | Concrete input where the test sees a meeting and no path is in both: a folder above the subtree |
| `Delegation.ActionCoversTransitive` | auth/authorize.go:391-405 | The action order is transitive |
| `Delegation.ActionsLaminar` | auth/authorize.go:391-405 | Two row actions that cover a common action are comparable |
| `Delegation.GrantableRows` | auth/delegate.go:99-111 | Exactly the held allow rows with the grant option and no claim predicate |
| `Delegation.DenyRows` | auth/delegate.go:81-93 | Exactly the held deny rows |
| `Delegation.CoveredByGrantable` | auth/delegate.go:134-150 | True iff one grantable row covers action, scope and params together |
| `Delegation.BlockedByDeny` | auth/delegate.go:118-128 | True iff some deny has a comparable action and a scope that may meet |
| `Delegation.Delegate` | auth/delegate.go:35-70 | Two reads of the granter's policy that may fail apart: succeeds iff both answer and every wanted row is delegable by them; otherwise names the first that is not |
| `ConcreteGrants.ConcreteDelegationIff` | auth/delegate.go:35-150 | On a concrete folder a row is delegable iff it is an allow for one principal, a grant-option allow of the granter without a claim stands over its action, asks for nothing more and covers the folder, and no comparable deny of the granter is near it |
| `ConcreteGrants.GivenIsStored` | store/acl.go:141-220 | A delegable row is stored with the writer's defaults unless its coordinate is taken, and then nothing changes, the grant option included |
| `ConcreteGrants.RefusedGivesNothing` | auth/delegate.go:35-70 | A row that is not delegable changes nothing |
| `Delegation.CoveringRowConfers` | auth/delegate.go:134-150 | A covering row confers whatever the covered row confers, on both action tests |
| `Delegation.DelegationIsSound` | auth/delegate.go:22-70 | If Delegate succeeds, for every request a wanted row allows through the action lattice, and every `mcp:` request on either axis, a grantable row grants the granter and no deny the check saw forbids it; under equal reads Authorize already allows it |
| `Delegation.NamelessDelegatesNothing` | auth/delegate.go:75-77 | An empty granter can delegate no row |
| `Delegation.OperatorDelegatesAnything` | auth/delegate.go:7-10 | A blanket row with the grant option delegates every row a delegation may name |
| `Delegation.NoRunAmplifies` | auth/delegate.go:35-70 | After any sequence of guarded grants, whatever membership reads fail while each is judged, whatever a delegated row confers a seed row with the grant option conferred |
| `Delegation.RunsKeepTheSeed` | store/acl.go:141-176 | Such a run keeps every seed row and edge, and only ever adds allow rows |
| `Delegation.NobodyGainsBeyondTheSeed` | auth/delegate.go:4-10 | No caller on either axis is ever permitted what no seed row conferred, and what a seed row denied stays denied |
| `OwnDenies.OverlapMissesIff` | auth/delegate.go:118-122 | As Authorize reads actions, for all pairs: the overlap test misses a deny on a conferred action iff the wanted action is a namespace wildcard outside `mcp:` and the deny another action of it |
| `OwnDenies.OwnDenyBrokenIff` | auth/delegate.go:62-67 | On any target, a delegable row confers an action Authorize denies the granter iff one of its denies applies there and is such a one |
| `OwnDenies.BothAxesAreSound` | auth/delegate.go:22-70 | Where no such deny applies, whatever a delegable row confers on either axis a grantable row of the granter confers, and the granter is not denied it |
| `OwnDenies.OverlapMissesRuleIff` | auth/delegate.go:118-122 | As the hold and shell-key rules read actions, for all pairs: the test misses a deny that shares a name iff the two differ and one of them is the whole namespace |
| `OwnDenies.DenyIsSpelledOtherwise` | auth/delegate.go:118-128 | Every held deny that speaks of a delegable rule is spelled another way than the rule |
| `OwnDenies.NamespacedDelegationIff` | auth/delegate.go:35-70 | The granter is ruled by a rule it may hand on iff an allow of its own speaks of it and no deny spelled another way does; a covering row other than the blanket one is such an allow |
| `OwnDenies.KeySlipsPastTheOwnDeny` | auth/delegate.go:113-128 | Counterexample: a granter denied one shell key delegates `shell:env:*`, and the delegate gets that key |
| `OwnDenies.NamespaceDenyIsNotCompared` | auth/delegate.go:113-128 | Counterexample the other way round: a granter denied `shell:env:*` delegates the one key it holds by name |
| `Scope.ScopeMatchesTransitive` | auth/scope.go:26-39 | Scope coverage is transitive |
| `Scope.ScopeMatchesIff` | auth/scope.go:26-39 | A held scope stands for itself and, as a wildcard, for every verb of its resource; the blanket scopes stand for nothing |
| `Scope.CoveredAttenuates` | auth/scope.go:13-57 | A scope list each of whose entries is covered authorizes no resource and verb that the covering list does not |
| `Scope.ScopeCoveredBy` | auth/scope.go:50-57 | True iff some held scope covers the wanted one |
| `Scope.IntersectScopes` | auth/scope.go:61-74 | Exactly the requested scopes that are covered, each once, in the order of first request; the result attenuates the grants |
| `Tokens.StampedLifetime` | auth/es256.go:186-210 | In the whole seconds of its claims a token lives at most the maximum lifetime |
| `Tokens.AcceptanceWindow` | auth/jwks.go:132-172 | A signed token is accepted iff it is a user's, a service's or a child's that names its parent, and the instant lies between thirty seconds before its issue and the end of the thirtieth second after its expiry; it is read back as stamped |
| `Downscoping.IssuerMint` | authd/server.go:235-245 | Refuses iff some requested scope is not covered by the target's grants; otherwise the token has the target's subject, exactly the requested or all granted scopes, and a bounded lifetime |
| `Downscoping.Downscope` | authd/server.go:209-230 | Refuses iff some requested scope or the folder exceeds the parent; otherwise the token has the requested scope and folder, else the parent's, the parent's sub, aud and jti, and lives as asked, as the parent does, or the maximum |
| `Downscoping.MintForSubject` | auth/es256.go:217-224 | The minted scope attenuates the target's grants and the request, and drops no requested scope that is granted |
| `Downscoping.DerivesWithin` | authd/server.go:209-230 | A child keeps the parent's sub, authorizes nothing more, stays in its folder and names its jti |
| `Downscoping.ChainAttenuates` | authd/server.go:209-257 | Along any chain every descendant lies within every ancestor, in subject, authority and folder |
| `Downscoping.ChainWithinRequests` | authd/server.go:209-257 | Along any chain every descendant authorizes nothing beyond what each mint above it asked for, in scope and folder |
| `Downscoping.ExpiryBoundIff` | authd/server.go:220-228 | With one clock reading the child's expiry is at most the parent's iff the parent was presented before its expiry |
| `Downscoping.ExpiryBoundTwoReadings` | authd/server.go:185-230 | A second clock reading adds at most the time between the two |
| `Downscoping.ChainExpires` | authd/server.go:209-230 | Along any chain of parents presented in time no descendant outlives an ancestor by more than the clock moved inside the mints; with one reading a mint, not at all |
| `Downscoping.SkewAcceptsExpired` | auth/jwks.go:132-172 | A verifier does accept a parent in the thirty seconds after its expiry, so the failing half of that condition is reachable |
| `Keyring.Authd.Load` | authd/server.go:64-79 | Memory becomes the slot's key as signer and every key inside its window as serving, from the slot and keys that were read |
| `Keyring.Authd.Reload` | authd/server.go:59-80 | The same from one state of the store |
| `Keyring.Authd.Rotate` | authd/server.go:86-95 | The guarded batch retires the slot's key and installs the new one, then memory follows; a batch that reports failure may have committed |
| `Keyring.MintThenVerify` | authd/server.go:136-204 | In every reachable state the token just minted is read back with its subject, scope and folder iff the instant lies in its window and memory does not sign with a key it serves as retired before that second |
| `Keyring.LiveTokenVerifiesIff` | auth/jwks.go:94-129 | Once memory is fresh, an issued token before its expiry verifies iff it was not stamped after its key's retirement |
| `Keyring.NoLiveTokenIsOrphaned` | authd/server.go:59-95 | Over any run of mints, rotations and restarts, with minting atomic, every issued token verifies at every instant before its expiry |
| `Keyring.WindowCloses` | authd/server.go:59-80 | Once memory is rebuilt after a retired key's window nothing it signed verifies |
| `Keyring.RetirementStays` | authd/authstore/signing_keys.go:72-119 | A retirement is never undone or moved by any later step |
| `Keyring.LateTokenHonouredIff` | auth/jwks.go:94-129 | A token stamped after its key's retirement verifies iff memory still serves the key as unretired and the token is in its window |
| `Keyring.SeenLostIff` | authd/server.go:59-80 | A retirement memory has seen is unseen by a step iff it loads a reload that read before the retirement |
| `Keyring.SeenStays` | authd/server.go:59-80 | So it stays seen over any run without such a load |
| `Keyring.NoLateTokenIsHonoured` | auth/jwks.go:94-129 | Once memory has seen the retirement, a token stamped after it never verifies, in that state or any later one, until a reload that read before it is loaded |
| `Keyring.OverlappedReloadForgets` | authd/server.go:86-95 | Concrete input: two rotations whose reloads overlap leave the process signing with the key the second retired |
| `Keyring.StraddlingReloadRefusesItsOwn` | authd/authstore/signing_keys.go:41-66 | Concrete input: a slot read and a key query on either side of a rotation, and what the process mints is refused at once |
| `Keyring.StaleMemoryHonoursLate` | authd/server.go:86-95 | Counterexample while it has not: between a rotation's batch and its reload a late token verifies to its expiry |
| `Keyring.SplitRotationOrphans` | authd/server.go:86-95 | Counterexample: a mint between the batch and its reload is refused for its whole life |
| `Keyring.RotationHandsOver` | authd/server.go:86-95 | After a rotation the new key signs, the old one still serves, and a token minted at once verifies |
| `Keyring.StampIssues` | authd/server.go:185-204 | A mint for a user, a service or a child that names its parent is issued under the key in memory |
| `RefreshProtocol.StepKeepsInv` | authd/authstore/refresh_tokens.go:145-176 | Every atomic step of any call, login, logout or operator revoke keeps the lineage invariant, and tokens, spent marks and dead families only grow |
| `RefreshProtocol.LineageIsAChain` | authd/server.go:268-331 | In every reachable state each family is one chain of tokens, spent but for the last |
| `RefreshProtocol.OneUnspentToken` | authd/README.md:57-65 | A family holds exactly one unspent token and its rotation count is its spent tokens plus one |
| `RefreshProtocol.SuccessorIsUnique` | authd/authstore/refresh_tokens.go:145-176 | A token has at most one successor and at most one predecessor |
| `RefreshProtocol.SubjectIsKept` | authd/server.go:313-326 | A successor has its predecessor's subject and family, and the predecessor is spent |
| `RefreshProtocol.RevocationIsFinal` | authd/authstore/refresh_tokens.go:182-190 | After a kill no later step revives the family or writes a successor into it |
| `RefreshProtocol.OneWinner` | authd/server.go:309-323 | At most one presentation of a secret wins |
| `RefreshProtocol.ReuseLeavesTheFamilyDead` | authd/server.go:273-285 | A call that answered reuse after its kill, or read a dead family, leaves the family dead |
| `RefreshProtocol.LatePresentationIsCaught` | authd/server.go:273-323 | Once a secret is spent no later presentation wins under any interleaving; unless a store call fails or it crashes, the family ends dead |
| `RefreshProtocol.RacingPresentationIsCaught` | authd/server.go:309-323 | Neither does a call already in flight when the secret was spent, whatever it had read; it ends with the family dead unless it stopped short of the claim, a store call failed or it crashed |
| `RefreshProtocol.LostClaimKills` | authd/server.go:313-323 | A claim on a spent secret that the store answers ends in reuse with the family dead, unless the kill fails or the call crashes |
| `RefreshRuns.WinnerPassedEveryCheck` | authd/server.go:268-323 | Over any run a call that won first passed every check, on an unspent, unexpired token of a family live at that instant, and then committed its own batch |
| `RefreshRuns.QuietRefreshWins` | authd/server.go:268-331 | A live unspent token with no failure and nothing in between is rotated: spent, with an unspent successor |
| `RefreshRuns.QuietRefreshWinsAgain` | authd/server.go:264-331 | The successor is rotated in its turn at any instant up to the expiry it was written with |
| `RefreshRuns.WonTokenIsAsWritten` | authd/authstore/refresh_tokens.go:145-176 | Over any run the successor a call won has the expiry its own batch wrote and the family and subject of the token it spent, then and ever after |
| `RefreshRuns.ExpiryIsTheTokens` | authd/server.go:269-288 | Over any run the expiry a call in flight judges by is the one its token was issued with |
| `RefreshRuns.LoginIsAsWritten` | authd/authstore/refresh_tokens.go:53-80 | Over any run a login's token keeps the family, subject and expiry it was started with |
| `RefreshRuns.LoginStartsAFamily` | authd/authstore/refresh_tokens.go:53-80 | A login under a fresh family and secret leaves one unspent token and a live family |
| `RefreshRuns.LogoutIsFinal` | authd/authstore/refresh_tokens.go:182-190 | After a logout the family is dead and its chain ends where it was, over any later run |
| `RefreshRuns.QuietChecks` | authd/server.go:268-308 | What an undisturbed call is answered: unknown, revoked, reuse, expired, grants down or through, in that order |
| `RefreshRuns.RefusalBurnsNothing` | authd/server.go:268-308 | A step that ends a call with a refusal or a grants outage writes nothing |
| `RefreshProtocol.Service.Refresh` | authd/server.go:268-331 | The straight-line code, with any steps of others between its own, ends exactly where the protocol says that call ends |
| `RefreshProtocol.Service.ClaimAndRotate` | authd/authstore/refresh_tokens.go:145-176 | Count, guarded batch and the kill after a lost race follow the protocol's steps |
| `DeliveryLedger.StepKeepsInv` | chanlib/chanstore/outbound_dedup.go:97-199 | Each step of each call keeps: at most one post a key, none without a ledger entry, a sent entry names the posted message, one holder a claim |
| `DeliveryLedger.AtMostOnePostPerKey` | chanlib/dedup.go:58-107 | Over any run of concurrent, repeated and crashing calls the platform accepts at most one message per key and every success carries its id |
| `DeliveryLedger.SuccessesAgree` | chanlib/dedup.go:79-83 | Two calls that both succeed on a key answer the same id |
| `DeliveryLedger.LyingRefusalPostsTwice` | chanlib/dedup.go:62-66 | Counterexample without the assumption on the four released error classes: the retry posts a second message |
| `DeliveryLedger.DeliveryIsRecorded` | chanlib/dedup.go:87-106 | On a free key an accepted post is one message and its id is answered whether or not the record is written; the key is on record or stays claimed |
| `DeliveryLedger.ResendPostsNothing` | chanlib/dedup.go:79-86 | A re-send of a key on record posts nothing and answers the recorded id, or is refused while unresolved |
| `DeliveryLedger.RefusalFreesTheKey` | chanlib/dedup.go:88-98 | A refusal that proves nothing was posted leaves the key free for the retry |
| `DeliveryLedger.Adapter.DeliverOnce` | chanlib/dedup.go:69-107 | The straight-line code, with other calls' steps between its own, ends exactly where the protocol says that call ends |
| `Inbound.InboundBackoff` | chanlib/inbound.go:120-129 | The loop computes min(30 s doubled per failure, 15 min) for every count |
| `Inbound.RouterClient.PostInbound` | chanlib/chanlib.go:273-316 | With other calls before each attempt: two attempts, re-registration before the second after a 401 on the registered path, ending where the protocol does |
| `Inbound.RouterClient.SendMessage` | chanlib/chanlib.go:259-268 | With other calls before each of its steps: the outcome by routd's last status, the id and the write; delivered means a row of routd, held means accounted for, lost was reported |
| `Inbound.RouterClient.RetainInbound` | chanlib/inbound.go:82-115 | Answers held iff the cause is not permanent, the message has an id, it encodes and the write answers; held then means a row |
| `Inbound.DueForRedelivery` | chanlib/chanstore/inbound_pending.go:111-136 | The oldest due rows, at most a batch, and every due row left out is younger than all of them |
| `Inbound.RouterClient.SweepInboundOnce` | chanlib/inbound.go:146-186 | With other calls in between: only rows that were due are tried, each to its end, and below the batch bound every due row is |
| `Inbound.LostSilentlyIff` | chanlib/inbound.go:77-115 | A step takes a message out of sight iff it is a crash of the last call that has it, before routd took or refused it, its retention committed or its loss was reported |
| `Inbound.NothingVanishes` | chanlib/inbound.go:58-193 | Over any run of steps of sends and sweeps, failures and crashes, each id given to SendMessage is routd's, held, refused, reported lost or in the hand of an unfinished call, unless such a crash lost it |
| `Inbound.CrashBeforeRetain` | chanlib/chanlib.go:259-268 | Concrete input: a crash between the failed post and the write that retains it, and the message is nowhere |
| `Inbound.QuietSend` | chanlib/inbound.go:54-115 | By status: 400, 403, 413 and 422 are reported lost with nothing newly held; no status, 401, 429, 5xx and every other leave the message held for thirty seconds |
| `Inbound.QuietSweep` | chanlib/inbound.go:146-186 | By status: a swept row is let go when routd takes it or answers 400, 403, 413 or 422, and is else held with its count and wait raised |
| `Inbound.OutageIsRetained` | chanlib/inbound.go:54-115 | A send whose last answer is no status, 401, 429 or 5xx ends held, whatever came first |
| `Inbound.LostAnswerLands` | chanlib/chanlib.go:273-316 | A post whose answer was lost has landed, and the second attempt changes no row |
| `Inbound.RoutdRowsStay` | chanlib/chanlib.go:252-258 | Over any run routd's row for an id is never replaced, and a held row goes only after acceptance or refusal |
| `Inbound.RedeliveryKeepsTheClock` | chanlib/chanstore/inbound_pending.go:74-97 | Over any run only a sweep of the row moves its count or its wait, however often the platform delivers the id |
| `Inbound.WaitAfterFailures` | chanlib/inbound.go:117-186 | Whatever runs in between, after n failed sweeps of a row its count is n higher and its wait min(30 s doubled count times, 15 min) from the last |
| `Inbound.SweepDelivers` | chanlib/inbound.go:160-186 | A held message that routd takes is routd's, and is still held iff the drop failed |
| `AckMarks.AckMark.Note` | chanlib/mark.go:93-105 | Only a message that can start a turn becomes the chat's candidate |
| `AckMarks.AckMark.Typing` | chanlib/mark.go:108-145 | Release the earlier mark, add on the pinned message, record, arm; a failed record is undone |
| `AckMarks.AckMark.Release` | chanlib/mark.go:184-200 | Timer off, platform removal, then the record; the record stays when the removal fails |
| `AckMarks.AckMark.Sweep` | chanlib/mark.go:149-170 | Each mark read is released when old or unreadable and re-armed for its remaining time when young |
| `AckMarks.AckMark.Expire` | chanlib/mark.go:215-230 | Acts only while the generation is still the chat's |
| `AckMarks.TypingIsARun` | chanlib/mark.go:108-145 | Typing taken at once is the run of its platform and store calls |
| `AckMarks.SweepIsARun` | chanlib/mark.go:149-170 | So is one row of the sweep |
| `AckMarks.ExpireIsARun` | chanlib/mark.go:215-230 | So is a backstop |
| `AckMarks.LeftBehindIff` | chanlib/mark.go:108-200 | A step leaves a standing mark that nobody can find iff it is an addition that failed but landed, an undo that failed after a failed record, a crash between addition and record, or a drop that hits another mark's record |
| `AckMarks.StandingMarksAreFindable` | chanlib/mark.go:31-41 | Over any run with any failures and crashes each standing mark is recorded, in the hand of the operation in progress, or was left behind by one of those steps |
| `AckMarks.OneMarkPerChat` | chanlib/mark.go:31-41 | Over every run, of two standing marks of one chat one cannot be found, and it was lost before the run or left behind by one of those steps |
| `AckMarks.CrashLeavesAMark` | chanlib/mark.go:127-136 | Concrete input: a crash between the addition and its record, no call having failed |
| `AckMarks.SweepRaceLosesTheNewMark` | chanlib/mark.go:149-170 | Concrete input: the sweep read before it locked, nothing fails or crashes, and the new mark stands unrecorded |
| `AckMarks.StaleTimersAreHarmless` | chanlib/mark.go:202-230 | A timer with a stale generation changes nothing and is stale for the life of the process, over any run |
| `AckMarks.MisarmedIff` | chanlib/mark.go:147-170 | A step makes a backstop due at another time than its mark iff it sweeps a young row whose chat has no record of that age any more |
| `AckMarks.BackstopsMatchRecords` | chanlib/mark.go:147-170 | Over any run without such a step each backstop is due exactly when its chat's record turns old |
| `AckMarks.SweepRaceArmsEarly` | chanlib/mark.go:149-170 | Concrete input: the sweep cuts the time of a newer mark short |
| `AckMarks.CandidateIsNewest` | chanlib/mark.go:93-105 | Over any run the chat's hint is its newest message since the last restart that can start a turn |
| `AckMarks.TypingOnPinsTheNewest` | chanlib/mark.go:108-145 | After any run Typing(on) leaves that newest message marked, recorded, under a new backstop, as the chat's only findable mark; other chats do not move |
| `AckMarks.OffAndBackstopClear` | chanlib/mark.go:108-119 | Typing(off), and the chat's own backstop, leave no record, no timer and no mark that could be found before |
| `AckMarks.NothingToPin` | chanlib/mark.go:120-143 | No candidate or no mark target places nothing, and an unrecorded mark that was undone leaves nothing |
| `AckMarks.SweepJudgesByAge` | chanlib/mark.go:147-170 | The sweep takes down a mark that stood its 1620 s or has no readable time, and keeps a younger one under a backstop for the rest |
| `UrlCache.URLCache.Remember` | chanlib/urlcache.go:80-94 | A held id moves to the front, a new one is pushed and the back evicted to the bound; list and hash map stay the same entries |
| `UrlCache.URLCache.Put` | chanlib/urlcache.go:48-59 | Answers the id, remembers the URL and records it, even when the record fails |
| `UrlCache.URLCache.Get` | chanlib/urlcache.go:63-77 | Memory first, then the store, warming the cache |
| `UrlCache.PutIsItsSteps` | chanlib/urlcache.go:48-59 | A Put that nothing comes between is its two steps |
| `UrlCache.GetIsItsSteps` | chanlib/urlcache.go:63-77 | So is a Get, from memory or from the store |
| `UrlCache.AnswersAreThePlainMap` | chanlib/urlcache.go:43-77 | Over any run of the steps of puts and gets and of restarts without an id collision an answer is the URL put under the id, a recorded id is always answered, an id never put never is |
| `UrlCache.RecordedLinkWorks` | chanlib/urlcache.go:43-77 | Once the record of a URL took effect its id is answered with that URL after any further puts, evictions and restarts |
| `UrlCache.HoldsTheMostRecent` | chanlib/urlcache.go:80-106 | The list is the newest `cap` entries of an unbounded move-to-front list since the restart, without duplicates, and the hash map agrees |
| `UrlCache.CollisionSplitsCacheAndStore` | chanlib/urlcache.go:80-94 | Counterexample without the condition: memory answers the first URL while the store holds the second |
| `UrlCache.PutThenGet` | chanlib/urlcache.go:43-77 | Get after Put answers the URL even when the record failed |
| `Pager.IdOrderIsTimeOrder` | audit/audit_log.go:106-150 | Ids order by instant and then by suffix, and the instant is read back from the id |
| `Pager.CandidatesAfter` | audit/audit_log.go:434-439 | A cursor set to a row read leaves exactly the rows after it |
| `Pager.Collect` | audit/audit_log.go:413-423 | One chunk: what is collected and what is unread make up the selection, or the page is full |
| `Pager.Page` | audit/audit_log.go:379-430 | For every positive chunk size the first `limit` rows of the filtered log older than the cursor; a cursor of the wrong width is refused; without a filter one query |
| `Pager.SelectedIn` | audit/audit_log.go:432-453 | The selection is exactly the rows older than the cursor, of the category, in the folder or under it, whose actor holds the text |
| `Pager.SelectedOrdered` | audit/audit_log.go:379-453 | The selection is strictly newest first, so no row occurs twice |
| `Pager.Follow` | audit/audit_log.go:342-373 | Following cursors page by page terminates and enumerates exactly the selection |
| `Pager.GrowthIsInvisible` | audit/audit_log.go:432-439 | Rows newer than a cursor change nothing behind it |
| `Pager.FollowGrowing` | audit/audit_log.go:342-373 | While rows are appended between pages, following cursors still enumerates exactly what the log held when the first page was read |
| `ChannelRegistry.Registry.RegisterWithOrigin` | chanreg/chanreg.go:120-187 | Outcome and new state of every branch; each index stays complete iff the generator did not fail on a taken name and no shared principal was given up; when the principal of a name changes |
| `ChannelRegistry.FoundBeside` | chanreg/chanreg.go:189-210 | Taking a name and its principal out keeps the principal index complete iff no other live entry shares the principal |
| `ChannelRegistry.Registry.Deregister` | chanreg/chanreg.go:189-210 | Removes the entry, its token and its principal's index entry; the principal index stays complete iff no other live entry shares it |
| `ChannelRegistry.Registry.ByToken` | chanreg/chanreg.go:218-222 | A hit is a live entry with that token; when the index is exact, no hit means no entry |
| `ChannelRegistry.Registry.ByPrincipal` | chanreg/chanreg.go:224-228 | A hit is a live entry of that principal |
| `ChannelRegistry.Registry.Resolve` | chanreg/chanreg.go:243-264 | The pinned name when live, else a live entry that owns the JID, null iff none does |
| `ChannelRegistry.Registry.RecordHealthFail` | chanreg/chanreg.go:266-275 | Counts one failure of that entry and of no other |
| `ChannelRegistry.Registry.ServeOne` | chanreg/chanreg.go:120-283 | One step breaks an index that was whole iff it is one of those cases |
| `ChannelRegistry.Registry.Serve` | chanreg/chanreg.go:120-283 | Any sequence of register, deregister and health steps with fresh tokens keeps the indexes consistent, and a name keeps its principal until it is removed or re-registered with none |
| `ChannelRegistry.SharedPrincipalIsForgotten` | chanreg/chanreg.go:189-210 | Concrete input: two accounts share a principal, one leaves, the other is live and not found by it |

## Left out

- HTTP handlers, dashboards, cookies, OAuth and Dex exchanges, fetching of remote key
  sets, JSON and base64, logging, metrics, webhooks and the writing of audit rows.
- Cryptography: a signature is an unforgeable pairing of key id and claims, and token
  and principal hashes are injective.
- Bytes and Unicode: strings are sequences of characters. The patterns of Go's
  path.Match are read over those characters.
- Authorization.Ancestors: the final sort of the answer; an absent store handle.
- Authorization.Authorize: rows and memberships do not change during one decision, nor between the two reads of
  Delegation.Delegate; only which reads fail differs.
- Params.ParamsSpec: the sort of the keys; the clauses come in any given order of the keys.
- Namespaces.ShellEnvKeys: the final sort of the answer.
- Delegation.NoRunAmplifies: memberships are fixed, so routd's write of a membership edge for an operator-shaped
  grant is not a step; nor are revokes and direct writes of rows. The writer's list of
  known actions is not checked.
- UserScopes and the public key set document.
- RefreshProtocol.Service.Refresh: scope and audience of the rotated token, which the protocol copies; the minting
  of the access token is one answer.
- Keyring.Authd.Rotate: generation of the key and of its kid; an operator who deletes the slot's key; a race for the
  slot between its read and the batch, whose loser writes nothing.
- DeliveryLedger.Adapter.DeliverOnce: without a key it posts directly and is only counted, since nothing is promised for it.
- Inbound.RouterClient.SweepInboundOnce: the loop that runs it on a timer, and registration and heartbeats; a client
  without a retention store. The model has routd keep one row per id, as its documentation
  says; routd itself is not part of this model.
- AckMarks.AckMark.Expire: a timer may fire at any step rather than when it is due. A cancelled context, which ends
  a sweep early, is a shorter list of marks. The backstop of 1620 s is the default run
  timeout's nine tenths (`chanlib/typing.go:16-24`).
- ChannelRegistry.Registry.RegisterWithOrigin: URL validation is its answer; capabilities, `All`, `OwnsScheme` and locking.
- Typing refreshers, text chunking, JID parsers, retry timing of HTTP calls.
