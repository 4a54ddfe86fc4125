# Lingshu Gate, modelled and proved in Dafny

Lingshu Gate is a gateway between AI clients and MCP tool servers. It decides who may call which
tool, limits how often, keeps reviewed classifications of tools, stores credentials that are copied
to remote adapters, builds and deploys servers, streams build logs, relays server-sent events, and
updates itself. This project models the parts of it that carry state, heavy branching or an
algorithm, and proves what they promise for every input, every run and every interleaving.

`dafny verify dfyconfig.toml` checks the whole project.

| file | what it models | main results |
|---|---|---|
| `AccessPolicy.dfy` | the one policy evaluator | the order of checks decides exactly by named requirements; a credential never exceeds the plain session of its account; what an OAuth allow implies; more rights never deny |
| `CatalogAuthorizer.dfy` | the batched grant map and the memoised search closure | which row of the grant table decides; both forms resolve grants alike; the closure answers as the evaluator does after any earlier calls |
| `TokenScopes.dfy` | API token scopes | over every chain of mints and rescopes, no control permission or tool scope, and no callable tool, beyond the token the chain began with, that token's own MCP policy aside |
| `InvocationLimiter.dfy` | the sliding-window rate and concurrency limiter | every answer follows from the calls and answers before it, exactly or up to the lag; nobody exceeds the limits they carry |
| `Classifications.dfy` | discovery and review of tools | what every operation leaves in a row; an open row carries the fingerprint on file at its last review; only reviewers raise access, also amid a reconciliation; published rows are decided unless closed between selection and write |
| `SseReply.dfy` | the incremental event-stream reader | every way of cutting a stream gives the answer of the whole stream; which payload is found |
| `BusinessCredentials.dfy` | credentials, bindings, remote copies | when an operation is accepted and what it changes, field by field; no remote copy is ever lost track of; stale receipts are never accepted |
| `Deployments.dfy` | deploy with compensation | a failed deployment restores configuration, intent and stored intent, or says it did not |
| `PlanWaves.dfy`, `BuildExecution.dfy`, `BuildPlans.dfy` | dependency waves, the executor, the plan compiler and validator | wave number = longest chain; cycles reported exactly; no step before its dependencies; compiled plans are accepted |
| `BuildLogStream.dfy` | the log pager racing the build | the rows and statuses sent, exactly; every row before the closing status unless the build is deleted under the last page |
| `NpmClosure.dfy` | npm dependency closure | exactly the reachable packages, or a failure exactly when one is incomplete |
| `JsonPointers.dfy`, `ArgumentPolicy.dfy` | JSON Pointer resolution and argument rules | pointers and paths correspond one to one; a call passes exactly when every rule holds |
| `NativeUpdate.dfy` | the self-updater's marker and bundles | activations rise, rolled-back versions stay out, named bundles exist, across any interruption |
| `ArchiveTree.dfy`, `ZipEndRecord.dfy` | archive name checks, unpacking, the ZIP end record | accepted archives unpack without one member landing on another; the search finds the last record |

`Common.dfy`, `Texts.dfy` and `Decimals.dfy` hold shared values, splitting and numerals.

## Conventions

Code that changes tables, fields or buffers step by step is modelled by classes and loops; their
contracts tie the new state to a function of the old one, and the lemmas beside them are about that
function. Decision expressions are predicates. Clocks, randomness, digests, network answers and
failures of callees are parameters, so a theorem holds for all of them. Where the code reads more
than one clock for one decision, one reading is used.

Interleaving is modelled for the limiter's calls, the log stream against its writer, reconciliations,
publications and direct choices against each other and against discoveries and confirmations, the
steps of one build wave, and the credential store against remote saves. Everything else is taken one
whole operation at a time.

## What the code does not meet

Some statements one would expect are false of the code. Each has a witness and an exact condition.

- The limiter reads the clock before it takes its lock. With readings in lock order no half-open
  minute exceeds the rate; for every positive lag there is a run that does
  (`InvocationLimiter.LateReadingExceedsRate`), and the bound then holds for a minute less the lag.
- A log stream reads the build row, checks that the build exists and queries the page in three
  transactions. A finished build that is deleted between the last two has its stream closed by the
  terminal status with rows unsent and without an error (`BuildLogStream.StreamLosesRows`). A closed
  stream has sent every row exactly when that did not happen or nothing was left to send
  (`BuildLogStream.DeliveredUnlessLost`).
- A configuration save that fails after writing starts no compensation, so a deployment ends failed,
  with no rollback and a changed configuration (`Deployments.SilentWriteIsNotUndone`). A clean
  failure restores its server exactly when there was no such write or it changed nothing
  (`Deployments.CleanFailureRestores`).
- A token minted by an independent token is in account mode, so it may call MCP tools that the
  policy of its author refuses (`TokenScopes.MintedLeavesPolicy`). Along a chain that is the only
  way to a tool which the first token may not call (`TokenScopes.ChainsCallNothingNew`).
- A direct classification takes no fingerprint from the reviewer, so a definition that changes under
  them is opened unseen (`Classifications.BlindChoice`). An open row carries what its last reviewer
  saw exactly when that decision was a confirmation or was written before any such change
  (`Classifications.InformedExactly`, `Classifications.SeenFingerprints`).
- A reconciliation reads the rows before and after in different transactions. Its "unexpectedly
  expanded" error is raised exactly when a reviewer raised a discovered tool in between and nothing
  closed it again (`Classifications.ClassificationStore.ReconcileAmid`), and a confirmation can do
  that (`Classifications.ConfirmedMidway`). Undisturbed it never is.
- A publication selects rows with a decided access in one transaction and writes each of them in
  another without looking again. A row that a discovery closes in between ends published and unknown
  (`Classifications.ClosedMidway`). A step keeps published rows read or write exactly unless it is
  such a write to a row that is no longer decided (`Classifications.PublishedKept`), so every run
  without one does (`Classifications.PublishedRows`).

Two more are false of a function on arbitrary arguments, and true of the arguments it gets.

- The search closure looks up grants and OAuth lists under the raw server id of a row, the evaluator
  under the stripped one. For a blank or padded id they disagree, in both directions and for
  sessions as well as OAuth (`CatalogAuthorizer.PaddedServerIdDisagrees`). The rows of MCP tools
  carry manifest ids, which have no white space (mcp_manifest.py:23, 309), and there the closure
  and the evaluator agree without exception (`CatalogAuthorizer.ManifestRowsAgree`).
- The evaluator lets OAuth call an unpublished MCP tool exactly when its definition carries the mark
  of the classification control plane (`AccessPolicy.UnpublishedOAuthCall`, with a witness in
  `AccessPolicy.UnpublishedOAuthWitness`). The runtime never puts that mark on an MCP definition
  (mcp_runtime.py:1379-1396), and there an OAuth allow implies a published classification
  (`AccessPolicy.RuntimeOAuthIsPublished`).

Some branches are dead, and one count is off. The member limit of the ZIP check never refuses a
file, because the field it looks at has two bytes (`ZipEndRecord.Preflight`). Applying a manifest
only ever returns with the status that was asked for, so the deployment's own check of that status
never fails, and every registered runtime has an intent, so the deployment's fallback for a runtime
without one is not modelled (`Deployments.Deployer.ApplyManifest`). The counts of a reconciliation
do not add up when a returning tool is listed twice (`Classifications.CountsAddUp`).

## Model

| member | source | states |
|---|---|---|
| `AccessPolicy.EvaluateIsMayCall` | src/lingshu_gate/access_control.py:1421-1628 | the order of checks decides exactly by independent requirements: what the credential opens (first matching server policy or frozen tool, OAuth lists and expiry), and per kind of tool what account and scopes must hold by name, whether the tool is reviewed and whether the grant reaches it; for every principal and definition, the management resource apart |
| `AccessPolicy.ManagementCall` | src/lingshu_gate/access_control.py:1441-1465 | the management resource: allowed exactly when it is switched on and addressed to this gate, the grant is unexpired and lists the tool as frozen, and permissions, scopes and delegated scopes each hold every permission the tool needs |
| `AccessPolicy.SessionCalls` | src/lingshu_gate/access_control.py:1577-1628 | a plain user's session may call an MCP tool exactly when it is published as read with `tools.read` and a read or write grant, or as write with `tools.invoke` and a write grant |
| `AccessPolicy.WritesNeedScopes` | src/lingshu_gate/access_control.py:1590-1610 | no credential calls a writing MCP tool unless each of its scope lists holds `*`, `tools.invoke` or `mcp.write` and its account may invoke tools |
| `AccessPolicy.CredentialWithinAccount` | src/lingshu_gate/access_control.py:1421-1628 | whatever a token (account or independent) or OAuth credential may call, a plain session of the same account may call, except exactly the administrator tools that answer only to API tokens; for MCP tools there is no exception |
| `AccessPolicy.PolicyWithinAccount` | src/lingshu_gate/access_control.py:1475-1628 | the policy part of the decision keeps its allow when every scope limit of the credential is dropped |
| `AccessPolicy.AdminSessionAllowed` | src/lingshu_gate/access_control.py:1441-1465 | a management-resource allow implies that the administrator's session is allowed, token-only tools excepted |
| `AccessPolicy.OAuthWithinGrant` | src/lingshu_gate/access_control.py:1466-1474 | an OAuth allow of an MCP tool implies an unexpired grant that lists the server, the tool and the access, and a published classification unless the tool is part of the review control plane |
| `AccessPolicy.UnpublishedOAuthCall` | src/lingshu_gate/access_control.py:1513-1546 | for arbitrary definitions, the exact condition under which OAuth may call an unpublished MCP tool |
| `AccessPolicy.UnpublishedOAuthWitness` | src/lingshu_gate/access_control.py:1513-1533 | one such call: a definition with the control-plane mark |
| `AccessPolicy.ManifestIdIsStripped` | src/lingshu_gate/mcp_manifest.py:23-23 | stripping leaves a manifest id alone |
| `AccessPolicy.RuntimeOAuthIsPublished` | src/lingshu_gate/mcp_runtime.py:1379-1396 | for MCP definitions as the runtime builds them, an OAuth allow implies a published read or write classification, membership in the explicit lists, and an allow for the plain session |
| `AccessPolicy.EvaluateIsMonotone` | src/lingshu_gate/access_control.py:1421-1628 | more permissions, wider scopes or a higher grant never turn an allow into a denial |
| `AccessPolicy.ControlWidens` | src/lingshu_gate/access_control.py:300-312 | control permissions grow with permissions and scopes, wildcards included |
| `AccessPolicy.ScopeWidens` | src/lingshu_gate/access_control.py:2483-2492 | tool scopes grow with every limit |
| `CatalogAuthorizer.ResolveListed` | src/lingshu_gate/access_control.py:1693-1708 | the listing form resolves user over role, tool over server, highest role wins |
| `CatalogAuthorizer.ResolveSearched` | src/lingshu_gate/access_control.py:1358-1366 | the search form, padded with "none", resolves to the same level |
| `CatalogAuthorizer.HighestIsEffective` | src/lingshu_gate/access_control.py:1700-1708 | the maximum over contributed levels is the effective access, with or without the padding |
| `CatalogAuthorizer.GrantPrecedence` | src/lingshu_gate/access_control.py:1693-1708 | on the rows of the table: a user's row decides whatever else there is, a tool row hides the server row of the same subject, and without a user's row the answer is the highest among the rows that speak for the roles |
| `CatalogAuthorizer.DeadRowsAreSilent` | src/lingshu_gate/access_control.py:1338-1347 | removing every expired row and every row of a disabled permission type changes no answer |
| `CatalogAuthorizer.ExtractCovers` | src/lingshu_gate/access_control.py:1338-1349 | an extract of live grants answers like the whole table for every key on its servers |
| `CatalogAuthorizer.ReadInBatches` | src/lingshu_gate/access_control.py:1663-1690 | reading servers in batches of 250 gives the extract for all of them |
| `CatalogAuthorizer.DistinctServers` | src/lingshu_gate/access_control.py:1660-1660 | exactly the servers of the keys |
| `CatalogAuthorizer.EffectiveAccessMap` | src/lingshu_gate/access_control.py:1649-1709 | the map holds exactly the keys, each with its effective access, "write" for administrators |
| `CatalogAuthorizer.ToolIdIrrelevant` | src/lingshu_gate/access_control.py:1375-1376 | dropping the tool id from the memo key is sound for every tool that is not built in |
| `CatalogAuthorizer.AdminIgnoresGrant` | src/lingshu_gate/access_control.py:1547-1579 | an administrator's decision does not depend on the grant |
| `CatalogAuthorizer.Authorizer.constructor` | src/lingshu_gate/access_control.py:1338-1356 | the closure starts with all live grants of the user and the user's roles, and an empty memo |
| `CatalogAuthorizer.Authorizer.Authorize` | src/lingshu_gate/access_control.py:1357-1394 | after any earlier calls, the answer is that of the evaluator for the rebuilt definition with the grant under the row's server id, cut by the OAuth screens; the memo stays right |
| `CatalogAuthorizer.Authorizer.AllowedByGrant` | src/lingshu_gate/access_control.py:1374-1392 | the decision stored under a memo key is right for every row with that key |
| `CatalogAuthorizer.WhichClassification` | src/lingshu_gate/access_control.py:1385-1387 | an independent token with a frozen tool is judged by the stored classification, everyone else by the row's own |
| `CatalogAuthorizer.SearchAgreesWithEvaluator` | src/lingshu_gate/access_control.py:1331-1394 | for every principal and grant table, on rows whose server id stripping leaves alone: closure and evaluator agree, with grants keyed as every caller of the evaluator keys them, and so does the single lookup of a row as the query joins it; management OAuth is always refused |
| `CatalogAuthorizer.ManifestRowsAgree` | src/lingshu_gate/access_control.py:1320-1329 | for rows with manifest ids, closure, evaluator and single lookup agree without exception |
| `CatalogAuthorizer.PaddedServerIdDisagrees` | src/lingshu_gate/access_control.py:1253-1267 | for every blank or padded server id: a session that the evaluator allows and the closure refuses, one the other way round, and an OAuth grant that the closure refuses |
| `CatalogAuthorizer.Search` | src/lingshu_gate/access_control.py:1331-1394 | a whole search: any rows, any order, any repetition; on rows whose server id stripping leaves alone every answer is the evaluator's |
| `TokenScopes.NarrowScopes` | src/lingshu_gate/auth.py:600-614 | narrowing limit by limit leaves exactly the scopes that every limit admits and the account holds |
| `TokenScopes.Normalize` | src/lingshu_gate/auth.py:587-618 | accepts a request exactly when it is not empty (or may default) and every scope may be requested |
| `TokenScopes.RequestableExactly` | src/lingshu_gate/auth.py:600-614 | what may be requested, by kind of caller: without a narrowing scope list the permissions of the account and, for administrators, the wildcard; with one what all lists hold and the account has, where an administrator or the wildcard permission has everything |
| `TokenScopes.AskedScopes` | src/lingshu_gate/auth.py:587-618 | the accepted scopes are exactly those asked for, stripped and without blanks, or `tools.read` by default; each error is given exactly when it applies |
| `TokenScopes.AuthStore.CreateApiToken` | src/lingshu_gate/auth.py:498-537 | one new row with the accepted scopes and no stored authorization, or nothing |
| `TokenScopes.AuthStore.UpdateApiTokenScopes` | src/lingshu_gate/auth.py:539-585 | only an own, live token is rescoped, and only its scopes change |
| `TokenScopes.RescopeOutcome` | src/lingshu_gate/auth.py:539-585 | accepted exactly for an own token that is neither revoked nor expired and a request within its limits; the row keeps everything but its scopes, and no other row changes |
| `TokenScopes.MintOutcome` | src/lingshu_gate/auth.py:498-537 | one new live row of the account with the scopes asked for and no stored authorization; no other row changes |
| `TokenScopes.TokenActsAs` | src/lingshu_gate/auth.py:897-930 | a token acts for its account with its own scopes and stored authorization, in account mode without one, and never with a delegation |
| `TokenScopes.Play` | src/lingshu_gate/auth.py:498-618 | the steps of a run are calls of the store by tokens that the holder has, and the tokens held are those that came out of them |
| `TokenScopes.GrantedWithinAuthor` | src/lingshu_gate/auth.py:587-618 | a token minted or rescoped by a principal has no control permission and no tool scope the principal lacks, wildcards included, whatever its stored authorization |
| `TokenScopes.StepConfined` | src/lingshu_gate/auth.py:897-917 | one request made with a held token keeps every held token within a bound |
| `TokenScopes.TokensNeverEscalate` | src/lingshu_gate/auth.py:498-618 | over every run of mints and rescopes from one token, no control permission and no tool scope of a token obtained exceeds it |
| `TokenScopes.EvaluateWithin` | src/lingshu_gate/access_control.py:1421-1628 | between tokens of one account, an allow carries over with control permissions and tool scopes, exactly unless the wider token is independent, the tool is an MCP tool and its own policy refuses it |
| `TokenScopes.MintedLeavesPolicy` | src/lingshu_gate/auth.py:498-537 | an independent token without policies mints an account-mode token that may call an MCP tool its author may not |
| `TokenScopes.ChainsCallNothingNew` | src/lingshu_gate/auth.py:897-930 | over every run from one token, no tool becomes callable that the first token could not call, with that one exception |
| `InvocationLimiter.PopExpired` | src/lingshu_gate/access_control.py:1763-1765 | drops exactly the expired readings at the front |
| `InvocationLimiter.Limiter.Purge` | src/lingshu_gate/access_control.py:1761-1768 | per grant: expired readings leave, idle grants leave both tables, nothing else changes |
| `InvocationLimiter.Limiter.PurgeAt` | src/lingshu_gate/access_control.py:1761-1768 | a purge keeps the tables consistent with the complete history |
| `InvocationLimiter.Limiter.EnsureWindow` | src/lingshu_gate/access_control.py:1769-1769 | an absent window and an empty one are the same to the limiter |
| `InvocationLimiter.Limiter.Acquire` | src/lingshu_gate/access_control.py:1746-1776 | the outcome, every window and every counter after it; the outcome is justified by the complete history up to the lag, and without lag it is its decision |
| `InvocationLimiter.Limiter.AcquireWithin` | src/lingshu_gate/access_control.py:1757-1776 | the part under the lock: purge, rate, concurrency, booking; the decision on the tables is one that the complete history justifies |
| `InvocationLimiter.Limiter.Admit` | src/lingshu_gate/access_control.py:1769-1776 | rate is checked before concurrency, and an admission is booked exactly when both hold |
| `InvocationLimiter.Limiter.Book` | src/lingshu_gate/access_control.py:1774-1775 | window, counter and history grow by the one admission |
| `InvocationLimiter.Limiter.Release` | src/lingshu_gate/access_control.py:1778-1781 | a held lease always finds its counter |
| `InvocationLimiter.TrackedCount` | src/lingshu_gate/access_control.py:1761-1770 | no recent admission is missing from a purged window |
| `InvocationLimiter.WindowCounts` | src/lingshu_gate/access_control.py:1769-1770 | the window's length lies between the admissions of a minute less the lag and of a minute and the lag |
| `InvocationLimiter.CountAtLeast` | src/lingshu_gate/access_control.py:1769-1770 | what a window holds, the history holds at least |
| `InvocationLimiter.PurgedIsJustified` | src/lingshu_gate/access_control.py:1769-1773 | the decision on purged tables is one that the complete history justifies |
| `InvocationLimiter.JustifiedExactly` | src/lingshu_gate/access_control.py:1769-1773 | without lag there is exactly one justified outcome |
| `InvocationLimiter.Serve` | src/lingshu_gate/access_control.py:1746-1781 | every interleaving: each refusal and each admission is justified by a log that never forgets, up to the lag, and equals its answer without lag; rate and concurrency hold for every grant, up to the lag |
| `InvocationLimiter.AnswersFromCalls` | src/lingshu_gate/access_control.py:1746-1776 | every answer follows from the calls and answers before it, up to the lag: unlimited exactly for callers without limits, else by the rate and concurrency that the caller itself carries and the admitted calls under its name |
| `InvocationLimiter.FairIsUnique` | src/lingshu_gate/access_control.py:1746-1776 | with readings in lock order only one answer follows |
| `InvocationLimiter.CallersWithinLimits` | src/lingshu_gate/access_control.py:1746-1776 | if the admitted callers under one name carry at most this rate and concurrency, no half-open minute less the lag holds more of their admissions than the rate, and no more than the concurrency ever run at once |
| `InvocationLimiter.LoggedAs` | src/lingshu_gate/access_control.py:1747-1756 | an admission is counted under `api-token:` and the token id, or the OAuth grant, with the caller's own limits |
| `InvocationLimiter.AdmissionsPerMinute` | src/lingshu_gate/access_control.py:1770-1774 | no half-open minute (less the lag), closed on either side, holds more admissions of a grant than its rate |
| `InvocationLimiter.NeverTooManyRunning` | src/lingshu_gate/access_control.py:1772-1775 | at no point are more leases outstanding than the concurrency |
| `InvocationLimiter.LateReadingExceedsRate` | src/lingshu_gate/access_control.py:1759-1774 | for every positive lag, three calls after which one half-open minute holds two admissions at rate 1 |
| `Classifications.ClassificationStore.Synchronize` | src/lingshu_gate/access_control.py:720-866 | the rows after discovery, definition by definition |
| `Classifications.ClassificationStore.SyncTool` | src/lingshu_gate/access_control.py:755-866 | new, changed, reviewed and unreviewed rows each get their own treatment |
| `Classifications.SyncAllTightens` | src/lingshu_gate/access_control.py:720-866 | discovery never opens a row, leaves every definition's fingerprint and touches no other row |
| `Classifications.DiscoveryOutcome` | src/lingshu_gate/access_control.py:755-866 | a row after discovery, from all definitions of its tool at once: kept if all carry its fingerprint (an unreviewed one takes the last suggestion), pending if new, closed and stale after any change on the way |
| `Classifications.ClassificationStore.RetireMissing` | src/lingshu_gate/access_control.py:903-926 | tools that are gone are closed and marked retired |
| `Classifications.ClassificationStore.ReviveReturned` | src/lingshu_gate/access_control.py:928-957 | returning tools are closed until reviewed again |
| `Classifications.ClassificationStore.Reconcile` | src/lingshu_gate/access_control.py:876-1006 | undisturbed: rows and report of one server; refuses a foreign tool untouched; the "unexpectedly expanded" error is never returned |
| `Classifications.ClassificationStore.ReconcileAmid` | src/lingshu_gate/access_control.py:884-1006 | with other threads between any two of its transactions: the rows are those of its own steps (discovery, one write for each tool that is gone, one for each definition of a tool that is back) in this order, each followed by the other threads' turn; the report is that of the two readings, and the error is raised exactly when a reviewer raised a discovered tool in between and nothing closed it again |
| `Classifications.ClassificationStore.DiscoverAmid` | src/lingshu_gate/access_control.py:899-899 | the discovery is one transaction, followed by a turn of the other threads |
| `Classifications.ClassificationStore.WriteAmid` | src/lingshu_gate/access_control.py:917-925 | one own write, then the other threads' turn: the rows of exactly these steps |
| `Classifications.ClassificationStore.WriteEachAmid` | src/lingshu_gate/access_control.py:908-926 | exactly one write for each of the rows, in some order, each followed by the other threads' next turn |
| `Classifications.ClassificationStore.ReviveAmid` | src/lingshu_gate/access_control.py:928-957 | exactly one write for each definition of a tool that was retired before, in the order of the definitions, each followed by the other threads' next turn |
| `Classifications.ReconcileUndisturbed` | src/lingshu_gate/access_control.py:899-957 | with no other thread in between, these transactions give the rows of a whole reconciliation, in whatever order the tools that are gone are written |
| `Classifications.RaisedExactly` | src/lingshu_gate/access_control.py:976-982 | over any steps, a row ends above where it began exactly when a reviewer raised it and nothing closed it again |
| `Classifications.ConfirmedMidway` | src/lingshu_gate/access_control.py:976-982 | a confirmation between the two readings raises the error |
| `Classifications.ReconciledTightens` | src/lingshu_gate/access_control.py:876-1006 | reconciliation only ever takes access away |
| `Classifications.ReconcileOutcome` | src/lingshu_gate/access_control.py:899-957 | a row after reconciliation: gone tools closed and retired with their fingerprint, returned ones closed and active, everything else as discovery leaves it |
| `Classifications.ReportAgrees` | src/lingshu_gate/access_control.py:959-1006 | the report computed from the written rows says what the rows before and the definitions imply |
| `Classifications.ReportPartitions` | src/lingshu_gate/access_control.py:963-975 | new, changed, reappeared and unchanged split the discovered tools; retired ones are none of them |
| `Classifications.CountsAddUp` | src/lingshu_gate/access_control.py:989-999 | the reported counts add up to the discovered tools exactly when no returning tool is listed twice |
| `Classifications.ReappearancesCount` | src/lingshu_gate/access_control.py:928-934 | the list of reappeared tools is longer than the set exactly when one of them is listed twice |
| `Classifications.ClassificationStore.SetClassification` | src/lingshu_gate/access_control.py:1029-1073 | in one piece: a reviewer's choice makes the row manual and pending; a choice written after others have changed the row is a step of every run |
| `Classifications.ChoiceOutcome` | src/lingshu_gate/access_control.py:1039-1069 | refused exactly for "none" or a missing row; else that row alone becomes manual and pending with the chosen access |
| `Classifications.ClassificationStore.Confirm` | src/lingshu_gate/access_control.py:1075-1205 | all or nothing: every target must carry the fingerprint the reviewer saw |
| `Classifications.ConfirmAccepted` | src/lingshu_gate/access_control.py:1092-1140 | accepted exactly with 1 to 500 complete items, one fingerprint per tool, and every named row at that fingerprint |
| `Classifications.ConfirmRefused` | src/lingshu_gate/access_control.py:1099-1115 | malformed exactly when the first item that spoils the request is incomplete, a conflict otherwise |
| `Classifications.ConfirmOutcome` | src/lingshu_gate/access_control.py:1142-1191 | a named, unpublished row keeps the access a reviewer chose, else takes its suggestion if that is read or write; every other row is unchanged |
| `Classifications.CollectTargets` | src/lingshu_gate/access_control.py:1092-1115 | the targets of a confirmation, or the error of the first item that spoils it |
| `Classifications.ClassificationStore.WriteConfirmed` | src/lingshu_gate/access_control.py:1142-1191 | exactly the targets are settled, each by its own choice or its suggestion |
| `Classifications.ClassificationStore.Publish` | src/lingshu_gate/access_control.py:1207-1238 | undisturbed: exactly the selected rows with a decided access become published |
| `Classifications.PublishOutcome` | src/lingshu_gate/access_control.py:1207-1238 | a row is published afterwards exactly if it was, or is read or write and selected by both filters; no access changes |
| `Classifications.ClassificationStore.PublishAmid` | src/lingshu_gate/access_control.py:1224-1237 | with other threads in between: exactly the rows selected at the start are written, each once and each followed by the other threads' turn, whatever they hold by then |
| `Classifications.PublishUndisturbed` | src/lingshu_gate/access_control.py:1224-1237 | with no other thread in between, these writes give the rows of a whole publication |
| `Classifications.ClosedMidway` | src/lingshu_gate/access_control.py:1224-1237 | a row that a discovery closes after its selection ends published and unknown |
| `Classifications.PublishedKept` | src/lingshu_gate/access_control.py:720-1238 | a step keeps published rows read or write exactly unless it publishes a row that is no longer decided |
| `Classifications.PublishedRows` | src/lingshu_gate/access_control.py:720-1238 | over every run whose publications find their rows still decided, published rows are read or write |
| `Classifications.WholePublicationsLand` | src/lingshu_gate/access_control.py:1207-1238 | publications that nothing interrupts always find their rows still decided |
| `Classifications.OnlyReviewersRaise` | src/lingshu_gate/access_control.py:720-1238 | a row's access rises only by a reviewer's decision on that row |
| `Classifications.DiscoveryKeeps` | src/lingshu_gate/access_control.py:720-1006 | discovery keeps the row invariants and the reviewed fingerprints |
| `Classifications.ReviewKeeps` | src/lingshu_gate/access_control.py:1029-1238 | reviewer operations keep them |
| `Classifications.ReviewedFingerprints` | src/lingshu_gate/access_control.py:720-1238 | over every run of single transactions: an open row carries exactly the fingerprint on file at its last review, and stale rows are unknown |
| `Classifications.RunRows` | src/lingshu_gate/access_control.py:720-1238 | the rows of a run do not depend on the recorded decisions, so what every run keeps is kept between the readings of a reconciliation and of a publication |
| `Classifications.InformedExactly` | src/lingshu_gate/access_control.py:1029-1073 | a confirmation is a decision on what the reviewer saw; a direct choice is one exactly when the definition has not changed since |
| `Classifications.SeenFingerprints` | src/lingshu_gate/access_control.py:1029-1205 | with timely choices, an open row carries the fingerprint its last reviewer saw |
| `Classifications.BlindChoice` | src/lingshu_gate/access_control.py:1029-1073 | a definition that changes under the reviewer is opened and published unseen |
| `SseReplies.LinesAreClosedLines` | src/lingshu_gate/connector_protocol.py:250-262 | cutting at the first CR, LF or CRLF again and again gives the lines of the stream with line ends normalised |
| `SseReplies.Search` | src/lingshu_gate/connector_protocol.py:255-258 | resuming the scan at the offset finds the first terminator of the buffer |
| `SseReplies.SseReply.constructor` | src/lingshu_gate/connector_protocol.py:235-243 | a fresh reader has read the empty stream |
| `SseReplies.SseReply.SkipPendingLf` | src/lingshu_gate/connector_protocol.py:251-254 | the LF of a CRLF cut in two is dropped once |
| `SseReplies.SseReply.TakeLine` | src/lingshu_gate/connector_protocol.py:263-279 | one line: decoding, the BOM of the first line, data fields, the event budget and the payload |
| `SseReplies.SseReply.Drain` | src/lingshu_gate/connector_protocol.py:250-279 | the buffered lines are read to the first answer or to the last complete line; between lines no terminator lies before the offset, and a pending CR means offset 0 |
| `SseReplies.SseReply.Feed` | src/lingshu_gate/connector_protocol.py:245-279 | the answer after a chunk is that of everything fed so far, or a size error |
| `SseReplies.FeedChunks` | src/lingshu_gate/connector_protocol.py:233-279 | every way of cutting a stream into chunks gives the answer of the whole-stream parser, and beyond the limit that of the chunks that still fitted |
| `SseReplies.LinesExtend` | src/lingshu_gate/connector_protocol.py:245-262 | later bytes only extend the open line or lose an LF to a final CR |
| `SseReplies.ReplyStable` | src/lingshu_gate/connector_protocol.py:245-279 | an answer never changes when more arrives |
| `SseReplies.ReplyIsFirstAnswer` | src/lingshu_gate/connector_protocol.py:263-279 | the answer belongs to the first line that has one, told by line numbers, event boundaries and counts |
| `SseReplies.FoundExactly` | src/lingshu_gate/connector_protocol.py:227-285 | a payload is found exactly when it is the data of an event within the budget, parses to an object with version 2.0, the type and value of the request id, no method and either a result or an error, and no earlier line has an answer |
| `SseReplies.QuietLine` | src/lingshu_gate/connector_protocol.py:263-279 | a line without an answer leaves the data and event count that its position in the stream implies |
| `BusinessCredentials.CredentialStore.CreateCredential` | src/lingshu_gate/business_credential_store.py:120-132 | one new row at version 1, or nothing |
| `BusinessCredentials.CredentialStore.UpdateCredential` | src/lingshu_gate/business_credential_store.py:134-156 | the version rises and every binding of the credential becomes pending at a new revision |
| `BusinessCredentials.CredentialStore.DeleteCredential` | src/lingshu_gate/business_credential_store.py:175-191 | refused while a remote copy or an open session may exist; else the row and its bindings go |
| `BusinessCredentials.CredentialStore.CreateBinding` | src/lingshu_gate/business_credential_store.py:202-225 | the target marker of a server is written once and must match; one binding per credential and server |
| `BusinessCredentials.CredentialStore.UpdateBinding` | src/lingshu_gate/business_credential_store.py:227-243 | a contract cannot change while a remote copy may exist |
| `BusinessCredentials.CredentialStore.MarkSync` | src/lingshu_gate/business_credential_store.py:266-289 | a receipt is taken only at the current revision and version, and sets status, synced version and flag |
| `BusinessCredentials.CredentialStore.DeleteBinding` | src/lingshu_gate/business_credential_store.py:291-306 | refused while a remote copy or an open session may exist |
| `BusinessCredentials.AcceptedExactly` | src/lingshu_gate/business_credential_store.py:120-306 | an operation is accepted exactly when what the caller saw is current, nothing in use (remote copy or open session) is lost and the request is sound |
| `BusinessCredentials.RefusedTruly` | src/lingshu_gate/business_credential_store.py:120-306 | every refusal names something that is the case |
| `BusinessCredentials.CredentialAfter` | src/lingshu_gate/business_credential_store.py:120-191 | what becomes of each credential, of the target markers and of the sessions |
| `BusinessCredentials.BindingsAfter` | src/lingshu_gate/business_credential_store.py:175-306 | which bindings there are afterwards, and a new one in full |
| `BusinessCredentials.BindingAfter` | src/lingshu_gate/business_credential_store.py:134-289 | a binding that stays, field by field: which operation changes what |
| `BusinessCredentials.ContractShape` | src/lingshu_gate/business_credential_store.py:194-200 | the accepted contracts by length and code points |
| `BusinessCredentials.SameView` | src/lingshu_gate/business_credential_store.py:266-289 | what a caller has read differs later exactly when the binding or its credential was written or removed |
| `BusinessCredentials.ApplyKeepsStore` | src/lingshu_gate/business_credential_store.py:120-306 | "synced" implies the current version and the flag, a synced version implies the flag, bindings match their server's marker, one binding per pair |
| `BusinessCredentials.ApplyKeepsCopy` | src/lingshu_gate/business_credential_store.py:134-306 | no operation but a "deleted" receipt lets go of a copy |
| `BusinessCredentials.NoUntrackedCopy` | src/lingshu_gate/business_credential_store.py:266-306 | over every run, each remote copy and each save on its way has a live, flagged binding with an unchanged contract |
| `BusinessCredentials.ReachableWorld` | src/lingshu_gate/business_credential_store.py:120-306 | the same from the empty store |
| `BusinessCredentials.DeletedReceiptMustBeTrue` | src/lingshu_gate/business_credential_store.py:266-289 | tracking survives a "deleted" receipt exactly when nothing is left and nothing is on its way |
| `BusinessCredentials.TargetsArePermanent` | src/lingshu_gate/business_credential_store.py:202-225 | a server's target marker never changes |
| `BusinessCredentials.ApplyAdvances` | src/lingshu_gate/business_credential_store.py:134-306 | counters never fall back, and a row that looks the same is the same |
| `BusinessCredentials.StaleReceiptRefused` | src/lingshu_gate/business_credential_store.py:266-289 | a receipt for work begun before any later write to its binding or credential is never accepted, however the run goes on |
| `Deployments.Deployer.SaveConfig` | src/lingshu_gate/mcp_config_store.py:249-263 | a save may fail before or after it has written |
| `Deployments.Deployer.DeleteConfig` | src/lingshu_gate/mcp_config_store.py:269-291 | a removal may fail before or after it has removed |
| `Deployments.Deployer.ApplyManifest` | src/lingshu_gate/mcp_runtime.py:381-534 | for every choice of failing step: applied exactly when every forward step goes through, raised with manifest, intent and stored intent as before exactly when the rollback goes through, and otherwise raised with a note; other servers are untouched |
| `Deployments.Deployer.SetIntent` | src/lingshu_gate/mcp_runtime_state_store.py:59-79 | storing an intent may fail before or after it is written |
| `Deployments.Deployer.Register` | src/lingshu_gate/mcp_runtime.py:558-572 | a registration carries manifest and intent, and a wanted start must reach running |
| `Deployments.Deployer.Stop` | src/lingshu_gate/mcp_runtime.py:1004-1018 | stopping changes the status or fails |
| `Deployments.Deployer.Replace` | src/lingshu_gate/mcp_runtime.py:404-437 | the forward half, and whether a runtime is registered when it fails |
| `Deployments.Deployer.Recover` | src/lingshu_gate/mcp_runtime.py:438-502 | the target comes back with its manifest, its intent and its stored intent, or the failure is noted, exactly by which steps fail |
| `Deployments.Deployer.RemoveManifest` | src/lingshu_gate/mcp_runtime.py:536-556 | removed, or failed before or after |
| `Deployments.Deployer.Advance` | src/lingshu_gate/build_deploy.py:837-886 | exactly which forward steps went through, and what each failure leaves of configuration, runtime and intent |
| `Deployments.Deployer.RestoreConfig` | src/lingshu_gate/build_deploy.py:910-920 | the old configuration is back exactly when the write goes through |
| `Deployments.Deployer.RestoreRuntime` | src/lingshu_gate/build_deploy.py:924-940 | the old runtime, intent and stored intent are back exactly when the application or removal goes through |
| `Deployments.Deployer.Compensate` | src/lingshu_gate/build_deploy.py:907-943 | which errors are reported, exactly; what is not reported is back |
| `Deployments.Deployer.Deploy` | src/lingshu_gate/build_deploy.py:742-983 | for every choice of failures: succeeds exactly when every step goes through, is recorded unless the final booking fails, attempts a rollback exactly when the configuration had been saved, lists exactly the compensating steps that failed, reports it successful exactly when none did, and then configuration, intent and stored intent are back; no other server is touched |
| `Deployments.CleanFailureRestores` | src/lingshu_gate/build_deploy.py:887-943 | a cleanly failed deployment restores its server exactly unless a save failed after writing something new |
| `Deployments.SilentWriteIsNotUndone` | src/lingshu_gate/mcp_config_store.py:251-260 | a save that fails after writing: recorded as failed, without rollback, and the configuration is changed |
| `Deployments.DeployNext` | src/lingshu_gate/build_deploy.py:742-983 | one deployment of a sequence: whether it ends clean is known beforehand, and a clean one leaves only its silent write |
| `Deployments.NoSilentWrites` | src/lingshu_gate/build_deploy.py:742-983 | without saves that fail after writing, a sequence of clean failures changes no configuration |
| `Deployments.DeployAll` | src/lingshu_gate/build_deploy.py:742-983 | any sequence of deployments up to the first that is not a clean failure: which are clean is known beforehand, and together they change no intent, leave no stored intent that contradicts it and, but for silent writes, change no configuration anywhere |
| `PlanWaves.EdgeExactly` | src/lingshu_gate/build_plan.py:330-338 | a step waits for the last step of each id that it names |
| `PlanWaves.UnknownExactly` | src/lingshu_gate/build_plan.py:332-337 | refused for an unknown dependency exactly when a step names an id that no step has |
| `PlanWaves.ComputeWaves` | src/lingshu_gate/build_plan.py:321-350 | the loop terminates with an unknown dependency, a cycle or the waves |
| `PlanWaves.CollectReady` | src/lingshu_gate/build_plan.py:344-344 | the steps of a wave are the remaining ones whose dependencies are done, in order |
| `PlanWaves.WavesPartition` | src/lingshu_gate/build_plan.py:321-350 | the waves hold every step exactly once |
| `PlanWaves.WaveIsLongestChain` | src/lingshu_gate/build_plan.py:321-350 | a step's wave number is the length of its longest dependency chain |
| `PlanWaves.CycleReportedExactly` | src/lingshu_gate/build_plan.py:343-350 | a cycle is reported exactly when the dependency relation has one |
| `BuildExecution.RunWave` | src/lingshu_gate/build_deploy.py:1116-1135 | any interleaving of one wave's steps: each starts and finishes exactly once, with its own outcome, and shows its state; nothing else happens |
| `BuildExecution.JudgeWave` | src/lingshu_gate/build_deploy.py:1118-1139 | an exception wins over a cancellation and a cancellation over a failure; a wave passes exactly when every step returned 0 |
| `BuildExecution.VerdictExactly` | src/lingshu_gate/build_deploy.py:1118-1139 | what each verdict of a wave says about its outcomes |
| `BuildExecution.RunNextWave` | src/lingshu_gate/build_deploy.py:1116-1139 | a wave whose dependencies are done runs completely and in order, and its verdict follows from its outcomes |
| `BuildExecution.RunWaves` | src/lingshu_gate/build_deploy.py:1116-1139 | the loop runs exactly the waves up to the first that stops it |
| `BuildExecution.Execute` | src/lingshu_gate/build_deploy.py:1106-1139 | for any plan, outcomes and cancellations, no step starts before all its dependencies returned 0; a completed build ran every step exactly once; any other ran exactly the waves up to the first that a request, an exception, a cancellation or a failure stopped, everything before it having returned 0 |
| `BuildPlans.AcceptedRunsInOrder` | src/lingshu_gate/build_plan.py:162-255 | an accepted buildable plan has waves [0], [1], ..., [n-1] |
| `BuildPlans.AcceptedCommands` | src/lingshu_gate/build_plan.py:201-234 | every step of an accepted plan is the preparation of the exact manager, that manager's own install or build command, or the pip installation; other runtimes have none |
| `BuildPlans.CompiledPlan` | src/lingshu_gate/build_plan.py:27-123 | when a plan is compiled, blocked or a lookup error, and which steps and manifest it has |
| `BuildPlans.CompiledPlansAreAccepted` | src/lingshu_gate/build_plan.py:27-123 | every plan compiled from metadata that meets its contract, where commands need it, exists and passes the validator |
| `BuildPlans.NodePlanIsAccepted` | src/lingshu_gate/build_plan.py:27-123 | the Node case, blocked plans included |
| `BuildPlans.PipelineShape` | src/lingshu_gate/build_plan.py:57-70 | preparation, installation and build come in this order, each depending on the step before |
| `BuildPlans.PipelineIds` | src/lingshu_gate/build_plan.py:57-70 | which optional steps are compiled, and in which order |
| `BuildPlans.PipelineFollows` | src/lingshu_gate/build_plan.py:57-70 | each compiled step depends on the one before it |
| `BuildPlans.CompiledStep` | src/lingshu_gate/build_plan.py:134-159 | each compiled step is one the validator allows |
| `BuildLogStream.SelectedAfter` | src/lingshu_gate/build_deploy.py:290-294 | a query after the last row sent selects exactly the rows not sent |
| `BuildLogStream.PageAdvances` | src/lingshu_gate/build_deploy.py:274-295 | a page continues without gap or repetition, and a page that is not full reaches the end |
| `BuildLogStream.TailStarts` | src/lingshu_gate/build_deploy.py:277-283 | tail mode begins with the last 200 rows |
| `BuildLogStream.PageAround` | src/lingshu_gate/build_deploy.py:274-295 | after a row the next rows, before a row the rows just before, in order; 1 to 1000 of them, 200 for 0 |
| `BuildLogStream.PageAtEnds` | src/lingshu_gate/build_deploy.py:274-289 | without a cursor the first rows, in tail mode the last |
| `BuildLogStream.PageReads` | src/lingshu_gate/build_deploy.py:274-295 | what a page adds to the rows sent, where it ends and when it is full |
| `BuildLogStream.Poll` | src/lingshu_gate/build_deploy_routes.py:191-211 | one round: the next page in order, then the status with the number of rows sent exactly unless the page was full; it closes exactly on a terminal status after a page that is not full |
| `BuildLogStream.ClosesExactly` | src/lingshu_gate/build_deploy_routes.py:206-212 | a round closes the stream exactly on success, failed, unsupported or cancelled with fewer than 1000 rows left, not on interrupted |
| `BuildLogStream.NextRound` | src/lingshu_gate/build_deploy_routes.py:191-198 | the status is read before the check and the page, so a terminal status means that the log met is complete; a round after a loss finds the build gone |
| `BuildLogStream.PollRound` | src/lingshu_gate/build_deploy_routes.py:191-211 | one round of three reads against the writer's history |
| `BuildLogStream.RoundReads` | src/lingshu_gate/build_deploy.py:274-295 | the rows sent after a round, a page query after a deletion returning none |
| `BuildLogStream.Stream` | src/lingshu_gate/build_deploy_routes.py:187-213 | every interleaving with the writer: the stream carries exactly the rows from its start to where its pages reach, each once and in order, and one status after each page that is not full, with the number of rows sent by then; the first round with a terminal status and a page that is not full closes it; every row has then been sent exactly unless the build was deleted under that page with rows left; it fails exactly when a status read or a check finds the build deleted |
| `BuildLogStream.DeliveredUnlessLost` | src/lingshu_gate/build_deploy_routes.py:206-212 | a closed stream has sent every row exactly when the build was not deleted between check and page of the closing round, or nothing was left to send |
| `BuildLogStream.StreamLosesRows` | src/lingshu_gate/build_deploy.py:191-250 | any finished build with rows, deleted at that point of the first round, has its stream closed with none sent |
| `BuildLogStream.FullPagesOnly` | src/lingshu_gate/build_deploy_routes.py:206-212 | a stream outlives a terminal status only by full pages |
| `BuildLogStream.StreamToTheEnd` | src/lingshu_gate/build_deploy_routes.py:187-213 | a build that is not deleted and has more terminal rounds than full pages gets its stream closed with every row sent |
| `NpmClosure.ResolveDependency` | scripts/release/generate_sbom.py:142-150 | the loop over shortening prefixes, and it ends |
| `NpmClosure.ResolveIsLongest` | scripts/release/generate_sbom.py:142-150 | the result is the candidate under the longest ancestor that has one, none exactly when no ancestor has one |
| `NpmClosure.AncestorsAreAll` | scripts/release/generate_sbom.py:150-150 | the prefixes tried are exactly the ancestor directories |
| `NpmClosure.CandidateFolders` | scripts/release/generate_sbom.py:145-145 | a candidate is the prefix, then `node_modules`, then the name, folder by folder |
| `NpmClosure.DependencyKinds` | scripts/release/generate_sbom.py:152-182 | an entry cannot do without its required dependencies and its plain peers that are not optional ones, and can do without the other optional ones |
| `NpmClosure.ResolveRoots` | scripts/release/generate_sbom.py:202-207 | the resolved roots, or a failure exactly when one is missing |
| `NpmClosure.Expand` | scripts/release/generate_sbom.py:215-238 | exactly the edges of a package, or a failure exactly when it is unusable or lacks a required dependency |
| `NpmClosure.CollectComponents` | scripts/release/generate_sbom.py:185-239 | terminates with exactly the packages reachable from the roots and exactly their edges, none leading outside; fails exactly when a root or a reachable required dependency has no resolution or an entry is malformed |
| `JsonPointers.TwoPassesAreOne` | src/lingshu_gate/argument_policy.py:145-145 | `~1` then `~0` equals one left-to-right decoding (section 4 of RFC 6901) |
| `JsonPointers.DecodeEscape` | src/lingshu_gate/argument_policy.py:145-145 | decoding undoes escaping (section 3 of RFC 6901) |
| `JsonPointers.EscapeDecode` | src/lingshu_gate/argument_policy.py:145-145 | escaping undoes decoding on every valid token, so decoding is injective |
| `JsonPointers.KeysRender` | src/lingshu_gate/argument_policy.py:142-145 | the pointer built from keys names those keys |
| `JsonPointers.RenderKeys` | src/lingshu_gate/argument_policy.py:26-32 | a supported pointer is the one built from the keys it names |
| `JsonPointers.PointersAreDistinct` | src/lingshu_gate/argument_policy.py:26-32 | distinct supported pointers name distinct keys |
| `JsonPointers.SupportedExactly` | src/lingshu_gate/argument_policy.py:26-32 | a built pointer is refused only for length, depth or control characters |
| `JsonPointers.PathTaken` | src/lingshu_gate/argument_policy.py:146-152 | the keys of a path of a value take that path exactly when no list index reaches 10^8 |
| `JsonPointers.PathSpelled` | src/lingshu_gate/argument_policy.py:146-152 | keys that lead anywhere spell the path they take |
| `JsonPointers.PointerSelectsPath` | src/lingshu_gate/argument_policy.py:142-153 | for every value and path, the escaped pointer selects the value at the path, or nothing if an index reaches 10^8 |
| `JsonPointers.PointersTakeDistinctPaths` | src/lingshu_gate/argument_policy.py:142-153 | no two supported pointers take the same path in any value |
| `Decimals.ReadDigits` | src/lingshu_gate/argument_policy.py:148-149 | a numeral without leading zeros is the only spelling of its value |
| `Decimals.DigitsLength` | src/lingshu_gate/argument_policy.py:148-148 | at most k digits exactly below 10^k |
| `ArgumentPolicy.AtPointer` | src/lingshu_gate/argument_policy.py:142-153 | the walk selects what the path of the pointer selects; missing stays missing |
| `ArgumentPolicy.SameIffNormal` | src/lingshu_gate/argument_policy.py:119-127 | two values are the same exactly when they are equal with all numbers written alike; booleans are no numbers |
| `ArgumentPolicy.SameJsonIsEquivalence` | src/lingshu_gate/argument_policy.py:119-127 | the comparison is an equivalence |
| `ArgumentPolicy.Meets` | src/lingshu_gate/argument_policy.py:162-171 | each operator's test is its demand on the normal form |
| `ArgumentPolicy.CheckRule` | src/lingshu_gate/argument_policy.py:160-174 | one rule: whether it holds of the value its pointer selects, and whether that value is missing |
| `ArgumentPolicy.CheckPolicy` | src/lingshu_gate/argument_policy.py:156-174 | a call passes exactly when the policy is off or every rule holds; a denial names the first failing rule and whether its value was missing |
| `NativeUpdate.FormatParse` | packaging/native/gate_native_update.py:26-29 | a version text is the only one of its version |
| `NativeUpdate.ParseFormat` | packaging/native/gate_native_update.py:26-29 | exactly the triples of at most nine digits each are readable |
| `NativeUpdate.VersionOrder` | packaging/native/gate_native_update.py:26-29 | the first part in which two versions differ orders them, and the larger one is the maximum |
| `NativeUpdate.Updater.constructor` | packaging/native/gate_native_update.py:200-204 | no marker means that the base bundle is active |
| `NativeUpdate.WantedExactly` | packaging/native/gate_native_update.py:141-149 | a release is looked at exactly when the marker is readable, its bundle is there, and the tag is `v` and a version |
| `NativeUpdate.CeilingIs` | packaging/native/gate_native_update.py:151-151 | the ceiling is the higher of the active and the skipped version |
| `NativeUpdate.Updater.Install` | packaging/native/gate_native_update.py:141-178 | stopped before any file operation or not: it installs exactly a genuine stable release above both the active and the skipped version, and until the marker is replaced only a bundle that was never active differs: untouched, removed or replaced, by where it stopped |
| `NativeUpdate.Updater.Rollback` | packaging/native/gate_native_update.py:208-213 | succeeds exactly when a selectable previous release is recorded, and then skips the active one |
| `NativeUpdate.StepKeepsSound` | packaging/native/gate_native_update.py:133-213 | every update, rollback and interruption keeps the marker readable and ordered and the named bundles in place |
| `NativeUpdate.RunIsSound` | packaging/native/gate_native_update.py:133-213 | the bundles named by active and previous exist at every point of every run |
| `NativeUpdate.CeilingIsHighestActive` | packaging/native/gate_native_update.py:149-152 | the larger of active and skipped is the highest version ever active |
| `NativeUpdate.InstallsRise` | packaging/native/gate_native_update.py:149-177 | each installed release is above every version active before it |
| `NativeUpdate.RolledBackStaysOut` | packaging/native/gate_native_update.py:208-213 | a version that was rolled back is never active again |
| `ArchiveTree.ValidatePaths` | scripts/release/extract_native.py:67-84 | accepts exactly when no two members or ancestors are one name after folding |
| `ArchiveTree.ValidateAncestors` | scripts/release/extract_native.py:87-98 | accepts exactly when only directories have members below them |
| `ArchiveTree.FoldedAncestor` | scripts/release/extract_native.py:62-98 | without aliases, folded ancestors and equal folded names are ancestors and equal names |
| `ArchiveTree.RootedAfterFolding` | scripts/release/extract_native.py:87-98 | the check on spelled ancestors is the check on folded ones |
| `ArchiveTree.ChecksSeparate` | scripts/release/extract_native.py:67-98 | the two checks keep folder places and file places apart |
| `ArchiveTree.MakeFolders` | scripts/release/extract_native.py:217-217 | creating a folder with its parents fails exactly when something on the way is not a folder |
| `ArchiveTree.MakeDirectories` | scripts/release/extract_native.py:213-217 | the directory pass never fails |
| `ArchiveTree.WriteLeaf` | scripts/release/extract_native.py:218-228 | an exclusive creation of an accepted member finds its place free |
| `ArchiveTree.WriteLeaves` | scripts/release/extract_native.py:218-234 | the passes over files and links never fail |
| `ArchiveTree.ReorderedStart` | scripts/release/extract_native.py:213-234 | after the directories the other members may come in any order |
| `ArchiveTree.Extract` | scripts/release/extract_native.py:204-234 | for any order of the passes: refused exactly for an alias or a member below a non-directory, with nothing written; else every member ends at its own place and nothing else is on disk |
| `ZipEndRecord.FindBackwards` | scripts/release/extract_native.py:130-130 | the last signature that ends within the bound |
| `ZipEndRecord.WrittenIsRead` | scripts/release/extract_native.py:134-142 | an end record written after any bytes is recognised at its place and its fields are read back, little-endian |
| `ZipEndRecord.ReadIsWritten` | scripts/release/extract_native.py:129-139 | what is recognised as a record is one: from there on the file is the written form of the fields read |
| `ZipEndRecord.SearchTail` | scripts/release/extract_native.py:127-139 | the loop ends with the last record whose comment ends at the end, or there is none; skipping to the position loses nothing because signatures do not overlap |
| `ZipEndRecord.TailHoldsRecords` | scripts/release/extract_native.py:122-126 | 65,557 bytes hold every record of the file |
| `ZipEndRecord.FindEndRecord` | scripts/release/extract_native.py:119-141 | the last end record of the whole file, whenever one exists |
| `ZipEndRecord.Preflight` | scripts/release/extract_native.py:119-152 | accepts exactly by the last record's disk, count, size and offset fields, and each refusal is true of that record |

## Left out

- SQL, transactions and row formats: tables are maps; only the batching of server ids is modelled, as a union over chunks.
- Decision texts, audit events and log lines: of a decision only the allow bit is modelled, of a refusal only its kind.
- Digests, encryption, signatures and snapshots: abstract functions or yes/no inputs, because their code is elsewhere.
- UTF-8 decoding and JSON parsing: abstract functions of one complete line or payload in the event-stream reader.
- HTTP routes, websockets, subprocesses and the connector's network exchange: input and output only.
- Classifications.ClassificationStore.Reconcile: does not model the report for an empty server id, which no definition can have; the rule engine behind a suggestion is an input.
- BuildExecution.Execute: does not model the size of the thread pool, log texts or the marking of steps that never started; which of several raised errors surfaces is open; cancellation is an input read before each wave and in each outcome.
- Deployments.Deployer.ApplyManifest: does not model what starting a process does; which status it reaches, or that it raises, is an input.
- BusinessCredentials: secrets, grants of a credential and listing are not modelled; the dispatch guard of application/business_credentials.py is modelled as an environment rule.
- NpmClosure.CollectComponents: does not model component names, licences or reading the lockfile.
- NativeUpdate.Updater.Install: does not model download, attestation and start; their combined result is an input, and the staging directory is not part of the disk.
- ArchiveTree.Extract: does not model modes, sizes, link targets and the root and launcher entries; name normalisation is an arbitrary folding function of one part.
- ArgumentPolicy.CheckPolicy: does not model NaN and infinities; floats are real numbers.
- Path and link safety of archive members, Windows names, resource budgets: single-pass checks that would only add easy members.
- SBOM documents, sharding, benchmarks, the web console: rendering and user interface.
