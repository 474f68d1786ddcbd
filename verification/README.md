# Verified models of the validation pipeline and its companion algorithms

Dafny models of the code that decides things in the validate-findings pipeline (chain synthesis,
planning, scope, execution, soundness gating, reporting), of the ledger replay behind the findings
trends, and of four small algorithms with sharp specifications: the insecure-patterns example buffer,
the recall ladder, the two "distinct vulnerability" folds, and the repo-liveness date ratchet.

Loops and objects keep the form they have in the source: methods with loops, and the classes `Search`,
`Scope`, `Executor`, `Planner` and `Collector`, whose fields the methods update in place. Each is proved
against a specification function or predicate, and the theorems below are about that specification, so
they hold of every run of the method. `dafny verify dfyconfig.toml` checks the whole project.

Adapters, the reconnaissance parser, the disposition rules, title similarity and severity scores are
arbitrary functions: what is proved holds whatever they answer. An adapter may look at everything
that happened in the run so far (the `Trace` it is given), as the original's adapters may read the
audit log. Text classification arrives as data: the capabilities a finding needs and yields, the error
signatures a transcript matches, the commands an argv analysis found.

How the pieces fit together:

| files | subject |
|---|---|
| `Capabilities`, `ChainGraph`, `KillChains`, `ChainSearch`, `ChainSynthesis`, `ChainInputs`, `OneFinding`, `ChainCap`, `ChainRuns`, `SharedNames`, `ChainSupport` | capability closure, attack graph, bounded search, the same read off the inputs, the out-degree cap, what two runs have in common, and what a reported chain means |
| `Globs`, `Scope`, `ScopeMerges`, `ScopeOutcomes`, `ScopeReach` | the rules of engagement, what they allow in terms of file and merges, what later bindings can change, and when they only add reach |
| `Soundness`, `Steps`, `Executor`, `ExecutorSafety` | the verdict gate and the worklist run |
| `Report`, `ReportEntries`, `SkipReasons`, `ReportTotals` | roll-up, where each field comes from, backstop, order of results, counters, chain rows |
| `Planner`, `Plan`, `PlanContents` | the plan, its contents and what it guarantees to a run |
| `Calendar`, `Buckets`, `KeyOrder`, `Replay`, `TrendStates`, `TrendHistory`, `TrendFlows`, `TrendCollisions`, `TrendTotals`, `Trends` | calendar buckets, replay, states, history, stocks and flows, shared ids, totals and cuts |
| `Patterns`, `PatternFields`, `PatternOrder`, `Ladder`, `LadderCuts`, `LadderFields`, `DistinctFolds`, `FoldFields`, `Liveness` | the four small algorithms |
| `Options`, `Collections`, `Sorting`, `Text` | set sizes, stable sorting, string order, decimal numerals |

## Where the code and its comments differ

The models follow the code.

* chain.py:349 says entry and asset nodes are always kept by the out-degree cap. Line 354 keeps the first
  `max_edges_per_node` by rank, and critical findings rank with the assets.
  `ChainCap.AlwaysKeptExact` says exactly when every asset is kept, `ChainCap.NinthAssetIsCut` gives a
  case where one is not.
* chain.py:353 and chain.py:293 let set order choose: which of equally ranked neighbours stay, and which of
  several assets equal in lower case a finding's text leads to. `ChainRuns.OneSearchedGraphExact` says
  exactly when neither has a say in what is searched; `SharedNames.SharedNameDecides` is an input with
  one chain in one order and none in another.
* scope.py:32-34 says inline and inferred scope cannot unlock the control plane, and scope.py:315-317 that
  anything but a read on a control-plane cluster resource needs an explicit "*". Lines 313-327 look at
  the resource only when the action has no namespace, and then at nothing else: the same write with an
  ordinary `-n` passes the lock, and so does any other action across all namespaces (`-A`).
  `ScopeMerges.NamespacedBindingSlipsThrough` and `ScopeMerges.AllNamespacesSlipThrough` show it, and
  `ScopeMerges.UnlockedExact` says these are the only kinds of control-plane reach merges can grant.
* scope.py:281 says inferred merges only add entries. A new entry for a context takes over from the
  `__current__` entry that used to answer for it (line 352), and the first image named restricts a scope
  that restricted none (line 361). `ScopeMerges.ShadowingCutsBothWays` and
  `ScopeReach.NamingAnImageRestricts` show reach withdrawn and a verb denial lifted;
  `ScopeReach.AllowedStaysExact` and `ScopeMerges.DeniedVerbsExact` say exactly when neither happens.
* soundness.py:271 says every refuted probe must be sound. One clean probe is enough (lines 272-275).
* report.py:80-82 says secondary steps do not set the verdict, yet the backstop at line 182 counts their
  transcripts as probes, so in a result list that did not pass the executor's gate a
  glue step can vouch for a refutation (`Report.GlueCanVouch`; no adapter as shipped refutes a glue step).
* report.py:166-168 means to record the reason of an attempt that ended not attempted. Such an attempt
  never improves on the initial verdict, so that reason is never recorded (`Report.AttemptsNeverExplain`).
* build_trends.py:117 says keys sort lexically. Month keys do; week keys do exactly when the ISO years of
  the ends of the range have equally many digits (`KeyOrder.WeekKeysSortedExact`,
  `KeyOrder.Year1000Misorders`).
* build_trends.py:433 remembers a finding's previous state by directory and id, while line 561 notes that
  one directory may hold several reports. Two of its reports with one id overwrite each other's state:
  in `TrendCollisions.BranchReportRecounts` a finding resolved once is counted as newly resolved again
  in the next month. `TrendCollisions.BalanceExact` says the books balance whatever the ledgers record
  exactly when no two findings share a directory and an id.

## Model

| member | source | states |
|---|---|---|
| Capabilities.Closure | harnessing/5-validate/validate-findings/chain.py:147-158 | The capability set is the least superset closed under the implication table. |
| Capabilities.Close | harnessing/5-validate/validate-findings/chain.py:147-158 | The rescan-until-stable loop terminates and computes that least closed superset. |
| Capabilities.ClosureOfUnion | harnessing/5-validate/validate-findings/chain.py:147-158 | Closing distributes over union, which is what allows closing each node once and only uniting along a path. |
| Capabilities.EtcdAccessGrants | harnessing/5-validate/validate-findings/chain.py:81-101 | The shipped table chains: the exact set of capabilities etcd access implies. |
| Capabilities.HostExecGrants | harnessing/5-validate/validate-findings/chain.py:81-101 | What host execution grants, which grants no more. |
| Capabilities.ClusterAdminGrants | harnessing/5-validate/validate-findings/chain.py:81-101 | What cluster administration does, two deep. |
| Capabilities.KubeconfigAndEscapeGrant | harnessing/5-validate/validate-findings/chain.py:81-101 | What a kubeconfig and a namespace escape grant. |
| ChainInputs.TerminalGains | harnessing/5-validate/validate-findings/chain.py:81-101 | Closing a set of capabilities never adds the first of cluster administration, host execution and etcd access. |
| ChainGraph.BuildGraph | harnessing/5-validate/validate-findings/chain.py:241-309 | The graph built in loops has an edge exactly where a declarative reading says so: an entry point that covers a finding's needs, a finding whose yields cover another's non-empty needs, a declared asset, or the asset indexed under a lower-cased name that a finding's texts contain. |
| ChainGraph.IndexAssets | harnessing/5-validate/validate-findings/chain.py:293 | The index has each lower-cased asset name once, with one of the assets that bear it, whichever the set lists last. |
| ChainGraph.LinkAssets | harnessing/5-validate/validate-findings/chain.py:295-307 | The nested loops add exactly the edges from a finding to the indexed assets its texts mention. |
| ChainGraph.LinkFindings | harnessing/5-validate/validate-findings/chain.py:281-289 | The pair loop adds exactly the escalation edges and loses none. |
| ChainInputs.MetaExact | harnessing/5-validate/validate-findings/chain.py:251-269 | There is a node for each finding triage did not refute, each asset and each entry point, with the data of the last declared under its name. |
| ChainInputs.EdgesExact | harnessing/5-validate/validate-findings/chain.py:266-307 | Read off findings and threat model: an entry point leads to findings that need no more than it holds and to the assets it names; a finding to others that need something and nothing it does not give, and to the indexed assets whose lower-cased names its texts contain; nothing else is an edge. |
| KillChains.SignaturesExact | harnessing/5-validate/validate-findings/chain.py:380-409 | From any live path, the enumeration yields exactly the finding sets of its extensions that are kill chains: simple, within the length bound, ending at their first target, with at least one finding. |
| KillChains.AllSignaturesExact | harnessing/5-validate/validate-findings/chain.py:380-414 | Over all entries: soundness and completeness of the enumeration against the declarative notion of a kill chain. |
| ChainSearch.Search.Dfs | harnessing/5-validate/validate-findings/chain.py:380-409 | One recursive call keeps the shared list and signature set consistent, only appends, and either fills the cap or has covered exactly the signatures below its path, for any neighbour order. |
| ChainSearch.Search.Run | harnessing/5-validate/validate-findings/chain.py:376-414 | The whole search is exact: every chain is a kill chain from an entry with its accumulated capabilities, finding sets are unique, and either the cap is reached or every kill chain's finding set is present. |
| ChainSearch.LedgerCounts | harnessing/5-validate/validate-findings/chain.py:387-404 | The signature set is exactly the reported finding sets and has one member per chain, never more than the cap. |
| ChainSynthesis.ChoosePool | harnessing/5-validate/validate-findings/chain.py:334-342 | The pool is all eligible findings if they fit; otherwise a full pool, gravest first, none of whose members is less severe than one left out, and of equally severe findings the earliest ones in their order. |
| ChainInputs.PoolExact | harnessing/5-validate/validate-findings/chain.py:334-342 | In terms of the severities themselves, critical to informational to anything else: a full pool is in that order and leaves out nothing graver than what it holds. |
| ChainInputs.CutExact | harnessing/5-validate/validate-findings/chain.py:345-354 | So with the neighbours kept, entries and assets counting as critical. |
| ChainSynthesis.KeepNeighbours | harnessing/5-validate/validate-findings/chain.py:346-354 | The out-degree cap keeps all neighbours when they fit, and otherwise exactly as many as allowed, none ranked behind a dropped one. |
| ChainCap.AlwaysKeptExact | harnessing/5-validate/validate-findings/chain.py:345-354 | Whatever order ties fall in, every entry and asset among the neighbours is kept if and only if nothing is cut, or the neighbours of rank 0 fit, or there is no entry or asset among them. |
| ChainCap.NinthAssetIsCut | harnessing/5-validate/validate-findings/chain.py:345-354 | With room for eight, nine critical assets lose one: a concrete input. |
| ChainCap.KeptUniqueExact | harnessing/5-validate/validate-findings/chain.py:353-354 | The kept set does not depend on set order if and only if no two neighbours of equal rank fall on either side of the cut. |
| ChainCap.CappedUniqueExact | harnessing/5-validate/validate-findings/chain.py:351-354 | Nor do the capped edges of a given graph, if and only if every node's cut is clean. |
| ChainRuns.PoolUnique | harnessing/5-validate/validate-findings/chain.py:334-342 | Gravest first, nothing graver left out and the earliest of each rank in their order: that leaves one pool. |
| ChainRuns.OneSearchedGraphExact | harnessing/5-validate/validate-findings/chain.py:293-354 | Every run on the same findings and threat model searches the same capped edges, whatever order sets iterate in, if and only if the cap is zero, or no finding mentions a name two assets share in lower case and every node's cut is clean. |
| ChainRuns.SearchesAgree | harnessing/5-validate/validate-findings/chain.py:312-418 | Under that condition two runs on the same findings report equally many chains and, below the cap, the same finding sets. |
| SharedNames.SharedNameDecides | harnessing/5-validate/validate-findings/chain.py:293-307 | With assets `Vault` (critical) and `vault` (low) and one finding that mentions "vault", a run reports one chain or none, by which of the two is indexed. |
| SharedNames.EitherVaultIsIndexed | harnessing/5-validate/validate-findings/chain.py:293 | Either may be, and no cut is to blame. |
| ChainSynthesis.Prepare | harnessing/5-validate/validate-findings/chain.py:345-374 | The searched network is the capped graph, with the unauthenticated attacker only when no entry is declared and the fallback targets only when no asset is sensitive. |
| ChainInputs.TargetsExact | harnessing/5-validate/validate-findings/chain.py:356-374 | The targets are exactly the assets whose last declaration is critical or high, when there is one, and otherwise exactly the findings that give cluster administration, host execution or etcd access. |
| ChainInputs.EntriesExact | harnessing/5-validate/validate-findings/chain.py:355-366 | Paths start exactly at the declared entry points, over the capped edges; without any, at an unauthenticated one that holds a network position and leads to exactly the findings that need nothing. |
| ChainSynthesis.FindChains | harnessing/5-validate/validate-findings/chain.py:312-418 | The whole function: pool, graph, cap and network follow from the findings and the threat model, and the result is exact for that network, ranked by finding count, then terminal, with distinct chain numbers. |
| OneFinding.OneChainExact | harnessing/5-validate/validate-findings/chain.py:312-418 | One asset, one entry point that holds nothing and one finding that mentions the asset: with the default limits the one path through them is reported if the asset is critical or high, and nothing otherwise. |
| ChainInputs.RankedExact | harnessing/5-validate/validate-findings/chain.py:385-418 | No two reported chains use the same findings; those of more findings come first, and of equally many by the name of the asset. |
| ChainInputs.FindingIdsInOrder | harnessing/5-validate/validate-findings/chain.py:390 | A chain lists the ids of the findings on its path, in order. |
| ChainSynthesis.ChainCount | harnessing/5-validate/validate-findings/chain.py:376-414 | The number of chains is the smaller of the cap and the number of distinct finding sets of kill chains, whatever order the search iterates in. |
| ChainSynthesis.BelowTheCapNothingIsMissed | harnessing/5-validate/validate-findings/chain.py:380-414 | Below the cap every kill chain's finding set is reported. |
| ChainSynthesis.ExactUnderPermutation | harnessing/5-validate/validate-findings/chain.py:416-418 | The final ranking permutes chains and loses nothing of exactness. |
| ChainSupport.EntrySupportExact | harnessing/5-validate/validate-findings/chain.py:266-274 | Entry edges are supported for every set of findings if and only if no entry point is shadowed by a weaker one of the same name. |
| ChainSupport.DistinctNamesDoNotShadow | harnessing/5-validate/validate-findings/chain.py:266-274 | Distinct entry names suffice. |
| ChainSupport.ShadowedEntryLosesSupport | harnessing/5-validate/validate-findings/chain.py:228-274 | An anonymous entry point and a later undescribed one of its name: the edge to a finding that needs a network position stays, the position is gone. |
| ChainSupport.ReportedChainsSupported | harnessing/5-validate/validate-findings/chain.py:312-418 | End to end: on every chain `find_chains` reports, what each finding requires is covered by the capabilities of the nodes strictly before it, and the capabilities reported are the path's, closed under implication. |
| ChainSupport.PathsSupported | harnessing/5-validate/validate-findings/chain.py:380-409 | The same of any path the search can be on. |
| ChainSupport.NetworkRecordsClosed | harnessing/5-validate/validate-findings/chain.py:209-238 | Every record in the searched network yields a closed set, the made-up attacker's included. |
| ChainSupport.CapsAlongClosed | harnessing/5-validate/validate-findings/chain.py:405-409 | Hence the capability set of every search state and chain is closed, though the search only takes unions. |
| Globs.StarMatchesAll | harnessing/5-validate/validate-findings/scope.py:150-157 | `*` matches every string. |
| Globs.PrefixPattern | harnessing/5-validate/validate-findings/scope.py:32-58 | A trailing star matches exactly the extensions of its literal prefix. |
| Globs.PatternExact | harnessing/5-validate/validate-findings/scope.py:150-157 | A star takes any number of characters, a question mark exactly one, anything else itself. |
| Scope.LockExact | harnessing/5-validate/validate-findings/scope.py:309-334 | The control-plane lock opens exactly when the action does not reach the control plane (by namespace, by having none, or by writing one of its cluster resources), or an explicit targets-file entry covers it, or it is such a write under an ordinary namespace, or it has no namespace and is no such write. |
| ScopeOutcomes.CredentialOutcome | harnessing/5-validate/validate-findings/scope.py:336-398 | From a targets file through any merges, a credential probe is allowed if and only if the engagement is live, no off-limits rule fires, the verb is `introspect` and the resource is a class the file names. |
| ScopeOutcomes.InventoryOutcome | harnessing/5-validate/validate-findings/scope.py:400-420 | Enumeration is if and only if the same holds, the verb is `enumerate`, and the name is listed in the file under the one of the two kinds that is asked for. |
| ScopeOutcomes.NothingWithoutFile | harnessing/5-validate/validate-findings/scope.py:380-420 | Without a targets file merges allow neither. |
| ScopeOutcomes.ContainerOutcome | harnessing/5-validate/validate-findings/scope.py:367-378 | A container step is if and only if no such bar holds, some pattern was given in file or merges, one fits its name if it has one, and an image restriction, if any was given, is met. |
| ScopeOutcomes.WasmOutcome | harnessing/5-validate/validate-findings/scope.py:422-430 | A wasm step is if and only if no such bar holds, some artifact was given, and one matches the artifact named, if any, by pattern or by path. |
| ScopeOutcomes.K8sOutcome | harnessing/5-validate/validate-findings/scope.py:309-365 | A cluster step is if and only if no such bar holds, some entry answers for its context, its verb is not denied there, the namespaces of file and merges grant its own (or "*" does), the file itself unlocks what the lock covers, and an image restriction is met. |
| ScopeOutcomes.UnknownAdapterOutcome | harnessing/5-validate/validate-findings/scope.py:432 | Any other adapter is denied. |
| ScopeOutcomes.PlatformExact | harnessing/5-validate/validate-findings/scope.py:32-55 | The seventeen control-plane patterns come to five names and the prefix `openshift-`. |
| ScopeOutcomes.WritesExact | harnessing/5-validate/validate-findings/scope.py:57-107 | A control-plane write is a verb outside the ten reading ones on one of the twenty-nine cluster-wide kinds. |
| ScopeOutcomes.FiresExact | harnessing/5-validate/validate-findings/scope.py:171-187 | An off-limits rule fires when each field it sets and the action determines matches. |
| ScopeOutcomes.InlineNames | harnessing/5-validate/validate-findings/scope.py:269-272 | An inline merge names the contexts given, a blank one or none but a namespace standing for the current one. |
| Scope.Scope.FromTargetsFile | harnessing/5-validate/validate-findings/scope.py:217-253 | Loading yields the whole state of a parsed targets file, the later of two rules for one context winning. |
| Scope.Scope.Inline | harnessing/5-validate/validate-findings/scope.py:255-278 | An inline merge updates the fields to exactly the merged value. |
| Scope.Scope.Inferred | harnessing/5-validate/validate-findings/scope.py:280-297 | An inferred merge does too, for any iteration order of the contexts. |
| ScopeMerges.JoinedExact | harnessing/5-validate/validate-findings/scope.py:285-296 | An inferred merge appends exactly the elements not already present, each once. |
| ScopeMerges.ExtendedExact | harnessing/5-validate/validate-findings/scope.py:269-272 | An inline merge gives exactly the named contexts exactly the named namespaces on top of theirs, blank entries where there were none, and changes no denied verb, explicit namespace or other context. |
| ScopeMerges.DeniedVerbsExact | harnessing/5-validate/validate-findings/scope.py:255-297 | After any merges a verb is denied for a context exactly when it was and they do not name that context for the first time. |
| ScopeMerges.ExplicitCoverageExact | harnessing/5-validate/validate-findings/scope.py:309-334 | Explicit coverage after any merges is explicit coverage before, minus what got shadowed: merges grant none. |
| ScopeMerges.MergesNeverUnlock | harnessing/5-validate/validate-findings/scope.py:309-365 | Control-plane reach allowed after any merges was covered by an explicit entry before them, or is of a kind the lock overlooks: a cluster-resource write naming an ordinary namespace, or anything else naming none. |
| ScopeMerges.UnlockedExact | harnessing/5-validate/validate-findings/scope.py:313-330 | For each action with control-plane reach, all-namespace actions included, some scope and merges allow it without prior explicit coverage if and only if it is of one of those two kinds. |
| ScopeMerges.NamespacedBindingSlipsThrough | harnessing/5-validate/validate-findings/scope.py:313-330 | Concretely: with one context and namespace named and no targets file, creating a cluster-role binding is allowed with `-n team-a` and denied without. |
| ScopeMerges.AllNamespacesSlipThrough | harnessing/5-validate/validate-findings/scope.py:313-330 | And with one context and "*" named, deleting secrets is allowed across all namespaces and denied in `kube-system` by name. |
| ScopeMerges.UnboundReachExact | harnessing/5-validate/validate-findings/scope.py:309-365 | With no targets file, merges can reach a control-plane action if and only if it is of one of those two kinds. |
| ScopeMerges.ExplicitOnlyAdaptersUnchanged | harnessing/5-validate/validate-findings/scope.py:380-420 | Credential and inventory decisions, with their reasons, are the same after any merges. |
| ScopeMerges.HardDeniesSurvive | harnessing/5-validate/validate-findings/scope.py:337-344 | Expiry and off-limits denials survive any merges unchanged. |
| ScopeMerges.LookupAfter | harnessing/5-validate/validate-findings/scope.py:352 | The entry answering for a context after merges is the old one with namespaces only added, or a blank one that shadows it. |
| ScopeMerges.EntriesAfter | harnessing/5-validate/validate-findings/scope.py:269-287 | After any merges a context has an entry if and only if it had one or was named, holding its namespaces and exactly those the merges name for it. |
| ScopeReach.AllowedStaysExact | harnessing/5-validate/validate-findings/scope.py:336-432 | What was allowed is still allowed after any merges if and only if: a k8s action whose context they shadow needs no explicit coverage and is granted by the namespaces they name for it; and an image, on a scope that restricted none, is met by the images they name, if any. |
| ScopeReach.NamingAnImageRestricts | harnessing/5-validate/validate-findings/scope.py:359-364 | A merge that names one image withdraws an allowed action on another: a concrete scope. |
| ScopeMerges.ShadowingCutsBothWays | harnessing/5-validate/validate-findings/scope.py:352 | Naming a context withdraws an allowed read in one scope and lifts a denied verb in another. |
| Soundness.MatchErrorSignature | harnessing/5-validate/validate-findings/soundness.py:138-144 | The loop returns the first matching signature of the table. |
| Soundness.SignatureReported | harnessing/5-validate/validate-findings/soundness.py:62-144 | No matched error goes unreported, and what is reported was matched. |
| Soundness.UnflaggedIsClean | harnessing/5-validate/validate-findings/soundness.py:147-161 | A probe carries no flag exactly when the target deployed and its transcript is clean. |
| Soundness.CleanExact | harnessing/5-validate/validate-findings/soundness.py:132-161 | A clean transcript shows no error, and if it is an authorization probe, by verb or by marker, no unfilled template and some subject tried. |
| Soundness.FlagExact | harnessing/5-validate/validate-findings/soundness.py:147-178 | A refutation that falls is flagged, in this order, for the missing target, for the earliest error signature of the table, for a template, or for having tried no subject. |
| Soundness.GateExact | harnessing/5-validate/validate-findings/soundness.py:164-178 | `refuted` survives exactly on a clean probe of a deployed target; a flag is raised exactly on a downgrade to `inconclusive`; nothing else changes; the gate is idempotent. |
| Soundness.ControlsFlag | harnessing/5-validate/validate-findings/soundness.py:186-202 | A failed control on any refuting step wins; otherwise a required control must have passed. |
| Soundness.DifferentialFlag | harnessing/5-validate/validate-findings/soundness.py:205-229 | The early-returning loop decides as the order-free reading does: any non-discriminating differential, else a required one missing on an authorization probe. |
| Soundness.FlagValidatedFinding | harnessing/5-validate/validate-findings/soundness.py:232-275 | The retroactive gate with its whole precedence of flags. |
| Soundness.RefutationStands | harnessing/5-validate/validate-findings/soundness.py:232-275 | A refutation stands if and only if no flag was stamped, the target deployed, controls and differentials held up, and some refuted step is clean, or without refuted steps the stated impact is or there is none. |
| Soundness.FirstProbeFlags | harnessing/5-validate/validate-findings/soundness.py:260-275 | One that falls for its probes alone carries the flag of the first refuted step. |
| Steps.StepActions | harnessing/5-validate/validate-findings/execute.py:75-120 | Denied exactly when some analysed command carries an override flag; otherwise the declared action and every derived one, in order. |
| Steps.CommandsAreChecked | harnessing/5-validate/validate-findings/execute.py:93-119 | Every namespace a command names, unless it spans all, has an action among those scope is asked about, with the command's own subcommand and resource where given. |
| Steps.ActionsExact | harnessing/5-validate/validate-findings/execute.py:75-120 | Scope is asked about exactly: the declared action; for each command of a k8s step, one action for each namespace it names, or one without namespace for `-A`, or one in the declared namespace when it names none, under its own subcommand and resource where given. |
| Steps.OverridesExact | harnessing/5-validate/validate-findings/execute.py:88-101 | The step is denied outright exactly when it is a k8s step and some command carries an override flag. |
| Executor.Executor.Process | harnessing/5-validate/validate-findings/execute.py:236-378 | One pass of the loop body extends the trace by exactly what the step's rule prescribes, or stops on an unknown adapter. |
| Executor.Executor.Run | harnessing/5-validate/validate-findings/execute.py:187-380 | The whole run over its self-extending worklist terminates; the trace is the one of the walked steps, and a finished run walked the unrolled list. |
| Executor.RemainingShrinks | harnessing/5-validate/validate-findings/execute.py:262-288 | Each turn leaves fewer placeholders, or as many and fewer steps. |
| ExecutorSafety.DispatchExact | harnessing/5-validate/validate-findings/execute.py:243-353 | A step is dispatched exactly when it was not skipped, each precondition's last recorded result is confirmed, no command overrides the target, scope allows its declared action and everything its commands ask for, and a destructive step is permitted. |
| ExecutorSafety.HandleShape | harnessing/5-validate/validate-findings/execute.py:208-378 | All a step can leave in the trace: nothing; one withheld result, field by field, with the verdict and reason of the first cause that applies; or execute, a rollback exactly if mutating, and the adapter's result, inconclusive with a flag exactly when the gate fails it, with the outcome of the rollback. |
| ExecutorSafety.UnmetInOrder | harnessing/5-validate/validate-findings/execute.py:290-295 | A withheld step names, in order, each precondition whose last result is not confirmed. |
| ExecutorSafety.MaterialisedExact | harnessing/5-validate/validate-findings/execute.py:262-288 | A reached placeholder is followed by one step for each probe suggested, in order, under the class its adapter gives it, and skipped if that is destructive without permission. |
| ExecutorSafety.ReconInOrder | harnessing/5-validate/validate-findings/execute.py:264-271 | The recon parser is shown, in order, the results so far that have an adapter and a verdict and are classed safe. |
| ExecutorSafety.EveryRunIsGuarded | harnessing/5-validate/validate-findings/execute.py:243-378 | In every run each adapter call was authorised by what was recorded before it, each executed mutating step is rolled back before anything else happens even if execute raised, refuted results are clean, and only dispatched steps are confirmed. |
| ExecutorSafety.DestructiveNeedsPermission | harnessing/5-validate/validate-findings/execute.py:337-355 | No run hands a destructive step to an adapter without permission. |
| ExecutorSafety.RefutationsAreSound | harnessing/5-validate/validate-findings/execute.py:208-219 | No run records a refuted step with a flagged transcript, and none at all after an install failure. |
| ExecutorSafety.OneResultPerStep | harnessing/5-validate/validate-findings/execute.py:208-288 | Results are, in order and one to one, the non-placeholder steps walked, each with an audit line that repeats it and says whether its scope check passed. |
| ExecutorSafety.UnrolledInterleaves | harnessing/5-validate/validate-findings/execute.py:262-288 | The final worklist is the plan in its own order with only vetted probes in between, whatever the recon parser proposes. |
| ExecutorSafety.NoSecondPassNoChange | harnessing/5-validate/validate-findings/execute.py:262-288 | With the second pass off the list is the plan. |
| ExecutorSafety.RunsArePrefixes | harnessing/5-validate/validate-findings/execute.py:235-380 | However far a run gets, its trace is the beginning of that of the unrolled plan, so what holds of the latter's events holds in every run. |
| ExecutorSafety.UnrolledSources | harnessing/5-validate/validate-findings/execute.py:262-288 | Every step of the final list was planned or comes from the probe catalogue. |
| ExecutorSafety.DispatchWaits | harnessing/5-validate/validate-findings/execute.py:290-309 | Whenever a step is executed, some step bearing each of its precondition ids was executed earlier and recorded confirmed in between. |
| ExecutorSafety.CycleIsNeverDispatched | harnessing/5-validate/validate-findings/execute.py:290-309 | With distinct ids, no step on a precondition cycle ever reaches an adapter. |
| Report.RollUp | harnessing/5-validate/validate-findings/report.py:115-173 | The interleaved loop over all results leaves each finding with the roll-up of its own results. |
| Report.VerdictExact | harnessing/5-validate/validate-findings/report.py:84-108 | Before the backstop a finding is confirmed if and only if some counted attempt at it was; refuted if and only if none was and some was refuted; then inconclusive, then blocked, in the same way; and not attempted otherwise. |
| ReportEntries.FirstAttemptReported | harnessing/5-validate/validate-findings/report.py:162-171 | Impact and flag are those of the first attempt that reached the verdict. |
| ReportEntries.TechniqueExact | harnessing/5-validate/validate-findings/report.py:172-173 | How a finding was tried is said by its first counted attempt. |
| ReportEntries.RollbackExact | harnessing/5-validate/validate-findings/report.py:142-143 | Its rollback is the last that any of its steps, whatever their verb, performed. |
| ReportEntries.UnattemptedReasonExact | harnessing/5-validate/validate-findings/report.py:156-160 | The skip reason of a finding not attempted is the first one a planner skip gives. |
| ReportEntries.AttemptedReasonExact | harnessing/5-validate/validate-findings/report.py:156-168 | That of any other is the reason scope gave for blocking the first attempt to reach the verdict or, without one, the first a planner skip gives after it. |
| Report.VerdictIgnoresOrder | harnessing/5-validate/validate-findings/report.py:135-164 | Results with the same members, in any order and multiplicity, give the same verdict. |
| SkipReasons.SkipReasonExact | harnessing/5-validate/validate-findings/report.py:145-168 | Every order of the results gives one skip reason if and only if: nothing was attempted and the planner skips give at most one reason; or scope blocked the best attempt, all blocked attempts share one reason, and they state it or no skip does; or the verdict is better and no skip gives a reason. |
| SkipReasons.SettledIgnoresOrder | harnessing/5-validate/validate-findings/report.py:145-168 | Then repeating results does not change it either. |
| SkipReasons.SkipReasonDependsOnOrder | harnessing/5-validate/validate-findings/report.py:163-168 | Two attempts at one finding blocked by scope for different reasons, in both orders: two skip reasons. |
| Report.AttemptsNeverExplain | harnessing/5-validate/validate-findings/report.py:157-168 | The skip reason of a not-attempted finding is always that of one of its planner skips. |
| Report.Backstop | harnessing/5-validate/validate-findings/report.py:179-185 | The final pass rewrites every finding, and only as the finding-level gate says. |
| Report.BackstopExact | harnessing/5-validate/validate-findings/report.py:175-185 | For arbitrary ungated results, a finding ends refuted without a flag exactly when it was so before and at least one of its refuted steps is clean. |
| Report.BackstopIsIdleOnGatedResults | harnessing/5-validate/validate-findings/report.py:175-185 | The two layers agree: on results whose refutations are clean the backstop changes nothing. |
| Report.GlueCanVouch | harnessing/5-validate/validate-findings/report.py:175-185 | The clean step may be a secondary one: two ungated results, an errored refuting attempt and a refuted glue step, leave the refutation standing, and the attempt alone does not. |
| ReportTotals.Tally | harnessing/5-validate/validate-findings/report.py:190-212 | A counter holds exactly the size of each class, for any iteration order. |
| ReportTotals.ClassesSumToAll | harnessing/5-validate/validate-findings/report.py:187-212 | Pairwise different classes that leave nothing out add up to the whole. |
| ReportTotals.VerdictsSumToFindings | harnessing/5-validate/validate-findings/report.py:187-192 | The five verdict counters sum to the number of distinct findings. |
| ReportTotals.ReasonsSumToNotAttempted | harnessing/5-validate/validate-findings/report.py:194-212 | The not-attempted reasons sum to the not-attempted counter. |
| ReportTotals.ClassesExact | harnessing/5-validate/validate-findings/report.py:187-212 | The classes counted are the findings of each verdict, and those not attempted of each category. |
| ReportTotals.CategoryExact | harnessing/5-validate/validate-findings/report.py:194-208 | Exactly which skip reasons fall into each of the seven categories. |
| ReportTotals.RowListsEachStepOnce | harnessing/5-validate/validate-findings/report.py:261-277 | A chain row lists each non-glue step of its findings exactly once, by the first result under its id, and nothing else. |
| ReportTotals.RowVerdictExact | harnessing/5-validate/validate-findings/report.py:278-281 | A row is confirmed exactly when one of its steps is, not attempted exactly when all are, and otherwise carries the verdict of the first that was attempted. |
| ReportTotals.BuildReport | harnessing/5-validate/validate-findings/report.py:110-304 | The assembled document: roll-up, backstop, both counters, the rows of at least two steps, and the first confirmed row. |
| ReportTotals.GateHoldsEndToEnd | harnessing/5-validate/validate-findings/report.py:175-185 | On the results of any run the backstop changes no finding, and a finding reported refuted rests on a clean primary step of a deployed target. |
| Planner.StepIdInjective | harnessing/5-validate/validate-findings/plan.py:1151-1155 | Zero-padded ids of different counters are different, past step 999 too. |
| Planner.FirstAttemptsExact | harnessing/5-validate/validate-findings/plan.py:1173-1264 | The finding-to-step map holds the first attempt at each finding and nothing for a finding never attempted. |
| Planner.StateNumbers | harnessing/5-validate/validate-findings/plan.py:1151-1155 | Ids along a plan are strictly increasing. |
| Planner.StateGrounds | harnessing/5-validate/validate-findings/plan.py:1292-1310 | Every precondition names an earlier attempt at the same finding. |
| PlanContents.SectionExact | harnessing/5-validate/validate-findings/plan.py:1179-1284 | Each finding gets one reasoned skip for a triaged false positive, a surface out of reach or a missing credential, whichever comes first; otherwise one attempt for each PoC that converts, in order; with none one by the fallback; and without that one skip with its reason; all field by field. |
| PlanContents.ReconExact | harnessing/5-validate/validate-findings/plan.py:1157-1170 | Each recon draft becomes a safe step with nothing to wait for. |
| PlanContents.GlueExact | harnessing/5-validate/validate-findings/plan.py:1288-1310 | Each finding of a chain gets, in path order, a safe connector that waits for the first attempt at it, if there is one. |
| PlanContents.AttemptsAreKnown | harnessing/5-validate/validate-findings/plan.py:1240-1264 | A step made for a finding, replayed or adapted, is on record as an attempt at it. |
| PlanContents.PlaceholderExact | harnessing/5-validate/validate-findings/plan.py:1313-1327 | The last step reserves the second pass and says so. |
| PlanContents.ShapesExact | harnessing/5-validate/validate-findings/plan.py:1151-1327 | Steps are those of their sections in everything but their ids. |
| PlanContents.OrderExact | harnessing/5-validate/validate-findings/plan.py:1174-1178 | Graver findings are planned first, and of equally severe ones the more confident. |
| Plan.EveryFindingPlanned | harnessing/5-validate/validate-findings/plan.py:1174-1284 | The section of every finding stands somewhere in the replay part. |
| Plan.FinalisedExact | harnessing/5-validate/validate-findings/plan.py:1329-1356 | Skips, no-ops, placeholders and connectors stay as they are. Any other step gets the graver of planner's and adapter's class, and is to be skipped as destructive without permission whatever else, failing that for the reason it has, and failing that if its declared action is out of scope; nothing else moves. |
| Plan.Finalise | harnessing/5-validate/validate-findings/plan.py:1331-1356 | The in-place pass finalises every step independently. |
| Sorting.SortIsStable | harnessing/5-validate/validate-findings/plan.py:1175-1178 | Sorting keeps the order of elements that rank alike. |
| Plan.BuildPlan | harnessing/5-validate/validate-findings/plan.py:1131-1358 | The whole planner: findings ordered by severity and confidence and otherwise as given, sections in order, every step finalised, ids increasing, preconditions pointing back, chains those of the findings. |
| Plan.NumberedIdsDiffer | harnessing/5-validate/validate-findings/plan.py:1151-1155 | No two steps of a plan share an id, as the executor's bookkeeping needs. |
| Plan.PlansHaveNoCycle | harnessing/5-validate/validate-findings/plan.py:1292-1310 | No plan contains a cycle of preconditions. |
| Plan.PlannedRunsNeedPermission | harnessing/5-validate/validate-findings/plan.py:1329-1356 | Plan then run: a planned step that reaches its adapter was in scope at planning time, was not skipped, and if planner or adapter holds it destructive both the plan and the run had permission. |
| Plan.GlueWaitsForItsFinding | harnessing/5-validate/validate-findings/plan.py:1292-1310 | In any run of a plan whose probes bear ids of their own, a step that waits for its finding is executed only after a planned attempt at that finding was executed and recorded confirmed. |
| Calendar.OrdinalOrder | harnessing/findings-trends/scripts/build_trends.py:127-134 | Day numbers order dates as the calendar does. |
| Calendar.MonthStride | harnessing/findings-trends/scripts/build_trends.py:134 | 28 days on is the same month or the next one, for every Gregorian date. |
| Calendar.IsoYearBrackets | harnessing/findings-trends/scripts/build_trends.py:119-121 | The week-numbering year is the one whose week 1 starts on or before the day and whose successor's starts after it. |
| Calendar.IsoOrder | harnessing/findings-trends/scripts/build_trends.py:119-121 | (ISO year, ISO week) pairs are ordered as the weeks they name, one pair per week (section 4.1.4 of ISO 8601:2004). |
| Calendar.MonthTable | harnessing/findings-trends/scripts/build_trends.py:116-122 | The days of each month, in leap years and others. |
| Calendar.JanuaryFourth | harnessing/findings-trends/scripts/build_trends.py:116-122 | The fourth of January is in week 1 of its own year. |
| Calendar.DecemberTwentyEighth | harnessing/findings-trends/scripts/build_trends.py:116-122 | The twenty-eighth of December is in the last. |
| Calendar.Mondays | harnessing/findings-trends/scripts/build_trends.py:116-122 | A week turns exactly where the day number, counted from a Monday, is one more than a multiple of seven. |
| Calendar.NewYear2024 | harnessing/findings-trends/scripts/build_trends.py:116-122 | 2024-01-01 is such a day, number 738,886. |
| Buckets.KeyIdentifiesBucket | harnessing/findings-trends/scripts/build_trends.py:116-122 | Two dates share a key exactly when they share a month or week. |
| Buckets.KeyOrderIsTimeOrder | harnessing/findings-trends/scripts/build_trends.py:116-122 | For four-digit years, string order of keys is the order of buckets in time. |
| KeyOrder.WeekKeyOrder | harnessing/findings-trends/scripts/build_trends.py:119-121 | So it is for week keys of any two years with equally many digits. |
| KeyOrder.WeekKeysSortedExact | harnessing/findings-trends/scripts/build_trends.py:116-138 | The listed week keys of a range are sorted if and only if the ISO years of its ends have equally many digits. |
| KeyOrder.MonthKeysSorted | harnessing/findings-trends/scripts/build_trends.py:116-138 | The listed month keys are sorted over every range up to the year 9999. |
| KeyOrder.Year1000Misorders | harnessing/findings-trends/scripts/build_trends.py:119-121 | The last week of ISO year 999 and the first of 1000 sort the wrong way round. |
| KeyOrder.KeysSpelled | harnessing/findings-trends/scripts/build_trends.py:116-122 | The four keys of 2024-02-29 and 2024-12-30, by month and by week, the last one `2025-W01`. |
| Buckets.StrideMissesNoBucket | harnessing/findings-trends/scripts/build_trends.py:134 | One step of the enumeration moves on by at most one bucket and never back. |
| Buckets.EnumerateBuckets | harnessing/findings-trends/scripts/build_trends.py:125-138 | Fails exactly on an empty range; otherwise the keys of consecutive buckets from the first to the last. |
| Buckets.KeysAreExact | harnessing/findings-trends/scripts/build_trends.py:125-138 | Those are exactly the keys of all dates in the range, each once and in order. |
| Replay.BuildSeries | harnessing/findings-trends/scripts/build_trends.py:388-503 | The bucket loop with its counters and carried states computes the series of snapshots the theorems are about. |
| TrendStates.LedgerlessState | harnessing/findings-trends/scripts/build_trends.py:342-353 | With no event a finding is a false positive exactly when the audit ruled it false, hardening exactly when it says so, and open otherwise, in every bucket. |
| TrendStates.LedgeredState | harnessing/findings-trends/scripts/build_trends.py:338-353 | With events, the whole table over the validity and resolution that the visible ones are replayed to: ruled false before all, then resolved, then accepted, hardening included, then hardening, then open. |
| TrendStates.VisibleInOrder | harnessing/findings-trends/scripts/build_trends.py:339 | Visible are, in order, exactly the events dated in the bucket or before it. |
| TrendStates.LambdaExact | harnessing/findings-trends/scripts/build_trends.py:356-365 | Hardening weighs what the last visible hardening event with a weight records, and three tenths without one. |
| TrendStates.CloseDateExact | harnessing/findings-trends/scripts/build_trends.py:368-377 | A finding closes on the latest day of its visible resolving events, if there is any. |
| TrendStates.ClosingExact | harnessing/findings-trends/scripts/build_trends.py:460-468 | The time to close is the days from the audit to that day, and none if it came before. |
| TrendStates.FactsExact | harnessing/findings-trends/scripts/build_trends.py:432-451 | What a snapshot takes of a finding are its own figures, from the events of its own ledger. |
| TrendStates.DiscoveredExact | harnessing/findings-trends/scripts/build_trends.py:437-438 | A bucket discovers exactly the findings of repos audited in it. |
| TrendStates.EventsExact | harnessing/findings-trends/scripts/build_trends.py:427-431 | Each event of a bucket is counted once, as a regression too if it is one. |
| TrendStates.RepoExact | harnessing/findings-trends/scripts/build_trends.py:416-426 | A repo is in a snapshot from the bucket of its audit on, and covered from that of its first event, if it has a ledger. |
| TrendStates.CutCountsRepo | harnessing/findings-trends/scripts/build_trends.py:599-606 | A cut counts the repos of its tree audited by then, those without a tree as findings, and as ledgered those with an event. |
| Replay.ComputeOwnershipCuts | harnessing/findings-trends/scripts/build_trends.py:582-622 | The second traversal gives each tree, known or new, the cut of its own repos. |
| TrendHistory.LateEventExact | harnessing/findings-trends/scripts/build_trends.py:335-353 | A later event anywhere in a finding's log keeps its earlier state if and only if the log was not empty or replaying an empty log agrees with having no ledger. |
| TrendHistory.CoveredExact | harnessing/findings-trends/scripts/build_trends.py:421-426 | A repo counts as covered in a bucket exactly when one of its events is visible by then. |
| TrendHistory.LateEventLooksTheSame | harnessing/findings-trends/scripts/build_trends.py:335-377 | A repo that gains an event after bucket k is indistinguishable up to k, given that condition for the finding it is about. |
| TrendHistory.SeriesPrefix | harnessing/findings-trends/scripts/build_trends.py:390-503 | The snapshots of a longer range begin with those of a shorter one from the same start. |
| TrendHistory.HistoryIsStable | harnessing/findings-trends/scripts/build_trends.py:389-503 | Portfolios indistinguishable up to k have equal snapshots up to k: states, severities, risk sums, closing times, coverage, flows. |
| TrendHistory.LateEventChangesNoHistory | harnessing/findings-trends/scripts/build_trends.py:335-503 | A ledger event dated after bucket k, put anywhere in one repo's log, changes no snapshot up to k, given that condition. |
| TrendFlows.TallyMoves | harnessing/findings-trends/scripts/build_trends.py:440-472 | Each finding adds one to the stock of its state and one to its flow exactly if it was elsewhere before. |
| TrendFlows.PrevExact | harnessing/findings-trends/scripts/build_trends.py:389-473 | With distinct finding ids, the carried map holds each finding's state in the last bucket it appeared in. |
| TrendFlows.FlowIsEntering | harnessing/findings-trends/scripts/build_trends.py:456-472 | With distinct finding ids, resolved, accepted and false-positive flows count exactly the findings in that state now and not in the bucket before. |
| TrendFlows.StocksAndFlowsBalance | harnessing/findings-trends/scripts/build_trends.py:389-475 | With distinct finding ids, in every bucket the change of each of those stocks is entries (the flow) minus exits. |
| TrendCollisions.BalanceExact | harnessing/findings-trends/scripts/build_trends.py:389-475 | Of given audits every bucket balances, for all ledgers, disposition rules, bucketings and ordered keys, if and only if no two of their findings share a directory and an id. |
| TrendCollisions.SharedIdRecounts | harnessing/findings-trends/scripts/build_trends.py:433-473 | Two findings with one id, the first resolved and the second open in two successive buckets: the resolved stock stays one, and the second bucket counts an entry again with no exit. |
| TrendCollisions.BranchReportRecounts | harnessing/findings-trends/scripts/build_trends.py:433-473 | Concretely: two reports of one directory that share SEC-001, by month, under a ledger rule that lets the last resolution stand. |
| TrendFlows.LastTalliesReported | harnessing/findings-trends/scripts/build_trends.py:390-503 | There is one snapshot per key, and the figures these balances are about are those of the last one; with TrendHistory.SeriesPrefix, of each. |
| TrendFlows.SnapshotAccountsForAll | harnessing/findings-trends/scripts/build_trends.py:415-473 | The five state counts sum to the findings of repos audited by then; the severity and OWASP tables sum to open, and accepted severities to accepted. |
| TrendTotals.SnapshotFigures | harnessing/findings-trends/scripts/build_trends.py:440-455 | Every severity and OWASP table entry and every risk sum of a snapshot is the total over the findings of repos audited by then of what each weighs in it. |
| TrendTotals.CutTotal | harnessing/findings-trends/scripts/build_trends.py:598-617 | Each figure of a tree's cut is the total over that tree's findings. |
| TrendTotals.CutsSumToLastSnapshot | harnessing/findings-trends/scripts/build_trends.py:582-622 | The separately computed cuts' open, critical, high and risk figures and repo counts sum to the last snapshot's. |
| Trends.BuildTrends | harnessing/findings-trends/scripts/build_trends.py:380-503 | End to end from the earliest audit (or `since`): keys of all dates in range and no others, the series over them, and the cuts of the last key; fails exactly on an empty range. |
| Patterns.KSmallestUnique | harnessing/insecure-patterns/scripts/build_insecure_patterns.py:1160-1165 | There is one multiset of k smallest ranks, so of the examples offered the order does not matter. |
| Patterns.OfferedKeepsSmallest | harnessing/insecure-patterns/scripts/build_insecure_patterns.py:1159-1165 | Offering one more example keeps the buffer holding the 40 smallest ranks seen. |
| Patterns.PatternsAreFaithful | harnessing/insecure-patterns/scripts/build_insecure_patterns.py:1113-1165 | For any findings in any order, each CWE's occurrences are its distinct (repo, path) pairs, its repos and severity words are theirs, and its buffer holds genuine first occurrences, none twice, with the min(n, 40) smallest ranks. |
| Patterns.StatsAreTallied | harnessing/insecure-patterns/scripts/build_insecure_patterns.py:1119-1128 | Total findings are false positives plus configuration drops plus code findings, each counted exactly. |
| Patterns.Collect | harnessing/insecure-patterns/scripts/build_insecure_patterns.py:1083-1165 | The nested loops over reports update the patterns, the occurrence set and the counters to those values. |
| PatternFields.PlacesExact | harnessing/insecure-patterns/scripts/build_insecure_patterns.py:1122-1136 | The places counted are those of true code findings, each under its first CWE or, without any, `CWE-0`. |
| PatternFields.ExampleExact | harnessing/insecure-patterns/scripts/build_insecure_patterns.py:1152-1159 | An example shows where its finding is, ranked by the five severity words in any case, the lowest if there is none, and behind them all if it is another. |
| PatternOrder.RanksOrderExact | harnessing/insecure-patterns/scripts/build_insecure_patterns.py:1134-1159 | All ranks of a CWE are the same for every order of the findings if and only if the findings at each of its places rank alike, for only the first at a place counts. |
| PatternOrder.KeptRanksExact | harnessing/insecure-patterns/scripts/build_insecure_patterns.py:1134-1211 | The k smallest of them are, if and only if for each rank the places with some finding graver than it have only such, or at least k places do; with k the twelve published. |
| PatternOrder.BufferOrderExact | harnessing/insecure-patterns/scripts/build_insecure_patterns.py:1134-1165 | So are the buffer's ranks, with k forty. |
| PatternOrder.FirstFindingDecides | harnessing/insecure-patterns/scripts/build_insecure_patterns.py:1133-1137 | A critical and a low finding at one place, in both orders: rank 0 and rank 3. |
| Patterns.OfferedIsGenuine | harnessing/insecure-patterns/scripts/build_insecure_patterns.py:1160-1165 | Nothing enters the buffer but what was offered, and nothing twice. |
| Patterns.Publish | harnessing/insecure-patterns/scripts/build_insecure_patterns.py:1180-1211 | The published examples are sorted, come from the buffer, and are the 12 smallest ranks of the whole history. |
| PatternFields.ShownExact | harnessing/insecure-patterns/scripts/build_insecure_patterns.py:1160-1211 | Forty examples are held and twelve shown, or as many as there are. |
| PatternFields.ShownOrder | harnessing/insecure-patterns/scripts/build_insecure_patterns.py:1180 | Graver ones first, and those of one rank by repo. |
| Ladder.PathScoreIsContainment | harnessing/recall-benchmark/scripts/match_benchmark.py:82-92 | The path score equals expected-side containment. |
| Ladder.ExtraPathsNeverHurt | harnessing/recall-benchmark/scripts/match_benchmark.py:86-92 | Citing extra paths never lowers a candidate's score. |
| Ladder.MatchTarget | harnessing/recall-benchmark/scripts/match_benchmark.py:128-168 | Each expectation in turn gets the first candidate of the strongest tier that still has an untaken one, and is missed only if none has. |
| Ladder.RowExact | harnessing/recall-benchmark/scripts/match_benchmark.py:139-166 | In terms of the data: a row is of the strongest of the four tiers that some untaken candidate meets, by the first such candidate, and missed if none meets any. |
| Ladder.QualifiesExact | harnessing/recall-benchmark/scripts/match_benchmark.py:140-155 | What the tiers ask: the same fingerprint; a common advisory and a common path; a CWE and half the expected paths; half the paths or a similar title. |
| Ladder.NoCandidateReused | harnessing/recall-benchmark/scripts/match_benchmark.py:139-166 | No candidate id answers two expectations. |
| LadderCuts.GroupsAreGrouped | harnessing/recall-benchmark/scripts/match_benchmark.py:306-317 | Pushing rows into a map by key leaves each row in the group of its key, in order, and no group empty. |
| LadderCuts.GroupRows | harnessing/recall-benchmark/scripts/match_benchmark.py:307-317 | One pass builds the five groupings, and fails exactly when some expected finding lists no CWE. |
| LadderCuts.ScoreTargets | harnessing/recall-benchmark/scripts/match_benchmark.py:298-332 | The score of the rows of all targets: overall counts, near misses, four cuts sorted by name with one entry per name that occurs, and the severity cut over the five known names. |
| LadderCuts.ScoreCutsSum | harnessing/recall-benchmark/scripts/match_benchmark.py:319-332 | The CWE, provenance, language and split cuts each sum to the overall score; the severity cut does if and only if every expected severity is one of the five. |
| LadderFields.CountedExact | harnessing/recall-benchmark/scripts/match_benchmark.py:298-304 | A row counts in its groups, and as detected unless it was missed or left to review. |
| LadderFields.KeysExact | harnessing/recall-benchmark/scripts/match_benchmark.py:312-317 | A row is grouped by its first CWE, its severity, and the provenance, language and split of its target. |
| LadderFields.AllRowsInOrder | harnessing/recall-benchmark/scripts/match_benchmark.py:306 | The rows of all targets are taken once each, in order. |
| LadderCuts.CutSumsExact | harnessing/recall-benchmark/scripts/match_benchmark.py:298-332 | Over any listing of groups without repetition, buckets sum to the whole if and only if every row falls in a listed group. |
| DistinctFolds.CensusFold | harnessing/census/scripts/build_census.py:238-256 | The census loop is the fold of the items it counts. |
| DistinctFolds.SummaryFold | harnessing/executive-summary-findings/scripts/build_executive_summary.py:1243-1263 | The executive summary's loop is a fold of the items it counts. |
| DistinctFolds.InclusionExact | harnessing/executive-summary-findings/scripts/build_executive_summary.py:551-599 | Both count a finding or both drop it exactly when its validation status mirrors its disposition, given whether the census reads a layered artifact and whether that carries a disposition summary. |
| DistinctFolds.ItemExact | harnessing/executive-summary-findings/scripts/build_executive_summary.py:1250-1263 | A finding both count is the same entry to both exactly when it is fingerprinted (or both identities are blank) and no unlayered report closes it. |
| FoldFields.CensusItemsExact | harnessing/census/scripts/build_census.py:238-256 | The census counts a finding if its disposition (on a layered report) or status (on a plain one) does not rule it out, as closed only if a layered report says so. |
| FoldFields.SummaryItemsExact | harnessing/executive-summary-findings/scripts/build_executive_summary.py:551-599 | The summary drops by status where there is a disposition summary and always by disposition or, for want of one, status; it keys by title what has no fingerprint, and any report can close. |
| FoldFields.SeverityOrderExact | harnessing/census/scripts/build_census.py:250-256 | Four severity words are told apart, and everything else ranks below them, alike. |
| DistinctFolds.HeadlinesAgree | harnessing/census/scripts/build_census.py:288-303 | On such reports the two agree on every vulnerability, so on the distinct, open and per-severity counts. |
| DistinctFolds.FoldOrderExact | harnessing/census/scripts/build_census.py:250-256 | Every reordering of the items folds alike if and only if, under each key, some item has a ranked severity or all carry one severity. |
| DistinctFolds.FoldIgnoresOrderAndRepeats | harnessing/census/scripts/build_census.py:250-256 | Then the fold depends only on which items occur, not on how often. |
| DistinctFolds.CensusIgnoresOrderAndRepeats | harnessing/census/scripts/build_census.py:238-256 | Under that condition on its items, permuting or repeating reports leaves the census alone. |
| DistinctFolds.SummaryIgnoresOrderAndRepeats | harnessing/executive-summary-findings/scripts/build_executive_summary.py:1243-1263 | And the executive summary. |
| DistinctFolds.VocabularyReportsAreFixed | harnessing/executive-summary-findings/scripts/build_executive_summary.py:1239-1263 | Reports whose severities are vocabulary words, or missing, meet it in both. |
| DistinctFolds.UnrankedSeverityDependsOnOrder | harnessing/census/scripts/build_census.py:252-254 | An unknown word and `informational` under one key, in both orders: two folds. |
| Liveness.MergeStatusSince | harnessing/census/scripts/check_repo_liveness.py:90-97 | The in-place loop dates every entry, for any iteration order. |
| Liveness.RunSweeps | harnessing/census/scripts/check_repo_liveness.py:100-126 | Sweep after sweep, each merging into what the last one wrote. |
| Liveness.RunStart | harnessing/census/scripts/check_repo_liveness.py:90-126 | After any sequence of sweeps, a listed repo's date is that of a sweep starting the unbroken run, up to now, of its current status. |
| Liveness.StatusSinceExact | harnessing/census/scripts/check_repo_liveness.py:90-126 | A repo is listed exactly when the last sweep found it, with that sweep's status, since the date of the first sweep of that run. |

## Left out

- Text classification: capability and error-signature regexes, surface detection, argv analysis, the PoC-to-command builders and advisory-id extraction are inputs.
- `fnmatch` character classes (`[...]`): patterns are literals, `*` and `?`.
- Adapters, the recon parser, `derive_disposition`, fingerprints, title similarity and CVSS/OWASP scoring are arbitrary functions or given values.
- MITRE references, narratives, scope-reason wording, evidence files, artifacts, hashes, `by_technique`, and all HTML, Markdown, JSON and YAML in and out.
- Executor.Executor.Run: the probe catalogue is taken to hold no placeholder and to name known adapters; the `credential` and `inventory` adapters pass scope but have no executor, which is modelled as the run stopping there, as the lookup raises outside the handler.
- Scope.Scope.Inline: cluster entries are values in a map, so two names for one entry object cannot arise; the loader never makes them.
- ChainGraph.BuildGraph: the assets that a finding's linked threats target come with its texts, not looked up by threat id; lower case is that of ASCII letters.
- ChainSynthesis.FindChains: negative caps on findings and out-degree, which Python slices from the end, are not modelled.
- Planner.Planner.AddReplay: the drafts a finding's PoCs convert to are given; the `needs_review` tag is not carried.
- Buckets.EnumerateBuckets: only canonical `YYYY-MM-DD` dates, and no overflow past the year 9999.
- Replay.BuildSeries: events without a date, the accepted-risk register, coverage cohorts, final component views, rounding, means and percentages; sums are exact reals.
- Plan.GlueWaitsForItsFinding: that the probe catalogue numbers its steps apart from the plan's is an assumption about novel.py.
- DistinctFolds.HeadlinesAgree: one ownership tree at HEAD only; branch confirmations, hardening tallies, cloud and container blocks are not modelled.
- Patterns.Collect: report selection by path, the CWE tables, titles, co-occurring CWEs and function names.
- LadderCuts.ScoreTargets: choosing and loading the reports to score, injection canaries, rerun stability and the recall ratio of a bucket.
- Liveness.RunSweeps: reading and writing the artifact; an unreadable previous artifact counts as none in the source.
- `release.py`, `inventory.py`, credential liveness, attack coverage and the other scripts hold no property harder than these.
