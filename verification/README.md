# Verified models of the Venice capacity broker

Dafny models of the parts of the broker whose correctness is not visible in any one function:
searches over object graphs, caches that must agree with what they cache, protocols between
threads and between browser events, and the decision stack that can stop a trade. Each module
models one component. Components that update state are classes whose methods are proved against
a transition function or relation; the theorems are about every run of those transitions.

`dafny verify dfyconfig.toml` checks the whole project.

| module | component |
|---|---|
| `FieldSearch` | nested field search over shared and cyclic Python objects |
| `EnvTemplate` | the `${NAME:default}` scanner, with rendering as its inverse |
| `EnvBootstrap` | filling the environment from the defaults and the dotenv files |
| `LazyProxy` | the double-checked lazy initialiser, any number of threads |
| `TenantStore` | the SQL tenant store with its cache, and subkey lookup |
| `StakeMaster` | the staking cycle: auto-stake budget, claim gates, dry run |
| `QuorumVoting`, `QuorumModels` | the weighted vote, its five models, the coordinator |
| `ReflexGuardian` | the anomaly detector with its two streak counters |
| `DecisionStack` | guardian, models and quorum together |
| `CapacityPricing` | utilisation-driven pricing over a run of cycles |
| `ResponseCache` | the price response cache, with payloads as values |
| `DeepCopy`, `PayloadIsolation` | deep copies of shared object graphs, and the cache over mutable payloads |
| `EngineSelector` | database engine selection with two caches and fallbacks |
| `PricePoller`, `QuoteRequests` | the browser's price poller and overlapping quote requests |
| `Common` | optional values, `min` and `max`, `str.strip()`, `str.lower()` |

Environment variables are constants of a run unless a model says otherwise, clocks are inputs,
and floating-point numbers are reals. Calls into other services are oracles: their answers are
inputs of the step that makes the call.

## Findings

Where the code does less than its documentation suggests, the model follows the code and the
exact condition is proved.

- The risk model's docstring says it vetoes. A reflex halt is one vote: it is outvoted exactly
  when every other signal of the context speaks for the decision and together they weigh at least
  22/9 (`HaltIsOutvotedIff`, `HaltAloneCanBeOutvoted`). A halt over the stake is a real veto (`StakeHaltAlwaysBlocks`).
- The value gate, a minimum value and a buffer over the gas cost, is skipped once an interval is
  set, a claim is on record and the interval has passed (`ValueGateEnforcedIff`,
  `LowValueIsClaimedAfterInterval`, `UnbufferedGasIsClaimedAfterInterval`).
- A deleted tenant can be listed again, as revoked: right after the delete exactly when no other
  tenant is cached (`DeletedStaysListedIff`).
- A stake that went through is reported as failed in one family of cycles (`Agent.AutoStake`,
  predicate `ReportMisses`, witness `LostStakeReport`).
- Production gets a fallback engine exactly when an earlier non-production call on Replit left a
  sticky one behind (`ProductionForbiddenIffSticky`, `StickyComesFromReplit`, witness
  `ReplitFallbackReachesProduction`).
- Warm-up retries can pile up: a call that waited for the treasury address goes on without
  clearing a retry scheduled meanwhile (`OneWaitCanDoubleRetries`, `OvertakingDoublesRetries`).
  When no call of a run has to wait they never do (`OneRetryIffNoneWaits`).
- A fuller broker can get the smaller price change: exactly when, at an edge of the discount or
  surge zone that a utilisation between 0 and 1 can reach, the plain step is larger than the
  smallest proportional change next to it, or than the maximum discount (`DeltaIsMonotoneIff`).
- `extract_field` searches a dict's values from last to first, so its "first" value is the first
  in that order (`AcyclicSearchIsRecursive`).

## Model

| member | source | states |
|---|---|---|
| FieldSearch.ExtractField | apps/broker_api/config.py:43-101 | the explicit-stack loop terminates on every finite object graph; it returns "" exactly when no reachable dict holds a usable value under a candidate key, otherwise a value that a reachable dict holds; and it equals the recursive depth-first search that carries the visited set |
| FieldSearch.SearchIsSoundAndComplete | apps/broker_api/config.py:64-101 | with cycles and sharing, the search finds something if and only if a path of containers leads to a dict with a usable candidate, and what it finds is such a value |
| FieldSearch.AcyclicSearchIsRecursive | apps/broker_api/config.py:70-99 | on every payload from which no cycle can be reached, shared parts included, the visited set changes nothing: the result is that of the plain recursive search of its unrolling, own keys first, then the values from right to left |
| FieldSearch.UnrollsIffAcyclic | apps/broker_api/config.py:70-75 | a payload has a finite unrolling if and only if no container reachable from it lies on a cycle |
| FieldSearch.UsableShowsItsText | apps/broker_api/config.py:83-88 | the text of a usable value is a number as printed, or the one non-empty part of a string left when the white space at both ends is cut off |
| FieldSearch.DirectHitIsFirst | apps/broker_api/config.py:79-88 | within one dict the hit is the first candidate, in candidate order, whose value is a non-blank string or a number |
| FieldSearch.CheckKeys | apps/broker_api/config.py:79-88 | the early-returning key loop computes the hit of one dict |
| FieldSearch.EmptyKeysArePassedOver | apps/broker_api/config.py:59-62 | the candidates keep their order, and an empty one changes nothing wherever it stands |
| FieldSearch.UnrollingIsUnique | apps/broker_api/config.py:70-75 | an acyclic payload unrolls to one tree only, so re-searching a visited container could find nothing new |
| EnvTemplate.ExtractEnvDefaults | libs/env.py:120-163 | the index-advancing loop terminates on every text and returns the dict filled by the scanner's assignments in order |
| EnvTemplate.RoundTrip | libs/env.py:120-163 | rendering names and defaults as `${name:default}` between texts free of `${` and extracting gives back the map in which the last default of a name wins |
| EnvTemplate.RenderThenExtract | libs/env.py:125-162 | the same with untrimmed names, blank defaults, balanced nested braces and bare references: extraction yields exactly what is declared, in order |
| EnvTemplate.ExtractThenRender | libs/env.py:124-163 | conversely every text is the rendering of a list of placeholders plus a tail where the scanner gives up, and the result is what those placeholders declare |
| EnvTemplate.DefaultCloses | libs/env.py:143-156 | brace counting ends a balanced default at the brace written after it, not earlier |
| EnvTemplate.BalancedIffCounts | libs/env.py:140-156 | braces are balanced exactly when as many close as open, and never more up to any place |
| EnvTemplate.DeclaredIsTrimmed | libs/env.py:145-163 | what a placeholder declares is its name and its default with the white space at both ends cut off, and nothing when the default is blank |
| EnvTemplate.ReadDefault | libs/env.py:143-156 | the nested-brace loop finds the closing brace or reports that there is none |
| EnvTemplate.StoreIsLastWins | libs/env.py:159-161 | the resulting dict holds, for each name, exactly the last assignment made to it |
| EnvBootstrap.ApplyEnvMap | libs/env.py:214-224 | every name that is not locked gets its value, every other variable stays, and the counts are of names set and names held back |
| EnvBootstrap.ApplySources | libs/env.py:276-283 | applying sources in order gives each variable its final value |
| EnvBootstrap.Bootstrap | libs/env.py:255-283 | a variable whose value has a character that is not white space keeps it; any other takes the value of the last of the defaults and the dotenv files, in this order, that names it, or stays as it was |
| EnvBootstrap.Precedence | libs/env.py:255-283 | the same for the values after any list of sources |
| EnvBootstrap.LockedMeansHasValue | libs/env.py:256 | the locked names are those whose value has a character that is not white space |
| EnvBootstrap.RenderedDefaultsArrive | libs/env.py:166-171 | a defaults file written as placeholders reaches the environment: each unlocked name gets its last default unless a dotenv file names it |
| LazyProxy.OneObjectForEveryCaller | apps/broker_api/app.py:221-231 | under every interleaving, with factory failures, the factory succeeds at most once, the stored value never changes, and all callers return that one object, never the missing marker |
| LazyProxy.FastPathRefinesAlwaysLock | apps/broker_api/app.py:221-226 | every run of the double-checked proxy maps, step by step, to a run of a proxy whose calls are indivisible and serialised by the lock |
| LazyProxy.ReturnsAreServed | apps/broker_api/app.py:221-226 | what a caller holds at the end of a run, or that it was told of a failure, is what the serialised proxy gave it |
| LazyProxy.SomeoneCanMove | apps/broker_api/app.py:223-226 | no deadlock: while a thread is inside `_get`, some thread can step, also after a failed build |
| LazyProxy.StepKeepsInv | apps/broker_api/app.py:215-226 | each atomic step keeps mutual exclusion and the tie between lock, value and what was built |
| LazyProxy.Proxy.CheckWithoutLock | apps/broker_api/app.py:222 | a caller skips the lock exactly when the one object ever built is already stored; the invariant is kept |
| LazyProxy.Proxy.CheckUnderLock | apps/broker_api/app.py:223-224 | the factory is called exactly when nothing was ever built |
| LazyProxy.Proxy.FactoryReturns | apps/broker_api/app.py:225 | the factory returns or raises, and before it no object had been built |
| LazyProxy.Proxy.StoreValue | apps/broker_api/app.py:225 | `_value` is assigned at most once, to the one object built |
| LazyProxy.Proxy.LeaveLock | apps/broker_api/app.py:223-226 | the lock is released on success and on failure; the invariant is kept |
| LazyProxy.Proxy.ReturnValue | apps/broker_api/app.py:226 | the second, unlocked read returns the one object built, never the missing marker |
| TenantStore.CacheIsInvisible | apps/broker_api/tenant_store_sql.py:94-188 | after any history of operations `get` answers as an uncached read does, and `all` lists only current tenants and every tenant that is not revoked |
| TenantStore.HistoryKeepsAgreement | apps/broker_api/tenant_store_sql.py:43-188 | after any history every cached tenant equals its row with its newest key, and a stored tenant missing from the cache is revoked |
| TenantStore.UpsertThenGet | apps/broker_api/tenant_store_sql.py:94-127 | a tenant written is the tenant read back, but for the expiry text and for a missing owner, which keeps the recorded one |
| TenantStore.DeleteThenGet | apps/broker_api/tenant_store_sql.py:169-180 | a deleted tenant reads back as before but revoked, its keys untouched; deleting an unknown one does nothing |
| TenantStore.KeylessTenant | apps/broker_api/tenant_store_sql.py:43-80 | a tenant without keys reads back without subkey, quota or expiry |
| TenantStore.WriteIsLocal | apps/broker_api/tenant_store_sql.py:94-180 | writing or deleting one tenant changes what is read for no other |
| TenantStore.DeletedStaysListedIff | apps/broker_api/tenant_store_sql.py:169-188 | right after a delete the tenant is still listed, as revoked, if and only if no other tenant was cached |
| TenantStore.OnlyNewestKeysResolve | apps/broker_api/auth.py:153-168 | after any history a token resolves only to a tenant whose newest key it is, and a newest key of a tenant that is not revoked resolves |
| TenantStore.UpsertSwitchesSubkey | apps/broker_api/auth.py:153-168 | after an upsert installs a subkey, that subkey resolves, and the replaced one resolves if and only if it is another tenant's newest key |
| TenantStore.SQLTenantStore.RefreshCache | apps/broker_api/tenant_store_sql.py:43-80 | the cache becomes the projection of every tenant row with its newest key |
| TenantStore.SQLTenantStore.UpsertTenant | apps/broker_api/tenant_store_sql.py:94-127 | insert or update the row, append a key row, refresh; agreement is kept |
| TenantStore.SQLTenantStore.GetTenant | apps/broker_api/tenant_store_sql.py:129-167 | returns the uncached answer, filling the cache |
| TenantStore.SQLTenantStore.DeleteTenant | apps/broker_api/tenant_store_sql.py:169-180 | marks the row revoked and drops the cached tenant; agreement is kept |
| TenantStore.SQLTenantStore.AllTenants | apps/broker_api/tenant_store_sql.py:182-188 | answers from the cache, refreshing it only when empty, and never omits a tenant that is not revoked |
| TenantStore.TenantBySubkey | apps/broker_api/auth.py:153-168 | the search returns a listed tenant with that subkey, or none when there is none, in whatever order it walks |
| StakeMaster.RunAll | agents/stake_master/agent.py:62-929 | over any run of a fresh agent at most `max_attempts` cycles enter auto-stake, none after a stake went through; only live cycles of a progressive agent with nothing staked, a minimum and the balance for it, and no pending nonce stake, and the first that wants to enter does; dry-run cycles neither stake nor claim; claims are at least the minimum interval apart; every claim step is judged by the claim executed last, or the stored time before any, claims exactly when due, and every claim has positive rewards strictly above the gas fee in the compared unit |
| StakeMaster.Agent.RunOnce | agents/stake_master/agent.py:62-873 | one cycle keeps those invariants; it stakes only when live and able to; it claims in live mode, or reports `would_claim` in a dry run, exactly when the gates say so |
| StakeMaster.Agent.AutoStake | agents/stake_master/agent.py:122-449 | who enters the branch, how many stakes are sent, what is reported, which rewards are read and the attempt count, for every answer of the oracles; entering always uses up budget, a stake all of it; a dry run changes nothing |
| StakeMaster.LiveGate | agents/stake_master/agent.py:472-587 | live mode reaches `claim()` exactly when `ShouldClaim` holds |
| StakeMaster.DryGate | agents/stake_master/agent.py:681-793 | the dry run's own copy of the gates reports `would_claim` under exactly the same condition |
| StakeMaster.CheckValue | agents/stake_master/agent.py:493-532 | the value gate compares the reward with the larger of the minimum value and the buffered gas cost in USD, else with the buffered cost in ETH, else with the minimum alone, else not at all |
| StakeMaster.ClaimsArePaidFor | agents/stake_master/agent.py:552-587 | whenever the gates let a claim through, rewards are positive and strictly above the fee wherever the two are comparable |
| StakeMaster.ClaimInNumbers | agents/stake_master/agent.py:484-587 | the whole claim decision in numbers, for prices that are not negative and fees in wei: rewards, an estimate, the interval or else the buffered cost and the minimum or the unit minimum, and rewards above the fee |
| StakeMaster.AmountsInNumbers | agents/stake_master/agent.py:1105-1188 | the amounts that decision compares: units over units per token, wei over 10^18, each times its price |
| StakeMaster.ValueGateEnforcedIff | agents/stake_master/agent.py:552-562 | for all settings, with prices that are not negative and fees given in wei, every claim clears the value gate if and only if the interval is off or has not passed, or no claim is on record, or there is neither a minimum nor a buffer above the cost; in all but the last case whatever the oracles answer |
| StakeMaster.LowValueIsClaimedAfterInterval | agents/stake_master/agent.py:552-562 | once the interval has passed, with an estimate in wei and no ETH price, a reward worth half the minimum is claimed |
| StakeMaster.UnbufferedGasIsClaimedAfterInterval | agents/stake_master/agent.py:552-562 | once the interval has passed, a reward above the gas cost but below the buffered cost is claimed |
| StakeMaster.LostStakeReport | agents/stake_master/agent.py:329-335 | a cycle that stakes, cannot read the status afterwards, and so reports a failure |
| StakeMaster.Agent.ClaimStep | agents/stake_master/agent.py:466-613 | reads the last claim time, claims exactly when due, and records the time; spacing is kept and a claim is paid for |
| StakeMaster.Agent.LastClaimTs | agents/stake_master/agent.py:1072-1086 | the cached claim time wins over the stored one, which is then cached |
| QuorumVoting.Quorum.DecideWithDetails | agents/quorum/core.py:46-109 | the decision is that the approving share of clamped, weighted votes reaches the threshold, and the details list every vote, both sums, the ratio and the greatest confidence |
| QuorumVoting.SameVoteInThreeForms | agents/quorum/core.py:114-132 | a bare bool, a vote and a dict that spell the same vote count the same; `approve` comes before `vote`, and an empty dict rejects |
| QuorumVoting.RatioInUnitInterval | agents/quorum/core.py:83 | with non-negative weights the ratio lies between 0 and 1 |
| QuorumVoting.ApprovesIffShare | agents/quorum/core.py:83-84 | when anything was cast, approval is approved weight at least threshold times total weight |
| QuorumVoting.OrderDoesNotMatter | agents/quorum/core.py:51-84 | permuting the votes changes neither ratio nor decision |
| QuorumVoting.OnlyRelativeWeightsMatter | agents/quorum/core.py:51-84 | multiplying all weights by a positive factor changes neither ratio nor decision |
| QuorumVoting.MoreSupportNeverBlocks | agents/quorum/core.py:51-84 | any combination of rejections turned to approvals, surer approvals and less sure rejections never lowers the ratio and never turns approval into a block |
| QuorumModels.ConfidenceBounds | agents/quorum/models.py:89-291 | for every context and every setting of the limits, each model's approvals and rejections stay within stated confidence bounds |
| QuorumModels.ApprovesIffFavoured | agents/quorum/models.py:89-291 | the exact condition on the context under which each of the five models approves |
| QuorumModels.ApprovalsAreThisSure | agents/quorum/models.py:89-291 | the confidence of each model's approval in closed form, for every context, with the default confidences |
| QuorumModels.GravestCauseDecides | agents/quorum/models.py:89-213 | a yield or risk rejection has the confidence of the gravest of its causes |
| QuorumModels.OtherRejectionsInNumbers | agents/quorum/models.py:143-291 | the confidences of the other rejections in closed form |
| QuorumModels.DemandIsSurerAtTheEnds | agents/quorum/models.py:227-250 | a higher utilisation keeps an approval and makes it no less sure; a lower one does the same for a slack rejection |
| QuorumModels.ArbIsSurerWithPremium | agents/quorum/models.py:143-165 | a wider premium keeps an approval and makes it no less sure |
| QuorumModels.Coordinator.Update | agents/quorum/coordinator.py:52-55 | every model receives the context |
| QuorumModels.Coordinator.DecideWithDetails | agents/quorum/coordinator.py:60-61 | a model without a context stops the vote; otherwise the decision is the quorum's over the models' votes |
| ReflexGuardian.Guardian.Evaluate | agents/reflex/guardian.py:67-179 | the verdict lists exactly the reasons and warnings that hold and halts on any reason; both counters move as stated, and a skipped call moves neither |
| ReflexGuardian.VerdictInNumbers | agents/reflex/guardian.py:67-148 | the market halts and the warnings in terms of the observation; a drawdown halt means a price below (1 - limit) times the last one, and a skipped call says nothing |
| ReflexGuardian.StakeInWords | agents/reflex/guardian.py:111-135 | a stake error is any status but a missing, `ok` or `unknown` one, whatever the case of letters; which stakes are explicitly inactive |
| ReflexGuardian.CountersAreTrailingRuns | agents/reflex/guardian.py:83-146 | after any history the inactivity counter is the trailing run of explicitly inactive, not skipped observations, and the error streak is the trailing run of positive reports among the known ones |
| ReflexGuardian.StreakHaltsAtThreshold | agents/reflex/guardian.py:134-144 | the two streak halts appear if and only if that many of the latest relevant observations were bad |
| ReflexGuardian.StakeHaltShowsInStake | agents/reflex/guardian.py:111-135 | a stake halt implies that the stake just observed is in error or explicitly inactive |
| DecisionStack.HaltIsOutvotedIff | agents/quorum/core.py:46-84 | with default weights and threshold, with or without the treasury model, a halted decision approves if and only if the context favours it for every other model and the closed-form weights of those approvals sum to at least 22/9 |
| DecisionStack.HaltPlusOneRejectionBlocks | agents/quorum/models.py:184-188 | a reflex halt plus any other rejecting member blocks, for every context |
| DecisionStack.HaltAloneCanBeOutvoted | agents/quorum/coordinator.py:85-115 | a context in which a halt is outvoted |
| DecisionStack.StakeHaltAlwaysBlocks | graph/workflows/orchestrator.py:2126-2135 | after any history of evaluations, a halt over the stake makes the quorum block when it is asked with that halt and that stake, whatever the other signals |
| DecisionStack.BadStakeIsRejected | agents/quorum/models.py:89-110 | a stake the guardian finds in error or explicitly inactive is one the yield model rejects |
| DecisionStack.EvaluateThenDecide | graph/workflows/orchestrator.py:2296-2313 | evaluate, update and decide on the objects: a stake halt is never approved |
| CapacityPricing.PriceStaysInBand | agents/capacity_broker/agent.py:288-372 | after n cycles from base price b with step s, whatever the utilisations, the price lies in [(b/2)(1-s/10000)^n, b(1+2s/10000)^n] |
| CapacityPricing.DeltaIsMonotoneIff | agents/capacity_broker/agent.py:291-362 | for all settings, wherever the zones lie: over utilisations between 0 and 1, a higher one never gets a lower price change if and only if, at each reachable edge between a plain step and a proportional change, the step is no larger than the smallest such change and, below the target, than the maximum discount |
| CapacityPricing.NarrowStepsAreMonotone | agents/capacity_broker/agent.py:291-362 | in particular a step no wider than the dead band and the maximum discount is enough, wherever the zones lie |
| CapacityPricing.DefaultsAreMonotone | agents/capacity_broker/agent.py:276-283 | the default settings are monotone; with a tighter surge zone, or with discounts switched off, they are not, unless the discount zone is out of reach |
| CapacityPricing.DeltaBounds | agents/capacity_broker/agent.py:291-362 | outside the discount zone a cycle moves by at most one step down and two up, and a discount never raises |
| CapacityPricing.Broker.DeriveInventoryPolicy | agents/capacity_broker/agent.py:273-372 | the mode by the two thresholds, the change, and the proposed price: the current one times (10000 + change) / 10000, in a discount at least half the base price |
| CapacityPricing.PriceFollowsDelta | agents/capacity_broker/agent.py:309-362 | outside the discount zone a positive change raises the price, a negative one lowers it, none leaves it |
| CapacityPricing.SurgeStep | agents/capacity_broker/agent.py:302-309 | the change of a surge: the distance from the target in whole basis points up to two steps, one step inside the dead band, none below the target |
| CapacityPricing.DiscountStep | agents/capacity_broker/agent.py:328-339 | the change of a discount, likewise down to the maximum discount |
| CapacityPricing.NormalStep | agents/capacity_broker/agent.py:353-362 | nothing inside the dead band, a whole step outside it |
| CapacityPricing.Broker.ApplyUtilization | agents/capacity_broker/agent.py:213-237 | the proposed price in numbers becomes the last one; a change is recorded when it differs by more than 10^-6; the history is the latest ten changes |
| ResponseCache.HitIsLatestSet | apps/broker_api/cache.py:92-158 | over any trace, a hit is the payload most recently set for the key up to the three freshness fields, no older than the time to live, from the expected provider |
| ResponseCache.YoungEntrySurvives | apps/broker_api/cache.py:148-158 | an entry followed by fewer than `capacity` sets, and by no get after its time to live or for another provider, is still stored, so a get within its time to live that expects no other provider is a hit |
| ResponseCache.TraceFromHistory | apps/broker_api/cache.py:92-158 | over any trace every entry is the latest set of its key and a positive capacity is never exceeded |
| ResponseCache.StoredThenHit | apps/broker_api/cache.py:120-147 | storing and handing out changes only `cacheHit`, `cacheAgeMs` and `refreshedAt`, which get the stated values |
| ResponseCache.StoredIsMarkedFresh | apps/broker_api/cache.py:142-147 | what is stored is the payload but for the freshness fields, marked as no hit and with the time of the set |
| ResponseCache.PriceCache.SetEntry | apps/broker_api/cache.py:129-158 | a set evicts one oldest entry when full and only then, and stores the stamped payload with its time and provider |
| ResponseCache.PriceCache.GetEntry | apps/broker_api/cache.py:92-126 | a get answers exactly when the entry's age is within the time to live and its provider is the expected one, and else drops it |
| ResponseCache.PriceCache.OldestKey | apps/broker_api/cache.py:152-154 | the evicted key is one with the least timestamp |
| PayloadIsolation.ClientsCannotChangeTheCache | apps/broker_api/cache.py:92-158 | over any interleaving of cache calls, given the clients' own objects, and client writes to any object they can reach, the stored objects spell out exactly what the value cache holds after the same calls |
| PayloadIsolation.HitSpellsLatestSet | apps/broker_api/cache.py:92-158 | after any such run a hit hands out new objects that spell, but for the freshness fields, what the object last passed to `set` for that key spelled at that time, within the time to live and from the expected provider |
| PayloadIsolation.StoreKeepsIsolation | apps/broker_api/cache.py:129-158 | a `set` keeps a stamped copy of the client's object out of its reach, and is a step of the value cache |
| PayloadIsolation.FetchKeepsIsolation | apps/broker_api/cache.py:92-126 | a `get` hands out objects of its own that spell the value cache's answer, hits exactly when that answers, and is a step of it |
| DeepCopy.DeepCopySpellsTheSame | apps/broker_api/cache.py:142 | a deep copy of an object graph spells the same value, in new objects that refer only to each other, and leaves everything else as it was |
| DeepCopy.DeepCopyIsIsomorphic | apps/broker_api/cache.py:142 | on every finite graph, cycles included, the copy ends and is a one-to-one image of what was copied, sharing repeated |
| DeepCopy.KeepCopySpells | apps/broker_api/cache.py:142-147 | copying and then writing the metadata in place spells the payload as the value cache stores it, in new objects only |
| DeepCopy.HandCopySpells | apps/broker_api/cache.py:120-126 | the same for what a hit hands out |
| EngineSelector.Session.GetEngine | db/session.py:372-553 | one call: refusal, caches, factory failures and fallbacks, with the new state of the three globals |
| EngineSelector.ProductionForbiddenIffSticky | db/session.py:376-437 | after any history of environments, production gets a SQLite, placeholder or fallback engine if and only if a sticky fallback was left behind |
| EngineSelector.StickyComesFromReplit | db/session.py:516-552 | a sticky fallback is there if and only if some earlier non-production call on Replit fell back after a failed connection |
| EngineSelector.ReplitFallbackReachesProduction | db/session.py:376-378 | a call outside production on Replit that falls back, after which a production call with the same database is given the SQLite engine |
| EngineSelector.AlwaysProductionIsSafe | db/session.py:409-437 | a process always in production never gets a SQLite or placeholder engine |
| EngineSelector.RunKeepsInv | db/session.py:493-552 | after any history the cached engine is the one built for the cached key |
| EngineSelector.EngineIsReused | db/session.py:493-501 | a working engine is built once and returned again |
| EngineSelector.SqliteNeedsPermission | db/session.py:386-432 | a configured SQLite database is served if and only if it is asked for, in a test, or on Replit without a database URL, and never in production |
| EngineSelector.UnreachableServer | db/session.py:503-552 | when a server cannot be reached, SQLite stands in if and only if that is permitted and it opens; on Replit it stays |
| EngineSelector.ReachableServer | db/session.py:497-501 | a reachable server gets an engine with the timeout, which becomes the cached one |
| EngineSelector.PlaceholderOrNoSqlmodel | db/session.py:409-455 | a placeholder URL is refused in production and answered with SQLite elsewhere; without sqlmodel no server is contacted |
| EngineSelector.TimeoutKeepsKind | db/session.py:124-130 | appending the connect timeout never changes whether a URL names SQLite |
| EngineSelector.TimeoutIsAppended | db/session.py:124-130 | the timeout goes behind a `?`, or behind a `&` when the URL has a query, and only where none is set |
| EngineSelector.TimeoutIsAddedOnce | db/session.py:124-130 | appending it twice is appending it once |
| PricePoller.PollingNeverDoublesNorStops | apps/control-plane/buy.js:674-739 | over all interleavings at most one timer is live, none while hidden, and a shown page that started polling has a live timer or a pending fetch |
| PricePoller.OverlapsDrainToOneTimer | apps/control-plane/buy.js:687-694 | however many fetches overlap, once they settle on a shown page exactly one timer is live |
| PricePoller.StepKeepsInv | apps/control-plane/buy.js:674-739 | every event keeps the invariant |
| PricePoller.Page.StopPricePolling | apps/control-plane/buy.js:674-679 | afterwards no timer is live |
| PricePoller.Page.ScheduleNextPricePoll | apps/control-plane/buy.js:681-685 | afterwards exactly one timer is live on a shown page, none on a hidden one |
| PricePoller.Page.RunPricePoll | apps/control-plane/buy.js:687-694 | a fired timer starts one fetch on a shown page and none on a hidden one; the invariant is kept |
| PricePoller.Page.StartPricePolling | apps/control-plane/buy.js:696-709 | starting stops the old timer; a shown page fetches at once or sets one new timer, as asked; the invariant is kept |
| PricePoller.Page.HandleVisibilityChange | apps/control-plane/buy.js:721-739 | showing restarts with a fetch, hiding leaves no live timer; the invariant is kept |
| QuoteRequests.AppliedIdsIncrease | apps/control-plane/buy.js:1310-1446 | over every overlap of requests, retries, late and failed responses, and loads that bring or take away the treasury address, a quote that a request fetched is applied only under the active id and applied ids strictly increase |
| QuoteRequests.UnovertakenQuoteIsApplied | apps/control-plane/buy.js:1310-1435 | from any reachable state with the treasury known, a valid request whose ok response and well-formed body arrive with no newer request launched before has its quote applied, as the last one and the only one meanwhile |
| QuoteRequests.OneRetryUnlessOvertaken | apps/control-plane/buy.js:1204-1207 | unless a call that waited for the treasury takes its id while a retry is scheduled, at most one retry is scheduled, for the active request, and then no call of that request is in flight |
| QuoteRequests.OvertakingDoublesRetries | apps/control-plane/buy.js:1246-1260 | in any state reached without such overtaking, the end of a wait followed by a warm-up failure leaves two retries if and only if it overtakes one |
| QuoteRequests.OneRetryIffNoneWaits | apps/control-plane/buy.js:1246-1260 | over all runs in which at most so many calls wait for the treasury, retries never pile up if and only if that number is zero |
| QuoteRequests.OneWaitCanDoubleRetries | apps/control-plane/buy.js:1246-1260 | a run with one waiting call in which two retries are scheduled at once |
| QuoteRequests.StepKeepsInv | apps/control-plane/buy.js:1310-1521 | every event keeps ids unique, at most the active one, and not yet applied |
| QuoteRequests.Page.RequestQuote | apps/control-plane/buy.js:1201-1316 | clears the scheduled retry, then waits for the treasury or takes an id above all earlier ones; the invariant is kept |
| QuoteRequests.Page.OnWaitEnds | apps/control-plane/buy.js:1249-1316 | ends when the load raised or no address is known, else takes an id without clearing a retry; the invariant is kept |
| QuoteRequests.Page.ApplyEnvPayload | apps/control-plane/buy.js:1996-1997 | a load sets or clears the treasury address and nothing else; the invariant is kept |
| QuoteRequests.Page.OnResponse | apps/control-plane/buy.js:1354-1402 | a stale response ends the call; the invariant is kept |
| QuoteRequests.Page.OnBody | apps/control-plane/buy.js:1407-1440 | a stale body is dropped; a well-formed body of the active request is applied, and is newer than every quote applied before |
| QuoteRequests.Page.OnError | apps/control-plane/buy.js:1441-1522 | a stale error is silent; a warm-up error schedules a retry |
| QuoteRequests.Page.OnTimer | apps/control-plane/buy.js:1512-1521 | a retry runs only if its request is still active; the invariant is kept |

## Left out

- Concurrent use of the tenant store: a `get` that fills the cache can race a `delete`; the claims are for methods that run one at a time.
- Expiry text: parsing and printing are opaque functions of the tenant store.
- A first staking status reading that raises, which ends the cycle before anything happens.
- Database errors, a failing lazy import of the SQL library, and equal key creation times.
- Exceptions while iterating the candidate keys of the field search, and dict keys that are not strings.
- StakeMaster idle staking, compounding, heartbeats, recommendations, event and log records, and the increment rounding of a stake: they do not affect the budget or the claims.
- StakeMaster: a claim whose bookkeeping raises after `claim()` returned, which would leave the claim time unrecorded.
- The overflow back-off of a stake is an oracle with three outcomes.
- Reason texts of votes and halts, and the extraction of the last price and provider errors from a cycle record.
- Non-numeric context fields of the quorum models, which raise or are replaced before the vote.
- The suggested price, the failsafe record and the persistence of the inventory policy.
- Rounding of `cacheAgeMs`, insertion order among equally old cache entries, and the second, identical cache for combined responses.
- Cyclic payloads, which spell out no JSON value; metadata that is neither a dict nor empty.
- Objects other than dicts and lists in a deep copy, and dict keys that are not strings.
- Table creation, engine attempts log, schema and pool settings of the database engine, which travel as one opaque value.
- Form contents, display, wallet calls and the single-flight logic of price fetches in the browser; delays of timers. Loads of the server's settings may end in any order, so some runs of the quote model need aborted or overlapping loads.
- Start-up of the page, which applies a quote kept from an earlier session without any request and so without an id (apps/control-plane/buy.js:2769): the claims about ids are about quotes that requests fetch.
- A visibility change in the browser and the dispatch of its event are one step.
- The market data provider factory, which tests a snapshot taken before its lock and so may build twice, has no claim.
- Reading dotenv files, the choice of which sources are enabled, and the variables that test contexts set by default.
