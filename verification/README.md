# AgentGate verification

A Dafny model of AgentGate, a gateway between coding agents and model providers, together with the
local proxy that runs beside the agent. It covers the parts where several functions, several
processes or a whole run have to work together:

- **Routing** (`Shuffling`, `Routing`, `ChainOrder`, `Selector`): weight expansion, the seeded Fisher-Yates
  shuffle in place, deduplication, constraint filtering, replay of a recorded choice.
- **Policy** (`Config`, `Decisions`, `Engine`): what a configuration snapshot is checked for, the
  merge of decisions, rules in priority order and the ties an unstable sort leaves open.
- **Streaming** (`SseFrames`, `Scanner`, `Relay`, `StreamAccounting`, `Transparency`, `WireSse`): frame and
  line readers over arbitrary chunkings, the usage fold, the injected gateway frames and the
  proxy's relay, then all of it composed for one request.
- **Money** (`Cost`, `Budget`, `Settlement`): rounding of prices, reservations with cached
  counters against the SQL sums, and requests interleaved with the background settler.
- **Requests** (`Transformer`, `Degradation`): wire to internal form and back, and the agreement
  between what ingress detects and what egress strips.
- **Protocols** (`HotReload`, `Invites`): the debounced reload loop and the invite transactions as
  state machines over their individual steps.

`dafny verify dfyconfig.toml` checks everything.

Objects whose methods change fields are classes (`RouteSelector`, `PolicyEngine`, `FrameReader`,
`LineReader`, `Service`, `RequestBuffer`, `MemoryStore`, `SseWriter`, `SseReader`, `ChaCha8`); each
method is proved against a function of the old state, and the lemmas are about those functions.
Shuffle and compaction work on arrays, as in the source.

Bytes are modelled as `char`, `float64` prices as `real`. The hash, the random generator, JSON
decoding and printing, CEL compilation and matching, the clock, the order an unstable sort
returns, the chunks in which a stream arrives and the order in which a map is visited are
parameters or nondeterministic steps; the theorems hold for all of them. `Digest` and `Generator`
only assume the digest's length and the generator's range.

## Findings

Properties that the code does not have. Each has its exact condition, and where one is named, a
lemma at a concrete input:

- The policy cookbook (`docs/architecture/policy-cookbook.md:284`) and the design
  (`docs/architecture/SYSTEM-DESIGN.md:848`) say the highest priority wins. The code merges in descending priority
  and lets the last non-empty pool win, so the lowest-priority matching route rule decides
  (`Engine.LastIsBottom`; at an input, `Engine.OverrideIsOverridden`), and any matching route rule
  overrides an allow rule above it (`Engine.AllowIsOverridden`). `Engine.HighestWinsIff` says exactly
  when the cookbook's rule about pools holds, `Engine.HighestDecidesIff` when the design's rule about
  action and pool does. Among rules tied at the lowest priority the pool depends
  on the sort (`Engine.PoolOrderFreeIff`).
- Replay skips the constraint filter, so it gives the recorded chain only when nothing that could
  be chosen was filtered out (`Selector.ReplayFaithfulIff`, `Selector.ReplayAlwaysFaithfulIff`;
  `Selector.Unfaithful` builds the draws on which it fails).
- A validated snapshot still fails allow decisions when no pool named `standard` is declared
  (`Selector.ValidatedSnapshotServes`, `Selector.NoStandardPool`). Non-positive weights, which only
  unvalidated pools have, give an empty chain without an error (`Selector.BuiltContents`).
- The relay is transparent only for streams that end on a frame boundary and contain no gateway
  frame; otherwise the injected frame merges with the unterminated rest
  (`Transparency.TransparentIff`, `Transparency.InterruptedIff`; `Transparency.UsageLeaks`,
  `Transparency.ErrorLeaks`).
- The proxy's frame reader discards complete frames that arrive in the same read as an error
  (`SseFrames.FramesKeptIff`, `SseFrames.FailingReadDropsFrames`).
- The scanner of the buffered path stops at a frame that does not fit its 64 KiB buffer
  (`Scanner.ScanIff`, `Scanner.LongFrameStopsScanner`).
- Releasing a committed reservation subtracts the estimate although the counter holds the actual
  cost, so the cached counter drifts (`Budget.AgreementIff`, `Budget.DriftShows`); the pipeline
  never does it (`Settlement.CounterIsSql`).
- A negative token count is charged and makes a counter negative
  (`StreamAccounting.ChargeNonNegativeIff` per stream, `Settlement.CounterNonNegativeIff`, `Settlement.StreamsKeepCountersNonNegativeIff`;
  `Settlement.NegativeChargeShows`, `StreamAccounting.NegativeCharged`).
- Stopping the reloader can strand a notification (`HotReload.StrandedIff`,
  `HotReload.StopStrandsPending`), and two overlapping reloads can leave the older files installed
  (`HotReload.NeverGoesBackIff`, `HotReload.OlderReadCanWin`).
- `StripAnthropicFeatures` is documented to remove cache marks and thinking from all content blocks.
  It clears marks on top-level blocks only and leaves thinking blocks in place
  (`Degradation.StrippedCleanIff`; `Degradation.NestedMarkSurvives`,
  `Degradation.ThinkingBlockSurvives`). A null `cache_control` is
  detected and never stripped (`Degradation.StrippedWasDetected`, `Degradation.NullMarkDetected`).
- Thinking of any type other than `enabled` is forwarded as enabled
  (`Transformer.DisabledThinkingIsEnabled`). Blocks and requests lose every JSON member the structs
  have no field for, such as an image's source, and blocks also fields of other types
  (`Transformer.ForwardedUnchangedIff`, `Transformer.RequestForwardedUnchangedIff`;
  `Transformer.ImageSourceIsLost`, `Transformer.StrayFieldIsLost`).
- An SSE event reads back only if its fields have no newline, no final carriage return and fit the
  scanner's line limit, and it has data or a name (`WireSse.RoundTripIff`,
  `WireSse.NewlineLosesData`).
- A redemption whose key hash is already in the key table still commits and leaves the old key
  (`Invites.ReusedHashKeepsOldKey`, `Invites.ReusedHashShows`). A missed redemption reports a
  redeemable invite as consumed when the invite appeared after the update
  (`Invites.DiagnosisIsPreciseIff`, `Invites.LateInviteMisdiagnosed`).

## Model

| member | source | states |
|---|---|---|
| `Shuffling.ShuffledIsPermutation` | internal/gw/routing/selector.go:163-166 | for every list and every choice vector, the shuffle returns a permutation |
| `Shuffling.DistinctChoicesDistinctOrders` | internal/gw/routing/selector.go:163-166 | on a list without repetitions different choice vectors give different orders |
| `Shuffling.ChoiceCount` | internal/gw/routing/selector.go:163-166 | the shuffle of n entries has exactly n! choice vectors |
| `Shuffling.PositionCount` | internal/gw/routing/selector.go:163-166 | the shuffle is exactly fair: for every position and property, the choices that put such an element there number (elements with the property) times (n-1)! |
| `Routing.CollectCandidates` | internal/gw/routing/selector.go:114-133 | the candidates are the registered pool members, in pool order |
| `Selector.CandidateOrigin` | internal/gw/routing/selector.go:114-133 | a member is a candidate iff it has endpoint id, model and weight of a pool member whose endpoint is registered, and wire, vendor, URL, trust tier, residency, streaming and privacy of that endpoint |
| `Selector.CandidateWeight` | internal/gw/routing/selector.go:114-133 | the candidates carry, per endpoint, exactly the positive weights the pool's configuration gives to registered endpoints |
| `Selector.SatisfiesIff` | internal/gw/routing/selector.go:181-247 | a candidate passes the filter iff its endpoint's tier is one the decision trusts, its residency is listed, and each required capability is the endpoint's streaming flag or the flag of that name in the pricing row of its vendor and model |
| `Routing.Compact` | internal/gw/routing/selector.go:137-143 | in-place compaction leaves the surviving prefix equal to the filter of the original array |
| `Routing.FilterMember` | internal/gw/routing/selector.go:137-143 | a candidate survives iff it was there and meets the constraints |
| `Routing.FilterAll` | internal/gw/routing/selector.go:137-143 | the filter changes nothing iff every candidate meets the constraints |
| `Routing.ExpandByWeight` | internal/gw/routing/selector.go:155-160 | the nested loops build the weight expansion, empty for non-positive weights |
| `Routing.CountExpand` | internal/gw/routing/selector.go:155-160 | an endpoint occurs in the expansion exactly as often as its positive weights add up to |
| `Routing.ExpandMember` | internal/gw/routing/selector.go:155-160 | a member occurs in the expansion iff it is a candidate with positive weight |
| `Routing.DedupByEndpoint` | internal/gw/routing/selector.go:169-178 | the loop with its seen set computes first-occurrence deduplication |
| `Routing.DedupContents` | internal/gw/routing/selector.go:169-178 | deduplication keeps each endpoint once, loses none, invents none and keeps the head |
| `Routing.SeedBytes` | internal/gw/routing/selector.go:36-40 | the stored seed is 16 bytes long and a prefix of the digest of trace id, pool and attempt |
| `Routing.ExpandSeed` | internal/gw/routing/selector.go:45-53 | filling by self-copying repeats any non-empty stored seed to 32 bytes; 16 stored bytes appear twice |
| `Routing.ChaCha8.IntN` | internal/gw/routing/selector.go:27-32 | a non-positive bound gives 0 and consumes nothing, otherwise the next draw lies below the bound |
| `Routing.SeededShuffle` | internal/gw/routing/selector.go:163-166 | the in-place loop, drawing as it goes, equals the pure shuffle with the choices this seed makes |
| `Routing.WeightedChain` | internal/gw/routing/selector.go:155-178 | expand, shuffle and deduplicate as selection and replay both run them |
| `Routing.ChainedContents` | internal/gw/routing/selector.go:155-178 | for every seed and generator the chain holds exactly the endpoints of positively weighted candidates, each once; it is empty iff there is none |
| `Routing.WeightedFairness` | internal/gw/routing/selector.go:155-178 | of the W! possible draws exactly weight(e)*(W-1)! put endpoint e first in the chain |
| `ChainOrder.ChainDistribution` | internal/gw/routing/selector.go:155-178 | the distribution of the whole chain: of the W! draws exactly W! times the product, over the positions, of the endpoint's weight over the weight not yet placed give an order of the choosable endpoints, and none any other order |
| `ChainOrder.OrderCount` | internal/gw/routing/selector.go:163-178 | the same count for any list of names and any order of its first occurrences |
| `ChainOrder.Mix` | internal/gw/routing/selector.go:163-166 | averaging the odds over the entry drawn last gives the odds again |
| `Selector.RouteSelector.constructor` | internal/gw/routing/selector.go:78-85 | the selector starts with the given pools, pricing and registry |
| `Selector.RouteSelector.SetPools` | internal/gw/routing/selector.go:96-101 | replaces pools and registry together and nothing else |
| `Selector.RouteSelector.SetPricing` | internal/gw/routing/selector.go:90-92 | replaces the pricing and nothing else |
| `Selector.RouteSelector.BuildChain` | internal/gw/routing/selector.go:106-179 | returns the specified outcome, including missing pool, no candidate, and the panic on a missing decision |
| `Selector.Replay` | internal/gw/routing/execute.go:22-80 | rebuilds the chain from the stored seed, registry and pools without the filter, with its error cases |
| `Selector.ChainOffers` | internal/gw/routing/selector.go:210-247 | every member of a chain has each required capability: streaming by its own flag, tools, cache_control, extended_thinking and vision by the flag of that name in the pricing row of its vendor and model |
| `Selector.ReplayedContents` | internal/gw/routing/execute.go:22-80 | for every recorded pool and seed: which error a replay reports, and otherwise a chain of exactly the registered, positively weighted endpoints, each once, with their attributes |
| `Selector.BuiltContents` | internal/gw/routing/selector.go:106-208 | for every pool: a chain is returned iff some member is eligible, else the error its cause names; it names each endpoint at most once, covers exactly the eligible positively weighted endpoints, and every member in it is an eligible pool member with its endpoint's attributes, field by field |
| `Selector.ValidatedPool` | internal/gw/config/pools.go:27-54 | in a validated pool a chain is non-empty, covers all eligible endpoints, and is missing iff nothing is eligible |
| `Selector.FaithfulWhen` | internal/gw/routing/execute.go:18-21 | when no member that can be chosen was dropped and one was kept, replay returns what was built, for every generator |
| `Selector.ReplayFaithfulIff` | internal/gw/routing/execute.go:28-29 | for every seed, generator and weights, with one member per endpoint, replay equals the original iff nothing that can be chosen was dropped (or both fail alike) |
| `Selector.ReplayAlwaysFaithfulIff` | internal/gw/routing/execute.go:22-80 | for every pool, validated or not: replay agrees whatever the generator draws iff no member that can be chosen was dropped and one was kept (or both fail alike) |
| `Selector.Unfaithful` | internal/gw/routing/execute.go:28-29 | if a positively weighted member was dropped, some draws make replay differ |
| `Selector.ChoiceThatLeads` | internal/gw/routing/selector.go:163-166 | every entry of the expanded list can be drawn first |
| `Selector.DecisionNamesPool` | internal/gw/config/policy.go:142-175 | under a valid snapshot, whatever matches, a decision routes iff it names a pool, and the pool is declared |
| `Selector.ValidatedSnapshotServes` | internal/gw/server/ingress_pipeline.go:123-134 | under a valid snapshot an unconstrained request gets a non-empty chain iff its decision routes or the default pool is declared, from the last matching rule's pool or, with no match, from the on_no_match pool; the only other outcome is a missing pool on an allow decision |
| `Selector.NoStandardPool` | internal/gw/server/ingress_pipeline.go:123-129 | a valid snapshot whose default allow finds no pool |
| `Config.MissingPools` | internal/gw/config/policy.go:142-175 | the cross-file check collects exactly the referenced pools that are not declared |
| `Config.ValidatePricing` | internal/gw/config/pricing.go:29-70 | accepts iff the table is non-empty, every row is valid and no vendor:model key repeats |
| `Config.Lookup` | internal/gw/config/pricing.go:73-80 | finds a row of that vendor and model iff there is one |
| `Config.LookupUnique` | internal/gw/config/pricing.go:73-80 | in an accepted table every row is the one its own vendor and model look up |
| `Decisions.AppendUnique` | internal/gw/policy/decision.go:120-160 | the append-unique loop computes the ordered union |
| `Decisions.UnionElements` | internal/gw/policy/decision.go:120-160 | the union holds exactly the elements of both sides |
| `Decisions.UnionAssociative` | internal/gw/policy/decision.go:120-160 | ordered union is associative, also on slices with repetitions |
| `Decisions.MergeDecisions` | internal/gw/policy/decision.go:68-118 | the field-by-field merge computes the specified decision |
| `Decisions.MergeAssociative` | internal/gw/policy/decision.go:68-118 | merge is a monoid: nil is the identity and grouping does not matter |
| `Decisions.StrongestWins` | internal/gw/policy/decision.go:68-118 | deny overrides, over any number of decisions: the merge blocks iff one blocks, else requires approval iff one does, else routes, else allows |
| `Decisions.ListsUnite` | internal/gw/policy/decision.go:68-118 | each list of the merge of any decisions holds exactly what that list of some decision holds |
| `Decisions.LastTextWins` | internal/gw/policy/decision.go:68-118 | pool, shadow pool and trust tier of the merge are those of the last decision that sets them |
| `Engine.PolicyEngine.SetPolicy` | internal/gw/policy/engine.go:22-53 | swaps rules and default together iff every guard compiles, else changes nothing |
| `Engine.PolicyEngine.Decide` | internal/gw/policy/engine.go:104-191 | with a matching rule: the action, the last pool set and the reasons of the matching rules; with none: the configured default action with its own pool and reasons; nothing else is asked for |
| `Engine.DecidedAnswers` | internal/gw/policy/engine.go:146-191 | the same for every list of rules and every default action |
| `Engine.FoldedContents` | internal/gw/policy/engine.go:104-180 | a fold exists iff a rule matches, routes iff a route rule matches, and takes the pool of the last rule that sets one |
| `Engine.FoldedReasons` | internal/gw/policy/engine.go:104-180 | reasons are the matching rules' reasons in order of first mention, none lost or added |
| `Engine.ActionAndReasonsOrderFree` | internal/gw/policy/engine.go:44-46 | action and set of reasons do not depend on how the sort orders ties |
| `Engine.LastIsBottom` | internal/gw/policy/engine.go:44-46 | in sorted order the deciding rule has the lowest priority among the matching rules that set a pool |
| `Engine.ExchangeTie` | internal/gw/policy/engine.go:44-46 | exchanging two rules of equal priority is another order the sort may return |
| `Engine.PoolOrderFreeIff` | internal/gw/policy/engine.go:44-46 | the pool is the same in every sorted order iff all matching rules of the lowest pool-setting priority name one pool |
| `Engine.HighestWinsIff` | docs/architecture/policy-cookbook.md:284 | the highest-priority matching pool wins in every sorted order iff all matching rules of the lowest pool-setting priority name that pool too |
| `Engine.HighestDecidesIff` | docs/architecture/SYSTEM-DESIGN.md:847-848 | the highest-priority matching rule gives action and pool in every sorted order iff all matching rules of the lowest pool-setting priority name its pool, or it allows and no matching rule routes |
| `Engine.AllowIsOverridden` | internal/gw/policy/engine.go:104-153 | a matching allow rule at 600 above a matching route rule at 500: the request is routed |
| `Engine.OverrideIsOverridden` | internal/gw/policy/engine.go:104-153 | of two matching route rules at 550 and 500 the one at 500 decides the pool |
| `SseFrames.Delim` | internal/lp/server/anthropic.go:463-468 | finds the leftmost delimiter, or none when there is none |
| `SseFrames.SplitAppend` | internal/lp/server/anthropic.go:461-490 | splitting is incremental: what follows depends only on the rest |
| `SseFrames.Reassemble` | internal/lp/server/anthropic.go:461-490 | frames with their delimiters and the rest give back the stream |
| `SseFrames.JoinSplit` | internal/lp/server/anthropic.go:461-490 | writing closed frames and splitting again gives the same frames |
| `SseFrames.FrameReader.constructor` | internal/lp/server/anthropic.go:454-459 | a new reader will yield exactly the frames of the bytes that arrive |
| `SseFrames.FrameReader.NextFrame` | internal/lp/server/anthropic.go:461-490 | under every chunking each call returns the leftmost frame still to come; end and error come only when nothing is left |
| `SseFrames.FailingReadDropsFrames` | internal/lp/server/anthropic.go:478-488 | the same delivered bytes yield a frame or none, depending on whether the error comes with them |
| `SseFrames.FramesKeptIff` | internal/lp/server/anthropic.go:461-490 | for every stream the reader hands out all delivered frames iff no failing read completes one |
| `Scanner.ScanIff` | internal/lp/server/anthropic.go:386-404 | for every stream and chunking the buffered scanner reaches the end iff every frame fits 64 KiB with its delimiter and the rest leaves room; then it yields the frame reader's frames, otherwise a prefix |
| `Scanner.LongFrameStopsScanner` | internal/lp/server/anthropic.go:386-404 | one frame of 65536 characters: the scanner hands out nothing, the frame reader the frame |
| `Relay.BuildErrorFrame` | internal/lp/server/anthropic.go:408-448 | the client's error frame carries the last payload that decodes |
| `Relay.MessageHolds` | internal/lp/server/anthropic.go:427-437 | the text shown to the client holds the gateway's message and trace id and is never empty |
| `Relay.ErrorEndsRelay` | internal/lp/server/anthropic.go:246-298 | any frame that begins like a gateway error is shown translated and ends the relay |
| `Relay.RelayStream` | internal/lp/server/anthropic.go:246-298 | client bytes and ledger records are the specified functions of the frames, whatever the chunking; a client that closes after k writes has exactly the first k, and the ledger exactly the records of the frames before the one then due |
| `Relay.ErrorFrameClosed` | internal/lp/server/anthropic.go:408-448 | a translated error is one well-delimited frame and never a gateway frame |
| `Relay.ClientFramesClean` | internal/lp/server/anthropic.go:246-298 | no frame handed to the client is a gateway frame, and closed frames stay closed |
| `StreamAccounting.LineReader.ReadLine` | internal/gw/server/stream_accounting.go:185-192 | under every chunking returns the first line of all unread bytes, and the final error only with the unterminated rest |
| `StreamAccounting.ForwardFrames` | internal/gw/server/stream_accounting.go:185-222 | forwards every byte unchanged, or the lines taken before a write failed, folds usage over exactly those lines, and returns how it ended |
| `StreamAccounting.EventInForce` | internal/gw/server/stream_accounting.go:185-222 | the event in force is the last event line's name, unless a blank line came after it |
| `StreamAccounting.ObservedIff` | internal/gw/server/stream_accounting.go:185-222 | exactly the data lines are looked at for usage, each under the event in force before it |
| `StreamAccounting.HasUsageIff` | internal/gw/server/stream_accounting.go:225-305 | usage was seen iff some data line carried it, on exactly the four wires anthropic, anthropic_compat, openai and openai_compat; otherwise all counts are zero |
| `StreamAccounting.LastStatedWins` | internal/gw/server/stream_accounting.go:237-305 | the last line stating a count decides it, for output and input separately |
| `StreamAccounting.LastCacheWins` | internal/gw/server/stream_accounting.go:237-282 | the last start event that states a cache count decides it, for reads and creations |
| `StreamAccounting.NoCacheCount` | internal/gw/server/stream_accounting.go:237-282 | without such an event the cache count is zero |
| `StreamAccounting.ChargeNonNegativeIff` | internal/gw/cost/cost.go:52-80 | per stream: no accepted table charges it a negative amount iff none of its folded counts is negative |
| `StreamAccounting.ChargesNonNegativeIff` | internal/gw/server/stream_accounting.go:225-305 | for every wire and decoder: no stream of bytes is charged a negative amount iff no data line decodes to a negative count |
| `StreamAccounting.NegativeCharged` | internal/gw/server/stream_accounting.go:237-305 | a one-event stream whose count is negative is charged a negative amount under an accepted table |
| `StreamAccounting.RunStream` | internal/gw/server/stream_accounting.go:89-160 | for every stream and every moment the client may close: bytes sent, at most one injected frame, usage, charge and error class; it settles a commit, of what the usage on all lines costs, iff every line was taken and the stream did not fail, else a release |
| `Transparency.RelayAppend` | internal/lp/server/anthropic.go:246-298 | relaying a concatenation is relaying its parts, up to the first gateway error |
| `Transparency.Sanitised` | internal/lp/server/anthropic.go:246-306 | for every byte stream, re-parsing what the relay wrote never yields a gateway frame |
| `Transparency.UsagePayload` | internal/lp/server/anthropic.go:333-356 | the record taken from an injected usage frame is the payload the gateway printed, if it decodes |
| `Transparency.ErrorPayload` | internal/lp/server/anthropic.go:408-448 | the client's error is printed from a text that holds the message and the trace id decoded from the gateway's payload |
| `Transparency.FramesWithAppended` | internal/gw/server/egress_pipeline.go:190-225 | an injected frame is glued to whatever the provider left unterminated |
| `Transparency.TransparentIff` | internal/lp/server/anthropic.go:246-298 | the client gets exactly the provider's bytes and the ledger exactly the usage record iff the stream ends on a frame boundary, holds no gateway frame, and the record decodes |
| `Transparency.InterruptedIff` | internal/gw/server/egress_pipeline.go:214-225 | after an interruption the client gets the bytes so far and one translated error, and the ledger nothing, iff the bytes so far end on a frame boundary and hold no gateway frame |
| `Transparency.UsageLeaks` | internal/gw/server/egress_pipeline.go:190-211 | a stream cut inside a line: the usage frame reaches the client and not the ledger |
| `Transparency.ErrorLeaks` | internal/gw/server/egress_pipeline.go:214-225 | an interruption inside a line shows the client the raw gateway error |
| `Transparency.StreamedRequest` | internal/gw/server/stream_accounting.go:89-160 | provider, gateway, any network (also one that fails), proxy and client composed, either side closing at any write: usage, what is committed or released, and sanitisation always, and transparency both ways when everything is delivered |
| `WireSse.SseWriter.WriteEvent` | internal/shared/wire/sse.go:30-45 | appends the printed event |
| `WireSse.SseReader.ReadEvent` | internal/shared/wire/sse.go:71-98 | the line loop returns the next event, end of input or scan error |
| `WireSse.ReadPrinted` | internal/shared/wire/sse.go:71-98 | what reading a printed event followed by anything gives, including the id left over from an unreported event |
| `WireSse.ReadAtMost` | internal/shared/wire/sse.go:71-98 | events without newlines never read back as more events than were written |
| `WireSse.RoundTripIff` | internal/shared/wire/sse.go:30-98 | for every list of events, reading back what was written gives the list iff every event fits |
| `WireSse.NewlineLosesData` | internal/shared/wire/sse.go:30-98 | an event with a newline in its data reads back cut |
| `WireSse.UnterminatedDataIff` | internal/shared/wire/sse.go:71-98 | a final data line without newline is read iff it fits the scanner's buffer, else the scan fails |
| `Cost.CostMonotone` | internal/gw/cost/cost.go:52-80 | more tokens of any kind never cost less, in total or in a bucket |
| `Cost.BucketBound` | internal/gw/cost/cost.go:52-80 | the buckets, each truncated, add up to at most the total and at most three cents less |
| `Cost.BucketBoundAnySign` | internal/gw/cost/cost.go:52-80 | with any signs they differ by at most four cents |
| `Cost.ChargedBound` | internal/gw/cost/cost.go:52-80 | over any batch the charge never exceeds the exact cost and falls short by less than one cent per request |
| `Cost.ChargeNonNegative` | internal/gw/cost/cost.go:52-96 | with an accepted table and non-negative counts no part of a charge is negative |
| `Cost.OneKindOneBucket` | internal/gw/cost/cost.go:52-80 | tokens of one kind alone are charged at that kind's price, in that kind's bucket and no other |
| `Cost.CacheFallback` | internal/gw/cost/cost.go:61-96 | without a cache price cache tokens cost what as many more input tokens would, and exactly then the charge is marked estimated |
| `Cost.CacheCapableIsPriced` | internal/gw/config/pricing.go:49-57 | under an accepted table a model that supports cache_control is never charged an estimate |
| `Cost.AcceptedTableCharges` | internal/gw/config/pricing.go:29-70 | under an accepted table every charge has a three-letter currency, and an empty vendor or model is priced at nothing |
| `Budget.StepConserves` | internal/gw/budget/service.go:68-191 | every operation keeps counter = SQL sum + drift for every team |
| `Budget.UsedIsSqlPlusDrift` | internal/gw/budget/service.go:68-191 | after every run the counter is the SQL sum plus the drift of rows released after commit |
| `Budget.DriftStep` | internal/gw/budget/service.go:121-138 | an operation changes a team's drift by actual minus estimate of a committed row it releases, and otherwise not at all |
| `Budget.AgreementStepIff` | internal/gw/budget/service.go:121-138 | an operation keeps counter and SQL sum equal iff it does not release a committed row whose actual cost differs from its estimate |
| `Budget.AgreementIff` | internal/gw/budget/pg_service.go:133-141 | over every run the counters equal the SQL sums throughout iff no operation is such a release |
| `Budget.DriftShows` | internal/gw/budget/service.go:121-138 | reserve 100, commit 60, release: counter -40, SQL sum 0 |
| `Budget.ServicesAgree` | internal/gw/budget/pg_service.go:52-191 | in-memory and SQL service keep the same rows, operation by operation, and report the same success iff the operation is not a release of an unknown id |
| `Budget.Service.SetTeamCap` | internal/gw/budget/service.go:56-60 | sets one team's cap |
| `Budget.Service.Reserve` | internal/gw/budget/service.go:68-94 | records the reservation, never refuses, and alerts iff the team has a positive cap and reached 80 per cent of it |
| `Budget.Service.Commit` | internal/gw/budget/service.go:97-118 | replaces estimate by actual iff the row is reserved, else reports an error and changes nothing |
| `Budget.Service.Release` | internal/gw/budget/service.go:121-138 | gives back the estimate of an open row; errors only on an unknown id |
| `Budget.Service.ReleaseExpired` | internal/gw/budget/service.go:175-191 | in whatever order the map is visited: exactly the reserved rows created before the cutoff expire and are returned, every other row is unchanged, and the counters follow |
| `Budget.Service.TeamUsed` | internal/gw/budget/service.go:152-156 | reports SQL sum plus drift |
| `Settlement.SafeStep` | internal/gw/server/ingress_pipeline.go:179-192 | admission, settlement, a settlement that fails in the database and settler tick each keep the safety invariant |
| `Settlement.RunSafe` | internal/gw/budget/settler.go:38-57 | the invariant holds in every state of every interleaving of requests and settler |
| `Settlement.LeavesReservedOnce` | internal/gw/server/ingress_pipeline.go:184-190 | in every interleaving a row that left the reserved state keeps its value to the end |
| `Settlement.AsAdmitted` | internal/gw/budget/settler.go:38-57 | in every interleaving, until its request ends, a reservation is as admitted: still reserved iff no tick came with a cutoff after its admission |
| `Settlement.SettledAs` | internal/gw/server/ingress_pipeline.go:179-192 | in every interleaving, from its settlement to the end, a reservation is committed with the cents settled or released, unless a tick with a cutoff after its admission came first; then it is expired |
| `Settlement.StreamAccounted` | internal/gw/server/ingress_pipeline.go:179-192 | from provider bytes to the table, in every interleaving: a streamed request no tick overtook ends committed for the cost of the usage on all its lines iff every line was taken and the stream did not fail, else released |
| `Settlement.LateSettlementIsNoOp` | internal/gw/server/ingress_pipeline.go:184-190 | settling after expiry changes neither row nor counter |
| `Settlement.LostIsExpired` | internal/gw/server/ingress_pipeline.go:184-190 | a settlement whose statement fails changes no row; a tick with a later cutoff expires the reservation and gives back its estimate |
| `Settlement.CounterIsSql` | internal/gw/server/ingress_pipeline.go:179-192 | in every interleaving the counter is the SQL sum and the drift is zero |
| `Settlement.CounterNonNegativeIff` | internal/gw/server/ingress_pipeline.go:179-192 | for every set of possible charges: no counter is ever negative in any interleaving iff no possible charge is negative |
| `Settlement.NegativeChargeShows` | internal/gw/server/ingress_pipeline.go:187-188 | for every negative charge a two-step run in which it makes the counter negative |
| `Settlement.StreamsKeepCountersNonNegativeIff` | internal/gw/server/ingress_pipeline.go:179-192 | from provider bytes to counters: with accepted prices no counter is ever negative in any interleaving of any streams iff no data line decodes to a negative count |
| `Settlement.CounterTracksExactCost` | internal/gw/server/ingress_pipeline.go:184-190 | in every interleaving whose commits charge priced usage a counter never exceeds the exact cost of the open rows and falls short by less than one cent per committed request |
| `Transformer.ConvertRequest` | internal/shared/transformer/anthropic.go:35-90 | the loops over messages, system and tools compute the conversion: roles and settings kept, block by block, the wire's tool choice "tool" as "specific", thinking enabled with its budget |
| `Transformer.BlockMeaning` | internal/shared/transformer/anthropic.go:277-301 | which internal fields each kind of wire block sets, from which wire fields: a tool use its id, name and parsed input, a tool result its tool use id, error flag and blocks |
| `Transformer.IrRoundTripIff` | internal/shared/transformer/anthropic.go:277-334 | internal form to wire and back is the identity on exactly the well-formed blocks, at any nesting |
| `Transformer.ToIrWellFormed` | internal/shared/transformer/anthropic.go:277-301 | converting any wire block gives a well-formed one |
| `Transformer.NormaliseIdempotent` | internal/shared/transformer/anthropic.go:277-334 | forwarding twice is forwarding once and keeps the internal meaning |
| `Transformer.ForwardedUnchangedIff` | internal/shared/transformer/anthropic.go:210-223 | a wire block, with whatever other JSON members it has, is forwarded unchanged iff it is canonical |
| `Transformer.StrayFieldIsLost` | internal/shared/transformer/anthropic.go:277-334 | a text block with an id is forwarded without it |
| `Transformer.ImageSourceIsLost` | internal/shared/transformer/anthropic.go:210-223 | an image block is forwarded without its source |
| `Transformer.RequestForwardedUnchangedIff` | internal/shared/transformer/anthropic.go:35-165 | a whole request is re-emitted unchanged iff it is canonical: its blocks are, no member lacks a field, the tool choice is not the internal one and thinking, if set, is enabled |
| `Transformer.RequestRoundTripIff` | internal/shared/transformer/anthropic.go:35-165 | a whole internal request survives the trip iff it is well formed |
| `Transformer.RequestNormaliseIdempotent` | internal/shared/transformer/anthropic.go:35-165 | converting and re-emitting a request is idempotent and keeps its meaning |
| `Transformer.DisabledThinkingIsEnabled` | internal/shared/transformer/anthropic.go:141-149 | a thinking setting survives iff its type was enabled |
| `Degradation.DetectCapabilities` | internal/gw/policy/capability_detect.go:48-114 | reports vision iff a message has a top-level image block, cache_control iff a top-level block of system or message mentions it, extended_thinking iff thinking is given; in that order |
| `Degradation.StringIsTextBlock` | internal/shared/transformer/anthropic.go:15-33 | content given as a string means one plain text block |
| `Degradation.FilterDegradable` | internal/gw/policy/capability_detect.go:28-43 | keeps exactly the detected features not configured as degradable, in order |
| `Degradation.RequestBuffer.StripAnthropicFeatures` | internal/shared/transformer/degraded.go:7-33 | clears every top-level cache mark and enabled thinking in place, changes no other field of any block or of the request, and reports exactly what was there |
| `Degradation.StrippedWasDetected` | internal/shared/transformer/degraded.go:7-33 | everything egress strips was detected at ingress; thinking agrees both ways, cache marks iff one is not null |
| `Degradation.NullMarkDetected` | internal/gw/policy/capability_detect.go:81-97 | a null cache_control is detected and not stripped |
| `Degradation.StrippedIsAllowedOrSupported` | internal/gw/server/ingress_pipeline.go:113-121 | across detection, policy and routing: a stripped feature is degradable, or the pricing row of every member of the chain has its flag set |
| `Degradation.RedetectsNothing` | internal/gw/server/egress_pipeline.go:87-114 | detecting again on the stripped and emitted request finds neither feature |
| `Degradation.EmittedParses` | internal/shared/transformer/anthropic.go:94-165 | what egress emits parses back to the wire request it was emitted for, at every depth |
| `Degradation.SurvivingMarksIff` | internal/shared/transformer/degraded.go:7-33 | a cache mark survives stripping iff one was nested inside a tool result |
| `Degradation.StrippedCleanIff` | internal/shared/transformer/degraded.go:4-33 | the documented promise, no cache mark and no thinking in any block or the request, holds after stripping iff no mark was nested and no block at any depth was a thinking block |
| `Degradation.SurvivingThinkingIff` | internal/shared/transformer/degraded.go:7-33 | a thinking block, at any depth, survives stripping iff there was one |
| `Degradation.ThinkingBlockSurvives` | internal/shared/transformer/degraded.go:7-33 | a top-level thinking block survives and is not reported |
| `Degradation.NestedMarkSurvives` | internal/shared/transformer/degraded.go:7-33 | a mark inside a tool result survives and is not reported |
| `HotReload.InvStep` | internal/gw/config/loader.go:204-330 | every step keeps the invariant |
| `HotReload.RunInv` | internal/gw/config/loader.go:204-330 | in every interleaving no pending notification is left without a reload to come, none is in two batches, and a reload saw every change it was notified of |
| `HotReload.ArmsBeforeMovingOn` | internal/gw/config/loader.go:204-270 | in every run, once the loop is on the way to arm its timer it neither waits again nor exits before it has armed it |
| `HotReload.CurrentOrigin` | internal/gw/config/loader.go:272-330 | in every run the configuration in use is the initial one or one an earlier reload read and accepted |
| `HotReload.InternalStepsEnd` | internal/gw/config/loader.go:223-270 | the program's own steps decrease a measure, so it comes to rest |
| `HotReload.RestMeansReloaded` | internal/gw/config/loader.go:223-330 | at rest with the loop running, every notification ever noted has been through a reload |
| `HotReload.ChangesInstalled` | internal/gw/config/loader.go:223-330 | in every run without overlapping or rejected reloads, at rest with the loop running, every change ever notified is in the installed configuration |
| `HotReload.StopStrandsPending` | internal/gw/config/loader.go:189-214 | a three-step run in which stopping leaves a notification behind |
| `HotReload.StrandedIff` | internal/gw/config/loader.go:228-236 | for every run and state after the loop exited: a notification pending there stays pending for good iff no timer was set and no reload was about to start |
| `HotReload.OlderReadCanWin` | internal/gw/config/loader.go:250-255 | an explicit run with at most two reloads at a time that ends at rest with the older files installed |
| `HotReload.NoOverlapNeverGoesBack` | internal/gw/config/loader.go:328-330 | without overlap the installed version never goes back |
| `HotReload.NeverGoesBackIff` | internal/gw/config/loader.go:250-330 | every run with at most b reloads at a time never goes back iff b is at most one |
| `Invites.MemoryStore.ConsumeAndIssueKey` | internal/gw/auth/pg_invitestore.go:218-249 | succeeds iff the invite is there, unused, unexpired and the insert works; then the key has the invite's user, team and role, the invite records this use, and nothing else changes; any error leaves the store unchanged |
| `Invites.InvStep` | internal/gw/auth/pg_invitestore.go:85-153 | every step of every transaction keeps the invariant |
| `Invites.OneShot` | internal/gw/auth/pg_invitestore.go:85-153 | in every interleaving an invite is used iff exactly one redemption committed; it started before expiry, recorded its own use, and with a new hash its key row has the invite's user, team and role |
| `Invites.InsertedCanCommit` | internal/gw/auth/pg_invitestore.go:85-153 | a redemption that inserted its key can still commit: nobody took the invite meanwhile |
| `Invites.StepRefinesAtomic` | internal/gw/auth/pg_invitestore.go:85-153 | tables change only by a create or by a commit that does what one atomic redemption would, with the transaction's start time as its clock |
| `Invites.RunRefinesAtomic` | internal/gw/auth/pg_invitestore.go:85-153 | in every interleaving the tables are those of the creates and commits so far, performed one at a time in commit order, each successful |
| `Invites.FailureLeavesRedeemable` | internal/gw/auth/pg_invitestore.go:85-153 | after a rollback or miss the invite is as before and the next redemption gets through |
| `Invites.DiagnosisIsPreciseIff` | internal/gw/auth/pg_invitestore.go:108-135 | a missed redemption reports the atomic store's error at that moment iff the invite is not redeemable then |
| `Invites.ReusedHashKeepsOldKey` | internal/gw/auth/pg_invitestore.go:140-147 | with a hash already present the redemption commits and the key row stays the old one |
| `Invites.ReusedHashShows` | internal/gw/auth/pg_invitestore.go:140-147 | a run in which a second invite redeemed with the same hash is used up and its user has no key |
| `Invites.LateInviteMisdiagnosed` | internal/gw/auth/pg_invitestore.go:131-134 | a run in which an invite created after the update is reported as consumed |

## Left out

- Selector.ReplayFaithfulIff: needs one member per endpoint, since for one fixed seed chains may otherwise agree by chance; `ReplayAlwaysFaithfulIff` has no such condition.
- Scanner.ScanIff: the scanner's limit on consecutive empty reads is not modelled.
- StreamAccounting.RunStream: a client that closes in the middle of a line has also received part of that line, which is not modelled.
- Relay.RelayStream: failures of the local ledger database itself are not modelled.
- Degradation.RedetectsNothing: emission is modelled for the Anthropic-compatible wire; the OpenAI conversion is not modelled.
- HotReload.ChangesInstalled: a reload reads all files in one step; the loader reads them one after another, so files edited in between can be mixed.
- Transformer.ConvertRequest: JSON text and duplicate or differently cased keys are not modelled; egress sets model and stream flag afterwards, which is not modelled either.
- Invites.MemoryStore.ConsumeAndIssueKey: keys are indexed by hash, not by the key store's eight-character prefix.
- Invites.StepRefinesAtomic: a commit whose outcome the database leaves unknown is not modelled.
- Decisions.MergeDecisions: slices are values, so sharing of a slice's backing array between two decisions is not captured.
- Budget.Service.Reserve: trace, tenant and user fields of a reservation and the shared record handed back to the caller are not modelled.
- Cost.ChargedBound: prices and products are exact reals; `float64` rounding is not modelled.
- CEL compilation and evaluation, hashing, the ChaCha8 bit stream, YAML and JSON text: parameters.
- OpenAI wire conversion, provider adapters, HTTP handlers, authentication middleware, retries, metrics, audit and raw-store writers: not modelled; they would add mostly straight-line members.
- Secret resolution and the watches on secret files, `ValidateEndpointsAgainstPricing`, default currencies: not modelled.
- Token counting, envelope building and the session files of the local proxy: not modelled.
