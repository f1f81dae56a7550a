# Verified model of the Luna research engine

This project models the deterministic cores of the Python research engine in
`apps/ai-service/luna_workstation` and proves what they promise. LLM answers, provider answers, the
clock, the exchange and the journal are open: they are functions or parameters about which nothing
is assumed beyond what a contract says.

Check it with `dafny verify dfyconfig.toml` (Dafny 4.11).

## The parts

| modules | part of the engine |
|---|---|
| `CircuitBreaker`, `LlmOrchestration`, `ConfigSchema` | the circuit breaker as a history predicate, lazy fallback LLMs, provider switching, the fallback loop, and the configuration that sets them up |
| `RateLimiter`, `WorkerPool`, `Errors`, `ProviderRuntime`, `VendorRouting` | calls of data providers: rate limit, swappable worker pool, retries with backoff, the vendor chain |
| `HistoricalContract`, `ReplayAudit`, `HistoricalRouting`, `HistoricalReplay` | historical replay without lookahead, from contract to closing audit |
| `Confidence`, `Stability`, `ThesisArtifact`, `ThesisCompiler` | data quality and confidence, the stability guard, validator and compiler of theses |
| `TomlWriter`, `TomlReader`, `TomlLines`, `TomlSections`, `ConfigHash` | the TOML writer against a strict reader, and the canonical form behind the configuration hash |
| `Ohlcv`, `News`, `Debate` | candle paging, news deduplication and clusters, the debate run |
| `Text`, `Reals` | the few string and number facts the others share |

Objects whose methods change fields are classes with those fields; code that runs under one lock is
a sequence of atomic steps, so a statement about every sequence is one about every interleaving.
Each method is tied to a specification function or predicate, and the lemmas are about those. What the
functions compute is in turn said by lemmas in other terms, over positions, members and amounts, so that
method and function cannot go wrong together.

## Where the code and its documentation part ways

- The half-open circuit admits any number of probes, although the comment in
  `llm_clients/orchestrator.py` (lines 185-186) speaks of one
  (`CircuitBreaker.HalfOpenAdmitsEveryProbe`).
- The fallback loop can reach `raise last_error` with `None` (`llm_clients/orchestrator.py`, line 401),
  which the model calls `NoAttempt`. It does so exactly when every provider in the order is missed in
  turn, which takes an open circuit of the active one (`LlmOrchestration.NoAttemptIff`,
  `LlmOrchestration.NobodyReachableHappens`).
- `route_to_vendor_historical` documents a `DataProviderError` for a refused contract; in strict mode
  the code raises a `PolicyViolationError`, and the model follows the code.
- The replay's documentation accepts hybrid price data, but its default strict mode refuses it, and no
  endpoint of the current table is point-in-time: a default replay asks no provider at all
  (`HistoricalContract.CurrentTableRefusesStrict`, last clause of `HistoricalReplay.Run`).
- The TOML writer promises valid TOML, but a key with a letter outside ASCII is written bare and one
  with a character outside the basic plane as two surrogate escapes; either makes the text unreadable
  (`TomlSections.RoundTrip`, `TomlSections.AccentedKeyIsLost`).
- Candle paging takes a page shorter than its own limit for the last one, so an exchange with a lower
  cap is read incompletely as soon as the range exceeds one page (`Ohlcv.CappedIffOnePage`).
- The stability guard can restore a confidence above the new run's quality cap
  (`Stability.CapHoldsIff`, `Stability.CapCanBeExceeded`).
- A directional rating with a spelling other than the canonical one loses its direction beside a
  neutral request (`Stability.ResolvedAgreesIff`); the builder itself only passes canonical ratings.
- A breaker threshold below 1 would act like 1; the schema refuses it.

## Model

| member | source | states |
|---|---|---|
| `CircuitBreaker.BreakerRefinesHistory` | apps/ai-service/luna_workstation/llm_clients/orchestrator.py:160-229 | after any chronological history of checks and results, a circuit reports open exactly when the failures since the last success reach the threshold and the last failure is younger than the window; it is closed exactly below the threshold, and then `failures` counts that run |
| `CircuitBreaker.ReplayTracks` | apps/ai-service/luna_workstation/llm_clients/orchestrator.py:160-229 | the invariant behind it: state, failure count and opening time of every circuit are determined by the recorded results alone |
| `CircuitBreaker.HalfOpenAdmitsEveryProbe` | apps/ai-service/luna_workstation/llm_clients/orchestrator.py:185-186 | the half-open state does not limit itself to one probe, against the comment in the code: once the window has passed, every check is let through until a result is recorded |
| `CircuitBreaker.ChecksLeaveNoTrace` | apps/ai-service/luna_workstation/llm_clients/orchestrator.py:160-186 | checks never change what later calls observe |
| `Errors.FallbackVersusRetry` | apps/ai-service/luna_workstation/exceptions.py:95-214 | whatever is retried may fall over to another vendor; the only error that falls over without being retried is used-up retries |
| `Errors.AttributesAreInherited` | apps/ai-service/luna_workstation/exceptions.py:38-142 | the category and the retry flag of every exception class are the ones it declares, or else those of its base class |
| `Errors.ForeignRetriedIff` | apps/ai-service/luna_workstation/exceptions.py:157-214 | a foreign error is retried for its type, or if its message has a transient marker and no permanent one, in whatever case; it then counts as transient, else as a bug |
| `LlmOrchestration.OrderDistinct` | apps/ai-service/luna_workstation/llm_clients/orchestrator.py:357-359 | the order tried has exactly the active provider and the fallbacks, without repetition if the fallbacks have none |
| `LlmOrchestration.OrderFollowsFallbacks` | apps/ai-service/luna_workstation/llm_clients/orchestrator.py:357-359 | after the active provider the order has the entries of the fallback list at exactly the positions that name another provider, from left to right |
| `LlmOrchestration.AttemptsFollowConfiguration` | apps/ai-service/luna_workstation/llm_clients/orchestrator.py:357-401 | in every run the attempted providers are a selection, in order, of the active provider followed by the fallbacks as configured |
| `LlmOrchestration.PairsComeFromBuilds` | apps/ai-service/luna_workstation/llm_clients/orchestrator.py:276-311 | every new pair is what some build made after a check that found the circuit of its provider closed; every configured provider left without a pair was found open, has no models, or failed to build, which was recorded as a failure at once |
| `LlmOrchestration.VisitsAreNoted` | apps/ai-service/luna_workstation/llm_clients/orchestrator.py:361-401 | every visit begins with a circuit check of its provider, every attempt ends with the record of how it went, and no recorded event is ever lost |
| `LlmOrchestration.LLMOrchestrator.constructor` | apps/ai-service/luna_workstation/llm_clients/orchestrator.py:71-95 | providers are lower-cased, no circuit and no fallback LLM exists yet, and the proxies stand on the active provider's pair |
| `LlmOrchestration.LLMOrchestrator.IsCircuitOpen` | apps/ai-service/luna_workstation/llm_clients/orchestrator.py:160-186 | the check answers what the history says, records itself and keeps the circuits equal to the replayed history |
| `LlmOrchestration.LLMOrchestrator.RecordResult` | apps/ai-service/luna_workstation/llm_clients/orchestrator.py:188-229 | the result is recorded, the circuits stay equal to the replayed history, and a success closes the circuit with 0 failures |
| `LlmOrchestration.LLMOrchestrator.EnsureFallbackLlms` | apps/ai-service/luna_workstation/llm_clients/orchestrator.py:262-311 | the cache, the recorded history and the builds made are those of the history-based specification: every configured provider that is not cached, not active and not open is built once, and a failed build is charged to it |
| `LlmOrchestration.CachedGrows` | apps/ai-service/luna_workstation/llm_clients/orchestrator.py:276-311 | building only adds pairs, only for configured providers other than the active one, and never rewrites history |
| `LlmOrchestration.LLMOrchestrator.SwitchProvider` | apps/ai-service/luna_workstation/llm_clients/orchestrator.py:315-341 | switching happens exactly for cached providers and leaves both proxies on the new provider's pair and the host repointed; otherwise nothing moves |
| `LlmOrchestration.LLMOrchestrator.ApplyProviderSwitch` | apps/ai-service/luna_workstation/graph/tool_runtime.py:34-48 | both proxies end up on the given pair, the host and its graph setup refer to the proxies, and the signal processor is rebuilt on the new quick LLM |
| `LlmOrchestration.LLMOrchestrator.SwitchToFallback` | apps/ai-service/luna_workstation/llm_clients/orchestrator.py:366-372 | after the lazy build the switch succeeds exactly when the provider has a pair, and then it is the active one |
| `LlmOrchestration.LLMOrchestrator.Attempt` | apps/ai-service/luna_workstation/llm_clients/orchestrator.py:374-400 | one call of the stage function on the current proxies, and exactly one record of its outcome, nothing else recorded or built |
| `LlmOrchestration.LLMOrchestrator.VisitProvider` | apps/ai-service/luna_workstation/llm_clients/orchestrator.py:362-400 | one pass of the loop, down to the state it leaves: skipped exactly when the circuit is open, not switched exactly when a fallback has no pair after the lazy build, otherwise attempted on its own cached pair |
| `LlmOrchestration.LLMOrchestrator.TryProviders` | apps/ai-service/luna_workstation/llm_clients/orchestrator.py:361-401 | the loop: each visit is the one its start state demands, the visits chain from the first state to the last, the stage function is called once per attempt and answers in turn, and the outcome follows from the visits |
| `LlmOrchestration.LLMOrchestrator.ExecuteWithFallback` | apps/ai-service/luna_workstation/llm_clients/orchestrator.py:345-401 | the whole call: the providers attempted are a selection, in order, of the one active before and the fallbacks as configured; success leaves the provider that answered active with a closed circuit and 0 failures; `raise None` exactly when nobody was reachable from the state before the call; no fallback and no record when disabled |
| `LlmOrchestration.VisitedOnce` | apps/ai-service/luna_workstation/llm_clients/orchestrator.py:357-401 | with distinct fallback providers the stage function is called at most once for any provider, exactly once for each one attempted, only for providers of the order, and in the configured order |
| `LlmOrchestration.NoAttemptIff` | apps/ai-service/luna_workstation/llm_clients/orchestrator.py:361-401 | the run ends without an attempt if and only if every position of the order is missed in turn: its circuit open by the history at that time, or, for a fallback, no pair after the lazy build |
| `LlmOrchestration.NobodyReachableNeedsOpenActive` | apps/ai-service/luna_workstation/llm_clients/orchestrator.py:361-363 | that takes an open circuit of the active provider, hence a recorded failure of it |
| `LlmOrchestration.NobodyReachableAlone` | apps/ai-service/luna_workstation/llm_clients/orchestrator.py:357-401 | without fallbacks it is exactly an open circuit of the active provider |
| `LlmOrchestration.NobodyReachableHappens` | apps/ai-service/luna_workstation/llm_clients/orchestrator.py:361-401 | it happens: one recorded failure at threshold 1 and a fallback without models |
| `LlmOrchestration.FirstVisit` | apps/ai-service/luna_workstation/llm_clients/orchestrator.py:361-372 | the first visit starts in the state before the call and is skipped or attempted, never left unswitched |
| `ConfigSchema.AcceptedChainIsStable` | apps/ai-service/luna_workstation/config/schema.py:33-39 | an accepted vendor chain, joined with commas, parses back to the same vendors for the normaliser and for the router, and normalises to itself |
| `ConfigSchema.SplitOfJoin` | apps/ai-service/luna_workstation/config/schema.py:33-39 | splitting at commas undoes the join of comma-free names |
| `ConfigSchema.JoinOfSplit` | apps/ai-service/luna_workstation/dataflows/interface.py:282-283 | joining undoes splitting, for every text, and no part has a comma |
| `ConfigSchema.AcceptedIff` | apps/ai-service/luna_workstation/config/schema.py:33-39 | a chain is accepted exactly when some name is left after cleaning and every one left is known; otherwise exactly the unknown ones are reported |
| `ConfigSchema.RouterFollowsAcceptedChain` | apps/ai-service/luna_workstation/config/schema.py:123-144 | the router tries the accepted vendors first, in the accepted order |
| `ConfigSchema.NormalizeFallbacks` | apps/ai-service/luna_workstation/config/schema.py:237-280 | the loop refuses a list exactly if a name is unknown, and otherwise keeps what the specification keeps |
| `ConfigSchema.KeptKeys` | apps/ai-service/luna_workstation/config/schema.py:260-280 | exactly the keys other than the empty one, the primary one and repetitions survive, each once, with outer spaces removed |
| `ConfigSchema.KeptIdempotent` | apps/ai-service/luna_workstation/config/schema.py:260-280 | filtering an accepted fallback list again changes nothing |
| `ConfigSchema.SecondPassAccepts` | apps/ai-service/luna_workstation/config/schema.py:237-280 | the whole second pass, with its test for unknown names, accepts what the first one kept and keeps all of it, as long as no known name has outer spaces |
| `ConfigSchema.AcceptedConfigFitsOrchestrator` | apps/ai-service/luna_workstation/config/schema.py:237-290 | an accepted list gives the orchestrator distinct providers without the primary one, and an accepted threshold is the one the breaker applies |
| `TomlWriter.WriteSection` | apps/ai-service/luna_workstation/config/toml_writer.py:9-33 | the recursive writer appends exactly the specified lines to the caller's buffer |
| `TomlWriter.WriteScalars` | apps/ai-service/luna_workstation/config/toml_writer.py:9-33 | the scalar loop appends one line per scalar, in order |
| `TomlWriter.Split` | apps/ai-service/luna_workstation/config/toml_writer.py:9-33 | scalars and tables are separated without loss, each kept in order |
| `TomlLines.StringRoundTrip` | apps/ai-service/luna_workstation/config/toml_writer.py:54-55 | reading a written string gives the string back: every escape of section 7 of RFC 8259, and U+007F, is undone |
| `TomlLines.KeyRoundTrip` | apps/ai-service/luna_workstation/config/toml_writer.py:36-39 | a written key is read back exactly if it is bare and ASCII, or quoted and within the basic plane |
| `TomlLines.QuotedKeyRead` | apps/ai-service/luna_workstation/config/toml_writer.py:36-39 | a quoted key reads back if no character needs a surrogate pair, and otherwise does not read at all |
| `TomlLines.UnreadableKey` | apps/ai-service/luna_workstation/config/toml_writer.py:36-39 | after any other key a reader finds nothing it can go on from |
| `TomlLines.PathRoundTrip` | apps/ai-service/luna_workstation/config/toml_writer.py:9-33 | a dotted header path of such keys is read back key by key |
| `TomlLines.ValueRoundTrip` | apps/ai-service/luna_workstation/config/toml_writer.py:42-51 | booleans, integers, strings and lists are read back; None reads as the empty string |
| `TomlLines.ScalarLineRoundTrip` | apps/ai-service/luna_workstation/config/toml_writer.py:9-33 | one scalar line assigns exactly its key in the current table |
| `TomlLines.HeaderLineRoundTrip` | apps/ai-service/luna_workstation/config/toml_writer.py:9-33 | one header line opens exactly its table |
| `TomlSections.SectionRead` | apps/ai-service/luna_workstation/config/toml_writer.py:9-33 | a strict reader, which refuses a table or key defined twice and a table before its parent, accepts the lines of any section with readable keys and builds exactly the intended document |
| `TomlSections.SectionSpoilt` | apps/ai-service/luna_workstation/config/toml_writer.py:9-33 | one unreadable key anywhere below puts a line into the section that no reader gets past |
| `TomlSections.SectionLookup` | apps/ai-service/luna_workstation/config/toml_writer.py:9-33 | in that document every path holds what the written mapping holds there, so no scalar lands in a wrong table |
| `TomlSections.RoundTrip` | apps/ai-service/luna_workstation/config/toml_writer.py:9-55 | the written text reads if and only if every key of every table is written as valid TOML, and then rebuilds the nested mapping |
| `TomlSections.AsciiKeysAreReadable` | apps/ai-service/luna_workstation/config/toml_writer.py:36-39 | ASCII keys always meet that condition |
| `TomlSections.AccentedKeyIsLost` | apps/ai-service/luna_workstation/config/toml_writer.py:36-39 | a concrete key that does not: one accented letter is written bare and the whole text is lost |
| `ConfigHash.CanonicalIffConfigsAgree` | apps/ai-service/luna_workstation/graph/config_hash.py:54-74 | two configurations have the same canonical value if and only if they agree up to key order at every level, the values under secret keys and the excluded top-level keys |
| `ConfigHash.CanonIffAgree` | apps/ai-service/luna_workstation/graph/config_hash.py:24-51 | the same for nested values |
| `ConfigHash.RedactSortCommute` | apps/ai-service/luna_workstation/graph/config_hash.py:31-51 | redacting and sorting commute |
| `ConfigHash.RedactIdempotent` | apps/ai-service/luna_workstation/graph/config_hash.py:31-42 | redacting twice is redacting once |
| `ConfigHash.SortIdempotent` | apps/ai-service/luna_workstation/graph/config_hash.py:45-51 | sorting twice is sorting once |
| `ConfigHash.SortedUnique` | apps/ai-service/luna_workstation/graph/config_hash.py:45-51 | a sorted dictionary is determined by what it maps its keys to |
| `ConfigHash.ExcludeContent` | apps/ai-service/luna_workstation/graph/config_hash.py:54-74 | exclusion removes exactly the named top-level keys |
| `ConfigHash.SecretIff` | apps/ai-service/luna_workstation/graph/config_hash.py:17-42 | a key with a secret word in it is secret in whatever case the word is written, and an ASCII key only then |
| `ConfigHash.SecretStays` | apps/ai-service/luna_workstation/graph/config_hash.py:17-42 | lower-casing a key, or writing something before or behind it, never uncovers it |
| `RateLimiter.Limiter.Apply` | apps/ai-service/luna_workstation/dataflows/interface.py:556-567 | each reservation is the earliest slot its vendor allows, and no other vendor is affected |
| `RateLimiter.PairwiseApart` | apps/ai-service/luna_workstation/dataflows/interface.py:556-567 | slots of one vendor are pairwise as far apart as their positions demand |
| `RateLimiter.WindowHoldsAtMost` | apps/ai-service/luna_workstation/dataflows/interface.py:556-567 | any closed window of length T holds at most floor(T * rate) + 1 slots |
| `RateLimiter.LimitHolds` | apps/ai-service/luna_workstation/dataflows/interface.py:556-567 | so does any window of a limiter in use, whoever the callers were |
| `WorkerPool.StepKeeps` | apps/ai-service/luna_workstation/dataflows/interface.py:570-618 | every atomic step of any call keeps the pool invariant |
| `WorkerPool.EveryRunConserves` | apps/ai-service/luna_workstation/dataflows/interface.py:570-618 | in every interleaving each pool generation keeps free permits + acquired + in flight = workers, permits return at most once and to their own pool, and the bounded semaphore never overflows |
| `WorkerPool.IdleMeansFull` | apps/ai-service/luna_workstation/dataflows/interface.py:593-618 | when no call holds anything, every pool has all its permits back |
| `WorkerPool.NeverMoreThanWorkers` | apps/ai-service/luna_workstation/dataflows/interface.py:570-618 | a pool never runs more calls than it has workers, even after it was replaced |
| `WorkerPool.PermitComesBack` | apps/ai-service/luna_workstation/dataflows/interface.py:593-618 | in every interleaving a call that holds a permit gives it back to its own pool within at most four steps of its own, and until then can always take the next one |
| `WorkerPool.HolderCanStep` | apps/ai-service/luna_workstation/dataflows/interface.py:605-617 | no holder is ever stuck, not even on a replaced executor, and no releasing callback is lost |
| `WorkerPool.ReleaseKeeps` | apps/ai-service/luna_workstation/dataflows/interface.py:605-617 | a release by the holder is never one too many |
| `WorkerPool.FetchKeeps` | apps/ai-service/luna_workstation/dataflows/interface.py:570-590 | fetching, with or without a replacement of the executor, leaves the accounts of every older pool intact |
| `WorkerPool.FetchServes` | apps/ai-service/luna_workstation/dataflows/interface.py:570-590 | a call gets the current pool, which is open and has as many workers as asked for, at least one; the pool before is kept exactly when it has that size, and otherwise followed by a new one with all permits free and shut down |
| `WorkerPool.RunKeepsOpen` | apps/ai-service/luna_workstation/dataflows/interface.py:570-590 | in every interleaving the current pool is the only one that takes submissions |
| `WorkerPool.PoolsKeepSize` | apps/ai-service/luna_workstation/dataflows/interface.py:570-618 | no step changes the size of a pool, and a pool that was shut down stays so and gets no submission |
| `WorkerPool.AcquireIffRoom` | apps/ai-service/luna_workstation/dataflows/interface.py:603-607 | a waiting call can have a permit exactly while fewer calls hold one than the pool has workers |
| `WorkerPool.FetchedPoolAdmits` | apps/ai-service/luna_workstation/dataflows/interface.py:570-618 | in every interleaving, ever after a fetch of n workers, at most n calls hold permits of that pool, and while there are fewer every waiting one can have its permit, whatever replaced the pool meanwhile |
| `ProviderRuntime.BackoffBounds` | apps/ai-service/luna_workstation/dataflows/retry.py:31-38 | delays never shrink and add up to at most retries * cap and at most base * (2^retries - 1) |
| `ProviderRuntime.CappedSum` | apps/ai-service/luna_workstation/dataflows/retry.py:31-38 | all sleeps together stay within retries * cap |
| `ProviderRuntime.GeometricSum` | apps/ai-service/luna_workstation/dataflows/retry.py:31-38 | all sleeps together stay within base * (2^retries - 1) |
| `ProviderRuntime.SleepMonotone` | apps/ai-service/luna_workstation/dataflows/retry.py:31-38 | a later attempt never waits less |
| `ProviderRuntime.SleepDoubles` | apps/ai-service/luna_workstation/dataflows/retry.py:31-38 | the first wait is the base and each later one twice the one before, up to the cap; a negative base or cap means no wait |
| `ProviderRuntime.Runtime.TryOnce` | apps/ai-service/luna_workstation/dataflows/interface.py:593-618 | one attempt reaches the provider unless the pool is saturated or the submission fails |
| `ProviderRuntime.Runtime.Invoke` | apps/ai-service/luna_workstation/dataflows/interface.py:621-678 | at most retries + 1 attempts, all but the last failing retryably, the specified sleeps between them, a success or non-retryable error returned at once, exhaustion only after the last attempt |
| `ProviderRuntime.EndsWithLastAttempt` | apps/ai-service/luna_workstation/dataflows/interface.py:640-677 | attempt by attempt: a saturated pool, a timeout or a retryable error is tried again as long as attempts are left, and nothing else is; the result is that of the last attempt, or says that the retries are used up |
| `ProviderRuntime.CallSleepsAtMost` | apps/ai-service/luna_workstation/dataflows/interface.py:621-678 | one call sleeps at most retries * cap and at most base * (2^retries - 1) in all, however it ends |
| `ProviderRuntime.ExhaustionFallsOver` | apps/ai-service/luna_workstation/exceptions.py:95-99 | used-up retries are not retryable but let the router go on |
| `VendorRouting.ExtendCovers` | apps/ai-service/luna_workstation/dataflows/interface.py:291-296 | the chain starts with the configured vendors and reaches every available one, adding none twice |
| `VendorRouting.ExtendKeepsOrder` | apps/ai-service/luna_workstation/dataflows/interface.py:291-296 | the vendors added to the configured ones are available ones not among them, each once and in their order |
| `VendorRouting.ChainIsConfiguredFirst` | apps/ai-service/luna_workstation/dataflows/interface.py:282-296 | the chain of a method is the configured text split at commas, then the other vendors that implement it, in their order, and nobody is left out |
| `VendorRouting.Router.TryVendor` | apps/ai-service/luna_workstation/dataflows/interface.py:298-372 | one vendor: passed over when disabled or unsupported, else called once with the caller's arguments and reported as it answered |
| `VendorRouting.Router.RouteToVendor` | apps/ai-service/luna_workstation/dataflows/interface.py:271-386 | first success and exhaustive: the visits follow the chain, each reports its one invocation, all but the last failed transiently, and "No available vendor" means all of them did |
| `HistoricalContract.OverlapsIffSharedDay` | apps/ai-service/luna_workstation/dataflows/historical_contract.py:112-123 | two windows overlap exactly when some day lies in both |
| `HistoricalContract.CapabilityIsFirst` | apps/ai-service/luna_workstation/dataflows/historical_contract.py:161-166 | the capability of a method is its first declared endpoint, and none exactly if no endpoint has its name |
| `HistoricalContract.UndeclaredEndpoint` | apps/ai-service/luna_workstation/dataflows/historical_contract.py:207-215 | a method without an endpoint has the default semantics of its vendor and a history of a year |
| `HistoricalContract.ValidateAgainst` | apps/ai-service/luna_workstation/dataflows/historical_contract.py:200-245 | for every required semantics there is no issue exactly when the declared semantics suffice, every day of the window lies within the declared history, and no day of point-in-time data lies after the anchor; issues come in the order of the checks |
| `HistoricalContract.ValidateRequest` | apps/ai-service/luna_workstation/dataflows/historical_contract.py:389-413 | a request is free of issues exactly when its vendor has a declaration that serves it; the router decides by this call |
| `HistoricalContract.StrictAcceptsIff` | apps/ai-service/luna_workstation/dataflows/historical_contract.py:389-413 | a strict replay accepts a vendor exactly when it declares point-in-time semantics, enough history and the window has no forward part |
| `HistoricalContract.NoAsOfRefusesStrict` | apps/ai-service/luna_workstation/dataflows/historical_contract.py:200-245 | with a table that declares point-in-time data nowhere every strict request is refused |
| `HistoricalContract.CurrentTableRefusesStrict` | apps/ai-service/luna_workstation/dataflows/historical_contract.py:257-381 | with the current table every strict point-in-time request is refused, and a lenient one passes only for endpoints declared hybrid |
| `ReplayAudit.LatestIsMax` | apps/ai-service/luna_workstation/dataflows/replay_audit.py:135-157 | the extracted timestamp is the largest parsable one and occurs in the text |
| `ReplayAudit.ResponseMaxMeans` | apps/ai-service/luna_workstation/dataflows/replay_audit.py:85-113 | a moment is its own timestamp; a text has the latest of its timestamp column, or else of the dates found in it, and none exactly if nothing in either parses; anything else has none |
| `ReplayAudit.TimestampColumnMeans` | apps/ai-service/luna_workstation/dataflows/replay_audit.py:135-157 | the cells read are exactly those of the first column named timestamp, date or time in any case |
| `ReplayAudit.OnTimeColumn` | apps/ai-service/luna_workstation/dataflows/replay_audit.py:85-157 | if the extracted maximum is on time, so is every parsable timestamp of the output's timestamp column |
| `ReplayAudit.OnTimeIff` | apps/ai-service/luna_workstation/dataflows/interface.py:763-778 | an answer is on time exactly if its timestamp, if any, lies before the end of the anchor's day |
| `ReplayAudit.AuditSession.Record` | apps/ai-service/luna_workstation/dataflows/replay_audit.py:25-30 | an entry is appended with the session's run id |
| `ReplayAudit.AuditSession.BindResearchRunId` | apps/ai-service/luna_workstation/dataflows/replay_audit.py:65-73 | every entry recorded so far and later carries the real run id; an empty id changes nothing |
| `ReplayAudit.TimestampIssues` | apps/ai-service/luna_workstation/dataflows/replay_audit.py:112-132 | an issue is reported exactly for every field of every entry that lies after the anchor |
| `ReplayAudit.ExceedsIff` | apps/ai-service/luna_workstation/dataflows/replay_audit.py:112-132 | each of the four fields exceeds the anchor exactly if its text parses to an instant after the anchor's day |
| `HistoricalRouting.PreparedAsksOnTime` | apps/ai-service/luna_workstation/dataflows/interface.py:686-760 | a prepared price or indicator call asks for nothing after the anchor |
| `HistoricalRouting.PreparedCarries` | apps/ai-service/luna_workstation/dataflows/interface.py:686-760 | what a provider is sent: for prices and indicators the caller's date, or the end of the window or the anchor in its place if it is blank; for any other method `as_of` and `end_time` as the caller set them, or else the bounds of the window if the provider takes the keyword; all other arguments as the caller gave them |
| `HistoricalRouting.ReadyIff` | apps/ai-service/luna_workstation/dataflows/interface.py:686-760 | a price or indicator call is refused exactly if its date does not parse or lies after the anchor, with an error that ends the request; any other call never is |
| `HistoricalRouting.BlankDateReadyIff` | apps/ai-service/luna_workstation/dataflows/interface.py:686-760 | without a date of the caller's an indicator call is always ready, and a price call exactly when the window has no forward part |
| `HistoricalRouting.EntryShows` | apps/ai-service/luna_workstation/dataflows/interface.py:781-807 | an entry names vendor, method, window and outcome, and of a success the date asked for and the latest timestamp that came back |
| `HistoricalRouting.HistoricalRouter.RecordCall` | apps/ai-service/luna_workstation/dataflows/interface.py:781-807 | exactly one entry with the window, the outcome and the timestamps |
| `HistoricalRouting.HistoricalRouter.CallPrepared` | apps/ai-service/luna_workstation/dataflows/interface.py:494-543 | the provider is invoked once on the prepared arguments; a value from after the anchor becomes a policy error; the audit entry tells which |
| `HistoricalRouting.HistoricalRouter.TryVendor` | apps/ai-service/luna_workstation/dataflows/interface.py:442-543 | one vendor under the contract: rejected exactly when its declaration has issues, without any submission; every vendor reached leaves one entry |
| `HistoricalRouting.HistoricalRouter.Route` | apps/ai-service/luna_workstation/dataflows/interface.py:394-553 | a returned value is on time; every invocation and every submission carries the caller's arguments with the bounds and dates described above, and none asks for anything later than the anchor; the log gains one entry per vendor reached, the visits follow the chain and stop as the code does |
| `HistoricalRouting.AuditCleanIff` | apps/ai-service/luna_workstation/dataflows/replay_audit.py:112-132 | on any log the router wrote, the final audit is clean exactly when the window has no forward part or nothing was logged |
| `HistoricalRouting.LoggedFits` | apps/ai-service/luna_workstation/dataflows/interface.py:781-807 | whatever the router logs fits its window |
| `HistoricalReplay.CloseAudit` | apps/ai-service/luna_workstation/graph/historical_replay.py:239-263 | the closing audit fails exactly when some logged timestamp lies after the anchor |
| `HistoricalReplay.ContractIff` | apps/ai-service/luna_workstation/dataflows/interface.py:245-281 | the router leaves the live path exactly if replay is on and a window is set, with the anchor of the replay, 30 days back and none forward where the window leaves them open, and point-in-time semantics unless others are named |
| `HistoricalReplay.Run` | apps/ai-service/luna_workstation/graph/historical_replay.py:113-293 | no lookahead over a whole replay, for every sequence of tool calls: every value returned and every submission is on time, the audit never fails, entries carry the run id, a future anchor is refused; and every submission carries what one of the requests asks for |
| `Stability.ResolvedAgreesIff` | apps/ai-service/luna_workstation/graph/thesis_builder.py:1327-1344 | the resolved direction leans like the rating exactly when the rating is on the scale and is not a misspelt directional one beside a neutral request |
| `Stability.DirectionOfRating` | apps/ai-service/luna_workstation/graph/thesis_builder.py:1327-1344 | only a sell goes short and only an underweight avoids, however spelt; a neutral or watching request gives way only to the four directional labels as written |
| `Stability.RatingIffWord` | apps/ai-service/luna_workstation/agents/utils/rating.py:64-86 | a text is a rating exactly if it is one of the five words, outer spaces and case aside |
| `Stability.NewestIsFirst` | apps/ai-service/luna_workstation/graph/thesis_builder.py:1747-1779 | the thesis found is exactly the newest one within the memory limit with the same upper-cased stripped symbol and the same stripped workspace, `local` if none is set, another id and another run |
| `Stability.GuardIntervenes` | apps/ai-service/luna_workstation/graph/thesis_builder.py:1599-1745 | if there is such a thesis: nothing changes if it is older than the cooldown or steady against the new one; with override evidence only a note is taken; otherwise direction, rating, confidence, plan and monitor list become its own and the note names it and what was proposed |
| `Stability.GuardStaysOut` | apps/ai-service/luna_workstation/graph/thesis_builder.py:1581-1602 | without such a thesis, or switched off, the guard changes nothing, and a blocked thesis is only noted |
| `Stability.OthersNeverMatter` | apps/ai-service/luna_workstation/graph/thesis_builder.py:1747-1779 | with the whole journal remembered, theses of other symbols or workspaces never change what the guard does |
| `Stability.UnratedIsMild` | apps/ai-service/luna_workstation/graph/thesis_builder.py:464-473 | a thesis without a summary is rated on the side of its direction, and never by the stronger grade |
| `Stability.Thesis.LatestPrevious` | apps/ai-service/luna_workstation/graph/thesis_builder.py:1747-1779 | the loop finds exactly the newest remembered thesis with the same symbol and workspace, another id and another run, and none exactly if there is none |
| `Stability.Thesis.ApplyStabilityGuard` | apps/ai-service/luna_workstation/graph/thesis_builder.py:1581-1745 | the thesis afterwards is the specified one, field by field |
| `Stability.GuardSteadies` | apps/ai-service/luna_workstation/graph/thesis_builder.py:1599-1628 | without override the result is steady against the previous thesis: same biases, confidence within the allowed step |
| `Stability.CapHoldsIff` | apps/ai-service/luna_workstation/graph/thesis_builder.py:1657-1659 | the restored confidence breaks the new run's cap exactly when the guard applies and the previous confidence was above it |
| `Stability.CapCanBeExceeded` | apps/ai-service/luna_workstation/graph/thesis_builder.py:1657-1659 | a concrete rerun as the builder makes it, with insufficient data and capped at 0.25, goes back to 0.9 |
| `Stability.BuiltIsCoherent` | apps/ai-service/luna_workstation/graph/thesis_builder.py:824-828 | a freshly built thesis has a rating and a direction that lean the same way |
| `Stability.GuardKeepsCoherence` | apps/ai-service/luna_workstation/graph/thesis_builder.py:1581-1745 | the guard keeps that agreement |
| `Stability.EveryThesisCoherent` | apps/ai-service/luna_workstation/graph/thesis_builder.py:1581-1745 | in every run, over any symbols, times and overrides, every journaled thesis has that agreement |
| `Stability.LinkFindsPrevious` | apps/ai-service/luna_workstation/graph/thesis_builder.py:1747-1779 | in a newest-first journal the previous thesis of the series is found behind any others that are not of it, as long as the memory limit reaches it |
| `Stability.LinkSteadies` | apps/ai-service/luna_workstation/graph/thesis_builder.py:1581-1779 | so each rerun of a chain ends up steady against the thesis before it |
| `Stability.ChainIsStable` | apps/ai-service/luna_workstation/graph/thesis_builder.py:1581-1779 | along a chain of reruns within the cooldown neither bias moves, and known confidences drift by at most the allowed step per rerun, whatever other theses are journaled in between |
| `Confidence.DeriveDataQuality` | apps/ai-service/luna_workstation/graph/thesis_builder.py:1347-1460 | the stepwise lowering ends at a closed form of ceilings and one deduction |
| `Confidence.QualityIsLeastLimit` | apps/ai-service/luna_workstation/graph/thesis_builder.py:1347-1460 | the quality is the least of the limits that apply, each stated by the defect that sets it, at least zero and rounded |
| `Confidence.QualityBounds` | apps/ai-service/luna_workstation/graph/thesis_builder.py:1408-1460 | quality stays in range; missing core data always ends at insufficient data, and so does insufficient news without other good evidence; no degraded input is labelled clean |
| `Confidence.QualityMonotone` | apps/ai-service/luna_workstation/graph/thesis_builder.py:1347-1460 | more defects never raise the quality |
| `Confidence.AlignmentBounds` | apps/ai-service/luna_workstation/graph/thesis_builder.py:1866-1884 | the alignment adjustment stays within -15 and +6 points and has the sign of the agreement |
| `Confidence.AlignmentAmounts` | apps/ai-service/luna_workstation/graph/thesis_builder.py:1866-1884 | by how much the quantitative signal moves the confidence, for agreement, for standing aside, for a side it does not see and for the other side |
| `Confidence.DerivedFrom` | apps/ai-service/luna_workstation/graph/thesis_builder.py:1819-1863 | which source the derived confidence comes from, and what it is then: the portfolio manager's own value, the adjusted debate or average opinion, or the quantitative value alone |
| `Confidence.PenaltyByScore` | apps/ai-service/luna_workstation/graph/thesis_builder.py:695-768 | a lower alignment score never costs less; no penalty exactly from 70 on, the full one below 40, and at least 10 for opposed daily and monthly trends below 70 |
| `Confidence.PenaltyExact` | apps/ai-service/luna_workstation/graph/thesis_builder.py:695-768 | the penalty of every score, with and without opposed trends |
| `Confidence.DerivedInRange` | apps/ai-service/luna_workstation/graph/thesis_builder.py:1819-1863 | the derived confidence is in range, and absent exactly when no source has one |
| `Confidence.PipelineClosedForm` | apps/ai-service/luna_workstation/graph/thesis_builder.py:1069-1102 | the caps and the penalty in sequence equal the smallest applicable cap less the penalty, not below zero |
| `Confidence.FinalInFigures` | apps/ai-service/luna_workstation/graph/thesis_builder.py:1069-1102 | the final confidence in figures, from the caps of 45 and 25 to the penalty, and which steps the source says took effect |
| `Confidence.ConfidenceBounds` | apps/ai-service/luna_workstation/graph/thesis_builder.py:1463-1523 | every step only lowers the value; degraded data means at most 45, insufficient data at most 25, a portfolio-manager confidence beside a weak signal at most min(25, round(quant + 10)) |
| `Confidence.MissingCoreIsInsufficient` | apps/ai-service/luna_workstation/graph/thesis_builder.py:1408-1411 | without core data the final confidence is at most 25, whatever was claimed |
| `Confidence.FinalMonotone` | apps/ai-service/luna_workstation/graph/thesis_builder.py:1069-1102 | more defects in the evidence and more stale or contract items among the inputs never raise the final confidence |
| `Confidence.DefectsNeverHelp` | apps/ai-service/luna_workstation/graph/thesis_builder.py:1012-1102 | the same as the builder runs it, where quality and confidence count the same items |
| `Confidence.StaleNeverHelps` | apps/ai-service/luna_workstation/graph/thesis_builder.py:1857-1863 | more stale or missing items never raise the derived confidence |
| `Confidence.SecondCapIsNoOpIff` | apps/ai-service/luna_workstation/graph/thesis_compiler.py:224-232 | the compiler renders the builder's confidence unchanged exactly when there is one, or there is neither a fallback nor a cap |
| `Confidence.RenderedIsCapped` | apps/ai-service/luna_workstation/graph/thesis_compiler.py:224-232 | the rendered confidence is the final or else the candidate's one, at most 45 or 25 by label, and the cap itself if neither is known |
| `ThesisArtifact.IssueLog.AddIf` | apps/ai-service/luna_workstation/graph/thesis_validation.py:279-297 | an issue is appended with its code in the reasons of its kind |
| `ThesisArtifact.IssueLog.Result` | apps/ai-service/luna_workstation/graph/thesis_validation.py:258-276 | blocked exactly with a blocking reason, degraded exactly with warnings only |
| `ThesisArtifact.IssuesMean` | apps/ai-service/luna_workstation/graph/thesis_validation.py:57-255 | a blocking issue exists exactly when the candidate is not acceptable; there is no issue at all exactly when it is acceptable and complete |
| `ThesisArtifact.ReportedIff` | apps/ai-service/luna_workstation/graph/thesis_validation.py:57-255 | every issue the validator can report is reported exactly when its defect is there, with its code and severity |
| `ThesisArtifact.DirectionIffWord` | apps/ai-service/luna_workstation/graph/thesis_validation.py:27-37 | a text names a direction exactly if it is one of its words, outer spaces and case aside |
| `ThesisArtifact.AllowedIffResolved` | apps/ai-service/luna_workstation/graph/thesis_validation.py:39-45 | the validator allows a rating exactly the directions to which the builder may resolve it |
| `ThesisArtifact.Validate` | apps/ai-service/luna_workstation/graph/thesis_validation.py:57-255 | issues in order, reasons from their codes, the cap of the data label, and the status that acceptance and completeness demand |
| `ThesisArtifact.DedupeExact` | apps/ai-service/luna_workstation/graph/thesis_validation.py:351-359 | deduplication keeps each cleaned text once and nothing else |
| `ThesisArtifact.DedupeInOrder` | apps/ai-service/luna_workstation/graph/thesis_validation.py:351-359 | each in the place where it first came |
| `ThesisArtifact.TextsMean` | apps/ai-service/luna_workstation/domain/thesis.py:287-291 | the texts of reasons, risks and monitor items are exactly the cleaned ones that are not blank |
| `ThesisArtifact.TextsSplit` | apps/ai-service/luna_workstation/domain/thesis.py:287-291 | in the order of the items |
| `ThesisCompiler.Document.AppendSection` | apps/ai-service/luna_workstation/graph/thesis_compiler.py:158-179 | unless blank, the cleaned text is stored under its key and title behind the sections there, and a blank tracked one is noted as omitted |
| `ThesisCompiler.Document.AppendListSection` | apps/ai-service/luna_workstation/graph/thesis_compiler.py:182-202 | the same for a list, as one line per cleaned item |
| `ThesisCompiler.Compile` | apps/ai-service/luna_workstation/graph/thesis_compiler.py:23-155 | diagnostic exactly when blocked, with every cleaned reason on a line of its own; missing exactly without candidate; else the composed sections, whose content `ComposedReads` states, and their rendering |
| `ThesisCompiler.RenderContains` | apps/ai-service/luna_workstation/graph/thesis_compiler.py:205-212 | every section can be read in the rendered text |
| `ThesisCompiler.RenderSplits` | apps/ai-service/luna_workstation/graph/thesis_compiler.py:205-212 | sections stand in the text one after the other with a blank line between |
| `ThesisCompiler.JoinedSplits` | apps/ai-service/luna_workstation/graph/thesis_compiler.py:215-221 | stance and thesis join their cleaned parts in order, and a blank part leaves no trace |
| `ThesisCompiler.BodyShows` | apps/ai-service/luna_workstation/graph/thesis_compiler.py:38-103 | each key is shown exactly if its content is not blank, and omitted exactly if tracked and not shown |
| `ThesisCompiler.ComposedIsFaithful` | apps/ai-service/luna_workstation/graph/thesis_compiler.py:38-122 | stance, thesis, confirmation and invalidation are there, every tracked key is in exactly one of sections and omissions, caveats appear exactly when degraded |
| `ThesisCompiler.ComposedReads` | apps/ai-service/luna_workstation/graph/thesis_compiler.py:38-122 | what a reader finds, by key and title: rating and direction side by side, the shown confidence and the market under stance, both cleaned sentences under thesis, confirmation and invalidation word for word, every reason, risk, monitor item and caveat on a line of its own section, and the sections in their order |
| `ThesisCompiler.BuildText` | apps/ai-service/luna_workstation/graph/thesis_builder.py:1127-1171 | validator and compiler agree: compiled exactly when accepted, never missing, with all of the above said of the returned sections themselves, and with the capped confidence in the stance |
| `Ohlcv.FetchUntil` | apps/ai-service/luna_workstation/dataflows/ccxt_provider.py:236-261 | paging ends for every exchange whatever, with at most one request per millisecond of the range |
| `Ohlcv.FetchesStretch` | apps/ai-service/luna_workstation/dataflows/ccxt_provider.py:236-261 | an exchange that serves a fixed book is read without gaps up to the end of the range or of the book |
| `Ohlcv.GetFrame` | apps/ai-service/luna_workstation/dataflows/ccxt_provider.py:171-215 | the rows are ascending, within the range and from the exchange; for an exchange that serves a fixed book they are exactly the book's candles in the range |
| `Ohlcv.FrameIsBook` | apps/ai-service/luna_workstation/dataflows/ccxt_provider.py:199-210 | fetching, removing duplicates, sorting and cutting gives the book's candles in the range, each once |
| `Ohlcv.CappedIffOnePage` | apps/ai-service/luna_workstation/dataflows/ccxt_provider.py:236-261 | against an exchange that caps its pages below the limit the frame is the book's range if and only if the range fits into one page |
| `Ohlcv.KeepFirstDistinct` | apps/ai-service/luna_workstation/dataflows/ccxt_provider.py:201-205 | removing duplicates keeps one candle per timestamp and loses no timestamp |
| `News.DedupeItems` | apps/ai-service/luna_workstation/dataflows/news_context_provider.py:720-727 | one item per story, stories in first-seen order, each the lead of its story |
| `News.SameStoryIff` | apps/ai-service/luna_workstation/dataflows/news_context_provider.py:720-727 | two items are one story exactly if they have the same canonical URL and the same normalized title |
| `News.FirstSeenInOrder` | apps/ai-service/luna_workstation/dataflows/news_context_provider.py:720-727 | stories and tags keep the place where they were first seen |
| `News.LeadIsEarliestMaximal` | apps/ai-service/luna_workstation/dataflows/news_context_provider.py:720-727 | the lead is the earliest item of maximal relevance |
| `News.DedupeIsIdempotent` | apps/ai-service/luna_workstation/dataflows/news_context_provider.py:720-727 | deduplicating again changes nothing |
| `News.GroupByTag` | apps/ai-service/luna_workstation/dataflows/news_context_provider.py:730-735 | the dictionary holds exactly the group of every tag, tags in first-seen order |
| `News.GroupPositions` | apps/ai-service/luna_workstation/dataflows/news_context_provider.py:730-735 | the group of a tag has the items at exactly the positions with that tag, in their order |
| `News.TagMeans` | apps/ai-service/luna_workstation/dataflows/news_context_provider.py:751-754 | an item is filed under listings if any of its tags says so, else under its first tag, else under its source category |
| `News.ClusterShows` | apps/ai-service/luna_workstation/dataflows/news_context_provider.py:735-746 | a cluster has the tag, one URL per item of its group in their order, and the headline of the earliest item of highest relevance |
| `News.BuildStoryClusters` | apps/ai-service/luna_workstation/dataflows/news_context_provider.py:730-748 | one cluster per tag with its count, URLs and lead, sorted by size |
| `News.SortKeeps` | apps/ai-service/luna_workstation/dataflows/news_context_provider.py:747-748 | the sort puts large clusters first, is stable and loses nothing |
| `News.ClusterCountsAddUp` | apps/ai-service/luna_workstation/dataflows/news_context_provider.py:730-748 | the article counts of the clusters add up to the number of items |
| `News.ClustersConserveItems` | apps/ai-service/luna_workstation/dataflows/news_context_provider.py:730-748 | every item is in exactly the cluster of its tag, and the counts add up to the number of items |
| `Debate.SetupGraph` | apps/ai-service/luna_workstation/graph/setup.py:236-347 | every node has one fixed edge or one branch, to exactly the intended successors |
| `Debate.RunFollowsAgenda` | apps/ai-service/luna_workstation/graph/conditional_logic.py:20-41 | the run follows the agenda exactly: alternating debate turns, rotating risk turns, no router answer outside the current edge map, then the scenario planner and the end |
| `Debate.TurnsPerRound` | apps/ai-service/luna_workstation/graph/conditional_logic.py:20-41 | with at least one round each: 2 turns per debate round, ending with the bear, 3 per risk round, ending with the neutral analyst |

## Left out

- Prompts, LLM clients, agent nodes and Markdown rendering: foreign calls; debate nodes appear through what they write to the counters and the last speaker.
- Failures inside graph nodes and the analyst fan-out before the first debate turn: the debate run starts when all analysts are done and assumes that nodes return.
- Regular expressions over prose (scenario plans, thesis fields, override terms, execution instructions, multi-timeframe scores, reason-code aliases): their results are inputs, as flags, codes or predicates.
- Non-ASCII case folding: `lower()` changes only A to Z here, except for the symbol comparison of the guard and the title normalisation of news, which are parameters.
- JSON serialisation and SHA-256 of the configuration hash: the model stops at the canonical value.
- Floats and dictionaries inside lists in the TOML writer: outside the domain where its output is meant to be read back.
- The Unicode table behind `str.isalnum` is a parameter of the TOML writer, and keys hold no lone surrogates.
- Concurrent provider switching and a failing switch callback: `on_provider_switched` runs outside the lock, so the coherence of the proxies is stated for sequential runs.
- LLM references that are not switchable proxies: `apply_provider_switch` would replace them, but the graph always builds proxies.
- The fallback model map: whether a provider has models is part of the build oracle.
- The rate limiter and the worker pool inside a call: `ProviderRuntime` sees only how an attempt ends; their own guarantees are stated in `RateLimiter` and `WorkerPool` for all interleavings.
- That a provider call ever ends: a running future counts as a step its call can take, but nothing forces it.
- Time zones, ISO parsing and printing, CSV reading and the date search of the audit: a library with three stated laws (printing is undone by parsing, for dates and instants, and text with outer spaces does not parse).
- The sets of disabled vendors and of tool categories, and `inspect.signature`: inputs of the routers.
- Messages of errors and issues beyond their codes, logging, tracing and events.
- Confidence values exactly between two roundable numbers: the code rounds binary floats, the model rounds the real number to the nearest even.
- Journal storage, `_refresh_price_sanity_notes`, risk notes and the reclassification of signals after the guard: text around the modelled fields.
- Truncation of news and clusters for the prompt, feed parsing and relevance scoring: scores are inputs.
- Pydantic coercion of candidates: a payload either parses to a candidate or does not.
- NestJS API, web application, Prisma, scripts: plumbing without a core of its own.
