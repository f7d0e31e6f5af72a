# platform_sdk: a verified model

A Dafny model of the parts of `platform_sdk` whose correctness does not show in any single function: the
configuration loader and its `.env.example` check, the circuit breaker with its three users (the OPA client, the
registry client, the tool cache), the reconnect loop and the schema resolver of the MCP bridge, the signed
`X-Agent-Context` header, and the service lifespan. `dafny verify dfyconfig.toml` verifies it.

| module | models |
|---|---|
| `Text` | `str.replace`, `str.split` and the reference expression, shared by the others |
| `Substitution` | `_substitute` on one string: the three passes, and the single scan they amount to |
| `ConfigTree`, `MergeLaws`, `DictEquality` | parsed trees, `_deep_merge`, and the laws of layering, with key order and without |
| `ConfigLoader` | phase 2 of `load_config` over a whole tree |
| `EnvExample` | `check-env-example`, and why it covers the loader |
| `CircuitBreakers` | the breaker, and its bound on calls to a failing backend |
| `OpaClients` | `OpaClient.authorize` |
| `RegistryClients` | `lookup` and the refresh loop, interleaved at the await points |
| `ToolCaches` | `ToolResultCache`, `make_cache_key` and `cached_tool`, interleaved at the await points |
| `McpBridges` | `_reconnect_loop`, `disconnect` and the tool closures, interleaved at the await points |
| `SchemaRefs` | `_resolve_field_python_type` |
| `Base64`, `FlatJson`, `AgentContexts` | `AgentContext`, its JSON, its base64 and its signed header |
| `Lifecycles` | `McpService.lifespan` with `_register` and `_deregister` |

Each imperative operation is a method of a class and is proved equal to a function on values; the theorems are
about those functions. What runs concurrently under asyncio is cut at its await points into events, and a run is any
sequence of enabled events, so a theorem about all runs covers all interleavings. Time is a real number on a
non-decreasing clock. Outcomes of HTTP, Redis, SSE and database calls are arbitrary inputs.

Where the code and its comments or documentation differ, the model follows the code:

- The reconnect delays are 2, 4, 8, 16, 32, 60, 60, ... seconds, not 1, 2, 4, ...: the failure is counted before the
  delay is computed (`McpBridges.FirstDelay`).
- A 404 from the registry touches neither the breaker nor the cache, even when a cached entry is still usable
  (`RegistryClients.NotFoundIff`).
- `authorize` asks the breaker once per call, not between retries (`OpaClients.TimeoutsUseEveryRetry`).
- The breaker's docstring promises a single probe after the recovery time; every call that asks before one fails is
  let through (`RegistryClients.ManyProbesAtOnce`), which `CircuitBreakers.InFlightBound` bounds.
- A keyword argument called `fn` replaces the tool's name in the cache key, so that calls of different tools can
  share an entry; so can calls with values that JSON renders alike (`ToolCaches.IncompatibleCallsBorrowResults`,
  `ToolCaches.FnArgumentCollides`, `ToolCaches.RenderedAlikeCollides`).
- The error check of a cached tool lets some exceptions of `json.loads` through, a plain `ValueError` for an integer of
  more than 4300 digits or a `RecursionError`: then the caller gets the exception in place of the result
  (`ToolCaches.CompatibleCallsAreTransparent`, `ToolCaches.LongIntegerIsSpoiled`).
- The header uses the standard base64 alphabet (section 4 of RFC 4648), not base64url as its docstring says.
- The sentinel of `_substitute` is said to be collision-free because YAML forbids NUL, but a double-quoted YAML scalar
  can hold one (`"\0"`). Exactly then the passes can differ from a scan (`Substitution.PassesAreScanIff`,
  `Substitution.NulTextIsEaten`).
- A header whose signature part is not ASCII raises `TypeError`, where `ValueError` is documented
  (`AgentContexts.VerifyTypeErrorIff`, `AgentContexts.AccentRaisesTypeError`); so do some signed payloads
  (`AgentContexts.TypeErrorIff`).
- A context whose texts have a high surrogate directly before a low one comes back with the two joined
  (`AgentContexts.HeaderRoundTrip`, `FlatJson.PairIsJoined`).
- A signed `user_role` that is false in Python but no text, such as `null`, is accepted as it is
  (`AgentContexts.RoleIsNoTextIff`, `AgentContexts.NullRoleIsKept`).
- A field whose `type` is a list or an object raises `TypeError`, unless it is reached through a `$ref`; a `$ref` that is
  no string raises `AttributeError`; a cyclic `$ref` raises `RecursionError` (`SchemaRefs.TypeErrorIff`,
  `SchemaRefs.AttributeErrorIff`, `SchemaRefs.RecursionErrorIffEndless`, with an instance of each).
- A cached value may have expired by the time a hit is returned; the time to live counts when Redis reads
  (`ToolCaches.HitMayExpireOnTheWay`).
- A client that is registered when entering a lifespan raises, or when its shutdown hook raises, is never closed
  once the service registers again (`Lifecycles.ConservedIff`, `Lifecycles.RaisingStartupStrands`).

## Model

| member | source | states |
|---|---|---|
| `Text.MatchIsPrefix` | platform_sdk/config/loader.py:26 | greedy matching of the reference expression finds a name at the head of a text if and only if the text begins with `${name}` for a legal name |
| `Substitution.FirstPassKeepsMatch` | platform_sdk/config/loader.py:161-174 | hiding the escapes neither creates nor destroys a reference that starts with an unescaped `$` |
| `Substitution.TwoPassesAreMarks` | platform_sdk/config/loader.py:160-174 | after two passes every token of the scan is in its place, with its escapes still sentinels, and the report is complete |
| `Substitution.ThirdPassExact` | platform_sdk/config/loader.py:175 | restoring the leftmost sentinels first gives what was meant exactly if no other text spells one |
| `Substitution.ReportIsScan` | platform_sdk/config/loader.py:163-172 | the report is that of the scan on every text, NULs included |
| `Substitution.PassesAreScanIff` | platform_sdk/config/loader.py:159-175 | on every text and environment, although occurrences of the sentinel can overlap, the three passes give the text of one left-to-right scan if and only if neither the text nor a value spells a sentinel that is no escape; the ordered report is that of the scan in any case |
| `Substitution.PassesAreScan` | platform_sdk/config/loader.py:159-175 | in particular on NUL-free text and values, which the sentinel was chosen for, text and report are those of the scan |
| `Substitution.NulTextIsEaten` | platform_sdk/config/loader.py:159-160 | three texts on which passes and scan differ: a sentinel written outright, one that ends in an escape, and one with a variable inside |
| `Substitution.EscapeRoundTripIff` | platform_sdk/config/loader.py:161-175 | doubling every `$` is undone, in every environment and without a report, if and only if the text has no `NUL DOLLAR` followed by a NUL or a `$` |
| `Substitution.EscapeRoundTrip` | platform_sdk/config/loader.py:161-175 | in particular any NUL-free text with every `$` doubled resolves to the original text, without a report, in every environment |
| `Substitution.ValueNotRescannedIff` | platform_sdk/config/loader.py:163-175 | after an even number of `$` a resolved value appears verbatim, even if it looks like a reference or an escape, and both sides scan as they would alone, exactly if no sentinel is written; the report is that of the two sides in any case |
| `Substitution.UnsetReferenceStays` | platform_sdk/config/loader.py:163-171 | an unset reference after an even number of `$` stays as it is written, and is reported between the reports of the two sides |
| `Substitution.ScanAroundEscaped` | platform_sdk/config/loader.py:161-174 | after an odd number of `$` the reference stays as it is written, less the last of them, and is not reported |
| `Substitution.ValueNotRescanned` | platform_sdk/config/loader.py:163-175 | in particular, among NUL-free text and values, what stands around a resolved value is what `_substitute` makes of it alone |
| `Substitution.UnsetMembers` | platform_sdk/config/loader.py:163-172 | a name is reported if and only if it is referred to and the environment lacks it |
| `ConfigTree.DeepMerge` | platform_sdk/config/loader.py:138-146 | the loop over the overlay computes `Merge`, whose laws are the rows below |
| `ConfigTree.MergeLookup` | platform_sdk/config/loader.py:138-146 | every key of a merged mapping is decided on its own: by the overlay if it has the key, merging where both values are mappings, else by the base |
| `ConfigTree.MergeKeys` | platform_sdk/config/loader.py:140-146 | the merged keys are the base keys in their order, then the new overlay keys in theirs |
| `ConfigTree.WellFormedMerge` | platform_sdk/config/loader.py:138-146 | merging mappings without duplicate keys gives such a mapping, at every depth |
| `MergeLaws.PathLaw` | platform_sdk/config/loader.py:138-146 | at every path: two mappings merge, any other overlay node wins, and a base node survives exactly where the overlay has neither a node nor a non-mapping ancestor |
| `MergeLaws.BlockedMeans` | platform_sdk/config/loader.py:138-146 | the blocking condition of the path law says that some proper prefix of the path holds a non-mapping |
| `MergeLaws.Idempotent` | platform_sdk/config/loader.py:138-146 | applying an overlay twice is applying it once, key order included |
| `MergeLaws.DefaultIsIrrelevantIff` | platform_sdk/config/loader.py:138-146 | at every path, a default may be replaced by another node without changing the merge if and only if the path law gives the same for both: the overlay has a non-mapping there or above, or makes the same mapping of both |
| `MergeLaws.CoversIff` | platform_sdk/config/loader.py:138-146 | laying `z` over `x` gives `z` itself if and only if the keys of `x` come first in `z`, in order, and inner mappings are covered likewise |
| `MergeLaws.AssociativeIff` | platform_sdk/config/loader.py:138-146 | merging three layers is associative, key order included, if and only if nowhere does the middle layer replace a mapping of the first by a non-mapping while the third brings back a mapping that does not cover the first |
| `DictEquality.AssociativeAnyOrderIff` | platform_sdk/config/loader.py:138-146 | the two groupings are equal as dicts if and only if no such third mapping lacks a key of the first, at any depth |
| `DictEquality.IncludesIff` | platform_sdk/config/loader.py:138-146 | laying `z` over `x` gives a dict equal to `z` if and only if every key of `x` is a key of `z`, at every depth where both are mappings |
| `DictEquality.OnlyTheOrderDiffers` | platform_sdk/config/loader.py:138-146 | three layers whose groupings are equal as dicts and list their keys in different orders |
| `MergeLaws.NoClashAssociates` | platform_sdk/config/loader.py:138-146 | merging is associative if at no path the middle layer has a non-mapping where both outer layers have mappings |
| `MergeLaws.NotAssociative` | platform_sdk/config/loader.py:138-146 | a concrete triple of layers where grouping matters |
| `ConfigLoader.Substitute` | platform_sdk/config/loader.py:149-157 | the walk keeps the shape of the tree, keys and their order, lengths and other scalars, resolves every string in it, and appends its reports to the shared list, keeping what was there |
| `ConfigLoader.SubstituteRelates` | platform_sdk/config/loader.py:149-175 | the tree after the walk is the tree before it with each string, at any depth and in lists too, replaced by what the three passes make of it, and nothing else changed |
| `ConfigLoader.ResolvedIsScannedIff` | platform_sdk/config/loader.py:149-175 | such a tree is the scanned tree if and only if no string in it spells a sentinel that is no escape |
| `ConfigLoader.LoadMerged` | platform_sdk/config/loader.py:93-113 | which error is raised and when: base not a mapping, then overlay not a mapping, then exactly the unset references of the merge, if there are any; otherwise the tree returned is the merge with every string resolved |
| `ConfigLoader.ReportsExact` | platform_sdk/config/loader.py:107-113 | for every tree and environment the report is the depth-first, in-order list of the unset references of the tree with duplicates kept: no missing name hides another |
| `ConfigLoader.RaisesIffUnset` | platform_sdk/config/loader.py:109-113 | for every tree and environment phase 2 raises if and only if some reference anywhere in the tree is unset |
| `ConfigLoader.SubstituteKeepsKeys` | platform_sdk/config/loader.py:151-152 | substitution keeps the keys of a mapping and their order, and acts on each value alone |
| `ConfigLoader.SubstituteMerge` | platform_sdk/config/loader.py:104-108 | substituting the merge of two trees equals merging the two substituted trees |
| `ConfigLoader.OverrideReportsNoMore` | platform_sdk/config/loader.py:142-145 | a merged value reports no more, counted with multiplicity, than the two values it comes from |
| `ConfigLoader.MergeReportsNoMore` | platform_sdk/config/loader.py:104-108 | the reports of the merged tree are a sub-multiset of those of its two layers |
| `ConfigLoader.MergedReferencesIff` | platform_sdk/config/loader.py:104-113 | the merge refers to a name if and only if the overlay does, or a base node does at a path where the overlay has no node and only mappings above: no reference of an overridden default is reported, and no other is lost |
| `EnvExample.ScanYamlVars` | platform_sdk/cli/main.py:87-95 | the set found holds exactly the names that the scan finds in some file |
| `EnvExample.FindAllComplete` | platform_sdk/cli/main.py:94 | leftmost non-overlapping matching misses no occurrence of any reference |
| `EnvExample.FindAllIff` | platform_sdk/cli/main.py:94 | the names found are exactly the legal names with a reference somewhere in the text |
| `EnvExample.ResolvedIff` | platform_sdk/config/loader.py:161-174 | the loader resolves exactly the references with an even number of `$` directly before them |
| `EnvExample.DeletedIff` | platform_sdk/cli/main.py:93 | deleting the leftmost `$$` takes the dollar of a reference exactly if an odd number of `$` is directly before it |
| `EnvExample.KeptIsFound` | platform_sdk/cli/main.py:93-94 | every reference whose dollar is not deleted is found |
| `EnvExample.LoaderReferencesRemain` | platform_sdk/cli/main.py:92-93 | every reference that the loader would resolve in a text is still there after all `$$` are deleted |
| `EnvExample.DeletedInTextIff` | platform_sdk/cli/main.py:93 | a reference that the loader resolves in a scalar is deleted from a text around it if and only if nothing but `$` is before it in the scalar and an odd number of `$` directly before the scalar; what follows does not matter |
| `EnvExample.StandsIff` | platform_sdk/cli/main.py:93 | the condition of the next row holds exactly if no reference of the scalar is deleted |
| `EnvExample.ScanCoversScalar` | platform_sdk/cli/main.py:87-95 | the scan of a file finds every variable that the loader resolves in a scalar standing verbatim in it, unless the scalar begins with a reference after an odd number of `$` |
| `EnvExample.DollarNeighbourHides` | platform_sdk/cli/main.py:93 | in the text of an escaped reference, `$` and then `${NAME}`, the scan finds nothing |
| `EnvExample.ParseEnvExample` | platform_sdk/cli/main.py:98-110 | the keys are exactly those that some line declares; blank lines, comments and lines without `=` declare none |
| `EnvExample.KeyOfIff` | platform_sdk/cli/main.py:101-109 | a line declares a key if and only if it is the key between blanks, an equals sign and anything, and the key is not empty, has no `=` and does not begin with `#` |
| `EnvExample.DeclarationParses` | platform_sdk/cli/main.py:101-109 | writing `key = value` and parsing the line gives the key back, for every padding and value |
| `EnvExample.CommentsDeclareNothing` | platform_sdk/cli/main.py:102-104 | a blank line or a comment, even one with a declaration in it, declares no key |
| `EnvExample.CheckEnvExample` | platform_sdk/cli/main.py:126-142 | missing: referenced and not documented; unreferenced: documented, not referenced and not provided at run time |
| `EnvExample.PassingCheckMeansResolved` | platform_sdk/cli/main.py:131-142 | if the check finds nothing missing and every documented key is set, phase 2 of the loader reports no error for the files layered, whatever characters they hold |
| `CircuitBreakers.CircuitBreaker.Open` | platform_sdk/resilience.py:68-76 | open if and only if the threshold is reached and the recovery time has not passed |
| `CircuitBreakers.CircuitBreaker.RecordSuccess` | platform_sdk/resilience.py:83-87 | resets the count and keeps the recovery deadline |
| `CircuitBreakers.CircuitBreaker.RecordFailure` | platform_sdk/resilience.py:89-93 | counts, and from the threshold on moves the deadline |
| `CircuitBreakers.OpensIff` | platform_sdk/resilience.py:68-99 | after a success and any failures the breaker is open if and only if the failures reach the threshold and the recovery time since the last has not passed |
| `CircuitBreakers.CallSpends` | platform_sdk/resilience.py:68-99 | every call that is let through uses up at least as much of a potential as it makes requests |
| `CircuitBreakers.FailingCallsBound` | platform_sdk/resilience.py:68-99 | from any state, sequential failing calls of at most m attempts starting in a window of length T make at most (threshold - 1) + m(1 + floor(T / recovery)) requests |
| `CircuitBreakers.SinglesBound` | platform_sdk/resilience.py:68-99 | with one request a call the bound is threshold + floor(T / recovery) |
| `CircuitBreakers.InFlightBound` | platform_sdk/resilience.py:68-99 | with up to k calls of one request in flight at once, in any order of beginnings and failures and from any state, at most (threshold - 1) + k(1 + floor(T / recovery)) begin in a window of length T |
| `CircuitBreakers.BoundAttained` | platform_sdk/resilience.py:68-99 | for every configuration and window some run from a closed breaker makes exactly that many requests |
| `OpaClients.OpaClient.Authorize` | platform_sdk/security.py:105-157 | the retry loop returns the verdict, makes the number of requests and leaves the breaker state of `Authorized`, about which the rows below speak |
| `OpaClients.SettledVerdict` | platform_sdk/security.py:117-148 | a call ends at the first attempt that is neither a timeout nor another error: a decision, a denial too, is the answer and resets the count, an HTTP error denies and is counted with the failures before it |
| `OpaClients.ExhaustedVerdict` | platform_sdk/security.py:131-157 | without such an attempt every retry is made and counted, and access is denied |
| `OpaClients.DecisionClosesBreaker` | platform_sdk/security.py:123-129 | after a decision, whichever way it went, the breaker is open at no time |
| `OpaClients.AllowedIff` | platform_sdk/security.py:105-157 | access is granted if and only if the breaker is not open and, after nothing but timeouts and other errors, one of the allowed attempts returns a truthy result; it is then the last attempt and the failure count is 0 |
| `OpaClients.TimeoutsUseEveryRetry` | platform_sdk/security.py:117-151 | once let through, timeouts use every retry whatever happens to the breaker meanwhile |
| `OpaClients.AuthorizeBound` | platform_sdk/security.py:95-157 | sequential failing `authorize` calls starting in a window of length T send at most (threshold - 1) + m(1 + floor(T / recovery)) requests |
| `OpaClients.AuthorizeBoundAttained` | platform_sdk/security.py:95-157 | for every configuration and window some failing calls, their retries at once, send exactly that many requests |
| `OpaClients.CallerCannotStamp` | platform_sdk/security.py:110-115 | `tool`, `environment` and `agent_role` arrive with the values of the server, payloads that differ only there ask the same question, and every other field arrives as given |
| `RegistryClients.RegistryClient.BeginLookup` | platform_sdk/registry/client.py:103-113 | a lookup up to its fetch: what it read from the cache, and the answer if none is needed; nothing changes |
| `RegistryClients.RegistryClient.FinishLookup` | platform_sdk/registry/client.py:112-139 | a lookup from its fetch on, response by response: a 404 raises and changes nothing; a valid body is returned and cached and resets the count; an invalid one raises and changes nothing; everything else is one more failure and falls back on the entry read at the start |
| `RegistryClients.FinishByResponse` | platform_sdk/registry/client.py:112-139 | the same of the specification that the theorems use |
| `RegistryClients.RegistryClient.RefreshTick` | platform_sdk/registry/client.py:208-224 | one refresh writes the listed services up to the first that does not validate, and leaves the breaker alone |
| `RegistryClients.RefreshedExactly` | platform_sdk/registry/client.py:213-220 | after a refresh a name has the last entry listed for it before the first that does not validate, fetched now, or else what it had |
| `RegistryClients.StalenessBound` | platform_sdk/registry/client.py:30-39 | in every interleaving of lookups and refreshes cached names never disappear, fetch times never go back, and every answer was fetched in that call or was, when checked, younger than the larger of the two age limits |
| `RegistryClients.AvailableAtOnce` | platform_sdk/registry/client.py:103-127 | a lookup answered without a fetch, breaker open or not, finds an entry if the name was fetched less than the stale limit before |
| `RegistryClients.AvailableAfterFetch` | platform_sdk/registry/client.py:103-139 | a lookup that begins after a fetch of its name and ends less than the stale limit after it finds an entry, whatever runs in between, unless the registry answers 404 or an invalid body |
| `RegistryClients.EarlierLookupMisses` | platform_sdk/registry/client.py:104-117 | beginning after the fetch is needed: an earlier lookup can raise ServiceNotFound with a fresh entry in the cache |
| `RegistryClients.FetchBound` | platform_sdk/registry/client.py:103-121 | sequential lookups whose fetches all fail, starting in a window of length T, fetch at most 5 + floor(T / 30) times from any state |
| `RegistryClients.FetchBoundInFlight` | platform_sdk/registry/client.py:103-121 | in every interleaving of lookups and refreshes with up to k fetches under way, all failing, at most 4 + k(1 + floor(T / 30)) fetches begin in a window of length T |
| `RegistryClients.ManyProbesAtOnce` | platform_sdk/registry/client.py:108-113 | once the recovery time is over any number of lookups is let through together |
| `ToolCaches.PayloadsCollideIff` | platform_sdk/cache.py:196-204 | two calls have the same key payload if and only if all arguments other than `fn` are rendered alike and so are the `fn` arguments, or the tool names where those are absent |
| `ToolCaches.PayloadIdentifiesCall` | platform_sdk/cache.py:202 | without an argument `fn`, and where no other value is rendered like one of theirs, equal payloads mean the same tool and arguments |
| `ToolCaches.ToolResultCache.BeginCommand` | platform_sdk/cache.py:73 | Redis is asked if and only if there is one and the breaker is not open |
| `ToolCaches.ToolResultCache.EndGet` | platform_sdk/cache.py:75-86 | a failure reads as a miss; every other reply, miss included, closes the breaker |
| `ToolCaches.ToolResultCache.EndSet` | platform_sdk/cache.py:92-98 | a failed write only counts against the breaker |
| `ToolCaches.StepKeepsInv` | platform_sdk/cache.py:234-248 | every step of a cached call, its cancellation, and every late or lost read or write keep that stored values are checked results, keyed by their call, that answers on the way were alive when read, and that finished calls ended as they should; an exception of the error check or of the key is such an end |
| `ToolCaches.OnlyCacheableIsSent` | platform_sdk/cache.py:241-248 | a result is sent to Redis exactly if it neither begins with "ERROR:" nor parses as an error and Redis is asked; every other result ends the call |
| `ToolCaches.CompatibleCallsAreTransparent` | platform_sdk/cache.py:207-251 | if calls that share a payload share their result, then in every interleaving, whatever Redis and the breaker do, a call ends with the result of the uncached tool if and only if neither making its key nor checking its result raises in its place; and no error response is ever stored |
| `ToolCaches.CacheIsTransparent` | platform_sdk/cache.py:207-251 | without arguments called `fn` and with values that are rendered apart that holds for all tools, and every hit was stored by the same tool with the same arguments, and read by Redis during the call and less than the time to live later |
| `ToolCaches.HitMayExpireOnTheWay` | platform_sdk/cache.py:75-80 | no more holds: for every cacheable call there is a run that returns a hit after its time to live |
| `ToolCaches.UncheckableIsSpoiled` | platform_sdk/cache.py:243-246 | for every call whose result cannot be checked there is a run in which it ends with the exception of the check |
| `ToolCaches.LongIntegerIsSpoiled` | platform_sdk/cache.py:245 | a tool that returns 4301 ones is answered with `ValueError` |
| `ToolCaches.IncompatibleCallsBorrowResults` | platform_sdk/cache.py:202 | that compatibility is needed: for any two calls with one payload and different results there is a run in which one returns the result of the other |
| `ToolCaches.CommandBound` | platform_sdk/cache.py:71-98 | sequential commands that all fail, starting in a window of length T, reach Redis at most 5 + floor(T / 30) times from any breaker state, and never without a Redis |
| `McpBridges.McpToolBridge.Resume` | platform_sdk/mcp_bridge.py:385-440 | the loop from one await to the next, for every outcome of the awaited operation: result, exception, cancellation, and an exit stack that swallows the exception in flight |
| `McpBridges.McpToolBridge.LeaveTry` | platform_sdk/mcp_bridge.py:410-440 | the except and finally clauses: only failures are counted, the session is cleared on every way out, cancellation and stop end the loop |
| `McpBridges.CancellationEnds` | platform_sdk/mcp_bridge.py:410-411 | a cancellation ends the loop, at once between attempts and otherwise after the exit stack, unless that swallows it |
| `McpBridges.FailureIsCounted` | platform_sdk/mcp_bridge.py:413-440 | a failure anywhere in an attempt is counted once, clears the session and leads to a backoff |
| `McpBridges.McpToolBridge.Disconnect` | platform_sdk/mcp_bridge.py:507-508 | sets the stop event and touches nothing else |
| `McpBridges.SessionSafety` | platform_sdk/mcp_bridge.py:385-442 | in every run there is no session before the first attempt, while backing off, waiting for streams or ended, and every tool call that is dispatched, however old its closure, goes to the session opened by the current attempt |
| `McpBridges.ScheduleClosedForm` | platform_sdk/mcp_bridge.py:430 | the delays of n consecutive failures add up to 2^(n+1) - 2 seconds for n up to 5, and to 62 + 60(n - 5) beyond |
| `McpBridges.BackoffSchedule` | platform_sdk/mcp_bridge.py:413-440 | in every run, when an attempt begins after n counted failures, exactly that many one-second slices were slept since the last success, and the delays that followed a swallowed exception; a backoff never sleeps longer than its delay |
| `McpBridges.UncountedIff` | platform_sdk/mcp_bridge.py:387-414 | the closed form is exact if and only if the exit stack swallowed no exception since the last success |
| `McpBridges.FirstDelay` | platform_sdk/mcp_bridge.py:414-430 | the first backoff takes two seconds |
| `McpBridges.SuccessResetsBackoff` | platform_sdk/mcp_bridge.py:403 | after a successful connection the next failure waits two seconds, whatever came before |
| `McpBridges.StopTerminates` | platform_sdk/mcp_bridge.py:385-442 | once stop is set no new attempt starts, at most four wakeups remain, the loop can always take the next one, and then it has ended |
| `McpBridges.EndsOnlyOnRequest` | platform_sdk/mcp_bridge.py:385-442 | without a cancellation the loop never ends unless stop is set |
| `McpBridges.ModelCannotChooseSession` | platform_sdk/mcp_bridge.py:254-268 | with a trusted session id and a signed-in user the trusted values are sent, calls that differ only in `session_id` and `auth_context` send the same arguments, and all others arrive as given |
| `SchemaRefs.FollowIsChain` | platform_sdk/mcp_bridge.py:138-144 | following a pointer, measured by the pointers not yet seen, agrees with the relation that says where a chain of references ends |
| `SchemaRefs.TargetIff` | platform_sdk/mcp_bridge.py:138-143 | a pointer leads to a node if and only if its names, from the first to the last, lead there from the root through objects; otherwise it is unresolvable |
| `SchemaRefs.HashPointerIff` | platform_sdk/mcp_bridge.py:139 | likewise for the names written after `#/` |
| `SchemaRefs.RecursionErrorIffEndless` | platform_sdk/mcp_bridge.py:127-180 | resolution raises RecursionError if and only if the chain of references never ends, and otherwise terminates |
| `SchemaRefs.ResolvesToChainEnd` | platform_sdk/mcp_bridge.py:127-180 | a chain that ends resolves to the type at its last node; a TypeError raised behind a reference becomes `dict` |
| `SchemaRefs.TypeErrorIff` | platform_sdk/mcp_bridge.py:138-169 | TypeError leaves the function exactly for a field without a followed `$ref` on which `in` or indexing is undefined or whose `type` is a list or an object; behind a reference it never does |
| `SchemaRefs.AttributeErrorIff` | platform_sdk/mcp_bridge.py:138-168 | AttributeError leaves it exactly if the chain of references ends at an object with a non-string `$ref` or at a list or string without `get` |
| `SchemaRefs.LoopRaisesRecursionError` | platform_sdk/mcp_bridge.py:138-144 | a definition that refers to itself raises RecursionError |
| `SchemaRefs.NumericRefRaisesAttributeError` | platform_sdk/mcp_bridge.py:139 | a reference that is a number raises AttributeError in every schema |
| `SchemaRefs.TypeListRaisesTypeError` | platform_sdk/mcp_bridge.py:168-169 | a field whose `type` is a list raises TypeError in every schema |
| `SchemaRefs.PlainTypeIsFound` | platform_sdk/mcp_bridge.py:138-180 | a chain of references that ends at an object with a plain `type` resolves to the Python type of that name, and to no other |
| `SchemaRefs.CombinatorIsDict` | platform_sdk/mcp_bridge.py:156-166 | a chain that ends at an object with `allOf`, `anyOf` or `oneOf` resolves to `dict`, whatever else it has |
| `SchemaRefs.NoTypeIsStr` | platform_sdk/mcp_bridge.py:168-179 | without a type, or with one that is null, a number or a boolean, it resolves to `str` |
| `SchemaRefs.DanglingIsDict` | platform_sdk/mcp_bridge.py:145-153 | a chain that ends at an unresolvable pointer resolves to `dict` |
| `SchemaRefs.DefinitionIsFound` | platform_sdk/mcp_bridge.py:138-144 | `#/$defs/Address` resolves to the type of that definition |
| `SchemaRefs.TypeListCrashesOnlyDirectly` | platform_sdk/mcp_bridge.py:145-169 | a list of types raises TypeError on the field itself and gives `dict` behind a reference |
| `Base64.DecodeEncode` | platform_sdk/auth.py:206 | decoding undoes encoding at every length and padding |
| `Base64.EncodeHasNoDot` | platform_sdk/auth.py:206-208 | the encoding never contains the separator of the header |
| `Base64.Vectors` | platform_sdk/auth.py:206 | the encoding agrees with section 10 of RFC 4648 and uses `+` and `/` |
| `FlatJson.RoundTrip` | platform_sdk/auth.py:206 | parsing undoes printing for every text of code points in keys and values, lone surrogates included, except that a high surrogate directly before a low one is joined with it |
| `FlatJson.RoundTripIff` | platform_sdk/auth.py:206 | it comes back unchanged if and only if there is no such pair |
| `FlatJson.PairIsJoined` | platform_sdk/auth.py:206 | the two surrogates of an emoji come back as one character |
| `FlatJson.PrintPrintable` | platform_sdk/auth.py:206 | what is printed is printable ASCII, one byte a character |
| `AgentContexts.ConstructedIsValid` | platform_sdk/auth.py:179-185 | normalisation at construction is idempotent, on whatever field values a header delivers |
| `AgentContexts.ConstructedFields` | platform_sdk/auth.py:179-185 | a constructor call fails exactly for a non-empty list or object as role; otherwise the role is the one given if it is one of the three or counts as none, and none if not; an empty clearance becomes `standard`; every other field is as given |
| `AgentContexts.AcceptedFields` | platform_sdk/auth.py:218-229 | the same for the fields of an accepted header, with the defaults of those that are missing |
| `AgentContexts.AcceptedIffSigned` | platform_sdk/auth.py:104-131 | a payload is accepted if and only if the header is that payload without dots, one dot, and its signature under the current or the previous secret |
| `AgentContexts.VerifyTypeErrorIff` | platform_sdk/auth.py:114-129 | verification raises TypeError, where ValueError is promised, exactly for two segments of which the second is not ASCII |
| `AgentContexts.TypeErrorIff` | platform_sdk/auth.py:210-229 | TypeError leaves `from_header` exactly in that case, or for a signed object whose tuples are not iterable or whose user role is a non-empty list or object |
| `AgentContexts.AccentRaisesTypeError` | platform_sdk/auth.py:114-121 | a header with an accented letter for a signature raises TypeError in every environment |
| `AgentContexts.StrictReads` | platform_sdk/auth.py:206-219 | strict base64 and the parser of `FlatJson` read every dictionary that is encoded, with surrogate pairs joined |
| `AgentContexts.HeaderAcceptedIff` | platform_sdk/auth.py:201-229 | a header signed in one environment comes back in another, under every decoder that reads what contexts are written in, as the same context with surrogate pairs joined if and only if its signature is one of the two valid there, and raises ValueError otherwise |
| `AgentContexts.HeaderRoundTrip` | platform_sdk/auth.py:201-229 | a context comes back unchanged from its own header if and only if none of its texts has a high surrogate directly before a low one |
| `AgentContexts.HeaderSurvivesRotation` | platform_sdk/auth.py:119-129 | likewise after rotation while the non-empty old secret is configured as the previous one |
| `AgentContexts.EmptySecretDoesNotRotate` | platform_sdk/auth.py:66-67 | an empty secret cannot be rotated out: its headers are refused at once |
| `Lifecycles.McpService.constructor` | platform_sdk/base/mcp_service.py:45-50 | a new service holds what was injected and owns nothing |
| `Lifecycles.McpService.Enter` | platform_sdk/base/mcp_service.py:110-147 | entering a lifespan: what is registered, created, owned and held, and whether it raises, for a fault at any of its steps |
| `Lifecycles.McpService.Leave` | platform_sdk/base/mcp_service.py:151-175 | leaving one: the hook, the deregistration, then the teardown, each skipped if what precedes it raises |
| `Lifecycles.McpService.TearDown` | platform_sdk/base/mcp_service.py:158-175 | closes and drops the owned resources and leaves the others |
| `Lifecycles.McpService.Register` | platform_sdk/base/application.py:67-99 | the four ways through: no registry, no own URL, the registry itself, and a new client, which is kept even if its registration raises |
| `Lifecycles.StripSlashesIs` | platform_sdk/base/application.py:71-76 | trailing slashes are taken off, all of them and nothing else |
| `Lifecycles.McpService.Deregister` | platform_sdk/base/application.py:101-111 | the tasks are stopped, and the client is closed and dropped whether or not the DELETE raises |
| `Lifecycles.Conservation` | platform_sdk/base/mcp_service.py:110-175 | over any number of lifespans whose hooks do not raise every resource created was closed exactly once or, where deregistration raised before the teardown, is still held once and open; nothing else was closed; no client and no task is left |
| `Lifecycles.AllClosedAfterCleanExit` | platform_sdk/base/mcp_service.py:158-175 | after a clean exit every resource ever created was closed exactly once and nothing else was |
| `Lifecycles.InjectedAreKept` | platform_sdk/base/mcp_service.py:158-175 | injected resources are neither replaced nor closed |
| `Lifecycles.OneTaskEach` | platform_sdk/registry/client.py:170-237 | while a lifespan is open its client has at most one heartbeat and one refresh task, and no other client has any |
| `Lifecycles.EnteredProvides` | platform_sdk/base/mcp_service.py:110-147 | entering raises exactly for the listed faults; otherwise everything configured is there, what was there is unchanged, and a client that is due is new and has both its tasks |
| `Lifecycles.RegistrationLosesIff` | platform_sdk/base/application.py:89 | registration loses a client if and only if one is still held when a new one is made |
| `Lifecycles.ConservedIff` | platform_sdk/base/mcp_service.py:110-175 | with every step free to raise, conservation holds if and only if no lifespan but the last leaves a client behind |
| `Lifecycles.RaisingStartupStrands` | platform_sdk/base/mcp_service.py:110-156 | after a startup hook that raised, the next lifespan of a registering service loses the first client |

## Corollaries and instances

Beside the theorems of the table, these follow from one definition or one theorem:

- `MergeLaws.OverriddenDefaultIsIrrelevant` (platform_sdk/config/loader.py:138-146): under a non-mapping overlay value the base value may be replaced by any other without changing the result.
- `RegistryClients.NotFoundIff` (platform_sdk/registry/client.py:112-139): a lookup that fetched raises ServiceNotFound if and only if the registry answers 404, or the fetch fails and the entry read at the start is missing or too old; a 404 changes nothing, an entry closes the breaker, a failure at the threshold opens it for exactly the recovery time.
- `ToolCaches.FnArgumentCollides` (platform_sdk/cache.py:202): a call with `fn` naming another tool has the payload of that tool called without arguments.
- `McpBridges.McpToolBridge.Invoke` (platform_sdk/mcp_bridge.py:241-249): a tool closure, however old, goes to the session that is live when it is called, or nowhere.
- `AgentContexts.AcceptedIsValid` (platform_sdk/auth.py:179-229): whatever header is accepted, by however lax a decoder, the context has a clearance, a user role that is known or counts as none, and is already normalised.
- `AgentContexts.RoleIsNoTextIff` (platform_sdk/auth.py:184-185): the user role of an accepted context is no text if and only if the signed one counts as false in Python and is no text; it is then kept.
- `AgentContexts.NullRoleIsKept` (platform_sdk/auth.py:184-185): a signed object whose user role is `null` gives a context with that role.
- `Lifecycles.ClientLeftBehindIff` (platform_sdk/base/mcp_service.py:110-156): a lifespan leaves a client behind if and only if it made one and then its entry or its shutdown hook raised.
- `ToolCaches.RenderedAlikeCollides` (platform_sdk/cache.py:202): calls that differ in two values rendered alike, such as a date and its text, have the same payload.
- `OpaClients.OpenVerdict` (platform_sdk/security.py:106-108): while the breaker is open nothing is asked and nothing changes.
- `AgentContexts.UnknownRoleIsNone` (platform_sdk/auth.py:184-185): the role `editor` becomes none.
- `AgentContexts.TuplesAre` (platform_sdk/auth.py:225-226): the tuple of a list, of a text and of an object.
- `AgentContexts.SignedWith` (platform_sdk/auth.py:49-56): which secret a header is signed with.
- `FlatJson.EscapesAre`, `FlatJson.TwoMembersPrint` (platform_sdk/auth.py:206): the short escapes, and the comma between members.

Step by step, in terms of the source alone:

- `Text.NameExamples` (platform_sdk/config/loader.py:26): which names are legal: upper-case letters, underscores, and digits that do not come first.
- `RegistryClients.BeginByCases` (platform_sdk/registry/client.py:103-113): a fetch is made exactly if there is no young entry and the breaker is not open; otherwise the young entry, or a stale one that is still usable, or ServiceNotFound.
- `ToolCaches.ReplyCloses` (platform_sdk/cache.py:75-98): a reply closes the breaker at all times, and the fifth failure in a row opens it for exactly 30 seconds.
- `ToolCaches.CallStep` (platform_sdk/cache.py:73-76): a call asks Redis first if there is one and the breaker is not open, and runs the tool otherwise.
- `ToolCaches.GotStep` (platform_sdk/cache.py:75-86): a failed GET counts, a miss and a hit close the breaker; a hit is returned, and otherwise the tool runs.
- `ToolCaches.AckedStep` (platform_sdk/cache.py:90-98): the result is returned whether or not it could be stored, which only the breaker counts.
- `ToolCaches.SpoiledIff` (platform_sdk/cache.py:202-245): an exception takes the place of a result exactly if the payload cannot be rendered or the text, not beginning with "ERROR:", cannot be parsed without one.
- `McpBridges.SentArgumentsAre` (platform_sdk/mcp_bridge.py:254-268): the arguments sent, for every tool and user: the session id of the bridge before that of the context, an empty one counting as absent, and none for a tool that declares no `session_id`.
- `McpBridges.SwallowedFailureWaitsOneSecond` (platform_sdk/mcp_bridge.py:430): after a success whose failure is swallowed the loop waits one second.
- `Base64.AlphabetIs` (platform_sdk/auth.py:206): the alphabet of section 4 of RFC 4648, in order.
- `Base64.GroupsSpellBits` (platform_sdk/auth.py:206): the characters of a group spell the bits of its bytes from the first to the last, with zeros at the end.
- `FlatJson.UnicodeEscapesAre` (platform_sdk/auth.py:206): characters outside ASCII are escaped in lower-case hex, those beyond 16 bits as two surrogates.
- `FlatJson.PrintIs` (platform_sdk/auth.py:206): the brackets and separators of the print.
- `Lifecycles.DeregisteredIs` (platform_sdk/base/application.py:101-111): dropping the client ends its tasks and closes it once more, and changes nothing else.
- `Lifecycles.TornDownIs` (platform_sdk/base/mcp_service.py:158-175): after the teardown nothing owned is held, everything else still is, and the client is not touched.
- `Lifecycles.LeftByFault` (platform_sdk/base/mcp_service.py:151-175): a raising shutdown hook skips everything after it; a raising deregistration stops the tasks and closes and drops the client but skips the teardown; otherwise both are done.
- `Lifecycles.RegisteredBy` (platform_sdk/base/application.py:67-99): registration raises exactly without an own URL or if the request fails, which keeps the new client without tasks; it closes nothing.
- `Lifecycles.RegistersIff` (platform_sdk/base/application.py:71-87): a service registers exactly if both addresses, less their trailing slashes, are there and differ.

## Left out

- HTTP, Redis, SSE, AnyIO and asyncpg: only their outcomes appear, as arbitrary inputs. Logging, metrics and telemetry change no state.
- YAML parsing and Pydantic validation (phases 1 and 3 of the loader): the model starts from parsed trees with string keys and no aliases, and ends before validation. That a scalar stands verbatim in its file is a hypothesis of `EnvExample.PassingCheckMeansResolved`.
- Splitting `.env.example` into lines: the lines are inputs.
- SHA-256 and HMAC-SHA256: arbitrary functions. Injectivity is a hypothesis of the cache theorems, lower-case hex digits one of the header theorems.
- JSON rendering of cache keys: an arbitrary function of each value, and an arbitrary exception of a payload; the digest is taken of the map of rendered values, whose own rendering is part of its injectivity.
- `FlatJson.RoundTrip`: printing and parsing cover the values that a context has, texts and lists of texts.
- `AgentContexts.HeaderAcceptedIff`: what `b64decode` and `json.loads` make of other payloads is a parameter: any decoder that reads what is encoded. The parser of `FlatJson` shows that there is one, and models `json.loads` on such texts only. Running out of stack in deeply nested JSON is not modelled.
- `SchemaRefs.ResolvesToChainEnd`: Python's recursion limit also stops a long chain that ends; here only endless chains raise RecursionError.
- `OpaClients.AuthorizeBound`: concurrent calls, and cancellation of a call; the bound is for calls one after the other. It holds for every `retry_backoff`, and is attained for 0; the smaller bound that a positive one gives is not stated.
- `RegistryClients.StalenessBound`: a cancelled lookup, which changes nothing; and `lookup` during a refresh write, which has no await point.
- `ToolCaches.CacheIsTransparent`: tools whose result depends on anything but their arguments, and two tools of the same `__name__`; a tool returns text.
- `McpBridges.McpToolBridge.Resume`: calling `connect` a second time, which replaces the events under a running loop; the startup timeout of `connect`; exceptions outside `Exception` other than cancellation.
- `Lifecycles.Conservation`: a resource's own `aclose` raising, a constructor or the secrets check raising, and overlapping lifespans; `run_with_registration`, which registers a second time.
- Closing of resources without `aclose` or `close`: every resource is taken to have one.
- Tool calls after the arguments are built (timeouts, result text), `_build_args_model`, prompts and their cache.
- Row filters, column masks, SQL quoting, configuration models, templates, JWT decoding.
- `compaction.py` and `agent.py`, whose behaviour rests on a library function; the registry server, which is not part of this repository.
