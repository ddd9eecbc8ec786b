# Provider failover in the bytebot agent, in Dafny

The bytebot agent module builds a fallback service over its four provider
clients (packages/bytebot-agent/src/agent/agent.module.ts:46-52). At
construction the service builds a *fallback chain* from the configuration
and from that registry of provider clients. The chain runs proxy (Ollama
behind LiteLLM), then Google Gemini, Anthropic and OpenAI; each provider
appears only when its client is registered and, unless it is the proxy, its
API key is set.

A request may name a model. That name is first resolved to a chain entry:
- an entry whose model equals the name, or whose provider id occurs in it;
- failing that, the first keyword group that occurs in the name picks a
  provider.

The resolved entry is called once with the requested name. Any failure of
that call falls through to the chain. The chain walk then calls each entry
with its own model:
- the first response is returned;
- an interrupt is rethrown;
- any other error is recorded as `provider: message`;
- when every entry has failed, one error joins all the records.

The model also covers two endpoints of the tasks controller:
- `GET /tasks` normalises its query (page, limit, status filter);
- `GET /tasks/models` lists the selectable models: a fallback entry, then
  what the LiteLLM proxy or a local Ollama reports, then the vendor
  catalogues whose API key is set.

Modules:
- `Wrappers` holds `Option`.
- `Strings` models `includes`, `startsWith`, `join` and `split` on strings.
- `Config` covers configuration reads: `ConfigService.get` with a default, and `process.env || default`.
- `Providers` defines the provider families and chain entries.
- `FallbackChain` covers chain construction and the two read-only views.
- `ModelResolution` covers `findProviderForModel`.
- `Dispatch` covers `generateMessage`.
- `TasksController` covers `findAll` and `getModels`.
- `Scenarios` holds concrete instances of the quirks.

Every provider call is a value of an *oracle* `nat -> Outcome<R>`. The
oracle is indexed by the attempt number and answers a response, an
interrupt, or a plain error with an optional message. A dispatch yields a
`Run`: the trace of (provider, model) calls made, and how it ended.

## Model

| member | source | states |
|---|---|---|
| FallbackChain.InitializeFallbackChain | packages/bytebot-agent/src/agent/agent.fallback.service.ts:37-113 | at most four entries, in strictly increasing priority proxy, google, anthropic, openai; each carries the registry's client and the configured model, or the hard-coded default when the variable is absent; a provider is in the chain exactly when its client is registered and, except for the proxy, its API key is non-empty |
| FallbackChain.ChainMembership | packages/bytebot-agent/src/agent/agent.fallback.service.ts:47-102 | per provider: the proxy joins iff `services['proxy']` exists, whatever keys are set; google, anthropic and openai join iff GEMINI_API_KEY, ANTHROPIC_API_KEY or OPENAI_API_KEY is non-empty and their client is registered |
| FallbackChain.NoDuplicateProviders | packages/bytebot-agent/src/agent/agent.fallback.service.ts:37-113 | no provider occurs twice in the chain |
| FallbackChain.ProxyLeadsIffRegistered | packages/bytebot-agent/src/agent/agent.fallback.service.ts:45-64 | a non-empty chain starts with the proxy exactly when the proxy client is registered |
| FallbackChain.GetDefaultModel | packages/bytebot-agent/src/agent/agent.fallback.service.ts:246-255 | null exactly for an empty chain, otherwise the provider and model of the first entry |
| FallbackChain.GetAvailableProviders | packages/bytebot-agent/src/agent/agent.fallback.service.ts:260-265 | one (provider, model) pair per entry, position by position |
| FallbackChain.DefaultIsFirstAvailable | packages/bytebot-agent/src/agent/agent.fallback.service.ts:246-265 | the default model is the first pair of the available-providers list, and null when that list is empty |
| Strings.StartsWith | packages/bytebot-agent/src/agent/agent.fallback.service.ts:227 | a string that starts with `t` also contains `t` |
| Strings.Contains | packages/bytebot-agent/src/agent/agent.fallback.service.ts:221 | `includes` holds iff the needle occurs at some position of the string |
| ModelResolution.DirectMatch | packages/bytebot-agent/src/agent/agent.fallback.service.ts:221 | the first loop's test holds exactly when the name equals the entry's model or the provider id occurs at some position of the name; a name starting with the provider id always passes |
| ModelResolution.FirstDirectMatch | packages/bytebot-agent/src/agent/agent.fallback.service.ts:220-224 | the first loop returns the first entry whose model equals the name or whose provider id occurs in it, and nothing only when no entry passes either test |
| ModelResolution.FindByProvider | packages/bytebot-agent/src/agent/agent.fallback.service.ts:228 | `find(f => f.provider === p)` yields the first entry of the chain with provider p, and null exactly when p has no entry |
| ModelResolution.FindProviderForModel | packages/bytebot-agent/src/agent/agent.fallback.service.ts:214-241 | the result is a chain entry; the first direct match wins; only when none exists does the first keyword group that occurs in the name decide, answering the first entry of its provider if present and null otherwise, with no later group consulted |
| ModelResolution.OllamaPrefixSubsumed | packages/bytebot-agent/src/agent/agent.fallback.service.ts:227 | the `startsWith('ollama/')` test never changes the outcome of the `includes('ollama')` test beside it |
| ModelResolution.FirstRule | packages/bytebot-agent/src/agent/agent.fallback.service.ts:226-240 | reference reading of the keyword groups as an ordered rule list: the result is the target of the first rule with a word in the name, every earlier rule having none, and nothing iff no rule has one |
| ModelResolution.KeywordTarget | packages/bytebot-agent/src/agent/agent.fallback.service.ts:226-240 | the if-chain of keyword tests equals the first-firing rule of the ordered list ollama; gemini/google; claude/anthropic; gpt/openai, and picks the proxy exactly when the name contains 'ollama' |
| Dispatch.ErrorText | packages/bytebot-agent/src/agent/agent.fallback.service.ts:188 | the recorded text is the error's message when it is present and non-empty, 'Unknown error' otherwise, and is never empty |
| Dispatch.Render | packages/bytebot-agent/src/agent/agent.fallback.service.ts:202 | a record renders as its provider id, ': ', then its error text, which can be read back from the line |
| Dispatch.RenderAll | packages/bytebot-agent/src/agent/agent.fallback.service.ts:201-202 | one rendered line per record, position by position |
| Strings.Join | packages/bytebot-agent/src/agent/agent.fallback.service.ts:203 | joining no parts gives the empty string and one part gives that part; otherwise the result starts with the first part |
| Dispatch.FailureMessage | packages/bytebot-agent/src/agent/agent.fallback.service.ts:201-206 | the message starts with the fixed prefix, followed directly by the first rendered record when there is one |
| Strings.JoinSnoc | packages/bytebot-agent/src/agent/agent.fallback.service.ts:203 | joining one more part appends the separator and then that part; with the empty and one-part cases of Join this fixes the joined string |
| Dispatch.FailureMessageSnoc | packages/bytebot-agent/src/agent/agent.fallback.service.ts:201-206 | recording one more failure appends '; ' and that record's `provider: error` line to the message, so the records appear in attempt order separated by '; ' |
| Dispatch.FailureMessageReportsEveryError | packages/bytebot-agent/src/agent/agent.fallback.service.ts:200-206 | the combined message starts with 'All fallback providers failed. Errors: ', is exactly that prefix for no records, and contains `provider: error` for every record |
| Dispatch.Walk | packages/bytebot-agent/src/agent/agent.fallback.service.ts:164-198 | the walk makes no more calls than entries remain, and over a non-empty chain its first call is the first entry with that entry's own model |
| Dispatch.WalkFollowsChain | packages/bytebot-agent/src/agent/agent.fallback.service.ts:164-198 | the walk calls entries in chain order with their own models, never more than the chain holds, and passes an entry only after a plain failure |
| Dispatch.WalkStopsWhereAnswered | packages/bytebot-agent/src/agent/agent.fallback.service.ts:170-186 | a response is returned, and an interrupt rethrown, only from the last call the walk made |
| Dispatch.WalkExhaustion | packages/bytebot-agent/src/agent/agent.fallback.service.ts:164-206 | the walk throws the combined error only after calling every entry and seeing each fail plainly, with the message built from the final list |
| Dispatch.WalkRecordsEachFailure | packages/bytebot-agent/src/agent/agent.fallback.service.ts:182-189 | on exhaustion the list extends the starting list by one record per entry, in chain order, naming that entry's provider and its error's text |
| Dispatch.WalkFirstNonFailure | packages/bytebot-agent/src/agent/agent.fallback.service.ts:164-186 | the first call that does not fail plainly is the walk's last; its response or its interrupt decides the walk |
| Dispatch.WalkReaches | packages/bytebot-agent/src/agent/agent.fallback.service.ts:164-197 | once the first i calls fail plainly, entry i is called with its own model |
| Dispatch.Preferred | packages/bytebot-agent/src/agent/agent.fallback.service.ts:138-140 | only a present, non-empty model name is resolved; for such a name the preferred entry is the resolver's answer, and it belongs to the chain |
| Dispatch.GenerateMessage | packages/bytebot-agent/src/agent/agent.fallback.service.ts:130-209 | a present, non-empty name that resolves is tried first: the first call goes to the resolved provider with the requested name (not the entry's model), and its response is returned at once; the dispatch makes at most one call more than the chain has entries, and none more when nothing resolved |
| Dispatch.DispatchIsWalk | packages/bytebot-agent/src/agent/agent.fallback.service.ts:137-164 | unless the preferred call answered, the dispatch is that call (if any) followed by a walk of the whole chain from an empty error list, so the preferred failure is never recorded |
| Dispatch.ChainAttemptsInOrder | packages/bytebot-agent/src/agent/agent.fallback.service.ts:164-176 | after the preferred call, the trace is a prefix of the available-providers list, and every chain call but the last failed plainly |
| Dispatch.LastCallDecides | packages/bytebot-agent/src/agent/agent.fallback.service.ts:170-186 | a returned response is the answer of the last call, and a rethrown interrupt came from the last call |
| Dispatch.WalkExhaustionRecords | packages/bytebot-agent/src/agent/agent.fallback.service.ts:164-206 | a walk from an empty list that throws the combined error called every entry in chain order, each failing plainly, and holds one record per entry naming its provider and its error text |
| Dispatch.ExhaustionRecordsEveryEntry | packages/bytebot-agent/src/agent/agent.fallback.service.ts:182-208 | when the combined error is thrown, every entry was called once and failed plainly, and the list holds exactly one record per entry in chain order, from which the message is built |
| Dispatch.FirstNonFailureDecides | packages/bytebot-agent/src/agent/agent.fallback.service.ts:164-186 | the first chain call that does not fail plainly is the dispatch's last call: its response is returned or its interrupt rethrown |
| Dispatch.AllFailuresExhaust | packages/bytebot-agent/src/agent/agent.fallback.service.ts:164-208 | when every chain call fails plainly, the dispatch throws the combined error |
| Dispatch.PreferredInterruptSwallowed | packages/bytebot-agent/src/agent/agent.fallback.service.ts:141-157 | an interrupt from the preferred call is caught like any other error; the chain walk still runs from its first entry and alone decides the result |
| Dispatch.PreferredProviderRetried | packages/bytebot-agent/src/agent/agent.fallback.service.ts:138-176 | after the preferred call fails, the same provider is called again at its chain position, this time with its configured model |
| Dispatch.EmptyChainFailsFast | packages/bytebot-agent/src/agent/agent.fallback.service.ts:200-208 | with an empty chain no call is made, and the dispatch throws the combined error with no records and the bare prefix as message |
| Config.Lookup | packages/bytebot-agent/src/agent/agent.fallback.service.ts:48-51 | `get(key, default)` yields the set value, even an empty one, and the default only when the key is absent |
| Config.IsSet | packages/bytebot-agent/src/agent/agent.fallback.service.ts:67 | the truthiness test holds exactly when the value looked up without a default is non-empty |
| Config.LookupNonEmpty | packages/bytebot-agent/src/tasks/tasks.controller.ts:75 | `process.env[key] || default` yields the set value when it is non-empty and the default otherwise |
| Strings.Split | packages/bytebot-agent/src/tasks/tasks.controller.ts:62 | `split(',')` yields at least one piece, no piece contains a comma, and the pieces joined with commas give back the string |
| TasksController.FindAll | packages/bytebot-agent/src/tasks/tasks.controller.ts:56-65 | page defaults to 1 and limit to 10; a non-empty `statuses` gives a comma-free list joining back to it; otherwise a non-empty `status` gives the one-element filter; otherwise there is no filter |
| TasksController.StatusIgnoredWithStatuses | packages/bytebot-agent/src/tasks/tasks.controller.ts:61-65 | when `statuses` is given, any value of `status` leaves the filter unchanged |
| TasksController.StatusesSplitUnique | packages/bytebot-agent/src/tasks/tasks.controller.ts:61-62 | the filter is the one list of comma-free pieces whose comma join is `statuses` |
| TasksController.AppendUnique | packages/bytebot-agent/src/tasks/tasks.controller.ts:141-150 | the list keeps its prefix and grows by at most the candidates; every added entry is a candidate clashing on name or title with no entry before it; every candidate clashes with some entry of the result |
| TasksController.AppendUniqueSnoc | packages/bytebot-agent/src/tasks/tasks.controller.ts:142-149 | deduplicating `xs + [x]` is deduplicating `xs` and then appending `x` exactly when it clashes with no entry of that result: candidates are decided in report order against the list built so far |
| TasksController.AppendUniqueKeepsFresh | packages/bytebot-agent/src/tasks/tasks.controller.ts:141-150 | candidates that clash neither with the list nor with each other are all appended, in order |
| TasksController.AppendUniqueAllClash | packages/bytebot-agent/src/tasks/tasks.controller.ts:142-149 | when every candidate clashes with the list, the list is unchanged |
| TasksController.AppendUniqueIdempotent | packages/bytebot-agent/src/tasks/tasks.controller.ts:141-150 | appending the same candidates a second time adds nothing |
| TasksController.FallbackEntry | packages/bytebot-agent/src/tasks/tasks.controller.ts:75-83 | provider 'fallback', title 'Ollama (with Fallback to Gemini)', window 128000; named by OLLAMA_MODEL when it is non-empty, 'ollama/llama3.2' otherwise |
| TasksController.ProxyEntry | packages/bytebot-agent/src/tasks/tasks.controller.ts:101-108 | provider 'proxy', window 128000; named by the LiteLLM model, else the model name; titled by the model name, else the LiteLLM model, else 'Unknown', so the title is never empty |
| TasksController.ProxyEntries | packages/bytebot-agent/src/tasks/tasks.controller.ts:100-108 | one proxy entry per element of `data`, position by position |
| TasksController.OllamaEntry | packages/bytebot-agent/src/tasks/tasks.controller.ts:132-139 | provider 'proxy', window 128000, titled by the Ollama name, whose name is 'ollama/' followed by that title |
| TasksController.OllamaEntries | packages/bytebot-agent/src/tasks/tasks.controller.ts:131-139 | one Ollama entry per reported model, position by position |
| TasksController.ConfiguredModels | packages/bytebot-agent/src/tasks/tasks.controller.ts:30-34 | the concatenation holds the anthropic, openai and google catalogues whose key is set, in that order: anthropic first, openai directly after it, google last, and nothing else |
| TasksController.ConfiguredModelsMembership | packages/bytebot-agent/src/tasks/tasks.controller.ts:30-34 | a model is listed exactly when it belongs to a catalogue whose key is set |
| TasksController.DiscoveredModels | packages/bytebot-agent/src/tasks/tasks.controller.ts:85-158 | the head is kept; an OK proxy answer with `data` appends one proxy entry per element; a non-OK answer, one without `data`, or a thrown request without a usable Ollama answer adds nothing |
| TasksController.GetModels | packages/bytebot-agent/src/tasks/tasks.controller.ts:72-163 | the fallback entry comes first and the configured models last; an OK proxy answer with `data` puts one proxy entry per element between them; a non-OK answer or one without `data` adds nothing |
| TasksController.GetModelsParts | packages/bytebot-agent/src/tasks/tasks.controller.ts:72-163 | the list is the discovered part, whose length it pins, followed by the configured models |
| TasksController.OllamaDiscovery | packages/bytebot-agent/src/tasks/tasks.controller.ts:131-150 | entries appended after the head are Ollama entries of reported models, no two of them clash, and every reported model clashes with the result |
| TasksController.OllamaEntriesDeduplicated | packages/bytebot-agent/src/tasks/tasks.controller.ts:113-150 | when the proxy request throws and Ollama reports models, the part before the configured models is exactly the fallback entry deduplicated with the Ollama entries in report order; each added entry is the Ollama entry of a reported model, no two entries clash, and every reported model clashes with the list; without a usable Ollama answer the part is the fallback entry alone |
| TasksController.OllamaOnlyWhenProxyThrows | packages/bytebot-agent/src/tasks/tasks.controller.ts:96-124 | unless the proxy request throws, the Ollama answer does not affect the list |
| TasksController.SingleFallbackEntry | packages/bytebot-agent/src/tasks/tasks.controller.ts:77-83 | when the vendor catalogues hold no 'fallback' entry, the first entry is the only one of provider 'fallback' |
| Scenarios.DeployedChainStartsWithProxy | packages/bytebot-agent/src/agent/agent.module.ts:46-52 | with the four clients the agent module registers, the chain always starts with the proxy, and with no key set it is the proxy alone on 'ollama/llama3.1' |
| Scenarios.EmptyRegistryEmptyChain | packages/bytebot-agent/src/agent/agent.fallback.service.ts:47-102 | with no client registered the chain is empty even with every key set |
| Scenarios.ContainmentBeatsLaterExactMatch | packages/bytebot-agent/src/agent/agent.fallback.service.ts:220-224 | 'my-proxy' picks the proxy entry by containment though the next entry's model equals it |
| Scenarios.KeywordGroupsShortCircuit | packages/bytebot-agent/src/agent/agent.fallback.service.ts:227-238 | 'ollama-gpt' against a chain of only openai resolves to nothing: the ollama group decides and the gpt group is never reached |
| Scenarios.UnresolvedModelSkipsPreferred | packages/bytebot-agent/src/agent/agent.fallback.service.ts:138-181 | 'gpt-4o' against a proxy-only chain resolves to nothing, so the only call is the proxy with its own model |
| Scenarios.FailoverToSecond | packages/bytebot-agent/src/agent/agent.fallback.service.ts:164-198 | the proxy fails, google answers, and the trace is proxy then google |
| Scenarios.InterruptInChainStops | packages/bytebot-agent/src/agent/agent.fallback.service.ts:182-186 | an interrupt from the proxy is rethrown and google is never called |
| Scenarios.ExhaustionMessage | packages/bytebot-agent/src/agent/agent.fallback.service.ts:188-206 | two failures, the second with an empty message, give 'All fallback providers failed. Errors: proxy: timeout; google: Unknown error' |
| Scenarios.SameProviderTwiceWithTwoModels | packages/bytebot-agent/src/agent/agent.fallback.service.ts:138-176 | 'ollama/qwen2' reaches the proxy by keyword; when that call fails, the proxy is called again with 'ollama/llama3.1' |
| Scenarios.PreferredInterruptThenChainAnswers | packages/bytebot-agent/src/agent/agent.fallback.service.ts:141-181 | an interrupt from the preferred call is swallowed and the chain's answer is returned |

Two behaviours of the code that the model keeps:
- The preferred attempt's `catch` has no interrupt test. A cancellation
  raised there is swallowed and the chain still runs
  (`Dispatch.PreferredInterruptSwallowed`). The chain loop, by contrast,
  rethrows interrupts without retrying (packages/bytebot-agent/src/agent/agent.fallback.service.ts:183-186).
- The preferred attempt's failure is never added to the error list. The
  combined message reports the chain's failures only (`Dispatch.DispatchIsWalk`).

## Left out

- Logging (`logger.log`, `warn`, `debug`, `error`, `console.*`) has no effect on results and is not modelled.
- `BYTEBOT_LLM_PROXY_URL` is only logged by the service, and in the controller only addresses the proxy request. Its value is not modelled.
- Asynchrony, `await` and the `AbortSignal` are not modelled. Provider calls are the oracle's answers, indexed by attempt number.
- The system prompt, messages, `useTools` and the signal pass unchanged to every call and are not modelled. The trace records the provider and the model of each call.
- An error value without a `message` (a rejection with `null` or `undefined`) is not modelled. Every plain error carries an optional message string. In the preferred `catch` such a value would raise a TypeError while logging.
- The provider clients (proxy, Anthropic, OpenAI, Google services) are opaque handles. Their behaviour is the oracle.
- `fetch`, HTTP status codes, timeouts and JSON parsing in `getModels` are not modelled. Each request's outcome is given as data (`ProxyResult`, `OllamaResult`). A malformed proxy entry, which makes the mapping throw, is folded into `ProxyThrows`, which is where the controller's `catch` sends it.
- TasksController.ProxyEntry: an entry with neither `litellm_params.model` nor `model_name` has an `undefined` name in the controller; the model uses the empty string.
- `parseInt` of `page` and `limit` is not modelled. `TaskQuery` holds them already parsed, with `None` for an absent or empty parameter.
- When the environment is read is not modelled. The controller reads the three API keys and the proxy URL once, at module load (packages/bytebot-agent/src/tasks/tasks.controller.ts:23-28), and `OLLAMA_MODEL` on every `getModels` call (packages/bytebot-agent/src/tasks/tasks.controller.ts:75). The model takes the environment as a parameter of each operation.
- The vendor catalogue constants (`ANTHROPIC_MODELS`, `OPENAI_MODELS`, `GOOGLE_MODELS`) are not part of this model. They are parameters (`Catalogs`).
- The task endpoints that only delegate to the task and message services (`create`, `findById`, the three message listings, `addTaskMessage`, `delete`, `takeOver`, `resume`, `cancel`) are not part of this model.
- packages/bytebot-ui/next.config.ts is build configuration and is not part of this model.
