/** Concrete instances of the dispatcher's behaviour, including the quirks
    of the resolver and of the preferred attempt. */
module Scenarios {
  import opened Wrappers
  import opened Strings
  import opened Config
  import opened Providers
  import opened FallbackChain
  import opened ModelResolution
  import opened Dispatch

  const ProxyService: Service := Service(0)
  const GoogleService: Service := Service(1)
  const AnthropicService: Service := Service(2)
  const OpenAIService: Service := Service(3)

  /** The registry the agent module assembles: all four clients. */
  const DeployedRegistry: Registry :=
    map["anthropic" := AnthropicService, "openai" := OpenAIService, "google" := GoogleService, "proxy" := ProxyService]

  /** With the deployed registry the proxy always leads the chain, whatever
      the configuration; with no key set it is the whole chain, on its
      default model. */
  lemma DeployedChainStartsWithProxy(config: Config)
    ensures var chain := InitializeFallbackChain(config, DeployedRegistry);
      |chain| >= 1 && chain[0].provider == Proxy
    ensures InitializeFallbackChain(map[], DeployedRegistry) == [Entry(Proxy, ProxyService, "ollama/llama3.1")]
  {
    var chain := InitializeFallbackChain(config, DeployedRegistry);
    ChainMembership(config, DeployedRegistry);
    ProxyLeadsIffRegistered(config, DeployedRegistry);
  }

  /** An empty registry gives an empty chain even with every key set. */
  lemma EmptyRegistryEmptyChain()
    ensures InitializeFallbackChain(map["GEMINI_API_KEY" := "k", "ANTHROPIC_API_KEY" := "k", "OPENAI_API_KEY" := "k"], map[]) == []
  {
  }

  /** An earlier entry's containment match beats a later exact match: the
      model "my-proxy" equals the google entry's model but contains "proxy". */
  lemma ContainmentBeatsLaterExactMatch()
    ensures var chain := [Entry(Proxy, ProxyService, "m1"), Entry(Google, GoogleService, "my-proxy")];
      FindProviderForModel(chain, "my-proxy") == Some(chain[0])
  {
    var chain := [Entry(Proxy, ProxyService, "m1"), Entry(Google, GoogleService, "my-proxy")];
    assert OccursAt("my-proxy", "proxy", 3);
    assert FirstDirectAt(chain, "my-proxy", 0);
  }

  /** The first keyword group that matches decides: "ollama-gpt" names the
      proxy family, which is absent, so nothing is resolved although the
      chain has an openai entry and the name contains "gpt". */
  lemma KeywordGroupsShortCircuit()
    ensures FindProviderForModel([Entry(OpenAI, OpenAIService, "gpt-4o")], "ollama-gpt").None?
  {
    var chain := [Entry(OpenAI, OpenAIService, "gpt-4o")];
    var model := "ollama-gpt";
    assert OccursAt(model, "ollama", 0);
    AbsentCharRulesOut(model, "openai", 'e');
    assert !DirectMatch(chain[0], model);
    assert KeywordTarget(model) == Some(Proxy);
  }

  /** A model that matches nothing resolves to nothing, so the dispatch goes
      straight to the chain: chain [proxy "m1"], model "gpt-4o". */
  lemma UnresolvedModelSkipsPreferred(oracle: nat -> Outcome<string>)
    requires oracle(0) == Ok("done")
    ensures GenerateMessage([Entry(Proxy, ProxyService, "m1")], Some("gpt-4o"), oracle)
      == Run([Route(Proxy, "m1")], Success("done"))
  {
    GptUnresolvedOnProxyChain();
  }

  lemma GptUnresolvedOnProxyChain()
    ensures FindProviderForModel([Entry(Proxy, ProxyService, "m1")], "gpt-4o").None?
  {
    AbsentCharRulesOut("gpt-4o", "proxy", 'r');
    GptNamesOpenAI();
  }

  lemma GptNamesOpenAI()
    ensures KeywordTarget("gpt-4o") == Some(OpenAI)
  {
    var model := "gpt-4o";
    AbsentCharRulesOut(model, "ollama", 'l');
    AbsentCharRulesOut(model, "gemini", 'e');
    AbsentCharRulesOut(model, "google", 'l');
    AbsentCharRulesOut(model, "claude", 'c');
    AbsentCharRulesOut(model, "anthropic", 'a');
    assert OccursAt(model, "gpt", 0);
  }

  /** Chain [proxy "m1", google "m2"]: the proxy fails, google answers, and
      the trace shows the proxy first. */
  lemma FailoverToSecond(oracle: nat -> Outcome<string>)
    requires oracle(0) == Fail(Some("connection refused")) && oracle(1) == Ok("reply")
    ensures GenerateMessage([Entry(Proxy, ProxyService, "m1"), Entry(Google, GoogleService, "m2")], None, oracle)
      == Run([Route(Proxy, "m1"), Route(Google, "m2")], Success("reply"))
  {
    var chain := [Entry(Proxy, ProxyService, "m1"), Entry(Google, GoogleService, "m2")];
    var errors := [ProviderError(Proxy, "connection refused")];
    assert chain[1..] == [chain[1]];
    assert Walk(chain[1..], oracle, 1, errors) == Run([Route(Google, "m2")], Success("reply"));
    assert Walk(chain, oracle, 0, []) == Run([Route(Proxy, "m1"), Route(Google, "m2")], Success("reply"));
  }

  /** Chain [proxy, google]: an interrupt from the proxy is rethrown and
      google is never called. */
  lemma InterruptInChainStops(oracle: nat -> Outcome<string>)
    requires oracle(0).Interrupt?
    ensures GenerateMessage([Entry(Proxy, ProxyService, "m1"), Entry(Google, GoogleService, "m2")], None, oracle)
      == Run([Route(Proxy, "m1")], Interrupted)
  {
  }

  /** Both entries fail: one record each, in order, an empty message
      reported as 'Unknown error'. */
  lemma ExhaustionMessage(oracle: nat -> Outcome<string>)
    requires oracle(0) == Fail(Some("timeout")) && oracle(1) == Fail(Some(""))
    ensures var run := GenerateMessage([Entry(Proxy, ProxyService, "m1"), Entry(Google, GoogleService, "m2")], None, oracle);
      && run.trace == [Route(Proxy, "m1"), Route(Google, "m2")]
      && run.result == AllFailed([ProviderError(Proxy, "timeout"), ProviderError(Google, "Unknown error")],
           FailurePrefix + "proxy: timeout; google: Unknown error")
  {
    var chain := [Entry(Proxy, ProxyService, "m1"), Entry(Google, GoogleService, "m2")];
    assert chain[1..] == [chain[1]] && chain[1..][1..] == [];
    var errors := [ProviderError(Proxy, "timeout"), ProviderError(Google, "Unknown error")];
    assert [] + [errors[0]] == [errors[0]] && [errors[0]] + [errors[1]] == errors;
    var message := FailurePrefix + "proxy: timeout; google: Unknown error";
    TwoErrorMessage(errors);
    GoogleFailsLast(oracle, errors, message);
    assert Walk(chain, oracle, 0, []) == Run([Route(Proxy, "m1"), Route(Google, "m2")], AllFailed(errors, message));
  }

  lemma GoogleFailsLast(oracle: nat -> Outcome<string>, errors: seq<ProviderError>, message: string)
    requires oracle(1) == Fail(Some(""))
    requires errors == [ProviderError(Proxy, "timeout"), ProviderError(Google, "Unknown error")]
    requires FailureMessage(errors) == message
    ensures Walk([Entry(Google, GoogleService, "m2")], oracle, 1, [errors[0]]) == Run([Route(Google, "m2")], AllFailed(errors, message))
  {
    assert [errors[0]] + [errors[1]] == errors;
    assert Walk([], oracle, 2, errors) == Run([], AllFailed(errors, message));
  }

  lemma TwoErrorMessage(errors: seq<ProviderError>)
    requires errors == [ProviderError(Proxy, "timeout"), ProviderError(Google, "Unknown error")]
    ensures FailureMessage(errors) == FailurePrefix + "proxy: timeout; google: Unknown error"
  {
    assert RenderAll(errors) == [Render(errors[0]), Render(errors[1])];
    JoinPair(Render(errors[0]), Render(errors[1]), "; ");
    RenderedPair();
  }

  lemma JoinPair(a: string, b: string, sep: string)
    ensures Join([a, b], sep) == a + sep + b
  {
    assert [a, b][1..] == [b];
  }

  lemma RenderedPair()
    ensures Render(ProviderError(Proxy, "timeout")) + "; " + Render(ProviderError(Google, "Unknown error"))
      == "proxy: timeout; google: Unknown error"
  {
    RenderedProxyTimeout();
    RenderedGoogleUnknown();
  }

  lemma RenderedProxyTimeout()
    ensures Render(ProviderError(Proxy, "timeout")) == "proxy: timeout"
  {
  }

  lemma RenderedGoogleUnknown()
    ensures Render(ProviderError(Google, "Unknown error")) == "google: Unknown error"
  {
  }

  lemma KeywordResolvesOllamaName(chain: Chain)
    requires chain == [Entry(Proxy, ProxyService, "ollama/llama3.1")]
    ensures Preferred(chain, Some("ollama/qwen2")) == Some(chain[0])
  {
    QwenIsNoDirectMatch(chain[0]);
    assert FirstDirectMatch(chain, "ollama/qwen2").None?;
    QwenNamesProxyFamily();
  }

  lemma QwenIsNoDirectMatch(e: Entry)
    requires e == Entry(Proxy, ProxyService, "ollama/llama3.1")
    ensures !DirectMatch(e, "ollama/qwen2")
  {
    AbsentCharRulesOut("ollama/qwen2", "proxy", 'r');
    assert |"ollama/qwen2"| != |e.model|;
  }

  lemma QwenNamesProxyFamily()
    ensures KeywordTarget("ollama/qwen2") == Some(Proxy)
  {
    assert OccursAt("ollama/qwen2", "ollama", 0);
  }

  /** The same provider twice in one dispatch: "ollama/qwen2" resolves to the
      proxy by keyword, the preferred call with it fails, and the chain's
      proxy call with its configured model answers. */
  lemma SameProviderTwiceWithTwoModels(oracle: nat -> Outcome<string>)
    requires oracle(0) == Fail(Some("model not found")) && oracle(1) == Ok("reply")
    ensures GenerateMessage([Entry(Proxy, ProxyService, "ollama/llama3.1")], Some("ollama/qwen2"), oracle)
      == Run([Route(Proxy, "ollama/qwen2"), Route(Proxy, "ollama/llama3.1")], Success("reply"))
  {
    var chain := [Entry(Proxy, ProxyService, "ollama/llama3.1")];
    KeywordResolvesOllamaName(chain);
    assert chain[1..] == [];
    assert Walk(chain, oracle, 1, []) == Run([Route(Proxy, "ollama/llama3.1")], Success("reply"));
  }

  /** An interrupt from the preferred call is swallowed: the chain still
      runs and its answer is returned. */
  lemma PreferredInterruptThenChainAnswers(oracle: nat -> Outcome<string>)
    requires oracle(0).Interrupt? && oracle(1) == Ok("reply")
    ensures GenerateMessage([Entry(Proxy, ProxyService, "m1")], Some("m1"), oracle)
      == Run([Route(Proxy, "m1"), Route(Proxy, "m1")], Success("reply"))
  {
    var chain := [Entry(Proxy, ProxyService, "m1")];
    assert FirstDirectAt(chain, "m1", 0);
    assert chain[1..] == [];
    assert Walk(chain, oracle, 1, []) == Run([Route(Proxy, "m1")], Success("reply"));
  }
}
