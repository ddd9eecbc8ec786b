/** Building the fallback chain from configuration and the provider
    registry, and the two read-only views of it. */
module FallbackChain {
  import opened Wrappers
  import opened Config
  import opened Providers

  /** Whether `p` joins the chain: its client is registered and, unless it
      is the proxy, its API key is set. */
  predicate Eligible(config: Config, services: Registry, p: Provider) {
    && p.Id() in services
    && (p.ApiKeyName().Some? ==> IsSet(config, p.ApiKeyName().value))
  }

  /** The chain's part for `p`: its entry, or nothing. */
  function Slot(config: Config, services: Registry, p: Provider): seq<Entry> {
    if Eligible(config, services, p) then
      [Entry(p, services[p.Id()], Lookup(config, p.ModelKey(), p.DefaultModel()))]
    else
      []
  }

  /** Providers appear in strictly increasing priority. */
  ghost predicate InPriorityOrder(chain: Chain) {
    forall i, j :: 0 <= i < j < |chain| ==> chain[i].provider.Rank() < chain[j].provider.Rank()
  }

  /** Every entry carries the registry's client and the configured-or-default
      model of its provider. */
  ghost predicate WellFormedEntries(config: Config, services: Registry, chain: Chain) {
    forall i :: 0 <= i < |chain| ==>
      && chain[i].provider.Id() in services
      && chain[i].service == services[chain[i].provider.Id()]
      && chain[i].model == Lookup(config, chain[i].provider.ModelKey(), chain[i].provider.DefaultModel())
  }

  /** The chain is proxy, google, anthropic, openai, each kept only when
      eligible. */
  function InitializeFallbackChain(config: Config, services: Registry): (chain: Chain)
    ensures |chain| <= |Priority|
    ensures InPriorityOrder(chain)
    ensures WellFormedEntries(config, services, chain)
    ensures forall p: Provider :: InChain(chain, p) <==> Eligible(config, services, p)
  {
    SlotsCombine(config, services);
    Slot(config, services, Proxy) + Slot(config, services, Google)
      + Slot(config, services, Anthropic) + Slot(config, services, OpenAI)
  }

  /** All providers of `x` rank in `[lo, hi)`. */
  ghost predicate RanksWithin(x: Chain, lo: nat, hi: nat) {
    forall i :: 0 <= i < |x| ==> lo <= x[i].provider.Rank() < hi
  }

  /** `x` is what the construction yields for the providers ranked in
      `[lo, hi)`: ordered, well formed, and holding exactly the eligible ones. */
  ghost predicate Segment(config: Config, services: Registry, x: Chain, lo: nat, hi: nat) {
    && InPriorityOrder(x)
    && RanksWithin(x, lo, hi)
    && WellFormedEntries(config, services, x)
    && forall q: Provider :: InChain(x, q) <==> lo <= q.Rank() < hi && Eligible(config, services, q)
  }

  lemma SlotFacts(config: Config, services: Registry, p: Provider)
    ensures |Slot(config, services, p)| <= 1
    ensures Segment(config, services, Slot(config, services, p), p.Rank(), p.Rank() + 1)
  {
    var s := Slot(config, services, p);
    forall q: Provider
      ensures InChain(s, q) <==> p.Rank() <= q.Rank() < p.Rank() + 1 && Eligible(config, services, q)
    {
      if q.Rank() == p.Rank() {
        assert q == Priority[p.Rank()];
      }
      if Eligible(config, services, p) {
        assert s[0].provider == p;
      }
    }
  }

  lemma AppendFacts(config: Config, services: Registry, x: Chain, y: Chain, lo: nat, mid: nat, hi: nat)
    requires lo <= mid <= hi
    requires Segment(config, services, x, lo, mid) && Segment(config, services, y, mid, hi)
    ensures Segment(config, services, x + y, lo, hi)
  {
    forall q: Provider
      ensures InChain(x + y, q) <==> InChain(x, q) || InChain(y, q)
    {
      InChainAppend(x, y, q);
    }
  }

  lemma {:induction false} SlotsCombine(config: Config, services: Registry)
    ensures var chain := Slot(config, services, Proxy) + Slot(config, services, Google)
      + Slot(config, services, Anthropic) + Slot(config, services, OpenAI);
      && |chain| <= |Priority|
      && InPriorityOrder(chain)
      && WellFormedEntries(config, services, chain)
      && forall p: Provider :: InChain(chain, p) <==> Eligible(config, services, p)
  {
    var a := Slot(config, services, Proxy);
    var b := Slot(config, services, Google);
    var c := Slot(config, services, Anthropic);
    var d := Slot(config, services, OpenAI);
    assert Segment(config, services, a + b, 0, 2) by {
      SlotFacts(config, services, Proxy);
      SlotFacts(config, services, Google);
      AppendFacts(config, services, a, b, 0, 1, 2);
    }
    assert Segment(config, services, a + b + c, 0, 3) by {
      SlotFacts(config, services, Anthropic);
      AppendFacts(config, services, a + b, c, 0, 2, 3);
    }
    assert Segment(config, services, a + b + c + d, 0, 4) by {
      SlotFacts(config, services, OpenAI);
      AppendFacts(config, services, a + b + c, d, 0, 3, 4);
    }
  }

  lemma InChainAppend(x: Chain, y: Chain, p: Provider)
    ensures InChain(x + y, p) <==> InChain(x, p) || InChain(y, p)
  {
    if InChain(x + y, p) {
      var i :| 0 <= i < |x + y| && (x + y)[i].provider == p;
      if i >= |x| {
        assert y[i - |x|].provider == p;
      }
    }
    if InChain(y, p) {
      var i :| 0 <= i < |y| && y[i].provider == p;
      assert (x + y)[|x| + i].provider == p;
    }
    if InChain(x, p) {
      var i :| 0 <= i < |x| && x[i].provider == p;
      assert (x + y)[i].provider == p;
    }
  }

  /** Membership spelled out per provider: the proxy is in the chain exactly
      when its client is registered, whatever keys are set; each other
      provider exactly when its API key is non-empty and its client is
      registered. */
  lemma ChainMembership(config: Config, services: Registry)
    ensures var chain := InitializeFallbackChain(config, services);
      && (InChain(chain, Proxy) <==> "proxy" in services)
      && (InChain(chain, Google) <==> IsSet(config, "GEMINI_API_KEY") && "google" in services)
      && (InChain(chain, Anthropic) <==> IsSet(config, "ANTHROPIC_API_KEY") && "anthropic" in services)
      && (InChain(chain, OpenAI) <==> IsSet(config, "OPENAI_API_KEY") && "openai" in services)
  {
  }

  /** No provider appears twice. */
  lemma NoDuplicateProviders(config: Config, services: Registry)
    ensures var chain := InitializeFallbackChain(config, services);
      forall i, j :: 0 <= i < |chain| && 0 <= j < |chain| && i != j ==> chain[i].provider != chain[j].provider
  {
    var chain := InitializeFallbackChain(config, services);
    forall i, j | 0 <= i < |chain| && 0 <= j < |chain| && i != j
      ensures chain[i].provider != chain[j].provider
    {
      if i < j {
        assert chain[i].provider.Rank() < chain[j].provider.Rank();
      } else {
        assert chain[j].provider.Rank() < chain[i].provider.Rank();
      }
    }
  }

  /** A non-empty chain starts with the proxy exactly when the proxy client
      is registered, regardless of any credential. */
  lemma ProxyLeadsIffRegistered(config: Config, services: Registry)
    requires |InitializeFallbackChain(config, services)| > 0
    ensures InitializeFallbackChain(config, services)[0].provider == Proxy <==> "proxy" in services
  {
    var chain := InitializeFallbackChain(config, services);
    if "proxy" in services {
      assert InChain(chain, Proxy);
    }
  }

  /** The view `getDefaultModel`: the head of the chain, or null when empty. */
  function GetDefaultModel(chain: Chain): (r: Option<Route>)
    ensures r.None? <==> |chain| == 0
    ensures r.Some? ==> r.value.provider == chain[0].provider && r.value.model == chain[0].model
  {
    if |chain| == 0 then None else Some(chain[0].ToRoute())
  }

  /** The view `getAvailableProviders`: every entry as (provider, model), in
      chain order. */
  function GetAvailableProviders(chain: Chain): (routes: seq<Route>)
    ensures |routes| == |chain|
    ensures forall i :: 0 <= i < |chain| ==>
      routes[i].provider == chain[i].provider && routes[i].model == chain[i].model
  {
    if chain == [] then [] else [chain[0].ToRoute()] + GetAvailableProviders(chain[1..])
  }

  /** The default model is the first available provider. */
  lemma DefaultIsFirstAvailable(chain: Chain)
    ensures GetDefaultModel(chain) ==
      if |chain| == 0 then None else Some(GetAvailableProviders(chain)[0])
  {
  }
}
