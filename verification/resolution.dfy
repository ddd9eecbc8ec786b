/** `findProviderForModel`: which chain entry a requested model name picks. */
module ModelResolution {
  import opened Wrappers
  import opened Strings
  import opened Providers

  /** The first loop's test for one entry: the model equals the entry's
      model, or contains the entry's provider id. */
  predicate DirectMatch(e: Entry, model: string)
    ensures DirectMatch(e, model) <==> model == e.model || exists i: nat :: OccursAt(model, e.provider.Id(), i)
    ensures StartsWith(model, e.provider.Id()) ==> DirectMatch(e, model)
  {
    model == e.model || Contains(model, e.provider.Id())
  }

  /** Entry `i` is the first one the first loop accepts. */
  ghost predicate FirstDirectAt(chain: Chain, model: string, i: int) {
    && 0 <= i < |chain|
    && DirectMatch(chain[i], model)
    && forall j :: 0 <= j < i ==> !DirectMatch(chain[j], model)
  }

  /** The first loop: entries are tried one at a time with both tests, so an
      earlier entry's containment match wins over a later exact match. */
  function FirstDirectMatch(chain: Chain, model: string): (r: Option<Entry>)
    ensures r.Some? ==> exists i :: FirstDirectAt(chain, model, i) && chain[i] == r.value
    ensures r.None? ==> forall i :: 0 <= i < |chain| ==> !DirectMatch(chain[i], model)
    decreases |chain|
  {
    if chain == [] then None
    else if DirectMatch(chain[0], model) then
      assert FirstDirectAt(chain, model, 0);
      Some(chain[0])
    else
      var r := FirstDirectMatch(chain[1..], model);
      assert r.Some? ==> exists i :: FirstDirectAt(chain, model, i) && chain[i] == r.value by {
        if r.Some? {
          var i :| FirstDirectAt(chain[1..], model, i) && chain[1..][i] == r.value;
          assert FirstDirectAt(chain, model, i + 1);
        }
      }
      r
  }

  /** Entry `i` is the first entry of provider `p`. */
  ghost predicate FirstOfProviderAt(chain: Chain, p: Provider, i: int) {
    && 0 <= i < |chain|
    && chain[i].provider == p
    && forall j :: 0 <= j < i ==> chain[j].provider != p
  }

  /** `chain.find(f => f.provider === p)`: the first entry of provider `p`. */
  function FindByProvider(chain: Chain, p: Provider): (r: Option<Entry>)
    ensures r.Some? ==> exists i :: FirstOfProviderAt(chain, p, i) && chain[i] == r.value
    ensures r.None? <==> !InChain(chain, p)
    decreases |chain|
  {
    if chain == [] then None
    else if chain[0].provider == p then
      assert FirstOfProviderAt(chain, p, 0);
      Some(chain[0])
    else
      var r := FindByProvider(chain[1..], p);
      assert r.Some? ==> exists i :: FirstOfProviderAt(chain, p, i) && chain[i] == r.value by {
        if r.Some? {
          var i :| FirstOfProviderAt(chain[1..], p, i) && chain[1..][i] == r.value;
          assert FirstOfProviderAt(chain, p, i + 1);
        }
      }
      r
  }

  /** The keyword groups, tried in this order; the first group whose word
      occurs in the model decides the target provider. The if-chain is the
      ordered rule list read first to last, and the `startsWith('ollama/')`
      test adds nothing to `includes('ollama')`. */
  function KeywordTarget(model: string): (r: Option<Provider>)
    ensures r == FirstRule(KeywordRules, model)
    ensures r == Some(Proxy) <==> Contains(model, "ollama")
  {
    OllamaPrefixSubsumed(model);
    var rules := KeywordRules;
    assert AnyOccurs(rules[0].words, model) == Contains(model, "ollama");
    assert AnyOccurs(rules[1].words, model) == (Contains(model, "gemini") || Contains(model, "google"));
    assert AnyOccurs(rules[2].words, model) == (Contains(model, "claude") || Contains(model, "anthropic"));
    assert AnyOccurs(rules[3].words, model) == (Contains(model, "gpt") || Contains(model, "openai"));
    assert rules[1..][0] == rules[1] && rules[1..][1..][0] == rules[2];
    assert rules[1..][1..][1..][0] == rules[3] && rules[1..][1..][1..][1..] == [];
    if StartsWith(model, "ollama/") || Contains(model, "ollama") then Some(Proxy)
    else if Contains(model, "gemini") || Contains(model, "google") then Some(Google)
    else if Contains(model, "claude") || Contains(model, "anthropic") then Some(Anthropic)
    else if Contains(model, "gpt") || Contains(model, "openai") then Some(OpenAI)
    else None
  }

  /** The resolver: the first loop, and only if it finds nothing the keyword
      groups; a group that matches answers with its provider's entry or with
      nothing, and later groups are not consulted. */
  function FindProviderForModel(chain: Chain, model: string): (r: Option<Entry>)
    ensures r.Some? ==> r.value in chain
    ensures forall i :: FirstDirectAt(chain, model, i) ==> r == Some(chain[i])
    ensures (forall i :: 0 <= i < |chain| ==> !DirectMatch(chain[i], model)) ==>
      match KeywordTarget(model)
      case None => r.None?
      case Some(p) =>
        && (r.Some? <==> InChain(chain, p))
        && (r.Some? ==> exists i :: FirstOfProviderAt(chain, p, i) && chain[i] == r.value)
  {
    FirstDirectUnique(chain, model);
    match FirstDirectMatch(chain, model)
    case Some(e) => Some(e)
    case None =>
      match KeywordTarget(model)
      case None => None
      case Some(p) => FindByProvider(chain, p)
  }

  /** At most one index is the first direct match. */
  lemma FirstDirectUnique(chain: Chain, model: string)
    ensures forall i, j :: FirstDirectAt(chain, model, i) && FirstDirectAt(chain, model, j) ==> i == j
  {
  }

  /** The `startsWith('ollama/')` test adds nothing to `includes('ollama')`. */
  lemma OllamaPrefixSubsumed(model: string)
    ensures (StartsWith(model, "ollama/") || Contains(model, "ollama")) == Contains(model, "ollama")
  {
    if StartsWith(model, "ollama/") {
      assert OccursAt(model, "ollama", 0) by {
        assert model[..6] == model[..7][..6];
      }
    }
  }

  /** A keyword rule of the resolver's fixed ordered list: any of the words
      selects the target provider. */
  datatype KeywordRule = KeywordRule(words: seq<string>, target: Provider)

  const KeywordRules: seq<KeywordRule> := [
    KeywordRule(["ollama"], Proxy),
    KeywordRule(["gemini", "google"], Google),
    KeywordRule(["claude", "anthropic"], Anthropic),
    KeywordRule(["gpt", "openai"], OpenAI)
  ]

  /** Some word of `words` occurs in the model. */
  predicate AnyOccurs(words: seq<string>, model: string)
    decreases |words|
  {
    |words| > 0 && (Contains(model, words[0]) || AnyOccurs(words[1..], model))
  }

  /** Rule `k` has a word that occurs in the model. */
  predicate RuleFires(rules: seq<KeywordRule>, model: string, k: int) {
    0 <= k < |rules| && AnyOccurs(rules[k].words, model)
  }

  /** Rule `k` is the first rule that fires. */
  ghost predicate FirstFiresAt(rules: seq<KeywordRule>, model: string, k: int) {
    && RuleFires(rules, model, k)
    && forall j :: 0 <= j < k ==> !RuleFires(rules, model, j)
  }

  /** The first rule of `rules` with a word contained in the model. */
  function FirstRule(rules: seq<KeywordRule>, model: string): (r: Option<Provider>)
    ensures r.Some? ==> exists k :: FirstFiresAt(rules, model, k) && rules[k].target == r.value
    ensures r.None? <==> forall k :: 0 <= k < |rules| ==> !RuleFires(rules, model, k)
    decreases |rules|
  {
    if rules == [] then None
    else if AnyOccurs(rules[0].words, model) then
      assert FirstFiresAt(rules, model, 0);
      Some(rules[0].target)
    else
      var r := FirstRule(rules[1..], model);
      assert forall k :: 1 <= k < |rules| ==> rules[k] == rules[1..][k - 1];
      assert forall k :: 1 <= k < |rules| ==> RuleFires(rules, model, k) == RuleFires(rules[1..], model, k - 1);
      assert !RuleFires(rules, model, 0);
      assert r.Some? ==> exists k :: FirstFiresAt(rules, model, k) && rules[k].target == r.value by {
        if r.Some? {
          var k :| FirstFiresAt(rules[1..], model, k) && rules[1..][k].target == r.value;
          assert FirstFiresAt(rules, model, k + 1);
        }
      }
      r
  }
}
