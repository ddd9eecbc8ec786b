/** The pure parts of the tasks controller: normalising the query of the
    task list endpoint, and assembling the model list from the proxy's and
    Ollama's answers, which are given as data. */
module TasksController {
  import opened Wrappers
  import opened Strings
  import opened Config

  /** A query string value counts as given when present and non-empty. */
  predicate Given(v: Option<string>) {
    v.Some? && v.value != ""
  }

  /** The query of `GET /tasks`; `page` and `limit` are already parsed,
      `None` standing for a missing or empty parameter. */
  datatype TaskQuery = TaskQuery(page: Option<int>, limit: Option<int>, status: Option<string>, statuses: Option<string>)

  /** The arguments passed on to the task service. */
  datatype TaskListArgs = TaskListArgs(page: int, limit: int, statusFilter: Option<seq<string>>)

  const DefaultPage: int := 1
  const DefaultLimit: int := 10

  /** `findAll`: page 1 and limit 10 by default; `statuses` split at commas
      wins over `status`; no filter when neither is given. */
  function FindAll(q: TaskQuery): (args: TaskListArgs)
    ensures args.page == q.page.GetOr(DefaultPage)
    ensures args.limit == q.limit.GetOr(DefaultLimit)
    ensures Given(q.statuses) ==>
      && args.statusFilter.Some?
      && Join(args.statusFilter.value, ",") == q.statuses.value
      && (forall k :: 0 <= k < |args.statusFilter.value| ==> ',' !in args.statusFilter.value[k])
    ensures !Given(q.statuses) && Given(q.status) ==> args.statusFilter == Some([q.status.value])
    ensures !Given(q.statuses) && !Given(q.status) ==> args.statusFilter.None?
  {
    var filter :=
      if Given(q.statuses) then Some(Split(q.statuses.value, ','))
      else if Given(q.status) then Some([q.status.value])
      else None;
    TaskListArgs(q.page.GetOr(DefaultPage), q.limit.GetOr(DefaultLimit), filter)
  }

  /** `status` is ignored whenever `statuses` is given. */
  lemma StatusIgnoredWithStatuses(q: TaskQuery, status: Option<string>)
    requires Given(q.statuses)
    ensures FindAll(q.(status := status)).statusFilter == FindAll(q).statusFilter
  {
  }

  /** The comma-separated list is split into exactly its pieces: the filter
      is the unique comma-free list that joins back to `statuses`. */
  lemma StatusesSplitUnique(q: TaskQuery, parts: seq<string>)
    requires Given(q.statuses)
    requires Join(parts, ",") == q.statuses.value
    requires forall k :: 0 <= k < |parts| ==> ',' !in parts[k]
    ensures FindAll(q).statusFilter == Some(parts)
  {
    JoinUnique(FindAll(q).statusFilter.value, parts, ',');
  }

  /** A list of comma-free pieces is determined by its join. */
  lemma {:induction false} JoinUnique(a: seq<string>, b: seq<string>, sep: char)
    requires |a| >= 1 && |b| >= 1
    requires forall k :: 0 <= k < |a| ==> sep !in a[k]
    requires forall k :: 0 <= k < |b| ==> sep !in b[k]
    requires Join(a, [sep]) == Join(b, [sep])
    ensures a == b
    decreases |a| + |b|
  {
    var s := Join(a, [sep]);
    if |a| == 1 && |b| == 1 {
    } else if |a| == 1 || |b| == 1 {
    } else {
      JoinCons(a[0], a[1..], [sep]);
      JoinCons(b[0], b[1..], [sep]);
      assert [a[0]] + a[1..] == a;
      assert [b[0]] + b[1..] == b;
      FirstPieceUnique(a[0], b[0], Join(a[1..], [sep]), Join(b[1..], [sep]), sep);
      assert Join(a[1..], [sep]) == Join(b[1..], [sep]) by {
        assert s == a[0] + ([sep] + Join(a[1..], [sep]));
        assert s == b[0] + ([sep] + Join(b[1..], [sep]));
        assert s[|a[0]| + 1..] == Join(a[1..], [sep]);
        assert s[|b[0]| + 1..] == Join(b[1..], [sep]);
      }
      JoinUnique(a[1..], b[1..], sep);
      assert a == [a[0]] + a[1..];
    }
  }

  lemma FirstPieceUnique(x: string, y: string, u: string, v: string, sep: char)
    requires sep !in x && sep !in y
    requires x + [sep] + u == y + [sep] + v
    ensures x == y
  {
    var s := x + [sep] + u;
    assert s[|x|] == sep;
    assert s[|y|] == sep;
    assert |x| == |y|;
    assert x == s[..|x|];
    assert y == s[..|y|];
  }

  /** An entry of the model list. */
  datatype AgentModel = AgentModel(provider: string, name: string, title: string, contextWindow: nat)

  const ContextWindow: nat := 128000

  /** Two entries clash when they share a name or a title. */
  predicate Clash(a: AgentModel, b: AgentModel) {
    a.name == b.name || a.title == b.title
  }

  /** Some entry of `list` clashes with `m`. */
  predicate ClashesWithAny(list: seq<AgentModel>, m: AgentModel) {
    exists j :: 0 <= j < |list| && Clash(list[j], m)
  }

  /** The `forEach` that appends each model unless an entry already in the
      list, an earlier appended one included, shares its name or title. */
  function AppendUnique(acc: seq<AgentModel>, xs: seq<AgentModel>): (r: seq<AgentModel>)
    ensures |acc| <= |r| <= |acc| + |xs|
    ensures r[..|acc|] == acc
    ensures forall k :: |acc| <= k < |r| ==> r[k] in xs
    ensures forall j, k :: 0 <= j < k && |acc| <= k < |r| ==> !Clash(r[j], r[k])
    ensures forall x :: x in xs ==> ClashesWithAny(r, x)
    decreases |xs|
  {
    if xs == [] then acc
    else
      var acc' := if ClashesWithAny(acc, xs[0]) then acc else acc + [xs[0]];
      var r := AppendUnique(acc', xs[1..]);
      AppendUniqueStepFacts(acc, xs[0], acc', xs[1..], r);
      assert [xs[0]] + xs[1..] == xs;
      r
  }

  /** The contract of one step of `AppendUnique`, from that of the rest. */
  lemma AppendUniqueStepFacts(acc: seq<AgentModel>, x: AgentModel, acc': seq<AgentModel>, tail: seq<AgentModel>, r: seq<AgentModel>)
    requires acc' == if ClashesWithAny(acc, x) then acc else acc + [x]
    requires |acc'| <= |r| && r[..|acc'|] == acc'
    requires forall k :: |acc'| <= k < |r| ==> r[k] in tail
    requires forall j, k :: 0 <= j < k && |acc'| <= k < |r| ==> !Clash(r[j], r[k])
    requires forall y :: y in tail ==> ClashesWithAny(r, y)
    ensures r[..|acc|] == acc
    ensures forall k :: |acc| <= k < |r| ==> r[k] in [x] + tail
    ensures forall j, k :: 0 <= j < k && |acc| <= k < |r| ==> !Clash(r[j], r[k])
    ensures forall y :: y in [x] + tail ==> ClashesWithAny(r, y)
  {
    assert r[..|acc|] == acc by {
      assert r[..|acc|] == r[..|acc'|][..|acc|];
    }
    assert ClashesWithAny(r, x) by {
      var j :| 0 <= j < |acc'| && Clash(acc'[j], x);
      assert r[j] == r[..|acc'|][j];
    }
    if |acc'| > |acc| {
      assert r[|acc|] == r[..|acc'|][|acc|] == x;
      forall j | 0 <= j < |acc|
        ensures !Clash(r[j], x)
      {
        assert r[j] == acc[j];
      }
    }
  }

  /** The `forEach` as a left fold: the last candidate is appended to what
      the earlier ones built exactly when nothing in that list clashes with it. */
  lemma {:induction false} AppendUniqueSnoc(acc: seq<AgentModel>, xs: seq<AgentModel>, x: AgentModel)
    ensures AppendUnique(acc, xs + [x]) ==
      var r := AppendUnique(acc, xs);
      if ClashesWithAny(r, x) then r else r + [x]
    decreases |xs|
  {
    if xs == [] {
      assert xs + [x] == [x];
      AppendUniqueStep(acc, [x]);
    } else {
      var acc' := if ClashesWithAny(acc, xs[0]) then acc else acc + [xs[0]];
      assert (xs + [x])[0] == xs[0] && (xs + [x])[1..] == xs[1..] + [x];
      AppendUniqueStep(acc, xs + [x]);
      AppendUniqueStep(acc, xs);
      AppendUniqueSnoc(acc', xs[1..], x);
    }
  }

  /** Models that clash with neither the list nor each other are all
      appended, in order. */
  lemma {:induction false} AppendUniqueKeepsFresh(acc: seq<AgentModel>, xs: seq<AgentModel>)
    requires forall i :: 0 <= i < |xs| ==> !ClashesWithAny(acc, xs[i])
    requires forall i, j :: 0 <= i < j < |xs| ==> !Clash(xs[i], xs[j])
    ensures AppendUnique(acc, xs) == acc + xs
    decreases |xs|
  {
    if xs != [] {
      var acc' := acc + [xs[0]];
      assert !ClashesWithAny(acc, xs[0]);
      AppendUniqueStep(acc, xs);
      FreshTailStaysFresh(acc, xs);
      AppendUniqueKeepsFresh(acc', xs[1..]);
      MoveHead(acc, xs);
    }
  }

  lemma MoveHead<T>(a: seq<T>, xs: seq<T>)
    requires xs != []
    ensures a + [xs[0]] + xs[1..] == a + xs
  {
    assert [xs[0]] + xs[1..] == xs;
  }

  /** One step of the `forEach`. */
  lemma AppendUniqueStep(acc: seq<AgentModel>, xs: seq<AgentModel>)
    requires xs != []
    ensures AppendUnique(acc, xs)
      == AppendUnique(if ClashesWithAny(acc, xs[0]) then acc else acc + [xs[0]], xs[1..])
  {
  }

  /** The side conditions of the step: after appending the first model, the
      rest still clash with neither the list nor each other. */
  lemma FreshTailStaysFresh(acc: seq<AgentModel>, xs: seq<AgentModel>)
    requires xs != []
    requires forall i :: 0 <= i < |xs| ==> !ClashesWithAny(acc, xs[i])
    requires forall i, j :: 0 <= i < j < |xs| ==> !Clash(xs[i], xs[j])
    ensures forall i :: 0 <= i < |xs[1..]| ==> !ClashesWithAny(acc + [xs[0]], xs[1..][i])
    ensures forall i, j :: 0 <= i < j < |xs[1..]| ==> !Clash(xs[1..][i], xs[1..][j])
  {
    forall i | 0 <= i < |xs[1..]|
      ensures !ClashesWithAny(acc + [xs[0]], xs[1..][i])
    {
      assert xs[1..][i] == xs[i + 1];
      ClashesWithAppended(acc, xs[0], xs[i + 1]);
    }
    forall i, j | 0 <= i < j < |xs[1..]|
      ensures !Clash(xs[1..][i], xs[1..][j])
    {
      assert xs[1..][i] == xs[i + 1] && xs[1..][j] == xs[j + 1];
    }
  }

  lemma ClashesWithAppended(acc: seq<AgentModel>, m: AgentModel, y: AgentModel)
    ensures ClashesWithAny(acc + [m], y) <==> ClashesWithAny(acc, y) || Clash(m, y)
  {
    if ClashesWithAny(acc, y) {
      var j :| 0 <= j < |acc| && Clash(acc[j], y);
      assert (acc + [m])[j] == acc[j];
    }
    assert (acc + [m])[|acc|] == m;
  }

  /** Appending the same models again adds nothing. */
  lemma {:induction false} AppendUniqueIdempotent(acc: seq<AgentModel>, xs: seq<AgentModel>)
    ensures AppendUnique(AppendUnique(acc, xs), xs) == AppendUnique(acc, xs)
  {
    var r := AppendUnique(acc, xs);
    AppendUniqueAllClash(r, xs);
  }

  /** When every model clashes with the list, the list is unchanged. */
  lemma {:induction false} AppendUniqueAllClash(acc: seq<AgentModel>, xs: seq<AgentModel>)
    requires forall x :: x in xs ==> ClashesWithAny(acc, x)
    ensures AppendUnique(acc, xs) == acc
    decreases |xs|
  {
    if xs != [] {
      assert xs[0] in xs;
      assert forall x :: x in xs[1..] ==> x in xs;
      AppendUniqueAllClash(acc, xs[1..]);
    }
  }

  /** One entry of the proxy's `/model/info` answer. */
  datatype ProxyModelInfo = ProxyModelInfo(modelName: Option<string>, litellmModel: Option<string>)

  /** How the proxy request ended: it threw (network failure, timeout, bad
      JSON or a malformed entry), answered with a non-OK status, or answered
      OK with a `data` array or without one. */
  datatype ProxyResult = ProxyThrows | ProxyNotOk | ProxyOk(data: Option<seq<ProxyModelInfo>>)

  /** How the direct Ollama request ended; `models` is the list of model
      names, absent when the answer has no `models` array. */
  datatype OllamaResult = OllamaThrows | OllamaNotOk | OllamaOk(models: Option<seq<string>>)

  /** The constant model lists of the three vendors. */
  datatype Catalogs = Catalogs(anthropic: seq<AgentModel>, openai: seq<AgentModel>, google: seq<AgentModel>)

  const FallbackTitle: string := "Ollama (with Fallback to Gemini)"
  const DefaultOllamaModel: string := "ollama/llama3.2"

  /** The entry always placed first. */
  function FallbackEntry(env: Config): (m: AgentModel)
    ensures m.provider == "fallback" && m.title == FallbackTitle && m.contextWindow == ContextWindow
    ensures IsSet(env, "OLLAMA_MODEL") ==> m.name == env["OLLAMA_MODEL"]
    ensures !IsSet(env, "OLLAMA_MODEL") ==> m.name == DefaultOllamaModel
  {
    AgentModel("fallback", LookupNonEmpty(env, "OLLAMA_MODEL", DefaultOllamaModel), FallbackTitle, ContextWindow)
  }

  /** A proxy entry: named by its LiteLLM model, else its model name; titled
      by its model name, else its LiteLLM model, else 'Unknown'. */
  function ProxyEntry(info: ProxyModelInfo): (m: AgentModel)
    ensures m.provider == "proxy" && m.contextWindow == ContextWindow
    ensures Given(info.litellmModel) ==> m.name == info.litellmModel.value
    ensures !Given(info.litellmModel) ==> m.name == info.modelName.GetOr("")
    ensures Given(info.modelName) ==> m.title == info.modelName.value
    ensures !Given(info.modelName) && Given(info.litellmModel) ==> m.title == info.litellmModel.value
    ensures !Given(info.modelName) && !Given(info.litellmModel) ==> m.title == "Unknown"
    ensures m.title != ""
  {
    var name := if Given(info.litellmModel) then info.litellmModel.value else info.modelName.GetOr("");
    var title :=
      if Given(info.modelName) then info.modelName.value
      else if Given(info.litellmModel) then info.litellmModel.value
      else "Unknown";
    AgentModel("proxy", name, title, ContextWindow)
  }

  function ProxyEntries(data: seq<ProxyModelInfo>): (r: seq<AgentModel>)
    ensures |r| == |data|
    ensures forall i :: 0 <= i < |data| ==> r[i] == ProxyEntry(data[i])
  {
    if data == [] then [] else [ProxyEntry(data[0])] + ProxyEntries(data[1..])
  }

  /** An Ollama model `n` becomes `ollama/n`, titled `n`. */
  function OllamaEntry(n: string): (m: AgentModel)
    ensures m.provider == "proxy" && m.contextWindow == ContextWindow && m.title == n
    ensures StartsWith(m.name, "ollama/") && m.name[|"ollama/"|..] == m.title
  {
    AgentModel("proxy", "ollama/" + n, n, ContextWindow)
  }

  function OllamaEntries(names: seq<string>): (r: seq<AgentModel>)
    ensures |r| == |names|
    ensures forall i :: 0 <= i < |names| ==> r[i] == OllamaEntry(names[i])
  {
    if names == [] then [] else [OllamaEntry(names[0])] + OllamaEntries(names[1..])
  }

  /** The module-level `models`: the vendor lists whose API key is set, in
      the order anthropic, openai, google. */
  function ConfiguredModels(env: Config, catalogs: Catalogs): (r: seq<AgentModel>)
    ensures |r| ==
      (if IsSet(env, "ANTHROPIC_API_KEY") then |catalogs.anthropic| else 0)
      + (if IsSet(env, "OPENAI_API_KEY") then |catalogs.openai| else 0)
      + (if IsSet(env, "GEMINI_API_KEY") then |catalogs.google| else 0)
    ensures IsSet(env, "ANTHROPIC_API_KEY") ==> r[..|catalogs.anthropic|] == catalogs.anthropic
    ensures IsSet(env, "OPENAI_API_KEY") ==>
      var a := if IsSet(env, "ANTHROPIC_API_KEY") then |catalogs.anthropic| else 0;
      r[a..a + |catalogs.openai|] == catalogs.openai
    ensures IsSet(env, "GEMINI_API_KEY") ==> r[|r| - |catalogs.google|..] == catalogs.google
    ensures forall m :: m in r ==>
      || (IsSet(env, "ANTHROPIC_API_KEY") && m in catalogs.anthropic)
      || (IsSet(env, "OPENAI_API_KEY") && m in catalogs.openai)
      || (IsSet(env, "GEMINI_API_KEY") && m in catalogs.google)
  {
    (if IsSet(env, "ANTHROPIC_API_KEY") then catalogs.anthropic else [])
    + (if IsSet(env, "OPENAI_API_KEY") then catalogs.openai else [])
    + (if IsSet(env, "GEMINI_API_KEY") then catalogs.google else [])
  }

  /** A model is in the configured list exactly when it belongs to a
      catalogue whose API key is set. */
  lemma ConfiguredModelsMembership(env: Config, catalogs: Catalogs, m: AgentModel)
    ensures m in ConfiguredModels(env, catalogs) <==>
      || (IsSet(env, "ANTHROPIC_API_KEY") && m in catalogs.anthropic)
      || (IsSet(env, "OPENAI_API_KEY") && m in catalogs.openai)
      || (IsSet(env, "GEMINI_API_KEY") && m in catalogs.google)
  {
  }

  /** What the proxy and Ollama answers contribute between the fallback
      entry and the configured models. */
  function DiscoveredModels(head: seq<AgentModel>, proxy: ProxyResult, ollama: OllamaResult): (r: seq<AgentModel>)
    ensures |r| >= |head| && r[..|head|] == head
    ensures proxy.ProxyOk? && proxy.data.Some? ==>
      && |r| == |head| + |proxy.data.value|
      && forall i :: 0 <= i < |proxy.data.value| ==> r[|head| + i] == ProxyEntry(proxy.data.value[i])
    ensures proxy.ProxyNotOk? || (proxy.ProxyOk? && proxy.data.None?) ==> r == head
    ensures proxy.ProxyThrows? && !(ollama.OllamaOk? && ollama.models.Some?) ==> r == head
  {
    match proxy
    case ProxyOk(data) =>
      if data.Some? then head + ProxyEntries(data.value) else head
    case ProxyNotOk => head
    case ProxyThrows =>
      if ollama.OllamaOk? && ollama.models.Some? then AppendUnique(head, OllamaEntries(ollama.models.value))
      else head
  }

  /** `getModels`: the fallback entry, what the proxy or Ollama answers
      contribute, then the configured vendor models. */
  function GetModels(env: Config, proxy: ProxyResult, ollama: OllamaResult, catalogs: Catalogs): (models: seq<AgentModel>)
    ensures |models| >= 1 + |ConfiguredModels(env, catalogs)|
    ensures models[0] == FallbackEntry(env)
    ensures models[|models| - |ConfiguredModels(env, catalogs)|..] == ConfiguredModels(env, catalogs)
    ensures proxy.ProxyOk? && proxy.data.Some? ==>
      && |models| == 1 + |proxy.data.value| + |ConfiguredModels(env, catalogs)|
      && forall i :: 0 <= i < |proxy.data.value| ==> models[1 + i] == ProxyEntry(proxy.data.value[i])
    ensures proxy.ProxyNotOk? || (proxy.ProxyOk? && proxy.data.None?) ==>
      models == [FallbackEntry(env)] + ConfiguredModels(env, catalogs)
  {
    var found := DiscoveredModels([FallbackEntry(env)], proxy, ollama);
    var configured := ConfiguredModels(env, catalogs);
    var models := found + configured;
    assert models[..|found|] == found;
    assert models[|models| - |configured|..] == configured;
    models
  }

  /** The list is the discovered part followed by the configured models. */
  lemma GetModelsParts(env: Config, proxy: ProxyResult, ollama: OllamaResult, catalogs: Catalogs)
    ensures var models := GetModels(env, proxy, ollama, catalogs);
      var found := DiscoveredModels([FallbackEntry(env)], proxy, ollama);
      && |models| - |ConfiguredModels(env, catalogs)| == |found|
      && models[..|found|] == found
  {
    var models := GetModels(env, proxy, ollama, catalogs);
    var found := DiscoveredModels([FallbackEntry(env)], proxy, ollama);
    assert models == found + ConfiguredModels(env, catalogs);
    assert models[..|found|] == found;
  }

  /** The Ollama entries appended after `head` are entries of reported
      models, and every reported model clashes with the result. */
  lemma OllamaDiscovery(head: seq<AgentModel>, names: seq<string>)
    ensures var found := AppendUnique(head, OllamaEntries(names));
      && (forall k :: |head| <= k < |found| ==> exists i :: 0 <= i < |names| && found[k] == OllamaEntry(names[i]))
      && (forall j, k :: 0 <= j < k < |found| && |head| <= k ==> !Clash(found[j], found[k]))
      && (forall n :: n in names ==> ClashesWithAny(found, OllamaEntry(n)))
  {
    var xs := OllamaEntries(names);
    var found := AppendUnique(head, xs);
    forall k | |head| <= k < |found|
      ensures exists i :: 0 <= i < |names| && found[k] == OllamaEntry(names[i])
    {
      assert found[k] in xs;
      var i :| 0 <= i < |xs| && xs[i] == found[k];
      assert found[k] == OllamaEntry(names[i]);
    }
    forall n | n in names
      ensures ClashesWithAny(found, OllamaEntry(n))
    {
      var i :| 0 <= i < |names| && names[i] == n;
      assert xs[i] == OllamaEntry(n);
      assert OllamaEntry(n) in xs;
    }
  }

  /** When the proxy request throws and Ollama answers with a model list,
      the entries between the fallback entry and the configured models are
      what the de-duplicating `forEach` keeps of the reported models' entries
      taken in report order: each is the entry of a reported model, no entry
      clashes with one before it, and every reported model clashes with that
      part of the list. Without a usable Ollama answer nothing is added. */
  lemma OllamaEntriesDeduplicated(env: Config, ollama: OllamaResult, catalogs: Catalogs)
    ensures var models := GetModels(env, ProxyThrows, ollama, catalogs);
      var found := models[..|models| - |ConfiguredModels(env, catalogs)|];
      && (ollama.OllamaOk? && ollama.models.Some? ==>
            var names := ollama.models.value;
            && found == AppendUnique([FallbackEntry(env)], OllamaEntries(names))
            && (forall k :: 1 <= k < |found| ==> exists i :: 0 <= i < |names| && found[k] == OllamaEntry(names[i]))
            && (forall j, k :: 0 <= j < k < |found| ==> !Clash(found[j], found[k]))
            && (forall n :: n in names ==> ClashesWithAny(found, OllamaEntry(n))))
      && (!(ollama.OllamaOk? && ollama.models.Some?) ==> found == [FallbackEntry(env)])
  {
    GetModelsParts(env, ProxyThrows, ollama, catalogs);
    if ollama.OllamaOk? && ollama.models.Some? {
      OllamaDiscovery([FallbackEntry(env)], ollama.models.value);
    }
  }

  /** Ollama is consulted only when the proxy request throws: a non-OK
      status or any OK answer leaves the Ollama answer unused. */
  lemma OllamaOnlyWhenProxyThrows(env: Config, proxy: ProxyResult, a: OllamaResult, b: OllamaResult, catalogs: Catalogs)
    requires !proxy.ProxyThrows?
    ensures GetModels(env, proxy, a, catalogs) == GetModels(env, proxy, b, catalogs)
  {
  }

  /** The fallback entry is the only one of provider 'fallback' as long as
      the vendor lists hold none. */
  lemma SingleFallbackEntry(env: Config, proxy: ProxyResult, ollama: OllamaResult, catalogs: Catalogs)
    requires forall m :: m in catalogs.anthropic + catalogs.openai + catalogs.google ==> m.provider != "fallback"
    ensures var models := GetModels(env, proxy, ollama, catalogs);
      forall k :: 0 <= k < |models| ==> (models[k].provider == "fallback" <==> k == 0)
  {
    var models := GetModels(env, proxy, ollama, catalogs);
    var configured := ConfiguredModels(env, catalogs);
    var found := DiscoveredModels([FallbackEntry(env)], proxy, ollama);
    assert models == found + configured;
    forall k | 1 <= k < |models|
      ensures models[k].provider != "fallback"
    {
      if k >= |found| {
        assert models[k] == configured[k - |found|];
        assert models[k] in configured;
      } else if proxy.ProxyOk? && proxy.data.Some? {
        assert models[k] == ProxyEntry(proxy.data.value[k - 1]);
      } else {
        assert models[k] == found[k];
      }
    }
  }
}
