/** `generateMessage`: an optional preferred attempt with the requested
    model, then the walk of the fallback chain. Provider calls are an
    oracle: `oracle(n)` is how the n-th call of this dispatch ends. */
module Dispatch {
  import opened Wrappers
  import opened Strings
  import opened Providers
  import opened FallbackChain
  import opened ModelResolution

  /** How one provider call ends: a response, the agent interrupt (the
      cancellation class), or any other error, whose message may be absent. */
  datatype Outcome<R> = Ok(response: R) | Interrupt | Fail(message: Option<string>) {

    /** The message carried by a plain failure; the other outcomes carry none. */
    function ErrorMessage(): Option<string> {
      if Fail? then message else None
    }
  }

  /** One record of the error list. */
  datatype ProviderError = ProviderError(provider: Provider, error: string)

  /** How the dispatch ends: the response returned, the interrupt rethrown,
      or the combined error thrown with the list it was built from. */
  datatype Result<R> = Success(response: R) | Interrupted | AllFailed(errors: seq<ProviderError>, message: string)

  /** The calls made, in order, each as (provider, model argument), and the end. */
  datatype Run<R> = Run(trace: seq<Route>, result: Result<R>)

  const FailurePrefix: string := "All fallback providers failed. Errors: "

  /** `error?.message || 'Unknown error'`. */
  function ErrorText(message: Option<string>): (text: string)
    ensures text != ""
    ensures message.Some? && message.value != "" ==> text == message.value
    ensures message.None? || message.value == "" ==> text == "Unknown error"
  {
    if message.Some? && message.value != "" then message.value else "Unknown error"
  }

  /** `${provider}: ${error}`: the provider id, a colon and a space, then
      the error text, which can be read back from the rendered line. */
  function Render(e: ProviderError): (line: string)
    ensures StartsWith(line, e.provider.Id() + ": ")
    ensures line[|e.provider.Id()| + 2..] == e.error
  {
    e.provider.Id() + ": " + e.error
  }

  function RenderAll(errors: seq<ProviderError>): (lines: seq<string>)
    ensures |lines| == |errors|
    ensures forall j :: 0 <= j < |errors| ==> lines[j] == Render(errors[j])
  {
    if errors == [] then [] else [Render(errors[0])] + RenderAll(errors[1..])
  }

  /** The message of the error thrown when every chain entry failed: the
      fixed prefix, then the first rendered record, if any. */
  function FailureMessage(errors: seq<ProviderError>): (m: string)
    ensures StartsWith(m, FailurePrefix)
    ensures errors != [] ==> StartsWith(m, FailurePrefix + Render(errors[0]))
  {
    FailurePrefix + Join(RenderAll(errors), "; ")
  }

  /** The combined message starts with the fixed prefix, is exactly the
      prefix for an empty list, and mentions every recorded error. */
  lemma FailureMessageReportsEveryError(errors: seq<ProviderError>)
    ensures StartsWith(FailureMessage(errors), FailurePrefix)
    ensures errors == [] ==> FailureMessage(errors) == FailurePrefix
    ensures |errors| == 1 ==> FailureMessage(errors) == FailurePrefix + errors[0].provider.Id() + ": " + errors[0].error
    ensures forall j :: 0 <= j < |errors| ==> Contains(FailureMessage(errors), Render(errors[j]))
  {
    var m := FailureMessage(errors);
    assert m[..|FailurePrefix|] == FailurePrefix;
    forall j | 0 <= j < |errors|
      ensures Contains(m, Render(errors[j]))
    {
      JoinContainsParts(RenderAll(errors), "; ", j);
      ContainsInConcat(FailurePrefix, Join(RenderAll(errors), "; "), Render(errors[j]));
    }
  }

  /** Recording one more failure appends `"; "` and its rendered record to
      the combined message: with `FailureMessage([]) == FailurePrefix` and the
      one-record case, the records appear in list order, separated by `"; "`. */
  lemma FailureMessageSnoc(errors: seq<ProviderError>, e: ProviderError)
    requires errors != []
    ensures FailureMessage(errors + [e]) == FailureMessage(errors) + "; " + Render(e)
  {
    var lines := RenderAll(errors);
    var joined := Join(lines, "; ");
    calc {
      FailureMessage(errors + [e]);
      FailurePrefix + Join(RenderAll(errors + [e]), "; ");
      { RenderAllSnoc(errors, e); }
      FailurePrefix + Join(lines + [Render(e)], "; ");
      { JoinSnoc(lines, Render(e), "; "); }
      FailurePrefix + (joined + "; " + Render(e));
      FailurePrefix + joined + "; " + Render(e);
    }
  }

  lemma RenderAllSnoc(errors: seq<ProviderError>, e: ProviderError)
    ensures RenderAll(errors + [e]) == RenderAll(errors) + [Render(e)]
  {
    var lines := RenderAll(errors + [e]);
    assert forall j :: 0 <= j < |errors| ==> lines[j] == Render(errors[j]) by {
      forall j | 0 <= j < |errors| ensures lines[j] == Render(errors[j]) {
        assert (errors + [e])[j] == errors[j];
      }
    }
  }

  /** The chain walk over the entries still to try, `k` being the oracle
      index of the next call and `errors` the list recorded so far. Each
      entry is called with its own model; the first response is returned,
      an interrupt is rethrown at once, and any other error is recorded and
      the walk goes on. */
  function Walk<R>(rest: Chain, oracle: nat -> Outcome<R>, k: nat, errors: seq<ProviderError>): (run: Run<R>)
    ensures |run.trace| <= |rest|
    ensures rest != [] ==> |run.trace| > 0 && run.trace[0] == rest[0].ToRoute()
    decreases |rest|
  {
    if rest == [] then
      Run([], AllFailed(errors, FailureMessage(errors)))
    else
      var attempt := rest[0].ToRoute();
      match oracle(k)
      case Ok(response) => Run([attempt], Success(response))
      case Interrupt => Run([attempt], Interrupted)
      case Fail(message) =>
        var next := Walk(rest[1..], oracle, k + 1, errors + [ProviderError(rest[0].provider, ErrorText(message))]);
        Run([attempt] + next.trace, next.result)
  }

  /** The walk calls entries in chain order, each with its own model, and
      moves on only past plain failures. */
  lemma {:induction false} WalkFollowsChain<R>(rest: Chain, oracle: nat -> Outcome<R>, k: nat, errors: seq<ProviderError>)
    ensures var run := Walk(rest, oracle, k, errors);
      && |run.trace| <= |rest|
      && run.trace == GetAvailableProviders(rest)[..|run.trace|]
      && forall n :: k <= n < k + |run.trace| - 1 ==> oracle(n).Fail?
    decreases |rest|
  {
    if rest != [] && oracle(k).Fail? {
      var message := oracle(k).message;
      var errors' := errors + [ProviderError(rest[0].provider, ErrorText(message))];
      WalkFollowsChain(rest[1..], oracle, k + 1, errors');
      var next := Walk(rest[1..], oracle, k + 1, errors');
      assert Walk(rest, oracle, k, errors).trace == [rest[0].ToRoute()] + next.trace;
      assert GetAvailableProviders(rest) == [rest[0].ToRoute()] + GetAvailableProviders(rest[1..]);
    }
  }

  /** The walk ends with a response or an interrupt only at the call that
      produced it. */
  lemma {:induction false} WalkStopsWhereAnswered<R>(rest: Chain, oracle: nat -> Outcome<R>, k: nat, errors: seq<ProviderError>)
    ensures var run := Walk(rest, oracle, k, errors);
      && (run.result.Success? ==> |run.trace| > 0 && oracle(k + |run.trace| - 1) == Ok(run.result.response))
      && (run.result.Interrupted? ==> |run.trace| > 0 && oracle(k + |run.trace| - 1).Interrupt?)
    decreases |rest|
  {
    if rest != [] && oracle(k).Fail? {
      var message := oracle(k).message;
      var errors' := errors + [ProviderError(rest[0].provider, ErrorText(message))];
      WalkStopsWhereAnswered(rest[1..], oracle, k + 1, errors');
    }
  }

  /** The walk ends in the combined error only after every entry was called
      and failed plainly, and the message is built from the final list. */
  lemma {:induction false} WalkExhaustion<R>(rest: Chain, oracle: nat -> Outcome<R>, k: nat, errors: seq<ProviderError>)
    ensures var run := Walk(rest, oracle, k, errors);
      run.result.AllFailed? ==>
        && |run.trace| == |rest|
        && (forall n :: k <= n < k + |rest| ==> oracle(n).Fail?)
        && run.result.message == FailureMessage(run.result.errors)
    decreases |rest|
  {
    if rest != [] && oracle(k).Fail? {
      var errors' := errors + [ProviderError(rest[0].provider, ErrorText(oracle(k).message))];
      WalkExhaustion(rest[1..], oracle, k + 1, errors');
    }
  }

  /** The walk's first call that does not fail plainly is its last: its
      response is returned or its interrupt rethrown. */
  lemma {:induction false} WalkFirstNonFailure<R>(rest: Chain, oracle: nat -> Outcome<R>, k: nat, errors: seq<ProviderError>, n: nat)
    requires n < |rest|
    requires forall m :: k <= m < k + n ==> oracle(m).Fail?
    requires !oracle(k + n).Fail?
    ensures var run := Walk(rest, oracle, k, errors);
      && |run.trace| == n + 1
      && run.trace[n] == rest[n].ToRoute()
      && (oracle(k + n).Ok? ==> run.result == Success(oracle(k + n).response))
      && (oracle(k + n).Interrupt? ==> run.result == Interrupted)
    decreases n
  {
    if n > 0 {
      assert oracle(k).Fail?;
      var errors' := errors + [ProviderError(rest[0].provider, ErrorText(oracle(k).message))];
      WalkFirstNonFailure(rest[1..], oracle, k + 1, errors', n - 1);
      var next := Walk(rest[1..], oracle, k + 1, errors');
      assert Walk(rest, oracle, k, errors) == Run([rest[0].ToRoute()] + next.trace, next.result);
      assert rest[1..][n - 1] == rest[n];
    }
  }

  /** Once the first `i` calls fail plainly, the walk calls entry `i`. */
  lemma {:induction false} WalkReaches<R>(rest: Chain, oracle: nat -> Outcome<R>, k: nat, errors: seq<ProviderError>, i: nat)
    requires i < |rest|
    requires forall m :: k <= m < k + i ==> oracle(m).Fail?
    ensures var run := Walk(rest, oracle, k, errors);
      |run.trace| > i && run.trace[i] == rest[i].ToRoute()
    decreases i
  {
    if i > 0 {
      assert oracle(k).Fail?;
      var errors' := errors + [ProviderError(rest[0].provider, ErrorText(oracle(k).message))];
      WalkReaches(rest[1..], oracle, k + 1, errors', i - 1);
      var next := Walk(rest[1..], oracle, k + 1, errors');
      assert Walk(rest, oracle, k, errors) == Run([rest[0].ToRoute()] + next.trace, next.result);
      assert rest[1..][i - 1] == rest[i];
    }
  }

  /** `out` extends `errors` by one record per entry of `rest`, the j-th
      naming entry j and the text of oracle call `k + j`. */
  ghost predicate RecordsFor<R>(rest: Chain, oracle: nat -> Outcome<R>, k: nat, errors: seq<ProviderError>, out: seq<ProviderError>) {
    && |out| == |errors| + |rest|
    && out[..|errors|] == errors
    && forall j :: 0 <= j < |rest| ==>
         out[|errors| + j] == ProviderError(rest[j].provider, ErrorText(oracle(k + j).ErrorMessage()))
  }

  lemma RecordsForCons<R>(rest: Chain, oracle: nat -> Outcome<R>, k: nat, errors: seq<ProviderError>, out: seq<ProviderError>)
    requires rest != []
    requires RecordsFor(rest[1..], oracle, k + 1, errors + [ProviderError(rest[0].provider, ErrorText(oracle(k).ErrorMessage()))], out)
    ensures RecordsFor(rest, oracle, k, errors, out)
  {
    var record := ProviderError(rest[0].provider, ErrorText(oracle(k).ErrorMessage()));
    var errors' := errors + [record];
    assert out[..|errors'|] == errors';
    assert out[..|errors|] == errors by {
      assert out[..|errors|] == out[..|errors'|][..|errors|];
    }
    assert out[|errors|] == record by {
      assert out[|errors|] == out[..|errors'|][|errors|];
    }
    forall j | 0 <= j < |rest|
      ensures out[|errors| + j] == ProviderError(rest[j].provider, ErrorText(oracle(k + j).ErrorMessage()))
    {
      if j > 0 {
        var j' := j - 1;
        assert rest[j] == rest[1..][j'];
        assert out[|errors'| + j'] == ProviderError(rest[1..][j'].provider, ErrorText(oracle(k + 1 + j').ErrorMessage()));
      }
    }
  }

  /** When the walk ends in the combined error, the list extends the records
      it started with by one record per entry, in chain order, each naming
      the entry's provider and the text of its error. */
  lemma {:induction false} WalkRecordsEachFailure<R>(rest: Chain, oracle: nat -> Outcome<R>, k: nat, errors: seq<ProviderError>)
    ensures var run := Walk(rest, oracle, k, errors);
      run.result.AllFailed? ==> RecordsFor(rest, oracle, k, errors, run.result.errors)
    decreases |rest|
  {
    if rest != [] && oracle(k).Fail? {
      var errors' := errors + [ProviderError(rest[0].provider, ErrorText(oracle(k).ErrorMessage()))];
      WalkRecordsEachFailure(rest[1..], oracle, k + 1, errors');
      var next := Walk(rest[1..], oracle, k + 1, errors');
      assert Walk(rest, oracle, k, errors).result == next.result;
      if next.result.AllFailed? {
        RecordsForCons(rest, oracle, k, errors, next.result.errors);
      }
    }
  }

  /** The entry the preferred attempt goes to: only a non-empty requested
      model is resolved. */
  function Preferred(chain: Chain, model: Option<string>): (r: Option<Entry>)
    ensures r.Some? ==> model.Some? && model.value != "" && r.value in chain
    ensures model.None? || model.value == "" ==> r.None?
    ensures model.Some? && model.value != "" ==> r == FindProviderForModel(chain, model.value)
  {
    if model.Some? && model.value != "" then FindProviderForModel(chain, model.value) else None
  }

  /** Where the chain walk starts, in the trace and in the oracle: after the
      preferred attempt when there is one. */
  function WalkStart(chain: Chain, model: Option<string>): nat {
    if Preferred(chain, model).Some? then 1 else 0
  }

  /** The dispatch. The preferred attempt, if any, calls the resolved entry
      with the requested model string; its response is returned, and every
      failure of it, an interrupt included, is dropped before the walk. */
  function GenerateMessage<R>(chain: Chain, model: Option<string>, oracle: nat -> Outcome<R>): (run: Run<R>)
    ensures model.Some? && model.value != "" && FindProviderForModel(chain, model.value).Some? ==>
      |run.trace| > 0 && run.trace[0] == Route(FindProviderForModel(chain, model.value).value.provider, model.value)
    ensures Preferred(chain, model).Some? && oracle(0).Ok? ==>
      run == Run([Route(Preferred(chain, model).value.provider, model.value)], Success(oracle(0).response))
    ensures Preferred(chain, model).None? ==> |run.trace| <= |chain|
    ensures |run.trace| <= |chain| + 1
  {
    WalkFollowsChain(chain, oracle, 0, []);
    WalkFollowsChain(chain, oracle, 1, []);
    match Preferred(chain, model)
    case None =>
      Walk(chain, oracle, 0, [])
    case Some(entry) =>
      var first := Route(entry.provider, model.value);
      match oracle(0)
      case Ok(response) => Run([first], Success(response))
      case _ =>
        var walk := Walk(chain, oracle, 1, []);
        Run([first] + walk.trace, walk.result)
  }

  /** Unless the preferred attempt answered, the dispatch is the preferred
      call (if any) followed by the walk of the whole chain from oracle
      index `WalkStart`, with an empty error list: the preferred failure is
      never recorded. */
  lemma DispatchIsWalk<R>(chain: Chain, model: Option<string>, oracle: nat -> Outcome<R>)
    requires Preferred(chain, model).None? || !oracle(0).Ok?
    ensures var run := GenerateMessage(chain, model, oracle);
      var b := WalkStart(chain, model);
      var walk := Walk(chain, oracle, b, []);
      && |run.trace| == b + |walk.trace|
      && run.trace[b..] == walk.trace
      && run.result == walk.result
  {
    var run := GenerateMessage(chain, model, oracle);
    if Preferred(chain, model).Some? {
      assert run.trace == [run.trace[0]] + Walk(chain, oracle, 1, []).trace;
    }
  }

  /** Chain attempts happen in chain order with each entry's own model, the
      walk passes an entry only when it failed plainly, and the walk never
      calls more than the chain's entries. */
  lemma ChainAttemptsInOrder<R>(chain: Chain, model: Option<string>, oracle: nat -> Outcome<R>)
    requires Preferred(chain, model).None? || !oracle(0).Ok?
    ensures var run := GenerateMessage(chain, model, oracle);
      var b := WalkStart(chain, model);
      && b <= |run.trace| <= b + |chain|
      && run.trace[b..] == GetAvailableProviders(chain)[..|run.trace| - b]
      && forall n :: b <= n < |run.trace| - 1 ==> oracle(n).Fail?
  {
    DispatchIsWalk(chain, model, oracle);
    WalkFollowsChain(chain, oracle, WalkStart(chain, model), []);
  }

  /** The first response of the walk is returned, and an interrupt from a
      chain entry is rethrown: in both cases the answering call is the last
      call made. */
  lemma LastCallDecides<R>(chain: Chain, model: Option<string>, oracle: nat -> Outcome<R>)
    requires Preferred(chain, model).None? || !oracle(0).Ok?
    ensures var run := GenerateMessage(chain, model, oracle);
      var b := WalkStart(chain, model);
      && (run.result.Success? ==> |run.trace| > b && oracle(|run.trace| - 1) == Ok(run.result.response))
      && (run.result.Interrupted? ==> |run.trace| > b && oracle(|run.trace| - 1).Interrupt?)
  {
    DispatchIsWalk(chain, model, oracle);
    WalkStopsWhereAnswered(chain, oracle, WalkStart(chain, model), []);
  }

  /** When the dispatch throws the combined error, every entry was called
      once with its own model and failed plainly, the list holds exactly one
      record per entry in chain order, and the message is built from it. */
  lemma ExhaustionRecordsEveryEntry<R>(chain: Chain, model: Option<string>, oracle: nat -> Outcome<R>)
    ensures var run := GenerateMessage(chain, model, oracle);
      var b := WalkStart(chain, model);
      run.result.AllFailed? ==>
        && |run.trace| == b + |chain|
        && run.trace[b..] == GetAvailableProviders(chain)
        && |run.result.errors| == |chain|
        && (forall n :: b <= n < b + |chain| ==> oracle(n).Fail?)
        && (forall j :: 0 <= j < |chain| ==>
              run.result.errors[j] == ProviderError(chain[j].provider, ErrorText(oracle(b + j).ErrorMessage())))
        && run.result.message == FailureMessage(run.result.errors)
  {
    var run := GenerateMessage(chain, model, oracle);
    if run.result.AllFailed? {
      DispatchIsWalk(chain, model, oracle);
      WalkExhaustionRecords(chain, oracle, WalkStart(chain, model));
    }
  }

  /** A walk from an empty list that ends in the combined error called every
      entry, each failing plainly, and recorded one error per entry. */
  lemma WalkExhaustionRecords<R>(rest: Chain, oracle: nat -> Outcome<R>, k: nat)
    ensures var walk := Walk(rest, oracle, k, []);
      walk.result.AllFailed? ==>
        && |walk.trace| == |rest|
        && walk.trace == GetAvailableProviders(rest)
        && |walk.result.errors| == |rest|
        && (forall n :: k <= n < k + |rest| ==> oracle(n).Fail?)
        && (forall j :: 0 <= j < |rest| ==>
              walk.result.errors[j] == ProviderError(rest[j].provider, ErrorText(oracle(k + j).ErrorMessage())))
        && walk.result.message == FailureMessage(walk.result.errors)
  {
    WalkFollowsChain(rest, oracle, k, []);
    WalkExhaustion(rest, oracle, k, []);
    WalkRecordsEachFailure(rest, oracle, k, []);
  }

  /** The walk's first call that does not fail plainly decides the dispatch:
      a response is returned, an interrupt is rethrown, and no later entry is
      called. */
  lemma FirstNonFailureDecides<R>(chain: Chain, model: Option<string>, oracle: nat -> Outcome<R>, n: nat)
    requires Preferred(chain, model).None? || !oracle(0).Ok?
    requires n < |chain|
    requires forall m :: WalkStart(chain, model) <= m < WalkStart(chain, model) + n ==> oracle(m).Fail?
    requires !oracle(WalkStart(chain, model) + n).Fail?
    ensures var run := GenerateMessage(chain, model, oracle);
      var b := WalkStart(chain, model);
      && |run.trace| == b + n + 1
      && run.trace[b + n] == chain[n].ToRoute()
      && (oracle(b + n).Ok? ==> run.result == Success(oracle(b + n).response))
      && (oracle(b + n).Interrupt? ==> run.result == Interrupted)
  {
    var run := GenerateMessage(chain, model, oracle);
    var b := WalkStart(chain, model);
    DispatchIsWalk(chain, model, oracle);
    WalkFirstNonFailure(chain, oracle, b, [], n);
    assert run.trace[b + n] == run.trace[b..][n];
  }

  /** When every chain entry fails plainly, the dispatch throws the combined
      error. */
  lemma AllFailuresExhaust<R>(chain: Chain, model: Option<string>, oracle: nat -> Outcome<R>)
    requires Preferred(chain, model).None? || !oracle(0).Ok?
    requires forall m :: WalkStart(chain, model) <= m < WalkStart(chain, model) + |chain| ==> oracle(m).Fail?
    ensures GenerateMessage(chain, model, oracle).result.AllFailed?
  {
    var run := GenerateMessage(chain, model, oracle);
    ChainAttemptsInOrder(chain, model, oracle);
    LastCallDecides(chain, model, oracle);
  }

  /** An interrupt from the preferred attempt is swallowed like any other
      failure: the walk of the whole chain still runs and alone decides the
      result. */
  lemma PreferredInterruptSwallowed<R>(chain: Chain, model: Option<string>, oracle: nat -> Outcome<R>)
    requires Preferred(chain, model).Some?
    requires oracle(0).Interrupt?
    ensures var run := GenerateMessage(chain, model, oracle);
      && run.result == Walk(chain, oracle, 1, []).result
      && (|chain| > 0 ==> |run.trace| >= 2 && run.trace[1] == chain[0].ToRoute())
  {
    var run := GenerateMessage(chain, model, oracle);
    var walk := Walk(chain, oracle, 1, []);
    assert run.trace == [run.trace[0]] + walk.trace && run.result == walk.result;
  }

  /** The provider of a failed preferred attempt is called again at its own
      chain position, this time with its configured model, once every entry
      before it failed plainly. */
  lemma PreferredProviderRetried<R>(chain: Chain, model: Option<string>, oracle: nat -> Outcome<R>, i: nat)
    requires Preferred(chain, model).Some?
    requires !oracle(0).Ok?
    requires i < |chain| && chain[i] == Preferred(chain, model).value
    requires forall m :: 1 <= m < 1 + i ==> oracle(m).Fail?
    ensures var run := GenerateMessage(chain, model, oracle);
      && |run.trace| > 1 + i
      && run.trace[0] == Route(chain[i].provider, model.value)
      && run.trace[1 + i] == Route(chain[i].provider, chain[i].model)
  {
    var run := GenerateMessage(chain, model, oracle);
    DispatchIsWalk(chain, model, oracle);
    WalkReaches(chain, oracle, 1, [], i);
    assert run.trace[1 + i] == run.trace[1..][i];
  }

  /** With an empty chain nothing is resolved and nothing is called: the
      dispatch throws the combined error with an empty list, whose message is
      the bare prefix. */
  lemma EmptyChainFailsFast<R>(model: Option<string>, oracle: nat -> Outcome<R>)
    ensures GenerateMessage([], model, oracle) == Run([], AllFailed([], FailurePrefix))
  {
    assert Preferred([], model).None?;
    FailureMessageReportsEveryError([]);
  }
}
