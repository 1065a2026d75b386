// What an agent run costs: model tokens plus metered tool requests, how the recorder splits that
// over ledger rows, and which steps the metered costs are shown on.
module Metering {
  import opened Options
  import opened Pricing

  datatype Metered = Metered(provider: string, model: string, cost: int, inputTokens: nat, outputTokens: nat,
                             tool: Option<string>)

  datatype Usage = Usage(inputTokens: nat, outputTokens: nat, cost: int)

  datatype LedgerRow = LedgerRow(provider: string, model: string, inputTokens: nat, outputTokens: nat, cost: int)

  function MeteredTotal(items: seq<Metered>): int
  {
    if items == [] then 0 else items[0].cost + MeteredTotal(items[1..])
  }

  function AddMetered(u: Usage, items: seq<Metered>): Usage
  {
    if MeteredTotal(items) == 0 then u else u.(cost := u.cost + MeteredTotal(items))
  }

  // ---------------------------------------------------------------- what the agent reports

  /** The usage reported by a run that returned. */
  function RunUsage(model: string, t: Tokens, items: seq<Metered>): Usage
  {
    AddMetered(Usage(t.input, t.output, Estimate(model, t)), items)
  }

  /** The usage reported with a run that raised; `t` sums the responses captured so far. */
  function PartialUsage(model: string, t: Tokens, items: seq<Metered>): Usage
  {
    AddMetered(Usage(t.input, t.output, if t.input != 0 || t.output != 0 then Estimate(model, t) else 0), items)
  }

  /** A captured message: a model response, with or without usage, or anything else. */
  datatype Captured = Response(usage: Option<Tokens>) | Other

  function CapturedTokens(m: Captured): Tokens
  {
    if m.Response? && m.usage.Some? then m.usage.value else Tokens(0, 0, 0)
  }

  function AllTokens(messages: seq<Captured>): Tokens
  {
    Total(seq(|messages|, i requires 0 <= i < |messages| => CapturedTokens(messages[i])))
  }

  function InputSum(messages: seq<Captured>): nat
  {
    if messages == [] then 0
    else
      var last := messages[|messages| - 1];
      InputSum(messages[..|messages| - 1]) + if last.Response? && last.usage.Some? then last.usage.value.input else 0
  }

  function OutputSum(messages: seq<Captured>): nat
  {
    if messages == [] then 0
    else
      var last := messages[|messages| - 1];
      OutputSum(messages[..|messages| - 1]) + if last.Response? && last.usage.Some? then last.usage.value.output else 0
  }

  function CachedSum(messages: seq<Captured>): nat
  {
    if messages == [] then 0
    else
      var last := messages[|messages| - 1];
      CachedSum(messages[..|messages| - 1]) + if last.Response? && last.usage.Some? then last.usage.value.cached else 0
  }

  lemma {:induction false} SumsAre(messages: seq<Captured>)
    ensures AllTokens(messages) == Tokens(InputSum(messages), OutputSum(messages), CachedSum(messages))
  {
    if messages != [] {
      var n := |messages| - 1;
      SumsAre(messages[..n]);
      var calls := seq(n + 1, i requires 0 <= i < n + 1 => CapturedTokens(messages[i]));
      var before := seq(n, i requires 0 <= i < n => CapturedTokens(messages[..n][i]));
      TotalSnoc(before, CapturedTokens(messages[n]));
      assert calls == before + [CapturedTokens(messages[n])];
    }
  }

  /** The accumulating loop. Its counts are the sums over all captured responses; used tokens are
      priced in one go, and the metered costs come on top. */
  method SummarisePartial(model: string, messages: seq<Captured>, items: seq<Metered>) returns (u: Usage)
    ensures u == PartialUsage(model, AllTokens(messages), items)
    ensures u.inputTokens == InputSum(messages) && u.outputTokens == OutputSum(messages)
    ensures var t := Tokens(InputSum(messages), OutputSum(messages), CachedSum(messages));
            u.cost == MeteredTotal(items) + if t.input != 0 || t.output != 0 then Estimate(model, t) else 0
  {
    hide Estimate, MeteredTotal, InputSum, OutputSum, CachedSum;
    var input: nat, output: nat, cached: nat := 0, 0, 0;
    ghost var calls := seq(|messages|, i requires 0 <= i < |messages| => CapturedTokens(messages[i]));
    for i := 0 to |messages|
      invariant Tokens(input, output, cached) == Total(calls[..i])
    {
      var msg := messages[i];
      assert calls[..i + 1] == calls[..i] + [CapturedTokens(msg)];
      TotalSnoc(calls[..i], CapturedTokens(msg));
      if msg.Response? {
        if msg.usage.Some? {
          input := input + msg.usage.value.input;
          output := output + msg.usage.value.output;
          cached := cached + msg.usage.value.cached;
        }
      }
    }
    assert calls[..|messages|] == calls;
    SumsAre(messages);
    var cost := if input != 0 || output != 0 then Estimate(model, Tokens(input, output, cached)) else 0;
    u := AddMetered(Usage(input, output, cost), items);
  }

  /** With any prompt or output token, a run that raised reports what one that returned would. */
  lemma PartialIsReturned(model: string, t: Tokens, items: seq<Metered>)
    ensures t.input != 0 || t.output != 0 ==> PartialUsage(model, t, items) == RunUsage(model, t, items)
    ensures RunUsage(model, t, items) == Usage(t.input, t.output, Estimate(model, t) + MeteredTotal(items))
    ensures t.input == t.output == 0 ==> PartialUsage(model, t, items) == Usage(0, 0, MeteredTotal(items))
  {
  }

  lemma {:induction false} TotalSnoc(calls: seq<Tokens>, t: Tokens)
    ensures Total(calls + [t]) == Plus(Total(calls), t)
  {
    if calls == [] {
      assert Total([t]) == Plus(t, Total([]));
    } else {
      TotalSnoc(calls[1..], t);
      assert (calls + [t])[1..] == calls[1..] + [t];
    }
  }

  // ---------------------------------------------------------------- ledger rows

  function ModelCost(u: Usage, items: seq<Metered>): int
  {
    if u.cost - MeteredTotal(items) >= 0 then u.cost - MeteredTotal(items) else 0
  }

  function ModelRow(u: Usage, items: seq<Metered>, model: string): LedgerRow
  {
    LedgerRow("openai-compat", model, u.inputTokens, u.outputTokens, ModelCost(u, items))
  }

  function MeteredRows(items: seq<Metered>): seq<LedgerRow>
  {
    if items == [] then []
    else [LedgerRow(items[0].provider, items[0].model, items[0].inputTokens, items[0].outputTokens, items[0].cost)]
         + MeteredRows(items[1..])
  }

  /** Rows written for a completed or quietly exited run. */
  function CompletionRows(u: Usage, items: seq<Metered>, model: string): seq<LedgerRow>
  {
    [ModelRow(u, items, model)] + MeteredRows(items)
  }

  /** Rows written for a failed run: the model row only when tokens were used. */
  function FailureRows(u: Option<Usage>, items: seq<Metered>, model: string): seq<LedgerRow>
  {
    (if u.Some? && (u.value.inputTokens != 0 || u.value.outputTokens != 0)
     then [ModelRow(u.value, items, model)] else [])
    + MeteredRows(items)
  }

  function RowsTotal(rows: seq<LedgerRow>): int
  {
    if rows == [] then 0 else rows[0].cost + RowsTotal(rows[1..])
  }

  lemma {:induction false} RowsTotalAppend(a: seq<LedgerRow>, b: seq<LedgerRow>)
    ensures RowsTotal(a + b) == RowsTotal(a) + RowsTotal(b)
  {
    if a == [] {
      assert a + b == b;
    } else {
      RowsTotalAppend(a[1..], b);
      assert (a + b)[1..] == a[1..] + b;
    }
  }

  lemma {:induction false} MeteredRowsTotal(items: seq<Metered>)
    ensures RowsTotal(MeteredRows(items)) == MeteredTotal(items)
  {
    if items != [] {
      MeteredRowsTotal(items[1..]);
      assert MeteredRows(items)[1..] == MeteredRows(items[1..]);
    }
  }

  /** What each ledger row says: the model's tokens, then every metered request with its own. */
  lemma {:induction false} RowsHold(u: Usage, items: seq<Metered>, model: string, i: nat)
    requires i < |items|
    ensures |CompletionRows(u, items, model)| == |items| + 1
    ensures var row := CompletionRows(u, items, model)[0];
            && row.provider == "openai-compat" && row.model == model
            && row.inputTokens == u.inputTokens && row.outputTokens == u.outputTokens
    ensures var row, item := CompletionRows(u, items, model)[i + 1], items[i];
            && row.provider == item.provider && row.model == item.model && row.cost == item.cost
            && row.inputTokens == item.inputTokens && row.outputTokens == item.outputTokens
    ensures FailureRows(Some(u), items, model) ==
            if u.inputTokens > 0 || u.outputTokens > 0 then CompletionRows(u, items, model) else MeteredRows(items)
  {
    MeteredRowAt(items, i);
    assert [] + MeteredRows(items) == MeteredRows(items);
  }

  lemma {:induction false} MeteredRowAt(items: seq<Metered>, i: nat)
    requires i < |items|
    ensures |MeteredRows(items)| == |items|
    ensures var row, item := MeteredRows(items)[i], items[i];
            && row.provider == item.provider && row.model == item.model && row.cost == item.cost
            && row.inputTokens == item.inputTokens && row.outputTokens == item.outputTokens
  {
    if |items| > 1 {
      MeteredRowAt(items[1..], if i > 0 then i - 1 else 0);
    }
  }

  /** A completion's rows sum to the reported cost exactly when that cost covers the metered
      part; otherwise the clamp at zero makes them sum to more. */
  lemma CompletionConserves(u: Usage, items: seq<Metered>, model: string)
    ensures RowsTotal(CompletionRows(u, items, model)) == u.cost <==> u.cost >= MeteredTotal(items)
    ensures RowsTotal(CompletionRows(u, items, model)) >= u.cost
  {
    MeteredRowsTotal(items);
    RowsTotalAppend([ModelRow(u, items, model)], MeteredRows(items));
    assert RowsTotal([ModelRow(u, items, model)]) == ModelCost(u, items);
  }

  lemma FailureConserves(u: Usage, items: seq<Metered>, model: string)
    ensures RowsTotal(FailureRows(Some(u), items, model)) == u.cost <==>
            if u.inputTokens != 0 || u.outputTokens != 0 then u.cost >= MeteredTotal(items)
            else u.cost == MeteredTotal(items)
    ensures RowsTotal(FailureRows(None, items, model)) == MeteredTotal(items)
  {
    MeteredRowsTotal(items);
    CompletionConserves(u, items, model);
    assert [] + MeteredRows(items) == MeteredRows(items);
  }

  /** From the agent to the ledger nothing is gained or lost: the rows of a returned run, and of
      one that raised, add up to the cost the agent reported, whatever the metered costs are. */
  lemma LedgerConservesReportedCost(model: string, name: string, t: Tokens, items: seq<Metered>)
    ensures RunUsage(model, t, items).cost == Estimate(model, t) + MeteredTotal(items)
    ensures RowsTotal(CompletionRows(RunUsage(model, t, items), items, name)) == RunUsage(model, t, items).cost
    ensures var u := PartialUsage(model, t, items); RowsTotal(FailureRows(Some(u), items, name)) == u.cost
  {
    CompletionConserves(RunUsage(model, t, items), items, name);
    FailureConserves(PartialUsage(model, t, items), items, name);
  }

  /** A run that returned but failed afterwards is booked through the failure path. That
      loses the model cost exactly when the provider reported cached tokens worth a quantum or
      more without reporting any prompt or output token. */
  lemma ReturnedThenFailedConserves(model: string, name: string, t: Tokens, items: seq<Metered>)
    ensures RowsTotal(FailureRows(Some(RunUsage(model, t, items)), items, name)) == RunUsage(model, t, items).cost <==>
            (t.input != 0 || t.output != 0 || 2 * t.cached * PriceOf(model).cacheRead < TOKEN_CENTS_PER_QUANTUM)
  {
    FailureConserves(RunUsage(model, t, items), items, name);
  }

  // ---------------------------------------------------------------- costs on steps

  datatype Step = Step(kind: string, input: string, output: string, cost: int)

  predicate Matches(item: Metered, kind: string)
  {
    item.tool.Some? && kind == "tool:" + item.tool.value
  }

  /** The metered costs of one kind of step, in the order they were metered. */
  function MeteredFor(items: seq<Metered>, kind: string): seq<int>
  {
    if items == [] then []
    else (if Matches(items[0], kind) then [items[0].cost] else []) + MeteredFor(items[1..], kind)
  }

  /** The costs metered for a tool, in order. */
  function CostsOf(items: seq<Metered>, tool: string): seq<int>
  {
    if items == [] then []
    else (if items[0].tool == Some(tool) then [items[0].cost] else []) + CostsOf(items[1..], tool)
  }

  /** A step of the kind "tool:" and a name takes from the costs of that tool; a step whose kind
      does not start like that takes from none. */
  lemma {:induction false} MeteredForIs(items: seq<Metered>, kind: string, tool: string)
    ensures kind == "tool:" + tool ==> MeteredFor(items, kind) == CostsOf(items, tool)
    ensures !("tool:" <= kind) ==> MeteredFor(items, kind) == []
  {
    if items != [] {
      MeteredForIs(items[1..], kind, tool);
      assert items[0].tool.Some? ==> ("tool:" + items[0].tool.value)[5..] == items[0].tool.value;
      assert ("tool:" + tool)[5..] == tool;
    }
  }

  function CountKind(steps: seq<Step>, kind: string): nat
  {
    if steps == [] then 0
    else (if steps[|steps| - 1].kind == kind then 1 else 0) + CountKind(steps[..|steps| - 1], kind)
  }

  /** The k-th step of a tool shows the tool's k-th metered cost; steps beyond those keep theirs. */
  function FifoCost(steps: seq<Step>, items: seq<Metered>, i: nat): int
    requires i < |steps|
  {
    var queue := MeteredFor(items, steps[i].kind);
    var k := CountKind(steps[..i], steps[i].kind);
    if k < |queue| then queue[k] else steps[i].cost
  }

  /** Step `i` as the recorder should show it: only its cost may differ. */
  predicate ShownAs(steps: seq<Step>, items: seq<Metered>, i: nat, shown: Step)
    requires i < |steps|
  {
    shown == steps[i].(cost := FifoCost(steps, items, i))
  }

  function StepsTotal(steps: seq<Step>): int
  {
    if steps == [] then 0 else StepsTotal(steps[..|steps| - 1]) + steps[|steps| - 1].cost
  }

  function Min(a: nat, b: nat): nat { if a < b then a else b }

  /** What is still pending after some steps: of each kind, the costs not yet shown. */
  ghost predicate PendingIs(pending: seq<Metered>, items: seq<Metered>, done: seq<Step>)
  {
    forall kind :: MeteredFor(pending, kind)
                   == MeteredFor(items, kind)[Min(CountKind(done, kind), |MeteredFor(items, kind)|)..]
  }

  method FirstMatch(pending: seq<Metered>, kind: string) returns (m: nat)
    ensures m <= |pending|
    ensures m < |pending| ==> Matches(pending[m], kind)
    ensures forall j :: 0 <= j < m ==> !Matches(pending[j], kind)
  {
    m := 0;
    while m < |pending| && !Matches(pending[m], kind)
      invariant m <= |pending|
      invariant forall j :: 0 <= j < m ==> !Matches(pending[j], kind)
    {
      m := m + 1;
    }
  }

  ghost predicate Unpriced(steps: seq<Step>)
  {
    forall step :: step in steps ==> step.cost == 0
  }

  /** One step takes the head of its kind's queue, if there is one. */
  ghost predicate TakesHead(pending: seq<Metered>, rest: seq<Metered>, step: Step, shown: Step)
  {
    var queue := MeteredFor(pending, step.kind);
    if queue == [] then shown == step && rest == pending
    else
      && shown == step.(cost := queue[0])
      && MeteredFor(rest, step.kind) == queue[1..]
      && (forall k :: k != step.kind ==> MeteredFor(rest, k) == MeteredFor(pending, k))
      && MeteredTotal(pending) == shown.cost + MeteredTotal(rest)
  }

  method PriceStep(pending: seq<Metered>, step: Step) returns (shown: Step, rest: seq<Metered>)
    ensures TakesHead(pending, rest, step, shown)
  {
    var m := FirstMatch(pending, step.kind);
    if m == |pending| {
      NoMatch(pending, step.kind);
      return step, pending;
    }
    RemoveMatch(pending, m, step.kind);
    return step.(cost := pending[m].cost), pending[..m] + pending[m + 1..];
  }

  /** Metered costs are shown first-in first-out per tool; kinds, texts and order of the steps
      are untouched, and for steps that start at zero, shown plus left over is what was metered. */
  method ApplyToolCosts(steps: seq<Step>, items: seq<Metered>) returns (priced: seq<Step>, left: seq<Metered>)
    ensures |priced| == |steps|
    ensures forall i :: 0 <= i < |steps| ==> ShownAs(steps, items, i, priced[i])
    ensures Unpriced(steps) ==> StepsTotal(priced) + MeteredTotal(left) == MeteredTotal(items)
    ensures PendingIs(left, items, steps)
  {
    hide *;
    var pending := items;
    priced := [];
    NothingShown(items);
    assert steps[..0] == [];
    for i := 0 to |steps|
      invariant |priced| == i
      invariant forall j :: 0 <= j < i ==> ShownAs(steps, items, j, priced[j])
      invariant PendingIs(pending, items, steps[..i])
      invariant Unpriced(steps) ==> StepsTotal(priced) + MeteredTotal(pending) == MeteredTotal(items)
    {
      var shown, rest := PriceStep(pending, steps[i]);
      PendingMoves(pending, rest, items, steps, i, shown);
      StepsTotalSnoc(priced, shown);
      priced := priced + [shown];
      pending := rest;
    }
    assert steps[..|steps|] == steps;
    left := pending;
  }

  lemma NothingShown(items: seq<Metered>)
    ensures PendingIs(items, items, []) && StepsTotal([]) == 0
  {
  }

  lemma StepsTotalSnoc(steps: seq<Step>, step: Step)
    ensures StepsTotal(steps + [step]) == StepsTotal(steps) + step.cost
  {
  }

  lemma CountSnoc(steps: seq<Step>, step: Step, kind: string)
    ensures CountKind(steps + [step], kind) == CountKind(steps, kind) + if step.kind == kind then 1 else 0
  {
  }

  lemma PendingMoves(pending: seq<Metered>, rest: seq<Metered>, items: seq<Metered>,
                     steps: seq<Step>, i: nat, shown: Step)
    requires i < |steps| && PendingIs(pending, items, steps[..i]) && TakesHead(pending, rest, steps[i], shown)
    ensures ShownAs(steps, items, i, shown)
    ensures PendingIs(rest, items, steps[..i + 1])
    ensures Unpriced(steps) ==> MeteredTotal(pending) == shown.cost + MeteredTotal(rest)
  {
    forall kind
      ensures MeteredFor(rest, kind)
              == MeteredFor(items, kind)[Min(CountKind(steps[..i] + [steps[i]], kind), |MeteredFor(items, kind)|)..]
    {
      CountSnoc(steps[..i], steps[i], kind);
    }
    assert steps[i] in steps && steps[..i + 1] == steps[..i] + [steps[i]];
  }

  lemma {:induction false} NoMatch(pending: seq<Metered>, kind: string)
    requires forall j :: 0 <= j < |pending| ==> !Matches(pending[j], kind)
    ensures MeteredFor(pending, kind) == []
  {
    if pending != [] {
      NoMatch(pending[1..], kind);
    }
  }

  /** Taking out the first match of a kind drops the head of that kind's queue and no other. */
  lemma {:induction false} RemoveMatch(pending: seq<Metered>, m: nat, kind: string)
    requires m < |pending| && Matches(pending[m], kind)
    requires forall j :: 0 <= j < m ==> !Matches(pending[j], kind)
    ensures var rest := pending[..m] + pending[m + 1..];
            && MeteredFor(pending, kind) == [pending[m].cost] + MeteredFor(rest, kind)
            && (forall k :: k != kind ==> MeteredFor(rest, k) == MeteredFor(pending, k))
            && MeteredTotal(pending) == pending[m].cost + MeteredTotal(rest)
  {
    var rest := pending[..m] + pending[m + 1..];
    if m == 0 {
      assert rest == pending[1..];
    } else {
      RemoveMatch(pending[1..], m - 1, kind);
      assert rest[0] == pending[0] && rest[1..] == pending[1..][..m - 1] + pending[1..][m..];
    }
  }
}
