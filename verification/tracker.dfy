/** Token and cost accounting for API calls (`firekey/tracker.py`): a pricing
    table, a heuristic token estimate, usage-inference rules, and a tracker
    object that pairs `start_call` with `finish_call` and keeps running totals
    equal to the sums over its records. */
module Tracker {
  import opened Base
  import opened Strings

  /** Prices in USD per 1,000 tokens. */
  datatype ModelPricing = ModelPricing(inputCostPer1k: real, outputCostPer1k: real)
  {
    /** `cost_for`: prompt tokens at the input price plus completion tokens at
        the output price. */
    function CostFor(promptTokens: int, completionTokens: int): (c: real)
      ensures (inputCostPer1k >= 0.0 && outputCostPer1k >= 0.0 && promptTokens >= 0 && completionTokens >= 0)
        ==> c >= 0.0
      ensures promptTokens == 0 && completionTokens == 0 ==> c == 0.0
    {
      (promptTokens as real / 1000.0) * inputCostPer1k + (completionTokens as real / 1000.0) * outputCostPer1k
    }
  }

  /** The cost of two batches of tokens is the sum of their costs. */
  lemma CostAdditive(pricing: ModelPricing, p1: int, c1: int, p2: int, c2: int)
    ensures pricing.CostFor(p1 + p2, c1 + c2) == pricing.CostFor(p1, c1) + pricing.CostFor(p2, c2)
  {
    var i, o := pricing.inputCostPer1k, pricing.outputCostPer1k;
    assert (p1 + p2) as real / 1000.0 * i == p1 as real / 1000.0 * i + p2 as real / 1000.0 * i;
    assert (c1 + c2) as real / 1000.0 * o == c1 as real / 1000.0 * o + c2 as real / 1000.0 * o;
  }

  const DefaultModel: string := "gpt-4o-mini"
  const DefaultPricing: ModelPricing := ModelPricing(0.00015, 0.0006)

  /** One accounted API call. */
  datatype CallRecord = CallRecord(
    fileName: string, model: string, promptTokens: int, completionTokens: int, totalTokens: int, cost: real)

  /** A call that has started but not finished. */
  datatype PendingCall = PendingCall(fileName: string, model: string, estimatedPromptTokens: nat)

  /** The key `finish_call` could not find (Python raises `KeyError`). */
  datatype KeyError = KeyError(id: nat)

  /** Token counts of one call. */
  datatype Tokens = Tokens(prompt: int, completion: int, total: int)

  /** `estimate_tokens`: about four characters per token, rounded up; empty
      text has no tokens and any other text at least one. */
  function EstimateTokens(text: string): (n: nat)
    ensures text == [] <==> n == 0
    ensures text != [] ==> 4 * (n - 1) < |text| <= 4 * n
  {
    if text == [] then 0 else Max(1, (|text| + 3) / 4) as nat
  }

  /** Usage metadata as `finish_call` receives it; `None` and the empty
      mapping both mean "no usage". */
  type Usage = Option<map<string, int>>

  predicate HasUsage(usage: Usage)
  {
    usage.Some? && usage.value != map[]
  }

  function Get(m: map<string, int>, key: string, default: int): int
  {
    if key in m then m[key] else default
  }

  /** The token counts `finish_call` books. Without usage the completion is
      estimated from its text and the total is the sum. With usage, absent
      keys default to the estimate (prompt), 0 (completion) and the sum
      (total); a zero completion next to a non-zero total and prompt is
      inferred as `max(total - prompt, 0)`. */
  function Account(estimatedPrompt: nat, completionText: string, usage: Usage): (t: Tokens)
    ensures !HasUsage(usage) ==>
      t == Tokens(estimatedPrompt, EstimateTokens(completionText), estimatedPrompt + EstimateTokens(completionText))
    ensures HasUsage(usage) ==>
      var u := usage.value;
      && t.prompt == Get(u, "prompt_tokens", estimatedPrompt)
      && t.total == Get(u, "total_tokens", t.prompt + Get(u, "completion_tokens", 0))
      && (Get(u, "completion_tokens", 0) != 0 ==> t.completion == u["completion_tokens"])
      && (Get(u, "completion_tokens", 0) == 0 && t.total != 0 && t.prompt != 0 ==> t.completion == Max(t.total - t.prompt, 0))
      && (Get(u, "completion_tokens", 0) == 0 && (t.total == 0 || t.prompt == 0) ==> t.completion == 0)
  {
    if HasUsage(usage) then
      var u := usage.value;
      var prompt := Get(u, "prompt_tokens", estimatedPrompt);
      var completion := Get(u, "completion_tokens", 0);
      var total := Get(u, "total_tokens", prompt + completion);
      if completion == 0 && total != 0 && prompt != 0 then Tokens(prompt, Max(total - prompt, 0), total)
      else Tokens(prompt, completion, total)
    else
      var completion := EstimateTokens(completionText);
      Tokens(estimatedPrompt, completion, estimatedPrompt + completion)
  }

  /** Whenever the usage leaves the completion to be inferred, with a positive
      prompt and a total at least as large, the booked counts add up. */
  lemma InferredCompletionAddsUp(estimatedPrompt: nat, completionText: string, u: map<string, int>)
    requires u != map[] && Get(u, "completion_tokens", 0) == 0
    requires Get(u, "prompt_tokens", estimatedPrompt) > 0
    requires Get(u, "prompt_tokens", estimatedPrompt) <= Get(u, "total_tokens", Get(u, "prompt_tokens", estimatedPrompt))
    ensures var t := Account(estimatedPrompt, completionText, Some(u));
      t.prompt + t.completion == t.total
  {
    var prompt := Get(u, "prompt_tokens", estimatedPrompt);
    var total := Get(u, "total_tokens", prompt + Get(u, "completion_tokens", 0));
    assert HasUsage(Some(u));
    assert total != 0 && Max(total - prompt, 0) == total - prompt;
  }

  /** `prompt_tokens=100, total_tokens=160` and no completion: 60 completion
      tokens are booked. */
  lemma InferenceExample(estimatedPrompt: nat, completionText: string)
    ensures Account(estimatedPrompt, completionText, Some(map["prompt_tokens" := 100, "total_tokens" := 160]))
      == Tokens(100, 60, 160)
  {
    var u := map["prompt_tokens" := 100, "total_tokens" := 160];
    assert "prompt_tokens" in u && u["prompt_tokens"] == 100;
    assert "total_tokens" in u && u["total_tokens"] == 160;
    assert "completion_tokens" !in u;
  }

  /** The pricing used for `model`: its entry in the table, else the default. */
  function PricingFor(table: map<string, ModelPricing>, default: ModelPricing, model: string): (p: ModelPricing)
    ensures model in table ==> p == table[model]
    ensures model !in table ==> p == default
  {
    if model in table then table[model] else default
  }

  /** The record `finish_call` books for a pending call. */
  function RecordFor(table: map<string, ModelPricing>, default: ModelPricing, pending: PendingCall,
                     completionText: string, model: Option<string>, usage: Usage): (r: CallRecord)
    ensures r.fileName == pending.fileName
    ensures r.model == OrElse(model, pending.model)
    ensures Tokens(r.promptTokens, r.completionTokens, r.totalTokens)
      == Account(pending.estimatedPromptTokens, completionText, usage)
    ensures r.cost == PricingFor(table, default, r.model).CostFor(r.promptTokens, r.completionTokens)
  {
    var resolved := OrElse(model, pending.model);
    var t := Account(pending.estimatedPromptTokens, completionText, usage);
    CallRecord(pending.fileName, resolved, t.prompt, t.completion, t.total,
               PricingFor(table, default, resolved).CostFor(t.prompt, t.completion))
  }

  function SumTokens(records: seq<CallRecord>): int
  {
    if records == [] then 0 else records[0].totalTokens + SumTokens(records[1..])
  }

  function SumCost(records: seq<CallRecord>): real
  {
    if records == [] then 0.0 else records[0].cost + SumCost(records[1..])
  }

  /** Appending a record adds its tokens and its cost to the sums. */
  lemma {:induction false} SumsAppend(records: seq<CallRecord>, r: CallRecord)
    ensures SumTokens(records + [r]) == SumTokens(records) + r.totalTokens
    ensures SumCost(records + [r]) == SumCost(records) + r.cost
  {
    if records != [] {
      assert (records + [r])[1..] == records[1..] + [r];
      SumsAppend(records[1..], r);
    }
  }

  /** The line `finish_call` prints for a record. */
  function FinishMessage(r: CallRecord): Rendered
  {
    [Chars("[" + r.fileName + "] Tokens used: " + IntToString(r.totalTokens) + " | Approx Cost: $"),
     Fixed6(r.cost),
     Chars(" | Model: " + r.model)]
  }

  class TokenUsageTracker {
    const modelPricing: map<string, ModelPricing>
    const defaultModel: string
    const defaultPricing: ModelPricing
    /** Calls started and not yet finished, by id. */
    var pending: map<nat, PendingCall>
    var records: seq<CallRecord>
    var totalTokens: int
    var totalCost: real
    /** Ids are drawn from a counter instead of random UUIDs; every id ever
        handed out is below it. */
    var nextId: nat
    /** Lines printed to standard output. */
    var printed: seq<Rendered>

    /** The totals are the sums over the records, and no pending id can be
        handed out again. */
    predicate Valid()
      reads this
    {
      && totalTokens == SumTokens(records)
      && totalCost == SumCost(records)
      && (forall id :: id in pending ==> id < nextId)
    }

    /** A missing or empty pricing table means no per-model prices; a missing
        default pricing means 0.00015 / 0.0006 per 1,000 tokens. */
    constructor (modelPricing: Option<map<string, ModelPricing>>, defaultModel: string,
                 defaultPricing: Option<ModelPricing>)
      ensures Valid()
      ensures this.modelPricing == modelPricing.GetOr(map[])
      ensures this.defaultModel == defaultModel
      ensures this.defaultPricing == defaultPricing.GetOr(DefaultPricing)
      ensures pending == map[] && records == [] && totalTokens == 0 && totalCost == 0.0 && printed == []
    {
      this.modelPricing := modelPricing.GetOr(map[]);
      this.defaultModel := defaultModel;
      this.defaultPricing := defaultPricing.GetOr(DefaultPricing);
      pending := map[];
      records := [];
      totalTokens := 0;
      totalCost := 0.0;
      nextId := 0;
      printed := [];
    }

    /** `start_call`: register one pending call under an id no pending call
        has, with the given model (or the default) and the prompt's estimate. */
    method StartCall(fileName: string, promptText: string, model: Option<string>) returns (id: nat)
      requires Valid()
      modifies this
      ensures Valid()
      ensures id !in old(pending)
      ensures pending == old(pending)[id := PendingCall(fileName, OrElse(model, defaultModel), EstimateTokens(promptText))]
      ensures records == old(records) && totalTokens == old(totalTokens) && totalCost == old(totalCost)
      ensures printed == old(printed)
    {
      id := nextId;
      nextId := nextId + 1;
      pending := pending[id := PendingCall(fileName, OrElse(model, defaultModel), EstimateTokens(promptText))];
    }

    /** `finish_call`: pop the pending call, book its record at the end of the
        records and add it to the totals. An id that is not pending (never
        started or already finished) fails and changes nothing. */
    method FinishCall(id: nat, completionText: string, model: Option<string>, usage: Usage)
      returns (r: Result<CallRecord, KeyError>)
      requires Valid()
      modifies this
      ensures Valid()
      ensures id !in old(pending) ==> r == Err(KeyError(id)) && unchanged(this)
      ensures id in old(pending) ==>
        && r == Ok(RecordFor(modelPricing, defaultPricing, old(pending)[id], completionText, model, usage))
        && pending == old(pending) - {id}
        && records == old(records) + [r.value]
        && totalTokens == old(totalTokens) + r.value.totalTokens
        && totalCost == old(totalCost) + r.value.cost
        && printed == old(printed) + [FinishMessage(r.value)]
        && nextId == old(nextId)
    {
      if id !in pending {
        return Err(KeyError(id));
      }
      var call := pending[id];
      pending := pending - {id};
      var record := RecordFor(modelPricing, defaultPricing, call, completionText, model, usage);
      SumsAppend(records, record);
      totalTokens := totalTokens + record.totalTokens;
      totalCost := totalCost + record.cost;
      records := records + [record];
      printed := printed + [FinishMessage(record)];
      r := Ok(record);
    }

    /** `format_summary`: the total tokens, then the total cost. */
    function FormatSummary(): Rendered
      reads this
    {
      [Chars("Total tokens: " + IntToString(totalTokens) + " | Estimated cost: $"), Fixed6(totalCost)]
    }

    /** `print_summary` */
    method PrintSummary()
      modifies this
      ensures printed == old(printed) + [FormatSummary()]
      ensures pending == old(pending) && records == old(records) && nextId == old(nextId)
      ensures totalTokens == old(totalTokens) && totalCost == old(totalCost)
    {
      printed := printed + [FormatSummary()];
    }

    /** `csv_footer_comment`: the summary behind a `# ` comment marker. */
    function CsvFooterComment(): Rendered
      reads this
    {
      [Chars("# ")] + FormatSummary()
    }

    /** The summary and the CSV footer report the tokens and the cost summed
        over every booked record, whatever order the calls finished in. */
    lemma SummaryReportsRecords()
      requires Valid()
      ensures FormatSummary() ==
        [Chars("Total tokens: " + IntToString(SumTokens(records)) + " | Estimated cost: $"), Fixed6(SumCost(records))]
      ensures CsvFooterComment() ==
        [Chars("# "), Chars("Total tokens: " + IntToString(SumTokens(records)) + " | Estimated cost: $"),
         Fixed6(SumCost(records))]
    {
    }
  }
}
