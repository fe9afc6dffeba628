/** A wrapper around an API sender that books every call with a token
    tracker (`firekey/tracked_client.py`), and the extraction of usage
    metadata from a mapping-shaped response. */
module TrackedClient {
  import opened Base
  import opened Tracker

  /** What a tracked call returns: the response alone, or the response with
      the record booked for it. */
  datatype CallResult<R> = Response(response: R) | ResponseAndRecord(response: R, record: CallRecord)

  /** Python's `model or default_model`. */
  function ResolveModel(model: Option<string>, default: Option<string>): (r: Option<string>)
    ensures model.Some? && model.value != "" ==> r == model
    ensures model.None? || model.value == "" ==> r == default
  {
    if model.Some? && model.value != "" then model else default
  }

  /** The usage handed to the tracker: `None` without an extractor, or the
      exception the extractor raises. */
  function UsageOf<R, E>(extractor: Option<R -> Result<Usage, E>>, response: R): Result<Usage, E>
  {
    match extractor
    case None => Ok(None)
    case Some(f) => f(response)
  }

  /** The completion text handed to the tracker: `""` without an extractor,
      or the exception the extractor raises. */
  function CompletionOf<R, E>(extractor: Option<R -> Result<string, E>>, response: R): Result<string, E>
  {
    match extractor
    case None => Ok("")
    case Some(f) => f(response)
  }

  /** What a call has in hand when it reaches `finish_call`: the response,
      the usage and the completion text, or the first exception raised by
      the sender, then the usage extractor, then the completion extractor. */
  function Gathered<R, E>(sent: Result<R, E>, usageExtractor: Option<R -> Result<Usage, E>>,
                          completionExtractor: Option<R -> Result<string, E>>): Result<(R, Usage, string), E>
  {
    match sent
    case Err(e) => Err(e)
    case Ok(response) =>
      match UsageOf(usageExtractor, response)
      case Err(e) => Err(e)
      case Ok(usage) =>
        match CompletionOf(completionExtractor, response)
        case Err(e) => Err(e)
        case Ok(text) => Ok((response, usage, text))
  }

  class TrackedAPIClient<R, E> {
    /** The wrapped sender, given the prompt and the resolved model; it
        returns the response or raises `E`. */
    const sender: (string, Option<string>) -> Result<R, E>
    const tracker: TokenUsageTracker
    const defaultModel: Option<string>

    constructor (sender: (string, Option<string>) -> Result<R, E>, tracker: TokenUsageTracker,
                 defaultModel: Option<string>)
      ensures this.sender == sender && this.tracker == tracker && this.defaultModel == defaultModel
    {
      this.sender := sender;
      this.tracker := tracker;
      this.defaultModel := defaultModel;
    }

    /** `__call__`: start one call, send, extract, finish that same call.
        When nothing raises, the tracker ends with the same pending calls and
        exactly one more record, booked under the per-call model (else the
        client's default, else the tracker's) and announced by one printed
        line; the callback, when there is one, receives that record, and the
        record is returned alongside the response exactly when asked. There
        is no `try`/`finally`: when the sender or an extractor raises, the
        exception is passed on and the call started for it stays pending
        under a fresh id, with nothing booked. */
    method Call(fileName: string, prompt: string, model: Option<string>,
                completionExtractor: Option<R -> Result<string, E>>,
                usageExtractor: Option<R -> Result<Usage, E>>,
                hasCallback: bool, returnRecord: bool)
      returns (result: Result<CallResult<R>, E>, delivered: Option<CallRecord>)
      requires tracker.Valid()
      modifies tracker
      ensures tracker.Valid()
      ensures var resolved := ResolveModel(model, defaultModel);
        var booked := PendingCall(fileName, OrElse(resolved, tracker.defaultModel), EstimateTokens(prompt));
        var gathered := Gathered(sender(prompt, resolved), usageExtractor, completionExtractor);
        gathered.Err? ==>
          && result == Err(gathered.error) && delivered == None
          && (exists id: nat :: id !in old(tracker.pending) && tracker.pending == old(tracker.pending)[id := booked])
          && tracker.records == old(tracker.records)
          && tracker.totalTokens == old(tracker.totalTokens) && tracker.totalCost == old(tracker.totalCost)
          && tracker.printed == old(tracker.printed)
      ensures var resolved := ResolveModel(model, defaultModel);
        var booked := PendingCall(fileName, OrElse(resolved, tracker.defaultModel), EstimateTokens(prompt));
        var gathered := Gathered(sender(prompt, resolved), usageExtractor, completionExtractor);
        gathered.Ok? ==>
          var (response, usage, completionText) := gathered.value;
          var record := RecordFor(tracker.modelPricing, tracker.defaultPricing, booked, completionText, resolved, usage);
          && tracker.pending == old(tracker.pending)
          && tracker.records == old(tracker.records) + [record]
          && tracker.printed == old(tracker.printed) + [FinishMessage(record)]
          && result.Ok? && result.value.response == response
          && (result.value.ResponseAndRecord? <==> returnRecord)
          && (returnRecord ==> result.value.record == record)
          && delivered == (if hasCallback then Some(record) else None)
    {
      var resolved := ResolveModel(model, defaultModel);
      var id := tracker.StartCall(fileName, prompt, resolved);
      delivered := None;
      var sent := sender(prompt, resolved);
      if sent.Err? {
        return Err(sent.error), None;
      }
      var response := sent.value;
      var usage := UsageOf(usageExtractor, response);
      if usage.Err? {
        return Err(usage.error), None;
      }
      var completionText := CompletionOf(completionExtractor, response);
      if completionText.Err? {
        return Err(completionText.error), None;
      }
      var finished := tracker.FinishCall(id, completionText.value, resolved, usage.value);
      assert tracker.pending == old(tracker.pending);
      var record := finished.value;
      delivered := if hasCallback then Some(record) else None;
      if returnRecord {
        result := Ok(ResponseAndRecord(response, record));
      } else {
        result := Ok(Response(response));
      }
    }
  }

  /** The keys `default_usage_extractor` looks for, in order. */
  const UsageKeys: seq<string> := ["prompt_tokens", "completion_tokens", "total_tokens"]

  /** The usage mapping kept from `usage`: the recognised keys whose value
      is present. */
  function KeptUsage(usage: map<string, Option<int>>, keys: seq<string>): map<string, int>
  {
    map k | k in keys && k in usage && usage[k].Some? :: usage[k].value
  }

  /** `default_usage_extractor` applied to a mapping-shaped response whose
      `"usage"` entry is `usage` (`None` when absent): the recognised keys
      with a value, or `None` when there are none. */
  function ExtractUsage(usage: Option<map<string, Option<int>>>): (r: Usage)
    ensures usage.None? ==> r.None?
    ensures r.Some? ==> r.value != map[] && r.value.Keys <= set k | k in UsageKeys
    ensures r.Some? ==> forall k :: k in r.value ==> k in usage.value && usage.value[k] == Some(r.value[k])
    ensures usage.Some? && r.None? ==> forall k :: k in UsageKeys && k in usage.value ==> usage.value[k].None?
    ensures usage.Some? ==>
      forall k :: k in UsageKeys && k in usage.value && usage.value[k].Some? ==> r.Some? && k in r.value
  {
    if usage.None? then None
    else
      var kept := KeptUsage(usage.value, UsageKeys);
      if kept == map[] then
        assert forall k :: k in UsageKeys && k in usage.value && usage.value[k].Some? ==> k in kept;
        None
      else Some(kept)
  }

  /** The extractor's loop over the recognised keys. */
  method DefaultUsageExtractor(usage: Option<map<string, Option<int>>>) returns (r: Usage)
    ensures r == ExtractUsage(usage)
  {
    if usage.None? {
      return None;
    }
    var u := usage.value;
    var mapping: map<string, int> := map[];
    for i := 0 to |UsageKeys|
      invariant mapping == KeptUsage(u, UsageKeys[..i])
    {
      var key := UsageKeys[i];
      if key in u && u[key].Some? {
        mapping := mapping[key := u[key].value];
      }
      assert UsageKeys[..i + 1] == UsageKeys[..i] + [key];
    }
    assert UsageKeys[..|UsageKeys|] == UsageKeys;
    r := if mapping == map[] then None else Some(mapping);
  }
}
