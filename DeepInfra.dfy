/**
 * The call to the hosted chat-completion API: one request per attempt, at
 * most `retries` attempts, an exponential back-off between failed attempts,
 * and the composition that turns a pair of entities into a review result.
 *
 * The network is a parameter: `network(i)` is what attempt `i` meets. The
 * requests sent and the delays slept are returned, in order, so that the
 * contracts can speak about them.
 */
module DeepInfra {
  import opened Wrappers
  import opened Types
  import Prompt
  import Parser

  const ApiUrl: string := "https://api.deepinfra.com/v1/openai/chat/completions"
  const DefaultModel: string := "meta-llama/Llama-3.3-70B-Instruct"
  /** The request is aborted when no response has arrived after this many milliseconds. */
  const TimeoutMs: nat := 30000
  const MaxRetries: nat := 3
  /** Only one word is wanted back. */
  const MaxTokens: nat := 10
  /** The sampling temperature, as the request body writes it. */
  const Temperature: string := "0.1"

  datatype Message = Message(role: string, content: string)

  /** What one attempt sends: a POST to `url` with a JSON body. */
  datatype ChatRequest = ChatRequest(
    url: string,
    authorization: string,
    model: string,
    messages: seq<Message>,
    temperature: string,
    maxTokens: nat)

  /** The request every attempt of one call sends. */
  function RequestFor(apiKey: string, model: string, prompt: string): ChatRequest {
    ChatRequest(ApiUrl, "Bearer " + apiKey, model,
      [Message("system", Prompt.SystemPrompt), Message("user", prompt)],
      Temperature, MaxTokens)
  }

  /**
   * What an attempt meets on the network. A `Reply` arrives after
   * `latencyMs`; its `body` is `None` when it is not valid JSON. `NoReply` is
   * a server that never answers; `NetworkError` is a rejected `fetch`.
   */
  datatype Outcome =
    | Reply(latencyMs: nat, status: int, text: string, body: Option<CompletionResponse>)
    | NoReply
    | NetworkError(message: string)

  /** Why an attempt, or the whole call, failed. */
  datatype Failure =
    | ApiError(status: int, text: string)
    | InvalidJson
    | Aborted
    | FetchFailed(message: string)
    | RetriesExhausted
    | NoChoices
    | Unconvertible   // `buildPrompt` threw: a property value has no string form

  /** `response.ok`. */
  predicate IsOk(status: int) {
    200 <= status <= 299
  }

  /** The result of one attempt, as the body of the `try` block decides it. */
  function AttemptResult(o: Outcome): (r: Result<CompletionResponse, Failure>)
    ensures r.Ok? <==> o.Reply? && o.latencyMs < TimeoutMs && IsOk(o.status) && o.body.Some?
    ensures r.Ok? ==> r.value == o.body.value
  {
    match o
    case NoReply => Err(Aborted)
    case NetworkError(message) => Err(FetchFailed(message))
    case Reply(latencyMs, status, text, body) =>
      if latencyMs >= TimeoutMs then Err(Aborted)
      else if !IsOk(status) then Err(ApiError(status, text))
      else if body.None? then Err(InvalidJson)
      else Ok(body.value)
  }

  /** The number of attempts `retries` allows. */
  function Attempts(retries: int): nat {
    if retries <= 0 then 0 else retries
  }

  /**
   * The call from attempt `attempt` on: the result and the number of
   * attempts made in all. An attempt that succeeds, or the last one allowed,
   * ends the call; a failed last attempt's error is the call's error.
   */
  function RetryFrom(network: nat -> Outcome, attempt: nat, n: nat): (Result<CompletionResponse, Failure>, nat)
    requires attempt < n
    decreases n - attempt
  {
    var result := AttemptResult(network(attempt));
    if result.Ok? || attempt == n - 1 then (result, attempt + 1)
    else RetryFrom(network, attempt + 1, n)
  }

  /** The whole call: with no attempt allowed, the generic error. */
  function Call(network: nat -> Outcome, retries: int): (Result<CompletionResponse, Failure>, nat) {
    if Attempts(retries) == 0 then (Err(RetriesExhausted), 0)
    else RetryFrom(network, 0, Attempts(retries))
  }

  function Pow2(n: nat): (r: nat)
    ensures r >= 1
  {
    if n == 0 then 1 else 2 * Pow2(n - 1)
  }

  /** The delay after failed attempt `attempt`: `2^attempt * 1000` ms. */
  function BackoffMs(attempt: nat): nat {
    Pow2(attempt) * 1000
  }

  /** The delays slept over the first `n` failed attempts. */
  function Schedule(n: nat): (r: seq<nat>)
    ensures |r| == n
  {
    seq(n, i requires 0 <= i < n => BackoffMs(i))
  }

  /** The number of delays in a call of `attempts` attempts: none after the last. */
  function Pauses(attempts: nat): nat {
    if attempts == 0 then 0 else attempts - 1
  }

  function Sum(s: seq<nat>): nat {
    if s == [] then 0 else Sum(s[..|s| - 1]) + s[|s| - 1]
  }

  /**
   * `callDeepInfraWithRetry`: the result, the requests sent (one per
   * attempt) and the delays slept. No delay follows the last attempt made.
   */
  method CallWithRetry(apiKey: string, model: string, prompt: string, retries: int, network: nat -> Outcome)
    returns (r: Result<CompletionResponse, Failure>, sent: seq<ChatRequest>, sleeps: seq<nat>)
    ensures (r, |sent|) == Call(network, retries)
    ensures forall k :: 0 <= k < |sent| ==> sent[k] == RequestFor(apiKey, model, prompt)
    ensures sleeps == Schedule(Pauses(|sent|))
  {
    var request := RequestFor(apiKey, model, prompt);
    var lastError: Option<Failure> := None;
    var data: Option<CompletionResponse> := None;
    var attempt: nat := 0;
    sent, sleeps := [], [];
    while data.None? && attempt < retries
      invariant |sent| == attempt
      invariant forall k :: 0 <= k < |sent| ==> sent[k] == request
      invariant data.None? && attempt < retries ==> RetryFrom(network, attempt, retries) == Call(network, retries)
      invariant data.None? && attempt > 0 ==> lastError.Some?
      invariant data.None? && attempt > 0 && attempt >= retries ==> Call(network, retries) == (Err(lastError.value), attempt)
      invariant data.Some? ==> Call(network, retries) == (Ok(data.value), attempt)
      invariant sleeps == Schedule(if data.None? && attempt < retries then attempt else Pauses(attempt))
      invariant attempt == 0 ==> sleeps == [] && data.None? && lastError.None?
      decreases retries - attempt
    {
      sent := sent + [request];
      match network(attempt) {
        case Reply(latencyMs, status, text, body) =>
          if latencyMs >= TimeoutMs {
            lastError := Some(Aborted);
          } else if !IsOk(status) {
            lastError := Some(ApiError(status, text));
          } else if body.None? {
            lastError := Some(InvalidJson);
          } else {
            data := body;
          }
        case NoReply =>
          lastError := Some(Aborted);
        case NetworkError(message) =>
          lastError := Some(FetchFailed(message));
      }
      if data.None? && attempt < retries - 1 {
        sleeps := sleeps + [BackoffMs(attempt)];
      }
      attempt := attempt + 1;
    }
    if data.Some? {
      r := Ok(data.value);
    } else if lastError.Some? {
      r := Err(lastError.value);
    } else {
      r := Err(RetriesExhausted);
    }
  }

  /**
   * `reviewMerge`: the prompt for the pair goes to the model, and the first
   * completion's text is parsed into the decision; the token counts are
   * copied across unchanged. A reply without completions fails, and a
   * prompt that cannot be written fails before anything is sent.
   */
  method ReviewMerge(apiKey: string, model: string, entity1: Entity, entity2: Entity, similarity: string, network: nat -> Outcome)
    returns (r: Result<ReviewResult, Failure>, sent: seq<ChatRequest>, sleeps: seq<nat>)
    ensures Prompt.PromptThrows(entity1, entity2) ==> r == Err(Unconvertible) && sent == []
    ensures !Prompt.PromptThrows(entity1, entity2) ==> var (call, attempts) := Call(network, MaxRetries);
      && |sent| == attempts
      && (forall k :: 0 <= k < |sent| ==> sent[k] == RequestFor(apiKey, model, Prompt.BuildPrompt(entity1, entity2, similarity)))
      && r == Review(call)
    ensures sleeps == Schedule(Pauses(|sent|))
  {
    var prompt := Prompt.PromptFor(entity1, entity2, similarity);
    if prompt.None? {
      return Err(Unconvertible), [], [];
    }
    var response;
    response, sent, sleeps := CallWithRetry(apiKey, model, prompt.value, MaxRetries, network);
    if response.Err? {
      r := Err(response.error);
    } else if response.value.choices == [] {
      r := Err(NoChoices);
    } else {
      var decision := Parser.ParseDecision(response.value.choices[0]);
      var usage := response.value.usage;
      r := Ok(ReviewResult(decision, usage.promptTokens, usage.completionTokens, usage.totalTokens));
    }
  }

  /** The review result a call's outcome gives. */
  function Review(call: Result<CompletionResponse, Failure>): (r: Result<ReviewResult, Failure>)
    ensures r.Ok? <==> call.Ok? && call.value.choices != []
    ensures r.Ok? ==> var usage := call.value.usage;
      && r.value.decision == Parser.DecisionOf(call.value.choices[0])
      && r.value.inputTokens == usage.promptTokens
      && r.value.outputTokens == usage.completionTokens
      && r.value.totalTokens == usage.totalTokens
    ensures call.Err? ==> r == Err(call.error)
  {
    match call
    case Err(e) => Err(e)
    case Ok(response) =>
      if response.choices == [] then Err(NoChoices)
      else
        var usage := response.usage;
        Ok(ReviewResult(Parser.DecisionOf(response.choices[0]), usage.promptTokens, usage.completionTokens, usage.totalTokens))
  }

  /**
   * What a call looks like: between one and `retries` attempts when any is
   * allowed; every attempt but the last failed; the call's result is the
   * last attempt's result; and a failed call used every attempt allowed.
   */
  lemma CallShape(network: nat -> Outcome, retries: int)
    ensures var (r, count) := Call(network, retries);
      && count <= Attempts(retries)
      && (count == 0 <==> retries <= 0)
      && (count == 0 ==> r == Err(RetriesExhausted))
      && (count > 0 ==> r == AttemptResult(network(count - 1)))
      && (forall j :: 0 <= j < count - 1 ==> AttemptResult(network(j)).Err?)
      && (r.Err? ==> count == Attempts(retries))
  {
    if retries > 0 {
      RetryFromShape(network, 0, retries);
    }
  }

  /** The call and the review of its reply never fail the way an unwritable prompt does. */
  lemma CallNeverUnconvertible(network: nat -> Outcome, retries: int)
    ensures Call(network, retries).0 != Err(Unconvertible)
    ensures Review(Call(network, retries).0) != Err(Unconvertible)
  {
    CallShape(network, retries);
  }

  lemma {:induction false} RetryFromShape(network: nat -> Outcome, attempt: nat, n: nat)
    requires attempt < n
    ensures var (r, count) := RetryFrom(network, attempt, n);
      && attempt < count <= n
      && r == AttemptResult(network(count - 1))
      && (forall j :: attempt <= j < count - 1 ==> AttemptResult(network(j)).Err?)
      && (r.Err? ==> count == n)
    decreases n - attempt
  {
    if AttemptResult(network(attempt)).Err? && attempt < n - 1 {
      RetryFromShape(network, attempt + 1, n);
    }
  }

  /** The first attempt that succeeds ends the call with its response. */
  lemma FirstSuccessReturned(network: nat -> Outcome, retries: int, k: nat)
    requires k < retries
    requires forall j :: 0 <= j < k ==> AttemptResult(network(j)).Err?
    requires AttemptResult(network(k)).Ok?
    ensures Call(network, retries) == (AttemptResult(network(k)), k + 1)
  {
    CallShape(network, retries);
  }

  /** When every attempt allowed fails, the call raises the last attempt's error. */
  lemma AllFailedRaisesLast(network: nat -> Outcome, retries: int)
    requires retries > 0
    requires forall j :: 0 <= j < retries ==> AttemptResult(network(j)).Err?
    ensures Call(network, retries) == (AttemptResult(network(retries - 1)), retries)
  {
    CallShape(network, retries);
  }

  /**
   * A non-ok status, a timeout and a network error are all just a failed
   * attempt: two networks whose attempts succeed at the same positions make
   * the same number of attempts.
   */
  lemma {:induction false} FailuresAlike(network1: nat -> Outcome, network2: nat -> Outcome, attempt: nat, n: nat)
    requires attempt < n
    requires forall j :: attempt <= j < n ==> AttemptResult(network1(j)).Ok? == AttemptResult(network2(j)).Ok?
    ensures RetryFrom(network1, attempt, n).1 == RetryFrom(network2, attempt, n).1
    decreases n - attempt
  {
    if AttemptResult(network1(attempt)).Err? && attempt < n - 1 {
      FailuresAlike(network1, network2, attempt + 1, n);
    }
  }

  /** The delays of `n` failed attempts add up to `(2^n - 1) * 1000` ms. */
  lemma {:induction false} TotalBackoff(n: nat)
    ensures Sum(Schedule(n)) == (Pow2(n) - 1) * 1000
  {
    if n > 0 {
      assert Schedule(n)[..n - 1] == Schedule(n - 1);
      TotalBackoff(n - 1);
    }
  }

  /**
   * With the default three attempts the delays are 1 s and then 2 s, 3 s in
   * all; the 4 s step is never taken.
   */
  lemma DefaultSchedule(network: nat -> Outcome)
    ensures Schedule(Pauses(MaxRetries)) == [1000, 2000]
    ensures Sum(Schedule(Pauses(MaxRetries))) == 3000
    ensures forall d :: d in Schedule(Pauses(Call(network, MaxRetries).1)) ==> d <= 2000
  {
    assert Pow2(1) == 2;
    TotalBackoff(2);
    CallShape(network, MaxRetries);
    var count := Call(network, MaxRetries).1;
    assert Schedule(Pauses(count)) <= Schedule(2);
  }
}
