/**
  * The bounded ReAct loop shared by `react_loop` and `reat_selfcritic_loop`: at most
  * `MaxIterations` rounds of asking the language model, parsing its reply for calls,
  * running them in order and appending the round to the conversation context.
  */
module Controller {

  import opened Wrappers
  import opened PyValues
  import opened Calendar
  import opened ActionGrammar
  import opened Dispatch

  const MaxIterations: nat := 5

  /** Which system prompt the model is given; the prompt texts themselves are not modelled. */
  datatype Prompt = ReActPrompt | SelfCriticPrompt

  /**
    * What the agents depend on besides the query: the model (`call_llm`, `None` when the
    * call fails), `json.loads` on a parameter span (`None` where it raises
    * `JSONDecodeError`), the `str` of a parameter object, the
    * `json.dumps` of a tool result, and the clock reading the shipping tool uses.
    */
  datatype Oracles = Oracles(
    llm: (Prompt, string) -> Option<string>,
    decode: string -> Option<Params>,
    showParams: Params -> string,
    dumps: ToolResult -> string,
    today: Today)

  /**
    * What the loop calls: the model, the reply parser, the tool executor and the two
    * renderings. The loop is stated over any such environment; the agents run it in
    * `Agent(o)`, where the parser is `parse_tool_calls` and the executor `execute_tools`.
    */
  datatype Env = Env(
    llm: (Prompt, string) -> Option<string>,
    parse: string -> seq<ToolCall>,
    execute: (string, Params) -> Observation,
    showParams: Params -> string,
    dumps: ToolResult -> string)

  /** The environment of both agents. */
  function Agent(o: Oracles): Env {
    Env(o.llm, text => ToolCalls(text, o.decode), (name, params) => ExecuteTools(o.today, name, params),
      o.showParams, o.dumps)
  }

  const FailureText := "Error: Failed to get LLM response"

  /** The context the first model call sees. */
  function Seed(query: string): string { "User Query: " + query + "\n" }

  /** The text an observation adds to the transcript. */
  function ObservationText(env: Env, o: Observation): string {
    match o
    case ToolOutput(v) => env.dumps(v)
    case Message(m) => m
  }

  /** The transcript entry of one executed call. */
  function CallEntry(env: Env, c: ToolCall): string {
    "\nTool: " + c.name + "\nParameters: " + env.showParams(c.params) +
    "\nObservation: " + ObservationText(env, env.execute(c.name, c.params)) + "\n"
  }

  /** The entries of the executed calls, in call order. */
  function Observations(env: Env, calls: seq<ToolCall>): string
    decreases |calls|
  {
    if calls == [] then "" else Observations(env, calls[..|calls| - 1]) + CallEntry(env, calls[|calls| - 1])
  }

  /** What one round appends to the context. */
  function Segment(response: string, observations: string): string {
    "\nAssistant: " + response + "\nObservations: " + observations + "\n"
  }

  /** The context after a round whose reply was `response`. */
  function NextContext(env: Env, context: string, response: string): string {
    context + Segment(response, Observations(env, env.parse(response)))
  }

  /** How the loop ends. */
  datatype Ending =
    | LlmFailed
    | FinalAnswer(response: string)
    | BudgetExhausted(response: string)

  /** The text the loop function returns. */
  function Answer(e: Ending): string {
    match e
    case LlmFailed => FailureText
    case FinalAnswer(r) => r
    case BudgetExhausted(r) => r
  }

  /** A usable reply: the call succeeded and returned a non-empty text (`if not llm_response`). */
  predicate Usable(reply: Option<string>) { reply.Some? && reply.value != "" }

  /**
    * One round of the loop, as three steps: the model call on a context, the test
    * whether a reply goes on, and the context after a reply that went on.
    */
  datatype Loop = Loop(ask: string -> Option<string>, goesOn: string -> bool, next: (string, string) -> string)

  /**
    * The round of `react_loop`: the model is called with the prompt, a reply goes on when
    * it holds parsed calls, and the context grows by `NextContext`.
    */
  function LoopOf(env: Env, prompt: Prompt): Loop {
    Loop(context => env.llm(prompt, context),
      response => env.parse(response) != [],
      (context, response) => NextContext(env, context, response))
  }

  /** The remaining `rounds` rounds, from `context`; `last` is the reply of the previous round. */
  function RunFrom(l: Loop, context: string, rounds: nat, last: string): Ending
    decreases rounds
  {
    if rounds == 0 then BudgetExhausted(last)
    else
      var reply := l.ask(context);
      if !Usable(reply) then LlmFailed
      else if !l.goesOn(reply.value) then FinalAnswer(reply.value)
      else RunFrom(l, l.next(context, reply.value), rounds - 1, reply.value)
  }

  /** The whole loop on a query. */
  function Run(env: Env, prompt: Prompt, query: string): Ending {
    RunFrom(LoopOf(env, prompt), Seed(query), MaxIterations, "")
  }

  /** The contexts the model is called with, in order, from `context` on. */
  function Trace(l: Loop, context: string, rounds: nat): seq<string>
    decreases rounds
  {
    if rounds == 0 then []
    else
      var reply := l.ask(context);
      if !Usable(reply) || !l.goesOn(reply.value) then [context]
      else [context] + Trace(l, l.next(context, reply.value), rounds - 1)
  }

  /** The contexts of all the model calls made on a query. */
  function Prompts(env: Env, prompt: Prompt, query: string): seq<string> {
    Trace(LoopOf(env, prompt), Seed(query), MaxIterations)
  }

  /** A round that goes on: its reply was usable and held calls. */
  predicate Continues(l: Loop, context: string) {
    Usable(l.ask(context)) && l.goesOn(l.ask(context).value)
  }

  /** The reply the model gives to a context. */
  function ReplyTo(l: Loop, context: string): string
    requires Usable(l.ask(context))
  {
    l.ask(context).value
  }

  /**
    * The model is called at least once and at most `rounds` times; the first call sees
    * `context`, each later one sees the previous context with exactly one round appended,
    * and every round but the last goes on.
    */
  lemma {:induction false} TraceShape(l: Loop, context: string, rounds: nat)
    requires rounds > 0
    ensures var t := Trace(l, context, rounds);
      1 <= |t| <= rounds && t[0] == context &&
      (forall k :: 0 <= k < |t| - 1 ==> Continues(l, t[k]) && t[k + 1] == l.next(t[k], ReplyTo(l, t[k])))
    decreases rounds
  {
    var t := Trace(l, context, rounds);
    if Continues(l, context) && rounds > 1 {
      var context' := l.next(context, ReplyTo(l, context));
      TraceShape(l, context', rounds - 1);
      var t' := Trace(l, context', rounds - 1);
      assert t == [context] + t';
      assert forall k :: 1 <= k < |t| ==> t[k] == t'[k - 1];
    }
  }

  /** How a round ends the loop, given the context the model was called with. */
  function EndingAt(l: Loop, context: string): Ending {
    var reply := l.ask(context);
    if !Usable(reply) then LlmFailed
    else if !l.goesOn(reply.value) then FinalAnswer(reply.value)
    else BudgetExhausted(reply.value)
  }

  /** The remaining rounds end as the last context the model sees decides; only a full run can go on. */
  lemma {:induction false} EndingFromTrace(l: Loop, context: string, rounds: nat, last: string)
    requires rounds > 0
    ensures var t := Trace(l, context, rounds);
      |t| > 0 &&
      RunFrom(l, context, rounds, last) == EndingAt(l, t[|t| - 1]) &&
      (Continues(l, t[|t| - 1]) ==> |t| == rounds)
    decreases rounds
  {
    var t := Trace(l, context, rounds);
    if Continues(l, context) && rounds > 1 {
      var context' := l.next(context, ReplyTo(l, context));
      EndingFromTrace(l, context', rounds - 1, ReplyTo(l, context));
      var t' := Trace(l, context', rounds - 1);
      assert t == [context] + t';
      assert t[|t| - 1] == t'[|t'| - 1];
    }
  }

  /**
    * At most `MaxIterations` model calls; the first sees "User Query: …\n"; each later
    * context is the one before with that round's segment appended, so the context only
    * grows by appending.
    */
  lemma PromptsShape(env: Env, prompt: Prompt, query: string)
    ensures var l := LoopOf(env, prompt); var t := Prompts(env, prompt, query);
      1 <= |t| <= MaxIterations && t[0] == Seed(query) &&
      (forall k :: 0 <= k < |t| - 1 ==>
        Continues(l, t[k]) && t[k + 1] == NextContext(env, t[k], ReplyTo(l, t[k])) && t[k] <= t[k + 1])
  {
    var l := LoopOf(env, prompt);
    var t := Prompts(env, prompt, query);
    TraceShape(l, Seed(query), MaxIterations);
    forall k | 0 <= k < |t| - 1 ensures t[k] <= t[k + 1] {
      AppendExtends(t[k], Segment(ReplyTo(l, t[k]), Observations(env, env.parse(ReplyTo(l, t[k])))));
    }
  }

  lemma AppendExtends(a: string, b: string)
    ensures a <= a + b
  {
    assert (a + b)[..|a|] == a;
  }

  /**
    * The loop ends in one of three ways: the fixed failure text when the last call fails
    * or returns an empty text, that reply verbatim when it holds no parsed calls, and
    * the fifth reply once five rounds all held calls.
    */
  lemma EndingCases(env: Env, prompt: Prompt, query: string)
    ensures var l := LoopOf(env, prompt);
      var t := Prompts(env, prompt, query);
      var final := t[|t| - 1];
      var e := Run(env, prompt, query);
      |t| > 0 &&
      (e == LlmFailed <==> !Usable(env.llm(prompt, final))) &&
      (e.FinalAnswer? <==> Usable(env.llm(prompt, final)) && env.parse(env.llm(prompt, final).value) == []) &&
      (e.FinalAnswer? ==> e.response == env.llm(prompt, final).value) &&
      (e.BudgetExhausted? <==> |t| == MaxIterations && Continues(l, final)) &&
      (e.BudgetExhausted? ==> e.response == env.llm(prompt, final).value)
  {
    var l := LoopOf(env, prompt);
    EndingFromTrace(l, Seed(query), MaxIterations, "");
    TraceShape(l, Seed(query), MaxIterations);
  }

  /** When every reply holds calls, the model is called five times and its fifth reply is returned. */
  lemma AllRoundsCall(env: Env, prompt: Prompt, query: string)
    requires forall k :: 0 <= k < |Prompts(env, prompt, query)| ==> Continues(LoopOf(env, prompt), Prompts(env, prompt, query)[k])
    ensures var l := LoopOf(env, prompt); var t := Prompts(env, prompt, query);
      |t| == MaxIterations && Continues(l, t[MaxIterations - 1]) &&
      Run(env, prompt, query) == BudgetExhausted(ReplyTo(l, t[MaxIterations - 1]))
  {
    var t := Prompts(env, prompt, query);
    EndingCases(env, prompt, query);
    assert Continues(LoopOf(env, prompt), t[|t| - 1]);
  }

  /** A first reply without calls is returned as it is after a single model call. */
  lemma FirstReplyFinal(env: Env, prompt: Prompt, query: string)
    requires Usable(env.llm(prompt, Seed(query)))
    requires env.parse(env.llm(prompt, Seed(query)).value) == []
    ensures Run(env, prompt, query) == FinalAnswer(env.llm(prompt, Seed(query)).value)
    ensures Prompts(env, prompt, query) == [Seed(query)]
  {
  }

  /** The observations of a round are the entries of that round's calls, in the order they were parsed. */
  lemma {:induction false} ObservationsConcat(env: Env, a: seq<ToolCall>, b: seq<ToolCall>)
    ensures Observations(env, a + b) == Observations(env, a) + Observations(env, b)
    decreases |b|
  {
    if b == [] {
      assert a + b == a;
    } else {
      var b' := b[..|b| - 1];
      assert (a + b)[..|a + b| - 1] == a + b';
      assert (a + b)[|a + b| - 1] == b[|b| - 1];
      ObservationsConcat(env, a, b');
    }
  }

  lemma ObservationsOne(env: Env, c: ToolCall)
    ensures Observations(env, [c]) == CallEntry(env, c)
  {
    assert [c][..0] == [];
  }

  /** The inner loop of a round (react_agent.py:235-240): run each call and collect its entry, in order. */
  method RunCalls(env: Env, toolCalls: seq<ToolCall>) returns (observations: string)
    ensures observations == Observations(env, toolCalls)
  {
    observations := "";
    for k := 0 to |toolCalls|
      invariant observations == Observations(env, toolCalls[..k])
    {
      assert toolCalls[..k + 1][..k] == toolCalls[..k];
      var result := env.execute(toolCalls[k].name, toolCalls[k].params);
      observations := observations + ("\nTool: " + toolCalls[k].name + "\nParameters: " +
        env.showParams(toolCalls[k].params) + "\nObservation: " + ObservationText(env, result) + "\n");
    }
    assert toolCalls[..|toolCalls|] == toolCalls;
  }

  /** The body of a round after a usable reply: parse the reply, run its calls, extend the context. */
  method Step(env: Env, context: string, response: string) returns (toolCalls: seq<ToolCall>, context': string)
    ensures toolCalls == env.parse(response)
    ensures context' == NextContext(env, context, response)
  {
    toolCalls := env.parse(response);
    var observations := RunCalls(env, toolCalls);
    context' := context + Segment(response, observations);
  }

  /** A round that goes on leaves the rest of the loop to the next context. */
  lemma RoundGoesOn(l: Loop, context: string, rounds: nat, last: string)
    requires rounds > 0 && Continues(l, context)
    ensures var reply := ReplyTo(l, context); var context' := l.next(context, reply);
      RunFrom(l, context, rounds, last) == RunFrom(l, context', rounds - 1, reply)
  {
  }

  /** A round that does not go on ends the loop where it is. */
  lemma RoundStops(l: Loop, context: string, rounds: nat, last: string)
    requires rounds > 0 && !Continues(l, context)
    ensures RunFrom(l, context, rounds, last) == EndingAt(l, context)
  {
  }

  /**
    * The loop of `react_loop` (react_agent.py:218-252): the returned text is the ending
    * of `Run`. The contexts the model is called with are `Prompts` (see `PromptsShape`).
    */
  method RunLoop(env: Env, prompt: Prompt, query: string) returns (answer: string)
    ensures answer == Answer(Run(env, prompt, query))
  {
    ghost var l := LoopOf(env, prompt);
    var context := Seed(query);
    var response := "";
    for round := 0 to MaxIterations
      invariant RunFrom(l, context, MaxIterations - round, response) == Run(env, prompt, query)
    {
      var reply := env.llm(prompt, context);
      ghost var before, last := context, response;
      assert l.ask(before) == reply;
      if !Usable(reply) {
        RoundStops(l, before, MaxIterations - round, last);
        return FailureText;
      }
      response := reply.value;
      var toolCalls;
      toolCalls, context := Step(env, context, response);
      if toolCalls == [] {
        assert !l.goesOn(response);
        RoundStops(l, before, MaxIterations - round, last);
        return response;
      }
      assert l.goesOn(response) && context == l.next(before, response);
      RoundGoesOn(l, before, MaxIterations - round, last);
    }
    answer := response;
  }
}
