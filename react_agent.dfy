/** `react_agent.py`: the ReAct agent, the shared loop run with the ReAct system prompt. */
module ReactAgent {

  import opened Controller

  /**
    * `react_loop` (react_agent.py:218-252): the answer is the ending of the loop, and it
    * is either the failure text or the reply the model gave to the last context it saw.
    */
  method ReactLoop(o: Oracles, query: string) returns (answer: string)
    ensures answer == Answer(Run(Agent(o), ReActPrompt, query))
    ensures var t := Prompts(Agent(o), ReActPrompt, query);
      answer == FailureText ||
      (Usable(o.llm(ReActPrompt, t[|t| - 1])) && answer == o.llm(ReActPrompt, t[|t| - 1]).value)
  {
    answer := RunLoop(Agent(o), ReActPrompt, query);
    EndingCases(Agent(o), ReActPrompt, query);
  }
}
