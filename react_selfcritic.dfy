/** `react_selfcritic.py`: the self-critic agent, the shared loop run with the self-critic system prompt. */
module ReactSelfcritic {

  import opened Controller

  /**
    * `reat_selfcritic_loop` (react_selfcritic.py:233-267): the answer is the ending of the
    * loop, and it is either the failure text or the reply the model gave to the last
    * context it saw.
    */
  method ReatSelfcriticLoop(o: Oracles, query: string) returns (answer: string)
    ensures answer == Answer(Run(Agent(o), SelfCriticPrompt, query))
    ensures var t := Prompts(Agent(o), SelfCriticPrompt, query);
      answer == FailureText ||
      (Usable(o.llm(SelfCriticPrompt, t[|t| - 1])) && answer == o.llm(SelfCriticPrompt, t[|t| - 1]).value)
  {
    answer := RunLoop(Agent(o), SelfCriticPrompt, query);
    EndingCases(Agent(o), SelfCriticPrompt, query);
  }
}
