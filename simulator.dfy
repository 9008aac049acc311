/** The simulated user (user_simulator_hw3.py): it knows the product it wants and
    speaks through the language model; only `choose_item` is a rule of its own. */
module Simulator {
  import opened Prompts

  /** `user_simulator`: the wanted product's id, the facts its prompts quote, the model,
      and the two result lists the constructor starts empty and nothing in the core fills. */
  datatype UserSimulator = UserSimulator(
    parentAsin: string,
    item: ItemFacts,
    llm: Llm,
    retrievalResult: seq<string>,
    retrievalReciprocalRank: seq<real>)

  /** `user_simulator(parent_asin, meta, review, llm)`. */
  function NewSimulator(parentAsin: string, item: ItemFacts, llm: Llm): (sim: UserSimulator)
    ensures sim.parentAsin == parentAsin && sim.item == item && sim.llm == llm
    ensures sim.retrievalResult == [] && sim.retrievalReciprocalRank == []
  {
    UserSimulator(parentAsin, item, llm, [], [])
  }

  /** `initial_ambiguous_query`: the model's unstripped reply to the query prompt. */
  function InitialAmbiguousQuery(sim: UserSimulator): string {
    sim.llm(AmbiguousQueryPrompt(sim.item))
  }

  /** `answer_clarification_question`: the model's unstripped reply to the answer prompt. */
  function AnswerClarificationQuestion(sim: UserSimulator, question: string): string {
    sim.llm(ClarificationPrompt(sim.item, question))
  }

  /** `choose_item(rec_str)`: the wanted id when it is among the shown ids, else "none".
      The simulator is a value, so no field of it can change. */
  function ChooseItem(sim: UserSimulator, shown: seq<string>): (selection: string)
    ensures selection == sim.parentAsin || selection == "none"
  {
    if sim.parentAsin in shown then sim.parentAsin else "none"
  }

  /** The wanted id is returned exactly when it was shown. */
  lemma ChooseItemTarget(sim: UserSimulator, shown: seq<string>)
    requires sim.parentAsin != "none"
    ensures ChooseItem(sim, shown) == sim.parentAsin <==> sim.parentAsin in shown
    ensures ChooseItem(sim, shown) == "none" <==> sim.parentAsin !in shown
  {
  }

  /** The selection is one of the shown ids exactly when the wanted id was shown, or
      when an id literally named "none" was. */
  lemma ChooseItemShownIff(sim: UserSimulator, shown: seq<string>)
    ensures ChooseItem(sim, shown) in shown <==> sim.parentAsin in shown || "none" in shown
  {
  }
}
