/** The language model as an oracle. A prompt template is a constant text with
    named holes; the model keeps only the values filled into the holes, so two
    calls with the same filled-in values are the same prompt. */
module Prompts {

  /** The five product facts the user simulator puts into its prompts
      (`meta['title']`, `meta['features']`, `meta['description']`,
      `review['title']`, `review['text']`), already rendered as text. */
  datatype ItemFacts = ItemFacts(
    metaTitle: string,
    metaFeatures: string,
    metaDescription: string,
    reviewTitle: string,
    reviewText: string)

  datatype Prompt =
    | RewritePrompt(userInput: string)                   // REWRITE_PROMPT
    | ReformPrompt(history: string)                      // REFORM_PROMPT
    | SummaryPrompt(docs: string)                        // SUMMARY_PROMPT
    | QuestionPrompt(items: string, context: string)     // QUESTION_PROMPT
    | AmbiguousQueryPrompt(item: ItemFacts)              // the simulator's initial-query prompt
    | ClarificationPrompt(item: ItemFacts, question: string)  // the simulator's answer prompt

  /** `llm.invoke(prompt).content`. */
  type Llm = Prompt -> string
}
