/** The questions the assistant puts to a language model. A prompt is named by its template and the
    values substituted into it; the template text itself is not modelled. */
module Prompts {
  import opened Common
  import opened Llm

  datatype Prompt =
    | UrlPrompt(url: string)                      // is this URL a job description?
    | LinkPrompt(attrsJson: string)               // is this anchor a link to a job posting?
    | NextPagePrompt(url: string)                 // where is the "next page" link of this listing?
    | FormatterPrompt(rawText: string)            // format this page as a job description
    | RelevancePrompt(domain: string, want: string, context: string, description: string)
    | ScorePrompt(domain: string, context: string, description: string)
    | PlanPrompt(context: string)                 // plan the search: domains and queries

  /** A prompt sent to the model a key names (`Llm.Route` resolves the key). */
  datatype Question = Question(model: Model, prompt: Prompt)

  /** The model's answer text after every question asked so far; the last one is being answered.
      Indexing by the whole history lets repeated identical questions get different answers. */
  type Oracle = seq<Question> -> string

  /** The answers to `qs` asked one after the other once `history` has been asked. */
  function Answers(llm: Oracle, history: seq<Question>, qs: seq<Question>): (r: seq<string>)
    ensures |r| == |qs|
  {
    seq(|qs|, k requires 0 <= k < |qs| => llm(history + qs[..k + 1]))
  }

  /** Asking `qs` and then `q` gives the answers to `qs` and then the answer to `q`. */
  lemma AnswersSnoc(llm: Oracle, history: seq<Question>, qs: seq<Question>, q: Question)
    ensures Answers(llm, history, qs + [q]) == Answers(llm, history, qs) + [llm(history + qs + [q])]
  {
    var a := Answers(llm, history, qs + [q]);
    var b := Answers(llm, history, qs) + [llm(history + qs + [q])];
    forall k | 0 <= k < |a| ensures a[k] == b[k] {
      if k < |qs| {
        assert (qs + [q])[..k + 1] == qs[..k + 1];
      } else {
        assert (qs + [q])[..k + 1] == qs + [q];
        assert history + (qs + [q]) == history + qs + [q];
      }
    }
  }
}
