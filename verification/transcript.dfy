/** The conversation that both agent loops build and hand to the model each
    turn, the pieces of the model's streamed reply, and what the tool host can
    answer to a tool call. */
module Transcript {
  import opened Text

  /** A tool invocation requested by the model; the arguments stay opaque. */
  datatype ToolCall = ToolCall(name: string, arguments: string)

  /** One transcript entry, by role. */
  datatype Message =
    | SystemEntry(content: string)
    | UserEntry(content: string)
    | AssistantEntry(content: string, toolCalls: seq<ToolCall>)
    | ToolEntry(content: string, name: string)

  /** One streamed piece of a model reply: its text, which may be absent, and
      the tool calls it carries. */
  datatype Chunk = Chunk(content: Option<string>, toolCalls: seq<ToolCall>)

  /** What a call to the tool host gives back: the first content block of a
      text result, an empty result list, a result whose first block is not
      text (shown as the host prints it), or an exception with its message. */
  datatype ToolOutcome =
    | TextResult(text: string)
    | EmptyResult
    | NonTextResult(shown: string)
    | Raised(error: string)

  /** Appended to a reply whose reading was cut short by a cap. */
  const InterruptMarker: string := "<interrupted>"

  /** The answer reported when no turn yielded one. */
  const NoAnswer: string := "no answer"

  /** How a turn, or a whole episode, ended: the model went idle (an empty
      turn), an answer was extracted, or the loop goes on (at the end of an
      episode: the turn budget ran out). */
  datatype Outcome = Idle | Answered(answer: string) | Unfinished

  /** The answer a run reports for an outcome. */
  function AnswerOf(o: Outcome): string
  {
    if o.Answered? then o.answer else NoAnswer
  }

  /** The number of assistant entries: one per turn the loop has taken. */
  function AssistantCount(ms: seq<Message>): (n: nat)
    ensures n <= |ms|
  {
    if ms == [] then 0
    else AssistantCount(ms[..|ms| - 1]) + (if ms[|ms| - 1].AssistantEntry? then 1 else 0)
  }

  lemma AssistantCountAppend(ms: seq<Message>, extra: seq<Message>)
    ensures AssistantCount(ms + extra) == AssistantCount(ms) + AssistantCount(extra)
    decreases |extra|
  {
    if extra != [] {
      assert (ms + extra)[..|ms + extra| - 1] == ms + extra[..|extra| - 1];
      AssistantCountAppend(ms, extra[..|extra| - 1]);
    } else {
      assert ms + extra == ms;
    }
  }
}
