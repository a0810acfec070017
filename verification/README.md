# ProblemSpaceSolver core in Dafny

This project models the core of ProblemSpaceSolver. The system is a solver for
the game of 24 driven by a language model. It has four parts:

- **The problem-space registry.** The model builds a graph of problem states
  through tools. The seed state is "nothing" at distance 100. The model
  declares heuristics, and records transitions from known states to new ones.
  A language model estimates each new state's distance to the goal.
  Descriptions are deduplicated by exact match.
- **The tool-using agent loop.** Each turn it streams one reply and records it.
  It stops on an empty reply or on an `<answer>…</answer>` tag. Otherwise it
  runs the requested tool calls and feeds their results back. After the loop
  it always fetches the problem-space insight once more.
- **The plain chain-of-thought loop.** It streams replies and takes the first
  tagged answer. Otherwise it asks for more with "continue reasoning".
- **The game-24 task.** It builds the prompt and validates an answer. The
  answer must use exactly the puzzle's numbers, and an algebra system must
  find it equal to 24.

Files and modules:

- `text.dfy`: module `Text`. String search (`FindFrom`) and first-index search (`FirstIndex`).
- `answer_tags.dfy`: module `AnswerTags`. What `re.findall(r'<answer>(.*?)<\/answer>', text, re.DOTALL)` returns.
- `transcript.dfy`: module `Transcript`. Transcript entries, streamed chunks and tool outcomes.
- `iterative.dfy`: module `Iterative`. The tool-using loop.
- `cot.dfy`: module `ChainOfThought`. The chain-of-thought loop.
- `game24.dfy`: module `Game24`. `Task.get_prompt` and `Task.validate`.
- `problem_space.dfy`: module `ProblemSpace`. The registry's map as a value, one function per operation, and the lemmas about them.
- `registry.dfy`: module `Registry`. Class `ProblemSpaceRegistry`, whose map field is replaced by `Reset` and appended to by the other methods. The linear-search loops for duplicates are methods too.

Everything outside the program becomes a function parameter:

- **The language model's stream** is `chat: seq<Message> -> seq<Chunk>`. The
  transcript grows before every call, so any sequence of replies is one
  choice of `chat`.
- **The tool host** is `callTool: (seq<Message>, ToolCall) -> ToolOutcome`.
- **The distance estimator** is `distance: DistanceQuery -> DistanceReply`.
  `Unparseable` stands for a reply that pydantic cannot parse.
- **sympy** is `evaluate: string -> Verdict`. `Raises` stands for any
  exception from parsing or simplifying.

Each loop method is proved equal to a recursive specification function:

| method | specification function |
|---|---|
| `ReadTurn` | `ReadStream` |
| `DispatchTools` | `Dispatch` |
| `Turn` | `TakeTurn` |
| `ChainOfThought.Loop` | `Episode` |
| `Run` | `RunSpec`, over `Episode` and `TakeTurn` |
| `FindState`, `FindHeuristic` | `FirstIndex` |

The registry methods are proved equal to `ProblemSpace.AddHeuristic` and
`ProblemSpace.AddTransition`. The lemmas state the properties of those
functions.

## Model

| member | source | states |
|---|---|---|
| Registry.ProblemSpaceRegistry.constructor | problem_space/problem_space/registry.py:22-23 | a new registry holds the initial map with goal "unknown" and is well formed |
| Registry.ProblemSpaceRegistry.Reset | problem_space/problem_space/registry.py:25-38 | reset may be called at any time. It replaces the map with the initial map for the new goal, which is well formed |
| ProblemSpace.InitialMap | problem_space/problem_space/registry.py:25-38 | the map after a reset has the goal, exactly one state (the seed: id 0, "nothing", distance 100), no heuristics and no transitions, and it is well formed: ids equal positions, descriptions are unique, transition k reaches state k+1 from an earlier state with a declared heuristic |
| Registry.ProblemSpaceRegistry.AddHeuristic | problem_space/problem_space/registry.py:86-103 | the reply and the new map are those of `ProblemSpace.AddHeuristic` applied to the old map, and the map stays well formed |
| Registry.FindHeuristic | problem_space/problem_space/registry.py:90-92 | the loop over heuristics stops at the first one with the description, or finds none exactly when no heuristic has it |
| ProblemSpace.AddHeuristicMeaning | problem_space/problem_space/registry.py:86-103 | fails exactly when the goal is unknown, and then changes nothing. Reports the existing id exactly when the description is already declared, and then changes nothing; that id names the heuristic with this description. Otherwise it appends one heuristic whose id is the old count, with states, transitions and goal untouched. The map stays well formed |
| Registry.ProblemSpaceRegistry.AddTransition | problem_space/problem_space/registry.py:105-147 | the reply and the new map are those of `ProblemSpace.AddTransition` applied to the old map, and the map stays well formed |
| Registry.FindState | problem_space/problem_space/registry.py:113-118 | the loop over states stops at the first one with the description, or finds none exactly when no state has it |
| ProblemSpace.AddTransitionErrors | problem_space/problem_space/registry.py:106-111 | the checks run in order (goal, origin id, heuristic id), each error arises exactly when its check is the first to fail, and every failure leaves the map unchanged; an oracle failure happens only for a new description |
| ProblemSpace.AddTransitionExisting | problem_space/problem_space/registry.py:113-118 | a description already present returns that state's id and distance, adds no state and no transition, and gives the same result whatever the oracle |
| ProblemSpace.AddTransitionNew | problem_space/problem_space/registry.py:122-147 | a new description queries the oracle with the goal, the origin's description and distance, the heuristic's description and the new description. A number becomes one new state with id = old state count and that distance, plus one transition (origin, new id, heuristic). The reply returns the id and distance. Heuristics and goal are untouched. An unparseable reply changes nothing |
| ProblemSpace.AddTransitionKeepsWellFormed | problem_space/problem_space/registry.py:105-147 | recording a transition keeps the map well formed, whatever the oracle answers |
| ProblemSpace.PathFromSeed | problem_space/problem_space/registry.py:136-143 | in a well-formed map every state is reached from the seed by a chain of recorded transitions (the map is a tree rooted at state 0) |
| ProblemSpace.UnknownGoalRejectsAll | problem_space/problem_space/registry.py:87-88 | while the goal is "unknown", add_heuristic, add_transition and get_map all fail with the goal error and change nothing. This covers the same check at lines 106-107 and 150-151 |
| ProblemSpace.FirstSteps | problem_space/problem_space/registry.py:86-152 | after reset(goal), adding heuristic "combine with +" returns id 0 and adding a transition (0, 0, "4+4+6+8") returns id 1 with the oracle's distance. The map then holds two states, one heuristic and the transition 0 -> 1 |
| ProblemSpace.GetMap | problem_space/problem_space/registry.py:149-152 | fails exactly when the goal is unknown, and otherwise returns the map itself |
| Registry.ProblemSpaceRegistry.GetMap | problem_space/problem_space/registry.py:149-152 | returns what `ProblemSpace.GetMap` gives for the current map, and a returned map is well formed |
| ProblemSpace.PyIndex | problem_space/problem_space/registry.py:124-126 | Python list indexing with an id below the length is defined exactly when the id is at least minus the length, and then it picks the element at the id modulo the length, so -1 picks the last one |
| ProblemSpace.AsWrittenAgreesOnNaturalIds | problem_space/problem_space/registry.py:108-111 | for ids that are not negative, the guards as written and the corrected guards give the same reply and map |
| ProblemSpace.NegativeOriginAccepted | problem_space/problem_space/registry.py:108-143 | as written, origin id -1 passes the guard and a state is added with a transition from -1, which leaves the map not well formed; the corrected guard rejects -1 and changes nothing |
| Text.FirstIndex | problem_space/problem_space/registry.py:90-92 | the first position holding the value, with none before it; none exactly when the value is absent |
| Text.FindFrom | problem_space/methods/iterative/__init__.py:92 | the search for a tag finds an occurrence at or after the start position |
| Text.FindFromFirst | problem_space/methods/iterative/__init__.py:92 | the search passes no occurrence: none lies between the start and the one it finds, and none at all follows the start when it finds nothing |
| Text.FoundAt | problem_space/methods/iterative/__init__.py:92 | an occurrence with none between the start and it is the one the search finds |
| AnswerTags.SpansFromScanned | problem_space/methods/iterative/__init__.py:92 | the spans found from a position are the complete left-to-right scan of `re.findall`: the first is the match at the first opening tag after that position, closed at the nearest closing tag; the rest is the scan resumed after that closing tag; the scan is empty only when no opening tag there is followed by a closing tag |
| AnswerTags.SpansFromStep | problem_space/methods/iterative/__init__.py:92 | when the search finds an opening tag and a closing tag after it, the scan is that match followed by the scan after the closing tag |
| AnswerTags.ScanFirst | problem_space/methods/iterative/__init__.py:92 | a non-empty scan starts with a match whose opening tag is the first one after the position, and goes on with the scan after its closing tag |
| AnswerTags.ScanFirstAt | problem_space/methods/iterative/__init__.py:92 | the scan splits at the opening tag the search finds and the nearest closing tag after it, and those two tags make a match |
| AnswerTags.ScanStops | problem_space/methods/iterative/__init__.py:92 | an empty scan means no opening tag after the position is followed by a closing tag |
| AnswerTags.ScanFinds | problem_space/methods/iterative/__init__.py:92 | where some opening tag after the position is followed by a closing tag, the scan finds something |
| AnswerTags.NoCloseAfterFirst | problem_space/methods/iterative/__init__.py:92 | when no closing tag follows the first opening tag, none follows any later opening tag, so the expression matches nowhere from there |
| AnswerTags.ScanUnique | problem_space/methods/iterative/__init__.py:92 | the scan is determined by the text: two scans from the same position are equal |
| AnswerTags.FirstSpanLeftmost | problem_space/methods/iterative/__init__.py:92 | the first span belongs to the leftmost opening tag that has a match |
| AnswerTags.ScanEnds | problem_space/methods/iterative/__init__.py:92 | after the last span's closing tag the expression matches nowhere |
| AnswerTags.NothingAfterLast | problem_space/methods/iterative/__init__.py:92 | no match opens after the last span's closing tag |
| AnswerTags.ScannedMatch | problem_space/methods/iterative/__init__.py:92 | every span of the scan is an opening tag, content with no closing tag in it, and the nearest closing tag |
| AnswerTags.SpansInOrder | problem_space/methods/iterative/__init__.py:92 | the spans of the scan come left to right without overlapping: each opening tag lies after the previous closing tag |
| AnswerTags.Matches | problem_space/methods/iterative/__init__.py:92 | `re.findall` returns one string per span of the scan |
| AnswerTags.MatchesAreSpans | problem_space/methods/iterative/__init__.py:92 | the k-th returned string is the text between the k-th span's tags, in scan order |
| AnswerTags.MatchesAreTagContents | problem_space/methods/iterative/__init__.py:92 | every string returned is the content of a match between an opening and the nearest closing tag |
| AnswerTags.MatchesExistIff | problem_space/methods/iterative/__init__.py:92 | the search finds something exactly when an opening tag is followed, anywhere later, by a closing tag |
| AnswerTags.NoEarlyClose | problem_space/methods/iterative/__init__.py:92 | in `<answer>x</answer>` with no closing tag inside x, the first closing tag after the opening one is the final one |
| AnswerTags.SingleAnswer | problem_space/methods/iterative/__init__.py:92 | a text that is one tagged answer without a closing tag inside yields exactly that answer |
| AnswerTags.TwentyFourAnswer | problem_space/methods/iterative/__init__.py:92-95 | "<answer>24</answer>" yields exactly ["24"] |
| Iterative.ReadTurn | problem_space/methods/iterative/__init__.py:53-83 | the pull loop produces the text and tool calls of `ReadStream` on the whole stream |
| Iterative.ReadStreamTakes | problem_space/methods/iterative/__init__.py:72-83 | reading takes the first `ChunksRead` chunks, none of them an end chunk. Unless a cap stops it first, it stops at an end chunk (None content, no calls) or at the end of the stream |
| Iterative.ReadStreamText | problem_space/methods/iterative/__init__.py:72-83 | the reply text, without the marker, is the text of the chunks read joined in order; None counts as empty |
| Iterative.ReadStreamCalls | problem_space/methods/iterative/__init__.py:77-79 | the reply's tool calls are the calls of the chunks read, in order |
| Iterative.ReadStreamCaps | problem_space/methods/iterative/__init__.py:81-83 | a reply is cut short exactly when its text passes 32000 characters or its calls pass 100, and then it ends with "<interrupted>" |
| Iterative.ReadStreamStops | problem_space/methods/iterative/__init__.py:72-83 | once reading has stopped, chunks after that point never change the reply |
| Iterative.Dispatch | problem_space/methods/iterative/__init__.py:111-127 | each call adds exactly one entry |
| Iterative.DispatchTools | problem_space/methods/iterative/__init__.py:111-127 | the dispatch loop produces the transcript and failure flag of `Dispatch` |
| Iterative.DispatchPrefix | problem_space/methods/iterative/__init__.py:111-127 | the transcript before dispatch is kept as a prefix |
| Iterative.DispatchEntries | problem_space/methods/iterative/__init__.py:112-127 | entry k is the tool entry for call k, in received order, made from what the host answered to the transcript as it stood. A failure is written "<name>: <error>" and does not stop later calls |
| Iterative.DispatchEndsWithTool | problem_space/methods/iterative/__init__.py:112-127 | a dispatch of at least one call ends with a tool entry |
| Iterative.DispatchAddsNoReply | problem_space/methods/iterative/__init__.py:111-127 | tool entries are not replies: a dispatch adds no assistant entry |
| Iterative.DispatchFailed | problem_space/methods/iterative/__init__.py:111-125 | the flag is set exactly when some call failed (an exception or a non-text result) |
| Iterative.RunToolsEntries | problem_space/methods/iterative/__init__.py:111-127 | the tool part of a turn keeps the transcript, then adds one tool entry per call, in order, each made from what the host answered to the transcript as it stood |
| Iterative.RunToolsNotice | problem_space/methods/iterative/__init__.py:111-131 | after the tool entries, one "one of tool calls failed" entry follows exactly when some call failed |
| Iterative.RunToolsAddNoReply | problem_space/methods/iterative/__init__.py:111-131 | the tool part of a turn adds no assistant entry |
| Iterative.RunToolsEndsWithoutReply | problem_space/methods/iterative/__init__.py:111-131 | after at least one call, the last entry is not a reply |
| Iterative.Turn | problem_space/methods/iterative/__init__.py:53-131 | one pass of the loop body yields the outcome and transcript of `TakeTurn` |
| Iterative.TurnMeaning | problem_space/methods/iterative/__init__.py:86-101 | each turn appends the reply as one assistant entry, even an empty one. An empty reply with no calls ends the loop. A reply with calls never ends it, and its tags are not examined. A reply without calls adds nothing more, and ends the loop exactly when it holds a tagged span; the answer is the last span |
| Iterative.TurnWithToolCalls | problem_space/methods/iterative/__init__.py:111-131 | after the reply come one tool entry per call in order, then one "one of tool calls failed" entry exactly when some call failed |
| Iterative.TurnAddsOneReply | problem_space/methods/iterative/__init__.py:86-131 | every turn adds exactly one assistant entry |
| Iterative.TurnExtends | problem_space/methods/iterative/__init__.py:86-131 | a turn keeps the transcript it started from and adds exactly one reply |
| Iterative.NoTurns | problem_space/methods/iterative/__init__.py:50 | with no turns left the loop body does not run and the transcript is unchanged |
| Iterative.EpisodeExtends | problem_space/methods/iterative/__init__.py:50-131 | the transcript is only appended to, and at most one reply is added per turn of the budget |
| Iterative.TurnOutcome | problem_space/methods/iterative/__init__.py:86-95 | a turn that ends the loop shows why in its reply: an answer is the last tagged span of a reply without calls; an idle end is an empty reply without calls |
| Iterative.LastTurn | problem_space/methods/iterative/__init__.py:50-131 | an episode that took a turn ends with the result of its last turn |
| Iterative.EpisodeOutcome | problem_space/methods/iterative/__init__.py:86-95 | an episode that answered ends with a reply without calls whose last tagged span is the answer; one that went idle ends with an empty reply |
| Iterative.UnfinishedTurnShowsNoAnswer | problem_space/methods/iterative/__init__.py:91-131 | a turn that lets the loop continue leaves a transcript whose last entry shows no answer |
| Iterative.OutcomeIsShown | problem_space/methods/iterative/__init__.py:45-95 | the answer of an ending turn is the one its last entry shows; an empty reply shows "no answer" |
| Iterative.EpisodeAnswer | problem_space/methods/iterative/__init__.py:45-101 | the reported answer is exactly the last tagged span of the final entry when that entry is a reply without calls, and "no answer" otherwise |
| Iterative.ConcludeMeaning | problem_space/methods/iterative/__init__.py:136-144 | the final insight request fails the run exactly when it raises or returns a non-text block. Otherwise it appends one problem_space_get_insight tool entry, adds no reply, and keeps the loop's answer |
| Iterative.RunFromMeaning | problem_space/methods/iterative/__init__.py:45-153 | from any starting transcript without replies or answer: the loop only extends the transcript; the run fails exactly when the insight request does; otherwise the transcript ends with the insight entry, holds at most the budget of replies, and the answer is the one the loop's transcript shows |
| Iterative.RunMeaning | problem_space/methods/iterative/__init__.py:45-153 | the transcript starts with the system prompt and the task prompt, and holds at most max_iter replies. It ends with one problem_space_get_insight tool entry after the loop. The answer is the one the transcript before that entry shows. The run fails exactly when that final call fails |
| Iterative.ImmediateAnswer | problem_space/methods/iterative/__init__.py:91-95 | a first reply "<answer>24</answer>" ends the run with answer "24" and transcript seed, reply, insight |
| Iterative.AnswerTurn | problem_space/methods/iterative/__init__.py:86-95 | a reply that is exactly "<answer>24</answer>" in one chunk ends the loop with "24" and adds only itself |
| Iterative.SilentModel | problem_space/methods/iterative/__init__.py:86-89 | an empty first reply ends the run with "no answer", the empty reply recorded, then the insight |
| Iterative.Run | problem_space/methods/iterative/__init__.py:24-153 | the loop returns the answer and transcript of `RunSpec`, or its error |
| ChainOfThought.ReadTurn | problem_space/methods/cot/__init__.py:28-47 | the pull loop produces the text of `ReadStream` on the whole stream |
| ChainOfThought.ReadStreamMeaning | problem_space/methods/cot/__init__.py:40-47 | a reply read in full is the text of the chunks before the first chunk with empty or missing text. It is cut short exactly when that text passes 10000 characters, and then it ends with "<interrupted>" |
| ChainOfThought.ReadStreamCut | problem_space/methods/cot/__init__.py:40-47 | the reply without the marker is the text of the first `ChunksRead` chunks; a capped reply is cut right after the chunk that first takes the text past 10000 characters, so the chunks before it stay within the cap |
| ChainOfThought.ReadStreamStopsAt | problem_space/methods/cot/__init__.py:40-47 | no chunk taken has empty or missing text, and a reply not cut short stopped at such a chunk or at the end of the stream |
| ChainOfThought.EmptyReply | problem_space/methods/cot/__init__.py:40-52 | the reply is empty exactly when the stream ends before any chunk with text |
| ChainOfThought.TurnMeaning | problem_space/methods/cot/__init__.py:49-59 | each turn appends the reply, even an empty one. An empty reply ends the loop. Otherwise the loop ends exactly when a tagged span exists, with the first span as the answer, and adding 1 entry. A turn that goes on adds exactly 2 entries, the second "continue reasoning" |
| ChainOfThought.SingleChunkTurn | problem_space/methods/cot/__init__.py:40-59 | a reply of one chunk of text within the cap either answers with its first span or is followed by "continue reasoning" |
| ChainOfThought.TurnAddsOneReply | problem_space/methods/cot/__init__.py:49-59 | every turn adds exactly one assistant entry |
| ChainOfThought.TurnExtends | problem_space/methods/cot/__init__.py:49-59 | a turn keeps the transcript and adds one reply; it adds one entry more (the "continue reasoning" prompt) exactly when the loop goes on |
| ChainOfThought.NoTurns | problem_space/methods/cot/__init__.py:26 | with no turns left the loop body does not run and the transcript is unchanged |
| ChainOfThought.EpisodeExtends | problem_space/methods/cot/__init__.py:26-59 | the transcript is only appended to, and at most one reply is added per turn of the budget |
| ChainOfThought.EpisodeTurns | problem_space/methods/cot/__init__.py:26-59 | with t turns taken (at most the budget), exactly t replies are added. The transcript grows by 2t entries if the budget ran out (then t is the budget), and by 2t-1 if a turn ended the loop |
| ChainOfThought.LastTurn | problem_space/methods/cot/__init__.py:26-59 | an episode that took a turn ends with the result of its last turn |
| ChainOfThought.TurnAnswer | problem_space/methods/cot/__init__.py:49-59 | a turn reports the answer its transcript shows: the first tagged span of the reply that ended the loop; none when the loop goes on, since "continue reasoning" comes last |
| ChainOfThought.EpisodeAnswer | problem_space/methods/cot/__init__.py:21-59 | the reported answer is exactly the first tagged span of the final entry when that entry is a reply holding one, and "no answer" otherwise |
| ChainOfThought.RunFromMeaning | problem_space/methods/cot/__init__.py:21-59 | from any starting transcript without replies or answer: the transcript is extended, holds at most the budget of replies, and the answer is the one it shows |
| ChainOfThought.RunMeaning | problem_space/methods/cot/__init__.py:15-62 | the transcript starts with the system prompt and the task prompt and holds at most max_iter replies. The answer is the one the transcript shows |
| ChainOfThought.ImmediateAnswer | problem_space/methods/cot/__init__.py:54-57 | a first reply "<answer>24</answer>" ends the run with "24" |
| ChainOfThought.AskForMore | problem_space/methods/cot/__init__.py:49-59 | a reply without tags is followed by "continue reasoning", and the next turn's answer is taken |
| ChainOfThought.Turn | problem_space/methods/cot/__init__.py:28-59 | one pass of the loop body yields the outcome and transcript of `TakeTurn` |
| ChainOfThought.Loop | problem_space/methods/cot/__init__.py:21-59 | the loop, from any starting transcript, returns the answer and transcript of `Episode` with the budget |
| ChainOfThought.Run | problem_space/methods/cot/__init__.py:15-62 | the run returns the answer and transcript of `RunSpec`: the loop from the system prompt and the task prompt |
| Game24.TemplateField | problem_space/tasks/game24/__init__.py:9-40 | the template holds the field `{input}` right after its leading text, and its tail follows the field |
| Game24.GetPrompt | problem_space/tasks/game24/__init__.py:39-40 | the prompt is the template with its `{input}` field replaced by the puzzle input: the text before the field, the input, the text after it |
| Game24.GetPromptFormats | problem_space/tasks/game24/__init__.py:39-40 | the prompt is exactly what `str.format(input=...)` makes of the template, given that the template's text has no brace of its own |
| Game24.FormatPlain | problem_space/tasks/game24/__init__.py:40 | `str.format` copies text without braces as it stands |
| Game24.FormatField | problem_space/tasks/game24/__init__.py:40 | `str.format` puts the value in place of the field `{input}` |
| Game24.FormatOneField | problem_space/tasks/game24/__init__.py:40 | a template with one `{input}` field and no other brace formats to the text around the field with the value in its place |
| Game24.FormatLoneClose | problem_space/tasks/game24/__init__.py:40 | a single closing brace makes `str.format` fail |
| Game24.TrimStart | problem_space/tasks/game24/__init__.py:43 | the result is a suffix of the string that does not start with Python whitespace, and only whitespace was removed |
| Game24.TrimEnd | problem_space/tasks/game24/__init__.py:43 | the result is a prefix of the string that does not end with Python whitespace, and only whitespace was removed |
| Game24.LastLine | problem_space/tasks/game24/__init__.py:43 | the result is the suffix after the last newline (the whole string if there is none) |
| Game24.Lower | problem_space/tasks/game24/__init__.py:43 | `.lower()` on ASCII: each character is lower-cased in place, so the length is kept and no upper-case letter remains |
| Game24.LowerAppend | problem_space/tasks/game24/__init__.py:43 | lower-casing works character by character, so it distributes over concatenation |
| Game24.RemoveAll | problem_space/tasks/game24/__init__.py:43 | the result is no longer than the input and uses only its characters |
| Game24.RemoveAllFirst | problem_space/tasks/game24/__init__.py:43 | the removal goes left to right: the text before the first occurrence found by the search is kept, that occurrence is dropped, and the removal goes on after it |
| Game24.RemoveAllKeeps | problem_space/tasks/game24/__init__.py:43 | a leading stretch in which no occurrence starts is kept as it is |
| Game24.DropFirst | problem_space/tasks/game24/__init__.py:43 | an occurrence at the front is dropped |
| Game24.RemoveAllAbsent | problem_space/tasks/game24/__init__.py:43 | removing a pattern that does not occur leaves the text unchanged |
| Game24.BeforeFirst | problem_space/tasks/game24/__init__.py:43 | the result is the longest prefix without the separator |
| Game24.Expression | problem_space/tasks/game24/__init__.py:43 | the expression has no newline, no '=' and no upper-case ASCII letter |
| Game24.LabelledAnswer | problem_space/tasks/game24/__init__.py:43 | for an answer of some working and a last line "Answer: x=result", the label is dropped and exactly x is kept, character for character |
| Game24.LastLineAfter | problem_space/tasks/game24/__init__.py:43 | the last line of a text ending in a line break and a line is that line |
| Game24.LabelFreePrefix | problem_space/tasks/game24/__init__.py:43 | an expression without the label, followed by '=', is kept whole by the removal |
| Game24.BeforeFirstAt | problem_space/tasks/game24/__init__.py:43 | cutting at the first separator keeps exactly what stands before it |
| Game24.StripUnpadded | problem_space/tasks/game24/__init__.py:43 | stripping a string without surrounding whitespace leaves it unchanged |
| Game24.LastLineSingle | problem_space/tasks/game24/__init__.py:43 | a string without a newline is its own last line |
| Game24.LowerLowercase | problem_space/tasks/game24/__init__.py:43 | lower-casing a string without upper-case letters leaves it unchanged |
| Game24.BeforeFirstAbsent | problem_space/tasks/game24/__init__.py:43 | without an '=' the whole string is kept |
| Game24.PlainExpression | problem_space/tasks/game24/__init__.py:43 | an answer that is already a bare expression (one line, no surrounding whitespace, no upper case, no "answer: ", no '=') is taken as it stands |
| Game24.LeadingDigits | problem_space/tasks/game24/__init__.py:44-45 | the length of the digit run at the start: all digits, followed by a non-digit or the end |
| Game24.DigitRuns | problem_space/tasks/game24/__init__.py:44-45 | every run is a non-empty string of digits |
| Game24.DigitRunsSplit | problem_space/tasks/game24/__init__.py:44-45 | a non-digit separates the digit runs on its two sides |
| Game24.DigitRunsWholeNumber | problem_space/tasks/game24/__init__.py:44-45 | a string of digits is its own only run |
| Game24.WholeNumberAnswer | problem_space/tasks/game24/__init__.py:43-45 | an answer that is one bare number is its own expression, with that number as its only run |
| Game24.Insert | problem_space/tasks/game24/__init__.py:46 | inserting into a sorted list keeps it sorted and adds exactly that element |
| Game24.Sort | problem_space/tasks/game24/__init__.py:46 | the result is sorted in Python's string order and is a permutation of the input |
| Game24.SortedUnique | problem_space/tasks/game24/__init__.py:46 | two sorted lists with the same elements are equal |
| Game24.SortedEqualIffSameElements | problem_space/tasks/game24/__init__.py:46 | the sorted lists are equal exactly when the two lists hold the same numbers the same number of times, whatever their order |
| Game24.ValidateMeaning | problem_space/tasks/game24/__init__.py:42-51 | an answer is valid exactly when its expression holds the puzzle's number strings the same number of times and the evaluator says it equals 24; an evaluator exception means invalid |
| Game24.NumberMismatchRejects | problem_space/tasks/game24/__init__.py:46-47 | with different numbers the answer is rejected whatever the evaluator |
| Game24.ZeroPaddedNumberRejected | problem_space/tasks/game24/__init__.py:43-47 | numbers compare as strings: for a puzzle that is one number n, the answer "0" + n (such as "04" for "4") is rejected whatever the evaluator |

## Left out

- The language model client, its model name, temperature and sampling options are left out. The stream becomes the `chat` parameter.
- The tool list sent with each request is not modelled (problem_space/methods/iterative/__init__.py:32-43). It reaches only the model, which is a parameter here.
- Console printing is left out.
- The MCP client and its argument conversion are not modelled. A tool call's outcome, including a failure to convert the arguments, is the `callTool` parameter. Tool arguments are kept as opaque strings.
- The distance estimator's prompt, its own request to the model and its JSON parsing are left out. They form the `distance` parameter. Its own check for an unknown goal (registry.py:47-48) is not modelled, because `add_transition` has already made the same check before calling it.
- `self.history` in `reset` is never read and is not modelled.
- `get_map` returns the live map object, so a caller could change it. Here the map is a value, so that aliasing is not captured.
- `Game24.GetPromptFormats`: that the template's text holds no brace of its own is a precondition, not proved. The text is a constant of about 1,540 characters, which the solver does not check character by character.
- `Game24.Format`: only `{{`, `}}` and the field `{input}` are modelled. Any other field, conversion (`!r`) or format spec (`:>5`) is treated as an error. The template uses none of them.
- `Game24.Expression`: `str.lower` is modelled for ASCII letters only, because the model has no Unicode case tables.
- `Game24.DigitRuns`: `\d` is modelled as the ASCII digits only. Python also matches other Unicode decimal digits.
- Distances are `real`, with no floating-point rounding. Nothing computes with them.
- sympy's parsing and simplification are left out. They form the `evaluate` parameter.
- `iter_tasks`, the data file, `run.py`, `mcp.py`, `models.py` and `calculator.py` are not part of this model.
- `ProblemSpace.AddTransition` rejects negative ids, which the code accepts; see Findings. The class uses this corrected guard, and `ProblemSpace.AddTransitionAsWritten` keeps the guards as written.
- The model follows the code on these points:
  - a reset is allowed while a goal is set (registry.py:25-38);
  - a duplicate state description records no transition;
  - duplicates are returned as values, not raised;
  - the distance is not bounded to 0..100.

## Findings

| source | as written | input that shows it | evidently intended | confidence | as-written member | corrected member |
|---|---|---|---|---|---|---|
| problem_space/problem_space/registry.py:108-111 | only `id >= len(...)` is rejected. A negative origin or heuristic id passes, Python indexing takes it from the end of the list, and the transition stores the negative id | goal set, heuristic "try" added, then `add_transition(-1, 0, "a state")`. The step is judged from the newest state and logged as a transition from state -1 | reject ids outside 0..len-1, so every transition names existing states | likely; not executed | ProblemSpace.NegativeOriginAccepted | ProblemSpace.AddTransitionKeepsWellFormed |
