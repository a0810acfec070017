/** The plain chain-of-thought loop: each turn it streams a reply from the
    model, records it, and then stops on an empty reply, stops on a tagged
    answer, or asks the model to go on.  No tools are offered.

    The model is the oracle `chat`: the chunks it streams for a given
    transcript.  The transcript grows before every call, so any behaviour of
    the model over one episode is some choice of this function.  Only the
    text of a chunk is read; tool calls in it are ignored. */
module ChainOfThought {
  import opened Text
  import opened Transcript
  import AnswerTags
  import Game24

  /** Reading stops once the reply text is longer than this. */
  const MaxTextLength: nat := 10000

  /** The user entry that asks for another turn. */
  const ContinueNotice: string := "continue reasoning"

  /** The system prompt that opens every transcript. */
  const Instructions: string := @"INSTRUCTIONS:
You are professional in reasoning step by step.
- Be verbose about what are you doing
- ALWAYS wrap your final answer with tags <answer>YOUR ANSWER</answer>
"

  // ---------------------------------------------------------------------
  // Reading one streamed reply

  /** A chunk without text, or with empty text, ends the reply. */
  predicate IsEndChunk(part: Chunk)
  {
    part.content.None? || part.content.value == ""
  }

  datatype Reading = Reading(text: string, capped: bool)

  /** The reply read from `stream`, given the text read before it. */
  function ReadStream(stream: seq<Chunk>, text: string): Reading
    decreases |stream|
  {
    if stream == [] || IsEndChunk(stream[0]) then Reading(text, false)
    else
      var t := text + stream[0].content.value;
      if |t| > MaxTextLength then Reading(t + InterruptMarker, true)
      else ReadStream(stream[1..], t)
  }

  /** The text of the chunks before the first end chunk. */
  function LeadingText(stream: seq<Chunk>): string
    decreases |stream|
  {
    if stream == [] || IsEndChunk(stream[0]) then "" else stream[0].content.value + LeadingText(stream[1..])
  }

  /** The text without the marker a cap appends. */
  function Body(r: Reading): string
  {
    if r.capped && |r.text| >= |InterruptMarker| then r.text[..|r.text| - |InterruptMarker|] else r.text
  }

  /** The pull loop over one reply's chunks. */
  method ReadTurn(stream: seq<Chunk>) returns (text: string)
    ensures text == ReadStream(stream, "").text
  {
    text := "";
    var i := 0;
    while i < |stream|
      invariant 0 <= i <= |stream|
      invariant ReadStream(stream[i..], text) == ReadStream(stream, "")
    {
      var part := stream[i];
      assert stream[i..][0] == part && stream[i..][1..] == stream[i + 1..];
      if part.content.None? || part.content.value == "" {
        break;
      }
      text := text + part.content.value;
      if |text| > MaxTextLength {
        text := text + InterruptMarker;
        break;
      }
      i := i + 1;
    }
  }

  /** A reply read in full is the text before the first end chunk and stays
      within the cap; a reply cut short is longer than the cap, ends with the
      marker, and starts with that text. */
  lemma {:induction false} ReadStreamMeaning(stream: seq<Chunk>, text: string)
    requires |text| <= MaxTextLength
    ensures var r := ReadStream(stream, text);
      && (r.capped ==> r.text == Body(r) + InterruptMarker)
      && (r.capped <==> |text + LeadingText(stream)| > MaxTextLength)
      && (!r.capped ==> r.text == text + LeadingText(stream))
      && (r.capped ==> |Body(r)| > MaxTextLength && Body(r) <= text + LeadingText(stream))
    decreases |stream|
  {
    if stream != [] && !IsEndChunk(stream[0]) {
      var t := text + stream[0].content.value;
      assert text + LeadingText(stream) == t + LeadingText(stream[1..]);
      if |t| > MaxTextLength {
        assert (t + InterruptMarker)[..|t + InterruptMarker| - |InterruptMarker|] == t;
        assert t <= t + LeadingText(stream[1..]);
      } else {
        ReadStreamMeaning(stream[1..], t);
      }
    }
  }

  /** How many chunks reading takes: those before the first end chunk, or up
      to the one that takes the text past the cap. */
  function ChunksRead(stream: seq<Chunk>, text: string): (n: nat)
    ensures n <= |stream|
    decreases |stream|
  {
    if stream == [] || IsEndChunk(stream[0]) then 0
    else
      var t := text + stream[0].content.value;
      if |t| > MaxTextLength then 1 else 1 + ChunksRead(stream[1..], t)
  }

  /** The first `m + 1` chunks, when the first one is not an end chunk, are
      that chunk's text and the next `m`. */
  lemma TakeOneMore(stream: seq<Chunk>, m: nat)
    requires m < |stream| && !IsEndChunk(stream[0])
    ensures LeadingText(stream[..m + 1]) == stream[0].content.value + LeadingText(stream[1..][..m])
  {
    assert stream[..m + 1][0] == stream[0];
    assert stream[..m + 1][1..] == stream[1..][..m];
  }

  /** Reading cuts the stream after chunk n: the reply's text without the
      marker is the text of the first n chunks, none of which ends the reply.
      A capped reply is cut at the first chunk that takes the text past the
      cap, so the chunks before that one stay within it. */
  lemma {:induction false} ReadStreamCut(stream: seq<Chunk>, text: string)
    requires |text| <= MaxTextLength
    ensures var n := ChunksRead(stream, text);
      var r := ReadStream(stream, text);
      && Body(r) == text + LeadingText(stream[..n])
      && (r.capped ==> 0 < n && |text + LeadingText(stream[..n - 1])| <= MaxTextLength)
    decreases |stream|
  {
    if stream == [] || IsEndChunk(stream[0]) {
      assert stream[..0] == [];
    } else {
      var t := text + stream[0].content.value;
      TakeOneMore(stream, 0);
      assert stream[1..][..0] == [] && stream[..0] == [];
      if |t| > MaxTextLength {
        assert (t + InterruptMarker)[..|t + InterruptMarker| - |InterruptMarker|] == t;
      } else {
        ReadStreamCut(stream[1..], t);
        var m := ChunksRead(stream[1..], t);
        TakeOneMore(stream, m);
        if ReadStream(stream[1..], t).capped {
          TakeOneMore(stream, m - 1);
        }
      }
    }
  }

  /** Reading that was not cut short stopped at an end chunk or at the end of
      the stream, and no chunk it took is an end chunk. */
  lemma {:induction false} ReadStreamStopsAt(stream: seq<Chunk>, text: string)
    ensures var n := ChunksRead(stream, text);
      && (forall k :: 0 <= k < n ==> !IsEndChunk(stream[k]))
      && (!ReadStream(stream, text).capped ==> n == |stream| || IsEndChunk(stream[n]))
    decreases |stream|
  {
    if stream != [] && !IsEndChunk(stream[0]) {
      var t := text + stream[0].content.value;
      if |t| <= MaxTextLength {
        ReadStreamStopsAt(stream[1..], t);
        var n := ChunksRead(stream, text);
        forall k | 0 < k < n ensures !IsEndChunk(stream[k]) {
          assert stream[k] == stream[1..][k - 1];
        }
      }
    }
  }

  /** A reply is empty exactly when the stream ends before any chunk with text. */
  lemma EmptyReply(stream: seq<Chunk>)
    ensures ReadStream(stream, "").text == "" <==> stream == [] || IsEndChunk(stream[0])
  {
    if stream != [] && !IsEndChunk(stream[0]) {
      var t := stream[0].content.value;
      if |t| <= MaxTextLength {
        assert t == "" + stream[0].content.value;
        ReadStreamMeaning(stream[1..], t);
        var r := ReadStream(stream[1..], t);
        if r.capped {
          assert |r.text| >= |InterruptMarker|;
        } else {
          assert |r.text| >= |t| > 0;
        }
      }
    }
  }

  // ---------------------------------------------------------------------
  // One turn and the whole episode

  /** One turn: read the reply, record it, then stop, take the first tagged
      span as the answer, or ask for more. */
  function TakeTurn(messages: seq<Message>, chat: seq<Message> -> seq<Chunk>): (Outcome, seq<Message>)
  {
    var r := ReadStream(chat(messages), "");
    var ms := messages + [AssistantEntry(r.text, [])];
    if r.text == "" then (Idle, ms)
    else
      var found := AnswerTags.Matches(r.text);
      if |found| > 0 then (Answered(found[0]), ms) else (Unfinished, ms + [UserEntry(ContinueNotice)])
  }

  /** At most `turns` turns, stopping at the first idle or answered one. */
  function Episode(turns: nat, messages: seq<Message>, chat: seq<Message> -> seq<Chunk>): (Outcome, seq<Message>)
    decreases turns
  {
    if turns == 0 then (Unfinished, messages)
    else
      var (o, ms) := TakeTurn(messages, chat);
      if o.Unfinished? then Episode(turns - 1, ms, chat) else (o, ms)
  }

  function Seed(task: Game24.Task): seq<Message>
  {
    [SystemEntry(Instructions), UserEntry(Game24.GetPrompt(task))]
  }

  function RunSpec(task: Game24.Task, maxIter: int, chat: seq<Message> -> seq<Chunk>): (string, seq<Message>)
  {
    var (o, ms) := Episode(if maxIter > 0 then maxIter else 0, Seed(task), chat);
    (AnswerOf(o), ms)
  }

  /** Every turn records its reply, even an empty one, as one assistant entry
      without tool calls.  An empty reply ends the loop; otherwise the loop
      ends exactly when the reply holds a tagged span, with the first one as
      the answer, and goes on after one request for more. */
  lemma TurnMeaning(messages: seq<Message>, chat: seq<Message> -> seq<Chunk>)
    ensures var r := ReadStream(chat(messages), "");
      var (o, ms) := TakeTurn(messages, chat);
      var found := AnswerTags.Matches(r.text);
      && |ms| > |messages|
      && ms[..|messages| + 1] == messages + [AssistantEntry(r.text, [])]
      && (o.Idle? <==> r.text == "")
      && (r.text != "" ==> (o.Answered? <==> found != []))
      && (o.Answered? ==> found != [] && o.answer == found[0])
      && (o.Unfinished? ==> ms == messages + [AssistantEntry(r.text, []), UserEntry(ContinueNotice)])
      && (!o.Unfinished? ==> |ms| == |messages| + 1)
  {
  }

  /** A turn adds exactly one reply. */
  lemma TurnAddsOneReply(messages: seq<Message>, chat: seq<Message> -> seq<Chunk>)
    ensures AssistantCount(TakeTurn(messages, chat).1) == AssistantCount(messages) + 1
  {
    var r := ReadStream(chat(messages), "");
    var first := messages + [AssistantEntry(r.text, [])];
    AssistantCountAppend(messages, [AssistantEntry(r.text, [])]);
    AssistantCountAppend(first, [UserEntry(ContinueNotice)]);
  }

  /** A turn keeps the transcript it started from, adds one reply, and adds
      the request for more exactly when the loop goes on. */
  lemma TurnExtends(messages: seq<Message>, chat: seq<Message> -> seq<Chunk>)
    ensures var e := TakeTurn(messages, chat);
      && |messages| < |e.1| && e.1[..|messages|] == messages
      && AssistantCount(e.1) == AssistantCount(messages) + 1
      && |e.1| == |messages| + (if e.0.Unfinished? then 2 else 1)
  {
    var ms := TakeTurn(messages, chat).1;
    TurnMeaning(messages, chat);
    TurnAddsOneReply(messages, chat);
    assert ms[..|messages|] == ms[..|messages| + 1][..|messages|];
  }

  /** An episode without turns leaves the transcript as it was. */
  lemma NoTurns(messages: seq<Message>, chat: seq<Message> -> seq<Chunk>)
    ensures Episode(0, messages, chat) == (Unfinished, messages)
  {
  }

  /** Over an episode the transcript only grows, and it holds at most `turns`
      more replies than before. */
  lemma {:induction false} EpisodeExtends(turns: nat, messages: seq<Message>, chat: seq<Message> -> seq<Chunk>)
    ensures var e := Episode(turns, messages, chat);
      && |messages| <= |e.1| && e.1[..|messages|] == messages
      && AssistantCount(e.1) <= AssistantCount(messages) + turns
    decreases turns
  {
    if turns > 0 {
      var e1 := TakeTurn(messages, chat);
      TurnExtends(messages, chat);
      if e1.0.Unfinished? {
        EpisodeExtends(turns - 1, e1.1, chat);
        var ms := Episode(turns - 1, e1.1, chat).1;
        assert ms[..|messages|] == ms[..|e1.1|][..|messages|];
      }
    } else {
      NoTurns(messages, chat);
    }
  }

  /** An episode that takes `taken` turns adds one reply per turn and one
      request for more after each turn but an ending one; an episode that
      ran out of turns took them all. */
  lemma {:induction false} EpisodeTurns(turns: nat, messages: seq<Message>, chat: seq<Message> -> seq<Chunk>)
    returns (taken: nat)
    ensures var e := Episode(turns, messages, chat);
      && taken <= turns
      && AssistantCount(e.1) == AssistantCount(messages) + taken
      && (e.0.Unfinished? ==> taken == turns && |e.1| == |messages| + 2 * taken)
      && (!e.0.Unfinished? ==> 0 < taken && |e.1| == |messages| + 2 * taken - 1)
    decreases turns
  {
    if turns == 0 {
      NoTurns(messages, chat);
      taken := 0;
    } else {
      var e1 := TakeTurn(messages, chat);
      TurnExtends(messages, chat);
      if e1.0.Unfinished? {
        var rest := EpisodeTurns(turns - 1, e1.1, chat);
        assert Episode(turns, messages, chat) == Episode(turns - 1, e1.1, chat);
        taken := rest + 1;
      } else {
        assert Episode(turns, messages, chat) == e1;
        taken := 1;
      }
    }
  }

  /** The answer a transcript shows: the first tagged span of its final entry,
      when that entry is a reply that holds one. */
  function ShownAnswer(ms: seq<Message>): string
    requires ms != []
  {
    var last := ms[|ms| - 1];
    var found := AnswerTags.Matches(last.content);
    if last.AssistantEntry? && found != [] then found[0] else NoAnswer
  }

  /** An episode that took a turn ends with that turn's result: the
      transcript `before` is the one its last turn started from. */
  lemma {:induction false} LastTurn(turns: nat, messages: seq<Message>, chat: seq<Message> -> seq<Chunk>)
    returns (before: seq<Message>)
    requires turns > 0
    ensures Episode(turns, messages, chat) == TakeTurn(before, chat)
    decreases turns
  {
    var e := TakeTurn(messages, chat);
    if e.0.Unfinished? && turns > 1 {
      before := LastTurn(turns - 1, e.1, chat);
      assert Episode(turns, messages, chat) == Episode(turns - 1, e.1, chat);
    } else {
      before := messages;
      if e.0.Unfinished? {
        NoTurns(e.1, chat);
      }
    }
  }

  /** A turn reports the answer its transcript shows: the first tagged span
      of the reply that ended the loop, and none when the loop goes on, as
      then a request for more comes last. */
  lemma TurnAnswer(messages: seq<Message>, chat: seq<Message> -> seq<Chunk>)
    ensures var e := TakeTurn(messages, chat);
      e.1 != [] && AnswerOf(e.0) == ShownAnswer(e.1)
  {
    var r := ReadStream(chat(messages), "");
    var ms := messages + [AssistantEntry(r.text, [])];
    assert ms[|ms| - 1] == AssistantEntry(r.text, []);
    if r.text == "" {
      assert AnswerTags.Spans("") == [];
    }
  }

  /** The answer an episode reports is exactly the one its transcript shows,
      provided the transcript it started from showed none. */
  lemma EpisodeAnswer(turns: nat, messages: seq<Message>, chat: seq<Message> -> seq<Chunk>)
    requires messages != [] && ShownAnswer(messages) == NoAnswer
    ensures var e := Episode(turns, messages, chat);
      e.1 != [] && AnswerOf(e.0) == ShownAnswer(e.1)
  {
    if turns > 0 {
      var before := LastTurn(turns, messages, chat);
      TurnAnswer(before, chat);
    } else {
      NoTurns(messages, chat);
    }
  }

  /** A run from a transcript that holds no reply yet: the final transcript
      extends it, holds one reply per turn taken, at most `budget`, and the
      answer is the one the transcript shows. */
  lemma RunFromMeaning(budget: nat, seed: seq<Message>, chat: seq<Message> -> seq<Chunk>)
    requires seed != [] && ShownAnswer(seed) == NoAnswer && AssistantCount(seed) == 0
    ensures var e := Episode(budget, seed, chat);
      && |seed| <= |e.1| && e.1[..|seed|] == seed
      && AssistantCount(e.1) <= budget
      && AnswerOf(e.0) == ShownAnswer(e.1)
  {
    EpisodeExtends(budget, seed, chat);
    EpisodeAnswer(budget, seed, chat);
  }

  /** A run's transcript starts with the system prompt and the task prompt,
      holds one reply per turn taken, at most `maxIter`, and the answer is
      the one the transcript shows. */
  lemma RunMeaning(task: Game24.Task, maxIter: int, chat: seq<Message> -> seq<Chunk>)
    ensures var r := RunSpec(task, maxIter, chat);
      && |r.1| >= 2
      && r.1[..2] == [SystemEntry(Instructions), UserEntry(Game24.GetPrompt(task))]
      && AssistantCount(r.1) <= (if maxIter > 0 then maxIter else 0)
      && r.0 == ShownAnswer(r.1)
  {
    var seed := Seed(task);
    assert AssistantCount(seed) == 0 by {
      assert seed[..1] == [SystemEntry(Instructions)];
      assert seed[..1][..0] == [];
    }
    RunFromMeaning(if maxIter > 0 then maxIter else 0, seed, chat);
  }

  /** A first reply that is exactly `<answer>24</answer>` ends the run at once
      with the answer "24". */
  lemma ImmediateAnswer(task: Game24.Task, maxIter: int, chat: seq<Message> -> seq<Chunk>)
    requires maxIter >= 1
    requires chat(Seed(task)) == [Chunk(Some("<answer>24</answer>"), [])]
    ensures RunSpec(task, maxIter, chat) == ("24", Seed(task) + [AssistantEntry("<answer>24</answer>", [])])
  {
    var stream := [Chunk(Some("<answer>24</answer>"), [])];
    assert stream[1..] == [];
    assert ReadStream(stream, "") == Reading("<answer>24</answer>", false);
    AnswerTags.TwentyFourAnswer();
  }

  /** A turn whose reply comes in one chunk of text within the cap. */
  lemma SingleChunkTurn(messages: seq<Message>, chat: seq<Message> -> seq<Chunk>, reply: string)
    requires reply != "" && |reply| <= MaxTextLength
    requires chat(messages) == [Chunk(Some(reply), [])]
    ensures var found := AnswerTags.Matches(reply);
      TakeTurn(messages, chat) ==
        if found != [] then (Answered(found[0]), messages + [AssistantEntry(reply, [])])
        else (Unfinished, messages + [AssistantEntry(reply, []), UserEntry(ContinueNotice)])
  {
    var stream := [Chunk(Some(reply), [])];
    assert stream[1..] == [];
    assert "" + reply == reply;
    assert ReadStream(stream, "") == Reading(reply, false);
    assert messages + [AssistantEntry(reply, [])] + [UserEntry(ContinueNotice)] ==
      messages + [AssistantEntry(reply, []), UserEntry(ContinueNotice)];
  }

  /** A reply without tags is followed by a request for more, and the next
      turn sees the transcript with both. */
  lemma AskForMore(task: Game24.Task, maxIter: int, chat: seq<Message> -> seq<Chunk>, thought: string)
    requires maxIter >= 2
    requires thought != "" && |thought| <= MaxTextLength && AnswerTags.Matches(thought) == []
    requires chat(Seed(task)) == [Chunk(Some(thought), [])]
    requires chat(Seed(task) + [AssistantEntry(thought, []), UserEntry(ContinueNotice)]) == [Chunk(Some("<answer>24</answer>"), [])]
    ensures RunSpec(task, maxIter, chat) ==
      ("24", Seed(task) + [AssistantEntry(thought, []), UserEntry(ContinueNotice), AssistantEntry("<answer>24</answer>", [])])
  {
    var seed := Seed(task);
    var next := seed + [AssistantEntry(thought, []), UserEntry(ContinueNotice)];
    SingleChunkTurn(seed, chat, thought);
    AnswerTags.TwentyFourAnswer();
    SingleChunkTurn(next, chat, "<answer>24</answer>");
    assert Episode(maxIter - 1, next, chat) == (Answered("24"), next + [AssistantEntry("<answer>24</answer>", [])]);
    assert Episode(maxIter, seed, chat) == Episode(maxIter - 1, next, chat);
    assert next + [AssistantEntry("<answer>24</answer>", [])] ==
      seed + [AssistantEntry(thought, []), UserEntry(ContinueNotice), AssistantEntry("<answer>24</answer>", [])];
  }

  /** One pass of the reasoning loop's body. */
  method Turn(messages: seq<Message>, chat: seq<Message> -> seq<Chunk>) returns (o: Outcome, after: seq<Message>)
    ensures (o, after) == TakeTurn(messages, chat)
  {
    var text := ReadTurn(chat(messages));
    after := messages + [AssistantEntry(text, [])];
    if text == "" {
      return Idle, after;
    }
    var found := AnswerTags.Matches(text);
    if |found| > 0 {
      return Answered(found[0]), after;
    }
    after := after + [UserEntry(ContinueNotice)];
    o := Unfinished;
  }

  /** The reasoning loop, from the transcript it starts with. */
  method Loop(seed: seq<Message>, maxIter: int, chat: seq<Message> -> seq<Chunk>)
    returns (answer: string, messages: seq<Message>)
    ensures var e := Episode(if maxIter > 0 then maxIter else 0, seed, chat);
      answer == AnswerOf(e.0) && messages == e.1
  {
    answer := NoAnswer;
    messages := seed;
    ghost var budget: nat := if maxIter > 0 then maxIter else 0;
    ghost var goal := Episode(budget, messages, chat);
    var i := 0;
    while i < maxIter
      invariant 0 <= i <= budget
      invariant Episode(budget - i, messages, chat) == goal
      invariant answer == NoAnswer
    {
      var o, after := Turn(messages, chat);
      messages := after;
      if !o.Unfinished? {
        answer := AnswerOf(o);
        break;
      }
      i := i + 1;
    }
  }

  /** The reasoning loop over a new transcript for the task. */
  method Run(task: Game24.Task, maxIter: int, chat: seq<Message> -> seq<Chunk>)
    returns (answer: string, messages: seq<Message>)
    ensures (answer, messages) == RunSpec(task, maxIter, chat)
  {
    answer, messages := Loop(Seed(task), maxIter, chat);
  }
}
