/** The tool-using agent loop: each turn it streams a reply from the model,
    records it, and then stops on an empty reply, stops on a tagged answer,
    or runs the requested tool calls and feeds their results back.  After the
    loop it fetches the problem-space map once more for the record.

    The model is the oracle `chat` (the chunks it streams for a given
    transcript) and the tool host is the oracle `callTool` (what a call
    returns, given the transcript at the time of the call).  The transcript
    grows by at least one entry before every call to either, so no two calls
    see the same argument and any behaviour of the model or the host over one
    episode is some choice of these two functions. */
module Iterative {
  import opened Text
  import opened Transcript
  import AnswerTags
  import Game24

  /** Reading stops once the reply text is longer than this ... */
  const MaxTextLength: nat := 32000
  /** ... or more tool calls than this have been collected. */
  const MaxToolCalls: nat := 100

  const FailureNotice: string := "one of tool calls failed"
  const UnparsableResult: string := "cannot parse tool response: "
  const InsightTool: string := "problem_space_get_insight"
  const InsightCall: ToolCall := ToolCall(InsightTool, "{}")

  /** The system prompt that opens every transcript. */
  const Instructions: string := @"INSTRUCTIONS:
* You are professional in reasoning step by step through available tools. You continue reasoning using your previous analysis.
* Your reasoning contain ONLY tool calls, no other text.
* You heavily rely on available tools, your EVERY step should contain tool calls.
* You heavily rely on your global progress, available in tools.
* Before solving a problem you form strict success criteria and complete set of constraints and save it using tools.
* Before giving answer you always verify it against criteria using tools.
* ALWAYS wrap your final answer with tags <answer>YOUR ANSWER</answer>. Tags should contain answer formatted as expected in the task, don't add reasoning between tags.
* Do NOT call the same tool multiple times with the same arguments.
* When the tool provides a result use it to answer the question, do not ignore the result.
"

  // ---------------------------------------------------------------------
  // Reading one streamed reply

  /** How reading a reply stopped: the stream ran out, a chunk with neither
      text nor tool calls ended it, or a cap cut it short. */
  datatype StreamEnd = Drained | EndChunk | Capped

  datatype Reading = Reading(text: string, calls: seq<ToolCall>, end: StreamEnd)

  predicate IsEndChunk(part: Chunk)
  {
    part.content.None? && part.toolCalls == []
  }

  function TextOf(part: Chunk): string
  {
    if part.content.Some? then part.content.value else ""
  }

  /** The reply read from `stream`, given what was read before it. */
  function ReadStream(stream: seq<Chunk>, text: string, calls: seq<ToolCall>): Reading
    decreases |stream|
  {
    if stream == [] then Reading(text, calls, Drained)
    else if IsEndChunk(stream[0]) then Reading(text, calls, EndChunk)
    else
      var t := text + TextOf(stream[0]);
      var c := calls + stream[0].toolCalls;
      if |t| > MaxTextLength || |c| > MaxToolCalls then Reading(t + InterruptMarker, c, Capped)
      else ReadStream(stream[1..], t, c)
  }

  function AllText(stream: seq<Chunk>): string
  {
    if stream == [] then "" else TextOf(stream[0]) + AllText(stream[1..])
  }

  function AllCalls(stream: seq<Chunk>): seq<ToolCall>
  {
    if stream == [] then [] else stream[0].toolCalls + AllCalls(stream[1..])
  }

  /** The text without the marker a cap appends. */
  function Body(r: Reading): string
  {
    if r.end == Capped && |r.text| >= |InterruptMarker| then r.text[..|r.text| - |InterruptMarker|] else r.text
  }

  /** The pull loop over one reply's chunks. */
  method ReadTurn(stream: seq<Chunk>) returns (text: string, calls: seq<ToolCall>)
    ensures text == ReadStream(stream, "", []).text
    ensures calls == ReadStream(stream, "", []).calls
  {
    text, calls := "", [];
    var i := 0;
    while i < |stream|
      invariant 0 <= i <= |stream|
      invariant ReadStream(stream[i..], text, calls) == ReadStream(stream, "", [])
    {
      var part := stream[i];
      assert stream[i..][0] == part && stream[i..][1..] == stream[i + 1..];
      if part.content.None? && part.toolCalls == [] {
        break;
      }
      text := text + TextOf(part);
      if part.toolCalls != [] {
        calls := calls + part.toolCalls;
      } else {
        assert calls + part.toolCalls == calls;
      }
      if |text| > MaxTextLength || |calls| > MaxToolCalls {
        text := text + InterruptMarker;
        break;
      }
      i := i + 1;
    }
  }

  /** The first `m + 1` chunks are the first one and the next `m`. */
  lemma TakeOneMore(stream: seq<Chunk>, m: nat)
    requires m < |stream|
    ensures AllText(stream[..m + 1]) == TextOf(stream[0]) + AllText(stream[1..][..m])
    ensures AllCalls(stream[..m + 1]) == stream[0].toolCalls + AllCalls(stream[1..][..m])
  {
    assert stream[..m + 1][0] == stream[0];
    assert stream[..m + 1][1..] == stream[1..][..m];
  }

  /** How many chunks reading takes: those before the first end chunk, or up
      to the one that passes a cap. */
  function ChunksRead(stream: seq<Chunk>, text: string, calls: seq<ToolCall>): (n: nat)
    ensures n <= |stream|
    decreases |stream|
  {
    if stream == [] || IsEndChunk(stream[0]) then 0
    else
      var t := text + TextOf(stream[0]);
      var c := calls + stream[0].toolCalls;
      if |t| > MaxTextLength || |c| > MaxToolCalls then 1 else 1 + ChunksRead(stream[1..], t, c)
  }

  /** None of the chunks read is an end chunk; reading that was not cut short
      stopped at an end chunk or at the end of the stream. */
  lemma {:induction false} ReadStreamTakes(stream: seq<Chunk>, text: string, calls: seq<ToolCall>)
    ensures var n := ChunksRead(stream, text, calls);
      && (forall k :: 0 <= k < n ==> !IsEndChunk(stream[k]))
      && (ReadStream(stream, text, calls).end == Drained ==> n == |stream|)
      && (ReadStream(stream, text, calls).end == EndChunk ==> n < |stream| && IsEndChunk(stream[n]))
    decreases |stream|
  {
    if stream != [] && !IsEndChunk(stream[0]) {
      var t := text + TextOf(stream[0]);
      var c := calls + stream[0].toolCalls;
      if !(|t| > MaxTextLength || |c| > MaxToolCalls) {
        ReadStreamTakes(stream[1..], t, c);
        var n := ChunksRead(stream, text, calls);
        forall k | 0 < k < n ensures !IsEndChunk(stream[k]) {
          assert stream[k] == stream[1..][k - 1];
        }
      }
    }
  }

  /** Dropping the marker a cap appended gives back the text read. */
  lemma DropMarker(t: string)
    ensures Body(Reading(t + InterruptMarker, [], Capped)) == t
  {
    assert (t + InterruptMarker)[..|t + InterruptMarker| - |InterruptMarker|] == t;
  }

  /** The reply's text, without the marker a cap appends, is the text of the
      chunks read, joined in order. */
  lemma {:induction false} ReadStreamText(stream: seq<Chunk>, text: string, calls: seq<ToolCall>)
    ensures Body(ReadStream(stream, text, calls)) == text + AllText(stream[..ChunksRead(stream, text, calls)])
    decreases |stream|
  {
    if stream == [] || IsEndChunk(stream[0]) {
      assert stream[..0] == [];
    } else {
      var t := text + TextOf(stream[0]);
      var c := calls + stream[0].toolCalls;
      if |t| > MaxTextLength || |c| > MaxToolCalls {
        TakeOneMore(stream, 0);
        assert stream[1..][..0] == [];
        DropMarker(t);
      } else {
        ReadStreamText(stream[1..], t, c);
        TakeOneMore(stream, ChunksRead(stream[1..], t, c));
      }
    }
  }

  /** The reply's tool calls are those of the chunks read, in order. */
  lemma {:induction false} ReadStreamCalls(stream: seq<Chunk>, text: string, calls: seq<ToolCall>)
    ensures ReadStream(stream, text, calls).calls == calls + AllCalls(stream[..ChunksRead(stream, text, calls)])
    decreases |stream|
  {
    if stream == [] || IsEndChunk(stream[0]) {
      assert stream[..0] == [];
    } else {
      var t := text + TextOf(stream[0]);
      var c := calls + stream[0].toolCalls;
      if |t| > MaxTextLength || |c| > MaxToolCalls {
        TakeOneMore(stream, 0);
        assert stream[1..][..0] == [];
      } else {
        ReadStreamCalls(stream[1..], t, c);
        TakeOneMore(stream, ChunksRead(stream[1..], t, c));
      }
    }
  }

  /** A reply is cut short exactly when a cap is passed, and then it ends with
      the marker; a reply read in full stays within both caps. */
  lemma {:induction false} ReadStreamCaps(stream: seq<Chunk>, text: string, calls: seq<ToolCall>)
    requires |text| <= MaxTextLength && |calls| <= MaxToolCalls
    ensures var r := ReadStream(stream, text, calls);
      && (r.end == Capped ==> r.text == Body(r) + InterruptMarker)
      && (r.end == Capped <==> |Body(r)| > MaxTextLength || |r.calls| > MaxToolCalls)
    decreases |stream|
  {
    if stream != [] && !IsEndChunk(stream[0]) {
      var t := text + TextOf(stream[0]);
      var c := calls + stream[0].toolCalls;
      if |t| > MaxTextLength || |c| > MaxToolCalls {
        assert (t + InterruptMarker)[..|t + InterruptMarker| - |InterruptMarker|] == t;
      } else {
        ReadStreamCaps(stream[1..], t, c);
      }
    }
  }

  /** Once reading has stopped, the chunks after are never looked at. */
  lemma {:induction false} ReadStreamStops(s1: seq<Chunk>, s2: seq<Chunk>, text: string, calls: seq<ToolCall>)
    requires ReadStream(s1, text, calls).end != Drained
    ensures ReadStream(s1 + s2, text, calls) == ReadStream(s1, text, calls)
    decreases |s1|
  {
    assert s1 != [];
    assert (s1 + s2)[0] == s1[0];
    if !IsEndChunk(s1[0]) {
      var t := text + TextOf(s1[0]);
      var c := calls + s1[0].toolCalls;
      if !(|t| > MaxTextLength || |c| > MaxToolCalls) {
        assert (s1 + s2)[1..] == s1[1..] + s2;
        ReadStreamStops(s1[1..], s2, t, c);
      }
    }
  }

  // ---------------------------------------------------------------------
  // Running the tool calls of one turn

  predicate Fails(o: ToolOutcome)
  {
    o.NonTextResult? || o.Raised?
  }

  /** The tool entry recording a call's outcome; a failure is written as the
      tool name, a colon and the error text. */
  function ToolReply(call: ToolCall, o: ToolOutcome): Message
  {
    match o
    case TextResult(t) => ToolEntry(t, call.name)
    case EmptyResult => ToolEntry("", call.name)
    case NonTextResult(shown) => ToolEntry(call.name + ": " + UnparsableResult + shown, call.name)
    case Raised(e) => ToolEntry(call.name + ": " + e, call.name)
  }

  /** The calls run in order, each seeing the transcript as it stands. */
  function Dispatch(messages: seq<Message>, calls: seq<ToolCall>,
                    callTool: (seq<Message>, ToolCall) -> ToolOutcome, failed: bool): (r: (seq<Message>, bool))
    ensures |r.0| == |messages| + |calls|
    decreases |calls|
  {
    if calls == [] then (messages, failed)
    else
      var o := callTool(messages, calls[0]);
      Dispatch(messages + [ToolReply(calls[0], o)], calls[1..], callTool, failed || Fails(o))
  }

  /** The tool-dispatch loop of one turn. */
  method DispatchTools(messages: seq<Message>, calls: seq<ToolCall>,
                       callTool: (seq<Message>, ToolCall) -> ToolOutcome)
    returns (result: seq<Message>, anyFailed: bool)
    ensures (result, anyFailed) == Dispatch(messages, calls, callTool, false)
  {
    result, anyFailed := messages, false;
    var i := 0;
    while i < |calls|
      invariant 0 <= i <= |calls|
      invariant Dispatch(result, calls[i..], callTool, anyFailed) == Dispatch(messages, calls, callTool, false)
    {
      assert calls[i..][0] == calls[i] && calls[i..][1..] == calls[i + 1..];
      var output := callTool(result, calls[i]);
      if Fails(output) {
        anyFailed := true;
      }
      result := result + [ToolReply(calls[i], output)];
      i := i + 1;
    }
  }

  /** A dispatch keeps the transcript it started from as a prefix. */
  lemma {:induction false} DispatchPrefix(messages: seq<Message>, calls: seq<ToolCall>,
                                          callTool: (seq<Message>, ToolCall) -> ToolOutcome, failed: bool)
    ensures Dispatch(messages, calls, callTool, failed).0[..|messages|] == messages
    decreases |calls|
  {
    if calls != [] {
      var o := callTool(messages, calls[0]);
      var next := messages + [ToolReply(calls[0], o)];
      DispatchPrefix(next, calls[1..], callTool, failed || Fails(o));
      var ms := Dispatch(messages, calls, callTool, failed).0;
      assert ms[..|messages|] == ms[..|next|][..|messages|];
    }
  }

  /** Every call adds exactly one tool entry, in the order received, made from
      what the host answered with the transcript as it stood then; a failure
      never stops the later calls. */
  lemma {:induction false} DispatchEntries(messages: seq<Message>, calls: seq<ToolCall>,
                                           callTool: (seq<Message>, ToolCall) -> ToolOutcome, failed: bool)
    ensures var ms := Dispatch(messages, calls, callTool, failed).0;
      forall k :: 0 <= k < |calls| ==>
        ms[|messages| + k] == ToolReply(calls[k], callTool(ms[..|messages| + k], calls[k]))
    decreases |calls|
  {
    if calls != [] {
      var o := callTool(messages, calls[0]);
      var next := messages + [ToolReply(calls[0], o)];
      DispatchEntries(next, calls[1..], callTool, failed || Fails(o));
      DispatchPrefix(next, calls[1..], callTool, failed || Fails(o));
      var ms := Dispatch(messages, calls, callTool, failed).0;
      assert ms == Dispatch(next, calls[1..], callTool, failed || Fails(o)).0;
      var pre := ms[..|next|];
      assert pre == next;
      assert ms[..|messages|] == messages by {
        assert ms[..|messages|] == pre[..|messages|];
      }
      assert ms[|messages|] == ToolReply(calls[0], o) by {
        assert ms[|messages|] == pre[|messages|];
      }
      forall k | 0 <= k < |calls|
        ensures ms[|messages| + k] == ToolReply(calls[k], callTool(ms[..|messages| + k], calls[k]))
      {
        if k > 0 {
          assert calls[1..][k - 1] == calls[k];
          assert |next| + (k - 1) == |messages| + k;
        }
      }
    }
  }

  /** A dispatch of at least one call ends with a tool entry. */
  lemma {:induction false} DispatchEndsWithTool(messages: seq<Message>, calls: seq<ToolCall>,
                                                callTool: (seq<Message>, ToolCall) -> ToolOutcome, failed: bool)
    requires calls != []
    ensures var ms := Dispatch(messages, calls, callTool, failed).0;
      ms[|ms| - 1].ToolEntry?
    decreases |calls|
  {
    var o := callTool(messages, calls[0]);
    var next := messages + [ToolReply(calls[0], o)];
    if |calls| > 1 {
      DispatchEndsWithTool(next, calls[1..], callTool, failed || Fails(o));
    } else {
      assert calls[1..] == [];
    }
  }

  /** Some call of a dispatch whose first call saw `start` entries failed. */
  predicate SomeCallFailed(ms: seq<Message>, start: nat, calls: seq<ToolCall>,
                           callTool: (seq<Message>, ToolCall) -> ToolOutcome)
    requires start + |calls| <= |ms|
  {
    exists k :: 0 <= k < |calls| && Fails(callTool(ms[..start + k], calls[k]))
  }

  /** The flag a dispatch returns tells whether some call failed. */
  lemma {:induction false} DispatchFailed(messages: seq<Message>, calls: seq<ToolCall>,
                                          callTool: (seq<Message>, ToolCall) -> ToolOutcome, failed: bool)
    ensures var ms := Dispatch(messages, calls, callTool, failed).0;
      Dispatch(messages, calls, callTool, failed).1 <==> failed || SomeCallFailed(ms, |messages|, calls, callTool)
    decreases |calls|
  {
    if calls != [] {
      var o := callTool(messages, calls[0]);
      var next := messages + [ToolReply(calls[0], o)];
      DispatchFailed(next, calls[1..], callTool, failed || Fails(o));
      DispatchPrefix(next, calls[1..], callTool, failed || Fails(o));
      var ms := Dispatch(messages, calls, callTool, failed).0;
      assert ms == Dispatch(next, calls[1..], callTool, failed || Fails(o)).0;
      assert ms[..|messages|] == messages by {
        assert ms[..|messages|] == ms[..|next|][..|messages|];
      }
      forall k | 1 <= k < |calls|
        ensures Fails(callTool(ms[..|messages| + k], calls[k])) ==
                Fails(callTool(ms[..|next| + (k - 1)], calls[1..][k - 1]))
      {
        assert calls[1..][k - 1] == calls[k];
      }
    }
  }

  /** The tool part of a turn: every call is run, and a notice follows when
      one of them failed. */
  function RunTools(ms: seq<Message>, calls: seq<ToolCall>,
                    callTool: (seq<Message>, ToolCall) -> ToolOutcome): seq<Message>
  {
    var (after, failed) := Dispatch(ms, calls, callTool, false);
    if failed then after + [UserEntry(FailureNotice)] else after
  }

  /** Entries appended after the tool entries change neither them nor the
      transcripts their calls saw. */
  lemma AppendKeepsToolEntries(ms: seq<Message>, extra: seq<Message>, start: nat, calls: seq<ToolCall>,
                               callTool: (seq<Message>, ToolCall) -> ToolOutcome)
    requires start + |calls| <= |ms|
    requires forall k :: 0 <= k < |calls| ==>
      ms[start + k] == ToolReply(calls[k], callTool(ms[..start + k], calls[k]))
    ensures (ms + extra)[..|ms|] == ms
    ensures forall k :: 0 <= k < |calls| ==>
      (ms + extra)[start + k] == ToolReply(calls[k], callTool((ms + extra)[..start + k], calls[k]))
    ensures SomeCallFailed(ms + extra, start, calls, callTool) == SomeCallFailed(ms, start, calls, callTool)
  {
    forall k | 0 <= k < |calls|
      ensures (ms + extra)[start + k] == ToolReply(calls[k], callTool((ms + extra)[..start + k], calls[k]))
      ensures Fails(callTool((ms + extra)[..start + k], calls[k])) == Fails(callTool(ms[..start + k], calls[k]))
    {
      assert (ms + extra)[..start + k] == ms[..start + k];
    }
  }

  /** After the transcript come exactly one tool entry per call, in order,
      each made from what the host answered to the transcript as it stood. */
  lemma RunToolsEntries(first: seq<Message>, calls: seq<ToolCall>,
                        callTool: (seq<Message>, ToolCall) -> ToolOutcome)
    ensures var ms := RunTools(first, calls, callTool);
      var start := |first|;
      && start + |calls| <= |ms|
      && ms[..start] == first
      && (forall k :: 0 <= k < |calls| ==>
            ms[start + k] == ToolReply(calls[k], callTool(ms[..start + k], calls[k])))
  {
    var after := Dispatch(first, calls, callTool, false).0;
    DispatchPrefix(first, calls, callTool, false);
    DispatchEntries(first, calls, callTool, false);
    AppendKeepsToolEntries(after, [UserEntry(FailureNotice)], |first|, calls, callTool);
  }

  /** The failure notice follows the tool entries exactly when some call
      failed. */
  lemma RunToolsNotice(first: seq<Message>, calls: seq<ToolCall>,
                       callTool: (seq<Message>, ToolCall) -> ToolOutcome)
    ensures var ms := RunTools(first, calls, callTool);
      var start := |first|;
      && start + |calls| <= |ms|
      && |ms| == start + |calls| + (if SomeCallFailed(ms, start, calls, callTool) then 1 else 0)
      && (SomeCallFailed(ms, start, calls, callTool) ==> ms[|ms| - 1] == UserEntry(FailureNotice))
  {
    var (after, f) := Dispatch(first, calls, callTool, false);
    DispatchEntries(first, calls, callTool, false);
    DispatchFailed(first, calls, callTool, false);
    AppendKeepsToolEntries(after, [UserEntry(FailureNotice)], |first|, calls, callTool);
  }

  /** Appending an entry that is not a reply leaves the reply count alone. */
  lemma AppendNonReply(ms: seq<Message>, entry: Message)
    requires !entry.AssistantEntry?
    ensures AssistantCount(ms + [entry]) == AssistantCount(ms)
  {
    assert (ms + [entry])[..|ms|] == ms;
  }

  /** Tool entries are not replies. */
  lemma {:induction false} DispatchAddsNoReply(messages: seq<Message>, calls: seq<ToolCall>,
                                               callTool: (seq<Message>, ToolCall) -> ToolOutcome, failed: bool)
    ensures AssistantCount(Dispatch(messages, calls, callTool, failed).0) == AssistantCount(messages)
    decreases |calls|
  {
    if calls != [] {
      var o := callTool(messages, calls[0]);
      AppendNonReply(messages, ToolReply(calls[0], o));
      DispatchAddsNoReply(messages + [ToolReply(calls[0], o)], calls[1..], callTool, failed || Fails(o));
    }
  }

  /** The tool entries and the notice are not replies. */
  lemma RunToolsAddNoReply(first: seq<Message>, calls: seq<ToolCall>,
                           callTool: (seq<Message>, ToolCall) -> ToolOutcome)
    ensures AssistantCount(RunTools(first, calls, callTool)) == AssistantCount(first)
  {
    var after := Dispatch(first, calls, callTool, false).0;
    DispatchAddsNoReply(first, calls, callTool, false);
    AppendNonReply(after, UserEntry(FailureNotice));
  }

  /** Running at least one call never leaves a reply last. */
  lemma RunToolsEndsWithoutReply(first: seq<Message>, calls: seq<ToolCall>,
                                 callTool: (seq<Message>, ToolCall) -> ToolOutcome)
    requires calls != []
    ensures var ms := RunTools(first, calls, callTool);
      ms != [] && !ms[|ms| - 1].AssistantEntry?
  {
    DispatchEndsWithTool(first, calls, callTool, false);
  }

  // ---------------------------------------------------------------------
  // One turn and the whole episode

  /** One turn: read the reply, record it, then stop, extract the answer, or
      run the tool calls.  Answer tags are looked for only in a turn without
      tool calls, and the last tagged span is the answer. */
  function TakeTurn(messages: seq<Message>, chat: seq<Message> -> seq<Chunk>,
                    callTool: (seq<Message>, ToolCall) -> ToolOutcome): (Outcome, seq<Message>)
  {
    var r := ReadStream(chat(messages), "", []);
    var ms := messages + [AssistantEntry(r.text, r.calls)];
    if r.text == "" && r.calls == [] then (Idle, ms)
    else if r.calls == [] then
      var found := AnswerTags.Matches(r.text);
      if |found| > 0 then (Answered(found[|found| - 1]), ms) else (Unfinished, ms)
    else (Unfinished, RunTools(ms, r.calls, callTool))
  }

  /** At most `turns` turns, stopping at the first idle or answered one. */
  function Episode(turns: nat, messages: seq<Message>, chat: seq<Message> -> seq<Chunk>,
                   callTool: (seq<Message>, ToolCall) -> ToolOutcome): (Outcome, seq<Message>)
    decreases turns
  {
    if turns == 0 then (Unfinished, messages)
    else
      var (o, ms) := TakeTurn(messages, chat, callTool);
      if o.Unfinished? then Episode(turns - 1, ms, chat, callTool) else (o, ms)
  }

  function Seed(task: Game24.Task): seq<Message>
  {
    [SystemEntry(Instructions), UserEntry(Game24.GetPrompt(task))]
  }

  /** What a run returns: the answer and the transcript, or the error raised
      by the final, unguarded map request. */
  datatype RunResult = Finished(answer: string, messages: seq<Message>) | Crashed(error: string)

  /** The map request after the loop, and what the run returns: the answer
      and the transcript with the map added, or the error the request
      raised. */
  function Conclude(o: Outcome, ms: seq<Message>,
                    callTool: (seq<Message>, ToolCall) -> ToolOutcome): RunResult
  {
    match callTool(ms, InsightCall)
    case TextResult(t) => Finished(AnswerOf(o), ms + [ToolEntry(t, InsightTool)])
    case EmptyResult => Finished(AnswerOf(o), ms + [ToolEntry("", InsightTool)])
    case NonTextResult(shown) => Crashed(UnparsableResult + shown)
    case Raised(e) => Crashed(e)
  }

  function RunSpec(task: Game24.Task, maxIter: int,
                   chat: seq<Message> -> seq<Chunk>,
                   callTool: (seq<Message>, ToolCall) -> ToolOutcome): RunResult
  {
    var (o, ms) := Episode(if maxIter > 0 then maxIter else 0, Seed(task), chat, callTool);
    Conclude(o, ms, callTool)
  }

  /** Every turn records the reply as one assistant entry, even an empty one.
      An empty reply ends the loop.  A turn with tool calls never ends it and
      its answer tags are not looked at; a turn without tool calls adds
      nothing else and ends the loop exactly when its text holds a tagged
      span, with the last span as the answer. */
  lemma TurnMeaning(messages: seq<Message>, chat: seq<Message> -> seq<Chunk>,
                    callTool: (seq<Message>, ToolCall) -> ToolOutcome)
    ensures var r := ReadStream(chat(messages), "", []);
      var (o, ms) := TakeTurn(messages, chat, callTool);
      && |ms| > |messages|
      && ms[..|messages| + 1] == messages + [AssistantEntry(r.text, r.calls)]
      && (o.Idle? <==> r.text == "" && r.calls == [])
      && (r.calls != [] ==> o.Unfinished?)
      && (r.calls == [] ==> |ms| == |messages| + 1)
      && (r.calls == [] && r.text != "" ==>
            (o.Answered? <==> AnswerTags.Matches(r.text) != []))
      && (o.Answered? ==> var found := AnswerTags.Matches(r.text);
            r.calls == [] && found != [] && o.answer == found[|found| - 1])
  {
    var r := ReadStream(chat(messages), "", []);
    var first := messages + [AssistantEntry(r.text, r.calls)];
    if r.calls != [] {
      RunToolsEntries(first, r.calls, callTool);
    }
  }

  /** The tool part of a turn: after the reply come exactly one tool entry per
      call, in order, each made from what the host answered to the transcript
      as it stood, and then the failure notice exactly when some call failed. */
  lemma TurnWithToolCalls(messages: seq<Message>, chat: seq<Message> -> seq<Chunk>,
                          callTool: (seq<Message>, ToolCall) -> ToolOutcome)
    requires ReadStream(chat(messages), "", []).calls != []
    ensures var r := ReadStream(chat(messages), "", []);
      var start := |messages| + 1;
      var ms := TakeTurn(messages, chat, callTool).1;
      && start + |r.calls| <= |ms|
      && (forall k :: 0 <= k < |r.calls| ==>
            ms[start + k] == ToolReply(r.calls[k], callTool(ms[..start + k], r.calls[k])))
      && |ms| == start + |r.calls| + (if SomeCallFailed(ms, start, r.calls, callTool) then 1 else 0)
      && (SomeCallFailed(ms, start, r.calls, callTool) ==> ms[|ms| - 1] == UserEntry(FailureNotice))
  {
    var r := ReadStream(chat(messages), "", []);
    RunToolsEntries(messages + [AssistantEntry(r.text, r.calls)], r.calls, callTool);
    RunToolsNotice(messages + [AssistantEntry(r.text, r.calls)], r.calls, callTool);
  }

  lemma {:induction false} NoAssistantEntries(ms: seq<Message>)
    requires forall k :: 0 <= k < |ms| ==> !ms[k].AssistantEntry?
    ensures AssistantCount(ms) == 0
    decreases |ms|
  {
    if ms != [] {
      NoAssistantEntries(ms[..|ms| - 1]);
    }
  }

  /** A turn adds exactly one reply: the tool entries and the notice after it
      are not replies. */
  lemma TurnAddsOneReply(messages: seq<Message>, chat: seq<Message> -> seq<Chunk>,
                         callTool: (seq<Message>, ToolCall) -> ToolOutcome)
    ensures AssistantCount(TakeTurn(messages, chat, callTool).1) == AssistantCount(messages) + 1
  {
    var r := ReadStream(chat(messages), "", []);
    var first := messages + [AssistantEntry(r.text, r.calls)];
    AssistantCountAppend(messages, [AssistantEntry(r.text, r.calls)]);
    assert AssistantCount([AssistantEntry(r.text, r.calls)]) == 1 by {
      assert [AssistantEntry(r.text, r.calls)][..0] == [];
    }
    if r.calls != [] {
      RunToolsAddNoReply(first, r.calls, callTool);
    }
  }

  /** A turn keeps the transcript it started from and adds one reply. */
  lemma TurnExtends(messages: seq<Message>, chat: seq<Message> -> seq<Chunk>,
                    callTool: (seq<Message>, ToolCall) -> ToolOutcome)
    ensures var ms := TakeTurn(messages, chat, callTool).1;
      && |messages| < |ms| && ms[..|messages|] == messages
      && AssistantCount(ms) == AssistantCount(messages) + 1
  {
    var ms := TakeTurn(messages, chat, callTool).1;
    TurnMeaning(messages, chat, callTool);
    TurnAddsOneReply(messages, chat, callTool);
    assert ms[..|messages|] == ms[..|messages| + 1][..|messages|];
  }

  /** Over an episode the transcript only grows, and it holds at most `turns`
      more replies than before; an episode that ended early took a turn. */
  lemma {:induction false} EpisodeExtends(turns: nat, messages: seq<Message>, chat: seq<Message> -> seq<Chunk>,
                                          callTool: (seq<Message>, ToolCall) -> ToolOutcome)
    ensures var e := Episode(turns, messages, chat, callTool);
      && |messages| <= |e.1| && e.1[..|messages|] == messages
      && AssistantCount(e.1) <= AssistantCount(messages) + turns
      && (!e.0.Unfinished? ==> |messages| < |e.1|)
    decreases turns
  {
    if turns > 0 {
      var e1 := TakeTurn(messages, chat, callTool);
      TurnExtends(messages, chat, callTool);
      if e1.0.Unfinished? {
        EpisodeExtends(turns - 1, e1.1, chat, callTool);
        var ms := Episode(turns - 1, e1.1, chat, callTool).1;
        assert ms[..|messages|] == ms[..|e1.1|][..|messages|];
      }
    } else {
      NoTurns(messages, chat, callTool);
    }
  }

  function Last(xs: seq<string>): string
    requires xs != []
  {
    xs[|xs| - 1]
  }

  /** An episode without turns leaves the transcript as it was. */
  lemma NoTurns(messages: seq<Message>, chat: seq<Message> -> seq<Chunk>,
                callTool: (seq<Message>, ToolCall) -> ToolOutcome)
    ensures Episode(0, messages, chat, callTool) == (Unfinished, messages)
  {
  }

  /** How an ending turn leaves the transcript: an answer is the last tagged
      span of the final reply, which made no tool calls, and an idle end is
      an empty final reply. */
  predicate ShowsOutcome(o: Outcome, ms: seq<Message>)
  {
    && (!o.Unfinished? ==> |ms| > 0)
    && (o.Answered? ==>
          && |ms| > 0
          && ms[|ms| - 1].AssistantEntry?
          && ms[|ms| - 1].toolCalls == []
          && AnswerTags.Matches(ms[|ms| - 1].content) != []
          && o.answer == Last(AnswerTags.Matches(ms[|ms| - 1].content)))
    && (o.Idle? ==> |ms| > 0 && ms[|ms| - 1] == AssistantEntry("", []))
  }

  /** A turn that ends the loop shows why in the reply it records. */
  lemma TurnOutcome(messages: seq<Message>, chat: seq<Message> -> seq<Chunk>,
                    callTool: (seq<Message>, ToolCall) -> ToolOutcome)
    ensures var (o, ms) := TakeTurn(messages, chat, callTool);
      ShowsOutcome(o, ms)
  {
    var r := ReadStream(chat(messages), "", []);
    var ms := messages + [AssistantEntry(r.text, r.calls)];
    assert ms[|ms| - 1] == AssistantEntry(r.text, r.calls);
  }

  /** An episode that took a turn ends with that turn's result: the
      transcript `before` is the one its last turn started from. */
  lemma {:induction false} LastTurn(turns: nat, messages: seq<Message>, chat: seq<Message> -> seq<Chunk>,
                                    callTool: (seq<Message>, ToolCall) -> ToolOutcome)
    returns (before: seq<Message>)
    requires turns > 0
    ensures Episode(turns, messages, chat, callTool) == TakeTurn(before, chat, callTool)
    decreases turns
  {
    var e := TakeTurn(messages, chat, callTool);
    if e.0.Unfinished? && turns > 1 {
      before := LastTurn(turns - 1, e.1, chat, callTool);
      assert Episode(turns, messages, chat, callTool) == Episode(turns - 1, e.1, chat, callTool);
    } else {
      before := messages;
      if e.0.Unfinished? {
        NoTurns(e.1, chat, callTool);
      }
    }
  }

  /** An episode's outcome is read off its last entry. */
  lemma EpisodeOutcome(turns: nat, messages: seq<Message>, chat: seq<Message> -> seq<Chunk>,
                       callTool: (seq<Message>, ToolCall) -> ToolOutcome)
    ensures var e := Episode(turns, messages, chat, callTool);
      ShowsOutcome(e.0, e.1)
  {
    if turns > 0 {
      var before := LastTurn(turns, messages, chat, callTool);
      TurnOutcome(before, chat, callTool);
    } else {
      NoTurns(messages, chat, callTool);
    }
  }

  /** The answer a transcript shows: the last tagged span of its final entry,
      when that entry is a reply without tool calls that holds one. */
  function ShownAnswer(ms: seq<Message>): string
    requires ms != []
  {
    var last := ms[|ms| - 1];
    var found := AnswerTags.Matches(last.content);
    if last.AssistantEntry? && last.toolCalls == [] && found != [] then found[|found| - 1] else NoAnswer
  }

  /** A turn that lets the loop go on leaves a transcript showing no answer. */
  lemma UnfinishedTurnShowsNoAnswer(messages: seq<Message>, chat: seq<Message> -> seq<Chunk>,
                                    callTool: (seq<Message>, ToolCall) -> ToolOutcome)
    requires TakeTurn(messages, chat, callTool).0.Unfinished?
    ensures ShownAnswer(TakeTurn(messages, chat, callTool).1) == NoAnswer
  {
    var r := ReadStream(chat(messages), "", []);
    if r.calls != [] {
      RunToolsEndsWithoutReply(messages + [AssistantEntry(r.text, r.calls)], r.calls, callTool);
    }
  }

  /** An ending outcome reports the answer its transcript shows: an empty
      reply holds no tagged span. */
  lemma OutcomeIsShown(o: Outcome, ms: seq<Message>)
    requires !o.Unfinished? && ShowsOutcome(o, ms)
    ensures ms != [] && AnswerOf(o) == ShownAnswer(ms)
  {
    if o.Idle? {
      assert AnswerTags.Spans("") == [];
    }
  }

  /** The answer an episode reports is exactly the one its transcript shows,
      provided the transcript it started from showed none. */
  lemma EpisodeAnswer(turns: nat, messages: seq<Message>, chat: seq<Message> -> seq<Chunk>,
                      callTool: (seq<Message>, ToolCall) -> ToolOutcome)
    requires messages != [] && ShownAnswer(messages) == NoAnswer
    ensures var e := Episode(turns, messages, chat, callTool);
      e.1 != [] && AnswerOf(e.0) == ShownAnswer(e.1)
  {
    if turns > 0 {
      var before := LastTurn(turns, messages, chat, callTool);
      var e := TakeTurn(before, chat, callTool);
      TurnMeaning(before, chat, callTool);
      if e.0.Unfinished? {
        UnfinishedTurnShowsNoAnswer(before, chat, callTool);
      } else {
        TurnOutcome(before, chat, callTool);
        OutcomeIsShown(e.0, e.1);
      }
    } else {
      NoTurns(messages, chat, callTool);
    }
  }

  /** The map request after the loop fails exactly when the host's answer
      counts as a failure; otherwise it adds one tool entry, not a reply, and
      reports the loop's answer. */
  lemma ConcludeMeaning(o: Outcome, ms: seq<Message>,
                        callTool: (seq<Message>, ToolCall) -> ToolOutcome)
    ensures var r := Conclude(o, ms, callTool);
      && (r.Crashed? <==> Fails(callTool(ms, InsightCall)))
      && (r.Finished? ==>
            && |r.messages| == |ms| + 1
            && r.messages[..|ms|] == ms
            && r.messages[|ms|].ToolEntry?
            && r.messages[|ms|].name == InsightTool
            && AssistantCount(r.messages) == AssistantCount(ms)
            && r.answer == AnswerOf(o))
  {
    var r := Conclude(o, ms, callTool);
    if r.Finished? {
      var entry := r.messages[|ms|];
      assert r.messages == ms + [entry];
      AssistantCountAppend(ms, [entry]);
      assert AssistantCount([entry]) == AssistantCount([entry][..0]);
    }
  }

  /** A run from a transcript that holds no reply yet: the final transcript
      extends it, holds at most `budget` replies, and ends with the map
      fetched after the loop; the answer is the one the transcript before
      that fetch shows.  The run fails only when that final fetch does. */
  lemma RunFromMeaning(budget: nat, seed: seq<Message>,
                       chat: seq<Message> -> seq<Chunk>,
                       callTool: (seq<Message>, ToolCall) -> ToolOutcome)
    requires seed != [] && ShownAnswer(seed) == NoAnswer && AssistantCount(seed) == 0
    ensures var (o, loopEnd) := Episode(budget, seed, chat, callTool);
      var r := Conclude(o, loopEnd, callTool);
      && |seed| <= |loopEnd| && loopEnd[..|seed|] == seed
      && (r.Crashed? <==> Fails(callTool(loopEnd, InsightCall)))
      && (r.Finished? ==>
            && |r.messages| == |loopEnd| + 1
            && r.messages[..|seed|] == seed
            && r.messages[..|loopEnd|] == loopEnd
            && r.messages[|loopEnd|].ToolEntry?
            && r.messages[|loopEnd|].name == InsightTool
            && AssistantCount(r.messages) <= budget
            && r.answer == ShownAnswer(loopEnd))
  {
    var (o, ms) := Episode(budget, seed, chat, callTool);
    EpisodeExtends(budget, seed, chat, callTool);
    EpisodeAnswer(budget, seed, chat, callTool);
    ConcludeMeaning(o, ms, callTool);
    var r := Conclude(o, ms, callTool);
    if r.Finished? {
      assert r.messages[..|seed|] == r.messages[..|ms|][..|seed|];
    }
  }

  /** A run's transcript starts with the system prompt and the task prompt,
      holds at most `maxIter` replies, and ends with the map fetched after
      the loop; the answer is the one the transcript before that fetch
      shows.  The run fails only when that final fetch does. */
  lemma RunMeaning(task: Game24.Task, maxIter: int,
                   chat: seq<Message> -> seq<Chunk>,
                   callTool: (seq<Message>, ToolCall) -> ToolOutcome)
    ensures var r := RunSpec(task, maxIter, chat, callTool);
      var loopEnd := Episode(if maxIter > 0 then maxIter else 0, Seed(task), chat, callTool).1;
      && |loopEnd| >= 2 && loopEnd[..2] == Seed(task)
      && (r.Crashed? <==> Fails(callTool(loopEnd, InsightCall)))
      && (r.Finished? ==>
            && |r.messages| == |loopEnd| + 1
            && r.messages[..2] == Seed(task)
            && r.messages[..|loopEnd|] == loopEnd
            && r.messages[|loopEnd|].ToolEntry?
            && r.messages[|loopEnd|].name == InsightTool
            && AssistantCount(r.messages) <= (if maxIter > 0 then maxIter else 0)
            && r.answer == ShownAnswer(loopEnd))
  {
    var seed := Seed(task);
    assert AssistantCount(seed) == 0 by {
      NoAssistantEntries(seed);
    }
    RunFromMeaning(if maxIter > 0 then maxIter else 0, seed, chat, callTool);
  }

  /** A reply that is exactly `<answer>24</answer>`, in one chunk, ends the
      loop with the answer "24" and adds nothing but itself. */
  lemma AnswerTurn(messages: seq<Message>, chat: seq<Message> -> seq<Chunk>,
                   callTool: (seq<Message>, ToolCall) -> ToolOutcome)
    requires chat(messages) == [Chunk(Some("<answer>24</answer>"), [])]
    ensures TakeTurn(messages, chat, callTool) ==
      (Answered("24"), messages + [AssistantEntry("<answer>24</answer>", [])])
  {
    var stream := [Chunk(Some("<answer>24</answer>"), [])];
    assert stream[1..] == [];
    assert ReadStream(stream, "", []) == Reading("<answer>24</answer>", [], Drained);
    AnswerTags.TwentyFourAnswer();
  }

  /** A first reply that is exactly `<answer>24</answer>` ends the run at once
      with the answer "24", whatever the turn budget. */
  lemma ImmediateAnswer(task: Game24.Task, maxIter: int,
                        chat: seq<Message> -> seq<Chunk>,
                        callTool: (seq<Message>, ToolCall) -> ToolOutcome, insight: string)
    requires maxIter >= 1
    requires chat(Seed(task)) == [Chunk(Some("<answer>24</answer>"), [])]
    requires callTool(Seed(task) + [AssistantEntry("<answer>24</answer>", [])], InsightCall) == TextResult(insight)
    ensures RunSpec(task, maxIter, chat, callTool) ==
      Finished("24", Seed(task) + [AssistantEntry("<answer>24</answer>", []), ToolEntry(insight, InsightTool)])
  {
    var seed := Seed(task);
    AnswerTurn(seed, chat, callTool);
    var ms := seed + [AssistantEntry("<answer>24</answer>", [])];
    assert Episode(maxIter, seed, chat, callTool) == (Answered("24"), ms);
    assert ms + [ToolEntry(insight, InsightTool)] ==
      seed + [AssistantEntry("<answer>24</answer>", []), ToolEntry(insight, InsightTool)];
  }

  /** A first reply with nothing in it ends the run at once without an
      answer; the empty reply is still recorded. */
  lemma SilentModel(task: Game24.Task, maxIter: int,
                    chat: seq<Message> -> seq<Chunk>,
                    callTool: (seq<Message>, ToolCall) -> ToolOutcome, insight: string)
    requires maxIter >= 1
    requires chat(Seed(task)) == [Chunk(None, [])]
    requires callTool(Seed(task) + [AssistantEntry("", [])], InsightCall) == TextResult(insight)
    ensures RunSpec(task, maxIter, chat, callTool) ==
      Finished(NoAnswer, Seed(task) + [AssistantEntry("", []), ToolEntry(insight, InsightTool)])
  {
    assert ReadStream(chat(Seed(task)), "", []) == Reading("", [], EndChunk);
  }

  /** One pass of the agent loop's body. */
  method Turn(messages: seq<Message>, chat: seq<Message> -> seq<Chunk>,
              callTool: (seq<Message>, ToolCall) -> ToolOutcome) returns (o: Outcome, after: seq<Message>)
    ensures (o, after) == TakeTurn(messages, chat, callTool)
  {
    var text, calls := ReadTurn(chat(messages));
    after := messages + [AssistantEntry(text, calls)];
    if text == "" && calls == [] {
      return Idle, after;
    }
    if calls == [] {
      var found := AnswerTags.Matches(text);
      if |found| > 0 {
        return Answered(found[|found| - 1]), after;
      }
      return Unfinished, after;
    }
    var anyFailed;
    after, anyFailed := DispatchTools(after, calls, callTool);
    if anyFailed {
      after := after + [UserEntry(FailureNotice)];
    }
    o := Unfinished;
  }

  /** The agent loop. */
  method Run(task: Game24.Task, maxIter: int,
             chat: seq<Message> -> seq<Chunk>,
             callTool: (seq<Message>, ToolCall) -> ToolOutcome) returns (r: RunResult)
    ensures r == RunSpec(task, maxIter, chat, callTool)
  {
    var answer := NoAnswer;
    var messages := Seed(task);
    ghost var budget: nat := if maxIter > 0 then maxIter else 0;
    ghost var goal := Episode(budget, messages, chat, callTool);
    var i := 0;
    while i < maxIter
      invariant 0 <= i <= budget
      invariant Episode(budget - i, messages, chat, callTool) == goal
      invariant answer == NoAnswer
    {
      var o, after := Turn(messages, chat, callTool);
      messages := after;
      if !o.Unfinished? {
        answer := AnswerOf(o);
        break;
      }
      i := i + 1;
    }
    assert AnswerOf(goal.0) == answer && goal.1 == messages;
    var output := callTool(messages, InsightCall);
    match output
    case TextResult(t) =>
      r := Finished(answer, messages + [ToolEntry(t, InsightTool)]);
    case EmptyResult =>
      r := Finished(answer, messages + [ToolEntry("", InsightTool)]);
    case NonTextResult(shown) =>
      r := Crashed(UnparsableResult + shown);
    case Raised(e) =>
      r := Crashed(e);
  }
}
