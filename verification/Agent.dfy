/**
 The agent loop: ask the provider, run the tools its message calls, append both to the transcript,
 and stop at an answer, an error of the provider or the step limit.  The provider and the tools are
 arbitrary: what they return may differ from call to call.
 */
module Agent {

  import opened Wrappers

  datatype Role = System | User | Assistant | Tool

  datatype ToolCall = ToolCall(id: string, name: string, arguments: string)

  datatype Message = Message(role: Role, content: string, toolCalls: seq<ToolCall>, toolCallId: string)

  datatype Response = Response(message: Message, finish: string) {
    predicate IsFinal() {
      finish == "stop" || message.toolCalls == []
    }
  }

  /** The provider's answer to its n-th request of a run; None is an error. */
  type Provider = (nat, seq<Message>) -> Option<Response>

  /** A tool; its result may depend on when it runs, given as the length of the transcript. */
  datatype ToolImpl = ToolImpl(name: string, execute: (nat, string) -> Result<string, string>)

  datatype Status = Idle | Running | Finished | Failed

  datatype RunResult =
    | Answer(content: string, steps: nat)
    | ProviderError
    | MaxStepsExceeded(limit: int)

  // ---------- one tool call ----------

  /** What a call shows the model, looking from tool `i` on. */
  function Observation(tools: seq<ToolImpl>, i: nat, at: nat, name: string, arguments: string): string
    requires i <= |tools|
    decreases |tools| - i
  {
    if i == |tools| then "tool not found: " + name
    else if tools[i].name == name then
      match tools[i].execute(at, arguments)
      case Ok(result) => result
      case Err(error) => "error: " + error
    else Observation(tools, i + 1, at, name, arguments)
  }

  /** The first tool of that name runs; the others do not matter. */
  lemma {:induction false} FirstToolRuns(tools: seq<ToolImpl>, i: nat, k: nat, at: nat, name: string, arguments: string)
    requires i <= k <= |tools|
    requires forall j | i <= j < k :: tools[j].name != name
    requires k < |tools| ==> tools[k].name == name
    ensures Observation(tools, i, at, name, arguments) ==
            if k == |tools| then "tool not found: " + name
            else match tools[k].execute(at, arguments)
                 case Ok(result) => result
                 case Err(error) => "error: " + error
    decreases k - i
  {
    if i < k {
      FirstToolRuns(tools, i + 1, k, at, name, arguments);
    }
  }

  /** The tool messages for the first `k` calls; the transcript before them has `at` messages. */
  function Answers(tools: seq<ToolImpl>, at: nat, calls: seq<ToolCall>, k: nat): (r: seq<Message>)
    requires k <= |calls|
    ensures |r| == k
  {
    if k == 0 then []
    else
      var call := calls[k - 1];
      Answers(tools, at, calls, k - 1)
      + [Message(Tool, Observation(tools, 0, at + k - 1, call.name, call.arguments), [], call.id)]
  }

  // ---------- the loop ----------

  /** The transcript, the number of the provider's messages and the result at the end of a run. */
  datatype Outcome = Outcome(messages: seq<Message>, steps: nat, result: RunResult)

  /** The transcript after a response that is not final and its tool calls. */
  function Extend(tools: seq<ToolImpl>, messages: seq<Message>, message: Message): seq<Message> {
    messages + [message] + Answers(tools, |messages| + 1, message.toolCalls, |message.toolCalls|)
  }

  /** The rest of a run from request `step` on. */
  function Go(tools: seq<ToolImpl>, chat: Provider, limit: int, step: nat, messages: seq<Message>): Outcome
    decreases limit - step
  {
    if step >= limit then Outcome(messages, step, MaxStepsExceeded(limit))
    else
      match chat(step, messages)
      case None => Outcome(messages, step, ProviderError)
      case Some(response) =>
        if response.IsFinal() then
          Outcome(messages + [response.message], step + 1, Answer(response.message.content, step + 1))
        else Go(tools, chat, limit, step + 1, Extend(tools, messages, response.message))
  }

  /** The transcripts sent from request `step` on. */
  function Requests(tools: seq<ToolImpl>, chat: Provider, limit: int, step: nat, messages: seq<Message>)
    : seq<seq<Message>>
    decreases limit - step
  {
    if step >= limit then []
    else
      match chat(step, messages)
      case None => [messages]
      case Some(response) =>
        if response.IsFinal() then [messages]
        else [messages] + Requests(tools, chat, limit, step + 1, Extend(tools, messages, response.message))
  }

  function Limit(maxSteps: int): int {
    if maxSteps == 0 then 10 else maxSteps
  }

  function Head(systemPrompt: string, input: string): seq<Message> {
    [Message(System, systemPrompt, [], ""), Message(User, input, [], "")]
  }

  // ---------- what chat APIs demand of a transcript ----------

  function Ids(calls: seq<ToolCall>): (r: seq<string>)
    ensures |r| == |calls|
  {
    if calls == [] then [] else [calls[0].id] + Ids(calls[1..])
  }

  /** One message more: the IDs still to be answered, or None when the message may not stand there. */
  function Advance(open: Option<seq<string>>, message: Message): Option<seq<string>> {
    match open
    case None => None
    case Some(ids) =>
      if message.role == Tool then
        if ids != [] && ids[0] == message.toolCallId then Some(ids[1..]) else None
      else if ids == [] then Some(Ids(message.toolCalls))
      else None
  }

  /**
   The grammar of transcripts: a tool message answers the next open call, any other message comes
   only when no call is open.  The result is the IDs of the calls left open.
   */
  function Open(messages: seq<Message>): Option<seq<string>> {
    if messages == [] then Some([])
    else Advance(Open(messages[..|messages| - 1]), messages[|messages| - 1])
  }

  lemma OpenAppend(messages: seq<Message>, message: Message)
    ensures Open(messages + [message]) == Advance(Open(messages), message)
  {
    assert (messages + [message])[..|messages|] == messages;
  }

  lemma HeadIsComplete(systemPrompt: string, input: string)
    ensures Open(Head(systemPrompt, input)) == Some([])
  {
    var head := Head(systemPrompt, input);
    OpenAppend([], head[0]);
    assert head[..1] == [] + [head[0]];
    OpenAppend(head[..1], head[1]);
    assert head == head[..1] + [head[1]];
  }

  /** The IDs of the calls from `k` on. */
  lemma {:induction false} IdsFrom(calls: seq<ToolCall>, k: nat)
    requires k < |calls|
    ensures Ids(calls)[k..] == [calls[k].id] + Ids(calls)[k + 1..]
  {
    if k > 0 {
      IdsFrom(calls[1..], k - 1);
      assert Ids(calls)[k..] == Ids(calls[1..])[k - 1..];
      assert Ids(calls)[k + 1..] == Ids(calls[1..])[k..];
    }
  }

  lemma AnswerCloses(messages: seq<Message>, calls: seq<ToolCall>, k: nat, message: Message)
    requires k < |calls| && Open(messages) == Some(Ids(calls)[k..])
    requires message.role == Tool && message.toolCallId == calls[k].id
    ensures Open(messages + [message]) == Some(Ids(calls)[k + 1..])
  {
    OpenAppend(messages, message);
    IdsFrom(calls, k);
  }

  lemma {:induction false} AnswersClose(tools: seq<ToolImpl>, at: nat, calls: seq<ToolCall>, k: nat, before: seq<Message>)
    requires k <= |calls| && Open(before) == Some(Ids(calls))
    ensures Open(before + Answers(tools, at, calls, k)) == Some(Ids(calls)[k..])
  {
    if k == 0 {
      assert before + [] == before;
    } else {
      AnswersClose(tools, at, calls, k - 1, before);
      var last := AnswersSnoc(tools, at, calls, k, before);
      AnswerCloses(before + Answers(tools, at, calls, k - 1), calls, k - 1, last);
    }
  }

  /** The last answer comes after the others. */
  lemma AnswersSnoc(tools: seq<ToolImpl>, at: nat, calls: seq<ToolCall>, k: nat, before: seq<Message>) returns (last: Message)
    requires 0 < k <= |calls|
    ensures before + Answers(tools, at, calls, k) == (before + Answers(tools, at, calls, k - 1)) + [last]
    ensures last.role == Tool && last.toolCallId == calls[k - 1].id
  {
    last := Answers(tools, at, calls, k)[k - 1];
    assert Answers(tools, at, calls, k) == Answers(tools, at, calls, k - 1) + [last];
  }

  /** A message of the assistant with an answer to each of its calls keeps a transcript complete. */
  lemma ExtendIsComplete(tools: seq<ToolImpl>, messages: seq<Message>, message: Message)
    requires Open(messages) == Some([]) && message.role == Assistant
    ensures Open(Extend(tools, messages, message)) == Some([])
  {
    OpenAppend(messages, message);
    AnswersClose(tools, |messages| + 1, message.toolCalls, |message.toolCalls|, messages + [message]);
    assert Ids(message.toolCalls)[|message.toolCalls|..] == [];
  }

  /** The provider speaks as the assistant. */
  ghost predicate IsAssistant(chat: Provider) {
    forall n, messages :: chat(n, messages).Some? ==> chat(n, messages).value.message.role == Assistant
  }

  /** Every request of a run is complete, begins with the run's first messages and begins the final transcript. */
  lemma {:induction false} RequestsAreComplete(tools: seq<ToolImpl>, chat: Provider, limit: int, step: nat,
                                               messages: seq<Message>)
    requires IsAssistant(chat) && Open(messages) == Some([])
    ensures var all := Go(tools, chat, limit, step, messages).messages;
            && messages <= all
            && forall q <- Requests(tools, chat, limit, step, messages) ::
                 Open(q) == Some([]) && messages <= q && q <= all
    decreases limit - step
  {
    if step < limit && chat(step, messages).Some? && !chat(step, messages).value.IsFinal() {
      var message := chat(step, messages).value.message;
      ExtendIsComplete(tools, messages, message);
      RequestsAreComplete(tools, chat, limit, step + 1, Extend(tools, messages, message));
    }
  }

  /** The final transcript leaves calls open only when the run ended on a message that still calls tools. */
  lemma {:induction false} FinalTranscript(tools: seq<ToolImpl>, chat: Provider, limit: int, step: nat,
                                           messages: seq<Message>)
    requires IsAssistant(chat) && Open(messages) == Some([])
    ensures var end := Go(tools, chat, limit, step, messages);
            if end.result.Answer?
               then end.messages != [] && Open(end.messages) == Some(Ids(end.messages[|end.messages| - 1].toolCalls))
                    && end.messages[|end.messages| - 1].content == end.result.content
               else Open(end.messages) == Some([])
    decreases limit - step
  {
    if step < limit && chat(step, messages).Some? {
      var response := chat(step, messages).value;
      if response.IsFinal() {
        OpenAppend(messages, response.message);
      } else {
        ExtendIsComplete(tools, messages, response.message);
        FinalTranscript(tools, chat, limit, step + 1, Extend(tools, messages, response.message));
      }
    }
  }

  /** How often the provider is asked, and how the result and the number of its messages follow from that. */
  lemma {:induction false} StepsAreBounded(tools: seq<ToolImpl>, chat: Provider, limit: int, step: nat,
                                           messages: seq<Message>)
    requires step == 0 || step <= limit
    ensures var end, asked := Go(tools, chat, limit, step, messages), |Requests(tools, chat, limit, step, messages)|;
            && (if limit <= 0 then asked == 0 else step + asked <= limit)
            && end.steps == step + asked - (if end.result.ProviderError? then 1 else 0)
            && end.steps == step + |Replies(tools, chat, limit, step, messages)|
            && (end.result.Answer? ==> end.result.steps == end.steps)
            && (end.result.MaxStepsExceeded? ==> end.result.limit == limit && (limit > 0 ==> end.steps == limit))
    decreases limit - step
  {
    if step < limit && chat(step, messages).Some? && !chat(step, messages).value.IsFinal() {
      StepsAreBounded(tools, chat, limit, step + 1, Extend(tools, messages, chat(step, messages).value.message));
    }
  }

  // ---------- the provider's messages in the transcript ----------

  /** The assistant's messages, in order. */
  function Spoken(messages: seq<Message>): seq<Message> {
    if messages == [] then []
    else
      var n := |messages| - 1;
      Spoken(messages[..n]) + if messages[n].role == Assistant then [messages[n]] else []
  }

  /** The provider's messages from request `step` on. */
  function Replies(tools: seq<ToolImpl>, chat: Provider, limit: int, step: nat, messages: seq<Message>): seq<Message>
    decreases limit - step
  {
    if step >= limit || chat(step, messages).None? then []
    else
      var response := chat(step, messages).value;
      if response.IsFinal() then [response.message]
      else [response.message] + Replies(tools, chat, limit, step + 1, Extend(tools, messages, response.message))
  }

  lemma SpokenAppend(messages: seq<Message>, message: Message)
    ensures Spoken(messages + [message]) == Spoken(messages) + if message.role == Assistant then [message] else []
  {
    assert (messages + [message])[..|messages|] == messages;
  }

  lemma {:induction false} AnswersAreNotSpoken(tools: seq<ToolImpl>, at: nat, calls: seq<ToolCall>, k: nat,
                                               before: seq<Message>)
    requires k <= |calls|
    ensures Spoken(before + Answers(tools, at, calls, k)) == Spoken(before)
  {
    if k == 0 {
      assert before + [] == before;
    } else {
      AnswersAreNotSpoken(tools, at, calls, k - 1, before);
      var last := AnswersSnoc(tools, at, calls, k, before);
      SpokenAppend(before + Answers(tools, at, calls, k - 1), last);
      assert Spoken(before) + [] == Spoken(before);
    }
  }

  /** The transcript records the provider's messages, each once and in order, and no other assistant message. */
  lemma {:induction false} TranscriptRecordsReplies(tools: seq<ToolImpl>, chat: Provider, limit: int, step: nat,
                                                    messages: seq<Message>)
    requires IsAssistant(chat)
    ensures Spoken(Go(tools, chat, limit, step, messages).messages)
            == Spoken(messages) + Replies(tools, chat, limit, step, messages)
    decreases limit - step
  {
    if step < limit && chat(step, messages).Some? {
      var response := chat(step, messages).value;
      SpokenAppend(messages, response.message);
      if !response.IsFinal() {
        var calls, next := response.message.toolCalls, Extend(tools, messages, response.message);
        AnswersAreNotSpoken(tools, |messages| + 1, calls, |calls|, messages + [response.message]);
        TranscriptRecordsReplies(tools, chat, limit, step + 1, next);
      }
    }
  }

  /**
   A whole run, for any provider and tools: at most the limit of requests, each a complete transcript
   that begins the final one; the final transcript starts with the two messages, holds exactly the
   provider's messages as its assistant messages, and is complete unless it ends on a final message
   that still calls tools.
   */
  lemma EveryRun(systemPrompt: string, input: string, tools: seq<ToolImpl>, chat: Provider, maxSteps: int)
    requires IsAssistant(chat)
    ensures var head, limit := Head(systemPrompt, input), Limit(maxSteps);
            var end, requests := Go(tools, chat, limit, 0, head), Requests(tools, chat, limit, 0, head);
            && |requests| <= (if limit <= 0 then 0 else limit)
            && (forall q <- requests :: Open(q) == Some([]) && head <= q <= end.messages)
            && head <= end.messages
            && Spoken(end.messages) == Replies(tools, chat, limit, 0, head)
            && end.steps == |Spoken(end.messages)|
            && Open(end.messages) == Some(if end.result.Answer?
                                          then Ids(end.messages[|end.messages| - 1].toolCalls) else [])
  {
    HeadIsComplete(systemPrompt, input);
    HeadIsNotSpoken(systemPrompt, input);
    RunFrom(tools, chat, Limit(maxSteps), Head(systemPrompt, input));
  }

  lemma RunFrom(tools: seq<ToolImpl>, chat: Provider, limit: int, head: seq<Message>)
    requires IsAssistant(chat) && Open(head) == Some([]) && Spoken(head) == []
    ensures var end, requests := Go(tools, chat, limit, 0, head), Requests(tools, chat, limit, 0, head);
            && |requests| <= (if limit <= 0 then 0 else limit)
            && (forall q <- requests :: Open(q) == Some([]) && head <= q <= end.messages)
            && head <= end.messages
            && Spoken(end.messages) == Replies(tools, chat, limit, 0, head)
            && end.steps == |Spoken(end.messages)|
            && Open(end.messages) == Some(if end.result.Answer?
                                          then Ids(end.messages[|end.messages| - 1].toolCalls) else [])
  {
    RequestsAreComplete(tools, chat, limit, 0, head);
    OpenAtEnd(tools, chat, limit, head);
    Counts(tools, chat, limit, head);
  }

  lemma OpenAtEnd(tools: seq<ToolImpl>, chat: Provider, limit: int, head: seq<Message>)
    requires IsAssistant(chat) && Open(head) == Some([])
    ensures var end := Go(tools, chat, limit, 0, head);
            && (end.result.Answer? ==> end.messages != [])
            && Open(end.messages) == Some(if end.result.Answer?
                                             then Ids(end.messages[|end.messages| - 1].toolCalls) else [])
  {
    FinalTranscript(tools, chat, limit, 0, head);
  }

  lemma Counts(tools: seq<ToolImpl>, chat: Provider, limit: int, head: seq<Message>)
    requires IsAssistant(chat) && Spoken(head) == []
    ensures |Requests(tools, chat, limit, 0, head)| <= (if limit <= 0 then 0 else limit)
    ensures var end := Go(tools, chat, limit, 0, head);
            && Spoken(end.messages) == Replies(tools, chat, limit, 0, head)
            && end.steps == |Spoken(end.messages)|
  {
    StepsAreBounded(tools, chat, limit, 0, head);
    TranscriptRecordsReplies(tools, chat, limit, 0, head);
    var spoken := Replies(tools, chat, limit, 0, head);
    assert [] + spoken == spoken;
  }

  lemma HeadIsNotSpoken(systemPrompt: string, input: string)
    ensures Spoken(Head(systemPrompt, input)) == []
  {
    var head := Head(systemPrompt, input);
    SpokenAppend([], head[0]);
    SpokenAppend([head[0]], head[1]);
    assert [] + [head[0]] == [head[0]] && [head[0]] + [head[1]] == head;
  }

  // ---------- turn by turn ----------

  /** What the call shows the model: the first tool of that name decides. */
  ghost predicate Observed(tools: seq<ToolImpl>, at: nat, call: ToolCall, text: string) {
    && (forall i | 0 <= i < |tools| && IsFirst(tools, i, call.name) ::
          text == match tools[i].execute(at, call.arguments)
                  case Ok(result) => result
                  case Err(error) => "error: " + error)
    && ((forall i | 0 <= i < |tools| :: tools[i].name != call.name) ==> text == "tool not found: " + call.name)
  }

  predicate IsFirst(tools: seq<ToolImpl>, i: nat, name: string)
    requires i < |tools|
  {
    tools[i].name == name && forall j | 0 <= j < i :: tools[j].name != name
  }

  /** The transcript `after` is `before`, the message, and for each of its calls in order a tool message. */
  ghost predicate Answered(tools: seq<ToolImpl>, before: seq<Message>, message: Message, after: seq<Message>) {
    var n := |before| + 1;
    && |after| == n + |message.toolCalls| && before + [message] <= after
    && forall j | 0 <= j < |message.toolCalls| :: IsAnswer(tools, n + j, message.toolCalls[j], after[n + j])
  }

  /** The tool message `m`, at position `at`, answers the call. */
  ghost predicate IsAnswer(tools: seq<ToolImpl>, at: nat, call: ToolCall, m: Message) {
    m.role == Tool && m.toolCalls == [] && m.toolCallId == call.id && Observed(tools, at, call, m.content)
  }

  lemma {:induction false} AnswersAt(tools: seq<ToolImpl>, at: nat, calls: seq<ToolCall>, k: nat, j: nat)
    requires j < k <= |calls|
    ensures IsAnswer(tools, at + j, calls[j], Answers(tools, at, calls, k)[j])
  {
    if j < k - 1 {
      AnswersAt(tools, at, calls, k - 1, j);
    } else {
      ObservationIsObserved(tools, at + j, calls[j]);
    }
  }

  lemma ObservationIsObserved(tools: seq<ToolImpl>, at: nat, call: ToolCall)
    ensures Observed(tools, at, call, Observation(tools, 0, at, call.name, call.arguments))
  {
    forall i | 0 <= i < |tools| && IsFirst(tools, i, call.name)
      ensures Observation(tools, 0, at, call.name, call.arguments)
           == match tools[i].execute(at, call.arguments)
              case Ok(result) => result
              case Err(error) => "error: " + error
    {
      FirstToolRuns(tools, 0, i, at, call.name, call.arguments);
    }
    if forall i | 0 <= i < |tools| :: tools[i].name != call.name {
      FirstToolRuns(tools, 0, |tools|, at, call.name, call.arguments);
    }
  }

  lemma ExtendAnswers(tools: seq<ToolImpl>, messages: seq<Message>, message: Message)
    ensures Answered(tools, messages, message, Extend(tools, messages, message))
  {
    var calls, n := message.toolCalls, |messages| + 1;
    var answers := Answers(tools, n, calls, |calls|);
    forall j | 0 <= j < |calls| ensures IsAnswer(tools, n + j, calls[j], answers[j]) {
      AnswersAt(tools, n, calls, |calls|, j);
    }
    assert forall j | 0 <= j < |calls| :: (messages + [message] + answers)[n + j] == answers[j];
  }

  /** The response ends the run: it says so, or calls no tool. */
  predicate Ends(response: Response) {
    response.finish == "stop" || |response.message.toolCalls| == 0
  }

  /** One request of a run, what the provider made of it, and what that led to. */
  ghost predicate IsTurn(tools: seq<ToolImpl>, response: Option<Response>, request: seq<Message>,
                         next: Option<seq<Message>>, limit: int, end: Outcome) {
    match response
    case None => next.None? && end.messages == request && end.result == ProviderError
    case Some(r) =>
      if Ends(r) then
        && next.None? && end.messages == request + [r.message]
        && end.result.Answer? && end.result.content == r.message.content
      else
        match next
        case Some(following) => Answered(tools, request, r.message, following)
        case None => Answered(tools, request, r.message, end.messages) && end.result == MaxStepsExceeded(limit)
  }

  lemma {:induction false} TurnFrom(tools: seq<ToolImpl>, chat: Provider, limit: int, step: nat, messages: seq<Message>,
                                    k: nat)
    requires k < |Requests(tools, chat, limit, step, messages)|
    ensures var requests, end := Requests(tools, chat, limit, step, messages), Go(tools, chat, limit, step, messages);
            && requests[0] == messages
            && IsTurn(tools, chat(step + k, requests[k]), requests[k],
                      if k + 1 < |requests| then Some(requests[k + 1]) else None, limit, end)
    decreases limit - step
  {
    if chat(step, messages).Some? && !chat(step, messages).value.IsFinal() {
      var message := chat(step, messages).value.message;
      var next := Extend(tools, messages, message);
      ExtendAnswers(tools, messages, message);
      var later := Requests(tools, chat, limit, step + 1, next);
      assert Requests(tools, chat, limit, step, messages) == [messages] + later;
      if k > 0 {
        TurnFrom(tools, chat, limit, step + 1, next, k - 1);
      } else if later != [] {
        assert later[0] == next;
      }
    }
  }

  /**
   Every turn of every run: the first request is the system prompt and the input; a response that says
   "stop" or calls no tool is the answer and the last; any other is followed by one tool message per call,
   each showing what the first tool of that name returned, and by the next request, up to the limit.
   */
  lemma EveryTurn(systemPrompt: string, input: string, tools: seq<ToolImpl>, chat: Provider, maxSteps: int, k: nat)
    requires k < |Requests(tools, chat, Limit(maxSteps), 0, Head(systemPrompt, input))|
    ensures var limit, head := if maxSteps == 0 then 10 else maxSteps,
                               [Message(System, systemPrompt, [], ""), Message(User, input, [], "")];
            var requests, end := Requests(tools, chat, limit, 0, head), Go(tools, chat, limit, 0, head);
            && k < |requests| <= limit
            && requests[0] == head
            && IsTurn(tools, chat(k, requests[k]), requests[k],
                      if k + 1 < |requests| then Some(requests[k + 1]) else None, limit, end)
            && (end.result == MaxStepsExceeded(limit) ==> |requests| == limit)
  {
    var limit, head := Limit(maxSteps), Head(systemPrompt, input);
    TurnFrom(tools, chat, limit, 0, head, k);
    StepsAreBounded(tools, chat, limit, 0, head);
  }

  // ---------- the agent ----------

  class LiveAgent {
    const systemPrompt: string
    const maxSteps: int
    const tools: seq<ToolImpl>
    var status: Status
    var messages: seq<Message>
    var stepCount: nat

    constructor (systemPrompt: string, maxSteps: int, tools: seq<ToolImpl>)
      ensures this.systemPrompt == systemPrompt && this.maxSteps == maxSteps && this.tools == tools
      ensures status == Idle && messages == [] && stepCount == 0
    {
      this.systemPrompt, this.maxSteps, this.tools := systemPrompt, maxSteps, tools;
      status, messages, stepCount := Idle, [], 0;
    }

    method Run(input: string, chat: Provider) returns (r: RunResult)
      modifies this
      ensures var end := Go(tools, chat, Limit(maxSteps), 0, Head(systemPrompt, input));
              r == end.result && messages == end.messages && stepCount == old(stepCount) + end.steps
      ensures status == if r.Answer? then Finished else Failed
    {
      status := Running;
      messages := [Message(System, systemPrompt, [], "")];
      messages := messages + [Message(User, input, [], "")];
      ghost var head := messages;
      assert head == Head(systemPrompt, input);

      var limit := maxSteps;
      if limit == 0 {
        limit := 10;
      }
      var step := 0;
      while step < limit
        invariant 0 <= step
        invariant Go(tools, chat, limit, step, messages) == Go(tools, chat, limit, 0, head)
        invariant stepCount == old(stepCount) + step
      {
        var response := chat(step, messages);
        if response.None? {
          status := Failed;
          return ProviderError;
        }
        var message := response.value.message;
        messages := messages + [message];
        stepCount := stepCount + 1;
        if response.value.IsFinal() {
          status := Finished;
          return Answer(message.content, step + 1);
        }
        Process(message.toolCalls);
        step := step + 1;
      }
      status := Failed;
      return MaxStepsExceeded(limit);
    }

    /** The loop of `Run` over the tool calls of one message. */
    method Process(calls: seq<ToolCall>)
      modifies `messages
      ensures messages == old(messages) + Answers(tools, |old(messages)|, calls, |calls|)
    {
      for i := 0 to |calls|
        invariant messages == old(messages) + Answers(tools, |old(messages)|, calls, i)
      {
        var obs := ExecuteTool(|messages|, calls[i].name, calls[i].arguments);
        messages := messages + [Message(Tool, obs, [], calls[i].id)];
      }
    }

    method ExecuteTool(at: nat, name: string, arguments: string) returns (obs: string)
      ensures obs == Observation(tools, 0, at, name, arguments)
    {
      for i := 0 to |tools|
        invariant forall j | 0 <= j < i :: tools[j].name != name
      {
        if tools[i].name == name {
          FirstToolRuns(tools, 0, i, at, name, arguments);
          match tools[i].execute(at, arguments)
          case Err(error) => return "error: " + error;
          case Ok(result) => return result;
        }
      }
      FirstToolRuns(tools, 0, |tools|, at, name, arguments);
      return "tool not found: " + name;
    }
  }
}
