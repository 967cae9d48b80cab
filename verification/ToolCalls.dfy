/** Assembling a streamed model answer, and the conversation loop that answers its tool calls. */
module ToolCalls {
  import opened Common

  datatype Usage = Usage(promptTokens: int, completionTokens: int)

  /** One tool-call delta. */
  datatype Fragment = Fragment(index: int, id: string, name: string, arguments: string)

  datatype Choice = Choice(content: string, fragments: seq<Fragment>, finishReason: string)

  datatype Chunk = Chunk(choices: seq<Choice>, usage: Option<Usage>)

  datatype ToolCall = ToolCall(id: string, kind: string, name: string, arguments: string)

  datatype RunResult = RunResult(content: string, toolCalls: seq<ToolCall>, stopReason: string, usage: Usage)

  // ---------- the stream ----------

  const DATA := "data: "
  const DONE := "[DONE]"

  predicate IsData(line: string) {
    DATA <= line
  }

  function DataOf(line: string): string
    requires IsData(line)
  {
    line[|DATA|..]
  }

  /** The readable chunks of a stream, in order, up to the closing line. */
  function Chunks(lines: seq<string>, decode: string -> Option<Chunk>): seq<Chunk> {
    if lines == [] then []
    else if !IsData(lines[0]) then Chunks(lines[1..], decode)
    else if DataOf(lines[0]) == DONE then []
    else
      match decode(DataOf(lines[0]))
      case Some(chunk) => [chunk] + Chunks(lines[1..], decode)
      case None => Chunks(lines[1..], decode)
  }

  function Choices(chunks: seq<Chunk>): seq<Choice> {
    if chunks == [] then [] else Choices(chunks[..|chunks| - 1]) + chunks[|chunks| - 1].choices
  }

  function LastUsage(chunks: seq<Chunk>): Usage {
    if chunks == [] then Usage(0, 0)
    else if chunks[|chunks| - 1].usage.Some? then chunks[|chunks| - 1].usage.value
    else LastUsage(chunks[..|chunks| - 1])
  }

  function Content(choices: seq<Choice>): string {
    if choices == [] then "" else Content(choices[..|choices| - 1]) + choices[|choices| - 1].content
  }

  function Fragments(choices: seq<Choice>): seq<Fragment> {
    if choices == [] then [] else Fragments(choices[..|choices| - 1]) + choices[|choices| - 1].fragments
  }

  function StopReason(choices: seq<Choice>): string {
    if choices == [] then ""
    else if choices[|choices| - 1].finishReason != "" then choices[|choices| - 1].finishReason
    else StopReason(choices[..|choices| - 1])
  }

  // ---------- one call's own fragments ----------

  /** The fragments with an index, in order. */
  function Own(fragments: seq<Fragment>, index: int): seq<Fragment> {
    if fragments == [] then [] else
    var n := |fragments| - 1;
    Own(fragments[..n], index) + if fragments[n].index == index then [fragments[n]] else []
  }

  function LastId(own: seq<Fragment>): string {
    if own == [] then ""
    else if own[|own| - 1].id != "" then own[|own| - 1].id
    else LastId(own[..|own| - 1])
  }

  function AllNames(own: seq<Fragment>): string {
    if own == [] then "" else AllNames(own[..|own| - 1]) + own[|own| - 1].name
  }

  function AllArguments(own: seq<Fragment>): string {
    if own == [] then "" else AllArguments(own[..|own| - 1]) + own[|own| - 1].arguments
  }

  function CallOf(own: seq<Fragment>): ToolCall {
    ToolCall(LastId(own), "function", AllNames(own), AllArguments(own))
  }

  function Indices(fragments: seq<Fragment>): set<int> {
    set f | f in fragments :: f.index
  }

  /** Each index with the call its own fragments make. */
  function Assembled(fragments: seq<Fragment>): map<int, ToolCall> {
    map index | index in Indices(fragments) :: CallOf(Own(fragments, index))
  }

  /** The calls under 0, 1, ... up to the number of calls, as far as there are any. */
  function Emitted(calls: map<int, ToolCall>, n: nat): seq<ToolCall> {
    if n == 0 then [] else Emitted(calls, n - 1) + if n - 1 in calls then [calls[n - 1]] else []
  }

  function ResultOf(chunks: seq<Chunk>): RunResult {
    var choices := Choices(chunks);
    var calls := Assembled(Fragments(choices));
    RunResult(Content(choices), Emitted(calls, |calls|), StopReason(choices), LastUsage(chunks))
  }

  // ---------- the parser ----------

  lemma OwnGrows(fragments: seq<Fragment>, f: Fragment, index: int)
    ensures Own(fragments + [f], index) == Own(fragments, index) + if f.index == index then [f] else []
  {
    assert (fragments + [f])[..|fragments|] == fragments;
  }

  lemma {:induction false} OwnOfUnknown(fragments: seq<Fragment>, index: int)
    ensures Own(fragments, index) == [] <==> index !in Indices(fragments)
  {
    if fragments != [] {
      var n := |fragments| - 1;
      OwnOfUnknown(fragments[..n], index);
      assert fragments == fragments[..n] + [fragments[n]];
      assert Indices(fragments) == Indices(fragments[..n]) + {fragments[n].index} by {
        IndicesGrow(fragments[..n], fragments[n]);
      }
    }
  }

  lemma IndicesGrow(fragments: seq<Fragment>, f: Fragment)
    ensures Indices(fragments + [f]) == Indices(fragments) + {f.index}
  {
    assert f in fragments + [f];
  }

  function Extended(call: ToolCall, f: Fragment): ToolCall {
    ToolCall(if f.id != "" then f.id else call.id, call.kind, call.name + f.name, call.arguments + f.arguments)
  }

  lemma CallGrows(own: seq<Fragment>, f: Fragment)
    ensures CallOf(own + [f]) == Extended(CallOf(own), f)
  {
    assert (own + [f])[..|own|] == own;
  }

  lemma CallAfter(fragments: seq<Fragment>, f: Fragment, index: int)
    ensures CallOf(Own(fragments + [f], index)) == CallAfterwards(fragments, f, index)
  {
    OwnGrows(fragments, f, index);
    CallGrows(Own(fragments, index), f);
    assert Own(fragments, index) + [] == Own(fragments, index);
  }

  lemma AssembledGrows(fragments: seq<Fragment>, f: Fragment)
    ensures var calls := Assembled(fragments);
      Assembled(fragments + [f])
        == calls[f.index := Extended(if f.index in calls then calls[f.index] else CallOf([]), f)]
  {
    var before, after := Assembled(fragments), Assembled(fragments + [f]);
    AssembledKeys(fragments, f);
    forall index | index in after ensures after[index] == CallAfterwards(fragments, f, index) {
      CallAfter(fragments, f, index);
    }
    OwnOfUnknown(fragments, f.index);
    Updated(before, after, f.index, CallAfterwards(fragments, f, f.index));
  }

  function CallAfterwards(fragments: seq<Fragment>, f: Fragment, index: int): ToolCall {
    var call := CallOf(Own(fragments, index));
    if index == f.index then Extended(call, f) else call
  }

  lemma Updated(before: map<int, ToolCall>, after: map<int, ToolCall>, index: int, call: ToolCall)
    requires after.Keys == before.Keys + {index} && after[index] == call
    requires forall i :: i in before && i != index ==> after[i] == before[i]
    ensures after == before[index := call]
  {
  }

  lemma AssembledKeys(fragments: seq<Fragment>, f: Fragment)
    ensures Assembled(fragments + [f]).Keys == Assembled(fragments).Keys + {f.index}
  {
    IndicesGrow(fragments, f);
    assert Assembled(fragments + [f]).Keys == Indices(fragments + [f]);
    assert Assembled(fragments).Keys == Indices(fragments);
  }

  method AddFragments(calls: map<int, ToolCall>, ghost before: seq<Fragment>, fragments: seq<Fragment>)
    returns (r: map<int, ToolCall>)
    requires calls == Assembled(before)
    ensures r == Assembled(before + fragments)
  {
    r := calls;
    assert before + fragments[..0] == before;
    for i := 0 to |fragments|
      invariant r == Assembled(before + fragments[..i])
    {
      var f := fragments[i];
      AssembledGrows(before + fragments[..i], f);
      assert before + fragments[..i + 1] == before + fragments[..i] + [f];
      var call := if f.index in r then r[f.index] else ToolCall("", "function", "", "");
      if f.id != "" {
        call := call.(id := f.id);
      }
      call := call.(name := call.name + f.name);
      call := call.(arguments := call.arguments + f.arguments);
      r := r[f.index := call];
    }
    assert fragments[..|fragments|] == fragments;
  }

  /** What the parser has gathered from the choices seen so far. */
  datatype Gathered = Gathered(content: string, calls: map<int, ToolCall>, stopReason: string)

  function Gather(choices: seq<Choice>): Gathered {
    Gathered(Content(choices), Assembled(Fragments(choices)), StopReason(choices))
  }

  method AddChoices(g: Gathered, ghost before: seq<Choice>, choices: seq<Choice>) returns (r: Gathered)
    requires g == Gather(before)
    ensures r == Gather(before + choices)
  {
    r := g;
    assert before + choices[..0] == before;
    for i := 0 to |choices|
      invariant r == Gather(before + choices[..i])
    {
      var choice := choices[i];
      ghost var seen := before + choices[..i];
      assert before + choices[..i + 1] == seen + [choice];
      assert (seen + [choice])[..|seen|] == seen;
      var calls := AddFragments(r.calls, Fragments(seen), choice.fragments);
      r := Gathered(r.content + choice.content, calls,
                    if choice.finishReason != "" then choice.finishReason else r.stopReason);
    }
    assert choices[..|choices|] == choices;
  }

  method EmitCalls(calls: map<int, ToolCall>) returns (r: seq<ToolCall>)
    ensures r == Emitted(calls, |calls|)
  {
    r := [];
    for k := 0 to |calls|
      invariant r == Emitted(calls, k)
    {
      if k in calls {
        r := r + [calls[k]];
      }
    }
  }

  lemma NextChunk(seen: seq<Chunk>, chunk: Chunk, rest: seq<Chunk>)
    ensures Choices(seen + [chunk]) == Choices(seen) + chunk.choices
    ensures LastUsage(seen + [chunk]) == if chunk.usage.Some? then chunk.usage.value else LastUsage(seen)
    ensures seen + ([chunk] + rest) == seen + [chunk] + rest
  {
    assert (seen + [chunk])[..|seen|] == seen;
  }

  method ParseSSE(lines: seq<string>, decode: string -> Option<Chunk>) returns (result: RunResult)
    ensures result == ResultOf(Chunks(lines, decode))
  {
    var usage := Usage(0, 0);
    var g := Gathered("", map[], "");
    ghost var seen: seq<Chunk> := [];
    assert g == Gather([]) by {
      assert Indices([]) == {};
    }
    var i := 0;
    assert lines[0..] == lines;
    while i < |lines|
      invariant 0 <= i <= |lines|
      invariant g == Gather(Choices(seen)) && usage == LastUsage(seen)
      invariant seen + Chunks(lines[i..], decode) == Chunks(lines, decode)
    {
      var line := lines[i];
      ghost var rest := Chunks(lines[i + 1..], decode);
      assert lines[i..][1..] == lines[i + 1..];
      i := i + 1;
      if !IsData(line) {
        continue;
      }
      var data := DataOf(line);
      if data == DONE {
        break;
      }
      match decode(data)
      case None =>
      case Some(chunk) =>
        NextChunk(seen, chunk, rest);
        if chunk.usage.Some? {
          usage := chunk.usage.value;
        }
        g := AddChoices(g, Choices(seen), chunk.choices);
        seen := seen + [chunk];
    }
    assert seen == Chunks(lines, decode);
    var calls := EmitCalls(g.calls);
    result := RunResult(g.content, calls, g.stopReason, usage);
  }

  // ---------- which calls come out ----------

  function UpToCount(n: nat): (s: set<int>)
    ensures |s| == n && forall i :: i in s <==> 0 <= i < n
  {
    if n == 0 then {} else UpToCount(n - 1) + {n - 1}
  }

  lemma {:induction false} EmittedCounts(calls: map<int, ToolCall>, n: nat)
    ensures |Emitted(calls, n)| <= n
    ensures |Emitted(calls, n)| == n <==> forall i :: 0 <= i < n ==> i in calls
    ensures |Emitted(calls, n)| == n ==> forall i :: 0 <= i < n ==> Emitted(calls, n)[i] == calls[i]
  {
    if n > 0 {
      EmittedCounts(calls, n - 1);
    }
  }

  /** No call is lost exactly when the indices are 0, 1, ... without a gap; and then call i is
      what the fragments with index i make together, in the order in which they came. */
  lemma NothingLostIff(chunks: seq<Chunk>)
    ensures var fragments, r := Fragments(Choices(chunks)), ResultOf(chunks);
      && (|r.toolCalls| == |Assembled(fragments)| <==> Indices(fragments) == UpToCount(|Assembled(fragments)|))
      && (|r.toolCalls| == |Assembled(fragments)| ==>
        forall i :: 0 <= i < |r.toolCalls| ==> r.toolCalls[i] == CallOf(Own(fragments, i)))
  {
    var calls := Assembled(Fragments(Choices(chunks)));
    assert calls.Keys == Indices(Fragments(Choices(chunks)));
    EmittedCounts(calls, |calls|);
    AllThereIff(calls);
  }

  lemma AllThereIff(calls: map<int, ToolCall>)
    ensures (forall i :: 0 <= i < |calls| ==> i in calls) <==> calls.Keys == UpToCount(|calls|)
  {
    assert |calls.Keys| == |calls|;
    if forall i :: 0 <= i < |calls| ==> i in calls {
      SameSize(UpToCount(|calls|), calls.Keys);
    }
  }

  lemma SameSize(a: set<int>, b: set<int>)
    requires a <= b && |a| == |b|
    ensures a == b
  {
    assert |b - a| == 0;
    assert b == a + (b - a);
  }

  // ---------- what is lost ----------

  /** A call whose index starts at 1 does not come out. */
  lemma GapLosesCall(id: string, name: string, arguments: string)
    ensures ResultOf([Chunk([Choice("", [Fragment(1, id, name, arguments)], "")], None)]).toolCalls == []
  {
    var f := Fragment(1, id, name, arguments);
    var choice := Choice("", [f], "");
    NextChunk([], Chunk([choice], None), []);
    assert [] + [Chunk([choice], None)] == [Chunk([choice], None)];
    assert Choices([]) + [choice] == [choice];
    assert [choice][..0] == [] && Fragments([]) + [f] == [f];
    assert Fragments([choice]) == [f];
    LoneCall(f);
  }

  lemma LoneCall(f: Fragment)
    requires f.index == 1
    ensures Emitted(Assembled([f]), |Assembled([f])|) == []
  {
    LoneKey(f);
    NothingAtZero(Assembled([f]));
  }

  lemma LoneKey(f: Fragment)
    ensures Assembled([f]).Keys == {f.index}
  {
    AssembledKeys([], f);
    assert [] + [f] == [f] && Indices([]) == {};
    assert Assembled([]).Keys == Indices([]);
  }

  lemma NothingAtZero(calls: map<int, ToolCall>)
    requires calls.Keys == {1}
    ensures Emitted(calls, |calls|) == []
  {
    assert |calls| == |calls.Keys| == 1;
    EmittedCounts(calls, 1);
  }

  /** The pieces a call came in, and what came between them, leave no trace. */
  lemma OnlyOwnTextMatters(a: seq<Chunk>, b: seq<Chunk>)
    requires Content(Choices(a)) == Content(Choices(b))
    requires Indices(Fragments(Choices(a))) == Indices(Fragments(Choices(b)))
    requires forall i :: i in Indices(Fragments(Choices(a))) ==>
      CallOf(Own(Fragments(Choices(a)), i)) == CallOf(Own(Fragments(Choices(b)), i))
    ensures ResultOf(a).content == ResultOf(b).content && ResultOf(a).toolCalls == ResultOf(b).toolCalls
  {
    assert Assembled(Fragments(Choices(a))) == Assembled(Fragments(Choices(b)));
  }

  /** So streams that agree on each index taken by itself give the same calls. */
  lemma OnlyProjectionsMatter(a: seq<Chunk>, b: seq<Chunk>)
    requires Content(Choices(a)) == Content(Choices(b))
    requires forall i :: Own(Fragments(Choices(a)), i) == Own(Fragments(Choices(b)), i)
    ensures ResultOf(a).content == ResultOf(b).content && ResultOf(a).toolCalls == ResultOf(b).toolCalls
  {
    forall i ensures i in Indices(Fragments(Choices(a))) <==> i in Indices(Fragments(Choices(b))) {
      OwnOfUnknown(Fragments(Choices(a)), i);
      OwnOfUnknown(Fragments(Choices(b)), i);
    }
    OnlyOwnTextMatters(a, b);
  }

  // ---------- the conversation loop ----------

  datatype Message =
    | Prompt(role: string, text: string)
    | Assistant(content: string, calls: seq<ToolCall>)
    | Tool(callId: string, output: string)

  predicate IsFinal(result: RunResult) {
    result.toolCalls == [] || result.stopReason == "stop"
  }

  /** One message for each call that was run. */
  function ToolMessages(calls: seq<ToolCall>, outputs: seq<string>): (r: seq<Message>)
    ensures |r| == if |outputs| <= |calls| then |outputs| else |calls|
    ensures forall k :: 0 <= k < |r| ==> r[k] == Tool(calls[k].id, outputs[k])
  {
    var n := if |outputs| <= |calls| then |outputs| else |calls|;
    seq(n, k requires 0 <= k < n => Tool(calls[k].id, outputs[k]))
  }

  /** The assistant's message and the tools' messages that answer it. */
  function Exchange(result: RunResult, outputs: seq<string>): seq<Message> {
    [Assistant(result.content, result.toolCalls)] + ToolMessages(result.toolCalls, outputs)
  }

  function OutputOf(out: Result<string, string>): string {
    match out case Ok(text) => text case Err(e) => "Error: " + e
  }

  /** The messages a conversation starts from, or one more answer of the model with the outputs
      of the tools it called, if they were run. */
  datatype Conversation =
    | Start(messages: seq<Message>)
    | Then(earlier: Conversation, result: RunResult, outputs: seq<string>)
  {
    function Length(): nat {
      if Start? then 0 else earlier.Length() + 1
    }

    function History(): seq<Message> {
      if Start? then messages else earlier.History() + Exchange(result, outputs)
    }

    function Opening(): seq<Message> {
      if Start? then messages else earlier.Opening()
    }

    predicate HasEnded() {
      Then? && IsFinal(result)
    }

    /** Every answer is the model's to the history before it, only the last one ends the
        conversation, and the tools of every other one were run. */
    ghost predicate IsHeld(
      send: seq<Message> -> Result<RunResult, string>, exec: (seq<Message>, ToolCall) -> Result<string, string>)
    {
      Start? ||
        (earlier.IsHeld(send, exec) && !earlier.HasEnded()
         && send(earlier.History()) == Ok(result)
         && |outputs| == (if IsFinal(result) then 0 else |result.toolCalls|)
         && OutputsFollow(earlier.History(), result, outputs, exec))
    }
  }

  /** Each output is its tool's, with the ones before it already in the history. */
  ghost predicate OutputsFollow(
    before: seq<Message>, result: RunResult, outputs: seq<string>,
    exec: (seq<Message>, ToolCall) -> Result<string, string>)
  {
    outputs == [] ||
      var n := |outputs| - 1;
      && n < |result.toolCalls|
      && OutputsFollow(before, result, outputs[..n], exec)
      && outputs[n] == OutputOf(exec(before + Exchange(result, outputs[..n]), result.toolCalls[n]))
  }

  lemma OutputAppended(
    before: seq<Message>, result: RunResult, outputs: seq<string>, output: string,
    exec: (seq<Message>, ToolCall) -> Result<string, string>)
    requires OutputsFollow(before, result, outputs, exec) && |outputs| < |result.toolCalls|
    requires output == OutputOf(exec(before + Exchange(result, outputs), result.toolCalls[|outputs|]))
    ensures OutputsFollow(before, result, outputs + [output], exec)
    ensures before + Exchange(result, outputs + [output])
        == before + Exchange(result, outputs) + [Tool(result.toolCalls[|outputs|].id, output)]
  {
    assert (outputs + [output])[..|outputs|] == outputs;
    assert Exchange(result, outputs + [output])
        == Exchange(result, outputs) + [Tool(result.toolCalls[|outputs|].id, output)];
  }

  method RunTools(
    before: seq<Message>, result: RunResult, exec: (seq<Message>, ToolCall) -> Result<string, string>)
    returns (history: seq<Message>, outputs: seq<string>)
    ensures |outputs| == |result.toolCalls| && OutputsFollow(before, result, outputs, exec)
    ensures history == before + Exchange(result, outputs)
  {
    history := before + [Assistant(result.content, result.toolCalls)];
    outputs := [];
    for i := 0 to |result.toolCalls|
      invariant |outputs| == i && OutputsFollow(before, result, outputs, exec)
      invariant history == before + Exchange(result, outputs)
    {
      var output := OutputOf(exec(history, result.toolCalls[i]));
      OutputAppended(before, result, outputs, output, exec);
      history := history + [Tool(result.toolCalls[i].id, output)];
      outputs := outputs + [output];
    }
  }

  /** Ten rounds when no limit is given. */
  function Limit(maxIter: int): (limit: nat)
    ensures maxIter > 0 ==> limit == maxIter
    ensures maxIter <= 0 ==> limit == 10
  {
    if maxIter <= 0 then 10 else maxIter
  }

  /** What the loop may return: the history of a conversation held from these messages, with the
      error the model answered it with, or with its last answer - one that ends the conversation,
      unless the limit is reached. */
  ghost predicate IsOutcome(
    c: Conversation, messages: seq<Message>, send: seq<Message> -> Result<RunResult, string>,
    exec: (seq<Message>, ToolCall) -> Result<string, string>, limit: nat,
    history: seq<Message>, last: Option<RunResult>, failure: Option<string>)
  {
    && c.Opening() == messages && c.IsHeld(send, exec) && history == c.History()
    && match failure
       case Some(e) => last == None && send(history) == Err(e) && c.Length() < limit && !c.HasEnded()
       case None => c.Then? && last == Some(c.result) && c.Length() <= limit && (c.HasEnded() || c.Length() == limit)
  }

  method ConversationLoop(
    messages: seq<Message>, send: seq<Message> -> Result<RunResult, string>,
    exec: (seq<Message>, ToolCall) -> Result<string, string>, maxIter: int)
    returns (history: seq<Message>, last: Option<RunResult>, failure: Option<string>)
    ensures exists c :: IsOutcome(c, messages, send, exec, Limit(maxIter), history, last, failure)
  {
    var limit := Limit(maxIter);
    history, last, failure := messages, None, None;
    ghost var c := Start(messages);
    for i := 0 to limit
      invariant c.Length() == i && c.Opening() == messages && c.IsHeld(send, exec) && !c.HasEnded()
      invariant history == c.History() && failure.None?
      invariant i > 0 ==> c.Then? && last == Some(c.result)
    {
      var answer := send(history);
      if answer.Err? {
        assert IsOutcome(c, messages, send, exec, limit, history, None, Some(answer.error));
        return history, None, Some(answer.error);
      }
      var result := answer.value;
      last := Some(result);
      if IsFinal(result) {
        history := history + [Assistant(result.content, result.toolCalls)];
        assert IsOutcome(Then(c, result, []), messages, send, exec, limit, history, last, failure);
        return;
      }
      var outputs;
      history, outputs := RunTools(history, result, exec);
      c := Then(c, result, outputs);
    }
    assert IsOutcome(c, messages, send, exec, limit, history, last, failure);
  }

  /** What the service asks of a history: after an assistant's message, one output for each of
      its calls, in order, before anything else. */
  predicate Answered(messages: seq<Message>) {
    messages == [] || (messages[0].Prompt? && Answered(messages[1..])) ||
      (messages[0].Assistant?
       && 1 + |messages[0].calls| <= |messages|
       && Answer(messages[0].calls, messages[1..1 + |messages[0].calls|])
       && Answered(messages[1 + |messages[0].calls|..]))
  }

  predicate Answer(calls: seq<ToolCall>, outputs: seq<Message>) {
    |outputs| == |calls| && forall k :: 0 <= k < |calls| ==> outputs[k].Tool? && outputs[k].callId == calls[k].id
  }

  lemma {:induction false} AnsweredThen(a: seq<Message>, b: seq<Message>)
    requires Answered(a)
    ensures Answered(a + b) <==> Answered(b)
  {
    if a == [] {
      assert a + b == b;
    } else {
      var n := if a[0].Prompt? then 1 else 1 + |a[0].calls|;
      assert (a + b)[n..] == a[n..] + b;
      assert (a + b)[1..n] == a[1..n];
      AnsweredThen(a[n..], b);
    }
  }

  lemma ExchangeAnswered(result: RunResult, outputs: seq<string>)
    requires |outputs| <= |result.toolCalls|
    ensures Answered(Exchange(result, outputs)) <==> |outputs| == |result.toolCalls|
  {
    var messages := Exchange(result, outputs);
    if |outputs| == |result.toolCalls| {
      assert messages[|messages|..] == [];
      assert messages[1..] == ToolMessages(result.toolCalls, outputs);
    }
  }

  /** Every call of the history is answered, except where the model asked for tools and
      stopped in the same breath. */
  lemma {:induction false} AnsweredIff(
    c: Conversation, send: seq<Message> -> Result<RunResult, string>,
    exec: (seq<Message>, ToolCall) -> Result<string, string>)
    requires c.IsHeld(send, exec) && Answered(c.Opening())
    ensures Answered(c.History()) <==> !(c.HasEnded() && c.result.toolCalls != [])
  {
    if c.Then? {
      AnsweredIff(c.earlier, send, exec);
      AnsweredThen(c.earlier.History(), Exchange(c.result, c.outputs));
      ExchangeAnswered(c.result, c.outputs);
    }
  }

  /** Such an answer leaves its calls open, and the loop returns with them. */
  lemma StopLeavesCallsOpen(
    messages: seq<Message>, call: ToolCall, send: seq<Message> -> Result<RunResult, string>,
    exec: (seq<Message>, ToolCall) -> Result<string, string>)
    requires Answered(messages) && send(messages) == Ok(RunResult("", [call], "stop", Usage(0, 0)))
    ensures var result := RunResult("", [call], "stop", Usage(0, 0));
      var history := messages + [Assistant("", [call])];
      && IsOutcome(Then(Start(messages), result, []), messages, send, exec, 10, history, Some(result), None)
      && !Answered(history)
  {
    var start, result := Start(messages), RunResult("", [call], "stop", Usage(0, 0));
    var c := Then(start, result, []);
    assert start.History() == messages == start.Opening() && start.IsHeld(send, exec);
    assert Exchange(result, []) == [Assistant("", [call])];
    assert c.IsHeld(send, exec) && c.History() == messages + [Assistant("", [call])];
    AnsweredIff(c, send, exec);
  }
}
