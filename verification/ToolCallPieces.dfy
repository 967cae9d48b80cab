/** What a streamed answer is made of, piece by piece: which lines count, what each call holds,
    and how every further piece changes the result. */
module ToolCallPieces {
  import opened Common
  import opened ToolCalls

  // ---------- which lines count ----------

  predicate HasClosingLine(lines: seq<string>) {
    exists i :: 0 <= i < |lines| && lines[i] == "data: [DONE]"
  }

  /** A data line gives its chunk if it can be read, and any other line gives nothing. */
  lemma ChunksOfOne(data: string, other: string, decode: string -> Option<Chunk>)
    requires data != "[DONE]" && !("data: " <= other)
    ensures Chunks(["data: " + data], decode) == (match decode(data) case Some(chunk) => [chunk] case None => [])
    ensures Chunks([other], decode) == []
  {
    var line := "data: " + data;
    assert DataOf(line) == data && [line][1..] == [] && [other][1..] == [];
  }

  lemma ClosingLine(line: string)
    ensures (IsData(line) && DataOf(line) == DONE) <==> line == "data: [DONE]"
  {
    assert "data: [DONE]" == DATA + DONE && "data: [DONE]"[|DATA|..] == DONE;
    if IsData(line) && DataOf(line) == DONE {
      assert line == DATA + line[|DATA|..];
    }
  }

  /** Lines are read one after the other, up to the closing line and no further. */
  lemma {:induction false} ChunksInOrder(a: seq<string>, b: seq<string>, decode: string -> Option<Chunk>)
    ensures Chunks(a + b, decode) == if HasClosingLine(a) then Chunks(a, decode) else Chunks(a, decode) + Chunks(b, decode)
  {
    if a == [] {
      assert a + b == b;
    } else {
      ClosingLine(a[0]);
      assert (a + b)[1..] == a[1..] + b;
      ChunksInOrder(a[1..], b, decode);
      if HasClosingLine(a) && a[0] != "data: [DONE]" {
        var i :| 0 <= i < |a| && a[i] == "data: [DONE]";
        assert a[1..][i - 1] == "data: [DONE]";
      }
      if HasClosingLine(a[1..]) {
        var i :| 0 <= i < |a[1..]| && a[1..][i] == "data: [DONE]";
        assert a[i + 1] == "data: [DONE]";
      }
    }
  }

  // ---------- what the calls hold ----------

  function Names(own: seq<Fragment>): (r: seq<string>)
    ensures |r| == |own| && forall k :: 0 <= k < |r| ==> r[k] == own[k].name
  {
    if own == [] then [] else Names(own[..|own| - 1]) + [own[|own| - 1].name]
  }

  function ArgumentPieces(own: seq<Fragment>): (r: seq<string>)
    ensures |r| == |own| && forall k :: 0 <= k < |r| ==> r[k] == own[k].arguments
  {
    if own == [] then [] else ArgumentPieces(own[..|own| - 1]) + [own[|own| - 1].arguments]
  }

  /** The last id that is not empty, if there is one. */
  predicate IsLastId(own: seq<Fragment>, id: string) {
    if id == "" then forall k :: 0 <= k < |own| ==> own[k].id == ""
    else exists k :: 0 <= k < |own| && own[k].id == id && forall j :: k < j < |own| ==> own[j].id == ""
  }

  lemma JoinAppended(parts: seq<string>, last: string)
    ensures Join(parts + [last], "") == Join(parts, "") + last
  {
    assert (parts + [last])[..|parts|] == parts;
    if parts == [] {
      assert parts + [last] == [last];
    }
  }

  lemma {:induction false} NamesAreJoined(own: seq<Fragment>)
    ensures AllNames(own) == Join(Names(own), "") && AllArguments(own) == Join(ArgumentPieces(own), "")
  {
    if own != [] {
      var init, last := own[..|own| - 1], own[|own| - 1];
      NamesAreJoined(init);
      JoinAppended(Names(init), last.name);
      JoinAppended(ArgumentPieces(init), last.arguments);
    }
  }

  lemma LastIdStays(own: seq<Fragment>, id: string, last: Fragment)
    requires IsLastId(own, id) && last.id == ""
    ensures IsLastId(own + [last], id)
  {
    if id != "" {
      var k :| 0 <= k < |own| && own[k].id == id && forall j :: k < j < |own| ==> own[j].id == "";
      assert (own + [last])[k].id == id;
    }
  }

  lemma LastIdIsNew(own: seq<Fragment>, last: Fragment)
    requires last.id != ""
    ensures IsLastId(own + [last], last.id)
  {
    assert (own + [last])[|own|].id == last.id;
  }

  lemma {:induction false} LastIdIsLast(own: seq<Fragment>)
    ensures IsLastId(own, LastId(own))
  {
    if own != [] {
      var init, last := own[..|own| - 1], own[|own| - 1];
      assert own == init + [last];
      if last.id != "" {
        LastIdIsNew(init, last);
      } else {
        LastIdIsLast(init);
        LastIdStays(init, LastId(init), last);
      }
    }
  }

  /** The call's name is what the names of these fragments make together, its arguments what their
      arguments make, and its id their last one. */
  predicate IsMadeOf(call: ToolCall, own: seq<Fragment>) {
    && call.kind == "function"
    && call.name == Join(Names(own), "") && call.arguments == Join(ArgumentPieces(own), "") && IsLastId(own, call.id)
  }

  lemma CallIsMadeOf(own: seq<Fragment>)
    ensures IsMadeOf(CallOf(own), own)
  {
    NamesAreJoined(own);
    LastIdIsLast(own);
  }

  /** The fragments with an index are those of the stream, in order. */
  lemma {:induction false} OwnInOrder(a: seq<Fragment>, b: seq<Fragment>, index: int)
    ensures Own(a + b, index) == Own(a, index) + Own(b, index)
  {
    if b == [] {
      assert a + b == a;
    } else {
      var n := |b| - 1;
      OwnInOrder(a, b[..n], index);
      assert (a + b)[..|a| + n] == a + b[..n];
    }
  }

  lemma {:induction false} OwnMembers(fragments: seq<Fragment>, index: int)
    ensures forall f :: f in Own(fragments, index) <==> f in fragments && f.index == index
  {
    if fragments != [] {
      var n := |fragments| - 1;
      OwnMembers(fragments[..n], index);
      assert fragments == fragments[..n] + [fragments[n]];
    }
  }

  // ---------- streams without a gap ----------

  /** The indices are 0, 1, ... and under each stands its call. */
  predicate AreCallsOf(calls: seq<ToolCall>, fragments: seq<Fragment>) {
    Indices(fragments) == UpToCount(|calls|) && forall i :: 0 <= i < |calls| ==> calls[i] == CallOf(Own(fragments, i))
  }

  predicate IsGapless(chunks: seq<Chunk>) {
    AreCallsOf(ResultOf(chunks).toolCalls, Fragments(Choices(chunks)))
  }

  lemma GaplessWhen(chunks: seq<Chunk>, n: nat)
    requires Indices(Fragments(Choices(chunks))) == UpToCount(n)
    ensures IsGapless(chunks)
  {
    var fragments := Fragments(Choices(chunks));
    assert Assembled(fragments).Keys == Indices(fragments) && |Assembled(fragments).Keys| == |Assembled(fragments)|;
    NothingLostIff(chunks);
  }

  /** A stream is gapless exactly when its indices are 0, 1, ... */
  lemma GaplessIff(chunks: seq<Chunk>)
    ensures IsGapless(chunks) <==> exists n: nat :: Indices(Fragments(Choices(chunks))) == UpToCount(n)
  {
    if n: nat :| Indices(Fragments(Choices(chunks))) == UpToCount(n) {
      GaplessWhen(chunks, n);
    }
  }

  /** Then each call is made of the fragments with its index. */
  lemma CallsAreTheirPieces(chunks: seq<Chunk>)
    requires IsGapless(chunks)
    ensures var fragments, calls := Fragments(Choices(chunks)), ResultOf(chunks).toolCalls;
      |calls| == |Indices(fragments)| && forall i :: 0 <= i < |calls| ==> IsMadeOf(calls[i], Own(fragments, i))
  {
    var fragments, calls := Fragments(Choices(chunks)), ResultOf(chunks).toolCalls;
    forall i | 0 <= i < |calls| ensures IsMadeOf(calls[i], Own(fragments, i)) {
      CallIsMadeOf(Own(fragments, i));
    }
  }

  lemma CallsAreUnique(a: seq<ToolCall>, b: seq<ToolCall>, fragments: seq<Fragment>)
    requires AreCallsOf(a, fragments) && AreCallsOf(b, fragments)
    ensures a == b
  {
    assert |UpToCount(|a|)| == |a| && |UpToCount(|b|)| == |b|;
  }

  // ---------- how a result grows ----------

  /** A fragment joins the call with its index: its name and arguments go behind what is there, and
      a new id replaces the old one. */
  function WithFragment(calls: seq<ToolCall>, f: Fragment): seq<ToolCall>
    requires 0 <= f.index <= |calls|
  {
    if f.index == |calls| then calls + [ToolCall(f.id, "function", f.name, f.arguments)]
    else
      var call := calls[f.index];
      calls[f.index := ToolCall(if f.id != "" then f.id else call.id, "function", call.name + f.name, call.arguments + f.arguments)]
  }

  lemma UpToNext(n: nat, i: int)
    requires 0 <= i <= n
    ensures UpToCount(n) + {i} == UpToCount(if i == n then n + 1 else n)
  {
  }

  lemma NewCallAt(fragments: seq<Fragment>, f: Fragment, n: nat)
    requires n !in Indices(fragments) && f.index == n
    ensures CallOf(Own(fragments + [f], n)) == ToolCall(f.id, "function", f.name, f.arguments)
  {
    CallAfter(fragments, f, n);
    OwnOfUnknown(fragments, n);
    assert CallOf([]) == ToolCall("", "function", "", "");
  }

  lemma CallAt(fragments: seq<Fragment>, f: Fragment, calls: seq<ToolCall>, i: nat)
    requires AreCallsOf(calls, fragments) && 0 <= f.index <= |calls| && i < |WithFragment(calls, f)|
    ensures WithFragment(calls, f)[i] == CallOf(Own(fragments + [f], i))
  {
    if i == |calls| {
      NewCallAt(fragments, f, i);
    } else {
      CallAfter(fragments, f, i);
      assert calls[i].kind == "function";
    }
  }

  lemma CallsGrow(fragments: seq<Fragment>, f: Fragment, calls: seq<ToolCall>)
    requires AreCallsOf(calls, fragments) && 0 <= f.index <= |calls|
    ensures AreCallsOf(WithFragment(calls, f), fragments + [f])
  {
    IndicesGrow(fragments, f);
    UpToNext(|calls|, f.index);
    forall i | 0 <= i < |WithFragment(calls, f)| ensures WithFragment(calls, f)[i] == CallOf(Own(fragments + [f], i)) {
      CallAt(fragments, f, calls, i);
    }
  }

  lemma ChunkAppended(chunks: seq<Chunk>, f: Fragment, content: string, reason: string, usage: Option<Usage>)
    ensures var more := chunks + [Chunk([Choice(content, [f], reason)], usage)];
      && Choices(more) == Choices(chunks) + [Choice(content, [f], reason)]
      && Fragments(Choices(more)) == Fragments(Choices(chunks)) + [f]
  {
    var choice := Choice(content, [f], reason);
    NextChunk(chunks, Chunk([choice], usage), []);
    assert (Choices(chunks) + [choice])[..|Choices(chunks)|] == Choices(chunks);
  }

  /** The calls of a stream are what makes it gapless, if anything does. */
  lemma CallsFit(chunks: seq<Chunk>, calls: seq<ToolCall>)
    requires AreCallsOf(calls, Fragments(Choices(chunks)))
    ensures IsGapless(chunks) && ResultOf(chunks).toolCalls == calls
  {
    GaplessWhen(chunks, |calls|);
    CallsAreUnique(calls, ResultOf(chunks).toolCalls, Fragments(Choices(chunks)));
  }

  /** Nothing comes of an empty stream. */
  lemma NothingYet()
    ensures ResultOf([]) == RunResult("", [], "", Usage(0, 0)) && IsGapless([])
  {
    assert Indices([]) == {};
    assert Assembled([]).Keys == {};
  }

  /** One more chunk: its content goes behind the content, a stop reason and a usage replace the
      ones before. */
  lemma TextGrows(chunks: seq<Chunk>, choice: Choice, usage: Option<Usage>)
    ensures var r, r' := ResultOf(chunks), ResultOf(chunks + [Chunk([choice], usage)]);
      && r'.content == r.content + choice.content
      && r'.stopReason == (if choice.finishReason != "" then choice.finishReason else r.stopReason)
      && r'.usage == (if usage.Some? then usage.value else r.usage)
  {
    NextChunk(chunks, Chunk([choice], usage), []);
    assert (Choices(chunks) + [choice])[..|Choices(chunks)|] == Choices(chunks);
  }

  /** And its fragment joins its call. */
  lemma ResultGrows(chunks: seq<Chunk>, f: Fragment, content: string, reason: string, usage: Option<Usage>)
    requires IsGapless(chunks) && 0 <= f.index <= |ResultOf(chunks).toolCalls|
    ensures var more := chunks + [Chunk([Choice(content, [f], reason)], usage)];
      IsGapless(more) && ResultOf(more).toolCalls == WithFragment(ResultOf(chunks).toolCalls, f)
  {
    var calls := ResultOf(chunks).toolCalls;
    ChunkAppended(chunks, f, content, reason, usage);
    CallsGrow(Fragments(Choices(chunks)), f, calls);
    CallsFit(chunks + [Chunk([Choice(content, [f], reason)], usage)], WithFragment(calls, f));
  }

  /** It makes no difference how fragments are spread over choices and chunks. */
  lemma SpreadMakesNoDifference(a: seq<Chunk>, b: seq<Chunk>)
    requires Fragments(Choices(a)) == Fragments(Choices(b))
    ensures ResultOf(a).toolCalls == ResultOf(b).toolCalls
  {
  }

  /** A call sent in one fragment comes back as it is. */
  lemma LoneFragment(f: Fragment, content: string, reason: string, usage: Option<Usage>)
    requires f.index == 0
    ensures ResultOf([Chunk([Choice(content, [f], reason)], usage)]).toolCalls
         == [ToolCall(f.id, "function", f.name, f.arguments)]
  {
    NothingYet();
    ResultGrows([], f, content, reason, usage);
    assert [] + [Chunk([Choice(content, [f], reason)], usage)] == [Chunk([Choice(content, [f], reason)], usage)];
  }

  // ---------- the tools' outputs ----------

  /** Each output is what its tool gives at its own point of the history, or its error as text. */
  lemma {:induction false} OutputIsItsTools(
    before: seq<Message>, result: RunResult, outputs: seq<string>,
    exec: (seq<Message>, ToolCall) -> Result<string, string>, k: nat)
    requires OutputsFollow(before, result, outputs, exec) && k < |outputs|
    ensures k < |result.toolCalls|
    ensures outputs[k] ==
      match exec(before + [Assistant(result.content, result.toolCalls)] + ToolMessages(result.toolCalls, outputs[..k]), result.toolCalls[k])
      case Ok(text) => text
      case Err(e) => "Error: " + e
  {
    var n := |outputs| - 1;
    if k < n {
      OutputIsItsTools(before, result, outputs[..n], exec, k);
      assert outputs[..n][..k] == outputs[..k];
    } else {
      assert before + Exchange(result, outputs[..n])
          == before + [Assistant(result.content, result.toolCalls)] + ToolMessages(result.toolCalls, outputs[..n]);
    }
  }

  /** A round in the history: the answer, then for each call that was run its output under its id. */
  lemma RoundInHistory(before: seq<Message>, result: RunResult, outputs: seq<string>)
    requires |outputs| <= |result.toolCalls|
    ensures var history := before + Exchange(result, outputs);
      && |history| == |before| + 1 + |outputs| && history[..|before|] == before
      && history[|before|] == Assistant(result.content, result.toolCalls)
      && forall k :: 0 <= k < |outputs| ==> history[|before| + 1 + k] == Tool(result.toolCalls[k].id, outputs[k])
  {
    var round := Exchange(result, outputs);
    assert |round| == 1 + |outputs| && round[0] == Assistant(result.content, result.toolCalls);
    forall k | 0 <= k < |outputs| ensures (before + round)[|before| + 1 + k] == Tool(result.toolCalls[k].id, outputs[k]) {
      assert round[1 + k] == ToolMessages(result.toolCalls, outputs)[k];
    }
  }
}
