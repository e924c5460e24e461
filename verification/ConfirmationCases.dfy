/**
 * What the confirmation gate does with one input, case by case, and which calls are running.
 */
module ConfirmationCases {
  import opened Base
  import opened Confirmation

  lemma OneCallFrame(cfg: Config, stream: Stream, callSID: string, call: ToolCall)
    ensures CallFrames(cfg, stream, callSID, [call]) == [CallTool(stream, callSID, call, Gated(cfg, call.name))]
    ensures forall running :: Running(running, [call]) == running[call.id := call]
  {
    assert DropLast([call]) == [];
    assert CallFrames(cfg, stream, callSID, []) == [];
    forall running: map<string, ToolCall>
      ensures Running(running, [call]) == running[call.id := call]
    {
      assert Running(running, []) == running;
    }
  }

  /**
   * The completeness of the gate: a confirming reply does call the stored tool, a cancelling
   * one drops it, and an unclear one changes nothing and asks again.
   */
  lemma ReplyIsAnswered(cfg: Config, s: State, e: Input)
    requires e.TextIn? && e.stream in s.pending
    ensures var p := s.pending[e.stream];
      match Decision(cfg, e.text, e.llm)
      case Confirm =>
        && Outputs(cfg, s, e)
           == [ThinkingStart, CallTool(e.stream, p.callSID, p.call, Gated(cfg, p.call.name)), ThinkingEnd]
        && Step(cfg, s, e) == State(s.pending - {e.stream}, s.running[p.call.id := p.call])
      case Cancel =>
        && Outputs(cfg, s, e) == [Cancelled(e.stream, p.callSID)]
        && Step(cfg, s, e) == State(s.pending - {e.stream}, s.running)
      case Unclear =>
        Outputs(cfg, s, e) == [Repeat(e.stream, p.callSID)] && Step(cfg, s, e) == s
  {
    var p := s.pending[e.stream];
    OneCallFrame(cfg, e.stream, p.callSID, p.call);
  }

  lemma {:induction false} CallFrameAt(cfg: Config, stream: Stream, callSID: string, calls: seq<ToolCall>, i: nat)
    requires i < |calls|
    ensures |CallFrames(cfg, stream, callSID, calls)| == |calls|
    ensures CallFrames(cfg, stream, callSID, calls)[i] == CallTool(stream, callSID, calls[i], Gated(cfg, calls[i].name))
  {
    if |calls| == 1 {
      assert CallFrames(cfg, stream, callSID, DropLast(calls)) == [];
    } else {
      CallFrameAt(cfg, stream, callSID, DropLast(calls), if i < |calls| - 1 then i else 0);
    }
  }

  /** What every answered text begins with: it interrupts the agent, and may hand over to another one. */
  function Lead(handoff: bool): seq<Output> {
    if handoff then [Interruption, Handoff] else [Interruption]
  }

  /** A text without a pending request that the model fails on, or answers without tool calls. */
  lemma TextIsSpoken(cfg: Config, s: State, e: Input)
    requires e.TextIn? && e.stream !in s.pending
    ensures e.answer.Failed? ==> Outputs(cfg, s, e) == [Interruption, Fallback] && Step(cfg, s, e) == s
    ensures e.answer.Replied? && e.answer.calls == [] ==>
      && Outputs(cfg, s, e) == Lead(e.answer.handoff) + [if e.answer.streamOk then Spoken else Fallback]
      && Step(cfg, s, e) == s
  {
    assert Running(s.running, []) == s.running;
  }

  /** If one of the calls needs a confirmation, none goes out, and the first that does is asked about. */
  lemma GatedCallIsAskedAbout(cfg: Config, s: State, e: Input, i: nat)
    requires e.TextIn? && e.stream !in s.pending && e.answer.Replied? && FirstNeeding(cfg, e.answer.calls, i)
    ensures Outputs(cfg, s, e) == Lead(e.answer.handoff) + [Prompt(e.stream)]
    ensures Step(cfg, s, e).running == s.running
    ensures Step(cfg, s, e).pending
         == if e.stream == "" then s.pending else s.pending[e.stream := Pending(e.answer.calls[i], e.callSID)]
  {
    FirstGatedIsFirst(cfg, e.answer.calls, i);
    assert Running(s.running, []) == s.running;
  }

  predicate Needs(cfg: Config, call: ToolCall) {
    call.name in cfg.tools && cfg.tools[call.name]
  }

  /** Call `i` needs a confirmation, and none before it does. */
  ghost predicate FirstNeeding(cfg: Config, calls: seq<ToolCall>, i: nat) {
    i < |calls| && Needs(cfg, calls[i]) && forall j :: 0 <= j < i ==> !Needs(cfg, calls[j])
  }

  /** Calls of which none needs a confirmation go out one by one, in order, between the thinking marks. */
  lemma UngatedCallsGoOut(cfg: Config, s: State, e: Input, i: nat)
    requires e.TextIn? && e.stream !in s.pending && e.answer.Replied? && i < |e.answer.calls|
    requires forall j :: 0 <= j < |e.answer.calls| ==> !Needs(cfg, e.answer.calls[j])
    ensures Step(cfg, s, e).pending == s.pending
    ensures |CallFrames(cfg, e.stream, e.callSID, e.answer.calls)| == |e.answer.calls|
    ensures CallFrames(cfg, e.stream, e.callSID, e.answer.calls)[i]
         == CallTool(e.stream, e.callSID, e.answer.calls[i], false)
    ensures Outputs(cfg, s, e) == Lead(e.answer.handoff)
      + ([ThinkingStart] + CallFrames(cfg, e.stream, e.callSID, e.answer.calls) + [ThinkingEnd])
  {
    NothingGated(cfg, e.answer.calls);
    CallFrameAt(cfg, e.stream, e.callSID, e.answer.calls, i);
    assert [Interruption] + (if e.answer.handoff then [Handoff] else []) == Lead(e.answer.handoff);
  }

  lemma {:induction false} NothingGated(cfg: Config, calls: seq<ToolCall>)
    requires forall j :: 0 <= j < |calls| ==> !Needs(cfg, calls[j])
    ensures FirstGated(cfg, calls) == None
  {
    if calls == [] {
    } else {
      NothingGated(cfg, calls[1..]);
    }
  }

  lemma {:induction false} FirstGatedIsFirst(cfg: Config, calls: seq<ToolCall>, i: nat)
    requires FirstNeeding(cfg, calls, i)
    ensures FirstGated(cfg, calls) == Some(calls[i])
  {
    if i == 0 {
    } else {
      FirstGatedIsFirst(cfg, calls[1..], i - 1);
    }
  }

  /** A result that names its call and is not empty settles the call; any other changes nothing. */
  lemma ResultSettlesCall(cfg: Config, s: State, callID: string, result: string)
    ensures Step(cfg, s, ToolResult(callID, result))
         == if callID != "" && result != "" then s.(running := s.running - {callID}) else s
    ensures Step(cfg, s, CallEnd(callID)) == s.(pending := s.pending - {callID})
    ensures Step(cfg, s, Other) == s
  {
    assert Running(s.running, []) == s.running;
  }

  /** Input `i` made the gate let this call out. */
  ghost predicate LetOutAt(cfg: Config, inputs: seq<Input>, i: nat, call: ToolCall) {
    i < |inputs| && call in LetThrough(cfg, After(cfg, inputs, i), inputs[i])
  }

  /** A running call has been let out, and no result for it has come since. */
  lemma {:induction false} RunningWasLetOut(cfg: Config, inputs: seq<Input>, k: nat, id: string, call: ToolCall)
    returns (i: nat)
    requires k <= |inputs| && id != "" && Runs(After(cfg, inputs, k), id, call)
    ensures i < k && LetOutAt(cfg, inputs, i, call) && Unsettled(inputs, i, k, id)
  {
    assert k > 0;
    var s, e := After(cfg, inputs, k - 1), inputs[k - 1];
    RunningCameFrom(cfg, s, e, id, call);
    if call in LetThrough(cfg, s, e) {
      i := k - 1;
    } else {
      i := RunningWasLetOut(cfg, inputs, k - 1, id, call);
      UnsettledGrows(inputs, i, k, id);
    }
  }

  predicate Runs(s: State, id: string, call: ToolCall) {
    id in s.running && s.running[id] == call
  }

  predicate Settles(e: Input, id: string) {
    e.ToolResult? && e.callID == id && e.result != ""
  }

  /** No result for the call came after input `i` and before input `k`. */
  ghost predicate Unsettled(inputs: seq<Input>, i: nat, k: nat, id: string)
    requires k <= |inputs|
  {
    forall j :: i < j < k ==> !Settles(inputs[j], id)
  }

  lemma UnsettledGrows(inputs: seq<Input>, i: nat, k: nat, id: string)
    requires 0 < k <= |inputs| && Unsettled(inputs, i, k - 1, id) && !Settles(inputs[k - 1], id)
    ensures Unsettled(inputs, i, k, id)
  {
  }

  lemma RunningCameFrom(cfg: Config, s: State, e: Input, id: string, call: ToolCall)
    requires id != "" && Runs(Step(cfg, s, e), id, call)
    ensures call in LetThrough(cfg, s, e) || (Runs(s, id, call) && !Settles(e, id))
  {
    if e.ToolResult? && e.callID != "" && e.result != "" {
    } else {
      RunningGrows(s.running, LetThrough(cfg, s, e), id);
    }
  }

  lemma {:induction false} RunningGrows(running: map<string, ToolCall>, calls: seq<ToolCall>, id: string)
    requires id in Running(running, calls)
    ensures Running(running, calls)[id] in calls || (id in running && Running(running, calls)[id] == running[id])
  {
    if calls == [] {
    } else {
      if Last(calls).id != id {
        RunningGrows(running, DropLast(calls), id);
      }
    }
  }

  /** Capital letters count as small ones, and nothing else changes. */
  lemma LowerCases(c: char)
    ensures 65 <= c as int <= 90 ==> LowerChar(c) as int == c as int + 32
    ensures !(65 <= c as int <= 90) ==> LowerChar(c) == c
  {
  }
}
