/**
 * The tool-confirmation gate of the LLM processor. A tool that requires confirmation is not
 * called when the model asks for it: the call is stored per stream, the caller is asked, and
 * the next texts on that stream are read as replies until one confirms or cancels.
 *
 * Lower-casing is that of ASCII letters.
 */
module Confirmation {
  import opened Base
  import opened Tokens

  type Stream = string

  datatype ToolCall = ToolCall(id: string, name: string, args: string)

  datatype Pending = Pending(call: ToolCall, callSID: string)

  datatype Intent = Confirm | Cancel | Unclear

  datatype Mode = Hybrid | Keywords | Llm

  /** `tools` maps the known tool names to whether they require confirmation. */
  datatype Config = Config(tools: map<string, bool>, mode: Mode, llmFallback: bool)

  /** What the model answers to a text that is not a reply to a confirmation request. */
  datatype Answer =
    | Failed
    | Replied(handoff: bool, calls: seq<ToolCall>, streamOk: bool)

  /** `llm` is what the model would classify the text as, if it is asked. */
  datatype Input =
    | TextIn(stream: Stream, callSID: string, text: string, llm: Intent, answer: Answer)
    | ToolResult(callID: string, result: string)
    | CallEnd(stream: Stream)
    | Other

  /** `Passed` stands for frames that call no tool. */
  datatype Output =
    | Interruption
    | Fallback
    | Handoff
    | ThinkingStart
    | ThinkingEnd
    | CallTool(stream: Stream, callSID: string, call: ToolCall, gated: bool)
    | Prompt(stream: Stream)
    | Repeat(stream: Stream, callSID: string)
    | Cancelled(stream: Stream, callSID: string)
    | Spoken
    | Passed

  const YES_WORDS := {"ya", "iya", "y", "yes", "yep", "yup", "sure", "ok", "oke", "okay", "okey", "lanjut",
                      "setuju", "boleh", "confirm", "siap", "sip", "baik", "benar"}
  const NO_WORDS := {"tidak", "gak", "nggak", "ngga", "enggak", "ga", "no", "nope", "cancel", "batal",
                     "jangan", "stop", "jgn"}

  function DigitIntent(tokens: seq<string>): Intent {
    if tokens == [] then Unclear
    else if tokens[0] == "1" then Confirm
    else if tokens[0] == "2" then Cancel
    else DigitIntent(tokens[1..])
  }

  function WordIntent(tokens: seq<string>): Intent {
    if tokens == [] then Unclear
    else if tokens[0] in YES_WORDS then Confirm
    else if tokens[0] in NO_WORDS then Cancel
    else WordIntent(tokens[1..])
  }

  function LowerChar(c: char): char {
    if 'A' <= c <= 'Z' then c - 'A' + 'a' else c
  }

  function Lower(text: string): string {
    seq(|text|, i requires 0 <= i < |text| => LowerChar(text[i]))
  }

  /** The first key pressed decides; without one, the first word of assent or refusal. */
  function KeywordIntent(text: string): Intent {
    var tokens := SplitTokens(Lower(text));
    if DigitIntent(tokens).Unclear? then WordIntent(tokens) else DigitIntent(tokens)
  }

  /** The tokens of a reply. */
  function ReplyTokens(text: string): seq<string> {
    SplitTokens(Lower(text))
  }

  /** No key was pressed in the first `n` tokens. */
  ghost predicate NoKeyBefore(tokens: seq<string>, n: nat)
    requires n <= |tokens|
  {
    forall j :: 0 <= j < n ==> tokens[j] != "1" && tokens[j] != "2"
  }

  ghost predicate NoWordBefore(tokens: seq<string>, n: nat)
    requires n <= |tokens|
  {
    forall j :: 0 <= j < n ==> tokens[j] !in YES_WORDS && tokens[j] !in NO_WORDS
  }

  lemma {:induction false} DigitsDecide(tokens: seq<string>, i: nat)
    requires i <= |tokens| && NoKeyBefore(tokens, i)
    requires i == |tokens| || tokens[i] == "1" || tokens[i] == "2"
    ensures DigitIntent(tokens) == if i == |tokens| then Unclear else if tokens[i] == "1" then Confirm else Cancel
  {
    if i == 0 {
    } else {
      DigitsDecide(tokens[1..], i - 1);
    }
  }

  lemma {:induction false} WordsDecide(tokens: seq<string>, i: nat)
    requires i <= |tokens| && NoWordBefore(tokens, i)
    requires i == |tokens| || tokens[i] in YES_WORDS || tokens[i] in NO_WORDS
    ensures WordIntent(tokens)
         == if i == |tokens| then Unclear else if tokens[i] in YES_WORDS then Confirm else Cancel
  {
    if i == 0 {
    } else {
      WordsDecide(tokens[1..], i - 1);
    }
  }

  /** The first key pressed decides, wherever it stands and whatever words there are: 1 confirms, 2 cancels. */
  lemma FirstKeyDecides(text: string, i: nat)
    requires i < |ReplyTokens(text)| && NoKeyBefore(ReplyTokens(text), i)
    requires ReplyTokens(text)[i] == "1" || ReplyTokens(text)[i] == "2"
    ensures KeywordIntent(text) == if ReplyTokens(text)[i] == "1" then Confirm else Cancel
  {
    DigitsDecide(ReplyTokens(text), i);
  }

  /** Without a key, the first word of assent or refusal decides. */
  lemma FirstWordDecides(text: string, i: nat)
    requires NoKeyBefore(ReplyTokens(text), |ReplyTokens(text)|)
    requires i < |ReplyTokens(text)| && NoWordBefore(ReplyTokens(text), i)
    requires ReplyTokens(text)[i] in YES_WORDS || ReplyTokens(text)[i] in NO_WORDS
    ensures KeywordIntent(text) == if ReplyTokens(text)[i] in YES_WORDS then Confirm else Cancel
  {
    DigitsDecide(ReplyTokens(text), |ReplyTokens(text)|);
    WordsDecide(ReplyTokens(text), i);
  }

  /** Without any of them the reply is unclear, and only then. */
  lemma UnclearIff(text: string)
    ensures KeywordIntent(text) == Unclear <==>
      NoKeyBefore(ReplyTokens(text), |ReplyTokens(text)|) && NoWordBefore(ReplyTokens(text), |ReplyTokens(text)|)
  {
    var tokens := ReplyTokens(text);
    var i := FirstKey(tokens);
    var w := FirstWord(tokens);
    DigitsDecide(tokens, i);
    WordsDecide(tokens, w);
  }

  lemma FirstKey(tokens: seq<string>) returns (i: nat)
    ensures i <= |tokens| && NoKeyBefore(tokens, i) && (i == |tokens| || tokens[i] == "1" || tokens[i] == "2")
  {
    i := 0;
    while i < |tokens| && tokens[i] != "1" && tokens[i] != "2"
      invariant i <= |tokens| && NoKeyBefore(tokens, i)
    {
      i := i + 1;
    }
  }

  lemma FirstWord(tokens: seq<string>) returns (i: nat)
    ensures i <= |tokens| && NoWordBefore(tokens, i)
    ensures i == |tokens| || tokens[i] in YES_WORDS || tokens[i] in NO_WORDS
  {
    i := 0;
    while i < |tokens| && tokens[i] !in YES_WORDS && tokens[i] !in NO_WORDS
      invariant i <= |tokens| && NoWordBefore(tokens, i)
    {
      i := i + 1;
    }
  }

  /** How a reply is read: by the keywords unless the mode is Llm, else by the model if it may be asked. */
  lemma ModeDecides(cfg: Config, text: string, llm: Intent)
    ensures cfg.mode == Keywords ==> Decision(cfg, text, llm) == KeywordIntent(text)
    ensures cfg.mode == Llm ==> Decision(cfg, text, llm) == llm
    ensures cfg.mode == Hybrid ==>
      && (KeywordIntent(text) != Unclear ==> Decision(cfg, text, llm) == KeywordIntent(text))
      && (KeywordIntent(text) == Unclear ==> Decision(cfg, text, llm) == if cfg.llmFallback then llm else Unclear)
  {
  }

  const DTMF_WORDS := "dtmf" + [' '] + "input"
  const DTMF_PREFIX := DTMF_WORDS + [':']

  lemma NeutralWord(word: string, rest: seq<string>)
    requires word !in {"1", "2"} && word !in YES_WORDS && word !in NO_WORDS
    ensures DigitIntent([word] + rest) == DigitIntent(rest)
    ensures WordIntent([word] + rest) == WordIntent(rest)
  {
    assert ([word] + rest)[1..] == rest;
  }

  lemma LowerAppend(a: string, b: string)
    ensures Lower(a + b) == Lower(a) + Lower(b)
  {
  }

  lemma LowerStays(text: string)
    requires forall i :: 0 <= i < |text| ==> !('A' <= text[i] <= 'Z')
    ensures Lower(text) == text
  {
  }

  lemma WordTokens()
    ensures SplitTokens(DTMF_WORDS) == ["dtmf"] + ["input"]
  {
    OneToken("dtmf");
    OneToken("input");
    SplitAtSeparator("dtmf", ' ', "input");
  }

  lemma PrefixTokens(text: string)
    ensures SplitTokens(Lower(DTMF_PREFIX + text)) == ["dtmf"] + (["input"] + SplitTokens(Lower(text)))
  {
    LowerAppend(DTMF_PREFIX, text);
    LowerStays(DTMF_PREFIX);
    SplitAtSeparator(DTMF_WORDS, ':', Lower(text));
    WordTokens();
  }

  lemma PrefixWordsAreNeutral()
    ensures "dtmf" !in YES_WORDS && "dtmf" !in NO_WORDS
    ensures "input" !in YES_WORDS && "input" !in NO_WORDS
  {
  }

  /** The prefix of key presses makes no difference, so it need not be cut off first. */
  lemma DtmfPrefixIsNeutral(text: string)
    ensures KeywordIntent(DTMF_PREFIX + text) == KeywordIntent(text)
  {
    PrefixTokens(text);
    PrefixWordsAreNeutral();
    NeutralWord("dtmf", ["input"] + SplitTokens(Lower(text)));
    NeutralWord("input", SplitTokens(Lower(text)));
  }

  /** How a reply is read under the configured mode. */
  function Decision(cfg: Config, text: string, llm: Intent): Intent {
    if !cfg.mode.Llm? && !KeywordIntent(text).Unclear? then KeywordIntent(text)
    else if cfg.mode.Llm? || (cfg.mode.Hybrid? && cfg.llmFallback) then llm
    else Unclear
  }

  predicate Gated(cfg: Config, name: string) {
    name in cfg.tools && cfg.tools[name]
  }

  datatype State = State(pending: map<Stream, Pending>, running: map<string, ToolCall>)

  const START := State(map[], map[])

  /** The first of the calls that needs a confirmation. */
  function FirstGated(cfg: Config, calls: seq<ToolCall>): Option<ToolCall> {
    if calls == [] then None
    else if Gated(cfg, calls[0].name) then Some(calls[0])
    else FirstGated(cfg, calls[1..])
  }

  function Running(running: map<string, ToolCall>, calls: seq<ToolCall>): map<string, ToolCall> {
    if calls == [] then running else Running(running, DropLast(calls))[Last(calls).id := Last(calls)]
  }

  function CallFrame(cfg: Config, stream: Stream, callSID: string, call: ToolCall): Output {
    CallTool(stream, callSID, call, Gated(cfg, call.name))
  }

  function CallFrames(cfg: Config, stream: Stream, callSID: string, calls: seq<ToolCall>): seq<Output> {
    if calls == [] then []
    else CallFrames(cfg, stream, callSID, DropLast(calls)) + [CallFrame(cfg, stream, callSID, Last(calls))]
  }

  /** The calls that an input makes the gate let through: confirmed ones and ungated ones. */
  function LetThrough(cfg: Config, s: State, e: Input): seq<ToolCall> {
    if !e.TextIn? then []
    else if e.stream in s.pending then
      if Decision(cfg, e.text, e.llm).Confirm? then [s.pending[e.stream].call] else []
    else if e.answer.Replied? && FirstGated(cfg, e.answer.calls).None? then e.answer.calls
    else []
  }

  function PendingAfter(cfg: Config, s: State, e: Input): map<Stream, Pending> {
    match e
    case TextIn(stream, callSID, text, llm, answer) =>
      if stream in s.pending then
        if Decision(cfg, text, llm).Unclear? then s.pending else s.pending - {stream}
      else if answer.Replied? && stream != "" then
        match FirstGated(cfg, answer.calls) {
          case Some(call) => s.pending[stream := Pending(call, callSID)]
          case None => s.pending
        }
      else s.pending
    case CallEnd(stream) => s.pending - {stream}
    case _ => s.pending
  }

  function Step(cfg: Config, s: State, e: Input): State {
    State(
      PendingAfter(cfg, s, e),
      if e.ToolResult? && e.callID != "" && e.result != "" then s.running - {e.callID}
      else Running(s.running, LetThrough(cfg, s, e)))
  }

  function CallBlock(cfg: Config, stream: Stream, callSID: string, calls: seq<ToolCall>): seq<Output> {
    [ThinkingStart] + CallFrames(cfg, stream, callSID, calls) + [ThinkingEnd]
  }

  function ReplyOutputs(cfg: Config, p: Pending, e: Input): seq<Output>
    requires e.TextIn?
  {
    match Decision(cfg, e.text, e.llm)
    case Confirm => CallBlock(cfg, e.stream, p.callSID, [p.call])
    case Cancel => [Cancelled(e.stream, p.callSID)]
    case Unclear => [Repeat(e.stream, p.callSID)]
  }

  function AnswerOutputs(cfg: Config, e: Input): seq<Output>
    requires e.TextIn?
  {
    match e.answer
    case Failed => [Interruption, Fallback]
    case Replied(handoff, calls, streamOk) =>
      [Interruption] + (if handoff then [Handoff] else []) +
      (if calls == [] then [if streamOk then Spoken else Fallback]
       else if FirstGated(cfg, calls).Some? then [Prompt(e.stream)]
       else CallBlock(cfg, e.stream, e.callSID, calls))
  }

  function Outputs(cfg: Config, s: State, e: Input): seq<Output> {
    match e
    case TextIn(stream, _, _, _, _) =>
      if stream in s.pending then ReplyOutputs(cfg, s.pending[stream], e) else AnswerOutputs(cfg, e)
    case _ => [Passed]
  }

  /** The state after the first `k` inputs. */
  function After(cfg: Config, inputs: seq<Input>, k: nat): State
    requires k <= |inputs|
  {
    if k == 0 then START else Step(cfg, After(cfg, inputs, k - 1), inputs[k - 1])
  }

  // The trace property.

  lemma {:induction false} FirstGatedIsGated(cfg: Config, calls: seq<ToolCall>)
    ensures FirstGated(cfg, calls).Some? ==>
      FirstGated(cfg, calls).value in calls && Gated(cfg, FirstGated(cfg, calls).value.name)
    ensures FirstGated(cfg, calls).None? ==> forall c :: c in calls ==> !Gated(cfg, c.name)
  {
    if calls == [] {
    } else {
      FirstGatedIsGated(cfg, calls[1..]);
      assert calls == [calls[0]] + calls[1..];
    }
  }

  lemma {:induction false} CallFrameComesFromCall(
    cfg: Config, stream: Stream, callSID: string, calls: seq<ToolCall>, o: Output)
    requires o in CallFrames(cfg, stream, callSID, calls)
    ensures o.CallTool? && o.call in calls && o.stream == stream && o.callSID == callSID
    ensures o.gated == Gated(cfg, o.call.name)
  {
    if o in CallFrames(cfg, stream, callSID, DropLast(calls)) {
      CallFrameComesFromCall(cfg, stream, callSID, DropLast(calls), o);
    }
  }

  /** Only calls of gated tools are ever stored. */
  lemma {:induction false} PendingIsGated(cfg: Config, inputs: seq<Input>, k: nat, stream: Stream)
    requires k <= |inputs| && stream in After(cfg, inputs, k).pending
    ensures Gated(cfg, After(cfg, inputs, k).pending[stream].call.name) && stream != ""
  {
    if k == 0 {
    } else {
      if stream in After(cfg, inputs, k - 1).pending {
        PendingIsGated(cfg, inputs, k - 1, stream);
      }
      var e := inputs[k - 1];
      if e.TextIn? && e.answer.Replied? {
        FirstGatedIsGated(cfg, e.answer.calls);
      }
    }
  }

  /** A tool call for a gated tool is emitted only for a confirming reply to a stored call. */
  lemma GatedCallNeedsReply(cfg: Config, s: State, e: Input, o: Output)
    requires o in Outputs(cfg, s, e) && o.CallTool? && Gated(cfg, o.call.name)
    ensures e.TextIn? && e.stream in s.pending && Decision(cfg, e.text, e.llm).Confirm?
    ensures o == CallTool(e.stream, s.pending[e.stream].callSID, s.pending[e.stream].call, true)
    ensures Outputs(cfg, s, e) == [ThinkingStart, o, ThinkingEnd]
    ensures Step(cfg, s, e).pending == s.pending - {e.stream}
  {
    if e.stream in s.pending {
      assert CallFrames(cfg, e.stream, s.pending[e.stream].callSID, []) == [];
      assert DropLast([s.pending[e.stream].call]) == [];
      assert CallFrames(cfg, e.stream, s.pending[e.stream].callSID, [s.pending[e.stream].call])
        == [CallFrame(cfg, e.stream, s.pending[e.stream].callSID, s.pending[e.stream].call)];
    } else {
      var calls := if e.answer.Replied? then e.answer.calls else [];
      FirstGatedIsGated(cfg, calls);
      assert o in CallFrames(cfg, e.stream, e.callSID, calls);
      CallFrameComesFromCall(cfg, e.stream, e.callSID, calls, o);
    }
  }

  /** A stored call is never replaced; it goes by a confirmation, a cancellation or the call's end. */
  lemma PendingStaysOrIsSettled(cfg: Config, s: State, e: Input, stream: Stream)
    requires stream in s.pending
    ensures stream in Step(cfg, s, e).pending ==> Step(cfg, s, e).pending[stream] == s.pending[stream]
    ensures stream !in Step(cfg, s, e).pending <==>
      e == CallEnd(stream) || (e.TextIn? && e.stream == stream && !Decision(cfg, e.text, e.llm).Unclear?)
  {
  }

  /** Input `i` made the gate ask about `p` on this stream. */
  ghost predicate StoredAt(cfg: Config, inputs: seq<Input>, i: nat, stream: Stream, p: Pending)
    requires i < |inputs|
  {
    var s := After(cfg, inputs, i);
    var e := inputs[i];
    && stream !in s.pending
    && e.TextIn? && e.stream == stream && e.callSID == p.callSID
    && e.answer.Replied? && FirstGated(cfg, e.answer.calls) == Some(p.call)
    && Prompt(stream) in Outputs(cfg, s, e)
  }

  /** `p` has been pending on the stream after every input from `i` to before `j`. */
  ghost predicate PendingFrom(cfg: Config, inputs: seq<Input>, i: nat, j: nat, stream: Stream, p: Pending)
    requires j <= |inputs|
  {
    forall k :: i < k <= j ==> IsPending(After(cfg, inputs, k), stream, p)
  }

  ghost predicate IsPending(s: State, stream: Stream, p: Pending) {
    stream in s.pending && s.pending[stream] == p
  }

  lemma {:induction false} PendingHasOrigin(cfg: Config, inputs: seq<Input>, j: nat, stream: Stream)
    returns (i: nat)
    requires j <= |inputs| && stream in After(cfg, inputs, j).pending
    ensures i < j
    ensures var p := After(cfg, inputs, j).pending[stream];
      StoredAt(cfg, inputs, i, stream, p) && PendingFrom(cfg, inputs, i, j, stream, p)
    decreases j
  {
    assert j > 0;
    var s := After(cfg, inputs, j - 1);
    var p := After(cfg, inputs, j).pending[stream];
    if stream in s.pending {
      PendingStaysOrIsSettled(cfg, s, inputs[j - 1], stream);
      i := PendingHasOrigin(cfg, inputs, j - 1, stream);
      PendingFromGrows(cfg, inputs, i, j, stream, p);
    } else {
      NewlyPending(cfg, s, inputs[j - 1], stream);
      i := j - 1;
      assert StoredAt(cfg, inputs, i, stream, p);
    }
  }

  lemma PendingFromGrows(cfg: Config, inputs: seq<Input>, i: nat, j: nat, stream: Stream, p: Pending)
    requires 0 < j <= |inputs| && PendingFrom(cfg, inputs, i, j - 1, stream, p)
    requires IsPending(After(cfg, inputs, j), stream, p)
    ensures PendingFrom(cfg, inputs, i, j, stream, p)
  {
  }

  lemma NewlyPending(cfg: Config, s: State, e: Input, stream: Stream)
    requires stream !in s.pending && stream in Step(cfg, s, e).pending
    ensures var p := Step(cfg, s, e).pending[stream];
      && e.TextIn? && e.stream == stream && e.callSID == p.callSID
      && e.answer.Replied? && FirstGated(cfg, e.answer.calls) == Some(p.call)
    ensures Prompt(stream) in Outputs(cfg, s, e)
  {
    assert e.answer.calls != [];
  }

  /** Input `j` makes the gate emit the tool call `o` for a gated tool. */
  ghost predicate CallsGated(cfg: Config, inputs: seq<Input>, j: nat, o: Output) {
    && j < |inputs| && o in Outputs(cfg, After(cfg, inputs, j), inputs[j])
    && o.CallTool? && Gated(cfg, o.call.name)
  }

  /** Input `j` is a confirming reply, and `i` made the request that it answers. */
  ghost predicate ConfirmsRequest(cfg: Config, inputs: seq<Input>, i: nat, j: nat, stream: Stream, p: Pending) {
    && i < j < |inputs|
    && inputs[j].TextIn? && inputs[j].stream == stream && Decision(cfg, inputs[j].text, inputs[j].llm).Confirm?
    && StoredAt(cfg, inputs, i, stream, p) && PendingFrom(cfg, inputs, i, j, stream, p)
  }

  /**
   * Over any run, a tool call for a gated tool answers exactly one earlier request on the
   * same stream for the same call, which has been pending ever since, and ends it.
   */
  lemma ToolCallConsumesOneRequest(cfg: Config, inputs: seq<Input>, j: nat, o: Output) returns (i: nat)
    requires CallsGated(cfg, inputs, j, o)
    ensures ConfirmsRequest(cfg, inputs, i, j, o.stream, Pending(o.call, o.callSID))
    ensures o.stream !in After(cfg, inputs, j + 1).pending
  {
    var s := After(cfg, inputs, j);
    GatedCallNeedsReply(cfg, s, inputs[j], o);
    i := PendingHasOrigin(cfg, inputs, j, o.stream);
  }

  lemma RequestStays(cfg: Config, inputs: seq<Input>, i: nat, j: nat, k: nat, stream: Stream, p: Pending)
    requires i < j <= k <= |inputs| && PendingFrom(cfg, inputs, i, k, stream, p)
    ensures stream in After(cfg, inputs, j).pending
  {
    assert IsPending(After(cfg, inputs, j), stream, p);
  }

  /** Two tool calls for gated tools never answer the same request. */
  lemma TwoToolCallsTwoRequests(cfg: Config, inputs: seq<Input>, j: nat, o: Output, k: nat, o': Output)
    returns (i: nat, i': nat)
    requires j < k && CallsGated(cfg, inputs, j, o) && CallsGated(cfg, inputs, k, o')
    ensures ConfirmsRequest(cfg, inputs, i, j, o.stream, Pending(o.call, o.callSID))
    ensures ConfirmsRequest(cfg, inputs, i', k, o'.stream, Pending(o'.call, o'.callSID))
    ensures i != i'
  {
    i := ToolCallConsumesOneRequest(cfg, inputs, j, o);
    i' := ToolCallConsumesOneRequest(cfg, inputs, k, o');
    if i' < j + 1 {
      RequestStays(cfg, inputs, i', j + 1, k, o'.stream, Pending(o'.call, o'.callSID));
    }
  }

  /** The processor's part that deals with tool calls. */
  class ToolGate {
    const cfg: Config
    var pendingConfirms: map<Stream, Pending>
    var pendingTools: map<string, ToolCall>

    function Abstract(): State
      reads this
    {
      State(pendingConfirms, pendingTools)
    }

    constructor (cfg: Config)
      ensures Abstract() == START && this.cfg == cfg
    {
      this.cfg := cfg;
      pendingConfirms := map[];
      pendingTools := map[];
    }

    method EmitToolCalls(stream: Stream, callSID: string, calls: seq<ToolCall>) returns (out: seq<Output>)
      modifies this`pendingTools
      ensures pendingTools == Running(old(pendingTools), calls)
      ensures out == CallFrames(cfg, stream, callSID, calls)
    {
      out := [];
      var i := 0;
      while i < |calls|
        invariant 0 <= i <= |calls|
        invariant pendingTools == Running(old(pendingTools), calls[..i])
        invariant out == CallFrames(cfg, stream, callSID, calls[..i])
      {
        assert DropLast(calls[..i + 1]) == calls[..i];
        pendingTools := pendingTools[calls[i].id := calls[i]];
        out := out + [CallFrame(cfg, stream, callSID, calls[i])];
        i := i + 1;
      }
      assert calls[..i] == calls;
    }

    /** A pending call makes every text a reply; the model is not asked to answer it. */
    method HandlePendingConfirmation(e: Input) returns (out: seq<Output>, handled: bool)
      requires e.TextIn?
      modifies this
      ensures handled == (e.stream in old(pendingConfirms))
      ensures handled ==>
        Abstract() == Step(cfg, old(Abstract()), e) && out == Outputs(cfg, old(Abstract()), e)
      ensures !handled ==> Abstract() == old(Abstract())
    {
      if e.stream !in pendingConfirms {
        return [], false;
      }
      var pending := pendingConfirms[e.stream];
      handled := true;
      var decision := Unclear;
      if !cfg.mode.Llm? {
        decision := KeywordIntent(e.text);
      }
      if decision.Unclear? && (cfg.mode.Llm? || (cfg.mode.Hybrid? && cfg.llmFallback)) {
        decision := e.llm;
      }
      match decision {
        case Confirm =>
          pendingConfirms := pendingConfirms - {e.stream};
          var frames := EmitToolCalls(e.stream, pending.callSID, [pending.call]);
          out := [ThinkingStart] + frames + [ThinkingEnd];
        case Cancel =>
          pendingConfirms := pendingConfirms - {e.stream};
          out := [Cancelled(e.stream, pending.callSID)];
        case Unclear =>
          out := [Repeat(e.stream, pending.callSID)];
      }
    }

    /** The first gated call is stored and asked about; without one all calls go out. */
    method HandleToolCalls(stream: Stream, callSID: string, calls: seq<ToolCall>) returns (out: seq<Output>)
      modifies this
      ensures match FirstGated(cfg, calls)
        case Some(call) =>
          && (stream == "" ==> pendingConfirms == old(pendingConfirms))
          && (stream != "" ==> pendingConfirms == old(pendingConfirms)[stream := Pending(call, callSID)])
          && pendingTools == old(pendingTools)
          && out == [Prompt(stream)]
        case None =>
          && pendingConfirms == old(pendingConfirms)
          && pendingTools == Running(old(pendingTools), calls)
          && out == CallBlock(cfg, stream, callSID, calls)
    {
      var i := 0;
      while i < |calls|
        invariant 0 <= i <= |calls|
        invariant FirstGated(cfg, calls) == FirstGated(cfg, calls[i..])
      {
        if Gated(cfg, calls[i].name) {
          if stream != "" {
            pendingConfirms := pendingConfirms[stream := Pending(calls[i], callSID)];
          }
          return [Prompt(stream)];
        }
        assert calls[i..][1..] == calls[i + 1..];
        i := i + 1;
      }
      var frames := EmitToolCalls(stream, callSID, calls);
      out := [ThinkingStart] + frames + [ThinkingEnd];
    }

    method ProcessText(e: Input) returns (out: seq<Output>)
      requires e.TextIn?
      modifies this
      ensures Abstract() == Step(cfg, old(Abstract()), e)
      ensures out == Outputs(cfg, old(Abstract()), e)
    {
      var reply, handled := HandlePendingConfirmation(e);
      if handled {
        return reply;
      }
      out := [Interruption];
      if e.answer.Failed? {
        return out + [Fallback];
      }
      if e.answer.handoff {
        out := out + [Handoff];
      }
      if e.answer.calls != [] {
        var frames := HandleToolCalls(e.stream, e.callSID, e.answer.calls);
        return out + frames;
      }
      out := out + [if e.answer.streamOk then Spoken else Fallback];
    }

    method Process(e: Input) returns (out: seq<Output>)
      modifies this
      ensures Abstract() == Step(cfg, old(Abstract()), e)
      ensures out == Outputs(cfg, old(Abstract()), e)
    {
      match e {
        case TextIn(_, _, _, _, _) =>
          out := ProcessText(e);
        case ToolResult(callID, result) =>
          if callID != "" && result != "" {
            pendingTools := pendingTools - {callID};
          }
          out := [Passed];
        case CallEnd(stream) =>
          pendingConfirms := pendingConfirms - {stream};
          out := [Passed];
        case Other =>
          out := [Passed];
      }
    }
  }
}
