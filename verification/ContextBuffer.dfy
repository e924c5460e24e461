/**
 * The speculative transcript buffer of pkg/processors/context_buffer.go. A character stands
 * for one byte. The flush handler does not call back into the buffer; its answer at each
 * call is a parameter, and a missing handler behaves like one that accepts everything.
 */
module ContextBuffer {
  import opened Base
  import opened Counting
  import opened TurnFsm
  import TurnInterleaving

  datatype Buffer = Buffer(text: string, interim: string)

  /** A limit that is not positive is replaced by 10000. */
  function EffectiveLimit(configured: int): (n: nat)
    ensures n > 0
  {
    if configured <= 0 then 10000 else configured
  }

  /** What a flush hands over: the buffered finals, or else the last interim. */
  function ContentOf(b: Buffer): string {
    if b.text != "" then b.text else b.interim
  }

  function Flushed(b: Buffer, accepts: bool): Buffer {
    Buffer(if accepts then "" else b.text, if b.text == "" then "" else b.interim)
  }

  function FinalAdded(max: nat, b: Buffer, text: string, accepts: bool): Buffer {
    var b' := Buffer(b.text + text + " ", "");
    if |b'.text| > max then Flushed(b', accepts) else b'
  }

  /** The object itself; `call` tells what the handler was called with, if it was. */
  class SpeculativeBuffer {
    const maxBufferSize: nat
    const hasHandler: bool
    var buffer: string
    var lastInterim: string

    function Contents(): Buffer
      reads this
    {
      Buffer(buffer, lastInterim)
    }

    constructor (configuredLimit: int, handler: bool)
      ensures maxBufferSize == (if configuredLimit > 0 then configuredLimit else 10000) && hasHandler == handler
      ensures Contents() == Buffer("", "")
    {
      maxBufferSize := EffectiveLimit(configuredLimit);
      hasHandler := handler;
      buffer, lastInterim := "", "";
    }

    method Flush(accepts: bool) returns (call: Option<string>)
      modifies this
      ensures Contents() == Flushed(old(Contents()), accepts || !hasHandler)
      ensures call == if hasHandler && ContentOf(old(Contents())) != "" then Some(ContentOf(old(Contents()))) else None
    {
      call := None;
      var content := buffer;
      if content == "" && lastInterim != "" {
        content := lastInterim;
        lastInterim := "";
      }
      if |content| == 0 {
        return;
      }
      if hasHandler {
        call := Some(content);
        if !accepts {
          return;
        }
      }
      buffer := "";
    }

    method AddTranscript(text: string, isFinal: bool, accepts: bool) returns (call: Option<string>)
      modifies this
      ensures isFinal ==> Contents() == FinalAdded(maxBufferSize, old(Contents()), text, accepts || !hasHandler)
      ensures !isFinal ==> Contents() == Buffer(old(buffer), text)
      ensures var whole := old(buffer) + text + " ";
        call == if isFinal && hasHandler && |whole| > maxBufferSize then Some(whole) else None
    {
      call := None;
      if isFinal {
        buffer := buffer + text + " ";
        lastInterim := "";
        if |buffer| > maxBufferSize {
          call := Flush(accepts);
        }
      } else {
        lastInterim := text;
      }
    }

    /** Hearing of a transition: only the caller's end of turn flushes. */
    method OnStateChange(edge: Edge, accepts: bool) returns (call: Option<string>)
      modifies this
      ensures Contents() == RunFrom(maxBufferSize, old(Contents()), CallsOn(edge, accepts || !hasHandler))
      ensures call == if FlushesOn(edge) && hasHandler && ContentOf(old(Contents())) != ""
                      then Some(ContentOf(old(Contents()))) else None
    {
      assert RunFrom(maxBufferSize, Contents(), []) == Contents();
      assert DropLast([Event.Flush(accepts || !hasHandler)]) == [];
      call := None;
      if edge.source == Listening && edge.target == Thinking {
        call := Flush(accepts);
      }
    }

    method Reset()
      modifies this
      ensures Contents() == Buffer("", "")
    {
      buffer, lastInterim := "", "";
    }
  }

  /** One locked call, with the handler's answer should it be asked. */
  datatype Event =
    | Final(text: string, accepts: bool)
    | Interim(text: string)
    | Flush(accepts: bool)
    | Reset

  function Step(max: nat, b: Buffer, e: Event): Buffer {
    match e
    case Final(text, accepts) => FinalAdded(max, b, text, accepts)
    case Interim(text) => b.(interim := text)
    case Flush(accepts) => Flushed(b, accepts)
    case Reset => Buffer("", "")
  }

  function RunFrom(max: nat, b: Buffer, events: seq<Event>): Buffer {
    if events == [] then b else Step(max, RunFrom(max, b, DropLast(events)), Last(events))
  }

  function Exec(max: nat, events: seq<Event>): Buffer {
    RunFrom(max, Buffer("", ""), events)
  }

  predicate FlushesOn(edge: Edge) {
    edge.source == Listening && edge.target == Thinking
  }

  /** The calls that a buffer makes on itself when it hears of a transition. */
  function CallsOn(edge: Edge, accepts: bool): seq<Event> {
    if FlushesOn(edge) then [Flush(accepts)] else []
  }

  /** The same for all it has heard; `answers(i)` is the handler's answer at the i-th edge. */
  function CallsOnAll(heard: seq<Edge>, answers: nat -> bool): seq<Event> {
    if heard == [] then []
    else CallsOnAll(DropLast(heard), answers) + CallsOn(Last(heard), answers(|heard| - 1))
  }

  lemma {:induction false} FlushCallsCountEdges(heard: seq<Edge>, answers: nat -> bool)
    ensures |CallsOnAll(heard, answers)| == CountOf(heard, TurnInterleaving.END_OF_CALLER_TURN)
    ensures forall e :: e in CallsOnAll(heard, answers) ==> e.Flush?
  {
    if heard == [] {
    } else {
      FlushCallsCountEdges(DropLast(heard), answers);
    }
  }

  /**
   * A transcript buffer registered as listener `k` calls Flush exactly once for each LISTENING
   * to THINKING edge since it was registered, under every interleaving, once all are told.
   */
  lemma FlushedOncePerTurn(threads: nat, events: seq<TurnInterleaving.Event>, k: nat, answers: nat -> bool)
    requires TurnInterleaving.Exec(threads, events).Some?
    requires var s := TurnInterleaving.Exec(threads, events).value;
      k < |s.heard| && forall t :: 0 <= t < |s.at| ==> !s.at[t].Notifying?
    ensures var s := TurnInterleaving.Exec(threads, events).value;
      && k < |s.joined| && s.joined[k] <= |s.edges|
      && |CallsOnAll(s.heard[k], answers)| == CountOf(s.edges[s.joined[k]..], TurnInterleaving.END_OF_CALLER_TURN)
      && (forall e :: e in CallsOnAll(s.heard[k], answers) ==> e.Flush?)
  {
    TurnInterleaving.OneFlushPerTurn(threads, events, k);
    FlushCallsCountEdges(TurnInterleaving.Exec(threads, events).value.heard[k], answers);
  }

  /** What the handler is called with at this event, if it is. */
  function CalledWith(max: nat, b: Buffer, e: Event): Option<string> {
    match e
    case Final(text, _) => if |b.text + text + " "| > max then Some(b.text + text + " ") else None
    case Flush(_) => if ContentOf(b) != "" then Some(ContentOf(b)) else None
    case _ => None
  }

  /** The handler is called when a final makes the buffer too long, or by a flush with anything to hand over. */
  lemma HandlerCalledIff(max: nat, b: Buffer, e: Event)
    ensures CalledWith(max, b, e).Some? <==>
      || (e.Final? && |b.text| + |e.text| + 1 > max)
      || (e.Flush? && (b.text != "" || b.interim != ""))
    ensures CalledWith(max, b, e).Some? ==>
      CalledWith(max, b, e).value
      == if e.Final? then b.text + e.text + " " else if b.text != "" then b.text else b.interim
  {
  }

  /** The handler is called with an interim. */
  predicate UsesInterim(b: Buffer, e: Event) {
    e.Flush? && b.text == "" && b.interim != ""
  }

  /** The buffered finals that this event hands over with success, or that a reset discards. */
  function Leaving(max: nat, b: Buffer, e: Event): string {
    if e.Reset? then b.text
    else if (e.Final? || e.Flush?) && e.accepts && CalledWith(max, b, e).Some? && !UsesInterim(b, e)
    then CalledWith(max, b, e).value
    else ""
  }

  function AllLeft(max: nat, events: seq<Event>): string {
    if events == [] then ""
    else AllLeft(max, DropLast(events)) + Leaving(max, Exec(max, DropLast(events)), Last(events))
  }

  /** The final transcripts of a run, each followed by a space. */
  function Finals(events: seq<Event>): string {
    if events == [] then ""
    else Finals(DropLast(events)) + (if Last(events).Final? then Last(events).text + " " else "")
  }

  lemma StepConserves(max: nat, b: Buffer, e: Event)
    ensures Leaving(max, b, e) + Step(max, b, e).text == b.text + (if e.Final? then e.text + " " else "")
  {
    if e.Final? {
      assert b.text + e.text + " " == b.text + (e.text + " ");
    }
  }

  /**
   * No word is lost, repeated or reordered: what was handed over (or discarded by a reset)
   * followed by what is still buffered is what was said, whatever the handler answers.
   */
  lemma {:induction false} TranscriptConserved(max: nat, events: seq<Event>)
    ensures AllLeft(max, events) + Exec(max, events).text == Finals(events)
  {
    if events == [] {
    } else {
      var before, e := DropLast(events), Last(events);
      TranscriptConserved(max, before);
      StepConserves(max, Exec(max, before), e);
      Regroup(AllLeft(max, before), Leaving(max, Exec(max, before), e), Exec(max, events).text);
      Regroup(AllLeft(max, before), Exec(max, before).text, if e.Final? then e.text + " " else "");
    }
  }

  lemma Regroup(a: string, b: string, c: string)
    ensures (a + b) + c == a + (b + c)
  {
  }

  /** Event `k` is the interim that the buffer remembers: no final came since, nor was it used. */
  ghost predicate Remembers(max: nat, events: seq<Event>, k: nat, text: string) {
    && k < |events| && events[k] == Interim(text)
    && (forall j :: k < j < |events| ==> LeavesInterim(max, events, j))
  }

  ghost predicate LeavesInterim(max: nat, events: seq<Event>, j: nat)
    requires j < |events|
  {
    events[j].Flush? && !UsesInterim(Exec(max, events[..j]), events[j])
  }

  lemma {:induction false} InterimOrigin(max: nat, events: seq<Event>) returns (k: nat)
    requires Exec(max, events).interim != ""
    ensures Remembers(max, events, k, Exec(max, events).interim)
  {
    assert events != [];
    if Last(events).Interim? {
      k := |events| - 1;
    } else {
      var before := DropLast(events);
      assert Last(events).Flush?;
      k := InterimOrigin(max, before);
      forall j | k < j < |events|
        ensures LeavesInterim(max, events, j)
      {
        if j < |before| {
          assert LeavesInterim(max, before, j);
          assert events[..j] == before[..j];
        } else {
          assert events[..j] == before;
        }
      }
    }
  }

  /** The converse: an interim that nothing has replaced or used is still there. */
  lemma {:induction false} InterimIsKept(max: nat, events: seq<Event>, k: nat, text: string)
    requires Remembers(max, events, k, text)
    ensures Exec(max, events).interim == text
  {
    if k == |events| - 1 {
    } else {
      var before := DropLast(events);
      forall j | k < j < |before|
        ensures LeavesInterim(max, before, j)
      {
        assert LeavesInterim(max, events, j) && events[..j] == before[..j];
      }
      InterimIsKept(max, before, k, text);
      assert LeavesInterim(max, events, |before|) && events[..|before|] == before;
    }
  }

  /**
   * An interim is handed over only while no final is buffered and no later final has come,
   * and not a second time: between two such calls there is a newer interim, the one that the
   * second call hands over.
   */
  lemma InterimsAreUsedOnce(max: nat, events: seq<Event>, i: nat, j: nat) returns (k: nat)
    requires i < j < |events|
    requires UsesInterim(Exec(max, events[..i]), events[i]) && UsesInterim(Exec(max, events[..j]), events[j])
    ensures i < k < j && events[k] == Interim(Exec(max, events[..j]).interim)
    ensures forall m :: k < m < j ==> !events[m].Final?
  {
    var before := events[..j];
    k := InterimOrigin(max, before);
    assert before[i] == events[i] && before[..i] == events[..i];
    assert !LeavesInterim(max, before, i);
    forall m | k < m < j
      ensures !events[m].Final?
    {
      assert LeavesInterim(max, before, m) && before[m] == events[m];
    }
  }

  /** After a final the buffer is within its limit, or the handler has just refused it. */
  lemma FinalWithinLimit(max: nat, events: seq<Event>)
    requires events != [] && Last(events).Final?
    ensures var before, after := Exec(max, DropLast(events)), Exec(max, events);
      || |after.text| <= max
      || (!Last(events).accepts && CalledWith(max, before, Last(events)) == Some(after.text))
  {
    var b := Exec(max, DropLast(events));
    if Last(events).accepts {
      assert Flushed(Buffer(b.text + Last(events).text + " ", ""), true).text == "";
    }
  }

  /** The handler has refused finals, and none have left the buffer since. */
  ghost predicate RefusedAt(max: nat, events: seq<Event>, k: nat) {
    && k < |events| && events[k].Final? && !events[k].accepts
    && CalledWith(max, Exec(max, events[..k]), events[k]).Some?
    && (forall j :: k < j < |events| ==>
      !events[j].Reset? && !(events[j].Flush? && events[j].accepts) && !events[j].Final?)
  }

  /** The buffer exceeds its limit only since a final whose flush the handler refused. */
  lemma {:induction false} OverfullMeansRefused(max: nat, events: seq<Event>) returns (k: nat)
    requires |Exec(max, events).text| > max
    ensures RefusedAt(max, events, k)
  {
    assert events != [];
    var before := DropLast(events);
    if Last(events).Final? {
      k := |events| - 1;
      FinalWithinLimit(max, events);
      assert events[..k] == before;
    } else {
      k := OverfullMeansRefused(max, before);
      assert events[..k] == before[..k];
    }
  }

  /** The run goes on with flushes that the handler refuses, and nothing else. */
  predicate Refusals(events: seq<Event>) {
    forall i :: 0 <= i < |events| ==> events[i] == Flush(false)
  }

  lemma {:induction false} RefusedFinalsStay(max: nat, b: Buffer, later: seq<Event>)
    requires Refusals(later)
    ensures b.text != "" ==> RunFrom(max, b, later) == b
    ensures b.text == "" && later != [] ==> RunFrom(max, b, later) == Buffer("", "")
    ensures later == [] ==> RunFrom(max, b, later) == b
  {
    if later == [] {
    } else {
      RefusedFinalsStay(max, b, DropLast(later));
    }
  }

  /**
   * After refused flushes another one offers the same content again exactly if that is
   * buffered finals or nothing at all: an interim that the handler refuses is lost.
   */
  lemma RetryOffersSameIff(max: nat, events: seq<Event>, later: seq<Event>, accepts: bool)
    requires later != [] && Refusals(later)
    ensures var first, again := Exec(max, events), Exec(max, events + later);
      CalledWith(max, again, Flush(accepts)) == CalledWith(max, first, Flush(accepts)) <==>
        !UsesInterim(first, Flush(accepts))
  {
    RunAppend(max, Buffer("", ""), events, later);
    RefusedFinalsStay(max, Exec(max, events), later);
  }

  lemma {:induction false} RunAppend(max: nat, b: Buffer, events: seq<Event>, later: seq<Event>)
    ensures RunFrom(max, b, events + later) == RunFrom(max, RunFrom(max, b, events), later)
  {
    if later == [] {
      assert events + later == events;
    } else {
      assert DropLast(events + later) == events + DropLast(later);
      RunAppend(max, b, events, DropLast(later));
    }
  }
}
