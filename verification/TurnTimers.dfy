/**
 * The reprompt timer of pkg/processors/manager.go. Each locked section of the processor is
 * one step. A timer callback that has been started runs even if the timer is stopped or
 * replaced before the callback gets the lock.
 */
module SilenceReprompt {
  import opened Base

  /** A configuration that is not positive is replaced by 2 attempts. */
  function EffectiveAttempts(configured: int): (n: nat)
    ensures n > 0
  {
    if configured <= 0 then 2 else configured
  }

  /** A prompt timer asks again on its stream; a rearm timer only starts a new prompt timer. */
  datatype Timer = Prompt(stream: string) | Rearm

  datatype Status = Armed | Stopped | InFlight | Done

  datatype Slot = Slot(timer: Timer, status: Status)

  /**
   * `attempts` are the numbers of the reprompts generated since the last reset, and `asked`
   * the streams of all reprompts ever generated.
   */
  datatype State = State(
    lastID: string,
    count: nat,
    current: Option<nat>,
    slots: seq<Slot>,
    attempts: seq<nat>,
    asked: seq<string>)

  datatype Event =
    | SetStream(stream: string)
    | StartTimer
    | Reset
    | Fire(i: nat)
    | RunCallback(i: nat)

  const INITIAL := State("", 0, None, [], [], [])

  predicate Enabled(s: State, e: Event) {
    match e
    case Fire(i) => i < |s.slots| && s.slots[i].status.Armed?
    case RunCallback(i) => i < |s.slots| && s.slots[i].status.InFlight?
    case SetStream(stream) => stream != ""
    case _ => true
  }

  function StopCurrent(s: State): seq<Slot> {
    if s.current.Some? && s.current.value < |s.slots| && s.slots[s.current.value].status.Armed?
    then s.slots[s.current.value := s.slots[s.current.value].(status := Stopped)]
    else s.slots
  }

  function Start(s: State): State {
    s.(slots := StopCurrent(s) + [Slot(Prompt(s.lastID), Armed)], current := Some(|s.slots|))
  }

  /** The prompt callback: it counts, asks, and rearms unless it was the last attempt. */
  function Reprompt(max: nat, s: State, stream: string): State {
    if stream == "" || s.count >= max then s
    else
      var s' := s.(count := s.count + 1, attempts := s.attempts + [s.count + 1], asked := s.asked + [stream]);
      if s'.count < max then s'.(slots := s.slots + [Slot(Rearm, Armed)], current := Some(|s.slots|)) else s'
  }

  function Step(max: nat, s: State, e: Event): State
    requires Enabled(s, e)
  {
    match e
    case SetStream(stream) => s.(lastID := stream)
    case StartTimer => Start(s)
    case Reset => s.(slots := StopCurrent(s), current := None, count := 0, attempts := [])
    case Fire(i) => s.(slots := s.slots[i := s.slots[i].(status := InFlight)])
    case RunCallback(i) =>
      var s' := s.(slots := s.slots[i := s.slots[i].(status := Done)]);
      match s.slots[i].timer {
        case Prompt(stream) => Reprompt(max, s', stream)
        case Rearm => Start(s')
      }
  }

  /** Where the events lead from a state, or None when some event of them was not possible. */
  function RunFrom(max: nat, s: State, events: seq<Event>): Option<State> {
    if events == [] then Some(s)
    else
      var before := RunFrom(max, s, DropLast(events));
      if before.Some? && Enabled(before.value, Last(events)) then Some(Step(max, before.value, Last(events))) else None
  }

  function Exec(configured: int, events: seq<Event>): Option<State> {
    RunFrom(EffectiveAttempts(configured), INITIAL, events)
  }

  ghost predicate Inv(max: nat, s: State) {
    && s.count <= max
    && |s.attempts| == s.count
    && (forall k :: 0 <= k < |s.attempts| ==> s.attempts[k] == k + 1)
  }

  lemma {:induction false} RunKeepsInv(max: nat, s: State, events: seq<Event>)
    requires Inv(max, s) && RunFrom(max, s, events).Some?
    ensures Inv(max, RunFrom(max, s, events).value)
  {
    if events == [] {
    } else {
      RunKeepsInv(max, s, DropLast(events));
    }
  }

  /**
   * However many callbacks are in flight, the reprompts between two resets are numbered 1,
   * 2, 3 and so on without repeat or gap, and there are at most as many as configured.
   */
  lemma AttemptsAreNumbered(configured: int, events: seq<Event>)
    requires Exec(configured, events).Some?
    ensures var s := Exec(configured, events).value;
      && |s.attempts| == s.count <= (if configured > 0 then configured else 2)
      && (forall k :: 0 <= k < |s.attempts| ==> s.attempts[k] == k + 1)
  {
    RunKeepsInv(EffectiveAttempts(configured), INITIAL, events);
  }

  /** Starting a timer stops the field's timer if it is armed, and arms a new one for the last stream. */
  lemma StartInSteps(max: nat, s: State)
    ensures var s' := Step(max, s, StartTimer);
      && StoppedCurrent(s, s'.slots) && s'.slots[|s.slots|..] == [Slot(Prompt(s.lastID), Armed)]
      && s'.current == Some(|s.slots|) && s'.attempts == s.attempts && s'.asked == s.asked && s'.count == s.count
  {
  }

  /** A reset stops it as well, and forgets the timer and the attempts. */
  lemma ResetInSteps(max: nat, s: State)
    ensures var s' := Step(max, s, Reset);
      && StoppedCurrent(s, s'.slots) && |s'.slots| == |s.slots|
      && s'.current == None && s'.attempts == [] && s'.count == 0 && s'.asked == s.asked
  {
  }

  /** The field's timer is stopped if it is armed; no other timer changes. */
  ghost predicate StoppedCurrent(s: State, slots: seq<Slot>) {
    && |slots| >= |s.slots|
    && (forall i :: 0 <= i < |s.slots| ==>
      slots[i] == if s.current == Some(i) && s.slots[i].status == Armed
                  then Slot(s.slots[i].timer, Stopped) else s.slots[i])
  }

  /**
   * The callback of a prompt timer asks unless the attempts are used up, and arms a timer for
   * the next attempt exactly if one is left.
   */
  lemma PromptInSteps(configured: int, s: State, i: nat, stream: string)
    requires i < |s.slots| && s.slots[i] == Slot(Prompt(stream), InFlight)
    ensures var max := if configured > 0 then configured else 2;
      var s' := Step(EffectiveAttempts(configured), s, RunCallback(i));
      if stream == "" || s.count >= max then
        s' == s.(slots := s.slots[i := Slot(Prompt(stream), Done)])
      else
        && s'.asked == s.asked + [stream] && s'.attempts == s.attempts + [s.count + 1] && s'.count == s.count + 1
        && s'.lastID == s.lastID
        && s'.slots == s.slots[i := Slot(Prompt(stream), Done)]
                     + (if s.count + 1 < max then [Slot(Rearm, Armed)] else [])
        && s'.current == if s.count + 1 < max then Some(|s.slots|) else s.current
  {
  }

  /** The callback of this timer can lead to a reprompt, at once or by starting a prompt timer. */
  predicate CanAsk(timer: Timer) {
    timer.Rearm? || timer.stream != ""
  }

  /**
   * A reset does not reach this timer: its callback is in flight already, or it is armed but
   * the processor's field refers to another timer, or to none.
   */
  predicate Survives(s: State, i: nat) {
    && i < |s.slots| && CanAsk(s.slots[i].timer)
    && (s.slots[i].status.InFlight? || (s.slots[i].status.Armed? && s.current != Some(i)))
  }

  /** The events generate a reprompt although none of them starts a timer. */
  ghost predicate AsksUnstarted(max: nat, s: State, events: seq<Event>) {
    && StartTimer !in events
    && RunFrom(max, s, events).Some? && RunFrom(max, s, events).value.asked != s.asked
  }

  /** No live timer can ask. */
  ghost predicate Mute(s: State) {
    forall i :: 0 <= i < |s.slots| && (s.slots[i].status.InFlight? || s.slots[i].status.Armed?) ==>
      !CanAsk(s.slots[i].timer)
  }

  lemma MuteStep(max: nat, s: State, e: Event)
    requires Mute(s) && !e.StartTimer? && Enabled(s, e)
    ensures Mute(Step(max, s, e)) && Step(max, s, e).asked == s.asked
  {
  }

  lemma {:induction false} MuteStaysSilent(max: nat, s: State, events: seq<Event>)
    requires Mute(s) && StartTimer !in events && RunFrom(max, s, events).Some?
    ensures Mute(RunFrom(max, s, events).value) && RunFrom(max, s, events).value.asked == s.asked
  {
    if events == [] {
    } else {
      assert Last(events) in events;
      MuteStaysSilent(max, s, DropLast(events));
      MuteStep(max, RunFrom(max, s, DropLast(events)).value, Last(events));
    }
  }

  lemma RunSnoc(max: nat, s: State, events: seq<Event>, e: Event)
    requires RunFrom(max, s, events).Some? && Enabled(RunFrom(max, s, events).value, e)
    ensures RunFrom(max, s, events + [e]) == Some(Step(max, RunFrom(max, s, events).value, e))
  {
    assert DropLast(events + [e]) == events;
  }

  /** A prompt timer that has fired asks. */
  lemma FiredPromptAsks(max: nat, s: State, events: seq<Event>, i: nat)
    requires StartTimer !in events && RunFrom(max, s, events).Some?
    requires var s' := RunFrom(max, s, events).value;
      && s'.count < max && s'.asked == s.asked
      && i < |s'.slots| && s'.slots[i].status.InFlight? && s'.slots[i].timer.Prompt? && s'.slots[i].timer.stream != ""
    ensures AsksUnstarted(max, s, events + [RunCallback(i)])
  {
    RunSnoc(max, s, events, RunCallback(i));
  }

  /** A rearm timer that has fired starts a prompt timer, which fires and asks. */
  lemma FiredRearmAsks(max: nat, s: State, events: seq<Event>, i: nat)
    requires StartTimer !in events && RunFrom(max, s, events).Some?
    requires var s' := RunFrom(max, s, events).value;
      && s'.count < max && s'.asked == s.asked
      && i < |s'.slots| && s'.slots[i].status.InFlight? && s'.slots[i].timer.Rearm?
    ensures exists run :: AsksUnstarted(max, s, run)
  {
    var n := |RunFrom(max, s, events).value.slots|;
    var named := events + [SetStream("s")];
    RunSnoc(max, s, events, SetStream("s"));
    var started := named + [RunCallback(i)];
    RunSnoc(max, s, named, RunCallback(i));
    assert RunFrom(max, s, started).value.slots[n] == Slot(Prompt("s"), Armed);
    var fired := started + [Fire(n)];
    RunSnoc(max, s, started, Fire(n));
    FiredPromptAsks(max, s, fired, n);
  }

  lemma SurvivorAsks(max: nat, s: State, i: nat)
    requires max > 0 && Survives(s, i)
    ensures exists run :: AsksUnstarted(max, Step(max, s, Reset), run)
  {
    var s' := Step(max, s, Reset);
    assert s'.slots[i] == s.slots[i];
    var run := if s.slots[i].status.Armed? then [Fire(i)] else [];
    assert DropLast([Fire(i)]) == [];
    assert RunFrom(max, s', run).Some? && RunFrom(max, s', run).value.slots[i].status.InFlight?;
    if s.slots[i].timer.Prompt? {
      FiredPromptAsks(max, s', run, i);
    } else {
      FiredRearmAsks(max, s', run, i);
    }
  }

  /**
   * When a reset is not the end of it: after a reset, and before a timer is started anew, a
   * reprompt can be generated exactly if some timer survives the reset.
   */
  lemma RepromptAfterResetIff(configured: int, s: State)
    ensures var max := EffectiveAttempts(configured);
      (exists run :: AsksUnstarted(max, Step(max, s, Reset), run)) <==> (exists i :: Survives(s, i))
  {
    var max := EffectiveAttempts(configured);
    var s' := Step(max, s, Reset);
    if i :| Survives(s, i) {
      SurvivorAsks(max, s, i);
    } else {
      assert Mute(s') by {
        forall i | 0 <= i < |s'.slots| && (s'.slots[i].status.InFlight? || s'.slots[i].status.Armed?)
          ensures !CanAsk(s'.slots[i].timer)
        {
          assert !Survives(s, i);
        }
      }
      forall run | AsksUnstarted(max, s', run)
        ensures false
      {
        MuteStaysSilent(max, s', run);
      }
    }
  }

  /** A run that leads to a survivor in flight: it asks again after the reset. */
  lemma StaleRepromptAfterReset()
    ensures var run := [SetStream("s"), StartTimer, Fire(0), Reset, RunCallback(0)];
      Exec(2, run).Some? && Exec(2, run).value.attempts == [1]
  {
    var begin := [SetStream("s"), StartTimer, Fire(0)];
    var s3 := TimerFired();
    var s4 := Step(2, s3, Reset);
    RunSnoc(2, INITIAL, begin, Reset);
    assert s4.slots == s3.slots && s4.attempts == [];
    RunSnoc(2, INITIAL, begin + [Reset], RunCallback(0));
    assert Step(2, s4, RunCallback(0)).attempts == [1];
    assert [SetStream("s"), StartTimer, Fire(0), Reset, RunCallback(0)] == begin + [Reset] + [RunCallback(0)];
  }

  lemma TimerFired() returns (s: State)
    ensures Exec(2, [SetStream("s"), StartTimer, Fire(0)]) == Some(s)
    ensures s.lastID == "s" && s.count == 0 && s.current == Some(0)
    ensures s.slots == [Slot(Prompt("s"), InFlight)] && s.attempts == []
  {
    var s2 := TimerStarted();
    s := Step(2, s2, Fire(0));
    RunSnoc(2, INITIAL, [SetStream("s"), StartTimer], Fire(0));
    assert [SetStream("s"), StartTimer, Fire(0)] == [SetStream("s"), StartTimer] + [Fire(0)];
    assert s.slots == [Slot(Prompt("s"), InFlight)];
  }

  lemma TimerStarted() returns (s: State)
    ensures Exec(2, [SetStream("s"), StartTimer]) == Some(s)
    ensures s.lastID == "s" && s.count == 0 && s.current == Some(0)
    ensures s.slots == [Slot(Prompt("s"), Armed)] && s.attempts == []
  {
    var s1 := Step(2, INITIAL, SetStream("s"));
    RunSnoc(2, INITIAL, [], SetStream("s"));
    assert [] + [SetStream("s")] == [SetStream("s")];
    s := Step(2, s1, StartTimer);
    RunSnoc(2, INITIAL, [SetStream("s")], StartTimer);
    assert [SetStream("s")] + [StartTimer] == [SetStream("s"), StartTimer];
    assert s.slots == [Slot(Prompt("s"), Armed)];
  }

  lemma TimerReplaced() returns (s: State)
    ensures Exec(2, [SetStream("s"), StartTimer, Fire(0), StartTimer]) == Some(s)
    ensures s.lastID == "s" && s.count == 0 && s.current == Some(1)
    ensures s.slots == [Slot(Prompt("s"), InFlight), Slot(Prompt("s"), Armed)]
  {
    var begin := [SetStream("s"), StartTimer, Fire(0)];
    var s3 := TimerFired();
    s := Step(2, s3, StartTimer);
    RunSnoc(2, INITIAL, begin, StartTimer);
    assert s.slots == [Slot(Prompt("s"), InFlight), Slot(Prompt("s"), Armed)];
    assert [SetStream("s"), StartTimer, Fire(0), StartTimer] == begin + [StartTimer];
  }

  /**
   * A run that leads to a survivor with no callback in flight: the rearming callback of a
   * replaced timer overwrites the field while a newer timer is armed.
   */
  lemma OrphanedTimer()
    ensures var run := [SetStream("s"), StartTimer, Fire(0), StartTimer, RunCallback(0)];
      && Exec(2, run).Some?
      && Survives(Exec(2, run).value, 1)
      && (forall i :: 0 <= i < |Exec(2, run).value.slots| ==> !Exec(2, run).value.slots[i].status.InFlight?)
  {
    var begin := [SetStream("s"), StartTimer, Fire(0), StartTimer];
    var s4 := TimerReplaced();
    var s5 := Step(2, s4, RunCallback(0));
    RunSnoc(2, INITIAL, begin, RunCallback(0));
    assert s5.slots == [Slot(Prompt("s"), Done), Slot(Prompt("s"), Armed), Slot(Rearm, Armed)] && s5.current == Some(2);
    assert [SetStream("s"), StartTimer, Fire(0), StartTimer, RunCallback(0)]
        == begin + [RunCallback(0)];
  }
}

/** The end-of-turn timer of the same processor. */
module EndOfTurn {
  import opened Base

  datatype Status = Armed | Stopped | InFlight | Done

  datatype Window = Window(stream: string, status: Status)

  /** `stream` is the processor's field, and `current` the window its timer field refers to. */
  datatype State = State(stream: string, current: Option<nat>, windows: seq<Window>, timeouts: seq<string>)

  datatype Event =
    | Open(stream: string)
    | Stop
    | Fire(i: nat)
    | RunCallback(i: nat)

  const INITIAL := State("", None, [], [])

  predicate Enabled(s: State, e: Event) {
    match e
    case Fire(i) => i < |s.windows| && s.windows[i].status.Armed?
    case RunCallback(i) => i < |s.windows| && s.windows[i].status.InFlight?
    case _ => true
  }

  function StopCurrent(s: State): seq<Window> {
    if s.current.Some? && s.current.value < |s.windows| && s.windows[s.current.value].status.Armed?
    then s.windows[s.current.value := s.windows[s.current.value].(status := Stopped)]
    else s.windows
  }

  /** Opening does nothing without a timeout or a stream id. */
  predicate Opens(ttl: int, e: Event) {
    e.Open? && ttl > 0 && e.stream != ""
  }

  /** The callback's guard. */
  predicate Passes(s: State, i: nat)
    requires i < |s.windows|
  {
    s.stream == s.windows[i].stream
  }

  function Step(ttl: int, s: State, e: Event): State
    requires Enabled(s, e)
  {
    match e
    case Open(stream) =>
      if !Opens(ttl, e) then s
      else State(stream, Some(|s.windows|), StopCurrent(s) + [Window(stream, Armed)], s.timeouts)
    case Stop => State("", None, StopCurrent(s), s.timeouts)
    case Fire(i) => s.(windows := s.windows[i := s.windows[i].(status := InFlight)])
    case RunCallback(i) =>
      var s' := s.(windows := s.windows[i := s.windows[i].(status := Done)]);
      if Passes(s, i) then s'.(current := None, timeouts := s.timeouts + [s.stream]) else s'
  }

  function Exec(ttl: int, events: seq<Event>): Option<State> {
    if events == [] then Some(INITIAL)
    else
      var before := Exec(ttl, DropLast(events));
      if before.Some? && Enabled(before.value, Last(events)) then Some(Step(ttl, before.value, Last(events))) else None
  }

  /** The field's window is stopped if it is armed; no other window changes. */
  ghost predicate StoppedCurrent(s: State, windows: seq<Window>) {
    && |windows| >= |s.windows|
    && (forall i :: 0 <= i < |s.windows| ==>
      windows[i] == if s.current == Some(i) && s.windows[i].status == Armed
                    then Window(s.windows[i].stream, Stopped) else s.windows[i])
  }

  /** Opening stops the window before and arms a new one, given a timeout and a stream; stopping only stops. */
  lemma WindowSteps(ttl: int, s: State, stream: string)
    ensures ttl <= 0 || stream == "" ==> Step(ttl, s, Open(stream)) == s
    ensures ttl > 0 && stream != "" ==>
      var s' := Step(ttl, s, Open(stream));
      && StoppedCurrent(s, s'.windows) && s'.windows[|s.windows|..] == [Window(stream, Armed)]
      && s'.stream == stream && s'.current == Some(|s.windows|) && s'.timeouts == s.timeouts
    ensures var s' := Step(ttl, s, Stop);
      && StoppedCurrent(s, s'.windows) && |s'.windows| == |s.windows|
      && s'.stream == "" && s'.current == None && s'.timeouts == s.timeouts
  {
  }

  /** A callback declares a timeout exactly if the field names its stream. */
  lemma CallbackInSteps(ttl: int, s: State, i: nat)
    requires i < |s.windows| && s.windows[i].status == InFlight
    ensures Step(ttl, s, RunCallback(i)).timeouts
         == if s.stream == s.windows[i].stream then s.timeouts + [s.windows[i].stream] else s.timeouts
    ensures Step(ttl, s, RunCallback(i)).stream == s.stream
  {
  }

  /** Event `k` opened a window for the stream, and none was opened or stopped since. */
  ghost predicate OpenSince(ttl: int, events: seq<Event>, k: nat, stream: string) {
    && k < |events| && events[k] == Open(stream) && Opens(ttl, events[k])
    && (forall j :: k < j < |events| ==> !events[j].Stop? && !Opens(ttl, events[j]))
  }

  lemma {:induction false} FieldNamesOpenWindow(ttl: int, events: seq<Event>, stream: string) returns (k: nat)
    requires Exec(ttl, events).Some? && stream != ""
    requires Exec(ttl, events).value.stream == stream
    ensures OpenSince(ttl, events, k, stream)
  {
    assert events != [];
    if Opens(ttl, Last(events)) {
      k := |events| - 1;
    } else {
      k := FieldNamesOpenWindow(ttl, DropLast(events), stream);
    }
  }

  lemma {:induction false} OpenWindowNamesField(ttl: int, events: seq<Event>, k: nat, stream: string)
    requires Exec(ttl, events).Some? && OpenSince(ttl, events, k, stream)
    ensures Exec(ttl, events).value.stream == stream
  {
    if k < |events| - 1 {
      assert OpenSince(ttl, DropLast(events), k, stream);
      OpenWindowNamesField(ttl, DropLast(events), k, stream);
    }
  }

  lemma {:induction false} WindowsAreNamed(ttl: int, events: seq<Event>, i: nat)
    requires Exec(ttl, events).Some? && i < |Exec(ttl, events).value.windows|
    ensures Exec(ttl, events).value.windows[i].stream != ""
  {
    assert events != [];
    if i < |Exec(ttl, DropLast(events)).value.windows| {
      WindowsAreNamed(ttl, DropLast(events), i);
    }
  }

  /**
   * A callback, in flight or not when its timer was stopped, declares a timeout for stream s
   * exactly if the last window opened, and not stopped since, is one for s.
   */
  lemma TimeoutIffWindowOpen(ttl: int, events: seq<Event>, i: nat)
    requires Exec(ttl, events).Some? && Enabled(Exec(ttl, events).value, RunCallback(i))
    ensures var s := Exec(ttl, events).value;
      Passes(s, i) <==> exists k :: OpenSince(ttl, events, k, s.windows[i].stream)
  {
    var s := Exec(ttl, events).value;
    var stream := s.windows[i].stream;
    WindowsAreNamed(ttl, events, i);
    if Passes(s, i) {
      var k := FieldNamesOpenWindow(ttl, events, stream);
    }
    forall k | OpenSince(ttl, events, k, stream)
      ensures Passes(s, i)
    {
      OpenWindowNamesField(ttl, events, k, stream);
    }
  }

  /**
   * The guard compares streams, not windows: a callback of a replaced window passes for the
   * newer window of the same stream, which then times out early and once more on its own.
   */
  lemma ReplacedWindowStillTimesOut()
    ensures var run := [Open("s"), Fire(0), Open("s"), RunCallback(0), Fire(1), RunCallback(1)];
      Exec(1, run).Some? && Exec(1, run).value.timeouts == ["s", "s"]
  {
    var s3 := WindowReplaced();
    var begin := [Open("s"), Fire(0), Open("s")];
    var s4 := Step(1, s3, RunCallback(0));
    assert s4.stream == "s" && s4.windows == [Window("s", Done), Window("s", Armed)] && s4.timeouts == ["s"];
    ExecSnoc(1, begin, RunCallback(0));
    var s5 := Step(1, s4, Fire(1));
    assert s5.windows == [Window("s", Done), Window("s", InFlight)];
    ExecSnoc(1, begin + [RunCallback(0)], Fire(1));
    ExecSnoc(1, begin + [RunCallback(0)] + [Fire(1)], RunCallback(1));
    assert Step(1, s5, RunCallback(1)).timeouts == ["s", "s"];
    assert [Open("s"), Fire(0), Open("s"), RunCallback(0), Fire(1), RunCallback(1)]
        == begin + [RunCallback(0)] + [Fire(1)] + [RunCallback(1)];
  }

  lemma ExecSnoc(ttl: int, events: seq<Event>, e: Event)
    requires Exec(ttl, events).Some? && Enabled(Exec(ttl, events).value, e)
    ensures Exec(ttl, events + [e]) == Some(Step(ttl, Exec(ttl, events).value, e))
  {
    assert DropLast(events + [e]) == events;
  }

  lemma WindowReplaced() returns (s: State)
    ensures Exec(1, [Open("s"), Fire(0), Open("s")]) == Some(s)
    ensures s.stream == "s" && s.windows == [Window("s", InFlight), Window("s", Armed)] && s.timeouts == []
  {
    var s1 := Step(1, INITIAL, Open("s"));
    assert s1.windows == [Window("s", Armed)];
    ExecSnoc(1, [], Open("s"));
    var s2 := Step(1, s1, Fire(0));
    assert s2.windows == [Window("s", InFlight)];
    ExecSnoc(1, [] + [Open("s")], Fire(0));
    s := Step(1, s2, Open("s"));
    assert s.windows == [Window("s", InFlight), Window("s", Armed)];
    ExecSnoc(1, [] + [Open("s")] + [Fire(0)], Open("s"));
    assert [Open("s"), Fire(0), Open("s")] == [] + [Open("s")] + [Fire(0)] + [Open("s")];
  }
}
