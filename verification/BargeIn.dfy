/**
 * Barge-in as pkg/turn/manager_impl.go implements it, with timers whose callbacks may
 * already be running when the timer is stopped. When the caller starts to speak over the
 * agent, a timer is armed; its callback flushes and cancels playback, provided the caller
 * is still in the same stretch of speech.
 *
 * The clock is monotone. Callers run concurrently: the three steps
 * of a speech start and the two of a speech end interleave with everything else.
 */
module BargeIn {
  import opened Base
  import opened TurnFsm

  datatype Config = Config(bargeIn: bool, minBargeIn: int, threads: nat)

  /** The delay is 300 ms unless a positive one is configured. */
  function EffectiveDelay(configured: int): (d: nat)
    ensures d > 0
  {
    if configured <= 0 then 300 else configured
  }

  /** What a timer waits for before its callback runs. */
  function Delay(cfg: Config): (d: nat)
    ensures d > 0
  {
    EffectiveDelay(cfg.minBargeIn)
  }

  datatype Status = Armed | Stopped | InFlight | Rejected | Passed | Flushed | Finished

  /** A timer armed by the commit of speech start number `start`, with its time stamp. */
  datatype Timer = Timer(start: nat, stamp: int, status: Status)

  datatype SpeechStart = SpeechStart(stamp: int, interrupted: bool)

  datatype Point =
    | Outside
    | StartRead(wasSpeaking: bool)
    | StartSet(wasSpeaking: bool)
    | EndSet

  datatype Kind = Flush | Cancel

  /** A control frame that the callback of a timer generated. */
  datatype Frame = Frame(timer: nat, kind: Kind)

  /**
   * `starts` lists the speech starts in the order of their locked sections, and `current`
   * is the number of the timer that the manager's field refers to.
   */
  datatype State = State(
    turn: TurnState,
    clock: int,
    userSpeechStart: int,
    at: seq<Point>,
    current: Option<nat>,
    timers: seq<Timer>,
    starts: seq<SpeechStart>,
    emitted: seq<Frame>)

  datatype Event =
    | Tick(now: int)
    | TurnMove(target: TurnState)
    | ReadState(t: nat)
    | SetListening(t: nat)
    | CommitStart(t: nat)
    | SetThinking(t: nat)
    | StopTimer(t: nat)
    | Fire(i: nat)
    | CheckActive(i: nat)
    | EmitFlush(i: nat)
    | EmitCancel(i: nat)

  function Init(cfg: Config): State {
    State(Idle, 1, 0, seq(cfg.threads, _ => Outside), None, [], [], [])
  }

  predicate Enabled(cfg: Config, s: State, e: Event) {
    match e
    case Tick(now) => now >= s.clock
    case TurnMove(target) => Allowed(s.turn, target)
    case ReadState(t) => t < |s.at| && s.at[t].Outside?
    case SetListening(t) => t < |s.at| && s.at[t].StartRead?
    case CommitStart(t) => t < |s.at| && s.at[t].StartSet?
    case SetThinking(t) => t < |s.at| && s.at[t].Outside?
    case StopTimer(t) => t < |s.at| && s.at[t].EndSet?
    case Fire(i) => i < |s.timers| && s.timers[i].status.Armed? && s.clock >= s.timers[i].stamp + Delay(cfg)
    case CheckActive(i) => i < |s.timers| && s.timers[i].status.InFlight?
    case EmitFlush(i) => i < |s.timers| && s.timers[i].status.Passed?
    case EmitCancel(i) => i < |s.timers| && s.timers[i].status.Flushed?
  }

  /** The callback's test: the caller is listening and has not started anew. */
  predicate Active(s: State, i: nat)
    requires i < |s.timers|
  {
    s.turn.Listening? && s.userSpeechStart == s.timers[i].stamp
  }

  function TurnAfter(s: State, e: Event): TurnState {
    match e
    case TurnMove(target) => target
    case SetListening(_) => if Allowed(s.turn, Listening) then Listening else s.turn
    case SetThinking(_) => if Allowed(s.turn, Thinking) then Thinking else s.turn
    case _ => s.turn
  }

  /** Stopping works only on a timer that has not fired. */
  function StopCurrent(s: State): seq<Timer> {
    if s.current.Some? && s.current.value < |s.timers| && s.timers[s.current.value].status.Armed?
    then s.timers[s.current.value := s.timers[s.current.value].(status := Stopped)]
    else s.timers
  }

  predicate Arms(cfg: Config, s: State, e: Event)
    requires Enabled(cfg, s, e)
  {
    e.CommitStart? && s.at[e.t].wasSpeaking && cfg.bargeIn
  }

  function StatusAfter(s: State, e: Event): Status
    requires e.Fire? || e.CheckActive? || e.EmitFlush? || e.EmitCancel?
    requires e.i < |s.timers|
  {
    match e
    case Fire(_) => InFlight
    case CheckActive(i) => if Active(s, i) then Passed else Rejected
    case EmitFlush(_) => Flushed
    case EmitCancel(_) => Finished
  }

  function TimersAfter(cfg: Config, s: State, e: Event): seq<Timer>
    requires Enabled(cfg, s, e)
  {
    match e
    case CommitStart(_) =>
      StopCurrent(s) + (if Arms(cfg, s, e) then [Timer(|s.starts|, s.clock, Armed)] else [])
    case StopTimer(_) => StopCurrent(s)
    case Fire(i) => s.timers[i := s.timers[i].(status := StatusAfter(s, e))]
    case CheckActive(i) => s.timers[i := s.timers[i].(status := StatusAfter(s, e))]
    case EmitFlush(i) => s.timers[i := s.timers[i].(status := StatusAfter(s, e))]
    case EmitCancel(i) => s.timers[i := s.timers[i].(status := StatusAfter(s, e))]
    case _ => s.timers
  }

  function AtAfter(s: State, e: Event): seq<Point> {
    match e
    case ReadState(t) => if t < |s.at| then s.at[t := StartRead(s.turn.Speaking?)] else s.at
    case SetListening(t) => if t < |s.at| && s.at[t].StartRead? then s.at[t := StartSet(s.at[t].wasSpeaking)] else s.at
    case CommitStart(t) => if t < |s.at| then s.at[t := Outside] else s.at
    case SetThinking(t) => if t < |s.at| then s.at[t := EndSet] else s.at
    case StopTimer(t) => if t < |s.at| then s.at[t := Outside] else s.at
    case _ => s.at
  }

  function Step(cfg: Config, s: State, e: Event): State
    requires Enabled(cfg, s, e)
  {
    State(
      TurnAfter(s, e),
      if e.Tick? then e.now else s.clock,
      if e.CommitStart? then s.clock else s.userSpeechStart,
      AtAfter(s, e),
      if Arms(cfg, s, e) then Some(|s.timers|) else s.current,
      TimersAfter(cfg, s, e),
      if e.CommitStart? then s.starts + [SpeechStart(s.clock, s.at[e.t].wasSpeaking)] else s.starts,
      if e.EmitFlush? then s.emitted + [Frame(e.i, Flush)]
      else if e.EmitCancel? then s.emitted + [Frame(e.i, Cancel)] else s.emitted)
  }

  function Exec(cfg: Config, events: seq<Event>): Option<State> {
    if events == [] then Some(Init(cfg))
    else
      var before := Exec(cfg, DropLast(events));
      if before.Some? && Enabled(cfg, before.value, Last(events))
      then Some(Step(cfg, before.value, Last(events)))
      else None
  }

  /**
   * A timer belongs to a start that interrupted the agent. While it is armed, its start is
   * the latest; a callback in flight belongs to the latest start or is behind the clock
   * reading of a later one.
   */
  ghost predicate TimerOk(cfg: Config, s: State, i: nat)
    requires i < |s.timers|
  {
    var timer := s.timers[i];
    && timer.start < |s.starts|
    && s.starts[timer.start].interrupted && s.starts[timer.start].stamp == timer.stamp
    && timer.stamp <= s.clock
    && (timer.status.Armed? ==> timer.start == |s.starts| - 1 && s.current == Some(i))
    && (timer.status.InFlight? ==>
      && s.clock >= timer.stamp + Delay(cfg)
      && (timer.start == |s.starts| - 1 || s.userSpeechStart >= timer.stamp + Delay(cfg)))
  }

  ghost predicate Inv(cfg: Config, s: State) {
    && (cfg.bargeIn || s.timers == [])
    && (forall i :: 0 <= i < |s.timers| ==> TimerOk(cfg, s, i))
    && (forall i, j :: 0 <= i < j < |s.timers| ==> s.timers[i].start < s.timers[j].start)
    && (s.current.Some? ==> s.current.value < |s.timers|)
    && (s.starts != [] ==> s.userSpeechStart == Last(s.starts).stamp)
    && s.userSpeechStart <= s.clock
  }

  lemma StepKeepsTimer(cfg: Config, s: State, e: Event, i: nat)
    requires Inv(cfg, s) && Enabled(cfg, s, e) && i < |Step(cfg, s, e).timers|
    ensures TimerOk(cfg, Step(cfg, s, e), i)
  {
    if i < |s.timers| {
      assert TimerOk(cfg, s, i);
    }
  }

  lemma StepKeepsInv(cfg: Config, s: State, e: Event)
    requires Inv(cfg, s) && Enabled(cfg, s, e)
    ensures Inv(cfg, Step(cfg, s, e))
  {
    var s' := Step(cfg, s, e);
    forall i | 0 <= i < |s'.timers|
      ensures TimerOk(cfg, s', i)
    {
      StepKeepsTimer(cfg, s, e, i);
    }
    forall i, j | 0 <= i < j < |s'.timers|
      ensures s'.timers[i].start < s'.timers[j].start
    {
      assert TimerOk(cfg, s, i);
    }
  }

  lemma {:induction false} ReachableInv(cfg: Config, events: seq<Event>)
    requires Exec(cfg, events).Some?
    ensures Inv(cfg, Exec(cfg, events).value)
  {
    if events == [] {
    } else {
      ReachableInv(cfg, DropLast(events));
      StepKeepsInv(cfg, Exec(cfg, DropLast(events)).value, Last(events));
    }
  }

  /**
   * A callback passes its test only for the latest speech start, only if that start cut in
   * on the agent, only while the caller is being listened to, and only with barge-in on.
   */
  lemma PassingMeansLatestStart(cfg: Config, events: seq<Event>, i: nat)
    requires Exec(cfg, events).Some?
    requires var s := Exec(cfg, events).value; Enabled(cfg, s, CheckActive(i)) && Active(s, i)
    ensures var s := Exec(cfg, events).value;
      && s.turn.Listening? && cfg.bargeIn && HasWaited(cfg, s, i)
      && s.timers[i].start == |s.starts| - 1 && Last(s.starts).interrupted
  {
    ReachableInv(cfg, events);
    CallbackWaits(cfg, events, i);
    assert TimerOk(cfg, Exec(cfg, events).value, i);
  }

  /** The delay that a timer waits for: the configured one if that is positive, else 300 ms. */
  predicate HasWaited(cfg: Config, s: State, i: nat)
    requires i < |s.timers|
  {
    s.clock >= s.timers[i].stamp + (if cfg.minBargeIn > 0 then cfg.minBargeIn else 300)
  }

  /** A callback never runs before its delay is over. */
  lemma {:induction false} CallbackWaits(cfg: Config, events: seq<Event>, i: nat)
    requires Exec(cfg, events).Some? && i < |Exec(cfg, events).value.timers|
    requires var status := Exec(cfg, events).value.timers[i].status; !status.Armed? && !status.Stopped?
    ensures HasWaited(cfg, Exec(cfg, events).value, i)
  {
    if events == [] {
    } else {
      var s := Exec(cfg, DropLast(events)).value;
      if i < |s.timers| && !s.timers[i].status.Armed? && !s.timers[i].status.Stopped? {
        CallbackWaits(cfg, DropLast(events), i);
      }
    }
  }

  /** The frames that the callback of timer `i` has generated, in order. */
  function FramesOf(emitted: seq<Frame>, i: nat): seq<Kind> {
    if emitted == [] then []
    else if Last(emitted).timer == i then FramesOf(DropLast(emitted), i) + [Last(emitted).kind]
    else FramesOf(DropLast(emitted), i)
  }

  lemma FramesGrow(emitted: seq<Frame>, f: Frame, i: nat)
    ensures FramesOf(emitted + [f], i)
         == if f.timer == i then FramesOf(emitted, i) + [f.kind] else FramesOf(emitted, i)
  {
    assert DropLast(emitted + [f]) == emitted;
  }

  function FramesDue(status: Status): (due: seq<Kind>)
    ensures due <= [Flush, Cancel]
  {
    match status
    case Flushed => [Flush]
    case Finished => [Flush, Cancel]
    case _ => []
  }

  ghost predicate FramesOk(s: State, i: nat) {
    FramesOf(s.emitted, i) == if i < |s.timers| then FramesDue(s.timers[i].status) else []
  }

  lemma StatusMoves(cfg: Config, s: State, e: Event, i: nat)
    requires Enabled(cfg, s, e) && i < |Step(cfg, s, e).timers|
    requires !((e.EmitFlush? || e.EmitCancel?) && e.i == i)
    ensures FramesDue(Step(cfg, s, e).timers[i].status) == if i < |s.timers| then FramesDue(s.timers[i].status) else []
  {
  }

  /** What a step adds to `emitted`, if anything. */
  function Emits(e: Event): Option<Frame> {
    match e
    case EmitFlush(i) => Some(Frame(i, Flush))
    case EmitCancel(i) => Some(Frame(i, Cancel))
    case _ => None
  }

  lemma EmissionsGrow(cfg: Config, s: State, e: Event, i: nat)
    requires Enabled(cfg, s, e)
    ensures FramesOf(Step(cfg, s, e).emitted, i)
         == FramesOf(s.emitted, i) + (if Emits(e).Some? && Emits(e).value.timer == i then [Emits(e).value.kind] else [])
  {
    if Emits(e).Some? {
      assert Step(cfg, s, e).emitted == s.emitted + [Emits(e).value];
      FramesGrow(s.emitted, Emits(e).value, i);
    }
  }

  lemma EmitterMoves(cfg: Config, s: State, e: Event, i: nat)
    requires Enabled(cfg, s, e) && Emits(e).Some? && e.i == i
    ensures i < |s.timers| && i < |Step(cfg, s, e).timers|
    ensures FramesDue(Step(cfg, s, e).timers[i].status) == FramesDue(s.timers[i].status) + [Emits(e).value.kind]
  {
  }

  lemma StepKeepsFrames(cfg: Config, s: State, e: Event, i: nat)
    requires Enabled(cfg, s, e) && FramesOk(s, i)
    ensures FramesOk(Step(cfg, s, e), i)
  {
    EmissionsGrow(cfg, s, e, i);
    if Emits(e).Some? && e.i == i {
      EmitterMoves(cfg, s, e, i);
    } else if i < |Step(cfg, s, e).timers| {
      StatusMoves(cfg, s, e, i);
    }
  }

  lemma {:induction false} ReachableFrames(cfg: Config, events: seq<Event>, i: nat)
    requires Exec(cfg, events).Some?
    ensures FramesOk(Exec(cfg, events).value, i)
  {
    if events == [] {
    } else {
      ReachableFrames(cfg, DropLast(events), i);
      StepKeepsFrames(cfg, Exec(cfg, DropLast(events)).value, Last(events), i);
    }
  }

  /** A callback generates nothing, or a flush and then a cancel; never more. */
  lemma AtMostOnePair(cfg: Config, events: seq<Event>, i: nat)
    requires Exec(cfg, events).Some?
    ensures FramesOf(Exec(cfg, events).value.emitted, i) <= [Flush, Cancel]
  {
    ReachableFrames(cfg, events, i);
  }

  /** Each speech start arms at most one timer, so it is answered by at most one pair. */
  lemma OneTimerPerStart(cfg: Config, events: seq<Event>, i: nat, j: nat)
    requires Exec(cfg, events).Some?
    requires var s := Exec(cfg, events).value;
      i < |s.timers| && j < |s.timers| && s.timers[i].start == s.timers[j].start
    ensures i == j
  {
    ReachableInv(cfg, events);
  }

  /** A polite strategy interrupts nobody. */
  lemma {:induction false} PoliteNeverEmits(cfg: Config, events: seq<Event>)
    requires !cfg.bargeIn && Exec(cfg, events).Some?
    ensures Exec(cfg, events).value.emitted == []
  {
    if events == [] {
    } else {
      PoliteNeverEmits(cfg, DropLast(events));
      ReachableInv(cfg, DropLast(events));
    }
  }

  /** Every pair goes back to a test that was passed, at that time for the latest start. */
  lemma {:induction false} EmissionPassedTest(cfg: Config, events: seq<Event>, i: nat) returns (k: nat)
    requires Exec(cfg, events).Some?
    requires var s := Exec(cfg, events).value;
      i < |s.timers| && (s.timers[i].status.Passed? || s.timers[i].status.Flushed? || s.timers[i].status.Finished?)
    ensures k < |events| && events[k] == CheckActive(i) && Exec(cfg, events[..k]).Some?
    ensures var s := Exec(cfg, events[..k]).value;
      && i < |s.timers| && s.turn.Listening? && cfg.bargeIn && HasWaited(cfg, s, i)
      && s.timers[i].start == |s.starts| - 1 && Last(s.starts).interrupted
  {
    assert events != [];
    var before := DropLast(events);
    var s := Exec(cfg, before).value;
    if Last(events) == CheckActive(i) {
      k := |events| - 1;
      PassingMeansLatestStart(cfg, before, i);
    } else {
      CameFromPassed(cfg, s, Last(events), i);
      k := EmissionPassedTest(cfg, before, i);
      assert events[..k] == before[..k];
    }
  }

  lemma CameFromPassed(cfg: Config, s: State, e: Event, i: nat)
    requires Enabled(cfg, s, e) && e != CheckActive(i) && i < |Step(cfg, s, e).timers|
    requires var status := Step(cfg, s, e).timers[i].status; status.Passed? || status.Flushed? || status.Finished?
    ensures i < |s.timers|
    ensures var status := s.timers[i].status; status.Passed? || status.Flushed? || status.Finished?
  {
  }

  /**
   * Barge-in safety. Whatever a callback has generated goes back to a test it passed while
   * the caller was listened to, for the latest speech start there was, under a strategy
   * that allows barge-in, that start had cut in on the agent, and its delay was over.
   */
  lemma FlushAnswersLatestStart(cfg: Config, events: seq<Event>, i: nat) returns (k: nat)
    requires Exec(cfg, events).Some?
    requires FramesOf(Exec(cfg, events).value.emitted, i) != []
    ensures k < |events| && events[k] == CheckActive(i) && Exec(cfg, events[..k]).Some?
    ensures var s := Exec(cfg, events[..k]).value;
      && i < |s.timers| && s.turn.Listening? && cfg.bargeIn && HasWaited(cfg, s, i)
      && s.timers[i].start == |s.starts| - 1 && Last(s.starts).interrupted
  {
    ReachableFrames(cfg, events, i);
    k := EmissionPassedTest(cfg, events, i);
  }

  /** The field's timer is stopped if it is armed; no other timer changes. */
  ghost predicate StoppedCurrent(s: State, timers: seq<Timer>) {
    && |timers| >= |s.timers|
    && (forall i :: 0 <= i < |s.timers| ==>
      timers[i] == if s.current == Some(i) && s.timers[i].status == Armed
                   then Timer(s.timers[i].start, s.timers[i].stamp, Stopped) else s.timers[i])
  }

  /**
   * A speech start that nothing interrupts: the turn goes to the caller, the stretch of speech
   * is stamped, the old timer is stopped, and a new one is armed exactly if the agent was
   * speaking and the strategy allows barge-in.
   */
  lemma SpeechStartInSteps(cfg: Config, s: State, t: nat)
    requires t < |s.at| && s.at[t] == Outside && (s.current.Some? ==> s.current.value < |s.timers|)
    ensures Enabled(cfg, s, ReadState(t))
    ensures Enabled(cfg, Step(cfg, s, ReadState(t)), SetListening(t))
    ensures var listening := Step(cfg, Step(cfg, s, ReadState(t)), SetListening(t));
      && Enabled(cfg, listening, CommitStart(t))
      && var done := Step(cfg, listening, CommitStart(t));
         && done.turn == Listening && done.userSpeechStart == done.clock == s.clock && done.at == s.at
         && done.starts == s.starts + [SpeechStart(s.clock, s.turn == Speaking)] && done.emitted == s.emitted
         && StoppedCurrent(s, done.timers)
         && (s.turn == Speaking && cfg.bargeIn ==>
           done.timers[|s.timers|..] == [Timer(|s.starts|, s.clock, Armed)] && done.current == Some(|s.timers|))
         && (!(s.turn == Speaking && cfg.bargeIn) ==> |done.timers| == |s.timers| && done.current == s.current)
  {
    var read := Step(cfg, s, ReadState(t));
    var listening := Step(cfg, read, SetListening(t));
    var done := Step(cfg, listening, CommitStart(t));
    assert read.at == s.at[t := StartRead(s.turn == Speaking)];
    assert listening.at == s.at[t := StartSet(s.turn == Speaking)];
    assert done.at == s.at;
  }

  /** A speech end that nothing interrupts: the agent thinks, and the field's timer is stopped. */
  lemma SpeechEndInSteps(cfg: Config, s: State, t: nat)
    requires t < |s.at| && s.at[t] == Outside && (s.current.Some? ==> s.current.value < |s.timers|)
    ensures Enabled(cfg, s, SetThinking(t)) && Enabled(cfg, Step(cfg, s, SetThinking(t)), StopTimer(t))
    ensures var done := Step(cfg, Step(cfg, s, SetThinking(t)), StopTimer(t));
      && done.turn == (if s.turn == Listening then Thinking else s.turn)
      && done.at == s.at && done.starts == s.starts && done.emitted == s.emitted
      && done.userSpeechStart == s.userSpeechStart && done.clock == s.clock
      && StoppedCurrent(s, done.timers) && |done.timers| == |s.timers|
  {
    var thinking := Step(cfg, s, SetThinking(t));
    assert thinking.at == s.at[t := EndSet];
    assert Step(cfg, thinking, StopTimer(t)).at == s.at;
  }

  /**
   * An armed timer fires once its delay is over and not before. Its callback flushes and then
   * cancels exactly if the caller is listened to in the same stretch of speech.
   */
  lemma CallbackInSteps(cfg: Config, s: State, i: nat)
    requires i < |s.timers| && s.timers[i].status == Armed
    ensures Enabled(cfg, s, Fire(i)) <==> HasWaited(cfg, s, i)
    ensures HasWaited(cfg, s, i) ==>
      var fired := Step(cfg, s, Fire(i));
      && Enabled(cfg, fired, CheckActive(i))
      && var checked := Step(cfg, fired, CheckActive(i));
         if s.turn == Listening && s.userSpeechStart == s.timers[i].stamp then
           && Enabled(cfg, checked, EmitFlush(i))
           && Enabled(cfg, Step(cfg, checked, EmitFlush(i)), EmitCancel(i))
           && Step(cfg, Step(cfg, checked, EmitFlush(i)), EmitCancel(i)).emitted
              == s.emitted + [Frame(i, Flush)] + [Frame(i, Cancel)]
         else
           !Enabled(cfg, checked, EmitFlush(i)) && !Enabled(cfg, checked, EmitCancel(i)) && checked.emitted == s.emitted
  {
  }

  /** The turn starts idle and moves along allowed edges only, and the clock never goes back. */
  lemma {:induction false} TurnAndClockMove(cfg: Config, events: seq<Event>)
    requires Exec(cfg, events).Some?
    ensures events == [] ==> Exec(cfg, events).value.turn == Idle
    ensures events != [] ==>
      var before, after := Exec(cfg, DropLast(events)).value, Exec(cfg, events).value;
      && (after.turn == before.turn || Allowed(before.turn, after.turn))
      && (Last(events).TurnMove? ==> after.turn == Last(events).target)
      && after.clock == (if Last(events).Tick? then Last(events).now else before.clock) >= before.clock
  {
  }

  predicate ByThread(e: Event, t: nat) {
    (e.ReadState? || e.SetListening? || e.CommitStart? || e.SetThinking? || e.StopTimer?) && e.t == t
  }

  /** Event `k` is thread `t` finding the agent speaking, and until `m` it only goes on with that start. */
  ghost predicate FoundSpeaking(cfg: Config, events: seq<Event>, k: nat, m: nat, t: nat) {
    && k < m <= |events| && events[k] == ReadState(t)
    && Exec(cfg, events[..k]).Some? && Exec(cfg, events[..k]).value.turn == Speaking
    && (forall j :: k < j < m && ByThread(events[j], t) ==> events[j].SetListening?)
  }

  predicate WasSpeaking(p: Point) {
    (p.StartRead? || p.StartSet?) && p.wasSpeaking
  }

  lemma FoundEarlier(cfg: Config, events: seq<Event>, k: nat, m: nat, t: nat)
    requires events != [] && FoundSpeaking(cfg, DropLast(events), k, m, t)
    ensures FoundSpeaking(cfg, events, k, m, t)
  {
    assert events[..k] == DropLast(events)[..k];
  }

  lemma FoundNow(cfg: Config, events: seq<Event>, t: nat)
    requires events != [] && Last(events) == ReadState(t)
    requires Exec(cfg, DropLast(events)).Some? && Exec(cfg, DropLast(events)).value.turn == Speaking
    ensures FoundSpeaking(cfg, events, |events| - 1, |events|, t)
  {
    assert events[..|events| - 1] == DropLast(events);
  }

  lemma FoundStill(cfg: Config, events: seq<Event>, k: nat, t: nat)
    requires events != [] && FoundSpeaking(cfg, DropLast(events), k, |events| - 1, t)
    requires ByThread(Last(events), t) ==> Last(events).SetListening?
    ensures FoundSpeaking(cfg, events, k, |events|, t)
  {
    FoundEarlier(cfg, events, k, |events| - 1, t);
  }

  lemma ReadFound(cfg: Config, s: State, t: nat)
    requires Enabled(cfg, s, ReadState(t)) && WasSpeaking(Step(cfg, s, ReadState(t)).at[t])
    ensures s.turn == Speaking
  {
  }

  lemma WasSpeakingBefore(cfg: Config, s: State, e: Event, t: nat)
    requires Enabled(cfg, s, e) && e != ReadState(t)
    requires t < |Step(cfg, s, e).at| && WasSpeaking(Step(cfg, s, e).at[t])
    ensures t < |s.at| && WasSpeaking(s.at[t])
    ensures ByThread(e, t) ==> e.SetListening?
  {
  }

  lemma {:induction false} PointFoundSpeaking(cfg: Config, events: seq<Event>, t: nat) returns (k: nat)
    requires Exec(cfg, events).Some? && t < |Exec(cfg, events).value.at| && WasSpeaking(Exec(cfg, events).value.at[t])
    ensures FoundSpeaking(cfg, events, k, |events|, t)
  {
    assert events != [];
    var before := DropLast(events);
    var s := Exec(cfg, before).value;
    if Last(events) == ReadState(t) {
      ReadFound(cfg, s, t);
      k := |events| - 1;
      FoundNow(cfg, events, t);
    } else {
      WasSpeakingBefore(cfg, s, Last(events), t);
      k := PointFoundSpeaking(cfg, before, t);
      FoundStill(cfg, events, k, t);
    }
  }

  /** A speech start is an interruption only if its own thread had found the agent speaking. */
  lemma {:induction false} InterruptionFoundSpeaking(cfg: Config, events: seq<Event>, n: nat)
    returns (k: nat, m: nat, t: nat)
    requires Exec(cfg, events).Some? && n < |Exec(cfg, events).value.starts|
    requires Exec(cfg, events).value.starts[n].interrupted
    ensures m < |events| && events[m] == CommitStart(t) && FoundSpeaking(cfg, events, k, m, t)
    ensures Exec(cfg, events[..m]).Some? && |Exec(cfg, events[..m]).value.starts| == n
  {
    assert events != [];
    var before := DropLast(events);
    if n < |Exec(cfg, before).value.starts| {
      k, m, t := InterruptionFoundSpeaking(cfg, before, n);
      assert events[..m] == before[..m];
    } else {
      m, t := |before|, Last(events).t;
      k := PointFoundSpeaking(cfg, before, t);
      assert events[..m] == before;
    }
    FoundEarlier(cfg, events, k, m, t);
  }
}
