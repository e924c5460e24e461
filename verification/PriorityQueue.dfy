/**
 * The two-class queue of pkg/priority/queue.go, step by step. A push sends on a channel and
 * then bumps a counter; a pop polls the high channel, then the low one, then sleeps and
 * starts over. Any number of threads do this at once.
 */
module PriorityQueue {
  import opened Base
  import opened Counting
  import Pipeline

  type Frame = Pipeline.Frame

  datatype Class = High | Low

  /** Where a thread is. `Sent` and `Got` lie between a channel operation and its counter. */
  datatype Point =
    | Outside
    | Sent(lane: Class)
    | PollingHigh
    | PollingLow
    | Got(lane: Class)

  /** A call of TryPushHigh or TryPushLow, with its answer. */
  datatype Attempt = Attempt(lane: Class, item: Frame, accepted: bool)

  /** One channel with its two counters, and what went through it. */
  datatype Lane = Lane(ch: seq<Frame>, pushed: int, popped: int, sent: seq<Frame>, taken: seq<Frame>)

  datatype State = State(high: Lane, low: Lane, at: seq<Point>, attempts: seq<Attempt>, refused: seq<Frame>)

  datatype Config = Config(highCap: nat, lowCap: nat, threads: nat)

  datatype Event =
    | TryPush(t: nat, lane: Class, item: Frame)
    | CountPush(t: nat)
    | BeginPop(t: nat)
    | PollHigh(t: nat)
    | PollLow(t: nat)
    | CountPop(t: nat)

  function Cap(cfg: Config, c: Class): nat {
    if c.High? then cfg.highCap else cfg.lowCap
  }

  function LaneOf(s: State, c: Class): Lane {
    if c.High? then s.high else s.low
  }

  function Init(cfg: Config): State {
    State(Lane([], 0, 0, [], []), Lane([], 0, 0, [], []), seq(cfg.threads, _ => Outside), [], [])
  }

  predicate Enabled(s: State, e: Event) {
    e.t < |s.at| &&
    match e
    case TryPush(t, _, _) => s.at[t].Outside?
    case CountPush(t) => s.at[t].Sent?
    case BeginPop(t) => s.at[t].Outside?
    case PollHigh(t) => s.at[t].PollingHigh?
    case PollLow(t) => s.at[t].PollingLow?
    case CountPop(t) => s.at[t].Got?
  }

  function Enqueue(l: Lane, item: Frame): Lane {
    l.(ch := l.ch + [item], sent := l.sent + [item])
  }

  function Dequeue(l: Lane): Lane
    requires l.ch != []
  {
    l.(ch := l.ch[1..], taken := l.taken + [l.ch[0]])
  }

  predicate Fits(cfg: Config, s: State, c: Class) {
    |LaneOf(s, c).ch| < Cap(cfg, c)
  }

  /** The lane of class `c` after an event. */
  function LaneAfter(cfg: Config, s: State, e: Event, c: Class): Lane
    requires Enabled(s, e)
  {
    var l := LaneOf(s, c);
    match e
    case TryPush(_, d, item) => if d == c && Fits(cfg, s, c) then Enqueue(l, item) else l
    case CountPush(t) => if s.at[t].lane == c then l.(pushed := l.pushed + 1) else l
    case BeginPop(_) => l
    case PollHigh(_) => if c.High? && l.ch != [] then Dequeue(l) else l
    case PollLow(_) => if c.Low? && l.ch != [] then Dequeue(l) else l
    case CountPop(t) => if s.at[t].lane == c then l.(popped := l.popped + 1) else l
  }

  /** Where the thread of an event is after it. */
  function PointAfter(cfg: Config, s: State, e: Event): Point
    requires Enabled(s, e)
  {
    match e
    case TryPush(_, c, _) => if Fits(cfg, s, c) then Sent(c) else Outside
    case CountPush(_) => Outside
    case BeginPop(_) => PollingHigh
    case PollHigh(_) => if s.high.ch != [] then Got(High) else PollingLow
    case PollLow(_) => if s.low.ch != [] then Got(Low) else PollingHigh
    case CountPop(_) => Outside
  }

  function Step(cfg: Config, s: State, e: Event): State
    requires Enabled(s, e)
  {
    State(
      LaneAfter(cfg, s, e, High),
      LaneAfter(cfg, s, e, Low),
      s.at[e.t := PointAfter(cfg, s, e)],
      if e.TryPush? then s.attempts + [Attempt(e.lane, e.item, Fits(cfg, s, e.lane))] else s.attempts,
      if e.TryPush? && !Fits(cfg, s, e.lane) then s.refused + [e.item] else s.refused)
  }

  function Exec(cfg: Config, events: seq<Event>): Option<State> {
    if events == [] then Some(Init(cfg))
    else
      var before := Exec(cfg, DropLast(events));
      if before.Some? && Enabled(before.value, Last(events)) then Some(Step(cfg, before.value, Last(events))) else None
  }

  function AcceptedIn(a: Attempt, c: Class): seq<Frame> {
    if a.accepted && a.lane == c then [a.item] else []
  }

  /** The items of class `c` that the attempts put into the queue. */
  function Accepted(attempts: seq<Attempt>, c: Class): seq<Frame> {
    if attempts == [] then [] else Accepted(DropLast(attempts), c) + AcceptedIn(Last(attempts), c)
  }

  function Refused(attempts: seq<Attempt>): seq<Frame> {
    if attempts == [] then []
    else Refused(DropLast(attempts)) + (if Last(attempts).accepted then [] else [Last(attempts).item])
  }

  /**
   * A class is FIFO and loses nothing, and its counters lag behind its channel by exactly
   * the threads that have used the channel and not yet counted.
   */
  ghost predicate LaneInv(l: Lane, cap: nat, at: seq<Point>, c: Class) {
    && l.sent == l.taken + l.ch
    && |l.ch| <= cap
    && l.pushed + CountOf(at, Sent(c)) == |l.sent|
    && l.popped + CountOf(at, Got(c)) == |l.taken|
  }

  ghost predicate ClassInv(cfg: Config, s: State, c: Class) {
    && LaneInv(LaneOf(s, c), Cap(cfg, c), s.at, c)
    && LaneOf(s, c).sent == Accepted(s.attempts, c)
  }

  ghost predicate Inv(cfg: Config, s: State) {
    && ClassInv(cfg, s, High)
    && ClassInv(cfg, s, Low)
    && s.refused == Refused(s.attempts)
  }

  lemma CountsMove(at: seq<Point>, t: nat, p: Point, c: Class)
    requires t < |at|
    ensures CountOf(at[t := p], Sent(c))
         == CountOf(at, Sent(c)) - (if at[t] == Sent(c) then 1 else 0) + (if p == Sent(c) then 1 else 0)
    ensures CountOf(at[t := p], Got(c))
         == CountOf(at, Got(c)) - (if at[t] == Got(c) then 1 else 0) + (if p == Got(c) then 1 else 0)
  {
    CountUpdate(at, t, Sent(c), p);
    CountUpdate(at, t, Got(c), p);
  }

  lemma LaneKeeps(cfg: Config, s: State, e: Event, c: Class)
    requires Enabled(s, e) && LaneInv(LaneOf(s, c), Cap(cfg, c), s.at, c)
    ensures LaneInv(LaneAfter(cfg, s, e, c), Cap(cfg, c), s.at[e.t := PointAfter(cfg, s, e)], c)
  {
    CountsMove(s.at, e.t, PointAfter(cfg, s, e), c);
    var l := LaneOf(s, c);
    if e.TryPush? {
      assert l.taken + (l.ch + [e.item]) == l.sent + [e.item];
    } else if l.ch != [] {
      assert (l.taken + [l.ch[0]]) + l.ch[1..] == l.sent;
    }
  }

  lemma AttemptKeeps(cfg: Config, s: State, e: Event, c: Class)
    requires Enabled(s, e)
    requires LaneOf(s, c).sent == Accepted(s.attempts, c) && s.refused == Refused(s.attempts)
    ensures LaneAfter(cfg, s, e, c).sent == Accepted(Step(cfg, s, e).attempts, c)
    ensures Step(cfg, s, e).refused == Refused(Step(cfg, s, e).attempts)
  {
    if e.TryPush? {
      assert DropLast(Step(cfg, s, e).attempts) == s.attempts;
      assert LaneOf(s, c).sent + [] == LaneOf(s, c).sent && s.refused + [] == s.refused;
    }
  }

  lemma StepKeepsInv(cfg: Config, s: State, e: Event)
    requires Inv(cfg, s) && Enabled(s, e)
    ensures Inv(cfg, Step(cfg, s, e))
  {
    LaneKeeps(cfg, s, e, High);
    LaneKeeps(cfg, s, e, Low);
    AttemptKeeps(cfg, s, e, High);
    AttemptKeeps(cfg, s, e, Low);
  }

  lemma {:induction false} ReachableInv(cfg: Config, events: seq<Event>)
    requires Exec(cfg, events).Some?
    ensures Inv(cfg, Exec(cfg, events).value)
  {
    if events == [] {
      var at := seq(cfg.threads, _ => Outside);
      CountAbsent(at, Sent(High));
      CountAbsent(at, Sent(Low));
      CountAbsent(at, Got(High));
      CountAbsent(at, Got(Low));
    } else {
      ReachableInv(cfg, DropLast(events));
      StepKeepsInv(cfg, Exec(cfg, DropLast(events)).value, Last(events));
    }
  }

  /** The counters account for the channel, up to the threads in between. */
  lemma CountersMatchChannel(cfg: Config, events: seq<Event>, c: Class)
    requires Exec(cfg, events).Some?
    ensures var s := Exec(cfg, events).value; var l := LaneOf(s, c);
      && l.pushed + CountOf(s.at, Sent(c)) - l.popped - CountOf(s.at, Got(c)) == |l.ch| <= Cap(cfg, c)
  {
    ReachableInv(cfg, events);
    assert ClassInv(cfg, Exec(cfg, events).value, c);
  }

  lemma {:induction false} AttemptAtIndex(attempts: seq<Attempt>, k: nat)
    requires k < |attempts|
    ensures if attempts[k].accepted then attempts[k].item in Accepted(attempts, attempts[k].lane)
            else attempts[k].item in Refused(attempts)
  {
    if k < |attempts| - 1 {
      AttemptAtIndex(DropLast(attempts), k);
    }
  }

  /**
   * Every item the feeder tried to push has been popped, is still queued, or was refused
   * and recorded as dropped; and classes keep their own order.
   */
  lemma FedItemsAccountedFor(cfg: Config, events: seq<Event>, k: nat)
    requires Exec(cfg, events).Some? && k < |Exec(cfg, events).value.attempts|
    ensures var s := Exec(cfg, events).value; var a := s.attempts[k]; var l := LaneOf(s, a.lane);
      && Accepted(s.attempts, a.lane) == l.taken + l.ch
      && (if a.accepted then a.item in l.taken || a.item in l.ch else a.item in s.refused)
  {
    ReachableInv(cfg, events);
    AttemptPlaced(cfg, Exec(cfg, events).value, k);
  }

  lemma AttemptPlaced(cfg: Config, s: State, k: nat)
    requires Inv(cfg, s) && k < |s.attempts|
    ensures var a := s.attempts[k]; var l := LaneOf(s, a.lane);
      && Accepted(s.attempts, a.lane) == l.taken + l.ch
      && (if a.accepted then a.item in l.taken || a.item in l.ch else a.item in s.refused)
  {
    assert ClassInv(cfg, s, s.attempts[k].lane);
    AttemptAtIndex(s.attempts, k);
  }

  /** Event `k` is the last one of thread `t`, and it found the high channel empty. */
  ghost predicate FoundHighEmpty(cfg: Config, events: seq<Event>, t: nat, k: nat) {
    && k < |events| && events[k] == PollHigh(t)
    && (forall i :: k < i < |events| ==> events[i].t != t)
    && Exec(cfg, events[..k]).Some? && Exec(cfg, events[..k]).value.high.ch == []
  }

  lemma FoundEarlier(cfg: Config, events: seq<Event>, t: nat, k: nat)
    requires events != [] && Last(events).t != t && FoundHighEmpty(cfg, DropLast(events), t, k)
    ensures FoundHighEmpty(cfg, events, t, k)
  {
    assert events[..k] == DropLast(events)[..k];
  }

  lemma {:induction false} PollingLowMeansHighWasEmpty(cfg: Config, events: seq<Event>, t: nat)
    returns (k: nat)
    requires Exec(cfg, events).Some?
    requires t < |Exec(cfg, events).value.at| && Exec(cfg, events).value.at[t].PollingLow?
    ensures FoundHighEmpty(cfg, events, t, k)
  {
    assert events != [];
    var s := Exec(cfg, DropLast(events)).value;
    if Last(events).t == t {
      k := |events| - 1;
    } else {
      assert s.at[t] == Exec(cfg, events).value.at[t];
      k := PollingLowMeansHighWasEmpty(cfg, DropLast(events), t);
      FoundEarlier(cfg, events, t, k);
    }
  }

  /**
   * Priority: a pop that takes a low item polled the high channel earlier in the same
   * iteration and found it empty, so every high item sent before that poll had been taken.
   */
  lemma LowOnlyAfterHighEmpty(cfg: Config, events: seq<Event>, t: nat) returns (k: nat)
    requires Exec(cfg, events + [PollLow(t)]).Some?
    ensures FoundHighEmpty(cfg, events, t, k)
    ensures var earlier := Exec(cfg, events[..k]).value.high; earlier.taken == earlier.sent
  {
    assert DropLast(events + [PollLow(t)]) == events;
    k := PollingLowMeansHighWasEmpty(cfg, events, t);
    ReachableInv(cfg, events[..k]);
    assert ClassInv(cfg, Exec(cfg, events[..k]).value, High);
  }

  // What each operation does when nothing comes in between.

  /** A push is accepted and counted if there is room, and refused if there is none. */
  lemma PushInSteps(cfg: Config, s: State, t: nat, item: Frame)
    requires t < |s.at| && s.at[t] == Outside
    ensures Enabled(s, TryPush(t, High, item)) && Enabled(s, TryPush(t, Low, item))
    ensures |s.high.ch| < cfg.highCap ==>
      var sent := Step(cfg, s, TryPush(t, High, item));
      && Enabled(sent, CountPush(t))
      && var done := Step(cfg, sent, CountPush(t));
         && done.high.ch == s.high.ch + [item] && done.high.pushed == s.high.pushed + 1
         && done.low == s.low && done.at == s.at && done.refused == s.refused
    ensures |s.high.ch| >= cfg.highCap ==>
      var done := Step(cfg, s, TryPush(t, High, item));
      done.high == s.high && done.low == s.low && done.at == s.at && done.refused == s.refused + [item]
    ensures |s.low.ch| < cfg.lowCap ==>
      var sent := Step(cfg, s, TryPush(t, Low, item));
      && Enabled(sent, CountPush(t))
      && var done := Step(cfg, sent, CountPush(t));
         && done.low.ch == s.low.ch + [item] && done.low.pushed == s.low.pushed + 1
         && done.high == s.high && done.at == s.at && done.refused == s.refused
    ensures |s.low.ch| >= cfg.lowCap ==>
      var done := Step(cfg, s, TryPush(t, Low, item));
      done.low == s.low && done.high == s.high && done.at == s.at && done.refused == s.refused + [item]
  {
    assert s.at[t := Outside] == s.at;
    assert s.at[t := Sent(High)][t := Outside] == s.at && s.at[t := Sent(Low)][t := Outside] == s.at;
  }

  /** A pop takes the oldest high item; without one the oldest low item; without any it polls on. */
  lemma PopInSteps(cfg: Config, s: State, t: nat)
    requires t < |s.at| && s.at[t] == Outside
    ensures Enabled(s, BeginPop(t)) && Enabled(Step(cfg, s, BeginPop(t)), PollHigh(t))
    ensures var polled := Step(cfg, Step(cfg, s, BeginPop(t)), PollHigh(t));
      && (s.high.ch != [] ==>
        && Enabled(polled, CountPop(t))
        && var done := Step(cfg, polled, CountPop(t));
           && [s.high.ch[0]] + done.high.ch == s.high.ch && done.high.taken == s.high.taken + [s.high.ch[0]]
           && done.high.popped == s.high.popped + 1 && done.low == s.low && done.at == s.at)
      && (s.high.ch == [] ==>
        && Enabled(polled, PollLow(t))
        && var low := Step(cfg, polled, PollLow(t));
           && (s.low.ch != [] ==>
             && Enabled(low, CountPop(t))
             && var done := Step(cfg, low, CountPop(t));
                && [s.low.ch[0]] + done.low.ch == s.low.ch && done.low.taken == s.low.taken + [s.low.ch[0]]
                && done.low.popped == s.low.popped + 1 && done.high == s.high && done.at == s.at)
           && (s.low.ch == [] ==> low == Step(cfg, s, BeginPop(t))))
  {
    assert s.at[t := PollingHigh][t := PollingLow][t := PollingHigh] == s.at[t := PollingHigh];
    assert s.at[t := PollingHigh][t := Got(High)][t := Outside] == s.at;
    assert s.at[t := PollingHigh][t := PollingLow][t := Got(Low)][t := Outside] == s.at;
  }

  /** Over any run, an item is refused only by a class that is full at that moment. */
  lemma {:induction false} RefusalHasReason(cfg: Config, events: seq<Event>, i: nat) returns (k: nat)
    requires Exec(cfg, events).Some? && i < |Exec(cfg, events).value.attempts|
    requires !Exec(cfg, events).value.attempts[i].accepted
    ensures k < |events| && Exec(cfg, events[..k]).Some?
    ensures var a := Exec(cfg, events).value.attempts[i]; var s := Exec(cfg, events[..k]).value;
      && events[k].TryPush? && events[k].lane == a.lane && events[k].item == a.item
      && (if a.lane == High then |s.high.ch| == cfg.highCap else |s.low.ch| == cfg.lowCap)
  {
    assert events != [];
    var before := DropLast(events);
    if i < |Exec(cfg, before).value.attempts| {
      k := RefusalHasReason(cfg, before, i);
      assert events[..k] == before[..k];
    } else {
      k := |events| - 1;
      assert events[..k] == before;
      ReachableInv(cfg, before);
      assert ClassInv(cfg, Exec(cfg, before).value, High) && ClassInv(cfg, Exec(cfg, before).value, Low);
    }
  }
}
