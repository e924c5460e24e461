/**
 * The tool dispatcher of pkg/ranya/dispatcher.go: a bounded task queue, a pool of workers
 * and a lazily built table of per-stream locks. Each event is one step of one worker, or a
 * frame processor offering a task.
 */
module Dispatcher {
  import opened Base
  import opened Counting

  type Stream = string

  datatype Task = Task(stream: Stream, callID: string, name: string, args: string)

  datatype Config = Config(workers: nat, serializeByStream: bool)

  const QUEUE_CAP := 64

  /** Where a worker is. `lock` is a number in the list of all locks ever made. */
  datatype Point =
    | Idle
    | Started(task: Task)
    | WantTable(task: Task)
    | InTable(task: Task)
    | WantLock(task: Task, lock: nat)
    | Calling(task: Task, lock: nat)
    | CallingFreely(task: Task)
    | Releasing(task: Task, lock: nat)
    | Reporting(task: Task)

  /** Who holds a lock, and the stream it was made for. */
  datatype Lock = Lock(holder: Option<nat>, stream: Stream)

  datatype State = State(
    queue: seq<Task>,
    at: seq<Point>,
    tableHolder: Option<nat>,
    table: map<Stream, nat>,
    locks: seq<Lock>,
    offered: seq<Task>,
    refused: seq<Task>,
    finished: seq<Task>,
    sent: seq<Task>,
    unsent: seq<Task>)

  datatype Event =
    | Offer(task: Task)
    | Receive(w: nat)
    | Begin(w: nat)
    | LockTable(w: nat)
    | LookUp(w: nat)
    | Acquire(w: nat)
    | Return(w: nat)
    | Unlock(w: nat)
    | Report(w: nat, accepted: bool)

  function Init(cfg: Config): State {
    State([], seq(cfg.workers, _ => Idle), None, map[], [], [], [], [], [], [])
  }

  predicate Enabled(s: State, e: Event) {
    if e.Offer? then true
    else
      e.w < |s.at| &&
      match e
      case Receive(w) => s.at[w].Idle? && s.queue != []
      case Begin(w) => s.at[w].Started?
      case LockTable(w) => s.at[w].WantTable? && s.tableHolder.None?
      case LookUp(w) => s.at[w].InTable?
      case Acquire(w) => s.at[w].WantLock? && s.at[w].lock < |s.locks| && s.locks[s.at[w].lock].holder.None?
      case Return(w) => s.at[w].Calling? || s.at[w].CallingFreely?
      case Unlock(w) => s.at[w].Releasing? && s.at[w].lock < |s.locks|
      case Report(w, _) => s.at[w].Reporting?
  }

  /** A task without a call id or a tool name is dropped without a result. */
  predicate Runnable(t: Task) {
    t.callID != "" && t.name != ""
  }

  /** The task of a worker makes a new lock in this event. */
  predicate MakesLock(cfg: Config, s: State, e: Event)
    requires Enabled(s, e)
  {
    || (e.Begin? && Runnable(s.at[e.w].task) && cfg.serializeByStream && s.at[e.w].task.stream == "")
    || (e.LookUp? && s.at[e.w].task.stream !in s.table)
  }

  function PointAfter(cfg: Config, s: State, e: Event): Point
    requires Enabled(s, e) && !e.Offer?
  {
    var p := s.at[e.w];
    match e
    case Receive(_) => Started(s.queue[0])
    case Begin(_) =>
      if !Runnable(p.task) then Idle
      else if !cfg.serializeByStream then CallingFreely(p.task)
      else if p.task.stream == "" then WantLock(p.task, |s.locks|)
      else WantTable(p.task)
    case LockTable(_) => InTable(p.task)
    case LookUp(_) => WantLock(p.task, if p.task.stream in s.table then s.table[p.task.stream] else |s.locks|)
    case Acquire(_) => Calling(p.task, p.lock)
    case Return(_) => if p.Calling? then Releasing(p.task, p.lock) else Reporting(p.task)
    case Unlock(_) => Reporting(p.task)
    case Report(_, _) => Idle
  }

  function AtAfter(cfg: Config, s: State, e: Event): seq<Point>
    requires Enabled(s, e)
  {
    if e.Offer? then s.at else s.at[e.w := PointAfter(cfg, s, e)]
  }

  function LocksAfter(cfg: Config, s: State, e: Event): seq<Lock>
    requires Enabled(s, e)
  {
    if MakesLock(cfg, s, e) then s.locks + [Lock(None, s.at[e.w].task.stream)]
    else if e.Acquire? then s.locks[s.at[e.w].lock := s.locks[s.at[e.w].lock].(holder := Some(e.w))]
    else if e.Unlock? then s.locks[s.at[e.w].lock := s.locks[s.at[e.w].lock].(holder := None)]
    else s.locks
  }

  predicate HasRoom(s: State) {
    |s.queue| < QUEUE_CAP
  }

  predicate Finishes(s: State, e: Event)
    requires Enabled(s, e)
  {
    e.Report? || (e.Begin? && !Runnable(s.at[e.w].task))
  }

  function Step(cfg: Config, s: State, e: Event): State
    requires Enabled(s, e)
  {
    State(
      if e.Offer? && HasRoom(s) then s.queue + [e.task] else if e.Receive? then s.queue[1..] else s.queue,
      AtAfter(cfg, s, e),
      if e.LockTable? then Some(e.w) else if e.LookUp? then None else s.tableHolder,
      if e.LookUp? && MakesLock(cfg, s, e) then s.table[s.at[e.w].task.stream := |s.locks|] else s.table,
      LocksAfter(cfg, s, e),
      if e.Offer? then s.offered + [e.task] else s.offered,
      if e.Offer? && !HasRoom(s) then s.refused + [e.task] else s.refused,
      if Finishes(s, e) then s.finished + [s.at[e.w].task] else s.finished,
      if e.Report? && e.accepted then s.sent + [s.at[e.w].task] else s.sent,
      if e.Report? && !e.accepted then s.unsent + [s.at[e.w].task] else s.unsent)
  }

  function Exec(cfg: Config, events: seq<Event>): Option<State> {
    if events == [] then Some(Init(cfg))
    else
      var before := Exec(cfg, DropLast(events));
      if before.Some? && Enabled(before.value, Last(events)) then Some(Step(cfg, before.value, Last(events))) else None
  }

  // Locks.

  predicate UsesLock(p: Point) {
    p.WantLock? || p.Calling? || p.Releasing?
  }

  predicate HoldsLock(p: Point, lock: nat) {
    (p.Calling? || p.Releasing?) && p.lock == lock
  }

  /** What a worker's point says about the locks. */
  ghost predicate WorkerOk(cfg: Config, s: State, w: nat)
    requires w < |s.at|
  {
    var p := s.at[w];
    && (p.InTable? <==> s.tableHolder == Some(w))
    && (p.WantTable? || p.InTable? ==> p.task.stream != "")
    && (UsesLock(p) ==>
      && p.lock < |s.locks| && s.locks[p.lock].stream == p.task.stream
      && (p.task.stream != "" ==> p.task.stream in s.table && s.table[p.task.stream] == p.lock))
    && (cfg.serializeByStream ==> !p.CallingFreely?)
  }

  /** A lock made for the empty stream is used by one worker only. */
  ghost predicate OwnLock(s: State, w: nat, v: nat)
    requires w < |s.at| && v < |s.at|
  {
    UsesLock(s.at[w]) && UsesLock(s.at[v]) && s.at[w].lock == s.at[v].lock && s.at[w].task.stream == "" ==> w == v
  }

  ghost predicate LockOk(s: State, l: nat)
    requires l < |s.locks|
  {
    forall w :: 0 <= w < |s.at| ==> (HoldsLock(s.at[w], l) <==> s.locks[l].holder == Some(w))
  }

  ghost predicate HolderExists(s: State, l: nat)
    requires l < |s.locks|
  {
    s.locks[l].holder.Some? ==> s.locks[l].holder.value < |s.at|
  }

  ghost predicate Inv(cfg: Config, s: State) {
    && (forall w :: 0 <= w < |s.at| ==> WorkerOk(cfg, s, w))
    && (forall w, v :: 0 <= w < |s.at| && 0 <= v < |s.at| ==> OwnLock(s, w, v))
    && (forall l :: 0 <= l < |s.locks| ==> LockOk(s, l) && HolderExists(s, l))
    && (forall k :: k in s.table ==> s.table[k] < |s.locks| && s.locks[s.table[k]].stream == k)
    && (s.tableHolder.Some? ==> s.tableHolder.value < |s.at|)
    && "" !in s.table
  }

  lemma StepKeepsTable(cfg: Config, s: State, e: Event)
    requires Inv(cfg, s) && Enabled(s, e)
    ensures var s' := Step(cfg, s, e);
      && (forall k :: k in s'.table ==> s'.table[k] < |s'.locks| && s'.locks[s'.table[k]].stream == k)
      && (s'.tableHolder.Some? ==> s'.tableHolder.value < |s'.at|)
      && "" !in s'.table
  {
    if !e.Offer? {
      assert WorkerOk(cfg, s, e.w);
    }
  }

  /** The worker that takes the step. */
  lemma MoverKeepsWorker(cfg: Config, s: State, e: Event)
    requires Inv(cfg, s) && Enabled(s, e) && !e.Offer?
    ensures WorkerOk(cfg, Step(cfg, s, e), e.w)
  {
    assert WorkerOk(cfg, s, e.w);
    LocksKeepStreams(cfg, s, e);
  }

  /** Any other worker. */
  lemma OthersKeepWorker(cfg: Config, s: State, e: Event, w: nat)
    requires Inv(cfg, s) && Enabled(s, e) && w < |s.at| && (e.Offer? || w != e.w)
    ensures WorkerOk(cfg, Step(cfg, s, e), w)
  {
    assert WorkerOk(cfg, s, w);
    if !e.Offer? {
      assert WorkerOk(cfg, s, e.w);
      LocksKeepStreams(cfg, s, e);
    }
  }

  lemma StepKeepsWorker(cfg: Config, s: State, e: Event, w: nat)
    requires Inv(cfg, s) && Enabled(s, e) && w < |s.at|
    ensures WorkerOk(cfg, Step(cfg, s, e), w)
  {
    if !e.Offer? && w == e.w {
      MoverKeepsWorker(cfg, s, e);
    } else {
      OthersKeepWorker(cfg, s, e, w);
    }
  }

  lemma LocksKeepStreams(cfg: Config, s: State, e: Event)
    requires Enabled(s, e)
    ensures |s.locks| <= |LocksAfter(cfg, s, e)|
    ensures forall l :: 0 <= l < |s.locks| ==> LocksAfter(cfg, s, e)[l].stream == s.locks[l].stream
  {
  }

  lemma StepKeepsOwnLock(cfg: Config, s: State, e: Event, w: nat, v: nat)
    requires Inv(cfg, s) && Enabled(s, e) && w < |s.at| && v < |s.at|
    ensures OwnLock(Step(cfg, s, e), w, v)
  {
    assert OwnLock(s, w, v) && OwnLock(s, v, w);
    assert WorkerOk(cfg, s, w) && WorkerOk(cfg, s, v);
  }

  lemma StepKeepsLock(cfg: Config, s: State, e: Event, l: nat)
    requires Inv(cfg, s) && Enabled(s, e) && l < |Step(cfg, s, e).locks|
    ensures LockOk(Step(cfg, s, e), l) && HolderExists(Step(cfg, s, e), l)
  {
    var s' := Step(cfg, s, e);
    forall w | 0 <= w < |s'.at|
      ensures HoldsLock(s'.at[w], l) <==> s'.locks[l].holder == Some(w)
    {
      assert WorkerOk(cfg, s, w);
      if l < |s.locks| {
        assert LockOk(s, l);
      }
    }
    if l < |s.locks| {
      assert HolderExists(s, l);
    }
  }

  lemma StepKeepsInv(cfg: Config, s: State, e: Event)
    requires Inv(cfg, s) && Enabled(s, e)
    ensures Inv(cfg, Step(cfg, s, e))
  {
    var s' := Step(cfg, s, e);
    StepKeepsTable(cfg, s, e);
    forall w | 0 <= w < |s'.at|
      ensures WorkerOk(cfg, s', w)
    {
      StepKeepsWorker(cfg, s, e, w);
    }
    forall w, v | 0 <= w < |s'.at| && 0 <= v < |s'.at|
      ensures OwnLock(s', w, v)
    {
      StepKeepsOwnLock(cfg, s, e, w, v);
    }
    forall l | 0 <= l < |s'.locks|
      ensures LockOk(s', l) && HolderExists(s', l)
    {
      StepKeepsLock(cfg, s, e, l);
    }
  }

  lemma {:induction false} ReachableInv(cfg: Config, events: seq<Event>)
    requires Exec(cfg, events).Some?
    ensures Inv(cfg, Exec(cfg, events).value)
  {
    if events == [] {
    } else {
      ReachableInv(cfg, DropLast(events));
      StepKeepsInv(cfg, Exec(cfg, DropLast(events)).value, Last(events));
    }
  }

  predicate InCall(p: Point) {
    p.Calling? || p.CallingFreely?
  }

  /** With serialization on, a stream never has two workers inside a tool call. */
  lemma OneCallPerStream(cfg: Config, events: seq<Event>, w: nat, v: nat)
    requires cfg.serializeByStream && Exec(cfg, events).Some?
    requires var s := Exec(cfg, events).value;
      && w < |s.at| && v < |s.at| && InCall(s.at[w]) && InCall(s.at[v])
      && s.at[w].task.stream == s.at[v].task.stream != ""
    ensures w == v
  {
    ReachableInv(cfg, events);
    var s := Exec(cfg, events).value;
    assert WorkerOk(cfg, s, w) && WorkerOk(cfg, s, v);
    assert LockOk(s, s.at[w].lock);
    assert HoldsLock(s.at[w], s.at[w].lock) && HoldsLock(s.at[v], s.at[w].lock);
  }

  /** Worker w is blocked by worker v: on the lock table or on a stream's lock. */
  predicate WaitsFor(s: State, w: nat, v: nat) {
    && w < |s.at| && v < |s.at|
    && (|| (s.at[w].WantTable? && s.tableHolder == Some(v))
        || (s.at[w].WantLock? && s.at[w].lock < |s.locks| && s.locks[s.at[w].lock].holder == Some(v)))
  }

  /** What a worker that holds something does next. */
  function NextOfHolder(s: State, v: nat): Event
    requires v < |s.at|
  {
    if s.at[v].InTable? then LookUp(v) else if s.at[v].Releasing? then Unlock(v) else Return(v)
  }

  /**
   * No deadlock: whoever blocks a worker is not blocked itself, so waits never form a
   * cycle; and on a stream's lock workers wait only for workers of the same stream.
   */
  lemma BlockerCanMove(cfg: Config, events: seq<Event>, w: nat, v: nat)
    requires Exec(cfg, events).Some? && WaitsFor(Exec(cfg, events).value, w, v)
    ensures var s := Exec(cfg, events).value;
      && Enabled(s, NextOfHolder(s, v))
      && (forall u :: !WaitsFor(s, v, u))
      && (s.at[w].WantLock? ==> s.at[v].task.stream == s.at[w].task.stream != "")
  {
    ReachableInv(cfg, events);
    var s := Exec(cfg, events).value;
    assert WorkerOk(cfg, s, w) && WorkerOk(cfg, s, v);
    if s.at[w].WantLock? {
      assert LockOk(s, s.at[w].lock);
      assert HoldsLock(s.at[v], s.at[w].lock);
      assert OwnLock(s, w, v);
    }
  }

  /** As long as some worker is busy or a task is queued for an existing worker, one can move. */
  lemma SomeWorkerCanMove(cfg: Config, events: seq<Event>, w: nat) returns (e: Event)
    requires Exec(cfg, events).Some?
    requires var s := Exec(cfg, events).value; w < |s.at| && (s.at[w].Idle? ==> s.queue != [])
    ensures !e.Offer? && Enabled(Exec(cfg, events).value, e)
  {
    ReachableInv(cfg, events);
    var s := Exec(cfg, events).value;
    assert WorkerOk(cfg, s, w);
    match s.at[w]
    case Idle => e := Receive(w);
    case Started(_) => e := Begin(w);
    case WantTable(_) =>
      if s.tableHolder.None? {
        e := LockTable(w);
      } else {
        BlockerCanMove(cfg, events, w, s.tableHolder.value);
        e := NextOfHolder(s, s.tableHolder.value);
      }
    case InTable(_) => e := LookUp(w);
    case WantLock(_, l) =>
      if s.locks[l].holder.None? {
        e := Acquire(w);
      } else {
        assert HolderExists(s, l);
        BlockerCanMove(cfg, events, w, s.locks[l].holder.value);
        e := NextOfHolder(s, s.locks[l].holder.value);
      }
    case Calling(_, _) => e := Return(w);
    case CallingFreely(_) => e := Return(w);
    case Releasing(_, _) => e := Unlock(w);
    case Reporting(_) => e := Report(w, true);
  }

  // Accounting.

  predicate WorksOn(p: Point, t: Task) {
    !p.Idle? && p.task == t
  }

  function Working(t: Task): Point -> nat {
    p => if WorksOn(p, t) then 1 else 0
  }

  /** How many workers have a copy of the task in hand. */
  function InFlight(at: seq<Point>, t: Task): nat {
    Sum(at, Working(t))
  }

  /** Where the copies of a task are. */
  ghost predicate TaskPlaced(s: State, t: Task) {
    CountOf(s.offered, t) == CountOf(s.queue, t) + InFlight(s.at, t) + CountOf(s.finished, t) + CountOf(s.refused, t)
  }

  /** What came of the finished copies: one result each, unless the task could not be run. */
  ghost predicate ResultsMatch(s: State, t: Task) {
    CountOf(s.sent, t) + CountOf(s.unsent, t) == (if Runnable(t) then CountOf(s.finished, t) else 0)
  }

  /** Past its first step a worker has a task that can be run. */
  ghost predicate RunsRunnable(s: State) {
    forall w :: 0 <= w < |s.at| ==> s.at[w].Idle? || s.at[w].Started? || Runnable(s.at[w].task)
  }

  lemma AcceptPlaces(cfg: Config, s: State, e: Event, t: Task)
    requires TaskPlaced(s, t) && e.Offer? && HasRoom(s)
    ensures TaskPlaced(Step(cfg, s, e), t)
  {
    CountAppend(s.offered, e.task, t);
    CountAppend(s.queue, e.task, t);
  }

  lemma RefusePlaces(cfg: Config, s: State, e: Event, t: Task)
    requires TaskPlaced(s, t) && e.Offer? && !HasRoom(s)
    ensures TaskPlaced(Step(cfg, s, e), t)
  {
    CountAppend(s.offered, e.task, t);
    CountAppend(s.refused, e.task, t);
  }

  lemma ReceivePlaces(cfg: Config, s: State, e: Event, t: Task)
    requires Enabled(s, e) && TaskPlaced(s, t) && e.Receive?
    ensures TaskPlaced(Step(cfg, s, e), t)
  {
    SumUpdate(s.at, e.w, Started(s.queue[0]), Working(t));
    CountHead(s.queue, t);
  }

  lemma FinishPlaces(cfg: Config, s: State, e: Event, t: Task)
    requires Enabled(s, e) && TaskPlaced(s, t) && Finishes(s, e)
    ensures TaskPlaced(Step(cfg, s, e), t)
  {
    SumUpdate(s.at, e.w, Idle, Working(t));
    CountAppend(s.finished, s.at[e.w].task, t);
  }

  lemma CarryPlaces(cfg: Config, s: State, e: Event, t: Task)
    requires Enabled(s, e) && TaskPlaced(s, t) && !e.Offer? && !e.Receive? && !Finishes(s, e)
    ensures TaskPlaced(Step(cfg, s, e), t)
  {
    var p := PointAfter(cfg, s, e);
    SumUpdate(s.at, e.w, p, Working(t));
    assert !p.Idle? && !s.at[e.w].Idle? && p.task == s.at[e.w].task;
  }

  lemma StepPlaces(cfg: Config, s: State, e: Event, t: Task)
    requires Enabled(s, e) && TaskPlaced(s, t)
    ensures TaskPlaced(Step(cfg, s, e), t)
  {
    if e.Offer? && HasRoom(s) {
      AcceptPlaces(cfg, s, e, t);
    } else if e.Offer? {
      RefusePlaces(cfg, s, e, t);
    } else if e.Receive? {
      ReceivePlaces(cfg, s, e, t);
    } else if Finishes(s, e) {
      FinishPlaces(cfg, s, e, t);
    } else {
      CarryPlaces(cfg, s, e, t);
    }
  }

  lemma StepMatchesResults(cfg: Config, s: State, e: Event, t: Task)
    requires Enabled(s, e) && ResultsMatch(s, t) && RunsRunnable(s)
    ensures ResultsMatch(Step(cfg, s, e), t)
  {
    if Finishes(s, e) {
      var done := s.at[e.w].task;
      CountAppend(s.finished, done, t);
      if e.Report? {
        if e.accepted {
          CountAppend(s.sent, done, t);
        } else {
          CountAppend(s.unsent, done, t);
        }
      }
    }
  }

  lemma StepKeepsRunnable(cfg: Config, s: State, e: Event)
    requires Enabled(s, e) && RunsRunnable(s)
    ensures RunsRunnable(Step(cfg, s, e))
  {
  }

  /**
   * Every offered task is queued, in a worker's hands, finished, or was refused because the
   * queue was full; and each finished one has produced at most one result.
   */
  lemma {:induction false} TasksAccountedFor(cfg: Config, events: seq<Event>, t: Task)
    requires Exec(cfg, events).Some?
    ensures var s := Exec(cfg, events).value;
      TaskPlaced(s, t) && ResultsMatch(s, t) && RunsRunnable(s) && |s.queue| <= QUEUE_CAP
  {
    if events == [] {
      SumZero(Init(cfg).at, Working(t));
    } else {
      TasksAccountedFor(cfg, DropLast(events), t);
      var s := Exec(cfg, DropLast(events)).value;
      StepPlaces(cfg, s, Last(events), t);
      StepMatchesResults(cfg, s, Last(events), t);
      StepKeepsRunnable(cfg, s, Last(events));
    }
  }

  /** An offered task is refused exactly if 64 tasks are queued, and only offers are refused. */
  lemma RefusedAtFullQueue(cfg: Config, s: State, e: Event)
    requires Enabled(s, e)
    ensures var s' := Step(cfg, s, e);
      && (s'.refused != s.refused <==> e.Offer? && |s.queue| >= 64)
      && (e.Offer? && |s.queue| < 64 ==> s'.queue == s.queue + [e.task])
      && (s'.refused != s.refused ==> s'.refused == s.refused + [e.task])
  {
  }

  /** Over any run, each refused task goes back to an offer made while 64 tasks were queued. */
  lemma {:induction false} RefusalHasReason(cfg: Config, events: seq<Event>, i: nat) returns (k: nat)
    requires Exec(cfg, events).Some? && i < |Exec(cfg, events).value.refused|
    ensures k < |events| && events[k] == Offer(Exec(cfg, events).value.refused[i])
    ensures Exec(cfg, events[..k]).Some? && |Exec(cfg, events[..k]).value.queue| == 64
  {
    assert events != [];
    var before := DropLast(events);
    var s := Exec(cfg, before).value;
    RefusedAtFullQueue(cfg, s, Last(events));
    if i < |s.refused| {
      k := RefusalHasReason(cfg, before, i);
      assert events[..k] == before[..k];
    } else {
      k := |events| - 1;
      assert events[..k] == before;
      TasksAccountedFor(cfg, before, Last(events).task);
    }
  }

  // What a worker does when nothing comes in between.

  /** A task without a call id or a tool name is finished at once, without a call or a result. */
  lemma UnrunnableInSteps(cfg: Config, s: State, w: nat)
    requires w < |s.at| && s.at[w] == Idle && s.queue != [] && (s.queue[0].callID == "" || s.queue[0].name == "")
    ensures Enabled(s, Receive(w)) && Enabled(Step(cfg, s, Receive(w)), Begin(w))
    ensures var done := Step(cfg, Step(cfg, s, Receive(w)), Begin(w));
      && done.at == s.at && done.finished == s.finished + [s.queue[0]] && done.sent == s.sent && done.unsent == s.unsent
      && [s.queue[0]] + done.queue == s.queue
  {
    assert s.at[w := Started(s.queue[0])][w := Idle] == s.at;
  }

  /** Without serialization a task is called at once, and reported once. */
  lemma FreeCallInSteps(cfg: Config, s: State, w: nat, accepted: bool)
    requires w < |s.at| && s.at[w] == Idle && s.queue != [] && s.queue[0].callID != "" && s.queue[0].name != ""
    requires !cfg.serializeByStream
    ensures var begun := Step(cfg, Step(cfg, s, Receive(w)), Begin(w));
      && begun.at == s.at[w := CallingFreely(s.queue[0])] && Enabled(begun, Return(w))
      && Enabled(Step(cfg, begun, Return(w)), Report(w, accepted))
      && Reported(s, Step(cfg, Step(cfg, begun, Return(w)), Report(w, accepted)), s.queue[0], accepted)
  {
    var task := s.queue[0];
    assert s.at[w := Started(task)][w := CallingFreely(task)] == s.at[w := CallingFreely(task)];
    assert s.at[w := CallingFreely(task)][w := Reporting(task)][w := Idle] == s.at;
  }

  /** The task was taken from the queue and finished with one result, and the worker is idle again. */
  ghost predicate Reported(s: State, done: State, task: Task, accepted: bool) {
    && done.at == s.at && done.finished == s.finished + [task] && [task] + done.queue == s.queue
    && done.sent == (if accepted then s.sent + [task] else s.sent)
    && done.unsent == (if accepted then s.unsent else s.unsent + [task])
  }

  /**
   * With serialization a task of a named stream asks for the table first, then for the lock of
   * its stream, which it finds there or makes.
   */
  lemma LookUpInSteps(cfg: Config, s: State, w: nat, task: Task)
    requires w < |s.at| && s.at[w] == Started(task) && task.callID != "" && task.name != ""
    requires cfg.serializeByStream && task.stream != "" && s.tableHolder == None
    ensures Enabled(s, Begin(w)) && Enabled(Step(cfg, s, Begin(w)), LockTable(w))
    ensures var held := Step(cfg, Step(cfg, s, Begin(w)), LockTable(w));
      && held.tableHolder == Some(w) && Enabled(held, LookUp(w))
      && var found := Step(cfg, held, LookUp(w));
         && found.tableHolder == None
         && (task.stream in s.table ==>
           && found.at == s.at[w := WantLock(task, s.table[task.stream])]
           && found.table == s.table && found.locks == s.locks)
         && (task.stream !in s.table ==>
           && found.at == s.at[w := WantLock(task, |s.locks|)] && found.table == s.table[task.stream := |s.locks|]
           && found.locks == s.locks + [Lock(None, task.stream)])
  {
    assert s.at[w := WantTable(task)][w := InTable(task)] == s.at[w := InTable(task)];
  }

  /** A task of an unnamed stream gets a lock of its own. */
  lemma OwnLockInSteps(cfg: Config, s: State, w: nat, task: Task)
    requires w < |s.at| && s.at[w] == Started(task) && task.callID != "" && task.name != ""
    requires cfg.serializeByStream && task.stream == ""
    ensures Enabled(s, Begin(w))
    ensures Step(cfg, s, Begin(w))
         == s.(at := s.at[w := WantLock(task, |s.locks|)], locks := s.locks + [Lock(None, "")])
  {
  }

  /** With its lock free a worker takes it for the call, and gives it back before it reports. */
  lemma LockedCallInSteps(cfg: Config, s: State, w: nat, task: Task, lock: nat, accepted: bool)
    requires w < |s.at| && s.at[w] == WantLock(task, lock) && lock < |s.locks| && s.locks[lock].holder == None
    ensures Enabled(s, Acquire(w))
    ensures var calling := Step(cfg, s, Acquire(w));
      && calling.at[w] == Calling(task, lock) && calling.locks[lock].holder == Some(w) && Enabled(calling, Return(w))
      && var returned := Step(cfg, calling, Return(w));
         && returned.locks == calling.locks && Enabled(returned, Unlock(w))
         && var unlocked := Step(cfg, returned, Unlock(w));
            && unlocked.locks == s.locks && Enabled(unlocked, Report(w, accepted))
            && var done := Step(cfg, unlocked, Report(w, accepted));
               && done.at == s.at[w := Idle] && done.finished == s.finished + [task] && done.locks == s.locks
               && done.sent == (if accepted then s.sent + [task] else s.sent)
               && done.unsent == (if accepted then s.unsent else s.unsent + [task])
  {
    var called := s.at[w := Calling(task, lock)];
    assert called[w := Releasing(task, lock)][w := Reporting(task)][w := Idle] == s.at[w := Idle];
  }
}
