/**
 * The orchestrator model takes the priority queue as two sequences. The model of the queue
 * itself agrees with that: when the same frames are pushed and the same takes succeed, both
 * hold the same frames.
 */
module QueueProjection {
  import opened Base
  import Pipeline
  import PriorityQueue

  type Frame = Pipeline.Frame

  /** What happens to the queue as a whole. */
  datatype Op = Offered(f: Frame) | TookHigh(f: Frame) | TookLow(f: Frame)

  datatype Queues = Queues(high: seq<Frame>, low: seq<Frame>)

  datatype Caps = Caps(high: nat, low: nat)

  /** The queue as a simple object: a frame without room is refused, a take removes the head. */
  function Apply(caps: Caps, q: Queues, op: Op): Queues {
    match op
    case Offered(f) =>
      if f.kind.Control? then (if |q.high| < caps.high then q.(high := q.high + [f]) else q)
      else if |q.low| < caps.low then q.(low := q.low + [f]) else q
    case TookHigh(_) => if q.high == [] then q else q.(high := q.high[1..])
    case TookLow(_) => if q.low == [] then q else q.(low := q.low[1..])
  }

  function Replay(caps: Caps, ops: seq<Op>): Queues {
    if ops == [] then Queues([], []) else Apply(caps, Replay(caps, DropLast(ops)), Last(ops))
  }

  lemma ReplayAppend(caps: Caps, ops: seq<Op>, more: seq<Op>)
    requires |more| <= 1
    ensures Replay(caps, ops + more)
         == if more == [] then Replay(caps, ops) else Apply(caps, Replay(caps, ops), more[0])
  {
    if more == [] {
      assert ops + more == ops;
    } else {
      assert DropLast(ops + more) == ops;
    }
  }

  // The orchestrator's side.

  function PipelineOp(s: Pipeline.State, e: Pipeline.Event): seq<Op> {
    match e
    case Feed(f) => [Offered(f)]
    case PopHigh(_) => if s.high == [] then [] else [TookHigh(s.high[0])]
    case PopLow(_) => if s.low == [] then [] else [TookLow(s.low[0])]
    case _ => []
  }

  function PipelineOps(cfg: Pipeline.Config, events: seq<Pipeline.Event>): seq<Op>
    requires |cfg.caps| > 0
  {
    if events == [] || Pipeline.Exec(cfg, DropLast(events)).None? then []
    else PipelineOps(cfg, DropLast(events)) + PipelineOp(Pipeline.Exec(cfg, DropLast(events)).value, Last(events))
  }

  function CapsOf(cfg: Pipeline.Config): Caps {
    Caps(cfg.highCap, cfg.lowCap)
  }

  lemma PipelineStepApplies(cfg: Pipeline.Config, s: Pipeline.State, e: Pipeline.Event)
    requires |s.links| == |cfg.caps| > 0 && Pipeline.Enabled(cfg, s, e)
    ensures var s' := Pipeline.Step(cfg, s, e); var op := PipelineOp(s, e);
      Queues(s'.high, s'.low)
      == if op == [] then Queues(s.high, s.low) else Apply(CapsOf(cfg), Queues(s.high, s.low), op[0])
  {
  }

  lemma {:induction false} PipelineReplays(cfg: Pipeline.Config, events: seq<Pipeline.Event>)
    requires |cfg.caps| > 0 && Pipeline.Exec(cfg, events).Some?
    ensures var s := Pipeline.Exec(cfg, events).value;
      Replay(CapsOf(cfg), PipelineOps(cfg, events)) == Queues(s.high, s.low)
  {
    if events == [] {
    } else {
      PipelineReplays(cfg, DropLast(events));
      var s := Pipeline.Exec(cfg, DropLast(events)).value;
      PipelineStepApplies(cfg, s, Last(events));
      ReplayAppend(CapsOf(cfg), PipelineOps(cfg, DropLast(events)), PipelineOp(s, Last(events)));
    }
  }

  // The queue's side.

  function QueueOp(s: PriorityQueue.State, e: PriorityQueue.Event): seq<Op> {
    match e
    case TryPush(_, _, item) => [Offered(item)]
    case PollHigh(_) => if s.high.ch == [] then [] else [TookHigh(s.high.ch[0])]
    case PollLow(_) => if s.low.ch == [] then [] else [TookLow(s.low.ch[0])]
    case _ => []
  }

  function QueueOps(cfg: PriorityQueue.Config, events: seq<PriorityQueue.Event>): seq<Op> {
    if events == [] || PriorityQueue.Exec(cfg, DropLast(events)).None? then []
    else QueueOps(cfg, DropLast(events)) + QueueOp(PriorityQueue.Exec(cfg, DropLast(events)).value, Last(events))
  }

  /** The feeder pushes control frames to the high class and all others to the low one. */
  predicate RightClass(e: PriorityQueue.Event) {
    e.TryPush? ==> (e.lane.High? <==> e.item.kind.Control?)
  }

  ghost predicate FedByClass(events: seq<PriorityQueue.Event>) {
    forall i :: 0 <= i < |events| ==> RightClass(events[i])
  }

  lemma QueueStepApplies(cfg: PriorityQueue.Config, s: PriorityQueue.State, e: PriorityQueue.Event)
    requires PriorityQueue.Enabled(s, e) && RightClass(e)
    ensures var s' := PriorityQueue.Step(cfg, s, e); var op := QueueOp(s, e);
      Queues(s'.high.ch, s'.low.ch)
      == if op == [] then Queues(s.high.ch, s.low.ch)
         else Apply(Caps(cfg.highCap, cfg.lowCap), Queues(s.high.ch, s.low.ch), op[0])
  {
  }

  lemma {:induction false} QueueReplays(cfg: PriorityQueue.Config, events: seq<PriorityQueue.Event>)
    requires PriorityQueue.Exec(cfg, events).Some? && FedByClass(events)
    ensures var s := PriorityQueue.Exec(cfg, events).value;
      Replay(Caps(cfg.highCap, cfg.lowCap), QueueOps(cfg, events)) == Queues(s.high.ch, s.low.ch)
  {
    if events == [] {
    } else {
      QueueReplays(cfg, DropLast(events));
      var s := PriorityQueue.Exec(cfg, DropLast(events)).value;
      assert RightClass(Last(events));
      QueueStepApplies(cfg, s, Last(events));
      ReplayAppend(Caps(cfg.highCap, cfg.lowCap), QueueOps(cfg, DropLast(events)), QueueOp(s, Last(events)));
    }
  }

  /**
   * A run of the queue, step by step, and a run of the orchestrator in which the same frames
   * are offered and taken leave the same frames in both classes.
   */
  lemma SameOpsSameQueues(
    cfg: Pipeline.Config, run: seq<Pipeline.Event>, threads: nat, steps: seq<PriorityQueue.Event>)
    requires |cfg.caps| > 0 && Pipeline.Exec(cfg, run).Some?
    requires var q := PriorityQueue.Config(cfg.highCap, cfg.lowCap, threads);
      && PriorityQueue.Exec(q, steps).Some? && FedByClass(steps)
      && PipelineOps(cfg, run) == QueueOps(q, steps)
    ensures var q := PriorityQueue.Config(cfg.highCap, cfg.lowCap, threads);
      var s, p := PriorityQueue.Exec(q, steps).value, Pipeline.Exec(cfg, run).value;
      s.high.ch == p.high && s.low.ch == p.low
  {
    PipelineReplays(cfg, run);
    QueueReplays(PriorityQueue.Config(cfg.highCap, cfg.lowCap, threads), steps);
  }

  /**
   * In step with each other, the two can do the same: a poll that finds a frame takes the
   * frame that the orchestrator pops, and a push is refused where the orchestrator drops.
   */
  lemma NextOpAgrees(
    cfg: Pipeline.Config, p: Pipeline.State, threads: nat, s: PriorityQueue.State, e: PriorityQueue.Event, now: int)
    requires |p.links| == |cfg.caps| > 0 && p.links[0].hand == []
    requires s.high.ch == p.high && s.low.ch == p.low
    requires PriorityQueue.Enabled(s, e) && RightClass(e)
    ensures e.PollHigh? && s.high.ch != [] ==>
      Pipeline.Enabled(cfg, p, Pipeline.PopHigh(now)) && QueueOp(s, e) == PipelineOp(p, Pipeline.PopHigh(now))
    ensures e.PollLow? && s.low.ch != [] ==>
      Pipeline.Enabled(cfg, p, Pipeline.PopLow(now)) && QueueOp(s, e) == PipelineOp(p, Pipeline.PopLow(now))
    ensures e.TryPush? ==>
      && QueueOp(s, e) == PipelineOp(p, Pipeline.Feed(e.item))
      && (PriorityQueue.Fits(PriorityQueue.Config(cfg.highCap, cfg.lowCap, threads), s, e.lane)
          <==> Pipeline.Freed(cfg, p, Pipeline.Feed(e.item)).None?)
  {
  }
}
