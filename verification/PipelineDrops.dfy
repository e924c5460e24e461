/**
 * Why the asynchronous orchestrator drops a frame: the channel was full, or the frame was
 * late. The limits are spelled out here in the source's own numbers.
 */
module PipelineDrops {
  import opened Base
  import opened Pipeline
  import opened PipelineLoss

  /** Audio stamped with a wall clock reading that is more than 500 ms old; nothing else is late. */
  predicate IsLate(f: Frame, now: int) {
    f.kind.Audio? && f.pts >= 1_000_000_000_000 && now - f.pts > 500_000_000
  }

  /** The event is a lag test of link `j` that finds the frame in hand late. */
  predicate FindsLate(s: State, e: Event, j: nat)
    requires j < |s.links|
  {
    e.At? && e.j == j && e.act.Check? && s.links[j].hand != [] && IsLate(s.links[j].hand[0], e.act.now)
  }

  /** The event belongs to a sender that does not wait, and its channel is full. */
  predicate FindsFull(cfg: Config, s: State, e: Event, j: nat)
    requires j < |s.links| == |cfg.caps|
  {
    cfg.mode.Drop? && e.At? && e.j == j && s.links[j].hand != [] && |s.links[j].ch| >= cfg.caps[j]
  }

  /** A step records a drop only of the frame in hand, and only when that is late or the channel full. */
  lemma DropHasReason(cfg: Config, s: State, e: Event, j: nat)
    requires j < |s.links| == |cfg.caps| && Enabled(cfg, s, e)
    requires Step(cfg, s, e).links[j].lost != s.links[j].lost
    ensures FindsLate(s, e, j) || FindsFull(cfg, s, e, j)
    ensures Step(cfg, s, e).links[j].lost == s.links[j].lost + [s.links[j].hand[0]]
  {
  }

  /**
   * Over any run, each recorded frame goes back to a moment when it was the frame in hand and
   * was found late, or the channel was full and the sender does not wait.
   */
  lemma {:induction false} RecordedHasReason(cfg: Config, events: seq<Event>, j: nat, i: nat) returns (k: nat)
    requires |cfg.caps| > 0 && Exec(cfg, events).Some? && j < |cfg.caps|
    requires i < |Exec(cfg, events).value.links[j].lost|
    ensures k < |events| && Exec(cfg, events[..k]).Some?
    ensures var s := Exec(cfg, events[..k]).value;
      && (FindsLate(s, events[k], j) || FindsFull(cfg, s, events[k], j))
      && s.links[j].hand[0] == Exec(cfg, events).value.links[j].lost[i]
  {
    assert events != [];
    var before := DropLast(events);
    var s := Exec(cfg, before).value;
    if Step(cfg, s, Last(events)).links[j].lost != s.links[j].lost {
      DropHasReason(cfg, s, Last(events), j);
    }
    if i < |s.links[j].lost| {
      k := RecordedHasReason(cfg, before, j, i);
      assert events[..k] == before[..k];
    } else {
      k := |events| - 1;
      assert events[..k] == before;
    }
  }

  /**
   * A sender that does not wait never blocks, and has no choice: a frame that passed the lag
   * test is sent if there is room and dropped if there is none.
   */
  lemma DropModeDecides(cfg: Config, s: State, j: nat, now: int)
    requires j < |s.links| == |cfg.caps| && cfg.mode.Drop? && s.links[j].hand != []
    ensures !s.links[j].cleared ==> Enabled(cfg, s, At(j, Check(now)))
    ensures s.links[j].cleared ==>
      && (Enabled(cfg, s, At(j, Push)) <==> |s.links[j].ch| < cfg.caps[j])
      && (Enabled(cfg, s, At(j, DropFull)) <==> |s.links[j].ch| >= cfg.caps[j])
      && !Enabled(cfg, s, At(j, Abandon))
  {
  }

  /** A sender that waits sends as soon as there is room, never drops, and gives up only when cancelled. */
  lemma WaitModeDecides(cfg: Config, s: State, j: nat)
    requires j < |s.links| == |cfg.caps| && cfg.mode.Wait? && s.links[j].hand != [] && s.links[j].cleared
    ensures Enabled(cfg, s, At(j, Push)) <==> |s.links[j].ch| < cfg.caps[j]
    ensures !Enabled(cfg, s, At(j, DropFull))
    ensures Enabled(cfg, s, At(j, Abandon)) <==> s.cancelled
  {
  }

  /** What becomes of the frame in hand: the lag test records it or lets it pass, a push appends it. */
  lemma HandResolved(cfg: Config, s: State, j: nat, act: Action)
    requires j < |s.links| == |cfg.caps| && Enabled(cfg, s, At(j, act)) && !act.Take?
    ensures var l, l' := s.links[j], Step(cfg, s, At(j, act)).links[j];
      match act
      case Check(now) =>
        if IsLate(l.hand[0], now) then l'.hand == l.hand[1..] && l'.lost == l.lost + [l.hand[0]] && l'.ch == l.ch
        else l' == l.(cleared := true)
      case Push => l'.hand == l.hand[1..] && l'.ch == l.ch + [l.hand[0]] && l'.lost == l.lost
      case Handoff => l'.hand == l.hand[1..] && l'.cur == Some(l.hand[0]) && l'.ch == [] && l'.lost == l.lost
      case DropFull => l'.hand == l.hand[1..] && l'.lost == l.lost + [l.hand[0]] && l'.ch == l.ch
      case Abandon => l'.hand == l.hand[1..] && l'.lost == l.lost && l'.ch == l.ch
  {
    if act.Handoff? {
      assert (s.links[j].ch + [s.links[j].hand[0]])[1..] == [];
    }
  }

  /** Every release of a frame, with its reason. */
  lemma ReleaseHasReason(cfg: Config, s: State, e: Event)
    requires |s.links| == |cfg.caps| > 0 && Enabled(cfg, s, e)
    ensures Freed(cfg, s, e).Some? <==>
      match e
      case Feed(f) => if f.kind.Control? then |s.high| >= cfg.highCap else |s.low| >= cfg.lowCap
      case PopHigh(now) => IsLate(s.high[0], now)
      case PopLow(now) => IsLate(s.low[0], now)
      case At(j, act) => act.DropFull? || act.Abandon? || FindsLate(s, e, j)
      case Finish(_, outs, ownRelease) => outs.None? || ownRelease
      case Deliver => cfg.sink
      case Cancel => false
  {
  }

  /** The queue takes control frames into its high class and all others into its low one, first in, first out. */
  lemma QueueSteps(cfg: Config, s: State, e: Event)
    requires |s.links| == |cfg.caps| > 0 && Enabled(cfg, s, e)
    ensures var s' := Step(cfg, s, e);
      match e
      case Feed(f) =>
        if f.kind.Control? then s'.low == s.low && s'.high == (if |s.high| < cfg.highCap then s.high + [f] else s.high)
        else s'.high == s.high && s'.low == (if |s.low| < cfg.lowCap then s.low + [f] else s.low)
      case PopHigh(_) => [s.high[0]] + s'.high == s.high && s'.low == s.low
      case PopLow(_) => [s.low[0]] + s'.low == s.low && s'.high == s.high
      case _ => s'.high == s.high && s'.low == s.low
  {
  }

  /** A goroutine works on one frame at a time: while it processes one, it has nothing left to push. */
  ghost predicate OneAtATime(s: State) {
    forall j :: 0 <= j < |s.links| - 1 ==> StageFree(s, j)
  }

  ghost predicate StageFree(s: State, j: nat)
    requires j + 1 < |s.links|
  {
    s.links[j].cur == None || s.links[j + 1].hand == []
  }

  lemma StepKeepsOneAtATime(cfg: Config, s: State, e: Event, j: nat)
    requires |s.links| == |cfg.caps| > 0 && Enabled(cfg, s, e) && OneAtATime(s) && j + 1 < |s.links|
    ensures StageFree(Step(cfg, s, e), j)
  {
    assert StageFree(s, j);
  }

  lemma {:induction false} StagesWorkOneAtATime(cfg: Config, events: seq<Event>)
    requires |cfg.caps| > 0 && Exec(cfg, events).Some?
    ensures OneAtATime(Exec(cfg, events).value)
  {
    if events == [] {
    } else {
      StagesWorkOneAtATime(cfg, DropLast(events));
      var s := Exec(cfg, DropLast(events)).value;
      forall j | 0 <= j < |s.links| - 1
        ensures StageFree(Step(cfg, s, Last(events)), j)
      {
        StepKeepsOneAtATime(cfg, s, Last(events), j);
      }
    }
  }
}
