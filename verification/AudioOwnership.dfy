/**
 * Ownership of pooled audio buffers. Each buffer that has entered the pipeline is in
 * exactly one queue, channel or hand, or has gone back to the pool exactly once. This
 * rests on a contract that processors have to meet; the runtime does the rest.
 *
 * All counts are for one buffer `b`; the theorems hold for every buffer.
 */
module AudioOwnership {
  import opened Base
  import opened Counting
  import opened Pipeline

  /** How often frame `f` is backed by pool buffer `b`: only pooled audio is. */
  function Holds(f: Frame, b: nat): nat {
    if f.kind.Audio? && f.pooled == Some(b) then 1 else 0
  }

  function Count(fs: seq<Frame>, b: nat): nat {
    if fs == [] then 0 else Count(DropLast(fs), b) + Holds(Last(fs), b)
  }

  function CountCurrent(cur: Option<Frame>, b: nat): nat {
    match cur
    case None => 0
    case Some(f) => Holds(f, b)
  }

  function CountLink(l: Link, b: nat): nat {
    Count(l.hand, b) + Count(l.ch, b) + CountCurrent(l.cur, b)
  }

  function LinkCount(b: nat): Link -> nat {
    l => CountLink(l, b)
  }

  function CountLinks(links: seq<Link>, b: nat): nat {
    Sum(links, LinkCount(b))
  }

  /** The places of buffer `b`: queues, links, the pool, and the reader of `out`. */
  function Places(cfg: Config, s: State, b: nat): nat {
    Count(s.high, b) + Count(s.low, b) + CountLinks(s.links, b) + Count(s.released, b)
    + (if cfg.sink then 0 else Count(s.emitted, b))
  }

  /** How often a processor has to pass on the buffer of its input. */
  function Kept(f: Frame, ownRelease: bool, b: nat): nat {
    if ownRelease then 0 else Holds(f, b)
  }

  /**
   * What a processor must do. It leaves the input alone when it returns an error or nil.
   * Otherwise it lists its input exactly once or has released it, and any other buffer it
   * returns is new, that is, it has no place yet, and is returned once.
   */
  ghost predicate ContractFor(places: nat, f: Frame, outs: Option<seq<Frame>>, ownRelease: bool, b: nat) {
    match outs
    case None => !ownRelease
    case Some(fs) =>
      || Count(fs, b) == Kept(f, ownRelease, b)
      || (Count(fs, b) == Kept(f, ownRelease, b) + 1 && places == 0)
  }

  /** The environment feeds only new buffers and processors meet their contract. */
  ghost predicate OwnsWell(cfg: Config, s: State, e: Event, b: nat) {
    match e
    case Feed(f) => Holds(f, b) == 0 || Places(cfg, s, b) == 0
    case Finish(j, outs, ownRelease) =>
      j < |s.links| && s.links[j].cur.Some? ==>
        ContractFor(Places(cfg, s, b), s.links[j].cur.value, outs, ownRelease, b)
    case _ => true
  }

  ghost predicate OwningRun(cfg: Config, events: seq<Event>, b: nat)
    requires |cfg.caps| > 0
  {
    && Exec(cfg, events).Some?
    && (events != [] ==>
      && OwningRun(cfg, DropLast(events), b)
      && OwnsWell(cfg, Exec(cfg, DropLast(events)).value, Last(events), b))
  }

  lemma {:induction false} CountAppend(xs: seq<Frame>, ys: seq<Frame>, b: nat)
    ensures Count(xs + ys, b) == Count(xs, b) + Count(ys, b)
  {
    if ys == [] {
      assert xs + ys == xs;
    } else {
      CountAppend(xs, DropLast(ys), b);
      assert DropLast(xs + ys) == xs + DropLast(ys);
    }
  }

  lemma CountOne(f: Frame, b: nat)
    ensures Count([f], b) == Holds(f, b)
  {
    assert DropLast([f]) == [];
  }

  lemma CountHead(fs: seq<Frame>, b: nat)
    requires fs != []
    ensures Count(fs, b) == Holds(fs[0], b) + Count(fs[1..], b)
  {
    assert fs == [fs[0]] + fs[1..];
    CountAppend([fs[0]], fs[1..], b);
    CountOne(fs[0], b);
  }

  lemma CountSnoc(fs: seq<Frame>, f: Frame, b: nat)
    ensures Count(fs + [f], b) == Count(fs, b) + Holds(f, b)
  {
    CountAppend(fs, [f], b);
    CountOne(f, b);
  }

  lemma ReplaceLink(links: seq<Link>, j: nat, l: Link, b: nat)
    requires j < |links|
    ensures CountLinks(links[j := l], b) + CountLink(links[j], b) == CountLinks(links, b) + CountLink(l, b)
  {
    SumUpdate(links, j, l, LinkCount(b));
  }

  lemma ActCount(l: Link, act: Action, b: nat)
    requires if act.Take? then l.ch != [] else l.hand != []
    requires act.Take? || act.Handoff? ==> l.cur.None?
    ensures CountLink(Act(l, act), b) + (if Loses(l, act) then Holds(l.hand[0], b) else 0) == CountLink(l, b)
  {
    if l.hand != [] {
      CountHead(l.hand, b);
      CountSnoc(l.ch, l.hand[0], b);
    }
    if act.Take? {
      CountHead(l.ch, b);
    }
    if act.Handoff? {
      CountHead(l.ch + [l.hand[0]], b);
    }
  }

  /** The copies of buffer `b` that leave the links in an event, less those that come in. */
  lemma LinksMove(cfg: Config, s: State, e: Event, b: nat)
    requires |s.links| == |cfg.caps| > 0 && Enabled(cfg, s, e)
    requires e.At? || e.Deliver?
    ensures CountLinks(LinksAfter(cfg, s, e), b)
         + (if e.Deliver? then CountCurrent(Last(s.links).cur, b) else CountCurrent(Freed(cfg, s, e), b))
         == CountLinks(s.links, b)
  {
    if e.At? {
      ReplaceLink(s.links, e.j, Act(s.links[e.j], e.act), b);
      ActCount(s.links[e.j], e.act, b);
    } else {
      ReplaceLink(s.links, |s.links| - 1, FinishCurrent(Last(s.links)), b);
    }
  }

  lemma PopMoves(links: seq<Link>, f: Frame, now: int, b: nat)
    requires links != []
    ensures CountLinks(Popped(links, f, now), b) + (if ShouldDropForLag(f, now) then Holds(f, b) else 0)
         == CountLinks(links, b) + Holds(f, b)
  {
    ReplaceLink(links, 0, Offer(links[0], [f]), b);
    CountSnoc(links[0].hand, f, b);
  }

  lemma FinishMoves(cfg: Config, s: State, e: Event, b: nat)
    requires |s.links| == |cfg.caps| > 0 && Enabled(cfg, s, e) && e.Finish?
    ensures CountLinks(LinksAfter(cfg, s, e), b) + CountCurrent(s.links[e.j].cur, b)
         == CountLinks(s.links, b) + (if e.outs.Some? then Count(e.outs.value, b) else 0)
  {
    var links := s.links[e.j := FinishCurrent(s.links[e.j])];
    ReplaceLink(s.links, e.j, FinishCurrent(s.links[e.j]), b);
    if e.outs.Some? {
      OfferMoves(links, e.j + 1, e.outs.value, b);
    }
  }

  lemma OfferMoves(links: seq<Link>, j: nat, fs: seq<Frame>, b: nat)
    requires j < |links|
    ensures CountLinks(links[j := Offer(links[j], fs)], b) == CountLinks(links, b) + Count(fs, b)
  {
    ReplaceLink(links, j, Offer(links[j], fs), b);
    CountAppend(links[j].hand, fs, b);
  }

  lemma ReleaseCounts(cfg: Config, s: State, e: Event, b: nat)
    requires |s.links| == |cfg.caps| > 0 && Enabled(cfg, s, e)
    ensures Count(Step(cfg, s, e).released, b) == Count(s.released, b) + CountCurrent(Freed(cfg, s, e), b)
  {
    var freed := Freed(cfg, s, e);
    if freed.Some? {
      CountSnoc(s.released, freed.value, b);
    } else {
      assert s.released + [] == s.released;
    }
  }

  /** How often an event brings buffer `b` into the pipeline. */
  function Entering(s: State, e: Event, b: nat): int {
    match e
    case Feed(f) => Holds(f, b)
    case Finish(j, outs, ownRelease) =>
      if j < |s.links| && s.links[j].cur.Some? && outs.Some?
      then Count(outs.value, b) - Kept(s.links[j].cur.value, ownRelease, b)
      else 0
    case _ => 0
  }

  lemma QueueMoves(cfg: Config, s: State, e: Event, b: nat)
    requires |s.links| == |cfg.caps| > 0 && Enabled(cfg, s, e)
    requires e.Feed? || e.PopHigh? || e.PopLow?
    ensures Places(cfg, Step(cfg, s, e), b) == Places(cfg, s, b) + Entering(s, e, b)
  {
    ReleaseCounts(cfg, s, e, b);
    match e
    case Feed(f) =>
      CountSnoc(s.high, f, b);
      CountSnoc(s.low, f, b);
    case PopHigh(now) =>
      CountHead(s.high, b);
      PopMoves(s.links, s.high[0], now, b);
    case PopLow(now) =>
      CountHead(s.low, b);
      PopMoves(s.links, s.low[0], now, b);
  }

  /** No event loses or copies a buffer: the pipeline gains just what enters it. */
  lemma StepMovesBuffer(cfg: Config, s: State, e: Event, b: nat)
    requires |s.links| == |cfg.caps| > 0 && Enabled(cfg, s, e) && OwnsWell(cfg, s, e, b)
    ensures Places(cfg, Step(cfg, s, e), b) == Places(cfg, s, b) + Entering(s, e, b)
  {
    if e.Feed? || e.PopHigh? || e.PopLow? {
      QueueMoves(cfg, s, e, b);
    } else {
      ReleaseCounts(cfg, s, e, b);
      if e.Finish? {
        FinishMoves(cfg, s, e, b);
      } else if e.At? {
        LinksMove(cfg, s, e, b);
      } else if e.Deliver? {
        LinksMove(cfg, s, e, b);
        CountSnoc(s.emitted, Last(s.links).cur.value, b);
      }
    }
  }

  /** In every reachable state a buffer is in one place or has never been seen. */
  lemma {:induction false} BufferInOnePlace(cfg: Config, events: seq<Event>, b: nat)
    requires |cfg.caps| > 0 && OwningRun(cfg, events, b)
    ensures Places(cfg, Exec(cfg, events).value, b) <= 1
  {
    if events == [] {
      SumZero(Init(cfg).links, LinkCount(b));
    } else {
      BufferInOnePlace(cfg, DropLast(events), b);
      StepMovesBuffer(cfg, Exec(cfg, DropLast(events)).value, Last(events), b);
    }
  }

  /** A buffer that has a place at some time has one ever after. */
  lemma {:induction false} NoBufferVanishes(cfg: Config, early: seq<Event>, events: seq<Event>, b: nat)
    requires |cfg.caps| > 0 && OwningRun(cfg, events, b) && early <= events
    ensures Exec(cfg, early).Some?
    ensures Places(cfg, Exec(cfg, early).value, b) <= Places(cfg, Exec(cfg, events).value, b)
    decreases |events|
  {
    if early != events {
      assert early <= DropLast(events);
      NoBufferVanishes(cfg, early, DropLast(events), b);
      StepMovesBuffer(cfg, Exec(cfg, DropLast(events)).value, Last(events), b);
    }
  }

  /** At first no buffer has a place. */
  lemma NothingOwnedAtFirst(cfg: Config, b: nat)
    ensures Places(cfg, Init(cfg), b) == 0
  {
    SumZero(Init(cfg).links, LinkCount(b));
  }

  /** An audio frame whose samples are in pool buffer `b`. */
  predicate BackedBy(f: Frame, b: nat) {
    f.kind == Audio && f.pooled == Some(b)
  }

  lemma {:induction false} CountIn(fs: seq<Frame>, i: nat, b: nat)
    requires i < |fs| && BackedBy(fs[i], b)
    ensures Count(fs, b) >= 1
  {
    if i == |fs| - 1 {
    } else {
      CountIn(DropLast(fs), i, b);
    }
  }

  lemma {:induction false} CountTwo(fs: seq<Frame>, i: nat, j: nat, b: nat)
    requires i < j < |fs| && BackedBy(fs[i], b) && BackedBy(fs[j], b)
    ensures Count(fs, b) >= 2
  {
    if j == |fs| - 1 {
      CountIn(DropLast(fs), i, b);
    } else {
      CountTwo(DropLast(fs), i, j, b);
    }
  }

  /** No pool buffer is released twice. */
  lemma ReleasedOnce(cfg: Config, events: seq<Event>, i: nat, j: nat, b: nat)
    requires |cfg.caps| > 0 && OwningRun(cfg, events, b)
    requires i < j < |Exec(cfg, events).value.released|
    requires BackedBy(Exec(cfg, events).value.released[i], b)
    ensures !BackedBy(Exec(cfg, events).value.released[j], b)
  {
    BufferInOnePlace(cfg, events, b);
    if BackedBy(Exec(cfg, events).value.released[j], b) {
      CountTwo(Exec(cfg, events).value.released, i, j, b);
    }
  }

  lemma {:induction false} LinkAmong(links: seq<Link>, j: nat, b: nat)
    requires j < |links|
    ensures CountLink(links[j], b) <= CountLinks(links, b)
  {
    if j == |links| - 1 {
    } else {
      LinkAmong(DropLast(links), j, b);
    }
  }

  ghost predicate HasNone(fs: seq<Frame>, b: nat) {
    forall k :: 0 <= k < |fs| ==> !BackedBy(fs[k], b)
  }

  /** Nothing is counted exactly if no frame is backed by the buffer. */
  lemma {:induction false} NoneCountedIff(fs: seq<Frame>, b: nat)
    ensures Count(fs, b) == 0 <==> HasNone(fs, b)
  {
    if fs == [] {
    } else {
      NoneCountedIff(DropLast(fs), b);
      if HasNone(DropLast(fs), b) && !BackedBy(Last(fs), b) {
        assert HasNone(fs, b);
      }
      if HasNone(fs, b) {
        assert HasNone(DropLast(fs), b) && !BackedBy(fs[|fs| - 1], b);
      }
    }
  }

  /** A buffer that has been released is in no channel, no hand and no processor any more. */
  lemma ReleasedIsNotInUse(cfg: Config, events: seq<Event>, i: nat, j: nat, b: nat)
    requires |cfg.caps| > 0 && OwningRun(cfg, events, b)
    requires i < |Exec(cfg, events).value.released| && BackedBy(Exec(cfg, events).value.released[i], b)
    requires j < |cfg.caps|
    ensures var l := Exec(cfg, events).value.links[j];
      HasNone(l.ch, b) && HasNone(l.hand, b) && (l.cur.Some? ==> !BackedBy(l.cur.value, b))
  {
    var s := Exec(cfg, events).value;
    BufferInOnePlace(cfg, events, b);
    CountIn(s.released, i, b);
    LinkAmong(s.links, j, b);
    NoneCountedIff(s.links[j].ch, b);
    NoneCountedIff(s.links[j].hand, b);
  }
}

/** The same discipline for the goroutine that runs all stages in sequence. */
module SyncOwnership {
  import opened Base
  import opened Pipeline
  import opened AudioOwnership

  /**
   * `stage` counts the stages behind the frames in `todo`; `next` collects the outputs of
   * the stage at work. Once `stage` is the number of processors the frames in `todo` are
   * emitted: to the sink, or to a channel whose reader then owns them.
   */
  datatype Loop = Loop(
    queued: seq<Frame>,
    stage: nat,
    todo: seq<Frame>,
    next: seq<Frame>,
    read: seq<Frame>,
    released: seq<Frame>)

  datatype Move =
    | Arrive(f: Frame, room: bool)
    | Pop(late: bool)
    | Process(outs: Option<seq<Frame>>, ownRelease: bool)
    | NextStage
    | Emit(accepted: bool)

  function LoopPlaces(s: Loop, b: nat): nat {
    Count(s.queued, b) + Count(s.todo, b) + Count(s.next, b) + Count(s.read, b) + Count(s.released, b)
  }

  predicate CanMove(n: nat, s: Loop, m: Move) {
    match m
    case Arrive(_, _) => true
    case Pop(_) => s.queued != [] && s.todo == [] && s.next == [] && s.stage == n
    case Process(_, _) => s.stage < n && s.todo != []
    case NextStage => s.stage < n && s.todo == []
    case Emit(_) => s.stage == n && s.todo != []
  }

  /** A frame that the queue or the output channel refuses, or that is late, is released. */
  function MoveTo(n: nat, sink: bool, s: Loop, m: Move): Loop
    requires CanMove(n, s, m)
  {
    match m
    case Arrive(f, room) =>
      if room then s.(queued := s.queued + [f]) else s.(released := s.released + [f])
    case Pop(late) =>
      var s' := s.(queued := s.queued[1..]);
      if late then s'.(released := s.released + [s.queued[0]]) else s'.(todo := [s.queued[0]], stage := 0)
    case Process(outs, ownRelease) =>
      s.(todo := s.todo[1..],
         next := if outs.Some? then s.next + outs.value else s.next,
         released := if outs.None? || ownRelease then s.released + [s.todo[0]] else s.released)
    case NextStage =>
      s.(todo := s.next, next := [], stage := if s.next == [] then n else s.stage + 1)
    case Emit(accepted) =>
      var s' := s.(todo := s.todo[1..]);
      if sink || !accepted then s'.(released := s.released + [s.todo[0]]) else s'.(read := s.read + [s.todo[0]])
  }

  ghost predicate MovesWell(s: Loop, m: Move, b: nat) {
    match m
    case Arrive(f, _) => Holds(f, b) == 0 || LoopPlaces(s, b) == 0
    case Process(outs, ownRelease) =>
      s.todo != [] ==> ContractFor(LoopPlaces(s, b), s.todo[0], outs, ownRelease, b)
    case _ => true
  }

  function Run(n: nat, sink: bool, moves: seq<Move>): Option<Loop> {
    if moves == [] then Some(Loop([], n, [], [], [], []))
    else
      var before := Run(n, sink, DropLast(moves));
      if before.Some? && CanMove(n, before.value, Last(moves))
      then Some(MoveTo(n, sink, before.value, Last(moves)))
      else None
  }

  ghost predicate OwningMoves(n: nat, sink: bool, moves: seq<Move>, b: nat) {
    && Run(n, sink, moves).Some?
    && (moves != [] ==>
      && OwningMoves(n, sink, DropLast(moves), b)
      && MovesWell(Run(n, sink, DropLast(moves)).value, Last(moves), b))
  }

  lemma MoveKeepsPlaces(n: nat, sink: bool, s: Loop, m: Move, b: nat)
    requires CanMove(n, s, m) && MovesWell(s, m, b) && LoopPlaces(s, b) <= 1
    ensures LoopPlaces(s, b) <= LoopPlaces(MoveTo(n, sink, s, m), b) <= 1
  {
    match m
    case Arrive(f, _) =>
      CountSnoc(s.queued, f, b);
      CountSnoc(s.released, f, b);
    case Pop(_) =>
      CountHead(s.queued, b);
      CountSnoc(s.released, s.queued[0], b);
      CountOne(s.queued[0], b);
    case Process(outs, _) =>
      CountHead(s.todo, b);
      CountSnoc(s.released, s.todo[0], b);
      if outs.Some? {
        CountAppend(s.next, outs.value, b);
      }
    case NextStage =>
    case Emit(_) =>
      CountHead(s.todo, b);
      CountSnoc(s.released, s.todo[0], b);
      CountSnoc(s.read, s.todo[0], b);
  }

  lemma {:induction false} SyncBufferInOnePlace(n: nat, sink: bool, moves: seq<Move>, b: nat)
    requires OwningMoves(n, sink, moves, b)
    ensures LoopPlaces(Run(n, sink, moves).value, b) <= 1
  {
    if moves == [] {
    } else {
      SyncBufferInOnePlace(n, sink, DropLast(moves), b);
      MoveKeepsPlaces(n, sink, Run(n, sink, DropLast(moves)).value, Last(moves), b);
    }
  }

  /** A buffer that has a place at some time has one ever after, in this form, too. */
  lemma {:induction false} SyncBufferStays(n: nat, sink: bool, early: seq<Move>, moves: seq<Move>, b: nat)
    requires OwningMoves(n, sink, moves, b) && early <= moves
    ensures Run(n, sink, early).Some?
    ensures LoopPlaces(Run(n, sink, early).value, b) <= LoopPlaces(Run(n, sink, moves).value, b)
    decreases |moves|
  {
    if early == moves {
    } else {
      assert early <= DropLast(moves);
      SyncBufferStays(n, sink, early, DropLast(moves), b);
      SyncBufferInOnePlace(n, sink, DropLast(moves), b);
      MoveKeepsPlaces(n, sink, Run(n, sink, DropLast(moves)).value, Last(moves), b);
    }
  }

  /** A frame has gone through all stages and out, and the loop is ready to pop again. */
  ghost predicate Delivered(sink: bool, before: Loop, after: Loop, f: Frame, n: nat) {
    && after.stage == n && after.todo == [] && after.next == [] && [f] + after.queued == before.queued
    && after.released == (if sink then before.released + [f] else before.released)
    && after.read == (if sink then before.read else before.read + [f])
  }

  /** The moves that take one frame, passed on by every processor, through `left` stages and out. */
  function PassingMoves(f: Frame, left: nat): seq<Move> {
    if left == 0 then [Emit(true)] else [Process(Some([f]), false), NextStage] + PassingMoves(f, left - 1)
  }

  function MovesFrom(n: nat, sink: bool, s: Loop, moves: seq<Move>): Option<Loop>
    decreases |moves|
  {
    if moves == [] then Some(s)
    else if CanMove(n, s, moves[0]) then MovesFrom(n, sink, MoveTo(n, sink, s, moves[0]), moves[1..])
    else None
  }

  lemma {:induction false} StagesPass(n: nat, sink: bool, s: Loop, f: Frame)
    requires s.stage <= n && s.todo == [f] && s.next == []
    ensures var after := MovesFrom(n, sink, s, PassingMoves(f, n - s.stage));
      after.Some? && Delivered(sink, s.(queued := [f] + s.queued), after.value, f, n)
    decreases n - s.stage
  {
    var moves := PassingMoves(f, n - s.stage);
    if s.stage == n {
      assert moves[1..] == [];
    } else {
      var processed := MoveTo(n, sink, s, moves[0]);
      assert [] + [f] == [f];
      assert processed == s.(todo := [], next := [f]);
      var next := MoveTo(n, sink, processed, moves[1]);
      assert next == s.(todo := [f], next := [], stage := s.stage + 1);
      assert moves[1..][0] == NextStage && moves[1..][1..] == PassingMoves(f, n - next.stage);
      StagesPass(n, sink, next, f);
    }
  }

  /**
   * One iteration: the oldest queued frame, if it is not late, goes through every stage in turn
   * and is emitted; if it is late it is released at once.
   */
  lemma IterationInMoves(n: nat, sink: bool, s: Loop)
    requires s.stage == n && s.todo == [] && s.next == [] && s.queued != []
    ensures var after := MovesFrom(n, sink, s, [Pop(false)] + PassingMoves(s.queued[0], n));
      after.Some? && Delivered(sink, s, after.value, s.queued[0], n)
    ensures CanMove(n, s, Pop(true)) && !CanMove(n, s, NextStage)
    ensures MoveTo(n, sink, s, Pop(true)) == s.(queued := s.queued[1..], released := s.released + [s.queued[0]])
  {
    var f := s.queued[0];
    var popped := MoveTo(n, sink, s, Pop(false));
    assert popped == s.(queued := s.queued[1..], todo := [f], stage := 0);
    assert ([Pop(false)] + PassingMoves(f, n))[1..] == PassingMoves(f, n);
    StagesPass(n, sink, popped, f);
    assert [f] + s.queued[1..] == s.queued;
  }

  /** A frame that arrives is queued if there is room, and otherwise released. */
  lemma ArrivalInMoves(n: nat, sink: bool, s: Loop, f: Frame)
    ensures CanMove(n, s, Arrive(f, true)) && CanMove(n, s, Arrive(f, false))
    ensures MoveTo(n, sink, s, Arrive(f, true)) == s.(queued := s.queued + [f])
    ensures MoveTo(n, sink, s, Arrive(f, false)) == s.(released := s.released + [f])
  {
  }

  /** A frame for which a stage returns nothing is released, and the iteration is over. */
  lemma SwallowedInMoves(n: nat, sink: bool, s: Loop, f: Frame)
    requires s.stage < n && s.todo == [f] && s.next == []
    ensures CanMove(n, s, Process(None, false))
    ensures var processed := MoveTo(n, sink, s, Process(None, false));
      && processed.released == s.released + [f] && CanMove(n, processed, NextStage)
      && MoveTo(n, sink, processed, NextStage) == s.(todo := [], stage := n, released := s.released + [f])
  {
  }

  /** Frames are processed before the last stage and emitted after it; one that is refused is released. */
  lemma EmitInMoves(n: nat, s: Loop, outs: Option<seq<Frame>>, own: bool, accepted: bool)
    requires s.todo != [] && s.stage <= n
    ensures CanMove(n, s, Emit(accepted)) <==> s.stage == n
    ensures CanMove(n, s, Process(outs, own)) <==> s.stage < n
    ensures !CanMove(n, s, NextStage) && !CanMove(n, s, Pop(false))
    ensures s.stage == n ==>
      MoveTo(n, false, s, Emit(false)) == s.(todo := s.todo[1..], released := s.released + [s.todo[0]])
  {
  }
}
