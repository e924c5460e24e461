/**
 * The asynchronous orchestrator of pkg/pipeline/orchestrator.go as a transition system.
 *
 * The runtime is a chain of links. Link j is the bounded channel `stageCh[j]` together
 * with its single sender and its single receiver. The sender of link 0 is the goroutine
 * that pops the priority queue, the sender of link j+1 is the receiver of link j, and the
 * receiver of the last link delivers. With a sink there is one link more than there are
 * processors; without one the last link is the `out` channel, and the goroutine in front
 * of it is a stage that forwards its input.
 *
 * Every event below is one atomic action of one goroutine, so a sequence of events is an
 * interleaving of the goroutines.
 */
module Pipeline {
  import opened Base

  datatype Kind = Audio | Text | Control | System | Image

  /** `pooled` names the pool buffer that backs an audio frame, if there is one. */
  datatype Frame = Frame(kind: Kind, pts: int, pooled: Option<nat>, body: int)

  datatype Backpressure = Drop | Wait

  datatype Config = Config(
    mode: Backpressure,
    sink: bool,
    highCap: nat,
    lowCap: nat,
    caps: seq<nat>)

  /** What became of a frame that a goroutine handed to `push`. */
  datatype Fate = Sent | Recorded | Abandoned

  /**
   * hand     frames the sender still has to push, in order
   * cleared  the head of `hand` has passed the lag test and now waits for the channel
   * ch       the contents of the channel
   * cur      the frame the receiver is working on
   *
   * The other fields are histories: every frame handed to `push`, what happened to each,
   * the recorded drops, everything the receiver took and everything it has finished.
   */
  datatype Link = Link(
    hand: seq<Frame>,
    cleared: bool,
    ch: seq<Frame>,
    cur: Option<Frame>,
    offered: seq<Frame>,
    fates: seq<Fate>,
    lost: seq<Frame>,
    recv: seq<Frame>,
    done: seq<Frame>)

  datatype State = State(
    high: seq<Frame>,
    low: seq<Frame>,
    links: seq<Link>,
    cancelled: bool,
    emitted: seq<Frame>,
    released: seq<Frame>)

  /** What can happen to one link without touching another. */
  datatype Action =
    | Check(now: int)
    | Push
    | Handoff
    | DropFull
    | Abandon
    | Take

  datatype Event =
    | Feed(f: Frame)
    | PopHigh(now: int)
    | PopLow(now: int)
    | At(j: nat, act: Action)
    | Finish(j: nat, outs: Option<seq<Frame>>, ownRelease: bool)
    | Deliver
    | Cancel

  const EARLIEST_WALL_CLOCK_PTS := 1_000_000_000_000
  const MAX_LAG := 500_000_000

  /** Audio whose time stamp is a wall clock reading more than 500 ms old. */
  predicate ShouldDropForLag(f: Frame, now: int) {
    f.kind.Audio? && f.pts >= EARLIEST_WALL_CLOCK_PTS && now - f.pts > MAX_LAG
  }

  const EMPTY_LINK := Link([], false, [], None, [], [], [], [], [])

  function Init(cfg: Config): State {
    State([], [], seq(|cfg.caps|, _ => EMPTY_LINK), false, [], [])
  }

  /** The receiver of link j is back at its receive statement. */
  predicate ReceiverIdle(links: seq<Link>, j: nat)
    requires j < |links|
  {
    links[j].cur.None? && (j + 1 < |links| ==> links[j + 1].hand == [])
  }

  function Offer(l: Link, fs: seq<Frame>): Link {
    l.(hand := l.hand + fs, offered := l.offered + fs)
  }

  /** The head of the hand meets its fate. */
  function Resolve(l: Link, fate: Fate): Link
    requires l.hand != []
  {
    var l' := l.(hand := l.hand[1..], cleared := false, fates := l.fates + [fate]);
    match fate
    case Sent => l'.(ch := l.ch + [l.hand[0]])
    case Recorded => l'.(lost := l.lost + [l.hand[0]])
    case Abandoned => l'
  }

  function TakeHead(l: Link): Link
    requires l.ch != []
  {
    l.(ch := l.ch[1..], cur := Some(l.ch[0]), recv := l.recv + [l.ch[0]])
  }

  function FinishCurrent(l: Link): Link
    requires l.cur.Some?
  {
    l.(cur := None, done := l.done + [l.cur.value])
  }

  /** `idle` says whether the receiver of the link is ready to receive. */
  predicate CanAct(cfg: Config, l: Link, cap: nat, idle: bool, cancelled: bool, act: Action) {
    match act
    case Check(_) => l.hand != [] && !l.cleared
    case Push => l.hand != [] && l.cleared && |l.ch| < cap
    case Handoff => l.hand != [] && l.cleared && l.ch == [] && idle
    case DropFull => l.hand != [] && l.cleared && |l.ch| >= cap && cfg.mode.Drop?
    case Abandon => l.hand != [] && l.cleared && cfg.mode.Wait? && cancelled
    case Take => l.ch != [] && idle
  }

  /** The action ends with the head of the hand being released. */
  predicate Loses(l: Link, act: Action)
    requires !act.Take? ==> l.hand != []
  {
    act.DropFull? || act.Abandon? || (act.Check? && ShouldDropForLag(l.hand[0], act.now))
  }

  function Act(l: Link, act: Action): Link
    requires if act.Take? then l.ch != [] else l.hand != []
  {
    match act
    case Check(now) => if ShouldDropForLag(l.hand[0], now) then Resolve(l, Recorded) else l.(cleared := true)
    case Push => Resolve(l, Sent)
    case Handoff => TakeHead(Resolve(l, Sent))
    case DropFull => Resolve(l, Recorded)
    case Abandon => Resolve(l, Abandoned)
    case Take => TakeHead(l)
  }

  predicate Enabled(cfg: Config, s: State, e: Event)
    requires |s.links| == |cfg.caps| > 0
  {
    match e
    case Feed(_) => true
    case PopHigh(_) => s.high != [] && s.links[0].hand == []
    case PopLow(_) => s.low != [] && s.links[0].hand == []
    case At(j, act) =>
      j < |s.links| && CanAct(cfg, s.links[j], cfg.caps[j], ReceiverIdle(s.links, j), s.cancelled, act)
    case Finish(j, _, _) => j + 1 < |s.links| && s.links[j].cur.Some?
    case Deliver => Last(s.links).cur.Some?
    case Cancel => true
  }

  /** The links after the popping goroutine got `f`: a late frame goes no further. */
  function Popped(links: seq<Link>, f: Frame, now: int): (r: seq<Link>)
    requires links != []
    ensures |r| == |links|
  {
    if ShouldDropForLag(f, now) then links else links[0 := Offer(links[0], [f])]
  }

  function LinksAfter(cfg: Config, s: State, e: Event): (r: seq<Link>)
    requires |s.links| == |cfg.caps| > 0
    requires Enabled(cfg, s, e)
    ensures |r| == |s.links|
  {
    match e
    case Feed(_) => s.links
    case PopHigh(now) => Popped(s.links, s.high[0], now)
    case PopLow(now) => Popped(s.links, s.low[0], now)
    case At(j, act) => s.links[j := Act(s.links[j], act)]
    case Finish(j, outs, _) =>
      var links := s.links[j := FinishCurrent(s.links[j])];
      if outs.Some? then links[j + 1 := Offer(links[j + 1], outs.value)] else links
    case Deliver => s.links[|s.links| - 1 := FinishCurrent(Last(s.links))]
    case Cancel => s.links
  }

  /** The frame that an event releases, if any; audio buffers then go back to the pool. */
  function Freed(cfg: Config, s: State, e: Event): Option<Frame>
    requires |s.links| == |cfg.caps| > 0
    requires Enabled(cfg, s, e)
  {
    match e
    case Feed(f) => if HasRoom(cfg, s, f) then None else Some(f)
    case PopHigh(now) => if ShouldDropForLag(s.high[0], now) then Some(s.high[0]) else None
    case PopLow(now) => if ShouldDropForLag(s.low[0], now) then Some(s.low[0]) else None
    case At(j, act) => if Loses(s.links[j], act) then Some(s.links[j].hand[0]) else None
    case Finish(j, outs, ownRelease) => if outs.None? || ownRelease then s.links[j].cur else None
    case Deliver => if cfg.sink then Last(s.links).cur else None
    case Cancel => None
  }

  /** Control frames go to the high class of the priority queue, all others to the low one. */
  predicate HasRoom(cfg: Config, s: State, f: Frame) {
    if f.kind.Control? then |s.high| < cfg.highCap else |s.low| < cfg.lowCap
  }

  function Step(cfg: Config, s: State, e: Event): (r: State)
    requires |s.links| == |cfg.caps| > 0
    requires Enabled(cfg, s, e)
    ensures |r.links| == |s.links|
  {
    State(
      if e.Feed? && e.f.kind.Control? && HasRoom(cfg, s, e.f) then s.high + [e.f]
      else if e.PopHigh? then s.high[1..] else s.high,
      if e.Feed? && !e.f.kind.Control? && HasRoom(cfg, s, e.f) then s.low + [e.f]
      else if e.PopLow? then s.low[1..] else s.low,
      LinksAfter(cfg, s, e),
      s.cancelled || e.Cancel?,
      if e.Deliver? then s.emitted + [Last(s.links).cur.value] else s.emitted,
      s.released + AsSeq(Freed(cfg, s, e)))
  }

  /** The state after an interleaving, or None when some event of it was not possible. */
  function Exec(cfg: Config, events: seq<Event>): (r: Option<State>)
    requires |cfg.caps| > 0
    ensures r.Some? ==> |r.value.links| == |cfg.caps|
  {
    if events == [] then Some(Init(cfg))
    else
      var before := Exec(cfg, DropLast(events));
      if before.Some? && Enabled(cfg, before.value, Last(events))
      then Some(Step(cfg, before.value, Last(events)))
      else None
  }
}
