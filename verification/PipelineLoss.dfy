/**
 * What the links of the asynchronous orchestrator can lose: frames are dropped or
 * abandoned, but never invented, duplicated or reordered.
 */
module PipelineLoss {
  import opened Base
  import opened Pipeline

  /** The frames of `fs` that met the fate `want`, in order. */
  function Select(fs: seq<Frame>, fates: seq<Fate>, want: Fate): seq<Frame>
    requires |fs| == |fates|
  {
    if fs == [] then []
    else Select(DropLast(fs), DropLast(fates), want) + (if Last(fates) == want then [Last(fs)] else [])
  }

  function Handled(l: Link): seq<Frame>
    requires |l.fates| <= |l.offered|
  {
    l.offered[..|l.fates|]
  }

  ghost predicate LinkInv(l: Link) {
    && |l.fates| <= |l.offered|
    && l.hand == l.offered[|l.fates|..]
    && l.recv + l.ch == Select(Handled(l), l.fates, Sent)
    && l.lost == Select(Handled(l), l.fates, Recorded)
    && l.recv == l.done + AsSeq(l.cur)
    && (l.cleared ==> l.hand != [])
  }

  ghost predicate LinksInv(cfg: Config, links: seq<Link>, cancelled: bool) {
    && |links| == |cfg.caps| > 0
    && (forall j :: 0 <= j < |links| ==> LinkOk(cfg, links[j], cfg.caps[j], cancelled))
  }

  ghost predicate LinkOk(cfg: Config, l: Link, cap: nat, cancelled: bool) {
    && LinkInv(l)
    && |l.ch| <= cap
    && (Abandoned in l.fates ==> cfg.mode.Wait? && cancelled)
  }

  ghost predicate Inv(cfg: Config, s: State) {
    && LinksInv(cfg, s.links, s.cancelled)
    && |s.high| <= cfg.highCap && |s.low| <= cfg.lowCap
  }

  lemma ResolveKeeps(l: Link, fate: Fate)
    requires LinkInv(l) && l.hand != []
    ensures LinkInv(Resolve(l, fate))
  {
    var handled := l.offered[..|l.fates| + 1];
    assert DropLast(handled) == Handled(l) && Last(handled) == l.hand[0];
    assert DropLast(l.fates + [fate]) == l.fates;
    assert l.recv + (l.ch + [l.hand[0]]) == (l.recv + l.ch) + [l.hand[0]];
  }

  lemma TakeHeadKeeps(l: Link)
    requires LinkInv(l) && l.ch != [] && l.cur.None?
    ensures LinkInv(TakeHead(l))
  {
    assert (l.recv + [l.ch[0]]) + l.ch[1..] == l.recv + l.ch;
  }

  lemma ActKeeps(l: Link, act: Action)
    requires LinkInv(l)
    requires if act.Take? then l.ch != [] else l.hand != []
    requires act.Take? || act.Handoff? ==> l.cur.None?
    ensures LinkInv(Act(l, act))
  {
    if act.Take? {
      TakeHeadKeeps(l);
    } else {
      ResolveKeeps(l, Sent);
      ResolveKeeps(l, Recorded);
      ResolveKeeps(l, Abandoned);
      if act.Handoff? {
        TakeHeadKeeps(Resolve(l, Sent));
      }
    }
  }

  lemma OfferKeeps(l: Link, fs: seq<Frame>)
    requires LinkInv(l)
    ensures LinkInv(Offer(l, fs))
    ensures Offer(l, fs).cleared ==> Offer(l, fs).hand != []
  {
    assert (l.offered + fs)[..|l.fates|] == Handled(l);
  }

  lemma PoppedKeeps(cfg: Config, links: seq<Link>, cancelled: bool, f: Frame, now: int)
    requires LinksInv(cfg, links, cancelled)
    ensures LinksInv(cfg, Popped(links, f, now), cancelled)
  {
    OfferKeeps(links[0], [f]);
    assert LinkOk(cfg, Offer(links[0], [f]), cfg.caps[0], cancelled);
  }

  lemma FinishKeeps(cfg: Config, s: State, e: Event)
    requires Inv(cfg, s) && Enabled(cfg, s, e) && e.Finish?
    ensures LinksInv(cfg, LinksAfter(cfg, s, e), s.cancelled)
  {
    var l := FinishCurrent(s.links[e.j]);
    assert LinkOk(cfg, s.links[e.j], cfg.caps[e.j], s.cancelled);
    assert LinkOk(cfg, l, cfg.caps[e.j], s.cancelled);
    if e.outs.Some? {
      assert LinkOk(cfg, s.links[e.j + 1], cfg.caps[e.j + 1], s.cancelled);
      OfferKeeps(s.links[e.j + 1], e.outs.value);
      assert LinkOk(cfg, Offer(s.links[e.j + 1], e.outs.value), cfg.caps[e.j + 1], s.cancelled);
    }
  }

  lemma ActStepKeeps(cfg: Config, s: State, e: Event)
    requires Inv(cfg, s) && Enabled(cfg, s, e) && e.At?
    ensures LinksInv(cfg, LinksAfter(cfg, s, e), s.cancelled)
  {
    assert LinkOk(cfg, s.links[e.j], cfg.caps[e.j], s.cancelled);
    ActKeeps(s.links[e.j], e.act);
    assert LinkOk(cfg, Act(s.links[e.j], e.act), cfg.caps[e.j], s.cancelled);
  }

  lemma DeliverKeeps(cfg: Config, s: State)
    requires Inv(cfg, s) && Enabled(cfg, s, Deliver)
    ensures LinksInv(cfg, LinksAfter(cfg, s, Deliver), s.cancelled)
  {
    var j := |s.links| - 1;
    assert LinkOk(cfg, s.links[j], cfg.caps[j], s.cancelled);
    assert LinkOk(cfg, FinishCurrent(s.links[j]), cfg.caps[j], s.cancelled);
  }

  lemma CancelKeeps(cfg: Config, links: seq<Link>, cancelled: bool)
    requires LinksInv(cfg, links, cancelled)
    ensures LinksInv(cfg, links, true)
  {
    forall j | 0 <= j < |links|
      ensures LinkOk(cfg, links[j], cfg.caps[j], true)
    {
      assert LinkOk(cfg, links[j], cfg.caps[j], cancelled);
    }
  }

  lemma StepKeepsInv(cfg: Config, s: State, e: Event)
    requires Inv(cfg, s) && Enabled(cfg, s, e)
    ensures Inv(cfg, Step(cfg, s, e))
  {
    match e
    case Feed(_) =>
    case PopHigh(now) => PoppedKeeps(cfg, s.links, s.cancelled, s.high[0], now);
    case PopLow(now) => PoppedKeeps(cfg, s.links, s.cancelled, s.low[0], now);
    case At(_, _) => ActStepKeeps(cfg, s, e);
    case Finish(_, _, _) => FinishKeeps(cfg, s, e);
    case Deliver => DeliverKeeps(cfg, s);
    case Cancel => CancelKeeps(cfg, s.links, s.cancelled);
  }

  lemma {:induction false} ReachableInv(cfg: Config, events: seq<Event>)
    requires |cfg.caps| > 0 && Exec(cfg, events).Some?
    ensures Inv(cfg, Exec(cfg, events).value)
  {
    if events == [] {
    } else {
      ReachableInv(cfg, DropLast(events));
      StepKeepsInv(cfg, Exec(cfg, DropLast(events)).value, Last(events));
    }
  }

  /** What the processor behind link j returns in event `e`. */
  function OutputIn(e: Event, j: nat): seq<Frame> {
    if e.Finish? && e.j == j && e.outs.Some? then e.outs.value else []
  }

  /** Everything the processor behind link j returned during a run, in order. */
  function OutputsOf(events: seq<Event>, j: nat): seq<Frame> {
    if events == [] then [] else OutputsOf(DropLast(events), j) + OutputIn(Last(events), j)
  }

  lemma FinishOffers(cfg: Config, s: State, e: Event, j: nat)
    requires |s.links| == |cfg.caps| > 0 && Enabled(cfg, s, e) && j + 1 < |s.links| && e.Finish?
    ensures Step(cfg, s, e).links[j + 1].offered == s.links[j + 1].offered + OutputIn(e, j)
  {
    if OutputIn(e, j) == [] {
      assert s.links[j + 1].offered + [] == s.links[j + 1].offered;
    }
  }

  lemma OtherStepsOfferNothing(cfg: Config, s: State, e: Event, j: nat)
    requires |s.links| == |cfg.caps| > 0 && Enabled(cfg, s, e) && j + 1 < |s.links| && !e.Finish?
    ensures Step(cfg, s, e).links[j + 1].offered == s.links[j + 1].offered
    ensures Step(cfg, s, e).links[j].done == s.links[j].done
  {
  }

  lemma {:induction false} OfferedIsOutput(cfg: Config, events: seq<Event>, j: nat)
    requires |cfg.caps| > 0 && Exec(cfg, events).Some? && j + 1 < |cfg.caps|
    ensures Exec(cfg, events).value.links[j + 1].offered == OutputsOf(events, j)
  {
    if events == [] {
    } else {
      OfferedIsOutput(cfg, DropLast(events), j);
      var before := Exec(cfg, DropLast(events)).value;
      if Last(events).Finish? {
        FinishOffers(cfg, before, Last(events), j);
      } else {
        OtherStepsOfferNothing(cfg, before, Last(events), j);
        assert OutputsOf(events, j) == OutputsOf(DropLast(events), j) + [];
      }
    }
  }

  /** Where a fate occurs, in order. */
  function PositionsOf(fates: seq<Fate>, want: Fate): seq<nat> {
    if fates == [] then []
    else PositionsOf(DropLast(fates), want) + (if Last(fates) == want then [|fates| - 1] else [])
  }

  lemma {:induction false} PositionsAreExact(fates: seq<Fate>, want: Fate, i: nat)
    ensures i in PositionsOf(fates, want) <==> i < |fates| && fates[i] == want
  {
    if fates == [] {
    } else {
      PositionsAreExact(DropLast(fates), want, i);
    }
  }

  lemma EmbedsLonger(part: seq<Frame>, whole: seq<Frame>, f: Frame, at: seq<nat>)
    requires Embeds(part, whole, at)
    ensures Embeds(part, whole + [f], at)
    ensures Embeds(part + [f], whole + [f], at + [|whole|])
  {
  }

  lemma {:induction false} SelectEmbeds(fs: seq<Frame>, fates: seq<Fate>, want: Fate)
    requires |fs| == |fates|
    ensures Embeds(Select(fs, fates, want), fs, PositionsOf(fates, want))
  {
    if fs == [] {
    } else {
      SelectEmbeds(DropLast(fs), DropLast(fates), want);
      var part, at := Select(DropLast(fs), DropLast(fates), want), PositionsOf(DropLast(fates), want);
      EmbedsLonger(part, DropLast(fs), Last(fs), at);
      assert DropLast(fs) + [Last(fs)] == fs;
      if Last(fates) != want {
        assert part + [] == part && at + [] == at;
      }
    }
  }

  /**
   * The frames handed to `push` for one channel, except those still in hand, split by
   * position into the channel history and the recorded drops, each in order. Only a
   * cancelled orchestrator that waits for room can lose a frame without recording it.
   */
  lemma PushPartitions(cfg: Config, events: seq<Event>, j: nat)
    returns (sentAt: seq<nat>, lostAt: seq<nat>)
    requires |cfg.caps| > 0 && Exec(cfg, events).Some? && j < |cfg.caps|
    ensures var s := Exec(cfg, events).value; var l := s.links[j];
      && |l.fates| <= |l.offered| && l.offered == Handled(l) + l.hand
      && Embeds(l.recv + l.ch, Handled(l), sentAt)
      && Embeds(l.lost, Handled(l), lostAt)
      && (forall i: nat :: i in sentAt ==> i !in lostAt)
      && (cfg.mode.Drop? || !s.cancelled ==> forall i: nat :: i < |Handled(l)| ==> i in sentAt || i in lostAt)
  {
    ReachableInv(cfg, events);
    var s := Exec(cfg, events).value;
    var l := s.links[j];
    assert LinkOk(cfg, l, cfg.caps[j], s.cancelled);
    sentAt, lostAt := PositionsOf(l.fates, Sent), PositionsOf(l.fates, Recorded);
    SelectEmbeds(Handled(l), l.fates, Sent);
    SelectEmbeds(Handled(l), l.fates, Recorded);
    forall i: nat
      ensures i in sentAt ==> i !in lostAt
      ensures i < |l.fates| && l.fates[i] != Abandoned ==> i in sentAt || i in lostAt
    {
      PositionsAreExact(l.fates, Sent, i);
      PositionsAreExact(l.fates, Recorded, i);
    }
    if cfg.mode.Drop? || !s.cancelled {
      assert forall i :: 0 <= i < |l.fates| ==> l.fates[i] in l.fates;
    }
  }

  lemma EmbedsFront(part: seq<Frame>, rest: seq<Frame>, whole: seq<Frame>, more: seq<Frame>, at: seq<nat>)
    requires Embeds(part + rest, whole, at)
    ensures Embeds(part, whole + more, at[..|part|])
  {
    assert forall k :: 0 <= k < |part| ==> part[k] == (part + rest)[k];
  }

  /** What a stage has received is a subsequence of what the stage before it returned. */
  lemma ReceivedIsSubsequence(cfg: Config, events: seq<Event>, j: nat)
    requires |cfg.caps| > 0 && Exec(cfg, events).Some? && j + 1 < |cfg.caps|
    ensures IsSubsequence(Exec(cfg, events).value.links[j + 1].recv, OutputsOf(events, j))
  {
    var l := Exec(cfg, events).value.links[j + 1];
    OfferedIsOutput(cfg, events, j);
    ReachableInv(cfg, events);
    var at := PositionsOf(l.fates, Sent);
    SelectEmbeds(Handled(l), l.fates, Sent);
    EmbedsFront(l.recv, l.ch, Handled(l), l.hand, at);
    assert Handled(l) + l.hand == l.offered;
  }

  /** Every frame handed to `push`, and no longer in hand, is in one of the two histories. */
  ghost predicate Accounts(l: Link) {
    |l.fates| <= |l.offered| && forall f :: f in Handled(l) ==> f in l.recv + l.ch || f in l.lost
  }

  ghost predicate AllAccount(s: State) {
    forall j :: 0 <= j < |s.links| ==> Accounts(s.links[j])
  }

  lemma DropAccounts(cfg: Config, events: seq<Event>)
    requires |cfg.caps| > 0 && cfg.mode.Drop? && Exec(cfg, events).Some?
    ensures AllAccount(Exec(cfg, events).value)
  {
    var s := Exec(cfg, events).value;
    forall j | 0 <= j < |s.links|
      ensures Accounts(s.links[j])
    {
      var sentAt, lostAt := PushPartitions(cfg, events, j);
      var l := s.links[j];
      forall f | f in Handled(l)
        ensures f in l.recv + l.ch || f in l.lost
      {
        var i: nat :| i < |Handled(l)| && Handled(l)[i] == f;
        if i in sentAt {
          var k :| 0 <= k < |sentAt| && sentAt[k] == i;
          assert (l.recv + l.ch)[k] == f;
        } else {
          var k :| 0 <= k < |lostAt| && lostAt[k] == i;
          assert l.lost[k] == f;
        }
      }
    }
  }

  /** Nothing has got past the priority queue. */
  ghost predicate Blank(s: State) {
    && s.high == [] && s.low == []
    && (forall j :: 0 <= j < |s.links| ==> s.links[j] == EMPTY_LINK)
  }

  lemma {:induction false} NoQueueStaysBlank(cfg: Config, events: seq<Event>)
    requires |cfg.caps| > 0 && cfg.highCap == 0 && cfg.lowCap == 0 && Exec(cfg, events).Some?
    ensures Blank(Exec(cfg, events).value)
  {
    if events == [] {
    } else {
      NoQueueStaysBlank(cfg, DropLast(events));
    }
  }

  lemma ExecSnoc(cfg: Config, events: seq<Event>, e: Event)
    requires |cfg.caps| > 0 && Exec(cfg, events).Some? && Enabled(cfg, Exec(cfg, events).value, e)
    ensures Exec(cfg, events + [e]) == Some(Step(cfg, Exec(cfg, events).value, e))
  {
    assert DropLast(events + [e]) == events;
  }

  /** A frame that the queue has room for while it is empty. */
  function FirstFrame(cfg: Config): Frame {
    Frame(if cfg.lowCap > 0 then Text else Control, 0, None, 0)
  }

  /** The frame has been fed, popped and put into the sender's hand, and has passed the lag test. */
  function Fed(cfg: Config): State {
    if cfg.lowCap > 0 then Init(cfg).(low := [FirstFrame(cfg)]) else Init(cfg).(high := [FirstFrame(cfg)])
  }

  function InHand(cfg: Config, cleared: bool): State
    requires |cfg.caps| > 0
  {
    var l := EMPTY_LINK.(hand := [FirstFrame(cfg)], cleared := cleared, offered := [FirstFrame(cfg)]);
    Init(cfg).(links := Init(cfg).links[0 := l])
  }

  lemma FeedsFirst(cfg: Config)
    requires |cfg.caps| > 0 && cfg.highCap + cfg.lowCap > 0
    ensures Step(cfg, Init(cfg), Feed(FirstFrame(cfg))) == Fed(cfg)
  {
    var s := Step(cfg, Init(cfg), Feed(FirstFrame(cfg)));
    assert s.released == [] + [] && s.low == Fed(cfg).low && s.high == Fed(cfg).high;
  }

  lemma PopsFirst(cfg: Config) returns (pop: Event)
    requires |cfg.caps| > 0 && cfg.highCap + cfg.lowCap > 0
    ensures Enabled(cfg, Fed(cfg), pop) && Step(cfg, Fed(cfg), pop) == InHand(cfg, false)
  {
    pop := if cfg.lowCap > 0 then PopLow(0) else PopHigh(0);
    var s := Step(cfg, Fed(cfg), pop);
    assert s.links == InHand(cfg, false).links by {
      assert [] + [FirstFrame(cfg)] == [FirstFrame(cfg)];
    }
    assert s.high == [] && s.low == [] && s.released == [];
  }

  lemma ChecksFirst(cfg: Config)
    requires |cfg.caps| > 0
    ensures Enabled(cfg, InHand(cfg, false), At(0, Check(0)))
    ensures Step(cfg, InHand(cfg, false), At(0, Check(0))) == InHand(cfg, true)
  {
    var s := Step(cfg, InHand(cfg, false), At(0, Check(0)));
    assert s.links == InHand(cfg, true).links && s.released == [];
  }

  lemma CancelsFirst(cfg: Config)
    requires |cfg.caps| > 0
    ensures Step(cfg, InHand(cfg, true), Cancel) == InHand(cfg, true).(cancelled := true)
  {
    assert Step(cfg, InHand(cfg, true), Cancel).released == [];
  }

  lemma AbandonsFirst(cfg: Config)
    requires |cfg.caps| > 0 && cfg.mode.Wait?
    ensures var s := InHand(cfg, true).(cancelled := true);
      Enabled(cfg, s, At(0, Abandon)) && !AllAccount(Step(cfg, s, At(0, Abandon)))
  {
    var s := InHand(cfg, true).(cancelled := true);
    var l := Step(cfg, s, At(0, Abandon)).links[0];
    assert l == Resolve(s.links[0], Abandoned);
    assert Handled(l)[0] == FirstFrame(cfg) && FirstFrame(cfg) in Handled(l);
    assert l.recv + l.ch == [] && l.lost == [];
    assert !Accounts(l);
  }

  /** A cancelled sender that waits for room gives the frame up and records nothing. */
  lemma WaitCanAbandon(cfg: Config) returns (events: seq<Event>)
    requires |cfg.caps| > 0 && cfg.mode.Wait? && cfg.highCap + cfg.lowCap > 0
    ensures Exec(cfg, events).Some? && !AllAccount(Exec(cfg, events).value)
  {
    FeedsFirst(cfg);
    ExecSnoc(cfg, [], Feed(FirstFrame(cfg)));
    events := [] + [Feed(FirstFrame(cfg))];
    var pop := PopsFirst(cfg);
    ExecSnoc(cfg, events, pop);
    events := events + [pop];
    ChecksFirst(cfg);
    ExecSnoc(cfg, events, At(0, Check(0)));
    events := events + [At(0, Check(0))];
    CancelsFirst(cfg);
    ExecSnoc(cfg, events, Cancel);
    events := events + [Cancel];
    AbandonsFirst(cfg);
    ExecSnoc(cfg, events, At(0, Abandon));
    events := events + [At(0, Abandon)];
  }

  /**
   * Every run accounts for every frame handed to `push` exactly if the orchestrator drops
   * instead of waiting (or its queue has no room for any frame at all).
   */
  lemma EveryFrameAccountedIff(cfg: Config)
    requires |cfg.caps| > 0
    ensures (forall events :: Exec(cfg, events).Some? ==> AllAccount(Exec(cfg, events).value)) <==>
      cfg.mode.Drop? || (cfg.highCap == 0 && cfg.lowCap == 0)
  {
    if cfg.mode.Drop? {
      forall events | Exec(cfg, events).Some?
        ensures AllAccount(Exec(cfg, events).value)
      {
        DropAccounts(cfg, events);
      }
    } else if cfg.highCap == 0 && cfg.lowCap == 0 {
      forall events | Exec(cfg, events).Some?
        ensures AllAccount(Exec(cfg, events).value)
      {
        NoQueueStaysBlank(cfg, events);
      }
    } else {
      var events := WaitCanAbandon(cfg);
    }
  }
}
