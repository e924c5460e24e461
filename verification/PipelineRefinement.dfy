/**
 * The asynchronous orchestrator refines the synchronous one: whatever the interleaving,
 * it emits what the sequential loop would emit for the same popped frames.
 */
module PipelineRefinement {
  import opened Base
  import opened Pipeline
  import opened PipelineLoss
  import opened SyncPipeline

  /** Processor `j` answers as its state machine would after everything it has finished. */
  ghost predicate Conforms<S>(procs: seq<Processor<S>>, s: State, e: Event)
    requires |s.links| == |procs| + 1
  {
    e.Finish? && e.j < |procs| && s.links[e.j].cur.Some? ==>
      var p := procs[e.j];
      e.outs == p.step(Feedthrough(p, p.init, s.links[e.j].done).0, s.links[e.j].cur.value).1
  }

  ghost predicate ConformingRun<S>(cfg: Config, procs: seq<Processor<S>>, events: seq<Event>)
    requires |cfg.caps| == |procs| + 1
  {
    && Exec(cfg, events).Some?
    && (events != [] ==>
      && ConformingRun(cfg, procs, DropLast(events))
      && Conforms(procs, Exec(cfg, DropLast(events)).value, Last(events)))
  }

  /** Link j+1 was offered what processor `j` makes of the frames it has finished. */
  ghost predicate StageConforms<S>(procs: seq<Processor<S>>, s: State, j: nat)
    requires |s.links| == |procs| + 1 && j < |procs|
  {
    s.links[j + 1].offered == Feedthrough(procs[j], procs[j].init, s.links[j].done).1
  }

  ghost predicate StagesConform<S>(procs: seq<Processor<S>>, s: State) {
    && |s.links| == |procs| + 1
    && (forall j :: 0 <= j < |procs| ==> StageConforms(procs, s, j))
    && s.emitted == Last(s.links).done
  }

  ghost predicate AllSent(l: Link) {
    forall i :: 0 <= i < |l.fates| ==> l.fates[i] == Sent
  }

  ghost predicate LosesNothing(s: State) {
    forall j :: 0 <= j < |s.links| ==> AllSent(s.links[j])
  }

  predicate AtRest(l: Link) {
    l.hand == [] && l.ch == [] && l.cur.None?
  }

  predicate AtRestAt(s: State, j: nat)
    requires j < |s.links|
  {
    AtRest(s.links[j])
  }

  /** Every channel is empty and every goroutine is waiting for input. */
  ghost predicate Quiescent(s: State) {
    forall j :: 0 <= j < |s.links| ==> AtRestAt(s, j)
  }

  lemma FinishConforms<S>(cfg: Config, procs: seq<Processor<S>>, s: State, e: Event)
    requires |cfg.caps| == |procs| + 1 && StagesConform(procs, s)
    requires e.Finish? && Enabled(cfg, s, e) && Conforms(procs, s, e)
    ensures StagesConform(procs, Step(cfg, s, e))
  {
    var l := s.links[e.j];
    var p := procs[e.j];
    var done := l.done + [l.cur.value];
    assert DropLast(done) == l.done && Last(done) == l.cur.value;
    assert s.links[e.j + 1].offered + [] == s.links[e.j + 1].offered;
    assert Feedthrough(p, p.init, done).1 == Feedthrough(p, p.init, l.done).1 + Outputs(e.outs);
    assert StageConforms(procs, s, e.j);
    var s' := Step(cfg, s, e);
    assert StageConforms(procs, s', e.j);
    forall j | 0 <= j < |procs|
      ensures StageConforms(procs, s', j)
    {
      assert StageConforms(procs, s, j);
    }
  }

  lemma EmittedIsDone(cfg: Config, s: State, e: Event)
    requires |s.links| == |cfg.caps| > 0 && s.emitted == Last(s.links).done
    requires !e.Finish? && Enabled(cfg, s, e)
    ensures Step(cfg, s, e).emitted == Last(Step(cfg, s, e).links).done
  {
  }

  lemma OtherStepsConform<S>(cfg: Config, procs: seq<Processor<S>>, s: State, e: Event)
    requires |cfg.caps| == |procs| + 1 && StagesConform(procs, s)
    requires !e.Finish? && Enabled(cfg, s, e)
    ensures StagesConform(procs, Step(cfg, s, e))
  {
    var s' := Step(cfg, s, e);
    forall j | 0 <= j < |procs|
      ensures StageConforms(procs, s', j)
    {
      assert StageConforms(procs, s, j);
      OtherStepsOfferNothing(cfg, s, e, j);
    }
    EmittedIsDone(cfg, s, e);
  }

  lemma {:induction false} ReachableConforms<S>(cfg: Config, procs: seq<Processor<S>>, events: seq<Event>)
    requires |cfg.caps| == |procs| + 1 && ConformingRun(cfg, procs, events)
    ensures StagesConform(procs, Exec(cfg, events).value)
  {
    if events == [] {
    } else {
      ReachableConforms(cfg, procs, DropLast(events));
      var s := Exec(cfg, DropLast(events)).value;
      if Last(events).Finish? {
        FinishConforms(cfg, procs, s, Last(events));
      } else {
        OtherStepsConform(cfg, procs, s, Last(events));
      }
    }
  }

  lemma {:induction false} SelectAll(fs: seq<Frame>, fates: seq<Fate>)
    requires |fs| == |fates| && (forall i :: 0 <= i < |fates| ==> fates[i] == Sent)
    ensures Select(fs, fates, Sent) == fs
  {
    if fs == [] {
    } else {
      SelectAll(DropLast(fs), DropLast(fates));
      assert DropLast(fs) + [Last(fs)] == fs;
    }
  }

  /** The frames offered to a link are done, in work, in the channel or in hand. */
  ghost predicate Conserves(l: Link) {
    l.offered == l.done + AsSeq(l.cur) + l.ch + l.hand
  }

  ghost predicate ConservesAt(s: State, j: nat)
    requires j < |s.links|
  {
    Conserves(s.links[j])
  }

  lemma NothingLost(cfg: Config, s: State, j: nat)
    requires Inv(cfg, s) && LosesNothing(s) && j < |s.links|
    ensures ConservesAt(s, j)
  {
    var l := s.links[j];
    assert LinkOk(cfg, l, cfg.caps[j], s.cancelled) && AllSent(l);
    SelectAll(Handled(l), l.fates);
    assert Handled(l) + l.hand == l.offered;
  }

  lemma FeedthroughMonotone<S>(p: Processor<S>, st: S, xs: seq<Frame>, ys: seq<Frame>)
    requires xs <= ys
    ensures Feedthrough(p, st, xs).1 <= Feedthrough(p, st, ys).1
  {
    assert xs + ys[|xs|..] == ys;
    FeedthroughAppend(p, st, xs, ys[|xs|..]);
  }

  /** The outputs of stage `k` when every stage has run over the whole input list `xs`. */
  function StageOutput<S>(procs: seq<Processor<S>>, xs: seq<Frame>, k: nat): seq<Frame>
    requires k <= |procs|
  {
    if k == 0 then xs
    else Feedthrough(procs[k - 1], procs[k - 1].init, StageOutput(procs, xs, k - 1)).1
  }

  lemma {:induction false} StageOutputShift<S>(procs: seq<Processor<S>>, xs: seq<Frame>, k: nat)
    requires k < |procs|
    ensures StageOutput(procs, xs, k + 1)
         == StageOutput(procs[1..], Feedthrough(procs[0], procs[0].init, xs).1, k)
  {
    if k == 0 {
      assert StageOutput(procs, xs, 1) == Feedthrough(procs[0], procs[0].init, StageOutput(procs, xs, 0)).1;
    } else {
      StageOutputShift(procs, xs, k - 1);
    }
  }

  lemma {:induction false} LastStageIsBatch<S>(procs: seq<Processor<S>>, xs: seq<Frame>)
    ensures StageOutput(procs, xs, |procs|) == Batch(procs, InitialStates(procs), xs).1
  {
    if procs == [] {
    } else {
      StageOutputShift(procs, xs, |procs| - 1);
      LastStageIsBatch(procs[1..], Feedthrough(procs[0], procs[0].init, xs).1);
      assert InitialStates(procs)[1..] == InitialStates(procs[1..]);
    }
  }

  lemma OneStageBehind<S>(procs: seq<Processor<S>>, s: State, j: nat, xs: seq<Frame>)
    requires |s.links| == |procs| + 1 && j < |procs| && StageConforms(procs, s, j)
    requires ConservesAt(s, j) && s.links[j].offered <= xs
    ensures s.links[j + 1].offered <= Feedthrough(procs[j], procs[j].init, xs).1
    ensures AtRestAt(s, j) && s.links[j].offered == xs ==>
      s.links[j + 1].offered == Feedthrough(procs[j], procs[j].init, xs).1
  {
    var l := s.links[j];
    assert l.done <= xs;
    FeedthroughMonotone(procs[j], procs[j].init, l.done, xs);
    if AtRest(l) {
      assert l.done + [] + [] + [] == l.done;
    }
  }

  lemma {:induction false} StageBehind<S>(procs: seq<Processor<S>>, s: State, k: nat)
    requires StagesConform(procs, s) && k <= |procs|
    requires forall j :: 0 <= j < |s.links| ==> ConservesAt(s, j)
    ensures s.links[k].offered <= StageOutput(procs, s.links[0].offered, k)
    ensures Quiescent(s) ==> s.links[k].offered == StageOutput(procs, s.links[0].offered, k)
  {
    if k == 0 {
    } else {
      StageBehind(procs, s, k - 1);
      var input := StageOutput(procs, s.links[0].offered, k - 1);
      assert StageConforms(procs, s, k - 1) && ConservesAt(s, k - 1);
      OneStageBehind(procs, s, k - 1, input);
      if Quiescent(s) {
        assert AtRestAt(s, k - 1) && s.links[k - 1].offered == input;
      }
    }
  }

  /** The frame that the popping goroutine takes in this event and does not find late. */
  function PoppedIn(s: State, e: Event): seq<Frame> {
    match e
    case PopHigh(now) => if s.high != [] && !ShouldDropForLag(s.high[0], now) then [s.high[0]] else []
    case PopLow(now) => if s.low != [] && !ShouldDropForLag(s.low[0], now) then [s.low[0]] else []
    case _ => []
  }

  function PoppedBy(cfg: Config, events: seq<Event>): seq<Frame>
    requires |cfg.caps| > 0
  {
    if events == [] || Exec(cfg, DropLast(events)).None? then []
    else PoppedBy(cfg, DropLast(events)) + PoppedIn(Exec(cfg, DropLast(events)).value, Last(events))
  }

  lemma StepOffersPopped(cfg: Config, s: State, e: Event)
    requires |s.links| == |cfg.caps| > 0 && Enabled(cfg, s, e)
    ensures Step(cfg, s, e).links[0].offered == s.links[0].offered + PoppedIn(s, e)
  {
    if PoppedIn(s, e) == [] {
      assert s.links[0].offered + [] == s.links[0].offered;
    }
  }

  lemma {:induction false} OfferedIsPopped(cfg: Config, events: seq<Event>)
    requires |cfg.caps| > 0 && Exec(cfg, events).Some?
    ensures Exec(cfg, events).value.links[0].offered == PoppedBy(cfg, events)
  {
    if events == [] {
    } else {
      OfferedIsPopped(cfg, DropLast(events));
      StepOffersPopped(cfg, Exec(cfg, DropLast(events)).value, Last(events));
    }
  }

  /**
   * The emitted frames are a prefix of what the sequential loop emits for the same popped
   * frames, and all of it once the pipeline has come to rest.
   */
  ghost predicate FollowsSync<S>(procs: seq<Processor<S>>, s: State, popped: seq<Frame>) {
    var sequential := SyncRun(procs, popped).1;
    s.emitted <= sequential && (Quiescent(s) ==> s.emitted == sequential)
  }

  lemma StateFollowsSync<S>(procs: seq<Processor<S>>, s: State)
    requires StagesConform(procs, s)
    requires forall j :: 0 <= j < |s.links| ==> ConservesAt(s, j)
    ensures FollowsSync(procs, s, s.links[0].offered)
  {
    var n, popped := |procs|, s.links[0].offered;
    StageBehind(procs, s, n);
    assert ConservesAt(s, n) && (Quiescent(s) ==> AtRestAt(s, n));
    LastStageIsBatch(procs, popped);
    FrameByFrameIsStageByStage(procs, popped);
    PrefixTransitive(s.emitted, s.links[n].offered, StageOutput(procs, popped, n));
  }

  /** Refinement: every interleaving in which no link loses a frame follows the sequential loop. */
  lemma AsyncRefinesSync<S>(cfg: Config, procs: seq<Processor<S>>, events: seq<Event>)
    requires |cfg.caps| == |procs| + 1 && ConformingRun(cfg, procs, events)
    requires LosesNothing(Exec(cfg, events).value)
    ensures FollowsSync(procs, Exec(cfg, events).value, PoppedBy(cfg, events))
  {
    var s := Exec(cfg, events).value;
    ReachableInv(cfg, events);
    ReachableConforms(cfg, procs, events);
    forall j | 0 <= j < |s.links|
      ensures ConservesAt(s, j)
    {
      NothingLost(cfg, s, j);
    }
    OfferedIsPopped(cfg, events);
    StateFollowsSync(procs, s);
  }

  /** Neither a cancellation nor a lag test of `push` that finds an audio frame late. */
  ghost predicate Undisturbing(s: State, e: Event) {
    && !e.Cancel?
    && (e.At? && e.act.Check? && e.j < |s.links| && s.links[e.j].hand != [] ==>
      !ShouldDropForLag(s.links[e.j].hand[0], e.act.now))
  }

  ghost predicate UndisturbedRun(cfg: Config, events: seq<Event>)
    requires |cfg.caps| > 0
  {
    && Exec(cfg, events).Some?
    && (events != [] ==>
      && UndisturbedRun(cfg, DropLast(events))
      && Undisturbing(Exec(cfg, DropLast(events)).value, Last(events)))
  }

  lemma UndisturbedStep(cfg: Config, s: State, e: Event)
    requires |s.links| == |cfg.caps| > 0 && Enabled(cfg, s, e) && Undisturbing(s, e)
    requires cfg.mode.Wait? && !s.cancelled && LosesNothing(s)
    ensures !Step(cfg, s, e).cancelled && LosesNothing(Step(cfg, s, e))
  {
    var s' := Step(cfg, s, e);
    forall k | 0 <= k < |s'.links|
      ensures AllSent(s'.links[k])
    {
      assert AllSent(s.links[k]);
    }
  }

  lemma {:induction false} WaitModeLosesNothing(cfg: Config, events: seq<Event>)
    requires |cfg.caps| > 0 && cfg.mode.Wait? && UndisturbedRun(cfg, events)
    ensures !Exec(cfg, events).value.cancelled && LosesNothing(Exec(cfg, events).value)
  {
    if events == [] {
    } else {
      WaitModeLosesNothing(cfg, DropLast(events));
      UndisturbedStep(cfg, Exec(cfg, DropLast(events)).value, Last(events));
    }
  }

  /**
   * With backpressure that waits, no cancellation and no late frame at a channel, every
   * interleaving emits what the sequential loop emits, up to the frames still on their way.
   */
  lemma WaitModeRefinesSync<S>(cfg: Config, procs: seq<Processor<S>>, events: seq<Event>)
    requires |cfg.caps| == |procs| + 1 && ConformingRun(cfg, procs, events)
    requires cfg.mode.Wait? && UndisturbedRun(cfg, events)
    ensures FollowsSync(procs, Exec(cfg, events).value, PoppedBy(cfg, events))
  {
    WaitModeLosesNothing(cfg, events);
    AsyncRefinesSync(cfg, procs, events);
  }

  /**
   * The goroutine in front of `out`, which passes every frame on, as a processor. Its state
   * does not matter.
   */
  function Forwarder<S>(state: S): Processor<S> {
    Processor(state, (st, f) => (st, Some([f])))
  }

  lemma {:induction false} ForwarderPasses<S>(state: S, xs: seq<Frame>)
    ensures Feedthrough(Forwarder(state), state, xs) == (state, xs)
  {
    if xs == [] {
    } else {
      ForwarderPasses(state, DropLast(xs));
      assert DropLast(xs) + [Last(xs)] == xs;
    }
  }

  lemma {:induction false} ForwarderLast<S>(procs: seq<Processor<S>>, states: seq<S>, state: S, xs: seq<Frame>)
    requires |states| == |procs|
    ensures Batch(procs + [Forwarder(state)], states + [state], xs)
         == (Batch(procs, states, xs).0 + [state], Batch(procs, states, xs).1)
  {
    if procs == [] {
      ForwarderPasses(state, xs);
      assert procs + [Forwarder(state)] == [Forwarder(state)] && states + [state] == [state];
      assert [Forwarder(state)][1..] == [] && [state][1..] == [];
      assert Batch([Forwarder(state)], [state], xs) == ([state] + [], xs);
      assert Batch(procs, states, xs) == ([], xs);
      assert Batch(procs, states, xs).0 + [state] == [state] + [];
    } else {
      var first := Feedthrough(procs[0], states[0], xs);
      assert (procs + [Forwarder(state)])[1..] == procs[1..] + [Forwarder(state)];
      assert (states + [state])[1..] == states[1..] + [state];
      ForwarderLast(procs[1..], states[1..], state, first.1);
      var rest := Batch(procs[1..], states[1..], first.1);
      assert [first.0] + (rest.0 + [state]) == ([first.0] + rest.0) + [state];
    }
  }

  /** A forwarder behind the last processor changes nothing of the sequential run. */
  lemma {:induction false} ForwarderDropsOut<S>(procs: seq<Processor<S>>, state: S, popped: seq<Frame>)
    ensures SyncRun(procs + [Forwarder(state)], popped)
         == (SyncRun(procs, popped).0 + [state], SyncRun(procs, popped).1)
  {
    if popped == [] {
      assert InitialStates(procs + [Forwarder(state)]) == InitialStates(procs) + [state];
    } else {
      ForwarderDropsOut(procs, state, DropLast(popped));
      ForwarderLast(procs, SyncRun(procs, DropLast(popped)).0, state, [Last(popped)]);
    }
  }

  /**
   * Without a sink, where a forwarder and the channel `out` follow the processors, the reader
   * of `out` gets what the sequential loop of the processors alone emits.
   */
  lemma WithoutSinkRefinesSync<S>(cfg: Config, procs: seq<Processor<S>>, state: S, events: seq<Event>)
    requires |cfg.caps| == |procs| + 2 && ConformingRun(cfg, procs + [Forwarder(state)], events)
    requires LosesNothing(Exec(cfg, events).value)
    ensures FollowsSync(procs, Exec(cfg, events).value, PoppedBy(cfg, events))
  {
    AsyncRefinesSync(cfg, procs + [Forwarder(state)], events);
    ForwarderDropsOut(procs, state, PoppedBy(cfg, events));
  }

  /**
   * No deadlock: unless the pipeline is at rest, one of its own goroutines, or the reader
   * of the last channel, can take a step. No new input is needed for it. This is about an
   * orchestrator that runs: once it is cancelled its goroutines may return at any receive,
   * which here means that they take no more steps.
   */
  lemma AlwaysProgress(cfg: Config, s: State) returns (e: Event)
    requires Inv(cfg, s) && !Quiescent(s)
    ensures Enabled(cfg, s, e)
    ensures e.At? || e.Finish? || e.Deliver?
  {
    var j := |s.links| - 1;
    while j > 0 && AtRestAt(s, j)
      invariant 0 <= j < |s.links|
      invariant forall k :: j < k < |s.links| ==> AtRestAt(s, k)
    {
      j := j - 1;
    }
    assert j + 1 < |s.links| ==> AtRestAt(s, j + 1);
    var l := s.links[j];
    if l.cur.Some? {
      e := if j + 1 < |s.links| then Finish(j, None, false) else Deliver;
    } else if l.ch != [] {
      e := At(j, Take);
    } else if !l.cleared {
      e := At(j, Check(0));
    } else {
      e := At(j, Handoff);
    }
  }
}
