/**
 * The synchronous orchestrator: one goroutine takes each popped frame through all the
 * processors, stage by stage, before it pops the next one.
 */
module SyncPipeline {
  import opened Base
  import opened Pipeline

  /**
   * A processor as a deterministic state machine that owns its state. `None` stands for
   * an error or a nil list: the orchestrator then releases the input and goes on.
   */
  datatype Processor<!S> = Processor(init: S, step: (S, Frame) -> (S, Option<seq<Frame>>))

  function Outputs(o: Option<seq<Frame>>): seq<Frame> {
    match o
    case None => []
    case Some(fs) => fs
  }

  /** One processor run over a whole list of frames: its final state and all its outputs. */
  function Feedthrough<S>(p: Processor<S>, st: S, xs: seq<Frame>): (S, seq<Frame>) {
    if xs == [] then (st, [])
    else
      var before := Feedthrough(p, st, DropLast(xs));
      var after := p.step(before.0, Last(xs));
      (after.0, before.1 + Outputs(after.1))
  }

  /** All processors in turn, each run over the whole output list of the one before it. */
  function Batch<S>(procs: seq<Processor<S>>, states: seq<S>, xs: seq<Frame>): (r: (seq<S>, seq<Frame>))
    requires |states| == |procs|
    ensures |r.0| == |procs|
  {
    if procs == [] then ([], xs)
    else
      var first := Feedthrough(procs[0], states[0], xs);
      var rest := Batch(procs[1..], states[1..], first.1);
      ([first.0] + rest.0, rest.1)
  }

  function InitialStates<S>(procs: seq<Processor<S>>): (r: seq<S>)
    ensures |r| == |procs|
  {
    seq(|procs|, i requires 0 <= i < |procs| => procs[i].init)
  }

  /** What the sequential loop has emitted, and its states, after popping `popped`. */
  function SyncRun<S>(procs: seq<Processor<S>>, popped: seq<Frame>): (r: (seq<S>, seq<Frame>))
    ensures |r.0| == |procs|
  {
    if popped == [] then (InitialStates(procs), [])
    else
      var before := SyncRun(procs, DropLast(popped));
      var after := Batch(procs, before.0, [Last(popped)]);
      (after.0, before.1 + after.1)
  }

  lemma FeedthroughSnoc<S>(p: Processor<S>, st: S, xs: seq<Frame>, f: Frame)
    ensures var before := Feedthrough(p, st, xs); var after := p.step(before.0, f);
      Feedthrough(p, st, xs + [f]) == (after.0, before.1 + Outputs(after.1))
  {
    assert DropLast(xs + [f]) == xs;
  }

  lemma {:induction false} FeedthroughAppend<S>(p: Processor<S>, st: S, xs: seq<Frame>, ys: seq<Frame>)
    ensures var a := Feedthrough(p, st, xs); var b := Feedthrough(p, a.0, ys);
      Feedthrough(p, st, xs + ys) == (b.0, a.1 + b.1)
  {
    if ys == [] {
      assert xs + ys == xs;
      Regrouped(Feedthrough(p, st, xs).1, [], []);
    } else {
      FeedthroughAppend(p, st, xs, DropLast(ys));
      FeedthroughSnoc(p, st, xs + DropLast(ys), Last(ys));
      assert (xs + DropLast(ys)) + [Last(ys)] == xs + ys;
      var b := Feedthrough(p, Feedthrough(p, st, xs).0, DropLast(ys));
      Regrouped(Feedthrough(p, st, xs).1, b.1, Outputs(p.step(b.0, Last(ys)).1));
    }
  }

  lemma Regrouped(a: seq<Frame>, b: seq<Frame>, c: seq<Frame>)
    ensures (a + b) + c == a + (b + c)
    ensures a + [] == a
  {
  }

  lemma {:induction false} BatchAppend<S>(procs: seq<Processor<S>>, states: seq<S>, xs: seq<Frame>, ys: seq<Frame>)
    requires |states| == |procs|
    ensures var a := Batch(procs, states, xs); var b := Batch(procs, a.0, ys);
      Batch(procs, states, xs + ys) == (b.0, a.1 + b.1)
  {
    if procs == [] {
    } else {
      FeedthroughAppend(procs[0], states[0], xs, ys);
      var first := Feedthrough(procs[0], states[0], xs);
      var second := Feedthrough(procs[0], first.0, ys);
      BatchAppend(procs[1..], states[1..], first.1, second.1);
      assert Batch(procs, states, xs).0[1..] == Batch(procs[1..], states[1..], first.1).0;
    }
  }

  lemma {:induction false} BatchNothing<S>(procs: seq<Processor<S>>, states: seq<S>)
    requires |states| == |procs|
    ensures Batch(procs, states, []) == (states, [])
  {
    if procs == [] {
    } else {
      BatchNothing(procs[1..], states[1..]);
      assert [states[0]] + states[1..] == states;
    }
  }

  /** The outcome of a pass that has reached stage `i` with the frames `out`. */
  function Resumed<S>(procs: seq<Processor<S>>, states: seq<S>, i: nat, out: seq<Frame>): (seq<S>, seq<Frame>)
    requires |states| == |procs| && i <= |procs|
  {
    var rest := Batch(procs[i..], states[i..], out);
    (states[..i] + rest.0, rest.1)
  }

  lemma ResumeNext<S>(procs: seq<Processor<S>>, states: seq<S>, i: nat, out: seq<Frame>)
    requires |states| == |procs| && i < |procs|
    ensures var r := Feedthrough(procs[i], states[i], out);
      Resumed(procs, states, i, out) == Resumed(procs, states[i := r.0], i + 1, r.1)
  {
    var r := Feedthrough(procs[i], states[i], out);
    assert procs[i..][1..] == procs[i + 1..];
    assert states[i..][1..] == states[i := r.0][i + 1..];
    assert states[..i] + [r.0] == states[i := r.0][..i + 1];
    var rest := Batch(procs[i + 1..], states[i + 1..], r.1);
    assert states[..i] + ([r.0] + rest.0) == (states[..i] + [r.0]) + rest.0;
  }

  lemma ResumeStart<S>(procs: seq<Processor<S>>, states: seq<S>, out: seq<Frame>)
    requires |states| == |procs|
    ensures Resumed(procs, states, 0, out) == Batch(procs, states, out)
  {
    assert procs[0..] == procs && states[0..] == states;
    var all := Batch(procs, states, out);
    assert states[..0] + all.0 == all.0;
  }

  /** Nothing is left to do after the last stage, nor once no frame is left. */
  lemma ResumeEnd<S>(procs: seq<Processor<S>>, states: seq<S>, i: nat, out: seq<Frame>)
    requires |states| == |procs| && i <= |procs|
    requires i == |procs| || out == []
    ensures Resumed(procs, states, i, out) == (states, out)
  {
    if out == [] {
      BatchNothing(procs[i..], states[i..]);
    }
    assert states[..i] + states[i..] == states;
  }

  /** Taking frames through the chain one at a time equals taking the whole list stage by stage. */
  lemma {:induction false} FrameByFrameIsStageByStage<S>(procs: seq<Processor<S>>, popped: seq<Frame>)
    ensures SyncRun(procs, popped) == Batch(procs, InitialStates(procs), popped)
  {
    if popped == [] {
      BatchNothing(procs, InitialStates(procs));
    } else {
      FrameByFrameIsStageByStage(procs, DropLast(popped));
      BatchAppend(procs, InitialStates(procs), DropLast(popped), [Last(popped)]);
      assert DropLast(popped) + [Last(popped)] == popped;
    }
  }

  /** What `push` finds when it is handed a frame for `out`: the time, and whether it gets room. */
  datatype Outlet = Outlet(now: int, room: bool)

  /** The sink takes every frame, the channel those that are not late and for which there is room. */
  predicate Delivers(sink: bool, f: Frame, at: Outlet) {
    sink || (!ShouldDropForLag(f, at.now) && at.room)
  }

  /** A frame that is late, or refused by a channel that does not wait, is recorded as dropped. */
  predicate Records(sink: bool, mode: Backpressure, f: Frame, at: Outlet) {
    !sink && (ShouldDropForLag(f, at.now) || (!at.room && mode.Drop?))
  }

  function Delivered(sink: bool, out: seq<Frame>, outlets: nat -> Outlet): seq<Frame> {
    if out == [] then []
    else
      var before := Delivered(sink, DropLast(out), outlets);
      if Delivers(sink, Last(out), outlets(|out| - 1)) then before + [Last(out)] else before
  }

  function Dropped(sink: bool, mode: Backpressure, out: seq<Frame>, outlets: nat -> Outlet): seq<Frame> {
    if out == [] then []
    else
      var before := Dropped(sink, mode, DropLast(out), outlets);
      if Records(sink, mode, Last(out), outlets(|out| - 1)) then before + [Last(out)] else before
  }

  /** The sink gets everything; a channel that does not wait loses only what is recorded. */
  lemma {:induction false} EmitAccounts(sink: bool, mode: Backpressure, out: seq<Frame>, outlets: nat -> Outlet)
    ensures sink ==> Delivered(sink, out, outlets) == out && Dropped(sink, mode, out, outlets) == []
    ensures mode.Drop? ==> |Delivered(sink, out, outlets)| + |Dropped(sink, mode, out, outlets)| == |out|
    ensures mode.Drop? ==>
      forall f :: f in out ==> f in Delivered(sink, out, outlets) || f in Dropped(sink, mode, out, outlets)
  {
    if out == [] {
    } else {
      EmitAccounts(sink, mode, DropLast(out), outlets);
      assert DropLast(out) + [Last(out)] == out;
    }
  }

  /**
   * The loop of startSync: the processors' states, the frames handed to `emit`, those that
   * the sink or the channel got, and the recorded drops.
   */
  class SyncLoop<S> {
    const procs: seq<Processor<S>>
    const sink: bool
    const mode: Backpressure
    var states: seq<S>
    var emitted: seq<Frame>
    var delivered: seq<Frame>
    var drops: seq<Frame>
    ghost var popped: seq<Frame>

    /** `popped` lists the frames the loop has taken through the stages. */
    ghost predicate Valid()
      reads this
    {
      (states, emitted) == SyncRun(procs, popped) && (sink ==> delivered == emitted)
    }

    constructor (procs: seq<Processor<S>>, sink: bool, mode: Backpressure)
      ensures Valid() && this.procs == procs && this.sink == sink && this.mode == mode
      ensures popped == [] && delivered == [] && drops == []
    {
      this.procs := procs;
      this.sink := sink;
      this.mode := mode;
      states := InitialStates(procs);
      emitted := [];
      delivered := [];
      drops := [];
      popped := [];
    }

    /** One frame to the sink or the channel. */
    method Emit(f: Frame, at: Outlet)
      modifies this`delivered, this`drops
      ensures delivered == if Delivers(sink, f, at) then old(delivered) + [f] else old(delivered)
      ensures drops == if Records(sink, mode, f, at) then old(drops) + [f] else old(drops)
      ensures sink ==> delivered == old(delivered) + [f] && drops == old(drops)
      ensures !sink && f.kind == Audio && f.pts >= 1_000_000_000_000 && at.now - f.pts > 500_000_000 ==>
        delivered == old(delivered) && drops == old(drops) + [f]
      ensures !sink && !(f.kind == Audio && f.pts >= 1_000_000_000_000 && at.now - f.pts > 500_000_000) ==>
        && delivered == (if at.room then old(delivered) + [f] else old(delivered))
        && drops == (if !at.room && mode == Drop then old(drops) + [f] else old(drops))
    {
      if sink {
        delivered := delivered + [f];
        return;
      }
      if ShouldDropForLag(f, at.now) {
        drops := drops + [f];
        return;
      }
      if at.room {
        delivered := delivered + [f];
      } else if mode.Drop? {
        drops := drops + [f];
      }
    }

    /** The frames of one iteration, in order; `outlets(i)` is what the i-th of them finds. */
    method EmitAll(out: seq<Frame>, outlets: nat -> Outlet)
      modifies this`delivered, this`drops
      ensures delivered == old(delivered) + Delivered(sink, out, outlets)
      ensures drops == old(drops) + Dropped(sink, mode, out, outlets)
    {
      var k := 0;
      while k < |out|
        invariant 0 <= k <= |out|
        invariant delivered == old(delivered) + Delivered(sink, out[..k], outlets)
        invariant drops == old(drops) + Dropped(sink, mode, out[..k], outlets)
      {
        assert DropLast(out[..k + 1]) == out[..k];
        Emit(out[k], outlets(k));
        k := k + 1;
      }
      assert out[..k] == out;
    }

    /** The inner loop: processor `i` takes every frame of `out` in turn. */
    method RunStage(i: nat, out: seq<Frame>) returns (next: seq<Frame>)
      requires |states| == |procs| && i < |procs|
      modifies this`states
      ensures |states| == |procs|
      ensures var r := Feedthrough(procs[i], old(states[i]), out);
        states == old(states)[i := r.0] && next == r.1
    {
      next := [];
      var k := 0;
      while k < |out|
        invariant 0 <= k <= |out| && |states| == |procs|
        invariant states == old(states)[i := states[i]]
        invariant (states[i], next) == Feedthrough(procs[i], old(states[i]), out[..k])
      {
        assert DropLast(out[..k + 1]) == out[..k];
        assert next == next + [];
        var result := procs[i].step(states[i], out[k]);
        states := states[i := result.0];
        if result.1.Some? {
          next := next + result.1.value;
        }
        k := k + 1;
      }
      assert out[..k] == out;
    }

    /** The outer loop: the frames of one iteration go through all the stages. */
    method RunStages(f: Frame) returns (out: seq<Frame>)
      requires |states| == |procs|
      modifies this`states
      ensures (states, out) == Batch(procs, old(states), [f])
    {
      out := [f];
      var i := 0;
      ResumeStart(procs, states, out);
      ghost var goal := Resumed(procs, states, 0, out);
      while i < |procs|
        invariant 0 <= i <= |procs| && |states| == |procs|
        invariant Resumed(procs, states, i, out) == goal
        decreases |procs| - i
      {
        ghost var before, given := states, out;
        out := RunStage(i, out);
        ResumeNext(procs, before, i, given);
        i := i + 1;
        if out == [] {
          break;
        }
      }
      ResumeEnd(procs, states, i, out);
    }

    /** One iteration: a late frame is recorded as dropped, any other runs through the stages. */
    method ProcessPopped(f: Frame, now: int, outlets: nat -> Outlet)
      requires Valid()
      modifies this
      ensures Valid()
      ensures popped == old(popped) + (if ShouldDropForLag(f, now) then [] else [f])
      ensures var out := if ShouldDropForLag(f, now) then [] else Batch(procs, old(states), [f]).1;
        && emitted == old(emitted) + out
        && delivered == old(delivered) + Delivered(sink, out, outlets)
        && drops == old(drops) + (if ShouldDropForLag(f, now) then [f] else Dropped(sink, mode, out, outlets))
    {
      if ShouldDropForLag(f, now) {
        drops := drops + [f];
        return;
      }
      var out := RunStages(f);
      EmitAll(out, outlets);
      EmitAccounts(sink, mode, out, outlets);
      emitted := emitted + out;
      popped := popped + [f];
      assert DropLast(popped) == old(popped);
    }
  }
}
