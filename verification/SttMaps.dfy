/** The same relation as pkg/processors/stt_processor.go keeps it, and its replay buffer. */
module SttMaps {
  import opened Base

  datatype Tables = Tables(callStream: map<string, string>, streamCall: map<string, string>)

  const EMPTY := Tables(map[], map[])

  function Closed(t: Tables, stream: string): Tables {
    var call := Lookup(t.streamCall, stream);
    if call == "" then t
    else
      Tables(
        if Lookup(t.callStream, call) == stream then t.callStream - {call} else t.callStream,
        t.streamCall - {stream})
  }

  function Entered(t: Tables, call: string, stream: string): Tables {
    Tables(t.callStream[call := stream], t.streamCall[stream := call])
  }

  function Tracked(t: Tables, call: string, stream: string): Tables {
    var prev := Lookup(t.callStream, call);
    if call == "" || stream == "" then t
    else Entered(if prev != "" && prev != stream then Closed(t, prev) else t, call, stream)
  }

  class SttProcessor {
    var callStream: map<string, string>
    var streamCall: map<string, string>

    function Contents(): Tables
      reads this
    {
      Tables(callStream, streamCall)
    }

    constructor ()
      ensures Contents() == EMPTY
    {
      callStream, streamCall := map[], map[];
    }

    method CloseAll()
      modifies this
      ensures Contents() == EMPTY
    {
      callStream, streamCall := map[], map[];
    }

    method CloseStream(stream: string)
      modifies this
      ensures Contents() == Closed(old(Contents()), stream)
    {
      var call := Lookup(streamCall, stream);
      if call != "" {
        if Lookup(callStream, call) == stream {
          callStream := callStream - {call};
        }
        streamCall := streamCall - {stream};
      }
    }

    method TrackCallStream(call: string, stream: string)
      modifies this
      ensures Contents() == Tracked(old(Contents()), call, stream)
    {
      if call == "" || stream == "" {
        return;
      }
      var prev := Lookup(callStream, call);
      if prev != "" && prev != stream {
        CloseStream(prev);
      }
      callStream := callStream[call := stream];
      streamCall := streamCall[stream := call];
    }
  }

  ghost predicate Uses(t: Tables, call: string, stream: string) {
    call in t.callStream && t.callStream[call] == stream
  }

  ghost predicate BelongsTo(t: Tables, stream: string, call: string) {
    stream in t.streamCall && t.streamCall[stream] == call
  }

  /** The tables are inverse to each other, and know no empty names. */
  ghost predicate Inverse(t: Tables) {
    && (forall call, stream :: Uses(t, call, stream) <==> BelongsTo(t, stream, call))
    && (forall call, stream :: Uses(t, call, stream) ==> call != "" && stream != "")
  }

  /** A closed stream is forgotten, everything else stays, and the tables stay inverse. */
  lemma CloseForgets(t: Tables, stream: string, call: string, other: string)
    requires Inverse(t)
    ensures Inverse(Closed(t, stream))
    ensures Uses(Closed(t, stream), call, other) <==> Uses(t, call, other) && other != stream
  {
    var t' := Closed(t, stream);
    var mine := Lookup(t.streamCall, stream);
    forall c, s
      ensures Uses(t', c, s) <==> Uses(t, c, s) && s != stream
      ensures BelongsTo(t', s, c) <==> BelongsTo(t, s, c) && s != stream
    {
      assert Uses(t, c, s) <==> BelongsTo(t, s, c);
      assert Uses(t, c, stream) <==> BelongsTo(t, stream, c);
      assert Uses(t, mine, stream) <==> BelongsTo(t, stream, mine);
    }
  }

  lemma EnterKeepsInverseIff(t: Tables, call: string, stream: string)
    requires Inverse(t) && call != "" && stream != ""
    ensures Inverse(Entered(t, call, stream)) <==>
      Lookup(t.callStream, call) in {"", stream} && Lookup(t.streamCall, stream) in {"", call}
  {
    var t' := Entered(t, call, stream);
    var owner, prev := Lookup(t.streamCall, stream), Lookup(t.callStream, call);
    assert owner != "" ==> Uses(t, owner, stream);
    assert prev != "" ==> Uses(t, call, prev) && BelongsTo(t, prev, call);
    if owner !in {"", call} {
      assert Uses(t', owner, stream) && !BelongsTo(t', stream, owner);
    } else if prev !in {"", stream} {
      assert BelongsTo(t', prev, call) && !Uses(t', call, prev);
    } else {
      forall c, s
        ensures Uses(t', c, s) <==> BelongsTo(t', s, c)
        ensures Uses(t', c, s) ==> c != "" && s != ""
      {
        assert Uses(t, c, s) <==> BelongsTo(t, s, c);
        assert Uses(t, c, stream) <==> BelongsTo(t, stream, c);
        assert Uses(t, call, s) <==> BelongsTo(t, s, call);
      }
    }
  }

  /** Tracking keeps the tables inverse exactly if the stream is not another call's. */
  lemma TrackKeepsInverseIff(t: Tables, call: string, stream: string)
    requires Inverse(t)
    ensures Inverse(Tracked(t, call, stream)) <==>
      call == "" || stream == "" || Lookup(t.streamCall, stream) in {"", call}
  {
    var prev := Lookup(t.callStream, call);
    if call != "" && stream != "" {
      if prev != "" && prev != stream {
        CloseForgets(t, prev, call, prev);
        assert Uses(t, call, prev);
        assert Lookup(Closed(t, prev).callStream, call) == "";
        assert Lookup(Closed(t, prev).streamCall, stream) == Lookup(t.streamCall, stream);
        EnterKeepsInverseIff(Closed(t, prev), call, stream);
      } else {
        EnterKeepsInverseIff(t, call, stream);
      }
    }
  }

  /** Where a thread is. Tracking lets go of the lock to close the call's previous stream. */
  datatype Point =
    | Idle
    | Closing(call: string, stream: string, prev: string)
    | Entering(call: string, stream: string)

  /** The tables and the threads that process frames. */
  datatype State = State(tables: Tables, at: seq<Point>)

  /** `CloseAll` comes from a goroutine of its own, at any time. */
  datatype Event =
    | Track(t: nat, call: string, stream: string)
    | ClosePrevious(t: nat)
    | Enter(t: nat)
    | Close(t: nat, stream: string)
    | CloseAll

  function Init(threads: nat): State {
    State(EMPTY, seq(threads, _ => Idle))
  }

  predicate Enabled(s: State, e: Event) {
    e.CloseAll? || (e.t < |s.at| &&
      match e
      case ClosePrevious(t) => s.at[t].Closing?
      case Enter(t) => s.at[t].Entering?
      case _ => s.at[e.t].Idle?)
  }

  /** The call has a stream other than this one, which has to be closed first. */
  predicate Replaces(t: Tables, call: string, stream: string) {
    Lookup(t.callStream, call) !in {"", stream}
  }

  /** The pair that a step enters in the tables, if it enters one. */
  function PairOf(s: State, e: Event): Option<(string, string)>
    requires Enabled(s, e)
  {
    match e
    case Track(_, call, stream) =>
      if call != "" && stream != "" && !Replaces(s.tables, call, stream) then Some((call, stream)) else None
    case Enter(t) => Some((s.at[t].call, s.at[t].stream))
    case _ => None
  }

  function TablesAfter(s: State, e: Event): Tables
    requires Enabled(s, e)
  {
    if PairOf(s, e).Some? then Entered(s.tables, PairOf(s, e).value.0, PairOf(s, e).value.1)
    else
      match e
      case ClosePrevious(t) => Closed(s.tables, s.at[t].prev)
      case Close(_, stream) => Closed(s.tables, stream)
      case CloseAll => EMPTY
      case _ => s.tables
  }

  function AtAfter(s: State, e: Event): seq<Point>
    requires Enabled(s, e)
  {
    match e
    case Track(t, call, stream) =>
      if call != "" && stream != "" && Replaces(s.tables, call, stream)
      then s.at[t := Closing(call, stream, Lookup(s.tables.callStream, call))]
      else s.at
    case ClosePrevious(t) => s.at[t := Entering(s.at[t].call, s.at[t].stream)]
    case Enter(t) => s.at[t := Idle]
    case _ => s.at
  }

  function Step(s: State, e: Event): State
    requires Enabled(s, e)
  {
    State(TablesAfter(s, e), AtAfter(s, e))
  }

  function RunFrom(s: State, events: seq<Event>): Option<State> {
    if events == [] then Some(s)
    else
      var before := RunFrom(s, DropLast(events));
      if before.Some? && Enabled(before.value, Last(events)) then Some(Step(before.value, Last(events))) else None
  }

  function Exec(threads: nat, events: seq<Event>): Option<State> {
    RunFrom(Init(threads), events)
  }

  lemma RunSnoc(s: State, events: seq<Event>, e: Event)
    requires RunFrom(s, events).Some? && Enabled(RunFrom(s, events).value, e)
    ensures RunFrom(s, events + [e]) == Some(Step(RunFrom(s, events).value, e))
  {
    assert DropLast(events + [e]) == events;
  }

  /** Closing one stream and closing all are single locked sections that do what the object's methods do. */
  lemma ClosesInSteps(s: State, t: nat, stream: string, other: string)
    requires Enabled(s, Close(t, stream)) && Inverse(s.tables)
    ensures Step(s, Close(t, stream)).at == s.at
    ensures var t' := Step(s, Close(t, stream)).tables;
      && stream !in t'.streamCall
      && (other != stream ==> Lookup(t'.streamCall, other) == Lookup(s.tables.streamCall, other))
    ensures Step(s, CloseAll) == State(Tables(map[], map[]), s.at)
  {
    CloseForgets(s.tables, stream, Lookup(s.tables.streamCall, stream), stream);
    assert stream in s.tables.streamCall ==> Uses(s.tables, s.tables.streamCall[stream], stream);
  }

  /** Left alone, the steps of a thread add up to what the object's method does. */
  lemma TrackInSteps(s: State, t: nat, call: string, stream: string)
    requires Enabled(s, Track(t, call, stream))
    ensures var begun := Step(s, Track(t, call, stream));
      if begun.at[t].Idle? then begun.tables == Tracked(s.tables, call, stream)
      else Step(Step(begun, ClosePrevious(t)), Enter(t)) == State(Tracked(s.tables, call, stream), s.at)
  {
    var begun := Step(s, Track(t, call, stream));
    if begun.at[t].Closing? {
      var closed := Step(begun, ClosePrevious(t));
      assert Step(closed, Enter(t)).at == s.at;
    }
  }

  /** What a step enters, it enters for a call without another stream and a stream without another call. */
  predicate SafeStep(s: State, e: Event)
    requires Enabled(s, e)
  {
    var pair := PairOf(s, e);
    pair.Some? ==>
      && Lookup(s.tables.callStream, pair.value.0) in {"", pair.value.1}
      && Lookup(s.tables.streamCall, pair.value.1) in {"", pair.value.0}
  }

  /** A thread past its first step works on names that are not empty. */
  ghost predicate Named(p: Point) {
    !p.Idle? ==> p.call != "" && p.stream != ""
  }

  ghost predicate AllNamed(s: State) {
    forall t :: 0 <= t < |s.at| ==> Named(s.at[t])
  }

  lemma StepKeepsInverseIff(s: State, e: Event)
    requires Enabled(s, e) && Inverse(s.tables) && AllNamed(s)
    ensures AllNamed(Step(s, e))
    ensures Inverse(Step(s, e).tables) <==> SafeStep(s, e)
  {
    if PairOf(s, e).Some? {
      EnterKeepsInverseIff(s.tables, PairOf(s, e).value.0, PairOf(s, e).value.1);
    } else if e.ClosePrevious? {
      CloseForgets(s.tables, s.at[e.t].prev, "", "");
    } else if e.Close? {
      CloseForgets(s.tables, e.stream, "", "");
    }
  }

  /** The tables are inverse now and have been after every earlier event. */
  ghost predicate InverseThroughout(threads: nat, events: seq<Event>) {
    && Exec(threads, events).Some? && Inverse(Exec(threads, events).value.tables)
    && (events != [] ==> InverseThroughout(threads, DropLast(events)))
  }

  /** The run is possible, and every step of it was safe when it happened. */
  ghost predicate SafeThroughout(threads: nat, events: seq<Event>) {
    events != [] ==>
      && SafeThroughout(threads, DropLast(events))
      && Exec(threads, DropLast(events)).Some?
      && Enabled(Exec(threads, DropLast(events)).value, Last(events))
      && SafeStep(Exec(threads, DropLast(events)).value, Last(events))
  }

  lemma {:induction false} ReachableNamed(threads: nat, events: seq<Event>)
    requires Exec(threads, events).Some?
    ensures AllNamed(Exec(threads, events).value)
  {
    if events == [] {
    } else {
      ReachableNamed(threads, DropLast(events));
    }
  }

  /**
   * With any number of threads on one processor, the tables are inverse all the time exactly
   * if every pair is entered while its call has no other stream and its stream no other call.
   */
  lemma {:induction false} InverseThroughoutIff(threads: nat, events: seq<Event>)
    requires Exec(threads, events).Some?
    ensures InverseThroughout(threads, events) <==> SafeThroughout(threads, events)
  {
    if events == [] {
    } else {
      InverseThroughoutIff(threads, DropLast(events));
      ReachableNamed(threads, DropLast(events));
      if InverseThroughout(threads, DropLast(events)) {
        StepKeepsInverseIff(Exec(threads, DropLast(events)).value, Last(events));
      }
    }
  }

  /** Each stream belongs to one call. */
  ghost predicate OneCallEach(events: seq<Event>) {
    forall i, j | 0 <= i < |events| && 0 <= j < |events| ::
      events[i].Track? && events[j].Track? && events[i].stream == events[j].stream ==> events[i].call == events[j].call
  }

  predicate Tracks(e: Event, call: string, stream: string) {
    e.Track? && e.call == call && e.stream == stream
  }

  lemma {:induction false} PointWasTracked(threads: nat, events: seq<Event>, t: nat) returns (k: nat)
    requires Exec(threads, events).Some?
    requires t < |Exec(threads, events).value.at| && !Exec(threads, events).value.at[t].Idle?
    ensures k < |events|
    ensures var p := Exec(threads, events).value.at[t]; Tracks(events[k], p.call, p.stream)
  {
    assert events != [];
    var before := Exec(threads, DropLast(events)).value;
    if before.at[t].Idle? {
      k := |events| - 1;
    } else {
      k := PointWasTracked(threads, DropLast(events), t);
    }
  }

  lemma {:induction false} WasTracked(threads: nat, events: seq<Event>, stream: string) returns (k: nat)
    requires Exec(threads, events).Some? && stream in Exec(threads, events).value.tables.streamCall
    ensures k < |events| && Tracks(events[k], Exec(threads, events).value.tables.streamCall[stream], stream)
  {
    assert events != [];
    var before := Exec(threads, DropLast(events)).value;
    var pair := PairOf(before, Last(events));
    if pair.Some? && pair.value.1 == stream {
      if Last(events).Track? {
        k := |events| - 1;
      } else {
        k := PointWasTracked(threads, DropLast(events), Last(events).t);
      }
    } else {
      k := WasTracked(threads, DropLast(events), stream);
    }
  }

  /** What a single thread finds when it has let go of the lock: its call's table entry, or none. */
  ghost predicate Undisturbed(s: State) {
    |s.at| == 1 &&
      match s.at[0]
      case Idle => true
      case Closing(call, _, prev) => Lookup(s.tables.callStream, call) in {"", prev}
      case Entering(call, _) => Lookup(s.tables.callStream, call) == ""
  }

  lemma StepLeavesUndisturbed(s: State, e: Event)
    requires Enabled(s, e) && Inverse(s.tables) && Undisturbed(s)
    ensures Undisturbed(Step(s, e))
  {
    if e.ClosePrevious? {
      var call, prev := s.at[0].call, s.at[0].prev;
      CloseForgets(s.tables, prev, call, Lookup(Closed(s.tables, prev).callStream, call));
      assert Uses(s.tables, call, prev) || Lookup(s.tables.callStream, call) == "";
    }
  }

  /** The stream that a step enters has not been entered for another call. */
  lemma StreamIsFree(threads: nat, events: seq<Event>, e: Event)
    requires Exec(threads, events).Some? && OneCallEach(events + [e])
    requires Enabled(Exec(threads, events).value, e) && PairOf(Exec(threads, events).value, e).Some?
    ensures var s := Exec(threads, events).value; var pair := PairOf(s, e).value;
      Lookup(s.tables.streamCall, pair.1) in {"", pair.0}
  {
    var s := Exec(threads, events).value;
    var pair := PairOf(s, e).value;
    var all := events + [e];
    if pair.1 in s.tables.streamCall {
      var k := WasTracked(threads, events, pair.1);
      assert all[k] == events[k];
      if e.Track? {
        assert all[|events|] == e;
      } else {
        var j := PointWasTracked(threads, events, e.t);
        assert all[j] == events[j];
      }
    }
  }

  lemma PrefixHasOneCallEach(events: seq<Event>)
    requires events != [] && OneCallEach(events)
    ensures OneCallEach(DropLast(events))
    ensures DropLast(events) + [Last(events)] == events
  {
  }

  /**
   * A processor that serves one thread, as every processor of the program does, keeps its
   * tables mutual inverses over every run, whenever it is told to close all streams.
   */
  lemma {:induction false} TablesStayInverse(events: seq<Event>)
    requires Exec(1, events).Some? && OneCallEach(events)
    ensures Inverse(Exec(1, events).value.tables) && Undisturbed(Exec(1, events).value)
  {
    if events == [] {
    } else {
      var before, e := DropLast(events), Last(events);
      PrefixHasOneCallEach(events);
      TablesStayInverse(before);
      ReachableNamed(1, before);
      var s := Exec(1, before).value;
      if PairOf(s, e).Some? {
        StreamIsFree(1, before, e);
      }
      StepKeepsInverseIff(s, e);
      StepLeavesUndisturbed(s, e);
    }
  }

  /**
   * Two threads on one processor that replace the same stream of a call, one while the other
   * has let go of the lock, always leave the tables out of step.
   */
  lemma OverlappingTracksDisagree(s: State, t: nat, u: nat, call: string, prev: string, a: string, b: string)
    requires t < |s.at| && u < |s.at| && t != u && s.at[t].Idle? && s.at[u].Idle?
    requires Inverse(s.tables) && Uses(s.tables, call, prev)
    requires a != b && a != "" && b != "" && a !in s.tables.streamCall && b !in s.tables.streamCall
    ensures var run := [Track(t, call, a), ClosePrevious(t), Track(u, call, b), Enter(t)];
      RunFrom(s, run).Some? && !Inverse(RunFrom(s, run).value.tables)
  {
    assert BelongsTo(s.tables, prev, call);
    assert [Track(t, call, a), ClosePrevious(t), Track(u, call, b), Enter(t)]
        == [] + [Track(t, call, a)] + [ClosePrevious(t)] + [Track(u, call, b)] + [Enter(t)];
    RunSnoc(s, [], Track(t, call, a));
    TrackLetsGo(s, t, call, prev, a);
    RunSnoc(s, [] + [Track(t, call, a)], ClosePrevious(t));
    var freed := Step(Step(s, Track(t, call, a)), ClosePrevious(t));
    RunSnoc(s, [] + [Track(t, call, a)] + [ClosePrevious(t)], Track(u, call, b));
    RunSnoc(s, [] + [Track(t, call, a)] + [ClosePrevious(t)] + [Track(u, call, b)], Enter(t));
    LateEntryDisagrees(freed, t, u, call, a, b);
  }

  /** The first two steps of a thread that replaces the call's stream: the call is free then. */
  lemma TrackLetsGo(s: State, t: nat, call: string, prev: string, a: string)
    requires t < |s.at| && s.at[t].Idle? && Inverse(s.tables) && Uses(s.tables, call, prev)
    requires a != "" && a !in s.tables.streamCall
    ensures var s' := Step(s, Track(t, call, a));
      && s'.at == s.at[t := Closing(call, a, prev)]
      && Step(s', ClosePrevious(t)) == State(Closed(s.tables, prev), s.at[t := Entering(call, a)])
    ensures Lookup(Closed(s.tables, prev).callStream, call) == ""
  {
    assert BelongsTo(s.tables, prev, call);
    CloseForgets(s.tables, prev, call, Lookup(Closed(s.tables, prev).callStream, call));
    assert s.at[t := Closing(call, a, prev)][t := Entering(call, a)] == s.at[t := Entering(call, a)];
  }

  /** A thread that enters a call after another one has entered it, too. */
  lemma LateEntryDisagrees(s: State, t: nat, u: nat, call: string, a: string, b: string)
    requires t < |s.at| && u < |s.at| && t != u && s.at[t] == Entering(call, a) && s.at[u].Idle?
    requires a != b && b != "" && call != "" && Lookup(s.tables.callStream, call) == ""
    ensures !Inverse(Step(Step(s, Track(u, call, b)), Enter(t)).tables)
  {
    var t' := Step(Step(s, Track(u, call, b)), Enter(t)).tables;
    assert t' == Entered(Entered(s.tables, call, b), call, a);
    assert BelongsTo(t', b, call) && !Uses(t', call, b);
  }

  /** The last `n` elements of a sequence, or all of them. */
  function LastOf<T>(s: seq<T>, n: nat): seq<T> {
    if |s| <= n then s else s[|s| - n..]
  }

  class AudioReplayBuffer<Chunk> {
    const maxChunks: nat
    var chunks: seq<Chunk>
    /** Everything that was ever added. */
    ghost var added: seq<Chunk>

    ghost predicate Valid()
      reads this
    {
      chunks == LastOf(added, maxChunks)
    }

    constructor (limit: int)
      ensures Valid() && added == []
      ensures maxChunks == if limit <= 0 then 0 else limit
    {
      maxChunks := if limit <= 0 then 0 else limit;
      chunks, added := [], [];
    }

    method Add(chunk: Chunk)
      requires Valid()
      modifies this
      ensures Valid() && added == old(added) + [chunk]
      ensures |chunks| <= maxChunks && |chunks| <= |added| && chunks == added[|added| - |chunks|..]
      ensures |chunks| == maxChunks || chunks == added
    {
      added := added + [chunk];
      if maxChunks == 0 {
        return;
      }
      chunks := chunks + [chunk];
      if |chunks| > maxChunks {
        chunks := chunks[|chunks| - maxChunks..];
      }
    }
  }
}
