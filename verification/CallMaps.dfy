/**
 * The call tables of pkg/transports/twilio/transport.go: which websocket session serves a
 * stream, which call a stream belongs to, and which stream a call uses at the moment. Each
 * locked section is one step, so a run is any interleaving of connection handlers, status
 * callbacks and shutdown.
 */
module CallMaps {
  import opened Base

  /** Sessions are numbered. */
  datatype Tables = Tables(
    sessions: map<string, nat>,
    callSIDs: map<string, string>,
    traceIDs: map<string, string>,
    fromNumbers: map<string, string>,
    callStreams: map<string, string>)

  const EMPTY := Tables(map[], map[], map[], map[], map[])

  /** The stream that attaching `stream` to `call` puts out of use, or the empty string. */
  function Superseded(t: Tables, stream: string, call: string): string {
    if call == "" || Lookup(t.callStreams, call) == stream then "" else Lookup(t.callStreams, call)
  }

  function Without<V>(m: map<string, V>, stream: string): map<string, V> {
    if stream == "" then m else m - {stream}
  }

  function Attached(t: Tables, stream: string, call: string, trace: string, from: string, session: nat): Tables {
    var gone := Superseded(t, stream, call);
    Tables(
      Without(t.sessions, gone)[stream := session],
      Without(t.callSIDs, gone)[stream := call],
      Without(t.traceIDs, gone)[stream := trace],
      if from == "" then Without(t.fromNumbers, gone) else Without(t.fromNumbers, gone)[stream := from],
      if call == "" then t.callStreams else t.callStreams[call := stream])
  }

  function Detached(t: Tables, stream: string): Tables {
    var call := Lookup(t.callSIDs, stream);
    Tables(
      t.sessions - {stream},
      t.callSIDs - {stream},
      t.traceIDs - {stream},
      t.fromNumbers - {stream},
      if call != "" && Lookup(t.callStreams, call) == stream then t.callStreams - {call} else t.callStreams)
  }

  /** The identifying fields that a frame from this stream carries; empty means absent. */
  datatype Meta = Meta(stream: string, call: string, trace: string, from: string)

  function MetaOf(t: Tables, stream: string): Meta {
    Meta(stream, Lookup(t.callSIDs, stream), Lookup(t.traceIDs, stream), Lookup(t.fromNumbers, stream))
  }

  /** The engine skips a frame that does not name both its call and its stream. */
  predicate EngineIgnores(meta: Meta) {
    meta.call == "" || meta.stream == ""
  }

  /** A call end frame with its reason. */
  datatype CallEnd = CallEnd(meta: Meta, reason: string)

  class Transport {
    var draining: bool
    var sessions: map<string, nat>
    var callSIDs: map<string, string>
    var traceIDs: map<string, string>
    var fromNumbers: map<string, string>
    var callStreams: map<string, string>

    function Contents(): Tables
      reads this
    {
      Tables(sessions, callSIDs, traceIDs, fromNumbers, callStreams)
    }

    constructor ()
      ensures Contents() == EMPTY && !draining
    {
      draining := false;
      sessions, callSIDs, traceIDs, fromNumbers, callStreams := map[], map[], map[], map[], map[];
    }

    /** Also says which stream was superseded, and the session of it to close. */
    method Attach(stream: string, call: string, trace: string, from: string, session: nat)
      returns (oldStream: string, oldSession: Option<nat>)
      modifies this
      ensures Contents() == Attached(old(Contents()), stream, call, trace, from, session)
      ensures draining == old(draining)
      ensures oldStream == Superseded(old(Contents()), stream, call)
      ensures oldSession == if oldStream != "" && oldStream in old(sessions)
                            then Some(old(sessions)[oldStream]) else None
    {
      oldStream, oldSession := "", None;
      if call != "" {
        var existing := Lookup(callStreams, call);
        if existing != "" && existing != stream {
          oldStream := existing;
          oldSession := if existing in sessions then Some(sessions[existing]) else None;
          sessions := sessions - {existing};
          callSIDs := callSIDs - {existing};
          traceIDs := traceIDs - {existing};
          fromNumbers := fromNumbers - {existing};
        }
        callStreams := callStreams[call := stream];
      }
      sessions := sessions[stream := session];
      callSIDs := callSIDs[stream := call];
      traceIDs := traceIDs[stream := trace];
      if from != "" {
        fromNumbers := fromNumbers[stream := from];
      }
    }

    /** Says which session to close, if the stream still had one. */
    method Detach(stream: string) returns (closed: Option<nat>)
      modifies this
      ensures Contents() == Detached(old(Contents()), stream)
      ensures draining == old(draining)
      ensures closed == if stream in old(sessions) then Some(old(sessions)[stream]) else None
    {
      closed := if stream in sessions then Some(sessions[stream]) else None;
      var call := Lookup(callSIDs, stream);
      sessions := sessions - {stream};
      callSIDs := callSIDs - {stream};
      traceIDs := traceIDs - {stream};
      fromNumbers := fromNumbers - {stream};
      if call != "" && Lookup(callStreams, call) == stream {
        callStreams := callStreams - {call};
      }
    }

    /** The end of a connection: announce the end of the call, then forget the stream. */
    method EndStream(stream: string, reason: string) returns (end: CallEnd, closed: Option<nat>)
      modifies this
      ensures Contents() == Detached(old(Contents()), stream)
      ensures end == CallEnd(MetaOf(old(Contents()), stream), reason)
      ensures closed == if stream in old(sessions) then Some(old(sessions)[stream]) else None
    {
      end := CallEnd(MetaOf(Contents(), stream), reason);
      closed := Detach(stream);
    }

    /**
     * A status report from the carrier ends the call's current stream, if it has one, when
     * nothing else happens meanwhile.
     */
    method EndCall(call: string, reason: string) returns (end: Option<CallEnd>)
      modifies this
      ensures end.Some? <==> reason != "" && call != "" && Lookup(old(callStreams), call) != ""
      ensures end == None ==> Contents() == old(Contents())
      ensures end.Some? ==>
        var stream := Lookup(old(callStreams), call);
        Contents() == Detached(old(Contents()), stream) && end.value == CallEnd(MetaOf(old(Contents()), stream), reason)
    {
      end := None;
      if reason == "" || call == "" {
        return;
      }
      var stream := Lookup(callStreams, call);
      if stream != "" {
        var e, closed := EndStream(stream, reason);
        end := Some(e);
      }
    }

    /** Shutting down forgets the sessions but keeps the other tables. */
    method Stop() returns (closed: set<nat>)
      modifies this
      ensures draining && Contents() == old(Contents()).(sessions := map[])
      ensures closed == old(sessions).Values
    {
      draining := true;
      closed := sessions.Values;
      sessions := map[];
    }
  }

  /**
   * On nonempty call ids, the two tables are inverse to each other: a call uses a stream
   * exactly if the stream belongs to the call.
   */
  ghost predicate Inverse(t: Tables) {
    forall call, stream :: call != "" ==> (Uses(t, call, stream) <==> BelongsTo(t, stream, call))
  }

  ghost predicate Uses(t: Tables, call: string, stream: string) {
    call in t.callStreams && t.callStreams[call] == stream
  }

  ghost predicate BelongsTo(t: Tables, stream: string, call: string) {
    stream in t.callSIDs && t.callSIDs[stream] == call
  }

  /**
   * When attaching keeps the tables inverse: the stream does not belong to another call,
   * and the call does not use a stream with the empty name.
   */
  predicate SafeToAttach(t: Tables, stream: string, call: string) {
    && Lookup(t.callSIDs, stream) in {"", call}
    && (call != "" && call in t.callStreams && t.callStreams[call] == "" ==> stream == "")
  }

  lemma AttachKeepsInverseIff(
    t: Tables, stream: string, call: string, trace: string, from: string, session: nat)
    requires Inverse(t)
    ensures Inverse(Attached(t, stream, call, trace, from, session)) <==> SafeToAttach(t, stream, call)
  {
    var t' := Attached(t, stream, call, trace, from, session);
    var other := Lookup(t.callSIDs, stream);
    assert other != "" ==> Uses(t, other, stream);
    if SafeToAttach(t, stream, call) {
      forall c, s | c != ""
        ensures Uses(t', c, s) <==> BelongsTo(t', s, c)
      {
        var existing := Lookup(t.callStreams, call);
        assert Uses(t, c, s) <==> BelongsTo(t, s, c);
        assert Uses(t, c, stream) <==> BelongsTo(t, stream, c);
        assert Uses(t, call, existing) ==> call == "" || BelongsTo(t, existing, call);
        assert Uses(t, c, existing) <==> BelongsTo(t, existing, c);
        assert call != "" ==> (Uses(t, call, s) <==> BelongsTo(t, s, call));
      }
    } else if other != "" && other != call {
      assert Uses(t', other, stream) && !BelongsTo(t', stream, other);
    } else {
      assert Uses(t, call, "") && BelongsTo(t, "", call);
      assert BelongsTo(t', "", call) && !Uses(t', call, "");
    }
  }

  lemma DetachKeepsInverse(t: Tables, stream: string)
    requires Inverse(t)
    ensures Inverse(Detached(t, stream))
  {
    var t' := Detached(t, stream);
    forall c, s | c != ""
      ensures Uses(t', c, s) <==> BelongsTo(t', s, c)
    {
      assert Uses(t, c, s) <==> BelongsTo(t, s, c);
      assert Uses(t, c, stream) <==> BelongsTo(t, stream, c);
    }
  }

  datatype Event =
    | Attach(stream: string, call: string, trace: string, from: string, session: nat)
    | Detach(stream: string)
    | Stop

  function Step(t: Tables, e: Event): Tables {
    match e
    case Attach(stream, call, trace, from, session) => Attached(t, stream, call, trace, from, session)
    case Detach(stream) => Detached(t, stream)
    case Stop => t.(sessions := map[])
  }

  function Exec(events: seq<Event>): Tables {
    if events == [] then EMPTY else Step(Exec(DropLast(events)), Last(events))
  }

  predicate SafeStep(t: Tables, e: Event) {
    e.Attach? ==> SafeToAttach(t, e.stream, e.call)
  }

  lemma StepKeepsInverseIff(t: Tables, e: Event)
    requires Inverse(t)
    ensures Inverse(Step(t, e)) <==> SafeStep(t, e)
  {
    match e
    case Attach(stream, call, trace, from, session) => AttachKeepsInverseIff(t, stream, call, trace, from, session);
    case Detach(stream) => DetachKeepsInverse(t, stream);
    case Stop =>
      forall call, stream
        ensures Uses(Step(t, e), call, stream) <==> Uses(t, call, stream)
        ensures BelongsTo(Step(t, e), stream, call) <==> BelongsTo(t, stream, call)
      {
      }
  }

  /** The tables are inverse now and have been after every earlier event. */
  ghost predicate InverseThroughout(events: seq<Event>) {
    Inverse(Exec(events)) && (events != [] ==> InverseThroughout(DropLast(events)))
  }

  /** Every attach was safe when it happened. */
  ghost predicate SafeThroughout(events: seq<Event>) {
    events != [] ==> SafeThroughout(DropLast(events)) && SafeStep(Exec(DropLast(events)), Last(events))
  }

  /**
   * Whatever the carrier sends, the tables are inverse all the time exactly if every attach
   * is safe when it happens.
   */
  lemma {:induction false} InverseThroughoutIff(events: seq<Event>)
    ensures InverseThroughout(events) <==> SafeThroughout(events)
  {
    if events == [] {
    } else {
      InverseThroughoutIff(DropLast(events));
      if InverseThroughout(DropLast(events)) {
        StepKeepsInverseIff(Exec(DropLast(events)), Last(events));
      }
    }
  }

  /** What the carrier promises: streams have names, and belong to one call each. */
  ghost predicate WellFormed(events: seq<Event>) {
    && (forall i :: 0 <= i < |events| && events[i].Attach? ==> events[i].stream != "")
    && (forall i, j :: 0 <= i < j < |events|
          && events[i].Attach? && events[j].Attach? && events[i].stream == events[j].stream
          ==> events[i].call == events[j].call)
  }

  predicate Attaches(e: Event, stream: string, call: string) {
    e.Attach? && e.stream == stream && e.call == call
  }

  /** The stream is torn down, or its call goes over to another stream. */
  predicate Ends(e: Event, stream: string, call: string) {
    || (e.Detach? && e.stream == stream)
    || (e.Attach? && call != "" && e.call == call && e.stream != stream)
  }

  ghost predicate LiveFrom(events: seq<Event>, k: nat, stream: string, call: string) {
    && k < |events| && Attaches(events[k], stream, call)
    && (forall j :: k < j < |events| ==> !Ends(events[j], stream, call))
  }

  /** The history's own account of which stream serves which call. */
  ghost predicate Live(events: seq<Event>, stream: string, call: string) {
    exists k: nat :: LiveFrom(events, k, stream, call)
  }

  lemma LiveGrows(events: seq<Event>, stream: string, call: string)
    requires events != []
    ensures Live(events, stream, call) <==>
      || Attaches(Last(events), stream, call)
      || (Live(DropLast(events), stream, call) && !Ends(Last(events), stream, call))
  {
    var before := DropLast(events);
    if Attaches(Last(events), stream, call) {
      assert LiveFrom(events, |events| - 1, stream, call);
    } else if Live(events, stream, call) {
      var k: nat :| LiveFrom(events, k, stream, call);
      assert LiveFrom(before, k, stream, call);
    } else if Live(before, stream, call) {
      var k: nat :| LiveFrom(before, k, stream, call);
      assert !LiveFrom(events, k, stream, call);
    }
  }

  lemma {:induction false} AttachedUnderOneCall(events: seq<Event>, stream: string, call: string)
    requires WellFormed(events) && events != [] && Last(events).Attach?
    requires Last(events).stream == stream && Live(DropLast(events), stream, call)
    ensures Last(events).call == call
  {
    var k: nat :| LiveFrom(DropLast(events), k, stream, call);
    assert events[k] == DropLast(events)[k];
  }

  /**
   * After any run, a stream belongs to a call exactly if the history says that it serves
   * it, and a call uses a stream exactly if the history says the same.
   */
  lemma {:induction false} TablesTellTheHistory(events: seq<Event>, stream: string, call: string)
    requires WellFormed(events)
    ensures BelongsTo(Exec(events), stream, call) <==> Live(events, stream, call)
    ensures call != "" ==> (Uses(Exec(events), call, stream) <==> Live(events, stream, call))
  {
    if events == [] {
    } else {
      var before, e := DropLast(events), Last(events);
      TablesTellTheHistory(before, stream, call);
      LiveGrows(events, stream, call);
      if e.Attach? {
        TablesTellTheHistory(before, stream, e.call);
        if e.stream == stream && Live(before, stream, call) {
          AttachedUnderOneCall(events, stream, call);
        }
        NoUnnamedStream(before, e.call);
      } else if e.Detach? {
        TablesTellTheHistory(before, e.stream, call);
      }
    }
  }

  lemma {:induction false} NoUnnamedStream(events: seq<Event>, call: string)
    requires WellFormed(events)
    ensures !Uses(Exec(events), call, "")
  {
    if events == [] {
    } else {
      NoUnnamedStream(DropLast(events), call);
    }
  }

  /** A stream attached without a call id enters no call. */
  lemma {:induction false} NoUnnamedCall(events: seq<Event>)
    ensures "" !in Exec(events).callStreams
  {
    if events == [] {
    } else {
      NoUnnamedCall(DropLast(events));
    }
  }

  /** Over every run the tables stay mutual inverses. */
  lemma TablesStayInverse(events: seq<Event>)
    requires WellFormed(events)
    ensures Inverse(Exec(events))
  {
    forall call, stream | call != ""
      ensures Uses(Exec(events), call, stream) <==> BelongsTo(Exec(events), stream, call)
    {
      TablesTellTheHistory(events, stream, call);
    }
  }

  /**
   * The session, call and trace tables always speak of the same streams, and the caller
   * numbers of no others; a shutdown empties the sessions only.
   */
  lemma {:induction false} TablesHaveEqualDomains(events: seq<Event>)
    ensures var t := Exec(events);
      t.callSIDs.Keys == t.traceIDs.Keys && t.fromNumbers.Keys <= t.callSIDs.Keys && t.sessions.Keys <= t.callSIDs.Keys
    ensures Stop !in events ==> Exec(events).sessions.Keys == Exec(events).callSIDs.Keys
  {
    if events == [] {
    } else {
      TablesHaveEqualDomains(DropLast(events));
    }
  }

  /** The call went over to another stream, and this one was not attached again. */
  ghost predicate ReplacedAt(events: seq<Event>, j: nat, stream: string, call: string) {
    && j < |events| && events[j].Attach? && call != "" && events[j].call == call && events[j].stream != stream
    && (forall i :: j < i < |events| ==> !Attaches(events[i], stream, call))
  }

  lemma {:induction false} AttachedToItsCall(events: seq<Event>, stream: string) returns (k: nat)
    requires stream in Exec(events).callSIDs
    ensures k < |events| && Attaches(events[k], stream, Exec(events).callSIDs[stream])
  {
    assert events != [];
    if Last(events).Attach? && Last(events).stream == stream {
      k := |events| - 1;
    } else {
      k := AttachedToItsCall(DropLast(events), stream);
    }
  }

  lemma SameCall(events: seq<Event>, i: nat, k: nat)
    requires WellFormed(events) && i < |events| && k < |events|
    requires events[i].Attach? && events[k].Attach? && events[i].stream == events[k].stream
    ensures events[i].call == events[k].call
  {
  }

  lemma ReplacedIsNotLive(events: seq<Event>, j: nat, stream: string, call: string)
    requires ReplacedAt(events, j, stream, call)
    ensures !Live(events, stream, call)
  {
    forall m: nat
      ensures !LiveFrom(events, m, stream, call)
    {
      assert Ends(events[j], stream, call);
    }
  }

  lemma ReplacedIsGone(events: seq<Event>, k: nat, j: nat, stream: string, call: string)
    requires WellFormed(events) && k < |events| && Attaches(events[k], stream, call)
    requires ReplacedAt(events, j, stream, call)
    ensures stream !in Exec(events).callSIDs
  {
    ReplacedIsNotLive(events, j, stream, call);
    TablesTellTheHistory(events, stream, call);
    if stream in Exec(events).callSIDs {
      var i := AttachedToItsCall(events, stream);
      SameCall(events, i, k);
    }
  }

  /**
   * The teardown of a stream that begins after its call has reconnected elsewhere changes no
   * table at all, and the call end it announces is one that the engine ignores.
   */
  lemma StaleTeardownIsHarmless(events: seq<Event>, k: nat, j: nat, stream: string, call: string)
    requires WellFormed(events) && k < |events| && Attaches(events[k], stream, call)
    requires ReplacedAt(events, j, stream, call)
    ensures EngineIgnores(MetaOf(Exec(events), stream))
    ensures Step(Exec(events), Detach(stream)) == Exec(events)
  {
    ReplacedIsGone(events, k, j, stream, call);
    TablesHaveEqualDomains(events);
    DetachOfUnknown(Exec(events), stream);
  }

  lemma DetachOfUnknown(t: Tables, stream: string)
    requires stream !in t.callSIDs && stream !in t.traceIDs && stream !in t.fromNumbers && stream !in t.sessions
    ensures Detached(t, stream) == t
  {
    assert t.sessions - {stream} == t.sessions && t.callSIDs - {stream} == t.callSIDs;
    assert t.traceIDs - {stream} == t.traceIDs && t.fromNumbers - {stream} == t.fromNumbers;
  }

  /** The engine heeds a frame exactly if it names its stream and the stream is known to belong to a call. */
  lemma EngineHeedsIff(t: Tables, stream: string)
    ensures !EngineIgnores(MetaOf(t, stream)) <==>
      stream != "" && stream in t.callSIDs && t.callSIDs[stream] != ""
  {
  }

  /** Event `k` is the last that attached the stream, and it was not detached or superseded since. */
  ghost predicate AttachedSince(events: seq<Event>, k: nat, stream: string) {
    && k < |events| && events[k].Attach? && events[k].stream == stream
    && (forall j :: k < j < |events| ==> !(events[j].Attach? && events[j].stream == stream))
  }

  /**
   * The frames of a stream that is known carry what its last attach gave: the call, the trace
   * and, if there was one, the caller's number.
   */
  lemma {:induction false} MetaNamesLastAttach(events: seq<Event>, k: nat, stream: string)
    requires AttachedSince(events, k, stream) && stream in Exec(events).callSIDs
    ensures var meta := MetaOf(Exec(events), stream);
      && meta.stream == stream && meta.call == events[k].call && meta.trace == events[k].trace
      && (events[k].from != "" ==> meta.from == events[k].from)
  {
    if k == |events| - 1 {
    } else {
      assert AttachedSince(DropLast(events), k, stream);
      TablesHaveEqualDomains(DropLast(events));
      MetaNamesLastAttach(DropLast(events), k, stream);
    }
  }

  /**
   * A call end reaches the engine exactly if the stream served a call when the teardown read
   * the tables.
   */
  lemma CallEndCountsIff(events: seq<Event>, stream: string)
    requires WellFormed(events) && stream != ""
    ensures !EngineIgnores(MetaOf(Exec(events), stream)) <==> exists call :: call != "" && Live(events, stream, call)
  {
    var call := Lookup(Exec(events).callSIDs, stream);
    if call != "" {
      TablesTellTheHistory(events, stream, call);
    }
    forall c | c != "" && Live(events, stream, c)
      ensures c == call
    {
      TablesTellTheHistory(events, stream, c);
    }
  }

  /** The call goes on: some stream serves it. */
  ghost predicate GoesOn(events: seq<Event>, call: string) {
    exists stream :: Live(events, stream, call)
  }

  /** A call survives the detach of a stream exactly if it uses another stream by then. */
  lemma CallOutlivesDetachIff(before: seq<Event>, stream: string, call: string)
    requires WellFormed(before) && call != ""
    ensures GoesOn(before + [Detach(stream)], call) <==>
      call in Exec(before).callStreams && Exec(before).callStreams[call] != stream
  {
    var after := before + [Detach(stream)];
    assert DropLast(after) == before && Last(after) == Detach(stream);
    forall s
      ensures Live(after, s, call) <==> Uses(Exec(before), call, s) && s != stream
    {
      LiveGrows(after, s, call);
      TablesTellTheHistory(before, s, call);
    }
    if call in Exec(before).callStreams {
      assert Uses(Exec(before), call, Exec(before).callStreams[call]);
    }
  }

  /**
   * A teardown reads the tables after `read`, sends its call end after `sent` and detaches
   * after `before`, with anything in between. If the engine heeds the call end, the stream
   * served the call when the tables were read. The call end is false when it is sent exactly
   * if the call has gone over to another stream by then; and the call goes on after the
   * detach exactly if it has done so by then.
   */
  lemma HeededEndIsFalseIff(read: seq<Event>, sent: seq<Event>, before: seq<Event>, stream: string)
    requires WellFormed(before) && read <= sent <= before && !EngineIgnores(MetaOf(Exec(read), stream))
    ensures var call := MetaOf(Exec(read), stream).call;
      && Live(read, stream, call)
      && (ServedElsewhere(sent, stream, call) <==> Lookup(Exec(sent).callStreams, call) !in {"", stream})
      && (GoesOn(before + [Detach(stream)], call) <==> Lookup(Exec(before).callStreams, call) !in {"", stream})
  {
    var call := MetaOf(Exec(read), stream).call;
    WellFormedPrefix(sent, before);
    WellFormedPrefix(read, sent);
    TablesTellTheHistory(read, stream, call);
    ServedElsewhereIff(sent, stream, call);
    CallOutlivesDetachIff(before, stream, call);
    NoUnnamedStream(before, call);
  }

  ghost predicate ServedElsewhere(events: seq<Event>, stream: string, call: string) {
    exists other :: other != stream && Live(events, other, call)
  }

  lemma ServedElsewhereIff(events: seq<Event>, stream: string, call: string)
    requires WellFormed(events) && call != ""
    ensures ServedElsewhere(events, stream, call) <==> Lookup(Exec(events).callStreams, call) !in {"", stream}
  {
    NoUnnamedStream(events, call);
    forall other
      ensures Live(events, other, call) <==> Uses(Exec(events), call, other)
    {
      TablesTellTheHistory(events, other, call);
    }
    if call in Exec(events).callStreams {
      assert Uses(Exec(events), call, Exec(events).callStreams[call]);
    }
  }

  lemma WellFormedPrefix(part: seq<Event>, whole: seq<Event>)
    requires WellFormed(whole) && part <= whole
    ensures WellFormed(part)
  {
  }

  /**
   * A status report looks up the call's stream after `looked`, reads that stream's tables
   * after `read` and detaches it later. The engine heeds its call end exactly if the call
   * still used that stream when the tables were read; if so, it names the call.
   */
  lemma StatusEndHeededIff(looked: seq<Event>, read: seq<Event>, call: string)
    requires WellFormed(read) && looked <= read && call != "" && Lookup(Exec(looked).callStreams, call) != ""
    ensures var stream := Lookup(Exec(looked).callStreams, call); var meta := MetaOf(Exec(read), stream);
      && (!EngineIgnores(meta) <==> Uses(Exec(read), call, stream))
      && (!EngineIgnores(meta) ==> meta.call == call)
  {
    var stream := Lookup(Exec(looked).callStreams, call);
    WellFormedPrefix(looked, read);
    TablesTellTheHistory(looked, stream, call);
    var k: nat :| LiveFrom(looked, k, stream, call);
    assert read[k] == looked[k];
    if stream in Exec(read).callSIDs {
      var i := AttachedToItsCall(read, stream);
      SameCall(read, i, k);
    }
    TablesTellTheHistory(read, stream, call);
  }

  /** One way for a heeded call end to be false: the call reconnects between the two steps. */
  lemma EarlyTeardownEndsLiveCall(events: seq<Event>, stream: string, call: string, again: Event)
    requires WellFormed(events) && Live(events, stream, call) && stream != ""
    requires again.Attach? && again.call == call != "" && again.stream != stream
    ensures MetaOf(Exec(events), stream).call == call && !EngineIgnores(MetaOf(Exec(events), stream))
    ensures Live(events + [again, Detach(stream)], again.stream, call)
  {
    TablesTellTheHistory(events, stream, call);
    assert LiveFrom(events + [again, Detach(stream)], |events|, again.stream, call);
  }
}
