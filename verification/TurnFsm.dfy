/**
 * The turn state machine of pkg/turn/fsm.go: which transitions exist, and what its
 * listeners hear of them.
 */
module TurnFsm {
  import opened Base

  datatype TurnState = Idle | Listening | Thinking | Speaking

  datatype Edge = Edge(source: TurnState, target: TurnState)

  function Targets(source: TurnState): seq<TurnState> {
    match source
    case Idle => [Listening]
    case Listening => [Thinking, Idle]
    case Thinking => [Speaking, Listening, Idle]
    case Speaking => [Listening, Idle]
  }

  predicate Allowed(source: TurnState, target: TurnState) {
    target in Targets(source)
  }

  /**
   * Who may enter a state: the agent thinks only after listening and speaks only after
   * thinking; the turn can go back to the caller from anywhere else, and a call can end from
   * anywhere but its idle state.
   */
  lemma WhoMayEnter(source: TurnState)
    ensures Allowed(source, Idle) <==> source != Idle
    ensures Allowed(source, Listening) <==> source != Listening
    ensures Allowed(source, Thinking) <==> source == Listening
    ensures Allowed(source, Speaking) <==> source == Thinking
  {
  }

  /** The state in which edge `i` of a run from `Idle` has to start. */
  function StateBefore(edges: seq<Edge>, i: nat): TurnState
    requires i <= |edges|
  {
    if i == 0 then Idle else edges[i - 1].target
  }

  /** The committed transitions lead from `Idle` to `current`, each along an allowed edge. */
  ghost predicate IsPath(edges: seq<Edge>, current: TurnState) {
    && (forall i :: 0 <= i < |edges| ==>
      edges[i].source == StateBefore(edges, i) && Allowed(edges[i].source, edges[i].target))
    && current == StateBefore(edges, |edges|)
  }

  lemma PathGrows(edges: seq<Edge>, current: TurnState, target: TurnState)
    requires IsPath(edges, current) && Allowed(current, target)
    ensures IsPath(edges + [Edge(current, target)], target)
  {
    var longer := edges + [Edge(current, target)];
    forall i | 0 <= i < |longer|
      ensures longer[i].source == StateBefore(longer, i) && Allowed(longer[i].source, longer[i].target)
    {
      assert StateBefore(longer, i) == StateBefore(edges, i);
    }
  }

  /**
   * The machine as an object, for calls that do not overlap. Listener k is represented by
   * the events it has heard.
   */
  class StateMachine {
    const threshold: int
    var current: TurnState
    var inboxes: seq<seq<Edge>>
    var interrupts: nat
    /** All committed transitions, and how many there were when each listener joined. */
    ghost var edges: seq<Edge>
    ghost var joined: seq<nat>

    ghost predicate Valid()
      reads this
    {
      && IsPath(edges, current)
      && |joined| == |inboxes|
      && (forall k :: 0 <= k < |inboxes| ==> joined[k] <= |edges| && inboxes[k] == edges[joined[k]..])
    }

    constructor (bargeInThreshold: int)
      ensures Valid() && current == Idle && edges == [] && inboxes == [] && interrupts == 0
      ensures threshold == if bargeInThreshold <= 0 then 500 else bargeInThreshold
    {
      threshold := if bargeInThreshold <= 0 then 500 else bargeInThreshold;
      current := Idle;
      inboxes := [];
      interrupts := 0;
      edges := [];
      joined := [];
    }

    method NotifyListeners(event: Edge)
      modifies this`inboxes
      ensures |inboxes| == |old(inboxes)|
      ensures forall i :: 0 <= i < |inboxes| ==> inboxes[i] == old(inboxes)[i] + [event]
    {
      var k := 0;
      while k < |inboxes|
        invariant 0 <= k <= |inboxes| == |old(inboxes)|
        invariant forall i :: 0 <= i < |inboxes| ==>
          inboxes[i] == if i < k then old(inboxes)[i] + [event] else old(inboxes)[i]
      {
        inboxes := inboxes[k := inboxes[k] + [event]];
        k := k + 1;
      }
    }

    /** A transition that exists is taken and told to every listener; any other is an error. */
    method Transition(target: TurnState) returns (ok: bool)
      requires Valid()
      modifies this`current, this`inboxes, this`edges
      ensures Valid() && |inboxes| == |old(inboxes)|
      ensures ok == Allowed(old(current), target)
      ensures current == if ok then target else old(current)
      ensures edges == old(edges) + (if ok then [Edge(old(current), target)] else [])
    {
      if !Allowed(current, target) {
        return false;
      }
      var event := Edge(current, target);
      PathGrows(edges, current, target);
      current := target;
      edges := edges + [event];
      NotifyListeners(event);
      forall i | 0 <= i < |inboxes|
        ensures inboxes[i] == edges[joined[i]..]
      {
        assert edges[joined[i]..] == old(edges)[joined[i]..] + [event];
      }
      ok := true;
    }

    method AddListener() returns (k: nat)
      requires Valid()
      modifies this`inboxes, this`joined
      ensures Valid() && k == |old(inboxes)|
      ensures inboxes == old(inboxes) + [[]] && joined == old(joined) + [|edges|]
    {
      k := |inboxes|;
      inboxes := inboxes + [[]];
      joined := joined + [|edges|];
    }

    /** The end of playback returns the turn to the caller, but only while speaking. */
    method OnAudioComplete()
      requires Valid()
      modifies this`current, this`inboxes, this`edges
      ensures Valid() && |inboxes| == |old(inboxes)|
      ensures current == if old(current).Speaking? then Listening else old(current)
      ensures edges == old(edges) + (if old(current).Speaking? then [Edge(Speaking, Listening)] else [])
    {
      if current.Speaking? {
        var ok := Transition(Listening);
      }
    }

    /** Caller speech longer than the threshold interrupts the agent. */
    method OnSTTInput(duration: int)
      requires Valid()
      modifies this`current, this`inboxes, this`edges, this`interrupts
      ensures Valid() && |inboxes| == |old(inboxes)|
      ensures var bargesIn := old(current).Speaking? && duration > threshold;
        && interrupts == old(interrupts) + (if bargesIn then 1 else 0)
        && current == (if bargesIn then Listening else old(current))
        && edges == old(edges) + (if bargesIn then [Edge(Speaking, Listening)] else [])
    {
      if current.Speaking? && duration > threshold {
        interrupts := interrupts + 1;
        var ok := Transition(Listening);
      }
    }
  }
}

/** The same machine under any interleaving: commits are atomic, notifications are not. */
module TurnInterleaving {
  import opened Base
  import opened Counting
  import opened TurnFsm

  /** `Notifying` still has to tell `edge` to the listeners from `next` to before `until`. */
  datatype Point =
    | Outside
    | Committing(target: TurnState)
    | Notifying(edge: Edge, next: nat, until: nat)

  datatype State = State(
    current: TurnState,
    at: seq<Point>,
    edges: seq<Edge>,
    heard: seq<seq<Edge>>,
    joined: seq<nat>)

  datatype Event =
    | Request(t: nat, target: TurnState)
    | AudioComplete(t: nat)
    | SttInput(t: nat, aboveThreshold: bool)
    | Commit(t: nat)
    | Notify(t: nat)
    | AddListener(t: nat)

  function Init(threads: nat): State {
    State(Idle, seq(threads, _ => Outside), [], [], [])
  }

  predicate Enabled(s: State, e: Event) {
    e.t < |s.at| &&
    match e
    case Commit(t) => s.at[t].Committing?
    case Notify(t) => s.at[t].Notifying? && s.at[t].next < |s.heard|
    case _ => s.at[e.t].Outside?
  }

  predicate Commits(s: State, e: Event)
    requires Enabled(s, e)
  {
    e.Commit? && Allowed(s.current, s.at[e.t].target)
  }

  function PointAfter(s: State, e: Event): Point
    requires Enabled(s, e)
  {
    var p := s.at[e.t];
    match e
    case Request(_, target) => Committing(target)
    case AudioComplete(_) => if s.current.Speaking? then Committing(Listening) else Outside
    case SttInput(_, above) => if s.current.Speaking? && above then Committing(Listening) else Outside
    case Commit(_) =>
      if Commits(s, e) && |s.heard| > 0 then Notifying(Edge(s.current, p.target), 0, |s.heard|) else Outside
    case Notify(_) => if p.next + 1 < p.until then p.(next := p.next + 1) else Outside
    case AddListener(_) => Outside
  }

  function Step(s: State, e: Event): State
    requires Enabled(s, e)
  {
    var p := s.at[e.t];
    State(
      if Commits(s, e) then p.target else s.current,
      s.at[e.t := PointAfter(s, e)],
      if Commits(s, e) then s.edges + [Edge(s.current, p.target)] else s.edges,
      if e.Notify? then s.heard[p.next := s.heard[p.next] + [p.edge]]
      else if e.AddListener? then s.heard + [[]] else s.heard,
      if e.AddListener? then s.joined + [|s.edges|] else s.joined)
  }

  function Exec(threads: nat, events: seq<Event>): Option<State> {
    if events == [] then Some(Init(threads))
    else
      var before := Exec(threads, DropLast(events));
      if before.Some? && Enabled(before.value, Last(events)) then Some(Step(before.value, Last(events))) else None
  }

  /** Whatever the interleaving, the committed states form a path from `Idle`. */
  lemma {:induction false} CommittedStatesFormPath(threads: nat, events: seq<Event>)
    requires Exec(threads, events).Some?
    ensures IsPath(Exec(threads, events).value.edges, Exec(threads, events).value.current)
  {
    if events == [] {
    } else {
      CommittedStatesFormPath(threads, DropLast(events));
      var s := Exec(threads, DropLast(events)).value;
      if Commits(s, Last(events)) {
        PathGrows(s.edges, s.current, s.at[Last(events).t].target);
      }
    }
  }

  /** The agent starts to speak only after thinking. */
  lemma SpeakingOnlyFromThinking(threads: nat, events: seq<Event>, i: nat)
    requires Exec(threads, events).Some? && i < |Exec(threads, events).value.edges|
    requires Exec(threads, events).value.edges[i].target.Speaking?
    ensures Exec(threads, events).value.edges[i].source.Thinking?
    ensures i > 0 && Exec(threads, events).value.edges[i - 1].target.Thinking?
  {
    CommittedStatesFormPath(threads, events);
    var edges := Exec(threads, events).value.edges;
    assert edges[i].source == StateBefore(edges, i) && Allowed(edges[i].source, edges[i].target);
  }

  predicate Owes(p: Point, k: nat, edge: Edge) {
    p.Notifying? && p.edge == edge && p.next <= k < p.until
  }

  function Owing(k: nat, edge: Edge): Point -> nat {
    p => if Owes(p, k, edge) then 1 else 0
  }

  /** How many threads still have to tell `edge` to listener `k`. */
  function Pending(at: seq<Point>, k: nat, edge: Edge): nat {
    Sum(at, Owing(k, edge))
  }

  ghost predicate Bounded(s: State) {
    && |s.joined| == |s.heard|
    && (forall t :: 0 <= t < |s.at| && s.at[t].Notifying? ==> s.at[t].next < s.at[t].until <= |s.heard|)
    && (forall k :: 0 <= k < |s.joined| ==> s.joined[k] <= |s.edges|)
  }

  /** Listener `k` has heard, or will be told, each edge committed since it joined, once. */
  ghost predicate Informed(s: State, k: nat, edge: Edge)
    requires Bounded(s) && k < |s.heard|
  {
    CountOf(s.heard[k], edge) + Pending(s.at, k, edge) == CountOf(s.edges[s.joined[k]..], edge)
  }

  lemma StepKeepsBounded(s: State, e: Event)
    requires Enabled(s, e) && Bounded(s)
    ensures Bounded(Step(s, e))
  {
  }

  lemma PendingMoves(s: State, e: Event, k: nat, edge: Edge)
    requires Enabled(s, e)
    ensures Pending(Step(s, e).at, k, edge) == Pending(s.at, k, edge)
      - (if Owes(s.at[e.t], k, edge) then 1 else 0) + (if Owes(PointAfter(s, e), k, edge) then 1 else 0)
  {
    SumUpdate(s.at, e.t, PointAfter(s, e), Owing(k, edge));
  }

  lemma EdgesGrow(s: State, e: Event, k: nat, edge: Edge)
    requires Enabled(s, e) && Bounded(s) && k < |s.heard| && Commits(s, e)
    ensures CountOf(Step(s, e).edges[s.joined[k]..], edge) == CountOf(s.edges[s.joined[k]..], edge)
      + (if Edge(s.current, s.at[e.t].target) == edge then 1 else 0)
  {
    var added := Edge(s.current, s.at[e.t].target);
    CountAppend(s.edges[s.joined[k]..], added, edge);
    assert (s.edges + [added])[s.joined[k]..] == s.edges[s.joined[k]..] + [added];
  }

  /** A commit makes the committing thread owe the edge to every listener there is. */
  lemma CommitInforms(s: State, e: Event, k: nat, edge: Edge)
    requires Enabled(s, e) && Bounded(s) && k < |s.heard| && Informed(s, k, edge) && Commits(s, e)
    ensures Bounded(Step(s, e)) && Informed(Step(s, e), k, edge)
  {
    StepKeepsBounded(s, e);
    EdgesGrow(s, e, k, edge);
    PendingMoves(s, e, k, edge);
  }

  /** A notification pays one debt. */
  lemma NotifyInforms(s: State, e: Event, k: nat, edge: Edge)
    requires Enabled(s, e) && Bounded(s) && k < |s.heard| && Informed(s, k, edge) && e.Notify?
    ensures Bounded(Step(s, e)) && Informed(Step(s, e), k, edge)
  {
    StepKeepsBounded(s, e);
    PendingMoves(s, e, k, edge);
    if s.at[e.t].next == k {
      CountAppend(s.heard[k], s.at[e.t].edge, edge);
    }
  }

  lemma OthersInform(s: State, e: Event, k: nat, edge: Edge)
    requires Enabled(s, e) && Bounded(s) && k < |s.heard| && Informed(s, k, edge)
    requires !Commits(s, e) && !e.Notify?
    ensures Bounded(Step(s, e)) && Informed(Step(s, e), k, edge)
  {
    StepKeepsBounded(s, e);
    PendingMoves(s, e, k, edge);
  }

  lemma StepKeepsInformed(s: State, e: Event, k: nat, edge: Edge)
    requires Enabled(s, e) && Bounded(s) && k < |s.heard| && Informed(s, k, edge)
    ensures Bounded(Step(s, e)) && Informed(Step(s, e), k, edge)
  {
    if Commits(s, e) {
      CommitInforms(s, e, k, edge);
    } else if e.Notify? {
      NotifyInforms(s, e, k, edge);
    } else {
      OthersInform(s, e, k, edge);
    }
  }

  lemma NewListenerInformed(s: State, e: Event, edge: Edge)
    requires Enabled(s, e) && Bounded(s) && e.AddListener?
    ensures Bounded(Step(s, e)) && Informed(Step(s, e), |s.heard|, edge)
  {
    StepKeepsBounded(s, e);
    SumZero(Step(s, e).at, Owing(|s.heard|, edge));
  }

  /** `Bounded`, and `Informed` if there is a listener `k` already. */
  ghost predicate Keeps(s: State, k: nat, edge: Edge) {
    Bounded(s) && (k < |s.heard| ==> Informed(s, k, edge))
  }

  lemma StepKeeps(s: State, e: Event, k: nat, edge: Edge)
    requires Enabled(s, e) && Keeps(s, k, edge)
    ensures Keeps(Step(s, e), k, edge)
  {
    StepKeepsBounded(s, e);
    if k < |s.heard| {
      StepKeepsInformed(s, e, k, edge);
    } else if e.AddListener? {
      NewListenerInformed(s, e, edge);
    }
  }

  lemma {:induction false} ReachableInformed(threads: nat, events: seq<Event>, k: nat, edge: Edge)
    requires Exec(threads, events).Some?
    ensures Keeps(Exec(threads, events).value, k, edge)
  {
    if events == [] {
    } else {
      ReachableInformed(threads, DropLast(events), k, edge);
      StepKeeps(Exec(threads, DropLast(events)).value, Last(events), k, edge);
    }
  }

  const END_OF_CALLER_TURN := Edge(Listening, Thinking)

  /**
   * A listener that flushes the transcript on each LISTENING to THINKING event does so
   * exactly once per such edge, under every interleaving, once all are told.
   */
  lemma OneFlushPerTurn(threads: nat, events: seq<Event>, k: nat)
    requires Exec(threads, events).Some?
    requires var s := Exec(threads, events).value;
      k < |s.heard| && forall t :: 0 <= t < |s.at| ==> !s.at[t].Notifying?
    ensures var s := Exec(threads, events).value;
      && k < |s.joined| && s.joined[k] <= |s.edges|
      && CountOf(s.heard[k], END_OF_CALLER_TURN) == CountOf(s.edges[s.joined[k]..], END_OF_CALLER_TURN)
  {
    ReachableInformed(threads, events, k, END_OF_CALLER_TURN);
    SumZero(Exec(threads, events).value.at, Owing(k, END_OF_CALLER_TURN));
  }

  // What each operation does when nothing comes in between, apart from telling the listeners.

  lemma TransitionInSteps(s: State, t: nat, target: TurnState)
    requires t < |s.at| && s.at[t] == Outside
    ensures Enabled(s, Request(t, target)) && Enabled(Step(s, Request(t, target)), Commit(t))
    ensures Committed(s, Step(Step(s, Request(t, target)), Commit(t)), t, target)
  {
    var asked := Step(s, Request(t, target));
    assert asked == s.(at := s.at[t := Committing(target)]);
    assert Step(asked, Commit(t)).at[t := Outside] == s.at;
  }

  /** The state after a commit: an allowed edge is taken and owed to every listener, any other is not. */
  ghost predicate Committed(s: State, s': State, t: nat, target: TurnState)
    requires t < |s.at|
  {
    if Allowed(s.current, target) then
      && s'.current == target && s'.edges == s.edges + [Edge(s.current, target)]
      && s'.heard == s.heard && s'.joined == s.joined
      && s'.at == s.at[t := if s.heard == [] then Outside else Notifying(Edge(s.current, target), 0, |s.heard|)]
    else
      s' == s
  }

  /** The end of playback gives the turn back to the caller, but only while the agent speaks. */
  lemma AudioCompleteInSteps(s: State, t: nat)
    requires t < |s.at| && s.at[t] == Outside
    ensures Enabled(s, AudioComplete(t))
    ensures s.current != Speaking ==> Step(s, AudioComplete(t)) == s
    ensures s.current == Speaking ==>
      && Enabled(Step(s, AudioComplete(t)), Commit(t))
      && Committed(s, Step(Step(s, AudioComplete(t)), Commit(t)), t, Listening)
  {
    assert s.at[t := Outside] == s.at;
    assert Step(s, AudioComplete(t)).at == s.at[t := if s.current == Speaking then Committing(Listening) else Outside];
  }

  /** So does caller speech that is long enough, and nothing shorter. */
  lemma SttInputInSteps(s: State, t: nat, aboveThreshold: bool)
    requires t < |s.at| && s.at[t] == Outside
    ensures Enabled(s, SttInput(t, aboveThreshold))
    ensures s.current != Speaking || !aboveThreshold ==> Step(s, SttInput(t, aboveThreshold)) == s
    ensures s.current == Speaking && aboveThreshold ==>
      && Enabled(Step(s, SttInput(t, aboveThreshold)), Commit(t))
      && Committed(s, Step(Step(s, SttInput(t, aboveThreshold)), Commit(t)), t, Listening)
  {
    assert s.at[t := Outside] == s.at;
    var asked := Step(s, SttInput(t, aboveThreshold));
    assert asked.at == s.at[t := if s.current == Speaking && aboveThreshold then Committing(Listening) else Outside];
  }
}
