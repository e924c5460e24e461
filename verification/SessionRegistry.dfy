/**
 * The session registry of pkg/pipeline/registry.go under any interleaving of callers. Each
 * operation on the concurrent map, each update of the counter, each start and each stop of
 * an orchestrator is one step. CloseAll is a caller that runs Remove for keys it saw.
 */
module SessionRegistry {
  import opened Base
  import opened Counting

  type Call = string

  /**
   * The program points of GetOrCreate and Remove. `epoch` is the number of removals of the
   * call id that preceded the map operation which decided the answer.
   */
  datatype Point =
    | Idle
    | Looking(call: Call)
    | Building(call: Call)
    | Storing(call: Call, sess: nat)
    | StoppingLoser(call: Call, sess: nat, winner: nat, epoch: nat)
    | CountingUp(call: Call, sess: nat, epoch: nat)
    | Deleting(call: Call)
    | StoppingRemoved(call: Call, sess: nat)
    | CountingDown(call: Call)

  datatype Answer = Answer(call: Call, sess: nat, epoch: nat, created: bool)

  /**
   * callOf   the call id of every session whose orchestrator was started, by session number
   * removals how often each call id has been removed
   * owner    which session was stored for a call id after a given number of removals
   */
  datatype State = State(
    sessions: map<Call, nat>,
    count: int,
    at: seq<Point>,
    stopped: seq<nat>,
    answers: seq<Answer>,
    callOf: seq<Call>,
    removals: map<Call, nat>,
    owner: map<(Call, nat), nat>)

  datatype Event =
    | BeginGet(t: nat, call: Call)
    | Load(t: nat)
    | Build(t: nat, ok: bool)
    | LoadOrStore(t: nat)
    | StopLoser(t: nat)
    | CountUp(t: nat)
    | BeginRemove(t: nat, call: Call)
    | LoadAndDelete(t: nat)
    | StopRemoved(t: nat)
    | CountDown(t: nat)

  function Init(threads: nat): State {
    State(map[], 0, seq(threads, _ => Idle), [], [], [], map[], map[])
  }

  function Removals(s: State, c: Call): nat {
    if c in s.removals then s.removals[c] else 0
  }

  predicate Enabled(s: State, e: Event) {
    e.t < |s.at| &&
    match e
    case BeginGet(t, _) => s.at[t].Idle?
    case Load(t) => s.at[t].Looking?
    case Build(t, _) => s.at[t].Building?
    case LoadOrStore(t) => s.at[t].Storing?
    case StopLoser(t) => s.at[t].StoppingLoser?
    case CountUp(t) => s.at[t].CountingUp?
    case BeginRemove(t, _) => s.at[t].Idle?
    case LoadAndDelete(t) => s.at[t].Deleting?
    case StopRemoved(t) => s.at[t].StoppingRemoved?
    case CountDown(t) => s.at[t].CountingDown?
  }

  predicate Stores(s: State, e: Event)
    requires Enabled(s, e)
  {
    e.LoadOrStore? && s.at[e.t].call !in s.sessions
  }

  predicate Deletes(s: State, e: Event)
    requires Enabled(s, e)
  {
    e.LoadAndDelete? && s.at[e.t].call in s.sessions
  }

  function SessionsAfter(s: State, e: Event): map<Call, nat>
    requires Enabled(s, e)
  {
    if Stores(s, e) then s.sessions[s.at[e.t].call := s.at[e.t].sess]
    else if Deletes(s, e) then s.sessions - {s.at[e.t].call}
    else s.sessions
  }

  function PointAfter(s: State, e: Event): Point
    requires Enabled(s, e)
  {
    var p := s.at[e.t];
    match e
    case BeginGet(_, call) => if call == "" then Idle else Looking(call)
    case Load(_) => if p.call in s.sessions then Idle else Building(p.call)
    case Build(_, ok) => if ok then Storing(p.call, |s.callOf|) else Idle
    case LoadOrStore(_) =>
      if p.call in s.sessions then StoppingLoser(p.call, p.sess, s.sessions[p.call], Removals(s, p.call))
      else CountingUp(p.call, p.sess, Removals(s, p.call))
    case StopLoser(_) => Idle
    case CountUp(_) => Idle
    case BeginRemove(_, call) => Deleting(call)
    case LoadAndDelete(_) => if p.call in s.sessions then StoppingRemoved(p.call, s.sessions[p.call]) else Idle
    case StopRemoved(_) => CountingDown(p.call)
    case CountDown(_) => Idle
  }

  /** The session that a call of GetOrCreate returns in this step, if it returns one. */
  function AnswerIn(s: State, e: Event): Option<Answer>
    requires Enabled(s, e)
  {
    var p := s.at[e.t];
    match e
    case Load(_) =>
      if p.call in s.sessions then Some(Answer(p.call, s.sessions[p.call], Removals(s, p.call), false)) else None
    case StopLoser(_) => Some(Answer(p.call, p.winner, p.epoch, false))
    case CountUp(_) => Some(Answer(p.call, p.sess, p.epoch, true))
    case _ => None
  }

  function Step(s: State, e: Event): State
    requires Enabled(s, e)
  {
    var p := s.at[e.t];
    State(
      SessionsAfter(s, e),
      if e.CountUp? then s.count + 1 else if e.CountDown? then s.count - 1 else s.count,
      s.at[e.t := PointAfter(s, e)],
      if e.StopLoser? || e.StopRemoved? then s.stopped + [p.sess] else s.stopped,
      s.answers + AsSeq(AnswerIn(s, e)),
      if e.Build? && e.ok then s.callOf + [p.call] else s.callOf,
      if Deletes(s, e) then s.removals[p.call := Removals(s, p.call) + 1] else s.removals,
      if Stores(s, e) then s.owner[(p.call, Removals(s, p.call)) := p.sess] else s.owner)
  }

  function Exec(threads: nat, events: seq<Event>): Option<State> {
    if events == [] then Some(Init(threads))
    else
      var before := Exec(threads, DropLast(events));
      if before.Some? && Enabled(before.value, Last(events)) then Some(Step(before.value, Last(events))) else None
  }

  // Who is responsible for stopping a started orchestrator.

  predicate HoldsSession(p: Point, sess: nat) {
    (p.Storing? || p.StoppingLoser? || p.StoppingRemoved?) && p.sess == sess
  }

  function Holding(sess: nat): Point -> nat {
    p => if HoldsSession(p, sess) then 1 else 0
  }

  /** How many callers have the session in hand. */
  function Holders(at: seq<Point>, sess: nat): nat {
    Sum(at, Holding(sess))
  }

  predicate InMap(s: State, sess: nat) {
    sess < |s.callOf| && s.callOf[sess] in s.sessions && s.sessions[s.callOf[sess]] == sess
  }

  /** The places of a session: a creator's or a stopper's hand, the map, the stopped ones. */
  function Places(s: State, sess: nat): nat {
    Holders(s.at, sess) + (if InMap(s, sess) then 1 else 0) + CountOf(s.stopped, sess)
  }

  /** A session number mentioned at a program point belongs to that point's call id. */
  ghost predicate PointOk(s: State, p: Point) {
    (p.Storing? || p.StoppingLoser? || p.StoppingRemoved? || p.CountingUp?) ==>
      p.sess < |s.callOf| && s.callOf[p.sess] == p.call
  }

  ghost predicate NamesOk(s: State) {
    && (forall c :: c in s.sessions ==> s.sessions[c] < |s.callOf| && s.callOf[s.sessions[c]] == c)
    && (forall t :: 0 <= t < |s.at| ==> PointOk(s, s.at[t]))
  }

  lemma StepKeepsNames(s: State, e: Event)
    requires Enabled(s, e) && NamesOk(s)
    ensures NamesOk(Step(s, e))
  {
    assert PointOk(s, s.at[e.t]);
    var s' := Step(s, e);
    forall t | 0 <= t < |s'.at|
      ensures PointOk(s', s'.at[t])
    {
      assert PointOk(s, s.at[t]);
    }
  }

  lemma MapMoves(s: State, e: Event, sess: nat)
    requires Enabled(s, e) && NamesOk(s)
    ensures InMap(Step(s, e), sess) <==>
      || (Stores(s, e) && s.at[e.t].sess == sess)
      || (InMap(s, sess) && !(Deletes(s, e) && s.sessions[s.at[e.t].call] == sess))
  {
    assert PointOk(s, s.at[e.t]);
  }

  lemma StoppedMoves(s: State, e: Event, sess: nat)
    requires Enabled(s, e)
    ensures CountOf(Step(s, e).stopped, sess)
         == CountOf(s.stopped, sess) + (if (e.StopLoser? || e.StopRemoved?) && s.at[e.t].sess == sess then 1 else 0)
  {
    if e.StopLoser? || e.StopRemoved? {
      CountAppend(s.stopped, s.at[e.t].sess, sess);
    }
  }

  lemma HandsMove(s: State, e: Event, sess: nat)
    requires Enabled(s, e)
    ensures Holders(Step(s, e).at, sess)
         == Holders(s.at, sess) - (if HoldsSession(s.at[e.t], sess) then 1 else 0)
          + (if HoldsSession(PointAfter(s, e), sess) then 1 else 0)
  {
    SumUpdate(s.at, e.t, PointAfter(s, e), Holding(sess));
  }

  /** A step hands a session from one place to the next; only a successful start makes a new one. */
  lemma StepMovesSession(s: State, e: Event, sess: nat)
    requires Enabled(s, e) && NamesOk(s)
    ensures Places(Step(s, e), sess)
         == Places(s, sess) + (if e.Build? && e.ok && sess == |s.callOf| then 1 else 0)
  {
    assert PointOk(s, s.at[e.t]);
    HandsMove(s, e, sess);
    MapMoves(s, e, sess);
    StoppedMoves(s, e, sess);
  }

  /**
   * Under every interleaving a started orchestrator is with exactly one creator, in the
   * map, with exactly one stopper, or stopped; so it is stopped at most once.
   */
  lemma {:induction false} EachSessionInOnePlace(threads: nat, events: seq<Event>, sess: nat)
    requires Exec(threads, events).Some?
    ensures var s := Exec(threads, events).value;
      NamesOk(s) && Places(s, sess) == if sess < |s.callOf| then 1 else 0
  {
    if events == [] {
      SumZero(Init(threads).at, Holding(sess));
    } else {
      EachSessionInOnePlace(threads, DropLast(events), sess);
      var s := Exec(threads, DropLast(events)).value;
      StepMovesSession(s, Last(events), sess);
      StepKeepsNames(s, Last(events));
    }
  }

  // The counter.

  function StoredNotCounted(p: Point): nat {
    if p.CountingUp? then 1 else 0
  }

  function DeletedNotCounted(p: Point): nat {
    if p.StoppingRemoved? || p.CountingDown? then 1 else 0
  }

  /** Threads that still owe the counter an increment, less those that owe a decrement. */
  function Owed(at: seq<Point>): int {
    Sum(at, StoredNotCounted) - Sum(at, DeletedNotCounted)
  }

  predicate OwesNothing(p: Point) {
    StoredNotCounted(p) == 0 && DeletedNotCounted(p) == 0
  }

  lemma NobodyOwes(at: seq<Point>)
    requires forall t :: 0 <= t < |at| ==> OwesNothing(at[t])
    ensures Owed(at) == 0
  {
    assert forall t :: 0 <= t < |at| ==> OwesNothing(at[t]);
    SumZero(at, StoredNotCounted);
    SumZero(at, DeletedNotCounted);
  }

  lemma SizeAfter(s: State, e: Event)
    requires Enabled(s, e)
    ensures |SessionsAfter(s, e)| == |s.sessions| + (if Stores(s, e) then 1 else if Deletes(s, e) then -1 else 0)
  {
    var c := if Stores(s, e) || Deletes(s, e) then s.at[e.t].call else "";
    if Stores(s, e) {
      assert SessionsAfter(s, e).Keys == s.sessions.Keys + {c};
    } else if Deletes(s, e) {
      assert SessionsAfter(s, e).Keys == s.sessions.Keys - {c};
      assert |s.sessions.Keys - {c}| == |s.sessions.Keys| - 1;
    }
  }

  lemma StepKeepsCount(s: State, e: Event)
    requires Enabled(s, e) && s.count + Owed(s.at) == |s.sessions|
    ensures Step(s, e).count + Owed(Step(s, e).at) == |Step(s, e).sessions|
  {
    SumUpdate(s.at, e.t, PointAfter(s, e), StoredNotCounted);
    SumUpdate(s.at, e.t, PointAfter(s, e), DeletedNotCounted);
    SizeAfter(s, e);
  }

  /** The counter is the size of the map up to the threads in between, and equal to it at rest. */
  lemma {:induction false} CountTracksMap(threads: nat, events: seq<Event>)
    requires Exec(threads, events).Some?
    ensures var s := Exec(threads, events).value;
      && s.count + Owed(s.at) == |s.sessions|
      && ((forall t :: 0 <= t < |s.at| ==> OwesNothing(s.at[t])) ==> s.count == |s.sessions|)
  {
    if events == [] {
      NobodyOwes(Init(threads).at);
    } else {
      CountTracksMap(threads, DropLast(events));
      StepKeepsCount(Exec(threads, DropLast(events)).value, Last(events));
    }
    var s := Exec(threads, events).value;
    if forall t :: 0 <= t < |s.at| ==> OwesNothing(s.at[t]) {
      NobodyOwes(s.at);
    }
  }

  // Agreement of the answers.

  ghost predicate Owns(s: State, c: Call, epoch: nat, sess: nat) {
    (c, epoch) in s.owner && s.owner[(c, epoch)] == sess
  }

  ghost predicate PointAgrees(s: State, p: Point) {
    && (p.StoppingLoser? ==> Owns(s, p.call, p.epoch, p.winner))
    && (p.CountingUp? ==> Owns(s, p.call, p.epoch, p.sess))
  }

  /** Nothing is recorded for a later epoch, nor for this one while the map has no entry. */
  ghost predicate OwnerOk(s: State, c: Call, epoch: nat)
    requires (c, epoch) in s.owner
  {
    epoch <= Removals(s, c) && (epoch == Removals(s, c) ==> c in s.sessions)
  }

  ghost predicate Agrees(s: State) {
    && (forall c :: c in s.sessions ==> Owns(s, c, Removals(s, c), s.sessions[c]))
    && (forall k :: k in s.owner ==> OwnerOk(s, k.0, k.1))
    && (forall t :: 0 <= t < |s.at| ==> PointAgrees(s, s.at[t]))
    && (forall i :: 0 <= i < |s.answers| ==> Owns(s, s.answers[i].call, s.answers[i].epoch, s.answers[i].sess))
  }

  lemma OwnerGrows(s: State, e: Event, c: Call, epoch: nat, sess: nat)
    requires Enabled(s, e) && Agrees(s) && Owns(s, c, epoch, sess)
    ensures Owns(Step(s, e), c, epoch, sess)
  {
    assert OwnerOk(s, c, epoch);
  }

  lemma StepKeepsMapAgreement(s: State, e: Event)
    requires Enabled(s, e) && Agrees(s)
    ensures var s' := Step(s, e);
      && (forall c :: c in s'.sessions ==> Owns(s', c, Removals(s', c), s'.sessions[c]))
      && (forall k :: k in s'.owner ==> OwnerOk(s', k.0, k.1))
  {
    var s' := Step(s, e);
    forall c | c in s'.sessions
      ensures Owns(s', c, Removals(s', c), s'.sessions[c])
    {
      if c in s.sessions {
        OwnerGrows(s, e, c, Removals(s, c), s.sessions[c]);
      }
    }
    forall k | k in s'.owner
      ensures OwnerOk(s', k.0, k.1)
    {
      if k in s.owner {
        assert OwnerOk(s, k.0, k.1);
      }
    }
  }

  lemma StepKeepsPointAgreement(s: State, e: Event, t: nat)
    requires Enabled(s, e) && Agrees(s) && t < |s.at|
    ensures PointAgrees(Step(s, e), Step(s, e).at[t])
  {
    var p := s.at[t];
    assert PointAgrees(s, p);
    if t != e.t {
      if p.StoppingLoser? {
        OwnerGrows(s, e, p.call, p.epoch, p.winner);
      } else if p.CountingUp? {
        OwnerGrows(s, e, p.call, p.epoch, p.sess);
      }
    } else if e.LoadOrStore? && p.call in s.sessions {
      OwnerGrows(s, e, p.call, Removals(s, p.call), s.sessions[p.call]);
    }
  }

  lemma AnswerAgrees(s: State, e: Event)
    requires Enabled(s, e) && Agrees(s) && AnswerIn(s, e).Some?
    ensures var a := AnswerIn(s, e).value; Owns(s, a.call, a.epoch, a.sess)
  {
    assert PointAgrees(s, s.at[e.t]);
  }

  lemma StepKeepsAgreement(s: State, e: Event)
    requires Enabled(s, e) && Agrees(s)
    ensures Agrees(Step(s, e))
  {
    var s' := Step(s, e);
    StepKeepsMapAgreement(s, e);
    forall t | 0 <= t < |s'.at|
      ensures PointAgrees(s', s'.at[t])
    {
      StepKeepsPointAgreement(s, e, t);
    }
    forall i | 0 <= i < |s'.answers|
      ensures Owns(s', s'.answers[i].call, s'.answers[i].epoch, s'.answers[i].sess)
    {
      var a := s'.answers[i];
      if i == |s.answers| {
        AnswerAgrees(s, e);
      }
      OwnerGrows(s, e, a.call, a.epoch, a.sess);
    }
  }

  lemma {:induction false} ReachableAgrees(threads: nat, events: seq<Event>)
    requires Exec(threads, events).Some?
    ensures Agrees(Exec(threads, events).value)
  {
    if events == [] {
    } else {
      ReachableAgrees(threads, DropLast(events));
      StepKeepsAgreement(Exec(threads, DropLast(events)).value, Last(events));
    }
  }

  /**
   * Between two removals of a call id all callers of GetOrCreate that get a session get
   * the same one, no matter how many of them built an orchestrator of their own.
   */
  lemma OneSessionPerEpoch(threads: nat, events: seq<Event>, i: nat, j: nat)
    requires Exec(threads, events).Some?
    requires var answers := Exec(threads, events).value.answers;
      i < |answers| && j < |answers| && answers[i].call == answers[j].call && answers[i].epoch == answers[j].epoch
    ensures var answers := Exec(threads, events).value.answers; answers[i].sess == answers[j].sess
  {
    ReachableAgrees(threads, events);
  }

  // What each operation does when nothing comes in between.

  /** Without a call id nothing happens; a session that is in the map is returned as it is. */
  lemma FoundInSteps(s: State, t: nat, call: Call)
    requires t < |s.at| && s.at[t] == Idle && (call == "" || call in s.sessions)
    ensures Enabled(s, BeginGet(t, call))
    ensures call == "" ==> Step(s, BeginGet(t, call)) == s
    ensures call != "" ==>
      var begun := Step(s, BeginGet(t, call));
      && Enabled(begun, Load(t))
      && Step(begun, Load(t)) == s.(answers := s.answers + [Answer(call, s.sessions[call], Removals(s, call), false)])
  {
    var begun := Step(s, BeginGet(t, call));
    assert begun.at[t := Idle] == s.at && s.answers + [] == s.answers;
  }

  /** The first three steps of a caller that finds no session: it builds and starts one of its own. */
  lemma BuildInSteps(s: State, t: nat, call: Call, ok: bool)
    requires t < |s.at| && s.at[t] == Idle && call != "" && call !in s.sessions
    ensures Enabled(s, BeginGet(t, call)) && Enabled(Step(s, BeginGet(t, call)), Load(t))
    ensures var looked := Step(Step(s, BeginGet(t, call)), Load(t));
      && Enabled(looked, Build(t, ok))
      && Step(looked, Build(t, ok))
         == if ok then s.(at := s.at[t := Storing(call, |s.callOf|)], callOf := s.callOf + [call]) else s
  {
    var looked := Step(Step(s, BeginGet(t, call)), Load(t));
    assert looked == s.(at := s.at[t := Building(call)]);
    assert looked.at[t := Idle] == s.at && s.answers + [] == s.answers;
  }

  /**
   * The rest: the first to store wins, counts and returns its own; any other stops its own and
   * returns the stored one.
   */
  lemma StoreInSteps(s: State, t: nat, call: Call, sess: nat)
    requires t < |s.at| && s.at[t] == Storing(call, sess)
    ensures Enabled(s, LoadOrStore(t))
    ensures call !in s.sessions ==>
      var stored := Step(s, LoadOrStore(t));
      && Enabled(stored, CountUp(t))
      && var done := Step(stored, CountUp(t));
         && done.sessions == s.sessions[call := sess] && done.count == s.count + 1 && done.stopped == s.stopped
         && done.answers == s.answers + [Answer(call, sess, Removals(s, call), true)] && done.at == s.at[t := Idle]
    ensures call in s.sessions ==>
      var lost := Step(s, LoadOrStore(t));
      && Enabled(lost, StopLoser(t))
      && Step(lost, StopLoser(t))
         == s.(at := s.at[t := Idle], stopped := s.stopped + [sess],
               answers := s.answers + [Answer(call, s.sessions[call], Removals(s, call), false)])
  {
    var next := Step(s, LoadOrStore(t));
    assert s.answers + [] == s.answers;
    assert call in s.sessions ==> next.at[t := Idle] == s.at[t := Idle];
  }

  /** A removal takes the session out of the map, stops it and counts down; without one nothing happens. */
  lemma RemoveInSteps(s: State, t: nat, call: Call)
    requires t < |s.at| && s.at[t] == Idle
    ensures Enabled(s, BeginRemove(t, call)) && Enabled(Step(s, BeginRemove(t, call)), LoadAndDelete(t))
    ensures var deleted := Step(Step(s, BeginRemove(t, call)), LoadAndDelete(t));
      if call !in s.sessions then deleted == s
      else
        && deleted.sessions == s.sessions - {call} && Enabled(deleted, StopRemoved(t))
        && Enabled(Step(deleted, StopRemoved(t)), CountDown(t))
        && var done := Step(Step(deleted, StopRemoved(t)), CountDown(t));
           && done.sessions == s.sessions - {call} && done.stopped == s.stopped + [s.sessions[call]]
           && done.count == s.count - 1 && done.answers == s.answers && done.at == s.at
           && Removals(done, call) == Removals(s, call) + 1
  {
    var begun := Step(s, BeginRemove(t, call));
    assert s.answers + [] == s.answers;
    assert begun == s.(at := s.at[t := Deleting(call)]);
    var deleted := Step(begun, LoadAndDelete(t));
    assert deleted.at[t := Idle] == s.at;
  }

  /** How often a session was removed for this call id in a run. */
  function DeletionsIn(threads: nat, events: seq<Event>, c: Call): nat {
    if events == [] || Exec(threads, DropLast(events)).None? then 0
    else
      var s, e := Exec(threads, DropLast(events)).value, Last(events);
      DeletionsIn(threads, DropLast(events), c)
      + (if e.LoadAndDelete? && e.t < |s.at| && s.at[e.t] == Deleting(c) && c in s.sessions then 1 else 0)
  }

  /** The epoch of a call id is the number of its removals. */
  lemma {:induction false} EpochsCountRemovals(threads: nat, events: seq<Event>, c: Call)
    requires Exec(threads, events).Some?
    ensures Removals(Exec(threads, events).value, c) == DeletionsIn(threads, events, c)
  {
    if events == [] {
    } else {
      EpochsCountRemovals(threads, DropLast(events), c);
    }
  }
}
