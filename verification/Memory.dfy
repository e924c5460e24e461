/**
 * The per-conversation message histories of the LLM processor. Every append prunes, so at
 * any time a history is what pruning the complete log of that conversation would leave.
 */
module Memory {
  import opened Base
  import opened Tokens
  import opened Pruning

  type Scope = string
  type Agent = string

  function TextMessage(role: Role, text: string): Message {
    Message(role, Some(text), [])
  }

  lemma PruneSystemOnly(ms: History, lim: Limits)
    requires NonSystemPart(ms) == []
    ensures Prune(ms, lim) == ms
  {
  }

  lemma PruneIdempotent(ms: History, lim: Limits)
    ensures Prune(Prune(ms, lim), lim) == Prune(ms, lim)
  {
    PruneAppend(ms, [], lim);
    assert ms + [] == ms && Prune(ms, lim) + [] == Prune(ms, lim);
  }

  /** Histories that prune alike still do after the same messages were appended to both. */
  lemma PruneCongruence(a: History, b: History, more: History, lim: Limits)
    requires Prune(a, lim) == Prune(b, lim)
    ensures Prune(a + more, lim) == Prune(b + more, lim)
  {
    PruneAppend(a, more, lim);
    PruneAppend(b, more, lim);
  }

  /**
   * The two tables speak of the same conversations, and except for one of them every history
   * is the pruned log, unless a pop has taken it astray.
   */
  ghost predicate FaithfulBut(
    messages: map<Scope, History>, log: map<Scope, History>, astray: set<Scope>, lim: Limits, scope: Scope) {
    && messages.Keys == log.Keys
    && (forall other :: other in messages && other != scope && other !in astray ==>
          messages[other] == Prune(log[other], lim))
  }

  ghost predicate Faithful(
    messages: map<Scope, History>, log: map<Scope, History>, astray: set<Scope>, lim: Limits) {
    && messages.Keys == log.Keys
    && (forall scope :: scope in messages && scope !in astray ==> messages[scope] == Prune(log[scope], lim))
  }

  lemma UpdatedIsFaithful(messages: map<Scope, History>, log: map<Scope, History>, astray: set<Scope>, lim: Limits,
                          scope: Scope, history: History, all: History)
    requires FaithfulBut(messages, log, astray, lim, scope)
    requires scope in astray || history == Prune(all, lim)
    ensures Faithful(messages[scope := history], log[scope := all], astray, lim)
  {
  }

  lemma Overwritten(m: map<Scope, History>, scope: Scope, a: History, b: History)
    ensures m[scope := a][scope := b] == m[scope := b]
  {
  }

  class ConversationMemory {
    const system: string
    const agents: map<Agent, string>
    const limits: Limits
    var messages: map<Scope, History>
    var lastInjected: map<Scope, Agent>
    /** Everything appended to each conversation and not popped again, never pruned. */
    ghost var log: map<Scope, History>
    /** Conversations in which a pop did not undo the append before it. */
    ghost var astray: set<Scope>

    ghost predicate Valid()
      reads this
    {
      Faithful(messages, log, astray, limits)
    }

    /** The history of one conversation has not been pruned yet, but prunes like its log. */
    ghost predicate Ready(scope: Scope)
      reads this
    {
      && FaithfulBut(messages, log, astray, limits, scope) && scope in messages
      && (scope !in astray ==> Prune(messages[scope], limits) == Prune(log[scope], limits))
    }

    constructor (system: string, agents: map<Agent, string>, maxHistory: int, maxTokens: int)
      ensures Valid() && messages == map[] && lastInjected == map[] && astray == {}
      ensures this.system == system && this.agents == agents
      ensures limits == Limits(if maxHistory < 0 then 0 else maxHistory, if maxTokens < 0 then 0 else maxTokens)
    {
      this.system := system;
      this.agents := agents;
      limits := Limits(if maxHistory < 0 then 0 else maxHistory, if maxTokens < 0 then 0 else maxTokens);
      messages := map[];
      lastInjected := map[];
      log := map[];
      astray := {};
    }

    /** How a conversation begins. */
    function Opening(): History {
      if system != "" then [TextMessage(System, system)] else []
    }

    function HistoryOf(scope: Scope): History
      reads this
    {
      if scope in messages then messages[scope] else Opening()
    }

    ghost function LogOf(scope: Scope): History
      reads this
    {
      if scope in log then log[scope] else Opening()
    }

    /** The agent is known and has a system text. */
    predicate HasText(agent: Agent) {
      agent != "" && agent in agents && agents[agent] != ""
    }

    /** The system message that announces an agent which has just taken over. */
    function Announcement(agent: Agent, scope: Scope): History
      reads this
    {
      if agent == "" || (scope in lastInjected && lastInjected[scope] == agent) then []
      else if agent !in agents || agents[agent] == "" then []
      else [TextMessage(System, agents[agent])]
    }

    /** Which agent was announced last in each conversation, once `agent` is. */
    function InjectedWith(agent: Agent, scope: Scope): map<Scope, Agent>
      reads this
    {
      if Announcement(agent, scope) != [] then lastInjected[scope := agent] else lastInjected
    }

    method EnsureMessages(scope: Scope)
      requires Valid()
      modifies this`messages, this`log
      ensures Valid()
      ensures scope in messages && scope in log
      ensures messages == old(messages)[scope := old(HistoryOf(scope))]
      ensures log == old(log)[scope := old(LogOf(scope))]
      ensures scope in old(messages) ==> messages[scope] == old(messages)[scope]
      ensures scope !in old(messages) ==>
        messages[scope] == if system != "" then [Message(System, Some(system), [])] else []
    {
      if scope !in messages {
        PruneSystemOnly(Opening(), limits);
        UpdatedIsFaithful(messages, log, astray, limits, scope, Opening(), Opening());
        messages := messages[scope := Opening()];
        log := log[scope := Opening()];
      } else {
        assert messages == messages[scope := messages[scope]] && log == log[scope := log[scope]];
      }
    }

    /** Appends the agent's system message, if it is due, without pruning; it is not due again. */
    method EnsureAgent(agent: Agent, scope: Scope)
      requires Valid() && scope in messages
      modifies this
      ensures Ready(scope) && astray == old(astray)
      ensures messages == old(messages)[scope := old(messages)[scope] + old(Announcement(agent, scope))]
      ensures log == old(log)[scope := old(log)[scope] + old(Announcement(agent, scope))]
      ensures HasText(agent) && !(scope in old(lastInjected) && old(lastInjected)[scope] == agent) ==>
        messages[scope] == old(messages)[scope] + [Message(System, Some(agents[agent]), [])]
      ensures !HasText(agent) || (scope in old(lastInjected) && old(lastInjected)[scope] == agent) ==>
        messages[scope] == old(messages)[scope] && lastInjected == old(lastInjected)
      ensures lastInjected == old(InjectedWith(agent, scope)) && Announcement(agent, scope) == []
      ensures HasText(agent) ==> scope in lastInjected && lastInjected[scope] == agent
    {
      ghost var note := Announcement(agent, scope);
      if scope !in astray {
        PruneIdempotent(log[scope], limits);
        PruneCongruence(messages[scope], log[scope], note, limits);
      }
      assert messages == messages[scope := messages[scope]] && messages[scope] + [] == messages[scope];
      assert log == log[scope := log[scope]] && log[scope] + [] == log[scope];
      if agent == "" || (scope in lastInjected && lastInjected[scope] == agent) {
        return;
      }
      if agent !in agents || agents[agent] == "" {
        return;
      }
      messages := messages[scope := messages[scope] + [TextMessage(System, agents[agent])]];
      log := log[scope := log[scope] + note];
      lastInjected := lastInjected[scope := agent];
    }

    /** Appends to one conversation and prunes it. */
    method Append(scope: Scope, more: History)
      requires Ready(scope)
      modifies this`messages, this`log
      ensures Valid()
      ensures log == old(log)[scope := old(log)[scope] + more]
      ensures messages == old(messages)[scope := Prune(old(messages)[scope] + more, limits)]
    {
      var pruned := PruneMessages(messages[scope] + more, limits);
      if scope !in astray {
        PruneCongruence(messages[scope], log[scope], more, limits);
      }
      UpdatedIsFaithful(messages, log, astray, limits, scope, pruned, log[scope] + more);
      messages := messages[scope := pruned];
      log := log[scope := log[scope] + more];
    }

    method Prepare(agent: Agent, scope: Scope)
      requires Valid()
      modifies this
      ensures Ready(scope) && astray == old(astray)
      ensures messages == old(messages)[scope := old(HistoryOf(scope)) + old(Announcement(agent, scope))]
      ensures log == old(log)[scope := old(LogOf(scope)) + old(Announcement(agent, scope))]
      ensures lastInjected == old(InjectedWith(agent, scope)) && Announcement(agent, scope) == []
      ensures HasText(agent) ==> scope in lastInjected && lastInjected[scope] == agent
    {
      ghost var h, l, note := HistoryOf(scope), LogOf(scope), Announcement(agent, scope);
      Overwritten(messages, scope, h, h + note);
      Overwritten(log, scope, l, l + note);
      EnsureMessages(scope);
      EnsureAgent(agent, scope);
    }

    /** Adds what the user said and returns the context for the model. */
    method ContextWithUser(user: Message, agent: Agent, scope: Scope) returns (context: History)
      requires Valid()
      modifies this
      ensures Valid() && astray == old(astray)
      ensures log == old(log)[scope := old(LogOf(scope)) + old(Announcement(agent, scope)) + [user]]
      ensures context == Prune(old(HistoryOf(scope)) + old(Announcement(agent, scope)) + [user], limits)
      ensures messages == old(messages)[scope := context]
      ensures lastInjected == old(InjectedWith(agent, scope)) && Announcement(agent, scope) == []
      ensures HasText(agent) ==> scope in lastInjected && lastInjected[scope] == agent
    {
      ghost var h := HistoryOf(scope) + Announcement(agent, scope);
      ghost var l := LogOf(scope) + Announcement(agent, scope);
      Overwritten(messages, scope, h, Prune(h + [user], limits));
      Overwritten(log, scope, l, l + [user]);
      Prepare(agent, scope);
      Append(scope, [user]);
      context := messages[scope];
    }

    method AppendPruned(scope: Scope, more: History)
      requires Valid()
      modifies this`messages, this`log
      ensures Valid()
      ensures log == old(log)[scope := old(LogOf(scope)) + more]
      ensures messages == old(messages)[scope := Prune(old(HistoryOf(scope)) + more, limits)]
    {
      ghost var h, l := HistoryOf(scope), LogOf(scope);
      Overwritten(messages, scope, h, Prune(h + more, limits));
      Overwritten(log, scope, l, l + more);
      EnsureMessages(scope);
      PruneIdempotent(log[scope], limits);
      Append(scope, more);
    }

    /** An assistant or system text; the empty text is not recorded. */
    method AppendText(role: Role, scope: Scope, text: string)
      requires Valid()
      modifies this`messages, this`log
      ensures Valid()
      ensures text == "" ==> log == old(log) && messages == old(messages)
      ensures text != "" ==>
        && log == old(log)[scope := old(LogOf(scope)) + [TextMessage(role, text)]]
        && messages == old(messages)[scope := Prune(old(HistoryOf(scope)) + [TextMessage(role, text)], limits)]
    {
      if text != "" {
        AppendPruned(scope, [TextMessage(role, text)]);
      }
    }

    /**
     * A tool result is recorded as the assistant's call followed by the tool's answer, after
     * a note to the model if the tool failed.
     */
    method ApplyToolResult(scope: Scope, failed: bool, note: string, callID: string, result: string)
      requires Valid()
      modifies this`messages, this`log
      ensures Valid()
      ensures var more := ToolMessages(failed, note, callID, result);
        && (more == [] ==> log == old(log) && messages == old(messages))
        && (more != [] ==>
          && log == old(log)[scope := old(LogOf(scope)) + more]
          && messages == old(messages)[scope := Prune(old(HistoryOf(scope)) + more, limits)])
      ensures var more := ToolMessages(failed, note, callID, result);
        && (failed && note != "" ==> more != [] && more[0] == Message(System, Some(note), []))
        && (callID != "" && result != "" ==>
          |more| >= 2 && more[|more| - 2..] == [Message(Assistant, None, []), Message(Tool, Some(result), [])])
        && |more| == (if failed && note != "" then 1 else 0) + (if callID != "" && result != "" then 2 else 0)
    {
      ghost var pair := ToolMessages(false, "", callID, result);
      if !failed || note == "" {
        assert ToolMessages(failed, note, callID, result) == pair;
      } else {
        AppendPruned(scope, [TextMessage(System, note)]);
        AppendTwice(old(messages), old(HistoryOf(scope)), scope, [TextMessage(System, note)], pair, limits);
        LogTwice(old(log), old(LogOf(scope)), scope, [TextMessage(System, note)], pair);
        assert ToolMessages(failed, note, callID, result) == [TextMessage(System, note)] + pair;
      }
      if callID != "" && result != "" {
        assert pair == [Message(Assistant, None, []), TextMessage(Tool, result)];
        AppendPruned(scope, [Message(Assistant, None, []), TextMessage(Tool, result)]);
      }
    }

    /**
     * Removes the last message after a failed model call. The conversation goes astray unless
     * that undoes the last append.
     */
    method PopLastMessage(scope: Scope)
      requires Valid()
      modifies this
      ensures Valid() && lastInjected == old(lastInjected)
      ensures messages == old(messages)[scope := Popped(old(HistoryOf(scope)))]
      ensures log == old(log)[scope := Popped(old(LogOf(scope)))]
      ensures astray == old(astray) + (if PopUndoes(old(LogOf(scope)), limits) then {} else {scope})
    {
      ghost var h, all := HistoryOf(scope), LogOf(scope);
      Overwritten(messages, scope, h, Popped(h));
      Overwritten(log, scope, all, Popped(all));
      EnsureMessages(scope);
      astray := astray + (if PopUndoes(all, limits) then {} else {scope});
      UpdatedIsFaithful(messages, log, astray, limits, scope, Popped(h), Popped(all));
      log := log[scope := Popped(all)];
      if messages[scope] != [] {
        messages := messages[scope := DropLast(messages[scope])];
      }
    }

    /** Forgets a call that has ended. */
    method ClearCall(streamID: string, callSID: string)
      requires Valid()
      modifies this
      ensures Valid()
      ensures var gone := (if streamID != "" then {"stream:" + streamID} else {})
                        + (if callSID != "" then {"call:" + callSID} else {});
        && messages == old(messages) - gone && log == old(log) - gone
        && lastInjected == old(lastInjected) - gone && astray == old(astray) - gone
    {
      var gone := (if streamID != "" then {"stream:" + streamID} else {})
                + (if callSID != "" then {"call:" + callSID} else {});
      messages := messages - gone;
      lastInjected := lastInjected - gone;
      log := log - gone;
      astray := astray - gone;
    }
  }

  function ToolMessages(failed: bool, note: string, callID: string, result: string): History {
    (if failed && note != "" then [TextMessage(System, note)] else [])
    + (if callID == "" || result == "" then [] else [Message(Assistant, None, []), TextMessage(Tool, result)])
  }

  /** Pruning after each of two appends is the same as pruning after both. */
  lemma AppendTwice(messages: map<Scope, History>, before: History, scope: Scope, a: History, b: History, lim: Limits)
    ensures messages[scope := Prune(before + a, lim)][scope := Prune(Prune(before + a, lim) + b, lim)]
         == messages[scope := Prune(before + (a + b), lim)]
    ensures b == [] ==> Prune(before + a, lim) == Prune(before + (a + b), lim)
  {
    PruneAppend(before + a, b, lim);
    assert (before + a) + b == before + (a + b);
    if b == [] {
      assert a + b == a;
    }
  }

  lemma LogTwice(log: map<Scope, History>, before: History, scope: Scope, a: History, b: History)
    ensures log[scope := before + a][scope := (before + a) + b] == log[scope := before + (a + b)]
    ensures b == [] ==> before + a == before + (a + b)
  {
    assert (before + a) + b == before + (a + b);
  }

  function Popped(ms: History): History {
    if ms == [] then [] else DropLast(ms)
  }

  lemma {:induction false} DropOldestLength(ms: History, k: nat)
    requires k <= |NonSystemPart(ms)|
    ensures |DropOldest(ms, k)| == |ms| - k
  {
    if ms == [] || k == 0 {
    } else {
      DropOldestLength(ms[1..], if ms[0].role.System? then k else k - 1);
    }
  }

  /**
   * Popping undoes the append of a user message exactly when that append pruned nothing,
   * or when there was nothing before it.
   */
  lemma PopUndoesAppendIff(ms: History, user: Message, lim: Limits)
    requires !user.role.System?
    ensures Popped(Prune(ms + [user], lim)) == ms <==> Meets(ms + [user], lim) || ms == []
  {
    var whole := ms + [user];
    SizesAppend(ms, [user]);
    assert NonSystemPart([user]) == [user] + NonSystemPart([]);
    var k := PruneKeepsLongestSuffix(whole, lim);
    DropOldestLength(whole, k);
    if Meets(whole, lim) {
      assert DropLast(whole) == ms;
    } else {
      assert k > 0;
    }
  }

  /** Popping from the pruned history gives the pruned log without its last message. */
  ghost predicate PopUndoes(log: History, lim: Limits) {
    Popped(Prune(log, lim)) == Prune(Popped(log), lim)
  }

  /** The user's message fits beside what the pruning would keep of the history before it. */
  ghost predicate Fits(before: History, user: Message, lim: Limits) {
    Meets(Prune(before, lim) + [user], lim) || Prune(before, lim) == []
  }

  lemma PopUndoesIff(before: History, user: Message, lim: Limits)
    requires !user.role.System?
    ensures PopUndoes(before + [user], lim) <==> Fits(before, user, lim)
  {
    PruneAppend(before, [user], lim);
    PopUndoesAppendIff(Prune(before, lim), user, lim);
    assert DropLast(before + [user]) == before;
  }

  /**
   * What happens to one conversation: messages are recorded, or the model call for a user
   * message, perhaps after an announcement, fails and the message is popped.
   */
  datatype Turn = Recorded(more: History) | Failed(note: History, user: Message)

  function HistoryAfter(opening: History, turns: seq<Turn>, lim: Limits): History {
    if turns == [] then opening
    else
      var before := HistoryAfter(opening, DropLast(turns), lim);
      match Last(turns)
      case Recorded(more) => Prune(before + more, lim)
      case Failed(note, user) => Popped(Prune(before + note + [user], lim))
  }

  /** Everything that should have stayed. */
  function LogAfter(opening: History, turns: seq<Turn>): History {
    if turns == [] then opening
    else
      match Last(turns)
      case Recorded(more) => LogAfter(opening, DropLast(turns)) + more
      case Failed(note, _) => LogAfter(opening, DropLast(turns)) + note
  }

  /** The history is the pruned log now and was after every earlier turn. */
  ghost predicate PrunedThroughout(opening: History, turns: seq<Turn>, lim: Limits) {
    && HistoryAfter(opening, turns, lim) == Prune(LogAfter(opening, turns), lim)
    && (turns != [] ==> PrunedThroughout(opening, DropLast(turns), lim))
  }

  /** Every message that was popped fitted when it was appended. */
  ghost predicate FitsThroughout(opening: History, turns: seq<Turn>, lim: Limits) {
    turns != [] ==>
      && FitsThroughout(opening, DropLast(turns), lim)
      && (Last(turns).Failed? ==>
        Fits(HistoryAfter(opening, DropLast(turns), lim) + Last(turns).note, Last(turns).user, lim))
  }

  ghost predicate UsersSpeak(turns: seq<Turn>) {
    forall i :: 0 <= i < |turns| && turns[i].Failed? ==> !turns[i].user.role.System?
  }

  lemma FailedTurnIff(history: History, log: History, note: History, user: Message, lim: Limits)
    requires history == Prune(log, lim) && !user.role.System?
    ensures Popped(Prune(history + note + [user], lim)) == Prune(log + note, lim) <==> Fits(history + note, user, lim)
  {
    PruneAppend(log, note, lim);
    PruneAppend(history + note, [user], lim);
    PopUndoesAppendIff(Prune(history + note, lim), user, lim);
  }

  /**
   * In a run with failed model calls, the history is the pruned log all the time exactly if
   * every message that was popped fitted beside what there was before it.
   */
  lemma {:induction false} HistoryIsPrunedLogIff(opening: History, turns: seq<Turn>, lim: Limits)
    requires NonSystemPart(opening) == [] && UsersSpeak(turns)
    ensures PrunedThroughout(opening, turns, lim) <==> FitsThroughout(opening, turns, lim)
  {
    if turns == [] {
      PruneSystemOnly(opening, lim);
    } else {
      var before, turn := DropLast(turns), Last(turns);
      HistoryIsPrunedLogIff(opening, before, lim);
      var log := LogAfter(opening, before);
      if PrunedThroughout(opening, before, lim) {
        match turn
        case Recorded(more) => PruneAppend(log, more, lim);
        case Failed(note, user) => FailedTurnIff(Prune(log, lim), log, note, user, lim);
      }
    }
  }

  lemma {:induction false} PartsSnoc(ms: History, m: Message)
    ensures SystemPart(ms + [m]) == if m.role.System? then SystemPart(ms) + [m] else SystemPart(ms)
    ensures NonSystemPart(ms + [m]) == if m.role.System? then NonSystemPart(ms) else NonSystemPart(ms) + [m]
  {
    if ms == [] {
      assert ms + [m] == [m] && [m][1..] == [];
    } else {
      assert (ms + [m])[1..] == ms[1..] + [m];
      PartsSnoc(ms[1..], m);
    }
  }

  /** Without its non-system messages a history is its system part. */
  lemma {:induction false} DropAllLeavesSystem(ms: History)
    ensures DropOldest(ms, |NonSystemPart(ms)|) == SystemPart(ms)
  {
    if ms == [] {
    } else {
      DropAllLeavesSystem(ms[1..]);
      if ms[0].role.System? && |NonSystemPart(ms)| == 0 {
        assert ms == [ms[0]] + ms[1..];
      }
    }
  }

  /** While `k` older messages can be dropped, the last one stays where it is. */
  lemma {:induction false} DropOldestSnoc(ms: History, m: Message, k: nat)
    requires k <= |NonSystemPart(ms)|
    ensures DropOldest(ms + [m], k) == DropOldest(ms, k) + [m]
  {
    if ms == [] || k == 0 {
    } else {
      assert (ms + [m])[1..] == ms[1..] + [m];
      DropOldestSnoc(ms[1..], m, if ms[0].role.System? then k else k - 1);
    }
  }

  /** Dropping messages only helps to meet the limits. */
  lemma {:induction false} DropOldestShrinks(ms: History, k: nat)
    ensures TotalTokens(DropOldest(ms, k)) <= TotalTokens(ms)
    ensures |NonSystemPart(DropOldest(ms, k))| <= |NonSystemPart(ms)|
  {
    if ms == [] || k == 0 {
    } else {
      DropOldestShrinks(ms[1..], if ms[0].role.System? then k else k - 1);
    }
  }

  lemma MeetsStays(ms: History, j: nat, k: nat, lim: Limits)
    requires j <= k && Meets(DropOldest(ms, j), lim)
    ensures Meets(DropOldest(ms, k), lim)
  {
    var ms' := DropOldest(ms, j);
    DropOldestTwice(ms, j, k - j);
    assert DropOldest(ms', k - j) == DropOldest(ms, k);
    DropOldestShrinks(ms', k - j);
  }

  /** The user's message outlives the pruning exactly if it fits beside the system messages. */
  lemma UserKeptIff(ms: History, user: Message, lim: Limits, k: nat)
    requires !user.role.System? && k <= |NonSystemPart(ms + [user])|
    requires Prune(ms + [user], lim) == DropOldest(ms + [user], k)
    requires forall j: nat :: j < k ==> !Meets(DropOldest(ms + [user], j), lim)
    requires Meets(DropOldest(ms + [user], k), lim) || k == |NonSystemPart(ms + [user])|
    ensures k <= |NonSystemPart(ms)| <==> Meets(SystemPart(ms) + [user], lim)
  {
    var whole, n := ms + [user], |NonSystemPart(ms)|;
    PartsSnoc(ms, user);
    DropOldestSnoc(ms, user, n);
    DropAllLeavesSystem(ms);
    assert DropOldest(whole, n) == SystemPart(ms) + [user];
    if k <= n {
      MeetsStays(whole, k, n, lim);
    }
  }

  /**
   * The pop after a failed model call takes a system message exactly if there is one and the
   * user's words do not fit beside the system messages: the pruning has then dropped them.
   */
  lemma PopLosesSystemMessageIff(ms: History, user: Message, lim: Limits)
    requires !user.role.System?
    ensures var popped := Popped(Prune(ms + [user], lim));
      var loses := SystemPart(ms) != [] && !Meets(SystemPart(ms) + [user], lim);
      && (SystemPart(popped) != SystemPart(ms) <==> loses)
      && (loses ==> popped == DropLast(SystemPart(ms)))
  {
    var whole := ms + [user];
    var k := PruneKeepsLongestSuffix(whole, lim);
    UserKeptIff(ms, user, lim, k);
    PartsSnoc(ms, user);
    if k <= |NonSystemPart(ms)| {
      DropOldestSnoc(ms, user, k);
      DropOldestParts(ms, k);
      assert DropLast(DropOldest(ms, k) + [user]) == DropOldest(ms, k);
    } else {
      DropAllLeavesSystem(whole);
      AllSystem(ms);
      if SystemPart(ms) != [] {
        SystemPartLength(DropLast(SystemPart(ms)));
      }
    }
  }

  lemma {:induction false} AllSystem(ms: History)
    ensures SystemPart(SystemPart(ms)) == SystemPart(ms)
  {
    if ms == [] {
    } else {
      AllSystem(ms[1..]);
    }
  }

  lemma {:induction false} SystemPartLength(ms: History)
    ensures |SystemPart(ms)| <= |ms|
  {
    if ms == [] {
    } else {
      SystemPartLength(ms[1..]);
    }
  }

  /** One such input: two one-word messages and a limit of one token. */
  lemma PopLosesSystemMessageExample()
    ensures var sys, user := TextMessage(System, "brief"), TextMessage(User, "hi");
      Popped(Prune([sys] + [user], Limits(0, 1))) == []
  {
    var sys, user := TextMessage(System, "brief"), TextMessage(User, "hi");
    OneToken("brief");
    OneToken("hi");
    TextTokens(System, "brief");
    TextTokens(User, "hi");
    SizesAppend([sys], [user]);
    assert TotalTokens([sys]) == TokensOf(sys) + TotalTokens([]);
    assert TotalTokens([user]) == TokensOf(user) + TotalTokens([]);
    assert SystemPart([sys]) == [sys] + SystemPart([]);
    PopLosesSystemMessageIff([sys], user, Limits(0, 1));
    assert DropLast([sys]) == [];
  }

  lemma TextTokens(role: Role, text: string)
    ensures TokensOf(TextMessage(role, text)) == |SplitTokens(text)|
  {
    assert [text] + [] == [text] && DropLast([text]) == [];
  }
}
