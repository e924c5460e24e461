/**
 * The circuit breaker of pkg/resilience/circuit_breaker.go and the model adapter of
 * pkg/llm/circuit_breaker.go that it guards. Times are nanoseconds on a clock that starts
 * at zero, the breaker's zero time. Calls are made one after the other.
 */
module CircuitBreaker {
  import opened Base
  import opened Counting

  const DEFAULT_THRESHOLD: nat := 3
  const DEFAULT_COOLDOWN: nat := 30_000_000_000

  datatype Config = Config(threshold: nat, cooldown: nat)

  function EffectiveConfig(threshold: int, cooldown: int): (cfg: Config)
    ensures cfg.threshold > 0 && cfg.cooldown > 0
  {
    Config(
      if threshold <= 0 then DEFAULT_THRESHOLD else threshold,
      if cooldown <= 0 then DEFAULT_COOLDOWN else cooldown)
  }

  datatype Outcome = Success | RateLimited | OtherError

  /** What a caller of the adapter gets: the inner outcome, or a refusal as if rate limited. */
  datatype Reply = Inner(outcome: Outcome) | Degraded

  datatype Metric = BreakerOpen | BreakerClose | BreakerDenied | RateLimitSeen

  /** A call's clock readings before and after the inner call, and what that would give. */
  datatype Call = Call(start: nat, finish: nat, outcome: Outcome)

  /** The breaker's two fields, the adapter's flag and the metrics recorded. */
  datatype State = State(failures: nat, openUntil: nat, open: bool, metrics: seq<Metric>)

  const INITIAL := State(0, 0, false, [])

  predicate Denied(s: State, call: Call) {
    call.start < s.openUntil
  }

  function MetricsOf(s: State, call: Call): seq<Metric> {
    if Denied(s, call) then (if s.open then [BreakerDenied] else [BreakerOpen, BreakerDenied])
    else (if s.open then [BreakerClose] else []) + (if call.outcome.RateLimited? then [RateLimitSeen] else [])
  }

  function FailuresAfter(s: State, call: Call): nat {
    if Denied(s, call) || call.outcome.OtherError? then s.failures
    else if call.outcome.Success? then 0 else s.failures + 1
  }

  function OpenUntilAfter(cfg: Config, s: State, call: Call): nat {
    if Denied(s, call) || call.outcome.OtherError? then s.openUntil
    else if call.outcome.Success? then 0
    else if s.failures + 1 >= cfg.threshold then call.finish + cfg.cooldown else s.openUntil
  }

  function Step(cfg: Config, s: State, call: Call): State {
    State(FailuresAfter(s, call), OpenUntilAfter(cfg, s, call), Denied(s, call), s.metrics + MetricsOf(s, call))
  }

  class Breaker {
    const cfg: Config
    var failures: nat
    var openUntil: nat

    constructor (threshold: int, cooldown: int)
      ensures cfg.threshold == (if threshold > 0 then threshold else 3)
      ensures cfg.cooldown == (if cooldown > 0 then cooldown else 30_000_000_000)
      ensures failures == 0 && openUntil == 0
    {
      cfg := EffectiveConfig(threshold, cooldown);
      failures, openUntil := 0, 0;
    }

    method Allow(now: nat) returns (ok: bool)
      ensures ok <==> now >= openUntil
    {
      ok := !(now < openUntil);
    }

    method OnSuccess()
      modifies this
      ensures failures == 0 && openUntil == 0
    {
      failures, openUntil := 0, 0;
    }

    method OnError(error: Outcome, now: nat)
      modifies this
      ensures !error.RateLimited? ==> failures == old(failures) && openUntil == old(openUntil)
      ensures error.RateLimited? ==>
        && failures == old(failures) + 1
        && openUntil == if failures >= cfg.threshold then now + cfg.cooldown else old(openUntil)
    {
      if !error.RateLimited? {
        return;
      }
      failures := failures + 1;
      if failures >= cfg.threshold {
        openUntil := now + cfg.cooldown;
      }
    }
  }

  /** The adapter; one request is Generate or Stream, which treat the breaker alike. */
  class Adapter {
    const breaker: Breaker
    var open: bool
    var metrics: seq<Metric>

    function Contents(): State
      reads this, breaker
    {
      State(breaker.failures, breaker.openUntil, open, metrics)
    }

    constructor (guard: Breaker)
      requires guard.failures == 0 && guard.openUntil == 0
      ensures breaker == guard && Contents() == INITIAL
    {
      breaker := guard;
      open, metrics := false, [];
    }

    method SetOpen(value: bool)
      modifies this
      ensures open == value
      ensures old(open) == value ==> metrics == old(metrics)
      ensures old(open) != value ==> metrics == old(metrics) + [if value then BreakerOpen else BreakerClose]
    {
      var changed := open != value;
      open := value;
      if changed {
        metrics := metrics + [if value then BreakerOpen else BreakerClose];
      }
    }

    method Request(call: Call) returns (reply: Reply)
      modifies this, breaker
      ensures Contents() == Step(breaker.cfg, old(Contents()), call)
      ensures reply == if Denied(old(Contents()), call) then Degraded else Inner(call.outcome)
    {
      var ok := breaker.Allow(call.start);
      if !ok {
        SetOpen(true);
        metrics := metrics + [BreakerDenied];
        return Degraded;
      }
      SetOpen(false);
      if call.outcome.Success? {
        breaker.OnSuccess();
      } else {
        if call.outcome.RateLimited? {
          metrics := metrics + [RateLimitSeen];
        }
        breaker.OnError(call.outcome, call.finish);
      }
      reply := Inner(call.outcome);
    }
  }

  function Exec(cfg: Config, calls: seq<Call>): State {
    if calls == [] then INITIAL else Step(cfg, Exec(cfg, DropLast(calls)), Last(calls))
  }

  ghost predicate Sequential(calls: seq<Call>) {
    && (forall i :: 0 <= i < |calls| ==> calls[i].start <= calls[i].finish)
    && (forall i, j :: 0 <= i < j < |calls| ==> calls[i].finish <= calls[j].start)
  }

  /** The calls that reached the inner model. */
  function Performed(cfg: Config, calls: seq<Call>): seq<Call> {
    if calls == [] then []
    else
      var before := DropLast(calls);
      if Denied(Exec(cfg, before), Last(calls)) then Performed(cfg, before) else Performed(cfg, before) + [Last(calls)]
  }

  /** How many of the calls since the last success were rate limited. */
  function RateLimitsSinceSuccess(calls: seq<Call>): nat {
    if calls == [] || Last(calls).outcome.Success? then 0
    else RateLimitsSinceSuccess(DropLast(calls)) + (if Last(calls).outcome.RateLimited? then 1 else 0)
  }

  /** When the last rate limited call since the last success came back. */
  function LastRateLimit(calls: seq<Call>): nat {
    if calls == [] || Last(calls).outcome.Success? then 0
    else if Last(calls).outcome.RateLimited? then Last(calls).finish
    else LastRateLimit(DropLast(calls))
  }

  lemma HistoryGrows(done: seq<Call>, call: Call)
    ensures RateLimitsSinceSuccess(done + [call]) ==
      if call.outcome.Success? then 0
      else if call.outcome.RateLimited? then RateLimitsSinceSuccess(done) + 1 else RateLimitsSinceSuccess(done)
    ensures LastRateLimit(done + [call]) ==
      if call.outcome.Success? then 0
      else if call.outcome.RateLimited? then call.finish else LastRateLimit(done)
  {
    assert DropLast(done + [call]) == done;
  }

  ghost predicate Tells(cfg: Config, s: State, done: seq<Call>) {
    && s.failures == RateLimitsSinceSuccess(done)
    && s.openUntil == if s.failures > 0 && s.failures >= cfg.threshold then LastRateLimit(done) + cfg.cooldown else 0
  }

  lemma StepTells(cfg: Config, s: State, done: seq<Call>, call: Call)
    requires Tells(cfg, s, done)
    ensures Tells(cfg, Step(cfg, s, call), if Denied(s, call) then done else done + [call])
  {
    HistoryGrows(done, call);
  }

  /**
   * After any run, the failure count is the number of rate limited calls since the last
   * success, and the breaker is closed, or waits for one cooldown from the last of them.
   */
  lemma {:induction false} BreakerTellsTheHistory(cfg: Config, calls: seq<Call>)
    ensures Tells(cfg, Exec(cfg, calls), Performed(cfg, calls))
  {
    if calls == [] {
    } else {
      var before := DropLast(calls);
      BreakerTellsTheHistory(cfg, before);
      StepTells(cfg, Exec(cfg, before), Performed(cfg, before), Last(calls));
    }
  }

  /** Less than one cooldown has passed since one rate limit too many. */
  predicate CoolingDown(cfg: Config, done: seq<Call>, now: nat) {
    RateLimitsSinceSuccess(done) >= cfg.threshold && now < LastRateLimit(done) + cfg.cooldown
  }

  /** A call is refused exactly within one cooldown after one rate limit too many. */
  lemma DeniedIff(cfg: Config, calls: seq<Call>, call: Call)
    requires cfg.threshold > 0
    ensures Denied(Exec(cfg, calls), call) <==> CoolingDown(cfg, Performed(cfg, calls), call.start)
  {
    BreakerTellsTheHistory(cfg, calls);
  }

  lemma {:induction false} PerformedAt(cfg: Config, calls: seq<Call>, j: nat) returns (k: nat)
    requires j < |Performed(cfg, calls)|
    ensures k < |calls| && calls[k] == Performed(cfg, calls)[j] && !Denied(Exec(cfg, calls[..k]), calls[k])
    ensures Performed(cfg, calls[..k]) == Performed(cfg, calls)[..j]
  {
    assert calls != [];
    var before := DropLast(calls);
    if j < |Performed(cfg, before)| {
      k := PerformedAt(cfg, before, j);
      assert calls[..k] == before[..k];
      assert Performed(cfg, calls)[..j] == Performed(cfg, before)[..j];
    } else {
      k := |calls| - 1;
      assert calls[..k] == before;
      assert Performed(cfg, calls)[..j] == Performed(cfg, before);
    }
  }

  lemma {:induction false} PerformedInOrder(cfg: Config, calls: seq<Call>, i: nat, j: nat)
    requires Sequential(calls) && i < j < |Performed(cfg, calls)|
    ensures Performed(cfg, calls)[i].finish <= Performed(cfg, calls)[j].start
    ensures Performed(cfg, calls)[j].start <= Performed(cfg, calls)[j].finish
  {
    var k := PerformedAt(cfg, calls, j);
    assert Performed(cfg, calls[..k])[i] == Performed(cfg, calls)[i];
    var m := PerformedAt(cfg, calls[..k], i);
    assert calls[..k][m] == calls[m];
  }

  lemma {:induction false} RateLimitsOnlyGrow(done: seq<Call>, i: nat)
    requires i < |done| && done[i].outcome.RateLimited?
    requires forall m :: i < m < |done| ==> !done[m].outcome.Success?
    requires forall m :: i < m < |done| ==> done[i].finish <= done[m].finish
    ensures RateLimitsSinceSuccess(done) >= RateLimitsSinceSuccess(done[..i + 1])
    ensures LastRateLimit(done) >= done[i].finish
  {
    if i < |done| - 1 {
      RateLimitsOnlyGrow(DropLast(done), i);
      assert DropLast(done)[..i + 1] == done[..i + 1];
    } else {
      assert done[..i + 1] == done;
    }
  }

  /**
   * Once there were `threshold` rate limits since a success, every later inner call, up to
   * the next success, starts at least one cooldown after each rate limit from then on.
   */
  lemma CooldownIsKept(cfg: Config, calls: seq<Call>, i: nat, j: nat)
    requires cfg.threshold > 0 && Sequential(calls) && i < j < |Performed(cfg, calls)|
    requires var done := Performed(cfg, calls);
      && done[i].outcome.RateLimited? && RateLimitsSinceSuccess(done[..i + 1]) >= cfg.threshold
      && (forall m :: i < m < j ==> !done[m].outcome.Success?)
    ensures var done := Performed(cfg, calls); done[j].start >= done[i].finish + cfg.cooldown
  {
    var done := Performed(cfg, calls);
    var k := PerformedAt(cfg, calls, j);
    forall m | i < m < j
      ensures done[i].finish <= done[m].finish
    {
      PerformedInOrder(cfg, calls, i, m);
    }
    RateLimitsOnlyGrow(done[..j], i);
    assert done[..j][..i + 1] == done[..i + 1];
    DeniedIff(cfg, calls[..k], calls[k]);
  }

  function RateLimitsIn(calls: seq<Call>): nat {
    if calls == [] then 0
    else RateLimitsIn(DropLast(calls)) + (if Last(calls).outcome.RateLimited? then 1 else 0)
  }

  lemma MetricsOfCall(s: State, call: Call)
    ensures CountOf(MetricsOf(s, call), BreakerDenied) == if Denied(s, call) then 1 else 0
    ensures CountOf(MetricsOf(s, call), RateLimitSeen) == if !Denied(s, call) && call.outcome.RateLimited? then 1 else 0
  {
    var first :=
      if Denied(s, call) then (if s.open then [] else [BreakerOpen]) else (if s.open then [BreakerClose] else []);
    CountAbsent(first, BreakerDenied);
    CountAbsent(first, RateLimitSeen);
    CountAppend(first, BreakerDenied, BreakerDenied);
    CountAppend(first, BreakerDenied, RateLimitSeen);
    CountAppend(first, RateLimitSeen, RateLimitSeen);
    CountAppend(first, RateLimitSeen, BreakerDenied);
    assert MetricsOf(s, call)
        == if Denied(s, call) then first + [BreakerDenied]
           else if call.outcome.RateLimited? then first + [RateLimitSeen] else first;
  }

  lemma {:induction false} CountConcat(a: seq<Metric>, b: seq<Metric>, m: Metric)
    ensures CountOf(a + b, m) == CountOf(a, m) + CountOf(b, m)
  {
    if b == [] {
      assert a + b == a;
    } else {
      CountConcat(a, DropLast(b), m);
      assert a + b == (a + DropLast(b)) + [Last(b)] && b == DropLast(b) + [Last(b)];
      CountAppend(a + DropLast(b), Last(b), m);
      CountAppend(DropLast(b), Last(b), m);
    }
  }

  /**
   * Each refused call is recorded as denied, all others reach the inner model, and each rate
   * limit there is recorded once.
   */
  lemma {:induction false} MetricsAccount(cfg: Config, calls: seq<Call>)
    ensures CountOf(Exec(cfg, calls).metrics, BreakerDenied) + |Performed(cfg, calls)| == |calls|
    ensures CountOf(Exec(cfg, calls).metrics, RateLimitSeen) == RateLimitsIn(Performed(cfg, calls))
  {
    if calls == [] {
    } else {
      var s, call := Exec(cfg, DropLast(calls)), Last(calls);
      MetricsAccount(cfg, DropLast(calls));
      MetricsOfCall(s, call);
      CountConcat(s.metrics, MetricsOf(s, call), BreakerDenied);
      CountConcat(s.metrics, MetricsOf(s, call), RateLimitSeen);
      assert DropLast(Performed(cfg, DropLast(calls)) + [call]) == Performed(cfg, DropLast(calls));
    }
  }

  /** The open and close metrics, true for open. */
  function Switches(metrics: seq<Metric>): seq<bool> {
    if metrics == [] then []
    else
      var before := Switches(DropLast(metrics));
      match Last(metrics)
      case BreakerOpen => before + [true]
      case BreakerClose => before + [false]
      case _ => before
  }

  lemma {:induction false} SwitchesAppend(a: seq<Metric>, b: seq<Metric>)
    ensures Switches(a + b) == Switches(a) + Switches(b)
  {
    if b == [] {
      assert a + b == a;
    } else {
      SwitchesAppend(a, DropLast(b));
      assert DropLast(a + b) == a + DropLast(b);
      assert Last(a + b) == Last(b);
    }
  }

  lemma SwitchesOfCall(s: State, call: Call)
    ensures Switches(MetricsOf(s, call)) == if s.open == Denied(s, call) then [] else [Denied(s, call)]
  {
    var first := if s.open then [BreakerClose] else [];
    SwitchesAppend(first, if call.outcome.RateLimited? then [RateLimitSeen] else []);
    assert DropLast([BreakerOpen, BreakerDenied]) == [BreakerOpen];
  }

  ghost predicate Alternates(switches: seq<bool>) {
    forall k :: 0 <= k < |switches| ==> (switches[k] <==> k % 2 == 0)
  }

  /** The switches alternate, and the flag tells which came last. */
  ghost predicate Reports(s: State) {
    Alternates(Switches(s.metrics)) && (s.open <==> |Switches(s.metrics)| % 2 == 1)
  }

  lemma StepReports(cfg: Config, s: State, call: Call)
    requires Reports(s)
    ensures Reports(Step(cfg, s, call))
  {
    var was, more := Switches(s.metrics), if s.open == Denied(s, call) then [] else [Denied(s, call)];
    SwitchesAppend(s.metrics, MetricsOf(s, call));
    SwitchesOfCall(s, call);
    assert Switches(Step(cfg, s, call).metrics) == was + more;
    assert Alternates(was + more);
  }

  /**
   * Open and close metrics strictly alternate, starting with open; the breaker is reported
   * open exactly if the last call was refused.
   */
  lemma {:induction false} SwitchesAlternate(cfg: Config, calls: seq<Call>)
    ensures Reports(Exec(cfg, calls))
    ensures Exec(cfg, calls).open <==> calls != [] && Denied(Exec(cfg, DropLast(calls)), Last(calls))
  {
    if calls == [] {
    } else {
      SwitchesAlternate(cfg, DropLast(calls));
      StepReports(cfg, Exec(cfg, DropLast(calls)), Last(calls));
    }
  }
}

/** The adapter's flag when calls overlap: switching it is locked, recording the switch is not. */
module BreakerInterleaving {
  import opened Base
  import opened Counting
  import CircuitBreaker

  /** `Recording` lies between the locked switch and the metric for it. */
  datatype Point = Outside | Recording(value: bool)

  datatype State = State(open: bool, at: seq<Point>, committed: seq<bool>, recorded: seq<bool>)

  datatype Event = SetOpen(t: nat, value: bool) | Record(t: nat)

  function Init(threads: nat): State {
    State(false, seq(threads, _ => Outside), [], [])
  }

  predicate Enabled(s: State, e: Event) {
    e.t < |s.at| && (if e.SetOpen? then s.at[e.t].Outside? else s.at[e.t].Recording?)
  }

  predicate Switches(s: State, e: Event) {
    e.SetOpen? && e.value != s.open
  }

  function PointAfter(s: State, e: Event): Point {
    if Switches(s, e) then Recording(e.value) else Outside
  }

  function Step(s: State, e: Event): State
    requires Enabled(s, e)
  {
    State(
      if e.SetOpen? then e.value else s.open,
      s.at[e.t := PointAfter(s, e)],
      if Switches(s, e) then s.committed + [e.value] else s.committed,
      if e.Record? then s.recorded + [s.at[e.t].value] else s.recorded)
  }

  function Exec(threads: nat, events: seq<Event>): Option<State> {
    if events == [] then Some(Init(threads))
    else
      var before := Exec(threads, DropLast(events));
      if before.Some? && Enabled(before.value, Last(events)) then Some(Step(before.value, Last(events))) else None
  }

  /** Under every interleaving the committed switches alternate, starting with open. */
  lemma {:induction false} CommittedAlternate(threads: nat, events: seq<Event>)
    requires Exec(threads, events).Some?
    ensures var s := Exec(threads, events).value;
      CircuitBreaker.Alternates(s.committed) && (s.open <==> |s.committed| % 2 == 1)
  {
    if events == [] {
    } else {
      CommittedAlternate(threads, DropLast(events));
    }
  }

  /** How many threads still have to record a switch to `value`. */
  function Unrecorded(at: seq<Point>, value: bool): nat {
    CountOf(at, Recording(value))
  }

  ghost predicate Accounted(s: State, value: bool) {
    CountOf(s.recorded, value) + Unrecorded(s.at, value) == CountOf(s.committed, value)
  }

  lemma SwitchAccounts(s: State, e: Event, value: bool)
    requires Enabled(s, e) && Accounted(s, value) && e.SetOpen?
    ensures Accounted(Step(s, e), value)
  {
    CountUpdate(s.at, e.t, Recording(value), PointAfter(s, e));
    if Switches(s, e) {
      CountAppend(s.committed, e.value, value);
    }
  }

  lemma RecordAccounts(s: State, e: Event, value: bool)
    requires Enabled(s, e) && Accounted(s, value) && e.Record?
    ensures Accounted(Step(s, e), value)
  {
    CountUpdate(s.at, e.t, Recording(value), Outside);
    CountAppend(s.recorded, s.at[e.t].value, value);
  }

  /** Each committed switch is recorded once, at some time: recorded plus pending is committed. */
  lemma {:induction false} SwitchesRecordedOnce(threads: nat, events: seq<Event>, value: bool)
    requires Exec(threads, events).Some?
    ensures Accounted(Exec(threads, events).value, value)
  {
    if events == [] {
      CountAbsent(Init(threads).at, Recording(value));
    } else {
      SwitchesRecordedOnce(threads, DropLast(events), value);
      var s := Exec(threads, DropLast(events)).value;
      if Last(events).SetOpen? {
        SwitchAccounts(s, Last(events), value);
      } else {
        RecordAccounts(s, Last(events), value);
      }
    }
  }

  lemma ExecSnoc(threads: nat, events: seq<Event>, e: Event)
    requires Exec(threads, events).Some? && Enabled(Exec(threads, events).value, e)
    ensures Exec(threads, events + [e]) == Some(Step(Exec(threads, events).value, e))
  {
    assert DropLast(events + [e]) == events;
  }

  /** Two overlapping calls can record close before open. */
  lemma RecordedOutOfOrder()
    ensures var run := [SetOpen(0, true), SetOpen(1, false), Record(1), Record(0)];
      Exec(2, run).Some? && Exec(2, run).value.recorded == [false, true]
  {
    var s0 := Init(2);
    assert s0.at == [Outside, Outside];
    var s1 := Step(s0, SetOpen(0, true));
    assert s1.at == [Recording(true), Outside];
    ExecSnoc(2, [], SetOpen(0, true));
    var s2 := Step(s1, SetOpen(1, false));
    assert s2.at == [Recording(true), Recording(false)];
    ExecSnoc(2, [] + [SetOpen(0, true)], SetOpen(1, false));
    var s3 := Step(s2, Record(1));
    assert s3.at == [Recording(true), Outside] && s3.recorded == [false];
    ExecSnoc(2, [] + [SetOpen(0, true)] + [SetOpen(1, false)], Record(1));
    ExecSnoc(2, [] + [SetOpen(0, true)] + [SetOpen(1, false)] + [Record(1)], Record(0));
    assert Step(s3, Record(0)).recorded == [false, true];
    assert [SetOpen(0, true), SetOpen(1, false), Record(1), Record(0)]
        == [] + [SetOpen(0, true)] + [SetOpen(1, false)] + [Record(1)] + [Record(0)];
  }
}
