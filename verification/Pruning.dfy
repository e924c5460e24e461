/**
 * The memory limits of pkg/processors/llm.go. Pruning drops the oldest messages that are not
 * system messages until a history limit and a token limit are met; a limit of zero or less
 * does not apply.
 */
module Pruning {
  import opened Base
  import opened Tokens

  type History = seq<Message>

  datatype Limits = Limits(maxHistory: int, maxTokens: int)

  function SystemPart(ms: History): History {
    if ms == [] then []
    else if ms[0].role.System? then [ms[0]] + SystemPart(ms[1..])
    else SystemPart(ms[1..])
  }

  function NonSystemPart(ms: History): History {
    if ms == [] then []
    else if ms[0].role.System? then NonSystemPart(ms[1..])
    else [ms[0]] + NonSystemPart(ms[1..])
  }

  function TotalTokens(ms: History): nat {
    if ms == [] then 0 else TokensOf(ms[0]) + TotalTokens(ms[1..])
  }

  /** `ms` without its first `k` messages that are not system messages. */
  function DropOldest(ms: History, k: nat): History {
    if ms == [] || k == 0 then ms
    else if ms[0].role.System? then [ms[0]] + DropOldest(ms[1..], k)
    else DropOldest(ms[1..], k - 1)
  }

  predicate Meets(ms: History, lim: Limits) {
    && (lim.maxHistory <= 0 || |NonSystemPart(ms)| <= lim.maxHistory)
    && (lim.maxTokens <= 0 || TotalTokens(ms) <= lim.maxTokens)
  }

  /** What must remain of a history: drop one message at a time until the limits are met. */
  function Prune(ms: History, lim: Limits): History
    decreases |NonSystemPart(ms)|
  {
    if Meets(ms, lim) || NonSystemPart(ms) == [] then ms
    else
      DropOldestParts(ms, 1);
      Prune(DropOldest(ms, 1), lim)
  }

  lemma {:induction false} DropOldestParts(ms: History, k: nat)
    ensures SystemPart(DropOldest(ms, k)) == SystemPart(ms)
    ensures var n := |NonSystemPart(ms)|;
      NonSystemPart(DropOldest(ms, k)) == NonSystemPart(ms)[if k < n then k else n..]
  {
    if ms == [] || k == 0 {
    } else {
      DropOldestParts(ms[1..], if ms[0].role.System? then k else k - 1);
    }
  }

  lemma {:induction false} DropOldestTwice(ms: History, j: nat, k: nat)
    ensures DropOldest(DropOldest(ms, j), k) == DropOldest(ms, j + k)
  {
    if ms == [] || j == 0 {
    } else {
      if ms[0].role.System? {
        DropOldestTwice(ms[1..], j, k);
        if k > 0 {
          assert DropOldest(ms, j)[1..] == DropOldest(ms[1..], j);
        }
      } else {
        DropOldestTwice(ms[1..], j - 1, k);
      }
    }
  }

  lemma {:induction false} DropOldestAppend(a: History, b: History)
    requires NonSystemPart(a) != []
    ensures DropOldest(a + b, 1) == DropOldest(a, 1) + b
  {
    assert (a + b)[1..] == a[1..] + b;
    if a[0].role.System? {
      DropOldestAppend(a[1..], b);
    } else {
      assert DropOldest(a[1..] + b, 0) == DropOldest(a[1..], 0) + b;
    }
  }

  lemma {:induction false} SizesAppend(a: History, b: History)
    ensures |NonSystemPart(a + b)| == |NonSystemPart(a)| + |NonSystemPart(b)|
    ensures TotalTokens(a + b) == TotalTokens(a) + TotalTokens(b)
  {
    var whole := a + b;
    if a == [] {
      assert whole == b;
    } else {
      var rest := a[1..];
      assert whole[1..] == rest + b && whole[0] == a[0];
      SizesAppend(rest, b);
      assert |NonSystemPart(whole)| == |NonSystemPart(whole[1..])| + (if a[0].role.System? then 0 else 1);
      assert TotalTokens(whole) == TokensOf(a[0]) + TotalTokens(whole[1..]);
    }
  }

  /**
   * Pruning keeps every system message and the longest suffix of the others that meets both
   * limits; when not even the system messages alone meet them, no other message is kept.
   */
  lemma {:induction false} PruneKeepsLongestSuffix(ms: History, lim: Limits) returns (k: nat)
    ensures k <= |NonSystemPart(ms)|
    ensures Prune(ms, lim) == DropOldest(ms, k)
    ensures SystemPart(Prune(ms, lim)) == SystemPart(ms)
    ensures NonSystemPart(Prune(ms, lim)) == NonSystemPart(ms)[k..]
    ensures forall j: nat :: j < k ==> !Meets(DropOldest(ms, j), lim)
    ensures Meets(Prune(ms, lim), lim) || k == |NonSystemPart(ms)|
    decreases |NonSystemPart(ms)|
  {
    if Meets(ms, lim) || NonSystemPart(ms) == [] {
      k := 0;
    } else {
      DropOldestParts(ms, 1);
      var rest := PruneKeepsLongestSuffix(DropOldest(ms, 1), lim);
      k := rest + 1;
      DropOldestTwice(ms, 1, rest);
      DropOldestParts(ms, k);
      forall j: nat | j < k
        ensures !Meets(DropOldest(ms, j), lim)
      {
        if j > 0 {
          DropOldestTwice(ms, 1, j - 1);
        }
      }
    }
  }

  /** How many messages remain beside the system messages, and how many tokens in all. */
  predicate OverHistory(ms: History, lim: Limits) {
    lim.maxHistory > 0 && |NonSystemPart(ms)| > lim.maxHistory
  }

  predicate OverTokens(ms: History, lim: Limits) {
    lim.maxTokens > 0 && TotalTokens(ms) > lim.maxTokens
  }

  /**
   * The bounds in numbers: a message is dropped only while the rest is over one of the limits
   * that apply, and at the end it is over neither, or has only system messages.
   */
  lemma DropsOnlyOverLimit(ms: History, lim: Limits) returns (k: nat)
    ensures k <= |NonSystemPart(ms)| && Prune(ms, lim) == DropOldest(ms, k)
    ensures forall j: nat :: j < k ==> OverHistory(DropOldest(ms, j), lim) || OverTokens(DropOldest(ms, j), lim)
    ensures var left := Prune(ms, lim);
      (!OverHistory(left, lim) && !OverTokens(left, lim)) || NonSystemPart(left) == []
  {
    k := PruneKeepsLongestSuffix(ms, lim);
  }

  function Shifted(at: seq<nat>): seq<nat> {
    seq(|at|, i requires 0 <= i < |at| => at[i] + 1)
  }

  lemma EmbedsSkipping(part: History, whole: History, at: seq<nat>)
    requires whole != [] && Embeds(part, whole[1..], at)
    ensures Embeds(part, whole, Shifted(at))
  {
  }

  lemma EmbedsKeeping(part: History, whole: History, at: seq<nat>)
    requires whole != [] && Embeds(part, whole[1..], at)
    ensures Embeds([whole[0]] + part, whole, [0] + Shifted(at))
  {
  }

  lemma {:induction false} DropOldestEmbeds(ms: History, k: nat) returns (at: seq<nat>)
    ensures Embeds(DropOldest(ms, k), ms, at)
  {
    if ms == [] || k == 0 {
      at := seq(|ms|, i => i);
    } else if ms[0].role.System? {
      at := DropOldestEmbeds(ms[1..], k);
      EmbedsKeeping(DropOldest(ms[1..], k), ms, at);
      at := [0] + Shifted(at);
    } else {
      at := DropOldestEmbeds(ms[1..], k - 1);
      EmbedsSkipping(DropOldest(ms[1..], k - 1), ms, at);
      at := Shifted(at);
    }
  }

  /** Pruning reorders nothing and adds nothing. */
  lemma PruneKeepsOrder(ms: History, lim: Limits)
    ensures IsSubsequence(Prune(ms, lim), ms)
  {
    var k := PruneKeepsLongestSuffix(ms, lim);
    var at := DropOldestEmbeds(ms, k);
  }

  lemma MeetsPrefix(a: History, b: History, lim: Limits)
    requires Meets(a + b, lim)
    ensures Meets(a, lim)
  {
    SizesAppend(a, b);
  }

  /** Messages that were dropped once would be dropped again: pruning can be done at any time. */
  lemma {:induction false} PruneAppend(a: History, b: History, lim: Limits)
    ensures Prune(Prune(a, lim) + b, lim) == Prune(a + b, lim)
    decreases |NonSystemPart(a)|
  {
    if !Meets(a, lim) && NonSystemPart(a) != [] {
      DropOldestParts(a, 1);
      PruneAppend(DropOldest(a, 1), b, lim);
      if Meets(a + b, lim) {
        MeetsPrefix(a, b, lim);
      }
      SizesAppend(a, b);
      DropOldestAppend(a, b);
    }
  }

  /** The history after appending batch after batch and pruning after each. */
  function Online(batches: seq<History>, lim: Limits): History {
    if batches == [] then [] else Prune(Online(DropLast(batches), lim) + Last(batches), lim)
  }

  function Flatten(batches: seq<History>): History {
    if batches == [] then [] else Flatten(DropLast(batches)) + Last(batches)
  }

  /** Pruning at every append leaves what pruning the whole log once would leave. */
  lemma {:induction false} OnlineIsOffline(batches: seq<History>, lim: Limits)
    ensures Online(batches, lim) == Prune(Flatten(batches), lim)
  {
    if batches == [] {
    } else {
      OnlineIsOffline(DropLast(batches), lim);
      PruneAppend(Flatten(DropLast(batches)), Last(batches), lim);
    }
  }

  // The loops of the source.

  /** The positions of the messages that are not system messages, in order. */
  function Indices(ms: History, start: nat): seq<nat>
    requires start <= |ms|
    decreases |ms| - start
  {
    if start == |ms| then []
    else if ms[start].role.System? then Indices(ms, start + 1)
    else [start] + Indices(ms, start + 1)
  }

  lemma {:induction false} IndicesLength(ms: History, start: nat)
    requires start <= |ms|
    ensures |Indices(ms, start)| == |NonSystemPart(ms[start..])|
    decreases |ms| - start
  {
    if start == |ms| {
    } else {
      IndicesLength(ms, start + 1);
      assert ms[start..][1..] == ms[start + 1..];
    }
  }

  /** The positions of the non-system messages, and no others. */
  lemma {:induction false} IndicesAreExact(ms: History, start: nat, i: nat)
    requires start <= |ms|
    ensures i in Indices(ms, start) <==> start <= i < |ms| && !ms[i].role.System?
    decreases |ms| - start
  {
    if start == |ms| {
    } else {
      IndicesAreExact(ms, start + 1, i);
    }
  }

  lemma {:induction false} IndicesInOrder(ms: History, start: nat, j: nat, k: nat)
    requires start <= |ms| && j < k < |Indices(ms, start)|
    ensures Indices(ms, start)[j] < Indices(ms, start)[k]
    decreases |ms| - start
  {
    IndicesAbove(ms, start + 1);
    if ms[start].role.System? {
      IndicesInOrder(ms, start + 1, j, k);
    } else if j > 0 {
      IndicesInOrder(ms, start + 1, j - 1, k - 1);
    }
  }

  lemma {:induction false} IndicesSnoc(ms: History, start: nat, m: Message)
    requires start <= |ms|
    ensures Indices(ms + [m], start) == Indices(ms, start) + (if m.role.System? then [] else [|ms|])
    decreases |ms| - start
  {
    if start == |ms| {
      assert Indices(ms + [m], |ms| + 1) == [];
    } else {
      IndicesSnoc(ms, start + 1, m);
    }
  }

  method NonSystemIndices(ms: History) returns (out: seq<nat>)
    ensures out == Indices(ms, 0)
    ensures forall i: nat :: i in out <==> i < |ms| && !ms[i].role.System?
    ensures forall j, k :: 0 <= j < k < |out| ==> out[j] < out[k]
  {
    out := [];
    var i := 0;
    while i < |ms|
      invariant 0 <= i <= |ms|
      invariant out == Indices(ms[..i], 0)
    {
      assert ms[..i + 1] == ms[..i] + [ms[i]];
      IndicesSnoc(ms[..i], 0, ms[i]);
      if !ms[i].role.System? {
        out := out + [i];
      }
      i := i + 1;
    }
    assert ms[..i] == ms;
    forall i: nat
      ensures i in out <==> i < |ms| && !ms[i].role.System?
    {
      IndicesAreExact(ms, 0, i);
    }
    forall j, k | 0 <= j < k < |out|
      ensures out[j] < out[k]
    {
      IndicesInOrder(ms, 0, j, k);
    }
  }

  /** `ms` from position `start` on without the positions in `drop`. */
  function Without(ms: History, drop: set<nat>, start: nat): History
    requires start <= |ms|
    decreases |ms| - start
  {
    if start == |ms| then []
    else (if start in drop then [] else [ms[start]]) + Without(ms, drop, start + 1)
  }

  lemma {:induction false} IndicesAbove(ms: History, start: nat)
    requires start <= |ms|
    ensures forall k :: 0 <= k < |Indices(ms, start)| ==> start <= Indices(ms, start)[k]
    decreases |ms| - start
  {
    if start == |ms| {
    } else {
      IndicesAbove(ms, start + 1);
    }
  }

  lemma {:induction false} WithoutIsDropOldest(ms: History, drop: set<nat>, start: nat, k: nat)
    requires start <= |ms| && k <= |Indices(ms, start)|
    requires forall i :: start <= i < |ms| ==> (i in drop <==> i in Indices(ms, start)[..k])
    ensures Without(ms, drop, start) == DropOldest(ms[start..], k)
    decreases |ms| - start
  {
    if start == |ms| {
    } else {
      IndicesAbove(ms, start + 1);
      assert ms[start..][1..] == ms[start + 1..] && ms[start..] == [ms[start]] + ms[start + 1..];
      var here := Indices(ms, start);
      var rest := Indices(ms, start + 1);
      assert start !in rest[..if k <= |rest| then k else 0];
      if ms[start].role.System? {
        WithoutIsDropOldest(ms, drop, start + 1, k);
      } else if k == 0 {
        WithoutIsDropOldest(ms, drop, start + 1, 0);
      } else {
        assert here[..k] == [start] + rest[..k - 1];
        WithoutIsDropOldest(ms, drop, start + 1, k - 1);
      }
    }
  }

  lemma {:induction false} WithoutSnoc(ms: History, m: Message, drop: set<nat>, start: nat)
    requires start <= |ms|
    ensures Without(ms + [m], drop, start) == Without(ms, drop, start) + (if |ms| in drop then [] else [m])
    decreases |ms| - start
  {
    if start == |ms| {
      assert Without(ms + [m], drop, |ms| + 1) == [];
    } else {
      WithoutSnoc(ms, m, drop, start + 1);
      var here := if start in drop then [] else [ms[start]];
      var rest, tail := Without(ms, drop, start + 1), if |ms| in drop then [] else [m];
      assert here + (rest + tail) == (here + rest) + tail;
    }
  }

  method Filtered(ms: History, drop: set<nat>) returns (filtered: History)
    ensures filtered == Without(ms, drop, 0)
  {
    filtered := [];
    var i := 0;
    while i < |ms|
      invariant 0 <= i <= |ms|
      invariant filtered == Without(ms[..i], drop, 0)
    {
      assert ms[..i + 1] == ms[..i] + [ms[i]];
      WithoutSnoc(ms[..i], ms[i], drop, 0);
      if i !in drop {
        filtered := filtered + [ms[i]];
      }
      i := i + 1;
    }
    assert ms[..i] == ms;
  }

  method PruneByHistory(ms: History, maxHistory: int) returns (out: History)
    ensures var n := |NonSystemPart(ms)|;
      out == DropOldest(ms, if 0 < maxHistory < n then n - maxHistory else 0)
  {
    if maxHistory <= 0 {
      return ms;
    }
    var nonSystem := NonSystemIndices(ms);
    IndicesLength(ms, 0);
    assert ms[0..] == ms;
    if |nonSystem| <= maxHistory {
      return ms;
    }
    var toDrop := |nonSystem| - maxHistory;
    var drop: set<nat> := {};
    var i := 0;
    while i < toDrop
      invariant 0 <= i <= toDrop
      invariant forall x :: x in drop <==> x in nonSystem[..i]
    {
      assert nonSystem[..i + 1] == nonSystem[..i] + [nonSystem[i]];
      drop := drop + {nonSystem[i]};
      i := i + 1;
    }
    out := Filtered(ms, drop);
    WithoutIsDropOldest(ms, drop, 0, toDrop);
  }

  lemma TotalSnoc(ms: History, i: nat)
    requires i < |ms|
    ensures TotalTokens(ms[..i + 1]) == TotalTokens(ms[..i]) + TokensOf(ms[i])
  {
    assert ms[..i + 1] == ms[..i] + [ms[i]];
    SizesAppend(ms[..i], [ms[i]]);
    assert [ms[i]][1..] == [];
  }

  method EstimateMessagesTokens(ms: History) returns (total: nat)
    ensures total == TotalTokens(ms)
  {
    total := 0;
    var i := 0;
    while i < |ms|
      invariant 0 <= i <= |ms|
      invariant total == TotalTokens(ms[..i])
    {
      var n := EstimateMessageTokens(ms[i]);
      TotalSnoc(ms, i);
      total := total + n;
      i := i + 1;
    }
    assert ms[..i] == ms;
  }

  method PruneByTokens(ms: History, maxTokens: int) returns (out: History)
    ensures out == Prune(ms, Limits(0, maxTokens))
  {
    out := ms;
    if maxTokens <= 0 {
      return;
    }
    while true
      invariant Prune(out, Limits(0, maxTokens)) == Prune(ms, Limits(0, maxTokens))
      decreases |NonSystemPart(out)|
    {
      var total := EstimateMessagesTokens(out);
      if total <= maxTokens {
        return;
      }
      var nonSystem := NonSystemIndices(out);
      IndicesLength(out, 0);
      assert out[0..] == out;
      if |nonSystem| == 0 {
        return;
      }
      var filtered := Filtered(out, {nonSystem[0]});
      WithoutIsDropOldest(out, {nonSystem[0]}, 0, 1);
      DropOldestParts(out, 1);
      out := filtered;
    }
  }

  /** Meeting the history limit first and the token limit then is meeting both. */
  lemma {:induction false} HistoryThenTokens(ms: History, lim: Limits)
    requires lim.maxHistory > 0
    ensures var n := |NonSystemPart(ms)|;
      Prune(DropOldest(ms, if lim.maxHistory < n then n - lim.maxHistory else 0), Limits(0, lim.maxTokens))
      == Prune(ms, lim)
    decreases |NonSystemPart(ms)|
  {
    var n := |NonSystemPart(ms)|;
    if lim.maxHistory < n {
      DropOldestParts(ms, 1);
      HistoryThenTokens(DropOldest(ms, 1), lim);
      DropOldestTwice(ms, 1, n - lim.maxHistory - 1);
    } else {
      SameOnceHistoryMet(ms, lim);
    }
  }

  lemma {:induction false} SameOnceHistoryMet(ms: History, lim: Limits)
    requires |NonSystemPart(ms)| <= lim.maxHistory
    ensures Prune(ms, Limits(0, lim.maxTokens)) == Prune(ms, lim)
    decreases |NonSystemPart(ms)|
  {
    if !Meets(ms, lim) && NonSystemPart(ms) != [] {
      DropOldestParts(ms, 1);
      SameOnceHistoryMet(DropOldest(ms, 1), lim);
    }
  }

  method PruneMessages(ms: History, lim: Limits) returns (out: History)
    ensures out == Prune(ms, lim)
  {
    if lim.maxHistory <= 0 && lim.maxTokens <= 0 {
      return ms;
    }
    if |ms| == 0 {
      return ms;
    }
    out := ms;
    if lim.maxHistory > 0 {
      out := PruneByHistory(out, lim.maxHistory);
      HistoryThenTokens(ms, lim);
    }
    if lim.maxTokens > 0 {
      out := PruneByTokens(out, lim.maxTokens);
    }
    if lim.maxHistory <= 0 {
      SameWithoutHistory(ms, lim);
    }
  }

  lemma {:induction false} SameWithoutHistory(ms: History, lim: Limits)
    requires lim.maxHistory <= 0
    ensures Prune(ms, Limits(0, lim.maxTokens)) == Prune(ms, lim)
    decreases |NonSystemPart(ms)|
  {
    if !Meets(ms, lim) && NonSystemPart(ms) != [] {
      DropOldestParts(ms, 1);
      SameWithoutHistory(DropOldest(ms, 1), lim);
    }
  }
}
