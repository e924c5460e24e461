/** Datatypes and sequence facts shared by every component. */
module Base {

  datatype Option<+T> = None | Some(value: T)

  /** The payload of an option as a sequence of length zero or one. */
  function AsSeq<T>(o: Option<T>): seq<T> {
    match o
    case None => []
    case Some(v) => [v]
  }

  function Last<T>(s: seq<T>): T
    requires s != []
  {
    s[|s| - 1]
  }

  function DropLast<T>(s: seq<T>): seq<T>
    requires s != []
  {
    s[..|s| - 1]
  }

  /** Reading a missing key gives the empty string. */
  function Lookup(m: map<string, string>, key: string): string {
    if key in m then m[key] else ""
  }

  /** `part` is obtained from `whole` by deleting elements, keeping the order. */
  ghost predicate IsSubsequence<T(!new)>(part: seq<T>, whole: seq<T>) {
    exists at: seq<nat> :: Embeds(part, whole, at)
  }

  ghost predicate Embeds<T>(part: seq<T>, whole: seq<T>, at: seq<nat>) {
    && |at| == |part|
    && (forall k :: 0 <= k < |at| ==> at[k] < |whole| && whole[at[k]] == part[k])
    && (forall j, k :: 0 <= j < k < |at| ==> at[j] < at[k])
  }

  lemma PrefixTransitive<T>(a: seq<T>, b: seq<T>, c: seq<T>)
    requires a <= b && b <= c
    ensures a <= c
  {
    assert c[..|b|] == b;
  }
}

/** Sums over sequences, for counting threads at a program point and the like. */
module Counting {
  import opened Base

  function Sum<T>(s: seq<T>, weight: T -> nat): nat {
    if s == [] then 0 else Sum(DropLast(s), weight) + weight(Last(s))
  }

  lemma {:induction false} SumUpdate<T>(s: seq<T>, i: nat, y: T, weight: T -> nat)
    requires i < |s|
    ensures Sum(s[i := y], weight) == Sum(s, weight) - weight(s[i]) + weight(y)
  {
    if i == |s| - 1 {
      assert DropLast(s[i := y]) == DropLast(s);
    } else {
      SumUpdate(DropLast(s), i, y, weight);
      assert DropLast(s[i := y]) == DropLast(s)[i := y];
    }
  }

  lemma SumAppend<T>(s: seq<T>, y: T, weight: T -> nat)
    ensures Sum(s + [y], weight) == Sum(s, weight) + weight(y)
  {
    assert DropLast(s + [y]) == s;
  }

  lemma {:induction false} SumZero<T>(s: seq<T>, weight: T -> nat)
    requires forall i :: 0 <= i < |s| ==> weight(s[i]) == 0
    ensures Sum(s, weight) == 0
  {
    if s == [] {
    } else {
      SumZero(DropLast(s), weight);
    }
  }

  lemma {:induction false} SumHead<T>(s: seq<T>, weight: T -> nat)
    requires s != []
    ensures Sum(s, weight) == weight(s[0]) + Sum(s[1..], weight)
  {
    if |s| == 1 {
      assert DropLast(s) == [] && s[1..] == [];
    } else {
      SumHead(DropLast(s), weight);
      assert DropLast(s)[1..] == DropLast(s[1..]);
    }
  }

  function Is<T(==)>(x: T): T -> nat {
    y => if y == x then 1 else 0
  }

  /** How often `x` occurs. */
  function CountOf<T(==)>(s: seq<T>, x: T): nat {
    Sum(s, Is(x))
  }

  lemma CountUpdate<T>(s: seq<T>, i: nat, x: T, y: T)
    requires i < |s|
    ensures CountOf(s[i := y], x)
         == CountOf(s, x) - (if s[i] == x then 1 else 0) + (if y == x then 1 else 0)
  {
    SumUpdate(s, i, y, Is(x));
  }

  lemma CountAppend<T>(s: seq<T>, y: T, x: T)
    ensures CountOf(s + [y], x) == CountOf(s, x) + (if y == x then 1 else 0)
  {
    SumAppend(s, y, Is(x));
  }

  lemma CountHead<T>(s: seq<T>, x: T)
    requires s != []
    ensures CountOf(s, x) == (if s[0] == x then 1 else 0) + CountOf(s[1..], x)
  {
    SumHead(s, Is(x));
  }

  lemma CountAbsent<T>(s: seq<T>, x: T)
    requires forall i :: 0 <= i < |s| ==> s[i] != x
    ensures CountOf(s, x) == 0
  {
    SumZero(s, Is(x));
  }
}
