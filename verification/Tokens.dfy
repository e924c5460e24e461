/**
 * Splitting text into tokens, and the token estimate of a message. A token is a longest run
 * of lower-case ASCII letters and digits; every other character separates. The estimate
 * does not fold case, so upper-case letters separate as well.
 */
module Tokens {
  import opened Base

  predicate IsTokenChar(c: char) {
    'a' <= c <= 'z' || '0' <= c <= '9'
  }

  predicate EndsInToken(s: string) {
    s != "" && IsTokenChar(Last(s))
  }

  function SplitTokens(s: string): (tokens: seq<string>)
    ensures EndsInToken(s) ==> tokens != []
  {
    if s == "" then []
    else
      Grown(SplitTokens(DropLast(s)), EndsInToken(DropLast(s)), Last(s))
  }

  function Join(parts: seq<string>): string {
    if parts == [] then ""
    else if |parts| == 1 then parts[0]
    else Join(DropLast(parts)) + " " + Last(parts)
  }

  /** A separator cuts cleanly: no token spans it and none is lost. */
  lemma {:induction false} SplitAtSeparator(a: string, sep: char, b: string)
    requires !IsTokenChar(sep)
    ensures SplitTokens(a + [sep] + b) == SplitTokens(a) + SplitTokens(b)
    ensures EndsInToken(a + [sep] + b) == EndsInToken(b)
  {
    var whole := a + [sep] + b;
    if b == "" {
      assert DropLast(whole) == a;
      assert SplitTokens(a) + [] == SplitTokens(a);
    } else {
      SplitAtSeparator(a, sep, DropLast(b));
      assert DropLast(whole) == a + [sep] + DropLast(b) && Last(whole) == Last(b);
      GrowLast(SplitTokens(a), SplitTokens(DropLast(b)), Last(b));
    }
  }

  /** What the next character does to the list of tokens. */
  function Grown(before: seq<string>, inToken: bool, c: char): seq<string>
    requires inToken ==> before != []
  {
    if !IsTokenChar(c) then before
    else if inToken then before[|before| - 1 := Last(before) + [c]]
    else before + [[c]]
  }

  lemma GrowLast(front: seq<string>, before: seq<string>, c: char)
    ensures before != [] ==> Grown(front + before, true, c) == front + Grown(before, true, c)
    ensures Grown(front + before, false, c) == front + Grown(before, false, c)
  {
  }

  /** A word without separators is one token. */
  lemma {:induction false} OneToken(word: string)
    requires word != "" && forall i :: 0 <= i < |word| ==> IsTokenChar(word[i])
    ensures SplitTokens(word) == [word]
  {
    if |word| == 1 {
      assert DropLast(word) == "" && [Last(word)] == word;
    } else {
      OneToken(DropLast(word));
      assert DropLast(word) + [Last(word)] == word;
    }
  }

  lemma TokenCharCodes(c: char)
    ensures IsTokenChar(c) <==> 97 <= c as int <= 122 || 48 <= c as int <= 57
  {
  }

  function Concat(parts: seq<string>): string {
    if parts == [] then "" else Concat(DropLast(parts)) + Last(parts)
  }

  /** The letters and digits of a text, without what separates them. */
  function TokenCharsOf(s: string): string {
    if s == "" then "" else TokenCharsOf(DropLast(s)) + (if IsTokenChar(Last(s)) then [Last(s)] else [])
  }

  lemma ConcatGrown(before: seq<string>, inToken: bool, c: char)
    requires inToken ==> before != []
    ensures Concat(Grown(before, inToken, c)) == Concat(before) + (if IsTokenChar(c) then [c] else [])
  {
    var after := Grown(before, inToken, c);
    if !IsTokenChar(c) {
      assert Concat(before) + [] == Concat(before);
    } else if inToken {
      assert DropLast(after) == DropLast(before);
      assert Concat(DropLast(before)) + (Last(before) + [c]) == Concat(before) + [c];
    } else {
      assert DropLast(after) == before;
    }
  }

  /** The tokens, one after the other, are the letters and digits of the text, and none is empty. */
  lemma {:induction false} TokensLoseNothing(s: string)
    ensures Concat(SplitTokens(s)) == TokenCharsOf(s)
    ensures forall i :: 0 <= i < |SplitTokens(s)| ==> SplitTokens(s)[i] != ""
  {
    if s == "" {
    } else {
      TokensLoseNothing(DropLast(s));
      ConcatGrown(SplitTokens(DropLast(s)), EndsInToken(DropLast(s)), Last(s));
    }
  }

  datatype Role = System | User | Assistant | Tool

  /** `parts` holds the text of each content part; an image part has none. */
  datatype Message = Message(role: Role, content: Option<string>, parts: seq<Option<string>>)

  function Texts(parts: seq<Option<string>>): seq<string> {
    if parts == [] then [] else Texts(DropLast(parts)) + AsSeq(Last(parts))
  }

  function SumTokens(texts: seq<string>): nat {
    if texts == [] then 0 else SumTokens(DropLast(texts)) + |SplitTokens(Last(texts))|
  }

  /** The tokens of a message, counted text by text. */
  function TokensOf(m: Message): nat {
    SumTokens(AsSeq(m.content) + Texts(m.parts))
  }

  /** Token counts are additive over joining with a space. */
  lemma {:induction false} JoinedTokens(texts: seq<string>)
    ensures |SplitTokens(Join(texts))| == SumTokens(texts)
  {
    if |texts| == 1 {
      assert DropLast(texts) == [];
    } else if |texts| > 1 {
      JoinedTokens(DropLast(texts));
      SplitAtSeparator(Join(DropLast(texts)), ' ', Last(texts));
    }
  }

  /** The estimate joins all texts of the message and splits the result once. */
  method EstimateMessageTokens(m: Message) returns (n: nat)
    ensures n == TokensOf(m)
  {
    var texts: seq<string> := AsSeq(m.content);
    var i := 0;
    while i < |m.parts|
      invariant 0 <= i <= |m.parts|
      invariant texts == AsSeq(m.content) + Texts(m.parts[..i])
    {
      assert DropLast(m.parts[..i + 1]) == m.parts[..i];
      if m.parts[i].Some? {
        texts := texts + [m.parts[i].value];
      }
      i := i + 1;
    }
    assert m.parts[..i] == m.parts;
    JoinedTokens(texts);
    n := |SplitTokens(Join(texts))|;
  }
}
