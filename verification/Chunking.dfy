/**
 * Turning the model's token stream into text frames. Tokens are collected until a chunk
 * has at least 120 bytes; a character stands for a byte here.
 */
module Chunking {
  import opened Base

  const MIN_CHUNK_LEN := 120

  datatype TextFrame = TextFrame(text: string, flush: bool)

  function Concat(tokens: seq<string>): string {
    if tokens == [] then "" else Concat(DropLast(tokens)) + Last(tokens)
  }

  function Flatten(groups: seq<seq<string>>): seq<string> {
    if groups == [] then [] else groups[0] + Flatten(groups[1..])
  }

  /** A chunk that is sent early: long enough, but not before its last token came. */
  predicate FullChunk(group: seq<string>) {
    group != [] && |Concat(group)| >= MIN_CHUNK_LEN && |Concat(DropLast(group))| < MIN_CHUNK_LEN
  }

  /** A division of the tokens into full chunks and one final chunk that is not full. */
  predicate IsSplit(groups: seq<seq<string>>, tokens: seq<string>) {
    && groups != [] && Flatten(groups) == tokens
    && (forall i :: 0 <= i < |groups| - 1 ==> FullChunk(groups[i]))
    && |Concat(Last(groups))| < MIN_CHUNK_LEN
  }

  ghost predicate TextsOf(groups: seq<seq<string>>, texts: seq<string>) {
    |texts| == |groups| && forall i :: 0 <= i < |texts| ==> texts[i] == Concat(groups[i])
  }

  lemma {:induction false} ConcatAppend(a: seq<string>, b: seq<string>)
    ensures Concat(a + b) == Concat(a) + Concat(b)
  {
    if b == [] {
      assert a + b == a;
    } else {
      ConcatAppend(a, DropLast(b));
      assert DropLast(a + b) == a + DropLast(b) && Last(a + b) == Last(b);
      assert Concat(a) + Concat(DropLast(b)) + Last(b) == Concat(a) + (Concat(DropLast(b)) + Last(b));
    }
  }

  lemma {:induction false} FlattenSnoc(groups: seq<seq<string>>, group: seq<string>)
    ensures Flatten(groups + [group]) == Flatten(groups) + group
  {
    if groups == [] {
      assert ([group])[1..] == [];
    } else {
      FlattenSnoc(groups[1..], group);
      assert (groups + [group])[1..] == groups[1..] + [group];
    }
  }

  /** A division has a single group exactly when its first group is not full. */
  lemma FirstGroup(gs: seq<seq<string>>, tokens: seq<string>)
    requires IsSplit(gs, tokens)
    ensures gs[0] == tokens[..|gs[0]|] && Flatten(gs[1..]) == tokens[|gs[0]|..]
    ensures |gs| == 1 <==> |Concat(gs[0])| < MIN_CHUNK_LEN
    ensures |gs| == 1 ==> gs[0] == tokens
    ensures |gs| > 1 ==> FullChunk(gs[0]) && IsSplit(gs[1..], tokens[|gs[0]|..])
  {
    assert tokens == gs[0] + Flatten(gs[1..]);
    if |gs| > 1 {
      assert FullChunk(gs[0]) && Last(gs[1..]) == Last(gs);
    } else {
      assert Flatten(gs[1..]) == [];
    }
  }

  lemma FirstGroupLonger(gs: seq<seq<string>>, hs: seq<seq<string>>, tokens: seq<string>)
    requires IsSplit(gs, tokens) && IsSplit(hs, tokens)
    ensures |gs[0]| >= |hs[0]|
  {
    var g, h := gs[0], hs[0];
    FirstGroup(gs, tokens);
    FirstGroup(hs, tokens);
    if |g| < |h| {
      ConcatGrows(g, h);
    }
  }

  lemma ConcatGrows(g: seq<string>, h: seq<string>)
    requires g < h
    ensures |Concat(g)| <= |Concat(DropLast(h))| <= |Concat(h)|
  {
    var rest := DropLast(h)[|g|..];
    assert DropLast(h) == g + rest;
    ConcatAppend(g, rest);
  }

  /** There is only one way to divide a token stream. */
  lemma {:induction false} SplitIsUnique(gs: seq<seq<string>>, hs: seq<seq<string>>, tokens: seq<string>)
    requires IsSplit(gs, tokens) && IsSplit(hs, tokens)
    ensures gs == hs
    decreases |gs|
  {
    FirstGroupLonger(gs, hs, tokens);
    FirstGroupLonger(hs, gs, tokens);
    FirstGroup(gs, tokens);
    FirstGroup(hs, tokens);
    if |gs| > 1 {
      SplitIsUnique(gs[1..], hs[1..], tokens[|gs[0]|..]);
    }
    assert gs == [gs[0]] + gs[1..] && hs == [hs[0]] + hs[1..];
  }

  lemma {:induction false} TextConserved(groups: seq<seq<string>>, texts: seq<string>)
    requires TextsOf(groups, texts)
    ensures Concat(texts) == Concat(Flatten(groups))
  {
    if texts == [] {
    } else {
      TextConserved(DropLast(groups), DropLast(texts));
      FlattenSnoc(DropLast(groups), Last(groups));
      assert DropLast(groups) + [Last(groups)] == groups;
      ConcatAppend(Flatten(DropLast(groups)), Last(groups));
    }
  }

  /** The loop's state: the chunks sent early, and the one being filled. */
  datatype Progress = Progress(sent: seq<string>, chunk: string)

  function Scan(tokens: seq<string>): Progress {
    if tokens == [] then Progress([], "")
    else
      var before := Scan(DropLast(tokens));
      var chunk := before.chunk + Last(tokens);
      if |chunk| >= MIN_CHUNK_LEN then Progress(before.sent + [chunk], "") else Progress(before.sent, chunk)
  }

  /** The chunks sent hold the tokens of `groups`, and `chunk` those of `filling`. */
  ghost predicate Collected(groups: seq<seq<string>>, filling: seq<string>, tokens: seq<string>, p: Progress) {
    && Flatten(groups) + filling == tokens
    && TextsOf(groups, p.sent)
    && (forall k :: 0 <= k < |groups| ==> FullChunk(groups[k]))
    && p.chunk == Concat(filling) && |p.chunk| < MIN_CHUNK_LEN
  }

  lemma ChunkFilled(groups: seq<seq<string>>, filling: seq<string>, tokens: seq<string>, p: Progress, token: string)
    requires Collected(groups, filling, tokens, p) && |p.chunk + token| >= MIN_CHUNK_LEN
    ensures Collected(groups + [filling + [token]], [], tokens + [token], Progress(p.sent + [p.chunk + token], ""))
  {
    assert DropLast(filling + [token]) == filling;
    FlattenSnoc(groups, filling + [token]);
    assert Flatten(groups) + (filling + [token]) + [] == tokens + [token];
  }

  lemma {:induction false} ScanCollects(tokens: seq<string>) returns (groups: seq<seq<string>>, filling: seq<string>)
    ensures Collected(groups, filling, tokens, Scan(tokens))
  {
    if tokens == [] {
      groups, filling := [], [];
    } else {
      groups, filling := ScanCollects(DropLast(tokens));
      var before := Scan(DropLast(tokens));
      assert tokens == DropLast(tokens) + [Last(tokens)];
      if |before.chunk + Last(tokens)| >= MIN_CHUNK_LEN {
        ChunkFilled(groups, filling, DropLast(tokens), before, Last(tokens));
        groups, filling := groups + [filling + [Last(tokens)]], [];
      } else {
        assert DropLast(filling + [Last(tokens)]) == filling;
        filling := filling + [Last(tokens)];
      }
    }
  }

  /** The texts of the frames: the chunks sent early, and then what is left. */
  function ChunkTexts(tokens: seq<string>): seq<string> {
    Scan(tokens).sent + [Scan(tokens).chunk]
  }

  /** The texts follow the one division of the tokens into chunks, and lose nothing. */
  lemma ChunksSplitTheText(tokens: seq<string>) returns (groups: seq<seq<string>>)
    ensures IsSplit(groups, tokens) && TextsOf(groups, ChunkTexts(tokens))
    ensures Concat(ChunkTexts(tokens)) == Concat(tokens)
    ensures forall i :: 0 <= i < |groups| - 1 ==>
      groups[i] != [] && |ChunkTexts(tokens)[i]| >= 120 && |Concat(DropLast(groups[i]))| < 120
    ensures |Last(ChunkTexts(tokens))| < 120
  {
    var done, filling := ScanCollects(tokens);
    groups := done + [filling];
    FlattenSnoc(done, filling);
    assert Last(groups) == filling && forall i :: 0 <= i < |groups| - 1 ==> groups[i] == done[i];
    TextConserved(groups, ChunkTexts(tokens));
  }

  /**
   * The frames for a token stream, and the assistant message for the history. The last
   * frame is marked for flushing, an earlier one only if the source frame was.
   */
  method StreamToFrames(tokens: seq<string>, sourceFlush: bool) returns (out: seq<TextFrame>, full: string)
    ensures |out| == |ChunkTexts(tokens)|
    ensures forall k :: 0 <= k < |out| ==>
      out[k] == TextFrame(ChunkTexts(tokens)[k], sourceFlush || k == |out| - 1)
    ensures full == Concat(tokens)
  {
    out := [];
    full := "";
    var chunk := "";
    var i := 0;
    while i < |tokens|
      invariant 0 <= i <= |tokens|
      invariant full == Concat(tokens[..i])
      invariant chunk == Scan(tokens[..i]).chunk && |out| == |Scan(tokens[..i]).sent|
      invariant forall k :: 0 <= k < |out| ==> out[k] == TextFrame(Scan(tokens[..i]).sent[k], sourceFlush)
    {
      assert DropLast(tokens[..i + 1]) == tokens[..i] && Last(tokens[..i + 1]) == tokens[i];
      full := full + tokens[i];
      chunk := chunk + tokens[i];
      if |chunk| >= MIN_CHUNK_LEN {
        out := out + [TextFrame(chunk, sourceFlush)];
        chunk := "";
      }
      i := i + 1;
    }
    assert tokens[..i] == tokens;
    out := out + [TextFrame(chunk, true)];
  }
}
