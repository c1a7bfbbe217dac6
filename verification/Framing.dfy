/**
 Cutting a growing byte buffer into blocks at each blank line.

 Both stream parsers of the gateway run the same outer loop: append the new bytes, look for
 the first "\n\n", cut the block in front of it, erase it from the buffer, repeat. They differ
 only in what a block means, so the loop's result is stated once, for any meaning `interp`.
 A byte is a `char`: the parsers only ever compare bytes for equality.
 */
module Framing {
  import opened Basics
  import opened Seqs

  /** Positions i and i+1 of s hold the two line feeds that end a block. */
  predicate BreakAt(s: string, i: int) {
    0 <= i < |s| - 1 && s[i] == '\n' && s[i + 1] == '\n'
  }

  ghost predicate HasBreak(s: string) {
    exists i :: BreakAt(s, i)
  }

  /** A block the loop can cut: it holds no break, and no break straddles its end. */
  ghost predicate Clean(block: string) {
    !HasBreak(block) && (block != "" ==> block[|block| - 1] != '\n')
  }

  ghost predicate AllClean(blocks: seq<string>) {
    forall b :: b in blocks ==> Clean(b)
  }

  /** `std::string::find("\n\n", from)`. */
  function FindBreak(s: string, from: nat): (p: Option<nat>)
    requires from <= |s|
    ensures p.Some? ==> from <= p.value && BreakAt(s, p.value) && forall i :: from <= i < p.value ==> !BreakAt(s, i)
    ensures p.None? ==> forall i :: from <= i ==> !BreakAt(s, i)
    decreases |s| - from
  {
    if from == |s| then None
    else if BreakAt(s, from) then Some(from)
    else FindBreak(s, from + 1)
  }

  /** What the loop makes of a buffer: the blocks it cuts, and the bytes it keeps. */
  datatype Framed = Framed(blocks: seq<string>, rest: string)

  function Frame(s: string): Framed
    decreases |s|
  {
    match FindBreak(s, 0)
    case None => Framed([], s)
    case Some(p) =>
      var tail := Frame(s[p + 2..]);
      Framed([s[..p]] + tail.blocks, tail.rest)
  }

  /** The bytes of one block. */
  function Bytes(block: string): string {
    block + "\n\n"
  }

  /** Writes blocks back as bytes. */
  function Join(blocks: seq<string>): string {
    if blocks == [] then "" else Bytes(blocks[0]) + Join(blocks[1..])
  }

  lemma {:induction false} JoinAppend(a: seq<string>, b: seq<string>)
    ensures Join(a + b) == Join(a) + Join(b)
  {
    if a == [] {
      Nil(b);
      Nil(Join(b));
    } else {
      HeadTail(a, b);
      JoinAppend(a[1..], b);
      Assoc(Bytes(a[0]), Join(a[1..]), Join(b));
    }
  }

  lemma CutBytes(s: string, p: nat)
    requires BreakAt(s, p)
    ensures Bytes(s[..p]) + s[p + 2..] == s
  {
    assert s[p..][..2] == "\n\n";
    assert s[p..][2..] == s[p + 2..];
    SplitAt(s[p..], 2);
    Assoc(s[..p], "\n\n", s[p + 2..]);
    SplitAt(s, p);
  }

  /** Cutting at the first break: the block is clean, and writing it back restores the bytes. */
  lemma CutIsClean(s: string, p: nat)
    requires FindBreak(s, 0) == Some(p)
    ensures p + 2 <= |s| && Clean(s[..p]) && Bytes(s[..p]) + s[p + 2..] == s
  {
    CutBytes(s, p);
    forall i
      ensures !BreakAt(s[..p], i)
    {
      assert 0 <= i < p ==> !BreakAt(s, i);
    }
    assert 0 < p ==> !BreakAt(s, p - 1);
  }

  /** No byte is lost, and what is cut and kept has the shape of blocks and remainder. */
  lemma {:induction false} FrameSound(s: string)
    ensures Join(Frame(s).blocks) + Frame(s).rest == s
    ensures AllClean(Frame(s).blocks) && !HasBreak(Frame(s).rest)
    decreases |s|
  {
    match FindBreak(s, 0)
    case None =>
      Nil(s);
    case Some(p) =>
      CutIsClean(s, p);
      var block, tail := s[..p], Frame(s[p + 2..]);
      FrameSound(s[p + 2..]);
      HeadTail([block], tail.blocks);
      Assoc(Bytes(block), Join(tail.blocks), tail.rest);
  }

  /** The first break of a clean block followed by "\n\n" is the one that ends the block. */
  lemma FirstBreak(block: string, t: string)
    requires Clean(block)
    ensures FindBreak(Bytes(block) + t, 0) == Some(|block|)
  {
    var s := Bytes(block) + t;
    assert BreakAt(s, |block|);
    forall i | 0 <= i < |block|
      ensures !BreakAt(s, i)
    {
      assert !BreakAt(block, i);
    }
  }

  lemma FrameCons(block: string, t: string)
    requires Clean(block)
    ensures Frame(Bytes(block) + t) == Framed([block] + Frame(t).blocks, Frame(t).rest)
  {
    FirstBreak(block, t);
    DropAppend(Bytes(block), t);
    assert (Bytes(block) + t)[..|block|] == block;
  }

  lemma FrameRest(rest: string)
    requires !HasBreak(rest)
    ensures Frame(rest) == Framed([], rest)
  {}

  lemma {:induction false} FrameComplete(blocks: seq<string>, rest: string)
    requires AllClean(blocks) && !HasBreak(rest)
    ensures Frame(Join(blocks) + rest) == Framed(blocks, rest)
  {
    if blocks == [] {
      Nil(rest);
      FrameRest(rest);
    } else {
      FrameComplete(blocks[1..], rest);
      FrameCons(blocks[0], Join(blocks[1..]) + rest);
      Assoc(Bytes(blocks[0]), Join(blocks[1..]), rest);
      Uncons(blocks);
    }
  }

  /** Byte conservation and unique framing: the loop finds the one decomposition there is. */
  lemma {:induction false} UniqueFraming(s: string, blocks: seq<string>, rest: string)
    ensures Frame(s) == Framed(blocks, rest)
       <==> Join(blocks) + rest == s && AllClean(blocks) && !HasBreak(rest)
  {
    FrameSound(s);
    if Join(blocks) + rest == s && AllClean(blocks) && !HasBreak(rest) {
      FrameComplete(blocks, rest);
    }
  }

  /** Framing what arrived, then the remainder with what comes next, is framing everything. */
  lemma FrameAppend(s: string, t: string)
    ensures var f, g := Frame(s), Frame(Frame(s).rest + t);
      Frame(s + t) == Framed(f.blocks + g.blocks, g.rest)
  {
    var f, g := Frame(s), Frame(Frame(s).rest + t);
    FrameSound(s);
    FrameSound(f.rest + t);
    JoinAppend(f.blocks, g.blocks);
    Assoc(Join(f.blocks), f.rest, t);
    Assoc(Join(f.blocks), Join(g.blocks), g.rest);
    FrameComplete(f.blocks + g.blocks, g.rest);
  }

  /** The blocks of a prefix are the first blocks of the whole. */
  lemma PrefixFrame(s: string, n: nat)
    requires n <= |s|
    ensures Frame(s[..n]).blocks <= Frame(s).blocks
  {
    FrameAppend(s[..n], s[n..]);
    SplitAt(s, n);
  }

  /** What one block means to a parser. */
  datatype Outcome = Text(text: string) | Done | Skip

  function TextOf(o: Outcome): seq<string> {
    if o.Text? then [o.text] else []
  }

  function Texts(interp: string -> Outcome, blocks: seq<string>): seq<string> {
    if blocks == [] then []
    else TextOf(interp(blocks[0])) + Texts(interp, blocks[1..])
  }

  /** The texts are those of exactly the blocks that have one, in order: `idx` says which. */
  lemma {:induction false} TextsAt(interp: string -> Outcome, blocks: seq<string>) returns (idx: seq<nat>)
    ensures Positions(idx, |blocks|) && |idx| == |Texts(interp, blocks)|
    ensures forall k :: 0 <= k < |idx| ==> interp(blocks[idx[k]]) == Text(Texts(interp, blocks)[k])
    ensures forall i :: 0 <= i < |blocks| && interp(blocks[i]).Text? ==> i in idx
  {
    if blocks == [] {
      idx := [];
    } else {
      var init, b := Front(blocks), Last(blocks);
      assert blocks == init + [b];
      TextsAppend(interp, init, [b]);
      Nil(TextOf(interp(b)));
      assert Texts(interp, [b]) == TextOf(interp(b)) + Texts(interp, [b][1..]);
      idx := TextsAt(interp, init);
      if interp(b).Text? {
        idx := idx + [|init|];
      }
    }
  }

  predicate SawDone(interp: string -> Outcome, blocks: seq<string>) {
    exists i | 0 <= i < |blocks| :: interp(blocks[i]).Done?
  }

  lemma {:induction false} TextsAppend(interp: string -> Outcome, a: seq<string>, b: seq<string>)
    ensures Texts(interp, a + b) == Texts(interp, a) + Texts(interp, b)
  {
    if a == [] {
      Nil(b);
      Nil(Texts(interp, b));
    } else {
      HeadTail(a, b);
      TextsAppend(interp, a[1..], b);
      Assoc(TextOf(interp(a[0])), Texts(interp, a[1..]), Texts(interp, b));
    }
  }

  lemma SawDoneAppend(interp: string -> Outcome, a: seq<string>, b: seq<string>)
    ensures SawDone(interp, a + b) <==> SawDone(interp, a) || SawDone(interp, b)
  {
    if SawDone(interp, b) {
      var i :| 0 <= i < |b| && interp(b[i]).Done?;
      assert (a + b)[|a| + i] == b[i];
    }
    if SawDone(interp, a) {
      var i :| 0 <= i < |a| && interp(a[i]).Done?;
      assert (a + b)[i] == a[i];
    }
  }

  /** Bookkeeping for one more block cut off the front of what is left. */
  lemma CutOne(interp: string -> Outcome, cut: seq<string>, block: string, left: seq<string>)
    ensures cut + ([block] + left) == (cut + [block]) + left
    ensures Texts(interp, cut + [block]) == Texts(interp, cut) + TextOf(interp(block))
    ensures SawDone(interp, cut + [block]) <==> SawDone(interp, cut) || interp(block).Done?
  {
    Assoc(cut, [block], left);
    TextsAppend(interp, cut, [block]);
    Nil(TextOf(interp(block)));
    SawDoneAppend(interp, cut, [block]);
  }

  /** The two fields both parsers keep between calls. */
  datatype Parser = Parser(buffer: string, done: bool)
  {
    ghost predicate Valid() { !HasBreak(buffer) }
  }

  const FRESH := Parser("", false)

  datatype Fed = Fed(parser: Parser, texts: seq<string>)

  /** One call of `feed`. */
  function Feed(interp: string -> Outcome, p: Parser, raw: string): Fed {
    var f := Frame(p.buffer + raw);
    Fed(Parser(f.rest, p.done || SawDone(interp, f.blocks)), Texts(interp, f.blocks))
  }

  /** A call of `feed` for each chunk; the texts of all calls in order. */
  function FeedAll(interp: string -> Outcome, p: Parser, chunks: seq<string>): Fed
    decreases |chunks|
  {
    if chunks == [] then Fed(p, [])
    else
      var first := Feed(interp, p, chunks[0]);
      var others := FeedAll(interp, first.parser, chunks[1..]);
      Fed(others.parser, first.texts + others.texts)
  }

  function Concat(chunks: seq<string>): string {
    if chunks == [] then "" else chunks[0] + Concat(chunks[1..])
  }

  lemma FeedAppend(interp: string -> Outcome, p: Parser, s: string, t: string)
    ensures var first := Feed(interp, p, s);
      var second := Feed(interp, first.parser, t);
      Feed(interp, p, s + t) == Fed(second.parser, first.texts + second.texts)
  {
    FrameAppend(p.buffer + s, t);
    Assoc(p.buffer, s, t);
    var f := Frame(p.buffer + s);
    var g := Frame(f.rest + t);
    TextsAppend(interp, f.blocks, g.blocks);
    SawDoneAppend(interp, f.blocks, g.blocks);
  }

  lemma FeedKeepsValid(interp: string -> Outcome, p: Parser, raw: string)
    ensures Feed(interp, p, raw).parser.Valid()
  {
    FrameSound(p.buffer + raw);
  }

  lemma {:induction false} FeedAllIsFeed(interp: string -> Outcome, p: Parser, chunks: seq<string>)
    requires p.Valid()
    ensures FeedAll(interp, p, chunks) == Feed(interp, p, Concat(chunks))
    decreases |chunks|
  {
    if chunks == [] {
      Nil(p.buffer);
      FrameRest(p.buffer);
    } else {
      FeedKeepsValid(interp, p, chunks[0]);
      FeedAllIsFeed(interp, Feed(interp, p, chunks[0]).parser, chunks[1..]);
      FeedAppend(interp, p, chunks[0], Concat(chunks[1..]));
    }
  }

  /** Split independence: only the bytes count, not how they were cut into chunks. */
  lemma {:induction false} SplitIndependence(interp: string -> Outcome, p: Parser, a: seq<string>, b: seq<string>)
    requires p.Valid()
    requires Concat(a) == Concat(b)
    ensures FeedAll(interp, p, a) == FeedAll(interp, p, b)
  {
    FeedAllIsFeed(interp, p, a);
    FeedAllIsFeed(interp, p, b);
  }
}
