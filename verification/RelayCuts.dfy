/**
 How much the client's reply depends on the way curl cut the upstream bytes, for every upstream stream:
 in the calls of the user callback, and in the bytes on the wire.
 */
module RelayCuts {
  import opened Seqs
  import opened Framing
  import opened Sse
  import opened Relay

  const END := [Post("", true)]

  /** The chunks curl may deliver for the bytes s. */
  ghost predicate IsCut(chunks: seq<string>, s: string) {
    Concat(chunks) == s && "" !in chunks
  }

  lemma ConcatOne(a: string)
    ensures Concat([a]) == a
  {
    assert [a][1..] == [];
    Nil(a);
  }

  lemma ConcatTwo(a: string, b: string)
    ensures Concat([a, b]) == a + b
  {
    assert [a, b][1..] == [b];
    ConcatOne(b);
  }

  lemma PostsOfOne(interp: string -> Outcome, p: Parser, raw: string)
    ensures AllPosts(interp, p, [raw]) == Posts(Feed(interp, p, raw))
  {
    assert [raw][1..] == [];
    Nil(Posts(Feed(interp, p, raw)));
  }

  lemma PostsOfTwo(interp: string -> Outcome, a: string, b: string)
    ensures var first := Feed(interp, FRESH, a);
      AllPosts(interp, FRESH, [a, b]) == Posts(first) + Posts(Feed(interp, first.parser, b))
  {
    assert [a, b][1..] == [b];
    PostsOfOne(interp, Feed(interp, FRESH, a).parser, b);
  }

  lemma {:induction false} ContentPostsLength(contents: seq<string>)
    ensures |ContentPosts(contents)| == |contents|
    ensures forall i :: 0 <= i < |contents| ==> ContentPosts(contents)[i] == Post(contents[i], false)
  {
    if contents != [] {
      ContentPostsLength(contents[1..]);
    }
  }

  // ---- Two cuts --------------------------------------------------------------------------

  /** The bytes of the blocks up to and including block k, and the bytes after it. */
  function UpTo(s: string, k: nat): string
    requires k < |Frame(s).blocks|
  {
    Join(Frame(s).blocks[..k + 1])
  }

  function After(s: string, k: nat): string
    requires k < |Frame(s).blocks|
  {
    Join(Frame(s).blocks[k + 1..]) + Frame(s).rest
  }

  lemma Halves(s: string, k: nat)
    requires k < |Frame(s).blocks|
    ensures UpTo(s, k) + After(s, k) == s && UpTo(s, k) != ""
    ensures Frame(UpTo(s, k)) == Framed(Frame(s).blocks[..k + 1], "")
    ensures Frame(After(s, k)) == Framed(Frame(s).blocks[k + 1..], Frame(s).rest)
  {
    var f := Frame(s);
    FrameSound(s);
    SplitAt(f.blocks, k + 1);
    JoinAppend(f.blocks[..k + 1], f.blocks[k + 1..]);
    Assoc(UpTo(s, k), Join(f.blocks[k + 1..]), f.rest);
    FrameComplete(f.blocks[..k + 1], "");
    Nil(UpTo(s, k));
    FrameComplete(f.blocks[k + 1..], f.rest);
  }

  /** All bytes at once. */
  lemma Whole(interp: string -> Outcome, s: string)
    requires s != ""
    ensures IsCut([s], s)
    ensures AllPosts(interp, FRESH, [s])
         == ContentPosts(Contents(interp, s)) + DonePosts(SawDone(interp, Frame(s).blocks))
  {
    ConcatOne(s);
    PostsOfOne(interp, FRESH, s);
    Nil(s);
  }

  /** The two calls of `feed` for a cut behind an end mark. */
  lemma FeedHalves(interp: string -> Outcome, s: string, k: nat)
    requires k < |Frame(s).blocks| && interp(Frame(s).blocks[k]).Done?
    ensures Feed(interp, FRESH, UpTo(s, k)) == Fed(Parser("", true), Texts(interp, Frame(s).blocks[..k + 1]))
    ensures Feed(interp, Parser("", true), After(s, k))
         == Fed(Parser(Frame(s).rest, true), Texts(interp, Frame(s).blocks[k + 1..]))
  {
    Halves(s, k);
    Nil(UpTo(s, k));
    Nil(After(s, k));
    var blocks := Frame(s).blocks;
    assert blocks[..k + 1][k] == blocks[k];
    assert SawDone(interp, blocks[..k + 1]);
  }

  /** A cut behind an end mark with more bytes to come: the end mark is posted by both callbacks. */
  lemma CutAt(interp: string -> Outcome, s: string, k: nat)
    requires k < |Frame(s).blocks| && interp(Frame(s).blocks[k]).Done? && After(s, k) != ""
    ensures IsCut([UpTo(s, k), After(s, k)], s)
    ensures var c1, c2 := Texts(interp, Frame(s).blocks[..k + 1]), Texts(interp, Frame(s).blocks[k + 1..]);
      && AllPosts(interp, FRESH, [UpTo(s, k), After(s, k)]) == ContentPosts(c1) + (END + (ContentPosts(c2) + END))
      && Contents(interp, s) == c1 + c2
  {
    Halves(s, k);
    ConcatTwo(UpTo(s, k), After(s, k));
    PostsOfTwo(interp, UpTo(s, k), After(s, k));
    FeedHalves(interp, s, k);
    var blocks := Frame(s).blocks;
    var c1, c2 := Texts(interp, blocks[..k + 1]), Texts(interp, blocks[k + 1..]);
    Assoc(ContentPosts(c1), END, ContentPosts(c2) + END);
    ContentsSplit(interp, s, k);
  }

  lemma ContentsSplit(interp: string -> Outcome, s: string, k: nat)
    requires k < |Frame(s).blocks|
    ensures Contents(interp, s) == Texts(interp, Frame(s).blocks[..k + 1]) + Texts(interp, Frame(s).blocks[k + 1..])
  {
    SplitAt(Frame(s).blocks, k + 1);
    TextsAppend(interp, Frame(s).blocks[..k + 1], Frame(s).blocks[k + 1..]);
  }

  lemma FirstDone(interp: string -> Outcome, blocks: seq<string>) returns (k: nat)
    requires SawDone(interp, blocks)
    ensures k < |blocks| && interp(blocks[k]).Done? && !SawDone(interp, blocks[..k])
  {
    k := 0;
    while !interp(blocks[k]).Done?
      invariant k < |blocks| && forall i :: 0 <= i < k ==> !interp(blocks[i]).Done?
      invariant exists i | k <= i < |blocks| :: interp(blocks[i]).Done?
      decreases |blocks| - k
    {
      k := k + 1;
    }
  }

  /** Nothing behind the first end mark: the stream is complete. */
  lemma NothingAfter(interp: string -> Outcome, s: string, k: nat)
    requires k < |Frame(s).blocks| && interp(Frame(s).blocks[k]).Done? && !SawDone(interp, Frame(s).blocks[..k])
    ensures After(s, k) == "" <==> Complete(interp, s)
  {
    var blocks := Frame(s).blocks;
    if k + 1 < |blocks| {
      assert Front(blocks)[k] == blocks[k];
    } else {
      assert blocks[k + 1..] == [] && blocks[..k] == Front(blocks);
      Nil(Frame(s).rest);
    }
  }

  /** Without an end mark, every cut posts the contents and nothing else. */
  lemma {:induction false} PostsWithoutDone(interp: string -> Outcome, p: Parser, chunks: seq<string>)
    requires p.Valid() && !p.done && !SawDone(interp, Frame(p.buffer + Concat(chunks)).blocks)
    ensures AllPosts(interp, p, chunks) == ContentPosts(Contents(interp, p.buffer + Concat(chunks)))
    decreases |chunks|
  {
    if chunks == [] {
      Nil(p.buffer);
      FrameRest(p.buffer);
    } else {
      var f, t := Frame(p.buffer + chunks[0]), Concat(chunks[1..]);
      var fed := Feed(interp, p, chunks[0]);
      Assoc(p.buffer, chunks[0], t);
      FrameAppend(p.buffer + chunks[0], t);
      var g := Frame(f.rest + t);
      SawDoneAppend(interp, f.blocks, g.blocks);
      FeedKeepsValid(interp, p, chunks[0]);
      PostsWithoutDone(interp, fed.parser, chunks[1..]);
      Nil(ContentPosts(fed.texts));
      TextsAppend(interp, f.blocks, g.blocks);
      ContentPostsAppend(fed.texts, Texts(interp, g.blocks));
    }
  }

  // ---- The calls of the user callback ----------------------------------------------------

  /** Every cut posts the contents in order and then one end mark, if and only if the stream is complete. */
  lemma {:induction false} PostsExact(interp: string -> Outcome, s: string)
    ensures (forall chunks | IsCut(chunks, s) ::
              AllPosts(interp, FRESH, chunks) == ContentPosts(Contents(interp, s)) + END)
       <==> Complete(interp, s)
  {
    if Complete(interp, s) {
      forall chunks | IsCut(chunks, s)
        ensures AllPosts(interp, FRESH, chunks) == ContentPosts(Contents(interp, s)) + END
      {
        RelayedBytes(interp, chunks, 0);
      }
    } else if s == "" {
      assert IsCut([], s);
    } else {
      Whole(interp, s);
      ContentPostsLength(Contents(interp, s));
      if SawDone(interp, Frame(s).blocks) {
        var chunks := TooManyPosts(interp, s);
      }
    }
  }

  /** Bytes behind the end mark can make one cut post it twice. */
  lemma TooManyPosts(interp: string -> Outcome, s: string) returns (chunks: seq<string>)
    requires SawDone(interp, Frame(s).blocks) && !Complete(interp, s)
    ensures IsCut(chunks, s) && |AllPosts(interp, FRESH, chunks)| == |Contents(interp, s)| + 2
  {
    var k := FirstDone(interp, Frame(s).blocks);
    NothingAfter(interp, s, k);
    CutAt(interp, s, k);
    ContentPostsLength(Texts(interp, Frame(s).blocks[..k + 1]));
    ContentPostsLength(Texts(interp, Frame(s).blocks[k + 1..]));
    chunks := [UpTo(s, k), After(s, k)];
  }

  /** The calls do not depend on the cut if and only if there is no end mark or nothing behind it. */
  lemma {:induction false} PostsCutIndependent(interp: string -> Outcome, s: string)
    ensures (forall a, b | IsCut(a, s) && IsCut(b, s) :: AllPosts(interp, FRESH, a) == AllPosts(interp, FRESH, b))
       <==> (SawDone(interp, Frame(s).blocks) ==> Complete(interp, s))
  {
    if !SawDone(interp, Frame(s).blocks) {
      forall a | IsCut(a, s)
        ensures AllPosts(interp, FRESH, a) == ContentPosts(Contents(interp, s))
      {
        Nil(s);
        PostsWithoutDone(interp, FRESH, a);
      }
    } else if Complete(interp, s) {
      PostsExact(interp, s);
    } else {
      Whole(interp, s);
      ContentPostsLength(Contents(interp, s));
      var chunks := TooManyPosts(interp, s);
    }
  }

  /** For instance: a content behind the end mark comes before the only end mark or between two. */
  lemma ContentAfterDone(interp: string -> Outcome, end: string, block: string, content: string)
    requires Clean(end) && Clean(block) && interp(end).Done? && interp(block) == Text(content)
    ensures AllPosts(interp, FRESH, [Bytes(end) + Bytes(block)]) == [Post(content, false)] + END
    ensures AllPosts(interp, FRESH, [Bytes(end), Bytes(block)]) == END + ([Post(content, false)] + END)
  {
    var s := Bytes(end) + Bytes(block);
    TwoBlocks(end, block);
    OneText(interp, block);
    assert Texts(interp, [end]) == [] && interp([end, block][0]).Done?;
    Whole(interp, s);
    CutAt(interp, s, 0);
    ContentsSplit(interp, s, 0);
    Nil([content]);
    Nil([Post(content, false)]);
    Nil(END + ([Post(content, false)] + END));
  }

  lemma TwoBlocks(a: string, b: string)
    requires Clean(a) && Clean(b)
    ensures var s := Bytes(a) + Bytes(b);
      && Frame(s) == Framed([a, b], "") && [a, b][..1] == [a] && [a, b][1..] == [b]
      && UpTo(s, 0) == Bytes(a) && After(s, 0) == Bytes(b)
  {
    FrameCons(a, Bytes(b));
    OneBlock(b);
    assert [a, b][..1] == [a] && [a, b][1..] == [b];
    JoinOne(a);
    JoinOne(b);
    Nil(Bytes(b));
  }

  lemma OneBlock(b: string)
    requires Clean(b)
    ensures Frame(Bytes(b)) == Framed([b], "")
  {
    FrameRest("");
    FrameCons(b, "");
    Nil(Bytes(b));
    Nil([b]);
  }

  lemma JoinOne(a: string)
    ensures Join([a]) == Bytes(a)
  {
    assert [a][1..] == [];
    Nil(Bytes(a));
  }

  lemma OneText(interp: string -> Outcome, block: string)
    requires interp(block).Text?
    ensures Texts(interp, [block]) == [interp(block).text]
    ensures ContentPosts([interp(block).text]) == [Post(interp(block).text, false)]
  {
    assert Texts(interp, [block]) == [interp(block).text] + Texts(interp, []);
    assert [interp(block).text][1..] == [];
  }

  // ---- The bytes on the wire -------------------------------------------------------------

  lemma {:induction false} StreamAppend(a: seq<string>, b: seq<string>)
    ensures Stream(a + b) == Stream(a) + Stream(b)
  {
    if a == [] {
      Nil(b);
      Nil(Stream(b));
    } else {
      HeadTail(a, b);
      StreamAppend(a[1..], b);
      Assoc(MakeChunk(a[0]), Stream(a[1..]), Stream(b));
    }
  }

  /** With enough handlers before the close, everything posted late is written. */
  lemma {:induction false} LateContents(contents: seq<string>)
    ensures Late(ContentPosts(contents) + END, |contents| + 1) == Stream(contents) + MakeDoneChunk()
  {
    if contents == [] {
      Nil(END);
      assert Late(END[1..], 0) == "";
      Nil(MakeDoneChunk());
    } else {
      LateContents(contents[1..]);
      var head, tail := [Post(contents[0], false)], ContentPosts(contents[1..]);
      Assoc(head, tail, END);
      HeadTail(head, tail + END);
      Assoc(MakeChunk(contents[0]), Stream(contents[1..]), MakeDoneChunk());
    }
  }

  /** The wire of `CutAt`'s chunks: what is posted late depends on how soon the connection closes. */
  lemma WireOfCut(c1: seq<string>, c2: seq<string>, gap: nat)
    ensures Wire(ContentPosts(c1) + (END + (ContentPosts(c2) + END)), gap)
         == Stream(c1) + (MakeDoneChunk() + Late(ContentPosts(c2) + END, gap))
  {
    HeadTail(END, ContentPosts(c2) + END);
    Nil(ContentPosts(c2) + END);
    assert END[1..] == [];
    WireOfContents(c1, END + (ContentPosts(c2) + END), gap);
  }

  lemma WireOfWhole(contents: seq<string>, done: bool, gap: nat)
    ensures Wire(ContentPosts(contents) + DonePosts(done), gap)
         == Stream(contents) + if done then MakeDoneChunk() else ""
  {
    WireOfContents(contents, DonePosts(done), gap);
    WireOfEnd(gap);
  }

  lemma NothingOnTheWire(interp: string -> Outcome, none: seq<string>)
    requires none == []
    ensures IsCut(none, "")
    ensures |Wire(AllPosts(interp, FRESH, none), 0)| < |Stream(Contents(interp, "")) + MakeDoneChunk()|
  {}

  /** A cut and a closing time for which an incomplete stream gives too few bytes, or too many. */
  lemma WrongWire(interp: string -> Outcome, s: string) returns (chunks: seq<string>, gap: nat)
    requires !Complete(interp, s)
    ensures IsCut(chunks, s)
    ensures |Wire(AllPosts(interp, FRESH, chunks), gap)| != |Stream(Contents(interp, s)) + MakeDoneChunk()|
  {
    if s == "" {
      chunks, gap := [], 0;
      NothingOnTheWire(interp, chunks);
    } else if !SawDone(interp, Frame(s).blocks) {
      chunks, gap := [s], 0;
      Whole(interp, s);
      WireOfWhole(Contents(interp, s), false, 0);
    } else {
      var k := FirstDone(interp, Frame(s).blocks);
      NothingAfter(interp, s, k);
      CutAt(interp, s, k);
      var c1, c2 := Texts(interp, Frame(s).blocks[..k + 1]), Texts(interp, Frame(s).blocks[k + 1..]);
      chunks, gap := [UpTo(s, k), After(s, k)], |c2| + 1;
      WireOfCut(c1, c2, gap);
      LateContents(c2);
      StreamAppend(c1, c2);
    }
  }

  /**
   Whatever the cut, and however soon the connection is closed, the client gets the contents in order
   and then one end mark, if and only if the stream is complete.
   */
  lemma {:induction false} WireExact(interp: string -> Outcome, s: string)
    ensures (forall chunks, gap: nat | IsCut(chunks, s) ::
              Wire(AllPosts(interp, FRESH, chunks), gap) == Stream(Contents(interp, s)) + MakeDoneChunk())
       <==> Complete(interp, s)
  {
    if Complete(interp, s) {
      forall chunks, gap: nat | IsCut(chunks, s)
        ensures Wire(AllPosts(interp, FRESH, chunks), gap) == Stream(Contents(interp, s)) + MakeDoneChunk()
      {
        RelayedBytes(interp, chunks, gap);
      }
    } else {
      var chunks, gap := WrongWire(interp, s);
    }
  }

  /** A text in a block behind an end mark. */
  ghost predicate TextAfterDone(interp: string -> Outcome, blocks: seq<string>) {
    exists i, j :: 0 <= i < j < |blocks| && interp(blocks[i]).Done? && interp(blocks[j]).Text?
  }

  lemma {:induction false} SomeText(interp: string -> Outcome, blocks: seq<string>)
    ensures Texts(interp, blocks) != [] <==> exists j :: 0 <= j < |blocks| && interp(blocks[j]).Text?
  {
    if blocks != [] {
      SomeText(interp, blocks[1..]);
      if j :| 0 <= j < |blocks| && interp(blocks[j]).Text? {
        assert j > 0 ==> blocks[1..][j - 1] == blocks[j];
      }
    }
  }

  /** Behind the first end mark there is a text, or there is none behind any. */
  lemma TextBehindFirst(interp: string -> Outcome, a: seq<string>, b: seq<string>)
    ensures TextAfterDone(interp, a + b) <== SawDone(interp, a) && Texts(interp, b) != []
    ensures TextAfterDone(interp, a + b) <== TextAfterDone(interp, a) || TextAfterDone(interp, b)
  {
    if SawDone(interp, a) && Texts(interp, b) != [] {
      SomeText(interp, b);
      var i :| 0 <= i < |a| && interp(a[i]).Done?;
      var j :| 0 <= j < |b| && interp(b[j]).Text?;
      assert (a + b)[i] == a[i] && (a + b)[|a| + j] == b[j];
    }
    if i, j :| 0 <= i < j < |a| && interp(a[i]).Done? && interp(a[j]).Text? {
      assert (a + b)[i] == a[i] && (a + b)[j] == a[j];
    }
    if i, j :| 0 <= i < j < |b| && interp(b[i]).Done? && interp(b[j]).Text? {
      assert (a + b)[|a| + i] == b[i] && (a + b)[|a| + j] == b[j];
    }
  }

  /** If the connection closes before the next handler, only texts count, not blocks without one. */
  lemma {:induction false} PromptWire(interp: string -> Outcome, p: Parser, chunks: seq<string>)
    requires p.Valid() && !p.done && !TextAfterDone(interp, Frame(p.buffer + Concat(chunks)).blocks)
    ensures Wire(AllPosts(interp, p, chunks), 0) == Stream(Contents(interp, p.buffer + Concat(chunks)))
      + if SawDone(interp, Frame(p.buffer + Concat(chunks)).blocks) then MakeDoneChunk() else ""
    decreases |chunks|
  {
    if chunks == [] {
      Nil(p.buffer);
      FrameRest(p.buffer);
    } else {
      var f, t := Frame(p.buffer + chunks[0]), Concat(chunks[1..]);
      var fed := Feed(interp, p, chunks[0]);
      Assoc(p.buffer, chunks[0], t);
      FrameAppend(p.buffer + chunks[0], t);
      var g := Frame(f.rest + t);
      SawDoneAppend(interp, f.blocks, g.blocks);
      TextsAppend(interp, f.blocks, g.blocks);
      TextBehindFirst(interp, f.blocks, g.blocks);
      PromptPosts(fed.texts, fed.parser.done, AllPosts(interp, fed.parser, chunks[1..]));
      if fed.parser.done {
        Nil(fed.texts);
      } else {
        FeedKeepsValid(interp, p, chunks[0]);
        PromptWire(interp, fed.parser, chunks[1..]);
        StreamAppend(fed.texts, Texts(interp, g.blocks));
        var end := if SawDone(interp, g.blocks) then MakeDoneChunk() else "";
        Assoc(Stream(fed.texts), Stream(Texts(interp, g.blocks)), end);
      }
    }
  }

  lemma PromptPosts(texts: seq<string>, done: bool, later: seq<Post>)
    ensures Wire((ContentPosts(texts) + DonePosts(done)) + later, 0)
         == Stream(texts) + if done then MakeDoneChunk() else Wire(later, 0)
  {
    Assoc(ContentPosts(texts), DonePosts(done), later);
    WireOfContents(texts, DonePosts(done) + later, 0);
    Nil(later);
    if done {
      HeadTail(END, later);
      Nil(MakeDoneChunk());
    }
  }

  /**
   If the connection is closed before another handler runs, the bytes do not depend on the cut if and
   only if no text follows an end mark; blocks without text and an unfinished block do no harm.
   */
  lemma {:induction false} PromptWireExact(interp: string -> Outcome, s: string)
    ensures (forall a, b | IsCut(a, s) && IsCut(b, s) ::
              Wire(AllPosts(interp, FRESH, a), 0) == Wire(AllPosts(interp, FRESH, b), 0))
       <==> !TextAfterDone(interp, Frame(s).blocks)
  {
    if !TextAfterDone(interp, Frame(s).blocks) {
      forall a | IsCut(a, s)
        ensures Wire(AllPosts(interp, FRESH, a), 0)
             == Stream(Contents(interp, s)) + if SawDone(interp, Frame(s).blocks) then MakeDoneChunk() else ""
      {
        Nil(s);
        PromptWire(interp, FRESH, a);
      }
    } else {
      var chunks := CutLosesText(interp, s);
    }
  }

  /** Cut behind the end mark, the text behind it is lost; in one chunk it is not. */
  lemma CutLosesText(interp: string -> Outcome, s: string) returns (chunks: seq<string>)
    requires TextAfterDone(interp, Frame(s).blocks)
    ensures IsCut(chunks, s) && IsCut([s], s)
    ensures |Wire(AllPosts(interp, FRESH, chunks), 0)| < |Wire(AllPosts(interp, FRESH, [s]), 0)|
  {
    var k, c1, c2 := CutBeforeText(interp, s);
    chunks := [UpTo(s, k), After(s, k)];
    Whole(interp, s);
    WireOfWhole(Contents(interp, s), true, 0);
    WireOfCut(c1, c2, 0);
    StreamAppend(c1, c2);
    assert |Stream(c2)| >= |MakeChunk(c2[0])| > 0;
  }

  lemma CutBeforeText(interp: string -> Outcome, s: string) returns (k: nat, c1: seq<string>, c2: seq<string>)
    requires TextAfterDone(interp, Frame(s).blocks)
    ensures s != "" && SawDone(interp, Frame(s).blocks)
    ensures k < |Frame(s).blocks| && IsCut([UpTo(s, k), After(s, k)], s)
    ensures AllPosts(interp, FRESH, [UpTo(s, k), After(s, k)]) == ContentPosts(c1) + (END + (ContentPosts(c2) + END))
    ensures Contents(interp, s) == c1 + c2 && c2 != []
  {
    var blocks := Frame(s).blocks;
    var i, j :| 0 <= i < j < |blocks| && interp(blocks[i]).Done? && interp(blocks[j]).Text?;
    k := i;
    Halves(s, k);
    assert blocks[k + 1..][j - k - 1] == blocks[j];
    assert blocks[k + 1..] != [];
    c1, c2 := Texts(interp, blocks[..k + 1]), Texts(interp, blocks[k + 1..]);
    SomeText(interp, blocks[k + 1..]);
    CutAt(interp, s, k);
  }
}
