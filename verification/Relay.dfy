/**
 From upstream bytes to the client's bytes: the curl write callbacks decode the upstream stream and
 call the session, which re-frames each content and writes it. Posted handlers run in posting order.
 */
module Relay {
  import opened Basics
  import opened Seqs
  import opened Framing
  import opened Sse
  import opened SseStandard
  import EventStream
  import Anthropic

  /** One call of the user callback: `user_cb(content, done)`. */
  datatype Post = Post(content: string, done: bool)

  /** Extracts `choices[0].delta.content` from the JSON of one message; None when it cannot. */
  datatype OpenAi = OpenAi(decode: Anthropic.Decoder)
  {
    function Read(block: string): Outcome {
      match Payload(block)
      case Text(msg) => (match decode(msg) case Some(content) => Text(content) case None => Skip)
      case other => other
    }
  }

  function ContentPosts(contents: seq<string>): seq<Post> {
    if contents == [] then [] else [Post(contents[0], false)] + ContentPosts(contents[1..])
  }

  function DonePosts(done: bool): seq<Post> {
    if done then [Post("", true)] else []
  }

  function Posts(fed: Fed): seq<Post> {
    ContentPosts(fed.texts) + DonePosts(fed.parser.done)
  }

  /** All calls made by one write callback for each chunk curl delivers. */
  function AllPosts(interp: string -> Outcome, p: Parser, chunks: seq<string>): seq<Post>
    decreases |chunks|
  {
    if chunks == [] then []
    else
      var fed := Feed(interp, p, chunks[0]);
      Posts(fed) + AllPosts(interp, fed.parser, chunks[1..])
  }

  function Decoded(decode: Anthropic.Decoder, msgs: seq<string>): seq<string> {
    if msgs == [] then []
    else (match decode(msgs[0]) case Some(c) => [c] case None => []) + Decoded(decode, msgs[1..])
  }

  lemma {:induction false} DecodedAppend(decode: Anthropic.Decoder, a: seq<string>, b: seq<string>)
    ensures Decoded(decode, a + b) == Decoded(decode, a) + Decoded(decode, b)
  {
    if a == [] {
      Nil(b);
      Nil(Decoded(decode, b));
    } else {
      HeadTail(a, b);
      DecodedAppend(decode, a[1..], b);
      var head := match decode(a[0]) case Some(c) => [c] case None => [];
      Assoc(head, Decoded(decode, a[1..]), Decoded(decode, b));
    }
  }

  lemma {:induction false} ContentPostsAppend(a: seq<string>, b: seq<string>)
    ensures ContentPosts(a + b) == ContentPosts(a) + ContentPosts(b)
  {
    if a == [] {
      Nil(b);
      Nil(ContentPosts(b));
    } else {
      HeadTail(a, b);
      ContentPostsAppend(a[1..], b);
      Assoc([Post(a[0], false)], ContentPosts(a[1..]), ContentPosts(b));
    }
  }

  /** Decoding each message `feed` returns is reading each block with the composed meaning. */
  lemma {:induction false} DecodedTexts(decode: Anthropic.Decoder, blocks: seq<string>)
    ensures Texts(OpenAi(decode).Read, blocks) == Decoded(decode, Texts(Payload, blocks))
    ensures SawDone(OpenAi(decode).Read, blocks) <==> SawDone(Payload, blocks)
  {
    if blocks != [] {
      var b := blocks[0];
      DecodedTexts(decode, blocks[1..]);
      DecodedAppend(decode, TextOf(Payload(b)), Texts(Payload, blocks[1..]));
      DecodedOne(decode, b);
      SawDoneAppend(OpenAi(decode).Read, [b], blocks[1..]);
      SawDoneAppend(Payload, [b], blocks[1..]);
      Uncons(blocks);
    }
  }

  lemma DecodedOne(decode: Anthropic.Decoder, b: string)
    ensures Decoded(decode, TextOf(Payload(b))) == TextOf(OpenAi(decode).Read(b))
    ensures SawDone(OpenAi(decode).Read, [b]) <==> SawDone(Payload, [b])
  {
    assert [b][0] == b;
    assert SawDone(Payload, [b]) <==> Payload([b][0]).Done?;
    assert SawDone(OpenAi(decode).Read, [b]) <==> OpenAi(decode).Read([b][0]).Done?;
    match Payload(b)
    case Text(msg) =>
      assert [msg][1..] == [];
    case _ =>
  }

  /** The contents one callback posts are those of exactly the messages that have one, in order. */
  lemma {:induction false} ContentsOfMessages(decode: Anthropic.Decoder, p: Parser, raw: string) returns (idx: seq<nat>)
    ensures var msgs, contents := Feed(Payload, p, raw).texts, Feed(OpenAi(decode).Read, p, raw).texts;
      && Positions(idx, |msgs|) && |idx| == |contents|
      && (forall k :: 0 <= k < |idx| ==> decode(msgs[idx[k]]) == Some(contents[k]))
      && (forall i :: 0 <= i < |msgs| && decode(msgs[i]).Some? ==> i in idx)
  {
    var blocks := Frame(p.buffer + raw).blocks;
    DecodedTexts(decode, blocks);
    idx := DecodedAt(decode, Texts(Payload, blocks));
  }

  lemma {:induction false} DecodedAt(decode: Anthropic.Decoder, msgs: seq<string>) returns (idx: seq<nat>)
    ensures Positions(idx, |msgs|) && |idx| == |Decoded(decode, msgs)|
    ensures forall k :: 0 <= k < |idx| ==> decode(msgs[idx[k]]) == Some(Decoded(decode, msgs)[k])
    ensures forall i :: 0 <= i < |msgs| && decode(msgs[i]).Some? ==> i in idx
  {
    if msgs == [] {
      idx := [];
    } else {
      var init, m := Front(msgs), Last(msgs);
      assert msgs == init + [m];
      DecodedAppend(decode, init, [m]);
      assert [m][1..] == [];
      idx := DecodedAt(decode, init);
      if decode(m).Some? {
        idx := idx + [|init|];
      }
    }
  }

  lemma NextDecoded(decode: Anthropic.Decoder, msgs: seq<string>, i: nat)
    requires i < |msgs|
    ensures ContentPosts(Decoded(decode, msgs[..i + 1])) == ContentPosts(Decoded(decode, msgs[..i]))
         + (match decode(msgs[i]) case Some(content) => [Post(content, false)] case None => [])
  {
    assert msgs[..i + 1] == msgs[..i] + [msgs[i]];
    DecodedAppend(decode, msgs[..i], [msgs[i]]);
    ContentPostsAppend(Decoded(decode, msgs[..i]), Decoded(decode, [msgs[i]]));
    assert [msgs[i]][1..] == [];
  }

  /** `stream_write_callback` of the OpenAI-compatible adapters. */
  method OpenAiCallback(parser: SseHandler, decode: Anthropic.Decoder, raw: string) returns (posts: seq<Post>)
    modifies parser
    ensures var fed := Feed(OpenAi(decode).Read, old(parser.State()), raw);
      parser.State() == fed.parser && posts == Posts(fed)
  {
    ghost var before := parser.State();
    var messages := parser.Feed(raw);
    ghost var after := parser.State();
    posts := [];
    for i := 0 to |messages|
      invariant parser.State() == after
      invariant posts == ContentPosts(Decoded(decode, messages[..i]))
    {
      NextDecoded(decode, messages, i);
      Nil(posts);
      var content := decode(messages[i]);
      if content.Some? {
        posts := posts + [Post(content.value, false)];
      }
    }
    assert messages[..|messages|] == messages;
    DecodedTexts(decode, Frame(before.buffer + raw).blocks);
    Nil(posts);
    var done := parser.IsDone();
    if done {
      posts := posts + [Post("", true)];
    }
  }

  lemma NextContent(texts: seq<string>, i: nat)
    requires i < |texts|
    ensures ContentPosts(texts[..i + 1]) == ContentPosts(texts[..i]) + [Post(texts[i], false)]
  {
    assert texts[..i + 1] == texts[..i] + [texts[i]];
    ContentPostsAppend(texts[..i], [texts[i]]);
    assert [texts[i]][1..] == [];
  }

  /** `stream_write_callback` of the Anthropic adapter. */
  method AnthropicCallback(parser: Anthropic.AnthropicStreamParser, decode: Anthropic.Decoder, raw: string)
    returns (posts: seq<Post>)
    modifies parser
    ensures var fed := Feed(Anthropic.Reader(decode).Read, old(parser.State()), raw);
      parser.State() == fed.parser && posts == Posts(fed)
  {
    var texts := parser.Feed(decode, raw);
    ghost var after := parser.State();
    posts := [];
    for i := 0 to |texts|
      invariant parser.State() == after
      invariant posts == ContentPosts(texts[..i])
    {
      NextContent(texts, i);
      posts := posts + [Post(texts[i], false)];
    }
    assert texts[..|texts|] == texts;
    Nil(posts);
    if parser.done {
      posts := posts + [Post("", true)];
    }
  }

  predicate PostsDone(posts: seq<Post>) {
    posts != [] && (posts[0].done || PostsDone(posts[1..]))
  }

  /** The bytes one posted handler writes. */
  function Written(post: Post): string {
    if post.done then MakeDoneChunk() else MakeChunk(post.content)
  }

  /** What the next n handlers write. */
  function Late(posts: seq<Post>, n: nat): string {
    if posts == [] || n == 0 then "" else Written(posts[0]) + Late(posts[1..], n - 1)
  }

  /**
   What reaches the client. The connection is closed by the completion handler of the first end
   mark's write; `gap` posted handlers run before that one, and their bytes are still written.
   */
  function Wire(posts: seq<Post>, gap: nat): string {
    if posts == [] then ""
    else Written(posts[0]) + if posts[0].done then Late(posts[1..], gap) else Wire(posts[1..], gap)
  }

  /** The streaming half of a session. `written` is what has been put on the socket. */
  class Session {
    var headersSent: bool
    var isStreaming: bool
    var ending: bool   // the end mark is written, its completion handler has not run
    var closed: bool
    var written: string

    ghost predicate Streaming()
      reads this
    {
      headersSent && !ending && !closed
    }

    /** `start_stream` has written the header and calls `on_ready`. */
    constructor ()
      ensures Streaming() && isStreaming && written == ""
    {
      headersSent, isStreaming, ending, closed, written := true, true, false, false, "";
    }

    /** Nothing is tested but the header: a write fails only once the connection is closed. */
    method SendStreamChunk(chunk: string, done: bool)
      modifies this
      ensures headersSent == old(headersSent) && closed == old(closed)
      ensures if headersSent && !old(closed)
        then written == old(written) + (if done then MakeDoneChunk() else chunk) && ending == (old(ending) || done)
        else written == old(written) && ending == old(ending)
    {
      if !headersSent {
        return;
      }
      if closed {
        isStreaming := false;
        return;
      }
      if done {
        written := written + MakeDoneChunk();
        ending := true;
        return;
      }
      written := written + chunk;
    }

    /** The completion handler of the end mark's write. */
    method OnEndWritten()
      modifies this
      ensures closed && !ending && !isStreaming
      ensures headersSent == old(headersSent) && written == old(written)
    {
      isStreaming, ending, closed := false, false, true;
    }

    /** One posted handler; when `left` has run down, the completion handler comes before it. */
    method RunHandler(post: Post, left: nat, ghost later: seq<Post>) returns (next: nat)
      requires headersSent && !(ending && closed)
      modifies this
      ensures headersSent && !(ending && closed)
      ensures written + Remaining(later, next, ending, closed)
           == old(written) + Remaining([post] + later, left, old(ending), old(closed))
      ensures ending || closed <==> old(ending) || old(closed) || post.done
    {
      next := left;
      HeadTail([post], later);
      Nil(later);
      if ending {
        if left == 0 {
          OnEndWritten();
        } else {
          next := left - 1;
        }
      }
      Assoc(written, Written(post), Remaining(later, next, ending || post.done, false));
      SendStreamChunk(MakeChunk(post.content), post.done);
    }

    /** The posted handlers in posting order, the completion handler `gap` of them after the end mark. */
    method Deliver(posts: seq<Post>, gap: nat)
      requires Streaming()
      modifies this
      ensures written == old(written) + Wire(posts, gap)
      ensures headersSent && !ending && (closed <==> PostsDone(posts))
    {
      assert posts[0..] == posts;
      var left := gap;
      for i := 0 to |posts|
        invariant headersSent && !(ending && closed)
        invariant written + Remaining(posts[i..], left, ending, closed) == old(written) + Wire(posts, gap)
        invariant PostsDone(posts) <==> ending || closed || PostsDone(posts[i..])
      {
        assert posts[i..][0] == posts[i] && posts[i..][1..] == posts[i + 1..];
        Uncons(posts[i..]);
        left := RunHandler(posts[i], left, posts[i + 1..]);
      }
      Nil(written);
      if ending {
        OnEndWritten();
      }
    }
  }

  /** What the handlers that are left will write. */
  ghost function Remaining(posts: seq<Post>, left: nat, ending: bool, closed: bool): string {
    if closed then "" else if ending then Late(posts, left) else Wire(posts, left)
  }

  lemma NextPosts(interp: string -> Outcome, p: Parser, chunks: seq<string>, i: nat)
    requires i < |chunks|
    ensures var fed := Feed(interp, p, chunks[i]);
      AllPosts(interp, p, chunks[i..]) == Posts(fed) + AllPosts(interp, fed.parser, chunks[i + 1..])
  {
    assert chunks[i..][0] == chunks[i] && chunks[i..][1..] == chunks[i + 1..];
  }

  /** curl delivers the chunks one after the other. */
  method StreamChunks(chunks: seq<string>, decode: Anthropic.Decoder) returns (posts: seq<Post>)
    ensures posts == AllPosts(OpenAi(decode).Read, FRESH, chunks)
  {
    var parser := new SseHandler();
    posts := [];
    assert chunks[0..] == chunks;
    ghost var all := AllPosts(OpenAi(decode).Read, FRESH, chunks);
    Nil(all);
    for i := 0 to |chunks|
      invariant posts + AllPosts(OpenAi(decode).Read, parser.State(), chunks[i..]) == all
    {
      NextPosts(OpenAi(decode).Read, parser.State(), chunks, i);
      var more := OpenAiCallback(parser, decode, chunks[i]);
      Assoc(posts, more, AllPosts(OpenAi(decode).Read, parser.State(), chunks[i + 1..]));
      posts := posts + more;
    }
    Nil(posts);
  }

  /** A whole streamed reply: the posted handlers run in order. */
  method RelayOpenAi(chunks: seq<string>, decode: Anthropic.Decoder, gap: nat) returns (wire: string)
    ensures wire == Wire(AllPosts(OpenAi(decode).Read, FRESH, chunks), gap)
  {
    var posts := StreamChunks(chunks, decode);
    var session := new Session();
    session.Deliver(posts, gap);
    wire := session.written;
    Nil(Wire(posts, gap));
  }

  // ---- The relay property ----------------------------------------------------------------

  /** Nothing but complete blocks, of which the last, and only the last, is the end mark. */
  ghost predicate Complete(interp: string -> Outcome, s: string) {
    var f := Frame(s);
    f.rest == "" && f.blocks != [] && interp(Last(f.blocks)).Done? && !SawDone(interp, Front(f.blocks))
  }

  function Contents(interp: string -> Outcome, s: string): seq<string> {
    Texts(interp, Frame(s).blocks)
  }

  lemma SawDoneLast(interp: string -> Outcome, blocks: seq<string>)
    requires blocks != [] && interp(Last(blocks)).Done?
    ensures SawDone(interp, blocks)
  {
    assert interp(blocks[|blocks| - 1]).Done?;
  }

  lemma PrefixNotDone(interp: string -> Outcome, a: seq<string>, b: seq<string>)
    requires b != [] && !SawDone(interp, Front(a + b))
    ensures !SawDone(interp, a) && !SawDone(interp, Front(b)) && Last(a + b) == Last(b)
  {
    assert Front(a + b) == a + Front(b);
    SawDoneAppend(interp, a, Front(b));
  }

  /** The end mark is posted once, by the callback that gets the last chunk, and after all contents. */
  lemma {:induction false} PostsOfComplete(interp: string -> Outcome, p: Parser, chunks: seq<string>)
    requires !p.done && chunks != []
    requires forall c :: c in chunks ==> c != ""
    requires Complete(interp, p.buffer + Concat(chunks))
    ensures AllPosts(interp, p, chunks)
         == ContentPosts(Contents(interp, p.buffer + Concat(chunks))) + [Post("", true)]
    decreases |chunks|
  {
    var first, others := chunks[0], chunks[1..];
    var fed := Feed(interp, p, first);
    if others == [] {
      Nil(first);
      assert Concat(chunks) == first;
      SawDoneLast(interp, Frame(p.buffer + first).blocks);
      Nil(Posts(fed));
    } else {
      var f, t := Frame(p.buffer + first), Concat(others);
      Assoc(p.buffer, first, t);
      FrameAppend(p.buffer + first, t);
      var g := Frame(f.rest + t);
      assert others[0] in chunks && t != "";
      FrameSound(f.rest + t);
      Nil(Join(g.blocks));
      assert g.blocks != [];
      PrefixNotDone(interp, f.blocks, g.blocks);
      assert forall c :: c in others ==> c in chunks;
      PostsOfComplete(interp, fed.parser, others);
      TextsAppend(interp, f.blocks, g.blocks);
      ContentPostsAppend(fed.texts, Texts(interp, g.blocks));
      Nil(ContentPosts(fed.texts));
      Assoc(ContentPosts(fed.texts), ContentPosts(Texts(interp, g.blocks)), [Post("", true)]);
    }
  }

  lemma {:induction false} WireOfContents(contents: seq<string>, posts: seq<Post>, gap: nat)
    ensures Wire(ContentPosts(contents) + posts, gap) == Stream(contents) + Wire(posts, gap)
  {
    if contents == [] {
      Nil(posts);
      Nil(Wire(posts, gap));
    } else {
      WireOfContents(contents[1..], posts, gap);
      var head, tail := [Post(contents[0], false)], ContentPosts(contents[1..]);
      Assoc(head, tail, posts);
      HeadTail(head, tail + posts);
      Nil(tail + posts);
      Assoc(MakeChunk(contents[0]), Stream(contents[1..]), Wire(posts, gap));
    }
  }

  lemma WireOfEnd(gap: nat)
    ensures Wire([Post("", true)], gap) == MakeDoneChunk()
  {
    assert [Post("", true)][1..] == [];
    Nil(MakeDoneChunk());
  }

  /** The client's bytes do not depend on how the upstream bytes were cut. */
  lemma {:induction false} RelayedBytes(interp: string -> Outcome, chunks: seq<string>, gap: nat)
    requires forall c :: c in chunks ==> c != ""
    requires Complete(interp, Concat(chunks))
    ensures AllPosts(interp, FRESH, chunks) == ContentPosts(Contents(interp, Concat(chunks))) + [Post("", true)]
    ensures Wire(AllPosts(interp, FRESH, chunks), gap) == Stream(Contents(interp, Concat(chunks))) + MakeDoneChunk()
  {
    Nil(Concat(chunks));
    if chunks == [] {
      FrameRest("");
    }
    PostsOfComplete(interp, FRESH, chunks);
    WireOfContents(Contents(interp, Concat(chunks)), [Post("", true)], gap);
    WireOfEnd(gap);
  }

  lemma {:induction false} SomethingLost(ms: seq<string>)
    requires forall m :: m in NonEmpty(ms) ==> Relayable(m)
    ensures EmptyOrRelayable(ms)
  {
    if ms != [] {
      var head := if ms[0] == "" then [] else [ms[0]];
      assert forall m :: m in head || m in NonEmpty(ms[1..]) ==> m in NonEmpty(ms);
      assert ms[0] != "" ==> ms[0] in head;
      SomethingLost(ms[1..]);
      assert forall m :: m in ms ==> m == ms[0] || m in ms[1..];
    }
  }

  lemma DoneChunkFeeds()
    ensures Feed(Payload, FRESH, MakeDoneChunk()) == Fed(Parser("", true), [])
  {
    PayloadOfChunk(DONE);
    PrefixedClean(DONE);
    var bs := [PREFIX + DONE];
    FrameComplete(bs, "");
    Nil(MakeDoneChunk());
    assert Join(bs) == MakeDoneChunk();
    assert SawDone(Payload, bs) by {
      assert Payload(bs[0]).Done?;
    }
    assert Texts(Payload, bs) == [] + Texts(Payload, []);
  }

  /** Decoding a relayed reply, whatever its pieces. */
  lemma {:induction false} ClientDecodes(contents: seq<string>, pieces: seq<string>)
    requires Concat(pieces) == Stream(contents) + MakeDoneChunk()
    ensures Decodes(pieces, contents) <==> EmptyOrRelayable(contents)
  {
    FeedAllIsFeed(Payload, FRESH, pieces);
    if EmptyOrRelayable(contents) {
      RoundTrip(contents);
      FeedAppend(Payload, FRESH, Stream(contents), MakeDoneChunk());
      DoneChunkFeeds();
      Nil(NonEmpty(contents));
    } else {
      FeedIsRelayable(FRESH, Concat(pieces));
      if forall m :: m in NonEmpty(contents) ==> Relayable(m) {
        SomethingLost(contents);
      }
    }
  }

  /** What the client decodes: the non-empty contents in order, the end mark, and nothing pending. */
  ghost predicate Decodes(pieces: seq<string>, contents: seq<string>) {
    FeedAll(Payload, FRESH, pieces) == Fed(Parser("", true), NonEmpty(contents))
  }

  /** The pieces a client may receive for the chunks curl has delivered. */
  ghost predicate Relayed(interp: string -> Outcome, chunks: seq<string>, gap: nat, pieces: seq<string>) {
    Concat(pieces) == Wire(AllPosts(interp, FRESH, chunks), gap)
  }

  /**
   Relay fidelity: however the upstream bytes and the client's bytes were cut, the client decodes
   exactly the non-empty contents in order and then the end mark, if and only if every content is
   empty or relayable.
   */
  lemma {:induction false} RelayFidelity(interp: string -> Outcome, chunks: seq<string>, gap: nat, pieces: seq<string>)
    requires forall c :: c in chunks ==> c != ""
    requires Complete(interp, Concat(chunks))
    ensures Relayed(interp, chunks, gap, pieces) ==>
      (Decodes(pieces, Contents(interp, Concat(chunks))) <==> EmptyOrRelayable(Contents(interp, Concat(chunks))))
  {
    RelayedBytes(interp, chunks, gap);
    if Relayed(interp, chunks, gap, pieces) {
      ClientDecodes(Contents(interp, Concat(chunks)), pieces);
    }
  }

  lemma {:induction false} StreamSnoc(ms: seq<string>, m: string)
    ensures Stream(ms + [m]) == Stream(ms) + MakeChunk(m)
  {
    if ms == [] {
      Nil([m]);
      Nil(MakeChunk(m));
      assert [m][1..] == [];
    } else {
      HeadTail(ms, [m]);
      StreamSnoc(ms[1..], m);
      Assoc(MakeChunk(ms[0]), Stream(ms[1..]), MakeChunk(m));
    }
  }

  lemma DoneChunk()
    ensures MakeDoneChunk() == MakeChunk(DONE) && EventStream.SingleLine(DONE)
  {}

  ghost predicate SingleLines(contents: seq<string>) {
    forall m :: m in contents ==> EventStream.SingleLine(m)
  }

  /** A client following the standard gets exactly these data, event by event. */
  ghost predicate StandardGets(wire: string, datas: seq<string>) {
    EventStream.Datas(EventStream.Run(EventStream.NEW, wire).events) == datas
  }

  lemma StandardClientOfWire(contents: seq<string>)
    requires SingleLines(contents)
    ensures StandardGets(Stream(contents) + MakeDoneChunk(), contents + [DONE])
  {
    DoneChunk();
    StreamSnoc(contents, DONE);
    StandardClientDecodes(EventStream.NEW, contents + [DONE]);
    Nil(contents + [DONE]);
  }

  /** A client following the standard gets every content, the empty ones too, if each is on one line. */
  lemma {:induction false} RelayToStandardClient(interp: string -> Outcome, chunks: seq<string>, gap: nat)
    requires forall c :: c in chunks ==> c != ""
    requires Complete(interp, Concat(chunks))
    requires SingleLines(Contents(interp, Concat(chunks)))
    ensures StandardGets(Wire(AllPosts(interp, FRESH, chunks), gap), Contents(interp, Concat(chunks)) + [DONE])
  {
    RelayedBytes(interp, chunks, gap);
    StandardClientOfWire(Contents(interp, Concat(chunks)));
  }
}
