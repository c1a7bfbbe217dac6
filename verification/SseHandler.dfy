/** src/stream/sse_handler: decoding an upstream "data: ..." stream and encoding the client's. */
module Sse {
  import opened Seqs
  import opened Framing

  const PREFIX := "data: "
  const DONE := "[DONE]"

  /** What `feed` does with one block: drop the prefix, if any; then end mark, blank or message. */
  function Payload(block: string): Outcome {
    var line := if PREFIX <= block then block[|PREFIX|..] else block;
    if line == DONE then Outcome.Done
    else if line == "" then Skip
    else Text(line)
  }

  function MakeChunk(data: string): string {
    PREFIX + data + "\n\n"
  }

  function MakeDoneChunk(): string {
    "data: [DONE]\n\n"
  }

  class SseHandler {
    var buffer: string
    var done: bool

    ghost function State(): Parser
      reads this
    {
      Parser(buffer, done)
    }

    constructor ()
      ensures State() == FRESH
    {
      buffer, done := "", false;
    }

    method Feed(raw: string) returns (messages: seq<string>)
      modifies this
      ensures Fed(State(), messages) == Framing.Feed(Payload, old(State()), raw)
    {
      buffer := buffer + raw;
      messages := [];
      ghost var whole := buffer;
      ghost var cut: seq<string> := [];
      Nil(Frame(whole).blocks);
      while true
        invariant Frame(whole) == Framed(cut + Frame(buffer).blocks, Frame(buffer).rest)
        invariant messages == Texts(Payload, cut)
        invariant done == (old(done) || SawDone(Payload, cut))
        decreases |buffer|
      {
        var pos := FindBreak(buffer, 0);
        if pos.None? {
          Nil(cut);
          break;
        }
        var line := buffer[..pos.value];
        buffer := buffer[pos.value + 2..];
        CutOne(Payload, cut, line, Frame(buffer).blocks);
        cut := cut + [line];

        if PREFIX <= line {
          line := line[|PREFIX|..];
        }
        if line == DONE {
          done := true;
          continue;
        }
        if line == "" {
          continue;
        }
        messages := messages + [line];
      }
    }

    method IsDone() returns (r: bool)
      ensures r == State().done
    {
      r := done;
    }
  }

  /** The messages that survive a trip through `make_chunk` and `feed`. */
  ghost predicate Relayable(m: string) {
    m != "" && Clean(m) && m != DONE
  }

  lemma FeedOne(block: string)
    requires Clean(block)
    ensures Framing.Feed(Payload, FRESH, Bytes(block)) == Fed(Parser("", Payload(block).Done?), TextOf(Payload(block)))
  {
    var bs := [block];
    FrameComplete(bs, "");
    Nil(Bytes(block));
    assert Join(bs) == Bytes(block);
    Nil(TextOf(Payload(block)));
    assert Texts(Payload, bs) == TextOf(Payload(block));
    assert SawDone(Payload, bs) <==> Payload(bs[0]).Done?;
  }

  lemma PayloadExact(block: string)
    ensures Payload(block) ==
      if block == "data: [DONE]" || block == "[DONE]" then Outcome.Done
      else if block == "data: " || block == "" then Skip
      else Text(if "data: " <= block then block[6..] else block)
  {
    if PREFIX <= block {
      SplitAt(block, 6);
      assert block[..6] == PREFIX;
      assert PREFIX + DONE == "data: [DONE]" && PREFIX + "" == PREFIX;
    }
  }

  /** What `feed` returns for one block, whatever it is. */
  lemma FeedsBlock(block: string)
    requires Clean(block)
    ensures Framing.Feed(Payload, FRESH, block + "\n\n") ==
      if block == "data: [DONE]" || block == "[DONE]" then Fed(Parser("", true), [])
      else if block == "data: " || block == "" then Fed(FRESH, [])
      else Fed(FRESH, [if "data: " <= block then block[6..] else block])
  {
    FeedOne(block);
    PayloadExact(block);
  }

  /** The end mark: what the session sends last is what sets the flag of a client that parses it. */
  lemma EndMark()
    ensures MakeDoneChunk() == "data: [DONE]\n\n"
    ensures Framing.Feed(Payload, FRESH, "data: [DONE]\n\n") == Fed(Parser("", true), [])
  {
    var block := "data: [DONE]";
    assert Clean(DONE);
    PrefixedClean(DONE);
    assert PREFIX + DONE == block;
    FeedsBlock(block);
    assert block + "\n\n" == "data: [DONE]\n\n";
  }

  /** The block whose bytes are `MakeChunk(m)`. */
  function ChunkBlocks(ms: seq<string>): (bs: seq<string>)
    ensures |bs| == |ms|
  {
    if ms == [] then [] else [PREFIX + ms[0]] + ChunkBlocks(ms[1..])
  }

  /** The bytes of a whole reply: one chunk for each message. */
  function Stream(ms: seq<string>): string {
    if ms == [] then "" else MakeChunk(ms[0]) + Stream(ms[1..])
  }

  function NonEmpty(ms: seq<string>): seq<string> {
    if ms == [] then []
    else (if ms[0] == "" then [] else [ms[0]]) + NonEmpty(ms[1..])
  }

  lemma SuffixClean(block: string, k: nat)
    requires Clean(block) && k <= |block|
    ensures Clean(block[k..])
  {
    forall i
      ensures !BreakAt(block[k..], i)
    {
      assert !BreakAt(block, k + i);
    }
  }

  lemma PrefixedClean(m: string)
    requires Clean(m)
    ensures Clean(PREFIX + m)
  {
    var s := PREFIX + m;
    assert PREFIX[5] == ' ';
    forall i
      ensures !BreakAt(s, i)
    {
      assert !BreakAt(m, i - |PREFIX|);
      if 0 <= i < |PREFIX| {
        assert s[i] == PREFIX[i];
      }
    }
  }

  lemma PayloadOfChunk(m: string)
    ensures Payload(PREFIX + m) == if m == DONE then Outcome.Done else if m == "" then Skip else Text(m)
  {
    DropAppend(PREFIX, m);
  }

  /** Whatever the bytes, `feed` only ever returns relayable messages. */
  lemma {:induction false} TextsAreRelayable(blocks: seq<string>)
    requires AllClean(blocks)
    ensures forall m :: m in Texts(Payload, blocks) ==> Relayable(m)
  {
    if blocks != [] {
      var b := blocks[0];
      assert b in blocks;
      if PREFIX <= b {
        SuffixClean(b, |PREFIX|);
      }
      TextsAreRelayable(blocks[1..]);
    }
  }

  lemma FeedIsRelayable(p: Parser, raw: string)
    ensures forall m :: m in Framing.Feed(Payload, p, raw).texts ==> Relayable(m)
  {
    FrameSound(p.buffer + raw);
    TextsAreRelayable(Frame(p.buffer + raw).blocks);
  }

  lemma {:induction false} StreamIsJoin(ms: seq<string>)
    ensures Stream(ms) == Join(ChunkBlocks(ms))
  {
    if ms != [] {
      StreamIsJoin(ms[1..]);
      HeadTail([PREFIX + ms[0]], ChunkBlocks(ms[1..]));
    }
  }

  ghost predicate EmptyOrRelayable(ms: seq<string>) {
    forall m :: m in ms ==> m == "" || Relayable(m)
  }

  lemma {:induction false} ChunkBlocksClean(ms: seq<string>)
    requires EmptyOrRelayable(ms)
    ensures AllClean(ChunkBlocks(ms))
    ensures Texts(Payload, ChunkBlocks(ms)) == NonEmpty(ms)
    ensures !SawDone(Payload, ChunkBlocks(ms))
  {
    if ms != [] {
      assert ms[0] in ms;
      PrefixedClean(ms[0]);
      PayloadOfChunk(ms[0]);
      ChunkBlocksClean(ms[1..]);
      var head := [PREFIX + ms[0]];
      HeadTail(head, ChunkBlocks(ms[1..]));
      SawDoneAppend(Payload, head, ChunkBlocks(ms[1..]));
    }
  }

  /** Decoding what was encoded: empty messages vanish, the others come back in order. */
  lemma RoundTrip(ms: seq<string>)
    requires EmptyOrRelayable(ms)
    ensures Framing.Feed(Payload, FRESH, Stream(ms)) == Fed(FRESH, NonEmpty(ms))
  {
    StreamIsJoin(ms);
    ChunkBlocksClean(ms);
    FrameComplete(ChunkBlocks(ms), "");
    Nil(Stream(ms));
  }

  lemma {:induction false} NothingEmpty(ms: seq<string>)
    requires forall m :: m in ms ==> m != ""
    ensures NonEmpty(ms) == ms
  {
    if ms != [] {
      assert ms[0] in ms && forall m :: m in ms[1..] ==> m in ms;
      NothingEmpty(ms[1..]);
      Uncons(ms);
    }
  }

  /** Exact inversion, for a reply of any length. */
  lemma ExactInversion(ms: seq<string>)
    ensures Framing.Feed(Payload, FRESH, Stream(ms)) == Fed(FRESH, ms)
       <==> forall m :: m in ms ==> Relayable(m)
  {
    if forall m :: m in ms ==> Relayable(m) {
      RoundTrip(ms);
      NothingEmpty(ms);
    }
    FeedIsRelayable(FRESH, Stream(ms));
  }

  /** Exact inversion of one chunk. */
  lemma ExactInversionOne(m: string)
    ensures Framing.Feed(Payload, FRESH, MakeChunk(m)) == Fed(FRESH, [m])
       <==> m != "" && !HasBreak(m) && m[|m| - 1] != '\n' && m != "[DONE]"
  {
    ExactInversion([m]);
    Nil(MakeChunk(m));
    assert Stream([m]) == MakeChunk(m) + Stream([]);
    assert m in [m];
  }
}
