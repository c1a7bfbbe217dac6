/** The event parser of src/adapter/anthropic_adapter.cpp and its relation to the HTML Living Standard. */
module Anthropic {
  import opened Basics
  import opened Seqs
  import opened Framing
  import opened EventStream

  /** Extracts `delta.text` from the JSON of one event; None when it cannot. */
  type Decoder = string -> Option<string>

  const EVENT := "event: "
  const DATA := "data: "

  /** The value of the last line that starts with the prefix, "" if there is none. */
  function LastValue(lines: seq<string>, prefix: string): string {
    if lines == [] then ""
    else if prefix <= Last(lines) then Last(lines)[|prefix|..]
    else LastValue(Front(lines), prefix)
  }

  function TypeOf(block: string): string {
    LastValue(SplitLines(block), EVENT)
  }

  function DataOf(block: string): string {
    LastValue(SplitLines(block), DATA)
  }

  /** What an event means once its type and data are known. */
  function EventOutcome(decode: Decoder, eventType: string, data: string): Outcome {
    if eventType == "message_stop" then Outcome.Done
    else if eventType == "content_block_delta" && data != "" then
      match decode(data)
      case Some(text) => Text(text)
      case None => Skip
    else Skip
  }

  datatype Reader = Reader(decode: Decoder)
  {
    function Read(block: string): Outcome {
      EventOutcome(decode, TypeOf(block), DataOf(block))
    }
  }

  lemma LastValueAppend(lines: seq<string>, line: string, prefix: string)
    ensures LastValue(lines + [line], prefix) == if prefix <= line then line[|prefix|..] else LastValue(lines, prefix)
  {
    FrontLast(lines, line);
  }

  lemma {:induction false} FindShift(s: string, ch: char, from: nat, k: nat)
    requires from <= k <= |s|
    ensures Find(s, ch, k) == match Find(s[from..], ch, k - from) case Some(p) => Some(from + p) case None => None
    decreases |s| - k
  {
    if k < |s| && s[k] != ch {
      FindShift(s, ch, from, k + 1);
    }
  }

  // ---- The lines of a block by position --------------------------------------------------

  /** Where line k starts: each line in front of it is followed by a line feed. */
  function StartOf(lines: seq<string>, k: nat): nat
    requires k <= |lines|
  {
    if k == 0 then 0 else StartOf(lines, k - 1) + |lines[k - 1]| + 1
  }

  lemma {:induction false} StartOfTail(lines: seq<string>, k: nat)
    requires 0 < k <= |lines|
    ensures StartOf(lines, k) == |lines[0]| + 1 + StartOf(lines[1..], k - 1)
  {
    if k > 1 {
      StartOfTail(lines, k - 1);
      assert lines[1..][k - 2] == lines[k - 1];
    }
  }

  /** The line found at a position: up to the next line feed, or to the end. */
  ghost predicate LineFound(block: string, from: nat, line: string, isLast: bool) {
    && from <= |block|
    && var nl := Find(block, '\n', from);
       && (isLast <==> nl.None?)
       && line == if nl.None? then block[from..] else block[from..nl.value]
  }

  lemma FoundInTail(block: string, p: nat, from: nat, line: string, isLast: bool)
    requires p <= |block| && LineFound(block[p..], from, line, isLast)
    ensures LineFound(block, p + from, line, isLast)
  {
    FindShift(block, '\n', p, p + from);
    assert p + from - p == from;
    var nl := Find(block[p..], '\n', from);
    if nl.None? {
      assert block[p..][from..] == block[p + from..];
    } else {
      assert block[p..][from..nl.value] == block[p + from..p + nl.value];
    }
  }

  /** The first line feed of a block, or none, gives its first line. */
  lemma FirstLineAt(block: string)
    ensures LineFound(block, 0, SplitLines(block)[0], |SplitLines(block)| == 1)
  {
    var nl := Find(block, '\n', 0);
    if nl.None? {
      assert block[0..] == block;
    } else {
      ConsOf(block[..nl.value], SplitLines(block[nl.value + 1..]));
      assert block[0..nl.value] == block[..nl.value];
    }
  }

  lemma ConsOf(head: string, tail: seq<string>)
    ensures ([head] + tail)[0] == head && ([head] + tail)[1..] == tail
  {}

  /** The lines behind the first are those of the rest. */
  lemma LaterLineAt(block: string, lines: seq<string>, tail: seq<string>, k: nat)
    requires 0 < k < |lines| && tail == lines[1..] && |lines[0]| + 1 <= |block|
    requires LineFound(block[|lines[0]| + 1..], StartOf(tail, k - 1), tail[k - 1], k == |tail|)
    ensures LineFound(block, StartOf(lines, k), lines[k], k == |tail|)
  {
    var p, from, line := |lines[0]| + 1, StartOf(tail, k - 1), tail[k - 1];
    FoundInTail(block, p, from, line, k == |tail|);
    StartOfTail(lines, k);
    assert line == lines[k];
  }

  lemma LinesBehind(block: string)
    requires |SplitLines(block)| > 1
    ensures var lines := SplitLines(block);
      |lines[0]| + 1 <= |block| && SplitLines(block[|lines[0]| + 1..]) == lines[1..]
  {
    var p := Find(block, '\n', 0).value;
    ConsOf(block[..p], SplitLines(block[p + 1..]));
  }

  /** Line k of a block is found where it starts. */
  lemma {:induction false} LineAt(block: string, k: nat)
    requires k < |SplitLines(block)|
    ensures var lines := SplitLines(block);
      LineFound(block, StartOf(lines, k), lines[k], k + 1 == |lines|)
    decreases |block|
  {
    if k == 0 {
      FirstLineAt(block);
    } else {
      var lines := SplitLines(block);
      LinesBehind(block);
      LineAt(block[|lines[0]| + 1..], k - 1);
      LaterLineAt(block, lines, lines[1..], k);
    }
  }

  /** The value of the last of the first k lines that starts with the prefix. */
  function ValueAfter(lines: seq<string>, k: nat, prefix: string): string
    requires k <= |lines|
  {
    if k == 0 then ""
    else if prefix <= lines[k - 1] then lines[k - 1][|prefix|..]
    else ValueAfter(lines, k - 1, prefix)
  }

  lemma {:induction false} ValueAfterIsLast(lines: seq<string>, k: nat, prefix: string)
    requires k <= |lines|
    ensures ValueAfter(lines, k, prefix) == LastValue(lines[..k], prefix)
  {
    if k > 0 {
      assert lines[..k] == lines[..k - 1] + [lines[k - 1]];
      LastValueAppend(lines[..k - 1], lines[k - 1], prefix);
      ValueAfterIsLast(lines, k - 1, prefix);
    }
  }

  lemma ReadsBlock(block: string)
    ensures var lines := SplitLines(block);
      ValueAfter(lines, |lines|, EVENT) == TypeOf(block) && ValueAfter(lines, |lines|, DATA) == DataOf(block)
  {
    var lines := SplitLines(block);
    ValueAfterIsLast(lines, |lines|, EVENT);
    ValueAfterIsLast(lines, |lines|, DATA);
    assert lines[..|lines|] == lines;
  }

  lemma OnePrefix(line: string)
    ensures !(EVENT <= line && DATA <= line)
  {
    if EVENT <= line {
      assert line[0] == EVENT[0] != DATA[0];
    }
  }

  /** The inner loop of `feed`. */
  method ReadBlock(block: string) returns (eventType: string, dataLine: string)
    ensures eventType == TypeOf(block)
    ensures dataLine == DataOf(block)
  {
    eventType, dataLine := "", "";
    var start := 0;
    ghost var lines, k := SplitLines(block), 0;
    while start <= |block|
      invariant k < |lines| && lines == SplitLines(block) && start == StartOf(lines, k) <= |block|
      invariant eventType == ValueAfter(lines, k, EVENT)
      invariant dataLine == ValueAfter(lines, k, DATA)
      decreases |block| - start
    {
      LineAt(block, k);
      var nl := Find(block, '\n', start);
      var line := if nl.None? then block[start..] else block[start..nl.value];
      OnePrefix(line);
      if EVENT <= line {
        eventType := line[7..];
      } else if DATA <= line {
        dataLine := line[6..];
      }
      k := k + 1;
      if nl.None? {
        break;
      }
      start := nl.value + 1;
    }
    ReadsBlock(block);
  }

  class AnthropicStreamParser {
    var buffer: string
    var done: bool

    ghost function State(): Parser
      reads this
    {
      Parser(buffer, done)
    }

    constructor ()
      ensures State() == FRESH
    {
      buffer, done := "", false;
    }

    method Feed(decode: Decoder, raw: string) returns (texts: seq<string>)
      modifies this
      ensures Fed(State(), texts) == Framing.Feed(Reader(decode).Read, old(State()), raw)
    {
      buffer := buffer + raw;
      texts := [];
      ghost var whole := buffer;
      ghost var cut: seq<string> := [];
      Nil(Frame(whole).blocks);
      while true
        invariant Frame(whole) == Framed(cut + Frame(buffer).blocks, Frame(buffer).rest)
        invariant texts == Texts(Reader(decode).Read, cut)
        invariant done == (old(done) || SawDone(Reader(decode).Read, cut))
        decreases |buffer|
      {
        var pos := FindBreak(buffer, 0);
        if pos.None? {
          Nil(cut);
          break;
        }
        var block := buffer[..pos.value];
        buffer := buffer[pos.value + 2..];
        CutOne(Reader(decode).Read, cut, block, Frame(buffer).blocks);
        cut := cut + [block];

        var eventType, dataLine := ReadBlock(block);
        if eventType == "message_stop" {
          done := true;
          continue;
        }
        if eventType == "content_block_delta" && dataLine != "" {
          var text := decode(dataLine);
          if text.Some? {
            texts := texts + [text.value];
          }
        }
      }
    }
  }

  /** Split independence of the Anthropic parser: texts, buffer and flag depend on the bytes alone. */
  lemma AnthropicSplitIndependence(decode: Decoder, a: seq<string>, b: seq<string>)
    requires Concat(a) == Concat(b)
    ensures FeedAll(Reader(decode).Read, FRESH, a) == FeedAll(Reader(decode).Read, FRESH, b)
  {
    SplitIndependence(Reader(decode).Read, FRESH, a, b);
  }

  // ---- Agreement with the standard -------------------------------------------------------

  datatype Sent = Sent(kind: string, data: string)

  function TypedBlock(e: Sent): string {
    "event: " + e.kind + "\n" + "data: " + e.data
  }

  function TypedBlocks(es: seq<Sent>): (bs: seq<string>)
    ensures |bs| == |es| && forall i :: 0 <= i < |bs| ==> bs[i] == TypedBlock(es[i])
  {
    if es == [] then [] else [TypedBlock(es[0])] + TypedBlocks(es[1..])
  }

  ghost predicate WellFormed(e: Sent) {
    e.kind != "" && SingleLine(e.kind) && SingleLine(e.data)
  }

  /** What the parser reads from a well-formed block is what was sent. */
  lemma ReadsTyped(e: Sent)
    requires WellFormed(e)
    ensures TypeOf(TypedBlock(e)) == e.kind && DataOf(TypedBlock(e)) == e.data
  {
    TypedEvent(NEW, e.kind, e.data);
    var l1, l2 := EVENT + e.kind, DATA + e.data;
    assert SplitLines(TypedBlock(e)) == [l1] + [l2];
    DropAppend(EVENT, e.kind);
    DropAppend(DATA, e.data);
    assert !(EVENT <= l2) by {
      assert l2[0] == DATA[0] && EVENT[0] == 'e';
    }
    LastValueAppend([l1], l2, EVENT);
    LastValueAppend([l1], l2, DATA);
    LastValueAppend([], l1, EVENT);
    Nil([l1]);
  }

  lemma TypedClean(e: Sent)
    requires WellFormed(e)
    ensures Clean(TypedBlock(e)) && NoCr(TypedBlock(e))
  {
    var l1, l2 := EVENT + e.kind, DATA + e.data;
    assert SingleLine(EVENT) && SingleLine(DATA);
    assert SingleLine(l1) && SingleLine(l2);
    TwoLinesClean(l1, l2);
    Assoc(l1 + "\n", DATA, e.data);
  }

  function EventOutcomes(decode: Decoder, events: seq<Event>): seq<Outcome> {
    if events == [] then []
    else [EventOutcome(decode, events[0].kind, events[0].data)] + EventOutcomes(decode, events[1..])
  }

  function TextsOf(outcomes: seq<Outcome>): seq<string> {
    if outcomes == [] then [] else TextOf(outcomes[0]) + TextsOf(outcomes[1..])
  }

  /** The (type, data) pair the parser reads from each block. */
  function Pairs(blocks: seq<string>): (pairs: seq<Sent>)
    ensures |pairs| == |blocks|
    ensures forall i :: 0 <= i < |pairs| ==> pairs[i] == Sent(TypeOf(blocks[i]), DataOf(blocks[i]))
  {
    if blocks == [] then [] else [Sent(TypeOf(blocks[0]), DataOf(blocks[0]))] + Pairs(blocks[1..])
  }

  /** The (type, data) pair of each event the standard dispatches. */
  function EventPairs(events: seq<Event>): seq<Sent> {
    if events == [] then [] else [Sent(events[0].kind, events[0].data)] + EventPairs(events[1..])
  }

  lemma {:induction false} EventPairsAppend(a: seq<Event>, b: seq<Event>)
    ensures EventPairs(a + b) == EventPairs(a) + EventPairs(b)
  {
    if a == [] {
      Nil(b);
      Nil(EventPairs(b));
    } else {
      HeadTail(a, b);
      EventPairsAppend(a[1..], b);
      Assoc([Sent(a[0].kind, a[0].data)], EventPairs(a[1..]), EventPairs(b));
    }
  }

  lemma {:induction false} TypedBlocksAgree(c: Client, es: seq<Sent>)
    requires Quiet(c)
    requires forall e :: e in es ==> WellFormed(e)
    ensures EventPairs(RunBlocks(c, TypedBlocks(es)).events) == EventPairs(c.events) + Pairs(TypedBlocks(es))
    ensures Pairs(TypedBlocks(es)) == es
    decreases |es|
  {
    if es == [] {
      Nil(EventPairs(c.events));
    } else {
      var e := es[0];
      assert e in es && forall x :: x in es[1..] ==> x in es;
      ReadsTyped(e);
      TypedEvent(c, e.kind, e.data);
      var event := Event(e.kind, e.data, c.id);
      EventPairsAppend(c.events, [event]);
      Nil([e]);
      HeadTail([TypedBlock(e)], TypedBlocks(es[1..]));
      TypedBlocksAgree(c.(events := c.events + [event]), es[1..]);
      Assoc(EventPairs(c.events), [e], es[1..]);
      Uncons(es);
    }
  }

  lemma {:induction false} TypedNoCr(es: seq<Sent>)
    requires forall e :: e in es ==> WellFormed(e)
    ensures NoCr(Join(TypedBlocks(es))) && AllClean(TypedBlocks(es))
  {
    if es != [] {
      assert es[0] in es && forall x :: x in es[1..] ==> x in es;
      TypedClean(es[0]);
      TypedNoCr(es[1..]);
      HeadTail([TypedBlock(es[0])], TypedBlocks(es[1..]));
    }
  }

  lemma {:induction false} TypedTake(es: seq<Sent>, k: nat)
    requires k <= |es|
    ensures TypedBlocks(es[..k]) == TypedBlocks(es)[..k]
  {
    var a, b := TypedBlocks(es[..k]), TypedBlocks(es)[..k];
    assert |a| == |b|;
    assert forall i :: 0 <= i < k ==> a[i] == b[i];
  }

  lemma PrefixBlocks(es: seq<Sent>, n: nat) returns (k: nat)
    requires forall e :: e in es ==> WellFormed(e)
    requires n <= |Join(TypedBlocks(es))|
    ensures k <= |es| && Frame(Join(TypedBlocks(es))[..n]).blocks == TypedBlocks(es[..k])
    ensures NoCr(Join(TypedBlocks(es))[..n])
  {
    var s := Join(TypedBlocks(es));
    TypedNoCr(es);
    FrameComplete(TypedBlocks(es), "");
    Nil(s);
    PrefixFrame(s, n);
    k := |Frame(s[..n]).blocks|;
    TypedTake(es, k);
    assert forall ch :: ch in s[..n] ==> ch in s;
  }

  /** After any number of bytes of well-formed events, parser and standard have seen the same pairs. */
  lemma PairsAgree(es: seq<Sent>, n: nat)
    requires forall e :: e in es ==> WellFormed(e)
    requires n <= |Join(TypedBlocks(es))|
    ensures var s := Join(TypedBlocks(es))[..n];
      Pairs(Frame(s).blocks) == EventPairs(Run(NEW, s).events) && EventPairs(Run(NEW, s).events) <= es
  {
    var s := Join(TypedBlocks(es))[..n];
    var k := PrefixBlocks(es, n);
    FramingAgrees(s);
    assert forall e :: e in es[..k] ==> e in es;
    TypedBlocksAgree(NEW, es[..k]);
    Nil(es[..k]);
  }

  lemma {:induction false} TextsFromPairs(decode: Decoder, blocks: seq<string>, events: seq<Event>)
    requires Pairs(blocks) == EventPairs(events)
    ensures Texts(Reader(decode).Read, blocks) == TextsOf(EventOutcomes(decode, events))
    ensures SawDone(Reader(decode).Read, blocks) <==> exists e :: e in events && e.kind == "message_stop"
  {
    if blocks == [] {
      assert events == [];
    } else {
      assert events != [];
      var b, e := blocks[0], events[0];
      assert Pairs(blocks)[0] == Sent(TypeOf(b), DataOf(b)) == Sent(e.kind, e.data);
      assert Pairs(blocks[1..]) == Pairs(blocks)[1..] == EventPairs(events)[1..] == EventPairs(events[1..]);
      TextsFromPairs(decode, blocks[1..], events[1..]);
      SawDoneAppend(Reader(decode).Read, [b], blocks[1..]);
      Uncons(blocks);
      assert SawDone(Reader(decode).Read, [b]) <==> Reader(decode).Read([b][0]).Done?;
      assert forall x :: x in events <==> x == e || x in events[1..];
      HeadTail([EventOutcome(decode, e.kind, e.data)], EventOutcomes(decode, events[1..]));
    }
  }

  /** What one block means, by its type and data. */
  lemma ReadExact(decode: Decoder, block: string)
    ensures var data := DataOf(block);
      && (Reader(decode).Read(block).Done? <==> TypeOf(block) == "message_stop")
      && (Reader(decode).Read(block).Text? <==>
           TypeOf(block) == "content_block_delta" && data != "" && decode(data).Some?)
      && (Reader(decode).Read(block).Text? ==> decode(data) == Some(Reader(decode).Read(block).text))
  {}

  /**
   After any number of bytes of well-formed events, the texts are, in order, the decoded data of exactly
   the complete events of kind "content_block_delta" with non-empty decodable data.
   */
  lemma {:induction false} TextsOfSent(decode: Decoder, es: seq<Sent>, n: nat) returns (idx: seq<nat>)
    requires forall e :: e in es ==> WellFormed(e)
    requires n <= |Join(TypedBlocks(es))|
    ensures var s := Join(TypedBlocks(es))[..n];
      var texts, complete := Framing.Feed(Reader(decode).Read, FRESH, s).texts, |Frame(s).blocks|;
      && complete <= |es| && Positions(idx, complete) && |idx| == |texts|
      && (forall k :: 0 <= k < |idx| ==>
           es[idx[k]].kind == "content_block_delta" && es[idx[k]].data != ""
           && decode(es[idx[k]].data) == Some(texts[k]))
      && (forall i | 0 <= i < complete ::
           es[i].kind == "content_block_delta" && es[i].data != "" && decode(es[i].data).Some? ==> i in idx)
  {
    var s := Join(TypedBlocks(es))[..n];
    var blocks := Frame(s).blocks;
    PairsAgree(es, n);
    Nil(s);
    assert Pairs(blocks) <= es;
    forall i | 0 <= i < |blocks|
      ensures TypeOf(blocks[i]) == es[i].kind && DataOf(blocks[i]) == es[i].data
    {
      assert Pairs(blocks)[i] == es[i];
    }
    idx := TextsAt(Reader(decode).Read, blocks);
    forall i | 0 <= i < |blocks|
      ensures Reader(decode).Read(blocks[i]).Text? <==>
        es[i].kind == "content_block_delta" && es[i].data != "" && decode(es[i].data).Some?
      ensures Reader(decode).Read(blocks[i]).Text? ==> decode(es[i].data) == Some(Reader(decode).Read(blocks[i]).text)
    {
      ReadExact(decode, blocks[i]);
    }
  }

  /** So the texts and the flag of `feed` are those of the events the standard dispatches. */
  lemma AnthropicStandardAgreement(decode: Decoder, es: seq<Sent>, n: nat)
    requires forall e :: e in es ==> WellFormed(e)
    requires n <= |Join(TypedBlocks(es))|
    ensures var s := Join(TypedBlocks(es))[..n];
      var fed, events := Framing.Feed(Reader(decode).Read, FRESH, s), Run(NEW, s).events;
      fed.texts == TextsOf(EventOutcomes(decode, events))
      && (fed.parser.done <==> exists e :: e in events && e.kind == "message_stop")
  {
    var s := Join(TypedBlocks(es))[..n];
    PairsAgree(es, n);
    TextsFromPairs(decode, Frame(s).blocks, Run(NEW, s).events);
    Nil(s);
  }
}
