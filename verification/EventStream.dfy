/**
 The event stream interpreter of the HTML Living Standard, sections 9.2.5 and 9.2.6, as a fold
 over decoded characters. It is the independent reference the gateway's parsers are compared to.
 The `retry` field only sets a reconnection delay, so it is treated like an unknown field.
 */
module EventStream {
  import opened Basics
  import opened Seqs
  import opened Framing

  datatype Event = Event(kind: string, data: string, id: string)

  /** The unfinished line, the interpreter's three buffers, and the events dispatched so far. */
  datatype Client = Client(line: string, afterCr: bool, kind: string, data: string, id: string, events: seq<Event>)

  const NEW := Client("", false, "", "", "", [])

  function Field(c: Client, name: string, value: string): Client {
    if name == "event" then c.(kind := value)
    else if name == "data" then c.(data := c.data + value + "\n")
    else if name == "id" && '\0' !in value then c.(id := value)
    else c
  }

  function Dispatch(c: Client): Client {
    if c.data == "" then c.(kind := "")
    else
      var kind := if c.kind == "" then "message" else c.kind;
      var data := if Last(c.data) == '\n' then Front(c.data) else c.data;
      c.(kind := "", data := "", events := c.events + [Event(kind, data, c.id)])
  }

  function WithoutSpace(value: string): string {
    if value != "" && value[0] == ' ' then value[1..] else value
  }

  function ProcessLine(c: Client, line: string): Client {
    if line == "" then Dispatch(c)
    else
      match Find(line, ':', 0)
      case None => Field(c, line, "")
      case Some(p) => if p == 0 then c else Field(c, line[..p], WithoutSpace(line[p + 1..]))
  }

  function EndLine(c: Client): Client {
    ProcessLine(c.(line := ""), c.line)
  }

  /** Lines end at LF, CR or CR LF. */
  function Next(c: Client, ch: char): Client {
    if ch == '\n' then
      if c.afterCr then c.(afterCr := false) else EndLine(c)
    else if ch == '\r' then EndLine(c).(afterCr := true)
    else c.(line := c.line + [ch], afterCr := false)
  }

  function Run(c: Client, s: string): Client
    decreases |s|
  {
    if s == "" then c else Run(Next(c, s[0]), s[1..])
  }

  function Datas(events: seq<Event>): (ds: seq<string>)
    ensures |ds| == |events|
    ensures forall i :: 0 <= i < |ds| ==> ds[i] == events[i].data
  {
    if events == [] then [] else [events[0].data] + Datas(events[1..])
  }

  lemma {:induction false} RunAppend(c: Client, s: string, t: string)
    ensures Run(c, s + t) == Run(Run(c, s), t)
    decreases |s|
  {
    if s == "" {
      Nil(t);
    } else {
      HeadTail(s, t);
      RunAppend(Next(c, s[0]), s[1..], t);
    }
  }

  // ---- Lines -----------------------------------------------------------------------------

  predicate NoCr(s: string) {
    '\r' !in s
  }

  predicate SingleLine(s: string) {
    '\r' !in s && '\n' !in s
  }

  /** At the start of a line. */
  ghost predicate Idle(c: Client) {
    c.line == "" && !c.afterCr
  }

  /** At the start of a line with nothing pending: where every event starts. */
  ghost predicate Quiet(c: Client) {
    Idle(c) && c.kind == "" && c.data == ""
  }

  lemma {:induction false} RunInLine(c: Client, s: string)
    requires SingleLine(s) && !c.afterCr
    ensures Run(c, s) == c.(line := c.line + s)
    decreases |s|
  {
    if s == "" {
      Nil(c.line);
    } else {
      assert s[0] in s && forall ch :: ch in s[1..] ==> ch in s;
      RunInLine(Next(c, s[0]), s[1..]);
      Assoc(c.line, [s[0]], s[1..]);
      Uncons(s);
    }
  }

  lemma RunLine(c: Client, s: string)
    requires Idle(c) && SingleLine(s)
    ensures Run(c, s + "\n") == ProcessLine(c, s)
  {
    RunAppend(c, s, "\n");
    RunInLine(c, s);
    Nil(s);
    var d := Run(c, s);
    assert "\n"[1..] == "";
    assert Run(d, "\n") == Next(d, '\n');
  }

  /** A block's lines. */
  function SplitLines(block: string): (lines: seq<string>)
    ensures lines != []
    decreases |block|
  {
    match Find(block, '\n', 0)
    case None => [block]
    case Some(p) => [block[..p]] + SplitLines(block[p + 1..])
  }

  function ProcessLines(c: Client, lines: seq<string>): Client
    decreases |lines|
  {
    if lines == [] then c else ProcessLines(ProcessLine(c, lines[0]), lines[1..])
  }

  lemma ProcessKeepsIdle(c: Client, line: string)
    requires Idle(c)
    ensures Idle(ProcessLine(c, line))
  {}

  lemma {:induction false} RunBlock(c: Client, block: string)
    requires Idle(c) && NoCr(block)
    ensures Run(c, block + "\n") == ProcessLines(c, SplitLines(block))
    ensures Idle(ProcessLines(c, SplitLines(block)))
    decreases |block|
  {
    match Find(block, '\n', 0)
    case None =>
      RunLine(c, block);
      ProcessKeepsIdle(c, block);
      assert ProcessLines(c, [block]) == ProcessLine(c, block);
    case Some(p) =>
      var head, tail := block[..p], block[p + 1..];
      assert NoCr(tail) && SingleLine(head);
      RunLine(c, head);
      ProcessKeepsIdle(c, head);
      RunBlock(ProcessLine(c, head), tail);
      RunAppend(c, head + "\n", tail + "\n");
      Assoc(head + "\n", tail, "\n");
      assert block == head + "\n" + tail;
      HeadTail([head], SplitLines(tail));
  }

  // ---- Blocks ----------------------------------------------------------------------------

  /** What the interpreter does with one block and the blank line that ends it. */
  function RunOneBlock(c: Client, block: string): Client {
    Dispatch(ProcessLines(c, SplitLines(block)))
  }

  function RunBlocks(c: Client, blocks: seq<string>): Client
    decreases |blocks|
  {
    if blocks == [] then c else RunBlocks(RunOneBlock(c, blocks[0]), blocks[1..])
  }

  lemma {:induction false} RunJoin(c: Client, blocks: seq<string>)
    requires Quiet(c)
    requires forall b :: b in blocks ==> NoCr(b)
    ensures Run(c, Join(blocks)) == RunBlocks(c, blocks) && Quiet(RunBlocks(c, blocks))
    decreases |blocks|
  {
    if blocks != [] {
      var block := blocks[0];
      assert block in blocks && forall b :: b in blocks[1..] ==> b in blocks;
      RunBlock(c, block);
      var d := ProcessLines(c, SplitLines(block));
      RunLine(d, "");
      Nil("\n");
      RunAppend(c, block + "\n", "\n");
      Assoc(block, "\n", "\n");
      assert Bytes(block) == block + ("\n" + "\n");
      RunAppend(c, Bytes(block), Join(blocks[1..]));
      RunJoin(Dispatch(d), blocks[1..]);
    }
  }

  lemma ProcessKeepsEvents(c: Client, line: string)
    requires line != ""
    ensures ProcessLine(c, line).events == c.events
  {}

  /** Between two blank lines nothing is dispatched. */
  lemma {:induction false} NoBlankLine(c: Client, s: string)
    requires Idle(c) && NoCr(s) && !HasBreak(s) && (s != "" ==> s[0] != '\n')
    ensures var d := Run(c, s);
      d.events == c.events && !d.afterCr && (d.line == "" <==> s == "" || Last(s) == '\n')
    decreases |s|
  {
    if s != "" {
      var init, ch := Front(s), Last(s);
      assert s == init + [ch];
      assert forall i :: BreakAt(init, i) ==> BreakAt(s, i);
      assert ch in s;
      NoBlankLine(c, init);
      var d := Run(c, init);
      RunAppend(c, init, [ch]);
      assert Run(d, [ch]) == Next(d, ch) by {
        assert [ch][1..] == "";
      }
      if ch == '\n' {
        assert init != "" && !BreakAt(s, |s| - 2);
        ProcessKeepsEvents(d.(line := ""), d.line);
      }
    }
  }

  lemma NoBreakNoDispatch(c: Client, s: string)
    requires Quiet(c) && NoCr(s) && !HasBreak(s)
    ensures Run(c, s).events == c.events
  {
    if s != "" && s[0] == '\n' {
      assert !BreakAt(s, 0);
      var t := s[1..];
      assert forall i :: BreakAt(t, i) ==> BreakAt(s, i + 1);
      NoBlankLine(c, t);
    } else {
      NoBlankLine(c, s);
    }
  }

  lemma {:induction false} NoCrParts(blocks: seq<string>, rest: string)
    requires NoCr(Join(blocks) + rest)
    ensures NoCr(rest) && forall b :: b in blocks ==> NoCr(b)
  {
    if blocks != [] {
      var tail := Join(blocks[1..]) + rest;
      assert Join(blocks) + rest == Bytes(blocks[0]) + tail;
      assert forall ch :: ch in tail ==> ch in Join(blocks) + rest;
      assert forall ch :: ch in blocks[0] ==> ch in Bytes(blocks[0]);
      assert forall ch :: ch in Bytes(blocks[0]) ==> ch in Bytes(blocks[0]) + tail;
      NoCrParts(blocks[1..], rest);
      assert forall b :: b in blocks ==> b == blocks[0] || b in blocks[1..];
    }
  }

  /**
   On every stream without CR, cutting at "\n\n" is the standard's framing: the events the
   standard dispatches are those of the blocks the gateway's loop cuts, one block at a time.
   */
  lemma FramingAgrees(s: string)
    requires NoCr(s)
    ensures Run(NEW, s).events == RunBlocks(NEW, Frame(s).blocks).events
  {
    var f := Frame(s);
    FrameSound(s);
    NoCrParts(f.blocks, f.rest);
    RunAppend(NEW, Join(f.blocks), f.rest);
    RunJoin(NEW, f.blocks);
    NoBreakNoDispatch(RunBlocks(NEW, f.blocks), f.rest);
  }

  // ---- Field lines -----------------------------------------------------------------------

  lemma ColonAfter(name: string, v: string)
    requires ':' !in name
    ensures var line := name + ": " + v;
      Find(line, ':', 0) == Some(|name|) && line[..|name|] == name && line[|name| + 1..] == " " + v
  {
    Assoc(name, ": ", v);
    FirstIs(name, ':', " " + v);
    assert ": " + v == [':'] + (" " + v);
    DropAppend(name, ": " + v);
    assert (": " + v)[1..] == " " + v;
    assert (name + ": " + v)[|name| + 1..] == (": " + v)[1..];
  }

  lemma NamedLine(c: Client, name: string, v: string)
    requires name != "" && ':' !in name
    ensures ProcessLine(c, name + ": " + v) == Field(c, name, v)
  {
    ColonAfter(name, v);
    assert (" " + v)[1..] == v;
  }

  lemma DataLine(c: Client, v: string)
    ensures ProcessLine(c, "data: " + v) == c.(data := c.data + v + "\n")
  {
    NamedLine(c, "data", v);
    assert "data" + ": " == "data: ";
  }

  lemma EventLine(c: Client, t: string)
    ensures ProcessLine(c, "event: " + t) == c.(kind := t)
  {
    NamedLine(c, "event", t);
    assert "event" + ": " == "event: ";
  }

  lemma OneLine(line: string)
    requires '\n' !in line
    ensures SplitLines(line) == [line]
  {
    Absent(line, '\n');
  }

  /** A block of one data line is one event. */
  lemma DataBlock(c: Client, v: string)
    requires Quiet(c) && SingleLine(v)
    ensures RunOneBlock(c, "data: " + v) == c.(events := c.events + [Event("message", v, c.id)])
  {
    var line := "data: " + v;
    assert SingleLine("data: ");
    assert SingleLine(line);
    OneLine(line);
    DataLine(c, v);
    assert ProcessLines(c, [line]) == ProcessLine(c, line);
    Nil(v);
    FrontLast(v, '\n');
    Assoc("", v, "\n");
  }

  /** A block of an event line and a data line is one event of that type. */
  lemma TypedEvent(c: Client, t: string, v: string)
    requires Quiet(c) && t != "" && SingleLine(t) && SingleLine(v)
    ensures SplitLines("event: " + t + "\n" + "data: " + v) == ["event: " + t, "data: " + v]
    ensures RunOneBlock(c, "event: " + t + "\n" + "data: " + v)
         == c.(events := c.events + [Event(t, v, c.id)])
  {
    var l1, l2 := "event: " + t, "data: " + v;
    assert SingleLine("event: ") && SingleLine("data: ");
    assert SingleLine(l1) && SingleLine(l2);
    TwoLines(l1, l2);
    Assoc(l1 + "\n", "data: ", v);
    EventLine(c, t);
    DataLine(c.(kind := t), v);
    var d := c.(kind := t, data := v + "\n");
    Nil(v);
    assert ProcessLine(ProcessLine(c, l1), l2) == d;
    assert [l1, l2][1..] == [l2];
    assert ProcessLines(ProcessLine(c, l1), [l2]) == d;
    FrontLast(v, '\n');
  }

  lemma TwoLines(l1: string, l2: string)
    requires '\n' !in l1 && '\n' !in l2
    ensures SplitLines(l1 + "\n" + l2) == [l1, l2]
  {
    Assoc(l1, "\n", l2);
    FirstIs(l1, '\n', l2);
    DropAppend(l1, "\n" + l2);
    DropAppend(l1 + "\n", l2);
    OneLine(l2);
  }

  lemma TwoLinesClean(l1: string, l2: string)
    requires SingleLine(l1) && SingleLine(l2) && l1 != "" && l2 != ""
    ensures Clean(l1 + "\n" + l2) && NoCr(l1 + "\n" + l2)
  {
    var block := l1 + "\n" + l2;
    forall i
      ensures !BreakAt(block, i)
    {
      assert 0 <= i < |l1| ==> block[i] == l1[i];
      assert i == |l1| ==> block[i + 1] == l2[0];
      assert |l1| < i < |block| ==> block[i] == l2[i - |l1| - 1];
    }
    assert block[|block| - 1] == l2[|l2| - 1];
  }
}
