/** How `sse_handler` relates to a client that follows the HTML Living Standard. */
module SseStandard {
  import opened Seqs
  import opened Framing
  import opened EventStream
  import opened Sse

  /** A block "data: v" with v non-empty and on one line. */
  ghost predicate Simple(block: string) {
    PREFIX <= block && |block| > |PREFIX| && SingleLine(block)
  }

  function WithoutDone(vs: seq<string>): seq<string> {
    if vs == [] then []
    else (if vs[0] == DONE then [] else [vs[0]]) + WithoutDone(vs[1..])
  }

  lemma {:induction false} DatasAppend(a: seq<Event>, b: seq<Event>)
    ensures Datas(a + b) == Datas(a) + Datas(b)
  {
    if a == [] {
      Nil(b);
      Nil(Datas(b));
    } else {
      HeadTail(a, b);
      DatasAppend(a[1..], b);
      Assoc([a[0].data], Datas(a[1..]), Datas(b));
    }
  }

  // ---- What a standard client makes of one chunk ----------------------------------------

  predicate IsNewline(ch: char) {
    ch == '\n' || ch == '\r'
  }

  function Pending(c: Client): nat {
    |c.data| + |c.line|
  }

  ghost predicate Shorter(events: seq<Event>, limit: nat) {
    forall e :: e in events ==> |e.data| < limit
  }

  lemma FieldPending(c: Client, name: string, value: string, k: nat)
    requires |name| + |value| <= k && (name == "data" ==> 1 + |value| <= k)
    ensures |Field(c, name, value).data| <= |c.data| + k
    ensures Field(c, name, value).events == c.events && Field(c, name, value).line == c.line
  {}

  lemma LinePending(c: Client, line: string)
    requires line != ""
    ensures var d := ProcessLine(c, line);
      |d.data| <= |c.data| + |line| && d.events == c.events && d.line == c.line
  {
    match Find(line, ':', 0)
    case None =>
      FieldPending(c, line, "", |line|);
    case Some(p) =>
      if p != 0 {
        FieldPending(c, line[..p], WithoutSpace(line[p + 1..]), |line|);
      }
  }

  lemma DispatchPending(c: Client, limit: nat)
    requires Shorter(c.events, limit) && |c.data| <= limit
    requires c.data != "" ==> Last(c.data) == '\n'
    ensures var d := Dispatch(c);
      d.data == "" && d.line == c.line && Shorter(d.events, limit)
  {}

  /** The data buffer is empty or ends in LF. */
  ghost predicate Terminated(c: Client) {
    c.data != "" ==> Last(c.data) == '\n'
  }

  lemma EndLinePending(c: Client, limit: nat)
    requires Terminated(c) && Shorter(c.events, limit) && Pending(c) <= limit
    ensures var d := EndLine(c);
      Terminated(d) && Shorter(d.events, limit) && Pending(d) <= Pending(c)
  {
    if c.line == "" {
      DispatchPending(c.(line := ""), limit);
    } else {
      LinePending(c.(line := ""), c.line);
    }
  }

  /** Newlines never add to what is pending; every other character adds at most one. */
  lemma NextPending(c: Client, ch: char, limit: nat)
    requires Terminated(c) && Shorter(c.events, limit)
    requires Pending(c) + (if IsNewline(ch) then 0 else 1) <= limit
    ensures var d := Next(c, ch);
      Terminated(d) && Shorter(d.events, limit)
      && Pending(d) <= Pending(c) + (if IsNewline(ch) then 0 else 1)
  {
    if IsNewline(ch) {
      EndLinePending(c, limit);
    }
  }

  lemma {:induction false} RunPending(c: Client, s: string, limit: nat)
    requires Terminated(c) && Shorter(c.events, limit) && Pending(c) + |s| <= limit
    ensures var d := Run(c, s);
      Terminated(d) && Shorter(d.events, limit) && Pending(d) <= limit
    decreases |s|
  {
    if s != "" {
      NextPending(c, s[0], limit);
      RunPending(Next(c, s[0]), s[1..], limit);
    }
  }

  lemma {:induction false} FirstNewline(m: string) returns (k: nat)
    requires !SingleLine(m)
    ensures k < |m| && IsNewline(m[k]) && SingleLine(m[..k])
  {
    if IsNewline(m[0]) {
      k := 0;
    } else {
      var j := FirstNewline(m[1..]);
      k := j + 1;
      assert m[..k] == [m[0]] + m[1..][..j];
    }
  }

  lemma FirstLineEnds(c: Client, head: string, ch: char)
    requires Quiet(c) && SingleLine(head) && IsNewline(ch)
    ensures var d := Run(c, (PREFIX + head) + [ch]);
      d.data == head + "\n" && d.line == "" && d.events == c.events
  {
    var line := PREFIX + head;
    assert SingleLine(PREFIX) && SingleLine(line);
    RunAppend(c, line, [ch]);
    RunInLine(c, line);
    Nil(line);
    DataLine(c, head);
    Nil(head);
    assert [ch][1..] == "";
    assert Run(c.(line := line), [ch]) == Next(c.(line := line), ch);
  }

  lemma TwoMoreNewlines(c: Client, limit: nat)
    requires Terminated(c) && Shorter(c.events, limit) && Pending(c) <= limit
    ensures Shorter(Run(c, "\n\n").events, limit)
  {
    NextPending(c, '\n', limit);
    NextPending(Next(c, '\n'), '\n', limit);
    assert "\n\n"[1..] == "\n" && "\n"[1..] == "";
    assert Run(c, "\n\n") == Next(Next(c, '\n'), '\n');
  }

  /** A newline inside m ends the first line early, and no event can make up for it. */
  lemma BrokenChunk(c: Client, m: string)
    requires Quiet(c) && c.events == [] && !SingleLine(m)
    ensures Shorter(Run(c, MakeChunk(m)).events, |m|)
  {
    var k := FirstNewline(m);
    var head, ch, tail := m[..k], m[k], m[k + 1..];
    var first := (PREFIX + head) + [ch];
    FirstLineEnds(c, head, ch);
    assert m == head + [ch] + tail;
    Assoc(PREFIX, head, [ch]);
    Assoc(PREFIX, head + [ch], tail);
    RunAppend(c, first + tail, "\n\n");
    RunAppend(c, first, tail);
    FrontLast(head, '\n');
    RunPending(Run(c, first), tail, |m|);
    TwoMoreNewlines(Run(c, first + tail), |m|);
  }

  /** A standard client gets exactly m out of `make_chunk(m)` if and only if m is on one line. */
  lemma {:induction false} StandardClientExact(m: string)
    ensures Datas(Run(NEW, MakeChunk(m)).events) == [m] <==> SingleLine(m)
  {
    if SingleLine(m) {
      ChunkIsOneEvent(NEW, m);
      Nil([m]);
    } else {
      BrokenChunk(NEW, m);
      var events := Run(NEW, MakeChunk(m)).events;
      if |events| == 1 {
        assert events[0] in events;
      }
    }
  }

  lemma ChunkIsOneEvent(c: Client, m: string)
    requires Quiet(c) && SingleLine(m)
    ensures var d := c.(events := c.events + [Event("message", m, c.id)]);
      Run(c, MakeChunk(m)) == d && Datas(d.events) == Datas(c.events) + [m]
  {
    var block := PREFIX + m;
    assert SingleLine(PREFIX) && NoCr(block);
    RunJoin(c, [block]);
    Nil(Bytes(block));
    DataBlock(c, m);
    assert RunBlocks(c, [block]) == RunOneBlock(c, block);
    DatasAppend(c.events, [Event("message", m, c.id)]);
    Nil([m]);
  }

  /** A reply of single-line messages reaches a standard client whole and in order. */
  lemma {:induction false} StandardClientDecodes(c: Client, ms: seq<string>)
    requires Quiet(c)
    requires forall m :: m in ms ==> SingleLine(m)
    ensures Datas(Run(c, Stream(ms)).events) == Datas(c.events) + ms && Quiet(Run(c, Stream(ms)))
    decreases |ms|
  {
    if ms == [] {
      Nil(Datas(c.events));
    } else {
      var m := ms[0];
      assert m in ms && forall x :: x in ms[1..] ==> x in ms;
      ChunkIsOneEvent(c, m);
      RunAppend(c, MakeChunk(m), Stream(ms[1..]));
      StandardClientDecodes(Run(c, MakeChunk(m)), ms[1..]);
      Assoc(Datas(c.events), [m], ms[1..]);
      Uncons(ms);
    }
  }

  // ---- When feed agrees with the standard ------------------------------------------------

  /** After the bytes s: the messages are the dispatched data but for end marks, which set the flag. */
  ghost predicate AgreesOn(s: string) {
    var fed, datas := Framing.Feed(Payload, FRESH, s), Datas(Run(NEW, s).events);
    fed.texts == WithoutDone(datas) && (fed.parser.done <==> DONE in datas)
  }

  /** The data the standard dispatches for complete blocks. */
  function Dispatched(blocks: seq<string>): seq<string> {
    Datas(Run(NEW, Join(blocks)).events)
  }

  ghost predicate Agree(blocks: seq<string>) {
    Texts(Payload, blocks) == WithoutDone(Dispatched(blocks))
    && (SawDone(Payload, blocks) <==> DONE in Dispatched(blocks))
  }

  ghost predicate AllNoCr(blocks: seq<string>) {
    forall b :: b in blocks ==> NoCr(b)
  }

  /** A blank block or one data line. */
  ghost predicate Plain(block: string) {
    block == "" || Simple(block)
  }

  /** Only plain blocks, and the bare end mark once the flag is set anyway. */
  ghost predicate AllPlain(blocks: seq<string>) {
    forall i :: 0 <= i < |blocks| ==> Plain(blocks[i]) || (blocks[i] == DONE && (PREFIX + DONE) in blocks[..i])
  }

  /** The events dispatched before do not influence what comes. */
  function Forget(c: Client): Client {
    c.(events := [])
  }

  function Shifted(events: seq<Event>, c: Client): Client {
    c.(events := events + c.events)
  }

  lemma LineForgets(c: Client, line: string)
    ensures ProcessLine(c, line) == Shifted(c.events, ProcessLine(Forget(c), line))
  {
    Nil(c.events);
    if line == "" && c.data != "" {
      var kind := if c.kind == "" then "message" else c.kind;
      Nil([Event(kind, if Last(c.data) == '\n' then Front(c.data) else c.data, c.id)]);
    }
  }

  lemma NextForgets(c: Client, ch: char)
    ensures Next(c, ch) == Shifted(c.events, Next(Forget(c), ch))
  {
    Nil(c.events);
    LineForgets(c.(line := ""), c.line);
  }

  lemma {:induction false} RunForgets(c: Client, s: string)
    ensures Run(c, s) == Shifted(c.events, Run(Forget(c), s))
    decreases |s|
  {
    if s == "" {
      Nil(c.events);
    } else {
      var d, e := Next(c, s[0]), Next(Forget(c), s[0]);
      NextForgets(c, s[0]);
      RunForgets(d, s[1..]);
      RunForgets(e, s[1..]);
      Assoc(c.events, e.events, Run(Forget(e), s[1..]).events);
    }
  }

  /** One more block: what the standard dispatches for it, started in a quiet state without events. */
  lemma OneMore(init: seq<string>, b: string) returns (c: Client)
    requires AllNoCr(init)
    ensures Quiet(c) && c.events == []
    ensures Dispatched(init + [b]) == Dispatched(init) + Datas(Run(c, Bytes(b)).events)
  {
    var e := Run(NEW, Join(init));
    c := Forget(e);
    RunJoin(NEW, init);
    JoinAppend(init, [b]);
    Nil(Bytes(b));
    assert Join([b]) == Bytes(b) + Join([b][1..]);
    RunAppend(NEW, Join(init), Bytes(b));
    RunForgets(e, Bytes(b));
    DatasAppend(e.events, Run(c, Bytes(b)).events);
  }

  lemma {:induction false} WithoutDoneAppend(a: seq<string>, b: seq<string>)
    ensures WithoutDone(a + b) == WithoutDone(a) + WithoutDone(b)
  {
    if a == [] {
      Nil(b);
      Nil(WithoutDone(b));
    } else {
      HeadTail(a, b);
      WithoutDoneAppend(a[1..], b);
      Assoc(if a[0] == DONE then [] else [a[0]], WithoutDone(a[1..]), WithoutDone(b));
    }
  }

  lemma {:induction false} WithoutDoneIn(vs: seq<string>, v: string)
    ensures v in WithoutDone(vs) ==> v in vs
  {
    if vs != [] {
      WithoutDoneIn(vs[1..], v);
    }
  }

  lemma BlankBlock(c: Client)
    requires Quiet(c)
    ensures Run(c, Bytes("")) == c
  {
    assert Bytes("") == "\n\n" && "\n\n"[1..] == "\n" && "\n"[1..] == "";
    assert Next(c, '\n') == c;
  }

  lemma BareDone(c: Client)
    requires Quiet(c)
    ensures Run(c, Bytes(DONE)) == c
  {
    assert SingleLine(DONE);
    OneLine(DONE);
    Absent(DONE, ':');
    assert ProcessLines(c, [DONE]) == ProcessLine(c, DONE) == c;
    RunJoin(c, [DONE]);
    Nil(Bytes(DONE));
    assert Join([DONE]) == Bytes(DONE);
    assert RunBlocks(c, [DONE]) == RunOneBlock(c, DONE);
  }

  /** The standard cannot dispatch as much data as the block is long. */
  lemma BlockIsLonger(c: Client, block: string, limit: nat)
    requires Quiet(c) && c.events == [] && limit == |block|
    ensures Shorter(Run(c, Bytes(block)).events, limit)
  {
    RunAppend(c, block, "\n\n");
    RunPending(c, block, limit);
    TwoMoreNewlines(Run(c, block), limit);
  }

  lemma NotDispatched(events: seq<Event>, m: string)
    requires Shorter(events, |m|)
    ensures WithoutDone(Datas(events)) != [m]
  {
    forall i | 0 <= i < |events|
      ensures |Datas(events)[i]| < |m|
    {
      assert events[i] in events;
    }
    assert m in [m];
    WithoutDoneIn(Datas(events), m);
  }

  /** One block on its own: the message is the dispatched data for plain blocks and the bare end mark. */
  lemma PlainBlock(c: Client, b: string)
    requires Quiet(c) && c.events == [] && (Plain(b) || b == DONE)
    ensures var ds := Datas(Run(c, Bytes(b)).events);
      TextOf(Payload(b)) == WithoutDone(ds) && (DONE in ds <==> b == PREFIX + DONE)
      && (Payload(b).Done? <==> b == PREFIX + DONE || b == DONE)
  {
    if b == "" {
      BlankBlock(c);
    } else if b == DONE {
      BareDone(c);
    } else {
      var v := b[|PREFIX|..];
      SplitAt(b, |PREFIX|);
      assert b == PREFIX + v;
      ChunkIsOneEvent(c, v);
      PayloadOfChunk(v);
      assert [v][1..] == [] && DONE in [v] <==> v == DONE;
      Nil([v]);
    }
  }

  lemma OtherBlock(c: Client, b: string)
    requires Quiet(c) && c.events == [] && !Plain(b) && b != DONE
    ensures TextOf(Payload(b)) != WithoutDone(Datas(Run(c, Bytes(b)).events))
  {
    if PREFIX <= b {
      var v := b[|PREFIX|..];
      SplitAt(b, |PREFIX|);
      assert b == PREFIX + v;
      PayloadOfChunk(v);
      assert SingleLine(PREFIX);
      if v == "" {
        ChunkIsOneEvent(c, v);
      } else {
        assert !SingleLine(v) && SingleLine(DONE);
        BrokenChunk(c, v);
        NotDispatched(Run(c, MakeChunk(v)).events, v);
      }
    } else {
      BlockIsLonger(c, b, |b|);
      NotDispatched(Run(c, Bytes(b)).events, b);
    }
  }

  lemma {:induction false} DoneAmongPlain(blocks: seq<string>)
    requires AllPlain(blocks)
    ensures SawDone(Payload, blocks) <==> (PREFIX + DONE) in blocks
  {
    PayloadOfChunk(DONE);
    if i :| 0 <= i < |blocks| && Payload(blocks[i]).Done? {
      if Plain(blocks[i]) {
        SplitAt(blocks[i], |PREFIX|);
        assert blocks[i] == PREFIX + DONE;
      } else {
        assert (PREFIX + DONE) in blocks[..i];
      }
    }
    if (PREFIX + DONE) in blocks {
      var i :| 0 <= i < |blocks| && blocks[i] == PREFIX + DONE;
      assert Payload(blocks[i]).Done?;
    }
  }

  lemma PlainIsNoCr(blocks: seq<string>)
    requires AllPlain(blocks)
    ensures AllNoCr(blocks)
  {
    assert NoCr(DONE);
    forall b | b in blocks
      ensures NoCr(b)
    {
      var i :| 0 <= i < |blocks| && blocks[i] == b;
    }
  }

  /** As long as both agree, exactly one more plain block, or a late bare end mark, keeps it so. */
  lemma AgreeStep(init: seq<string>, b: string)
    requires Agree(init) && AllPlain(init)
    ensures Agree(init + [b]) <==> Plain(b) || (b == DONE && (PREFIX + DONE) in init)
  {
    PlainIsNoCr(init);
    var c := OneMore(init, b);
    var ds := Datas(Run(c, Bytes(b)).events);
    CutOne(Payload, init, b, []);
    WithoutDoneAppend(Dispatched(init), ds);
    DoneAmongPlain(init);
    if Plain(b) || b == DONE {
      PlainBlock(c, b);
    } else {
      OtherBlock(c, b);
      assert Texts(Payload, init + [b])[|Texts(Payload, init)|..] == TextOf(Payload(b));
      assert WithoutDone(Dispatched(init + [b]))[|WithoutDone(Dispatched(init))|..] == WithoutDone(ds);
    }
  }

  /** After every number of blocks. */
  ghost predicate AlwaysAgree(blocks: seq<string>) {
    forall k :: 0 <= k <= |blocks| ==> Agree(blocks[..k])
  }

  lemma {:induction false} BlocksExact(blocks: seq<string>)
    ensures AlwaysAgree(blocks) <==> AllPlain(blocks)
  {
    if blocks == [] {
      assert blocks[..0] == [];
    } else {
      var init, b := Front(blocks), Last(blocks);
      assert blocks == init + [b];
      BlocksExact(init);
      AllPlainSnoc(init, b);
      AlwaysAgreeSnoc(init, b);
      if AllPlain(init) {
        AgreeStep(init, b);
      }
    }
  }

  lemma AllPlainSnoc(init: seq<string>, b: string)
    ensures AllPlain(init + [b]) <==> AllPlain(init) && (Plain(b) || (b == DONE && (PREFIX + DONE) in init))
  {
    var blocks := init + [b];
    assert forall i :: 0 <= i < |init| ==> blocks[i] == init[i] && blocks[..i] == init[..i];
    assert blocks[|init|] == b && blocks[..|init|] == init;
  }

  lemma AlwaysAgreeSnoc(init: seq<string>, b: string)
    ensures AlwaysAgree(init + [b]) <==> AlwaysAgree(init) && Agree(init + [b])
    ensures AlwaysAgree(init) ==> Agree(init)
  {
    var blocks := init + [b];
    assert forall k :: 0 <= k <= |init| ==> blocks[..k] == init[..k];
    assert blocks[..|blocks|] == blocks && init[..|init|] == init;
  }

  lemma AgreesOnBlocks(s: string)
    requires NoCr(s)
    ensures AgreesOn(s) <==> Agree(Frame(s).blocks)
  {
    FrameSound(s);
    NoCrParts(Frame(s).blocks, Frame(s).rest);
    FramingAgrees(s);
    RunJoin(NEW, Frame(s).blocks);
    Nil(s);
  }

  lemma AgreesOnJoin(blocks: seq<string>)
    requires AllClean(blocks)
    ensures AgreesOn(Join(blocks)) <==> Agree(blocks)
  {
    FrameComplete(blocks, "");
    Nil(Join(blocks));
  }

  /** What the standard dispatches in an incomplete block, where CR ends lines too, is a late end mark. */
  ghost predicate Harmless(blocks: seq<string>, rest: string) {
    forall d :: d in Datas(Run(NEW, rest).events) ==> d == DONE && (PREFIX + DONE) in blocks
  }

  lemma PlainKeepsNew(b: string)
    requires Plain(b) || b == DONE
    ensures Forget(Run(NEW, Bytes(b))) == NEW
  {
    if b == "" {
      BlankBlock(NEW);
    } else if b == DONE {
      BareDone(NEW);
    } else {
      var v := b[|PREFIX|..];
      SplitAt(b, |PREFIX|);
      assert b == PREFIX + v;
      ChunkIsOneEvent(NEW, v);
    }
  }

  lemma {:induction false} AllPlainKeepNew(blocks: seq<string>)
    requires AllPlain(blocks)
    ensures Forget(Run(NEW, Join(blocks))) == NEW
  {
    if blocks != [] {
      var init, b := Front(blocks), Last(blocks);
      assert blocks == init + [b];
      AllPlainSnoc(init, b);
      AllPlainKeepNew(init);
      JoinAppend(init, [b]);
      Nil(Bytes(b));
      assert Join([b]) == Bytes(b) + Join([b][1..]);
      RunAppend(NEW, Join(init), Bytes(b));
      RunForgets(Run(NEW, Join(init)), Bytes(b));
      PlainKeepsNew(b);
    }
  }

  lemma {:induction false} OnlyDone(vs: seq<string>)
    ensures WithoutDone(vs) == [] <==> forall v :: v in vs ==> v == DONE
  {
    if vs != [] {
      OnlyDone(vs[1..]);
      assert vs[0] in vs && forall v :: v in vs <==> v == vs[0] || v in vs[1..];
      Uncons(vs);
    }
  }

  /** What else is dispatched makes no difference. */
  lemma LateDatas(ds: seq<string>, late: seq<string>)
    ensures WithoutDone(ds + late) == WithoutDone(ds) && (DONE in ds + late <==> DONE in ds)
       <==> forall d :: d in late ==> d == DONE && DONE in ds
  {
    WithoutDoneAppend(ds, late);
    OnlyDone(late);
    Nil(WithoutDone(ds));
    assert late != [] ==> late[0] in late;
    assert WithoutDone(ds) + WithoutDone(late) == WithoutDone(ds) ==> |WithoutDone(late)| == 0;
  }

  lemma DispatchedThen(blocks: seq<string>, rest: string)
    requires AllPlain(blocks)
    ensures Datas(Run(NEW, Join(blocks) + rest).events) == Dispatched(blocks) + Datas(Run(NEW, rest).events)
  {
    var c := Run(NEW, Join(blocks));
    RunAppend(NEW, Join(blocks), rest);
    RunForgets(c, rest);
    AllPlainKeepNew(blocks);
    DatasAppend(c.events, Run(NEW, rest).events);
  }

  lemma FedThen(blocks: seq<string>, rest: string)
    requires AllClean(blocks) && !HasBreak(rest)
    ensures Framing.Feed(Payload, FRESH, Join(blocks) + rest)
         == Fed(Parser(rest, SawDone(Payload, blocks)), Texts(Payload, blocks))
  {
    FrameComplete(blocks, rest);
    Nil(Join(blocks) + rest);
  }

  lemma PlainAgree(blocks: seq<string>)
    requires AllPlain(blocks)
    ensures Agree(blocks)
  {
    BlocksExact(blocks);
    assert blocks[..|blocks|] == blocks;
  }

  /** Once every complete block is plain, what is left to agree on is the incomplete one. */
  lemma AgreesOnRest(blocks: seq<string>, rest: string)
    requires AllPlain(blocks) && AllClean(blocks) && !HasBreak(rest)
    ensures AgreesOn(Join(blocks) + rest) <==> Harmless(blocks, rest)
  {
    FedThen(blocks, rest);
    DispatchedThen(blocks, rest);
    PlainAgree(blocks);
    DoneAmongPlain(blocks);
    LateDatas(Dispatched(blocks), Datas(Run(NEW, rest).events));
  }

  /** Events are never taken back. */
  lemma HarmlessPrefix(blocks: seq<string>, rest: string, m: nat)
    requires Harmless(blocks, rest) && m <= |rest|
    ensures Harmless(blocks, rest[..m])
  {
    var c := Run(NEW, rest[..m]);
    SplitAt(rest, m);
    RunAppend(NEW, rest[..m], rest[m..]);
    RunForgets(c, rest[m..]);
    var later := Run(Forget(c), rest[m..]).events;
    DatasAppend(c.events, later);
    assert forall d :: d in Datas(c.events) ==> d in Datas(c.events) + Datas(later);
  }

  lemma NoBreakPrefix(rest: string, m: nat)
    requires !HasBreak(rest) && m <= |rest|
    ensures !HasBreak(rest[..m])
  {
    assert forall i :: BreakAt(rest[..m], i) ==> BreakAt(rest, i);
  }

  lemma {:induction false} JoinNoCr(blocks: seq<string>)
    requires AllNoCr(blocks)
    ensures NoCr(Join(blocks))
  {
    if blocks != [] {
      assert NoCr("\n\n") && blocks[0] in blocks && forall b :: b in blocks[1..] ==> b in blocks;
      JoinNoCr(blocks[1..]);
    }
  }

  lemma PlainAgrees(blocks: seq<string>, n: nat)
    requires AllPlain(blocks) && AllClean(blocks) && n <= |Join(blocks)|
    ensures AgreesOn(Join(blocks)[..n])
  {
    var bytes := Join(blocks);
    PlainIsNoCr(blocks);
    JoinNoCr(blocks);
    FrameComplete(blocks, "");
    Nil(bytes);
    PrefixFrame(bytes, n);
    AgreesOnBlocks(bytes[..n]);
    BlocksExact(blocks);
    assert Frame(bytes[..n]).blocks == blocks[..|Frame(bytes[..n]).blocks|];
  }

  lemma HarmlessAgrees(blocks: seq<string>, rest: string, m: nat)
    requires AllPlain(blocks) && AllClean(blocks) && !HasBreak(rest) && Harmless(blocks, rest) && m <= |rest|
    ensures AgreesOn(Join(blocks) + rest[..m])
  {
    NoBreakPrefix(rest, m);
    HarmlessPrefix(blocks, rest, m);
    AgreesOnRest(blocks, rest[..m]);
  }

  lemma PrefixOf(a: string, b: string, n: nat)
    requires n <= |a + b|
    ensures (a + b)[..n] == if n <= |a| then a[..n] else a + b[..n - |a|]
  {}

  /**
   Exactly when `feed` agrees with the standard after every number of bytes, for every stream: each
   complete block is blank or a single data line, or is the bare end mark after a proper one, and in the
   incomplete block the standard dispatches nothing but further end marks.
   */
  lemma {:induction false} StandardAgreementExact(s: string)
    ensures (forall n :: 0 <= n <= |s| ==> AgreesOn(s[..n]))
       <==> AllPlain(Frame(s).blocks) && Harmless(Frame(s).blocks, Frame(s).rest)
  {
    var f := Frame(s);
    FrameSound(s);
    if AllPlain(f.blocks) && Harmless(f.blocks, f.rest) {
      forall n | 0 <= n <= |s|
        ensures AgreesOn(s[..n])
      {
        PrefixOf(Join(f.blocks), f.rest, n);
        if n <= |Join(f.blocks)| {
          PlainAgrees(f.blocks, n);
        } else {
          HarmlessAgrees(f.blocks, f.rest, n - |Join(f.blocks)|);
        }
      }
    } else if forall n :: 0 <= n <= |s| ==> AgreesOn(s[..n]) {
      forall k | 0 <= k <= |f.blocks|
        ensures Agree(f.blocks[..k])
      {
        var n := BytesOfBlocks(s, k);
        AgreesOnJoin(f.blocks[..k]);
      }
      BlocksExact(f.blocks);
      assert s[..|s|] == s;
      AgreesOnRest(f.blocks, f.rest);
    }
  }

  /** Without CR the incomplete block never matters. */
  lemma HarmlessWithoutCr(blocks: seq<string>, rest: string)
    requires NoCr(rest) && !HasBreak(rest)
    ensures Harmless(blocks, rest)
  {
    NoBreakNoDispatch(NEW, rest);
  }

  /** Any number of first blocks are the blocks of some prefix. */
  lemma BytesOfBlocks(s: string, k: nat) returns (n: nat)
    requires k <= |Frame(s).blocks|
    ensures n <= |s| && s[..n] == Join(Frame(s).blocks[..k])
  {
    var f := Frame(s);
    var head, tail := f.blocks[..k], f.blocks[k..];
    FrameSound(s);
    SplitAt(f.blocks, k);
    JoinAppend(head, tail);
    Assoc(Join(head), Join(tail), f.rest);
    n := |Join(head)|;
    DropAppend(Join(head), Join(tail) + f.rest);
  }

  /** One block, with or without CR: they agree on it if and only if it is blank or a single data line. */
  lemma {:induction false} BlockAgreementExact(block: string)
    requires Clean(block)
    ensures AgreesOn(Bytes(block)) <==> block == "" || Simple(block)
  {
    FeedOne(block);
    if Plain(block) || block == DONE {
      PlainBlock(NEW, block);
      assert DONE[0] != PREFIX[0];
    } else {
      OtherBlock(NEW, block);
    }
  }

  /** Agreement on every CR-free stream whose complete blocks are all of the simple shape. */
  lemma {:induction false} AgreementOnSimpleBlocks(s: string)
    requires NoCr(s)
    requires forall b :: b in Frame(s).blocks ==> Simple(b)
    ensures AgreesOn(s)
  {
    FrameSound(s);
    NoCrParts(Frame(s).blocks, Frame(s).rest);
    HarmlessWithoutCr(Frame(s).blocks, Frame(s).rest);
    StandardAgreementExact(s);
    assert s[..|s|] == s;
  }

  lemma {:induction false} StreamNoCr(vs: seq<string>)
    requires forall v :: v in vs ==> v != "" && SingleLine(v)
    ensures NoCr(Stream(vs))
    ensures forall b :: b in ChunkBlocks(vs) ==> Simple(b) && Clean(b)
  {
    if vs != [] {
      assert vs[0] in vs && forall v :: v in vs[1..] ==> v in vs;
      assert NoCr(MakeChunk(vs[0])) by {
        assert NoCr(PREFIX) && NoCr("\n\n");
      }
      assert SingleLine(PREFIX);
      assert Simple(PREFIX + vs[0]) by {
        DropAppend(PREFIX, vs[0]);
      }
      assert Clean(vs[0]);
      PrefixedClean(vs[0]);
      StreamNoCr(vs[1..]);
    }
  }

  /**
   Standard agreement: after any number of bytes of a stream of `data: v` events, `feed` has
   returned what the standard has dispatched, with "[DONE]" events turned into the flag.
   */
  lemma {:induction false} StandardAgreement(vs: seq<string>, n: nat)
    requires forall v :: v in vs ==> v != "" && SingleLine(v)
    requires n <= |Stream(vs)|
    ensures AgreesOn(Stream(vs)[..n])
  {
    StreamNoCr(vs);
    StreamIsJoin(vs);
    FrameComplete(ChunkBlocks(vs), "");
    Nil(Stream(vs));
    HarmlessWithoutCr(ChunkBlocks(vs), "");
    StandardAgreementExact(Stream(vs));
  }

  lemma TwoDataLines(a: string, b: string)
    requires SingleLine(a) && SingleLine(b)
    ensures RunOneBlock(NEW, ("data: " + a) + "\n" + ("data: " + b)).events == [Event("message", a + "\n" + b, "")]
  {
    var l1, l2 := "data: " + a, "data: " + b;
    assert SingleLine("data: ");
    TwoLines(l1, l2);
    DataLine(NEW, a);
    Nil(a);
    var c := NEW.(data := a + "\n");
    DataLine(c, b);
    assert [l1, l2][1..] == [l2];
    assert ProcessLines(ProcessLine(NEW, l1), [l2]) == c.(data := a + "\n" + b + "\n");
    FrontLast(a + "\n" + b, '\n');
    Nil([Event("message", a + "\n" + b, "")]);
  }

  lemma TwoDataLinesPayload(a: string, l2: string)
    ensures Payload(("data: " + a) + "\n" + l2) == Text(a + "\n" + l2)
  {
    var v := a + "\n" + l2;
    Assoc("data: ", a, "\n");
    Assoc("data: ", a + "\n", l2);
    PayloadOfChunk(v);
    assert '\n' !in DONE && v[|a|] == '\n';
  }

  lemma RunOne(block: string)
    requires NoCr(block)
    ensures Run(NEW, Bytes(block)) == RunOneBlock(NEW, block)
  {
    RunJoin(NEW, [block]);
    Nil(Bytes(block));
    assert RunBlocks(NEW, [block]) == RunOneBlock(NEW, block);
  }

  /** For instance: two data lines are one event of two lines, prefix dropped. */
  lemma TwoDataLinesDiffer(a: string, b: string)
    requires SingleLine(a) && SingleLine(b)
    ensures var s := Bytes(("data: " + a) + "\n" + ("data: " + b));
      Datas(Run(NEW, s).events) == [a + "\n" + b]
      && Framing.Feed(Payload, FRESH, s).texts == [a + "\n" + ("data: " + b)]
  {
    var l1, l2 := "data: " + a, "data: " + b;
    var block := l1 + "\n" + l2;
    assert SingleLine("data: ");
    TwoLinesClean(l1, l2);
    RunOne(block);
    FeedOne(block);
    TwoDataLines(a, b);
    Nil([a + "\n" + b]);
    TwoDataLinesPayload(a, l2);
  }
}
