/** From text to text: reading the relayed stream back gives the rewritten blocks of the source stream. */
module MarkerText {
  import opened Json
  import opened Sequences
  import opened Transducer
  import opened MarkerSpec
  import opened MarkerOrder

  // ---------------------------------------------------------------- a reader of event streams

  /** The line and the block being read. */
  datatype Frame = Frame(buf: string, block: Block)

  const EmptyFrame := Frame("", [])

  /** An empty line ends a block; blocks without lines do not exist. */
  function ReadLine(block: Block, line: string): (Frame, seq<Block>) {
    if line != "" then (Frame("", block + [line]), [])
    else (EmptyFrame, if block == [] then [] else [block])
  }

  /** Lines end with a line feed; `crlf` readers also drop a carriage return before it. */
  function ReadChar(crlf: bool): (Frame, char) -> (Frame, seq<Block>) {
    (f: Frame, c: char) =>
      if c != '\n' then (f.(buf := f.buf + [c]), [])
      else ReadLine(f.block, if crlf then StripCr(f.buf) else f.buf)
  }

  function Read(crlf: bool, f: Frame, text: string): (Frame, seq<Block>) {
    Run(ReadChar(crlf), f, text)
  }

  lemma {:induction false} ReadNoBreak(crlf: bool, f: Frame, text: string)
    requires '\n' !in text
    ensures Read(crlf, f, text) == (f.(buf := f.buf + text), [])
    decreases |text|
  {
    if text == "" {
      assert f.buf + text == f.buf;
    } else {
      var next := f.(buf := f.buf + [text[0]]);
      var none: seq<Block> := [];
      ReadNoBreak(crlf, next, text[1..]);
      RunCons(ReadChar(crlf), f, text[0], text[1..]);
      assert [text[0]] + text[1..] == text;
      assert next.buf + text[1..] == f.buf + text;
      assert ReadChar(crlf)(f, text[0]) == (next, none);
      assert none + none == none;
    }
  }

  /** Concatenation for a reader that has just finished a line. */
  lemma ReadConcat(f: Frame, a: string, b: string)
    ensures
      var (mid, out) := Read(false, f, a);
      var (end, more) := Read(false, mid, b);
      Read(false, f, a + b) == (end, out + more)
  {
    RunConcat(ReadChar(false), f, a, b);
  }

  lemma ReadOneLine(block: Block, line: string)
    requires '\n' !in line
    ensures Read(false, Frame("", block), line + "\n") == ReadLine(block, line)
  {
    var step := ReadChar(false);
    ReadNoBreak(false, Frame("", block), line);
    assert "" + line == line;
    ReadConcat(Frame("", block), line, "\n");
    var (end, out) := ReadLine(block, line);
    assert Run(step, end, "") == (end, []);
    RunCons(step, Frame(line, block), '\n', "");
    assert ['\n'] + "" == "\n";
    assert [] + out == out && out + [] == out;
  }

  ghost predicate CleanLines(block: Block) {
    forall i | 0 <= i < |block| :: block[i] != "" && '\n' !in block[i]
  }

  lemma {:induction false} ReadLines(before: Block, lines: Block)
    requires CleanLines(lines)
    ensures Read(false, Frame("", before), JoinLines(lines)) == (Frame("", before + lines), [])
    decreases |lines|
  {
    if lines == [] {
      assert before + lines == before;
    } else {
      ReadOneLine(before, lines[0]);
      ReadLines(before + [lines[0]], lines[1..]);
      ReadConcat(Frame("", before), lines[0] + "\n", JoinLines(lines[1..]));
      assert lines[0] + "\n" + JoinLines(lines[1..]) == (lines[0] + "\n") + JoinLines(lines[1..]);
      assert before + [lines[0]] + lines[1..] == before + lines;
    }
  }

  /** Reading an emitted block gives the block. */
  lemma ReadEmit(block: Block)
    requires CleanLines(block) && block != []
    ensures Read(false, EmptyFrame, Emit(block)) == (EmptyFrame, [block])
  {
    ReadLines([], block);
    assert [] + block == block;
    ReadConcat(EmptyFrame, JoinLines(block), "\n");
    ReadOneLine(block, "");
    assert "" + "\n" == "\n";
    assert [] + [block] == [block];
  }

  lemma {:induction false} ReadEmitAll(blocks: seq<Block>)
    requires forall b | b in blocks :: CleanLines(b) && b != []
    ensures Read(false, EmptyFrame, EmitAll(blocks)) == (EmptyFrame, blocks)
    decreases |blocks|
  {
    if blocks != [] {
      ReadEmit(blocks[0]);
      ReadEmitAll(blocks[1..]);
      ReadConcat(EmptyFrame, Emit(blocks[0]), EmitAll(blocks[1..]));
      assert blocks == [blocks[0]] + blocks[1..];
    }
  }

  // ---------------------------------------------------------------- blocks stay clean

  lemma RebuildClean(codec: Codec, block: Block, d: Json)
    requires codec.Lawful() && d.Obj? && CleanLines(block)
    ensures CleanLines(Rebuild(codec, block, d)) && |Rebuild(codec, block, d)| == |block|
  {
    assert '\n' !in codec.print_(d);
    assert '\n' !in DATA_PREFIX;
  }

  lemma StepClean(cfg: Config, codec: Codec, st: Core, block: Block)
    requires codec.Lawful() && CleanLines(block) && block != []
    requires st.held.Some? ==> CleanLines(st.held.value.block) && st.held.value.block != []
    ensures
      var (next, out) := Step(cfg, codec, st, block);
      && (next.held.Some? ==> CleanLines(next.held.value.block) && next.held.value.block != [])
      && (forall b | b in out :: CleanLines(b) && b != [])
  {
    hide KindOfType, Data, Edit, NextContext, Closes, Rebuild, CleanLines;
    var data := Data(codec, block);
    if st.held.Some? && Data(codec, st.held.value.block).Some? {
      RebuildClean(codec, st.held.value.block, TagDelta(cfg, Data(codec, st.held.value.block).value));
    }
    if data.Some? {
      EditIsObject(cfg, st.ctx, data.value);
      if Edit(cfg, st.ctx, data.value).Some? {
        RebuildClean(codec, block, Edit(cfg, st.ctx, data.value).value);
      }
    }
  }

  // ---------------------------------------------------------------- text to blocks

  ghost predicate CleanState(st: State) {
    && '\n' !in st.buf && CleanLines(st.block)
    && (st.core.held.Some? ==> CleanLines(st.core.held.value.block) && st.core.held.value.block != [])
  }

  /** The reader's frame inside the rewriter's state. */
  function FrameOf(st: State): Frame {
    Frame(st.buf, st.block)
  }

  /** One character: the rewriter frames like the reader, and what it writes reads back as the
      blocks of its step. */
  lemma FeedCharBlocks(cfg: Config, codec: Codec, st: State, c: char)
    requires codec.Lawful() && CleanState(st)
    ensures
      var (next, out) := FeedChar(cfg, codec, st, c);
      var (frame, blocks) := ReadChar(true)(FrameOf(st), c);
      && CleanState(next)
      && frame == FrameOf(next)
      && next.core == RunBlocks(cfg, codec, st.core, blocks).0
      && Read(false, EmptyFrame, out) == (EmptyFrame, RunBlocks(cfg, codec, st.core, blocks).1)
  {
    hide Step, Emit, RunBlocks;
    RunNone(cfg, codec, st.core);
    var (_, blocks) := ReadChar(true)(FrameOf(st), c);
    if c != '\n' || StripCr(st.buf) != "" {
      assert blocks == [];
      if c == '\n' { assert '\n' !in StripCr(st.buf); }
    } else {
      ReadOneLine([], "");
      assert "" + "\n" == "\n";
      if st.block != [] {
        assert blocks == [st.block];
        var (next, written) := Step(cfg, codec, st.core, st.block);
        StepClean(cfg, codec, st.core, st.block);
        ReadEmitAll(written);
        ReadConcat(EmptyFrame, EmitAll(written), "\n");
        RunOne(cfg, codec, st.core, st.block);
        assert written + [] == written;
      }
    }
  }

  lemma RunNone(cfg: Config, codec: Codec, st: Core)
    ensures RunBlocks(cfg, codec, st, []) == (st, [])
    ensures Read(false, EmptyFrame, "") == (EmptyFrame, [])
  {
  }

  lemma RunOne(cfg: Config, codec: Codec, st: Core, block: Block)
    ensures RunBlocks(cfg, codec, st, [block]) == Step(cfg, codec, st, block)
  {
    var (mid, out) := Step(cfg, codec, st, block);
    assert [block][1..] == [] && out + [] == out;
  }

  lemma {:induction false} RunBlocksConcat(cfg: Config, codec: Codec, st: Core, a: seq<Block>, b: seq<Block>)
    ensures
      var (mid, out) := RunBlocks(cfg, codec, st, a);
      var (end, more) := RunBlocks(cfg, codec, mid, b);
      RunBlocks(cfg, codec, st, a + b) == (end, out + more)
    decreases |a|
  {
    hide Step;
    if a == [] {
      assert a + b == b;
      var (end, more) := RunBlocks(cfg, codec, st, b);
      assert [] + more == more;
    } else {
      var (mid, out) := Step(cfg, codec, st, a[0]);
      RunBlocksConcat(cfg, codec, mid, a[1..], b);
      assert (a + b)[1..] == a[1..] + b;
      var (half, out1) := RunBlocks(cfg, codec, mid, a[1..]);
      var (end, out2) := RunBlocks(cfg, codec, half, b);
      assert out + (out1 + out2) == (out + out1) + out2;
    }
  }

  lemma {:induction false} FeedBlocks(cfg: Config, codec: Codec, st: State, text: string)
    requires codec.Lawful() && CleanState(st)
    ensures
      var (end, out) := Feed(cfg, codec, st, text);
      var (frame, blocks) := Read(true, FrameOf(st), text);
      && CleanState(end)
      && frame == FrameOf(end)
      && end.core == RunBlocks(cfg, codec, st.core, blocks).0
      && Read(false, EmptyFrame, out) == (EmptyFrame, RunBlocks(cfg, codec, st.core, blocks).1)
    decreases |text|
  {
    hide FeedChar, RunBlocks, CleanState;
    RunNone(cfg, codec, st.core);
    if text != "" {
      var (mid, out) := FeedChar(cfg, codec, st, text[0]);
      var (frame, blocks) := ReadChar(true)(FrameOf(st), text[0]);
      FeedCharBlocks(cfg, codec, st, text[0]);
      FeedBlocks(cfg, codec, mid, text[1..]);
      var (end, more) := Feed(cfg, codec, mid, text[1..]);
      var (last, rest) := Read(true, frame, text[1..]);
      ReadConcat(EmptyFrame, out, more);
      RunBlocksConcat(cfg, codec, st.core, blocks, rest);
    }
  }

  function Unfinished(block: Block): seq<Block> {
    if block == [] then [] else [block]
  }

  /** End to end, for any stream cut in any way: reading what the relay wrote (the chunks and the
      final flush) gives exactly the rewritten blocks; a block that the stream left unfinished follows
      as it came, and so does a line without its line feed. */
  lemma RelayedStream(cfg: Config, codec: Codec, chunks: seq<string>)
    requires codec.Lawful()
    ensures
      var (end, out) := FeedChunks(cfg, codec, InitState, chunks);
      var (frame, blocks) := Read(true, EmptyFrame, Concat(chunks));
      Read(false, EmptyFrame, out + Flush(end).1) ==
      (Frame(frame.buf, []), Rewritten(cfg, codec, InitContext, blocks) + Unfinished(frame.block))
  {
    hide RunBlocks, Rewritten, FeedChar, Emit, CleanLines;
    ChunkingInvariance(cfg, codec, InitState, chunks);
    StartsClean();
    FeedBlocks(cfg, codec, InitState, Concat(chunks));
    var (end, out) := FeedChunks(cfg, codec, InitState, chunks);
    var (frame, blocks) := Read(true, EmptyFrame, Concat(chunks));
    WrittenThenHeld(cfg, codec, InitCore, blocks);
    var rewritten := Rewritten(cfg, codec, InitContext, blocks);
    var written, held := RunBlocks(cfg, codec, InitCore, blocks).1, HeldBlocks(end.core);
    assert [] + rewritten == rewritten && written + held == rewritten;
    ReadFlush(end);
    ReadConcat(EmptyFrame, out, Flush(end).1);
    assert written + (held + Unfinished(frame.block)) == rewritten + Unfinished(frame.block);
  }

  lemma StartsClean()
    ensures CleanState(InitState)
  {
  }

  /** What `flush` writes reads as the held block, the unfinished block and the partial line. */
  lemma ReadFlush(st: State)
    requires CleanState(st)
    ensures Read(false, EmptyFrame, Flush(st).1) == (Frame(st.buf, []), HeldBlocks(st.core) + Unfinished(st.block))
  {
    hide Emit, CleanLines, Read;
    var a := if st.core.held.Some? then Emit(st.core.held.value.block) else "";
    var b := if st.block != [] then Emit(st.block) else "";
    ReadMaybe(HeldBlocks(st.core), a);
    ReadMaybe(Unfinished(st.block), b);
    ReadNoBreak(false, EmptyFrame, st.buf);
    assert "" + st.buf == st.buf;
    ReadConcat(EmptyFrame, a, b);
    ReadConcat(EmptyFrame, a + b, st.buf);
    var all := HeldBlocks(st.core) + Unfinished(st.block);
    assert all + [] == all;
  }

  lemma ReadMaybe(blocks: seq<Block>, text: string)
    requires |blocks| <= 1 && (forall b | b in blocks :: CleanLines(b) && b != [])
    requires text == if blocks == [] then "" else Emit(blocks[0])
    ensures Read(false, EmptyFrame, text) == (EmptyFrame, blocks)
  {
    if blocks != [] {
      ReadEmit(blocks[0]);
      assert blocks == [blocks[0]];
    }
  }
}
