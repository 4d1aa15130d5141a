/** The commuting square on text: assembling what the relay wrote is assembling what it
    received and then rewriting the response. */
module CommutingSquare {
  import opened Json
  import opened Text
  import opened Sequences
  import opened Transducer
  import opened MarkerSpec
  import opened MarkerOrder
  import opened MarkerText
  import opened Assembler

  // ---------------------------------------------------------------- lines of a text

  function LineChar(): (string, char) -> (string, seq<string>) {
    (buf: string, c: char) => if c != '\n' then (buf + [c], []) else ("", [buf])
  }

  /** The lines of a text, with a last one that has no line feed if there is any. */
  function Lines(text: string): seq<string> {
    var (rest, lines) := Run(LineChar(), "", text);
    if rest == "" then lines else lines + [rest]
  }

  /** `assemble_sse` on a text. */
  function AssembleText(codec: Codec, text: string): Result {
    Finish(CollectAll(EmptyAssembly, Events(codec, Lines(text))))
  }

  // ---------------------------------------------------------------- canonical blocks

  /** A block the assembler and the rewriter read alike: at most one data field, written
      `data: ` and without white space around the JSON text. */
  ghost predicate Canonical(block: Block) {
    && (forall i | 0 <= i < |block| && FIELD <= block[i] ::
          IsDataLine(block[i]) && Strip(block[i][|FIELD|..]) == block[i][|DATA_PREFIX|..])
    && (forall i, j | 0 <= i < j < |block| :: !(FIELD <= block[i] && FIELD <= block[j]))
  }

  function Fold(codec: Codec, a: Assembly, lines: seq<string>): Assembly {
    CollectAll(a, Events(codec, lines))
  }

  lemma FoldSnoc(codec: Codec, a: Assembly, lines: seq<string>, line: string)
    ensures Fold(codec, a, lines + [line]) == Collect(Fold(codec, a, lines), EventOfLine(codec, line))
  {
    assert Events(codec, lines + [line])[..|lines|] == Events(codec, lines);
  }

  lemma {:induction false} FoldConcat(codec: Codec, a: Assembly, xs: seq<string>, ys: seq<string>)
    ensures Fold(codec, a, xs + ys) == Fold(codec, Fold(codec, a, xs), ys)
    decreases |ys|
  {
    hide EventOfLine, Collect;
    if ys == [] {
      assert xs + ys == xs;
    } else {
      var n := |ys| - 1;
      FoldConcat(codec, a, xs, ys[..n]);
      FoldSnoc(codec, a, xs + ys[..n], ys[n]);
      FoldSnoc(codec, Fold(codec, a, xs), ys[..n], ys[n]);
      assert xs + ys == (xs + ys[..n]) + [ys[n]];
      assert ys == ys[..n] + [ys[n]];
    }
  }

  lemma DataLineIsField(line: string)
    ensures IsDataLine(line) ==> FIELD <= line
  {
    if IsDataLine(line) { assert line[..|FIELD|] == DATA_PREFIX[..|FIELD|] == FIELD; }
  }

  lemma {:induction false} FoldQuiet(codec: Codec, a: Assembly, lines: seq<string>)
    requires forall i | 0 <= i < |lines| :: !(FIELD <= lines[i])
    ensures Fold(codec, a, lines) == a && Data(codec, lines) == None
    decreases |lines|
  {
    if lines != [] {
      FoldQuiet(codec, a, lines[1..]);
      DataLineIsField(lines[0]);
      assert lines == [lines[0]] + lines[1..];
      FoldConcat(codec, a, [lines[0]], lines[1..]);
      FoldSnoc(codec, a, [], lines[0]);
      assert [] + [lines[0]] == [lines[0]];
      assert EventOfLine(codec, lines[0]) == None;
    }
  }

  lemma {:induction false} DataSkips(codec: Codec, before: Block, block: Block)
    requires forall i | 0 <= i < |before| :: !(FIELD <= before[i])
    ensures Data(codec, before + block) == Data(codec, block)
    decreases |before|
  {
    if before == [] {
      assert before + block == block;
    } else {
      DataLineIsField(before[0]);
      DataSkips(codec, before[1..], block);
      assert (before + block)[1..] == before[1..] + block;
    }
  }

  lemma EventOfCanonicalLine(codec: Codec, line: string, after: Block)
    requires codec.Lawful() && IsDataLine(line) && FIELD <= line
    requires Strip(line[|FIELD|..]) == line[|DATA_PREFIX|..]
    ensures Data(codec, [line] + after) == EventOfLine(codec, line)
  {
    assert ([line] + after)[0] == line;
  }

  /** On a canonical block the assembler sees exactly the event the rewriter sees. */
  lemma FoldCanonical(codec: Codec, a: Assembly, block: Block)
    requires codec.Lawful() && Canonical(block)
    ensures Fold(codec, a, block) == Collect(a, Data(codec, block))
  {
    hide EventOfLine, Collect, Data, Strip;
    if i :| 0 <= i < |block| && FIELD <= block[i] {
      var before, line, after := block[..i], block[i], block[i + 1..];
      assert block == before + ([line] + after);
      DataSkips(codec, before, [line] + after);
      EventOfCanonicalLine(codec, line, after);
      FoldConcat(codec, a, before, [line] + after);
      FoldQuiet(codec, a, before);
      FoldConcat(codec, a, [line], after);
      FoldSnoc(codec, a, [], line);
      assert [] + [line] == [line];
      FoldQuiet(codec, Collect(a, EventOfLine(codec, line)), after);
    } else {
      FoldQuiet(codec, a, block);
      assert Collect(a, None) == a by { CollectNone(a); }
    }
  }

  lemma CollectNone(a: Assembly)
    ensures Collect(a, None) == a
  {
  }

  // ---------------------------------------------------------------- rewritten blocks stay canonical

  lemma StripBraces(text: string)
    requires 2 <= |text| && text[0] == '{' && text[|text| - 1] == '}'
    ensures Strip(" " + text) == text
  {
    assert (" " + text)[1..] == text;
    assert StripLeft(text) == text;
    assert StripLeft(" " + text) == text;
  }

  lemma RewriteOneCanonical(cfg: Config, codec: Codec, ctx: Context, block: Block, next: Option<Json>)
    requires codec.Lawful() && Canonical(block)
    ensures Canonical(RewriteOne(cfg, codec, ctx, block, next))
  {
    hide KindOfType, Edit, Strip, Data;
    var data := Data(codec, block);
    if data.Some? {
      EditIsObject(cfg, ctx, data.value);
      var d := RewriteOneData(cfg, codec, ctx, data.value, next);
      if RewriteOne(cfg, codec, ctx, block, next) != block {
        RebuildCanonical(codec, block, d);
      }
    }
  }

  lemma RebuildCanonical(codec: Codec, block: Block, d: Json)
    requires codec.Lawful() && Canonical(block) && d.Obj?
    ensures Canonical(Rebuild(codec, block, d))
  {
    hide Strip;
    var out := Rebuild(codec, block, d);
    forall i | 0 <= i < |block|
      ensures FIELD <= out[i] <==> FIELD <= block[i]
      ensures FIELD <= out[i] ==> IsDataLine(out[i]) && Strip(out[i][|FIELD|..]) == out[i][|DATA_PREFIX|..]
    {
      if IsDataLine(block[i]) {
        assert FIELD == block[i][..|FIELD|];
        StripBraces(codec.print_(d));
        assert out[i] == DATA_PREFIX + codec.print_(d);
        assert out[i][|FIELD|..] == " " + codec.print_(d);
        assert out[i][|DATA_PREFIX|..] == codec.print_(d);
        assert FIELD == out[i][..|FIELD|];
      }
    }
  }

  // ---------------------------------------------------------------- lines against blocks

  /** A carriage return at the end of a line makes no difference to the assembler. */
  lemma StripCrSameEvent(codec: Codec, line: string)
    ensures EventOfLine(codec, StripCr(line)) == EventOfLine(codec, line)
  {
    if line != "" && line[|line| - 1] == '\r' {
      var short := line[..|line| - 1];
      if FIELD <= line {
        assert FIELD <= short by { assert FIELD[|FIELD| - 1] == ':'; }
        StripDropsCr(line[|FIELD|..]);
        assert line[|FIELD|..][..|line[|FIELD|..]| - 1] == short[|FIELD|..];
      }
    }
  }

  lemma StripDropsCr(s: string)
    requires s != "" && s[|s| - 1] == '\r'
    ensures Strip(s[..|s| - 1]) == Strip(s)
    decreases |s|
  {
    if |s| == 1 {
    } else if IsSpace(s[0]) {
      StripDropsCr(s[1..]);
      assert s[1..][..|s| - 2] == s[..|s| - 1][1..];
    }
  }

  lemma ReadSnoc(crlf: bool, text: string, c: char)
    ensures
      var (f, blocks) := Read(crlf, EmptyFrame, text);
      var (end, more) := ReadChar(crlf)(f, c);
      Read(crlf, EmptyFrame, text + [c]) == (end, blocks + more)
  {
    RunConcat(ReadChar(crlf), EmptyFrame, text, [c]);
    var (f, _) := Read(crlf, EmptyFrame, text);
    var (end, more) := ReadChar(crlf)(f, c);
    RunCons(ReadChar(crlf), f, c, "");
    assert [c] + "" == [c] && more + [] == more;
  }

  lemma LinesSnoc(text: string, c: char)
    ensures
      var (buf, lines) := Run(LineChar(), "", text);
      var (end, more) := LineChar()(buf, c);
      Run(LineChar(), "", text + [c]) == (end, lines + more)
  {
    RunConcat(LineChar(), "", text, [c]);
    var (buf, _) := Run(LineChar(), "", text);
    var (end, more) := LineChar()(buf, c);
    RunCons(LineChar(), buf, c, "");
    assert [c] + "" == [c] && more + [] == more;
  }

  /** Collecting line by line is collecting block by block. */
  lemma {:induction false} LinesAreBlocks(codec: Codec, crlf: bool, text: string)
    requires codec.Lawful()
    requires forall b | b in Read(crlf, EmptyFrame, text).1 :: Canonical(b)
    ensures
      var (frame, blocks) := Read(crlf, EmptyFrame, text);
      var (buf, lines) := Run(LineChar(), "", text);
      && buf == frame.buf
      && Fold(codec, EmptyAssembly, lines) ==
         Fold(codec, CollectAll(EmptyAssembly, DataAll(codec, blocks)), frame.block)
    decreases |text|
  {
    hide Fold, Canonical, CollectAll, EventOfLine, Run, StripCr;
    if text == "" {
      NoText(codec, crlf);
    } else {
      var n := |text| - 1;
      var short, c := text[..n], text[n];
      assert text == short + [c];
      ReadSnoc(crlf, short, c);
      LinesSnoc(short, c);
      var (f, blocks) := Read(crlf, EmptyFrame, short);
      var (buf, lines) := Run(LineChar(), "", short);
      var (end, more) := ReadChar(crlf)(f, c);
      assert forall b | b in blocks :: b in blocks + more;
      LinesAreBlocks(codec, crlf, short);
      if c == '\n' {
        assert more != [] ==> f.block in blocks + more;
        EndOfLine(codec, crlf, f, blocks, lines);
      } else {
        assert lines + [] == lines && blocks + [] == blocks;
      }
    }
  }

  lemma NoText(codec: Codec, crlf: bool)
    ensures Read(crlf, EmptyFrame, "") == (EmptyFrame, [])
    ensures Run(LineChar(), "", "") == ("", [])
    ensures Fold(codec, EmptyAssembly, []) ==
            Fold(codec, CollectAll(EmptyAssembly, DataAll(codec, [])), [])
  {
  }

  lemma EndOfLine(codec: Codec, crlf: bool, f: Frame, blocks: seq<Block>, lines: seq<string>)
    requires codec.Lawful()
    requires Fold(codec, EmptyAssembly, lines) ==
             Fold(codec, CollectAll(EmptyAssembly, DataAll(codec, blocks)), f.block)
    requires
      var (_, more) := ReadLine(f.block, if crlf then StripCr(f.buf) else f.buf);
      more != [] ==> Canonical(f.block)
    ensures
      var (end, more) := ReadLine(f.block, if crlf then StripCr(f.buf) else f.buf);
      Fold(codec, EmptyAssembly, lines + [f.buf]) ==
      Fold(codec, CollectAll(EmptyAssembly, DataAll(codec, blocks + more)), end.block)
  {
    hide Canonical, EventOfLine, StripCr, Collect;
    var line := if crlf then StripCr(f.buf) else f.buf;
    StripCrSameEvent(codec, f.buf);
    FoldSnoc(codec, EmptyAssembly, lines, f.buf);
    var a := CollectAll(EmptyAssembly, DataAll(codec, blocks));
    if line != "" {
      FoldSnoc(codec, a, f.block, line);
      assert blocks + [] == blocks;
    } else {
      EmptyLine(codec);
      CollectNone(Fold(codec, a, f.block));
      if f.block == [] {
        assert blocks + [] == blocks;
      } else {
        FoldCanonical(codec, a, f.block);
        assert DataAll(codec, blocks + [f.block])[..|blocks|] == DataAll(codec, blocks);
      }
    }
  }

  lemma EmptyLine(codec: Codec)
    ensures EventOfLine(codec, "") == None
  {
  }

  lemma AssembleBlocks(codec: Codec, crlf: bool, text: string, blocks: seq<Block>)
    requires codec.Lawful() && (forall b | b in blocks :: Canonical(b))
    requires Read(crlf, EmptyFrame, text) == (EmptyFrame, blocks)
    ensures AssembleText(codec, text) == Finish(CollectAll(EmptyAssembly, DataAll(codec, blocks)))
  {
    hide Canonical, Finish, Run;
    LinesAreBlocks(codec, crlf, text);
    var a := CollectAll(EmptyAssembly, DataAll(codec, blocks));
    assert Events(codec, []) == [];
    assert Fold(codec, a, []) == a;
  }

  lemma {:induction false} RewrittenCanonical(cfg: Config, codec: Codec, blocks: seq<Block>)
    requires codec.Lawful() && (forall b | b in blocks :: Canonical(b))
    ensures forall b | b in Rewritten(cfg, codec, InitContext, blocks) :: Canonical(b)
  {
    hide Canonical, RewriteOne;
    var out := Rewritten(cfg, codec, InitContext, blocks);
    forall i | 0 <= i < |out| ensures Canonical(out[i]) {
      RewrittenAt(cfg, codec, InitContext, blocks, i);
      assert blocks[i] in blocks;
      RewriteOneCanonical(cfg, codec, ContextAfter(cfg, codec, InitContext, blocks[..i]), blocks[i],
                          NextData(codec, blocks[i + 1..]));
    }
  }

  /** Streaming then assembling is assembling then rewriting: the reasoning items are tagged, the
      messages headed and the id is the announced one, also when the terminal event has no output
      and the response is rebuilt from the finished items. */
  lemma StreamedResponse(cfg: Config, codec: Codec, chunks: seq<string>)
    requires codec.Lawful()
    requires Read(true, EmptyFrame, Concat(chunks)).0 == EmptyFrame
    requires forall b | b in Read(true, EmptyFrame, Concat(chunks)).1 :: Canonical(b)
    ensures
      var (end, out) := FeedChunks(cfg, codec, InitState, chunks);
      var blocks := Read(true, EmptyFrame, Concat(chunks)).1;
      AssembleText(codec, out + Flush(end).1) ==
      RewriteResult(cfg, TerminalId(codec, blocks), AssembleText(codec, Concat(chunks)))
  {
    hide Canonical, Finish, RewriteResult, RewriteAssembly, FeedChunks, Flush, Read, AssembleText, CollectAll;
    RelayedStream(cfg, codec, chunks);
    var blocks := Read(true, EmptyFrame, Concat(chunks)).1;
    var (end, out) := FeedChunks(cfg, codec, InitState, chunks);
    var written := Rewritten(cfg, codec, InitContext, blocks);
    assert written + Unfinished([]) == written;
    RewrittenCanonical(cfg, codec, blocks);
    AssembleBlocks(codec, true, Concat(chunks), blocks);
    AssembleBlocks(codec, false, out + Flush(end).1, written);
    CollectCommutes(cfg, codec, blocks, []);
    assert blocks + [] == blocks && written[..|blocks|] == written;
    FinishCommutes(cfg, TerminalId(codec, blocks), CollectAll(EmptyAssembly, DataAll(codec, blocks)));
  }
}
