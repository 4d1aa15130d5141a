/** The relay loop: rewriter outputs in the chunked transfer coding of RFC 9112, section 7.1. */
module ChunkedRelay {
  import opened Json
  import opened Sequences
  import opened Transducer
  import opened MarkerSpec
  import opened MarkerOrder
  import opened MarkerText
  import SummaryMarker

  const CR: byte := 13
  const LF: byte := 10
  const CRLF: Bytes := [CR, LF]

  // ---------------------------------------------------------------- writing

  /** An upper-case hexadecimal digit. */
  function HexDigit(n: nat): byte
    requires n < 16
  {
    if n < 10 then (48 + n) as byte else (55 + n) as byte
  }

  /** `{n:X}`. */
  function Hex(n: nat): Bytes {
    if n < 16 then [HexDigit(n)] else Hex(n / 16) + [HexDigit(n % 16)]
  }

  /** One chunk; empty pieces are not written at all. */
  function Chunk(piece: Bytes): Bytes {
    if piece == [] then [] else Hex(|piece|) + CRLF + piece + CRLF
  }

  function ChunkAll(pieces: seq<Bytes>): Bytes {
    if pieces == [] then [] else Chunk(pieces[0]) + ChunkAll(pieces[1..])
  }

  const LAST_CHUNK: Bytes := [48] + CRLF + CRLF

  // ---------------------------------------------------------------- reading

  function HexValue(b: byte): Option<nat> {
    if 48 <= b <= 57 then Some(b as int - 48)
    else if 65 <= b <= 70 then Some(b as int - 55)
    else if 97 <= b <= 102 then Some(b as int - 87)
    else None
  }

  /** The chunk size at the front, and what follows its digits. */
  function ReadSize(body: Bytes, sofar: nat): (r: (nat, Bytes))
    ensures |r.1| <= |body|
  {
    if body != [] && HexValue(body[0]).Some? then ReadSize(body[1..], sofar * 16 + HexValue(body[0]).value)
    else (sofar, body)
  }

  /** Decode a whole body: chunks, then the last chunk and an empty trailer section, then nothing. */
  function Decode(body: Bytes): Option<Bytes>
    decreases |body|
  {
    if body == [] || HexValue(body[0]).None? then None
    else
      var (size, rest) := ReadSize(body, 0);
      if !(CRLF <= rest) then None
      else
        var data := rest[2..];
        if size == 0 then if data == CRLF then Some([]) else None
        else if size + 2 > |data| || data[size..size + 2] != CRLF then None
        else
          var more := Decode(data[size + 2..]);
          if more.Some? then Some(data[..size] + more.value) else None
  }

  // ---------------------------------------------------------------- round trip

  lemma {:induction false} ReadHexFrom(n: nat, rest: Bytes)
    requires rest != []
    ensures ReadSize(Hex(n) + rest, 0) == ReadSize(rest, n)
    ensures Hex(n) != [] && HexValue(Hex(n)[0]).Some?
    decreases n
  {
    if n < 16 {
      assert (Hex(n) + rest)[1..] == rest;
    } else {
      var tail := [HexDigit(n % 16)] + rest;
      ReadHexFrom(n / 16, tail);
      assert Hex(n) + rest == Hex(n / 16) + tail;
      assert tail[1..] == rest;
      assert n / 16 * 16 + n % 16 == n;
    }
  }

  lemma DecodeChunk(piece: Bytes, rest: Bytes)
    requires piece != []
    ensures Decode(Chunk(piece) + rest) ==
            if Decode(rest).Some? then Some(piece + Decode(rest).value) else None
  {
    hide Hex, ReadSize, HexValue;
    var data := piece + (CRLF + rest);
    var after := CRLF + data;
    var body := Hex(|piece|) + after;
    assert Chunk(piece) + rest == body;
    SizeThenCrlf(|piece|, data);
    assert after[2..] == data;
    assert data[..|piece|] == piece;
    assert data[|piece|..|piece| + 2] == CRLF;
    assert data[|piece| + 2..] == rest;
  }

  lemma SizeThenCrlf(n: nat, data: Bytes)
    ensures
      var body := Hex(n) + (CRLF + data);
      body != [] && HexValue(body[0]).Some? && ReadSize(body, 0) == (n, CRLF + data)
  {
    ReadHexFrom(n, CRLF + data);
    assert (Hex(n) + (CRLF + data))[0] == Hex(n)[0];
  }

  lemma {:induction false} DecodeChunks(pieces: seq<Bytes>, rest: Bytes)
    requires Decode(rest).Some?
    ensures Decode(ChunkAll(pieces) + rest) == Some(Concat(pieces) + Decode(rest).value)
    decreases |pieces|
  {
    hide Decode, Chunk;
    if pieces == [] {
      assert ChunkAll(pieces) + rest == rest;
      assert [] + Decode(rest).value == Decode(rest).value;
    } else {
      DecodeChunks(pieces[1..], rest);
      var tail := ChunkAll(pieces[1..]) + rest;
      assert ChunkAll(pieces) + rest == Chunk(pieces[0]) + tail;
      if pieces[0] == [] {
        assert Chunk([]) == [] by { NoChunk(); }
        assert [] + tail == tail && Concat(pieces) == Concat(pieces[1..]);
      } else {
        DecodeChunk(pieces[0], tail);
      }
      assert pieces[0] + (Concat(pieces[1..]) + Decode(rest).value) == Concat(pieces) + Decode(rest).value;
    }
  }

  lemma NoChunk()
    ensures Chunk([]) == []
  {
  }

  lemma DecodeLast()
    ensures Decode(LAST_CHUNK) == Some([])
  {
    var body := LAST_CHUNK;
    assert body == Hex(0) + (CRLF + CRLF);
    SizeThenCrlf(0, CRLF);
    assert (CRLF + CRLF)[2..] == CRLF;
  }

  /** A zero chunk before the end would cut the stream: a decoder stops there. */
  lemma ZeroChunkEndsTheStream(rest: Bytes)
    ensures Decode(Hex(0) + CRLF + CRLF + rest) == if rest == [] then Some([]) else None
  {
    var after := CRLF + (CRLF + rest);
    assert Hex(0) + CRLF + CRLF + rest == Hex(0) + after;
    SizeThenCrlf(0, CRLF + rest);
    assert after[2..] == CRLF + rest;
    if rest == [] { assert CRLF + rest == CRLF; } else { assert |CRLF + rest| != |CRLF|; }
  }

  // ---------------------------------------------------------------- the relay loop

  /** `str.encode` and its inverse; the encoder works character by character. */
  datatype Utf8 = Utf8(encode: string -> Bytes, decode: Bytes -> string) {
    ghost predicate Lawful() {
      && encode("") == []
      && (forall a, b {:trigger encode(a + b)} :: encode(a + b) == encode(a) + encode(b))
      && (forall a {:trigger encode(a)} :: decode(encode(a)) == a && (encode(a) == [] ==> a == ""))
    }
  }

  const ERROR_HEAD := "data: {\"type\":\"error\",\"error\":"
  const ERROR_MIDDLE := "{\"message\":\"upstream stream ended "
  const ERROR_TAIL := "before a terminal event\"}}"

  /** The data line of the error event. */
  const ERROR_LINE := ERROR_HEAD + ERROR_MIDDLE + ERROR_TAIL

  /** What the relay adds behind a stream without a terminal event. */
  function Closing(ctx: Context): string {
    if ctx.terminalType == "" then ERROR_LINE + "\n\n" else ""
  }

  /** Everything the relay writes for a stream. */
  function Relayed(cfg: Config, codec: Codec, chunks: seq<string>): string {
    var (end, out) := FeedChunks(cfg, codec, InitState, chunks);
    out + MarkerSpec.Flush(end).1 + Closing(end.core.ctx)
  }

  /** The relay loop: the body decodes to everything the relay writes. */
  method Relay(marker: SummaryMarker.SummaryMarker, utf8: Utf8, chunks: seq<string>) returns (body: Bytes)
    requires marker.Valid() && marker.Abs() == InitState && utf8.Lawful()
    modifies marker
    ensures Decode(body) == Some(utf8.encode(Relayed(marker.cfg, marker.codec, chunks)))
  {
    hide Decode, Chunk, Hex, Feed, FeedChunks;
    body := [];
    ghost var pieces: seq<Bytes> := [];
    ghost var written := "";
    NoChunks(marker.cfg, marker.codec);
    for n := 0 to |chunks|
      invariant marker.Valid()
      invariant FeedChunks(marker.cfg, marker.codec, InitState, chunks[..n]) == (marker.Abs(), written)
      invariant body == ChunkAll(pieces) && Concat(pieces) == utf8.encode(written)
    {
      FeedOneMore(marker.cfg, marker.codec, chunks[..n], chunks[n]);
      assert chunks[..n + 1] == chunks[..n] + [chunks[n]];
      var out := marker.Feed(chunks[n]);
      body := WritePiece(body, utf8.encode(out), pieces);
      pieces := pieces + [utf8.encode(out)];
      assert utf8.encode(written + out) == utf8.encode(written) + utf8.encode(out);
      written := written + out;
    }
    assert chunks[..|chunks|] == chunks;
    var out := marker.Flush();
    body := WritePiece(body, utf8.encode(out), pieces);
    pieces := pieces + [utf8.encode(out)];
    assert utf8.encode(written + out) == utf8.encode(written) + utf8.encode(out);
    if marker.terminalType == "" {
      var piece := utf8.encode(ERROR_LINE + "\n\n");
      body := WritePiece(body, piece, pieces);
      pieces := pieces + [piece];
      assert utf8.encode((written + out) + (ERROR_LINE + "\n\n")) == utf8.encode(written + out) + piece;
    } else {
      assert (written + out) + "" == written + out;
    }
    body := body + LAST_CHUNK;
    DecodeLast();
    DecodeChunks(pieces, LAST_CHUNK);
    assert Concat(pieces) + [] == Concat(pieces);
  }

  lemma NoChunks(cfg: Config, codec: Codec)
    ensures FeedChunks(cfg, codec, InitState, []) == (InitState, "")
  {
  }

  /** Write a piece as a chunk, or nothing when it is empty. */
  method WritePiece(body: Bytes, piece: Bytes, ghost pieces: seq<Bytes>) returns (r: Bytes)
    requires body == ChunkAll(pieces)
    ensures r == ChunkAll(pieces + [piece]) && Concat(pieces + [piece]) == Concat(pieces) + piece
  {
    AddPiece(pieces, piece);
    r := body;
    if piece != [] {
      r := r + (Hex(|piece|) + CRLF + piece + CRLF);
    }
  }

  lemma {:induction false} AddPiece(pieces: seq<Bytes>, piece: Bytes)
    ensures ChunkAll(pieces + [piece]) == ChunkAll(pieces) + Chunk(piece)
    ensures Concat(pieces + [piece]) == Concat(pieces) + piece
    decreases |pieces|
  {
    hide Chunk;
    if pieces == [] {
      assert pieces + [piece] == [piece] && [piece][1..] == [];
      assert Chunk(piece) + [] == Chunk(piece) && [] + Chunk(piece) == Chunk(piece);
      assert piece + [] == piece && [] + piece == piece;
    } else {
      AddPiece(pieces[1..], piece);
      assert (pieces + [piece])[1..] == pieces[1..] + [piece];
    }
  }

  lemma FeedOneMore(cfg: Config, codec: Codec, chunks: seq<string>, chunk: string)
    ensures
      var (mid, out) := FeedChunks(cfg, codec, InitState, chunks);
      var (end, more) := Feed(cfg, codec, mid, chunk);
      FeedChunks(cfg, codec, InitState, chunks + [chunk]) == (end, out + more)
  {
    var step := ByChar(cfg, codec);
    RunChunksConcat(step, InitState, chunks);
    RunChunksConcat(step, InitState, chunks + [chunk]);
    ConcatAppend(chunks, [chunk]);
    ConcatOne(chunk);
    RunConcat(step, InitState, Concat(chunks), chunk);
  }

  // ---------------------------------------------------------------- when the error event is sent

  /** The rewriter knows a terminal type exactly when a complete terminal block went by. */
  lemma {:induction false} TerminalSeen(cfg: Config, codec: Codec, ctx: Context, blocks: seq<Block>)
    ensures ContextAfter(cfg, codec, ctx, blocks).terminalType == "" <==>
            ctx.terminalType == "" && forall i | 0 <= i < |blocks| :: !IsTerminalBlock(codec, blocks[i])
    decreases |blocks|
  {
    hide KindOfType, Data;
    if blocks != [] {
      var data := Data(codec, blocks[0]);
      var next := StepContext(cfg, ctx, data);
      TerminalSeen(cfg, codec, next, blocks[1..]);
      if data.Some? { TerminalTypeNotEmpty(Get(data.value, KType)); }
      assert next.terminalType == "" <==> ctx.terminalType == "" && !IsTerminalBlock(codec, blocks[0]);
      assert forall i | 0 < i < |blocks| :: blocks[i] == blocks[1..][i - 1];
    }
  }

  /** No complete block of the stream is an event that ends a response. */
  predicate EndsEarly(codec: Codec, blocks: seq<Block>) {
    forall i | 0 <= i < |blocks| && Data(codec, blocks[i]).Some? ::
      Get(Data(codec, blocks[i]).value, KType) !in
      {Str("response.completed"), Str("response.incomplete"), Str("response.failed")}
  }

  lemma TerminalNamed(codec: Codec, block: Block)
    ensures IsTerminalBlock(codec, block) <==>
            Data(codec, block).Some? &&
            Get(Data(codec, block).value, KType) in
            {Str("response.completed"), Str("response.incomplete"), Str("response.failed")}
  {
    hide Data;
  }

  /** The error event is written exactly when the stream had no complete terminal block. */
  lemma ErrorEventExactly(cfg: Config, codec: Codec, chunks: seq<string>)
    requires codec.Lawful()
    ensures
      var (end, _) := FeedChunks(cfg, codec, InitState, chunks);
      end.core.ctx.terminalType == "" <==> EndsEarly(codec, Read(true, EmptyFrame, Concat(chunks)).1)
  {
    hide Read, IsTerminalBlock, Rewritten;
    ChunkingInvariance(cfg, codec, InitState, chunks);
    FeedBlocks(cfg, codec, InitState, Concat(chunks));
    var blocks := Read(true, EmptyFrame, Concat(chunks)).1;
    WrittenThenHeld(cfg, codec, InitCore, blocks);
    TerminalSeen(cfg, codec, InitContext, blocks);
    forall i | 0 <= i < |blocks| { TerminalNamed(codec, blocks[i]); }
  }

  // ---------------------------------------------------------------- what the client reads

  lemma ErrorLineIsOneLine()
    ensures '\n' !in ERROR_LINE && ERROR_LINE != ""
  {
    assert '\n' !in ERROR_HEAD && '\n' !in ERROR_MIDDLE && '\n' !in ERROR_TAIL;
  }

  /** The error event behind a partial line: both end up in one line, and that is a block of its own. */
  lemma ReadClosing(buf: string)
    ensures Read(false, Frame(buf, []), ERROR_LINE + "\n\n") == (EmptyFrame, [[buf + ERROR_LINE]])
  {
    hide Read;
    ErrorLineIsOneLine();
    var line := buf + ERROR_LINE;
    ReadNoBreak(false, Frame(buf, []), ERROR_LINE);
    ReadConcat(Frame(buf, []), ERROR_LINE, "\n\n");
    ReadTwoBreaks(line);
    assert [] + [[line]] == [[line]];
  }

  lemma ReadTwoBreaks(line: string)
    requires line != ""
    ensures Read(false, Frame(line, []), "\n\n") == (EmptyFrame, [[line]])
  {
    hide Read;
    assert "\n\n" == "\n" + "\n";
    ReadConcat(Frame(line, []), "\n", "\n");
    ReadBreak(false, Frame(line, []));
    ReadBreak(false, Frame("", [line]));
    assert [] + [line] == [line] && [] + [[line]] == [[line]];
  }

  lemma ReadBreak(crlf: bool, f: Frame)
    ensures Read(crlf, f, "\n") == ReadLine(f.block, if crlf then StripCr(f.buf) else f.buf)
  {
    var (end, out) := ReadLine(f.block, if crlf then StripCr(f.buf) else f.buf);
    assert ReadChar(crlf)(f, '\n') == (end, out);
    RunCons(ReadChar(crlf), f, '\n', "");
    assert ['\n'] + "" == "\n" && out + [] == out;
  }

  /** End to end: the body, decoded and read as events, is the rewritten stream; a block or a line that
      the stream left unfinished follows as it came, and the error event of a stream that ended early
      continues that line. */
  lemma ClientReads(cfg: Config, codec: Codec, utf8: Utf8, chunks: seq<string>, body: Bytes)
    requires codec.Lawful() && utf8.Lawful()
    requires Decode(body) == Some(utf8.encode(Relayed(cfg, codec, chunks)))
    ensures
      var (frame, blocks) := Read(true, EmptyFrame, Concat(chunks));
      var passed := Rewritten(cfg, codec, InitContext, blocks) + Unfinished(frame.block);
      Read(false, EmptyFrame, utf8.decode(Decode(body).value)) ==
        if EndsEarly(codec, blocks) then (EmptyFrame, passed + [[frame.buf + ERROR_LINE]])
        else (Frame(frame.buf, []), passed)
  {
    hide Read, Rewritten, EndsEarly, Decode, FeedChunks, Unfinished;
    RelayedStream(cfg, codec, chunks);
    ErrorEventExactly(cfg, codec, chunks);
    var (end, out) := FeedChunks(cfg, codec, InitState, chunks);
    var (frame, blocks) := Read(true, EmptyFrame, Concat(chunks));
    var text := out + MarkerSpec.Flush(end).1;
    ReadConcat(EmptyFrame, text, Closing(end.core.ctx));
    ReadClosing(frame.buf);
    assert text + "" == text;
  }

  /** A stream ends inside a line exactly when it has a last character and that is not a line feed. */
  lemma EndsInsideLine(text: string)
    ensures Read(true, EmptyFrame, text).0.buf == "" <==> text == "" || text[|text| - 1] == '\n'
  {
    hide Read;
    if text == "" {
      ReadNoBreak(true, EmptyFrame, "");
    } else {
      var n := |text| - 1;
      var last := [text[n]];
      assert text == text[..n] + last;
      ReadBoth(EmptyFrame, text[..n], last);
      var mid := Read(true, EmptyFrame, text[..n]).0;
      if text[n] == '\n' {
        assert last == "\n";
        ReadBreak(true, mid);
      } else {
        ReadNoBreak(true, mid, last);
      }
    }
  }

  lemma ReadBoth(f: Frame, a: string, b: string)
    ensures Read(true, f, a + b).0 == Read(true, Read(true, f, a).0, b).0
  {
    RunConcat(ReadChar(true), f, a, b);
  }

  /** A client of a stream that ended early reads the error event as an event of its own, and last,
      exactly when the stream did not end inside a line. The client ends lines at line feeds; one that
      also ends them at a lone carriage return, as section 9.2.6 of the WHATWG HTML standard allows,
      reads it too when that is all there is of the unfinished line. */
  lemma ErrorEventRead(cfg: Config, codec: Codec, utf8: Utf8, chunks: seq<string>, body: Bytes)
    requires codec.Lawful() && utf8.Lawful()
    requires Decode(body) == Some(utf8.encode(Relayed(cfg, codec, chunks)))
    requires EndsEarly(codec, Read(true, EmptyFrame, Concat(chunks)).1)
    ensures
      var text, read := Concat(chunks), Read(false, EmptyFrame, utf8.decode(Decode(body).value)).1;
      read != [] && (read[|read| - 1] == [ERROR_LINE] <==> text == "" || text[|text| - 1] == '\n')
  {
    hide Read, Rewritten, EndsEarly, Decode, Unfinished, Relayed;
    ClientReads(cfg, codec, utf8, chunks, body);
    EndsInsideLine(Concat(chunks));
    var frame := Read(true, EmptyFrame, Concat(chunks)).0;
    if frame.buf == "" {
      assert "" + ERROR_LINE == ERROR_LINE;
    } else {
      assert |frame.buf + ERROR_LINE| != |ERROR_LINE|;
    }
  }

  /** A stream cut inside its first line: the client reads one line that is neither it nor the error event. */
  lemma ErrorEventLost(cfg: Config, codec: Codec, utf8: Utf8, body: Bytes)
    requires codec.Lawful() && utf8.Lawful()
    requires Decode(body) == Some(utf8.encode(Relayed(cfg, codec, ["data: {"])))
    ensures Read(false, EmptyFrame, utf8.decode(Decode(body).value)).1 == [["data: {" + ERROR_LINE]]
  {
    hide Read, Decode, Relayed;
    ConcatOne("data: {");
    ReadNoBreak(true, EmptyFrame, "data: {");
    assert "" + "data: {" == "data: {";
    ClientReads(cfg, codec, utf8, ["data: {"], body);
    var blocks: seq<Block> := [];
    assert Rewritten(cfg, codec, InitContext, []) + Unfinished([]) == blocks;
  }
}
