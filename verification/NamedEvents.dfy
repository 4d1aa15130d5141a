/** The events by their names: what the relay and the assembler do with a stream of each of them. */
module NamedEvents {
  import opened Json
  import opened Sequences
  import opened Text
  import opened Transducer
  import opened MarkerSpec
  import opened MarkerOrder
  import opened MarkerText
  import opened Assembler
  import opened CommutingSquare
  import ChunkedRelay
  import UsageCounts

  // ---------------------------------------------------------------- events as text

  /** An event as an upstream writes it, with either kind of line break. */
  function EventText(codec: Codec, crlf: bool, data: Json): string {
    var end := if crlf then "\r\n" else "\n";
    "data: " + codec.print_(data) + end + end
  }

  function StreamText(codec: Codec, crlf: bool, events: seq<Json>): string {
    if events == [] then "" else EventText(codec, crlf, events[0]) + StreamText(codec, crlf, events[1..])
  }

  function BlocksOf(codec: Codec, events: seq<Json>): seq<Block> {
    seq(|events|, i requires 0 <= i < |events| => BlockOf(codec, events[i]))
  }

  lemma ReadBoth(f: Frame, a: string, b: string)
    ensures
      var (mid, out) := Read(true, f, a);
      var (end, more) := Read(true, mid, b);
      Read(true, f, a + b) == (end, out + more)
  {
    RunConcat(ReadChar(true), f, a, b);
  }

  /** One line, with the carriage return that may stand before its line feed. */
  lemma ReadOneLine(crlf: bool, block: Block, line: string)
    requires '\n' !in line && (line == "" || line[|line| - 1] != '\r')
    ensures Read(true, Frame("", block), line + if crlf then "\r\n" else "\n") == ReadLine(block, line)
  {
    hide Read, ReadLine;
    var sent := if crlf then line + "\r" else line;
    assert line + (if crlf then "\r\n" else "\n") == sent + "\n";
    assert StripCr(sent) == line;
    ReadNoBreak(true, Frame("", block), sent);
    assert "" + sent == sent;
    ChunkedRelay.ReadBreak(true, Frame(sent, block));
    ReadBoth(Frame("", block), sent, "\n");
    var none: seq<Block> := [];
    var (end, out) := ReadLine(block, line);
    assert none + out == out;
  }

  lemma ReadEvent(codec: Codec, crlf: bool, data: Json)
    requires codec.Lawful() && data.Obj?
    ensures Read(true, EmptyFrame, EventText(codec, crlf, data)) == (EmptyFrame, [BlockOf(codec, data)])
  {
    hide Read, ReadLine;
    var line, end := "data: " + codec.print_(data), if crlf then "\r\n" else "\n";
    assert line == DATA_PREFIX + codec.print_(data);
    assert '\n' !in line && line != "" && line[|line| - 1] != '\r';
    ReadOneLine(crlf, [], line);
    ReadOneLine(crlf, [line], "");
    assert "" + end == end;
    ReadLines(line);
    ReadBoth(EmptyFrame, line + end, end);
    assert BlockOf(codec, data) == [line];
    var none: seq<Block> := [];
    assert none + [[line]] == [[line]];
  }

  lemma ReadLines(line: string)
    requires line != ""
    ensures ReadLine([], line) == (Frame("", [line]), []) && ReadLine([line], "") == (EmptyFrame, [[line]])
  {
    assert [] + [line] == [line];
  }

  lemma {:induction false} ReadStream(codec: Codec, crlf: bool, events: seq<Json>)
    requires codec.Lawful() && forall e | e in events :: e.Obj?
    ensures Read(true, EmptyFrame, StreamText(codec, crlf, events)) == (EmptyFrame, BlocksOf(codec, events))
    decreases |events|
  {
    hide Read, EventText;
    if events == [] {
      ReadNoBreak(true, EmptyFrame, "");
      assert BlocksOf(codec, events) == [] && "" + "" == "";
    } else {
      ReadEvent(codec, crlf, events[0]);
      ReadStream(codec, crlf, events[1..]);
      ReadBoth(EmptyFrame, EventText(codec, crlf, events[0]), StreamText(codec, crlf, events[1..]));
      assert BlocksOf(codec, events) == [BlockOf(codec, events[0])] + BlocksOf(codec, events[1..]);
    }
  }

  lemma BlockCanonical(codec: Codec, data: Json)
    requires codec.Lawful() && data.Obj?
    ensures Canonical(BlockOf(codec, data))
  {
    var line := BlockOf(codec, data)[0];
    var text := codec.print_(data);
    StripBraces(text);
    assert line[|FIELD|..] == " " + text && line[|DATA_PREFIX|..] == text;
  }

  /** The relay on a stream of complete events, cut in any way. */
  lemma RelaysEvents(cfg: Config, codec: Codec, chunks: seq<string>, crlf: bool, events: seq<Json>)
    requires codec.Lawful() && (forall e | e in events :: e.Obj?) && Concat(chunks) == StreamText(codec, crlf, events)
    ensures
      var (end, out) := FeedChunks(cfg, codec, InitState, chunks);
      var blocks := BlocksOf(codec, events);
      && Read(false, EmptyFrame, out + Flush(end).1) == (EmptyFrame, Rewritten(cfg, codec, InitContext, blocks))
      && end.core.ctx == ContextAfter(cfg, codec, InitContext, blocks)
      && AssembleText(codec, Concat(chunks)) == Assembled(DataAll(codec, blocks))
      && AssembleText(codec, out + Flush(end).1) ==
         RewriteResult(cfg, TerminalId(codec, blocks), Assembled(DataAll(codec, blocks)))
  {
    hide Read, Rewritten, FeedChunks, AssembleText, Canonical, RewriteResult, Flush, TerminalId, BlockOf;
    var blocks := BlocksOf(codec, events);
    ReadStream(codec, crlf, events);
    RelayedStream(cfg, codec, chunks);
    ChunkingInvariance(cfg, codec, InitState, chunks);
    FeedBlocks(cfg, codec, InitState, Concat(chunks));
    WrittenThenHeld(cfg, codec, InitCore, blocks);
    forall b | b in blocks ensures Canonical(b) {
      var i :| 0 <= i < |blocks| && blocks[i] == b;
      BlockCanonical(codec, events[i]);
    }
    AssembleBlocks(codec, true, Concat(chunks), blocks);
    StreamedResponse(cfg, codec, chunks);
    var written := Rewritten(cfg, codec, InitContext, blocks);
    assert written + Unfinished([]) == written;
  }

  // ---------------------------------------------------------------- the end of a response

  function Created(id: string): Json {
    Obj(map[KType := Str("response.created"), KResponse := Obj(map[KId := Str(id)])])
  }

  function Ended(name: string, response: Json): Json {
    Obj(map[KType := Str(name), KResponse := response])
  }

  predicate EndsResponse(name: string) {
    name == "response.completed" || name == "response.incomplete" || name == "response.failed"
  }

  /** A normal stream, for each of the three events that can end it: the type and the usage are
      recorded, and no error event follows. */
  lemma EndRecorded(cfg: Config, codec: Codec, chunks: seq<string>, crlf: bool, name: string, id: string,
                    response: Json)
    requires codec.Lawful() && EndsResponse(name)
    requires Concat(chunks) == StreamText(codec, crlf, [Created(id), Ended(name, response)])
    ensures
      var (end, out) := FeedChunks(cfg, codec, InitState, chunks);
      && end.core.ctx.terminalType == name
      && end.core.ctx.usage == UsageCounts.Counts(Get(response, KUsage))
      && ChunkedRelay.Relayed(cfg, codec, chunks) == out + Flush(end).1
  {
    hide Read, Rewritten, FeedChunks, AssembleText, RewriteResult, Flush, BlockOf, KindOfType, ContextAfter, DataAll,
         Assembled, ChunkedRelay.Relayed, KindOf, BlocksOf, TerminalId, Created, Ended;
    EndKinds(id, name, response);
    EndContext(cfg, codec, id, name, response);
    AreObjects(id, name, response);
    RelaysEvents(cfg, codec, chunks, crlf, [Created(id), Ended(name, response)]);
    NothingAdded(cfg, codec, chunks);
  }

  /** What the client reads of it: the announcement as it came, then the end under its own name, whose
      response has the announced id and every output item rewritten, and is otherwise the one received. */
  lemma EndRead(cfg: Config, codec: Codec, chunks: seq<string>, crlf: bool, name: string, id: string, response: Json)
    requires codec.Lawful() && EndsResponse(name) && response.Obj? && id != ""
    requires Concat(chunks) == StreamText(codec, crlf, [Created(id), Ended(name, response)])
    ensures
      var (end, out) := FeedChunks(cfg, codec, InitState, chunks);
      var (frame, blocks) := Read(false, EmptyFrame, out + Flush(end).1);
      && frame == EmptyFrame && |blocks| == 2
      && blocks[0] == BlockOf(codec, Created(id))
      && Data(codec, blocks[1]).Some?
      && Get(Data(codec, blocks[1]).value, KType) == Str(name)
      && IsRewritten(cfg, id, response, Get(Data(codec, blocks[1]).value, KResponse))
  {
    hide Read, Rewritten, FeedChunks, AssembleText, RewriteResult, Flush, BlockOf, Data, KindOfType, RewriteResponse,
         ContextAfter, DataAll, Assembled, IsRewritten;
    var events := [Created(id), Ended(name, response)];
    var blocks := BlocksOf(codec, events);
    EndKinds(id, name, response);
    DataOfBlock(codec, Created(id));
    DataOfBlock(codec, Ended(name, response));
    RelaysEvents(cfg, codec, chunks, crlf, events);
    RewrittenCreated(cfg, codec, blocks, id);
    RewrittenEnd(cfg, codec, blocks, id, name, response);
  }

  /** Assembling the stream gives the response, and assembling what the client reads gives it rewritten. */
  lemma EndAssembled(cfg: Config, codec: Codec, chunks: seq<string>, crlf: bool, name: string, id: string,
                     response: Json)
    requires codec.Lawful() && EndsResponse(name) && response.Obj? && id != ""
    requires Concat(chunks) == StreamText(codec, crlf, [Created(id), Ended(name, response)])
    ensures AssembleText(codec, Concat(chunks)) == Response(response)
    ensures
      var (end, out) := FeedChunks(cfg, codec, InitState, chunks);
      var answer := AssembleText(codec, out + Flush(end).1);
      answer.Response? && IsRewritten(cfg, id, response, answer.response)
  {
    hide Read, Rewritten, FeedChunks, AssembleText, Flush, BlockOf, Data, KindOfType, RewriteResponse, ContextAfter,
         DataAll, Assembled, IsRewritten, TerminalId;
    var events := [Created(id), Ended(name, response)];
    var blocks := BlocksOf(codec, events);
    EndKinds(id, name, response);
    DataOfBlock(codec, Created(id));
    DataOfBlock(codec, Ended(name, response));
    RelaysEvents(cfg, codec, chunks, crlf, events);
    EndIds(codec, blocks, id, name, response);
    EndAnswer(codec, blocks, id, name, response);
    RewriteIs(cfg, id, response);
  }

  /** The response with the id, and with every output item rewritten; nothing else changed. */
  predicate IsRewritten(cfg: Config, id: string, response: Json, r: Json) {
    && response.Obj? && r.Obj? && r.m.Keys == response.m.Keys + {KId} && Get(r, KId) == Str(id)
    && (forall k | k in response.m && k != KId && k != KOutput :: r.m[k] == response.m[k])
    && if Get(response, KOutput).Arr? then
         var items := Get(response, KOutput).xs;
         Get(r, KOutput).Arr? && |Get(r, KOutput).xs| == |items| &&
         forall i | 0 <= i < |items| :: Get(r, KOutput).xs[i] == RewriteItem(cfg, items[i])
       else Get(r, KOutput) == Get(response, KOutput)
  }

  lemma RewriteIs(cfg: Config, id: string, response: Json)
    requires response.Obj? && id != ""
    ensures IsRewritten(cfg, id, response, RewriteResponse(cfg, id, response))
  {
    hide RewriteItem;
  }

  lemma AreObjects(id: string, name: string, response: Json)
    ensures Created(id).Obj? && Ended(name, response).Obj?
  {
  }

  lemma NothingAdded(cfg: Config, codec: Codec, chunks: seq<string>)
    requires FeedChunks(cfg, codec, InitState, chunks).0.core.ctx.terminalType != ""
    ensures
      var (end, out) := FeedChunks(cfg, codec, InitState, chunks);
      ChunkedRelay.Relayed(cfg, codec, chunks) == out + Flush(end).1
  {
    hide FeedChunks, Flush;
    var (end, out) := FeedChunks(cfg, codec, InitState, chunks);
    assert out + Flush(end).1 + "" == out + Flush(end).1;
  }

  lemma EndKinds(id: string, name: string, response: Json)
    requires EndsResponse(name)
    ensures KindOf(Created(id)) == MarkerSpec.Created && KindOf(Ended(name, response)) == Terminal
    ensures name != ""
  {
  }

  lemma EndContext(cfg: Config, codec: Codec, id: string, name: string, response: Json)
    requires codec.Lawful() && KindOf(Created(id)) == MarkerSpec.Created && KindOf(Ended(name, response)) == Terminal
    ensures
      var ctx := ContextAfter(cfg, codec, InitContext, BlocksOf(codec, [Created(id), Ended(name, response)]));
      ctx.terminalType == name && ctx.usage == UsageCounts.Counts(Get(response, KUsage))
  {
    hide KindOfType, Data, BlockOf;
    var blocks := BlocksOf(codec, [Created(id), Ended(name, response)]);
    DataOfBlock(codec, Ended(name, response));
    LastTerminalRecorded(cfg, codec, InitContext, blocks, 1);
  }

  lemma RewrittenCreated(cfg: Config, codec: Codec, blocks: seq<Block>, id: string)
    requires codec.Lawful() && |blocks| == 2 && Data(codec, blocks[0]) == Some(Created(id))
    requires KindOf(Created(id)) == MarkerSpec.Created
    ensures Rewritten(cfg, codec, InitContext, blocks)[0] == blocks[0]
  {
    hide KindOfType, Data, Rewritten;
    RewrittenAt(cfg, codec, InitContext, blocks, 0);
  }

  lemma EndIds(codec: Codec, blocks: seq<Block>, id: string, name: string, response: Json)
    requires |blocks| == 2 && KindOf(Created(id)) == MarkerSpec.Created && KindOf(Ended(name, response)) == Terminal
    requires Data(codec, blocks[0]) == Some(Created(id)) && Data(codec, blocks[1]) == Some(Ended(name, response))
    ensures TerminalId(codec, blocks) == id && CreatedId(codec, blocks[..1]) == id
  {
    hide Data, KindOfType;
    assert blocks[..1] == [blocks[0]];
  }

  lemma RewrittenEnd(cfg: Config, codec: Codec, blocks: seq<Block>, id: string, name: string, response: Json)
    requires codec.Lawful() && |blocks| == 2 && response.Obj? && id != ""
    requires KindOf(Created(id)) == MarkerSpec.Created && KindOf(Ended(name, response)) == Terminal
    requires Data(codec, blocks[0]) == Some(Created(id)) && Data(codec, blocks[1]) == Some(Ended(name, response))
    ensures
      var d := Data(codec, Rewritten(cfg, codec, InitContext, blocks)[1]);
      && d.Some? && Get(d.value, KType) == Str(name)
      && IsRewritten(cfg, id, response, Get(d.value, KResponse))
  {
    hide Data, KindOfType, RewriteOne, RewriteOneData, RewriteResponse, IsRewritten, CreatedId, TerminalId, Rewritten;
    var ctx, next := ContextAfter(cfg, codec, InitContext, blocks[..1]), NextData(codec, blocks[2..]);
    EndIds(codec, blocks, id, name, response);
    ContextKnowsCreatedId(cfg, codec, blocks[..1]);
    RewrittenAt(cfg, codec, InitContext, blocks, 1);
    RewriteOneIs(cfg, codec, ctx, blocks[1], next);
    RewrittenEvent(cfg, codec, ctx, Ended(name, response), next);
    RewriteIs(cfg, id, response);
  }

  lemma EndAnswer(codec: Codec, blocks: seq<Block>, id: string, name: string, response: Json)
    requires |blocks| == 2 && response.Obj? && EndsResponse(name)
    requires Data(codec, blocks[0]) == Some(Created(id)) && Data(codec, blocks[1]) == Some(Ended(name, response))
    ensures Assembled(DataAll(codec, blocks)) == Response(response)
  {
    hide Data, Assembled;
    var events := DataAll(codec, blocks);
    assert events == [Some(Created(id)), Some(Ended(name, response))];
    ResponseAsItCame(events, 1);
  }

  // ---------------------------------------------------------------- no end

  const TEXT_HEAD := "{\"type\":\"error\",\"error\":"
  const TEXT_MIDDLE := "{\"message\":\"upstream stream ended "
  const TEXT_TAIL := "before a terminal event\"}}"

  /** The relay's own error, as JSON. */
  const ERROR_TEXT := TEXT_HEAD + TEXT_MIDDLE + TEXT_TAIL

  lemma ErrorLineIs()
    ensures ChunkedRelay.ERROR_LINE == DATA_PREFIX + ERROR_TEXT
    ensures 2 <= |ERROR_TEXT| && ERROR_TEXT[0] == '{' && ERROR_TEXT[|ERROR_TEXT| - 1] == '}'
  {
    ErrorPieces();
    hide TEXT_HEAD, TEXT_MIDDLE, TEXT_TAIL, ChunkedRelay.ERROR_HEAD, ChunkedRelay.ERROR_MIDDLE, ChunkedRelay.ERROR_TAIL;
  }

  lemma ErrorPieces()
    ensures ChunkedRelay.ERROR_HEAD == DATA_PREFIX + TEXT_HEAD && TEXT_HEAD != "" && TEXT_HEAD[0] == '{'
    ensures ChunkedRelay.ERROR_MIDDLE == TEXT_MIDDLE && ChunkedRelay.ERROR_TAIL == TEXT_TAIL
    ensures TEXT_TAIL != "" && TEXT_TAIL[|TEXT_TAIL| - 1] == '}'
  {
  }

  /** A stream that ends without one of the three: whoever assembles what the client reads is told the
      relay's own error, whatever the events before it were. */
  lemma ErrorEventAssembled(cfg: Config, codec: Codec, chunks: seq<string>, crlf: bool, events: seq<Json>, error: Json)
    requires codec.Lawful() && (forall e | e in events :: e.Obj?) && Concat(chunks) == StreamText(codec, crlf, events)
    requires forall e | e in events ::
               Get(e, KType) !in {Str("response.completed"), Str("response.incomplete"), Str("response.failed")}
    requires error.Obj? && Get(error, KType) == Str("error")
    requires codec.parse(ERROR_TEXT) == Some(error)
    ensures AssembleText(codec, ChunkedRelay.Relayed(cfg, codec, chunks)) == ErrorEvent(error)
  {
    hide Read, Rewritten, FeedChunks, AssembleText, RewriteResult, Flush, BlocksOf, TerminalId, Assembled, Canonical,
         ChunkedRelay.EndsEarly, ChunkedRelay.ERROR_LINE, ERROR_TEXT, DataAll, ChunkedRelay.Relayed;
    var blocks := BlocksOf(codec, events);
    var written := Rewritten(cfg, codec, InitContext, blocks);
    RelaysEvents(cfg, codec, chunks, crlf, events);
    NoneEnds(codec, events);
    ReadStream(codec, crlf, events);
    ChunkedRelay.ErrorEventExactly(cfg, codec, chunks);
    ErrorEventAdded(cfg, codec, chunks, written);
    BlocksCanonical(codec, events);
    RewrittenCanonical(cfg, codec, blocks);
    ErrorLineData(codec, error);
    AssembleBlocks(codec, false, ChunkedRelay.Relayed(cfg, codec, chunks), written + [[ChunkedRelay.ERROR_LINE]]);
    assert DataAll(codec, written + [[ChunkedRelay.ERROR_LINE]]) == DataAll(codec, written) + [Some(error)] by {
      DataOneMore(codec, written, [ChunkedRelay.ERROR_LINE]);
    }
    NoneEndsRewritten(cfg, codec, events);
    ErrorLast(DataAll(codec, written), error);
    AssembledIs(DataAll(codec, written) + [Some(error)]);
  }

  lemma AssembledIs(events: seq<Option<Json>>)
    ensures Assembled(events) == Finish(CollectAll(EmptyAssembly, events))
  {
  }

  lemma DataOneMore(codec: Codec, blocks: seq<Block>, block: Block)
    ensures DataAll(codec, blocks + [block]) == DataAll(codec, blocks) + [Data(codec, block)]
  {
  }

  /** The error event stands behind the blocks that were written. */
  lemma ErrorEventAdded(cfg: Config, codec: Codec, chunks: seq<string>, written: seq<Block>)
    requires FeedChunks(cfg, codec, InitState, chunks).0.core.ctx.terminalType == ""
    requires
      var (end, out) := FeedChunks(cfg, codec, InitState, chunks);
      Read(false, EmptyFrame, out + Flush(end).1) == (EmptyFrame, written)
    ensures Read(false, EmptyFrame, ChunkedRelay.Relayed(cfg, codec, chunks)) ==
            (EmptyFrame, written + [[ChunkedRelay.ERROR_LINE]])
  {
    hide Read, FeedChunks, Flush, ChunkedRelay.ERROR_LINE;
    var (end, out) := FeedChunks(cfg, codec, InitState, chunks);
    var closing := ChunkedRelay.ERROR_LINE + "\n\n";
    ChunkedRelay.ReadClosing("");
    assert "" + ChunkedRelay.ERROR_LINE == ChunkedRelay.ERROR_LINE;
    ReadConcat(EmptyFrame, out + Flush(end).1, closing);
  }

  lemma ErrorLineData(codec: Codec, error: Json)
    requires codec.Lawful() && error.Obj? && codec.parse(ERROR_TEXT) == Some(error)
    ensures Data(codec, [ChunkedRelay.ERROR_LINE]) == Some(error) && Canonical([ChunkedRelay.ERROR_LINE])
  {
    hide ChunkedRelay.ERROR_LINE, ERROR_TEXT;
    ErrorLineIs();
    var line := DATA_PREFIX + ERROR_TEXT;
    assert line[|DATA_PREFIX|..] == ERROR_TEXT && line[|FIELD|..] == " " + ERROR_TEXT;
    StripBraces(ERROR_TEXT);
  }

  lemma BlocksCanonical(codec: Codec, events: seq<Json>)
    requires codec.Lawful() && forall e | e in events :: e.Obj?
    ensures forall b | b in BlocksOf(codec, events) :: Canonical(b)
  {
    hide Canonical, BlockOf;
    forall b | b in BlocksOf(codec, events) ensures Canonical(b) {
      var i :| 0 <= i < |events| && BlockOf(codec, events[i]) == b;
      BlockCanonical(codec, events[i]);
    }
  }

  lemma NoneEnds(codec: Codec, events: seq<Json>)
    requires codec.Lawful() && forall e | e in events :: e.Obj?
    requires forall e | e in events ::
               Get(e, KType) !in {Str("response.completed"), Str("response.incomplete"), Str("response.failed")}
    ensures ChunkedRelay.EndsEarly(codec, BlocksOf(codec, events))
  {
    hide BlockOf, Data;
    forall i | 0 <= i < |events| { DataOfBlock(codec, events[i]); }
  }

  lemma NoneEndsRewritten(cfg: Config, codec: Codec, events: seq<Json>)
    requires codec.Lawful() && forall e | e in events :: e.Obj?
    requires ChunkedRelay.EndsEarly(codec, BlocksOf(codec, events))
    ensures forall d | d in DataAll(codec, Rewritten(cfg, codec, InitContext, BlocksOf(codec, events))) :: !IsFinal(d)
  {
    hide Data, BlockOf, RewriteOne, RewriteOneData, Rewritten, KindOfType, IsFinal;
    var blocks := BlocksOf(codec, events);
    var written := Rewritten(cfg, codec, InitContext, blocks);
    forall i | 0 <= i < |written| ensures !IsFinal(Data(codec, written[i])) {
      var ctx, next := ContextAfter(cfg, codec, InitContext, blocks[..i]), NextData(codec, blocks[i + 1..]);
      DataOfBlock(codec, events[i]);
      RewrittenAt(cfg, codec, InitContext, blocks, i);
      RewriteOneIs(cfg, codec, ctx, blocks[i], next);
      SameType(cfg, codec, ctx, events[i], next);
      ChunkedRelay.TerminalNamed(codec, blocks[i]);
      CollectedKinds(Data(codec, written[i]), 0);
    }
  }

  lemma ErrorLast(events: seq<Option<Json>>, error: Json)
    requires (forall d | d in events :: !IsFinal(d)) && Get(error, KType) == Str("error")
    ensures Assembled(events + [Some(error)]) == ErrorEvent(error)
  {
    hide Assembled;
    var all := events + [Some(error)];
    assert forall i | 0 <= i < |events| :: all[i] in events;
    assert IsLast(all, IsErrorEvent, |events|);
    NoResponse(all);
  }

  // ---------------------------------------------------------------- two events

  /** Of two events the client reads two: the first rewritten with the second behind it. */
  lemma ReadsTwo(cfg: Config, codec: Codec, chunks: seq<string>, crlf: bool, first: Json, second: Json)
    requires codec.Lawful() && first.Obj? && second.Obj? && Concat(chunks) == StreamText(codec, crlf, [first, second])
    ensures
      var (end, out) := FeedChunks(cfg, codec, InitState, chunks);
      Read(false, EmptyFrame, out + Flush(end).1) ==
      (EmptyFrame, [BlockOf(codec, RewriteOneData(cfg, codec, InitContext, first, Some(second))),
                    BlockOf(codec, RewriteOneData(cfg, codec, NextContext(cfg, InitContext, first), second, None))])
  {
    hide Read, Rewritten, FeedChunks, AssembleText, RewriteResult, Flush, BlockOf, Data, RewriteOneData, RewriteOne,
         DataAll, Assembled, TerminalId, NextContext;
    var blocks := BlocksOf(codec, [first, second]);
    RelaysEvents(cfg, codec, chunks, crlf, [first, second]);
    DataOfBlock(codec, first);
    DataOfBlock(codec, second);
    RewrittenAt(cfg, codec, InitContext, blocks, 0);
    RewrittenAt(cfg, codec, InitContext, blocks, 1);
    assert blocks[..0] == [] && blocks[..1] == [blocks[0]] && blocks[1..] == [blocks[1]] && blocks[2..] == [];
    RewriteBlock(cfg, codec, InitContext, first, Some(second));
    RewriteBlock(cfg, codec, NextContext(cfg, InitContext, first), second, None);
    var written := Rewritten(cfg, codec, InitContext, blocks);
    assert written == [written[0], written[1]];
  }

  lemma RewriteBlock(cfg: Config, codec: Codec, ctx: Context, data: Json, next: Option<Json>)
    requires codec.Lawful() && data.Obj?
    ensures RewriteOne(cfg, codec, ctx, BlockOf(codec, data), next) ==
            BlockOf(codec, RewriteOneData(cfg, codec, ctx, data, next))
  {
    hide KindOfType, Edit, Closes, TagDelta;
    DataOfBlock(codec, data);
    var d := RewriteOneData(cfg, codec, ctx, data, next);
    assert Rebuild(codec, BlockOf(codec, data), d) == BlockOf(codec, d);
  }

  // ---------------------------------------------------------------- message texts

  function AddedPart(item: string, text: string): Json {
    Obj(map[KType := Str("response.content_part.added"), KItemId := Str(item),
            KPart := Obj(map[KType := Str("output_text"), KText := Str(text)])])
  }

  function TextDeltaOf(item: string, delta: string): Json {
    Obj(map[KType := Str("response.output_text.delta"), KItemId := Str(item), KDelta := Str(delta)])
  }

  /** The header once in front. */
  function Headed(cfg: Config, text: string): string {
    if cfg.signature <= text then text else cfg.signature + text
  }

  /** An output text part that is added with a text takes the header of its message. */
  lemma AddedPartHeaded(cfg: Config, codec: Codec, chunks: seq<string>, crlf: bool, item: string, text: string,
                        delta: string)
    requires codec.Lawful() && cfg.signature != "" && text != ""
    requires Concat(chunks) == StreamText(codec, crlf, [AddedPart(item, text), TextDeltaOf(item, delta)])
    ensures
      var (end, out) := FeedChunks(cfg, codec, InitState, chunks);
      Read(false, EmptyFrame, out + Flush(end).1) ==
      (EmptyFrame, [BlockOf(codec, AddedPart(item, Headed(cfg, text))), BlockOf(codec, TextDeltaOf(item, delta))])
  {
    hide Read, FeedChunks, Flush, BlockOf, RewriteOneData, NextContext;
    var first, second := AddedPart(item, text), TextDeltaOf(item, delta);
    ReadsTwo(cfg, codec, chunks, crlf, first, second);
    AddedPartBecomes(cfg, codec, item, text, Some(second));
    AddedPartNoted(cfg, item, text);
    HeadedDelta(cfg, codec, NextContext(cfg, InitContext, first), item, delta, None);
  }

  lemma AddedPartBecomes(cfg: Config, codec: Codec, item: string, text: string, next: Option<Json>)
    requires cfg.signature != "" && text != ""
    ensures RewriteOneData(cfg, codec, InitContext, AddedPart(item, text), next) ==
            AddedPart(item, Headed(cfg, text))
  {
    hide KindOfType;
    var data := AddedPart(item, text);
    PartAddedKind(data);
    var signed := PutDoneText(data, Sign(cfg, Str(text)));
    assert Get(signed, KPart).m == Get(AddedPart(item, Headed(cfg, text)), KPart).m;
    assert signed.m == AddedPart(item, Headed(cfg, text)).m;
  }

  lemma PartAddedKind(data: Json)
    requires Get(data, KType) == Str("response.content_part.added")
    ensures KindOf(data) == PartAdded
  {
  }

  lemma SummaryKinds(data: Json)
    ensures Get(data, KType) == Str("response.reasoning_summary_text.delta") ==> KindOf(data) == SummaryDelta
    ensures Get(data, KType) == Str("response.reasoning_summary_text.done") ==> KindOf(data) == SummaryTextDone
    ensures Get(data, KType) == Str("response.reasoning_summary_part.done") ==> KindOf(data) == SummaryPartDone
    ensures Get(data, KType) == Str("response.output_item.done") ==> KindOf(data) == ItemDone
  {
  }

  lemma AddedPartNoted(cfg: Config, item: string, text: string)
    requires cfg.signature != "" && text != ""
    ensures MessageKeyOf(AddedPart(item, text)) in NextContext(cfg, InitContext, AddedPart(item, text)).headed
  {
  }

  lemma HeadedDelta(cfg: Config, codec: Codec, ctx: Context, item: string, delta: string, next: Option<Json>)
    requires MessageKeyOf(AddedPart(item, "")) in ctx.headed
    ensures RewriteOneData(cfg, codec, ctx, TextDeltaOf(item, delta), next) == TextDeltaOf(item, delta)
  {
    hide KindOfType;
    assert KindOf(TextDeltaOf(item, delta)) == TextDelta by { DeltaKind(TextDeltaOf(item, delta)); }
  }

  lemma DeltaKind(data: Json)
    requires Get(data, KType) == Str("response.output_text.delta")
    ensures KindOf(data) == TextDelta
  {
  }

  // ---------------------------------------------------------------- summaries

  function SummaryDeltaOf(item: string, index: int, delta: string): Json {
    Obj(map[KType := Str("response.reasoning_summary_text.delta"), KItemId := Str(item),
            KSummaryIndex := Num(index), KDelta := Str(delta)])
  }

  /** The end of a summary text, and of a summary part. */
  function SummaryTextOf(item: string, index: int, text: string): Json {
    Obj(map[KType := Str("response.reasoning_summary_text.done"), KItemId := Str(item),
            KSummaryIndex := Num(index), KText := Str(text)])
  }

  function SummaryPartOf(item: string, index: int, text: string): Json {
    Obj(map[KType := Str("response.reasoning_summary_part.done"), KItemId := Str(item),
            KSummaryIndex := Num(index), KPart := Obj(map[KText := Str(text)])])
  }

  function ReasoningItem(item: string, texts: seq<string>): Json {
    Obj(map[KType := Str("reasoning"), KId := Str(item),
            KSummary := Arr(seq(|texts|, i requires 0 <= i < |texts| => Obj(map[KText := Str(texts[i])])))])
  }

  function ReasoningOf(item: string, texts: seq<string>): Json {
    Obj(map[KType := Str("response.output_item.done"), KItem := ReasoningItem(item, texts)])
  }

  /** The route tag once behind. */
  ghost function Tagged(cfg: Config, text: string): string {
    if text == "" || (exists a, b :: text == a + cfg.marker + b) then text else text + cfg.marker
  }

  ghost function AllTagged(cfg: Config, texts: seq<string>): seq<string> {
    seq(|texts|, i requires 0 <= i < |texts| => Tagged(cfg, texts[i]))
  }

  /** A part occurs in a text that reads something, the part, something. */
  lemma ContainsIs(text: string, part: string)
    ensures Contains(text, part) <==> exists a, b :: text == a + part + b
  {
    if i: nat :| 0 <= i <= |text| && OccursAt(text, part, i) {
      assert text == text[..i] + part + text[i + |part|..];
    }
    if a, b :| text == a + part + b {
      assert text[|a|..|a| + |part|] == part;
      assert OccursAt(text, part, |a|);
    }
  }

  lemma TagIs(cfg: Config, text: string)
    ensures Tag(cfg, Str(text)) == Str(Tagged(cfg, text))
  {
    ContainsIs(text, cfg.marker);
  }

  /** A summary is closed by the end of its text, the end of its part, or its finished item: in each the
      texts are tagged, and so is the last delta before it. */
  lemma SummaryTextClosed(cfg: Config, codec: Codec, chunks: seq<string>, crlf: bool, item: string, index: int,
                          delta: string, text: string)
    requires codec.Lawful()
    requires Concat(chunks) == StreamText(codec, crlf, [SummaryDeltaOf(item, index, delta),
                                                        SummaryTextOf(item, index, text)])
    ensures
      var (end, out) := FeedChunks(cfg, codec, InitState, chunks);
      Read(false, EmptyFrame, out + Flush(end).1) ==
      (EmptyFrame, [BlockOf(codec, SummaryDeltaOf(item, index, Tagged(cfg, delta))),
                    BlockOf(codec, SummaryTextOf(item, index, Tagged(cfg, text)))])
  {
    hide Read, FeedChunks, Flush, BlockOf, RewriteOneData, NextContext, Tagged, Closes;
    var first, second := SummaryDeltaOf(item, index, delta), SummaryTextOf(item, index, text);
    ReadsTwo(cfg, codec, chunks, crlf, first, second);
    ClosingEvents(item, index, text, []);
    ClosedBy(cfg, codec, item, index, delta, second);
    SummaryTextBecomes(cfg, codec, NextContext(cfg, InitContext, first), item, index, text);
  }

  lemma SummaryPartClosed(cfg: Config, codec: Codec, chunks: seq<string>, crlf: bool, item: string, index: int,
                          delta: string, text: string)
    requires codec.Lawful()
    requires Concat(chunks) == StreamText(codec, crlf, [SummaryDeltaOf(item, index, delta),
                                                        SummaryPartOf(item, index, text)])
    ensures
      var (end, out) := FeedChunks(cfg, codec, InitState, chunks);
      Read(false, EmptyFrame, out + Flush(end).1) ==
      (EmptyFrame, [BlockOf(codec, SummaryDeltaOf(item, index, Tagged(cfg, delta))),
                    BlockOf(codec, SummaryPartOf(item, index, Tagged(cfg, text)))])
  {
    hide Read, FeedChunks, Flush, BlockOf, RewriteOneData, NextContext, Tagged, Closes;
    var first, second := SummaryDeltaOf(item, index, delta), SummaryPartOf(item, index, text);
    ReadsTwo(cfg, codec, chunks, crlf, first, second);
    ClosingEvents(item, index, text, []);
    ClosedBy(cfg, codec, item, index, delta, second);
    SummaryPartBecomes(cfg, codec, NextContext(cfg, InitContext, first), item, index, text);
  }

  lemma SummaryItemClosed(cfg: Config, codec: Codec, chunks: seq<string>, crlf: bool, item: string, index: int,
                          delta: string, texts: seq<string>)
    requires codec.Lawful()
    requires Concat(chunks) == StreamText(codec, crlf, [SummaryDeltaOf(item, index, delta), ReasoningOf(item, texts)])
    ensures
      var (end, out) := FeedChunks(cfg, codec, InitState, chunks);
      Read(false, EmptyFrame, out + Flush(end).1) ==
      (EmptyFrame, [BlockOf(codec, SummaryDeltaOf(item, index, Tagged(cfg, delta))),
                    BlockOf(codec, ReasoningOf(item, AllTagged(cfg, texts)))])
  {
    hide Read, FeedChunks, Flush, BlockOf, RewriteOneData, NextContext, Tagged, Closes;
    var first, second := SummaryDeltaOf(item, index, delta), ReasoningOf(item, texts);
    ReadsTwo(cfg, codec, chunks, crlf, first, second);
    ClosingEvents(item, index, "", texts);
    ClosedBy(cfg, codec, item, index, delta, second);
    ReasoningBecomes(cfg, codec, NextContext(cfg, InitContext, first), item, texts);
  }

  lemma ClosedBy(cfg: Config, codec: Codec, item: string, index: int, delta: string, next: Json)
    requires Closes(SummaryKey(Str(item), Num(index)), Some(next))
    ensures RewriteOneData(cfg, codec, InitContext, SummaryDeltaOf(item, index, delta), Some(next)) ==
            SummaryDeltaOf(item, index, Tagged(cfg, delta))
  {
    hide Tag, Tagged, KindOfType, Closes, Edit;
    SummaryKinds(SummaryDeltaOf(item, index, delta));
    TagIs(cfg, delta);
  }

  lemma ClosingEvents(item: string, index: int, text: string, texts: seq<string>)
    ensures Closes(SummaryKey(Str(item), Num(index)), Some(SummaryTextOf(item, index, text)))
    ensures Closes(SummaryKey(Str(item), Num(index)), Some(SummaryPartOf(item, index, text)))
    ensures Closes(SummaryKey(Str(item), Num(index)), Some(ReasoningOf(item, texts)))
  {
    hide KindOfType;
    SummaryKinds(SummaryTextOf(item, index, text));
    SummaryKinds(SummaryPartOf(item, index, text));
    SummaryKinds(ReasoningOf(item, texts));
  }

  lemma SummaryTextBecomes(cfg: Config, codec: Codec, ctx: Context, item: string, index: int, text: string)
    ensures RewriteOneData(cfg, codec, ctx, SummaryTextOf(item, index, text), None) ==
            SummaryTextOf(item, index, Tagged(cfg, text))
  {
    hide Tag, Tagged, KindOfType;
    SummaryKinds(SummaryTextOf(item, index, text));
    TagIs(cfg, text);
  }

  lemma SummaryPartBecomes(cfg: Config, codec: Codec, ctx: Context, item: string, index: int, text: string)
    ensures RewriteOneData(cfg, codec, ctx, SummaryPartOf(item, index, text), None) ==
            SummaryPartOf(item, index, Tagged(cfg, text))
  {
    hide Tag, Tagged, KindOfType;
    SummaryKinds(SummaryPartOf(item, index, text));
    TagIs(cfg, text);
    var part := Obj(map[KText := Str(text)]);
    assert TagText(cfg, part).m == map[KText := Str(Tagged(cfg, text))];
  }

  lemma ReasoningBecomes(cfg: Config, codec: Codec, ctx: Context, item: string, texts: seq<string>)
    ensures RewriteOneData(cfg, codec, ctx, ReasoningOf(item, texts), None) == ReasoningOf(item, AllTagged(cfg, texts))
  {
    hide Tag, Tagged, RewriteItem, KindOfType;
    SummaryKinds(ReasoningOf(item, texts));
    ReasoningTagged(cfg, item, texts);
  }

  /** A reasoning item leaves with its summary texts tagged. */
  lemma ReasoningTagged(cfg: Config, item: string, texts: seq<string>)
    ensures RewriteItem(cfg, ReasoningItem(item, texts)) == ReasoningItem(item, AllTagged(cfg, texts))
  {
    hide Tag, Tagged;
    var parts := Get(ReasoningItem(item, texts), KSummary).xs;
    forall i | 0 <= i < |texts|
      ensures TagText(cfg, parts[i]) == Obj(map[KText := Str(Tagged(cfg, texts[i]))])
    {
      TagIs(cfg, texts[i]);
    }
    assert TagTexts(cfg, parts) == Get(ReasoningItem(item, AllTagged(cfg, texts)), KSummary).xs;
  }

  /** An item that is neither reasoning nor a message of the assistant, or of nobody, passes as it is. */
  lemma OtherItemPasses(cfg: Config, item: Json)
    requires Get(item, KType) != Str("reasoning")
    requires Get(item, KType) == Str("message") ==> Get(item, KRole) !in {Null, Str("assistant")}
    ensures RewriteItem(cfg, item) == item
  {
  }

  /** A delta of another part, or of another item, is not closed. */
  lemma OtherPartClosed(cfg: Config, codec: Codec, chunks: seq<string>, crlf: bool, item: string, index: int,
                        delta: string, other: string, otherIndex: int, text: string)
    requires codec.Lawful() && (other != item || otherIndex != index)
    requires
      || Concat(chunks) == StreamText(codec, crlf, [SummaryDeltaOf(item, index, delta),
                                                    SummaryTextOf(other, otherIndex, text)])
      || Concat(chunks) == StreamText(codec, crlf, [SummaryDeltaOf(item, index, delta),
                                                    SummaryPartOf(other, otherIndex, text)])
      || (other != item &&
          Concat(chunks) == StreamText(codec, crlf, [SummaryDeltaOf(item, index, delta), ReasoningOf(other, [text])]))
    ensures
      var (end, out) := FeedChunks(cfg, codec, InitState, chunks);
      var read := Read(false, EmptyFrame, out + Flush(end).1).1;
      |read| == 2 && read[0] == BlockOf(codec, SummaryDeltaOf(item, index, delta))
  {
    hide Read, FeedChunks, Flush, BlockOf, RewriteOneData, NextContext, Tagged, Closes, StreamText;
    var first := SummaryDeltaOf(item, index, delta);
    var done := if Concat(chunks) == StreamText(codec, crlf, [first, SummaryTextOf(other, otherIndex, text)]) then
                  SummaryTextOf(other, otherIndex, text)
                else if Concat(chunks) == StreamText(codec, crlf, [first, SummaryPartOf(other, otherIndex, text)]) then
                  SummaryPartOf(other, otherIndex, text)
                else ReasoningOf(other, [text]);
    ReadsTwo(cfg, codec, chunks, crlf, first, done);
    OtherClosing(item, index, other, otherIndex, text);
    NotClosed(cfg, codec, item, index, delta, done);
  }

  lemma OtherClosing(item: string, index: int, other: string, otherIndex: int, text: string)
    requires other != item || otherIndex != index
    ensures !Closes(SummaryKey(Str(item), Num(index)), Some(SummaryTextOf(other, otherIndex, text)))
    ensures !Closes(SummaryKey(Str(item), Num(index)), Some(SummaryPartOf(other, otherIndex, text)))
    ensures other != item ==> !Closes(SummaryKey(Str(item), Num(index)), Some(ReasoningOf(other, [text])))
  {
    hide KindOfType;
    SummaryKinds(SummaryTextOf(other, otherIndex, text));
    SummaryKinds(SummaryPartOf(other, otherIndex, text));
    SummaryKinds(ReasoningOf(other, [text]));
  }

  lemma NotClosed(cfg: Config, codec: Codec, item: string, index: int, delta: string, next: Json)
    requires !Closes(SummaryKey(Str(item), Num(index)), Some(next))
    ensures RewriteOneData(cfg, codec, InitContext, SummaryDeltaOf(item, index, delta), Some(next)) ==
            SummaryDeltaOf(item, index, delta)
  {
    hide KindOfType, Closes, Edit;
    SummaryKinds(SummaryDeltaOf(item, index, delta));
  }

  // ---------------------------------------------------------------- which message, which part

  /** A field that is missing counts as zero; one that is null does not. */
  function IndexOr0(data: Json, k: Key): Json {
    if data.Obj? && k in data.m then data.m[k] else Num(0)
  }

  predicate IsNothing(j: Json) {
    j in {Null, Bool(false), Num(0), Str(""), Arr([]), Obj(map[])}
  }

  /** Both events name the same item or, when neither names one, have the same output index. */
  predicate SameMessage(a: Json, b: Json) {
    if IsNothing(Get(a, KItemId)) then
      IsNothing(Get(b, KItemId)) && IndexOr0(a, KOutputIndex) == IndexOr0(b, KOutputIndex)
    else Get(a, KItemId) == Get(b, KItemId)
  }

  predicate IsDelta(data: Json) {
    data.Obj? && Get(data, KType) == Str("response.output_text.delta") && Get(data, KDelta).Str? &&
    Get(data, KDelta).s != ""
  }

  function WithHeader(cfg: Config, data: Json): Json
    requires IsDelta(data)
  {
    Put(data, KDelta, Str(Headed(cfg, Get(data, KDelta).s)))
  }

  lemma KeysAre(a: Json, b: Json)
    ensures MessageKeyOf(a) == MessageKeyOf(b) <==> SameMessage(a, b)
    ensures ContentIndex(a) == IndexOr0(a, KContentIndex)
  {
  }

  /** Of two deltas the first takes the header, and the second does unless it is of the same message. */
  lemma FirstDeltaHeaded(cfg: Config, codec: Codec, chunks: seq<string>, crlf: bool, first: Json, second: Json)
    requires codec.Lawful() && cfg.signature != "" && IsDelta(first) && IsDelta(second)
    requires Concat(chunks) == StreamText(codec, crlf, [first, second])
    ensures
      var (end, out) := FeedChunks(cfg, codec, InitState, chunks);
      Read(false, EmptyFrame, out + Flush(end).1) ==
      (EmptyFrame, [BlockOf(codec, WithHeader(cfg, first)),
                    BlockOf(codec, if SameMessage(first, second) then second else WithHeader(cfg, second))])
  {
    hide Read, FeedChunks, Flush, BlockOf, RewriteOneData, NextContext, MessageKeyOf, SameMessage;
    ReadsTwo(cfg, codec, chunks, crlf, first, second);
    KeysAre(first, second);
    DeltaBecomes(cfg, codec, InitContext, first, Some(second));
    DeltaBecomes(cfg, codec, NextContext(cfg, InitContext, first), second, None);
  }

  lemma DeltaBecomes(cfg: Config, codec: Codec, ctx: Context, data: Json, next: Option<Json>)
    requires cfg.signature != "" && IsDelta(data)
    ensures RewriteOneData(cfg, codec, ctx, data, next) ==
            if MessageKeyOf(data) in ctx.headed then data else WithHeader(cfg, data)
    ensures NextContext(cfg, ctx, data).headed == ctx.headed + {MessageKeyOf(data)}
    ensures MessageKeyOf(data) !in ctx.headed && MessageKeyOf(data) !in ctx.headerParts ==>
              NextContext(cfg, ctx, data).headerParts == ctx.headerParts[MessageKeyOf(data) := ContentIndex(data)]
  {
    hide KindOfType, MessageKeyOf;
    DeltaKind(data);
  }

  predicate IsDone(data: Json) {
    data.Obj? && Get(data, KType) == Str("response.output_text.done") && Get(data, KText).Str? &&
    Get(data, KText).s != "" && !Get(data, KPart).Obj?
  }

  /** The finished text behind a delta takes the header when it is of the same part of the same message, or
      of another message, and not when it is of another part of the message. */
  lemma FinishedBehindDelta(cfg: Config, codec: Codec, chunks: seq<string>, crlf: bool, first: Json, done: Json)
    requires codec.Lawful() && cfg.signature != "" && IsDelta(first) && IsDone(done)
    requires Concat(chunks) == StreamText(codec, crlf, [first, done])
    ensures
      var (end, out) := FeedChunks(cfg, codec, InitState, chunks);
      var other := SameMessage(first, done) && IndexOr0(first, KContentIndex) != IndexOr0(done, KContentIndex);
      Read(false, EmptyFrame, out + Flush(end).1) ==
      (EmptyFrame, [BlockOf(codec, WithHeader(cfg, first)),
                    BlockOf(codec, if other then done else Put(done, KText, Str(Headed(cfg, Get(done, KText).s))))])
  {
    hide Read, FeedChunks, Flush, BlockOf, RewriteOneData, NextContext, MessageKeyOf, SameMessage, ContentIndex;
    ReadsTwo(cfg, codec, chunks, crlf, first, done);
    KeysAre(first, done);
    KeysAre(done, first);
    DeltaBecomes(cfg, codec, InitContext, first, Some(done));
    DoneBecomes(cfg, codec, NextContext(cfg, InitContext, first), done);
  }

  lemma DoneBecomes(cfg: Config, codec: Codec, ctx: Context, data: Json)
    requires cfg.signature != "" && IsDone(data)
    ensures
      var key := MessageKeyOf(data);
      RewriteOneData(cfg, codec, ctx, data, None) ==
      if key in ctx.headerParts && ctx.headerParts[key] != ContentIndex(data) then data
      else Put(data, KText, Str(Headed(cfg, Get(data, KText).s)))
  {
    hide KindOfType, MessageKeyOf, ContentIndex;
    assert KindOf(data) == TextDone by { DoneKind(data); }
  }

  lemma DoneKind(data: Json)
    requires Get(data, KType) == Str("response.output_text.done")
    ensures KindOf(data) == TextDone
  {
  }
}
