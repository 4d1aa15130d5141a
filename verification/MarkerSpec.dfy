/** What the stream rewriter means, as functions on values: one step per event block,
    one step per character of the stream. `SummaryMarker` (the class) is proved equal to it. */
module MarkerSpec {
  import opened Json
  import opened Sequences
  import opened Transducer
  import UsageCounts

  /** The route tag of the call, and its header; an empty signature means "no header". */
  datatype Config = Config(marker: string, signature: string)

  type Block = seq<string>

  /** `_message_key`: the item id, or the output position when the event has none. */
  datatype MessageKey = ById(id: Json) | ByOutput(index: Json)

  /** `(item_id, summary_index)` of a reasoning summary part. */
  datatype SummaryKey = SummaryKey(itemId: Json, summaryIndex: Json)

  datatype Held = Held(key: SummaryKey, block: Block)

  /** What the rewriter remembers between blocks, apart from the held block. */
  datatype Context = Context(
    headed: set<MessageKey>,
    headerParts: map<MessageKey, Json>,
    responseId: string,
    usage: Json,
    terminalType: string)

  /** What matters from one block to the next, and the text of the block being received. */
  datatype Core = Core(held: Option<Held>, ctx: Context)
  datatype State = State(buf: string, block: Block, core: Core)

  const InitContext := Context({}, map[], "", Null, "")
  const InitCore := Core(None, InitContext)
  const InitState := State("", [], InitCore)

  /** The event types the rewriter dispatches on. */
  datatype Kind =
    | Created | ItemAdded | ItemDone
    | TextDelta | TextDone | PartAdded | PartDone
    | SummaryDelta | SummaryTextDone | SummaryPartDone
    | Terminal | OtherKind

  predicate IsTerminalType(t: Json) {
    t == Str("response.completed") || t == Str("response.incomplete") || t == Str("response.failed")
  }

  function KindOf(data: Json): Kind {
    KindOfType(Get(data, KType))
  }

  function KindOfType(t: Json): Kind {
    if t == Str("response.created") then Created
    else if t == Str("response.output_item.added") then ItemAdded
    else if t == Str("response.output_item.done") then ItemDone
    else if t == Str("response.output_text.delta") then TextDelta
    else if t == Str("response.output_text.done") then TextDone
    else if t == Str("response.content_part.added") then PartAdded
    else if t == Str("response.content_part.done") then PartDone
    else if t == Str("response.reasoning_summary_text.delta") then SummaryDelta
    else if t == Str("response.reasoning_summary_text.done") then SummaryTextDone
    else if t == Str("response.reasoning_summary_part.done") then SummaryPartDone
    else if IsTerminalType(t) then Terminal
    else OtherKind
  }

  lemma TerminalTypeNotEmpty(t: Json)
    ensures KindOfType(t) == Terminal ==> t.Str? && t.s != ""
  {
    if !IsTerminalType(t) {
      assert KindOfType(t) != Terminal;
    }
  }

  // ---------------------------------------------------------------- lines and blocks

  const DATA_PREFIX := "data: "

  predicate IsDataLine(line: string) {
    DATA_PREFIX <= line
  }

  /** `_data` restricted to objects: the first data line, parsed. */
  function Data(codec: Codec, block: Block): (d: Option<Json>)
    ensures d.Some? ==> d.value.Obj?
  {
    if block == [] then None
    else if IsDataLine(block[0]) then
      var parsed := codec.parse(block[0][|DATA_PREFIX|..]);
      if parsed.Some? && parsed.value.Obj? then parsed else None
    else Data(codec, block[1..])
  }

  function RebuildLine(codec: Codec, data: Json, line: string): string {
    if IsDataLine(line) then DATA_PREFIX + codec.print_(data) else line
  }

  function Rebuild(codec: Codec, block: Block, data: Json): Block {
    seq(|block|, i requires 0 <= i < |block| => RebuildLine(codec, data, block[i]))
  }

  function JoinLines(lines: seq<string>): string {
    if lines == [] then "" else lines[0] + "\n" + JoinLines(lines[1..])
  }

  function Emit(block: Block): string {
    JoinLines(block) + "\n"
  }

  function EmitAll(blocks: seq<Block>): string {
    if blocks == [] then "" else Emit(blocks[0]) + EmitAll(blocks[1..])
  }

  // ---------------------------------------------------------------- text decoration

  predicate OccursAt(text: string, part: string, i: nat) {
    i + |part| <= |text| && text[i..i + |part|] == part
  }

  predicate Contains(text: string, part: string) {
    exists i: nat | 0 <= i <= |text| :: OccursAt(text, part, i)
  }

  /** `_tag`: append the route tag to a text that does not carry it yet. */
  function Tag(cfg: Config, v: Json): Json {
    if !NonEmptyStr(v) || Contains(v.s, cfg.marker) then v else Str(v.s + cfg.marker)
  }

  /** `_sign`: put the header before a text that does not start with it yet. */
  function Sign(cfg: Config, v: Json): Json {
    if cfg.signature == "" || !NonEmptyStr(v) || cfg.signature <= v.s then v
    else Str(cfg.signature + v.s)
  }

  function TagText(cfg: Config, part: Json): Json {
    if part.Obj? && KText in part.m then Put(part, KText, Tag(cfg, part.m[KText])) else part
  }

  function TagTexts(cfg: Config, parts: seq<Json>): seq<Json> {
    seq(|parts|, i requires 0 <= i < |parts| => TagText(cfg, parts[i]))
  }

  predicate IsReasoning(item: Json) {
    item.Obj? && Get(item, KType) == Str("reasoning")
  }

  predicate IsMessage(item: Json) {
    item.Obj? && Get(item, KType) == Str("message")
  }

  predicate IsAssistantMessage(item: Json) {
    IsMessage(item) && (Get(item, KRole) == Null || Get(item, KRole) == Str("assistant"))
  }

  /** Tag every summary part of a reasoning item. */
  function TagItem(cfg: Config, item: Json): Json {
    if IsReasoning(item) && Get(item, KSummary).Arr? then
      Put(item, KSummary, Arr(TagTexts(cfg, Get(item, KSummary).xs)))
    else item
  }

  predicate HasOutputText(part: Json) {
    part.Obj? && Get(part, KType) == Str("output_text") && NonEmptyStr(Get(part, KText))
  }

  /** Position of the first part carrying output text, or the number of parts. */
  function FirstText(parts: seq<Json>): (n: nat)
    ensures n <= |parts|
    ensures n < |parts| ==> HasOutputText(parts[n])
    ensures forall i | 0 <= i < n :: !HasOutputText(parts[i])
  {
    if parts == [] then 0
    else if HasOutputText(parts[0]) then 0
    else 1 + FirstText(parts[1..])
  }

  /** The header goes on this item, at part `FirstText(Elements(Get(item, KContent)))`. */
  predicate Signable(cfg: Config, item: Json) {
    var parts := Elements(Get(item, KContent));
    cfg.signature != "" && IsAssistantMessage(item) && FirstText(parts) < |parts|
  }

  function SignPart(cfg: Config, parts: seq<Json>, n: nat): seq<Json>
    requires n < |parts| && parts[n].Obj?
  {
    parts[n := Put(parts[n], KText, Sign(cfg, Get(parts[n], KText)))]
  }

  /** `_sign_message_item`: header on the first text part of an assistant message. */
  function SignItem(cfg: Config, item: Json): Json {
    if Signable(cfg, item) then
      var parts := Elements(Get(item, KContent));
      Put(item, KContent, Arr(SignPart(cfg, parts, FirstText(parts))))
    else item
  }

  function SetDefault(parts: map<MessageKey, Json>, key: MessageKey, index: Json): map<MessageKey, Json> {
    if key in parts then parts else parts[key := index]
  }

  /** What `_sign_message_item` records about the item. */
  function NoteItem(cfg: Config, parts: map<MessageKey, Json>, item: Json): map<MessageKey, Json> {
    if Signable(cfg, item) then
      SetDefault(parts, ById(Get(item, KId)), Num(FirstText(Elements(Get(item, KContent)))))
    else parts
  }

  function RewriteItem(cfg: Config, item: Json): Json {
    SignItem(cfg, TagItem(cfg, item))
  }

  function RewriteItems(cfg: Config, items: seq<Json>): seq<Json> {
    seq(|items|, i requires 0 <= i < |items| => RewriteItem(cfg, items[i]))
  }

  function NoteItems(cfg: Config, parts: map<MessageKey, Json>, items: seq<Json>): map<MessageKey, Json>
    decreases |items|
  {
    if items == [] then parts
    else NoteItems(cfg, NoteItem(cfg, parts, TagItem(cfg, items[0])), items[1..])
  }

  /** Rewrite the item list of a response object. */
  function RewriteOutput(cfg: Config, response: Json): Json {
    if response.Obj? && Get(response, KOutput).Arr? then
      Put(response, KOutput, Arr(RewriteItems(cfg, Get(response, KOutput).xs)))
    else response
  }

  // ---------------------------------------------------------------- single events

  function MessageKeyOf(data: Json): MessageKey {
    if Truthy(Get(data, KItemId)) then ById(Get(data, KItemId))
    else ByOutput(GetOr(data, KOutputIndex, Num(0)))
  }

  function SummaryKeyOf(data: Json): SummaryKey {
    SummaryKey(Get(data, KItemId), Get(data, KSummaryIndex))
  }

  function ContentIndex(data: Json): Json {
    GetOr(data, KContentIndex, Num(0))
  }

  function TagDelta(cfg: Config, data: Json): Json
    requires data.Obj?
  {
    Put(data, KDelta, Tag(cfg, Get(data, KDelta)))
  }

  function TagPart(cfg: Config, data: Json): Json
    requires data.Obj?
  {
    if Get(data, KPart).Obj? then Put(data, KPart, TagText(cfg, Get(data, KPart))) else data
  }

  function TagDone(cfg: Config, data: Json): Json
    requires data.Obj?
  {
    TagPart(cfg, TagText(cfg, data))
  }

  /** The text of a done event: of its part when it has one. */
  function DoneText(data: Json): Json {
    if Get(data, KPart).Obj? then Get(Get(data, KPart), KText) else Get(data, KText)
  }

  function PutDoneText(data: Json, text: Json): Json
    requires data.Obj?
  {
    if Get(data, KPart).Obj? then Put(data, KPart, Put(Get(data, KPart), KText, text))
    else Put(data, KText, text)
  }

  function NoteDone(parts: map<MessageKey, Json>, data: Json): map<MessageKey, Json> {
    if NonEmptyStr(DoneText(data)) then SetDefault(parts, MessageKeyOf(data), ContentIndex(data))
    else parts
  }

  /** `_sign_done_block` on the event: the header goes on the message's header part only. */
  function SignDone(cfg: Config, parts: map<MessageKey, Json>, data: Json): Json
    requires data.Obj?
  {
    if NonEmptyStr(DoneText(data)) && NoteDone(parts, data)[MessageKeyOf(data)] == ContentIndex(data) then
      PutDoneText(data, Sign(cfg, DoneText(data)))
    else data
  }

  /** `_tag_item_block` on the event. */
  function TagEventItems(cfg: Config, data: Json): Json
    requires data.Obj?
  {
    var d := if Get(data, KItem).Obj? then Put(data, KItem, RewriteItem(cfg, Get(data, KItem))) else data;
    if Get(data, KResponse).Obj? then Put(d, KResponse, RewriteOutput(cfg, Get(data, KResponse))) else d
  }

  function NoteEventItems(cfg: Config, parts: map<MessageKey, Json>, data: Json): map<MessageKey, Json> {
    NoteItems(cfg, NoteItem(cfg, parts, TagItem(cfg, Get(data, KItem))), Elements(Get(Get(data, KResponse), KOutput)))
  }

  /** The terminal event repeats the id the stream announced. */
  function SetResponseId(id: string, data: Json): Json
    requires data.Obj?
  {
    if id != "" && Get(data, KResponse).Obj? then
      Put(data, KResponse, Put(Get(data, KResponse), KId, Str(id)))
    else data
  }

  // ---------------------------------------------------------------- one block

  predicate Heads(cfg: Config, ctx: Context, data: Json) {
    cfg.signature != "" && NonEmptyStr(Get(data, KDelta)) && MessageKeyOf(data) !in ctx.headed
  }

  predicate PartHasText(part: Json) {
    Get(part, KType) == Str("output_text") && Truthy(Get(part, KText))
  }

  /** The new content of an event's data line, or None when the block is passed on as it came. */
  function Edit(cfg: Config, ctx: Context, data: Json): Option<Json>
    requires data.Obj?
  {
    var signing := cfg.signature != "";
    match KindOf(data)
    case ItemAdded =>
      if signing && IsMessage(Get(data, KItem)) then Some(Put(data, KItem, SignItem(cfg, Get(data, KItem))))
      else None
    case TextDelta =>
      if Heads(cfg, ctx, data) then Some(Put(data, KDelta, Sign(cfg, Get(data, KDelta)))) else None
    case TextDone => if signing then Some(SignDone(cfg, ctx.headerParts, data)) else None
    case PartDone => if signing then Some(SignDone(cfg, ctx.headerParts, data)) else None
    case PartAdded =>
      if signing && PartHasText(Get(data, KPart)) then Some(SignDone(cfg, ctx.headerParts, data)) else None
    case SummaryTextDone => Some(TagDone(cfg, data))
    case SummaryPartDone => Some(TagDone(cfg, data))
    case ItemDone =>
      if IsReasoning(Get(data, KItem)) || (signing && IsMessage(Get(data, KItem))) then
        Some(TagEventItems(cfg, data))
      else None
    case Terminal => Some(TagEventItems(cfg, SetResponseId(ctx.responseId, data)))
    case _ => None
  }

  function TypeName(data: Json): string {
    if Get(data, KType).Str? then Get(data, KType).s else ""
  }

  /** What the rewriter remembers after the event. */
  function NextContext(cfg: Config, ctx: Context, data: Json): Context
    requires data.Obj?
  {
    var signing := cfg.signature != "";
    var key := MessageKeyOf(data);
    match KindOf(data)
    case Created =>
      var id := Get(Get(data, KResponse), KId);
      if id.Str? then ctx.(responseId := id.s) else ctx
    case ItemAdded =>
      var item := Get(data, KItem);
      if signing && IsMessage(item) then
        var parts := NoteItem(cfg, ctx.headerParts, item);
        var id := ById(Get(item, KId));
        ctx.(headerParts := parts, headed := if id in parts then ctx.headed + {id} else ctx.headed)
      else ctx
    case TextDelta =>
      if Heads(cfg, ctx, data) then
        ctx.(headerParts := SetDefault(ctx.headerParts, key, ContentIndex(data)), headed := ctx.headed + {key})
      else ctx
    case TextDone => if signing then ctx.(headerParts := NoteDone(ctx.headerParts, data)) else ctx
    case PartDone => if signing then ctx.(headerParts := NoteDone(ctx.headerParts, data)) else ctx
    case PartAdded =>
      if signing && PartHasText(Get(data, KPart)) then
        ctx.(headerParts := NoteDone(ctx.headerParts, data), headed := ctx.headed + {key})
      else ctx
    case ItemDone =>
      if IsReasoning(Get(data, KItem)) || (signing && IsMessage(Get(data, KItem))) then
        ctx.(headerParts := NoteEventItems(cfg, ctx.headerParts, data))
      else ctx
    case Terminal =>
      ctx.(terminalType := TypeName(data),
           usage := UsageCounts.Counts(Get(Get(data, KResponse), KUsage)),
           headerParts := NoteEventItems(cfg, ctx.headerParts, data))
    case _ => ctx
  }

  /** The event closes the summary part with this key. */
  predicate Closes(key: SummaryKey, data: Option<Json>) {
    data.Some? &&
    match KindOf(data.value)
    case SummaryTextDone => key == SummaryKeyOf(data.value)
    case SummaryPartDone => key == SummaryKeyOf(data.value)
    case ItemDone => IsReasoning(Get(data.value, KItem)) && key.itemId == Get(Get(data.value, KItem), KId)
    case _ => false
  }

  /** A block whose data line is replaced, if there is something to replace it with. */
  function Apply(codec: Codec, block: Block, edit: Option<Json>): Block {
    if edit.Some? then Rebuild(codec, block, edit.value) else block
  }

  /** A held block leaves when the next block arrives: tagged when that one closes its part. */
  function Release(cfg: Config, codec: Codec, held: Option<Held>, data: Option<Json>): seq<Block> {
    if held.None? then []
    else if Closes(held.value.key, data) && Data(codec, held.value.block).Some? then
      [Rebuild(codec, held.value.block, TagDelta(cfg, Data(codec, held.value.block).value))]
    else [held.value.block]
  }

  predicate IsHeldKind(data: Option<Json>) {
    data.Some? && KindOf(data.value) == SummaryDelta
  }

  function StepHeld(data: Option<Json>, block: Block): Option<Held> {
    if IsHeldKind(data) then Some(Held(SummaryKeyOf(data.value), block)) else None
  }

  function StepContext(cfg: Config, ctx: Context, data: Option<Json>): Context
    requires data.Some? ==> data.value.Obj?
  {
    if data.Some? then NextContext(cfg, ctx, data.value) else ctx
  }

  function StepEdit(cfg: Config, ctx: Context, data: Option<Json>): Option<Json>
    requires data.Some? ==> data.value.Obj?
  {
    if data.Some? then Edit(cfg, ctx, data.value) else None
  }

  /** `_process_block`: new state and emitted blocks. */
  function Step(cfg: Config, codec: Codec, st: Core, block: Block): (Core, seq<Block>) {
    var data := Data(codec, block);
    var own := if IsHeldKind(data) then [] else [Apply(codec, block, StepEdit(cfg, st.ctx, data))];
    (Core(StepHeld(data, block), StepContext(cfg, st.ctx, data)), Release(cfg, codec, st.held, data) + own)
  }

  // ---------------------------------------------------------------- one character, a whole text

  function StripCr(line: string): string {
    if line != "" && line[|line| - 1] == '\r' then line[..|line| - 1] else line
  }

  function EndLine(cfg: Config, codec: Codec, st: State, line: string): (State, string) {
    if line != "" then (st.(block := st.block + [line]), "")
    else if st.block == [] then (st, "\n")
    else
      var (next, out) := Step(cfg, codec, st.core, st.block);
      (st.(block := [], core := next), EmitAll(out) + "\n")
  }

  function FeedChar(cfg: Config, codec: Codec, st: State, c: char): (State, string) {
    if c != '\n' then (st.(buf := st.buf + [c]), "")
    else EndLine(cfg, codec, st.(buf := ""), StripCr(st.buf))
  }

  /** The character step, as a value for the generic runs of `Transducer`. */
  function ByChar(cfg: Config, codec: Codec): (State, char) -> (State, string) {
    (st: State, c: char) => FeedChar(cfg, codec, st, c)
  }

  /** The reference semantics of `feed`: the text is consumed character by character. */
  function Feed(cfg: Config, codec: Codec, st: State, text: string): (State, string) {
    Run(ByChar(cfg, codec), st, text)
  }

  /** `flush`: what is still pending leaves unprocessed. */
  function Flush(st: State): (State, string) {
    (State("", [], st.core.(held := None)),
     (if st.core.held.Some? then Emit(st.core.held.value.block) else "") +
     (if st.block != [] then Emit(st.block) else "") + st.buf)
  }

  // ---------------------------------------------------------------- chunking

  /** The relay loop: one `feed` per received chunk. */
  function FeedChunks(cfg: Config, codec: Codec, st: State, chunks: seq<string>): (State, string) {
    RunChunks(ByChar(cfg, codec), st, chunks)
  }

  /** However the network cuts the stream, the output and the final state are those of one feed. */
  lemma ChunkingInvariance(cfg: Config, codec: Codec, st: State, chunks: seq<string>)
    ensures FeedChunks(cfg, codec, st, chunks) == Feed(cfg, codec, st, Concat(chunks))
  {
    RunChunksConcat(ByChar(cfg, codec), st, chunks);
  }

  /** Text without a line feed only waits in the buffer. */
  lemma {:induction false} FeedNoBreak(cfg: Config, codec: Codec, st: State, text: string)
    requires '\n' !in text
    ensures Feed(cfg, codec, st, text) == (st.(buf := st.buf + text), "")
    decreases |text|
  {
    if text == "" {
      assert st.buf + text == st.buf;
    } else {
      var next := st.(buf := st.buf + [text[0]]);
      FeedNoBreak(cfg, codec, next, text[1..]);
      RunCons(ByChar(cfg, codec), st, text[0], text[1..]);
      assert [text[0]] + text[1..] == text;
      assert next.buf + text[1..] == st.buf + text;
      assert ByChar(cfg, codec)(st, text[0]) == (next, "");
      assert "" + "" == "";
    }
  }

  /** One complete line: what one turn of the loop in `feed` does. */
  lemma FeedLine(cfg: Config, codec: Codec, st: State, line: string, rest: string)
    requires '\n' !in line && st.buf == ""
    ensures
      var (mid, out) := EndLine(cfg, codec, st, StripCr(line));
      var (end, more) := Feed(cfg, codec, mid, rest);
      Feed(cfg, codec, st, line + "\n" + rest) == (end, out + more)
  {
    hide EndLine, StripCr, Run;
    var step := ByChar(cfg, codec);
    var waiting := st.(buf := line);
    var (mid, out) := EndLine(cfg, codec, st, StripCr(line));
    var (end, more) := Feed(cfg, codec, mid, rest);
    FeedNoBreak(cfg, codec, st, line);
    assert st.buf + line == line && waiting.(buf := "") == st;
    assert step(waiting, '\n') == (mid, out);
    RunCons(step, waiting, '\n', rest);
    assert ['\n'] + rest == "\n" + rest;
    assert Run(step, waiting, "\n" + rest) == (end, out + more);
    RunConcat(step, st, line, "\n" + rest);
    assert line + ("\n" + rest) == line + "\n" + rest;
    assert "" + (out + more) == out + more;
  }
}
