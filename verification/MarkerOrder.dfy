/** Whole runs of the rewriter over event blocks: order, no loss, and what may change. */
module MarkerOrder {
  import opened Json
  import opened MarkerSpec
  import UsageCounts

  /** The blocks written while reading `blocks`, one `Step` after the other. */
  function RunBlocks(cfg: Config, codec: Codec, st: Core, blocks: seq<Block>): (Core, seq<Block>)
    decreases |blocks|
  {
    if blocks == [] then (st, [])
    else
      var (mid, out) := Step(cfg, codec, st, blocks[0]);
      var (end, more) := RunBlocks(cfg, codec, mid, blocks[1..]);
      (end, out + more)
  }

  function HeldBlocks(st: Core): seq<Block> {
    if st.held.Some? then [st.held.value.block] else []
  }

  // ---------------------------------------------------------------- reference: one look ahead

  function NextData(codec: Codec, blocks: seq<Block>): Option<Json> {
    if blocks == [] then None else Data(codec, blocks[0])
  }

  /** What one block becomes, seen with the block behind it: no held state at all. */
  function RewriteOne(cfg: Config, codec: Codec, ctx: Context, block: Block, next: Option<Json>): Block {
    var data := Data(codec, block);
    if IsHeldKind(data) then
      if Closes(SummaryKeyOf(data.value), next) then Rebuild(codec, block, TagDelta(cfg, data.value)) else block
    else Apply(codec, block, StepEdit(cfg, ctx, data))
  }

  function ContextAfter(cfg: Config, codec: Codec, ctx: Context, blocks: seq<Block>): Context
    decreases |blocks|
  {
    if blocks == [] then ctx
    else ContextAfter(cfg, codec, StepContext(cfg, ctx, Data(codec, blocks[0])), blocks[1..])
  }

  function Rewritten(cfg: Config, codec: Codec, ctx: Context, blocks: seq<Block>): (out: seq<Block>)
    ensures |out| == |blocks|
    decreases |blocks|
  {
    if blocks == [] then []
    else
      [RewriteOne(cfg, codec, ctx, blocks[0], NextData(codec, blocks[1..]))] +
      Rewritten(cfg, codec, StepContext(cfg, ctx, Data(codec, blocks[0])), blocks[1..])
  }

  ghost predicate HeldOk(codec: Codec, st: Core) {
    st.held.Some? ==>
      var data := Data(codec, st.held.value.block);
      IsHeldKind(data) && st.held.value.key == SummaryKeyOf(data.value)
  }

  /** One step, together with the release of what it holds, writes the reference block. */
  lemma StepWrites(cfg: Config, codec: Codec, st: Core, block: Block, next: Option<Json>)
    ensures
      var (mid, out) := Step(cfg, codec, st, block);
      && HeldOk(codec, mid)
      && mid.ctx == StepContext(cfg, st.ctx, Data(codec, block))
      && out + Release(cfg, codec, mid.held, next) ==
         Release(cfg, codec, st.held, Data(codec, block)) + [RewriteOne(cfg, codec, st.ctx, block, next)]
  {
    hide KindOfType, Rebuild, Edit, NextContext, Closes, TagDelta;
    var released := Release(cfg, codec, st.held, Data(codec, block));
    assert released + [] == released;
  }

  lemma ReleaseAtEnd(cfg: Config, codec: Codec, st: Core)
    ensures Release(cfg, codec, st.held, NextData(codec, [])) == HeldBlocks(st)
  {
  }

  /** Order and no loss: what was written, followed by the block still held, is exactly the
      input, block by block in order, each rewritten by the one-look-ahead reference. */
  lemma {:induction false} WrittenThenHeld(cfg: Config, codec: Codec, st: Core, blocks: seq<Block>)
    requires HeldOk(codec, st)
    ensures
      var (end, out) := RunBlocks(cfg, codec, st, blocks);
      && HeldOk(codec, end)
      && end.ctx == ContextAfter(cfg, codec, st.ctx, blocks)
      && out + HeldBlocks(end) ==
         Release(cfg, codec, st.held, NextData(codec, blocks)) + Rewritten(cfg, codec, st.ctx, blocks)
    decreases |blocks|
  {
    hide Step, RewriteOne, StepContext, HeldOk, Release;
    if blocks == [] {
      ReleaseAtEnd(cfg, codec, st);
      assert [] + HeldBlocks(st) == HeldBlocks(st) == HeldBlocks(st) + [];
    } else {
      var (mid, out) := Step(cfg, codec, st, blocks[0]);
      var next := NextData(codec, blocks[1..]);
      StepWrites(cfg, codec, st, blocks[0], next);
      WrittenThenHeld(cfg, codec, mid, blocks[1..]);
      var (end, more) := RunBlocks(cfg, codec, mid, blocks[1..]);
      var released := Release(cfg, codec, st.held, NextData(codec, blocks));
      var first := RewriteOne(cfg, codec, st.ctx, blocks[0], next);
      var rest := Rewritten(cfg, codec, mid.ctx, blocks[1..]);
      calc {
        (out + more) + HeldBlocks(end);
        out + (more + HeldBlocks(end));
        out + (Release(cfg, codec, mid.held, next) + rest);
        (out + Release(cfg, codec, mid.held, next)) + rest;
        (released + [first]) + rest;
        released + ([first] + rest);
      }
    }
  }

  /** Block `i` of the output depends only on block `i`, the block after it, and the context before it. */
  lemma {:induction false} RewrittenAt(cfg: Config, codec: Codec, ctx: Context, blocks: seq<Block>, i: nat)
    requires i < |blocks|
    ensures Rewritten(cfg, codec, ctx, blocks)[i] ==
            RewriteOne(cfg, codec, ContextAfter(cfg, codec, ctx, blocks[..i]), blocks[i],
                       NextData(codec, blocks[i + 1..]))
    decreases |blocks|
  {
    if i == 0 {
      assert blocks[..0] == [];
    } else {
      RewrittenAt(cfg, codec, StepContext(cfg, ctx, Data(codec, blocks[0])), blocks[1..], i - 1);
      assert blocks[..i][0] == blocks[0] && blocks[..i][1..] == blocks[1..][..i - 1];
      assert blocks[1..][i..] == blocks[i + 1..];
    }
  }

  lemma {:induction false} ContextAfterConcat(cfg: Config, codec: Codec, ctx: Context, a: seq<Block>, b: seq<Block>)
    ensures ContextAfter(cfg, codec, ctx, a + b) == ContextAfter(cfg, codec, ContextAfter(cfg, codec, ctx, a), b)
    decreases |a|
  {
    if a == [] {
      assert a + b == b;
    } else {
      ContextAfterConcat(cfg, codec, StepContext(cfg, ctx, Data(codec, a[0])), a[1..], b);
      assert (a + b)[1..] == a[1..] + b;
    }
  }

  // ---------------------------------------------------------------- what may change in a block

  predicate TextKey(k: Key) {
    k == KText || k == KDelta
  }

  /** The texts that may gain the header: that of an output text part and the streamed delta of one;
      in an event for a finished part any text. */
  predicate Headable(finished: bool, m: map<Key, Json>, k: Key) {
    var kind := Get(Obj(m), KType);
    if k == KText then finished || kind == Str("output_text")
    else k == KDelta && kind == Str("response.output_text.delta")
  }

  /** `b` is the text `a`, possibly with the tag behind it or, where that may be, the header before it. */
  predicate DecoratedText(cfg: Config, headable: bool, a: Json, b: Json) {
    || b == a
    || (NonEmptyStr(a) && b == Str(a.s + cfg.marker))
    || (headable && NonEmptyStr(a) && b == Str(cfg.signature + a.s))
  }

  /** The event ends a content part or its text. */
  predicate IsFinished(data: Json) {
    KindOf(data) == TextDone || KindOf(data) == PartDone
  }

  /** `b` is `a` except that its texts may be decorated, and a missing delta may read null. */
  ghost predicate Decorated(cfg: Config, finished: bool, a: Json, b: Json)
    decreases a
  {
    match a
    case Arr(xs) =>
      b.Arr? && |b.xs| == |xs| && forall i | 0 <= i < |xs| :: Decorated(cfg, finished, xs[i], b.xs[i])
    case Obj(m) =>
      && b.Obj? && m.Keys <= b.m.Keys <= m.Keys + {KDelta}
      && (KDelta in b.m && KDelta !in m ==> b.m[KDelta] == Null)
      && forall k | k in m ::
           if TextKey(k) && m[k].Str? then DecoratedText(cfg, Headable(finished, m, k), m[k], b.m[k])
           else Decorated(cfg, finished, m[k], b.m[k])
    case _ => b == a
  }

  lemma {:induction false} DecoratedRefl(cfg: Config, finished: bool, a: Json)
    ensures Decorated(cfg, finished, a, a)
    decreases a
  {
    match a
    case Arr(xs) => forall i | 0 <= i < |xs| { DecoratedRefl(cfg, finished, xs[i]); }
    case Obj(m) => forall k | k in m { DecoratedRefl(cfg, finished, m[k]); }
    case _ =>
  }

  /** Replacing one field by a decorated one decorates the object. */
  lemma DecoratedPut(cfg: Config, finished: bool, a: Json, k: Key, v: Json)
    requires a.Obj? && k in a.m
    requires if TextKey(k) && a.m[k].Str? then DecoratedText(cfg, Headable(finished, a.m, k), a.m[k], v)
             else Decorated(cfg, finished, a.m[k], v)
    ensures Decorated(cfg, finished, a, Put(a, k, v))
  {
    forall j | j in a.m { DecoratedRefl(cfg, finished, a.m[j]); }
  }

  /** Decorating two different fields, one after the other. */
  lemma DecoratedPutTwice(cfg: Config, finished: bool, a: Json, k: Key, v: Json, b: Json)
    requires a.Obj? && b.Obj? && Decorated(cfg, finished, a, b) && k in a.m && k in b.m && b.m[k] == a.m[k]
    requires if TextKey(k) && a.m[k].Str? then DecoratedText(cfg, Headable(finished, a.m, k), a.m[k], v)
             else Decorated(cfg, finished, a.m[k], v)
    ensures Decorated(cfg, finished, a, Put(b, k, v))
  {
  }

  lemma TagTextDecorates(cfg: Config, finished: bool, part: Json)
    ensures Decorated(cfg, finished, part, TagText(cfg, part))
  {
    DecoratedRefl(cfg, finished, part);
    if part.Obj? && KText in part.m {
      DecoratedRefl(cfg, finished, part.m[KText]);
      DecoratedPut(cfg, finished, part, KText, Tag(cfg, part.m[KText]));
    }
  }

  lemma TagItemDecorates(cfg: Config, finished: bool, item: Json)
    ensures Decorated(cfg, finished, item, TagItem(cfg, item))
  {
    DecoratedRefl(cfg, finished, item);
    if IsReasoning(item) && Get(item, KSummary).Arr? {
      var parts := Get(item, KSummary).xs;
      forall i | 0 <= i < |parts| { TagTextDecorates(cfg, finished, parts[i]); }
      DecoratedPut(cfg, finished, item, KSummary, Arr(TagTexts(cfg, parts)));
    }
  }

  lemma SignItemDecorates(cfg: Config, finished: bool, item: Json)
    ensures Decorated(cfg, finished, item, SignItem(cfg, item))
  {
    DecoratedRefl(cfg, finished, item);
    if Signable(cfg, item) {
      var parts := Elements(Get(item, KContent));
      var n := FirstText(parts);
      forall i | 0 <= i < |parts| { DecoratedRefl(cfg, finished, parts[i]); }
      DecoratedPut(cfg, finished, parts[n], KText, Sign(cfg, Get(parts[n], KText)));
      DecoratedPut(cfg, finished, item, KContent, Arr(SignPart(cfg, parts, n)));
    }
  }

  /** An item is a reasoning item or a message, never both. */
  lemma OneDecoration(cfg: Config, item: Json)
    ensures RewriteItem(cfg, item) == TagItem(cfg, item) || TagItem(cfg, item) == item
  {
  }

  lemma RewriteItemDecorates(cfg: Config, finished: bool, item: Json)
    ensures Decorated(cfg, finished, item, RewriteItem(cfg, item))
  {
    hide Decorated;
    TagItemDecorates(cfg, finished, item);
    SignItemDecorates(cfg, finished, item);
    OneDecoration(cfg, item);
  }

  lemma RewriteOutputDecorates(cfg: Config, finished: bool, response: Json)
    ensures Decorated(cfg, finished, response, RewriteOutput(cfg, response))
  {
    DecoratedRefl(cfg, finished, response);
    if response.Obj? && Get(response, KOutput).Arr? {
      var items := Get(response, KOutput).xs;
      forall i | 0 <= i < |items| { RewriteItemDecorates(cfg, finished, items[i]); }
      DecoratedPut(cfg, finished, response, KOutput, Arr(RewriteItems(cfg, items)));
    }
  }

  lemma TagEventItemsDecorates(cfg: Config, finished: bool, data: Json)
    requires data.Obj?
    ensures Decorated(cfg, finished, data, TagEventItems(cfg, data))
  {
    hide RewriteItem, RewriteOutput;
    DecoratedRefl(cfg, finished, data);
    var d := data;
    if Get(data, KItem).Obj? {
      RewriteItemDecorates(cfg, finished, Get(data, KItem));
      DecoratedPut(cfg, finished, data, KItem, RewriteItem(cfg, Get(data, KItem)));
      d := Put(data, KItem, RewriteItem(cfg, Get(data, KItem)));
    }
    if Get(data, KResponse).Obj? {
      RewriteOutputDecorates(cfg, finished, Get(data, KResponse));
      DecoratedPutTwice(cfg, finished, data, KResponse, RewriteOutput(cfg, Get(data, KResponse)), d);
    }
  }

  lemma TagDoneDecorates(cfg: Config, finished: bool, data: Json)
    requires data.Obj?
    ensures Decorated(cfg, finished, data, TagDone(cfg, data))
  {
    TagTextDecorates(cfg, finished, data);
    var d := TagText(cfg, data);
    if Get(data, KPart).Obj? {
      TagTextDecorates(cfg, finished, Get(data, KPart));
      DecoratedPutTwice(cfg, finished, data, KPart, TagText(cfg, Get(data, KPart)), d);
    }
  }

  lemma SignDoneDecorates(cfg: Config, finished: bool, parts: map<MessageKey, Json>, data: Json)
    requires data.Obj? && (finished || PartHasText(Get(data, KPart)))
    ensures Decorated(cfg, finished, data, SignDone(cfg, parts, data))
  {
    DecoratedRefl(cfg, finished, data);
    var text := DoneText(data);
    if NonEmptyStr(text) {
      if Get(data, KPart).Obj? {
        DecoratedPut(cfg, finished, Get(data, KPart), KText, Sign(cfg, text));
        DecoratedPut(cfg, finished, data, KPart, Put(Get(data, KPart), KText, Sign(cfg, text)));
      } else {
        DecoratedPut(cfg, finished, data, KText, Sign(cfg, text));
      }
    }
  }

  lemma TagDeltaDecorates(cfg: Config, finished: bool, data: Json)
    requires data.Obj?
    ensures Decorated(cfg, finished, data, TagDelta(cfg, data))
  {
    DecoratedRefl(cfg, finished, data);
    forall k | k in data.m { DecoratedRefl(cfg, finished, data.m[k]); }
  }

  /** The event before decoration: as it came, with the announced id when it is terminal. */
  function Repaired(ctx: Context, data: Json): Json
    requires data.Obj?
  {
    if KindOf(data) == Terminal then SetResponseId(ctx.responseId, data) else data
  }

  lemma DeltaType(data: Json)
    requires data.Obj? && KindOf(data) == TextDelta
    ensures Get(Obj(data.m), KType) == Str("response.output_text.delta")
  {
  }

  lemma EditDecorates(cfg: Config, ctx: Context, data: Json)
    requires data.Obj?
    ensures Edit(cfg, ctx, data).Some? ==>
              var d := Edit(cfg, ctx, data).value;
              d.Obj? && Decorated(cfg, IsFinished(data), Repaired(ctx, data), d)
  {
    hide KindOfType, Decorated, SignDone, TagDone, TagEventItems, SignItem;
    var finished := IsFinished(data);
    if finished || PartHasText(Get(data, KPart)) { SignDoneDecorates(cfg, finished, ctx.headerParts, data); }
    TagDoneDecorates(cfg, finished, data);
    TagEventItemsDecorates(cfg, finished, data);
    TagEventItemsDecorates(cfg, finished, SetResponseId(ctx.responseId, data));
    if KindOf(data) == ItemAdded && Get(data, KItem).Obj? {
      SignItemDecorates(cfg, finished, Get(data, KItem));
      DecoratedPut(cfg, finished, data, KItem, SignItem(cfg, Get(data, KItem)));
    }
    if KindOf(data) == TextDelta && NonEmptyStr(Get(data, KDelta)) {
      DeltaType(data);
      DecoratedPut(cfg, finished, data, KDelta, Sign(cfg, Get(data, KDelta)));
    }
    EditIsObject(cfg, ctx, data);
  }

  lemma EditIsObject(cfg: Config, ctx: Context, data: Json)
    requires data.Obj?
    ensures Edit(cfg, ctx, data).Some? ==> Edit(cfg, ctx, data).value.Obj?
  {
    hide KindOfType;
  }

  // ---------------------------------------------------------------- rewritten blocks

  lemma {:induction false} DataOfRebuild(codec: Codec, block: Block, d: Json)
    requires codec.Lawful() && d.Obj? && Data(codec, block).Some?
    ensures Data(codec, Rebuild(codec, block, d)) == Some(d)
    decreases |block|
  {
    var built := Rebuild(codec, block, d);
    if IsDataLine(block[0]) {
      assert built[0][|DATA_PREFIX|..] == codec.print_(d);
    } else {
      DataOfRebuild(codec, block[1..], d);
      assert built[1..] == Rebuild(codec, block[1..], d);
    }
  }

  /** The event of a block is the object on its first data line; there is none when that line holds
      something else, whatever lines follow. */
  lemma {:induction false} FirstDataLine(codec: Codec, block: Block, i: nat)
    requires i < |block| && "data: " <= block[i] && forall j | 0 <= j < i :: !("data: " <= block[j])
    ensures
      var parsed := codec.parse(block[i][6..]);
      Data(codec, block) == if parsed.Some? && parsed.value.Obj? then parsed else None
    decreases i
  {
    if 0 < i {
      assert !IsDataLine(block[0]);
      FirstDataLine(codec, block[1..], i - 1);
    }
  }

  lemma {:induction false} NoDataLine(codec: Codec, block: Block)
    requires forall j | 0 <= j < |block| :: !("data: " <= block[j])
    ensures Data(codec, block) == None
    decreases |block|
  {
    if block != [] {
      assert !IsDataLine(block[0]);
      NoDataLine(codec, block[1..]);
    }
  }

  /** Every data line of a rebuilt block carries the new event. */
  lemma RebuiltLines(codec: Codec, block: Block, d: Json)
    requires codec.Lawful() && d.Obj?
    ensures
      var built := Rebuild(codec, block, d);
      forall i | 0 <= i < |block| && IsDataLine(block[i]) :: codec.parse(built[i][|DATA_PREFIX|..]) == Some(d)
  {
    var built := Rebuild(codec, block, d);
    forall i | 0 <= i < |block| && IsDataLine(block[i])
      ensures codec.parse(built[i][|DATA_PREFIX|..]) == Some(d)
    {
      assert built[i] == DATA_PREFIX + codec.print_(d);
      assert built[i][|DATA_PREFIX|..] == codec.print_(d);
    }
  }

  /** A block with one event and nothing else. */
  function BlockOf(codec: Codec, data: Json): Block {
    [DATA_PREFIX + codec.print_(data)]
  }

  lemma DataOfBlock(codec: Codec, data: Json)
    requires codec.Lawful() && data.Obj?
    ensures Data(codec, BlockOf(codec, data)) == Some(data)
  {
    assert BlockOf(codec, data)[0][|DATA_PREFIX|..] == codec.print_(data);
  }

  /** What each block becomes: the same lines but for the data, and the same event but for
      decorated texts and, on a terminal event, the announced response id. */
  ghost predicate KeepsShape(cfg: Config, codec: Codec, ctx: Context, block: Block, out: Block) {
    && |out| == |block|
    && (forall i | 0 <= i < |block| ::
          if IsDataLine(block[i]) then IsDataLine(out[i]) else out[i] == block[i])
    && (out == block ||
        forall i | 0 <= i < |block| && IsDataLine(block[i]) ::
          codec.parse(out[i][|DATA_PREFIX|..]) == Data(codec, out))
    && (Data(codec, block).None? ==> out == block)
    && (Data(codec, block).Some? ==>
          && Data(codec, out).Some?
          && Decorated(cfg, IsFinished(Data(codec, block).value), Repaired(ctx, Data(codec, block).value),
                       Data(codec, out).value)
          && KindOf(Data(codec, out).value) == KindOf(Data(codec, block).value))
  }

  lemma OnlyStringsHaveKinds(t: Json)
    ensures KindOfType(t) != OtherKind ==> t.Str?
  {
  }

  lemma SameKind(cfg: Config, ctx: Context, data: Json, d: Json)
    requires data.Obj? && d.Obj? && Decorated(cfg, IsFinished(data), Repaired(ctx, data), d)
    ensures KindOf(d) == KindOf(data)
  {
    hide KindOfType;
    OnlyStringsHaveKinds(Get(data, KType));
    OnlyStringsHaveKinds(Get(d, KType));
    var r := Repaired(ctx, data);
    assert Get(r, KType) == Get(data, KType);
    if KType in r.m {
      assert Decorated(cfg, IsFinished(data), r.m[KType], d.m[KType]);
    }
  }

  lemma RewriteOneKeepsShape(cfg: Config, codec: Codec, ctx: Context, block: Block, next: Option<Json>)
    requires codec.Lawful()
    ensures KeepsShape(cfg, codec, ctx, block, RewriteOne(cfg, codec, ctx, block, next))
  {
    hide KindOfType, Edit, Decorated, Closes, Data;
    var data := Data(codec, block);
    if data.Some? {
      var d := RewriteOneData(cfg, codec, ctx, data.value, next);
      if IsHeldKind(data) {
        TagDeltaDecorates(cfg, IsFinished(data.value), data.value);
        DecoratedRefl(cfg, IsFinished(data.value), data.value);
      } else {
        EditDecorates(cfg, ctx, data.value);
        DecoratedRefl(cfg, IsFinished(data.value), data.value);
        EditNoneKeeps(cfg, ctx, data.value);
      }
      SameKind(cfg, ctx, data.value, d);
      if RewriteOne(cfg, codec, ctx, block, next) != block {
        DataOfRebuild(codec, block, d);
        RebuiltLines(codec, block, d);
      }
      RewriteOneIs(cfg, codec, ctx, block, next);
    }
  }

  /** The event a block carries after the rewrite. */
  function RewriteOneData(cfg: Config, codec: Codec, ctx: Context, data: Json, next: Option<Json>): Json
    requires data.Obj?
  {
    if KindOf(data) == SummaryDelta then
      if Closes(SummaryKeyOf(data), next) then TagDelta(cfg, data) else data
    else
      var edit := Edit(cfg, ctx, data);
      if edit.Some? then edit.value else data
  }

  lemma EditNoneKeeps(cfg: Config, ctx: Context, data: Json)
    requires data.Obj?
    ensures Edit(cfg, ctx, data).None? ==> Repaired(ctx, data) == data
    ensures KindOf(data) == SummaryDelta ==> Repaired(ctx, data) == data
  {
    hide KindOfType;
  }

  lemma RewriteOneIs(cfg: Config, codec: Codec, ctx: Context, block: Block, next: Option<Json>)
    requires codec.Lawful() && Data(codec, block).Some?
    ensures
      var d := RewriteOneData(cfg, codec, ctx, Data(codec, block).value, next);
      && d.Obj?
      && Data(codec, RewriteOne(cfg, codec, ctx, block, next)) == Some(d)
  {
    hide KindOfType, Edit, Data, Closes, Rebuild;
    var data := Data(codec, block).value;
    EditIsObject(cfg, ctx, data);
    var d := RewriteOneData(cfg, codec, ctx, data, next);
    DataOfRebuild(codec, block, d);
  }

  /** Rewriting never changes what kind of event it is. */
  lemma SameType(cfg: Config, codec: Codec, ctx: Context, data: Json, next: Option<Json>)
    requires data.Obj?
    ensures
      var d := RewriteOneData(cfg, codec, ctx, data, next);
      d.Obj? && KindOf(d) == KindOf(data)
  {
    hide KindOfType, Edit, Decorated, Closes;
    var d := RewriteOneData(cfg, codec, ctx, data, next);
    EditIsObject(cfg, ctx, data);
    EditDecorates(cfg, ctx, data);
    DecoratedRefl(cfg, IsFinished(data), data);
    TagDeltaDecorates(cfg, IsFinished(data), data);
    EditNoneKeeps(cfg, ctx, data);
    SameKind(cfg, ctx, data, d);
  }

  // ---------------------------------------------------------------- the announced id

  /** The id of the last `response.created` among the blocks; empty if there is none. */
  function CreatedId(codec: Codec, blocks: seq<Block>): string {
    if blocks == [] then ""
    else
      var last := Data(codec, blocks[|blocks| - 1]);
      if last.Some? && KindOf(last.value) == Created && Get(Get(last.value, KResponse), KId).Str? then
        Get(Get(last.value, KResponse), KId).s
      else CreatedId(codec, blocks[..|blocks| - 1])
  }

  lemma {:induction false} ContextKnowsCreatedId(cfg: Config, codec: Codec, blocks: seq<Block>)
    ensures ContextAfter(cfg, codec, InitContext, blocks).responseId == CreatedId(codec, blocks)
    decreases |blocks|
  {
    hide KindOfType;
    if blocks != [] {
      var front, last := blocks[..|blocks| - 1], blocks[|blocks| - 1];
      assert blocks == front + [last];
      ContextKnowsCreatedId(cfg, codec, front);
      ContextAfterConcat(cfg, codec, InitContext, front, [last]);
    }
  }

  /** Every terminal event leaves with the id the stream announced last. */
  lemma TerminalRepeatsCreatedId(cfg: Config, codec: Codec, blocks: seq<Block>, i: nat)
    requires codec.Lawful() && i < |blocks|
    requires Data(codec, blocks[i]).Some? && KindOf(Data(codec, blocks[i]).value) == Terminal
    requires Get(Data(codec, blocks[i]).value, KResponse).Obj?
    requires CreatedId(codec, blocks[..i]) != ""
    ensures
      var out := Data(codec, Rewritten(cfg, codec, InitContext, blocks)[i]);
      out.Some? && Get(Get(out.value, KResponse), KId) == Str(CreatedId(codec, blocks[..i]))
  {
    hide KindOfType, Data, RewriteOne;
    var ctx := ContextAfter(cfg, codec, InitContext, blocks[..i]);
    RewrittenAt(cfg, codec, InitContext, blocks, i);
    RewriteOneKeepsShape(cfg, codec, ctx, blocks[i], NextData(codec, blocks[i + 1..]));
    ContextKnowsCreatedId(cfg, codec, blocks[..i]);
    var data := Data(codec, blocks[i]).value;
    var out := Data(codec, Rewritten(cfg, codec, InitContext, blocks)[i]).value;
    var moved := SetResponseId(ctx.responseId, data);
    assert Decorated(cfg, false, moved.m[KResponse], out.m[KResponse]);
    assert Decorated(cfg, false, moved.m[KResponse].m[KId], out.m[KResponse].m[KId]);
  }

  predicate IsTerminalBlock(codec: Codec, block: Block) {
    Data(codec, block).Some? && KindOf(Data(codec, block).value) == Terminal
  }

  /** The type and the usage that the rewriter reports are those of the last terminal block. */
  lemma {:induction false} LastTerminalRecorded(cfg: Config, codec: Codec, ctx: Context, blocks: seq<Block>, i: nat)
    requires i < |blocks| && IsTerminalBlock(codec, blocks[i])
    requires forall j | i < j < |blocks| :: !IsTerminalBlock(codec, blocks[j])
    ensures
      var end, data := ContextAfter(cfg, codec, ctx, blocks), Data(codec, blocks[i]).value;
      Str(end.terminalType) == Get(data, KType) && end.usage == UsageCounts.Counts(Get(Get(data, KResponse), KUsage))
    decreases |blocks|
  {
    hide KindOfType, Data;
    var next := StepContext(cfg, ctx, Data(codec, blocks[0]));
    if i == 0 {
      TerminalTypeNotEmpty(Get(Data(codec, blocks[0]).value, KType));
      NothingRecorded(cfg, codec, next, blocks[1..]);
    } else {
      LastTerminalRecorded(cfg, codec, next, blocks[1..], i - 1);
    }
  }

  lemma {:induction false} NothingRecorded(cfg: Config, codec: Codec, ctx: Context, blocks: seq<Block>)
    requires forall j | 0 <= j < |blocks| :: !IsTerminalBlock(codec, blocks[j])
    ensures ContextAfter(cfg, codec, ctx, blocks).terminalType == ctx.terminalType
    ensures ContextAfter(cfg, codec, ctx, blocks).usage == ctx.usage
    decreases |blocks|
  {
    hide KindOfType, Data;
    if blocks != [] {
      assert !IsTerminalBlock(codec, blocks[0]);
      NothingRecorded(cfg, codec, StepContext(cfg, ctx, Data(codec, blocks[0])), blocks[1..]);
    }
  }
}
