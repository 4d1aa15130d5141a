/** What the rewriter remembers of each message's header, and that it is a function of the stream's events. */
module HeaderMemory {
  import opened Json
  import opened MarkerSpec
  import opened MarkerOrder

  // ---------------------------------------------------------------- which event gives a message its header

  /** The rewriter knows the message of an item by the item's id; no item belongs to a message
      that is keyed by its output position. */
  predicate IsItemOf(item: Json, key: MessageKey) {
    item.Obj? && ById(Get(item, KId)) == key
  }

  function HeaderIndex(item: Json): Json {
    Num(FirstText(Elements(Get(item, KContent))))
  }

  function ItemGives(cfg: Config, item: Json, key: MessageKey): Option<Json> {
    if IsItemOf(item, key) && Signable(cfg, item) then Some(HeaderIndex(item)) else None
  }

  /** The first item of the message that carries text decides. */
  function ItemsGive(cfg: Config, items: seq<Json>, key: MessageKey): Option<Json> {
    if items == [] then None
    else if ItemGives(cfg, items[0], key).Some? then ItemGives(cfg, items[0], key)
    else ItemsGive(cfg, items[1..], key)
  }

  function EventItems(data: Json): seq<Json> {
    [Get(data, KItem)] + Elements(Get(Get(data, KResponse), KOutput))
  }

  function IndexIf(given: bool, data: Json): Option<Json> {
    if given then Some(ContentIndex(data)) else None
  }

  /** The content index to which the event gives the header of a message that has none. */
  function Gives(cfg: Config, data: Json, key: MessageKey): Option<Json> {
    var mine := cfg.signature != "" && MessageKeyOf(data) == key;
    match KindOf(data)
    case TextDelta => IndexIf(mine && NonEmptyStr(Get(data, KDelta)), data)
    case TextDone => IndexIf(mine && NonEmptyStr(DoneText(data)), data)
    case PartDone => IndexIf(mine && NonEmptyStr(DoneText(data)), data)
    case PartAdded => IndexIf(mine && PartHasText(Get(data, KPart)) && NonEmptyStr(DoneText(data)), data)
    case ItemAdded => ItemGives(cfg, Get(data, KItem), key)
    case ItemDone =>
      if IsReasoning(Get(data, KItem)) || IsMessage(Get(data, KItem)) then ItemsGive(cfg, EventItems(data), key)
        else None
    case Terminal => ItemsGive(cfg, EventItems(data), key)
    case _ => None
  }

  /** The event makes the message count as headed for later deltas; `given` is the part that has the
      header so far. */
  predicate Opens(cfg: Config, data: Json, key: MessageKey, given: Option<Json>) {
    var mine := cfg.signature != "" && MessageKeyOf(data) == key;
    var item := Get(data, KItem);
    match KindOf(data)
    case TextDelta => mine && NonEmptyStr(Get(data, KDelta))
    case PartAdded => mine && PartHasText(Get(data, KPart))
    case ItemAdded =>
      cfg.signature != "" && IsMessage(item) && IsItemOf(item, key) && (given.Some? || Signable(cfg, item))
    case _ => false
  }

  predicate CarriesText(cfg: Config, data: Json, key: MessageKey) {
    Gives(cfg, data, key).Some? || Opens(cfg, data, key, None)
  }

  // ---------------------------------------------------------------- the header state of a message

  predicate Fresh(ctx: Context, key: MessageKey) {
    key !in ctx.headed && key !in ctx.headerParts
  }

  function At(parts: map<MessageKey, Json>, key: MessageKey): Option<Json> {
    if key in parts then Some(parts[key]) else None
  }

  /** The message has its header, on the part with this content index. */
  predicate HeadedAt(ctx: Context, key: MessageKey, index: Json) {
    key in ctx.headed && At(ctx.headerParts, key) == Some(index)
  }

  function OrElse(a: Option<Json>, b: Option<Json>): Option<Json> {
    if a.Some? then a else b
  }

  lemma NoteItemGives(cfg: Config, parts: map<MessageKey, Json>, item: Json, key: MessageKey)
    ensures At(NoteItem(cfg, parts, item), key) == OrElse(At(parts, key), ItemGives(cfg, item, key))
    ensures ItemGives(cfg, TagItem(cfg, item), key) == ItemGives(cfg, item, key)
  {
    if IsReasoning(item) {
      assert !Signable(cfg, item) && !Signable(cfg, TagItem(cfg, item));
    }
  }

  lemma {:induction false} NoteItemsGive(cfg: Config, parts: map<MessageKey, Json>, items: seq<Json>, key: MessageKey)
    ensures At(NoteItems(cfg, parts, items), key) == OrElse(At(parts, key), ItemsGive(cfg, items, key))
    decreases |items|
  {
    hide TagItem, NoteItem, ItemGives;
    if items != [] {
      NoteItemGives(cfg, parts, items[0], key);
      NoteItemGives(cfg, parts, TagItem(cfg, items[0]), key);
      NoteItemsGive(cfg, NoteItem(cfg, parts, TagItem(cfg, items[0])), items[1..], key);
    }
  }

  lemma NoteEventItemsGive(cfg: Config, parts: map<MessageKey, Json>, data: Json, key: MessageKey)
    ensures At(NoteEventItems(cfg, parts, data), key) == OrElse(At(parts, key), ItemsGive(cfg, EventItems(data), key))
  {
    hide NoteItem, ItemsGive, TagItem;
    assert EventItems(data)[1..] == Elements(Get(Get(data, KResponse), KOutput));
    NoteItemsGive(cfg, parts, EventItems(data), key);
  }

  /** Without a header to give, no item is noted. */
  lemma {:induction false} NothingUnsigned(cfg: Config, items: seq<Json>, key: MessageKey)
    requires cfg.signature == ""
    ensures ItemsGive(cfg, items, key) == None
    decreases |items|
  {
    if items != [] {
      NothingUnsigned(cfg, items[1..], key);
    }
  }

  /** What one event does to the header state of any message. */
  lemma NoteStep(cfg: Config, ctx: Context, data: Json, key: MessageKey)
    requires data.Obj?
    ensures
      var next := NextContext(cfg, ctx, data);
      var silent := KindOf(data) == TextDelta && key in ctx.headed;
      && At(next.headerParts, key) == OrElse(At(ctx.headerParts, key), if silent then None else Gives(cfg, data, key))
      && (key in next.headed <==> key in ctx.headed || Opens(cfg, data, key, At(ctx.headerParts, key)))
  {
    hide KindOfType, Signable, TagItem, NoteItem, NoteItems, NoteEventItems, ItemGives, ItemsGive, DoneText, IsMessage,
         IsReasoning, PartHasText;
    NoteItemGives(cfg, ctx.headerParts, Get(data, KItem), key);
    NoteEventItemsGive(cfg, ctx.headerParts, data, key);
    if cfg.signature == "" { NothingUnsigned(cfg, EventItems(data), key); }
    OnlyMessagesGive(cfg, Get(data, KItem), key);
  }

  lemma OnlyMessagesGive(cfg: Config, item: Json, key: MessageKey)
    ensures ItemGives(cfg, item, key).Some? <==> IsItemOf(item, key) && Signable(cfg, item)
    ensures ItemGives(cfg, item, key).Some? ==> IsMessage(item) && cfg.signature != ""
    ensures IsMessage(item) ==> item.Obj?
  {
  }

  /** A message without text so far stays fresh until an event carries text of it. */
  lemma StaysFresh(cfg: Config, ctx: Context, data: Json, key: MessageKey)
    requires data.Obj? && Fresh(ctx, key) && !CarriesText(cfg, data, key)
    ensures Fresh(NextContext(cfg, ctx, data), key)
  {
    hide NextContext, Gives, Opens;
    NoteStep(cfg, ctx, data, key);
  }

  /** A header, once given, stays where it is. */
  lemma StaysHeaded(cfg: Config, ctx: Context, data: Json, key: MessageKey, index: Json)
    requires data.Obj? && HeadedAt(ctx, key, index)
    ensures HeadedAt(NextContext(cfg, ctx, data), key, index)
  {
    hide NextContext, Gives, Opens;
    NoteStep(cfg, ctx, data, key);
  }

  /** With the first text, be it a delta, an added part or an added item, the message is headed. */
  lemma FirstTextHeads(cfg: Config, ctx: Context, data: Json, key: MessageKey)
    requires data.Obj? && cfg.signature != "" && Fresh(ctx, key) && Gives(cfg, data, key).Some?
    requires KindOf(data) in {TextDelta, PartAdded, ItemAdded}
    ensures HeadedAt(NextContext(cfg, ctx, data), key, Gives(cfg, data, key).value)
  {
    hide KindOfType, Signable, NoteItem, PartHasText, IsMessage;
    NoteItemGives(cfg, ctx.headerParts, Get(data, KItem), key);
    OnlyMessagesGive(cfg, Get(data, KItem), key);
    NoteStep(cfg, ctx, data, key);
  }

  // ---------------------------------------------------------------- the header state along a stream

  /** The content index to which the stream so far gave the header of the message. */
  function HeaderPart(cfg: Config, codec: Codec, blocks: seq<Block>, key: MessageKey): Option<Json>
    decreases |blocks|
  {
    if blocks == [] then None
    else
      var front, data := blocks[..|blocks| - 1], Data(codec, blocks[|blocks| - 1]);
      if HeaderPart(cfg, codec, front, key).Some? || data.None? then HeaderPart(cfg, codec, front, key)
      else if KindOf(data.value) == TextDelta && Opened(cfg, codec, front, key) then None
      else Gives(cfg, data.value, key)
  }

  /** The stream so far streamed text of the message, as a delta, an added part or an added item. */
  predicate Opened(cfg: Config, codec: Codec, blocks: seq<Block>, key: MessageKey)
    decreases |blocks|
  {
    blocks != [] &&
    var front, data := blocks[..|blocks| - 1], Data(codec, blocks[|blocks| - 1]);
    Opened(cfg, codec, front, key) ||
    (data.Some? && Opens(cfg, data.value, key, HeaderPart(cfg, codec, front, key)))
  }

  /** The rewriter's memory of a message is what the stream gave and opened. */
  lemma {:induction false} ContextKnowsHeaderPart(cfg: Config, codec: Codec, blocks: seq<Block>, key: MessageKey)
    ensures
      var ctx := ContextAfter(cfg, codec, InitContext, blocks);
      && At(ctx.headerParts, key) == HeaderPart(cfg, codec, blocks, key)
      && (key in ctx.headed <==> Opened(cfg, codec, blocks, key))
    decreases |blocks|
  {
    hide KindOf, Data, NextContext, Gives, Opens;
    if blocks != [] {
      var front, last := blocks[..|blocks| - 1], blocks[|blocks| - 1];
      assert blocks == front + [last];
      ContextKnowsHeaderPart(cfg, codec, front, key);
      ContextAfterConcat(cfg, codec, InitContext, front, [last]);
      assert [last][1..] == [];
      var data := Data(codec, last);
      if data.Some? { NoteStep(cfg, ContextAfter(cfg, codec, InitContext, front), data.value, key); }
    }
  }

  // ---------------------------------------------------------------- added messages without an id

  /** `self._headed.add(item["id"])` raises: the item has no id, and a message without one has a header part. */
  predicate RaisesKeyError(cfg: Config, ctx: Context, data: Json) {
    var item := Get(data, KItem);
    && cfg.signature != "" && KindOf(data) == ItemAdded && IsMessage(item) && KId !in item.m
    && ById(Null) in NoteItem(cfg, ctx.headerParts, item)
  }

  /** Exactly when an added message ends the relay with a key error: it has no id, and it carries text
      itself or an earlier item without one did. */
  lemma AddedMessageRaises(cfg: Config, codec: Codec, blocks: seq<Block>, i: nat)
    requires i < |blocks| && Data(codec, blocks[i]).Some?
    ensures
      var data := Data(codec, blocks[i]).value;
      var item := Get(data, KItem);
      RaisesKeyError(cfg, ContextAfter(cfg, codec, InitContext, blocks[..i]), data) <==>
        cfg.signature != "" && KindOf(data) == ItemAdded && IsMessage(item) && KId !in item.m &&
        (Signable(cfg, item) || HeaderPart(cfg, codec, blocks[..i], ById(Null)).Some?)
  {
    hide Data, KindOfType, ContextAfter, HeaderPart, Opened, Signable, NoteItem;
    var item := Get(Data(codec, blocks[i]).value, KItem);
    ContextKnowsHeaderPart(cfg, codec, blocks[..i], ById(Null));
    NoteItemGives(cfg, ContextAfter(cfg, codec, InitContext, blocks[..i]).headerParts, item, ById(Null));
    OnlyMessagesGive(cfg, item, ById(Null));
  }
}
