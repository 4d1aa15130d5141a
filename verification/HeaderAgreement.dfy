/** Assistant messages: which texts get the header, and when what a client shows equals every full copy. */
module HeaderAgreement {
  import opened Json
  import opened MarkerSpec
  import opened MarkerOrder
  import opened HeaderMemory
  import opened Insertions

  // ---------------------------------------------------------------- the text a client shows

  /** The text of the first part of an assistant message that has any. */
  function MessageText(item: Json): Option<Json> {
    var parts := Elements(Get(item, KContent));
    var n := FirstText(parts);
    if IsAssistantMessage(item) && n < |parts| then Some(Get(parts[n], KText)) else None
  }

  /** A client finds the item of a message by its id or, for a message without one, by its position. */
  predicate IsCopyOf(item: Json, position: Json, key: MessageKey) {
    if key.ById? then IsItemOf(item, key) else key.index == position
  }

  function PositionOf(data: Json): Json {
    GetOr(data, KOutputIndex, Num(0))
  }

  /** An added item that brings text of the message with it. */
  predicate Announces(codec: Codec, block: Block, key: MessageKey) {
    var data := Data(codec, block);
    && data.Some? && KindOf(data.value) == ItemAdded && IsCopyOf(Get(data.value, KItem), PositionOf(data.value), key)
    && MessageText(Get(data.value, KItem)).Some?
  }

  /** The text of an output text part, empty or not. */
  function PartText(part: Json): Option<string> {
    var text := Get(part, KText);
    if part.Obj? && Get(part, KType) == Str("output_text") && text.Str? then Some(text.s) else None
  }

  function ItemPartText(item: Json, index: Json): Option<string> {
    var parts := Elements(Get(item, KContent));
    if IsAssistantMessage(item) && index.Num? && 0 <= index.n < |parts| then PartText(parts[index.n]) else None
  }

  /** The text with which an added part or item starts a content part of the message. */
  function StartText(data: Json, key: MessageKey, index: Json): Option<string> {
    match KindOf(data)
    case PartAdded =>
      if MessageKeyOf(data) == key && ContentIndex(data) == index then PartText(Get(data, KPart)) else None
    case ItemAdded =>
      if IsCopyOf(Get(data, KItem), PositionOf(data), key) then ItemPartText(Get(data, KItem), index) else None
    case _ => None
  }

  function DeltaText(data: Json, key: MessageKey, index: Json): string {
    var mine := MessageKeyOf(data) == key && ContentIndex(data) == index;
    if KindOf(data) == TextDelta && mine && Get(data, KDelta).Str? then Get(data, KDelta).s else ""
  }

  /** What a block brings for the part: the text it starts with, or more of it. */
  function Brought(codec: Codec, block: Block, key: MessageKey, index: Json): string {
    var data := Data(codec, block);
    if data.None? then ""
    else if StartText(data.value, key, index).Some? then StartText(data.value, key, index).value
    else DeltaText(data.value, key, index)
  }

  predicate StartsPart(codec: Codec, block: Block, key: MessageKey, index: Json) {
    var data := Data(codec, block);
    data.Some? && StartText(data.value, key, index).Some?
  }

  /** The text a client shows for a content part: deltas are appended, an added part starts anew. */
  function Shown(codec: Codec, blocks: seq<Block>, key: MessageKey, index: Json): string {
    if blocks == [] then ""
    else
      var front, last := blocks[..|blocks| - 1], blocks[|blocks| - 1];
      (if StartsPart(codec, last, key, index) then "" else Shown(codec, front, key, index)) +
        Brought(codec, last, key, index)
  }

  /** The block that brought the beginning of the text a client shows. */
  function Opening(codec: Codec, blocks: seq<Block>, key: MessageKey, index: Json): (o: Option<nat>)
    ensures o.Some? ==> o.value < |blocks| && Brought(codec, blocks[o.value], key, index) != ""
  {
    if blocks == [] then None
    else
      var n := |blocks| - 1;
      var before := if StartsPart(codec, blocks[n], key, index) then None else Opening(codec, blocks[..n], key, index);
      if before.Some? then before else if Brought(codec, blocks[n], key, index) != "" then Some(n) else None
  }

  /** The text begins with what its opening block brought. */
  lemma {:induction false} OpeningOpens(codec: Codec, blocks: seq<Block>, key: MessageKey, index: Json)
    ensures
      var o := Opening(codec, blocks, key, index);
      if o.None? then Shown(codec, blocks, key, index) == ""
      else Brought(codec, blocks[o.value], key, index) <= Shown(codec, blocks, key, index)
    decreases |blocks|
  {
    hide Brought, StartsPart;
    if blocks != [] {
      OpeningOpens(codec, blocks[..|blocks| - 1], key, index);
    }
  }

  // ---------------------------------------------------------------- what an event does to it

  function SignText(cfg: Config, text: string): string {
    if text == "" || cfg.signature <= text then text else cfg.signature + text
  }

  /** The text a part starts with is signed when the part is, or now becomes, the header part. */
  lemma StartAfter(cfg: Config, codec: Codec, ctx: Context, data: Json, next: Option<Json>, key: MessageKey, part: Json)
    requires data.Obj? && cfg.signature != ""
    ensures
      var d, t := RewriteOneData(cfg, codec, ctx, data, next), StartText(data, key, part);
      var signs := if KindOf(data) == PartAdded then OrElse(At(ctx.headerParts, key), Some(part)) == Some(part)
                   else part == HeaderIndex(Get(data, KItem));
      StartText(d, key, part) == if t.Some? && signs then Some(SignText(cfg, t.value)) else t
  {
    hide KindOfType, SignItem, SignDone, TagDone, TagEventItems, IsMessage, IsReasoning, IsCopyOf, ItemPartText,
         HeaderIndex;
    SameType(cfg, codec, ctx, data, next);
    if KindOf(data) == PartAdded {
      if PartHasText(Get(data, KPart)) { AddedPart(cfg, ctx.headerParts, data, key, part); }
    } else if KindOf(data) == ItemAdded {
      AddedItem(cfg, Get(data, KItem), PositionOf(data), key, part);
    }
  }

  lemma AddedPart(cfg: Config, parts: map<MessageKey, Json>, data: Json, key: MessageKey, part: Json)
    requires data.Obj? && cfg.signature != "" && PartHasText(Get(data, KPart))
    ensures
      var d := SignDone(cfg, parts, data);
      && MessageKeyOf(d) == MessageKeyOf(data) && ContentIndex(d) == ContentIndex(data)
      && (MessageKeyOf(data) == key && ContentIndex(data) == part ==>
            var t := PartText(Get(data, KPart));
            PartText(Get(d, KPart)) ==
              if t.Some? && OrElse(At(parts, key), Some(part)) == Some(part) then Some(SignText(cfg, t.value)) else t)
  {
  }

  lemma AddedItem(cfg: Config, item: Json, position: Json, key: MessageKey, part: Json)
    requires cfg.signature != ""
    ensures IsCopyOf(SignItem(cfg, item), position, key) == IsCopyOf(item, position, key)
    ensures
      var t := ItemPartText(item, part);
      ItemPartText(SignItem(cfg, item), part) ==
        if t.Some? && part == HeaderIndex(item) then Some(SignText(cfg, t.value)) else t
    ensures !IsMessage(item) ==> ItemPartText(item, part).None?
  {
    hide HasOutputText;
    var parts := Elements(Get(item, KContent));
    if part.Num? && 0 <= part.n < |parts| { TextIsOutputText(parts[part.n]); }
  }

  lemma TextIsOutputText(part: Json)
    ensures HasOutputText(part) ==> part.Obj?
  {
  }

  /** A delta is signed when the message has not been headed yet. */
  lemma DeltaAfterEvent(cfg: Config, codec: Codec, ctx: Context, data: Json, next: Option<Json>, key: MessageKey,
                        part: Json)
    requires data.Obj? && cfg.signature != ""
    ensures
      var d, delta := RewriteOneData(cfg, codec, ctx, data, next), DeltaText(data, key, part);
      DeltaText(d, key, part) == if key !in ctx.headed then SignText(cfg, delta) else delta
  {
    hide KindOfType, TagDone, SignDone, TagEventItems, SignItem;
    SameType(cfg, codec, ctx, data, next);
    var d := RewriteOneData(cfg, codec, ctx, data, next);
    if KindOf(data) == TextDelta {
      assert MessageKeyOf(d) == MessageKeyOf(data) && ContentIndex(d) == ContentIndex(data);
    }
  }

  // ---------------------------------------------------------------- along a stream

  /** What block `r` brings for the part leaves signed: a delta when nothing of the message was streamed
      before, an added part when no other part has the header, the first part with text of an added item. */
  predicate SignsBlock(cfg: Config, codec: Codec, blocks: seq<Block>, key: MessageKey, part: Json, r: nat)
    requires r < |blocks|
  {
    var data := Data(codec, blocks[r]);
    data.Some? &&
    match KindOf(data.value)
    case TextDelta => !Opened(cfg, codec, blocks[..r], key)
    case PartAdded => OrElse(HeaderPart(cfg, codec, blocks[..r], key), Some(part)) == Some(part)
    case _ => part == HeaderIndex(Get(data.value, KItem))
  }

  /** Every block of every stream brings for every part what it brought, with the header before it where
      `SignsBlock` says. */
  lemma BroughtAfter(cfg: Config, codec: Codec, blocks: seq<Block>, key: MessageKey, part: Json, i: nat)
    requires codec.Lawful() && cfg.signature != "" && i < |blocks|
    ensures
      var out, text := Rewritten(cfg, codec, InitContext, blocks)[i], Brought(codec, blocks[i], key, part);
      && StartsPart(codec, out, key, part) == StartsPart(codec, blocks[i], key, part)
      && Brought(codec, out, key, part) ==
         if SignsBlock(cfg, codec, blocks, key, part, i) then SignText(cfg, text) else text
  {
    hide Data, KindOfType, RewriteOne, RewriteOneData, ContextAfter, StartText, DeltaText, HeaderIndex, HeaderPart,
         Opened;
    var ctx := ContextAfter(cfg, codec, InitContext, blocks[..i]);
    var next := NextData(codec, blocks[i + 1..]);
    ContextKnowsHeaderPart(cfg, codec, blocks[..i], key);
    RewrittenAt(cfg, codec, InitContext, blocks, i);
    RewriteOneKeepsShape(cfg, codec, ctx, blocks[i], next);
    var data := Data(codec, blocks[i]);
    if data.Some? {
      RewriteOneIs(cfg, codec, ctx, blocks[i], next);
      StartAfter(cfg, codec, ctx, data.value, next, key, part);
      DeltaAfterEvent(cfg, codec, ctx, data.value, next, key, part);
      OneWay(data.value, key, part);
      NothingToSign(cfg);
    }
  }

  lemma NothingToSign(cfg: Config)
    ensures SignText(cfg, "") == ""
  {
  }

  lemma OneWay(data: Json, key: MessageKey, part: Json)
    ensures StartText(data, key, part).Some? ==> KindOf(data) == PartAdded || KindOf(data) == ItemAdded
    ensures DeltaText(data, key, part) != "" ==> KindOf(data) == TextDelta
  {
    hide KindOfType;
  }

  /** A delta of any stream leaves signed exactly when nothing of its message was streamed before. */
  lemma DeltaLeavesSigned(cfg: Config, codec: Codec, blocks: seq<Block>, i: nat)
    requires codec.Lawful() && cfg.signature != "" && i < |blocks|
    requires Data(codec, blocks[i]).Some? && KindOf(Data(codec, blocks[i]).value) == TextDelta
    ensures
      var data, out := Data(codec, blocks[i]).value, Data(codec, Rewritten(cfg, codec, InitContext, blocks)[i]);
      && out.Some?
      && Get(out.value, KDelta) ==
         if Opened(cfg, codec, blocks[..i], MessageKeyOf(data)) then Get(data, KDelta) else Sign(cfg, Get(data, KDelta))
  {
    hide Data, KindOfType, RewriteOne, RewriteOneData, ContextAfter, Opened, Sign;
    var ctx := ContextAfter(cfg, codec, InitContext, blocks[..i]);
    var next := NextData(codec, blocks[i + 1..]);
    ContextKnowsHeaderPart(cfg, codec, blocks[..i], MessageKeyOf(Data(codec, blocks[i]).value));
    RewrittenAt(cfg, codec, InitContext, blocks, i);
    RewriteOneIs(cfg, codec, ctx, blocks[i], next);
    DeltaUnlessHeaded(cfg, codec, ctx, Data(codec, blocks[i]).value, next);
  }

  lemma DeltaUnlessHeaded(cfg: Config, codec: Codec, ctx: Context, data: Json, next: Option<Json>)
    requires data.Obj? && KindOf(data) == TextDelta && cfg.signature != ""
    ensures Get(RewriteOneData(cfg, codec, ctx, data, next), KDelta) ==
            if MessageKeyOf(data) in ctx.headed then Get(data, KDelta) else Sign(cfg, Get(data, KDelta))
  {
    hide KindOfType;
  }

  // ---------------------------------------------------------------- the shown text in pieces

  /** Block `r` brings text for the part, and the header is put before it. */
  predicate PutsHeader(cfg: Config, codec: Codec, blocks: seq<Block>, key: MessageKey, part: Json, r: nat) {
    r < |blocks| && SignsBlock(cfg, codec, blocks, key, part, r) &&
    var text := Brought(codec, blocks[r], key, part);
    text != "" && !(cfg.signature <= text)
  }

  /** That header is still shown at the end: the part was not started anew. */
  predicate ShowsHeader(cfg: Config, codec: Codec, blocks: seq<Block>, key: MessageKey, part: Json, r: nat) {
    PutsHeader(cfg, codec, blocks, key, part, r) &&
    forall q | r < q < |blocks| :: !StartsPart(codec, blocks[q], key, part)
  }

  function TextPieces(text: string, headed: bool): seq<Piece> {
    if headed then [Mark, Text(text)] else [Text(text)]
  }

  /** The text a client shows, with a mark before each piece that gets the header. */
  function HeadPieces(cfg: Config, codec: Codec, blocks: seq<Block>, key: MessageKey, part: Json): seq<Piece> {
    if blocks == [] then []
    else
      var n := |blocks| - 1;
      (if StartsPart(codec, blocks[n], key, part) then [] else HeadPieces(cfg, codec, blocks[..n], key, part)) +
      TextPieces(Brought(codec, blocks[n], key, part), PutsHeader(cfg, codec, blocks, key, part, n))
  }

  lemma TextPiecesAre(text: string, headed: bool, w: string)
    ensures Bare(TextPieces(text, headed)) == text
    ensures Marked(TextPieces(text, headed), w) == if headed then w + text else text
    ensures Marks(TextPieces(text, headed)) == if headed then 1 else 0
  {
    hide Bare, Marked, Marks;
    One(Text(text), w);
    One(Mark, w);
    Append([Mark], [Text(text)], w);
    assert [Mark] + [Text(text)] == [Mark, Text(text)] && "" + text == text;
  }

  lemma NothingMarked(w: string)
    ensures Bare([]) == "" && Marked([], w) == "" && Marks([]) == 0
  {
  }

  /** A block looks back only. */
  lemma PutsHeaderBefore(cfg: Config, codec: Codec, blocks: seq<Block>, key: MessageKey, part: Json, n: nat, r: nat)
    requires r < n <= |blocks|
    ensures PutsHeader(cfg, codec, blocks[..n], key, part, r) == PutsHeader(cfg, codec, blocks, key, part, r)
  {
    hide Data, KindOf, HeaderPart, Opened, Brought;
    assert blocks[..n][..r] == blocks[..r] && blocks[..n][r] == blocks[r];
  }

  lemma ShownStep(codec: Codec, blocks: seq<Block>, key: MessageKey, part: Json, n: nat)
    requires 0 < n <= |blocks|
    ensures Shown(codec, blocks[..n], key, part) ==
            (if StartsPart(codec, blocks[n - 1], key, part) then "" else Shown(codec, blocks[..n - 1], key, part)) +
            Brought(codec, blocks[n - 1], key, part)
  {
    hide Brought, StartsPart;
    assert blocks[..n][..n - 1] == blocks[..n - 1];
  }

  lemma PiecesStep(cfg: Config, codec: Codec, blocks: seq<Block>, key: MessageKey, part: Json, n: nat)
    requires 0 < n <= |blocks|
    ensures HeadPieces(cfg, codec, blocks[..n], key, part) ==
            (if StartsPart(codec, blocks[n - 1], key, part) then []
             else HeadPieces(cfg, codec, blocks[..n - 1], key, part)) +
            TextPieces(Brought(codec, blocks[n - 1], key, part), PutsHeader(cfg, codec, blocks, key, part, n - 1))
  {
    hide Brought, StartsPart, PutsHeader;
    assert blocks[..n][..n - 1] == blocks[..n - 1];
    PutsHeaderBefore(cfg, codec, blocks, key, part, n, n - 1);
  }

  lemma {:induction false} HeadPiecesAre(cfg: Config, codec: Codec, blocks: seq<Block>, key: MessageKey, part: Json,
                                         n: nat)
    requires codec.Lawful() && cfg.signature != "" && n <= |blocks|
    ensures Bare(HeadPieces(cfg, codec, blocks[..n], key, part)) == Shown(codec, blocks[..n], key, part)
    ensures Marked(HeadPieces(cfg, codec, blocks[..n], key, part), cfg.signature) ==
            Shown(codec, Rewritten(cfg, codec, InitContext, blocks)[..n], key, part)
    decreases n
  {
    hide Brought, StartsPart, Rewritten, HeadPieces, Shown, Bare, Marked, Marks, TextPieces, SignsBlock;
    var out := Rewritten(cfg, codec, InitContext, blocks);
    NothingMarked(cfg.signature);
    if n == 0 {
      assert out[..0] == blocks[..0] == [];
      NothingShown(cfg, codec, key, part);
    } else {
      var text, headed := Brought(codec, blocks[n - 1], key, part), PutsHeader(cfg, codec, blocks, key, part, n - 1);
      HeadPiecesAre(cfg, codec, blocks, key, part, n - 1);
      ShownStep(codec, blocks, key, part, n);
      ShownStep(codec, out, key, part, n);
      PiecesStep(cfg, codec, blocks, key, part, n);
      BroughtAfter(cfg, codec, blocks, key, part, n - 1);
      TextPiecesAre(text, headed, cfg.signature);
      Append(if StartsPart(codec, blocks[n - 1], key, part) then []
             else HeadPieces(cfg, codec, blocks[..n - 1], key, part),
             TextPieces(text, headed), cfg.signature);
    }
  }

  lemma NothingShown(cfg: Config, codec: Codec, key: MessageKey, part: Json)
    ensures Shown(codec, [], key, part) == "" && Opening(codec, [], key, part) == None
    ensures HeadPieces(cfg, codec, [], key, part) == []
  {
  }

  /** No header is shown in the text. */
  predicate NoHeader(cfg: Config, codec: Codec, blocks: seq<Block>, key: MessageKey, part: Json) {
    forall r | 0 <= r < |blocks| :: !ShowsHeader(cfg, codec, blocks, key, part, r)
  }

  /** The header before what block `r` brought is shown, and no other. */
  predicate OnlyHeader(cfg: Config, codec: Codec, blocks: seq<Block>, key: MessageKey, part: Json, r: nat) {
    && ShowsHeader(cfg, codec, blocks, key, part, r)
    && forall q | 0 <= q < |blocks| && q != r :: !ShowsHeader(cfg, codec, blocks, key, part, q)
  }

  /** What is shown of the part before block `r` adds to it. */
  function TextBefore(codec: Codec, blocks: seq<Block>, key: MessageKey, part: Json, r: nat): string
    requires r < |blocks|
  {
    if StartsPart(codec, blocks[r], key, part) then "" else Shown(codec, blocks[..r], key, part)
  }

  /** The header stands in front of the shown text: one is shown, and it commutes with what is shown
      before it (nothing, as a rule). */
  predicate HeaderInFront(cfg: Config, codec: Codec, blocks: seq<Block>, key: MessageKey, part: Json) {
    exists r: nat | r < |blocks| ::
      && OnlyHeader(cfg, codec, blocks, key, part, r)
      && var before := TextBefore(codec, blocks, key, part, r);
         before + cfg.signature == cfg.signature + before
  }

  lemma ShowsBefore(cfg: Config, codec: Codec, blocks: seq<Block>, key: MessageKey, part: Json, n: nat, r: nat)
    requires r < n <= |blocks|
    ensures ShowsHeader(cfg, codec, blocks, key, part, r) <==>
            ShowsHeader(cfg, codec, blocks[..n], key, part, r) &&
            forall q | n <= q < |blocks| :: !StartsPart(codec, blocks[q], key, part)
  {
    hide PutsHeader, StartsPart;
    PutsHeaderBefore(cfg, codec, blocks, key, part, n, r);
    assert forall q | r < q < n :: blocks[..n][q] == blocks[q];
  }

  lemma {:induction false} NoHeaderNoMark(cfg: Config, codec: Codec, blocks: seq<Block>, key: MessageKey, part: Json)
    ensures NoHeader(cfg, codec, blocks, key, part) <==> Marks(HeadPieces(cfg, codec, blocks, key, part)) == 0
    decreases |blocks|
  {
    hide PutsHeader, StartsPart, HeadPieces, Marks, NoHeader;
    if blocks == [] {
      NothingShown(cfg, codec, key, part);
      NothingMarked("");
      NoBlockNoHeader(cfg, codec, key, part);
    } else {
      NoHeaderNoMark(cfg, codec, blocks[..|blocks| - 1], key, part);
      NoHeaderStep(cfg, codec, blocks, key, part);
      MarksStep(cfg, codec, blocks, key, part);
    }
  }

  lemma NoBlockNoHeader(cfg: Config, codec: Codec, key: MessageKey, part: Json)
    ensures NoHeader(cfg, codec, [], key, part)
  {
  }

  lemma NoHeaderStep(cfg: Config, codec: Codec, blocks: seq<Block>, key: MessageKey, part: Json)
    requires blocks != []
    ensures
      var n := |blocks| - 1;
      NoHeader(cfg, codec, blocks, key, part) <==>
        !PutsHeader(cfg, codec, blocks, key, part, n) &&
        (StartsPart(codec, blocks[n], key, part) || NoHeader(cfg, codec, blocks[..n], key, part))
  {
    hide PutsHeader, StartsPart, ShowsHeader;
    var n := |blocks| - 1;
    var front := blocks[..n];
    LastShows(cfg, codec, blocks, key, part);
    forall r | 0 <= r < n
      ensures ShowsHeader(cfg, codec, blocks, key, part, r) <==>
              ShowsHeader(cfg, codec, front, key, part, r) && !StartsPart(codec, blocks[n], key, part)
    {
      ShowsBefore(cfg, codec, blocks, key, part, n, r);
    }
  }

  lemma MarksStep(cfg: Config, codec: Codec, blocks: seq<Block>, key: MessageKey, part: Json)
    requires blocks != []
    ensures
      var n := |blocks| - 1;
      Marks(HeadPieces(cfg, codec, blocks, key, part)) ==
        (if StartsPart(codec, blocks[n], key, part) then 0 else Marks(HeadPieces(cfg, codec, blocks[..n], key, part))) +
        (if PutsHeader(cfg, codec, blocks, key, part, n) then 1 else 0)
  {
    hide PutsHeader, StartsPart, Brought, Marks, TextPieces;
    var n := |blocks| - 1;
    var before := if StartsPart(codec, blocks[n], key, part) then []
                  else HeadPieces(cfg, codec, blocks[..n], key, part);
    var text, headed := Brought(codec, blocks[n], key, part), PutsHeader(cfg, codec, blocks, key, part, n);
    NothingMarked("");
    TextPiecesAre(text, headed, "");
    MarksConcat(before, TextPieces(text, headed));
  }

  lemma LastShows(cfg: Config, codec: Codec, blocks: seq<Block>, key: MessageKey, part: Json)
    requires blocks != []
    ensures ShowsHeader(cfg, codec, blocks, key, part, |blocks| - 1) ==
            PutsHeader(cfg, codec, blocks, key, part, |blocks| - 1)
  {
    hide PutsHeader;
  }

  function PiecesBefore(cfg: Config, codec: Codec, blocks: seq<Block>, key: MessageKey, part: Json, r: nat): seq<Piece>
    requires r < |blocks|
  {
    if StartsPart(codec, blocks[r], key, part) then [] else HeadPieces(cfg, codec, blocks[..r], key, part)
  }

  /** The pieces from the text of block `r` on, up to block `n`. */
  function PiecesFrom(cfg: Config, codec: Codec, blocks: seq<Block>, key: MessageKey, part: Json, r: nat,
                      n: nat): seq<Piece>
    requires r < n <= |blocks|
  {
    var text := Brought(codec, blocks[n - 1], key, part);
    if n == r + 1 then [Text(text)]
    else
      PiecesFrom(cfg, codec, blocks, key, part, r, n - 1) +
      TextPieces(text, PutsHeader(cfg, codec, blocks, key, part, n - 1))
  }

  /** A shown header splits the pieces. */
  lemma {:induction false} SplitAtHeader(cfg: Config, codec: Codec, blocks: seq<Block>, key: MessageKey, part: Json,
                                         r: nat, n: nat)
    requires r < n <= |blocks| && PutsHeader(cfg, codec, blocks, key, part, r)
    requires forall q | r < q < n :: !StartsPart(codec, blocks[q], key, part)
    ensures HeadPieces(cfg, codec, blocks[..n], key, part) ==
            PiecesBefore(cfg, codec, blocks, key, part, r) + ([Mark] + PiecesFrom(cfg, codec, blocks, key, part, r, n))
    decreases n
  {
    hide PutsHeader, StartsPart, Brought, HeadPieces, TextPieces;
    PiecesStep(cfg, codec, blocks, key, part, n);
    var before := PiecesBefore(cfg, codec, blocks, key, part, r);
    var last := TextPieces(Brought(codec, blocks[n - 1], key, part), PutsHeader(cfg, codec, blocks, key, part, n - 1));
    if r == n - 1 {
      MarkFirst(Brought(codec, blocks[r], key, part));
    } else {
      SplitAtHeader(cfg, codec, blocks, key, part, r, n - 1);
      var rest := PiecesFrom(cfg, codec, blocks, key, part, r, n - 1);
      assert before + ([Mark] + rest) + last == before + ([Mark] + (rest + last));
    }
  }

  lemma {:induction false} MarksFrom(cfg: Config, codec: Codec, blocks: seq<Block>, key: MessageKey, part: Json, r: nat,
                                     n: nat)
    requires r < n <= |blocks|
    ensures Marks(PiecesFrom(cfg, codec, blocks, key, part, r, n)) == 0 <==>
            forall q | r < q < n :: !PutsHeader(cfg, codec, blocks, key, part, q)
    decreases n
  {
    hide PutsHeader, Brought, TextPieces, Marks;
    var text, headed := Brought(codec, blocks[n - 1], key, part), PutsHeader(cfg, codec, blocks, key, part, n - 1);
    if n == r + 1 {
      One(Text(text), "");
    } else {
      MarksFrom(cfg, codec, blocks, key, part, r, n - 1);
      MarksConcat(PiecesFrom(cfg, codec, blocks, key, part, r, n - 1), TextPieces(text, headed));
      TextPiecesAre(text, headed, "");
    }
  }

  lemma MarkFirst(text: string)
    ensures TextPieces(text, true) == [Mark] + [Text(text)]
  {
  }

  /** Both sides of a shown header are without marks exactly when it is the only one. */
  lemma OnlyHeaderSplits(cfg: Config, codec: Codec, blocks: seq<Block>, key: MessageKey, part: Json, r: nat)
    returns (after: seq<Piece>)
    requires r < |blocks| && ShowsHeader(cfg, codec, blocks, key, part, r)
    ensures HeadPieces(cfg, codec, blocks, key, part) ==
            PiecesBefore(cfg, codec, blocks, key, part, r) + ([Mark] + after)
    ensures Marks(PiecesBefore(cfg, codec, blocks, key, part, r)) == 0 && Marks(after) == 0 <==>
            OnlyHeader(cfg, codec, blocks, key, part, r)
  {
    hide PutsHeader, StartsPart, HeadPieces, PiecesFrom, Marks;
    SplitAtHeader(cfg, codec, blocks, key, part, r, |blocks|);
    MarksFrom(cfg, codec, blocks, key, part, r, |blocks|);
    after := PiecesFrom(cfg, codec, blocks, key, part, r, |blocks|);
    assert blocks[..|blocks|] == blocks;
    forall q | r < q < |blocks|
      ensures ShowsHeader(cfg, codec, blocks, key, part, q) == PutsHeader(cfg, codec, blocks, key, part, q)
    {
      assert forall p | q < p < |blocks| :: !StartsPart(codec, blocks[p], key, part);
    }
    hide ShowsHeader;
    BeforeUnmarked(cfg, codec, blocks, key, part, r);
  }

  lemma BeforeUnmarked(cfg: Config, codec: Codec, blocks: seq<Block>, key: MessageKey, part: Json, r: nat)
    requires r < |blocks| && forall q | r < q < |blocks| :: !StartsPart(codec, blocks[q], key, part)
    ensures Marks(PiecesBefore(cfg, codec, blocks, key, part, r)) == 0 <==>
            forall q | 0 <= q < r :: !ShowsHeader(cfg, codec, blocks, key, part, q)
  {
    hide ShowsHeader, StartsPart, HeadPieces, Marks;
    var front := blocks[..r];
    NoHeaderNoMark(cfg, codec, front, key, part);
    NothingMarked("");
    forall q | 0 <= q < r
      ensures ShowsHeader(cfg, codec, blocks, key, part, q) <==>
              ShowsHeader(cfg, codec, front, key, part, q) && !StartsPart(codec, blocks[r], key, part)
    {
      ShowsBefore(cfg, codec, blocks, key, part, r, q);
    }
  }

  /** What a client shows at the end of any stream, for any part: the text as it came exactly when no
      header is shown, and the text with one header in front exactly when `HeaderInFront` says. */
  lemma ShownAfter(cfg: Config, codec: Codec, blocks: seq<Block>, key: MessageKey, part: Json)
    requires codec.Lawful() && cfg.signature != ""
    ensures
      var text := Shown(codec, blocks, key, part);
      var out := Shown(codec, Rewritten(cfg, codec, InitContext, blocks), key, part);
      && (out == text <==> NoHeader(cfg, codec, blocks, key, part))
      && (out == cfg.signature + text <==> HeaderInFront(cfg, codec, blocks, key, part))
  {
    hide HeadPieces, Shown, Rewritten, ShowsHeader, Marked, Bare, Marks, OnlyHeader;
    var ps, out := HeadPieces(cfg, codec, blocks, key, part), Rewritten(cfg, codec, InitContext, blocks);
    HeadPiecesAre(cfg, codec, blocks, key, part, |blocks|);
    assert out[..|blocks|] == out && blocks[..|blocks|] == blocks;
    NoHeaderNoMark(cfg, codec, blocks, key, part);
    Unmarked(ps, cfg.signature);
    ByOne(ps, cfg.signature);
    if Marked(ps, cfg.signature) == cfg.signature + Bare(ps) {
      var r := OneMarkOnlyHeader(cfg, codec, blocks, key, part);
      HeaderCommutes(cfg, codec, blocks, key, part, r);
    }
    if HeaderInFront(cfg, codec, blocks, key, part) {
      var r: nat :|
        && r < |blocks| && OnlyHeader(cfg, codec, blocks, key, part, r)
        && var before := TextBefore(codec, blocks, key, part, r);
           before + cfg.signature == cfg.signature + before;
      HeaderCommutes(cfg, codec, blocks, key, part, r);
    }
  }

  lemma OneMarkOnlyHeader(cfg: Config, codec: Codec, blocks: seq<Block>, key: MessageKey, part: Json) returns (r: nat)
    requires Marks(HeadPieces(cfg, codec, blocks, key, part)) == 1
    ensures r < |blocks| && OnlyHeader(cfg, codec, blocks, key, part, r)
  {
    hide HeadPieces, ShowsHeader, OnlyHeader, PiecesBefore;
    NoHeaderNoMark(cfg, codec, blocks, key, part);
    r :| r < |blocks| && ShowsHeader(cfg, codec, blocks, key, part, r);
    var after := OnlyHeaderSplits(cfg, codec, blocks, key, part, r);
    MarksConcat([Mark], after);
    MarksConcat(PiecesBefore(cfg, codec, blocks, key, part, r), [Mark] + after);
    One(Mark, "");
  }

  lemma HeaderCommutes(cfg: Config, codec: Codec, blocks: seq<Block>, key: MessageKey, part: Json, r: nat)
    requires codec.Lawful() && cfg.signature != "" && r < |blocks| && OnlyHeader(cfg, codec, blocks, key, part, r)
    ensures
      var ps, before := HeadPieces(cfg, codec, blocks, key, part), TextBefore(codec, blocks, key, part, r);
      Marked(ps, cfg.signature) == cfg.signature + Bare(ps) <==> before + cfg.signature == cfg.signature + before
  {
    hide HeadPieces, Shown, ShowsHeader, Marked, Bare, Marks, StartsPart;
    OnlyHeaderShows(cfg, codec, blocks, key, part, r);
    var after := OnlyHeaderSplits(cfg, codec, blocks, key, part, r);
    OneMark(PiecesBefore(cfg, codec, blocks, key, part, r), after, cfg.signature);
    HeadPiecesAre(cfg, codec, blocks, key, part, r);
    NothingMarked("");
  }

  lemma OnlyHeaderShows(cfg: Config, codec: Codec, blocks: seq<Block>, key: MessageKey, part: Json, r: nat)
    requires OnlyHeader(cfg, codec, blocks, key, part, r)
    ensures ShowsHeader(cfg, codec, blocks, key, part, r)
  {
    hide ShowsHeader;
  }

  // ---------------------------------------------------------------- messages that are streamed under their id

  /** The message is known by its id, or no added item brings text of it. */
  predicate Unannounced(codec: Codec, blocks: seq<Block>, key: MessageKey) {
    key.ById? || forall i | 0 <= i < |blocks| :: !Announces(codec, blocks[i], key)
  }

  /** The block that opened the shown text put the header before it. */
  predicate ShownHeaded(cfg: Config, codec: Codec, blocks: seq<Block>, key: MessageKey, part: Json) {
    var o := Opening(codec, blocks, key, part);
    o.Some? && PutsHeader(cfg, codec, blocks, key, part, o.value)
  }

  lemma OpeningStep(codec: Codec, blocks: seq<Block>, key: MessageKey, part: Json, n: nat)
    requires 0 < n <= |blocks|
    ensures
      var before := if StartsPart(codec, blocks[n - 1], key, part) then None
          else Opening(codec, blocks[..n - 1], key, part);
      Opening(codec, blocks[..n], key, part) ==
        if before.Some? then before else if Brought(codec, blocks[n - 1], key, part) != "" then Some(n - 1) else None
  {
    hide Brought, StartsPart;
    assert blocks[..n][..n - 1] == blocks[..n - 1];
  }

  /** Text that is brought opens the message, unless the message is only known by its position. */
  lemma BroughtOpens(cfg: Config, codec: Codec, block: Block, key: MessageKey, part: Json, given: Option<Json>)
    requires cfg.signature != "" && Brought(codec, block, key, part) != ""
    requires key.ById? || !Announces(codec, block, key)
    ensures Data(codec, block).Some? && Opens(cfg, Data(codec, block).value, key, given)
  {
    hide Data, KindOfType, Signable, MessageText, ItemPartText, IsMessage;
    var data := Data(codec, block).value;
    if KindOf(data) == ItemAdded {
      TextIsMessageText(cfg, Get(data, KItem), part);
    }
  }

  lemma TextIsMessageText(cfg: Config, item: Json, part: Json)
    requires cfg.signature != ""
    ensures ItemPartText(item, part).Some? && ItemPartText(item, part).value != "" ==> MessageText(item).Some?
    ensures MessageText(item).Some? ==> Signable(cfg, item) && IsMessage(item)
  {
    var parts := Elements(Get(item, KContent));
    if ItemPartText(item, part).Some? && ItemPartText(item, part).value != "" {
      assert HasOutputText(parts[part.n]);
    }
  }

  lemma {:induction false} QuietUnopened(cfg: Config, codec: Codec, blocks: seq<Block>, key: MessageKey, part: Json,
                                         n: nat)
    requires cfg.signature != "" && Unannounced(codec, blocks, key) && n <= |blocks|
    requires !Opened(cfg, codec, blocks[..n], key)
    ensures Opening(codec, blocks[..n], key, part) == None
    decreases n
  {
    hide Brought, StartsPart, Opening, Data, Opens, Announces;
    if n == 0 {
      assert blocks[..0] == [];
      NothingShown(cfg, codec, key, part);
    } else {
      assert blocks[..n][..n - 1] == blocks[..n - 1];
      QuietUnopened(cfg, codec, blocks, key, part, n - 1);
      OpeningStep(codec, blocks, key, part, n);
      if Brought(codec, blocks[n - 1], key, part) != "" {
        BroughtOpens(cfg, codec, blocks[n - 1], key, part, HeaderPart(cfg, codec, blocks[..n - 1], key));
      }
    }
  }

  /** Behind the opening block the part is not started anew, and nothing was shown before it. */
  lemma {:induction false} OpeningIsFirst(codec: Codec, blocks: seq<Block>, key: MessageKey, part: Json, n: nat)
    requires n <= |blocks| && Opening(codec, blocks[..n], key, part).Some?
    ensures
      var o := Opening(codec, blocks[..n], key, part).value;
      && o < n && TextBefore(codec, blocks, key, part, o) == ""
      && forall q | o < q < n :: !StartsPart(codec, blocks[q], key, part)
    decreases n
  {
    hide Brought, StartsPart, Opening, Shown;
    OpeningBound(codec, blocks[..n], key, part);
    OpeningStep(codec, blocks, key, part, n);
    OpeningOpens(codec, blocks[..n - 1], key, part);
    if !StartsPart(codec, blocks[n - 1], key, part) && Opening(codec, blocks[..n - 1], key, part).Some? {
      OpeningIsFirst(codec, blocks, key, part, n - 1);
    }
  }

  lemma OpeningBound(codec: Codec, blocks: seq<Block>, key: MessageKey, part: Json)
    ensures Opening(codec, blocks, key, part).Some? ==> blocks != []
  {
  }

  /** A shown header stands before the opening. */
  lemma {:induction false} HeaderOpens(cfg: Config, codec: Codec, blocks: seq<Block>, key: MessageKey, part: Json,
                                       r: nat, n: nat)
    requires cfg.signature != "" && Unannounced(codec, blocks, key)
    requires r < n <= |blocks| && PutsHeader(cfg, codec, blocks, key, part, r)
    requires forall q | r < q < n :: !StartsPart(codec, blocks[q], key, part)
    ensures Opening(codec, blocks[..n], key, part) == Some(r)
    decreases n
  {
    hide Brought, StartsPart, Opening, Unannounced, SignsBlock, HeaderPart, Opened;
    OpeningStep(codec, blocks, key, part, n);
    if r < n - 1 {
      HeaderOpens(cfg, codec, blocks, key, part, r, n - 1);
    } else if !StartsPart(codec, blocks[r], key, part) {
      SignedDelta(cfg, codec, blocks, key, part, r);
      QuietUnopened(cfg, codec, blocks, key, part, r);
    }
  }

  lemma SignedDelta(cfg: Config, codec: Codec, blocks: seq<Block>, key: MessageKey, part: Json, r: nat)
    requires r < |blocks| && PutsHeader(cfg, codec, blocks, key, part, r) && !StartsPart(codec, blocks[r], key, part)
    ensures !Opened(cfg, codec, blocks[..r], key)
  {
    hide Data, KindOfType, Opened, HeaderPart;
  }

  /** The header is in front of the text, or not shown at all, by the opening alone. */
  lemma OpeningDecides(cfg: Config, codec: Codec, blocks: seq<Block>, key: MessageKey, part: Json)
    requires cfg.signature != "" && Unannounced(codec, blocks, key)
    ensures HeaderInFront(cfg, codec, blocks, key, part) <==> ShownHeaded(cfg, codec, blocks, key, part)
    ensures NoHeader(cfg, codec, blocks, key, part) <==> !ShownHeaded(cfg, codec, blocks, key, part)
  {
    hide Unannounced, PutsHeader, StartsPart, Opening, Shown;
    assert blocks[..|blocks|] == blocks;
    forall r | 0 <= r < |blocks| && ShowsHeader(cfg, codec, blocks, key, part, r)
      ensures Opening(codec, blocks, key, part) == Some(r) && PutsHeader(cfg, codec, blocks, key, part, r)
    {
      HeaderOpens(cfg, codec, blocks, key, part, r, |blocks|);
    }
    var o := Opening(codec, blocks, key, part);
    if o.Some? {
      OpeningIsFirst(codec, blocks, key, part, |blocks|);
      assert "" + cfg.signature == cfg.signature + "";
      if PutsHeader(cfg, codec, blocks, key, part, o.value) {
        assert ShowsHeader(cfg, codec, blocks, key, part, o.value);
        assert OnlyHeader(cfg, codec, blocks, key, part, o.value);
      }
    }
  }

  // ---------------------------------------------------------------- full copies

  /** Where later events repeat the text of a part. */
  datatype Place = DoneField | ItemField | OutputField(item: nat)

  /** The item of the message at a place of an event. */
  function CopiedItem(data: Json, key: MessageKey, place: Place): Option<Json> {
    var kind := KindOf(data);
    var items := Elements(Get(Get(data, KResponse), KOutput));
    match place
    case DoneField => None
    case ItemField =>
      if (kind == ItemAdded || kind == ItemDone) && IsCopyOf(Get(data, KItem), PositionOf(data), key) then
        Some(Get(data, KItem))
      else None
    case OutputField(i) =>
      if kind == Terminal && i < |items| && IsCopyOf(items[i], Num(i), key) then Some(items[i]) else None
  }

  /** The copy of a part's text: a finished text, or the text of that part in an item. */
  function Copy(data: Json, key: MessageKey, part: Json, place: Place): Option<Json> {
    if place == DoneField then
      if IsFinished(data) && MessageKeyOf(data) == key && ContentIndex(data) == part then Some(DoneText(data)) else None
    else
      var item := CopiedItem(data, key, place);
      if item.Some? && ItemPartText(item.value, part).Some? then Some(Str(ItemPartText(item.value, part).value))
        else None
  }

  /** The copy in block `i` is signed: a finished text when no other part has the header, a text in an
      item when it is the first of the item. */
  predicate SignsCopy(cfg: Config, codec: Codec, blocks: seq<Block>, key: MessageKey, part: Json, i: nat, place: Place)
    requires i < |blocks| && Data(codec, blocks[i]).Some?
  {
    var item := CopiedItem(Data(codec, blocks[i]).value, key, place);
    if place == DoneField then OrElse(HeaderPart(cfg, codec, blocks[..i], key), Some(part)) == Some(part)
    else item.Some? && part == HeaderIndex(item.value)
  }

  lemma RewrittenMessage(cfg: Config, item: Json, part: Json)
    requires ItemPartText(item, part).Some?
    ensures RewriteItem(cfg, item) == SignItem(cfg, item) && IsMessage(item) && !IsReasoning(item) && item.Obj?
  {
  }

  lemma ItemCopySigned(cfg: Config, codec: Codec, ctx: Context, data: Json, next: Option<Json>, key: MessageKey,
                       part: Json, place: Place)
    requires data.Obj? && cfg.signature != "" && CopiedItem(data, key, place).Some?
    requires ItemPartText(CopiedItem(data, key, place).value, part).Some?
    ensures
      var item := CopiedItem(data, key, place).value;
      CopiedItem(RewriteOneData(cfg, codec, ctx, data, next), key, place) == Some(SignItem(cfg, item))
  {
    hide KindOfType, RewriteItem, SignItem, TagDone, IsMessage, IsReasoning, IsCopyOf, ItemPartText;
    SameType(cfg, codec, ctx, data, next);
    var items := Elements(Get(Get(data, KResponse), KOutput));
    var item := CopiedItem(data, key, place).value;
    RewrittenMessage(cfg, item, part);
    match place
    case DoneField =>
    case ItemField => AddedItem(cfg, item, PositionOf(data), key, part);
    case OutputField(i) =>
      AddedItem(cfg, item, Num(i), key, part);
      var moved := SetResponseId(ctx.responseId, data);
      assert Elements(Get(Get(moved, KResponse), KOutput)) == items;
  }

  lemma EmptyUnsigned(cfg: Config, text: Json)
    ensures !NonEmptyStr(text) ==> Sign(cfg, text) == text
  {
  }

  lemma SignDoneText(cfg: Config, parts: map<MessageKey, Json>, data: Json, key: MessageKey, index: Json)
    requires data.Obj? && MessageKeyOf(data) == key
    ensures
      var d := SignDone(cfg, parts, data);
      && MessageKeyOf(d) == MessageKeyOf(data) && ContentIndex(d) == ContentIndex(data)
      && DoneText(d) ==
         if NonEmptyStr(DoneText(data)) && OrElse(At(parts, key), Some(ContentIndex(data))) ==
           Some(ContentIndex(data)) then
           Sign(cfg, DoneText(data))
         else DoneText(data)
  {
    hide Sign;
  }

  /** Every copy of every part, at every place: signed where `SignsCopy` says. */
  lemma CopiesSigned(cfg: Config, codec: Codec, blocks: seq<Block>, key: MessageKey, part: Json, i: nat, place: Place)
    requires codec.Lawful() && cfg.signature != "" && i < |blocks| && Data(codec, blocks[i]).Some?
    requires Copy(Data(codec, blocks[i]).value, key, part, place).Some?
    ensures
      var out, copy := Rewritten(cfg, codec, InitContext, blocks)[i],
          Copy(Data(codec, blocks[i]).value, key, part, place).value;
      && Data(codec, out).Some?
      && Copy(Data(codec, out).value, key, part, place) ==
         Some(if SignsCopy(cfg, codec, blocks, key, part, i, place) then Sign(cfg, copy) else copy)
  {
    hide Data, KindOfType, RewriteOne, ContextAfter, HeaderPart, Sign, SignItem, CopiedItem, ItemPartText, HeaderIndex,
         DoneText;
    var ctx := ContextAfter(cfg, codec, InitContext, blocks[..i]);
    var next := NextData(codec, blocks[i + 1..]);
    var data := Data(codec, blocks[i]).value;
    ContextKnowsHeaderPart(cfg, codec, blocks[..i], key);
    RewrittenAt(cfg, codec, InitContext, blocks, i);
    RewriteOneIs(cfg, codec, ctx, blocks[i], next);
    SameType(cfg, codec, ctx, data, next);
    if place == DoneField {
      FinishedCopy(cfg, codec, ctx, data, next, key, part);
    } else {
      ItemCopySigned(cfg, codec, ctx, data, next, key, part, place);
      var item := CopiedItem(data, key, place).value;
      AddedItem(cfg, item, Num(0), key, part);
      SignIsSignText(cfg, ItemPartText(item, part).value);
    }
  }

  lemma SignIsSignText(cfg: Config, text: string)
    requires cfg.signature != ""
    ensures Sign(cfg, Str(text)) == Str(SignText(cfg, text))
  {
  }

  lemma FinishedCopy(cfg: Config, codec: Codec, ctx: Context, data: Json, next: Option<Json>, key: MessageKey,
                     part: Json)
    requires data.Obj? && cfg.signature != "" && Copy(data, key, part, DoneField).Some?
    ensures
      var d := RewriteOneData(cfg, codec, ctx, data, next);
      MessageKeyOf(d) == key && ContentIndex(d) == part &&
      DoneText(d) ==
        if OrElse(At(ctx.headerParts, key), Some(part)) == Some(part) then Sign(cfg, DoneText(data)) else DoneText(data)
  {
    hide KindOfType, Sign, DoneText;
    SignDoneText(cfg, ctx.headerParts, data, key, part);
    EmptyUnsigned(cfg, DoneText(data));
  }

  // ---------------------------------------------------------------- agreement

  /** The copy gains the header: it is signed, and its text is not empty and does not begin with one. */
  predicate CopyHeaded(cfg: Config, codec: Codec, blocks: seq<Block>, key: MessageKey, part: Json, i: nat, place: Place)
    requires i < |blocks| && Data(codec, blocks[i]).Some?
  {
    var text := Shown(codec, blocks, key, part);
    SignsCopy(cfg, codec, blocks, key, part, i, place) && text != "" && !(cfg.signature <= text)
  }

  /** Every part of every message in every stream, and every full copy of it: the shown text equals the
      copy exactly when both have the header in front, or neither has one anywhere. */
  lemma MessageTextsAgree(cfg: Config, codec: Codec, blocks: seq<Block>, key: MessageKey, part: Json, i: nat,
                          place: Place)
    requires codec.Lawful() && cfg.signature != "" && i < |blocks| && Data(codec, blocks[i]).Some?
    requires Copy(Data(codec, blocks[i]).value, key, part, place) == Some(Str(Shown(codec, blocks, key, part)))
    ensures
      var out, text := Rewritten(cfg, codec, InitContext, blocks), Shown(codec, blocks, key, part);
      var headed := CopyHeaded(cfg, codec, blocks, key, part, i, place);
      && Data(codec, out[i]).Some?
      && Copy(Data(codec, out[i]).value, key, part, place) == Some(Str(HeadIf(cfg, headed, text)))
      && (Copy(Data(codec, out[i]).value, key, part, place) == Some(Str(Shown(codec, out, key, part))) <==>
          if headed then HeaderInFront(cfg, codec, blocks, key, part) else NoHeader(cfg, codec, blocks, key, part))
  {
    hide Copy, Data, Shown, Rewritten, SignsCopy, HeaderInFront, NoHeader;
    CopiesSigned(cfg, codec, blocks, key, part, i, place);
    SignIsSignText(cfg, Shown(codec, blocks, key, part));
    ShownAfter(cfg, codec, blocks, key, part);
  }

  function HeadIf(cfg: Config, headed: bool, text: string): string {
    if headed then cfg.signature + text else text
  }

  /** For a message that is streamed under its id only the opening of the shown text counts. */
  lemma IdentifiedTextsAgree(cfg: Config, codec: Codec, blocks: seq<Block>, key: MessageKey, part: Json, i: nat,
                             place: Place)
    requires codec.Lawful() && cfg.signature != "" && i < |blocks| && Data(codec, blocks[i]).Some?
    requires Copy(Data(codec, blocks[i]).value, key, part, place) == Some(Str(Shown(codec, blocks, key, part)))
    requires Unannounced(codec, blocks, key)
    ensures
      var out := Rewritten(cfg, codec, InitContext, blocks);
      && Data(codec, out[i]).Some?
      && (Copy(Data(codec, out[i]).value, key, part, place) == Some(Str(Shown(codec, out, key, part))) <==>
          (ShownHeaded(cfg, codec, blocks, key, part) <==> CopyHeaded(cfg, codec, blocks, key, part, i, place)))
    ensures Shown(codec, Rewritten(cfg, codec, InitContext, blocks), key, part) ==
            HeadIf(cfg, ShownHeaded(cfg, codec, blocks, key, part), Shown(codec, blocks, key, part))
  {
    hide Copy, Data, Shown, Rewritten, CopyHeaded, HeaderInFront, NoHeader, ShownHeaded, Unannounced;
    MessageTextsAgree(cfg, codec, blocks, key, part, i, place);
    OpeningDecides(cfg, codec, blocks, key, part);
    ShownAfter(cfg, codec, blocks, key, part);
  }

  // ---------------------------------------------------------------- parts that are streamed in order

  predicate BlockCarries(cfg: Config, codec: Codec, block: Block, key: MessageKey) {
    Data(codec, block).Some? && CarriesText(cfg, Data(codec, block).value, key)
  }

  /** Block `j` is the first to carry text of the message, streamed or finished, and streams it for the
      part `first`; this part is not started again, and no added item brings text behind it. */
  predicate StreamsFirst(cfg: Config, codec: Codec, blocks: seq<Block>, key: MessageKey, first: Json, j: nat) {
    && j < |blocks| && Data(codec, blocks[j]).Some? && Gives(cfg, Data(codec, blocks[j]).value, key) == Some(first)
    && Brought(codec, blocks[j], key, first) != ""
    && (forall i | 0 <= i < j :: !BlockCarries(cfg, codec, blocks[i], key) && !Announces(codec, blocks[i], key))
    && (forall i | j < i < |blocks| :: !StartsPart(codec, blocks[i], key, first) && !Announces(codec, blocks[i], key))
  }

  lemma {:induction false} FreshUntil(cfg: Config, codec: Codec, blocks: seq<Block>, key: MessageKey, n: nat)
    requires n <= |blocks| && forall i | 0 <= i < n :: !BlockCarries(cfg, codec, blocks[i], key)
    ensures HeaderPart(cfg, codec, blocks[..n], key) == None && !Opened(cfg, codec, blocks[..n], key)
    decreases n
  {
    hide Data, Gives, Opens, KindOf;
    if n > 0 {
      assert blocks[..n][..n - 1] == blocks[..n - 1] && blocks[..n][n - 1] == blocks[n - 1];
      FreshUntil(cfg, codec, blocks, key, n - 1);
    }
  }

  /** From the first text on, the header part is given and the message opened. */
  lemma {:induction false} GivenAfter(cfg: Config, codec: Codec, blocks: seq<Block>, key: MessageKey, first: Json,
                                      j: nat, n: nat)
    requires cfg.signature != "" && StreamsFirst(cfg, codec, blocks, key, first, j) && j < n <= |blocks|
    ensures HeaderPart(cfg, codec, blocks[..n], key) == Some(first) && Opened(cfg, codec, blocks[..n], key)
    decreases n
  {
    hide Data, Gives, Opens, KindOf, Brought, StartsPart, Announces, BlockCarries;
    assert blocks[..n][..n - 1] == blocks[..n - 1] && blocks[..n][n - 1] == blocks[n - 1];
    if j < n - 1 {
      GivenAfter(cfg, codec, blocks, key, first, j, n - 1);
    } else {
      FreshUntil(cfg, codec, blocks, key, j);
      StreamsOpens(cfg, codec, blocks[j], key, first);
    }
  }

  lemma StreamsOpens(cfg: Config, codec: Codec, block: Block, key: MessageKey, first: Json)
    requires cfg.signature != "" && Data(codec, block).Some? && Gives(cfg, Data(codec, block).value, key) == Some(first)
    requires Brought(codec, block, key, first) != ""
    ensures Opens(cfg, Data(codec, block).value, key, None)
    ensures KindOf(Data(codec, block).value) == ItemAdded ==> first == HeaderIndex(Get(Data(codec, block).value, KItem))
  {
    hide Data, KindOfType, Signable;
    OnlyMessagesGive(cfg, Get(Data(codec, block).value, KItem), key);
  }

  /** Behind the first text nothing of the message is signed in another part. */
  lemma LaterUnsigned(cfg: Config, codec: Codec, blocks: seq<Block>, key: MessageKey, first: Json, j: nat, part: Json,
                      r: nat)
    requires cfg.signature != "" && StreamsFirst(cfg, codec, blocks, key, first, j) && r < |blocks|
    ensures PutsHeader(cfg, codec, blocks, key, part, r) ==> r == j && part == first
    ensures PutsHeader(cfg, codec, blocks, key, first, j) <==> !(cfg.signature <= Brought(codec, blocks[j], key, first))
  {
    hide Data, Gives, Opens, KindOfType, CarriesText, HeaderPart, Opened, Signable, MessageText, ItemPartText;
    FreshUntil(cfg, codec, blocks, key, j);
    StreamsOpens(cfg, codec, blocks[j], key, first);
    if r < j {
      QuietBlock(cfg, codec, blocks[r], key, part);
    } else if r > j {
      GivenAfter(cfg, codec, blocks, key, first, j, r);
      LaterBlock(cfg, codec, blocks, key, first, part, r);
    } else {
      FirstIsFor(cfg, codec, blocks[j], key, first, part);
    }
  }

  lemma LaterBlock(cfg: Config, codec: Codec, blocks: seq<Block>, key: MessageKey, first: Json, part: Json, r: nat)
    requires cfg.signature != "" && r < |blocks| && !Announces(codec, blocks[r], key)
    requires !StartsPart(codec, blocks[r], key, first)
    requires HeaderPart(cfg, codec, blocks[..r], key) == Some(first) && Opened(cfg, codec, blocks[..r], key)
    ensures !PutsHeader(cfg, codec, blocks, key, part, r)
  {
    hide Data, KindOfType, HeaderPart, Opened, MessageText, ItemPartText;
    var data := Data(codec, blocks[r]);
    if data.Some? { TextIsMessageText(cfg, Get(data.value, KItem), part); }
  }

  lemma QuietBlock(cfg: Config, codec: Codec, block: Block, key: MessageKey, part: Json)
    requires cfg.signature != "" && !BlockCarries(cfg, codec, block, key) && !Announces(codec, block, key)
    ensures Brought(codec, block, key, part) == ""
  {
    hide Opens, Gives;
    if Brought(codec, block, key, part) != "" {
      BroughtOpens(cfg, codec, block, key, part, None);
    }
  }

  lemma FirstIsFor(cfg: Config, codec: Codec, block: Block, key: MessageKey, first: Json, part: Json)
    requires Data(codec, block).Some? && Gives(cfg, Data(codec, block).value, key) == Some(first)
    ensures KindOf(Data(codec, block).value) != ItemAdded && Brought(codec, block, key, part) != "" ==> part == first
  {
    hide Data, KindOfType;
  }

  /** Then the header is shown in the first part only. */
  lemma OpensWithFirst(cfg: Config, codec: Codec, blocks: seq<Block>, key: MessageKey, first: Json, j: nat, part: Json)
    requires cfg.signature != "" && StreamsFirst(cfg, codec, blocks, key, first, j)
    ensures HeaderInFront(cfg, codec, blocks, key, part) <==>
            part == first && !(cfg.signature <= Brought(codec, blocks[j], key, first))
    ensures NoHeader(cfg, codec, blocks, key, part) <==>
            !(part == first && !(cfg.signature <= Brought(codec, blocks[j], key, first)))
  {
    hide PutsHeader, StartsPart, Shown, Brought, Data, Gives, BlockCarries, Announces;
    forall q, r | 0 <= r < |blocks|
      ensures PutsHeader(cfg, codec, blocks, key, q, r) ==> r == j && q == first
    {
      LaterUnsigned(cfg, codec, blocks, key, first, j, q, r);
    }
    LaterUnsigned(cfg, codec, blocks, key, first, j, first, j);
    if PutsHeader(cfg, codec, blocks, key, first, j) {
      assert ShowsHeader(cfg, codec, blocks, key, first, j);
      assert OnlyHeader(cfg, codec, blocks, key, first, j);
      NothingBefore(cfg, codec, blocks, key, first, j);
      assert "" + cfg.signature == cfg.signature + "";
    }
  }

  lemma NothingBefore(cfg: Config, codec: Codec, blocks: seq<Block>, key: MessageKey, first: Json, j: nat)
    requires cfg.signature != "" && StreamsFirst(cfg, codec, blocks, key, first, j)
    ensures TextBefore(codec, blocks, key, first, j) == ""
  {
    hide StartsPart, Brought, Data, Gives, BlockCarries, Announces;
    NothingBeforeUpTo(cfg, codec, blocks, key, first, j, j);
  }

  lemma {:induction false} NothingBeforeUpTo(cfg: Config, codec: Codec, blocks: seq<Block>, key: MessageKey,
                                             first: Json, j: nat, n: nat)
    requires cfg.signature != "" && StreamsFirst(cfg, codec, blocks, key, first, j) && n <= j
    ensures Shown(codec, blocks[..n], key, first) == ""
    decreases n
  {
    hide StartsPart, Brought, Data, Gives, BlockCarries, Announces, Shown;
    if n == 0 {
      assert blocks[..0] == [];
      NothingShown(cfg, codec, key, first);
    } else {
      NothingBeforeUpTo(cfg, codec, blocks, key, first, j, n - 1);
      ShownStep(codec, blocks, key, first, n);
      QuietBlock(cfg, codec, blocks[n - 1], key, first);
    }
  }

  /** In such a stream a full copy of a part equals what was shown of it exactly when the same part has the
      header in both: the part that was streamed first, unless its first piece begins with the header,
      and the part whose copy is signed, unless its text is empty or begins with the header. */
  lemma InOrderTextsAgree(cfg: Config, codec: Codec, blocks: seq<Block>, key: MessageKey, first: Json, j: nat,
                          part: Json, i: nat, place: Place)
    requires codec.Lawful() && cfg.signature != "" && i < |blocks| && Data(codec, blocks[i]).Some?
    requires Copy(Data(codec, blocks[i]).value, key, part, place) == Some(Str(Shown(codec, blocks, key, part)))
    requires StreamsFirst(cfg, codec, blocks, key, first, j) && (place == DoneField ==> j < i)
    ensures
      var out, text := Rewritten(cfg, codec, InitContext, blocks), Shown(codec, blocks, key, part);
      var signed := if place == DoneField then first
                    else HeaderIndex(CopiedItem(Data(codec, blocks[i]).value, key, place).value);
      && Data(codec, out[i]).Some?
      && (Copy(Data(codec, out[i]).value, key, part, place) == Some(Str(Shown(codec, out, key, part))) <==>
          (part == first && !(cfg.signature <= Brought(codec, blocks[j], key, first)) <==>
           part == signed && text != "" && !(cfg.signature <= text)))
  {
    hide Data, Shown, Rewritten, HeaderInFront, NoHeader, Brought, StreamsFirst, HeaderPart, HeaderIndex, CopiedItem,
         DoneText;
    MessageTextsAgree(cfg, codec, blocks, key, part, i, place);
    OpensWithFirst(cfg, codec, blocks, key, first, j, part);
    if place == DoneField { GivenAfter(cfg, codec, blocks, key, first, j, i); }
  }

  /** Finished texts of the other parts of the message stay as they came. */
  lemma OtherPartsUnsigned(cfg: Config, codec: Codec, ctx: Context, data: Json, next: Option<Json>, key: MessageKey,
                           index: Json)
    requires data.Obj? && cfg.signature != "" && HeadedAt(ctx, key, index)
    requires IsFinished(data) && MessageKeyOf(data) == key && ContentIndex(data) != index
    ensures RewriteOneData(cfg, codec, ctx, data, next) == data
  {
    hide KindOfType;
  }

  /** In an item the header goes on one part only: the first with text; every other part stays, and
      a caller that is answered without a stream sees the same message as one that is. */
  lemma OneHeaderPerItem(cfg: Config, item: Json)
    requires Signable(cfg, item)
    ensures
      var parts, signed := Elements(Get(item, KContent)), Elements(Get(RewriteItem(cfg, item), KContent));
      var n := FirstText(parts);
      && |signed| == |parts| && Get(signed[n], KText) == Str(SignText(cfg, Get(parts[n], KText).s))
      && (forall i | 0 <= i < |parts| && i != n :: signed[i] == parts[i])
    ensures RewriteItem(cfg, item) == SignItem(cfg.(marker := ""), item)
  {
    assert !IsReasoning(item);
    assert TagItem(cfg, item) == item;
  }

  /** After an added item with text, wherever it was: a delta that names the item passes as it came, and
      any other gets the header unless its message was opened. */
  lemma AddedTextThenDelta(cfg: Config, codec: Codec, blocks: seq<Block>, a: nat, i: nat)
    requires codec.Lawful() && cfg.signature != "" && a < i < |blocks|
    requires Data(codec, blocks[a]).Some? && KindOf(Data(codec, blocks[a]).value) == ItemAdded
    requires var item := Get(Data(codec, blocks[a]).value, KItem); Signable(cfg, item) && KId in item.m
    requires Data(codec, blocks[i]).Some? && KindOf(Data(codec, blocks[i]).value) == TextDelta
    ensures
      var item, delta := Get(Data(codec, blocks[a]).value, KItem), Data(codec, blocks[i]).value;
      var out := Rewritten(cfg, codec, InitContext, blocks);
      && Data(codec, out[a]).Some? && Get(Data(codec, out[a]).value, KItem) == SignItem(cfg, item)
      && Data(codec, out[i]).Some?
      && Get(Data(codec, out[i]).value, KDelta) ==
         if MessageKeyOf(delta) == ById(Get(item, KId)) || Opened(cfg, codec, blocks[..i], MessageKeyOf(delta)) then
           Get(delta, KDelta)
         else Sign(cfg, Get(delta, KDelta))
    ensures a == 0 && i == 1 ==>
              (Opened(cfg, codec, blocks[..i], MessageKeyOf(Data(codec, blocks[i]).value)) <==>
               MessageKeyOf(Data(codec, blocks[i]).value) == ById(Get(Get(Data(codec, blocks[a]).value, KItem), KId)))
  {
    hide Data, KindOfType, RewriteOne, RewriteOneData, Sign, SignItem, Signable, ContextAfter, Opened, Opens;
    var added := Data(codec, blocks[a]).value;
    var id := ById(Get(Get(added, KItem), KId));
    var ctx := ContextAfter(cfg, codec, InitContext, blocks[..a]);
    DeltaLeavesSigned(cfg, codec, blocks, i);
    RewrittenAt(cfg, codec, InitContext, blocks, a);
    RewriteOneIs(cfg, codec, ctx, blocks[a], NextData(codec, blocks[a + 1..]));
    AddedItemIs(cfg, codec, ctx, added, NextData(codec, blocks[a + 1..]));
    OpenedThen(cfg, codec, blocks, id, a, i);
    if a == 0 && i == 1 { OpenedByOne(cfg, codec, blocks, MessageKeyOf(Data(codec, blocks[i]).value)); }
  }

  lemma AddedItemIs(cfg: Config, codec: Codec, ctx: Context, data: Json, next: Option<Json>)
    requires data.Obj? && KindOf(data) == ItemAdded && Signable(cfg, Get(data, KItem))
    ensures Get(RewriteOneData(cfg, codec, ctx, data, next), KItem) == SignItem(cfg, Get(data, KItem))
    ensures forall key, given :: Opens(cfg, data, key, given) <==> key == ById(Get(Get(data, KItem), KId))
  {
    hide KindOfType, SignItem;
  }

  lemma {:induction false} OpenedThen(cfg: Config, codec: Codec, blocks: seq<Block>, key: MessageKey, a: nat, n: nat)
    requires a < n <= |blocks| && Data(codec, blocks[a]).Some?
    requires forall given :: Opens(cfg, Data(codec, blocks[a]).value, key, given)
    ensures Opened(cfg, codec, blocks[..n], key)
    decreases n
  {
    hide Data, Opens;
    assert blocks[..n][..n - 1] == blocks[..n - 1] && blocks[..n][n - 1] == blocks[n - 1];
    if a < n - 1 { OpenedThen(cfg, codec, blocks, key, a, n - 1); }
  }

  lemma OpenedByOne(cfg: Config, codec: Codec, blocks: seq<Block>, key: MessageKey)
    requires blocks != [] && Data(codec, blocks[0]).Some?
    ensures Opened(cfg, codec, blocks[..1], key) <==> Opens(cfg, Data(codec, blocks[0]).value, key, None)
  {
    hide Data, Opens;
    assert blocks[..1][..0] == [] && blocks[..1][0] == blocks[0];
    assert !Opened(cfg, codec, [], key) && HeaderPart(cfg, codec, [], key) == None;
  }

  /** A finished text, of whatever type its part is, reasoning content included: it leaves with the
      header exactly when no earlier event gave the header of its message to another part. */
  lemma FinishedTextHeaded(cfg: Config, codec: Codec, blocks: seq<Block>, i: nat)
    requires codec.Lawful() && cfg.signature != "" && i < |blocks|
    requires Data(codec, blocks[i]).Some? && IsFinished(Data(codec, blocks[i]).value)
    requires NonEmptyStr(DoneText(Data(codec, blocks[i]).value))
    ensures
      var data, out := Data(codec, blocks[i]).value, Data(codec, Rewritten(cfg, codec, InitContext, blocks)[i]);
      var given := HeaderPart(cfg, codec, blocks[..i], MessageKeyOf(data));
      out == Some(if given == None || given == Some(ContentIndex(data)) then
                    PutDoneText(data, Str(SignText(cfg, DoneText(data).s)))
                  else data)
  {
    hide Data, KindOfType, RewriteOne, ContextAfter, HeaderPart, DoneText, PutDoneText;
    var data := Data(codec, blocks[i]).value;
    var ctx := ContextAfter(cfg, codec, InitContext, blocks[..i]);
    ContextKnowsHeaderPart(cfg, codec, blocks[..i], MessageKeyOf(data));
    RewrittenAt(cfg, codec, InitContext, blocks, i);
    RewriteOneIs(cfg, codec, ctx, blocks[i], NextData(codec, blocks[i + 1..]));
    FinishedIs(cfg, codec, ctx, data, NextData(codec, blocks[i + 1..]));
  }

  lemma FinishedIs(cfg: Config, codec: Codec, ctx: Context, data: Json, next: Option<Json>)
    requires data.Obj? && IsFinished(data) && NonEmptyStr(DoneText(data)) && cfg.signature != ""
    ensures
      var given := At(ctx.headerParts, MessageKeyOf(data));
      RewriteOneData(cfg, codec, ctx, data, next) ==
        if given == None || given == Some(ContentIndex(data)) then
          PutDoneText(data, Str(SignText(cfg, DoneText(data).s)))
        else data
  {
    hide KindOfType;
    var text := DoneText(data);
    if Sign(cfg, text) == text { PutSameText(data); }
  }

  lemma PutSameText(data: Json)
    requires data.Obj? && NonEmptyStr(DoneText(data))
    ensures PutDoneText(data, DoneText(data)) == data
  {
    var part := Get(data, KPart);
    if part.Obj? {
      assert part.m[KText := part.m[KText]] == part.m && data.m[KPart := part] == data.m;
    } else {
      assert data.m[KText := data.m[KText]] == data.m;
    }
  }

  /** No other event puts the header on anything but an output text or the streamed delta of one:
      not on reasoning content, not on tool arguments; and events of no interest pass unchanged. */
  lemma OnlyOutputTextHeaded(cfg: Config, codec: Codec, ctx: Context, data: Json, next: Option<Json>)
    requires data.Obj? && !IsFinished(data)
    ensures Decorated(cfg, false, Repaired(ctx, data), RewriteOneData(cfg, codec, ctx, data, next))
    ensures KindOf(data) == OtherKind ==> RewriteOneData(cfg, codec, ctx, data, next) == data
  {
    hide KindOfType, Decorated, Edit, Closes;
    EditDecorates(cfg, ctx, data);
    DecoratedRefl(cfg, false, data);
    TagDeltaDecorates(cfg, false, data);
    EditNoneKeeps(cfg, ctx, data);
    NoEdit(cfg, ctx, data);
  }

  lemma NoEdit(cfg: Config, ctx: Context, data: Json)
    requires data.Obj?
    ensures KindOf(data) == OtherKind ==> Edit(cfg, ctx, data) == None
  {
    hide KindOfType;
  }
}
