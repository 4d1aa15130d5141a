/** Reasoning summaries: the streamed deltas agree with every later full copy of the text. */
module SummaryAgreement {
  import opened Json
  import opened MarkerSpec
  import opened MarkerOrder
  import opened Insertions

  // ---------------------------------------------------------------- streamed text

  predicate IsDeltaOf(codec: Codec, block: Block, key: SummaryKey) {
    var data := Data(codec, block);
    IsHeldKind(data) && SummaryKeyOf(data.value) == key
  }

  /** What a block adds to the streamed text of a summary part. */
  function DeltaOf(codec: Codec, block: Block, key: SummaryKey): string {
    if IsDeltaOf(codec, block, key) && Get(Data(codec, block).value, KDelta).Str? then
      Get(Data(codec, block).value, KDelta).s
    else ""
  }

  /** The text a client concatenates for a summary part. */
  function Streamed(codec: Codec, blocks: seq<Block>, key: SummaryKey): string {
    if blocks == [] then "" else DeltaOf(codec, blocks[0], key) + Streamed(codec, blocks[1..], key)
  }

  /** Block `i` is a delta of the part, and the very next block closes the part. */
  predicate ClosedNext(codec: Codec, blocks: seq<Block>, key: SummaryKey, i: nat)
    requires i < |blocks|
  {
    IsDeltaOf(codec, blocks[i], key) && Closes(key, NextData(codec, blocks[i + 1..]))
  }

  lemma {:induction false} StreamedConcat(codec: Codec, a: seq<Block>, b: seq<Block>, key: SummaryKey)
    ensures Streamed(codec, a + b, key) == Streamed(codec, a, key) + Streamed(codec, b, key)
    decreases |a|
  {
    hide DeltaOf;
    if a == [] {
      assert a + b == b;
    } else {
      StreamedConcat(codec, a[1..], b, key);
      assert (a + b)[1..] == a[1..] + b;
    }
  }

  lemma StreamedAround(codec: Codec, blocks: seq<Block>, key: SummaryKey, j: nat)
    requires j < |blocks|
    ensures Streamed(codec, blocks, key) ==
            Streamed(codec, blocks[..j], key) + DeltaOf(codec, blocks[j], key) + Streamed(codec, blocks[j + 1..], key)
  {
    hide DeltaOf;
    assert blocks == blocks[..j] + ([blocks[j]] + blocks[j + 1..]);
    StreamedConcat(codec, blocks[..j], [blocks[j]] + blocks[j + 1..], key);
    StreamedConcat(codec, [blocks[j]], blocks[j + 1..], key);
    assert [blocks[j]][1..] == [];
  }

  /** A delta is tagged exactly when the next block closes its part. */
  lemma DeltaAfter(cfg: Config, codec: Codec, ctx: Context, blocks: seq<Block>, key: SummaryKey, i: nat)
    requires codec.Lawful() && i < |blocks|
    ensures
      var out := Rewritten(cfg, codec, ctx, blocks)[i];
      DeltaOf(codec, out, key) ==
        if ClosedNext(codec, blocks, key, i) && DeltaOf(codec, blocks[i], key) != "" then
          Tag(cfg, Str(DeltaOf(codec, blocks[i], key))).s
        else DeltaOf(codec, blocks[i], key)
  {
    hide KindOfType, Data, Edit, Decorated, Closes, Rebuild, Contains;
    RewrittenAt(cfg, codec, ctx, blocks, i);
    var here := ContextAfter(cfg, codec, ctx, blocks[..i]);
    var next := NextData(codec, blocks[i + 1..]);
    RewriteOneKeepsShape(cfg, codec, here, blocks[i], next);
    var data := Data(codec, blocks[i]);
    if IsHeldKind(data) {
      RewriteOneIs(cfg, codec, here, blocks[i], next);
    }
  }

  // ---------------------------------------------------------------- full copies

  /** The places where later events repeat the whole text of a summary part. */
  datatype Place =
    | DoneField                              // reasoning_summary_text.done
    | PartField                              // reasoning_summary_part.done
    | ItemField(part: nat)                   // output_item.done
    | OutputField(item: nat, part: nat)      // the terminal response

  function TextOf(part: Json): Option<Json> {
    if part.Obj? && KText in part.m then Some(part.m[KText]) else None
  }

  function SummaryPart(item: Json, n: nat): Option<Json> {
    var parts := Elements(Get(item, KSummary));
    if IsReasoning(item) && n < |parts| then TextOf(parts[n]) else None
  }

  /** The copy of the text at a place of an event, if the event has one. */
  function Copy(data: Json, place: Place): Option<Json> {
    var kind := KindOf(data);
    match place
    case DoneField => if kind == SummaryTextDone then TextOf(data) else None
    case PartField => if kind == SummaryPartDone then TextOf(Get(data, KPart)) else None
    case ItemField(n) => if kind == ItemDone then SummaryPart(Get(data, KItem), n) else None
    case OutputField(i, n) =>
      var items := Elements(Get(Get(data, KResponse), KOutput));
      if kind == Terminal && i < |items| then SummaryPart(items[i], n) else None
  }

  function TagCopy(cfg: Config, copy: Option<Json>): Option<Json> {
    if copy.Some? then Some(Tag(cfg, copy.value)) else None
  }

  lemma TaggedPart(cfg: Config, item: Json, n: nat)
    ensures SummaryPart(RewriteItem(cfg, item), n) == TagCopy(cfg, SummaryPart(item, n))
  {
    hide Tag;
    var tagged := TagItem(cfg, item);
    if IsReasoning(item) {
      assert SignItem(cfg, tagged) == tagged;
    } else {
      assert tagged == item;
      assert !IsReasoning(SignItem(cfg, item));
    }
  }

  /** Every full copy is tagged where it stands. */
  lemma CopiesTagged(cfg: Config, codec: Codec, ctx: Context, data: Json, next: Option<Json>, place: Place)
    requires data.Obj?
    ensures Copy(RewriteOneData(cfg, codec, ctx, data, next), place) == TagCopy(cfg, Copy(data, place)) ||
            Copy(data, place).None?
  {
    hide KindOfType, Tag, RewriteItem, SummaryPart, SignDone;
    var d := RewriteOneData(cfg, codec, ctx, data, next);
    if Copy(data, place).Some? {
      SameType(cfg, codec, ctx, data, next);
      match place
      case DoneField =>
      case PartField =>
        assert Get(TagText(cfg, data), KPart) == Get(data, KPart);
      case ItemField(n) =>
        TaggedPart(cfg, Get(data, KItem), n);
        ReasoningOnly(Get(data, KItem), n);
      case OutputField(i, n) =>
        var moved := SetResponseId(ctx.responseId, data);
        assert Elements(Get(Get(moved, KResponse), KOutput)) == Elements(Get(Get(data, KResponse), KOutput));
        TaggedPart(cfg, Elements(Get(Get(data, KResponse), KOutput))[i], n);
    }
  }

  lemma ReasoningOnly(item: Json, n: nat)
    ensures SummaryPart(item, n).Some? ==> IsReasoning(item)
  {
  }

  // ---------------------------------------------------------------- which deltas are tagged

  /** The delta leaves with the tag: it is not empty, does not hold the tag itself, and the very
      next block closes its part. */
  predicate TaggedDelta(cfg: Config, codec: Codec, blocks: seq<Block>, key: SummaryKey, j: nat)
    requires j < |blocks|
  {
    var delta := DeltaOf(codec, blocks[j], key);
    ClosedNext(codec, blocks, key, j) && delta != "" && !Contains(delta, cfg.marker)
  }

  function DeltaPieces(delta: string, tagged: bool): seq<Piece> {
    if tagged then [Text(delta), Mark] else [Text(delta)]
  }

  /** The streamed deltas, with a mark behind each that is tagged. */
  function TagPieces(cfg: Config, codec: Codec, blocks: seq<Block>, key: SummaryKey): seq<Piece> {
    if blocks == [] then []
    else
      DeltaPieces(DeltaOf(codec, blocks[0], key), TaggedDelta(cfg, codec, blocks, key, 0)) +
      TagPieces(cfg, codec, blocks[1..], key)
  }

  lemma DeltaPiecesAre(delta: string, tagged: bool, w: string)
    ensures Bare(DeltaPieces(delta, tagged)) == delta
    ensures Marked(DeltaPieces(delta, tagged), w) == if tagged then delta + w else delta
    ensures Marks(DeltaPieces(delta, tagged)) == if tagged then 1 else 0
  {
    hide Bare, Marked, Marks;
    One(Text(delta), w);
    One(Mark, w);
    Append([Text(delta)], [Mark], w);
    assert [Text(delta)] + [Mark] == [Text(delta), Mark] && delta + "" == delta;
  }

  lemma {:induction false} TagPiecesAre(cfg: Config, codec: Codec, ctx: Context, blocks: seq<Block>, key: SummaryKey)
    requires codec.Lawful()
    ensures Bare(TagPieces(cfg, codec, blocks, key)) == Streamed(codec, blocks, key)
    ensures Marked(TagPieces(cfg, codec, blocks, key), cfg.marker) ==
            Streamed(codec, Rewritten(cfg, codec, ctx, blocks), key)
    decreases |blocks|
  {
    hide DeltaOf, TaggedDelta, StepContext, RewriteOne, Bare, Marked, DeltaPieces;
    if blocks == [] {
      NothingMarked(cfg.marker);
    } else {
      var delta, tagged := DeltaOf(codec, blocks[0], key), TaggedDelta(cfg, codec, blocks, key, 0);
      TagPiecesAre(cfg, codec, StepContext(cfg, ctx, Data(codec, blocks[0])), blocks[1..], key);
      FirstDelta(cfg, codec, ctx, blocks, key);
      DeltaPiecesAre(delta, tagged, cfg.marker);
      Append(DeltaPieces(delta, tagged), TagPieces(cfg, codec, blocks[1..], key), cfg.marker);
    }
  }

  lemma NothingMarked(w: string)
    ensures Bare([]) == "" && Marked([], w) == "" && Marks([]) == 0
  {
  }

  lemma FirstDelta(cfg: Config, codec: Codec, ctx: Context, blocks: seq<Block>, key: SummaryKey)
    requires codec.Lawful() && blocks != []
    ensures
      var delta := DeltaOf(codec, blocks[0], key);
      DeltaOf(codec, Rewritten(cfg, codec, ctx, blocks)[0], key) ==
        if TaggedDelta(cfg, codec, blocks, key, 0) then delta + cfg.marker else delta
  {
    hide DeltaOf, Contains, ClosedNext, Rewritten;
    DeltaAfter(cfg, codec, ctx, blocks, key, 0);
  }

  lemma TaggedLater(cfg: Config, codec: Codec, blocks: seq<Block>, key: SummaryKey, j: nat)
    requires 0 < j < |blocks|
    ensures TaggedDelta(cfg, codec, blocks[1..], key, j - 1) == TaggedDelta(cfg, codec, blocks, key, j)
  {
    hide DeltaOf, Closes, IsDeltaOf, Contains;
    assert blocks[1..][j..] == blocks[j + 1..];
  }

  /** No delta is tagged. */
  predicate NoTag(cfg: Config, codec: Codec, blocks: seq<Block>, key: SummaryKey) {
    forall j | 0 <= j < |blocks| :: !TaggedDelta(cfg, codec, blocks, key, j)
  }

  /** Delta `j` is tagged and no other. */
  predicate OnlyTag(cfg: Config, codec: Codec, blocks: seq<Block>, key: SummaryKey, j: nat) {
    && j < |blocks| && TaggedDelta(cfg, codec, blocks, key, j)
    && forall i | 0 <= i < |blocks| && i != j :: !TaggedDelta(cfg, codec, blocks, key, i)
  }

  lemma {:induction false} NoTagNoMark(cfg: Config, codec: Codec, blocks: seq<Block>, key: SummaryKey)
    ensures NoTag(cfg, codec, blocks, key) <==> Marks(TagPieces(cfg, codec, blocks, key)) == 0
    decreases |blocks|
  {
    hide TaggedDelta, DeltaOf;
    if blocks != [] {
      NoTagNoMark(cfg, codec, blocks[1..], key);
      MarksStep(cfg, codec, blocks, key);
      forall j | 0 < j < |blocks|
        ensures TaggedDelta(cfg, codec, blocks[1..], key, j - 1) == TaggedDelta(cfg, codec, blocks, key, j)
      {
        TaggedLater(cfg, codec, blocks, key, j);
      }
      if !NoTag(cfg, codec, blocks[1..], key) {
        var i :| 0 <= i < |blocks[1..]| && TaggedDelta(cfg, codec, blocks[1..], key, i);
        assert TaggedDelta(cfg, codec, blocks, key, i + 1);
      }
    }
  }

  lemma MarksStep(cfg: Config, codec: Codec, blocks: seq<Block>, key: SummaryKey)
    requires blocks != []
    ensures Marks(TagPieces(cfg, codec, blocks, key)) ==
            (if TaggedDelta(cfg, codec, blocks, key, 0) then 1 else 0) + Marks(TagPieces(cfg, codec, blocks[1..], key))
  {
    hide TaggedDelta, DeltaOf;
    var delta, tagged := DeltaOf(codec, blocks[0], key), TaggedDelta(cfg, codec, blocks, key, 0);
    DeltaPiecesAre(delta, tagged, "");
    MarksConcat(DeltaPieces(delta, tagged), TagPieces(cfg, codec, blocks[1..], key));
  }

  /** The first tagged delta splits the pieces. */
  lemma {:induction false} SplitAtTag(cfg: Config, codec: Codec, blocks: seq<Block>, key: SummaryKey, j: nat)
    returns (front: seq<Piece>)
    requires j < |blocks| && TaggedDelta(cfg, codec, blocks, key, j)
    requires forall i | 0 <= i < j :: !TaggedDelta(cfg, codec, blocks, key, i)
    ensures Marks(front) == 0
    ensures TagPieces(cfg, codec, blocks, key) == front + ([Mark] + TagPieces(cfg, codec, blocks[j + 1..], key))
    decreases j
  {
    hide TaggedDelta, DeltaOf, Marks;
    var delta := Text(DeltaOf(codec, blocks[0], key));
    One(delta, "");
    if j == 0 {
      front := [delta];
    } else {
      var tail := blocks[1..];
      forall i | 0 <= i < |tail|
        ensures TaggedDelta(cfg, codec, tail, key, i) == TaggedDelta(cfg, codec, blocks, key, i + 1)
      {
        TaggedLater(cfg, codec, blocks, key, i + 1);
      }
      var rest := SplitAtTag(cfg, codec, tail, key, j - 1);
      front := [delta] + rest;
      MarksConcat([delta], rest);
      assert tail[j..] == blocks[j + 1..];
      var after := [Mark] + TagPieces(cfg, codec, blocks[j + 1..], key);
      assert [delta] + (rest + after) == front + after;
    }
  }

  lemma OnlyTagOneMark(cfg: Config, codec: Codec, blocks: seq<Block>, key: SummaryKey, j: nat)
    returns (front: seq<Piece>)
    requires OnlyTag(cfg, codec, blocks, key, j)
    ensures Marks(front) == 0 && Marks(TagPieces(cfg, codec, blocks[j + 1..], key)) == 0
    ensures TagPieces(cfg, codec, blocks, key) == front + ([Mark] + TagPieces(cfg, codec, blocks[j + 1..], key))
  {
    hide TaggedDelta, TagPieces;
    front := SplitAtTag(cfg, codec, blocks, key, j);
    var tail := blocks[j + 1..];
    forall i | 0 <= i < |tail| ensures !TaggedDelta(cfg, codec, tail, key, i) {
      TaggedFrom(cfg, codec, blocks, key, j + 1, i);
    }
    NoTagNoMark(cfg, codec, tail, key);
  }

  lemma TaggedFrom(cfg: Config, codec: Codec, blocks: seq<Block>, key: SummaryKey, n: nat, i: nat)
    requires n + i < |blocks|
    ensures TaggedDelta(cfg, codec, blocks[n..], key, i) == TaggedDelta(cfg, codec, blocks, key, n + i)
  {
    hide DeltaOf, Closes, IsDeltaOf, Contains;
    assert blocks[n..][i + 1..] == blocks[n + i + 1..];
  }

  /** Exactly one mark belongs to exactly one tagged delta. */
  lemma OneMarkOnlyTag(cfg: Config, codec: Codec, blocks: seq<Block>, key: SummaryKey) returns (j: nat)
    requires Marks(TagPieces(cfg, codec, blocks, key)) == 1
    ensures OnlyTag(cfg, codec, blocks, key, j)
  {
    hide TaggedDelta, TagPieces;
    NoTagNoMark(cfg, codec, blocks, key);
    j := FirstTag(cfg, codec, blocks, key);
    var front := SplitAtTag(cfg, codec, blocks, key, j);
    var rest := TagPieces(cfg, codec, blocks[j + 1..], key);
    MarksConcat([Mark], rest);
    MarksConcat(front, [Mark] + rest);
    One(Mark, "");
    NoTagNoMark(cfg, codec, blocks[j + 1..], key);
    forall i | 0 <= i < |blocks| && i != j ensures !TaggedDelta(cfg, codec, blocks, key, i) {
      if i > j {
        TaggedFrom(cfg, codec, blocks, key, j + 1, i - j - 1);
        assert !TaggedDelta(cfg, codec, blocks[j + 1..], key, i - j - 1);
      }
    }
  }

  lemma FirstTag(cfg: Config, codec: Codec, blocks: seq<Block>, key: SummaryKey) returns (j: nat)
    requires !NoTag(cfg, codec, blocks, key)
    ensures j < |blocks| && TaggedDelta(cfg, codec, blocks, key, j)
    ensures forall i | 0 <= i < j :: !TaggedDelta(cfg, codec, blocks, key, i)
  {
    hide TaggedDelta;
    j := 0;
    while !TaggedDelta(cfg, codec, blocks, key, j)
      invariant j < |blocks| && forall i | 0 <= i < j :: !TaggedDelta(cfg, codec, blocks, key, i)
      decreases |blocks| - j
    {
      j := j + 1;
    }
  }

  /** The tag stands behind the streamed text: one delta is tagged, and the tag commutes with what
      is streamed behind it (nothing, as a rule). */
  predicate TagBehind(cfg: Config, codec: Codec, blocks: seq<Block>, key: SummaryKey) {
    exists j: nat | j < |blocks| ::
      OnlyTag(cfg, codec, blocks, key, j) &&
      cfg.marker + Streamed(codec, blocks[j + 1..], key) == Streamed(codec, blocks[j + 1..], key) + cfg.marker
  }

  /** What the client concatenates, for any stream: the text exactly when no delta is tagged, and the
      text with one tag behind it exactly when `TagBehind` says. */
  lemma StreamedAfter(cfg: Config, codec: Codec, ctx: Context, blocks: seq<Block>, key: SummaryKey)
    requires codec.Lawful()
    ensures
      var text, out := Streamed(codec, blocks, key), Streamed(codec, Rewritten(cfg, codec, ctx, blocks), key);
      && (out == text <==> NoTag(cfg, codec, blocks, key))
      && (cfg.marker != "" ==> (out == text + cfg.marker <==> TagBehind(cfg, codec, blocks, key)))
  {
    hide DeltaOf, TaggedDelta, TagPieces, Rewritten, Streamed, Marked, Bare;
    var ps := TagPieces(cfg, codec, blocks, key);
    TagPiecesAre(cfg, codec, ctx, blocks, key);
    NoTagNoMark(cfg, codec, blocks, key);
    if cfg.marker == "" {
      EmptyNeverTags(cfg, codec, blocks, key);
      Lengths(ps, "");
    } else {
      Unmarked(ps, cfg.marker);
      ByOne(ps, cfg.marker);
      if Marked(ps, cfg.marker) == Bare(ps) + cfg.marker {
        var j := OneMarkOnlyTag(cfg, codec, blocks, key);
        TagCommutes(cfg, codec, ctx, blocks, key, j);
      }
      if TagBehind(cfg, codec, blocks, key) {
        var j: nat :| j < |blocks| && OnlyTag(cfg, codec, blocks, key, j) &&
          cfg.marker + Streamed(codec, blocks[j + 1..], key) == Streamed(codec, blocks[j + 1..], key) + cfg.marker;
        TagCommutes(cfg, codec, ctx, blocks, key, j);
      }
    }
  }

  lemma TagCommutes(cfg: Config, codec: Codec, ctx: Context, blocks: seq<Block>, key: SummaryKey, j: nat)
    requires codec.Lawful() && OnlyTag(cfg, codec, blocks, key, j)
    ensures
      var ps, rest := TagPieces(cfg, codec, blocks, key), Streamed(codec, blocks[j + 1..], key);
      Marked(ps, cfg.marker) == Bare(ps) + cfg.marker <==> cfg.marker + rest == rest + cfg.marker
  {
    hide TagPieces, Streamed, TaggedDelta, Marked, Bare;
    var front := OnlyTagOneMark(cfg, codec, blocks, key, j);
    OneMark(front, TagPieces(cfg, codec, blocks[j + 1..], key), cfg.marker);
    TagPiecesAre(cfg, codec, ctx, blocks[j + 1..], key);
  }

  lemma EmptyNeverTags(cfg: Config, codec: Codec, blocks: seq<Block>, key: SummaryKey)
    requires cfg.marker == ""
    ensures NoTag(cfg, codec, blocks, key)
  {
    hide Contains, DeltaOf;
    MarkerMatters(cfg, "");
  }

  // ---------------------------------------------------------------- agreement

  /** A full copy of the text carries the tag unless it is empty or holds the tag already. It equals
      what the client concatenated exactly when such a text was streamed without any tag, and any
      other with a single one behind it. */
  lemma SummaryTextsAgree(cfg: Config, codec: Codec, ctx: Context, blocks: seq<Block>, key: SummaryKey,
                          i: nat, place: Place)
    requires codec.Lawful() && i < |blocks| && Data(codec, blocks[i]).Some?
    requires Copy(Data(codec, blocks[i]).value, place) == Some(Str(Streamed(codec, blocks, key)))
    ensures
      var out := Rewritten(cfg, codec, ctx, blocks);
      var text := Streamed(codec, blocks, key);
      var asIs := text == "" || Contains(text, cfg.marker);
      && Data(codec, out[i]).Some?
      && Copy(Data(codec, out[i]).value, place) == Some(Str(if asIs then text else text + cfg.marker))
      && (Copy(Data(codec, out[i]).value, place) == Some(Str(Streamed(codec, out, key))) <==>
          if asIs then NoTag(cfg, codec, blocks, key) else TagBehind(cfg, codec, blocks, key))
  {
    hide Copy, Data, Streamed, Contains, NoTag, TagBehind, RewriteOne, RewriteOneData;
    StreamedAfter(cfg, codec, ctx, blocks, key);
    MarkerMatters(cfg, Streamed(codec, blocks, key));
    RewrittenAt(cfg, codec, ctx, blocks, i);
    var here := ContextAfter(cfg, codec, ctx, blocks[..i]);
    var next := NextData(codec, blocks[i + 1..]);
    RewriteOneIs(cfg, codec, here, blocks[i], next);
    CopiesTagged(cfg, codec, here, Data(codec, blocks[i]).value, next, place);
  }

  /** An empty marker is part of every text, and any other changes what it is appended to. */
  lemma MarkerMatters(cfg: Config, text: string)
    ensures text + cfg.marker == text ==> Contains(text, cfg.marker)
    ensures cfg.marker == "" ==> forall delta :: Contains(delta, cfg.marker)
  {
    if text + cfg.marker == text {
      assert |cfg.marker| == 0;
      assert OccursAt(text, cfg.marker, 0);
    }
    if cfg.marker == "" {
      forall delta ensures Contains(delta, cfg.marker) {
        assert OccursAt(delta, cfg.marker, 0);
      }
    }
  }

  // ---------------------------------------------------------------- streams that close a part once

  /** Block `j` is the last delta of the part, and no earlier delta stands right before a closing event. */
  ghost predicate LastDelta(codec: Codec, blocks: seq<Block>, key: SummaryKey, j: nat) {
    && j < |blocks| && IsDeltaOf(codec, blocks[j], key)
    && (forall i | j < i < |blocks| :: !IsDeltaOf(codec, blocks[i], key))
    && (forall i: nat | i < j :: !ClosedNext(codec, blocks, key, i))
  }

  /** In a stream that closes the part once, behind its deltas, only the last delta matters. */
  lemma LastDeltaDecides(cfg: Config, codec: Codec, blocks: seq<Block>, key: SummaryKey, j: nat)
    requires LastDelta(codec, blocks, key, j)
    ensures NoTag(cfg, codec, blocks, key) <==> !TaggedDelta(cfg, codec, blocks, key, j)
    ensures TagBehind(cfg, codec, blocks, key) <==> TaggedDelta(cfg, codec, blocks, key, j)
  {
    hide DeltaOf, Contains, Closes, Streamed;
    NothingAfter(codec, blocks[j + 1..], key);
    forall i | 0 <= i < |blocks| && i != j ensures !TaggedDelta(cfg, codec, blocks, key, i) {
      ClosedIsDelta(codec, blocks, key, i);
    }
    assert cfg.marker + "" == "" + cfg.marker;
    if TaggedDelta(cfg, codec, blocks, key, j) {
      assert OnlyTag(cfg, codec, blocks, key, j);
    }
  }

  lemma ClosedIsDelta(codec: Codec, blocks: seq<Block>, key: SummaryKey, i: nat)
    requires i < |blocks|
    ensures ClosedNext(codec, blocks, key, i) ==> IsDeltaOf(codec, blocks[i], key)
  {
  }

  lemma {:induction false} NothingAfter(codec: Codec, blocks: seq<Block>, key: SummaryKey)
    requires forall i | 0 <= i < |blocks| :: !IsDeltaOf(codec, blocks[i], key)
    ensures Streamed(codec, blocks, key) == ""
    decreases |blocks|
  {
    hide IsDeltaOf;
    if blocks != [] {
      NothingAfter(codec, blocks[1..], key);
    }
  }

  /** There the texts agree exactly when a text that carries the tag already was streamed untagged, or
      the last delta of any other text is not empty and directly closed. */
  lemma ClosedOnceAgrees(cfg: Config, codec: Codec, ctx: Context, blocks: seq<Block>, key: SummaryKey, j: nat,
                         i: nat, place: Place)
    requires codec.Lawful() && LastDelta(codec, blocks, key, j)
    requires i < |blocks| && Data(codec, blocks[i]).Some?
    requires Copy(Data(codec, blocks[i]).value, place) == Some(Str(Streamed(codec, blocks, key)))
    ensures
      var out := Rewritten(cfg, codec, ctx, blocks);
      var text, delta := Streamed(codec, blocks, key), DeltaOf(codec, blocks[j], key);
      && Data(codec, out[i]).Some?
      && (Copy(Data(codec, out[i]).value, place) == Some(Str(Streamed(codec, out, key))) <==>
          if text == "" || Contains(text, cfg.marker) then !TaggedDelta(cfg, codec, blocks, key, j)
          else ClosedNext(codec, blocks, key, j) && delta != "")
  {
    hide Copy, Data, Streamed, Contains, NoTag, TagBehind, DeltaOf, ClosedNext, Rewritten;
    SummaryTextsAgree(cfg, codec, ctx, blocks, key, i, place);
    LastDeltaDecides(cfg, codec, blocks, key, j);
    DeltaInside(cfg, codec, blocks, key, j);
  }

  lemma DeltaInside(cfg: Config, codec: Codec, blocks: seq<Block>, key: SummaryKey, j: nat)
    requires j < |blocks|
    ensures Contains(DeltaOf(codec, blocks[j], key), cfg.marker) ==> Contains(Streamed(codec, blocks, key), cfg.marker)
  {
    hide DeltaOf, Contains, Streamed;
    StreamedAround(codec, blocks, key, j);
    if !Contains(Streamed(codec, blocks, key), cfg.marker) {
      OccursInside(Streamed(codec, blocks, key), Streamed(codec, blocks[..j], key), DeltaOf(codec, blocks[j], key),
                   Streamed(codec, blocks[j + 1..], key), cfg.marker);
    }
  }

  lemma OccursInside(text: string, before: string, part: string, after: string, marker: string)
    requires text == before + part + after && !Contains(text, marker)
    ensures !Contains(part, marker)
  {
    forall i: nat | 0 <= i <= |part| ensures !OccursAt(part, marker, i) {
      if OccursAt(part, marker, i) {
        assert text[|before| + i..|before| + i + |marker|] == part[i..i + |marker|];
        assert OccursAt(text, marker, |before| + i);
        assert Contains(text, marker);
      }
    }
  }

  // ---------------------------------------------------------------- streams that disagree

  const R_KEY := SummaryKey(Str("r"), Num(0))

  function DeltaEvent(delta: string): Json {
    Obj(map[KType := Str("response.reasoning_summary_text.delta"), KItemId := Str("r"), KSummaryIndex := Num(0),
            KDelta := Str(delta)])
  }

  function DoneEvent(text: string): Json {
    Obj(map[KType := Str("response.reasoning_summary_text.done"), KItemId := Str("r"), KSummaryIndex := Num(0),
            KText := Str(text)])
  }

  lemma DeltaEventIs(codec: Codec, text: string)
    requires codec.Lawful()
    ensures Data(codec, BlockOf(codec, DeltaEvent(text))) == Some(DeltaEvent(text))
    ensures KindOf(DeltaEvent(text)) == SummaryDelta && SummaryKeyOf(DeltaEvent(text)) == R_KEY
    ensures DeltaOf(codec, BlockOf(codec, DeltaEvent(text)), R_KEY) == text
  {
    hide BlockOf, Data;
    DataOfBlock(codec, DeltaEvent(text));
  }

  lemma DoneEventIs(codec: Codec, text: string)
    requires codec.Lawful()
    ensures Data(codec, BlockOf(codec, DoneEvent(text))) == Some(DoneEvent(text))
    ensures KindOf(DoneEvent(text)) == SummaryTextDone && Closes(R_KEY, Some(DoneEvent(text)))
    ensures !IsDeltaOf(codec, BlockOf(codec, DoneEvent(text)), R_KEY)
    ensures Copy(DoneEvent(text), DoneField) == Some(Str(text))
  {
    hide BlockOf, Data;
    DataOfBlock(codec, DoneEvent(text));
  }

  /** The last delta is empty: the client shows "a", the full copy is "a" with the tag. */
  lemma EmptyLastDelta(codec: Codec)
    requires codec.Lawful()
    ensures
      var cfg := Config(" tag ", "");
      var blocks := [BlockOf(codec, DeltaEvent("a")), BlockOf(codec, DeltaEvent("")), BlockOf(codec, DoneEvent("a"))];
      var out := Rewritten(cfg, codec, InitContext, blocks);
      && Streamed(codec, out, R_KEY) == "a"
      && Data(codec, out[2]).Some? && Copy(Data(codec, out[2]).value, DoneField) == Some(Str("a tag "))
  {
    hide Streamed, Rewritten, Copy, Data, Contains, BlockOf, DeltaEvent, DoneEvent;
    var cfg := Config(" tag ", "");
    TwoDeltas(cfg, codec, "a", "");
    assert "a" + "" == "a" && "a" + " tag " == "a tag ";
    NotInside("a", " tag ");
  }

  /** The deltas hold the marker only together: the client shows it twice, the full copy once. */
  lemma MarkerAcrossDeltas(codec: Codec)
    requires codec.Lawful()
    ensures
      var cfg := Config("ab", "");
      var blocks := [BlockOf(codec, DeltaEvent("a")), BlockOf(codec, DeltaEvent("b")), BlockOf(codec, DoneEvent("ab"))];
      var out := Rewritten(cfg, codec, InitContext, blocks);
      && Streamed(codec, out, R_KEY) == "abab"
      && Data(codec, out[2]).Some? && Copy(Data(codec, out[2]).value, DoneField) == Some(Str("ab"))
  {
    hide Streamed, Rewritten, Copy, Data, Contains, BlockOf, DeltaEvent, DoneEvent;
    var cfg := Config("ab", "");
    TwoDeltas(cfg, codec, "a", "b");
    assert "a" + "b" == "ab" && "ab" + "ab" == "abab";
    NotInside("b", "ab");
    HoldsItself("ab");
  }

  lemma NotInside(text: string, part: string)
    requires |text| < |part|
    ensures !Contains(text, part)
  {
  }

  lemma HoldsItself(text: string)
    ensures Contains(text, text)
  {
    assert OccursAt(text, text, 0);
  }

  lemma TwoDeltas(cfg: Config, codec: Codec, a: string, b: string)
    requires codec.Lawful() && a + b != ""
    ensures
      var blocks := [BlockOf(codec, DeltaEvent(a)), BlockOf(codec, DeltaEvent(b)), BlockOf(codec, DoneEvent(a + b))];
      var out := Rewritten(cfg, codec, InitContext, blocks);
      && Streamed(codec, out, R_KEY) == (if b != "" && !Contains(b, cfg.marker) then a + b + cfg.marker else a + b)
      && Data(codec, out[2]).Some?
      && Copy(Data(codec, out[2]).value, DoneField) ==
         Some(Str(if Contains(a + b, cfg.marker) then a + b else a + b + cfg.marker))
  {
    hide Contains, Copy, KindOfType, DeltaOf, BlockOf, DeltaEvent, DoneEvent, Data, Rewritten;
    var first, second, done := BlockOf(codec, DeltaEvent(a)), BlockOf(codec, DeltaEvent(b)),
        BlockOf(codec, DoneEvent(a + b));
    var blocks := [first, second, done];
    DeltaEventIs(codec, a);
    DeltaEventIs(codec, b);
    DoneEventIs(codec, a + b);
    assert blocks[1..] == [second, done] && blocks[2..] == [done];
    assert !Closes(R_KEY, Data(codec, second));
    assert LastDelta(codec, blocks, R_KEY, 1);
    assert ClosedNext(codec, blocks, R_KEY, 1);
    assert DeltaOf(codec, done, R_KEY) == "" by { NoDelta(codec, done); }
    StreamedThree(codec, first, second, done);
    assert b + "" == b;
    LastDeltaDecides(cfg, codec, blocks, R_KEY, 1);
    TagBehindOrEmpty(cfg, codec, InitContext, blocks, R_KEY);
    SummaryTextsAgree(cfg, codec, InitContext, blocks, R_KEY, 2, DoneField);
  }

  lemma TagBehindOrEmpty(cfg: Config, codec: Codec, ctx: Context, blocks: seq<Block>, key: SummaryKey)
    requires codec.Lawful()
    ensures
      var text, out := Streamed(codec, blocks, key), Streamed(codec, Rewritten(cfg, codec, ctx, blocks), key);
      && (NoTag(cfg, codec, blocks, key) ==> out == text)
      && (TagBehind(cfg, codec, blocks, key) ==> out == text + cfg.marker)
  {
    hide TaggedDelta, Rewritten, Streamed;
    StreamedAfter(cfg, codec, ctx, blocks, key);
    if cfg.marker == "" { EmptyNeverTags(cfg, codec, blocks, key); }
  }

  /** The part is closed, goes on, and is closed again: the client shows the tag twice, the last copy once. */
  lemma ClosedTwice(codec: Codec)
    requires codec.Lawful()
    ensures
      var cfg := Config(" tag ", "");
      var blocks := [BlockOf(codec, DeltaEvent("a")), BlockOf(codec, DoneEvent("a")),
                     BlockOf(codec, DeltaEvent("b")), BlockOf(codec, DoneEvent("ab"))];
      var out := Rewritten(cfg, codec, InitContext, blocks);
      && Streamed(codec, out, R_KEY) == "a tag b tag "
      && Data(codec, out[3]).Some? && Copy(Data(codec, out[3]).value, DoneField) == Some(Str("ab tag "))
  {
    hide Contains, Copy, KindOfType, DeltaOf, BlockOf, DeltaEvent, DoneEvent, Data, Rewritten, Streamed;
    var cfg := Config(" tag ", "");
    var blocks := [BlockOf(codec, DeltaEvent("a")), BlockOf(codec, DoneEvent("a")),
                   BlockOf(codec, DeltaEvent("b")), BlockOf(codec, DoneEvent("ab"))];
    DeltaEventIs(codec, "a");
    DoneEventIs(codec, "a");
    DeltaEventIs(codec, "b");
    DoneEventIs(codec, "ab");
    NoDelta(codec, blocks[1]);
    NoDelta(codec, blocks[3]);
    assert blocks[1..][0] == blocks[1] && blocks[3..][0] == blocks[3];
    assert ClosedNext(codec, blocks, R_KEY, 0) && ClosedNext(codec, blocks, R_KEY, 2);
    NotInside("a", " tag ");
    NotInside("b", " tag ");
    NotInside("ab", " tag ");
    FourDeltas(cfg, codec, blocks);
    StreamedFour(codec, blocks);
    assert "a" + "" + "b" + "" == "ab" && "a" + " tag " == "a tag " && "b" + " tag " == "b tag ";
    assert "a tag " + "" + "b tag " + "" == "a tag b tag " && "ab" + " tag " == "ab tag ";
    SummaryTextsAgree(cfg, codec, InitContext, blocks, R_KEY, 3, DoneField);
  }

  lemma FourDeltas(cfg: Config, codec: Codec, blocks: seq<Block>)
    requires codec.Lawful() && |blocks| == 4
    requires TaggedDelta(cfg, codec, blocks, R_KEY, 0) && TaggedDelta(cfg, codec, blocks, R_KEY, 2)
    requires DeltaOf(codec, blocks[1], R_KEY) == "" && DeltaOf(codec, blocks[3], R_KEY) == ""
    ensures Streamed(codec, Rewritten(cfg, codec, InitContext, blocks), R_KEY) ==
            DeltaOf(codec, blocks[0], R_KEY) + cfg.marker + "" + (DeltaOf(codec, blocks[2], R_KEY) + cfg.marker) + ""
  {
    hide DeltaOf, Rewritten, Streamed, ClosedNext, Contains;
    DeltaAfter(cfg, codec, InitContext, blocks, R_KEY, 0);
    DeltaAfter(cfg, codec, InitContext, blocks, R_KEY, 1);
    DeltaAfter(cfg, codec, InitContext, blocks, R_KEY, 2);
    DeltaAfter(cfg, codec, InitContext, blocks, R_KEY, 3);
    StreamedFour(codec, Rewritten(cfg, codec, InitContext, blocks));
  }

  lemma StreamedFour(codec: Codec, blocks: seq<Block>)
    requires |blocks| == 4
    ensures Streamed(codec, blocks, R_KEY) ==
            DeltaOf(codec, blocks[0], R_KEY) + DeltaOf(codec, blocks[1], R_KEY) +
            DeltaOf(codec, blocks[2], R_KEY) + DeltaOf(codec, blocks[3], R_KEY)
  {
    hide DeltaOf;
    StreamedThree(codec, blocks[1], blocks[2], blocks[3]);
    assert blocks[1..] == [blocks[1], blocks[2], blocks[3]];
  }

  lemma NoDelta(codec: Codec, block: Block)
    requires !IsDeltaOf(codec, block, R_KEY)
    ensures DeltaOf(codec, block, R_KEY) == ""
  {
  }

  lemma StreamedThree(codec: Codec, first: Block, second: Block, third: Block)
    ensures Streamed(codec, [first, second, third], R_KEY) ==
            DeltaOf(codec, first, R_KEY) + (DeltaOf(codec, second, R_KEY) + DeltaOf(codec, third, R_KEY))
  {
    hide DeltaOf;
    assert [first, second, third][1..] == [second, third] && [second, third][1..] == [third] && [third][1..] == [];
    assert Streamed(codec, [third], R_KEY) == DeltaOf(codec, third, R_KEY) + "" == DeltaOf(codec, third, R_KEY);
    assert Streamed(codec, [second, third], R_KEY) == DeltaOf(codec, second, R_KEY) + Streamed(codec, [third], R_KEY);
  }
}
