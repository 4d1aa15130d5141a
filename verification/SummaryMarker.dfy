/** The stream rewriter as the gateway runs it: an object fed with decoded text. */
module SummaryMarker {
  import opened Json
  import opened Transducer
  import opened MarkerSpec
  import UsageCounts

  class SummaryMarker {
    const cfg: Config
    const codec: Codec

    var buf: string
    var block: Block
    var held: Option<Held>
    var headed: set<MessageKey>
    var headerParts: map<MessageKey, Json>
    var responseId: string
    var usage: Json
    var terminalType: string

    constructor (marker: string, signature: string, codec: Codec)
      requires codec.Lawful()
      ensures Valid() && cfg == Config(marker, signature) && this.codec == codec
      ensures Abs() == InitState
    {
      this.cfg := Config(marker, signature);
      this.codec := codec;
      buf, block, held := "", [], None;
      headed, headerParts, responseId := {}, map[], "";
      usage, terminalType := Null, "";
    }

    ghost predicate Valid()
      reads this
    {
      codec.Lawful() && '\n' !in buf
    }

    ghost function Ctx(): Context
      reads this
    {
      Context(headed, headerParts, responseId, usage, terminalType)
    }

    ghost function Abs(): State
      reads this
    {
      State(buf, block, Core(held, Ctx()))
    }

    method FlushHeld() returns (out: string)
      modifies this`held
      ensures held == None
      ensures out == if old(held).Some? then Emit(old(held).value.block) else ""
    {
      out := "";
      if held.Some? {
        out := Emit(held.value.block);
        held := None;
      }
    }

    /** Tag the summary parts of a reasoning item. */
    method TagSummary(item: Json) returns (r: Json)
      ensures r == TagItem(cfg, item)
    {
      r := item;
      if IsReasoning(item) && Get(item, KSummary).Arr? {
        var parts := Get(item, KSummary).xs;
        var tagged := parts;
        for i := 0 to |parts|
          invariant |tagged| == |parts|
          invariant forall j | 0 <= j < i :: tagged[j] == TagText(cfg, parts[j])
          invariant forall j | i <= j < |parts| :: tagged[j] == parts[j]
        {
          if tagged[i].Obj? && KText in tagged[i].m {
            tagged := tagged[i := Put(tagged[i], KText, Tag(cfg, tagged[i].m[KText]))];
          }
        }
        assert tagged == TagTexts(cfg, parts);
        r := Put(item, KSummary, Arr(tagged));
      }
    }

    /** One header on the first non-empty text part of an assistant message. */
    method SignMessageItem(item: Json) returns (r: Json)
      modifies this`headerParts
      ensures r == SignItem(cfg, item)
      ensures headerParts == NoteItem(cfg, old(headerParts), item)
    {
      if cfg.signature == "" || !IsAssistantMessage(item) { return item; }
      var parts := Elements(Get(item, KContent));
      var index := 0;
      while index < |parts|
        invariant index <= FirstText(parts)
      {
        if HasOutputText(parts[index]) {
          assert index == FirstText(parts);
          r := Put(item, KContent,
                   Arr(parts[index := Put(parts[index], KText, Sign(cfg, Get(parts[index], KText)))]));
          headerParts := SetDefault(headerParts, ById(Get(item, KId)), Num(index));
          return;
        }
        index := index + 1;
      }
      return item;
    }

    method RewriteResponse(response: Json) returns (r: Json)
      modifies this`headerParts
      ensures r == RewriteOutput(cfg, response)
      ensures headerParts == NoteItems(cfg, old(headerParts), Elements(Get(response, KOutput)))
    {
      r := response;
      if response.Obj? && Get(response, KOutput).Arr? {
        var items := Get(response, KOutput).xs;
        var done := [];
        for i := 0 to |items|
          invariant |done| == i
          invariant forall j | 0 <= j < i :: done[j] == RewriteItem(cfg, items[j])
          invariant NoteItems(cfg, headerParts, items[i..]) == NoteItems(cfg, old(headerParts), items)
        {
          assert items[i..][0] == items[i] && items[i..][1..] == items[i + 1..];
          var item := TagSummary(items[i]);
          item := SignMessageItem(item);
          done := done + [item];
        }
        assert done == RewriteItems(cfg, items);
        r := Put(response, KOutput, Arr(done));
      }
    }

    /** `_tag_item_block`, on the event of the block. */
    method TagEvent(data: Json) returns (r: Json)
      requires data.Obj?
      modifies this`headerParts
      ensures r == TagEventItems(cfg, data)
      ensures headerParts == NoteEventItems(cfg, old(headerParts), data)
    {
      r := data;
      if Get(data, KItem).Obj? {
        var item := TagSummary(Get(data, KItem));
        item := SignMessageItem(item);
        r := Put(r, KItem, item);
      }
      if Get(data, KResponse).Obj? {
        var response := RewriteResponse(Get(data, KResponse));
        r := Put(r, KResponse, response);
      }
    }

    /** `_sign_done_block`, on the event of the block. */
    method SignDoneEvent(data: Json) returns (r: Json)
      requires data.Obj?
      modifies this`headerParts
      ensures headerParts == NoteDone(old(headerParts), data)
      ensures r == SignDone(cfg, old(headerParts), data)
    {
      r := data;
      var text := DoneText(data);
      if NonEmptyStr(text) {
        var key := MessageKeyOf(data);
        headerParts := SetDefault(headerParts, key, ContentIndex(data));
        if headerParts[key] == ContentIndex(data) {
          r := PutDoneText(data, Sign(cfg, text));
        }
      }
    }

    /** The held block leaves: tagged when the event in hand closes its summary part. */
    method ReleaseHeld(ghost data: Json, close: bool) returns (out: string)
      requires held.Some? ==> close == Closes(held.value.key, Some(data))
      modifies this`held
      ensures held == None
      ensures out == EmitAll(Release(cfg, codec, old(held), Some(data)))
    {
      out := "";
      if held.Some? {
        var heldBlock := held.value.block;
        if close {
          var heldData := Data(codec, heldBlock);
          if heldData.Some? {
            heldBlock := Rebuild(codec, heldBlock, TagDelta(cfg, heldData.value));
          }
        }
        out := Emit(heldBlock);
        held := None;
        EmitOne(heldBlock);
      }
    }

    /** What `ProcessBlock` writes for an event that is not held: the released block, then its own. */
    ghost function Written(h: Option<Held>, ctx: Context, data: Json, b: Block): string
      requires data.Obj?
    {
      EmitAll(Release(cfg, codec, h, Some(data)) + [Apply(codec, b, Edit(cfg, ctx, data))])
    }

    /** The branches that put a header on assistant text. */
    method ProcessAssistantText(b: Block, data: Json) returns (out: string)
      requires cfg.signature != "" && data.Obj?
      requires KindOf(data) in {TextDelta, TextDone, PartAdded, PartDone}
      modifies this`held, this`headed, this`headerParts
      ensures held == None && Ctx() == NextContext(cfg, old(Ctx()), data)
      ensures out == Written(old(held), old(Ctx()), data, b)
    {
      hide KindOfType, Emit, Rebuild, Data, SignDone, TagDone, TagEventItems, SignItem, NoteItem, NoteEventItems,
           NoteDone;
      var kind := KindOf(data);
      var mine := b;
      if kind == TextDelta {
        var key := MessageKeyOf(data);
        if NonEmptyStr(Get(data, KDelta)) && key !in headed {
          headerParts := SetDefault(headerParts, key, ContentIndex(data));
          headed := headed + {key};
          mine := Rebuild(codec, b, Put(data, KDelta, Sign(cfg, Get(data, KDelta))));
        }
      } else if kind == TextDone || kind == PartDone {
        var signed := SignDoneEvent(data);
        mine := Rebuild(codec, b, signed);
      } else if PartHasText(Get(data, KPart)) {
        var signed := SignDoneEvent(data);
        mine := Rebuild(codec, b, signed);
        headed := headed + {MessageKeyOf(data)};
      }
      EmitOneAfter(Release(cfg, codec, held, Some(data)), mine);
      out := FlushHeld();
      out := out + Emit(mine);
    }

    method ProcessMessageAdded(b: Block, data: Json) returns (out: string)
      requires cfg.signature != "" && data.Obj? && KindOf(data) == ItemAdded && IsMessage(Get(data, KItem))
      modifies this`held, this`headed, this`headerParts
      ensures held == None && Ctx() == NextContext(cfg, old(Ctx()), data)
      ensures out == Written(old(held), old(Ctx()), data, b)
    {
      hide KindOfType, Emit, Rebuild, Data, SignDone, TagDone, TagEventItems, SignItem, NoteItem, NoteEventItems,
           NoteDone;
      var item := SignMessageItem(Get(data, KItem));
      SignedKeepsId(cfg, Get(data, KItem));
      if ById(Get(item, KId)) in headerParts { headed := headed + {ById(Get(item, KId))}; }
      var mine := Rebuild(codec, b, Put(data, KItem, item));
      EmitOneAfter(Release(cfg, codec, held, Some(data)), mine);
      out := FlushHeld();
      out := out + Emit(mine);
    }

    method ProcessSummaryDone(b: Block, data: Json) returns (out: string)
      requires data.Obj? && KindOf(data) in {SummaryTextDone, SummaryPartDone}
      modifies this`held
      ensures held == None && Ctx() == NextContext(cfg, old(Ctx()), data)
      ensures out == Written(old(held), old(Ctx()), data, b)
    {
      hide KindOfType, Emit, Rebuild, Data, SignDone, TagDone, TagEventItems, SignItem, NoteItem, NoteEventItems,
           NoteDone;
      var mine := Rebuild(codec, b, TagDone(cfg, data));
      EmitOneAfter(Release(cfg, codec, held, Some(data)), mine);
      out := ReleaseHeld(data, held.Some? && held.value.key == SummaryKeyOf(data));
      out := out + Emit(mine);
    }

    method ProcessItemDone(b: Block, data: Json) returns (out: string)
      requires data.Obj? && KindOf(data) == ItemDone
      requires IsReasoning(Get(data, KItem)) || (cfg.signature != "" && IsMessage(Get(data, KItem)))
      modifies this`held, this`headerParts
      ensures held == None && Ctx() == NextContext(cfg, old(Ctx()), data)
      ensures out == Written(old(held), old(Ctx()), data, b)
    {
      hide KindOfType, Emit, Rebuild, Data, SignDone, TagDone, TagEventItems, SignItem, NoteItem, NoteEventItems,
           NoteDone;
      var item := Get(data, KItem);
      var close := IsReasoning(item) && held.Some? && held.value.key.itemId == Get(item, KId);
      ghost var released := Release(cfg, codec, held, Some(data));
      out := ReleaseHeld(data, close);
      var tagged := TagEvent(data);
      out := out + Emit(Rebuild(codec, b, tagged));
      EmitOneAfter(released, Rebuild(codec, b, tagged));
    }

    /** A terminal event is moved onto the announced response id before it leaves. */
    method ProcessTerminal(b: Block, data: Json) returns (out: string)
      requires data.Obj? && KindOf(data) == Terminal
      modifies this`held, this`headerParts, this`usage, this`terminalType
      ensures held == None && Ctx() == NextContext(cfg, old(Ctx()), data)
      ensures out == Written(old(held), old(Ctx()), data, b)
    {
      hide KindOfType, Emit, Rebuild, Data, SignDone, TagDone, TagEventItems, SignItem, NoteItem, NoteEventItems,
           NoteDone, UsageCounts.Counts;
      ghost var released := Release(cfg, codec, held, Some(data));
      out := FlushHeld();
      var response := Get(data, KResponse);
      TerminalTypeNotEmpty(Get(data, KType));
      terminalType := Get(data, KType).s;
      usage := UsageCounts.CountUsage(Get(response, KUsage));
      var repaired := data;
      if responseId != "" && response.Obj? && Get(response, KId) != Str(responseId) {
        repaired := Put(data, KResponse, Put(response, KId, Str(responseId)));
      }
      SameId(responseId, data, repaired);
      SameItems(cfg, responseId, data);
      var tagged := TagEvent(repaired);
      out := out + Emit(Rebuild(codec, b, tagged));
      EmitOneAfter(released, Rebuild(codec, b, tagged));
    }

    /** An event that passes on as it came, possibly announcing the response id. */
    method ProcessOther(b: Block, data: Json) returns (out: string)
      requires data.Obj? && KindOf(data) != SummaryDelta && KindOf(data) != Created
      requires Edit(cfg, Ctx(), data) == None && NextContext(cfg, Ctx(), data) == Ctx()
      requires held.Some? ==> !Closes(held.value.key, Some(data))
      modifies this`held
      ensures held == None && Ctx() == NextContext(cfg, old(Ctx()), data)
      ensures out == Written(old(held), old(Ctx()), data, b)
    {
      hide KindOfType, Emit, Rebuild, Data, SignDone, TagDone, TagEventItems, SignItem, NoteItem, NoteEventItems,
           NoteDone;
      EmitOneAfter(Release(cfg, codec, held, Some(data)), b);
      out := FlushHeld();
      out := out + Emit(b);
    }

    method ProcessEvent(b: Block, data: Json) returns (out: string)
      requires data.Obj? && KindOf(data) != SummaryDelta
      modifies this`held, this`headed, this`headerParts, this`responseId, this`usage, this`terminalType
      ensures held == None && Ctx() == NextContext(cfg, old(Ctx()), data)
      ensures out == Written(old(held), old(Ctx()), data, b)
    {
      hide KindOfType;
      var kind := KindOf(data);
      if kind == Created {
        var id := Get(Get(data, KResponse), KId);
        if id.Str? { responseId := id.s; }
        EmitOneAfter(Release(cfg, codec, held, Some(data)), b);
        out := FlushHeld();
        out := out + Emit(b);
      } else if cfg.signature != "" && kind == ItemAdded && IsMessage(Get(data, KItem)) {
        out := ProcessMessageAdded(b, data);
      } else if cfg.signature != "" && kind in {TextDelta, TextDone, PartAdded, PartDone} {
        out := ProcessAssistantText(b, data);
      } else if kind in {SummaryTextDone, SummaryPartDone} {
        out := ProcessSummaryDone(b, data);
      } else if kind == ItemDone &&
                (IsReasoning(Get(data, KItem)) || (cfg.signature != "" && IsMessage(Get(data, KItem)))) {
        out := ProcessItemDone(b, data);
      } else if kind == Terminal {
        out := ProcessTerminal(b, data);
      } else {
        out := ProcessOther(b, data);
      }
    }

    method ProcessBlock(b: Block) returns (out: string)
      requires codec.Lawful()
      modifies this`held, this`headed, this`headerParts, this`responseId, this`usage, this`terminalType
      ensures
        var (next, blocks) := Step(cfg, codec, old(Abs().core), b);
        Abs().core == next && out == EmitAll(blocks)
    {
      var parsed := Data(codec, b);
      ghost var released := Release(cfg, codec, held, parsed);
      if parsed.None? {
        out := FlushHeld();
        out := out + Emit(b);
        EmitOneAfter(released, b);
      } else if KindOf(parsed.value) == SummaryDelta {
        out := FlushHeld();
        held := Some(Held(SummaryKeyOf(parsed.value), b));
        EmitOneOrNone(released);
      } else {
        out := ProcessEvent(b, parsed.value);
      }
    }

    /** One turn of the loop of `feed`: a complete line, without its line feed. */
    method EndOfLine(full: string) returns (piece: string)
      requires codec.Lawful()
      modifies this`block, this`held, this`headed, this`headerParts, this`responseId, this`usage, this`terminalType
      ensures (Abs(), piece) == EndLine(cfg, codec, old(Abs()), StripCr(full))
    {
      var line := full;
      if line != "" && line[|line| - 1] == '\r' { line := line[..|line| - 1]; }
      piece := "";
      if line == "" {
        if block != [] {
          piece := ProcessBlock(block);
          block := [];
        }
        piece := piece + "\n";
        assert "" + "\n" == "\n";
      } else {
        block := block + [line];
      }
    }

    /** Consume one chunk of decoded text. */
    method Feed(raw: string) returns (out: string)
      requires Valid()
      modifies this
      ensures Valid()
      ensures (Abs(), out) == MarkerSpec.Feed(cfg, codec, old(Abs()), raw)
    {
      ghost var start := Abs().(buf := "");
      ghost var all := buf + raw;
      BufferedFirst(cfg, codec, Abs(), raw);
      buf := buf + raw;
      out := "";
      while '\n' in buf
        invariant codec.Lawful()
        invariant MarkerSpec.Feed(cfg, codec, start, all) ==
                  Prepend(out, MarkerSpec.Feed(cfg, codec, Abs().(buf := ""), buf))
        decreases |buf|
      {
        ghost var before := Abs().(buf := "");
        var line, rest := SplitLine(buf);
        FeedLine(cfg, codec, before, line, rest);
        buf := "";
        var piece := EndOfLine(line);
        buf := rest;
        PrependTwice(out, piece, MarkerSpec.Feed(cfg, codec, Abs().(buf := ""), buf));
        out := out + piece;
      }
      FeedNoBreak(cfg, codec, Abs().(buf := ""), buf);
      assert "" + buf == buf && out + "" == out;
    }

    method Flush() returns (out: string)
      requires Valid()
      modifies this
      ensures Valid()
      ensures (Abs(), out) == MarkerSpec.Flush(old(Abs()))
    {
      out := FlushHeld();
      assert out + "" == out;
      if block != [] {
        out := out + Emit(block);
        block := [];
      }
      out := out + buf;
      assert "" + buf == buf;
      buf := "";
    }
  }

  // ---------------------------------------------------------------- helpers

  method SplitLine(text: string) returns (line: string, rest: string)
    requires '\n' in text
    ensures text == line + "\n" + rest && '\n' !in line
  {
    var i := 0;
    while text[i] != '\n'
      invariant i < |text| && '\n' !in text[..i] && '\n' in text[i..]
      decreases |text| - i
    {
      i := i + 1;
    }
    line, rest := text[..i], text[i + 1..];
  }

  function Prepend(out: string, r: (State, string)): (State, string) {
    (r.0, out + r.1)
  }

  lemma PrependTwice(a: string, b: string, r: (State, string))
    ensures Prepend(a, Prepend(b, r)) == Prepend(a + b, r)
  {
    assert a + (b + r.1) == (a + b) + r.1;
  }

  /** Text already buffered may be fed again with the new chunk behind it. */
  lemma BufferedFirst(cfg: Config, codec: Codec, st: State, raw: string)
    requires '\n' !in st.buf
    ensures MarkerSpec.Feed(cfg, codec, st, raw) == MarkerSpec.Feed(cfg, codec, st.(buf := ""), st.buf + raw)
    ensures MarkerSpec.Feed(cfg, codec, st, raw) == Prepend("", MarkerSpec.Feed(cfg, codec, st, raw))
  {
    FeedNoBreak(cfg, codec, st.(buf := ""), st.buf);
    assert "" + st.buf == st.buf;
    RunConcat(ByChar(cfg, codec), st.(buf := ""), st.buf, raw);
    var (end, out) := MarkerSpec.Feed(cfg, codec, st, raw);
    assert "" + out == out;
  }

  lemma EmitOne(b: Block)
    ensures EmitAll([b]) == Emit(b)
  {
    assert [b][1..] == [];
    assert Emit(b) + "" == Emit(b);
  }

  lemma EmitOneAfter(blocks: seq<Block>, b: Block)
    requires |blocks| <= 1
    ensures EmitAll(blocks + [b]) == EmitAll(blocks) + Emit(b)
    ensures EmitAll(blocks) == if blocks == [] then "" else Emit(blocks[0])
  {
    EmitOne(b);
    if blocks == [] {
      assert blocks + [b] == [b] && "" + Emit(b) == Emit(b);
    } else {
      EmitOne(blocks[0]);
      assert blocks == [blocks[0]] && (blocks + [b])[1..] == [b];
    }
  }

  lemma EmitOneOrNone(blocks: seq<Block>)
    requires |blocks| <= 1
    ensures EmitAll(blocks + []) == EmitAll(blocks)
    ensures EmitAll(blocks) == if blocks == [] then "" else Emit(blocks[0])
  {
    assert blocks + [] == blocks;
    if blocks != [] { EmitOne(blocks[0]); assert blocks == [blocks[0]]; }
  }

  lemma SignedKeepsId(cfg: Config, item: Json)
    ensures Get(SignItem(cfg, item), KId) == Get(item, KId)
  {
  }

  /** Setting the id does not touch the items of the event. */
  lemma SameItems(cfg: Config, id: string, data: Json)
    requires data.Obj?
    ensures forall parts :: NoteEventItems(cfg, parts, SetResponseId(id, data)) == NoteEventItems(cfg, parts, data)
  {
    var moved := SetResponseId(id, data);
    assert Get(moved, KItem) == Get(data, KItem);
    assert Get(Get(moved, KResponse), KOutput) == Get(Get(data, KResponse), KOutput);
  }

  lemma SameId(id: string, data: Json, repaired: Json)
    requires data.Obj?
    requires var r := Get(data, KResponse);
             repaired == if id != "" && r.Obj? && Get(r, KId) != Str(id) then
                           Put(data, KResponse, Put(r, KId, Str(id)))
                         else data
    ensures repaired == SetResponseId(id, data)
    ensures repaired.Obj?
  {
    var r := Get(data, KResponse);
    if id != "" && r.Obj? && Get(r, KId) == Str(id) {
      assert r.m[KId := Str(id)] == r.m;
      assert data.m[KResponse := r] == data.m;
    }
  }
}
