/** Concrete streams whose texts disagree about the header, or that head what should not be. */
module HeaderStreams {
  import opened Json
  import opened MarkerSpec
  import opened MarkerOrder
  import opened HeaderMemory
  import opened HeaderAgreement

  function FinishedReasoning(kind: string): Json {
    Obj(map[KType := Str(kind), KItemId := Str("r"),
            KPart := Obj(map[KType := Str("reasoning_text"), KText := Str("because")])])
  }

  /** Finished reasoning content leaves with the header, by either of the two events. */
  lemma ReasoningContentHeaded(codec: Codec, kind: string)
    requires codec.Lawful() && kind in {"response.content_part.done", "response.output_text.done"}
    ensures
      var cfg := Config(" tag ", "head ");
      var out := Data(codec, Rewritten(cfg, codec, InitContext, [BlockOf(codec, FinishedReasoning(kind))])[0]);
      out.Some? && DoneText(out.value) == Str("head because")
  {
    hide Data, Rewritten, BlockOf, HeaderPart, FinishedReasoning, IsFinished, DoneText, PutDoneText, MessageKeyOf,
         ContentIndex;
    var cfg := Config(" tag ", "head ");
    var data := FinishedReasoning(kind);
    var blocks := [BlockOf(codec, data)];
    FinishedReasoningIs(kind);
    DataOfBlock(codec, data);
    FinishedTextHeaded(cfg, codec, blocks, 0);
    assert blocks[..0] == [];
    NothingGiven(cfg, codec, MessageKeyOf(data));
    assert cfg.signature[0] != "because"[0] && "head " + "because" == "head because";
    TextOfPut(data, "head because");
  }

  lemma FinishedReasoningIs(kind: string)
    requires kind in {"response.content_part.done", "response.output_text.done"}
    ensures
      var data := FinishedReasoning(kind);
      data.Obj? && IsFinished(data) && DoneText(data) == Str("because")
  {
  }

  lemma TextOfPut(data: Json, text: string)
    requires data.Obj?
    ensures DoneText(PutDoneText(data, Str(text))) == Str(text)
  {
  }

  lemma NothingGiven(cfg: Config, codec: Codec, key: MessageKey)
    ensures HeaderPart(cfg, codec, [], key) == None && !Opened(cfg, codec, [], key)
  {
  }

  const M_KEY := ById(Str("m"))

  function DeltaEvent(index: int, delta: string): Json {
    Obj(map[KType := Str("response.output_text.delta"), KItemId := Str("m"), KContentIndex := Num(index),
            KDelta := Str(delta)])
  }

  function DoneEvent(index: int, text: string): Json {
    Obj(map[KType := Str("response.output_text.done"), KItemId := Str("m"), KContentIndex := Num(index),
            KText := Str(text)])
  }

  lemma DeltaEventIs(cfg: Config, codec: Codec, index: int, text: string)
    requires codec.Lawful() && cfg.signature != ""
    ensures
      var block := BlockOf(codec, DeltaEvent(index, text));
      && Data(codec, block) == Some(DeltaEvent(index, text))
      && KindOf(DeltaEvent(index, text)) == TextDelta
      && Gives(cfg, DeltaEvent(index, text), M_KEY) == (if text != "" then Some(Num(index)) else None)
      && (forall given :: Opens(cfg, DeltaEvent(index, text), M_KEY, given) <==> text != "")
      && (forall part :: !StartsPart(codec, block, M_KEY, part))
      && (forall part :: Brought(codec, block, M_KEY, part) == if part == Num(index) then text else "")
      && !Announces(codec, block, M_KEY)
  {
    hide Data, BlockOf;
    DataOfBlock(codec, DeltaEvent(index, text));
  }

  lemma DoneEventIs(cfg: Config, codec: Codec, index: int, text: string)
    requires codec.Lawful() && cfg.signature != ""
    ensures
      var block := BlockOf(codec, DoneEvent(index, text));
      && Data(codec, block) == Some(DoneEvent(index, text))
      && KindOf(DoneEvent(index, text)) == TextDone
      && Gives(cfg, DoneEvent(index, text), M_KEY) == (if text != "" then Some(Num(index)) else None)
      && (forall given :: !Opens(cfg, DoneEvent(index, text), M_KEY, given))
      && (forall part :: !StartsPart(codec, block, M_KEY, part) && Brought(codec, block, M_KEY, part) == "")
      && !Announces(codec, block, M_KEY)
      && Copy(DoneEvent(index, text), M_KEY, Num(index), DoneField) == Some(Str(text))
  {
    hide Data, BlockOf;
    DataOfBlock(codec, DoneEvent(index, text));
  }

  lemma ShownThree(cfg: Config, codec: Codec, blocks: seq<Block>, key: MessageKey, part: Json)
    requires |blocks| == 3 && forall i | 0 <= i < 3 :: !StartsPart(codec, blocks[i], key, part)
    ensures Shown(codec, blocks, key, part) ==
            Brought(codec, blocks[0], key, part) + Brought(codec, blocks[1], key, part) +
              Brought(codec, blocks[2], key, part)
  {
    hide Brought, StartsPart, Shown;
    ShownStep(codec, blocks, key, part, 1);
    ShownStep(codec, blocks, key, part, 2);
    ShownStep(codec, blocks, key, part, 3);
    assert blocks[..3] == blocks && blocks[..0] == [];
    NothingShown(cfg, codec, key, part);
    assert "" + Brought(codec, blocks[0], key, part) == Brought(codec, blocks[0], key, part);
  }

  /** The text begins with the header, but its first delta is only the beginning of the header: the
      client shows the header twice, the full copy has it once. */
  lemma HeaderAcrossDeltas(codec: Codec)
    requires codec.Lawful()
    ensures
      var cfg := Config(" tag ", "head ");
      var blocks := [BlockOf(codec, DeltaEvent(0, "he")), BlockOf(codec, DeltaEvent(0, "ad x")),
                     BlockOf(codec, DoneEvent(0, "head x"))];
      var out := Rewritten(cfg, codec, InitContext, blocks);
      && Shown(codec, out, M_KEY, Num(0)) == "head head x"
      && Data(codec, out[2]).Some? && Copy(Data(codec, out[2]).value, M_KEY, Num(0), DoneField) == Some(Str("head x"))
  {
    hide Data, BlockOf, DeltaEvent, DoneEvent, Copy, KindOfType, Rewritten, Shown, Brought, StartsPart, Announces,
         Gives, HeaderInFront, NoHeader, SignsCopy;
    var cfg := Config(" tag ", "head ");
    var blocks := [BlockOf(codec, DeltaEvent(0, "he")), BlockOf(codec, DeltaEvent(0, "ad x")),
                   BlockOf(codec, DoneEvent(0, "head x"))];
    DeltaEventIs(cfg, codec, 0, "he");
    DeltaEventIs(cfg, codec, 0, "ad x");
    DoneEventIs(cfg, codec, 0, "head x");
    assert StreamsFirst(cfg, codec, blocks, M_KEY, Num(0), 0);
    ShownThree(cfg, codec, blocks, M_KEY, Num(0));
    assert "he" + "ad x" + "" == "head x";
    assert |"head "| > |"he"| && "head " <= "head x";
    OpensWithFirst(cfg, codec, blocks, M_KEY, Num(0), 0, Num(0));
    ShownAfter(cfg, codec, blocks, M_KEY, Num(0));
    MessageTextsAgree(cfg, codec, blocks, M_KEY, Num(0), 2, DoneField);
    assert "head " + "head x" == "head head x";
  }

  /** The text of part 0 arrives finished, then part 1 is streamed: its delta gets the header, its full
      copy does not. */
  lemma FinishedBeforeStreamed(codec: Codec)
    requires codec.Lawful()
    ensures
      var cfg := Config(" tag ", "head ");
      var blocks := [BlockOf(codec, DoneEvent(0, "a")), BlockOf(codec, DeltaEvent(1, "b")),
                     BlockOf(codec, DoneEvent(1, "b"))];
      var out := Rewritten(cfg, codec, InitContext, blocks);
      && Shown(codec, out, M_KEY, Num(1)) == "head b"
      && Data(codec, out[2]).Some? && Copy(Data(codec, out[2]).value, M_KEY, Num(1), DoneField) == Some(Str("b"))
  {
    hide Data, BlockOf, DeltaEvent, DoneEvent, Copy, KindOfType, Rewritten, Shown, Brought, StartsPart, Announces,
         Gives, Opens, HeaderInFront, NoHeader, HeaderPart, Opened;
    var cfg := Config(" tag ", "head ");
    var blocks := [BlockOf(codec, DoneEvent(0, "a")), BlockOf(codec, DeltaEvent(1, "b")),
                   BlockOf(codec, DoneEvent(1, "b"))];
    DoneEventIs(cfg, codec, 0, "a");
    DeltaEventIs(cfg, codec, 1, "b");
    DoneEventIs(cfg, codec, 1, "b");
    StateStep(cfg, codec, blocks, M_KEY, 1);
    StateStep(cfg, codec, blocks, M_KEY, 2);
    assert blocks[..0] == [];
    NothingGiven(cfg, codec, M_KEY);
    ShownThree(cfg, codec, blocks, M_KEY, Num(1));
    assert "" + "b" + "" == "b" && "head "[0] != "b"[0];
    assert PutsHeader(cfg, codec, blocks, M_KEY, Num(1), 1);
    assert OnlyHeader(cfg, codec, blocks, M_KEY, Num(1), 1);
    FirstShown(cfg, codec, blocks, M_KEY, Num(1));
    ShownAfter(cfg, codec, blocks, M_KEY, Num(1));
    MessageTextsAgree(cfg, codec, blocks, M_KEY, Num(1), 2, DoneField);
    assert "head " + "b" == "head b";
  }

  lemma FirstShown(cfg: Config, codec: Codec, blocks: seq<Block>, key: MessageKey, part: Json)
    requires |blocks| > 1 && Brought(codec, blocks[0], key, part) == "" && OnlyHeader(cfg, codec, blocks, key, part, 1)
    ensures HeaderInFront(cfg, codec, blocks, key, part)
  {
    hide Brought, StartsPart, OnlyHeader, Shown;
    ShownStep(codec, blocks, key, part, 1);
    assert blocks[..0] == [];
    NothingShown(cfg, codec, key, part);
    assert TextBefore(codec, blocks, key, part, 1) == "";
    assert "" + cfg.signature == cfg.signature + "";
  }

  lemma StateStep(cfg: Config, codec: Codec, blocks: seq<Block>, key: MessageKey, n: nat)
    requires 0 < n <= |blocks| && Data(codec, blocks[n - 1]).Some?
    ensures
      var front, data := blocks[..n - 1], Data(codec, blocks[n - 1]).value;
      && HeaderPart(cfg, codec, blocks[..n], key) ==
         OrElse(HeaderPart(cfg, codec, front, key),
                if KindOf(data) == TextDelta && Opened(cfg, codec, front, key) then None else Gives(cfg, data, key))
      && (Opened(cfg, codec, blocks[..n], key) <==>
          Opened(cfg, codec, front, key) || Opens(cfg, data, key, HeaderPart(cfg, codec, front, key)))
  {
    hide Data, Gives, Opens, KindOf;
    assert blocks[..n][..n - 1] == blocks[..n - 1] && blocks[..n][n - 1] == blocks[n - 1];
  }

  function OutputText(text: string): Json {
    Obj(map[KType := Str("output_text"), KText := Str(text)])
  }

  function FinishedMessage(texts: seq<string>): Json {
    Obj(map[KType := Str("response.output_item.done"),
            KItem := Obj(map[KType := Str("message"), KId := Str("m"),
                             KContent := Arr(seq(|texts|, i requires 0 <= i < |texts| => OutputText(texts[i])))])])
  }

  lemma FinishedMessageIs(codec: Codec, a: string, b: string)
    requires codec.Lawful()
    ensures
      var data := FinishedMessage([a, b]);
      var block := BlockOf(codec, data);
      && Data(codec, block) == Some(data)
      && (forall part :: !StartsPart(codec, block, M_KEY, part) && Brought(codec, block, M_KEY, part) == "")
      && !Announces(codec, block, M_KEY)
  {
    hide Data, BlockOf;
    DataOfBlock(codec, FinishedMessage([a, b]));
    assert KindOf(FinishedMessage([a, b])) == ItemDone;
  }

  lemma FinishedCopies(a: string, b: string)
    requires a != "" && b != ""
    ensures
      var data := FinishedMessage([a, b]);
      && Copy(data, M_KEY, Num(0), ItemField) == Some(Str(a)) && Copy(data, M_KEY, Num(1), ItemField) == Some(Str(b))
      && CopiedItem(data, M_KEY, ItemField).Some?
      && HeaderIndex(CopiedItem(data, M_KEY, ItemField).value) == Num(0)
  {
    var data := FinishedMessage([a, b]);
    var parts := Elements(Get(Get(data, KItem), KContent));
    assert KindOf(data) == ItemDone;
    assert |parts| == 2 && parts[0] == OutputText(a) && parts[1] == OutputText(b);
    assert HasOutputText(parts[0]);
  }

  /** Part 1 is streamed before part 0: it shows the header, but in the finished item part 0 has it. */
  lemma PartsOutOfOrder(codec: Codec)
    requires codec.Lawful()
    ensures
      var cfg := Config(" tag ", "head ");
      var blocks := [BlockOf(codec, DeltaEvent(1, "b")), BlockOf(codec, DeltaEvent(0, "a")),
                     BlockOf(codec, FinishedMessage(["a", "b"]))];
      var out := Rewritten(cfg, codec, InitContext, blocks);
      && Shown(codec, out, M_KEY, Num(0)) == "a" && Shown(codec, out, M_KEY, Num(1)) == "head b"
      && Data(codec, out[2]).Some?
      && Copy(Data(codec, out[2]).value, M_KEY, Num(0), ItemField) == Some(Str("head a"))
      && Copy(Data(codec, out[2]).value, M_KEY, Num(1), ItemField) == Some(Str("b"))
  {
    hide Data, BlockOf, DeltaEvent, FinishedMessage, Copy, KindOfType, Rewritten, Shown, Brought, StartsPart,
         Announces, Gives, HeaderInFront, NoHeader, CopiedItem, HeaderIndex;
    var cfg := Config(" tag ", "head ");
    var blocks := [BlockOf(codec, DeltaEvent(1, "b")), BlockOf(codec, DeltaEvent(0, "a")),
                   BlockOf(codec, FinishedMessage(["a", "b"]))];
    DeltaEventIs(cfg, codec, 1, "b");
    DeltaEventIs(cfg, codec, 0, "a");
    FinishedMessageIs(codec, "a", "b");
    FinishedCopies("a", "b");
    assert StreamsFirst(cfg, codec, blocks, M_KEY, Num(1), 0);
    ShownThree(cfg, codec, blocks, M_KEY, Num(0));
    ShownThree(cfg, codec, blocks, M_KEY, Num(1));
    assert "" + "a" + "" == "a" && "b" + "" + "" == "b" && "head "[0] != "b"[0] && "head "[0] != "a"[0];
    OpensWithFirst(cfg, codec, blocks, M_KEY, Num(1), 0, Num(0));
    OpensWithFirst(cfg, codec, blocks, M_KEY, Num(1), 0, Num(1));
    ShownAfter(cfg, codec, blocks, M_KEY, Num(0));
    ShownAfter(cfg, codec, blocks, M_KEY, Num(1));
    MessageTextsAgree(cfg, codec, blocks, M_KEY, Num(0), 2, ItemField);
    MessageTextsAgree(cfg, codec, blocks, M_KEY, Num(1), 2, ItemField);
    assert "head " + "a" == "head a" && "head " + "b" == "head b";
  }

  lemma SignedItem(cfg: Config, item: Json, position: Json, key: MessageKey)
    requires cfg.signature != "" && MessageText(item).Some?
    ensures RewriteItem(cfg, item) == SignItem(cfg, item)
    ensures MessageText(SignItem(cfg, item)) == Some(Sign(cfg, MessageText(item).value))
    ensures IsCopyOf(SignItem(cfg, item), position, key) == IsCopyOf(item, position, key)
    ensures IsMessage(item) && !IsReasoning(item)
  {
    var parts := Elements(Get(item, KContent));
    var n := FirstText(parts);
    var signed := SignPart(cfg, parts, n);
    assert !IsReasoning(item);
    assert HasOutputText(signed[n]);
    assert forall i | 0 <= i < n :: signed[i] == parts[i];
    FirstTextIs(signed, n);
  }

  lemma {:induction false} FirstTextIs(parts: seq<Json>, n: nat)
    requires n < |parts| && HasOutputText(parts[n]) && forall i | 0 <= i < n :: !HasOutputText(parts[i])
    ensures FirstText(parts) == n
  {
  }

  function AddedMessage(text: string): Json {
    var part := Obj(map[KType := Str("output_text"), KText := Str(text)]);
    Obj(map[KType := Str("response.output_item.added"),
            KItem := Obj(map[KType := Str("message"), KId := Str("m"), KContent := Arr([part])])])
  }

  function UnnamedDelta(delta: string): Json {
    Obj(map[KType := Str("response.output_text.delta"), KDelta := Str(delta)])
  }

  /** A message that starts with text in its item and goes on with deltas that do not name it: both get the header. */
  lemma HeadedTwice(codec: Codec)
    requires codec.Lawful()
    ensures
      var cfg := Config(" tag ", "head ");
      var blocks := [BlockOf(codec, AddedMessage("a")), BlockOf(codec, UnnamedDelta("b"))];
      var out := Rewritten(cfg, codec, InitContext, blocks);
      && Data(codec, out[0]).Some? && MessageText(Get(Data(codec, out[0]).value, KItem)) == Some(Str("head a"))
      && Data(codec, out[1]).Some? && Get(Data(codec, out[1]).value, KDelta) == Str("head b")
  {
    hide Data, BlockOf, Rewritten, SignItem, MessageText, Signable;
    var cfg := Config(" tag ", "head ");
    var item := Get(AddedMessage("a"), KItem);
    DataOfBlock(codec, AddedMessage("a"));
    DataOfBlock(codec, UnnamedDelta("b"));
    AddedMessageIs(cfg, "a");
    assert KindOf(UnnamedDelta("b")) == TextDelta;
    AddedTextThenDelta(cfg, codec, [BlockOf(codec, AddedMessage("a")), BlockOf(codec, UnnamedDelta("b"))], 0, 1);
    SignedItem(cfg, item, Num(0), M_KEY);
    assert "head "[0] != "a"[0] && "head "[0] != "b"[0];
    assert "head " + "a" == "head a" && "head " + "b" == "head b";
  }

  lemma AddedMessageIs(cfg: Config, text: string)
    requires text != "" && cfg.signature != ""
    ensures
      var item := Get(AddedMessage(text), KItem);
      Signable(cfg, item) && MessageText(item) == Some(Str(text)) && KindOf(AddedMessage(text)) == ItemAdded
  {
    var item := Get(AddedMessage(text), KItem);
    var parts := Elements(Get(item, KContent));
    assert |parts| == 1 && HasOutputText(parts[0]);
  }
}
