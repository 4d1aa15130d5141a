/** Reassembling one response object from a stream, and how that commutes with the rewrite. */
module Assembler {
  import opened Json
  import opened Sequences
  import opened Text
  import opened MarkerSpec
  import opened MarkerOrder

  /** What has been collected so far; `final` is the last terminal event's response. */
  datatype Assembly = Assembly(final: Json, error: Json, items: map<int, Json>)

  const EmptyAssembly := Assembly(Null, Null, map[])

  datatype Result =
    | Response(response: Json)
    | ErrorEvent(event: Json)
    | NoTerminal
    | Raises  // the terminal event's response is neither null nor an object

  // ---------------------------------------------------------------- lines

  const FIELD := "data:"

  /** The event object on one line of the stream, if there is one. */
  function EventOfLine(codec: Codec, line: string): (e: Option<Json>)
    ensures e.Some? ==> e.value.Obj?
  {
    if !(FIELD <= line) then None
    else
      var chunk := Strip(line[|FIELD|..]);
      if chunk == "" || chunk == "[DONE]" then None
      else
        var parsed := codec.parse(chunk);
        if parsed.Some? && parsed.value.Obj? then parsed else None
  }

  function IndexOf(v: Json): int {
    if v.Num? then v.n else 0
  }

  predicate IsError(data: Json) {
    Get(data, KType) == Str("error")
  }

  function Collect(a: Assembly, event: Option<Json>): Assembly {
    if event.None? then a
    else
      var data := event.value;
      if KindOf(data) == ItemDone && Get(data, KItem).Obj? then
        a.(items := a.items[IndexOf(Get(data, KOutputIndex)) := Get(data, KItem)])
      else if KindOf(data) == Terminal then a.(final := Get(data, KResponse))
      else if IsError(data) then a.(error := data)
      else a
  }

  function CollectAll(a: Assembly, events: seq<Option<Json>>): Assembly
    decreases |events|
  {
    if events == [] then a
    else Collect(CollectAll(a, events[..|events| - 1]), events[|events| - 1])
  }

  function Events(codec: Codec, lines: seq<string>): seq<Option<Json>> {
    seq(|lines|, i requires 0 <= i < |lines| => EventOfLine(codec, lines[i]))
  }

  // ---------------------------------------------------------------- the collected items in order

  ghost predicate IsLeast(m: int, s: set<int>) {
    m in s && forall j | j in s :: m <= j
  }

  lemma {:induction false} LeastExists(s: set<int>)
    requires s != {}
    ensures exists m :: IsLeast(m, s)
    decreases |s|
  {
    var x := AnyOf(s);
    var rest := s - {x};
    if rest == {} {
      assert s == {x};
      assert IsLeast(x, s);
    } else {
      LeastExists(rest);
      var m :| IsLeast(m, rest);
      var least := if m <= x then m else x;
      forall j | j in s ensures least <= j {
        assert j == x || j in rest;
      }
      assert IsLeast(least, s);
    }
  }

  function Least(s: set<int>): (m: int)
    requires s != {}
    ensures IsLeast(m, s)
  {
    LeastExists(s);
    var m :| m in s && forall j | j in s :: m <= j;
    m
  }

  /** `sorted(items)`. */
  function Sorted(s: set<int>): (r: seq<int>)
    ensures forall i | 0 <= i < |r| :: r[i] in s
    ensures forall k | k in s :: k in r
    ensures forall i, j | 0 <= i < j < |r| :: r[i] < r[j]
    decreases |s|
  {
    if s == {} then []
    else
      var m := Least(s);
      [m] + Sorted(s - {m})
  }

  function InOrder(items: map<int, Json>): seq<Json> {
    var keys := Sorted(items.Keys);
    seq(|keys|, i requires 0 <= i < |keys| => items[keys[i]])
  }

  function Finish(a: Assembly): Result {
    if a.final != Null then
      if !a.final.Obj? then Raises
      else if !Truthy(Get(a.final, KOutput)) && a.items != map[] then
        Response(Put(a.final, KOutput, Arr(InOrder(a.items))))
      else Response(a.final)
    else if a.error != Null then ErrorEvent(a.error)
    else NoTerminal
  }

  /** `assemble_sse` over the lines of the stream. */
  method Assemble(codec: Codec, lines: seq<string>) returns (r: Result)
    ensures r == Assembled(Events(codec, lines))
  {
    var final, error := Null, Null;
    var items: map<int, Json> := map[];
    for n := 0 to |lines|
      invariant Assembly(final, error, items) == CollectAll(EmptyAssembly, Events(codec, lines[..n]))
    {
      assert Events(codec, lines[..n + 1])[..n] == Events(codec, lines[..n]);
      var event := EventOfLine(codec, lines[n]);
      if event.Some? {
        var data := event.value;
        if KindOf(data) == ItemDone && Get(data, KItem).Obj? {
          items := items[IndexOf(Get(data, KOutputIndex)) := Get(data, KItem)];
        } else if KindOf(data) == Terminal {
          final := Get(data, KResponse);
        } else if IsError(data) {
          error := data;
        }
      }
    }
    assert lines[..|lines|] == lines;
    if final != Null {
      if !final.Obj? { return Raises; }
      if !Truthy(Get(final, KOutput)) && items != map[] {
        final := Put(final, KOutput, Arr(InOrder(items)));
      }
      return Response(final);
    }
    if error != Null { return ErrorEvent(error); }
    return NoTerminal;
  }

  // ---------------------------------------------------------------- what has been collected

  /** The event ends the stream with a response. */
  predicate IsFinal(event: Option<Json>) {
    event.Some? &&
    Get(event.value, KType) in {Str("response.completed"), Str("response.incomplete"), Str("response.failed")}
  }

  /** The event brings a finished item for an output index. */
  predicate IsItem(event: Option<Json>, index: int) {
    event.Some? && Get(event.value, KType) == Str("response.output_item.done") && Get(event.value, KItem).Obj? &&
    if Get(event.value, KOutputIndex).Num? then Get(event.value, KOutputIndex) == Num(index) else index == 0
  }

  predicate IsErrorEvent(event: Option<Json>) {
    event.Some? && Get(event.value, KType) == Str("error")
  }

  /** What collecting distinguishes are exactly these events. */
  lemma CollectedKinds(event: Option<Json>, index: int)
    ensures IsFinal(event) <==> event.Some? && KindOf(event.value) == Terminal
    ensures IsItem(event, index) <==> event.Some? && KindOf(event.value) == ItemDone && Get(event.value, KItem).Obj? &&
                                      IndexOf(Get(event.value, KOutputIndex)) == index
    ensures IsErrorEvent(event) ==> KindOf(event.value) == OtherKind
  {
  }

  /** One event more. */
  lemma CollectStep(events: seq<Option<Json>>, index: int)
    requires events != []
    ensures
      var front, last := events[..|events| - 1], events[|events| - 1];
      var before, after := CollectAll(EmptyAssembly, front), CollectAll(EmptyAssembly, events);
      && after.final == (if IsFinal(last) then Get(last.value, KResponse) else before.final)
      && after.error == (if IsErrorEvent(last) then last.value else before.error)
      && (if IsItem(last, index) then index in after.items && after.items[index] == Get(last.value, KItem)
          else (index in after.items <==> index in before.items) &&
               (index in before.items ==> after.items[index] == before.items[index]))
  {
    hide KindOfType, IsFinal, IsItem, IndexOf;
    var last := events[|events| - 1];
    CollectedKinds(last, index);
    if last.Some? { CollectedKinds(last, IndexOf(Get(last.value, KOutputIndex))); }
  }

  /** The last terminal event wins, whatever came before it. */
  lemma {:induction false} LastTerminalWins(events: seq<Option<Json>>, i: nat)
    requires i < |events| && IsFinal(events[i]) && forall j | i < j < |events| :: !IsFinal(events[j])
    ensures CollectAll(EmptyAssembly, events).final == Get(events[i].value, KResponse)
    decreases |events|
  {
    hide IsFinal, Collect, CollectAll;
    CollectStep(events, 0);
    if i < |events| - 1 {
      LastTerminalWins(events[..|events| - 1], i);
    }
  }

  /** Of each index the last finished item is kept. */
  lemma {:induction false} LastItemWins(events: seq<Option<Json>>, i: nat, index: int)
    requires i < |events| && IsItem(events[i], index) && forall j | i < j < |events| :: !IsItem(events[j], index)
    ensures
      var items := CollectAll(EmptyAssembly, events).items;
      index in items && items[index] == Get(events[i].value, KItem)
    decreases |events|
  {
    hide IsItem, Collect, CollectAll;
    CollectStep(events, index);
    if i < |events| - 1 {
      LastItemWins(events[..|events| - 1], i, index);
    }
  }

  lemma {:induction false} LastErrorWins(events: seq<Option<Json>>, i: nat)
    requires i < |events| && IsErrorEvent(events[i]) && forall j | i < j < |events| :: !IsErrorEvent(events[j])
    ensures CollectAll(EmptyAssembly, events).error == events[i].value
    decreases |events|
  {
    hide IsErrorEvent, Collect, CollectAll;
    CollectStep(events, 0);
    if i < |events| - 1 {
      LastErrorWins(events[..|events| - 1], i);
    }
  }

  /** Nothing is kept that no event brought. */
  lemma {:induction false} OnlyCollected(events: seq<Option<Json>>, index: int)
    ensures index in CollectAll(EmptyAssembly, events).items ==>
              exists i :: 0 <= i < |events| && IsItem(events[i], index)
    ensures CollectAll(EmptyAssembly, events).final != Null ==> exists i :: 0 <= i < |events| && IsFinal(events[i])
    ensures CollectAll(EmptyAssembly, events).error != Null ==>
              exists i :: 0 <= i < |events| && IsErrorEvent(events[i])
    decreases |events|
  {
    hide IsFinal, IsItem, IsErrorEvent, Collect;
    if events != [] {
      var n := |events| - 1;
      var front, before := events[..n], CollectAll(EmptyAssembly, events[..n]);
      OnlyCollected(front, index);
      CollectStep(events, index);
      if index in before.items {
        var i :| 0 <= i < n && IsItem(front[i], index);
        assert IsItem(events[i], index);
      }
      if before.final != Null {
        var i :| 0 <= i < n && IsFinal(front[i]);
        assert IsFinal(events[i]);
      }
      if before.error != Null {
        var i :| 0 <= i < n && IsErrorEvent(front[i]);
        assert IsErrorEvent(events[i]);
      }
    }
  }

  // ---------------------------------------------------------------- the answer, from the events

  /** What `assemble_sse` answers to these events. */
  function Assembled(events: seq<Option<Json>>): Result {
    Finish(CollectAll(EmptyAssembly, events))
  }

  /** Event `i` is the last one with this property. */
  ghost predicate IsLast(events: seq<Option<Json>>, p: Option<Json> -> bool, i: nat) {
    i < |events| && p(events[i]) && forall j | i < j < |events| :: !p(events[j])
  }

  /** Event `i` is the last finished item of its index. */
  predicate IsLastItem(events: seq<Option<Json>>, index: int, i: nat) {
    i < |events| && IsItem(events[i], index) && forall j | i < j < |events| :: !IsItem(events[j], index)
  }

  /** The last terminal event has a response with output, or no item was finished: that response, as it came. */
  lemma ResponseAsItCame(events: seq<Option<Json>>, i: nat)
    requires IsLast(events, IsFinal, i)
    requires
      var response := Get(events[i].value, KResponse);
      response.Obj? && (Truthy(Get(response, KOutput)) || forall e, n: int | 0 <= e < |events| :: !IsItem(events[e], n))
    ensures Assembled(events) == Response(Get(events[i].value, KResponse))
  {
    hide IsFinal, IsItem, CollectAll, Truthy;
    LastTerminalWins(events, i);
    var items := CollectAll(EmptyAssembly, events).items;
    if n :| n in items {
      OnlyCollected(events, n);
    }
  }

  /** Its output is empty or missing and items were finished: the response with only its output filled,
      by the last finished item of each index, in the order of the indices. */
  lemma ResponseFilled(events: seq<Option<Json>>, i: nat, e: nat, n: int) returns (indices: seq<int>)
    requires IsLast(events, IsFinal, i) && e < |events| && IsItem(events[e], n)
    requires Get(events[i].value, KResponse).Obj? && !Truthy(Get(Get(events[i].value, KResponse), KOutput))
    ensures forall j, k | 0 <= j < k < |indices| :: indices[j] < indices[k]
    ensures forall k: int :: k in indices <==> exists d :: 0 <= d < |events| && IsItem(events[d], k)
    ensures
      var answer, response := Assembled(events), Get(events[i].value, KResponse);
      && answer.Response? && answer.response.Obj?
      && answer.response.m.Keys == response.m.Keys + {KOutput}
      && (forall k | k in response.m && k != KOutput :: answer.response.m[k] == response.m[k])
      && Get(answer.response, KOutput).Arr?
      && var output := Get(answer.response, KOutput).xs;
         && |output| == |indices|
         && forall j, d: nat | 0 <= j < |output| && IsLastItem(events, indices[j], d) ::
              output[j] == Get(events[d].value, KItem)
  {
    hide IsFinal, IsItem, CollectAll, Truthy;
    LastTerminalWins(events, i);
    indices := Sorted(CollectAll(EmptyAssembly, events).items.Keys);
    forall k: int { ItemsOf(events, k); }
    assert n in indices;
    forall j, d: nat | 0 <= j < |indices| && IsLastItem(events, indices[j], d)
      ensures events[d].Some?
      ensures InOrder(CollectAll(EmptyAssembly, events).items)[j] == Get(events[d].value, KItem)
    {
      ItemIsSome(events[d], indices[j]);
      LastItemWins(events, d, indices[j]);
    }
  }

  /** Items are kept for exactly the indices that have one. */
  lemma ItemsOf(events: seq<Option<Json>>, k: int)
    ensures k in CollectAll(EmptyAssembly, events).items <==> exists d :: 0 <= d < |events| && IsItem(events[d], k)
  {
    hide IsItem, CollectAll;
    OnlyCollected(events, k);
    if d :| 0 <= d < |events| && IsItem(events[d], k) {
      var last := LastItem(events, d, k);
      LastItemWins(events, last, k);
    }
  }

  lemma ItemIsSome(event: Option<Json>, index: int)
    ensures IsItem(event, index) ==> event.Some?
  {
  }

  /** There is a last item of an index that has one. */
  lemma LastItem(events: seq<Option<Json>>, d: nat, index: int) returns (last: nat)
    requires d < |events| && IsItem(events[d], index)
    ensures IsLastItem(events, index, last)
  {
    hide IsItem;
    last := |events| - 1;
    while !IsItem(events[last], index)
      invariant d <= last < |events| && forall j | last < j < |events| :: !IsItem(events[j], index)
      decreases last
    {
      last := last - 1;
    }
  }

  /** No terminal response: the last error event is the answer, and without one there is none. */
  lemma NoResponse(events: seq<Option<Json>>)
    requires forall i: nat | IsLast(events, IsFinal, i) :: Get(events[i].value, KResponse) == Null
    ensures forall i: nat | IsLast(events, IsErrorEvent, i) :: Assembled(events) == ErrorEvent(events[i].value)
    ensures (forall i | 0 <= i < |events| :: !IsErrorEvent(events[i])) ==> Assembled(events) == NoTerminal
  {
    hide IsFinal, CollectAll;
    NoFinal(events);
    OnlyCollected(events, 0);
    forall i: nat | IsLast(events, IsErrorEvent, i) ensures Assembled(events) == ErrorEvent(events[i].value) {
      LastErrorWins(events, i);
    }
  }

  lemma NoFinal(events: seq<Option<Json>>)
    requires forall i: nat | IsLast(events, IsFinal, i) :: Get(events[i].value, KResponse) == Null
    ensures CollectAll(EmptyAssembly, events).final == Null
  {
    hide IsFinal, CollectAll;
    OnlyCollected(events, 0);
    if i :| 0 <= i < |events| && IsFinal(events[i]) {
      var last := |events| - 1;
      while !IsFinal(events[last])
        invariant i <= last < |events| && forall j | last < j < |events| :: !IsFinal(events[j])
        decreases last
      {
        last := last - 1;
      }
      assert IsLast(events, IsFinal, last);
      LastTerminalWins(events, last);
    }
  }

  /** A terminal response that is neither null nor an object raises. */
  lemma WrongResponseRaises(events: seq<Option<Json>>, i: nat)
    requires IsLast(events, IsFinal, i)
    requires Get(events[i].value, KResponse) != Null && !Get(events[i].value, KResponse).Obj?
    ensures Assembled(events) == Raises
  {
    hide IsFinal, CollectAll;
    LastTerminalWins(events, i);
  }

  // ---------------------------------------------------------------- the square, on events

  /** The event each block carries, before and after the rewrite. */
  function DataAll(codec: Codec, blocks: seq<Block>): seq<Option<Json>> {
    seq(|blocks|, i requires 0 <= i < |blocks| => Data(codec, blocks[i]))
  }

  /** The id announced before the last terminal event. */
  function TerminalId(codec: Codec, blocks: seq<Block>): string {
    if blocks == [] then ""
    else
      var last := Data(codec, blocks[|blocks| - 1]);
      var front := blocks[..|blocks| - 1];
      if last.Some? && KindOf(last.value) == Terminal then CreatedId(codec, front)
      else TerminalId(codec, front)
  }

  /** Rewriting a response object directly: tag its reasoning items, head its messages, set its id. */
  function RewriteResponse(cfg: Config, id: string, response: Json): Json {
    if response.Obj? then RewriteOutput(cfg, if id != "" then Put(response, KId, Str(id)) else response)
    else response
  }

  function RewriteResult(cfg: Config, id: string, r: Result): Result {
    if r.Response? then Response(RewriteResponse(cfg, id, r.response)) else r
  }

  function RewriteAssembly(cfg: Config, id: string, a: Assembly): Assembly {
    Assembly(RewriteResponse(cfg, id, a.final), a.error, map k | k in a.items :: RewriteItem(cfg, a.items[k]))
  }

  lemma OtherEventsKept(cfg: Config, ctx: Context, data: Json)
    requires data.Obj? && IsError(data)
    ensures Edit(cfg, ctx, data).None? && KindOf(data) == OtherKind
  {
  }

  /** Collecting one rewritten event is rewriting what collecting the raw event gives. */
  lemma CollectRewritten(cfg: Config, codec: Codec, ctx: Context, data: Json, next: Option<Json>,
                         a: Assembly, id: string)
    requires data.Obj?
    ensures
      var d := RewriteOneData(cfg, codec, ctx, data, next);
      var id' := if KindOf(data) == Terminal then ctx.responseId else id;
      Collect(RewriteAssembly(cfg, id, a), Some(d)) == RewriteAssembly(cfg, id', Collect(a, Some(data)))
  {
    hide KindOfType, RewriteItem, RewriteOutput;
    var d := RewriteOneData(cfg, codec, ctx, data, next);
    if IsError(data) {
      OtherEventsKept(cfg, ctx, data);
    }
    RewrittenEvent(cfg, codec, ctx, data, next);
    if KindOf(data) == ItemDone && Get(data, KItem).Obj? {
      var k, item := IndexOf(Get(data, KOutputIndex)), Get(data, KItem);
      assert RewriteAssembly(cfg, id, a.(items := a.items[k := item])).items ==
             RewriteAssembly(cfg, id, a).items[k := RewriteItem(cfg, item)];
    }
  }

  /** What the assembler reads of a rewritten event. */
  lemma RewrittenEvent(cfg: Config, codec: Codec, ctx: Context, data: Json, next: Option<Json>)
    requires data.Obj?
    ensures
      var d := RewriteOneData(cfg, codec, ctx, data, next);
      && Get(d, KType) == Get(data, KType)
      && (KindOf(data) == ItemDone ==>
            && Get(d, KOutputIndex) == Get(data, KOutputIndex)
            && Get(d, KItem) == RewriteItem(cfg, Get(data, KItem))
            && (Get(d, KItem).Obj? <==> Get(data, KItem).Obj?))
      && (KindOf(data) == Terminal ==>
            Get(d, KResponse) == RewriteResponse(cfg, ctx.responseId, Get(data, KResponse)))
  {
    hide KindOfType, RewriteOutput, TagItem, SignItem, SignDone, TagDone, TagEventItems, SetResponseId, IsReasoning,
         IsMessage, Closes;
    SignDoneFields(cfg, ctx.headerParts, data);
    TagDoneFields(cfg, data);
    ItemFields(cfg, data);
    IdFields(cfg, ctx.responseId, data);
    ItemFields(cfg, SetResponseId(ctx.responseId, data));
    PlainItem(cfg, Get(data, KItem));
  }

  lemma ItemFields(cfg: Config, data: Json)
    requires data.Obj?
    ensures
      var d := TagEventItems(cfg, data);
      && Get(d, KType) == Get(data, KType) && Get(d, KOutputIndex) == Get(data, KOutputIndex)
      && Get(d, KItem) == RewriteItem(cfg, Get(data, KItem))
      && Get(d, KResponse) == RewriteOutput(cfg, Get(data, KResponse))
  {
    hide RewriteOutput;
    PlainItem(cfg, Get(data, KItem));
    NotAnObject(cfg, Get(data, KItem), Get(data, KResponse));
    hide RewriteItem;
  }

  lemma NotAnObject(cfg: Config, item: Json, response: Json)
    ensures !item.Obj? ==> RewriteItem(cfg, item) == item
    ensures !response.Obj? ==> RewriteOutput(cfg, response) == response
  {
  }

  lemma IdFields(cfg: Config, id: string, data: Json)
    requires data.Obj?
    ensures
      var d := SetResponseId(id, data);
      && d.Obj? && Get(d, KType) == Get(data, KType)
      && RewriteOutput(cfg, Get(d, KResponse)) == RewriteResponse(cfg, id, Get(data, KResponse))
  {
    hide RewriteItems;
  }

  lemma SignDoneFields(cfg: Config, parts: map<MessageKey, Json>, data: Json)
    requires data.Obj?
    ensures Get(SignDone(cfg, parts, data), KType) == Get(data, KType)
  {
  }

  lemma TagDoneFields(cfg: Config, data: Json)
    requires data.Obj?
    ensures Get(TagDone(cfg, data), KType) == Get(data, KType)
  {
  }

  /** Items that the rewriter passes on are those that need no rewriting. */
  lemma PlainItem(cfg: Config, item: Json)
    ensures !IsReasoning(item) && !(cfg.signature != "" && IsMessage(item)) ==> RewriteItem(cfg, item) == item
    ensures RewriteItem(cfg, item).Obj? <==> item.Obj?
  {
  }

  /** Assembling the rewritten events is rewriting the assembled raw events. */
  lemma {:induction false} CollectCommutes(cfg: Config, codec: Codec, blocks: seq<Block>, tail: seq<Block>)
    requires codec.Lawful()
    ensures
      var out := Rewritten(cfg, codec, InitContext, blocks + tail)[..|blocks|];
      CollectAll(EmptyAssembly, DataAll(codec, out)) ==
      RewriteAssembly(cfg, TerminalId(codec, blocks), CollectAll(EmptyAssembly, DataAll(codec, blocks)))
    decreases |blocks|
  {
    hide KindOfType, Data, Collect, RewriteOne, RewriteAssembly, RewriteOneData;
    var out := Rewritten(cfg, codec, InitContext, blocks + tail)[..|blocks|];
    if blocks == [] {
      EmptyRewritten(cfg);
    } else {
      var n := |blocks| - 1;
      var front, last := blocks[..n], blocks[n];
      CollectCommutes(cfg, codec, front, [last] + tail);
      assert front + ([last] + tail) == blocks + tail;
      assert DataAll(codec, out)[..n] == DataAll(codec, out[..n]);
      assert DataAll(codec, blocks)[..n] == DataAll(codec, front);
      assert out[..n] == Rewritten(cfg, codec, InitContext, front + ([last] + tail))[..n];
      LastRewritten(cfg, codec, blocks, tail,
                    CollectAll(EmptyAssembly, DataAll(codec, front)), TerminalId(codec, front));
    }
  }

  lemma EmptyRewritten(cfg: Config)
    ensures RewriteAssembly(cfg, "", EmptyAssembly) == EmptyAssembly
  {
    assert RewriteAssembly(cfg, "", EmptyAssembly).items == map[];
  }

  lemma LastRewritten(cfg: Config, codec: Codec, blocks: seq<Block>, tail: seq<Block>, a: Assembly, id: string)
    requires codec.Lawful() && blocks != []
    requires id == TerminalId(codec, blocks[..|blocks| - 1])
    ensures
      var n := |blocks| - 1;
      var out := Rewritten(cfg, codec, InitContext, blocks + tail)[n];
      Collect(RewriteAssembly(cfg, id, a), Data(codec, out)) ==
      RewriteAssembly(cfg, TerminalId(codec, blocks), Collect(a, Data(codec, blocks[n])))
  {
    hide KindOfType, Data, RewriteOne, RewriteAssembly, RewriteOneData, CreatedId, IsError;
    var n := |blocks| - 1;
    var all := blocks + tail;
    assert all[..n] == blocks[..n] && all[n] == blocks[n];
    var ctx := ContextAfter(cfg, codec, InitContext, blocks[..n]);
    var next := NextData(codec, all[n + 1..]);
    RewrittenAt(cfg, codec, InitContext, all, n);
    ContextKnowsCreatedId(cfg, codec, blocks[..n]);
    var data := Data(codec, blocks[n]);
    if data.Some? {
      RewriteOneIs(cfg, codec, ctx, blocks[n], next);
      CollectRewritten(cfg, codec, ctx, data.value, next, a, id);
    } else {
      RewriteOneNone(cfg, codec, ctx, blocks[n], next);
    }
  }

  lemma RewriteOneNone(cfg: Config, codec: Codec, ctx: Context, block: Block, next: Option<Json>)
    requires Data(codec, block).None?
    ensures RewriteOne(cfg, codec, ctx, block, next) == block
  {
  }

  lemma RewriteEmptyOutput(cfg: Config, response: Json)
    requires response.Obj? && !Truthy(Get(response, KOutput))
    ensures RewriteOutput(cfg, response) == response
  {
    hide RewriteItem;
    assert RewriteItems(cfg, []) == [];
    if Get(response, KOutput).Arr? { assert response.m[KOutput := Arr([])] == response.m; }
  }

  lemma SetIdThenItems(cfg: Config, id: string, response: Json, items: seq<Json>)
    requires response.Obj?
    ensures
      var moved := if id != "" then Put(response, KId, Str(id)) else response;
      Put(moved, KOutput, Arr(RewriteItems(cfg, items))) ==
      RewriteResponse(cfg, id, Put(response, KOutput, Arr(items)))
  {
    hide RewriteItems;
    var whole := Put(response, KOutput, Arr(items));
    if id != "" {
      assert whole.m[KId := Str(id)][KOutput := Arr(RewriteItems(cfg, items))] ==
             response.m[KId := Str(id)][KOutput := Arr(RewriteItems(cfg, items))];
    } else {
      assert whole.m[KOutput := Arr(RewriteItems(cfg, items))] ==
             response.m[KOutput := Arr(RewriteItems(cfg, items))];
    }
  }

  /** A non-empty list of items stays one. */
  lemma RewriteOutputTruthy(cfg: Config, id: string, response: Json)
    requires response.Obj?
    ensures RewriteResponse(cfg, id, response).Obj?
    ensures Truthy(Get(RewriteResponse(cfg, id, response), KOutput)) <==> Truthy(Get(response, KOutput))
  {
    hide RewriteItem;
  }

  /** Building the response from collected items commutes with the rewrite too. */
  lemma FinishCommutes(cfg: Config, id: string, a: Assembly)
    ensures Finish(RewriteAssembly(cfg, id, a)) == RewriteResult(cfg, id, Finish(a))
  {
    hide RewriteItem, RewriteOutput, Truthy, InOrder, RewriteItems;
    var b := RewriteAssembly(cfg, id, a);
    if a.final.Obj? {
      RewriteOutputTruthy(cfg, id, a.final);
      if !Truthy(Get(a.final, KOutput)) {
        var moved := if id != "" then Put(a.final, KId, Str(id)) else a.final;
        assert Get(moved, KOutput) == Get(a.final, KOutput);
        RewriteEmptyOutput(cfg, moved);
        ItemsInOrder(cfg, id, a);
        SetIdThenItems(cfg, id, a.final, InOrder(a.items));
      }
    }
  }

  lemma ItemsInOrder(cfg: Config, id: string, a: Assembly)
    ensures
      var items := RewriteAssembly(cfg, id, a).items;
      InOrder(items) == RewriteItems(cfg, InOrder(a.items)) && (items == map[] <==> a.items == map[])
  {
    hide RewriteItem, RewriteOutput;
    var items := RewriteAssembly(cfg, id, a).items;
    assert items.Keys == a.items.Keys;
    SameKeys(a.items, items);
  }

  lemma SameKeys(a: map<int, Json>, b: map<int, Json>)
    requires a.Keys == b.Keys
    ensures a == map[] <==> b == map[]
  {
  }
}
