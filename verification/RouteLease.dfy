/** Route leases: reusing a routing decision over a clean continuation of one turn. */
module RouteLease {
  import opened Json
  import opened CacheKeys

  datatype Lease = OneCall | ToolChain | UserTurn

  /** A routing decision: its lease, and the other fields that a stored decision keeps. */
  datatype Decision<R> = Decision(lease: Lease, route: R)

  // ---------------------------------------------------------------- the turn of a request

  datatype Item = Item(isUser: bool, text: string)
  datatype Input = TextInput(s: string) | ListInput(items: seq<Item>) | OtherInput

  /** The value that `_turn_fingerprint` hashes: how many user items there are, and the last one's text. */
  datatype Turn = Turn(userCount: nat, text: string)

  function UserCount(items: seq<Item>): nat {
    if items == [] then 0
    else UserCount(items[..|items| - 1]) + if items[|items| - 1].isUser then 1 else 0
  }

  function LastUserText(items: seq<Item>): string {
    if items == [] then ""
    else if items[|items| - 1].isUser then items[|items| - 1].text
    else LastUserText(items[..|items| - 1])
  }

  function TurnOf(input: Input): Option<Turn> {
    match input
    case TextInput(s) => if s == "" then None else Some(Turn(1, s))
    case ListInput(items) =>
      if LastUserText(items) == "" then None else Some(Turn(UserCount(items), LastUserText(items)))
    case OtherInput => None
  }

  method TurnFingerprint(input: Input) returns (t: Option<Turn>)
    ensures t == TurnOf(input)
  {
    var text := if input.TextInput? then input.s else "";
    var users := if input.TextInput? then 1 else 0;
    if input.ListInput? {
      var items := input.items;
      users := 0;
      for i := 0 to |items|
        invariant users == UserCount(items[..i])
      {
        assert items[..i + 1][..i] == items[..i];
        if items[i].isUser { users := users + 1; }
      }
      assert items[..|items|] == items;
      var index := |items|;
      while 0 < index
        invariant 0 <= index <= |items| && text == ""
        invariant LastUserText(items) == LastUserText(items[..index])
      {
        index := index - 1;
        assert items[..index + 1][..index] == items[..index];
        if items[index].isUser {
          text := items[index].text;
          break;
        }
      }
    }
    if text == "" { return None; }
    return Some(Turn(users, text));
  }

  function UserIndices(items: seq<Item>): set<int> {
    set i | 0 <= i < |items| && items[i].isUser
  }

  /** Item `k` is the last user item. */
  predicate IsLastUser(items: seq<Item>, k: nat) {
    k < |items| && items[k].isUser && forall i | k < i < |items| :: !items[i].isUser
  }

  lemma {:induction false} CountIsSize(items: seq<Item>)
    ensures UserCount(items) == |UserIndices(items)|
    decreases |items|
  {
    if items != [] {
      var n := |items| - 1;
      CountIsSize(items[..n]);
      if items[n].isUser {
        assert UserIndices(items) == UserIndices(items[..n]) + {n};
      } else {
        assert UserIndices(items) == UserIndices(items[..n]);
      }
    }
  }

  lemma {:induction false} LastTextIs(items: seq<Item>, k: nat)
    requires IsLastUser(items, k)
    ensures LastUserText(items) == items[k].text
    decreases |items|
  {
    if k < |items| - 1 {
      LastTextIs(items[..|items| - 1], k);
    }
  }

  lemma {:induction false} NoUserNoText(items: seq<Item>)
    requires UserIndices(items) == {}
    ensures LastUserText(items) == ""
    decreases |items|
  {
    if items != [] {
      var n := |items| - 1;
      assert items[n].isUser ==> n in UserIndices(items);
      assert forall i | i in UserIndices(items[..n]) :: i in UserIndices(items);
      NoUserNoText(items[..n]);
    }
  }

  /** The turn of a list is the number of its user items together with the text of the last one; without
      a user item, or when that one has no text, there is no turn. */
  lemma TurnIsLastUserItem(items: seq<Item>)
    ensures forall k: nat | IsLastUser(items, k) ::
              TurnOf(ListInput(items)) ==
              if items[k].text == "" then None else Some(Turn(|UserIndices(items)|, items[k].text))
    ensures UserIndices(items) == {} ==> TurnOf(ListInput(items)) == None
    ensures UserIndices(items) != {} ==> exists k: nat :: IsLastUser(items, k)
  {
    CountIsSize(items);
    forall k: nat | IsLastUser(items, k) ensures LastUserText(items) == items[k].text {
      LastTextIs(items, k);
    }
    if UserIndices(items) == {} {
      NoUserNoText(items);
    } else {
      var k := LastUserItem(items);
    }
  }

  lemma LastUserItem(items: seq<Item>) returns (k: nat)
    requires UserIndices(items) != {}
    ensures IsLastUser(items, k)
  {
    var i :| i in UserIndices(items);
    k := |items| - 1;
    while !items[k].isUser
      invariant i <= k < |items| && forall j | k < j < |items| :: !items[j].isUser
      decreases k
    {
      k := k - 1;
    }
  }

  /** A plain text is a turn with one user item, unless it is empty. */
  lemma TextIsOneTurn(s: string)
    ensures TurnOf(TextInput(s)) == (if s == "" then None else Some(Turn(1, s)))
    ensures TurnOf(TextInput(s)) == TurnOf(ListInput([Item(true, s)]))
  {
    var one := [Item(true, s)];
    TurnIsLastUserItem(one);
    assert IsLastUser(one, 0) && UserIndices(one) == {0};
  }

  /** Two requests are in one turn exactly when they have as many user items and the same last user text. */
  lemma SameTurn(a: seq<Item>, b: seq<Item>, k: nat, l: nat)
    requires IsLastUser(a, k) && IsLastUser(b, l) && a[k].text != ""
    ensures TurnOf(ListInput(a)) == TurnOf(ListInput(b)) <==>
            |UserIndices(a)| == |UserIndices(b)| && a[k].text == b[l].text
  {
    hide TurnOf;
    TurnIsLastUserItem(a);
    TurnIsLastUserItem(b);
  }

  /** Tool calls, tool results and assistant items do not end a turn; a user item always does. */
  lemma {:induction false} TurnEndsWithUserItem(items: seq<Item>, more: seq<Item>)
    ensures (forall i | 0 <= i < |more| :: !more[i].isUser) ==>
              TurnOf(ListInput(items + more)) == TurnOf(ListInput(items))
    ensures (exists i :: 0 <= i < |more| && more[i].isUser) && TurnOf(ListInput(items)).Some? ==>
              TurnOf(ListInput(items + more)) != TurnOf(ListInput(items))
  {
    CountMore(items, more);
  }

  lemma {:induction false} CountMore(items: seq<Item>, more: seq<Item>)
    ensures UserCount(items + more) >= UserCount(items)
    ensures (exists i :: 0 <= i < |more| && more[i].isUser) ==> UserCount(items + more) > UserCount(items)
    ensures (forall i | 0 <= i < |more| :: !more[i].isUser) ==>
              UserCount(items + more) == UserCount(items) && LastUserText(items + more) == LastUserText(items)
    decreases |more|
  {
    if more == [] {
      assert items + more == items;
    } else {
      var n := |more| - 1;
      CountMore(items, more[..n]);
      assert (items + more)[..|items| + n] == items + more[..n];
      assert more == more[..n] + [more[n]];
      if i :| 0 <= i < |more| && more[i].isUser {
        if i < n { assert more[..n][i].isUser; }
      } else {
        assert forall i | 0 <= i < n :: !more[..n][i].isUser;
      }
    }
  }

  // ---------------------------------------------------------------- requests and the table

  datatype StepKind = ToolStep | UserStep | OtherStep

  /** What `classify` says about a call; `tool` is absent when no tool call was found. */
  datatype Step = Step(kind: StepKind, errored: bool, tool: Option<string>)

  /** What the lease functions read of a request; `ttl` is `_cache_ttl_seconds`. */
  datatype Call = Call(cacheKey: Option<string>, turn: Option<Turn>, ttl: real)

  datatype Entry<R> = Entry(turn: Turn, lease: Lease, tool: Option<string>, seenAt: real, decision: Decision<R>)

  type Table<R> = map<Scope, Entry<R>>

  predicate Blank(tool: Option<string>) {
    tool.None? || tool.value == ""
  }

  function Lookup<R>(t: Table<R>, scope: Scope, call: Call, step: Step, now: real): (Table<R>, Option<Decision<R>>) {
    if scope !in t then (t, None)
    else
      var e := t[scope];
      if step.kind != ToolStep || step.errored || call.turn != Some(e.turn) || now - e.seenAt > call.ttl then
        (t - {scope}, None)
      else if e.lease == OneCall then (t - {scope}, None)
      else if e.lease == ToolChain then
        if Blank(step.tool) || (!Blank(e.tool) && step.tool != e.tool) then (t - {scope}, None)
        else (t[scope := e.(tool := step.tool, seenAt := now)], Some(e.decision))
      else (t[scope := e.(seenAt := now)], Some(e.decision))
  }

  function Remember<R>(t: Table<R>, scope: Scope, call: Call, step: Step, decision: Option<Decision<R>>,
                       status: int, now: real): Table<R>
  {
    if status != 200 || !HasCacheKey(call.cacheKey) || decision.None? || decision.value.lease == OneCall then
      t - {scope}
    else if call.turn.None? then t
    else
      t[scope := Entry(call.turn.value, decision.value.lease,
                       if step.kind == ToolStep then step.tool else None, now, decision.value)]
  }

  /** The lock-protected table; each method body is one locked section. */
  class RouteLeases<R> {
    var leases: map<Scope, Entry<R>>

    constructor ()
      ensures leases == map[]
    {
      leases := map[];
    }

    method RouteLease(scope: Scope, call: Call, step: Step, now: real) returns (r: Option<Decision<R>>)
      modifies this
      ensures (leases, r) == Lookup(old(leases), scope, call, step, now)
    {
      if scope !in leases { return None; }
      var entry := leases[scope];
      if step.kind != ToolStep || step.errored || call.turn.None? || call.turn.value != entry.turn
         || now - entry.seenAt > call.ttl
      {
        leases := leases - {scope};
        return None;
      }
      if entry.lease == OneCall {
        leases := leases - {scope};
        return None;
      }
      if entry.lease == ToolChain {
        var tool := if step.tool.Some? then step.tool.value else "";
        if !Blank(entry.tool) && tool != entry.tool.value {
          leases := leases - {scope};
          return None;
        }
        if tool == "" {
          leases := leases - {scope};
          return None;
        }
        entry := entry.(tool := Some(tool));
      }
      entry := entry.(seenAt := now);
      leases := leases[scope := entry];
      return Some(entry.decision);
    }

    method RememberRouteLease(scope: Scope, call: Call, step: Step, decision: Option<Decision<R>>, status: int,
                              now: real)
      modifies this
      ensures leases == Remember(old(leases), scope, call, step, decision, status, now)
    {
      if status != 200 || !HasCacheKey(call.cacheKey) || decision.None? || decision.value.lease == OneCall {
        leases := leases - {scope};
        return;
      }
      if call.turn.None? { return; }
      leases := leases[scope := Entry(call.turn.value, decision.value.lease,
                                      if step.kind == ToolStep then step.tool else None, now, decision.value)];
    }
  }

  // ---------------------------------------------------------------- histories

  /** One locked section, by any request of any session. */
  datatype Op<R> =
    | LookupOp(scope: Scope, call: Call, step: Step, now: real)
    | RememberOp(scope: Scope, call: Call, step: Step, now: real, decision: Option<Decision<R>>, status: int)

  function Apply<R>(t: Table<R>, op: Op<R>): Table<R> {
    match op
    case LookupOp(scope, call, step, now) => Lookup(t, scope, call, step, now).0
    case RememberOp(scope, call, step, now, decision, status) => Remember(t, scope, call, step, decision, status, now)
  }

  function TableAfter<R>(ops: seq<Op<R>>): Table<R>
    decreases |ops|
  {
    if ops == [] then map[] else Apply(TableAfter(ops[..|ops| - 1]), ops[|ops| - 1])
  }

  /** The operation stores `d` for the turn: a completed call with a cache key and a lease beyond one call. */
  ghost predicate Stores<R>(op: Op<R>, scope: Scope, d: Decision<R>, turn: Turn) {
    && op.RememberOp? && op.scope == scope && op.status == 200 && HasCacheKey(op.call.cacheKey)
    && op.decision == Some(d) && d.lease != OneCall && op.call.turn == Some(turn)
  }

  /** A completed call without a user text leaves the table as it is. */
  predicate Ignored<R>(op: Op<R>) {
    && op.RememberOp? && op.status == 200 && HasCacheKey(op.call.cacheKey)
    && op.decision.Some? && op.decision.value.lease != OneCall && op.call.turn.None?
  }

  /** A clean tool step of the turn, in time after the last use; a tool chain asks for one tool. */
  predicate Continues(call: Call, step: Step, now: real, turn: Turn, lease: Lease, name: string, lastUse: real) {
    && step.kind == ToolStep && !step.errored && call.turn == Some(turn) && now - lastUse <= call.ttl
    && (lease == ToolChain ==> name != "" && step.tool == Some(name))
  }

  /** When the lease stored by `ops[k]` was last used before `ops[n]`. */
  function LastUse<R>(ops: seq<Op<R>>, k: nat, scope: Scope, n: nat): real
    requires k < n <= |ops|
    decreases n
  {
    if n == k + 1 then ops[k].now
    else if ops[n - 1].scope == scope && ops[n - 1].LookupOp? then ops[n - 1].now
    else LastUse(ops, k, scope, n - 1)
  }

  /** Every operation on the scope since `ops[k]` continued the lease or was ignored. */
  ghost predicate Unbroken<R>(ops: seq<Op<R>>, k: nat, scope: Scope, turn: Turn, lease: Lease, name: string) {
    k < |ops| &&
    forall i | k < i < |ops| && ops[i].scope == scope ::
      if ops[i].LookupOp? then
        Continues(ops[i].call, ops[i].step, ops[i].now, turn, lease, name, LastUse(ops, k, scope, i))
      else Ignored(ops[i])
  }

  predicate ToolFits<R>(op: Op<R>, lease: Lease, name: string) {
    lease == ToolChain && op.step.kind == ToolStep && !Blank(op.step.tool) ==> op.step.tool == Some(name)
  }

  /** The lease stored by `ops[k]` is alive after all operations, for the tool name. */
  ghost predicate Alive<R>(ops: seq<Op<R>>, k: nat, scope: Scope, d: Decision<R>, turn: Turn, name: string) {
    && k < |ops| && Stores(ops[k], scope, d, turn) && ToolFits(ops[k], d.lease, name)
    && Unbroken(ops, k, scope, turn, d.lease, name)
  }

  ghost predicate NoLookup<R>(ops: seq<Op<R>>, k: nat, scope: Scope) {
    forall i | k < i < |ops| && ops[i].scope == scope :: !ops[i].LookupOp?
  }

  /** What the table holds for an alive lease. */
  ghost predicate Holds<R>(ops: seq<Op<R>>, k: nat, scope: Scope, d: Decision<R>, turn: Turn, name: string,
                           e: Entry<R>) {
    && Alive(ops, k, scope, d, turn, name)
    && e.turn == turn && e.lease == d.lease && e.decision == d
    && e.seenAt == LastUse(ops, k, scope, |ops|)
    && (d.lease == ToolChain ==>
          if Blank(e.tool) then NoLookup(ops, k, scope) else e.tool == Some(name))
  }

  lemma {:induction false} LastUseLonger<R>(ops: seq<Op<R>>, op: Op<R>, k: nat, scope: Scope, n: nat)
    requires k < n <= |ops|
    ensures LastUse(ops + [op], k, scope, n) == LastUse(ops, k, scope, n)
    decreases n
  {
    if n != k + 1 {
      LastUseLonger(ops, op, k, scope, n - 1);
    }
  }

  /** A history that ends with a continuation, or with something that does not concern the scope. */
  lemma UnbrokenLonger<R>(ops: seq<Op<R>>, op: Op<R>, k: nat, scope: Scope, turn: Turn, lease: Lease, name: string)
    requires k < |ops|
    ensures Unbroken(ops + [op], k, scope, turn, lease, name) <==>
            Unbroken(ops, k, scope, turn, lease, name) &&
            (op.scope == scope ==>
               if op.LookupOp? then
                 Continues(op.call, op.step, op.now, turn, lease, name, LastUse(ops, k, scope, |ops|))
               else Ignored(op))
  {
    hide Continues, Ignored, LastUse;
    var all := ops + [op];
    forall i | k < i <= |ops| ensures LastUse(all, k, scope, i) == LastUse(ops, k, scope, i) {
      LastUseLonger(ops, op, k, scope, i);
    }
    assert forall i | k < i < |ops| :: all[i] == ops[i];
    assert all[|ops|] == op;
  }

  /** An alive lease is in the table. */
  lemma {:induction false} AliveIsHeld<R>(ops: seq<Op<R>>, k: nat, scope: Scope, d: Decision<R>, turn: Turn,
                                          name: string)
    requires Alive(ops, k, scope, d, turn, name)
    ensures scope in TableAfter(ops) && Holds(ops, k, scope, d, turn, name, TableAfter(ops)[scope])
    decreases |ops|
  {
    var n := |ops| - 1;
    var front, op := ops[..n], ops[n];
    assert ops == front + [op];
    if k == n {
      assert LastUse(ops, k, scope, |ops|) == op.now;
    } else {
      UnbrokenLonger(front, op, k, scope, turn, d.lease, name);
      AliveIsHeld(front, k, scope, d, turn, name);
      LastUseLonger(front, op, k, scope, |front|);
    }
  }

  /** Everything in the table comes from an alive lease. */
  lemma {:induction false} HeldIsAlive<R(!new)>(ops: seq<Op<R>>, scope: Scope)
    requires scope in TableAfter(ops)
    ensures exists k: nat, d: Decision<R>, turn: Turn, name: string ::
              Holds(ops, k, scope, d, turn, name, TableAfter(ops)[scope])
    decreases |ops|
  {
    var n := |ops| - 1;
    var front, op := ops[..n], ops[n];
    assert ops == front + [op];
    if op.RememberOp? && op.scope == scope && !Ignored(op) {
      var d, turn := op.decision.value, op.call.turn.value;
      var name := if op.step.kind == ToolStep && !Blank(op.step.tool) then op.step.tool.value else "";
      assert Holds(ops, n, scope, d, turn, name, TableAfter(ops)[scope]);
    } else {
      HeldIsAlive(front, scope);
      var e := TableAfter(front)[scope];
      var k: nat, d: Decision<R>, turn: Turn, name: string :| Holds(front, k, scope, d, turn, name, e);
      var name' := StillHeld(front, op, k, scope, d, turn, name, e);
      assert Holds(ops, k, scope, d, turn, name', TableAfter(ops)[scope]);
    }
  }

  /** An operation that leaves the scope's entry, or continues it, keeps the history alive. */
  lemma StillHeld<R>(front: seq<Op<R>>, op: Op<R>, k: nat, scope: Scope, d: Decision<R>, turn: Turn, name: string,
                     e: Entry<R>)
    returns (name': string)
    requires scope in TableAfter(front) && TableAfter(front)[scope] == e
    requires Holds(front, k, scope, d, turn, name, e)
    requires scope in Apply(TableAfter(front), op)
    requires op.RememberOp? && op.scope == scope ==> Ignored(op)
    ensures Holds(front + [op], k, scope, d, turn, name', Apply(TableAfter(front), op)[scope])
  {
    var ops := front + [op];
    name' := if op.LookupOp? && op.scope == scope && d.lease == ToolChain && Blank(e.tool) then op.step.tool.value
             else name;
    if name' != name {
      FirstTool(front, k, scope, d, turn, e);
    }
    UnbrokenLonger(front, op, k, scope, turn, d.lease, name');
    LastUseLonger(front, op, k, scope, |front|);
    assert ops[|front|] == op && ops[k] == front[k];
    assert LastUse(ops, k, scope, |ops|) ==
           if op.scope == scope && op.LookupOp? then op.now else LastUse(front, k, scope, |front|);
    if op.scope == scope && op.LookupOp? {
      assert Continues(op.call, op.step, op.now, turn, d.lease, name', e.seenAt);
    } else {
      assert NoLookup(front, k, scope) ==> NoLookup(ops, k, scope);
    }
  }

  /** Before the first lookup the tool name of a chain is still open. */
  lemma Renamed<R>(ops: seq<Op<R>>, k: nat, scope: Scope, d: Decision<R>, turn: Turn, name: string, name': string,
                   e: Entry<R>)
    requires Holds(ops, k, scope, d, turn, name, e)
    requires name' != name ==> d.lease == ToolChain && Blank(e.tool) && NoLookup(ops, k, scope)
    ensures Unbroken(ops, k, scope, turn, d.lease, name')
  {
  }

  /** A lookup answers with a decision exactly when that decision was stored for this scope by a
      completed call with a cache key and a lease beyond one call, nothing effective was stored since,
      and every lookup since then, this one included, was a clean tool step of the same turn within the
      time to live of the previous use, for a tool chain always with the same tool. */
  lemma LeaseSafety<R(!new)>(ops: seq<Op<R>>, scope: Scope, call: Call, step: Step, now: real, d: Decision<R>)
    ensures Lookup(TableAfter(ops), scope, call, step, now).1 == Some(d) <==>
            exists k: nat, turn: Turn, name: string ::
              && Alive(ops, k, scope, d, turn, name)
              && Continues(call, step, now, turn, d.lease, name, LastUse(ops, k, scope, |ops|))
  {
    var t := TableAfter(ops);
    if Lookup(t, scope, call, step, now).1 == Some(d) {
      HeldIsAlive(ops, scope);
      var e := t[scope];
      var k: nat, d': Decision<R>, turn: Turn, name: string :| Holds(ops, k, scope, d', turn, name, e);
      var name' := if d.lease == ToolChain then step.tool.value else name;
      if name' != name {
        Renamed(ops, k, scope, d, turn, name, name', e);
        FirstTool(ops, k, scope, d, turn, e);
      }
      assert Alive(ops, k, scope, d, turn, name');
      assert Continues(call, step, now, turn, d.lease, name', LastUse(ops, k, scope, |ops|));
    }
    if k: nat, turn: Turn, name: string :|
         Alive(ops, k, scope, d, turn, name) &&
         Continues(call, step, now, turn, d.lease, name, LastUse(ops, k, scope, |ops|))
    {
      AliveIsHeld(ops, k, scope, d, turn, name);
    }
  }

  /** While the entry has no tool name, neither has the call that stored it. */
  lemma {:induction false} FirstTool<R>(ops: seq<Op<R>>, k: nat, scope: Scope, d: Decision<R>, turn: Turn, e: Entry<R>)
    requires d.lease == ToolChain && scope in TableAfter(ops) && e == TableAfter(ops)[scope] && Blank(e.tool)
    requires exists name :: Holds(ops, k, scope, d, turn, name, e)
    ensures forall name' :: ToolFits(ops[k], d.lease, name')
    decreases |ops|
  {
    var n := |ops| - 1;
    var front, op := ops[..n], ops[n];
    assert ops == front + [op];
    var name :| Holds(ops, k, scope, d, turn, name, e);
    if k < n {
      UnbrokenLonger(front, op, k, scope, turn, d.lease, name);
      AliveIsHeld(front, k, scope, d, turn, name);
      FirstTool(front, k, scope, d, turn, TableAfter(front)[scope]);
    }
  }

  /** No entry ever holds a lease of one call: the lookup's check for it never succeeds. */
  lemma NeverOneCall<R(!new)>(ops: seq<Op<R>>, scope: Scope)
    requires scope in TableAfter(ops)
    ensures TableAfter(ops)[scope].lease != OneCall
  {
    HeldIsAlive(ops, scope);
  }
}
