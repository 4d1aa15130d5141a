/** What a model call is for, read off the tail of its input. */
module Classify {
  import opened Json
  import opened Text
  import opened Sequences
  import opened CacheKeys
  import opened RouteLease

  /** An input item, as far as classification reads it. */
  datatype Entry =
    | ToolOutput(callId: string, text: string)
    | ToolCall(callId: string, name: string)
    | UserItem
    | OtherItem

  /** A summary of several tool results. */
  datatype Batch = Batch(count: nat, errors: nat)

  datatype Detail = Detail(kind: StepKind, errored: bool, tool: Option<string>, batch: Option<Batch>)

  /** The end of a text: all of it, or its last `n` characters. */
  function Last(s: string, n: nat): (r: string)
    ensures exists t :: s == t + r && (t == "" || |r| == n) && |r| <= n
  {
    if |s| <= n then
      assert s == "" + s;
      s
    else
      assert s == s[..|s| - n] + s[|s| - n..];
      s[|s| - n..]
  }

  /** The beginning of a text: all of it, or its first `n` characters. */
  function First(s: string, n: nat): (r: string)
    ensures exists t :: s == r + t && (t == "" || |r| == n) && |r| <= n
  {
    if |s| <= n then
      assert s == s + "";
      s
    else
      assert s == s[..n] + s[n..];
      s[..n]
  }

  // ---------------------------------------------------------------- reference

  /** Where the contiguous tool results at the end begin. */
  function BatchStart(items: seq<Entry>): (k: nat)
    ensures k <= |items|
    ensures forall i | k <= i < |items| :: items[i].ToolOutput?
    ensures k > 0 ==> !items[k - 1].ToolOutput?
  {
    if items != [] && items[|items| - 1].ToolOutput? then BatchStart(items[..|items| - 1]) else |items|
  }

  /** A result of a batch is an error when its end matches the error pattern. */
  predicate BatchError(item: Entry, isError: string -> bool) {
    item.ToolOutput? && isError(Last(Strip(item.text), 4000))
  }

  function CountErrors(items: seq<Entry>, isError: string -> bool): (n: nat)
    ensures n == 0 <==> forall i | 0 <= i < |items| :: !BatchError(items[i], isError)
  {
    if items == [] then 0 else (if BatchError(items[0], isError) then 1 else 0) + CountErrors(items[1..], isError)
  }

  predicate IsCall(item: Entry, callId: string) {
    item.ToolCall? && item.callId == callId
  }

  /** The name of the nearest call with this id. */
  function CallName(items: seq<Entry>, callId: string): (r: Option<string>)
    ensures r.None? <==> forall i | 0 <= i < |items| :: !IsCall(items[i], callId)
    ensures r.Some? ==> exists k :: 0 <= k < |items| && IsCall(items[k], callId) && items[k].name == r.value &&
                                    forall i | k < i < |items| :: !IsCall(items[i], callId)
  {
    if items == [] then None
    else
      var last := items[|items| - 1];
      if IsCall(last, callId) then Some(last.name) else CallName(items[..|items| - 1], callId)
  }

  function ToolOf(items: seq<Entry>, callId: string): Option<string> {
    if callId == "" || CallName(items, callId).None? then None else Some(First(CallName(items, callId).value, 160))
  }

  /** The tool of a result is the nearest call with its id, by the first 160 characters of its name. */
  lemma ToolIs(items: seq<Entry>, callId: string)
    ensures ToolOf(items, callId).None? <==>
            callId == "" || forall i | 0 <= i < |items| :: !(items[i].ToolCall? && items[i].callId == callId)
    ensures ToolOf(items, callId).Some? ==>
              exists k :: 0 <= k < |items| && items[k].ToolCall? && items[k].callId == callId &&
                          ToolOf(items, callId) == Some(First(items[k].name, 160)) &&
                          forall i | k < i < |items| :: !(items[i].ToolCall? && items[i].callId == callId)
  {
    hide First;
    if ToolOf(items, callId).Some? {
      var k :| 0 <= k < |items| && IsCall(items[k], callId) && items[k].name == CallName(items, callId).value &&
               forall i | k < i < |items| :: !IsCall(items[i], callId);
      assert items[k].ToolCall? && items[k].callId == callId;
    }
  }

  /** The results that are errors, by their index. */
  function Errors(items: seq<Entry>, isError: string -> bool): set<int> {
    set i | 0 <= i < |items| && items[i].ToolOutput? && isError(Last(Strip(items[i].text), 4000))
  }

  lemma ErrorsAre(items: seq<Entry>, isError: string -> bool, i: int)
    ensures i in Errors(items, isError) <==> 0 <= i < |items| && BatchError(items[i], isError)
  {
    hide Last, Strip;
  }

  /** The errors of a batch are counted. */
  lemma {:induction false} ErrorsCounted(items: seq<Entry>, isError: string -> bool)
    ensures CountErrors(items, isError) == |Errors(items, isError)|
    decreases |items|
  {
    hide BatchError, Errors;
    if items != [] {
      ErrorsCounted(items[1..], isError);
      var rest := Errors(items[1..], isError);
      var moved := set i | i in rest :: i + 1;
      ShiftedSize(rest);
      ErrorsAre(items, isError, 0);
      forall i ensures i in Errors(items, isError) <==> i - 1 in rest || (i == 0 && BatchError(items[0], isError)) {
        ErrorsAre(items, isError, i);
        ErrorsAre(items[1..], isError, i - 1);
      }
      assert 0 !in moved by { ErrorsAre(items[1..], isError, -1); }
      assert Errors(items, isError) == moved + if BatchError(items[0], isError) then {0} else {};
    } else {
      forall i ensures i !in Errors(items, isError) { ErrorsAre(items, isError, i); }
      assert Errors(items, isError) == {};
    }
  }

  lemma {:induction false} ShiftedSize(s: set<int>)
    ensures |set i | i in s :: i + 1| == |s|
    decreases |s|
  {
    if s != {} {
      var x := AnyOf(s);
      ShiftedSize(s - {x});
      var moved, rest := set i | i in s :: i + 1, set i | i in s - {x} :: i + 1;
      forall j ensures j in moved <==> j in rest || j == x + 1 {
        assert j in moved <==> j - 1 in s;
        assert j in rest <==> j - 1 in s - {x};
      }
      assert moved == rest + {x + 1};
    } else {
      assert (set i | i in s :: i + 1) == {};
    }
  }

  // ---------------------------------------------------------------- the loops of `classify`

  method FindCall(items: seq<Entry>, callId: string) returns (name: Option<string>)
    ensures name == ToolOf(items, callId)
  {
    hide First, CallName, IsCall;
    if callId == "" { return None; }
    var i := |items|;
    assert items[..i] == items;
    while 0 < i
      invariant 0 <= i <= |items|
      invariant CallName(items, callId) == CallName(items[..i], callId)
    {
      i := i - 1;
      CallStep(items, i, callId);
      if IsCall(items[i], callId) {
        return Some(First(items[i].name, 160));
      }
    }
    return None;
  }

  lemma CallStep(items: seq<Entry>, i: nat, callId: string)
    requires i < |items|
    ensures IsCall(items[i], callId) ==> items[i].ToolCall?
    ensures CallName(items[..i + 1], callId) ==
            if IsCall(items[i], callId) then Some(items[i].name) else CallName(items[..i], callId)
  {
    assert items[..i + 1][..i] == items[..i];
  }

  method FindBatch(items: seq<Entry>) returns (k: nat)
    ensures k == BatchStart(items)
  {
    k := |items|;
    assert items[..k] == items;
    while 0 < k && items[k - 1].ToolOutput?
      invariant k <= |items| && BatchStart(items) == BatchStart(items[..k])
    {
      assert items[..k][..k - 1] == items[..k - 1];
      k := k - 1;
    }
  }

  method CountBatch(items: seq<Entry>, isError: string -> bool) returns (errors: nat)
    ensures errors == CountErrors(items, isError)
  {
    errors := 0;
    var i := 0;
    assert items[0..] == items;
    while i < |items|
      invariant i <= |items|
      invariant errors + CountErrors(items[i..], isError) == CountErrors(items, isError)
    {
      assert items[i..][0] == items[i] && items[i..][1..] == items[i + 1..];
      if BatchError(items[i], isError) { errors := errors + 1; }
      i := i + 1;
    }
  }

  function Kind(items: seq<Entry>): (k: StepKind)
    ensures k == ToolStep <==> items != [] && items[|items| - 1].ToolOutput?
    ensures k == UserStep <==> items != [] && items[|items| - 1].UserItem?
  {
    if items == [] then OtherStep
    else match items[|items| - 1]
      case ToolOutput(_, _) => ToolStep
      case UserItem => UserStep
      case _ => OtherStep
  }

  /** `classify` on a list input; `isError` is the error pattern. A step is clean only when no result
      of its whole contiguous batch is an error, and its tool is that of the nearest call it answers. */
  method Classify(items: seq<Entry>, isError: string -> bool) returns (d: Detail)
    ensures d.kind == Kind(items)
    ensures d.kind != ToolStep ==> d == Detail(d.kind, false, None, None)
    ensures d.kind == ToolStep ==>
              var n, k := |items| - 1, BatchStart(items);
              && d.tool == ToolOf(items[..n], items[n].callId)
              && (k == n ==> d.batch == None && d.errored == isError(Last(items[n].text, 4000)))
              && (k < n ==>
                    && d.batch == Some(Batch(|items| - k, CountErrors(items[k..], isError)))
                    && (d.errored <==>
                          exists i :: k <= i < |items| && isError(Last(Strip(items[i].text), 4000))))
  {
    hide Last, CountErrors, ToolOf, Strip;
    d := Detail(Kind(items), false, None, None);
    if d.kind != ToolStep { return; }
    var n := |items| - 1;
    var tool := FindCall(items[..n], items[n].callId);
    d := d.(errored := isError(Last(items[n].text, 4000)), tool := tool);
    var k := FindBatch(items);
    if k < n {
      var errors := CountBatch(items[k..], isError);
      BatchErrors(items, k, isError);
      d := d.(batch := Some(Batch(|items| - k, errors)), errored := errors > 0);
    }
  }

  lemma BatchErrors(items: seq<Entry>, k: nat, isError: string -> bool)
    requires k <= |items|
    ensures CountErrors(items[k..], isError) > 0 <==> exists i :: k <= i < |items| && BatchError(items[i], isError)
  {
    hide BatchError;
    var batch := items[k..];
    if i :| k <= i < |items| && BatchError(items[i], isError) {
      assert batch[i - k] == items[i];
    }
    if j :| 0 <= j < |batch| && BatchError(batch[j], isError) {
      assert items[k + j] == batch[j];
    }
  }

  /** What the lease functions see of a classified call. */
  function StepOf(d: Detail): Step {
    Step(d.kind, d.errored, d.tool)
  }

  /** A lease is only reused on a tool step none of whose batch results is an error. */
  method LookupClassified<R>(leases: RouteLeases<R>, scope: Scope, call: Call, items: seq<Entry>,
                             isError: string -> bool, now: real)
    returns (r: Option<Decision<R>>)
    modifies leases
    ensures r.Some? ==>
              var k := BatchStart(items);
              && k < |items|
              && (k < |items| - 1 ==> forall i | k <= i < |items| :: !isError(Last(Strip(items[i].text), 4000)))
              && (k == |items| - 1 ==> !isError(Last(items[k].text, 4000)))
    ensures scope !in old(leases.leases) ==> r.None?
  {
    var d := Classify(items, isError);
    r := leases.RouteLease(scope, call, StepOf(d), now);
  }
}
