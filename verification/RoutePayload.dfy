/** Applying a route to a request in place, and undoing the previous attempt by object identity. */
module RoutePayload {
  import opened Json

  /** One element of the request's input; `kind` is its type field. Items are told apart by identity. */
  class Item {
    const isObject: bool
    const role: string
    const kind: string
    const effort: string

    constructor (isObject: bool, role: string, kind: string, effort: string)
      ensures this.isObject == isObject && this.role == role && this.kind == kind && this.effort == effort
    {
      this.isObject, this.role, this.kind, this.effort := isObject, role, kind, effort;
    }
  }

  predicate IsUser(item: Item) {
    item.isObject && item.role == "user"
  }

  const UPDATE := "configuration_update"

  predicate BlocksUpdate(item: Item) {
    item.isObject && (item.kind == UPDATE || item.kind == "compaction" || item.kind == "compaction_summary")
  }

  const ASTRA := "gpt-6-astra"
  const EFFORTS := ["low", "medium", "high", "xhigh", "max"]

  /** The reasoning object of a request; an empty effort means that it has none. */
  datatype Reasoning = Reasoning(effort: string, extra: string)
  datatype Transport = ViaRequest | ViaUpdate

  type Items = seq<Item>

  // ---------------------------------------------------------------- lists of items

  function Without(items: Items, gone: Item?): (r: Items)
    ensures gone == null ==> r == items
    ensures gone != null ==> gone !in r
    ensures gone !in items ==> r == items
  {
    if items == [] then []
    else if items[0] == gone then Without(items[1..], gone)
    else [items[0]] + Without(items[1..], gone)
  }

  lemma {:induction false} WithoutInserted(items: Items, k: nat, x: Item)
    requires k <= |items| && x !in items
    ensures Without(items[..k] + [x] + items[k..], x) == items
    decreases k
  {
    var all := items[..k] + [x] + items[k..];
    if k == 0 {
      assert all[0] == x && all[1..] == items;
    } else {
      assert all[0] == items[0];
      assert all[1..] == items[1..][..k - 1] + [x] + items[1..][k - 1..];
      WithoutInserted(items[1..], k - 1, x);
    }
  }

  predicate HasUser(items: Items) {
    exists i | 0 <= i < |items| :: IsUser(items[i])
  }

  /** The index of the last user item. */
  function LastUser(items: Items): (k: nat)
    requires HasUser(items)
    ensures k < |items| && IsUser(items[k])
    ensures forall i | k < i < |items| :: !IsUser(items[i])
  {
    if IsUser(items[|items| - 1]) then |items| - 1 else LastUser(items[..|items| - 1])
  }

  // ---------------------------------------------------------------- the request

  class Payload {
    const truncationAuto: bool
    const contextManagement: bool
    var input: Option<Items>  // None: a plain text or no input at all
    var reasoning: Option<Reasoning>
    var model: string
    var serviceTier: string
    var stream: bool

    constructor (input: Option<Items>, reasoning: Option<Reasoning>, truncationAuto: bool, contextManagement: bool)
      ensures this.input == input && this.reasoning == reasoning
    {
      this.input, this.reasoning := input, reasoning;
      this.truncationAuto, this.contextManagement := truncationAuto, contextManagement;
      model, serviceTier, stream := "jev/auto", "", false;
    }

    predicate Eligible(input: Option<Items>) {
      && input.Some? && input.value != []
      && !truncationAuto && !contextManagement
      && (forall i | 0 <= i < |input.value| :: !BlocksUpdate(input.value[i]))
      && HasUser(input.value)
    }

    /** An effort that differs from the request's own one travels as a configuration update. */
    predicate UsesUpdate(input: Option<Items>, original: Option<Reasoning>, model: string, effort: string) {
      && model == ASTRA && effort in EFFORTS
      && original.Some? && original.value.effort in EFFORTS && effort != original.value.effort
      && Eligible(input)
    }

    /** `apply_route_payload`. */
    method Apply(newModel: string, effort: string, original: Option<Reasoning>, injected: Item?)
      returns (next: Item?, transport: Transport)
      modifies this
      ensures model == newModel && serviceTier == "default" && stream
      ensures
        var base := Restored(old(input), injected);
        var update := UsesUpdate(base, original, newModel, effort);
        && transport == (if update then ViaUpdate else ViaRequest)
        && (next != null <==> update)
        && (next != null ==>
              && fresh(next) && next.isObject && next.kind == UPDATE && next.effort == effort && next.role == ""
              && input == Some(Inserted(base.value, next)))
        && (next == null ==> input == base)
        && reasoning == RequestReasoning(original, effort, update)
    {
      if injected != null && input.Some? {
        input := Some(Without(input.value, injected));
      }
      reasoning := original;
      model := newModel;
      transport := ViaRequest;
      next := null;
      var baseEffort := if original.Some? then original.value.effort else "";
      if newModel == ASTRA && effort in EFFORTS && baseEffort in EFFORTS && effort != baseEffort && Eligible(input) {
        var update: Item := new Item(true, "", UPDATE, effort);
        next := update;
        var insertAt := LastUser(input.value);
        input := Some(input.value[..insertAt] + [update] + input.value[insertAt..]);
        transport := ViaUpdate;
      } else if effort != "" {
        var extra := if original.Some? then original.value.extra else "";
        reasoning := Some(Reasoning(effort, extra));
      }
      serviceTier := "default";
      stream := true;
    }

    // -------------------------------------------------------------- several attempts

    ghost function Snapshot(injected: Item?): Snapshot
      reads this
    {
      Request(if input.Some? then Some(View(input.value, injected)) else None, reasoning, model, serviceTier, stream)
    }

    /** A request after the last attempt of a call, as a function of the original request only. */
    ghost function Routed(input: Option<Items>, original: Option<Reasoning>, a: Attempt): Snapshot {
      var update := UsesUpdate(input, original, a.model, a.effort);
      Request(if input.None? then None
              else if update then Some(WithUpdate(input.value, LastUser(input.value), a.effort))
              else Some(View(input.value, null)),
              RequestReasoning(original, a.effort, update), a.model, "default", true)
    }

    /** Attempts one after the other, each undoing the update of the one before it: the request ends
        up as the last attempt alone would have made it, and without the update it is the original. */
    method Attempts(attempts: seq<Attempt>) returns (injected: Item?, transports: seq<Transport>)
      modifies this
      ensures attempts != [] ==>
                Snapshot(injected) == Routed(old(input), old(reasoning), attempts[|attempts| - 1])
      ensures Restored(input, injected) == old(input)
      ensures |transports| == |attempts|
      ensures forall i | 0 <= i < |attempts| ::
                transports[i] == ViaUpdate <==>
                UsesUpdate(old(input), old(reasoning), attempts[i].model, attempts[i].effort)
      ensures attempts != [] ==>
                ReasoningKept(old(reasoning), reasoning, attempts[|attempts| - 1].effort, injected != null)
    {
      var original := reasoning;
      ghost var before := input;
      injected, transports := null, [];
      for i := 0 to |attempts|
        invariant Restored(input, injected) == before
        invariant injected != null ==> fresh(injected)
        invariant |transports| == i
        invariant 0 < i ==> Snapshot(injected) == Routed(before, original, attempts[i - 1])
        invariant 0 < i ==> ReasoningKept(original, reasoning, attempts[i - 1].effort, injected != null)
        invariant forall j | 0 <= j < i ::
                    transports[j] == ViaUpdate <==>
                    UsesUpdate(before, original, attempts[j].model, attempts[j].effort)
      {
        var transport;
        injected, transport := Apply(attempts[i].model, attempts[i].effort, original, injected);
        transports := transports + [transport];
        if injected != null {
          var items := before.value;
          WithoutInserted(items, LastUser(items), injected);
          ViewInserted(items, LastUser(items), injected, attempts[i].effort);
        }
      }
    }
  }

  function Restored(input: Option<Items>, injected: Item?): Option<Items> {
    if injected != null && input.Some? then Some(Without(input.value, injected)) else input
  }

  ghost function Inserted(items: Items, x: Item): Items
    requires HasUser(items)
  {
    var k := LastUser(items);
    items[..k] + [x] + items[k..]
  }

  /** The reasoning `r` of a routed request against the original: its other settings stay, it is the
      original itself exactly when the effort need not or must not be written there, and otherwise it has
      the requested effort. */
  predicate ReasoningKept(original: Option<Reasoning>, r: Option<Reasoning>, effort: string, update: bool) {
    && (original.Some? ==> r.Some? && r.value.extra == original.value.extra)
    && (r == original <==> update || effort == "" || (original.Some? && original.value.effort == effort))
    && (r != original ==> r.Some? && r.value.effort == effort)
    && (original.None? && r.Some? ==> r.value.extra == "")
  }

  function RequestReasoning(original: Option<Reasoning>, effort: string, update: bool): Option<Reasoning> {
    if update || effort == "" then original
    else Some(Reasoning(effort, if original.Some? then original.value.extra else ""))
  }

  datatype Attempt = Attempt(model: string, effort: string)

  /** An input with the injected item shown by what it says: the others are the original objects. */
  datatype Slot = Kept(item: Item) | Update(effort: string)
  datatype Snapshot = Request(input: Option<seq<Slot>>, reasoning: Option<Reasoning>, model: string,
                              serviceTier: string, stream: bool)

  ghost function SlotOf(item: Item, injected: Item?): Slot {
    if item == injected then Update(item.effort) else Kept(item)
  }

  ghost function View(items: Items, injected: Item?): seq<Slot> {
    seq(|items|, i requires 0 <= i < |items| => SlotOf(items[i], injected))
  }

  ghost function WithUpdate(items: Items, k: nat, effort: string): seq<Slot>
    requires k <= |items|
  {
    View(items[..k], null) + [Update(effort)] + View(items[k..], null)
  }

  lemma ViewInserted(items: Items, k: nat, x: Item, effort: string)
    requires k <= |items| && x !in items && x.effort == effort
    ensures View(items[..k] + [x] + items[k..], x) == WithUpdate(items, k, effort)
  {
  }

  // ---------------------------------------------------------------- what a routed request is

  /** At most one update, just before the last user item; every other item is an original object. */
  lemma UpdatePosition(p: Payload, input: Items, original: Option<Reasoning>, a: Attempt)
    requires p.UsesUpdate(Some(input), original, a.model, a.effort)
    ensures
      var view := p.Routed(Some(input), original, a).input.value;
      var k := LastUser(input);
      && |view| == |input| + 1 && view[k] == Update(a.effort)
      && view[k + 1].Kept? && IsUser(view[k + 1].item)
      && (forall i | k + 1 < i < |view| :: view[i].Kept? && !IsUser(view[i].item))
      && (forall i | 0 <= i < |view| && i != k :: view[i] == Kept(if i < k then input[i] else input[i - 1]))
  {
  }

  /** A requested effort travels in exactly one of the two ways. */
  lemma OneTransport(p: Payload, input: Option<Items>, original: Option<Reasoning>, a: Attempt)
    requires a.effort != ""
    ensures
      var r := p.Routed(input, original, a);
      var inRequest := r.reasoning.Some? && r.reasoning.value.effort == a.effort;
      var inUpdate := r.input.Some? && Update(a.effort) in r.input.value;
      inUpdate <==> !inRequest
  {
    var r := p.Routed(input, original, a);
    if p.UsesUpdate(input, original, a.model, a.effort) {
      UpdatePosition(p, input.value, original, a);
    } else if r.input.Some? {
      assert forall i | 0 <= i < |r.input.value| :: r.input.value[i].Kept?;
    }
  }

  /** The reasoning and the other fields of a routed request. */
  lemma ReasoningRouted(p: Payload, input: Option<Items>, original: Option<Reasoning>, a: Attempt)
    ensures
      var r := p.Routed(input, original, a);
      && ReasoningKept(original, r.reasoning, a.effort, r.input.Some? && Update(a.effort) in r.input.value)
      && r.model == a.model && r.serviceTier == "default" && r.stream
  {
    hide View;
    UpdateSent(p, input, original, a);
    if p.UsesUpdate(input, original, a.model, a.effort) {
    }
  }

  predicate IsEffort(effort: string) {
    effort == "low" || effort == "medium" || effort == "high" || effort == "xhigh" || effort == "max"
  }

  /** When an update is sent: to Astra only, to change one named effort into another, and only in a request
      with a user item whose history nobody cuts, compacts or configures already. */
  lemma UpdateSent(p: Payload, input: Option<Items>, original: Option<Reasoning>, a: Attempt)
    ensures
      var r := p.Routed(input, original, a);
      r.input.Some? && Update(a.effort) in r.input.value <==>
      && a.model == "gpt-6-astra" && IsEffort(a.effort)
      && original.Some? && IsEffort(original.value.effort) && original.value.effort != a.effort
      && input.Some? && !p.truncationAuto && !p.contextManagement
      && (exists item :: item in input.value && item.isObject && item.role == "user")
      && (forall item | item in input.value && item.isObject ::
            item.kind !in {"configuration_update", "compaction", "compaction_summary"})
  {
    EffortNames(a.effort);
    if original.Some? { EffortNames(original.value.effort); }
    if p.UsesUpdate(input, original, a.model, a.effort) {
      UpdatePosition(p, input.value, original, a);
    } else if input.Some? {
      var view := p.Routed(input, original, a).input.value;
      assert forall i | 0 <= i < |view| :: view[i].Kept?;
    }
  }

  lemma EffortNames(effort: string)
    ensures effort in EFFORTS <==> IsEffort(effort)
  {
    assert EFFORTS[0] == "low" && EFFORTS[1] == "medium" && EFFORTS[2] == "high" && EFFORTS[3] == "xhigh" &&
           EFFORTS[4] == "max";
  }
}
