/** Measured cache evidence per session: a pruned table that answers like the full log of calls. */
module CacheAffinity {
  import opened Json
  import opened Models
  import opened Sequences
  import opened CacheKeys

  datatype CacheState = Hot | Warming | Unknown

  /** The counters of `usage_counts` that matter here; absent usage stays unknown. */
  datatype Usage = Usage(input: Option<nat>, cached: Option<nat>)

  datatype Evidence = Evidence(seenAt: real, state: CacheState, input: Option<nat>, readPct: Option<real>,
                               effort: Option<Effort>)

  /** HTTP success alone is not a hit: only a measured cached count is. */
  function EvidenceOf(usage: Option<Usage>, effort: Option<Effort>, now: real): (e: Evidence)
    ensures e.state == Hot ==> usage.Some? && usage.value.cached.Some? && usage.value.cached.value > 0
    ensures e.readPct.Some? ==> 0.0 <= e.readPct.value <= 100.0
    ensures e.readPct.Some? <==> e.state != Unknown
  {
    var input := if usage.Some? then usage.value.input else None;
    var cached := if usage.Some? then usage.value.cached else None;
    if input.Some? && cached.Some? && cached.value <= input.value then
      var pct := if input.value == 0 then 0.0 else Share(cached.value, input.value);
      Evidence(now, if cached.value > 0 then Hot else Warming, input, Some(pct), effort)
    else Evidence(now, Unknown, input, None, effort)
  }

  /** 100 * part / whole, before rounding. */
  function Share(part: nat, whole: nat): (r: real)
    requires part <= whole && whole > 0
    ensures 0.0 <= r <= 100.0
  {
    ShareBound(part as real, whole as real);
    100.0 * (part as real) / (whole as real)
  }

  lemma ShareBound(part: real, whole: real)
    requires 0.0 <= part <= whole && whole > 0.0
    ensures 0.0 <= 100.0 * part / whole <= 100.0
  {
    assert 100.0 * part <= 100.0 * whole;
    DivideOrder(100.0 * part, 100.0 * whole, whole);
    assert 100.0 * whole / whole == 100.0;
  }

  lemma DivideOrder(a: real, b: real, c: real)
    requires 0.0 <= a <= b && c > 0.0
    ensures 0.0 <= a / c <= b / c
  {
    assert b / c - a / c == (b - a) / c;
    assert (b - a) / c >= 0.0;
  }

  // ---------------------------------------------------------------- the table

  datatype Entry = Entry(models: map<Model, Evidence>, last: Model)

  type Table = map<Scope, Entry>

  /** What is read of a request: key, bounded time to live, estimated context size. */
  datatype Call = Call(cacheKey: Option<string>, ttl: real, estimateK: Option<nat>)

  predicate Fresh(e: Evidence, ttl: real, now: real) {
    now - e.seenAt <= ttl
  }

  function Pruned(models: map<Model, Evidence>, ttl: real, now: real): map<Model, Evidence> {
    map m | m in models && Fresh(models[m], ttl, now) :: models[m]
  }

  /** What the router is told about one model. */
  datatype Seen = Seen(state: CacheState, readPct: Option<real>, ageS: int, effort: Option<Effort>)
  datatype Answer = Answer(last: Model, contextK: Option<nat>, models: map<Model, Seen>)

  /** Whole seconds, never negative. */
  function Age(e: Evidence, now: real): (r: int)
    ensures 0 <= r
    ensures e.seenAt <= now ==> (r as real) <= now - e.seenAt < (r as real) + 1.0
  {
    if now <= e.seenAt then 0 else (now - e.seenAt).Floor
  }

  function SeenOf(e: Evidence, now: real): Seen {
    Seen(e.state, e.readPct, Age(e, now), e.effort)
  }

  function ContextK(e: Evidence, call: Call): Option<nat> {
    if e.input.Some? && e.input.value / 1000 != 0 then Some(e.input.value / 1000) else call.estimateK
  }

  function AnswerOf(models: map<Model, Evidence>, last: Model, call: Call, now: real): Answer
    requires last in models
  {
    Answer(last, ContextK(models[last], call), map m | m in models :: SeenOf(models[m], now))
  }

  const MODELS := [Luna, Terra, Sol, Astra]

  lemma AllModels(m: Model)
    ensures m in MODELS
  {
    assert MODELS[0] == Luna && MODELS[1] == Terra && MODELS[2] == Sol && MODELS[3] == Astra;
  }

  /** The most recently seen of the candidates that are in the table. */
  function Best(models: map<Model, Evidence>, candidates: seq<Model>): (r: Option<Model>)
    ensures r.Some? ==> r.value in models
    ensures forall c | c in candidates && c in models :: r.Some? && models[c].seenAt <= models[r.value].seenAt
  {
    if candidates == [] then None
    else
      var c, rest := candidates[0], Best(models, candidates[1..]);
      if c in models && (rest.None? || models[rest.value].seenAt <= models[c].seenAt) then Some(c) else rest
  }

  /** The fallback of the lookup: the most recently seen model. */
  function Newest(models: map<Model, Evidence>): (m: Model)
    requires models != map[]
    ensures m in models && forall n | n in models :: models[n].seenAt <= models[m].seenAt
  {
    assert forall n | n in models :: n in MODELS by {
      forall n | n in models ensures n in MODELS { AllModels(n); }
    }
    assert AnyOf(models.Keys) in models;
    Best(models, MODELS).value
  }

  function Query(t: Table, scope: Scope, call: Call, now: real): (Table, Option<Answer>) {
    if !HasCacheKey(call.cacheKey) || scope !in t then (t, None)
    else
      var models := Pruned(t[scope].models, call.ttl, now);
      if models == map[] then (t - {scope}, None)
      else
        var last := if t[scope].last in models then t[scope].last else Newest(models);
        (t[scope := Entry(models, last)], Some(AnswerOf(models, last, call, now)))
  }

  predicate Counts(call: Call, model: Option<Model>, status: int) {
    status == 200 && model.Some? && HasCacheKey(call.cacheKey)
  }

  function Store(t: Table, scope: Scope, call: Call, model: Option<Model>, status: int, e: Evidence, now: real): Table {
    if !Counts(call, model, status) then t
    else
      var kept := if scope in t then Pruned(t[scope].models, call.ttl, now) else map[];
      t[scope := Entry(kept[model.value := e], model.value)]
  }

  /** The lock-protected table; each method body is one locked section. */
  class CacheTable {
    var affinity: map<Scope, Entry>

    constructor ()
      ensures affinity == map[]
    {
      affinity := map[];
    }

    method CacheAffinity(scope: Scope, call: Call, now: real) returns (r: Option<Answer>)
      modifies this
      ensures (affinity, r) == Query(old(affinity), scope, call, now)
    {
      if !HasCacheKey(call.cacheKey) || scope !in affinity { return None; }
      var entry := affinity[scope];
      var models: map<Model, Evidence> := map[];
      var pending := MODELS;
      for i := 0 to |pending|
        invariant forall m | m in models :: m in pending[..i] && m in entry.models && models[m] == entry.models[m]
        invariant forall m | m in pending[..i] ::
                    m in models <==> m in entry.models && Fresh(entry.models[m], call.ttl, now)
      {
        var model := pending[i];
        if model in entry.models && Fresh(entry.models[model], call.ttl, now) {
          models := models[model := entry.models[model]];
        }
      }
      assert models == Pruned(entry.models, call.ttl, now) by {
        forall m | m in entry.models ensures m in pending { AllModels(m); }
        assert pending[..|pending|] == pending;
      }
      if models == map[] {
        affinity := affinity - {scope};
        return None;
      }
      var last := entry.last;
      if last !in models {
        last := Newest(models);
      }
      affinity := affinity[scope := Entry(models, last)];
      return Some(AnswerOf(models, last, call, now));
    }

    method RememberCacheModel(scope: Scope, call: Call, model: Option<Model>, status: int, usage: Option<Usage>,
                              effort: Option<Effort>, now: real)
      modifies this
      ensures affinity == Store(old(affinity), scope, call, model, status, EvidenceOf(usage, effort, now), now)
    {
      if !Counts(call, model, status) { return; }
      var entry := if scope in affinity then affinity[scope] else Entry(map[], model.value);
      var kept := Pruned(entry.models, call.ttl, now);
      assert scope !in affinity ==> kept == map[];
      affinity := affinity[scope := Entry(kept[model.value := EvidenceOf(usage, effort, now)], model.value)];
    }
  }

  // ---------------------------------------------------------------- the full log

  datatype Op =
    | QueryOp(scope: Scope, call: Call, now: real)
    | StoreOp(scope: Scope, call: Call, now: real, model: Option<Model>, status: int, usage: Option<Usage>,
              effort: Option<Effort>)

  function Apply(t: Table, op: Op): Table {
    match op
    case QueryOp(scope, call, now) => Query(t, scope, call, now).0
    case StoreOp(scope, call, now, model, status, usage, effort) =>
      Store(t, scope, call, model, status, EvidenceOf(usage, effort, now), now)
  }

  function TableAfter(ops: seq<Op>): Table {
    if ops == [] then map[] else Apply(TableAfter(ops[..|ops| - 1]), ops[|ops| - 1])
  }

  /** The operation is a successful call of the scope. */
  predicate Success(op: Op, scope: Scope) {
    op.StoreOp? && op.scope == scope && op.status == 200 && op.model.Some? && HasCacheKey(op.call.cacheKey)
  }

  /** A scan of all past calls for the last successful one of a model. */
  function Latest(ops: seq<Op>, scope: Scope, m: Model): Option<Evidence> {
    if ops == [] then None
    else
      var op := ops[|ops| - 1];
      if Success(op, scope) && op.model == Some(m) then Some(EvidenceOf(op.usage, op.effort, op.now))
      else Latest(ops[..|ops| - 1], scope, m)
  }

  /** The model of the last successful call of the scope. */
  function LastModel(ops: seq<Op>, scope: Scope): Option<Model> {
    if ops == [] then None
    else if Success(ops[|ops| - 1], scope) then ops[|ops| - 1].model
    else LastModel(ops[..|ops| - 1], scope)
  }

  predicate FreshInLog(ops: seq<Op>, scope: Scope, m: Model, ttl: real, now: real) {
    Latest(ops, scope, m).Some? && Fresh(Latest(ops, scope, m).value, ttl, now)
  }

  /** The answer of a scan over the whole log. */
  function LogAnswer(ops: seq<Op>, scope: Scope, call: Call, now: real): Option<Answer> {
    var models := map m: Model | FreshInLog(ops, scope, m, call.ttl, now) :: Latest(ops, scope, m).value;
    var last := LastModel(ops, scope);
    if !HasCacheKey(call.cacheKey) || models == map[] || last.None? || last.value !in models then None
    else Some(AnswerOf(models, last.value, call, now))
  }

  /** Time does not go back, and each session has one time to live. */
  ghost predicate Orderly(ops: seq<Op>, ttl: Scope -> real) {
    && (forall i, j | 0 <= i < j < |ops| :: ops[i].now <= ops[j].now)
    && (forall i | 0 <= i < |ops| :: ops[i].call.ttl == ttl(ops[i].scope))
  }

  function Clock(ops: seq<Op>, now: real): bool {
    ops != [] ==> ops[|ops| - 1].now <= now
  }

  /** The table of a scope against the log, at a time. */
  ghost predicate Agrees(t: Table, ops: seq<Op>, scope: Scope, ttl: real, now: real) {
    if scope in t then
      var e := t[scope];
      && e.last in e.models && LastModel(ops, scope) == Some(e.last)
      && (forall m | m in e.models :: Latest(ops, scope, m) == Some(e.models[m]))
      && (forall m | m in e.models :: e.models[m].seenAt <= e.models[e.last].seenAt)
      && (forall m: Model | m !in e.models :: !FreshInLog(ops, scope, m, ttl, now))
      && e.models[e.last].seenAt <= now
    else forall m: Model :: !FreshInLog(ops, scope, m, ttl, now)
  }

  lemma AgreesLater(t: Table, ops: seq<Op>, scope: Scope, ttl: real, now: real, later: real)
    requires Agrees(t, ops, scope, ttl, now) && now <= later
    ensures Agrees(t, ops, scope, ttl, later)
  {
    forall m: Model ensures FreshInLog(ops, scope, m, ttl, later) ==> FreshInLog(ops, scope, m, ttl, now) {
    }
  }

  lemma {:induction false} TableAgrees(ops: seq<Op>, ttl: Scope -> real, scope: Scope, now: real)
    requires Orderly(ops, ttl) && Clock(ops, now)
    ensures Agrees(TableAfter(ops), ops, scope, ttl(scope), now)
    decreases |ops|
  {
    if ops != [] {
      hide Agrees, Apply;
      var n := |ops| - 1;
      var front, op := ops[..n], ops[n];
      TableAgrees(front, ttl, scope, op.now);
      StepAgrees(TableAfter(front), front, op, ttl, scope);
      assert front + [op] == ops;
      AgreesLater(TableAfter(ops), ops, scope, ttl(scope), op.now, now);
    }
  }

  lemma StepAgrees(t: Table, front: seq<Op>, op: Op, ttl: Scope -> real, scope: Scope)
    requires Agrees(t, front, scope, ttl(scope), op.now) && op.call.ttl == ttl(op.scope)
    ensures Agrees(Apply(t, op), front + [op], scope, ttl(scope), op.now)
  {
    var ops := front + [op];
    assert ops[..|front|] == front && ops[|front|] == op;
    if !Success(op, scope) {
      forall m: Model ensures Latest(ops, scope, m) == Latest(front, scope, m) {
      }
      SameLog(t, front, ops, scope, ttl(scope), op.now);
    }
    if op.scope != scope {
      assert scope in Apply(t, op) <==> scope in t;
      SameEntry(t, Apply(t, op), ops, scope, ttl(scope), op.now);
    } else if op.StoreOp? {
      StoreAgrees(t, front, op, scope);
    } else {
      QueryAgrees(t, ops, scope, op.call, op.now);
    }
  }

  lemma SameLog(t: Table, front: seq<Op>, ops: seq<Op>, scope: Scope, ttl: real, now: real)
    requires Agrees(t, front, scope, ttl, now)
    requires LastModel(ops, scope) == LastModel(front, scope)
    requires forall m: Model :: Latest(ops, scope, m) == Latest(front, scope, m)
    ensures Agrees(t, ops, scope, ttl, now)
  {
    hide Latest, LastModel;
    forall m: Model ensures FreshInLog(ops, scope, m, ttl, now) == FreshInLog(front, scope, m, ttl, now) {
    }
  }

  lemma SameEntry(t: Table, u: Table, ops: seq<Op>, scope: Scope, ttl: real, now: real)
    requires Agrees(t, ops, scope, ttl, now)
    requires scope in u <==> scope in t
    requires scope in t ==> u[scope] == t[scope]
    ensures Agrees(u, ops, scope, ttl, now)
  {
  }

  /** A successful call becomes the newest evidence and the last model. */
  lemma StoreAgrees(t: Table, front: seq<Op>, op: Op, scope: Scope)
    requires op.StoreOp? && op.scope == scope && Agrees(t, front, scope, op.call.ttl, op.now)
    requires !Success(op, scope) ==> Agrees(t, front + [op], scope, op.call.ttl, op.now)
    ensures Agrees(Apply(t, op), front + [op], scope, op.call.ttl, op.now)
  {
    var ops := front + [op];
    assert ops[..|front|] == front && ops[|front|] == op;
    if Success(op, scope) {
      var e := Apply(t, op)[scope];
      forall m: Model
        ensures m !in e.models ==> !FreshInLog(ops, scope, m, op.call.ttl, op.now)
      {
        assert m != e.last ==>
                 FreshInLog(ops, scope, m, op.call.ttl, op.now) == FreshInLog(front, scope, m, op.call.ttl, op.now);
      }
    }
  }

  /** Pruning keeps the last model, and what it drops is too old for good. */
  lemma QueryAgrees(t: Table, ops: seq<Op>, scope: Scope, call: Call, now: real)
    requires Agrees(t, ops, scope, call.ttl, now)
    ensures Agrees(Query(t, scope, call, now).0, ops, scope, call.ttl, now)
    ensures HasCacheKey(call.cacheKey) && scope in t && Pruned(t[scope].models, call.ttl, now) != map[] ==>
              t[scope].last in Pruned(t[scope].models, call.ttl, now)
  {
    if HasCacheKey(call.cacheKey) && scope in t {
      var e := t[scope];
      var models := Pruned(e.models, call.ttl, now);
      if models != map[] {
        var m := AnyOf(models.Keys);
        assert Fresh(e.models[m], call.ttl, now);
        assert e.models[e.last].seenAt >= e.models[m].seenAt;
        assert e.last in models;
      } else {
        assert forall m | m in e.models :: m !in models;
      }
    }
  }

  /** The pruned table answers every query as a scan of all past successful calls would; the last
      model it reports is the model of the last successful call. */
  lemma AffinityIsFullLog(ops: seq<Op>, ttl: Scope -> real, scope: Scope, call: Call, now: real)
    requires Orderly(ops, ttl) && Clock(ops, now) && call.ttl == ttl(scope)
    ensures Query(TableAfter(ops), scope, call, now).1 == LogAnswer(ops, scope, call, now)
  {
    var t := TableAfter(ops);
    TableAgrees(ops, ttl, scope, now);
    QueryAgrees(t, ops, scope, call, now);
    var models := map m: Model | FreshInLog(ops, scope, m, call.ttl, now) :: Latest(ops, scope, m).value;
    if scope in t {
      assert models == Pruned(t[scope].models, call.ttl, now);
    } else {
      assert models == map[];
    }
  }

  /** The lookup never has to guess the last model: as long as any model is fresh, the stored one is. */
  lemma FallbackNeverTaken(ops: seq<Op>, ttl: Scope -> real, scope: Scope, call: Call, now: real)
    requires Orderly(ops, ttl) && Clock(ops, now) && call.ttl == ttl(scope) && HasCacheKey(call.cacheKey)
    requires scope in TableAfter(ops)
    ensures
      var e := TableAfter(ops)[scope];
      e.last in Pruned(e.models, call.ttl, now) || Pruned(e.models, call.ttl, now) == map[]
  {
    TableAgrees(ops, ttl, scope, now);
    QueryAgrees(TableAfter(ops), ops, scope, call, now);
  }

  // ---------------------------------------------------------------- what an answer says

  /** Operation `i` is the last successful call of the model. */
  predicate IsLatest(ops: seq<Op>, scope: Scope, m: Model, i: nat) {
    && i < |ops| && Success(ops[i], scope) && ops[i].model == Some(m)
    && forall j | i < j < |ops| :: !(Success(ops[j], scope) && ops[j].model == Some(m))
  }

  /** Operation `i` is the last successful call of the scope. */
  predicate IsLastCall(ops: seq<Op>, scope: Scope, i: nat) {
    && i < |ops| && Success(ops[i], scope)
    && forall j | i < j < |ops| :: !Success(ops[j], scope)
  }

  lemma {:induction false} LatestIs(ops: seq<Op>, scope: Scope, m: Model, i: nat)
    requires IsLatest(ops, scope, m, i)
    ensures Latest(ops, scope, m) == Some(EvidenceOf(ops[i].usage, ops[i].effort, ops[i].now))
    decreases |ops|
  {
    hide EvidenceOf;
    if i < |ops| - 1 {
      LatestIs(ops[..|ops| - 1], scope, m, i);
    }
  }

  lemma {:induction false} LastModelIs(ops: seq<Op>, scope: Scope, i: nat)
    requires IsLastCall(ops, scope, i)
    ensures LastModel(ops, scope) == ops[i].model
    decreases |ops|
  {
    if i < |ops| - 1 {
      LastModelIs(ops[..|ops| - 1], scope, i);
    }
  }

  lemma {:induction false} LatestExists(ops: seq<Op>, scope: Scope, m: Model) returns (i: nat)
    requires Latest(ops, scope, m).Some?
    ensures IsLatest(ops, scope, m, i)
    decreases |ops|
  {
    hide EvidenceOf;
    var n := |ops| - 1;
    if Success(ops[n], scope) && ops[n].model == Some(m) {
      i := n;
    } else {
      i := LatestExists(ops[..n], scope, m);
    }
  }

  lemma {:induction false} LastCallExists(ops: seq<Op>, scope: Scope) returns (i: nat)
    requires LastModel(ops, scope).Some?
    ensures IsLastCall(ops, scope, i)
    decreases |ops|
  {
    hide Success;
    var n := |ops| - 1;
    if Success(ops[n], scope) {
      i := n;
    } else {
      i := LastCallExists(ops[..n], scope);
    }
  }

  /** The usage measured a cached count within its input. */
  predicate Measured(usage: Option<Usage>) {
    usage.Some? && usage.value.input.Some? && usage.value.cached.Some? &&
    usage.value.cached.value <= usage.value.input.value
  }

  lemma FreshIs(ops: seq<Op>, scope: Scope, m: Model, i: nat, ttl: real, now: real)
    requires IsLatest(ops, scope, m, i)
    ensures FreshInLog(ops, scope, m, ttl, now) <==> now - ops[i].now <= ttl
  {
    LatestIs(ops, scope, m, i);
  }

  /** There is no answer exactly when no model is fresh. */
  lemma NoAnswer(ops: seq<Op>, ttl: Scope -> real, scope: Scope, call: Call, now: real)
    requires Orderly(ops, ttl) && Clock(ops, now) && call.ttl == ttl(scope) && HasCacheKey(call.cacheKey)
    ensures Query(TableAfter(ops), scope, call, now).1.None? <==>
            forall m: Model :: !FreshInLog(ops, scope, m, call.ttl, now)
  {
    hide Latest, LastModel, TableAfter, AnswerOf;
    var t := TableAfter(ops);
    TableAgrees(ops, ttl, scope, now);
    if scope in t {
      var models := Pruned(t[scope].models, call.ttl, now);
      forall m: Model ensures m in models <==> FreshInLog(ops, scope, m, call.ttl, now) {
      }
      if models != map[] {
        var m := AnyOf(models.Keys);
        assert FreshInLog(ops, scope, m, call.ttl, now);
      }
    }
  }

  lemma FreshHasLatest(ops: seq<Op>, scope: Scope, m: Model, ttl: real, now: real) returns (i: nat)
    requires FreshInLog(ops, scope, m, ttl, now)
    ensures IsLatest(ops, scope, m, i)
  {
    i := LatestExists(ops, scope, m);
  }

  /** The parts of an answer of the log. */
  lemma Reported(ops: seq<Op>, scope: Scope, call: Call, now: real)
    requires LogAnswer(ops, scope, call, now).Some?
    ensures
      var answer := LogAnswer(ops, scope, call, now).value;
      && LastModel(ops, scope) == Some(answer.last) && answer.last in answer.models
      && (forall m: Model :: m in answer.models <==> FreshInLog(ops, scope, m, call.ttl, now))
      && (forall m | m in answer.models ::
            Latest(ops, scope, m).Some? && answer.models[m] == SeenOf(Latest(ops, scope, m).value, now))
      && Latest(ops, scope, answer.last).Some?
      && answer.contextK == ContextK(Latest(ops, scope, answer.last).value, call)
  {
    hide Latest, LastModel, SeenOf, ContextK;
  }

  lemma EvidenceIs(usage: Option<Usage>, effort: Option<Effort>, now: real)
    ensures
      var e := EvidenceOf(usage, effort, now);
      && e.seenAt == now && e.effort == effort
      && e.input == (if usage.Some? then usage.value.input else None)
      && (e.state == Hot <==> Measured(usage) && usage.value.cached.value > 0)
      && (e.state == Warming <==> Measured(usage) && usage.value.cached.value == 0)
      && (e.readPct.Some? <==> Measured(usage))
      && (Measured(usage) ==>
            e.readPct.value * (usage.value.input.value as real) == 100.0 * (usage.value.cached.value as real) &&
            (usage.value.input.value == 0 ==> e.readPct.value == 0.0))
  {
  }

  /** Which models a query reports: those whose last successful call is not older than the time to live;
      and the last model is that of the last successful call of all. */
  lemma ReportedModels(ops: seq<Op>, ttl: Scope -> real, scope: Scope, call: Call, now: real)
    requires Orderly(ops, ttl) && Clock(ops, now) && call.ttl == ttl(scope) && HasCacheKey(call.cacheKey)
    ensures
      var answer := Query(TableAfter(ops), scope, call, now).1;
      && (answer.None? <==> forall m, i: nat | IsLatest(ops, scope, m, i) :: now - ops[i].now > call.ttl)
      && (answer.Some? ==>
            && (forall m, i: nat | IsLatest(ops, scope, m, i) ::
                  m in answer.value.models <==> now - ops[i].now <= call.ttl)
            && (forall m | m in answer.value.models :: exists i: nat :: IsLatest(ops, scope, m, i))
            && (exists i: nat :: IsLastCall(ops, scope, i) && ops[i].model == Some(answer.value.last)))
  {
    hide Latest, LastModel, TableAfter, Query, AnswerOf, EvidenceOf, FreshInLog, Success;
    AffinityIsFullLog(ops, ttl, scope, call, now);
    NoAnswer(ops, ttl, scope, call, now);
    forall m, i: nat | IsLatest(ops, scope, m, i) {
      FreshIs(ops, scope, m, i, call.ttl, now);
    }
    forall m: Model | FreshInLog(ops, scope, m, call.ttl, now) ensures exists i: nat :: IsLatest(ops, scope, m, i) {
      var i := FreshHasLatest(ops, scope, m, call.ttl, now);
    }
    var answer := Query(TableAfter(ops), scope, call, now).1;
    if answer.Some? {
      var i := LastCallExists(ops, scope);
      LastModelIs(ops, scope, i);
      Reported(ops, scope, call, now);
    }
  }

  /** What a query reports of a model is what its last successful call measured: hot exactly when a cached
      count above zero and within the input was measured, warming when that count was zero, unknown
      otherwise; the age is in whole seconds. */
  lemma ReportedEvidence(ops: seq<Op>, ttl: Scope -> real, scope: Scope, call: Call, now: real, m: Model, i: nat)
    requires Orderly(ops, ttl) && Clock(ops, now) && call.ttl == ttl(scope)
    requires Query(TableAfter(ops), scope, call, now).1.Some?
    requires m in Query(TableAfter(ops), scope, call, now).1.value.models && IsLatest(ops, scope, m, i)
    ensures
      var seen := Query(TableAfter(ops), scope, call, now).1.value.models[m];
      var usage := ops[i].usage;
      && (seen.state == Hot <==> Measured(usage) && usage.value.cached.value > 0)
      && (seen.state == Warming <==> Measured(usage) && usage.value.cached.value == 0)
      && (seen.readPct.Some? <==> Measured(usage))
      && (Measured(usage) ==>
            seen.readPct.value * (usage.value.input.value as real) == 100.0 * (usage.value.cached.value as real) &&
            (usage.value.input.value == 0 ==> seen.readPct.value == 0.0))
      && seen.effort == ops[i].effort
      && 0 <= seen.ageS && (seen.ageS as real) <= now - ops[i].now < (seen.ageS as real) + 1.0
  {
    hide Latest, LastModel, TableAfter, Query, EvidenceOf, FreshInLog;
    AffinityIsFullLog(ops, ttl, scope, call, now);
    Reported(ops, scope, call, now);
    LatestIs(ops, scope, m, i);
    EvidenceIs(ops[i].usage, ops[i].effort, ops[i].now);
    assert ops[i].now <= now;
  }

  /** The context size is that of the last call in thousands, or the estimate when that is unknown or less
      than a thousand. */
  lemma ReportedContext(ops: seq<Op>, ttl: Scope -> real, scope: Scope, call: Call, now: real, i: nat)
    requires Orderly(ops, ttl) && Clock(ops, now) && call.ttl == ttl(scope) && IsLastCall(ops, scope, i)
    requires Query(TableAfter(ops), scope, call, now).1.Some?
    ensures
      var answer, usage := Query(TableAfter(ops), scope, call, now).1.value, ops[i].usage;
      if usage.Some? && usage.value.input.Some? && usage.value.input.value >= 1000 then
        answer.contextK.Some? &&
        1000 * answer.contextK.value <= usage.value.input.value < 1000 * (answer.contextK.value + 1)
      else answer.contextK == call.estimateK
  {
    hide Latest, LastModel, TableAfter, Query, EvidenceOf, FreshInLog;
    AffinityIsFullLog(ops, ttl, scope, call, now);
    Reported(ops, scope, call, now);
    LastModelIs(ops, scope, i);
    LatestIs(ops, scope, ops[i].model.value, i);
    EvidenceIs(ops[i].usage, ops[i].effort, ops[i].now);
  }
}
