/** Report accounting: model switches per session, cache observations and credits. */
module SwitchAccounting {
  import opened Json
  import opened Models
  import opened Sequences

  /** A field of a usage record: absent, something that is not an integer, or an integer. */
  datatype Count = Missing | NotInt(truthy: bool) | Int(n: int)
  datatype Usage = NoUsage | Usage(input: Count, cached: Count, output: Count, written: Count)

  /** `model` is absent for anything outside the native tiers. */
  datatype Attempt = Attempt(model: Option<Model>, defaultSpeed: bool, usage: Usage)
  datatype Entry = Entry(cacheScope: Option<string>, keyPresent: Option<bool>, native: Option<Model>,
                         attempts: Option<seq<Attempt>>)

  /** The session of an entry, if it can be told. */
  function ScopeOf(e: Entry): Option<string> {
    if e.keyPresent == Some(false) || e.cacheScope == Some("") then None else e.cacheScope
  }

  predicate Measured(u: Usage) {
    u.Usage? && u.input.Int? && u.cached.Int? && 0 <= u.cached.n <= u.input.n
  }

  // ---------------------------------------------------------------- tallies

  datatype Tally = Tally(observed: nat, unknown: nat, hits: nat, input: int, cached: int,
                         written: int, writeObserved: nat)

  const ZERO := Tally(0, 0, 0, 0, 0, 0, 0)

  function Add(a: Tally, b: Tally): Tally {
    Tally(a.observed + b.observed, a.unknown + b.unknown, a.hits + b.hits, a.input + b.input,
          a.cached + b.cached, a.written + b.written, a.writeObserved + b.writeObserved)
  }

  lemma AddZero(a: Tally)
    ensures Add(a, ZERO) == a && Add(ZERO, a) == a
  {
  }

  lemma AddAssoc(a: Tally, b: Tally, c: Tally)
    ensures Add(Add(a, b), c) == Add(a, Add(b, c))
  {
  }

  function TallyUsage(u: Usage): Tally {
    if !Measured(u) then ZERO.(unknown := 1)
    else
      var w := u.written.Int? && u.written.n >= 0;
      Tally(1, 0, if u.cached.n > 0 then 1 else 0, u.input.n, u.cached.n,
            if w then u.written.n else 0, if w then 1 else 0)
  }

  /** The tally of the attempts of one model, or of all native models. */
  function TallyAttempts(attempts: seq<Attempt>, only: Option<Model>): Tally {
    if attempts == [] then ZERO
    else
      var a := attempts[|attempts| - 1];
      var before := TallyAttempts(attempts[..|attempts| - 1], only);
      if a.model.Some? && (only.None? || only == a.model) then Add(before, TallyUsage(a.usage)) else before
  }

  function AttemptsOf(e: Entry): seq<Attempt> {
    if e.attempts.Some? then e.attempts.value else []
  }

  function TallyAll(entries: seq<Entry>, only: Option<Model>): Tally {
    if entries == [] then ZERO
    else
      Add(TallyAll(entries[..|entries| - 1], only), TallyAttempts(AttemptsOf(entries[|entries| - 1]), only))
  }

  // ---------------------------------------------------------------- switches, by scanning the past

  predicate InSession(e: Entry, scope: string) {
    ScopeOf(e) == Some(scope) && e.native.Some?
  }

  /** The model of the session's last routed call. */
  function LastModel(past: seq<Entry>, scope: string): Option<Model> {
    if past == [] then None
    else if InSession(past[|past| - 1], scope) then past[|past| - 1].native
    else LastModel(past[..|past| - 1], scope)
  }

  /** The models the session has used. */
  function ModelsOf(past: seq<Entry>, scope: string): set<Model> {
    if past == [] then {}
    else
      ModelsOf(past[..|past| - 1], scope) +
      if InSession(past[|past| - 1], scope) then {past[|past| - 1].native.value} else {}
  }

  /** The sessions with at least one routed call. */
  function Sessions(past: seq<Entry>): set<string> {
    if past == [] then {}
    else
      var e := past[|past| - 1];
      Sessions(past[..|past| - 1]) + if ScopeOf(e).Some? && e.native.Some? then {ScopeOf(e).value} else {}
  }

  predicate Switches(past: seq<Entry>, e: Entry) {
    && ScopeOf(e).Some? && e.native.Some?
    && LastModel(past, ScopeOf(e).value).Some? && LastModel(past, ScopeOf(e).value) != e.native
  }

  predicate Revisits(past: seq<Entry>, e: Entry) {
    Switches(past, e) && e.native.value in ModelsOf(past, ScopeOf(e).value)
  }

  function CountSwitches(entries: seq<Entry>, onlyRevisits: bool): nat {
    if entries == [] then 0
    else
      var past, e := entries[..|entries| - 1], entries[|entries| - 1];
      CountSwitches(past, onlyRevisits) +
      if (if onlyRevisits then Revisits(past, e) else Switches(past, e)) then 1 else 0
  }

  function FirstOf(attempts: seq<Attempt>, m: Model): Option<Attempt> {
    if attempts == [] then None
    else if attempts[0].model == Some(m) then Some(attempts[0])
    else FirstOf(attempts[1..], m)
  }

  /** What the cache did on the call that switched. */
  function SwitchTally(e: Entry): Tally {
    if e.attempts.None? || e.native.None? then ZERO.(unknown := 1)
    else
      var a := FirstOf(e.attempts.value, e.native.value);
      if a.None? || !Measured(a.value.usage) then ZERO.(unknown := 1)
      else TallyUsage(a.value.usage).(written := 0, writeObserved := 0)
  }

  function SwitchTotal(entries: seq<Entry>, onlyRevisits: bool): Tally {
    if entries == [] then ZERO
    else
      var past, e := entries[..|entries| - 1], entries[|entries| - 1];
      var counted := if onlyRevisits then Revisits(past, e) else Switches(past, e);
      Add(SwitchTotal(past, onlyRevisits), if counted then SwitchTally(e) else ZERO)
  }

  lemma AppendEntry(past: seq<Entry>, e: Entry, only: Option<Model>, onlyRevisits: bool)
    ensures TallyAll(past + [e], only) == Add(TallyAll(past, only), TallyAttempts(AttemptsOf(e), only))
    ensures
      var counted := if onlyRevisits then Revisits(past, e) else Switches(past, e);
      && CountSwitches(past + [e], onlyRevisits) == CountSwitches(past, onlyRevisits) + (if counted then 1 else 0)
      && SwitchTotal(past + [e], onlyRevisits) ==
         Add(SwitchTotal(past, onlyRevisits), if counted then SwitchTally(e) else ZERO)
  {
    hide Add, Switches, Revisits, SwitchTally, TallyAttempts;
    assert (past + [e])[..|past|] == past && (past + [e])[|past|] == e;
  }

  lemma AppendAttempt(before: seq<Attempt>, a: Attempt, only: Option<Model>)
    ensures TallyAttempts(before + [a], only) ==
            if a.model.Some? && (only.None? || only == a.model) then
              Add(TallyAttempts(before, only), TallyUsage(a.usage))
            else TallyAttempts(before, only)
    ensures NativeIn(before + [a]) == NativeIn(before) + if a.model.Some? then 1 else 0
  {
    hide Add, TallyUsage;
    assert (before + [a])[..|before|] == before && (before + [a])[|before|] == a;
  }

  lemma NoEntries(only: Option<Model>)
    ensures TallyAll([], only) == ZERO && TallyAttempts([], only) == ZERO
    ensures SwitchTotal([], false) == ZERO && SwitchTotal([], true) == ZERO
    ensures CountSwitches([], false) == 0 && CountSwitches([], true) == 0
  {
  }

  // ---------------------------------------------------------------- sessions

  /** All sessions that can be told. */
  function Tracked(entries: seq<Entry>): set<string> {
    if entries == [] then {}
    else
      var e := entries[|entries| - 1];
      Tracked(entries[..|entries| - 1]) + if ScopeOf(e).Some? then {ScopeOf(e).value} else {}
  }

  predicate UsedIn(attempts: seq<Attempt>, m: Model) {
    exists i | 0 <= i < |attempts| :: attempts[i].model == Some(m) && Measured(attempts[i].usage)
  }

  /** The sessions in which a measured attempt ran on the model. */
  function SessionsOn(entries: seq<Entry>, m: Model): set<string> {
    if entries == [] then {}
    else
      var e := entries[|entries| - 1];
      SessionsOn(entries[..|entries| - 1], m) +
      if ScopeOf(e).Some? && UsedIn(AttemptsOf(e), m) then {ScopeOf(e).value} else {}
  }

  ghost predicate SessionsAre(sessions: map<Model, set<string>>, past: seq<Entry>, scope: Option<string>,
                              attempts: seq<Attempt>) {
    forall m: Model ::
      (if m in sessions then sessions[m] else {}) ==
      SessionsOn(past, m) + if scope.Some? && UsedIn(attempts, m) then {scope.value} else {}
  }

  /** One more attempt in the entry being read. */
  lemma SessionsAttempt(sessions: map<Model, set<string>>, past: seq<Entry>, scope: Option<string>,
                        before: seq<Attempt>, a: Attempt)
    requires SessionsAre(sessions, past, scope, before)
    ensures
      if a.model.Some? && Measured(a.usage) && scope.Some? then
        var m := a.model.value;
        SessionsAre(sessions[m := (if m in sessions then sessions[m] else {}) + {scope.value}], past, scope,
                    before + [a])
      else SessionsAre(sessions, past, scope, before + [a])
  {
    hide Measured, SessionsOn;
    forall m: Model
      ensures UsedIn(before + [a], m) <==> UsedIn(before, m) || (a.model == Some(m) && Measured(a.usage))
    {
      UsedStep(before, a, m);
    }
  }

  lemma UsedStep(before: seq<Attempt>, a: Attempt, m: Model)
    ensures UsedIn(before + [a], m) <==> UsedIn(before, m) || (a.model == Some(m) && Measured(a.usage))
  {
    hide Measured;
    var all := before + [a];
    assert all[|before|] == a;
    if i :| 0 <= i < |before| && before[i].model == Some(m) && Measured(before[i].usage) {
      assert all[i] == before[i];
    }
  }

  /** The entry is read: its session counts as one of the past. */
  lemma SessionsNext(sessions: map<Model, set<string>>, past: seq<Entry>, e: Entry)
    requires SessionsAre(sessions, past, ScopeOf(e), AttemptsOf(e))
    ensures SessionsAre(sessions, past + [e], None, [])
  {
    hide UsedIn, ScopeOf, AttemptsOf;
    assert (past + [e])[..|past|] == past && (past + [e])[|past|] == e;
  }

  lemma SessionsStart(sessions: map<Model, set<string>>, past: seq<Entry>, scope: Option<string>)
    requires SessionsAre(sessions, past, None, [])
    ensures SessionsAre(sessions, past, scope, [])
  {
  }

  // ---------------------------------------------------------------- the report

  /** A share in percent, before rounding; unknown when there is no whole. */
  function Percent(part: int, whole: int): Option<real> {
    if whole == 0 then None else Some(100.0 * part as real / whole as real)
  }

  datatype Shares = Shares(hitRate: Option<real>, cachedShare: Option<real>)

  function SharesOf(t: Tally): Shares {
    Shares(Percent(t.hits, t.observed), Percent(t.cached, t.input))
  }

  /** The counters of one model, its sessions and its shares. */
  datatype Row = Row(tally: Tally, sessions: nat, shares: Shares)

  datatype Report = Report(tracked: nat, switches: nat, revisits: nat, switchCache: Tally, switchShares: Shares,
                           revisitCache: Tally, revisitShares: Shares, total: Tally, totalShares: Shares,
                           rows: map<Model, Row>)

  ghost predicate SessionState(past: seq<Entry>, last: map<string, Model>, seen: map<string, set<Model>>) {
    && (forall s: string :: s in last <==> LastModel(past, s).Some?)
    && (forall s | s in last :: LastModel(past, s) == Some(last[s]))
    && (forall s: string :: ModelsOf(past, s) == if s in seen then seen[s] else {})
  }

  /** One entry updates the session dictionaries. */
  lemma SessionStep(past: seq<Entry>, e: Entry, last: map<string, Model>, seen: map<string, set<Model>>)
    requires SessionState(past, last, seen)
    ensures
      var s := ScopeOf(e);
      if s.Some? && e.native.Some? then
        SessionState(past + [e], last[s.value := e.native.value],
                     seen[s.value := (if s.value in seen then seen[s.value] else {}) + {e.native.value}])
      else SessionState(past + [e], last, seen)
  {
    assert (past + [e])[..|past|] == past;
  }

  function RowOf(entries: seq<Entry>, m: Model): Row {
    Row(TallyAll(entries, Some(m)), |SessionsOn(entries, m)|, SharesOf(TallyAll(entries, Some(m))))
  }

  /** `prompt_cache_usage`, before rounding. */
  method PromptCacheUsage(entries: seq<Entry>) returns (r: Report)
    ensures r.switches == CountSwitches(entries, false) && r.revisits == CountSwitches(entries, true)
    ensures r.switchCache == SwitchTotal(entries, false) && r.revisitCache == SwitchTotal(entries, true)
    ensures r.total == TallyAll(entries, None) && r.tracked == |Tracked(entries)|
    ensures forall m | m in r.rows :: r.rows[m] == RowOf(entries, m)
    ensures forall m: Model :: m !in r.rows ==> RowOf(entries, m) == Row(ZERO, 0, SharesOf(ZERO))
    ensures r.totalShares == SharesOf(r.total)
    ensures r.switchShares == SharesOf(r.switchCache) && r.revisitShares == SharesOf(r.revisitCache)
  {
    hide TallyUsage, SwitchTally, Switches, Revisits, CountSwitches, SwitchTotal, TallyAll, TallyAttempts, Add,
         SessionState, RowsAre, LastModel, ModelsOf, SessionsAre, SessionsOn, Tracked, SharesOf;
    NoEntries(None);
    NoState();
    NoRows();
    NothingTracked();
    var switches, revisits := 0, 0;
    var switchCache, revisitCache, total := ZERO, ZERO, ZERO;
    var rows: map<Model, Tally> := map[];
    var sessions: map<Model, set<string>> := map[];
    var scopes: set<string> := {};
    var lastModel: map<string, Model> := map[];
    var seenModels: map<string, set<Model>> := map[];
    for i := 0 to |entries|
      invariant SessionState(entries[..i], lastModel, seenModels)
      invariant switches == CountSwitches(entries[..i], false) && revisits == CountSwitches(entries[..i], true)
      invariant switchCache == SwitchTotal(entries[..i], false) && revisitCache == SwitchTotal(entries[..i], true)
      invariant total == TallyAll(entries[..i], None)
      invariant RowsAre(rows, entries[..i], [])
      invariant SessionsAre(sessions, entries[..i], None, []) && sessions.Keys <= rows.Keys
      invariant scopes == Tracked(entries[..i])
    {
      var e, past := entries[i], entries[..i];
      assert entries[..i + 1] == past + [e];
      AppendEntry(past, e, None, false);
      AppendEntry(past, e, None, true);
      AddZero(switchCache);
      AddZero(revisitCache);
      SessionStep(past, e, lastModel, seenModels);
      var scope := ScopeOf(e);
      TrackedStep(past, e);
      if scope.Some? { scopes := scopes + {scope.value}; }
      var switched, revisited := SwitchKind(past, e, lastModel, seenModels);
      if scope.Some? && e.native.Some? {
        if switched { switches := switches + 1; }
        if revisited { revisits := revisits + 1; }
        var seen := if scope.value in seenModels then seenModels[scope.value] else {};
        seenModels := seenModels[scope.value := seen + {e.native.value}];
        lastModel := lastModel[scope.value := e.native.value];
      }
      SessionsStart(sessions, past, scope);
      total, rows, sessions := CountAttempts(past, scope, AttemptsOf(e), total, rows, sessions);
      RowsStep(rows, past, e);
      SessionsNext(sessions, past, e);
      if switched {
        switchCache := Add(switchCache, SwitchTally(e));
        if revisited { revisitCache := Add(revisitCache, SwitchTally(e)); }
      }
    }
    assert entries[..|entries|] == entries;
    RowsOfReport(rows, sessions, entries);
    var finished := map m | m in rows :: Row(rows[m], if m in sessions then |sessions[m]| else 0, SharesOf(rows[m]));
    r := Report(|scopes|, switches, revisits, switchCache, SharesOf(switchCache), revisitCache, SharesOf(revisitCache),
                total, SharesOf(total), finished);
  }

  method SwitchKind(ghost past: seq<Entry>, e: Entry, lastModel: map<string, Model>,
                    seenModels: map<string, set<Model>>)
    returns (switched: bool, revisited: bool)
    requires SessionState(past, lastModel, seenModels)
    ensures switched == Switches(past, e) && revisited == Revisits(past, e)
    ensures switched ==> ScopeOf(e).Some? && e.native.Some?
    ensures revisited ==> switched
  {
    switched, revisited := false, false;
    var scope := ScopeOf(e);
    if scope.Some? && e.native.Some? && scope.value in lastModel && lastModel[scope.value] != e.native.value {
      switched := true;
      revisited := scope.value in seenModels && e.native.value in seenModels[scope.value];
    }
  }

  ghost predicate RowsAre(rows: map<Model, Tally>, past: seq<Entry>, attempts: seq<Attempt>) {
    forall m: Model ::
      (if m in rows then rows[m] else ZERO) == Add(TallyAll(past, Some(m)), TallyAttempts(attempts, Some(m)))
  }

  lemma NoState()
    ensures SessionState([], map[], map[])
  {
  }

  lemma NothingTracked()
    ensures Tracked([]) == {} && SessionsAre(map[], [], None, [])
  {
  }

  lemma NoRows()
    ensures RowsAre(map[], [], [])
  {
    hide Add, TallyAll, TallyAttempts;
    forall m: Model ensures Add(TallyAll([], Some(m)), TallyAttempts([], Some(m))) == ZERO {
      NoEntries(Some(m));
      AddZero(ZERO);
    }
  }

  lemma RowsOfReport(rows: map<Model, Tally>, sessions: map<Model, set<string>>, entries: seq<Entry>)
    requires RowsAre(rows, entries, []) && SessionsAre(sessions, entries, None, [])
    ensures forall m: Model :: (if m in rows then rows[m] else ZERO) == TallyAll(entries, Some(m))
    ensures forall m: Model :: (if m in sessions then |sessions[m]| else 0) == |SessionsOn(entries, m)|
  {
    hide Add, TallyAll, SessionsOn;
    forall m: Model ensures (if m in rows then rows[m] else ZERO) == TallyAll(entries, Some(m)) {
      AddZero(TallyAll(entries, Some(m)));
    }
    forall m: Model ensures (if m in sessions then sessions[m] else {}) == SessionsOn(entries, m) {
      assert SessionsOn(entries, m) + {} == SessionsOn(entries, m);
    }
  }

  lemma TrackedStep(past: seq<Entry>, e: Entry)
    ensures Tracked(past + [e]) == Tracked(past) + if ScopeOf(e).Some? then {ScopeOf(e).value} else {}
  {
    assert (past + [e])[..|past|] == past && (past + [e])[|past|] == e;
  }

  lemma RowsStep(rows: map<Model, Tally>, past: seq<Entry>, e: Entry)
    requires RowsAre(rows, past, AttemptsOf(e))
    ensures RowsAre(rows, past + [e], [])
  {
    hide Add, TallyAll, TallyAttempts;
    forall m: Model
      ensures (if m in rows then rows[m] else ZERO) ==
              Add(TallyAll(past + [e], Some(m)), TallyAttempts([], Some(m)))
    {
      AppendEntry(past, e, Some(m), false);
      NoEntries(Some(m));
      AddZero(TallyAll(past + [e], Some(m)));
    }
  }

  /** One more attempt of model `m` in its row, and in no other. */
  lemma RowsAttempt(rows: map<Model, Tally>, past: seq<Entry>, before: seq<Attempt>, a: Attempt)
    requires RowsAre(rows, past, before)
    ensures a.model.None? ==> RowsAre(rows, past, before + [a])
    ensures a.model.Some? ==>
              var m := a.model.value;
              RowsAre(rows[m := Add(if m in rows then rows[m] else ZERO, TallyUsage(a.usage))], past, before + [a])
  {
    hide Add, TallyAll, TallyAttempts, TallyUsage;
    forall m: Model
      ensures Add(TallyAll(past, Some(m)), TallyAttempts(before + [a], Some(m))) ==
              if a.model == Some(m) then
                Add(Add(TallyAll(past, Some(m)), TallyAttempts(before, Some(m))), TallyUsage(a.usage))
              else Add(TallyAll(past, Some(m)), TallyAttempts(before, Some(m)))
    {
      AppendAttempt(before, a, Some(m));
      AddAssoc(TallyAll(past, Some(m)), TallyAttempts(before, Some(m)), TallyUsage(a.usage));
    }
  }

  method CountAttempts(ghost past: seq<Entry>, scope: Option<string>, attempts: seq<Attempt>, total0: Tally,
                       rows0: map<Model, Tally>, sessions0: map<Model, set<string>>)
    returns (total: Tally, rows: map<Model, Tally>, sessions: map<Model, set<string>>)
    requires RowsAre(rows0, past, []) && SessionsAre(sessions0, past, scope, []) && sessions0.Keys <= rows0.Keys
    ensures total == Add(total0, TallyAttempts(attempts, None)) && RowsAre(rows, past, attempts)
    ensures SessionsAre(sessions, past, scope, attempts) && sessions.Keys <= rows.Keys
  {
    hide TallyUsage, Add, RowsAre, TallyAttempts, TallyAll, SessionsAre, Measured;
    NoEntries(None);
    AddZero(total0);
    total, rows, sessions := total0, rows0, sessions0;
    for j := 0 to |attempts|
      invariant total == Add(total0, TallyAttempts(attempts[..j], None))
      invariant RowsAre(rows, past, attempts[..j])
      invariant SessionsAre(sessions, past, scope, attempts[..j]) && sessions.Keys <= rows.Keys
    {
      var a := attempts[j];
      assert attempts[..j + 1] == attempts[..j] + [a];
      AppendAttempt(attempts[..j], a, None);
      RowsAttempt(rows, past, attempts[..j], a);
      SessionsAttempt(sessions, past, scope, attempts[..j], a);
      if a.model.Some? {
        var m, t := a.model.value, TallyUsage(a.usage);
        AddAssoc(total0, TallyAttempts(attempts[..j], None), t);
        total := Add(total, t);
        rows := rows[m := Add(if m in rows then rows[m] else ZERO, t)];
        if Measured(a.usage) && scope.Some? {
          sessions := sessions[m := (if m in sessions then sessions[m] else {}) + {scope.value}];
        }
      }
    }
    assert attempts[..|attempts|] == attempts;
  }

  // ---------------------------------------------------------------- laws of the report

  /** Every switch is either observed or unknown, and so is every revisit. */
  lemma {:induction false} SwitchesSplit(entries: seq<Entry>, onlyRevisits: bool)
    ensures SwitchTotal(entries, onlyRevisits).observed + SwitchTotal(entries, onlyRevisits).unknown ==
            CountSwitches(entries, onlyRevisits)
  {
    hide Switches, Revisits;
    if entries != [] {
      SwitchesSplit(entries[..|entries| - 1], onlyRevisits);
    }
  }

  function Sum4(a: Tally, b: Tally, c: Tally, d: Tally): Tally {
    Add(Add(a, b), Add(c, d))
  }

  lemma Sum4Add(l: Tally, t: Tally, s: Tally, a: Tally, u: Tally)
    ensures Add(Sum4(l, t, s, a), u) == Sum4(Add(l, u), t, s, a)
    ensures Add(Sum4(l, t, s, a), u) == Sum4(l, Add(t, u), s, a)
    ensures Add(Sum4(l, t, s, a), u) == Sum4(l, t, Add(s, u), a)
    ensures Add(Sum4(l, t, s, a), u) == Sum4(l, t, s, Add(a, u))
  {
  }

  lemma Sum4Sum4(l: Tally, t: Tally, s: Tally, a: Tally, l': Tally, t': Tally, s': Tally, a': Tally)
    ensures Add(Sum4(l, t, s, a), Sum4(l', t', s', a')) == Sum4(Add(l, l'), Add(t, t'), Add(s, s'), Add(a, a'))
  {
  }

  lemma {:induction false} AttemptRowsSum(attempts: seq<Attempt>)
    ensures TallyAttempts(attempts, None) ==
            Sum4(TallyAttempts(attempts, Some(Luna)), TallyAttempts(attempts, Some(Terra)),
                 TallyAttempts(attempts, Some(Sol)), TallyAttempts(attempts, Some(Astra)))
  {
    hide TallyUsage, Add;
    if attempts == [] {
      AddZero(ZERO);
    } else {
      hide Sum4;
      var before, a := attempts[..|attempts| - 1], attempts[|attempts| - 1];
      AttemptRowsSum(before);
      Sum4Add(TallyAttempts(before, Some(Luna)), TallyAttempts(before, Some(Terra)),
              TallyAttempts(before, Some(Sol)), TallyAttempts(before, Some(Astra)), TallyUsage(a.usage));
      if a.model.Some? { match a.model.value { case Luna => case Terra => case Sol => case Astra => } }
    }
  }

  /** The per-model rows add up to the totals. */
  lemma {:induction false} RowsSum(entries: seq<Entry>)
    ensures TallyAll(entries, None) ==
            Sum4(TallyAll(entries, Some(Luna)), TallyAll(entries, Some(Terra)),
                 TallyAll(entries, Some(Sol)), TallyAll(entries, Some(Astra)))
  {
    hide Add, TallyAttempts;
    if entries == [] {
      AddZero(ZERO);
    } else {
      hide Sum4;
      var past, last := entries[..|entries| - 1], AttemptsOf(entries[|entries| - 1]);
      RowsSum(past);
      AttemptRowsSum(last);
      Sum4Sum4(TallyAll(past, Some(Luna)), TallyAll(past, Some(Terra)),
               TallyAll(past, Some(Sol)), TallyAll(past, Some(Astra)),
               TallyAttempts(last, Some(Luna)), TallyAttempts(last, Some(Terra)),
               TallyAttempts(last, Some(Sol)), TallyAttempts(last, Some(Astra)));
    }
  }

  /** Sum of the values of a finite map. */
  ghost function SumValues(m: map<string, int>): int
    decreases |m|
  {
    if m == map[] then 0 else var k :| k in m; m[k] + SumValues(m - {k})
  }

  lemma {:induction false} SumWithout(m: map<string, int>, k: string)
    requires k in m
    ensures SumValues(m) == m[k] + SumValues(m - {k})
    decreases |m|
  {
    var j :| j in m && SumValues(m) == m[j] + SumValues(m - {j});
    if j != k {
      assert |m - {j}| < |m| && |m - {k}| < |m|;
      SumWithout(m - {j}, k);
      SumWithout(m - {k}, j);
      assert m - {j} - {k} == m - {k} - {j};
    }
  }

  lemma SumUpdate(m: map<string, int>, k: string, v: int)
    ensures SumValues(m[k := v]) == SumValues(m) + v - if k in m then m[k] else 0
  {
    var u := m[k := v];
    SumWithout(u, k);
    if k in m {
      SumWithout(m, k);
      assert u - {k} == m - {k};
    } else {
      assert u - {k} == m;
    }
  }

  /** For each session, how many models it used beyond its first. */
  ghost function Excess(entries: seq<Entry>): map<string, int> {
    map s | s in Sessions(entries) :: |ModelsOf(entries, s)| - 1
  }

  lemma {:induction false} LastIsSeen(entries: seq<Entry>, s: string)
    ensures LastModel(entries, s).Some? ==> LastModel(entries, s).value in ModelsOf(entries, s)
    ensures LastModel(entries, s).Some? <==> s in Sessions(entries)
    ensures s !in Sessions(entries) ==> ModelsOf(entries, s) == {}
  {
    if entries != [] {
      LastIsSeen(entries[..|entries| - 1], s);
    }
  }

  /** Switches that are not revisits are exactly the models sessions used beyond their first:
      switches minus revisits is the sum over sessions of (distinct models minus one). */
  lemma {:induction false} SwitchesMinusRevisits(entries: seq<Entry>)
    ensures CountSwitches(entries, false) - CountSwitches(entries, true) == SumValues(Excess(entries))
    decreases |entries|
  {
    if entries == [] {
      assert Excess(entries) == map[];
    } else {
      var past, e := entries[..|entries| - 1], entries[|entries| - 1];
      SwitchesMinusRevisits(past);
      ExcessStep(past, e);
      assert entries == past + [e];
    }
  }

  lemma AppendSession(past: seq<Entry>, e: Entry, s: string)
    ensures ModelsOf(past + [e], s) == ModelsOf(past, s) + if InSession(e, s) then {e.native.value} else {}
    ensures Sessions(past + [e]) ==
            Sessions(past) + if ScopeOf(e).Some? && e.native.Some? then {ScopeOf(e).value} else {}
  {
    hide InSession;
    assert (past + [e])[..|past|] == past && (past + [e])[|past|] == e;
  }

  lemma ExcessStep(past: seq<Entry>, e: Entry)
    ensures SumValues(Excess(past + [e])) == SumValues(Excess(past)) +
            (if Switches(past, e) && !Revisits(past, e) then 1 else 0)
  {
    hide ModelsOf, Sessions, LastModel, Excess, SumValues, Switches, Revisits;
    if ScopeOf(e).Some? && e.native.Some? {
      var s := ScopeOf(e).value;
      var grown := |ModelsOf(past, s) + {e.native.value}| - 1;
      ExcessUpdate(past, e, s);
      SumUpdate(Excess(past), s, grown);
      OneMore(ModelsOf(past, s), e.native.value);
      LastIsSeen(past, s);
      ExcessAt(past, s);
      SwitchMeans(past, e);
    } else {
      ExcessSame(past, e);
      assert !Switches(past, e) by { NoSession(past, e); }
    }
  }

  lemma NoSession(past: seq<Entry>, e: Entry)
    requires ScopeOf(e).None? || e.native.None?
    ensures !Switches(past, e)
  {
  }

  lemma ExcessAt(past: seq<Entry>, s: string)
    ensures s in Excess(past) <==> s in Sessions(past)
    ensures s in Sessions(past) ==> Excess(past)[s] == |ModelsOf(past, s)| - 1
  {
  }

  lemma ExcessSame(past: seq<Entry>, e: Entry)
    requires ScopeOf(e).None? || e.native.None?
    ensures Excess(past + [e]) == Excess(past)
  {
    hide ModelsOf, Sessions;
    AppendSession(past, e, "");
    forall t | t in Sessions(past) ensures ModelsOf(past + [e], t) == ModelsOf(past, t) {
      AppendSession(past, e, t);
    }
  }

  lemma ExcessUpdate(past: seq<Entry>, e: Entry, s: string)
    requires ScopeOf(e) == Some(s) && e.native.Some?
    ensures Excess(past + [e]) == Excess(past)[s := |ModelsOf(past, s) + {e.native.value}| - 1]
  {
    hide ModelsOf, Sessions;
    AppendSession(past, e, s);
    forall t | t in Sessions(past) && t != s ensures ModelsOf(past + [e], t) == ModelsOf(past, t) {
      AppendSession(past, e, t);
    }
  }

  /** A switch that is not a revisit brings a new model into a session that had one. */
  lemma SwitchMeans(past: seq<Entry>, e: Entry)
    requires ScopeOf(e).Some? && e.native.Some?
    ensures
      var s, m := ScopeOf(e).value, e.native.value;
      (Switches(past, e) && !Revisits(past, e)) <==> (s in Sessions(past) && m !in ModelsOf(past, s))
  {
    hide ModelsOf, Sessions, LastModel;
    LastIsSeen(past, ScopeOf(e).value);
  }

  lemma OneMore<T>(s: set<T>, x: T)
    ensures |s + {x}| == |s| + if x in s then 0 else 1
  {
    if x in s { assert s + {x} == s; }
  }

  predicate Sane(t: Tally) {
    t.hits <= t.observed && 0 <= t.cached <= t.input && 0 <= t.written && t.writeObserved <= t.observed
  }

  lemma {:induction false} AttemptsSane(attempts: seq<Attempt>, only: Option<Model>)
    ensures Sane(TallyAttempts(attempts, only))
  {
    if attempts != [] {
      AttemptsSane(attempts[..|attempts| - 1], only);
    }
  }

  /** Shares stay within their whole: hits within observed attempts, cached tokens within input tokens. */
  lemma {:induction false} TalliesSane(entries: seq<Entry>, only: Option<Model>)
    ensures Sane(TallyAll(entries, only))
  {
    if entries != [] {
      TalliesSane(entries[..|entries| - 1], only);
      AttemptsSane(AttemptsOf(entries[|entries| - 1]), only);
    }
  }

  predicate IsPercent(p: Option<real>) {
    p.None? || 0.0 <= p.value <= 100.0
  }

  lemma PercentBounds(part: int, whole: int)
    requires 0 <= part <= whole
    ensures IsPercent(Percent(part, whole))
  {
    if whole != 0 {
      var p, w := part as real, whole as real;
      assert 0.0 <= 100.0 * p <= 100.0 * w;
      assert 100.0 * p / w <= 100.0 * w / w == 100.0;
    }
  }

  predicate ArePercentages(s: Shares) {
    IsPercent(s.hitRate) && IsPercent(s.cachedShare)
  }

  /** A share is the part in percent of the whole, and unknown exactly without a whole. */
  lemma SharesAre(t: Tally)
    ensures
      var s := SharesOf(t);
      && (s.hitRate.Some? <==> t.observed != 0) && (s.cachedShare.Some? <==> t.input != 0)
      && (s.hitRate.Some? ==> s.hitRate.value * (t.observed as real) == 100.0 * (t.hits as real))
      && (s.cachedShare.Some? ==> s.cachedShare.value * (t.input as real) == 100.0 * (t.cached as real))
  {
  }

  lemma SaneShares(t: Tally)
    requires Sane(t)
    ensures ArePercentages(SharesOf(t))
  {
    hide Percent, IsPercent;
    PercentBounds(t.hits, t.observed);
    PercentBounds(t.cached, t.input);
  }

  /** Every rate of the report is a percentage: of a model, in total, of switches and of revisits. */
  lemma SharesSane(entries: seq<Entry>, only: Option<Model>, onlyRevisits: bool)
    ensures ArePercentages(SharesOf(TallyAll(entries, only)))
    ensures ArePercentages(SharesOf(SwitchTotal(entries, onlyRevisits)))
  {
    hide TallyAll, SwitchTotal, SharesOf, ArePercentages;
    TalliesSane(entries, only);
    SwitchesSane(entries, onlyRevisits);
    SaneShares(TallyAll(entries, only));
    SaneShares(SwitchTotal(entries, onlyRevisits));
  }

  lemma {:induction false} SwitchesSane(entries: seq<Entry>, onlyRevisits: bool)
    ensures Sane(SwitchTotal(entries, onlyRevisits))
  {
    hide Switches, Revisits, FirstOf;
    if entries != [] {
      SwitchesSane(entries[..|entries| - 1], onlyRevisits);
    }
  }

  /** The sessions of a model, and those with a routed call, are tracked ones. */
  lemma {:induction false} SessionsTracked(entries: seq<Entry>, m: Model)
    ensures SessionsOn(entries, m) <= Tracked(entries) && Sessions(entries) <= Tracked(entries)
    ensures |SessionsOn(entries, m)| <= |Tracked(entries)|
  {
    hide UsedIn, ScopeOf;
    if entries != [] {
      SessionsTracked(entries[..|entries| - 1], m);
    }
    Subset(SessionsOn(entries, m), Tracked(entries));
  }

  // ---------------------------------------------------------------- credits

  datatype Rates = Rates(input: real, cached: real, output: real)

  /** Credits per million tokens; Terra has no published rate. */
  function CreditRates(m: Model): Option<Rates> {
    match m
    case Luna => Some(Rates(5.0, 0.5, 30.0))
    case Sol => Some(Rates(100.0, 10.0, 500.0))
    case Astra => Some(Rates(250.0, 25.0, 1250.0))
    case Terra => None
  }

  predicate Truthy(c: Count) {
    (c.NotInt? && c.truthy) || (c.Int? && c.n != 0)
  }

  predicate Priceable(u: Usage) {
    && u.Usage? && u.input.Int? && u.cached.Int? && u.output.Int?
    && 0 <= u.input.n && 0 <= u.cached.n <= u.input.n && 0 <= u.output.n && !Truthy(u.written)
  }

  function TokenCredits(m: Model, u: Usage): (r: Option<real>)
    ensures r.Some? ==> r.value >= 0.0 && Measured(u)
  {
    if CreditRates(m).None? || !Priceable(u) then None
    else
      var p := CreditRates(m).value;
      Some((((u.input.n - u.cached.n) as real) * p.input + (u.cached.n as real) * p.cached +
            (u.output.n as real) * p.output) / 1000000.0)
  }

  function Rank(m: Model): nat {
    match m
    case Luna => 0
    case Terra => 1
    case Sol => 2
    case Astra => 3
  }

  /** The same usage never costs less on a larger model, among those with a published rate. */
  lemma CreditsOrdered(m: Model, larger: Model, u: Usage)
    requires TokenCredits(m, u).Some? && Rank(m) <= Rank(larger) && larger != Terra
    ensures TokenCredits(larger, u).Some?
    ensures TokenCredits(m, u).value <= TokenCredits(larger, u).value
  {
  }

  function NativeIn(attempts: seq<Attempt>): nat {
    if attempts == [] then 0
    else NativeIn(attempts[..|attempts| - 1]) + if attempts[|attempts| - 1].model.Some? then 1 else 0
  }

  function NativeAttempts(entries: seq<Entry>): nat {
    if entries == [] then 0
    else NativeAttempts(entries[..|entries| - 1]) + NativeIn(AttemptsOf(entries[|entries| - 1]))
  }

  // ---------------------------------------------------------------- what attempts cost

  /** The attempt ran at default speed on a model with a rate, with a usage that can be priced. */
  predicate IsPriced(a: Attempt) {
    a.model.Some? && a.defaultSpeed && TokenCredits(a.model.value, a.usage).Some?
  }

  function PricedIn(attempts: seq<Attempt>): nat {
    if attempts == [] then 0
    else PricedIn(attempts[..|attempts| - 1]) + if IsPriced(attempts[|attempts| - 1]) then 1 else 0
  }

  /** What a priced attempt costs, on the model it ran on or on another one. */
  function Cost(a: Attempt, on: Option<Model>): real
    requires IsPriced(a)
  {
    var c := TokenCredits(if on.Some? then on.value else a.model.value, a.usage);
    if c.Some? then c.value else 0.0
  }

  function CreditsIn(attempts: seq<Attempt>, on: Option<Model>): real {
    if attempts == [] then 0.0
    else
      CreditsIn(attempts[..|attempts| - 1], on) +
      if IsPriced(attempts[|attempts| - 1]) then Cost(attempts[|attempts| - 1], on) else 0.0
  }

  function PricedAttempts(entries: seq<Entry>): nat {
    if entries == [] then 0
    else PricedAttempts(entries[..|entries| - 1]) + PricedIn(AttemptsOf(entries[|entries| - 1]))
  }

  function Credits(entries: seq<Entry>, on: Option<Model>): real {
    if entries == [] then 0.0
    else Credits(entries[..|entries| - 1], on) + CreditsIn(AttemptsOf(entries[|entries| - 1]), on)
  }

  datatype UsageReport = UsageReport(native: nat, priced: nat, unknown: nat, legacy: nat,
                                     routed: real, allSol: real, allAstra: real)

  lemma AttemptStep(before: seq<Attempt>, a: Attempt)
    ensures NativeIn(before + [a]) == NativeIn(before) + if a.model.Some? then 1 else 0
    ensures PricedIn(before + [a]) == PricedIn(before) + if IsPriced(a) then 1 else 0
    ensures forall on :: CreditsIn(before + [a], on) == CreditsIn(before, on) + if IsPriced(a) then Cost(a, on) else 0.0
  {
    hide IsPriced, Cost;
    assert (before + [a])[..|before|] == before && (before + [a])[|before|] == a;
  }

  /** Add the attempts of one entry to the report. */
  method CountUsage(attempts: seq<Attempt>, r0: UsageReport) returns (r: UsageReport)
    requires r0.native == r0.priced + r0.unknown
    ensures r.native == r0.native + NativeIn(attempts) == r.priced + r.unknown
    ensures r.priced == r0.priced + PricedIn(attempts) && r.legacy == r0.legacy
    ensures r.routed == r0.routed + CreditsIn(attempts, None)
    ensures r.allSol == r0.allSol + CreditsIn(attempts, Some(Sol))
    ensures r.allAstra == r0.allAstra + CreditsIn(attempts, Some(Astra))
  {
    hide NativeIn, PricedIn, CreditsIn, TokenCredits;
    NoAttempts();
    r := r0;
    for j := 0 to |attempts|
      invariant r.native == r0.native + NativeIn(attempts[..j]) == r.priced + r.unknown
      invariant r.priced == r0.priced + PricedIn(attempts[..j]) && r.legacy == r0.legacy
      invariant r.routed == r0.routed + CreditsIn(attempts[..j], None)
      invariant r.allSol == r0.allSol + CreditsIn(attempts[..j], Some(Sol))
      invariant r.allAstra == r0.allAstra + CreditsIn(attempts[..j], Some(Astra))
    {
      var a := attempts[j];
      assert attempts[..j + 1] == attempts[..j] + [a];
      AttemptStep(attempts[..j], a);
      if a.model.Some? {
        r := r.(native := r.native + 1);
        var cost := if a.defaultSpeed then TokenCredits(a.model.value, a.usage) else None;
        if cost.None? {
          r := r.(unknown := r.unknown + 1);
        } else {
          AlwaysPriced(a);
          r := r.(priced := r.priced + 1, routed := r.routed + cost.value,
                  allSol := r.allSol + TokenCredits(Sol, a.usage).value,
                  allAstra := r.allAstra + TokenCredits(Astra, a.usage).value);
        }
      }
    }
    assert attempts[..|attempts|] == attempts;
  }

  lemma NoAttempts()
    ensures NativeIn([]) == 0 && PricedIn([]) == 0 && forall on :: CreditsIn([], on) == 0.0
  {
  }

  /** A priced attempt has a price on Sol and on Astra too. */
  lemma AlwaysPriced(a: Attempt)
    requires IsPriced(a)
    ensures TokenCredits(Sol, a.usage).Some? && TokenCredits(Astra, a.usage).Some?
  {
  }

  /** Entries from before attempts were recorded. */
  function LegacyEntries(entries: seq<Entry>): nat {
    if entries == [] then 0
    else LegacyEntries(entries[..|entries| - 1]) + if entries[|entries| - 1].attempts.None? then 1 else 0
  }

  lemma NothingYet()
    ensures NativeAttempts([]) == 0 && LegacyEntries([]) == 0 && PricedAttempts([]) == 0
    ensures forall on :: Credits([], on) == 0.0
  {
  }

  lemma NativeStep(past: seq<Entry>, e: Entry)
    ensures NativeAttempts(past + [e]) == NativeAttempts(past) + NativeIn(AttemptsOf(e))
    ensures PricedAttempts(past + [e]) == PricedAttempts(past) + PricedIn(AttemptsOf(e))
    ensures forall on :: Credits(past + [e], on) == Credits(past, on) + CreditsIn(AttemptsOf(e), on)
    ensures LegacyEntries(past + [e]) == LegacyEntries(past) + if e.attempts.None? then 1 else 0
  {
    hide NativeIn, PricedIn, CreditsIn;
    assert (past + [e])[..|past|] == past && (past + [e])[|past|] == e;
  }

  /** `measured_usage`, before rounding: native attempts, those with a price, and what these cost as
      routed, all on Sol, and all on Astra. */
  method MeasuredUsage(entries: seq<Entry>) returns (r: UsageReport)
    ensures r.native == NativeAttempts(entries) == r.priced + r.unknown
    ensures r.priced == PricedAttempts(entries)
    ensures r.routed == Credits(entries, None)
    ensures r.allSol == Credits(entries, Some(Sol)) && r.allAstra == Credits(entries, Some(Astra))
    ensures r.legacy == LegacyEntries(entries)
    ensures r.priced <= TallyAll(entries, None).observed
    ensures 0.0 <= r.routed <= r.allAstra && 0.0 <= r.allSol
  {
    hide NativeIn, PricedIn, CreditsIn, TallyAll, NativeAttempts, LegacyEntries, PricedAttempts, Credits;
    NothingYet();
    NoAttempts();
    r := UsageReport(0, 0, 0, 0, 0.0, 0.0, 0.0);
    for i := 0 to |entries|
      invariant r.native == NativeAttempts(entries[..i]) == r.priced + r.unknown
      invariant r.priced == PricedAttempts(entries[..i])
      invariant r.routed == Credits(entries[..i], None)
      invariant r.allSol == Credits(entries[..i], Some(Sol)) && r.allAstra == Credits(entries[..i], Some(Astra))
      invariant r.legacy == LegacyEntries(entries[..i])
    {
      assert entries[..i + 1] == entries[..i] + [entries[i]];
      NativeStep(entries[..i], entries[i]);
      if entries[i].attempts.None? {
        r := r.(legacy := r.legacy + 1);
      } else {
        r := CountUsage(entries[i].attempts.value, r);
      }
    }
    assert entries[..|entries|] == entries;
    PricesBounded(entries);
  }

  lemma CostBounded(a: Attempt)
    requires IsPriced(a)
    ensures 0.0 <= Cost(a, None) <= Cost(a, Some(Astra)) && 0.0 <= Cost(a, Some(Sol))
    ensures a.model.Some? && TallyUsage(a.usage).observed == 1
  {
    hide CreditRates, Priceable;
    var own := TokenCredits(a.model.value, a.usage);
    RankBelow(a.model.value);
    CreditsOrdered(a.model.value, Astra, a.usage);
    AlwaysPriced(a);
  }

  lemma RankBelow(m: Model)
    ensures Rank(m) <= Rank(Astra)
  {
  }

  lemma {:induction false} AttemptPricesBounded(attempts: seq<Attempt>)
    ensures PricedIn(attempts) <= TallyAttempts(attempts, None).observed
    ensures 0.0 <= CreditsIn(attempts, None) <= CreditsIn(attempts, Some(Astra)) &&
            0.0 <= CreditsIn(attempts, Some(Sol))
  {
    hide IsPriced, Cost, TallyUsage;
    if attempts != [] {
      AttemptPricesBounded(attempts[..|attempts| - 1]);
      if IsPriced(attempts[|attempts| - 1]) {
        CostBounded(attempts[|attempts| - 1]);
      }
    }
  }

  /** Only observed attempts have a price, and routing never costs more than Astra for everything. */
  lemma {:induction false} PricesBounded(entries: seq<Entry>)
    ensures PricedAttempts(entries) <= TallyAll(entries, None).observed
    ensures 0.0 <= Credits(entries, None) <= Credits(entries, Some(Astra)) && 0.0 <= Credits(entries, Some(Sol))
  {
    hide PricedIn, CreditsIn, TallyAttempts;
    if entries != [] {
      PricesBounded(entries[..|entries| - 1]);
      AttemptPricesBounded(AttemptsOf(entries[|entries| - 1]));
    }
  }

  lemma {:induction false} AttemptsObservedOrUnknown(attempts: seq<Attempt>)
    ensures TallyAttempts(attempts, None).observed + TallyAttempts(attempts, None).unknown == NativeIn(attempts)
  {
    if attempts != [] {
      AttemptsObservedOrUnknown(attempts[..|attempts| - 1]);
    }
  }

  /** The two reports agree on the number of native attempts. */
  lemma {:induction false} ReportsAgree(entries: seq<Entry>)
    ensures TallyAll(entries, None).observed + TallyAll(entries, None).unknown == NativeAttempts(entries)
  {
    if entries != [] {
      ReportsAgree(entries[..|entries| - 1]);
      AttemptsObservedOrUnknown(AttemptsOf(entries[|entries| - 1]));
    }
  }
}
