/** What the usage reports say about a log, read off its entries: where the switches are, what each
    attempt adds, and that the reports of two logs add up. */
module ReportLaws {
  import opened Json
  import opened Models
  import opened SwitchAccounting

  // ---------------------------------------------------------------- sessions and switches

  /** The entry belongs to session `s`: it has that private scope, and its key is not known to be missing. */
  predicate Belongs(e: Entry, s: string) {
    e.keyPresent != Some(false) && e.cacheScope == Some(s) && s != ""
  }

  predicate Routed(e: Entry, s: string) {
    Belongs(e, s) && e.native.Some?
  }

  /** The last routed call of session `s` before entry `i`. */
  predicate IsPrevious(entries: seq<Entry>, i: nat, s: string, p: nat) {
    p < i <= |entries| && Routed(entries[p], s) && forall k | p < k < i :: !Routed(entries[k], s)
  }

  /** Entry `i` runs on another model than the last routed call of its session. */
  ghost predicate SwitchAt(entries: seq<Entry>, i: nat) {
    i < |entries| && exists s, p: nat ::
      Routed(entries[i], s) && IsPrevious(entries, i, s, p) && entries[p].native != entries[i].native
  }

  /** And its session was on that model before. */
  ghost predicate RevisitAt(entries: seq<Entry>, i: nat) {
    SwitchAt(entries, i) && exists s, q: nat ::
      q < i && Routed(entries[i], s) && Routed(entries[q], s) && entries[q].native == entries[i].native
  }

  lemma {:induction false} LastModelAt(past: seq<Entry>, s: string)
    ensures LastModel(past, s).Some? <==> exists p: nat :: IsPrevious(past, |past|, s, p)
    ensures forall p: nat | IsPrevious(past, |past|, s, p) :: LastModel(past, s) == past[p].native
    decreases |past|
  {
    if past != [] {
      var n := |past| - 1;
      LastModelAt(past[..n], s);
      if Routed(past[n], s) {
        assert IsPrevious(past, |past|, s, n);
      } else {
        forall p: nat ensures IsPrevious(past, |past|, s, p) <==> IsPrevious(past[..n], n, s, p) {
        }
      }
    }
  }

  lemma {:induction false} ModelsAt(past: seq<Entry>, s: string, m: Model)
    ensures m in ModelsOf(past, s) <==> exists q :: 0 <= q < |past| && Routed(past[q], s) && past[q].native == Some(m)
    decreases |past|
  {
    if past != [] {
      var n := |past| - 1;
      ModelsAt(past[..n], s, m);
      if Routed(past[n], s) && past[n].native == Some(m) {
      } else if q :| 0 <= q < |past| && Routed(past[q], s) && past[q].native == Some(m) {
        assert past[..n][q] == past[q];
      }
    }
  }

  lemma SwitchIs(entries: seq<Entry>, i: nat)
    requires i < |entries|
    ensures SwitchAt(entries, i) <==> Switches(entries[..i], entries[i])
    ensures RevisitAt(entries, i) <==> Revisits(entries[..i], entries[i])
  {
    hide LastModel, ModelsOf;
    var past, e := entries[..i], entries[i];
    if ScopeOf(e).Some? && e.native.Some? {
      var s := ScopeOf(e).value;
      LastModelAt(past, s);
      ModelsAt(past, s, e.native.value);
      assert forall p: nat :: IsPrevious(past, i, s, p) <==> IsPrevious(entries, i, s, p);
      assert forall t :: Routed(e, t) <==> t == s;
    }
  }

  ghost function SwitchIndices(entries: seq<Entry>, onlyRevisits: bool): set<int> {
    set i | 0 <= i < |entries| && (if onlyRevisits then RevisitAt(entries, i) else SwitchAt(entries, i))
  }

  /** The switches and revisits of a log are counted where they are. */
  lemma {:induction false} SwitchesCounted(entries: seq<Entry>, onlyRevisits: bool)
    ensures CountSwitches(entries, onlyRevisits) == |SwitchIndices(entries, onlyRevisits)|
    decreases |entries|
  {
    hide SwitchAt, RevisitAt, Switches, Revisits;
    if entries != [] {
      var n := |entries| - 1;
      var past := entries[..n];
      SwitchesCounted(past, onlyRevisits);
      forall i | 0 <= i <= n
        ensures SwitchAt(entries, i) <==> Switches(entries[..i], entries[i])
        ensures RevisitAt(entries, i) <==> Revisits(entries[..i], entries[i])
        ensures i < n ==> (SwitchAt(entries, i) <==> SwitchAt(past, i))
        ensures i < n ==> (RevisitAt(entries, i) <==> RevisitAt(past, i))
      {
        SwitchIs(entries, i);
        if i < n {
          SwitchIs(past, i);
          assert past[..i] == entries[..i];
        }
      }
      var here := if onlyRevisits then RevisitAt(entries, n) else SwitchAt(entries, n);
      if here {
        assert SwitchIndices(entries, onlyRevisits) == SwitchIndices(past, onlyRevisits) + {n};
      } else {
        assert SwitchIndices(entries, onlyRevisits) == SwitchIndices(past, onlyRevisits);
      }
    }
  }

  /** Sessions are counted once each: all that can be told, and those with a measured attempt on a model. */
  lemma {:induction false} SessionsAt(entries: seq<Entry>, m: Model, s: string)
    ensures s in Tracked(entries) <==> exists i :: 0 <= i < |entries| && Belongs(entries[i], s)
    ensures s in SessionsOn(entries, m) <==>
            exists i :: 0 <= i < |entries| && Belongs(entries[i], s) && UsedIn(AttemptsOf(entries[i]), m)
    decreases |entries|
  {
    hide UsedIn;
    if entries != [] {
      var n := |entries| - 1;
      var past := entries[..n];
      SessionsAt(past, m, s);
      assert forall i | 0 <= i < n :: past[i] == entries[i];
    }
  }

  // ---------------------------------------------------------------- what an attempt adds

  /** The reports of two logs add up. */
  lemma {:induction false} TalliesAdd(a: seq<Entry>, b: seq<Entry>, only: Option<Model>)
    ensures TallyAll(a + b, only) == Add(TallyAll(a, only), TallyAll(b, only))
    decreases |b|
  {
    hide Add, TallyAttempts;
    if b == [] {
      assert a + b == a;
      AddZero(TallyAll(a, only));
    } else {
      var n := |b| - 1;
      TalliesAdd(a, b[..n], only);
      assert (a + b)[..|a| + n] == a + b[..n];
      AddAssoc(TallyAll(a, only), TallyAll(b[..n], only), TallyAttempts(AttemptsOf(b[n]), only));
    }
  }

  lemma {:induction false} AttemptsAdd(a: seq<Attempt>, b: seq<Attempt>, only: Option<Model>)
    ensures TallyAttempts(a + b, only) == Add(TallyAttempts(a, only), TallyAttempts(b, only))
    decreases |b|
  {
    hide Add, TallyUsage;
    if b == [] {
      assert a + b == a;
      AddZero(TallyAttempts(a, only));
    } else {
      var n := |b| - 1;
      AttemptsAdd(a, b[..n], only);
      assert (a + b)[..|a| + n] == a + b[..n];
      AddZero(TallyAttempts(b[..n], only));
      AddAssoc(TallyAttempts(a, only), TallyAttempts(b[..n], only), TallyUsage(b[n].usage));
    }
  }

  /** An entry with one attempt. */
  function OneAttempt(scope: Option<string>, key: Option<bool>, native: Option<Model>, a: Attempt): Entry {
    Entry(scope, key, native, Some([a]))
  }

  /** What one attempt adds to the row of its model and to the totals: with a measured usage its tokens, and
      a hit when any were cached; the written tokens only when they are a count. Without one it is unknown,
      and a model that is not native counts nowhere. */
  lemma AttemptCounted(scope: Option<string>, key: Option<bool>, native: Option<Model>, a: Attempt, m: Model)
    ensures
      var entries := [OneAttempt(scope, key, native, a)];
      && (a.model.None? ==> TallyAll(entries, None) == ZERO && TallyAll(entries, Some(m)) == ZERO)
      && (a.model.Some? && a.model != Some(m) ==> TallyAll(entries, Some(m)) == ZERO)
      && (a.model == Some(m) ==>
            var t := TallyAll(entries, Some(m));
            && TallyAll(entries, None) == t
            && (if a.usage.Usage? && a.usage.input.Int? && a.usage.cached.Int? && 0 <= a.usage.cached.n &&
                   a.usage.cached.n <= a.usage.input.n then
                  && t.observed == 1 && t.unknown == 0 && t.input == a.usage.input.n && t.cached == a.usage.cached.n
                  && (t.hits == 1 <==> a.usage.cached.n != 0) && t.hits <= 1
                  && (if a.usage.written.Int? && a.usage.written.n >= 0 then
                        t.written == a.usage.written.n && t.writeObserved == 1
                      else t.written == 0 && t.writeObserved == 0)
                else t == Tally(0, 1, 0, 0, 0, 0, 0)))
  {
    hide TallyAll, TallyUsage;
    var e := OneAttempt(scope, key, native, a);
    OneTally(e, a, None);
    OneTally(e, a, Some(m));
    UsageTally(a.usage);
  }

  lemma OneTally(e: Entry, a: Attempt, only: Option<Model>)
    requires e.attempts == Some([a])
    ensures TallyAll([e], only) ==
            if a.model.Some? && (only.None? || only == a.model) then TallyUsage(a.usage) else ZERO
  {
    hide TallyAll, TallyAttempts, TallyUsage, Add;
    assert [] + [e] == [e] && [] + [a] == [a];
    AppendEntry([], e, only, false);
    AppendAttempt([], a, only);
    NoEntries(only);
    AddZero(TallyUsage(a.usage));
    AddZero(ZERO);
  }

  lemma UsageTally(u: Usage)
    ensures
      var t := TallyUsage(u);
      if u.Usage? && u.input.Int? && u.cached.Int? && 0 <= u.cached.n <= u.input.n then
        && t.observed == 1 && t.unknown == 0 && t.input == u.input.n && t.cached == u.cached.n
        && (t.hits == 1 <==> u.cached.n != 0) && t.hits <= 1
        && (if u.written.Int? && u.written.n >= 0 then t.written == u.written.n && t.writeObserved == 1
            else t.written == 0 && t.writeObserved == 0)
      else t == Tally(0, 1, 0, 0, 0, 0, 0)
  {
  }

  // ---------------------------------------------------------------- what a switch adds

  /** The first attempt on the model that was chosen. */
  predicate IsFirstOn(attempts: seq<Attempt>, m: Model, j: nat) {
    j < |attempts| && attempts[j].model == Some(m) && forall k | 0 <= k < j :: attempts[k].model != Some(m)
  }

  lemma {:induction false} FirstIs(attempts: seq<Attempt>, m: Model)
    ensures forall j: nat | IsFirstOn(attempts, m, j) :: FirstOf(attempts, m) == Some(attempts[j])
    ensures FirstOf(attempts, m).Some? ==> exists j: nat :: IsFirstOn(attempts, m, j)
    decreases |attempts|
  {
    if attempts != [] && attempts[0].model != Some(m) {
      var rest := attempts[1..];
      FirstIs(rest, m);
      forall j: nat | IsFirstOn(attempts, m, j) ensures IsFirstOn(rest, m, j - 1) {
      }
      forall j: nat | IsFirstOn(rest, m, j) ensures IsFirstOn(attempts, m, j + 1) {
      }
    } else if attempts != [] {
      assert IsFirstOn(attempts, m, 0);
    }
  }

  /** The first attempt of the switch on its model was measured. */
  predicate IsMeasured(a: Attempt) {
    a.usage.Usage? && a.usage.input.Int? && a.usage.cached.Int? && 0 <= a.usage.cached.n <= a.usage.input.n
  }

  /** What the last entry of a log adds to the cache figures of the switches: nothing when it is none; the
      tokens of its first attempt on the chosen model when they were measured; else one unknown. */
  lemma SwitchCounted(past: seq<Entry>, e: Entry, onlyRevisits: bool)
    ensures
      var entries := past + [e];
      var before, after := SwitchTotal(past, onlyRevisits), SwitchTotal(entries, onlyRevisits);
      var here := if onlyRevisits then RevisitAt(entries, |past|) else SwitchAt(entries, |past|);
      && (!here ==> after == before)
      && (here ==>
            && e.native.Some?
            && (forall j: nat | e.attempts.Some? && IsFirstOn(e.attempts.value, e.native.value, j) &&
                                IsMeasured(e.attempts.value[j]) ::
                  var u := e.attempts.value[j].usage;
                  after == Add(before, Tally(1, 0, if u.cached.n == 0 then 0 else 1, u.input.n, u.cached.n, 0, 0)))
            && ((e.attempts.Some? ==> forall j: nat | IsFirstOn(e.attempts.value, e.native.value, j) ::
                                        !IsMeasured(e.attempts.value[j])) ==>
                  after == Add(before, Tally(0, 1, 0, 0, 0, 0, 0))))
  {
    hide SwitchTotal, CountSwitches, Switches, Revisits, SwitchAt, RevisitAt, TallyAll, Add;
    var entries := past + [e];
    assert entries[..|past|] == past && entries[|past|] == e;
    SwitchIs(entries, |past|);
    AppendEntry(past, e, None, onlyRevisits);
    AddZero(SwitchTotal(past, onlyRevisits));
    SwitchNative(past, e);
    if e.attempts.Some? && e.native.Some? {
      FirstIs(e.attempts.value, e.native.value);
    }
  }

  lemma SwitchNative(past: seq<Entry>, e: Entry)
    ensures Switches(past, e) || Revisits(past, e) ==> e.native.Some?
  {
  }

  // ---------------------------------------------------------------- credits

  /** A usage that the rate card covers. */
  function CountedUsage(input: nat, cached: nat, output: nat, written: Count): Usage {
    Usage(Int(input), Int(cached), Int(output), written)
  }

  /** The published rates, in credits for a million tokens: input that was not cached, cached input, output.
      There is none for Terra, and none for written cache tokens. */
  lemma PublishedRates(input: nat, cached: nat, output: nat)
    requires cached <= input
    ensures
      var u := CountedUsage(input, cached, output, Int(0));
      var read, kept, out := (input - cached) as real, cached as real, output as real;
      && TokenCredits(Luna, u).Some? && TokenCredits(Luna, u).value * 1000000.0 == 5.0 * read + 0.5 * kept + 30.0 * out
      && TokenCredits(Sol, u).Some?
      && TokenCredits(Sol, u).value * 1000000.0 == 100.0 * read + 10.0 * kept + 500.0 * out
      && TokenCredits(Astra, u).Some?
      && TokenCredits(Astra, u).value * 1000000.0 == 250.0 * read + 25.0 * kept + 1250.0 * out
      && TokenCredits(Terra, u) == None
      && forall m :: TokenCredits(m, CountedUsage(input, cached, output, Missing)) == TokenCredits(m, u)
  {
  }

  /** A usage has a price exactly when the three counts are there and fit, and no cache tokens were written. */
  lemma HasPrice(m: Model, u: Usage)
    ensures TokenCredits(m, u).Some? <==>
            && m != Terra
            && u.Usage? && u.written in {Missing, NotInt(false), Int(0)}
            && exists input: nat, cached: nat, output: nat ::
                 cached <= input && u == CountedUsage(input, cached, output, u.written)
  {
    if TokenCredits(m, u).Some? {
      assert u == CountedUsage(u.input.n, u.cached.n, u.output.n, u.written);
    }
  }

  /** The credits and counts of two logs add up. */
  lemma {:induction false} CreditsAdd(a: seq<Entry>, b: seq<Entry>, on: Option<Model>)
    ensures Credits(a + b, on) == Credits(a, on) + Credits(b, on)
    ensures PricedAttempts(a + b) == PricedAttempts(a) + PricedAttempts(b)
    ensures NativeAttempts(a + b) == NativeAttempts(a) + NativeAttempts(b)
    ensures LegacyEntries(a + b) == LegacyEntries(a) + LegacyEntries(b)
    decreases |b|
  {
    hide CreditsIn, PricedIn, NativeIn;
    if b == [] {
      assert a + b == a;
    } else {
      var n := |b| - 1;
      CreditsAdd(a, b[..n], on);
      assert (a + b)[..|a| + n] == a + b[..n];
    }
  }

  /** Entries without a list of attempts are the legacy calls. */
  lemma {:induction false} LegacyCounted(entries: seq<Entry>)
    ensures LegacyEntries(entries) == |set i | 0 <= i < |entries| && entries[i].attempts.None?|
    decreases |entries|
  {
    var legacy := set i | 0 <= i < |entries| && entries[i].attempts.None?;
    if entries != [] {
      var n := |entries| - 1;
      LegacyCounted(entries[..n]);
      var before := set i | 0 <= i < |entries[..n]| && entries[..n][i].attempts.None?;
      forall i ensures i in legacy <==> i in before || (i == n && entries[n].attempts.None?) {
      }
      assert legacy == before + if entries[n].attempts.None? then {n} else {};
    } else {
      assert legacy == {};
    }
  }

  lemma {:induction false} AttemptCreditsAdd(a: seq<Attempt>, b: seq<Attempt>, on: Option<Model>)
    ensures CreditsIn(a + b, on) == CreditsIn(a, on) + CreditsIn(b, on)
    ensures PricedIn(a + b) == PricedIn(a) + PricedIn(b) && NativeIn(a + b) == NativeIn(a) + NativeIn(b)
    decreases |b|
  {
    hide IsPriced, Cost;
    if b == [] {
      assert a + b == a;
    } else {
      var n := |b| - 1;
      AttemptCreditsAdd(a, b[..n], on);
      assert (a + b)[..|a| + n] == a + b[..n];
    }
  }

  /** What one attempt costs: nothing unless it ran at default speed with a usage that its model's rates
      cover, and else the credits on its own model, or on the one asked for. */
  lemma AttemptPriced(scope: Option<string>, key: Option<bool>, native: Option<Model>, a: Attempt)
    ensures
      var entries := [OneAttempt(scope, key, native, a)];
      && NativeAttempts(entries) == (if a.model.Some? then 1 else 0) && LegacyEntries(entries) == 0
      && if a.model.Some? && a.defaultSpeed && TokenCredits(a.model.value, a.usage).Some? then
           && PricedAttempts(entries) == 1
           && Credits(entries, None) == TokenCredits(a.model.value, a.usage).value
           && TokenCredits(Sol, a.usage) == Some(Credits(entries, Some(Sol)))
           && TokenCredits(Astra, a.usage) == Some(Credits(entries, Some(Astra)))
         else PricedAttempts(entries) == 0 && forall on :: Credits(entries, on) == 0.0
  {
    hide TokenCredits, NativeIn, PricedIn, CreditsIn, NativeAttempts, LegacyEntries, PricedAttempts, Credits;
    var e := OneAttempt(scope, key, native, a);
    assert [] + [e] == [e] && [] + [a] == [a];
    NothingYet();
    NoAttempts();
    NativeStep([], e);
    AttemptStep([], a);
    if IsPriced(a) { AlwaysPriced(a); }
  }
}
