/** Which token counters of a response are reported: an allowlist, and unknown is never zero. */
module UsageCounts {
  import opened Json

  predicate IsCount(v: Json) {
    v.Num? && v.n >= 0
  }

  /** A counter inside one of the detail objects, and the name it is reported under. */
  datatype Detail = Detail(group: Key, field: Key, name: Key)

  const FLAT := [KInputTokens, KOutputTokens, KTotalTokens, KCachedInputTokens, KCacheWriteInputTokens]
  const DETAILS := [
    Detail(KInputDetails, KCachedTokens, KCachedInputTokens),
    Detail(KInputDetails, KCacheWriteTokens, KCacheWriteInputTokens),
    Detail(KOutputDetails, KReasoningTokens, KReasoningTokens)]

  function CountOrNull(v: Json): Json {
    if IsCount(v) then v else Null
  }

  /** The detailed count is preferred to the flat one. */
  function Prefer(detailed: Json, flat: Json): Json {
    if IsCount(detailed) then detailed else CountOrNull(flat)
  }

  /** What is known under a reported name; null when nothing is. */
  function Known(usage: Json, name: Key): Json {
    match name
    case KInputTokens => CountOrNull(Get(usage, KInputTokens))
    case KOutputTokens => CountOrNull(Get(usage, KOutputTokens))
    case KTotalTokens => CountOrNull(Get(usage, KTotalTokens))
    case KCachedInputTokens => Prefer(Get(Get(usage, KInputDetails), KCachedTokens), Get(usage, name))
    case KCacheWriteInputTokens => Prefer(Get(Get(usage, KInputDetails), KCacheWriteTokens), Get(usage, name))
    case KReasoningTokens => CountOrNull(Get(Get(usage, KOutputDetails), KReasoningTokens))
    case _ => Null
  }

  const NAMES := {KInputTokens, KOutputTokens, KTotalTokens, KCachedInputTokens, KCacheWriteInputTokens,
                  KReasoningTokens}

  /** The known counters; null when there is none. */
  function Counts(usage: Json): Json {
    var known := map k | k in NAMES && Known(usage, k) != Null :: Known(usage, k);
    if known == map[] then Null else Obj(known)
  }

  function At(counts: map<Key, Json>, name: Key): Json {
    if name in counts then counts[name] else Null
  }

  /** What the flat names of a list give. */
  function FlatAt(usage: Json, names: seq<Key>, name: Key): Json {
    if name in names then CountOrNull(Get(usage, name)) else Null
  }

  function DetailOf(usage: Json, d: Detail): Json {
    Get(Get(usage, d.group), d.field)
  }

  /** The flat names, overwritten by the first `n` details. */
  function DetailedAt(usage: Json, n: nat, name: Key): Json
    requires n <= |DETAILS|
  {
    if n == 0 then FlatAt(usage, FLAT, name)
    else if DETAILS[n - 1].name == name && IsCount(DetailOf(usage, DETAILS[n - 1])) then DetailOf(usage, DETAILS[n - 1])
    else DetailedAt(usage, n - 1, name)
  }

  predicate IsFlat(name: Key) {
    match name
    case KInputTokens => true
    case KOutputTokens => true
    case KTotalTokens => true
    case KCachedInputTokens => true
    case KCacheWriteInputTokens => true
    case _ => false
  }

  lemma FlatNames(name: Key)
    ensures name in FLAT <==> IsFlat(name)
  {
  }

  lemma DetailsAre(usage: Json, name: Key)
    ensures DetailedAt(usage, 3, name) == Known(usage, name)
  {
    hide Get, FlatAt, DetailedAt;
    FlatIs(usage, name);
    FlatNames(name);
    DetailStep(usage, 0, name);
    DetailStep(usage, 1, name);
    DetailStep(usage, 2, name);
    assert DETAILS[0] == Detail(KInputDetails, KCachedTokens, KCachedInputTokens);
    assert DETAILS[1] == Detail(KInputDetails, KCacheWriteTokens, KCacheWriteInputTokens);
    assert DETAILS[2] == Detail(KOutputDetails, KReasoningTokens, KReasoningTokens);
  }

  lemma FlatIs(usage: Json, name: Key)
    ensures FlatAt(usage, FLAT, name) == if name in FLAT then CountOrNull(Get(usage, name)) else Null
  {
  }

  lemma FlatStep(usage: Json, names: seq<Key>, n: nat, k: Key)
    requires n < |names|
    ensures FlatAt(usage, names[..n + 1], k) ==
            if k == names[n] then CountOrNull(Get(usage, k)) else FlatAt(usage, names[..n], k)
    ensures CountOrNull(Get(usage, k)) == Null ==> FlatAt(usage, names[..n], k) == Null
  {
    assert names[..n + 1] == names[..n] + [names[n]];
  }

  lemma DetailStep(usage: Json, n: nat, name: Key)
    requires n < |DETAILS|
    ensures DetailedAt(usage, 0, name) == FlatAt(usage, FLAT, name)
    ensures DetailedAt(usage, n + 1, name) ==
            if DETAILS[n].name == name && IsCount(DetailOf(usage, DETAILS[n])) then DetailOf(usage, DETAILS[n])
            else DetailedAt(usage, n, name)
  {
  }

  lemma KnownNames(usage: Json, name: Key)
    ensures Known(usage, name) != Null ==> name in NAMES
  {
  }

  lemma NothingKnown(usage: Json, name: Key)
    requires !usage.Obj?
    ensures Known(usage, name) == Null
  {
  }

  lemma CountsAre(usage: Json, out: map<Key, Json>)
    requires forall k :: At(out, k) == DetailedAt(usage, 3, k)
    requires forall k | k in out :: out[k] != Null
    ensures Counts(usage) == if out == map[] then Null else Obj(out)
  {
    hide Known, DetailedAt;
    forall k ensures At(out, k) == Known(usage, k) && (Known(usage, k) != Null ==> k in NAMES) {
      DetailsAre(usage, k);
      KnownNames(usage, k);
    }
    assert out == map k | k in NAMES && Known(usage, k) != Null :: Known(usage, k);
  }

  /** What is reported of a response's usage: each of the six counters when it is known, under its own name,
      a detailed one before the flat one of the same name; no other name; and nothing at all when none is
      known. A count is a number that is not negative: zero is reported only when zero was measured. */
  lemma Reports(usage: Json, k: Key)
    ensures
      var r, input, output := Counts(usage), Get(usage, KInputDetails), Get(usage, KOutputDetails);
      && (k in {KInputTokens, KOutputTokens, KTotalTokens} ==> Get(r, k) == Count(Get(usage, k)))
      && Get(r, KCachedInputTokens) == Either(Get(input, KCachedTokens), Get(usage, KCachedInputTokens))
      && Get(r, KCacheWriteInputTokens) == Either(Get(input, KCacheWriteTokens), Get(usage, KCacheWriteInputTokens))
      && Get(r, KReasoningTokens) == Count(Get(output, KReasoningTokens))
      && (Get(r, k) != Null ==> k in {KInputTokens, KOutputTokens, KTotalTokens, KCachedInputTokens,
                                      KCacheWriteInputTokens, KReasoningTokens})
      && (r == Null || (r.Obj? && r.m != map[] && forall j | j in r.m :: r.m[j].Num? && r.m[j].n >= 0))
  {
    hide Known, Counts, Get;
    CountsAt(usage, k);
    CountsAt(usage, KCachedInputTokens);
    CountsAt(usage, KCacheWriteInputTokens);
    CountsAt(usage, KReasoningTokens);
    CountsShape(usage);
    KnownIs(usage, k);
    KnownIs(usage, KCachedInputTokens);
    KnownIs(usage, KCacheWriteInputTokens);
    KnownIs(usage, KReasoningTokens);
  }

  lemma CountsAt(usage: Json, k: Key)
    ensures Get(Counts(usage), k) == Known(usage, k)
  {
    hide Known;
    KnownNames(usage, k);
    var known := map j | j in NAMES && Known(usage, j) != Null :: Known(usage, j);
    assert k in known <==> Known(usage, k) != Null;
    assert Counts(usage) == if known == map[] then Null else Obj(known);
  }

  lemma CountsShape(usage: Json)
    ensures
      var r := Counts(usage);
      r == Null || (r.Obj? && r.m != map[] && forall j | j in r.m :: r.m[j].Num? && r.m[j].n >= 0)
  {
    hide Known;
    forall j { KnownIs(usage, j); }
  }

  function Count(v: Json): Json {
    if v.Num? && v.n >= 0 then v else Null
  }

  function Either(detailed: Json, flat: Json): Json {
    if Count(detailed) != Null then detailed else Count(flat)
  }

  lemma KnownIs(usage: Json, k: Key)
    ensures k in {KInputTokens, KOutputTokens, KTotalTokens} ==> Known(usage, k) == Count(Get(usage, k))
    ensures k == KCachedInputTokens ==>
              Known(usage, k) == Either(Get(Get(usage, KInputDetails), KCachedTokens), Get(usage, k))
    ensures k == KCacheWriteInputTokens ==>
              Known(usage, k) == Either(Get(Get(usage, KInputDetails), KCacheWriteTokens), Get(usage, k))
    ensures k == KReasoningTokens ==> Known(usage, k) == Count(Get(Get(usage, KOutputDetails), KReasoningTokens))
    ensures Known(usage, k) != Null ==>
              Known(usage, k).Num? && Known(usage, k).n >= 0 &&
              k in {KInputTokens, KOutputTokens, KTotalTokens, KCachedInputTokens, KCacheWriteInputTokens,
                    KReasoningTokens}
  {
  }

  /** `usage_counts`. */
  method CountUsage(usage: Json) returns (r: Json)
    ensures r == Counts(usage)
  {
    hide Known, Get;
    if !usage.Obj? {
      forall k { NothingKnown(usage, k); }
      return Null;
    }
    var out: map<Key, Json> := map[];
    var names := FLAT;
    for i := 0 to |names|
      invariant forall k | k in out :: out[k] != Null
      invariant forall k :: At(out, k) == FlatAt(usage, names[..i], k)
    {
      ghost var before := out;
      var value := Get(usage, names[i]);
      if IsCount(value) {
        out := out[names[i] := value];
      }
      forall k ensures At(out, k) == FlatAt(usage, names[..i + 1], k) {
        FlatStep(usage, names, i, k);
        assert At(before, k) == FlatAt(usage, names[..i], k);
      }
    }
    assert names[..|names|] == FLAT;
    for i := 0 to |DETAILS|
      invariant forall k | k in out :: out[k] != Null
      invariant forall k :: At(out, k) == DetailedAt(usage, i, k)
    {
      var d := DETAILS[i];
      if IsCount(DetailOf(usage, d)) {
        out := out[d.name := DetailOf(usage, d)];
      }
    }
    CountsAre(usage, out);
    return if out == map[] then Null else Obj(out);
  }
}
