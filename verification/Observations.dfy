/** The bounded observation store agrees with an unbounded one. */
module Observations {
  import opened Sequences

  type Id = string

  datatype Row<B> = Row(updated: nat, body: B)
  type Table<B> = map<Id, Row<B>>

  const LIMIT: nat := 1000

  /** Insert, or replace when the new row is not older. */
  function Upsert<B>(t: Table<B>, id: Id, row: Row<B>): Table<B> {
    if id in t && row.updated < t[id].updated then t else t[id := row]
  }

  /** `r` is a choice of the `n` newest rows of `t`; only rows with equal stamps leave a choice. */
  ghost predicate NewestOf<B>(r: Table<B>, t: Table<B>, n: nat) {
    && r.Keys <= t.Keys && (forall k | k in r :: r[k] == t[k])
    && |r| == (if |t| <= n then |t| else n)
    && (forall k, d | k in r && d in t && d !in r :: t[d].updated <= r[k].updated)
  }

  // ---------------------------------------------------------------- the store

  method Oldest<B>(t: Table<B>) returns (id: Id)
    requires t != map[]
    ensures id in t && forall k | k in t :: t[id].updated <= t[k].updated
  {
    id :| id in t;
    var rest := t.Keys - {id};
    while rest != {}
      invariant id in t && rest <= t.Keys
      invariant forall k | k in t && k !in rest :: t[id].updated <= t[k].updated
      decreases |rest|
    {
      var k :| k in rest;
      if t[k].updated < t[id].updated { id := k; }
      rest := rest - {k};
    }
  }

  class Store<B> {
    var rows: map<Id, Row<B>>

    constructor ()
      ensures rows == map[]
    {
      rows := map[];
    }

    /** `observe`: upsert, then delete all but the newest rows. */
    method Observe(id: Id, updated: nat, body: B)
      modifies this
      ensures NewestOf(rows, Upsert(old(rows), id, Row(updated, body)), 1000)
    {
      if id !in rows || rows[id].updated <= updated {
        rows := rows[id := Row(updated, body)];
      }
      ghost var all := rows;
      assert all == Upsert(old(rows), id, Row(updated, body));
      while |rows| > LIMIT
        invariant rows.Keys <= all.Keys && forall k | k in rows :: rows[k] == all[k]
        invariant |rows| >= (if |all| <= LIMIT then |all| else LIMIT)
        invariant |all| <= LIMIT ==> rows == all
        invariant forall k, d | k in rows && d in all && d !in rows :: all[d].updated <= rows[k].updated
        decreases |rows|
      {
        var oldest := Oldest(rows);
        assert rows.Keys == (rows - {oldest}).Keys + {oldest};
        rows := rows - {oldest};
      }
    }
  }

  // ---------------------------------------------------------------- against the full history

  datatype Observation<B> = Observation(id: Id, row: Row<B>)

  /** The unbounded store. */
  function FullAfter<B>(ops: seq<Observation<B>>): Table<B>
    decreases |ops|
  {
    if ops == [] then map[]
    else Upsert(FullAfter(ops[..|ops| - 1]), ops[|ops| - 1].id, ops[|ops| - 1].row)
  }

  /** A run of the bounded store with some limit. */
  ghost predicate Run<B>(ops: seq<Observation<B>>, tables: seq<Table<B>>, n: nat) {
    && |tables| == |ops| + 1 && tables[0] == map[]
    && forall i | 0 <= i < |ops| :: NewestOf(tables[i + 1], Upsert(tables[i], ops[i].id, ops[i].row), n)
  }

  lemma SubmapSize<B>(r: Table<B>, t: Table<B>)
    requires r.Keys <= t.Keys
    ensures |r| <= |t|
    ensures |r| == |t| ==> r.Keys == t.Keys
  {
    assert |t.Keys| == |r.Keys| + |t.Keys - r.Keys| by { assert t.Keys == r.Keys + (t.Keys - r.Keys); }
    assert |r| == |r.Keys| && |t| == |t.Keys|;
    if |r| == |t| { assert t.Keys - r.Keys == {}; }
  }

  lemma UpsertSize<B>(t: Table<B>, id: Id, row: Row<B>)
    ensures |Upsert(t, id, row)| == |t| + if id in t then 0 else 1
  {
    var u := Upsert(t, id, row);
    assert u.Keys == t.Keys + {id};
    assert |u| == |u.Keys| && |t| == |t.Keys|;
    if id in t { assert u.Keys == t.Keys; }
  }

  /** Below the limit the bounded store is the full one. */
  lemma NotFull<B>(r: Table<B>, t: Table<B>, n: nat)
    requires NewestOf(r, t, n) && |r| < n
    ensures r == t
  {
    SubmapSize(r, t);
  }

  /** A full store that receives a new row drops one. */
  lemma DropsOne<B>(r: Table<B>, u: Table<B>, n: nat) returns (gone: Id)
    requires NewestOf(r, u, n) && |u| == n + 1
    ensures gone in u && gone !in r && r.Keys == u.Keys - {gone}
    ensures forall k | k in r :: u[gone].updated <= u[k].updated
  {
    gone := Missing(r.Keys, u.Keys);
  }

  lemma Missing(a: set<Id>, b: set<Id>) returns (gone: Id)
    requires a <= b && |b| == |a| + 1
    ensures gone in b && gone !in a && a == b - {gone}
  {
    var rest := b - a;
    assert b == a + rest && |b| == |a| + |rest|;
    gone :| gone in rest;
    assert |rest - {gone}| == 0;
    assert rest == {gone};
  }

  lemma Kept<B>(r: Table<B>, f: Table<B>, n: nat, id: Id)
    requires NewestOf(r, f, n) && id in f && id !in r
    ensures forall k | k in r :: k in f && r[k] == f[k] && f[id].updated <= r[k].updated
    ensures |r| == n
  {
    SubmapSize(r, f);
  }

  lemma LeastIsGone<B>(u: Table<B>, kept: set<Id>, gone: Id, id: Id)
    requires gone in u && id in u && kept == u.Keys - {gone}
    requires forall k | k in kept :: u[gone].updated <= u[k].updated
    requires forall k | k in u && k != id :: u[id].updated < u[k].updated
    ensures gone == id
  {
  }

  /** A row that was evicted and comes back older than it was is dropped again at once. */
  lemma StaleReturn<B>(f: Table<B>, r: Table<B>, id: Id, row: Row<B>, next: Table<B>, n: nat)
    requires NewestOf(r, f, n) && id !in r && id in f && row.updated < f[id].updated
    requires NewestOf(next, Upsert(r, id, row), n)
    ensures next == r
  {
    var u := Upsert(r, id, row);
    assert forall k | k in next :: next[k] == u[k];
    hide NewestOf;
    Kept(r, f, n, id);
    UpsertSize(r, id, row);
    var gone := DropsOne(next, u, n);
    assert forall k | k in u && k != id :: u[k] == r[k];
    assert u[id] == row;
    LeastIsGone(u, next.Keys, gone, id);
    assert next.Keys == r.Keys;
  }

  /** One observation: trimming the trimmed table is trimming the full table. */
  lemma StepNewest<B>(f: Table<B>, r: Table<B>, id: Id, row: Row<B>, next: Table<B>, n: nat)
    requires NewestOf(r, f, n) && NewestOf(next, Upsert(r, id, row), n)
    ensures NewestOf(next, Upsert(f, id, row), n)
  {
    var full, u := Upsert(f, id, row), Upsert(r, id, row);
    SubmapSize(r, f);
    UpsertSize(f, id, row);
    UpsertSize(r, id, row);
    if |r| < n {
      NotFull(r, f, n);
    } else if id !in r && id in f && row.updated < f[id].updated {
      StaleReturn(f, r, id, row, next, n);
    } else {
      assert forall k | k in u :: u[k] == full[k];
      var gone := id;
      if id in r { SubmapSize(next, u); } else { gone := DropsOne(next, u, n); }
      forall k, d | k in next && d in full && d !in next
        ensures full[d].updated <= next[k].updated
      {
        if d !in u {
          if k == id && id !in r {
            assert f[d].updated <= r[gone].updated <= next[id].updated;
          }
        }
      }
    }
  }

  /** After any observations, stale and re-sent ones included, the table is a choice of the newest
      rows of the full history. */
  lemma {:induction false} BoundedIsNewestOfFull<B>(ops: seq<Observation<B>>, tables: seq<Table<B>>, n: nat)
    requires Run(ops, tables, n)
    ensures NewestOf(tables[|ops|], FullAfter(ops), n)
    decreases |ops|
  {
    if ops != [] {
      var k := |ops| - 1;
      BoundedIsNewestOfFull(ops[..k], tables[..|ops|], n);
      StepNewest(FullAfter(ops[..k]), tables[k], ops[k].id, ops[k].row, tables[k + 1], n);
    }
  }

  /** Different ids never carry the same stamp. */
  ghost predicate DistinctStamps<B>(ops: seq<Observation<B>>) {
    forall i, j | 0 <= i < j < |ops| && ops[i].id != ops[j].id :: ops[i].row.updated != ops[j].row.updated
  }

  /** How many rows are newer. */
  function Newer<B>(t: Table<B>, stamp: nat): set<Id> {
    set k | k in t && t[k].updated > stamp
  }

  /** The full table holds rows that were observed. */
  lemma {:induction false} FullIsObserved<B>(ops: seq<Observation<B>>, id: Id)
    requires id in FullAfter(ops)
    ensures exists i :: 0 <= i < |ops| && ops[i] == Observation(id, FullAfter(ops)[id])
    decreases |ops|
  {
    var k := |ops| - 1;
    if id in FullAfter(ops[..k]) && FullAfter(ops)[id] == FullAfter(ops[..k])[id] {
      FullIsObserved(ops[..k], id);
      var i :| 0 <= i < k && ops[..k][i] == Observation(id, FullAfter(ops)[id]);
      assert ops[i] == Observation(id, FullAfter(ops)[id]);
    } else {
      assert ops[k] == Observation(id, FullAfter(ops)[id]);
    }
  }

  /** With distinct stamps the table is exactly the rows that fewer than `n` others are newer than. */
  lemma ExactlyTheNewest<B>(ops: seq<Observation<B>>, tables: seq<Table<B>>, n: nat, id: Id)
    requires Run(ops, tables, n) && DistinctStamps(ops) && id in FullAfter(ops)
    ensures id in tables[|ops|] <==> |Newer(FullAfter(ops), FullAfter(ops)[id].updated)| < n
    ensures id in tables[|ops|] ==> tables[|ops|][id] == FullAfter(ops)[id]
  {
    BoundedIsNewestOfFull(ops, tables, n);
    OthersDiffer(ops, id);
    NewestByRank(FullAfter(ops), tables[|ops|], n, id);
  }

  lemma OthersDiffer<B>(ops: seq<Observation<B>>, id: Id)
    requires DistinctStamps(ops) && id in FullAfter(ops)
    ensures forall k | k in FullAfter(ops) && k != id :: FullAfter(ops)[k].updated != FullAfter(ops)[id].updated
  {
    hide FullAfter;
    forall k | k in FullAfter(ops) && k != id ensures FullAfter(ops)[k].updated != FullAfter(ops)[id].updated {
      FullIsObserved(ops, k);
      FullIsObserved(ops, id);
    }
  }

  lemma NewestByRank<B>(f: Table<B>, r: Table<B>, n: nat, id: Id)
    requires NewestOf(r, f, n) && id in f
    requires forall k | k in f && k != id :: f[k].updated != f[id].updated
    ensures id in r <==> |Newer(f, f[id].updated)| < n
  {
    var newer := Newer(f, f[id].updated);
    SubmapSize(r, f);
    assert |r| == |r.Keys|;
    if id in r {
      assert newer <= r.Keys - {id};
      Subset(newer, r.Keys - {id});
    } else {
      assert r.Keys <= newer;
      Subset(r.Keys, newer);
      if |r| < n { NotFull(r, f, n); }
    }
  }

  /** The full table keeps, of each id, the newest observation, the later one of two with equal stamps. */
  lemma {:induction false} FullKeepsNewest<B>(ops: seq<Observation<B>>, i: nat)
    requires i < |ops|
    requires forall j | 0 <= j < |ops| && j != i && ops[j].id == ops[i].id ::
               if j < i then ops[j].row.updated <= ops[i].row.updated else ops[j].row.updated < ops[i].row.updated
    ensures ops[i].id in FullAfter(ops) && FullAfter(ops)[ops[i].id] == ops[i].row
    decreases |ops|
  {
    var k := |ops| - 1;
    if i == k {
      if ops[i].id in FullAfter(ops[..k]) {
        FullIsObserved(ops[..k], ops[i].id);
      }
    } else {
      FullKeepsNewest(ops[..k], i);
    }
  }
}
