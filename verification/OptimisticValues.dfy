/** Optimistic settings: clicks, serialized writes, rollbacks and authoritative refreshes. */
module OptimisticValues {

  type Key = string

  datatype Status = Waiting | Running | Saved | Failed

  /** One `mutateMany` call: the promise of `prev` settles before its own action starts. */
  datatype Task<T> = Task(desired: map<Key, T>, revs: map<Key, nat>, prev: int, status: Status)

  /** A state update handed to the renderer; a rollback looks the revisions up when it is applied. */
  datatype Update<T> = Put(desired: map<Key, T>) | Rollback(revs: map<Key, nat>) | Reconcile(authoritative: map<Key, T>)

  datatype State<T> = State(overrides: map<Key, T>, updates: seq<Update<T>>, revisions: map<Key, nat>,
                            tasks: seq<Task<T>>, tail: int)

  predicate IsSettled(s: Status) {
    s == Saved || s == Failed
  }

  // ---------------------------------------------------------------- steps

  function Revision(revisions: map<Key, nat>, k: Key): nat {
    if k in revisions then revisions[k] else 0
  }

  function Bumped(revisions: map<Key, nat>, keys: set<Key>): map<Key, nat> {
    map k | k in keys :: Revision(revisions, k) + 1
  }

  function ApplyUpdate<T(==)>(overrides: map<Key, T>, u: Update<T>, revisions: map<Key, nat>): map<Key, T> {
    match u
    case Put(desired) => overrides + desired
    case Rollback(revs) =>
      map k | k in overrides && !(k in revs && Revision(revisions, k) == revs[k]) :: overrides[k]
    case Reconcile(authoritative) =>
      map k | k in overrides && !(k in authoritative && authoritative[k] == overrides[k]) :: overrides[k]
  }

  datatype Event<T> =
    | Click(desired: map<Key, T>)
    | Start(task: nat)
    | Finish(task: nat, saved: bool)
    | Refresh(authoritative: map<Key, T>)
    | Render

  /** The promise chain lets an action start only after the one queued before it has settled. */
  predicate Enabled<T(==)>(s: State<T>, e: Event<T>) {
    match e
    case Start(i) =>
      i < |s.tasks| && s.tasks[i].status == Waiting &&
      (0 <= s.tasks[i].prev < |s.tasks| ==> IsSettled(s.tasks[s.tasks[i].prev].status))
    case Finish(i, _) => i < |s.tasks| && s.tasks[i].status == Running
    case Render => s.updates != []
    case _ => true
  }

  function Next<T(==)>(s: State<T>, e: Event<T>): State<T>
    requires Enabled(s, e)
  {
    match e
    case Click(desired) =>
      if desired == map[] then s
      else
        var revs := Bumped(s.revisions, desired.Keys);
        s.(revisions := s.revisions + revs,
           updates := s.updates + [Put(desired)],
           tasks := s.tasks + [Task(desired, revs, s.tail, Waiting)],
           tail := |s.tasks|)
    case Start(i) => s.(tasks := s.tasks[i := s.tasks[i].(status := Running)])
    case Finish(i, saved) =>
      s.(tasks := s.tasks[i := s.tasks[i].(status := if saved then Saved else Failed)],
         updates := if saved then s.updates else s.updates + [Rollback(s.tasks[i].revs)])
    case Refresh(authoritative) => s.(updates := s.updates + [Reconcile(authoritative)])
    case Render =>
      s.(overrides := ApplyUpdate(s.overrides, s.updates[0], s.revisions), updates := s.updates[1..])
  }

  /** The hook's refs and state. */
  class Hook<T(==)> {
    var overrides: map<Key, T>
    var updates: seq<Update<T>>
    var revisions: map<Key, nat>
    var tasks: seq<Task<T>>
    var tail: int

    ghost function Abs(): State<T>
      reads this
    {
      State(overrides, updates, revisions, tasks, tail)
    }

    constructor ()
      ensures Abs() == Initial()
    {
      overrides, updates, revisions, tasks, tail := map[], [], map[], [], -1;
    }

    /** Give every changed key its next revision. */
    method BumpRevisions(changed: set<Key>) returns (bumped: map<Key, nat>)
      modifies this`revisions
      ensures bumped == Bumped(old(revisions), changed) && revisions == old(revisions) + bumped
    {
      bumped := map[];
      var keys := changed;
      while keys != {}
        invariant keys <= changed
        invariant bumped == Bumped(old(revisions), changed - keys)
        invariant revisions == old(revisions) + bumped
        decreases |keys|
      {
        var key :| key in keys;
        var revision := Revision(revisions, key) + 1;
        revisions := revisions[key := revision];
        bumped := bumped[key := revision];
        keys := keys - {key};
        assert bumped == Bumped(old(revisions), changed - keys);
      }
      assert changed - keys == changed;
    }

    /** `mutateMany`, up to the point where it returns its promise. */
    method MutateMany(desired: map<Key, T>)
      modifies this
      ensures Abs() == Next(old(Abs()), Click(desired))
    {
      if desired == map[] { return; }
      var mutationRevisions := BumpRevisions(desired.Keys);
      updates := updates + [Put(desired)];
      tasks := tasks + [Task(desired, mutationRevisions, tail, Waiting)];
      tail := |tasks| - 1;
    }

    method StartAction(i: nat)
      requires Enabled(Abs(), Start(i))
      modifies this
      ensures Abs() == Next(old(Abs()), Start(i))
    {
      tasks := tasks[i := tasks[i].(status := Running)];
    }

    /** The action ended; when it did not save, its keys are rolled back unless they were changed since. */
    method FinishAction(i: nat, saved: bool)
      requires Enabled(Abs(), Finish(i, saved))
      modifies this
      ensures Abs() == Next(old(Abs()), Finish(i, saved))
    {
      if saved {
        tasks := tasks[i := tasks[i].(status := Saved)];
        return;
      }
      updates := updates + [Rollback(tasks[i].revs)];
      tasks := tasks[i := tasks[i].(status := Failed)];
    }

    method RefreshAuthoritative(authoritative: map<Key, T>)
      modifies this
      ensures Abs() == Next(old(Abs()), Refresh(authoritative))
    {
      updates := updates + [Reconcile(authoritative)];
    }

    method RenderOne()
      requires Enabled(Abs(), Event<T>.Render)
      modifies this
      ensures Abs() == Next(old(Abs()), Event<T>.Render)
    {
      overrides := ApplyUpdate(overrides, updates[0], revisions);
      updates := updates[1..];
    }
  }

  function Initial<T>(): State<T> {
    State(map[], [], map[], [], -1)
  }

  // ---------------------------------------------------------------- runs

  /** A run: each event was possible when it happened. */
  ghost predicate Run<T>(events: seq<Event<T>>, states: seq<State<T>>) {
    && |states| == |events| + 1 && states[0] == Initial()
    && forall i | 0 <= i < |events| :: Enabled(states[i], events[i]) && states[i + 1] == Next(states[i], events[i])
  }

  /** What the overrides are once every pending update has been rendered. */
  function Settled<T(==)>(overrides: map<Key, T>, updates: seq<Update<T>>, revisions: map<Key, nat>): map<Key, T>
    decreases |updates|
  {
    if updates == [] then overrides
    else Settled(ApplyUpdate(overrides, updates[0], revisions), updates[1..], revisions)
  }

  function View<T(==)>(s: State<T>): map<Key, T> {
    Settled(s.overrides, s.updates, s.revisions)
  }

  /** Two maps say the same about a key. */
  predicate SameAt<T(==)>(a: map<Key, T>, b: map<Key, T>, k: Key) {
    (k in a <==> k in b) && (k in a ==> a[k] == b[k])
  }

  lemma {:induction false} SettledLast<T>(overrides: map<Key, T>, updates: seq<Update<T>>, u: Update<T>,
                                          revisions: map<Key, nat>)
    ensures Settled(overrides, updates + [u], revisions) ==
            ApplyUpdate(Settled(overrides, updates, revisions), u, revisions)
    decreases |updates|
  {
    if updates == [] {
      assert [u][1..] == [] && updates + [u] == [u];
    } else {
      SettledLast(ApplyUpdate(overrides, updates[0], revisions), updates[1..], u, revisions);
      assert (updates + [u])[1..] == updates[1..] + [u];
    }
  }

  /** Rendering late only looks at the revision of the key itself. */
  lemma {:induction false} SettledAtKey<T>(a: map<Key, T>, b: map<Key, T>, updates: seq<Update<T>>,
                                               r: map<Key, nat>, r': map<Key, nat>, k: Key)
    requires SameAt(a, b, k) && Revision(r, k) == Revision(r', k)
    ensures SameAt(Settled(a, updates, r), Settled(b, updates, r'), k)
    decreases |updates|
  {
    if updates != [] {
      SettledAtKey(ApplyUpdate(a, updates[0], r), ApplyUpdate(b, updates[0], r'), updates[1..], r, r', k);
    }
  }

  /** Rendering in batches changes nothing: each event acts on the fully rendered overrides as if its
      update had been applied at once. */
  lemma BatchingIsInvisible<T>(s: State<T>, e: Event<T>)
    requires Enabled(s, e)
    ensures
      match e
      case Click(desired) => View(Next(s, e)) == View(s) + desired
      case Finish(i, saved) =>
        View(Next(s, e)) == if saved then View(s) else ApplyUpdate(View(s), Rollback(s.tasks[i].revs), s.revisions)
      case Refresh(authoritative) => View(Next(s, e)) == ApplyUpdate(View(s), Reconcile(authoritative), s.revisions)
      case _ => View(Next(s, e)) == View(s)
  {
    hide ApplyUpdate;
    match e
    case Click(desired) =>
      if desired == map[] {
        assert View(s) + desired == View(s);
      } else {
        var r := Next(s, e).revisions;
        SettledLast(s.overrides, s.updates, Put(desired), r);
        PutIs(Settled(s.overrides, s.updates, r), desired, r);
        forall k | k !in desired ensures SameAt(Settled(s.overrides, s.updates, r), View(s), k) {
          SettledAtKey(s.overrides, s.overrides, s.updates, r, s.revisions, k);
        }
        SameOutside(Settled(s.overrides, s.updates, r), View(s), desired);
      }
    case Finish(i, saved) => SettledLast(s.overrides, s.updates, Rollback(s.tasks[i].revs), s.revisions);
    case Refresh(authoritative) => SettledLast(s.overrides, s.updates, Reconcile(authoritative), s.revisions);
    case _ =>
  }

  lemma PutIs<T>(a: map<Key, T>, desired: map<Key, T>, r: map<Key, nat>)
    ensures ApplyUpdate(a, Put(desired), r) == a + desired
  {
  }

  lemma SameOutside<T>(a: map<Key, T>, b: map<Key, T>, desired: map<Key, T>)
    requires forall k | k !in desired :: SameAt(a, b, k)
    ensures a + desired == b + desired
  {
    var x, y := a + desired, b + desired;
    assert forall k :: k in x <==> k in y by {
      forall k ensures k in x <==> k in y {
        if k !in desired { assert SameAt(a, b, k); }
      }
    }
  }

  // ---------------------------------------------------------------- newest mutation of a key

  /** How many tasks change the key. */
  function Count<T>(tasks: seq<Task<T>>, k: Key): nat {
    if tasks == [] then 0
    else Count(tasks[..|tasks| - 1], k) + if k in tasks[|tasks| - 1].desired then 1 else 0
  }

  /** The last task that changes the key, or -1. */
  function Newest<T>(tasks: seq<Task<T>>, k: Key): (i: int)
    ensures -1 <= i < |tasks|
    ensures 0 <= i ==> k in tasks[i].desired
    ensures forall j | i < j < |tasks| :: k !in tasks[j].desired
  {
    if tasks == [] then -1
    else if k in tasks[|tasks| - 1].desired then |tasks| - 1
    else Newest(tasks[..|tasks| - 1], k)
  }

  lemma {:induction false} CountGrows<T>(tasks: seq<Task<T>>, k: Key, i: nat)
    requires i < |tasks| && k in tasks[i].desired
    ensures Count(tasks[..i + 1], k) <= Count(tasks, k)
    ensures Count(tasks[..i + 1], k) == Count(tasks, k) <==> Newest(tasks, k) == i
    decreases |tasks|
  {
    var n := |tasks| - 1;
    if i == n {
      assert tasks[..i + 1] == tasks;
    } else {
      CountGrows(tasks[..n], k, i);
      assert tasks[..n][..i + 1] == tasks[..i + 1];
    }
  }

  lemma {:induction false} SameDesired<T>(a: seq<Task<T>>, b: seq<Task<T>>, k: Key)
    requires |a| == |b| && forall i | 0 <= i < |a| :: a[i].desired == b[i].desired
    ensures Count(a, k) == Count(b, k) && Newest(a, k) == Newest(b, k)
    decreases |a|
  {
    if a != [] {
      SameDesired(a[..|a| - 1], b[..|b| - 1], k);
    }
  }

  // ---------------------------------------------------------------- invariants of every run

  /** Writes are settled in click order: a settled prefix, at most one running, the rest waiting. */
  ghost predicate Serial<T>(s: State<T>) {
    && s.tail == |s.tasks| - 1
    && (forall i | 0 <= i < |s.tasks| :: s.tasks[i].prev == i - 1)
    && (forall i, j | 0 <= i < j < |s.tasks| && s.tasks[j].status != Waiting :: IsSettled(s.tasks[i].status))
  }

  /** Revisions count the mutations of each key. */
  ghost predicate Counted<T>(s: State<T>) {
    && (forall k: Key :: Revision(s.revisions, k) == Count(s.tasks, k))
    && (forall i | 0 <= i < |s.tasks| ::
          && s.tasks[i].revs.Keys == s.tasks[i].desired.Keys
          && forall k | k in s.tasks[i].revs :: s.tasks[i].revs[k] == Count(s.tasks[..i + 1], k))
  }

  /** An override is the newest requested value of its key, and its write has not failed. */
  ghost predicate Current<T>(s: State<T>, view: map<Key, T>) {
    forall k | k in view ::
      var i := Newest(s.tasks, k);
      0 <= i && view[k] == s.tasks[i].desired[k] && s.tasks[i].status != Failed
  }

  ghost predicate Inv<T>(s: State<T>) {
    Serial(s) && Counted(s) && Current(s, View(s))
  }

  lemma NextSerial<T>(s: State<T>, e: Event<T>)
    requires Serial(s) && Enabled(s, e)
    ensures Serial(Next(s, e))
  {
  }

  lemma CountAppend<T>(tasks: seq<Task<T>>, t: Task<T>, k: Key)
    ensures Count(tasks + [t], k) == Count(tasks, k) + if k in t.desired then 1 else 0
    ensures Newest(tasks + [t], k) == if k in t.desired then |tasks| else Newest(tasks, k)
  {
    assert (tasks + [t])[..|tasks|] == tasks && (tasks + [t])[|tasks|] == t;
  }

  lemma ClickCounted<T>(s: State<T>, desired: map<Key, T>)
    requires Counted(s) && desired != map[]
    ensures Counted(Next(s, Click(desired)))
  {
    var next := Next(s, Click(desired));
    var t := next.tasks[|s.tasks|];
    forall k: Key ensures Revision(next.revisions, k) == Count(next.tasks, k) {
      CountAppend(s.tasks, t, k);
    }
    assert next.tasks[..|s.tasks| + 1] == next.tasks;
    forall i | 0 <= i < |s.tasks| ensures next.tasks[i] == s.tasks[i] && next.tasks[..i + 1] == s.tasks[..i + 1] {
    }
  }

  lemma NextCounted<T>(s: State<T>, e: Event<T>)
    requires Counted(s) && Enabled(s, e)
    ensures Counted(Next(s, e))
  {
    if e.Click? && e.desired != map[] {
      ClickCounted(s, e.desired);
    } else {
      var next := Next(s, e);
      StatusOnly(s, e);
      hide Next, Count;
      forall k: Key ensures Count(next.tasks, k) == Count(s.tasks, k) {
        SameDesired(next.tasks, s.tasks, k);
      }
      forall i, k | 0 <= i < |s.tasks| && k in s.tasks[i].revs
        ensures Count(next.tasks[..i + 1], k) == Count(s.tasks[..i + 1], k)
      {
        SameDesired(next.tasks[..i + 1], s.tasks[..i + 1], k);
      }
    }
  }

  lemma StatusOnly<T>(s: State<T>, e: Event<T>)
    requires Enabled(s, e) && (e.Click? ==> e.desired == map[])
    ensures
      var next := Next(s, e);
      && |next.tasks| == |s.tasks| && next.revisions == s.revisions
      && (forall i | 0 <= i < |s.tasks| ::
            && next.tasks[i].desired == s.tasks[i].desired && next.tasks[i].revs == s.tasks[i].revs
            && (next.tasks[i].status == Failed ==> s.tasks[i].status == Failed || e == Finish(i, false)))
  {
  }

  /** Rollbacks and refreshes only remove overrides. */
  lemma OnlyRemoves<T>(view: map<Key, T>, u: Update<T>, revisions: map<Key, nat>, k: Key)
    requires !u.Put? && k in ApplyUpdate(view, u, revisions)
    ensures k in view && ApplyUpdate(view, u, revisions)[k] == view[k]
  {
  }

  /** Apart from clicks, an override that is there after a step was there before, for the same task. */
  lemma StaysCurrent<T>(s: State<T>, e: Event<T>, k: Key)
    requires Counted(s) && Enabled(s, e) && (e.Click? ==> e.desired == map[])
    requires k in View(Next(s, e))
    ensures k in View(s) && View(Next(s, e))[k] == View(s)[k] && Newest(Next(s, e).tasks, k) == Newest(s.tasks, k)
    ensures e.Finish? && !e.saved ==> Newest(s.tasks, k) != e.task
  {
    hide Counted, View, Count, ApplyUpdate;
    BatchingIsInvisible(s, e);
    StatusOnly(s, e);
    SameDesired(Next(s, e).tasks, s.tasks, k);
    match e
    case Finish(i, saved) =>
      if !saved {
        OnlyRemoves(View(s), Rollback(s.tasks[i].revs), s.revisions, k);
        RolledBack(s, i, k);
      }
    case Refresh(authoritative) => OnlyRemoves(View(s), Reconcile(authoritative), s.revisions, k);
    case Click(desired) => assert View(s) + desired == View(s);
    case _ =>
  }

  lemma NextCurrent<T>(s: State<T>, e: Event<T>)
    requires Counted(s) && Current(s, View(s)) && Enabled(s, e)
    ensures Current(Next(s, e), View(Next(s, e)))
  {
    hide Counted, View, Count, ApplyUpdate;
    var next := Next(s, e);
    if e.Click? && e.desired != map[] {
      BatchingIsInvisible(s, e);
      forall k | k in View(next)
        ensures Newest(next.tasks, k) == if k in e.desired then |s.tasks| else Newest(s.tasks, k)
      {
        CountAppend(s.tasks, next.tasks[|s.tasks|], k);
      }
    } else {
      StatusOnly(s, e);
      forall k | k in View(next)
        ensures k in View(s) && View(next)[k] == View(s)[k] && Newest(next.tasks, k) == Newest(s.tasks, k)
        ensures e.Finish? && !e.saved ==> Newest(s.tasks, k) != e.task
      {
        StaysCurrent(s, e, k);
      }
    }
  }

  /** A failed write rolls back exactly the keys that nothing changed since. */
  lemma RolledBack<T>(s: State<T>, i: nat, k: Key)
    requires Counted(s) && i < |s.tasks| && s.tasks[i].status == Running
    ensures
      var next := Next(s, Finish(i, false));
      && (k in View(next) <==> k in View(s) && !(k in s.tasks[i].desired && Newest(s.tasks, k) == i))
      && (k in View(next) ==> View(next)[k] == View(s)[k])
  {
    BatchingIsInvisible(s, Finish(i, false));
    if k in s.tasks[i].desired {
      CountGrows(s.tasks, k, i);
    }
  }

  /** A refresh removes exactly the overrides that the authoritative values have caught up with. */
  lemma Refreshed<T>(s: State<T>, authoritative: map<Key, T>, k: Key)
    ensures
      var next := Next(s, Refresh(authoritative));
      && (k in View(next) <==> k in View(s) && !(k in authoritative && authoritative[k] == View(s)[k]))
      && (k in View(next) ==> View(next)[k] == View(s)[k])
  {
    BatchingIsInvisible(s, Refresh(authoritative));
  }

  /** The invariants hold after every interleaving of clicks, starts, ends, refreshes and renders. */
  lemma {:induction false} EveryRun<T>(events: seq<Event<T>>, states: seq<State<T>>, n: nat)
    requires Run(events, states) && n <= |events|
    ensures Inv(states[n])
    decreases n
  {
    hide Serial, Counted, Current, View, Next;
    if n == 0 {
      InitialInv(states[0]);
    } else {
      EveryRun(events, states, n - 1);
      NextSerial(states[n - 1], events[n - 1]);
      NextCounted(states[n - 1], events[n - 1]);
      NextCurrent(states[n - 1], events[n - 1]);
    }
  }

  lemma InitialInv<T>(s: State<T>)
    requires s == Initial()
    ensures Inv(s)
  {
  }

  /** Actions run one at a time, in click order: a waiting one can start exactly when all before it have
      ended, saved or failed. */
  lemma OneAtATime<T>(events: seq<Event<T>>, states: seq<State<T>>, n: nat, j: nat)
    requires Run(events, states) && n <= |events| && j < |states[n].tasks|
    ensures
      var tasks := states[n].tasks;
      && (forall i | 0 <= i < j :: !(tasks[i].status == Running && tasks[j].status == Running))
      && (Enabled(states[n], Start(j)) <==>
            tasks[j].status == Waiting &&
            forall i | 0 <= i < j :: tasks[i].status == Saved || tasks[i].status == Failed)
  {
    hide Run, Counted, Current, View;
    EveryRun(events, states, n);
    InRange(events, states, n);
    var tasks := states[n].tasks;
    if 0 < j && tasks[j].status == Waiting && IsSettled(tasks[j - 1].status) {
      assert forall i | 0 <= i < j - 1 :: IsSettled(tasks[i].status);
    }
  }

  lemma InRange<T>(events: seq<Event<T>>, states: seq<State<T>>, n: nat)
    requires Run(events, states) && n <= |events|
    ensures n < |states|
  {
  }

  // ---------------------------------------------------------------- what is rendered meanwhile

  function PutOf<T>(u: Update<T>): seq<map<Key, T>> {
    if u.Put? then [u.desired] else []
  }

  /** The clicks whose values wait to be rendered. */
  function PendingPuts<T>(updates: seq<Update<T>>): seq<map<Key, T>> {
    if updates == [] then [] else PutOf(updates[0]) + PendingPuts(updates[1..])
  }

  lemma {:induction false} PendingAppend<T>(updates: seq<Update<T>>, u: Update<T>)
    ensures PendingPuts(updates + [u]) == PendingPuts(updates) + PutOf(u)
    decreases |updates|
  {
    hide PutOf;
    if updates == [] {
      assert updates + [u] == [u] && [u][1..] == [];
      assert PutOf(u) + [] == [] + PutOf(u);
    } else {
      PendingAppend(updates[1..], u);
      assert (updates + [u])[1..] == updates[1..] + [u];
    }
  }

  /** How many clicks have been rendered. */
  function RenderedTasks<T>(s: State<T>): int {
    |s.tasks| - |PendingPuts(s.updates)|
  }

  /** Every override is the newest value that the tasks request for its key. */
  ghost predicate NewestOf<T>(overrides: map<Key, T>, tasks: seq<Task<T>>) {
    forall k | k in overrides :: 0 <= Newest(tasks, k) && overrides[k] == tasks[Newest(tasks, k)].desired[k]
  }

  /** The clicks to be rendered are the last ones in order; a rendered override is the newest value
      requested by the others. */
  ghost predicate Rendered<T>(s: State<T>) {
    var r := RenderedTasks(s);
    && 0 <= r
    && (forall i | 0 <= i < |s.tasks| - r :: PendingPuts(s.updates)[i] == s.tasks[r + i].desired)
    && NewestOf(s.overrides, s.tasks[..r])
  }

  lemma FewerNewest<T>(overrides: map<Key, T>, fewer: map<Key, T>, tasks: seq<Task<T>>)
    requires NewestOf(overrides, tasks)
    requires forall k | k in fewer :: k in overrides && fewer[k] == overrides[k]
    ensures NewestOf(fewer, tasks)
  {
  }

  lemma PutNewest<T>(overrides: map<Key, T>, tasks: seq<Task<T>>, t: Task<T>)
    requires NewestOf(overrides, tasks)
    ensures NewestOf(overrides + t.desired, tasks + [t])
  {
    forall k ensures Newest(tasks + [t], k) == if k in t.desired then |tasks| else Newest(tasks, k) {
      CountAppend(tasks, t, k);
    }
  }

  lemma SameNewest<T>(overrides: map<Key, T>, tasks: seq<Task<T>>, others: seq<Task<T>>)
    requires NewestOf(overrides, tasks)
    requires |others| == |tasks| && forall i | 0 <= i < |tasks| :: others[i].desired == tasks[i].desired
    ensures NewestOf(overrides, others)
  {
    hide Newest;
    forall k ensures Newest(others, k) == Newest(tasks, k) {
      SameDesired(others, tasks, k);
    }
  }

  lemma NextRendered<T>(s: State<T>, e: Event<T>)
    requires Rendered(s) && Enabled(s, e)
    ensures Rendered(Next(s, e))
  {
    hide Rendered, PendingPuts;
    match e
    case Click(desired) => if desired != map[] { ClickRendered(s, desired); }
    case Finish(i, saved) =>
      if !saved { PendingAppend(s.updates, Rollback(s.tasks[i].revs)); }
      SameRendered(s, Next(s, e));
    case Start(i) => SameRendered(s, Next(s, e));
    case Refresh(authoritative) =>
      PendingAppend(s.updates, Reconcile(authoritative));
      SameRendered(s, Next(s, e));
    case Render => RenderOneMore(s);
  }

  lemma ClickRendered<T>(s: State<T>, desired: map<Key, T>)
    requires Rendered(s) && desired != map[]
    ensures Rendered(Next(s, Click(desired)))
  {
    hide PendingPuts, NewestOf, Bumped;
    var next, r := Next(s, Click(desired)), RenderedTasks(s);
    PendingAppend(s.updates, Put(desired));
    assert next.tasks[..r] == s.tasks[..r];
  }

  /** Nothing was rendered and no click was added. */
  lemma SameRendered<T>(s: State<T>, next: State<T>)
    requires Rendered(s) && next.overrides == s.overrides && PendingPuts(next.updates) == PendingPuts(s.updates)
    requires |next.tasks| == |s.tasks| && forall i | 0 <= i < |s.tasks| :: next.tasks[i].desired == s.tasks[i].desired
    ensures Rendered(next)
  {
    hide PendingPuts, NewestOf;
    var r := RenderedTasks(s);
    SameNewest(s.overrides, s.tasks[..r], next.tasks[..r]);
  }

  lemma RenderOneMore<T>(s: State<T>)
    requires Rendered(s) && s.updates != []
    ensures Rendered(Next(s, Event<T>.Render))
  {
    if s.updates[0].Put? { RenderPut(s); } else { RenderRemoval(s); }
  }

  lemma RenderRemoval<T>(s: State<T>)
    requires Rendered(s) && s.updates != [] && !s.updates[0].Put?
    ensures Rendered(Next(s, Event<T>.Render))
  {
    hide ApplyUpdate, NewestOf;
    var next := Next(s, Event<T>.Render);
    assert PendingPuts(next.updates) == PendingPuts(s.updates);
    forall k | k in next.overrides ensures k in s.overrides && next.overrides[k] == s.overrides[k] {
      OnlyRemoves(s.overrides, s.updates[0], s.revisions, k);
    }
    FewerNewest(s.overrides, next.overrides, s.tasks[..RenderedTasks(s)]);
  }

  lemma RenderPut<T>(s: State<T>)
    requires Rendered(s) && s.updates != [] && s.updates[0].Put?
    ensures Rendered(Next(s, Event<T>.Render))
  {
    hide NewestOf;
    var next, r, pending := Next(s, Event<T>.Render), RenderedTasks(s), PendingPuts(s.updates);
    assert pending == [s.updates[0].desired] + PendingPuts(next.updates);
    assert pending[0] == s.tasks[r + 0].desired;
    PutNewest(s.overrides, s.tasks[..r], s.tasks[r]);
    assert s.tasks[..r + 1] == s.tasks[..r] + [s.tasks[r]];
    forall i | 0 <= i < |s.tasks| - (r + 1) ensures PendingPuts(next.updates)[i] == s.tasks[r + 1 + i].desired {
      assert pending[i + 1] == s.tasks[r + (i + 1)].desired;
    }
  }

  lemma {:induction false} AlwaysRendered<T>(events: seq<Event<T>>, states: seq<State<T>>, n: nat)
    requires Run(events, states) && n <= |events|
    ensures n < |states| && Rendered(states[n])
    decreases n
  {
    hide Rendered, Next;
    if n == 0 {
      StartRendered(states[0]);
    } else {
      AlwaysRendered(events, states, n - 1);
      NextRendered(states[n - 1], events[n - 1]);
    }
  }

  lemma StartRendered<T>(s: State<T>)
    requires s == Initial()
    ensures Rendered(s)
  {
  }

  /** At every moment a rendered override is the newest value among the clicks rendered so far, and so
      the newest of all once no click waits to be rendered. */
  lemma RenderedOverrides<T>(events: seq<Event<T>>, states: seq<State<T>>, n: nat)
    requires Run(events, states) && n <= |events|
    ensures n < |states| && 0 <= RenderedTasks(states[n]) <= |states[n].tasks|
    ensures NewestOf(states[n].overrides, states[n].tasks[..RenderedTasks(states[n])])
    ensures PendingPuts(states[n].updates) == [] ==> NewestOf(states[n].overrides, states[n].tasks)
  {
    AlwaysRendered(events, states, n);
    hide Run, NewestOf, PendingPuts;
    assert states[n].tasks[..|states[n].tasks|] == states[n].tasks;
  }

  /** A rendered override is the newest requested value; a failure of an older write never removes
      it; and once every write is settled, only keys whose newest write was saved keep one. */
  lemma Overrides<T>(events: seq<Event<T>>, states: seq<State<T>>, n: nat, k: Key)
    requires Run(events, states) && n <= |events|
    ensures
      var s := states[n];
      s.updates == [] && k in s.overrides ==>
        0 <= Newest(s.tasks, k) && s.overrides[k] == s.tasks[Newest(s.tasks, k)].desired[k]
    ensures
      var s := states[n];
      forall i: nat | i < |s.tasks| && s.tasks[i].status == Running && Newest(s.tasks, k) != i ::
        SameAt(View(Next(s, Finish(i, false))), View(s), k)
    ensures
      var s := states[n];
      k in View(s) && (forall i | 0 <= i < |s.tasks| :: IsSettled(s.tasks[i].status)) ==>
        0 <= Newest(s.tasks, k) && s.tasks[Newest(s.tasks, k)].status == Saved
  {
    InRange(events, states, n);
    hide Run;
    EveryRun(events, states, n);
    var s := states[n];
    forall i: nat | i < |s.tasks| && s.tasks[i].status == Running && Newest(s.tasks, k) != i
      ensures SameAt(View(Next(s, Finish(i, false))), View(s), k)
    {
      RolledBack(s, i, k);
      BatchingIsInvisible(s, Finish(i, false));
    }
  }
}
