/** The client's task store (a JS `Map` from id to task) and what the single
    action subscriber does to it, as pure functions; the summary the chart shows. */
module Store {
  import opened Tasks

  type TaskMap = map<int, Task>

  /** The four kinds of action the API producers put on the action stream. */
  datatype Action = Init(tasks: seq<Task>) | Add(task: Task) | Update(task: Task) | Delete(id: int)

  /** Every entry is stored under the id of the task it holds. */
  predicate KeyedById(m: TaskMap)
  {
    forall k :: k in m ==> m[k].id == k
  }

  /** `ts[i]` is the last task in `ts` with its id. */
  predicate IsLast(ts: seq<Task>, i: int)
    requires 0 <= i < |ts|
  {
    forall j :: i < j < |ts| ==> ts[j].id != ts[i].id
  }

  /** `s` is `m` with `t` stored under `t.id`, whether or not that id was present,
      and every other entry as it was. */
  predicate Upserted(m: TaskMap, s: TaskMap, t: Task)
  {
    && s.Keys == m.Keys + {t.id}
    && s[t.id] == t
    && forall k :: k in m && k != t.id ==> s[k] == m[k]
  }

  /** The map that `clear()` followed by `set(t.id, t)` for each `t` in order builds:
      its keys are exactly the ids in `ts`, and for a repeated id the later task wins. */
  function Load(ts: seq<Task>): (m: TaskMap)
    ensures m.Keys == IdSet(ts)
    ensures forall i :: 0 <= i < |ts| && IsLast(ts, i) ==> m[ts[i].id] == ts[i]
    ensures KeyedById(m)
    decreases |ts|
  {
    if ts == [] then map[]
    else
      var front, t := ts[..|ts| - 1], ts[|ts| - 1];
      assert ts == front + [t];
      IdSetSnoc(front, t);
      LastOfFront(front, t);
      Load(front)[t.id := t]
  }

  /** A task of `front` that is last in `front + [t]` is last in `front`, and has
      another id than `t`. */
  lemma LastOfFront(front: seq<Task>, t: Task)
    ensures forall i :: 0 <= i < |front| && IsLast(front + [t], i) ==> IsLast(front, i) && front[i].id != t.id
  {
    var ts := front + [t];
    forall i | 0 <= i < |front| && IsLast(ts, i) ensures IsLast(front, i) && front[i].id != t.id {
      assert ts[|front|] == t;
      forall j | i < j < |front| ensures front[j].id != front[i].id {
        assert ts[j] == front[j];
      }
    }
  }

  /** The store after the subscriber has handled action `a`. */
  function Reduce(store: TaskMap, a: Action): (s: TaskMap)
    ensures a.Init? ==> s == Load(a.tasks) && s.Keys == IdSet(a.tasks)
    ensures a.Add? || a.Update? ==> Upserted(store, s, a.task)
    ensures a.Delete? ==> s.Keys == store.Keys - {a.id} && forall k :: k in s ==> s[k] == store[k]
    ensures a.Delete? && a.id !in store ==> s == store
    ensures KeyedById(store) ==> KeyedById(s)
  {
    match a
    case Init(ts) => Load(ts)
    case Add(t) => store[t.id := t]
    case Update(t) => store[t.id := t]
    case Delete(id) => store - {id}
  }

  /** The store after a run of actions delivered in order, from `store`. */
  function Replay(store: TaskMap, actions: seq<Action>): (r: TaskMap)
    ensures (forall k :: 0 <= k < |actions| ==> actions[k].Delete?) ==>
      r.Keys <= store.Keys && forall id :: id in r ==> r[id] == store[id]
    ensures (forall k :: 0 <= k < |actions| ==> actions[k].Add? || actions[k].Update?) ==>
      store.Keys <= r.Keys
    decreases |actions|
  {
    if actions == [] then store else Replay(Reduce(store, actions[0]), actions[1..])
  }

  /** Replaying one more action is reducing the replayed store by it: the store is
      the left fold of the actions delivered so far. */
  lemma {:induction false} ReplaySnoc(store: TaskMap, actions: seq<Action>, a: Action)
    ensures Replay(store, actions + [a]) == Reduce(Replay(store, actions), a)
    decreases |actions|
  {
    if actions == [] {
      assert [a][1..] == [];
    } else {
      assert (actions + [a])[1..] == actions[1..] + [a];
      ReplaySnoc(Reduce(store, actions[0]), actions[1..], a);
    }
  }

  /** Every store reachable from one keyed by id is keyed by id. */
  lemma {:induction false} ReplayKeyedById(store: TaskMap, actions: seq<Action>)
    requires KeyedById(store)
    ensures KeyedById(Replay(store, actions))
    decreases |actions|
  {
    if actions != [] {
      ReplayKeyedById(Reduce(store, actions[0]), actions[1..]);
    }
  }

  /** An `init` forgets everything before it: what follows depends only on its tasks. */
  lemma {:induction false} InitForgetsHistory(s1: TaskMap, s2: TaskMap, before: seq<Action>, ts: seq<Task>, after: seq<Action>)
    ensures Replay(s1, before + [Init(ts)] + after) == Replay(s2, [Init(ts)] + after)
    decreases |before|
  {
    if before == [] {
      assert [] + [Init(ts)] + after == [Init(ts)] + after;
    } else {
      assert (before + [Init(ts)] + after)[1..] == before[1..] + [Init(ts)] + after;
      InitForgetsHistory(Reduce(s1, before[0]), s2, before[1..], ts, after);
    }
  }

  /** Delivering the same `add` twice leaves the store as after the first. */
  lemma AddTwice(store: TaskMap, t: Task)
    ensures Replay(store, [Add(t), Add(t)]) == Reduce(store, Add(t))
  {
    var once := Reduce(store, Add(t));
    assert [Add(t), Add(t)][1..] == [Add(t)];
    assert [Add(t)][1..] == [];
    assert Replay(store, [Add(t), Add(t)]) == Replay(once, [Add(t)]);
    assert Replay(once, [Add(t)]) == Replay(Reduce(once, Add(t)), []);
    assert Reduce(once, Add(t)) == once;
  }

  /** The sample run: `init` with `ts`, then `delete x`, then `add y` leaves exactly
      the tasks of `ts` without `x`, plus `y`. */
  lemma InitDeleteAdd(ts: seq<Task>, x: int, y: Task)
    requires DistinctIds(ts)
    ensures var s := Replay(map[], [Init(ts), Delete(x), Add(y)]);
      && s.Keys == IdSet(ts) - {x} + {y.id}
      && s[y.id] == y
      && forall i :: 0 <= i < |ts| && ts[i].id != x && ts[i].id != y.id ==> s[ts[i].id] == ts[i]
  {
    var acts := [Init(ts), Delete(x), Add(y)];
    var s0 := Reduce(map[], Init(ts));
    var s1 := Reduce(s0, Delete(x));
    var s2 := Reduce(s1, Add(y));
    assert acts[1..] == [Delete(x), Add(y)];
    assert acts[1..][1..] == [Add(y)];
    assert [Add(y)][1..] == [];
    assert Replay(map[], acts) == Replay(s0, acts[1..]);
    assert Replay(s0, acts[1..]) == Replay(s1, [Add(y)]);
    assert Replay(s1, [Add(y)]) == Replay(s2, []);
    assert forall i :: 0 <= i < |ts| ==> IsLast(ts, i);
  }

  // ---- Summary projector -------------------------------------------------

  /** The pair fed to the chart's single dataset: `[completedCount, pendingCount]`. */
  datatype Summary = Summary(completed: nat, pending: nat)

  /** Ids of the entries whose task is completed. */
  function CompletedIds(m: TaskMap): set<int>
  {
    set k | k in m && m[k].completed
  }

  /** Ids of the entries whose task is not completed. */
  function PendingIds(m: TaskMap): set<int>
  {
    set k | k in m && !m[k].completed
  }

  lemma CompletedPendingSplit(m: TaskMap)
    ensures CompletedIds(m) !! PendingIds(m)
    ensures CompletedIds(m) + PendingIds(m) == m.Keys
    ensures |CompletedIds(m)| + |PendingIds(m)| == |m|
  {
    assert CompletedIds(m) + PendingIds(m) == m.Keys;
  }

  /** How many entries are completed and how many are not: the two always add
      up to the size of the store. */
  function Summarize(m: TaskMap): (r: Summary)
    ensures r.completed == |CompletedIds(m)|
    ensures r.pending == |PendingIds(m)|
    ensures r.completed + r.pending == |m|
  {
    CompletedPendingSplit(m);
    var c := |CompletedIds(m)|;
    Summary(c, |m| - c)
  }

  /** `tasks.filter(t => t.completed).length` over a list of tasks. */
  function CountCompleted(ts: seq<Task>): (n: nat)
    ensures n <= |ts|
    decreases |ts|
  {
    if ts == [] then 0 else (if ts[0].completed then 1 else 0) + CountCompleted(ts[1..])
  }

  /** The values of `m` listed in the order of `keys`. */
  function ValuesAt(m: TaskMap, keys: seq<int>): (vs: seq<Task>)
    requires forall i :: 0 <= i < |keys| ==> keys[i] in m
    ensures |vs| == |keys|
    decreases |keys|
  {
    if keys == [] then [] else [m[keys[0]]] + ValuesAt(m, keys[1..])
  }

  /** Counting completed tasks in any enumeration of the store's values, one per key
      (what `Array.from(taskMap.values())` produces, in whatever order), gives the
      summary's counts. */
  lemma {:induction false} SummaryOfValues(m: TaskMap, keys: seq<int>)
    requires forall i, j :: 0 <= i < j < |keys| ==> keys[i] != keys[j]
    requires forall k :: k in m <==> k in keys
    ensures forall i :: 0 <= i < |keys| ==> keys[i] in m
    ensures Summarize(m).completed == CountCompleted(ValuesAt(m, keys))
    ensures Summarize(m).pending == |ValuesAt(m, keys)| - CountCompleted(ValuesAt(m, keys))
    decreases |keys|
  {
    KeysInMap(m, keys);
    if keys != [] {
      var k := keys[0];
      var rest := m - {k};
      KeysOfRest(m, keys);
      SummaryOfValues(rest, keys[1..]);
      ValuesAtAgree(m, rest, keys[1..]);
      CountStep(m, k, ValuesAt(rest, keys[1..]));
    } else {
      NoKeys(m);
    }
  }

  lemma KeysInMap(m: TaskMap, keys: seq<int>)
    requires forall k :: k in m <==> k in keys
    ensures forall i :: 0 <= i < |keys| ==> keys[i] in m
  {
    forall i | 0 <= i < |keys| ensures keys[i] in m {
      var x := keys[i];
      assert x in keys;
      assert x in m;
    }
  }

  lemma NoKeys(m: TaskMap)
    requires forall k :: k in m <==> k in []
    ensures Summarize(m) == Summary(0, 0)
  {
    forall x ensures x !in m {
      assert x !in [];
    }
    assert m == map[];
  }

  lemma CountStep(m: TaskMap, k: int, vs: seq<Task>)
    requires k in m
    requires Summarize(m - {k}).completed == CountCompleted(vs)
    requires Summarize(m - {k}).pending == |vs| - CountCompleted(vs)
    ensures Summarize(m).completed == CountCompleted([m[k]] + vs)
    ensures Summarize(m).pending == |[m[k]] + vs| - CountCompleted([m[k]] + vs)
  {
    assert ([m[k]] + vs)[1..] == vs;
    SummaryOfRemoval(m, k);
  }

  lemma KeysOfRest(m: TaskMap, keys: seq<int>)
    requires keys != []
    requires forall i, j :: 0 <= i < j < |keys| ==> keys[i] != keys[j]
    requires forall k :: k in m <==> k in keys
    ensures forall i, j :: 0 <= i < j < |keys[1..]| ==> keys[1..][i] != keys[1..][j]
    ensures forall x :: x in m - {keys[0]} <==> x in keys[1..]
    ensures forall i :: 0 <= i < |keys[1..]| ==> keys[1..][i] in m && keys[1..][i] in m - {keys[0]}
  {
    var k := keys[0];
    forall x ensures x in m - {k} <==> x in keys[1..] {
      if x in keys[1..] {
        var j :| 1 <= j < |keys| && keys[j] == x;
        assert x != k;
        assert x in keys;
      }
      if x in m && x != k {
        assert x in keys;
        var j :| 0 <= j < |keys| && keys[j] == x;
        assert keys[1..][j - 1] == x;
      }
    }
    forall i | 0 <= i < |keys[1..]| ensures keys[1..][i] in m && keys[1..][i] in m - {k} {
      assert keys[1..][i] == keys[i + 1];
      assert keys[i + 1] in keys;
    }
  }

  lemma {:induction false} ValuesAtAgree(m: TaskMap, n: TaskMap, keys: seq<int>)
    requires forall i :: 0 <= i < |keys| ==> keys[i] in m && keys[i] in n && m[keys[i]] == n[keys[i]]
    ensures ValuesAt(m, keys) == ValuesAt(n, keys)
    decreases |keys|
  {
    if keys != [] {
      ValuesAtAgree(m, n, keys[1..]);
    }
  }

  /** The summary with one more task counted on the side its `completed` flag says. */
  function Count(s: Summary, completed: bool): Summary
  {
    if completed then s.(completed := s.completed + 1) else s.(pending := s.pending + 1)
  }

  /** Removing a present entry takes exactly that entry off its side of the summary:
      the chart's total drops by one. */
  lemma SummaryOfRemoval(m: TaskMap, k: int)
    requires k in m
    ensures Summarize(m) == Count(Summarize(m - {k}), m[k].completed)
  {
    var rest := m - {k};
    if m[k].completed {
      assert CompletedIds(m) == CompletedIds(rest) + {k};
      assert PendingIds(m) == PendingIds(rest);
    } else {
      assert CompletedIds(m) == CompletedIds(rest);
      assert PendingIds(m) == PendingIds(rest) + {k};
    }
  }

  /** Storing `t` counts it on its side, after taking off whatever was stored under its id. */
  lemma SummaryOfUpsert(m: TaskMap, t: Task)
    ensures Summarize(m[t.id := t]) == Count(Summarize(m - {t.id}), t.completed)
  {
    var n := m[t.id := t];
    assert n - {t.id} == m - {t.id};
    SummaryOfRemoval(n, t.id);
  }

  /** A store with three completed and two pending tasks feeds `[3, 2]` to the chart. */
  lemma ThreeCompletedTwoPending(m: TaskMap)
    requires m == map[1 := Task(1, "a", true), 2 := Task(2, "b", true), 3 := Task(3, "c", true),
                      4 := Task(4, "d", false), 5 := Task(5, "e", false)]
    ensures Summarize(m) == Summary(3, 2)
  {
    assert CompletedIds(m) == {1, 2, 3};
    assert PendingIds(m) == {4, 5};
  }
}
