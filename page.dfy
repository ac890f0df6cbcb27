/** The page: the store snapshot, the card list and the chart's data, updated by the
    single action subscriber; and when the cards stay a faithful picture of the store. */
module Page {
  import opened Tasks
  import opened Store
  import opened Cards

  /** What the subscriber does to the card list for action `a`. */
  function CardsAfter(cards: seq<Card>, a: Action): (r: seq<Card>)
    ensures UniqueIds(cards) || a.Init? ==> UniqueIds(r)
    ensures a.Init? ==> CardIds(r) == IdSet(a.tasks)
    ensures a.Add? ==> CardIds(r) == CardIds(cards) + {a.task.id}
    ensures a.Update? ==> CardIds(r) == CardIds(cards)
    ensures a.Delete? && UniqueIds(cards) ==> CardIds(r) == CardIds(cards) - {a.id}
  {
    match a
    case Init(ts) => RenderAll(ts)
    case Add(t) => AddCard(cards, t)
    case Update(t) => PatchCard(cards, t)
    case Delete(id) => RemoveCard(cards, id)
  }

  /** The cards picture the store: one card per entry, each showing the entry's task. */
  predicate Mirrors(cards: seq<Card>, store: TaskMap)
  {
    && UniqueIds(cards)
    && CardIds(cards) == store.Keys
    && forall i :: 0 <= i < |cards| ==> cards[i].id in store && ShowsTask(cards[i], store[cards[i].id])
  }

  /** Action `a` is one the cards can follow: an `init` without repeated ids, an `add`
      of a new task (or of the very task already stored), an `update` of a stored task
      that keeps its title; a `delete` always. */
  predicate Coherent(store: TaskMap, a: Action)
  {
    match a
    case Init(ts) => DistinctIds(ts)
    case Add(t) => t.id !in store || store[t.id] == t
    case Update(t) => t.id in store && store[t.id].title == t.title
    case Delete(_) => true
  }

  lemma MirrorKeyedById(cards: seq<Card>, store: TaskMap)
    requires Mirrors(cards, store)
    ensures KeyedById(store)
  {
    forall k | k in store ensures store[k].id == k {
      assert k in CardIds(cards);
      var i :| 0 <= i < |cards| && cards[i].id == k;
      assert ShowsTask(cards[i], store[k]);
    }
  }

  /** A coherent action keeps the cards a faithful picture of the store. */
  lemma DispatchKeepsMirror(store: TaskMap, cards: seq<Card>, a: Action)
    requires Mirrors(cards, store) && Coherent(store, a)
    ensures Mirrors(CardsAfter(cards, a), Reduce(store, a))
  {
    match a
    case Init(ts) => InitMirrors(ts);
    case Add(t) => AddKeepsMirror(store, cards, t);
    case Update(t) => UpdateKeepsMirror(store, cards, t);
    case Delete(id) => DeleteKeepsMirror(store, cards, id);
  }

  lemma InitMirrors(ts: seq<Task>)
    requires DistinctIds(ts)
    ensures Mirrors(RenderAll(ts), Load(ts))
  {
    var s, r := Load(ts), RenderAll(ts);
    RenderAllDistinct(ts);
    forall i | 0 <= i < |r| ensures r[i].id in s && ShowsTask(r[i], s[r[i].id]) {
      assert IsLast(ts, i);
      assert ts[i].id in IdSet(ts);
    }
  }

  lemma AddKeepsMirror(store: TaskMap, cards: seq<Card>, t: Task)
    requires Mirrors(cards, store) && (t.id !in store || store[t.id] == t)
    ensures Mirrors(AddCard(cards, t), store[t.id := t])
  {
    var s, r := store[t.id := t], AddCard(cards, t);
    if t.id !in store {
      assert t.id !in CardIds(cards);
      forall i | 0 <= i < |r| ensures r[i].id in s && ShowsTask(r[i], s[r[i].id]) {
        if i < |cards| {
          assert r[i] == cards[i];
        }
      }
    } else {
      assert t.id in CardIds(cards);
      assert s == store;
    }
  }

  lemma UpdateKeepsMirror(store: TaskMap, cards: seq<Card>, t: Task)
    requires Mirrors(cards, store) && t.id in store && store[t.id].title == t.title
    ensures Mirrors(PatchCard(cards, t), store[t.id := t])
  {
    var s, r := store[t.id := t], PatchCard(cards, t);
    forall i | 0 <= i < |r| ensures r[i].id in s && ShowsTask(r[i], s[r[i].id]) {
      assert r[i].id == cards[i].id;
    }
  }

  lemma DeleteKeepsMirror(store: TaskMap, cards: seq<Card>, id: int)
    requires Mirrors(cards, store)
    ensures Mirrors(RemoveCard(cards, id), store - {id})
  {
    var s, r := store - {id}, RemoveCard(cards, id);
    forall i | 0 <= i < |r| ensures r[i].id in s && ShowsTask(r[i], s[r[i].id]) {
      assert r[i] in cards;
      var j :| 0 <= j < |cards| && cards[j] == r[i];
    }
  }

  /** An `update` for a task the store does not hold (one deleted meanwhile) puts it
      back in the store, but no card appears for it. */
  lemma UpdateOfAbsentTaskHasNoCard(store: TaskMap, cards: seq<Card>, t: Task)
    requires Mirrors(cards, store) && t.id !in store
    ensures t.id in Reduce(store, Update(t))
    ensures t.id !in CardIds(CardsAfter(cards, Update(t)))
    ensures !Mirrors(CardsAfter(cards, Update(t)), Reduce(store, Update(t)))
  {
  }

  /** An `add` for an id that already has a card replaces the stored task but leaves
      the card as it was, so a changed `completed` flag is not shown. */
  lemma AddOfShownTaskKeepsOldCard(store: TaskMap, cards: seq<Card>, t: Task)
    requires Mirrors(cards, store) && t.id in store && store[t.id].completed != t.completed
    ensures Reduce(store, Add(t))[t.id] == t
    ensures CardsAfter(cards, Add(t)) == cards
    ensures !Mirrors(CardsAfter(cards, Add(t)), Reduce(store, Add(t)))
  {
    assert t.id in CardIds(cards);
    var i :| 0 <= i < |cards| && cards[i].id == t.id;
    assert ShowsTask(cards[i], store[t.id]);
  }

  /** With a repeated id, `init` keeps the last task in the store but the first on its card. */
  lemma InitWithRepeatedId(first: Task, last: Task)
    requires first.id == last.id && first.completed != last.completed
    ensures Reduce(map[], Init([first, last]))[first.id] == last
    ensures CardsAfter([], Init([first, last])) == [NewCard(first)]
    ensures !Mirrors(CardsAfter([], Init([first, last])), Reduce(map[], Init([first, last])))
  {
    var ts := [first, last];
    assert IsLast(ts, 1);
    assert ts[..1] == [first];
    assert ts[..1][..0] == [];
    assert RenderAll(ts[..1]) == AddCard(RenderAll([]), first);
    assert RenderAll(ts) == AddCard(RenderAll(ts[..1]), last);
  }

  /** Two `update`s for the same task delivered one after the other leave the store
      and the cards as the second alone would: the page shows whichever answer was
      delivered last, whatever order the requests were sent in. */
  lemma LastUpdateWins(store: TaskMap, cards: seq<Card>, first: Task, second: Task)
    requires first.id == second.id
    ensures Reduce(Reduce(store, Update(first)), Update(second)) == Reduce(store, Update(second))
    ensures CardsAfter(CardsAfter(cards, Update(first)), Update(second)) == CardsAfter(cards, Update(second))
  {
    PatchTwice(cards, first, second);
  }

  lemma PatchTwice(cards: seq<Card>, first: Task, second: Task)
    requires first.id == second.id
    ensures PatchCard(PatchCard(cards, first), second) == PatchCard(cards, second)
  {
    var once := PatchCard(cards, first);
    FindSameIds(once, cards, second.id);
    match Find(cards, second.id)
    case None =>
    case Some(i) =>
      var twice := PatchCard(once, second);
      var direct := PatchCard(cards, second);
      assert |twice| == |direct|;
      forall j | 0 <= j < |twice| ensures twice[j] == direct[j] {
        if j != i {
          assert twice[j] == once[j];
        }
      }
  }

  /** The page state the subscriber maintains: the published store snapshot, the
      cards in the list container, and the chart dataset. */
  class TaskPage {
    var store: TaskMap
    var cards: seq<Card>
    var chart: Summary

    /** The chart always shows the summary of the current snapshot; every entry is
        stored under its own id; no two cards share an id. */
    ghost predicate Valid()
      reads this
    {
      KeyedById(store) && UniqueIds(cards) && chart == Summarize(store)
    }

    /** An empty store, an empty list and the chart at `[0, 0]`. */
    constructor ()
      ensures Valid()
      ensures store == map[] && cards == [] && chart == Summary(0, 0)
    {
      store := map[];
      cards := [];
      chart := Summary(0, 0);
    }

    /** Publishing a new snapshot; its subscriber recomputes the chart's data. */
    method Publish(current: TaskMap)
      modifies this`store, this`chart
      ensures store == current && chart == Summarize(current)
    {
      store := current;
      chart := Summarize(current);
    }

    /** The action subscriber: build the new store from a copy of the current one,
        publish it, then update the cards. */
    method Dispatch(a: Action)
      requires Valid()
      modifies this
      ensures Valid()
      ensures store == Reduce(old(store), a)
      ensures cards == CardsAfter(old(cards), a)
      ensures chart == Summarize(store)
    {
      var current := store;
      match a {
        case Init(ts) =>
          current := LoadTasks(ts);
          Publish(current);
          RenderAllTasks(ts);
        case Add(t) =>
          current := current[t.id := t];
          Publish(current);
          AddTaskCard(t);
        case Update(t) =>
          current := current[t.id := t];
          Publish(current);
          UpdateTaskCard(t);
        case Delete(id) =>
          current := current - {id};
          Publish(current);
          RemoveTaskCard(id);
      }
    }

    /** `current.clear()` and then `current.set(t.id, t)` for each task in order. */
    method LoadTasks(ts: seq<Task>) returns (current: TaskMap)
      ensures current == Load(ts)
    {
      current := map[];
      var i := 0;
      while i < |ts|
        invariant 0 <= i <= |ts|
        invariant current == Load(ts[..i])
      {
        assert ts[..i + 1][..i] == ts[..i];
        current := current[ts[i].id := ts[i]];
        i := i + 1;
      }
      assert ts[..|ts|] == ts;
    }

    /** Empty the list container, then add a card for each task in order. */
    method RenderAllTasks(ts: seq<Task>)
      modifies this`cards
      ensures cards == RenderAll(ts)
    {
      cards := [];
      for i := 0 to |ts|
        invariant cards == RenderAll(ts[..i])
      {
        assert ts[..i + 1][..i] == ts[..i];
        AddTaskCard(ts[i]);
      }
      assert ts[..|ts|] == ts;
    }

    /** Append a card for `t` unless one with its id is already in the document. */
    method AddTaskCard(t: Task)
      modifies this`cards
      ensures cards == AddCard(old(cards), t)
    {
      if Find(cards, t.id).Some? {
        return;
      }
      cards := cards + [NewCard(t)];
    }

    /** Look up the card for `t`; if found, set its checkbox and strikethrough. */
    method UpdateTaskCard(t: Task)
      modifies this`cards
      ensures cards == PatchCard(old(cards), t)
    {
      var found := Find(cards, t.id);
      if found.None? {
        return;
      }
      var i := found.value;
      cards := cards[i := cards[i].(checked := t.completed, struck := t.completed)];
    }

    /** Look up the card with `id`; if found, detach it. */
    method RemoveTaskCard(id: int)
      modifies this`cards
      ensures cards == RemoveCard(old(cards), id)
    {
      var found := Find(cards, id);
      if found.Some? {
        var i := found.value;
        cards := cards[..i] + cards[i + 1..];
      }
    }
  }
}
