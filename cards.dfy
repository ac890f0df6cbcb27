/** The task list container as the ordered sequence of its cards, and the four
    helpers that change it: render all, add one card, patch one card, remove one card. */
module Cards {
  import opened Tasks

  /** A card in the list: its `data-id`, its title text, whether its checkbox is
      checked, and whether its title is struck through. */
  datatype Card = Card(id: int, title: string, checked: bool, struck: bool)

  /** The `data-id`s of the cards. */
  function CardIds(cards: seq<Card>): set<int>
  {
    set i | 0 <= i < |cards| :: cards[i].id
  }

  /** No two cards carry the same `data-id`. */
  predicate UniqueIds(cards: seq<Card>)
  {
    forall i, j :: 0 <= i < j < |cards| ==> cards[i].id != cards[j].id
  }

  /** Card `c` displays task `t`: same id and title, checkbox and strikethrough
      both equal to `t.completed`. */
  predicate ShowsTask(c: Card, t: Task)
  {
    c.id == t.id && c.title == t.title && c.checked == t.completed && c.struck == t.completed
  }

  /** The card built for a new task. */
  function NewCard(t: Task): (c: Card)
    ensures ShowsTask(c, t)
  {
    Card(t.id, t.title, t.completed, t.completed)
  }

  /** `ts[i]` is the first task in `ts` with its id. */
  predicate IsFirst(ts: seq<Task>, i: int)
    requires 0 <= i < |ts|
  {
    forall j :: 0 <= j < i ==> ts[j].id != ts[i].id
  }

  lemma CardIdsSnoc(cards: seq<Card>, c: Card)
    ensures CardIds(cards + [c]) == CardIds(cards) + {c.id}
  {
    var r := cards + [c];
    assert forall i :: 0 <= i < |cards| ==> r[i] == cards[i];
    assert r[|cards|] == c;
  }

  lemma CardIdsTail(cards: seq<Card>)
    requires cards != []
    ensures CardIds(cards) == {cards[0].id} + CardIds(cards[1..])
  {
    assert cards == [cards[0]] + cards[1..];
    forall x | x in CardIds(cards) ensures x in {cards[0].id} + CardIds(cards[1..]) {
      var i :| 0 <= i < |cards| && cards[i].id == x;
      if i > 0 {
        assert cards[1..][i - 1] == cards[i];
      }
    }
    forall x | x in CardIds(cards[1..]) ensures x in CardIds(cards) {
      var i :| 0 <= i < |cards[1..]| && cards[1..][i].id == x;
      assert cards[i + 1] == cards[1..][i];
    }
  }

  /** The lookup by `data-id`: the first card, in document order, with that id. */
  function Find(cards: seq<Card>, id: int): (r: Option<nat>)
    ensures r.None? <==> id !in CardIds(cards)
    ensures r.Some? ==> r.value < |cards| && cards[r.value].id == id
    ensures r.Some? ==> forall j :: 0 <= j < r.value ==> cards[j].id != id
    decreases |cards|
  {
    if cards == [] then None
    else
      CardIdsTail(cards);
      if cards[0].id == id then Some(0)
      else
        match Find(cards[1..], id)
        case None => None
        case Some(i) => Some(i + 1)
  }

  /** Two card lists with the same `data-id`s position by position answer every
      lookup alike. */
  lemma {:induction false} FindSameIds(a: seq<Card>, b: seq<Card>, id: int)
    requires |a| == |b| && forall j :: 0 <= j < |a| ==> a[j].id == b[j].id
    ensures Find(a, id) == Find(b, id)
    decreases |a|
  {
    if a != [] && a[0].id != id {
      FindSameIds(a[1..], b[1..], id);
    }
  }

  /** Adding the card for `t`: nothing happens if a card with `t.id` is already
      there; otherwise exactly one card showing `t` is appended at the end. */
  function AddCard(cards: seq<Card>, t: Task): (r: seq<Card>)
    ensures t.id in CardIds(cards) ==> r == cards
    ensures t.id !in CardIds(cards) ==> |r| == |cards| + 1 && r[|cards|] == NewCard(t)
    ensures |r| <= |cards| + 1 && r[..|cards|] == cards
    ensures CardIds(r) == CardIds(cards) + {t.id}
    ensures UniqueIds(cards) ==> UniqueIds(r)
  {
    if Find(cards, t.id).Some? then cards
    else
      CardIdsSnoc(cards, NewCard(t));
      cards + [NewCard(t)]
  }

  /** Patching the card for `t`: if there is none, nothing changes; otherwise only
      that card changes, and only in its checkbox and strikethrough, which become
      `t.completed`. The title text is left as it was. */
  function PatchCard(cards: seq<Card>, t: Task): (r: seq<Card>)
    ensures t.id !in CardIds(cards) ==> r == cards
    ensures |r| == |cards|
    ensures forall j :: 0 <= j < |r| ==> r[j].id == cards[j].id && r[j].title == cards[j].title
    ensures UniqueIds(cards) ==> forall j :: 0 <= j < |r| && cards[j].id != t.id ==> r[j] == cards[j]
    ensures UniqueIds(cards) ==> forall j :: 0 <= j < |r| && r[j].id == t.id ==> r[j].checked == t.completed && r[j].struck == t.completed
    ensures CardIds(r) == CardIds(cards)
    ensures UniqueIds(cards) ==> UniqueIds(r)
  {
    match Find(cards, t.id)
    case None => cards
    case Some(i) =>
      var r := cards[i := cards[i].(checked := t.completed, struck := t.completed)];
      assert forall j :: 0 <= j < |r| ==> r[j].id == cards[j].id;
      assert CardIds(r) == CardIds(cards);
      r
  }

  /** Removing the card with `id`: if there is none, nothing changes; otherwise
      exactly that card is taken out and the others keep their order. */
  function RemoveCard(cards: seq<Card>, id: int): (r: seq<Card>)
    ensures id !in CardIds(cards) ==> r == cards
    ensures id in CardIds(cards) ==> |r| == |cards| - 1
    ensures forall c :: c in r ==> c in cards
    ensures UniqueIds(cards) ==> UniqueIds(r)
    ensures UniqueIds(cards) ==> CardIds(r) == CardIds(cards) - {id}
    ensures UniqueIds(cards) ==> forall c :: c in cards && c.id != id ==> c in r
    ensures id in CardIds(cards) ==>
      exists i :: 0 <= i < |cards| && cards[i].id == id && (forall j :: 0 <= j < i ==> cards[j].id != id)
        && r == cards[..i] + cards[i + 1..]
  {
    match Find(cards, id)
    case None => cards
    case Some(i) =>
      var r := cards[..i] + cards[i + 1..];
      assert forall j :: 0 <= j < i ==> r[j] == cards[j];
      assert forall j :: i <= j < |r| ==> r[j] == cards[j + 1];
      RemovedIds(cards, i, r);
      r
  }

  lemma RemovedIds(cards: seq<Card>, i: nat, r: seq<Card>)
    requires i < |cards|
    requires r == cards[..i] + cards[i + 1..]
    ensures forall c :: c in r ==> c in cards
    ensures UniqueIds(cards) ==> UniqueIds(r)
    ensures UniqueIds(cards) ==> CardIds(r) == CardIds(cards) - {cards[i].id}
    ensures UniqueIds(cards) ==> forall c :: c in cards && c.id != cards[i].id ==> c in r
  {
    assert forall j :: 0 <= j < i ==> r[j] == cards[j];
    assert forall j :: i <= j < |r| ==> r[j] == cards[j + 1];
    if UniqueIds(cards) {
      forall x | x in CardIds(cards) - {cards[i].id} ensures x in CardIds(r) {
        var j :| 0 <= j < |cards| && cards[j].id == x;
        if j < i { assert r[j] == cards[j]; } else { assert r[j - 1] == cards[j]; }
      }
      forall c | c in cards && c.id != cards[i].id ensures c in r {
        var j :| 0 <= j < |cards| && cards[j] == c;
        if j < i { assert r[j] == cards[j]; } else { assert r[j - 1] == cards[j]; }
      }
    }
  }

  /** Clearing the container and adding a card for each task in order. */
  function RenderAll(ts: seq<Task>): (r: seq<Card>)
    ensures UniqueIds(r)
    ensures CardIds(r) == IdSet(ts)
    ensures |r| <= |ts|
    ensures forall i :: 0 <= i < |ts| && IsFirst(ts, i) ==> NewCard(ts[i]) in r
    decreases |ts|
  {
    if ts == [] then []
    else
      var front, t := ts[..|ts| - 1], ts[|ts| - 1];
      assert ts == front + [t];
      RenderStep(front, t, RenderAll(front));
      AddCard(RenderAll(front), t)
  }

  lemma RenderStep(front: seq<Task>, t: Task, shown: seq<Card>)
    requires UniqueIds(shown) && CardIds(shown) == IdSet(front) && |shown| <= |front|
    requires forall i :: 0 <= i < |front| && IsFirst(front, i) ==> NewCard(front[i]) in shown
    ensures var ts, r := front + [t], AddCard(shown, t);
      && UniqueIds(r) && CardIds(r) == IdSet(ts) && |r| <= |ts|
      && forall i :: 0 <= i < |ts| && IsFirst(ts, i) ==> NewCard(ts[i]) in r
  {
    IdSetSnoc(front, t);
    var ts, r := front + [t], AddCard(shown, t);
    forall i | 0 <= i < |ts| && IsFirst(ts, i) ensures NewCard(ts[i]) in r {
      FirstShown(front, t, shown, i);
    }
  }

  lemma FirstShown(front: seq<Task>, t: Task, shown: seq<Card>, i: nat)
    requires CardIds(shown) == IdSet(front)
    requires forall i :: 0 <= i < |front| && IsFirst(front, i) ==> NewCard(front[i]) in shown
    requires i < |front| + 1 && IsFirst(front + [t], i)
    ensures NewCard((front + [t])[i]) in AddCard(shown, t)
  {
    var ts, r := front + [t], AddCard(shown, t);
    if i < |front| {
      assert ts[i] == front[i];
      assert IsFirst(front, i) by {
        forall j | 0 <= j < i ensures front[j].id != front[i].id {
          assert ts[j] == front[j];
        }
      }
      var c := NewCard(front[i]);
      assert c in shown;
      var k :| 0 <= k < |shown| && shown[k] == c;
      assert r[..|shown|] == shown;
      assert r[k] == c;
    } else {
      assert ts[i] == t;
      forall j | 0 <= j < |front| ensures front[j].id != t.id {
        assert ts[j] == front[j];
      }
      assert t.id !in IdSet(front);
      assert r[|shown|] == NewCard(t);
    }
  }

  /** Appending cards after a prefix that already holds `id` does not move its lookup. */
  lemma FindExtend(shown: seq<Card>, r: seq<Card>, id: int)
    requires |shown| <= |r| && r[..|shown|] == shown && id in CardIds(shown)
    ensures Find(r, id) == Find(shown, id)
  {
    var k := Find(shown, id).value;
    assert forall j :: 0 <= j <= k ==> r[j] == shown[j];
    assert id in CardIds(r);
  }

  /** The cards come in the order in which their ids first appear among the tasks,
      repeated ids included. */
  lemma {:induction false} RenderAllOrder(ts: seq<Task>)
    ensures forall i, j :: 0 <= i < j < |ts| && IsFirst(ts, i) && IsFirst(ts, j) ==>
      Find(RenderAll(ts), ts[i].id).value < Find(RenderAll(ts), ts[j].id).value
    decreases |ts|
  {
    if ts != [] {
      var front, t := ts[..|ts| - 1], ts[|ts| - 1];
      assert ts == front + [t];
      var shown, r := RenderAll(front), RenderAll(ts);
      assert r == AddCard(shown, t);
      RenderAllOrder(front);
      forall i, j | 0 <= i < j < |ts| && IsFirst(ts, i) && IsFirst(ts, j)
        ensures Find(r, ts[i].id).value < Find(r, ts[j].id).value
      {
        OrderStep(front, t, i, j);
      }
    }
  }

  lemma OrderStep(front: seq<Task>, t: Task, i: nat, j: nat)
    requires forall i, j :: 0 <= i < j < |front| && IsFirst(front, i) && IsFirst(front, j) ==>
      Find(RenderAll(front), front[i].id).value < Find(RenderAll(front), front[j].id).value
    requires i < j < |front| + 1 && IsFirst(front + [t], i) && IsFirst(front + [t], j)
    ensures var ts, r := front + [t], AddCard(RenderAll(front), t);
      Find(r, ts[i].id).Some? && Find(r, ts[j].id).Some? &&
      Find(r, ts[i].id).value < Find(r, ts[j].id).value
  {
    var ts, shown := front + [t], RenderAll(front);
    var r := AddCard(shown, t);
    assert ts[i] == front[i];
    assert IsFirst(front, i) by {
      forall k | 0 <= k < i ensures front[k].id != front[i].id {
        assert ts[k] == front[k];
      }
    }
    assert front[i].id in CardIds(shown);
    FindExtend(shown, r, front[i].id);
    if j < |front| {
      assert ts[j] == front[j];
      assert IsFirst(front, j) by {
        forall k | 0 <= k < j ensures front[k].id != front[j].id {
          assert ts[k] == front[k];
        }
      }
      assert front[j].id in CardIds(shown);
      FindExtend(shown, r, front[j].id);
    } else {
      assert ts[j] == t;
      forall k | 0 <= k < |front| ensures front[k].id != t.id {
        assert ts[k] == front[k];
      }
      assert t.id !in CardIds(shown);
      assert r[|shown|].id == t.id;
      assert t.id in CardIds(r);
      assert Find(r, t.id).value == |shown|;
    }
  }

  /** When the ids are distinct, rendering gives one card per task, in order, each
      with its checkbox equal to the task's `completed` flag. */
  lemma {:induction false} RenderAllDistinct(ts: seq<Task>)
    requires DistinctIds(ts)
    ensures |RenderAll(ts)| == |ts|
    ensures forall i :: 0 <= i < |ts| ==> RenderAll(ts)[i] == NewCard(ts[i])
    decreases |ts|
  {
    if ts != [] {
      var front, t := ts[..|ts| - 1], ts[|ts| - 1];
      assert DistinctIds(front);
      RenderAllDistinct(front);
      forall j | 0 <= j < |front| ensures front[j].id != t.id {
        assert ts[j] == front[j];
      }
      assert t.id !in IdSet(front);
    }
  }
}
