/** The client and the server together: each user event sends one request, the
    server handles it, and the response becomes one action for the subscriber. When
    every response arrives before the next request is sent, the page's store and
    cards always picture the server's table; when responses overtake each other,
    they need not. */
module Sync {
  import opened Tasks
  import opened Store
  import opened Cards
  import opened Page
  import Form
  import Server

  /** The table as the client sees it: each row as the task dict the server sends. */
  function TableView(db: Server.Table): (m: TaskMap)
    ensures m.Keys == db.rows.Keys
    ensures forall k :: k in m ==> m[k] == Server.TaskOf(k, db.rows[k])
  {
    map k | k in db.rows :: Server.TaskOf(k, db.rows[k])
  }

  /** The server's table and the page's store and cards. */
  datatype World = World(db: Server.Table, store: TaskMap, cards: seq<Card>)

  /** The store is the table, and the cards picture the store. */
  predicate InSync(w: World)
  {
    Server.Valid(w.db) && w.store == TableView(w.db) && Mirrors(w.cards, w.store)
  }

  /** What can happen on the page: the initial load, a form submit with the input's
      value, a checkbox change on a card, a confirmed click on a card's delete button. */
  datatype Event = PageLoad | Submit(value: string) | Toggle(id: int, checked: bool) | ConfirmDelete(id: int)

  /** A checkbox or delete button can only be used on a card that is on the page. */
  predicate Enabled(w: World, e: Event)
  {
    match e
    case PageLoad => true
    case Submit(_) => true
    case Toggle(id, _) => id in CardIds(w.cards)
    case ConfirmDelete(id) => id in CardIds(w.cards)
  }

  /** The subscriber handling action `a`. */
  function Deliver(w: World, a: Action): World
  {
    w.(store := Reduce(w.store, a), cards := CardsAfter(w.cards, a))
  }

  /** One event with its request answered before anything else happens. The load
      lists the table and delivers `init`; a submit that passes the gate creates the
      task and delivers `add` with the answer; a checkbox change sends
      `{completed}` and delivers `update` with the answer; a delete delivers
      `delete` whatever the server answered. */
  function Step(w: World, e: Event): (r: World)
    ensures e.PageLoad? ==> r.db == w.db
    ensures e.Submit? && Form.SubmitGate(e.value).request.None? ==> r == w
    ensures e.Submit? && Form.SubmitGate(e.value).request.Some? ==>
      r.db.lastId == w.db.lastId + 1 && r.db.lastId in r.store && r.db.lastId in CardIds(r.cards)
    ensures e.Toggle? && e.id !in w.db.rows ==> r == w
    ensures e.ConfirmDelete? ==>
      r.db.rows.Keys == w.db.rows.Keys - {e.id} && r.store.Keys == w.store.Keys - {e.id}
  {
    match e
    case PageLoad => Deliver(w, Init(Server.List(w.db)))
    case Submit(value) =>
      (match Form.SubmitGate(value).request
       case None => w
       case Some(body) =>
         var out := Server.Create(w.db, Server.TaskCreate(body.title));
         Deliver(w.(db := out.db), Add(out.response.value)))
    case Toggle(id, checked) =>
      var out := Server.Modify(w.db, id, Server.TaskUpdate(None, Some(checked)));
      (match out.response
       case Ok(t) => Deliver(w.(db := out.db), Update(t))
       case Error(_, _) => w.(db := out.db))
    case ConfirmDelete(id) =>
      var out := Server.Remove(w.db, id);
      Deliver(w.(db := out.db), Delete(id))
  }

  /** The listing the load delivers builds exactly the table's view. */
  lemma LoadOfListing(db: Server.Table)
    requires Server.Valid(db)
    ensures Load(Server.List(db)) == TableView(db)
  {
    var ts := Server.List(db);
    var m, v := Load(ts), TableView(db);
    assert m.Keys == v.Keys;
    forall k | k in m ensures m[k] == v[k] {
      ListedEntry(db, k);
    }
  }

  /** The entry the load builds for a row's id is the task the row stores. */
  lemma ListedEntry(db: Server.Table, k: int)
    requires Server.Valid(db) && k in db.rows
    ensures k in Load(Server.List(db)) && Load(Server.List(db))[k] == Server.TaskOf(k, db.rows[k])
  {
    var ts := Server.List(db);
    assert k in IdSet(ts);
    var i :| 0 <= i < |ts| && ts[i].id == k;
    assert IsLast(ts, i);
  }

  /** A checkbox change on a card of a page in sync never meets a 404. */
  lemma ToggleFindsRow(w: World, id: int, checked: bool)
    requires InSync(w) && id in CardIds(w.cards)
    ensures Server.Modify(w.db, id, Server.TaskUpdate(None, Some(checked))).response.Ok?
  {
  }

  /** Every enabled event, answered in turn, keeps the page in sync with the table. */
  lemma StepKeepsSync(w: World, e: Event)
    requires InSync(w) && Enabled(w, e)
    ensures InSync(Step(w, e))
  {
    match e
    case PageLoad =>
      LoadOfListing(w.db);
      DispatchKeepsMirror(w.store, w.cards, Init(Server.List(w.db)));
    case Submit(value) =>
      if Form.SubmitGate(value).request.Some? {
        CreateKeepsSync(w, Form.SubmitGate(value).request.value.title);
      }
    case Toggle(id, checked) => ToggleKeepsSync(w, id, checked);
    case ConfirmDelete(id) => DeleteKeepsSync(w, id);
  }

  /** A coherent action whose effect on the store is the server's change to the table
      keeps the page in sync. */
  lemma DeliverKeepsSync(w: World, db': Server.Table, a: Action)
    requires InSync(w) && Server.Valid(db') && Coherent(w.store, a)
    requires Reduce(w.store, a) == TableView(db')
    ensures InSync(Deliver(w.(db := db'), a))
  {
    DispatchKeepsMirror(w.store, w.cards, a);
  }

  lemma CreateKeepsSync(w: World, title: string)
    requires InSync(w)
    ensures var out := Server.Create(w.db, Server.TaskCreate(title));
      InSync(Deliver(w.(db := out.db), Add(out.response.value)))
  {
    var out := Server.Create(w.db, Server.TaskCreate(title));
    var id := w.db.lastId + 1;
    var t := Task(id, title, false);
    assert out.response.value == t;
    assert id !in w.db.rows;
    TableAfterWrite(w.db, out.db, id, Server.Row(title, false));
    DeliverKeepsSync(w, out.db, Add(t));
  }

  lemma ToggleKeepsSync(w: World, id: int, checked: bool)
    requires InSync(w) && id in CardIds(w.cards)
    ensures InSync(Step(w, Toggle(id, checked)))
  {
    var upd := Server.TaskUpdate(None, Some(checked));
    var out := Server.Modify(w.db, id, upd);
    assert id in w.db.rows;
    var row := Server.Merge(w.db.rows[id], upd);
    var t := Server.TaskOf(id, row);
    ToggleStep(w, id, checked);
    assert w.store[id] == Server.TaskOf(id, w.db.rows[id]);
    assert row.title == w.db.rows[id].title;
    TableAfterWrite(w.db, out.db, id, row);
    DeliverKeepsSync(w, out.db, Update(t));
  }

  /** A toggle of a stored row delivers `update` with the merged row. */
  lemma ToggleStep(w: World, id: int, checked: bool)
    requires id in w.db.rows
    ensures var upd := Server.TaskUpdate(None, Some(checked));
      var out := Server.Modify(w.db, id, upd);
      Step(w, Toggle(id, checked)) == Deliver(w.(db := out.db), Update(Server.TaskOf(id, Server.Merge(w.db.rows[id], upd))))
  {
  }

  /** The view of a table in which one row was written is the old view with that entry
      written. */
  lemma TableAfterWrite(db: Server.Table, db': Server.Table, id: int, row: Server.Row)
    requires db'.rows == db.rows[id := row]
    ensures TableView(db') == TableView(db)[id := Server.TaskOf(id, row)]
  {
  }

  /** The view of a table without one row is the old view without that entry. */
  lemma TableAfterRemove(db: Server.Table, db': Server.Table, id: int)
    requires db'.rows.Keys == db.rows.Keys - {id}
    requires forall k :: k in db'.rows ==> db'.rows[k] == db.rows[k]
    ensures TableView(db') == TableView(db) - {id}
  {
  }

  lemma DeleteKeepsSync(w: World, id: int)
    requires InSync(w)
    ensures InSync(Step(w, ConfirmDelete(id)))
  {
    var out := Server.Remove(w.db, id);
    assert Step(w, ConfirmDelete(id)) == Deliver(w.(db := out.db), Delete(id));
    TableAfterRemove(w.db, out.db, id);
    DeliverKeepsSync(w, out.db, Delete(id));
  }

  /** The world after a run of events, each handled to the end before the next. */
  function Run(w: World, es: seq<Event>): World
    decreases |es|
  {
    if es == [] then w else Run(Step(w, es[0]), es[1..])
  }

  /** Every event of the run is enabled when its turn comes. */
  predicate AllEnabled(w: World, es: seq<Event>)
    decreases |es|
  {
    es == [] || (Enabled(w, es[0]) && AllEnabled(Step(w, es[0]), es[1..]))
  }

  /** A page in sync stays in sync over any run of enabled events. */
  lemma {:induction false} RunKeepsSync(w: World, es: seq<Event>)
    requires InSync(w) && AllEnabled(w, es)
    ensures InSync(Run(w, es))
    decreases |es|
  {
    if es != [] {
      StepKeepsSync(w, es[0]);
      RunKeepsSync(Step(w, es[0]), es[1..]);
    }
  }

  /** Whatever the table holds, the freshly opened page (empty store, no cards) is in
      sync with it once the initial load has been delivered. */
  lemma StartUpSyncs(db: Server.Table)
    requires Server.Valid(db)
    ensures InSync(Step(World(db, map[], []), PageLoad))
  {
    var w := World(db, map[], []);
    assert Mirrors([], map[]);
    LoadOfListing(db);
    DispatchKeepsMirror(w.store, w.cards, Init(Server.List(db)));
  }

  /** Submitting "Buy milk" when the counter stands at 6 creates task 7 and appends
      exactly one card with `data-id` 7, unchecked and not struck through. */
  lemma BuyMilkScenario(w: World)
    requires InSync(w) && w.db.lastId == 6
    ensures Step(w, Submit("Buy milk")).db == Server.Table(w.db.rows[7 := Server.Row("Buy milk", false)], 7)
    ensures Step(w, Submit("Buy milk")).cards == w.cards + [Card(7, "Buy milk", false, false)]
    ensures 7 !in CardIds(w.cards)
  {
    Form.SubmitBuyMilk();
    assert 7 !in w.db.rows;
    var t := Task(7, "Buy milk", false);
    var out := Server.Create(w.db, Server.TaskCreate("Buy milk"));
    assert Step(w, Submit("Buy milk")) == Deliver(w.(db := out.db), Add(t));
    assert AddCard(w.cards, t) == w.cards + [NewCard(t)];
  }

  /** A checkbox change and then a delete on task 1, both handled by the server in
      that order. If the answers arrive in order the page stays in sync; if the
      delete's answer arrives first, the late `update` puts task 1 back in the store
      (and in the chart's counts) with no card, although the table no longer has it. */
  lemma ResponsesOutOfOrder()
    ensures var w := World(Server.Table(map[1 := Server.Row("a", false)], 1),
                           map[1 := Task(1, "a", false)], [Card(1, "a", false, false)]);
      var put := Server.Modify(w.db, 1, Server.TaskUpdate(None, Some(true)));
      var del := Server.Remove(put.db, 1);
      var inOrder := Deliver(Deliver(w.(db := del.db), Update(put.response.value)), Delete(1));
      var swapped := Deliver(Deliver(w.(db := del.db), Delete(1)), Update(put.response.value));
      && InSync(w)
      && InSync(inOrder)
      && 1 !in del.db.rows && 1 in swapped.store && swapped.cards == []
      && !InSync(swapped)
  {
    var w := World(Server.Table(map[1 := Server.Row("a", false)], 1),
                   map[1 := Task(1, "a", false)], [Card(1, "a", false, false)]);
    assert w.cards[0].id == 1;
    assert CardIds(w.cards) == {1};
    assert Mirrors(w.cards, w.store);
    assert w.store == TableView(w.db);
    var put := Server.Modify(w.db, 1, Server.TaskUpdate(None, Some(true)));
    var del := Server.Remove(put.db, 1);
    var t := put.response.value;
    var mid := Deliver(w.(db := del.db), Update(t));
    assert mid.cards == [Card(1, "a", true, true)];
    var inOrder := Deliver(mid, Delete(1));
    assert inOrder.cards == [];
    assert inOrder.store == map[];
    assert TableView(del.db) == map[];
    var swapped := Deliver(Deliver(w.(db := del.db), Delete(1)), Update(t));
    assert swapped.cards == [];
  }
}
