/** The loop of `pkg/awsbatch/dynamodbbatch/batch_get_item.go` as a function of what the objects hold, for any
    sharing of objects between tables. The request map is refilled with the very objects the loop runs over, so the
    keys of an object are cleared and rebuilt while its own old keys are being read. */
module DynamoLoop {
  import opened DynamoTables

  const MAX_BATCH_GET_ITEMS: nat := 100

  type Key = string

  class KeysAndAttributes {
    var keys: seq<Key>
    const attributes: string
  }

  type Items = map<string, KeysAndAttributes>
  type Holdings = map<KeysAndAttributes, seq<Key>>

  /** What the objects of a request map hold. */
  ghost function HoldingsOf(m: Items): Holdings
    reads m.Values
  {
    map o | o in m.Values :: o.keys
  }

  /** The keys of each table. */
  ghost function Contents(m: Items, held: Holdings): PerTable<Key>
    requires m.Values <= held.Keys
  {
    map t | t in m :: held[m[t]]
  }

  /** Each table has an object of its own. */
  ghost predicate OwnObjects(m: Items)
  {
    forall t, u | t in m && u in m && t != u :: m[t] != m[u]
  }

  /** What the requests asked of a table, in order. */
  ghost function Sent<T>(requests: seq<PerTable<T>>, t: string): seq<T>
  {
    if requests == [] then [] else Sent(requests[..|requests| - 1], t) + Get(requests[|requests| - 1], t)
  }

  lemma SentSnoc<T>(requests: seq<PerTable<T>>, r: PerTable<T>, t: string)
    ensures Sent(requests + [r], t) == Sent(requests, t) + Get(r, t)
  {
    assert (requests + [r])[..|requests|] == requests;
  }

  // ---------------------------------------------------------------- the loop as a function of what the objects hold

  /** Where the loop stands: what the objects hold, the tables of the current request, its item count, and the requests
      sent so far. */
  datatype Loop = Loop(held: Holdings, request: set<string>, count: nat, sent: seq<PerTable<Key>>)

  ghost predicate Over(all: Items, l: Loop) { l.held.Keys == all.Values && l.request <= all.Keys }

  /** The one has sent what the other has, and perhaps more. */
  ghost predicate Later(l: Loop, m: Loop) { l.sent <= m.sent }

  /** Something was sent, and nothing that the loop does not send. */
  ghost predicate Begun(log: seq<PerTable<Key>>, requests: seq<PerTable<Key>>, sent: seq<PerTable<Key>>)
  {
    log < requests <= log + sent
  }

  lemma StillBegun(log: seq<PerTable<Key>>, requests: seq<PerTable<Key>>, l: Loop, m: Loop)
    requires Begun(log, requests, l.sent) && Later(l, m)
    ensures Begun(log, requests, m.sent)
  {
    assert (log + m.sent)[..|log + l.sent|] == log + l.sent;
  }

  /** What the current request asks. */
  ghost function Pending(all: Items, l: Loop): PerTable<Key>
    requires Over(all, l)
  {
    map t | t in l.request :: l.held[all[t]]
  }

  /** A table that is new to the request is put there with its object's keys cleared; then the object gets the key. */
  ghost function PushKey(all: Items, l: Loop, t: string, key: Key): (m: Loop)
    requires Over(all, l) && t in all
    ensures Over(all, m)
  {
    Loop(l.held[all[t] := (if t in l.request then l.held[all[t]] else []) + [key]], l.request + {t}, l.count + 1,
      l.sent)
  }

  /** The current request is sent. */
  ghost function Flushed(all: Items, l: Loop): (m: Loop)
    requires Over(all, l)
    ensures Over(all, m)
  {
    Loop(l.held, {}, 0, l.sent + [Pending(all, l)])
  }

  /** A full request is sent. */
  ghost function Closed(all: Items, l: Loop): (m: Loop)
    requires Over(all, l)
    ensures Over(all, m) && Later(l, m)
  {
    if l.count == MAX_BATCH_GET_ITEMS then Flushed(all, l) else l
  }

  ghost function TakeKey(all: Items, l: Loop, t: string, key: Key): (m: Loop)
    requires Over(all, l) && t in all
    ensures Over(all, m) && Later(l, m)
  {
    Closed(all, PushKey(all, l, t, key))
  }

  /** The inner loop over the keys of a table. */
  ghost function TakeKeys(all: Items, l: Loop, t: string, keys: seq<Key>): (m: Loop)
    requires Over(all, l) && t in all
    ensures Over(all, m) && Later(l, m)
  {
    if keys == [] then l else TakeKey(all, TakeKeys(all, l, t, keys[..|keys| - 1]), t, keys[|keys| - 1])
  }

  /** The outer loop, which reads a table's keys when it comes to the table. */
  ghost function TakeTables(all: Items, l: Loop, order: seq<string>): (m: Loop)
    requires Over(all, l) && forall t | t in order :: t in all
    ensures Over(all, m) && Later(l, m)
  {
    if order == [] then l
    else
      var m, t := TakeTables(all, l, order[..|order| - 1]), order[|order| - 1];
      TakeKeys(all, m, t, m.held[all[t]])
  }

  /** All requests of a call that meets no error, with the tables in the given order. */
  ghost function Plan(all: Items, held: Holdings, order: seq<string>): seq<PerTable<Key>>
    requires held.Keys == all.Values && forall t | t in order :: t in all
  {
    var l := TakeTables(all, Loop(held, {}, 0, []), order);
    if l.count > 0 then Flushed(all, l).sent else l.sent
  }

  ghost predicate Distinct(order: seq<string>) { forall i, j | 0 <= i < j < |order| :: order[i] != order[j] }

  /** The tables, each once. */
  ghost predicate Lists(order: seq<string>, tables: set<string>)
  {
    Distinct(order) && forall t :: t in order <==> t in tables
  }

  lemma {:induction false} SomeOrder(tables: set<string>) returns (order: seq<string>)
    ensures Lists(order, tables)
  {
    order := [];
    if t :| t in tables {
      order := SomeOrder(tables - {t});
      order := order + [t];
    }
  }

  lemma {:induction false} KeysGrow(all: Items, l: Loop, t: string, keys: seq<Key>, i: nat)
    requires Over(all, l) && t in all && i <= |keys|
    ensures Later(TakeKeys(all, l, t, keys[..i]), TakeKeys(all, l, t, keys))
  {
    if i == |keys| {
      assert keys[..i] == keys;
    } else {
      var front := keys[..|keys| - 1];
      KeysGrow(all, l, t, front, i);
      assert keys[..i] == front[..i];
    }
  }

  lemma {:induction false} TablesGrow(all: Items, l: Loop, order: seq<string>, i: nat)
    requires Over(all, l) && i <= |order| && forall t | t in order :: t in all
    ensures Later(TakeTables(all, l, order[..i]), TakeTables(all, l, order))
  {
    if i == |order| {
      assert order[..i] == order;
    } else {
      var front, last := order[..|order| - 1], order[|order| - 1];
      TablesGrow(all, l, front, i);
      assert order[..i] == front[..i];
      var m := TakeTables(all, l, front);
      assert TakeTables(all, l, order) == TakeKeys(all, m, last, m.held[all[last]]);
    }
  }

  // ---------------------------------------------------------------- what a plan asks for

  ghost predicate WithinLimits(request: PerTable<Key>) { 1 <= Total(request) <= 100 }
  ghost predicate Limited(sent: seq<PerTable<Key>>) { forall r | r in sent :: WithinLimits(r) }

  /** Requests of exactly 100 keys. */
  ghost predicate Full(sent: seq<PerTable<Key>>) { forall r | r in sent :: Total(r) == 100 }

  /** All requests but the last are full. */
  ghost predicate Packed(sent: seq<PerTable<Key>>)
  {
    Limited(sent) && (sent != [] ==> Full(sent[..|sent| - 1]))
  }

  /** What was sent and what is pending make up, in order, what was taken from the input. */
  ghost predicate Books(sent: seq<PerTable<Key>>, pending: PerTable<Key>, moved: PerTable<Key>)
  {
    forall t :: BooksTable(sent, pending, moved, t)
  }

  ghost predicate BooksTable(sent: seq<PerTable<Key>>, pending: PerTable<Key>, moved: PerTable<Key>, t: string)
  {
    Sent(sent, t) + Get(pending, t) == Get(moved, t)
  }

  lemma BooksPush(sent: seq<PerTable<Key>>, pending: PerTable<Key>, moved: PerTable<Key>, t: string, key: Key)
    requires Books(sent, pending, moved)
    ensures Books(sent, pending[t := Get(pending, t) + [key]], moved[t := Get(moved, t) + [key]])
  {
    var pending', moved' := pending[t := Get(pending, t) + [key]], moved[t := Get(moved, t) + [key]];
    forall u
      ensures BooksTable(sent, pending', moved', u)
    {
      assert BooksTable(sent, pending, moved, u);
    }
  }

  lemma BooksSend(sent: seq<PerTable<Key>>, pending: PerTable<Key>, moved: PerTable<Key>)
    requires Books(sent, pending, moved)
    ensures Books(sent + [pending], map[], moved)
  {
    forall t
      ensures BooksTable(sent + [pending], map[], moved, t)
    {
      SentSnoc(sent, pending, t);
      assert BooksTable(sent, pending, moved, t);
    }
  }

  /** The requests ask of every table exactly its keys, in order. */
  ghost predicate AsksAll(sent: seq<PerTable<Key>>, original: PerTable<Key>)
  {
    forall t :: BooksTable(sent, map[], original, t)
  }

  /** The requests ask of every table a beginning of its keys. */
  ghost predicate AsksBeginning(sent: seq<PerTable<Key>>, original: PerTable<Key>)
  {
    forall t :: Sent(sent, t) <= Get(original, t)
  }

  lemma {:induction false} SentPrefix(sent: seq<PerTable<Key>>, n: nat, t: string)
    requires n <= |sent|
    ensures Sent(sent[..n], t) <= Sent(sent, t)
  {
    if n == |sent| {
      assert sent[..n] == sent;
    } else {
      var front := sent[..|sent| - 1];
      SentPrefix(front, n, t);
      assert sent[..n] == front[..n];
    }
  }

  // ---------------------------------------------------------------- objects of one's own

  /** The books agree, every request was within the limits, and so is the current one. */
  ghost predicate Sound(all: Items, l: Loop, moved: PerTable<Key>)
  {
    && Over(all, l) && Full(l.sent) && Books(l.sent, Pending(all, l), moved)
    && l.count == Total(Pending(all, l)) < MAX_BATCH_GET_ITEMS
  }

  lemma OwnPush(all: Items, l: Loop, t: string, key: Key)
    requires OwnObjects(all) && Over(all, l) && t in all
    ensures Pending(all, PushKey(all, l, t, key)) == Pending(all, l)[t := Get(Pending(all, l), t) + [key]]
  {
  }

  lemma FlushSound(all: Items, l: Loop, moved: PerTable<Key>)
    requires Over(all, l) && Full(l.sent) && Books(l.sent, Pending(all, l), moved) && Total(Pending(all, l)) == 100
    ensures Sound(all, Flushed(all, l), moved)
  {
    BooksSend(l.sent, Pending(all, l), moved);
    assert Pending(all, Flushed(all, l)) == map[];
    TotalEmpty<Key>(map[]);
  }

  lemma TakeKeySound(all: Items, l: Loop, moved: PerTable<Key>, t: string, key: Key)
    requires OwnObjects(all) && Sound(all, l, moved) && t in all
    ensures Sound(all, TakeKey(all, l, t, key), moved[t := Get(moved, t) + [key]])
  {
    var m := PushKey(all, l, t, key);
    OwnPush(all, l, t, key);
    BooksPush(l.sent, Pending(all, l), moved, t, key);
    TotalPush(Pending(all, l), t, key);
    if m.count == MAX_BATCH_GET_ITEMS {
      FlushSound(all, m, moved[t := Get(moved, t) + [key]]);
    }
  }

  /** Taking the keys of one table leaves other objects as they are. */
  lemma {:induction false} KeysFrame(all: Items, l: Loop, t: string, keys: seq<Key>, u: string)
    requires Over(all, l) && t in all && u in all && all[u] != all[t]
    ensures TakeKeys(all, l, t, keys).held[all[u]] == l.held[all[u]]
  {
    if keys != [] {
      KeysFrame(all, l, t, keys[..|keys| - 1], u);
    }
  }

  lemma {:induction false} TakeKeysSound(all: Items, l: Loop, moved0: PerTable<Key>, t: string, keys: seq<Key>)
    returns (moved: PerTable<Key>)
    requires OwnObjects(all) && Sound(all, l, moved0) && t in all && Get(moved0, t) == []
    ensures Sound(all, TakeKeys(all, l, t, keys), moved) && Extends(moved0, moved, t, keys)
  {
    moved := moved0;
    if keys != [] {
      var n := |keys| - 1;
      moved := TakeKeysSound(all, l, moved0, t, keys[..n]);
      TakeKeySound(all, TakeKeys(all, l, t, keys[..n]), moved, t, keys[n]);
      ExtendsPush(moved0, moved, t, keys[..n], keys[n]);
      moved := moved[t := Get(moved, t) + [keys[n]]];
      assert keys[..n] + [keys[n]] == keys;
    }
  }

  /** The keys of these tables, and of no others, have been taken. */
  ghost predicate Taken(original: PerTable<Key>, moved: PerTable<Key>, order: seq<string>)
  {
    forall t :: TakenTable(original, moved, order, t)
  }

  ghost predicate TakenTable(original: PerTable<Key>, moved: PerTable<Key>, order: seq<string>, t: string)
  {
    Get(moved, t) == if t in order then Get(original, t) else []
  }

  lemma TableTaken(original: PerTable<Key>, before: PerTable<Key>, moved: PerTable<Key>, order: seq<string>,
      table: string)
    requires Taken(original, before, order) && Extends(before, moved, table, Get(original, table))
    ensures Taken(original, moved, order + [table])
  {
    forall t
      ensures TakenTable(original, moved, order + [table], t)
    {
      assert TakenTable(original, before, order, t);
      assert t != table ==> SameTable(before, moved, t);
    }
  }

  /** The tables not yet taken have their objects as at the start. */
  ghost predicate RestUntouched(all: Items, held: Holdings, l: Loop, order: seq<string>)
  {
    forall u | u in all && u !in order :: all[u] in held && all[u] in l.held && l.held[all[u]] == held[all[u]]
  }

  lemma {:induction false} TakeTablesSound(all: Items, held: Holdings, order: seq<string>)
      returns (moved: PerTable<Key>)
    requires OwnObjects(all) && held.Keys == all.Values && Distinct(order) && forall t | t in order :: t in all
    ensures
      var l := TakeTables(all, Loop(held, {}, 0, []), order);
      Sound(all, l, moved) && Taken(Contents(all, held), moved, order) && RestUntouched(all, held, l, order)
  {
    var start := Loop(held, {}, 0, []);
    moved := map[];
    if order == [] {
      assert Pending(all, start) == map[];
      TotalEmpty<Key>(map[]);
    } else {
      var front, t := order[..|order| - 1], order[|order| - 1];
      assert order == front + [t];
      var before := TakeTablesSound(all, held, front);
      var l := TakeTables(all, start, front);
      moved := OneTableSound(all, held, l, before, front, t);
    }
  }

  lemma OneTableSound(all: Items, held: Holdings, l: Loop, before: PerTable<Key>, front: seq<string>, t: string)
    returns (moved: PerTable<Key>)
    requires OwnObjects(all) && held.Keys == all.Values && t in all && t !in front
    requires Sound(all, l, before) && Taken(Contents(all, held), before, front) && RestUntouched(all, held, l, front)
    ensures
      var m := TakeKeys(all, l, t, l.held[all[t]]);
      Sound(all, m, moved) && Taken(Contents(all, held), moved, front + [t]) && RestUntouched(all, held, m, front + [t])
  {
    var keys := l.held[all[t]];
    assert TakenTable(Contents(all, held), before, front, t);
    moved := TakeKeysSound(all, l, before, t, keys);
    TableTaken(Contents(all, held), before, moved, front, t);
    forall u | u in all && u !in front + [t]
      ensures TakeKeys(all, l, t, keys).held[all[u]] == held[all[u]]
    {
      assert u !in front && all[u] != all[t];
      KeysFrame(all, l, t, keys, u);
    }
  }

  /** If every table has an object of its own, every key is sent in exactly one request, in order, whatever the order of
      the tables, and every request has exactly 100 keys but the last, which has 1 to 100. */
  lemma OwnAsksAll(all: Items, held: Holdings, order: seq<string>)
    requires OwnObjects(all) && held.Keys == all.Values && Lists(order, all.Keys)
    ensures AsksAll(Plan(all, held, order), Contents(all, held)) && Packed(Plan(all, held, order))
  {
    var moved := TakeTablesSound(all, held, order);
    var l := TakeTables(all, Loop(held, {}, 0, []), order);
    PackedPlan(l.sent, Pending(all, l));
    if l.count > 0 {
      BooksSend(l.sent, Pending(all, l), moved);
    } else {
      NothingPending(l.sent, Pending(all, l), moved);
    }
    forall t
      ensures BooksTable(Plan(all, held, order), map[], Contents(all, held), t)
    {
      assert BooksTable(Plan(all, held, order), map[], moved, t);
      assert TakenTable(Contents(all, held), moved, order, t);
    }
  }

  lemma PackedPlan(sent: seq<PerTable<Key>>, pending: PerTable<Key>)
    requires Full(sent)
    ensures Packed(sent) && (WithinLimits(pending) ==> Packed(sent + [pending]))
  {
    assert (sent + [pending])[..|sent|] == sent;
  }

  lemma NothingPending(sent: seq<PerTable<Key>>, pending: PerTable<Key>, moved: PerTable<Key>)
    requires Books(sent, pending, moved) && Total(pending) == 0
    ensures Books(sent, map[], moved)
  {
    TotalEmpty(pending);
    forall t
      ensures BooksTable(sent, map[], moved, t)
    {
      assert BooksTable(sent, pending, moved, t);
    }
  }

  // ---------------------------------------------------------------- shared objects

  /** The loop after the keys of one table, as long as the request is not full. */
  ghost function Held(all: Items, l: Loop, t: string, keys: seq<Key>): Loop
    requires Over(all, l) && t in all
  {
    Loop(l.held[all[t] := keys], l.request + {t}, l.count + |keys|, l.sent)
  }

  lemma PushHeld(all: Items, l: Loop, t: string, keys: seq<Key>, key: Key)
    requires Over(all, l) && t in all
    ensures PushKey(all, Held(all, l, t, keys), t, key) == Held(all, l, t, keys + [key])
    ensures t !in l.request ==> PushKey(all, l, t, key) == Held(all, l, t, [key])
  {
    assert [] + [key] == [key];
    assert l.held[all[t] := keys][all[t] := keys + [key]] == l.held[all[t] := keys + [key]];
  }

  lemma LastKey(all: Items, l: Loop, t: string, keys: seq<Key>)
    requires Over(all, l) && t in all && keys != []
    ensures TakeKeys(all, l, t, keys)
      == Closed(all, PushKey(all, TakeKeys(all, l, t, keys[..|keys| - 1]), t, keys[|keys| - 1]))
  {
  }

  lemma {:induction false} TakeKeysHeld(all: Items, l: Loop, t: string, keys: seq<Key>)
    requires Over(all, l) && t in all && t !in l.request && keys != [] && l.count + |keys| <= MAX_BATCH_GET_ITEMS
    ensures TakeKeys(all, l, t, keys) == Closed(all, Held(all, l, t, keys))
  {
    var front, key := keys[..|keys| - 1], keys[|keys| - 1];
    assert keys == front + [key];
    PushHeld(all, l, t, front, key);
    if front == [] {
      assert TakeKeys(all, l, t, front) == l && keys == [key];
    } else {
      TakeKeysHeld(all, l, t, front);
      assert TakeKeys(all, l, t, front) == Held(all, l, t, front);
    }
    LastKey(all, l, t, keys);
  }

  /** How many keys these tables have. */
  ghost function Size(original: PerTable<Key>, order: seq<string>): nat
  {
    if order == [] then 0 else Size(original, order[..|order| - 1]) + |Get(original, order[|order| - 1])|
  }

  lemma {:induction false} SizeIsTotal(original: PerTable<Key>, order: seq<string>, tables: set<string>)
    requires Lists(order, tables)
    ensures Size(original, order) == TotalOver(original, tables)
  {
    if order == [] {
      assert forall t | t in tables :: t in order;
      assert tables == {};
    } else {
      var front, t := order[..|order| - 1], order[|order| - 1];
      assert order == front + [t];
      assert t in tables;
      assert forall u :: u in front <==> u in tables - {t};
      SizeIsTotal(original, front, tables - {t});
      TotalPick(original, tables, t);
    }
  }

  /** The tables that have keys, with all their keys. */
  ghost function WithKeys(original: PerTable<Key>, order: seq<string>): PerTable<Key>
  {
    map t | t in original && t in order && original[t] != [] :: original[t]
  }

  /** Where the loop stands after these tables if they have at most 100 keys together. */
  ghost function Small(all: Items, held: Holdings, order: seq<string>): Loop
    requires held.Keys == all.Values
  {
    var original := Contents(all, held);
    if Size(original, order) < MAX_BATCH_GET_ITEMS then
      Loop(held, WithKeys(original, order).Keys, Size(original, order), [])
    else Loop(held, {}, 0, [WithKeys(original, order)])
  }

  lemma {:induction false} TakeTablesSmall(all: Items, held: Holdings, order: seq<string>)
    requires held.Keys == all.Values && Distinct(order) && forall t | t in order :: t in all
    requires Size(Contents(all, held), order) <= MAX_BATCH_GET_ITEMS
    ensures TakeTables(all, Loop(held, {}, 0, []), order) == Small(all, held, order)
  {
    if order != [] {
      var front, t := order[..|order| - 1], order[|order| - 1];
      assert order == front + [t];
      TakeTablesSmall(all, held, front);
      OneTableSmall(all, held, front, t);
    } else {
      assert WithKeys(Contents(all, held), order) == map[];
    }
  }

  lemma WithKeysSnoc(original: PerTable<Key>, front: seq<string>, t: string)
    requires t in original
    ensures WithKeys(original, front + [t])
      == if original[t] == [] then WithKeys(original, front) else WithKeys(original, front)[t := original[t]]
    ensures Size(original, front + [t]) == Size(original, front) + |original[t]|
  {
    assert (front + [t])[..|front|] == front;
    assert forall u :: u in front + [t] <==> u in front || u == t;
  }

  lemma PendingSmall(all: Items, held: Holdings, order: seq<string>, count: nat, sent: seq<PerTable<Key>>)
    requires held.Keys == all.Values
    ensures
      var kept := WithKeys(Contents(all, held), order);
      Over(all, Loop(held, kept.Keys, count, sent)) && Pending(all, Loop(held, kept.Keys, count, sent)) == kept
  {
  }

  lemma HeldSmall(all: Items, held: Holdings, front: seq<string>, t: string)
    requires held.Keys == all.Values && t in all && t !in front && held[all[t]] != []
    requires Size(Contents(all, held), front) + |held[all[t]]| <= MAX_BATCH_GET_ITEMS
    ensures
      var original, l := Contents(all, held), Small(all, held, front);
      && Over(all, l) && t !in l.request && l.count == Size(original, front) && l.held == held
      && Held(all, l, t, held[all[t]])
         == Loop(held, WithKeys(original, front + [t]).Keys, Size(original, front + [t]), [])
  {
    WithKeysSnoc(Contents(all, held), front, t);
    assert held[all[t] := held[all[t]]] == held;
  }

  lemma ClosedSmall(all: Items, held: Holdings, order: seq<string>)
    requires held.Keys == all.Values && Size(Contents(all, held), order) <= MAX_BATCH_GET_ITEMS
    ensures
      var original := Contents(all, held);
      var l := Loop(held, WithKeys(original, order).Keys, Size(original, order), []);
      Over(all, l) && Closed(all, l) == Small(all, held, order)
  {
    PendingSmall(all, held, order, Size(Contents(all, held), order), []);
  }

  lemma OneTableSmall(all: Items, held: Holdings, front: seq<string>, t: string)
    requires held.Keys == all.Values && t in all && t !in front && forall u | u in front :: u in all
    requires Size(Contents(all, held), front) + |held[all[t]]| <= MAX_BATCH_GET_ITEMS
    ensures var l := Small(all, held, front);
      Over(all, l) && TakeKeys(all, l, t, l.held[all[t]]) == Small(all, held, front + [t])
  {
    if held[all[t]] == [] {
      WithKeysSnoc(Contents(all, held), front, t);
    } else {
      HeldSmall(all, held, front, t);
      ClosedSmall(all, held, front + [t]);
      TakeKeysHeld(all, Small(all, held, front), t, held[all[t]]);
    }
  }

  lemma PlanFrom(all: Items, held: Holdings, order: seq<string>, l: Loop)
    requires held.Keys == all.Values && (forall t | t in order :: t in all)
    requires l == TakeTables(all, Loop(held, {}, 0, []), order)
    ensures Plan(all, held, order) == l.sent + if l.count > 0 then [Pending(all, l)] else []
  {
  }

  /** If the tables have at most 100 keys together, sharing does no harm: all keys are asked for in one request. */
  lemma SmallPlan(all: Items, held: Holdings, order: seq<string>)
    requires held.Keys == all.Values && Lists(order, all.Keys) && Total(Contents(all, held)) <= MAX_BATCH_GET_ITEMS
    ensures Plan(all, held, order)
      == if Total(Contents(all, held)) == 0 then [] else [WithKeys(Contents(all, held), order)]
  {
    var original := Contents(all, held);
    assert original.Keys == all.Keys;
    SizeIsTotal(original, order, original.Keys);
    TakeTablesSmall(all, held, order);
    PlanFrom(all, held, order, Small(all, held, order));
    PendingSmall(all, held, order, Size(original, order), []);
  }

  lemma SmallAsksAll(all: Items, held: Holdings, order: seq<string>)
    requires held.Keys == all.Values && Lists(order, all.Keys) && Total(Contents(all, held)) <= MAX_BATCH_GET_ITEMS
    ensures AsksAll(Plan(all, held, order), Contents(all, held)) && Limited(Plan(all, held, order))
  {
    var original := Contents(all, held);
    var kept := WithKeys(original, order);
    SmallPlan(all, held, order);
    assert original.Keys == all.Keys;
    KeptIsAll(original, order);
    if Total(original) == 0 {
      TotalEmpty(original);
    } else {
      OneAsksAll(kept, original);
    }
  }

  lemma OneAsksAll(kept: PerTable<Key>, original: PerTable<Key>)
    requires forall t :: Get(kept, t) == Get(original, t)
    ensures AsksAll([kept], original)
  {
    forall t
      ensures BooksTable([kept], map[], original, t)
    {
      SentSnoc([], kept, t);
      assert [] + [kept] == [kept];
    }
  }

  lemma KeptIsAll(original: PerTable<Key>, order: seq<string>)
    requires Lists(order, original.Keys)
    ensures forall t :: Get(WithKeys(original, order), t) == Get(original, t)
    ensures Total(WithKeys(original, order)) == Total(original)
  {
    Balance(WithKeys(original, order), map[], original, map[]);
  }

  lemma {:induction false} TakeKeysSplit(all: Items, l: Loop, t: string, keys: seq<Key>, i: nat)
    requires Over(all, l) && t in all && i <= |keys|
    ensures TakeKeys(all, l, t, keys) == TakeKeys(all, TakeKeys(all, l, t, keys[..i]), t, keys[i..])
  {
    if i == |keys| {
      assert keys[..i] == keys;
    } else {
      var n := |keys| - 1;
      TakeKeysSplit(all, l, t, keys[..n], i);
      Fronts(keys, i);
      LastKey(all, l, t, keys);
      LastKey(all, TakeKeys(all, l, t, keys[..i]), t, keys[i..]);
    }
  }

  lemma Fronts<T>(s: seq<T>, i: nat)
    requires i < |s|
    ensures var n := |s| - 1;
      s[..n][..i] == s[..i] && s[..n][i..] == s[i..][..|s[i..]| - 1] && s[i..][|s[i..]| - 1] == s[n]
  {
  }

  // ---------------------------------------------------------------- two tables that share an object

  /** Two tables that share one object, what the object holds, and a request for both tables. */
  ghost function Pair(o: KeysAndAttributes, first: string, second: string): (all: Items)
    ensures all.Keys == {first, second} && all.Values == {o} && all[first] == all[second] == o
  {
    map[first := o, second := o]
  }

  ghost function Holds(o: KeysAndAttributes, keys: seq<Key>): (held: Holdings)
    ensures held.Keys == {o} && held[o] == keys
  {
    map[o := keys]
  }

  lemma HoldsNow(o: KeysAndAttributes, before: seq<Key>, keys: seq<Key>)
    ensures Holds(o, before)[o := keys] == Holds(o, keys)
  {
  }

  function Both(first: string, second: string, keys: seq<Key>): (request: PerTable<Key>)
    ensures request.Keys == {first, second} && request[first] == request[second] == keys
  {
    map[first := keys, second := keys]
  }

  lemma PendingBoth(o: KeysAndAttributes, first: string, second: string, keys: seq<Key>)
    ensures Pending(Pair(o, first, second), Loop(Holds(o, keys), {first, second}, 100, [])) == Both(first, second, keys)
  {
  }

  /** The loop has come to the end of the pair: the first table's last keys are gone. */
  ghost predicate PairDone(l: Loop, o: KeysAndAttributes, first: string, second: string, keys: seq<Key>, n: nat)
    requires n <= |keys|
  {
    && l.held == Holds(o, keys[n..]) && l.request == {second} && l.count == |keys| - n
    && l.sent == [Both(first, second, keys[..n])]
  }

  lemma PairTaken(o: KeysAndAttributes, first: string, second: string, keys: seq<Key>) returns (m: Loop)
    requires first != second && 50 < |keys| < 100
    ensures m == TakeTables(Pair(o, first, second), Loop(Holds(o, keys), {}, 0, []), [first, second])
    ensures PairDone(m, o, first, second, keys, 100 - |keys|)
  {
    var all, held := Pair(o, first, second), Holds(o, keys);
    var l := FirstOfPair(o, first, second, keys);
    m := TakeKeys(all, l, second, keys);
    SecondOfPair(o, first, second, keys, 100 - |keys|, l);
    TwoTables(all, held, first, second, keys, keys, l, m);
  }

  /** The loop over two tables. */
  lemma TwoTables(
      all: Items, held: Holdings, first: string, second: string, a: seq<Key>, b: seq<Key>, l: Loop, m: Loop)
    requires held.Keys == all.Values && first in all && second in all && a == held[all[first]]
    requires l == TakeKeys(all, Loop(held, {}, 0, []), first, a) && b == l.held[all[second]]
    requires m == TakeKeys(all, l, second, b)
    ensures m == TakeTables(all, Loop(held, {}, 0, []), [first, second])
  {
    assert [first, second][..1] == [first] && [first][..0] == [];
    assert TakeTables(all, Loop(held, {}, 0, []), [first]) == l;
  }

  lemma SecondOfPair(o: KeysAndAttributes, first: string, second: string, keys: seq<Key>, n: nat, l: Loop)
    requires first != second && 50 < |keys| < 100 && n == 100 - |keys|
    requires l == Loop(Holds(o, keys), {first}, |keys|, [])
    ensures PairDone(TakeKeys(Pair(o, first, second), l, second, keys), o, first, second, keys, n)
  {
    var m := PairFull(o, first, second, keys, n, l);
    TakeKeysSplit(Pair(o, first, second), l, second, keys, n);
    RestOfSecond(o, first, second, keys, n, m);
  }

  lemma RestOfSecond(o: KeysAndAttributes, first: string, second: string, keys: seq<Key>, n: nat, m: Loop)
    requires n < |keys| < 100 + n && m == Loop(Holds(o, keys[..n]), {}, 0, [Both(first, second, keys[..n])])
    ensures PairDone(TakeKeys(Pair(o, first, second), m, second, keys[n..]), o, first, second, keys, n)
  {
    TakeKeysHeld(Pair(o, first, second), m, second, keys[n..]);
    HoldsNow(o, keys[..n], keys[n..]);
  }

  lemma PairFull(o: KeysAndAttributes, first: string, second: string, keys: seq<Key>, n: nat, l: Loop)
    returns (m: Loop)
    requires first != second && 50 < |keys| < 100 && n == 100 - |keys|
    requires l == Loop(Holds(o, keys), {first}, |keys|, [])
    ensures m == TakeKeys(Pair(o, first, second), l, second, keys[..n])
    ensures m == Loop(Holds(o, keys[..n]), {}, 0, [Both(first, second, keys[..n])])
  {
    TakeKeysHeld(Pair(o, first, second), l, second, keys[..n]);
    HoldsNow(o, keys, keys[..n]);
    assert Held(Pair(o, first, second), l, second, keys[..n]) == Loop(Holds(o, keys[..n]), {first, second}, 100, []);
    PendingBoth(o, first, second, keys[..n]);
    m := TakeKeys(Pair(o, first, second), l, second, keys[..n]);
  }

  lemma FirstOfPair(o: KeysAndAttributes, first: string, second: string, keys: seq<Key>) returns (l: Loop)
    requires first != second && 0 < |keys| < 100
    ensures l == TakeKeys(Pair(o, first, second), Loop(Holds(o, keys), {}, 0, []), first, keys)
    ensures l == Loop(Holds(o, keys), {first}, |keys|, [])
  {
    var start := Loop(Holds(o, keys), {}, 0, []);
    TakeKeysHeld(Pair(o, first, second), start, first, keys);
    HoldsNow(o, keys, keys);
    l := TakeKeys(Pair(o, first, second), start, first, keys);
  }

  /** At an input: two tables that share one object of 51 to 99 keys. The first request asks for equally many keys of
      both, the second for the rest of the later table, and the rest of the earlier table is never asked for. */
  lemma SharedObjectLosesKeys(o: KeysAndAttributes, first: string, second: string, keys: seq<Key>)
    requires first != second && 50 < |keys| < 100
    ensures
      var all, held, n := Pair(o, first, second), Holds(o, keys), 100 - |keys|;
      var plan := Plan(all, held, [first, second]);
      && plan == [Both(first, second, keys[..n]), map[second := keys[n..]]]
      && Sent(plan, first) == keys[..n] && !AsksAll(plan, Contents(all, held))
  {
    var all, held, n := Pair(o, first, second), Holds(o, keys), 100 - |keys|;
    var plan := PairPlan(o, first, second, keys);
    AskedOfFirst(first, second, keys[..n], keys[n..]);
    assert !BooksTable(plan, map[], Contents(all, held), first);
  }

  lemma PendingSecond(o: KeysAndAttributes, first: string, second: string, rest: seq<Key>, l: Loop)
    requires l.held == Holds(o, rest) && l.request == {second}
    ensures Pending(Pair(o, first, second), l) == map[second := rest]
  {
  }

  lemma PairPlan(o: KeysAndAttributes, first: string, second: string, keys: seq<Key>) returns (plan: seq<PerTable<Key>>)
    requires first != second && 50 < |keys| < 100
    ensures plan == Plan(Pair(o, first, second), Holds(o, keys), [first, second])
    ensures var n := 100 - |keys|; plan == [Both(first, second, keys[..n]), map[second := keys[n..]]]
  {
    var l := PairTaken(o, first, second, keys);
    PendingSecond(o, first, second, keys[100 - |keys|..], l);
    plan := Plan(Pair(o, first, second), Holds(o, keys), [first, second]);
  }

  lemma AskedOfFirst(first: string, second: string, a: seq<Key>, b: seq<Key>)
    requires first != second
    ensures Sent([Both(first, second, a), map[second := b]], first) == a
  {
    var one, two: PerTable<Key> := Both(first, second, a), map[second := b];
    SentSnoc([one], two, first);
    SentSnoc([], one, first);
    assert [one] + [two] == [one, two] && [] + [one] == [one];
  }
}
