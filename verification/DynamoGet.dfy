/** `pkg/awsbatch/dynamodbbatch/batch_get_item.go`: reading any number of keys, grouped by table, in requests
    of at most 100.  The code follows the loop as a function, for any sharing of objects between tables. */
module DynamoGet {
  import opened DynamoTables
  import opened DynamoLoop

  type Row = string

  /** The service pages through a request by itself; it reports an error or delivers pages of rows. */
  class Client {
    ghost var requests: seq<PerTable<Key>>
    ghost var delivered: seq<PerTable<Row>>
    ghost var answers: seq<bool>

    method BatchGetItemPages(requestItems: Items) returns (ok: bool, pages: seq<PerTable<Row>>)
      modifies this
      ensures requests == old(requests) + [Contents(requestItems, HoldingsOf(requestItems))]
      ensures delivered == old(delivered) + pages && answers == old(answers) + [ok]
    {
      ok := *;
      pages := *;
      requests := requests + [Contents(requestItems, HoldingsOf(requestItems))];
      delivered, answers := delivered + pages, answers + [ok];
    }
  }

  class Input {
    var requestItems: Items
  }

  /** The result per table is the concatenation of the delivered pages. */
  ghost predicate Collects(result: PerTable<Row>, pages: seq<PerTable<Row>>)
  {
    forall t :: CollectsTable(result, pages, t)
  }

  ghost predicate CollectsTable(result: PerTable<Row>, pages: seq<PerTable<Row>>, t: string)
  {
    Get(result, t) == Sent(pages, t)
  }

  /** `updateResult`: the rows of a page are appended table by table, the tables coming in any order. */
  method UpdateResult(result0: PerTable<Row>, page: PerTable<Row>) returns (result: PerTable<Row>)
    ensures forall t :: Get(result, t) == Get(result0, t) + Get(page, t)
  {
    result := result0;
    var rest := page.Keys;
    while rest != {}
      invariant rest <= page.Keys
      invariant forall t :: Get(result, t) == Get(result0, t) + (if t in rest then [] else Get(page, t))
      decreases rest
    {
      var t :| t in rest;
      result := result[t := Get(result, t) + page[t]];
      rest := rest - {t};
    }
  }

  lemma CollectsSnoc(result: PerTable<Row>, pages: seq<PerTable<Row>>, page: PerTable<Row>, result': PerTable<Row>)
    requires Collects(result, pages) && forall t :: Get(result', t) == Get(result, t) + Get(page, t)
    ensures Collects(result', pages + [page])
  {
    forall t
      ensures CollectsTable(result', pages + [page], t)
    {
      assert CollectsTable(result, pages, t);
      SentSnoc(pages, page, t);
    }
  }

  /** The callback on every page of one call. */
  method CollectPages(result0: PerTable<Row>, pages: seq<PerTable<Row>>, ghost before: seq<PerTable<Row>>)
    returns (result: PerTable<Row>)
    requires Collects(result0, before)
    ensures Collects(result, before + pages)
  {
    result := result0;
    var p := 0;
    assert before + pages[..0] == before;
    while p < |pages|
      invariant 0 <= p <= |pages| && Collects(result, before + pages[..p])
    {
      ghost var soFar := result;
      result := UpdateResult(result, pages[p]);
      CollectsSnoc(soFar, before + pages[..p], pages[p], result);
      assert before + pages[..p + 1] == before + pages[..p] + [pages[p]];
      p := p + 1;
    }
    assert pages[..p] == pages;
  }

  /** The heap is where the loop stands. */
  ghost predicate Mirrors(client: Client, input: Input, all: Items, l: Loop, log: seq<PerTable<Key>>)
    reads client, input, all.Values
  {
    && Over(all, l) && client.requests == log + l.sent && HoldingsOf(all) == l.held
    && input.requestItems == map t | t in l.request :: all[t]
  }

  /** One key into the request: the table's object is put back with its keys cleared, then gets the key. */
  method Push(client: Client, input: Input, allItems: Items, tableName: string, key: Key, ghost l: Loop,
      ghost log: seq<PerTable<Key>>)
    requires Mirrors(client, input, allItems, l, log) && tableName in allItems
    modifies input, allItems[tableName]
    ensures Mirrors(client, input, allItems, PushKey(allItems, l, tableName, key), log)
  {
    ghost var o := allItems[tableName];
    assert l.held[o] == o.keys;
    if tableName !in input.requestItems {
      input.requestItems := input.requestItems[tableName := allItems[tableName]];
      input.requestItems[tableName].keys := [];
    }
    input.requestItems[tableName].keys := input.requestItems[tableName].keys + [key];
  }

  /** What the service had delivered and answered when the call began. */
  datatype Begin = Begin(delivered: seq<PerTable<Row>>, answers: seq<bool>)

  /** The pages delivered since the call began are in the result, and no request has failed. */
  ghost predicate Gathers(client: Client, result: PerTable<Row>, begin: Begin)
    reads client
  {
    && begin.delivered <= client.delivered && Collects(result, client.delivered[|begin.delivered|..])
    && begin.answers <= client.answers && forall k | |begin.answers| <= k < |client.answers| :: client.answers[k]
  }

  /** The last request has failed, and no other one. */
  ghost predicate LastFailed(client: Client, begin: Begin)
    reads client
  {
    && begin.answers < client.answers && !client.answers[|client.answers| - 1]
    && forall k | |begin.answers| <= k < |client.answers| - 1 :: client.answers[k]
  }

  /** Sends the pending request; on success the next one starts empty. */
  method Flush(client: Client, input: Input, allItems: Items, result0: PerTable<Row>, ghost l: Loop,
      ghost log: seq<PerTable<Key>>, ghost begin: Begin)
    returns (ok: bool, result: PerTable<Row>)
    requires Mirrors(client, input, allItems, l, log) && Gathers(client, result0, begin)
    modifies client, input
    ensures client.requests == log + Flushed(allItems, l).sent
    ensures ok ==> Mirrors(client, input, allItems, Flushed(allItems, l), log) && Gathers(client, result, begin)
    ensures !ok ==> LastFailed(client, begin)
  {
    ghost var before := client.delivered;
    RequestIsPending(input.requestItems, allItems, l);
    var pages;
    ok, pages := client.BatchGetItemPages(input.requestItems);
    result := result0;
    if ok {
      result := CollectPages(result0, pages, before[|begin.delivered|..]);
      assert client.delivered[|begin.delivered|..] == before[|begin.delivered|..] + pages;
      input.requestItems := map[];
    }
  }

  lemma RequestIsPending(request: Items, all: Items, l: Loop)
    requires Over(all, l) && HoldingsOf(all) == l.held && request == map t | t in l.request :: all[t]
    ensures Contents(request, HoldingsOf(request)) == Pending(all, l)
  {
  }

  /** One key; a full request is sent. */
  method AddKey(client: Client, input: Input, allItems: Items, tableName: string, key: Key, itemCount: nat,
      result0: PerTable<Row>, ghost l: Loop, ghost log: seq<PerTable<Key>>, ghost begin: Begin)
    returns (ok: bool, count: nat, result: PerTable<Row>)
    requires tableName in allItems && itemCount == l.count
    requires Mirrors(client, input, allItems, l, log) && Gathers(client, result0, begin)
    modifies client, input, allItems[tableName]
    ensures
      var m := TakeKey(allItems, l, tableName, key);
      && client.requests == log + m.sent
      && (ok ==> Mirrors(client, input, allItems, m, log) && Gathers(client, result, begin) && count == m.count)
      && (!ok ==> Begun(log, client.requests, m.sent) && LastFailed(client, begin))
  {
    Push(client, input, allItems, tableName, key, l, log);
    ok, count, result := true, itemCount + 1, result0;
    if count == MAX_BATCH_GET_ITEMS {
      ok, result := Flush(
        client, input, allItems, result, PushKey(allItems, l, tableName, key), log, begin);
      count := 0;
    }
  }

  lemma OneKeyMore(all: Items, l: Loop, t: string, keys: seq<Key>, i: nat)
    requires Over(all, l) && t in all && i < |keys|
    ensures TakeKeys(all, l, t, keys[..i + 1]) == TakeKey(all, TakeKeys(all, l, t, keys[..i]), t, keys[i])
  {
    assert keys[..i + 1][..i] == keys[..i];
  }

  lemma KeysStopped(all: Items, l: Loop, t: string, keys: seq<Key>, i: nat, log: seq<PerTable<Key>>,
      requests: seq<PerTable<Key>>)
    requires Over(all, l) && t in all && i <= |keys|
    requires Begun(log, requests, TakeKeys(all, l, t, keys[..i]).sent)
    ensures Begun(log, requests, TakeKeys(all, l, t, keys).sent)
  {
    KeysGrow(all, l, t, keys, i);
    StillBegun(log, requests, TakeKeys(all, l, t, keys[..i]), TakeKeys(all, l, t, keys));
  }

  /** All keys of one table: the slice of keys is read once, before the object is touched. */
  method AddTable(client: Client, input: Input, allItems: Items, tableName: string, itemCount: nat,
      result0: PerTable<Row>, ghost l: Loop, ghost log: seq<PerTable<Key>>, ghost begin: Begin)
    returns (ok: bool, count: nat, result: PerTable<Row>)
    requires tableName in allItems && itemCount == l.count
    requires Mirrors(client, input, allItems, l, log) && Gathers(client, result0, begin)
    modifies client, input, allItems[tableName]
    ensures
      var m := TakeKeys(allItems, l, tableName, l.held[allItems[tableName]]);
      && (ok ==> Mirrors(client, input, allItems, m, log) && Gathers(client, result, begin) && count == m.count)
      && (!ok ==> Begun(log, client.requests, m.sent) && LastFailed(client, begin))
  {
    var keys, i := allItems[tableName].keys, 0;
    ok, count, result := true, itemCount, result0;
    while i < |keys|
      invariant 0 <= i <= |keys|
      invariant Mirrors(client, input, allItems, TakeKeys(allItems, l, tableName, keys[..i]), log)
      invariant Gathers(client, result, begin) && count == TakeKeys(allItems, l, tableName, keys[..i]).count
    {
      ghost var m := TakeKeys(allItems, l, tableName, keys[..i]);
      OneKeyMore(allItems, l, tableName, keys, i);
      ok, count, result := AddKey(client, input, allItems, tableName, keys[i], count, result, m, log, begin);
      i := i + 1;
      if !ok {
        KeysStopped(allItems, l, tableName, keys, i, log, client.requests);
        return;
      }
    }
    assert keys[..i] == keys;
    ok := true;
  }

  /** The tables taken so far and those in `rest` are all of them. */
  ghost predicate Underway(order: seq<string>, rest: set<string>, tables: set<string>)
  {
    rest <= tables && Lists(order, tables - rest)
  }

  lemma OneTableMore(order: seq<string>, rest: set<string>, tables: set<string>, t: string)
    requires Underway(order, rest, tables) && t in rest
    ensures Underway(order + [t], rest - {t}, tables)
  {
    assert tables - (rest - {t}) == (tables - rest) + {t};
  }

  lemma SomeCompletion(order: seq<string>, rest: set<string>, tables: set<string>) returns (whole: seq<string>)
    requires Underway(order, rest, tables)
    ensures Lists(whole, tables) && order <= whole
  {
    var more := SomeOrder(rest);
    whole := order + more;
    forall i, j | 0 <= i < j < |whole|
      ensures whole[i] != whole[j]
    {
      assert i < |order| ==> whole[i] in order;
      assert j >= |order| ==> whole[j] in more;
      assert i >= |order| ==> whole[i] == more[i - |order|] && whole[j] == more[j - |order|];
    }
  }

  lemma StoppedEarly(all: Items, held: Holdings, order: seq<string>, rest: set<string>, log: seq<PerTable<Key>>,
      requests: seq<PerTable<Key>>) returns (whole: seq<string>)
    requires held.Keys == all.Values && Underway(order, rest, all.Keys)
    requires Begun(log, requests, TakeTables(all, Loop(held, {}, 0, []), order).sent)
    ensures Lists(whole, all.Keys) && Begun(log, requests, Plan(all, held, whole))
  {
    whole := SomeCompletion(order, rest, all.Keys);
    var start := Loop(held, {}, 0, []);
    assert whole[..|order|] == order;
    TablesGrow(all, start, whole, |order|);
    var l := TakeTables(all, start, whole);
    StillBegun(log, requests, TakeTables(all, start, order), l);
    StillBegun(log, requests, l, Flushed(all, l));
  }

  /** The requests are those of the plan for this order of the tables, or after an error a beginning of them. */
  ghost predicate Follows(all: Items, held: Holdings, order: seq<string>, ok: bool, log: seq<PerTable<Key>>,
      requests: seq<PerTable<Key>>)
  {
    && held.Keys == all.Values && Lists(order, all.Keys)
    && if ok then requests == log + Plan(all, held, order) else Begun(log, requests, Plan(all, held, order))
  }

  /** The requests sent ask for every key once, in order, and each is within the limits; after an error they ask for a
      beginning of every table's keys. */
  ghost predicate Asks(all: Items, held: Holdings, ok: bool, log: seq<PerTable<Key>>, requests: seq<PerTable<Key>>)
    requires all.Values <= held.Keys
  {
    && log <= requests && Limited(requests[|log|..]) && AsksBeginning(requests[|log|..], Contents(all, held))
    && (ok ==> AsksAll(requests[|log|..], Contents(all, held)))
  }

  lemma FollowsAsks(all: Items, held: Holdings, order: seq<string>, ok: bool, log: seq<PerTable<Key>>,
      requests: seq<PerTable<Key>>)
    requires Follows(all, held, order, ok, log, requests)
    requires OwnObjects(all) || Total(Contents(all, held)) <= MAX_BATCH_GET_ITEMS
    ensures Asks(all, held, ok, log, requests)
  {
    var plan, n := Plan(all, held, order), |requests| - |log|;
    if OwnObjects(all) {
      OwnAsksAll(all, held, order);
    } else {
      SmallAsksAll(all, held, order);
    }
    assert requests[|log|..] == plan[..n];
    assert ok ==> plan[..n] == plan;
    forall t
      ensures Sent(plan[..n], t) <= Get(Contents(all, held), t)
    {
      SentPrefix(plan, n, t);
      assert BooksTable(plan, map[], Contents(all, held), t);
    }
  }

  lemma Concluded(all: Items, held: Holdings, order: seq<string>, ok: bool, log: seq<PerTable<Key>>,
      requests: seq<PerTable<Key>>)
    requires held.Keys == all.Values && Lists(order, all.Keys)
    requires Begun(log, requests, Plan(all, held, order)) || requests == log + Plan(all, held, order)
    requires ok ==> requests == log + Plan(all, held, order)
    requires !ok ==> log < requests
    ensures Follows(all, held, order, ok, log, requests)
    ensures OwnObjects(all) || Total(Contents(all, held)) <= MAX_BATCH_GET_ITEMS ==>
      Asks(all, held, ok, log, requests)
  {
    assert Follows(all, held, order, ok, log, requests);
    if OwnObjects(all) || Total(Contents(all, held)) <= MAX_BATCH_GET_ITEMS {
      FollowsAsks(all, held, order, ok, log, requests);
    }
  }

  /** `BatchGetItem`.  The requests are those of the plan, for some order of the tables; after an error, a beginning of
      them.  If every table has an object of its own, or there are at most 100 keys, the requests ask for every key.
      On success the result per table is the concatenation of all pages delivered. */
  method BatchGetItem(client: Client, input: Input) returns (ok: bool, result: PerTable<Row>, ghost order: seq<string>)
    modifies client, input, input.requestItems.Values
    ensures Follows(old(input.requestItems), old(HoldingsOf(input.requestItems)), order, ok,
      old(client.requests), client.requests)
    ensures
      var all, held := old(input.requestItems), old(HoldingsOf(input.requestItems));
      OwnObjects(all) || Total(Contents(all, held)) <= MAX_BATCH_GET_ITEMS ==>
        Asks(all, held, ok, old(client.requests), client.requests)
    ensures ok ==> Gathers(client, result, Begin(old(client.delivered), old(client.answers)))
    ensures !ok ==> LastFailed(client, Begin(old(client.delivered), old(client.answers)))
  {
    var allItems := input.requestItems;
    ghost var log, begin := client.requests, Begin(client.delivered, client.answers);
    ghost var l := Loop(HoldingsOf(allItems), {}, 0, []);
    ghost var start := l;
    input.requestItems := map[];
    var itemCount := 0;
    result, ok, order := map[], true, [];
    var rest := allItems.Keys;
    while rest != {}
      invariant Underway(order, rest, allItems.Keys) && l == TakeTables(allItems, start, order)
      invariant Mirrors(client, input, allItems, l, log) && Gathers(client, result, begin) && itemCount == l.count
      decreases rest
    {
      var tableName :| tableName in rest;
      OneTableMore(order, rest, allItems.Keys, tableName);
      assert (order + [tableName])[..|order|] == order;
      ok, itemCount, result := AddTable(client, input, allItems, tableName, itemCount, result, l, log, begin);
      order, rest := order + [tableName], rest - {tableName};
      l := TakeTables(allItems, start, order);
      if !ok {
        order := StoppedEarly(allItems, start.held, order, rest, log, client.requests);
        Concluded(allItems, start.held, order, ok, log, client.requests);
        return;
      }
    }
    ok := true;
    if itemCount > 0 {
      ok, result := Flush(client, input, allItems, result, l, log, begin);
    }
    assert client.requests == log + Plan(allItems, start.held, order);
    Concluded(allItems, start.held, order, ok, log, client.requests);
  }
}
