/** `pkg/awsbatch/dynamodbbatch/batch_write_item.go`: writing any number of items, grouped by table, in
    requests of at most 25, retrying what came back unprocessed. */
module DynamoWrite {
  import opened Batching
  import opened DynamoTables

  const MAX_BATCH_WRITE_ITEMS: nat := 25

  type Item = string
  type Items = PerTable<Item>
  const NONE: Items := map[]

  /** What DynamoDB answers: an error that may pass, another error, or the items it did not process. */
  datatype Response = TemporarilyUnavailable | OtherError | Reply(unprocessed: Items)

  ghost predicate WithinLimits(request: Items) { 1 <= Total(request) <= 25 }

  ghost predicate LogGrows(before: seq<Items>, after: seq<Items>)
  {
    before <= after && forall k | |before| <= k < |after| :: WithinLimits(after[k])
  }

  lemma LogGrowsThen(a: seq<Items>, b: seq<Items>, c: seq<Items>)
    requires LogGrows(a, b) && LogGrows(b, c)
    ensures LogGrows(a, c)
  {
  }

  /** Table by table, what was accepted and what is pending make up what there was. */
  ghost predicate Balanced(accepted0: Items, pending0: Items, accepted: Items, pending: Items)
  {
    forall t :: Conserved(Get(accepted0, t), Get(pending0, t), Get(accepted, t), Get(pending, t))
  }

  lemma BalancedTotals(accepted0: Items, pending0: Items, accepted: Items, pending: Items)
    requires Balanced(accepted0, pending0, accepted, pending)
    ensures Total(accepted) + Total(pending) == Total(accepted0) + Total(pending0)
  {
    forall t
      ensures |Get(accepted, t)| + |Get(pending, t)| == |Get(accepted0, t)| + |Get(pending0, t)|
    {
      ConservedWithin(Get(accepted0, t), Get(pending0, t), Get(accepted, t), Get(pending, t));
    }
    Balance(accepted, pending, accepted0, pending0);
  }

  lemma BalancedThen(a0: Items, p0: Items, a1: Items, p1: Items, a2: Items, p2: Items)
    requires Balanced(a0, p0, a1, p1) && Balanced(a1, p1, a2, p2)
    ensures Balanced(a0, p0, a2, p2)
  {
  }

  lemma BalancedPush(a0: Items, p0: Items, a: Items, p: Items, t: string, x: Item)
    requires Balanced(a0, p0, a, p)
    ensures Balanced(a0, p0[t := Get(p0, t) + [x]], a, p[t := Get(p, t) + [x]])
  {
    ConservedPush(Get(a0, t), Get(p0, t), Get(a, t), Get(p, t), x);
    forall u
      ensures Conserved(Get(a0, u), Get(p0[t := Get(p0, t) + [x]], u), Get(a, u), Get(p[t := Get(p, t) + [x]], u))
    {
      PushTable(p0, t, x, u);
      PushTable(p, t, x, u);
    }
  }

  lemma PushTable(p: Items, t: string, x: Item, u: string)
    ensures Get(p[t := Get(p, t) + [x]], u) == if u == t then Get(p, t) + [x] else Get(p, u)
  {
  }

  ghost predicate Grows(before: Items, after: Items) { forall t :: Get(before, t) <= Get(after, t) }

  lemma GrowsTotal(before: Items, after: Items)
    requires Grows(before, after)
    ensures Total(before) <= Total(after)
  {
    var added := map t | t in after :: Get(after, t)[|Get(before, t)|..];
    forall t
      ensures |Get(after, t)| + |Get(NONE, t)| == |Get(before, t)| + |Get(added, t)|
    {
      assert Get(before, t) <= Get(after, t);
    }
    Balance(after, NONE, before, added);
  }

  predicate Fit(items: Items, marks: map<string, seq<bool>>)
  {
    marks.Keys == items.Keys && forall t | t in items :: |marks[t]| == |items[t]|
  }

  function Chosen(items: Items, marks: map<string, seq<bool>>, keep: bool): Items
    requires Fit(items, marks)
  {
    map t | t in items && Select(items[t], marks[t], keep) != [] :: Select(items[t], marks[t], keep)
  }

  function Append(a: Items, b: Items): Items
  {
    map t | t in a.Keys + b.Keys :: Get(a, t) + Get(b, t)
  }

  lemma ChosenTable(accepted: Items, items: Items, marks: map<string, seq<bool>>, t: string)
    requires Fit(items, marks)
    ensures Get(Append(accepted, Chosen(items, marks, true)), t)
         == Get(accepted, t) + (if t in items then Select(items[t], marks[t], true) else [])
    ensures Get(Chosen(items, marks, false), t) == if t in items then Select(items[t], marks[t], false) else []
  {
  }

  lemma ChosenBalanced(accepted: Items, items: Items, marks: map<string, seq<bool>>)
    requires Fit(items, marks)
    ensures Balanced(accepted, items, Append(accepted, Chosen(items, marks, true)), Chosen(items, marks, false))
  {
    var accepted', pending := Append(accepted, Chosen(items, marks, true)), Chosen(items, marks, false);
    forall t
      ensures Conserved(Get(accepted, t), Get(items, t), Get(accepted', t), Get(pending, t))
    {
      ChosenTable(accepted, items, marks, t);
      if t in items {
        SplitPending(Get(accepted, t), items[t], marks[t], Select(items[t], marks[t], false));
      }
    }
  }

  /** What an answer amounts to: a busy table and unprocessed items may be tried again. */
  ghost function AnswerOf(r: Response): Attempt
  {
    match r
    case TemporarilyUnavailable => Again
    case OtherError => Permanent
    case Reply(unprocessed) => if unprocessed == map[] then Done else Again
  }

  /** The tables: a call may be refused, and any part of a request may come back unprocessed. */
  class Client {
    ghost var requests: seq<Items>
    ghost var accepted: Items
    ghost var answers: seq<Attempt>

    method BatchWriteItem(items: Items) returns (r: Response)
      modifies this
      ensures requests == old(requests) + [items] && answers == old(answers) + [AnswerOf(r)]
      ensures !r.Reply? ==> accepted == old(accepted)
      ensures r.Reply? ==> Balanced(old(accepted), items, accepted, r.unprocessed)
      ensures r.Reply? ==> Grows(old(accepted), accepted) && forall t | t in r.unprocessed :: r.unprocessed[t] != []
    {
      var answer: int := *;
      var marks: map<string, seq<bool>> := *;
      requests := requests + [items];
      if answer == 0 && Fit(items, marks) {
        r := Reply(Chosen(items, marks, false));
        ChosenBalanced(accepted, items, marks);
        accepted := Append(accepted, Chosen(items, marks, true));
      } else {
        r := if answer == 1 then TemporarilyUnavailable else OtherError;
      }
      answers := answers + [AnswerOf(r)];
    }
  }

  class Input {
    var requestItems: Items
  }

  /** `writeItemCount`: the tables come in any order. */
  method WriteItemCount(m: Items) returns (result: nat)
    ensures result == Total(m)
  {
    result := 0;
    var rest := m.Keys;
    while rest != {}
      invariant rest <= m.Keys && result + TotalOver(m, rest) == Total(m)
      decreases rest
    {
      var t :| t in rest;
      TotalPick(m, rest, t);
      result := result + |m[t]|;
      rest := rest - {t};
    }
  }

  /** `batchWriteRequest`. */
  class Request {
    const client: Client
    const input: Input
    var successCount: int

    constructor (client: Client, input: Input)
      ensures this.client == client && this.input == input && successCount == 0
    {
      this.client, this.input, successCount := client, input, 0;
    }

    /** `send`: one call; afterwards the input holds only what came back unprocessed. */
    method Send() returns (out: Attempt)
      requires Total(input.requestItems) > 0
      modifies this, client, input
      ensures client.requests == old(client.requests) + [old(input.requestItems)]
      ensures client.answers == old(client.answers) + [out]
      ensures successCount - old(successCount) == Total(client.accepted) - Total(old(client.accepted))
      ensures Balanced(old(client.accepted), old(input.requestItems), client.accepted,
        if out.Done? then NONE else input.requestItems)
      ensures !out.Done? ==> 0 < Total(input.requestItems) <= Total(old(input.requestItems))
      ensures Total(old(client.accepted)) <= Total(client.accepted)
    {
      ghost var before, accepted0 := input.requestItems, client.accepted;
      var itemCount := WriteItemCount(input.requestItems);
      var response := client.BatchWriteItem(input.requestItems);
      if !response.Reply? {
        return if response.TemporarilyUnavailable? then Again else Permanent;
      }
      successCount := successCount + itemCount;
      BalancedTotals(accepted0, before, client.accepted, response.unprocessed);
      TotalEmpty(response.unprocessed);
      GrowsTotal(accepted0, client.accepted);
      if |response.unprocessed| > 0 {
        var failedCount := WriteItemCount(response.unprocessed);
        successCount := successCount - failedCount;
        input.requestItems := response.unprocessed;
        assert exists t :: t in response.unprocessed;
        return Again;
      }
      assert response.unprocessed == map[];
      return Done;
    }

    /** `backoff.Retry(request.send, config)`. */
    method Retry(retries: nat) returns (ok: bool)
      requires 1 <= Total(input.requestItems) <= MAX_BATCH_WRITE_ITEMS
      modifies this, client, input
      ensures LogGrows(old(client.requests), client.requests)
      ensures Attempts(old(client.answers), client.answers, ok)
      ensures Patient(old(client.answers), client.answers, retries)
      ensures successCount - old(successCount) == Total(client.accepted) - Total(old(client.accepted))
      ensures Balanced(old(client.accepted), old(input.requestItems), client.accepted,
        if ok then NONE else input.requestItems)
    {
      var attempts := retries;
      ghost var before, accepted0, answers0 := input.requestItems, client.accepted, client.answers;
      while true
        invariant 1 <= Total(input.requestItems) <= MAX_BATCH_WRITE_ITEMS
        invariant LogGrows(old(client.requests), client.requests)
        invariant successCount - old(successCount) == Total(client.accepted) - Total(accepted0)
        invariant Balanced(accepted0, before, client.accepted, input.requestItems)
        invariant |client.answers| - |answers0| + attempts == retries
        invariant answers0 <= client.answers && forall k | |answers0| <= k < |client.answers| ::
          client.answers[k].Again?
        decreases attempts
      {
        ghost var accepted, pending, answers := client.accepted, input.requestItems, client.answers;
        var out := Send();
        AttemptsThen(answers0, answers, out);
        BalancedThen(accepted0, before, accepted, pending, client.accepted,
          if out.Done? then NONE else input.requestItems);
        if out.Done? {
          return true;
        }
        if out.Permanent? || attempts == 0 {
          return false;
        }
        attempts := attempts - 1;
      }
    }
  }

  /** Every full request so far went through; the rest of the items moved is in the current request. */
  ghost predicate Going(answers0: seq<Attempt>, answers: seq<Attempt>, moved: Items, itemCount: nat)
  {
    Calls(answers0, answers, Total(moved) / 25, true) && itemCount == Total(moved) % 25
  }

  /** Every request went through but the last one. */
  ghost predicate Stopped(answers0: seq<Attempt>, answers: seq<Attempt>, moved: Items)
  {
    Total(moved) > 0 && Calls(answers0, answers, (Total(moved) - 1) / 25, false)
  }

  /** How far batching got: each table's items up to some position, in order. */
  ghost predicate Batched(all: Items, moved: Items)
  {
    forall t :: Get(moved, t) <= Get(all, t)
  }

  lemma GoingPush(answers0: seq<Attempt>, answers: seq<Attempt>, moved: Items, t: string, x: Item, itemCount: nat)
    requires Going(answers0, answers, moved, itemCount)
    ensures Total(moved[t := Get(moved, t) + [x]]) == Total(moved) + 1
    ensures itemCount + 1 < 25 ==> Going(answers0, answers, moved[t := Get(moved, t) + [x]], itemCount + 1)
  {
    TotalPush(moved, t, x);
  }

  lemma FullSent(answers0: seq<Attempt>, before: seq<Attempt>, answers: seq<Attempt>, moved: Items, moved': Items,
      ok: bool)
    requires Going(answers0, before, moved, 24) && Attempts(before, answers, ok) && Total(moved') == Total(moved) + 1
    ensures if ok then Going(answers0, answers, moved', 0) else Stopped(answers0, answers, moved')
  {
    CallsThen(answers0, before, answers, Total(moved) / 25, ok);
  }

  /** One item into the current request; a full request is sent. */
  method AddItem(request: Request, tableName: string, item: Item, itemCount: nat, ghost accepted0: Items,
      ghost moved: Items, ghost answers0: seq<Attempt>)
    returns (ok: bool, count: nat)
    requires itemCount == Total(request.input.requestItems) < MAX_BATCH_WRITE_ITEMS
    requires Balanced(accepted0, moved, request.client.accepted, request.input.requestItems)
    requires Going(answers0, request.client.answers, moved, itemCount)
    modifies request, request.client, request.input
    ensures LogGrows(old(request.client.requests), request.client.requests)
    ensures request.successCount - old(request.successCount)
      == Total(request.client.accepted) - Total(old(request.client.accepted))
    ensures
      var moved' := moved[tableName := Get(moved, tableName) + [item]];
      if ok then Going(answers0, request.client.answers, moved', count)
      else Stopped(answers0, request.client.answers, moved')
    ensures Balanced(accepted0, moved[tableName := Get(moved, tableName) + [item]], request.client.accepted,
      request.input.requestItems)
    ensures ok ==> count == Total(request.input.requestItems) < MAX_BATCH_WRITE_ITEMS
  {
    var input := request.input;
    ghost var moved' := moved[tableName := Get(moved, tableName) + [item]];
    BalancedPush(accepted0, moved, request.client.accepted, input.requestItems, tableName, item);
    TotalPush(input.requestItems, tableName, item);
    GoingPush(answers0, request.client.answers, moved, tableName, item, itemCount);
    input.requestItems := input.requestItems[tableName := Get(input.requestItems, tableName) + [item]];
    count := itemCount + 1;
    ok := true;
    if count == MAX_BATCH_WRITE_ITEMS {
      ghost var accepted, pending, answers := request.client.accepted, input.requestItems, request.client.answers;
      var retries: nat := *;
      ok := request.Retry(retries);
      FullSent(answers0, answers, request.client.answers, moved, moved', ok);
      BalancedThen(accepted0, moved', accepted, pending, request.client.accepted,
        if ok then NONE else input.requestItems);
      if ok {
        input.requestItems := map[];
        count := 0;
      }
    }
  }

  lemma OneItemMore(moved0: Items, moved: Items, t: string, items: seq<Item>, k: nat) returns (moved': Items)
    requires k < |items| && Extends(moved0, moved, t, items[..k])
    ensures moved' == moved[t := Get(moved, t) + [items[k]]] && Extends(moved0, moved', t, items[..k + 1])
  {
    ExtendsPush(moved0, moved, t, items[..k], items[k]);
    assert items[..k + 1] == items[..k] + [items[k]];
    moved' := moved[t := Get(moved, t) + [items[k]]];
  }

  /** All items of one table, in order. */
  method AddTable(request: Request, tableName: string, items: seq<Item>, itemCount: nat, ghost accepted0: Items,
      ghost moved: Items, ghost answers0: seq<Attempt>)
    returns (ok: bool, count: nat, ghost moved': Items)
    requires itemCount == Total(request.input.requestItems) < MAX_BATCH_WRITE_ITEMS && Get(moved, tableName) == []
    requires Balanced(accepted0, moved, request.client.accepted, request.input.requestItems)
    requires Going(answers0, request.client.answers, moved, itemCount)
    modifies request, request.client, request.input
    ensures LogGrows(old(request.client.requests), request.client.requests)
    ensures request.successCount - old(request.successCount)
      == Total(request.client.accepted) - Total(old(request.client.accepted))
    ensures if ok then Going(answers0, request.client.answers, moved', count)
            else Stopped(answers0, request.client.answers, moved')
    ensures Balanced(accepted0, moved', request.client.accepted, request.input.requestItems)
    ensures exists k | 0 <= k <= |items| :: Extends(moved, moved', tableName, items[..k]) && (ok ==> k == |items|)
    ensures ok ==> count == Total(request.input.requestItems) < MAX_BATCH_WRITE_ITEMS
  {
    var k := 0;
    count, moved', ok := itemCount, moved, true;
    while k < |items|
      invariant 0 <= k <= |items|
      invariant count == Total(request.input.requestItems) < MAX_BATCH_WRITE_ITEMS
      invariant LogGrows(old(request.client.requests), request.client.requests)
      invariant request.successCount - old(request.successCount)
        == Total(request.client.accepted) - Total(old(request.client.accepted))
      invariant Balanced(accepted0, moved', request.client.accepted, request.input.requestItems)
      invariant Extends(moved, moved', tableName, items[..k])
      invariant Going(answers0, request.client.answers, moved', count)
    {
      ghost var log := request.client.requests;
      ok, count := AddItem(request, tableName, items[k], count, accepted0, moved', answers0);
      LogGrowsThen(old(request.client.requests), log, request.client.requests);
      moved' := OneItemMore(moved, moved', tableName, items, k);
      k := k + 1;
      if !ok {
        assert Extends(moved, moved', tableName, items[..k]);
        return;
      }
    }
    assert Extends(moved, moved', tableName, items[..k]);
    ok := true;
  }

  /** Sends what is left after the last table. */
  method SendRest(request: Request, itemCount: nat, ghost accepted0: Items, ghost moved: Items,
      ghost answers0: seq<Attempt>) returns (ok: bool)
    requires itemCount == Total(request.input.requestItems) < MAX_BATCH_WRITE_ITEMS
    requires Balanced(accepted0, moved, request.client.accepted, request.input.requestItems)
    requires Going(answers0, request.client.answers, moved, itemCount)
    modifies request, request.client, request.input
    ensures LogGrows(old(request.client.requests), request.client.requests)
    ensures request.successCount - old(request.successCount)
      == Total(request.client.accepted) - Total(old(request.client.accepted))
    ensures if ok then Calls(answers0, request.client.answers, Ceil(Total(moved), 25), true)
            else Stopped(answers0, request.client.answers, moved)
    ensures Balanced(accepted0, moved, request.client.accepted, if ok then NONE else request.input.requestItems)
  {
    ghost var accepted, pending, answers := request.client.accepted, request.input.requestItems, request.client.answers;
    if itemCount > 0 {
      var retries: nat := *;
      ok := request.Retry(retries);
      CallsThen(answers0, answers, request.client.answers, Total(moved) / 25, ok);
      BalancedThen(accepted0, moved, accepted, pending, request.client.accepted,
        if ok then NONE else request.input.requestItems);
    } else {
      TotalEmpty(pending);
      NothingPending(accepted0, moved, accepted, pending);
      ok := true;
    }
  }

  /** The items of all tables except those in `rest` have been batched. */
  ghost predicate BatchedExcept(all: Items, moved: Items, rest: set<string>)
  {
    forall t :: Get(moved, t) == if t in rest then [] else Get(all, t)
  }

  /** The loop over the tables, which come in any order. */
  method AddTables(request: Request, allItems: Items) returns (ok: bool, itemCount: nat, ghost moved: Items)
    requires request.input.requestItems == NONE
    modifies request, request.client, request.input
    ensures if ok then Going(old(request.client.answers), request.client.answers, moved, itemCount)
            else Stopped(old(request.client.answers), request.client.answers, moved)
    ensures LogGrows(old(request.client.requests), request.client.requests)
    ensures request.successCount - old(request.successCount)
      == Total(request.client.accepted) - Total(old(request.client.accepted))
    ensures Balanced(old(request.client.accepted), moved, request.client.accepted, request.input.requestItems)
    ensures Batched(allItems, moved)
    ensures ok ==>
      itemCount == Total(request.input.requestItems) < MAX_BATCH_WRITE_ITEMS && BatchedExcept(allItems, moved, {})
  {
    ghost var accepted0, log0, answers0 := request.client.accepted, request.client.requests, request.client.answers;
    itemCount, moved, ok := 0, NONE, true;
    TotalEmpty(moved);
    var rest := allItems.Keys;
    while rest != {}
      invariant rest <= allItems.Keys
      invariant itemCount == Total(request.input.requestItems) < MAX_BATCH_WRITE_ITEMS
      invariant LogGrows(log0, request.client.requests)
      invariant request.successCount - old(request.successCount) == Total(request.client.accepted) - Total(accepted0)
      invariant Balanced(accepted0, moved, request.client.accepted, request.input.requestItems)
      invariant BatchedExcept(allItems, moved, rest)
      invariant Going(answers0, request.client.answers, moved, itemCount)
      decreases rest
    {
      var tableName :| tableName in rest;
      ghost var log, before := request.client.requests, moved;
      ok, itemCount, moved := AddTable(
        request, tableName, allItems[tableName], itemCount, accepted0, moved, answers0);
      LogGrowsThen(log0, log, request.client.requests);
      ghost var k :| 0 <= k <= |allItems[tableName]| && Extends(before, moved, tableName, allItems[tableName][..k])
                     && (ok ==> k == |allItems[tableName]|);
      TableBatched(allItems, before, moved, rest, tableName, k);
      if !ok {
        return;
      }
      rest := rest - {tableName};
    }
    ok := true;
  }

  lemma TableBatched(all: Items, before: Items, moved: Items, rest: set<string>, table: string, k: nat)
    requires BatchedExcept(all, before, rest) && table in rest && table in all && k <= |all[table]|
    requires Extends(before, moved, table, all[table][..k])
    ensures Batched(all, moved)
    ensures k == |all[table]| ==> BatchedExcept(all, moved, rest - {table})
  {
    forall t
      ensures Get(moved, t) <= Get(all, t)
      ensures k == |all[table]| ==> Get(moved, t) == if t in rest - {table} then [] else Get(all, t)
    {
      assert Get(before, t) == if t in rest then [] else Get(all, t);
      assert t != table ==> SameTable(before, moved, t);
    }
  }

  /** `BatchWriteItem`.  Success means that every item was accepted exactly once.  On failure every item is
      accepted, still in the input, or not yet batched, exactly once, and the counter is the number accepted:
      the total minus the counter is the number of items not accepted.  No request exceeds 25 items. */
  method BatchWriteItem(client: Client, input: Input) returns (ok: bool, successCount: int, ghost moved: Items)
    modifies client, input
    ensures LogGrows(old(client.requests), client.requests)
    ensures successCount == Total(client.accepted) - Total(old(client.accepted))
    ensures Batched(old(input.requestItems), moved)
    ensures Balanced(old(client.accepted), moved, client.accepted, if ok then NONE else input.requestItems)
    ensures ok ==> successCount == Total(old(input.requestItems)) && BatchedExcept(old(input.requestItems), moved, {})
    ensures !ok ==> successCount + Total(input.requestItems) == Total(moved)
    ensures Served(old(client.answers), client.answers, Ceil(Total(old(input.requestItems)), 25), ok)
  {
    var allItems := input.requestItems;
    ghost var accepted0, log0, answers0 := client.accepted, client.requests, client.answers;
    var request := new Request(client, input);
    input.requestItems := map[];
    var itemCount;
    ok, itemCount, moved := AddTables(request, allItems);
    if ok {
      ghost var log := client.requests;
      ok := SendRest(request, itemCount, accepted0, moved, answers0);
      LogGrowsThen(log0, log, client.requests);
    }
    BalancedTotals(accepted0, moved, client.accepted, if ok then NONE else input.requestItems);
    if ok {
      SameTotal(moved, allItems);
    }
    GrowsTotal(moved, allItems);
    ServedOf(answers0, client.answers, if ok then Ceil(Total(moved), 25) else (Total(moved) - 1) / 25,
      Ceil(Total(allItems), 25), ok);
    return ok, request.successCount, moved;
  }

  lemma SameTotal(a: Items, b: Items)
    requires BatchedExcept(b, a, {})
    ensures Total(a) == Total(b)
  {
    forall t
      ensures Get(a, t) == Get(b, t)
    {
    }
    Balance(a, NONE, b, NONE);
  }

  lemma NothingPending(accepted0: Items, moved: Items, accepted: Items, pending: Items)
    requires Balanced(accepted0, moved, accepted, pending) && forall t | t in pending :: pending[t] == []
    ensures Balanced(accepted0, moved, accepted, NONE)
  {
  }
}
