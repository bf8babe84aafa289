/** `pkg/awsbatch/sqsbatch/send_message_batch.go`: sending any number of messages to SQS in requests of
    limited size, retrying the ones that failed. */
module SqsBatch {
  import opened Batching
  import opened GoStrings

  const MAX_MESSAGES: nat := 10
  const MAX_BYTES: nat := 260000

  datatype Entry = Entry(id: string, body: string)

  function Size(e: Entry): nat { |e.body| }
  predicate Oversized(e: Entry) { Size(e) > MAX_BYTES }

  function TotalSize(entries: seq<Entry>): nat
  {
    if entries == [] then 0 else TotalSize(entries[..|entries| - 1]) + Size(entries[|entries| - 1])
  }

  ghost predicate DistinctIds(entries: seq<Entry>)
  {
    forall i, j | 0 <= i < j < |entries| :: entries[i].id != entries[j].id
  }

  /** A request the service takes: 1 to 10 entries of at most 260000 bytes together. */
  predicate WithinLimits(request: seq<Entry>)
  {
    1 <= |request| <= 10 && TotalSize(request) <= 260000
  }

  // ---------------------------------------------------------------- pagination, as a function of the sizes

  /** The entries sent for the stretch `i..j`: an oversized first entry is set aside. */
  function BatchOf(all: seq<Entry>, i: nat, j: nat): seq<Entry>
    requires i < j <= |all|
  {
    if Oversized(all[i]) then all[i + 1..j] else all[i..j]
  }

  /** The entries make a whole request, or nothing follows them, or what follows would make it too big. */
  predicate Full(all: seq<Entry>, j: nat, batch: seq<Entry>)
    requires j <= |all|
  {
    j == |all| || |batch| == MAX_MESSAGES || TotalSize(batch) + Size(all[j]) >= MAX_BYTES
  }

  /** Where the stretch that begins at `i` and has reached `j` ends. */
  function StretchEnd(all: seq<Entry>, i: nat, j: nat): (end: nat)
    requires i < j <= |all|
    ensures j <= end <= |all|
    decreases |all| - j
  {
    if Full(all, j, BatchOf(all, i, j)) then j else StretchEnd(all, i, j + 1)
  }

  /** The requests built from position `i` on; an empty one stops the pagination. */
  function Batches(all: seq<Entry>, i: nat): seq<seq<Entry>>
    requires i <= |all|
    decreases |all| - i
  {
    if i == |all| then []
    else
      var j := StretchEnd(all, i, i + 1);
      if BatchOf(all, i, j) == [] then [] else [BatchOf(all, i, j)] + Batches(all, j)
  }

  /** The oversized entries met from position `i` on. */
  function SetAside(all: seq<Entry>, i: nat): seq<Entry>
    requires i <= |all|
    decreases |all| - i
  {
    if i == |all| then []
    else
      var j := StretchEnd(all, i, i + 1);
      (if Oversized(all[i]) then [all[i]] else []) + (if BatchOf(all, i, j) == [] then [] else SetAside(all, j))
  }

  /** How far the pagination that is at position `i` gets. */
  function Reached(all: seq<Entry>, i: nat): (n: nat)
    requires i <= |all|
    ensures i <= n <= |all|
    decreases |all| - i
  {
    if i == |all| then i
    else
      var j := StretchEnd(all, i, i + 1);
      if BatchOf(all, i, j) == [] then j else Reached(all, j)
  }

  lemma TotalSizeAppend(entries: seq<Entry>, e: Entry)
    ensures TotalSize(entries + [e]) == TotalSize(entries) + Size(e)
  {
    assert (entries + [e])[..|entries|] == entries;
  }

  lemma BatchGrows(all: seq<Entry>, i: nat, j: nat)
    requires i < j < |all|
    ensures BatchOf(all, i, j + 1) == BatchOf(all, i, j) + [all[j]]
    ensures TotalSize(BatchOf(all, i, j + 1)) == TotalSize(BatchOf(all, i, j)) + Size(all[j])
  {
    assert BatchOf(all, i, j + 1) == BatchOf(all, i, j) + [all[j]];
    TotalSizeAppend(BatchOf(all, i, j), all[j]);
  }

  lemma FirstBatch(all: seq<Entry>, i: nat)
    requires i < |all|
    ensures BatchOf(all, i, i + 1) == if Oversized(all[i]) then [] else [all[i]]
    ensures TotalSize(BatchOf(all, i, i + 1)) == if Oversized(all[i]) then 0 else Size(all[i])
  {
  }

  /** Every stretch stays within the limits, and an oversized entry can only be its first. */
  lemma {:induction false} StretchWithinLimits(all: seq<Entry>, i: nat, j: nat)
    requires i < j <= |all|
    requires |BatchOf(all, i, j)| <= MAX_MESSAGES && TotalSize(BatchOf(all, i, j)) <= MAX_BYTES
    requires forall k | i < k < j :: !Oversized(all[k])
    ensures var end := StretchEnd(all, i, j);
      && |BatchOf(all, i, end)| <= MAX_MESSAGES && TotalSize(BatchOf(all, i, end)) <= MAX_BYTES
      && (forall k | i < k < end :: !Oversized(all[k]))
    decreases |all| - j
  {
    if !Full(all, j, BatchOf(all, i, j)) {
      BatchGrows(all, i, j);
      StretchWithinLimits(all, i, j + 1);
    }
  }

  lemma StretchFacts(all: seq<Entry>, i: nat)
    requires i < |all|
    ensures var j := StretchEnd(all, i, i + 1);
      && |BatchOf(all, i, j)| <= MAX_MESSAGES && TotalSize(BatchOf(all, i, j)) <= MAX_BYTES
      && (forall k | i < k < j :: !Oversized(all[k]))
      && (BatchOf(all, i, j) == [] <==> Oversized(all[i]) && (i + 1 == |all| || Size(all[i + 1]) >= MAX_BYTES))
  {
    FirstBatch(all, i);
    StretchWithinLimits(all, i, i + 1);
  }

  /** A stretch ends only at the end, at ten entries, or where the next entry would make 260000 bytes. */
  lemma {:induction false} StretchMaximal(all: seq<Entry>, i: nat, j: nat)
    requires i < j <= |all| && |BatchOf(all, i, j)| <= 10
    ensures
      var end := StretchEnd(all, i, j);
      || end == |all| || |BatchOf(all, i, end)| == 10
      || TotalSize(BatchOf(all, i, end)) + |all[end].body| >= 260000
    decreases |all| - j
  {
    if !Full(all, j, BatchOf(all, i, j)) {
      BatchGrows(all, i, j);
      StretchMaximal(all, i, j + 1);
    }
  }

  /** Every planned request is within the service's limits. */
  lemma {:induction false} BatchesWithinLimits(all: seq<Entry>, i: nat)
    requires i <= |all|
    ensures forall b | b in Batches(all, i) :: WithinLimits(b)
    decreases |all| - i
  {
    if i < |all| {
      StretchFacts(all, i);
      BatchesWithinLimits(all, StretchEnd(all, i, i + 1));
    }
  }

  predicate Fits(e: Entry) { !Oversized(e) }
  function Fitting(entries: seq<Entry>): seq<Entry> { Keep(entries, Fits) }
  function TooBig(entries: seq<Entry>): seq<Entry> { Keep(entries, Oversized) }

  lemma StretchParts(all: seq<Entry>, i: nat, j: nat)
    requires i < j <= |all| && forall k | i < k < j :: Fits(all[k])
    ensures Fitting(all[i..j]) == BatchOf(all, i, j)
    ensures TooBig(all[i..j]) == if Oversized(all[i]) then [all[i]] else []
  {
    var first, rest := [all[i]], all[i + 1..j];
    assert all[i..j] == first + rest;
    KeepAppend(first, rest, Fits);
    KeepAppend(first, rest, Oversized);
    KeepAll(rest, Fits);
    KeepNone(rest, Oversized);
    if Oversized(all[i]) {
      KeepAll(first, Oversized);
      KeepNone(first, Fits);
    } else {
      KeepAll(first, Fits);
      KeepNone(first, Oversized);
    }
  }

  /** The prefix reached is an order-preserving interleaving of the planned requests and the entries set
      aside: the former are exactly its entries that fit, the latter exactly its oversized ones. */
  lemma {:induction false} PlanSplitsPrefix(all: seq<Entry>, i: nat)
    requires i <= |all|
    ensures Flatten(Batches(all, i)) == Fitting(all[i..Reached(all, i)])
    ensures SetAside(all, i) == TooBig(all[i..Reached(all, i)])
    decreases |all| - i
  {
    if i == |all| {
      assert all[i..i] == [];
    } else {
      var j, n := StretchEnd(all, i, i + 1), Reached(all, i);
      StretchFacts(all, i);
      StretchParts(all, i, j);
      if BatchOf(all, i, j) != [] {
        PlanSplitsPrefix(all, j);
        SplitAt(all, i, j, n);
        assert Batches(all, i)[1..] == Batches(all, j);
      }
    }
  }

  lemma SplitAt(all: seq<Entry>, i: nat, j: nat, n: nat)
    requires i <= j <= n <= |all|
    ensures Fitting(all[i..n]) == Fitting(all[i..j]) + Fitting(all[j..n])
    ensures TooBig(all[i..n]) == TooBig(all[i..j]) + TooBig(all[j..n])
  {
    assert all[i..n] == all[i..j] + all[j..n];
    KeepAppend(all[i..j], all[j..n], Fits);
    KeepAppend(all[i..j], all[j..n], Oversized);
  }

  /** Position `k` stops the pagination: an oversized entry right before one of at least 260000 bytes. */
  ghost predicate StopsAt(all: seq<Entry>, k: nat)
  {
    k + 1 < |all| && |all[k].body| > 260000 && |all[k + 1].body| >= 260000
  }

  /** The pagination gets to the end exactly when no oversized entry stands right before an entry of at
      least 260000 bytes.  Otherwise it stops there, and the entries after it are neither sent nor returned. */
  lemma {:induction false} ReachesEndIff(all: seq<Entry>, i: nat)
    requires i <= |all|
    ensures Reached(all, i) == |all| <==> !exists k :: i <= k && StopsAt(all, k)
    decreases |all| - i
  {
    if i < |all| {
      var j := StretchEnd(all, i, i + 1);
      StretchFacts(all, i);
      if BatchOf(all, i, j) == [] {
        FirstBatch(all, i);
        if i + 1 < |all| {
          assert StopsAt(all, i);
          EmptyStretchIsShort(all, i);
        }
      } else {
        ReachesEndIff(all, j);
        forall k | i <= k < j
          ensures !StopsAt(all, k)
        {
          NoStopInside(all, i, i + 1);
        }
      }
    }
  }

  lemma EmptyStretchIsShort(all: seq<Entry>, i: nat)
    requires i < |all| && BatchOf(all, i, StretchEnd(all, i, i + 1)) == []
    ensures StretchEnd(all, i, i + 1) == i + 1
  {
  }

  /** A stretch that sends something contains no stopping position. */
  lemma NoStopInside(all: seq<Entry>, i: nat, j: nat)
    requires i < |all| && j == i + 1 && BatchOf(all, i, StretchEnd(all, i, j)) != []
    ensures forall k | i <= k < StretchEnd(all, i, j) :: !StopsAt(all, k)
  {
    StretchFacts(all, i);
  }

  /** A message that fits can be lost this way: two oversized entries in a row hide everything after them. */
  lemma HiddenEntry(big: Entry, small: Entry)
    requires |big.body| > 260000 && |small.body| <= 260000
    ensures var all := [big, big, small];
      Reached(all, 0) == 1 && Batches(all, 0) == [] && SetAside(all, 0) == [big]
  {
  }

  // ---------------------------------------------------------------- the service and the request

  function Ids(entries: seq<Entry>): (ids: seq<string>)
    ensures |ids| == |entries|
    ensures forall id :: id in ids <==> exists e | e in entries :: e.id == id
  {
    var ids := seq(|entries|, i requires 0 <= i < |entries| => entries[i].id);
    assert forall e | e in entries :: exists i | 0 <= i < |entries| :: entries[i] == e && ids[i] == e.id;
    ids
  }

  /** The entries whose id is in the set, in order. */
  function WithIds(entries: seq<Entry>, ids: set<string>): (r: seq<Entry>)
    ensures |r| <= |entries|
  {
    if entries == [] then []
    else
      var n := |entries| - 1;
      WithIds(entries[..n], ids) + (if entries[n].id in ids then [entries[n]] else [])
  }

  /** Picking by ids that name exactly the failed entries gives back the failed entries. */
  lemma {:induction false} WithIdsIsSelect(entries: seq<Entry>, marks: seq<bool>, ids: set<string>)
    requires |marks| == |entries| && forall i | 0 <= i < |entries| :: entries[i].id in ids <==> !marks[i]
    ensures WithIds(entries, ids) == Select(entries, marks, false)
  {
    if entries != [] {
      var n := |entries| - 1;
      WithIdsIsSelect(entries[..n], marks[..n], ids);
    }
  }

  lemma IdFailedIff(entries: seq<Entry>, marks: seq<bool>, failed: seq<string>, i: nat)
    requires |marks| == |entries| && DistinctIds(entries) && i < |entries|
    requires multiset(failed) == multiset(Ids(Select(entries, marks, false)))
    ensures entries[i].id in failed <==> !marks[i]
  {
    var lost := Select(entries, marks, false);
    SelectMembers(entries, marks, false);
    assert entries[i].id in failed <==> entries[i].id in multiset(failed);
    assert entries[i].id in Ids(lost) <==> entries[i].id in multiset(Ids(lost));
    if !marks[i] {
      assert entries[i] in lost;
    } else if k :| 0 <= k < |lost| && lost[k].id == entries[i].id {
      assert lost[k] in lost;
    }
  }

  lemma FailedByIds(entries: seq<Entry>, marks: seq<bool>, failed: seq<string>)
    requires |marks| == |entries| && DistinctIds(entries)
    requires multiset(failed) == multiset(Ids(Select(entries, marks, false)))
    ensures WithIds(entries, set id | id in failed) == Select(entries, marks, false)
  {
    forall i | 0 <= i < |entries|
      ensures entries[i].id in failed <==> !marks[i]
    {
      IdFailedIff(entries, marks, failed, i);
    }
    WithIdsIsSelect(entries, marks, set id | id in failed);
  }

  lemma {:induction false} WithIdsMembers(entries: seq<Entry>, ids: set<string>)
    ensures forall e :: e in WithIds(entries, ids) <==> e in entries && e.id in ids
  {
    if entries != [] {
      WithIdsMembers(entries[..|entries| - 1], ids);
    }
  }

  /** A retried request is part of the one before. */
  lemma {:induction false} WithIdsShrinks(entries: seq<Entry>, ids: set<string>)
    ensures TotalSize(WithIds(entries, ids)) <= TotalSize(entries)
    ensures DistinctIds(entries) ==> DistinctIds(WithIds(entries, ids))
  {
    if entries != [] {
      var n := |entries| - 1;
      var front, last := entries[..n], entries[n];
      WithIdsShrinks(front, ids);
      WithIdsMembers(front, ids);
      TotalSizeAppend(WithIds(front, ids), last);
      assert last.id !in ids ==> WithIds(entries, ids) == WithIds(front, ids);
      if DistinctIds(entries) && last.id in ids {
        DistinctSnoc(front, WithIds(front, ids), last);
      }
    }
  }

  lemma DistinctSnoc(front: seq<Entry>, kept: seq<Entry>, last: Entry)
    requires DistinctIds(front + [last]) && DistinctIds(kept) && forall e | e in kept :: e in front
    ensures DistinctIds(kept + [last])
  {
    forall i | 0 <= i < |kept|
      ensures kept[i].id != last.id
    {
      assert kept[i] in front;
      var k :| 0 <= k < |front| && front[k] == kept[i];
      assert (front + [last])[k].id != (front + [last])[|front|].id;
    }
  }

  /** What SQS answers: an error for the whole call, or the ids that went through and the ids that did not. */
  datatype Response = CallError(message: string) | Reply(successful: seq<string>, failed: seq<string>)

  /** The queue service: it may refuse a call, and may accept any part of a request. */
  class Client {
    ghost var requests: seq<seq<Entry>>
    ghost var accepted: seq<Entry>
    ghost var answers: seq<Attempt>

    method SendMessageBatch(entries: seq<Entry>) returns (r: Response, ghost marks: seq<bool>)
      modifies this
      ensures requests == old(requests) + [entries]
      ensures answers == old(answers) + [if r.CallError? then Permanent else if r.failed == [] then Done else Again]
      ensures r.CallError? ==> accepted == old(accepted)
      ensures r.Reply? ==>
        && |marks| == |entries| && accepted == old(accepted) + Select(entries, marks, true)
        && |r.successful| == |Select(entries, marks, true)|
        && multiset(r.failed) == multiset(Ids(Select(entries, marks, false)))
    {
      var works: bool := *;
      var m: seq<bool> := *;
      marks := m;
      requests := requests + [entries];
      if works && |m| == |entries| {
        r := Reply(Ids(Select(entries, m, true)), Ids(Select(entries, m, false)));
        accepted := accepted + Select(entries, m, true);
      } else {
        r := CallError("refused");
      }
      answers := answers + [if r.CallError? then Permanent else if r.failed == [] then Done else Again];
    }
  }

  /** The caller's input object, whose entries are replaced in place. */
  class Input {
    var entries: seq<Entry>
    constructor (entries: seq<Entry>) ensures this.entries == entries { this.entries := entries; }
  }

  /** The request log only grows, by requests within the limits. */
  ghost predicate LogGrows(before: seq<seq<Entry>>, after: seq<seq<Entry>>)
  {
    before <= after && forall k | |before| <= k < |after| :: WithinLimits(after[k])
  }

  lemma RetryWithinLimits(before: seq<Entry>, after: seq<Entry>)
    requires WithinLimits(before) && after != [] && exists ids :: after == WithIds(before, ids)
    ensures WithinLimits(after) && (DistinctIds(before) ==> DistinctIds(after))
  {
    var ids :| after == WithIds(before, ids);
    WithIdsShrinks(before, ids);
  }

  /** The service takes nothing back. */
  ghost predicate Grows(before: seq<Entry>, after: seq<Entry>) { before <= after }

  lemma GrowsOn(a: seq<Entry>, b: seq<Entry>, more: seq<Entry>)
    requires Grows(a, b)
    ensures Grows(a, b + more)
  {
  }

  /** `sendMessageBatchRequest`. */
  class Request {
    const client: Client
    const input: Input
    var successCount: nat

    constructor (client: Client, input: Input)
      ensures this.client == client && this.input == input && successCount == 0
    {
      this.client, this.input, successCount := client, input, 0;
    }

    /** `send`: one call; afterwards the input holds only the entries whose ids failed. */
    method Send() returns (out: Attempt, ghost marks: seq<bool>)
      modifies this, client, input
      ensures client.requests == old(client.requests) + [old(input.entries)]
      ensures client.answers == old(client.answers) + [out]
      ensures out.Permanent? ==>
        client.accepted == old(client.accepted) && input.entries == old(input.entries)
          && successCount == old(successCount)
      ensures !out.Permanent? ==>
        && |marks| == |old(input.entries)|
        && client.accepted == old(client.accepted) + Select(old(input.entries), marks, true)
        && successCount == old(successCount) + |Select(old(input.entries), marks, true)|
      ensures out.Done? ==> Select(old(input.entries), marks, false) == []
      ensures out.Again? ==>
        && (exists ids :: input.entries == WithIds(old(input.entries), ids)) && input.entries != []
        && (DistinctIds(old(input.entries)) ==> input.entries == Select(old(input.entries), marks, false))
    {
      ghost var before := input.entries;
      var response;
      response, marks := client.SendMessageBatch(input.entries);
      if response.CallError? {
        return Permanent, marks;
      }
      successCount := successCount + |response.successful|;
      assert |multiset(response.failed)| == |response.failed|;
      assert |multiset(Ids(Select(before, marks, false)))| == |Select(before, marks, false)|;
      if |response.failed| > 0 {
        var retryIds: set<string> := {};
        var f := 0;
        while f < |response.failed|
          invariant 0 <= f <= |response.failed| && retryIds == set id | id in response.failed[..f]
        {
          retryIds := retryIds + {response.failed[f]};
          assert response.failed[..f + 1] == response.failed[..f] + [response.failed[f]];
          f := f + 1;
        }
        assert response.failed[..f] == response.failed;
        var retryEntries: seq<Entry> := [];
        var k := 0;
        while k < |input.entries|
          invariant 0 <= k <= |input.entries| && input.entries == before
          invariant retryEntries == WithIds(input.entries[..k], retryIds)
        {
          assert input.entries[..k + 1][..k] == input.entries[..k];
          if input.entries[k].id in retryIds {
            retryEntries := retryEntries + [input.entries[k]];
          }
          k := k + 1;
        }
        assert input.entries[..k] == input.entries;
        SomeFailed(before, marks, response.failed);
        if DistinctIds(before) {
          FailedByIds(before, marks, response.failed);
        }
        input.entries := retryEntries;
        return Again, marks;
      }
      return Done, marks;
    }

    /** `backoff.Retry(request.send, config)`: attempts until one succeeds, one fails for good, or time is up. */
    method Retry(retries: nat) returns (ok: bool)
      requires WithinLimits(input.entries)
      modifies this, client, input
      ensures LogGrows(old(client.requests), client.requests)
      ensures Attempts(old(client.answers), client.answers, ok)
      ensures Patient(old(client.answers), client.answers, retries)
      ensures Grows(old(client.accepted), client.accepted)
      ensures |client.accepted| - |old(client.accepted)| == successCount - old(successCount) >= 0
      ensures old(DistinctIds(input.entries)) && ok ==>
        Conserved(old(client.accepted), old(input.entries), client.accepted, [])
      ensures old(DistinctIds(input.entries)) && !ok ==>
        Conserved(old(client.accepted), old(input.entries), client.accepted, input.entries)
    {
      var attempts := retries;
      ghost var before, accepted0, answers0 := input.entries, client.accepted, client.answers;
      while true
        invariant WithinLimits(input.entries)
        invariant LogGrows(old(client.requests), client.requests)
        invariant |client.accepted| - |old(client.accepted)| == successCount - old(successCount) >= 0
        invariant Grows(accepted0, client.accepted)
        invariant |client.answers| - |answers0| + attempts == retries
        invariant answers0 <= client.answers && forall k | |answers0| <= k < |client.answers| ::
          client.answers[k].Again?
        invariant DistinctIds(before) ==> DistinctIds(input.entries)
        invariant DistinctIds(before) ==> Conserved(accepted0, before, client.accepted, input.entries)
        decreases attempts
      {
        ghost var current, accepted, answers := input.entries, client.accepted, client.answers;
        var out, marks := Send();
        AttemptsThen(answers0, answers, out);
        if out.Permanent? {
          return false;
        }
        GrowsOn(accepted0, accepted, Select(current, marks, true));
        if DistinctIds(before) {
          ConservedStep(accepted0, before, accepted, current, marks);
        }
        if out.Done? {
          return true;
        }
        RetryWithinLimits(current, input.entries);
        if attempts == 0 {
          return false;
        }
        attempts := attempts - 1;
      }
    }
  }

  lemma SomeFailed(entries: seq<Entry>, marks: seq<bool>, failed: seq<string>)
    requires |marks| == |entries| && failed != []
    requires multiset(failed) == multiset(Ids(Select(entries, marks, false)))
    ensures WithIds(entries, set id | id in failed) != []
  {
    var lost := Select(entries, marks, false);
    assert failed[0] in multiset(Ids(lost));
    var e :| e in lost && e.id == failed[0];
    SelectMembers(entries, marks, false);
    WithIdsMembers(entries, set id | id in failed);
  }

  datatype Error = SendFailed | BatchRequestTooLong

  ghost predicate DistinctPerBatch(all: seq<Entry>)
  {
    forall b | b in Batches(all, 0) :: DistinctIds(b)
  }

  /** The stretch `start..i` can take the entry at `i`. */
  ghost predicate Filling(all: seq<Entry>, start: nat, i: nat, entries: seq<Entry>)
  {
    && start <= i < |all|
    && if i == start then entries == []
       else
         && entries == BatchOf(all, start, i) && StretchEnd(all, start, start + 1) == StretchEnd(all, start, i)
         && |entries| <= MAX_MESSAGES && !Full(all, i, entries)
  }

  /** The entries with the one at `i`, unless that is oversized. */
  function With(entries: seq<Entry>, e: Entry): seq<Entry> { if Oversized(e) then entries else entries + [e] }

  lemma WithIsBatch(all: seq<Entry>, start: nat, i: nat, entries: seq<Entry>)
    requires Filling(all, start, i, entries)
    ensures With(entries, all[i]) == BatchOf(all, start, i + 1) && (Oversized(all[i]) ==> i == start)
    ensures |With(entries, all[i])| <= MAX_MESSAGES
    ensures TotalSize(With(entries, all[i])) == TotalSize(entries) + (if Oversized(all[i]) then 0 else Size(all[i]))
  {
    if i > start {
      BatchGrows(all, start, i);
      assert With(entries, all[i]) == entries + [all[i]];
    } else {
      FirstBatch(all, start);
      assert entries + [all[i]] == [all[i]];
    }
  }

  /** The stretch from `start` ends at `i`, and these are its entries. */
  ghost predicate Filled(all: seq<Entry>, start: nat, i: nat, entries: seq<Entry>)
  {
    start < i <= |all| && i == StretchEnd(all, start, start + 1) && entries == BatchOf(all, start, i)
  }

  lemma OneFilled(all: seq<Entry>, start: nat, i: nat, entries: seq<Entry>, next: seq<Entry>, size: nat)
    returns (full: bool)
    requires Filling(all, start, i, entries) && next == With(entries, all[i])
    requires size == TotalSize(entries) + (if Oversized(all[i]) then 0 else Size(all[i]))
    ensures Oversized(all[i]) ==> i == start
    ensures size == TotalSize(next)
    ensures full <==> i + 1 == |all| || |next| == MAX_MESSAGES || size + Size(all[i + 1]) >= MAX_BYTES
    ensures full ==> Filled(all, start, i + 1, next)
    ensures !full ==> Filling(all, start, i + 1, next)
  {
    full := Full(all, i + 1, next);
    WithIsBatch(all, start, i, entries);
    if i > start {
      assert StretchEnd(all, start, i) == StretchEnd(all, start, i + 1);
    }
  }

  /** The inner loop: fill the input from position `i`, looking one entry ahead. */
  method FillBatch(all: seq<Entry>, start: nat, input: Input) returns (i: nat, big: seq<Entry>)
    requires start < |all|
    modifies input
    ensures Filled(all, start, i, input.entries)
    ensures big == if Oversized(all[start]) then [all[start]] else []
  {
    input.entries := [];
    big := [];
    i := start;
    var currentBatchSize := 0;
    while true
      invariant Filling(all, start, i, input.entries)
      invariant currentBatchSize == TotalSize(input.entries)
      invariant big == if i > start && Oversized(all[start]) then [all[start]] else []
      decreases |all| - i
    {
      ghost var before := input.entries;
      var entrySize := Size(all[i]);
      if entrySize > MAX_BYTES {
        big := big + [all[i]];
      } else {
        input.entries := input.entries + [all[i]];
        currentBatchSize := currentBatchSize + entrySize;
      }
      ghost var full := OneFilled(all, start, i, before, input.entries, currentBatchSize);
      i := i + 1;
      if i == |all| {
        assert full;
        break;
      }
      var nextItemSize := Size(all[i]);
      if |input.entries| == MAX_MESSAGES || currentBatchSize + nextItemSize >= MAX_BYTES {
        assert full;
        break;
      }
    }
  }

  /** What a plan amounts to, seen from its beginning. */
  lemma PlanFacts(all: seq<Entry>)
    ensures Flatten(Batches(all, 0)) == Fitting(all[..Reached(all, 0)])
    ensures SetAside(all, 0) == TooBig(all[..Reached(all, 0)])
    ensures |Flatten(Batches(all, 0))| <= |all| && multiset(Flatten(Batches(all, 0))) <= multiset(all)
    ensures (forall e | e in all :: !Oversized(e)) ==> SetAside(all, 0) == []
    ensures SetAside(all, 0) == [] ==> Flatten(Batches(all, 0)) == all && forall e | e in all :: !Oversized(e)
  {
    var n := Reached(all, 0);
    PlanSplitsPrefix(all, 0);
    assert all[0..n] == all[..n];
    PrefixFits(all, n);
    if SetAside(all, 0) == [] {
      NothingAside(all, 0);
    }
  }

  lemma PrefixFits(all: seq<Entry>, n: nat)
    requires n <= |all|
    ensures |Fitting(all[..n])| <= |all| && multiset(Fitting(all[..n])) <= multiset(all)
    ensures (forall e | e in all :: !Oversized(e)) ==> TooBig(all[..n]) == []
    ensures n == |all| && (forall k | 0 <= k < |all| :: Fits(all[k])) ==> Fitting(all[..n]) == all
  {
    assert all == all[..n] + all[n..];
    KeepWithin(all[..n], Fits);
    if forall e | e in all :: !Oversized(e) {
      KeepNone(all[..n], Oversized);
    }
    if n == |all| && forall k | 0 <= k < |all| :: Fits(all[k]) {
      assert all[..n] == all;
      KeepAll(all, Fits);
    }
  }

  lemma {:induction false} NothingAside(all: seq<Entry>, i: nat)
    requires i <= |all| && SetAside(all, i) == []
    ensures Reached(all, i) == |all| && forall k | i <= k < |all| :: Fits(all[k])
    decreases |all| - i
  {
    if i < |all| {
      var j := StretchEnd(all, i, i + 1);
      StretchFacts(all, i);
      assert !Oversized(all[i]) && BatchOf(all, i, j) != [];
      assert SetAside(all, i) == SetAside(all, j) && Reached(all, i) == Reached(all, j);
      NothingAside(all, j);
    }
  }

  lemma BatchIsPart(batches: seq<seq<Entry>>, k: nat)
    requires k < |batches|
    ensures |Flatten(batches[..k + 1])| <= |Flatten(batches)|
    ensures multiset(Flatten(batches[..k + 1])) <= multiset(Flatten(batches))
  {
    FlattenAppend(batches[..k + 1], batches[k + 1..]);
    assert batches == batches[..k + 1] + batches[k + 1..];
  }

  /** Where the pagination stands at position `i`: which requests were built, what was set aside. */
  ghost predicate At(all: seq<Entry>, i: nat, built: seq<seq<Entry>>, aside: seq<Entry>)
  {
    && i <= |all| && built + Batches(all, i) == Batches(all, 0) && aside + SetAside(all, i) == SetAside(all, 0)
    && (aside == [] ==> Flatten(built) == all[..i])
  }

  /** Where it stands after one more stretch: at the end of the plan, or with the plan's next request built. */
  ghost predicate Stretched(all: seq<Entry>, j: nat, built: seq<seq<Entry>>, batch: seq<Entry>, aside: seq<Entry>)
  {
    && aside <= SetAside(all, 0)
    && if batch == [] then built == Batches(all, 0) && aside == SetAside(all, 0)
       else |built| < |Batches(all, 0)| && built == Batches(all, 0)[..|built|] && batch == Batches(all, 0)[|built|]
            && At(all, j, built + [batch], aside)
  }

  /** A stretch that makes a request takes the pagination to the stretch's end. */
  lemma AtGrown(all: seq<Entry>, i: nat, built: seq<seq<Entry>>, aside: seq<Entry>, big: seq<Entry>)
    requires At(all, i, built, aside) && i < |all| && big == if Oversized(all[i]) then [all[i]] else []
    requires BatchOf(all, i, StretchEnd(all, i, i + 1)) != []
    ensures var j := StretchEnd(all, i, i + 1); At(all, j, built + [BatchOf(all, i, j)], aside + big)
  {
    var j := StretchEnd(all, i, i + 1);
    assert Batches(all, i) == [BatchOf(all, i, j)] + Batches(all, j);
    assert SetAside(all, i) == big + SetAside(all, j);
    ConcatThree(built, [BatchOf(all, i, j)], Batches(all, j));
    ConcatThree(aside, big, SetAside(all, j));
    if aside + big == [] {
      StraightOn(all, i, j, built);
    }
  }

  lemma StraightOn(all: seq<Entry>, i: nat, j: nat, built: seq<seq<Entry>>)
    requires i < j <= |all| && !Oversized(all[i]) && Flatten(built) == all[..i]
    ensures Flatten(built + [BatchOf(all, i, j)]) == all[..j]
  {
    FlattenSnoc(built, BatchOf(all, i, j));
    assert all[..j] == all[..i] + all[i..j];
  }

  lemma AtNext(all: seq<Entry>, i: nat, built: seq<seq<Entry>>, aside: seq<Entry>, big: seq<Entry>)
    requires At(all, i, built, aside) && i < |all| && big == if Oversized(all[i]) then [all[i]] else []
    ensures var j := StretchEnd(all, i, i + 1); Stretched(all, j, built, BatchOf(all, i, j), aside + big)
  {
    var j := StretchEnd(all, i, i + 1);
    var batch := BatchOf(all, i, j);
    if batch != [] {
      AtGrown(all, i, built, aside, big);
      PartsOf(built, batch, Batches(all, j), Batches(all, 0));
      assert aside + big <= SetAside(all, 0);
    } else {
      assert Batches(all, i) == [] && SetAside(all, i) == big;
      assert built + [] == built;
    }
  }

  lemma PartsOf<T>(done: seq<T>, x: T, rest: seq<T>, whole: seq<T>)
    requires done + [x] + rest == whole
    ensures |done| < |whole| && done == whole[..|done|] && whole[|done|] == x
  {
  }

  lemma NextBuilt(all: seq<Entry>, j: nat, built: seq<seq<Entry>>, batch: seq<Entry>, aside: seq<Entry>)
    requires Stretched(all, j, built, batch, aside) && batch != []
    ensures |built| < |Batches(all, 0)| && Batches(all, 0)[..|built| + 1] == built + [batch]
    ensures aside == [] ==> Flatten(built + [batch]) <= all
    ensures WithinLimits(batch) && (DistinctPerBatch(all) ==> DistinctIds(batch))
  {
    assert batch in Batches(all, 0);
    BatchesWithinLimits(all, 0);
  }

  /** After a failure: some of the entries were accepted, none twice; the failures are the entries after as many
      as were accepted, then oversized ones. */
  ghost predicate PartlyAccepted(before: seq<Entry>, after: seq<Entry>, all: seq<Entry>, failures: seq<Entry>)
  {
    var sent := |after| - |before|;
    && 0 <= sent <= |all| && multiset(after) <= multiset(before) + multiset(all)
    && all[sent..] <= failures && failures[|all| - sent..] <= SetAside(all, 0)
    && ((forall e | e in all :: !Oversized(e)) ==> |failures| == |all| - sent)
  }

  lemma FailuresCounted(before: seq<Entry>, after: seq<Entry>, all: seq<Entry>, aside: seq<Entry>)
    requires 0 <= |after| - |before| <= |all| && multiset(after) <= multiset(before) + multiset(all)
    requires aside <= SetAside(all, 0) && ((forall e | e in all :: !Oversized(e)) ==> SetAside(all, 0) == [])
    ensures PartlyAccepted(before, after, all, all[|after| - |before|..] + aside)
  {
  }

  /** No oversized entry is among the failures, and what is pending in the input is what comes right after as many
      entries as were accepted. */
  ghost predicate LastOnesPending(
    before: seq<Entry>, after: seq<Entry>, all: seq<Entry>, failures: seq<Entry>, pending: seq<Entry>)
  {
    var sent := |after| - |before|;
    && 0 <= sent <= sent + |pending| <= |all| == sent + |failures|
    && multiset(pending) == multiset(all[sent..sent + |pending|])
  }

  lemma RestIff(before: seq<Entry>, after: seq<Entry>, all: seq<Entry>, sent: nat, pending: seq<Entry>)
    requires sent + |pending| <= |all| && Conserved(before, all[..sent + |pending|], after, pending)
    ensures Conserved(before, all, after, all[sent..]) <==> multiset(pending) == multiset(all[sent..sent + |pending|])
  {
    var late := all[sent..sent + |pending|];
    assert all[..sent + |pending|] == all[..sent] + late;
    assert all == all[..sent] + all[sent..];
    SamePart(before, after, all[..sent], all[sent..], late, pending);
  }

  /** The failures returned are exactly the entries that were not accepted if and only if the last ones are pending. */
  lemma ReturnsRestIff(
    before: seq<Entry>, after: seq<Entry>, all: seq<Entry>, aside: seq<Entry>, begun: seq<Entry>, pending: seq<Entry>)
    requires 0 <= |after| - |before| <= |all| && Conserved(before, begun, after, pending)
    requires aside == [] ==> begun <= all
    ensures
      var failures := all[|after| - |before|..] + aside;
      Conserved(before, all, after, failures) <==> LastOnesPending(before, after, all, failures, pending)
  {
    var sent := |after| - |before|;
    ConservedWithin(before, begun, after, pending);
    if aside == [] {
      assert begun == all[..sent + |pending|] && all[sent..] + aside == all[sent..];
      RestIff(before, after, all, sent, pending);
    } else if Conserved(before, all, after, all[sent..] + aside) {
      ConservedWithin(before, all, after, all[sent..] + aside);
    }
  }

  lemma SamePart(
    before: seq<Entry>, after: seq<Entry>, early: seq<Entry>, rest: seq<Entry>, late: seq<Entry>, pending: seq<Entry>)
    requires Conserved(before, early + late, after, pending)
    ensures Conserved(before, early + rest, after, rest) <==> multiset(pending) == multiset(late)
  {
    forall x
      ensures multiset(after)[x] + multiset(pending)[x] == multiset(before)[x] + multiset(early)[x] + multiset(late)[x]
    {
      assert (multiset(after) + multiset(pending))[x] == (multiset(before) + multiset(early + late))[x];
    }
    if Conserved(before, early + rest, after, rest) {
      forall x
        ensures multiset(pending)[x] == multiset(late)[x]
      {
        assert (multiset(after) + multiset(rest))[x] == (multiset(before) + multiset(early + rest))[x];
      }
    }
    if multiset(pending) == multiset(late) {
      forall x
        ensures (multiset(after) + multiset(rest))[x] == (multiset(before) + multiset(early + rest))[x]
      {
        assert multiset(pending)[x] == multiset(late)[x];
      }
    }
  }

  /** What a failed call leaves behind. */
  ghost predicate Failure(
    before: seq<Entry>, after: seq<Entry>, all: seq<Entry>, failures: seq<Entry>, pending: seq<Entry>)
  {
    && PartlyAccepted(before, after, all, failures)
    && (Conserved(before, all, after, failures) <==> LastOnesPending(before, after, all, failures, pending))
  }

  lemma FailureOutcome(
    before: seq<Entry>, after: seq<Entry>, pending: seq<Entry>, all: seq<Entry>, k: nat, aside: seq<Entry>, count: nat)
    returns (failures: seq<Entry>)
    requires k < |Batches(all, 0)| && Conserved(before, Flatten(Batches(all, 0)[..k + 1]), after, pending)
    requires aside == [] ==> Flatten(Batches(all, 0)[..k + 1]) <= all
    requires count == |after| - |before| && aside <= SetAside(all, 0)
    ensures count <= |all| && failures == all[count..] + aside && Failure(before, after, all, failures, pending)
  {
    var begun := Flatten(Batches(all, 0)[..k + 1]);
    PlanFacts(all);
    BatchIsPart(Batches(all, 0), k);
    ConservedWithin(before, begun, after, pending);
    FailuresCounted(before, after, all, aside);
    ReturnsRestIff(before, after, all, aside, begun, pending);
    failures := all[count..] + aside;
  }

  lemma PlanOfTwo(a: Entry, b: Entry)
    requires Size(a) + Size(b) < MAX_BYTES
    ensures Batches([a, b], 0) == [[a, b]] && SetAside([a, b], 0) == []
  {
    var all := [a, b];
    FirstBatch(all, 0);
    assert !Full(all, 1, BatchOf(all, 0, 1));
    assert StretchEnd(all, 0, 1) == StretchEnd(all, 0, 2) == 2;
    assert BatchOf(all, 0, 2) == all;
    assert Batches(all, 2) == [] && SetAside(all, 2) == [];
  }

  /** Of two entries, the second alone is accepted, and the second is reported. */
  lemma WrongReport(a: Entry, b: Entry)
    requires a != b
    ensures !Conserved([], [a, b], [b], [b]) && !LastOnesPending([], [b], [a, b], [b], [a])
  {
    assert multiset([b]) + multiset([b]) == multiset{b, b} && multiset([]) + multiset([a, b]) == multiset{a, b};
    assert multiset{b, b}[a] == 0 && multiset{a, b}[a] == 1;
    assert [a, b][1..1 + 1] == [b];
    assert multiset([a])[a] == 1 && multiset([b])[a] == 0;
  }

  lemma SecondAccepted(a: Entry, b: Entry)
    requires Size(a) + Size(b) < MAX_BYTES
    ensures PartlyAccepted([], [b], [a, b], [b])
  {
    assert [a, b] == [a] + [b];
    assert [a, b][1..] == [b] && [b][1..] == [];
    assert multiset([a, b]) == multiset([a]) + multiset([b]);
  }

  lemma OneRequest(all: seq<Entry>)
    requires Batches(all, 0) == [all] && DistinctIds(all)
    ensures DistinctPerBatch(all)
  {
    forall r | r in Batches(all, 0)
      ensures r == all
    {
      assert r in [all];
    }
  }

  lemma SelectSecond(a: Entry, b: Entry)
    ensures Select([a, b], [false, true], true) == [b] && Select([a, b], [false, true], false) == [a]
  {
    assert [a, b][..1] == [a] && [false, true][..1] == [false];
    assert Select([a], [false], true) == [] && Select([a], [false], false) == [a];
  }

  /** At an input: two small entries make one request, of which the service takes the second, and then it refuses the
      retry.  The second entry is returned as failed, and the first is neither accepted nor returned. */
  lemma WrongEntryReturned(a: Entry, b: Entry)
    requires a.id != b.id && Size(a) + Size(b) < MAX_BYTES
    ensures Batches([a, b], 0) == [[a, b]] && DistinctPerBatch([a, b])
    ensures Select([a, b], [false, true], true) == [b] && Select([a, b], [false, true], false) == [a]
    ensures Failure([], [b], [a, b], [b], [a])
    ensures !Conserved([], [a, b], [b], [b]) && !LastOnesPending([], [b], [a, b], [b], [a])
  {
    WrongReport(a, b);
    assert Failure([], [b], [a, b], [b], [a]) by {
      SecondAccepted(a, b);
    }
    PlanOfTwo(a, b);
    assert DistinctPerBatch([a, b]) by {
      OneRequest([a, b]);
    }
    SelectSecond(a, b);
  }

  lemma PlanOutcome(before: seq<Entry>, after: seq<Entry>, all: seq<Entry>)
    requires Accepted(before, after, Flatten(Batches(all, 0)))
    ensures SetAside(all, 0) == TooBig(all[..Reached(all, 0)])
    ensures Accepted(before, after, Fitting(all[..Reached(all, 0)]))
    ensures SetAside(all, 0) == [] ==> Accepted(before, after, all) && forall e | e in all :: !Oversized(e)
  {
    PlanFacts(all);
  }

  /** The inner loop, as a step of the plan. */
  method NextBatch(all: seq<Entry>, start: nat, input: Input, ghost built: seq<seq<Entry>>, bigMessages: seq<Entry>)
    returns (i: nat, big: seq<Entry>)
    requires At(all, start, built, bigMessages) && start < |all|
    modifies input
    ensures start < i <= |all| && Stretched(all, i, built, input.entries, big)
  {
    var oversized;
    i, oversized := FillBatch(all, start, input);
    AtNext(all, start, built, bigMessages, oversized);
    big := bigMessages + oversized;
  }

  /** Sends the request just built, after the ones before it. */
  method SendBuilt(request: Request, ghost accepted0: seq<Entry>, ghost answers0: seq<Attempt>,
      ghost built: seq<seq<Entry>>) returns (ok: bool)
    requires WithinLimits(request.input.entries) && DistinctIds(request.input.entries)
    requires Accepted(accepted0, request.client.accepted, Flatten(built))
    requires Calls(answers0, request.client.answers, |built|, true)
    modifies request, request.client, request.input
    ensures LogGrows(old(request.client.requests), request.client.requests)
    ensures request.successCount - old(request.successCount)
      == |request.client.accepted| - |old(request.client.accepted)|
    ensures Grows(old(request.client.accepted), request.client.accepted)
    ensures Calls(answers0, request.client.answers, if ok then |built| + 1 else |built|, ok)
    ensures ok ==> Accepted(accepted0, request.client.accepted, Flatten(built + [old(request.input.entries)]))
    ensures !ok ==>
      Conserved(accepted0, Flatten(built + [old(request.input.entries)]), request.client.accepted,
        request.input.entries)
  {
    ghost var batch, accepted, answers := request.input.entries, request.client.accepted, request.client.answers;
    FlattenSnoc(built, batch);
    var retries: nat := *;
    ok := request.Retry(retries);
    CallsThen(answers0, answers, request.client.answers, |built|, ok);
    if ok {
      AcceptedThen(accepted0, accepted, request.client.accepted, Flatten(built), batch);
    } else {
      SentWithin(accepted0, accepted, Flatten(built), batch, request.client.accepted, request.input.entries);
    }
  }

  /** How far a plan was carried out: all of it, or up to a request that failed for good. */
  ghost predicate Carried(before: seq<Entry>, after: seq<Entry>, all: seq<Entry>, ok: bool, aside: seq<Entry>,
      sent: nat, pending: seq<Entry>)
  {
    if ok then aside == SetAside(all, 0) && Accepted(before, after, Flatten(Batches(all, 0)))
    else
      && aside <= SetAside(all, 0) && sent < |Batches(all, 0)|
      && Conserved(before, Flatten(Batches(all, 0)[..sent + 1]), after, pending)
      && (aside == [] ==> Flatten(Batches(all, 0)[..sent + 1]) <= all)
  }

  lemma AllCarried(before: seq<Entry>, after: seq<Entry>, all: seq<Entry>, built: seq<seq<Entry>>, aside: seq<Entry>,
      answers0: seq<Attempt>, answers: seq<Attempt>, pending: seq<Entry>)
    requires built == Batches(all, 0) && aside == SetAside(all, 0) && Accepted(before, after, Flatten(built))
    requires Calls(answers0, answers, |built|, true)
    ensures Carried(before, after, all, true, aside, |built|, pending)
    ensures Served(answers0, answers, |Batches(all, 0)|, true)
  {
  }

  lemma SomeCarried(before: seq<Entry>, after: seq<Entry>, all: seq<Entry>, built: seq<seq<Entry>>, batch: seq<Entry>,
      aside: seq<Entry>, answers0: seq<Attempt>, answers: seq<Attempt>, pending: seq<Entry>)
    requires |built| < |Batches(all, 0)| && Batches(all, 0)[..|built| + 1] == built + [batch]
    requires aside <= SetAside(all, 0) && (aside == [] ==> Flatten(built + [batch]) <= all)
    requires Conserved(before, Flatten(built + [batch]), after, pending) && Calls(answers0, answers, |built|, false)
    ensures Carried(before, after, all, false, aside, |built|, pending)
    ensures Served(answers0, answers, |Batches(all, 0)|, false)
  {
    ServedOf(answers0, answers, |built|, |Batches(all, 0)|, false);
  }

  /** The requests built so far were accepted, one success each. */
  ghost predicate Sent(answers0: seq<Attempt>, accepted0: seq<Entry>, client: Client, built: seq<seq<Entry>>)
    reads client
  {
    && Accepted(accepted0, client.accepted, Flatten(built)) && Grows(accepted0, client.accepted)
    && Calls(answers0, client.answers, |built|, true)
  }

  /** Sends the plan's next request, which is in the input. */
  method SendNext(request: Request, allEntries: seq<Entry>, ghost i: nat, ghost built: seq<seq<Entry>>,
      bigMessages: seq<Entry>, ghost accepted0: seq<Entry>, ghost answers0: seq<Attempt>) returns (ok: bool)
    requires Stretched(allEntries, i, built, request.input.entries, bigMessages) && request.input.entries != []
    requires DistinctPerBatch(allEntries) && Sent(answers0, accepted0, request.client, built)
    modifies request, request.client, request.input
    ensures LogGrows(old(request.client.requests), request.client.requests)
    ensures request.successCount - old(request.successCount)
      == |request.client.accepted| - |old(request.client.accepted)|
    ensures Grows(accepted0, request.client.accepted)
    ensures ok ==> Sent(answers0, accepted0, request.client, built + [old(request.input.entries)])
    ensures !ok ==> Carried(accepted0, request.client.accepted, allEntries, ok, bigMessages, |built|,
      request.input.entries)
    ensures !ok ==> Served(answers0, request.client.answers, |Batches(allEntries, 0)|, false)
  {
    ghost var batch, accepted := request.input.entries, request.client.accepted;
    NextBuilt(allEntries, i, built, batch, bigMessages);
    ok := SendBuilt(request, accepted0, answers0, built);
    GrowsThen(accepted0, accepted, request.client.accepted);
    if !ok {
      SomeCarried(accepted0, request.client.accepted, allEntries, built, batch, bigMessages, answers0,
        request.client.answers, request.input.entries);
    }
  }

  lemma LogGrowsThen(a: seq<seq<Entry>>, b: seq<seq<Entry>>, c: seq<seq<Entry>>)
    requires LogGrows(a, b) && LogGrows(b, c)
    ensures LogGrows(a, c)
  {
  }

  lemma GrowsThen(a: seq<Entry>, b: seq<Entry>, c: seq<Entry>)
    requires Grows(a, b) && Grows(b, c)
    ensures Grows(a, c)
  {
  }

  /** The outer loop: build and send request after request until the plan is done or one fails for good. */
  method SendBatches(request: Request, allEntries: seq<Entry>)
      returns (ok: bool, bigMessages: seq<Entry>, ghost sent: nat)
    requires request.successCount == 0 && DistinctPerBatch(allEntries)
    modifies request, request.client, request.input
    ensures LogGrows(old(request.client.requests), request.client.requests)
    ensures request.successCount == |request.client.accepted| - |old(request.client.accepted)| >= 0
    ensures Grows(old(request.client.accepted), request.client.accepted)
    ensures Carried(old(request.client.accepted), request.client.accepted, allEntries, ok, bigMessages, sent,
      request.input.entries)
    ensures Served(old(request.client.answers), request.client.answers, |Batches(allEntries, 0)|, ok)
  {
    var client, input := request.client, request.input;
    ghost var accepted0, answers0, log0 := client.accepted, client.answers, client.requests;
    bigMessages := [];
    ghost var built: seq<seq<Entry>> := [];
    var i := 0;
    while i < |allEntries|
      invariant At(allEntries, i, built, bigMessages)
      invariant LogGrows(log0, client.requests)
      invariant request.successCount == |client.accepted| - |accepted0|
      invariant Sent(answers0, accepted0, client, built)
    {
      i, bigMessages := NextBatch(allEntries, i, input, built, bigMessages);
      if |input.entries| == 0 {
        assert built == Batches(allEntries, 0) && bigMessages == SetAside(allEntries, 0);
        AllCarried(accepted0, client.accepted, allEntries, built, bigMessages, answers0, client.answers, input.entries);
        return true, bigMessages, |built|;
      }
      ghost var batch, log := input.entries, client.requests;
      ok := SendNext(request, allEntries, i, built, bigMessages, accepted0, answers0);
      LogGrowsThen(log0, log, client.requests);
      if !ok {
        return false, bigMessages, |built|;
      }
      built := built + [batch];
    }
    assert built == Batches(allEntries, 0) && bigMessages == SetAside(allEntries, 0);
    AllCarried(accepted0, client.accepted, allEntries, built, bigMessages, answers0, client.answers, input.entries);
    return true, bigMessages, |built|;
  }

  /** `SendMessageBatch`.  A nil error means that every entry was accepted exactly once.  A too-long error returns the
      oversized entries met and means that the fitting entries up to the stopping point were accepted exactly once.  A
      send failure returns the entries after the first `successCount` ones, followed by oversized ones, which without
      oversized entries is as many as were not accepted, and exactly the ones that were not accepted if and only if the
      last ones of the request that failed are pending. */
  ghost predicate Outcome(
      before: seq<Entry>, after: seq<Entry>, all: seq<Entry>, failures: seq<Entry>, err: Option<Error>,
      pending: seq<Entry>)
  {
    match err
    case None => failures == [] && Accepted(before, after, all) && forall e | e in all :: |e.body| <= 260000
    case Some(BatchRequestTooLong) =>
      var reached := all[..Reached(all, 0)];
      failures == TooBig(reached) && failures != [] && Accepted(before, after, Fitting(reached))
    case Some(SendFailed) => Failure(before, after, all, failures, pending)
  }

  lemma FailedOutcome(before: seq<Entry>, after: seq<Entry>, all: seq<Entry>, aside: seq<Entry>, sent: nat,
      pending: seq<Entry>, count: nat) returns (failures: seq<Entry>)
    requires Carried(before, after, all, false, aside, sent, pending) && count == |after| - |before|
    ensures count <= |all| && failures == all[count..] + aside
    ensures Outcome(before, after, all, failures, Some(SendFailed), pending)
  {
    failures := FailureOutcome(before, after, pending, all, sent, aside, count);
  }

  lemma DoneOutcome(before: seq<Entry>, after: seq<Entry>, all: seq<Entry>, aside: seq<Entry>, sent: nat,
      pending: seq<Entry>) returns (err: Option<Error>)
    requires Carried(before, after, all, true, aside, sent, pending)
    ensures err == if |aside| > 0 then Some(BatchRequestTooLong) else None
    ensures Outcome(before, after, all, aside, err, pending)
  {
    PlanOutcome(before, after, all);
    err := if |aside| > 0 then Some(BatchRequestTooLong) else None;
  }

  /** The call returns `SendFailed` exactly when the last answer of the service is a refusal or names failed
      entries, and otherwise every planned request went through. Ids must be distinct within each request, as the
      SQS API demands. */
  method SendMessageBatch(client: Client, input: Input) returns (failures: seq<Entry>, err: Option<Error>)
    requires DistinctPerBatch(input.entries)
    modifies client, input
    ensures LogGrows(old(client.requests), client.requests) && Grows(old(client.accepted), client.accepted)
    ensures Outcome(old(client.accepted), client.accepted, old(input.entries), failures, err, input.entries)
    ensures Served(old(client.answers), client.answers, |Batches(old(input.entries), 0)|, err != Some(SendFailed))
  {
    var allEntries := input.entries;
    ghost var accepted0 := client.accepted;
    var request := new Request(client, input);
    var ok, bigMessages, sent := SendBatches(request, allEntries);
    if !ok {
      ghost var rest := FailedOutcome(
        accepted0, client.accepted, allEntries, bigMessages, sent, input.entries, request.successCount);
      failures := allEntries[request.successCount..] + bigMessages;
      assert failures == rest;
      return failures, Some(SendFailed);
    }
    ghost var outcome := DoneOutcome(accepted0, client.accepted, allEntries, bigMessages, sent, input.entries);
    if |bigMessages| > 0 {
      return bigMessages, Some(BatchRequestTooLong);
    }
    assert bigMessages == [];
    return [], None;
  }
}
