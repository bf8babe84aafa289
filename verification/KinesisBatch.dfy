/** `pkg/awsbatch/kinesisbatch/put_records.go`: putting any number of records in requests of at most 500,
    retrying the ones that failed. */
module KinesisBatch {
  import opened Batching
  import opened GoStrings

  const MAX_RECORDS: nat := 500

  type Record = string

  /** What Kinesis answers: an error that may pass, another error, or one result per record. */
  datatype Response =
    | ThroughputExceeded
    | OtherError
    | Reply(failedRecordCount: Option<nat>, errorMessages: seq<Option<string>>)

  ghost predicate LogGrows(before: seq<seq<Record>>, after: seq<seq<Record>>)
  {
    before <= after && forall k | |before| <= k < |after| :: 1 <= |after[k]| <= 500
  }

  /** What an answer amounts to: only a throttled call and failed records may be tried again. */
  ghost function AnswerOf(r: Response): Attempt
  {
    match r
    case ThroughputExceeded => Again
    case OtherError => Permanent
    case Reply(count, _) => if count == None || count == Some(0) then Done else Again
  }

  /** The stream: it may refuse a call, and may accept any part of a request. */
  class Client {
    ghost var requests: seq<seq<Record>>
    ghost var accepted: seq<Record>
    ghost var answers: seq<Attempt>

    method PutRecords(records: seq<Record>) returns (r: Response, ghost marks: seq<bool>)
      modifies this
      ensures requests == old(requests) + [records] && answers == old(answers) + [AnswerOf(r)]
      ensures !r.Reply? ==> accepted == old(accepted)
      ensures r.Reply? ==>
        && |marks| == |records| && accepted == old(accepted) + Select(records, marks, true)
        && |r.errorMessages| == |records| && (forall i | 0 <= i < |records| :: r.errorMessages[i].Some? <==> !marks[i])
        && (if r.failedRecordCount.Some? then r.failedRecordCount.value else 0) == |Select(records, marks, false)|
    {
      var answer: int := *;
      var messages: seq<Option<string>> := *;
      var countGiven: bool := *;
      requests := requests + [records];
      if answer == 0 && |messages| == |records| {
        var m := seq(|messages|, i requires 0 <= i < |messages| => !messages[i].Some?);
        marks := m;
        var failed := |Select(records, m, false)|;
        r := Reply(if failed == 0 && !countGiven then None else Some(failed), messages);
        accepted := accepted + Select(records, m, true);
      } else {
        marks := [];
        r := if answer == 1 then ThroughputExceeded else OtherError;
      }
      answers := answers + [AnswerOf(r)];
    }
  }

  class Input {
    var records: seq<Record>
  }

  /** The records whose result carries an error message. */
  method FailedRecords(records: seq<Record>, errorMessages: seq<Option<string>>, ghost marks: seq<bool>)
    returns (retryRecords: seq<Record>)
    requires |errorMessages| == |records| == |marks|
    requires forall i | 0 <= i < |records| :: errorMessages[i].Some? <==> !marks[i]
    ensures retryRecords == Select(records, marks, false)
  {
    retryRecords := [];
    var i := 0;
    while i < |errorMessages|
      invariant 0 <= i <= |records| && retryRecords == Select(records[..i], marks[..i], false)
    {
      assert records[..i + 1][..i] == records[..i] && marks[..i + 1][..i] == marks[..i];
      if errorMessages[i].Some? {
        retryRecords := retryRecords + [records[i]];
      }
      i := i + 1;
    }
    assert records[..i] == records && marks[..i] == marks;
  }

  /** `putRecordsRequest`. */
  class Request {
    const client: Client
    const input: Input
    var successCount: int

    constructor (client: Client, input: Input)
      ensures this.client == client && this.input == input && successCount == 0
    {
      this.client, this.input, successCount := client, input, 0;
    }

    /** `send`: one call; afterwards the input holds only the records that failed. */
    method Send() returns (out: Attempt)
      requires input.records != []
      modifies this, client, input
      ensures client.requests == old(client.requests) + [old(input.records)]
      ensures client.answers == old(client.answers) + [out]
      ensures successCount - old(successCount) == |client.accepted| - |old(client.accepted)|
      ensures Conserved(old(client.accepted), old(input.records), client.accepted,
        if out.Done? then [] else input.records)
      ensures 0 < |input.records| <= |old(input.records)|
    {
      ghost var before, accepted0 := input.records, client.accepted;
      var response, marks := client.PutRecords(input.records);
      if !response.Reply? {
        return if response.ThroughputExceeded? then Again else Permanent;
      }
      SplitPending(accepted0, before, marks, Select(before, marks, false));
      successCount := successCount + |input.records|;
      if response.failedRecordCount.Some? && response.failedRecordCount.value > 0 {
        successCount := successCount - response.failedRecordCount.value;
        var retryRecords := FailedRecords(input.records, response.errorMessages, marks);
        input.records := retryRecords;
        return Again;
      }
      return Done;
    }

    /** `backoff.Retry(request.send, config)`. */
    method Retry(retries: nat) returns (ok: bool)
      requires 1 <= |input.records| <= MAX_RECORDS
      modifies this, client, input
      ensures LogGrows(old(client.requests), client.requests)
      ensures Attempts(old(client.answers), client.answers, ok)
      ensures Patient(old(client.answers), client.answers, retries)
      ensures successCount - old(successCount) == |client.accepted| - |old(client.accepted)|
      ensures Conserved(old(client.accepted), old(input.records), client.accepted, if ok then [] else input.records)
    {
      var attempts := retries;
      ghost var before, accepted0, answers0 := input.records, client.accepted, client.answers;
      while true
        invariant 1 <= |input.records| <= MAX_RECORDS
        invariant LogGrows(old(client.requests), client.requests)
        invariant successCount - old(successCount) == |client.accepted| - |accepted0|
        invariant Conserved(accepted0, before, client.accepted, input.records)
        invariant |client.answers| - |answers0| + attempts == retries
        invariant answers0 <= client.answers && forall k | |answers0| <= k < |client.answers| ::
          client.answers[k].Again?
        decreases attempts
      {
        ghost var answers := client.answers;
        var out := Send();
        AttemptsThen(answers0, answers, out);
        if out.Done? {
          return true;
        }
        if out.Permanent? || attempts == 0 {
          return false;
        }
        attempts := attempts - 1;
      }
    }
  }

  /** `PutRecords`.  Success means that every record was accepted exactly once.  On failure `next` is how far
      batching got, and counter, outstanding records and records not yet batched add up: every record is accepted,
      still in the input, or after `next`, exactly once.  No request exceeds 500 records. */
  method PutRecords(client: Client, input: Input) returns (ok: bool, successCount: int, next: nat)
    modifies client, input
    ensures LogGrows(old(client.requests), client.requests)
    ensures successCount == |client.accepted| - |old(client.accepted)|
    ensures ok ==> Accepted(old(client.accepted), client.accepted, old(input.records))
    ensures !ok ==>
      && next <= |old(input.records)|
      && Conserved(old(client.accepted), old(input.records)[..next], client.accepted, input.records)
      && successCount + |input.records| + |old(input.records)[next..]| == |old(input.records)|
    ensures Served(old(client.answers), client.answers, Ceil(|old(input.records)|, 500), ok)
  {
    var allRecords := input.records;
    ghost var accepted0 := client.accepted;
    var request := new Request(client, input);
    ghost var answers0 := client.answers;
    ghost var n := 0;
    var i := 0;
    next := 0;
    while i < |allRecords|
      invariant next == (if i < |allRecords| then i else |allRecords|)
      invariant i == n * MAX_RECORDS && (n > 0 ==> (n - 1) * MAX_RECORDS < |allRecords|)
      invariant Calls(answers0, client.answers, n, true)
      invariant LogGrows(old(client.requests), client.requests)
      invariant request.successCount == |client.accepted| - |accepted0|
      invariant Accepted(accepted0, client.accepted, allRecords[..next])
    {
      if i + MAX_RECORDS >= |allRecords| {
        input.records := allRecords[i..];
        next := |allRecords|;
      } else {
        input.records := allRecords[i..i + MAX_RECORDS];
        next := i + MAX_RECORDS;
      }
      assert input.records == allRecords[i..next];
      ghost var accepted, answers := client.accepted, client.answers;
      var retries: nat := *;
      ok := request.Retry(retries);
      CallsThen(answers0, answers, client.answers, n, ok);
      CeilIs(|allRecords|, MAX_RECORDS, n);
      if !ok {
        SliceWithin(accepted0, accepted, allRecords, i, next, client.accepted, input.records);
        return false, request.successCount, next;
      }
      SliceAccepted(accepted0, accepted, allRecords, i, next, client.accepted);
      i, n := i + MAX_RECORDS, n + 1;
    }
    assert allRecords[..next] == allRecords;
    CeilIs(|allRecords|, MAX_RECORDS, n);
    return true, request.successCount, next;
  }
}
