/** `pkg/awsbatch/s3batch/delete_objects.go`: deleting any number of object versions in requests of at most
    1000, retrying the ones that failed. */
module S3Batch {
  import opened Batching
  import opened GoStrings

  const MAX_OBJECTS: nat := 1000

  datatype ObjectId = ObjectId(key: string, versionId: Option<string>)

  datatype DeleteError = DeleteError(key: string, versionId: Option<string>, code: string, message: string)

  /** The objects that errors name. */
  ghost function Named(errors: seq<DeleteError>): (objects: seq<ObjectId>)
    ensures |objects| == |errors|
  {
    seq(|errors|, i requires 0 <= i < |errors| => ObjectId(errors[i].key, errors[i].versionId))
  }

  /** What S3 answers: an error for the call, or the objects deleted (left out in quiet mode) and the errors,
      which name the objects in any order. */
  datatype Response = CallError | Reply(deleted: seq<ObjectId>, errors: seq<DeleteError>)

  ghost predicate LogGrows(before: seq<seq<ObjectId>>, after: seq<seq<ObjectId>>)
  {
    before <= after && forall k | |before| <= k < |after| :: 1 <= |after[k]| <= 1000
  }

  /** What an answer amounts to. */
  ghost function AnswerOf(r: Response): Attempt
  {
    if r.CallError? then Permanent else if r.errors == [] then Done else Again
  }

  /** The bucket: it may refuse a call, and may delete any part of what is asked. */
  class Client {
    ghost var requests: seq<seq<ObjectId>>
    ghost var gone: seq<ObjectId>
    ghost var answers: seq<Attempt>

    method DeleteObjects(objects: seq<ObjectId>, quiet: bool) returns (r: Response, ghost marks: seq<bool>)
      modifies this
      ensures requests == old(requests) + [objects] && answers == old(answers) + [AnswerOf(r)]
      ensures r.CallError? ==> gone == old(gone)
      ensures r.Reply? ==>
        && |marks| == |objects| && gone == old(gone) + Select(objects, marks, true)
        && |r.deleted| == (if quiet then 0 else |Select(objects, marks, true)|)
        && multiset(Named(r.errors)) == multiset(Select(objects, marks, false))
    {
      var works: bool := *;
      var m: seq<bool> := *;
      marks := m;
      requests := requests + [objects];
      if works && |m| == |objects| {
        var failed := Select(objects, m, false);
        var code: string, message: string := *, *;
        var errors := seq(|failed|, i requires 0 <= i < |failed| =>
          DeleteError(failed[i].key, failed[i].versionId, code, message));
        assert Named(errors) == failed;
        r := Reply(if quiet then [] else Select(objects, m, true), errors);
        gone := gone + Select(objects, m, true);
      } else {
        r := CallError;
      }
      answers := answers + [AnswerOf(r)];
    }
  }

  class Input {
    var objects: seq<ObjectId>
    var quiet: bool
  }

  /** The objects to be retried: each error names one, whatever its code and message. */
  method RetryObjects(errors: seq<DeleteError>) returns (retryObjects: seq<ObjectId>)
    ensures retryObjects == Named(errors)
  {
    retryObjects := [];
    var i := 0;
    while i < |errors|
      invariant 0 <= i <= |errors| && retryObjects == Named(errors)[..i]
    {
      var result := errors[i];
      retryObjects := retryObjects + [ObjectId(result.key, result.versionId)];
      i := i + 1;
    }
  }

  /** `deleteObjectsRequest`. */
  class Request {
    const client: Client
    const input: Input
    var deleted: nat

    constructor (client: Client, input: Input)
      ensures this.client == client && this.input == input && deleted == 0
    {
      this.client, this.input, deleted := client, input, 0;
    }

    /** `send`: one call; afterwards the input holds the objects rebuilt from the errors. */
    method Send() returns (out: Attempt)
      requires input.objects != []
      modifies this, client, input`objects
      ensures client.requests == old(client.requests) + [old(input.objects)]
      ensures client.answers == old(client.answers) + [out]
      ensures deleted - old(deleted) == if input.quiet then 0 else |client.gone| - |old(client.gone)|
      ensures Conserved(old(client.gone), old(input.objects), client.gone, if out.Done? then [] else input.objects)
      ensures 0 < |input.objects| <= |old(input.objects)|
    {
      ghost var before, gone0 := input.objects, client.gone;
      var response, marks := client.DeleteObjects(input.objects, input.quiet);
      if response.CallError? {
        return Permanent;
      }
      SplitPending(gone0, before, marks, Named(response.errors));
      deleted := deleted + |response.deleted|;
      if |response.errors| > 0 {
        var retryObjects := RetryObjects(response.errors);
        input.objects := retryObjects;
        return Again;
      }
      return Done;
    }

    /** `backoff.Retry(request.send, config)`. */
    method Retry(retries: nat) returns (ok: bool)
      requires 1 <= |input.objects| <= MAX_OBJECTS
      modifies this, client, input`objects
      ensures LogGrows(old(client.requests), client.requests)
      ensures Attempts(old(client.answers), client.answers, ok)
      ensures Patient(old(client.answers), client.answers, retries)
      ensures deleted - old(deleted) == if input.quiet then 0 else |client.gone| - |old(client.gone)|
      ensures Conserved(old(client.gone), old(input.objects), client.gone, if ok then [] else input.objects)
    {
      var attempts := retries;
      ghost var before, gone0, answers0 := input.objects, client.gone, client.answers;
      while true
        invariant 1 <= |input.objects| <= MAX_OBJECTS
        invariant LogGrows(old(client.requests), client.requests)
        invariant deleted - old(deleted) == if input.quiet then 0 else |client.gone| - |gone0|
        invariant Conserved(gone0, before, client.gone, input.objects)
        invariant |client.answers| - |answers0| + attempts == retries
        invariant answers0 <= client.answers && forall k | |answers0| <= k < |client.answers| ::
          client.answers[k].Again?
        decreases attempts
      {
        ghost var answers := client.answers;
        var out := Send();
        AttemptsThen(answers0, answers, out);
        if out.Done? {
          return true;
        }
        if out.Permanent? || attempts == 0 {
          return false;
        }
        attempts := attempts - 1;
      }
    }
  }

  /** `DeleteObjects`.  Success means that every object was deleted exactly once.  On failure every object is
      deleted, still in the input, or after `next`, exactly once.  The counter is the number deleted unless the
      caller asked for quiet mode, in which it stays zero.  No request exceeds 1000 objects. */
  method DeleteObjects(client: Client, input: Input) returns (ok: bool, deleted: nat, next: nat)
    modifies client, input`objects
    ensures LogGrows(old(client.requests), client.requests)
    ensures deleted == if input.quiet then 0 else |client.gone| - |old(client.gone)|
    ensures ok ==> Accepted(old(client.gone), client.gone, old(input.objects))
    ensures !ok ==>
      && next <= |old(input.objects)|
      && Conserved(old(client.gone), old(input.objects)[..next], client.gone, input.objects)
      && |client.gone| - |old(client.gone)| + |input.objects| + |old(input.objects)[next..]| == |old(input.objects)|
    ensures Served(old(client.answers), client.answers, Ceil(|old(input.objects)|, 1000), ok)
  {
    var allObjects := input.objects;
    ghost var gone0 := client.gone;
    var request := new Request(client, input);
    ghost var answers0 := client.answers;
    ghost var n := 0;
    var i := 0;
    next := 0;
    while i < |allObjects|
      invariant next == (if i < |allObjects| then i else |allObjects|)
      invariant i == n * MAX_OBJECTS && (n > 0 ==> (n - 1) * MAX_OBJECTS < |allObjects|)
      invariant Calls(answers0, client.answers, n, true)
      invariant LogGrows(old(client.requests), client.requests)
      invariant request.deleted == if input.quiet then 0 else |client.gone| - |gone0|
      invariant Accepted(gone0, client.gone, allObjects[..next])
    {
      if i + MAX_OBJECTS >= |allObjects| {
        input.objects := allObjects[i..];
        next := |allObjects|;
      } else {
        input.objects := allObjects[i..i + MAX_OBJECTS];
        next := i + MAX_OBJECTS;
      }
      assert input.objects == allObjects[i..next];
      ghost var gone, answers := client.gone, client.answers;
      var retries: nat := *;
      ok := request.Retry(retries);
      CallsThen(answers0, answers, client.answers, n, ok);
      CeilIs(|allObjects|, MAX_OBJECTS, n);
      if !ok {
        SliceWithin(gone0, gone, allObjects, i, next, client.gone, input.objects);
        return false, request.deleted, next;
      }
      SliceAccepted(gone0, gone, allObjects, i, next, client.gone);
      i, n := i + MAX_OBJECTS, n + 1;
    }
    assert allObjects[..next] == allObjects;
    CeilIs(|allObjects|, MAX_OBJECTS, n);
    return true, request.deleted, next;
  }
}
