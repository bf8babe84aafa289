/** What the batch wrappers in `pkg/awsbatch` share: a response splits a request into the items the
    service accepted and the items it did not, and a call that fails accepts nothing. */
module Batching {

  /** The items whose mark is `keep`, in order. */
  function Select<T>(items: seq<T>, marks: seq<bool>, keep: bool): (r: seq<T>)
    requires |marks| == |items|
    ensures |r| <= |items|
  {
    if items == [] then []
    else
      var n := |items| - 1;
      Select(items[..n], marks[..n], keep) + (if marks[n] == keep then [items[n]] else [])
  }

  lemma MultisetSnoc<T>(items: seq<T>, x: T)
    ensures multiset(items + [x]) == multiset(items) + multiset{x}
  {
  }

  lemma ConcatThree<T>(a: seq<T>, b: seq<T>, c: seq<T>)
    ensures a + (b + c) == (a + b) + c
  {
  }

  lemma PrefixGrows<T>(s: seq<T>, i: nat, j: nat)
    requires i <= j <= |s|
    ensures s[..j] == s[..i] + s[i..j]
  {
  }

  lemma OneMore<T>(a: multiset<T>, b: multiset<T>, x: T)
    ensures (a + multiset{x}) + b == (a + b) + multiset{x} == a + (b + multiset{x})
  {
  }

  /** Both halves of a split make up the whole. */
  lemma {:induction false} SelectSplits<T>(items: seq<T>, marks: seq<bool>)
    requires |marks| == |items|
    ensures multiset(Select(items, marks, true)) + multiset(Select(items, marks, false)) == multiset(items)
    ensures |Select(items, marks, true)| + |Select(items, marks, false)| == |items|
  {
    if items != [] {
      var n := |items| - 1;
      var taken, left := Select(items[..n], marks[..n], true), Select(items[..n], marks[..n], false);
      SelectSplits(items[..n], marks[..n]);
      OneMore(multiset(taken), multiset(left), items[n]);
      MultisetSnoc(items[..n], items[n]);
      assert items == items[..n] + [items[n]];
      if marks[n] {
        assert Select(items, marks, true) == taken + [items[n]] && Select(items, marks, false) == left;
        MultisetSnoc(taken, items[n]);
      } else {
        assert Select(items, marks, true) == taken && Select(items, marks, false) == left + [items[n]];
        MultisetSnoc(left, items[n]);
      }
    }
  }

  /** Any part of the items can be marked. */
  lemma {:induction false} SelectPart<T>(items: seq<T>, part: multiset<T>) returns (marks: seq<bool>)
    requires part <= multiset(items)
    ensures |marks| == |items| && multiset(Select(items, marks, true)) == part
  {
    marks := [];
    if items != [] {
      var n := |items| - 1;
      var front, x := items[..n], items[n];
      assert items == front + [x];
      MultisetSnoc(front, x);
      var rest := if x in part then part - multiset{x} else part;
      var before := SelectPart(front, rest);
      marks := before + [x in part];
      assert marks[..n] == before;
      MultisetSnoc(Select(front, before, true), x);
    }
  }

  lemma {:induction false} SelectAll<T>(items: seq<T>, marks: seq<bool>)
    requires |marks| == |items| && forall i | 0 <= i < |marks| :: marks[i]
    ensures Select(items, marks, true) == items
  {
    if items != [] {
      SelectAll(items[..|items| - 1], marks[..|items| - 1]);
    }
  }

  lemma {:induction false} SelectMembers<T>(items: seq<T>, marks: seq<bool>, keep: bool)
    requires |marks| == |items|
    ensures forall x :: x in Select(items, marks, keep) <==>
      exists i | 0 <= i < |items| :: marks[i] == keep && items[i] == x
  {
    if items != [] {
      var n := |items| - 1;
      SelectMembers(items[..n], marks[..n], keep);
    }
  }

  /** The items that satisfy `p`, in order. */
  function Keep<T>(items: seq<T>, p: T -> bool): seq<T>
  {
    if items == [] then []
    else
      var n := |items| - 1;
      Keep(items[..n], p) + (if p(items[n]) then [items[n]] else [])
  }

  lemma {:induction false} KeepWithin<T>(items: seq<T>, p: T -> bool)
    ensures |Keep(items, p)| <= |items| && multiset(Keep(items, p)) <= multiset(items)
  {
    if items != [] {
      var n := |items| - 1;
      KeepWithin(items[..n], p);
      assert items == items[..n] + [items[n]];
    }
  }

  lemma KeepSnoc<T>(items: seq<T>, x: T, p: T -> bool)
    ensures Keep(items + [x], p) == Keep(items, p) + (if p(x) then [x] else [])
  {
  }

  lemma {:induction false} KeepAppend<T>(a: seq<T>, b: seq<T>, p: T -> bool)
    ensures Keep(a + b, p) == Keep(a, p) + Keep(b, p)
  {
    if b == [] {
      assert a + b == a;
    } else {
      var n := |b| - 1;
      KeepAppend(a, b[..n], p);
      assert a + b == (a + b[..n]) + [b[n]];
      KeepSnoc(a + b[..n], b[n], p);
      ConcatThree(Keep(a, p), Keep(b[..n], p), if p(b[n]) then [b[n]] else []);
    }
  }

  lemma {:induction false} KeepAll<T>(items: seq<T>, p: T -> bool)
    requires forall i | 0 <= i < |items| :: p(items[i])
    ensures Keep(items, p) == items
  {
    if items != [] {
      KeepAll(items[..|items| - 1], p);
    }
  }

  lemma {:induction false} KeepNone<T>(items: seq<T>, p: T -> bool)
    requires forall i | 0 <= i < |items| :: !p(items[i])
    ensures Keep(items, p) == []
  {
    if items != [] {
      KeepNone(items[..|items| - 1], p);
    }
  }

  function Flatten<T>(batches: seq<seq<T>>): seq<T>
  {
    if batches == [] then [] else batches[0] + Flatten(batches[1..])
  }

  lemma FlattenSnoc<T>(batches: seq<seq<T>>, b: seq<T>)
    ensures Flatten(batches + [b]) == Flatten(batches) + b
  {
    FlattenAppend(batches, [b]);
    assert Flatten([b]) == b + [];
  }

  lemma {:induction false} FlattenAppend<T>(a: seq<seq<T>>, b: seq<seq<T>>)
    ensures Flatten(a + b) == Flatten(a) + Flatten(b)
  {
    if a == [] {
      assert a + b == b;
    } else {
      FlattenAppend(a[1..], b);
      assert (a + b)[0] == a[0] && (a + b)[1..] == a[1..] + b;
      ConcatThree(a[0], Flatten(a[1..]), Flatten(b));
    }
  }

  /** Nothing lost, nothing doubled: what was accepted and what is pending make up what there was. */
  ghost predicate Conserved<T>(accepted0: seq<T>, pending0: seq<T>, accepted: seq<T>, pending: seq<T>)
  {
    multiset(accepted) + multiset(pending) == multiset(accepted0) + multiset(pending0)
  }

  lemma ConservedStep<T>(accepted0: seq<T>, pending0: seq<T>, accepted: seq<T>, pending: seq<T>, marks: seq<bool>)
    requires |marks| == |pending| && Conserved(accepted0, pending0, accepted, pending)
    ensures Conserved(accepted0, pending0, accepted + Select(pending, marks, true), Select(pending, marks, false))
  {
    SelectSplits(pending, marks);
  }

  lemma ConservedPush<T>(accepted0: seq<T>, pending0: seq<T>, accepted: seq<T>, pending: seq<T>, x: T)
    requires Conserved(accepted0, pending0, accepted, pending)
    ensures Conserved(accepted0, pending0 + [x], accepted, pending + [x])
  {
    forall y
      ensures (multiset(accepted) + multiset(pending + [x]))[y] == (multiset(accepted0) + multiset(pending0 + [x]))[y]
    {
      assert (multiset(accepted) + multiset(pending))[y] == (multiset(accepted0) + multiset(pending0))[y];
    }
  }

  /** A reply whose failed items are named in any order leaves exactly those pending. */
  lemma SplitPending<T>(accepted: seq<T>, request: seq<T>, marks: seq<bool>, failed: seq<T>)
    requires |marks| == |request| && multiset(failed) == multiset(Select(request, marks, false))
    ensures |failed| == |Select(request, marks, false)| && |failed| + |Select(request, marks, true)| == |request|
    ensures Conserved(accepted, request, accepted + Select(request, marks, true), failed)
  {
    SelectSplits(request, marks);
    assert |multiset(failed)| == |multiset(Select(request, marks, false))|;
  }

  /** The service has accepted the items, each exactly once, on top of what it had. */
  ghost predicate Accepted<T>(before: seq<T>, after: seq<T>, items: seq<T>)
  {
    multiset(after) == multiset(before) + multiset(items)
  }

  lemma AcceptedThen<T>(before: seq<T>, middle: seq<T>, after: seq<T>, sent: seq<T>, batch: seq<T>)
    requires Accepted(before, middle, sent) && Conserved(middle, batch, after, [])
    ensures Accepted(before, after, sent + batch)
  {
    forall x
      ensures multiset(after)[x] == multiset(before)[x] + multiset(sent + batch)[x]
    {
      assert (multiset(after) + multiset([]))[x] == (multiset(middle) + multiset(batch))[x];
    }
  }

  /** A request that failed for good: what is accepted and what is pending make up what was sent. */
  lemma SentWithin<T>(before: seq<T>, middle: seq<T>, sent: seq<T>, batch: seq<T>, after: seq<T>, pending: seq<T>)
    requires Accepted(before, middle, sent) && Conserved(middle, batch, after, pending)
    ensures Conserved(before, sent + batch, after, pending)
    ensures |after| - |before| + |pending| == |sent| + |batch|
  {
    forall x
      ensures multiset(after)[x] + multiset(pending)[x] == multiset(before)[x] + multiset(sent + batch)[x]
    {
      assert (multiset(after) + multiset(pending))[x] == (multiset(middle) + multiset(batch))[x];
    }
    ConservedWithin(before, sent + batch, after, pending);
  }

  /** The same for the batches `i..j` of one sequence. */
  lemma SliceAccepted<T>(before: seq<T>, middle: seq<T>, all: seq<T>, i: nat, j: nat, after: seq<T>)
    requires i <= j <= |all| && Accepted(before, middle, all[..i]) && Conserved(middle, all[i..j], after, [])
    ensures Accepted(before, after, all[..j])
  {
    PrefixGrows(all, i, j);
    AcceptedThen(before, middle, after, all[..i], all[i..j]);
  }

  lemma SliceWithin<T>(
      before: seq<T>, middle: seq<T>, all: seq<T>, i: nat, j: nat, after: seq<T>, pending: seq<T>)
    requires i <= j <= |all| && Accepted(before, middle, all[..i]) && Conserved(middle, all[i..j], after, pending)
    ensures Conserved(before, all[..j], after, pending)
    ensures |after| - |before| + |pending| + |all[j..]| == |all|
  {
    PrefixGrows(all, i, j);
    SentWithin(before, middle, all[..i], all[i..j], after, pending);
  }

  lemma ConservedWithin<T>(accepted0: seq<T>, pending0: seq<T>, accepted: seq<T>, pending: seq<T>)
    requires Conserved(accepted0, pending0, accepted, pending)
    ensures |accepted| + |pending| == |accepted0| + |pending0|
    ensures multiset(accepted) <= multiset(accepted0) + multiset(pending0)
  {
    assert |multiset(accepted) + multiset(pending)| == |accepted| + |pending|;
    assert |multiset(accepted0) + multiset(pending0)| == |accepted0| + |pending0|;
  }

  /** How an attempt ended: all went through, some did not and may be retried, or it failed for good. */
  datatype Attempt = Done | Again | Permanent

  function Dones(log: seq<Attempt>): nat
  {
    if log == [] then 0 else Dones(log[..|log| - 1]) + (if log[|log| - 1].Done? then 1 else 0)
  }

  /** What the service answered while one request was tried: failures that may be retried, and then the answer that
      decides; the request succeeds exactly when that is a success. */
  ghost predicate Attempts(before: seq<Attempt>, after: seq<Attempt>, ok: bool)
  {
    && before < after && (forall k | |before| <= k < |after| - 1 :: after[k].Again?)
    && (ok <==> after[|after| - 1].Done?)
  }

  /** A failure that may be retried is the last answer only once all retries are used up; how many there are is up to
      the back-off, which stops when its time is over. */
  ghost predicate Patient(before: seq<Attempt>, after: seq<Attempt>, retries: nat)
  {
    && |after| - |before| <= retries + 1
    && (after != [] && after[|after| - 1].Again? ==> |after| - |before| == retries + 1)
  }

  /** What it answered while `n` requests succeeded: a refusal ends everything, and the call as a whole fails exactly
      when the last answer is a failure. */
  ghost predicate Calls(before: seq<Attempt>, after: seq<Attempt>, n: nat, ok: bool)
  {
    && before <= after && Dones(after) == Dones(before) + n
    && (forall k | |before| <= k < |after| - 1 :: !after[k].Permanent?)
    && if ok then after == before || after[|after| - 1].Done? else before < after && !after[|after| - 1].Done?
  }

  /** What it answered to a call of `plan` requests: success means that all of them went through, and failure that one
      of them did not. */
  ghost predicate Served(before: seq<Attempt>, after: seq<Attempt>, plan: int, ok: bool)
  {
    if ok then plan >= 0 && Calls(before, after, plan, true)
    else exists n: nat :: n < plan && Calls(before, after, n, false)
  }

  /** The number of batches of at most `size`. */
  function Ceil(total: nat, size: nat): nat
    requires size > 0
  {
    (total + size - 1) / size
  }

  lemma CeilIs(total: nat, size: nat, n: nat)
    requires size > 0
    ensures n * size < total ==> n < Ceil(total, size)
    ensures (n == 0 || (n - 1) * size < total) && total <= n * size ==> n == Ceil(total, size)
  {
    var c := Ceil(total, size);
    assert c * size <= total + size - 1 < c * size + size;
    Scaled(c, n, size);
    Scaled(c, n - 1, size);
    Scaled(n, c - 1, size);
  }

  lemma Scaled(a: int, b: int, d: nat)
    ensures a <= b ==> a * d <= b * d
  {
  }

  lemma ServedOf(before: seq<Attempt>, after: seq<Attempt>, n: nat, plan: int, ok: bool)
    requires Calls(before, after, n, ok) && if ok then n == plan else n < plan
    ensures Served(before, after, plan, ok)
  {
  }

  lemma {:induction false} DonesOf(before: seq<Attempt>, after: seq<Attempt>)
    requires before < after && forall k | |before| <= k < |after| - 1 :: after[k].Again?
    ensures Dones(after) == Dones(before) + if after[|after| - 1].Done? then 1 else 0
  {
    var front := after[..|after| - 1];
    if |before| < |front| {
      DonesOf(before, front);
    } else {
      assert front == before;
    }
  }

  lemma CallsThen(a: seq<Attempt>, b: seq<Attempt>, c: seq<Attempt>, n: nat, ok: bool)
    requires Calls(a, b, n, true) && Attempts(b, c, ok)
    ensures Calls(a, c, if ok then n + 1 else n, ok)
  {
    DonesOf(b, c);
  }

  lemma AttemptsThen(a: seq<Attempt>, b: seq<Attempt>, out: Attempt)
    requires a <= b && forall k | |a| <= k < |b| :: b[k].Again?
    ensures a < b + [out] && forall k | |a| <= k < |b + [out]| - 1 :: (b + [out])[k].Again?
    ensures Attempts(a, b + [out], out.Done?)
  {
  }
}
