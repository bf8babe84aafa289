/** State machines and their runs, and sums over the parts of a state. */
module Runs {

  /** Which events are possible in a state, and where they lead. */
  datatype Machine<!S, !E> = Machine(can: (S, E) -> bool, next: (S, E) -> S)

  /** The events can happen one after the other. */
  ghost predicate Possible<S, E>(m: Machine<S, E>, s: S, run: seq<E>)
    decreases |run|
  {
    run == [] || (m.can(s, run[0]) && Possible(m, m.next(s, run[0]), run[1..]))
  }

  ghost function After<S, E>(m: Machine<S, E>, s: S, run: seq<E>): S
    decreases |run|
  {
    if run == [] then s else After(m, m.next(s, run[0]), run[1..])
  }

  /** Nothing more can happen. */
  ghost predicate Stuck<S, E(!new)>(m: Machine<S, E>, s: S) { forall e :: !m.can(s, e) }

  lemma {:induction false} RunAppend<S, E>(m: Machine<S, E>, s: S, first: seq<E>, second: seq<E>)
    requires Possible(m, s, first)
    ensures Possible(m, s, first + second) <==> Possible(m, After(m, s, first), second)
    ensures After(m, s, first + second) == After(m, After(m, s, first), second)
    decreases |first|
  {
    if first == [] {
      assert first + second == second;
    } else {
      RunAppend(m, m.next(s, first[0]), first[1..], second);
      assert (first + second)[1..] == first[1..] + second;
    }
  }

  /** Every event keeps the invariant and lowers the rank. */
  ghost predicate Steps<S(!new), E(!new)>(m: Machine<S, E>, inv: S -> bool, rank: S -> int)
  {
    forall s, e | inv(s) && m.can(s, e) :: inv(m.next(s, e)) && rank(m.next(s, e)) < rank(s)
  }

  /** So every run keeps the invariant and uses up the rank. */
  lemma {:induction false} RunKeeps<S(!new), E(!new)>(
      m: Machine<S, E>, inv: S -> bool, rank: S -> int, s: S, run: seq<E>)
    requires Steps(m, inv, rank) && inv(s) && Possible(m, s, run)
    ensures inv(After(m, s, run)) && rank(After(m, s, run)) + |run| <= rank(s)
    decreases |run|
  {
    if run != [] {
      RunKeeps(m, inv, rank, m.next(s, run[0]), run[1..]);
    }
  }

  ghost predicate Occurs<E>(run: seq<E>, p: E -> bool) { exists k | 0 <= k < |run| :: p(run[k]) }
  ghost predicate AllAre<E>(run: seq<E>, p: E -> bool) { forall k | 0 <= k < |run| :: p(run[k]) }

  lemma RunParts<E>(run: seq<E>, p: E -> bool)
    requires run != []
    ensures Occurs(run, p) <==> p(run[0]) || Occurs(run[1..], p)
    ensures AllAre(run, p) <==> p(run[0]) && AllAre(run[1..], p)
  {
    assert forall k | 0 <= k < |run[1..]| :: run[1..][k] == run[k + 1];
    assert forall k | 1 <= k < |run| :: run[k] == run[1..][k - 1];
    if Occurs(run[1..], p) {
      var k :| 0 <= k < |run[1..]| && p(run[1..][k]);
      assert p(run[k + 1]);
    }
  }

  /** Events leave a mark that stays, and keep what only other events could break. */
  ghost predicate Traces<S(!new), E(!new)>(
      m: Machine<S, E>, inv: S -> bool, marked: S -> bool, marks: E -> bool, kept: S -> bool, keeps: E -> bool)
  {
    forall s, e | inv(s) && m.can(s, e) ::
      && inv(m.next(s, e)) && (marked(s) || marks(e) ==> marked(m.next(s, e)))
      && (kept(s) && keeps(e) ==> kept(m.next(s, e)))
  }

  lemma {:induction false} RunTraces<S(!new), E(!new)>(
      m: Machine<S, E>, inv: S -> bool, marked: S -> bool, marks: E -> bool, kept: S -> bool, keeps: E -> bool, s: S,
      run: seq<E>)
    requires Traces(m, inv, marked, marks, kept, keeps) && inv(s) && Possible(m, s, run)
    ensures marked(s) || Occurs(run, marks) ==> marked(After(m, s, run))
    ensures kept(s) && AllAre(run, keeps) ==> kept(After(m, s, run))
    decreases |run|
  {
    if run != [] {
      RunParts(run, marks);
      RunParts(run, keeps);
      RunTraces(m, inv, marked, marks, kept, keeps, m.next(s, run[0]), run[1..]);
    }
  }

  /** How many of the events are such. */
  ghost function Tally<E>(run: seq<E>, p: E -> bool): nat
  {
    if run == [] then 0 else (if p(run[0]) then 1 else 0) + Tally(run[1..], p)
  }

  lemma {:induction false} TallyOccurs<E>(run: seq<E>, p: E -> bool)
    ensures Tally(run, p) > 0 <==> Occurs(run, p)
  {
    if run != [] {
      TallyOccurs(run[1..], p);
      RunParts(run, p);
    }
  }

  /** What goes up by one at such events and at no others counts them. */
  lemma {:induction false} RunCounts<S(!new), E(!new)>(
      m: Machine<S, E>, inv: S -> bool, count: S -> int, p: E -> bool, s: S, run: seq<E>)
    requires forall t, e | inv(t) && m.can(t, e) ::
      inv(m.next(t, e)) && count(m.next(t, e)) == count(t) + if p(e) then 1 else 0
    requires inv(s) && Possible(m, s, run)
    ensures count(After(m, s, run)) == count(s) + Tally(run, p)
    decreases |run|
  {
    if run != [] {
      RunCounts(m, inv, count, p, m.next(s, run[0]), run[1..]);
    }
  }

  /** And some run goes on until it is stuck. */
  lemma {:induction false} RunToEnd<S(!new), E(!new)>(m: Machine<S, E>, inv: S -> bool, rank: S -> int, s: S)
    returns (run: seq<E>)
    requires Steps(m, inv, rank) && inv(s) && forall t | inv(t) :: rank(t) >= 0
    ensures Possible(m, s, run) && Stuck(m, After(m, s, run))
    decreases rank(s)
  {
    if e :| m.can(s, e) {
      var rest := RunToEnd(m, inv, rank, m.next(s, e));
      run := [e] + rest;
      assert run[1..] == rest;
    } else {
      run := [];
    }
  }

  /** The sum of a cost over all parts. */
  function Sum<T>(parts: seq<T>, cost: T -> nat): nat
  {
    if parts == [] then 0 else Sum(parts[..|parts| - 1], cost) + cost(parts[|parts| - 1])
  }

  lemma {:induction false} SumUpdate<T>(parts: seq<T>, cost: T -> nat, i: nat, part: T)
    requires i < |parts|
    ensures Sum(parts[i := part], cost) + cost(parts[i]) == Sum(parts, cost) + cost(part)
  {
    var n := |parts| - 1;
    if i < n {
      SumUpdate(parts[..n], cost, i, part);
      assert parts[i := part][..n] == parts[..n][i := part];
    } else {
      assert parts[i := part][..n] == parts[..n];
    }
  }

  lemma SumSnoc<T>(parts: seq<T>, cost: T -> nat, part: T)
    ensures Sum(parts + [part], cost) == Sum(parts, cost) + cost(part)
  {
    assert (parts + [part])[..|parts|] == parts;
  }

  lemma {:induction false} SumEven<T>(parts: seq<T>, cost: T -> nat, c: nat)
    requires forall i | 0 <= i < |parts| :: cost(parts[i]) == c
    ensures Sum(parts, cost) == c * |parts|
  {
    if parts != [] {
      SumEven(parts[..|parts| - 1], cost, c);
    }
  }
}
