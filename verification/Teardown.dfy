/** `tools/mage/teardown.go`: deleting every CloudFormation stack. The main goroutine receives results from the
    deleting goroutines over an unbuffered channel. What one goroutine does is a method; the protocol is a
    state machine whose goroutines offer the results that those methods send. */
module Teardown {
  import opened GoStrings
  import opened Runs

  type Error = string
  datatype StackResult = StackResult(stackName: string, err: Option<Error>)

  const FRONTEND_STACK := "panther-web"
  const BOOTSTRAP_STACK := "panther-bootstrap"

  /** The stacks deleted in parallel, in the order of the source. */
  const PARALLEL_STACKS: seq<string> := [
    "panther-bootstrap-gateway", "panther-cw-alarms", "panther-appsync", "panther-cloud-security", "panther-core",
    "panther-cw-dashboards", "panther-web", "panther-glue", "panther-log-analysis", "panther-cw-metric-filters",
    "panther-onboard"]

  // ---------------------------------------------------------------- one goroutine

  datatype Answer = Present | Absent | Failed(error: Error)
  datatype Call =
    | AskInstance(answer: Answer)
    | DeleteInstances(err: Option<Error>)
    | AskSet(answer: Answer)
    | DeleteSet(err: Option<Error>)

  /** CloudFormation and the clock, in seconds. Any answer is possible; time never goes back. */
  class CloudFormation {
    var now: int
    ghost var calls: seq<Call>

    method Tick()
      modifies this`now
      ensures now >= old(now)
    {
      var t :| t >= now;
      now := t;
    }

    method Sleep(seconds: nat)
      modifies this`now
      ensures now >= old(now) + seconds
    {
      now := now + seconds;
      Tick();
    }

    method StackSetInstanceExists() returns (answer: Answer)
      modifies this
      ensures now >= old(now) && calls == old(calls) + [AskInstance(answer)]
    {
      Tick();
      answer := *;
      calls := calls + [AskInstance(answer)];
    }

    method StackSetExists() returns (answer: Answer)
      modifies this
      ensures now >= old(now) && calls == old(calls) + [AskSet(answer)]
    {
      Tick();
      answer := *;
      calls := calls + [AskSet(answer)];
    }

    method DeleteStackInstances() returns (err: Option<Error>)
      modifies this
      ensures now >= old(now) && calls == old(calls) + [DeleteInstances(err)]
    {
      Tick();
      err := *;
      calls := calls + [DeleteInstances(err)];
    }

    method DeleteStackSet() returns (err: Option<Error>)
      modifies this
      ensures now >= old(now) && calls == old(calls) + [DeleteSet(err)]
    {
      Tick();
      err := *;
      calls := calls + [DeleteSet(err)];
    }
  }

  /** The sending side of the results channel: what a goroutine has sent so far, in order. */
  class Results {
    var sent: seq<StackResult>

    method Send(stackName: string, err: Option<Error>)
      modifies this
      ensures sent == old(sent) + [StackResult(stackName, err)]
    {
      sent := sent + [StackResult(stackName, err)];
    }
  }

  datatype Wait = Gone | Broken(error: Error) | TimedOut

  /** How a wait ended, read off the answers it got: the last one, the only one that was not `Present`
      unless the wait timed out. */
  predicate Ends(answers: seq<Answer>, wait: Wait)
  {
    && 1 <= |answers| <= 42
    && (forall i | 0 <= i < |answers| - 1 :: answers[i].Present?)
    && answers[|answers| - 1] == match wait { case Gone => Absent case Broken(e) => Failed(e) case TimedOut => Present }
  }

  function InstanceAnswers(answers: seq<Answer>): (calls: seq<Call>)
    ensures |calls| == |answers| && forall i | 0 <= i < |answers| :: calls[i] == AskInstance(answers[i])
  {
    seq(|answers|, i requires 0 <= i < |answers| => AskInstance(answers[i]))
  }

  function SetAnswers(answers: seq<Answer>): (calls: seq<Call>)
    ensures |calls| == |answers| && forall i | 0 <= i < |answers| :: calls[i] == AskSet(answers[i])
  {
    seq(|answers|, i requires 0 <= i < |answers| => AskSet(answers[i]))
  }

  /** Polls every 15 seconds until the instance is gone, for ten minutes. */
  method WaitForInstance(client: CloudFormation) returns (wait: Wait, ghost answers: seq<Answer>)
    modifies client
    ensures Ends(answers, wait) && client.calls == old(client.calls) + InstanceAnswers(answers)
    ensures client.now >= old(client.now) && (wait.TimedOut? ==> client.now > old(client.now) + 600)
  {
    client.Tick();
    var startDelete := client.now;
    answers := [];
    while true
      invariant client.now >= startDelete + 15 * |answers|
      invariant client.calls == old(client.calls) + InstanceAnswers(answers)
      invariant |answers| <= 41 && forall i | 0 <= i < |answers| :: answers[i].Present?
      decreases startDelete + 600 - client.now
    {
      var answer := client.StackSetInstanceExists();
      assert InstanceAnswers(answers + [answer]) == InstanceAnswers(answers) + [AskInstance(answer)];
      answers := answers + [answer];
      if answer.Failed? {
        return Broken(answer.error), answers;
      }
      if answer.Absent? {
        return Gone, answers;
      }
      client.Tick();
      if client.now - startDelete > 600 {
        return TimedOut, answers;
      }
      client.Sleep(15);
    }
  }

  /** The same for the stack set itself. */
  method WaitForSet(client: CloudFormation) returns (wait: Wait, ghost answers: seq<Answer>)
    modifies client
    ensures Ends(answers, wait) && client.calls == old(client.calls) + SetAnswers(answers)
    ensures client.now >= old(client.now) && (wait.TimedOut? ==> client.now > old(client.now) + 600)
  {
    client.Tick();
    var startDelete := client.now;
    answers := [];
    while true
      invariant client.now >= startDelete + 15 * |answers|
      invariant client.calls == old(client.calls) + SetAnswers(answers)
      invariant |answers| <= 41 && forall i | 0 <= i < |answers| :: answers[i].Present?
      decreases startDelete + 600 - client.now
    {
      var answer := client.StackSetExists();
      assert SetAnswers(answers + [answer]) == SetAnswers(answers) + [AskSet(answer)];
      answers := answers + [answer];
      if answer.Failed? {
        return Broken(answer.error), answers;
      }
      if answer.Absent? {
        return Gone, answers;
      }
      client.Tick();
      if client.now - startDelete > 600 {
        return TimedOut, answers;
      }
      client.Sleep(15);
    }
  }

  function InstanceName(stackSet: string, region: string): string { stackSet + " stack instance in " + region }

  /** What the stack-set goroutine sends: exactly two results, the instance's first, and if that one failed so did
      the second. */
  ghost predicate StackSetResults(stackSet: string, region: string, sent: seq<StackResult>)
  {
    && |sent| == 2
    && sent[0].stackName == stackSet + " stack instance in " + region && sent[1].stackName == stackSet
    && (sent[0].err.Some? ==> sent[1].err.Some?)
  }

  /** The stack set is deleted only right after its instance was seen to be gone and the set to be there. */
  ghost predicate InstanceFirst(calls: seq<Call>)
  {
    forall k | 0 <= k < |calls| && calls[k].DeleteSet? ::
      k >= 2 && calls[k - 1] == AskSet(Present) && calls[k - 2] == AskInstance(Absent)
  }

  /** The results are truthful: an instance is reported deleted exactly when some wait saw it gone, the set
      exactly when the last call of all saw it gone. */
  ghost predicate Truthful(calls: seq<Call>, sent: seq<StackResult>)
    requires |sent| == 2
  {
    && (sent[1].err == None <==> calls != [] && calls[|calls| - 1] == AskSet(Absent))
    && (sent[0].err == None <==>
        exists k | 0 <= k < |calls| - 1 :: calls[k] == AskInstance(Absent) && calls[k + 1].AskSet?)
  }

  /** A failure comes from the last call, or from what is still there after more than ten minutes. */
  ghost predicate Causes(last: Call, err: Error, elapsed: int)
  {
    match last
    case AskInstance(answer) => CausedBy(answer, err, elapsed)
    case AskSet(answer) => CausedBy(answer, err, elapsed)
    case DeleteInstances(e) => e == Some(err)
    case DeleteSet(e) => e == Some(err)
  }

  ghost predicate CausedBy(answer: Answer, err: Error, elapsed: int)
  {
    match answer
    case Failed(e) => e == err
    case Present => elapsed > 600
    case Absent => false
  }

  /** Calls about the instance only, of which the second deletes it if the first saw it; they end well exactly when
      the last one saw it gone. */
  ghost predicate InstancePhase(calls: seq<Call>, err: Option<Error>, elapsed: int)
  {
    && 1 <= |calls| <= 44
    && (forall k | 0 <= k < |calls| && k != 1 :: calls[k].AskInstance?)
    && (|calls| > 1 ==> (calls[1].DeleteInstances? <==> calls[0] == AskInstance(Present)))
    && (|calls| > 1 ==> calls[1].DeleteInstances? || calls[1].AskInstance?)
    && (|calls| == 1 ==> calls[0].answer.Failed?)
    && (err == None <==> |calls| > 1 && calls[|calls| - 1] == AskInstance(Absent))
    && (err.Some? ==> Causes(calls[|calls| - 1], err.value, elapsed))
  }

  /** Calls about the set only, of which only the second may delete it; they end well exactly when the last one
      saw it gone. */
  ghost predicate SetPhase(calls: seq<Call>, err: Option<Error>, elapsed: int)
  {
    && 1 <= |calls| <= 44
    && (forall k | 0 <= k < |calls| && k != 1 :: calls[k].AskSet?)
    && (|calls| > 1 <==> calls[0] == AskSet(Present))
    && (|calls| > 1 ==> calls[1].DeleteSet?)
    && (err == None <==> calls[|calls| - 1] == AskSet(Absent))
    && (err.Some? ==> Causes(calls[|calls| - 1], err.value, elapsed))
  }

  /** No result says failure without a cause: the last call failed, or ten minutes were over. */
  ghost predicate Excused(calls: seq<Call>, sent: seq<StackResult>, elapsed: int)
    requires |sent| == 2
  {
    && calls != []
    && (sent[0].err.Some? ==>
         && Causes(calls[|calls| - 1], sent[0].err.value, elapsed)
         && sent[1].err == Some("stack set instance not empty"))
    && (sent[0].err.None? && sent[1].err.Some? ==> Causes(calls[|calls| - 1], sent[1].err.value, elapsed))
  }

  lemma InstanceOnly(calls: seq<Call>, err: Option<Error>, stackSet: string, region: string, elapsed: int)
    requires InstancePhase(calls, err, elapsed) && err.Some?
    ensures
      var sent := [StackResult(InstanceName(stackSet, region), err),
                   StackResult(stackSet, Some("stack set instance not empty"))];
      && StackSetResults(stackSet, region, sent) && InstanceFirst(calls) && Truthful(calls, sent)
      && Excused(calls, sent, elapsed)
  {
  }

  lemma BothPhases(first: seq<Call>, second: seq<Call>, err: Option<Error>, stackSet: string, region: string, a: int,
      b: nat)
    requires InstancePhase(first, None, a) && SetPhase(second, err, b) && a >= 0
    ensures
      var sent := [StackResult(InstanceName(stackSet, region), None), StackResult(stackSet, err)];
      && StackSetResults(stackSet, region, sent) && InstanceFirst(first + second) && Truthful(first + second, sent)
      && Excused(first + second, sent, a + b)
  {
    var calls, n := first + second, |first|;
    assert calls[n - 1] == AskInstance(Absent) && calls[n - 1 + 1] == second[0];
    assert calls[|calls| - 1] == second[|second| - 1];
    forall k | 0 <= k < |calls| && calls[k].DeleteSet?
      ensures k == n + 1 && calls[k - 1] == AskSet(Present) && calls[k - 2] == AskInstance(Absent)
    {
      if k >= n {
        assert calls[k] == second[k - n];
      }
    }
  }

  /** The first half of `deleteStackSet`: the instance in this region. */
  method DeleteInstance(client: CloudFormation) returns (err: Option<Error>, ghost calls: seq<Call>)
    modifies client
    ensures client.calls == old(client.calls) + calls && client.now >= old(client.now)
    ensures InstancePhase(calls, err, client.now - old(client.now))
  {
    var answer := client.StackSetInstanceExists();
    calls := [AskInstance(answer)];
    if answer.Failed? {
      return Some(answer.error), calls;
    }
    if answer.Present? {
      err := client.DeleteStackInstances();
      calls := calls + [DeleteInstances(err)];
      if err.Some? {
        return err, calls;
      }
    }
    var wait, answers := WaitForInstance(client);
    calls := calls + InstanceAnswers(answers);
    err := match wait
      case Gone => None
      case Broken(error) => Some(error)
      case TimedOut => Some("timeout waiting for stack set instance to delete");
  }

  /** The second half: the set, once its instance is gone. */
  method DeleteEmptySet(client: CloudFormation) returns (err: Option<Error>, ghost calls: seq<Call>)
    modifies client
    ensures client.calls == old(client.calls) + calls && client.now >= old(client.now)
    ensures SetPhase(calls, err, client.now - old(client.now))
  {
    var answer := client.StackSetExists();
    calls := [AskSet(answer)];
    if !answer.Present? {
      return if answer.Failed? then Some(answer.error) else None, calls;
    }
    err := client.DeleteStackSet();
    calls := calls + [DeleteSet(err)];
    if err.Some? {
      return err, calls;
    }
    var wait, answers := WaitForSet(client);
    calls := calls + SetAnswers(answers);
    err := match wait
      case Gone => None
      case Broken(error) => Some(error)
      case TimedOut => Some("timeout waiting for stack set to delete");
  }

  /** On every path exactly two results, in order; at most 88 calls, since time advances. */
  method DeleteStackSet(client: CloudFormation, stackSet: string, region: string, results: Results)
    returns (ghost calls: seq<Call>, ghost sent: seq<StackResult>)
    modifies client, results
    ensures client.calls == old(client.calls) + calls && |calls| <= 88
    ensures results.sent == old(results.sent) + sent
    ensures StackSetResults(stackSet, region, sent) && InstanceFirst(calls) && Truthful(calls, sent)
    ensures Excused(calls, sent, client.now - old(client.now))
  {
    var name := InstanceName(stackSet, region);
    var err, first := DeleteInstance(client);
    results.Send(name, err);
    if err.Some? {
      results.Send(stackSet, Some("stack set instance not empty"));
      InstanceOnly(first, err, stackSet, region, client.now - old(client.now));
      return first, [StackResult(name, err), StackResult(stackSet, Some("stack set instance not empty"))];
    }
    ghost var between := client.now;
    var setErr, second := DeleteEmptySet(client);
    results.Send(stackSet, setErr);
    BothPhases(first, second, setErr, stackSet, region, between - old(client.now), client.now - between);
    calls, sent := first + second, [StackResult(name, None), StackResult(stackSet, setErr)];
  }

  /** Deleting one stack sends exactly one result, under the stack's name; it fails exactly if one of the calls does. */
  method DeleteStack(stack: string, deleteErr: Option<Error>, waitErr: Option<Error>, results: Results)
    modifies results
    ensures results.sent == old(results.sent) + [StackResult(stack,
      if deleteErr.Some? then deleteErr else if waitErr.Some? then Some("status != DELETE_COMPLETE") else None)]
  {
    if deleteErr.Some? {
      results.Send(stack, deleteErr);
      return;
    }
    if waitErr.Some? {
      results.Send(stack, Some("status != DELETE_COMPLETE"));
      return;
    }
    results.Send(stack, None);
  }

  // ---------------------------------------------------------------- the protocol of destroyCfnStacks

  /** Where a goroutine stands: making its calls, blocked on the channel with a result, or finished. */
  datatype Status = Deleting | Offering(err: Option<Error>) | Finished
  datatype Worker = Worker(stack: string, status: Status)

  /** `got` counts the stack-set results received; `workers` lists the stack deletions started, in order. */
  datatype State = State(
    got: nat,
    setStatus: Status,
    workers: seq<Worker>,
    sets: seq<StackResult>,
    handled: seq<StackResult>,
    errCount: nat,
    returned: bool)

  datatype Event =
    | SetOffers(err: Option<Error>)
    | SetReceived
    | WorkerOffers(w: nat, err: Option<Error>)
    | WorkerReceived(w: nat)

  const STACK_SET_NAME := "panther-real-time-events"

  function Init(): State { State(0, Deleting, [], [], [], 0, false) }

  function Failures(results: seq<StackResult>): nat
  {
    if results == [] then 0
    else Failures(results[..|results| - 1]) + if results[|results| - 1].err.Some? then 1 else 0
  }

  /** The main goroutine receives two results, then as many as there are parallel stacks and one more. The
      stack-set goroutine sends as `StackSetResults` says. */
  ghost predicate Can(stacks: seq<string>, s: State, e: Event)
  {
    match e
    case SetOffers(err) => s.setStatus.Deleting? && s.got < 2
      && (s.got == 1 && s.sets != [] && s.sets[0].err.Some? ==> err.Some?)
    case SetReceived => s.setStatus.Offering? && !s.returned
    case WorkerOffers(w, _) => w < |s.workers| && s.workers[w].status.Deleting?
    case WorkerReceived(w) => w < |s.workers| && s.workers[w].status.Offering? && s.got == 2 && !s.returned
  }

  function Started(stacks: seq<string>): (ws: seq<Worker>)
    ensures |ws| == |stacks| && forall i | 0 <= i < |ws| :: ws[i] == Worker(stacks[i], Deleting)
  {
    seq(|stacks|, i requires 0 <= i < |stacks| => Worker(stacks[i], Deleting))
  }

  function Count(s: State, err: Option<Error>): nat { s.errCount + if err.Some? then 1 else 0 }

  /** Receiving worker `w`'s result `r`; the frontend's result starts the bootstrap stack's deletion. */
  function Receive(stacks: seq<string>, s: State, w: nat): State
    requires w < |s.workers| && s.workers[w].status.Offering?
  {
    var r := StackResult(s.workers[w].stack, s.workers[w].status.err);
    var workers := s.workers[w := Worker(r.stackName, Finished)];
    s.(workers := if r.stackName == FRONTEND_STACK then workers + [Worker(BOOTSTRAP_STACK, Deleting)] else workers,
       handled := s.handled + [r], errCount := Count(s, r.err), returned := |s.handled| + 1 == |stacks| + 1)
  }

  ghost function Do(stacks: seq<string>, region: string, s: State, e: Event): State
    requires Can(stacks, s, e)
  {
    match e
    case SetOffers(err) => s.(setStatus := Offering(err))
    case SetReceived =>
      var err := s.setStatus.err;
      s.(got := s.got + 1, setStatus := if s.got == 0 then Deleting else Finished,
         sets := s.sets
           + [StackResult(if s.got == 0 then InstanceName(STACK_SET_NAME, region) else STACK_SET_NAME, err)],
         errCount := Count(s, err), workers := if s.got == 1 then Started(stacks) else s.workers)
    case WorkerOffers(w, err) => s.(workers := s.workers[w := Worker(s.workers[w].stack, Offering(err))])
    case WorkerReceived(w) => Receive(stacks, s, w)
  }

  /** All of it together. */
  ghost function Destroy(stacks: seq<string>, region: string): Machine<State, Event>
  {
    Machine((s, e) => Can(stacks, s, e), (s, e) => if Can(stacks, s, e) then Do(stacks, region, s, e) else s)
  }

  // ---------------------------------------------------------------- books over workers and results

  function Names(results: seq<StackResult>): multiset<string>
  {
    if results == [] then multiset{} else Names(results[..|results| - 1]) + multiset{results[|results| - 1].stackName}
  }

  /** The stacks whose deletion was started, and those of them whose result is still to come. */
  function Begun(ws: seq<Worker>): multiset<string>
  {
    if ws == [] then multiset{} else Begun(ws[..|ws| - 1]) + multiset{ws[|ws| - 1].stack}
  }

  function Owed(ws: seq<Worker>): multiset<string>
  {
    if ws == [] then multiset{} else Owed(ws[..|ws| - 1]) + Due(ws[|ws| - 1])
  }

  function Due(w: Worker): multiset<string> { if w.status.Finished? then multiset{} else multiset{w.stack} }

  lemma {:induction false} NamesSize(results: seq<StackResult>)
    ensures |Names(results)| == |results|
  {
    if results != [] {
      NamesSize(results[..|results| - 1]);
    }
  }

  lemma ResultsSnoc(results: seq<StackResult>, r: StackResult)
    ensures Names(results + [r]) == Names(results) + multiset{r.stackName}
    ensures Failures(results + [r]) == Failures(results) + if r.err.Some? then 1 else 0
  {
  }

  lemma WorkersSnoc(ws: seq<Worker>, w: Worker)
    ensures Begun(ws + [w]) == Begun(ws) + multiset{w.stack}
    ensures Owed(ws + [w]) == Owed(ws) + Due(w)
  {
  }

  lemma {:induction false} StartedBooks(stacks: seq<string>)
    ensures Begun(Started(stacks)) == multiset(stacks) == Owed(Started(stacks))
  {
    if stacks != [] {
      var n := |stacks| - 1;
      StartedBooks(stacks[..n]);
      assert stacks == stacks[..n] + [stacks[n]];
      assert Started(stacks) == Started(stacks[..n]) + [Worker(stacks[n], Deleting)];
      WorkersSnoc(Started(stacks[..n]), Worker(stacks[n], Deleting));
    }
  }

  /** A worker changes its status and keeps its name. */
  lemma {:induction false} WorkerUpdate(ws: seq<Worker>, w: nat, status: Status)
    requires w < |ws|
    ensures var ws' := ws[w := Worker(ws[w].stack, status)];
      Begun(ws') == Begun(ws)
  {
    var n := |ws| - 1;
    var ws' := ws[w := Worker(ws[w].stack, status)];
    if w == n {
      assert ws'[..n] == ws[..n];
    } else {
      WorkerUpdate(ws[..n], w, status);
      assert ws'[..n] == ws[..n][w := Worker(ws[w].stack, status)];
    }
  }

  lemma {:induction false} OwedUpdate(ws: seq<Worker>, w: nat, next: Worker)
    requires w < |ws|
    ensures Owed(ws[w := next]) + Due(ws[w]) == Owed(ws) + Due(next)
  {
    var n, ws' := |ws| - 1, ws[w := next];
    if w == n {
      assert ws'[..n] == ws[..n];
      SwapLast(Owed(ws[..n]), Due(next), Due(ws[w]));
    } else {
      OwedUpdate(ws[..n], w, next);
      assert ws'[..n] == ws[..n][w := next];
      SwapLast(Owed(ws'[..n]), Due(ws[n]), Due(ws[w]));
      SwapLast(Owed(ws[..n]), Due(ws[n]), Due(next));
    }
  }

  lemma SwapLast(a: multiset<string>, b: multiset<string>, c: multiset<string>)
    ensures (a + b) + c == (a + c) + b
  {
  }

  /** Somebody still owes a result as long as the books say so. */
  lemma {:induction false} SomeoneOwes(ws: seq<Worker>)
    ensures (exists w | 0 <= w < |ws| :: !ws[w].status.Finished?) <==> Owed(ws) != multiset{}
  {
    if ws != [] {
      var n := |ws| - 1;
      SomeoneOwes(ws[..n]);
      if Owed(ws[..n]) != multiset{} {
        var w :| 0 <= w < n && !ws[..n][w].status.Finished?;
        assert !ws[w].status.Finished?;
      }
    }
  }

  // ---------------------------------------------------------------- the invariant

  function Frontends(stacks: seq<string>): nat { multiset(stacks)[FRONTEND_STACK] }

  ghost predicate SetInv(region: string, s: State)
  {
    && s.got == |s.sets| <= 2 && (s.setStatus.Finished? <==> s.got == 2)
    && (s.got >= 1 ==> s.sets[0].stackName == InstanceName(STACK_SET_NAME, region))
    && (s.got == 1 && s.sets[0].err.Some? && s.setStatus.Offering? ==> s.setStatus.err.Some?)
    && (s.got == 2 ==> StackSetResults(STACK_SET_NAME, region, s.sets))
    && (s.got < 2 ==> s.workers == [] && s.handled == [] && !s.returned)
  }

  /** One bootstrap deletion was started for each frontend result handled; every deletion started is owed or
      handled. */
  ghost predicate Books(stacks: seq<string>, s: State)
  {
    && Balance(multiset(stacks), Begun(s.workers), Names(s.handled), Owed(s.workers))
    && |s.workers| == |stacks| + Names(s.handled)[FRONTEND_STACK]
  }

  ghost predicate Balance(all: multiset<string>, begun: multiset<string>, handled: multiset<string>,
      owed: multiset<string>)
  {
    && begun == all[BOOTSTRAP_STACK := all[BOOTSTRAP_STACK] + handled[FRONTEND_STACK]]
    && begun == handled + owed
  }

  ghost predicate Inv(stacks: seq<string>, region: string, s: State)
  {
    && SetInv(region, s)
    && (s.got == 2 ==> Books(stacks, s))
    && s.errCount == Failures(s.sets) + Failures(s.handled)
    && (s.returned <==> |s.handled| == |stacks| + 1) && |s.handled| <= |stacks| + 1
  }

  function Cost(w: Worker): nat
  {
    (if w.status.Finished? then 0 else if w.stack == FRONTEND_STACK then 2 else 0)
    + match w.status { case Deleting => 2 case Offering(_) => 1 case Finished => 0 }
  }

  lemma SetStepKeepsInv(stacks: seq<string>, region: string, s: State, e: Event)
    requires Inv(stacks, region, s) && Can(stacks, s, e) && (e.SetOffers? || e.SetReceived?)
    ensures Inv(stacks, region, Do(stacks, region, s, e))
  {
    if e.SetReceived? {
      ResultsSnoc(s.sets, Do(stacks, region, s, e).sets[s.got]);
      if s.got == 1 {
        BooksStart(stacks, Do(stacks, region, s, e));
      }
    }
  }

  lemma BooksStart(stacks: seq<string>, s: State)
    requires s.workers == Started(stacks) && s.handled == []
    ensures Books(stacks, s)
  {
    StartedBooks(stacks);
  }

  lemma SameOwed(a: multiset<string>, b: multiset<string>, c: multiset<string>)
    requires b + c == a + c
    ensures a == b
  {
    forall x
      ensures a[x] == b[x]
    {
      assert (a + c)[x] == (b + c)[x];
    }
  }

  lemma OfferKeepsInv(stacks: seq<string>, region: string, s: State, e: Event)
    requires Inv(stacks, region, s) && Can(stacks, s, e) && e.WorkerOffers?
    ensures Inv(stacks, region, Do(stacks, region, s, e))
  {
    WorkerUpdate(s.workers, e.w, Offering(e.err));
    OwedUpdate(s.workers, e.w, Worker(s.workers[e.w].stack, Offering(e.err)));
    SameOwed(Owed(s.workers), Owed(Do(stacks, region, s, e).workers), Due(s.workers[e.w]));
  }

  /** Receiving a result moves its name from what is owed to what is handled, and may add one bootstrap. */
  lemma ReceiveBooks(stacks: seq<string>, s: State, w: nat)
    requires Books(stacks, s) && w < |s.workers| && s.workers[w].status.Offering?
    ensures Books(stacks, Receive(stacks, s, w))
    ensures Failures(Receive(stacks, s, w).handled)
      == Failures(s.handled) + if s.workers[w].status.err.Some? then 1 else 0
  {
    var name := s.workers[w].stack;
    var mid := s.workers[w := Worker(name, Finished)];
    ResultsSnoc(s.handled, StackResult(name, s.workers[w].status.err));
    WorkersSnoc(mid, Worker(BOOTSTRAP_STACK, Deleting));
    PaidOff(s.workers, w);
    BalanceStep(multiset(stacks), Begun(s.workers), Names(s.handled), Owed(mid), name);
  }

  lemma PaidOff(ws: seq<Worker>, w: nat)
    requires w < |ws| && !ws[w].status.Finished?
    ensures var ws' := ws[w := Worker(ws[w].stack, Finished)];
      Begun(ws') == Begun(ws) && Owed(ws) == Owed(ws') + multiset{ws[w].stack}
  {
    WorkerUpdate(ws, w, Finished);
    OwedUpdate(ws, w, Worker(ws[w].stack, Finished));
  }

  lemma BalanceStep(all: multiset<string>, begun: multiset<string>, handled: multiset<string>, owed: multiset<string>,
      name: string)
    requires Balance(all, begun, handled, owed + multiset{name})
    ensures name != FRONTEND_STACK ==> Balance(all, begun, handled + multiset{name}, owed)
    ensures name == FRONTEND_STACK ==>
      Balance(all, begun + multiset{BOOTSTRAP_STACK}, handled + multiset{name}, owed + multiset{BOOTSTRAP_STACK})
  {
  }

  lemma StepKeepsInv(stacks: seq<string>, region: string, s: State, e: Event)
    requires Inv(stacks, region, s) && Can(stacks, s, e)
    ensures Inv(stacks, region, Do(stacks, region, s, e))
  {
    match e
    case WorkerOffers(_, _) => OfferKeepsInv(stacks, region, s, e);
    case WorkerReceived(w) => ReceiveBooks(stacks, s, w);
    case _ => SetStepKeepsInv(stacks, region, s, e);
  }

  // ---------------------------------------------------------------- progress

  /** While the main goroutine waits, a result is owed, provided some frontend is in the list. */
  lemma ResultOwed(stacks: seq<string>, s: State)
    requires Books(stacks, s) && Frontends(stacks) >= 1 && |s.handled| <= |stacks|
    ensures Owed(s.workers) != multiset{}
  {
    NamesSize(s.handled);
    BegunSize(s.workers);
    assert Begun(s.workers)[FRONTEND_STACK] == Frontends(stacks);
  }

  lemma {:induction false} BegunSize(ws: seq<Worker>)
    ensures |Begun(ws)| == |ws|
  {
    if ws != [] {
      BegunSize(ws[..|ws| - 1]);
    }
  }

  /** With a frontend in the list, the protocol never deadlocks on the unbuffered channel. */
  lemma NoDeadlock(stacks: seq<string>, region: string, s: State)
    requires Inv(stacks, region, s) && Frontends(stacks) >= 1 && !s.returned
    ensures !Stuck(Destroy(stacks, region), s)
  {
    if s.got < 2 {
      assert Destroy(stacks, region).can(s, if s.setStatus.Deleting? then SetOffers(Some("")) else SetReceived);
    } else {
      ResultOwed(stacks, s);
      SomeoneOwes(s.workers);
      var w :| 0 <= w < |s.workers| && !s.workers[w].status.Finished?;
      assert Destroy(stacks, region).can(s,
        if s.workers[w].status.Deleting? then WorkerOffers(w, None) else WorkerReceived(w));
    }
  }

  function SetCost(stacks: seq<string>, s: State): int
  {
    2 * (2 - s.got) + (if s.setStatus.Offering? then -1 else 0) + (if s.got < 2 then Sum(Started(stacks), Cost) else 0)
  }

  /** How many events can still happen, at most. */
  function Remaining(stacks: seq<string>, s: State): int { SetCost(stacks, s) + Sum(s.workers, Cost) }

  lemma StepShrinks(stacks: seq<string>, region: string, s: State, e: Event)
    requires Inv(stacks, region, s) && Can(stacks, s, e)
    ensures Remaining(stacks, Do(stacks, region, s, e)) < Remaining(stacks, s)
  {
    match e
    case WorkerOffers(w, err) => SumUpdate(s.workers, Cost, w, Worker(s.workers[w].stack, Offering(err)));
    case WorkerReceived(w) =>
      SumUpdate(s.workers, Cost, w, Worker(s.workers[w].stack, Finished));
      SumSnoc(s.workers[w := Worker(s.workers[w].stack, Finished)], Cost, Worker(BOOTSTRAP_STACK, Deleting));
    case _ =>
  }

  // ---------------------------------------------------------------- errors

  predicate OfferFails(e: Event) { (e.SetOffers? || e.WorkerOffers?) && e.err.Some? }

  function Pending(status: Status): nat { if status.Offering? && status.err.Some? then 1 else 0 }

  function PendingOf(w: Worker): nat { Pending(w.status) }

  /** Failures so far: those counted, and those still on offer. */
  function FailuresSoFar(s: State): int { s.errCount + Pending(s.setStatus) + Sum(s.workers, PendingOf) }

  lemma StepCountsFailures(stacks: seq<string>, region: string, s: State, e: Event)
    requires Inv(stacks, region, s) && Can(stacks, s, e)
    ensures FailuresSoFar(Do(stacks, region, s, e)) == FailuresSoFar(s) + if OfferFails(e) then 1 else 0
  {
    match e
    case WorkerOffers(w, err) => SumUpdate(s.workers, PendingOf, w, Worker(s.workers[w].stack, Offering(err)));
    case WorkerReceived(w) =>
      SumUpdate(s.workers, PendingOf, w, Worker(s.workers[w].stack, Finished));
      SumSnoc(s.workers[w := Worker(s.workers[w].stack, Finished)], PendingOf, Worker(BOOTSTRAP_STACK, Deleting));
    case SetReceived => SumEven(Started(stacks), PendingOf, 0);
    case _ =>
  }

  /** Over every run, the errors counted and those still on offer are the deletions that failed. */
  lemma RunCountsFailures(stacks: seq<string>, region: string, run: seq<Event>)
    requires Possible(Destroy(stacks, region), Init(), run)
    ensures FailuresSoFar(After(Destroy(stacks, region), Init(), run)) == Tally(run, OfferFails)
  {
    var m := Destroy(stacks, region);
    forall s, e | Inv(stacks, region, s) && m.can(s, e)
      ensures Inv(stacks, region, m.next(s, e))
      ensures FailuresSoFar(m.next(s, e)) == FailuresSoFar(s) + if OfferFails(e) then 1 else 0
    {
      StepKeepsInv(stacks, region, s, e);
      StepCountsFailures(stacks, region, s, e);
    }
    InitInv(stacks, region);
    RunCounts(m, s => Inv(stacks, region, s), s => FailuresSoFar(s), OfferFails, Init(), run);
  }

  /** What `destroyCfnStacks` returns: an error with the number of failures, if there were any. */
  function Verdict(s: State): Option<nat> { if s.errCount > 0 then Some(s.errCount) else None }

  /** With the frontend listed once, an error is returned exactly if some deletion failed, and it tells how many. */
  lemma ErrorMeansFailure(stacks: seq<string>, region: string, run: seq<Event>)
    requires Frontends(stacks) == 1
    requires Possible(Destroy(stacks, region), Init(), run) && After(Destroy(stacks, region), Init(), run).returned
    ensures
      var verdict := Verdict(After(Destroy(stacks, region), Init(), run));
      && (verdict.Some? <==> Occurs(run, OfferFails))
      && (verdict.Some? ==> verdict.value == Tally(run, OfferFails))
  {
    var s := After(Destroy(stacks, region), Init(), run);
    RunKeepsInv(stacks, region, run);
    RunCountsFailures(stacks, region, run);
    ReturnMeansAllHandled(stacks, region, run);
    SumEven(s.workers, PendingOf, 0);
    TallyOccurs(run, OfferFails);
  }

  // ---------------------------------------------------------------- runs

  lemma InitInv(stacks: seq<string>, region: string)
    ensures Inv(stacks, region, Init())
  {
  }

  lemma DestroySteps(stacks: seq<string>, region: string)
    ensures Steps(Destroy(stacks, region), s => Inv(stacks, region, s), s => Remaining(stacks, s))
  {
    forall s, e | Inv(stacks, region, s) && Can(stacks, s, e)
      ensures Inv(stacks, region, Do(stacks, region, s, e))
      ensures Remaining(stacks, Do(stacks, region, s, e)) < Remaining(stacks, s)
    {
      StepKeepsInv(stacks, region, s, e);
      StepShrinks(stacks, region, s, e);
    }
  }

  lemma RunKeepsInv(stacks: seq<string>, region: string, run: seq<Event>)
    requires Possible(Destroy(stacks, region), Init(), run)
    ensures var s := After(Destroy(stacks, region), Init(), run);
      Inv(stacks, region, s) && Remaining(stacks, s) + |run| <= Remaining(stacks, Init())
  {
    InitInv(stacks, region);
    DestroySteps(stacks, region);
    RunKeeps(Destroy(stacks, region), s => Inv(stacks, region, s), s => Remaining(stacks, s), Init(), run);
  }

  lemma {:induction false} StartCosts(stacks: seq<string>)
    ensures Sum(Started(stacks), Cost) == 2 * |stacks| + 2 * Frontends(stacks)
  {
    if stacks != [] {
      var n := |stacks| - 1;
      StartCosts(stacks[..n]);
      assert stacks == stacks[..n] + [stacks[n]];
      assert Started(stacks)[..n] == Started(stacks[..n]);
    }
  }

  /** Every run is finite. A run that cannot go on has returned if the frontend is in the list; if it is not, no run
      ever returns, because the last receive waits for a bootstrap deletion that nobody starts. */
  lemma EveryRunReturns(stacks: seq<string>, region: string, run: seq<Event>)
    requires Possible(Destroy(stacks, region), Init(), run)
    ensures |run| <= 4 + 2 * |stacks| + 2 * Frontends(stacks)
    ensures var s := After(Destroy(stacks, region), Init(), run);
      && (Frontends(stacks) >= 1 && Stuck(Destroy(stacks, region), s) ==> s.returned)
      && (Frontends(stacks) == 0 ==> !s.returned)
  {
    RunKeepsInv(stacks, region, run);
    StartCosts(stacks);
    var s := After(Destroy(stacks, region), Init(), run);
    if Frontends(stacks) >= 1 && !s.returned {
      NoDeadlock(stacks, region, s);
    }
    if s.returned {
      NamesSize(s.handled);
      BegunSize(s.workers);
      assert Begun(s.workers)[FRONTEND_STACK] == Frontends(stacks);
      assert |Names(s.handled)| <= |Begun(s.workers)|;
    }
  }

  /** In every reachable state: stacks are deleted only after both stack-set results; as many bootstrap deletions
      were started on top of the list as frontend results were handled; and the errors counted are exactly the
      failures handled. */
  lemma EveryState(stacks: seq<string>, region: string, run: seq<Event>)
    requires Possible(Destroy(stacks, region), Init(), run)
    ensures var s := After(Destroy(stacks, region), Init(), run);
      && (s.workers != [] ==> StackSetResults("panther-real-time-events", region, s.sets))
      && (s.got == 2 ==>
          Begun(s.workers)["panther-bootstrap"]
          == multiset(stacks)["panther-bootstrap"] + Names(s.handled)["panther-web"])
      && s.errCount == Failures(s.sets) + Failures(s.handled)
  {
    RunKeepsInv(stacks, region, run);
  }

  /** At the return, exactly one result per listed stack and one for the bootstrap stack were handled, with no
      goroutine left behind, if and only if the frontend is in the list exactly once. */
  lemma ReturnMeansAllHandled(stacks: seq<string>, region: string, run: seq<Event>)
    requires Possible(Destroy(stacks, region), Init(), run) && After(Destroy(stacks, region), Init(), run).returned
    ensures var s := After(Destroy(stacks, region), Init(), run);
      && |s.sets| + |s.handled| == |stacks| + 3
      && ((forall w | 0 <= w < |s.workers| :: s.workers[w].status.Finished?) <==> Frontends(stacks) == 1)
      && (Frontends(stacks) == 1 ==> Names(s.handled) == multiset(stacks) + multiset{BOOTSTRAP_STACK})
  {
    RunKeepsInv(stacks, region, run);
    var s := After(Destroy(stacks, region), Init(), run);
    var k := Names(s.handled)[FRONTEND_STACK];
    NamesSize(s.handled);
    BegunSize(s.workers);
    SomeoneOwes(s.workers);
    assert Begun(s.workers)[FRONTEND_STACK] == Frontends(stacks);
    assert |Begun(s.workers)| == |Names(s.handled)| + |Owed(s.workers)|;
    assert Frontends(stacks) == 1 ==> Begun(s.workers) == multiset(stacks) + multiset{BOOTSTRAP_STACK};
  }

  lemma CountOnce(s: seq<string>, i: nat)
    requires i < |s| && forall j | 0 <= j < |s| && j != i :: s[j] != s[i]
    ensures multiset(s)[s[i]] == 1
  {
    assert s == s[..i] + [s[i]] + s[i + 1..];
    assert s[i] !in multiset(s[..i]) && s[i] !in multiset(s[i + 1..]);
  }

  /** The list in the source holds the frontend exactly once. */
  lemma ParallelStacksFit()
    ensures Frontends(PARALLEL_STACKS) == 1
  {
    assert PARALLEL_STACKS[6] == FRONTEND_STACK;
    assert forall j | 0 <= j < 11 && j != 6 :: |PARALLEL_STACKS[j]| != |FRONTEND_STACK|;
    CountOnce(PARALLEL_STACKS, 6);
  }
}
