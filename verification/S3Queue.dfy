/** `cmd/opstools/s3queue/s3queue.go`: one goroutine lists S3 objects into a channel, a number of consumers
    send them to SQS in batches of ten, and a collector takes the errors off an unbuffered channel.
    The protocol is a state machine; a run is any sequence of events that are possible one after the other. */
module S3Queue {
  import opened GoStrings
  import opened Batching
  import opened Runs
  import SqsBatch

  type Error = string
  datatype Obj = Obj(key: string, size: nat)

  const CHANNEL_SIZE: nat := 1000
  const MAX_UINT64: nat := 0xffff_ffff_ffff_ffff

  /** Unsigned 64-bit arithmetic wraps. */
  function Wrap(n: nat): nat { n % 0x1_0000_0000_0000_0000 }

  /** One call: whether the path is bad, the objects the listing shows and the error it may end with,
      the limit (zero for none) and the number of consumers. */
  datatype Config = Config(badPath: Option<Error>, objects: seq<Obj>, listError: Option<Error>, limit: nat,
      concurrency: nat)
  {
    function Limit(): nat { if limit == 0 then MAX_UINT64 else limit }
  }

  predicate NonEmpty(o: Obj) { o.size > 0 }
  function Files(objects: seq<Obj>): seq<Obj> { Keep(objects, NonEmpty) }

  function Bytes(files: seq<Obj>): nat
  {
    if files == [] then 0 else Bytes(files[..|files| - 1]) + files[|files| - 1].size
  }

  datatype Producer =
    | Starting
    | Listing(next: nat)
    | Sending(next: nat)
    | Reporting(next: nat, error: Error)
    | Leaving(next: nat)
    | Gone(next: nat)

  datatype Job = Ready | Flush(last: bool) | Report(error: Error, last: bool) | Exited
  datatype Consumer = Consumer(failed: bool, buffer: seq<Obj>, job: Job)

  datatype State = State(
    producer: Producer,
    numFiles: nat,
    numBytes: nat,
    pushed: seq<Obj>,
    queue: seq<Obj>,
    consumers: seq<Consumer>,
    accepted: multiset<Obj>,
    lost: multiset<Obj>,
    errors: seq<Error>,
    returned: Option<Option<Error>>)

  datatype Event =
    | Begin | List | Push | EndOfListing | ProducerReports | Leave | Return
    | Receive(c: nat) | MarshalFails(c: nat, error: Error)
    | SendDone(c: nat) | SendFails(c: nat, error: Error, part: multiset<Obj>)
    | Deliver(c: nat) | EndOfQueue(c: nat)

  function Init(cfg: Config): State
  {
    var consumers := seq(cfg.concurrency, _ => Consumer(false, [], Ready));
    State(Starting, 0, 0, [], [], consumers, multiset{}, multiset{}, [], None)
  }

  ghost predicate Is(s: State, c: nat, job: Job) { c < |s.consumers| && s.consumers[c].job == job }

  ghost predicate Can(cfg: Config, s: State, e: Event)
  {
    match e
    case Begin => s.producer.Starting?
    case List => s.producer.Listing? && s.producer.next < |cfg.objects|
    case Push => s.producer.Sending? && s.producer.next < |cfg.objects| && |s.queue| < CHANNEL_SIZE
    case EndOfListing => s.producer.Listing? && s.producer.next == |cfg.objects|
    case ProducerReports => s.producer.Reporting? && s.returned.None?
    case Leave => s.producer.Leaving?
    case Return => s.producer.Gone? && s.returned.None? && forall c | 0 <= c < |s.consumers| ::
      s.consumers[c].job.Exited?
    case Receive(c) => Is(s, c, Ready) && s.queue != []
    case MarshalFails(c, _) => Is(s, c, Ready) && s.queue != [] && !s.consumers[c].failed
    case SendDone(c) => c < |s.consumers| && s.consumers[c].job.Flush?
    case SendFails(c, _, part) => c < |s.consumers| && s.consumers[c].job.Flush?
      && part <= multiset(s.consumers[c].buffer)
    case Deliver(c) => c < |s.consumers| && s.consumers[c].job.Report? && s.returned.None?
    case EndOfQueue(c) => Is(s, c, Ready) && s.queue == [] && s.producer.Gone?
  }

  function SetConsumer(s: State, c: nat, consumer: Consumer): State
    requires c < |s.consumers|
  {
    s.(consumers := s.consumers[c := consumer])
  }

  function DoProducer(cfg: Config, s: State, e: Event): State
    requires e.Begin? || e.List? || e.Push? || e.EndOfListing? || e.ProducerReports? || e.Leave? || e.Return?
    requires (e.List? || e.Push?) ==> !s.producer.Starting? && s.producer.next < |cfg.objects|
    requires (e.EndOfListing? || e.Leave?) ==> !s.producer.Starting?
    requires e.ProducerReports? ==> s.producer.Reporting?
  {
    match e
    case Begin => s.(producer := if cfg.badPath.Some? then Reporting(0, cfg.badPath.value) else Listing(0))
    case List =>
      var i := s.producer.next;
      if cfg.objects[i].size == 0 then s.(producer := Listing(i + 1))
      else s.(producer := Sending(i), numFiles := s.numFiles + 1, numBytes := Wrap(s.numBytes + cfg.objects[i].size))
    case Push =>
      var i := s.producer.next;
      s.(queue := s.queue + [cfg.objects[i]], pushed := s.pushed + [cfg.objects[i]],
         producer := if s.numFiles >= cfg.Limit() then Leaving(i + 1) else Listing(i + 1))
    case EndOfListing =>
      var i := s.producer.next;
      s.(producer := if cfg.listError.Some? then Reporting(i, cfg.listError.value) else Leaving(i))
    case ProducerReports => s.(producer := Leaving(s.producer.next), errors := s.errors + [s.producer.error])
    case Leave => s.(producer := Gone(s.producer.next))
    case Return => s.(returned := Some(if s.errors == [] then None else Some(s.errors[|s.errors| - 1])))
    case _ => s
  }

  ghost function DoConsumer(s: State, e: Event): State
    requires !(e.Begin? || e.List? || e.Push? || e.EndOfListing? || e.ProducerReports? || e.Leave? || e.Return?)
    requires e.c < |s.consumers|
    requires e.Receive? || e.MarshalFails? ==> s.queue != []
    requires e.SendDone? || e.SendFails? ==> s.consumers[e.c].job.Flush?
    requires e.Deliver? ==> s.consumers[e.c].job.Report?
  {
    var c := s.consumers[e.c];
    match e
    case Receive(_) =>
      var rest := s.(queue := s.queue[1..]);
      if c.failed then rest.(lost := s.lost + multiset{s.queue[0]})
      else
        var buffer := c.buffer + [s.queue[0]];
        SetConsumer(rest, e.c, c.(buffer := buffer, job := if |buffer| % 10 == 0 then Flush(false) else Ready))
    case MarshalFails(_, error) =>
      SetConsumer(s.(queue := s.queue[1..], lost := s.lost + multiset{s.queue[0]} + multiset(c.buffer)),
                  e.c, c.(buffer := [], job := Report(error, false)))
    case SendDone(_) =>
      SetConsumer(s.(accepted := s.accepted + multiset(c.buffer)), e.c,
                  c.(buffer := [], job := if c.job.last then Exited else Ready))
    case SendFails(_, error, part) =>
      SetConsumer(s.(accepted := s.accepted + part, lost := s.lost + (multiset(c.buffer) - part)),
                  e.c, c.(buffer := [], job := Report(error, c.job.last)))
    case Deliver(_) =>
      SetConsumer(s.(errors := s.errors + [c.job.error]), e.c,
                  c.(failed := true, job := if c.job.last then Exited else Ready))
    case EndOfQueue(_) =>
      SetConsumer(s, e.c, c.(job := if !c.failed && c.buffer != [] then Flush(true) else Exited))
  }

  predicate ProducerEvent(e: Event)
  {
    e.Begin? || e.List? || e.Push? || e.EndOfListing? || e.ProducerReports? || e.Leave? || e.Return?
  }

  ghost function Do(cfg: Config, s: State, e: Event): State
    requires Can(cfg, s, e)
  {
    if ProducerEvent(e) then DoProducer(cfg, s, e) else DoConsumer(s, e)
  }

  /** All of it together. */
  ghost function Pipeline(cfg: Config): Machine<State, Event>
  {
    Machine((s, e) => Can(cfg, s, e), (s, e) => if Can(cfg, s, e) then Do(cfg, s, e) else s)
  }

  // ---------------------------------------------------------------- sums over consumers

  function Buffered(cs: seq<Consumer>): multiset<Obj>
  {
    if cs == [] then multiset{} else multiset(cs[0].buffer) + Buffered(cs[1..])
  }

  lemma {:induction false} BufferedUpdate(cs: seq<Consumer>, i: nat, c: Consumer)
    requires i < |cs|
    ensures Buffered(cs[i := c]) + multiset(cs[i].buffer) == Buffered(cs) + multiset(c.buffer)
  {
    var next := cs[i := c];
    if i > 0 {
      BufferedUpdate(cs[1..], i - 1, c);
      assert next[1..] == cs[1..][i - 1 := c];
      assert cs[1..][i - 1] == cs[i];
      assert next[0] == cs[0];
    } else {
      assert next[1..] == cs[1..];
    }
    assert Buffered(next) == multiset(next[0].buffer) + Buffered(next[1..]);
    assert Buffered(cs) == multiset(cs[0].buffer) + Buffered(cs[1..]);
    forall x
      ensures (Buffered(next) + multiset(cs[i].buffer))[x] == (Buffered(cs) + multiset(c.buffer))[x]
    {
      if i > 0 {
        assert (Buffered(next[1..]) + multiset(cs[i].buffer))[x] == (Buffered(cs[1..]) + multiset(c.buffer))[x];
      }
    }
  }

  lemma {:induction false} NoneBuffered(cs: seq<Consumer>)
    requires forall i | 0 <= i < |cs| :: cs[i].buffer == []
    ensures Buffered(cs) == multiset{}
  {
    if cs != [] {
      NoneBuffered(cs[1..]);
    }
  }

  function Cost(c: Consumer): nat
  {
    match c.job
    case Ready => 5
    case Flush(last) => if last then 3 else 8
    case Report(_, last) => if last then 2 else 7
    case Exited => 0
  }

  // ---------------------------------------------------------------- the invariant

  /** The path is bad, or the listing ends with an error before the limit is reached. */
  predicate ProducerFails(cfg: Config)
  {
    cfg.badPath.Some? || (cfg.listError.Some? && |Files(cfg.objects)| < cfg.Limit())
  }

  function ProducerError(cfg: Config): Error
    requires ProducerFails(cfg)
  {
    if cfg.badPath.Some? then cfg.badPath.value else cfg.listError.value
  }

  /** The producer: what it has pushed and counted is what the listing has shown so far. */
  ghost predicate ProducerInv(cfg: Config, s: State)
  {
    match s.producer
    case Starting => s.pushed == [] && s.numFiles == 0 && s.numBytes == 0
    case Listing(i) => cfg.badPath.None? && i <= |cfg.objects| && Counted(cfg, s, i) && s.numFiles < cfg.Limit()
    case Sending(i) =>
      && cfg.badPath.None? && i < |cfg.objects| && NonEmpty(cfg.objects[i]) && s.pushed == Files(cfg.objects[..i])
      && s.numFiles == |s.pushed| + 1 <= cfg.Limit()
      && s.numBytes == Wrap(Bytes(s.pushed + [cfg.objects[i]]))
    case Reporting(i, _) =>
      && i <= |cfg.objects| && Counted(cfg, s, i) && s.numFiles < cfg.Limit()
      && (cfg.badPath.Some? || i == |cfg.objects|) && ProducerFails(cfg) && s.producer.error == ProducerError(cfg)
    case Leaving(i) => Stopped(cfg, s, i)
    case Gone(i) => Stopped(cfg, s, i)
  }

  ghost predicate Counted(cfg: Config, s: State, i: nat)
    requires i <= |cfg.objects|
  {
    s.pushed == Files(cfg.objects[..i]) && s.numFiles == |s.pushed| && s.numBytes == Wrap(Bytes(s.pushed))
  }

  /** The producer has stopped: at the end of the listing or at the limit, unless it reported a bad path. */
  ghost predicate Stopped(cfg: Config, s: State, i: nat)
  {
    && i <= |cfg.objects| && Counted(cfg, s, i) && s.numFiles <= cfg.Limit()
    && (i == |cfg.objects| || s.numFiles == cfg.Limit() || cfg.badPath.Some?)
    && (ProducerFails(cfg) ==> ProducerError(cfg) in s.errors)
  }

  /** Every file pushed is queued, buffered, accepted or lost, exactly once. */
  ghost predicate Conservation(s: State)
  {
    multiset(s.pushed) == multiset(s.queue) + Buffered(s.consumers) + s.accepted + s.lost
  }

  ghost predicate ConsumerInv(s: State, c: Consumer)
  {
    && (c.failed ==> s.errors != [])
    && (c.failed || c.job.Report? || c.job.Exited? ==> c.buffer == [])
    && (c.job.Ready? ==> |c.buffer| < 10)
    && (c.job.Flush? ==> if c.job.last then 0 < |c.buffer| < 10 else |c.buffer| == 10)
    && (c.job.Exited? ==> s.producer.Gone? && s.queue == [])
    && ((c.job.Flush? || c.job.Report?) && c.job.last ==> s.producer.Gone? && s.queue == [])
  }

  /** Consumers, the reporting of losses, and the result. */
  ghost predicate ConsumersInv(cfg: Config, s: State)
  {
    && |s.consumers| == cfg.concurrency
    && (forall c | 0 <= c < |s.consumers| :: ConsumerInv(s, s.consumers[c]))
    && (s.lost != multiset{} ==> s.errors != [] || exists c | 0 <= c < |s.consumers| :: s.consumers[c].job.Report?)
    && (s.returned.Some? ==>
          && s.producer.Gone? && (forall c | 0 <= c < |s.consumers| :: s.consumers[c].job.Exited?)
          && s.returned.value == if s.errors == [] then None else Some(s.errors[|s.errors| - 1]))
  }

  /** The channel is never over its size; with no consumer everything pushed is still in it. */
  ghost predicate QueueInv(cfg: Config, s: State)
  {
    && |s.queue| <= CHANNEL_SIZE
    && (cfg.concurrency == 0 ==> s.queue == s.pushed && s.accepted == multiset{})
  }

  ghost predicate Inv(cfg: Config, s: State)
  {
    ProducerInv(cfg, s) && Conservation(s) && ConsumersInv(cfg, s) && QueueInv(cfg, s)
  }

  lemma InitInv(cfg: Config)
    ensures Inv(cfg, Init(cfg))
  {
    NoneBuffered(Init(cfg).consumers);
  }

  lemma FilesNext(objects: seq<Obj>, i: nat)
    requires i < |objects|
    ensures NextFile(objects, i)
  {
    KeepSnoc(objects[..i], objects[i], NonEmpty);
    assert objects[..i + 1] == objects[..i] + [objects[i]];
  }

  lemma BytesSnoc(files: seq<Obj>, o: Obj)
    ensures Bytes(files + [o]) == Bytes(files) + o.size
    ensures Wrap(Wrap(Bytes(files)) + o.size) == Wrap(Bytes(files + [o]))
  {
  }

  /** The producer's steps leave consumers and losses alone; only the queue may grow. */
  lemma ProducerEventKeepsInv(cfg: Config, s: State, e: Event)
    requires Inv(cfg, s) && Can(cfg, s, e) && ProducerEvent(e)
    ensures Inv(cfg, Do(cfg, s, e))
  {
    if e.List? || e.Push? {
      FilesNext(cfg.objects, s.producer.next);
      FilesPrefix(cfg.objects, s.producer.next + 1);
    }
    match e {
      case List => ListCounts(cfg, s);
      case Push => PushCounts(cfg, s);
      case _ => OtherCounts(cfg, s, e);
    }
    ProducerFrame(cfg, s, e);
    ProducerConserves(cfg, s, e);
    ProducerKeepsConsumers(cfg, s, Do(cfg, s, e));
  }

  ghost predicate ProducerEffect(s: State, s': State)
  {
    && s'.consumers == s.consumers && s'.lost == s.lost && s.errors <= s'.errors
    && (s.producer.Gone? ==> s'.producer == s.producer && s'.queue == s.queue && s'.errors == s.errors)
    && (s'.returned != s.returned ==>
          && s.producer.Gone? && (forall c | 0 <= c < |s.consumers| :: s.consumers[c].job.Exited?)
          && s'.returned == Some(if s.errors == [] then None else Some(s.errors[|s.errors| - 1])))
  }

  lemma ProducerFrame(cfg: Config, s: State, e: Event)
    requires QueueInv(cfg, s) && Can(cfg, s, e) && ProducerEvent(e)
    ensures ProducerEffect(s, Do(cfg, s, e)) && QueueInv(cfg, Do(cfg, s, e))
  {
  }

  lemma ProducerConserves(cfg: Config, s: State, e: Event)
    requires Conservation(s) && Can(cfg, s, e) && ProducerEvent(e)
    ensures Conservation(Do(cfg, s, e))
  {
    if e.Push? {
      PushConserves(cfg, s);
    }
  }

  lemma PushConserves(cfg: Config, s: State)
    requires Conservation(s) && Can(cfg, s, Push)
    ensures Conservation(Do(cfg, s, Push))
  {
    var o := cfg.objects[s.producer.next];
    MultisetSnoc(s.pushed, o);
    MultisetSnoc(s.queue, o);
  }

  lemma ProducerKeepsConsumers(cfg: Config, s: State, s': State)
    requires ConsumersInv(cfg, s) && ProducerEffect(s, s')
    ensures ConsumersInv(cfg, s')
  {
    forall c | 0 <= c < |s'.consumers|
      ensures ConsumerInv(s', s'.consumers[c])
    {
      assert ConsumerInv(s, s.consumers[c]);
    }
  }

  /** What the next object adds to the files shown. */
  ghost predicate NextFile(objects: seq<Obj>, i: nat)
  {
    && i < |objects|
    && Files(objects[..i + 1]) == Files(objects[..i]) + (if NonEmpty(objects[i]) then [objects[i]] else [])
  }

  lemma ListCounts(cfg: Config, s: State)
    requires ProducerInv(cfg, s) && Can(cfg, s, List) && NextFile(cfg.objects, s.producer.next)
    ensures ProducerInv(cfg, Do(cfg, s, List))
  {
    BytesSnoc(s.pushed, cfg.objects[s.producer.next]);
  }

  lemma PushCounts(cfg: Config, s: State)
    requires ProducerInv(cfg, s) && Can(cfg, s, Push) && NextFile(cfg.objects, s.producer.next)
    requires Files(cfg.objects[..s.producer.next + 1]) <= Files(cfg.objects)
    ensures ProducerInv(cfg, Do(cfg, s, Push))
  {
  }

  lemma OtherCounts(cfg: Config, s: State, e: Event)
    requires ProducerInv(cfg, s) && Can(cfg, s, e) && ProducerEvent(e) && !e.List? && !e.Push?
    ensures ProducerInv(cfg, Do(cfg, s, e))
  {
    assert cfg.objects[..|cfg.objects|] == cfg.objects;
  }

  /** What a consumer's step has in common: one consumer, the queue's head, the books and the errors. */
  ghost predicate ConsumerEffect(s: State, s': State, c: nat)
  {
    && c < |s.consumers| == |s'.consumers| && s'.consumers == s.consumers[c := s'.consumers[c]]
    && s'.producer == s.producer && s'.pushed == s.pushed && s'.returned == s.returned
    && s'.numFiles == s.numFiles && s'.numBytes == s.numBytes
    && s.errors <= s'.errors && (s'.errors == s.errors || s'.consumers[c].failed)
    && (s.queue == [] ==> s'.queue == []) && |s'.queue| <= |s.queue|
    && 4 * |s'.queue| + Cost(s'.consumers[c]) < 4 * |s.queue| + Cost(s.consumers[c])
    && multiset(s'.queue) + multiset(s'.consumers[c].buffer) + s'.accepted + s'.lost
       == multiset(s.queue) + multiset(s.consumers[c].buffer) + s.accepted + s.lost
    && (s'.lost != s.lost ==> s'.consumers[c].job.Report? || s'.consumers[c].failed)
    && (s.consumers[c].job.Report? ==> s'.errors != [])
  }

  lemma ReceiveEffect(cfg: Config, s: State, e: Event)
    requires Can(cfg, s, e) && (e.Receive? || e.MarshalFails?)
    ensures ConsumerEffect(s, Do(cfg, s, e), e.c)
  {
    var x, rest := s.queue[0], s.queue[1..];
    assert s.queue == [x] + rest;
    assert multiset(s.queue) == multiset{x} + multiset(rest);
    if e.Receive? && !s.consumers[e.c].failed {
      MultisetSnoc(s.consumers[e.c].buffer, x);
    }
  }

  lemma SendEffect(cfg: Config, s: State, e: Event)
    requires Can(cfg, s, e) && (e.SendDone? || e.SendFails?)
    ensures ConsumerEffect(s, Do(cfg, s, e), e.c)
  {
  }

  lemma OtherEffect(cfg: Config, s: State, e: Event)
    requires Can(cfg, s, e) && (e.Deliver? || e.EndOfQueue?)
    ensures ConsumerEffect(s, Do(cfg, s, e), e.c)
  {
  }

  lemma EventEffect(cfg: Config, s: State, e: Event)
    requires Can(cfg, s, e) && !ProducerEvent(e)
    ensures ConsumerEffect(s, Do(cfg, s, e), e.c)
  {
    if e.Receive? || e.MarshalFails? {
      ReceiveEffect(cfg, s, e);
    } else if e.SendDone? || e.SendFails? {
      SendEffect(cfg, s, e);
    } else {
      OtherEffect(cfg, s, e);
    }
  }

  /** The changed consumer keeps its own conditions. */
  lemma ConsumerEventKeepsOwn(cfg: Config, s: State, e: Event)
    requires Can(cfg, s, e) && !ProducerEvent(e) && ConsumerInv(s, s.consumers[e.c])
    ensures var s' := Do(cfg, s, e); e.c < |s'.consumers| && ConsumerInv(s', s'.consumers[e.c])
  {
    if e.Receive? || e.MarshalFails? {
      ReceiveKeepsOwn(cfg, s, e);
    } else if e.SendDone? || e.SendFails? {
      SendKeepsOwn(cfg, s, e);
    } else {
      OtherKeepsOwn(cfg, s, e);
    }
  }

  lemma ReceiveKeepsOwn(cfg: Config, s: State, e: Event)
    requires Can(cfg, s, e) && (e.Receive? || e.MarshalFails?) && ConsumerInv(s, s.consumers[e.c])
    ensures var s' := Do(cfg, s, e); e.c < |s'.consumers| && ConsumerInv(s', s'.consumers[e.c])
  {
  }

  lemma SendKeepsOwn(cfg: Config, s: State, e: Event)
    requires Can(cfg, s, e) && (e.SendDone? || e.SendFails?) && ConsumerInv(s, s.consumers[e.c])
    ensures var s' := Do(cfg, s, e); e.c < |s'.consumers| && ConsumerInv(s', s'.consumers[e.c])
  {
  }

  lemma OtherKeepsOwn(cfg: Config, s: State, e: Event)
    requires Can(cfg, s, e) && (e.Deliver? || e.EndOfQueue?) && ConsumerInv(s, s.consumers[e.c])
    ensures var s' := Do(cfg, s, e); e.c < |s'.consumers| && ConsumerInv(s', s'.consumers[e.c])
  {
  }

  lemma EffectConserves(s: State, s': State, c: nat)
    requires Conservation(s) && ConsumerEffect(s, s', c)
    ensures Conservation(s')
  {
    var before, after := multiset(s.consumers[c].buffer), multiset(s'.consumers[c].buffer);
    BufferedUpdate(s.consumers, c, s'.consumers[c]);
    forall x
      ensures multiset(s'.pushed)[x] == (multiset(s'.queue) + Buffered(s'.consumers) + s'.accepted + s'.lost)[x]
    {
      assert (Buffered(s'.consumers) + before)[x] == (Buffered(s.consumers) + after)[x];
      assert (multiset(s'.queue) + after + s'.accepted + s'.lost)[x]
        == (multiset(s.queue) + before + s.accepted + s.lost)[x];
      assert multiset(s.pushed)[x] == (multiset(s.queue) + Buffered(s.consumers) + s.accepted + s.lost)[x];
    }
  }

  lemma EffectKeepsConsumers(cfg: Config, s: State, s': State, c: nat)
    requires ProducerInv(cfg, s) && ConsumersInv(cfg, s) && ConsumerEffect(s, s', c) && ConsumerInv(s', s'.consumers[c])
    requires !s.consumers[c].job.Exited?
    ensures ProducerInv(cfg, s') && ConsumersInv(cfg, s')
  {
    forall d | 0 <= d < |s'.consumers|
      ensures ConsumerInv(s', s'.consumers[d])
    {
      assert ConsumerInv(s, s.consumers[d]);
    }
    if s'.lost != multiset{} && s'.errors == [] {
      if s'.lost == s.lost {
        var d :| 0 <= d < |s.consumers| && s.consumers[d].job.Report?;
        assert s'.consumers[d].job.Report?;
      } else {
        assert s'.consumers[c].job.Report?;
      }
    }
  }

  lemma StepKeepsInv(cfg: Config, s: State, e: Event)
    requires Inv(cfg, s) && Can(cfg, s, e)
    ensures Inv(cfg, Do(cfg, s, e))
  {
    if ProducerEvent(e) {
      ProducerEventKeepsInv(cfg, s, e);
    } else {
      assert ConsumerInv(s, s.consumers[e.c]);
      EventEffect(cfg, s, e);
      ConsumerEventKeepsOwn(cfg, s, e);
      EffectConserves(s, Do(cfg, s, e), e.c);
      EffectKeepsConsumers(cfg, s, Do(cfg, s, e), e.c);
    }
  }

  // ---------------------------------------------------------------- progress

  /** The number of files to be pushed: the non-empty objects, up to the limit. */
  function ToPush(cfg: Config): nat
  {
    var files := Files(cfg.objects);
    if |files| < cfg.Limit() then |files| else cfg.Limit()
  }

  /** The channel is emptied, or holds everything. */
  predicate Flows(cfg: Config)
  {
    cfg.badPath.Some? || cfg.concurrency >= 1 || ToPush(cfg) <= CHANNEL_SIZE
  }

  lemma SendingLeavesRoom(cfg: Config, s: State)
    requires Inv(cfg, s) && Flows(cfg) && cfg.concurrency == 0 && s.producer.Sending?
    ensures Can(cfg, s, Push)
  {
    FilesNext(cfg.objects, s.producer.next);
    FilesPrefix(cfg.objects, s.producer.next + 1);
  }

  /** The producer's next event. */
  function ProducerEventOf(cfg: Config, p: Producer): Event
  {
    match p
    case Starting => Begin
    case Listing(i) => if i < |cfg.objects| then List else EndOfListing
    case Sending(_) => Push
    case Reporting(_, _) => ProducerReports
    case Leaving(_) => Leave
    case Gone(_) => Return
  }

  lemma ProducerGoesOn(cfg: Config, s: State)
    requires Flows(cfg) && Inv(cfg, s) && s.returned.None? && !s.producer.Gone?
      && (cfg.concurrency == 0 || s.queue == [])
    ensures Can(cfg, s, ProducerEventOf(cfg, s.producer))
  {
    if cfg.concurrency == 0 && s.producer.Sending? {
      SendingLeavesRoom(cfg, s);
    }
  }

  lemma BusyGoesOn(cfg: Config, s: State, c: nat)
    requires s.returned.None? && c < |s.consumers| && (s.consumers[c].job.Flush? || s.consumers[c].job.Report?)
    ensures !Stuck(Pipeline(cfg), s)
  {
    assert Pipeline(cfg).can(s, if s.consumers[c].job.Flush? then SendDone(c) else Deliver(c));
  }

  /** Then some event is possible in every reachable state short of the return. */
  lemma NoDeadlock(cfg: Config, s: State)
    requires Flows(cfg) && Inv(cfg, s) && s.returned.None?
    ensures !Stuck(Pipeline(cfg), s)
  {
    if c :| 0 <= c < |s.consumers| && (s.consumers[c].job.Flush? || s.consumers[c].job.Report?) {
      BusyGoesOn(cfg, s, c);
    } else if s.queue != [] && cfg.concurrency >= 1 {
      assert ConsumerInv(s, s.consumers[0]);
      assert Pipeline(cfg).can(s, Receive(0));
    } else if !s.producer.Gone? {
      ProducerGoesOn(cfg, s);
      assert Pipeline(cfg).can(s, ProducerEventOf(cfg, s.producer));
    } else if c :| 0 <= c < |s.consumers| && s.consumers[c].job.Ready? {
      assert Pipeline(cfg).can(s, EndOfQueue(c));
    } else {
      assert Pipeline(cfg).can(s, Return);
    }
  }

  function ProducerCost(cfg: Config, p: Producer): int
  {
    match p
    case Starting => 6 * |cfg.objects| + 4
    case Listing(i) => 6 * (|cfg.objects| - i) + 3
    case Sending(i) => 6 * (|cfg.objects| - i) + 2
    case Reporting(_, _) => 2
    case Leaving(_) => 1
    case Gone(_) => 0
  }

  /** How many events can still happen, at most. */
  function Remaining(cfg: Config, s: State): int
  {
    ProducerCost(cfg, s.producer) + 4 * |s.queue| + Sum(s.consumers, Cost) + (if s.returned.Some? then 0 else 1)
  }

  lemma StepShrinks(cfg: Config, s: State, e: Event)
    requires Inv(cfg, s) && Can(cfg, s, e)
    ensures Remaining(cfg, Do(cfg, s, e)) < Remaining(cfg, s)
  {
    if ProducerEvent(e) {
      ProducerFrame(cfg, s, e);
      ProducerShrinks(cfg, s, e);
    } else {
      EventEffect(cfg, s, e);
      SumUpdate(s.consumers, Cost, e.c, Do(cfg, s, e).consumers[e.c]);
    }
  }

  lemma ProducerShrinks(cfg: Config, s: State, e: Event)
    requires ProducerInv(cfg, s) && Can(cfg, s, e) && ProducerEvent(e)
    ensures var s' := Do(cfg, s, e);
      ProducerCost(cfg, s'.producer) + 4 * |s'.queue| + (if s'.returned.Some? then 0 else 1)
      < ProducerCost(cfg, s.producer) + 4 * |s.queue| + (if s.returned.Some? then 0 else 1)
  {
  }

  // ---------------------------------------------------------------- runs

  lemma PipelineSteps(cfg: Config)
    ensures Steps(Pipeline(cfg), s => Inv(cfg, s), s => Remaining(cfg, s))
  {
    forall s, e | Inv(cfg, s) && Can(cfg, s, e)
      ensures Inv(cfg, Do(cfg, s, e)) && Remaining(cfg, Do(cfg, s, e)) < Remaining(cfg, s)
    {
      StepKeepsInv(cfg, s, e);
      StepShrinks(cfg, s, e);
    }
  }

  lemma RunKeepsInv(cfg: Config, run: seq<Event>)
    requires Possible(Pipeline(cfg), Init(cfg), run)
    ensures var s := After(Pipeline(cfg), Init(cfg), run);
      Inv(cfg, s) && Remaining(cfg, s) + |run| <= Remaining(cfg, Init(cfg))
  {
    InitInv(cfg);
    PipelineSteps(cfg);
    RunKeeps(Pipeline(cfg), s => Inv(cfg, s), s => Remaining(cfg, s), Init(cfg), run);
  }

  /** Every run ends: its length is bounded. */
  lemma RunsAreBounded(cfg: Config, run: seq<Event>)
    requires Possible(Pipeline(cfg), Init(cfg), run)
    ensures |run| <= 6 * |cfg.objects| + 5 * cfg.concurrency + 5
  {
    RunKeepsInv(cfg, run);
    RemainingAtStart(cfg);
    NoneRemains(cfg, After(Pipeline(cfg), Init(cfg), run));
  }

  lemma RemainingAtStart(cfg: Config)
    ensures Remaining(cfg, Init(cfg)) == 6 * |cfg.objects| + 5 * cfg.concurrency + 5
  {
    SumEven(Init(cfg).consumers, Cost, 5);
  }

  lemma NoneRemains(cfg: Config, s: State)
    requires Inv(cfg, s)
    ensures Remaining(cfg, s) >= 0
  {
  }

  /** If the channel neither is emptied nor holds everything, no run ever returns. */
  lemma FullChannelNeverReturns(cfg: Config, run: seq<Event>)
    requires !Flows(cfg) && Possible(Pipeline(cfg), Init(cfg), run)
    ensures After(Pipeline(cfg), Init(cfg), run).returned.None?
  {
    RunKeepsInv(cfg, run);
    var s := After(Pipeline(cfg), Init(cfg), run);
    if s.returned.Some? {
      PushedAll(cfg, s);
    }
  }

  /** A run that cannot go on has returned, in every interleaving and with any failures, if and only if the path is
      bad, there is a consumer, or the channel holds all files to be pushed. */
  lemma EveryRunReturnsIff(cfg: Config)
    ensures
      (forall run | Possible(Pipeline(cfg), Init(cfg), run)
        && Stuck(Pipeline(cfg), After(Pipeline(cfg), Init(cfg), run)) ::
        After(Pipeline(cfg), Init(cfg), run).returned.Some?)
      <==> cfg.badPath.Some? || cfg.concurrency >= 1 || ToPush(cfg) <= 1000
  {
    if Flows(cfg) {
      forall run | Possible(Pipeline(cfg), Init(cfg), run) && Stuck(Pipeline(cfg), After(Pipeline(cfg), Init(cfg), run))
        ensures After(Pipeline(cfg), Init(cfg), run).returned.Some?
      {
        RunKeepsInv(cfg, run);
        var s := After(Pipeline(cfg), Init(cfg), run);
        if s.returned.None? {
          NoDeadlock(cfg, s);
        }
      }
    } else {
      InitInv(cfg);
      PipelineSteps(cfg);
      var run := RunToEnd(Pipeline(cfg), s => Inv(cfg, s), s => Remaining(cfg, s), Init(cfg));
      FullChannelNeverReturns(cfg, run);
    }
  }

  lemma FilesPrefix(objects: seq<Obj>, i: nat)
    requires i <= |objects|
    ensures Files(objects[..i]) <= Files(objects)
  {
    KeepAppend(objects[..i], objects[i..], NonEmpty);
    assert objects == objects[..i] + objects[i..];
  }

  /** With a good path, everything to be pushed has been pushed when the producer is gone. */
  lemma PushedAll(cfg: Config, s: State)
    requires Inv(cfg, s) && s.producer.Gone? && cfg.badPath.None?
    ensures s.numFiles == ToPush(cfg) && s.pushed == Files(cfg.objects)[..ToPush(cfg)]
    ensures s.numBytes == Wrap(Bytes(s.pushed))
  {
    FilesPrefix(cfg.objects, s.producer.next);
    assert cfg.objects[..|cfg.objects|] == cfg.objects;
    assert s.pushed == Files(cfg.objects)[..|s.pushed|];
  }

  /** If a run returns nil, the files counted are the first non-empty objects of the listing, up to the limit; the
      bytes are their sizes (as an unsigned 64-bit counter); and every one of them was accepted by SQS exactly once
      if and only if there is a consumer or there are no files. The path was good, and no listing error was reached. */
  lemma NilMeansQueued(cfg: Config, run: seq<Event>)
    requires Possible(Pipeline(cfg), Init(cfg), run)
    requires After(Pipeline(cfg), Init(cfg), run).returned == Some(None)
    ensures
      var s, files := After(Pipeline(cfg), Init(cfg), run), Files(cfg.objects)[..ToPush(cfg)];
      && s.numFiles == |files| && s.numBytes == Bytes(files) % 0x1_0000_0000_0000_0000
      && (cfg.limit > 0 ==> |files| == if |Files(cfg.objects)| < cfg.limit then |Files(cfg.objects)| else cfg.limit)
      && (cfg.limit == 0 && |Files(cfg.objects)| < 0x1_0000_0000_0000_0000 ==> files == Files(cfg.objects))
      && (s.accepted == multiset(files) <==> cfg.concurrency >= 1 || files == [])
      && (cfg.concurrency == 0 ==> s.accepted == multiset{})
      && cfg.badPath.None? && (cfg.listError.None? || ToPush(cfg) == cfg.Limit())
  {
    RunKeepsInv(cfg, run);
    var s := After(Pipeline(cfg), Init(cfg), run);
    PushedAll(cfg, s);
    forall c | 0 <= c < |s.consumers|
      ensures s.consumers[c].buffer == []
    {
      assert ConsumerInv(s, s.consumers[c]);
    }
    NoneBuffered(s.consumers);
    assert s.lost == multiset{};
    if cfg.concurrency >= 1 {
      assert ConsumerInv(s, s.consumers[0]);
      assert multiset(s.queue) == multiset{};
    } else if s.pushed != [] {
      assert s.pushed[0] in multiset(s.pushed);
    }
  }

  predicate ConsumerFails(e: Event) { e.MarshalFails? || e.SendFails? }

  predicate Failing(c: Consumer) { c.failed || c.job.Report? }

  /** Every error in the state is one of these. */
  ghost predicate Known(s: State, known: set<Error>)
  {
    && (forall k | 0 <= k < |s.errors| :: s.errors[k] in known)
    && (forall c | 0 <= c < |s.consumers| && s.consumers[c].job.Report? :: s.consumers[c].job.error in known)
    && (s.producer.Reporting? ==> s.producer.error in known)
  }

  ghost predicate SomeFailing(s: State) { exists c | 0 <= c < |s.consumers| :: Failing(s.consumers[c]) }

  lemma ProducerKnown(cfg: Config, s: State, e: Event, known: set<Error>)
    requires Can(cfg, s, e) && ProducerEvent(e) && Known(s, known) && ProducerInv(cfg, Do(cfg, s, e))
    requires ProducerFails(cfg) ==> ProducerError(cfg) in known
    ensures Known(Do(cfg, s, e), known)
  {
  }

  /** What a consumer's step does to errors: it fails with the event's own error, or hands over the one it has. */
  ghost predicate ErrorEffect(s: State, s': State, e: Event)
    requires !ProducerEvent(e)
  {
    && e.c < |s.consumers| && s'.producer == s.producer && |s'.consumers| == |s.consumers|
    && var before, after := s.consumers[e.c], s'.consumers[e.c];
      && s'.consumers == s.consumers[e.c := after]
      && (Failing(before) || ConsumerFails(e) ==> Failing(after))
      && (after.job.Report? ==> ConsumerFails(e) && after.job.error == e.error)
      && (s'.errors == s.errors || (before.job.Report? && s'.errors == s.errors + [before.job.error]))
  }

  lemma ReceiveErrors(cfg: Config, s: State, e: Event)
    requires Can(cfg, s, e) && (e.Receive? || e.MarshalFails?)
    ensures ErrorEffect(s, Do(cfg, s, e), e)
  {
  }

  lemma SendErrors(cfg: Config, s: State, e: Event)
    requires Can(cfg, s, e) && (e.SendDone? || e.SendFails?)
    ensures ErrorEffect(s, Do(cfg, s, e), e)
  {
  }

  lemma OtherErrors(cfg: Config, s: State, e: Event)
    requires Can(cfg, s, e) && (e.Deliver? || e.EndOfQueue?)
    ensures ErrorEffect(s, Do(cfg, s, e), e)
  {
  }

  lemma StepErrors(cfg: Config, s: State, e: Event)
    requires Can(cfg, s, e) && !ProducerEvent(e)
    ensures ErrorEffect(s, Do(cfg, s, e), e)
  {
    if e.Receive? || e.MarshalFails? {
      ReceiveErrors(cfg, s, e);
    } else if e.SendDone? || e.SendFails? {
      SendErrors(cfg, s, e);
    } else {
      OtherErrors(cfg, s, e);
    }
  }

  lemma EffectKnown(s: State, s': State, e: Event, known: set<Error>)
    requires !ProducerEvent(e) && ErrorEffect(s, s', e) && Known(s, known) && (ConsumerFails(e) ==> e.error in known)
    ensures Known(s', known)
  {
  }

  lemma EffectFailing(s: State, s': State, e: Event)
    requires !ProducerEvent(e) && ErrorEffect(s, s', e)
    ensures SomeFailing(s) || ConsumerFails(e) ==> SomeFailing(s')
  {
    if c :| 0 <= c < |s.consumers| && Failing(s.consumers[c]) {
      assert Failing(s'.consumers[c]);
    } else if ConsumerFails(e) {
      assert Failing(s'.consumers[e.c]);
    }
  }

  lemma StepKnown(cfg: Config, s: State, e: Event, known: set<Error>)
    requires Inv(cfg, s) && Can(cfg, s, e) && Known(s, known)
    requires (ConsumerFails(e) ==> e.error in known) && (ProducerFails(cfg) ==> ProducerError(cfg) in known)
    ensures Known(Do(cfg, s, e), known)
  {
    if ProducerEvent(e) {
      StepKeepsInv(cfg, s, e);
      ProducerKnown(cfg, s, e, known);
    } else {
      StepErrors(cfg, s, e);
      EffectKnown(s, Do(cfg, s, e), e, known);
    }
  }

  lemma StepFailing(cfg: Config, s: State, e: Event)
    requires Can(cfg, s, e)
    ensures SomeFailing(s) || ConsumerFails(e) ==> SomeFailing(Do(cfg, s, e))
  {
    if ProducerEvent(e) {
      assert Do(cfg, s, e).consumers == s.consumers;
    } else {
      StepErrors(cfg, s, e);
      EffectFailing(s, Do(cfg, s, e), e);
    }
  }

  lemma ErrorsTraced(cfg: Config, known: set<Error>)
    requires ProducerFails(cfg) ==> ProducerError(cfg) in known
    ensures Traces(Pipeline(cfg), s => Inv(cfg, s), s => SomeFailing(s), ConsumerFails, s => Known(s, known),
      e => ConsumerFails(e) ==> e.error in known)
  {
    forall s, e | Inv(cfg, s) && Can(cfg, s, e)
      ensures Inv(cfg, Do(cfg, s, e)) && (SomeFailing(s) || ConsumerFails(e) ==> SomeFailing(Do(cfg, s, e)))
      ensures Known(s, known) && (ConsumerFails(e) ==> e.error in known) ==> Known(Do(cfg, s, e), known)
    {
      StepKeepsInv(cfg, s, e);
      StepFailing(cfg, s, e);
      if Known(s, known) && (ConsumerFails(e) ==> e.error in known) {
        StepKnown(cfg, s, e, known);
      }
    }
  }

  lemma RunKnown(cfg: Config, run: seq<Event>, known: set<Error>)
    requires Possible(Pipeline(cfg), Init(cfg), run) && AllAre(run, e => ConsumerFails(e) ==> e.error in known)
    requires ProducerFails(cfg) ==> ProducerError(cfg) in known
    ensures Known(After(Pipeline(cfg), Init(cfg), run), known)
    ensures Occurs(run, ConsumerFails) ==> SomeFailing(After(Pipeline(cfg), Init(cfg), run))
  {
    InitInv(cfg);
    ErrorsTraced(cfg, known);
    RunTraces(Pipeline(cfg), s => Inv(cfg, s), s => SomeFailing(s), ConsumerFails, s => Known(s, known),
      e => ConsumerFails(e) ==> e.error in known, Init(cfg), run);
  }

  lemma ReturnsKnown(cfg: Config, run: seq<Event>, known: set<Error>)
    requires Possible(Pipeline(cfg), Init(cfg), run) && AllAre(run, e => ConsumerFails(e) ==> e.error in known)
    requires ProducerFails(cfg) ==> ProducerError(cfg) in known
    requires After(Pipeline(cfg), Init(cfg), run).returned.Some?
    ensures
      var result := After(Pipeline(cfg), Init(cfg), run).returned.value;
      && (result.Some? ==> result.value in known)
      && (ProducerFails(cfg) || Occurs(run, ConsumerFails) ==> result.Some?)
  {
    RunKeepsInv(cfg, run);
    RunKnown(cfg, run, known);
    var s := After(Pipeline(cfg), Init(cfg), run);
    if c :| 0 <= c < |s.consumers| && Failing(s.consumers[c]) {
      assert ConsumerInv(s, s.consumers[c]);
    }
  }

  /** The errors that consumers report during a run. */
  ghost function ErrorsIn(run: seq<Event>): (known: set<Error>)
    ensures AllAre(run, e => ConsumerFails(e) ==> e.error in known)
    ensures forall error | error in known :: exists k | 0 <= k < |run| :: ConsumerFails(run[k]) && run[k].error == error
  {
    set k | 0 <= k < |run| && ConsumerFails(run[k]) :: run[k].error
  }

  /** A run returns an error exactly when the path is bad, the listing's error is reached, or a consumer fails to
      marshal or to send; and the error is one of theirs. */
  lemma ErrorMeansFailure(cfg: Config, run: seq<Event>)
    requires Possible(Pipeline(cfg), Init(cfg), run)
    requires After(Pipeline(cfg), Init(cfg), run).returned.Some?
    ensures
      var result := After(Pipeline(cfg), Init(cfg), run).returned.value;
      && (result.Some? <==>
          || cfg.badPath.Some? || (cfg.listError.Some? && |Files(cfg.objects)| < cfg.Limit())
          || Occurs(run, ConsumerFails))
      && (result.Some? ==>
          || cfg.badPath == result || (cfg.badPath.None? && cfg.listError == result)
          || exists k | 0 <= k < |run| :: ConsumerFails(run[k]) && run[k].error == result.value)
  {
    var own := if ProducerFails(cfg) then {ProducerError(cfg)} else {};
    ReturnsKnown(cfg, run, ErrorsIn(run) + own);
  }

  /** In every run, whatever happens, nothing is accepted that was not pushed, and nothing twice. */
  lemma NeverTwice(cfg: Config, run: seq<Event>)
    requires Possible(Pipeline(cfg), Init(cfg), run)
    ensures var s := After(Pipeline(cfg), Init(cfg), run);
      s.accepted <= multiset(s.pushed) && s.pushed <= Files(cfg.objects)
  {
    RunKeepsInv(cfg, run);
    var s := After(Pipeline(cfg), Init(cfg), run);
    if !s.producer.Starting? {
      FilesPrefix(cfg.objects, s.producer.next);
    }
  }

  /** One file, listed and in the channel, and no consumer. */
  function InChannel(o: Obj): State
  {
    State(Listing(1), 1, Wrap(o.size), [o], [o], [], multiset{}, multiset{}, [], None)
  }

  lemma FileInChannel(o: Obj)
    requires NonEmpty(o)
    ensures
      var m, s := Pipeline(Config(None, [o], None, 0, 0)), Init(Config(None, [o], None, 0, 0));
      Possible(m, s, [Begin, List, Push]) && After(m, s, [Begin, List, Push]) == InChannel(o)
  {
    assert Init(Config(None, [o], None, 0, 0)).consumers == [];
  }

  lemma ReturnFromChannel(o: Obj)
    ensures
      var m, rest := Pipeline(Config(None, [o], None, 0, 0)), [EndOfListing, Leave, Return];
      Possible(m, InChannel(o), rest)
        && After(m, InChannel(o), rest) == InChannel(o).(producer := Gone(1), returned := Some(None))
  {
  }

  /** At an input: without a consumer one file is counted, nil is returned, and nothing was sent. */
  lemma NoConsumerQueuesNothing(o: Obj)
    requires NonEmpty(o)
    ensures
      var cfg := Config(None, [o], None, 0, 0);
      var run := [Begin, List, Push] + [EndOfListing, Leave, Return];
      var s := After(Pipeline(cfg), Init(cfg), run);
      Possible(Pipeline(cfg), Init(cfg), run) && s.returned == Some(None) && s.numFiles == 1 && s.accepted == multiset{}
  {
    var cfg := Config(None, [o], None, 0, 0);
    FileInChannel(o);
    ReturnFromChannel(o);
    RunAppend(Pipeline(cfg), Init(cfg), [Begin, List, Push], [EndOfListing, Leave, Return]);
  }

  /** At an input: without a consumer the call for 1001 files comes to a stop and never returns. */
  lemma ManyFilesBlock(o: Obj)
    requires NonEmpty(o)
    ensures
      var m, s := Pipeline(Config(None, seq(1001, _ => o), None, 0, 0)),
        Init(Config(None, seq(1001, _ => o), None, 0, 0));
      && (forall run | Possible(m, s, run) :: After(m, s, run).returned.None?)
      && exists run :: Possible(m, s, run) && Stuck(m, After(m, s, run))
  {
    var cfg := Config(None, seq(1001, _ => o), None, 0, 0);
    KeepAll(cfg.objects, NonEmpty);
    forall run | Possible(Pipeline(cfg), Init(cfg), run)
      ensures After(Pipeline(cfg), Init(cfg), run).returned.None?
    {
      FullChannelNeverReturns(cfg, run);
    }
    EveryRunReturnsIff(cfg);
  }

  // ---------------------------------------------------------------- the batches meet the SQS contract

  /** The entries a consumer builds: ids are the positions in its buffer, bodies the notifications of the files. */
  function Entries(buffer: seq<Obj>, body: Obj -> string): (entries: seq<SqsBatch.Entry>)
    ensures |entries| == |buffer|
    ensures forall i | 0 <= i < |buffer| :: entries[i] == SqsBatch.Entry(Itoa(i), body(buffer[i]))
  {
    seq(|buffer|, i requires 0 <= i < |buffer| => SqsBatch.Entry(Itoa(i), body(buffer[i])))
  }

  /** A consumer's entries always meet what `SendMessageBatch` asks of its caller. */
  lemma EntriesMeetContract(buffer: seq<Obj>, body: Obj -> string)
    ensures SqsBatch.DistinctPerBatch(Entries(buffer, body))
  {
    var all := Entries(buffer, body);
    forall i, j | 0 <= i < j < |all|
      ensures all[i].id != all[j].id
    {
      if all[i].id == all[j].id {
        ItoaInjective(i, j);
      }
    }
    BatchesAreSlices(all, 0);
  }

  lemma SliceDistinct(all: seq<SqsBatch.Entry>, i: nat, j: nat)
    requires i <= j <= |all| && SqsBatch.DistinctIds(all)
    ensures SqsBatch.DistinctIds(all[i..j])
  {
  }

  lemma {:induction false} BatchesAreSlices(all: seq<SqsBatch.Entry>, i: nat)
    requires i <= |all| && SqsBatch.DistinctIds(all)
    ensures forall b | b in SqsBatch.Batches(all, i) :: SqsBatch.DistinctIds(b)
    decreases |all| - i
  {
    if i < |all| {
      var j := SqsBatch.StretchEnd(all, i, i + 1);
      BatchesAreSlices(all, j);
      SliceDistinct(all, i, j);
      SliceDistinct(all, i + 1, j);
      assert forall b | b in SqsBatch.Batches(all, i) ::
        b == SqsBatch.BatchOf(all, i, j) || b in SqsBatch.Batches(all, j);
    }
  }

  /** The service took the entries at the marked positions, and the machine books the files there as accepted. */
  ghost predicate Booked(before: seq<SqsBatch.Entry>, after: seq<SqsBatch.Entry>, buffer: seq<Obj>, body: Obj -> string,
      marks: seq<bool>, s: State, s': State)
  {
    && |marks| == |buffer| && Accepted(before, after, Select(Entries(buffer, body), marks, true))
    && s'.accepted == s.accepted + multiset(Select(buffer, marks, true))
  }

  /** What a consumer does with its buffer, by way of the SQS wrapper, is a step of the machine: `SendDone` on success,
      and otherwise `SendFails` with the files whose entries were accepted. */
  method SendBuffer(client: SqsBatch.Client, buffer: seq<Obj>, body: Obj -> string, ghost cfg: Config, ghost s: State,
      ghost c: nat)
    returns (err: Option<SqsBatch.Error>, ghost e: Event, ghost marks: seq<bool>)
    requires c < |s.consumers| && s.consumers[c].job.Flush? && s.consumers[c].buffer == buffer
    modifies client
    ensures SqsBatch.LogGrows(old(client.requests), client.requests)
    ensures Can(cfg, s, e) && if err == None then e == SendDone(c) else e.SendFails? && e.c == c
    ensures Booked(old(client.accepted), client.accepted, buffer, body, marks, s, Do(cfg, s, e))
  {
    var entries := Entries(buffer, body);
    EntriesMeetContract(buffer, body);
    var input := new SqsBatch.Input(entries);
    var failures;
    failures, err := SqsBatch.SendMessageBatch(client, input);
    SomeAccepted(old(client.accepted), client.accepted, entries, failures, err, input.entries);
    e, marks := StepOf(cfg, s, c, old(client.accepted), client.accepted, body, err == None);
  }

  lemma SomeAccepted(before: seq<SqsBatch.Entry>, after: seq<SqsBatch.Entry>, all: seq<SqsBatch.Entry>,
      failures: seq<SqsBatch.Entry>, err: Option<SqsBatch.Error>, pending: seq<SqsBatch.Entry>)
    requires SqsBatch.Outcome(before, after, all, failures, err, pending)
    ensures err == None ==> Accepted(before, after, all)
    ensures multiset(after) <= multiset(before) + multiset(all)
  {
    if err == Some(SqsBatch.BatchRequestTooLong) {
      SqsBatch.PrefixFits(all, SqsBatch.Reached(all, 0));
    }
  }

  lemma StepOf(cfg: Config, s: State, c: nat, before: seq<SqsBatch.Entry>, after: seq<SqsBatch.Entry>,
      body: Obj -> string, done: bool) returns (e: Event, marks: seq<bool>)
    requires c < |s.consumers| && s.consumers[c].job.Flush? && SqsBatch.Grows(before, after)
    requires multiset(after) <= multiset(before) + multiset(Entries(s.consumers[c].buffer, body))
    requires done ==> Accepted(before, after, Entries(s.consumers[c].buffer, body))
    ensures Can(cfg, s, e) && if done then e == SendDone(c) else e.SendFails? && e.c == c
    ensures Booked(before, after, s.consumers[c].buffer, body, marks, s, Do(cfg, s, e))
  {
    var buffer := s.consumers[c].buffer;
    if done {
      marks := seq(|buffer|, _ => true);
      SelectAll(buffer, marks);
      SelectAll(Entries(buffer, body), marks);
      e := SendDone(c);
    } else {
      marks := AcceptedMarks(before, after, Entries(buffer, body));
      SelectSplits(buffer, marks);
      e := SendFails(c, "", multiset(Select(buffer, marks, true)));
    }
  }

  lemma AcceptedMarks(before: seq<SqsBatch.Entry>, after: seq<SqsBatch.Entry>, all: seq<SqsBatch.Entry>)
    returns (marks: seq<bool>)
    requires SqsBatch.Grows(before, after) && multiset(after) <= multiset(before) + multiset(all)
    ensures |marks| == |all| && Accepted(before, after, Select(all, marks, true))
  {
    var taken := after[|before|..];
    assert after == before + taken;
    forall x
      ensures multiset(taken)[x] <= multiset(all)[x]
    {
      assert multiset(after)[x] == multiset(before)[x] + multiset(taken)[x];
    }
    marks := SelectPart(all, multiset(taken));
  }
}
