/** `SyncPartitions` (`pkg/awsglue/glue.go`): one producer walks the time bins, ten workers bring the Glue
    catalog up to date, and a worker that fails reports once and then only drains the channel.
    The protocol is a state machine; a run is any sequence of events that are possible one after the other. */
module SyncPartitions {
  import opened GoStrings
  import opened TimeBins
  import opened Partitions
  import opened Runs

  type Error = string
  type Values = seq<string>
  datatype StorageDescriptor = StorageDescriptor(columns: seq<string>, serdeInfo: string, location: string,
      rest: string)
  type Catalog = map<Values, StorageDescriptor>
  datatype S3Object = S3Object(key: string, size: nat)

  const CONCURRENCY: nat := 10

  /** What the workers share: the bins to visit, how a bin is named in Glue and in S3, the table's
      descriptor, the parsed host of its location (none if the URL is bad), the objects in S3 and the
      catalog at the start. */
  datatype Config = Config(
    bins: seq<Time>,
    key: Time -> Values,
    prefix: Time -> string,
    table: StorageDescriptor,
    host: Option<string>,
    objects: set<S3Object>,
    initial: Catalog)
  {
    /** The descriptor `createPartition` writes. */
    function NewPartition(t: Time): StorageDescriptor
      requires host.Some?
    {
      table.(location := "s3://" + host.value + "/" + prefix(t))
    }

    /** The descriptor an update writes: the table's columns and serde info, everything else as it was. */
    function Refresh(sd: StorageDescriptor): StorageDescriptor
    {
      sd.(columns := table.columns, serdeInfo := table.serdeInfo)
    }

    ghost predicate Holds(t: Time, o: S3Object) { o in objects && prefix(t) <= o.key }

    /** A first page the listing of a bin may return: one object under the bin's prefix, or none if there is none. */
    ghost predicate Lists(t: Time, page: seq<S3Object>)
    {
      if page == [] then forall o | o in objects :: !Holds(t, o) else |page| == 1 && Holds(t, page[0])
    }

    ghost predicate DistinctKeys()
    {
      forall i, j | 0 <= i < j < |bins| :: key(bins[i]) != key(bins[j])
    }
  }

  predicate AnySized(page: seq<S3Object>) { exists i | 0 <= i < |page| :: page[i].size > 0 }

  /** `partitionHasData`: the paging callback looks at the first page only, then stops the listing. */
  method PartitionHasData(pages: seq<seq<S3Object>>) returns (hasData: bool)
    ensures hasData <==> pages != [] && AnySized(pages[0])
  {
    hasData := false;
    var p, more := 0, true;
    while p < |pages| && more
      invariant p <= |pages| && (if more then p == 0 && !hasData else p == 1 && (hasData <==> AnySized(pages[0])))
      decreases |pages| - p
    {
      var i := 0;
      while i < |pages[p]|
        invariant 0 <= i <= |pages[p]|
        invariant hasData <==> AnySized(pages[p][..i])
      {
        assert pages[p][..i + 1][..i] == pages[p][..i];
        if pages[p][i].size > 0 {
          hasData := true;
          assert pages[p][..i + 1][i].size > 0;
        }
        i := i + 1;
      }
      assert pages[p][..i] == pages[p];
      p, more := p + 1, false;
    }
  }

  // ---------------------------------------------------------------- the machine

  /** What became of a bin a worker took. */
  datatype Outcome = InFlight | Refreshed | Created(page: seq<S3Object>) | NoData(page: seq<S3Object>) | Failed
      | Drained
  datatype Taken = Taken(bin: Time, worker: nat, outcome: Outcome)

  /** What a worker is doing; `slot` is the position of its bin in the history. */
  datatype Job =
    | Idle
    | Lookup(slot: nat)
    | Check(slot: nat)
    | Create(slot: nat, page: seq<S3Object>)
    | Update(slot: nat, found: StorageDescriptor)
    | Report(error: Error)
  datatype Worker = Worker(failed: bool, exited: bool, job: Job)

  datatype State = State(
    pushed: nat,
    closed: bool,
    queue: seq<Time>,
    errors: seq<Error>,
    workers: seq<Worker>,
    catalog: Catalog,
    taken: seq<Taken>,
    returned: Option<Option<Error>>)

  datatype Event =
    | Push | Close | Return
    | Receive(w: nat) | Exit(w: nat) | SendError(w: nat)
    | GetFound(w: nat) | GetMissing(w: nat) | GetFails(w: nat, error: Error)
    | CheckDone(w: nat, page: seq<S3Object>) | CheckFails(w: nat, error: Error)
    | CreateDone(w: nat) | CreateExists(w: nat) | CreateFails(w: nat, error: Error)
    | UpdateDone(w: nat) | UpdateFails(w: nat, error: Error)

  function Init(c: Config): State
  {
    State(0, false, [], [], seq(CONCURRENCY, _ => Worker(false, false, Idle)), c.initial, [], None)
  }

  predicate OnSlot(s: State, w: nat)
  {
    w < |s.workers| && s.workers[w].job != Idle && !s.workers[w].job.Report? && s.workers[w].job.slot < |s.taken|
  }

  function BinOf(s: State, w: nat): Time
    requires OnSlot(s, w)
  {
    s.taken[s.workers[w].job.slot].bin
  }

  ghost predicate Can(c: Config, s: State, e: Event)
  {
    match e
    case Push => !s.closed && s.pushed < |c.bins| && |s.queue| < CONCURRENCY
    case Close => !s.closed && s.pushed == |c.bins|
    case Return => s.closed && s.returned.None? && forall i | 0 <= i < |s.workers| :: s.workers[i].exited
    case Receive(w) => w < |s.workers| && !s.workers[w].exited && s.workers[w].job.Idle? && s.queue != []
    case Exit(w) => w < |s.workers| && !s.workers[w].exited && s.workers[w].job.Idle? && s.queue == [] && s.closed
    case SendError(w) => w < |s.workers| && s.workers[w].job.Report? && |s.errors| < CONCURRENCY
    case GetFound(w) => OnSlot(s, w) && s.workers[w].job.Lookup? && c.key(BinOf(s, w)) in s.catalog
    case GetMissing(w) => OnSlot(s, w) && s.workers[w].job.Lookup? && c.key(BinOf(s, w)) !in s.catalog
    case GetFails(w, _) => OnSlot(s, w) && s.workers[w].job.Lookup?
    case CheckDone(w, page) => OnSlot(s, w) && s.workers[w].job.Check? && c.host.Some? && c.Lists(BinOf(s, w), page)
    case CheckFails(w, _) => OnSlot(s, w) && s.workers[w].job.Check?
    case CreateDone(w) => OnSlot(s, w) && s.workers[w].job.Create? && c.host.Some? && c.key(BinOf(s, w)) !in s.catalog
    case CreateExists(w) => OnSlot(s, w) && s.workers[w].job.Create? && c.key(BinOf(s, w)) in s.catalog
    case CreateFails(w, _) => OnSlot(s, w) && s.workers[w].job.Create?
    case UpdateDone(w) => OnSlot(s, w) && s.workers[w].job.Update? && c.key(BinOf(s, w)) in s.catalog
    case UpdateFails(w, _) => OnSlot(s, w) && s.workers[w].job.Update?
  }

  function SetJob(s: State, w: nat, job: Job): State
    requires w < |s.workers|
  {
    s.(workers := s.workers[w := s.workers[w].(job := job)])
  }

  /** The worker is done with its bin and goes back to the channel. */
  function Finish(s: State, w: nat, outcome: Outcome, catalog: Catalog): State
    requires OnSlot(s, w)
  {
    var k := s.workers[w].job.slot;
    SetJob(s, w, Idle).(taken := s.taken[k := s.taken[k].(outcome := outcome)], catalog := catalog)
  }

  /** `failed = true`, and the error is about to be sent. */
  function Fail(s: State, w: nat, error: Error): State
    requires OnSlot(s, w)
  {
    var k := s.workers[w].job.slot;
    s.(workers := s.workers[w := s.workers[w].(failed := true, job := Report(error))],
       taken := s.taken[k := s.taken[k].(outcome := Failed)])
  }

  ghost function Do(c: Config, s: State, e: Event): State
    requires Can(c, s, e)
  {
    match e
    case Push => s.(queue := s.queue + [c.bins[s.pushed]], pushed := s.pushed + 1)
    case Close => s.(closed := true)
    case Return => s.(returned := Some(if s.errors == [] then None else Some(s.errors[0])))
    case Receive(w) =>
      var rest := s.(queue := s.queue[1..]);
      if s.workers[w].failed then rest.(taken := s.taken + [Taken(s.queue[0], w, Drained)])
      else SetJob(rest, w, Lookup(|s.taken|)).(taken := s.taken + [Taken(s.queue[0], w, InFlight)])
    case Exit(w) => s.(workers := s.workers[w := s.workers[w].(exited := true)])
    case SendError(w) => SetJob(s, w, Idle).(errors := s.errors + [s.workers[w].job.error])
    case GetFound(w) => SetJob(s, w, Update(s.workers[w].job.slot, s.catalog[c.key(BinOf(s, w))]))
    case GetMissing(w) => SetJob(s, w, Check(s.workers[w].job.slot))
    case CheckDone(w, page) =>
      if AnySized(page) then SetJob(s, w, Create(s.workers[w].job.slot, page))
      else Finish(s, w, NoData(page), s.catalog)
    case CreateDone(w) =>
      Finish(s, w, Created(s.workers[w].job.page), s.catalog[c.key(BinOf(s, w)) := c.NewPartition(BinOf(s, w))])
    case CreateExists(w) => Finish(s, w, Created(s.workers[w].job.page), s.catalog)
    case UpdateDone(w) =>
      Finish(s, w, Refreshed, s.catalog[c.key(BinOf(s, w)) := c.Refresh(s.workers[w].job.found)])
    case GetFails(w, error) => Fail(s, w, error)
    case CheckFails(w, error) => Fail(s, w, error)
    case CreateFails(w, error) => Fail(s, w, error)
    case UpdateFails(w, error) => Fail(s, w, error)
  }

  /** All of it together. */
  ghost function Pool(c: Config): Machine<State, Event>
  {
    Machine((s, e) => Can(c, s, e), (s, e) => if Can(c, s, e) then Do(c, s, e) else s)
  }

  // ---------------------------------------------------------------- counting workers

  /** The worker failed and has finished reporting. */
  function Reported(w: Worker): nat { if w.failed && !w.job.Report? then 1 else 0 }

  function Count(ws: seq<Worker>): nat { Sum(ws, Reported) }

  lemma {:induction false} CountBounds(ws: seq<Worker>)
    ensures Count(ws) <= |ws|
    ensures Count(ws) == |ws| ==> forall i | 0 <= i < |ws| :: ws[i].failed && !ws[i].job.Report?
    ensures Count(ws) == 0 ==> forall i | 0 <= i < |ws| :: !ws[i].failed || ws[i].job.Report?
  {
    if ws != [] {
      CountBounds(ws[..|ws| - 1]);
    }
  }

  // ---------------------------------------------------------------- the invariant

  /** Channels: what was taken followed by what is queued is exactly what was pushed. */
  ghost predicate Channels(c: Config, s: State)
  {
    && s.pushed == |s.taken| + |s.queue| <= |c.bins|
    && |s.queue| <= CONCURRENCY
    && (forall k | 0 <= k < |s.taken| :: s.taken[k].bin == c.bins[k])
    && (forall i | 0 <= i < |s.queue| :: s.queue[i] == c.bins[|s.taken| + i])
    && (s.closed ==> s.pushed == |c.bins|)
  }

  /** Errors: one entry for every worker that failed and has finished reporting. */
  ghost predicate Errors(s: State)
  {
    && |s.workers| == CONCURRENCY
    && |s.errors| == Count(s.workers)
    && (forall i | 0 <= i < |s.workers| :: s.workers[i].job.Report? ==> s.workers[i].failed)
    && (forall i | 0 <= i < |s.workers| :: s.workers[i].exited ==> s.closed && s.queue == [] && s.workers[i].job.Idle?)
    && (s.returned.Some? ==> s.closed && (forall i | 0 <= i < |s.workers| :: s.workers[i].exited)
                             && s.returned.value == if s.errors == [] then None else Some(s.errors[0]))
  }

  /** Every worker on a bin holds the one history slot that is in flight for it. */
  ghost predicate Jobs(c: Config, s: State)
  {
    && (forall i | 0 <= i < |s.workers| :: s.workers[i].job.Idle? || s.workers[i].job.Report? || HoldsSlot(c, s, i))
    && (forall k | 0 <= k < |s.taken| :: SlotHeld(s, k))
  }

  ghost predicate HoldsSlot(c: Config, s: State, i: nat)
    requires i < |s.workers|
  {
    && OnSlot(s, i) && !s.workers[i].failed
    && s.taken[s.workers[i].job.slot].worker == i
    && s.taken[s.workers[i].job.slot].outcome == InFlight
    && var key, job := c.key(BinOf(s, i)), s.workers[i].job;
      && (job.Check? || job.Create? ==> key !in c.initial)
      && (job.Create? ==> c.host.Some? && c.Lists(BinOf(s, i), job.page) && AnySized(job.page))
      && (job.Update? ==> key in c.initial && c.initial[key] == job.found)
  }

  ghost predicate SlotHeld(s: State, k: nat)
    requires k < |s.taken|
  {
    && s.taken[k].worker < |s.workers|
    && var w := s.workers[s.taken[k].worker];
      && (s.taken[k].outcome.InFlight? ==> !w.job.Idle? && !w.job.Report? && w.job.slot == k)
      && (s.taken[k].outcome.Failed? || s.taken[k].outcome.Drained? ==> w.failed)
  }

  ghost predicate Unchanged(c: Config, catalog: Catalog, key: Values)
  {
    (key in catalog <==> key in c.initial) && (key in catalog ==> catalog[key] == c.initial[key])
  }

  /** An existing partition after its update: the table's schema and serde info, everything else as it was. */
  ghost predicate IsRefreshed(table: StorageDescriptor, before: StorageDescriptor, after: StorageDescriptor)
  {
    && after.columns == table.columns && after.serdeInfo == table.serdeInfo
    && after.location == before.location && after.rest == before.rest
  }

  /** A new partition: like the table, but at the place of its own prefix in the table's bucket. */
  ghost predicate IsNew(table: StorageDescriptor, host: Option<string>, prefix: string, after: StorageDescriptor)
  {
    && after.columns == table.columns && after.serdeInfo == table.serdeInfo && after.rest == table.rest
    && host.Some? && after.location == "s3://" + host.value + "/" + prefix
  }

  /** The catalog entry of a taken bin is what its outcome says. */
  ghost predicate EntryMatches(c: Config, catalog: Catalog, t: Taken)
  {
    var key := c.key(t.bin);
    match t.outcome
    case Refreshed => key in c.initial && key in catalog && IsRefreshed(c.table, c.initial[key], catalog[key])
    case Created(page) =>
      && key !in c.initial && c.Lists(t.bin, page) && AnySized(page)
      && key in catalog && IsNew(c.table, c.host, c.prefix(t.bin), catalog[key])
    case NoData(page) => key !in c.initial && c.Lists(t.bin, page) && !AnySized(page) && Unchanged(c, catalog, key)
    case _ => Unchanged(c, catalog, key)
  }

  ghost predicate CatalogMatches(c: Config, s: State)
  {
    && (forall k | 0 <= k < |s.taken| :: EntryMatches(c, s.catalog, s.taken[k]))
    && (forall key | key in s.catalog || key in c.initial ::
          (forall k | 0 <= k < |s.taken| :: c.key(s.taken[k].bin) != key) ==> Unchanged(c, s.catalog, key))
  }

  ghost predicate Inv(c: Config, s: State)
  {
    Channels(c, s) && Errors(s) && Jobs(c, s) && CatalogMatches(c, s)
  }

  lemma InitInv(c: Config)
    ensures Inv(c, Init(c))
  {
    SumEven(Init(c).workers, Reported, 0);
  }

  predicate SlotEvent(e: Event)
  {
    !e.Push? && !e.Close? && !e.Return? && !e.Receive? && !e.Exit? && !e.SendError?
  }

  /** What every step of a worker on a bin has in common: only that worker, the outcome of its
      slot and the catalog entry of its bin may change, and its job gets shorter. */
  ghost predicate SlotEffect(c: Config, s: State, s': State, w: nat)
  {
    && OnSlot(s, w) && !s.workers[w].failed && |s'.workers| == |s.workers| && |s'.taken| == |s.taken|
    && var slot, worker := s.workers[w].job.slot, s'.workers[w];
      && s' == s.(workers := s.workers[w := worker], catalog := s'.catalog,
                  taken := s.taken[slot := s.taken[slot].(outcome := s'.taken[slot].outcome)])
      && worker.exited == s.workers[w].exited && (worker.failed <==> worker.job.Report?)
      && Cost(worker) < Cost(s.workers[w])
      && (forall key | key != c.key(s.taken[slot].bin) ::
            (key in s'.catalog <==> key in s.catalog) && (key in s.catalog ==> s'.catalog[key] == s.catalog[key]))
  }

  lemma SetJobEffect(c: Config, s: State, w: nat, job: Job)
    requires OnSlot(s, w) && !s.workers[w].failed && !job.Report?
    requires Cost(s.workers[w].(job := job)) < Cost(s.workers[w])
    ensures SlotEffect(c, s, SetJob(s, w, job), w)
  {
    var slot := s.workers[w].job.slot;
    assert s.taken[slot := s.taken[slot]] == s.taken;
  }

  lemma FinishEffect(c: Config, s: State, w: nat, outcome: Outcome, catalog: Catalog)
    requires OnSlot(s, w) && !s.workers[w].failed
    requires forall key | key != c.key(BinOf(s, w)) ::
               (key in catalog <==> key in s.catalog) && (key in s.catalog ==> catalog[key] == s.catalog[key])
    ensures SlotEffect(c, s, Finish(s, w, outcome, catalog), w)
  {
  }

  lemma FailEffect(c: Config, s: State, w: nat, error: Error)
    requires OnSlot(s, w) && !s.workers[w].failed
    ensures SlotEffect(c, s, Fail(s, w, error), w)
  {
  }

  lemma SlotEventEffect(c: Config, s: State, e: Event)
    requires Jobs(c, s) && Can(c, s, e) && SlotEvent(e)
    ensures SlotEffect(c, s, Do(c, s, e), e.w)
  {
    assert HoldsSlot(c, s, e.w);
    match e
    case GetFound(w) => SetJobEffect(c, s, w, Update(s.workers[w].job.slot, s.catalog[c.key(BinOf(s, w))]));
    case GetMissing(w) => SetJobEffect(c, s, w, Check(s.workers[w].job.slot));
    case CheckDone(w, page) =>
      if AnySized(page) {
        SetJobEffect(c, s, w, Create(s.workers[w].job.slot, page));
      } else {
        FinishEffect(c, s, w, NoData(page), s.catalog);
      }
    case CreateDone(w) =>
      FinishEffect(c, s, w, Created(s.workers[w].job.page),
        s.catalog[c.key(BinOf(s, w)) := c.NewPartition(BinOf(s, w))]);
    case CreateExists(w) => FinishEffect(c, s, w, Created(s.workers[w].job.page), s.catalog);
    case UpdateDone(w) =>
      FinishEffect(c, s, w, Refreshed, s.catalog[c.key(BinOf(s, w)) := c.Refresh(s.workers[w].job.found)]);
    case GetFails(w, error) => FailEffect(c, s, w, error);
    case CheckFails(w, error) => FailEffect(c, s, w, error);
    case CreateFails(w, error) => FailEffect(c, s, w, error);
    case UpdateFails(w, error) => FailEffect(c, s, w, error);
  }

  lemma ChannelsKept(c: Config, s: State, e: Event)
    requires Inv(c, s) && Can(c, s, e)
    ensures Channels(c, Do(c, s, e))
  {
    if SlotEvent(e) {
      SlotEventEffect(c, s, e);
      SlotKeepsChannels(c, s, Do(c, s, e), e.w);
    } else if e.Receive? {
      ReceiveKeepsChannels(c, s, e.w);
    }
  }

  lemma SlotKeepsChannels(c: Config, s: State, s': State, w: nat)
    requires Channels(c, s) && SlotEffect(c, s, s', w)
    ensures Channels(c, s')
  {
  }

  lemma ReceiveKeepsChannels(c: Config, s: State, w: nat)
    requires Channels(c, s) && Can(c, s, Receive(w))
    ensures Channels(c, Do(c, s, Receive(w)))
  {
  }

  lemma ErrorsKept(c: Config, s: State, e: Event)
    requires Inv(c, s) && Can(c, s, e)
    ensures Errors(Do(c, s, e))
  {
    var s' := Do(c, s, e);
    if SlotEvent(e) {
      SlotEventEffect(c, s, e);
      SlotKeepsErrors(c, s, s', e.w);
    } else if e.Receive? || e.Exit? || e.SendError? {
      WorkerChanges(s, s', e.w);
    }
  }

  lemma SlotKeepsErrors(c: Config, s: State, s': State, w: nat)
    requires Errors(s) && SlotEffect(c, s, s', w)
    ensures Errors(s')
  {
    WorkerChanges(s, s', w);
  }

  lemma WorkerChanges(s: State, s': State, w: nat)
    requires w < |s.workers| == |s'.workers| && s'.workers == s.workers[w := s'.workers[w]]
    ensures Count(s'.workers) - Count(s.workers) == Reported(s'.workers[w]) - Reported(s.workers[w])
    ensures Sum(s'.workers, Cost) - Sum(s.workers, Cost) == Cost(s'.workers[w]) - Cost(s.workers[w])
  {
    SumUpdate(s.workers, Reported, w, s'.workers[w]);
    SumUpdate(s.workers, Cost, w, s'.workers[w]);
  }

  /** A worker that stays on its bin still holds its slot, and one that leaves it has settled the outcome. */
  lemma SlotEventJob(c: Config, s: State, e: Event)
    requires Inv(c, s) && Can(c, s, e) && SlotEvent(e)
    ensures
      var s', slot := Do(c, s, e), s.workers[e.w].job.slot;
      var job := s'.workers[e.w].job;
      && (if job.Idle? || job.Report? then !s'.taken[slot].outcome.InFlight?
          else job.slot == slot && HoldsSlot(c, s', e.w))
      && SlotHeld(s', slot)
      && EntryMatches(c, s'.catalog, s'.taken[slot])
  {
    assert HoldsSlot(c, s, e.w) && EntryMatches(c, s.catalog, s.taken[s.workers[e.w].job.slot]);
  }

  lemma JobsKept(c: Config, s: State, e: Event)
    requires Inv(c, s) && Can(c, s, e)
    ensures Jobs(c, Do(c, s, e))
  {
    var s' := Do(c, s, e);
    if SlotEvent(e) {
      SlotEventEffect(c, s, e);
      SlotEventJob(c, s, e);
      OtherJobsKept(c, s, s', e.w);
    } else {
      forall i | 0 <= i < |s'.workers|
        ensures s'.workers[i].job.Idle? || s'.workers[i].job.Report? || HoldsSlot(c, s', i)
      {
        assert s.workers[i].job.Idle? || s.workers[i].job.Report? || HoldsSlot(c, s, i);
      }
      forall k | 0 <= k < |s'.taken|
        ensures SlotHeld(s', k)
      {
        assert k < |s.taken| ==> SlotHeld(s, k);
      }
    }
  }

  lemma OtherJobsKept(c: Config, s: State, s': State, w: nat)
    requires Jobs(c, s) && SlotEffect(c, s, s', w) && s.taken[s.workers[w].job.slot].worker == w
    requires s'.workers[w].job.Idle? || s'.workers[w].job.Report? || HoldsSlot(c, s', w)
    requires SlotHeld(s', s.workers[w].job.slot)
    ensures Jobs(c, s')
  {
    var slot := s.workers[w].job.slot;
    assert HoldsSlot(c, s, w);
    forall i | 0 <= i < |s'.workers|
      ensures s'.workers[i].job.Idle? || s'.workers[i].job.Report? || HoldsSlot(c, s', i)
    {
      assert s.workers[i].job.Idle? || s.workers[i].job.Report? || HoldsSlot(c, s, i);
    }
    forall k | 0 <= k < |s'.taken|
      ensures SlotHeld(s', k)
    {
      assert SlotHeld(s, k);
    }
  }

  lemma CatalogKept(c: Config, s: State, e: Event)
    requires c.DistinctKeys() && Inv(c, s) && Can(c, s, e)
    ensures CatalogMatches(c, Do(c, s, e))
  {
    if SlotEvent(e) {
      SlotKeepsCatalog(c, s, e);
    } else if e.Receive? {
      ChannelsKept(c, s, e);
      ReceiveKeepsCatalog(c, s, Do(c, s, e));
    }
  }

  lemma SlotKeepsCatalog(c: Config, s: State, e: Event)
    requires c.DistinctKeys() && Inv(c, s) && Can(c, s, e) && SlotEvent(e)
    ensures CatalogMatches(c, Do(c, s, e))
  {
    SlotEventEffect(c, s, e);
    SlotEventJob(c, s, e);
    OtherEntriesKept(c, s, Do(c, s, e), s.workers[e.w].job.slot);
  }

  lemma OtherEntriesKept(c: Config, s: State, s': State, slot: nat)
    requires c.DistinctKeys() && Channels(c, s) && CatalogMatches(c, s) && slot < |s.taken| == |s'.taken|
    requires forall k | 0 <= k < |s.taken| && k != slot :: s'.taken[k] == s.taken[k]
    requires s'.taken[slot].bin == s.taken[slot].bin && EntryMatches(c, s'.catalog, s'.taken[slot])
    requires forall key | key != c.key(s.taken[slot].bin) ::
               (key in s'.catalog <==> key in s.catalog) && (key in s.catalog ==> s'.catalog[key] == s.catalog[key])
    ensures CatalogMatches(c, s')
  {
    forall k | 0 <= k < |s'.taken|
      ensures EntryMatches(c, s'.catalog, s'.taken[k])
    {
      assert EntryMatches(c, s.catalog, s.taken[k]);
      assert k < slot ==> c.key(c.bins[k]) != c.key(c.bins[slot]);
      assert slot < k ==> c.key(c.bins[slot]) != c.key(c.bins[k]);
    }
    UntakenUnchanged(c, s, s', slot);
  }

  lemma ReceiveKeepsCatalog(c: Config, s: State, s': State)
    requires c.DistinctKeys() && Channels(c, s) && CatalogMatches(c, s) && Channels(c, s')
    requires |s'.taken| == |s.taken| + 1 && s'.taken[..|s.taken|] == s.taken && s'.catalog == s.catalog
    requires s'.taken[|s.taken|].outcome.InFlight? || s'.taken[|s.taken|].outcome.Drained?
    ensures CatalogMatches(c, s')
  {
    var t := s'.taken[|s.taken|];
    forall k | 0 <= k < |s.taken|
      ensures c.key(s.taken[k].bin) != c.key(t.bin) && s'.taken[k] == s.taken[k]
    {
      assert s'.taken[k] == s'.taken[..|s.taken|][k];
      assert s.taken[k].bin == c.bins[k] && t.bin == c.bins[|s.taken|];
    }
    assert Unchanged(c, s.catalog, c.key(t.bin));
    forall key | (key in s'.catalog || key in c.initial) && forall k | 0 <= k < |s'.taken| ::
      c.key(s'.taken[k].bin) != key
      ensures Unchanged(c, s'.catalog, key)
    {
      forall k | 0 <= k < |s.taken| ensures c.key(s.taken[k].bin) != key { assert s'.taken[k] == s.taken[k]; }
    }
  }

  /** Entries of bins nobody took are untouched by a step that works on one taken bin. */
  lemma UntakenUnchanged(c: Config, s: State, s': State, slot: nat)
    requires CatalogMatches(c, s) && slot < |s.taken| == |s'.taken|
    requires forall k | 0 <= k < |s.taken| :: s'.taken[k].bin == s.taken[k].bin
    requires forall key | key != c.key(s.taken[slot].bin) ::
               (key in s'.catalog <==> key in s.catalog) && (key in s.catalog ==> s'.catalog[key] == s.catalog[key])
    ensures forall key | key in s'.catalog || key in c.initial ::
              (forall k | 0 <= k < |s'.taken| :: c.key(s'.taken[k].bin) != key) ==> Unchanged(c, s'.catalog, key)
  {
  }

  lemma StepKeepsInv(c: Config, s: State, e: Event)
    requires c.DistinctKeys() && Inv(c, s) && Can(c, s, e)
    ensures Inv(c, Do(c, s, e))
  {
    ChannelsKept(c, s, e);
    ErrorsKept(c, s, e);
    JobsKept(c, s, e);
    CatalogKept(c, s, e);
  }

  // ---------------------------------------------------------------- progress

  /** The error channel never blocks: a worker about to report always finds room. */
  lemma ErrorChannelHasRoom(c: Config, s: State, w: nat)
    requires Inv(c, s) && w < |s.workers| && s.workers[w].job.Report?
    ensures Can(c, s, SendError(w))
  {
    CountBounds(s.workers);
  }

  /** Some page that the listing of a bin may begin with. */
  ghost function FirstPage(c: Config, t: Time): (page: seq<S3Object>)
    ensures c.Lists(t, page)
  {
    if o :| o in c.objects && c.Holds(t, o) then [o] else []
  }

  /** The next event of a worker that is not idle, if no call fails. */
  ghost function WorkerEvent(c: Config, s: State, w: nat): Event
    requires OnSlot(s, w)
  {
    var present := c.key(BinOf(s, w)) in s.catalog;
    match s.workers[w].job
    case Lookup(_) => if present then GetFound(w) else GetMissing(w)
    case Check(_) => if c.host.Some? then CheckDone(w, FirstPage(c, BinOf(s, w))) else CheckFails(w, "bad location")
    case Create(_, _) => if present then CreateExists(w) else CreateDone(w)
    case Update(_, _) => UpdateDone(w)
  }

  /** No deadlock: in every reachable state short of the return, some event is possible. */
  lemma NoDeadlock(c: Config, s: State)
    requires Inv(c, s) && s.returned.None?
    ensures !Stuck(Pool(c), s)
  {
    if w :| 0 <= w < |s.workers| && !s.workers[w].job.Idle? {
      if s.workers[w].job.Report? {
        ErrorChannelHasRoom(c, s, w);
        assert Pool(c).can(s, SendError(w));
      } else {
        assert HoldsSlot(c, s, w);
        assert EntryMatches(c, s.catalog, s.taken[s.workers[w].job.slot]);
        assert Pool(c).can(s, WorkerEvent(c, s, w));
      }
    } else if s.queue != [] {
      assert Pool(c).can(s, Receive(0));
    } else if !s.closed {
      assert Pool(c).can(s, if s.pushed < |c.bins| then Push else Close);
    } else if w :| 0 <= w < |s.workers| && !s.workers[w].exited {
      assert Pool(c).can(s, Exit(w));
    } else {
      assert Pool(c).can(s, Return);
    }
  }

  function Cost(w: Worker): nat
  {
    (if w.exited then 0 else 1)
    + match w.job
      case Idle => 0
      case Report(_) => 1
      case Create(_, _) => 2
      case Check(_) => 3
      case Update(_, _) => 3
      case Lookup(_) => 4
  }

  /** How many events can still happen, at most. */
  function Remaining(c: Config, s: State): int
  {
    6 * (|c.bins| - s.pushed) + 5 * |s.queue| + Sum(s.workers, Cost)
    + (if s.closed then 0 else 1) + (if s.returned.Some? then 0 else 1)
  }

  lemma StepShrinks(c: Config, s: State, e: Event)
    requires Inv(c, s) && Can(c, s, e)
    ensures Remaining(c, Do(c, s, e)) < Remaining(c, s)
  {
    var s' := Do(c, s, e);
    if SlotEvent(e) {
      SlotEventEffect(c, s, e);
      WorkerChanges(s, s', e.w);
    } else if e.Receive? || e.Exit? || e.SendError? {
      WorkerChanges(s, s', e.w);
    }
  }

  // ---------------------------------------------------------------- runs

  /** Every run keeps the invariant and uses up its length. */
  lemma RunKeepsInv(c: Config, run: seq<Event>)
    requires c.DistinctKeys() && Possible(Pool(c), Init(c), run)
    ensures var s := After(Pool(c), Init(c), run);
      Inv(c, s) && Remaining(c, s) + |run| <= Remaining(c, Init(c))
  {
    InitInv(c);
    forall s, e | Inv(c, s) && Can(c, s, e)
      ensures Inv(c, Do(c, s, e)) && Remaining(c, Do(c, s, e)) < Remaining(c, s)
    {
      StepKeepsInv(c, s, e);
      StepShrinks(c, s, e);
    }
    RunKeeps(Pool(c), s => Inv(c, s), s => Remaining(c, s), Init(c), run);
  }

  /** In any interleaving and with any failures: a run cannot go on forever, and a run that cannot go on has
      returned.  So `wg.Wait` always returns, the producer is never stuck and the drain protocol works. */
  lemma EveryRunReturns(c: Config, run: seq<Event>)
    requires c.DistinctKeys() && Possible(Pool(c), Init(c), run)
    ensures |run| <= 6 * |c.bins| + CONCURRENCY + 2
    ensures var s := After(Pool(c), Init(c), run); Stuck(Pool(c), s) ==> s.returned.Some?
  {
    RunKeepsInv(c, run);
    SumEven(Init(c).workers, Cost, 1);
    var s := After(Pool(c), Init(c), run);
    assert Remaining(c, s) >= 0;
    if s.returned.None? {
      NoDeadlock(c, s);
    }
  }

  /** The state of a bin's partition when all is well: refreshed if it was there, created if it was missing
      and the listing showed a non-empty object, still missing otherwise. */
  ghost predicate Synced(c: Config, catalog: Catalog, t: Taken)
  {
    var key := c.key(t.bin);
    if key in c.initial then
      t.outcome == Refreshed && key in catalog && IsRefreshed(c.table, c.initial[key], catalog[key])
    else
      && (t.outcome.Created? || t.outcome.NoData?) && c.Lists(t.bin, t.outcome.page)
      && (key in catalog <==> AnySized(t.outcome.page))
      && (t.outcome.Created? <==> AnySized(t.outcome.page))
      && (key in catalog ==> IsNew(c.table, c.host, c.prefix(t.bin), catalog[key]))
  }

  /** If a run returns nil, every bin was taken exactly once, in order, and its partition is in sync;
      no other partition changed. */
  lemma NilMeansSynced(c: Config, run: seq<Event>)
    requires c.DistinctKeys() && Possible(Pool(c), Init(c), run)
    requires After(Pool(c), Init(c), run).returned == Some(None)
    ensures var s := After(Pool(c), Init(c), run);
      && |s.taken| == |c.bins|
      && (forall k | 0 <= k < |c.bins| :: s.taken[k].bin == c.bins[k] && Synced(c, s.catalog, s.taken[k]))
      && (forall key | key in s.catalog || key in c.initial ::
            (forall k | 0 <= k < |c.bins| :: c.key(c.bins[k]) != key) ==> Unchanged(c, s.catalog, key))
  {
    RunKeepsInv(c, run);
    var s := After(Pool(c), Init(c), run);
    CountBounds(s.workers);
    assert s.workers[0].exited;
    forall k | 0 <= k < |c.bins|
      ensures Synced(c, s.catalog, s.taken[k])
    {
      assert SlotHeld(s, k);
      assert EntryMatches(c, s.catalog, s.taken[k]);
    }
    forall key | (key in s.catalog || key in c.initial) && forall k | 0 <= k < |c.bins| :: c.key(c.bins[k]) != key
      ensures Unchanged(c, s.catalog, key)
    {
      forall k | 0 <= k < |s.taken| ensures c.key(s.taken[k].bin) != key { assert s.taken[k].bin == c.bins[k]; }
    }
  }

  predicate CallFails(e: Event) { e.GetFails? || e.CheckFails? || e.CreateFails? || e.UpdateFails? }

  ghost predicate SomeFailed(s: State) { exists w | 0 <= w < |s.workers| :: s.workers[w].failed }

  /** Every error in the state is one of these. */
  ghost predicate Known(s: State, known: set<Error>)
  {
    && (forall k | 0 <= k < |s.errors| :: s.errors[k] in known)
    && forall w | 0 <= w < |s.workers| && s.workers[w].job.Report? :: s.workers[w].job.error in known
  }

  lemma StepFailed(c: Config, s: State, e: Event)
    requires Can(c, s, e)
    ensures SomeFailed(s) || CallFails(e) ==> SomeFailed(Do(c, s, e))
  {
    var s' := Do(c, s, e);
    if w :| 0 <= w < |s.workers| && s.workers[w].failed {
      assert s'.workers[w].failed;
    } else if CallFails(e) {
      assert s'.workers[e.w].failed;
    }
  }

  lemma StepKnown(c: Config, s: State, e: Event, known: set<Error>)
    requires Can(c, s, e) && Known(s, known) && (CallFails(e) ==> e.error in known)
    ensures Known(Do(c, s, e), known)
  {
  }

  lemma ErrorsTraced(c: Config, known: set<Error>)
    requires c.DistinctKeys()
    ensures Traces(Pool(c), s => Inv(c, s), s => SomeFailed(s), CallFails, s => Known(s, known),
      e => CallFails(e) ==> e.error in known)
  {
    forall s, e | Inv(c, s) && Can(c, s, e)
      ensures Inv(c, Do(c, s, e)) && (SomeFailed(s) || CallFails(e) ==> SomeFailed(Do(c, s, e)))
      ensures Known(s, known) && (CallFails(e) ==> e.error in known) ==> Known(Do(c, s, e), known)
    {
      StepKeepsInv(c, s, e);
      StepFailed(c, s, e);
      if Known(s, known) && (CallFails(e) ==> e.error in known) {
        StepKnown(c, s, e, known);
      }
    }
  }

  lemma RunKnown(c: Config, run: seq<Event>, known: set<Error>)
    requires c.DistinctKeys() && Possible(Pool(c), Init(c), run)
    requires AllAre(run, e => CallFails(e) ==> e.error in known)
    ensures Known(After(Pool(c), Init(c), run), known)
    ensures Occurs(run, CallFails) ==> SomeFailed(After(Pool(c), Init(c), run))
  {
    InitInv(c);
    ErrorsTraced(c, known);
    RunTraces(Pool(c), s => Inv(c, s), s => SomeFailed(s), CallFails, s => Known(s, known),
      e => CallFails(e) ==> e.error in known, Init(c), run);
  }

  lemma FirstReported(c: Config, run: seq<Event>)
    requires c.DistinctKeys() && Possible(Pool(c), Init(c), run)
    requires After(Pool(c), Init(c), run).returned.Some?
    ensures var s := After(Pool(c), Init(c), run);
      s.returned.value == (if s.errors == [] then None else Some(s.errors[0])) && (SomeFailed(s) <==> s.errors != [])
  {
    RunKeepsInv(c, run);
    var s := After(Pool(c), Init(c), run);
    CountBounds(s.workers);
    if !SomeFailed(s) {
      SumEven(s.workers, Reported, 0);
    }
  }

  /** The errors of the calls that fail during a run. */
  ghost function ErrorsIn(run: seq<Event>): (known: set<Error>)
    ensures AllAre(run, e => CallFails(e) ==> e.error in known)
    ensures forall error | error in known :: exists k | 0 <= k < |run| :: CallFails(run[k]) && run[k].error == error
  {
    set k | 0 <= k < |run| && CallFails(run[k]) :: run[k].error
  }

  /** A run returns an error exactly when some call of a worker fails, and then it is the error of such a call, the
      first one reported. */
  lemma ErrorMeansFailure(c: Config, run: seq<Event>)
    requires c.DistinctKeys() && Possible(Pool(c), Init(c), run)
    requires After(Pool(c), Init(c), run).returned.Some?
    ensures var s := After(Pool(c), Init(c), run);
      && (s.returned.value.Some? <==> Occurs(run, CallFails))
      && (s.returned.value.Some? ==>
            && s.errors != [] && s.returned.value.value == s.errors[0]
            && exists k | 0 <= k < |run| :: CallFails(run[k]) && run[k].error == s.errors[0])
  {
    FirstReported(c, run);
    RunKnown(c, run, ErrorsIn(run));
  }

  // ---------------------------------------------------------------- the table's own bins

  /** One call of `SyncPartitions`: the table, the requested start, the clock, and the services' contents. */
  datatype Call = Call(
    dataType: DataType, logType: string, timebin: GlueTableTimebin, startDate: Time, createTime: Time, now: Time,
    table: StorageDescriptor, host: Option<string>, objects: set<S3Object>, initial: Catalog)
  {
    /** The zero start date means the table's creation time; either is clipped to its day. */
    function Start(): Time { Truncate(if startDate == 0 then createTime else startDate, DAY) }

    /** The last hour of the current day. */
    function End(): Time { Truncate(now, DAY) + 23 * HOUR }

    function Prefix(t: Time): string { GetPartitionPrefix(dataType, logType, timebin, t) }

    function Setup(): Config
      requires Validate(timebin)
    {
      Config(Walk(timebin, Start(), End()), t => PartitionValues(timebin, t), t => Prefix(t),
             table, host, objects, initial)
    }
  }

  /** The bins of a call have different partition values, so the workers never meet on a partition. */
  lemma CallKeysDistinct(call: Call)
    requires Validate(call.timebin)
    ensures call.Setup().DistinctKeys()
  {
    var c := call.Setup();
    WalkDistinctBins(call.timebin, call.Start(), call.End());
    forall i, j | 0 <= i < j < |c.bins|
      ensures c.key(c.bins[i]) != c.key(c.bins[j])
    {
      ValuesNameBin(call.timebin, c.bins[i], c.bins[j]);
    }
  }

  /** `k` is the one visited bin that the time `u` falls in. */
  ghost predicate OnlyBinOf(tb: GlueTableTimebin, bins: seq<Time>, k: nat, u: Time)
  {
    k < |bins| && forall j | 0 <= j < |bins| :: PartitionValues(tb, bins[j]) == PartitionValues(tb, u) <==> j == k
  }

  /** The walk ends with the bin of the last hour of today, and starts no later. */
  lemma LastHourIsOneBin(call: Call, u: Time)
    requires Validate(call.timebin) && call.Start() <= u < Truncate(call.now, DAY) + DAY
    ensures call.Start() <= call.End()
    ensures call.End() < u ==> SameBin(call.timebin, call.End(), u)
  {
    DayGrid(if call.startDate == 0 then call.createTime else call.startDate, call.now);
    if call.End() < u {
      HourInOneBin(call.timebin, call.End(), u);
    }
  }

  lemma DayGrid(a: Time, b: Time)
    requires Truncate(a, DAY) < Truncate(b, DAY) + DAY
    ensures Truncate(a, DAY) <= Truncate(b, DAY) && (Truncate(b, DAY) + 23 * HOUR) % HOUR == 0
  {
    Grid(a, DAY);
    Grid(b, DAY);
    MulOrder(a / DAY, b / DAY + 1, DAY);
    MulOrder(b / DAY, a / DAY, DAY);
    GridCell(Truncate(b, DAY) + 23 * HOUR, HOUR, 24 * (b / DAY) + 23);
  }

  lemma EveryTimeHasItsBin(call: Call, u: Time) returns (k: nat)
    requires Validate(call.timebin) && call.Start() <= u < Truncate(call.now, DAY) + DAY
    ensures OnlyBinOf(call.timebin, call.Setup().bins, k, u)
  {
    var bins := call.Setup().bins;
    var v := if u <= call.End() then u else call.End();
    LastHourIsOneBin(call, u);
    WalkCovers(call.timebin, call.Start(), call.End(), v);
    k :| 0 <= k < |bins| && SameBin(call.timebin, bins[k], v);
    CallKeysDistinct(call);
    ValuesNameBin(call.timebin, bins[k], v);
    ValuesNameBin(call.timebin, v, u);
    forall j | 0 <= j < |bins|
      ensures PartitionValues(call.timebin, bins[j]) == PartitionValues(call.timebin, u) <==> j == k
    {
      assert j < k ==> call.Setup().key(bins[j]) != call.Setup().key(bins[k]);
      assert k < j ==> call.Setup().key(bins[k]) != call.Setup().key(bins[j]);
    }
  }

  /** From the start of the day asked for, or else of the table's creation, to the end of today. */
  predicate InSpan(call: Call, u: Time)
  {
    Truncate(if call.startDate == 0 then call.createTime else call.startDate, DAY) <= u < Truncate(call.now, DAY) + DAY
  }

  /** And nothing else changes: an entry that is not of a time in the span is as it was, whatever run returns nil. */
  lemma SyncTouchesNothingElse(call: Call, run: seq<Event>, key: Values)
    requires Validate(call.timebin) && forall u | InSpan(call, u) :: PartitionValues(call.timebin, u) != key
    requires Possible(Pool(call.Setup()), Init(call.Setup()), run)
    requires After(Pool(call.Setup()), Init(call.Setup()), run).returned == Some(None)
    ensures
      var catalog := After(Pool(call.Setup()), Init(call.Setup()), run).catalog;
      (key in catalog <==> key in call.initial) && (key in catalog ==> catalog[key] == call.initial[key])
  {
    var c := call.Setup();
    CallKeysDistinct(call);
    NilMeansSynced(c, run);
    forall k | 0 <= k < |c.bins|
      ensures c.key(c.bins[k]) != key
    {
      assert call.Start() <= c.bins[k] <= call.End();
      assert InSpan(call, c.bins[k]);
    }
    assert key in call.initial || key in After(Pool(c), Init(c), run).catalog ==>
      Unchanged(c, After(Pool(c), Init(c), run).catalog, key);
  }

  /** What the catalog holds for the bin of a time: a partition that existed has the table's schema and serde info
      and is otherwise as it was; one that did not exist is there only if its prefix holds data, and then it is like
      the table, at the place of that prefix. It is missing only if its prefix holds nothing, or some empty object. */
  ghost predicate InSync(call: Call, catalog: Catalog, u: Time)
  {
    var key := PartitionValues(call.timebin, u);
    if key in call.initial then key in catalog && IsRefreshed(call.table, call.initial[key], catalog[key])
    else if key in catalog then
      && IsNew(call.table, call.host, call.Prefix(u), catalog[key])
      && exists o | o in call.objects :: o.size > 0 && call.Prefix(u) <= o.key
    else
      || (forall o | o in call.objects :: !(call.Prefix(u) <= o.key))
      || exists o | o in call.objects :: o.size == 0 && call.Prefix(u) <= o.key
  }

  lemma SyncedIsInSync(call: Call, catalog: Catalog, t: Taken, u: Time)
    requires Validate(call.timebin) && Synced(call.Setup(), catalog, t)
    requires PartitionValues(call.timebin, t.bin) == PartitionValues(call.timebin, u)
    ensures InSync(call, catalog, u)
  {
    var key := PartitionValues(call.timebin, u);
    ValuesNameBin(call.timebin, t.bin, u);
    PrefixSeparatesBins(call.dataType, call.logType, call.timebin, t.bin, u);
    assert call.Setup().key(t.bin) == key && call.Setup().prefix(t.bin) == call.Prefix(u);
    if key !in call.initial && key in catalog {
      var i :| 0 <= i < |t.outcome.page| && t.outcome.page[i].size > 0;
      assert t.outcome.page[i] in call.objects;
    }
  }

  /** For every table and every run that returns nil: each time from the start day to the end of today falls in
      exactly one visited bin, and the partition that the time's values name is in sync. */
  lemma SyncCoversEveryTime(call: Call, run: seq<Event>, u: Time)
    requires Validate(call.timebin) && InSpan(call, u)
    requires Possible(Pool(call.Setup()), Init(call.Setup()), run)
    requires After(Pool(call.Setup()), Init(call.Setup()), run).returned == Some(None)
    ensures
      var c := call.Setup();
      var s := After(Pool(c), Init(c), run);
      exists k | 0 <= k < |s.taken| ::
        OnlyBinOf(call.timebin, c.bins, k, u) && s.taken[k].bin == c.bins[k] && Synced(c, s.catalog, s.taken[k])
    ensures InSync(call, After(Pool(call.Setup()), Init(call.Setup()), run).catalog, u)
  {
    CallKeysDistinct(call);
    NilMeansSynced(call.Setup(), run);
    var k := EveryTimeHasItsBin(call, u);
    var s := After(Pool(call.Setup()), Init(call.Setup()), run);
    SyncedIsInSync(call, s.catalog, s.taken[k], u);
  }

  /** A partition is created only for real data: a non-empty object lies under its prefix, and under
      the prefix of no other bin. */
  lemma CreatedForItsOwnData(call: Call, run: seq<Event>, k: nat)
    requires Validate(call.timebin)
    requires Possible(Pool(call.Setup()), Init(call.Setup()), run)
    requires
      var s := After(Pool(call.Setup()), Init(call.Setup()), run);
      k < |s.taken| && s.taken[k].outcome.Created?
    ensures
      var t := After(Pool(call.Setup()), Init(call.Setup()), run).taken[k].bin;
      exists o | o in call.objects :: o.size > 0 && call.Prefix(t) <= o.key
        && forall v | call.Prefix(v) <= o.key :: SameBin(call.timebin, t, v)
  {
    var c := call.Setup();
    CallKeysDistinct(call);
    RunKeepsInv(c, run);
    var s := After(Pool(c), Init(c), run);
    var t := s.taken[k].bin;
    assert EntryMatches(c, s.catalog, s.taken[k]);
    SizedObjectIsOwn(call, t, s.taken[k].outcome.page);
  }

  lemma SizedObjectIsOwn(call: Call, t: Time, page: seq<S3Object>)
    requires Validate(call.timebin) && call.Setup().Lists(t, page) && AnySized(page)
    ensures exists o | o in call.objects :: o.size > 0 && call.Prefix(t) <= o.key
              && forall v | call.Prefix(v) <= o.key :: SameBin(call.timebin, t, v)
  {
    var o := page[0];
    assert o.size > 0 && o in call.objects && call.Prefix(t) <= o.key;
    forall v | call.Prefix(v) <= o.key
      ensures SameBin(call.timebin, t, v)
    {
      ListingSeesOneBin(call.dataType, call.logType, call.timebin, t, v, o.key);
    }
  }
}
