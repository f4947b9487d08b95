/** For every configuration a run after which a live intent is hidden for good: one day bucket gets
    one intent more than the batch size. */
module OutboxHidden {
  import opened Basics
  import opened Text
  import opened Outbox
  import opened OutboxRuns
  import opened OutboxStore
  import opened OutboxRecovery
  import opened OutboxLost

  const BODY := Body(1, "kind", 2, "payload", 5)

  // ---------- one enqueue ----------

  function NewRow(intent: Intent, at: Time): Row { Row(intent.body, Pending, 0, at, "", 0) }

  /** The tables with the row of a new intent. */
  function Stores(t: Tables, intent: Intent, at: Time): Tables {
    t.(byId := t.byId[intent.id := NewRow(intent, at)], log := t.log + [Enqueued(intent.id, intent.body, at)])
  }

  /** Stored and indexed, and the enqueuer at rest. */
  function AfterEnqueue(s: State, intent: Intent): State {
    var t := Stores(s.tables, intent, s.clock);
    s.(tables := t.(index := InsertIndex(t.index, intent, s.clock)), enqueuers := map[0 := Quiet],
       finished := s.finished + {intent.id})
  }

  lemma Puts(cfg: Config, s: State, intent: Intent)
    requires intent.id !in s.tables.byId && s.enqueuers == map[0 := Put(intent)]
    ensures Next(s, cfg, Enqueuer(0, NoFault)) ==
              s.(tables := Stores(s.tables, intent, s.clock), enqueuers := map[0 := Link(intent, s.clock)])
  {}

  lemma Links(cfg: Config, s: State, intent: Intent)
    requires s.enqueuers == map[0 := Link(intent, s.clock)]
    ensures Next(s, cfg, Enqueuer(0, NoFault)) ==
              s.(tables := s.tables.(index := InsertIndex(s.tables.index, intent, s.clock)),
                 enqueuers := map[0 := Quiet], finished := s.finished + {intent.id})
  {}

  lemma EnqueueSteps(cfg: Config, s: State, intent: Intent)
    requires Acceptable(intent) && intent.id !in s.tables.byId
             && (s.enqueuers == map[] || s.enqueuers == map[0 := Quiet])
    ensures Next(Next(Next(s, cfg, Submit(0, intent)), cfg, Enqueuer(0, NoFault)), cfg, Enqueuer(0, NoFault)) ==
              AfterEnqueue(s, intent)
  {
    var s1 := s.(enqueuers := map[0 := Put(intent)]);
    assert Next(s, cfg, Submit(0, intent)) == s1;
    Puts(cfg, s1, intent);
    Links(cfg, s1.(tables := Stores(s.tables, intent, s.clock), enqueuers := map[0 := Link(intent, s.clock)]), intent);
  }

  lemma EnqueueRun(cfg: Config, steps: seq<Step>, intent: Intent) returns (more: seq<Step>)
    requires var s := Exec(Init(), cfg, steps);
             && Acceptable(intent) && intent.id !in s.tables.byId
             && (s.enqueuers == map[] || s.enqueuers == map[0 := Quiet])
    ensures Exec(Init(), cfg, more) == AfterEnqueue(Exec(Init(), cfg, steps), intent)
  {
    var a := steps + [Submit(0, intent)];
    var b := a + [Enqueuer(0, NoFault)];
    EnqueueSteps(cfg, Exec(Init(), cfg, steps), intent);
    ThenStep(Init(), cfg, steps, Submit(0, intent));
    ThenStep(Init(), cfg, a, Enqueuer(0, NoFault));
    ThenStep(Init(), cfg, b, Enqueuer(0, NoFault));
    more := b + [Enqueuer(0, NoFault)];
  }

  // ---------- a burst of enqueues at one tick ----------

  /** Ids in increasing order: "x", "xx", "xxx", ... */
  function Name(i: nat): Id { seq(i + 1, _ => 'x') }

  lemma {:induction false} PrefixIsLess(a: string, b: string)
    requires b != []
    ensures Less(a, a + b)
  {
    if a != [] {
      PrefixIsLess(a[1..], b);
      assert (a + b)[1..] == a[1..] + b;
    }
  }

  lemma NamesIncrease(i: nat, j: nat)
    requires i < j
    ensures Less(Name(i), Name(j))
  {
    assert Name(j) == Name(i) + Name(j - i - 1);
    PrefixIsLess(Name(i), Name(j - i - 1));
  }

  function Burst(i: nat): Intent { Intent(Name(i), BODY) }

  /** The index rows of the first n intents of the burst. */
  function Rows(n: nat): seq<Entry> { seq(n, (i: nat) => Entry(1, Name(i), BODY)) }

  lemma {:induction false} UpsertAppends(part: seq<Entry>, e: Entry)
    requires forall k :: 0 <= k < |part| ==> Before(part[k], e)
    ensures Upsert(part, e) == part + [e]
  {
    if part != [] {
      UpsertAppends(part[1..], e);
      assert part == [part[0]] + part[1..];
    }
  }

  lemma RowsGrow(n: nat)
    ensures Upsert(Rows(n), Entry(1, Name(n), BODY)) == Rows(n + 1)
  {
    forall k: nat | k < n ensures Before(Rows(n)[k], Entry(1, Name(n), BODY)) { NamesIncrease(k, n); }
    UpsertAppends(Rows(n), Entry(1, Name(n), BODY));
    assert Rows(n + 1) == Rows(n) + [Entry(1, Name(n), BODY)];
  }

  /** The first n intents are stored and indexed at tick 1, and nothing else happened. */
  ghost predicate Enqueues(s: State, n: nat) {
    && s.clock == 1 && s.workers == map[] && (s.enqueuers == map[] || s.enqueuers == map[0 := Quiet])
    && (forall id :: id in s.tables.byId ==> s.tables.byId[id].status == Pending && |id| <= n)
    && (forall i: nat :: i < n ==> Name(i) in s.tables.byId && Name(i) in s.finished)
    && Partition(s.tables.index, 0) == Rows(n) && (forall day :: day in s.tables.index ==> day == 0)
  }

  lemma InsertGrowsRows(index: Index, n: nat)
    requires Partition(index, 0) == Rows(n) && forall day :: day in index ==> day == 0
    ensures var more := InsertIndex(index, Burst(n), 1);
            Partition(more, 0) == Rows(n + 1) && forall day :: day in more ==> day == 0
  {
    RowsGrow(n);
    assert Bucket(1) == 0;
  }

  lemma EnqueueGrows(s: State, n: nat)
    requires Enqueues(s, n)
    ensures Enqueues(AfterEnqueue(s, Burst(n)), n + 1)
  {
    var u := AfterEnqueue(s, Burst(n));
    assert |Name(n)| == n + 1;
    InsertGrowsRows(s.tables.index, n);
    forall i: nat | i < n + 1 ensures Name(i) in u.tables.byId && Name(i) in u.finished {
      assert i < n || i == n;
    }
  }

  lemma OneTick(cfg: Config) returns (steps: seq<Step>)
    ensures Enqueues(Exec(Init(), cfg, steps), 0)
  {
    steps := [Tick(1)];
    ThenStep(Init(), cfg, [], Tick(1));
    assert [] + [Tick(1)] == steps;
  }

  lemma OneMore(cfg: Config, before: seq<Step>, n: nat) returns (steps: seq<Step>)
    requires Enqueues(Exec(Init(), cfg, before), n)
    ensures Enqueues(Exec(Init(), cfg, steps), n + 1)
  {
    assert |Name(n)| == n + 1;
    EnqueueGrows(Exec(Init(), cfg, before), n);
    steps := EnqueueRun(cfg, before, Burst(n));
  }

  lemma {:induction false} BurstRun(cfg: Config, n: nat) returns (steps: seq<Step>)
    ensures Enqueues(Exec(Init(), cfg, steps), n)
  {
    if n == 0 {
      steps := OneTick(cfg);
    } else {
      var before := BurstRun(cfg, n - 1);
      steps := OneMore(cfg, before, n - 1);
    }
  }

  /** The only row of the last intent stands behind batchSize others. */
  lemma LastIsBuried(cfg: Config, s: State, n: nat)
    requires n == cfg.batchSize && Enqueues(s, n + 1) && IndexRight(s.tables.index)
    ensures forall dueAt :: Indexed(s.tables.index, dueAt, Name(n)) ==> Buried(s.tables, cfg.batchSize, dueAt, Name(n))
  {
    var part := Partition(s.tables.index, 0);
    forall dueAt | Indexed(s.tables.index, dueAt, Name(n)) ensures Buried(s.tables, cfg.batchSize, dueAt, Name(n)) {
      assert Bucket(dueAt) == 0 && dueAt == 1;
      PositionIsAhead(part, n);
    }
  }

  /** For every configuration: batchSize + 1 intents are enqueued at one tick, nothing is claimed or
      delivered yet, and the last of them is claimed in no continuation whatever. */
  lemma BurstLosesTheLast(cfg: Config) returns (steps: seq<Step>)
    requires cfg.Valid()
    ensures var s := Exec(Init(), cfg, steps);
            && Enqueues(s, cfg.batchSize + 1) && Waiting(s, Name(cfg.batchSize))
    ensures forall more ::
              var t, u := Exec(Init(), cfg, steps).tables, Exec(Init(), cfg, steps + more).tables;
              && Name(cfg.batchSize) in u.byId && u.byId[Name(cfg.batchSize)] == t.byId[Name(cfg.batchSize)]
              && !ClaimedSince(t.log, u.log, Name(cfg.batchSize))
  {
    var n: nat := cfg.batchSize;
    steps := BurstRun(cfg, n + 1);
    RunsKeepIndex(Init(), cfg, steps);
    LastIsBuried(cfg, Exec(Init(), cfg, steps), n);
    forall more
      ensures var t, u := Exec(Init(), cfg, steps).tables, Exec(Init(), cfg, steps + more).tables;
              && Name(n) in u.byId && u.byId[Name(n)] == t.byId[Name(n)] && !ClaimedSince(t.log, u.log, Name(n))
    {
      LimitHidesLiveOnes(cfg, steps, more, Name(n));
    }
  }
}
