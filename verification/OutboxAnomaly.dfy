/** Scans longer than their lease: for every configuration a run in which one batch holds an intent
    twice. So batches are distinct exactly when scans finish within their lease. */
module OutboxAnomaly {
  import opened Basics
  import opened Outbox
  import opened OutboxRuns
  import opened OutboxTheorems
  import opened OutboxStore
  import opened OutboxRecovery
  import opened OutboxScans

  const BODY := Body(1, "kind", 2, "payload", 5)
  const NOTE := Intent("n", BODY)

  // ---------- runs whose scans last at most d ----------

  ghost predicate Leads(cfg: Config, d: int, s: State, u: State) {
    exists steps :: OnTime(s, cfg, d, steps) && Exec(s, cfg, steps) == u
  }

  lemma {:induction false} OnTimeConcat(s: State, cfg: Config, d: int, a: seq<Step>, b: seq<Step>)
    requires OnTime(s, cfg, d, a) && OnTime(Exec(s, cfg, a), cfg, d, b)
    ensures OnTime(s, cfg, d, a + b)
    decreases |b|
  {
    if b == [] {
      assert a + b == a;
    } else {
      assert (a + b)[..|a + b| - 1] == a + b[..|b| - 1];
      OnTimeConcat(s, cfg, d, a, b[..|b| - 1]);
      ExecConcat(s, cfg, a, b[..|b| - 1]);
    }
  }

  lemma Join(cfg: Config, d: int, s: State, u: State, v: State)
    requires Leads(cfg, d, s, u) && Leads(cfg, d, u, v)
    ensures Leads(cfg, d, s, v)
  {
    var a :| OnTime(s, cfg, d, a) && Exec(s, cfg, a) == u;
    var b :| OnTime(u, cfg, d, b) && Exec(u, cfg, b) == v;
    OnTimeConcat(s, cfg, d, a, b);
    ExecConcat(s, cfg, a, b);
    assert OnTime(s, cfg, d, a + b);
  }

  lemma OneStep(cfg: Config, d: int, s: State, step: Step)
    requires InTime(s, d, step)
    ensures Leads(cfg, d, s, Next(s, cfg, step))
  {
    var steps := [step];
    assert steps[..0] == [];
    assert OnTime(s, cfg, d, steps[..0]) && Exec(s, cfg, steps[..0]) == s;
    assert OnTime(s, cfg, d, steps) && Exec(s, cfg, steps) == Next(s, cfg, step);
  }

  lemma Stay(cfg: Config, d: int, s: State)
    ensures Leads(cfg, d, s, s)
  {
    assert OnTime(s, cfg, d, []) && Exec(s, cfg, []) == s;
  }

  /** One more statement of a worker, seen from its own tables and place. */
  lemma Go(cfg: Config, d: int, s: State, w: string, pc: WorkerPc, fault: Fault)
    requires w != "" && PcOf(s, w) == pc && (Scanning(pc) ==> s.clock <= pc.now + d)
    ensures Leads(cfg, d, s, s.(tables := Act(s.tables, WorkerAction(s.clock, cfg, w, pc, fault)),
                                workers := s.workers[w := WorkerNext(s.tables, s.clock, cfg, pc, fault)]))
  {
    OneStep(cfg, d, s, Worker(w, fault));
  }

  lemma Wait(cfg: Config, d: int, s: State, to: Time)
    requires to >= s.clock
    ensures Leads(cfg, d, s, s.(clock := to))
  {
    if to == s.clock { Stay(cfg, d, s); } else { OneStep(cfg, d, s, Tick(to)); }
  }

  ghost predicate Timely(s: State, d: int, w: string) {
    Scanning(PcOf(s, w)) ==> s.clock <= PcOf(s, w).now + d
  }

  lemma TimelyStep(s: State, cfg: Config, d: int, w: string)
    requires d >= 0 && w != "" && Timely(s, d, w)
    ensures InTime(s, d, Worker(w, NoFault))
    ensures Timely(Next(s, cfg, Worker(w, NoFault)), d, w) && Next(s, cfg, Worker(w, NoFault)).clock == s.clock
  {}

  lemma {:induction false} LoneScanIsOnTime(s: State, cfg: Config, d: int, w: string, steps: seq<Step>)
    requires d >= 0 && w != "" && OnlyBy(steps, w) && Timely(s, d, w)
    ensures OnTime(s, cfg, d, steps) && Timely(Exec(s, cfg, steps), d, w) && Exec(s, cfg, steps).clock == s.clock
    decreases |steps|
  {
    if steps != [] {
      var before := steps[..|steps| - 1];
      LoneScanIsOnTime(s, cfg, d, w, before);
      assert steps[|steps| - 1] == Worker(w, NoFault);
      TimelyStep(Exec(s, cfg, before), cfg, d, w);
    }
  }

  // ---------- one intent, alone in the store ----------

  ghost predicate OnlyNote(index: Index) {
    forall day, k :: day in index && 0 <= k < |index[day]| ==> index[day][k].id == "n"
  }

  ghost predicate Sole(t: Tables, row: Row) {
    t.byId == map["n" := row] && row.body == BODY && row.status == Pending && OnlyNote(t.index) && IndexRight(t.index)
  }

  lemma InsertKeepsSole(t: Tables, row: Row, dueAt: Time)
    requires Sole(t, row)
    ensures Sole(t.(index := InsertIndex(t.index, NOTE, dueAt)), row)
    ensures forall x :: Indexed(t.index, x, "n") ==> Indexed(InsertIndex(t.index, NOTE, dueAt), x, "n")
    ensures Indexed(InsertIndex(t.index, NOTE, dueAt), dueAt, "n")
  {
    UpsertClustered(Partition(t.index, Bucket(dueAt)), Entry(dueAt, "n", BODY));
    InsertKeepsIndex(t.index, NOTE, dueAt);
    forall x ensures Indexed(InsertIndex(t.index, NOTE, dueAt), x, "n") <==> Indexed(t.index, x, "n") || x == dueAt {
      InsertIndexes(t.index, NOTE, dueAt, x, "n");
    }
  }

  /** The rows a scan at its own due time reads first. */
  lemma TodaysRows(t: Tables, row: Row, early: Time, now: Time, n: nat)
    requires Sole(t, row) && Indexed(t.index, now, "n") && n >= 1
    ensures var rows := Select(t.index, Bucket(now), now, n);
            rows != [] && forall k :: 0 <= k < |rows| ==> rows[k].id == "n"
    ensures n >= 2 && early < now && Bucket(early) == Bucket(now) && Indexed(t.index, early, "n")
            ==> |Select(t.index, Bucket(now), now, n)| >= 2
  {
    var part := Partition(t.index, Bucket(now));
    var due := DueEntries(part, now);
    var k :| 0 <= k < |part| && part[k].dueAt == now && part[k].id == "n";
    DueEntriesListed(part, now, part[k]);
    forall j | 0 <= j < |due| ensures due[j].id == "n" { DueEntriesListed(part, now, due[j]); }
    if early < now && Bucket(early) == Bucket(now) && Indexed(t.index, early, "n") {
      var j :| 0 <= j < |part| && part[j].dueAt == early && part[j].id == "n";
      DueEntriesListed(part, now, part[j]);
      var a :| 0 <= a < |due| && due[a] == part[j];
      var b :| 0 <= b < |due| && due[b] == part[k];
      assert a != b;
    }
  }

  function FirstRows(t: Tables, cfg: Config, now: Time): seq<Entry>
    requires cfg.Valid()
  {
    Select(t.index, Bucket(now), now, cfg.batchSize)
  }

  function With(s: State, w: string, pc: WorkerPc): State { s.(workers := s.workers[w := pc]) }

  lemma GoIdle(cfg: Config, d: int, s: State, w: string)
    requires w != "" && w !in s.workers
    ensures Leads(cfg, d, s, With(s, w, Query(s.clock, 0, [])))
  {
    Go(cfg, d, s, w, Idle, NoFault);
  }

  lemma GoQuery(cfg: Config, d: int, s: State, w: string, now: Time)
    requires cfg.Valid() && d >= 0 && w != "" && w in s.workers && s.workers[w] == Query(now, 0, []) && s.clock == now
    ensures Leads(cfg, d, s, With(s, w, Scan(now, 0, FirstRows(s.tables, cfg, now), [])))
  {
    Go(cfg, d, s, w, s.workers[w], NoFault);
  }

  lemma GoScan(cfg: Config, d: int, s: State, row: Row, w: string, now: Time, rows: seq<Entry>, got: seq<Held>)
    requires w != "" && w in s.workers && s.workers[w] == Scan(now, 0, rows, got) && s.clock <= now + d
    requires Sole(s.tables, row) && rows != [] && rows[0].id == "n" && row.nextAttempt <= now
    ensures Leads(cfg, d, s, With(s, w, Claim(now, 0, rows[1..], got, NOTE)))
  {
    Go(cfg, d, s, w, s.workers[w], NoFault);
  }

  lemma GoClaim(cfg: Config, d: int, s: State, row: Row, w: string, now: Time, rows: seq<Entry>, got: seq<Held>)
    returns (u: State, h: Held)
    requires w != "" && w in s.workers && s.workers[w] == Claim(now, 0, rows, got, NOTE) && s.clock <= now + d
    requires Sole(s.tables, row) && Unleased(row, now)
    ensures h.intent == NOTE && Leads(cfg, d, s, u) && Sole(u.tables, LeasedTo(row, w, now + cfg.lease))
            && u.tables.index == s.tables.index
    ensures u == With(s, w, Scan(now, 0, rows, got + [h])).(tables := u.tables)
  {
    h := Held(NOTE, |s.tables.log|);
    u := With(s, w, Scan(now, 0, rows, got + [h])).(
        tables := Act(s.tables, Update(Claimed("n", w, now, now + cfg.lease), NoFault)));
    ClaimTakes(cfg, s.tables, row, w, now);
    ClaimStep(cfg, s, row, w, now, rows, got);
    OneStep(cfg, d, s, Worker(w, NoFault));
  }

  lemma ClaimTakes(cfg: Config, t: Tables, row: Row, w: string, now: Time)
    requires Sole(t, row) && Unleased(row, now)
    ensures var u := Act(t, Update(Claimed("n", w, now, now + cfg.lease), NoFault));
            Sole(u, LeasedTo(row, w, now + cfg.lease)) && u.index == t.index
  {
    var u := Act(t, Update(Claimed("n", w, now, now + cfg.lease), NoFault));
    assert u.byId == map["n" := LeasedTo(row, w, now + cfg.lease)];
  }

  lemma ClaimStep(cfg: Config, s: State, row: Row, w: string, now: Time, rows: seq<Entry>, got: seq<Held>)
    requires w != "" && w in s.workers && s.workers[w] == Claim(now, 0, rows, got, NOTE) && Sole(s.tables, row)
             && Unleased(row, now)
    ensures Next(s, cfg, Worker(w, NoFault)) ==
              With(s, w, Scan(now, 0, rows, got + [Held(NOTE, |s.tables.log|)])).(
                tables := Act(s.tables, Update(Claimed("n", w, now, now + cfg.lease), NoFault)))
  {}

  /** An idle worker starts a scan and reads the intent as due; next is its claim. */
  lemma Opens(cfg: Config, d: int, s: State, row: Row, w: string)
    requires cfg.Valid() && d >= 0 && w != "" && w !in s.workers && Sole(s.tables, row)
    requires Indexed(s.tables.index, s.clock, "n") && row.nextAttempt <= s.clock
    ensures var rows := FirstRows(s.tables, cfg, s.clock);
            && rows != [] && (forall k :: 0 <= k < |rows| ==> rows[k].id == "n")
            && Leads(cfg, d, s, With(s, w, Claim(s.clock, 0, rows[1..], [], NOTE)))
  {
    var now, rows := s.clock, FirstRows(s.tables, cfg, s.clock);
    var q, r, c := Query(now, 0, []), Scan(now, 0, rows, []), Claim(now, 0, rows[1..], [], NOTE);
    TodaysRows(s.tables, row, now, now, cfg.batchSize);
    GoIdle(cfg, d, s, w);
    GoQuery(cfg, d, With(s, w, q), w, now);
    Overwrites(s.workers, w, q, r);
    GoScan(cfg, d, With(s, w, r), row, w, now, rows, []);
    Overwrites(s.workers, w, r, c);
    Join(cfg, d, s, With(s, w, q), With(s, w, r));
    Join(cfg, d, s, With(s, w, r), With(s, w, c));
  }

  function LeasedTo(row: Row, w: string, until: Time): Row { row.(leaseOwner := w, leaseUntil := until) }

  ghost predicate SameStore(t: Tables, u: Tables) { u.byId == t.byId && u.index == t.index }

  /** A scan that holds the intent claims nothing more. */
  lemma NothingMore(cfg: Config, t: Tables, row: Row, now: Time, rows: seq<Entry>, got: seq<Held>, w: string,
      r: (Tables, seq<Held>))
    requires Sole(t, row) && !Unleased(row, now) && AddsExactly(t, rows, got, w, now, cfg.lease, r)
    ensures SameStore(t, r.0) && r.1 == got
  {
    var more := r.1[|got|..];
    if more != [] { assert Took(more, more[0].intent.id); }
    forall id | id in t.byId ensures r.0.byId[id] == t.byId[id] { assert !Took(more, id); }
  }

  lemma FinishesScan(cfg: Config, d: int, s: State, row: Row, w: string, pc: WorkerPc) returns (u: State)
    requires cfg.Valid() && d >= 0 && w != "" && w in s.workers && s.workers[w] == pc && pc.Scan?
             && |pc.got| <= cfg.batchSize
    requires Sole(s.tables, row) && !Unleased(row, pc.now) && s.clock <= pc.now + d
    ensures Leads(cfg, d, s, u) && SameStore(s.tables, u.tables) && u == With(s, w, Work(pc.got)).(tables := u.tables)
  {
    var t := s.tables;
    var r := ClaimRows(t, pc.rows, pc.got, w, pc.now, cfg.lease);
    ClaimRowsExact(t, pc.rows, pc.got, w, pc.now, cfg.lease);
    NothingMore(cfg, t, row, pc.now, pc.rows, pc.got, w, r);
    var q := Query(pc.now, pc.day + 1, pc.got);
    var k := ClaimRowsSolo(t, s.clock, cfg, w, pc);
    SoloSplits(t, s.clock, cfg, w, pc, k, 1);
    u := FinishesDays(cfg, d, s, row, w, pc, r.0, k + 1);
  }

  lemma FinishesDays(cfg: Config, d: int, s: State, row: Row, w: string, pc: WorkerPc, t: Tables, k: nat)
    returns (u: State)
    requires cfg.Valid() && d >= 0 && w != "" && w in s.workers && s.workers[w] == pc && pc.Scan?
             && |pc.got| <= cfg.batchSize
    requires Sole(t, row) && !Unleased(row, pc.now) && s.clock <= pc.now + d && SameStore(s.tables, t)
    requires Solo(s.tables, s.clock, cfg, w, pc, k) == (t, Query(pc.now, pc.day + 1, pc.got))
    ensures Leads(cfg, d, s, u) && SameStore(s.tables, u.tables) && u == With(s, w, Work(pc.got)).(tables := u.tables)
  {
    var q := Query(pc.now, pc.day + 1, pc.got);
    var r := ClaimDays(t, pc.got, w, cfg.batchSize, cfg.lease, pc.now, Bucket(pc.now) - q.day);
    DaysAddNothing(cfg, t, row, w, pc.now, pc.got, Bucket(pc.now) - q.day);
    var n := ClaimDueSolo(t, s.clock, cfg, w, q);
    SoloSplits(s.tables, s.clock, cfg, w, pc, k, n);
    assert Solo(s.tables, s.clock, cfg, w, pc, k + n) == (r.0, Work(pc.got));
    u := RunsSolo(cfg, d, s, w, k + n, r.0, Work(pc.got));
  }

  lemma DaysAddNothing(cfg: Config, t: Tables, row: Row, w: string, now: Time, got: seq<Held>, bucket: int)
    requires cfg.Valid() && Sole(t, row) && !Unleased(row, now) && |got| <= cfg.batchSize
    ensures var r := ClaimDays(t, got, w, cfg.batchSize, cfg.lease, now, bucket); SameStore(t, r.0) && r.1 == got
  {
    ClaimDaysExact(t, got, w, cfg.batchSize, cfg.lease, now, bucket);
    NothingMore(cfg, t, row, now, Scanned(t, got, w, cfg.batchSize, cfg.lease, now, bucket), got, w,
                ClaimDays(t, got, w, cfg.batchSize, cfg.lease, now, bucket));
  }

  lemma RunsSolo(cfg: Config, d: int, s: State, w: string, n: nat, t: Tables, pc: WorkerPc) returns (u: State)
    requires d >= 0 && w != "" && w in s.workers && Timely(s, d, w)
             && Solo(s.tables, s.clock, cfg, w, s.workers[w], n) == (t, pc)
    ensures Leads(cfg, d, s, u) && u == With(s, w, pc).(tables := t)
  {
    var steps := SoloIsARun(s, cfg, w, n);
    LoneScanIsOnTime(s, cfg, d, w, steps);
    u := Exec(s, cfg, steps);
  }

  /** The claim applies, the scan ends, the delivery and the status read fail: next is the retry. */
  lemma ClaimsAndFails(cfg: Config, d: int, s: State, row: Row, w: string, rows: seq<Entry>, now: Time)
    returns (u: State, h: Held)
    requires cfg.Valid() && d >= 0 && w != "" && w in s.workers && s.workers[w] == Claim(now, 0, rows, [], NOTE)
    requires Sole(s.tables, row) && Unleased(row, now) && s.clock <= now + d
    ensures h.intent == NOTE && Leads(cfg, d, s, u)
    ensures Sole(u.tables, LeasedTo(row, w, now + cfg.lease)) && u.tables.index == s.tables.index
    ensures u == With(s, w, Reschedule([h], 1, false)).(tables := u.tables)
  {
    var leased := LeasedTo(row, w, now + cfg.lease);
    var s1;
    s1, h := GoClaim(cfg, d, s, row, w, now, rows, []);
    assert [] + [h] == [h];
    var pc := Scan(now, 0, rows, [h]);
    var s2 := FinishesScan(cfg, d, s1, leased, w, pc);
    Join(cfg, d, s, s1, s2);
    Overwrites(s.workers, w, pc, Work([h]));
    u := FailsDelivery(cfg, d, s2, w, h);
    Join(cfg, d, s, s2, u);
    Overwrites(s.workers, w, Work([h]), Reschedule([h], 1, false));
  }

  lemma FailsDelivery(cfg: Config, d: int, s: State, w: string, h: Held) returns (u: State)
    requires w != "" && w in s.workers && s.workers[w] == Work([h])
    ensures Leads(cfg, d, s, u) && u == With(s, w, Reschedule([h], 1, false))
  {
    var s1 := With(s, w, Failed([h]));
    Go(cfg, d, s, w, Work([h]), NoEffect);
    Go(cfg, d, s1, w, Failed([h]), NoEffect);
    u := With(s, w, Reschedule([h], 1, false));
    Overwrites(s.workers, w, Failed([h]), Reschedule([h], 1, false));
    Join(cfg, d, s, s1, u);
  }

  function FirstDelay(cfg: Config): int { Delay(cfg.baseDelay, cfg.maxDelay, 1) }

  lemma InsertStatement(cfg: Config, t: Tables, clock: Time, w: string, h: Held, dueAt: Time)
    requires cfg.Valid() && cfg.maxAttempts >= 2 && h.intent == NOTE && dueAt == clock + FirstDelay(cfg)
    ensures var pc := Reschedule([h], 1, false);
            && Act(t, WorkerAction(clock, cfg, w, pc, NoFault)) == t.(index := InsertIndex(t.index, NOTE, dueAt))
            && WorkerNext(t, clock, cfg, pc, NoFault) == Requeue([h], 1, false, clock, dueAt)
  {}

  /** A failed worker inserts the new index row, whoever holds the intent by then. */
  lemma InsertsRow(cfg: Config, d: int, s: State, row: Row, w: string, h: Held, dueAt: Time)
    requires cfg.Valid() && cfg.maxAttempts >= 2 && w != "" && w in s.workers
             && s.workers[w] == Reschedule([h], 1, false) && h.intent == NOTE
    requires Sole(s.tables, row) && dueAt == s.clock + FirstDelay(cfg)
    ensures var u := With(s, w, Requeue([h], 1, false, s.clock, dueAt)).(
                tables := s.tables.(index := InsertIndex(s.tables.index, NOTE, dueAt)));
            && Leads(cfg, d, s, u) && Sole(u.tables, row) && Indexed(u.tables.index, dueAt, "n")
            && (forall x :: Indexed(s.tables.index, x, "n") ==> Indexed(u.tables.index, x, "n"))
  {
    InsertStatement(cfg, s.tables, s.clock, w, h, dueAt);
    Go(cfg, d, s, w, s.workers[w], NoFault);
    InsertKeepsSole(s.tables, row, dueAt);
  }

  function Released(row: Row, dueAt: Time): Row {
    row.(attempts := 1, nextAttempt := dueAt, leaseOwner := "", leaseUntil := 0)
  }

  /** The whole failure: claim, fail, insert the new row and release the intent. */
  lemma FailsOnce(cfg: Config, d: int, s: State, row: Row, w: string, rows: seq<Entry>, now: Time, dueAt: Time)
    returns (u: State)
    requires cfg.Valid() && cfg.maxAttempts >= 2 && d >= 0 && w != "" && w in s.workers
             && s.workers[w] == Claim(now, 0, rows, [], NOTE)
    requires Sole(s.tables, row) && Unleased(row, now) && s.clock <= now + d && dueAt == s.clock + FirstDelay(cfg)
    ensures Leads(cfg, d, s, u) && Sole(u.tables, Released(row, dueAt)) && Indexed(u.tables.index, dueAt, "n")
    ensures forall x :: Indexed(s.tables.index, x, "n") ==> Indexed(u.tables.index, x, "n")
    ensures u == With(s, w, Work([])).(tables := u.tables)
  {
    var leased := LeasedTo(row, w, now + cfg.lease);
    var s1, h := ClaimsAndFails(cfg, d, s, row, w, rows, now);
    u := RetriesOnce(cfg, d, s1, leased, w, h, dueAt);
    assert Released(leased, dueAt) == Released(row, dueAt);
    Join(cfg, d, s, s1, u);
    Overwrites(s.workers, w, Reschedule([h], 1, false), Work([]));
  }

  /** Insert the new row and release the intent. */
  lemma RetriesOnce(cfg: Config, d: int, s: State, row: Row, w: string, h: Held, dueAt: Time) returns (u: State)
    requires cfg.Valid() && cfg.maxAttempts >= 2 && w != "" && w in s.workers
             && s.workers[w] == Reschedule([h], 1, false) && h.intent == NOTE
    requires Sole(s.tables, row) && row.leaseOwner == w && dueAt == s.clock + FirstDelay(cfg)
    ensures Leads(cfg, d, s, u) && Sole(u.tables, Released(row, dueAt)) && Indexed(u.tables.index, dueAt, "n")
    ensures forall x :: Indexed(s.tables.index, x, "n") ==> Indexed(u.tables.index, x, "n")
    ensures u == With(s, w, Work([])).(tables := u.tables)
  {
    InsertsRow(cfg, d, s, row, w, h, dueAt);
    var pc := Requeue([h], 1, false, s.clock, dueAt);
    var s1 := With(s, w, pc).(tables := s.tables.(index := InsertIndex(s.tables.index, NOTE, dueAt)));
    u := ReleasesRow(cfg, d, s1, row, w, pc, h);
    Join(cfg, d, s, s1, u);
    Overwrites(s.workers, w, pc, Work([]));
  }

  lemma ReleasesRow(cfg: Config, d: int, s: State, row: Row, w: string, pc: WorkerPc, h: Held) returns (u: State)
    requires w != "" && w in s.workers && s.workers[w] == pc && pc.Requeue? && pc.batch == [h] && h.intent == NOTE
             && pc.attempts == 1
    requires Sole(s.tables, row) && row.leaseOwner == w
    ensures Leads(cfg, d, s, u) && Sole(u.tables, Released(row, pc.dueAt)) && u.tables.index == s.tables.index
    ensures u == With(s, w, Work([])).(tables := u.tables)
  {
    Go(cfg, d, s, w, pc, NoFault);
    var e := Retried("n", w, 1, pc.at, pc.dueAt, pc.known);
    assert [h][1..] == [];
    u := With(s, w, Work([])).(tables := Act(s.tables, Update(e, NoFault)));
    assert u.tables.byId == map["n" := Released(row, pc.dueAt)];
  }

  // ---------- the run ----------

  function NewRow(at: Time): Row { Row(BODY, Pending, 0, at, "", 0) }

  lemma PutsRow(cfg: Config, d: int, s: State)
    requires s.tables == Init().tables && s.workers == map[] && s.enqueuers == map[0 := Put(NOTE)]
    ensures var t := Tables(map["n" := NewRow(s.clock)], map[], map[], [Enqueued("n", BODY, s.clock)]);
            Leads(cfg, d, s, s.(tables := t, enqueuers := map[0 := Link(NOTE, s.clock)]))
  {
    var t := Tables(map["n" := NewRow(s.clock)], map[], map[], [Enqueued("n", BODY, s.clock)]);
    OneStep(cfg, d, s, Enqueuer(0, NoFault));
    assert Act(s.tables, Update(Enqueued("n", BODY, s.clock), NoFault)) == t;
    assert s.enqueuers[0 := Link(NOTE, s.clock)] == map[0 := Link(NOTE, s.clock)];
  }

  lemma LinksRow(cfg: Config, d: int, s: State) returns (u: State)
    requires s.workers == map[] && s.enqueuers == map[0 := Link(NOTE, s.clock)] && Sole(s.tables, NewRow(s.clock))
    ensures Leads(cfg, d, s, u) && u.clock == s.clock && u.workers == map[]
    ensures Sole(u.tables, NewRow(s.clock)) && Indexed(u.tables.index, s.clock, "n")
  {
    OneStep(cfg, d, s, Enqueuer(0, NoFault));
    InsertKeepsSole(s.tables, NewRow(s.clock), s.clock);
    u := Next(s, cfg, Enqueuer(0, NoFault));
  }

  /** The intent is enqueued. */
  lemma Enqueueing(cfg: Config, d: int, at: Time) returns (u: State)
    requires at > 0
    ensures Leads(cfg, d, Init(), u) && u.clock == at && u.workers == map[] && Sole(u.tables, NewRow(at))
            && Indexed(u.tables.index, at, "n")
  {
    var s1 := Init().(clock := at);
    var s2 := s1.(enqueuers := map[0 := Put(NOTE)]);
    var t := Tables(map["n" := NewRow(at)], map[], map[], [Enqueued("n", BODY, at)]);
    var s3 := s2.(tables := t, enqueuers := map[0 := Link(NOTE, at)]);
    Wait(cfg, d, Init(), at);
    OneStep(cfg, d, s1, Submit(0, NOTE));
    PutsRow(cfg, d, s2);
    u := LinksRow(cfg, d, s3);
    Join(cfg, d, Init(), s1, s2);
    Join(cfg, d, Init(), s2, s3);
    Join(cfg, d, Init(), s3, u);
  }

  /** Where a worker stands that has just read the one row of the intent as due. */
  function Reader(s: State, cfg: Config): WorkerPc
    requires cfg.Valid()
  {
    var rows := FirstRows(s.tables, cfg, s.clock);
    Claim(s.clock, 0, if rows == [] then [] else rows[1..], [], NOTE)
  }

  /** Three workers read the row at once. */
  lemma ThreeReaders(cfg: Config, d: int, s: State, row: Row)
    requires cfg.Valid() && d >= 0 && s.workers == map[] && Sole(s.tables, row)
    requires Indexed(s.tables.index, s.clock, "n") && row.nextAttempt <= s.clock
    ensures var pc := Reader(s, cfg);
            Leads(cfg, d, s, With(With(With(s, "p", pc), "q", pc), "r", pc))
  {
    var pc := Reader(s, cfg);
    var s1 := With(s, "p", pc);
    var s2 := With(s1, "q", pc);
    Opens(cfg, d, s, row, "p");
    Opens(cfg, d, s1, row, "q");
    Opens(cfg, d, s2, row, "r");
    Join(cfg, d, s, s1, s2);
    Join(cfg, d, s, s2, With(s2, "r", pc));
  }

  /** Two index rows one tick apart, due `early` and `at`; the intent is held by worker "r", whose lease
      has run out by then and who has still to insert a row of its own. */
  ghost predicate TwoRows(s: State, at: Time, early: Time, row: Row, h: Held) {
    && Sole(s.tables, row) && row.nextAttempt == at && row.leaseUntil < at
    && Indexed(s.tables.index, at, "n") && Indexed(s.tables.index, early, "n")
    && "r" in s.workers && s.workers["r"] == Reschedule([h], 1, false) && h.intent == NOTE
    && "a" !in s.workers && "b" !in s.workers
  }

  /** Some time later one reader goes through its whole failure. */
  lemma WaitsAndFails(cfg: Config, d: int, s: State, row: Row, w: string, rows: seq<Entry>, now: Time, to: Time,
      dueAt: Time) returns (u: State)
    requires dueAt == to + FirstDelay(cfg)
    requires cfg.Valid() && cfg.maxAttempts >= 2 && d >= 0 && w != "" && w in s.workers
             && s.workers[w] == Claim(now, 0, rows, [], NOTE)
    requires Sole(s.tables, row) && Unleased(row, now) && s.clock <= to <= now + d
    ensures Leads(cfg, d, s, u) && Sole(u.tables, Released(row, dueAt)) && Indexed(u.tables.index, dueAt, "n")
    ensures forall x :: Indexed(s.tables.index, x, "n") ==> Indexed(u.tables.index, x, "n")
    ensures u == With(s, w, Work([])).(tables := u.tables, clock := to)
  {
    Wait(cfg, d, s, to);
    u := FailsOnce(cfg, d, s.(clock := to), row, w, rows, now, dueAt);
    Join(cfg, d, s, s.(clock := to), u);
  }

  /** The second reader fails, and the third claims, before anything else is read. */
  lemma FailsAgain(cfg: Config, d: int, s: State, row: Row, now: Time, rows: seq<Entry>, to: Time, dueAt: Time)
    returns (u: State, h: Held)
    requires dueAt == to + FirstDelay(cfg)
    requires cfg.Valid() && cfg.maxAttempts >= 2 && d >= 0 && now > 0 && s.clock <= to <= now + d
             && Sole(s.tables, row) && Unleased(row, now)
    requires "q" in s.workers && s.workers["q"] == Claim(now, 0, rows, [], NOTE)
    requires "r" in s.workers && s.workers["r"] == Claim(now, 0, rows, [], NOTE)
    ensures Leads(cfg, d, s, u) && u.clock == to && h.intent == NOTE
    ensures Sole(u.tables, LeasedTo(Released(row, dueAt), "r", now + cfg.lease)) && Indexed(u.tables.index, dueAt, "n")
    ensures forall x :: Indexed(s.tables.index, x, "n") ==> Indexed(u.tables.index, x, "n")
    ensures u.workers == s.workers["q" := Work([])]["r" := Reschedule([h], 1, false)]
  {
    var s1 := WaitsAndFails(cfg, d, s, row, "q", rows, now, to, dueAt);
    u, h := ClaimsAndFails(cfg, d, s1, Released(row, dueAt), "r", rows, now);
    Join(cfg, d, s, s1, u);
  }

  /** Two of the readers fail one after the other, each claim from before; the third claims too. */
  lemma FailsTwice(cfg: Config, d: int, s: State, row: Row, now: Time, rows: seq<Entry>, early: Time, at: Time)
    returns (u: State, row': Row, h: Held)
    requires early == at - 1 == now + cfg.lease + FirstDelay(cfg)
    requires cfg.Valid() && cfg.maxAttempts >= 2 && d > cfg.lease && now > 0 && s.clock == now && Sole(s.tables, row)
             && row.leaseUntil == 0
    requires ReadersOnly(s.workers, Claim(now, 0, rows, [], NOTE))
    ensures Leads(cfg, d, s, u) && u.clock == now + cfg.lease + 1
    ensures TwoRows(u, at, early, row', h)
  {
    assert FirstDelay(cfg) > 0 by { DelayGrows(cfg.baseDelay, cfg.maxDelay, 1); }
    var s1 := WaitsAndFails(cfg, d, s, row, "p", rows, now, now + cfg.lease, early);
    AfterFirstFailure(s.workers, Claim(now, 0, rows, [], NOTE));
    u, h := FailsAgain(cfg, d, s1, Released(row, early), now, rows, now + cfg.lease + 1, at);
    row' := LeasedTo(Released(Released(row, early), at), "r", now + cfg.lease);
    Join(cfg, d, s, s1, u);
    AfterFailures(s.workers, h);
  }

  ghost predicate ReadersOnly(m: map<string, WorkerPc>, pc: WorkerPc) {
    && "p" in m && m["p"] == pc && "q" in m && m["q"] == pc && "r" in m && m["r"] == pc
    && "a" !in m && "b" !in m
  }

  lemma AfterFailures(m: map<string, WorkerPc>, h: Held)
    requires "a" !in m && "b" !in m
    ensures var after := m["p" := Work([])]["q" := Work([])]["r" := Reschedule([h], 1, false)];
            "r" in after && after["r"] == Reschedule([h], 1, false) && "a" !in after && "b" !in after
  {}

  lemma AfterFirstFailure(m: map<string, WorkerPc>, pc: WorkerPc)
    requires ReadersOnly(m, pc)
    ensures var after := m["p" := Work([])]; "q" in after && after["q"] == pc && "r" in after && after["r"] == pc
  {}

  /** The first claim of a scan. */
  lemma FirstClaim(cfg: Config, d: int, s: State, row: Row, w: string, now: Time, rows: seq<Entry>, leased: Row)
    returns (t: Tables, h: Held)
    requires leased == LeasedTo(row, w, now + cfg.lease)
    requires d >= 0 && w != "" && w in s.workers && s.workers[w] == Claim(now, 0, rows, [], NOTE) && s.clock == now
    requires Sole(s.tables, row) && Unleased(row, now)
    ensures h.intent == NOTE && Sole(t, leased) && t.index == s.tables.index
    ensures Leads(cfg, d, s, With(s, w, Scan(now, 0, rows, [h])).(tables := t))
  {
    var u;
    u, h := GoClaim(cfg, d, s, row, w, now, rows, []);
    assert [] + [h] == [h];
    t := u.tables;
  }

  lemma WithTwice(s: State, w: string, a: WorkerPc, b: WorkerPc, t: Tables)
    ensures With(With(s, w, a), w, b).(tables := t) == With(s, w, b).(tables := t)
  {
    Overwrites(s.workers, w, a, b);
  }

  lemma JoinWith(cfg: Config, d: int, s: State, w: string, a: WorkerPc, b: WorkerPc, t: Tables)
    requires Leads(cfg, d, s, With(s, w, a)) && Leads(cfg, d, With(s, w, a), With(With(s, w, a), w, b).(tables := t))
    ensures Leads(cfg, d, s, With(s, w, b).(tables := t))
  {
    WithTwice(s, w, a, b, t);
    Join(cfg, d, s, With(s, w, a), With(s, w, b).(tables := t));
  }

  lemma OpensAndClaims(cfg: Config, d: int, s: State, row: Row, w: string, leased: Row)
    returns (t: Tables, h: Held, rows: seq<Entry>)
    requires leased == LeasedTo(row, w, s.clock + cfg.lease)
    requires cfg.Valid() && d >= 0 && w != "" && w !in s.workers && Sole(s.tables, row) && row.leaseUntil < s.clock
    requires Indexed(s.tables.index, s.clock, "n") && row.nextAttempt <= s.clock
    ensures FirstRows(s.tables, cfg, s.clock) != [] && rows == FirstRows(s.tables, cfg, s.clock)[1..]
    ensures h.intent == NOTE && Sole(t, leased) && t.index == s.tables.index
    ensures Leads(cfg, d, s, With(s, w, Scan(s.clock, 0, rows, [h])).(tables := t))
  {
    Opens(cfg, d, s, row, w);
    rows := FirstRows(s.tables, cfg, s.clock)[1..];
    var pc := Claim(s.clock, 0, rows, [], NOTE);
    t, h := FirstClaim(cfg, d, With(s, w, pc), row, w, s.clock, rows, leased);
    JoinWith(cfg, d, s, w, pc, Scan(s.clock, 0, rows, [h]), t);
  }

  /** Worker "a" claims the intent through one row and reads it again, as due, through the other. */
  lemma ClaimsAndRereads(cfg: Config, d: int, s: State, row: Row, early: Time)
    returns (u: State, h: Held, rows: seq<Entry>)
    requires cfg.Valid() && cfg.batchSize >= 2 && d >= 0 && "a" !in s.workers && Sole(s.tables, row)
    requires row.nextAttempt <= s.clock && row.leaseUntil < s.clock && early < s.clock
             && Bucket(early) == Bucket(s.clock)
    requires Indexed(s.tables.index, s.clock, "n") && Indexed(s.tables.index, early, "n")
    ensures Leads(cfg, d, s, u) && h.intent == NOTE && Sole(u.tables, LeasedTo(row, "a", s.clock + cfg.lease))
            && u.tables.index == s.tables.index
    ensures u == With(s, "a", Claim(s.clock, 0, rows, [h], NOTE)).(tables := u.tables)
  {
    var t, left;
    t, h, left := OpensAndClaims(cfg, d, s, row, "a", LeasedTo(row, "a", s.clock + cfg.lease));
    var s1 := With(s, "a", Scan(s.clock, 0, left, [h])).(tables := t);
    var all := FirstRows(s.tables, cfg, s.clock);
    assert |all| >= 2 && all[1].id == "n" by { TodaysRows(s.tables, row, early, s.clock, cfg.batchSize); }
    assert left[0] == all[1];
    GoScan(cfg, d, s1, LeasedTo(row, "a", s.clock + cfg.lease), "a", s.clock, left, [h]);
    rows := left[1..];
    u := With(s1, "a", Claim(s.clock, 0, rows, [h], NOTE));
    Overwrites(s.workers, "a", Scan(s.clock, 0, left, [h]), Claim(s.clock, 0, rows, [h], NOTE));
    Join(cfg, d, s, s1, u);
  }

  lemma WaitsAndInserts(cfg: Config, d: int, s: State, row: Row, w: string, h: Held, to: Time, dueAt: Time)
    returns (u: State)
    requires dueAt == to + FirstDelay(cfg)
    requires cfg.Valid() && cfg.maxAttempts >= 2 && w != "" && w in s.workers
             && s.workers[w] == Reschedule([h], 1, false) && h.intent == NOTE
    requires Sole(s.tables, row) && s.clock <= to
    ensures Leads(cfg, d, s, u) && Sole(u.tables, row) && Indexed(u.tables.index, dueAt, "n") && u.clock == to
    ensures forall x :: Indexed(s.tables.index, x, "n") ==> Indexed(u.tables.index, x, "n")
    ensures forall v :: v != w ==> (v in u.workers <==> v in s.workers)
                                   && (v in s.workers ==> u.workers[v] == s.workers[v])
  {
    var s1 := s.(clock := to);
    Wait(cfg, d, s, to);
    InsertsRow(cfg, d, s1, row, w, h, dueAt);
    u := With(s1, w, Requeue([h], 1, false, to, to + FirstDelay(cfg))).(
           tables := s.tables.(index := InsertIndex(s.tables.index, NOTE, to + FirstDelay(cfg))));
    Join(cfg, d, s, s1, u);
  }

  /** The scan of "a" stands before its second claim, just past its lease; a row is due now. */
  ghost predicate Stalled(s: State, cfg: Config, at: Time, due: Time, row: Row, h: Held, rows: seq<Entry>) {
    && s.clock == due == at + cfg.lease + 1 && Sole(s.tables, row) && row.nextAttempt == at
        && row.leaseUntil == at + cfg.lease
    && Indexed(s.tables.index, due, "n") && "b" !in s.workers
    && "a" in s.workers && s.workers["a"] == Claim(at, 0, rows, [h], NOTE) && h.intent == NOTE
  }

  /** The scan of "a" at its time. */
  lemma ScansAt(cfg: Config, d: int, s: State, row: Row, early: Time, at: Time)
    returns (u: State, h: Held, rows: seq<Entry>)
    requires cfg.Valid() && cfg.batchSize >= 2 && d >= 0 && "a" !in s.workers && Sole(s.tables, row) && s.clock <= at
    requires row.nextAttempt <= at && row.leaseUntil < at && early < at && Bucket(early) == Bucket(at)
    requires Indexed(s.tables.index, at, "n") && Indexed(s.tables.index, early, "n")
    ensures Leads(cfg, d, s, u) && h.intent == NOTE && Sole(u.tables, LeasedTo(row, "a", at + cfg.lease))
            && u.tables.index == s.tables.index
    ensures u == With(s, "a", Claim(at, 0, rows, [h], NOTE)).(tables := u.tables, clock := at)
  {
    Wait(cfg, d, s, at);
    u, h, rows := ClaimsAndRereads(cfg, d, s.(clock := at), row, early);
    Join(cfg, d, s, s.(clock := at), u);
  }

  lemma InsertsAndWaits(cfg: Config, d: int, s: State, row: Row, w: string, h: Held, to: Time, dueAt: Time)
    returns (u: State)
    requires dueAt == to + FirstDelay(cfg)
    requires cfg.Valid() && cfg.maxAttempts >= 2 && w != "" && w in s.workers
             && s.workers[w] == Reschedule([h], 1, false) && h.intent == NOTE
    requires Sole(s.tables, row) && s.clock <= to <= dueAt
    ensures Leads(cfg, d, s, u) && Sole(u.tables, row) && Indexed(u.tables.index, dueAt, "n") && u.clock == dueAt
    ensures forall x :: Indexed(s.tables.index, x, "n") ==> Indexed(u.tables.index, x, "n")
    ensures forall v :: v != w ==> (v in u.workers <==> v in s.workers)
                                   && (v in s.workers ==> u.workers[v] == s.workers[v])
  {
    var s1 := WaitsAndInserts(cfg, d, s, row, w, h, to, dueAt);
    u := s1.(clock := dueAt);
    Wait(cfg, d, s1, dueAt);
    Join(cfg, d, s, s1, u);
  }

  /** Worker "r" inserts its row so that it is due when the lease of "a" has run out: before the scan of
      "a" if delays are long. */
  lemma StallsEarlyRow(cfg: Config, d: int, s: State, early: Time, at: Time, due: Time, row: Row, g: Held)
    returns (u: State, row': Row, h: Held, rows: seq<Entry>)
    requires cfg.Valid() && cfg.batchSize >= 2 && cfg.maxAttempts >= 2 && d > cfg.lease && early < at
             && Bucket(early) == Bucket(at)
    requires due == at + cfg.lease + 1
    requires TwoRows(s, at, early, row, g) && s.clock <= due - FirstDelay(cfg) <= at
    ensures Leads(cfg, d, s, u) && Stalled(u, cfg, at, due, row', h, rows)
  {
    var s1 := WaitsAndInserts(cfg, d, s, row, "r", g, due - FirstDelay(cfg), due);
    u, h, rows := ScansAndWaits(cfg, d, s1, row, early, at);
    row' := LeasedTo(row, "a", at + cfg.lease);
    Join(cfg, d, s, s1, u);
  }

  lemma ScansAndWaits(cfg: Config, d: int, s: State, row: Row, early: Time, at: Time)
    returns (u: State, h: Held, rows: seq<Entry>)
    requires cfg.Valid() && cfg.batchSize >= 2 && d >= 0 && "a" !in s.workers && Sole(s.tables, row) && s.clock <= at
    requires row.nextAttempt <= at && row.leaseUntil < at && early < at && Bucket(early) == Bucket(at)
    requires Indexed(s.tables.index, at, "n") && Indexed(s.tables.index, early, "n")
    ensures Leads(cfg, d, s, u) && h.intent == NOTE && Sole(u.tables, LeasedTo(row, "a", at + cfg.lease))
            && u.tables.index == s.tables.index
    ensures u == With(s, "a", Claim(at, 0, rows, [h], NOTE)).(tables := u.tables, clock := at + cfg.lease + 1)
  {
    var s1;
    s1, h, rows := ScansAt(cfg, d, s, row, early, at);
    u := s1.(clock := at + cfg.lease + 1);
    Wait(cfg, d, s1, u.clock);
    Join(cfg, d, s, s1, u);
  }

  /** And in the middle of it if delays are short. */
  lemma StallsLateRow(cfg: Config, d: int, s: State, early: Time, at: Time, due: Time, row: Row, g: Held)
    returns (u: State, row': Row, h: Held, rows: seq<Entry>)
    requires cfg.Valid() && cfg.batchSize >= 2 && cfg.maxAttempts >= 2 && d > cfg.lease && early < at
             && Bucket(early) == Bucket(at)
    requires due == at + cfg.lease + 1
    requires TwoRows(s, at, early, row, g) && s.clock <= at <= due - FirstDelay(cfg)
    ensures Leads(cfg, d, s, u) && Stalled(u, cfg, at, due, row', h, rows)
  {
    assert FirstDelay(cfg) > 0 by { DelayGrows(cfg.baseDelay, cfg.maxDelay, 1); }
    var s1;
    s1, h, rows := ScansAt(cfg, d, s, row, early, at);
    row' := LeasedTo(row, "a", at + cfg.lease);
    u := InsertsAndWaits(cfg, d, s1, row', "r", g, due - FirstDelay(cfg), due);
    Join(cfg, d, s, s1, u);
  }

  /** A new worker claims the lapsed intent, fails to deliver it, cannot read its count and releases it. */
  lemma OtherReleases(cfg: Config, d: int, s: State, row: Row, w: string, dueAt: Time) returns (u: State)
    requires cfg.Valid() && cfg.maxAttempts >= 2 && d >= 0 && w != "" && w !in s.workers && Sole(s.tables, row)
    requires Indexed(s.tables.index, s.clock, "n") && row.nextAttempt <= s.clock && row.leaseUntil < s.clock
    requires dueAt == s.clock + FirstDelay(cfg)
    ensures Leads(cfg, d, s, u) && Sole(u.tables, Released(row, dueAt)) && u.clock == s.clock
            && Indexed(u.tables.index, dueAt, "n")
    ensures u == With(s, w, Work([])).(tables := u.tables)
  {
    var now, rows := s.clock, FirstRows(s.tables, cfg, s.clock)[1..];
    Opens(cfg, d, s, row, w);
    var s1 := With(s, w, Claim(now, 0, rows, [], NOTE));
    u := FailsOnce(cfg, d, s1, row, w, rows, now, dueAt);
    WithTwice(s, w, Claim(now, 0, rows, [], NOTE), Work([]), u.tables);
    Join(cfg, d, s, s1, u);
  }

  /** Worker "b" claims the lapsed intent, fails and releases it; now the second claim of "a" applies. */
  lemma ClaimsTwice(cfg: Config, d: int, s: State, at: Time, due: Time, row: Row, h: Held, rows: seq<Entry>)
    returns (u: State, g: Held)
    requires cfg.Valid() && cfg.maxAttempts >= 2 && d > cfg.lease && at > 0 && Stalled(s, cfg, at, due, row, h, rows)
    ensures Leads(cfg, d, s, u) && PcOf(u, "a") == Scan(at, 0, rows, [h] + [g]) && g.intent == NOTE
    ensures u.clock == at + cfg.lease + 1 && "n" in u.tables.byId && at < u.tables.byId["n"].nextAttempt
  {
    DelayGrows(cfg.baseDelay, cfg.maxDelay, 1);
    var dueAt := s.clock + FirstDelay(cfg);
    var s1 := OtherReleases(cfg, d, s, row, "b", dueAt);
    u, g := GoClaim(cfg, d, s1, Released(row, dueAt), "a", at, rows, [h]);
    Join(cfg, d, s, s1, u);
  }

  /** When the run starts and when "a" scans, so that its two rows fall into one day. */
  lemma Timeline(cfg: Config) returns (start: Time, early: Time, at: Time)
    requires cfg.Valid()
    ensures start > 0 && early == at - 1 == start + cfg.lease + FirstDelay(cfg) && Bucket(early) == Bucket(at)
  {
    DelayGrows(cfg.baseDelay, cfg.maxDelay, 1);
    var span := cfg.lease + FirstDelay(cfg);
    var days := span / DAY + 2;
    start := days * DAY - span;
    early, at := days * DAY, days * DAY + 1;
    assert span < (span / DAY + 1) * DAY;
    assert early / DAY == days && at / DAY == days;
  }

  lemma FinishesAnomaly(cfg: Config, d: int, s: State, early: Time, at: Time, row: Row, g: Held)
    returns (u: State, h: Held)
    requires cfg.Valid() && cfg.batchSize >= 2 && cfg.maxAttempts >= 2 && d > cfg.lease && at > 0 && early < at
             && Bucket(early) == Bucket(at)
    requires TwoRows(s, at, early, row, g) && s.clock == at - FirstDelay(cfg)
    ensures Leads(cfg, d, s, u) && PcOf(u, "a").Scan? && PcOf(u, "a").now == at && |BatchOf(PcOf(u, "a"))| == 2
    ensures var batch := BatchOf(PcOf(u, "a")); batch[0].intent == batch[1].intent == NOTE && !DistinctIds(batch)
    ensures u.clock == at + cfg.lease + 1 && "n" in u.tables.byId && at < u.tables.byId["n"].nextAttempt
  {
    DelayGrows(cfg.baseDelay, cfg.maxDelay, 1);
    var s1, row', rows;
    var due := at + cfg.lease + 1;
    if FirstDelay(cfg) > cfg.lease {
      s1, row', h, rows := StallsEarlyRow(cfg, d, s, early, at, due, row, g);
    } else {
      s1, row', h, rows := StallsLateRow(cfg, d, s, early, at, due, row, g);
    }
    var k;
    u, k := ClaimsTwice(cfg, d, s1, at, due, row', h, rows);
    Join(cfg, d, s, s1, u);
    var batch := [h] + [k];
    assert batch[0].intent.id == batch[1].intent.id;
  }

  /** "a" holds the intent twice, its second claim applied before the intent is due again. */
  ghost predicate HeldTwice(cfg: Config, s: State) {
    var batch := BatchOf(PcOf(s, "a"));
    && |batch| == 2 && batch[0].intent == batch[1].intent && !DistinctIds(batch)
    && PcOf(s, "a").Scan? && s.clock == PcOf(s, "a").now + cfg.lease + 1
    && batch[1].intent.id in s.tables.byId && PcOf(s, "a").now < s.tables.byId[batch[1].intent.id].nextAttempt
  }

  /** Three workers have read the row of a new intent. */
  lemma StartsReaders(cfg: Config, d: int, start: Time) returns (s: State, rows: seq<Entry>)
    requires cfg.Valid() && d >= 0 && start > 0
    ensures Leads(cfg, d, Init(), s) && s.clock == start && Sole(s.tables, NewRow(start))
    ensures ReadersOnly(s.workers, Claim(start, 0, rows, [], NOTE))
  {
    var s1 := Enqueueing(cfg, d, start);
    var pc := Reader(s1, cfg);
    ThreeReaders(cfg, d, s1, NewRow(start));
    s, rows := With(With(With(s1, "p", pc), "q", pc), "r", pc), pc.rows;
    Join(cfg, d, Init(), s1, s);
  }

  lemma AnomalyRun(cfg: Config, d: int) returns (s: State)
    requires cfg.Valid() && cfg.batchSize >= 2 && cfg.maxAttempts >= 2 && d > cfg.lease
    ensures Leads(cfg, d, Init(), s) && HeldTwice(cfg, s)
  {
    var start, early, at := Timeline(cfg);
    var s1, rows := StartsReaders(cfg, d, start);
    var s2, row, g := FailsTwice(cfg, d, s1, NewRow(start), start, rows, early, at);
    Join(cfg, d, Init(), s1, s2);
    var h;
    s, h := FinishesAnomaly(cfg, d, s2, early, at, row, g);
    Join(cfg, d, Init(), s2, s);
  }

  /** For every configuration with room for two intents and two attempts: if scans may last one tick
      longer than the lease, a run exists in which one batch holds an intent twice, its second claim
      applied before the intent is due again. */
  lemma BatchCanHoldAnIntentTwice(cfg: Config, d: int) returns (steps: seq<Step>)
    requires cfg.Valid() && cfg.batchSize >= 2 && cfg.maxAttempts >= 2 && d > cfg.lease
    ensures OnTime(Init(), cfg, d, steps)
    ensures HeldTwice(cfg, Exec(Init(), cfg, steps))
  {
    var s := AnomalyRun(cfg, d);
    steps :| OnTime(Init(), cfg, d, steps) && Exec(Init(), cfg, steps) == s;
  }

  /** Exactly when every batch of every run is distinct: scans finish within the lease, or the batch size
      is one, or the first failure already ends an intent so that nothing is ever released. */
  lemma BatchesAreDistinctExactlyWhen(cfg: Config, d: int)
    requires cfg.Valid()
    ensures (forall steps, w :: OnTime(Init(), cfg, d, steps)
               ==> DistinctIds(BatchOf(PcOf(Exec(Init(), cfg, steps), w))))
              <==> d <= cfg.lease || cfg.batchSize < 2 || cfg.maxAttempts < 2
  {
    if d <= cfg.lease || cfg.batchSize < 2 || cfg.maxAttempts < 2 {
      forall steps, w | OnTime(Init(), cfg, d, steps) ensures DistinctIds(BatchOf(PcOf(Exec(Init(), cfg, steps), w))) {
        if d <= cfg.lease { ScansWithinTheLeaseAreDistinct(cfg, d, steps, w); } else { NothingReleased(cfg, steps, w); }
      }
    } else {
      var steps := BatchCanHoldAnIntentTwice(cfg, d);
      assert !DistinctIds(BatchOf(PcOf(Exec(Init(), cfg, steps), "a")));
    }
  }

  lemma NothingReleased(cfg: Config, steps: seq<Step>, w: string)
    requires cfg.Valid() && (cfg.batchSize < 2 || cfg.maxAttempts < 2)
    ensures DistinctIds(BatchOf(PcOf(Exec(Init(), cfg, steps), w)))
  {
    BatchesAreBoundedAndDistinct(cfg, steps, w);
    RunsKeepInv(cfg, steps);
    var t := Exec(Init(), cfg, steps).tables;
    forall i: nat, id | cfg.maxAttempts < 2 ensures !RetryAt(t.log, i, id) {
      if i < |t.log| { assert EventRight(t, cfg, i); }
    }
  }
}
