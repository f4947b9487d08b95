/** The outbox as the code runs it: ClaimDue, Complete, Retry, Enqueue and the worker's process
    loop over the Cassandra session, what one undisturbed call does, and why each such call is
    a run of the transition system. */
module OutboxStore {
  import opened Basics
  import opened Outbox
  import opened OutboxRuns
  import opened OutboxTheorems

  // ---------- one undisturbed ClaimDue ----------

  predicate Claimable(byId: map<Id, Row>, id: Id, now: Time) {
    id in byId && Due(byId[id], now) && Unleased(byId[id], now)
  }

  /** Claim the rows of one SELECT, one by one, on top of what was got before. */
  function ClaimRows(t: Tables, rows: seq<Entry>, got: seq<Held>, owner: string, now: Time,
      lease: int): (r: (Tables, seq<Held>))
    ensures |got| <= |r.1| <= |got| + |rows|
    decreases |rows|
  {
    if rows == [] then (t, got)
    else if Claimable(t.byId, rows[0].id, now) then
      ClaimRows(Act(t, Update(Claimed(rows[0].id, owner, now, now + lease), NoFault)), rows[1..],
                got + [Held(Intent(rows[0].id, t.byId[rows[0].id].body), |t.log|)], owner, now, lease)
    else ClaimRows(t, rows[1..], got, owner, now, lease)
  }

  function DayRows(t: Tables, now: Time, bucket: int, n: nat): (rows: seq<Entry>)
    ensures |rows| <= n
  {
    Select(t.index, bucket, now, n)
  }

  /** The day loop from `bucket` back to seven days ago. */
  function ClaimDays(t: Tables, got: seq<Held>, owner: string, limit: nat, lease: int, now: Time,
      bucket: int): (r: (Tables, seq<Held>))
    requires |got| <= limit
    ensures |r.1| <= limit
    decreases bucket - Bucket(now) + 8
  {
    if bucket < Bucket(now) - 7 || |got| >= limit then (t, got)
    else
      var r := ClaimRows(t, DayRows(t, now, bucket, limit - |got|), got, owner, now, lease);
      ClaimDays(r.0, r.1, owner, limit, lease, now, bucket - 1)
  }

  /** The index rows that the day loop reads. */
  function Scanned(t: Tables, got: seq<Held>, owner: string, limit: nat, lease: int, now: Time, bucket: int): seq<Entry>
    requires |got| <= limit
    decreases bucket - Bucket(now) + 8
  {
    if bucket < Bucket(now) - 7 || |got| >= limit then []
    else
      var rows := DayRows(t, now, bucket, limit - |got|);
      var r := ClaimRows(t, rows, got, owner, now, lease);
      rows + Scanned(r.0, r.1, owner, limit, lease, now, bucket - 1)
  }

  /** One undisturbed ClaimDue call. */
  function ClaimDueNow(t: Tables, owner: string, limit: nat, lease: int, now: Time): (Tables, seq<Held>) {
    ClaimDays(t, [], owner, limit, lease, now, Bucket(now))
  }

  function ScannedNow(t: Tables, owner: string, limit: nat, lease: int, now: Time): seq<Entry> {
    Scanned(t, [], owner, limit, lease, now, Bucket(now))
  }

  ghost predicate Mentions(rows: seq<Entry>, id: Id) { exists k :: 0 <= k < |rows| && rows[k].id == id }

  ghost predicate Took(held: seq<Held>, id: Id) { exists k :: 0 <= k < |held| && held[k].intent.id == id }

  ghost predicate DistinctIds(held: seq<Held>) {
    forall i, j :: 0 <= i < j < |held| ==> held[i].intent.id != held[j].intent.id
  }

  function Leased(row: Row, owner: string, now: Time, lease: int): Row {
    row.(leaseOwner := owner, leaseUntil := now + lease)
  }

  /** What a claiming pass over some index rows does to tables t: it takes each claimable intent
      mentioned there exactly once, leases it, and touches nothing else. */
  ghost predicate ClaimsExactly(t: Tables, rows: seq<Entry>, owner: string, now: Time, lease: int,
      r: (Tables, seq<Held>))
  {
    && r.0.index == t.index && r.0.inbox == t.inbox && t.log <= r.0.log
    && r.0.byId.Keys == t.byId.Keys
    && (forall id :: Took(r.1, id) <==> Claimable(t.byId, id, now) && Mentions(rows, id))
    && (forall id :: id in t.byId ==> r.0.byId[id] == if Took(r.1, id) then Leased(t.byId[id], owner, now, lease)
        else t.byId[id])
    && (forall k :: 0 <= k < |r.1| ==> Filed(t.byId, r.1[k].intent))
    && DistinctIds(r.1)
  }

  lemma MentionsSplit(a: seq<Entry>, b: seq<Entry>, id: Id)
    ensures Mentions(a + b, id) <==> Mentions(a, id) || Mentions(b, id)
  {
    if k :| 0 <= k < |a| && a[k].id == id { assert (a + b)[k].id == id; }
    if k :| 0 <= k < |b| && b[k].id == id { assert (a + b)[|a| + k].id == id; }
    if k :| 0 <= k < |a + b| && (a + b)[k].id == id {
      assert k < |a| ==> a[k].id == id;
      assert k >= |a| ==> b[k - |a|].id == id;
    }
  }

  lemma TookSplit(a: seq<Held>, b: seq<Held>, id: Id)
    ensures Took(a + b, id) <==> Took(a, id) || Took(b, id)
  {
    if k :| 0 <= k < |a| && a[k].intent.id == id { assert (a + b)[k].intent.id == id; }
    if k :| 0 <= k < |b| && b[k].intent.id == id { assert (a + b)[|a| + k].intent.id == id; }
    if k :| 0 <= k < |a + b| && (a + b)[k].intent.id == id {
      assert k < |a| ==> a[k].intent.id == id;
      assert k >= |a| ==> b[k - |a|].intent.id == id;
    }
  }

  /** Two passes in a row are one pass over both row lists: what the first leased, the second cannot take. */
  lemma PassesCompose(t: Tables, a: seq<Entry>, b: seq<Entry>, owner: string, now: Time, lease: int,
                      r: (Tables, seq<Held>), q: (Tables, seq<Held>))
    requires lease > 0 && ClaimsExactly(t, a, owner, now, lease, r) && ClaimsExactly(r.0, b, owner, now, lease, q)
    ensures ClaimsExactly(t, a + b, owner, now, lease, (q.0, r.1 + q.1))
  {
    forall id ensures Took(r.1 + q.1, id) <==> Claimable(t.byId, id, now) && Mentions(a + b, id)
              ensures id in t.byId ==> q.0.byId[id] == if Took(r.1 + q.1, id)
                                       then Leased(t.byId[id], owner, now, lease) else t.byId[id]
              ensures !(Took(r.1, id) && Took(q.1, id))
    {
      TookSplit(r.1, q.1, id);
      MentionsSplit(a, b, id);
    }
    var both := r.1 + q.1;
    forall i, j | 0 <= i < j < |both| ensures both[i].intent.id != both[j].intent.id {
      if i < |r.1| <= j {
        assert Took(r.1, both[i].intent.id);
        assert q.1[j - |r.1|] == both[j];
        assert Took(q.1, both[j].intent.id);
      }
    }
  }

  lemma NoClaims(t: Tables, got: seq<Held>, owner: string, now: Time, lease: int)
    ensures AddsExactly(t, [], got, owner, now, lease, (t, got))
  {}

  lemma ClaimOneRow(t: Tables, e: Entry, got: seq<Held>, owner: string, now: Time, lease: int)
    returns (r: (Tables, seq<Held>))
    requires lease > 0
    ensures r == if Claimable(t.byId, e.id, now)
                 then (Act(t, Update(Claimed(e.id, owner, now, now + lease), NoFault)),
                     got + [Held(Intent(e.id, t.byId[e.id].body), |t.log|)])
                 else (t, got)
    ensures AddsExactly(t, [e], got, owner, now, lease, r)
  {
    assert forall id :: Mentions([e], id) <==> id == e.id by { assert [e][0] == e; }
    if Claimable(t.byId, e.id, now) {
      var h := Held(Intent(e.id, t.byId[e.id].body), |t.log|);
      r := (Act(t, Update(Claimed(e.id, owner, now, now + lease), NoFault)), got + [h]);
      assert r.1[|got|..] == [h] && [h][0] == h;
      assert forall id :: Took([h], id) <==> id == e.id;
    } else {
      r := (t, got);
    }
  }

  /** The claims a pass added to those got before. */
  ghost predicate AddsExactly(t: Tables, rows: seq<Entry>, got: seq<Held>, owner: string, now: Time, lease: int,
      r: (Tables, seq<Held>))
  {
    got <= r.1 && ClaimsExactly(t, rows, owner, now, lease, (r.0, r.1[|got|..]))
  }

  lemma AdditionsCompose(t: Tables, a: seq<Entry>, b: seq<Entry>, got: seq<Held>, owner: string, now: Time, lease: int,
                         r: (Tables, seq<Held>), q: (Tables, seq<Held>))
    requires lease > 0 && AddsExactly(t, a, got, owner, now, lease, r) && AddsExactly(r.0, b, r.1, owner, now, lease, q)
    ensures AddsExactly(t, a + b, got, owner, now, lease, q)
  {
    PassesCompose(t, a, b, owner, now, lease, (r.0, r.1[|got|..]), (q.0, q.1[|r.1|..]));
    assert q.1[|got|..] == r.1[|got|..] + q.1[|r.1|..];
  }

  lemma {:induction false} ClaimRowsExact(t: Tables, rows: seq<Entry>, got: seq<Held>, owner: string, now: Time,
      lease: int)
    requires lease > 0
    ensures AddsExactly(t, rows, got, owner, now, lease, ClaimRows(t, rows, got, owner, now, lease))
    decreases |rows|
  {
    if rows == [] {
      NoClaims(t, got, owner, now, lease);
    } else {
      var first := ClaimOneRow(t, rows[0], got, owner, now, lease);
      ClaimRowsExact(first.0, rows[1..], first.1, owner, now, lease);
      AdditionsCompose(t, [rows[0]], rows[1..], got, owner, now, lease, first,
          ClaimRows(t, rows, got, owner, now, lease));
      assert rows == [rows[0]] + rows[1..];
    }
  }

  /** An undisturbed ClaimDue takes exactly the claimable intents among those the scan reads, each
      once, however many index rows an intent has. */
  lemma {:induction false} ClaimDaysExact(t: Tables, got: seq<Held>, owner: string, limit: nat, lease: int,
      now: Time, bucket: int)
    requires lease > 0 && |got| <= limit
    ensures AddsExactly(t, Scanned(t, got, owner, limit, lease, now, bucket), got, owner, now, lease,
            ClaimDays(t, got, owner, limit, lease, now, bucket))
    decreases bucket - Bucket(now) + 8
  {
    if bucket < Bucket(now) - 7 || |got| >= limit {
      NoClaims(t, got, owner, now, lease);
    } else {
      var rows := DayRows(t, now, bucket, limit - |got|);
      var r := ClaimRows(t, rows, got, owner, now, lease);
      ClaimRowsExact(t, rows, got, owner, now, lease);
      ClaimDaysExact(r.0, r.1, owner, limit, lease, now, bucket - 1);
      AdditionsCompose(t, rows, Scanned(r.0, r.1, owner, limit, lease, now, bucket - 1), got, owner, now, lease, r,
                       ClaimDays(r.0, r.1, owner, limit, lease, now, bucket - 1));
    }
  }

  lemma ClaimDueExact(t: Tables, owner: string, limit: nat, lease: int, now: Time)
    requires lease > 0
    ensures ClaimsExactly(t, ScannedNow(t, owner, limit, lease, now), owner, now, lease,
            ClaimDueNow(t, owner, limit, lease, now))
    ensures |ClaimDueNow(t, owner, limit, lease, now).1| <= limit
  {
    var none := [];
    ClaimDaysExact(t, none, owner, limit, lease, now, Bucket(now));
    var r := ClaimDays(t, none, owner, limit, lease, now, Bucket(now));
    assert r.1[0..] == r.1;
  }

  // ---------- one undisturbed process loop ----------

  /** Deliver, then Complete or Retry, for one claimed intent. */
  function Handle(t: Tables, cfg: Config, w: string, intent: Intent, delivered: bool, clock: Time): Tables {
    if delivered then
      Act(Act(t, Push(intent, NoFault)), Update(Completed(intent.id, w), NoFault))
    else
      var attempts := (if intent.id in t.byId then t.byId[intent.id].attempts else 0) + 1;
      var known := intent.id in t.byId;
      if attempts >= cfg.maxAttempts then Act(t, Update(Died(intent.id, w, known), NoFault))
      else
        var dueAt := clock + Delay(cfg.baseDelay, cfg.maxDelay, attempts);
        Act(Act(t, Insert(intent, dueAt, NoFault)),
            Update(Retried(intent.id, w, attempts, clock, dueAt, known), NoFault))
  }

  function HandleAll(t: Tables, cfg: Config, w: string, batch: seq<Held>, delivered: Id -> bool, clock: Time): Tables
    decreases |batch|
  {
    if batch == [] then t
    else HandleAll(Handle(t, cfg, w, batch[0].intent, delivered(batch[0].intent.id), clock), cfg, w, batch[1..],
        delivered, clock)
  }

  /** How a row the worker holds ends up. */
  function Outcome(row: Row, cfg: Config, delivered: bool, clock: Time): Row {
    if delivered then row.(status := Complete, leaseOwner := "", leaseUntil := 0)
    else if row.attempts + 1 >= cfg.maxAttempts then row.(status := DeadLetter, leaseOwner := "", leaseUntil := 0)
    else row.(attempts := row.attempts + 1, leaseOwner := "", leaseUntil := 0,
              nextAttempt := clock + Delay(cfg.baseDelay, cfg.maxDelay, row.attempts + 1))
  }

  ghost predicate AllHeld(byId: map<Id, Row>, w: string, batch: seq<Held>) {
    forall k :: 0 <= k < |batch| ==> Filed(byId, batch[k].intent) && HeldBy(byId[batch[k].intent.id], w)
  }

  lemma HandleOne(t: Tables, cfg: Config, w: string, intent: Intent, delivered: bool, clock: Time)
    requires Filed(t.byId, intent) && HeldBy(t.byId[intent.id], w)
    ensures var u := Handle(t, cfg, w, intent, delivered, clock);
            && u.byId == t.byId[intent.id := Outcome(t.byId[intent.id], cfg, delivered, clock)]
            && IndexGrows(t, u) && InboxGrows(t, u)
            && (delivered ==> HasNote(u.inbox, intent))
            && (u.byId[intent.id].status == Pending ==> Covered(u, intent.id))
  {
    if !delivered && t.byId[intent.id].attempts + 1 < cfg.maxAttempts {
      InsertGrows(t, intent, clock + Delay(cfg.baseDelay, cfg.maxDelay, t.byId[intent.id].attempts + 1), NoFault);
    }
  }

  /** Every claimed intent is settled exactly once, by its own outcome: delivered ones are complete,
      failed ones rescheduled under a new index row or dead; all other rows stay as they were. */
  lemma {:induction false} ProcessSettlesEachOnce(t: Tables, cfg: Config, w: string, batch: seq<Held>,
      delivered: Id -> bool, clock: Time, id: Id)
    requires AllHeld(t.byId, w, batch) && DistinctIds(batch) && id in t.byId
    ensures var u := HandleAll(t, cfg, w, batch, delivered, clock);
            && id in u.byId && IndexGrows(t, u)
            && u.byId[id] == (if Took(batch, id) then Outcome(t.byId[id], cfg, delivered(id), clock) else t.byId[id])
            && (Took(batch, id) && u.byId[id].status == Pending ==> Covered(u, id))
    decreases |batch|
  {
    if batch != [] {
      var first := batch[0].intent;
      var t1 := Handle(t, cfg, w, first, delivered(first.id), clock);
      HandleOne(t, cfg, w, first, delivered(first.id), clock);
      ProcessSettlesEachOnce(t1, cfg, w, batch[1..], delivered, clock, id);
      assert batch == [batch[0]] + batch[1..];
      TookSplit([batch[0]], batch[1..], id);
      assert Took([batch[0]], id) <==> id == first.id by { assert [batch[0]][0] == batch[0]; }
      assert id == first.id ==> !Took(batch[1..], id);
    }
  }

  // ---------- these calls are runs of the transition system ----------

  /** A worker left alone for n statements, none of which fails. */
  function Solo(t: Tables, clock: Time, cfg: Config, w: string, pc: WorkerPc, n: nat): (Tables, WorkerPc)
    decreases n
  {
    if n == 0 then (t, pc)
    else Solo(Act(t, WorkerAction(clock, cfg, w, pc, NoFault)), clock, cfg, w,
        WorkerNext(t, clock, cfg, pc, NoFault), n - 1)
  }

  lemma {:induction false} SoloSplits(t: Tables, clock: Time, cfg: Config, w: string, pc: WorkerPc, m: nat, n: nat)
    ensures var r := Solo(t, clock, cfg, w, pc, m);
            Solo(t, clock, cfg, w, pc, m + n) == Solo(r.0, clock, cfg, w, r.1, n)
    decreases m
  {
    if m > 0 {
      SoloSplits(Act(t, WorkerAction(clock, cfg, w, pc, NoFault)), clock, cfg, w,
          WorkerNext(t, clock, cfg, pc, NoFault), m - 1, n);
    }
  }

  lemma {:induction false} ClaimRowsSolo(t: Tables, clock: Time, cfg: Config, w: string, pc: WorkerPc) returns (n: nat)
    requires pc.Scan?
    ensures var r := ClaimRows(t, pc.rows, pc.got, w, pc.now, cfg.lease);
            Solo(t, clock, cfg, w, pc, n) == (r.0, Scan(pc.now, pc.day, [], r.1))
    decreases |pc.rows|
  {
    if pc.rows == [] {
      n := 0;
    } else {
      var pc1, t1, k := WorkerNext(t, clock, cfg, pc, NoFault), t, 1;
      SoloSplits(t, clock, cfg, w, pc, 0, 1);
      if pc1.Claim? {
        t1 := Act(t, WorkerAction(clock, cfg, w, pc1, NoFault));
        pc1 := WorkerNext(t, clock, cfg, pc1, NoFault);
        k := 2;
      }
      assert Solo(t, clock, cfg, w, pc, k) == (t1, pc1);
      var rest := ClaimRowsSolo(t1, clock, cfg, w, pc1);
      SoloSplits(t, clock, cfg, w, pc, k, rest);
      n := k + rest;
    }
  }

  lemma DaySolo(t: Tables, clock: Time, cfg: Config, w: string, pc: WorkerPc) returns (n: nat)
    requires pc.Query? && pc.day <= 7 && |pc.got| < cfg.batchSize
    ensures var r := ClaimRows(t, DayRows(t, pc.now, Bucket(pc.now) - pc.day, cfg.batchSize - |pc.got|), pc.got, w,
            pc.now, cfg.lease);
            Solo(t, clock, cfg, w, pc, n) == (r.0, Query(pc.now, pc.day + 1, r.1))
  {
    var pc1 := WorkerNext(t, clock, cfg, pc, NoFault);
    var k := ClaimRowsSolo(t, clock, cfg, w, pc1);
    SoloSplits(t, clock, cfg, w, pc, 0, 1);
    SoloSplits(t, clock, cfg, w, pc, 1, k);
    SoloSplits(t, clock, cfg, w, pc, 1 + k, 1);
    n := 2 + k;
  }

  lemma {:induction false} ClaimDueSolo(t: Tables, clock: Time, cfg: Config, w: string, pc: WorkerPc) returns (n: nat)
    requires cfg.Valid() && pc.Query? && |pc.got| <= cfg.batchSize
    ensures var r := ClaimDays(t, pc.got, w, cfg.batchSize, cfg.lease, pc.now, Bucket(pc.now) - pc.day);
            Solo(t, clock, cfg, w, pc, n) == (r.0, Work(r.1))
    decreases 8 - pc.day
  {
    if pc.day > 7 || |pc.got| == cfg.batchSize {
      n := 1;
      SoloSplits(t, clock, cfg, w, pc, 0, 1);
    } else {
      var r := ClaimRows(t, DayRows(t, pc.now, Bucket(pc.now) - pc.day, cfg.batchSize - |pc.got|), pc.got, w, pc.now,
          cfg.lease);
      var k := DaySolo(t, clock, cfg, w, pc);
      var rest := ClaimDueSolo(r.0, clock, cfg, w, Query(pc.now, pc.day + 1, r.1));
      SoloSplits(t, clock, cfg, w, pc, k, rest);
      n := k + rest;
    }
  }

  ghost predicate OnlyBy(steps: seq<Step>, w: string) {
    forall k :: 0 <= k < |steps| ==> steps[k] == Worker(w, NoFault)
  }

  lemma {:induction false} SoloIsARun(s: State, cfg: Config, w: string, n: nat) returns (steps: seq<Step>)
    requires w in s.workers && w != ""
    ensures OnlyBy(steps, w)
    ensures var r := Solo(s.tables, s.clock, cfg, w, s.workers[w], n);
            Exec(s, cfg, steps) == s.(tables := r.0, workers := s.workers[w := r.1])
    decreases n
  {
    if n == 0 {
      steps := [];
      assert s.workers[w := s.workers[w]] == s.workers;
    } else {
      var go := Worker(w, NoFault);
      var s1 := Next(s, cfg, go);
      assert [go][..0] == [];
      var rest := SoloIsARun(s1, cfg, w, n - 1);
      ExecConcat(s, cfg, [go], rest);
      steps := [go] + rest;
      var r := Solo(s.tables, s.clock, cfg, w, s.workers[w], n);
      assert s1.workers[w := r.1] == s.workers[w := r.1];
    }
  }

  /** An undisturbed ClaimDue is a run of the worker's own steps, so every theorem about runs
      applies to it: from its first SELECT it reaches exactly the tables and the batch it returns. */
  lemma ClaimDueIsARun(s: State, cfg: Config, w: string) returns (steps: seq<Step>)
    requires cfg.Valid() && w != "" && PcOf(s, w) == Query(s.clock, 0, [])
    ensures OnlyBy(steps, w)
    ensures var r := ClaimDueNow(s.tables, w, cfg.batchSize, cfg.lease, s.clock);
            Exec(s, cfg, steps) == s.(tables := r.0, workers := s.workers[w := Work(r.1)])
  {
    var n := ClaimDueSolo(s.tables, s.clock, cfg, w, PcOf(s, w));
    steps := SoloIsARun(s, cfg, w, n);
  }

  lemma ThenStep(s: State, cfg: Config, steps: seq<Step>, step: Step)
    ensures Exec(s, cfg, steps + [step]) == Next(Exec(s, cfg, steps), cfg, step)
  {
    assert (steps + [step])[..|steps|] == steps;
  }

  ghost predicate StepsOf(steps: seq<Step>, w: string) {
    forall k :: 0 <= k < |steps| ==> steps[k].Worker? && steps[k].w == w
  }

  /** The state with the worker's next statement executed. */
  function Stepped(s: State, cfg: Config, w: string, pc: WorkerPc, fault: Fault): State {
    s.(tables := Act(s.tables, WorkerAction(s.clock, cfg, w, pc, fault)),
       workers := s.workers[w := WorkerNext(s.tables, s.clock, cfg, pc, fault)])
  }

  lemma WorkerSteps(s: State, cfg: Config, steps: seq<Step>, u: State, w: string, pc: WorkerPc, fault: Fault)
    requires w != "" && u == Exec(s, cfg, steps) && PcOf(u, w) == pc && StepsOf(steps, w)
    ensures Exec(s, cfg, steps + [Worker(w, fault)]) == Stepped(u, cfg, w, pc, fault)
            && StepsOf(steps + [Worker(w, fault)], w)
  {
    ThenStep(s, cfg, steps, Worker(w, fault));
  }

  lemma Overwrites(m: map<string, WorkerPc>, w: string, a: WorkerPc, b: WorkerPc)
    ensures m[w := a][w := b] == m[w := b]
  {}

  /** The state after the head of the batch was handled. */
  function Handled(s: State, cfg: Config, w: string, batch: seq<Held>, delivered: bool): State
    requires batch != []
  {
    s.(tables := Handle(s.tables, cfg, w, batch[0].intent, delivered, s.clock),
        workers := s.workers[w := Work(batch[1..])])
  }

  lemma DeliveryIsARun(s: State, cfg: Config, w: string, batch: seq<Held>) returns (steps: seq<Step>)
    requires w != "" && w in s.workers && s.workers[w] == Work(batch) && batch != []
    ensures StepsOf(steps, w) && Exec(s, cfg, steps) == Handled(s, cfg, w, batch, true)
  {
    var s1 := Stepped(s, cfg, w, Work(batch), NoFault);
    WorkerSteps(s, cfg, [], s, w, Work(batch), NoFault);
    assert s1.workers[w] == Finish(batch);
    steps := [] + [Worker(w, NoFault)];
    WorkerSteps(s, cfg, steps, s1, w, Finish(batch), NoFault);
    Overwrites(s.workers, w, Finish(batch), Work(batch[1..]));
    steps := steps + [Worker(w, NoFault)];
  }

  /** Where reading the attempt count leads. */
  function Counted(t: Tables, batch: seq<Held>): WorkerPc
    requires batch != []
  {
    var known := batch[0].intent.id in t.byId;
    Reschedule(batch, (if known then t.byId[batch[0].intent.id].attempts else 0) + 1, known)
  }

  lemma FailedSteps(s: State, cfg: Config, w: string, batch: seq<Held>)
    requires batch != []
    ensures Stepped(s, cfg, w, Work(batch), NoEffect) == s.(workers := s.workers[w := Failed(batch)])
    ensures Stepped(s, cfg, w, Failed(batch), NoFault) == s.(workers := s.workers[w := Counted(s.tables, batch)])
  {}

  /** The delivery fails and the attempt count is read. */
  lemma FailureIsARun(s: State, cfg: Config, w: string, batch: seq<Held>) returns (steps: seq<Step>)
    requires w != "" && w in s.workers && s.workers[w] == Work(batch) && batch != []
    ensures StepsOf(steps, w) && Exec(s, cfg, steps) == s.(workers := s.workers[w := Counted(s.tables, batch)])
  {
    var s1 := s.(workers := s.workers[w := Failed(batch)]);
    FailedSteps(s, cfg, w, batch);
    FailedSteps(s1, cfg, w, batch);
    WorkerSteps(s, cfg, [], s, w, Work(batch), NoEffect);
    steps := [] + [Worker(w, NoEffect)];
    WorkerSteps(s, cfg, steps, s1, w, Failed(batch), NoFault);
    Overwrites(s.workers, w, Failed(batch), Counted(s.tables, batch));
    steps := steps + [Worker(w, NoFault)];
  }

  lemma LastFailureStep(s: State, cfg: Config, w: string, batch: seq<Held>, attempts: int, known: bool)
    requires batch != [] && attempts >= cfg.maxAttempts && known == (batch[0].intent.id in s.tables.byId)
    requires attempts == (if known then s.tables.byId[batch[0].intent.id].attempts else 0) + 1
    ensures Stepped(s, cfg, w, Reschedule(batch, attempts, known), NoFault) == Handled(s, cfg, w, batch, false)
  {}

  /** The new index row is there, the by-id row waits for its update. */
  function Requeued(s: State, cfg: Config, w: string, batch: seq<Held>, attempts: int, known: bool): State
    requires batch != []
  {
    var dueAt := s.clock + Delay(cfg.baseDelay, cfg.maxDelay, attempts);
    s.(tables := Act(s.tables, Insert(batch[0].intent, dueAt, NoFault)),
       workers := s.workers[w := Requeue(batch, attempts, known, s.clock, dueAt)])
  }

  lemma RetrySteps(s: State, cfg: Config, w: string, batch: seq<Held>, attempts: int, known: bool)
    requires batch != [] && attempts < cfg.maxAttempts && known == (batch[0].intent.id in s.tables.byId)
    requires attempts == (if known then s.tables.byId[batch[0].intent.id].attempts else 0) + 1
    ensures var s1 := Requeued(s, cfg, w, batch, attempts, known);
            && Stepped(s, cfg, w, Reschedule(batch, attempts, known), NoFault) == s1
            && Stepped(s1, cfg, w, s1.workers[w], NoFault) == Handled(s, cfg, w, batch, false)
  {
    var s1 := Requeued(s, cfg, w, batch, attempts, known);
    Overwrites(s.workers, w, s1.workers[w], Work(batch[1..]));
  }

  /** The failure is recorded. */
  lemma RecordIsARun(s: State, cfg: Config, w: string, batch: seq<Held>, attempts: int, known: bool)
    returns (steps: seq<Step>)
    requires w != "" && w in s.workers && s.workers[w] == Reschedule(batch, attempts, known) && batch != []
    requires known == (batch[0].intent.id in s.tables.byId)
    requires attempts == (if known then s.tables.byId[batch[0].intent.id].attempts else 0) + 1
    ensures StepsOf(steps, w) && Exec(s, cfg, steps) == Handled(s, cfg, w, batch, false)
  {
    var pc := Reschedule(batch, attempts, known);
    WorkerSteps(s, cfg, [], s, w, pc, NoFault);
    steps := [] + [Worker(w, NoFault)];
    if attempts < cfg.maxAttempts {
      RetrySteps(s, cfg, w, batch, attempts, known);
      var s1 := Requeued(s, cfg, w, batch, attempts, known);
      WorkerSteps(s, cfg, steps, s1, w, s1.workers[w], NoFault);
      steps := steps + [Worker(w, NoFault)];
    } else {
      LastFailureStep(s, cfg, w, batch, attempts, known);
    }
  }

  lemma HandleIsARun(s: State, cfg: Config, w: string, batch: seq<Held>, delivered: bool) returns (steps: seq<Step>)
    requires w != "" && w in s.workers && s.workers[w] == Work(batch) && batch != []
    ensures StepsOf(steps, w) && Exec(s, cfg, steps) == Handled(s, cfg, w, batch, delivered)
  {
    if delivered {
      steps := DeliveryIsARun(s, cfg, w, batch);
    } else {
      var a := FailureIsARun(s, cfg, w, batch);
      var s1 := Exec(s, cfg, a);
      var pc := s1.workers[w];
      var b := RecordIsARun(s1, cfg, w, batch, pc.attempts, pc.known);
      ExecConcat(s, cfg, a, b);
      Overwrites(s.workers, w, pc, Work(batch[1..]));
      steps := a + b;
    }
  }

  lemma {:induction false} HandleAllIsARun(s: State, cfg: Config, w: string, batch: seq<Held>, delivered: Id -> bool)
    returns (steps: seq<Step>)
    requires w != "" && w in s.workers && s.workers[w] == Work(batch)
    ensures StepsOf(steps, w)
    ensures Exec(s, cfg, steps) ==
            s.(tables := HandleAll(s.tables, cfg, w, batch, delivered, s.clock), workers := s.workers[w := Work([])])
    decreases |batch|
  {
    if batch == [] {
      steps := [];
      assert s.workers[w := Work([])] == s.workers;
    } else {
      var a := HandleIsARun(s, cfg, w, batch, delivered(batch[0].intent.id));
      var s1 := Exec(s, cfg, a);
      var b := HandleAllIsARun(s1, cfg, w, batch[1..], delivered);
      ExecConcat(s, cfg, a, b);
      Overwrites(s.workers, w, Work(batch[1..]), Work([]));
      steps := a + b;
    }
  }

  lemma ClockMoves(s: State, cfg: Config, steps: seq<Step>, u: State, later: Time)
    requires u == Exec(s, cfg, steps) && u.clock <= later
    ensures Exec(s, cfg, steps + [Tick(later)]) == u.(clock := later)
  {
    ThenStep(s, cfg, steps, Tick(later));
  }

  ghost predicate SettleSteps(steps: seq<Step>, w: string, later: Time) {
    forall k :: 0 <= k < |steps| ==> (steps[k].Worker? && steps[k].w == w) || steps[k] == Tick(later)
  }

  lemma ScanThenSettle(s: State, cfg: Config, w: string, a: seq<Step>, t: Tables, batch: seq<Held>, later: Time,
        delivered: Id -> bool)
    returns (steps: seq<Step>)
    requires w != "" && OnlyBy(a, w) && s.clock <= later
    requires Exec(s, cfg, a) == s.(tables := t, workers := s.workers[w := Work(batch)])
    ensures SettleSteps(steps, w, later)
    ensures Exec(s, cfg, steps) == s.(clock := later, tables := HandleAll(t, cfg, w, batch, delivered, later),
                                      workers := s.workers[w := Work([])])
  {
    var s1 := Exec(s, cfg, a);
    ClockMoves(s, cfg, a, s1, later);
    var s2 := s1.(clock := later);
    var b := HandleAllIsARun(s2, cfg, w, batch, delivered);
    ExecConcat(s, cfg, a + [Tick(later)], b);
    Overwrites(s.workers, w, Work(batch), Work([]));
    steps := a + [Tick(later)] + b;
  }

  /** The whole process call is a run too: the scan at its clock reading, some time, and the settling of
      its batch, a failed delivery being a statement that failed. */
  lemma ProcessIsARun(s: State, cfg: Config, w: string, later: Time, delivered: Id -> bool)
    returns (steps: seq<Step>)
    requires cfg.Valid() && w != "" && PcOf(s, w) == Query(s.clock, 0, []) && s.clock <= later
    ensures SettleSteps(steps, w, later)
    ensures var r := ClaimDueNow(s.tables, w, cfg.batchSize, cfg.lease, s.clock);
            Exec(s, cfg, steps) == s.(clock := later, tables := HandleAll(r.0, cfg, w, r.1, delivered, later),
                                      workers := s.workers[w := Work([])])
  {
    var r := ClaimDueNow(s.tables, w, cfg.batchSize, cfg.lease, s.clock);
    var a := ClaimDueIsARun(s, cfg, w);
    steps := ScanThenSettle(s, cfg, w, a, r.0, r.1, later, delivered);
  }

  // ---------- the code's own form ----------

  /** The intents ClaimDue returns are those it holds. */
  ghost predicate Intents(result: seq<Intent>, held: seq<Held>) {
    |result| == |held| && forall k :: 0 <= k < |held| ==> result[k] == held[k].intent
  }

  /** The Cassandra session shared by Store, CassandraDeliverer and Worker. `log` only remembers
      which conditional updates applied. */
  class Store {
    var byId: map<Id, Row>
    var index: Index
    var inbox: Inbox
    ghost var log: Log

    constructor ()
      ensures Tables() == OutboxRuns.Tables(map[], map[], map[], [])
    {
      byId, index, inbox, log := map[], map[], map[], [];
    }

    ghost function Tables(): (t: OutboxRuns.Tables)
      reads this
    {
      OutboxRuns.Tables(byId, index, inbox, log)
    }

    /** MapScanCAS: run one conditional update and report whether it applied. */
    method Send(e: Event) returns (applied: bool)
      modifies this`byId, this`log
      ensures applied == Legal(old(byId), e)
      ensures Tables() == Act(old(Tables()), Update(e, NoFault))
    {
      applied := Legal(byId, e);
      if applied {
        byId := Effect(byId, e);
        log := log + [e];
      }
    }

    method AddIndexRow(intent: Intent, dueAt: Time)
      modifies this`index
      ensures Tables() == Act(old(Tables()), Insert(intent, dueAt, NoFault))
    {
      index := InsertIndex(index, intent, dueAt);
    }

    method Deliver(intent: Intent)
      modifies this`inbox
      ensures Tables() == Act(old(Tables()), Push(intent, NoFault))
    {
      inbox := Delivered(inbox, intent);
    }

    /** A first Enqueue stores the row and indexes it; a repeated one of a pending intent only
        indexes the existing row again; one of a settled intent changes nothing. */
    method Enqueue(intent: Intent, now: Time) returns (valid: bool)
      modifies this
      ensures valid <==> intent.id != "" && intent.body.userId != 0 && intent.body.kind != ""
                         && intent.body.createdAt != -62_135_596_800_000_000_000
      ensures !valid ==> Tables() == old(Tables())
      ensures valid && intent.id !in old(byId) ==>
                byId == old(byId)[intent.id := Row(intent.body, Pending, 0, now, "", 0)]
      ensures intent.id in old(byId) ==> byId == old(byId)
      ensures valid ==> Covered(Tables(), intent.id) && IndexGrows(old(Tables()), Tables())
      ensures valid && intent.id in old(byId) && old(byId)[intent.id].status != Pending ==> Tables() == old(Tables())
      ensures inbox == old(inbox)
    {
      valid := Acceptable(intent);
      if !valid { return; }
      var applied := Send(Enqueued(intent.id, intent.body, now));
      var dueAt := now;
      if !applied {
        if byId[intent.id].status != Pending { return; }
        dueAt := byId[intent.id].nextAttempt;
      }
      InsertGrows(Tables(), intent, dueAt, NoFault);
      AddIndexRow(intent, dueAt);
    }

    /** The inner loop of ClaimDue over the rows of one SELECT. */
    method ClaimSelected(rows: seq<Entry>, result0: seq<Intent>, ghost held0: seq<Held>, owner: string, lease: int,
        now: Time)
      returns (result: seq<Intent>, ghost held: seq<Held>)
      requires Intents(result0, held0)
      modifies this
      ensures (Tables(), held) == ClaimRows(old(Tables()), rows, held0, owner, now, lease)
      ensures Intents(result, held)
    {
      ghost var all := ClaimRows(Tables(), rows, held0, owner, now, lease);
      result, held := result0, held0;
      var i := 0;
      assert rows[0..] == rows;
      while i < |rows|
        invariant 0 <= i <= |rows|
        invariant Intents(result, held)
        invariant all == ClaimRows(Tables(), rows[i..], held, owner, now, lease)
      {
        var id := rows[i].id;
        assert rows[i..][0] == rows[i] && rows[i..][1..] == rows[i + 1..];
        if id in byId && Due(byId[id], now) {
          var intent := Intent(id, byId[id].body);
          ghost var h := Held(intent, |log|);
          var applied := Send(Claimed(id, owner, now, now + lease));
          if applied {
            result, held := result + [intent], held + [h];
          }
        }
        i := i + 1;
      }
    }

    method ClaimDue(owner: string, limit0: int, lease0: int, now: Time)
      returns (result: seq<Intent>, ghost held: seq<Held>)
      modifies this
      ensures (Tables(), held) == ClaimDueNow(old(Tables()), owner, if limit0 <= 0 then 50
              else limit0, if lease0 <= 0 then 30_000_000_000 else lease0, now)
      ensures Intents(result, held)
    {
      var limit: nat := if limit0 <= 0 then 50 else limit0;
      var lease := if lease0 <= 0 then 30 * SECOND else lease0;
      ghost var all := ClaimDueNow(Tables(), owner, limit, lease, now);
      result, held := [], [];
      var days := 0;
      while days <= 7 && |result| < limit
        invariant 0 <= days <= 8 && |held| <= limit && Intents(result, held)
        invariant all == ClaimDays(Tables(), held, owner, limit, lease, now, Bucket(now) - days)
        decreases 8 - days
      {
        var rows := Select(index, Bucket(now) - days, now, limit - |result|);
        result, held := ClaimSelected(rows, result, held, owner, lease, now);
        days := days + 1;
      }
    }

    method Complete(id: Id, owner: string)
      modifies this`byId, this`log
      ensures Tables() == Act(old(Tables()), Update(Completed(id, owner), NoFault))
    {
      var _ := Send(Completed(id, owner));
    }

    /** Worker.attempts: the stored count, or 0 when there is no row to read. */
    method Attempts(id: Id) returns (attempts: int)
      ensures attempts == if id in byId then byId[id].attempts else 0
    {
      attempts := if id in byId then byId[id].attempts else 0;
    }

    method Retry(intent: Intent, owner: string, attempts: int, known: bool, maxAttempts: int, baseDelay: int,
        maxDelay: int, now: Time)
      modifies this
      ensures Tables() ==
                if attempts >= maxAttempts then Act(old(Tables()), Update(Died(intent.id, owner, known), NoFault))
                else var dueAt := now + Delay(baseDelay, maxDelay, attempts);
                  Act(Act(old(Tables()), Insert(intent, dueAt, NoFault)),
                      Update(Retried(intent.id, owner, attempts, now, dueAt, known), NoFault))
    {
      if attempts >= maxAttempts {
        var _ := Send(Died(intent.id, owner, known));
        return;
      }
      var delay, _ := RetryDelay(baseDelay, maxDelay, attempts);
      AddIndexRow(intent, now + delay);
      var _ := Send(Retried(intent.id, owner, attempts, now, now + delay, known));
    }

    /** The body of the loop in Worker.process, with the deliverer's answer given. */
    method Settle(intent: Intent, w: string, cfg: Config, delivered: bool, later: Time)
      modifies this
      ensures Tables() == Handle(old(Tables()), cfg, w, intent, delivered, later)
    {
      if !delivered {
        var attempts := Attempts(intent.id);
        Retry(intent, w, attempts + 1, intent.id in byId, cfg.maxAttempts, cfg.baseDelay, cfg.maxDelay, later);
      } else {
        Deliver(intent);
        Complete(intent.id, w);
      }
    }

    /** Worker.process: claim a batch, then settle each intent in it. */
    method Process(w: string, cfg: Config, now: Time, later: Time, delivered: Id -> bool)
      requires cfg.Valid()
      modifies this
      ensures var r := ClaimDueNow(old(Tables()), w, cfg.batchSize, cfg.lease, now);
              Tables() == HandleAll(r.0, cfg, w, r.1, delivered, later)
    {
      var intents, held := ClaimDue(w, cfg.batchSize, cfg.lease, now);
      ghost var all := HandleAll(Tables(), cfg, w, held, delivered, later);
      var i := 0;
      assert held[0..] == held;
      while i < |intents|
        invariant 0 <= i <= |intents|
        invariant HandleAll(Tables(), cfg, w, held[i..], delivered, later) == all
      {
        assert held[i..][0] == held[i] && held[i..][1..] == held[i + 1..];
        Settle(intents[i], w, cfg, delivered(intents[i].id), later);
        i := i + 1;
      }
    }
  }

  lemma ClaimedAreHeld(t: Tables, rows: seq<Entry>, w: string, now: Time, lease: int, r: (Tables, seq<Held>))
    requires ClaimsExactly(t, rows, w, now, lease, r)
    ensures AllHeld(r.0.byId, w, r.1)
  {
    forall k | 0 <= k < |r.1| ensures Filed(r.0.byId, r.1[k].intent) && HeldBy(r.0.byId[r.1[k].intent.id], w) {
      assert Took(r.1, r.1[k].intent.id);
      assert Filed(t.byId, r.1[k].intent);
    }
  }

  lemma PassThenSettle(t: Tables, rows: seq<Entry>, cfg: Config, w: string, now: Time, r: (Tables, seq<Held>),
      delivered: Id -> bool, later: Time, id: Id)
    requires ClaimsExactly(t, rows, w, now, cfg.lease, r) && id in t.byId
    ensures var u := HandleAll(r.0, cfg, w, r.1, delivered, later);
            var taken := Claimable(t.byId, id, now) && Mentions(rows, id);
            && id in u.byId
            && u.byId[id] == (if taken then Outcome(t.byId[id], cfg, delivered(id), later) else t.byId[id])
            && (taken && u.byId[id].status == Pending ==> Covered(u, id))
  {
    ClaimedAreHeld(t, rows, w, now, cfg.lease, r);
    ProcessSettlesEachOnce(r.0, cfg, w, r.1, delivered, later, id);
    assert Took(r.1, id) <==> Claimable(t.byId, id, now) && Mentions(rows, id);
  }

  /** End to end: after one process call every intent that was claimable and read is settled by its
      own delivery outcome, still findable if it is to be retried, and no other row changed. */
  lemma ProcessOutcome(t: Tables, cfg: Config, w: string, now: Time, later: Time, delivered: Id -> bool, id: Id)
    requires cfg.Valid() && id in t.byId
    ensures var r := ClaimDueNow(t, w, cfg.batchSize, cfg.lease, now);
            var u := HandleAll(r.0, cfg, w, r.1, delivered, later);
            var taken := Claimable(t.byId, id, now) && Mentions(ScannedNow(t, w, cfg.batchSize, cfg.lease, now), id);
            && id in u.byId
            && u.byId[id] == (if taken then Outcome(t.byId[id], cfg, delivered(id), later) else t.byId[id])
            && (taken && u.byId[id].status == Pending ==> Covered(u, id))
  {
    var rows := ScannedNow(t, w, cfg.batchSize, cfg.lease, now);
    ClaimDueExact(t, w, cfg.batchSize, cfg.lease, now);
    PassThenSettle(t, rows, cfg, w, now, ClaimDueNow(t, w, cfg.batchSize, cfg.lease, now), delivered, later, id);
  }
}
