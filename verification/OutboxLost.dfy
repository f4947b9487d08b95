/** Intents that no scan can reach any more: pending for ever, in every continuation. */
module OutboxLost {
  import opened Basics
  import opened Outbox
  import opened OutboxRuns
  import opened OutboxTheorems
  import opened OutboxStore
  import opened OutboxRecovery

  lemma {:induction false} UpsertKeepsAhead(part: seq<Entry>, e: Entry, dueAt: Time, id: Id)
    ensures Ahead(part, dueAt, id) <= Ahead(Upsert(part, e), dueAt, id)
  {
    if part != [] {
      if Before(part[0], e) {
        UpsertKeepsAhead(part[1..], e, dueAt, id);
        assert Upsert(part, e)[1..] == Upsert(part[1..], e);
      } else {
        assert ([e] + part)[1..] == part && ([e] + part[1..])[1..] == part[1..];
      }
    }
  }

  // ---------- rows no scan can read ----------

  /** At least `limit` rows of any intents stand before the row in its bucket. */
  predicate Buried(t: Tables, limit: int, dueAt: Time, id: Id) {
    Ahead(Partition(t.index, Bucket(dueAt)), dueAt, id) >= limit
  }

  predicate Expired(dueAt: Time, now: Time) { Bucket(dueAt) < Bucket(now) - 7 }

  /** A row that no scan with this clock reading can read. */
  predicate Unreadable(t: Tables, limit: int, dueAt: Time, id: Id, now: Time) {
    now < dueAt || Expired(dueAt, now) || Buried(t, limit, dueAt, id)
  }

  ghost predicate RowsUnreadable(t: Tables, limit: int, id: Id, now: Time) {
    forall dueAt :: Indexed(t.index, dueAt, id) ==> Unreadable(t, limit, dueAt, id, now)
  }

  /** A scan with this clock reading could not claim the intent, or cannot find it. */
  ghost predicate Hopeless(t: Tables, limit: int, id: Id, now: Time) {
    Claimable(t.byId, id, now) ==> RowsUnreadable(t, limit, id, now)
  }

  ghost predicate HopelessFrom(t: Tables, limit: int, id: Id, clock: Time) {
    forall now :: clock <= now ==> Hopeless(t, limit, id, now)
  }

  lemma ActKeepsBuried(t: Tables, a: Action, limit: int, dueAt: Time, id: Id)
    requires Buried(t, limit, dueAt, id)
    ensures Buried(Act(t, a), limit, dueAt, id)
  {
    var day := Bucket(dueAt);
    if a.Insert? && a.fault != NoEffect && Bucket(a.dueAt) == day {
      UpsertKeepsAhead(Partition(t.index, day), Entry(a.dueAt, a.intent.id, a.intent.body), dueAt, id);
    }
  }

  /** A SELECT of a scan does not return unreadable rows. */
  lemma UnreadableIsNotSelected(t: Tables, limit: int, id: Id, now: Time, day: nat, n: nat)
    requires IndexRight(t.index) && RowsUnreadable(t, limit, id, now) && day <= 7 && n <= limit
    ensures !Mentions(Select(t.index, Bucket(now) - day, now, n), id)
  {
    var b := Bucket(now) - day;
    var part := Partition(t.index, b);
    SelectReads(t, now, b, n, id);
    if k: nat :| k < n && RowAt(part, now, k, id) {
      DueRowHasKey(part, now, k, id);
      assert Bucket(part[k].dueAt) == b;
      assert Indexed(t.index, part[k].dueAt, id);
    }
  }

  // ---------- a lost intent ----------

  /** The worker does not hold the intent and its scan cannot claim it: a row of it in hand is of no use
      at the scan's clock reading, and none that is can be read. */
  ghost predicate WorkerMisses(t: Tables, cfg: Config, id: Id, pc: WorkerPc) {
    && !Took(BatchOf(pc), id)
    && (pc.Query? || pc.Scan? || pc.Claim? ==> Hopeless(t, cfg.batchSize, id, pc.now))
    && (pc.Scan? || pc.Claim? ==> !Mentions(pc.rows, id) || !Claimable(t.byId, id, pc.now))
    && (pc.Claim? && pc.intent.id == id ==> id in t.byId && !Unleased(t.byId[id], pc.now))
  }

  ghost predicate SameId(pc: EnqueuerPc, id: Id) { pc.Link? && pc.intent.id == id }

  /** Row to be inserted by an enqueuer of the same intent: already there. */
  ghost predicate EnqueuerRepeats(t: Tables, id: Id, pc: EnqueuerPc) {
    SameId(pc, id) ==> Indexed(t.index, pc.dueAt, id)
  }

  /** The intent is pending and no scan, under way or to come, can claim it. */
  ghost predicate Lost(s: State, cfg: Config, id: Id) {
    && id in s.tables.byId && s.tables.byId[id].status == Pending && Covered(s.tables, id)
    && HopelessFrom(s.tables, cfg.batchSize, id, s.clock)
    && (forall w :: w in s.workers ==> WorkerMisses(s.tables, cfg, id, s.workers[w]))
    && (forall p :: p in s.enqueuers ==> EnqueuerRepeats(s.tables, id, s.enqueuers[p]))
  }

  /** The action does not change the row of the intent, nor add an index row of it. */
  ghost predicate LeavesAlone(t: Tables, a: Action, id: Id) {
    && (a.Update? ==> a.e.id != id || !Legal(t.byId, a.e))
    && (a.Insert? && a.intent.id == id ==> Indexed(t.index, a.dueAt, id))
  }

  lemma LeavesAloneKeeps(t: Tables, a: Action, id: Id)
    requires LeavesAlone(t, a, id) && id in t.byId && Covered(t, id)
    ensures id in Act(t, a).byId && Act(t, a).byId[id] == t.byId[id] && Covered(Act(t, a), id)
    ensures forall dueAt :: Indexed(Act(t, a).index, dueAt, id) <==> Indexed(t.index, dueAt, id)
  {
    forall dueAt ensures Indexed(Act(t, a).index, dueAt, id) <==> Indexed(t.index, dueAt, id) {
      if a.Insert? { InsertIndexes(t.index, a.intent, a.dueAt, dueAt, id); }
    }
  }

  lemma StaysHopeless(t: Tables, a: Action, limit: int, id: Id, now: Time)
    requires LeavesAlone(t, a, id) && id in t.byId && Covered(t, id) && Hopeless(t, limit, id, now)
    ensures Hopeless(Act(t, a), limit, id, now)
  {
    LeavesAloneKeeps(t, a, id);
    if Claimable(t.byId, id, now) {
      forall dueAt | Indexed(Act(t, a).index, dueAt, id) ensures Unreadable(Act(t, a), limit, dueAt, id, now) {
        assert Unreadable(t, limit, dueAt, id, now);
        if Buried(t, limit, dueAt, id) { ActKeepsBuried(t, a, limit, dueAt, id); }
      }
    }
  }

  lemma WorkerLeavesAlone(t: Tables, clock: Time, cfg: Config, w: string, pc: WorkerPc, fault: Fault, id: Id)
    requires WorkerMisses(t, cfg, id, pc)
    ensures LeavesAlone(t, WorkerAction(clock, cfg, w, pc, fault), id)
  {
    if BatchOf(pc) != [] { assert BatchOf(pc)[0].intent.id != id; }
  }

  lemma EnqueuerLeavesAlone(t: Tables, now: Time, pc: EnqueuerPc, fault: Fault, id: Id)
    requires EnqueuerRepeats(t, id, pc) && id in t.byId
    ensures LeavesAlone(t, EnqueuerAction(now, pc, fault), id)
  {}

  lemma OtherMisses(t: Tables, a: Action, cfg: Config, id: Id, pc: WorkerPc)
    requires LeavesAlone(t, a, id) && id in t.byId && Covered(t, id) && WorkerMisses(t, cfg, id, pc)
    ensures WorkerMisses(Act(t, a), cfg, id, pc)
  {
    LeavesAloneKeeps(t, a, id);
    if pc.Query? || pc.Scan? || pc.Claim? { StaysHopeless(t, a, cfg.batchSize, id, pc.now); }
  }

  lemma TailMisses(batch: seq<Held>, id: Id)
    requires batch != [] && !Took(batch, id)
    ensures !Took(batch[1..], id) && batch[0].intent.id != id
  {
    assert forall k :: 0 <= k < |batch[1..]| ==> batch[1..][k] == batch[k + 1];
  }

  lemma RowsTail(rows: seq<Entry>, id: Id)
    requires rows != []
    ensures Mentions(rows, id) <==> rows[0].id == id || Mentions(rows[1..], id)
  {
    MentionsSplit([rows[0]], rows[1..], id);
    assert [rows[0]] + rows[1..] == rows && [rows[0]][0] == rows[0];
  }

  lemma ScannerMisses(t: Tables, clock: Time, cfg: Config, pc: WorkerPc, fault: Fault, id: Id)
    requires cfg.Valid() && IndexRight(t.index) && WorkerMisses(t, cfg, id, pc)
    requires id in t.byId && Hopeless(t, cfg.batchSize, id, clock)
    requires pc.Idle? || pc.Query? || pc.Scan? || pc.Claim?
    ensures WorkerMisses(t, cfg, id, WorkerNext(t, clock, cfg, pc, fault))
  {
    match pc
    case Query(now, day, got) =>
      if day <= 7 && |got| < cfg.batchSize && Claimable(t.byId, id, now) {
        UnreadableIsNotSelected(t, cfg.batchSize, id, now, day, cfg.batchSize - |got|);
      }
    case Scan(_, _, rows, _) => if rows != [] { RowsTail(rows, id); }
    case Claim(_, _, _, got, intent) => TookSplit(got, [Held(intent, |t.log|)], id);
    case _ =>
  }

  lemma SettlerMisses(t: Tables, clock: Time, cfg: Config, pc: WorkerPc, fault: Fault, id: Id)
    requires WorkerMisses(t, cfg, id, pc) && !pc.Idle? && !pc.Query? && !pc.Scan? && !pc.Claim?
    ensures WorkerMisses(t, cfg, id, WorkerNext(t, clock, cfg, pc, fault))
  {
    if pc.batch != [] { TailMisses(pc.batch, id); }
  }

  lemma StepLeavesAlone(s: State, cfg: Config, step: Step, id: Id)
    requires Lost(s, cfg, id)
    ensures LeavesAlone(s.tables, StepAction(s, cfg, step), id)
  {
    match step
    case Worker(w, fault) => if w in s.workers {
      WorkerLeavesAlone(s.tables, s.clock, cfg, w, s.workers[w], fault, id);
    }
    case Enqueuer(p, fault) => if p in s.enqueuers {
      EnqueuerLeavesAlone(s.tables, s.clock, s.enqueuers[p], fault, id);
    }
    case _ =>
  }

  lemma WorkersKeepMissing(s: State, cfg: Config, step: Step, id: Id, w: string)
    requires cfg.Valid() && IndexRight(s.tables.index) && Lost(s, cfg, id) && w in Next(s, cfg, step).workers
    requires LeavesAlone(s.tables, StepAction(s, cfg, step), id)
    ensures WorkerMisses(Next(s, cfg, step).tables, cfg, id, Next(s, cfg, step).workers[w])
  {
    var a := StepAction(s, cfg, step);
    if step.Worker? && step.w == w {
      var pc := PcOf(s, w);
      assert WorkerMisses(s.tables, cfg, id, pc);
      if pc.Idle? || pc.Query? || pc.Scan? || pc.Claim? {
        ScannerMisses(s.tables, s.clock, cfg, pc, step.fault, id);
      } else {
        SettlerMisses(s.tables, s.clock, cfg, pc, step.fault, id);
      }
      OtherMisses(s.tables, a, cfg, id, WorkerNext(s.tables, s.clock, cfg, pc, step.fault));
    } else if !(step.WorkerCrash? && step.w == w) {
      OtherMisses(s.tables, a, cfg, id, s.workers[w]);
    }
  }

  lemma EnqueuersKeepRepeating(s: State, cfg: Config, step: Step, id: Id, p: nat)
    requires Lost(s, cfg, id) && p in Next(s, cfg, step).enqueuers
             && LeavesAlone(s.tables, StepAction(s, cfg, step), id)
    ensures EnqueuerRepeats(Next(s, cfg, step).tables, id, Next(s, cfg, step).enqueuers[p])
  {
    LeavesAloneKeeps(s.tables, StepAction(s, cfg, step), id);
    if p in s.enqueuers { assert EnqueuerRepeats(s.tables, id, s.enqueuers[p]); }
  }

  lemma RowStaysLost(s: State, cfg: Config, step: Step, id: Id)
    requires Lost(s, cfg, id) && LeavesAlone(s.tables, StepAction(s, cfg, step), id)
    ensures var s1 := Next(s, cfg, step);
            && id in s1.tables.byId && s1.tables.byId[id] == s.tables.byId[id] && Covered(s1.tables, id)
            && HopelessFrom(s1.tables, cfg.batchSize, id, s1.clock)
  {
    var s1, a := Next(s, cfg, step), StepAction(s, cfg, step);
    LeavesAloneKeeps(s.tables, a, id);
    forall now | s1.clock <= now ensures Hopeless(s1.tables, cfg.batchSize, id, now) {
      StaysHopeless(s.tables, a, cfg.batchSize, id, now);
    }
  }

  /** Some claim of the intent applied between the two logs. */
  ghost predicate ClaimedSince(log: Log, later: Log, id: Id) {
    exists k: nat :: |log| <= k && ClaimAt(later, k, id)
  }

  lemma StepKeepsLost(s: State, cfg: Config, step: Step, id: Id)
    requires cfg.Valid() && IndexRight(s.tables.index) && Lost(s, cfg, id)
    ensures Lost(Next(s, cfg, step), cfg, id) && Next(s, cfg, step).tables.byId[id] == s.tables.byId[id]
    ensures !ClaimedSince(s.tables.log, Next(s, cfg, step).tables.log, id)
  {
    var s1 := Next(s, cfg, step);
    StepLeavesAlone(s, cfg, step, id);
    RowStaysLost(s, cfg, step, id);
    forall w | w in s1.workers ensures WorkerMisses(s1.tables, cfg, id, s1.workers[w]) {
      WorkersKeepMissing(s, cfg, step, id, w);
    }
    forall p | p in s1.enqueuers ensures EnqueuerRepeats(s1.tables, id, s1.enqueuers[p]) {
      EnqueuersKeepRepeating(s, cfg, step, id, p);
    }
  }

  lemma UnclaimedSinceThen(a: Log, b: Log, c: Log, id: Id)
    requires b <= c && !ClaimedSince(a, b, id) && !ClaimedSince(b, c, id)
    ensures !ClaimedSince(a, c, id)
  {
    if k: nat :| |a| <= k && ClaimAt(c, k, id) { assert k < |b| ==> ClaimAt(b, k, id); }
  }

  /** A lost intent stays pending and unclaimed in every continuation, whatever else is enqueued,
      claimed, settled or enqueued again, and however the clock goes on. */
  lemma {:induction false} LostForever(s: State, cfg: Config, more: seq<Step>, id: Id)
    requires cfg.Valid() && IndexRight(s.tables.index) && Lost(s, cfg, id)
    ensures var s1 := Exec(s, cfg, more);
            && IndexRight(s1.tables.index) && Lost(s1, cfg, id) && s1.tables.byId[id] == s.tables.byId[id]
            && !ClaimedSince(s.tables.log, s1.tables.log, id)
    decreases |more|
  {
    RunsKeepIndex(s, cfg, more);
    if more != [] {
      var init, step := more[..|more| - 1], more[|more| - 1];
      var s1 := Exec(s, cfg, init);
      LostForever(s, cfg, init, id);
      StepKeepsLost(s1, cfg, step, id);
      ActGrows(s1.tables, StepAction(s1, cfg, step));
      UnclaimedSinceThen(s.tables.log, s1.tables.log, Exec(s, cfg, more).tables.log, id);
    }
  }

  // ---------- when an intent is lost ----------

  /** The worker has neither the intent nor a row of it in hand. */
  ghost predicate HandsFree(pc: WorkerPc, id: Id) {
    && !Took(BatchOf(pc), id)
    && (pc.Scan? || pc.Claim? ==> !Mentions(pc.rows, id))
    && (pc.Claim? ==> pc.intent.id != id)
  }

  /** The intent was enqueued, is pending, and nobody is at work on it; any other work may be going on. */
  ghost predicate Waiting(s: State, id: Id) {
    && id in s.finished && id in s.tables.byId && s.tables.byId[id].status == Pending
    && (forall w :: w in s.workers ==> HandsFree(s.workers[w], id))
    && (forall p :: p in s.enqueuers ==> !SameId(s.enqueuers[p], id))
  }

  predicate Scans(pc: WorkerPc) { pc.Query? || pc.Scan? || pc.Claim? }

  /** No scan with a clock reading from this one on can claim the intent, nor can one under way. */
  ghost predicate HopelessNow(s: State, cfg: Config, id: Id) {
    && HopelessFrom(s.tables, cfg.batchSize, id, s.clock)
    && (forall w :: w in s.workers && Scans(s.workers[w]) ==> Hopeless(s.tables, cfg.batchSize, id, s.workers[w].now))
  }

  lemma HopelessIsLost(cfg: Config, steps: seq<Step>, more: seq<Step>, id: Id)
    requires cfg.Valid() && Waiting(Exec(Init(), cfg, steps), id) && HopelessNow(Exec(Init(), cfg, steps), cfg, id)
    ensures var t, u := Exec(Init(), cfg, steps).tables, Exec(Init(), cfg, steps + more).tables;
            id in u.byId && u.byId[id] == t.byId[id] && !ClaimedSince(t.log, u.log, id)
  {
    var s := Exec(Init(), cfg, steps);
    FinishedIntentsAreIndexed(cfg, steps, id);
    RunsKeepIndex(Init(), cfg, steps);
    ExecConcat(Init(), cfg, steps, more);
    forall w | w in s.workers ensures WorkerMisses(s.tables, cfg, id, s.workers[w]) {
      assert HandsFree(s.workers[w], id);
    }
    LostForever(s, cfg, more, id);
  }

  /** LIMIT hides live intents for good: a pending intent each of whose index rows stands behind at
      least batchSize other rows of its own bucket, whatever has become of their intents, is claimed in
      no continuation, because index rows are never removed. */
  lemma LimitHidesLiveOnes(cfg: Config, steps: seq<Step>, more: seq<Step>, id: Id)
    requires cfg.Valid() && Waiting(Exec(Init(), cfg, steps), id)
    requires var t := Exec(Init(), cfg, steps).tables;
             forall dueAt :: Indexed(t.index, dueAt, id) ==> Buried(t, cfg.batchSize, dueAt, id)
    ensures var t, u := Exec(Init(), cfg, steps).tables, Exec(Init(), cfg, steps + more).tables;
            && id in u.byId && u.byId[id] == t.byId[id] && !ClaimedSince(t.log, u.log, id)
            && (forall owner: string, now :: !Took(ClaimDueNow(t, owner, cfg.batchSize, cfg.lease, now).1, id))
  {
    HopelessIsLost(cfg, steps, more, id);
    var t := Exec(Init(), cfg, steps).tables;
    forall owner: string, now ensures !Took(ClaimDueNow(t, owner, cfg.batchSize, cfg.lease, now).1, id) {
      ClaimedExactlyWhen(cfg, steps, id, owner, now);
    }
  }

  /** The first clock reading from now on at which the intent is due and unleased and its row is due. */
  function FirstChance(s: State, dueAt: Time, id: Id): Time
    requires id in s.tables.byId
  {
    var row := s.tables.byId[id];
    Max(Max(s.clock, dueAt), Max(row.nextAttempt, row.leaseUntil + 1))
  }

  /** The row is behind the LIMIT, or will have left the eight buckets when it could first be used. */
  predicate OutOfReach(s: State, cfg: Config, dueAt: Time, id: Id)
    requires id in s.tables.byId
  {
    Buried(s.tables, cfg.batchSize, dueAt, id) || Expired(dueAt, FirstChance(s, dueAt, id))
  }

  ghost predicate AllOutOfReach(s: State, cfg: Config, id: Id)
    requires id in s.tables.byId
  {
    forall dueAt :: Indexed(s.tables.index, dueAt, id) ==> OutOfReach(s, cfg, dueAt, id)
  }

  lemma OutOfReachIsHopeless(s: State, cfg: Config, id: Id)
    requires id in s.tables.byId && AllOutOfReach(s, cfg, id)
    ensures HopelessFrom(s.tables, cfg.batchSize, id, s.clock)
  {
    forall now, dueAt | s.clock <= now && Claimable(s.tables.byId, id, now) && Indexed(s.tables.index, dueAt, id)
      ensures Unreadable(s.tables, cfg.batchSize, dueAt, id, now)
    {
      assert OutOfReach(s, cfg, dueAt, id);
      if dueAt <= now { BucketGrows(FirstChance(s, dueAt, id), now); }
    }
    forall now | s.clock <= now ensures Hopeless(s.tables, cfg.batchSize, id, now) {}
  }

  /** An intent all of whose rows are out of reach is claimed in no continuation, not even after it is
      enqueued again, if no scan under way can claim it. */
  lemma OutOfReachIntentsAreLost(cfg: Config, steps: seq<Step>, more: seq<Step>, id: Id)
    requires cfg.Valid() && Waiting(Exec(Init(), cfg, steps), id)
    requires AllOutOfReach(Exec(Init(), cfg, steps), cfg, id)
    requires var s := Exec(Init(), cfg, steps);
             forall w :: w in s.workers && Scans(s.workers[w]) ==>
               Hopeless(s.tables, cfg.batchSize, id, s.workers[w].now)
    ensures var t, u := Exec(Init(), cfg, steps).tables, Exec(Init(), cfg, steps + more).tables;
            id in u.byId && u.byId[id] == t.byId[id] && !ClaimedSince(t.log, u.log, id)
  {
    OutOfReachIsHopeless(Exec(Init(), cfg, steps), cfg, id);
    HopelessIsLost(cfg, steps, more, id);
  }
}
