/** What holds in every run of the outbox: any number of enqueuers and workers, any interleaving
    of their statements, any failures and crashes. */
module OutboxTheorems {
  import opened Basics
  import opened Outbox
  import opened OutboxRuns

  lemma {:induction false} RunGrows(s: State, cfg: Config, more: seq<Step>)
    ensures Grows(s.tables, Exec(s, cfg, more).tables)
    decreases |more|
  {
    if more != [] {
      var s1 := Exec(s, cfg, more[..|more| - 1]);
      RunGrows(s, cfg, more[..|more| - 1]);
      ActGrows(s1.tables, StepAction(s1, cfg, more[|more| - 1]));
    }
  }

  lemma {:induction false} ExecConcat(s: State, cfg: Config, a: seq<Step>, b: seq<Step>)
    ensures Exec(s, cfg, a + b) == Exec(Exec(s, cfg, a), cfg, b)
    decreases |b|
  {
    if b == [] {
      assert a + b == a;
    } else {
      assert (a + b)[..|a + b| - 1] == a + b[..|b| - 1];
      ExecConcat(s, cfg, a, b[..|b| - 1]);
    }
  }

  /** The stamped leases [from, from + lease] of two claims on one intent are disjoint and ordered
      unless a retry released the intent between them. */
  lemma LeasesNeverOverlap(cfg: Config, steps: seq<Step>, i: nat, j: nat, id: Id)
    requires cfg.Valid() && i < j
    requires var log := Exec(Init(), cfg, steps).tables.log;
             ClaimAt(log, i, id) && ClaimAt(log, j, id) && NoRelease(log, i, j, id)
    ensures var log := Exec(Init(), cfg, steps).tables.log;
            log[i].until == log[i].from + cfg.lease < log[j].from == log[j].until - cfg.lease
  {
    RunsKeepInv(cfg, steps);
    var t := Exec(Init(), cfg, steps).tables;
    assert EventRight(t, cfg, i) && EventRight(t, cfg, j);
    LeasesDisjoint(t.log, i, j, id);
  }

  /** The intent whose by-id row the worker's next statement wants to settle. */
  function Settling(cfg: Config, pc: WorkerPc): Option<Id> {
    match pc
    case Finish(batch) => if batch == [] then None else Some(batch[0].intent.id)
    case Reschedule(batch, attempts, _) => if batch == [] || attempts < cfg.maxAttempts then None
        else Some(batch[0].intent.id)
    case Requeue(batch, _, _, _, _) => if batch == [] then None else Some(batch[0].intent.id)
    case _ => None
  }

  /** A Complete or Retry whose claim was superseded by another worker changes no by-id row. */
  lemma SupersededWorkerChangesNothing(cfg: Config, steps: seq<Step>, i: nat, w: string, fault: Fault)
    requires cfg.Valid() && w != ""
    requires var s := Exec(Init(), cfg, steps);
             Settling(cfg, PcOf(s, w)).Some? &&
             LastClaim(s.tables.log, i, Settling(cfg, PcOf(s, w)).value) && s.tables.log[i].owner != w
    ensures var s := Exec(Init(), cfg, steps);
            Next(s, cfg, Worker(w, fault)).tables.byId == s.tables.byId
  {
    RunsKeepInv(cfg, steps);
    var s := Exec(Init(), cfg, steps);
    SupersededAction(s.tables, s.clock, cfg, i, w, PcOf(s, w), fault);
  }

  lemma SupersededAction(t: Tables, clock: Time, cfg: Config, i: nat, w: string, pc: WorkerPc, fault: Fault)
    requires Logged(t) && w != "" && Settling(cfg, pc).Some? && LastClaim(t.log, i, Settling(cfg, pc).value)
             && t.log[i].owner != w
    ensures Act(t, WorkerAction(clock, cfg, w, pc, fault)).byId == t.byId
  {
    SupersededIsHarmless(t.log, i, Settling(cfg, pc).value, w, WorkerAction(clock, cfg, w, pc, fault).e);
  }

  function BatchOf(pc: WorkerPc): seq<Held> {
    match pc
    case Idle => []
    case Query(_, _, got) => got
    case Scan(_, _, _, got) => got
    case Claim(_, _, _, got, _) => got
    case Work(batch) => batch
    case Finish(batch) => batch
    case Failed(batch) => batch
    case Reschedule(batch, _, _) => batch
    case Requeue(batch, _, _, _, _) => batch
  }

  /** A ClaimDue batch never exceeds the limit, and it holds an intent twice only if some worker's
      retry released that intent between the two claims. */
  lemma BatchesAreBoundedAndDistinct(cfg: Config, steps: seq<Step>, w: string)
    requires cfg.Valid()
    ensures var s := Exec(Init(), cfg, steps);
            var batch := BatchOf(PcOf(s, w));
            && |batch| <= cfg.batchSize
            && (forall a, b :: 0 <= a < b < |batch| && batch[a].intent.id == batch[b].intent.id ==>
                  !NoRelease(s.tables.log, batch[a].at, batch[b].at, batch[a].intent.id))
  {
    RunsKeepInv(cfg, steps);
    var s := Exec(Init(), cfg, steps);
    PcRight(s, cfg, w);
    var batch := BatchOf(PcOf(s, w));
    assert BatchRight(s.tables, cfg, w, batch);
    forall a, b | 0 <= a < b < |batch| && batch[a].intent.id == batch[b].intent.id
      ensures !NoRelease(s.tables.log, batch[a].at, batch[b].at, batch[a].intent.id)
    {
      assert HeldRight(s.tables, w, batch[a]) && HeldRight(s.tables, w, batch[b]);
      if NoRelease(s.tables.log, batch[a].at, batch[b].at, batch[a].intent.id) {
        LeasesDisjoint(s.tables.log, batch[a].at, batch[b].at, batch[a].intent.id);
      }
    }
  }

  /** Complete and dead-letter rows never change again. */
  lemma SettledRowsNeverChange(cfg: Config, steps: seq<Step>, more: seq<Step>, id: Id)
    requires cfg.Valid() && Settled(Exec(Init(), cfg, steps).tables.byId, id)
    ensures id in Exec(Init(), cfg, steps + more).tables.byId
    ensures Exec(Init(), cfg, steps + more).tables.byId[id] == Exec(Init(), cfg, steps).tables.byId[id]
  {
    var s := Exec(Init(), cfg, steps);
    ExecConcat(Init(), cfg, steps, more);
    RunsKeepInv(cfg, steps);
    RunsKeepInv(cfg, steps + more);
    RunGrows(s, cfg, more);
    var log := Exec(Init(), cfg, steps + more).tables.log;
    assert log[..|s.tables.log|] == s.tables.log;
    SettledForever(log, |s.tables.log|, id);
  }

  /** A complete intent was delivered with exactly the contents it was enqueued with, and however
      often an intent is redelivered, its notification has a single row. */
  lemma CompleteMeansDeliveredOnce(cfg: Config, steps: seq<Step>)
    requires cfg.Valid()
    ensures var t := Exec(Init(), cfg, steps).tables;
            && (forall i :: 0 <= i < |t.log| && t.log[i].Enqueued? ==>
                  t.log[i].id in t.byId
                  && (t.byId[t.log[i].id].status == Complete ==> HasNote(t.inbox, Intent(t.log[i].id, t.log[i].body)))
                  && (forall k :: k in t.inbox && k.id == t.log[i].id ==>
                        k == KeyOf(Intent(k.id, t.log[i].body)) && HasNote(t.inbox, Intent(k.id, t.log[i].body))))
            && (forall k, l :: k in t.inbox && l in t.inbox && k.id == l.id ==> k == l)
  {
    RunsKeepInv(cfg, steps);
    var t := Exec(Init(), cfg, steps).tables;
    forall i | 0 <= i < |t.log| && t.log[i].Enqueued?
      ensures t.log[i].id in t.byId && t.byId[t.log[i].id].body == t.log[i].body
    {
      RowHoldsEnqueuedBody(t.log, i);
    }
  }

  /** A recorded failure whose status read succeeded raises attempts by exactly one, moves the due
      time to the clock reading plus min(base * 2^(n-1), max), and releases the lease. */
  lemma FailureRaisesAttemptsByOne(cfg: Config, steps: seq<Step>, w: string, fault: Fault)
    requires cfg.Valid() && w != "" && fault != NoEffect
    requires var s := Exec(Init(), cfg, steps);
             var pc := PcOf(s, w);
             pc.Requeue? && pc.known && pc.batch != [] && pc.batch[0].intent.id in s.tables.byId
                 && HeldBy(s.tables.byId[pc.batch[0].intent.id], w)
    ensures var s := Exec(Init(), cfg, steps);
            var pc := PcOf(s, w);
            var id := pc.batch[0].intent.id;
            var row, after := s.tables.byId[id], Next(s, cfg, Worker(w, fault)).tables.byId[id];
            && after == row.(attempts := row.attempts + 1, leaseOwner := "", leaseUntil := 0,
                             nextAttempt := pc.at + Delay(cfg.baseDelay, cfg.maxDelay, row.attempts + 1))
            && cfg.maxAttempts - after.attempts == cfg.maxAttempts - row.attempts - 1 >= 1
  {
    RunsKeepInv(cfg, steps);
    var s := Exec(Init(), cfg, steps);
    PcRight(s, cfg, w);
    RetryEffect(s.tables, s.clock, cfg, w, PcOf(s, w), fault);
  }

  lemma RetryEffect(t: Tables, clock: Time, cfg: Config, w: string, pc: WorkerPc, fault: Fault)
    requires pc.Requeue? && pc.known && WorkerRight(t, cfg, w, pc) && fault != NoEffect
    requires HeldBy(t.byId[pc.batch[0].intent.id], w)
    ensures var id := pc.batch[0].intent.id;
            var row := t.byId[id];
            && row.attempts + 1 == pc.attempts < cfg.maxAttempts
            && Act(t, WorkerAction(clock, cfg, w, pc, fault)).byId ==
                 t.byId[id := row.(attempts := pc.attempts, nextAttempt := pc.dueAt, leaseOwner := "", leaseUntil := 0)]
  {}

  ghost predicate AllReadsWorked(log: Log) {
    forall i :: 0 <= i < |log| && (log[i].Retried? || log[i].Died?) ==> log[i].known
  }

  /** In every run: the attempt count is the number of recorded retries from the last one on whose status
      read failed; it stays below maxAttempts, and an intent dies exactly at its maxAttempts-th counted
      failure. If all status reads succeed, every retry counts. */
  lemma RetriesAreCountedAndBounded(cfg: Config, steps: seq<Step>, id: Id)
    requires cfg.Valid() && id in Exec(Init(), cfg, steps).tables.byId
    ensures var t := Exec(Init(), cfg, steps).tables;
            && t.byId[id].attempts == Remembered(t.log, id) < cfg.maxAttempts
            && (forall i :: 0 <= i < |t.log| && t.log[i].Died? ==> DiedInTurn(t.log, cfg, i))
            && (AllReadsWorked(t.log) ==> t.byId[id].attempts == Retries(t.log, id))
  {
    RunsKeepInv(cfg, steps);
    var t := Exec(Init(), cfg, steps).tables;
    CountingLog(t, cfg);
    AttemptsCountRetries(t.log, id);
    forall i | 0 <= i < |t.log| && t.log[i].Died? ensures DiedInTurn(t.log, cfg, i) {
      DiesAtTheLastAttempt(t, cfg, i);
    }
    if AllReadsWorked(t.log) { NothingForgotten(t.log, id); }
  }

  /** The failure that ended the intent was the maxAttempts-th counted one. */
  ghost predicate DiedInTurn(log: Log, cfg: Config, i: nat)
    requires i < |log| && log[i].Died?
  {
    && (if log[i].known then Remembered(log[..i], log[i].id) else 0) + 1 == cfg.maxAttempts
    && (AllReadsWorked(log) ==> Retries(log[..i], log[i].id) == cfg.maxAttempts - 1)
  }

  lemma CountingLog(t: Tables, cfg: Config)
    requires EventsRight(t, cfg)
    ensures Counting(t.log)
  {
    forall i | 0 <= i < |t.log| && t.log[i].Retried?
      ensures t.log[i].id in Replay(t.log[..i])
      ensures t.log[i].attempts == if t.log[i].known then Replay(t.log[..i])[t.log[i].id].attempts + 1 else 1
    {
      assert EventRight(t, cfg, i);
    }
  }

  lemma DiesAtTheLastAttempt(t: Tables, cfg: Config, i: nat)
    requires cfg.Valid() && TablesRight(t, cfg) && i < |t.log| && t.log[i].Died?
    ensures DiedInTurn(t.log, cfg, i)
  {
    CountingLog(t, cfg);
    AppliedPrefix(t.log, i);
    assert Counting(t.log[..i]) by {
      forall k | 0 <= k < i ensures t.log[..i][..k] == t.log[..k] {}
    }
    assert EventRight(t, cfg, i);
    AttemptsCountRetries(t.log[..i], t.log[i].id);
    AttemptsBelowMax(t, cfg, i, t.log[i].id);
    if AllReadsWorked(t.log) { NothingForgotten(t.log[..i], t.log[i].id); }
  }

  lemma {:induction false} AttemptsBelowMax(t: Tables, cfg: Config, i: nat, id: Id)
    requires cfg.Valid() && i <= |t.log| && (forall k :: 0 <= k < |t.log| ==> EventRight(t, cfg, k))
    requires id in Replay(t.log[..i])
    ensures Replay(t.log[..i])[id].attempts < cfg.maxAttempts
    decreases i
  {
    if i > 0 {
      ReplayStep(t.log, i - 1);
      assert EventRight(t, cfg, i - 1);
      if id in Replay(t.log[..i - 1]) { AttemptsBelowMax(t, cfg, i - 1, id); }
    }
  }

  /** Wherever workers and enqueuers stopped or crashed, every pending intent some Enqueue call
      returned nil for has an index row at exactly its next attempt time. */
  lemma FinishedIntentsAreIndexed(cfg: Config, steps: seq<Step>, id: Id)
    requires cfg.Valid() && id in Exec(Init(), cfg, steps).finished
    ensures Covered(Exec(Init(), cfg, steps).tables, id)
  {
    RunsKeepInv(cfg, steps);
  }

  // ---------- read notifications ----------

  /** The step delivers a notification under this key. */
  predicate Delivers(s: State, cfg: Config, step: Step, key: NoteKey) {
    var a := StepAction(s, cfg, step);
    a.Push? && a.fault != NoEffect && KeyOf(a.intent) == key
  }

  lemma ReadFlagStep(s: State, cfg: Config, step: Step, key: NoteKey)
    requires key in s.tables.inbox
    ensures var inbox := Next(s, cfg, step).tables.inbox;
            && key in inbox
            && (inbox[key].read <==>
                  !Delivers(s, cfg, step, key) && (s.tables.inbox[key].read || step == MarkRead(key)))
  {}

  predicate DeliversAt(s: State, cfg: Config, more: seq<Step>, j: nat, key: NoteKey)
    requires j < |more|
  {
    Delivers(Exec(s, cfg, more[..j]), cfg, more[j], key)
  }

  /** No delivery under the key from step i of the run on. */
  ghost predicate Undelivered(s: State, cfg: Config, more: seq<Step>, i: nat, key: NoteKey) {
    forall j: nat :: i <= j < |more| ==> !DeliversAt(s, cfg, more, j, key)
  }

  /** Marked read by step i and not delivered since. */
  ghost predicate ReadSince(s: State, cfg: Config, more: seq<Step>, i: nat, key: NoteKey) {
    i < |more| && more[i] == MarkRead(key) && Undelivered(s, cfg, more, i + 1, key)
  }

  lemma SameDelivery(s: State, cfg: Config, more: seq<Step>, n: nat, j: nat, key: NoteKey)
    requires j < n <= |more|
    ensures DeliversAt(s, cfg, more[..n], j, key) <==> DeliversAt(s, cfg, more, j, key)
  {
    assert more[..n][..j] == more[..j];
  }

  lemma UndeliveredGrows(s: State, cfg: Config, more: seq<Step>, n: nat, i: nat, key: NoteKey)
    requires n == |more| - 1 && i < |more|
    ensures Undelivered(s, cfg, more, i, key) <==>
              Undelivered(s, cfg, more[..n], i, key) && !DeliversAt(s, cfg, more, n, key)
  {
    forall j: nat | j < n ensures DeliversAt(s, cfg, more[..n], j, key) <==> DeliversAt(s, cfg, more, j, key) {
      SameDelivery(s, cfg, more, n, j, key);
    }
  }

  ghost predicate MarkedSince(s: State, cfg: Config, more: seq<Step>, key: NoteKey) {
    exists i: nat :: ReadSince(s, cfg, more, i, key)
  }

  lemma ReadSinceGrows(s: State, cfg: Config, more: seq<Step>, i: nat, key: NoteKey)
    requires more != [] && i < |more| - 1
    ensures var n := |more| - 1;
            ReadSince(s, cfg, more, i, key) <==>
              ReadSince(s, cfg, more[..n], i, key) && !DeliversAt(s, cfg, more, n, key)
  {
    UndeliveredGrows(s, cfg, more, |more| - 1, i + 1, key);
  }

  lemma MarkedSinceGrows(s: State, cfg: Config, more: seq<Step>, key: NoteKey)
    requires more != []
    ensures var n := |more| - 1;
            MarkedSince(s, cfg, more, key) <==>
              more[n] == MarkRead(key)
              || (MarkedSince(s, cfg, more[..n], key) && !DeliversAt(s, cfg, more, n, key))
  {
    var n := |more| - 1;
    if i: nat :| ReadSince(s, cfg, more, i, key) {
      if i < n { ReadSinceGrows(s, cfg, more, i, key); }
    }
    if more[n] == MarkRead(key) { assert ReadSince(s, cfg, more, n, key); }
    if i: nat :| ReadSince(s, cfg, more[..n], i, key) { ReadSinceGrows(s, cfg, more, i, key); }
  }

  /** A delivered notification is read exactly if it was marked read, before or in the run, and its intent
      was not delivered since: every redelivery makes it unread again. */
  lemma {:induction false} ReadExactlyWhen(s: State, cfg: Config, more: seq<Step>, key: NoteKey)
    requires key in s.tables.inbox
    ensures key in Exec(s, cfg, more).tables.inbox
    ensures Exec(s, cfg, more).tables.inbox[key].read <==>
              (s.tables.inbox[key].read && Undelivered(s, cfg, more, 0, key)) || MarkedSince(s, cfg, more, key)
    decreases |more|
  {
    if more != [] {
      var n := |more| - 1;
      ReadExactlyWhen(s, cfg, more[..n], key);
      ReadFlagStep(Exec(s, cfg, more[..n]), cfg, more[n], key);
      UndeliveredGrows(s, cfg, more, n, 0, key);
      MarkedSinceGrows(s, cfg, more, key);
    }
  }
}
