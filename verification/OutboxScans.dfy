/** What a scan that takes time can still rely on: when its batch is distinct, and when one of its
    claims comes before the intent is due again. */
module OutboxScans {
  import opened Basics
  import opened Outbox
  import opened OutboxRuns
  import opened OutboxTheorems
  import opened OutboxStore

  predicate Scanning(pc: WorkerPc) { pc.Query? || pc.Scan? || pc.Claim? }

  /** A statement of a scan comes at most d after the scan read the clock. */
  predicate InTime(s: State, d: int, step: Step) {
    step.Worker? && step.w in s.workers && Scanning(s.workers[step.w]) ==> s.clock <= s.workers[step.w].now + d
  }

  /** No scan of the run takes longer than d; scans may stop anywhere. */
  predicate OnTime(s: State, cfg: Config, d: int, steps: seq<Step>)
    decreases |steps|
  {
    steps == [] || (OnTime(s, cfg, d, steps[..|steps| - 1])
                   && InTime(Exec(s, cfg, steps[..|steps| - 1]), d, steps[|steps| - 1]))
  }

  // ---------- scans within their lease ----------

  /** The intent is still leased to the worker since its scan, or the lease has run out. */
  ghost predicate HeldSince(t: Tables, clock: Time, cfg: Config, w: string, now: Time, id: Id) {
    id in t.byId && (clock > now + cfg.lease || (HeldBy(t.byId[id], w) && t.byId[id].leaseUntil == now + cfg.lease))
  }

  ghost predicate GotHeld(t: Tables, clock: Time, cfg: Config, w: string, now: Time, got: seq<Held>) {
    forall k :: 0 <= k < |got| ==> HeldSince(t, clock, cfg, w, now, got[k].intent.id)
  }

  ghost predicate ScanRight(t: Tables, clock: Time, cfg: Config, w: string, pc: WorkerPc) {
    && DistinctIds(BatchOf(pc))
    && (Scanning(pc) ==> pc.now <= clock && GotHeld(t, clock, cfg, w, pc.now, pc.got))
  }

  ghost predicate ScansRight(s: State, cfg: Config) {
    forall w :: w in s.workers ==> w != "" && ScanRight(s.tables, s.clock, cfg, w, s.workers[w])
  }

  /** Somebody else's statement: a claim stamped no later than the clock, or a settlement of its own. */
  ghost predicate ByOther(a: Action, clock: Time, w: string) {
    a.Update? ==> a.e.Enqueued? || (a.e.owner != w && (a.e.Claimed? ==> a.e.from <= clock))
  }

  lemma OthersKeepHeld(t: Tables, clock: Time, cfg: Config, w: string, now: Time, id: Id, a: Action)
    requires HeldSince(t, clock, cfg, w, now, id) && ByOther(a, clock, w)
    ensures HeldSince(Act(t, a), clock, cfg, w, now, id)
  {}

  lemma OthersKeepScan(t: Tables, clock: Time, cfg: Config, w: string, pc: WorkerPc, a: Action)
    requires ScanRight(t, clock, cfg, w, pc) && ByOther(a, clock, w)
    ensures ScanRight(Act(t, a), clock, cfg, w, pc)
  {
    if Scanning(pc) {
      forall k | 0 <= k < |pc.got| ensures HeldSince(Act(t, a), clock, cfg, w, pc.now, pc.got[k].intent.id) {
        OthersKeepHeld(t, clock, cfg, w, pc.now, pc.got[k].intent.id, a);
      }
    }
  }

  /** The claim CAS of a scan still within its lease takes only an intent it does not hold. */
  lemma ClaimKeepsScan(t: Tables, clock: Time, cfg: Config, w: string, pc: WorkerPc, fault: Fault)
    requires cfg.Valid() && pc.Claim? && ScanRight(t, clock, cfg, w, pc) && clock <= pc.now + cfg.lease
    ensures ScanRight(Act(t, WorkerAction(clock, cfg, w, pc, fault)), clock, cfg, w,
            WorkerNext(t, clock, cfg, pc, fault))
  {
    var u, pc1, id := Act(t, WorkerAction(clock, cfg, w, pc, fault)), WorkerNext(t, clock, cfg, pc, fault),
        pc.intent.id;
    if pc1.Scan? {
      forall k | 0 <= k < |pc.got| ensures HeldSince(u, clock, cfg, w, pc.now, pc.got[k].intent.id) {
        assert HeldSince(t, clock, cfg, w, pc.now, pc.got[k].intent.id);
      }
      if id in t.byId && Unleased(t.byId[id], pc.now) {
        forall k | 0 <= k < |pc.got| ensures pc.got[k].intent.id != id {
          assert HeldSince(t, clock, cfg, w, pc.now, pc.got[k].intent.id);
        }
      }
    }
  }

  lemma OwnStepKeepsScan(t: Tables, clock: Time, cfg: Config, w: string, pc: WorkerPc, fault: Fault)
    requires cfg.Valid() && ScanRight(t, clock, cfg, w, pc) && (Scanning(pc) ==> clock <= pc.now + cfg.lease)
    ensures ScanRight(Act(t, WorkerAction(clock, cfg, w, pc, fault)), clock, cfg, w,
            WorkerNext(t, clock, cfg, pc, fault))
  {
    if pc.Claim? { ClaimKeepsScan(t, clock, cfg, w, pc, fault); }
  }

  lemma LaterKeepsScan(t: Tables, clock: Time, later: Time, cfg: Config, w: string, pc: WorkerPc)
    requires ScanRight(t, clock, cfg, w, pc) && clock <= later
    ensures ScanRight(t, later, cfg, w, pc)
  {
    if Scanning(pc) {
      forall k | 0 <= k < |pc.got| ensures HeldSince(t, later, cfg, w, pc.now, pc.got[k].intent.id) {
        assert HeldSince(t, clock, cfg, w, pc.now, pc.got[k].intent.id);
      }
    }
  }

  lemma StepKeepsScans(s: State, cfg: Config, d: int, step: Step, w: string)
    requires cfg.Valid() && ScansRight(s, cfg) && d <= cfg.lease && InTime(s, d, step)
             && w in Next(s, cfg, step).workers
    ensures w != "" && ScanRight(Next(s, cfg, step).tables, Next(s, cfg, step).clock, cfg, w,
            Next(s, cfg, step).workers[w])
  {
    var a := StepAction(s, cfg, step);
    if step.Worker? && step.w == w {
      assert ScanRight(s.tables, s.clock, cfg, w, PcOf(s, w));
      OwnStepKeepsScan(s.tables, s.clock, cfg, w, PcOf(s, w), step.fault);
    } else if !(step.WorkerCrash? && step.w == w) {
      if step.Worker? && step.w in s.workers { assert ScanRight(s.tables, s.clock, cfg, step.w, s.workers[step.w]); }
      OthersKeepScan(s.tables, s.clock, cfg, w, s.workers[w], a);
      LaterKeepsScan(Act(s.tables, a), s.clock, Next(s, cfg, step).clock, cfg, w, s.workers[w]);
    }
  }

  lemma {:induction false} RunsKeepScans(cfg: Config, d: int, steps: seq<Step>)
    requires cfg.Valid() && d <= cfg.lease && OnTime(Init(), cfg, d, steps)
    ensures ScansRight(Exec(Init(), cfg, steps), cfg)
    decreases |steps|
  {
    if steps != [] {
      var s, step := Exec(Init(), cfg, steps[..|steps| - 1]), steps[|steps| - 1];
      RunsKeepScans(cfg, d, steps[..|steps| - 1]);
      forall w | w in Next(s, cfg, step).workers
        ensures w != "" && ScanRight(Next(s, cfg, step).tables, Next(s, cfg, step).clock, cfg, w,
                Next(s, cfg, step).workers[w])
      {
        StepKeepsScans(s, cfg, d, step, w);
      }
    }
  }

  /** Scans that finish within their own lease return distinct intents, in every run. */
  lemma ScansWithinTheLeaseAreDistinct(cfg: Config, d: int, steps: seq<Step>, w: string)
    requires cfg.Valid() && d <= cfg.lease && OnTime(Init(), cfg, d, steps)
    ensures DistinctIds(BatchOf(PcOf(Exec(Init(), cfg, steps), w)))
  {
    RunsKeepScans(cfg, d, steps);
  }

  // ---------- claims before the due time ----------

  /** The last retry of the intent among the updates m..n-1. */
  ghost function LastRetry(log: Log, m: nat, n: nat, id: Id): (r: Option<nat>)
    requires n <= |log|
    ensures r.Some? ==> m <= r.value < n && RetryAt(log, r.value, id) && NoRelease(log, r.value, n, id)
    ensures r.None? ==> forall k: nat {:trigger RetryAt(log, k, id)} :: m <= k < n ==> !RetryAt(log, k, id)
    decreases n
  {
    if n <= m then None else if RetryAt(log, n - 1, id) then Some(n - 1) else LastRetry(log, m, n - 1, id)
  }

  lemma DueTimeStep(byId: map<Id, Row>, e: Event, id: Id)
    requires Legal(byId, e) && id in byId
    ensures id in Effect(byId, e)
    ensures Effect(byId, e)[id].nextAttempt == if e.Retried? && e.id == id then e.dueAt else byId[id].nextAttempt
  {}

  /** The due time of a row changes only by retries, to the last one's. */
  lemma {:induction false} DueTimeIsTheLastRetrys(log: Log, m: nat, n: nat, id: Id)
    requires Applied(log) && m <= n <= |log| && id in Replay(log[..m])
    ensures id in Replay(log[..n])
    ensures var r := LastRetry(log, m, n, id);
            Replay(log[..n])[id].nextAttempt == if r.Some? then log[r.value].dueAt else Replay(log[..m])[id].nextAttempt
    decreases n
  {
    if n > m {
      DueTimeIsTheLastRetrys(log, m, n - 1, id);
      ReplayStep(log, n - 1);
      assert AppliedAt(log, n - 1);
      DueTimeStep(Replay(log[..n - 1]), log[n - 1], id);
    }
  }

  /** The worker takes no step and does not crash. */
  ghost predicate Stalls(steps: seq<Step>, w: string) {
    forall i :: 0 <= i < |steps| ==> !(steps[i].Worker? && steps[i].w == w)
                                     && !(steps[i].WorkerCrash? && steps[i].w == w)
  }

  lemma {:induction false} StalledWorkerStays(s: State, cfg: Config, wait: seq<Step>, w: string)
    requires w in s.workers && Stalls(wait, w)
    ensures w in Exec(s, cfg, wait).workers && Exec(s, cfg, wait).workers[w] == s.workers[w]
    decreases |wait|
  {
    if wait != [] { StalledWorkerStays(s, cfg, wait[..|wait| - 1], w); }
  }

  /** Between a worker's read of a due row and its claim of that row anything may happen. A claim that
      applies comes before the intent is due again exactly when a retry applied in between and the
      last one rescheduled the intent past the scan's clock reading. */
  lemma EarlyClaimExactlyWhen(cfg: Config, steps: seq<Step>, wait: seq<Step>, w: string)
    requires cfg.Valid() && w != "" && Stalls(wait, w)
    requires var s := Exec(Init(), cfg, steps);
             PcOf(s, w).Scan? && WorkerNext(s.tables, s.clock, cfg, PcOf(s, w), NoFault).Claim?
    requires var s := Exec(Init(), cfg, steps);
             var pc := WorkerNext(s.tables, s.clock, cfg, PcOf(s, w), NoFault);
             Legal(Exec(Next(s, cfg, Worker(w, NoFault)), cfg, wait).tables.byId,
                 Claimed(pc.intent.id, w, pc.now, pc.now + cfg.lease))
    ensures var s := Exec(Init(), cfg, steps);
            var u := Exec(Next(s, cfg, Worker(w, NoFault)), cfg, wait);
            && w in u.workers && u.workers[w] == WorkerNext(s.tables, s.clock, cfg, PcOf(s, w), NoFault)
            && var pc := u.workers[w];
               (pc.now < u.tables.byId[pc.intent.id].nextAttempt <==>
                  var k := LastRetry(u.tables.log, |s.tables.log|, |u.tables.log|, pc.intent.id);
                  k.Some? && u.tables.log[k.value].dueAt > pc.now)
  {
    var s := Exec(Init(), cfg, steps);
    var go := [Worker(w, NoFault)];
    assert go[..0] == [];
    var s1 := Next(s, cfg, Worker(w, NoFault));
    assert Exec(s, cfg, go) == s1;
    var u := Exec(s1, cfg, wait);
    StalledWorkerStays(s1, cfg, wait, w);
    ExecConcat(Init(), cfg, steps, go);
    ExecConcat(Init(), cfg, steps + go, wait);
    RunsKeepInv(cfg, steps + go + wait);
    RunsKeepInv(cfg, steps);
    RunGrows(s1, cfg, wait);
    var m, n, id := |s.tables.log|, |u.tables.log|, s1.workers[w].intent.id;
    assert u.tables.log[..m] == s.tables.log && u.tables.log[..n] == u.tables.log;
    DueTimeIsTheLastRetrys(u.tables.log, m, n, id);
  }
}
