/** Exactly which waiting intents are lost: the others are claimed by scans that start when they
    first can be. */
module OutboxFate {
  import opened Basics
  import opened Outbox
  import opened OutboxRuns
  import opened OutboxTheorems
  import opened OutboxStore
  import opened OutboxRecovery
  import opened OutboxLost

  // ---------- the claims of one scan ----------

  /** The held intents from position m on were claimed after the first log. */
  ghost predicate ClaimedAfter(log: Log, later: Log, held: seq<Held>, m: nat) {
    && log <= later
    && forall k :: m <= k < |held| ==> |log| <= held[k].at && ClaimAt(later, held[k].at, held[k].intent.id)
  }

  lemma {:induction false} RowClaimsAreLogged(log: Log, t: Tables, rows: seq<Entry>, got: seq<Held>, m: nat,
      owner: string, now: Time, lease: int)
    requires ClaimedAfter(log, t.log, got, m)
    ensures var r := ClaimRows(t, rows, got, owner, now, lease); ClaimedAfter(log, r.0.log, r.1, m)
    decreases |rows|
  {
    if rows != [] {
      var id := rows[0].id;
      if Claimable(t.byId, id, now) {
        var u := Act(t, Update(Claimed(id, owner, now, now + lease), NoFault));
        var more := got + [Held(Intent(id, t.byId[id].body), |t.log|)];
        assert u.log == t.log + [Claimed(id, owner, now, now + lease)];
        RowClaimsAreLogged(log, u, rows[1..], more, m, owner, now, lease);
      } else {
        RowClaimsAreLogged(log, t, rows[1..], got, m, owner, now, lease);
      }
    }
  }

  lemma {:induction false} DayClaimsAreLogged(log: Log, t: Tables, got: seq<Held>, owner: string, limit: nat,
      lease: int, now: Time, bucket: int)
    requires |got| <= limit && ClaimedAfter(log, t.log, got, 0)
    ensures var r := ClaimDays(t, got, owner, limit, lease, now, bucket); ClaimedAfter(log, r.0.log, r.1, 0)
    decreases bucket - Bucket(now) + 8
  {
    if bucket >= Bucket(now) - 7 && |got| < limit {
      var rows := DayRows(t, now, bucket, limit - |got|);
      var r := ClaimRows(t, rows, got, owner, now, lease);
      RowClaimsAreLogged(log, t, rows, got, 0, owner, now, lease);
      DayClaimsAreLogged(log, r.0, r.1, owner, limit, lease, now, bucket - 1);
    }
  }

  lemma TakenIsClaimed(t: Tables, owner: string, limit: nat, lease: int, now: Time, id: Id)
    requires Took(ClaimDueNow(t, owner, limit, lease, now).1, id)
    ensures ClaimedSince(t.log, ClaimDueNow(t, owner, limit, lease, now).0.log, id)
  {
    var none := [];
    DayClaimsAreLogged(t.log, t, none, owner, limit, lease, now, Bucket(now));
  }

  /** What the scan claims from newer buckets it claims. */
  lemma {:induction false} NewerClaimsCount(t: Tables, got: seq<Held>, owner: string, limit: nat, lease: int,
      now: Time, bucket: int, b: int)
    requires lease > 0 && |got| <= limit && Bucket(now) - 7 <= b
    ensures |Newer(t, got, owner, limit, lease, now, bucket, b).1|
            <= |ClaimDays(t, got, owner, limit, lease, now, bucket).1|
    decreases bucket - b
  {
    if bucket > b && |got| < limit {
      var r := ClaimRows(t, DayRows(t, now, bucket, limit - |got|), got, owner, now, lease);
      NewerClaimsCount(r.0, r.1, owner, limit, lease, now, bucket - 1, b);
    } else {
      ClaimDaysExact(t, got, owner, limit, lease, now, bucket);
    }
  }

  // ---------- scans by workers that were not there before ----------

  lemma {:induction false} LongerName(names: set<string>) returns (w: string)
    ensures w != "" && forall n :: n in names ==> |n| < |w|
    decreases names
  {
    if names == {} {
      w := "w";
    } else {
      var x :| x in names;
      w := LongerName(names - {x});
      if |w| <= |x| { w := x + "w"; }
    }
  }

  /** Only statements that work, of workers the state does not know. */
  ghost predicate FreshWork(s: State, more: seq<Step>) {
    forall k :: 0 <= k < |more| ==> more[k].Worker? && more[k].fault == NoFault && more[k].w !in s.workers
  }

  /** A new worker starts and scans once. */
  lemma NewWorkerScans(s: State, cfg: Config) returns (more: seq<Step>, w: string)
    requires cfg.Valid()
    ensures w != "" && w !in s.workers && FreshWork(s, more)
    ensures var r := ClaimDueNow(s.tables, w, cfg.batchSize, cfg.lease, s.clock);
            Exec(s, cfg, more) == s.(tables := r.0, workers := s.workers[w := Work(r.1)])
  {
    w := LongerName(s.workers.Keys);
    var go := [Worker(w, NoFault)];
    assert go[..0] == [];
    var pc := Query(s.clock, 0, []);
    var s1 := s.(workers := s.workers[w := pc]);
    assert Exec(s, cfg, go) == s1;
    var scan := ClaimDueIsARun(s1, cfg, w);
    ExecConcat(s, cfg, go, scan);
    var r := ClaimDueNow(s.tables, w, cfg.batchSize, cfg.lease, s.clock);
    Overwrites(s.workers, w, pc, Work(r.1));
    more := go + scan;
  }

  /** The row can be read now by a scan that finds nothing to claim in newer buckets. */
  ghost predicate InReach(s: State, cfg: Config, dueAt: Time, id: Id) {
    && Claimable(s.tables.byId, id, s.clock) && Indexed(s.tables.index, dueAt, id) && dueAt <= s.clock
    && !Buried(s.tables, cfg.batchSize, dueAt, id) && !Expired(dueAt, s.clock)
  }

  function ClaimableIds(t: Tables, now: Time): set<Id> { set id | id in t.byId && Claimable(t.byId, id, now) }

  /** A scan that misses a row in reach leases another intent instead, so fewer stand in the way. */
  lemma MissMakesProgress(cfg: Config, steps: seq<Step>, id: Id, dueAt: Time, w: string)
    requires cfg.Valid() && InReach(Exec(Init(), cfg, steps), cfg, dueAt, id)
    requires var s := Exec(Init(), cfg, steps);
             !Took(ClaimDueNow(s.tables, w, cfg.batchSize, cfg.lease, s.clock).1, id)
    ensures var s := Exec(Init(), cfg, steps);
            var t := ClaimDueNow(s.tables, w, cfg.batchSize, cfg.lease, s.clock).0;
            && ClaimableIds(t, s.clock) < ClaimableIds(s.tables, s.clock)
            && Claimable(t.byId, id, s.clock) && t.index == s.tables.index
  {
    var s := Exec(Init(), cfg, steps);
    var r := ClaimDueNow(s.tables, w, cfg.batchSize, cfg.lease, s.clock);
    ClaimedExactlyWhen(cfg, steps, id, w, s.clock);
    assert !Reachable(s.tables, w, cfg.batchSize, cfg.lease, s.clock, dueAt, id);
    NewerClaimsCount(s.tables, [], w, cfg.batchSize, cfg.lease, s.clock, Bucket(s.clock), Bucket(dueAt));
    ClaimDueExact(s.tables, w, cfg.batchSize, cfg.lease, s.clock);
    var other := r.1[0].intent.id;
    assert Took(r.1, other);
    assert other in ClaimableIds(s.tables, s.clock) && other !in ClaimableIds(r.0, s.clock);
  }

  lemma ClaimedInBetween(a: Log, b: Log, c: Log, id: Id)
    requires a <= b && ClaimedSince(b, c, id)
    ensures ClaimedSince(a, c, id)
  {}

  /** Scans by new workers claim the intent, each scan that misses it leaving one intent less to claim. */
  lemma {:induction false} ScansClaim(cfg: Config, steps: seq<Step>, s: State, id: Id, dueAt: Time, left: set<Id>)
    returns (more: seq<Step>)
    requires cfg.Valid() && s == Exec(Init(), cfg, steps) && InReach(s, cfg, dueAt, id)
    requires left == ClaimableIds(s.tables, s.clock)
    ensures FreshWork(s, more) && ClaimedSince(s.tables.log, Exec(s, cfg, more).tables.log, id)
    decreases left
  {
    var scan, w := NewWorkerScans(s, cfg);
    var r := ClaimDueNow(s.tables, w, cfg.batchSize, cfg.lease, s.clock);
    if Took(r.1, id) {
      more := scan;
      TakenIsClaimed(s.tables, w, cfg.batchSize, cfg.lease, s.clock, id);
    } else {
      MissMakesProgress(cfg, steps, id, dueAt, w);
      var s1 := Exec(s, cfg, scan);
      ExecConcat(Init(), cfg, steps, scan);
      var rest := ScansClaim(cfg, steps + scan, s1, id, dueAt, ClaimableIds(r.0, s.clock));
      more := scan + rest;
      ExecConcat(s, cfg, scan, rest);
      RunGrows(s, cfg, scan);
      ClaimedInBetween(s.tables.log, s1.tables.log, Exec(s, cfg, more).tables.log, id);
    }
  }

  // ---------- the exact condition ----------

  /** A row that is not out of reach is used: wait for its first chance, then scan. */
  lemma RowInReachIsUsed(cfg: Config, steps: seq<Step>, id: Id, dueAt: Time) returns (more: seq<Step>)
    requires cfg.Valid() && Waiting(Exec(Init(), cfg, steps), id)
    requires var s := Exec(Init(), cfg, steps);
             Indexed(s.tables.index, dueAt, id) && !OutOfReach(s, cfg, dueAt, id)
    ensures more != [] && more[0].Tick? && FreshWork(Exec(Init(), cfg, steps), more[1..])
    ensures ClaimedSince(Exec(Init(), cfg, steps).tables.log, Exec(Init(), cfg, steps + more).tables.log, id)
  {
    var s := Exec(Init(), cfg, steps);
    var wait := [Tick(FirstChance(s, dueAt, id))];
    ThenStep(Init(), cfg, steps, wait[0]);
    var s1 := Exec(Init(), cfg, steps + wait);
    var rest := ScansClaim(cfg, steps + wait, s1, id, dueAt, ClaimableIds(s1.tables, s1.clock));
    more := wait + rest;
    ExecConcat(Init(), cfg, steps + wait, rest);
    assert steps + wait + rest == steps + more;
  }

  ghost predicate NeverClaimed(cfg: Config, steps: seq<Step>, id: Id) {
    forall more :: !ClaimedSince(Exec(Init(), cfg, steps).tables.log, Exec(Init(), cfg, steps + more).tables.log, id)
  }

  /** After any run, with nobody at work on the intent and no scan under way: it is claimed in no
      continuation exactly when each of its index rows stands behind at least batchSize others of its
      bucket, or will have left the eight buckets at the first clock reading at which row and intent are
      due and its last lease is over. */
  lemma LostExactlyWhen(cfg: Config, steps: seq<Step>, id: Id)
    requires cfg.Valid() && Waiting(Exec(Init(), cfg, steps), id)
    requires forall w :: w in Exec(Init(), cfg, steps).workers ==> !Scans(Exec(Init(), cfg, steps).workers[w])
    ensures NeverClaimed(cfg, steps, id) <==> AllOutOfReach(Exec(Init(), cfg, steps), cfg, id)
  {
    var s := Exec(Init(), cfg, steps);
    if AllOutOfReach(s, cfg, id) {
      forall more ensures !ClaimedSince(s.tables.log, Exec(Init(), cfg, steps + more).tables.log, id) {
        OutOfReachIntentsAreLost(cfg, steps, more, id);
      }
    }
    if dueAt :| Indexed(s.tables.index, dueAt, id) && !OutOfReach(s, cfg, dueAt, id) {
      var more := RowInReachIsUsed(cfg, steps, id, dueAt);
    }
  }
}
