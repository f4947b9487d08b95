/** How far back a scan looks, in clock time: to the midnight (UTC) seven days before today's. All times
    are nanoseconds. */
module OutboxWindow {
  import opened Outbox
  import opened OutboxRuns
  import opened OutboxTheorems
  import opened OutboxStore
  import opened OutboxRecovery

  /** The row is pending, its due time has come and its last lease is over. */
  ghost predicate Ready(t: Tables, id: Id, now: Time) {
    && id in t.byId && t.byId[id].status == Pending
    && t.byId[id].nextAttempt <= now && t.byId[id].leaseUntil < now
  }

  /** Midnight seven days ago. */
  function Horizon(now: Time): Time { now - now % 86_400_000_000_000 - 7 * 86_400_000_000_000 }

  lemma HorizonIsTheOldestBucket(dueAt: Time, now: Time)
    ensures Bucket(now) - 7 <= Bucket(dueAt) <==> Horizon(now) <= dueAt
  {
    DaysOf(now);
    DaysOf(dueAt);
  }

  lemma DaysOf(time: Time)
    ensures Bucket(time) * 86_400_000_000_000 == time - time % 86_400_000_000_000
  {}

  /** When LIMIT cuts nothing, one undisturbed ClaimDue claims exactly the ready intents with an index row
      due between the horizon and now. */
  lemma ClaimedInClockTime(cfg: Config, steps: seq<Step>, id: Id, owner: string, now: Time)
    requires cfg.Valid() && Uncut(Exec(Init(), cfg, steps).tables, owner, cfg.batchSize, cfg.lease, now)
    ensures var t := Exec(Init(), cfg, steps).tables;
            Took(ClaimDueNow(t, owner, cfg.batchSize, cfg.lease, now).1, id) <==>
              Ready(t, id, now) && exists dueAt :: Indexed(t.index, dueAt, id) && Horizon(now) <= dueAt <= now
  {
    var t := Exec(Init(), cfg, steps).tables;
    ClaimedExactlyWhen(cfg, steps, id, owner, now);
    RunsKeepIndex(Init(), cfg, steps);
    if dueAt :| Reachable(t, owner, cfg.batchSize, cfg.lease, now, dueAt, id) {
      HorizonIsTheOldestBucket(dueAt, now);
    }
    if dueAt :| Indexed(t.index, dueAt, id) && Horizon(now) <= dueAt <= now {
      HorizonIsTheOldestBucket(dueAt, now);
      BucketGrows(dueAt, now);
      DuePosition(Partition(t.index, Bucket(dueAt)), now, dueAt, id);
      assert Reachable(t, owner, cfg.batchSize, cfg.lease, now, dueAt, id);
    }
  }

  /** So an intent whose enqueue finished is claimed at any time up to seven days after it became due, once
      its last lease is over, wherever anyone stopped or crashed. */
  lemma SevenDaysAreEnough(cfg: Config, steps: seq<Step>, id: Id, owner: string, now: Time)
    requires cfg.Valid() && Uncut(Exec(Init(), cfg, steps).tables, owner, cfg.batchSize, cfg.lease, now)
    requires id in Exec(Init(), cfg, steps).finished
    requires var t := Exec(Init(), cfg, steps).tables;
             Ready(t, id, now) && now - 7 * 86_400_000_000_000 <= t.byId[id].nextAttempt
    ensures var t := Exec(Init(), cfg, steps).tables;
            Took(ClaimDueNow(t, owner, cfg.batchSize, cfg.lease, now).1, id)
  {
    FinishedIntentsAreIndexed(cfg, steps, id);
    ClaimedInClockTime(cfg, steps, id, owner, now);
    assert Horizon(now) <= now - 7 * 86_400_000_000_000;
  }

  /** And with or without LIMIT, an intent all of whose index rows were due more than eight days ago is not
      claimed. */
  lemma EightDaysAreTooMany(cfg: Config, steps: seq<Step>, id: Id, owner: string, now: Time)
    requires cfg.Valid()
    requires var t := Exec(Init(), cfg, steps).tables;
             forall dueAt :: Indexed(t.index, dueAt, id) ==> dueAt < now - 8 * 86_400_000_000_000
    ensures var t := Exec(Init(), cfg, steps).tables;
            !Took(ClaimDueNow(t, owner, cfg.batchSize, cfg.lease, now).1, id)
  {
    var t := Exec(Init(), cfg, steps).tables;
    ClaimedExactlyWhen(cfg, steps, id, owner, now);
    if dueAt :| Reachable(t, owner, cfg.batchSize, cfg.lease, now, dueAt, id) {
      HorizonIsTheOldestBucket(dueAt, now);
      assert dueAt < Horizon(now);
    }
  }
}
