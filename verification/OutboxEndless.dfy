/** What a failing status read costs: the count starts over, so an intent can be retried for ever. */
module OutboxEndless {
  import opened Outbox
  import opened OutboxRuns
  import opened OutboxTheorems
  import opened OutboxScans
  import opened OutboxAnomaly

  lemma {:induction false} RetriesGrow(log: Log, more: Log, id: Id)
    requires log <= more
    ensures Retries(log, id) <= Retries(more, id)
    ensures (exists k: nat :: |log| <= k && RetryAt(more, k, id)) ==> Retries(log, id) < Retries(more, id)
    decreases |more|
  {
    if |log| < |more| {
      var n := |more| - 1;
      RetriesGrow(log, more[..n], id);
      if k: nat :| |log| <= k && RetryAt(more, k, id) { assert k < n ==> RetryAt(more[..n], k, id); }
    } else {
      assert more == log;
    }
  }

  /** A due time moves only by a retry. */
  lemma MovedByARetry(cfg: Config, d: int, s: State, u: State, id: Id)
    requires cfg.Valid() && Leads(cfg, d, Init(), s) && Leads(cfg, d, s, u)
             && id in s.tables.byId && id in u.tables.byId
    requires s.tables.byId[id].nextAttempt != u.tables.byId[id].nextAttempt
    ensures Retries(s.tables.log, id) < Retries(u.tables.log, id)
  {
    var a :| OnTime(Init(), cfg, d, a) && Exec(Init(), cfg, a) == s;
    var b :| OnTime(s, cfg, d, b) && Exec(s, cfg, b) == u;
    ExecConcat(Init(), cfg, a, b);
    RunsKeepInv(cfg, a);
    RunsKeepInv(cfg, a + b);
    RunGrows(s, cfg, b);
    var log, m := u.tables.log, |s.tables.log|;
    assert log[..m] == s.tables.log && log[..|log|] == log;
    DueTimeIsTheLastRetrys(log, m, |log|, id);
    var k := LastRetry(log, m, |log|, id);
    RetriesGrow(s.tables.log, log, id);
  }

  function Name(n: nat): string { seq(n + 1, _ => 'w') }

  /** The intent is pending and due now after at least n retries, and its count says at most 1. */
  ghost predicate RetriedOften(s: State, row: Row, n: nat) {
    && Sole(s.tables, row) && row.nextAttempt == s.clock && row.leaseUntil < s.clock && 0 <= row.attempts <= 1
    && Indexed(s.tables.index, s.clock, "n") && (forall w :: w in s.workers ==> |w| <= n) && s.clock > 0
    && Retries(s.tables.log, "n") >= n
  }

  lemma OneMoreRetry(cfg: Config, s: State, row: Row, n: nat) returns (u: State, row': Row)
    requires cfg.Valid() && cfg.maxAttempts >= 2 && Leads(cfg, 0, Init(), s) && RetriedOften(s, row, n)
    ensures Leads(cfg, 0, s, u) && RetriedOften(u, row', n + 1)
  {
    DelayGrows(cfg.baseDelay, cfg.maxDelay, 1);
    var dueAt := s.clock + FirstDelay(cfg);
    var s1 := OtherReleases(cfg, 0, s, row, Name(n), dueAt);
    row' := Released(row, dueAt);
    MovedByARetry(cfg, 0, s, s1, "n");
    u := s1.(clock := dueAt);
    Wait(cfg, 0, s1, dueAt);
    Join(cfg, 0, s, s1, u);
  }

  lemma {:induction false} RetriesRunOn(cfg: Config, n: nat) returns (s: State, row: Row)
    requires cfg.Valid() && cfg.maxAttempts >= 2
    ensures Leads(cfg, 0, Init(), s) && RetriedOften(s, row, n)
  {
    if n == 0 {
      s := Enqueueing(cfg, 0, 1);
      row := OutboxAnomaly.NewRow(1);
    } else {
      var s0, row0 := RetriesRunOn(cfg, n - 1);
      s, row := OneMoreRetry(cfg, s0, row0, n - 1);
      Join(cfg, 0, Init(), s0, s);
    }
  }

  /** For every configuration with two attempts or more and every n: a run with failing status reads in
      which an intent is retried n times or more and is still pending with a count of at most 1, however
      small maxAttempts is. */
  lemma MisreadsRetryForEver(cfg: Config, n: nat) returns (steps: seq<Step>)
    requires cfg.Valid() && cfg.maxAttempts >= 2
    ensures var t := Exec(Init(), cfg, steps).tables;
            && Retries(t.log, "n") >= n
            && "n" in t.byId && t.byId["n"].status == Pending && t.byId["n"].attempts <= 1
  {
    var s, row := RetriesRunOn(cfg, n);
    steps :| OnTime(Init(), cfg, 0, steps) && Exec(Init(), cfg, steps) == s;
  }
}
