/** Which rows a ClaimDue scan reads, exactly, and so which intents it recovers and which it can
    never reach again. */
module OutboxRecovery {
  import opened Text
  import opened Outbox
  import opened OutboxRuns
  import opened OutboxTheorems
  import opened OutboxStore

  // ---------- the index of every run ----------

  ghost predicate InDay(part: seq<Entry>, day: int) { forall k :: 0 <= k < |part| ==> Bucket(part[k].dueAt) == day }

  /** Every partition is in clustering order, with one row per key, and holds rows of its own day. */
  ghost predicate IndexRight(index: Index) {
    forall day :: day in index ==> Clustered(index[day]) && InDay(index[day], day)
  }

  lemma InsertKeepsIndex(index: Index, intent: Intent, dueAt: Time)
    requires IndexRight(index)
    ensures IndexRight(InsertIndex(index, intent, dueAt))
  {
    UpsertClustered(Partition(index, Bucket(dueAt)), Entry(dueAt, intent.id, intent.body));
  }

  /** In every run the partitions stay in clustering order. */
  lemma {:induction false} RunsKeepIndex(s: State, cfg: Config, steps: seq<Step>)
    requires IndexRight(s.tables.index)
    ensures IndexRight(Exec(s, cfg, steps).tables.index)
    decreases |steps|
  {
    if steps != [] {
      var s1 := Exec(s, cfg, steps[..|steps| - 1]);
      RunsKeepIndex(s, cfg, steps[..|steps| - 1]);
      var a := StepAction(s1, cfg, steps[|steps| - 1]);
      if a.Insert? { InsertKeepsIndex(s1.tables.index, a.intent, a.dueAt); }
    }
  }

  // ---------- positions ----------

  predicate Precedes(e: Entry, dueAt: Time, id: Id) { e.dueAt < dueAt || (e.dueAt == dueAt && Less(e.id, id)) }

  /** How many rows of the partition stand before the key (dueAt, id). */
  function Ahead(part: seq<Entry>, dueAt: Time, id: Id): nat {
    if part == [] then 0 else (if Precedes(part[0], dueAt, id) then 1 else 0) + Ahead(part[1..], dueAt, id)
  }

  lemma {:induction false} NoneAhead(part: seq<Entry>, dueAt: Time, id: Id)
    requires forall k :: 0 <= k < |part| ==> !Precedes(part[k], dueAt, id)
    ensures Ahead(part, dueAt, id) == 0
  {
    if part != [] { NoneAhead(part[1..], dueAt, id); }
  }

  lemma NotAfter(a: Entry, b: Entry)
    requires Before(a, b)
    ensures !Precedes(b, a.dueAt, a.id)
  {
    if a.dueAt == b.dueAt && Less(b.id, a.id) {
      LessTransitive(a.id, b.id, a.id);
      LessIrreflexive(a.id);
    }
  }

  /** In clustering order a row's position is the number of rows before its key. */
  lemma {:induction false} PositionIsAhead(part: seq<Entry>, k: nat)
    requires Clustered(part) && k < |part|
    ensures Ahead(part, part[k].dueAt, part[k].id) == k
  {
    if k == 0 {
      LessIrreflexive(part[0].id);
      forall j | 0 <= j < |part| ensures !Precedes(part[j], part[0].dueAt, part[0].id) {
        if j > 0 { NotAfter(part[0], part[j]); }
      }
      NoneAhead(part, part[0].dueAt, part[0].id);
    } else {
      assert Before(part[0], part[k]);
      PositionIsAhead(part[1..], k - 1);
    }
  }

  ghost predicate RowAt(part: seq<Entry>, now: Time, k: nat, id: Id) {
    k < |DueEntries(part, now)| && DueEntries(part, now)[k].id == id
  }

  /** The due row of a key is the one behind all rows before it. */
  lemma DuePosition(part: seq<Entry>, now: Time, dueAt: Time, id: Id)
    requires Clustered(part) && Listed(part, dueAt, id) && dueAt <= now
    ensures RowAt(part, now, Ahead(part, dueAt, id), id)
  {
    var k :| 0 <= k < |part| && part[k].dueAt == dueAt && part[k].id == id;
    PositionIsAhead(part, k);
    DueEntriesClustered(part, now);
    var n := |DueEntries(part, now)|;
    assert n < k ==> Before(part[n], part[k]);
    assert DueEntries(part, now)[k] == part[k];
  }

  lemma DueRowHasKey(part: seq<Entry>, now: Time, k: nat, id: Id)
    requires Clustered(part) && RowAt(part, now, k, id)
    ensures k < |part| && part[k].id == id && part[k].dueAt <= now && Ahead(part, part[k].dueAt, id) == k
    ensures Listed(part, part[k].dueAt, id)
  {
    DueEntriesClustered(part, now);
    PositionIsAhead(part, k);
    DueEntriesListed(part, now, DueEntries(part, now)[k]);
  }

  // ---------- what one scan reads ----------

  /** Where the day loop stands when it comes to bucket b: the claims made from newer buckets. */
  function Newer(t: Tables, got: seq<Held>, owner: string, limit: nat, lease: int, now: Time, bucket: int,
      b: int): (r: (Tables, seq<Held>))
    requires |got| <= limit
    ensures |r.1| <= limit
    decreases bucket - b
  {
    if bucket <= b || |got| >= limit then (t, got)
    else
      var r := ClaimRows(t, DayRows(t, now, bucket, limit - |got|), got, owner, now, lease);
      Newer(r.0, r.1, owner, limit, lease, now, bucket - 1, b)
  }

  /** Row k of bucket b names the id and is inside the LIMIT of that bucket's SELECT. */
  ghost predicate ReadAt(t: Tables, got: seq<Held>, owner: string, limit: nat, lease: int, now: Time, bucket: int,
      id: Id, b: int, k: nat)
    requires |got| <= limit
  {
    && Bucket(now) - 7 <= b <= bucket && RowAt(Partition(t.index, b), now, k, id)
    && k + |Newer(t, got, owner, limit, lease, now, bucket, b).1| < limit
  }

  ghost predicate Reads(t: Tables, got: seq<Held>, owner: string, limit: nat, lease: int, now: Time, bucket: int,
      id: Id)
    requires |got| <= limit
  {
    exists b: int, k: nat :: ReadAt(t, got, owner, limit, lease, now, bucket, id, b, k)
  }

  lemma SelectReads(t: Tables, now: Time, b: int, n: nat, id: Id)
    ensures Mentions(DayRows(t, now, b, n), id) <==> exists k: nat :: k < n && RowAt(Partition(t.index, b), now, k, id)
  {
    var rows := DayRows(t, now, b, n);
    if Mentions(rows, id) {
      var k :| 0 <= k < |rows| && rows[k].id == id;
      assert k < n && RowAt(Partition(t.index, b), now, k, id);
    }
    if k: nat :| k < n && RowAt(Partition(t.index, b), now, k, id) { assert rows[k].id == id; }
  }

  /** The newest bucket first, then the rest from where it leaves off. */
  lemma ReadsSplit(t: Tables, got: seq<Held>, owner: string, limit: nat, lease: int, now: Time, bucket: int, id: Id,
      r: (Tables, seq<Held>))
    requires |got| < limit && bucket >= Bucket(now) - 7 && |r.1| <= limit && r.0.index == t.index
    requires r == ClaimRows(t, DayRows(t, now, bucket, limit - |got|), got, owner, now, lease)
    ensures Reads(t, got, owner, limit, lease, now, bucket, id) <==>
              (exists k: nat :: k < limit - |got| && RowAt(Partition(t.index, bucket), now, k, id))
              || Reads(r.0, r.1, owner, limit, lease, now, bucket - 1, id)
  {
    if k: nat :| k < limit - |got| && RowAt(Partition(t.index, bucket), now, k, id) {
      assert ReadAt(t, got, owner, limit, lease, now, bucket, id, bucket, k);
    }
    var older := bucket - 1;
    if b: int, k: nat :| ReadAt(r.0, r.1, owner, limit, lease, now, older, id, b, k) {
      assert ReadAt(t, got, owner, limit, lease, now, bucket, id, b, k);
    }
    if b: int, k: nat :| ReadAt(t, got, owner, limit, lease, now, bucket, id, b, k) {
      if b < bucket { assert ReadAt(r.0, r.1, owner, limit, lease, now, older, id, b, k); }
    }
  }

  /** The day loop reads the id exactly when some due row of it stands inside the LIMIT that the
      claims from newer buckets leave to its bucket. */
  lemma {:induction false} ScansExactly(t: Tables, got: seq<Held>, owner: string, limit: nat, lease: int, now: Time,
      bucket: int, id: Id)
    requires lease > 0 && |got| <= limit
    ensures Mentions(Scanned(t, got, owner, limit, lease, now, bucket), id)
            <==> Reads(t, got, owner, limit, lease, now, bucket, id)
    decreases bucket - Bucket(now) + 8
  {
    if bucket >= Bucket(now) - 7 && |got| < limit {
      var rows := DayRows(t, now, bucket, limit - |got|);
      var r := ClaimRows(t, rows, got, owner, now, lease);
      assert r.0.index == t.index by { ClaimRowsExact(t, rows, got, owner, now, lease); }
      ScansExactly(r.0, r.1, owner, limit, lease, now, bucket - 1, id);
      MentionsSplit(rows, Scanned(r.0, r.1, owner, limit, lease, now, bucket - 1), id);
      SelectReads(t, now, bucket, limit - |got|, id);
      ReadsSplit(t, got, owner, limit, lease, now, bucket, id, r);
    } else {
      ReadsNothing(t, got, owner, limit, lease, now, bucket, id);
    }
  }

  lemma ReadsNothing(t: Tables, got: seq<Held>, owner: string, limit: nat, lease: int, now: Time, bucket: int, id: Id)
    requires |got| <= limit && (bucket < Bucket(now) - 7 || |got| == limit)
    ensures !Reads(t, got, owner, limit, lease, now, bucket, id)
  {}

  /** The claims one undisturbed ClaimDue makes from buckets newer than b. */
  function NewerClaims(t: Tables, owner: string, limit: nat, lease: int, now: Time, b: int): nat {
    |Newer(t, [], owner, limit, lease, now, Bucket(now), b).1|
  }

  /** A due index row of the id inside the window and inside its bucket's LIMIT. */
  ghost predicate Reachable(t: Tables, owner: string, limit: nat, lease: int, now: Time, dueAt: Time, id: Id) {
    && Indexed(t.index, dueAt, id) && dueAt <= now && Bucket(now) - 7 <= Bucket(dueAt)
    && Ahead(Partition(t.index, Bucket(dueAt)), dueAt, id)
        + NewerClaims(t, owner, limit, lease, now, Bucket(dueAt)) < limit
  }

  lemma BucketGrows(a: Time, b: Time)
    requires a <= b
    ensures Bucket(a) <= Bucket(b)
  {}

  lemma ReadsByKey(t: Tables, owner: string, limit: nat, lease: int, now: Time, id: Id)
    requires IndexRight(t.index)
    ensures Reads(t, [], owner, limit, lease, now, Bucket(now), id)
            <==> exists dueAt :: Reachable(t, owner, limit, lease, now, dueAt, id)
  {
    if Reads(t, [], owner, limit, lease, now, Bucket(now), id) {
      var b: int, k: nat :| ReadAt(t, [], owner, limit, lease, now, Bucket(now), id, b, k);
      var part := Partition(t.index, b);
      DueRowHasKey(part, now, k, id);
      assert Bucket(part[k].dueAt) == b;
      assert Reachable(t, owner, limit, lease, now, part[k].dueAt, id);
    }
    if dueAt :| Reachable(t, owner, limit, lease, now, dueAt, id) {
      var b := Bucket(dueAt);
      var part := Partition(t.index, b);
      BucketGrows(dueAt, now);
      DuePosition(part, now, dueAt, id);
      assert ReadAt(t, [], owner, limit, lease, now, Bucket(now), id, b, Ahead(part, dueAt, id));
    }
  }

  /** Exactly what one undisturbed ClaimDue claims, after any run: the intents that are pending, due
      and unleased and have a due index row in the eight buckets with fewer rows before it than the
      claims from newer buckets leave of the limit. */
  lemma ClaimedExactlyWhen(cfg: Config, steps: seq<Step>, id: Id, owner: string, now: Time)
    requires cfg.Valid()
    ensures var t := Exec(Init(), cfg, steps).tables;
            Took(ClaimDueNow(t, owner, cfg.batchSize, cfg.lease, now).1, id) <==>
              && Claimable(t.byId, id, now)
              && exists dueAt :: Reachable(t, owner, cfg.batchSize, cfg.lease, now, dueAt, id)
  {
    var t := Exec(Init(), cfg, steps).tables;
    RunsKeepIndex(Init(), cfg, steps);
    ClaimDueExact(t, owner, cfg.batchSize, cfg.lease, now);
    ScansExactly(t, [], owner, cfg.batchSize, cfg.lease, now, Bucket(now), id);
    ReadsByKey(t, owner, cfg.batchSize, cfg.lease, now, id);
  }

  /** Crash recovery: after any run, with any workers and enqueuers stopped anywhere, a pending intent
      whose enqueue finished is claimed by the next undisturbed ClaimDue once it is due and its lease
      has lapsed, if the row at its due time is in the eight buckets and inside its bucket's LIMIT. */
  lemma LapsedIntentsAreRecovered(cfg: Config, steps: seq<Step>, id: Id, owner: string, now: Time)
    requires cfg.Valid() && id in Exec(Init(), cfg, steps).finished
    requires var t := Exec(Init(), cfg, steps).tables;
             && Claimable(t.byId, id, now) && Bucket(now) - 7 <= Bucket(t.byId[id].nextAttempt)
             && Ahead(Partition(t.index, Bucket(t.byId[id].nextAttempt)), t.byId[id].nextAttempt, id)
                + NewerClaims(t, owner, cfg.batchSize, cfg.lease, now, Bucket(t.byId[id].nextAttempt)) < cfg.batchSize
    ensures var t := Exec(Init(), cfg, steps).tables;
            var r := ClaimDueNow(t, owner, cfg.batchSize, cfg.lease, now);
            Took(r.1, id) && id in r.0.byId && r.0.byId[id] == Leased(t.byId[id], owner, now, cfg.lease)
  {
    var t := Exec(Init(), cfg, steps).tables;
    FinishedIntentsAreIndexed(cfg, steps, id);
    assert Reachable(t, owner, cfg.batchSize, cfg.lease, now, t.byId[id].nextAttempt, id);
    ClaimedExactlyWhen(cfg, steps, id, owner, now);
    ClaimDueExact(t, owner, cfg.batchSize, cfg.lease, now);
  }

  /** No SELECT of the scan is cut by its LIMIT. */
  ghost predicate Uncut(t: Tables, owner: string, limit: nat, lease: int, now: Time) {
    forall b :: Bucket(now) - 7 <= b <= Bucket(now) ==>
      |DueEntries(Partition(t.index, b), now)| + NewerClaims(t, owner, limit, lease, now, b) <= limit
  }

  /** In particular when the due rows of each bucket, settled ones included, fit what is left of the limit,
      so that LIMIT cuts no SELECT. */
  lemma UncutScansRecover(cfg: Config, steps: seq<Step>, id: Id, owner: string, now: Time)
    requires cfg.Valid() && id in Exec(Init(), cfg, steps).finished
    requires var t := Exec(Init(), cfg, steps).tables;
             && Claimable(t.byId, id, now) && Bucket(now) - 7 <= Bucket(t.byId[id].nextAttempt)
             && Uncut(t, owner, cfg.batchSize, cfg.lease, now)
    ensures var t := Exec(Init(), cfg, steps).tables;
            Took(ClaimDueNow(t, owner, cfg.batchSize, cfg.lease, now).1, id)
  {
    var t := Exec(Init(), cfg, steps).tables;
    var dueAt := t.byId[id].nextAttempt;
    FinishedIntentsAreIndexed(cfg, steps, id);
    RunsKeepIndex(Init(), cfg, steps);
    BucketGrows(dueAt, now);
    DuePosition(Partition(t.index, Bucket(dueAt)), now, dueAt, id);
    LapsedIntentsAreRecovered(cfg, steps, id, owner, now);
  }
}
