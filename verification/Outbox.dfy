/** The notification outbox tables: the authoritative by-id row with its conditional updates,
    and the immutable index rows of the day buckets. The by-id table is the replay of the
    conditional updates that applied, so the lease protocol is a property of that log. */
module Outbox {
  import opened Basics
  import opened Text

  type Time = int   // nanoseconds since the Unix epoch
  type Id = string

  const SECOND := 1_000_000_000
  const DAY := 86_400 * SECOND
  const ZERO_TIME := -62_135_596_800 * SECOND   // Go's zero time.Time

  datatype Status = Pending | Complete | DeadLetter

  datatype Body = Body(userId: nat, kind: string, actorId: nat, payload: string, createdAt: Time)

  datatype Intent = Intent(id: Id, body: Body)

  datatype Row = Row(body: Body, status: Status, attempts: int, nextAttempt: Time,
                     leaseOwner: string, leaseUntil: Time)

  predicate Acceptable(intent: Intent) {
    intent.id != "" && intent.body.userId != 0 && intent.body.kind != "" && intent.body.createdAt != ZERO_TIME
  }

  // ---------- the by-id row and its conditional updates ----------

  /** The conditional updates that applied, in order. `from` and `until` are the stamped lease,
      `at` the clock read by a retry, `known` whether its attempt count was really read. */
  datatype Event =
    | Enqueued(id: Id, body: Body, at: Time)
    | Claimed(id: Id, owner: string, from: Time, until: Time)
    | Completed(id: Id, owner: string)
    | Retried(id: Id, owner: string, attempts: int, at: Time, dueAt: Time, known: bool)
    | Died(id: Id, owner: string, known: bool)

  type Log = seq<Event>

  predicate Due(row: Row, now: Time) { row.status == Pending && row.nextAttempt <= now }

  predicate Unleased(row: Row, now: Time) { row.status == Pending && row.leaseUntil < now }

  predicate HeldBy(row: Row, owner: string) { row.status == Pending && row.leaseOwner == owner }

  /** The IF clause of the statement behind an event. */
  predicate Legal(byId: map<Id, Row>, e: Event) {
    match e
    case Enqueued(id, _, _) => id !in byId
    case Claimed(id, _, from, _) => id in byId && Unleased(byId[id], from)
    case Completed(id, owner) => id in byId && HeldBy(byId[id], owner)
    case Retried(id, owner, _, _, _, _) => id in byId && HeldBy(byId[id], owner)
    case Died(id, owner, _) => id in byId && HeldBy(byId[id], owner)
  }

  /** The assignments of the statement behind an event. */
  function Effect(byId: map<Id, Row>, e: Event): map<Id, Row>
    requires Legal(byId, e)
  {
    match e
    case Enqueued(id, body, at) => byId[id := Row(body, Pending, 0, at, "", 0)]
    case Claimed(id, owner, _, until) => byId[id := byId[id].(leaseOwner := owner, leaseUntil := until)]
    case Completed(id, _) => byId[id := byId[id].(status := Complete, leaseOwner := "", leaseUntil := 0)]
    case Retried(id, _, attempts, _, dueAt, _) =>
      byId[id := byId[id].(attempts := attempts, nextAttempt := dueAt, leaseOwner := "", leaseUntil := 0)]
    case Died(id, _, _) => byId[id := byId[id].(status := DeadLetter, leaseOwner := "", leaseUntil := 0)]
  }

  /** A lightweight transaction: the assignments if the IF clause holds, nothing otherwise. */
  function Cas(byId: map<Id, Row>, e: Event): map<Id, Row> {
    if Legal(byId, e) then Effect(byId, e) else byId
  }

  function Replay(log: Log): map<Id, Row> {
    if log == [] then map[] else Cas(Replay(log[..|log| - 1]), log[|log| - 1])
  }

  /** Every logged update was really applied, and every claim stamped a lease of positive length. */
  ghost predicate Applied(log: Log) {
    forall i :: 0 <= i < |log| ==> AppliedAt(log, i)
  }

  ghost predicate AppliedAt(log: Log, i: nat)
    requires i < |log|
  {
    Legal(Replay(log[..i]), log[i]) && (log[i].Claimed? ==> log[i].from < log[i].until)
  }

  lemma ReplayStep(log: Log, i: nat)
    requires i < |log|
    ensures Replay(log[..i + 1]) == Cas(Replay(log[..i]), log[i])
  {
    assert log[..i + 1][..i] == log[..i];
  }

  lemma AppliedPrefix(log: Log, i: nat)
    requires Applied(log) && i <= |log|
    ensures Applied(log[..i])
  {
    forall k | 0 <= k < i ensures AppliedAt(log[..i], k) {
      assert log[..i][..k] == log[..k];
      assert AppliedAt(log, k);
    }
  }

  lemma AppliedAppend(log: Log, e: Event)
    requires Applied(log) && Legal(Replay(log), e) && (e.Claimed? ==> e.from < e.until)
    ensures Applied(log + [e]) && Replay(log + [e]) == Effect(Replay(log), e)
  {
    var more := log + [e];
    assert more[..|log|] == log;
    forall i | 0 <= i < |more| ensures AppliedAt(more, i) {
      if i < |log| {
        assert more[..i] == log[..i];
        assert AppliedAt(log, i);
      }
    }
  }

  // ---------- what the lease protocol guarantees, over every log ----------

  ghost predicate ClaimAt(log: Log, i: nat, id: Id) { i < |log| && log[i].Claimed? && log[i].id == id }

  ghost predicate RetryAt(log: Log, i: nat, id: Id) { i < |log| && log[i].Retried? && log[i].id == id }

  /** No retry released the intent strictly between positions i and j. */
  ghost predicate NoRelease(log: Log, i: nat, j: nat, id: Id) {
    forall k: nat {:trigger RetryAt(log, k, id)} :: i < k < j ==> !RetryAt(log, k, id)
  }

  ghost predicate OutlivesOrSettled(byId: map<Id, Row>, id: Id, until: Time) {
    id in byId && (byId[id].status == Pending ==> byId[id].leaseUntil >= until)
  }

  lemma LeaseStandsStep(byId: map<Id, Row>, e: Event, id: Id, until: Time)
    requires Legal(byId, e) && OutlivesOrSettled(byId, id, until) && !(e.Retried? && e.id == id)
    requires e.Claimed? ==> e.from < e.until
    ensures OutlivesOrSettled(Effect(byId, e), id, until)
  {}

  lemma {:induction false} LeaseStands(log: Log, i: nat, j: nat, id: Id)
    requires Applied(log) && ClaimAt(log, i, id) && i < j <= |log| && NoRelease(log, i, j, id)
    ensures OutlivesOrSettled(Replay(log[..j]), id, log[i].until)
    decreases j
  {
    ReplayStep(log, j - 1);
    assert AppliedAt(log, j - 1);
    if j > i + 1 {
      LeaseStands(log, i, j - 1, id);
      assert !RetryAt(log, j - 1, id);
      LeaseStandsStep(Replay(log[..j - 1]), log[j - 1], id, log[i].until);
    }
  }

  /** Leases on one intent never overlap unless a retry gave the earlier one back. */
  lemma LeasesDisjoint(log: Log, i: nat, j: nat, id: Id)
    requires Applied(log) && ClaimAt(log, i, id) && ClaimAt(log, j, id) && i < j
    requires NoRelease(log, i, j, id)
    ensures log[i].from < log[i].until < log[j].from < log[j].until
  {
    LeaseStands(log, i, j, id);
    assert AppliedAt(log, i) && AppliedAt(log, j);
  }

  /** The last claim on an intent, if there was one. */
  ghost predicate LastClaim(log: Log, i: nat, id: Id) {
    ClaimAt(log, i, id) && forall k: nat {:trigger ClaimAt(log, k, id)} :: i < k ==> !ClaimAt(log, k, id)
  }

  ghost predicate OwnerIs(byId: map<Id, Row>, id: Id, owner: string) {
    id in byId && (byId[id].leaseOwner == owner || byId[id].leaseOwner == "")
  }

  lemma OwnerIsStep(byId: map<Id, Row>, e: Event, id: Id, owner: string)
    requires Legal(byId, e) && OwnerIs(byId, id, owner) && !(e.Claimed? && e.id == id)
    ensures OwnerIs(Effect(byId, e), id, owner)
  {}

  lemma {:induction false} OwnerIsLastClaimer(log: Log, i: nat, j: nat, id: Id)
    requires Applied(log) && ClaimAt(log, i, id) && i < j <= |log|
    requires forall k: nat {:trigger ClaimAt(log, k, id)} :: i < k < j ==> !ClaimAt(log, k, id)
    ensures OwnerIs(Replay(log[..j]), id, log[i].owner)
    decreases j
  {
    ReplayStep(log, j - 1);
    assert AppliedAt(log, j - 1);
    if j > i + 1 {
      OwnerIsLastClaimer(log, i, j - 1, id);
      assert !ClaimAt(log, j - 1, id);
      OwnerIsStep(Replay(log[..j - 1]), log[j - 1], id, log[i].owner);
    }
  }

  ghost predicate SettlementBy(e: Event, id: Id, owner: string) {
    (e.Completed? || e.Retried? || e.Died?) && e.id == id && e.owner == owner
  }

  /** Once another worker holds the latest claim, nothing the first worker writes applies. */
  lemma SupersededIsHarmless(log: Log, i: nat, id: Id, owner: string, e: Event)
    requires Applied(log) && LastClaim(log, i, id) && log[i].owner != owner && owner != ""
    requires SettlementBy(e, id, owner)
    ensures !Legal(Replay(log), e) && Cas(Replay(log), e) == Replay(log)
  {
    assert log[..|log|] == log;
    OwnerIsLastClaimer(log, i, |log|, id);
  }

  ghost predicate Settled(byId: map<Id, Row>, id: Id) { id in byId && byId[id].status != Pending }

  lemma SettledStep(byId: map<Id, Row>, e: Event, id: Id)
    requires Legal(byId, e) && Settled(byId, id)
    ensures id in Effect(byId, e) && Effect(byId, e)[id] == byId[id]
  {}

  /** A complete or dead-letter row never changes again, whatever is appended to the log. */
  lemma {:induction false} SettledForever(log: Log, i: nat, id: Id)
    requires Applied(log) && i <= |log| && Settled(Replay(log[..i]), id)
    ensures id in Replay(log) && Replay(log)[id] == Replay(log[..i])[id]
    decreases |log|
  {
    if i < |log| {
      var before := log[..|log| - 1];
      AppliedPrefix(log, |log| - 1);
      assert AppliedAt(log, |log| - 1);
      assert before[..i] == log[..i];
      SettledForever(before, i, id);
      SettledStep(Replay(before), log[|log| - 1], id);
    } else {
      assert log[..i] == log;
    }
  }

  /** The stored contents of an intent never change. */
  lemma {:induction false} BodiesForever(log: Log, i: nat, id: Id)
    requires i <= |log| && id in Replay(log[..i])
    ensures id in Replay(log) && Replay(log)[id].body == Replay(log[..i])[id].body
    decreases |log|
  {
    if i < |log| {
      assert log[..|log| - 1][..i] == log[..i];
      BodiesForever(log[..|log| - 1], i, id);
    } else {
      assert log[..i] == log;
    }
  }

  /** The row of an intent still holds the contents it was enqueued with. */
  lemma {:induction false} RowHoldsEnqueuedBody(log: Log, i: nat)
    requires Applied(log) && i < |log| && log[i].Enqueued?
    ensures log[i].id in Replay(log) && Replay(log)[log[i].id].body == log[i].body
  {
    ReplayStep(log, i);
    assert AppliedAt(log, i);
    BodiesForever(log, i + 1, log[i].id);
  }

  function Retries(log: Log, id: Id): nat {
    if log == [] then 0
    else Retries(log[..|log| - 1], id) + (if log[|log| - 1].Retried? && log[|log| - 1].id == id then 1 else 0)
  }

  /** Each logged retry wrote one more than the count it found, or 1 if it could not read the count. */
  ghost predicate Counting(log: Log) {
    forall i :: 0 <= i < |log| && log[i].Retried? ==>
      log[i].id in Replay(log[..i])
      && log[i].attempts == if log[i].known then Replay(log[..i])[log[i].id].attempts + 1 else 1
  }

  /** The last retry that could not read the count, or the start of the log. */
  function LastMisread(log: Log, id: Id): (k: nat)
    ensures k <= |log| && (log != [] ==> k < |log|)
  {
    if log == [] then 0
    else
      var n := |log| - 1;
      if log[n].Retried? && log[n].id == id && !log[n].known then n else LastMisread(log[..n], id)
  }

  /** The retries that still count: those from the last misread one on, that one included. */
  function Remembered(log: Log, id: Id): nat { Retries(log[LastMisread(log, id)..], id) }

  lemma RemembersOneMore(log: Log, id: Id)
    requires log != []
    ensures var e, before := log[|log| - 1], log[..|log| - 1];
            Remembered(log, id) == if !(e.Retried? && e.id == id) then Remembered(before, id)
                                   else if e.known then Remembered(before, id) + 1 else 1
  {
    var n, k := |log| - 1, LastMisread(log, id);
    RetriesSnoc(log[k..n], log[n], id);
    assert log[k..n] + [log[n]] == log[k..];
    if log[n].Retried? && log[n].id == id && !log[n].known {
      assert log[n..n] == [];
    } else {
      assert log[k..n] == log[..n][k..];
    }
  }

  lemma RetriesSnoc(log: Log, e: Event, id: Id)
    ensures Retries(log + [e], id) == Retries(log, id) + if e.Retried? && e.id == id then 1 else 0
  {
    assert (log + [e])[..|log|] == log;
  }

  /** An intent's count is the number of its retries from the last one on that could not read the count. */
  lemma {:induction false} AttemptsCountRetries(log: Log, id: Id)
    requires Applied(log) && Counting(log)
    ensures id in Replay(log) ==> Replay(log)[id].attempts == Remembered(log, id)
    ensures id !in Replay(log) ==> Remembered(log, id) == 0
  {
    if log != [] {
      var n := |log| - 1;
      AppliedPrefix(log, n);
      assert AppliedAt(log, n);
      forall i | 0 <= i < n ensures log[..n][..i] == log[..i] {}
      AttemptsCountRetries(log[..n], id);
      RemembersOneMore(log, id);
    }
  }

  lemma {:induction false} NothingForgotten(log: Log, id: Id)
    requires forall i :: 0 <= i < |log| && log[i].Retried? ==> log[i].known
    ensures Remembered(log, id) == Retries(log, id)
  {
    if log != [] {
      NothingForgotten(log[..|log| - 1], id);
      RemembersOneMore(log, id);
    }
  }

  // ---------- the day buckets ----------

  /** One index row of a bucket's pending partition. */
  datatype Entry = Entry(dueAt: Time, id: Id, body: Body)

  type Index = map<int, seq<Entry>>

  function Bucket(t: Time): int { t / DAY }

  function Partition(index: Index, day: int): seq<Entry> {
    if day in index then index[day] else []
  }

  /** Clustering order of a partition: due time, then id. */
  predicate Before(a: Entry, b: Entry) {
    a.dueAt < b.dueAt || (a.dueAt == b.dueAt && Less(a.id, b.id))
  }

  ghost predicate Clustered(part: seq<Entry>) {
    forall i, j :: 0 <= i < j < |part| ==> Before(part[i], part[j])
  }

  /** An INSERT is an upsert at the place the clustering order gives. */
  function Upsert(part: seq<Entry>, e: Entry): seq<Entry> {
    if part == [] then [e]
    else if Before(part[0], e) then [part[0]] + Upsert(part[1..], e)
    else if part[0].dueAt == e.dueAt && part[0].id == e.id then [e] + part[1..]
    else [e] + part
  }

  function InsertIndex(index: Index, intent: Intent, dueAt: Time): Index {
    index[Bucket(dueAt) := Upsert(Partition(index, Bucket(dueAt)), Entry(dueAt, intent.id, intent.body))]
  }

  ghost predicate Listed(part: seq<Entry>, dueAt: Time, id: Id) {
    exists k :: 0 <= k < |part| && part[k].dueAt == dueAt && part[k].id == id
  }

  /** The index has a row for the id at exactly that due time. */
  ghost predicate Indexed(index: Index, dueAt: Time, id: Id) {
    Listed(Partition(index, Bucket(dueAt)), dueAt, id)
  }

  lemma {:induction false} UpsertLists(part: seq<Entry>, e: Entry, dueAt: Time, id: Id)
    ensures Listed(Upsert(part, e), dueAt, id) <==> Listed(part, dueAt, id) || (dueAt == e.dueAt && id == e.id)
  {
    var r := Upsert(part, e);
    if part == [] {
      assert r[0] == e;
    } else if Before(part[0], e) {
      UpsertLists(part[1..], e, dueAt, id);
      assert r[0] == part[0] && r[1..] == Upsert(part[1..], e);
      ListedSplit(part, dueAt, id);
      ListedSplit(r, dueAt, id);
    } else {
      assert r[0] == e;
      ListedSplit(part, dueAt, id);
      ListedSplit(r, dueAt, id);
      assert r[1..] == part[1..] || r[1..] == part;
    }
  }

  lemma ListedSplit(part: seq<Entry>, dueAt: Time, id: Id)
    requires part != []
    ensures Listed(part, dueAt, id) <==> (part[0].dueAt == dueAt && part[0].id == id) || Listed(part[1..], dueAt, id)
  {
    if k :| 0 <= k < |part[1..]| && part[1..][k].dueAt == dueAt && part[1..][k].id == id {
      assert part[k + 1] == part[1..][k];
    }
    if k :| 0 <= k < |part| && part[k].dueAt == dueAt && part[k].id == id {
      if k > 0 { assert part[1..][k - 1] == part[k]; }
    }
  }

  /** Inserting an index row adds exactly its own key. */
  lemma InsertIndexes(index: Index, intent: Intent, at: Time, dueAt: Time, id: Id)
    ensures Indexed(InsertIndex(index, intent, at), dueAt, id)
            <==> Indexed(index, dueAt, id) || (dueAt == at && id == intent.id)
  {
    UpsertLists(Partition(index, Bucket(at)), Entry(at, intent.id, intent.body), dueAt, id);
  }

  /** Partitions stay in clustering order, with one row per key. */
  lemma {:induction false} UpsertClustered(part: seq<Entry>, e: Entry)
    requires Clustered(part)
    ensures Clustered(Upsert(part, e))
    ensures forall k :: 0 <= k < |Upsert(part, e)| ==> Upsert(part, e)[k] == e || Upsert(part, e)[k] in part
  {
    if part != [] {
      if Before(part[0], e) {
        UpsertClustered(part[1..], e);
      } else {
        LessTotal(part[0].id, e.id);
        forall k | 0 <= k < |part| && (k > 0 || part[0].dueAt != e.dueAt || part[0].id != e.id)
          ensures Before(e, part[k]) {
          if k > 0 && e.dueAt == part[0].dueAt == part[k].dueAt && e.id != part[0].id {
            LessTransitive(e.id, part[0].id, part[k].id);
          }
        }
      }
    }
  }

  function DueEntries(part: seq<Entry>, now: Time): seq<Entry> {
    if part == [] then []
    else (if part[0].dueAt <= now then [part[0]] else []) + DueEntries(part[1..], now)
  }

  /** SELECT ... WHERE due_at <= now LIMIT n. */
  function Select(index: Index, day: int, now: Time, n: nat): (rows: seq<Entry>)
    ensures |rows| <= n
  {
    var due := DueEntries(Partition(index, day), now);
    if |due| <= n then due else due[..n]
  }

  lemma {:induction false} DueEntriesListed(part: seq<Entry>, now: Time, e: Entry)
    ensures e in DueEntries(part, now) <==> e in part && e.dueAt <= now
  {
    if part != [] { DueEntriesListed(part[1..], now, e); }
  }

  lemma {:induction false} DueEntriesClustered(part: seq<Entry>, now: Time)
    requires Clustered(part)
    ensures DueEntries(part, now) <= part
    ensures |DueEntries(part, now)| < |part| ==> part[|DueEntries(part, now)|].dueAt > now
  {
    if part != [] {
      DueEntriesClustered(part[1..], now);
      if part[0].dueAt > now && |part| > 1 {
        assert Before(part[0], part[1]);
        if DueEntries(part[1..], now) != [] { DueEntriesListed(part[1..], now, DueEntries(part[1..], now)[0]); }
      }
    }
  }

  // ---------- exponential backoff ----------

  function Pow2(n: nat): (p: nat)
    ensures p >= 1
  {
    if n == 0 then 1 else 2 * Pow2(n - 1)
  }

  function BaseOr(base: int): int { if base <= 0 then SECOND else base }

  function CapOr(cap: int): int { if cap <= 0 then 300 * SECOND else cap }

  function Doubled(base: int, attempts: int): int
    requires attempts >= 1
  {
    base * Pow2(attempts - 1)
  }

  /** min(base * 2^(attempts - 1), cap), with the defaults for nonpositive arguments. */
  function Delay(base: int, cap: int, attempts: int): int {
    Min(Doubled(BaseOr(base), Max(attempts, 1)), CapOr(cap))
  }

  lemma {:induction false} Pow2Monotone(a: nat, b: nat)
    requires a <= b
    ensures Pow2(a) <= Pow2(b)
  {
    if a < b { Pow2Monotone(a, b - 1); }
  }

  /** The doubling loop computes the closed form; `peak`, the largest value its variable ever holds,
      stays within max(base, cap): with 64-bit durations nothing overflows. */
  method RetryDelay(base0: int, cap0: int, attempts0: int) returns (delay: int, peak: int)
    ensures delay == Delay(base0, cap0, attempts0)
    ensures BaseOr(base0) <= peak <= Max(BaseOr(base0), CapOr(cap0)) && delay <= Max(peak, CapOr(cap0))
  {
    var attempts := if attempts0 < 1 then 1 else attempts0;
    var base := if base0 <= 0 then SECOND else base0;
    var cap := if cap0 <= 0 then 300 * SECOND else cap0;
    delay := base;
    peak := delay;
    var i := 1;
    Doubling(base, 1, attempts);
    while i < attempts && delay < cap
      invariant 1 <= i <= attempts
      invariant delay == Doubled(base, i)
      invariant base <= delay <= peak <= Max(base, cap)
    {
      Doubling(base, i, attempts);
      if delay > cap / 2 {
        return cap, peak;
      }
      delay := delay * 2;
      peak := Max(peak, delay);
      i := i + 1;
    }
    Doubling(base, i, attempts);
    if delay > cap {
      return cap, peak;
    }
  }

  lemma Doubling(base: int, i: int, attempts: int)
    requires 1 <= i <= attempts && base > 0
    ensures Doubled(base, 1) == base
    ensures Doubled(base, i) <= Doubled(base, attempts)
    ensures i < attempts ==> Doubled(base, i + 1) == 2 * Doubled(base, i) <= Doubled(base, attempts)
  {
    assert Pow2(0) == 1;
    Pow2Monotone(i - 1, attempts - 1);
    ScaleLe(base, Pow2(i - 1), Pow2(attempts - 1));
    if i < attempts {
      Pow2Monotone(i, attempts - 1);
      ScaleLe(base, Pow2(i), Pow2(attempts - 1));
      assert Pow2(i) == 2 * Pow2(i - 1);
      DoubleIn(base, Pow2(i - 1));
    }
  }

  lemma DoubleIn(k: int, a: int)
    ensures k * (2 * a) == 2 * (k * a)
  {}

  lemma ScaleLe(k: int, a: int, b: int)
    requires k >= 0 && a <= b
    ensures k * a <= k * b
  {}

  /** The first delay is the base and each further one is twice the one before, all cut at the cap; no base
      means a second and no cap five minutes. */
  lemma DelayDoubles(base: int, cap: int, attempts: int)
    ensures var b, c := if base <= 0 then 1_000_000_000 else base, if cap <= 0 then 300_000_000_000 else cap;
            && (attempts <= 1 ==> Delay(base, cap, attempts) == if b < c then b else c)
            && (attempts >= 1 ==> Delay(base, cap, attempts + 1) ==
                                  if 2 * Delay(base, cap, attempts) < c then 2 * Delay(base, cap, attempts) else c)
  {
    if attempts >= 1 { Doubling(BaseOr(base), attempts, attempts + 1); }
    Doubling(BaseOr(base), 1, 1);
  }

  /** Delays never shrink from one attempt to the next and stay within the cap. */
  lemma DelayGrows(base: int, cap: int, attempts: int)
    ensures 0 < Delay(base, cap, attempts) <= Delay(base, cap, attempts + 1) <= CapOr(cap)
  {
    var a, b := Max(attempts, 1), Max(attempts + 1, 1);
    Doubling(BaseOr(base), 1, a);
    Doubling(BaseOr(base), a, b);
  }
}
