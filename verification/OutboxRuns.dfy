/** The outbox as a transition system: any number of enqueuers and workers, each executing one
    Cassandra statement per step, every statement free to fail with or without taking effect,
    every process free to crash. */
module OutboxRuns {
  import opened Basics
  import opened Outbox

  /** The effective worker configuration; NewWorker and ClaimDue replace nonpositive values. */
  datatype Config = Config(batchSize: int, lease: int, maxAttempts: int, baseDelay: int, maxDelay: int) {
    predicate Valid() { batchSize > 0 && lease > 0 && maxAttempts > 0 && baseDelay > 0 && maxDelay > 0 }
  }

  /** A row of notifications_by_user. */
  datatype NoteKey = NoteKey(userId: nat, createdAt: Time, id: Id)
  datatype Note = Note(kind: string, actorId: nat, payload: string, read: bool)
  type Inbox = map<NoteKey, Note>

  function KeyOf(intent: Intent): NoteKey { NoteKey(intent.body.userId, intent.body.createdAt, intent.id) }

  /** Deliver: an upsert under the intent's own key, which also resets `read`. */
  function Delivered(inbox: Inbox, intent: Intent): Inbox {
    inbox[KeyOf(intent) := Note(intent.body.kind, intent.body.actorId, intent.body.payload, false)]
  }

  /** A claimed intent; `at` is the position of its claim in the log. */
  datatype Held = Held(intent: Intent, at: nat)

  /** Where a worker stands; the head of `batch` is the intent being processed. */
  datatype WorkerPc =
    | Idle
    | Query(now: Time, day: nat, got: seq<Held>)                                  // next: SELECT of a day bucket
    | Scan(now: Time, day: nat, rows: seq<Entry>, got: seq<Held>)                 // next: read the by-id row of rows[0]
    | Claim(now: Time, day: nat, rows: seq<Entry>, got: seq<Held>, intent: Intent)  // next: the claim CAS
    | Work(batch: seq<Held>)                                                      // next: deliver
    | Finish(batch: seq<Held>)                                                    // next: the complete CAS
    | Failed(batch: seq<Held>)                                                    // next: read the attempt count
    // next: the dead CAS or the new index row
    | Reschedule(batch: seq<Held>, attempts: int, known: bool)
    | Requeue(batch: seq<Held>, attempts: int, known: bool, at: Time, dueAt: Time)  // next: the retry CAS

  datatype EnqueuerPc =
    | Quiet
    | Put(intent: Intent)                // next: INSERT IF NOT EXISTS
    | Probe(intent: Intent)              // next: read the existing row
    | Link(intent: Intent, dueAt: Time)  // next: insert the index row

  datatype Step =
    | Tick(to: Time)
    | Submit(p: nat, intent: Intent)
    | Enqueuer(p: nat, fault: Fault)
    | EnqueuerCrash(p: nat)
    | Worker(w: string, fault: Fault)
    | WorkerCrash(w: string)
    | MarkRead(key: NoteKey)

  datatype Tables = Tables(byId: map<Id, Row>, index: Index, inbox: Inbox, log: Log)

  /** `finished` holds the ids some Enqueue call returned nil for. */
  datatype State = State(clock: Time, tables: Tables, workers: map<string, WorkerPc>,
                         enqueuers: map<nat, EnqueuerPc>, finished: set<Id>)

  function Init(): State { State(0, Tables(map[], map[], map[], []), map[], map[], {}) }

  function PcOf(s: State, w: string): WorkerPc { if w in s.workers then s.workers[w] else Idle }

  function EnqueuerOf(s: State, p: nat): EnqueuerPc { if p in s.enqueuers then s.enqueuers[p] else Quiet }

  /** The one statement a step sends to Cassandra. */
  datatype Action =
    | Nothing
    | Update(e: Event, fault: Fault)
    | Insert(intent: Intent, dueAt: Time, fault: Fault)
    | Push(intent: Intent, fault: Fault)
    | Read(key: NoteKey)

  /** A by-id statement is logged exactly when its IF clause holds. */
  function Act(t: Tables, a: Action): Tables {
    match a
    case Nothing => t
    case Update(e, fault) =>
      if fault != NoEffect && Legal(t.byId, e) then t.(byId := Effect(t.byId, e), log := t.log + [e]) else t
    case Insert(intent, dueAt, fault) =>
      if fault == NoEffect then t else t.(index := InsertIndex(t.index, intent, dueAt))
    case Push(intent, fault) =>
      if fault == NoEffect then t else t.(inbox := Delivered(t.inbox, intent))
    case Read(key) =>
      if key in t.inbox then t.(inbox := t.inbox[key := t.inbox[key].(read := true)]) else t
  }

  function EnqueuerAction(now: Time, pc: EnqueuerPc, fault: Fault): Action {
    match pc
    case Put(intent) => Update(Enqueued(intent.id, intent.body, now), fault)
    case Link(intent, dueAt) => Insert(intent, dueAt, fault)
    case _ => Nothing
  }

  /** Where Enqueue goes next; the flag says that the call returned nil. */
  function EnqueuerNext(t: Tables, now: Time, pc: EnqueuerPc, fault: Fault): (EnqueuerPc, bool) {
    match pc
    case Quiet => (Quiet, false)
    case Put(intent) =>
      if fault != NoFault then (Quiet, false)
      else if intent.id !in t.byId then (Link(intent, now), false)
      else (Probe(intent), false)
    case Probe(intent) =>
      if fault != NoFault || intent.id !in t.byId then (Quiet, false)
      else if t.byId[intent.id].status != Pending then (Quiet, true)
      else (Link(intent, t.byId[intent.id].nextAttempt), false)
    case Link(_, _) => (Quiet, fault == NoFault)
  }

  /** The statement of process, ClaimDue, Deliver, Complete or Retry that the worker executes. */
  function WorkerAction(clock: Time, cfg: Config, w: string, pc: WorkerPc, fault: Fault): Action {
    match pc
    case Claim(now, _, _, _, intent) => Update(Claimed(intent.id, w, now, now + cfg.lease), fault)
    case Work(batch) => if batch == [] then Nothing else Push(batch[0].intent, fault)
    case Finish(batch) => if batch == [] then Nothing else Update(Completed(batch[0].intent.id, w), fault)
    case Reschedule(batch, attempts, known) =>
      if batch == [] then Nothing
      else if attempts >= cfg.maxAttempts then Update(Died(batch[0].intent.id, w, known), fault)
      else Insert(batch[0].intent, clock + Delay(cfg.baseDelay, cfg.maxDelay, attempts), fault)
    case Requeue(batch, attempts, known, at, dueAt) =>
      if batch == [] then Nothing else Update(Retried(batch[0].intent.id, w, attempts, at, dueAt, known), fault)
    case _ => Nothing
  }

  function WorkerNext(t: Tables, clock: Time, cfg: Config, pc: WorkerPc, fault: Fault): WorkerPc {
    match pc
    case Idle => Query(clock, 0, [])
    case Query(now, day, got) =>
      if day > 7 || |got| >= cfg.batchSize then Work(got)
      else if fault != NoFault then Idle
      else Scan(now, day, Select(t.index, Bucket(now) - day, now, cfg.batchSize - |got|), got)
    case Scan(now, day, rows, got) =>
      if fault != NoFault then Idle
      else if rows == [] then Query(now, day + 1, got)
      else if rows[0].id in t.byId && Due(t.byId[rows[0].id], now)
        then Claim(now, day, rows[1..], got, Intent(rows[0].id, t.byId[rows[0].id].body))
      else Scan(now, day, rows[1..], got)
    case Claim(now, day, rows, got, intent) =>
      if fault != NoFault then Idle
      else if intent.id in t.byId && Unleased(t.byId[intent.id], now)
        then Scan(now, day, rows, got + [Held(intent, |t.log|)])
      else Scan(now, day, rows, got)
    case Work(batch) => if batch == [] then Idle else if fault == NoFault then Finish(batch) else Failed(batch)
    case Finish(batch) => if batch == [] then Idle else Work(batch[1..])
    case Failed(batch) =>
      if batch == [] then Idle
      else if fault == NoFault && batch[0].intent.id in t.byId
        then Reschedule(batch, t.byId[batch[0].intent.id].attempts + 1, true)
      else Reschedule(batch, 1, false)
    case Reschedule(batch, attempts, known) =>
      if batch == [] then Idle
      else if attempts < cfg.maxAttempts && fault == NoFault
        then Requeue(batch, attempts, known, clock, clock + Delay(cfg.baseDelay, cfg.maxDelay, attempts))
      else Work(batch[1..])
    case Requeue(batch, _, _, _, _) => if batch == [] then Idle else Work(batch[1..])
  }

  function StepAction(s: State, cfg: Config, step: Step): Action {
    match step
    case Enqueuer(p, fault) => EnqueuerAction(s.clock, EnqueuerOf(s, p), fault)
    case Worker(w, fault) => if w == "" then Nothing else WorkerAction(s.clock, cfg, w, PcOf(s, w), fault)
    case MarkRead(key) => Read(key)
    case _ => Nothing
  }

  function Next(s: State, cfg: Config, step: Step): State {
    var s1 := s.(tables := Act(s.tables, StepAction(s, cfg, step)));
    match step
    case Tick(to) => if to > s.clock then s1.(clock := to) else s1
    case Submit(p, intent) =>
      if EnqueuerOf(s, p).Quiet? && Acceptable(intent) then s1.(enqueuers := s.enqueuers[p := Put(intent)]) else s1
    case Enqueuer(p, fault) =>
      var pc := EnqueuerOf(s, p);
      var r := EnqueuerNext(s.tables, s.clock, pc, fault);
      s1.(enqueuers := s.enqueuers[p := r.0], finished := if r.1 then s.finished + {pc.intent.id} else s.finished)
    case EnqueuerCrash(p) => s1.(enqueuers := s.enqueuers[p := Quiet])
    case Worker(w, fault) =>
      if w == "" then s1
      else s1.(workers := s.workers[w := WorkerNext(s.tables, s.clock, cfg, PcOf(s, w), fault)])
    case WorkerCrash(w) => if w == "" then s1 else s1.(workers := s.workers[w := Idle])
    case MarkRead(_) => s1
  }

  /** The state after any finite run. */
  function Exec(s: State, cfg: Config, steps: seq<Step>): State
    decreases |steps|
  {
    if steps == [] then s else Next(Exec(s, cfg, steps[..|steps| - 1]), cfg, steps[|steps| - 1])
  }

  // ---------- one step on the shared tables ----------

  ghost predicate Logged(t: Tables) { Applied(t.log) && t.byId == Replay(t.log) }

  ghost predicate SameBodies(t: Tables, u: Tables) {
    forall id :: id in t.byId ==> id in u.byId && u.byId[id].body == t.byId[id].body
  }

  ghost predicate IndexGrows(t: Tables, u: Tables) {
    forall dueAt, id :: Indexed(t.index, dueAt, id) ==> Indexed(u.index, dueAt, id)
  }

  ghost predicate InboxGrows(t: Tables, u: Tables) {
    forall k :: k in t.inbox ==> k in u.inbox
  }

  ghost predicate Grows(t: Tables, u: Tables) {
    SameBodies(t, u) && IndexGrows(t, u) && InboxGrows(t, u) && t.log <= u.log
  }

  lemma InsertGrows(t: Tables, intent: Intent, at: Time, fault: Fault)
    ensures Grows(t, Act(t, Insert(intent, at, fault)))
    ensures fault != NoEffect ==> Indexed(Act(t, Insert(intent, at, fault)).index, at, intent.id)
  {
    var u := Act(t, Insert(intent, at, fault));
    forall dueAt, id | Indexed(t.index, dueAt, id) ensures Indexed(u.index, dueAt, id) {
      InsertIndexes(t.index, intent, at, dueAt, id);
    }
    InsertIndexes(t.index, intent, at, at, intent.id);
  }

  lemma ActGrows(t: Tables, a: Action)
    ensures Grows(t, Act(t, a))
  {
    if a.Insert? { InsertGrows(t, a.intent, a.dueAt, a.fault); }
  }

  ghost predicate PositiveLease(a: Action) { a.Update? && a.e.Claimed? ==> a.e.from < a.e.until }

  lemma ActLogged(t: Tables, a: Action)
    requires Logged(t) && PositiveLease(a)
    ensures Logged(Act(t, a))
  {
    if a.Update? && Legal(t.byId, a.e) { AppliedAppend(t.log, a.e); }
  }

  // ---------- what every run keeps ----------

  ghost predicate Filed(byId: map<Id, Row>, intent: Intent) {
    intent.id in byId && byId[intent.id].body == intent.body
  }

  ghost predicate HasNote(inbox: Inbox, intent: Intent) {
    KeyOf(intent) in inbox &&
    var n := inbox[KeyOf(intent)];
    n.kind == intent.body.kind && n.actorId == intent.body.actorId && n.payload == intent.body.payload
  }

  /** Notes are only those of enqueued intents, with the enqueued contents; complete intents have theirs. */
  ghost predicate InboxRight(t: Tables) {
    && (forall k :: k in t.inbox ==> k.id in t.byId && k == KeyOf(Intent(k.id, t.byId[k.id].body))
                                     && HasNote(t.inbox, Intent(k.id, t.byId[k.id].body)))
    && (forall id :: id in t.byId && t.byId[id].status == Complete ==> HasNote(t.inbox, Intent(id, t.byId[id].body)))
  }

  ghost predicate EventRight(t: Tables, cfg: Config, i: nat)
    requires i < |t.log|
  {
    var e := t.log[i];
    var before := Replay(t.log[..i]);
    && (e.Claimed? ==> e.until == e.from + cfg.lease)
    && (e.Retried? ==>
      && e.id in before && e.dueAt == e.at + Delay(cfg.baseDelay, cfg.maxDelay, e.attempts)
      && 1 <= e.attempts < cfg.maxAttempts
      && e.attempts == (if e.known then before[e.id].attempts + 1 else 1))
    && (e.Died? ==> e.id in before && (if e.known then before[e.id].attempts else 0) + 1 >= cfg.maxAttempts)
  }

  ghost predicate EventsRight(t: Tables, cfg: Config) {
    && (forall i :: 0 <= i < |t.log| ==> EventRight(t, cfg, i))
    && (forall id :: id in t.byId ==> 0 <= t.byId[id].attempts < cfg.maxAttempts)
  }

  ghost predicate HeldRight(t: Tables, w: string, h: Held) {
    && h.at < |t.log| && t.log[h.at].Claimed? && t.log[h.at].id == h.intent.id && t.log[h.at].owner == w
    && Filed(t.byId, h.intent)
  }

  /** A batch: at most batchSize claims of this worker, in claim order, all stamped alike. */
  ghost predicate BatchRight(t: Tables, cfg: Config, w: string, batch: seq<Held>) {
    && |batch| <= cfg.batchSize
    && (forall i :: 0 <= i < |batch| ==> HeldRight(t, w, batch[i]))
    && (forall i, j :: 0 <= i < j < |batch|
          ==> batch[i].at < batch[j].at && t.log[batch[i].at].from == t.log[batch[j].at].from)
  }

  ghost predicate StampedAt(t: Tables, now: Time, got: seq<Held>) {
    forall i :: 0 <= i < |got| ==> got[i].at < |t.log| && t.log[got[i].at].Claimed? && t.log[got[i].at].from == now
  }

  ghost predicate CountRight(t: Tables, w: string, id: Id, attempts: int, known: bool) {
    && attempts >= 1
    && (if known then id in t.byId && (HeldBy(t.byId[id], w) ==> attempts == t.byId[id].attempts + 1)
        else attempts == 1)
  }

  ghost predicate WorkerRight(t: Tables, cfg: Config, w: string, pc: WorkerPc) {
    match pc
    case Idle => true
    case Query(now, _, got) => BatchRight(t, cfg, w, got) && StampedAt(t, now, got)
    case Scan(now, _, rows, got) => BatchRight(t, cfg, w, got) && StampedAt(t, now, got)
        && |got| + |rows| <= cfg.batchSize
    case Claim(now, _, rows, got, intent) =>
      BatchRight(t, cfg, w, got) && StampedAt(t, now, got) && |got| + |rows| < cfg.batchSize && Filed(t.byId, intent)
    case Work(batch) => BatchRight(t, cfg, w, batch)
    case Finish(batch) => batch != [] && BatchRight(t, cfg, w, batch) && HasNote(t.inbox, batch[0].intent)
    case Failed(batch) => batch != [] && BatchRight(t, cfg, w, batch)
    case Reschedule(batch, attempts, known) =>
      batch != [] && BatchRight(t, cfg, w, batch) && CountRight(t, w, batch[0].intent.id, attempts, known)
    case Requeue(batch, attempts, known, at, dueAt) =>
      batch != [] && BatchRight(t, cfg, w, batch) && CountRight(t, w, batch[0].intent.id, attempts, known)
      && attempts < cfg.maxAttempts && dueAt == at + Delay(cfg.baseDelay, cfg.maxDelay, attempts)
      && Indexed(t.index, dueAt, batch[0].intent.id)
  }

  /** The pending row can be found through the index. */
  ghost predicate Covered(t: Tables, id: Id) {
    id in t.byId && (t.byId[id].status == Pending ==> Indexed(t.index, t.byId[id].nextAttempt, id))
  }

  ghost predicate EnqueuerRight(t: Tables, pc: EnqueuerPc) {
    pc.Link? ==> pc.intent.id in t.byId && (Covered(t, pc.intent.id) || t.byId[pc.intent.id].nextAttempt == pc.dueAt)
  }

  ghost predicate TablesRight(t: Tables, cfg: Config) { Logged(t) && InboxRight(t) && EventsRight(t, cfg) }

  ghost predicate Inv(s: State, cfg: Config) {
    && TablesRight(s.tables, cfg)
    && "" !in s.workers
    && (forall w :: w in s.workers ==> WorkerRight(s.tables, cfg, w, s.workers[w]))
    && (forall p :: p in s.enqueuers ==> EnqueuerRight(s.tables, s.enqueuers[p]))
    && (forall id :: id in s.finished ==> Covered(s.tables, id))
  }

  /** What the machine knows about the statement it sends. */
  ghost predicate ActionRight(t: Tables, cfg: Config, a: Action) {
    match a
    case Update(e, _) =>
      && PositiveLease(a) && (e.Claimed? ==> e.until == e.from + cfg.lease)
      && (e.Completed? && Legal(t.byId, e) ==> HasNote(t.inbox, Intent(e.id, t.byId[e.id].body)))
      && (e.Retried? && Legal(t.byId, e) ==>
           && e.dueAt == e.at + Delay(cfg.baseDelay, cfg.maxDelay, e.attempts) && 1 <= e.attempts < cfg.maxAttempts
           && e.attempts == (if e.known then t.byId[e.id].attempts + 1 else 1) && Indexed(t.index, e.dueAt, e.id))
      && (e.Died? && Legal(t.byId, e) ==> (if e.known then t.byId[e.id].attempts else 0) + 1 >= cfg.maxAttempts)
    case Push(intent, _) => Filed(t.byId, intent)
    case _ => true
  }

  lemma WorkerActionRight(t: Tables, clock: Time, cfg: Config, w: string, pc: WorkerPc, fault: Fault)
    requires cfg.Valid() && WorkerRight(t, cfg, w, pc)
    ensures ActionRight(t, cfg, WorkerAction(clock, cfg, w, pc, fault))
  {
    match pc
    case Finish(batch) => assert HeldRight(t, w, batch[0]);
    case Work(batch) => if batch != [] { assert HeldRight(t, w, batch[0]); }
    case _ =>
  }

  lemma ActInboxRight(t: Tables, cfg: Config, a: Action)
    requires InboxRight(t) && ActionRight(t, cfg, a)
    ensures InboxRight(Act(t, a))
  {}

  lemma ActAttemptsInRange(t: Tables, cfg: Config, a: Action)
    requires cfg.Valid() && ActionRight(t, cfg, a)
    requires forall id :: id in t.byId ==> 0 <= t.byId[id].attempts < cfg.maxAttempts
    ensures forall id :: id in Act(t, a).byId ==> 0 <= Act(t, a).byId[id].attempts < cfg.maxAttempts
  {}

  lemma NewEventRight(t: Tables, cfg: Config, e: Event, fault: Fault)
    requires Logged(t) && ActionRight(t, cfg, Update(e, fault)) && Legal(t.byId, e) && fault != NoEffect
    ensures EventRight(Act(t, Update(e, fault)), cfg, |t.log|)
  {
    var u := Act(t, Update(e, fault));
    assert u.log[..|t.log|] == t.log;
    assert u.log[|t.log|] == e;
  }

  lemma ActEventsRight(t: Tables, cfg: Config, a: Action)
    requires cfg.Valid() && Logged(t) && EventsRight(t, cfg) && ActionRight(t, cfg, a)
    ensures EventsRight(Act(t, a), cfg)
  {
    var u := Act(t, a);
    ActAttemptsInRange(t, cfg, a);
    forall i | 0 <= i < |u.log| ensures EventRight(u, cfg, i) {
      if i < |t.log| {
        assert u.log[..i] == t.log[..i];
        assert EventRight(t, cfg, i);
      } else {
        NewEventRight(t, cfg, a.e, a.fault);
      }
    }
  }

  lemma ActTablesRight(t: Tables, cfg: Config, a: Action)
    requires cfg.Valid() && TablesRight(t, cfg) && ActionRight(t, cfg, a)
    ensures TablesRight(Act(t, a), cfg) && Grows(t, Act(t, a))
  {
    ActGrows(t, a);
    ActLogged(t, a);
    ActInboxRight(t, cfg, a);
    ActEventsRight(t, cfg, a);
  }

  lemma BatchStays(t: Tables, u: Tables, cfg: Config, w: string, batch: seq<Held>)
    requires BatchRight(t, cfg, w, batch) && Grows(t, u)
    ensures BatchRight(u, cfg, w, batch)
    ensures forall now :: StampedAt(t, now, batch) ==> StampedAt(u, now, batch)
  {
    forall i | 0 <= i < |batch| ensures HeldRight(u, w, batch[i]) { assert HeldRight(t, w, batch[i]); }
  }

  ghost predicate BySomeoneElse(a: Action, w: string) { a.Update? && !a.e.Enqueued? ==> a.e.owner != w }

  /** Another process's statement never changes the attempt count under a lease of w. */
  lemma CountStays(t: Tables, cfg: Config, a: Action, w: string, id: Id, attempts: int, known: bool)
    requires CountRight(t, w, id, attempts, known) && BySomeoneElse(a, w) && w != ""
    ensures CountRight(Act(t, a), w, id, attempts, known)
  {}

  lemma NoteStays(t: Tables, cfg: Config, a: Action, intent: Intent)
    requires InboxRight(t) && ActionRight(t, cfg, a) && Filed(t.byId, intent) && HasNote(t.inbox, intent)
    ensures HasNote(Act(t, a).inbox, intent)
  {
    assert Filed(t.byId, Intent(intent.id, intent.body));
  }

  lemma WorkerUndisturbed(t: Tables, cfg: Config, a: Action, w: string, pc: WorkerPc)
    requires cfg.Valid() && TablesRight(t, cfg) && ActionRight(t, cfg, a) && WorkerRight(t, cfg, w, pc)
    requires BySomeoneElse(a, w) && w != ""
    ensures WorkerRight(Act(t, a), cfg, w, pc)
  {
    var u := Act(t, a);
    ActGrows(t, a);
    match pc
    case Idle =>
    case Query(now, _, got) => BatchStays(t, u, cfg, w, got);
    case Scan(now, _, rows, got) => BatchStays(t, u, cfg, w, got);
    case Claim(now, _, rows, got, intent) => BatchStays(t, u, cfg, w, got);
    case Work(batch) => BatchStays(t, u, cfg, w, batch);
    case Finish(batch) =>
      BatchStays(t, u, cfg, w, batch);
      assert HeldRight(t, w, batch[0]);
      NoteStays(t, cfg, a, batch[0].intent);
    case Failed(batch) => BatchStays(t, u, cfg, w, batch);
    case Reschedule(batch, attempts, known) =>
      BatchStays(t, u, cfg, w, batch);
      CountStays(t, cfg, a, w, batch[0].intent.id, attempts, known);
    case Requeue(batch, attempts, known, at, dueAt) =>
      BatchStays(t, u, cfg, w, batch);
      CountStays(t, cfg, a, w, batch[0].intent.id, attempts, known);
  }

  lemma ClaimExtends(t: Tables, cfg: Config, w: string, now: Time, day: nat, rows: seq<Entry>, got: seq<Held>,
      intent: Intent)
    requires BatchRight(t, cfg, w, got) && StampedAt(t, now, got) && |got| + |rows| < cfg.batchSize
             && Filed(t.byId, intent)
    requires Unleased(t.byId[intent.id], now)
    ensures WorkerRight(Act(t, Update(Claimed(intent.id, w, now, now + cfg.lease), NoFault)), cfg, w,
                        Scan(now, day, rows, got + [Held(intent, |t.log|)]))
  {
    var e := Claimed(intent.id, w, now, now + cfg.lease);
    var u := Act(t, Update(e, NoFault));
    ActGrows(t, Update(e, NoFault));
    BatchStays(t, u, cfg, w, got);
    assert u.log[|t.log|] == e;
  }

  lemma ClaimMisses(t: Tables, cfg: Config, w: string, now: Time, intent: Intent)
    requires intent.id in t.byId && !Unleased(t.byId[intent.id], now)
    ensures Act(t, Update(Claimed(intent.id, w, now, now + cfg.lease), NoFault)) == t
  {}

  lemma BatchTail(t: Tables, cfg: Config, w: string, batch: seq<Held>)
    requires BatchRight(t, cfg, w, batch) && batch != []
    ensures BatchRight(t, cfg, w, batch[1..])
  {}

  ghost predicate Advances(t: Tables, clock: Time, cfg: Config, w: string, pc: WorkerPc, fault: Fault) {
    WorkerRight(Act(t, WorkerAction(clock, cfg, w, pc, fault)), cfg, w, WorkerNext(t, clock, cfg, pc, fault))
  }

  lemma ScanAdvances(t: Tables, clock: Time, cfg: Config, w: string, pc: WorkerPc, fault: Fault)
    requires cfg.Valid() && WorkerRight(t, cfg, w, pc) && (pc.Idle? || pc.Query? || pc.Scan?)
    ensures Advances(t, clock, cfg, w, pc, fault)
  {
  }

  lemma ClaimWins(t: Tables, clock: Time, cfg: Config, w: string, pc: WorkerPc)
    requires pc.Claim? && WorkerRight(t, cfg, w, pc) && Unleased(t.byId[pc.intent.id], pc.now)
    ensures Advances(t, clock, cfg, w, pc, NoFault)
  {
    ClaimExtends(t, cfg, w, pc.now, pc.day, pc.rows, pc.got, pc.intent);
  }

  lemma ClaimLoses(t: Tables, clock: Time, cfg: Config, w: string, pc: WorkerPc)
    requires pc.Claim? && WorkerRight(t, cfg, w, pc) && !Unleased(t.byId[pc.intent.id], pc.now)
    ensures Advances(t, clock, cfg, w, pc, NoFault)
  {
    ClaimMisses(t, cfg, w, pc.now, pc.intent);
  }

  lemma ClaimAdvances(t: Tables, clock: Time, cfg: Config, w: string, pc: WorkerPc, fault: Fault)
    requires pc.Claim? && WorkerRight(t, cfg, w, pc)
    ensures Advances(t, clock, cfg, w, pc, fault)
  {
    if fault != NoFault {
      assert WorkerNext(t, clock, cfg, pc, fault) == Idle;
    } else if Unleased(t.byId[pc.intent.id], pc.now) {
      ClaimWins(t, clock, cfg, w, pc);
    } else {
      ClaimLoses(t, clock, cfg, w, pc);
    }
  }

  lemma WorkAdvances(t: Tables, clock: Time, cfg: Config, w: string, pc: WorkerPc, fault: Fault)
    requires EventsRight(t, cfg) && WorkerRight(t, cfg, w, pc) && (pc.Work? || pc.Failed?)
    ensures Advances(t, clock, cfg, w, pc, fault)
  {
    var a := WorkerAction(clock, cfg, w, pc, fault);
    ActGrows(t, a);
    BatchStays(t, Act(t, a), cfg, w, pc.batch);
    if pc.batch != [] { assert HeldRight(t, w, pc.batch[0]); }
  }

  lemma SettleAdvances(t: Tables, clock: Time, cfg: Config, w: string, pc: WorkerPc, fault: Fault)
    requires cfg.Valid() && WorkerRight(t, cfg, w, pc) && (pc.Finish? || pc.Reschedule? || pc.Requeue?)
    ensures Advances(t, clock, cfg, w, pc, fault)
  {
    var a := WorkerAction(clock, cfg, w, pc, fault);
    var u := Act(t, a);
    ActGrows(t, a);
    BatchStays(t, u, cfg, w, pc.batch);
    BatchTail(u, cfg, w, pc.batch);
    if a.Insert? { InsertGrows(t, a.intent, a.dueAt, a.fault); }
  }

  lemma WorkerAdvances(t: Tables, clock: Time, cfg: Config, w: string, pc: WorkerPc, fault: Fault)
    requires cfg.Valid() && EventsRight(t, cfg) && WorkerRight(t, cfg, w, pc)
    ensures Advances(t, clock, cfg, w, pc, fault)
  {
    if pc.Idle? || pc.Query? || pc.Scan? {
      ScanAdvances(t, clock, cfg, w, pc, fault);
    } else if pc.Claim? {
      ClaimAdvances(t, clock, cfg, w, pc, fault);
    } else if pc.Work? || pc.Failed? {
      WorkAdvances(t, clock, cfg, w, pc, fault);
    } else {
      SettleAdvances(t, clock, cfg, w, pc, fault);
    }
  }

  /** Coverage survives every statement: a retry only moves the due time to an indexed one. */
  lemma CoverageStays(t: Tables, cfg: Config, a: Action, id: Id)
    requires ActionRight(t, cfg, a) && Covered(t, id)
    ensures Covered(Act(t, a), id)
  {
    ActGrows(t, a);
  }

  lemma EnqueuerUndisturbed(t: Tables, cfg: Config, a: Action, pc: EnqueuerPc)
    requires ActionRight(t, cfg, a) && EnqueuerRight(t, pc)
    ensures EnqueuerRight(Act(t, a), pc)
  {
    ActGrows(t, a);
    if pc.Link? && Covered(t, pc.intent.id) { CoverageStays(t, cfg, a, pc.intent.id); }
  }

  lemma EnqueuerAdvances(t: Tables, now: Time, cfg: Config, pc: EnqueuerPc, fault: Fault)
    requires EnqueuerRight(t, pc)
    ensures ActionRight(t, cfg, EnqueuerAction(now, pc, fault))
    ensures var u := Act(t, EnqueuerAction(now, pc, fault));
            var r := EnqueuerNext(t, now, pc, fault);
            EnqueuerRight(u, r.0) && (r.1 ==> !pc.Quiet? && Covered(u, pc.intent.id))
  {
    ActGrows(t, EnqueuerAction(now, pc, fault));
    if pc.Link? {
      InsertGrows(t, pc.intent, pc.dueAt, fault);
    }
  }

  // ---------- the invariant over every run ----------

  lemma PcRight(s: State, cfg: Config, w: string)
    requires Inv(s, cfg)
    ensures WorkerRight(s.tables, cfg, w, PcOf(s, w))
  {}

  lemma StepActionRight(s: State, cfg: Config, step: Step)
    requires cfg.Valid() && Inv(s, cfg)
    ensures ActionRight(s.tables, cfg, StepAction(s, cfg, step))
  {
    if step.Worker? && step.w != "" {
      PcRight(s, cfg, step.w);
      WorkerActionRight(s.tables, s.clock, cfg, step.w, PcOf(s, step.w), step.fault);
    }
  }

  lemma WorkersKeep(s: State, cfg: Config, step: Step, w: string)
    requires cfg.Valid() && Inv(s, cfg) && ActionRight(s.tables, cfg, StepAction(s, cfg, step))
    requires w in Next(s, cfg, step).workers
    ensures w != "" && WorkerRight(Next(s, cfg, step).tables, cfg, w, Next(s, cfg, step).workers[w])
  {
    if step.Worker? && step.w == w {
      PcRight(s, cfg, w);
      WorkerAdvances(s.tables, s.clock, cfg, w, PcOf(s, w), step.fault);
    } else if !(step.WorkerCrash? && step.w == w) {
      WorkerUndisturbed(s.tables, cfg, StepAction(s, cfg, step), w, s.workers[w]);
    }
  }

  lemma EnqueuersKeep(s: State, cfg: Config, step: Step, p: nat)
    requires Inv(s, cfg) && ActionRight(s.tables, cfg, StepAction(s, cfg, step))
    requires p in Next(s, cfg, step).enqueuers
    ensures EnqueuerRight(Next(s, cfg, step).tables, Next(s, cfg, step).enqueuers[p])
  {
    if step.Enqueuer? && step.p == p {
      EnqueuerAdvances(s.tables, s.clock, cfg, EnqueuerOf(s, p), step.fault);
    } else if p in s.enqueuers && Next(s, cfg, step).enqueuers[p] == s.enqueuers[p] {
      EnqueuerUndisturbed(s.tables, cfg, StepAction(s, cfg, step), s.enqueuers[p]);
    }
  }

  lemma FinishedKeep(s: State, cfg: Config, step: Step, id: Id)
    requires Inv(s, cfg) && ActionRight(s.tables, cfg, StepAction(s, cfg, step))
    requires id in Next(s, cfg, step).finished
    ensures Covered(Next(s, cfg, step).tables, id)
  {
    if id in s.finished {
      CoverageStays(s.tables, cfg, StepAction(s, cfg, step), id);
    } else {
      EnqueuerAdvances(s.tables, s.clock, cfg, EnqueuerOf(s, step.p), step.fault);
    }
  }

  lemma StepKeepsInv(s: State, cfg: Config, step: Step)
    requires cfg.Valid() && Inv(s, cfg)
    ensures Inv(Next(s, cfg, step), cfg) && Grows(s.tables, Next(s, cfg, step).tables)
  {
    var s1 := Next(s, cfg, step);
    StepActionRight(s, cfg, step);
    ActTablesRight(s.tables, cfg, StepAction(s, cfg, step));
    forall w | w in s1.workers ensures w != "" && WorkerRight(s1.tables, cfg, w, s1.workers[w]) {
      WorkersKeep(s, cfg, step, w);
    }
    forall p | p in s1.enqueuers ensures EnqueuerRight(s1.tables, s1.enqueuers[p]) { EnqueuersKeep(s, cfg, step, p); }
    forall id | id in s1.finished ensures Covered(s1.tables, id) { FinishedKeep(s, cfg, step, id); }
  }

  lemma {:induction false} RunsKeepInv(cfg: Config, steps: seq<Step>)
    requires cfg.Valid()
    ensures Inv(Exec(Init(), cfg, steps), cfg)
    decreases |steps|
  {
    if steps != [] {
      RunsKeepInv(cfg, steps[..|steps| - 1]);
      StepKeepsInv(Exec(Init(), cfg, steps[..|steps| - 1]), cfg, steps[|steps| - 1]);
    }
  }
}
