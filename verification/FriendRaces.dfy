/** Friend requests under concurrency: any number of processes, each executing one Cassandra
    statement or Redis command per step, any of them stopping anywhere. */
module FriendRaces {
  import opened Friends

  /** One unconditional write; `add` tells inserting from deleting. */
  datatype Write =
    | Edge(u: User, f: User, add: bool)
    | MirrorTo(r: User, s: User, add: bool)
    | MirrorFrom(r: User, s: User, add: bool)
    | MirrorEdge(u: User, f: User, add: bool)
    | DeclinedKey(r: User, s: User, add: bool)

  function Put<T>(s: set<T>, x: T, add: bool): set<T> { if add then s + {x} else s - {x} }

  function DoWrite(t: Tables, w: Write): Tables {
    match w
    case Edge(u, f, add) => t.(edges := Put(t.edges, (u, f), add))
    case MirrorTo(r, s, add) => t.(mirrorTo := Put(t.mirrorTo, (r, s), add))
    case MirrorFrom(r, s, add) => t.(mirrorFrom := Put(t.mirrorFrom, (s, r), add))
    case MirrorEdge(u, f, add) => t.(mirrorEdges := Put(t.mirrorEdges, (u, f), add))
    case DeclinedKey(r, s, add) => t.(declinedKeys := Put(t.declinedKeys, (s, r), add))
  }

  function AcceptWrites(r: User, s: User): seq<Write> {
    [Edge(r, s, true), Edge(s, r, true), MirrorTo(r, s, false), MirrorFrom(r, s, false), MirrorEdge(r, s, true),
        MirrorEdge(s, r, true)]
  }

  function FallbackWrites(r: User, s: User): seq<Write> {
    [MirrorTo(r, s, false), MirrorFrom(r, s, false), MirrorEdge(r, s, true), MirrorEdge(s, r, true),
        Edge(r, s, true), Edge(s, r, true)]
  }

  function DeclineWrites(r: User, s: User): seq<Write> {
    [MirrorTo(r, s, false), MirrorFrom(r, s, false), DeclinedKey(r, s, true)]
  }

  function SendWrites(r: User, s: User): seq<Write> {
    [DeclinedKey(r, s, false), MirrorFrom(r, s, true), MirrorTo(r, s, true)]
  }

  function CancelWrites(r: User, s: User): seq<Write> { [MirrorTo(r, s, false), MirrorFrom(r, s, false)] }

  function UnfriendWrites(u: User, f: User): seq<Write> {
    [MirrorEdge(u, f, false), MirrorEdge(f, u, false), Edge(u, f, false), Edge(f, u, false)]
  }

  datatype Kind = Accepting | Declining | Cancelling

  /** What SendFriendRequest reads before it writes: the sender's edge in both stores, and the reverse
      request in both. */
  datatype Look = FriendRow | FriendMirror | ReverseRow | ReverseMirror

  /** Where a process stands; r is the recipient and s the sender of the request. */
  datatype Pc =
    | Idle
    | Read(kind: Kind, r: User, s: User)        // next: SELECT the row
    | Cas(kind: Kind, r: User, s: User)         // next: UPDATE or DELETE ... IF status = 'pending'
    | Reread(r: User, s: User)                  // next: the second SELECT of an accept whose CAS lost
    | Recheck(kind: Kind, r: User, s: User)     // next: the fallback's own SELECT
    | Mirror(kind: Kind, r: User, s: User)      // next: the fallback's HGET
    | Asking(r: User, s: User, look: Look)      // next: this check of SendFriendRequest
    | Insert(r: User, s: User)                  // next: INSERT IF NOT EXISTS
    | Existing(r: User, s: User)                // next: SELECT the existing status
    | Resend(r: User, s: User)                  // next: UPDATE ... IF status = 'declined'
    | Writing(writes: seq<Write>)               // next: writes[0]

  /** The conditional updates that applied, and the fallback's decision to accept without one. */
  datatype Event = Sent(r: User, s: User) | AcceptedCas(r: User, s: User) | DeclinedCas(r: User, s: User)
                 | CancelledCas(r: User, s: User) | Assumed(r: User, s: User)

  datatype State = State(tables: Tables, log: seq<Event>, processes: map<nat, Pc>)

  /** RequestOp is the service's SendFriendRequest, SendOp the repository's CreateFriendRequest in it. */
  datatype Op = AcceptOp(r: User, s: User) | DeclineOp(r: User, s: User) | CancelOp(r: User, s: User)
              | SendOp(r: User, s: User) | UnfriendOp(u: User, f: User) | RequestOp(r: User, s: User)

  datatype Step = Start(p: nat, op: Op) | Go(p: nat) | Stop(p: nat)

  function First(op: Op): Pc {
    match op
    case AcceptOp(r, s) => Read(Accepting, r, s)
    case DeclineOp(r, s) => Read(Declining, r, s)
    case CancelOp(r, s) => Read(Cancelling, r, s)
    case SendOp(r, s) => Insert(r, s)
    case UnfriendOp(u, f) => Writing(UnfriendWrites(u, f))
    case RequestOp(r, s) => if s == 0 || r == s then Idle else Asking(r, s, FriendRow)
  }

  // ---------- the request row and its conditional updates ----------

  type Requests = map<(User, User), Status>

  predicate Has(q: Requests, r: User, s: User, status: Status) { (r, s) in q && q[(r, s)] == status }

  predicate Legal(q: Requests, e: Event) {
    match e
    case Sent(r, s) => (r, s) !in q || Has(q, r, s, Declined)
    case Assumed(_, _) => true
    case _ => Has(q, e.r, e.s, Pending)
  }

  function Effect(q: Requests, e: Event): Requests {
    match e
    case Sent(r, s) => q[(r, s) := Pending]
    case AcceptedCas(r, s) => q[(r, s) := Accepted]
    case DeclinedCas(r, s) => q[(r, s) := Declined]
    case CancelledCas(r, s) => q - {(r, s)}
    case Assumed(_, _) => q
  }

  function Post(t: Tables, log: seq<Event>, e: Event): (Tables, seq<Event>) {
    (t.(requests := Effect(t.requests, e)), log + [e])
  }

  function EventOf(kind: Kind, r: User, s: User): Event {
    match kind
    case Accepting => AcceptedCas(r, s)
    case Declining => DeclinedCas(r, s)
    case Cancelling => CancelledCas(r, s)
  }

  function WritesOf(kind: Kind, r: User, s: User): seq<Write> {
    match kind
    case Accepting => AcceptWrites(r, s)
    case Declining => DeclineWrites(r, s)
    case Cancelling => CancelWrites(r, s)
  }

  /** One statement or command of a process. */
  function Advance(t: Tables, log: seq<Event>, pc: Pc): (Tables, seq<Event>, Pc) {
    match pc
    case Idle => (t, log, Idle)
    case Read(kind, r, s) =>
      if (r, s) !in t.requests then (t, log, Recheck(kind, r, s))
      else if t.requests[(r, s)] == Pending then (t, log, Cas(kind, r, s))
      else if (kind == Accepting && t.requests[(r, s)] == Accepted)
           || (kind == Declining && t.requests[(r, s)] == Declined)
        then (t, log, Writing(WritesOf(kind, r, s)))
      else (t, log, Idle)
    case Cas(kind, r, s) =>
      if Has(t.requests, r, s, Pending) then
        var p := Post(t, log, EventOf(kind, r, s));
        (p.0, p.1, Writing(WritesOf(kind, r, s)))
      else (t, log, if kind == Accepting then Reread(r, s) else Idle)
    case Reread(r, s) => (t, log, if Has(t.requests, r, s, Accepted) then Writing(AcceptWrites(r, s)) else Idle)
    case Recheck(kind, r, s) =>
      if (r, s) in t.requests && t.requests[(r, s)] != Pending then (t, log, Idle)
      else if (r, s) in t.requests then Fallback(t, log, kind, r, s)
      else (t, log, Mirror(kind, r, s))
    case Mirror(kind, r, s) => if (r, s) in t.mirrorTo then Fallback(t, log, kind, r, s) else (t, log, Idle)
    case Asking(r, s, FriendRow) => (t, log, if (s, r) in t.edges then Idle else Asking(r, s, FriendMirror))
    case Asking(r, s, FriendMirror) => (t, log, if (s, r) in t.mirrorEdges then Idle else Asking(r, s, ReverseRow))
    case Asking(r, s, ReverseRow) =>
      (t, log, if Has(t.requests, s, r, Pending) then Idle else Asking(r, s, ReverseMirror))
    case Asking(r, s, ReverseMirror) => (t, log, if (s, r) in t.mirrorTo then Idle else Insert(r, s))
    case Insert(r, s) =>
      if (r, s) !in t.requests then
        var p := Post(t, log, Sent(r, s));
        (p.0, p.1, Writing(SendWrites(r, s)))
      else (t, log, Existing(r, s))
    case Existing(r, s) => (t, log, if Has(t.requests, r, s, Declined) then Resend(r, s) else Idle)
    case Resend(r, s) =>
      if Has(t.requests, r, s, Declined) then
        var p := Post(t, log, Sent(r, s));
        (p.0, p.1, Writing(SendWrites(r, s)))
      else (t, log, Idle)
    case Writing(writes) => if writes == [] then (t, log, Idle) else (DoWrite(t, writes[0]), log, Writing(writes[1..]))
  }

  /** The Redis fallback goes on without any conditional update. */
  function Fallback(t: Tables, log: seq<Event>, kind: Kind, r: User, s: User): (Tables, seq<Event>, Pc) {
    match kind
    case Accepting => (t, log + [Assumed(r, s)], Writing(FallbackWrites(r, s)))
    case Declining => (t, log, Writing(DeclineWrites(r, s)))
    case Cancelling => (t, log, Writing(CancelWrites(r, s)))
  }

  function PcOf(s: State, p: nat): Pc { if p in s.processes then s.processes[p] else Idle }

  function Next(s: State, step: Step): State {
    match step
    case Start(p, op) =>
      if PcOf(s, p) == Idle || PcOf(s, p) == Writing([]) then s.(processes := s.processes[p := First(op)])
      else s
    case Go(p) => var a := Advance(s.tables, s.log, PcOf(s, p)); State(a.0, a.1, s.processes[p := a.2])
    case Stop(p) => s.(processes := s.processes[p := Idle])
  }

  function Exec(s: State, steps: seq<Step>): State
    decreases |steps|
  {
    if steps == [] then s else Next(Exec(s, steps[..|steps| - 1]), steps[|steps| - 1])
  }

  function Init(t: Tables): State { State(t, [], map[]) }

  // ---------- the log of one request ----------

  function Replay(q: Requests, log: seq<Event>): Requests {
    if log == [] then q else Effect(Replay(q, log[..|log| - 1]), log[|log| - 1])
  }

  ghost predicate LegalAt(q: Requests, log: seq<Event>, i: nat)
    requires i < |log|
  {
    Legal(Replay(q, log[..i]), log[i])
  }

  ghost predicate Applied(q: Requests, log: seq<Event>) {
    forall i :: 0 <= i < |log| ==> LegalAt(q, log, i)
  }

  lemma AppliedAppend(q: Requests, log: seq<Event>, e: Event)
    requires Applied(q, log) && Legal(Replay(q, log), e)
    ensures Applied(q, log + [e]) && Replay(q, log + [e]) == Effect(Replay(q, log), e)
  {
    var more := log + [e];
    assert more[..|log|] == log;
    forall i | 0 <= i < |more| ensures LegalAt(q, more, i) {
      if i < |log| {
        assert more[..i] == log[..i];
        assert LegalAt(q, log, i);
      }
    }
  }

  /** A step applies at most one conditional update, and logs it. */
  ghost predicate AtMostOne(q: Requests, log: seq<Event>, q': Requests, log': seq<Event>) {
    (q' == q && log' == log) ||
    (|log'| == |log| + 1 && log' == log + [log'[|log|]] && Legal(q, log'[|log|]) && q' == Effect(q, log'[|log|]))
  }

  lemma AdvanceIsOne(t: Tables, log: seq<Event>, pc: Pc)
    ensures var a := Advance(t, log, pc);
            AtMostOne(t.requests, log, a.0.requests, a.1)
  {}

  lemma {:induction false} RunsAreApplied(t: Tables, steps: seq<Step>)
    ensures var s := Exec(Init(t), steps);
            Applied(t.requests, s.log) && s.tables.requests == Replay(t.requests, s.log)
    decreases |steps|
  {
    if steps != [] {
      var s := Exec(Init(t), steps[..|steps| - 1]);
      RunsAreApplied(t, steps[..|steps| - 1]);
      var step := steps[|steps| - 1];
      if step.Go? {
        var a := Advance(s.tables, s.log, PcOf(s, step.p));
        AdvanceIsOne(s.tables, s.log, PcOf(s, step.p));
        if a.1 != s.log { AppliedAppend(t.requests, s.log, a.1[|s.log|]); }
      }
    }
  }

  lemma ReplayStep(q: Requests, log: seq<Event>, j: nat)
    requires j < |log|
    ensures Replay(q, log[..j + 1]) == Effect(Replay(q, log[..j]), log[j])
  {
    assert log[..j + 1][..j] == log[..j];
  }

  predicate EndsPhase(e: Event, r: User, s: User) {
    e == AcceptedCas(r, s) || e == DeclinedCas(r, s) || e == CancelledCas(r, s)
  }

  ghost predicate Between(log: seq<Event>, i: nat, j: nat, r: User, s: User, ends: bool) {
    exists k :: i < k < j <= |log| && (if ends then EndsPhase(log[k], r, s) else log[k] == Sent(r, s))
  }

  lemma {:induction false} StaysPending(q: Requests, log: seq<Event>, i: nat, j: nat, r: User, s: User)
    requires Applied(q, log) && i < j <= |log| && log[i] == Sent(r, s)
    requires forall k :: i < k < j ==> !EndsPhase(log[k], r, s)
    ensures Has(Replay(q, log[..j]), r, s, Pending)
    decreases j
  {
    ReplayStep(q, log, j - 1);
    if j > i + 1 {
      StaysPending(q, log, i, j - 1, r, s);
      assert LegalAt(q, log, j - 1);
    }
  }

  lemma EffectKeeps(q: Requests, e: Event, r: User, s: User)
    requires Legal(q, e)
    ensures !Has(q, r, s, Pending) && e != Sent(r, s) ==> !Has(Effect(q, e), r, s, Pending)
    ensures Has(q, r, s, Accepted) ==> Has(Effect(q, e), r, s, Accepted)
  {}

  lemma {:induction false} StaysSettled(q: Requests, log: seq<Event>, i: nat, j: nat, r: User, s: User)
    requires Applied(q, log) && i < j <= |log| && EndsPhase(log[i], r, s)
    requires forall k :: i < k < j ==> log[k] != Sent(r, s)
    ensures !Has(Replay(q, log[..j]), r, s, Pending)
    decreases j
  {
    ReplayStep(q, log, j - 1);
    assert LegalAt(q, log, j - 1);
    if j == i + 1 {
      EndSettles(Replay(q, log[..i]), log[i], r, s);
    } else {
      StaysSettled(q, log, i, j - 1, r, s);
      EffectKeeps(Replay(q, log[..j - 1]), log[j - 1], r, s);
    }
  }

  lemma EndSettles(q: Requests, e: Event, r: User, s: User)
    requires EndsPhase(e, r, s)
    ensures !Has(Effect(q, e), r, s, Pending)
  {}

  /** Over every interleaving: a request is sent again only after its phase was ended, each pending
      phase is ended by at most one conditional update, and an acceptance is final. */
  lemma PhasesEndOnce(t: Tables, steps: seq<Step>, i: nat, j: nat, r: User, s: User)
    requires i < j < |Exec(Init(t), steps).log|
    ensures var log := Exec(Init(t), steps).log;
            && (log[i] == Sent(r, s) && log[j] == Sent(r, s) ==> Between(log, i, j, r, s, true))
            && (EndsPhase(log[i], r, s) && EndsPhase(log[j], r, s) ==> Between(log, i, j, r, s, false))
            && (log[i] == AcceptedCas(r, s) ==> log[j] != Sent(r, s) && !EndsPhase(log[j], r, s))
  {
    RunsAreApplied(t, steps);
    var log := Exec(Init(t), steps).log;
    var q := t.requests;
    assert LegalAt(q, log, j);
    if log[i] == Sent(r, s) && log[j] == Sent(r, s) && !Between(log, i, j, r, s, true) {
      StaysPending(q, log, i, j, r, s);
    }
    if EndsPhase(log[i], r, s) && EndsPhase(log[j], r, s) && !Between(log, i, j, r, s, false) {
      StaysSettled(q, log, i, j, r, s);
    }
    if log[i] == AcceptedCas(r, s) { AcceptanceIsFinal(q, log, i, j, r, s); }
  }

  lemma {:induction false} AcceptanceIsFinal(q: Requests, log: seq<Event>, i: nat, j: nat, r: User, s: User)
    requires Applied(q, log) && i < j <= |log| && log[i] == AcceptedCas(r, s)
    ensures Has(Replay(q, log[..j]), r, s, Accepted)
    ensures j < |log| ==> log[j] != Sent(r, s) && !EndsPhase(log[j], r, s)
    decreases j
  {
    ReplayStep(q, log, j - 1);
    assert LegalAt(q, log, j - 1);
    if j > i + 1 {
      AcceptanceIsFinal(q, log, i, j - 1, r, s);
      EffectKeeps(Replay(q, log[..j - 1]), log[j - 1], r, s);
    }
    if j < |log| { assert LegalAt(q, log, j); }
  }

  // ---------- friendships come from acceptances ----------

  /** Some process decided to accept a request between the two. */
  ghost predicate Made(log: seq<Event>, u: User, f: User) {
    exists i :: 0 <= i < |log| &&
      (log[i] == AcceptedCas(u, f) || log[i] == AcceptedCas(f, u) || log[i] == Assumed(u, f) || log[i] == Assumed(f, u))
  }

  /** The row was accepted before the run. */
  predicate AlreadyAccepted(q: Requests, u: User, f: User) { Has(q, u, f, Accepted) || Has(q, f, u, Accepted) }

  ghost predicate Justified(t: Tables, log: seq<Event>, u: User, f: User) {
    Made(log, u, f) || AlreadyAccepted(t.requests, u, f)
  }

  /** The write adds an edge, in Cassandra or in the mirror. */
  predicate AddsEdge(w: Write) { (w.Edge? || w.MirrorEdge?) && w.add }

  ghost predicate WritesJustified(t: Tables, log: seq<Event>, pc: Pc) {
    pc.Writing? ==> forall i :: 0 <= i < |pc.writes| && AddsEdge(pc.writes[i])
                      ==> Justified(t, log, pc.writes[i].u, pc.writes[i].f)
  }

  ghost predicate EdgesJustified(t: Tables, s: State) {
    && (forall u: User, f: User :: (u, f) in s.tables.edges ==> (u, f) in t.edges || Justified(t, s.log, u, f))
    && (forall u: User, f: User :: (u, f) in s.tables.mirrorEdges
          ==> (u, f) in t.mirrorEdges || Justified(t, s.log, u, f))
    && (forall p :: p in s.processes ==> WritesJustified(t, s.log, s.processes[p]))
  }

  lemma MadeGrows(log: seq<Event>, e: Event, u: User, f: User)
    ensures Made(log, u, f) ==> Made(log + [e], u, f)
    ensures e == AcceptedCas(u, f) || e == Assumed(u, f) ==> Made(log + [e], u, f) && Made(log + [e], f, u)
  {
    var more := log + [e];
    assert more[|log|] == e;
    if i :| 0 <= i < |log| && (log[i] == AcceptedCas(u, f) || log[i] == AcceptedCas(f, u) || log[i] == Assumed(u, f)
                              || log[i] == Assumed(f, u)) {
      assert more[i] == log[i];
    }
  }

  lemma JustifiedGrows(t: Tables, log: seq<Event>, log': seq<Event>, u: User, f: User)
    requires log' == log || (|log'| == |log| + 1 && log' == log + [log'[|log|]])
    ensures Justified(t, log, u, f) ==> Justified(t, log', u, f)
  {
    if log' != log { MadeGrows(log, log'[|log|], u, f); }
  }

  /** An accepted row was accepted before the run or by an applied update in it. */
  lemma {:induction false} AcceptedRowsJustified(t: Tables, log: seq<Event>, r: User, s: User)
    requires Applied(t.requests, log) && Has(Replay(t.requests, log), r, s, Accepted)
    ensures Justified(t, log, r, s) && Justified(t, log, s, r)
    decreases |log|
  {
    if log != [] {
      var before, e := log[..|log| - 1], log[|log| - 1];
      assert log == before + [e];
      forall i | 0 <= i < |before| ensures LegalAt(t.requests, before, i) {
        assert before[..i] == log[..i];
        assert LegalAt(t.requests, log, i);
      }
      MadeGrows(before, e, r, s);
      MadeGrows(before, e, s, r);
      if e != AcceptedCas(r, s) { AcceptedRowsJustified(t, before, r, s); }
    }
  }

  ghost predicate BothJustified(t: Tables, log: seq<Event>, r: User, s: User) {
    Justified(t, log, r, s) && Justified(t, log, s, r)
  }

  lemma FriendWritesJustified(t: Tables, log: seq<Event>, r: User, s: User)
    requires BothJustified(t, log, r, s)
    ensures WritesJustified(t, log, Writing(AcceptWrites(r, s)))
            && WritesJustified(t, log, Writing(FallbackWrites(r, s)))
  {}

  /** Accept writes are only ever started with an acceptance on record. */
  lemma AdvanceStartsJustified(t: Tables, s: State, pc: Pc)
    requires Applied(t.requests, s.log) && s.tables.requests == Replay(t.requests, s.log) && !pc.Writing?
    ensures var a := Advance(s.tables, s.log, pc);
            a.2.Writing? ==> (exists r: User, u: User ::
                                (a.2.writes == AcceptWrites(r, u) || a.2.writes == FallbackWrites(r, u))
                                    && BothJustified(t, a.1, r, u))
                             || (forall i :: 0 <= i < |a.2.writes| ==> !AddsEdge(a.2.writes[i]))
  {
    var a := Advance(s.tables, s.log, pc);
    if a.2.Writing? && (pc.Read? || pc.Reread?) && Has(s.tables.requests, pc.r, pc.s, Accepted) {
      AcceptedRowsJustified(t, s.log, pc.r, pc.s);
      assert BothJustified(t, a.1, pc.r, pc.s);
    }
    if a.2.Writing? && (pc.Cas? || pc.Recheck? || pc.Mirror?) && pc.kind == Accepting {
      MadeGrows(s.log, if pc.Cas? then AcceptedCas(pc.r, pc.s) else Assumed(pc.r, pc.s), pc.r, pc.s);
      assert BothJustified(t, a.1, pc.r, pc.s);
    }
  }

  lemma AdvanceWritesJustified(t: Tables, s: State, pc: Pc)
    requires Applied(t.requests, s.log) && s.tables.requests == Replay(t.requests, s.log)
             && WritesJustified(t, s.log, pc)
    ensures var a := Advance(s.tables, s.log, pc);
            WritesJustified(t, a.1, a.2)
  {
    var a := Advance(s.tables, s.log, pc);
    if !pc.Writing? && a.2.Writing? {
      AdvanceStartsJustified(t, s, pc);
      if r: User, u: User :| (a.2.writes == AcceptWrites(r, u) || a.2.writes == FallbackWrites(r, u))
                             && BothJustified(t, a.1, r, u) {
        FriendWritesJustified(t, a.1, r, u);
      }
    }
  }

  lemma AdvanceEdgesJustified(t: Tables, s: State, pc: Pc)
    requires WritesJustified(t, s.log, pc)
    ensures var a := Advance(s.tables, s.log, pc);
            && (forall u: User, f: User :: (u, f) in a.0.edges
                  ==> (u, f) in s.tables.edges || Justified(t, s.log, u, f))
            && (forall u: User, f: User :: (u, f) in a.0.mirrorEdges
                  ==> (u, f) in s.tables.mirrorEdges || Justified(t, s.log, u, f))
  {}

  lemma {:induction false} RunsJustifyEdges(t: Tables, steps: seq<Step>)
    ensures EdgesJustified(t, Exec(Init(t), steps))
    decreases |steps|
  {
    if steps != [] {
      var s := Exec(Init(t), steps[..|steps| - 1]);
      var step := steps[|steps| - 1];
      RunsJustifyEdges(t, steps[..|steps| - 1]);
      if step.Go? {
        GoJustifies(t, s, step.p, steps[..|steps| - 1]);
      }
    }
  }

  lemma GoJustifies(t: Tables, s: State, p: nat, steps: seq<Step>)
    requires s == Exec(Init(t), steps) && EdgesJustified(t, s)
    ensures EdgesJustified(t, Next(s, Go(p)))
  {
    var pc := PcOf(s, p);
    var u := Next(s, Go(p));
    RunsAreApplied(t, steps);
    AdvanceIsOne(s.tables, s.log, pc);
    AdvanceWritesJustified(t, s, pc);
    AdvanceEdgesJustified(t, s, pc);
    forall a: User, f: User | (a, f) in u.tables.edges ensures (a, f) in t.edges || Justified(t, u.log, a, f) {
      JustifiedGrows(t, s.log, u.log, a, f);
    }
    forall a: User, f: User | (a, f) in u.tables.mirrorEdges
      ensures (a, f) in t.mirrorEdges || Justified(t, u.log, a, f) {
      JustifiedGrows(t, s.log, u.log, a, f);
    }
    forall q | q in u.processes ensures WritesJustified(t, u.log, u.processes[q]) {
      if q != p { WritesStayJustified(t, s.log, u.log, u.processes[q]); }
    }
  }

  lemma WritesStayJustified(t: Tables, log: seq<Event>, log': seq<Event>, pc: Pc)
    requires log' == log || (|log'| == |log| + 1 && log' == log + [log'[|log|]])
    requires WritesJustified(t, log, pc)
    ensures WritesJustified(t, log', pc)
  {
    if pc.Writing? {
      forall i | 0 <= i < |pc.writes| && AddsEdge(pc.writes[i])
        ensures Justified(t, log', pc.writes[i].u, pc.writes[i].f)
      {
        JustifiedGrows(t, log, log', pc.writes[i].u, pc.writes[i].f);
      }
    }
  }

  // ---------- one pair of users among all others ----------

  ghost predicate NeverStarts(steps: seq<Step>, op: Op) {
    forall i :: 0 <= i < |steps| && steps[i].Start? ==> steps[i].op != op
  }

  /** Nobody accepts this request, or its row is stored and nobody cancels it: an accept of it always
      finds a row, and never gets to the mirror's answer. */
  ghost predicate NoFallback(q: Requests, steps: seq<Step>, r: User, s: User) {
    NeverStarts(steps, AcceptOp(r, s)) || ((r, s) in q && NeverStarts(steps, CancelOp(r, s)))
  }

  predicate AboutRequest(pc: Pc, kind: Kind, r: User, s: User) {
    (pc.Read? || pc.Cas? || pc.Recheck? || pc.Mirror?) && pc.kind == kind && pc.r == r && pc.s == s
  }

  /** Places no process gets to without an accept of the request. */
  predicate NotAccepting(pc: Pc, r: User, s: User) { !AboutRequest(pc, Accepting, r, s) }

  /** Places no process gets to while the row is stored and nobody cancels it. */
  predicate RowFound(pc: Pc, r: User, s: User) {
    !AboutRequest(pc, Cancelling, r, s) && !(AboutRequest(pc, Accepting, r, s) && (pc.Recheck? || pc.Mirror?))
  }

  ghost predicate NeverAssumed(log: seq<Event>, r: User, s: User) { Assumed(r, s) !in log }

  lemma AdvanceNotAccepting(t: Tables, log: seq<Event>, pc: Pc, r: User, s: User)
    requires NotAccepting(pc, r, s) && NeverAssumed(log, r, s)
    ensures var a := Advance(t, log, pc); NotAccepting(a.2, r, s) && NeverAssumed(a.1, r, s)
  {}

  lemma AdvanceRowFound(t: Tables, log: seq<Event>, pc: Pc, r: User, s: User)
    requires (r, s) in t.requests && RowFound(pc, r, s) && NeverAssumed(log, r, s)
    ensures var a := Advance(t, log, pc); (r, s) in a.0.requests && RowFound(a.2, r, s) && NeverAssumed(a.1, r, s)
  {}

  lemma {:induction false} WithoutAccepts(t: Tables, steps: seq<Step>, r: User, s: User)
    requires NeverStarts(steps, AcceptOp(r, s))
    ensures var st := Exec(Init(t), steps);
            NeverAssumed(st.log, r, s) && forall p :: p in st.processes ==> NotAccepting(st.processes[p], r, s)
    decreases |steps|
  {
    if steps != [] {
      var st, step := Exec(Init(t), steps[..|steps| - 1]), steps[|steps| - 1];
      WithoutAccepts(t, steps[..|steps| - 1], r, s);
      if step.Go? { AdvanceNotAccepting(st.tables, st.log, PcOf(st, step.p), r, s); }
    }
  }

  lemma {:induction false} WithItsRow(t: Tables, steps: seq<Step>, r: User, s: User)
    requires (r, s) in t.requests && NeverStarts(steps, CancelOp(r, s))
    ensures var st := Exec(Init(t), steps);
            && (r, s) in st.tables.requests && NeverAssumed(st.log, r, s)
            && forall p :: p in st.processes ==> RowFound(st.processes[p], r, s)
    decreases |steps|
  {
    if steps != [] {
      var st, step := Exec(Init(t), steps[..|steps| - 1]), steps[|steps| - 1];
      WithItsRow(t, steps[..|steps| - 1], r, s);
      if step.Go? { AdvanceRowFound(st.tables, st.log, PcOf(st, step.p), r, s); }
    }
  }

  lemma NothingAssumed(t: Tables, steps: seq<Step>, r: User, s: User)
    requires NoFallback(t.requests, steps, r, s)
    ensures NeverAssumed(Exec(Init(t), steps).log, r, s)
  {
    if NeverStarts(steps, AcceptOp(r, s)) { WithoutAccepts(t, steps, r, s); } else { WithItsRow(t, steps, r, s); }
  }

  /** Over every interleaving of any operations of any users: two users who were not friends, with no
      accepted row between them, become friends, for the user service or for chat, only through an
      applied accept update of one of their two requests, or through the mirror fallback, which only a
      request can take that is accepted in the run and had no row at the start or is cancelled in it. */
  lemma FriendsOnlyByAccepting(t: Tables, steps: seq<Step>, r: User, s: User)
    requires !AlreadyAccepted(t.requests, r, s) && !IsFriend(t, r, s) && !ChatAreFriends(t, r, s)
    ensures var st := Exec(Init(t), steps);
            IsFriend(st.tables, r, s) || ChatAreFriends(st.tables, r, s) ==>
              || AcceptedCas(r, s) in st.log || AcceptedCas(s, r) in st.log
              || (Assumed(r, s) in st.log && !NoFallback(t.requests, steps, r, s))
              || (Assumed(s, r) in st.log && !NoFallback(t.requests, steps, s, r))
  {
    if NoFallback(t.requests, steps, r, s) { NothingAssumed(t, steps, r, s); }
    if NoFallback(t.requests, steps, s, r) { NothingAssumed(t, steps, s, r); }
    RunsJustifyEdges(t, steps);
    var st := Exec(Init(t), steps);
    if IsFriend(st.tables, r, s) || ChatAreFriends(st.tables, r, s) {
      assert Justified(t, st.log, r, s);
      assert Made(st.log, r, s);
    }
  }

  // ---------- requests both ways ----------

  predicate BothPend(q: Requests, r: User, s: User) { Has(q, r, s, Pending) && Has(q, s, r, Pending) }

  /** Step m of the run is the check of p's request to r for the reverse row, and it passes. */
  ghost predicate PassedAt(t: Tables, steps: seq<Step>, r: User, s: User, p: nat, m: nat) {
    && m < |steps| && steps[m] == Go(p)
    && PcOf(Exec(Init(t), steps[..m]), p) == Asking(r, s, ReverseRow)
    && !Has(Exec(Init(t), steps[..m]).tables.requests, s, r, Pending)
  }

  /** And step n applies the request's update although the reverse request pends by then. */
  ghost predicate Crosses(t: Tables, steps: seq<Step>, r: User, s: User, p: nat, m: nat, n: nat) {
    && PassedAt(t, steps, r, s, p, m) && m < n < |steps| && steps[n] == Go(p)
    && var st := Exec(Init(t), steps[..n]);
       (PcOf(st, p) == Insert(r, s) || PcOf(st, p) == Resend(r, s))
       && Has(st.tables.requests, s, r, Pending)
       && Has(Next(st, steps[n]).tables.requests, r, s, Pending) && !Has(st.tables.requests, r, s, Pending)
  }

  ghost predicate SomeCross(t: Tables, steps: seq<Step>, r: User, s: User) {
    exists p: nat, m: nat, n: nat :: Crosses(t, steps, r, s, p, m, n)
  }

  lemma PassedGrows(t: Tables, steps: seq<Step>, more: seq<Step>, r: User, s: User, p: nat, m: nat)
    requires steps <= more && PassedAt(t, steps, r, s, p, m)
    ensures PassedAt(t, more, r, s, p, m)
  {
    assert more[..m] == steps[..m];
  }

  lemma CrossGrows(t: Tables, steps: seq<Step>, more: seq<Step>, r: User, s: User)
    requires steps <= more && SomeCross(t, steps, r, s)
    ensures SomeCross(t, more, r, s)
  {
    var p: nat, m: nat, n: nat :| Crosses(t, steps, r, s, p, m, n);
    PassedGrows(t, steps, more, r, s, p, m);
    assert more[..n] == steps[..n];
    assert Crosses(t, more, r, s, p, m, n);
  }

  /** Places of a request that passed the check for the reverse row. */
  predicate Past(pc: Pc, r: User, s: User) {
    pc == Asking(r, s, ReverseMirror) || pc == Insert(r, s) || pc == Existing(r, s) || pc == Resend(r, s)
  }

  lemma {:induction false} PastHasPassed(t: Tables, steps: seq<Step>, r: User, s: User, p: nat)
    requires NeverStarts(steps, SendOp(r, s)) && Past(PcOf(Exec(Init(t), steps), p), r, s)
    ensures exists m: nat :: PassedAt(t, steps, r, s, p, m)
    decreases |steps|
  {
    var n, init := |steps| - 1, steps[..|steps| - 1];
    var pc := PcOf(Exec(Init(t), init), p);
    if steps[n] == Go(p) && pc == Asking(r, s, ReverseRow) {
      assert PassedAt(t, steps, r, s, p, n);
    } else {
      assert Past(pc, r, s);
      PastHasPassed(t, init, r, s, p);
      var m: nat :| PassedAt(t, init, r, s, p, m);
      PassedGrows(t, init, steps, r, s, p, m);
    }
  }

  /** Only a send makes a request pending. */
  lemma PendsBySending(s: State, step: Step, r: User, u: User)
    requires !Has(s.tables.requests, r, u, Pending) && Has(Next(s, step).tables.requests, r, u, Pending)
    ensures step.Go? && (PcOf(s, step.p) == Insert(r, u) || PcOf(s, step.p) == Resend(r, u))
    ensures forall x: User, y: User :: (x, y) != (r, u) ==>
              (Has(s.tables.requests, x, y, Pending) <==> Has(Next(s, step).tables.requests, x, y, Pending))
  {}

  lemma LastStepCrosses(t: Tables, steps: seq<Step>, r: User, s: User)
    requires r != s && steps != [] && NeverStarts(steps, SendOp(r, s))
    requires var before := Exec(Init(t), steps[..|steps| - 1]).tables.requests;
             !Has(before, r, s, Pending) && Has(before, s, r, Pending)
    requires Has(Exec(Init(t), steps).tables.requests, r, s, Pending)
    ensures SomeCross(t, steps, r, s)
  {
    var n, init := |steps| - 1, steps[..|steps| - 1];
    var st := Exec(Init(t), init);
    PendsBySending(st, steps[n], r, s);
    var p := steps[n].p;
    PastHasPassed(t, init, r, s, p);
    var m: nat :| PassedAt(t, init, r, s, p, m);
    PassedGrows(t, init, steps, r, s, p, m);
    assert Crosses(t, steps, r, s, p, m, n);
  }

  lemma {:induction false} BothPendByCrossing(t: Tables, steps: seq<Step>, r: User, s: User)
    requires r != s && !BothPend(t.requests, r, s) && BothPend(Exec(Init(t), steps).tables.requests, r, s)
    requires NeverStarts(steps, SendOp(r, s)) && NeverStarts(steps, SendOp(s, r))
    ensures SomeCross(t, steps, r, s) || SomeCross(t, steps, s, r)
    decreases |steps|
  {
    var n, init := |steps| - 1, steps[..|steps| - 1];
    var before := Exec(Init(t), init);
    if BothPend(before.tables.requests, r, s) {
      BothPendByCrossing(t, init, r, s);
      if SomeCross(t, init, r, s) { CrossGrows(t, init, steps, r, s); } else { CrossGrows(t, init, steps, s, r); }
    } else if Has(before.tables.requests, r, s, Pending) {
      LastStepCrosses(t, steps, s, r);
    } else {
      PendsBySending(before, steps[n], r, s);
      LastStepCrosses(t, steps, r, s);
    }
  }

  lemma CrossingPends(t: Tables, steps: seq<Step>, r: User, s: User) returns (k: nat)
    requires r != s && SomeCross(t, steps, r, s)
    ensures k <= |steps| && BothPend(Exec(Init(t), steps[..k]).tables.requests, r, s)
  {
    var p: nat, m: nat, n: nat :| Crosses(t, steps, r, s, p, m, n);
    k := n + 1;
    CrossedPend(t, steps, r, s, p, m, n);
    ExecNext(Init(t), steps, n);
  }

  lemma ExecNext(s: State, steps: seq<Step>, n: nat)
    requires n < |steps|
    ensures Exec(s, steps[..n + 1]) == Next(Exec(s, steps[..n]), steps[n])
  {
    assert steps[..n + 1][..n] == steps[..n];
  }

  lemma CrossedPend(t: Tables, steps: seq<Step>, r: User, s: User, p: nat, m: nat, n: nat)
    requires r != s && Crosses(t, steps, r, s, p, m, n)
    ensures BothPend(Next(Exec(Init(t), steps[..n]), steps[n]).tables.requests, r, s)
  {
    PendsBySending(Exec(Init(t), steps[..n]), steps[n], r, s);
  }

  /** When all sends go through SendFriendRequest: at some time requests pend both ways exactly when two
      sends cross, the one checking for the reverse request before the other applies and applying after. */
  lemma BothPendExactlyWhen(t: Tables, steps: seq<Step>, r: User, s: User)
    requires r != s && !BothPend(t.requests, r, s)
    requires NeverStarts(steps, SendOp(r, s)) && NeverStarts(steps, SendOp(s, r))
    ensures (exists k: nat :: k <= |steps| && BothPend(Exec(Init(t), steps[..k]).tables.requests, r, s))
            <==> SomeCross(t, steps, r, s) || SomeCross(t, steps, s, r)
  {
    if k: nat :| k <= |steps| && BothPend(Exec(Init(t), steps[..k]).tables.requests, r, s) {
      BothPendByCrossing(t, steps[..k], r, s);
      if SomeCross(t, steps[..k], r, s) {
        CrossGrows(t, steps[..k], steps, r, s);
      } else {
        CrossGrows(t, steps[..k], steps, s, r);
      }
    }
    if SomeCross(t, steps, r, s) { var k := CrossingPends(t, steps, r, s); }
    if SomeCross(t, steps, s, r) { var k := CrossingPends(t, steps, s, r); }
  }

  // ---------- a process left alone ----------

  function Solo(t: Tables, log: seq<Event>, pc: Pc, n: nat): (Tables, seq<Event>, Pc)
    decreases n
  {
    if n == 0 then (t, log, pc)
    else var a := Advance(t, log, pc); Solo(a.0, a.1, a.2, n - 1)
  }

  function DoAll(t: Tables, writes: seq<Write>): Tables
    decreases |writes|
  {
    if writes == [] then t else DoAll(DoWrite(t, writes[0]), writes[1..])
  }

  lemma {:induction false} SoloWrites(t: Tables, log: seq<Event>, writes: seq<Write>)
    ensures Solo(t, log, Writing(writes), |writes|) == (DoAll(t, writes), log, Writing([]))
    decreases |writes|
  {
    if writes != [] { SoloWrites(DoWrite(t, writes[0]), log, writes[1..]); }
  }

  lemma {:induction false} SoloIsARun(s: State, p: nat, n: nat) returns (steps: seq<Step>)
    requires p in s.processes
    ensures steps == seq(n, _ => Go(p))
    ensures var a := Solo(s.tables, s.log, s.processes[p], n);
            Exec(s, steps) == State(a.0, a.1, s.processes[p := a.2])
    decreases n
  {
    if n == 0 {
      steps := [];
      assert s.processes[p := s.processes[p]] == s.processes;
    } else {
      var s1 := Next(s, Go(p));
      var rest := SoloIsARun(s1, p, n - 1);
      steps := [Go(p)] + rest;
      ExecCons(s, Go(p), rest);
      var a := Solo(s.tables, s.log, s.processes[p], n);
      assert s1.processes[p := a.2] == s.processes[p := a.2];
    }
  }

  lemma {:induction false} ExecCons(s: State, step: Step, rest: seq<Step>)
    ensures Exec(s, [step] + rest) == Exec(Next(s, step), rest)
    decreases |rest|
  {
    var all := [step] + rest;
    if rest == [] {
      assert all == [step] && [step][..0] == [];
    } else {
      assert all[..|all| - 1] == [step] + rest[..|rest| - 1];
      ExecCons(s, step, rest[..|rest| - 1]);
    }
  }

  /** What an operation does as one uninterrupted call. */
  function Called(t: Tables, op: Op): Tables {
    match op
    case AcceptOp(r, s) => Accept(t, r, s).0
    case DeclineOp(r, s) => Decline(t, r, s).0
    case CancelOp(r, s) => Cancel(t, s, r).0
    case SendOp(r, s) => Create(t, s, r).0
    case UnfriendOp(u, f) => Unfriend(t, u, f)
    case RequestOp(r, s) => Send(t, {r, s}, s, r, NotAsked).0
  }

  lemma DoTwo(t: Tables, a: Write, b: Write, rest: seq<Write>)
    ensures DoAll(t, [a, b] + rest) == DoAll(DoWrite(DoWrite(t, a), b), rest)
  {
    var all := [a, b] + rest;
    assert all[1..][1..] == rest && all[1..][0] == b;
  }

  lemma AcceptWritesAddUp(t: Tables, r: User, s: User)
    ensures DoAll(t, AcceptWrites(r, s)) == Befriend(DropMirror(t, r, s), r, s)
  {
    var w := AcceptWrites(r, s);
    var u := DoWrite(DoWrite(t, w[0]), w[1]);
    var v := DoWrite(DoWrite(u, w[2]), w[3]);
    DoTwo(t, w[0], w[1], w[2..]);
    DoTwo(u, w[2], w[3], w[4..]);
    DoTwo(v, w[4], w[5], []);
    assert w == [w[0], w[1]] + w[2..] && w[2..] == [w[2], w[3]] + w[4..] && w[4..] == [w[4], w[5]] + [];
    assert (t.edges + {(r, s)}) + {(s, r)} == t.edges + {(r, s), (s, r)};
    assert (t.mirrorEdges + {(r, s)}) + {(s, r)} == t.mirrorEdges + {(r, s), (s, r)};
  }

  lemma FallbackWritesAddUp(t: Tables, r: User, s: User)
    ensures DoAll(t, FallbackWrites(r, s)) == Befriend(DropMirror(t, r, s), r, s)
  {
    var w := FallbackWrites(r, s);
    var u := DoWrite(DoWrite(t, w[0]), w[1]);
    var v := DoWrite(DoWrite(u, w[2]), w[3]);
    DoTwo(t, w[0], w[1], w[2..]);
    DoTwo(u, w[2], w[3], w[4..]);
    DoTwo(v, w[4], w[5], []);
    assert w == [w[0], w[1]] + w[2..] && w[2..] == [w[2], w[3]] + w[4..] && w[4..] == [w[4], w[5]] + [];
    assert (t.edges + {(r, s)}) + {(s, r)} == t.edges + {(r, s), (s, r)};
    assert (t.mirrorEdges + {(r, s)}) + {(s, r)} == t.mirrorEdges + {(r, s), (s, r)};
  }

  lemma OtherWritesAddUp(t: Tables, r: User, s: User)
    ensures DoAll(t, DeclineWrites(r, s)) == DropMirror(t.(declinedKeys := t.declinedKeys + {(s, r)}), r, s)
    ensures DoAll(t, CancelWrites(r, s)) == DropMirror(t, r, s)
    ensures DoAll(t, SendWrites(r, s)) ==
            t.(declinedKeys := t.declinedKeys - {(s, r)}, mirrorFrom := t.mirrorFrom + {(s, r)},
                mirrorTo := t.mirrorTo + {(r, s)})
  {
    var d, c, n := DeclineWrites(r, s), CancelWrites(r, s), SendWrites(r, s);
    DoTwo(t, d[0], d[1], [d[2]]);
    DoTwo(t, c[0], c[1], []);
    DoTwo(t, n[0], n[1], [n[2]]);
    assert d == [d[0], d[1]] + [d[2]] && c == [c[0], c[1]] + [] && n == [n[0], n[1]] + [n[2]];
  }

  lemma UnfriendWritesAddUp(t: Tables, u: User, f: User)
    ensures DoAll(t, UnfriendWrites(u, f)) == Unfriend(t, u, f)
  {
    var w := UnfriendWrites(u, f);
    DoTwo(t, w[0], w[1], w[2..]);
    DoTwo(DoWrite(DoWrite(t, w[0]), w[1]), w[2], w[3], []);
    assert w == [w[0], w[1]] + w[2..] && w[2..] == [w[2], w[3]] + [];
    assert (t.edges - {(u, f)}) - {(f, u)} == t.edges - {(u, f), (f, u)};
    assert (t.mirrorEdges - {(u, f)}) - {(f, u)} == t.mirrorEdges - {(u, f), (f, u)};
  }

  lemma {:induction false} SoloSplits(t: Tables, log: seq<Event>, pc: Pc, m: nat, n: nat)
    ensures var a := Solo(t, log, pc, m);
            Solo(t, log, pc, m + n) == Solo(a.0, a.1, a.2, n)
    decreases m
  {
    if m > 0 {
      var a := Advance(t, log, pc);
      SoloSplits(a.0, a.1, a.2, m - 1, n);
    }
  }

  /** The place reached after the conditional part of an operation: one to three statements. */
  function Decided(t: Tables, log: seq<Event>, pc: Pc): (Tables, seq<Event>, Pc) {
    var a := Advance(t, log, pc);
    if a.2.Writing? || a.2 == Idle then a
    else
      var b := Advance(a.0, a.1, a.2);
      if b.2.Writing? || b.2 == Idle then b else Advance(b.0, b.1, b.2)
  }

  lemma DecidedIsSolo(t: Tables, log: seq<Event>, pc: Pc) returns (k: nat)
    ensures Solo(t, log, pc, k) == Decided(t, log, pc)
  {
    var a := Advance(t, log, pc);
    var b := Advance(a.0, a.1, a.2);
    var c := Advance(b.0, b.1, b.2);
    k := if a.2.Writing? || a.2 == Idle then 1 else if b.2.Writing? || b.2 == Idle then 2 else 3;
    SoloSplits(t, log, pc, 0, 1);
    SoloSplits(t, log, pc, 1, 1);
    SoloSplits(t, log, pc, 2, 1);
    SoloSplits(a.0, a.1, a.2, 0, 1);
    SoloSplits(b.0, b.1, b.2, 0, 1);
    assert Solo(t, log, pc, 1) == a && Solo(t, log, pc, 2) == b && Solo(t, log, pc, 3) == c;
  }

  ghost predicate AsCalled(t: Tables, log: seq<Event>, op: Op) {
    var d := Decided(t, log, First(op));
    (d.2 == Idle && d.0 == Called(t, op)) || (d.2.Writing? && DoAll(d.0, d.2.writes) == Called(t, op))
  }

  lemma AcceptDecides(t: Tables, log: seq<Event>, r: User, s: User)
    ensures AsCalled(t, log, AcceptOp(r, s))
  {
    var u := Decided(t, log, First(AcceptOp(r, s))).0;
    AcceptWritesAddUp(u, r, s);
    FallbackWritesAddUp(u, r, s);
    if Has(t.requests, r, s, Accepted) { assert t.requests == t.requests[(r, s) := Accepted]; }
  }

  lemma DeclineDecides(t: Tables, log: seq<Event>, r: User, s: User)
    ensures AsCalled(t, log, DeclineOp(r, s))
  {
    OtherWritesAddUp(Decided(t, log, First(DeclineOp(r, s))).0, r, s);
    if Has(t.requests, r, s, Declined) { assert t.requests == t.requests[(r, s) := Declined]; }
  }

  lemma CancelDecides(t: Tables, log: seq<Event>, r: User, s: User)
    ensures AsCalled(t, log, CancelOp(r, s))
  {
    OtherWritesAddUp(Decided(t, log, First(CancelOp(r, s))).0, r, s);
  }

  lemma SendDecides(t: Tables, log: seq<Event>, r: User, s: User)
    ensures AsCalled(t, log, SendOp(r, s))
  {
    OtherWritesAddUp(Decided(t, log, First(SendOp(r, s))).0, r, s);
  }

  lemma DecidesAsCalled(t: Tables, log: seq<Event>, op: Op)
    requires !op.UnfriendOp? && !op.RequestOp?
    ensures AsCalled(t, log, op)
  {
    match op
    case AcceptOp(r, s) => AcceptDecides(t, log, r, s);
    case DeclineOp(r, s) => DeclineDecides(t, log, r, s);
    case CancelOp(r, s) => CancelDecides(t, log, r, s);
    case SendOp(r, s) => SendDecides(t, log, r, s);
  }

  /** The checks of SendFriendRequest, one after the other. */
  lemma AskingIsSolo(t: Tables, log: seq<Event>, r: User, s: User) returns (k: nat)
    ensures Solo(t, log, Asking(r, s, FriendRow), k) ==
              (t, log, if IsFriend(t, s, r) || Lists(t, s, r) then Idle else Insert(r, s))
  {
    k := if (s, r) in t.edges then 1 else if (s, r) in t.mirrorEdges then 2
         else if Has(t.requests, s, r, Pending) then 3 else 4;
    LastAsking(t, log, r, s);
    var a, b, c := Asking(r, s, FriendMirror), Asking(r, s, ReverseRow), Asking(r, s, ReverseMirror);
    SoloUnfolds(t, log, Asking(r, s, FriendRow), k);
    if k > 1 { SoloUnfolds(t, log, a, k - 1); }
    if k > 2 { SoloUnfolds(t, log, b, k - 2); }
  }

  lemma SoloUnfolds(t: Tables, log: seq<Event>, pc: Pc, n: nat)
    requires n > 0
    ensures var a := Advance(t, log, pc); Solo(t, log, pc, n) == Solo(a.0, a.1, a.2, n - 1)
  {}

  lemma LastAsking(t: Tables, log: seq<Event>, r: User, s: User)
    ensures Solo(t, log, Asking(r, s, ReverseMirror), 1) == Advance(t, log, Asking(r, s, ReverseMirror))
  {}

  /** A request is the checks and then the repository's call, which is what the sequential model does for
      two known, unblocked users. */
  lemma RequestIsASoloRun(t: Tables, log: seq<Event>, r: User, s: User) returns (n: nat)
    ensures var a := Solo(t, log, First(RequestOp(r, s)), n);
            a.0 == Called(t, RequestOp(r, s)) && (a.2 == Idle || a.2 == Writing([]))
    decreases true, 0
  {
    if s == 0 || r == s { return 0; }
    n := AskingIsSolo(t, log, r, s);
    if !IsFriend(t, s, r) && !Lists(t, s, r) {
      var m := CallsAreSoloRuns(t, log, SendOp(r, s));
      SoloSplits(t, log, First(RequestOp(r, s)), n, m);
      n := n + m;
    }
  }

  /** Every operation of the sequential model is one process of this machine run to its end. */
  lemma CallsAreSoloRuns(t: Tables, log: seq<Event>, op: Op) returns (n: nat)
    ensures var a := Solo(t, log, First(op), n);
            a.0 == Called(t, op) && (a.2 == Idle || a.2 == Writing([]))
    decreases op.RequestOp?, 1
  {
    if op.RequestOp? {
      n := RequestIsASoloRun(t, log, op.r, op.s);
      return;
    }
    if op.UnfriendOp? {
      n := |UnfriendWrites(op.u, op.f)|;
      SoloWrites(t, log, UnfriendWrites(op.u, op.f));
      UnfriendWritesAddUp(t, op.u, op.f);
    } else {
      var d := Decided(t, log, First(op));
      n := DecidedIsSolo(t, log, First(op));
      DecidesAsCalled(t, log, op);
      if d.2.Writing? {
        SoloSplits(t, log, First(op), n, |d.2.writes|);
        SoloWrites(d.0, d.1, d.2.writes);
        n := n + |d.2.writes|;
      }
    }
  }

  /** Only this process's own accept ran. */
  ghost predicate OwnAccept(steps: seq<Step>, p: nat, r: User, u: User) {
    forall i :: 0 <= i < |steps| ==> steps[i] == Start(p, AcceptOp(r, u)) || steps[i] == Go(p)
  }

  /** Both edges in both stores, and nothing left pending in the mirror. */
  predicate FriendsEverywhere(t: Tables, r: User, u: User) {
    {(r, u), (u, r)} <= t.edges && {(r, u), (u, r)} <= t.mirrorEdges && (r, u) !in t.mirrorTo && (u, r) !in t.mirrorFrom
  }

  /** An accept that stopped anywhere after its update applied is completed by running it again:
      whatever else is going on, its own steps then put both edges in both stores. */
  lemma AcceptIsRestartable(s: State, p: nat, r: User, u: User) returns (steps: seq<Step>)
    requires Has(s.tables.requests, r, u, Accepted) && PcOf(s, p) == Idle
    ensures OwnAccept(steps, p, r, u)
    ensures FriendsEverywhere(Exec(s, steps).tables, r, u) && Exec(s, steps).tables.requests == s.tables.requests
  {
    var start := Start(p, AcceptOp(r, u));
    var s1 := Next(s, start);
    var n := CallsAreSoloRuns(s.tables, s.log, AcceptOp(r, u));
    var rest := SoloIsARun(s1, p, n);
    ExecCons(s, start, rest);
    steps := [start] + rest;
    assert s.tables.requests == s.tables.requests[(r, u) := Accepted];
  }

  /** The run consists of an accept and a send of one request. */
  ghost predicate AcceptsAndSends(steps: seq<Step>, r: User, u: User) {
    forall i :: 0 <= i < |steps| && steps[i].Start? ==> steps[i].op == AcceptOp(r, u) || steps[i].op == SendOp(r, u)
  }

  const NOBODY := Init(EMPTY)

  /** An accept finds no row, twice; another process is about to send the request. */
  lemma AcceptFindsNoRow(r: User, u: User) returns (steps: seq<Step>)
    ensures AcceptsAndSends(steps, r, u)
    ensures Exec(NOBODY, steps) == State(EMPTY, [], map[0 := Mirror(Accepting, r, u), 1 := Insert(r, u)])
  {
    steps := [Start(0, AcceptOp(r, u)), Go(0), Go(0), Start(1, SendOp(r, u))];
    FourSteps(NOBODY, steps);
    var s1, s2 := State(EMPTY, [], map[0 := Read(Accepting, r, u)]),
        State(EMPTY, [], map[0 := Recheck(Accepting, r, u)]);
    assert Next(NOBODY, steps[0]) == s1;
    assert Next(s1, Go(0)) == s2;
    assert Next(s2, Go(0)) == State(EMPTY, [], map[0 := Mirror(Accepting, r, u)]);
  }

  lemma SendRuns(s: State, r: User, u: User) returns (steps: seq<Step>)
    requires s == State(EMPTY, [], map[0 := Mirror(Accepting, r, u), 1 := Insert(r, u)])
    ensures AcceptsAndSends(steps, r, u)
    ensures var t := Exec(s, steps);
            PcOf(t, 0) == Mirror(Accepting, r, u) && t.log == [Sent(r, u)] && t.tables == Create(EMPTY, u, r).0
  {
    steps := SoloIsARun(s, 1, 4);
    var w := SendWrites(r, u);
    var t := EMPTY.(requests := EMPTY.requests[(r, u) := Pending]);
    assert [] + [Sent(r, u)] == [Sent(r, u)];
    assert Advance(EMPTY, [], Insert(r, u)) == (t, [Sent(r, u)], Writing(w));
    SoloSplits(EMPTY, [], Insert(r, u), 0, 1);
    SoloSplits(EMPTY, [], Insert(r, u), 1, 3);
    SoloWrites(t, [Sent(r, u)], w);
    OtherWritesAddUp(t, r, u);
    assert Solo(EMPTY, [], Insert(r, u), 4) == Solo(t, [Sent(r, u)], Writing(w), 3);
  }

  lemma AcceptFallsBack(s: State, r: User, u: User) returns (steps: seq<Step>)
    requires PcOf(s, 0) == Mirror(Accepting, r, u) && (r, u) in s.tables.mirrorTo
    ensures AcceptsAndSends(steps, r, u)
    ensures var t := Exec(s, steps);
            t.log == s.log + [Assumed(r, u)] && t.tables == Befriend(DropMirror(s.tables, r, u), r, u)
  {
    var s1 := Next(s, Go(0));
    var c := SoloIsARun(s1, 0, 6);
    SoloWrites(s1.tables, s1.log, FallbackWrites(r, u));
    FallbackWritesAddUp(s1.tables, r, u);
    ExecCons(s, Go(0), c);
    steps := [Go(0)] + c;
  }

  /** Without a stored row the Redis fallback lets an accept through without any conditional update:
      racing the very first send, it makes friends while the row stays pending. */
  lemma FallbackAcceptsWithoutUpdate(r: User, u: User) returns (steps: seq<Step>)
    ensures AcceptsAndSends(steps, r, u)
    ensures var s := Exec(NOBODY, steps);
            IsFriend(s.tables, r, u) && StatusIs(s.tables, r, u, Pending) && s.log == [Sent(r, u), Assumed(r, u)]
  {
    var a := AcceptFindsNoRow(r, u);
    var b := SendRuns(Exec(NOBODY, a), r, u);
    ExecConcat(NOBODY, a, b);
    var c := AcceptFallsBack(Exec(NOBODY, a + b), r, u);
    ExecConcat(NOBODY, a + b, c);
    steps := a + b + c;
  }

  lemma FourSteps(s: State, a: seq<Step>)
    requires |a| == 4
    ensures Exec(s, a) == Next(Next(Next(Next(s, a[0]), a[1]), a[2]), a[3])
  {
    ExecCons(s, a[0], a[1..]);
    assert a == [a[0]] + a[1..] && a[1..] == [a[1]] + a[2..] && a[2..] == [a[2]] + a[3..] && a[3..] == [a[3]] + [];
    ExecCons(Next(s, a[0]), a[1], a[2..]);
    ExecCons(Next(Next(s, a[0]), a[1]), a[2], a[3..]);
    ExecCons(Next(Next(Next(s, a[0]), a[1]), a[2]), a[3], []);
  }

  lemma {:induction false} ExecConcat(s: State, a: seq<Step>, b: seq<Step>)
    ensures Exec(s, a + b) == Exec(Exec(s, a), b)
    decreases |b|
  {
    if b == [] {
      assert a + b == a;
    } else {
      assert (a + b)[..|a + b| - 1] == a + b[..|b| - 1];
      ExecConcat(s, a, b[..|b| - 1]);
    }
  }

  ghost predicate OnlyRequests(steps: seq<Step>) {
    forall i :: 0 <= i < |steps| ==> steps[i].Go? || (steps[i].Start? && steps[i].op.RequestOp?)
  }

  /** A new process starts a request and passes all its checks, nobody else moving. */
  lemma RequestAsks(st: State, p: nat, r: User, s: User) returns (steps: seq<Step>)
    requires p !in st.processes && s != 0 && r != s && !IsFriend(st.tables, s, r) && !Lists(st.tables, s, r)
    ensures OnlyRequests(steps) && Exec(st, steps) == st.(processes := st.processes[p := Insert(r, s)])
  {
    var start := Start(p, RequestOp(r, s));
    var st1 := st.(processes := st.processes[p := Asking(r, s, FriendRow)]);
    assert Next(st, start) == st1;
    var k := AskingIsSolo(st.tables, st.log, r, s);
    var looks := SoloIsARun(st1, p, k);
    ExecCons(st, start, looks);
    steps := [start] + looks;
    assert st1.processes[p := Insert(r, s)] == st.processes[p := Insert(r, s)];
  }

  lemma BothInsert(st: State, r: User, s: User) returns (steps: seq<Step>)
    requires r != s && st.tables == EMPTY && PcOf(st, 0) == Insert(r, s) && PcOf(st, 1) == Insert(s, r)
    ensures OnlyRequests(steps) && BothPend(Exec(st, steps).tables.requests, r, s)
  {
    ExecCons(st, Go(0), [Go(1)]);
    ExecCons(Next(st, Go(0)), Go(1), []);
    assert [Go(1)] == [Go(1)] + [];
    steps := [Go(0)] + [Go(1)];
  }

  /** Two first requests that cross leave requests pending both ways. */
  lemma CrossingRequests(r: User, s: User) returns (steps: seq<Step>)
    requires r != s && r != 0 && s != 0
    ensures OnlyRequests(steps) && BothPend(Exec(NOBODY, steps).tables.requests, r, s)
  {
    var a := RequestAsks(NOBODY, 0, r, s);
    var s1 := Exec(NOBODY, a);
    var b := RequestAsks(s1, 1, s, r);
    ExecConcat(NOBODY, a, b);
    var s2 := Exec(s1, b);
    assert PcOf(s2, 0) == Insert(r, s) && PcOf(s2, 1) == Insert(s, r);
    var c := BothInsert(s2, r, s);
    ExecConcat(NOBODY, a + b, c);
    steps := a + b + c;
  }
}
