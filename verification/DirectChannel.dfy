/** Direct channels: any number of concurrent calls reserve at most one channel per pair of users.
    Each Cassandra statement or Redis command of a call is one step. */
module DirectChannel {
  import opened Basics

  type User = nat
  type Chan = nat

  datatype Pair = Pair(low: User, high: User)

  function Canonical(u: User, v: User): Pair { if u < v then Pair(u, v) else Pair(v, u) }

  datatype Kind = Random | Direct

  /** direct_channels_by_pair, direct_channels_by_id, channels, channel_metadata_by_id, and the
      members kept in Redis. */
  datatype Tables = Tables(
    pairs: map<Pair, Chan>,
    byId: map<Chan, Pair>,
    members: set<(Chan, User)>,
    kinds: map<Chan, Kind>,
    cached: set<(Chan, User)>)

  // ---------- statements ----------

  /** One write; AddPair is conditional (IF NOT EXISTS). */
  datatype Write =
    | Nothing
    | AddPair(c: Chan, p: Pair)
    | AddById(c: Chan, p: Pair)
    | AddMember(c: Chan, u: User)
    | AddCached(c: Chan, u: User)
    | SetKind(c: Chan, kind: Kind)
    | DropPair(p: Pair)
    | DropMembers(c: Chan)
    | DropById(c: Chan)
    | DropKind(c: Chan)
    | DropCached(c: Chan)

  function Without(rows: set<(Chan, User)>, c: Chan): set<(Chan, User)> { set r | r in rows && r.0 != c }

  function Apply(t: Tables, write: Write): Tables {
    match write
    case Nothing => t
    case AddPair(c, p) => if p in t.pairs then t else t.(pairs := t.pairs[p := c])
    case AddById(c, p) => t.(byId := t.byId[c := p])
    case AddMember(c, u) => t.(members := t.members + {(c, u)})
    case AddCached(c, u) => t.(cached := t.cached + {(c, u)})
    case SetKind(c, kind) => t.(kinds := t.kinds[c := kind])
    case DropPair(p) => t.(pairs := t.pairs - {p})
    case DropMembers(c) => t.(members := Without(t.members, c))
    case DropById(c) => t.(byId := t.byId - {c})
    case DropKind(c) => t.(kinds := t.kinds - {c})
    case DropCached(c) => t.(cached := Without(t.cached, c))
  }

  // ---------- the calls ----------

  /** Statements of the winner after its reservation. */
  datatype OwnStage = ById | Member(second: bool) | Cache(second: bool) | SetDirect | Invite

  /** Statements of DeleteChannel. */
  datatype DropStage = Members | FindPair | PairRow(p: Pair) | IdRow | KindRow | CachedRows

  /** Where a call CreateDirectChannel(u, v) stands. */
  datatype Pc =
    | Look(u: User, v: User)                                                  // GetDirectChannel: SELECT the pair
    | LookAgain(u: User, v: User)                                             // the loser's second lookup
    | Fill(u: User, v: User, c: Chan, late: bool)                             // GetDirectChannel: backfill by id
    | Kinded(u: User, v: User, c: Chan)                                       // kind of a channel that was found
    | Ask(u: User, v: User, c: Chan)                                          // invite to a channel that was found
    | NewRow(u: User, v: User)                                                // draw an id, insert its row
    | SetRandom(u: User, v: User, c: Chan)
    | Reserve(u: User, v: User, c: Chan)                                      // INSERT the pair IF NOT EXISTS
    | Own(u: User, v: User, c: Chan, stage: OwnStage)
    | Drop(u: User, v: User, c: Chan, drop: DropStage, reserved: bool)        // DeleteChannel of its own id
    | Done(u: User, v: User, c: Chan, created: bool)
    | Failed(u: User, v: User)

  datatype Maker = Maker(call: nat, pair: Pair)

  /** What happened: who drew each id and for which pair, which ids won the conditional insert, and
      the pairs whose row a roll-back removed. */
  datatype History = History(made: map<Chan, Maker>, reserved: set<Chan>, undone: set<Pair>)

  datatype State = State(tables: Tables, history: History, calls: map<nat, Pc>)

  /** A call's steps: `drawn` is the id its NextID draws, which no call drew before. */
  datatype Step = Begin(w: nat, u: User, v: User) | Go(w: nat, fault: Fault, drawn: Chan)

  /** The write of a call's next statement. */
  function Statement(pc: Pc, drawn: Chan): Write {
    match pc
    case Fill(u, v, c, _) => AddById(c, Canonical(u, v))
    case Kinded(_, _, c) => SetKind(c, Direct)
    case NewRow(_, _) => AddMember(drawn, 0)
    case SetRandom(_, _, c) => SetKind(c, Random)
    case Reserve(u, v, c) => AddPair(c, Canonical(u, v))
    case Own(u, v, c, ById) => AddById(c, Canonical(u, v))
    case Own(u, v, c, Member(second)) => AddMember(c, if second then v else u)
    case Own(u, v, c, Cache(second)) => AddCached(c, if second then v else u)
    case Own(_, _, c, SetDirect) => SetKind(c, Direct)
    case Drop(_, _, c, Members, _) => DropMembers(c)
    case Drop(_, _, _, PairRow(p), _) => DropPair(p)
    case Drop(_, _, c, IdRow, _) => DropById(c)
    case Drop(_, _, c, KindRow, _) => DropKind(c)
    case Drop(_, _, c, CachedRows, _) => DropCached(c)
    case _ => Nothing
  }

  /** DeleteChannel's own errors are ignored: the winner's roll-back ends in an error, the loser looks
      the pair up again. */
  function AfterDrop(u: User, v: User, reserved: bool): Pc { if reserved then Failed(u, v) else LookAgain(u, v) }

  /** Where a statement that worked leads. */
  function Ahead(t: Tables, pc: Pc, drawn: Chan): Pc {
    match pc
    case Look(u, v) => if Canonical(u, v) in t.pairs then Fill(u, v, t.pairs[Canonical(u, v)], false) else NewRow(u, v)
    case LookAgain(u, v) => if Canonical(u, v) in t.pairs then Fill(u, v, t.pairs[Canonical(u, v)], true)
        else Failed(u, v)
    case Fill(u, v, c, late) => if late then Ask(u, v, c) else Kinded(u, v, c)
    case Kinded(u, v, c) => Ask(u, v, c)
    case Ask(u, v, c) => Done(u, v, c, false)
    case NewRow(u, v) => SetRandom(u, v, drawn)
    case SetRandom(u, v, c) => Reserve(u, v, c)
    case Reserve(u, v, c) => if Canonical(u, v) in t.pairs then Drop(u, v, c, Members, false) else Own(u, v, c, ById)
    case Own(u, v, c, ById) => Own(u, v, c, Member(false))
    case Own(u, v, c, Member(second)) => Own(u, v, c, Cache(second))
    case Own(u, v, c, Cache(second)) => Own(u, v, c, if second then SetDirect else Member(true))
    case Own(u, v, c, SetDirect) => Own(u, v, c, Invite)
    case Own(u, v, c, Invite) => Done(u, v, c, true)
    case Drop(u, v, c, Members, reserved) => Drop(u, v, c, FindPair, reserved)
    case Drop(u, v, c, FindPair, reserved) => Drop(u, v, c, if c in t.byId then PairRow(t.byId[c]) else IdRow, reserved)
    case Drop(u, v, c, PairRow(_), reserved) => Drop(u, v, c, IdRow, reserved)
    case Drop(u, v, c, IdRow, reserved) => Drop(u, v, c, KindRow, reserved)
    case Drop(u, v, c, KindRow, reserved) => Drop(u, v, c, CachedRows, reserved)
    case Drop(u, v, _, CachedRows, reserved) => AfterDrop(u, v, reserved)
    case Done(_, _, _, _) => pc
    case Failed(_, _) => pc
  }

  /** Where a statement that reported an error leads. An error past the reservation starts the
      roll-back; one of the by-id insert is part of the reservation itself and does not. */
  function Astray(t: Tables, pc: Pc): Pc {
    match pc
    case Fill(_, _, _, _) => Ahead(t, pc, 0)
    case Own(u, v, c, stage) => if stage == ById then Failed(u, v) else Drop(u, v, c, Members, true)
    case Drop(u, v, c, stage, reserved) =>
      if stage == Members then AfterDrop(u, v, reserved)
      else if stage == FindPair then Drop(u, v, c, IdRow, reserved)
      else Ahead(t, pc, 0)
    case Done(_, _, _, _) => pc
    case _ => Failed(pc.u, pc.v)
  }

  function Record(t: Tables, h: History, w: nat, pc: Pc, fault: Fault, drawn: Chan): History {
    match pc
    case NewRow(u, v) => h.(made := h.made[drawn := Maker(w, Canonical(u, v))])
    case Reserve(u, v, c) => if fault == NoEffect || Canonical(u, v) in t.pairs then h
        else h.(reserved := h.reserved + {c})
    case Drop(_, _, _, PairRow(p), _) => if fault == NoEffect then h else h.(undone := h.undone + {p})
    case _ => h
  }

  /** One statement of call w. */
  function Advance(t: Tables, h: History, w: nat, pc: Pc, fault: Fault, drawn: Chan): (Tables, History, Pc) {
    if pc.NewRow? && drawn in h.made then (t, h, pc)
    else (if fault == NoEffect then t else Apply(t, Statement(pc, drawn)), Record(t, h, w, pc, fault, drawn),
          if fault == NoFault then Ahead(t, pc, drawn) else Astray(t, pc))
  }

  function Next(s: State, step: Step): State {
    match step
    case Begin(w, u, v) => if w in s.calls || u == v || u == 0 || v == 0 then s
        else s.(calls := s.calls[w := Look(u, v)])
    case Go(w, fault, drawn) =>
      if w !in s.calls then s
      else var a := Advance(s.tables, s.history, w, s.calls[w], fault, drawn); State(a.0, a.1, s.calls[w := a.2])
  }

  function Exec(s: State, steps: seq<Step>): State
    decreases |steps|
  {
    if steps == [] then s else Next(Exec(s, steps[..|steps| - 1]), steps[|steps| - 1])
  }

  const NOTHING := Tables(map[], map[], {}, map[], {})
  const START := State(NOTHING, History(map[], {}, {}), map[])

  // ---------- the invariant ----------

  /** The id belongs to call w and this pair, and did or did not win the reservation. */
  predicate Owns(h: History, w: nat, u: User, v: User, c: Chan, reserved: bool) {
    c in h.made && h.made[c] == Maker(w, Canonical(u, v)) && (c in h.reserved <==> reserved)
  }

  predicate PairIs(t: Tables, p: Pair, c: Chan) { p in t.pairs && t.pairs[p] == c }
  predicate ByIdIs(t: Tables, c: Chan, p: Pair) { c in t.byId && t.byId[c] == p }
  predicate Listed(t: Tables, c: Chan, u: User) { (c, u) in t.members && (c, u) in t.cached }

  /** All rows of a direct channel of u and v are there. */
  predicate Complete(t: Tables, u: User, v: User, c: Chan) {
    && PairIs(t, Canonical(u, v), c) && ByIdIs(t, c, Canonical(u, v))
    && (c, 0) in t.members && Listed(t, c, u) && Listed(t, c, v)
    && c in t.kinds && t.kinds[c] == Direct
  }

  /** The rows the winner wrote before this stage. */
  predicate Progress(t: Tables, u: User, v: User, c: Chan, stage: OwnStage) {
    && PairIs(t, Canonical(u, v), c) && (c, 0) in t.members
    && (stage != ById ==> ByIdIs(t, c, Canonical(u, v)))
    && (stage == Cache(false) ==> (c, u) in t.members)
    && (stage == Member(true) || stage == Cache(true) ==> Listed(t, c, u))
    && (stage == Cache(true) ==> (c, v) in t.members)
    && (stage == SetDirect || stage == Invite ==> Listed(t, c, u) && Listed(t, c, v))
    && (stage == Invite ==> c in t.kinds && t.kinds[c] == Direct)
  }

  predicate CallOk(t: Tables, h: History, w: nat, pc: Pc) {
    match pc
    case Look(u, v) => true
    case LookAgain(u, v) => true
    case NewRow(u, v) => true
    case Failed(u, v) => true
    case Fill(u, v, c, _) => c in h.reserved && c in h.made && h.made[c].pair == Canonical(u, v)
    case Kinded(u, v, c) => c in h.reserved && c in h.made && h.made[c].pair == Canonical(u, v)
    case Ask(u, v, c) => c in h.reserved && c in h.made && h.made[c].pair == Canonical(u, v)
    case SetRandom(u, v, c) => Owns(h, w, u, v, c, false) && (c, 0) in t.members
    case Reserve(u, v, c) => Owns(h, w, u, v, c, false) && (c, 0) in t.members
    case Own(u, v, c, stage) => Owns(h, w, u, v, c, true) && Progress(t, u, v, c, stage)
    case Drop(u, v, c, stage, reserved) =>
      && Owns(h, w, u, v, c, reserved)
      && (stage.PairRow? ==> reserved && stage.p == Canonical(u, v))
      && (reserved && (stage == Members || stage == FindPair || stage.PairRow?) ==>
            PairIs(t, Canonical(u, v), c) && ByIdIs(t, c, Canonical(u, v)))
    case Done(u, v, c, created) =>
      && c in h.reserved && c in h.made && h.made[c].pair == Canonical(u, v)
      && (created ==> h.made[c].call == w && Complete(t, u, v, c))
  }

  /** Row of a channel that was drawn for this pair and won. */
  predicate Won(h: History, c: Chan, p: Pair) { c in h.reserved && c in h.made && h.made[c].pair == p }

  predicate Belongs(h: History, c: Chan, u: User) {
    c in h.made && (u == 0 || u == h.made[c].pair.low || u == h.made[c].pair.high)
  }

  ghost predicate TablesOk(t: Tables, h: History) {
    && (forall p :: p in t.pairs ==> Won(h, t.pairs[p], p))
    && (forall c :: c in t.byId ==> Won(h, c, t.byId[c]))
    && (forall c :: c in h.reserved ==> c in h.made)
    && (forall c :: c in h.reserved && h.made[c].pair !in h.undone ==> PairIs(t, h.made[c].pair, c))
    && (forall r :: r in t.members || r in t.cached ==> Belongs(h, r.0, r.1))
    && (forall c :: c in t.kinds ==> c in h.made)
  }

  ghost predicate Inv(s: State) {
    && TablesOk(s.tables, s.history)
    && (forall w :: w in s.calls ==> CallOk(s.tables, s.history, w, s.calls[w]))
  }

  /** What call w may write: rows of the id it drew, or the by-id and kind rows that any caller that
      found the channel writes again. */
  predicate MayWrite(t: Tables, h: History, w: nat, write: Write) {
    match write
    case Nothing => true
    case AddPair(c, p) => p in t.pairs || (c in h.made && h.made[c] == Maker(w, p) && c !in h.reserved)
    case AddById(c, p) => Won(h, c, p)
    case SetKind(c, kind) => c in h.made && (h.made[c].call == w || kind == Direct)
    case AddMember(c, u) => (c !in h.made && u == 0) || (Belongs(h, c, u) && h.made[c].call == w)
    case AddCached(c, u) => Belongs(h, c, u) && h.made[c].call == w
    case DropPair(p) => p in t.pairs && t.pairs[p] in h.made && h.made[t.pairs[p]].call == w
    case _ => write.c in h.made && h.made[write.c].call == w
  }

  lemma StatementsAreAllowed(t: Tables, h: History, w: nat, pc: Pc, drawn: Chan)
    requires CallOk(t, h, w, pc) && (pc.NewRow? ==> drawn !in h.made)
    ensures MayWrite(t, h, w, Statement(pc, drawn))
  {}

  lemma PlainWriteKeepsTables(t: Tables, h: History, w: nat, write: Write)
    requires TablesOk(t, h) && MayWrite(t, h, w, write) && !write.AddPair? && !write.DropPair?
    requires write.AddMember? ==> write.c in h.made
    ensures TablesOk(Apply(t, write), h)
  {}

  lemma DrawKeepsTables(t: Tables, h: History, drawn: Chan, maker: Maker)
    requires TablesOk(t, h) && drawn !in h.made
    ensures TablesOk(t, h.(made := h.made[drawn := maker]))
    ensures TablesOk(Apply(t, AddMember(drawn, 0)), h.(made := h.made[drawn := maker]))
  {}

  lemma ReserveKeepsTables(t: Tables, h: History, w: nat, c: Chan, p: Pair)
    requires TablesOk(t, h) && p !in t.pairs && MayWrite(t, h, w, AddPair(c, p))
    ensures TablesOk(Apply(t, AddPair(c, p)), h.(reserved := h.reserved + {c}))
  {}

  lemma UndoKeepsTables(t: Tables, h: History, p: Pair)
    requires TablesOk(t, h)
    ensures TablesOk(Apply(t, DropPair(p)), h.(undone := h.undone + {p}))
  {}

  lemma AdvanceKeepsTables(t: Tables, h: History, w: nat, pc: Pc, fault: Fault, drawn: Chan)
    requires TablesOk(t, h) && CallOk(t, h, w, pc)
    ensures var a := Advance(t, h, w, pc, fault, drawn);
            TablesOk(a.0, a.1)
  {
    if pc.NewRow? {
      if drawn !in h.made { DrawKeepsTables(t, h, drawn, Maker(w, Canonical(pc.u, pc.v))); }
    } else if pc.Reserve? {
      if Canonical(pc.u, pc.v) !in t.pairs { ReserveKeepsTables(t, h, w, pc.c, Canonical(pc.u, pc.v)); }
    } else if pc.Drop? && pc.drop.PairRow? {
      UndoKeepsTables(t, h, pc.drop.p);
    } else {
      StatementsAreAllowed(t, h, w, pc, drawn);
      PlainWriteKeepsTables(t, h, w, Statement(pc, drawn));
    }
  }

  /** The winner's statement works: its next stage finds the rows it needs. */
  lemma OwnerGoesOn(t: Tables, h: History, w: nat, pc: Pc)
    requires CallOk(t, h, w, pc) && pc.Own?
    ensures CallOk(Apply(t, Statement(pc, 0)), h, w, Ahead(t, pc, 0))
  {}

  /** It reports an error: the roll-back, if any, finds the reservation. */
  lemma OwnerTurnsBack(t: Tables, h: History, w: nat, pc: Pc, u: Tables)
    requires CallOk(t, h, w, pc) && pc.Own? && (u == t || u == Apply(t, Statement(pc, 0)))
    ensures CallOk(u, h, w, Astray(t, pc))
  {}

  lemma AdvanceKeepsOwner(t: Tables, h: History, w: nat, pc: Pc, fault: Fault, drawn: Chan)
    requires TablesOk(t, h) && CallOk(t, h, w, pc) && pc.Own?
    ensures var a := Advance(t, h, w, pc, fault, drawn);
            CallOk(a.0, a.1, w, a.2)
  {
    if fault == NoFault {
      OwnerGoesOn(t, h, w, pc);
    } else {
      OwnerTurnsBack(t, h, w, pc, if fault == NoEffect then t else Apply(t, Statement(pc, 0)));
    }
  }

  lemma AdvanceKeepsDropper(t: Tables, h: History, w: nat, pc: Pc, fault: Fault, drawn: Chan)
    requires TablesOk(t, h) && CallOk(t, h, w, pc) && pc.Drop?
    ensures var a := Advance(t, h, w, pc, fault, drawn);
            CallOk(a.0, a.1, w, a.2)
  {}

  lemma AdvanceKeepsFinder(t: Tables, h: History, w: nat, pc: Pc, fault: Fault, drawn: Chan)
    requires TablesOk(t, h) && CallOk(t, h, w, pc) && !pc.Own? && !pc.Drop? && !pc.Done?
    ensures var a := Advance(t, h, w, pc, fault, drawn);
            CallOk(a.0, a.1, w, a.2)
  {}

  lemma AdvanceKeepsOwnCall(t: Tables, h: History, w: nat, pc: Pc, fault: Fault, drawn: Chan)
    requires TablesOk(t, h) && CallOk(t, h, w, pc)
    ensures var a := Advance(t, h, w, pc, fault, drawn);
            CallOk(a.0, a.1, w, a.2)
  {
    if pc.Own? { AdvanceKeepsOwner(t, h, w, pc, fault, drawn); }
    else if pc.Drop? { AdvanceKeepsDropper(t, h, w, pc, fault, drawn); }
    else if !pc.Done? { AdvanceKeepsFinder(t, h, w, pc, fault, drawn); }
  }

  lemma AdvanceKeepsOtherCall(t: Tables, h: History, w: nat, pc: Pc, fault: Fault, drawn: Chan, w': nat, pc': Pc)
    requires TablesOk(t, h) && CallOk(t, h, w, pc) && CallOk(t, h, w', pc') && w != w'
    ensures var a := Advance(t, h, w, pc, fault, drawn);
            CallOk(a.0, a.1, w', pc')
  {
    if !(pc.NewRow? && drawn in h.made) {
      StatementsAreAllowed(t, h, w, pc, drawn);
      if fault != NoEffect { WriteKeepsOtherCall(t, h, w, Statement(pc, drawn), w', pc'); }
    }
  }

  lemma WriteKeepsOtherCall(t: Tables, h: History, w: nat, write: Write, w': nat, pc': Pc)
    requires TablesOk(t, h) && MayWrite(t, h, w, write) && CallOk(t, h, w', pc') && w != w'
    ensures CallOk(Apply(t, write), h, w', pc')
  {}

  lemma StepKeepsInv(s: State, step: Step)
    requires Inv(s)
    ensures Inv(Next(s, step))
  {
    if step.Go? && step.w in s.calls {
      var t, h, w, pc := s.tables, s.history, step.w, s.calls[step.w];
      AdvanceKeepsTables(t, h, w, pc, step.fault, step.drawn);
      AdvanceKeepsOwnCall(t, h, w, pc, step.fault, step.drawn);
      forall w' | w' in s.calls && w' != w
        ensures var a := Advance(t, h, w, pc, step.fault, step.drawn); CallOk(a.0, a.1, w', s.calls[w'])
      {
        AdvanceKeepsOtherCall(t, h, w, pc, step.fault, step.drawn, w', s.calls[w']);
      }
    }
  }

  lemma {:induction false} ContinuingKeepsInv(s: State, steps: seq<Step>)
    requires Inv(s)
    ensures Inv(Exec(s, steps))
    decreases |steps|
  {
    if steps != [] {
      ContinuingKeepsInv(s, steps[..|steps| - 1]);
      StepKeepsInv(Exec(s, steps[..|steps| - 1]), steps[|steps| - 1]);
    }
  }

  /** Every run keeps the invariant. */
  lemma RunsKeepInv(steps: seq<Step>)
    ensures Inv(Exec(START, steps))
  {
    ContinuingKeepsInv(START, steps);
  }
}
