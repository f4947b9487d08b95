/** The direct-channel calls in their own form: one call at a time on mutable tables, any of its
    statements failing. */
module DirectChannelStore {
  import opened Basics
  import opened DirectChannel

  /** The statements of one call that can fail. */
  datatype Stage =
    | PairLookup | Backfill | FoundKind | FoundInvite
    | RowInsert | RandomKind | PairInsert | IdInsert
    | MemberInsert(second: bool) | MemberCache(second: bool) | DirectKind | NewInvite

  type Plan = map<Stage, Fault>

  function FaultAt(plan: Plan, stage: Stage): Fault { if stage in plan then plan[stage] else NoFault }
  predicate Works(plan: Plan, stage: Stage) { FaultAt(plan, stage) == NoFault }

  predicate Reserves(plan: Plan) {
    Works(plan, RowInsert) && Works(plan, RandomKind) && Works(plan, PairInsert) && Works(plan, IdInsert)
  }

  predicate Commits(plan: Plan) {
    && Works(plan, MemberInsert(false)) && Works(plan, MemberCache(false))
    && Works(plan, MemberInsert(true)) && Works(plan, MemberCache(true))
    && Works(plan, DirectKind) && Works(plan, NewInvite)
  }

  /** The conditional insert took effect, whether or not the call learned of it. */
  predicate PairTaken(plan: Plan) {
    Works(plan, RowInsert) && Works(plan, RandomKind) && FaultAt(plan, PairInsert) != NoEffect
  }

  datatype Lookup = Found(c: Chan) | Absent | Broken
  datatype Reservation = Reserved | Exists | NotReserved
  datatype Outcome = Channel(c: Chan) | NotFound | RequiresFriend | Error

  /** The answers of the services asked first; None is an error of the service. */
  datatype Asked = Asked(targetExists: Option<bool>, blocked: Option<bool>, friends: Option<bool>)

  predicate Says(answer: Option<bool>, b: bool) { answer.Some? && answer.value == b }

  predicate Permitted(asked: Asked) {
    Says(asked.targetExists, true) && Says(asked.blocked, false) && Says(asked.friends, true)
  }

  /** The tables without the rows keyed by c; the pair table is keyed otherwise. */
  function Forget(t: Tables, c: Chan): Tables {
    Tables(t.pairs, t.byId - {c}, Without(t.members, c), t.kinds - {c}, Without(t.cached, c))
  }

  /** No table has a row of channel c. */
  ghost predicate Unused(t: Tables, c: Chan) { Forget(t, c) == t && forall p :: p in t.pairs ==> t.pairs[p] != c }

  function Deleted(t: Tables, c: Chan): Tables {
    Forget(if c in t.byId then t.(pairs := t.pairs - {t.byId[c]}) else t, c)
  }

  /** The tables with a finished direct channel c of u and v added. */
  function WithChannel(t: Tables, c: Chan, u: User, v: User): Tables {
    Tables(t.pairs[Canonical(u, v) := c], t.byId[c := Canonical(u, v)], t.members + {(c, 0), (c, u), (c, v)},
           t.kinds[c := Direct], t.cached + {(c, u), (c, v)})
  }

  /** Only rows of c, and possibly its pair row, were added. */
  ghost predicate OnlyAdds(t: Tables, t': Tables, c: Chan, p: Pair) {
    (t'.pairs == t.pairs || t'.pairs == t.pairs[p := c]) && Forget(t', c) == t.(pairs := t'.pairs)
  }

  lemma WriteOnlyAdds(t: Tables, t': Tables, c: Chan, p: Pair, write: Write)
    requires Unused(t, c) && OnlyAdds(t, t', c, p)
    requires write == AddPair(c, p) || write == AddById(c, p) || (write.SetKind? && write.c == c)
             || (write.AddMember? && write.c == c) || (write.AddCached? && write.c == c)
    requires p !in t.pairs
    ensures OnlyAdds(t, Apply(t', write), c, p)
  {
    var f := Forget(Apply(t', write), c);
    assert f.members == Without(t'.members, c) && f.cached == Without(t'.cached, c);
    assert f.kinds == t'.kinds - {c} && f.byId == t'.byId - {c};
  }

  /** Deleting a channel that was only added gives back the tables it was added to. */
  lemma DeleteUndoesAdding(t: Tables, t': Tables, c: Chan, p: Pair)
    requires Unused(t, c) && OnlyAdds(t, t', c, p) && p !in t.pairs && ByIdIs(t', c, p)
    ensures Deleted(t', c) == t
  {
    assert t.pairs[p := c] - {p} == t.pairs && t.pairs - {p} == t.pairs;
  }

  /** The tables right after c was drawn and the pair reserved for it. */
  function ReservedRows(t: Tables, c: Chan, p: Pair): Tables {
    Tables(t.pairs[p := c], t.byId[c := p], t.members + {(c, 0)}, t.kinds[c := Random], t.cached)
  }

  /** The tables after the rest of a winner's rows were added. */
  function Furnished(t: Tables, c: Chan, u: User, v: User): Tables {
    t.(members := t.members + {(c, u), (c, v)}, cached := t.cached + {(c, u), (c, v)}, kinds := t.kinds[c := Direct])
  }

  lemma FurnishedIsWithChannel(t: Tables, c: Chan, u: User, v: User)
    ensures Furnished(ReservedRows(t, c, Canonical(u, v)), c, u, v) == WithChannel(t, c, u, v)
  {
    assert t.members + {(c, 0)} + {(c, u), (c, v)} == t.members + {(c, 0), (c, u), (c, v)};
    assert t.kinds[c := Random][c := Direct] == t.kinds[c := Direct];
  }

  class ChannelStore {
    var pairs: map<Pair, Chan>
    var byId: map<Chan, Pair>
    var members: set<(Chan, User)>
    var kinds: map<Chan, Kind>
    var cached: set<(Chan, User)>

    function Rows(): Tables
      reads this
    {
      Tables(pairs, byId, members, kinds, cached)
    }

    constructor ()
      ensures Rows() == NOTHING
    {
      pairs, byId, members, kinds, cached := map[], map[], {}, map[], {};
    }

    /** One statement or command. */
    method Do(write: Write, fault: Fault) returns (ok: bool)
      modifies this
      ensures ok == (fault == NoFault)
      ensures Rows() == if fault == NoEffect then old(Rows()) else Apply(old(Rows()), write)
    {
      ok := fault == NoFault;
      if fault != NoEffect {
        var t := Apply(Rows(), write);
        pairs, byId, members, kinds, cached := t.pairs, t.byId, t.members, t.kinds, t.cached;
      }
    }

    /** The database row, then the cache's. The channel is being added to the tables t. */
    method AddUserToChannel(c: Chan, u: User, insert: Fault, cache: Fault, ghost t: Tables, ghost p: Pair)
      returns (ok: bool)
      requires Unused(t, c) && p !in t.pairs && OnlyAdds(t, Rows(), c, p)
      modifies this
      ensures ok == (insert == NoFault && cache == NoFault)
      ensures OnlyAdds(t, Rows(), c, p) && byId == old(byId) && kinds == old(kinds) && pairs == old(pairs)
      ensures ok ==> members == old(members) + {(c, u)} && cached == old(cached) + {(c, u)}
    {
      WriteOnlyAdds(t, Rows(), c, p, AddMember(c, u));
      ok := Do(AddMember(c, u), insert);
      if ok {
        WriteOnlyAdds(t, Rows(), c, p, AddCached(c, u));
        ok := Do(AddCached(c, u), cache);
      }
    }

    method DeleteChannel(c: Chan)
      modifies this
      ensures Rows() == Deleted(old(Rows()), c)
    {
      members := Without(members, c);
      if c in byId { pairs := pairs - {byId[c]}; }
      byId := byId - {c};
      kinds := kinds - {c};
      cached := Without(cached, c);
    }

    /** The lookup also backfills the by-id row, ignoring errors. */
    method GetDirectChannel(u: User, v: User, lookup: Fault, backfill: Fault) returns (r: Lookup)
      modifies this
      ensures r == if lookup != NoFault then Broken
                   else if Canonical(u, v) in old(pairs) then Found(old(pairs)[Canonical(u, v)]) else Absent
      ensures Rows() == if r.Found? && backfill != NoEffect then Apply(old(Rows()), AddById(r.c, Canonical(u, v)))
              else old(Rows())
    {
      var p := Canonical(u, v);
      if lookup != NoFault { return Broken; }
      if p !in pairs { return Absent; }
      r := Found(pairs[p]);
      var _ := Do(AddById(pairs[p], p), backfill);
    }

    /** The repository's CreateDirectChannel: the conditional insert and the by-id row. */
    method ReservePair(c: Chan, u: User, v: User, insert: Fault, idRow: Fault) returns (r: Reservation)
      modifies this
      ensures r == Reserved <==> Canonical(u, v) !in old(pairs) && insert == NoFault && idRow == NoFault
      ensures r == Exists <==> Canonical(u, v) in old(pairs) && insert == NoFault
      ensures r == Exists ==> Rows() == old(Rows())
      ensures r == Reserved ==>
                Rows() == Apply(Apply(old(Rows()), AddPair(c, Canonical(u, v))), AddById(c, Canonical(u, v)))
      ensures r == NotReserved ==>
                Rows() == (if insert == NoEffect then old(Rows())
                           else if insert == LostReply || idRow == NoEffect then
                             Apply(old(Rows()), AddPair(c, Canonical(u, v)))
                           else Apply(Apply(old(Rows()), AddPair(c, Canonical(u, v))), AddById(c, Canonical(u, v))))
    {
      var p := Canonical(u, v);
      var applied := p !in pairs;
      var ok := Do(AddPair(c, p), insert);
      if !ok { return NotReserved; }
      if !applied { return Exists; }
      ok := Do(AddById(c, p), idRow);
      r := if ok then Reserved else NotReserved;
    }

    /** The rows a winner adds after its reservation, up to the first error. */
    method Furnish(c: Chan, u: User, v: User, plan: Plan, ghost t: Tables) returns (ok: bool)
      requires Unused(t, c) && Canonical(u, v) !in t.pairs && OnlyAdds(t, Rows(), c, Canonical(u, v))
               && ByIdIs(Rows(), c, Canonical(u, v))
      modifies this
      ensures ok == Commits(plan)
      ensures OnlyAdds(t, Rows(), c, Canonical(u, v)) && ByIdIs(Rows(), c, Canonical(u, v))
      ensures ok ==> Rows() == Furnished(old(Rows()), c, u, v)
    {
      ghost var p := Canonical(u, v);
      ghost var before := Rows();
      ok := AddUserToChannel(c, u, FaultAt(plan, MemberInsert(false)), FaultAt(plan, MemberCache(false)), t, p);
      if !ok { return; }
      ok := AddUserToChannel(c, v, FaultAt(plan, MemberInsert(true)), FaultAt(plan, MemberCache(true)), t, p);
      if !ok { return; }
      assert members == before.members + {(c, u), (c, v)} && cached == before.cached + {(c, u), (c, v)};
      WriteOnlyAdds(t, Rows(), c, p, SetKind(c, Direct));
      ok := Do(SetKind(c, Direct), FaultAt(plan, DirectKind));
      if !ok { return; }
      ok := Works(plan, NewInvite);
    }

    /** CreateDirectChannel of the service, run alone with the id its generator draws. A call that
        fails after its reservation leaves the tables as it found them; one that fails during it
        leaves its own rows behind, with the pair taken if the conditional insert got through. */
    method CreateDirectChannel(u: User, v: User, asked: Asked, drawn: Chan, plan: Plan) returns (r: Outcome)
      requires Unused(Rows(), drawn)
      modifies this
      ensures r == NotFound <==> u == 0 || v == 0 || u == v || Says(asked.targetExists, false)
      ensures r == RequiresFriend <==> u != 0 && v != 0 && u != v && Says(asked.targetExists, true) &&
                                       (Says(asked.blocked, true) ||
                                        (Says(asked.blocked, false) && Says(asked.friends, false)))
      ensures r.Channel? ==> u != 0 && v != 0 && u != v && Permitted(asked)
      ensures r.NotFound? || r.RequiresFriend? || !Permitted(asked) ==> Rows() == old(Rows())
      ensures var p := Canonical(u, v);
              u != 0 && v != 0 && u != v && Permitted(asked) && Works(plan, PairLookup) ==>
                if p in old(pairs) then
                  var c := old(pairs)[p];
                  && r == (if Works(plan, FoundKind) && Works(plan, FoundInvite) then Channel(c) else Error)
                  && (r.Channel? ==>
                        Rows() == old(Rows()).(
                          byId := if FaultAt(plan, Backfill) == NoEffect then old(byId) else old(byId)[c := p],
                          kinds := old(kinds)[c := Direct]))
                else if Reserves(plan) then
                  (if Commits(plan) then r == Channel(drawn) && Rows() == WithChannel(old(Rows()), drawn, u, v)
                   else r == Error && Rows() == old(Rows()))
                else
                  r == Error && OnlyAdds(old(Rows()), Rows(), drawn, p) && (p in pairs <==> PairTaken(plan))
    {
      if u == 0 || v == 0 || u == v { return NotFound; }
      if asked.targetExists.None? { return Error; }
      if !asked.targetExists.value { return NotFound; }
      if asked.blocked.None? { return Error; }
      if asked.blocked.value { return RequiresFriend; }
      if asked.friends.None? { return Error; }
      if !asked.friends.value { return RequiresFriend; }
      var found := GetDirectChannel(u, v, FaultAt(plan, PairLookup), FaultAt(plan, Backfill));
      if found.Found? {
        var ok := Do(SetKind(found.c, Direct), FaultAt(plan, FoundKind));
        return if ok && Works(plan, FoundInvite) then Channel(found.c) else Error;
      }
      if found.Broken? { return Error; }
      r := Make(u, v, drawn, plan);
    }

    /** The part of CreateDirectChannel after a lookup that found nothing. Run alone, the reservation
        cannot be lost, so the loser's path is the business of the concurrent machine. */
    method Make(u: User, v: User, drawn: Chan, plan: Plan) returns (r: Outcome)
      requires Unused(Rows(), drawn) && Canonical(u, v) !in pairs
      modifies this
      ensures Reserves(plan) && Commits(plan) ==> r == Channel(drawn) && Rows() == WithChannel(old(Rows()), drawn, u, v)
      ensures Reserves(plan) && !Commits(plan) ==> r == Error && Rows() == old(Rows())
      ensures !Reserves(plan) ==> r == Error && OnlyAdds(old(Rows()), Rows(), drawn, Canonical(u, v))
                                  && (Canonical(u, v) in pairs <==> PairTaken(plan))
    {
      ghost var t := Rows();
      var reserved := ReserveNew(u, v, drawn, plan);
      if !reserved { return Error; }
      var committed := Furnish(drawn, u, v, plan, t);
      if !committed {
        DeleteUndoesAdding(t, Rows(), drawn, Canonical(u, v));
        DeleteChannel(drawn);
        return Error;
      }
      FurnishedIsWithChannel(t, drawn, u, v);
      return Channel(drawn);
    }

    /** Draws the channel's row and kind and reserves the pair. */
    method ReserveNew(u: User, v: User, drawn: Chan, plan: Plan) returns (ok: bool)
      requires Unused(Rows(), drawn) && Canonical(u, v) !in pairs
      modifies this
      ensures ok == Reserves(plan)
      ensures ok ==> Rows() == ReservedRows(old(Rows()), drawn, Canonical(u, v))
      ensures OnlyAdds(old(Rows()), Rows(), drawn, Canonical(u, v)) && (Canonical(u, v) in pairs <==> PairTaken(plan))
    {
      ghost var t := Rows();
      var p := Canonical(u, v);
      WriteOnlyAdds(t, t, drawn, p, AddMember(drawn, 0));
      ok := Do(AddMember(drawn, 0), FaultAt(plan, RowInsert));
      if !ok { return; }
      WriteOnlyAdds(t, Rows(), drawn, p, SetKind(drawn, Random));
      ok := Do(SetKind(drawn, Random), FaultAt(plan, RandomKind));
      if !ok { return; }
      WriteOnlyAdds(t, Rows(), drawn, p, AddPair(drawn, p));
      WriteOnlyAdds(t, Apply(Rows(), AddPair(drawn, p)), drawn, p, AddById(drawn, p));
      var reservation := ReservePair(drawn, u, v, FaultAt(plan, PairInsert), FaultAt(plan, IdInsert));
      ok := reservation == Reserved;
    }
  }

  // ---------- the calls are runs of the concurrent machine ----------

  /** Call w left alone for n statements, none of which fails; its generator draws `drawn`. */
  function Solo(t: Tables, h: History, w: nat, pc: Pc, drawn: Chan, n: nat): (Tables, History, Pc)
    decreases n
  {
    if n == 0 then (t, h, pc)
    else var a := Advance(t, h, w, pc, NoFault, drawn); Solo(a.0, a.1, w, a.2, drawn, n - 1)
  }

  /** One statement of a lone call. */
  ghost predicate Leads(t: Tables, h: History, w: nat, pc: Pc, drawn: Chan, a: (Tables, History, Pc)) {
    Advance(t, h, w, pc, NoFault, drawn) == a
  }

  lemma SoloStep(t: Tables, h: History, w: nat, pc: Pc, drawn: Chan, n: nat, a: (Tables, History, Pc))
    requires Leads(t, h, w, pc, drawn, a)
    ensures Solo(t, h, w, pc, drawn, n + 1) == Solo(a.0, a.1, w, a.2, drawn, n)
  {}

  /** Once its reservation is complete a winner adds the rest of its rows in six statements. */
  lemma WinnerFurnishes(t: Tables, h: History, w: nat, u: User, v: User, c: Chan, n: nat)
    requires n == 6
    ensures Solo(t, h, w, Own(u, v, c, Member(false)), c, n) == (Furnished(t, c, u, v), h, Done(u, v, c, true))
  {
    var t1 := Apply(t, AddMember(c, u));
    var t2 := Apply(t1, AddCached(c, u));
    var t3 := Apply(t2, AddMember(c, v));
    var t4 := Apply(t3, AddCached(c, v));
    var t5 := Apply(t4, SetKind(c, Direct));
    SoloStep(t, h, w, Own(u, v, c, Member(false)), c, n - 1, (t1, h, Own(u, v, c, Cache(false))));
    SoloStep(t1, h, w, Own(u, v, c, Cache(false)), c, n - 2, (t2, h, Own(u, v, c, Member(true))));
    SoloStep(t2, h, w, Own(u, v, c, Member(true)), c, n - 3, (t3, h, Own(u, v, c, Cache(true))));
    SoloStep(t3, h, w, Own(u, v, c, Cache(true)), c, n - 4, (t4, h, Own(u, v, c, SetDirect)));
    SoloStep(t4, h, w, Own(u, v, c, SetDirect), c, n - 5, (t5, h, Own(u, v, c, Invite)));
    SoloStep(t5, h, w, Own(u, v, c, Invite), c, n - 6, (t5, h, Done(u, v, c, true)));
    assert t.members + {(c, u)} + {(c, v)} == t.members + {(c, u), (c, v)};
    assert t.cached + {(c, u)} + {(c, v)} == t.cached + {(c, u), (c, v)};
  }

  /** What a call that draws c for p, and wins, adds to the history. */
  function Winning(h: History, w: nat, c: Chan, p: Pair): History {
    h.(made := h.made[c := Maker(w, p)], reserved := h.reserved + {c})
  }

  /** A free pair: five statements up to the by-id row. */
  lemma LoneCallReserves(t: Tables, h: History, w: nat, u: User, v: User, c: Chan, n: nat)
    requires Canonical(u, v) !in t.pairs && c !in h.made
    ensures Solo(t, h, w, Look(u, v), c, n + 5)
              == Solo(ReservedRows(t, c, Canonical(u, v)), Winning(h, w, c, Canonical(u, v)), w,
                  Own(u, v, c, Member(false)), c, n)
  {
    var p := Canonical(u, v);
    var h1 := h.(made := h.made[c := Maker(w, p)]);
    var h2 := Winning(h, w, c, p);
    var t1 := Apply(t, AddMember(c, 0));
    var t2 := Apply(t1, SetKind(c, Random));
    var t3 := Apply(t2, AddPair(c, p));
    SoloStep(t, h, w, Look(u, v), c, n + 4, (t, h, NewRow(u, v)));
    SoloStep(t, h, w, NewRow(u, v), c, n + 3, (t1, h1, SetRandom(u, v, c)));
    SoloStep(t1, h1, w, SetRandom(u, v, c), c, n + 2, (t2, h1, Reserve(u, v, c)));
    SoloStep(t2, h1, w, Reserve(u, v, c), c, n + 1, (t3, h2, Own(u, v, c, ById)));
    SoloStep(t3, h2, w, Own(u, v, c, ById), c, n, (ReservedRows(t, c, p), h2, Own(u, v, c, Member(false))));
  }

  /** A lone call that finds no channel ends, after eleven statements, with exactly the tables the
      sequential form gives: a finished channel of its own. */
  lemma LoneCallCreates(t: Tables, h: History, w: nat, u: User, v: User, c: Chan, n: nat)
    requires Canonical(u, v) !in t.pairs && c !in h.made && n == 6
    ensures Solo(t, h, w, Look(u, v), c, n + 5) ==
            (WithChannel(t, c, u, v), Winning(h, w, c, Canonical(u, v)), Done(u, v, c, true))
  {
    LoneCallReserves(t, h, w, u, v, c, n);
    WinnerFurnishes(ReservedRows(t, c, Canonical(u, v)), Winning(h, w, c, Canonical(u, v)), w, u, v, c, n);
    FurnishedIsWithChannel(t, c, u, v);
  }

  /** A lone call that finds a channel returns it after four statements. */
  lemma LoneCallFinds(t: Tables, h: History, w: nat, u: User, v: User, drawn: Chan, n: nat)
    requires Canonical(u, v) in t.pairs && n == 4
    ensures var c := t.pairs[Canonical(u, v)];
            Solo(t, h, w, Look(u, v), drawn, n)
              == (t.(byId := t.byId[c := Canonical(u, v)], kinds := t.kinds[c := Direct]), h, Done(u, v, c, false))
  {
    var c := t.pairs[Canonical(u, v)];
    var t1 := Apply(t, AddById(c, Canonical(u, v)));
    var t2 := Apply(t1, SetKind(c, Direct));
    SoloStep(t, h, w, Look(u, v), drawn, n - 1, (t, h, Fill(u, v, c, false)));
    SoloStep(t, h, w, Fill(u, v, c, false), drawn, n - 2, (t1, h, Kinded(u, v, c)));
    SoloStep(t1, h, w, Kinded(u, v, c), drawn, n - 3, (t2, h, Ask(u, v, c)));
    SoloStep(t2, h, w, Ask(u, v, c), drawn, n - 4, (t2, h, Done(u, v, c, false)));
  }
}
