/** What the direct-channel protocol guarantees over all runs. */
module DirectChannelTheorems {
  import opened Basics
  import opened DirectChannel

  // ---------- one channel per pair ----------

  /** The step reports an error to a call that won the reservation, and so starts a roll-back. */
  predicate FailsAfterReserving(s: State, step: Step) {
    step.Go? && step.w in s.calls && step.fault != NoFault && s.calls[step.w].Own? && s.calls[step.w].stage != ById
  }

  /** No call fails after reserving; calls may stop anywhere and everything else may fail. */
  predicate Smooth(s: State, steps: seq<Step>)
    decreases |steps|
  {
    steps == [] || (Smooth(s, steps[..|steps| - 1])
                   && !FailsAfterReserving(Exec(s, steps[..|steps| - 1]), steps[|steps| - 1]))
  }

  ghost predicate NoRollBack(s: State) {
    forall w :: w in s.calls ==> !(s.calls[w].Drop? && s.calls[w].reserved)
  }

  /** A statement of a call that is not rolling back drops no pair. */
  lemma PairsStay(t: Tables, h: History, w: nat, pc: Pc, fault: Fault, drawn: Chan)
    requires CallOk(t, h, w, pc) && !(pc.Drop? && pc.reserved)
    ensures var a := Advance(t, h, w, pc, fault, drawn);
            && a.1.undone == h.undone
            && forall p :: p in t.pairs ==> PairIs(a.0, p, t.pairs[p])
  {}

  lemma SmoothStep(s: State, step: Step)
    requires Inv(s) && NoRollBack(s) && !FailsAfterReserving(s, step)
    ensures NoRollBack(Next(s, step)) && Next(s, step).history.undone == s.history.undone
    ensures forall p :: p in s.tables.pairs ==> PairIs(Next(s, step).tables, p, s.tables.pairs[p])
  {
    if step.Go? && step.w in s.calls {
      var pc := s.calls[step.w];
      assert CallOk(s.tables, s.history, step.w, pc);
      PairsStay(s.tables, s.history, step.w, pc, step.fault, step.drawn);
      if pc.Own? { assert !Advance(s.tables, s.history, step.w, pc, step.fault, step.drawn).2.Drop?; }
    }
  }

  lemma {:induction false} SmoothRun(s: State, steps: seq<Step>)
    requires Inv(s) && NoRollBack(s) && Smooth(s, steps)
    ensures Inv(Exec(s, steps)) && NoRollBack(Exec(s, steps)) && Exec(s, steps).history.undone == s.history.undone
    ensures forall p :: p in s.tables.pairs ==> PairIs(Exec(s, steps).tables, p, s.tables.pairs[p])
    decreases |steps|
  {
    ContinuingKeepsInv(s, steps);
    if steps != [] {
      SmoothRun(s, steps[..|steps| - 1]);
      SmoothStep(Exec(s, steps[..|steps| - 1]), steps[|steps| - 1]);
    }
  }

  /** Over every interleaving in which no call fails after reserving: a pair's channel is never
      replaced, at most one id wins each pair, and all calls that return, in either argument order,
      return it. */
  lemma OneChannelPerPair(steps: seq<Step>, more: seq<Step>)
    requires Smooth(START, steps) && Smooth(Exec(START, steps), more)
    ensures var s, t := Exec(START, steps), Exec(Exec(START, steps), more);
            && (forall p :: p in s.tables.pairs ==> PairIs(t.tables, p, s.tables.pairs[p]))
            && (forall c, d, p :: Won(t.history, c, p) && Won(t.history, d, p) ==> c == d)
            && (forall w :: w in t.calls && t.calls[w].Done?
                  ==> PairIs(t.tables, Canonical(t.calls[w].u, t.calls[w].v), t.calls[w].c))
  {
    SmoothRun(START, steps);
    SmoothRun(Exec(START, steps), more);
    var t := Exec(Exec(START, steps), more);
    forall w | w in t.calls && t.calls[w].Done?
      ensures PairIs(t.tables, Canonical(t.calls[w].u, t.calls[w].v), t.calls[w].c) {
      assert CallOk(t.tables, t.history, w, t.calls[w]);
    }
  }

  /** In every run at all, calls that return for a pair whose reservation was never rolled back
      return its one channel, whichever user is named first. */
  lemma SuccessesAgree(steps: seq<Step>, w: nat, x: nat)
    requires var s := Exec(START, steps);
             && w in s.calls && x in s.calls && s.calls[w].Done? && s.calls[x].Done?
             && Canonical(s.calls[w].u, s.calls[w].v) == Canonical(s.calls[x].u, s.calls[x].v)
             && Canonical(s.calls[w].u, s.calls[w].v) !in s.history.undone
    ensures var s := Exec(START, steps);
            s.calls[w].c == s.calls[x].c && PairIs(s.tables, Canonical(s.calls[x].u, s.calls[x].v), s.calls[w].c)
  {
    RunsKeepInv(steps);
    var s := Exec(START, steps);
    assert CallOk(s.tables, s.history, w, s.calls[w]) && CallOk(s.tables, s.history, x, s.calls[x]);
  }

  // ---------- when a channel is permanent ----------

  /** A call that can still remove the channel it reserved. */
  predicate Uncommitted(pc: Pc, c: Chan) {
    (pc.Own? && pc.c == c) ||
    (pc.Drop? && pc.reserved && pc.c == c && (pc.drop == Members || pc.drop == FindPair || pc.drop.PairRow?))
  }

  ghost predicate SomeUncommitted(s: State, c: Chan) { exists w :: w in s.calls && Uncommitted(s.calls[w], c) }

  lemma StepKeepsCommitted(s: State, step: Step, p: Pair, c: Chan)
    requires Inv(s) && PairIs(s.tables, p, c) && !SomeUncommitted(s, c)
    ensures PairIs(Next(s, step).tables, p, c) && !SomeUncommitted(Next(s, step), c)
  {
    if step.Go? && step.w in s.calls {
      var pc := s.calls[step.w];
      assert CallOk(s.tables, s.history, step.w, pc) && !Uncommitted(pc, c);
      assert !Uncommitted(Advance(s.tables, s.history, step.w, pc, step.fault, step.drawn).2, c);
    }
  }

  lemma {:induction false} RunsKeepCommitted(s: State, steps: seq<Step>, p: Pair, c: Chan)
    requires Inv(s) && PairIs(s.tables, p, c) && !SomeUncommitted(s, c)
    ensures PairIs(Exec(s, steps).tables, p, c) && !SomeUncommitted(Exec(s, steps), c)
    decreases |steps|
  {
    if steps != [] {
      var before := steps[..|steps| - 1];
      RunsKeepCommitted(s, before, p, c);
      ContinuingKeepsInv(s, before);
      StepKeepsCommitted(Exec(s, before), steps[|steps| - 1], p, c);
    }
  }

  lemma {:induction false} ExecCons(s: State, step: Step, rest: seq<Step>)
    ensures Exec(s, [step] + rest) == Exec(Next(s, step), rest)
    decreases |rest|
  {
    var all := [step] + rest;
    if rest == [] {
      assert all == [step] && [step][..0] == [];
    } else {
      assert all[..|all| - 1] == [step] + rest[..|rest| - 1];
      ExecCons(s, step, rest[..|rest| - 1]);
    }
  }

  /** Steps left until the pair row is gone, if the call fails as early as it can. */
  function ToRemoval(pc: Pc): nat
    requires pc.Own? || (pc.Drop? && (pc.drop == Members || pc.drop == FindPair || pc.drop.PairRow?))
  {
    if pc.Own? then if pc.stage == ById then 5 else 4
    else if pc.drop == Members then 3 else if pc.drop == FindPair then 2 else 1
  }

  lemma {:induction false} Removes(s: State, w: nat, c: Chan) returns (steps: seq<Step>)
    requires Inv(s) && w in s.calls && Uncommitted(s.calls[w], c)
    ensures Canonical(s.calls[w].u, s.calls[w].v) !in Exec(s, steps).tables.pairs
    decreases ToRemoval(s.calls[w])
  {
    var pc := s.calls[w];
    assert CallOk(s.tables, s.history, w, pc);
    var step := Go(w, if pc.Own? && pc.stage != ById then NoEffect else NoFault, 0);
    var s' := Next(s, step);
    var rest: seq<Step> := [];
    if !(pc.Drop? && pc.drop.PairRow?) {
      StepKeepsInv(s, step);
      rest := Removes(s', w, c);
    }
    ExecCons(s, step, rest);
    steps := [step] + rest;
  }

  /** A stored reservation survives every continuation exactly when its winner is no longer
      underway: neither past its reservation and before its end, nor rolling it back. */
  lemma PermanentExactlyWhen(s: State, p: Pair, c: Chan)
    requires Inv(s) && PairIs(s.tables, p, c)
    ensures (forall steps :: PairIs(Exec(s, steps).tables, p, c)) <==> !SomeUncommitted(s, c)
  {
    if SomeUncommitted(s, c) {
      var w :| w in s.calls && Uncommitted(s.calls[w], c);
      assert CallOk(s.tables, s.history, w, s.calls[w]);
      var steps := Removes(s, w, c);
      assert !PairIs(Exec(s, steps).tables, p, c);
    } else {
      forall steps ensures PairIs(Exec(s, steps).tables, p, c) { RunsKeepCommitted(s, steps, p, c); }
    }
  }

  // ---------- a committed channel, a loser's clean-up ----------

  lemma {:induction false} DoneForever(s: State, more: seq<Step>, w: nat)
    requires w in s.calls && s.calls[w].Done?
    ensures w in Exec(s, more).calls && Exec(s, more).calls[w] == s.calls[w]
    decreases |more|
  {
    if more != [] { DoneForever(s, more[..|more| - 1], w); }
  }

  /** Once its creator returned, a channel keeps its pair, its by-id row, its kind and both members
      forever, whatever other calls do and however they fail. */
  lemma CreatedForever(steps: seq<Step>, more: seq<Step>, w: nat)
    requires var s := Exec(START, steps); w in s.calls && s.calls[w].Done? && s.calls[w].created
    ensures var pc, t := Exec(START, steps).calls[w], Exec(Exec(START, steps), more).tables;
            var p, c := if pc.u < pc.v then Pair(pc.u, pc.v) else Pair(pc.v, pc.u), pc.c;
            && p in t.pairs && t.pairs[p] == c && c in t.byId && t.byId[c] == p
            && c in t.kinds && t.kinds[c] == Direct
            && (c, 0) in t.members && (c, pc.u) in t.members && (c, pc.v) in t.members
            && (c, pc.u) in t.cached && (c, pc.v) in t.cached
  {
    var s := Exec(START, steps);
    RunsKeepInv(steps);
    ContinuingKeepsInv(s, more);
    DoneForever(s, more, w);
    assert CallOk(Exec(s, more).tables, Exec(s, more).history, w, Exec(s, more).calls[w]);
  }

  /** Both direct-channel tables, and all rows of channels other than c, are the same. */
  ghost predicate SameElsewhere(t: Tables, t': Tables, c: Chan) {
    && t'.pairs == t.pairs && t'.byId == t.byId
    && (forall r: (Chan, User) :: r.0 != c
          ==> (r in t'.members <==> r in t.members) && (r in t'.cached <==> r in t.cached))
    && t'.kinds - {c} == t.kinds - {c}
  }

  lemma CleanUpTouches(t: Tables, c: Chan)
    requires c !in t.byId
    ensures SameElsewhere(t, Apply(t, DropMembers(c)), c) && SameElsewhere(t, Apply(t, DropById(c)), c)
    ensures SameElsewhere(t, Apply(t, DropKind(c)), c) && SameElsewhere(t, Apply(t, DropCached(c)), c)
  {
    assert t.byId - {c} == t.byId;
  }

  /** Every statement of a loser's DeleteChannel leaves both direct-channel tables and all rows of
      every other channel as they are. */
  lemma LoserDeletesOnlyItsOwn(steps: seq<Step>, w: nat, fault: Fault, drawn: Chan)
    requires var s := Exec(START, steps); w in s.calls && s.calls[w].Drop? && !s.calls[w].reserved
    ensures var s := Exec(START, steps);
            SameElsewhere(s.tables, Next(s, Go(w, fault, drawn)).tables, s.calls[w].c)
  {
    RunsKeepInv(steps);
    var s := Exec(START, steps);
    assert CallOk(s.tables, s.history, w, s.calls[w]);
    CleanUpTouches(s.tables, s.calls[w].c);
  }

  /** No run puts anyone but the two users (and the placeholder 0) into a channel, in the database
      or in the cache, and the by-id table names exactly the pair the channel was made for. */
  lemma OnlyThePairIsInside(steps: seq<Step>, c: Chan, p: Pair, u: User)
    requires var t := Exec(START, steps).tables; PairIs(t, p, c) && ((c, u) in t.members || (c, u) in t.cached)
    ensures u == 0 || u == p.low || u == p.high
    ensures var t := Exec(START, steps).tables; c in t.byId ==> t.byId[c] == p
  {
    RunsKeepInv(steps);
    assert forall r :: r in Exec(START, steps).tables.members ==> Belongs(Exec(START, steps).history, r.0, r.1);
    assert Belongs(Exec(START, steps).history, (c, u).0, (c, u).1);
  }
}
