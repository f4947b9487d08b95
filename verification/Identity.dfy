/** Account creation: unique claims on usernames and handles, taken and rolled back one Redis command
    at a time by any number of concurrent calls. */
module Identity {
  import opened Basics
  import opened Names

  type Id = nat

  /** A user record; an empty username or handle claims nothing. */
  datatype Account = Account(username: string, handle: string)

  datatype Tables = Tables(claims: map<Key, Id>, users: map<Id, Account>)

  datatype Write = Nothing | Claim(k: Key, id: Id) | Release(k: Key) | Store(id: Id, account: Account)

  function Apply(t: Tables, write: Write): Tables {
    match write
    case Nothing => t
    case Claim(k, id) => if k in t.claims then t else t.(claims := t.claims[k := id])
    case Release(k) => t.(claims := t.claims - {k})
    case Store(id, account) => t.(users := t.users[id := account])
  }

  datatype Result = Created | Unpublished | NameTaken | HandleTaken | Errored

  /** Where the call CreateUser of one id stands; `named` is its claimedUsername flag. */
  datatype Pc =
    | ClaimName(a: Account)                   // SETNX of the username key
    | ReadName(a: Account)                    // GET of a username key that exists
    | ClaimHandle(a: Account, named: bool)
    | ReadHandle(a: Account, named: bool)
    | DropName(a: Account, result: Result)    // roll-back after a failed handle claim
    | Save(a: Account, named: bool)           // SET of the record
    | UndoName(a: Account)                    // roll-back after a failed SET
    | UndoHandle(a: Account)
    | Publish(a: Account)                     // OAuth, Google and search-index entries
    | Ended(a: Account, result: Result)

  /** `torn`: ids whose record was stored although the call saw an error.
      `left`: keys an id claimed without its call noticing, or whose roll-back delete was lost, as long
      as no later delete of the id removed them. */
  datatype History = History(torn: set<Id>, left: set<(Id, Key)>)

  datatype State = State(tables: Tables, history: History, calls: map<Id, Pc>)

  datatype Step = Begin(id: Id, a: Account) | Go(id: Id, fault: Fault)

  function NeedsHandle(a: Account, named: bool): Pc { if a.handle != "" then ClaimHandle(a, named) else Save(a, named) }

  function First(a: Account): Pc { if a.username != "" then ClaimName(a) else NeedsHandle(a, false) }

  function Statement(id: Id, pc: Pc): Write {
    match pc
    case ClaimName(a) => Claim(UsernameKey(a.username), id)
    case ClaimHandle(a, _) => Claim(KeyOfHandle(a.handle), id)
    case DropName(a, _) => Release(UsernameKey(a.username))
    case Save(a, _) => Store(id, a)
    case UndoName(a) => Release(UsernameKey(a.username))
    case UndoHandle(a) => Release(KeyOfHandle(a.handle))
    case _ => Nothing
  }

  function Holds(t: Tables, k: Key, id: Id): bool { k in t.claims && t.claims[k] == id }

  function HandleFailed(a: Account, named: bool, result: Result): Pc {
    if named then DropName(a, result) else Ended(a, result)
  }

  function UndoFrom(a: Account, named: bool): Pc {
    if named && a.username != "" then UndoName(a) else if a.handle != "" then UndoHandle(a) else Ended(a, Errored)
  }

  function Ahead(t: Tables, id: Id, pc: Pc): Pc {
    match pc
    case ClaimName(a) => if UsernameKey(a.username) in t.claims then ReadName(a) else NeedsHandle(a, true)
    case ReadName(a) => if Holds(t, UsernameKey(a.username), id) then NeedsHandle(a, false) else Ended(a, NameTaken)
    case ClaimHandle(a, named) => if KeyOfHandle(a.handle) in t.claims then ReadHandle(a, named) else Save(a, true)
    case ReadHandle(a, named) => if Holds(t, KeyOfHandle(a.handle), id) then Save(a, named)
        else HandleFailed(a, named, HandleTaken)
    case DropName(a, result) => Ended(a, result)
    case Save(a, _) => Publish(a)
    case UndoName(a) => if a.handle != "" then UndoHandle(a) else Ended(a, Errored)
    case UndoHandle(a) => Ended(a, Errored)
    case Publish(a) => Ended(a, Created)
    case Ended(_, _) => pc
  }

  function Astray(t: Tables, id: Id, pc: Pc): Pc {
    match pc
    case ClaimName(a) => Ended(a, Errored)
    case ReadName(a) => Ended(a, Errored)
    case ClaimHandle(a, named) => HandleFailed(a, named, Errored)
    case ReadHandle(a, named) => HandleFailed(a, named, Errored)
    case Save(a, named) => UndoFrom(a, named)
    case Publish(a) => Ended(a, Unpublished)
    case _ => Ahead(t, id, pc)
  }

  function Record(t: Tables, h: History, id: Id, pc: Pc, fault: Fault): History {
    if fault == LostReply && pc.Save? then h.(torn := h.torn + {id})
    else if fault == LostReply && Statement(id, pc).Claim? && Statement(id, pc).k !in t.claims then
      h.(left := h.left + {(id, Statement(id, pc).k)})
    else if Statement(id, pc).Release? then
      h.(left := if fault == NoEffect then h.left + {(id, Statement(id, pc).k)}
                 else h.left - {(id, Statement(id, pc).k)})
    else h
  }

  function Advance(t: Tables, h: History, id: Id, pc: Pc, fault: Fault): (Tables, History, Pc) {
    (if fault == NoEffect then t else Apply(t, Statement(id, pc)), Record(t, h, id, pc, fault),
     if fault == NoFault then Ahead(t, id, pc) else Astray(t, id, pc))
  }

  /** An id is drawn for one call; Signup calls again with the same id after ErrHandleTaken only. */
  predicate MayBegin(s: State, id: Id) { id !in s.calls || (s.calls[id].Ended? && s.calls[id].result == HandleTaken) }

  function Next(s: State, step: Step): State {
    match step
    case Begin(id, a) => if MayBegin(s, id) then s.(calls := s.calls[id := First(a)]) else s
    case Go(id, fault) =>
      if id !in s.calls then s
      else var b := Advance(s.tables, s.history, id, s.calls[id], fault); State(b.0, b.1, s.calls[id := b.2])
  }

  function Exec(s: State, steps: seq<Step>): State
    decreases |steps|
  {
    if steps == [] then s else Next(Exec(s, steps[..|steps| - 1]), steps[|steps| - 1])
  }

  const START := State(Tables(map[], map[]), History({}, {}), map[])

  // ---------- the invariant ----------

  predicate OwnsName(t: Tables, id: Id, a: Account) { a.username != "" ==> Holds(t, UsernameKey(a.username), id) }
  predicate OwnsHandle(t: Tables, id: Id, a: Account) { a.handle != "" ==> Holds(t, KeyOfHandle(a.handle), id) }

  /** All claims of the id are among these two and those it left behind. */
  ghost predicate OnlyClaims(t: Tables, h: History, id: Id, name: bool, handle: bool, a: Account) {
    forall k :: k in t.claims && t.claims[k] == id
        ==> (id, k) in h.left
            || (name && a.username != "" && k == UsernameKey(a.username))
            || (handle && a.handle != "" && k == KeyOfHandle(a.handle))
  }

  /** What the roll-back relies on: the flag is set when the id claimed a username. */
  predicate FlagOk(h: History, id: Id, a: Account, named: bool) {
    (id, UsernameKey(a.username)) in h.left || a.username == "" || named
  }

  ghost predicate CallOk(t: Tables, h: History, id: Id, pc: Pc) {
    && (id in t.users ==> id in h.torn
                          || ((pc.Publish? || (pc.Ended? && (pc.result == Created || pc.result == Unpublished)))))
    && (id in t.users ==> t.users[id] == pc.a)
    && (id in t.users && id !in h.torn ==> OwnsName(t, id, pc.a) && OwnsHandle(t, id, pc.a))
    && (id in h.torn ==> pc.UndoName? || pc.UndoHandle? || (pc.Ended? && pc.result == Errored))
    && match pc
       case ClaimName(a) => a.username != "" && OnlyClaims(t, h, id, false, false, a)
       case ReadName(a) => a.username != "" && OnlyClaims(t, h, id, false, false, a)
       case ClaimHandle(a, named) =>
         && a.handle != "" && OwnsName(t, id, a) && (named ==> a.username != "") && FlagOk(h, id, a, named)
         && OnlyClaims(t, h, id, true, false, a)
       case ReadHandle(a, named) =>
         && a.handle != "" && OwnsName(t, id, a) && (named ==> a.username != "") && FlagOk(h, id, a, named)
         && OnlyClaims(t, h, id, true, false, a)
       case DropName(a, result) =>
         && (result == HandleTaken || result == Errored)
         && a.username != "" && OwnsName(t, id, a) && OnlyClaims(t, h, id, true, false, a)
       case Save(a, named) =>
         && OwnsName(t, id, a) && OwnsHandle(t, id, a) && FlagOk(h, id, a, named)
         && OnlyClaims(t, h, id, true, true, a)
       case UndoName(a) =>
         a.username != "" && OwnsName(t, id, a) && OwnsHandle(t, id, a)
             && OnlyClaims(t, h, id, true, true, a)
       case UndoHandle(a) =>
         a.handle != "" && OwnsHandle(t, id, a) && OnlyClaims(t, h, id, false, true, a)
       case Publish(a) => id in t.users
       case Ended(a, result) =>
         && (result == Created || result == Unpublished ==> id in t.users)
         && (result == Created || result == Unpublished || OnlyClaims(t, h, id, false, false, a))
  }

  /** Claims belong to calls, and what an id left behind it holds. */
  ghost predicate ClaimsOk(t: Tables, h: History, calls: set<Id>) {
    && (forall k :: k in t.claims ==> t.claims[k] in calls)
    && (forall x :: x in h.left ==> Holds(t, x.1, x.0))
  }

  ghost predicate Inv(s: State) {
    && (forall id :: id in s.calls ==> CallOk(s.tables, s.history, id, s.calls[id]))
    && (forall id :: id in s.tables.users || id in s.history.torn ==> id in s.calls)
    && ClaimsOk(s.tables, s.history, s.calls.Keys)
  }

  /** A call writes only its own record and its own or free claims. */
  predicate MayWrite(t: Tables, id: Id, write: Write) {
    match write
    case Nothing => true
    case Claim(k, x) => x == id
    case Release(k) => Holds(t, k, id)
    case Store(x, a) => x == id
  }

  lemma StatementsAreAllowed(t: Tables, h: History, id: Id, pc: Pc)
    requires CallOk(t, h, id, pc)
    ensures MayWrite(t, id, Statement(id, pc))
  {}

  /** The id holds the same claims and record in both tables. */
  ghost predicate SameFor(t: Tables, t': Tables, id: Id) {
    && (forall k :: (k in t'.claims && t'.claims[k] == id) <==> (k in t.claims && t.claims[k] == id))
    && (id in t'.users <==> id in t.users) && (id in t.users ==> t'.users[id] == t.users[id])
  }

  lemma WriteKeepsOthers(t: Tables, id: Id, write: Write, other: Id)
    requires MayWrite(t, id, write) && other != id
    ensures SameFor(t, Apply(t, write), other)
  {}

  lemma SameViewKeepsCall(t: Tables, h: History, t': Tables, h': History, id: Id, pc: Pc)
    requires CallOk(t, h, id, pc) && SameFor(t, t', id) && (id in h'.torn <==> id in h.torn)
             && (forall k :: (id, k) in h'.left <==> (id, k) in h.left)
    ensures CallOk(t', h', id, pc)
  {
    forall name, handle, a | OnlyClaims(t, h, id, name, handle, a) ensures OnlyClaims(t', h', id, name, handle, a) {}
    forall a | OwnsName(t, id, a) ensures OwnsName(t', id, a) {}
    forall a | OwnsHandle(t, id, a) ensures OwnsHandle(t', id, a) {}
  }

  lemma AdvanceKeepsOtherCall(t: Tables, h: History, id: Id, pc: Pc, fault: Fault, other: Id, pc': Pc)
    requires CallOk(t, h, id, pc) && CallOk(t, h, other, pc') && other != id
    ensures var b := Advance(t, h, id, pc, fault);
            CallOk(b.0, b.1, other, pc')
  {
    StatementsAreAllowed(t, h, id, pc);
    WriteKeepsOthers(t, id, Statement(id, pc), other);
    var b := Advance(t, h, id, pc, fault);
    assert SameFor(t, b.0, other);
    SameViewKeepsCall(t, h, b.0, b.1, other, pc');
  }

  lemma ClaimingKeepsCall(t: Tables, h: History, id: Id, pc: Pc, fault: Fault)
    requires CallOk(t, h, id, pc) && (pc.ClaimName? || pc.ReadName? || pc.ClaimHandle? || pc.ReadHandle?)
    ensures var b := Advance(t, h, id, pc, fault);
            CallOk(b.0, b.1, id, b.2)
  {}

  lemma SavingKeepsCall(t: Tables, h: History, id: Id, pc: Pc, fault: Fault)
    requires CallOk(t, h, id, pc) && (pc.Save? || pc.Publish? || pc.Ended?)
    ensures var b := Advance(t, h, id, pc, fault);
            CallOk(b.0, b.1, id, b.2)
  {}

  lemma UndoingKeepsCall(t: Tables, h: History, id: Id, pc: Pc, fault: Fault)
    requires CallOk(t, h, id, pc) && (pc.DropName? || pc.UndoName? || pc.UndoHandle?)
    ensures var b := Advance(t, h, id, pc, fault);
            CallOk(b.0, b.1, id, b.2)
  {}

  lemma AdvanceKeepsOwnCall(t: Tables, h: History, id: Id, pc: Pc, fault: Fault)
    requires CallOk(t, h, id, pc)
    ensures var b := Advance(t, h, id, pc, fault);
            CallOk(b.0, b.1, id, b.2)
  {
    if pc.ClaimName? || pc.ReadName? || pc.ClaimHandle? || pc.ReadHandle? {
      ClaimingKeepsCall(t, h, id, pc, fault);
    } else if pc.Save? || pc.Publish? || pc.Ended? {
      SavingKeepsCall(t, h, id, pc, fault);
    } else {
      UndoingKeepsCall(t, h, id, pc, fault);
    }
  }

  lemma BeginKeepsInv(s: State, id: Id, a: Account)
    requires Inv(s) && MayBegin(s, id)
    ensures Inv(Next(s, Begin(id, a)))
  {
    if id in s.calls { assert CallOk(s.tables, s.history, id, s.calls[id]); }
    assert CallOk(s.tables, s.history, id, First(a));
  }

  lemma AdvanceKeepsClaims(s: State, id: Id, fault: Fault)
    requires Inv(s) && id in s.calls
    ensures var b := Advance(s.tables, s.history, id, s.calls[id], fault); ClaimsOk(b.0, b.1, s.calls.Keys)
  {
    StatementsAreAllowed(s.tables, s.history, id, s.calls[id]);
    assert CallOk(s.tables, s.history, id, s.calls[id]);
  }

  lemma AdvanceKeepsCalls(s: State, id: Id, fault: Fault)
    requires Inv(s) && id in s.calls
    ensures var b := Advance(s.tables, s.history, id, s.calls[id], fault);
            && CallOk(b.0, b.1, id, b.2)
            && (forall other :: other in s.calls && other != id ==> CallOk(b.0, b.1, other, s.calls[other]))
            && (forall x :: x in b.0.users || x in b.1.torn ==> x in s.calls)
  {
    var b := Advance(s.tables, s.history, id, s.calls[id], fault);
    AdvanceKeepsOwnCall(s.tables, s.history, id, s.calls[id], fault);
    forall other | other in s.calls && other != id ensures CallOk(b.0, b.1, other, s.calls[other]) {
      AdvanceKeepsOtherCall(s.tables, s.history, id, s.calls[id], fault, other, s.calls[other]);
    }
  }

  lemma StepKeepsInv(s: State, step: Step)
    requires Inv(s)
    ensures Inv(Next(s, step))
  {
    if step.Begin? {
      if MayBegin(s, step.id) { BeginKeepsInv(s, step.id, step.a); }
    } else if step.id in s.calls {
      AdvanceKeepsCalls(s, step.id, step.fault);
      AdvanceKeepsClaims(s, step.id, step.fault);
    }
  }

  lemma {:induction false} RunsKeepInv(steps: seq<Step>)
    ensures Inv(Exec(START, steps))
    decreases |steps|
  {
    if steps != [] {
      RunsKeepInv(steps[..|steps| - 1]);
      StepKeepsInv(Exec(START, steps[..|steps| - 1]), steps[|steps| - 1]);
    }
  }

  // ---------- what creation guarantees ----------

  /** Over every interleaving and every failure: a stored user owns the claims of its username and
      handle, unless its own record write reported an error although it took effect. */
  lemma StoredUsersOwnTheirNames(steps: seq<Step>, id: Id)
    requires var s := Exec(START, steps); id in s.tables.users && id !in s.history.torn
    ensures var t := Exec(START, steps).tables; OwnsName(t, id, t.users[id]) && OwnsHandle(t, id, t.users[id])
  {
    RunsKeepInv(steps);
    var s := Exec(START, steps);
    assert CallOk(s.tables, s.history, id, s.calls[id]);
  }

  /** So no two of them share a normalized username or handle. */
  lemma NamesAreUnique(steps: seq<Step>, i: Id, j: Id)
    requires var s := Exec(START, steps);
             i in s.tables.users && j in s.tables.users && i !in s.history.torn && j !in s.history.torn && i != j
    ensures var a, b := Exec(START, steps).tables.users[i], Exec(START, steps).tables.users[j];
            && (a.username != "" && b.username != "" ==> UsernameKey(a.username) != UsernameKey(b.username))
            && (a.handle != "" && b.handle != "" ==> KeyOfHandle(a.handle) != KeyOfHandle(b.handle))
  {
    StoredUsersOwnTheirNames(steps, i);
    StoredUsersOwnTheirNames(steps, j);
  }

  /** A create that ended on a taken username, on its handle claim or on its record write holds exactly
      the claims it left behind: those that went unnoticed and those whose roll-back delete was lost. */
  lemma FailedCreatesLeaveExactly(steps: seq<Step>, id: Id, k: Key)
    requires var s := Exec(START, steps);
             && id in s.calls && s.calls[id].Ended?
             && (s.calls[id].result == NameTaken || s.calls[id].result == HandleTaken || s.calls[id].result == Errored)
    ensures Holds(Exec(START, steps).tables, k, id) <==> (id, k) in Exec(START, steps).history.left
  {
    RunsKeepInv(steps);
    var s := Exec(START, steps);
    assert CallOk(s.tables, s.history, id, s.calls[id]);
    if (id, k) in s.history.left { assert Holds(s.tables, (id, k).1, (id, k).0); }
  }

  // ---------- when a stored user keeps its name ----------

  /** Stored, owning its username, and not about to roll it back. */
  ghost predicate KeepsName(s: State, id: Id) {
    && id in s.tables.users && id in s.calls && s.tables.users[id].username != ""
    && Holds(s.tables, UsernameKey(s.tables.users[id].username), id) && !s.calls[id].UndoName?
  }

  lemma StepKeepsName(s: State, step: Step, id: Id)
    requires Inv(s) && KeepsName(s, id)
    ensures KeepsName(Next(s, step), id) && Next(s, step).tables.users[id] == s.tables.users[id]
  {
    assert CallOk(s.tables, s.history, id, s.calls[id]);
    if step.Go? && step.id in s.calls {
      StatementsAreAllowed(s.tables, s.history, step.id, s.calls[step.id]);
      if step.id != id { WriteKeepsOthers(s.tables, step.id, Statement(step.id, s.calls[step.id]), id); }
    }
  }

  lemma {:induction false} RunsKeepName(s: State, steps: seq<Step>, id: Id)
    requires Inv(s) && KeepsName(s, id)
    ensures Inv(Exec(s, steps)) && KeepsName(Exec(s, steps), id)
    ensures Exec(s, steps).tables.users[id] == s.tables.users[id]
    decreases |steps|
  {
    if steps != [] {
      RunsKeepName(s, steps[..|steps| - 1], id);
      StepKeepsInv(Exec(s, steps[..|steps| - 1]), steps[|steps| - 1]);
      StepKeepsName(Exec(s, steps[..|steps| - 1]), steps[|steps| - 1], id);
    }
  }

  lemma OneStep(s: State, step: Step)
    ensures Exec(s, [step]) == Next(s, step)
  {
    assert [step][..0] == [];
  }

  lemma UndoTakesName(s: State, id: Id)
    requires Inv(s) && id in s.calls && s.calls[id].UndoName?
    ensures !Holds(Next(s, Go(id, NoFault)).tables, UsernameKey(s.calls[id].a.username), id)
  {}

  /** A username that a stored user owns stays its own in every continuation exactly when its create
      is not about to roll the claim back. */
  lemma NameIsPermanentExactlyWhen(s: State, id: Id)
    requires Inv(s) && id in s.tables.users && s.tables.users[id].username != ""
    requires Holds(s.tables, UsernameKey(s.tables.users[id].username), id)
    ensures (forall steps :: Holds(Exec(s, steps).tables, UsernameKey(s.tables.users[id].username), id))
            <==> !s.calls[id].UndoName?
  {
    var k := UsernameKey(s.tables.users[id].username);
    if s.calls[id].UndoName? {
      assert CallOk(s.tables, s.history, id, s.calls[id]);
      OneStep(s, Go(id, NoFault));
      UndoTakesName(s, id);
    } else {
      forall steps ensures Holds(Exec(s, steps).tables, k, id) { RunsKeepName(s, steps, id); }
    }
  }

  lemma Tears(s: State, id: Id)
    requires id in s.calls && s.calls[id].Save? && s.calls[id].named && s.calls[id].a.username != ""
    ensures var a, s1 := s.calls[id].a, Next(s, Go(id, LostReply));
            s1.tables == s.tables.(users := s.tables.users[id := a]) && s1.calls == s.calls[id := UndoName(a)]
  {}

  lemma Undoes(s: State, id: Id, a: Account)
    requires id in s.calls && s.calls[id] == UndoName(a)
    ensures var s1 := Next(s, Go(id, NoFault));
            && UsernameKey(a.username) !in s1.tables.claims && s1.tables.users == s.tables.users
            && s1.calls.Keys == s.calls.Keys
  {}

  lemma TearAndUndo(s: State, id: Id)
    requires Inv(s) && id in s.calls && s.calls[id].Save? && s.calls[id].named && s.calls[id].a.username != ""
    ensures var a, s2 := s.calls[id].a, Next(Next(s, Go(id, LostReply)), Go(id, NoFault));
            && UsernameKey(a.username) !in s2.tables.claims && s2.tables.users == s.tables.users[id := a]
            && s2.calls.Keys == s.calls.Keys
  {
    Tears(s, id);
    Undoes(Next(s, Go(id, LostReply)), id, s.calls[id].a);
  }

  lemma TakeFreeName(s: State, other: Id, name: string)
    requires other !in s.calls && name != "" && UsernameKey(name) !in s.tables.claims
    ensures var s3 := Next(Next(Next(s, Begin(other, Account(name, ""))), Go(other, NoFault)), Go(other, NoFault));
            s3.tables.users == s.tables.users[other := Account(name, "")]
  {
    var s1 := Next(s, Begin(other, Account(name, "")));
    assert s1.calls[other] == ClaimName(Account(name, ""));
    var s2 := Next(s1, Go(other, NoFault));
    assert s2.calls[other] == Save(Account(name, ""), true);
  }

  /** The lost reply of a record write makes that happen: the user stays stored, its claim is rolled
      back, and anyone may then store the same username. */
  lemma LostRecordGivesNameAway(s: State, id: Id, other: Id) returns (steps: seq<Step>)
    requires Inv(s) && id in s.calls && s.calls[id].Save? && s.calls[id].named && s.calls[id].a.username != ""
             && other !in s.calls
    ensures var t := Exec(s, steps).tables;
            && id in t.users && other in t.users && id != other
            && t.users[id].username == t.users[other].username == s.calls[id].a.username
  {
    var name := s.calls[id].a.username;
    steps := [Go(id, LostReply), Go(id, NoFault), Begin(other, Account(name, "")), Go(other, NoFault),
        Go(other, NoFault)];
    TearAndUndo(s, id);
    TakeFreeName(Next(Next(s, steps[0]), steps[1]), other, name);
    FiveSteps(s, steps);
  }

  lemma FiveSteps(s: State, a: seq<Step>)
    requires |a| == 5
    ensures Exec(s, a) == Next(Next(Next(Next(Next(s, a[0]), a[1]), a[2]), a[3]), a[4])
  {
    assert a[..4][..3] == a[..3] && a[..3][..2] == a[..2] && a[..2][..1] == a[..1] && a[..1][..0] == [];
    assert Exec(s, a[..1]) == Next(s, a[0]);
    assert Exec(s, a[..2]) == Next(Exec(s, a[..1]), a[1]);
    assert Exec(s, a[..3]) == Next(Exec(s, a[..2]), a[2]);
    assert Exec(s, a[..4]) == Next(Exec(s, a[..3]), a[3]);
  }
}
