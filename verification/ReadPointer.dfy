/** One reader's last-read pointer: a seed INSERT IF NOT EXISTS, then a conditional UPDATE, by any
    number of concurrent calls. */
module ReadPointer {
  import opened Basics

  type Id = nat

  datatype Pc = Look(id: Id) | Seed(id: Id) | Raise(id: Id) | Finished(id: Id) | Failed(id: Id)

  /** The messages that exist, the receipt row, and the calls MarkMessageRead. */
  datatype State = State(messages: set<Id>, row: Option<Id>, calls: map<nat, Pc>)

  datatype Step = Begin(w: nat, id: Id) | Go(w: nat, fault: Fault)

  function Seeded(row: Option<Id>, id: Id): Option<Id> { if row.None? then Some(id) else row }

  /** UPDATE ... IF last_read_message_id < id; a missing row fails the condition. */
  function Raised(row: Option<Id>, id: Id): Option<Id> { if row.Some? && row.value < id then Some(id) else row }

  function Write(row: Option<Id>, pc: Pc): Option<Id> {
    match pc
    case Seed(id) => Seeded(row, id)
    case Raise(id) => Raised(row, id)
    case _ => row
  }

  function After(s: State, pc: Pc): Pc {
    match pc
    case Look(id) => if id in s.messages then Seed(id) else Failed(id)
    case Seed(id) => if s.row.None? then Finished(id) else Raise(id)
    case Raise(id) => Finished(id)
    case Finished(_) => pc
    case Failed(_) => pc
  }

  function Next(s: State, step: Step): State {
    match step
    case Begin(w, id) => if w in s.calls then s else s.(calls := s.calls[w := Look(id)])
    case Go(w, fault) =>
      if w !in s.calls then s
      else s.(row := if fault == NoEffect then s.row else Write(s.row, s.calls[w]),
              calls := s.calls[w := if fault == NoFault then After(s, s.calls[w])
                                    else if s.calls[w].Finished? then s.calls[w] else Failed(s.calls[w].id)])
  }

  function Exec(s: State, steps: seq<Step>): State
    decreases |steps|
  {
    if steps == [] then s else Next(Exec(s, steps[..|steps| - 1]), steps[|steps| - 1])
  }

  predicate AtLeast(row: Option<Id>, id: Id) { row.Some? && row.value >= id }

  ghost predicate SomeCallMarks(s: State, id: Id) { exists w :: w in s.calls && s.calls[w].id == id }

  ghost predicate Inv(s: State) {
    && (forall w :: w in s.calls && s.calls[w].Finished? ==> AtLeast(s.row, s.calls[w].id))
    && (forall w :: w in s.calls && s.calls[w].Raise? ==> s.row.Some?)
    && (forall w :: w in s.calls && !s.calls[w].Look? && !s.calls[w].Failed? ==> s.calls[w].id in s.messages)
    && (s.row.Some? ==> SomeCallMarks(s, s.row.value) && s.row.value in s.messages)
  }

  lemma StepKeepsInv(s: State, step: Step)
    requires Inv(s)
    ensures Inv(Next(s, step))
    ensures s.row.Some? ==> AtLeast(Next(s, step).row, s.row.value)
  {
    var t := Next(s, step);
    forall id | SomeCallMarks(s, id) ensures SomeCallMarks(t, id) {
      var w :| w in s.calls && s.calls[w].id == id;
      assert w in t.calls && t.calls[w].id == id;
    }
    if t.row != s.row { assert t.calls[step.w].id == t.row.value; }
  }

  /** In every continuation of every reachable state the pointer never moves back. */
  lemma {:induction false} NeverMovesBack(s: State, steps: seq<Step>)
    requires Inv(s)
    ensures Inv(Exec(s, steps))
    ensures s.row.Some? ==> AtLeast(Exec(s, steps).row, s.row.value)
    decreases |steps|
  {
    if steps != [] {
      NeverMovesBack(s, steps[..|steps| - 1]);
      StepKeepsInv(Exec(s, steps[..|steps| - 1]), steps[|steps| - 1]);
    }
  }

  function Start(messages: set<Id>): State { State(messages, None, map[]) }

  /** Over every interleaving and every failure: a finished call leaves the pointer at its own id or
      beyond, and the pointer is always the id of an existing message some call marked. */
  lemma FinishedCallsAreCovered(messages: set<Id>, steps: seq<Step>, w: nat)
    requires var s := Exec(Start(messages), steps); w in s.calls && s.calls[w].Finished?
    ensures var s := Exec(Start(messages), steps);
            AtLeast(s.row, s.calls[w].id) && SomeCallMarks(s, s.row.value) && s.row.value in messages
  {
    NeverMovesBack(Start(messages), steps);
    SameMessages(messages, steps);
  }

  lemma {:induction false} SameMessages(messages: set<Id>, steps: seq<Step>)
    ensures Exec(Start(messages), steps).messages == messages
    decreases |steps|
  {
    if steps != [] { SameMessages(messages, steps[..|steps| - 1]); }
  }

  /** Once all calls finish, the pointer is the maximum of the marked ids. */
  lemma AllFinishedIsTheMaximum(messages: set<Id>, steps: seq<Step>, m: Id)
    requires var s := Exec(Start(messages), steps);
             s.calls != map[] && forall w :: w in s.calls ==> s.calls[w].Finished?
    ensures var s := Exec(Start(messages), steps);
            s.row == Some(m) <==> SomeCallMarks(s, m) && forall w :: w in s.calls ==> s.calls[w].id <= m
  {
    NeverMovesBack(Start(messages), steps);
    var s := Exec(Start(messages), steps);
    var w :| w in s.calls;
    assert AtLeast(s.row, s.calls[w].id);
    var top :| top in s.calls && s.calls[top].id == s.row.value;
    if SomeCallMarks(s, m) && forall x :: x in s.calls ==> s.calls[x].id <= m {
      var x :| x in s.calls && s.calls[x].id == m;
      assert AtLeast(s.row, m);
    }
  }

  // ---------- the code's own form ----------

  class ReadState {
    const messages: set<Id>
    var row: Option<Id>

    constructor (messages: set<Id>)
      ensures this.messages == messages && row == None
    {
      this.messages := messages;
      row := None;
    }

    /** MarkMessageRead, run alone: the pointer becomes the larger of itself and the id. */
    method MarkMessageRead(id: Id) returns (ok: bool)
      modifies this
      ensures ok == (id in messages)
      ensures !ok ==> row == old(row)
      ensures ok ==> row == Some(if AtLeast(old(row), id) then old(row).value else id)
    {
      if id !in messages { return false; }
      var applied := row.None?;
      row := Seeded(row, id);
      if applied { return true; }
      row := Raised(row, id);
      return true;
    }
  }
}
