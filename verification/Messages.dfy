/** One channel's message quota under concurrent calls that execute one Cassandra statement per step. */
module Messages {
  import opened Basics

  // ---------- the quota ----------

  /** Where an InsertMessage call stands; call w stores the message with id w. */
  datatype Pc = Read | Insert | Count | Sent | Refused | Failed

  /** The messages table, the counter, and two notes on what happened: the messages the counter
      knows, and those whose call failed between storing and counting. */
  datatype State = State(messages: set<nat>, counter: nat, calls: map<nat, Pc>, counted: set<nat>, stray: set<nat>)

  datatype Step = Begin(w: nat) | Go(w: nat, fault: Fault)

  function Next(s: State, max: int, step: Step): State {
    match step
    case Begin(w) => if w in s.calls then s else s.(calls := s.calls[w := Read])
    case Go(w, fault) =>
      if w !in s.calls then s
      else match s.calls[w]
      case Read =>
        var next := if fault != NoFault then Failed else if s.counter >= max then Refused else Insert;
        s.(calls := s.calls[w := next])
      case Insert =>
        if fault == NoEffect then s.(calls := s.calls[w := Failed])
        else s.(messages := s.messages + {w}, calls := s.calls[w := if fault == NoFault then Count else Failed],
                stray := if fault == NoFault then s.stray else s.stray + {w})
      case Count =>
        if fault == NoEffect then s.(calls := s.calls[w := Failed], stray := s.stray + {w})
        else s.(counter := s.counter + 1, counted := s.counted + {w},
            calls := s.calls[w := if fault == NoFault then Sent else Failed])
      case _ => s
  }

  function Exec(s: State, max: int, steps: seq<Step>): State
    decreases |steps|
  {
    if steps == [] then s else Next(Exec(s, max, steps[..|steps| - 1]), max, steps[|steps| - 1])
  }

  const EMPTY := State({}, 0, map[], {}, {})

  function Counting(s: State): set<nat> { set w | w in s.calls && s.calls[w] == Count }

  /** Calls that passed the limit check and have not ended. */
  function InFlight(s: State): set<nat> { set w | w in s.calls && (s.calls[w] == Insert || s.calls[w] == Count) }

  predicate At(s: State, w: nat, pc: Pc) { w in s.calls && s.calls[w] == pc }

  /** The message of call w is stored exactly when it is counted, about to be, or stray. */
  ghost predicate Filed(s: State, w: nat) {
    && (w in s.messages <==> w in s.counted || At(s, w, Count) || w in s.stray)
    && (w in s.counted ==> w !in s.stray && (At(s, w, Sent) || At(s, w, Failed)))
    && (w in s.stray ==> At(s, w, Failed))
  }

  ghost predicate Books(s: State) { s.counter == |s.counted| && forall w :: Filed(s, w) }

  lemma BooksAddUp(s: State)
    requires Books(s)
    ensures s.messages == s.counted + Counting(s) + s.stray
    ensures |s.messages| == s.counter + |Counting(s)| + |s.stray|
  {
    forall w ensures w in s.messages <==> w in s.counted + Counting(s) + s.stray { assert Filed(s, w); }
    forall w | w in s.counted ensures w !in Counting(s) && w !in s.stray { assert Filed(s, w); }
    forall w | w in s.stray ensures w !in Counting(s) { assert Filed(s, w); }
    UnionSize(s.counted, Counting(s));
    UnionSize(s.counted + Counting(s), s.stray);
  }

  lemma OneCallChanges(s: State, t: State, w: nat, pc: Pc)
    requires t.calls == s.calls[w := pc]
    ensures Counting(t) == if pc == Count then Counting(s) + {w} else Counting(s) - {w}
    ensures InFlight(t) == if pc == Insert || pc == Count then InFlight(s) + {w} else InFlight(s) - {w}
  {}

  predicate Flying(pc: Pc) { pc == Insert || pc == Count }

  lemma AddSize(a: set<nat>, w: nat)
    ensures |a + {w}| == |a| + (if w in a then 0 else 1) && |a - {w}| == |a| - (if w in a then 1 else 0)
  {
    if w in a { assert a + {w} == a; } else { assert a - {w} == a; }
  }

  lemma FlightSize(s: State, t: State, w: nat, pc: Pc)
    requires t.calls == s.calls[w := pc]
    ensures |InFlight(t)| == |InFlight(s)|
            + (if Flying(pc) then 1 else 0) - (if w in s.calls && Flying(s.calls[w]) then 1 else 0)
  {
    OneCallChanges(s, t, w, pc);
    AddSize(InFlight(s), w);
  }

  lemma StepFiles(s: State, max: int, step: Step, w: nat)
    requires Filed(s, w)
    ensures Filed(Next(s, max, step), w)
  {}

  lemma StepCounts(s: State, max: int, step: Step)
    requires s.counter == |s.counted| && (step.Go? ==> Filed(s, step.w))
    ensures Next(s, max, step).counter == |Next(s, max, step).counted|
  {}

  lemma StepKeepsBooks(s: State, max: int, step: Step)
    requires Books(s)
    ensures Books(Next(s, max, step))
  {
    StepCounts(s, max, step);
    forall w ensures Filed(Next(s, max, step), w) { StepFiles(s, max, step, w); }
  }

  lemma {:induction false} RunsKeepBooks(max: int, steps: seq<Step>)
    ensures Books(Exec(EMPTY, max, steps))
    decreases |steps|
  {
    if steps != [] {
      RunsKeepBooks(max, steps[..|steps| - 1]);
      StepKeepsBooks(Exec(EMPTY, max, steps[..|steps| - 1]), max, steps[|steps| - 1]);
    }
  }

  /** At no time of the run were more than k calls in flight. */
  ghost predicate AtMostInFlight(s: State, max: int, steps: seq<Step>, k: nat)
    decreases |steps|
  {
    |InFlight(Exec(s, max, steps))| <= k && (steps == [] || AtMostInFlight(s, max, steps[..|steps| - 1], k))
  }

  ghost predicate Bounded(s: State, max: int, k: nat) {
    s.counter + |InFlight(s)| == 0 || s.counter + |InFlight(s)| <= max + k - 1
  }

  lemma FlightChanges(s: State, max: int, step: Step)
    ensures var t := Next(s, max, step);
            t.counter + |InFlight(t)| <= s.counter + |InFlight(s)| || t.counter < max
  {
    var t := Next(s, max, step);
    if t.calls != s.calls {
      assert t.calls == s.calls[step.w := t.calls[step.w]];
      FlightSize(s, t, step.w, t.calls[step.w]);
    }
  }

  lemma {:induction false} RunsStayBounded(max: int, steps: seq<Step>, k: nat)
    requires AtMostInFlight(EMPTY, max, steps, k)
    ensures Bounded(Exec(EMPTY, max, steps), max, k)
    decreases |steps|
  {
    if steps == [] {
      assert InFlight(EMPTY) == {};
    } else {
      var before := steps[..|steps| - 1];
      RunsStayBounded(max, before, k);
      RunsKeepBooks(max, before);
      FlightChanges(Exec(EMPTY, max, before), max, steps[|steps| - 1]);
    }
  }

  lemma UnionSize(a: set<nat>, b: set<nat>)
    requires a !! b
    ensures |a + b| == |a| + |b|
  {}

  lemma SubsetSize(a: set<nat>, b: set<nat>)
    requires a <= b
    ensures |a| <= |b|
  {
    UnionSize(a, b - a);
    assert a + (b - a) == b;
  }

  /** With at most k calls in flight a channel never holds more than max + k - 1 messages beyond
      those whose call failed between storing and counting; a limit below one admits none. */
  lemma QuotaHolds(max: int, steps: seq<Step>, k: nat)
    requires AtMostInFlight(EMPTY, max, steps, k)
    ensures var s := Exec(EMPTY, max, steps);
            |s.messages| <= |s.stray| + (if max >= 1 && k >= 1 then max + k - 1 else 0)
  {
    var s := Exec(EMPTY, max, steps);
    RunsKeepBooks(max, steps);
    BooksAddUp(s);
    SubsetSize(Counting(s), InFlight(s));
    if max >= 1 && k >= 1 {
      RunsStayBounded(max, steps, k);
    } else if max >= 1 {
      NobodyInFlight(max, steps);
    } else {
      NothingAdmitted(max, steps);
    }
  }

  lemma {:induction false} NobodyInFlight(max: int, steps: seq<Step>)
    requires AtMostInFlight(EMPTY, max, steps, 0)
    ensures Exec(EMPTY, max, steps).counter == 0 && InFlight(Exec(EMPTY, max, steps)) == {}
    decreases |steps|
  {
    if steps != [] {
      var s := Exec(EMPTY, max, steps[..|steps| - 1]);
      NobodyInFlight(max, steps[..|steps| - 1]);
      var step := steps[|steps| - 1];
      if step.Go? && step.w in s.calls { assert step.w !in InFlight(s); }
    }
  }

  lemma {:induction false} NothingAdmitted(max: int, steps: seq<Step>)
    requires max <= 0
    ensures Exec(EMPTY, max, steps).counter == 0 && InFlight(Exec(EMPTY, max, steps)) == {}
    decreases |steps|
  {
    if steps != [] {
      var s := Exec(EMPTY, max, steps[..|steps| - 1]);
      NothingAdmitted(max, steps[..|steps| - 1]);
      var step := steps[|steps| - 1];
      if step.Go? && step.w in s.calls { assert step.w !in InFlight(s); }
    }
  }

  /** Alone and without earlier failures the limit is exact: a call is refused exactly when the
      channel holds at least max messages. */
  lemma LoneCallIsExact(max: int, steps: seq<Step>, w: nat)
    requires var s := Exec(EMPTY, max, steps); w in s.calls && s.calls[w] == Read && InFlight(s) == {} && s.stray == {}
    ensures var s := Exec(EMPTY, max, steps);
            Next(s, max, Go(w, NoFault)).calls[w] == (if |s.messages| >= max then Refused else Insert)
  {
    var s := Exec(EMPTY, max, steps);
    RunsKeepBooks(max, steps);
    BooksAddUp(s);
    assert Counting(s) <= InFlight(s);
  }

  // ---------- the bound is reached ----------

  lemma {:induction false} ExecConcat(s: State, max: int, a: seq<Step>, b: seq<Step>)
    ensures Exec(s, max, a + b) == Exec(Exec(s, max, a), max, b)
    decreases |b|
  {
    if b == [] {
      assert a + b == a;
    } else {
      assert (a + b)[..|a + b| - 1] == a + b[..|b| - 1];
      ExecConcat(s, max, a, b[..|b| - 1]);
    }
  }

  lemma {:induction false} FlightConcat(s: State, max: int, a: seq<Step>, b: seq<Step>, k: nat)
    requires AtMostInFlight(s, max, a, k) && AtMostInFlight(Exec(s, max, a), max, b, k)
    ensures AtMostInFlight(s, max, a + b, k)
    decreases |b|
  {
    ExecConcat(s, max, a, b);
    if b == [] {
      assert a + b == a;
    } else {
      assert (a + b)[..|a + b| - 1] == a + b[..|b| - 1];
      FlightConcat(s, max, a, b[..|b| - 1], k);
    }
  }

  /** The state after calls 0..sent-1 sent their messages and the next `passed` calls passed the
      check, the first `stored` of which have stored theirs. */
  ghost predicate Reached(s: State, sent: nat, passed: nat, stored: nat) {
    && s.counter == sent && stored <= passed
    && (forall w: nat :: w in s.messages <==> w < sent + stored)
    && (forall w: nat :: w in s.calls <==> w < sent + passed)
    && (forall w: nat :: w < sent ==> s.calls[w] == Sent)
    && (forall w: nat :: sent <= w < sent + passed ==> s.calls[w] == if w < sent + stored then Count else Insert)
  }

  lemma {:induction false} RangeSize(lo: nat, n: nat, a: set<nat>)
    requires forall w: nat :: w in a <==> lo <= w < lo + n
    ensures |a| == n
    decreases n
  {
    if n == 0 { assert a == {}; } else { RangeSize(lo, n - 1, a - {lo + n - 1}); }
  }

  lemma ReachedSizes(s: State, sent: nat, passed: nat, stored: nat)
    requires Reached(s, sent, passed, stored)
    ensures |InFlight(s)| == passed && |s.messages| == sent + stored
  {
    RangeSize(sent, passed, InFlight(s));
    RangeSize(0, sent + stored, s.messages);
  }

  lemma TwoSteps(s: State, max: int, a: Step, b: Step, k: nat)
    requires |InFlight(s)| <= k && |InFlight(Next(s, max, a))| <= k && |InFlight(Next(Next(s, max, a), max, b))| <= k
    ensures Exec(s, max, [a, b]) == Next(Next(s, max, a), max, b) && AtMostInFlight(s, max, [a, b], k)
  {
    assert [a, b][..1] == [a] && [a][..0] == [];
    assert Exec(s, max, [a]) == Next(s, max, a);
  }

  lemma PassOne(s: State, max: int, sent: nat, passed: nat) returns (steps: seq<Step>)
    requires Reached(s, sent, passed, 0) && sent < max
    ensures Reached(Exec(s, max, steps), sent, passed + 1, 0) && AtMostInFlight(s, max, steps, passed + 1)
  {
    var w := sent + passed;
    steps := [Begin(w), Go(w, NoFault)];
    var s1 := Next(s, max, Begin(w));
    var s2 := Next(s1, max, Go(w, NoFault));
    assert s1 == s.(calls := s.calls[w := Read]);
    assert s2 == s1.(calls := s1.calls[w := Insert]);
    FlightSize(s, s1, w, Read);
    FlightSize(s1, s2, w, Insert);
    ReachedSizes(s, sent, passed, 0);
    assert Reached(s2, sent, passed + 1, 0);
    TwoSteps(s, max, Begin(w), Go(w, NoFault), passed + 1);
  }

  lemma StoreOne(s: State, max: int, sent: nat, passed: nat, stored: nat) returns (steps: seq<Step>)
    requires Reached(s, sent, passed, stored) && stored < passed
    ensures Reached(Exec(s, max, steps), sent, passed, stored + 1) && AtMostInFlight(s, max, steps, passed)
  {
    steps := [Go(sent + stored, NoFault)];
    assert steps[..0] == [];
    assert Exec(s, max, steps) == Next(s, max, steps[0]);
    ReachedSizes(s, sent, passed, stored);
    assert Reached(Exec(s, max, steps), sent, passed, stored + 1);
    ReachedSizes(Exec(s, max, steps), sent, passed, stored + 1);
  }

  lemma SendOne(s: State, max: int, sent: nat) returns (steps: seq<Step>)
    requires Reached(s, sent, 0, 0) && sent < max
    ensures Reached(Exec(s, max, steps), sent + 1, 0, 0) && AtMostInFlight(s, max, steps, 1)
  {
    var a := PassOne(s, max, sent, 0);
    var s1 := Exec(s, max, a);
    var b := StoreOne(s1, max, sent, 1, 0);
    var s2 := Exec(s1, max, b);
    var c := [Go(sent, NoFault)];
    assert c[..0] == [];
    assert Exec(s2, max, c) == Next(s2, max, c[0]);
    ReachedSizes(s2, sent, 1, 1);
    assert Reached(Exec(s2, max, c), sent + 1, 0, 0);
    ReachedSizes(Exec(s2, max, c), sent + 1, 0, 0);
    FlightConcat(s, max, a, b, 1);
    ExecConcat(s, max, a, b);
    FlightConcat(s, max, a + b, c, 1);
    ExecConcat(s, max, a + b, c);
    steps := a + b + c;
  }

  lemma {:induction false} FlightMore(s: State, max: int, steps: seq<Step>, j: nat, k: nat)
    requires AtMostInFlight(s, max, steps, j) && j <= k
    ensures AtMostInFlight(s, max, steps, k)
    decreases |steps|
  {
    if steps != [] { FlightMore(s, max, steps[..|steps| - 1], j, k); }
  }

  /** Two stretches of a run, each with its own number in flight. */
  lemma Glue(s: State, max: int, a: seq<Step>, b: seq<Step>, i: nat, j: nat, k: nat)
    requires AtMostInFlight(s, max, a, i) && AtMostInFlight(Exec(s, max, a), max, b, j) && i <= k && j <= k
    ensures AtMostInFlight(s, max, a + b, k) && Exec(s, max, a + b) == Exec(Exec(s, max, a), max, b)
  {
    FlightMore(s, max, a, i, k);
    FlightMore(Exec(s, max, a), max, b, j, k);
    FlightConcat(s, max, a, b, k);
    ExecConcat(s, max, a, b);
  }

  /** A stretch that ends where one more step of the construction can start. */
  ghost predicate Builds(s: State, max: int, steps: seq<Step>, k: nat, sent: nat, passed: nat, stored: nat) {
    AtMostInFlight(s, max, steps, k) && Reached(Exec(s, max, steps), sent, passed, stored)
  }

  lemma BuildsNothing(s: State, max: int, k: nat, sent: nat, passed: nat, stored: nat)
    requires Reached(s, sent, passed, stored) && passed <= k
    ensures Builds(s, max, [], k, sent, passed, stored)
  {
    ReachedSizes(s, sent, passed, stored);
  }

  lemma {:induction false} SendMany(max: int, n: nat) returns (steps: seq<Step>)
    requires n <= max
    ensures Builds(EMPTY, max, steps, 1, n, 0, 0)
    decreases n
  {
    if n == 0 {
      steps := [];
      BuildsNothing(EMPTY, max, 1, 0, 0, 0);
    } else {
      var a := SendMany(max, n - 1);
      var b := SendOne(Exec(EMPTY, max, a), max, n - 1);
      Glue(EMPTY, max, a, b, 1, 1, 1);
      steps := a + b;
    }
  }

  lemma {:induction false} PassMany(s: State, max: int, sent: nat, k: nat) returns (steps: seq<Step>)
    requires Reached(s, sent, 0, 0) && sent < max
    ensures Builds(s, max, steps, k, sent, k, 0)
    decreases k
  {
    if k == 0 {
      steps := [];
      BuildsNothing(s, max, k, sent, 0, 0);
    } else {
      var a := PassMany(s, max, sent, k - 1);
      var b := PassOne(Exec(s, max, a), max, sent, k - 1);
      Glue(s, max, a, b, k - 1, k, k);
      steps := a + b;
    }
  }

  lemma {:induction false} StoreMany(s: State, max: int, sent: nat, k: nat, n: nat) returns (steps: seq<Step>)
    requires Reached(s, sent, k, 0) && n <= k
    ensures Builds(s, max, steps, k, sent, k, n)
    decreases n
  {
    if n == 0 {
      steps := [];
      BuildsNothing(s, max, k, sent, k, 0);
    } else {
      var a := StoreMany(s, max, sent, k, n - 1);
      var b := StoreOne(Exec(s, max, a), max, sent, k, n - 1);
      Glue(s, max, a, b, k, k, k);
      steps := a + b;
    }
  }

  /** For every limit and every k the bound is met with equality by a run without failures. */
  lemma QuotaIsTight(max: nat, k: nat) returns (steps: seq<Step>)
    requires max >= 1 && k >= 1
    ensures AtMostInFlight(EMPTY, max, steps, k)
    ensures var s := Exec(EMPTY, max, steps); |s.messages| == max + k - 1
  {
    var a := SendMany(max, max - 1);
    var s1 := Exec(EMPTY, max, a);
    var b := PassMany(s1, max, max - 1, k);
    var s2 := Exec(s1, max, b);
    var c := StoreMany(s2, max, max - 1, k, k);
    Glue(EMPTY, max, a, b, 1, k, k);
    Glue(EMPTY, max, a + b, c, k, k, k);
    steps := a + b + c;
    ReachedSizes(Exec(EMPTY, max, steps), max - 1, k, k);
  }

  // ---------- the code's own form ----------

  datatype Outcome = Ok | LimitExceeded | Error

  /** Call w of the machine, nobody else moving: its read of the counter, its insert and its count. */
  function Lone(w: nat, read: Fault, insert: Fault, count: Fault): seq<Step> {
    [Begin(w), Go(w, read), Go(w, insert), Go(w, count)]
  }

  lemma FourSteps(s: State, max: int, a: seq<Step>)
    requires |a| == 4
    ensures Exec(s, max, a) == Next(Next(Next(Next(s, max, a[0]), max, a[1]), max, a[2]), max, a[3])
  {
    assert a[..3][..2] == a[..2] && a[..2][..1] == a[..1] && a[..1][..0] == [];
    assert Exec(s, max, a[..1]) == Next(s, max, a[0]);
    assert Exec(s, max, a[..2]) == Next(Exec(s, max, a[..1]), max, a[1]);
    assert Exec(s, max, a[..3]) == Next(Exec(s, max, a[..2]), max, a[2]);
  }

  predicate Admitted(counter: int, max: int, read: Fault) { read == NoFault && counter < max }

  /** Where the call ends for every outcome of its three statements: its message is stored unless the
      insert did nothing, and counted if the insert worked and the count had its effect. */
  lemma LoneCallEnds(s: State, max: int, w: nat, read: Fault, insert: Fault, count: Fault)
    requires w !in s.calls
    ensures var u := Exec(s, max, Lone(w, read, insert, count));
            var admitted := Admitted(s.counter, max, read);
            && u.messages == (if admitted && insert != NoEffect then s.messages + {w} else s.messages)
            && u.counter == s.counter + (if admitted && insert == NoFault && count != NoEffect then 1 else 0)
            && (At(u, w, Refused) <==> read == NoFault && s.counter >= max)
            && (At(u, w, Sent) <==> admitted && insert == NoFault && count == NoFault)
            && (At(u, w, Failed) <==> read != NoFault || (admitted && (insert != NoFault || count != NoFault)))
  {
    FourSteps(s, max, Lone(w, read, insert, count));
  }

  /** What a call answers at the place where it ended. */
  predicate Answers(s: State, w: nat, r: Outcome) {
    match r
    case Ok => At(s, w, Sent)
    case LimitExceeded => At(s, w, Refused)
    case Error => At(s, w, Failed)
  }

  class MessageRepo {
    const maxMessages: int
    var messages: set<nat>
    var msgnum: nat

    constructor (maxMessages: int)
      ensures this.maxMessages == maxMessages && messages == {} && msgnum == 0
    {
      this.maxMessages := maxMessages;
      messages, msgnum := {}, 0;
    }

    /** InsertMessage of a new message, run alone. It answers Ok exactly when the counter was below the
        limit and all three statements worked, and ends as the machine's call does, with the same tables
        and the same answer. With the counter in step it is refused exactly when the channel is full; a
        failure between the two writes leaves the counter one behind. */
    method InsertMessage(id: nat, read: Fault, insert: Fault, count: Fault) returns (r: Outcome)
      requires id !in messages && msgnum <= |messages|
      modifies this
      ensures msgnum <= |messages|
      ensures r == LimitExceeded <==> read == NoFault && old(msgnum) >= maxMessages
      ensures r == Ok <==> read == insert == count == NoFault && old(msgnum) < maxMessages
      ensures r == Ok ==> messages == old(messages) + {id} && msgnum == old(msgnum) + 1
      ensures r == LimitExceeded ==> messages == old(messages) && msgnum == old(msgnum)
      ensures r == Error ==>
                || (messages == old(messages) && msgnum == old(msgnum) && (read != NoFault || insert == NoEffect))
                || (messages == old(messages) + {id} && msgnum == old(msgnum)
                    && (insert == LostReply || (insert == NoFault && count == NoEffect)))
                || (messages == old(messages) + {id} && msgnum == old(msgnum) + 1
                    && insert == NoFault && count == LostReply)
      ensures old(|messages|) == old(msgnum) && r != Error ==>
                (r == Ok <==> old(|messages|) < maxMessages) && |messages| == msgnum
                    && (|messages| <= maxMessages || messages == old(messages))
      ensures forall s: State :: s.messages == old(messages) && s.counter == old(msgnum) && id !in s.calls ==>
                var u := Exec(s, maxMessages, Lone(id, read, insert, count));
                u.messages == messages && u.counter == msgnum && Answers(u, id, r)
    {
      forall s: State | s.messages == messages && s.counter == msgnum && id !in s.calls {
        LoneCallEnds(s, maxMessages, id, read, insert, count);
      }
      if read != NoFault { return Error; }
      if msgnum >= maxMessages { return LimitExceeded; }
      if insert != NoEffect { messages := messages + {id}; }
      if insert != NoFault { return Error; }
      if count != NoEffect { msgnum := msgnum + 1; }
      return if count == NoFault then Ok else Error;
    }
  }
}
