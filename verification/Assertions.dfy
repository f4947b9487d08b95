/** Signed end-user assertions: the time check and the bounded memory of used nonces. Times are
    nanoseconds, as time.Now() gives them; iat and exp are whole seconds. */
module Assertions {

  const SECOND: int := 1_000_000_000

  /** `genuine` stands for the signature, scope, digest and identity checks. */
  datatype Assertion = Assertion(nonce: string, iat: int, exp: int, genuine: bool)

  function Unix(time: nat): int { time / SECOND }

  /** The three time limits, at a second of the verifier's clock. */
  predicate InTime(a: Assertion, now: int) { a.iat <= now + 30 && now < a.exp && a.exp - a.iat <= 120 }

  predicate Admissible(a: Assertion, now: int) { a.genuine && InTime(a, now) && a.nonce != "" }

  /** What the signer produces at a second of its own clock. */
  function Signed(nonce: string, now: int): Assertion { Assertion(nonce, now, now + 120, true) }

  type Memory = map<string, int>

  /** expiry.Before(time.Now()) */
  predicate Lapsed(exp: int, time: nat) { exp * SECOND < time }

  function Prune(memory: Memory, time: nat): Memory { map n | n in memory && !Lapsed(memory[n], time) :: memory[n] }

  /** One verification: its checks read the clock at `checked`, it holds the lock at `locked`. */
  datatype Event = Event(a: Assertion, checked: nat, locked: nat)

  function Accepts(memory: Memory, e: Event): bool {
    Admissible(e.a, Unix(e.checked)) && e.a.nonce !in Prune(memory, e.locked)
  }

  function Remembered(memory: Memory, e: Event): Memory {
    if !Admissible(e.a, Unix(e.checked)) then memory
    else if Accepts(memory, e) then Prune(memory, e.locked)[e.a.nonce := e.a.exp]
    else Prune(memory, e.locked)
  }

  function After(events: seq<Event>): Memory {
    if events == [] then map[] else Remembered(After(events[..|events| - 1]), events[|events| - 1])
  }

  predicate Accepted(events: seq<Event>, i: nat)
    requires i < |events|
  {
    Accepts(After(events[..i]), events[i])
  }

  /** The lock is taken in time order, by each verification after its checks. */
  ghost predicate Ordered(events: seq<Event>) {
    && (forall i, j :: 0 <= i < j < |events| ==> events[i].locked <= events[j].locked)
    && (forall i :: 0 <= i < |events| ==> events[i].checked <= events[i].locked)
  }

  predicate SameDraw(a: Assertion, b: Assertion) { a.genuine && b.genuine && a.nonce == b.nonce ==> a.exp == b.exp }

  /** The signer draws each nonce for one assertion; forged events may copy any nonce they like. */
  ghost predicate FreshNonces(events: seq<Event>) {
    forall i, j :: 0 <= i < |events| && 0 <= j < |events| ==> SameDraw(events[i].a, events[j].a)
  }

  /** Reads its checks and takes the lock in the same instant. */
  ghost predicate Atomic(events: seq<Event>) { forall i :: 0 <= i < |events| ==> events[i].checked == events[i].locked }

  /** Some verification before the n-th accepted this nonce. */
  ghost predicate UsedBefore(events: seq<Event>, n: nat, nonce: string)
    requires n <= |events|
  {
    exists i :: 0 <= i < n && events[i].a.nonce == nonce && Accepted(events, i)
  }

  // ---------- what is remembered ----------

  lemma AfterNext(events: seq<Event>, n: nat)
    requires n < |events|
    ensures After(events[..n + 1]) == Remembered(After(events[..n]), events[n])
  {
    assert events[..n + 1][..n] == events[..n];
  }

  lemma PruneKeeps(memory: Memory, time: nat, n: string)
    ensures n in Prune(memory, time) <==> n in memory && !Lapsed(memory[n], time)
    ensures n in Prune(memory, time) ==> Prune(memory, time)[n] == memory[n]
  {}

  /** A remembered nonce belongs to an accepted assertion with that expiry. */
  ghost predicate Explains(events: seq<Event>, n: nat, i: nat, nonce: string, exp: int)
    requires n <= |events|
  {
    i < n && Accepted(events, i) && events[i].a.nonce == nonce && events[i].a.exp == exp
  }

  lemma {:induction false} MemoryIsExplained(events: seq<Event>, n: nat, nonce: string)
    requires n <= |events| && nonce in After(events[..n])
    ensures exists i: nat :: Explains(events, n, i, nonce, After(events[..n])[nonce])
    decreases n
  {
    if n > 0 {
      AfterNext(events, n - 1);
      var before, e := After(events[..n - 1]), events[n - 1];
      PruneKeeps(before, e.locked, nonce);
      if Accepts(before, e) && e.a.nonce == nonce {
        assert Explains(events, n, n - 1, nonce, After(events[..n])[nonce]);
      } else {
        MemoryIsExplained(events, n - 1, nonce);
        var i: nat :| Explains(events, n - 1, i, nonce, before[nonce]);
        assert Explains(events, n, i, nonce, After(events[..n])[nonce]);
      }
    }
  }

  /** An accepted assertion stays remembered for as long as no lock was taken after its expiry. */
  lemma {:induction false} RememberedUntilExpiry(events: seq<Event>, i: nat, n: nat)
    requires Ordered(events) && i < n <= |events| && Accepted(events, i)
    requires !Lapsed(events[i].a.exp, events[n - 1].locked)
    ensures events[i].a.nonce in After(events[..n]) && After(events[..n])[events[i].a.nonce] == events[i].a.exp
    decreases n
  {
    AfterNext(events, n - 1);
    if n - 1 > i {
      assert events[n - 2].locked <= events[n - 1].locked;
      RememberedUntilExpiry(events, i, n - 1);
      PruneKeeps(After(events[..n - 1]), events[n - 1].locked, events[i].a.nonce);
    }
  }

  // ---------- decisions ----------

  lemma UnixBounds(time: nat)
    ensures Unix(time) * SECOND <= time < (Unix(time) + 1) * SECOND
  {}

  /** A verification at one instant never meets its own assertion already lapsed. */
  lemma NotLapsedAtCheck(a: Assertion, time: nat)
    requires Admissible(a, Unix(time))
    ensures !Lapsed(a.exp, time)
  {
    UnixBounds(time);
  }

  /** The decision in any run in which the signer's nonces are fresh, whatever is forged beside them:
      admissible, and its nonce is new or it got the lock after its expiry. */
  lemma AcceptedExactlyWhen(events: seq<Event>, n: nat)
    requires Ordered(events) && FreshNonces(events) && n < |events|
    ensures var e := events[n];
            var a, second := e.a, e.checked / 1_000_000_000;
            Accepted(events, n) <==>
              && a.genuine && a.nonce != ""
              && a.iat <= second + 30 && second < a.exp && a.exp - a.iat <= 120
              && (a.exp * 1_000_000_000 < e.locked || !UsedBefore(events, n, a.nonce))
  {
    var e, memory := events[n], After(events[..n]);
    PruneKeeps(memory, e.locked, e.a.nonce);
    if e.a.nonce in memory {
      MemoryIsExplained(events, n, e.a.nonce);
      var i: nat :| Explains(events, n, i, e.a.nonce, memory[e.a.nonce]);
      assert SameDraw(events[i].a, e.a);
    }
    if e.a.genuine && UsedBefore(events, n, e.a.nonce) && !Lapsed(e.a.exp, e.locked) {
      var i :| 0 <= i < n && events[i].a.nonce == e.a.nonce && Accepted(events, i);
      assert SameDraw(events[i].a, e.a);
      assert events[n - 1].locked <= events[n].locked;
      RememberedUntilExpiry(events, i, n);
    }
  }

  /** Verifications that are atomic decide exactly as with a memory that forgets nothing. */
  lemma PruningIsInvisible(events: seq<Event>, n: nat)
    requires Ordered(events) && FreshNonces(events) && Atomic(events) && n < |events|
    ensures var a, second := events[n].a, events[n].checked / 1_000_000_000;
            Accepted(events, n) <==>
              && a.genuine && a.nonce != ""
              && a.iat <= second + 30 && second < a.exp && a.exp - a.iat <= 120
              && !UsedBefore(events, n, a.nonce)
  {
    AcceptedExactlyWhen(events, n);
    if Admissible(events[n].a, Unix(events[n].checked)) { NotLapsedAtCheck(events[n].a, events[n].checked); }
  }

  /** No assertion is accepted a second time unless that verification got the lock after the expiry,
      whether or not nonces are drawn fresh; in atomic runs never. */
  lemma NoReplay(events: seq<Event>, i: nat, n: nat)
    requires Ordered(events) && i < n < |events| && events[i].a == events[n].a && Accepted(events, i)
    ensures Accepted(events, n) ==>
              events[n].a.exp * 1_000_000_000 < events[n].locked && events[n].checked < events[n].locked
  {
    var a := events[n].a;
    assert events[n - 1].locked <= events[n].locked;
    PruneKeeps(After(events[..n]), events[n].locked, a.nonce);
    if !Lapsed(a.exp, events[n].locked) { RememberedUntilExpiry(events, i, n); }
    if Accepted(events, n) {
      if events[n].checked == events[n].locked { NotLapsedAtCheck(a, events[n].checked); }
    }
  }

  /** And such a late lock does let it through: for every assertion there is a run in which two
      verifications, both checked in time, both accept it. */
  lemma LateLockReplays(a: Assertion, now: nat) returns (events: seq<Event>)
    requires Admissible(a, now)
    ensures Ordered(events) && FreshNonces(events) && |events| == 2 && events[0].a == events[1].a == a
    ensures Accepted(events, 0) && Accepted(events, 1)
  {
    var first, second := Event(a, now * SECOND, now * SECOND), Event(a, now * SECOND, a.exp * SECOND + 1);
    events := [first, second];
    UnixBounds(now * SECOND);
    assert Unix(now * SECOND) == now;
    AcceptedExactlyWhen(events, 0);
    AcceptedExactlyWhen(events, 1);
  }

  // ---------- the memory is bounded in time ----------

  /** Right after a verification that took the lock, everything remembered was accepted by one whose
      checks ran within the last 150 seconds, and expires at most 150 seconds after those checks. */
  lemma MemoryIsRecent(events: seq<Event>, n: nat, nonce: string)
    requires Ordered(events) && n < |events| && Admissible(events[n].a, Unix(events[n].checked))
    requires nonce in After(events[..n + 1])
    ensures exists i: nat :: Explains(events, n + 1, i, nonce, After(events[..n + 1])[nonce])
              && After(events[..n + 1])[nonce] <= events[i].checked / 1_000_000_000 + 150
              && (Atomic(events) ==> events[n].locked - events[i].checked <= 150_000_000_000)
  {
    MemoryIsExplained(events, n + 1, nonce);
    var i: nat :| Explains(events, n + 1, i, nonce, After(events[..n + 1])[nonce]);
    AfterNext(events, n);
    PruneKeeps(After(events[..n]), events[n].locked, nonce);
    UnixBounds(events[i].checked);
    var exp := After(events[..n + 1])[nonce];
    assert exp <= Unix(events[i].checked) + 150;
    if Atomic(events) {
      if i == n { assert events[n].locked == events[i].checked; } else { assert !Lapsed(exp, events[n].locked); }
    }
  }

  /** In an atomic run a signed assertion is accepted exactly when the verifier's clock is at most 30
      seconds behind and less than 120 seconds ahead of the signer's, and only the first time. */
  lemma SignedAcceptedExactlyWhen(events: seq<Event>, n: nat, nonce: string, signer: int)
    requires Ordered(events) && FreshNonces(events) && Atomic(events) && n < |events|
    requires nonce != "" && events[n].a == Signed(nonce, signer)
    ensures Accepted(events, n) <==>
              -30 <= events[n].checked / 1_000_000_000 - signer < 120 && !UsedBefore(events, n, nonce)
  {
    PruningIsInvisible(events, n);
  }

  // ---------- the code's own form ----------

  class Verifier {
    var values: Memory

    constructor ()
      ensures values == map[]
    {
      values := map[];
    }

    /** verifyAssertion: the loop deletes lapsed nonces from the shared map before the replay check. */
    method Verify(e: Event) returns (ok: bool)
      modifies this
      ensures ok == Accepts(old(values), e) && values == Remembered(old(values), e)
    {
      var a, now := e.a, Unix(e.checked);
      if !a.genuine { return false; }
      if a.iat > now + 30 || a.exp <= now || a.exp - a.iat > 120 { return false; }
      if a.nonce == "" { return false; }
      var left := values.Keys;
      while left != {}
        invariant left <= values.Keys
        invariant forall n :: n in values ==> n in old(values) && values[n] == old(values)[n]
        invariant forall n :: n in old(values) ==> (n in values <==> n in left || !Lapsed(old(values)[n], e.locked))
        decreases left
      {
        var n :| n in left;
        left := left - {n};
        if Lapsed(values[n], e.locked) { values := values - {n}; }
      }
      assert values == Prune(old(values), e.locked);
      if a.nonce in values { return false; }
      values := values[a.nonce := a.exp];
      return true;
    }
  }
}
