/** Account creation in its own form: the repository's CreateUser and the service's Signup, one call
    at a time on mutable keys. */
module IdentityStore {
  import opened Basics
  import opened Names
  import opened Identity

  function With(claims: map<Key, Id>, wanted: bool, k: Key, id: Id): map<Key, Id> {
    if wanted then claims[k := id] else claims
  }

  /** The tables with the account's keys claimed. */
  function Claimed(t: Tables, id: Id, a: Account): Tables {
    t.(claims := With(With(t.claims, a.username != "", UsernameKey(a.username), id), a.handle != "",
        KeyOfHandle(a.handle), id))
  }

  predicate NameFree(t: Tables, a: Account) { a.username == "" || UsernameKey(a.username) !in t.claims }
  predicate HandleFree(t: Tables, a: Account) { a.handle == "" || KeyOfHandle(a.handle) !in t.claims }

  /** The id was drawn for this call. */
  ghost predicate Unknown(t: Tables, id: Id) { id !in t.users && forall k :: k in t.claims ==> t.claims[k] != id }

  /** The handle Signup tries at one attempt. */
  function HandleAt(username: string, id: Id, attempt: nat): string
    requires attempt < ATTEMPTS
  {
    SuffixLength(id, attempt);
    Generated(username, id, attempt)
  }

  predicate TakenAt(claims: map<Key, Id>, username: string, id: Id, attempt: nat)
    requires attempt < ATTEMPTS
  {
    HandleKey(HandleAt(username, id, attempt)) in claims
  }

  /** The tables with the account of a signup added under the handle of this attempt. */
  function SignedUp(t: Tables, username: string, id: Id, attempt: nat): Tables
    requires attempt < ATTEMPTS
  {
    var handle := HandleAt(username, id, attempt);
    Tables(t.claims[NameKey(username) := id][HandleKey(handle) := id], t.users[id := Account(username, handle)])
  }

  /** Deleting both claims again leaves the keys as they were. */
  lemma RollBackRestores(claims: map<Key, Id>, id: Id, a: Account)
    requires a.username != "" ==> UsernameKey(a.username) !in claims
    requires a.handle != "" ==> KeyOfHandle(a.handle) !in claims
    ensures var both := With(With(claims, a.username != "", UsernameKey(a.username), id), a.handle != "",
                             KeyOfHandle(a.handle), id);
            var one := if a.username != "" then both - {UsernameKey(a.username)} else both;
            (if a.handle != "" then one - {KeyOfHandle(a.handle)} else one) == claims
  {}

  class UserRepo {
    var claims: map<Key, Id>
    var users: map<Id, Account>

    function Rows(): Tables
      reads this
    {
      Tables(claims, users)
    }

    constructor ()
      ensures Rows() == START.tables
    {
      claims, users := map[], map[];
    }

    /** claimUnique: SETNX, and a second look at a key that exists. */
    method ClaimUnique(k: Key, id: Id) returns (claimed: bool, taken: bool)
      modifies this`claims
      ensures claimed == (k !in old(claims)) && taken == (k in old(claims) && old(claims)[k] != id)
      ensures claims == if claimed then old(claims)[k := id] else old(claims)
    {
      claimed := k !in claims;
      if claimed { claims := claims[k := id]; return claimed, false; }
      taken := claims[k] != id;
    }

    /** CreateUser for a newly drawn id; `save` is what happens to the record write. It succeeds
        exactly when both names are free and the write works; else no claim of the id remains. */
    method CreateUser(id: Id, a: Account, save: Fault) returns (r: Result)
      requires Unknown(Rows(), id)
      modifies this
      ensures r == NameTaken <==> !NameFree(old(Rows()), a)
      ensures r == HandleTaken <==> NameFree(old(Rows()), a) && !HandleFree(old(Rows()), a)
      ensures r == Created <==> NameFree(old(Rows()), a) && HandleFree(old(Rows()), a) && save == NoFault
      ensures r == Created ==> Rows() == Claimed(old(Rows()), id, a).(users := old(users)[id := a])
      ensures r != Created ==> claims == old(claims)
      ensures r == NameTaken || r == HandleTaken ==> users == old(users)
      ensures r == Errored ==> users == if save == LostReply then old(users)[id := a] else old(users)
      ensures r != Unpublished
      ensures save == NoFault ==> (Rows(), r) == CreateOutcome(old(Rows()), id, a)
    {
      var claimedUsername, taken := false, false;
      if a.username != "" {
        claimedUsername, taken := ClaimUnique(UsernameKey(a.username), id);
        if taken { return NameTaken; }
      }
      if a.handle != "" {
        var claimed;
        claimed, taken := ClaimUnique(KeyOfHandle(a.handle), id);
        if taken {
          if claimedUsername { claims := claims - {UsernameKey(a.username)}; }
          assert claims == old(claims);
          return HandleTaken;
        }
        if claimed { claimedUsername := true; }
      }
      if save != NoEffect { users := users[id := a]; }
      if save != NoFault {
        if claimedUsername && a.username != "" { claims := claims - {UsernameKey(a.username)}; }
        if a.handle != "" { claims := claims - {KeyOfHandle(a.handle)}; }
        RollBackRestores(old(claims), id, a);
        return Errored;
      }
      return Created;
    }

    /** One round of Signup's loop. */
    method TryHandle(username: string, id: Id, attempt: nat) returns (r: Result)
      requires WellFormed(username) && Unknown(Rows(), id) && attempt < ATTEMPTS
      modifies this
      ensures r == NameTaken <==> NameKey(username) in old(claims)
      ensures r == HandleTaken <==> NameKey(username) !in old(claims) && TakenAt(old(claims), username, id, attempt)
      ensures r == Created || r == NameTaken || r == HandleTaken
      ensures r != Created ==> Rows() == old(Rows())
      ensures r == Created ==> Rows() == SignedUp(old(Rows()), username, id, attempt)
    {
      GeneratedHandlesAreValid(username, id, attempt);
      WellFormedIsItsOwnKey(username);
      r := CreateUser(id, Account(username, HandleAt(username, id, attempt)), NoFault);
    }

    /** Signup's loop for a valid username: it succeeds exactly when the username is free and one of
        the 100 handles is, takes the first free one, and otherwise leaves every key as it was. */
    method Signup(username: string, id: Id) returns (r: Result, attempt: nat)
      requires WellFormed(username) && Unknown(Rows(), id)
      modifies this
      ensures r == NameTaken <==> NameKey(username) in old(claims)
      ensures r == HandleTaken <==> NameKey(username) !in old(claims) &&
                                    forall i :: 0 <= i < 100 ==> TakenAt(old(claims), username, id, i)
      ensures r == Created || r == NameTaken || r == HandleTaken
      ensures r != Created ==> Rows() == old(Rows())
      ensures r == Created ==>
                && attempt < ATTEMPTS && !TakenAt(old(claims), username, id, attempt)
                && (forall i :: 0 <= i < attempt ==> TakenAt(old(claims), username, id, i))
                && Rows() == SignedUp(old(Rows()), username, id, attempt)
    {
      attempt := 0;
      while attempt < ATTEMPTS
        invariant 0 <= attempt <= ATTEMPTS
        invariant Rows() == old(Rows())
        invariant forall i :: 0 <= i < attempt ==> TakenAt(old(claims), username, id, i)
        invariant attempt > 0 ==> NameKey(username) !in old(claims)
      {
        r := TryHandle(username, id, attempt);
        if r != HandleTaken { return; }
        attempt := attempt + 1;
      }
      r := HandleTaken;
    }
  }

  // ---------- the call is a run of the concurrent machine ----------

  /** The call of one id left alone for n commands, none of which fails. */
  function Solo(t: Tables, h: History, id: Id, pc: Pc, n: nat): (Tables, History, Pc)
    decreases n
  {
    if n == 0 then (t, h, pc)
    else var b := Advance(t, h, id, pc, NoFault); Solo(b.0, b.1, id, b.2, n - 1)
  }

  lemma SoloUnfolds(t: Tables, h: History, id: Id, pc: Pc, b: (Tables, History, Pc), n: nat)
    requires n > 0 && b == Advance(t, h, id, pc, NoFault)
    ensures Solo(t, h, id, pc, n) == Solo(b.0, b.1, id, b.2, n - 1)
  {}

  lemma {:induction false} SoloSplits(t: Tables, h: History, id: Id, pc: Pc, m: nat, n: nat, c: (Tables, History, Pc))
    requires c == Solo(t, h, id, pc, m)
    ensures Solo(t, h, id, pc, m + n) == Solo(c.0, c.1, id, c.2, n)
    decreases m
  {
    if m > 0 {
      var b := Advance(t, h, id, pc, NoFault);
      SoloUnfolds(t, h, id, pc, b, m);
      SoloUnfolds(t, h, id, pc, b, m + n);
      SoloSplits(b.0, b.1, id, b.2, m - 1, n, c);
    }
  }

  lemma SoloThree(t: Tables, h: History, id: Id, pc: Pc)
    ensures var b := Advance(t, h, id, pc, NoFault);
            var c := Advance(b.0, b.1, id, b.2, NoFault);
            Solo(t, h, id, pc, 3) == Advance(c.0, c.1, id, c.2, NoFault)
  {
    var b := Advance(t, h, id, pc, NoFault);
    var c := Advance(b.0, b.1, id, b.2, NoFault);
    SoloSplits(t, h, id, pc, 0, 1, (t, h, pc));
    assert Solo(c.0, c.1, id, c.2, 1) == Advance(c.0, c.1, id, c.2, NoFault);
    assert Solo(b.0, b.1, id, b.2, 2) == Solo(c.0, c.1, id, c.2, 1);
  }

  /** What CreateUser answers and leaves when every command works. */
  function CreateOutcome(t: Tables, id: Id, a: Account): (Tables, Result) {
    if !NameFree(t, a) then (t, NameTaken)
    else if !HandleFree(t, a) then (t, HandleTaken)
    else (Claimed(t, id, a).(users := t.users[id := a]), Created)
  }

  ghost predicate NothingLeft(h: History, id: Id) { forall k :: (id, k) !in h.left }

  /** A taken handle: the claim is refused, and a username claimed before is given up. */
  lemma SoloHandleTaken(t0: Tables, t: Tables, h: History, id: Id, a: Account)
    requires Unknown(t0, id) && NameFree(t0, a) && !HandleFree(t0, a) && NothingLeft(h, id)
    requires t == t0.(claims := With(t0.claims, a.username != "", UsernameKey(a.username), id))
    ensures Solo(t, h, id, ClaimHandle(a, a.username != ""), 3) == (t0, h, Ended(a, HandleTaken))
  {
    SoloThree(t, h, id, ClaimHandle(a, a.username != ""));
    assert !Holds(t, KeyOfHandle(a.handle), id);
    if a.username != "" { assert t.claims - {UsernameKey(a.username)} == t0.claims; }
    assert h.left - {(id, UsernameKey(a.username))} == h.left;
  }

  /** A free or absent handle: the record is stored. */
  lemma SoloHandleFree(t: Tables, h: History, id: Id, a: Account)
    requires HandleFree(t, a)
    ensures Solo(t, h, id, NeedsHandle(a, a.username != ""), 3)
              == (Tables(With(t.claims, a.handle != "", KeyOfHandle(a.handle), id), t.users[id := a]), h,
                  Ended(a, Created))
  {
    SoloThree(t, h, id, NeedsHandle(a, a.username != ""));
  }

  /** From the handle claim on: three commands at most. */
  lemma SoloFromHandle(t0: Tables, t: Tables, h: History, id: Id, a: Account)
    requires Unknown(t0, id) && NameFree(t0, a) && NothingLeft(h, id)
    requires t == t0.(claims := With(t0.claims, a.username != "", UsernameKey(a.username), id))
    ensures var b := Solo(t, h, id, NeedsHandle(a, a.username != ""), 3);
            b.2.Ended? && (b.0, b.2.result) == CreateOutcome(t0, id, a) && b.1 == h
  {
    if HandleFree(t0, a) { SoloHandleFree(t, h, id, a); } else { SoloHandleTaken(t0, t, h, id, a); }
  }

  /** An undisturbed CreateUser of the sequential form is the call's own run in the concurrent
      machine: from a newly drawn id it ends with the same answer and the same keys. That ids hold what
      they left behind is part of the machine's invariant. */
  lemma CreateIsASoloRun(t: Tables, h: History, id: Id, a: Account) returns (n: nat)
    requires Unknown(t, id) && forall x :: x in h.left ==> Holds(t, x.1, x.0)
    ensures var b := Solo(t, h, id, First(a), n);
            b.2.Ended? && (b.0, b.2.result) == CreateOutcome(t, id, a) && b.1 == h
  {
    forall k ensures (id, k) !in h.left { assert (id, k) in h.left ==> Holds(t, (id, k).1, (id, k).0); }
    if a.username == "" {
      SoloFromHandle(t, t, h, id, a);
      n := 3;
    } else if NameFree(t, a) {
      n := 4;
      SoloFromHandle(t, t.(claims := t.claims[UsernameKey(a.username) := id]), h, id, a);
    } else {
      n := 2;
      SoloSplits(t, h, id, First(a), 1, 1, Solo(t, h, id, First(a), 1));
    }
  }
}
