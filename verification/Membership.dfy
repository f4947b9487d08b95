/** The members of one channel: the channels table, and the Redis hash in front of it. An empty hash
    is a missing key. */
module Membership {

  type User = nat

  datatype State = State(rows: set<User>, cached: set<User>)

  /** `cacheOk` is false when the operation's cache command fails after its database write. */
  datatype Op =
    | Open                                  // CreateChannel: the placeholder row of user 0
    | Add(u: User, cacheOk: bool)           // AddUserToChannel, AddRoomMember, the owner in CreateRoom
    | Remove(u: User, cacheOk: bool)        // RemoveRoomMember
    | Delete(cacheOk: bool)                 // DeleteChannel
    | Check(u: User)                        // IsChannelUserExist
    | List                                  // GetChannelUserIDs
    | Lose                                  // Redis drops the key

  datatype Answer = Silent | Member(yes: bool) | Members(users: set<User>) | Error

  function Do(s: State, op: Op): (State, Answer) {
    match op
    case Open => (s.(rows := s.rows + {0}), Silent)
    case Add(u, ok) => (State(s.rows + {u}, if ok then s.cached + {u} else s.cached), if ok then Silent else Error)
    case Remove(u, ok) => (State(s.rows - {u}, if ok then s.cached - {u} else s.cached), if ok then Silent else Error)
    case Delete(ok) => (State({}, if ok then {} else s.cached), if ok then Silent else Error)
    case Check(u) => (s.(cached := if u in s.cached then s.cached else if s.rows == {} then {}
        else s.cached + s.rows), Member(u in s.cached || u in s.rows))
    case List =>
      if s.cached != {} then (s, Members(s.cached))
      else if s.rows == {} then (s, Error)
      else (s.(cached := s.rows), Members(s.rows))
    case Lose => (s.(cached := {}), Silent)
  }

  function Run(s: State, ops: seq<Op>): State
    decreases |ops|
  {
    if ops == [] then s else Do(Run(s, ops[..|ops| - 1]), ops[|ops| - 1]).0
  }

  const EMPTY := State({}, {})

  // ---------- who is a member ----------

  /** The operation writes the user's row. */
  predicate Joins(op: Op, u: User) { (op.Add? && op.u == u) || (op.Open? && u == 0) }

  /** The operation deletes the user's row. */
  predicate Leaves(op: Op, u: User) { (op.Remove? && op.u == u) || op.Delete? }

  /** Operation i wrote the row and none since deleted it. */
  ghost predicate StaysSince(ops: seq<Op>, u: User, i: nat) {
    i < |ops| && Joins(ops[i], u) && forall j :: i < j < |ops| ==> !Leaves(ops[j], u)
  }

  ghost predicate Joined(ops: seq<Op>, u: User) { exists i: nat :: StaysSince(ops, u, i) }

  lemma JoinedGrows(ops: seq<Op>, op: Op, u: User)
    ensures Joined(ops + [op], u) <==> Joins(op, u) || (Joined(ops, u) && !Leaves(op, u))
  {
    var more := ops + [op];
    if i: nat :| StaysSince(more, u, i) && i < |ops| {
      assert !Leaves(more[|ops|], u);
      assert forall j :: i < j < |ops| ==> !Leaves(ops[j], u) by {
        assert forall j :: 0 <= j < |ops| ==> more[j] == ops[j];
      }
      assert StaysSince(ops, u, i);
    }
    if Joins(op, u) { assert StaysSince(more, u, |ops|); }
    if i: nat :| StaysSince(ops, u, i) && !Leaves(op, u) { assert StaysSince(more, u, i); }
  }

  /** After any operations, whatever cache commands failed and keys were lost, the database holds exactly the
      users that joined and did not leave since. */
  lemma {:induction false} MembersExactly(ops: seq<Op>, u: User)
    ensures u in Run(EMPTY, ops).rows <==> Joined(ops, u)
    decreases |ops|
  {
    if ops != [] {
      var init, op := ops[..|ops| - 1], ops[|ops| - 1];
      MembersExactly(init, u);
      JoinedGrows(init, op, u);
      assert ops == init + [op];
    }
  }

  /** The operation takes rows away and its cache command fails. */
  predicate LeavesStale(op: Op) { (op.Remove? || op.Delete?) && !op.cacheOk }

  ghost predicate NeverStale(ops: seq<Op>) { forall i :: 0 <= i < |ops| ==> !LeavesStale(ops[i]) }

  lemma {:induction false} CacheIsInside(ops: seq<Op>)
    requires NeverStale(ops)
    ensures Run(EMPTY, ops).cached <= Run(EMPTY, ops).rows
    decreases |ops|
  {
    if ops != [] {
      CacheIsInside(ops[..|ops| - 1]);
      assert !LeavesStale(ops[|ops| - 1]);
    }
  }

  /** Whatever was added, removed, listed or lost before, a membership check answers what the database
      says, and an answer of no leaves the cache equal to it. */
  lemma ChecksAreExact(ops: seq<Op>, u: User)
    requires NeverStale(ops)
    ensures var s := Run(EMPTY, ops);
            && Do(s, Check(u)).1 == Member(u in s.rows)
            && (u !in s.rows ==> Do(s, Check(u)).0.cached == s.rows)
  {
    CacheIsInside(ops);
    var s := Run(EMPTY, ops);
    if u !in s.rows { assert s.cached + s.rows == s.rows; }
  }

  /** So without a failed removal a check says whether the user joined and did not leave since. */
  lemma ChecksTellWhoJoined(ops: seq<Op>, u: User)
    requires NeverStale(ops)
    ensures var a := Do(Run(EMPTY, ops), Check(u)).1; a.Member? && (a.yes <==> Joined(ops, u))
  {
    ChecksAreExact(ops, u);
    MembersExactly(ops, u);
  }

  ghost predicate Stale(s: State, u: User) { u in s.cached - s.rows }

  /** A removal of the user whose cache command failed. */
  predicate TakesOut(op: Op, u: User) { op == Remove(u, false) || op == Delete(false) }

  /** What puts a wrong cache entry right: the row comes back, the entry goes, or the key does. */
  predicate Clears(s: State, op: Op, u: User) {
    match op
    case Open => u == 0
    case Add(v, _) => v == u
    case Remove(v, ok) => v == u && ok
    case Delete(ok) => ok
    case Check(v) => v !in s.cached && s.rows == {}
    case List => false
    case Lose => true
  }

  lemma StaleStep(s: State, op: Op, u: User)
    ensures Stale(Do(s, op).0, u) <==> (TakesOut(op, u) && u in s.cached) || (Stale(s, u) && !Clears(s, op, u))
  {}

  /** The user was cached when operation i took it out of the tables only, and nothing cleared it since. */
  ghost predicate StaleSince(ops: seq<Op>, u: User, i: nat) {
    && i < |ops| && TakesOut(ops[i], u) && u in Run(EMPTY, ops[..i]).cached
    && forall j :: i < j < |ops| ==> !Clears(Run(EMPTY, ops[..j]), ops[j], u)
  }

  lemma StaleSinceGrows(ops: seq<Op>, op: Op, u: User, i: nat)
    requires i < |ops|
    ensures StaleSince(ops + [op], u, i) <==> StaleSince(ops, u, i) && !Clears(Run(EMPTY, ops), op, u)
  {
    var more := ops + [op];
    assert more[..|ops|] == ops && more[..i] == ops[..i];
    forall j | i < j < |ops| ensures more[..j] == ops[..j] && more[j] == ops[j] {}
    if StaleSince(more, u, i) {
      assert !Clears(Run(EMPTY, more[..|ops|]), more[|ops|], u);
      forall j | i < j < |ops| ensures !Clears(Run(EMPTY, ops[..j]), ops[j], u) {
        assert !Clears(Run(EMPTY, more[..j]), more[j], u);
      }
    }
  }

  /** After any operations, with any failures, a check is wrong exactly if a removal of that user once
      failed to reach the cache that held it, and nothing has cleared the entry since. */
  lemma {:induction false} CheckIsWrongExactlyWhen(ops: seq<Op>, u: User)
    ensures var s := Run(EMPTY, ops);
            Do(s, Check(u)).1 != Member(u in s.rows) <==> exists i: nat :: StaleSince(ops, u, i)
    ensures Stale(Run(EMPTY, ops), u) <==> exists i: nat :: StaleSince(ops, u, i)
    decreases |ops|
  {
    if ops != [] {
      var init, op, n := ops[..|ops| - 1], ops[|ops| - 1], |ops| - 1;
      assert ops == init + [op];
      CheckIsWrongExactlyWhen(init, u);
      StaleStep(Run(EMPTY, init), op, u);
      forall i: nat | i < n ensures StaleSince(ops, u, i)
          <==> StaleSince(init, u, i) && !Clears(Run(EMPTY, init), op, u) {
        StaleSinceGrows(init, op, u, i);
      }
      if TakesOut(op, u) && u in Run(EMPTY, init).cached { assert StaleSince(ops, u, n); }
      if i: nat :| StaleSince(init, u, i) && !Clears(Run(EMPTY, init), op, u) { assert StaleSince(ops, u, i); }
    }
  }

  // ---------- listing ----------

  ghost predicate NeverLost(ops: seq<Op>) {
    forall i :: 0 <= i < |ops| ==> !ops[i].Lose?
                                   && ((ops[i].Add? || ops[i].Remove? || ops[i].Delete?) ==> ops[i].cacheOk)
  }

  lemma {:induction false} CacheIsWhole(ops: seq<Op>)
    requires NeverLost(ops)
    ensures var s := Run(EMPTY, ops); s.cached <= s.rows <= s.cached + {0}
    decreases |ops|
  {
    if ops != [] {
      CacheIsWhole(ops[..|ops| - 1]);
      assert ops[|ops| - 1] in ops;
    }
  }

  /** Without key loss and failing cache commands a listing is the database's members, with or without
      the placeholder 0; it is an error exactly when the database has none. */
  lemma ListsAreWhole(ops: seq<Op>)
    requires NeverLost(ops)
    ensures var s := Run(EMPTY, ops);
            && (s.rows == {} <==> Do(s, List).1 == Error)
            && (s.rows != {} ==> Do(s, List).1 == Members(s.rows) || Do(s, List).1 == Members(s.rows - {0}))
  {
    CacheIsWhole(ops);
    var s := Run(EMPTY, ops);
    if s.cached != {} { assert s.cached == s.rows || s.cached == s.rows - {0}; }
  }

  /** So in such runs a listing holds exactly the users that joined and did not leave since, up to 0, and fails
      exactly when there is none. */
  lemma ListsTellWhoJoined(ops: seq<Op>, u: User)
    requires NeverLost(ops)
    ensures var a := Do(Run(EMPTY, ops), List).1;
            && (a == Error || a.Members?)
            && (u != 0 ==> (a.Members? && u in a.users <==> Joined(ops, u)))
            && (a.Members? && 0 in a.users ==> Joined(ops, 0))
            && (a == Error <==> forall v: User :: !Joined(ops, v))
  {
    ListsAreWhole(ops);
    MembersExactly(ops, u);
    MembersExactly(ops, 0);
    var rows := Run(EMPTY, ops).rows;
    forall v: User ensures v in rows <==> Joined(ops, v) { MembersExactly(ops, v); }
    assert rows == {} <==> forall v: User :: v !in rows;
  }

  /** Operations that neither bring one user into the cache nor take it out of the tables. */
  predicate Careless(op: Op, missing: User) {
    match op
    case Add(u, _) => u != missing
    case Remove(u, ok) => u != missing
    case List => true
    case Open => missing != 0
    case _ => false
  }

  /** A listing from an incomplete cache goes on missing a member: no add or removal of others and no
      listing brings it back... */
  lemma {:induction false} MissingStaysMissing(s: State, ops: seq<Op>, missing: User, kept: User)
    requires missing in s.rows - s.cached && kept in s.cached
    requires forall i :: 0 <= i < |ops| ==> Careless(ops[i], missing) && Careless(ops[i], kept)
    ensures var t := Run(s, ops);
            missing in t.rows - t.cached && kept in t.cached && Do(t, List).1 == Members(t.cached)
    decreases |ops|
  {
    if ops != [] {
      MissingStaysMissing(s, ops[..|ops| - 1], missing, kept);
      assert ops[|ops| - 1] in ops;
    }
  }

  /** ...until a check of any user the cache does not hold: after any operations without a failed
      removal such a check, whatever its answer, makes the next listing exactly the database's. */
  lemma ChecksRepair(ops: seq<Op>, u: User)
    requires NeverStale(ops) && u !in Run(EMPTY, ops).cached
    ensures var s := Run(EMPTY, ops + [Check(u)]);
            s.rows == Run(EMPTY, ops).rows && s.cached == s.rows && (s.rows != {} ==> Do(s, List).1 == Members(s.rows))
  {
    CacheIsInside(ops);
    assert (ops + [Check(u)])[..|ops|] == ops;
    var s := Run(EMPTY, ops);
    assert s.cached + s.rows == s.rows;
  }

  /** The loss happens: u is a member, the key is dropped, v joins, and u is no longer listed. */
  lemma LossHidesMembers(u: User, v: User) returns (ops: seq<Op>)
    requires u != v
    ensures NeverStale(ops)
    ensures var s := Run(EMPTY, ops); s.rows == {u, v} && Do(s, List).1 == Members({v})
  {
    ops := [Add(u, true), Lose, Add(v, true)];
    assert ops[..2] == [Add(u, true), Lose] && ops[..2][..1] == [Add(u, true)] && ops[..1][..0] == [];
    assert Run(EMPTY, ops[..1]) == State({u}, {u});
    assert Run(EMPTY, ops[..2]) == State({u}, {});
    assert {} + {v} == {v} && {u} + {v} == {u, v};
    assert Run(EMPTY, ops) == State({u, v}, {v});
  }

  // ---------- the code's own form ----------

  class MembershipCache {
    var rows: set<User>
    var cached: set<User>

    function Value(): State
      reads this
    {
      State(rows, cached)
    }

    constructor ()
      ensures Value() == EMPTY
    {
      rows, cached := {}, {};
    }

    method AddUserToChannel(u: User, cacheOk: bool) returns (ok: bool)
      modifies this
      ensures Value() == Do(old(Value()), Add(u, cacheOk)).0
      ensures ok == cacheOk && (ok <==> Do(old(Value()), Add(u, cacheOk)).1 == Silent)
    {
      rows := rows + {u};
      if cacheOk { cached := cached + {u}; }
      ok := cacheOk;
    }

    method RemoveRoomMember(u: User, cacheOk: bool) returns (ok: bool)
      modifies this
      ensures Value() == Do(old(Value()), Remove(u, cacheOk)).0
      ensures ok == cacheOk && (ok <==> Do(old(Value()), Remove(u, cacheOk)).1 == Silent)
    {
      rows := rows - {u};
      if cacheOk { cached := cached - {u}; }
      ok := cacheOk;
    }

    /** SELECT user_id FROM channels: each member once. */
    method SelectUserIDs() returns (ids: seq<User>)
      ensures forall u :: u in ids <==> u in rows
      ensures |ids| == |rows|
    {
      ids := [];
      var left := rows;
      while left != {}
        invariant left <= rows && |ids| + |left| == |rows|
        invariant forall u :: u in ids <==> u in rows - left
        decreases left
      {
        var u :| u in left;
        ids := ids + [u];
        left := left - {u};
      }
    }

    /** IsChannelUserExist: a cached yes is trusted, anything else is read from the database. */
    method IsChannelUserExist(u: User) returns (yes: bool)
      modifies this`cached
      ensures Value() == Do(old(Value()), Check(u)).0 && Do(old(Value()), Check(u)).1 == Member(yes)
    {
      var channelExists, userExists := cached != {}, u in cached;
      if channelExists && userExists { return true; }
      var ids := SelectUserIDs();
      var args: set<User> := {};
      yes := false;
      for i := 0 to |ids|
        invariant yes <==> u in ids[..i]
        invariant forall v :: v in args <==> v in ids[..i]
      {
        if u == ids[i] { yes := true; }
        args := args + {ids[i]};
      }
      assert ids[..|ids|] == ids;
      assert args == rows;
      if args != {} {
        cached := cached + args;
      } else if channelExists {
        cached := {};
      }
    }

    /** GetChannelUserIDs: a nonempty hash is trusted; filling it with no arguments is an error. */
    method GetChannelUserIDs() returns (users: set<User>, ok: bool)
      modifies this`cached
      ensures Value() == Do(old(Value()), List).0
      ensures Do(old(Value()), List).1 == if ok then Members(users) else Error
    {
      if cached != {} { return cached, true; }
      var ids := SelectUserIDs();
      users := {};
      for i := 0 to |ids|
        invariant forall v :: v in users <==> v in ids[..i]
      {
        users := users + {ids[i]};
      }
      assert ids[..|ids|] == ids;
      assert users == rows;
      if users == {} { return users, false; }
      cached := cached + users;
      assert cached == rows;
      return users, true;
    }
  }
}
