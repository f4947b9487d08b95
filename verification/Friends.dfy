/** Friend requests and friendships: Cassandra rows guarded by conditional updates, with a Redis
    mirror that the chat service reads. One call at a time. */
module Friends {

  type User = nat

  datatype Status = Pending | Accepted | Declined

  /** Requests are keyed (recipient, sender); an edge (u, f) says that f is in u's friend list.
      The mirror fields are the Redis hashes; `declinedKeys` holds (from, to). */
  datatype Tables = Tables(
    requests: map<(User, User), Status>,
    edges: set<(User, User)>,
    mirrorTo: set<(User, User)>,       // (recipient, sender)
    mirrorFrom: set<(User, User)>,     // (sender, recipient)
    mirrorEdges: set<(User, User)>,
    declinedKeys: set<(User, User)>)

  const EMPTY := Tables(map[], {}, {}, {}, {}, {})

  datatype Outcome = Ok | Self | UserNotFound | SafetyUnavailable | Blocked | AlreadyFriends | RequestExists
      | RequestNotFound

  /** The safety service's answer; NotAsked when no endpoint is configured. */
  datatype Safety = NotAsked | Unavailable | Answer(blocked: bool)

  datatype Relationship = AreFriends | Outgoing | Incoming | WasDeclined | NoRelation

  // ---------- what each call reads ----------

  predicate StatusIs(t: Tables, recipient: User, sender: User, status: Status) {
    (recipient, sender) in t.requests && t.requests[(recipient, sender)] == status
  }

  /** IsFriend: the Cassandra edge, or the Redis one when that is missing. */
  predicate IsFriend(t: Tables, u: User, peer: User) { (u, peer) in t.edges || (u, peer) in t.mirrorEdges }

  /** The chat service's AreFriends reads only the Redis hash. */
  predicate ChatAreFriends(t: Tables, u: User, peer: User) { (u, peer) in t.mirrorEdges }

  /** Whether GetFriendRequests(u) lists a request from `sender`. */
  predicate Lists(t: Tables, u: User, sender: User) { StatusIs(t, u, sender, Pending) || (u, sender) in t.mirrorTo }

  predicate RequestDeclined(t: Tables, from: User, to: User) {
    if (to, from) in t.requests then t.requests[(to, from)] == Declined else (from, to) in t.declinedKeys
  }

  function RelationOf(t: Tables, u: User, peer: User): Relationship {
    if IsFriend(t, u, peer) then AreFriends
    else if Lists(t, peer, u) then Outgoing
    else if Lists(t, u, peer) then Incoming
    else if RequestDeclined(t, u, peer) then WasDeclined
    else NoRelation
  }

  // ---------- what each call does ----------

  function DropMirror(t: Tables, recipient: User, sender: User): Tables {
    t.(mirrorTo := t.mirrorTo - {(recipient, sender)}, mirrorFrom := t.mirrorFrom - {(sender, recipient)})
  }

  function Befriend(t: Tables, u: User, f: User): Tables {
    t.(edges := t.edges + {(u, f), (f, u)}, mirrorEdges := t.mirrorEdges + {(u, f), (f, u)})
  }

  function Create(t: Tables, from: User, to: User): (Tables, Outcome) {
    if (to, from) in t.requests && t.requests[(to, from)] != Declined then (t, RequestExists)
    else (t.(requests := t.requests[(to, from) := Pending],
             declinedKeys := t.declinedKeys - {(from, to)},
             mirrorFrom := t.mirrorFrom + {(from, to)},
             mirrorTo := t.mirrorTo + {(to, from)}), Ok)
  }

  function Send(t: Tables, users: set<User>, from: User, to: User, safety: Safety): (Tables, Outcome) {
    if from == 0 || from == to then (t, Self)
    else if from !in users || to !in users then (t, UserNotFound)
    else if safety == Unavailable then (t, SafetyUnavailable)
    else if safety == Answer(true) then (t, Blocked)
    else if IsFriend(t, from, to) then (t, AlreadyFriends)
    else if Lists(t, from, to) then (t, RequestExists)
    else Create(t, from, to)
  }

  function Accept(t: Tables, u: User, from: User): (Tables, Outcome) {
    if (u, from) in t.requests then
      if t.requests[(u, from)] == Declined then (t, RequestNotFound)
      else (Befriend(DropMirror(t.(requests := t.requests[(u, from) := Accepted]), u, from), u, from), Ok)
    else if (u, from) in t.mirrorTo then (Befriend(DropMirror(t, u, from), u, from), Ok)
    else (t, RequestNotFound)
  }

  function Decline(t: Tables, u: User, from: User): (Tables, Outcome) {
    if (u, from) in t.requests then
      if t.requests[(u, from)] == Accepted then (t, RequestNotFound)
      else (DropMirror(t.(requests := t.requests[(u, from) := Declined],
          declinedKeys := t.declinedKeys + {(from, u)}), u, from), Ok)
    else if (u, from) in t.mirrorTo then (DropMirror(t.(declinedKeys := t.declinedKeys + {(from, u)}), u, from), Ok)
    else (t, RequestNotFound)
  }

  function Cancel(t: Tables, u: User, to: User): (Tables, Outcome) {
    if (to, u) in t.requests then
      if t.requests[(to, u)] != Pending then (t, RequestNotFound)
      else (DropMirror(t.(requests := t.requests - {(to, u)}), to, u), Ok)
    else if (to, u) in t.mirrorTo then (DropMirror(t, to, u), Ok)
    else (t, RequestNotFound)
  }

  function Unfriend(t: Tables, u: User, f: User): Tables {
    t.(edges := t.edges - {(u, f), (f, u)}, mirrorEdges := t.mirrorEdges - {(u, f), (f, u)})
  }

  datatype Call =
    | SendCall(from: User, to: User, safety: Safety)
    | AcceptCall(u: User, from: User)
    | DeclineCall(u: User, from: User)
    | CancelCall(u: User, to: User)
    | UnfriendCall(u: User, f: User)

  function After(t: Tables, users: set<User>, call: Call): Tables {
    match call
    case SendCall(from, to, safety) => Send(t, users, from, to, safety).0
    case AcceptCall(u, from) => Accept(t, u, from).0
    case DeclineCall(u, from) => Decline(t, u, from).0
    case CancelCall(u, to) => Cancel(t, u, to).0
    case UnfriendCall(u, f) => Unfriend(t, u, f)
  }

  function Run(t: Tables, users: set<User>, calls: seq<Call>): Tables
    decreases |calls|
  {
    if calls == [] then t else After(Run(t, users, calls[..|calls| - 1]), users, calls[|calls| - 1])
  }

  // ---------- what every sequential run keeps ----------

  /** Friendship is symmetric and identical in both stores, both request mirrors hold exactly the
      pending rows, the declined keys exactly the declined rows, and no two users have requests
      pending both ways. */
  ghost predicate Consistent(t: Tables) {
    && t.edges == t.mirrorEdges
    && (forall u: User, f: User :: (u, f) in t.edges ==> (f, u) in t.edges)
    && (forall r: User, s: User :: (r, s) in t.mirrorTo <==> StatusIs(t, r, s, Pending))
    && (forall r: User, s: User :: (s, r) in t.mirrorFrom <==> StatusIs(t, r, s, Pending))
    && (forall r: User, s: User :: (s, r) in t.declinedKeys <==> StatusIs(t, r, s, Declined))
    && (forall r: User, s: User :: StatusIs(t, r, s, Pending) ==> !StatusIs(t, s, r, Pending))
  }

  lemma SendKeeps(t: Tables, users: set<User>, from: User, to: User, safety: Safety)
    requires Consistent(t)
    ensures Consistent(Send(t, users, from, to, safety).0)
  {}

  lemma AcceptKeeps(t: Tables, u: User, from: User)
    requires Consistent(t)
    ensures Consistent(Accept(t, u, from).0)
  {}

  lemma DeclineKeeps(t: Tables, u: User, from: User)
    requires Consistent(t)
    ensures Consistent(Decline(t, u, from).0)
  {}

  lemma CancelKeeps(t: Tables, u: User, to: User)
    requires Consistent(t)
    ensures Consistent(Cancel(t, u, to).0)
  {}

  lemma {:induction false} RunsStayConsistent(users: set<User>, calls: seq<Call>)
    ensures Consistent(Run(EMPTY, users, calls))
    decreases |calls|
  {
    if calls != [] {
      var t := Run(EMPTY, users, calls[..|calls| - 1]);
      RunsStayConsistent(users, calls[..|calls| - 1]);
      match calls[|calls| - 1]
      case SendCall(from, to, safety) => SendKeeps(t, users, from, to, safety);
      case AcceptCall(u, from) => AcceptKeeps(t, u, from);
      case DeclineCall(u, from) => DeclineKeeps(t, u, from);
      case CancelCall(u, to) => CancelKeeps(t, u, to);
      case UnfriendCall(u, f) =>
    }
  }

  /** After any calls: both services agree on friendship, friendship and the pending views are
      mirror images of each other, and requests never pend both ways. */
  lemma {:induction false} RelationsMirrorEachOther(users: set<User>, calls: seq<Call>, u: User, v: User)
    ensures var t := Run(EMPTY, users, calls);
            && (ChatAreFriends(t, u, v) <==> IsFriend(t, u, v))
            && (IsFriend(t, u, v) <==> (u, v) in t.edges)
            && (IsFriend(t, u, v) <==> IsFriend(t, v, u))
            && (RelationOf(t, u, v) == AreFriends <==> RelationOf(t, v, u) == AreFriends)
            && (RelationOf(t, u, v) == Outgoing <==> RelationOf(t, v, u) == Incoming)
            && !(Lists(t, u, v) && Lists(t, v, u))
  {
    RunsStayConsistent(users, calls);
  }

  /** What a user is told about another after any calls, from the durable rows: friends by the edge; else
      outgoing by the pending row of their own request, incoming by that of the other's; else declined by
      the declined row of their own request. */
  lemma RelationFromRows(users: set<User>, calls: seq<Call>, u: User, v: User)
    ensures var t := Run(EMPTY, users, calls);
            var r, edge := RelationOf(t, u, v), (u, v) in t.edges;
            var sent, got := StatusIs(t, v, u, Pending), StatusIs(t, u, v, Pending);
            && (r == AreFriends <==> edge)
            && (r == Outgoing <==> !edge && sent)
            && (r == Incoming <==> !edge && got)
            && (r == WasDeclined <==> !edge && !sent && !got && StatusIs(t, v, u, Declined))
            && (r == NoRelation <==> !edge && !sent && !got && !StatusIs(t, v, u, Declined))
  {
    RunsStayConsistent(users, calls);
  }

  /** Nothing changed but the row of one request, and the edges between the two. */
  ghost predicate OnlyBetween(t: Tables, t': Tables, r: User, s: User) {
    && (forall k :: k != (r, s) ==> (k in t'.requests <==> k in t.requests))
    && (forall k :: k != (r, s) && k in t.requests ==> t'.requests[k] == t.requests[k])
    && (forall k :: k != (r, s) && k != (s, r) ==> (k in t'.edges <==> k in t.edges))
  }

  /** After any calls a send that answers Ok leaves the request pending, and nothing else changed: the sender
      sees it outgoing, the recipient incoming. Any other answer changes nothing. */
  lemma SendingPends(users: set<User>, calls: seq<Call>, from: User, to: User, safety: Safety)
    ensures var t := Run(EMPTY, users, calls);
            var a := Send(t, users, from, to, safety);
            if a.1 == Ok then
              && StatusIs(a.0, to, from, Pending) && OnlyBetween(t, a.0, to, from) && a.0.edges == t.edges
              && RelationOf(a.0, from, to) == Outgoing && RelationOf(a.0, to, from) == Incoming
            else a.0 == t
  {
    RunsStayConsistent(users, calls);
  }

  /** An accept succeeds exactly on a pending or accepted request; then the two are friends both ways. */
  lemma AcceptingBefriends(users: set<User>, calls: seq<Call>, u: User, from: User)
    ensures var t := Run(EMPTY, users, calls);
            var a := Accept(t, u, from);
            && (a.1 == Ok <==> StatusIs(t, u, from, Pending) || StatusIs(t, u, from, Accepted))
            && (a.1 == Ok || a.1 == RequestNotFound)
            && if a.1 == Ok then
                 && StatusIs(a.0, u, from, Accepted) && OnlyBetween(t, a.0, u, from)
                 && (u, from) in a.0.edges && (from, u) in a.0.edges
                 && RelationOf(a.0, u, from) == RelationOf(a.0, from, u) == AreFriends
               else a.0 == t
  {
    RunsStayConsistent(users, calls);
  }

  /** A decline succeeds exactly on a pending or declined request; then it is declined. */
  lemma DecliningDeclines(users: set<User>, calls: seq<Call>, u: User, from: User)
    ensures var t := Run(EMPTY, users, calls);
            var a := Decline(t, u, from);
            && (a.1 == Ok <==> StatusIs(t, u, from, Pending) || StatusIs(t, u, from, Declined))
            && (a.1 == Ok || a.1 == RequestNotFound)
            && if a.1 == Ok then
                 StatusIs(a.0, u, from, Declined) && OnlyBetween(t, a.0, u, from) && a.0.edges == t.edges
               else a.0 == t
  {
    RunsStayConsistent(users, calls);
  }

  /** A cancel succeeds exactly on a pending request of the caller; then there is none. */
  lemma CancellingRemoves(users: set<User>, calls: seq<Call>, u: User, to: User)
    ensures var t := Run(EMPTY, users, calls);
            var a := Cancel(t, u, to);
            && (a.1 == Ok <==> StatusIs(t, to, u, Pending)) && (a.1 == Ok || a.1 == RequestNotFound)
            && if a.1 == Ok then (to, u) !in a.0.requests && OnlyBetween(t, a.0, to, u) && a.0.edges == t.edges
               else a.0 == t
  {
    RunsStayConsistent(users, calls);
  }

  /** After unfriending neither is the other's friend, for either service; all requests stay. */
  lemma UnfriendingEnds(users: set<User>, calls: seq<Call>, u: User, f: User)
    ensures var t := Run(EMPTY, users, calls);
            var a := Unfriend(t, u, f);
            && a.requests == t.requests && OnlyBetween(t, a, u, f)
            && !IsFriend(a, u, f) && !IsFriend(a, f, u) && !ChatAreFriends(a, u, f) && !ChatAreFriends(a, f, u)
  {
    RunsStayConsistent(users, calls);
  }

  /** Exactly when a request can be sent: among existing distinct users, unblocked, not friends, no
      opposite request pending, and no earlier request of this sender other than a declined one. */
  lemma SendSucceedsExactlyWhen(users: set<User>, calls: seq<Call>, from: User, to: User, safety: Safety)
    ensures var t := Run(EMPTY, users, calls);
            Send(t, users, from, to, safety).1 == Ok <==>
              && from != 0 && from != to && from in users && to in users
              && (safety == NotAsked || safety == Answer(false))
              && (from, to) !in t.edges && !StatusIs(t, from, to, Pending)
              && ((to, from) !in t.requests || StatusIs(t, to, from, Declined))
  {
    RunsStayConsistent(users, calls);
  }

  /** And which answer a refused request gets: the first thing that stands against it. */
  lemma RefusalsExactly(users: set<User>, calls: seq<Call>, from: User, to: User, safety: Safety)
    ensures var t := Run(EMPTY, users, calls);
            var r := Send(t, users, from, to, safety).1;
            var known := from != 0 && from != to && from in users && to in users;
            var asked := known && safety != Unavailable && safety != Answer(true);
            && (r == Self <==> from == 0 || from == to)
            && (r == UserNotFound <==> from != 0 && from != to && !known)
            && (r == SafetyUnavailable <==> known && safety == Unavailable)
            && (r == Blocked <==> known && safety == Answer(true))
            && (r == AlreadyFriends <==> asked && (from, to) in t.edges)
            && (r == RequestExists <==> asked && (from, to) !in t.edges
                                        && (StatusIs(t, from, to, Pending) || StatusIs(t, to, from, Pending)
                                            || StatusIs(t, to, from, Accepted)))
            && r != RequestNotFound
  {
    RunsStayConsistent(users, calls);
  }

  /** An accepted row is never removed, not even by unfriending: from then on the same sender can
      never send again, while the recipient can restore the friendship by accepting once more. */
  lemma {:induction false} AcceptedForever(t: Tables, users: set<User>, calls: seq<Call>, r: User, s: User)
    requires StatusIs(t, r, s, Accepted)
    ensures var u := Run(t, users, calls);
            && StatusIs(u, r, s, Accepted)
            && forall safety :: Send(u, users, s, r, safety).1 != Ok && Send(u, users, s, r, safety).0 == u
    ensures var a := Accept(Run(t, users, calls), r, s);
            a.1 == Ok && IsFriend(a.0, r, s) && IsFriend(a.0, s, r) && ChatAreFriends(a.0, r, s)
                && ChatAreFriends(a.0, s, r)
    decreases |calls|
  {
    if calls != [] { AcceptedForever(t, users, calls[..|calls| - 1], r, s); }
  }

  /** Unfriending does take effect until someone accepts again: no other call creates an edge. */
  lemma {:induction false} OnlyAcceptMakesFriends(t: Tables, users: set<User>, calls: seq<Call>, u: User, f: User)
    requires (u, f) !in t.edges && (u, f) !in t.mirrorEdges
    requires forall k :: 0 <= k < |calls| ==> calls[k] != AcceptCall(u, f) && calls[k] != AcceptCall(f, u)
    ensures !IsFriend(Run(t, users, calls), u, f)
    decreases |calls|
  {
    if calls != [] { OnlyAcceptMakesFriends(t, users, calls[..|calls| - 1], u, f); }
  }

  /** Cancelling a first request restores every table. */
  lemma CancelUndoesSend(users: set<User>, calls: seq<Call>, from: User, to: User, safety: Safety)
    requires var t := Run(EMPTY, users, calls);
             Send(t, users, from, to, safety).1 == Ok && (to, from) !in t.requests
    ensures var t := Run(EMPTY, users, calls);
            Cancel(Send(t, users, from, to, safety).0, from, to) == (t, Ok)
  {
    RunsStayConsistent(users, calls);
    var t := Run(EMPTY, users, calls);
    var u := Send(t, users, from, to, safety).0;
    assert u.requests - {(to, from)} == t.requests;
    assert !StatusIs(t, to, from, Pending) && !StatusIs(t, to, from, Declined);
    assert u.mirrorTo - {(to, from)} == t.mirrorTo && u.mirrorFrom - {(from, to)} == t.mirrorFrom;
    assert u.declinedKeys == t.declinedKeys;
  }

  // ---------- the code's own form ----------

  class FriendRepo {
    var requests: map<(User, User), Status>
    var edges: set<(User, User)>
    var mirrorTo: set<(User, User)>
    var mirrorFrom: set<(User, User)>
    var mirrorEdges: set<(User, User)>
    var declinedKeys: set<(User, User)>

    constructor ()
      ensures Contents() == EMPTY
    {
      requests, edges, mirrorTo, mirrorFrom, mirrorEdges, declinedKeys := map[], {}, {}, {}, {}, {};
    }

    ghost function Contents(): (t: Tables)
      reads this
    {
      Tables(requests, edges, mirrorTo, mirrorFrom, mirrorEdges, declinedKeys)
    }

    method GetDurable(recipient: User, sender: User) returns (status: Status, found: bool)
      ensures found == ((recipient, sender) in requests)
      ensures found ==> status == requests[(recipient, sender)]
    {
      found := (recipient, sender) in requests;
      status := if found then requests[(recipient, sender)] else Pending;
    }

    /** A conditional UPDATE ... IF status = expected. */
    method StatusCas(recipient: User, sender: User, expected: Status, status: Status) returns (applied: bool)
      modifies this`requests
      ensures applied == StatusIs(old(Contents()), recipient, sender, expected)
      ensures requests == if applied then old(requests)[(recipient, sender) := status] else old(requests)
    {
      applied := (recipient, sender) in requests && requests[(recipient, sender)] == expected;
      if applied { requests := requests[(recipient, sender) := status]; }
    }

    method CreateFriendRequest(from: User, to: User) returns (outcome: Outcome)
      modifies this
      ensures (Contents(), outcome) == Create(old(Contents()), from, to)
    {
      if (to, from) !in requests {
        requests := requests[(to, from) := Pending];
      } else {
        if requests[(to, from)] != Declined { return RequestExists; }
        var applied := StatusCas(to, from, Declined, Pending);
        if !applied { return RequestExists; }
      }
      declinedKeys := declinedKeys - {(from, to)};
      mirrorFrom := mirrorFrom + {(from, to)};
      mirrorTo := mirrorTo + {(to, from)};
      outcome := Ok;
    }

    /** GetFriendRequests: the pending rows of the recipient, joined with the mirrored ones. */
    method GetFriendRequests(u: User) returns (bySender: set<User>)
      ensures forall s :: s in bySender <==> Lists(Contents(), u, s)
    {
      bySender := {};
      var rows := requests.Keys;
      while rows != {}
        invariant rows <= requests.Keys
        invariant forall s :: s in bySender <==> StatusIs(Contents(), u, s, Pending) && (u, s) !in rows
        decreases rows
      {
        var row :| row in rows;
        rows := rows - {row};
        if row.0 == u && requests[row] == Pending { bySender := bySender + {row.1}; }
      }
      var values := mirrorTo;
      while values != {}
        invariant values <= mirrorTo
        invariant forall s :: s in bySender
                    <==> StatusIs(Contents(), u, s, Pending) || ((u, s) in mirrorTo && (u, s) !in values)
        decreases values
      {
        var value :| value in values;
        values := values - {value};
        if value.0 == u { bySender := bySender + {value.1}; }
      }
    }

    method IsFriendOf(u: User, peer: User) returns (friends: bool)
      ensures friends == IsFriend(Contents(), u, peer)
    {
      friends := (u, peer) in edges;
      if !friends { friends := (u, peer) in mirrorEdges; }
    }

    method SendFriendRequest(users: set<User>, from: User, to: User, safety: Safety) returns (outcome: Outcome)
      modifies this
      ensures (Contents(), outcome) == Send(old(Contents()), users, from, to, safety)
    {
      if from == 0 || from == to { return Self; }
      if from !in users { return UserNotFound; }
      if to !in users { return UserNotFound; }
      if safety.Unavailable? { return SafetyUnavailable; }
      if safety.Answer? && safety.blocked { return Blocked; }
      var friends := IsFriendOf(from, to);
      if friends { return AlreadyFriends; }
      var incoming := GetFriendRequests(from);
      if to in incoming { return RequestExists; }
      outcome := CreateFriendRequest(from, to);
    }

    method MoveMirrorToFriends(u: User, from: User)
      modifies this
      ensures Contents() == Befriend(DropMirror(old(Contents()), u, from), u, from)
    {
      edges := edges + {(u, from)};
      edges := edges + {(from, u)};
      mirrorTo := mirrorTo - {(u, from)};
      mirrorFrom := mirrorFrom - {(from, u)};
      mirrorEdges := mirrorEdges + {(u, from)};
      mirrorEdges := mirrorEdges + {(from, u)};
      assert edges == old(edges) + {(u, from), (from, u)};
      assert mirrorEdges == old(mirrorEdges) + {(u, from), (from, u)};
    }

    method AcceptFriendRequest(u: User, from: User) returns (outcome: Outcome)
      modifies this
      ensures (Contents(), outcome) == Accept(old(Contents()), u, from)
    {
      var status, found := GetDurable(u, from);
      if found {
        match status {
          case Pending =>
            var applied := StatusCas(u, from, Pending, Accepted);
            if !applied {
              var latest, latestFound := GetDurable(u, from);
              if !latestFound || latest != Accepted { return RequestNotFound; }
            }
          case Accepted => assert requests == requests[(u, from) := Accepted];
          case Declined => return RequestNotFound;
        }
      } else {
        if (u, from) !in mirrorTo { return RequestNotFound; }
      }
      MoveMirrorToFriends(u, from);
      outcome := Ok;
    }

    method DeclineFriendRequest(u: User, from: User) returns (outcome: Outcome)
      modifies this
      ensures (Contents(), outcome) == Decline(old(Contents()), u, from)
    {
      var status, found := GetDurable(u, from);
      if found {
        match status {
          case Pending =>
            var applied := StatusCas(u, from, Pending, Declined);
            if !applied { return RequestNotFound; }
          case Declined => assert requests == requests[(u, from) := Declined];
          case Accepted => return RequestNotFound;
        }
      } else {
        if (u, from) !in mirrorTo { return RequestNotFound; }
      }
      mirrorTo := mirrorTo - {(u, from)};
      mirrorFrom := mirrorFrom - {(from, u)};
      declinedKeys := declinedKeys + {(from, u)};
      outcome := Ok;
    }

    method CancelFriendRequest(u: User, to: User) returns (outcome: Outcome)
      modifies this
      ensures (Contents(), outcome) == Cancel(old(Contents()), u, to)
    {
      var status, found := GetDurable(to, u);
      if found {
        if status != Pending { return RequestNotFound; }
        requests := requests - {(to, u)};
      } else {
        if (to, u) !in mirrorTo { return RequestNotFound; }
      }
      mirrorTo := mirrorTo - {(to, u)};
      mirrorFrom := mirrorFrom - {(u, to)};
      outcome := Ok;
    }

    method RemoveFriend(u: User, f: User)
      modifies this
      ensures Contents() == Unfriend(old(Contents()), u, f)
    {
      mirrorEdges := mirrorEdges - {(u, f)};
      mirrorEdges := mirrorEdges - {(f, u)};
      edges := edges - {(u, f)};
      edges := edges - {(f, u)};
      assert edges == old(edges) - {(u, f), (f, u)};
      assert mirrorEdges == old(mirrorEdges) - {(u, f), (f, u)};
    }

    method GetRelationshipStatus(u: User, peer: User) returns (r: Relationship)
      ensures r == RelationOf(Contents(), u, peer)
    {
      var friends := IsFriendOf(u, peer);
      if friends { return AreFriends; }
      var outgoing := GetFriendRequests(peer);
      if u in outgoing { return Outgoing; }
      var incoming := GetFriendRequests(u);
      if peer in incoming { return Incoming; }
      var status, found := GetDurable(peer, u);
      var declined := if found then status == Declined else (u, peer) in declinedKeys;
      r := if declined then WasDeclined else NoRelation;
    }
  }
}
