/** User search over the lexicographic name and handle indexes. Index members are byte strings;
    a character stands for one byte. */
module Search {
  import opened Basics
  import opened Text
  import opened Names

  type Id = nat

  datatype User = User(name: string, handle: string)

  const TOP: char := 255 as char
  const NUL: char := 0 as char

  predicate AtMost(a: string, b: string) { a == b || Less(a, b) }

  /** ZRANGEBYLEX key [q [q\xff */
  predicate InRange(q: string, m: string) { AtMost(q, m) && AtMost(m, q + [TOP]) }

  /** The range from q to q\xff, for any strings: the members with prefix q whose rest is at most
      \xff. */
  lemma {:induction false} RangeIsPrefixed(q: string, m: string)
    ensures InRange(q, m) <==> q <= m && AtMost(m[|q|..], [TOP])
    decreases |q|
  {
    if q == [] {
      assert [] + [TOP] == [TOP] && m[0..] == m;
    } else if m != [] && m[0] == q[0] {
      RangeIsPrefixed(q[1..], m[1..]);
      HeadsAgree(q, m);
      HeadsAgree(m, q + [TOP]);
      assert (q + [TOP])[1..] == q[1..] + [TOP];
      assert q <= m <==> q[1..] <= m[1..] by {
        assert q == [q[0]] + q[1..] && m == [m[0]] + m[1..];
      }
      if q <= m { assert m[|q|..] == m[1..][|q| - 1..]; }
    } else {
      assert m == [] || m[0] != q[0];
      LessTotal(q, m);
    }
  }

  lemma HeadsAgree(a: string, b: string)
    requires a != [] && b != [] && a[0] == b[0]
    ensures AtMost(a, b) <==> AtMost(a[1..], b[1..])
  {
    assert a == [a[0]] + a[1..] && b == [b[0]] + b[1..];
  }

  /** Over byte strings without 0xff, which UTF-8 text is, the range holds exactly the members with
      prefix q. */
  lemma RangeIsPrefix(q: string, m: string)
    requires forall i :: 0 <= i < |m| ==> m[i] < 255 as char
    ensures InRange(q, m) <==> q <= m
  {
    RangeIsPrefixed(q, m);
  }

  // ---------- index members ----------

  function Member(text: string, id: Id): string { text + [NUL] + Decimal(id) }

  function Find(s: string, c: char): Option<nat> {
    if s == [] then None
    else if s[0] == c then Some(0)
    else match Find(s[1..], c) case None => None case Some(i) => Some(i + 1)
  }

  lemma {:induction false} FindAfter(text: string, rest: string, c: char)
    requires c !in text
    ensures Find(text + [c] + rest, c) == Some(|text|)
  {
    var s := text + [c] + rest;
    if text != [] {
      assert s[1..] == text[1..] + [c] + rest;
      FindAfter(text[1..], rest, c);
    }
  }

  lemma {:induction false} FindBound(s: string, c: char)
    ensures Find(s, c).Some? ==> Find(s, c).value < |s|
  {
    if s != [] { FindBound(s[1..], c); }
  }

  /** SplitN(member, "\x00", 2)[1], parsed. */
  function IdOf(member: string): Option<Id> {
    FindBound(member, NUL);
    match Find(member, NUL) case None => None case Some(i) => ParseUint(member[i + 1..])
  }

  /** An indexed user is found again under its id. */
  lemma MemberRoundTrip(text: string, id: Id)
    requires NUL !in text && id < 0x1_0000_0000_0000_0000
    ensures IdOf(Member(text, id)) == Some(id)
  {
    FindAfter(text, Decimal(id), NUL);
    assert Member(text, id)[|text| + 1..] == Decimal(id);
    DecimalRoundTrip(id);
  }

  // ---------- the sorted sets ----------

  /** Members in ascending byte order, as Redis keeps members of one score. */
  ghost predicate Sorted(s: seq<string>) { forall i, j :: 0 <= i < j < |s| ==> Less(s[i], s[j]) }

  /** ZADD with score 0 */
  function Insert(s: seq<string>, m: string): seq<string> {
    if s == [] || Less(m, s[0]) then [m] + s
    else if m == s[0] then s
    else [s[0]] + Insert(s[1..], m)
  }

  lemma {:induction false} InsertAdds(s: seq<string>, m: string, x: string)
    ensures x in Insert(s, m) <==> x in s || x == m
  {
    if !(s == [] || Less(m, s[0]) || m == s[0]) {
      InsertAdds(s[1..], m, x);
      assert s == [s[0]] + s[1..];
    }
  }

  lemma {:induction false} InsertKeepsSorted(s: seq<string>, m: string)
    requires Sorted(s)
    ensures Sorted(Insert(s, m))
  {
    if s != [] && !Less(m, s[0]) && m != s[0] {
      var rest := Insert(s[1..], m);
      InsertKeepsSorted(s[1..], m);
      LessTotal(m, s[0]);
      forall j | 0 <= j < |rest| ensures Less(s[0], rest[j]) {
        InsertAdds(s[1..], m, rest[j]);
        if rest[j] in s[1..] { var k :| 0 <= k < |s[1..]| && s[1..][k] == rest[j]; assert s[k + 1] == rest[j]; }
      }
    } else if s != [] && Less(m, s[0]) {
      forall j | 0 <= j < |s| ensures Less(m, s[j]) { if j > 0 { LessTransitive(m, s[0], s[j]); } }
    }
  }

  function Matches(s: seq<string>, q: string): seq<string> {
    if s == [] then [] else (if InRange(q, s[0]) then [s[0]] else []) + Matches(s[1..], q)
  }

  lemma {:induction false} MatchesAre(s: seq<string>, q: string, m: string)
    ensures m in Matches(s, q) <==> m in s && InRange(q, m)
  {
    if s != [] {
      MatchesAre(s[1..], q, m);
      assert s == [s[0]] + s[1..];
    }
  }

  lemma {:induction false} InsertMatches(s: seq<string>, m: string, q: string)
    ensures |Matches(s, q)| <= |Matches(Insert(s, m), q)|
  {
    if s == [] || Less(m, s[0]) {
      assert ([m] + s)[1..] == s;
    } else if m != s[0] {
      InsertMatches(s[1..], m, q);
      assert Insert(s, m)[1..] == Insert(s[1..], m);
    }
  }

  function Take(s: seq<string>, n: nat): seq<string> { if n < |s| then s[..n] else s }

  /** Nothing was removed from the index, and no query has fewer matches. */
  ghost predicate Grew(s: seq<string>, t: seq<string>) {
    (forall m :: m in s ==> m in t) && (forall q :: |Matches(s, q)| <= |Matches(t, q)|)
  }

  lemma InsertGrows(s: seq<string>, m: string)
    ensures Grew(s, Insert(s, m))
  {
    forall x | x in s ensures x in Insert(s, m) { InsertAdds(s, m, x); }
    forall q ensures |Matches(s, q)| <= |Matches(Insert(s, m), q)| { InsertMatches(s, m, q); }
  }

  // ---------- the search ----------

  const MAX_LIMIT := 50
  const DEFAULT_LIMIT := 20

  function Limit(limit: int): nat { if limit <= 0 || limit > MAX_LIMIT then DEFAULT_LIMIT else limit }

  function Fold(s: string): string { Lower(Trim(s)) }

  /** What folding gives, for any text: nothing for spaces alone, and else exactly the text without capitals
      that it spells. */
  lemma FoldIs(s: string, text: string)
    ensures Fold(s) == text <==> if text == "" then AllSpaces(s) else Plain(text) && Spelled(s, text)
  {
    var t := Trim(s);
    TrimEnds(s);
    if t != "" {
      assert Plain(Fold(s));
    }
    if text != "" && Plain(text) { FoldsExactly(s, text); }
    if text == "" {
      var pre, post := TrimTrims(s);
      if t == "" { SpacesJoin(pre, post); assert s == pre + post; }
      if t != "" { assert s[|pre|] == t[0]; }
    }
  }

  ghost predicate Distinct(ids: seq<Id>) { forall i, j :: 0 <= i < j < |ids| ==> ids[i] != ids[j] }

  /** The member of a stored user is in the index and starts with the query. */
  predicate Hit(index: seq<string>, q: string, id: Id) {
    exists m :: m in index && InRange(q, m) && IdOf(m) == Some(id)
  }

  /** Every listed member that names a stored user is represented in the result. */
  ghost predicate Covers(users: map<Id, User>, members: seq<string>, n: nat, ids: seq<Id>)
    requires n <= |members|
  {
    forall i: nat, id: Id :: i < n && ListedAt(members, i, id) && id in users ==> id in ids
  }

  ghost predicate ListedAt(members: seq<string>, i: nat, id: Id) { i < |members| && IdOf(members[i]) == Some(id) }

  /** The members a range query returns are the hits, all of them when it is not cut. */
  lemma ListedAreHits(index: seq<string>, q: string, n: nat)
    ensures forall i: nat, id: Id :: ListedAt(Take(Matches(index, q), n), i, id) ==> Hit(index, q, id)
    ensures |Matches(index, q)| <= n ==> forall id: Id :: Hit(index, q, id)
                                           ==> exists i: nat :: ListedAt(Take(Matches(index, q), n), i, id)
  {
    var members := Take(Matches(index, q), n);
    forall i: nat, id: Id | ListedAt(members, i, id) ensures Hit(index, q, id) {
      assert members[i] in Matches(index, q);
      MatchesAre(index, q, members[i]);
    }
    if |Matches(index, q)| <= n {
      forall id: Id | Hit(index, q, id) ensures exists i: nat :: ListedAt(members, i, id) {
        var m :| m in index && InRange(q, m) && IdOf(m) == Some(id);
        MatchesAre(index, q, m);
        var i :| 0 <= i < |members| && members[i] == m;
        assert ListedAt(members, i, id);
      }
    }
  }

  lemma HitGrows(s: seq<string>, t: seq<string>, q: string, id: Id)
    requires Grew(s, t) && Hit(s, q, id)
    ensures Hit(t, q, id)
  {}

  /** What the two indexes contribute: only hits, and all of them when nothing was cut. */
  ghost predicate ByPrefix(q: string, n: nat, users: map<Id, User>, handles: seq<string>, names: seq<string>,
      names': seq<string>, ids: seq<Id>)
  {
    && (forall id :: id in ids ==> Hit(handles, q, id) || Hit(names', q, id))
    && (|ids| < n && |Matches(handles, q)| <= n && |Matches(names', q)| <= n ==>
          forall id :: id in users && (Hit(handles, q, id) || Hit(names, q, id)) ==> id in ids)
  }

  ghost predicate Answers(q: string, n: nat, users: map<Id, User>, claims: map<Key, Id>,
                          handles: seq<string>, names: seq<string>, names': seq<string>, ids: seq<Id>) {
    var k := KeyOfHandle(q);
    if k in claims && claims[k] != 0 && claims[k] in users then ids == [claims[k]]
    else if ParseUint(q).Some? && ParseUint(q).value > 0 then
      ids == if ParseUint(q).value in users then [ParseUint(q).value] else []
    else ByPrefix(q, n, users, handles, names, names', ids)
  }

  class UserIndex {
    var users: map<Id, User>
    var claims: map<Key, Id>
    var byHandle: seq<string>
    var byName: seq<string>

    constructor ()
      ensures users == map[] && claims == map[] && byHandle == [] && byName == []
    {
      users, claims, byHandle, byName := map[], map[], [], [];
    }

    /** indexUser */
    method IndexUser(id: Id, u: User)
      modifies this`byHandle, this`byName
      ensures byName == if Fold(u.name) != "" then Insert(old(byName), Member(Fold(u.name), id)) else old(byName)
      ensures byHandle == if Fold(u.handle) != "" then Insert(old(byHandle), Member(Fold(u.handle), id))
              else old(byHandle)
    {
      if Fold(u.name) != "" { byName := Insert(byName, Member(Fold(u.name), id)); }
      if Fold(u.handle) != "" { byHandle := Insert(byHandle, Member(Fold(u.handle), id)); }
    }

    /** GetUserByID: reading a user indexes it again. */
    method ReadUser(id: Id) returns (found: bool)
      modifies this`byHandle, this`byName
      ensures found == (id in users)
      ensures !found ==> byHandle == old(byHandle) && byName == old(byName)
      ensures Grew(old(byHandle), byHandle) && Grew(old(byName), byName)
      ensures Sorted(old(byHandle)) ==> Sorted(byHandle)
      ensures Sorted(old(byName)) ==> Sorted(byName)
    {
      found := id in users;
      if found {
        var u := users[id];
        InsertGrows(byName, Member(Fold(u.name), id));
        InsertGrows(byHandle, Member(Fold(u.handle), id));
        if Sorted(byName) { InsertKeepsSorted(byName, Member(Fold(u.name), id)); }
        if Sorted(byHandle) { InsertKeepsSorted(byHandle, Member(Fold(u.handle), id)); }
        IndexUser(id, u);
      }
    }

    /** One index's members, in order, until the result is full. */
    method Scan(members: seq<string>, limit: nat, before: seq<Id>) returns (ids: seq<Id>)
      requires Distinct(before) && |before| < limit && forall id :: id in before ==> id in users
      modifies this`byHandle, this`byName
      ensures Grew(old(byHandle), byHandle) && Grew(old(byName), byName)
      ensures Distinct(ids) && before <= ids && |ids| <= limit && forall id :: id in ids ==> id in users
      ensures |ids| < limit ==> Covers(users, members, |members|, ids)
      ensures forall id :: id in ids && id !in before ==> exists i: nat :: ListedAt(members, i, id)
    {
      ids := before;
      var i := 0;
      while i < |members|
        invariant 0 <= i <= |members|
        invariant Grew(old(byHandle), byHandle) && Grew(old(byName), byName)
        invariant Distinct(ids) && before <= ids && |ids| < limit && forall id :: id in ids ==> id in users
        invariant Covers(users, members, i, ids)
        invariant forall id :: id in ids && id !in before ==> exists k: nat :: ListedAt(members, k, id)
      {
        var parsed := IdOf(members[i]);
        assert parsed.Some? ==> ListedAt(members, i, parsed.value);
        if parsed.Some? && parsed.value !in ids {
          var found := ReadUser(parsed.value);
          if found {
            ids := ids + [parsed.value];
            if |ids| >= limit { return; }
          }
        }
        i := i + 1;
      }
    }

    /** SearchUsers. At most `limit` users, all stored and all different. An exact handle or a number
        answers alone; otherwise every result has an indexed name or handle in the query's range,
        and when the result is not full and no range was cut, every stored user with one is there. */
    method SearchUsers(query: string, limit: int) returns (ids: seq<Id>)
      modifies this`byHandle, this`byName
      ensures |ids| <= (if 1 <= limit <= 50 then limit else 20) && Distinct(ids)
      ensures forall id :: id in ids ==> id in users
      ensures DropAt(Fold(query)) == "" ==> ids == []
      ensures DropAt(Fold(query)) != "" ==>
                Answers(DropAt(Fold(query)), if 1 <= limit <= 50 then limit else 20, users, claims, old(byHandle),
                        old(byName), byName, ids)
    {
      var q := DropAt(Fold(query));
      if q == "" { return []; }
      ids := SearchFor(q, Limit(limit));
    }

    method SearchFor(q: string, n: nat) returns (ids: seq<Id>)
      requires n > 0
      modifies this`byHandle, this`byName
      ensures |ids| <= n && Distinct(ids) && forall id :: id in ids ==> id in users
      ensures Answers(q, n, users, claims, old(byHandle), old(byName), byName, ids)
    {
      var k := KeyOfHandle(q);
      if k in claims && claims[k] != 0 {
        var found := ReadUser(claims[k]);
        if found { return [claims[k]]; }
      }
      var number := ParseUint(q);
      if number.Some? && number.value > 0 {
        var found := ReadUser(number.value);
        return if found then [number.value] else [];
      }
      ids := ScanBoth(q, n);
    }

    /** The part of SearchUsers that reads the two indexes. */
    method ScanBoth(q: string, n: nat) returns (ids: seq<Id>)
      requires n > 0
      modifies this`byHandle, this`byName
      ensures |ids| <= n && Distinct(ids) && forall id :: id in ids ==> id in users
      ensures ByPrefix(q, n, users, old(byHandle), old(byName), byName, ids)
    {
      var handles := Take(Matches(byHandle, q), n);
      ListedAreHits(byHandle, q, n);
      ids := Scan(handles, n, []);
      ghost var first := ids;
      if |ids| >= n { return; }
      ghost var index := byName;
      ListedAreHits(index, q, n);
      var names := Take(Matches(byName, q), n);
      ids := Scan(names, n, ids);
      forall id | id in ids ensures Hit(old(byHandle), q, id) || Hit(byName, q, id) {
        if id !in first { HitGrows(index, byName, q, id); }
      }
      if |ids| < n && |Matches(old(byHandle), q)| <= n && |Matches(byName, q)| <= n {
        forall id | id in users && (Hit(old(byHandle), q, id) || Hit(old(byName), q, id)) ensures id in ids {
          if Hit(old(byHandle), q, id) {
            assert id in first;
          } else {
            HitGrows(old(byName), index, q, id);
          }
        }
      }
    }
  }
}
