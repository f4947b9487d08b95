/** Ranking match candidates by their profiles, as discovery's Rank does. */
module Ranks {
  import opened Basics
  import opened Text
  import opened Names
  import opened Ranking

  type Id = nat

  datatype Profile = Profile(languages: seq<string>, interests: seq<string>, avoid: seq<string>, goal: string,
      enabled: bool)

  const NO_PROFILE := Profile([], [], [], "", false)

  datatype Entry = Entry(id: Id, score: real)

  /** What the profile table and the rating keys hold; a missing or unreadable row is absent. */
  datatype Store = Store(profiles: map<Id, Profile>, ratings: map<Id, real>)

  function Clamp(x: real): real { if x < 0.0 then 0.0 else if x > 1.0 then 1.0 else x }

  function Reputation(s: Store, id: Id): real { if id in s.ratings then Clamp(s.ratings[id] / 5.0) else 0.5 }

  /** math.Round(x * 100) / 100 for x >= 0 */
  function Rounded(x: real): real { (x * 100.0 + 0.5).Floor as real / 100.0 }

  function Source(s: Store, user: Id): Profile { if user in s.profiles then s.profiles[user] else NO_PROFILE }

  predicate Clash(a: Profile, b: Profile) { Overlap(a.avoid, b.interests) > 0.0 || Overlap(b.avoid, a.interests) > 0.0 }

  function Score(source: Profile, candidate: Profile, reputation: real): real {
    Rounded(Overlap(source.interests, candidate.interests) * 40.0
        + Overlap(source.languages, candidate.languages) * 20.0
            + reputation * 15.0 + (if source.goal != "" && source.goal == candidate.goal then 15.0 else 0.0) + 10.0)
  }

  predicate Usable(s: Store, id: Id) { id in s.profiles && s.profiles[id].enabled }

  /** The candidate stays in the result. */
  predicate Stays(s: Store, user: Id, id: Id) {
    id != 0 && id != user && (Usable(s, id) ==> !Clash(Source(s, user), s.profiles[id]))
  }

  function EntryOf(s: Store, user: Id, id: Id): Entry {
    Entry(id, if Usable(s, id) then Score(Source(s, user), s.profiles[id], Reputation(s, id)) else 10.0)
  }

  function Listed(s: Store, user: Id, candidates: seq<Id>): seq<Entry> {
    if candidates == [] then []
    else
      var id := candidates[|candidates| - 1];
      Listed(s, user, candidates[..|candidates| - 1]) + (if Stays(s, user, id) then [EntryOf(s, user, id)] else [])
  }

  lemma {:induction false} ListedAre(s: Store, user: Id, candidates: seq<Id>, e: Entry)
    ensures e in Listed(s, user, candidates)
            <==> e.id in candidates && Stays(s, user, e.id) && e == EntryOf(s, user, e.id)
  {
    if candidates != [] {
      ListedAre(s, user, candidates[..|candidates| - 1], e);
      assert candidates == candidates[..|candidates| - 1] + [candidates[|candidates| - 1]];
    }
  }

  // ---------- the stable descending sort ----------

  function InsertByScore(s: seq<Entry>, e: Entry): seq<Entry> {
    if s == [] || s[0].score < e.score then [e] + s else [s[0]] + InsertByScore(s[1..], e)
  }

  /** sort.SliceStable by descending score */
  function SortByScore(s: seq<Entry>): seq<Entry> {
    if s == [] then [] else InsertByScore(SortByScore(s[..|s| - 1]), s[|s| - 1])
  }

  ghost predicate Descending(s: seq<Entry>) { forall i, j :: 0 <= i < j < |s| ==> s[i].score >= s[j].score }

  /** The entries of one score, in order. */
  function WithScore(s: seq<Entry>, x: real): seq<Entry> {
    if s == [] then [] else (if s[0].score == x then [s[0]] else []) + WithScore(s[1..], x)
  }

  lemma {:induction false} InsertAddsEntry(s: seq<Entry>, e: Entry, x: Entry)
    ensures x in InsertByScore(s, e) <==> x in s || x == e
  {
    if s != [] && s[0].score >= e.score {
      InsertAddsEntry(s[1..], e, x);
      assert s == [s[0]] + s[1..];
    }
  }

  lemma {:induction false} InsertKeepsDescending(s: seq<Entry>, e: Entry)
    requires Descending(s)
    ensures Descending(InsertByScore(s, e))
  {
    if s != [] && s[0].score >= e.score {
      var rest := InsertByScore(s[1..], e);
      InsertKeepsDescending(s[1..], e);
      forall j | 0 <= j < |rest| ensures s[0].score >= rest[j].score {
        InsertAddsEntry(s[1..], e, rest[j]);
        if rest[j] in s[1..] { var k :| 0 <= k < |s[1..]| && s[1..][k] == rest[j]; assert s[k + 1] == rest[j]; }
      }
    }
  }

  lemma {:induction false} WithScoreConcat(a: seq<Entry>, b: seq<Entry>, x: real)
    ensures WithScore(a + b, x) == WithScore(a, x) + WithScore(b, x)
  {
    if a == [] {
      assert a + b == b;
    } else {
      WithScoreConcat(a[1..], b, x);
      assert (a + b)[1..] == a[1..] + b;
      ConcatAssociates(if a[0].score == x then [a[0]] else [], WithScore(a[1..], x), WithScore(b, x));
    }
  }

  lemma {:induction false} NoneAbove(s: seq<Entry>, x: real)
    requires forall i :: 0 <= i < |s| ==> s[i].score < x
    ensures WithScore(s, x) == []
  {
    if s != [] { NoneAbove(s[1..], x); }
  }

  /** An inserted entry comes after all entries of its score. */
  lemma {:induction false} InsertIsStable(s: seq<Entry>, e: Entry, x: real)
    requires Descending(s)
    ensures WithScore(InsertByScore(s, e), x) == WithScore(s + [e], x)
  {
    if s == [] {
    } else if s[0].score < e.score {
      WithScoreConcat([e], s, x);
      WithScoreConcat(s, [e], x);
      if x == e.score {
        forall i | 0 <= i < |s| ensures s[i].score < x { assert i == 0 || s[0].score >= s[i].score; }
        NoneAbove(s, x);
      }
    } else {
      InsertIsStable(s[1..], e, x);
      assert (s + [e])[1..] == s[1..] + [e];
    }
  }

  lemma {:induction false} SortIsStable(s: seq<Entry>, x: real)
    ensures Descending(SortByScore(s)) && WithScore(SortByScore(s), x) == WithScore(s, x)
  {
    if s != [] {
      var init, last := s[..|s| - 1], s[|s| - 1];
      SortIsStable(init, x);
      InsertKeepsDescending(SortByScore(init), last);
      InsertIsStable(SortByScore(init), last, x);
      WithScoreConcat(SortByScore(init), [last], x);
      WithScoreConcat(init, [last], x);
      assert s == init + [last];
    }
  }

  lemma {:induction false} InWithScore(s: seq<Entry>, e: Entry)
    ensures e in WithScore(s, e.score) <==> e in s
  {
    if s != [] {
      InWithScore(s[1..], e);
      assert s == [s[0]] + s[1..];
    }
  }

  // ---------- what Rank returns ----------

  function Ranked(s: Store, user: Id, candidates: seq<Id>): seq<Entry> { SortByScore(Listed(s, user, candidates)) }

  /** Rank returns exactly the nonzero other candidates without an avoid-topic clash, each with its own
      score, in descending order, and keeps the given order among equals. */
  lemma RankIsAStableSelection(s: Store, user: Id, candidates: seq<Id>)
    ensures var r := Ranked(s, user, candidates);
            && Descending(r)
            && (forall e :: e in r <==> e.id in candidates && Stays(s, user, e.id) && e == EntryOf(s, user, e.id))
            && (forall x :: WithScore(r, x) == WithScore(Listed(s, user, candidates), x))
  {
    var list, r := Listed(s, user, candidates), Ranked(s, user, candidates);
    forall x ensures Descending(r) && WithScore(r, x) == WithScore(list, x) { SortIsStable(list, x); }
    assert Descending(r) by { SortIsStable(list, 0.0); }
    forall e ensures e in r <==> e.id in candidates && Stays(s, user, e.id) && e == EntryOf(s, user, e.id) {
      InWithScore(r, e);
      InWithScore(list, e);
      ListedAre(s, user, candidates, e);
    }
  }

  lemma {:induction false} ListedConcat(s: Store, user: Id, a: seq<Id>, b: seq<Id>)
    ensures Listed(s, user, a + b) == Listed(s, user, a) + Listed(s, user, b)
    decreases |b|
  {
    if b == [] {
      assert a + b == a;
    } else {
      var init, last := b[..|b| - 1], b[|b| - 1];
      ListedConcat(s, user, a, init);
      assert (a + b)[..|a + b| - 1] == a + init;
      ConcatAssociates(Listed(s, user, a), Listed(s, user, init),
                       if Stays(s, user, last) then [EntryOf(s, user, last)] else []);
    }
  }

  /** Equal scores keep the order of the candidates, repeated ones included: those of a first part of the list
      come before those of the rest, and a single candidate is ranked alone or left out. */
  lemma TiesKeepTheGivenOrder(s: Store, user: Id, a: seq<Id>, b: seq<Id>, x: real, id: Id)
    ensures WithScore(Ranked(s, user, a + b), x) ==
            WithScore(Ranked(s, user, a), x) + WithScore(Ranked(s, user, b), x)
    ensures Ranked(s, user, [id]) == if Stays(s, user, id) then [EntryOf(s, user, id)] else []
  {
    SortIsStable(Listed(s, user, a + b), x);
    SortIsStable(Listed(s, user, a), x);
    SortIsStable(Listed(s, user, b), x);
    ListedConcat(s, user, a, b);
    WithScoreConcat(Listed(s, user, a), Listed(s, user, b), x);
    OneListed(s, user, id);
    var e := EntryOf(s, user, id);
    assert [e][..0] == [] && [] + [e] == [e];
    assert SortByScore([e]) == InsertByScore(SortByScore([]), e) == [e];
  }

  lemma OneListed(s: Store, user: Id, id: Id)
    ensures Listed(s, user, [id]) == if Stays(s, user, id) then [EntryOf(s, user, id)] else []
  {
    assert [id][..0] == [];
    assert Listed(s, user, []) == [];
  }

  /** Stored profiles hold normalized lists. */
  ghost predicate NormalLists(s: Store) {
    forall id :: id in s.profiles ==> Unique(s.profiles[id].languages) && Unique(s.profiles[id].interests)
                                      && Unique(s.profiles[id].avoid)
  }

  /** putProfile stores a profile with its lists normalized. */
  function Put(s: Store, id: Id, p: Profile): Store {
    var normal := p.(languages := Normalized(p.languages, 10), interests := Normalized(p.interests, 30),
                     avoid := Normalized(p.avoid, 20), goal := Trim(p.goal));
    s.(profiles := s.profiles[id := normal])
  }

  /** Whatever is put, all lists stay duplicate-free, the new ones keep the first 10 languages, 30 interests
      and 20 topics to avoid, and nothing else changes. */
  lemma PutKeepsListsNormal(s: Store, id: Id, p: Profile)
    requires NormalLists(s)
    ensures NormalLists(Put(s, id, p))
    ensures id in Put(s, id, p).profiles
    ensures var n := Put(s, id, p).profiles[id];
            && (forall x :: x in n.languages <==> x != "" && exists i: nat :: ComesInTime(p.languages, 10, x, i))
            && (forall x :: x in n.interests <==> x != "" && exists i: nat :: ComesInTime(p.interests, 30, x, i))
            && (forall x :: x in n.avoid <==> x != "" && exists i: nat :: ComesInTime(p.avoid, 20, x, i))
            && n.enabled == p.enabled && exists pre, post :: Trims(p.goal, pre, n.goal, post)
    ensures forall o :: o != id ==> (o in Put(s, id, p).profiles <==> o in s.profiles)
                                    && (o in s.profiles ==> Put(s, id, p).profiles[o] == s.profiles[o])
    ensures Put(s, id, p).ratings == s.ratings
  {
    var pre, post := TrimTrims(p.goal);
    FirstKept(p.languages, 10);
    FirstKept(p.interests, 30);
    FirstKept(p.avoid, 20);
    NormalizeIsStable(p.languages, 10);
    NormalizeIsStable(p.interests, 30);
    NormalizeIsStable(p.avoid, 20);
  }

  lemma FirstKept(values: seq<string>, max: int)
    ensures forall x :: x in Normalized(values, max) <==> x != "" && exists i: nat :: ComesInTime(values, max, x, i)
  {
    forall x ensures x in Normalized(values, max) <==> x != "" && exists i: nat :: ComesInTime(values, max, x, i) {
      FirstAreKept(values, max, x);
    }
  }

  /** For normalized profiles a clash is a shared value. */
  lemma ClashIsAShared(a: Profile, b: Profile)
    requires Unique(a.interests) && Unique(b.interests)
    ensures Clash(a, b) <==> (exists x :: x in a.avoid && x in b.interests)
                             || (exists x :: x in b.avoid && x in a.interests)
  {
    if a.avoid != [] && b.interests != [] { OverlapPositiveExactlyWhen(a.avoid, b.interests); }
    if b.avoid != [] && a.interests != [] { OverlapPositiveExactlyWhen(b.avoid, a.interests); }
  }

  /** A user without a profile avoids nothing and likes nothing. */
  predicate Avoids(s: Store, user: Id, x: string) { user in s.profiles && x in s.profiles[user].avoid }
  predicate Likes(s: Store, user: Id, x: string) { user in s.profiles && x in s.profiles[user].interests }

  ghost predicate AvoidsALikeOf(s: Store, user: Id, other: Id) { exists x :: Avoids(s, user, x) && Likes(s, other, x) }

  /** Exactly which candidates stay: not 0, not the user, and either without an enabled profile or with one
      such that neither of the two avoids what the other likes. */
  lemma StaysExactlyWhen(s: Store, user: Id, id: Id)
    requires NormalLists(s)
    ensures Stays(s, user, id) <==>
              id != 0 && id != user &&
              (id in s.profiles && s.profiles[id].enabled ==>
                 !AvoidsALikeOf(s, user, id) && !AvoidsALikeOf(s, id, user))
  {
    if id in s.profiles {
      var a, b := Source(s, user), s.profiles[id];
      ClashIsAShared(a, b);
      assert AvoidsALikeOf(s, user, id) <==> exists x :: x in a.avoid && x in b.interests by {
        assert forall x :: Avoids(s, user, x) && Likes(s, id, x) <==> x in a.avoid && x in b.interests;
      }
      assert AvoidsALikeOf(s, id, user) <==> exists x :: x in b.avoid && x in a.interests by {
        assert forall x :: Avoids(s, id, x) && Likes(s, user, x) <==> x in b.avoid && x in a.interests;
      }
    }
  }

  /** The score is the exact sum rounded to hundredths, halves upwards. */
  predicate NearestCent(score: real, exact: real) {
    && score * 100.0 == (score * 100.0).Floor as real
    && exact - 0.005 < score <= exact + 0.005
  }

  lemma RoundedIsNearest(x: real)
    ensures NearestCent(Rounded(x), x)
  {
    var f := (x * 100.0 + 0.5).Floor;
    assert f as real <= x * 100.0 + 0.5 < f as real + 1.0;
    assert Rounded(x) * 100.0 == f as real;
  }

  /** What a candidate scores: ten points to start with, forty times the shared interests, twenty times the
      shared languages, fifteen for one conversation goal, and three for each star of a rating within 0 to
      5; no rating counts as two and a half stars. A candidate without an enabled profile scores ten. */
  lemma ScoreShares(s: Store, user: Id, id: Id, a: Profile, b: Profile, stars: real)
    requires a == if user in s.profiles then s.profiles[user] else Profile([], [], [], "", false)
    requires id in s.profiles ==> b == s.profiles[id]
    requires stars == if id !in s.ratings then 2.5
                      else if s.ratings[id] < 0.0 then 0.0 else if s.ratings[id] > 5.0 then 5.0 else s.ratings[id]
    ensures EntryOf(s, user, id).id == id
    ensures id !in s.profiles || !s.profiles[id].enabled ==> EntryOf(s, user, id).score == 10.0
    ensures id in s.profiles && s.profiles[id].enabled ==>
              NearestCent(EntryOf(s, user, id).score,
                          10.0 + 40.0 * Overlap(a.interests, b.interests) + 20.0 * Overlap(a.languages, b.languages)
                          + (if a.goal != "" && a.goal == b.goal then 15.0 else 0.0) + 3.0 * stars)
  {
    if id in s.profiles && s.profiles[id].enabled {
      var goal := if a.goal != "" && a.goal == b.goal then 15.0 else 0.0;
      var i, l := Overlap(a.interests, b.interests), Overlap(a.languages, b.languages);
      assert Reputation(s, id) * 15.0 == 3.0 * stars;
      RoundedIsNearest(i * 40.0 + l * 20.0 + Reputation(s, id) * 15.0 + goal + 10.0);
    }
  }

  /** More of anything never lowers the score, and one hundredth more raises it. */
  lemma MoreScoresMore(x: real, y: real, a: real, b: real)
    requires NearestCent(a, x) && NearestCent(b, y) && x <= y
    ensures a <= b && (x + 0.01 <= y ==> a < b)
  {
    var m, n := (a * 100.0).Floor, (b * 100.0).Floor;
    assert a * 100.0 == m as real && b * 100.0 == n as real;
    assert m as real < n as real + 1.0;
    assert m <= n;
  }

  /** So of two equal profiles the better rated ranks at least as high, a full star better three points
      higher. */
  lemma StarsDecide(s: Store, user: Id, p: Id, q: Id)
    requires p in s.profiles && q in s.profiles && s.profiles[p] == s.profiles[q] && s.profiles[p].enabled
    requires p in s.ratings && q in s.ratings && 0.0 <= s.ratings[p] <= s.ratings[q] <= 5.0
    ensures EntryOf(s, user, p).score <= EntryOf(s, user, q).score
    ensures s.ratings[q] - s.ratings[p] >= 0.01 ==> EntryOf(s, user, p).score < EntryOf(s, user, q).score
    ensures s.ratings[q] == s.ratings[p] + 1.0 ==> EntryOf(s, user, q).score == EntryOf(s, user, p).score + 3.0
  {
    var a, b := Source(s, user), s.profiles[p];
    ScoreShares(s, user, p, a, b, s.ratings[p]);
    ScoreShares(s, user, q, a, b, s.ratings[q]);
    var base := 10.0 + 40.0 * Overlap(a.interests, b.interests) + 20.0 * Overlap(a.languages, b.languages)
                + if a.goal != "" && a.goal == b.goal then 15.0 else 0.0;
    var x, y := base + 3.0 * s.ratings[p], base + 3.0 * s.ratings[q];
    MoreScoresMore(x, y, EntryOf(s, user, p).score, EntryOf(s, user, q).score);
    if s.ratings[q] == s.ratings[p] + 1.0 {
      CentsAreOne(y, EntryOf(s, user, p).score + 3.0, EntryOf(s, user, q).score);
    }
  }

  lemma CentsAreOne(x: real, a: real, b: real)
    requires (a - 3.0) * 100.0 == ((a - 3.0) * 100.0).Floor as real && x - 0.005 < a <= x + 0.005 && NearestCent(b, x)
    ensures a == b
  {
    var m, n := ((a - 3.0) * 100.0).Floor + 300, (b * 100.0).Floor;
    assert a * 100.0 == m as real && b * 100.0 == n as real;
    assert -1.0 < m as real - n as real < 1.0;
    assert m == n;
  }

  lemma RoundedInRange(x: real)
    requires 10.0 <= x <= 100.0
    ensures 10.0 <= Rounded(x) <= 100.0
  {
    var f := (x * 100.0 + 0.5).Floor;
    assert 1000 <= f <= 10000;
  }

  lemma ScoreInRange(a: Profile, b: Profile, reputation: real)
    requires Unique(a.interests) && Unique(b.interests) && Unique(a.languages) && Unique(b.languages)
             && 0.0 <= reputation <= 1.0
    ensures 10.0 <= Score(a, b, reputation) <= 100.0
  {
    OverlapOfUnique(a.interests, b.interests);
    OverlapOfUnique(a.languages, b.languages);
    var interests, languages := Overlap(a.interests, b.interests), Overlap(a.languages, b.languages);
    var goal := if a.goal != "" && a.goal == b.goal then 15.0 else 0.0;
    RoundedInRange(interests * 40.0 + languages * 20.0 + reputation * 15.0 + goal + 10.0);
  }

  /** With normalized profiles every score is between 10 and 100. */
  lemma ScoresInRange(s: Store, user: Id, candidates: seq<Id>, e: Entry)
    requires NormalLists(s) && e in Ranked(s, user, candidates)
    ensures 10.0 <= e.score <= 100.0
  {
    RankIsAStableSelection(s, user, candidates);
    if Usable(s, e.id) {
      ScoreInRange(Source(s, user), s.profiles[e.id], Reputation(s, e.id));
    }
  }

  /** Without it a repeated interest counts as shared, and scores can exceed 100. Storing a profile
      normalizes such lists away, so only a direct caller of overlap can reach this. */
  lemma RepeatedInterestsOverscore(x: string)
    ensures Overlap([x], [x, x, x, x]) == 4.0
    ensures Score(NO_PROFILE.(interests := [x]), NO_PROFILE.(interests := [x, x, x, x]), 0.5) > 100.0
  {
    assert Elements([x]) == {x} && Elements([x, x, x, x]) == {x};
    assert {x} + {x} == {x} && {x} - {x} == {};
    assert 4.0 * 40.0 + 0.5 * 15.0 + 10.0 == 177.5;
  }

  /** Rank: one pass over the candidates, then the sort. */
  method Rank(s: Store, user: Id, candidates: seq<Id>) returns (result: seq<Entry>)
    ensures result == Ranked(s, user, candidates)
  {
    var source := Source(s, user);
    result := [];
    for i := 0 to |candidates|
      invariant result == Listed(s, user, candidates[..i])
    {
      var id := candidates[i];
      assert candidates[..i + 1][..i] == candidates[..i];
      if id == 0 || id == user { continue; }
      if id !in s.profiles || !s.profiles[id].enabled {
        result := result + [Entry(id, 10.0)];
        continue;
      }
      var candidate := s.profiles[id];
      var first := ComputeOverlap(source.avoid, candidate.interests);
      var second := ComputeOverlap(candidate.avoid, source.interests);
      if first > 0.0 || second > 0.0 { continue; }
      var interests := ComputeOverlap(source.interests, candidate.interests);
      var languages := ComputeOverlap(source.languages, candidate.languages);
      var score := interests * 40.0 + languages * 20.0 + Reputation(s, id) * 15.0;
      if source.goal != "" && source.goal == candidate.goal { score := score + 15.0; }
      score := score + 10.0;
      result := result + [Entry(id, Rounded(score))];
    }
    assert candidates[..|candidates|] == candidates;
    result := SortByScore(result);
  }
}
