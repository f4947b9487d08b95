/** The Redis token bucket: one Lua script per call, two keys that expire together. */
module RateLimit {
  import opened Basics

  /** Tokens per second, capacity, and the whole seconds the keys live. */
  datatype Limits = Limits(rate: int, burst: int, ttl: int) {
    predicate Valid() { rate >= 0 && burst >= 0 && ttl >= 1 }
  }

  /** A Redis key with its deadline in milliseconds; a deadline of None never passes. */
  datatype Entry = Entry(value: int, deadline: Option<int>)

  datatype Keys = Keys(tokens: Option<Entry>, stamp: Option<Entry>)

  const ABSENT := Keys(None, None)

  datatype Call = Call(ms: int, requested: int) {
    /** now.Unix() */
    function Second(): int { ms / 1000 }
  }

  /** GET of a key that may have expired. */
  function Get(e: Option<Entry>, ms: int, default: int): int {
    if e.Some? && (e.value.deadline.Some? ==> ms < e.value.deadline.value) then e.value.value else default
  }

  /** The tokens there are before the request is served. */
  function Filled(l: Limits, k: Keys, c: Call): int {
    Min(l.burst, Get(k.tokens, c.ms, l.burst) + Max(0, c.Second() - Get(k.stamp, c.ms, 0)) * l.rate)
  }

  function Allowed(l: Limits, k: Keys, c: Call): bool { Filled(l, k, c) >= c.requested }

  function Left(l: Limits, k: Keys, c: Call): int { Filled(l, k, c) - (if Allowed(l, k, c) then c.requested else 0) }

  function Saved(l: Limits, k: Keys, c: Call, expiring: bool): Keys {
    var deadline := if expiring then Some(c.ms + l.ttl * 1000) else None;
    Keys(Some(Entry(Left(l, k, c), deadline)), Some(Entry(c.Second(), deadline)))
  }

  function Decisions(l: Limits, k: Keys, calls: seq<Call>, expiring: bool): seq<bool>
    decreases |calls|
  {
    if calls == [] then []
    else [Allowed(l, k, calls[0])] + Decisions(l, Saved(l, k, calls[0], expiring), calls[1..], expiring)
  }

  /** The tokens granted by the calls whose second lies in [from, to]. */
  function Granted(l: Limits, k: Keys, calls: seq<Call>, expiring: bool, from: int, to: int): int
    decreases |calls|
  {
    if calls == [] then 0
    else (if Allowed(l, k, calls[0]) && from <= calls[0].Second() <= to then calls[0].requested else 0)
         + Granted(l, Saved(l, k, calls[0], expiring), calls[1..], expiring, from, to)
  }

  ghost predicate InOrder(calls: seq<Call>) { forall i, j :: 0 <= i < j < |calls| ==> calls[i].ms <= calls[j].ms }

  lemma OneMore(l: Limits, k: Keys, c: Call, expiring: bool, from: int, to: int)
    ensures Decisions(l, k, [c], expiring) == [Allowed(l, k, c)]
    ensures Granted(l, k, [c], expiring, from, to) ==
            (if Allowed(l, k, c) && from <= c.Second() <= to then c.requested else 0)
  {
    assert [c][1..] == [];
  }

  // ---------- the bound ----------

  lemma ScaleUp(a: int, b: int, rate: int)
    requires rate >= 0 && a <= b
    ensures a * rate <= b * rate
  {}

  lemma Distribute(a: int, b: int, rate: int)
    ensures (a + b) * rate == a * rate + b * rate
  {}

  lemma {:induction false} AfterTheWindow(l: Limits, k: Keys, calls: seq<Call>, from: int, to: int)
    requires forall i :: 0 <= i < |calls| ==> calls[i].Second() > to
    ensures Granted(l, k, calls, false, from, to) == 0
    decreases |calls|
  {
    if calls != [] { AfterTheWindow(l, Saved(l, k, calls[0], false), calls[1..], from, to); }
  }

  /** Keys that were saved by some call and never expire. */
  ghost predicate Lasting(k: Keys) {
    k.tokens.Some? && k.stamp.Some? && k.tokens.value.deadline == None && k.stamp.value.deadline == None
  }

  lemma LaterCalls(calls: seq<Call>)
    requires InOrder(calls) && calls != []
    ensures InOrder(calls[1..])
    ensures forall i :: 0 <= i < |calls| ==> calls[0].Second() <= calls[i].Second()
    ensures forall i :: 0 <= i < |calls[1..]| ==> calls[0].Second() <= calls[1..][i].Second()
  {
    forall i | 0 <= i < |calls| ensures calls[0].Second() <= calls[i].Second() {
      assert i == 0 || calls[0].ms <= calls[i].ms;
    }
  }

  lemma {:induction false} SpendWhatIsLeft(l: Limits, k: Keys, calls: seq<Call>, from: int, to: int)
    requires l.Valid() && InOrder(calls) && Lasting(k) && k.tokens.value.value >= 0 && k.stamp.value.value <= to
    requires forall i :: 0 <= i < |calls| ==> k.stamp.value.value <= calls[i].Second()
    requires from <= k.stamp.value.value
    ensures Granted(l, k, calls, false, from, to) <= k.tokens.value.value + (to - k.stamp.value.value) * l.rate
    decreases |calls|
  {
    var tokens, stamp := k.tokens.value.value, k.stamp.value.value;
    ScaleUp(0, to - stamp, l.rate);
    if calls != [] {
      var c := calls[0];
      LaterCalls(calls);
      if c.Second() > to {
        AfterTheWindow(l, k, calls, from, to);
      } else {
        SpendWhatIsLeft(l, Saved(l, k, c, false), calls[1..], from, to);
        Distribute(c.Second() - stamp, to - c.Second(), l.rate);
        ScaleUp(0, c.Second() - stamp, l.rate);
      }
    }
  }

  lemma FirstInWindow(l: Limits, k: Keys, calls: seq<Call>, from: int, to: int)
    requires l.Valid() && InOrder(calls) && calls != [] && from <= calls[0].Second() <= to
    requires k == ABSENT || (Lasting(k) && k.tokens.value.value >= 0)
    ensures Granted(l, k, calls, false, from, to) <= l.burst + l.rate * (to - from)
  {
    var c := calls[0];
    FilledNonnegative(l, k, c);
    LaterCalls(calls);
    var later := Granted(l, Saved(l, k, c, false), calls[1..], false, from, to);
    SpendWhatIsLeft(l, Saved(l, k, c, false), calls[1..], from, to);
    AddUp(l, Filled(l, k, c) - Left(l, k, c), Left(l, k, c), later, c.Second(), from, to);
  }

  lemma AddUp(l: Limits, first: int, left: int, later: int, second: int, from: int, to: int)
    requires l.Valid() && first + left <= l.burst && from <= second <= to && later <= left + (to - second) * l.rate
    ensures first + later <= l.burst + l.rate * (to - from)
  {
    ScaleUp(to - second, to - from, l.rate);
  }

  /** Whatever the bucket held, calls in time order get at most burst + rate * (to - from) tokens in
      the seconds [from, to]. */
  lemma {:induction false} NeverMoreThanBurstPlusRate(l: Limits, k: Keys, calls: seq<Call>, from: int, to: int)
    requires l.Valid() && InOrder(calls) && from <= to
    requires k == ABSENT || (Lasting(k) && k.tokens.value.value >= 0)
    ensures Granted(l, k, calls, false, from, to) <= l.burst + l.rate * (to - from)
    decreases |calls|
  {
    var bound := l.burst + l.rate * (to - from);
    assert bound >= 0 by { ScaleUp(0, to - from, l.rate); }
    if calls == [] {
    } else if calls[0].Second() > to {
      LaterCalls(calls);
      AfterTheWindow(l, k, calls, from, to);
    } else if calls[0].Second() < from {
      LaterCalls(calls);
      SavedLasts(l, k, calls[0]);
      NeverMoreThanBurstPlusRate(l, Saved(l, k, calls[0], false), calls[1..], from, to);
      assert Granted(l, k, calls, false, from, to) ==
          Granted(l, Saved(l, k, calls[0], false), calls[1..], false, from, to);
    } else {
      FirstInWindow(l, k, calls, from, to);
    }
  }

  lemma SavedLasts(l: Limits, k: Keys, c: Call)
    requires l.Valid() && (k == ABSENT || (Lasting(k) && k.tokens.value.value >= 0))
    ensures Lasting(Saved(l, k, c, false)) && Saved(l, k, c, false).tokens.value.value >= 0
  {
    FilledNonnegative(l, k, c);
  }

  lemma FilledNonnegative(l: Limits, k: Keys, c: Call)
    requires l.Valid() && (k == ABSENT || (Lasting(k) && k.tokens.value.value >= 0))
    ensures 0 <= Filled(l, k, c) <= l.burst && Left(l, k, c) >= 0
  {
    ScaleUp(0, Max(0, c.Second() - Get(k.stamp, c.ms, 0)), l.rate);
  }

  // ---------- the exact decision ----------

  /** The tokens asked for by the granted ones among calls j .. i - 1. */
  function Taken(calls: seq<Call>, granted: seq<bool>, j: nat, i: nat): int
    requires i <= |calls| == |granted|
    decreases i
  {
    if i <= j then 0 else Taken(calls, granted, j, i - 1) + if granted[i - 1] then calls[i - 1].requested else 0
  }

  /** Since call j, the request and what was granted meanwhile fit what a full bucket gives and refills. */
  predicate FitsSince(l: Limits, calls: seq<Call>, granted: seq<bool>, j: nat, i: nat)
    requires j <= i < |calls| == |granted|
  {
    calls[i].requested + Taken(calls, granted, j, i) <= l.burst + l.rate * (calls[i].ms / 1000 - calls[j].ms / 1000)
  }

  predicate Fits(l: Limits, calls: seq<Call>, granted: seq<bool>, i: nat)
    requires i < |calls| == |granted|
  {
    forall j: nat :: j <= i ==> FitsSince(l, calls, granted, j, i)
  }

  /** And what the bucket held at the start, which was last served at second `stamp`. */
  predicate FitsStart(l: Limits, tokens: int, stamp: int, calls: seq<Call>, granted: seq<bool>, i: nat)
    requires i < |calls| == |granted|
  {
    calls[i].requested + Taken(calls, granted, 0, i) <= tokens + l.rate * (calls[i].Second() - stamp)
  }

  lemma {:induction false} DecisionsLength(l: Limits, k: Keys, calls: seq<Call>, expiring: bool)
    ensures |Decisions(l, k, calls, expiring)| == |calls|
    decreases |calls|
  {
    if calls != [] { DecisionsLength(l, Saved(l, k, calls[0], expiring), calls[1..], expiring); }
  }

  lemma {:induction false} TakenShifts(calls: seq<Call>, granted: seq<bool>, j: nat, i: nat)
    requires 1 <= i <= |calls| == |granted|
    ensures j >= 1 ==> Taken(calls, granted, j, i) == Taken(calls[1..], granted[1..], j - 1, i - 1)
    ensures Taken(calls, granted, 0, i) ==
              (if granted[0] then calls[0].requested else 0) + Taken(calls[1..], granted[1..], 0, i - 1)
    decreases i
  {
    if i > 1 { TakenShifts(calls, granted, j, i - 1); }
  }

  /** The conditions since the later calls are those of the calls after the first. */
  lemma FitsRest(l: Limits, calls: seq<Call>, granted: seq<bool>, i: nat)
    requires 1 <= i < |calls| == |granted|
    ensures Fits(l, calls, granted, i) <==>
              FitsSince(l, calls, granted, 0, i) && Fits(l, calls[1..], granted[1..], i - 1)
  {
    var rest, more := calls[1..], granted[1..];
    var n: nat := i - 1;
    forall j: nat | 1 <= j <= i ensures FitsSince(l, calls, granted, j, i) <==> FitsSince(l, rest, more, j - 1, n) {
      TakenShifts(calls, granted, j, i);
    }
    if Fits(l, calls, granted, i) {
      forall j: nat | j <= n ensures FitsSince(l, rest, more, j, n) {
        assert FitsSince(l, calls, granted, j + 1, i);
      }
    }
    if FitsSince(l, calls, granted, 0, i) && Fits(l, rest, more, n) {
      forall j: nat | j <= i ensures FitsSince(l, calls, granted, j, i) {
        if j > 0 { assert FitsSince(l, rest, more, j - 1, n); }
      }
    }
  }

  /** Refilling from the stamp to now is refilling to the first call and from it on. */
  lemma RefillsAddUp(rate: int, burst: int, tokens: int, stamp: int, first: int, now: int, left: int, took: int,
      asked: int)
    requires left == Min(burst, tokens + rate * (first - stamp)) - took
    ensures asked <= left + rate * (now - first) <==>
              asked + took <= tokens + rate * (now - stamp) && asked + took <= burst + rate * (now - first)
  {
    Distribute(first - stamp, now - first, rate);
  }

  /** Their bucket starts from the smaller of a full one and the refilled one, less what the first took. */
  lemma FitsShift(l: Limits, tokens: int, stamp: int, calls: seq<Call>, granted: seq<bool>, i: nat, left: int)
    requires 1 <= i < |calls| == |granted|
    requires left == Min(l.burst, tokens + l.rate * (calls[0].Second() - stamp))
                     - (if granted[0] then calls[0].requested else 0)
    ensures FitsStart(l, tokens, stamp, calls, granted, i) && Fits(l, calls, granted, i) <==>
              FitsStart(l, left, calls[0].Second(), calls[1..], granted[1..], i - 1)
              && Fits(l, calls[1..], granted[1..], i - 1)
  {
    FitsRest(l, calls, granted, i);
    TakenShifts(calls, granted, 0, i);
    RefillsAddUp(l.rate, l.burst, tokens, stamp, calls[0].Second(), calls[i].Second(), left,
                 if granted[0] then calls[0].requested else 0,
                 calls[i].requested + Taken(calls[1..], granted[1..], 0, i - 1));
  }

  lemma FirstFits(l: Limits, tokens: int, stamp: int, calls: seq<Call>, granted: seq<bool>)
    requires calls != [] && |calls| == |granted|
    ensures FitsStart(l, tokens, stamp, calls, granted, 0) && Fits(l, calls, granted, 0) <==>
              calls[0].requested <= Min(l.burst, tokens + l.rate * (calls[0].Second() - stamp))
  {
    assert FitsSince(l, calls, granted, 0, 0) <==> calls[0].requested <= l.burst;
  }

  lemma {:induction false} DecidesFrom(l: Limits, k: Keys, calls: seq<Call>, i: nat)
    requires l.Valid() && InOrder(calls) && Lasting(k) && i < |calls|
    requires forall j :: 0 <= j < |calls| ==> k.stamp.value.value <= calls[j].Second()
    ensures var d := Decisions(l, k, calls, false);
            && |d| == |calls|
            && (d[i] <==> FitsStart(l, k.tokens.value.value, k.stamp.value.value, calls, d, i) && Fits(l, calls, d, i))
    decreases |calls|
  {
    var d, c := Decisions(l, k, calls, false), calls[0];
    var tokens, stamp := k.tokens.value.value, k.stamp.value.value;
    DecisionsLength(l, k, calls, false);
    assert Filled(l, k, c) == Min(l.burst, tokens + l.rate * (c.Second() - stamp));
    if i == 0 {
      FirstFits(l, tokens, stamp, calls, d);
    } else {
      var k2 := Saved(l, k, c, false);
      LaterCalls(calls);
      DecidesFrom(l, k2, calls[1..], i - 1);
      assert d[1..] == Decisions(l, k2, calls[1..], false);
      FitsShift(l, tokens, stamp, calls, d, i, Left(l, k, c));
    }
  }

  /** From an unused bucket, calls in time order: each is granted exactly when for every call up to it the
      request, with all that was granted from that call on, is at most the burst plus the refill since. */
  lemma GrantedExactlyWhen(l: Limits, calls: seq<Call>, i: nat)
    requires l.Valid() && InOrder(calls) && i < |calls|
    ensures var d := Decisions(l, ABSENT, calls, false);
            |d| == |calls| && (d[i] <==> Fits(l, calls, d, i))
  {
    var d, c := Decisions(l, ABSENT, calls, false), calls[0];
    var k2 := Saved(l, ABSENT, c, false);
    DecisionsLength(l, ABSENT, calls, false);
    ScaleUp(0, Max(0, c.Second()), l.rate);
    assert Filled(l, ABSENT, c) == l.burst;
    assert l.rate * (c.Second() - c.Second()) == 0;
    FirstFits(l, l.burst, c.Second(), calls, d);
    if i == 0 {
      assert FitsSince(l, calls, d, 0, 0) == FitsStart(l, l.burst, c.Second(), calls, d, 0);
    } else {
      LaterCalls(calls);
      DecidesFrom(l, k2, calls[1..], i - 1);
      assert d[1..] == Decisions(l, k2, calls[1..], false);
      FitsShift(l, l.burst, c.Second(), calls, d, i, Left(l, ABSENT, c));
      assert FitsStart(l, l.burst, c.Second(), calls, d, i) == FitsSince(l, calls, d, 0, i);
    }
  }

  // ---------- expiry ----------

  /** The expiring keys hold what the lasting ones hold, under one common deadline. */
  ghost predicate Matches(l: Limits, k: Keys, e: Keys) {
    (k == ABSENT && e == ABSENT) ||
    (Lasting(k) && k.tokens.value.value >= 0 && e.tokens.Some? && e.stamp.Some? &&
     e.tokens.value.value == k.tokens.value.value && e.stamp.value.value == k.stamp.value.value &&
     e.tokens.value.deadline == e.stamp.value.deadline && e.tokens.value.deadline.Some? &&
     e.tokens.value.deadline.value / 1000 == k.stamp.value.value + l.ttl)
  }

  lemma ExpiryFillsUp(l: Limits, k: Keys, e: Keys, c: Call)
    requires l.Valid() && l.rate * l.ttl >= l.burst && Matches(l, k, e)
    ensures Filled(l, k, c) == Filled(l, e, c)
  {
    if k != ABSENT && c.ms >= e.tokens.value.deadline.value {
      assert c.Second() >= k.stamp.value.value + l.ttl;
      ScaleUp(l.ttl, c.Second() - k.stamp.value.value, l.rate);
      ScaleUp(0, Max(0, c.Second()), l.rate);
    }
  }

  lemma {:induction false} SameDecisions(l: Limits, k: Keys, e: Keys, calls: seq<Call>, from: int, to: int)
    requires l.Valid() && l.rate * l.ttl >= l.burst && Matches(l, k, e)
    ensures Decisions(l, k, calls, false) == Decisions(l, e, calls, true)
    ensures Granted(l, k, calls, false, from, to) == Granted(l, e, calls, true, from, to)
    decreases |calls|
  {
    if calls != [] {
      var c := calls[0];
      ExpiryFillsUp(l, k, e, c);
      FilledNonnegative(l, k, c);
      assert (c.ms + l.ttl * 1000) / 1000 == c.Second() + l.ttl;
      SameDecisions(l, Saved(l, k, c, false), Saved(l, e, c, true), calls[1..], from, to);
    }
  }

  /** Letting the keys expire changes no decision of any call sequence exactly when
      rate * ttl >= burst. */
  lemma ExpiryIsHarmlessExactlyWhen(l: Limits)
    requires l.Valid()
    ensures (forall calls :: InOrder(calls) ==> Decisions(l, ABSENT, calls, false) == Decisions(l, ABSENT, calls, true))
              <==> l.rate * l.ttl >= l.burst
  {
    if l.rate * l.ttl >= l.burst {
      forall calls | InOrder(calls) ensures Decisions(l, ABSENT, calls, false) == Decisions(l, ABSENT, calls, true) {
        SameDecisions(l, ABSENT, ABSENT, calls, 0, 0);
      }
    } else {
      var calls := [Call(0, l.burst), Call(l.ttl * 1000, l.burst)];
      DrainTwice(l, calls);
      assert InOrder(calls);
    }
  }

  lemma DrainTwice(l: Limits, calls: seq<Call>)
    requires l.Valid() && l.rate * l.ttl < l.burst && calls == [Call(0, l.burst), Call(l.ttl * 1000, l.burst)]
    ensures Decisions(l, ABSENT, calls, false) == [true, false]
    ensures Decisions(l, ABSENT, calls, true) == [true, true]
    ensures Granted(l, ABSENT, calls, true, 0, l.ttl) == 2 * l.burst
  {
    var a, b := calls[0], calls[1];
    ScaleUp(0, Max(0, a.Second()), l.rate);
    var k, e := Saved(l, ABSENT, a, false), Saved(l, ABSENT, a, true);
    assert Left(l, ABSENT, a) == 0;
    assert b.Second() == l.ttl && calls[1..] == [b] && [b][1..] == [];
    ScaleUp(0, Max(0, b.Second()), l.rate);
    assert Filled(l, k, b) == l.ttl * l.rate;
    assert Filled(l, e, b) == l.burst;
    OneMore(l, k, b, false, 0, l.ttl);
    OneMore(l, e, b, true, 0, l.ttl);
  }

  /** With rate * ttl >= burst expiring keys give the same exact decision. */
  lemma ExpiringGrantedExactlyWhen(l: Limits, calls: seq<Call>, i: nat)
    requires l.Valid() && l.rate * l.ttl >= l.burst && InOrder(calls) && i < |calls|
    ensures var d := Decisions(l, ABSENT, calls, true);
            |d| == |calls| && (d[i] <==> Fits(l, calls, d, i))
  {
    SameDecisions(l, ABSENT, ABSENT, calls, 0, 0);
    GrantedExactlyWhen(l, calls, i);
  }

  /** The bucket with expiring keys keeps the bound over all call sequences exactly when
      rate * ttl >= burst. */
  lemma ExpiringBoundExactlyWhen(l: Limits)
    requires l.Valid()
    ensures (forall calls, from, to :: InOrder(calls) && from <= to
               ==> Granted(l, ABSENT, calls, true, from, to) <= l.burst + l.rate * (to - from))
              <==> l.rate * l.ttl >= l.burst
  {
    if l.rate * l.ttl >= l.burst {
      forall calls, from, to | InOrder(calls) && from <= to
        ensures Granted(l, ABSENT, calls, true, from, to) <= l.burst + l.rate * (to - from)
      {
        SameDecisions(l, ABSENT, ABSENT, calls, from, to);
        NeverMoreThanBurstPlusRate(l, ABSENT, calls, from, to);
      }
    } else {
      var calls := [Call(0, l.burst), Call(l.ttl * 1000, l.burst)];
      DrainTwice(l, calls);
      assert InOrder(calls);
    }
  }

  /** Callers whose clocks disagree defeat the bound: one late reading moves the stamp back, and the
      next call is refilled for time that was already paid out. */
  lemma BackwardClockDefeatsBound(l: Limits)
    requires l.Valid() && l.rate >= 1 && l.burst >= 1
    ensures var at := l.burst * 1000;
            Granted(l, ABSENT, [Call(at, l.burst), Call(0, l.burst), Call(at, l.burst)], false, l.burst, l.burst) ==
                2 * l.burst > l.burst
  {
    var at := l.burst * 1000;
    var a, b := Call(at, l.burst), Call(0, l.burst);
    var calls := [a, b, a];
    ScaleUp(0, Max(0, a.Second()), l.rate);
    var k := Saved(l, ABSENT, a, false);
    assert Left(l, ABSENT, a) == 0 && Filled(l, k, b) == 0;
    var k2 := Saved(l, k, b, false);
    ScaleUp(1, l.rate, l.burst);
    assert l.burst * l.rate >= l.burst;
    assert Filled(l, k2, a) == l.burst;
    assert calls[1..] == [b, a] && [b, a][1..] == [a];
    OneMore(l, k2, a, false, l.burst, l.burst);
    assert Granted(l, k, [b, a], false, l.burst, l.burst) == Granted(l, k2, [a], false, l.burst, l.burst);
  }

  /** How far the clock readings step back in all, in seconds, from the reading `stamp` on. */
  function StepsBack(stamp: int, calls: seq<Call>): (sum: int)
    ensures sum >= 0
    decreases |calls|
  {
    if calls == [] then 0
    else Max(0, stamp - calls[0].Second()) + StepsBack(calls[0].Second(), calls[1..])
  }

  function Backward(calls: seq<Call>): int { if calls == [] then 0 else StepsBack(calls[0].Second(), calls[1..]) }

  ghost predicate Asking(calls: seq<Call>) { forall i :: 0 <= i < |calls| ==> calls[i].requested >= 0 }

  /** A clock that cannot step back far enough never gets into the window. */
  lemma {:induction false} NeverGetsBack(l: Limits, k: Keys, stamp: int, calls: seq<Call>, from: int, to: int)
    requires stamp - StepsBack(stamp, calls) > to
    ensures Granted(l, k, calls, false, from, to) == 0
    decreases |calls|
  {
    if calls != [] {
      NeverGetsBack(l, Saved(l, k, calls[0], false), calls[0].Second(), calls[1..], from, to);
    }
  }

  /** The refill up to the second s, and from there on, is no more than the refill from the stamp on. */
  lemma RefillsJoin(l: Limits, stamp: int, s: int, back: int, to: int)
    requires l.Valid() && back >= 0 && s - back <= to
    ensures Max(0, s - stamp) * l.rate + Max(0, to - s + back) * l.rate
            <= Max(0, to - stamp + Max(0, stamp - s) + back) * l.rate
  {
    Distribute(Max(0, s - stamp), Max(0, to - s + back), l.rate);
    ScaleUp(Max(0, s - stamp) + Max(0, to - s + back), Max(0, to - stamp + Max(0, stamp - s) + back), l.rate);
  }

  lemma {:induction false} SpendWithStepsBack(l: Limits, k: Keys, calls: seq<Call>, from: int, to: int)
    requires l.Valid() && Lasting(k) && k.tokens.value.value >= 0 && Asking(calls)
    ensures var stamp := k.stamp.value.value;
            Granted(l, k, calls, false, from, to)
            <= k.tokens.value.value + Max(0, to - stamp + StepsBack(stamp, calls)) * l.rate
    decreases |calls|
  {
    var stamp := k.stamp.value.value;
    ScaleUp(0, Max(0, to - stamp + StepsBack(stamp, calls)), l.rate);
    if calls != [] {
      var c, rest := calls[0], calls[1..];
      var s, k2 := c.Second(), Saved(l, k, c, false);
      if s - StepsBack(s, rest) > to {
        NeverGetsBack(l, k2, s, rest, from, to);
      } else {
        SavedLasts(l, k, c);
        SpendWithStepsBack(l, k2, rest, from, to);
        RefillsJoin(l, stamp, s, StepsBack(s, rest), to);
      }
    }
  }

  /** For clocks that step back at will: the bound holds with the sum of all backward steps added to the
      length of the window. */
  lemma {:induction false} BoundWithBackwardClocks(l: Limits, k: Keys, calls: seq<Call>, from: int, to: int)
    requires l.Valid() && from <= to && Asking(calls) && (k == ABSENT || (Lasting(k) && k.tokens.value.value >= 0))
    ensures Granted(l, k, calls, false, from, to) <= l.burst + (to - from + Backward(calls)) * l.rate
    decreases |calls|
  {
    ScaleUp(0, to - from + Backward(calls), l.rate);
    if calls != [] {
      var c, rest := calls[0], calls[1..];
      var k2 := Saved(l, k, c, false);
      SavedLasts(l, k, c);
      FilledNonnegative(l, k, c);
      if Allowed(l, k, c) && from <= c.Second() <= to {
        SpendWithStepsBack(l, k2, rest, from, to);
        ScaleUp(Max(0, to - c.Second() + Backward(calls)), to - from + Backward(calls), l.rate);
      } else {
        BoundWithBackwardClocks(l, k2, rest, from, to);
        ScaleUp(to - from + Backward(rest), to - from + Backward(calls), l.rate);
      }
    }
  }

  // ---------- the code's own form ----------

  class RateLimiter {
    const limits: Limits
    var tokens: Option<Entry>
    var stamp: Option<Entry>

    constructor (limits: Limits)
      ensures this.limits == limits && tokens == None && stamp == None
    {
      this.limits := limits;
      tokens, stamp := None, None;
    }

    /** reserveN for one key. SETEX refuses a lifetime below one second, which fails the script. */
    method ReserveN(ms: int, requested: int) returns (ok: bool, left: int, failed: bool)
      modifies this
      ensures failed == (limits.ttl < 1)
      ensures failed ==> !ok && tokens == old(tokens) && stamp == old(stamp)
      ensures !failed ==>
                var k, c := old(Keys(tokens, stamp)), Call(ms, requested);
                ok == Allowed(limits, k, c) && left == Left(limits, k, c)
                    && Keys(tokens, stamp) == Saved(limits, k, c, true)
    {
      var now := ms / 1000;
      var lastTokens := Get(tokens, ms, limits.burst);
      var lastRefreshed := Get(stamp, ms, 0);
      var delta := Max(0, now - lastRefreshed);
      var filled := Min(limits.burst, lastTokens + delta * limits.rate);
      ok := filled >= requested;
      left := filled;
      if ok { left := filled - requested; }
      failed := limits.ttl < 1;
      if failed { return false, 0, true; }
      tokens := Some(Entry(left, Some(ms + limits.ttl * 1000)));
      stamp := Some(Entry(now, Some(ms + limits.ttl * 1000)));
    }
  }
}
