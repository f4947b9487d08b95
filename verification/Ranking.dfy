/** Match candidates: normalized topic lists, their overlap, and the ranking. Scores are reals. */
module Ranking {
  import opened Text
  import opened Names
  import opened Search

  // ---------- normalized lists ----------

  /** The folded nonempty values in order of first appearance, cut when there are max of them; a max
      below one never cuts. */
  function Kept(values: seq<string>, max: int): seq<string> {
    if values == [] then []
    else
      var kept, value := Kept(values[..|values| - 1], max), Fold(values[|values| - 1]);
      if (max > 0 && |kept| == max) || value == "" || value in kept then kept else kept + [value]
  }

  function Sort(values: seq<string>): seq<string> {
    if values == [] then [] else Insert(Sort(values[..|values| - 1]), values[|values| - 1])
  }

  function Normalized(values: seq<string>, max: int): seq<string> { Sort(Kept(values, max)) }

  ghost predicate Unique(s: seq<string>) { forall i, j :: 0 <= i < j < |s| ==> s[i] != s[j] }

  lemma {:induction false} KeptIs(values: seq<string>, max: int)
    ensures Unique(Kept(values, max)) && (max > 0 ==> |Kept(values, max)| <= max)
    ensures forall x :: x in Kept(values, max) ==> x != "" && exists v :: v in values && Fold(v) == x
    ensures max <= 0 || |Kept(values, max)| < max ==>
              forall v :: v in values && Fold(v) != "" ==> Fold(v) in Kept(values, max)
  {
    if values != [] {
      var init, last := values[..|values| - 1], values[|values| - 1];
      KeptIs(init, max);
      assert values == init + [last];
      forall x | x in Kept(values, max) ensures x != "" && exists v :: v in values && Fold(v) == x {
        if x in Kept(init, max) {
          var v :| v in init && Fold(v) == x;
          assert v in values;
        } else {
          assert last in values && Fold(last) == x;
        }
      }
    }
  }

  /** The different nonempty values folded. */
  function Folds(values: seq<string>): set<string> { set v | v in values && Fold(v) != "" :: Fold(v) }

  lemma FoldsSnoc(init: seq<string>, last: string)
    ensures Folds(init + [last]) == if Fold(last) == "" then Folds(init) else Folds(init) + {Fold(last)}
  {
    assert forall v :: v in init + [last] <==> v in init || v == last;
  }

  /** Uncut the kept values are all folded ones, and they are cut only at max of them. */
  predicate Counts(kept: seq<string>, folds: set<string>, max: int) {
    && |kept| == |Elements(kept)| && Elements(kept) <= folds
    && (max <= 0 || |kept| < max ==> Elements(kept) == folds)
    && (max > 0 ==> |kept| == Smaller(|folds|, max))
  }

  /** One more value, kept or not. */
  lemma NextCounts(kept: seq<string>, folds: set<string>, max: int, value: string, longer: seq<string>)
    requires Counts(kept, folds, max) && value != "" && longer == kept + [value]
    ensures value in kept || (max > 0 && |kept| == max) ==> Counts(kept, folds + {value}, max)
    ensures value !in kept && !(max > 0 && |kept| == max) ==> Counts(longer, folds + {value}, max)
  {
    assert Elements(longer) == Elements(kept) + {value};
    if value in kept {
      assert folds + {value} == folds;
    } else {
      Enlarged(Elements(kept), value);
      if max > 0 && |kept| == max {
        if value in folds { assert folds + {value} == folds; } else { Enlarged(folds, value); }
      } else {
        assert value !in folds;
        Enlarged(folds, value);
      }
    }
  }

  lemma Enlarged(s: set<string>, x: string)
    requires x !in s
    ensures |s + {x}| == |s| + 1
  {}

  lemma {:induction false} KeptCount(values: seq<string>, max: int)
    ensures Counts(Kept(values, max), Folds(values), max)
  {
    if values == [] {
      assert Kept(values, max) == [] && Elements([]) == {} && Folds([]) == {};
    } else {
      var init, last := values[..|values| - 1], values[|values| - 1];
      var before := Kept(init, max);
      KeptCount(init, max);
      assert values == init + [last];
      FoldsSnoc(init, last);
      if Fold(last) != "" { NextCounts(before, Folds(init), max, Fold(last), before + [Fold(last)]); }
    }
  }

  function Smaller(a: int, b: int): int { if a < b then a else b }

  /** The value of place i comes among the first max different ones. */
  ghost predicate ComesInTime(values: seq<string>, max: int, x: string, i: nat) {
    i < |values| && Fold(values[i]) == x && (max <= 0 || |Folds(values[..i])| < max)
  }

  /** Which values a cut list keeps: the first max different ones. */
  lemma {:induction false} FirstAreKept(values: seq<string>, max: int, x: string)
    ensures x in Normalized(values, max) <==> x != "" && exists i: nat :: ComesInTime(values, max, x, i)
  {
    SortIs(Kept(values, max));
    FirstAreIn(values, max, x);
  }

  lemma {:induction false} FirstAreIn(values: seq<string>, max: int, x: string)
    ensures x in Kept(values, max) <==> x != "" && exists i: nat :: ComesInTime(values, max, x, i)
  {
    if values != [] {
      var init, last := values[..|values| - 1], values[|values| - 1];
      var n: nat := |init|;
      FirstAreIn(init, max, x);
      KeptCount(init, max);
      assert values == init + [last];
      forall i: nat | i < n ensures ComesInTime(init, max, x, i) <==> ComesInTime(values, max, x, i) {
        assert values[..i] == init[..i];
      }
      assert ComesInTime(values, max, x, n) <==> Fold(last) == x && (max <= 0 || |Folds(init)| < max);
      if x in Kept(init, max) { KeptIs(init, max); }
      if x != "" && Fold(last) == x && x !in Kept(values, max) { assert !ComesInTime(values, max, x, n); }
    }
  }

  lemma {:induction false} SortIs(values: seq<string>)
    ensures Sorted(Sort(values)) && forall x :: x in Sort(values) <==> x in values
  {
    if values != [] {
      var init, last := values[..|values| - 1], values[|values| - 1];
      SortIs(init);
      InsertKeepsSorted(Sort(init), last);
      assert values == init + [last];
      forall x ensures x in Sort(values) <==> x in values { InsertAdds(Sort(init), last, x); }
    }
  }

  lemma {:induction false} InsertLength(s: seq<string>, m: string)
    requires m !in s
    ensures |Insert(s, m)| == |s| + 1
  {
    if s != [] && !Less(m, s[0]) { InsertLength(s[1..], m); }
  }

  lemma {:induction false} SortLength(values: seq<string>)
    requires Unique(values)
    ensures |Sort(values)| == |values|
  {
    if values != [] {
      SortLength(values[..|values| - 1]);
      SortIs(values[..|values| - 1]);
      InsertLength(Sort(values[..|values| - 1]), values[|values| - 1]);
    }
  }

  lemma SortedIsUnique(s: seq<string>)
    requires Sorted(s)
    ensures Unique(s)
  {
    forall i, j | 0 <= i < j < |s| ensures s[i] != s[j] { LessIrreflexive(s[i]); }
  }

  lemma {:induction false} InsertLast(s: seq<string>, m: string)
    requires forall i :: 0 <= i < |s| ==> Less(s[i], m)
    ensures Insert(s, m) == s + [m]
  {
    if s != [] {
      assert Less(s[0], m);
      if Less(m, s[0]) { LessTransitive(s[0], m, s[0]); }
      LessIrreflexive(s[0]);
      InsertLast(s[1..], m);
      assert s == [s[0]] + s[1..];
    }
  }

  lemma {:induction false} SortOfSorted(s: seq<string>)
    requires Sorted(s)
    ensures Sort(s) == s
  {
    if s != [] {
      SortOfSorted(s[..|s| - 1]);
      InsertLast(s[..|s| - 1], s[|s| - 1]);
    }
  }

  lemma FoldIsIdempotent(s: string)
    ensures Fold(Fold(s)) == Fold(s)
  {
    var t, f := Trim(s), Fold(s);
    TrimLeftKeeps(s);
    TrimRightKeeps(TrimLeft(s));
    assert t == "" || (!IsSpace(t[0]) && !IsSpace(t[|t| - 1]));
    assert TrimLeft(f) == f && TrimRight(f) == f;
    assert Lower(f) == f;
  }

  lemma {:induction false} KeptOfKept(s: seq<string>, max: int)
    requires Unique(s) && (max > 0 ==> |s| <= max) && forall x :: x in s ==> x != "" && Fold(x) == x
    ensures Kept(s, max) == s
  {
    if s != [] {
      var init, last := s[..|s| - 1], s[|s| - 1];
      assert last in s && s == init + [last];
      forall x | x in init ensures x != "" && Fold(x) == x { assert x in s; }
      KeptOfKept(init, max);
    }
  }

  /** Normalizing gives a strictly sorted list of at most max folded values, all of them unless it
      was cut, and normalizing again changes nothing. */
  lemma NormalizeIsStable(values: seq<string>, max: int)
    ensures var r := Normalized(values, max);
            && Sorted(r) && Unique(r) && (max > 0 ==> |r| <= max)
            && (forall x :: x in r ==> x != "" && exists v :: v in values && Fold(v) == x)
            && (max <= 0 || |r| < max ==> forall v :: v in values && Fold(v) != "" ==> Fold(v) in r)
            && Normalized(r, max) == r
  {
    var kept := Kept(values, max);
    KeptIs(values, max);
    SortIs(kept);
    SortLength(kept);
    var r := Normalized(values, max);
    SortedIsUnique(r);
    forall x | x in r ensures Fold(x) == x {
      assert x in kept;
      var v :| v in values && Fold(v) == x;
      FoldIsIdempotent(v);
    }
    KeptOfKept(r, max);
    SortOfSorted(r);
  }

  /** normalize: a loop over the values with a set of those seen, then a sort. */
  method Normalize(values: seq<string>, max: int) returns (result: seq<string>)
    ensures result == Normalized(values, max)
  {
    var seen: set<string> := {};
    result := [];
    var i := 0;
    while i < |values|
      invariant 0 <= i <= |values|
      invariant result == Kept(values[..i], max) && !(max > 0 && |result| == max)
      invariant forall x :: x in seen <==> x in result
    {
      var value := Fold(values[i]);
      assert values[..i + 1][..i] == values[..i];
      i := i + 1;
      if value == "" || value in seen { continue; }
      seen := seen + {value};
      result := result + [value];
      if |result| == max {
        CutStays(values, max, i);
        break;
      }
    }
    assert values[..|values|] == values;
    result := Sort(result);
  }

  lemma {:induction false} CutStays(values: seq<string>, max: int, n: nat)
    requires n <= |values| && max > 0 && |Kept(values[..n], max)| == max
    ensures Kept(values, max) == Kept(values[..n], max)
    decreases |values| - n
  {
    if n == |values| {
      assert values[..n] == values;
    } else {
      assert values[..n + 1][..n] == values[..n];
      CutStays(values, max, n + 1);
    }
  }

  // ---------- overlap ----------

  function Elements(s: seq<string>): set<string> { set x | x in s }

  /** The counted hits over the size of the union. */
  function Overlap(a: seq<string>, b: seq<string>): real {
    if a == [] || b == [] then 0.0
    else
      SomeElement(a, b);
      (|b| - |Elements(b) - Elements(a)|) as real / |Elements(a) + Elements(b)| as real
  }

  function Jaccard(a: seq<string>, b: seq<string>): real
    requires a != [] || b != []
  {
    SomeElement(a, b);
    |Elements(a) * Elements(b)| as real / |Elements(a) + Elements(b)| as real
  }

  lemma SomeElement(a: seq<string>, b: seq<string>)
    requires a != [] || b != []
    ensures |Elements(a) + Elements(b)| > 0
  {
    var x := if a != [] then a[0] else b[0];
    assert x in Elements(a) + Elements(b);
  }

  lemma {:induction false} ElementCount(s: seq<string>)
    ensures |Elements(s)| <= |s|
    ensures |Elements(s)| == |s| <==> Unique(s)
  {
    if s == [] {
      assert Elements(s) == {};
    } else {
      var init, last := s[..|s| - 1], s[|s| - 1];
      ElementCount(init);
      assert s == init + [last];
      assert Elements(s) == Elements(init) + {last};
      if last in init {
        var i :| 0 <= i < |init| && init[i] == last;
        assert s[i] == s[|s| - 1];
        assert Elements(s) == Elements(init);
      } else {
        assert Unique(s) <==> Unique(init);
      }
    }
  }

  lemma Parts(a: set<string>, b: set<string>)
    ensures |b| == |a * b| + |b - a|
    ensures |a + b| == |a| + |b| - |a * b|
  {
    assert b == (a * b) + (b - a);
    assert a + b == a + (b - a);
  }

  lemma SameRatio(n: int, m: int, d: int)
    requires d > 0
    ensures n as real / d as real == m as real / d as real <==> n == m
  {
    var x, y := n as real / d as real, m as real / d as real;
    assert x * d as real == n as real && y * d as real == m as real;
  }

  /** Of nonempty lists the overlap is their Jaccard ratio exactly when the second has no duplicates. */
  lemma OverlapIsJaccardExactlyWhen(a: seq<string>, b: seq<string>)
    requires a != [] && b != []
    ensures Overlap(a, b) == Jaccard(a, b) <==> Unique(b)
  {
    SomeElement(a, b);
    Parts(Elements(a), Elements(b));
    ElementCount(b);
    SameRatio(|b| - |Elements(b) - Elements(a)|, |Elements(a) * Elements(b)|, |Elements(a) + Elements(b)|);
  }

  /** On duplicate-free lists it is symmetric and between 0 and 1. */
  lemma OverlapOfUnique(a: seq<string>, b: seq<string>)
    requires Unique(a) && Unique(b)
    ensures Overlap(a, b) == Overlap(b, a) && 0.0 <= Overlap(a, b) <= 1.0
  {
    if a != [] && b != [] {
      OverlapIsJaccardExactlyWhen(a, b);
      OverlapIsJaccardExactlyWhen(b, a);
      assert Elements(a) * Elements(b) == Elements(b) * Elements(a)
          && Elements(a) + Elements(b) == Elements(b) + Elements(a);
      SomeElement(a, b);
      Parts(Elements(a), Elements(b));
      Fraction(|Elements(a) * Elements(b)|, |Elements(a) + Elements(b)|);
    }
  }

  lemma Fraction(n: int, d: int)
    requires 0 <= n <= d && d > 0
    ensures 0.0 <= n as real / d as real <= 1.0
  {
    var x := n as real / d as real;
    assert x * d as real == n as real;
  }

  lemma PositiveRatio(n: int, d: int)
    requires d > 0
    ensures n as real / d as real > 0.0 <==> n > 0
  {
    var x := n as real / d as real;
    assert x * d as real == n as real;
  }

  /** Two nonempty lists overlap exactly when they share a value, or the second repeats one. */
  lemma OverlapPositiveExactlyWhen(a: seq<string>, b: seq<string>)
    requires a != [] && b != []
    ensures Overlap(a, b) > 0.0 <==> (exists x :: x in a && x in b) || !Unique(b)
  {
    SomeElement(a, b);
    Parts(Elements(a), Elements(b));
    ElementCount(b);
    PositiveRatio(|b| - |Elements(b) - Elements(a)|, |Elements(a) + Elements(b)|);
    if |Elements(a) * Elements(b)| > 0 {
      var x :| x in Elements(a) * Elements(b);
      assert x in a && x in b;
    }
    if x :| x in a && x in b { assert x in Elements(a) * Elements(b); }
  }

  lemma NextElement(s: seq<string>, i: nat)
    requires i < |s|
    ensures Elements(s[..i + 1]) == Elements(s[..i]) + {s[i]}
  {
    assert s[..i + 1] == s[..i] + [s[i]];
  }

  /** What one more value of b adds to those outside a. */
  lemma NextOutside(a: set<string>, before: set<string>, x: string)
    ensures |(before + {x}) - a| == |before - a| + (if x in a + before then 0 else 1)
  {
    if x in a + before {
      assert (before + {x}) - a == before - a;
    } else {
      assert (before + {x}) - a == (before - a) + {x};
    }
  }

  /** overlap's first loop. */
  method Collect(a: seq<string>) returns (union: set<string>)
    ensures union == Elements(a)
  {
    union := {};
    for i := 0 to |a|
      invariant union == Elements(a[..i])
    {
      NextElement(a, i);
      union := union + {a[i]};
    }
    assert a[..|a|] == a;
  }

  /** Its second loop: a value counts when it is already in the union, which it then joins. */
  method CountHits(first: set<string>, b: seq<string>) returns (union: set<string>, hits: int)
    ensures union == first + Elements(b) && hits == |b| - |Elements(b) - first|
  {
    union, hits := first, 0;
    ghost var before: set<string> := {};
    for i := 0 to |b|
      invariant before == Elements(b[..i])
      invariant union == first + before
      invariant hits == i - |before - first|
    {
      NextElement(b, i);
      NextOutside(first, before, b[i]);
      if b[i] in union { hits := hits + 1; }
      union := union + {b[i]};
      before := before + {b[i]};
    }
    assert b[..|b|] == b;
  }

  /** overlap */
  method ComputeOverlap(a: seq<string>, b: seq<string>) returns (r: real)
    ensures r == Overlap(a, b)
  {
    if |a| == 0 || |b| == 0 { return 0.0; }
    var union := Collect(a);
    var intersection;
    union, intersection := CountHits(union, b);
    SomeElement(a, b);
    r := intersection as real / |union| as real;
  }
}
