/** Usernames, handles, their unique keys, and the handles Signup generates. */
module Names {
  import opened Basics
  import opened Text

  /** The Redis keys of unique claims. */
  datatype Key = NameKey(text: string) | HandleKey(text: string)

  function UsernameKey(username: string): Key { NameKey(Lower(Trim(username))) }
  function KeyOfHandle(handle: string): Key { HandleKey(Lower(DropAt(Trim(handle)))) }

  predicate NameChar(c: char) { 'a' <= c <= 'z' || '0' <= c <= '9' || c == '_' }

  /** ^[a-z0-9_]{3,30}$ */
  predicate WellFormed(s: string) { 3 <= |s| <= 30 && forall i :: 0 <= i < |s| ==> NameChar(s[i]) }

  /** NormalizeUsername */
  function Normalize(raw: string): (r: Option<string>)
    ensures r.Some? ==> WellFormed(r.value)
  {
    var s := Lower(Trim(DropAt(raw)));
    if WellFormed(s) then Some(s) else None
  }

  /** The core is the name, letter by letter in either case. */
  predicate SameButCase(core: string, name: string) {
    && |core| == |name|
    && forall i :: 0 <= i < |core| ==>
         core[i] == name[i] || ('A' <= core[i] <= 'Z' && name[i] as int == core[i] as int + 32)
  }

  lemma WellFormedIsItsOwnKey(s: string)
    requires WellFormed(s)
    ensures UsernameKey(s) == NameKey(s) && KeyOfHandle(s) == HandleKey(s)
  {
    assert NameChar(s[0]) && NameChar(s[|s| - 1]);
    assert TrimLeft(s) == s && TrimRight(s) == s;
    forall i | 0 <= i < |s| ensures Lower(s)[i] == s[i] { assert NameChar(s[i]); }
    assert Lower(s) == s;
  }

  predicate AllSpaces(s: string) { forall i :: 0 <= i < |s| ==> s[i] == ' ' || 9 <= s[i] as int <= 13 }

  lemma SpacesJoin(a: string, b: string)
    requires AllSpaces(a) && AllSpaces(b)
    ensures AllSpaces(a + b)
  {}

  lemma {:induction false} TrimLeftSplits(s: string) returns (pre: string)
    ensures s == pre + TrimLeft(s) && AllSpaces(pre)
  {
    if s != [] && IsSpace(s[0]) {
      var rest := TrimLeftSplits(s[1..]);
      pre := OneMoreBefore(s, rest, TrimLeft(s[1..]));
    } else {
      pre := [];
    }
  }

  lemma OneMoreBefore(s: string, rest: string, t: string) returns (pre: string)
    requires s != [] && IsSpace(s[0]) && s[1..] == rest + t && AllSpaces(rest)
    ensures s == pre + t && AllSpaces(pre)
  {
    pre := [s[0]] + rest;
    assert s == [s[0]] + s[1..];
    ConcatAssociates([s[0]], rest, t);
    SpacesJoin([s[0]], rest);
  }

  lemma {:induction false} TrimRightSplits(s: string) returns (post: string)
    ensures s == TrimRight(s) + post && AllSpaces(post)
  {
    if s != [] && IsSpace(s[|s| - 1]) {
      var rest := TrimRightSplits(s[..|s| - 1]);
      post := OneMoreAfter(s, TrimRight(s[..|s| - 1]), rest);
    } else {
      post := [];
    }
  }

  lemma OneMoreAfter(s: string, t: string, rest: string) returns (post: string)
    requires s != [] && IsSpace(s[|s| - 1]) && s[..|s| - 1] == t + rest && AllSpaces(rest)
    ensures s == t + post && AllSpaces(post)
  {
    post := rest + [s[|s| - 1]];
    assert s == s[..|s| - 1] + [s[|s| - 1]];
    ConcatAssociates(t, rest, [s[|s| - 1]]);
    SpacesJoin(rest, [s[|s| - 1]]);
  }

  lemma {:induction false} TrimLeftKeeps(s: string)
    ensures var t := TrimLeft(s); t == "" || !IsSpace(t[0])
  {
    if s != [] && IsSpace(s[0]) { TrimLeftKeeps(s[1..]); }
  }

  lemma {:induction false} TrimRightKeeps(s: string)
    ensures var t := TrimRight(s); t <= s && (t == "" || !IsSpace(t[|t| - 1]))
  {
    if s != [] && IsSpace(s[|s| - 1]) { TrimRightKeeps(s[..|s| - 1]); }
  }

  /** The text is t with spaces around it, and t has none at its ends. */
  ghost predicate Trims(s: string, pre: string, t: string, post: string) {
    && s == pre + t + post && AllSpaces(pre) && AllSpaces(post)
    && (t == "" || (!AllSpaces(t[..1]) && !AllSpaces(t[|t| - 1..])))
  }

  lemma TrimTrims(s: string) returns (pre: string, post: string)
    ensures Trims(s, pre, Trim(s), post)
  {
    pre := TrimLeftSplits(s);
    post := TrimRightSplits(TrimLeft(s));
    assert s == pre + Trim(s) + post by { assert s == pre + (Trim(s) + post); }
    TrimEnds(s);
    var t := Trim(s);
    if t != "" {
      assert !AllSpaces(t[..1]) by { assert t[..1][0] == t[0]; }
      assert !AllSpaces(t[|t| - 1..]) by { assert t[|t| - 1..][0] == t[|t| - 1]; }
    }
  }

  lemma TrimEnds(s: string)
    ensures var t := Trim(s); t == "" || (!IsSpace(t[0]) && !IsSpace(t[|t| - 1]))
  {
    TrimLeftKeeps(s);
    TrimRightKeeps(TrimLeft(s));
  }

  lemma {:induction false} TrimLeftDrops(pre: string, s: string)
    requires AllSpaces(pre) && s != [] && !IsSpace(s[0])
    ensures TrimLeft(pre + s) == s
  {
    if pre == [] {
      assert [] + s == s;
    } else {
      assert (pre + s)[1..] == pre[1..] + s;
      TrimLeftDrops(pre[1..], s);
    }
  }

  lemma {:induction false} TrimRightDrops(s: string, post: string)
    requires AllSpaces(post) && s != [] && !IsSpace(s[|s| - 1])
    ensures TrimRight(s + post) == s
  {
    if post == [] {
      assert s + [] == s;
    } else {
      assert (s + post)[..|s + post| - 1] == s + post[..|post| - 1];
      TrimRightDrops(s, post[..|post| - 1]);
    }
  }

  /** The text is the name, in any case, with spaces around it. */
  ghost predicate Spells(t: string, pre: string, core: string, post: string, name: string) {
    t == pre + core + post && AllSpaces(pre) && AllSpaces(post) && SameButCase(core, name)
  }

  ghost predicate Spelled(t: string, name: string) { exists pre, core, post :: Spells(t, pre, core, post, name) }

  /** It has no capital and neither starts nor ends with a space. */
  predicate Plain(name: string) {
    && name != "" && !IsSpace(name[0]) && !IsSpace(name[|name| - 1])
    && forall i :: 0 <= i < |name| ==> !('A' <= name[i] <= 'Z')
  }

  lemma SameButCaseIsLower(core: string, name: string)
    requires forall i :: 0 <= i < |name| ==> !('A' <= name[i] <= 'Z')
    ensures SameButCase(core, name) <==> Lower(core) == name
  {
    if Lower(core) == name {
      forall i | 0 <= i < |core|
        ensures core[i] == name[i] || ('A' <= core[i] <= 'Z' && name[i] as int == core[i] as int + 32)
      {
        assert name[i] == LowerChar(core[i]);
      }
    }
    if SameButCase(core, name) {
      forall i | 0 <= i < |core| ensures Lower(core)[i] == name[i] {}
    }
  }

  /** Exactly which texts fold to a plain name. */
  lemma FoldsExactly(t: string, name: string)
    requires Plain(name)
    ensures Lower(Trim(t)) == name <==> Spelled(t, name)
  {
    if Lower(Trim(t)) == name {
      var pre := TrimLeftSplits(t);
      var post := TrimRightSplits(TrimLeft(t));
      assert t == pre + Trim(t) + post by { assert t == pre + (Trim(t) + post); }
      SameButCaseIsLower(Trim(t), name);
      assert Spells(t, pre, Trim(t), post, name);
    }
    if Spelled(t, name) {
      var pre, core, post :| Spells(t, pre, core, post, name);
      TrimmedIs(t, pre, core, post, name);
      SameButCaseIsLower(core, name);
    }
  }

  /** Trimming a spelling leaves its core. */
  lemma TrimmedIs(t: string, pre: string, core: string, post: string, name: string)
    requires Plain(name) && Spells(t, pre, core, post, name)
    ensures Trim(t) == core
  {
    var rest := core + post;
    assert t == pre + rest && rest[0] == core[0];
    assert !IsSpace(core[0]) && !IsSpace(core[|core| - 1]);
    TrimLeftDrops(pre, rest);
    TrimRightDrops(core, post);
  }

  lemma WellFormedIsPlain(name: string)
    requires WellFormed(name)
    ensures Plain(name) && Plain("@" + name)
  {
    assert NameChar(name[0]) && NameChar(name[|name| - 1]);
    forall i | 0 <= i < |name| ensures !('A' <= name[i] <= 'Z') { assert NameChar(name[i]); }
  }

  /** Exactly which texts normalize to which names: after one optional leading "@", spaces, the name in
      any case, spaces. Everything else is refused. */
  lemma NormalizesExactly(raw: string, name: string)
    ensures Normalize(raw) == Some(name) <==>
              && 3 <= |name| <= 30
              && (forall i :: 0 <= i < |name| ==> 'a' <= name[i] <= 'z' || '0' <= name[i] <= '9' || name[i] == '_')
              && Spelled(if raw != "" && raw[0] == '@' then raw[1..] else raw, name)
  {
    assert WellFormed(name) <==> 3 <= |name| <= 30 && forall i :: 0 <= i < |name| ==> NameChar(name[i]);
    if WellFormed(name) {
      WellFormedIsPlain(name);
      FoldsExactly(DropAt(raw), name);
    }
  }

  /** Exactly which texts claim the key of a valid name: its spellings with spaces around them, for a
      handle also with one leading "@". So no two users hold spellings of one name. */
  lemma KeysExactly(raw: string, name: string)
    requires WellFormed(name)
    ensures UsernameKey(raw) == UsernameKey(name) <==> Spelled(raw, name)
    ensures KeyOfHandle(raw) == KeyOfHandle(name) <==> Spelled(raw, name) || Spelled(raw, "@" + name)
  {
    WellFormedIsPlain(name);
    WellFormedIsItsOwnKey(name);
    FoldsExactly(raw, name);
    FoldsExactly(raw, "@" + name);
    DropAtFolded(Trim(raw), name);
  }

  lemma DropAtFolded(t: string, name: string)
    requires WellFormed(name)
    ensures Lower(DropAt(t)) == name <==> Lower(t) == name || Lower(t) == "@" + name
  {
    assert NameChar(name[0]);
    if t != "" && t[0] == '@' {
      assert t == "@" + t[1..];
      assert Lower(t) == "@" + Lower(t[1..]);
      assert ("@" + Lower(t[1..]))[1..] == Lower(t[1..]) && ("@" + name)[1..] == name;
    } else {
      assert t != "" ==> Lower(t)[0] == LowerChar(t[0]) != '@';
      assert ("@" + name)[0] == '@';
    }
  }

  /** Normalizing a name again changes nothing. */
  lemma NormalizeIsIdempotent(raw: string)
    requires Normalize(raw).Some?
    ensures Normalize(Normalize(raw).value) == Normalize(raw)
  {
    var name := Normalize(raw).value;
    assert NameChar(name[0]);
    assert DropAt(name) == name;
    WellFormedIsItsOwnKey(name);
  }

  // ---------- generated handles ----------

  const ATTEMPTS := 100

  function ThreeDigits(n: nat): (s: string)
    requires n < 1000
    ensures |s| == 3
  {
    [Digit(n / 100), Digit(n / 10 % 10), Digit(n % 10)]
  }

  function Suffix(id: nat, attempt: nat): string {
    (if attempt > 0 then Decimal(attempt) else "") + ThreeDigits(id % 1000)
  }

  function Cut(s: string, n: int): string { if 0 <= n < |s| then s[..n] else s }

  /** generatedHandle; the second cut needs a suffix of at most 30 bytes. */
  function Generated(username: string, id: nat, attempt: nat): string
    requires |Suffix(id, attempt)| <= 30
  {
    var base := Cut(Lower(DropAt(Trim(username))), 24);
    Cut(base, 30 - |Suffix(id, attempt)|) + Suffix(id, attempt)
  }

  lemma ShortNumbers(n: nat)
    requires n < 100
    ensures |Decimal(n)| == if n < 10 then 1 else 2
  {}

  lemma SuffixesDiffer(id: nat, i: nat, j: nat)
    requires Suffix(id, i) == Suffix(id, j)
    ensures i == j
  {
    var a, b := if i > 0 then Decimal(i) else "", if j > 0 then Decimal(j) else "";
    var s := Suffix(id, i);
    assert a == s[..|s| - 3] && b == s[..|s| - 3];
    DecimalRoundTrip(i);
    DecimalRoundTrip(j);
  }

  lemma SuffixLength(id: nat, attempt: nat)
    requires attempt < ATTEMPTS
    ensures 3 <= |Suffix(id, attempt)| <= 5
  {
    ShortNumbers(attempt);
  }

  /** All handles of one signup share the same cut base, whatever the text it starts from. */
  lemma GeneratedShape(username: string, id: nat, attempt: nat)
    requires attempt < ATTEMPTS
    ensures |Suffix(id, attempt)| <= 30
    ensures Generated(username, id, attempt) == Cut(Lower(DropAt(Trim(username))), 24) + Suffix(id, attempt)
  {
    SuffixLength(id, attempt);
  }

  /** The 100 handles one signup tries are pairwise different and at most 29 characters long. */
  lemma GeneratedHandlesDiffer(username: string, id: nat, i: nat, j: nat)
    requires i < ATTEMPTS && j < ATTEMPTS && i != j
    ensures |Suffix(id, i)| <= 30 && |Suffix(id, j)| <= 30
    ensures Generated(username, id, i) != Generated(username, id, j)
    ensures |Generated(username, id, i)| <= 29
  {
    GeneratedShape(username, id, i);
    GeneratedShape(username, id, j);
    SuffixLength(id, i);
    SuffixLength(id, j);
    var base := Cut(Lower(DropAt(Trim(username))), 24);
    if base + Suffix(id, i) == base + Suffix(id, j) {
      assert Suffix(id, i) == (base + Suffix(id, i))[|base|..] == Suffix(id, j);
      SuffixesDiffer(id, i, j);
    }
  }

  /** The handle of an attempt is the username cut to 24 characters, the attempt's number if it is not the
      first, and the last three digits of the id. */
  lemma GeneratedHandlesSpell(username: string, id: nat, attempt: nat)
    requires WellFormed(username) && attempt < 100
    ensures |Suffix(id, attempt)| <= 30
    ensures var h, base := Generated(username, id, attempt), if |username| > 24 then username[..24] else username;
            var n := |base| + if attempt == 0 then 0 else if attempt < 10 then 1 else 2;
            && |h| == n + 3 && base <= h
            && h[n] as int == 48 + id / 100 % 10 && h[n + 1] as int == 48 + id / 10 % 10
            && h[n + 2] as int == 48 + id % 10
            && (1 <= attempt < 10 ==> h[|base|] as int == 48 + attempt)
            && (10 <= attempt ==> h[|base|] as int == 48 + attempt / 10 && h[|base| + 1] as int == 48 + attempt % 10)
  {
    GeneratedShape(username, id, attempt);
    WellFormedIsItsOwnKey(username);
    assert Lower(DropAt(Trim(username))) == username;
    var base, number := Cut(username, 24), if attempt > 0 then Decimal(attempt) else "";
    assert Generated(username, id, attempt) == base + (number + ThreeDigits(id % 1000));
    SmallDecimal(attempt);
    LastDigits(id);
  }

  lemma SmallDecimal(n: nat)
    requires n < 100
    ensures n < 10 ==> |Decimal(n)| == 1 && Decimal(n)[0] as int == 48 + n
    ensures n >= 10 ==> |Decimal(n)| == 2 && Decimal(n)[0] as int == 48 + n / 10 && Decimal(n)[1] as int == 48 + n % 10
  {}

  lemma LastDigits(id: nat)
    ensures var s := ThreeDigits(id % 1000);
            s[0] as int == 48 + id / 100 % 10 && s[1] as int == 48 + id / 10 % 10 && s[2] as int == 48 + id % 10
  {
    var q, r := id / 1000, id % 1000;
    assert id == 1000 * q + r;
    assert id / 100 == 10 * q + r / 100 && id / 10 == 100 * q + r / 10;
  }

  /** For a valid username every generated handle is itself a valid handle, so the keys they claim
      differ as well. */
  lemma GeneratedHandlesAreValid(username: string, id: nat, i: nat)
    requires WellFormed(username) && i < ATTEMPTS
    ensures |Suffix(id, i)| <= 30 && WellFormed(Generated(username, id, i))
    ensures KeyOfHandle(Generated(username, id, i)) == HandleKey(Generated(username, id, i))
  {
    GeneratedShape(username, id, i);
    SuffixLength(id, i);
    WellFormedIsItsOwnKey(username);
    assert Lower(DropAt(Trim(username))) == username;
    var h := Generated(username, id, i);
    var base := Cut(username, 24);
    var digits := Suffix(id, i);
    forall k | 0 <= k < |digits| ensures IsDigit(digits[k]) {}
    forall k | 0 <= k < |h| ensures NameChar(h[k]) {
      if k < |base| {
        assert h[k] == username[k];
      } else {
        assert h[k] == digits[k - |base|] && IsDigit(digits[k - |base|]);
      }
    }
    WellFormedIsItsOwnKey(h);
  }
}
