/** Byte-wise text order and the ASCII part of Go's string helpers. */
module Text {
  import opened Basics

  /** Strict lexicographic order, as in Go's `<` on strings and Cassandra's text order. */
  predicate Less(a: string, b: string) {
    if b == [] then false
    else if a == [] then true
    else a[0] < b[0] || (a[0] == b[0] && Less(a[1..], b[1..]))
  }

  lemma {:induction false} LessIrreflexive(a: string)
    ensures !Less(a, a)
  {
    if a != [] { LessIrreflexive(a[1..]); }
  }

  lemma {:induction false} LessTotal(a: string, b: string)
    ensures a == b || Less(a, b) || Less(b, a)
  {
    if a != [] && b != [] && a[0] == b[0] {
      LessTotal(a[1..], b[1..]);
      assert a == [a[0]] + a[1..] && b == [b[0]] + b[1..];
    }
  }

  lemma {:induction false} LessTransitive(a: string, b: string, c: string)
    requires Less(a, b) && Less(b, c)
    ensures Less(a, c)
  {
    if a != [] && a[0] == b[0] == c[0] { LessTransitive(a[1..], b[1..], c[1..]); }
  }

  // ---------- case, spaces, prefixes ----------

  function LowerChar(c: char): char { if 'A' <= c <= 'Z' then (c as int + 32) as char else c }

  function Lower(s: string): (r: string)
    ensures |r| == |s| && forall i :: 0 <= i < |s| ==> r[i] == LowerChar(s[i])
  {
    seq(|s|, i requires 0 <= i < |s| => LowerChar(s[i]))
  }

  predicate IsSpace(c: char) { c == ' ' || ('\t' <= c && c <= '\r') }

  function TrimLeft(s: string): string { if s != [] && IsSpace(s[0]) then TrimLeft(s[1..]) else s }
  function TrimRight(s: string): string { if s != [] && IsSpace(s[|s| - 1]) then TrimRight(s[..|s| - 1]) else s }

  /** strings.TrimSpace on ASCII text. */
  function Trim(s: string): string { TrimRight(TrimLeft(s)) }

  /** strings.TrimPrefix(s, "@"): at most one sign. */
  function DropAt(s: string): string { if s != [] && s[0] == '@' then s[1..] else s }

  // ---------- decimal numbers ----------

  function Digit(n: nat): char
    requires n < 10
  {
    ('0' as int + n) as char
  }

  predicate IsDigit(c: char) { '0' <= c <= '9' }

  /** strconv.FormatUint(n, 10) */
  function Decimal(n: nat): (s: string)
    ensures |s| >= 1 && forall i :: 0 <= i < |s| ==> IsDigit(s[i])
  {
    if n < 10 then [Digit(n)] else Decimal(n / 10) + [Digit(n % 10)]
  }

  function Value(s: string): nat
    requires forall i :: 0 <= i < |s| ==> IsDigit(s[i])
  {
    if s == [] then 0
    else assert IsDigit(s[|s| - 1]); Value(s[..|s| - 1]) * 10 + (s[|s| - 1] as int - '0' as int)
  }

  lemma {:induction false} DecimalRoundTrip(n: nat)
    ensures Value(Decimal(n)) == n
  {
    if n < 10 {
      assert [Digit(n)][..0] == [];
    } else {
      DecimalRoundTrip(n / 10);
      assert Decimal(n)[..|Decimal(n)| - 1] == Decimal(n / 10);
    }
  }

  function Zeros(n: nat): string { seq(n, _ => '0') }

  predicate AllDigits(s: string) { forall i :: 0 <= i < |s| ==> IsDigit(s[i]) }

  lemma OneMoreDigit(init: string, n: nat, value: nat, d: nat)
    requires d < 10 && init == Zeros(n) + Decimal(value)
    ensures init + [Digit(d)] == Zeros(if value == 0 then n + 1 else n) + Decimal(10 * value + d)
  {
    if value == 0 {
      assert Decimal(0) == ['0'] && init == Zeros(n + 1);
    } else {
      assert Decimal(10 * value + d) == Decimal(value) + [Digit(d)];
      ConcatAssociates(Zeros(n), Decimal(value), [Digit(d)]);
    }
  }

  /** Digits are leading zeros and the decimal form of their value. */
  lemma {:induction false} DigitsAreDecimal(s: string) returns (n: nat)
    requires s != "" && AllDigits(s)
    ensures s == Zeros(n) + Decimal(Value(s))
  {
    var init, last := s[..|s| - 1], s[|s| - 1];
    assert IsDigit(last);
    var d := last as int - '0' as int;
    assert Digit(d) == last && s == init + [last];
    if init == "" {
      assert Value(init) == 0;
      n := 0;
      assert Zeros(0) == "";
    } else {
      n := DigitsAreDecimal(init);
      OneMoreDigit(init, n, Value(init), d);
      if Value(init) == 0 { n := n + 1; }
    }
  }

  lemma {:induction false} LeadingZeros(n: nat, s: string)
    requires AllDigits(s)
    ensures AllDigits(Zeros(n) + s) && Value(Zeros(n) + s) == Value(s)
    decreases n + |s|
  {
    var t := Zeros(n) + s;
    if s == "" {
      if n > 0 {
        assert t[..|t| - 1] == Zeros(n - 1) + "";
        LeadingZeros(n - 1, "");
      }
    } else {
      assert t[..|t| - 1] == Zeros(n) + s[..|s| - 1];
      LeadingZeros(n, s[..|s| - 1]);
    }
  }

  /** strconv.ParseUint(s, 10, 64) */
  function ParseUint(s: string): Option<nat> {
    if s != [] && (forall i :: 0 <= i < |s| ==> IsDigit(s[i])) && Value(s) < 0x1_0000_0000_0000_0000 then
      Some(Value(s))
    else
      None
  }

  /** The texts of a 64-bit number are its decimal form with any zeros before it. */
  lemma ParsesExactly(s: string, n: nat)
    ensures ParseUint(s) == Some(n) <==> n < 18_446_744_073_709_551_616 && exists k: nat :: s == Zeros(k) + Decimal(n)
  {
    if s != "" && AllDigits(s) { var k := DigitsAreDecimal(s); assert s == Zeros(k) + Decimal(Value(s)); }
    if k: nat :| s == Zeros(k) + Decimal(n) {
      LeadingZeros(k, Decimal(n));
      DecimalRoundTrip(n);
    }
  }
}
