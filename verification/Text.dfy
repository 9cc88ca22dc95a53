/** The string operations the operator relies on: byte order, decimal formatting, suffixes. */
module Text {

  /** Go's `<` on strings. */
  predicate Less(a: string, b: string) {
    b != [] && (a == [] || a[0] < b[0] || (a[0] == b[0] && Less(a[1..], b[1..])))
  }

  lemma {:induction false} LessIrreflexive(a: string)
    ensures !Less(a, a)
  {
    if a != [] {
      LessIrreflexive(a[1..]);
    }
  }

  lemma {:induction false} LessTransitive(a: string, b: string, c: string)
    requires Less(a, b) && Less(b, c)
    ensures Less(a, c)
  {
    if a != [] && a[0] == b[0] == c[0] {
      LessTransitive(a[1..], b[1..], c[1..]);
    }
  }

  /** Any two different strings are ordered one way. */
  lemma {:induction false} LessTotal(a: string, b: string)
    ensures Less(a, b) || Less(b, a) || a == b
  {
    if a != [] && b != [] && a[0] == b[0] {
      LessTotal(a[1..], b[1..]);
      assert a == [a[0]] + a[1..] && b == [b[0]] + b[1..];
    }
  }

  /** Not-less is transitive too. */
  lemma {:induction false} NotLessTransitive(a: string, b: string, c: string)
    requires !Less(a, b) && !Less(b, c)
    ensures !Less(a, c)
  {
    LessTotal(a, b);
    LessTotal(b, c);
    if Less(a, c) {
      if a == b || b == c {
      } else {
        LessTransitive(a, c, b);
      }
    }
  }

  /** The first character that differs decides; a prefix comes before what it is a prefix of. */
  lemma {:induction false} LessIff(a: string, b: string)
    ensures Less(a, b) <==> a < b || exists i :: DecidedAt(a, b, i)
  {
    if a != [] && b != [] && a[0] == b[0] {
      LessIff(a[1..], b[1..]);
      assert a[1..] < b[1..] <==> a < b by {
        assert a == [a[0]] + a[1..] && b == [b[0]] + b[1..];
      }
      if i :| DecidedAt(a[1..], b[1..], i) {
        assert DecidedAt(a, b, i + 1);
      }
      if i :| DecidedAt(a, b, i) {
        assert a[1..][..i - 1] == a[..i][1..] && b[1..][..i - 1] == b[..i][1..];
        assert DecidedAt(a[1..], b[1..], i - 1);
      }
    } else if a != [] && b != [] {
      assert a[0] < b[0] <==> DecidedAt(a, b, 0);
    }
  }

  predicate DecidedAt(a: string, b: string, i: int) {
    0 <= i < |a| && i < |b| && a[..i] == b[..i] && a[i] < b[i]
  }

  predicate HasSuffix(s: string, suffix: string) {
    |suffix| <= |s| && s[|s| - |suffix|..] == suffix
  }

  predicate HasPrefix(s: string, prefix: string) {
    prefix <= s
  }

  function TrimSuffix(s: string, suffix: string): string {
    if HasSuffix(s, suffix) then s[..|s| - |suffix|] else s
  }

  function Digit(d: nat): char
    requires d < 10
  {
    ('0' as int + d) as char
  }

  /** `%d` of a number that is not negative. */
  function Decimal(n: nat): string {
    if n < 10 then [Digit(n)] else Decimal(n / 10) + [Digit(n % 10)]
  }

  /** `%d` of any number. */
  function Signed(n: int): string {
    if n < 0 then "-" + Decimal(-n) else Decimal(n)
  }

  function Zeros(k: nat): string {
    seq(k, _ => '0')
  }

  /** `%05d` of a number that is not negative. */
  function PaddedDecimal(n: nat): string {
    var d := Decimal(n);
    if |d| < 5 then Zeros(5 - |d|) + d else d
  }

  /** Reads a decimal back. */
  function Value(s: string): int {
    if s == [] then 0 else Value(s[..|s| - 1]) * 10 + (s[|s| - 1] as int - '0' as int)
  }

  predicate AllDigits(s: string) {
    forall i :: 0 <= i < |s| ==> '0' <= s[i] <= '9'
  }

  /** Formatting then reading gives the number back. */
  lemma {:induction false} DecimalRoundTrip(n: nat)
    ensures Value(Decimal(n)) == n && AllDigits(Decimal(n))
  {
    if n < 10 {
      assert Decimal(n)[..0] == [];
    } else {
      DecimalRoundTrip(n / 10);
      assert Decimal(n)[..|Decimal(n)| - 1] == Decimal(n / 10);
    }
  }

  lemma {:induction false} LeadingZeros(k: nat, s: string)
    ensures Value(Zeros(k) + s) == Value(s)
    decreases k + |s|
  {
    var z := Zeros(k) + s;
    if s != [] {
      assert z[..|z| - 1] == Zeros(k) + s[..|s| - 1];
      LeadingZeros(k, s[..|s| - 1]);
    } else if k > 0 {
      assert z[..|z| - 1] == Zeros(k - 1) + [];
      LeadingZeros(k - 1, []);
    }
  }

  /** The zero-padded form reads back too, so it is injective. */
  lemma PaddedRoundTrip(n: nat)
    ensures Value(PaddedDecimal(n)) == n && AllDigits(PaddedDecimal(n))
  {
    DecimalRoundTrip(n);
    var d := Decimal(n);
    if |d| < 5 {
      LeadingZeros(5 - |d|, d);
    }
  }
}
