/** The few Python string renderings the cache keys and the seeded titles are made of. */
module Text {

  function Digit(n: nat): char
    requires n < 10
  {
    (48 + n) as char
  }

  /** `str(n)` of a non-negative integer. */
  function Digits(n: nat): (s: string)
    ensures s != [] && forall c | c in s :: '0' <= c <= '9'
  {
    if n < 10 then [Digit(n)] else Digits(n / 10) + [Digit(n % 10)]
  }

  /** `str` of a decimal quantised to two places; the argument counts hundredths. */
  function Hundredths(n: nat): string {
    Digits(n / 10 / 10) + "." + [Digit(n / 10 % 10), Digit(n % 10)]
  }

  /** The number that a string of digits denotes. */
  function Value(s: string): int {
    if s == [] then 0 else 10 * Value(s[..|s| - 1]) + (s[|s| - 1] as int - '0' as int)
  }

  /** The text denotes the number, without a leading zero. */
  lemma {:induction false} DigitsDenote(n: nat)
    ensures Value(Digits(n)) == n
    ensures n > 0 ==> Digits(n)[0] != '0'
    ensures Digits(0) == "0"
  {
    if n >= 10 {
      DigitsDenote(n / 10);
      assert Digits(n)[..|Digits(n)| - 1] == Digits(n / 10);
    } else {
      assert Digits(n)[..0] == [];
    }
  }

  /** Whole part, point, and two digits. */
  lemma HundredthsDenote(n: nat)
    ensures var s := Hundredths(n);
      && |s| >= 4 && s[|s| - 3] == '.'
      && Value(s[..|s| - 3]) == n / 100 && Value(s[|s| - 2..]) == n % 100
      && (n >= 100 ==> s[0] != '0') && (n < 100 ==> s[..|s| - 3] == "0")
  {
    var s := Hundredths(n);
    DigitsDenote(n / 10 / 10);
    assert n / 10 / 10 == n / 100 && n % 100 == 10 * (n / 10 % 10) + n % 10;
    assert s[..|s| - 3] == Digits(n / 100) && s[0] == Digits(n / 100)[0];
    TwoDigits(n / 10 % 10, n % 10);
    hide Digits, Value;
    assert s[|s| - 2..] == [Digit(n / 10 % 10), Digit(n % 10)];
  }

  lemma TwoDigits(m: nat, n: nat)
    requires m < 10 && n < 10
    ensures Value([Digit(m), Digit(n)]) == 10 * m + n
  {
    assert [Digit(m)][..0] == [] && Value([Digit(m)]) == m;
    assert [Digit(m), Digit(n)][..1] == [Digit(m)];
  }

  lemma {:induction false} DigitsInjective(m: nat, n: nat)
    requires Digits(m) == Digits(n)
    ensures m == n
  {
    var s, t := Digits(m), Digits(n);
    assert s[|s| - 1] == Digit(m % 10) && t[|t| - 1] == Digit(n % 10);
    assert (m < 10 <==> |s| == 1) && (n < 10 <==> |t| == 1);
    if m >= 10 {
      assert s[..|s| - 1] == Digits(m / 10) && t[..|t| - 1] == Digits(n / 10);
      DigitsInjective(m / 10, n / 10);
    }
  }

  lemma HundredthsInjective(m: nat, n: nat)
    requires Hundredths(m) == Hundredths(n)
    ensures m == n
  {
    hide Digits;
    var s, t := Hundredths(m), Hundredths(n);
    assert s[|s| - 1] == Digit(m % 10) && t[|t| - 1] == Digit(n % 10);
    assert s[|s| - 2] == Digit(m / 10 % 10) && t[|t| - 2] == Digit(n / 10 % 10);
    assert s[..|s| - 3] == Digits(m / 10 / 10) && t[..|t| - 3] == Digits(n / 10 / 10);
    assert m % 10 == n % 10 && m / 10 % 10 == n / 10 % 10;
    DigitsInjective(m / 10 / 10, n / 10 / 10);
  }

  lemma HundredthsChars(n: nat)
    ensures forall c | c in Hundredths(n) :: c == '.' || '0' <= c <= '9'
  {
  }

  /** The index `rsplit(c, 1)` splits at. */
  function LastIndex(s: string, c: char): (i: nat)
    requires c in s
    ensures i < |s| && s[i] == c && c !in s[i + 1..]
  {
    if s[|s| - 1] == c then |s| - 1 else
      var i := LastIndex(s[..|s| - 1], c);
      assert s[i + 1..] == s[..|s| - 1][i + 1..] + [s[|s| - 1]];
      i
  }

  /** A split at the first separator is unique. */
  lemma FirstSplit(a: string, s: string, b: string, t: string, sep: char)
    requires sep !in a && sep !in b
    requires a + [sep] + s == b + [sep] + t
    ensures a == b && s == t
  {
    var w := a + [sep] + s;
    assert w == b + [sep] + t;
    assert w[|a|] == sep && w[|b|] == sep;
    assert forall i | 0 <= i < |a| :: w[i] == a[i] && w[i] != sep;
    assert forall i | 0 <= i < |b| :: w[i] == b[i] && w[i] != sep;
    assert a == w[..|a|] && s == w[|a| + 1..];
    assert b == w[..|b|] && t == w[|b| + 1..];
  }

  /** A split at the last separator is unique. */
  lemma LastSplit(a: string, s: string, b: string, t: string, sep: char)
    requires sep !in s && sep !in t
    requires a + [sep] + s == b + [sep] + t
    ensures a == b && s == t
  {
    var w := a + [sep] + s;
    assert w == b + [sep] + t;
    assert w[|a|] == sep && w[|b|] == sep;
    assert forall i | |a| < i < |w| :: w[i] == s[i - |a| - 1] && w[i] != sep;
    assert forall i | |b| < i < |w| :: w[i] == t[i - |b| - 1] && w[i] != sep;
    assert a == w[..|a|] && s == w[|a| + 1..];
    assert b == w[..|b|] && t == w[|b| + 1..];
  }
}
