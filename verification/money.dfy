/** Yuan and fen: fixed-point printing as in section 21.1.3.3 of ECMA-262, and parsing it back through its digits. */
module Money {
  import opened Prelude

  const MAX_YUAN: real := 1000000000.0

  datatype Error = Negative | OverLimit

  // ---------------------------------------------------------------- digit strings

  function Digit(d: nat): char
    requires d < 10
  {
    ('0' as int + d) as char
  }

  function Digits(n: nat): (s: string)
    ensures |s| > 0
  {
    if n < 10 then [Digit(n)] else Digits(n / 10) + [Digit(n % 10)]
  }

  predicate IsDigit(c: char) {
    '0' <= c <= '9'
  }

  /** parseInt in base ten, on a string of digits. */
  function ParseInt(s: string): nat
    requires forall i :: 0 <= i < |s| ==> IsDigit(s[i])
  {
    if s == "" then 0
    else
      assert IsDigit(s[|s| - 1]);
      10 * ParseInt(s[..|s| - 1]) + (s[|s| - 1] as int - '0' as int)
  }

  lemma {:induction false} ParseDigits(n: nat)
    ensures forall i :: 0 <= i < |Digits(n)| ==> IsDigit(Digits(n)[i])
    ensures ParseInt(Digits(n)) == n
  {
    if n >= 10 {
      ParseDigits(n / 10);
      assert Digits(n)[..|Digits(n)| - 1] == Digits(n / 10);
    } else {
      assert Digits(n)[..0] == "";
    }
  }

  function Zeros(k: nat): string { seq(k, _ => '0') }

  lemma {:induction false} LeadingZeros(k: nat, s: string)
    requires forall i :: 0 <= i < |s| ==> IsDigit(s[i])
    ensures forall i :: 0 <= i < |Zeros(k) + s| ==> IsDigit((Zeros(k) + s)[i])
    ensures ParseInt(Zeros(k) + s) == ParseInt(s)
    decreases |s|, k
  {
    if s == "" {
      assert Zeros(k) + s == Zeros(k);
      if k > 0 {
        assert Zeros(k)[..k - 1] == Zeros(k - 1);
        assert Zeros(k - 1) + "" == Zeros(k - 1);
        LeadingZeros(k - 1, s);
      }
    } else {
      assert (Zeros(k) + s)[..|Zeros(k) + s| - 1] == Zeros(k) + s[..|s| - 1];
      LeadingZeros(k, s[..|s| - 1]);
    }
  }

  /** Cutting a digit string two digits before its end divides by one hundred. */
  lemma CutTwo(s: string)
    requires |s| >= 2 && forall i :: 0 <= i < |s| ==> IsDigit(s[i])
    ensures ParseInt(s) == 100 * ParseInt(s[..|s| - 2]) + ParseInt(s[|s| - 2..])
    ensures ParseInt(s[|s| - 2..]) < 100
  {
    var a, b := s[..|s| - 2], s[|s| - 2..];
    assert s[..|s| - 1][..|s| - 2] == a;
    assert b[..1] == [s[|s| - 2]] && b[..1][..0] == "";
  }

  // ---------------------------------------------------------------- toFixed(2)

  /** The integer nearest to 100 x, the larger one at a tie. */
  function Hundredths(x: real): int {
    (100.0 * x + 0.5).Floor
  }

  function Padded(n: nat): (s: string)
    ensures |s| >= 3
  {
    var m := Digits(n);
    if |m| <= 2 then Zeros(3 - |m|) + m else m
  }

  /** The decimal point goes before the last two of at least three digits. */
  function Fixed(n: nat): string {
    var m := Padded(n);
    m[..|m| - 2] + "." + m[|m| - 2..]
  }

  function ToFixed2(x: real): string {
    if x < 0.0 then "-" + Fixed(Hundredths(-x)) else Fixed(Hundredths(x))
  }

  /** `split(c)[0]` and `split(c)[1]`, the second empty when the separator is absent. */
  function SplitFirst(s: string, c: char): (r: (string, string))
    ensures |r.1| < |s| || r.1 == ""
  {
    if s == "" then ("", "")
    else if s[0] == c then ("", UpTo(s[1..], c))
    else var r := SplitFirst(s[1..], c); ([s[0]] + r.0, r.1)
  }

  function UpTo(s: string, c: char): (r: string)
    ensures |r| <= |s|
  {
    if s == "" || s[0] == c then "" else [s[0]] + UpTo(s[1..], c)
  }

  lemma {:induction false} UpToAll(s: string, c: char)
    requires c !in s
    ensures UpTo(s, c) == s
  {
    if s != "" {
      UpToAll(s[1..], c);
    }
  }

  lemma {:induction false} SplitAtPoint(a: string, b: string, c: char)
    requires c !in a && c !in b
    ensures SplitFirst(a + [c] + b, c) == (a, b)
  {
    if a == "" {
      assert (a + [c] + b)[1..] == b;
      UpToAll(b, c);
    } else {
      assert (a + [c] + b)[1..] == a[1..] + [c] + b;
      SplitAtPoint(a[1..], b, c);
      assert (a + [c] + b)[0] == a[0] && a[0] in a && [a[0]] + a[1..] == a;
    }
  }

  lemma PaddedParses(n: nat)
    ensures forall i :: 0 <= i < |Padded(n)| ==> IsDigit(Padded(n)[i])
    ensures ParseInt(Padded(n)) == n
  {
    ParseDigits(n);
    if |Digits(n)| <= 2 {
      LeadingZeros(3 - |Digits(n)|, Digits(n));
    }
  }

  /** Printing and splitting give back the whole yuan and the two decimals. */
  lemma FixedSplits(n: nat)
    ensures var r := SplitFirst(Fixed(n), '.');
            && (forall i :: 0 <= i < |r.0| ==> IsDigit(r.0[i])) && (forall i :: 0 <= i < |r.1| ==> IsDigit(r.1[i]))
            && ParseInt(r.0) == n / 100 && ParseInt(r.1) == n % 100 && |r.1| == 2
  {
    var m := Padded(n);
    PaddedParses(n);
    CutTwo(m);
    SplitAtPoint(m[..|m| - 2], m[|m| - 2..], '.');
  }

  // ---------------------------------------------------------------- yuanToFen and fenToYuan

  function YuanToFen(yuan: real): (r: Result<nat, Error>)
    ensures r == Err(Negative) <==> yuan < 0.0
    ensures r == Err(OverLimit) <==> yuan > 1000000000.0
    ensures r.Ok? ==> r.value == Hundredths(yuan)
  {
    if yuan < 0.0 then Err(Negative)
    else if yuan > MAX_YUAN then Err(OverLimit)
    else
      var n: nat := Hundredths(yuan);
      FixedSplits(n);
      var parts := SplitFirst(ToFixed2(yuan), '.');
      Ok(ParseInt(parts.0) * 100 + ParseInt(parts.1))
  }

  /** The quotient `fen / 100` in double precision is `quotient`. */
  function FenToYuan(quotient: real): string {
    ToFixed2(quotient)
  }

  /** yuanToFen rounds to the nearest fen, half up, whatever the digits it goes through. */
  lemma YuanToFenRounds(yuan: real)
    requires 0.0 <= yuan <= MAX_YUAN
    ensures Hundredths(yuan) >= 0 && YuanToFen(yuan) == Ok(Hundredths(yuan))
    ensures Hundredths(yuan) as real - 0.5 <= 100.0 * yuan < Hundredths(yuan) as real + 0.5
  {
    FixedSplits(Hundredths(yuan));
  }

  /** The number a printed amount stands for. */
  function Value(s: string): real
    requires var r := SplitFirst(s, '.');
             (forall i :: 0 <= i < |r.0| ==> IsDigit(r.0[i])) && (forall i :: 0 <= i < |r.1| ==> IsDigit(r.1[i]))
  {
    var r := SplitFirst(s, '.');
    ParseInt(r.0) as real + ParseInt(r.1) as real / 100.0
  }

  lemma FixedStandsFor(n: nat)
    ensures var r := SplitFirst(Fixed(n), '.');
            (forall i :: 0 <= i < |r.0| ==> IsDigit(r.0[i])) && (forall i :: 0 <= i < |r.1| ==> IsDigit(r.1[i]))
    ensures Value(Fixed(n)) == n as real / 100.0
  {
    FixedSplits(n);
    hide ParseInt, SplitFirst, Fixed;
    assert n == 100 * (n / 100) + n % 100;
    assert (n / 100) as real + (n % 100) as real / 100.0 == n as real / 100.0;
  }

  /**
   Any amount of fen survives printing and reading: with an error below half a fen in the division and again in the
   parsing, the printed yuan stand for exactly `n` fen and convert back to `n`.
  */
  lemma RoundTrip(n: nat, quotient: real, parsed: real)
    requires quotient >= 0.0 && n as real / 100.0 - 0.005 < quotient < n as real / 100.0 + 0.005
    requires 0.0 <= parsed <= MAX_YUAN && n as real / 100.0 - 0.005 < parsed < n as real / 100.0 + 0.005
    ensures FenToYuan(quotient) == Fixed(n)
    ensures var r := SplitFirst(Fixed(n), '.');
            (forall i :: 0 <= i < |r.0| ==> IsDigit(r.0[i])) && (forall i :: 0 <= i < |r.1| ==> IsDigit(r.1[i]))
    ensures Value(FenToYuan(quotient)) == n as real / 100.0
    ensures YuanToFen(parsed) == Ok(n)
  {
    assert Hundredths(quotient) == n == Hundredths(parsed);
    YuanToFenRounds(parsed);
    FixedStandsFor(n);
  }

  /** Different amounts print differently. */
  lemma PrintingIsInjective(m: nat, n: nat)
    requires Fixed(m) == Fixed(n)
    ensures m == n
  {
    FixedSplits(m);
    FixedSplits(n);
  }
}
