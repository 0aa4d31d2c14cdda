/** Zero-padded binary rendering of a natural number, as Python's format
    specification `{i:0Wb}` produces it (Theory/R2R/try2.py uses W = 3), and
    the base-2 value of a string of binary digits, its inverse. */
module Binary {

  function Pow2(k: nat): (p: nat)
    ensures p >= 1
  {
    if k == 0 then 1 else 2 * Pow2(k - 1)
  }

  /** Bit k of n, counting the least significant bit as bit 0. */
  predicate Bit(n: nat, k: nat)
  {
    (n / Pow2(k)) % 2 == 1
  }

  function DigitChar(b: nat): char
    requires b < 2
  {
    if b == 0 then '0' else '1'
  }

  function CharValue(c: char): nat
  {
    if c == '1' then 1 else 0
  }

  predicate IsBinary(s: string)
  {
    forall j :: 0 <= j < |s| ==> s[j] == '0' || s[j] == '1'
  }

  /** The shortest binary numeral of n: "0" for zero, otherwise no leading zero. */
  function Digits(n: nat): (s: string)
    ensures |s| >= 1
    decreases n
  {
    if n < 2 then [DigitChar(n)] else Digits(n / 2) + [DigitChar(n % 2)]
  }

  function Zeros(m: nat): (z: string)
    ensures |z| == m && forall j :: 0 <= j < m ==> z[j] == '0'
  {
    seq(m, _ => '0')
  }

  /** `{n:0Wb}`: the binary numeral of n, padded on the left with '0' to at
      least `width` characters; a longer numeral is not cut. */
  function Format(n: nat, width: nat): (s: string)
    ensures |s| == if |Digits(n)| < width then width else |Digits(n)|
  {
    var d := Digits(n);
    if |d| < width then Zeros(width - |d|) + d else d
  }

  /** The base-2 value of s read with its most significant digit first. */
  function Value(s: string): nat
  {
    if s == [] then 0 else 2 * Value(s[..|s| - 1]) + CharValue(s[|s| - 1])
  }

  lemma {:induction false} DigitsRoundTrip(n: nat)
    ensures IsBinary(Digits(n)) && Value(Digits(n)) == n
    decreases n
  {
    if n >= 2 {
      DigitsRoundTrip(n / 2);
      var s := Digits(n);
      assert s[..|s| - 1] == Digits(n / 2);
    }
  }

  lemma {:induction false} DigitsShort(n: nat, k: nat)
    requires 1 <= k && n < Pow2(k)
    ensures |Digits(n)| <= k
    decreases k
  {
    if n >= 2 {
      assert k >= 2;
      DigitsShort(n / 2, k - 1);
    }
  }

  lemma {:induction false} ZerosValue(m: nat)
    ensures Value(Zeros(m)) == 0
  {
    if m > 0 {
      assert Zeros(m)[..m - 1] == Zeros(m - 1);
      ZerosValue(m - 1);
    }
  }

  /** Leading zeros do not change the value. */
  lemma {:induction false} PaddedValue(m: nat, s: string)
    ensures Value(Zeros(m) + s) == Value(s)
    decreases |s|
  {
    if s == [] {
      assert Zeros(m) + s == Zeros(m);
      ZerosValue(m);
    } else {
      var t := Zeros(m) + s;
      assert t[..|t| - 1] == Zeros(m) + s[..|s| - 1];
      PaddedValue(m, s[..|s| - 1]);
    }
  }

  /** Reading back a formatted number gives the number. */
  lemma FormatRoundTrip(n: nat, width: nat)
    ensures IsBinary(Format(n, width)) && Value(Format(n, width)) == n
  {
    var d := Digits(n);
    DigitsRoundTrip(n);
    if |d| < width {
      PaddedValue(width - |d|, d);
    }
  }

  /** A string of w binary digits has a value below 2^w. */
  lemma {:induction false} ValueBound(s: string)
    ensures Value(s) < Pow2(|s|)
    decreases |s|
  {
    if s != [] {
      ValueBound(s[..|s| - 1]);
    }
  }

  /** A number below 2^width is rendered in exactly width characters. */
  lemma FormatWidth(n: nat, width: nat)
    requires 1 <= width && n < Pow2(width)
    ensures |Format(n, width)| == width
  {
    DigitsShort(n, width);
  }

  /** A product of a factor of at least 1 and a positive d is at least d. */
  lemma {:induction false} MulAtLeast(x: nat, d: nat)
    requires x >= 1
    ensures x * d >= d
    decreases x
  {
    if x > 1 {
      MulAtLeast(x - 1, d);
      assert x * d == (x - 1) * d + d;
    }
  }

  /** Euclidean division is determined by its quotient and remainder. */
  lemma DivUnique(a: nat, d: nat, q: nat, r: nat)
    requires d >= 1 && a == q * d + r && r < d
    ensures a / d == q
  {
    var q', r' := a / d, a % d;
    assert a == q' * d + r';
    if q' > q {
      assert (q' - q) * d == r - r';
      MulAtLeast(q' - q, d);
    } else if q' < q {
      assert (q - q') * d == r' - r;
      MulAtLeast(q - q', d);
    }
  }

  lemma DivTwice(v: nat, c: nat, p: nat)
    requires c < 2 && p >= 1
    ensures (2 * v + c) / (2 * p) == v / p
  {
    var q, r := v / p, v % p;
    assert v == q * p + r;
    assert 2 * v + c == q * (2 * p) + (2 * r + c);
    DivUnique(2 * v + c, 2 * p, q, 2 * r + c);
  }

  /** Bit k + 1 of 2v + c is bit k of v; bit 0 of it is c. */
  lemma BitOfShift(v: nat, c: nat, k: nat)
    requires c < 2
    ensures Bit(2 * v + c, 0) == (c == 1)
    ensures Bit(2 * v + c, k + 1) == Bit(v, k)
  {
    DivTwice(v, c, Pow2(k));
  }

  /** In a binary string of length w, the character at position j (from the
      left) is '1' exactly when bit w - 1 - j of the string's value is set. */
  lemma {:induction false} CharIsBit(s: string, j: nat)
    requires IsBinary(s) && j < |s|
    ensures s[j] == '1' <==> Bit(Value(s), |s| - 1 - j)
    decreases |s|
  {
    var p, c := s[..|s| - 1], s[|s| - 1];
    assert IsBinary(p);
    if j < |s| - 1 {
      BitOfShift(Value(p), CharValue(c), |s| - 2 - j);
      CharIsBit(p, j);
    } else {
      BitOfShift(Value(p), CharValue(c), 0);
    }
  }

  /** Position j of `{n:0Wb}`, read from the left, shows bit W - 1 - j of n. */
  lemma FormatBits(n: nat, width: nat, j: nat)
    requires 1 <= width && n < Pow2(width) && j < width
    ensures Format(n, width)[j] == '1' <==> Bit(n, width - 1 - j)
    ensures Format(n, width)[j] == '0' <==> !Bit(n, width - 1 - j)
  {
    FormatWidth(n, width);
    FormatRoundTrip(n, width);
    CharIsBit(Format(n, width), j);
  }
}
