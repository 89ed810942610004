/** The byte order of index keys: lexicographic comparison, fixed-width positional
    digits, and the decimal text that Go's "%d" prints. */
module KeyOrder {
  import opened Common

  predicate Less(a: Bytes, b: Bytes) {
    |b| > 0 && (|a| == 0 || a[0] < b[0] || (a[0] == b[0] && Less(a[1..], b[1..])))
  }

  predicate AtMost(a: Bytes, b: Bytes) {
    !Less(b, a)
  }

  lemma {:induction false} LessTransitive(a: Bytes, b: Bytes, c: Bytes)
    requires Less(a, b) && Less(b, c)
    ensures Less(a, c)
  {
    if |a| > 0 && a[0] == b[0] == c[0] {
      LessTransitive(a[1..], b[1..], c[1..]);
    }
  }

  lemma {:induction false} LessIrreflexive(a: Bytes)
    ensures !Less(a, a)
  {
    if |a| > 0 {
      LessIrreflexive(a[1..]);
    }
  }

  lemma LessAsymmetric(a: Bytes, b: Bytes)
    requires Less(a, b)
    ensures !Less(b, a) && a != b
  {
    LessIrreflexive(a);
    if Less(b, a) {
      LessTransitive(a, b, a);
    }
  }

  lemma {:induction false} LessTotal(a: Bytes, b: Bytes)
    ensures Less(a, b) || Less(b, a) || a == b
  {
    if |a| > 0 && |b| > 0 && a[0] == b[0] {
      LessTotal(a[1..], b[1..]);
      assert a == [a[0]] + a[1..] && b == [b[0]] + b[1..];
    }
  }

  lemma AtMostLess(a: Bytes, b: Bytes, c: Bytes)
    ensures AtMost(a, b) && Less(b, c) ==> Less(a, c)
    ensures Less(a, b) && AtMost(b, c) ==> Less(a, c)
  {
    LessTotal(a, b);
    LessTotal(b, c);
    if AtMost(a, b) && Less(b, c) && a != b {
      LessTransitive(a, b, c);
    }
    if Less(a, b) && AtMost(b, c) && b != c {
      LessTransitive(a, b, c);
    }
  }

  /** A shared prefix does not influence the order. */
  lemma {:induction false} LessPrefix(p: Bytes, a: Bytes, b: Bytes)
    ensures Less(p + a, p + b) <==> Less(a, b)
  {
    if |p| == 0 {
      assert p + a == a && p + b == b;
    } else {
      assert (p + a)[1..] == p[1..] + a && (p + b)[1..] == p[1..] + b;
      LessPrefix(p[1..], a, b);
    }
  }

  /** Appending one byte to keys of equal length refines the order. */
  lemma {:induction false} LessAppend(a: Bytes, b: Bytes, x: byte, y: byte)
    requires |a| == |b|
    ensures Less(a + [x], b + [y]) <==> Less(a, b) || (a == b && x < y)
  {
    if |a| == 0 {
      assert a + [x] == [x] && b + [y] == [y];
    } else {
      assert (a + [x])[1..] == a[1..] + [x] && (b + [y])[1..] == b[1..] + [y];
      LessAppend(a[1..], b[1..], x, y);
      assert a == b <==> a[0] == b[0] && a[1..] == b[1..] by {
        assert a == [a[0]] + a[1..] && b == [b[0]] + b[1..];
      }
    }
  }

  // ---------------------------------------------------------------------------
  // Positional digits
  // ---------------------------------------------------------------------------

  function Pow(base: nat, k: nat): nat {
    if k == 0 then 1 else base * Pow(base, k - 1)
  }

  /** The low `width` digits of n in the given base, most significant first, each
      written as the byte `zero + digit`. */
  function Digits(n: nat, base: nat, zero: nat, width: nat): (r: Bytes)
    requires 2 <= base && zero + base <= 256
    ensures |r| == width
    ensures forall i :: 0 <= i < width ==> zero <= r[i] as int < zero + base
    decreases width
  {
    if width == 0 then [] else Digits(n / base, base, zero, width - 1) + [(zero + n % base) as byte]
  }

  lemma {:induction false} MulStep(base: nat, q: nat, q': nat)
    requires q < q'
    ensures base * q + base <= base * q'
    decreases q'
  {
    if q + 1 < q' {
      MulStep(base, q, q' - 1);
    }
    assert base * q' == base * (q' - 1) + base;
  }

  /** Comparing numbers through their quotients and remainders. */
  lemma QuotientOrder(base: nat, q: nat, r: nat, q': nat, r': nat)
    requires r < base && r' < base
    ensures base * q + r < base * q' + r' <==> q < q' || (q == q' && r < r')
    ensures base * q + r == base * q' + r' ==> q == q'
  {
    if q < q' {
      MulStep(base, q, q');
    } else if q > q' {
      MulStep(base, q', q);
    }
  }

  /** The last digit split off. */
  lemma LastDigit(n: nat, base: nat, zero: nat, width: nat) returns (q: nat, r: nat)
    requires 2 <= base && zero + base <= 256 && 0 < width && n < Pow(base, width)
    ensures n == base * q + r && r < base && q < Pow(base, width - 1)
    ensures Digits(n, base, zero, width) == Digits(q, base, zero, width - 1) + [(zero + r) as byte]
  {
    q, r := n / base, n % base;
    QuotientOrder(base, q, r, Pow(base, width - 1), 0);
  }

  /** Numbers of equal digit width are ordered like their digit strings. */
  lemma {:induction false} DigitsOrder(m: nat, n: nat, base: nat, zero: nat, width: nat)
    requires 2 <= base && zero + base <= 256
    requires m < Pow(base, width) && n < Pow(base, width)
    ensures Less(Digits(m, base, zero, width), Digits(n, base, zero, width)) <==> m < n
    ensures Digits(m, base, zero, width) == Digits(n, base, zero, width) ==> m == n
    decreases width
  {
    if width > 0 {
      var q, r := LastDigit(m, base, zero, width);
      var q', r' := LastDigit(n, base, zero, width);
      DigitsOrder(q, q', base, zero, width - 1);
      hide Digits, Less, Pow;
      var a, b := Digits(q, base, zero, width - 1), Digits(q', base, zero, width - 1);
      LessAppend(a, b, (zero + r) as byte, (zero + r') as byte);
      AppendInjective(a, b, (zero + r) as byte, (zero + r') as byte);
      QuotientOrder(base, q, r, q', r');
    }
  }

  lemma AppendInjective(a: Bytes, b: Bytes, x: byte, y: byte)
    ensures a + [x] == b + [y] ==> a == b && x == y
  {
    if a + [x] == b + [y] {
      assert a == (a + [x])[..|a|] && b == (b + [y])[..|b|];
      assert x == (a + [x])[|a|] && y == (b + [y])[|b|];
    }
  }

  /** Keys that differ only in a fixed-width number at the end are ordered by it. */
  lemma SuffixOrder(p: Bytes, m: nat, n: nat, base: nat, zero: nat, width: nat)
    requires 2 <= base && zero + base <= 256
    requires m < Pow(base, width) && n < Pow(base, width)
    ensures Less(p + Digits(m, base, zero, width), p + Digits(n, base, zero, width)) <==> m < n
    ensures p + Digits(m, base, zero, width) == p + Digits(n, base, zero, width) ==> m == n
  {
    var a, b := Digits(m, base, zero, width), Digits(n, base, zero, width);
    LessPrefix(p, a, b);
    DigitsOrder(m, n, base, zero, width);
    assert a == (p + a)[|p|..] && b == (p + b)[|p|..];
  }

  // ---------------------------------------------------------------------------
  // Decimal text
  // ---------------------------------------------------------------------------

  const ASCII_ZERO: nat := 48
  const ASCII_MINUS: byte := 45
  const ASCII_COLON: byte := 58

  function DecimalWidth(n: nat): (w: nat)
    ensures w >= 1
  {
    if n < 10 then 1 else DecimalWidth(n / 10) + 1
  }

  /** What "%d" prints for a non-negative number: no leading zeros. */
  function Decimal(n: nat): (r: Bytes)
  {
    Digits(n, 10, ASCII_ZERO, DecimalWidth(n))
  }

  function IntText(n: int): Bytes {
    if n < 0 then [ASCII_MINUS] + Decimal(-n) else Decimal(n)
  }

  lemma {:induction false} DecimalWidthBounds(n: nat)
    ensures n < Pow(10, DecimalWidth(n))
    ensures n > 0 ==> Pow(10, DecimalWidth(n) - 1) <= n
  {
    if n >= 10 {
      DecimalWidthBounds(n / 10);
      assert Pow(10, DecimalWidth(n)) == 10 * Pow(10, DecimalWidth(n / 10));
    } else {
      assert Pow(10, 1) == 10 * Pow(10, 0) && Pow(10, 0) == 1;
    }
  }

  lemma {:induction false} PowMonotone(j: nat, k: nat)
    requires j <= k
    ensures Pow(10, j) <= Pow(10, k)
  {
    if j < k {
      PowMonotone(j, k - 1);
    }
  }

  lemma DecimalWidthIs(n: nat, k: nat)
    requires k >= 1 && Pow(10, k - 1) <= n < Pow(10, k)
    ensures DecimalWidth(n) == k
  {
    DecimalWidthBounds(n);
    var w := DecimalWidth(n);
    PowMonotone(0, k - 1);
    if w < k {
      PowMonotone(w, k - 1);
    } else if w > k {
      PowMonotone(k, w - 1);
    }
  }

  lemma DecimalInjective(m: nat, n: nat)
    requires Decimal(m) == Decimal(n)
    ensures m == n
  {
    DecimalWidthBounds(m);
    DecimalWidthBounds(n);
    DigitsOrder(m, n, 10, ASCII_ZERO, DecimalWidth(m));
  }

  // ---------------------------------------------------------------------------
  // Decimal texts of different lengths
  // ---------------------------------------------------------------------------

  /** A shorter key sorts before a longer one exactly if it is at most its beginning. */
  lemma {:induction false} LessLonger(a: Bytes, b: Bytes)
    requires |a| < |b|
    ensures Less(a, b) <==> a == b[..|a|] || Less(a, b[..|a|])
  {
    if |a| > 0 {
      assert b[..|a|][1..] == b[1..][..|a| - 1];
      assert a == b[..|a|] <==> a[0] == b[0] && a[1..] == b[1..][..|a| - 1] by {
        assert a == [a[0]] + a[1..] && b[..|a|] == [b[0]] + b[1..][..|a| - 1];
      }
      LessLonger(a[1..], b[1..]);
    }
  }

  lemma DivideTwice(n: nat, p: nat)
    requires p > 0
    ensures n / 10 / p == n / (10 * p)
  {
    var q, r := n / 10 / p, n / 10 % p;
    assert n / 10 == p * q + r;
    assert n == 10 * p * q + (10 * r + n % 10) && 10 * r + n % 10 < 10 * p;
    Quotient(n, 10 * p, q, 10 * r + n % 10);
  }

  lemma Quotient(n: nat, d: nat, q: nat, r: nat)
    requires n == d * q + r && r < d
    ensures n / d == q
  {
    QuotientOrder(d, n / d, n % d, q, r);
    QuotientOrder(d, q, r, n / d, n % d);
  }

  lemma {:induction false} PowPositive(k: nat)
    ensures Pow(10, k) > 0
  {
    if k > 0 {
      PowPositive(k - 1);
    }
  }

  /** The first k of w digits are the digits of the number without the other ones. */
  lemma {:induction false} LeadingDigits(n: nat, k: nat, w: nat)
    requires k <= w
    ensures Pow(10, w - k) > 0
    ensures Digits(n, 10, ASCII_ZERO, w)[..k] == Digits(n / Pow(10, w - k), 10, ASCII_ZERO, k)
    decreases w
  {
    PowPositive(w - k);
    if k < w {
      PowPositive(w - 1 - k);
      LeadingDigits(n / 10, k, w - 1);
      DivideTwice(n, Pow(10, w - 1 - k));
      assert Pow(10, w - k) == 10 * Pow(10, w - 1 - k);
    } else {
      assert Digits(n, 10, ASCII_ZERO, w)[..k] == Digits(n, 10, ASCII_ZERO, w);
    }
  }

  /** How the texts of two natural numbers compare: with equally many digits like the
      numbers, and otherwise after the longer one is cut to the length of the shorter. */
  predicate DecimalLess(m: nat, n: nat) {
    var wm, wn := DecimalWidth(m), DecimalWidth(n);
    if wm == wn then m < n
    else if wm < wn then PowPositive(wn - wm); m <= n / Pow(10, wn - wm)
    else PowPositive(wm - wn); m / Pow(10, wm - wn) < n
  }

  lemma DecimalOrder(m: nat, n: nat)
    ensures Less(Decimal(m), Decimal(n)) <==> DecimalLess(m, n)
  {
    var wm, wn := DecimalWidth(m), DecimalWidth(n);
    DecimalWidthBounds(m);
    DecimalWidthBounds(n);
    if wm == wn {
      DigitsOrder(m, n, 10, ASCII_ZERO, wm);
    } else if wm < wn {
      CutOrder(m, n);
    } else {
      CutOrder(n, m);
      LessTotal(Decimal(m), Decimal(n));
      if Less(Decimal(n), Decimal(m)) {
        LessAsymmetric(Decimal(n), Decimal(m));
      }
    }
  }

  lemma CutOrder(m: nat, n: nat)
    requires DecimalWidth(m) < DecimalWidth(n)
    ensures Pow(10, DecimalWidth(n) - DecimalWidth(m)) > 0
    ensures Less(Decimal(m), Decimal(n)) <==> m <= n / Pow(10, DecimalWidth(n) - DecimalWidth(m))
  {
    hide Less, Pow, DecimalWidth, Digits;
    var wm, wn := DecimalWidth(m), DecimalWidth(n);
    DecimalWidthBounds(m);
    DecimalWidthBounds(n);
    LeadingDigits(n, wm, wn);
    CutBound(n, wm, wn);
    CutCompare(m, n / Pow(10, wn - wm), wm, Decimal(n));
  }

  lemma CutCompare(m: nat, cut: nat, w: nat, b: Bytes)
    requires m < Pow(10, w) && cut < Pow(10, w) && w < |b| && b[..w] == Digits(cut, 10, ASCII_ZERO, w)
    ensures Less(Digits(m, 10, ASCII_ZERO, w), b) <==> m <= cut
  {
    hide Less, Pow, Digits;
    LessLonger(Digits(m, 10, ASCII_ZERO, w), b);
    DigitsOrder(m, cut, 10, ASCII_ZERO, w);
  }

  lemma CutBound(n: nat, k: nat, w: nat)
    requires k <= w && n < Pow(10, w)
    ensures Pow(10, w - k) > 0 && n / Pow(10, w - k) < Pow(10, k)
  {
    hide Pow;
    PowPositive(w - k);
    PowSplit(k, w - k);
    var p := Pow(10, w - k);
    QuotientOrder(p, n / p, n % p, Pow(10, k), 0);
  }

  lemma {:induction false} PowSplit(j: nat, k: nat)
    ensures Pow(10, j + k) == Pow(10, k) * Pow(10, j)
  {
    if k > 0 {
      PowSplit(j, k - 1);
      assert Pow(10, j + k) == 10 * Pow(10, j + k - 1);
      assert 10 * (Pow(10, k - 1) * Pow(10, j)) == 10 * Pow(10, k - 1) * Pow(10, j);
    }
  }

  /** How "%d" texts of any two numbers compare: the minus sign sorts before every digit,
      and below zero the larger magnitude sorts later. */
  predicate TextLess(s: int, t: int) {
    if s < 0 && t < 0 then DecimalLess(-s, -t)
    else if s < 0 || t < 0 then s < 0
    else DecimalLess(s, t)
  }

  lemma TextOrder(s: int, t: int)
    ensures Less(IntText(s), IntText(t)) <==> TextLess(s, t)
  {
    hide Decimal, DecimalLess;
    if s < 0 && t < 0 {
      LessPrefix([ASCII_MINUS], Decimal(-s), Decimal(-t));
      DecimalOrder(-s, -t);
    } else if s < 0 {
      FirstDigit(t);
    } else if t < 0 {
      FirstDigit(s);
    } else {
      DecimalOrder(s, t);
    }
  }

  lemma FirstDigit(n: nat)
    ensures Decimal(n) != [] && Decimal(n)[0] > ASCII_MINUS
  {
  }

  lemma TextInjective(s: int, t: int)
    requires IntText(s) == IntText(t)
    ensures s == t
  {
    hide Decimal;
    if s < 0 && t < 0 {
      assert Decimal(-s) == IntText(s)[1..] && Decimal(-t) == IntText(t)[1..];
      DecimalInjective(-s, -t);
    } else if s < 0 {
      FirstDigit(t);
    } else if t < 0 {
      FirstDigit(s);
    } else {
      DecimalInjective(s, t);
    }
  }

  predicate HasWidth(n: int, k: nat) {
    n >= 0 && DecimalWidth(n) == k
  }

  /** The numbers of j digits and those of k digits are all in text order if and only if
      these are equally many digits. */
  lemma WidthsInOrder(j: nat, k: nat)
    requires 1 <= j && 1 <= k
    ensures (forall s, t :: HasWidth(s, j) && HasWidth(t, k) ==> (TextLess(s, t) <==> s < t)) <==> j == k
  {
    if j < k {
      var s, t := NinesAndTen(j, k);
    } else if k < j {
      var s, t := NinesAndTen(k, j);
      assert HasWidth(t, j) && HasWidth(s, k);
    }
  }

  /** The largest number of j digits and the smallest of k: 9 and 10, 99 and 1000. */
  lemma NinesAndTen(j: nat, k: nat) returns (s: nat, t: nat)
    requires 1 <= j < k
    ensures HasWidth(s, j) && HasWidth(t, k) && s < t && !TextLess(s, t) && TextLess(t, s)
  {
    PowPositive(j - 1);
    assert Pow(10, j) == 10 * Pow(10, j - 1);
    s, t := Pow(10, j) - 1, Pow(10, k - 1);
    DecimalWidthIs(s, j);
    PowMonotone(j, k - 1);
    assert Pow(10, k) == 10 * Pow(10, k - 1);
    DecimalWidthIs(t, k);
    PowSplit(j - 1, k - j);
    PowPositive(k - j);
    Quotient(t, Pow(10, k - j), Pow(10, j - 1), 0);
  }

  /** Nineteen decimal digits: every int64 nanosecond count from September 2001 on. */
  predicate NineteenDigits(n: int) {
    1_000_000_000_000_000_000 <= n < TWO_63
  }

  const NINETEEN: nat := 19

  lemma NineteenDigitsWidth(n: int)
    requires NineteenDigits(n)
    ensures DecimalWidth(n) == NINETEEN
  {
    assert Pow(10, 4) == 10_000;
    assert Pow(10, 8) == 10_000 * Pow(10, 4);
    assert Pow(10, 12) == 10_000 * Pow(10, 8);
    assert Pow(10, 16) == 10_000 * Pow(10, 12);
    assert Pow(10, 18) == 100 * Pow(10, 16);
    DecimalWidthIs(n, 19);
  }
}
