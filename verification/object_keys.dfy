/** The text of object keys. The directory part (camera and date, cleaned by the path
    library) is a parameter; the file part is what tells keys apart. */
module ObjectKeys {
  import opened Common
  import opened KeyOrder

  const ASCII_SLASH: byte := 47
  const MILLISECOND: int := 1_000_000
  const SEQUENCE_WIDTH: nat := 6

  const FRAGMENT_SUFFIX: Bytes := [46, 102, 114, 97, 103]                 // ".frag"
  const INIT_SUFFIX: Bytes := [46, 109, 112, 52, 105, 110, 105, 116]      // ".mp4init"

  /** "%06d" */
  function Padded(n: nat): Bytes {
    Digits(n, 10, ASCII_ZERO, if DecimalWidth(n) < SEQUENCE_WIDTH then SEQUENCE_WIDTH else DecimalWidth(n))
  }

  function FileName(ts: Time, sequence: nat, suffix: Bytes): Bytes {
    IntText(ts.ns / MILLISECOND) + [ASCII_MINUS] + Padded(sequence) + suffix
  }

  function BuildObjectKey(dir: Bytes, ts: Time, sequence: nat, suffix: Bytes): Bytes {
    dir + [ASCII_SLASH] + FileName(ts, sequence, suffix)
  }

  lemma PaddedInjective(m: nat, n: nat)
    requires Padded(m) == Padded(n)
    ensures m == n
  {
    DecimalWidthBounds(m);
    DecimalWidthBounds(n);
    PowMonotone(DecimalWidth(m), |Padded(m)|);
    PowMonotone(DecimalWidth(n), |Padded(n)|);
    DigitsOrder(m, n, 10, ASCII_ZERO, |Padded(m)|);
  }

  /** What follows the last dash is the same in equal strings. */
  lemma LastDash(a: Bytes, p: Bytes, b: Bytes, q: Bytes)
    requires a + [ASCII_MINUS] + p == b + [ASCII_MINUS] + q
    requires ASCII_MINUS !in p && ASCII_MINUS !in q
    ensures p == q
  {
    var s := a + [ASCII_MINUS] + p;
    assert s[|a|] == ASCII_MINUS && s[|b|] == ASCII_MINUS;
    assert p == s[|a| + 1..] && q == s[|b| + 1..];
  }

  lemma NoDash(n: nat)
    ensures ASCII_MINUS !in Padded(n)
  {
  }

  /** Keys with the same suffix determine the sequence number, whatever the directory and
      the timestamp are. */
  lemma SequenceOfKey(dir: Bytes, ts: Time, m: nat, dir': Bytes, ts': Time, n: nat, suffix: Bytes)
    requires BuildObjectKey(dir, ts, m, suffix) == BuildObjectKey(dir', ts', n, suffix)
    ensures m == n
  {
    hide Padded, IntText;
    var head, head' := dir + [ASCII_SLASH] + IntText(ts.ns / MILLISECOND), dir' + [ASCII_SLASH] + IntText(ts'.ns / MILLISECOND);
    var s, s' := head + [ASCII_MINUS] + Padded(m), head' + [ASCII_MINUS] + Padded(n);
    assert BuildObjectKey(dir, ts, m, suffix) == s + suffix;
    assert BuildObjectKey(dir', ts', n, suffix) == s' + suffix;
    assert s == (s + suffix)[..|s|] && s' == (s' + suffix)[..|s'|];
    NoDash(m);
    NoDash(n);
    LastDash(head, Padded(m), head', Padded(n));
    PaddedInjective(m, n);
  }

  /** Keys of one directory with the same suffix and sequence number are equal exactly when
      their times are of the same millisecond. */
  lemma TimeOfKey(dir: Bytes, ts: Time, ts': Time, n: nat, suffix: Bytes)
    ensures BuildObjectKey(dir, ts, n, suffix) == BuildObjectKey(dir, ts', n, suffix)
       <==> ts.ns / 1_000_000 == ts'.ns / 1_000_000
  {
    hide Padded, IntText;
    var text, text' := IntText(ts.ns / MILLISECOND), IntText(ts'.ns / MILLISECOND);
    var head, tail := dir + [ASCII_SLASH], [ASCII_MINUS] + Padded(n) + suffix;
    assert BuildObjectKey(dir, ts, n, suffix) == head + text + tail;
    assert BuildObjectKey(dir, ts', n, suffix) == head + text' + tail;
    if head + text + tail == head + text' + tail {
      assert |text| == |text'|;
      assert text == (head + text + tail)[|head|..|head| + |text|];
      assert text' == (head + text' + tail)[|head|..|head| + |text'|];
      TextInjective(ts.ns / MILLISECOND, ts'.ns / MILLISECOND);
    }
  }

  /** Sequence numbers are written with at least six digits, so that keys of one directory and
      millisecond below a million sort in the order of their sequence numbers. */
  lemma SequenceOrder(dir: Bytes, ts: Time, m: nat, n: nat, suffix: Bytes)
    requires m < 1_000_000 && n < 1_000_000 && m != n
    ensures Less(BuildObjectKey(dir, ts, m, suffix), BuildObjectKey(dir, ts, n, suffix)) <==> m < n
  {
    hide IntText, Digits;
    assert Pow(10, 6) == 1_000_000;
    var head := dir + [ASCII_SLASH] + IntText(ts.ns / MILLISECOND) + [ASCII_MINUS];
    SixDigits(m);
    SixDigits(n);
    assert BuildObjectKey(dir, ts, m, suffix) == head + (Digits(m, 10, ASCII_ZERO, 6) + suffix);
    assert BuildObjectKey(dir, ts, n, suffix) == head + (Digits(n, 10, ASCII_ZERO, 6) + suffix);
    LessPrefix(head, Digits(m, 10, ASCII_ZERO, 6) + suffix, Digits(n, 10, ASCII_ZERO, 6) + suffix);
    DigitsOrder(m, n, 10, ASCII_ZERO, 6);
    LessExtended(Digits(m, 10, ASCII_ZERO, 6), Digits(n, 10, ASCII_ZERO, 6), suffix, suffix);
  }

  lemma SixDigits(n: nat)
    requires n < 1_000_000
    ensures Padded(n) == Digits(n, 10, ASCII_ZERO, 6)
  {
    hide Digits;
    DecimalWidthBounds(n);
    if DecimalWidth(n) > 6 {
      PowMonotone(6, DecimalWidth(n) - 1);
      assert Pow(10, 6) == 1_000_000;
    }
  }

  /** What follows two different texts of one length does not change their order. */
  lemma {:induction false} LessExtended(a: Bytes, b: Bytes, p: Bytes, q: Bytes)
    requires |a| == |b| && a != b
    ensures Less(a + p, b + q) <==> Less(a, b)
  {
    assert (a + p)[1..] == a[1..] + p && (b + q)[1..] == b[1..] + q;
    if a[0] == b[0] {
      assert a == [a[0]] + a[1..] && b == [b[0]] + b[1..];
      LessExtended(a[1..], b[1..], p, q);
    }
  }

  /** A fragment never has the key of an init segment. */
  lemma SuffixesDiffer(dir: Bytes, ts: Time, m: nat, dir': Bytes, ts': Time, n: nat)
    ensures BuildObjectKey(dir, ts, m, FRAGMENT_SUFFIX) != BuildObjectKey(dir', ts', n, INIT_SUFFIX)
  {
    hide Padded, IntText;
    var k, k' := BuildObjectKey(dir, ts, m, FRAGMENT_SUFFIX), BuildObjectKey(dir', ts', n, INIT_SUFFIX);
    assert k[|k| - 1] == FRAGMENT_SUFFIX[4] && k'[|k'| - 1] == INIT_SUFFIX[7];
  }
}
