/** A bucket of the embedded store: key/value pairs in ascending byte order of their
    keys, as a cursor visits them. The store itself is a library; only this order and
    the effect of Put and Delete matter here. */
module OrderedBucket {
  import opened Common
  import opened KeyOrder

  /** A stored value: the JSON of a GOP's metadata, or bytes that do not decode. */
  datatype Stored = Json(meta: GOPMeta) | Corrupt

  datatype Pair = Pair(key: Bytes, value: Stored)

  type Bucket = seq<Pair>

  ghost predicate Sorted(b: Bucket) {
    forall i, j :: 0 <= i < j < |b| ==> Less(b[i].key, b[j].key)
  }

  /** Cursor position of the first key at or after k. */
  function Seek(b: Bucket, k: Bytes): (i: nat)
    ensures i <= |b|
    ensures forall j :: 0 <= j < i ==> Less(b[j].key, k)
    ensures i < |b| ==> AtMost(k, b[i].key)
  {
    if b == [] || AtMost(k, b[0].key) then 0 else 1 + Seek(b[1..], k)
  }

  function Put(b: Bucket, k: Bytes, v: Stored): Bucket {
    var i := Seek(b, k);
    if i < |b| && b[i].key == k then b[i := Pair(k, v)] else b[..i] + [Pair(k, v)] + b[i..]
  }

  function Delete(b: Bucket, k: Bytes): Bucket {
    var i := Seek(b, k);
    if i < |b| && b[i].key == k then b[..i] + b[i + 1..] else b
  }

  /** The pairs a predicate selects, in cursor order. */
  function Filter(b: Bucket, p: Pair -> bool): Bucket {
    if b == [] then [] else (if p(b[0]) then [b[0]] else []) + Filter(b[1..], p)
  }

  // ---------------------------------------------------------------------------

  lemma {:induction false} SortedAbove(b: Bucket, k: Bytes, i: nat)
    requires Sorted(b) && i <= |b| && (i < |b| ==> AtMost(k, b[i].key))
    ensures forall j :: i < j < |b| ==> Less(k, b[j].key)
  {
    forall j | i < j < |b| ensures Less(k, b[j].key) {
      AtMostLess(k, b[i].key, b[j].key);
    }
  }

  /** Where the cursor position i for key k splits a bucket: keys below k, then from
      position j keys above k, and between them the pair at k if there is one. */
  lemma SplitAt(b: Bucket, k: Bytes, i: nat, j: nat)
    requires Sorted(b) && i <= |b|
    requires forall n :: 0 <= n < i ==> Less(b[n].key, k)
    requires i < |b| ==> AtMost(k, b[i].key)
    requires j == if i < |b| && b[i].key == k then i + 1 else i
    ensures forall e :: e in b[..i] ==> Less(e.key, k)
    ensures forall e :: e in b[i..j] ==> e.key == k
    ensures forall e :: e in b[j..] ==> Less(k, e.key)
    ensures b == b[..i] + b[i..j] + b[j..]
  {
    SortedAbove(b, k, i);
    if i < |b| {
      LessTotal(k, b[i].key);
    }
    forall e | e in b[j..] ensures Less(k, e.key) {
      var n :| 0 <= n < |b[j..]| && b[j..][n] == e;
      assert e == b[j + n];
    }
  }

  lemma Join(lo: Bucket, mid: Bucket, hi: Bucket, k: Bytes)
    requires Sorted(lo) && Sorted(hi) && |mid| <= 1
    requires forall e :: e in lo ==> Less(e.key, k)
    requires forall e :: e in mid ==> e.key == k
    requires forall e :: e in hi ==> Less(k, e.key)
    ensures Sorted(lo + mid + hi)
  {
    var b := lo + mid + hi;
    forall i, j | 0 <= i < j < |b| ensures Less(b[i].key, b[j].key) {
      if i < |lo| + |mid| <= j {
        assert b[j] in hi;
        if i < |lo| {
          assert b[i] in lo;
          LessTransitive(b[i].key, k, b[j].key);
        } else {
          assert b[i] in mid;
        }
      } else if i < |lo| <= j {
        assert b[i] in lo && b[j] in mid;
      }
    }
  }

  lemma PutEffect(b: Bucket, k: Bytes, v: Stored)
    requires Sorted(b)
    ensures Sorted(Put(b, k, v))
    ensures forall e :: e in Put(b, k, v) <==> e == Pair(k, v) || (e in b && e.key != k)
  {
    hide Seek, Less;
    var i := Seek(b, k);
    var j := if i < |b| && b[i].key == k then i + 1 else i;
    SplitAt(b, k, i, j);
    var lo, mid, hi, added := b[..i], b[i..j], b[j..], [Pair(k, v)];
    assert Put(b, k, v) == lo + added + hi;
    Join(lo, added, hi, k);
    LessIrreflexive(k);
    forall e ensures e in Put(b, k, v) <==> e == Pair(k, v) || (e in b && e.key != k) {
      assert e in b <==> e in lo || e in mid || e in hi;
    }
  }

  lemma DeleteEffect(b: Bucket, k: Bytes)
    requires Sorted(b)
    ensures Sorted(Delete(b, k))
    ensures forall e :: e in Delete(b, k) <==> e in b && e.key != k
  {
    hide Seek, Less;
    var i := Seek(b, k);
    var j := if i < |b| && b[i].key == k then i + 1 else i;
    SplitAt(b, k, i, j);
    var lo, mid, hi := b[..i], b[i..j], b[j..];
    var nothing: Bucket := [];
    assert Delete(b, k) == lo + nothing + hi;
    Join(lo, nothing, hi, k);
    LessIrreflexive(k);
    forall e ensures e in Delete(b, k) <==> e in b && e.key != k {
      assert e in b <==> e in lo || e in mid || e in hi;
    }
  }

  /** Putting a pair that is already there changes nothing. */
  lemma PutPresent(b: Bucket, k: Bytes, v: Stored)
    requires Sorted(b) && Pair(k, v) in b
    ensures Put(b, k, v) == b
  {
    PutEffect(b, k, v);
    forall e | e in b && e.key == k ensures e == Pair(k, v) {
      KeyUnique(b, e, Pair(k, v));
    }
    SameContents(Put(b, k, v), b);
  }

  lemma KeyUnique(b: Bucket, d: Pair, e: Pair)
    requires Sorted(b) && d in b && e in b && d.key == e.key
    ensures d == e
  {
    var i :| 0 <= i < |b| && b[i] == d;
    var j :| 0 <= j < |b| && b[j] == e;
    LessIrreflexive(d.key);
  }

  /** A bucket is determined by its pairs. */
  lemma {:induction false} SameContents(a: Bucket, b: Bucket)
    requires Sorted(a) && Sorted(b) && forall e :: e in a <==> e in b
    ensures a == b
  {
    assert a != [] ==> a[0] in b;
    assert b != [] ==> b[0] in a;
    if a != [] {
      if a[0] != b[0] {
        var i :| 0 <= i < |b| && b[i] == a[0];
        var j :| 0 <= j < |a| && a[j] == b[0];
        assert Less(b[0].key, a[0].key) && Less(a[0].key, b[0].key);
        LessAsymmetric(a[0].key, b[0].key);
        assert false;
      }
      forall e ensures e in a[1..] <==> e in b[1..] {
        TailMember(a, e);
        TailMember(b, e);
      }
      SameContents(a[1..], b[1..]);
      assert a == [a[0]] + a[1..] && b == [b[0]] + b[1..];
    }
  }

  lemma TailMember(a: Bucket, e: Pair)
    requires Sorted(a) && a != []
    ensures e in a[1..] <==> e in a && e != a[0]
  {
    LessIrreflexive(a[0].key);
    if e in a[1..] {
      var i :| 0 <= i < |a[1..]| && a[1..][i] == e;
      assert Less(a[0].key, a[i + 1].key);
    }
    if e in a && e != a[0] {
      var i :| 0 <= i < |a| && a[i] == e;
      assert a[1..][i - 1] == e;
    }
  }

  // ---------------------------------------------------------------------------

  lemma FilterMembers(b: Bucket, p: Pair -> bool)
    ensures forall e :: e in Filter(b, p) <==> e in b && p(e)
    ensures Sorted(b) ==> Sorted(Filter(b, p))
  {
    hide Sorted, Filter;
    FilterContents(b, p);
    if Sorted(b) {
      FilterSorted(b, p);
    }
  }

  lemma {:induction false} FilterContents(b: Bucket, p: Pair -> bool)
    ensures forall e :: e in Filter(b, p) <==> e in b && p(e)
  {
    if b != [] {
      FilterContents(b[1..], p);
      assert b == [b[0]] + b[1..];
    }
  }

  lemma {:induction false} FilterSorted(b: Bucket, p: Pair -> bool)
    requires Sorted(b)
    ensures Sorted(Filter(b, p))
  {
    hide Less;
    if b != [] {
      var tail, rest := b[1..], Filter(b[1..], p);
      FilterSorted(tail, p);
      FilterContents(tail, p);
      TailAbove(b);
      if p(b[0]) {
        Join([], [b[0]], rest, b[0].key);
        assert Filter(b, p) == [] + [b[0]] + rest;
      } else {
        assert Filter(b, p) == rest;
      }
    }
  }

  lemma TailAbove(b: Bucket)
    requires b != [] && Sorted(b)
    ensures Sorted(b[1..]) && forall e :: e in b[1..] ==> Less(b[0].key, e.key)
  {
    hide Less;
    forall e | e in b[1..] ensures Less(b[0].key, e.key) {
      var i :| 0 <= i < |b[1..]| && b[1..][i] == e;
      assert e == b[i + 1];
    }
  }

  lemma FilterCons(b: Bucket, p: Pair -> bool)
    requires b != []
    ensures Filter(b, p) == (if p(b[0]) then [b[0]] else []) + Filter(b[1..], p)
  {
  }

  lemma {:induction false} FilterConcat(a: Bucket, b: Bucket, p: Pair -> bool)
    ensures Filter(a + b, p) == Filter(a, p) + Filter(b, p)
  {
    if a == [] {
      assert a + b == b;
    } else {
      hide Filter;
      assert (a + b)[1..] == a[1..] + b;
      FilterCons(a, p);
      FilterCons(a + b, p);
      FilterConcat(a[1..], b, p);
    }
  }

  lemma {:induction false} FilterNothing(b: Bucket, p: Pair -> bool)
    requires forall e :: e in b ==> !p(e)
    ensures Filter(b, p) == []
  {
    if b != [] {
      FilterNothing(b[1..], p);
    }
  }

  /** One cursor step of a scan that has handled the first i pairs. */
  lemma FilterStep(b: Bucket, p: Pair -> bool, i: nat)
    requires i < |b|
    ensures Filter(b[..i + 1], p) == Filter(b[..i], p) + if p(b[i]) then [b[i]] else []
  {
    assert b[..i + 1] == b[..i] + [b[i]];
    FilterConcat(b[..i], [b[i]], p);
    assert Filter([b[i]], p) == (if p(b[i]) then [b[i]] else []) + Filter([b[i]][1..], p);
  }

  /** A scan from Seek(lo) until the first key above hi has seen every pair that a
      predicate confined to [lo, hi] can select. */
  lemma ScanComplete(b: Bucket, p: Pair -> bool, lo: Bytes, hi: Bytes, i: nat)
    requires Sorted(b) && i <= |b|
    requires forall e :: p(e) ==> AtMost(lo, e.key) && AtMost(e.key, hi)
    requires i < |b| ==> Less(hi, b[i].key)
    ensures Filter(b, p) == Filter(b[..i], p)
    ensures Filter(b[..Seek(b, lo)], p) == []
  {
    forall e | e in b[i..] ensures !p(e) {
      var j :| 0 <= j < |b[i..]| && b[i..][j] == e;
      assert e == b[i + j];
      if j > 0 {
        LessTransitive(hi, b[i].key, b[i + j].key);
      }
    }
    FilterNothing(b[i..], p);
    FilterConcat(b[..i], b[i..], p);
    assert b == b[..i] + b[i..];
    FilterNothing(b[..Seek(b, lo)], p);
  }
}
