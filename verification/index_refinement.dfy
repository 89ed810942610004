/** Both layouts of the index against the plain table they stand for: a map from camera
    and instant to the metadata of the GOP that starts there. */
module IndexRefinement {
  import opened Common
  import opened KeyOrder
  import opened OrderedBucket
  import opened Index
  import opened DayCover

  datatype Id = Id(camera: Bytes, ns: int)

  type Table = map<Id, GOPMeta>

  /** Instants that survive the conversion to an unsigned key: non-negative UnixNano. */
  predicate IsInstant(ns: int) {
    0 <= ns < TWO_63
  }

  /** Every entry starts at the instant it is filed under, written with offset w. */
  ghost predicate TableOf(m: Table, w: int) {
    forall id :: id in m ==> IsInstant(id.ns) && m[id].start == Time(id.ns, w)
  }

  predicate InRange(camera: Bytes, start: Time, end: Time, id: Id) {
    id.camera == camera && start.ns <= id.ns <= end.ns
  }

  function Erased(m: Table, camera: Bytes, start: Time, end: Time): Table {
    map id | id in m && !InRange(camera, start, end, id) :: m[id]
  }

  ghost predicate Ascending(r: seq<GOPMeta>) {
    forall i, j :: 0 <= i < j < |r| ==> r[i].start.ns < r[j].start.ns
  }

  /** What a range query should return: the entries of the camera in [start, end], each
      once, in ascending order of time. */
  ghost predicate IsListing(r: seq<GOPMeta>, m: Table, camera: Bytes, start: Time, end: Time) {
    && Ascending(r)
    && (forall g :: g in r <==> Entry(m, camera, g) && start.ns <= g.start.ns <= end.ns)
  }

  predicate Entry(m: Table, camera: Bytes, g: GOPMeta) {
    Id(camera, g.start.ns) in m && m[Id(camera, g.start.ns)] == g
  }

  /** There is only one such list. */
  lemma {:induction false} ListingUnique(a: seq<GOPMeta>, b: seq<GOPMeta>)
    requires Ascending(a) && Ascending(b)
    requires forall g :: g in a <==> g in b
    ensures a == b
  {
    assert a != [] ==> a[0] in b;
    assert b != [] ==> b[0] in a;
    if a != [] {
      assert a[0] == b[0];
      forall g ensures g in a[1..] <==> g in b[1..] {
        AscendingTail(a, g);
        AscendingTail(b, g);
      }
      ListingUnique(a[1..], b[1..]);
      assert a == [a[0]] + a[1..] && b == [b[0]] + b[1..];
    }
  }

  lemma AscendingTail(a: seq<GOPMeta>, g: GOPMeta)
    requires a != [] && Ascending(a)
    ensures g in a[1..] <==> g in a && g != a[0]
  {
    if g in a[1..] {
      var i :| 0 <= i < |a[1..]| && a[1..][i] == g;
      assert a[0].start.ns < a[i + 1].start.ns;
    }
    if g in a && g != a[0] {
      var i :| 0 <= i < |a| && a[i] == g;
      assert a[1..][i - 1] == g;
    }
  }

  // ---------------------------------------------------------------------------
  // Key order
  // ---------------------------------------------------------------------------

  lemma Pow256()
    ensures Pow(256, WORD_BYTES) == TWO_64
  {
    assert Pow(256, 2) == 65536;
    assert Pow(256, 4) == 65536 * Pow(256, 2);
    assert Pow(256, 6) == 65536 * Pow(256, 4);
  }

  /** Binary keys of one camera are ordered like the unsigned images of their times. */
  lemma UnsignedKeyOrder(camera: Bytes, s: int, t: int)
    ensures Less(MakeBinaryKey(camera, s), MakeBinaryKey(camera, t)) <==> Unsigned64(s) < Unsigned64(t)
    ensures MakeBinaryKey(camera, s) == MakeBinaryKey(camera, t) ==> Unsigned64(s) == Unsigned64(t)
  {
    Pow256();
    SuffixOrder(BinaryKeyHead(camera), Unsigned64(s), Unsigned64(t), 256, 0, WORD_BYTES);
  }

  /** So they are ordered like the instants themselves when these are not negative. */
  lemma BinaryKeyOrder(camera: Bytes, s: int, t: int)
    requires IsInstant(s) && IsInstant(t)
    ensures Less(MakeBinaryKey(camera, s), MakeBinaryKey(camera, t)) <==> s < t
    ensures MakeBinaryKey(camera, s) == MakeBinaryKey(camera, t) ==> s == t
  {
    UnsignedKeyOrder(camera, s, t);
    UnsignedOf(s);
    UnsignedOf(t);
  }

  lemma UnsignedOf(n: int)
    requires -TWO_63 <= n < TWO_63
    ensures Unsigned64(n) == if n < 0 then n + TWO_64 else n
  {
  }

  /** A negative time sorts after every non-negative one: the sign bit becomes the top
      bit of the unsigned key. */
  lemma NegativeKeysSortLast(camera: Bytes, s: int, t: int)
    requires -TWO_63 <= s < 0 <= t < TWO_63
    ensures Less(MakeBinaryKey(camera, t), MakeBinaryKey(camera, s))
  {
    UnsignedKeyOrder(camera, t, s);
    UnsignedOf(s);
    UnsignedOf(t);
  }

  /** Binary keys of two times are in time order if and only if these have the same sign. */
  lemma BinaryKeyOrderExact(camera: Bytes, s: int, t: int)
    requires -TWO_63 <= s < TWO_63 && -TWO_63 <= t < TWO_63
    ensures (Less(MakeBinaryKey(camera, s), MakeBinaryKey(camera, t)) <==> s < t) <==> ((s < 0) == (t < 0))
    ensures MakeBinaryKey(camera, s) == MakeBinaryKey(camera, t) ==> s == t
  {
    hide Less, MakeBinaryKey;
    UnsignedKeyOrder(camera, s, t);
    UnsignedOf(s);
    UnsignedOf(t);
  }

  /** Text keys of one camera compare like the texts of their times, whatever these are. */
  lemma TextKeyOrder(camera: Bytes, s: int, t: int)
    ensures Less(MakeGOPKey(camera, s), MakeGOPKey(camera, t)) <==> TextLess(s, t)
    ensures MakeGOPKey(camera, s) == MakeGOPKey(camera, t) ==> s == t
  {
    hide Less, TextLess, IntText;
    var p := CameraPrefix(camera);
    LessPrefix(p, IntText(s), IntText(t));
    TextOrder(s, t);
    if MakeGOPKey(camera, s) == MakeGOPKey(camera, t) {
      assert IntText(s) == (p + IntText(s))[|p|..] && IntText(t) == (p + IntText(t))[|p|..];
      TextInjective(s, t);
    }
  }

  /** Times of j and of k digits have text keys in time order if and only if j is k. */
  lemma TextWidthsInOrder(camera: Bytes, j: nat, k: nat)
    requires 1 <= j && 1 <= k
    ensures (forall s, t :: HasWidth(s, j) && HasWidth(t, k) ==>
               (Less(MakeGOPKey(camera, s), MakeGOPKey(camera, t)) <==> s < t)) <==> j == k
  {
    hide Less, MakeGOPKey, TextLess, HasWidth;
    WidthsInOrder(j, k);
    forall s: int, t: int ensures Less(MakeGOPKey(camera, s), MakeGOPKey(camera, t)) <==> TextLess(s, t) {
      TextKeyOrder(camera, s, t);
    }
  }

  /** In particular all times of nineteen digits. */
  lemma NineteenKeyOrder(camera: Bytes, s: int, t: int)
    requires NineteenDigits(s) && NineteenDigits(t)
    ensures Less(MakeGOPKey(camera, s), MakeGOPKey(camera, t)) <==> s < t
    ensures MakeGOPKey(camera, s) == MakeGOPKey(camera, t) ==> s == t
  {
    hide Less, MakeGOPKey;
    NineteenDigitsWidth(s);
    NineteenDigitsWidth(t);
    TextKeyOrder(camera, s, t);
  }

  predicate NoColon(camera: Bytes) {
    ASCII_COLON !in camera
  }

  /** The prefix test separates cameras whose ids hold no colon. */
  lemma PrefixSeparates(camera: Bytes, other: Bytes, ns: int)
    requires NoColon(camera) && NoColon(other)
    ensures HasPrefix(MakeGOPKey(other, ns), CameraPrefix(camera)) <==> camera == other
  {
    var k := MakeGOPKey(other, ns);
    assert k[|other|] == ASCII_COLON && k[..|other|] == other;
    var p := CameraPrefix(camera);
    assert HasPrefix(k, p) ==> k[|camera|] == ASCII_COLON && k[..|camera|] == camera by {
      assert HasPrefix(k, p) ==> k[|camera|] == p[|camera|] && k[..|p|][..|camera|] == p[..|camera|];
    }
    if camera == other {
      assert k[..|p|] == p;
    }
  }

  // ---------------------------------------------------------------------------
  // The V2 layout
  // ---------------------------------------------------------------------------

  predicate EntryV2(m: Table, camera: Bytes, day: int, e: Pair) {
    && e.value.Json?
    && Entry(m, camera, e.value.meta)
    && day == DayLabel(e.value.meta.start)
    && e.key == MakeBinaryKey(camera, e.value.meta.start.ns)
  }

  /** The camera and day buckets hold exactly the table's entries. */
  ghost predicate RepV2(v2: map<Bytes, CameraBucket>, m: Table) {
    && (forall c, l :: Sorted(BucketOf(DaysOf(v2, c), l)))
    && (forall c, l, e :: e in BucketOf(DaysOf(v2, c), l) <==> EntryV2(m, c, l, e))
  }

  lemma PutV2Bucket(v2: map<Bytes, CameraBucket>, camera: Bytes, g: GOPMeta, c: Bytes, l: int)
    ensures BucketOf(DaysOf(PutV2(v2, camera, g), c), l)
         == if c == camera && l == DayLabel(g.start)
            then Put(BucketOf(DaysOf(v2, c), l), MakeBinaryKey(camera, g.start.ns), Json(g))
            else BucketOf(DaysOf(v2, c), l)
  {
  }

  /** A new table entry takes exactly the place of the pair with its key. */
  lemma EntryAfterWrite(m: Table, w: int, camera: Bytes, g: GOPMeta, c: Bytes, l: int, e: Pair)
    requires TableOf(m, w) && IsInstant(g.start.ns) && g.start.offset == w
    ensures EntryV2(m[Id(camera, g.start.ns) := g], c, l, e)
       <==> if c == camera && l == DayLabel(g.start)
            then e == Pair(MakeBinaryKey(camera, g.start.ns), Json(g))
                 || (EntryV2(m, c, l, e) && e.key != MakeBinaryKey(camera, g.start.ns))
            else EntryV2(m, c, l, e)
  {
    if e.value.Json? && c == camera {
      var h := e.value.meta;
      if h.start.ns == g.start.ns {
        assert EntryV2(m, c, l, e) ==> h.start == g.start;
      } else if EntryV2(m, c, l, e) {
        BinaryKeyOrder(camera, h.start.ns, g.start.ns);
      }
    }
  }

  lemma PutV2Refines(v2: map<Bytes, CameraBucket>, m: Table, w: int, camera: Bytes, g: GOPMeta)
    requires TableOf(m, w) && RepV2(v2, m)
    requires IsInstant(g.start.ns) && g.start.offset == w
    ensures RepV2(PutV2(v2, camera, g), m[Id(camera, g.start.ns) := g])
    ensures TableOf(m[Id(camera, g.start.ns) := g], w)
  {
    var m' := m[Id(camera, g.start.ns) := g];
    forall c, l
      ensures Sorted(BucketOf(DaysOf(PutV2(v2, camera, g), c), l))
      ensures forall e :: e in BucketOf(DaysOf(PutV2(v2, camera, g), c), l) <==> EntryV2(m', c, l, e)
    {
      PutV2Bucket(v2, camera, g, c, l);
      PutEffect(BucketOf(DaysOf(v2, c), l), MakeBinaryKey(camera, g.start.ns), Json(g));
      forall e ensures e in BucketOf(DaysOf(PutV2(v2, camera, g), c), l) <==> EntryV2(m', c, l, e) {
        EntryAfterWrite(m, w, camera, g, c, l, e);
      }
    }
  }

  /** The values that decode are in ascending order of time. */
  ghost predicate AscendingValues(b: Bucket) {
    forall i, j :: 0 <= i < j < |b| && b[i].value.Json? && b[j].value.Json? ==>
      b[i].value.meta.start.ns < b[j].value.meta.start.ns
  }

  ghost predicate Holds(b: Bucket, g: GOPMeta) {
    exists e :: e in b && e.value == Json(g)
  }

  lemma HoldsSplit(b: Bucket, g: GOPMeta)
    requires b != []
    ensures Holds(b, g) <==> b[0].value == Json(g) || Holds(b[1..], g)
  {
    assert b[0] in b && b == [b[0]] + b[1..];
  }

  lemma {:induction false} ValuesMembers(b: Bucket, start: Time, end: Time)
    ensures forall g :: g in MetasV2(b, start, end) <==> Holds(b, g) && start.ns <= g.start.ns <= end.ns
  {
    if b != [] {
      ValuesMembers(b[1..], start, end);
      var head, rest := if Reported(b[0].value, start, end) then [b[0].value.meta] else [], MetasV2(b[1..], start, end);
      forall g ensures g in MetasV2(b, start, end) <==> Holds(b, g) && start.ns <= g.start.ns <= end.ns {
        HoldsSplit(b, g);
        assert g in MetasV2(b, start, end) <==> g in head || g in rest;
      }
    }
  }

  /** Ascending values contribute an ascending list to a query. */
  lemma {:induction false} ValuesAscending(b: Bucket, start: Time, end: Time)
    requires AscendingValues(b)
    ensures Ascending(MetasV2(b, start, end))
  {
    hide AscendingValues, Ascending, Holds;
    NothingAscending();
    if b != [] {
      var tail, rest := b[1..], MetasV2(b[1..], start, end);
      TailValues(b);
      ValuesAscending(tail, start, end);
      ValuesMembers(tail, start, end);
      if Reported(b[0].value, start, end) {
        LaterValues(b, rest);
        ConsAscending(b[0].value.meta, rest);
      } else {
        assert MetasV2(b, start, end) == rest;
      }
    }
  }

  lemma NothingAscending()
    ensures Ascending([])
  {
  }

  lemma TailValues(b: Bucket)
    requires b != [] && AscendingValues(b)
    ensures AscendingValues(b[1..])
  {
  }

  /** Values held after the first are later. */
  lemma LaterValues(b: Bucket, rest: seq<GOPMeta>)
    requires b != [] && AscendingValues(b) && b[0].value.Json? && forall g :: g in rest ==> Holds(b[1..], g)
    ensures forall g :: g in rest ==> b[0].value.meta.start.ns < g.start.ns
  {
    forall g | g in rest ensures b[0].value.meta.start.ns < g.start.ns {
      var e :| e in b[1..] && e.value == Json(g);
      var i :| 0 <= i < |b[1..]| && b[1..][i] == e;
      assert b[i + 1] == e;
    }
  }

  lemma ConsAscending(g: GOPMeta, rest: seq<GOPMeta>)
    requires Ascending(rest) && forall h :: h in rest ==> g.start.ns < h.start.ns
    ensures Ascending([g] + rest)
  {
    forall i, j | 0 <= i < j < |[g] + rest| ensures ([g] + rest)[i].start.ns < ([g] + rest)[j].start.ns {
      assert ([g] + rest)[j] in rest;
    }
  }

  lemma EmptyRefines(w: int)
    ensures TableOf(map[], w) && RepV2(map[], map[])
  {
  }

  /** A sorted bucket of one camera's keys is ascending in time. */
  lemma KeyedAscending(b: Bucket, m: Table, w: int, camera: Bytes, day: int)
    requires TableOf(m, w) && Sorted(b) && forall e :: e in b ==> EntryV2(m, camera, day, e)
    ensures AscendingValues(b)
  {
    forall i | 0 <= i < |b| ensures EntryV2(m, camera, day, b[i]) {
      assert b[i] in b;
    }
    forall i, j | 0 <= i < j < |b| ensures b[i].value.meta.start.ns < b[j].value.meta.start.ns {
      BinaryKeyOrder(camera, b[i].value.meta.start.ns, b[j].value.meta.start.ns);
    }
  }

  /** Which pairs of a day bucket a query selects. */
  lemma SelectedEntry(m: Table, w: int, camera: Bytes, day: int, start: Time, end: Time, e: Pair)
    requires TableOf(m, w) && EntryV2(m, camera, day, e) && IsInstant(start.ns) && IsInstant(end.ns)
    ensures SelectV2(camera, start, end)(e) <==> start.ns <= e.value.meta.start.ns <= end.ns
  {
    BinaryKeyOrder(camera, e.value.meta.start.ns, start.ns);
    BinaryKeyOrder(camera, end.ns, e.value.meta.start.ns);
  }

  /** The selected part of a day bucket, as the query sees it. */
  lemma SelectedDay(v2: map<Bytes, CameraBucket>, m: Table, w: int, camera: Bytes, day: int, start: Time, end: Time)
    requires TableOf(m, w) && RepV2(v2, m) && IsInstant(start.ns) && IsInstant(end.ns)
    ensures var b := BucketOf(DaysOf(v2, camera), day);
            var r := MetasV2(Filter(b, SelectV2(camera, start, end)), start, end);
            && Ascending(r)
            && (forall g :: g in r <==> Entry(m, camera, g) && start.ns <= g.start.ns <= end.ns
                                        && DayLabel(g.start) == day)
  {
    var b, p := BucketOf(DaysOf(v2, camera), day), SelectV2(camera, start, end);
    var f := Filter(b, p);
    FilterMembers(b, p);
    KeyedAscending(f, m, w, camera, day);
    ValuesAscending(f, start, end);
    ValuesMembers(f, start, end);
    forall g: GOPMeta | start.ns <= g.start.ns <= end.ns
      ensures Holds(f, g) <==> Entry(m, camera, g) && DayLabel(g.start) == day
    {
      var e := Pair(MakeBinaryKey(camera, g.start.ns), Json(g));
      assert e in b <==> EntryV2(m, camera, day, e);
      if EntryV2(m, camera, day, e) {
        SelectedEntry(m, w, camera, day, start, end, e);
        assert e in f && e.value == Json(g);
      }
    }
  }

  lemma {:induction false} QueryDaysListing(
      v2: map<Bytes, CameraBucket>, m: Table, w: int, camera: Bytes, start: Time, end: Time, d: Time)
    requires TableOf(m, w) && RepV2(v2, m) && IsInstant(start.ns) && IsInstant(end.ns)
    requires d.ns % DAY == 0 && IsOffset(d.offset)
    ensures var r := QueryDays(DaysOf(v2, camera), camera, start, end, d);
            && Ascending(r)
            && (forall g :: g in r <==> Entry(m, camera, g) && start.ns <= g.start.ns <= end.ns
                                        && DayLabel(g.start) in VisitedDays(end, d))
    decreases end.ns + 2 * DAY - d.ns
  {
    hide RepV2, TableOf, MetasV2, Filter, SelectV2, Ascending, Entry;
    if d.ns <= NextDay(TruncateDay(end)).ns {
      var part := MetasV2(Filter(BucketOf(DaysOf(v2, camera), DayLabel(d)), SelectV2(camera, start, end)), start, end);
      var rest := QueryDays(DaysOf(v2, camera), camera, start, end, NextDay(d));
      SelectedDay(v2, m, w, camera, DayLabel(d), start, end);
      QueryDaysListing(v2, m, w, camera, start, end, NextDay(d));
      MidnightLabel(d);
      VisitedInterval(end, NextDay(d));
      forall g, h | g in part && h in rest ensures g.start.ns < h.start.ns {
        SameOffset(m, w, camera, g);
        SameOffset(m, w, camera, h);
        LaterDay(g.start, h.start);
      }
      JoinListings(part, rest);
    } else {
      NothingAscending();
    }
  }

  lemma SameOffset(m: Table, w: int, camera: Bytes, g: GOPMeta)
    requires TableOf(m, w) && Entry(m, camera, g)
    ensures g.start.offset == w
  {
  }

  lemma JoinListings(a: seq<GOPMeta>, b: seq<GOPMeta>)
    requires Ascending(a) && Ascending(b) && forall g, h :: g in a && h in b ==> g.start.ns < h.start.ns
    ensures Ascending(a + b)
  {
    var all := a + b;
    forall i, j | 0 <= i < j < |all| ensures all[i].start.ns < all[j].start.ns {
      if i < |a| <= j {
        assert all[i] in a && all[j] in b;
      }
    }
  }

  lemma LaterDay(s: Time, t: Time)
    requires s.offset == t.offset && DayLabel(s) < DayLabel(t)
    ensures s.ns < t.ns
  {
  }

  /** The days that a query or deletion over [start, end] visits include that of an entry
      written at t with offset w. */
  predicate Seen(t: int, w: int, start: Time, end: Time) {
    !SpillsAfter(t, w, start, end) && !SpillsBefore(t, w, start, end)
  }

  /** What the V2 query returns, whatever the offsets are: the entries in the range whose
      day it visits, in ascending order. */
  lemma QueryV2Exact(v2: map<Bytes, CameraBucket>, m: Table, w: int, camera: Bytes, start: Time, end: Time)
    requires TableOf(m, w) && RepV2(v2, m) && IsInstant(start.ns) && IsInstant(end.ns)
    requires IsOffset(w) && IsOffset(start.offset)
    ensures var r := QueryV2(v2, camera, start, end);
            && Ascending(r)
            && (forall g :: g in r <==> Entry(m, camera, g) && start.ns <= g.start.ns <= end.ns
                                        && Seen(g.start.ns, w, start, end))
  {
    hide RepV2, QueryDays, VisitedDays, Seen;
    TruncatedDay(start);
    QueryDaysListing(v2, m, w, camera, start, end, TruncateDay(start));
    forall g | Entry(m, camera, g) && start.ns <= g.start.ns <= end.ns
      ensures DayLabel(g.start) in VisitedDays(end, TruncateDay(start)) <==> Seen(g.start.ns, w, start, end)
    {
      VisitedExactly(g.start.ns, w, start, end);
    }
  }

  lemma VisitedExactly(t: int, w: int, start: Time, end: Time)
    requires IsOffset(w) && IsOffset(start.offset) && start.ns <= t <= end.ns
    ensures DayLabel(Time(t, w)) in VisitedDays(end, TruncateDay(start)) <==> Seen(t, w, start, end)
  {
    CoverExact(t, w, start, end);
  }

  /** Compatible offsets never miss. */
  lemma CompatibleSees(t: int, w: int, start: Time, end: Time)
    requires Compatible(w, start.offset) && IsOffset(w)
    ensures Seen(t, w, start, end)
  {
  }

  /** The V2 query returns the listing. */
  lemma QueryV2Correct(v2: map<Bytes, CameraBucket>, m: Table, w: int, camera: Bytes, start: Time, end: Time)
    requires TableOf(m, w) && RepV2(v2, m) && IsInstant(start.ns) && IsInstant(end.ns)
    requires IsOffset(w) && IsOffset(start.offset) && Compatible(w, start.offset)
    ensures IsListing(QueryV2(v2, camera, start, end), m, camera, start, end)
  {
    hide RepV2, QueryV2, Seen;
    QueryV2Exact(v2, m, w, camera, start, end);
    forall g: GOPMeta ensures Seen(g.start.ns, w, start, end) {
      CompatibleSees(g.start.ns, w, start, end);
    }
  }

  lemma {:induction false} DeleteDaysBuckets(days: CameraBucket, camera: Bytes, start: Time, end: Time, d: Time, l: int)
    requires d.ns % DAY == 0 && IsOffset(d.offset)
    ensures BucketOf(DeleteDays(days, camera, start, end, d), l)
         == if l in VisitedDays(end, d) then Filter(BucketOf(days, l), Unselected(SelectV2(camera, start, end)))
            else BucketOf(days, l)
    decreases end.ns + 2 * DAY - d.ns
  {
    if d.ns <= NextDay(TruncateDay(end)).ns {
      var days' := DeleteDay(days, camera, start, end, DayLabel(d));
      DeleteDayBucket(days, camera, start, end, DayLabel(d), l);
      MidnightLabel(d);
      DeleteDaysBuckets(days', camera, start, end, NextDay(d), l);
      VisitedInterval(end, NextDay(d));
    }
  }

  lemma DeleteDayBucket(days: CameraBucket, camera: Bytes, start: Time, end: Time, day: int, l: int)
    ensures BucketOf(DeleteDay(days, camera, start, end, day), l)
         == if l == day then Filter(BucketOf(days, l), Unselected(SelectV2(camera, start, end))) else BucketOf(days, l)
  {
  }

  lemma DeleteV2Bucket(v2: map<Bytes, CameraBucket>, camera: Bytes, start: Time, end: Time, c: Bytes, l: int)
    requires IsOffset(start.offset)
    ensures BucketOf(DaysOf(DeleteV2(v2, camera, start, end), c), l)
         == if c == camera && l in VisitedDays(end, TruncateDay(start))
            then Filter(BucketOf(DaysOf(v2, c), l), Unselected(SelectV2(camera, start, end)))
            else BucketOf(DaysOf(v2, c), l)
  {
    TruncatedDay(start);
    if c == camera && c in v2 {
      DeleteDaysBuckets(v2[c], camera, start, end, TruncateDay(start), l);
    }
  }

  /** The table without the entries in the range whose day a deletion visits. */
  function ErasedSeen(m: Table, w: int, camera: Bytes, start: Time, end: Time): Table {
    map id | id in m && !(InRange(camera, start, end, id) && Seen(id.ns, w, start, end)) :: m[id]
  }

  /** Erasing these from the table is erasing the selected pairs from visited days. */
  lemma EntryAfterErase(m: Table, w: int, camera: Bytes, start: Time, end: Time, c: Bytes, l: int, e: Pair)
    requires TableOf(m, w) && IsInstant(start.ns) && IsInstant(end.ns) && IsOffset(w) && IsOffset(start.offset)
    ensures EntryV2(ErasedSeen(m, w, camera, start, end), c, l, e)
       <==> EntryV2(m, c, l, e) && !(c == camera && l in VisitedDays(end, TruncateDay(start))
                                     && SelectV2(camera, start, end)(e))
  {
    hide VisitedDays, Seen;
    if EntryV2(m, c, l, e) && c == camera {
      SelectedEntry(m, w, c, l, start, end, e);
      if InRange(camera, start, end, Id(c, e.value.meta.start.ns)) {
        VisitedExactly(e.value.meta.start.ns, w, start, end);
      }
    }
  }

  /** What a deletion does to the V2 buckets, whatever the offsets are. */
  lemma DeleteV2Exact(v2: map<Bytes, CameraBucket>, m: Table, w: int, camera: Bytes, start: Time, end: Time)
    requires TableOf(m, w) && RepV2(v2, m) && IsInstant(start.ns) && IsInstant(end.ns)
    requires IsOffset(w) && IsOffset(start.offset)
    ensures RepV2(DeleteV2(v2, camera, start, end), ErasedSeen(m, w, camera, start, end))
    ensures TableOf(ErasedSeen(m, w, camera, start, end), w)
  {
    hide ErasedSeen, EntryV2, DeleteV2, VisitedDays;
    var v2', m' := DeleteV2(v2, camera, start, end), ErasedSeen(m, w, camera, start, end);
    forall c, l
      ensures Sorted(BucketOf(DaysOf(v2', c), l))
      ensures forall e :: e in BucketOf(DaysOf(v2', c), l) <==> EntryV2(m', c, l, e)
    {
      var b := BucketOf(DaysOf(v2, c), l);
      DeleteV2Bucket(v2, camera, start, end, c, l);
      FilterMembers(b, Unselected(SelectV2(camera, start, end)));
      forall e ensures e in BucketOf(DaysOf(v2', c), l) <==> EntryV2(m', c, l, e) {
        EntryAfterErase(m, w, camera, start, end, c, l, e);
      }
    }
    ErasedTable(m, w, camera, start, end);
  }

  lemma ErasedTable(m: Table, w: int, camera: Bytes, start: Time, end: Time)
    requires TableOf(m, w)
    ensures TableOf(ErasedSeen(m, w, camera, start, end), w)
  {
  }

  /** With compatible offsets a deletion erases the whole range. */
  lemma DeleteV2Refines(v2: map<Bytes, CameraBucket>, m: Table, w: int, camera: Bytes, start: Time, end: Time)
    requires TableOf(m, w) && RepV2(v2, m) && IsInstant(start.ns) && IsInstant(end.ns)
    requires IsOffset(w) && IsOffset(start.offset) && Compatible(w, start.offset)
    ensures RepV2(DeleteV2(v2, camera, start, end), Erased(m, camera, start, end))
  {
    hide RepV2, DeleteV2, Seen;
    DeleteV2Exact(v2, m, w, camera, start, end);
    forall t ensures Seen(t, w, start, end) {
      CompatibleSees(t, w, start, end);
    }
    assert ErasedSeen(m, w, camera, start, end) == Erased(m, camera, start, end);
  }

  // ---------------------------------------------------------------------------
  // The V1 layout
  // ---------------------------------------------------------------------------

  ghost predicate EntryV1(m: Table, e: Pair) {
    e.value.Json? && exists c :: Entry(m, c, e.value.meta) && e.key == MakeGOPKey(c, e.value.meta.start.ns)
  }

  /** Camera ids without a colon, times of nineteen digits. */
  ghost predicate PlainTable(m: Table) {
    forall id :: id in m ==> NoColon(id.camera) && NineteenDigits(id.ns)
  }

  /** The values of the flat bucket that decode are exactly the table's entries. */
  ghost predicate RepV1(v1: Bucket, m: Table) {
    Sorted(v1) && forall e :: e in v1 && e.value.Json? <==> EntryV1(m, e)
  }

  lemma TextKeyInjective(c: Bytes, s: int, d: Bytes, t: int)
    requires NoColon(c) && NoColon(d) && NineteenDigits(s) && NineteenDigits(t)
    requires MakeGOPKey(c, s) == MakeGOPKey(d, t)
    ensures c == d && s == t
  {
    PrefixSeparates(c, c, s);
    PrefixSeparates(c, d, t);
    NineteenKeyOrder(c, s, t);
  }

  lemma PutV1Refines(v1: Bucket, m: Table, w: int, camera: Bytes, g: GOPMeta)
    requires TableOf(m, w) && PlainTable(m) && RepV1(v1, m)
    requires NoColon(camera) && NineteenDigits(g.start.ns)
    ensures RepV1(Put(v1, MakeGOPKey(camera, g.start.ns), Json(g)), m[Id(camera, g.start.ns) := g])
    ensures PlainTable(m[Id(camera, g.start.ns) := g])
  {
    var key, m' := MakeGOPKey(camera, g.start.ns), m[Id(camera, g.start.ns) := g];
    PutEffect(v1, key, Json(g));
    forall e ensures EntryV1(m', e) <==> e == Pair(key, Json(g)) || (EntryV1(m, e) && e.key != key) {
      if EntryV1(m', e) {
        var c :| Entry(m', c, e.value.meta) && e.key == MakeGOPKey(c, e.value.meta.start.ns);
        if e.key == key {
          TextKeyInjective(c, e.value.meta.start.ns, camera, g.start.ns);
        } else {
          assert Entry(m, c, e.value.meta);
        }
      }
      if e == Pair(key, Json(g)) {
        assert Entry(m', camera, g);
      }
      if EntryV1(m, e) && e.key != key {
        var c :| Entry(m, c, e.value.meta) && e.key == MakeGOPKey(c, e.value.meta.start.ns);
        assert Entry(m', c, e.value.meta);
      }
    }
  }

  /** Which pairs of the flat bucket a query or deletion selects. */
  lemma SelectedV1(camera: Bytes, start: Time, end: Time, c: Bytes, g: GOPMeta)
    requires NoColon(camera) && NineteenDigits(start.ns) && NineteenDigits(end.ns)
    requires NoColon(c) && NineteenDigits(g.start.ns)
    ensures SelectV1(camera, start, end)(Pair(MakeGOPKey(c, g.start.ns), Json(g)))
       <==> c == camera && start.ns <= g.start.ns <= end.ns
  {
    PrefixSeparates(camera, c, g.start.ns);
    NineteenKeyOrder(camera, g.start.ns, start.ns);
    NineteenKeyOrder(camera, end.ns, g.start.ns);
  }

  lemma DeleteV1Refines(v1: Bucket, m: Table, w: int, camera: Bytes, start: Time, end: Time)
    requires TableOf(m, w) && PlainTable(m) && RepV1(v1, m)
    requires NoColon(camera) && NineteenDigits(start.ns) && NineteenDigits(end.ns)
    ensures RepV1(Filter(v1, Unselected(SelectV1(camera, start, end))), Erased(m, camera, start, end))
    ensures PlainTable(Erased(m, camera, start, end))
  {
    hide SelectV1, Filter, Entry, NineteenDigits, NoColon;
    var m', p := Erased(m, camera, start, end), SelectV1(camera, start, end);
    FilterMembers(v1, Unselected(p));
    forall e ensures EntryV1(m', e) <==> EntryV1(m, e) && !p(e) {
      ErasedEntryV1(m, w, camera, start, end, e);
    }
  }

  lemma ErasedEntryV1(m: Table, w: int, camera: Bytes, start: Time, end: Time, e: Pair)
    requires TableOf(m, w) && PlainTable(m)
    requires NoColon(camera) && NineteenDigits(start.ns) && NineteenDigits(end.ns)
    ensures EntryV1(Erased(m, camera, start, end), e) <==> EntryV1(m, e) && !SelectV1(camera, start, end)(e)
  {
    hide SelectV1, MakeGOPKey, NineteenDigits, NoColon;
    var m' := Erased(m, camera, start, end);
    if EntryV1(m, e) {
      var c :| Entry(m, c, e.value.meta) && e.key == MakeGOPKey(c, e.value.meta.start.ns);
      SelectedV1(camera, start, end, c, e.value.meta);
      assert !SelectV1(camera, start, end)(e) ==> Entry(m', c, e.value.meta);
    }
    if EntryV1(m', e) {
      var c :| Entry(m', c, e.value.meta) && e.key == MakeGOPKey(c, e.value.meta.start.ns);
      SelectedV1(camera, start, end, c, e.value.meta);
      assert Entry(m, c, e.value.meta);
    }
  }

  /** Without values outside the range, the V1 and V2 value lists are the same. */
  lemma {:induction false} SameMetas(b: Bucket, start: Time, end: Time)
    requires forall e :: e in b && e.value.Json? ==> Reported(e.value, start, end)
    ensures MetasV1(b) == MetasV2(b, start, end)
  {
    if b != [] {
      assert b[0] in b && forall e :: e in b[1..] ==> e in b;
      SameMetas(b[1..], start, end);
    }
  }

  /** The V1 query returns the listing as well. */
  lemma QueryV1Correct(v1: Bucket, m: Table, w: int, camera: Bytes, start: Time, end: Time)
    requires TableOf(m, w) && PlainTable(m) && RepV1(v1, m)
    requires NoColon(camera) && NineteenDigits(start.ns) && NineteenDigits(end.ns)
    ensures IsListing(QueryV1(v1, camera, start, end), m, camera, start, end)
  {
    var p := SelectV1(camera, start, end);
    var f := Filter(v1, p);
    FilterMembers(v1, p);
    forall e | e in f && e.value.Json?
      ensures Entry(m, camera, e.value.meta) && Reported(e.value, start, end)
      ensures e.key == MakeGOPKey(camera, e.value.meta.start.ns)
    {
      assert EntryV1(m, e);
      var c :| Entry(m, c, e.value.meta) && e.key == MakeGOPKey(c, e.value.meta.start.ns);
      SelectedV1(camera, start, end, c, e.value.meta);
    }
    forall i, j | 0 <= i < j < |f| && f[i].value.Json? && f[j].value.Json?
      ensures f[i].value.meta.start.ns < f[j].value.meta.start.ns
    {
      assert f[i] in f && f[j] in f;
      NineteenKeyOrder(camera, f[i].value.meta.start.ns, f[j].value.meta.start.ns);
    }
    SameMetas(f, start, end);
    ValuesAscending(f, start, end);
    ValuesMembers(f, start, end);
    forall g | Entry(m, camera, g) && start.ns <= g.start.ns <= end.ns ensures Holds(f, g) {
      var e := Pair(MakeGOPKey(camera, g.start.ns), Json(g));
      assert EntryV1(m, e);
      SelectedV1(camera, start, end, camera, g);
      assert e in f && e.value == Json(g);
    }
  }

  // ---------------------------------------------------------------------------
  // Runs
  // ---------------------------------------------------------------------------

  /** A public call together with whether the store completes its transaction. */
  datatype Op =
    | Write(camera: Bytes, meta: GOPMeta, commit: bool)
    | Batch(items: seq<Item>, commit: bool)
    | Delete(camera: Bytes, start: Time, end: Time, commit: bool)

  /** The effect of the methods of class BoltIndex, as their postconditions state it. */
  function Apply(db: DB, op: Op): DB {
    match op
    case Write(camera, meta, commit) =>
      if commit && (db.useV2 ==> camera != []) then WriteOne(db, camera, meta) else db
    case Batch(items, commit) =>
      if commit && (db.useV2 ==> Named(items)) then WriteItems(db, items) else db
    case Delete(camera, start, end, commit) =>
      if commit then DeleteEntries(db, camera, start, end) else db
  }

  function WriteAll(m: Table, items: seq<Item>): Table {
    if items == [] then m else
      var n := |items| - 1;
      WriteAll(m, items[..n])[Id(items[n].camera, items[n].meta.start.ns) := items[n].meta]
  }

  /** The same calls on the plain table. Only the V2 layout needs a name for the camera's
      bucket. */
  function ApplyTable(m: Table, op: Op, useV2: bool := true): Table {
    match op
    case Write(camera, meta, commit) =>
      if commit && (useV2 ==> camera != []) then m[Id(camera, meta.start.ns) := meta] else m
    case Batch(items, commit) =>
      if commit && (useV2 ==> Named(items)) then WriteAll(m, items) else m
    case Delete(camera, start, end, commit) =>
      if commit then Erased(m, camera, start, end) else m
  }

  function Run(db: DB, ops: seq<Op>): DB {
    if ops == [] then db else Apply(Run(db, ops[..|ops| - 1]), ops[|ops| - 1])
  }

  function RunTable(m: Table, ops: seq<Op>, useV2: bool := true): Table {
    if ops == [] then m else ApplyTable(RunTable(m, ops[..|ops| - 1], useV2), ops[|ops| - 1], useV2)
  }

  const EMPTY: DB := DB(true, [], map[])

  ghost predicate WrittenAt(meta: GOPMeta, w: int) {
    IsInstant(meta.start.ns) && meta.start.offset == w
  }

  /** Times that the binary keys can hold, one writer offset, readers compatible with it. */
  ghost predicate OpOk(op: Op, w: int) {
    match op
    case Write(_, meta, _) => WrittenAt(meta, w)
    case Batch(items, _) => forall i :: i in items ==> WrittenAt(i.meta, w)
    case Delete(_, start, end, _) => RangeOk(start, end, w)
  }

  ghost predicate RangeOk(start: Time, end: Time, w: int) {
    IsInstant(start.ns) && IsInstant(end.ns) && IsOffset(start.offset) && Compatible(w, start.offset)
  }

  /** In addition, keys that the text layout can tell apart and order. */
  ghost predicate PlainOp(op: Op) {
    match op
    case Write(camera, meta, _) => NoColon(camera) && NineteenDigits(meta.start.ns)
    case Batch(items, _) => forall i :: i in items ==> NoColon(i.camera) && NineteenDigits(i.meta.start.ns)
    case Delete(camera, start, end, _) => NoColon(camera) && NineteenDigits(start.ns) && NineteenDigits(end.ns)
  }

  lemma {:induction false} BatchRefines(db: DB, m: Table, w: int, items: seq<Item>, plain: bool)
    requires db.useV2 && TableOf(m, w) && RepV2(db.v2, m)
    requires forall i :: i in items ==> WrittenAt(i.meta, w)
    requires plain ==> PlainTable(m) && RepV1(db.v1, m)
    requires plain ==> forall i :: i in items ==> NoColon(i.camera) && NineteenDigits(i.meta.start.ns)
    ensures var db' := WriteItems(db, items); db'.useV2 && RepV2(db'.v2, WriteAll(m, items))
    ensures TableOf(WriteAll(m, items), w)
    ensures plain ==> PlainTable(WriteAll(m, items)) && RepV1(WriteItems(db, items).v1, WriteAll(m, items))
  {
    if items != [] {
      var n := |items| - 1;
      var item := items[n];
      assert item in items;
      BatchRefines(db, m, w, items[..n], plain);
      var db', m' := WriteItems(db, items[..n]), WriteAll(m, items[..n]);
      PutV2Refines(db'.v2, m', w, item.camera, item.meta);
      if plain {
        PutV1Refines(db'.v1, m', w, item.camera, item.meta);
      }
    }
  }

  /** Every run of writes, batches and deletions keeps the V2 buckets equal to the table,
      and the V1 bucket too when its keys are plain. */
  lemma {:induction false} RunRefines(ops: seq<Op>, w: int, plain: bool)
    requires IsOffset(w) && forall op :: op in ops ==> OpOk(op, w)
    requires plain ==> forall op :: op in ops ==> PlainOp(op)
    ensures var db, m := Run(EMPTY, ops), RunTable(map[], ops);
            && db.useV2 && TableOf(m, w) && RepV2(db.v2, m)
            && (plain ==> PlainTable(m) && RepV1(db.v1, m))
  {
    if ops != [] {
      var n := |ops| - 1;
      assert ops[n] in ops;
      RunRefines(ops[..n], w, plain);
      StepRefines(Run(EMPTY, ops[..n]), RunTable(map[], ops[..n]), ops[n], w, plain);
    }
  }

  lemma StepRefines(db: DB, m: Table, op: Op, w: int, plain: bool)
    requires IsOffset(w) && db.useV2 && TableOf(m, w) && RepV2(db.v2, m) && OpOk(op, w)
    requires plain ==> PlainTable(m) && RepV1(db.v1, m) && PlainOp(op)
    ensures var db', m' := Apply(db, op), ApplyTable(m, op);
            && db'.useV2 && TableOf(m', w) && RepV2(db'.v2, m')
            && (plain ==> PlainTable(m') && RepV1(db'.v1, m'))
  {
    match op
    case Write(camera, meta, commit) =>
      PutV2Refines(db.v2, m, w, camera, meta);
      if plain {
        PutV1Refines(db.v1, m, w, camera, meta);
      }
    case Batch(items, commit) =>
      BatchRefines(db, m, w, items, plain);
    case Delete(camera, start, end, commit) =>
      DeleteV2Refines(db.v2, m, w, camera, start, end);
      if plain {
        DeleteV1Refines(db.v1, m, w, camera, start, end);
      }
  }

  // ---------------------------------------------------------------------------
  // Runs of a database without V2 buckets
  // ---------------------------------------------------------------------------

  const EMPTY_FLAT: DB := DB(false, [], map[])

  /** One writer offset; the flat bucket does not care about the offsets of deletions. */
  ghost predicate FlatOk(op: Op, w: int) {
    && PlainOp(op)
    && match op
       case Write(_, meta, _) => WrittenAt(meta, w)
       case Batch(items, _) => forall i :: i in items ==> WrittenAt(i.meta, w)
       case Delete(_, _, _, _) => true
  }

  lemma FlatWriteRefines(db: DB, m: Table, w: int, camera: Bytes, meta: GOPMeta)
    requires !db.useV2 && TableOf(m, w) && PlainTable(m) && RepV1(db.v1, m)
    requires WrittenAt(meta, w) && NoColon(camera) && NineteenDigits(meta.start.ns)
    ensures var db', m' := WriteOne(db, camera, meta), m[Id(camera, meta.start.ns) := meta];
            !db'.useV2 && db'.v2 == db.v2 && TableOf(m', w) && PlainTable(m') && RepV1(db'.v1, m')
  {
    hide RepV1, PlainTable, Put, MakeGOPKey;
    PutV1Refines(db.v1, m, w, camera, meta);
  }

  lemma {:induction false} FlatBatchRefines(db: DB, m: Table, w: int, items: seq<Item>)
    requires !db.useV2 && TableOf(m, w) && PlainTable(m) && RepV1(db.v1, m)
    requires forall i :: i in items ==> WrittenAt(i.meta, w) && NoColon(i.camera) && NineteenDigits(i.meta.start.ns)
    ensures var db', m' := WriteItems(db, items), WriteAll(m, items);
            !db'.useV2 && db'.v2 == db.v2 && TableOf(m', w) && PlainTable(m') && RepV1(db'.v1, m')
  {
    hide RepV1, PlainTable, TableOf, WriteOne, NoColon, NineteenDigits;
    if items != [] {
      var n := |items| - 1;
      var item := items[n];
      assert item in items;
      FlatBatchRefines(db, m, w, items[..n]);
      FlatWriteRefines(WriteItems(db, items[..n]), WriteAll(m, items[..n]), w, item.camera, item.meta);
    }
  }

  /** Every run keeps the flat bucket equal to the table and creates no V2 bucket. */
  lemma {:induction false} FlatRunRefines(ops: seq<Op>, w: int)
    requires forall op :: op in ops ==> FlatOk(op, w)
    ensures var db, m := Run(EMPTY_FLAT, ops), RunTable(map[], ops, false);
            !db.useV2 && db.v2 == map[] && TableOf(m, w) && PlainTable(m) && RepV1(db.v1, m)
  {
    if ops != [] {
      var n := |ops| - 1;
      assert ops[n] in ops;
      FlatRunRefines(ops[..n], w);
      FlatStepRefines(Run(EMPTY_FLAT, ops[..n]), RunTable(map[], ops[..n], false), ops[n], w);
    }
  }

  lemma FlatStepRefines(db: DB, m: Table, op: Op, w: int)
    requires !db.useV2 && TableOf(m, w) && PlainTable(m) && RepV1(db.v1, m) && FlatOk(op, w)
    ensures var db', m' := Apply(db, op), ApplyTable(m, op, false);
            !db'.useV2 && db'.v2 == db.v2 && TableOf(m', w) && PlainTable(m') && RepV1(db'.v1, m')
  {
    hide RepV1, PlainTable, WriteOne;
    match op
    case Write(camera, meta, commit) =>
      FlatWriteRefines(db, m, w, camera, meta);
    case Batch(items, commit) =>
      FlatBatchRefines(db, m, w, items);
    case Delete(camera, start, end, commit) =>
      DeleteV1Refines(db.v1, m, w, camera, start, end);
  }

  // ---------------------------------------------------------------------------
  // Queries after a run
  // ---------------------------------------------------------------------------

  /** The queries of a database without V2 buckets return the table's entries as well. */
  lemma FlatQueryAfterRun(ops: seq<Op>, w: int, camera: Bytes, start: Time, end: Time)
    requires forall op :: op in ops ==> FlatOk(op, w)
    requires NoColon(camera) && NineteenDigits(start.ns) && NineteenDigits(end.ns)
    ensures IsListing(Query(Run(EMPTY_FLAT, ops), camera, start, end), RunTable(map[], ops, false), camera, start, end)
  {
    FlatRunRefines(ops, w);
    QueryV1Correct(Run(EMPTY_FLAT, ops).v1, RunTable(map[], ops, false), w, camera, start, end);
  }

  /** After any run, a range query returns exactly the table's entries in the range. */
  lemma QueryAfterRun(ops: seq<Op>, w: int, camera: Bytes, start: Time, end: Time)
    requires IsOffset(w) && RangeOk(start, end, w) && forall op :: op in ops ==> OpOk(op, w)
    ensures IsListing(Query(Run(EMPTY, ops), camera, start, end), RunTable(map[], ops), camera, start, end)
  {
    RunRefines(ops, w, false);
    QueryV2Correct(Run(EMPTY, ops).v2, RunTable(map[], ops), w, camera, start, end);
  }

  /** After any run with plain keys, both layouts answer every query with the same list. */
  lemma LayoutsAgree(ops: seq<Op>, w: int, camera: Bytes, start: Time, end: Time)
    requires IsOffset(w) && RangeOk(start, end, w) && forall op :: op in ops ==> OpOk(op, w) && PlainOp(op)
    requires NoColon(camera) && NineteenDigits(start.ns) && NineteenDigits(end.ns)
    ensures var db := Run(EMPTY, ops);
            QueryV1(db.v1, camera, start, end) == QueryV2(db.v2, camera, start, end)
  {
    var db, m := Run(EMPTY, ops), RunTable(map[], ops);
    RunRefines(ops, w, true);
    QueryV1Correct(db.v1, m, w, camera, start, end);
    QueryV2Correct(db.v2, m, w, camera, start, end);
    ListingUnique(QueryV1(db.v1, camera, start, end), QueryV2(db.v2, camera, start, end));
  }

  // ---------------------------------------------------------------------------
  // Any offsets
  // ---------------------------------------------------------------------------

  /** Times that the binary keys can hold, one writer offset, and deletions from anywhere. */
  ghost predicate AnyOpOk(op: Op, w: int) {
    match op
    case Write(_, meta, _) => WrittenAt(meta, w)
    case Batch(items, _) => forall i :: i in items ==> WrittenAt(i.meta, w)
    case Delete(_, start, end, _) => IsInstant(start.ns) && IsInstant(end.ns) && IsOffset(start.offset)
  }

  /** The table as the V2 buckets have it: a deletion erases what it sees. */
  function ApplySeen(m: Table, w: int, op: Op): Table {
    match op
    case Delete(camera, start, end, commit) => if commit then ErasedSeen(m, w, camera, start, end) else m
    case _ => ApplyTable(m, op)
  }

  function RunSeen(m: Table, w: int, ops: seq<Op>): Table {
    if ops == [] then m else ApplySeen(RunSeen(m, w, ops[..|ops| - 1]), w, ops[|ops| - 1])
  }

  lemma SeenStepRefines(db: DB, m: Table, w: int, op: Op)
    requires IsOffset(w) && db.useV2 && TableOf(m, w) && RepV2(db.v2, m) && AnyOpOk(op, w)
    ensures var db', m' := Apply(db, op), ApplySeen(m, w, op); db'.useV2 && TableOf(m', w) && RepV2(db'.v2, m')
  {
    hide RepV2, ErasedSeen, DeleteV2, PutV2;
    match op
    case Write(camera, meta, commit) =>
      PutV2Refines(db.v2, m, w, camera, meta);
    case Batch(items, commit) =>
      BatchRefines(db, m, w, items, false);
    case Delete(camera, start, end, commit) =>
      DeleteV2Exact(db.v2, m, w, camera, start, end);
  }

  lemma {:induction false} RunSeenRefines(ops: seq<Op>, w: int)
    requires IsOffset(w) && forall op :: op in ops ==> AnyOpOk(op, w)
    ensures var db, m := Run(EMPTY, ops), RunSeen(map[], w, ops); db.useV2 && TableOf(m, w) && RepV2(db.v2, m)
  {
    hide RepV2, TableOf, Apply, ApplySeen, AnyOpOk;
    if ops == [] {
      EmptyRefines(w);
    } else {
      var n := |ops| - 1;
      assert ops[n] in ops;
      RunSeenRefines(ops[..n], w);
      SeenStepRefines(Run(EMPTY, ops[..n]), RunSeen(map[], w, ops[..n]), w, ops[n]);
    }
  }

  /** After any run, with deletions and a query of any offsets: the query returns, in ascending
      order, exactly the entries in the range whose day it visits of the table from which each
      deletion has erased the entries whose day it visited. */
  lemma QueryAfterRunExact(ops: seq<Op>, w: int, camera: Bytes, start: Time, end: Time)
    requires IsOffset(w) && forall op :: op in ops ==> AnyOpOk(op, w)
    requires IsInstant(start.ns) && IsInstant(end.ns) && IsOffset(start.offset)
    ensures var r := Query(Run(EMPTY, ops), camera, start, end);
            && Ascending(r)
            && (forall g :: g in r <==> Entry(RunSeen(map[], w, ops), camera, g) && start.ns <= g.start.ns <= end.ns
                                        && Seen(g.start.ns, w, start, end))
  {
    hide RepV2, QueryV2, Seen;
    RunSeenRefines(ops, w);
    QueryV2Exact(Run(EMPTY, ops).v2, RunSeen(map[], w, ops), w, camera, start, end);
  }

  /** Compatible deletions see everything, so that this table is the plain one. */
  lemma {:induction false} CompatibleRun(ops: seq<Op>, w: int)
    requires IsOffset(w) && forall op :: op in ops ==> OpOk(op, w)
    ensures RunSeen(map[], w, ops) == RunTable(map[], ops)
  {
    hide Seen;
    if ops != [] {
      var n := |ops| - 1;
      assert ops[n] in ops;
      CompatibleRun(ops[..n], w);
      match ops[n]
      case Delete(camera, start, end, commit) =>
        forall t ensures Seen(t, w, start, end) {
          CompatibleSees(t, w, start, end);
        }
        var m := RunTable(map[], ops[..n]);
        assert ErasedSeen(m, w, camera, start, end) == Erased(m, camera, start, end);
      case _ =>
    }
  }

  // ---------------------------------------------------------------------------
  // Both layouts under any offsets
  // ---------------------------------------------------------------------------

  /** The plain table after a run is the part of the other one that no deletion has covered. */
  ghost predicate PartOf(a: Table, b: Table) {
    forall id :: id in a ==> id in b && b[id] == a[id]
  }

  lemma {:induction false} WriteAllPart(a: Table, b: Table, items: seq<Item>)
    requires PartOf(a, b)
    ensures PartOf(WriteAll(a, items), WriteAll(b, items))
  {
    if items != [] {
      WriteAllPart(a, b, items[..|items| - 1]);
    }
  }

  lemma {:induction false} RunPart(ops: seq<Op>, w: int)
    ensures PartOf(RunTable(map[], ops), RunSeen(map[], w, ops))
  {
    hide Seen;
    if ops != [] {
      var n := |ops| - 1;
      RunPart(ops[..n], w);
      if ops[n].Batch? {
        WriteAllPart(RunTable(map[], ops[..n]), RunSeen(map[], w, ops[..n]), ops[n].items);
      }
    }
  }

  /** The flat bucket follows the plain table whatever the offsets are. */
  lemma {:induction false} PlainRunRefines(ops: seq<Op>, w: int)
    requires forall op :: op in ops ==> FlatOk(op, w)
    ensures var db, m := Run(EMPTY, ops), RunTable(map[], ops);
            db.useV2 && TableOf(m, w) && PlainTable(m) && RepV1(db.v1, m)
  {
    hide RepV1, PlainTable, TableOf, Apply, FlatOk;
    if ops == [] {
      NothingPlain(w);
    } else {
      var n := |ops| - 1;
      assert ops[n] in ops;
      PlainRunRefines(ops[..n], w);
      PlainStepRefines(Run(EMPTY, ops[..n]), RunTable(map[], ops[..n]), ops[n], w);
    }
  }

  lemma NothingPlain(w: int)
    ensures TableOf(map[], w) && PlainTable(map[]) && RepV1([], map[])
  {
  }

  /** The flat bucket does not depend on the V2 buckets beside it. */
  lemma PlainStepRefines(db: DB, m: Table, op: Op, w: int)
    requires db.useV2 && TableOf(m, w) && PlainTable(m) && RepV1(db.v1, m) && FlatOk(op, w)
    ensures var db', m' := Apply(db, op), ApplyTable(m, op);
            db'.useV2 && TableOf(m', w) && PlainTable(m') && RepV1(db'.v1, m')
  {
    hide RepV1, PlainTable, TableOf, PutV2, Put, MakeGOPKey, DeleteV2;
    var flat := DB(false, db.v1, map[]);
    FlatStepRefines(flat, m, op, w);
    if op.Batch? {
      SameFlat(db, flat, op.items);
    }
  }

  lemma {:induction false} SameFlat(db: DB, flat: DB, items: seq<Item>)
    requires db.v1 == flat.v1
    ensures WriteItems(db, items).v1 == WriteItems(flat, items).v1 && WriteItems(db, items).useV2 == db.useV2
  {
    hide PutV2, Put, MakeGOPKey;
    if items != [] {
      SameFlat(db, flat, items[..|items| - 1]);
    }
  }

  /** The entry was deleted from the flat bucket and missed by the deletion in the V2 buckets. */
  ghost predicate Parted(ops: seq<Op>, w: int, id: Id) {
    id in RunSeen(map[], w, ops) && id !in RunTable(map[], ops)
  }

  /** After any run with plain keys both layouts answer alike if and only if the query visits
      the day of an entry in the range exactly when no deletion has parted it. */
  lemma LayoutsAgreeExactly(ops: seq<Op>, w: int, camera: Bytes, start: Time, end: Time)
    requires IsOffset(w) && forall op :: op in ops ==> AnyOpOk(op, w) && FlatOk(op, w)
    requires IsOffset(start.offset) && NoColon(camera) && NineteenDigits(start.ns) && NineteenDigits(end.ns)
    ensures var db := Run(EMPTY, ops);
            QueryV1(db.v1, camera, start, end) == QueryV2(db.v2, camera, start, end)
            <==> forall id :: id in RunSeen(map[], w, ops) && InRange(camera, start, end, id) ==>
                   (Seen(id.ns, w, start, end) <==> !Parted(ops, w, id))
  {
    hide RepV1, RepV2, PlainTable, Seen, QueryV1, QueryV2, RunSeen, RunTable, Run, AnyOpOk, FlatOk, NineteenDigits, NoColon;
    var db, plain, m := Run(EMPTY, ops), RunTable(map[], ops), RunSeen(map[], w, ops);
    Nineteen(start, end);
    PlainRunRefines(ops, w);
    RunSeenRefines(ops, w);
    RunPart(ops, w);
    QueryV1Correct(db.v1, plain, w, camera, start, end);
    QueryV2Exact(db.v2, m, w, camera, start, end);
    SameListing(QueryV1(db.v1, camera, start, end), QueryV2(db.v2, camera, start, end), plain, m, w, camera, start, end);
  }

  lemma Nineteen(start: Time, end: Time)
    requires NineteenDigits(start.ns) && NineteenDigits(end.ns)
    ensures IsInstant(start.ns) && IsInstant(end.ns)
  {
  }

  lemma SameListing(r1: seq<GOPMeta>, r2: seq<GOPMeta>, plain: Table, m: Table, w: int, camera: Bytes, start: Time, end: Time)
    requires TableOf(m, w) && PartOf(plain, m) && IsListing(r1, plain, camera, start, end) && Ascending(r2)
    requires forall g :: g in r2 <==> Entry(m, camera, g) && start.ns <= g.start.ns <= end.ns && Seen(g.start.ns, w, start, end)
    ensures r1 == r2 <==> forall id :: id in m && InRange(camera, start, end, id) ==>
                            (Seen(id.ns, w, start, end) <==> id in plain)
  {
    hide Seen;
    if r1 == r2 {
      forall id | id in m && InRange(camera, start, end, id) ensures Seen(id.ns, w, start, end) <==> id in plain {
        assert Entry(m, camera, m[id]);
        assert m[id] in r2 <==> Seen(id.ns, w, start, end);
        assert m[id] in r1 <==> id in plain;
      }
    } else if forall id :: id in m && InRange(camera, start, end, id) ==> (Seen(id.ns, w, start, end) <==> id in plain) {
      forall g ensures g in r1 <==> g in r2 {
        if Entry(m, camera, g) && start.ns <= g.start.ns <= end.ns {
          assert InRange(camera, start, end, Id(camera, g.start.ns));
        }
      }
      ListingUnique(r1, r2);
    }
  }

  /** Every incompatible pair of offsets has such a run: a deletion for the very instant of an
      entry removes it from the flat bucket and leaves it in the V2 buckets. */
  lemma IncompatibleDeletionParts(w: int, r: int, camera: Bytes, g: GOPMeta) returns (t: int, ops: seq<Op>)
    requires IsOffset(w) && IsOffset(r) && !Compatible(w, r) && camera != [] && NoColon(camera)
    ensures NineteenDigits(t) && ops == [Write(camera, g.(start := Time(t, w)), true), Delete(camera, Time(t, r), Time(t, r), true)]
    ensures Parted(ops, w, Id(camera, t))
    ensures var db := Run(EMPTY, ops);
            QueryV1(db.v1, camera, Time(t, w), Time(t, w)) != QueryV2(db.v2, camera, Time(t, w), Time(t, w))
  {
    hide Seen, Run, RunSeen, RunTable, QueryV1, QueryV2, NineteenDigits, NoColon;
    t := LateMiss(w, r);
    var meta, at, id := g.(start := Time(t, w)), Time(t, w), Id(camera, t);
    var write, delete := Write(camera, meta, true), Delete(camera, Time(t, r), Time(t, r), true);
    ops := [write, delete];
    NoOps(w);
    LastOp(w, [], write);
    LastOp(w, [write], delete);
    assert [] + [write] == [write] && [write] + [delete] == ops;
    var m1: Table := map[id := meta];
    assert map[][id := meta] == m1;
    assert id in ErasedSeen(m1, w, camera, Time(t, r), Time(t, r)) && id !in Erased(m1, camera, Time(t, r), Time(t, r));
    CompatibleSees(t, w, at, at);
    Nineteen(at, at);
    LayoutsAgreeExactly(ops, w, camera, at, at);
    assert InRange(camera, at, at, id);
  }

  lemma NoOps(w: int)
    ensures RunSeen(map[], w, []) == map[] && RunTable(map[], []) == map[]
  {
  }

  lemma LastOp(w: int, ops: seq<Op>, op: Op)
    ensures RunSeen(map[], w, ops + [op]) == ApplySeen(RunSeen(map[], w, ops), w, op)
    ensures RunTable(map[], ops + [op]) == ApplyTable(RunTable(map[], ops), op)
  {
    hide ApplySeen, ApplyTable;
    assert (ops + [op])[..|ops|] == ops;
  }

  /** The instants that an incompatible reader misses recur every day. */
  lemma LateMiss(w: int, r: int) returns (t: int)
    requires IsOffset(w) && IsOffset(r) && !Compatible(w, r)
    ensures NineteenDigits(t) && !Seen(t, w, Time(t, r), Time(t, r))
  {
    t := 11575 * DAY + if w > 0 then DAY - w else 0;
  }

  /** The offset condition cannot be weakened: for any incompatible pair of offsets
      there is one write and a query for that very instant that does not find it. */
  lemma IncompatibleQueryMisses(w: int, r: int, camera: Bytes, g: GOPMeta) returns (t: int)
    requires IsOffset(w) && IsOffset(r) && !Compatible(w, r) && camera != []
    ensures IsInstant(t)
    ensures var meta := g.(start := Time(t, w));
            && Entry(RunTable(map[], [Write(camera, meta, true)]), camera, meta)
            && meta !in Query(Run(EMPTY, [Write(camera, meta, true)]), camera, Time(t, r), Time(t, r))
  {
    t := IncompatibleMiss(w, r);
    var meta, at := g.(start := Time(t, w)), Time(t, r);
    var m: Table := map[Id(camera, t) := meta];
    var ops := [Write(camera, meta, true)];
    assert ops[..0] == [] && Run(EMPTY, []) == EMPTY;
    var db := Run(EMPTY, ops);
    assert db == WriteOne(EMPTY, camera, meta);
    PutV2Refines(map[], map[], w, camera, meta);
    assert map[][Id(camera, t) := meta] == m;
    TruncatedDay(at);
    QueryDaysListing(db.v2, m, w, camera, at, at, TruncateDay(at));
    assert RunTable(map[], []) == map[];
  }
}
