/** The recording index: every GOP is stored under a text key in one flat bucket (V1)
    and under a binary key in a bucket per camera and calendar day (V2). */
module Index {
  import opened Common
  import opened KeyOrder
  import opened OrderedBucket

  // ---------------------------------------------------------------------------
  // Keys and day labels
  // ---------------------------------------------------------------------------

  const KEY_VERSION_V2: byte := 0x02
  const WORD_BYTES: nat := 8

  /** Exclusive or of the low bits of two numbers. */
  function XorBits(a: nat, b: nat, bits: nat): (r: nat)
    ensures r < Pow(2, bits)
  {
    if bits == 0 then 0 else 2 * XorBits(a / 2, b / 2, bits - 1) + (a + b) % 2
  }

  function Xor(a: byte, b: byte): byte {
    assert Pow(2, 8) == 256;
    XorBits(a as nat, b as nat, 8) as byte
  }

  /** FNV-1a, 64 bits. */
  function HashCameraId(camera: Bytes): (h: nat)
    ensures h < TWO_64
  {
    if camera == [] then 14695981039346656037 else
      var h, last := HashCameraId(camera[..|camera| - 1]), camera[|camera| - 1];
      ((h - h % 256 + Xor((h % 256) as byte, last) as int) * 1099511628211) % TWO_64
  }

  /** Conversion of an int64 to uint64. */
  function Unsigned64(n: int): nat {
    n % TWO_64
  }

  function BinaryKeyHead(camera: Bytes): Bytes {
    [KEY_VERSION_V2] + Digits(HashCameraId(camera), 256, 0, WORD_BYTES)
  }

  /** Version, camera hash and time, the last two big-endian: 17 bytes. */
  function MakeBinaryKey(camera: Bytes, ns: int): Bytes {
    BinaryKeyHead(camera) + Digits(Unsigned64(ns), 256, 0, WORD_BYTES)
  }

  function CameraPrefix(camera: Bytes): Bytes {
    camera + [ASCII_COLON]
  }

  function MakeGOPKey(camera: Bytes, ns: int): Bytes {
    CameraPrefix(camera) + IntText(ns)
  }

  predicate HasPrefix(k: Bytes, prefix: Bytes) {
    |k| >= |prefix| && k[..|prefix|] == prefix
  }

  /** The calendar day that an instant is formatted as, counted from the epoch; two
      days have the same "2006-01-02" text exactly when this number is the same. */
  function DayLabel(t: Time): int {
    (t.ns + t.offset) / DAY
  }

  /** Truncate(24h): down to a UTC midnight, keeping the location. */
  function TruncateDay(t: Time): Time {
    t.(ns := t.ns - t.ns % DAY)
  }

  function NextDay(t: Time): Time {
    t.(ns := t.ns + DAY)
  }

  // ---------------------------------------------------------------------------
  // What the transactions do to the stored buckets
  // ---------------------------------------------------------------------------

  type CameraBucket = map<int, Bucket>

  datatype DB = DB(useV2: bool, v1: Bucket, v2: map<Bytes, CameraBucket>)

  ghost predicate SortedDays(days: CameraBucket) {
    forall l :: l in days ==> Sorted(days[l])
  }

  ghost predicate SortedDB(db: DB) {
    Sorted(db.v1) && forall c :: c in db.v2 ==> SortedDays(db.v2[c])
  }

  function DaysOf(v2: map<Bytes, CameraBucket>, camera: Bytes): CameraBucket {
    if camera in v2 then v2[camera] else map[]
  }

  function BucketOf(days: CameraBucket, day: int): Bucket {
    if day in days then days[day] else []
  }

  /** One value stored in its camera's bucket for its day. */
  function PutV2(v2: map<Bytes, CameraBucket>, camera: Bytes, meta: GOPMeta): map<Bytes, CameraBucket> {
    var days, day := DaysOf(v2, camera), DayLabel(meta.start);
    v2[camera := days[day := Put(BucketOf(days, day), MakeBinaryKey(camera, meta.start.ns), Json(meta))]]
  }

  function WriteOne(db: DB, camera: Bytes, meta: GOPMeta): DB {
    DB(db.useV2,
       Put(db.v1, MakeGOPKey(camera, meta.start.ns), Json(meta)),
       if db.useV2 then PutV2(db.v2, camera, meta) else db.v2)
  }

  datatype Item = Item(camera: Bytes, meta: GOPMeta)

  function WriteItems(db: DB, items: seq<Item>): DB {
    if items == [] then db else
      var n := |items| - 1;
      WriteOne(WriteItems(db, items[..n]), items[n].camera, items[n].meta)
  }

  /** Every item goes into a camera bucket that has a name. */
  predicate Named(items: seq<Item>) {
    forall item | item in items :: item.camera != []
  }

  predicate InWindow(k: Bytes, lo: Bytes, hi: Bytes) {
    AtMost(lo, k) && AtMost(k, hi)
  }

  function SelectV1(camera: Bytes, start: Time, end: Time): Pair -> bool {
    (e: Pair) => InWindow(e.key, MakeGOPKey(camera, start.ns), MakeGOPKey(camera, end.ns))
                 && HasPrefix(e.key, CameraPrefix(camera))
  }

  function SelectV2(camera: Bytes, start: Time, end: Time): Pair -> bool {
    (e: Pair) => InWindow(e.key, MakeBinaryKey(camera, start.ns), MakeBinaryKey(camera, end.ns))
  }

  function Unselected(p: Pair -> bool): Pair -> bool {
    (e: Pair) => !p(e)
  }

  /** A value handed to the caller: it decodes and starts within [start, end]. */
  predicate Reported(v: Stored, start: Time, end: Time) {
    v.Json? && start.ns <= v.meta.start.ns <= end.ns
  }

  function MetasV1(b: Bucket): seq<GOPMeta> {
    if b == [] then [] else (if b[0].value.Json? then [b[0].value.meta] else []) + MetasV1(b[1..])
  }

  function MetasV2(b: Bucket, start: Time, end: Time): seq<GOPMeta> {
    if b == [] then [] else
      (if Reported(b[0].value, start, end) then [b[0].value.meta] else []) + MetasV2(b[1..], start, end)
  }

  function QueryV1(v1: Bucket, camera: Bytes, start: Time, end: Time): seq<GOPMeta> {
    MetasV1(Filter(v1, SelectV1(camera, start, end)))
  }

  function QueryDays(days: CameraBucket, camera: Bytes, start: Time, end: Time, d: Time): seq<GOPMeta>
    decreases end.ns + 2 * DAY - d.ns
  {
    if d.ns > NextDay(TruncateDay(end)).ns then [] else
      MetasV2(Filter(BucketOf(days, DayLabel(d)), SelectV2(camera, start, end)), start, end)
      + QueryDays(days, camera, start, end, NextDay(d))
  }

  function QueryV2(v2: map<Bytes, CameraBucket>, camera: Bytes, start: Time, end: Time): seq<GOPMeta> {
    QueryDays(DaysOf(v2, camera), camera, start, end, TruncateDay(start))
  }

  function Query(db: DB, camera: Bytes, start: Time, end: Time): seq<GOPMeta> {
    if db.useV2 then QueryV2(db.v2, camera, start, end) else QueryV1(db.v1, camera, start, end)
  }

  /** One day bucket after a deletion; a bucket that became empty is removed. */
  function DeleteDay(days: CameraBucket, camera: Bytes, start: Time, end: Time, day: int): CameraBucket {
    if day !in days then days else
      var kept := Filter(days[day], Unselected(SelectV2(camera, start, end)));
      if kept == [] then days - {day} else days[day := kept]
  }

  function DeleteDays(days: CameraBucket, camera: Bytes, start: Time, end: Time, d: Time): CameraBucket
    decreases end.ns + 2 * DAY - d.ns
  {
    if d.ns > NextDay(TruncateDay(end)).ns then days else
      DeleteDays(DeleteDay(days, camera, start, end, DayLabel(d)), camera, start, end, NextDay(d))
  }

  function DeleteV2(v2: map<Bytes, CameraBucket>, camera: Bytes, start: Time, end: Time): map<Bytes, CameraBucket> {
    if camera !in v2 then v2 else v2[camera := DeleteDays(v2[camera], camera, start, end, TruncateDay(start))]
  }

  function DeleteEntries(db: DB, camera: Bytes, start: Time, end: Time): DB {
    DB(db.useV2,
       Filter(db.v1, Unselected(SelectV1(camera, start, end))),
       if db.useV2 then DeleteV2(db.v2, camera, start, end) else db.v2)
  }

  // ---------------------------------------------------------------------------
  // The buckets stay ordered
  // ---------------------------------------------------------------------------

  lemma WriteOneSorted(db: DB, camera: Bytes, meta: GOPMeta)
    requires SortedDB(db)
    ensures SortedDB(WriteOne(db, camera, meta))
  {
    hide Put, Less, MakeGOPKey, MakeBinaryKey, Sorted, DayLabel;
    SortedDay(db, camera, DayLabel(meta.start));
    PutEffect(db.v1, MakeGOPKey(camera, meta.start.ns), Json(meta));
    var days, day := DaysOf(db.v2, camera), DayLabel(meta.start);
    PutEffect(BucketOf(days, day), MakeBinaryKey(camera, meta.start.ns), Json(meta));
  }

  lemma SortedDay(db: DB, camera: Bytes, day: int)
    requires SortedDB(db)
    ensures Sorted(BucketOf(DaysOf(db.v2, camera), day))
  {
  }

  lemma {:induction false} WriteItemsSorted(db: DB, items: seq<Item>)
    requires SortedDB(db)
    ensures SortedDB(WriteItems(db, items))
  {
    if items != [] {
      var n := |items| - 1;
      WriteItemsSorted(db, items[..n]);
      WriteOneSorted(WriteItems(db, items[..n]), items[n].camera, items[n].meta);
    }
  }

  lemma WriteItemsStep(db: DB, items: seq<Item>, i: nat)
    requires i < |items|
    ensures WriteItems(db, items[..i + 1]) == WriteOne(WriteItems(db, items[..i]), items[i].camera, items[i].meta)
  {
    assert items[..i + 1][..i] == items[..i];
  }

  lemma DeleteDaySorted(days: CameraBucket, camera: Bytes, start: Time, end: Time, day: int)
    requires SortedDays(days)
    ensures SortedDays(DeleteDay(days, camera, start, end, day))
  {
    if day in days {
      FilterMembers(days[day], Unselected(SelectV2(camera, start, end)));
    }
  }

  // ---------------------------------------------------------------------------
  // Cursor steps over the value lists
  // ---------------------------------------------------------------------------

  lemma MetasV1Cons(b: Bucket)
    requires b != []
    ensures MetasV1(b) == (if b[0].value.Json? then [b[0].value.meta] else []) + MetasV1(b[1..])
  {
  }

  lemma {:induction false} MetasV1Concat(a: Bucket, b: Bucket)
    ensures MetasV1(a + b) == MetasV1(a) + MetasV1(b)
  {
    if a == [] {
      assert a + b == b;
    } else {
      hide MetasV1;
      assert (a + b)[1..] == a[1..] + b;
      MetasV1Cons(a);
      MetasV1Cons(a + b);
      MetasV1Concat(a[1..], b);
    }
  }

  lemma MetasV2Cons(b: Bucket, start: Time, end: Time)
    requires b != []
    ensures MetasV2(b, start, end)
         == (if Reported(b[0].value, start, end) then [b[0].value.meta] else []) + MetasV2(b[1..], start, end)
  {
  }

  lemma {:induction false} MetasV2Concat(a: Bucket, b: Bucket, start: Time, end: Time)
    ensures MetasV2(a + b, start, end) == MetasV2(a, start, end) + MetasV2(b, start, end)
  {
    if a == [] {
      assert a + b == b;
    } else {
      hide MetasV2, Reported;
      assert (a + b)[1..] == a[1..] + b;
      MetasV2Cons(a, start, end);
      MetasV2Cons(a + b, start, end);
      MetasV2Concat(a[1..], b, start, end);
    }
  }

  /** One cursor step of the V1 scan. */
  lemma ScanStepV1(v1: Bucket, camera: Bytes, start: Time, end: Time, i: nat)
    requires Sorted(v1) && Seek(v1, MakeGOPKey(camera, start.ns)) <= i < |v1|
    requires AtMost(v1[i].key, MakeGOPKey(camera, end.ns))
    ensures MetasV1(Filter(v1[..i + 1], SelectV1(camera, start, end)))
         == MetasV1(Filter(v1[..i], SelectV1(camera, start, end)))
            + if HasPrefix(v1[i].key, CameraPrefix(camera)) && v1[i].value.Json? then [v1[i].value.meta] else []
  {
    hide Seek, Less, MakeGOPKey;
    var p := SelectV1(camera, start, end);
    CursorAbove(v1, MakeGOPKey(camera, start.ns), i);
    FilterStep(v1, p, i);
    MetasV1Concat(Filter(v1[..i], p), if p(v1[i]) then [v1[i]] else []);
  }

  /** One cursor step of the scan of a day bucket. */
  lemma ScanStepV2(b: Bucket, camera: Bytes, start: Time, end: Time, i: nat)
    requires Sorted(b) && Seek(b, MakeBinaryKey(camera, start.ns)) <= i < |b|
    requires AtMost(b[i].key, MakeBinaryKey(camera, end.ns))
    ensures MetasV2(Filter(b[..i + 1], SelectV2(camera, start, end)), start, end)
         == MetasV2(Filter(b[..i], SelectV2(camera, start, end)), start, end)
            + if Reported(b[i].value, start, end) then [b[i].value.meta] else []
  {
    hide Seek, Less, MakeBinaryKey;
    var p := SelectV2(camera, start, end);
    CursorAbove(b, MakeBinaryKey(camera, start.ns), i);
    FilterStep(b, p, i);
    MetasV2Concat(Filter(b[..i], p), [b[i]], start, end);
  }

  lemma CursorAbove(b: Bucket, lo: Bytes, i: nat)
    requires Sorted(b) && Seek(b, lo) <= i < |b|
    ensures AtMost(lo, b[i].key)
  {
    SortedAbove(b, lo, Seek(b, lo));
    if i > Seek(b, lo) {
      LessAsymmetric(lo, b[i].key);
    }
  }

  lemma QueryDaysStep(days: CameraBucket, camera: Bytes, start: Time, end: Time, d: Time)
    requires d.ns <= NextDay(TruncateDay(end)).ns
    ensures QueryDays(days, camera, start, end, d)
         == (if DayLabel(d) in days then
               MetasV2(Filter(days[DayLabel(d)], SelectV2(camera, start, end)), start, end)
             else []) + QueryDays(days, camera, start, end, NextDay(d))
  {
  }

  lemma QueryDaysDone(days: CameraBucket, camera: Bytes, start: Time, end: Time, d: Time)
    requires d.ns > NextDay(TruncateDay(end)).ns
    ensures QueryDays(days, camera, start, end, d) == []
  {
  }

  class BoltIndex {
    var useV2: bool
    var v1: Bucket
    var v2: map<Bytes, CameraBucket>

    function State(): DB
      reads this
    {
      DB(useV2, v1, v2)
    }

    ghost predicate Valid()
      reads this
    {
      SortedDB(State())
    }

    constructor ()
      ensures Valid() && State() == DB(true, [], map[])
    {
      useV2, v1, v2 := true, [], map[];
    }

    /** `commit` tells whether the store can complete the transaction; the store refuses
        a bucket without a name, so an empty camera id fails. A failed transaction
        leaves no trace. */
    method WriteGOP(camera: Bytes, meta: GOPMeta, commit: bool) returns (ok: bool)
      requires Valid()
      modifies this
      ensures Valid()
      ensures ok <==> commit && (useV2 ==> camera != [])
      ensures State() == if ok then WriteOne(old(State()), camera, meta) else old(State())
    {
      ok := commit && (useV2 ==> camera != []);
      if ok {
        WriteOneSorted(State(), camera, meta);
        if useV2 {
          v2 := PutV2(v2, camera, meta);
        }
        v1 := Put(v1, MakeGOPKey(camera, meta.start.ns), Json(meta));
      }
    }

    /** All items or none. */
    method BatchWriteGOP(items: seq<Item>, commit: bool) returns (ok: bool)
      requires Valid()
      modifies this
      ensures Valid()
      ensures ok <==> items == [] || (commit && (useV2 ==> Named(items)))
      ensures State() == if ok then WriteItems(old(State()), items) else old(State())
    {
      if |items| == 0 {
        return true;
      }
      var staged, tx := StageItems(State(), items);
      if !staged || !commit {
        return false;
      }
      WriteItemsSorted(State(), items);
      v1, v2 := tx.v1, tx.v2;
      return true;
    }

    method QueryRange(camera: Bytes, start: Time, end: Time) returns (results: seq<GOPMeta>)
      requires Valid()
      ensures results == Query(State(), camera, start, end)
    {
      if useV2 {
        results := ScanV2(camera, start, end);
      } else {
        results := ScanV1(camera, start, end);
      }
    }

    method DeleteRange(camera: Bytes, start: Time, end: Time, commit: bool) returns (ok: bool)
      requires Valid()
      modifies this
      ensures Valid()
      ensures ok == commit
      ensures State() == if ok then DeleteEntries(old(State()), camera, start, end) else old(State())
    {
      if !commit {
        return false;
      }
      if useV2 && camera in v2 {
        var days := EraseDays(v2[camera], camera, start, end);
        v2 := v2[camera := days];
      }
      v1 := Erase(v1, MakeGOPKey(camera, start.ns), MakeGOPKey(camera, end.ns), CameraPrefix(camera),
                  SelectV1(camera, start, end));
      return true;
    }

    method ScanV1(camera: Bytes, start: Time, end: Time) returns (results: seq<GOPMeta>)
      requires Valid()
      ensures results == QueryV1(v1, camera, start, end)
    {
      hide Filter, Seek, Less, MakeGOPKey;
      var startKey, endKey := MakeGOPKey(camera, start.ns), MakeGOPKey(camera, end.ns);
      ghost var p := SelectV1(camera, start, end);
      results := [];
      var i := Seek(v1, startKey);
      ScanComplete(v1, p, startKey, endKey, |v1|);
      while i < |v1| && AtMost(v1[i].key, endKey)
        invariant Seek(v1, startKey) <= i <= |v1|
        invariant results == MetasV1(Filter(v1[..i], p))
      {
        ScanStepV1(v1, camera, start, end, i);
        if HasPrefix(v1[i].key, CameraPrefix(camera)) && v1[i].value.Json? {
          results := results + [v1[i].value.meta];
        }
        i := i + 1;
      }
      ScanComplete(v1, p, startKey, endKey, i);
    }

    method ScanV2(camera: Bytes, start: Time, end: Time) returns (results: seq<GOPMeta>)
      requires Valid()
      ensures results == QueryV2(v2, camera, start, end)
    {
      hide QueryDays, MetasV2, Filter, SelectV2;
      results := [];
      if camera !in v2 {
        NoDays(camera, start, end, TruncateDay(start));
        return;
      }
      var days := v2[camera];
      var d := TruncateDay(start);
      var last := NextDay(TruncateDay(end));
      while d.ns <= last.ns
        invariant results + QueryDays(days, camera, start, end, d) == QueryV2(v2, camera, start, end)
        decreases last.ns - d.ns
      {
        QueryDaysStep(days, camera, start, end, d);
        if DayLabel(d) in days {
          var part := ScanDay(days[DayLabel(d)], camera, start, end);
          results := results + part;
        }
        d := NextDay(d);
      }
      QueryDaysDone(days, camera, start, end, d);
    }
  }

  /** The loop inside the batch transaction: it works on the transaction's view and
      stops at the first item the store refuses. */
  method StageItems(db: DB, items: seq<Item>) returns (ok: bool, tx: DB)
    ensures ok <==> (db.useV2 ==> Named(items))
    ensures ok ==> tx == WriteItems(db, items) && tx.useV2 == db.useV2
  {
    hide PutV2, Put, MakeGOPKey;
    tx := db;
    for i := 0 to |items|
      invariant tx == WriteItems(db, items[..i]) && tx.useV2 == db.useV2
      invariant db.useV2 ==> Named(items[..i])
    {
      WriteItemsStep(db, items, i);
      assert items[..i + 1] == items[..i] + [items[i]];
      var camera, meta := items[i].camera, items[i].meta;
      ghost var before := tx;
      if db.useV2 {
        if camera == [] {
          return false, tx;
        }
        tx := tx.(v2 := PutV2(tx.v2, camera, meta));
      }
      tx := tx.(v1 := Put(tx.v1, MakeGOPKey(camera, meta.start.ns), Json(meta)));
      assert tx == WriteOne(before, camera, meta);
    }
    assert items[..|items|] == items;
    ok := true;
  }

  lemma {:induction false} NoDays(camera: Bytes, start: Time, end: Time, d: Time)
    ensures QueryDays(map[], camera, start, end, d) == []
    decreases end.ns + 2 * DAY - d.ns
  {
    if d.ns <= NextDay(TruncateDay(end)).ns {
      NoDays(camera, start, end, NextDay(d));
    }
  }

  /** The cursor loop over one day bucket. */
  method ScanDay(b: Bucket, camera: Bytes, start: Time, end: Time) returns (results: seq<GOPMeta>)
    requires Sorted(b)
    ensures results == MetasV2(Filter(b, SelectV2(camera, start, end)), start, end)
  {
    hide Filter, Seek, Less, MakeBinaryKey;
    var startKey, endKey := MakeBinaryKey(camera, start.ns), MakeBinaryKey(camera, end.ns);
    ghost var p := SelectV2(camera, start, end);
    results := [];
    var i := Seek(b, startKey);
    ScanComplete(b, p, startKey, endKey, |b|);
    while i < |b| && AtMost(b[i].key, endKey)
      invariant Seek(b, startKey) <= i <= |b|
      invariant results == MetasV2(Filter(b[..i], p), start, end)
    {
      ScanStepV2(b, camera, start, end, i);
      if Reported(b[i].value, start, end) {
        results := results + [b[i].value.meta];
      }
      i := i + 1;
    }
    ScanComplete(b, p, startKey, endKey, i);
  }

  /** The day loop of a deletion. */
  method EraseDays(days: CameraBucket, camera: Bytes, start: Time, end: Time) returns (left: CameraBucket)
    requires SortedDays(days)
    ensures SortedDays(left)
    ensures left == DeleteDays(days, camera, start, end, TruncateDay(start))
  {
    left := days;
    var d := TruncateDay(start);
    var last := NextDay(TruncateDay(end));
    while d.ns <= last.ns
      invariant SortedDays(left)
      invariant DeleteDays(left, camera, start, end, d) == DeleteDays(days, camera, start, end, TruncateDay(start))
      decreases last.ns - d.ns
    {
      DeleteDaySorted(left, camera, start, end, DayLabel(d));
      if DayLabel(d) in left {
        var kept := Erase(left[DayLabel(d)], MakeBinaryKey(camera, start.ns), MakeBinaryKey(camera, end.ns), [],
                          SelectV2(camera, start, end));
        left := if kept == [] then left - {DayLabel(d)} else left[DayLabel(d) := kept];
      }
      d := NextDay(d);
    }
  }

  /** Collects the keys to delete under a cursor, then deletes them. */
  method Erase(b: Bucket, startKey: Bytes, endKey: Bytes, prefix: Bytes, ghost p: Pair -> bool) returns (kept: Bucket)
    requires Sorted(b)
    requires forall e: Pair :: p(e) <==> InWindow(e.key, startKey, endKey) && HasPrefix(e.key, prefix)
    ensures Sorted(kept)
    ensures kept == Filter(b, Unselected(p))
  {
    var toDelete := CollectKeys(b, startKey, endKey, prefix, p);
    kept := b;
    for n := 0 to |toDelete|
      invariant Sorted(kept)
      invariant forall e :: e in kept <==> e in b && e.key !in toDelete[..n]
    {
      DeleteEffect(kept, toDelete[n]);
      kept := Delete(kept, toDelete[n]);
      assert toDelete[..n + 1] == toDelete[..n] + [toDelete[n]];
    }
    assert toDelete[..|toDelete|] == toDelete;
    FilterMembers(b, Unselected(p));
    SameContents(kept, Filter(b, Unselected(p)));
  }

  method CollectKeys(b: Bucket, startKey: Bytes, endKey: Bytes, prefix: Bytes, ghost p: Pair -> bool)
    returns (keys: seq<Bytes>)
    requires Sorted(b)
    requires forall e: Pair :: p(e) <==> InWindow(e.key, startKey, endKey) && HasPrefix(e.key, prefix)
    ensures forall e :: e in b ==> (e.key in keys <==> p(e))
  {
    keys := [];
    var i := Seek(b, startKey);
    while i < |b| && AtMost(b[i].key, endKey)
      invariant Seek(b, startKey) <= i <= |b|
      invariant forall j :: 0 <= j < i ==> (b[j].key in keys <==> p(b[j]))
      invariant forall j :: i <= j < |b| ==> b[j].key !in keys
    {
      CursorAbove(b, startKey, i);
      KeysDistinct(b, i);
      if HasPrefix(b[i].key, prefix) {
        keys := keys + [b[i].key];
      }
      i := i + 1;
    }
    forall j | i <= j < |b| ensures !p(b[j]) {
      if i < j {
        LessTransitive(endKey, b[i].key, b[j].key);
      }
    }
  }

  lemma KeysDistinct(b: Bucket, i: nat)
    requires Sorted(b) && i < |b|
    ensures forall j :: 0 <= j < |b| && j != i ==> b[j].key != b[i].key
  {
    LessIrreflexive(b[i].key);
  }
}
