/** The retention cleaner: day by day it deletes the objects of expired GOPs and then the
    index entries. */
module Retention {
  import opened Common
  import opened OrderedBucket
  import opened Index
  import opened DayCover
  import opened IndexRefinement

  const SCAN_DAYS: int := 30

  function ScanStart(cutoff: Time): Time {
    cutoff.(ns := cutoff.ns - SCAN_DAYS * DAY)
  }

  /** UTC midnight of the date that d shows. */
  function DayStart(d: Time): Time {
    Time(DayLabel(d) * DAY, 0)
  }

  /** The GOPs of a day whose objects are deleted. */
  function Expired(gops: seq<GOPMeta>, cutoff: Time): seq<GOPMeta> {
    if gops == [] then [] else
      var n := |gops| - 1;
      var before := Expired(gops[..n], cutoff);
      if gops[n].end.ns <= cutoff.ns then before + [gops[n]] else before
  }

  /** How the index answers on each day: whether the query of the day succeeds, and whether
      the deletion commits. */
  datatype Answers = Answers(query: Time -> bool, commit: Time -> bool)

  /** What the query of a day returns to the cleaner; nothing if it fails. */
  function Found(db: DB, camera: Bytes, d: Time, answers: Answers): seq<GOPMeta> {
    if answers.query(d) then Query(db, camera, DayStart(d), NextDay(DayStart(d))) else []
  }

  function CleanDay(db: DB, camera: Bytes, cutoff: Time, d: Time, answers: Answers): DB {
    if Found(db, camera, d, answers) != [] && answers.commit(d)
    then DeleteEntries(db, camera, DayStart(d), cutoff) else db
  }

  function CleanDays(db: DB, camera: Bytes, cutoff: Time, d: Time, answers: Answers): DB
    decreases cutoff.ns - d.ns
  {
    if d.ns >= cutoff.ns then db
    else CleanDays(CleanDay(db, camera, cutoff, d, answers), camera, cutoff, NextDay(d), answers)
  }

  /** The GOPs whose objects a cleanup deletes, over all its days. */
  function ExpiredGOPs(db: DB, camera: Bytes, cutoff: Time, d: Time, answers: Answers): seq<GOPMeta>
    decreases cutoff.ns - d.ns
  {
    if d.ns >= cutoff.ns then [] else
      Expired(Found(db, camera, d, answers), cutoff)
      + ExpiredGOPs(CleanDay(db, camera, cutoff, d, answers), camera, cutoff, NextDay(d), answers)
  }

  function FragmentKeys(gops: seq<GOPMeta>): (keys: seq<Bytes>)
    ensures |keys| == |gops|
  {
    seq(|gops|, i requires 0 <= i < |gops| => gops[i].objectKey)
  }

  /** The init segments deleted after their fragments. */
  function InitKeys(gops: seq<GOPMeta>, deletable: Bytes -> bool): seq<Bytes> {
    if gops == [] then [] else
      var n := |gops| - 1;
      var before := InitKeys(gops[..n], deletable);
      if deletable(gops[n].objectKey) && gops[n].initKey != [] then before + [gops[n].initKey] else before
  }

  /** `deletable` says whether the storage can delete an object, `answers` how the index
      answers on each day. The outcome lists the keys handed to the storage. */
  method CleanupCamera(index: BoltIndex, camera: Bytes, cutoff: Time, deletable: Bytes -> bool, answers: Answers)
    returns (fragments: seq<Bytes>, inits: seq<Bytes>)
    requires index.Valid()
    modifies index
    ensures index.Valid()
    ensures index.State() == CleanDays(old(index.State()), camera, cutoff, ScanStart(cutoff), answers)
    ensures var gops := ExpiredGOPs(old(index.State()), camera, cutoff, ScanStart(cutoff), answers);
            fragments == FragmentKeys(gops) && inits == InitKeys(gops, deletable)
  {
    hide Query, DeleteEntries, Expired, InitKeys, FragmentKeys, CleanDays, ExpiredGOPs;
    fragments, inits := [], [];
    NoKeys(deletable);
    ghost var seen: seq<GOPMeta> := [];
    var d := ScanStart(cutoff);
    while d.ns < cutoff.ns
      invariant index.Valid()
      invariant CleanDays(index.State(), camera, cutoff, d, answers)
             == CleanDays(old(index.State()), camera, cutoff, ScanStart(cutoff), answers)
      invariant seen + ExpiredGOPs(index.State(), camera, cutoff, d, answers)
             == ExpiredGOPs(old(index.State()), camera, cutoff, ScanStart(cutoff), answers)
      invariant fragments == FragmentKeys(seen) && inits == InitKeys(seen, deletable)
      decreases cutoff.ns - d.ns
    {
      var dayStart := DayStart(d);
      ghost var db := index.State();
      CleanStep(db, camera, cutoff, d, answers);
      NothingExpired(cutoff);
      if !answers.query(d) {
        assert seen + [] == seen;
        d := NextDay(d);
        continue;
      }
      var gops := index.QueryRange(camera, dayStart, NextDay(dayStart));
      if |gops| > 0 {
        var keys, more := DeleteObjects(gops, cutoff, deletable);
        InitKeysConcat(seen, Expired(gops, cutoff), deletable);
        FragmentKeysConcat(seen, Expired(gops, cutoff));
        fragments, inits := fragments + keys, inits + more;
        var ok := index.DeleteRange(camera, dayStart, cutoff, answers.commit(d));
      }
      assert index.State() == CleanDay(db, camera, cutoff, d, answers);
      assert gops == [] ==> seen + Expired(gops, cutoff) == seen;
      seen := seen + Expired(gops, cutoff);
      d := NextDay(d);
    }
    CleanDone(index.State(), camera, cutoff, d, answers);
    assert seen + [] == seen;
  }

  lemma CleanDone(db: DB, camera: Bytes, cutoff: Time, d: Time, answers: Answers)
    requires d.ns >= cutoff.ns
    ensures CleanDays(db, camera, cutoff, d, answers) == db && ExpiredGOPs(db, camera, cutoff, d, answers) == []
  {
  }

  lemma NoKeys(deletable: Bytes -> bool)
    ensures FragmentKeys([]) == [] && InitKeys([], deletable) == []
  {
  }

  lemma NothingExpired(cutoff: Time)
    ensures Expired([], cutoff) == []
  {
  }

  lemma CleanStep(db: DB, camera: Bytes, cutoff: Time, d: Time, answers: Answers)
    requires d.ns < cutoff.ns
    ensures var db' := CleanDay(db, camera, cutoff, d, answers);
            && CleanDays(db, camera, cutoff, d, answers) == CleanDays(db', camera, cutoff, NextDay(d), answers)
            && ExpiredGOPs(db, camera, cutoff, d, answers)
                 == Expired(Found(db, camera, d, answers), cutoff)
                    + ExpiredGOPs(db', camera, cutoff, NextDay(d), answers)
  {
    hide Found, DeleteEntries, Expired, CleanDay;
  }

  method DeleteObjects(gops: seq<GOPMeta>, cutoff: Time, deletable: Bytes -> bool)
    returns (fragments: seq<Bytes>, inits: seq<Bytes>)
    ensures fragments == FragmentKeys(Expired(gops, cutoff)) && inits == InitKeys(Expired(gops, cutoff), deletable)
  {
    hide Expired, InitKeys, FragmentKeys;
    fragments, inits := [], [];
    NothingExpired(cutoff);
    NoKeys(deletable);
    for i := 0 to |gops|
      invariant fragments == FragmentKeys(Expired(gops[..i], cutoff))
      invariant inits == InitKeys(Expired(gops[..i], cutoff), deletable)
    {
      ExpiredStep(gops, i, cutoff);
      var gop := gops[i];
      if gop.end.ns > cutoff.ns {
        continue;
      }
      KeysStep(Expired(gops[..i], cutoff), gop, deletable);
      fragments := fragments + [gop.objectKey];
      if !deletable(gop.objectKey) {
        continue;
      }
      if gop.initKey != [] {
        inits := inits + [gop.initKey];
      }
    }
    assert gops[..|gops|] == gops;
  }

  lemma ExpiredStep(gops: seq<GOPMeta>, i: nat, cutoff: Time)
    requires i < |gops|
    ensures gops[..0] == [] && Expired(gops[..i + 1], cutoff)
         == if gops[i].end.ns <= cutoff.ns then Expired(gops[..i], cutoff) + [gops[i]] else Expired(gops[..i], cutoff)
  {
    assert gops[..i + 1][..i] == gops[..i];
  }

  lemma KeysStep(gops: seq<GOPMeta>, g: GOPMeta, deletable: Bytes -> bool)
    ensures FragmentKeys(gops + [g]) == FragmentKeys(gops) + [g.objectKey]
    ensures InitKeys(gops + [g], deletable)
         == if deletable(g.objectKey) && g.initKey != [] then InitKeys(gops, deletable) + [g.initKey]
            else InitKeys(gops, deletable)
  {
    assert (gops + [g])[..|gops|] == gops;
  }

  lemma FragmentKeysConcat(a: seq<GOPMeta>, b: seq<GOPMeta>)
    ensures FragmentKeys(a + b) == FragmentKeys(a) + FragmentKeys(b)
  {
  }

  lemma {:induction false} InitKeysConcat(a: seq<GOPMeta>, b: seq<GOPMeta>, deletable: Bytes -> bool)
    ensures InitKeys(a + b, deletable) == InitKeys(a, deletable) + InitKeys(b, deletable)
  {
    if b == [] {
      assert a + b == a;
    } else {
      var n := |b| - 1;
      assert (a + b)[..|a| + n] == a + b[..n] && (a + b)[|a| + n] == b[n];
      InitKeysConcat(a, b[..n], deletable);
    }
  }

  // ---------------------------------------------------------------------------
  // What a cleanup leaves
  // ---------------------------------------------------------------------------

  ghost predicate HasEntry(m: Table, camera: Bytes, lo: int, hi: int) {
    exists id :: id in m && id.camera == camera && lo <= id.ns <= hi
  }

  /** Midnight of the date that the cutoff shows, and the first scanned one. */
  function Midnight(cutoff: Time): int {
    DayLabel(cutoff) * DAY
  }

  function Base(cutoff: Time): int {
    Midnight(cutoff) - 30 * DAY
  }

  /** A cutoff in any zone, its scan within the times that the index can hold. */
  ghost predicate CutoffOk(cutoff: Time) {
    IsOffset(cutoff.offset) && IsInstant(cutoff.ns) && IsInstant(Base(cutoff)) && IsInstant(Midnight(cutoff))
  }

  /** A scanned day. */
  ghost predicate IsScanDay(d: Time, cutoff: Time) {
    && d.offset == cutoff.offset && d.ns % DAY == cutoff.ns % DAY
    && Base(cutoff) <= DayStart(d).ns && d.ns < cutoff.ns
  }

  lemma ScanDay(d: Time, cutoff: Time)
    requires IsScanDay(d, cutoff) && IsOffset(cutoff.offset)
    ensures DayStart(NextDay(d)).ns == DayStart(d).ns + DAY
    ensures DayStart(d).ns + DAY <= Midnight(cutoff) && DayStart(d).ns < cutoff.ns
    ensures IsScanDay(NextDay(d), cutoff) || (NextDay(d).ns == cutoff.ns && DayStart(d).ns + DAY == Midnight(cutoff))
  {
    hide Base;
    var k := (cutoff.ns - d.ns) / DAY;
    WholeDays(d.ns, cutoff.ns);
    ShiftDays(d.ns + d.offset, k);
    ShiftDays(d.ns + d.offset, 1);
    LabelBound(cutoff);
  }

  lemma WholeDays(s: int, t: int)
    requires s % DAY == t % DAY && s < t
    ensures t - s == (t - s) / DAY * DAY && (t - s) / DAY >= 1
  {
  }

  lemma ShiftDays(ns: int, k: int)
    ensures (ns + k * DAY) / DAY == ns / DAY + k
  {
  }

  lemma LabelBound(t: Time)
    ensures DayLabel(t) * DAY <= t.ns + t.offset < DayLabel(t) * DAY + DAY
  {
  }

  lemma FirstScanDay(cutoff: Time)
    ensures IsScanDay(ScanStart(cutoff), cutoff) && DayStart(ScanStart(cutoff)).ns == Base(cutoff)
  {
  }

  /** An entry that a scan from day start `lo` to `hi` sees. The scans are in UTC, so what a
      western writer recorded in the first hours of a UTC day lies in the day bucket before. */
  ghost predicate SeesEntry(m: Table, w: int, camera: Bytes, lo: Time, hi: Time) {
    exists id :: id in m && InRange(camera, lo, hi, id) && Seen(id.ns, w, lo, hi)
  }

  /** The day's query and its deletion both succeed. */
  predicate Works(answers: Answers, d: Time) {
    answers.query(d) && answers.commit(d)
  }

  ghost predicate NothingFails(answers: Answers) {
    forall d :: Works(answers, d)
  }

  /** One day of the cleanup, on the table, whatever the writer's offset is. */
  lemma CleanDayRefines(db: DB, m: Table, w: int, camera: Bytes, cutoff: Time, d: Time, answers: Answers)
    requires db.useV2 && TableOf(m, w) && RepV2(db.v2, m) && IsOffset(w) && CutoffOk(cutoff) && IsScanDay(d, cutoff)
    ensures var db', lo := CleanDay(db, camera, cutoff, d, answers), DayStart(d);
            var m' := if SeesEntry(m, w, camera, lo, NextDay(lo)) && Works(answers, d)
                      then ErasedSeen(m, w, camera, lo, cutoff) else m;
            db'.useV2 && TableOf(m', w) && RepV2(db'.v2, m')
  {
    hide RepV2, QueryV2, Seen, DeleteV2, Filter;
    var lo := DayStart(d);
    ScanDay(d, cutoff);
    QueryV2Exact(db.v2, m, w, camera, lo, NextDay(lo));
    ListedSeen(QueryV2(db.v2, camera, lo, NextDay(lo)), m, w, camera, lo, NextDay(lo));
    DeleteV2Exact(db.v2, m, w, camera, lo, cutoff);
  }

  lemma ListedSeen(gops: seq<GOPMeta>, m: Table, w: int, camera: Bytes, lo: Time, hi: Time)
    requires TableOf(m, w)
    requires forall g :: g in gops <==> Entry(m, camera, g) && lo.ns <= g.start.ns <= hi.ns && Seen(g.start.ns, w, lo, hi)
    ensures gops != [] <==> SeesEntry(m, w, camera, lo, hi)
  {
    hide Seen;
    if gops != [] {
      assert gops[0] in gops;
      assert Id(camera, gops[0].start.ns) in m;
    }
    if SeesEntry(m, w, camera, lo, hi) {
      var id :| id in m && InRange(camera, lo, hi, id) && Seen(id.ns, w, lo, hi);
      assert Entry(m, camera, m[id]);
      assert m[id] in gops;
    }
  }

  /** The hours of a UTC day that a western writer files under the day before. */
  predicate InGap(ns: int, w: int) {
    ns % DAY + w < 0
  }

  /** Some of the entries of the camera in [lo, cutoff] are gone, the others are untouched. */
  ghost predicate OnlyRemoves(m: Table, m': Table, camera: Bytes, lo: int, cutoff: int) {
    && (forall id :: id in m' ==> id in m && m'[id] == m[id])
    && (forall id :: id in m && id !in m' ==> id.camera == camera && lo <= id.ns <= cutoff)
  }

  /** The entries of the camera that are left in [lo, hi] are in the gap. */
  ghost predicate LeavesGaps(m: Table, w: int, camera: Bytes, lo: int, hi: int) {
    forall id :: id in m && id.camera == camera && lo <= id.ns <= hi ==> InGap(id.ns, w)
  }

  function Sooner(a: int, b: int): int {
    if a < b then a else b
  }

  /** A scanned day removes only what lies between it and the cutoff; if its deletion is
      completed, what is left of the day lies in the gap. */
  lemma DayLeaves(m: Table, w: int, camera: Bytes, cutoff: Time, d: Time, committed: bool)
    requires IsOffset(w) && IsScanDay(d, cutoff) && IsOffset(cutoff.offset)
    ensures var lo := DayStart(d);
            var m' := if SeesEntry(m, w, camera, lo, NextDay(lo)) && committed
                      then ErasedSeen(m, w, camera, lo, cutoff) else m;
            && OnlyRemoves(m, m', camera, lo.ns, cutoff.ns)
            && (committed ==> LeavesGaps(m', w, camera, lo.ns, Sooner(cutoff.ns, lo.ns + DAY)))
  {
    var lo := DayStart(d);
    ScanDay(d, cutoff);
    forall ns: int | lo.ns <= ns ensures !Seen(ns, w, lo, NextDay(lo)) || !Seen(ns, w, lo, cutoff) ==> InGap(ns, w) {
      UTCSees(ns, w, lo, NextDay(lo));
      UTCSees(ns, w, lo, cutoff);
    }
    hide Seen, InGap;
  }

  lemma UTCSees(ns: int, w: int, lo: Time, hi: Time)
    requires lo.offset == 0
    ensures !Seen(ns, w, lo, hi) ==> InGap(ns, w)
  {
  }

  lemma RemovesTwice(m: Table, m1: Table, m': Table, camera: Bytes, lo: int, next: int, cutoff: int)
    requires OnlyRemoves(m, m1, camera, lo, cutoff) && OnlyRemoves(m1, m', camera, next, cutoff) && lo <= next
    ensures OnlyRemoves(m, m', camera, lo, cutoff)
  {
  }

  /** From a scanned day on, whatever the writer's offset is and whichever deletions fail:
      nothing after the cutoff is removed; if none fails, what is left lies in the gap. */
  lemma {:induction false} CleanDaysSafe(db: DB, m: Table, w: int, camera: Bytes, cutoff: Time, d: Time, answers: Answers)
    returns (m': Table)
    requires db.useV2 && TableOf(m, w) && RepV2(db.v2, m) && IsOffset(w) && CutoffOk(cutoff) && IsScanDay(d, cutoff)
    ensures var db' := CleanDays(db, camera, cutoff, d, answers); db'.useV2 && TableOf(m', w) && RepV2(db'.v2, m')
    ensures OnlyRemoves(m, m', camera, DayStart(d).ns, cutoff.ns)
    ensures NothingFails(answers) ==> LeavesGaps(m', w, camera, DayStart(d).ns, Sooner(cutoff.ns, Midnight(cutoff)))
    decreases cutoff.ns - d.ns
  {
    hide RepV2, CleanDay, TableOf, OnlyRemoves, CutoffOk, ErasedSeen, SeesEntry, LeavesGaps;
    var lo, next := DayStart(d), NextDay(d);
    var db1 := CleanDay(db, camera, cutoff, d, answers);
    var m1 := if SeesEntry(m, w, camera, lo, NextDay(lo)) && Works(answers, d) then ErasedSeen(m, w, camera, lo, cutoff) else m;
    CutoffOffset(cutoff);
    ScanDay(d, cutoff);
    CleanDayRefines(db, m, w, camera, cutoff, d, answers);
    DayLeaves(m, w, camera, cutoff, d, Works(answers, d));
    if next.ns < cutoff.ns {
      m' := CleanDaysSafe(db1, m1, w, camera, cutoff, next, answers);
      RemovesTwice(m, m1, m', camera, lo.ns, lo.ns + DAY, cutoff.ns);
      if NothingFails(answers) {
        GapsJoin(m1, m', w, camera, lo.ns, lo.ns + DAY, cutoff.ns, Midnight(cutoff));
      }
    } else {
      m' := m1;
    }
  }

  lemma CutoffOffset(cutoff: Time)
    requires CutoffOk(cutoff)
    ensures IsOffset(cutoff.offset)
  {
  }

  lemma GapsJoin(m: Table, m': Table, w: int, camera: Bytes, lo: int, next: int, cutoff: int, mid: int)
    requires OnlyRemoves(m, m', camera, next, cutoff)
    requires LeavesGaps(m, w, camera, lo, Sooner(cutoff, next)) && LeavesGaps(m', w, camera, next, Sooner(cutoff, mid))
    ensures LeavesGaps(m', w, camera, lo, Sooner(cutoff, mid))
  {
    hide InGap;
  }

  /** A cleanup with any cutoff, writer and index failures removes only entries of the
      camera from the scanned days up to the cutoff. If no deletion fails, every entry left
      in the scanned days up to the cutoff was filed by a western writer under the day before. */
  lemma CleanupSafe(db: DB, m: Table, w: int, camera: Bytes, cutoff: Time, answers: Answers) returns (m': Table)
    requires db.useV2 && TableOf(m, w) && RepV2(db.v2, m) && IsOffset(w) && CutoffOk(cutoff)
    ensures var db' := CleanDays(db, camera, cutoff, ScanStart(cutoff), answers);
            db'.useV2 && TableOf(m', w) && RepV2(db'.v2, m')
    ensures OnlyRemoves(m, m', camera, Base(cutoff), cutoff.ns)
    ensures NothingFails(answers) ==> LeavesGaps(m', w, camera, Base(cutoff), Sooner(cutoff.ns, Midnight(cutoff)))
  {
    hide RepV2;
    FirstScanDay(cutoff);
    m' := CleanDaysSafe(db, m, w, camera, cutoff, ScanStart(cutoff), answers);
  }

  // ---------------------------------------------------------------------------
  // Exactly what a cleanup erases when nothing fails
  // ---------------------------------------------------------------------------

  /** From a scanned day on: the first day that sees an entry erases what it sees up to the
      cutoff, and that is all. */
  ghost function Cleaned(m: Table, w: int, camera: Bytes, cutoff: Time, d: Time): Table
    decreases cutoff.ns - d.ns
  {
    if d.ns >= cutoff.ns then m
    else if SeesEntry(m, w, camera, DayStart(d), NextDay(DayStart(d))) then ErasedSeen(m, w, camera, DayStart(d), cutoff)
    else Cleaned(m, w, camera, cutoff, NextDay(d))
  }

  /** Without entries of the camera between a day and the cutoff there is nothing to erase. */
  lemma {:induction false} NothingToClean(m: Table, w: int, camera: Bytes, cutoff: Time, d: Time)
    requires IsScanDay(d, cutoff) && IsOffset(cutoff.offset) && !HasEntry(m, camera, DayStart(d).ns, cutoff.ns)
    ensures Cleaned(m, w, camera, cutoff, d) == m
    decreases cutoff.ns - d.ns
  {
    hide Seen;
    ScanDay(d, cutoff);
    assert ErasedSeen(m, w, camera, DayStart(d), cutoff) == m;
    if NextDay(d).ns < cutoff.ns {
      NothingToClean(m, w, camera, cutoff, NextDay(d));
    }
  }

  /** After a day that has erased what it saw, the later days have nothing to erase. */
  lemma LaterDaysIdle(m: Table, w: int, camera: Bytes, cutoff: Time, d: Time)
    requires IsScanDay(d, cutoff) && IsOffset(cutoff.offset) && NextDay(d).ns < cutoff.ns
    ensures var m' := ErasedSeen(m, w, camera, DayStart(d), cutoff); Cleaned(m', w, camera, cutoff, NextDay(d)) == m'
  {
    hide Cleaned, IsScanDay;
    var lo, m' := DayStart(d), ErasedSeen(m, w, camera, DayStart(d), cutoff);
    ScanDay(d, cutoff);
    forall id | id in m && id.camera == camera && lo.ns + DAY <= id.ns <= cutoff.ns ensures id !in m' {
      SeenLater(id.ns, w, lo, cutoff);
    }
    NothingToClean(m', w, camera, cutoff, NextDay(d));
  }

  lemma SeenLater(ns: int, w: int, lo: Time, hi: Time)
    requires lo.offset == 0 && lo.ns % DAY == 0 && lo.ns + DAY <= ns
    ensures Seen(ns, w, lo, hi)
  {
  }

  lemma {:induction false} CleanDaysExact(db: DB, m: Table, w: int, camera: Bytes, cutoff: Time, d: Time, answers: Answers)
    requires db.useV2 && TableOf(m, w) && RepV2(db.v2, m) && IsOffset(w) && CutoffOk(cutoff) && IsScanDay(d, cutoff)
    requires NothingFails(answers)
    ensures var db', m' := CleanDays(db, camera, cutoff, d, answers), Cleaned(m, w, camera, cutoff, d);
            db'.useV2 && TableOf(m', w) && RepV2(db'.v2, m')
    decreases cutoff.ns - d.ns
  {
    hide RepV2, CleanDay, TableOf, CutoffOk, ErasedSeen, SeesEntry;
    assert Works(answers, d);
    CutoffOffset(cutoff);
    ScanDay(d, cutoff);
    CleanDayRefines(db, m, w, camera, cutoff, d, answers);
    var lo := DayStart(d);
    var m1 := if SeesEntry(m, w, camera, lo, NextDay(lo)) then ErasedSeen(m, w, camera, lo, cutoff) else m;
    if NextDay(d).ns < cutoff.ns {
      CleanDaysExact(CleanDay(db, camera, cutoff, d, answers), m1, w, camera, cutoff, NextDay(d), answers);
      if SeesEntry(m, w, camera, lo, NextDay(lo)) {
        LaterDaysIdle(m, w, camera, cutoff, d);
      }
    }
  }

  /** The scan of the UTC day that starts at lo sees an entry of the camera. */
  ghost predicate DaySees(m: Table, w: int, camera: Bytes, lo: int) {
    lo % DAY == 0 && SeesEntry(m, w, camera, Time(lo, 0), Time(lo + DAY, 0))
  }

  /** A scanned day before the one of the instant sees an entry. */
  ghost predicate SeenBefore(m: Table, w: int, camera: Bytes, from: int, cutoff: Time, ns: int) {
    exists lo :: DaySees(m, w, camera, lo) && from <= lo < ns / DAY * DAY && lo + DAY <= Midnight(cutoff)
  }

  /** Whether an entry between a scanned day and the cutoff is left. */
  lemma {:induction false} EntryLeft(m: Table, w: int, camera: Bytes, cutoff: Time, d: Time, id: Id)
    requires IsOffset(w) && IsScanDay(d, cutoff) && IsOffset(cutoff.offset)
    requires id in m && id.camera == camera && DayStart(d).ns <= id.ns <= cutoff.ns
    ensures id in Cleaned(m, w, camera, cutoff, d)
       <==> !SeenBefore(m, w, camera, DayStart(d).ns, cutoff, id.ns) && (InGap(id.ns, w) || Midnight(cutoff) <= id.ns)
    decreases cutoff.ns - d.ns
  {
    hide SeesEntry, Cleaned;
    var lo := DayStart(d);
    ScanDay(d, cutoff);
    CleanedStep(m, w, camera, cutoff, d);
    DayOf(id.ns, lo.ns);
    if SeesEntry(m, w, camera, lo, NextDay(lo)) {
      assert DaySees(m, w, camera, lo.ns);
      SeenFrom(id.ns, w, lo, cutoff);
    } else if id.ns < lo.ns + DAY {
      SeesItself(m, w, camera, lo, id);
      CleanedAfter(m, w, camera, cutoff, NextDay(d), id);
    } else {
      SeenBeforeStep(m, w, camera, lo.ns, cutoff, id.ns);
      if NextDay(d).ns < cutoff.ns {
        EntryLeft(m, w, camera, cutoff, NextDay(d), id);
      } else {
        assert Cleaned(m, w, camera, cutoff, NextDay(d)) == m by {
          CleanedEnd(m, w, camera, cutoff, NextDay(d));
        }
      }
    }
  }

  lemma CleanedStep(m: Table, w: int, camera: Bytes, cutoff: Time, d: Time)
    requires d.ns < cutoff.ns
    ensures Cleaned(m, w, camera, cutoff, d)
         == if SeesEntry(m, w, camera, DayStart(d), NextDay(DayStart(d))) then ErasedSeen(m, w, camera, DayStart(d), cutoff)
            else Cleaned(m, w, camera, cutoff, NextDay(d))
  {
    hide SeesEntry, ErasedSeen;
  }

  lemma CleanedEnd(m: Table, w: int, camera: Bytes, cutoff: Time, d: Time)
    requires d.ns >= cutoff.ns
    ensures Cleaned(m, w, camera, cutoff, d) == m
  {
  }

  lemma DayOf(ns: int, lo: int)
    requires lo % DAY == 0 && lo <= ns
    ensures lo <= ns / DAY * DAY && (ns < lo + DAY <==> ns / DAY * DAY == lo)
  {
    ghost var q := ns / DAY - lo / DAY;
    assert ns / DAY * DAY == lo + q * DAY;
  }

  /** From day start lo on, what is not seen lies in the gap of that very day. */
  lemma SeenFrom(ns: int, w: int, lo: Time, hi: Time)
    requires lo.offset == 0 && lo.ns % DAY == 0 && lo.ns <= ns && IsOffset(w)
    ensures Seen(ns, w, lo, hi) <==> !(ns < lo.ns + DAY && InGap(ns, w))
  {
  }

  lemma SeesItself(m: Table, w: int, camera: Bytes, lo: Time, id: Id)
    requires lo.offset == 0 && lo.ns % DAY == 0 && IsOffset(w)
    requires id in m && id.camera == camera && lo.ns <= id.ns < lo.ns + DAY && !SeesEntry(m, w, camera, lo, NextDay(lo))
    ensures InGap(id.ns, w)
  {
    hide Seen, InGap;
    SeenFrom(id.ns, w, lo, NextDay(lo));
  }

  /** Later days leave earlier entries. */
  lemma {:induction false} CleanedAfter(m: Table, w: int, camera: Bytes, cutoff: Time, d: Time, id: Id)
    requires id in m && id.ns < DayStart(d).ns
    ensures id in Cleaned(m, w, camera, cutoff, d)
    decreases cutoff.ns - d.ns
  {
    hide Seen, SeesEntry;
    if d.ns < cutoff.ns {
      CleanedAfter(m, w, camera, cutoff, NextDay(d), id);
    }
  }

  lemma SeenBeforeStep(m: Table, w: int, camera: Bytes, from: int, cutoff: Time, ns: int)
    requires from % DAY == 0 && !SeesEntry(m, w, camera, Time(from, 0), Time(from + DAY, 0))
    ensures SeenBefore(m, w, camera, from, cutoff, ns) <==> SeenBefore(m, w, camera, from + DAY, cutoff, ns)
  {
    hide SeesEntry;
    if SeenBefore(m, w, camera, from, cutoff, ns) {
      var lo :| DaySees(m, w, camera, lo) && from <= lo < ns / DAY * DAY && lo + DAY <= Midnight(cutoff);
      DayOf(lo, from);
      assert lo != from;
    }
  }

  /** When nothing fails, for every cutoff zone and writer offset: a cleanup leaves the table
      `Cleaned`, in which an entry of the camera between the first scanned day and the cutoff
      is left if and only if no scanned day before its own sees an entry and it lies in the
      hours filed under the day before, or in the cutoff's own date, which is not scanned. */
  lemma CleanupExact(db: DB, m: Table, w: int, camera: Bytes, cutoff: Time, answers: Answers)
    requires db.useV2 && TableOf(m, w) && RepV2(db.v2, m) && IsOffset(w) && CutoffOk(cutoff) && NothingFails(answers)
    ensures var db', m' := CleanDays(db, camera, cutoff, ScanStart(cutoff), answers),
                           Cleaned(m, w, camera, cutoff, ScanStart(cutoff));
            && db'.useV2 && TableOf(m', w) && RepV2(db'.v2, m')
            && (forall id :: id in m' ==> id in m && m'[id] == m[id])
            && (forall id :: id in m && !(id.camera == camera && Base(cutoff) <= id.ns <= cutoff.ns) ==> id in m')
            && (forall id :: id in m && id.camera == camera && Base(cutoff) <= id.ns <= cutoff.ns ==>
                  (id in m' <==> !SeenBefore(m, w, camera, Base(cutoff), cutoff, id.ns)
                                 && (InGap(id.ns, w) || Midnight(cutoff) <= id.ns)))
  {
    hide RepV2, Cleaned, SeenBefore, InGap;
    CutoffOffset(cutoff);
    FirstScanDay(cutoff);
    CleanDaysExact(db, m, w, camera, cutoff, ScanStart(cutoff), answers);
    CleanedOnly(m, w, camera, cutoff, ScanStart(cutoff));
    forall id | id in m && id.camera == camera && Base(cutoff) <= id.ns <= cutoff.ns
      ensures id in Cleaned(m, w, camera, cutoff, ScanStart(cutoff))
         <==> !SeenBefore(m, w, camera, Base(cutoff), cutoff, id.ns) && (InGap(id.ns, w) || Midnight(cutoff) <= id.ns)
    {
      EntryLeft(m, w, camera, cutoff, ScanStart(cutoff), id);
    }
  }

  lemma {:induction false} CleanedOnly(m: Table, w: int, camera: Bytes, cutoff: Time, d: Time)
    requires IsScanDay(d, cutoff) && IsOffset(cutoff.offset)
    ensures OnlyRemoves(m, Cleaned(m, w, camera, cutoff, d), camera, DayStart(d).ns, cutoff.ns)
    decreases cutoff.ns - d.ns
  {
    hide Seen, SeesEntry;
    ScanDay(d, cutoff);
    if NextDay(d).ns < cutoff.ns {
      CleanedOnly(m, w, camera, cutoff, NextDay(d));
    }
  }

  /** With any writer west of UTC a cleanup can leave an entry: one at the start of the first
      scanned day survives although nothing fails. */
  lemma WesternEntryLeft(w: int, camera: Bytes, cutoff: Time, g: GOPMeta, answers: Answers)
    requires IsOffset(w) && w < 0 && CutoffOk(cutoff) && NothingFails(answers) && camera != []
    requires g.start == Time(Base(cutoff), w)
    ensures var db := WriteOne(EMPTY, camera, g);
            RepV2(CleanDays(db, camera, cutoff, ScanStart(cutoff), answers).v2, map[Id(camera, Base(cutoff)) := g])
  {
    hide RepV2, Cleaned, PutV2, Put, SeenBefore, CleanDays, Midnight;
    var m: Table := map[Id(camera, Base(cutoff)) := g];
    EmptyRefines(w);
    PutV2Refines(map[], map[], w, camera, g);
    assert map[][Id(camera, Base(cutoff)) := g] == m;
    CleanupExact(WriteOne(EMPTY, camera, g), m, w, camera, cutoff, answers);
    CutoffOffset(cutoff);
    BaseIsMidnight(cutoff);
    NoneBefore(m, w, camera, cutoff);
    var m' := Cleaned(m, w, camera, cutoff, ScanStart(cutoff));
    assert Id(camera, Base(cutoff)) in m';
    assert m' == m;
  }

  lemma BaseIsMidnight(cutoff: Time)
    ensures Base(cutoff) % DAY == 0
    ensures IsOffset(cutoff.offset) ==> Base(cutoff) <= cutoff.ns
  {
  }

  lemma NoneBefore(m: Table, w: int, camera: Bytes, cutoff: Time)
    ensures !SeenBefore(m, w, camera, Base(cutoff), cutoff, Base(cutoff))
  {
    BaseIsMidnight(cutoff);
    hide DaySees;
  }

  /** A writer that is not west of UTC leaves no gaps: a cleanup then amounts to one deletion
      from the cutoff's date less thirty days through to the cutoff, made exactly when the
      camera has an entry in the scanned days. */
  lemma EasternCleanup(db: DB, m: Table, w: int, camera: Bytes, cutoff: Time, answers: Answers)
    requires db.useV2 && TableOf(m, w) && RepV2(db.v2, m) && IsOffset(w) && CutoffOk(cutoff) && NothingFails(answers)
    requires 0 <= w
    ensures var db' := CleanDays(db, camera, cutoff, ScanStart(cutoff), answers);
            var m' := if HasEntry(m, camera, Base(cutoff), Midnight(cutoff))
                      then Erased(m, camera, Time(Base(cutoff), 0), cutoff) else m;
            && db'.useV2 && TableOf(m', w) && RepV2(db'.v2, m')
            && (forall id :: id in m && id !in m' ==> id.camera == camera && Base(cutoff) <= id.ns <= cutoff.ns)
            && !HasEntry(m', camera, Base(cutoff), Sooner(cutoff.ns, Midnight(cutoff)))
  {
    hide RepV2, Cleaned, SeesEntry;
    CutoffOffset(cutoff);
    FirstScanDay(cutoff);
    CleanDaysExact(db, m, w, camera, cutoff, ScanStart(cutoff), answers);
    EasternCleaned(m, w, camera, cutoff, ScanStart(cutoff));
  }

  /** Then a scanned day sees all its entries and its deletion erases the whole range. */
  lemma EasternDay(m: Table, w: int, camera: Bytes, cutoff: Time, lo: Time)
    requires 0 <= w && lo.offset == 0
    ensures SeesEntry(m, w, camera, lo, NextDay(lo)) <==> HasEntry(m, camera, lo.ns, lo.ns + DAY)
    ensures ErasedSeen(m, w, camera, lo, cutoff) == Erased(m, camera, lo, cutoff)
  {
    forall ns, hi ensures Seen(ns, w, lo, hi) {
    }
    hide Seen;
    if HasEntry(m, camera, lo.ns, lo.ns + DAY) {
      var id :| id in m && id.camera == camera && lo.ns <= id.ns <= lo.ns + DAY;
      assert InRange(camera, lo, NextDay(lo), id) && Seen(id.ns, w, lo, NextDay(lo));
    }
  }

  lemma {:induction false} EasternCleaned(m: Table, w: int, camera: Bytes, cutoff: Time, d: Time)
    requires 0 <= w && IsScanDay(d, cutoff) && IsOffset(cutoff.offset)
    ensures Cleaned(m, w, camera, cutoff, d)
         == if HasEntry(m, camera, DayStart(d).ns, Midnight(cutoff)) then Erased(m, camera, DayStart(d), cutoff) else m
    decreases cutoff.ns - d.ns
  {
    hide SeesEntry, ErasedSeen, Erased, HasEntry, Cleaned;
    ScanDay(d, cutoff);
    var lo, mid := DayStart(d), Midnight(cutoff);
    CleanedStep(m, w, camera, cutoff, d);
    EasternDay(m, w, camera, cutoff, lo);
    LaterDays(m, camera, cutoff, lo, Time(lo.ns + DAY, 0), mid);
    if NextDay(d).ns < cutoff.ns {
      EasternCleaned(m, w, camera, cutoff, NextDay(d));
    } else {
      CleanedEnd(m, w, camera, cutoff, NextDay(d));
    }
  }

  /** A day with entries decides; a day without entries does not matter. */
  lemma LaterDays(m: Table, camera: Bytes, cutoff: Time, lo: Time, next: Time, mid: int)
    requires next.ns == lo.ns + DAY && next.ns <= mid
    ensures HasEntry(m, camera, lo.ns, next.ns) ==> HasEntry(m, camera, lo.ns, mid)
    ensures !HasEntry(m, camera, lo.ns, next.ns) ==>
              && (HasEntry(m, camera, next.ns, mid) <==> HasEntry(m, camera, lo.ns, mid))
              && Erased(m, camera, next, cutoff) == Erased(m, camera, lo, cutoff)
  {
  }

  // ---------------------------------------------------------------------------
  // Which objects go
  // ---------------------------------------------------------------------------

  lemma {:induction false} ExpiredExactly(gops: seq<GOPMeta>, cutoff: Time)
    ensures forall g :: g in Expired(gops, cutoff) <==> g in gops && g.end.ns <= cutoff.ns
  {
    if gops != [] {
      ExpiredExactly(gops[..|gops| - 1], cutoff);
      assert gops == gops[..|gops| - 1] + [gops[|gops| - 1]];
    }
  }

  /** A value in one of the camera's day buckets. */
  ghost predicate StoredIn(days: CameraBucket, g: GOPMeta) {
    exists l :: l in days && Holds(days[l], g)
  }

  /** A query returns only stored values. */
  lemma {:induction false} QueriedStored(days: CameraBucket, camera: Bytes, start: Time, end: Time, d: Time)
    ensures forall g :: g in QueryDays(days, camera, start, end, d) ==> StoredIn(days, g)
    decreases end.ns + 2 * DAY - d.ns
  {
    hide Filter, SelectV2, Holds;
    if d.ns <= NextDay(TruncateDay(end)).ns {
      QueriedStored(days, camera, start, end, NextDay(d));
      var b, p := BucketOf(days, DayLabel(d)), SelectV2(camera, start, end);
      DaySlice(b, p, start, end);
      forall g | g in MetasV2(Filter(b, p), start, end) ensures StoredIn(days, g) {
        NothingHeld(g);
      }
    }
  }

  lemma NothingHeld(g: GOPMeta)
    ensures !Holds([], g)
  {
  }

  lemma DaySlice(b: Bucket, p: Pair -> bool, start: Time, end: Time)
    ensures forall g :: g in MetasV2(Filter(b, p), start, end) ==> Holds(b, g)
  {
    FilterMembers(b, p);
    ValuesMembers(Filter(b, p), start, end);
  }

  /** A deletion stores nothing new. */
  lemma {:induction false} DeletedStored(days: CameraBucket, camera: Bytes, start: Time, end: Time, d: Time)
    ensures forall g :: StoredIn(DeleteDays(days, camera, start, end, d), g) ==> StoredIn(days, g)
    decreases end.ns + 2 * DAY - d.ns
  {
    hide StoredIn, DeleteDay;
    if d.ns <= NextDay(TruncateDay(end)).ns {
      DeletedDayStored(days, camera, start, end, DayLabel(d));
      DeletedStored(DeleteDay(days, camera, start, end, DayLabel(d)), camera, start, end, NextDay(d));
    }
  }

  lemma DeletedDayStored(days: CameraBucket, camera: Bytes, start: Time, end: Time, day: int)
    ensures forall g :: StoredIn(DeleteDay(days, camera, start, end, day), g) ==> StoredIn(days, g)
  {
    hide Filter, SelectV2;
    if day in days {
      FilterMembers(days[day], Unselected(SelectV2(camera, start, end)));
    }
  }

  lemma CleanedStored(db: DB, camera: Bytes, cutoff: Time, d: Time, answers: Answers)
    requires db.useV2
    ensures var db' := CleanDay(db, camera, cutoff, d, answers);
            db'.useV2 && forall g :: StoredIn(DaysOf(db'.v2, camera), g) ==> StoredIn(DaysOf(db.v2, camera), g)
  {
    hide StoredIn, Query, DeleteDays, Filter;
    DeletedStored(DaysOf(db.v2, camera), camera, DayStart(d), cutoff, TruncateDay(DayStart(d)));
  }

  /** Only objects of stored entries that ended by the cutoff are deleted. */
  lemma {:induction false} ExpiredWereStored(db: DB, camera: Bytes, cutoff: Time, d: Time, answers: Answers)
    requires db.useV2
    ensures forall g :: g in ExpiredGOPs(db, camera, cutoff, d, answers) ==>
              StoredIn(DaysOf(db.v2, camera), g) && g.end.ns <= cutoff.ns
    decreases cutoff.ns - d.ns
  {
    hide StoredIn, CleanDay, QueryDays, Expired;
    if d.ns < cutoff.ns {
      var lo := DayStart(d);
      QueriedStored(DaysOf(db.v2, camera), camera, lo, NextDay(lo), TruncateDay(lo));
      ExpiredExactly(Found(db, camera, d, answers), cutoff);
      CleanedStored(db, camera, cutoff, d, answers);
      ExpiredWereStored(CleanDay(db, camera, cutoff, d, answers), camera, cutoff, NextDay(d), answers);
    }
  }

  lemma StoredEntry(v2: map<Bytes, CameraBucket>, m: Table, camera: Bytes, g: GOPMeta)
    requires RepV2(v2, m) && StoredIn(DaysOf(v2, camera), g)
    ensures Entry(m, camera, g)
  {
    var l :| l in DaysOf(v2, camera) && Holds(DaysOf(v2, camera)[l], g);
    var e :| e in DaysOf(v2, camera)[l] && e.value == Json(g);
    assert e in BucketOf(DaysOf(v2, camera), l);
  }

  /** Fragments have their own keys, and no init segment has one of them. */
  ghost predicate KeysSeparate(m: Table) {
    && (forall a, b :: a in m && b in m && m[a].objectKey == m[b].objectKey ==> a == b)
    && (forall a, b :: a in m && b in m ==> m[a].objectKey != m[b].initKey)
  }

  lemma {:induction false} InitKeysMembers(gops: seq<GOPMeta>, deletable: Bytes -> bool)
    ensures forall k :: k in InitKeys(gops, deletable) ==> exists g :: g in gops && g.initKey == k
  {
    if gops != [] {
      var n := |gops| - 1;
      InitKeysMembers(gops[..n], deletable);
      assert gops[n] in gops && forall g :: g in gops[..n] ==> g in gops;
    }
  }

  /** No fragment of a GOP that ends after the cutoff is deleted, whatever the zones are and
      whichever index deletions fail. */
  lemma LiveFragmentsKept(db: DB, m: Table, camera: Bytes, cutoff: Time, deletable: Bytes -> bool,
                          answers: Answers, id: Id)
    requires db.useV2 && RepV2(db.v2, m) && KeysSeparate(m) && id in m && m[id].end.ns > cutoff.ns
    ensures var gops := ExpiredGOPs(db, camera, cutoff, ScanStart(cutoff), answers);
            m[id].objectKey !in FragmentKeys(gops) && m[id].objectKey !in InitKeys(gops, deletable)
  {
    hide RepV2, ExpiredGOPs, StoredIn;
    var gops := ExpiredGOPs(db, camera, cutoff, ScanStart(cutoff), answers);
    ExpiredWereStored(db, camera, cutoff, ScanStart(cutoff), answers);
    InitKeysMembers(gops, deletable);
    forall g | g in gops ensures g.initKey != m[id].objectKey && g.objectKey != m[id].objectKey {
      StoredEntry(db.v2, m, camera, g);
      assert Id(camera, g.start.ns) in m;
    }
    forall i | 0 <= i < |gops| ensures FragmentKeys(gops)[i] != m[id].objectKey {
      assert gops[i] in gops;
    }
  }

  // ---------------------------------------------------------------------------
  // Which expired objects go
  // ---------------------------------------------------------------------------

  /** The scan of the UTC day that starts at lo sees an entry of this instant. */
  predicate SeesAt(ns: int, w: int, lo: int) {
    lo <= ns <= lo + DAY && Seen(ns, w, Time(lo, 0), Time(lo + DAY, 0))
  }

  /** The metadata is an entry that the scan of the day sees and that ended by the cutoff. */
  predicate ExpiredOn(m: Table, w: int, camera: Bytes, lo: int, cutoff: Time, g: GOPMeta) {
    Entry(m, camera, g) && SeesAt(g.start.ns, w, lo) && g.end.ns <= cutoff.ns
  }

  /** On a day whose query succeeds the cleaner takes up exactly the entries of the table, as it
      is then, that the scan sees and that ended by the cutoff; otherwise none. */
  lemma DayTakesUp(db: DB, m: Table, w: int, camera: Bytes, cutoff: Time, d: Time, answers: Answers)
    requires db.useV2 && TableOf(m, w) && RepV2(db.v2, m) && IsOffset(w) && CutoffOk(cutoff) && IsScanDay(d, cutoff)
    ensures forall g :: g in Expired(Found(db, camera, d, answers), cutoff) <==>
              answers.query(d) && ExpiredOn(m, w, camera, DayStart(d).ns, cutoff, g)
  {
    hide RepV2, QueryV2, Seen, Expired;
    var lo := DayStart(d);
    ScanDay(d, cutoff);
    QueryV2Exact(db.v2, m, w, camera, lo, NextDay(lo));
    ExpiredExactly(Found(db, camera, d, answers), cutoff);
  }

  /** The table after a scanned day. */
  ghost function DayTable(m: Table, w: int, camera: Bytes, cutoff: Time, d: Time, answers: Answers): Table {
    if SeesEntry(m, w, camera, DayStart(d), NextDay(DayStart(d))) && Works(answers, d)
    then ErasedSeen(m, w, camera, DayStart(d), cutoff) else m
  }

  /** The table when the scan has come n days further. */
  ghost function TableAt(m: Table, w: int, camera: Bytes, cutoff: Time, d: Time, n: nat, answers: Answers): Table
    decreases n
  {
    if n == 0 then m
    else TableAt(DayTable(m, w, camera, cutoff, d, answers), w, camera, cutoff, NextDay(d), n - 1, answers)
  }

  /** The metadata is taken up on the n-th day from d. */
  ghost predicate TakenUp(m: Table, w: int, camera: Bytes, cutoff: Time, d: Time, n: nat, answers: Answers, g: GOPMeta) {
    var e := d.(ns := d.ns + n * DAY);
    e.ns < cutoff.ns && answers.query(e)
    && ExpiredOn(TableAt(m, w, camera, cutoff, d, n, answers), w, camera, DayStart(d).ns + n * DAY, cutoff, g)
  }

  lemma TakenUpStep(m: Table, w: int, camera: Bytes, cutoff: Time, d: Time, answers: Answers, g: GOPMeta)
    requires d.ns < cutoff.ns
    ensures (exists n: nat :: TakenUp(m, w, camera, cutoff, d, n, answers, g)) <==>
              || (answers.query(d) && ExpiredOn(m, w, camera, DayStart(d).ns, cutoff, g))
              || exists n: nat :: TakenUp(DayTable(m, w, camera, cutoff, d, answers), w, camera, cutoff, NextDay(d), n, answers, g)
  {
    hide ExpiredOn, DayTable;
    var m1 := DayTable(m, w, camera, cutoff, d, answers);
    assert d.(ns := d.ns + 0 * DAY) == d;
    assert DayStart(NextDay(d)).ns == DayStart(d).ns + DAY;
    forall n: nat | n > 0
      ensures TakenUp(m, w, camera, cutoff, d, n, answers, g) <==> TakenUp(m1, w, camera, cutoff, NextDay(d), n - 1, answers, g)
    {
      assert NextDay(d).ns + (n - 1) * DAY == d.ns + n * DAY;
      assert DayStart(NextDay(d)).ns + (n - 1) * DAY == DayStart(d).ns + n * DAY;
    }
    assert TakenUp(m, w, camera, cutoff, d, 0, answers, g) <==>
        answers.query(d) && ExpiredOn(m, w, camera, DayStart(d).ns, cutoff, g);
    if n: nat :| TakenUp(m, w, camera, cutoff, d, n, answers, g) {
      if n > 0 {
        assert TakenUp(m1, w, camera, cutoff, NextDay(d), n - 1, answers, g);
      }
    }
    if n: nat :| TakenUp(m1, w, camera, cutoff, NextDay(d), n, answers, g) {
      assert TakenUp(m, w, camera, cutoff, d, n + 1, answers, g);
    }
  }

  /** Over a cleanup, whatever fails: the GOPs whose objects are deleted are those taken up on
      one of its days. */
  lemma {:induction false} ExpiredTakenUp(db: DB, m: Table, w: int, camera: Bytes, cutoff: Time, d: Time, answers: Answers)
    requires db.useV2 && TableOf(m, w) && RepV2(db.v2, m) && IsOffset(w) && CutoffOk(cutoff) && IsScanDay(d, cutoff)
    ensures forall g :: g in ExpiredGOPs(db, camera, cutoff, d, answers) <==>
              exists n: nat :: TakenUp(m, w, camera, cutoff, d, n, answers, g)
    decreases cutoff.ns - d.ns
  {
    hide RepV2, CleanDay, TableOf, CutoffOk, DayTable, ExpiredOn, Expired, Found, TakenUp;
    CutoffOffset(cutoff);
    ScanDay(d, cutoff);
    DayTakesUp(db, m, w, camera, cutoff, d, answers);
    CleanedDayTable(db, m, w, camera, cutoff, d, answers);
    CleanStep(db, camera, cutoff, d, answers);
    var db1, m1 := CleanDay(db, camera, cutoff, d, answers), DayTable(m, w, camera, cutoff, d, answers);
    if NextDay(d).ns < cutoff.ns {
      ExpiredTakenUp(db1, m1, w, camera, cutoff, NextDay(d), answers);
    } else {
      NoneTakenUp(m1, w, camera, cutoff, NextDay(d), answers);
    }
    forall g ensures g in ExpiredGOPs(db, camera, cutoff, d, answers) <==>
        exists n: nat :: TakenUp(m, w, camera, cutoff, d, n, answers, g)
    {
      TakenUpStep(m, w, camera, cutoff, d, answers, g);
    }
  }

  lemma CleanedDayTable(db: DB, m: Table, w: int, camera: Bytes, cutoff: Time, d: Time, answers: Answers)
    requires db.useV2 && TableOf(m, w) && RepV2(db.v2, m) && IsOffset(w) && CutoffOk(cutoff) && IsScanDay(d, cutoff)
    ensures var db', m' := CleanDay(db, camera, cutoff, d, answers), DayTable(m, w, camera, cutoff, d, answers);
            db'.useV2 && TableOf(m', w) && RepV2(db'.v2, m')
  {
    hide RepV2, CleanDay, SeesEntry, ErasedSeen;
    CleanDayRefines(db, m, w, camera, cutoff, d, answers);
  }

  lemma NoneTakenUp(m: Table, w: int, camera: Bytes, cutoff: Time, d: Time, answers: Answers)
    requires d.ns >= cutoff.ns
    ensures forall g, n: nat :: !TakenUp(m, w, camera, cutoff, d, n, answers, g)
  {
    hide ExpiredOn, TableAt;
  }

  lemma FragmentKeysMembers(gops: seq<GOPMeta>)
    ensures forall k :: k in FragmentKeys(gops) <==> exists g :: g in gops && g.objectKey == k
  {
    forall k ensures k in FragmentKeys(gops) <==> exists g :: g in gops && g.objectKey == k {
      if k in FragmentKeys(gops) {
        var i :| 0 <= i < |gops| && FragmentKeys(gops)[i] == k;
        assert gops[i] in gops;
      }
      if g :| g in gops && g.objectKey == k {
        var i :| 0 <= i < |gops| && gops[i] == g;
        assert FragmentKeys(gops)[i] == k;
      }
    }
  }

  lemma {:induction false} InitKeysExactly(gops: seq<GOPMeta>, deletable: Bytes -> bool)
    ensures forall k :: k in InitKeys(gops, deletable) <==>
              k != [] && exists g :: g in gops && deletable(g.objectKey) && g.initKey == k
  {
    if gops != [] {
      var n := |gops| - 1;
      InitKeysExactly(gops[..n], deletable);
      assert gops == gops[..n] + [gops[n]];
    }
  }

  /** Whatever fails, the keys handed to the storage are exactly the fragment keys of the entries
      taken up on some day, and the init keys of those whose fragment could be deleted. */
  lemma DeletedExactly(db: DB, m: Table, w: int, camera: Bytes, cutoff: Time, deletable: Bytes -> bool, answers: Answers)
    requires db.useV2 && TableOf(m, w) && RepV2(db.v2, m) && IsOffset(w) && CutoffOk(cutoff)
    ensures var gops, first := ExpiredGOPs(db, camera, cutoff, ScanStart(cutoff), answers), ScanStart(cutoff);
            && (forall k :: k in FragmentKeys(gops) <==>
                  exists n: nat, g :: TakenUp(m, w, camera, cutoff, first, n, answers, g) && g.objectKey == k)
            && (forall k :: k in InitKeys(gops, deletable) <==>
                  k != [] && exists n: nat, g :: TakenUp(m, w, camera, cutoff, first, n, answers, g)
                                                 && deletable(g.objectKey) && g.initKey == k)
  {
    hide RepV2, TakenUp, ExpiredGOPs, FragmentKeys, InitKeys;
    FirstScanDay(cutoff);
    var gops := ExpiredGOPs(db, camera, cutoff, ScanStart(cutoff), answers);
    ExpiredTakenUp(db, m, w, camera, cutoff, ScanStart(cutoff), answers);
    FragmentKeysMembers(gops);
    InitKeysExactly(gops, deletable);
  }

  /** A scanned day from `from` on that sees the instant, with no day from there before it that
      sees an entry unless the instant is after the cutoff. */
  ghost predicate FirstToSee(m: Table, w: int, camera: Bytes, from: int, cutoff: Time, ns: int, lo: int) {
    && from <= lo && lo % DAY == 0 && lo + DAY <= Midnight(cutoff) && SeesAt(ns, w, lo)
    && (cutoff.ns < ns || forall other :: from <= other < lo ==> !DaySees(m, w, camera, other))
  }

  ghost predicate SomeFirst(m: Table, w: int, camera: Bytes, from: int, cutoff: Time, ns: int) {
    exists lo :: FirstToSee(m, w, camera, from, cutoff, ns, lo)
  }

  /** One day of a scan in which nothing fails. */
  lemma ExpiredDay(db: DB, m: Table, w: int, camera: Bytes, cutoff: Time, d: Time, answers: Answers, g: GOPMeta)
    requires db.useV2 && TableOf(m, w) && RepV2(db.v2, m) && IsOffset(w) && CutoffOk(cutoff) && IsScanDay(d, cutoff)
    requires NothingFails(answers)
    ensures var db1, m1 := CleanDay(db, camera, cutoff, d, answers), DayTable(m, w, camera, cutoff, d, answers);
            && db1.useV2 && TableOf(m1, w) && RepV2(db1.v2, m1)
            && m1 == (if SeesEntry(m, w, camera, DayStart(d), NextDay(DayStart(d))) then ErasedSeen(m, w, camera, DayStart(d), cutoff) else m)
            && (g in ExpiredGOPs(db, camera, cutoff, d, answers) <==>
                  || (Entry(m, camera, g) && SeesAt(g.start.ns, w, DayStart(d).ns) && g.end.ns <= cutoff.ns)
                  || g in ExpiredGOPs(db1, camera, cutoff, NextDay(d), answers))
  {
    hide RepV2, CleanDay, TableOf, CutoffOk, ErasedSeen, SeesEntry, Expired, Found, SeesAt, Entry, ExpiredGOPs;
    assert Works(answers, d);
    CutoffOffset(cutoff);
    DayTakesUp(db, m, w, camera, cutoff, d, answers);
    CleanedDayTable(db, m, w, camera, cutoff, d, answers);
    CleanStep(db, camera, cutoff, d, answers);
  }

  /** When nothing fails, from a scanned day on: the objects deleted are those of the expired
      entries that the first day that sees any entry sees, and of none later, except entries
      that claim to end by the cutoff but start after it. */
  lemma {:induction false} ExpiredExact(db: DB, m: Table, w: int, camera: Bytes, cutoff: Time, d: Time, answers: Answers, g: GOPMeta)
    requires db.useV2 && TableOf(m, w) && RepV2(db.v2, m) && IsOffset(w) && CutoffOk(cutoff) && IsScanDay(d, cutoff)
    requires NothingFails(answers)
    ensures g in ExpiredGOPs(db, camera, cutoff, d, answers) <==>
              Entry(m, camera, g) && g.end.ns <= cutoff.ns
              && SomeFirst(m, w, camera, DayStart(d).ns, cutoff, g.start.ns)
    decreases cutoff.ns - d.ns
  {
    hide RepV2, CleanDay, TableOf, CutoffOk, ErasedSeen, SeesEntry, SeesAt, SomeFirst, Entry, ExpiredGOPs, DayTable, NothingFails;
    var lo0 := DayStart(d).ns;
    CutoffOffset(cutoff);
    ScanDay(d, cutoff);
    ExpiredDay(db, m, w, camera, cutoff, d, answers, g);
    var db1, m1 := CleanDay(db, camera, cutoff, d, answers), DayTable(m, w, camera, cutoff, d, answers);
    FirstStep(m, w, camera, cutoff, lo0, g);
    if NextDay(d).ns < cutoff.ns {
      ExpiredExact(db1, m1, w, camera, cutoff, NextDay(d), answers, g);
    } else {
      CleanDone(db1, camera, cutoff, NextDay(d), answers);
      NoLaterDay(m1, w, camera, cutoff, lo0 + DAY, g.start.ns);
    }
  }

  lemma NoLaterDay(m: Table, w: int, camera: Bytes, cutoff: Time, from: int, ns: int)
    requires from == Midnight(cutoff)
    ensures !SomeFirst(m, w, camera, from, cutoff, ns)
  {
    hide SeesAt, DaySees;
  }

  /** The day at lo0 either sees an entry, and then takes up what it sees and leaves for later
      days only what is after the cutoff, or it sees none. */
  lemma FirstStep(m: Table, w: int, camera: Bytes, cutoff: Time, lo0: int, g: GOPMeta)
    requires lo0 % DAY == 0 && lo0 + DAY <= Midnight(cutoff) && lo0 < cutoff.ns && IsOffset(w)
    ensures var sees := SeesEntry(m, w, camera, Time(lo0, 0), Time(lo0 + DAY, 0));
            var m1 := if sees then ErasedSeen(m, w, camera, Time(lo0, 0), cutoff) else m;
            && (Entry(m, camera, g) && SomeFirst(m, w, camera, lo0, cutoff, g.start.ns) <==>
                  || (Entry(m, camera, g) && SeesAt(g.start.ns, w, lo0))
                  || (Entry(m1, camera, g) && SomeFirst(m1, w, camera, lo0 + DAY, cutoff, g.start.ns)))
  {
    hide SeesEntry, SeesAt, Seen;
    var ns, sees := g.start.ns, SeesEntry(m, w, camera, Time(lo0, 0), Time(lo0 + DAY, 0));
    assert DaySees(m, w, camera, lo0) <==> sees;
    if Entry(m, camera, g) && SeesAt(ns, w, lo0) {
      assert FirstToSee(m, w, camera, lo0, cutoff, ns, lo0);
    }
    if sees {
      SeenDayStep(m, w, camera, cutoff, lo0, g);
    } else {
      BlindDayStep(m, w, camera, cutoff, lo0, g);
    }
  }

  lemma SeenDayStep(m: Table, w: int, camera: Bytes, cutoff: Time, lo0: int, g: GOPMeta)
    requires lo0 % DAY == 0 && DaySees(m, w, camera, lo0) && lo0 < cutoff.ns
    ensures var ns, m1 := g.start.ns, ErasedSeen(m, w, camera, Time(lo0, 0), cutoff);
            && (Entry(m, camera, g) && !SeesAt(ns, w, lo0) && SomeFirst(m, w, camera, lo0, cutoff, ns) ==>
                  Entry(m1, camera, g) && SomeFirst(m1, w, camera, lo0 + DAY, cutoff, ns))
            && (Entry(m1, camera, g) && SomeFirst(m1, w, camera, lo0 + DAY, cutoff, ns) ==>
                  Entry(m, camera, g) && SomeFirst(m, w, camera, lo0, cutoff, ns))
  {
    hide DaySees, Seen;
    var ns, m1 := g.start.ns, ErasedSeen(m, w, camera, Time(lo0, 0), cutoff);
    if SomeFirst(m, w, camera, lo0, cutoff, ns) {
      var lo :| FirstToSee(m, w, camera, lo0, cutoff, ns, lo);
      if !SeesAt(ns, w, lo0) {
        NextDayStart(lo0, lo);
        assert cutoff.ns < ns;
        assert FirstToSee(m1, w, camera, lo0 + DAY, cutoff, ns, lo);
      }
    }
    if SomeFirst(m1, w, camera, lo0 + DAY, cutoff, ns) {
      var lo :| FirstToSee(m1, w, camera, lo0 + DAY, cutoff, ns, lo);
      if Entry(m1, camera, g) {
        SeenLater(ns, w, Time(lo0, 0), cutoff);
        assert cutoff.ns < ns;
        assert FirstToSee(m, w, camera, lo0, cutoff, ns, lo);
      }
    }
  }

  lemma NextDayStart(lo0: int, lo: int)
    requires lo0 % DAY == 0 && lo % DAY == 0 && lo0 < lo
    ensures lo0 + DAY <= lo
  {
  }

  lemma BlindDayStep(m: Table, w: int, camera: Bytes, cutoff: Time, lo0: int, g: GOPMeta)
    requires lo0 % DAY == 0 && !SeesEntry(m, w, camera, Time(lo0, 0), Time(lo0 + DAY, 0))
    ensures var ns := g.start.ns;
            && (Entry(m, camera, g) ==> !SeesAt(ns, w, lo0))
            && (Entry(m, camera, g) ==>
                  (SomeFirst(m, w, camera, lo0, cutoff, ns)
                   <==> SomeFirst(m, w, camera, lo0 + DAY, cutoff, ns)))
  {
    hide Seen;
    var ns := g.start.ns;
    if Entry(m, camera, g) {
      BlindTo(m, w, camera, lo0, g);
      hide SeesEntry, SeesAt;
      if SomeFirst(m, w, camera, lo0, cutoff, ns) {
        var lo :| FirstToSee(m, w, camera, lo0, cutoff, ns, lo);
        NextDayStart(lo0, lo);
        assert FirstToSee(m, w, camera, lo0 + DAY, cutoff, ns, lo);
      }
      if SomeFirst(m, w, camera, lo0 + DAY, cutoff, ns) {
        var lo :| FirstToSee(m, w, camera, lo0 + DAY, cutoff, ns, lo);
        forall other | lo0 <= other < lo && DaySees(m, w, camera, other) ensures lo0 + DAY <= other {
          if other > lo0 {
            NextDayStart(lo0, other);
          }
        }
        assert FirstToSee(m, w, camera, lo0, cutoff, ns, lo);
      }
    }
  }

  lemma BlindTo(m: Table, w: int, camera: Bytes, lo0: int, g: GOPMeta)
    requires !SeesEntry(m, w, camera, Time(lo0, 0), Time(lo0 + DAY, 0)) && Entry(m, camera, g)
    ensures !SeesAt(g.start.ns, w, lo0)
  {
    hide Seen;
  }

  /** When nothing fails, a key is handed to the storage as a fragment if and only if it is that
      of an entry that ended by the cutoff and is seen on the first scanned day that sees any.
      Entries of later days lose their place in the index and keep their objects. */
  lemma FragmentsExact(db: DB, m: Table, w: int, camera: Bytes, cutoff: Time, answers: Answers, k: Bytes)
    requires db.useV2 && TableOf(m, w) && RepV2(db.v2, m) && IsOffset(w) && CutoffOk(cutoff) && NothingFails(answers)
    ensures k in FragmentKeys(ExpiredGOPs(db, camera, cutoff, ScanStart(cutoff), answers)) <==>
              exists g, lo ::
                && Entry(m, camera, g) && g.end.ns <= cutoff.ns && g.objectKey == k
                && FirstToSee(m, w, camera, Base(cutoff), cutoff, g.start.ns, lo)
  {
    hide RepV2, ExpiredGOPs, FragmentKeys, FirstToSee, Entry;
    FirstScanDay(cutoff);
    var gops := ExpiredGOPs(db, camera, cutoff, ScanStart(cutoff), answers);
    FragmentKeysMembers(gops);
    forall g ensures g in gops <==>
        Entry(m, camera, g) && g.end.ns <= cutoff.ns && SomeFirst(m, w, camera, Base(cutoff), cutoff, g.start.ns)
    {
      ExpiredExact(db, m, w, camera, cutoff, ScanStart(cutoff), answers, g);
    }
  }
}
