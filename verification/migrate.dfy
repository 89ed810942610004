/** The migration tool: one transaction that copies every V1 value that decodes into the
    V2 buckets. */
module Migrate {
  import opened Common
  import opened OrderedBucket
  import opened Index
  import opened IndexRefinement
  import DayCover
  import KeyOrder

  /** The V2 buckets after the first n values of the flat bucket have been copied. */
  function Copied(v1: Bucket, v2: map<Bytes, CameraBucket>, n: nat): map<Bytes, CameraBucket>
    requires n <= |v1|
  {
    if n == 0 then v2 else
      var before := Copied(v1, v2, n - 1);
      if v1[n - 1].value.Json? then PutV2(before, v1[n - 1].value.meta.cameraId, v1[n - 1].value.meta) else before
  }

  /** How many of the first n values decode. */
  function Decodable(v1: Bucket, n: nat): nat
    requires n <= |v1|
  {
    if n == 0 then 0 else Decodable(v1, n - 1) + if v1[n - 1].value.Json? then 1 else 0
  }

  /** A value without a camera id has no bucket to go to and fails the transaction. */
  predicate Migratable(v1: Bucket) {
    forall e | e in v1 :: e.value.Json? ==> e.value.meta.cameraId != []
  }

  method Run(index: BoltIndex, dryRun: bool, commit: bool) returns (ok: bool, migrated: nat)
    modifies index
    ensures index.useV2 == old(index.useV2) && index.v1 == old(index.v1)
    ensures ok <==> dryRun || (commit && Migratable(index.v1))
    ensures index.v2 == if ok && !dryRun then Copied(index.v1, old(index.v2), |index.v1|) else old(index.v2)
    ensures migrated == if ok && !dryRun then Decodable(index.v1, |index.v1|) else 0
  {
    hide PutV2;
    if dryRun {
      return true, 0;
    }
    var v1, tree := index.v1, index.v2;
    migrated := 0;
    for n := 0 to |v1|
      invariant tree == Copied(v1, index.v2, n) && migrated == Decodable(v1, n)
      invariant forall i :: 0 <= i < n && v1[i].value.Json? ==> v1[i].value.meta.cameraId != []
      invariant unchanged(index)
    {
      assert v1[n] in v1;
      if v1[n].value.Json? {
        var meta := v1[n].value.meta;
        if meta.cameraId == [] {
          return false, 0;
        }
        tree := PutV2(tree, meta.cameraId, meta);
        migrated := migrated + 1;
      }
    }
    if !commit {
      return false, 0;
    }
    index.v2 := tree;
    return true, migrated;
  }

  /** Entries written by the recorder carry their own camera id. */
  ghost predicate Labelled(m: Table) {
    forall id :: id in m ==> m[id].cameraId == id.camera
  }

  /** The table part holds the first n values of the flat bucket. */
  ghost predicate PrefixTable(v1: Bucket, n: nat, part: Table)
    requires n <= |v1|
  {
    forall i :: 0 <= i < n && v1[i].value.Json? ==>
      Entry(part, v1[i].value.meta.cameraId, v1[i].value.meta)
  }

  /** Each value of the flat bucket is the table's entry for its own camera id. */
  lemma OwnEntry(v1: Bucket, m: Table, i: nat)
    requires RepV1(v1, m) && Labelled(m) && i < |v1| && v1[i].value.Json?
    ensures Entry(m, v1[i].value.meta.cameraId, v1[i].value.meta)
    ensures v1[i].key == MakeGOPKey(v1[i].value.meta.cameraId, v1[i].value.meta.start.ns)
  {
    var e := v1[i];
    assert e in v1 && EntryV1(m, e);
    var c :| Entry(m, c, e.value.meta) && e.key == MakeGOPKey(c, e.value.meta.start.ns);
  }

  lemma {:induction false} CopyRefines(v1: Bucket, m: Table, w: int, n: nat) returns (part: Table)
    requires TableOf(m, w) && RepV1(v1, m) && Labelled(m) && n <= |v1|
    ensures TableOf(part, w) && RepV2(Copied(v1, map[], n), part) && PrefixTable(v1, n, part)
    ensures forall id :: id in part ==> id in m && part[id] == m[id]
    ensures |part| == Decodable(v1, n) && KeysBefore(v1, n, part)
  {
    hide PutV2, MakeGOPKey, RepV1, RepV2, KeysBefore;
    if n == 0 {
      part := map[];
      EmptyRefines(w);
      NoKeysBefore(v1);
    } else {
      part := CopyRefines(v1, m, w, n - 1);
      if v1[n - 1].value.Json? {
        var g := v1[n - 1].value.meta;
        OwnEntry(v1, m, n - 1);
        PutV2Refines(Copied(v1, map[], n - 1), part, w, g.cameraId, g);
        KeyIsNew(v1, m, n, part);
        part := part[Id(g.cameraId, g.start.ns) := g];
      } else {
        StillBefore(v1, n, part);
      }
    }
  }

  /** The keys of the part's entries are among the first n of the flat bucket. */
  ghost predicate KeysBefore(v1: Bucket, n: nat, part: Table)
    requires n <= |v1|
  {
    forall id :: id in part ==> exists i :: 0 <= i < n && v1[i].key == MakeGOPKey(id.camera, id.ns)
  }

  lemma NoKeysBefore(v1: Bucket)
    ensures KeysBefore(v1, 0, map[])
  {
  }

  lemma StillBefore(v1: Bucket, n: nat, part: Table)
    requires 0 < n <= |v1| && KeysBefore(v1, n - 1, part)
    ensures KeysBefore(v1, n, part)
  {
    hide MakeGOPKey;
  }

  /** The next value of the flat bucket is an entry not copied yet. */
  lemma KeyIsNew(v1: Bucket, m: Table, n: nat, part: Table)
    requires 0 < n <= |v1| && RepV1(v1, m) && Labelled(m) && v1[n - 1].value.Json? && KeysBefore(v1, n - 1, part)
    ensures var g := v1[n - 1].value.meta;
            && Id(g.cameraId, g.start.ns) !in part
            && KeysBefore(v1, n, part) && KeysBefore(v1, n, part[Id(g.cameraId, g.start.ns) := g])
  {
    hide MakeGOPKey;
    OwnEntry(v1, m, n - 1);
    forall i | 0 <= i < n - 1 ensures v1[i].key != v1[n - 1].key {
      KeyOrder.LessIrreflexive(v1[i].key);
    }
  }

  /** Migrating a V1-only database builds exactly the V2 buckets of its table, and reports as
      many entries as that has. */
  lemma MigrationRefines(v1: Bucket, m: Table, w: int)
    requires TableOf(m, w) && RepV1(v1, m) && Labelled(m)
    ensures RepV2(Copied(v1, map[], |v1|), m) && Decodable(v1, |v1|) == |m|
  {
    hide RepV1, RepV2, TableOf, Labelled, Copied, KeysBefore, Decodable;
    var part := CopyRefines(v1, m, w, |v1|);
    forall id | id in m ensures id in part {
      var i := StoredAt(v1, m, w, id);
      OwnEntry(v1, m, i);
      StoredId(m, w, id);
    }
    assert part == m;
  }

  lemma StoredAt(v1: Bucket, m: Table, w: int, id: Id) returns (i: nat)
    requires TableOf(m, w) && RepV1(v1, m) && id in m
    ensures i < |v1| && v1[i].value == Json(m[id])
  {
    var e := Pair(MakeGOPKey(id.camera, id.ns), Json(m[id]));
    assert Entry(m, id.camera, e.value.meta);
    assert e in v1;
    i :| 0 <= i < |v1| && v1[i] == e;
  }

  lemma StoredId(m: Table, w: int, id: Id)
    requires TableOf(m, w) && Labelled(m) && id in m
    ensures id == Id(m[id].cameraId, m[id].start.ns)
  {
  }

  /** A second migration rewrites what is already there. */
  lemma {:induction false} MigrationIdempotent(v1: Bucket, v2: map<Bytes, CameraBucket>, m: Table, n: nat)
    requires RepV1(v1, m) && Labelled(m) && RepV2(v2, m) && n <= |v1|
    ensures Copied(v1, v2, n) == v2
  {
    hide Put, MakeBinaryKey, MakeGOPKey;
    if n > 0 {
      MigrationIdempotent(v1, v2, m, n - 1);
      if v1[n - 1].value.Json? {
        var g := v1[n - 1].value.meta;
        OwnEntry(v1, m, n - 1);
        var day, key := DayLabel(g.start), MakeBinaryKey(g.cameraId, g.start.ns);
        assert EntryV2(m, g.cameraId, day, Pair(key, Json(g)));
        PutPresent(BucketOf(DaysOf(v2, g.cameraId), day), key, Json(g));
        assert v2[g.cameraId][day := v2[g.cameraId][day]] == v2[g.cameraId];
      }
    }
  }

  /** So after migrating, both layouts answer alike. */
  lemma MigrationAgrees(v1: Bucket, m: Table, w: int, camera: Bytes, start: Time, end: Time)
    requires TableOf(m, w) && RepV1(v1, m) && Labelled(m) && PlainTable(m)
    requires DayCover.IsOffset(w) && RangeOk(start, end, w)
    requires NoColon(camera) && KeyOrder.NineteenDigits(start.ns) && KeyOrder.NineteenDigits(end.ns)
    ensures QueryV2(Copied(v1, map[], |v1|), camera, start, end) == QueryV1(v1, camera, start, end)
  {
    var v2 := Copied(v1, map[], |v1|);
    MigrationRefines(v1, m, w);
    QueryV1Correct(v1, m, w, camera, start, end);
    QueryV2Correct(v2, m, w, camera, start, end);
    ListingUnique(QueryV1(v1, camera, start, end), QueryV2(v2, camera, start, end));
  }

  /** The recorder writes every entry under its own camera id. */
  ghost predicate LabelledOp(op: Op) {
    match op
    case Write(camera, meta, _) => meta.cameraId == camera
    case Batch(items, _) => forall i :: i in items ==> i.meta.cameraId == i.camera
    case Delete(_, _, _, _) => true
  }

  lemma {:induction false} LabelledItems(m: Table, items: seq<Item>)
    requires Labelled(m) && forall i :: i in items ==> i.meta.cameraId == i.camera
    ensures Labelled(WriteAll(m, items))
  {
    if items != [] {
      var n := |items| - 1;
      assert items[n] in items;
      LabelledItems(m, items[..n]);
    }
  }

  lemma {:induction false} LabelledRun(ops: seq<Op>)
    requires forall op :: op in ops ==> LabelledOp(op)
    ensures Labelled(RunTable(map[], ops, false))
  {
    if ops != [] {
      var n := |ops| - 1;
      assert ops[n] in ops;
      LabelledRun(ops[..n]);
      if ops[n].Batch? {
        LabelledItems(RunTable(map[], ops[..n], false), ops[n].items);
      }
    }
  }

  /** After every run of a database without V2 buckets, the migration builds the buckets of
      the run's table, and from then on both layouts answer alike. */
  lemma MigrationAfterRun(ops: seq<Op>, w: int, camera: Bytes, start: Time, end: Time)
    requires forall op :: op in ops ==> FlatOk(op, w) && LabelledOp(op)
    requires DayCover.IsOffset(w) && RangeOk(start, end, w)
    requires NoColon(camera) && KeyOrder.NineteenDigits(start.ns) && KeyOrder.NineteenDigits(end.ns)
    ensures var v1, m := IndexRefinement.Run(EMPTY_FLAT, ops).v1, RunTable(map[], ops, false);
            && RepV2(Copied(v1, map[], |v1|), m) && Decodable(v1, |v1|) == |m|
            && QueryV2(Copied(v1, map[], |v1|), camera, start, end) == QueryV1(v1, camera, start, end)
  {
    hide RepV1, RepV2, Labelled;
    var v1, m := IndexRefinement.Run(EMPTY_FLAT, ops).v1, RunTable(map[], ops, false);
    FlatRunRefines(ops, w);
    LabelledRun(ops);
    MigrationRefines(v1, m, w);
    MigrationAgrees(v1, m, w, camera, start, end);
  }
}
