/** What a reader of the hybrid store gets: in every interleaving, the bytes of a Put of the
    very key, as long as the master gives every file id away once. */
module HybridReads {
  import opened Common
  import opened HybridProtocol

  /** The Put that a file id was given to. */
  datatype Origin = Origin(key: Bytes, data: Bytes)

  function OriginsOf(md5: Bytes -> Bytes, steps: seq<Step>): map<Bytes, Origin>
    requires Run(md5, steps).Some?
  {
    if steps == [] then map[] else
      var n := |steps| - 1;
      OriginsAfter(OriginsOf(md5, steps[..n]), Run(md5, steps[..n]).value, steps[n])
  }

  function OriginsAfter(o: map<Bytes, Origin>, s: Store, step: Step): map<Bytes, Origin>
    requires Enabled(s, step)
  {
    match step
    case Assign(p, fileId, _, true, _) => o[fileId := Origin(s.puts[p].key, s.puts[p].data)]
    case _ => o
  }

  /** No file id is assigned twice. */
  ghost predicate UniqueIds(md5: Bytes -> Bytes, steps: seq<Step>)
    requires Run(md5, steps).Some?
  {
    steps == [] ||
    var n := |steps| - 1;
    UniqueIds(md5, steps[..n]) && (steps[n].Assign? && steps[n].ok ==> steps[n].fileId !in OriginsOf(md5, steps[..n]))
  }

  // ---------------------------------------------------------------------------
  // All entries of the store
  // ---------------------------------------------------------------------------

  ghost predicate EntryIn(e: Entry, good: iset<EntryMeta>) {
    e.Own? ==> e.meta in good
  }

  ghost predicate MapIn(m: map<Bytes, Entry>, good: iset<EntryMeta>) {
    forall k :: k in m ==> m[k].meta.key == k && EntryIn(m[k], good)
  }

  ghost predicate PutIn(p: Put, good: iset<EntryMeta>) {
    p.Registering? || p.Caching? || p.Compensating? ==> p.meta in good
  }

  ghost predicate WorkerIn(w: Worker, good: iset<EntryMeta>) {
    w.Retrying? || w.Registered? || w.Unpended? ==> w.meta in good
  }

  /** Everything that the store has registered, cached or left to the worker is among these,
      each entry under its own key. */
  ghost predicate AllIn(s: Store, good: iset<EntryMeta>) {
    && MapIn(s.filer, good) && MapIn(s.cache, good)
    && (forall k :: k in s.pending ==> s.pending[k] in good)
    && (forall m :: m in s.queue ==> m in good)
    && (forall e :: e in s.lookups ==> EntryIn(e, good))
    && (forall p :: p in s.puts ==> PutIn(p, good))
    && WorkerIn(s.worker, good)
  }

  lemma AllInGrows(s: Store, a: iset<EntryMeta>, b: iset<EntryMeta>)
    requires AllIn(s, a) && a <= b
    ensures AllIn(s, b)
  {
  }

  lemma PutMap(m: map<Bytes, Entry>, e: Entry, good: iset<EntryMeta>)
    requires MapIn(m, good) && EntryIn(e, good)
    ensures MapIn(m[e.meta.key := e], good)
  {
  }

  lemma PutsSet(puts: seq<Put>, p: nat, x: Put, good: iset<EntryMeta>)
    requires (forall y :: y in puts ==> PutIn(y, good)) && p < |puts| && PutIn(x, good)
    ensures forall y :: y in puts[p := x] ==> PutIn(y, good)
  {
  }

  lemma PutAt(s: Store, p: nat, good: iset<EntryMeta>)
    requires AllIn(s, good) && p < |s.puts|
    ensures PutIn(s.puts[p], good)
  {
  }

  /** Steps of a Put. Only the end of an upload makes a new entry. */
  lemma PutStepIn(md5: Bytes -> Bytes, s: Store, step: Step, good: iset<EntryMeta>)
    requires AllIn(s, good) && Enabled(s, step)
    requires step.Assign? || step.UploadData? || step.Register? || step.CachePut? || step.Fallback? || step.Enqueue?
    requires step.UploadData? && step.ok ==> MetaOf(md5, s.puts[step.p]) in good
    ensures AllIn(Next(md5, s, step), good)
  {
    var p := step.p;
    PutAt(s, p, good);
    var t := Next(md5, s, step);
    PutsSet(s.puts, p, t.puts[p], good) by {
      hide AllIn, MapIn, MetaOf, Enqueued, RetryOr;
    }
    hide PutIn, RetryOr, MetaOf, MapIn;
    match step
    case Register(_, effect, _, _) => PutMap(s.filer, Own(s.puts[p].meta), good);
    case CachePut(_) => PutMap(s.cache, Own(s.puts[p].meta), good);
    case Fallback(_, effect, entry) => PutMap(s.filer, Foreign(entry), good);
    case _ =>
  }

  lemma WorkerStepIn(md5: Bytes -> Bytes, s: Store, step: Step, good: iset<EntryMeta>)
    requires AllIn(s, good) && Enabled(s, step)
    requires step.Take? || step.Retry? || step.Unpend? || step.CacheRetried? || step.Shutdown?
    ensures AllIn(Next(md5, s, step), good)
  {
    hide PutIn, MapIn;
    if step.Retry? {
      RetryIn(md5, s, step, good);
    } else if step.CacheRetried? {
      PutMap(s.cache, Own(s.worker.meta), good);
    }
  }

  lemma RetryIn(md5: Bytes -> Bytes, s: Store, step: Step, good: iset<EntryMeta>)
    requires AllIn(s, good) && Enabled(s, step) && step.Retry?
    ensures AllIn(Next(md5, s, step), good)
  {
    hide PutIn, MapIn;
    PutMap(s.filer, Own(s.worker.meta), good);
  }

  lemma OtherStepIn(md5: Bytes -> Bytes, s: Store, step: Step, good: iset<EntryMeta>)
    requires AllIn(s, good) && Enabled(s, step)
    requires step.BeginPut? || step.Lookup? || step.CacheLookup? || step.DeleteEntry? || step.Uncache?
    ensures AllIn(Next(md5, s, step), good)
  {
    match step
    case CacheLookup(i) =>
      assert s.lookups[i] in s.lookups;
      PutMap(s.cache, s.lookups[i], good);
    case _ =>
  }

  lemma StepIn(md5: Bytes -> Bytes, s: Store, step: Step, good: iset<EntryMeta>)
    requires AllIn(s, good) && Enabled(s, step)
    requires step.UploadData? && step.ok ==> MetaOf(md5, s.puts[step.p]) in good
    ensures AllIn(Next(md5, s, step), good)
  {
    hide AllIn, Next, Enabled;
    match step
    case Assign(_, _, _, _, _) => PutStepIn(md5, s, step, good);
    case UploadData(_, _, _, _) => PutStepIn(md5, s, step, good);
    case Register(_, _, _, _) => PutStepIn(md5, s, step, good);
    case CachePut(_) => PutStepIn(md5, s, step, good);
    case Enqueue(_) => PutStepIn(md5, s, step, good);
    case Fallback(_, _, _) => PutStepIn(md5, s, step, good);
    case Take => WorkerStepIn(md5, s, step, good);
    case Retry(_, _) => WorkerStepIn(md5, s, step, good);
    case Unpend => WorkerStepIn(md5, s, step, good);
    case CacheRetried => WorkerStepIn(md5, s, step, good);
    case Shutdown => WorkerStepIn(md5, s, step, good);
    case _ => OtherStepIn(md5, s, step, good);
  }

  // ---------------------------------------------------------------------------
  // Where the files come from
  // ---------------------------------------------------------------------------

  /** The entry names a file that was given to a Put of its key and holds the bytes of it. */
  ghost predicate Traced(uploads: set<Upload>, o: map<Bytes, Origin>, m: EntryMeta) {
    m.fileId in o && o[m.fileId].key == m.key && Upload(m.fileId, o[m.fileId].data) in uploads
  }

  ghost function TracedMetas(uploads: set<Upload>, o: map<Bytes, Origin>): iset<EntryMeta> {
    iset m | Traced(uploads, o, m)
  }

  /** A file holds the bytes of the Put it was given to and no others. */
  ghost predicate UploadsTraced(uploads: set<Upload>, o: map<Bytes, Origin>) {
    forall u :: u in uploads ==> u.fileId in o && o[u.fileId].data == u.data
  }

  ghost predicate PutsTraced(puts: seq<Put>, o: map<Bytes, Origin>) {
    forall p :: p in puts && p.Uploading? ==> p.fileId in o && o[p.fileId] == Origin(p.key, p.data)
  }

  ghost predicate AllTraced(s: Store, o: map<Bytes, Origin>) {
    AllIn(s, TracedMetas(s.uploads, o)) && UploadsTraced(s.uploads, o) && PutsTraced(s.puts, o)
  }

  lemma StepFiles(md5: Bytes -> Bytes, s: Store, o: map<Bytes, Origin>, step: Step)
    requires UploadsTraced(s.uploads, o) && PutsTraced(s.puts, o) && Enabled(s, step)
    requires step.Assign? && step.ok ==> step.fileId !in o
    ensures var t, o' := Next(md5, s, step), OriginsAfter(o, s, step);
            && UploadsTraced(t.uploads, o') && PutsTraced(t.puts, o') && s.uploads <= t.uploads
            && forall f :: f in o ==> f in o' && o'[f] == o[f]
  {
    hide Enqueued, MetaOf;
    if step.UploadData? {
      assert s.puts[step.p] in s.puts;
    } else if step.Enqueue? {
      EnqueuedFiles(s, s.puts[step.p].meta);
    }
  }

  lemma EnqueuedFiles(s: Store, meta: EntryMeta)
    ensures Enqueued(s, meta).uploads == s.uploads && Enqueued(s, meta).puts == s.puts
  {
  }

  lemma TracedGrows(a: set<Upload>, o: map<Bytes, Origin>, b: set<Upload>, o': map<Bytes, Origin>)
    requires a <= b && forall f :: f in o ==> f in o' && o'[f] == o[f]
    ensures TracedMetas(a, o) <= TracedMetas(b, o')
  {
  }

  lemma UploadedTraced(md5: Bytes -> Bytes, s: Store, o: map<Bytes, Origin>, step: Step)
    requires PutsTraced(s.puts, o) && Enabled(s, step) && step.UploadData? && step.ok
    ensures MetaOf(md5, s.puts[step.p]) in TracedMetas(Next(md5, s, step).uploads, OriginsAfter(o, s, step))
  {
    assert s.puts[step.p] in s.puts;
  }

  lemma StepTraced(md5: Bytes -> Bytes, s: Store, o: map<Bytes, Origin>, step: Step)
    requires AllTraced(s, o) && Enabled(s, step) && (step.Assign? && step.ok ==> step.fileId !in o)
    ensures AllTraced(Next(md5, s, step), OriginsAfter(o, s, step))
  {
    hide AllIn, Next, Enabled, TracedMetas, UploadsTraced, PutsTraced, OriginsAfter, MetaOf;
    var t, o' := Next(md5, s, step), OriginsAfter(o, s, step);
    StepFiles(md5, s, o, step);
    TracedGrows(s.uploads, o, t.uploads, o');
    AllInGrows(s, TracedMetas(s.uploads, o), TracedMetas(t.uploads, o'));
    if step.UploadData? && step.ok {
      UploadedTraced(md5, s, o, step);
    }
    StepIn(md5, s, step, TracedMetas(t.uploads, o'));
  }

  lemma {:induction false} RunTraced(md5: Bytes -> Bytes, steps: seq<Step>)
    requires Run(md5, steps).Some? && UniqueIds(md5, steps)
    ensures AllTraced(Run(md5, steps).value, OriginsOf(md5, steps))
  {
    hide AllTraced, Next, Enabled, OriginsAfter;
    if steps == [] {
      NewTraced();
    } else {
      var n := |steps| - 1;
      RunTraced(md5, steps[..n]);
      StepTraced(md5, Run(md5, steps[..n]).value, OriginsOf(md5, steps[..n]), steps[n]);
    }
  }

  lemma NewTraced()
    ensures AllTraced(NEW, map[])
  {
  }

  /** Every Put that still has its bytes in hand was begun with them, and so was every origin. */
  ghost predicate Begun(s: Store, o: map<Bytes, Origin>, steps: seq<Step>) {
    && (forall p :: p in s.puts && (p.Assigning? || p.Uploading?) ==> BeginPut(p.key, p.data) in steps)
    && (forall f :: f in o ==> BeginPut(o[f].key, o[f].data) in steps)
  }

  lemma StepBegun(md5: Bytes -> Bytes, s: Store, o: map<Bytes, Origin>, steps: seq<Step>, step: Step)
    requires Begun(s, o, steps) && Enabled(s, step)
    ensures Begun(Next(md5, s, step), OriginsAfter(o, s, step), steps + [step])
  {
    hide Enqueued, MetaOf;
    if step.Assign? || step.UploadData? {
      assert s.puts[step.p] in s.puts;
    }
  }

  lemma {:induction false} RunBegun(md5: Bytes -> Bytes, steps: seq<Step>)
    requires Run(md5, steps).Some?
    ensures Begun(Run(md5, steps).value, OriginsOf(md5, steps), steps)
  {
    hide Begun, Next, Enabled, OriginsAfter;
    if steps == [] {
      NewBegun();
    } else {
      var n := |steps| - 1;
      RunBegun(md5, steps[..n]);
      StepBegun(md5, Run(md5, steps[..n]).value, OriginsOf(md5, steps[..n]), steps[..n], steps[n]);
      assert steps[..n] + [steps[n]] == steps;
    }
  }

  lemma NewBegun()
    ensures Begun(NEW, map[], [])
  {
  }

  // ---------------------------------------------------------------------------
  // What is read
  // ---------------------------------------------------------------------------

  /** The file holds these bytes and has never held others. */
  ghost predicate FileHolds(s: Store, fileId: Bytes, data: Bytes) {
    Upload(fileId, data) in s.uploads && forall u :: u in s.uploads && u.fileId == fileId ==> u.data == data
  }

  /** An entry that a Get of the key can go on with: from the cache or from the filer. */
  predicate ServedBy(s: Store, k: Bytes, e: Entry) {
    (k in s.filer && e == s.filer[k]) || (k in s.cache && e == s.cache[k])
  }

  /** In every interleaving, stale caches included: an own entry served for a key names a file
      that holds the bytes of a Put of that key and nothing else. */
  lemma ReadsWhatWasPut(md5: Bytes -> Bytes, steps: seq<Step>, k: Bytes, e: Entry) returns (data: Bytes)
    requires Run(md5, steps).Some? && UniqueIds(md5, steps)
    requires ServedBy(Run(md5, steps).value, k, e) && e.Own?
    ensures BeginPut(k, data) in steps && FileHolds(Run(md5, steps).value, e.meta.fileId, data)
  {
    hide Run, OriginsOf, UniqueIds;
    var s, o := Run(md5, steps).value, OriginsOf(md5, steps);
    RunTraced(md5, steps);
    RunBegun(md5, steps);
    ServedIn(s, k, e, TracedMetas(s.uploads, o));
    data := o[e.meta.fileId].data;
  }

  lemma ServedIn(s: Store, k: Bytes, e: Entry, good: iset<EntryMeta>)
    requires AllIn(s, good) && ServedBy(s, k, e) && e.Own?
    ensures e.meta in good && e.meta.key == k
  {
  }

  /** All Puts of the key carry these bytes. */
  ghost predicate OnlyPut(steps: seq<Step>, k: Bytes, data: Bytes) {
    forall d :: BeginPut(k, d) in steps ==> d == data
  }

  /** So a key that is only ever put with the same bytes reads back as these. */
  lemma ReadsBackBytes(md5: Bytes -> Bytes, steps: seq<Step>, k: Bytes, e: Entry, data: Bytes)
    requires Run(md5, steps).Some? && UniqueIds(md5, steps) && OnlyPut(steps, k, data)
    requires ServedBy(Run(md5, steps).value, k, e) && e.Own?
    ensures FileHolds(Run(md5, steps).value, e.meta.fileId, data)
  {
    hide Run, UniqueIds;
    var d := ReadsWhatWasPut(md5, steps, k, e);
  }
}
