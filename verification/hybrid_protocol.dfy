/** The hybrid store as its concurrent parts interleave: any number of Puts, readers and
    deletions, and the compensation worker, over a master, volume servers and a filer whose
    calls may fail after they have taken effect. */
module HybridProtocol {
  import opened Common

  /** A registered object: its key, the file that holds its bytes, their size and MD5. */
  datatype EntryMeta = EntryMeta(key: Bytes, fileId: Bytes, volumeId: Bytes, size: nat, etag: Bytes)

  /** Entries of the filer: registered by this store, or by the fallback path. */
  datatype Entry = Own(meta: EntryMeta) | Foreign(meta: EntryMeta)

  datatype Upload = Upload(fileId: Bytes, data: Bytes)

  const RETRY_ATTEMPTS: nat := 3
  const QUEUE_CAPACITY: nat := 1024

  /** Where a Put is; `left` counts the attempts its current call still has. */
  datatype Put =
    | Assigning(key: Bytes, data: Bytes, left: nat)
    | Uploading(key: Bytes, data: Bytes, fileId: Bytes, volumeId: Bytes, left: nat)
    | Registering(meta: EntryMeta, left: nat)
    | Caching(meta: EntryMeta)
    | Compensating(meta: EntryMeta)
    | FallingBack(key: Bytes, data: Bytes)
    | Done

  datatype Worker =
    | Idle
    | Retrying(meta: EntryMeta, left: nat)
    | Registered(meta: EntryMeta)
    | Unpended(meta: EntryMeta)
    | Stopped

  /** `lookups` are entries that readers have fetched but not cached yet, `deletes` keys whose
      entry has been deleted but not taken out of the cache yet; `uploads` and
      `created` record what the volume servers have taken and which entries the worker has
      created; `exhausted` and `overflow` the keys given up after three retries and the
      keys that found the queue full. */
  datatype Store = Store(
    puts: seq<Put>,
    worker: Worker,
    filer: map<Bytes, Entry>,
    cache: map<Bytes, Entry>,
    pending: map<Bytes, EntryMeta>,
    queue: seq<EntryMeta>,
    lookups: seq<Entry>,
    deletes: seq<Bytes>,
    uploads: set<Upload>,
    created: set<EntryMeta>,
    exhausted: set<Bytes>,
    overflow: set<Bytes>)

  /** In the steps that call a server, `effect` says whether the call took effect and `ok`
      whether it returned success; `again` whether a failure is one worth retrying. */
  datatype Step =
    | BeginPut(key: Bytes, data: Bytes)
    | Assign(p: nat, fileId: Bytes, volumeId: Bytes, ok: bool, again: bool)
    | UploadData(p: nat, effect: bool, ok: bool, again: bool)
    | Register(p: nat, effect: bool, ok: bool, again: bool)
    | CachePut(p: nat)
    | Enqueue(p: nat)
    | Fallback(p: nat, effect: bool, entry: EntryMeta)
    | Take
    | Retry(effect: bool, ok: bool)
    | Unpend
    | CacheRetried
    | Shutdown
    | Lookup(key: Bytes)
    | CacheLookup(i: nat)
    | DeleteEntry(key: Bytes, effect: bool, ok: bool)
    | Uncache(i: nat)

  /** The metadata a Put writes for uploaded data. */
  function MetaOf(md5: Bytes -> Bytes, p: Put): EntryMeta
    requires p.Uploading?
  {
    EntryMeta(p.key, p.fileId, p.volumeId, |p.data|, md5(p.data))
  }

  /** enqueueCompensation: one entry per key, and no waiting for room in the queue. */
  function Enqueued(s: Store, meta: EntryMeta): Store {
    if meta.key in s.pending then s
    else if |s.queue| < QUEUE_CAPACITY then
      s.(pending := s.pending[meta.key := meta], queue := s.queue + [meta])
    else
      s.(pending := s.pending[meta.key := meta], overflow := s.overflow + {meta.key})
  }

  predicate Enabled(s: Store, step: Step) {
    match step
    case BeginPut(_, _) => true
    case Assign(p, _, _, _, _) => p < |s.puts| && s.puts[p].Assigning?
    case UploadData(p, effect, ok, _) => p < |s.puts| && s.puts[p].Uploading? && (ok ==> effect)
    case Register(p, effect, ok, _) => p < |s.puts| && s.puts[p].Registering? && (ok ==> effect)
    case CachePut(p) => p < |s.puts| && s.puts[p].Caching?
    case Enqueue(p) => p < |s.puts| && s.puts[p].Compensating?
    case Fallback(p, _, entry) => p < |s.puts| && s.puts[p].FallingBack? && entry.key == s.puts[p].key
    case Take => s.worker.Idle? && s.queue != []
    case Retry(effect, ok) => s.worker.Retrying? && (ok ==> effect)
    case Unpend => s.worker.Registered?
    case CacheRetried => s.worker.Unpended?
    case Shutdown => s.worker.Idle?
    case Lookup(key) => key in s.filer
    case CacheLookup(i) => i < |s.lookups|
    case DeleteEntry(_, effect, ok) => ok ==> effect
    case Uncache(i) => i < |s.deletes|
  }

  /** One attempt less, if the failure is worth retrying and an attempt is left. */
  function RetryOr(p: Put, again: bool, otherwise: Put): Put
    requires p.Assigning? || p.Uploading? || p.Registering?
  {
    if again && p.left > 1 then p.(left := p.left - 1) else otherwise
  }

  function Next(md5: Bytes -> Bytes, s: Store, step: Step): Store
    requires Enabled(s, step)
  {
    match step
    case BeginPut(key, data) => s.(puts := s.puts + [Assigning(key, data, RETRY_ATTEMPTS)])
    case Assign(p, fileId, volumeId, ok, again) =>
      var t := s.puts[p];
      s.(puts := s.puts[p := if ok then Uploading(t.key, t.data, fileId, volumeId, RETRY_ATTEMPTS)
                             else RetryOr(t, again, FallingBack(t.key, t.data))])
    case UploadData(p, effect, ok, again) =>
      var t := s.puts[p];
      s.(uploads := if effect then s.uploads + {Upload(t.fileId, t.data)} else s.uploads,
         puts := s.puts[p := if ok then Registering(MetaOf(md5, t), RETRY_ATTEMPTS) else RetryOr(t, again, Done)])
    case Register(p, effect, ok, again) =>
      var t := s.puts[p];
      s.(filer := if effect then s.filer[t.meta.key := Own(t.meta)] else s.filer,
         puts := s.puts[p := if ok then Caching(t.meta) else RetryOr(t, again, Compensating(t.meta))])
    case CachePut(p) =>
      s.(cache := s.cache[s.puts[p].meta.key := Own(s.puts[p].meta)], puts := s.puts[p := Done])
    case Enqueue(p) =>
      Enqueued(s, s.puts[p].meta).(puts := s.puts[p := Done])
    case Fallback(p, effect, entry) =>
      s.(filer := if effect then s.filer[entry.key := Foreign(entry)] else s.filer, puts := s.puts[p := Done])
    case Take => s.(worker := Retrying(s.queue[0], RETRY_ATTEMPTS), queue := s.queue[1..])
    case Retry(effect, ok) =>
      var m, left := s.worker.meta, s.worker.left;
      var t := s.(filer := if effect then s.filer[m.key := Own(m)] else s.filer);
      if ok then t.(worker := Registered(m), created := s.created + {m})
      else if left > 1 then t.(worker := Retrying(m, left - 1))
      else t.(worker := Idle, exhausted := s.exhausted + {m.key})
    case Unpend => s.(pending := s.pending - {s.worker.meta.key}, worker := Unpended(s.worker.meta))
    case CacheRetried => s.(cache := s.cache[s.worker.meta.key := Own(s.worker.meta)], worker := Idle)
    case Shutdown => s.(worker := Stopped)
    case Lookup(key) => s.(lookups := s.lookups + [s.filer[key]])
    case CacheLookup(i) =>
      s.(cache := s.cache[s.lookups[i].meta.key := s.lookups[i]], lookups := s.lookups[..i] + s.lookups[i + 1..])
    case DeleteEntry(key, effect, ok) =>
      s.(filer := if effect then s.filer - {key} else s.filer, deletes := if ok then s.deletes + [key] else s.deletes)
    case Uncache(i) => s.(cache := s.cache - {s.deletes[i]}, deletes := s.deletes[..i] + s.deletes[i + 1..])
  }

  const NEW: Store := Store([], Idle, map[], map[], map[], [], [], [], {}, {}, {}, {})

  /** The state after a sequence of steps, if each was enabled when it was taken. */
  function Run(md5: Bytes -> Bytes, steps: seq<Step>): Option<Store> {
    if steps == [] then Some(NEW) else
      var before := Run(md5, steps[..|steps| - 1]);
      if before.Some? && Enabled(before.value, steps[|steps| - 1])
      then Some(Next(md5, before.value, steps[|steps| - 1])) else None
  }

  // ---------------------------------------------------------------------------
  // Upload before register
  // ---------------------------------------------------------------------------

  /** The named file was uploaded with bytes of the entry's size and ETag. */
  ghost predicate Backed(md5: Bytes -> Bytes, uploads: set<Upload>, m: EntryMeta) {
    exists u :: u in uploads && u.fileId == m.fileId && |u.data| == m.size && md5(u.data) == m.etag
  }

  ghost predicate EntryBacked(md5: Bytes -> Bytes, uploads: set<Upload>, e: Entry) {
    e.Own? ==> Backed(md5, uploads, e.meta)
  }

  ghost predicate PutBacked(md5: Bytes -> Bytes, uploads: set<Upload>, p: Put) {
    p.Registering? || p.Caching? || p.Compensating? ==> Backed(md5, uploads, p.meta)
  }

  ghost predicate WorkerBacked(md5: Bytes -> Bytes, uploads: set<Upload>, w: Worker) {
    w.Retrying? || w.Registered? || w.Unpended? ==> Backed(md5, uploads, w.meta)
  }

  /** Everything this store has registered, cached, or left to the worker names a file
      that was uploaded before. */
  ghost predicate AllBacked(md5: Bytes -> Bytes, s: Store) {
    && (forall k :: k in s.filer ==> EntryBacked(md5, s.uploads, s.filer[k]))
    && (forall k :: k in s.cache ==> EntryBacked(md5, s.uploads, s.cache[k]))
    && (forall k :: k in s.pending ==> Backed(md5, s.uploads, s.pending[k]))
    && (forall m :: m in s.queue ==> Backed(md5, s.uploads, m))
    && (forall e :: e in s.lookups ==> EntryBacked(md5, s.uploads, e))
    && (forall p :: p in s.puts ==> PutBacked(md5, s.uploads, p))
    && WorkerBacked(md5, s.uploads, s.worker)
  }

  lemma BackedGrows(md5: Bytes -> Bytes, a: set<Upload>, b: set<Upload>, m: EntryMeta)
    requires a <= b && Backed(md5, a, m)
    ensures Backed(md5, b, m)
  {
  }

  /** More uploads do no harm. */
  lemma AllBackedGrows(md5: Bytes -> Bytes, s: Store, uploads: set<Upload>)
    requires AllBacked(md5, s) && s.uploads <= uploads
    ensures AllBacked(md5, s.(uploads := uploads))
  {
    hide Backed;
    forall m | Backed(md5, s.uploads, m) ensures Backed(md5, uploads, m) {
      BackedGrows(md5, s.uploads, uploads, m);
    }
  }

  lemma UploadedBacked(md5: Bytes -> Bytes, uploads: set<Upload>, p: Put)
    requires p.Uploading? && Upload(p.fileId, p.data) in uploads
    ensures Backed(md5, uploads, MetaOf(md5, p))
  {
  }

  lemma SetPut(md5: Bytes -> Bytes, s: Store, p: nat, x: Put)
    requires AllBacked(md5, s) && p < |s.puts| && PutBacked(md5, s.uploads, x)
    ensures AllBacked(md5, s.(puts := s.puts[p := x]))
  {
    hide Backed;
  }

  lemma SetFiler(md5: Bytes -> Bytes, s: Store, k: Bytes, e: Entry)
    requires AllBacked(md5, s) && EntryBacked(md5, s.uploads, e)
    ensures AllBacked(md5, s.(filer := s.filer[k := e]))
    ensures AllBacked(md5, s.(cache := s.cache[k := e]))
  {
    hide Backed;
  }

  lemma PutStepBacked(md5: Bytes -> Bytes, s: Store, step: Step)
    requires AllBacked(md5, s) && Enabled(s, step)
    requires step.Assign? || step.UploadData? || step.Register? || step.CachePut? || step.Fallback?
    ensures AllBacked(md5, Next(md5, s, step))
  {
    hide Backed, AllBacked, RetryOr;
    var t := Next(md5, s, step);
    var p := step.p;
    PutInHand(md5, s, p);
    match step
    case Assign(_, _, _, _, _) =>
      RetryBacked(md5, s, p, step.again, FallingBack(s.puts[p].key, s.puts[p].data));
      SetPut(md5, s, p, t.puts[p]);
    case UploadData(_, effect, ok, again) =>
      AllBackedGrows(md5, s, t.uploads);
      if ok {
        UploadedBacked(md5, t.uploads, s.puts[p]);
      }
      RetryBacked(md5, s, p, again, Done);
      SetPut(md5, s.(uploads := t.uploads), p, t.puts[p]);
    case Register(_, effect, ok, again) =>
      var m := s.puts[p].meta;
      RetryBacked(md5, s, p, again, Compensating(m));
      SetFiler(md5, s, m.key, Own(m));
      SetPut(md5, s.(filer := t.filer), p, t.puts[p]);
    case CachePut(_) =>
      var m := s.puts[p].meta;
      SetFiler(md5, s, m.key, Own(m));
      SetPut(md5, s.(cache := t.cache), p, Done);
    case Fallback(_, effect, entry) =>
      SetFiler(md5, s, entry.key, Foreign(entry));
      SetPut(md5, s.(filer := t.filer), p, Done);
  }

  lemma PutInHand(md5: Bytes -> Bytes, s: Store, p: nat)
    requires AllBacked(md5, s) && p < |s.puts|
    ensures PutBacked(md5, s.uploads, s.puts[p])
  {
    assert s.puts[p] in s.puts;
  }

  lemma RetryBacked(md5: Bytes -> Bytes, s: Store, p: nat, again: bool, otherwise: Put)
    requires p < |s.puts| && PutBacked(md5, s.uploads, s.puts[p]) && PutBacked(md5, s.uploads, otherwise)
    ensures s.puts[p].Assigning? || s.puts[p].Uploading? || s.puts[p].Registering? ==>
              PutBacked(md5, s.uploads, RetryOr(s.puts[p], again, otherwise))
    ensures s.puts[p].Uploading? && !otherwise.Registering? && !otherwise.Caching? && !otherwise.Compensating? ==>
              forall uploads :: PutBacked(md5, uploads, RetryOr(s.puts[p], again, otherwise))
  {
  }

  lemma StepBacked(md5: Bytes -> Bytes, s: Store, step: Step)
    requires AllBacked(md5, s) && Enabled(s, step)
    ensures AllBacked(md5, Next(md5, s, step))
  {
    hide Backed, RetryOr;
    match step
    case Assign(_, _, _, _, _) => PutStepBacked(md5, s, step);
    case UploadData(_, _, _, _) => PutStepBacked(md5, s, step);
    case Register(_, _, _, _) => PutStepBacked(md5, s, step);
    case CachePut(_) => PutStepBacked(md5, s, step);
    case Fallback(_, _, _) => PutStepBacked(md5, s, step);
    case Enqueue(p) => EnqueueBacked(md5, s, p);
    case Take => assert s.queue[0] in s.queue;
    case CacheLookup(i) => assert s.lookups[i] in s.lookups;
    case _ => OtherStepBacked(md5, s, step);
  }

  lemma EnqueueBacked(md5: Bytes -> Bytes, s: Store, p: nat)
    requires AllBacked(md5, s) && Enabled(s, Enqueue(p))
    ensures AllBacked(md5, Next(md5, s, Enqueue(p)))
  {
    hide Backed;
    PutInHand(md5, s, p);
    SetPut(md5, Enqueued(s, s.puts[p].meta), p, Done);
  }

  lemma OtherStepBacked(md5: Bytes -> Bytes, s: Store, step: Step)
    requires AllBacked(md5, s) && Enabled(s, step)
    requires step.BeginPut? || step.Retry? || step.Unpend? || step.CacheRetried? || step.Shutdown? || step.Lookup?
             || step.DeleteEntry? || step.Uncache?
    ensures AllBacked(md5, Next(md5, s, step))
  {
    hide Backed, RetryOr;
    if step.Retry? || step.CacheRetried? {
      WorkerStepBacked(md5, s, step);
    }
  }

  lemma WorkerStepBacked(md5: Bytes -> Bytes, s: Store, step: Step)
    requires AllBacked(md5, s) && Enabled(s, step) && (step.Retry? || step.CacheRetried?)
    ensures AllBacked(md5, Next(md5, s, step))
  {
    hide AllBacked, Backed, PutBacked;
    var m := s.worker.meta;
    WorkerMetaBacked(md5, s);
    SetFiler(md5, s, m.key, Own(m));
    var t := if step.Retry? && !step.effect then s else if step.Retry? then s.(filer := s.filer[m.key := Own(m)])
             else s.(cache := s.cache[m.key := Own(m)]);
    assert AllBacked(md5, t);
    WorkerMoves(md5, t, Next(md5, s, step));
  }

  lemma WorkerMetaBacked(md5: Bytes -> Bytes, s: Store)
    requires AllBacked(md5, s) && (s.worker.Retrying? || s.worker.Unpended?)
    ensures EntryBacked(md5, s.uploads, Own(s.worker.meta))
  {
  }

  /** The worker goes on with the same entry or none. */
  lemma WorkerMoves(md5: Bytes -> Bytes, s: Store, t: Store)
    requires AllBacked(md5, s) && (s.worker.Retrying? || s.worker.Unpended?)
    requires t == s.(worker := t.worker, created := t.created, exhausted := t.exhausted)
    requires t.worker.Idle? || ((t.worker.Retrying? || t.worker.Registered?) && t.worker.meta == s.worker.meta)
    ensures AllBacked(md5, t)
  {
    hide Backed;
  }

  /** In every interleaving, whatever the servers do. */
  lemma {:induction false} UploadBeforeRegister(md5: Bytes -> Bytes, steps: seq<Step>)
    requires Run(md5, steps).Some?
    ensures AllBacked(md5, Run(md5, steps).value)
  {
    hide Next, Enabled;
    if steps != [] {
      var n := |steps| - 1;
      UploadBeforeRegister(md5, steps[..n]);
      StepBacked(md5, Run(md5, steps[..n]).value, steps[n]);
    }
  }

  // ---------------------------------------------------------------------------
  // Compensation accounting
  // ---------------------------------------------------------------------------

  function Keys(q: seq<EntryMeta>): set<Bytes> {
    set m | m in q :: m.key
  }

  /** The key the worker is busy with, until it has been taken off the pending table. */
  function InFlight(w: Worker): set<Bytes> {
    if w.Retrying? || w.Registered? then {w.meta.key} else {}
  }

  /** The pending keys are the disjoint union of the queued keys, the one in flight, those
      given up after three retries and those that found the queue full; no key is queued
      twice, and what is queued or in flight is what is pending. */
  ghost predicate Accounted(s: Store) {
    && s.pending.Keys == Keys(s.queue) + InFlight(s.worker) + s.exhausted + s.overflow
    && Keys(s.queue) !! InFlight(s.worker) !! s.exhausted !! s.overflow
    && (forall i, j :: 0 <= i < j < |s.queue| ==> s.queue[i].key != s.queue[j].key)
    && |s.queue| <= QUEUE_CAPACITY
    && (forall m :: m in s.queue ==> m.key in s.pending && s.pending[m.key] == m)
    && (s.worker.Retrying? || s.worker.Registered? ==>
          s.worker.meta.key in s.pending && s.pending[s.worker.meta.key] == s.worker.meta)
    && (s.worker.Retrying? ==> 1 <= s.worker.left <= RETRY_ATTEMPTS)
    && (s.worker.Registered? ==> s.worker.meta in s.created)
  }

  lemma EnqueueAccounted(s: Store, meta: EntryMeta)
    requires Accounted(s)
    ensures Accounted(Enqueued(s, meta))
    ensures forall k :: k in s.pending ==> k in Enqueued(s, meta).pending
  {
    if meta.key !in s.pending && |s.queue| < QUEUE_CAPACITY {
      assert Keys(s.queue + [meta]) == Keys(s.queue) + {meta.key};
    }
  }

  lemma TakeAccounted(md5: Bytes -> Bytes, s: Store)
    requires Accounted(s) && Enabled(s, Take)
    ensures Accounted(Next(md5, s, Take))
  {
    var head, tail := s.queue[0], s.queue[1..];
    assert s.queue == [head] + tail;
    assert Keys(s.queue) == {head.key} + Keys(tail);
    assert head.key !in Keys(tail);
  }

  /** The pending entry of the registered key has been created, so it may go. */
  lemma WorkerAccounted(md5: Bytes -> Bytes, s: Store, step: Step)
    requires Accounted(s) && Enabled(s, step) && (step.Retry? || step.Unpend?)
    ensures Accounted(Next(md5, s, step))
    ensures forall k :: k in s.pending && k !in Next(md5, s, step).pending ==> s.pending[k] in s.created
  {
  }

  lemma OtherAccounted(md5: Bytes -> Bytes, s: Store, step: Step)
    requires Accounted(s) && Enabled(s, step)
    requires !(step.Retry? || step.Unpend? || step.Enqueue? || step.Take?)
    ensures Accounted(Next(md5, s, step)) && Next(md5, s, step).pending == s.pending
  {
    hide RetryOr;
    var t := Next(md5, s, step);
    assert t.queue == s.queue && t.exhausted == s.exhausted && t.overflow == s.overflow;
    assert InFlight(t.worker) == InFlight(s.worker);
  }

  /** A key leaves the pending table only when the worker has created its entry. */
  lemma StepAccounted(md5: Bytes -> Bytes, s: Store, step: Step)
    requires Accounted(s) && Enabled(s, step)
    ensures Accounted(Next(md5, s, step))
    ensures forall k :: k in s.pending && k !in Next(md5, s, step).pending ==> s.pending[k] in s.created
  {
    hide Accounted, RetryOr, Enqueued;
    if step.Enqueue? {
      EnqueueAccounted(s, s.puts[step.p].meta);
      PutsAccounted(Enqueued(s, s.puts[step.p].meta), s.puts[step.p := Done]);
    } else if step.Take? {
      TakeAccounted(md5, s);
    } else if step.Retry? || step.Unpend? {
      WorkerAccounted(md5, s, step);
    } else {
      OtherAccounted(md5, s, step);
    }
  }

  lemma PutsAccounted(s: Store, puts: seq<Put>)
    requires Accounted(s)
    ensures Accounted(s.(puts := puts))
  {
  }

  lemma {:induction false} CompensationAccounted(md5: Bytes -> Bytes, steps: seq<Step>)
    requires Run(md5, steps).Some?
    ensures Accounted(Run(md5, steps).value)
  {
    hide Next, Enabled;
    if steps != [] {
      var n := |steps| - 1;
      CompensationAccounted(md5, steps[..n]);
      StepAccounted(md5, Run(md5, steps[..n]).value, steps[n]);
    }
  }

  /** While a key is pending its entry stays the same. */
  lemma StepKeepsPending(md5: Bytes -> Bytes, s: Store, step: Step)
    requires Enabled(s, step)
    ensures var t := Next(md5, s, step);
            && s.created <= t.created
            && forall k :: k in s.pending && k in t.pending ==> t.pending[k] == s.pending[k]
  {
    if step.Enqueue? {
      EnqueuedKeeps(s, s.puts[step.p].meta);
    }
    hide Enqueued, RetryOr, MetaOf;
  }

  lemma EnqueuedKeeps(s: Store, meta: EntryMeta)
    ensures Enqueued(s, meta).created == s.created
    ensures forall k :: k in s.pending ==> k in Enqueued(s, meta).pending && Enqueued(s, meta).pending[k] == s.pending[k]
  {
  }

  /** An entry that was pending and is not any more has been created by the worker: that very
      entry, with its file. */
  lemma {:induction false} LeavesOnlyCreated(md5: Bytes -> Bytes, steps: seq<Step>, i: nat, k: Bytes)
    requires Run(md5, steps).Some? && i < |steps| && Run(md5, steps[..i]).Some?
    requires k in Run(md5, steps[..i]).value.pending
    ensures var m, t := Run(md5, steps[..i]).value.pending[k], Run(md5, steps).value;
            m in t.created || (k in t.pending && t.pending[k] == m)
  {
    hide Next, Enabled, Accounted;
    var n := |steps| - 1;
    var s := Run(md5, steps[..n]).value;
    assert steps[..n][..i] == steps[..i];
    CompensationAccounted(md5, steps[..n]);
    StepAccounted(md5, s, steps[n]);
    StepKeepsPending(md5, s, steps[n]);
    if i < n {
      LeavesOnlyCreated(md5, steps[..n], i, k);
    }
  }

  // ---------------------------------------------------------------------------
  // What is left to the worker
  // ---------------------------------------------------------------------------

  /** A Put that leaves its entry to the worker has its key pending; if it was not before, with
      this very entry, and queued if there is room. */
  lemma EnqueueRemembers(md5: Bytes -> Bytes, s: Store, p: nat)
    requires Accounted(s) && Enabled(s, Enqueue(p))
    ensures var t, m := Next(md5, s, Enqueue(p)), s.puts[p].meta;
            && m.key in t.pending && t.puts[p] == Done
            && (m.key in s.pending ==> t.pending == s.pending && t.queue == s.queue)
            && (m.key !in s.pending ==>
                  t.pending[m.key] == m && t.queue == if |s.queue| < 1024 then s.queue + [m] else s.queue)
  {
  }

  /** A Put waits in this state until it hands its entry over. */
  lemma CompensatingWaits(md5: Bytes -> Bytes, s: Store, step: Step, p: nat)
    requires Enabled(s, step) && p < |s.puts| && s.puts[p].Compensating?
    ensures p < |Next(md5, s, step).puts|
    ensures step != Enqueue(p) ==> Next(md5, s, step).puts[p] == s.puts[p]
  {
    hide Enqueued;
    if step.Enqueue? {
      EnqueuedPuts(s, s.puts[step.p].meta);
    }
  }

  lemma EnqueuedPuts(s: Store, meta: EntryMeta)
    ensures Enqueued(s, meta).puts == s.puts
  {
  }

  /** Where in a run a waiting Put has handed its entry over. */
  lemma {:induction false} HandedOver(md5: Bytes -> Bytes, steps: seq<Step>, i: nat, p: nat) returns (j: nat)
    requires Run(md5, steps).Some? && i <= |steps| && Run(md5, steps[..i]).Some?
    requires p < |Run(md5, steps[..i]).value.puts| && Run(md5, steps[..i]).value.puts[p].Compensating?
    requires p < |Run(md5, steps).value.puts| && !Run(md5, steps).value.puts[p].Compensating?
    ensures i <= j < |steps| && steps[j] == Enqueue(p) && Run(md5, steps[..j]).Some?
    ensures var s := Run(md5, steps[..j]).value;
            p < |s.puts| && s.puts[p] == Run(md5, steps[..i]).value.puts[p]
    ensures Run(md5, steps[..j + 1]).Some?
  {
    hide Next, Enabled;
    var n := |steps| - 1;
    assert steps[..|steps|] == steps;
    assert steps[..n][..i] == steps[..i];
    var s := Run(md5, steps[..n]).value;
    if steps[n] == Enqueue(p) && StillWaits(s, p, Run(md5, steps[..i]).value.puts[p]) {
      j := n;
      assert steps[..n + 1] == steps;
    } else {
      WaitsOrNot(md5, steps[..n], i, p);
      CompensatingOrDone(md5, s, steps[n], p, Run(md5, steps[..i]).value.puts[p]);
      j := HandedOver(md5, steps[..n], i, p);
      assert steps[..n][..j] == steps[..j] && steps[..n][..j + 1] == steps[..j + 1];
    }
  }

  predicate StillWaits(s: Store, p: nat, x: Put) {
    p < |s.puts| && s.puts[p] == x
  }

  lemma CompensatingOrDone(md5: Bytes -> Bytes, s: Store, step: Step, p: nat, x: Put)
    requires Enabled(s, step) && x.Compensating? && (step == Enqueue(p) ==> !StillWaits(s, p, x))
    requires p < |Next(md5, s, step).puts| && !Next(md5, s, step).puts[p].Compensating?
    requires p < |s.puts| && (s.puts[p].Compensating? ==> s.puts[p] == x)
    ensures !s.puts[p].Compensating?
  {
    if s.puts[p].Compensating? {
      CompensatingWaits(md5, s, step, p);
    }
  }

  /** As long as the Put waits it is the same. */
  lemma {:induction false} WaitsOrNot(md5: Bytes -> Bytes, steps: seq<Step>, i: nat, p: nat)
    requires Run(md5, steps).Some? && i <= |steps| && Run(md5, steps[..i]).Some?
    requires p < |Run(md5, steps[..i]).value.puts| && Run(md5, steps[..i]).value.puts[p].Compensating?
    ensures p < |Run(md5, steps).value.puts|
    ensures Run(md5, steps).value.puts[p] == Run(md5, steps[..i]).value.puts[p] || Run(md5, steps).value.puts[p].Done?
  {
    hide Next, Enabled;
    if i == |steps| {
      assert steps[..i] == steps;
    } else {
      var n := |steps| - 1;
      assert steps[..n][..i] == steps[..i];
      WaitsOrNot(md5, steps[..n], i, p);
      WaitStep(md5, Run(md5, steps[..n]).value, steps[n], p);
    }
  }

  lemma WaitStep(md5: Bytes -> Bytes, s: Store, step: Step, p: nat)
    requires Enabled(s, step) && p < |s.puts| && (s.puts[p].Compensating? || s.puts[p].Done?)
    ensures p < |Next(md5, s, step).puts|
    ensures Next(md5, s, step).puts[p] == s.puts[p] || Next(md5, s, step).puts[p].Done?
  {
    hide Enqueued;
    if step.Enqueue? {
      EnqueuedPuts(s, s.puts[step.p].meta);
    }
  }

  /** In every interleaving: what a Put has left to the worker is not forgotten. Once it is
      done, its key was made pending, and the entry that was pending then is pending still or
      has been created since by the worker; it is the Put's own unless one was pending before. */
  lemma LeftIsRemembered(md5: Bytes -> Bytes, steps: seq<Step>, i: nat, p: nat) returns (j: nat)
    requires Run(md5, steps).Some? && i <= |steps| && Run(md5, steps[..i]).Some?
    requires p < |Run(md5, steps[..i]).value.puts| && Run(md5, steps[..i]).value.puts[p].Compensating?
    requires p < |Run(md5, steps).value.puts| && Run(md5, steps).value.puts[p].Done?
    ensures i <= j < |steps| && Run(md5, steps[..j]).Some? && Run(md5, steps[..j + 1]).Some?
    ensures var m, s, t := Run(md5, steps[..i]).value.puts[p].meta, Run(md5, steps[..j]).value, Run(md5, steps[..j + 1]).value;
            && m.key in t.pending
            && (m.key !in s.pending ==>
                  t.pending[m.key] == m && t.queue == if |s.queue| < 1024 then s.queue + [m] else s.queue)
            && var u := Run(md5, steps).value;
               t.pending[m.key] in u.created || (m.key in u.pending && u.pending[m.key] == t.pending[m.key])
  {
    hide Next, Enabled, Accounted;
    j := HandedOver(md5, steps, i, p);
    var m := Run(md5, steps[..i]).value.puts[p].meta;
    assert steps[..j + 1][..j] == steps[..j] && steps[..j + 1][j] == steps[j];
    CompensationAccounted(md5, steps[..j]);
    EnqueueRemembers(md5, Run(md5, steps[..j]).value, p);
    if j + 1 < |steps| {
      LeavesOnlyCreated(md5, steps, j + 1, m.key);
    } else {
      assert steps[..j + 1] == steps;
    }
  }

  // ---------------------------------------------------------------------------
  // Cache coherence
  // ---------------------------------------------------------------------------

  function FileOf(m: map<Bytes, Entry>, k: Bytes): Option<Bytes> {
    if k in m then Some(m[k].meta.fileId) else None
  }

  /** Who is about to cache an entry: a Put or the worker, having registered it, or a reader,
      having looked it up. */
  datatype Filler = ByPut(p: nat) | ByWorker | ByLookup(i: nat)

  function FillOf(s: Store, x: Filler): Option<EntryMeta> {
    match x
    case ByPut(p) => if p < |s.puts| && s.puts[p].Caching? then Some(s.puts[p].meta) else None
    case ByWorker => if s.worker.Registered? || s.worker.Unpended? then Some(s.worker.meta) else None
    case ByLookup(i) => if i < |s.lookups| then Some(s.lookups[i].meta) else None
  }

  predicate Updates(s: Store, x: Filler, k: Bytes) {
    !x.ByLookup? && FillOf(s, x).Some? && FillOf(s, x).value.key == k
  }

  /** The cache is about to be brought up to date for this key. */
  ghost predicate Writing(s: Store, k: Bytes) {
    k in s.deletes || exists x :: Updates(s, x, k)
  }

  /** Writing goes on while the fillers of the key and its deletions do, up to one filler
      that does not write this key. */
  lemma WritingKept(s: Store, t: Store, k: Bytes, but: Filler)
    requires Writing(s, k) && (k in s.deletes ==> k in t.deletes) && !Updates(s, but, k)
    requires forall y: Filler :: y != but && !y.ByLookup? ==> FillOf(t, y) == FillOf(s, y)
    ensures Writing(t, k)
  {
    hide FillOf;
    if k !in s.deletes {
      var x :| Updates(s, x, k);
      assert Updates(t, x, k);
    }
  }

  ghost predicate FilerFiled(s: Store) {
    forall k :: k in s.filer ==> s.filer[k].meta.key == k
  }

  ghost predicate FillersFresh(s: Store) {
    forall x :: FillOf(s, x).Some? ==> FileOf(s.filer, FillOf(s, x).value.key) == Some(FillOf(s, x).value.fileId)
  }

  ghost predicate CacheFresh(s: Store) {
    forall k :: k in s.cache ==> FileOf(s.cache, k) == FileOf(s.filer, k) || Writing(s, k)
  }

  /** Whoever is about to cache an entry has the filer's file, and so has the cache, except
      where it is about to be brought up to date. */
  ghost predicate Fresh(s: Store) {
    FilerFiled(s) && FillersFresh(s) && CacheFresh(s)
  }

  /** The key whose filer entry a step writes, and the file it then has. */
  function Touched(s: Store, step: Step): Option<(Bytes, Option<Bytes>)>
    requires Enabled(s, step)
  {
    match step
    case Register(p, true, _, _) => Some((s.puts[p].meta.key, Some(s.puts[p].meta.fileId)))
    case Fallback(_, true, entry) => Some((entry.key, Some(entry.fileId)))
    case Retry(true, _) => Some((s.worker.meta.key, Some(s.worker.meta.fileId)))
    case DeleteEntry(key, true, _) => Some((key, None))
    case _ => None
  }

  /** The step's own operation goes on to bring the cache up to date. */
  predicate Follows(step: Step) {
    match step
    case Register(_, _, ok, _) => ok
    case Retry(_, ok) => ok
    case DeleteEntry(_, _, ok) => ok
    case _ => false
  }

  /** The step gives a key another file while someone is about to cache the present one; or,
      coming from the fallback or from a call reported as failed, it leaves behind a cached
      file that is not the filer's any more. */
  ghost predicate Disturbs(s: Store, step: Step)
    requires Enabled(s, step)
  {
    Touched(s, step).Some? &&
    var k, file := Touched(s, step).value.0, Touched(s, step).value.1;
    || (exists x :: FillOf(s, x).Some? && FillOf(s, x).value.key == k && Some(FillOf(s, x).value.fileId) != file)
    || (!Follows(step) && k in s.cache && FileOf(s.cache, k) != file && !Writing(s, k))
  }

  /** The filler that a step creates or uses up. */
  function OwnFiller(s: Store, step: Step): Option<Filler> {
    match step
    case Register(p, _, true, _) => Some(ByPut(p))
    case Retry(_, true) => Some(ByWorker)
    case CachePut(p) => Some(ByPut(p))
    case CacheRetried => Some(ByWorker)
    case Lookup(_) => Some(ByLookup(|s.lookups|))
    case _ => None
  }

  /** Steps that touch neither filer, cache nor lookups leave the fillers as they are. */
  predicate Quiet(step: Step) {
    step.BeginPut? || step.Assign? || step.UploadData? || step.Enqueue? || step.Take? || step.Unpend? || step.Shutdown?
  }

  lemma QuietFillers(md5: Bytes -> Bytes, s: Store, step: Step)
    requires Enabled(s, step) && Quiet(step)
    ensures var t := Next(md5, s, step);
            && t.filer == s.filer && t.cache == s.cache && t.deletes == s.deletes
            && forall x :: FillOf(t, x) == FillOf(s, x)
  {
  }

  lemma QuietFresh(md5: Bytes -> Bytes, s: Store, step: Step)
    requires Fresh(s) && Enabled(s, step) && Quiet(step)
    ensures Fresh(Next(md5, s, step))
  {
    hide Next, Enabled, FillOf;
    QuietFillers(md5, s, step);
    var t := Next(md5, s, step);
    forall k | Writing(s, k) ensures Writing(t, k) {
      WritingKept(s, t, k, ByLookup(0));
    }
  }

  /** What a step that may change a filer entry does: the entry, the step's own filler, and
      nothing else that matters to the cache. */
  ghost predicate TouchEffect(s: Store, t: Store, step: Step)
    requires Enabled(s, step)
  {
    var touched, own := Touched(s, step), OwnFiller(s, step);
    && t.cache == s.cache && (FilerFiled(s) ==> FilerFiled(t))
    && (touched.None? ==> t.filer == s.filer && !Follows(step))
    && (touched.Some? ==>
          forall k :: FileOf(t.filer, k) == if k == touched.value.0 then touched.value.1 else FileOf(s.filer, k))
    && (forall x :: own != Some(x) ==> FillOf(t, x) == FillOf(s, x))
    && (own.Some? ==> touched.Some? && Follows(step) && OwnFill(s, t, own.value, touched.value.0, touched.value.1))
    && t.deletes == (if own.None? && Follows(step) && touched.Some? then s.deletes + [touched.value.0] else s.deletes)
  }

  /** A Put or the worker starts to fill. */
  predicate OwnFill(s: Store, t: Store, x: Filler, k: Bytes, file: Option<Bytes>) {
    FillOf(s, x) == None && Updates(t, x, k) && Some(FillOf(t, x).value.fileId) == file
  }

  lemma TouchingStep(md5: Bytes -> Bytes, s: Store, step: Step)
    requires Enabled(s, step) && (step.Register? || step.Fallback? || step.Retry? || step.DeleteEntry?)
    ensures TouchEffect(s, Next(md5, s, step), step)
  {
    match step
    case Register(_, _, _, _) => RegisterTouches(md5, s, step);
    case Fallback(_, _, _) => FallbackTouches(md5, s, step);
    case Retry(_, _) => RetryTouches(md5, s, step);
    case DeleteEntry(_, _, _) => DeleteTouches(md5, s, step);
  }

  lemma RegisterTouches(md5: Bytes -> Bytes, s: Store, step: Step)
    requires Enabled(s, step) && step.Register?
    ensures TouchEffect(s, Next(md5, s, step), step)
  {
  }

  lemma FallbackTouches(md5: Bytes -> Bytes, s: Store, step: Step)
    requires Enabled(s, step) && step.Fallback?
    ensures TouchEffect(s, Next(md5, s, step), step)
  {
  }

  lemma RetryTouches(md5: Bytes -> Bytes, s: Store, step: Step)
    requires Enabled(s, step) && step.Retry?
    ensures TouchEffect(s, Next(md5, s, step), step)
  {
    hide FileOf, FilerFiled;
    var m, t := s.worker.meta, Next(md5, s, step);
    if step.effect {
      PutFile(s.filer, t.filer, m.key, Own(m));
      FilerPut(s, t, m.key, Own(m));
    } else {
      assert FilerFiled(s) ==> FilerFiled(t) by {
        SameFiler(s, t);
      }
    }
  }

  lemma PutFile(m: map<Bytes, Entry>, m': map<Bytes, Entry>, k: Bytes, e: Entry)
    requires m' == m[k := e]
    ensures forall l :: FileOf(m', l) == if l == k then Some(e.meta.fileId) else FileOf(m, l)
  {
    forall l ensures FileOf(m', l) == if l == k then Some(e.meta.fileId) else FileOf(m, l) {
      assert l in m' <==> l == k || l in m;
    }
  }

  lemma FilerPut(s: Store, t: Store, k: Bytes, e: Entry)
    requires t.filer == s.filer[k := e] && e.meta.key == k
    ensures FilerFiled(s) ==> FilerFiled(t)
  {
  }

  lemma SameFiler(s: Store, t: Store)
    requires t.filer == s.filer
    ensures FilerFiled(s) ==> FilerFiled(t)
  {
  }

  lemma DeleteTouches(md5: Bytes -> Bytes, s: Store, step: Step)
    requires Enabled(s, step) && step.DeleteEntry?
    ensures TouchEffect(s, Next(md5, s, step), step)
  {
  }

  lemma TouchingWriting(md5: Bytes -> Bytes, s: Store, step: Step, k: Bytes)
    requires Enabled(s, step) && (step.Register? || step.Fallback? || step.Retry? || step.DeleteEntry?)
    ensures Writing(Next(md5, s, step), k) <==>
              Writing(s, k) || (Follows(step) && Touched(s, step).Some? && Touched(s, step).value.0 == k)
  {
    hide Next, Enabled, FillOf, FileOf, Touched, Follows, OwnFiller, FilerFiled;
    TouchingStep(md5, s, step);
    var t, own := Next(md5, s, step), OwnFiller(s, step);
    if Writing(s, k) {
      WritingKept(s, t, k, if own.Some? then own.value else ByLookup(0));
    }
    if Follows(step) && Touched(s, step).value.0 == k {
      assert own.Some? ==> Updates(t, own.value, k);
    }
    if Writing(t, k) && k !in t.deletes {
      var x :| Updates(t, x, k);
      assert own != Some(x) ==> Updates(s, x, k);
    }
  }

  /** Exactly when such a step leaves everything fresh. */
  lemma TouchingFresh(md5: Bytes -> Bytes, s: Store, step: Step)
    requires Fresh(s) && Enabled(s, step) && (step.Register? || step.Fallback? || step.Retry? || step.DeleteEntry?)
    ensures Fresh(Next(md5, s, step)) <==> !Disturbs(s, step)
  {
    hide Next, Enabled, FillOf, FileOf, Touched, Follows, OwnFiller, Writing, OwnFill;
    TouchingStep(md5, s, step);
    var t := Next(md5, s, step);
    forall k ensures Writing(t, k) <==>
        Writing(s, k) || (Follows(step) && Touched(s, step).Some? && Touched(s, step).value.0 == k)
    {
      TouchingWriting(md5, s, step, k);
    }
    SameCacheFiles(s, t);
    if Touched(s, step).Some? {
      TouchedFillers(s, t, step);
      TouchedCache(s, t, step);
    }
  }

  lemma SameCacheFiles(s: Store, t: Store)
    requires t.cache == s.cache
    ensures forall k :: FileOf(t.cache, k) == FileOf(s.cache, k)
  {
  }

  lemma TouchedFillers(s: Store, t: Store, step: Step)
    requires FillersFresh(s) && Enabled(s, step) && Touched(s, step).Some? && TouchEffect(s, t, step)
    ensures FillersFresh(t) <==>
              !exists x :: FillOf(s, x).Some? && FillOf(s, x).value.key == Touched(s, step).value.0
                           && Some(FillOf(s, x).value.fileId) != Touched(s, step).value.1
  {
    hide Enabled, FillOf, FileOf, Touched, Follows, OwnFiller, Writing, FilerFiled;
    var k, file := Touched(s, step).value.0, Touched(s, step).value.1;
    if x :| FillOf(s, x).Some? && FillOf(s, x).value.key == k && Some(FillOf(s, x).value.fileId) != file {
      assert FillOf(t, x) == FillOf(s, x);
    } else {
      forall x | FillOf(t, x).Some? ensures FileOf(t.filer, FillOf(t, x).value.key) == Some(FillOf(t, x).value.fileId) {
        if OwnFiller(s, step) != Some(x) {
          assert FillOf(t, x) == FillOf(s, x);
        }
      }
    }
  }

  lemma TouchedCache(s: Store, t: Store, step: Step)
    requires CacheFresh(s) && Enabled(s, step) && Touched(s, step).Some? && TouchEffect(s, t, step)
    requires forall k :: Writing(t, k) <==> Writing(s, k) || (Follows(step) && Touched(s, step).value.0 == k)
    ensures var k, file := Touched(s, step).value.0, Touched(s, step).value.1;
            CacheFresh(t) <==> !(!Follows(step) && k in s.cache && FileOf(s.cache, k) != file && !Writing(s, k))
  {
    hide Enabled, FillOf, FileOf, Touched, Follows, OwnFiller, Writing, FilerFiled, OwnFill;
    SameCacheFiles(s, t);
  }

  /** Filling or emptying the cache keeps it fresh. */
  lemma CachingFresh(md5: Bytes -> Bytes, s: Store, step: Step)
    requires Fresh(s) && Enabled(s, step)
    requires step.CachePut? || step.CacheRetried? || step.CacheLookup? || step.Lookup? || step.Uncache?
    ensures Fresh(Next(md5, s, step))
  {
    var t := Next(md5, s, step);
    match step
    case Lookup(key) =>
      LookupFresh(md5, s, key);
    case CachePut(p) =>
      FillFresh(s, t, ByPut(p));
    case CacheRetried =>
      FillFresh(s, t, ByWorker);
    case CacheLookup(i) =>
      CacheLookupFresh(md5, s, i);
    case Uncache(i) =>
      UncacheFresh(md5, s, i);
  }

  lemma LookupFresh(md5: Bytes -> Bytes, s: Store, key: Bytes)
    requires Fresh(s) && key in s.filer
    ensures Fresh(Next(md5, s, Lookup(key)))
  {
    var t := Next(md5, s, Lookup(key));
    forall x ensures FillOf(t, x) == if x == ByLookup(|s.lookups|) then Some(s.filer[key].meta) else FillOf(s, x) {
    }
    hide FillOf;
    forall k | Writing(s, k) ensures Writing(t, k) {
      WritingKept(s, t, k, ByLookup(|s.lookups|));
    }
  }

  /** A filler writes the filer's file into the cache and is done. */
  lemma FillFresh(s: Store, t: Store, x: Filler)
    requires Fresh(s) && FillOf(s, x).Some? && !x.ByLookup? && FillOf(t, x) == None
    requires t.filer == s.filer && t.deletes == s.deletes && forall y :: y != x ==> FillOf(t, y) == FillOf(s, y)
    requires t.cache == s.cache[FillOf(s, x).value.key := Own(FillOf(s, x).value)]
    ensures Fresh(t)
  {
    hide FillOf;
    var key := FillOf(s, x).value.key;
    forall k | k in t.cache ensures FileOf(t.cache, k) == FileOf(t.filer, k) || Writing(t, k) {
      if k != key && Writing(s, k) {
        WritingKept(s, t, k, x);
      }
    }
  }

  lemma CacheLookupFresh(md5: Bytes -> Bytes, s: Store, i: nat)
    requires Fresh(s) && i < |s.lookups|
    ensures Fresh(Next(md5, s, CacheLookup(i)))
  {
    var t, key := Next(md5, s, CacheLookup(i)), s.lookups[i].meta.key;
    assert FillOf(s, ByLookup(i)) == Some(s.lookups[i].meta);
    CacheLookupEffect(md5, s, i);
    hide FillOf, Next;
    forall x | FillOf(t, x).Some? ensures FileOf(t.filer, FillOf(t, x).value.key) == Some(FillOf(t, x).value.fileId) {
      var y := if x.ByLookup? && x.i >= i then ByLookup(x.i + 1) else x;
      assert FillOf(t, x) == FillOf(s, y);
    }
    forall k | k in t.cache ensures FileOf(t.cache, k) == FileOf(t.filer, k) || Writing(t, k) {
      if k != key && Writing(s, k) {
        WritingKept(s, t, k, ByLookup(0));
      }
    }
  }

  lemma CacheLookupEffect(md5: Bytes -> Bytes, s: Store, i: nat)
    requires i < |s.lookups|
    ensures var t := Next(md5, s, CacheLookup(i));
            && t.filer == s.filer && t.deletes == s.deletes && t.cache == s.cache[s.lookups[i].meta.key := s.lookups[i]]
            && forall x: Filler :: FillOf(t, x) == FillOf(s, if x.ByLookup? && x.i >= i then ByLookup(x.i + 1) else x)
  {
    forall x: Filler ensures
        FillOf(Next(md5, s, CacheLookup(i)), x) == FillOf(s, if x.ByLookup? && x.i >= i then ByLookup(x.i + 1) else x)
    {
      LookupsShift(md5, s, i, x);
    }
  }

  lemma LookupsShift(md5: Bytes -> Bytes, s: Store, i: nat, x: Filler)
    requires i < |s.lookups|
    ensures var t := Next(md5, s, CacheLookup(i));
            FillOf(t, x) == FillOf(s, if x.ByLookup? && x.i >= i then ByLookup(x.i + 1) else x)
  {
  }

  lemma UncacheFresh(md5: Bytes -> Bytes, s: Store, i: nat)
    requires Fresh(s) && i < |s.deletes|
    ensures Fresh(Next(md5, s, Uncache(i)))
  {
    var t, key := Next(md5, s, Uncache(i)), s.deletes[i];
    UncacheEffect(md5, s, i);
    hide FillOf, Next;
    forall k | k in t.cache ensures FileOf(t.cache, k) == FileOf(t.filer, k) || Writing(t, k) {
      assert k != key && k in s.cache;
      if Writing(s, k) {
        WritingKept(s, t, k, ByLookup(0));
      }
    }
  }

  lemma UncacheEffect(md5: Bytes -> Bytes, s: Store, i: nat)
    requires i < |s.deletes|
    ensures var t := Next(md5, s, Uncache(i));
            && t.filer == s.filer && t.cache == s.cache - {s.deletes[i]}
            && (forall x :: FillOf(t, x) == FillOf(s, x))
            && forall k :: k in s.deletes && k != s.deletes[i] ==> k in t.deletes
  {
    var t := Next(md5, s, Uncache(i));
    forall k | k in s.deletes && k != s.deletes[i] ensures k in t.deletes {
      var j :| 0 <= j < |s.deletes| && s.deletes[j] == k;
      assert t.deletes[if j < i then j else j - 1] == k;
    }
  }

  /** Exactly when a step leaves everything fresh. */
  lemma StepFresh(md5: Bytes -> Bytes, s: Store, step: Step)
    requires Fresh(s) && Enabled(s, step)
    ensures Fresh(Next(md5, s, step)) <==> !Disturbs(s, step)
  {
    hide Fresh, Next;
    if Quiet(step) {
      QuietFresh(md5, s, step);
    } else if step.Register? || step.Fallback? || step.Retry? || step.DeleteEntry? {
      TouchingFresh(md5, s, step);
    } else {
      CachingFresh(md5, s, step);
    }
  }

  /** No step of the run disturbs the state it meets. */
  ghost predicate Undisturbed(md5: Bytes -> Bytes, steps: seq<Step>)
    requires Run(md5, steps).Some?
  {
    steps == [] ||
    var n := |steps| - 1;
    Undisturbed(md5, steps[..n]) && !Disturbs(Run(md5, steps[..n]).value, steps[n])
  }

  /** Every state of the run is fresh. */
  ghost predicate AlwaysFresh(md5: Bytes -> Bytes, steps: seq<Step>)
    requires Run(md5, steps).Some?
  {
    Fresh(Run(md5, steps).value) && (steps != [] ==> AlwaysFresh(md5, steps[..|steps| - 1]))
  }

  /** In every interleaving: the states are fresh throughout if and only if no step disturbs. */
  lemma {:induction false} FreshExactly(md5: Bytes -> Bytes, steps: seq<Step>)
    requires Run(md5, steps).Some?
    ensures AlwaysFresh(md5, steps) <==> Undisturbed(md5, steps)
  {
    hide Fresh, Disturbs, Next, Enabled;
    if steps == [] {
      NewFresh();
    } else {
      var n := |steps| - 1;
      FreshExactly(md5, steps[..n]);
      if AlwaysFresh(md5, steps[..n]) {
        StepFresh(md5, Run(md5, steps[..n]).value, steps[n]);
      }
    }
  }

  lemma NewFresh()
    ensures Fresh(NEW)
  {
  }

  /** So in an undisturbed run the cache names the filer's file for every key that nobody is
      writing, and what a reader has looked up or finds cached is what the filer has. */
  lemma CacheCoherent(md5: Bytes -> Bytes, steps: seq<Step>, k: Bytes)
    requires Run(md5, steps).Some? && Undisturbed(md5, steps)
    ensures var s := Run(md5, steps).value;
            && (k in s.cache && !Writing(s, k) ==> FileOf(s.cache, k) == FileOf(s.filer, k))
            && forall e :: e in s.lookups ==> FileOf(s.filer, e.meta.key) == Some(e.meta.fileId)
  {
    hide Writing, FileOf;
    FreshExactly(md5, steps);
    var s := Run(md5, steps).value;
    forall e | e in s.lookups ensures FileOf(s.filer, e.meta.key) == Some(e.meta.fileId) {
      var i :| 0 <= i < |s.lookups| && s.lookups[i] == e;
      assert FillOf(s, ByLookup(i)) == Some(e.meta);
    }
  }

  // ---------------------------------------------------------------------------
  // Where a disturbance leads
  // ---------------------------------------------------------------------------

  lemma Extend(md5: Bytes -> Bytes, steps: seq<Step>, step: Step)
    requires Run(md5, steps).Some? && Enabled(Run(md5, steps).value, step)
    ensures Run(md5, steps + [step]) == Some(Next(md5, Run(md5, steps).value, step))
  {
    hide Next, Enabled;
    assert (steps + [step])[..|steps|] == steps;
  }

  /** The cache names another file than the filer, and nothing in progress would set it right:
      no deletion is about to take it out, and no filler has the filer's file. */
  ghost predicate Stale(s: Store, k: Bytes) {
    && k in s.cache && k !in s.deletes && FileOf(s.cache, k) != FileOf(s.filer, k)
    && forall x :: FillOf(s, x).Some? && FillOf(s, x).value.key == k ==> Some(FillOf(s, x).value.fileId) != FileOf(s.filer, k)
  }

  /** The state after a filler has written its entry into the cache. */
  ghost predicate Filled(s: Store, t: Store, x: Filler) {
    && FillOf(s, x).Some? && t.filer == s.filer
    && FileOf(t.cache, FillOf(s, x).value.key) == Some(FillOf(s, x).value.fileId)
    && (!x.ByLookup? ==> FillOf(t, x) == None && forall y :: y != x ==> FillOf(t, y) == FillOf(s, y))
    && (forall y :: FillOf(t, y).Some? ==> exists z :: FillOf(s, z) == FillOf(t, y))
    && t.deletes == s.deletes
  }

  lemma Fill(md5: Bytes -> Bytes, steps: seq<Step>, x: Filler) returns (more: seq<Step>)
    requires Run(md5, steps).Some? && FillOf(Run(md5, steps).value, x).Some?
    ensures Run(md5, steps + more).Some? && Filled(Run(md5, steps).value, Run(md5, steps + more).value, x)
  {
    hide Run, Filled;
    match x
    case ByPut(p) =>
      Extend(md5, steps, CachePut(p));
      more := [CachePut(p)];
      FilledByPut(md5, Run(md5, steps).value, p);
    case ByWorker =>
      more := FillByWorker(md5, steps);
    case ByLookup(i) =>
      Extend(md5, steps, CacheLookup(i));
      more := [CacheLookup(i)];
      FilledByLookup(md5, Run(md5, steps).value, i);
  }

  lemma FillByWorker(md5: Bytes -> Bytes, steps: seq<Step>) returns (more: seq<Step>)
    requires Run(md5, steps).Some? && FillOf(Run(md5, steps).value, ByWorker).Some?
    ensures Run(md5, steps + more).Some? && Filled(Run(md5, steps).value, Run(md5, steps + more).value, ByWorker)
  {
    hide Run, Filled;
    var s := Run(md5, steps).value;
    if s.worker.Registered? {
      Extend(md5, steps, Unpend);
      Extend(md5, steps + [Unpend], CacheRetried);
      more := [Unpend, CacheRetried];
      assert steps + [Unpend] + [CacheRetried] == steps + more;
      FilledByWorker(md5, Next(md5, s, Unpend));
      UnpendFills(md5, s, Next(md5, Next(md5, s, Unpend), CacheRetried));
    } else {
      Extend(md5, steps, CacheRetried);
      more := [CacheRetried];
      FilledByWorker(md5, s);
    }
  }

  lemma UnpendFills(md5: Bytes -> Bytes, s: Store, t: Store)
    requires s.worker.Registered? && Filled(Next(md5, s, Unpend), t, ByWorker)
    ensures Filled(s, t, ByWorker)
  {
    QuietFillers(md5, s, Unpend);
    hide FillOf;
  }

  lemma FilledByPut(md5: Bytes -> Bytes, s: Store, p: nat)
    requires FillOf(s, ByPut(p)).Some?
    ensures Filled(s, Next(md5, s, CachePut(p)), ByPut(p))
  {
    var t := Next(md5, s, CachePut(p));
    forall y | y != ByPut(p) ensures FillOf(t, y) == FillOf(s, y) {
    }
  }

  lemma FilledByWorker(md5: Bytes -> Bytes, s: Store)
    requires s.worker.Unpended?
    ensures Filled(s, Next(md5, s, CacheRetried), ByWorker)
  {
    var t := Next(md5, s, CacheRetried);
    forall y | y != ByWorker ensures FillOf(t, y) == FillOf(s, y) {
    }
  }

  lemma FilledByLookup(md5: Bytes -> Bytes, s: Store, i: nat)
    requires i < |s.lookups|
    ensures Filled(s, Next(md5, s, CacheLookup(i)), ByLookup(i))
  {
    var t := Next(md5, s, CacheLookup(i));
    forall y | FillOf(t, y).Some? ensures exists z :: FillOf(s, z) == FillOf(t, y) {
      LookupsShift(md5, s, i, y);
    }
  }

  /** The disturbing step's own operation ends with its cache write. */
  lemma Finish(md5: Bytes -> Bytes, steps: seq<Step>, step: Step) returns (more: seq<Step>)
    requires Run(md5, steps).Some? && Enabled(Run(md5, steps).value, step) && Touched(Run(md5, steps).value, step).Some?
    ensures Run(md5, steps + [step] + more).Some?
    ensures var s, t := Run(md5, steps).value, Run(md5, steps + [step] + more).value;
            && FileOf(t.filer, Touched(s, step).value.0) == Touched(s, step).value.1
            && forall x :: FillOf(t, x) == FillOf(s, x)
  {
    hide Run, Next, Enabled, FillOf, FileOf, Touched, Follows, OwnFiller;
    var s := Run(md5, steps).value;
    TouchingKinds(s, step);
    Extend(md5, steps, step);
    TouchingStep(md5, s, step);
    if OwnFiller(s, step).Some? {
      more := Fill(md5, steps + [step], OwnFiller(s, step).value);
    } else {
      more := [];
      assert steps + [step] + more == steps + [step];
    }
  }

  /** The deletions of a key in progress take it out of the cache. */
  lemma Drain(md5: Bytes -> Bytes, steps: seq<Step>, k: Bytes) returns (more: seq<Step>)
    requires Run(md5, steps).Some?
    ensures Run(md5, steps + more).Some?
    ensures var s, t := Run(md5, steps).value, Run(md5, steps + more).value;
            k !in t.deletes && t.filer == s.filer && forall x :: FillOf(t, x) == FillOf(s, x)
    decreases |Run(md5, steps).value.deletes|
  {
    hide Run, FillOf;
    var s := Run(md5, steps).value;
    if k in s.deletes {
      var i :| 0 <= i < |s.deletes| && s.deletes[i] == k;
      Extend(md5, steps, Uncache(i));
      UncacheEffect(md5, s, i);
      var rest := Drain(md5, steps + [Uncache(i)], k);
      more := [Uncache(i)] + rest;
      assert steps + [Uncache(i)] + rest == steps + more;
    } else {
      more := [];
      assert steps + more == steps;
    }
  }

  lemma TouchingKinds(s: Store, step: Step)
    requires Enabled(s, step) && Touched(s, step).Some?
    ensures step.Register? || step.Fallback? || step.Retry? || step.DeleteEntry?
  {
  }

  /** Every disturbance, of whatever kind, of a run that was fresh until then can end with a
      stale entry in the cache: the filler that was overtaken writes last. */
  lemma DisturbedGoesStale(md5: Bytes -> Bytes, steps: seq<Step>, step: Step) returns (more: seq<Step>, k: Bytes)
    requires Run(md5, steps).Some? && Fresh(Run(md5, steps).value)
    requires Enabled(Run(md5, steps).value, step) && Disturbs(Run(md5, steps).value, step)
    ensures Run(md5, steps + [step] + more).Some? && Stale(Run(md5, steps + [step] + more).value, k)
  {
    hide Run, Next, Enabled, FillOf, FileOf, Touched, Follows, Writing, FilerFiled;
    var s := Run(md5, steps).value;
    k := Touched(s, step).value.0;
    var file := Touched(s, step).value.1;
    if x :| FillOf(s, x).Some? && FillOf(s, x).value.key == k && Some(FillOf(s, x).value.fileId) != file {
      var own := Finish(md5, steps, step);
      var drain := Drain(md5, steps + [step] + own, k);
      var first := own + drain;
      assert steps + [step] + own + drain == steps + [step] + first;
      var t := Run(md5, steps + [step] + first).value;
      var last := Fill(md5, steps + [step] + first, x);
      more := first + last;
      assert steps + [step] + first + last == steps + [step] + more;
      FileOfSame(Run(md5, steps + [step] + own).value, t, k);
      var u := Run(md5, steps + [step] + more).value;
      OvertakenStale(s, t, u, x, k, file);
    } else {
      more := [];
      assert steps + [step] + more == steps + [step];
      Extend(md5, steps, step);
      LeftBehindStale(md5, s, step);
    }
  }

  lemma FileOfSame(s: Store, t: Store, k: Bytes)
    requires t.filer == s.filer
    ensures FileOf(t.filer, k) == FileOf(s.filer, k)
  {
  }

  lemma OvertakenStale(s: Store, t: Store, u: Store, x: Filler, k: Bytes, file: Option<Bytes>)
    requires Fresh(s) && FillOf(s, x).Some? && FillOf(s, x).value.key == k && Some(FillOf(s, x).value.fileId) != file
    requires FileOf(t.filer, k) == file && forall y :: FillOf(t, y) == FillOf(s, y)
    requires Filled(t, u, x) && k !in t.deletes
    ensures Stale(u, k)
  {
    hide FillOf, Writing, FilerFiled;
    forall y | FillOf(u, y).Some? && FillOf(u, y).value.key == k
      ensures Some(FillOf(u, y).value.fileId) != FileOf(u.filer, k)
    {
      var z :| FillOf(t, z) == FillOf(u, y);
      assert FillOf(s, z) == FillOf(t, z);
    }
  }

  lemma LeftBehindStale(md5: Bytes -> Bytes, s: Store, step: Step)
    requires Fresh(s) && Enabled(s, step) && Touched(s, step).Some? && !Follows(step)
    requires var k, file := Touched(s, step).value.0, Touched(s, step).value.1;
             && k in s.cache && FileOf(s.cache, k) != file && !Writing(s, k)
             && forall x :: FillOf(s, x).Some? && FillOf(s, x).value.key == k ==> Some(FillOf(s, x).value.fileId) == file
    ensures Stale(Next(md5, s, step), Touched(s, step).value.0)
  {
    hide Next, Enabled, FillOf, Touched, Follows, FilerFiled, OwnFiller;
    TouchingKinds(s, step);
    TouchingStep(md5, s, step);
    var t := Next(md5, s, step);
    assert forall x :: FillOf(t, x) == FillOf(s, x);
  }

  /** A Put that has registered its entry and not cached it yet. */
  lemma RegisterPut(md5: Bytes -> Bytes, steps: seq<Step>, k: Bytes, fileId: Bytes) returns (steps': seq<Step>, m: EntryMeta)
    requires Run(md5, steps).Some?
    ensures Run(md5, steps').Some? && m.key == k && m.fileId == fileId
    ensures var s, t := Run(md5, steps).value, Run(md5, steps').value;
            t.puts == s.puts + [Caching(m)] && t.filer == s.filer[k := Own(m)] && t.cache == s.cache
  {
    hide Run;
    var s := Run(md5, steps).value;
    var p := |s.puts|;
    Extend(md5, steps, BeginPut(k, []));
    var a := steps + [BeginPut(k, [])];
    Extend(md5, a, Assign(p, fileId, [], true, true));
    var b := a + [Assign(p, fileId, [], true, true)];
    Extend(md5, b, UploadData(p, true, true, true));
    var c := b + [UploadData(p, true, true, true)];
    Extend(md5, c, Register(p, true, true, true));
    steps' := c + [Register(p, true, true, true)];
    m := EntryMeta(k, fileId, [], 0, md5([]));
  }

  /** Two Puts of one key can register in one order and cache in the other; after that the
      cache names a file that the filer does not. */
  lemma CacheCanGoStale(md5: Bytes -> Bytes, k: Bytes, stale: Bytes, latest: Bytes) returns (steps: seq<Step>)
    requires stale != latest
    ensures Run(md5, steps).Some?
    ensures var s := Run(md5, steps).value;
            k in s.cache && k in s.filer && s.cache[k].meta.fileId == stale && s.filer[k].meta.fileId == latest
  {
    var first, m := RegisterPut(md5, [], k, stale);
    var second, n := RegisterPut(md5, first, k, latest);
    Extend(md5, second, CachePut(1));
    Extend(md5, second + [CachePut(1)], CachePut(0));
    steps := second + [CachePut(1)] + [CachePut(0)];
  }
}
