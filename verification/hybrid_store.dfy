/** The hybrid store with each public call atomic: what the calls do to the entry cache,
    the compensation table, the circuit breaker and the filer. */
module HybridStore {
  import opened Common
  import opened Breaker
  import opened HybridProtocol

  /** How one call to a server ends. */
  datatype Attempt = Succeeds | FailsRetryable | FailsFinal

  datatype CacheEntry = CacheEntry(meta: EntryMeta, expiresAt: int)

  /** Where the master puts a new file. */
  datatype Placement = Placement(fileId: Bytes, volumeId: Bytes)

  /** The answers one Put gets: where the master places the file, and how the calls end;
      `fallback` is the entry that the fallback path registers, if it succeeds. */
  datatype PutAnswers = PutAnswers(
    probeOk: bool,
    assign: nat -> Attempt,
    placed: Placement,
    upload: nat -> Attempt,
    create: nat -> Attempt,
    fallback: Option<EntryMeta>)

  /** How a Put ends. A fallback that stands in for a degraded store ends without an error;
      one that steps in after a failed assignment reports the degraded store, which the write
      queue takes for an error. */
  datatype PutResult = Stored | PendingCompensation | StoredByFallback | StoredDegraded | PutFailed

  /** A call succeeds if some attempt does and all before it failed retryably. */
  ghost predicate SucceedsWithin(outcome: nat -> Attempt, attempts: nat) {
    exists i :: 0 <= i < attempts && outcome(i) == Succeeds && AllRetryable(outcome, i)
  }

  ghost predicate AllRetryable(outcome: nat -> Attempt, n: nat) {
    forall j :: 0 <= j < n ==> outcome(j) == FailsRetryable
  }

  method RetryDo(outcome: nat -> Attempt) returns (ok: bool)
    ensures ok <==> SucceedsWithin(outcome, 3)
  {
    for attempt := 0 to RETRY_ATTEMPTS
      invariant AllRetryable(outcome, attempt)
    {
      var a := outcome(attempt);
      if a == Succeeds {
        return true;
      }
      if a == FailsFinal || attempt == RETRY_ATTEMPTS - 1 {
        return false;
      }
    }
    return false;
  }

  // ---------------------------------------------------------------------------
  // The calls on values
  // ---------------------------------------------------------------------------

  /** What the store keeps, and the filer's entries. */
  datatype Contents = Contents(
    filer: map<Bytes, EntryMeta>,
    cache: map<Bytes, CacheEntry>,
    pending: map<Bytes, EntryMeta>,
    queue: seq<EntryMeta>,
    control: Control)

  function Compensated(v: Contents, meta: EntryMeta): Contents {
    if meta.key in v.pending then v
    else v.(pending := v.pending[meta.key := meta],
            queue := if |v.queue| < QUEUE_CAPACITY then v.queue + [meta] else v.queue)
  }

  function Cached(v: Contents, meta: EntryMeta, now: int, ttl: int): Contents {
    v.(cache := v.cache[meta.key := CacheEntry(meta, now + ttl)])
  }

  /** What the fallback path does to the filer. */
  function Fallen(filer: map<Bytes, EntryMeta>, key: Bytes, entry: Option<EntryMeta>): map<Bytes, EntryMeta> {
    if entry.Some? then filer[key := entry.value] else filer
  }

  ghost predicate PutFallsBack(v: Contents, now: int, a: PutAnswers) {
    Check(v.control, now, a.probeOk).degraded || !SucceedsWithin(a.assign, RETRY_ATTEMPTS)
  }

  ghost function PutResultOf(v: Contents, now: int, a: PutAnswers): PutResult {
    if PutFallsBack(v, now, a) then
      if a.fallback.None? then PutFailed
      else if Check(v.control, now, a.probeOk).degraded then StoredByFallback
      else StoredDegraded
    else if !SucceedsWithin(a.upload, RETRY_ATTEMPTS) then PutFailed
    else if SucceedsWithin(a.create, RETRY_ATTEMPTS) then Stored
    else PendingCompensation
  }

  /** `entry` names the new file, with the size and MD5 of the bytes. */
  ghost function AfterPut(v: Contents, entry: EntryMeta, now: int, ttl: int, a: PutAnswers): Contents {
    var c := Check(v.control, now, a.probeOk);
    if PutFallsBack(v, now, a) then
      v.(filer := Fallen(v.filer, entry.key, a.fallback), control := if c.degraded then c else RecordFailure(c, now))
    else
      match PutResultOf(v, now, a)
      case Stored => Cached(v.(filer := v.filer[entry.key := entry], control := HEALTHY), entry, now, ttl)
      case PendingCompensation => Compensated(v.(control := RecordFailure(c, now)), entry)
      case _ => v.(control := c)
  }

  predicate IsCached(v: Contents, key: Bytes, now: int) {
    key in v.cache && now <= v.cache[key].expiresAt
  }

  /** The entry that a Get goes on with. */
  ghost function GetResultOf(v: Contents, key: Bytes, now: int, lookup: nat -> Attempt): Option<EntryMeta> {
    if IsCached(v, key, now) then Some(v.cache[key].meta)
    else if key in v.filer && SucceedsWithin(lookup, RETRY_ATTEMPTS) then Some(v.filer[key])
    else None
  }

  ghost function AfterGet(v: Contents, key: Bytes, now: int, ttl: int, lookup: nat -> Attempt): Contents {
    if !IsCached(v, key, now) && key in v.filer && SucceedsWithin(lookup, RETRY_ATTEMPTS)
    then Cached(v, v.filer[key], now, ttl) else v
  }

  ghost predicate DeleteFallsBack(v: Contents, now: int, probeOk: bool, outcome: nat -> Attempt) {
    Check(v.control, now, probeOk).degraded || !SucceedsWithin(outcome, RETRY_ATTEMPTS)
  }

  ghost function AfterDelete(v: Contents, key: Bytes, now: int, probeOk: bool, outcome: nat -> Attempt,
                             fallbackOk: bool): Contents {
    var c := Check(v.control, now, probeOk);
    if DeleteFallsBack(v, now, probeOk, outcome) then
      v.(filer := if fallbackOk then v.filer - {key} else v.filer, control := if c.degraded then c else RecordFailure(c, now))
    else
      v.(filer := v.filer - {key}, cache := v.cache - {key}, control := HEALTHY)
  }

  /** Three attempts, whatever the failures are. */
  predicate Created(outcome: nat -> Attempt) {
    exists i | 0 <= i < RETRY_ATTEMPTS :: outcome(i) == Succeeds
  }

  function AfterCompensate(v: Contents, now: int, ttl: int, outcome: nat -> Attempt): Contents
    requires v.queue != []
  {
    var meta, rest := v.queue[0], v.(queue := v.queue[1..]);
    if Created(outcome)
    then Cached(rest.(filer := v.filer[meta.key := meta], pending := v.pending - {meta.key}), meta, now, ttl)
    else rest
  }

  class SeaweedHybridStorage {
    const md5: Bytes -> Bytes
    const entryTTL: int
    var entryCache: map<Bytes, CacheEntry>
    var compPending: map<Bytes, EntryMeta>
    var compQueue: seq<EntryMeta>
    var failureCount: nat
    var windowStart: Option<int>
    var degraded: bool
    var nextProbe: Option<int>
    /** The filer's entries. */
    var filer: map<Bytes, EntryMeta>

    function Value(): Contents
      reads this
    {
      Contents(filer, entryCache, compPending, compQueue, Control())
    }

    constructor (md5: Bytes -> Bytes, entryTTL: int, filer: map<Bytes, EntryMeta>)
      ensures Value() == Contents(filer, map[], map[], [], HEALTHY)
      ensures this.md5 == md5 && this.entryTTL == entryTTL
    {
      this.md5, this.entryTTL, this.filer := md5, entryTTL, filer;
      entryCache, compPending, compQueue := map[], map[], [];
      failureCount, windowStart, degraded, nextProbe := 0, None, false, None;
    }

    function Control(): Control
      reads this
    {
      Breaker.Control.Control(failureCount, windowStart, degraded, nextProbe)
    }

    method ShouldUseFallback(now: int, probeOk: bool) returns (fallback: bool)
      modifies this`failureCount, this`windowStart, this`degraded, this`nextProbe
      ensures Control() == Check(old(Control()), now, probeOk)
      ensures fallback == degraded
    {
      if !degraded {
        return false;
      }
      if nextProbe.Some? && now < nextProbe.value {
        return true;
      }
      if !probeOk {
        degraded, nextProbe := true, Some(now + PROBE_DELAY);
        return true;
      }
      ClearControlFailures();
      return false;
    }

    method RecordControlFailure(now: int)
      modifies this`failureCount, this`windowStart, this`degraded, this`nextProbe
      ensures Control() == RecordFailure(old(Control()), now)
    {
      if windowStart.None? || now - windowStart.value > WINDOW {
        windowStart := Some(now);
        failureCount := 1;
      } else {
        failureCount := failureCount + 1;
      }
      if failureCount >= THRESHOLD {
        degraded := true;
        nextProbe := Some(now + PROBE_DELAY);
      }
    }

    method ClearControlFailures()
      modifies this`failureCount, this`windowStart, this`degraded, this`nextProbe
      ensures Control() == HEALTHY
    {
      failureCount, windowStart, degraded, nextProbe := 0, None, false, None;
    }

    method SetEntryCache(meta: EntryMeta, now: int)
      modifies this`entryCache
      ensures entryCache == old(entryCache)[meta.key := CacheEntry(meta, now + entryTTL)]
    {
      entryCache := entryCache[meta.key := CacheEntry(meta, now + entryTTL)];
    }

    /** The entry a Put registers: its file, and the size and MD5 of the bytes. */
    function NewEntry(key: Bytes, data: Bytes, a: Placement): EntryMeta {
      EntryMeta(key, a.fileId, a.volumeId, |data|, md5(data))
    }

    method Put(key: Bytes, data: Bytes, now: int, a: PutAnswers) returns (r: PutResult)
      modifies this
      ensures r == PutResultOf(old(Value()), now, a)
      ensures Value() == AfterPut(old(Value()), NewEntry(key, data, a.placed), now, entryTTL, a)
    {
      hide SucceedsWithin, Check, RecordFailure;
      var fallback := ShouldUseFallback(now, a.probeOk);
      if fallback {
        var ok := FallbackPut(key, a.fallback);
        return if ok then StoredByFallback else PutFailed;
      }
      var assignedOk := RetryDo(a.assign);
      if !assignedOk {
        RecordControlFailure(now);
        var ok := FallbackPut(key, a.fallback);
        return if ok then StoredDegraded else PutFailed;
      }
      var uploaded := RetryDo(a.upload);
      if !uploaded {
        return PutFailed;
      }
      var meta := NewEntry(key, data, a.placed);
      var created := RetryDo(a.create);
      if !created {
        RecordControlFailure(now);
        EnqueueCompensation(meta);
        return PendingCompensation;
      }
      filer := filer[key := meta];
      ClearControlFailures();
      SetEntryCache(meta, now);
      return Stored;
    }

    /** The fallback registers an entry of its own, or fails. */
    method FallbackPut(key: Bytes, entry: Option<EntryMeta>) returns (ok: bool)
      modifies this`filer
      ensures ok == entry.Some? && filer == Fallen(old(filer), key, entry)
    {
      if entry.None? {
        return false;
      }
      filer := filer[key := entry.value];
      return true;
    }

    /** The entry that a Get goes on with, from the cache or from the filer. */
    method GetEntry(key: Bytes, now: int, lookup: nat -> Attempt) returns (r: Option<EntryMeta>)
      modifies this`entryCache
      ensures r == GetResultOf(old(Value()), key, now, lookup)
      ensures Value() == AfterGet(old(Value()), key, now, entryTTL, lookup)
    {
      hide SucceedsWithin;
      if key in entryCache && now <= entryCache[key].expiresAt {
        return Some(entryCache[key].meta);
      }
      var found := RetryDo(lookup);
      if !found || key !in filer {
        return None;
      }
      SetEntryCache(filer[key], now);
      return Some(filer[key]);
    }

    method Delete(key: Bytes, now: int, probeOk: bool, outcome: nat -> Attempt, fallbackOk: bool) returns (ok: bool)
      modifies this
      ensures ok == (DeleteFallsBack(old(Value()), now, probeOk, outcome) ==> fallbackOk)
      ensures Value() == AfterDelete(old(Value()), key, now, probeOk, outcome, fallbackOk)
    {
      hide SucceedsWithin, Check, RecordFailure;
      var fallback := ShouldUseFallback(now, probeOk);
      if fallback {
        filer := if fallbackOk then filer - {key} else filer;
        return fallbackOk;
      }
      var deleted := RetryDo(outcome);
      if !deleted {
        RecordControlFailure(now);
        filer := if fallbackOk then filer - {key} else filer;
        return fallbackOk;
      }
      filer := filer - {key};
      entryCache := entryCache - {key};
      ClearControlFailures();
      return true;
    }

    method EnqueueCompensation(meta: EntryMeta)
      modifies this`compPending, this`compQueue
      ensures Value() == Compensated(old(Value()), meta)
    {
      if meta.key in compPending {
        return;
      }
      compPending := compPending[meta.key := meta];
      if |compQueue| < QUEUE_CAPACITY {
        compQueue := compQueue + [meta];
      }
    }

    /** One entry of the compensation queue. */
    method Compensate(now: int, outcome: nat -> Attempt) returns (created: bool)
      requires compQueue != []
      modifies this`compQueue, this`compPending, this`entryCache, this`filer
      ensures created == Created(outcome) && Value() == AfterCompensate(old(Value()), now, entryTTL, outcome)
    {
      var meta := compQueue[0];
      compQueue := compQueue[1..];
      for attempt := 0 to RETRY_ATTEMPTS
        invariant forall j :: 0 <= j < attempt ==> outcome(j) != Succeeds
        invariant Value() == old(Value()).(queue := old(compQueue)[1..])
      {
        if outcome(attempt) == Succeeds {
          filer := filer[meta.key := meta];
          compPending := compPending - {meta.key};
          SetEntryCache(meta, now);
          return true;
        }
      }
      return false;
    }
  }

  // ---------------------------------------------------------------------------
  // Cache coherence
  // ---------------------------------------------------------------------------

  /** A call of the store. A call of the worker with nothing queued has no effect. */
  datatype Call =
    | PutCall(entry: EntryMeta, now: int, a: PutAnswers)
    | GetCall(key: Bytes, now: int, lookup: nat -> Attempt)
    | DeleteCall(key: Bytes, now: int, probeOk: bool, outcome: nat -> Attempt, fallbackOk: bool)
    | CompensateCall(now: int, outcome: nat -> Attempt)

  /** The effect of the class's methods, as their postconditions state it. */
  ghost function After(v: Contents, c: Call, ttl: int): Contents {
    match c
    case PutCall(entry, now, a) => AfterPut(v, entry, now, ttl, a)
    case GetCall(key, now, lookup) => AfterGet(v, key, now, ttl, lookup)
    case DeleteCall(key, now, probeOk, outcome, fallbackOk) => AfterDelete(v, key, now, probeOk, outcome, fallbackOk)
    case CompensateCall(now, outcome) => if v.queue == [] then v else AfterCompensate(v, now, ttl, outcome)
  }

  ghost function RunCalls(v: Contents, calls: seq<Call>, ttl: int): Contents {
    if calls == [] then v else After(RunCalls(v, calls[..|calls| - 1], ttl), calls[|calls| - 1], ttl)
  }

  /** The filer files every entry under its own key, and so does the fallback. */
  ghost predicate Filed(v: Contents) {
    forall k :: k in v.filer ==> v.filer[k].key == k
  }

  predicate KeyedCall(c: Call) {
    c.PutCall? && c.a.fallback.Some? ==> c.a.fallback.value.key == c.entry.key
  }

  /** The cached file of a key is the filer's. */
  predicate Agrees(v: Contents, k: Bytes) {
    k in v.cache ==> k in v.filer && v.cache[k].meta.fileId == v.filer[k].fileId
  }

  /** Every cached entry names the file that the filer has for its key. */
  ghost predicate Coherent(v: Contents) {
    Filed(v) && forall k :: Agrees(v, k)
  }

  /** The fallback path changes the filer and leaves the cache: it replaces a cached file by
      another one, or deletes a cached entry. */
  ghost predicate LeavesCache(v: Contents, c: Call) {
    match c
    case PutCall(entry, now, a) =>
      PutFallsBack(v, now, a) && a.fallback.Some?
      && entry.key in v.cache && v.cache[entry.key].meta.fileId != a.fallback.value.fileId
    case DeleteCall(key, now, probeOk, outcome, fallbackOk) =>
      DeleteFallsBack(v, now, probeOk, outcome) && fallbackOk && key in v.cache
    case _ => false
  }

  lemma PutCoherent(v: Contents, entry: EntryMeta, now: int, ttl: int, a: PutAnswers)
    requires Coherent(v) && KeyedCall(PutCall(entry, now, a))
    ensures Coherent(AfterPut(v, entry, now, ttl, a)) <==> !LeavesCache(v, PutCall(entry, now, a))
  {
    hide SucceedsWithin, Check, RecordFailure, PutFallsBack, PutResultOf;
    var t := AfterPut(v, entry, now, ttl, a);
    assert Filed(t);
    forall k | k != entry.key ensures Agrees(t, k) {
      assert Agrees(v, k);
    }
    assert Agrees(v, entry.key);
    assert Coherent(t) <==> Agrees(t, entry.key);
  }

  lemma GetCoherent(v: Contents, key: Bytes, now: int, ttl: int, lookup: nat -> Attempt)
    requires Coherent(v)
    ensures Coherent(AfterGet(v, key, now, ttl, lookup))
  {
    hide SucceedsWithin;
    forall k ensures Agrees(AfterGet(v, key, now, ttl, lookup), k) {
      assert Agrees(v, k);
    }
  }

  lemma DeleteCoherent(v: Contents, key: Bytes, now: int, probeOk: bool, outcome: nat -> Attempt, fallbackOk: bool)
    requires Coherent(v)
    ensures Coherent(AfterDelete(v, key, now, probeOk, outcome, fallbackOk))
       <==> !LeavesCache(v, DeleteCall(key, now, probeOk, outcome, fallbackOk))
  {
    hide SucceedsWithin, Check, RecordFailure, DeleteFallsBack;
    var t := AfterDelete(v, key, now, probeOk, outcome, fallbackOk);
    forall k | k != key ensures Agrees(t, k) {
      assert Agrees(v, k);
    }
    assert Agrees(v, key);
    assert Coherent(t) <==> Agrees(t, key);
  }

  lemma CompensateCoherent(v: Contents, now: int, ttl: int, outcome: nat -> Attempt)
    requires Coherent(v) && v.queue != []
    ensures Coherent(AfterCompensate(v, now, ttl, outcome))
  {
    hide Created;
    forall k ensures Agrees(AfterCompensate(v, now, ttl, outcome), k) {
      assert Agrees(v, k);
    }
  }

  /** Exactly when a call keeps the cache coherent. */
  lemma CallCoherent(v: Contents, c: Call, ttl: int)
    requires Coherent(v) && KeyedCall(c)
    ensures Coherent(After(v, c, ttl)) <==> !LeavesCache(v, c)
  {
    hide Coherent, AfterPut, AfterGet, AfterDelete, AfterCompensate;
    match c
    case PutCall(entry, now, a) => PutCoherent(v, entry, now, ttl, a);
    case GetCall(key, now, lookup) => GetCoherent(v, key, now, ttl, lookup);
    case DeleteCall(key, now, probeOk, outcome, fallbackOk) => DeleteCoherent(v, key, now, probeOk, outcome, fallbackOk);
    case CompensateCall(now, outcome) =>
      if v.queue != [] {
        CompensateCoherent(v, now, ttl, outcome);
      }
  }

  /** Every state of the run is coherent. */
  ghost predicate AlwaysCoherent(v: Contents, calls: seq<Call>, ttl: int) {
    Coherent(RunCalls(v, calls, ttl)) && (calls != [] ==> AlwaysCoherent(v, calls[..|calls| - 1], ttl))
  }

  /** No call of the run leaves a cached entry behind. */
  ghost predicate NeverLeaves(v: Contents, calls: seq<Call>, ttl: int) {
    calls == [] ||
    var n := |calls| - 1;
    NeverLeaves(v, calls[..n], ttl) && !LeavesCache(RunCalls(v, calls[..n], ttl), calls[n])
  }

  /** Over every run of atomic calls: the cache is coherent throughout if and only if no call
      takes the fallback path in a way that leaves a cached entry behind. */
  lemma {:induction false} RunCoherent(v: Contents, calls: seq<Call>, ttl: int)
    requires Coherent(v) && forall c :: c in calls ==> KeyedCall(c)
    ensures AlwaysCoherent(v, calls, ttl) <==> NeverLeaves(v, calls, ttl)
  {
    hide Coherent, LeavesCache, KeyedCall, After;
    if calls != [] {
      var n := |calls| - 1;
      assert calls[n] in calls;
      RunCoherent(v, calls[..n], ttl);
      if AlwaysCoherent(v, calls[..n], ttl) {
        CallCoherent(RunCalls(v, calls[..n], ttl), calls[n], ttl);
      }
    }
  }

  /** With a coherent cache a Get goes on with the file it would have found without one. */
  lemma CachedGet(v: Contents, key: Bytes, now: int, lookup: nat -> Attempt)
    requires Coherent(v) && SucceedsWithin(lookup, RETRY_ATTEMPTS)
    ensures var r, uncached := GetResultOf(v, key, now, lookup), GetResultOf(v.(cache := map[]), key, now, lookup);
            && (r.Some? <==> uncached.Some?)
            && (r.Some? ==> r.value.fileId == uncached.value.fileId)
  {
    hide SucceedsWithin;
    assert Agrees(v, key);
  }

  // ---------------------------------------------------------------------------
  // What a Get returns after a call
  // ---------------------------------------------------------------------------

  /** A Get of the key returns this entry within its time in the cache, whatever its lookup
      does, and later if its lookup succeeds. */
  ghost predicate Gets(v: Contents, key: Bytes, entry: EntryMeta, until: int) {
    && (forall later, lookup :: later <= until ==> GetResultOf(v, key, later, lookup) == Some(entry))
    && (forall later, lookup :: SucceedsWithin(lookup, 3) ==> GetResultOf(v, key, later, lookup) == Some(entry))
  }

  /** Every Get of the key returns the same as before. */
  ghost predicate GetsSame(v: Contents, v': Contents, key: Bytes) {
    forall later, lookup :: GetResultOf(v', key, later, lookup) == GetResultOf(v, key, later, lookup)
  }

  /** The key is in the cache and the filer as before. */
  lemma SameGets(v: Contents, v': Contents, key: Bytes)
    requires key in v.filer <==> key in v'.filer
    requires key in v.filer ==> v.filer[key] == v'.filer[key]
    requires key in v.cache <==> key in v'.cache
    requires key in v.cache ==> v.cache[key] == v'.cache[key]
    ensures GetsSame(v, v', key)
  {
    hide SucceedsWithin;
  }

  lemma CachedGets(v: Contents, entry: EntryMeta, now: int, ttl: int)
    requires entry.key in v.filer && v.filer[entry.key] == entry
    ensures Gets(Cached(v, entry, now, ttl), entry.key, entry, now + ttl)
  {
    hide SucceedsWithin;
  }

  /** With the breaker not tripped, an assignment, an upload and a registration that succeed
      store the object: from then on a Get returns it. No Put changes the Gets of other keys. */
  lemma PutThenGet(v: Contents, entry: EntryMeta, now: int, ttl: int, a: PutAnswers)
    ensures PutResultOf(v, now, a) == Stored <==>
              !Check(v.control, now, a.probeOk).degraded
              && SucceedsWithin(a.assign, 3) && SucceedsWithin(a.upload, 3) && SucceedsWithin(a.create, 3)
    ensures var v' := AfterPut(v, entry, now, ttl, a);
            && (PutResultOf(v, now, a) == Stored ==> Gets(v', entry.key, entry, now + ttl))
            && forall k :: k != entry.key ==> GetsSame(v, v', k)
  {
    hide SucceedsWithin, Check, Gets, GetsSame;
    var v' := AfterPut(v, entry, now, ttl, a);
    forall k | k != entry.key ensures GetsSame(v, v', k) {
      hide GetResultOf;
      SameGets(v, v', k);
    }
    if PutResultOf(v, now, a) == Stored {
      CachedGets(v.(filer := v.filer[entry.key := entry], control := HEALTHY), entry, now, ttl);
    }
  }

  /** A Put that uploads its file but does not register it, or fails to upload it, changes no
      Get; one that falls back leaves what is cached and otherwise registers the fallback's
      entry. The result tells which it was. */
  lemma PutElseGet(v: Contents, entry: EntryMeta, now: int, ttl: int, a: PutAnswers)
    ensures var r, degraded := PutResultOf(v, now, a), Check(v.control, now, a.probeOk).degraded;
            && (r.PendingCompensation? <==>
                  !degraded && SucceedsWithin(a.assign, 3) && SucceedsWithin(a.upload, 3) && !SucceedsWithin(a.create, 3))
            && (r.StoredByFallback? <==> degraded && a.fallback.Some?)
            && (r.StoredDegraded? <==> !degraded && !SucceedsWithin(a.assign, 3) && a.fallback.Some?)
    ensures var v', r := AfterPut(v, entry, now, ttl, a), PutResultOf(v, now, a);
            && (r.PendingCompensation? || r.PutFailed? ==> forall k :: GetsSame(v, v', k))
            && (r.StoredByFallback? || r.StoredDegraded? ==>
                  a.fallback.Some? && v'.cache == v.cache && v'.filer == v.filer[entry.key := a.fallback.value])
  {
    hide SucceedsWithin, Check, GetsSame;
    var v' := AfterPut(v, entry, now, ttl, a);
    if PutResultOf(v, now, a).PendingCompensation? || PutResultOf(v, now, a).PutFailed? {
      forall k ensures GetsSame(v, v', k) {
        hide GetResultOf;
        SameGets(v, v', k);
      }
    }
  }

  /** After a deletion off the fallback path no Get finds the key; a fallback that deletes it
      leaves it to be found in the cache only. Other keys are as before. */
  lemma DeleteThenGet(v: Contents, key: Bytes, now: int, probeOk: bool, outcome: nat -> Attempt, fallbackOk: bool)
    ensures var v' := AfterDelete(v, key, now, probeOk, outcome, fallbackOk);
            && (!Check(v.control, now, probeOk).degraded && SucceedsWithin(outcome, 3) ==>
                  forall later, lookup :: GetResultOf(v', key, later, lookup) == None)
            && (Check(v.control, now, probeOk).degraded || !SucceedsWithin(outcome, 3) ==>
                  if fallbackOk
                  then forall later, lookup :: GetResultOf(v', key, later, lookup) ==
                         if key in v.cache && later <= v.cache[key].expiresAt then Some(v.cache[key].meta) else None
                  else GetsSame(v, v', key))
            && forall k :: k != key ==> GetsSame(v, v', k)
  {
    hide SucceedsWithin, Check, GetsSame;
    var v' := AfterDelete(v, key, now, probeOk, outcome, fallbackOk);
    forall k | k != key || (DeleteFallsBack(v, now, probeOk, outcome) && !fallbackOk) ensures GetsSame(v, v', k) {
      SameGets(v, v', k);
    }
  }

  /** What a Get has looked up is found again without a lookup as long as it is cached; a Get of a
      cached entry, or one that finds none, changes nothing, and no Get changes the Gets of other
      keys. */
  lemma GetThenGet(v: Contents, key: Bytes, now: int, ttl: int, lookup: nat -> Attempt)
    requires Filed(v)
    ensures var v', r := AfterGet(v, key, now, ttl, lookup), GetResultOf(v, key, now, lookup);
            && (r.Some? && !(key in v.cache && now <= v.cache[key].expiresAt) ==> Gets(v', key, r.value, now + ttl))
            && (r.None? || (key in v.cache && now <= v.cache[key].expiresAt) ==> v' == v)
            && (r.Some? <==> (key in v.cache && now <= v.cache[key].expiresAt) || (key in v.filer && SucceedsWithin(lookup, 3)))
            && forall k :: k != key ==> GetsSame(v, v', k)
  {
    hide SucceedsWithin, Gets, GetsSame;
    var v' := AfterGet(v, key, now, ttl, lookup);
    forall k | k != key ensures GetsSame(v, v', k) {
      SameGets(v, v', k);
    }
    if !IsCached(v, key, now) && key in v.filer && SucceedsWithin(lookup, 3) {
      CachedGets(v, v.filer[key], now, ttl);
    }
  }

  /** A compensation of which one of three attempts succeeds makes Gets return the first entry
      of the queue, which is pending no longer; otherwise no Get changes. */
  lemma CompensateThenGet(v: Contents, now: int, ttl: int, outcome: nat -> Attempt)
    requires v.queue != []
    ensures var v', m := AfterCompensate(v, now, ttl, outcome), v.queue[0];
            && v'.queue == v.queue[1..]
            && ((exists i :: 0 <= i < 3 && outcome(i) == Succeeds) ==>
                  Gets(v', m.key, m, now + ttl) && m.key !in v'.pending)
            && (!(exists i :: 0 <= i < 3 && outcome(i) == Succeeds) ==> GetsSame(v, v', m.key) && v'.pending == v.pending)
            && forall k :: k != m.key ==> GetsSame(v, v', k) && (k in v.pending <==> k in v'.pending)
  {
    hide SucceedsWithin, Gets, GetsSame;
    var v', m := AfterCompensate(v, now, ttl, outcome), v.queue[0];
    forall k | k != m.key || !Created(outcome) ensures GetsSame(v, v', k) {
      hide GetResultOf;
      SameGets(v, v', k);
    }
    if Created(outcome) {
      var rest := v.(queue := v.queue[1..], filer := v.filer[m.key := m], pending := v.pending - {m.key});
      CachedGets(rest, m, now, ttl);
    }
  }

  /** An entry that is left pending is remembered: its key is pending, and if it was not before,
      with this very entry, which is last in the queue if there was room. */
  lemma PendingIsQueued(v: Contents, entry: EntryMeta, now: int, ttl: int, a: PutAnswers)
    requires PutResultOf(v, now, a) == PendingCompensation
    ensures var v' := AfterPut(v, entry, now, ttl, a);
            && entry.key in v'.pending
            && (entry.key in v.pending ==> v'.pending == v.pending && v'.queue == v.queue)
            && (entry.key !in v.pending ==>
                  v'.pending[entry.key] == entry && v'.queue == if |v.queue| < 1024 then v.queue + [entry] else v.queue)
  {
    hide SucceedsWithin, Check;
  }

  /** Compensations of the entries before it, whatever comes of them, bring a queued entry to
      the head, and one more with a succeeding attempt makes Gets return it. */
  lemma {:induction false} QueuedThenGet(v: Contents, calls: seq<Call>, ttl: int, now: int, outcome: nat -> Attempt)
    requires |calls| < |v.queue| && (forall c :: c in calls ==> c.CompensateCall?)
    requires exists i :: 0 <= i < 3 && outcome(i) == Succeeds
    ensures var v', m := RunCalls(v, calls, ttl), v.queue[|calls|];
            && v'.queue == v.queue[|calls|..]
            && Gets(After(v', CompensateCall(now, outcome), ttl), m.key, m, now + ttl)
  {
    hide Gets, AfterCompensate;
    QueueAdvances(v, calls, ttl);
    CompensateThenGet(RunCalls(v, calls, ttl), now, ttl, outcome);
  }

  lemma {:induction false} QueueAdvances(v: Contents, calls: seq<Call>, ttl: int)
    requires |calls| <= |v.queue| && (forall c :: c in calls ==> c.CompensateCall?)
    ensures RunCalls(v, calls, ttl).queue == v.queue[|calls|..]
  {
    if calls != [] {
      var n := |calls| - 1;
      assert calls[n] in calls;
      QueueAdvances(v, calls[..n], ttl);
      assert v.queue[n..][1..] == v.queue[n + 1..];
    }
  }

  // ---------------------------------------------------------------------------
  // What a Get returns after a run
  // ---------------------------------------------------------------------------

  /** The call registers this entry: a Put that stores it, or its compensation. */
  ghost predicate Registers(v: Contents, c: Call, entry: EntryMeta) {
    match c
    case PutCall(e, now, a) => e == entry && PutResultOf(v, now, a) == Stored
    case CompensateCall(_, outcome) =>
      v.queue != [] && v.queue[0] == entry && exists i :: 0 <= i < 3 && outcome(i) == Succeeds
    case _ => false
  }

  /** The call may change what is registered for the key: it registers an entry of it, falls
      back for it, or deletes it. */
  ghost predicate Touches(v: Contents, c: Call, key: Bytes) {
    match c
    case PutCall(e, now, a) => e.key == key && !PutResultOf(v, now, a).PendingCompensation? && !PutResultOf(v, now, a).PutFailed?
    case CompensateCall(_, outcome) => v.queue != [] && v.queue[0].key == key
    case DeleteCall(k, _, _, _, _) => k == key
    case GetCall(_, _, _) => false
  }

  /** The filer has the entry, and the cache has no other one for its key. */
  predicate Holds(v: Contents, entry: EntryMeta) {
    && entry.key in v.filer && v.filer[entry.key] == entry
    && (entry.key in v.cache ==> v.cache[entry.key].meta == entry)
  }

  lemma RegistersHolds(v: Contents, c: Call, ttl: int, entry: EntryMeta)
    requires Registers(v, c, entry)
    ensures Holds(After(v, c, ttl), entry)
  {
    hide SucceedsWithin, Check;
  }

  lemma UntouchedHolds(v: Contents, c: Call, ttl: int, entry: EntryMeta)
    requires Holds(v, entry) && Filed(v) && !Touches(v, c, entry.key)
    ensures Holds(After(v, c, ttl), entry)
  {
    hide SucceedsWithin, Check;
  }

  lemma FiledCall(v: Contents, c: Call, ttl: int)
    requires Filed(v) && KeyedCall(c)
    ensures Filed(After(v, c, ttl))
  {
    hide SucceedsWithin, Check;
  }

  lemma {:induction false} FiledRun(v: Contents, calls: seq<Call>, ttl: int)
    requires Filed(v) && forall c :: c in calls ==> KeyedCall(c)
    ensures Filed(RunCalls(v, calls, ttl))
  {
    hide Filed, KeyedCall, After;
    if calls != [] {
      var n := |calls| - 1;
      assert calls[n] in calls;
      FiledRun(v, calls[..n], ttl);
      FiledCall(RunCalls(v, calls[..n], ttl), calls[n], ttl);
    }
  }

  lemma {:induction false} LastHolds(v: Contents, calls: seq<Call>, ttl: int, i: nat, entry: EntryMeta)
    requires Filed(v) && (forall c :: c in calls ==> KeyedCall(c)) && i < |calls|
    requires Registers(RunCalls(v, calls[..i], ttl), calls[i], entry)
    requires forall j :: i < j < |calls| ==> !Touches(RunCalls(v, calls[..j], ttl), calls[j], entry.key)
    ensures Holds(RunCalls(v, calls, ttl), entry)
  {
    hide Filed, KeyedCall, After, Registers, Touches, Holds;
    var n := |calls| - 1;
    var pre := calls[..n];
    if i == n {
      RegistersHolds(RunCalls(v, pre, ttl), calls[n], ttl, entry);
    } else {
      assert forall j :: 0 <= j <= n ==> pre[..j] == calls[..j];
      LastHolds(v, pre, ttl, i, entry);
      FiledRun(v, pre, ttl);
      UntouchedHolds(RunCalls(v, pre, ttl), calls[n], ttl, entry);
    }
  }

  /** Over every run: a Get whose lookup succeeds returns the last entry that has been stored or
      compensated for its key, if no fallback, deletion or compensation has touched that since. */
  lemma LastStoredGets(v: Contents, calls: seq<Call>, ttl: int, i: nat, entry: EntryMeta, later: int, lookup: nat -> Attempt)
    requires Filed(v) && (forall c :: c in calls ==> KeyedCall(c)) && i < |calls|
    requires Registers(RunCalls(v, calls[..i], ttl), calls[i], entry)
    requires forall j :: i < j < |calls| ==> !Touches(RunCalls(v, calls[..j], ttl), calls[j], entry.key)
    requires SucceedsWithin(lookup, 3)
    ensures GetResultOf(RunCalls(v, calls, ttl), entry.key, later, lookup) == Some(entry)
  {
    hide SucceedsWithin, RunCalls, Registers, Touches, KeyedCall, Filed;
    LastHolds(v, calls, ttl, i, entry);
  }

  // ---------------------------------------------------------------------------
  // Calls and the breaker
  // ---------------------------------------------------------------------------

  /** A Put of which the master's assignment or the filer's registration fails counts as a
      failure, one that stores its object clears the breaker, and one that fails to upload
      does neither. */
  lemma PutCounts(v: Contents, entry: EntryMeta, now: int, ttl: int, a: PutAnswers)
    requires !Check(v.control, now, a.probeOk).degraded
    ensures var c, c' := Check(v.control, now, a.probeOk), AfterPut(v, entry, now, ttl, a).control;
            if !SucceedsWithin(a.assign, 3) then c' == Breaker.Next(c, Failure(now))
            else if !SucceedsWithin(a.upload, 3) then c' == c
            else c' == Breaker.Next(c, if SucceedsWithin(a.create, 3) then Clear(now) else Failure(now))
  {
    hide SucceedsWithin, Check, RecordFailure;
  }

  /** So does a deletion; neither Gets nor compensations count. */
  lemma DeleteCounts(v: Contents, c: Call, ttl: int)
    requires c.DeleteCall? ==> !Check(v.control, c.now, c.probeOk).degraded
    ensures c.DeleteCall? ==>
              After(v, c, ttl).control ==
                Breaker.Next(Check(v.control, c.now, c.probeOk),
                             if SucceedsWithin(c.outcome, 3) then Clear(c.now) else Failure(c.now))
    ensures c.GetCall? || c.CompensateCall? ==> After(v, c, ttl).control == v.control
  {
    hide SucceedsWithin, Check, RecordFailure;
  }

  /** A Put that fails at the master or the filer. */
  ghost predicate ControlFails(a: PutAnswers) {
    !SucceedsWithin(a.assign, 3) || (SucceedsWithin(a.upload, 3) && !SucceedsWithin(a.create, 3))
  }

  /** Such Puts, all within thirty seconds of the first. */
  ghost predicate FailingPuts(calls: seq<Call>, first: int) {
    forall c :: c in calls ==> c.PutCall? && ControlFails(c.a) && first <= c.now <= first + 30 * SECOND
  }

  /** The breaker after n failures of a window that none has filled before the twentieth. */
  predicate Counted(c: Control, n: nat, first: int, last: int) {
    && c.failures == n && c.windowStart == Some(first) && (c.degraded <==> n == 20)
    && (c.degraded ==> c.nextProbe == Some(last + 5 * SECOND))
  }

  lemma CountOne(c: Control, n: nat, first: int, last: int, now: int)
    requires if n == 0 then c == HEALTHY && now == first else Counted(c, n, first, last)
    requires n < 20 && first <= now <= first + 30 * SECOND
    ensures !Check(c, now, true).degraded && Check(c, now, true) == Check(c, now, false) == c
    ensures Counted(Breaker.Next(c, Failure(now)), n + 1, first, now)
  {
  }

  lemma {:induction false} FailuresCount(v: Contents, calls: seq<Call>, ttl: int, first: int)
    requires v.control == HEALTHY && FailingPuts(calls, first) && calls != [] && calls[0].now == first && |calls| <= 20
    ensures Counted(RunCalls(v, calls, ttl).control, |calls|, first, calls[|calls| - 1].now)
  {
    hide SucceedsWithin, Check, Counted, AfterPut;
    var n := |calls| - 1;
    var c, before := calls[n], RunCalls(v, calls[..n], ttl);
    assert c in calls;
    if n > 0 {
      FailuresCount(v, calls[..n], ttl, first);
      CountOne(before.control, n, first, calls[n - 1].now, c.now);
    } else {
      CountOne(before.control, 0, first, first, c.now);
    }
    PutCounts(before, c.entry, c.now, ttl, c.a);
  }

  /** Twenty such Puts trip a healthy store: for the next five seconds every Put goes to the
      fallback without calling the master, whatever the master would answer. */
  lemma TwentyFailuresTrip(v: Contents, calls: seq<Call>, ttl: int, first: int, entry: EntryMeta, now: int, a: PutAnswers)
    requires v.control == HEALTHY && |calls| == 20 && FailingPuts(calls, first) && calls[0].now == first
    requires now < calls[19].now + 5 * SECOND
    ensures var t := RunCalls(v, calls, ttl);
            && PutResultOf(t, now, a) == (if a.fallback.Some? then StoredByFallback else PutFailed)
            && AfterPut(t, entry, now, ttl, a).control == t.control
  {
    hide RunCalls, SucceedsWithin, FailingPuts;
    FailuresCount(v, calls, ttl, first);
    assert now < calls[|calls| - 1].now + 5 * SECOND;
  }
}
