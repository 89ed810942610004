/** The write queue: submitters, a bounded channel and workers that store the objects of a
    batch of jobs before they index it. */
module AsyncWriter {
  import opened Common
  import opened Index
  import opened StreamRecorder

  const MAX_BATCH_SIZE: nat := 10

  /** A job with the bytes it occupies in memory. */
  datatype Job = Job(write: WriteJob, size: nat)

  /** The job brings an init segment to store. */
  predicate HasInit(j: Job) {
    j.write.initData.Some? && j.write.meta.initKey != []
  }

  /** What Put reports: success, an entry left to the compensation queue, or an error. */
  datatype PutAnswer = Stored | PendingCompensation | PutError

  // ---------------------------------------------------------------------------
  // One batch, as a worker processes it
  // ---------------------------------------------------------------------------

  /** The keys a job's objects are stored under, in the order of the Puts. */
  function KeysOf(j: Job): seq<Bytes> {
    (if HasInit(j) then [j.write.meta.initKey] else []) + [j.write.meta.objectKey]
  }

  function BatchKeys(jobs: seq<Job>): seq<Bytes> {
    if jobs == [] then [] else BatchKeys(jobs[..|jobs| - 1]) + KeysOf(jobs[|jobs| - 1])
  }

  function ItemsOf(jobs: seq<Job>): (items: seq<Item>)
    ensures |items| == |jobs|
    ensures forall i :: 0 <= i < |jobs| ==> items[i].camera == jobs[i].write.camera && items[i].meta == jobs[i].write.meta
  {
    seq(|jobs|, i requires 0 <= i < |jobs| => Item(jobs[i].write.camera, jobs[i].write.meta))
  }

  /** `answer` is what the storage reports for each key. The index is only written after
      every Put has succeeded or is pending, and then for the whole batch or not at all. */
  method ProcessBatch(jobs: seq<Job>, answer: Bytes -> PutAnswer, index: BoltIndex, commit: bool)
    returns (ok: bool, stored: seq<Bytes>)
    requires index.Valid()
    modifies index
    ensures index.Valid()
    ensures stored <= BatchKeys(jobs) && forall k :: k in stored ==> answer(k) != PutError
    ensures ok ==> stored == BatchKeys(jobs) && index.State() == WriteItems(old(index.State()), ItemsOf(jobs))
    ensures !ok ==> index.State() == old(index.State())
    // an indexed batch has every fragment stored, and every init segment before its fragment
    ensures ok ==> forall i :: 0 <= i < |jobs| ==>
              && jobs[i].write.meta.objectKey in stored
              && (jobs[i].write.initData.Some? && jobs[i].write.meta.initKey != [] ==>
                    Before(stored, jobs[i].write.meta.initKey, jobs[i].write.meta.objectKey))
    // the batch is indexed unless one of these fails
    ensures ok <==>
              && (forall i :: 0 <= i < |jobs| ==>
                    && answer(jobs[i].write.meta.objectKey) != PutError
                    && (jobs[i].write.initData.Some? && jobs[i].write.meta.initKey != [] ==>
                          answer(jobs[i].write.meta.initKey) != PutError))
              && (jobs == [] || (commit && (index.useV2 ==> forall i :: 0 <= i < |jobs| ==> jobs[i].write.camera != [])))
  {
    hide BatchKeys, ItemsOf, WriteItems, Before;
    stored := [];
    NoKeys(jobs);
    NamedItems(jobs);
    for i := 0 to |jobs|
      invariant stored == BatchKeys(jobs[..i]) && stored <= BatchKeys(jobs)
      invariant forall j :: 0 <= j < i ==>
                  && answer(jobs[j].write.meta.objectKey) != PutError
                  && (HasInit(jobs[j]) ==> answer(jobs[j].write.meta.initKey) != PutError)
                  && jobs[j].write.meta.objectKey in stored
                  && (HasInit(jobs[j]) ==> Before(stored, jobs[j].write.meta.initKey, jobs[j].write.meta.objectKey))
      invariant forall k :: k in stored ==> answer(k) != PutError
      invariant index.Valid() && index.State() == old(index.State())
    {
      BatchKeysPrefix(jobs, i);
      var meta := jobs[i].write.meta;
      ghost var before := stored;
      if HasInit(jobs[i]) {
        if answer(meta.initKey) == PutError {
          return false, stored;
        }
        stored := stored + [meta.initKey];
      }
      if answer(meta.objectKey) == PutError {
        return false, stored;
      }
      stored := stored + [meta.objectKey];
      LaterKeys(before, stored, jobs[i]);
    }
    assert jobs[..|jobs|] == jobs;
    ok := index.BatchWriteGOP(ItemsOf(jobs), commit);
  }

  /** One key has been put before another. */
  ghost predicate Before(stored: seq<Bytes>, first: Bytes, second: Bytes) {
    exists a, b :: 0 <= a < b < |stored| && stored[a] == first && stored[b] == second
  }

  /** The keys of one more job. */
  lemma LaterKeys(before: seq<Bytes>, stored: seq<Bytes>, j: Job)
    requires stored == before + (if HasInit(j) then [j.write.meta.initKey] else []) + [j.write.meta.objectKey]
    ensures forall k :: k in before ==> k in stored
    ensures forall a, b :: Before(before, a, b) ==> Before(stored, a, b)
    ensures j.write.meta.objectKey in stored
    ensures HasInit(j) ==> Before(stored, j.write.meta.initKey, j.write.meta.objectKey)
  {
    assert stored[|stored| - 1] == j.write.meta.objectKey;
    assert forall i :: 0 <= i < |before| ==> stored[i] == before[i];
    if HasInit(j) {
      assert stored[|before|] == j.write.meta.initKey && stored[|before| + 1] == j.write.meta.objectKey;
    }
  }

  lemma NamedItems(jobs: seq<Job>)
    ensures Named(ItemsOf(jobs)) <==> forall i :: 0 <= i < |jobs| ==> jobs[i].write.camera != []
  {
    hide ItemsOf;
    assert forall i :: 0 <= i < |jobs| ==> ItemsOf(jobs)[i] in ItemsOf(jobs);
  }

  lemma NoKeys(jobs: seq<Job>)
    ensures BatchKeys(jobs[..0]) == []
  {
  }

  lemma BatchKeysPrefix(jobs: seq<Job>, i: nat)
    requires i < |jobs|
    ensures BatchKeys(jobs[..i + 1]) == BatchKeys(jobs[..i]) + KeysOf(jobs[i])
    ensures BatchKeys(jobs[..i]) + KeysOf(jobs[i]) <= BatchKeys(jobs)
    ensures forall k :: k in KeysOf(jobs[i]) ==> k in BatchKeys(jobs)
  {
    hide KeysOf;
    assert jobs[..i + 1][..i] == jobs[..i];
    BatchKeysGrow(jobs, i + 1);
  }

  lemma {:induction false} BatchKeysGrow(jobs: seq<Job>, i: nat)
    requires i <= |jobs|
    ensures BatchKeys(jobs[..i]) <= BatchKeys(jobs)
  {
    hide KeysOf;
    if i < |jobs| {
      var front := jobs[..|jobs| - 1];
      BatchKeysGrow(front, i);
      assert front[..i] == jobs[..i];
    } else {
      assert jobs[..i] == jobs;
    }
  }

  // ---------------------------------------------------------------------------
  // The queue and its workers, step by step
  // ---------------------------------------------------------------------------

  /** Where a worker is: waiting for a job, filling its batch, storing job i of it (its
      init segment first), about to index it, giving its memory back, or gone. */
  datatype Worker =
    | Waiting
    | Collecting(batch: seq<Job>)
    | Storing(batch: seq<Job>, i: nat, initDone: bool)
    | Indexing(batch: seq<Job>)
    | Releasing(batch: seq<Job>, released: nat)
    | Exited

  /** `blocked` are the submitters whose job is not in the channel yet; `indexed` and
      `failed` are the batches that ended that way; `stored` are the keys put so far. */
  datatype Writer = Writer(
    capacity: nat,
    blocked: seq<Job>,
    queue: seq<Job>,
    workers: seq<Worker>,
    closed: bool,
    submitted: seq<Job>,
    indexed: seq<seq<Job>>,
    failed: seq<seq<Job>>,
    stored: set<Bytes>,
    used: int)

  datatype Step =
    | Submit(job: Job)
    | Send(i: nat)
    | HandOver(i: nat, w: nat)
    | Receive(w: nat)
    | BeginBatch(w: nat)
    | PutInit(w: nat, answer: PutAnswer)
    | PutGOP(w: nat, answer: PutAnswer)
    | IndexBatch(w: nat, ok: bool)
    | ReleaseJob(w: nat)
    | EndBatch(w: nat)
    | Exit(w: nat)
    | Close

  predicate CanReceive(worker: Worker) {
    worker.Waiting? || (worker.Collecting? && |worker.batch| < MAX_BATCH_SIZE)
  }

  function Received(worker: Worker, job: Job): Worker
    requires CanReceive(worker)
  {
    if worker.Waiting? then Collecting([job]) else Collecting(worker.batch + [job])
  }

  /** The blocking strategy: a sender waits for room; with no room and an idle receiver a
      job passes directly. Close is called after every Submit has returned. */
  predicate Enabled(s: Writer, step: Step) {
    match step
    case Submit(_) => !s.closed
    case Send(i) => i < |s.blocked| && |s.queue| < s.capacity
    case HandOver(i, w) => i < |s.blocked| && w < |s.workers| && s.queue == [] && CanReceive(s.workers[w])
    case Receive(w) => w < |s.workers| && s.queue != [] && CanReceive(s.workers[w])
    case BeginBatch(w) =>
      w < |s.workers| && s.workers[w].Collecting? && (|s.workers[w].batch| == MAX_BATCH_SIZE || s.queue == [])
    case PutInit(w, _) => w < |s.workers| && NextPut(s.workers[w]) == Some(true)
    case PutGOP(w, _) => w < |s.workers| && NextPut(s.workers[w]) == Some(false)
    case IndexBatch(w, _) => w < |s.workers| && s.workers[w].Indexing?
    case ReleaseJob(w) => w < |s.workers| && s.workers[w].Releasing? && s.workers[w].released < |s.workers[w].batch|
    case EndBatch(w) => w < |s.workers| && s.workers[w].Releasing? && s.workers[w].released == |s.workers[w].batch|
    case Exit(w) => w < |s.workers| && s.workers[w].Waiting? && s.closed && s.queue == []
    case Close => !s.closed && s.blocked == []
  }

  /** Whether the worker's next Put is for an init segment (true) or a fragment. */
  function NextPut(worker: Worker): Option<bool> {
    if worker.Storing? && worker.i < |worker.batch| then Some(HasInit(worker.batch[worker.i]) && !worker.initDone) else None
  }

  function Fail(s: Writer, w: nat, batch: seq<Job>): Writer
    requires w < |s.workers|
  {
    s.(workers := s.workers[w := Releasing(batch, 0)], failed := s.failed + [batch])
  }

  function Next(s: Writer, step: Step): Writer
    requires Enabled(s, step)
  {
    match step
    case Submit(job) => s.(blocked := s.blocked + [job], submitted := s.submitted + [job], used := s.used + job.size)
    case Send(i) => s.(blocked := Removed(s.blocked, i), queue := s.queue + [s.blocked[i]])
    case HandOver(i, w) =>
      s.(blocked := Removed(s.blocked, i), workers := s.workers[w := Received(s.workers[w], s.blocked[i])])
    case Receive(w) =>
      s.(queue := s.queue[1..], workers := s.workers[w := Received(s.workers[w], s.queue[0])])
    case BeginBatch(w) => s.(workers := s.workers[w := Storing(s.workers[w].batch, 0, false)])
    case PutInit(w, answer) =>
      var k := s.workers[w];
      if answer == PutError then Fail(s, w, k.batch)
      else s.(stored := s.stored + {k.batch[k.i].write.meta.initKey},
              workers := s.workers[w := k.(initDone := true)])
    case PutGOP(w, answer) =>
      var k := s.workers[w];
      if answer == PutError then Fail(s, w, k.batch)
      else s.(stored := s.stored + {k.batch[k.i].write.meta.objectKey},
              workers := s.workers[w := if k.i + 1 == |k.batch| then Indexing(k.batch) else Storing(k.batch, k.i + 1, false)])
    case IndexBatch(w, ok) =>
      var batch := s.workers[w].batch;
      if !ok then Fail(s, w, batch)
      else s.(indexed := s.indexed + [batch], workers := s.workers[w := Releasing(batch, 0)])
    case ReleaseJob(w) =>
      var k := s.workers[w];
      s.(used := s.used - k.batch[k.released].size, workers := s.workers[w := k.(released := k.released + 1)])
    case EndBatch(w) => s.(workers := s.workers[w := Waiting])
    case Exit(w) => s.(workers := s.workers[w := Exited])
    case Close => s.(closed := true)
  }

  function Removed(s: seq<Job>, i: nat): seq<Job>
    requires i < |s|
  {
    s[..i] + s[i + 1..]
  }

  function New(capacity: nat, workers: nat): Writer {
    Writer(capacity, [], [], seq(workers, _ => Waiting), false, [], [], [], {}, 0)
  }

  /** The state after a sequence of steps, if each was enabled when it was taken. */
  function Run(start: Writer, steps: seq<Step>): Option<Writer> {
    if steps == [] then Some(start) else
      var before := Run(start, steps[..|steps| - 1]);
      if before.Some? && Enabled(before.value, steps[|steps| - 1])
      then Some(Next(before.value, steps[|steps| - 1])) else None
  }

  // ---------------------------------------------------------------------------
  // Conservation
  // ---------------------------------------------------------------------------

  /** The jobs a worker has taken and not finished. */
  function InHand(worker: Worker): seq<Job> {
    match worker
    case Collecting(batch) => batch
    case Storing(batch, _, _) => batch
    case Indexing(batch) => batch
    case _ => []
  }

  /** The jobs whose memory a worker still holds. */
  function Holding(worker: Worker): seq<Job> {
    if worker.Releasing? && worker.released <= |worker.batch| then worker.batch[worker.released..] else InHand(worker)
  }

  function AllInHand(workers: seq<Worker>): multiset<Job> {
    if workers == [] then multiset{}
    else AllInHand(workers[..|workers| - 1]) + multiset(InHand(workers[|workers| - 1]))
  }

  function Sizes(jobs: seq<Job>): nat {
    if jobs == [] then 0 else jobs[0].size + Sizes(jobs[1..])
  }

  function AllHolding(workers: seq<Worker>): nat {
    if workers == [] then 0 else AllHolding(workers[..|workers| - 1]) + Sizes(Holding(workers[|workers| - 1]))
  }

  function Flat(batches: seq<seq<Job>>): multiset<Job> {
    if batches == [] then multiset{} else Flat(batches[..|batches| - 1]) + multiset(batches[|batches| - 1])
  }

  ghost predicate Accounted(s: Writer) {
    multiset(s.submitted)
      == multiset(s.blocked) + multiset(s.queue) + AllInHand(s.workers) + Flat(s.indexed) + Flat(s.failed)
  }

  ghost predicate MemoryExact(s: Writer) {
    s.used == Sizes(s.blocked) + Sizes(s.queue) + AllHolding(s.workers)
  }

  /** Everything a job needs has been stored or is pending. */
  predicate JobStored(j: Job, stored: set<Bytes>) {
    && j.write.meta.objectKey in stored
    && (j.write.initData.Some? && j.write.meta.initKey != [] ==> j.write.meta.initKey in stored)
  }

  ghost predicate WorkerOk(worker: Worker, s: Writer) {
    match worker
    case Collecting(batch) => 0 < |batch| <= MAX_BATCH_SIZE
    case Storing(batch, i, initDone) =>
      && 0 < |batch| <= MAX_BATCH_SIZE && i < |batch|
      && (forall j :: 0 <= j < i ==> JobStored(batch[j], s.stored))
      && (initDone ==> batch[i].write.meta.initKey in s.stored)
    case Indexing(batch) =>
      0 < |batch| <= MAX_BATCH_SIZE && forall j :: 0 <= j < |batch| ==> JobStored(batch[j], s.stored)
    case Releasing(batch, released) => released <= |batch|
    case Exited => s.closed && s.queue == []
    case Waiting => true
  }

  ghost predicate Bounded(s: Writer) {
    && |s.queue| <= s.capacity
    && (s.closed ==> s.blocked == [])
    && (forall w :: 0 <= w < |s.workers| ==> WorkerOk(s.workers[w], s))
    && (forall b, j :: b in s.indexed && j in b ==> JobStored(j, s.stored))
    && (forall b :: b in s.indexed || b in s.failed ==> 0 < |b| <= 10)
  }
}
