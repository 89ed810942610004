/** What the write queue keeps in every interleaving of its submitters and workers. */
module WriterSafety {
  import opened Common
  import opened AsyncWriter

  /** Cancellation in sums of multisets. */
  lemma Cancel(a: multiset<Job>, b: multiset<Job>, h: multiset<Job>, a': multiset<Job>, b': multiset<Job>, h': multiset<Job>)
    requires a' + h' == a + h && b' + h == b + h'
    ensures a' + b' == a + b
  {
    forall x ensures (a' + b')[x] == (a + b)[x] {
      assert (a' + h')[x] == (a + h)[x];
      assert (b' + h)[x] == (b + h')[x];
    }
  }

  lemma Regroup(a: multiset<Job>, b: multiset<Job>, c: multiset<Job>, d: multiset<Job>, e: multiset<Job>)
    ensures a + b + c + d + e == (a + b + d + e) + c
  {
  }

  lemma AddBoth(a: multiset<Job>, h: multiset<Job>, a': multiset<Job>, h': multiset<Job>, n: multiset<Job>)
    requires a' + h == a + h'
    ensures (a' + n) + h == (a + n) + h'
  {
    forall x ensures ((a' + n) + h)[x] == ((a + n) + h')[x] {
      assert (a' + h)[x] == (a + h')[x];
    }
  }

  lemma {:induction false} SetInHand(ws: seq<Worker>, w: nat, x: Worker)
    requires w < |ws|
    ensures AllInHand(ws[w := x]) + multiset(InHand(ws[w])) == AllInHand(ws) + multiset(InHand(x))
  {
    hide InHand;
    var n := |ws| - 1;
    var ws' := ws[w := x];
    assert AllInHand(ws') == AllInHand(ws'[..n]) + multiset(InHand(ws'[n]));
    if w == n {
      assert ws'[..n] == ws[..n];
    } else {
      assert ws'[..n] == ws[..n][w := x];
      SetInHand(ws[..n], w, x);
      AddBoth(AllInHand(ws[..n]), multiset(InHand(ws[w])), AllInHand(ws'[..n]), multiset(InHand(x)), multiset(InHand(ws[n])));
    }
  }

  lemma {:induction false} SetHolding(ws: seq<Worker>, w: nat, x: Worker)
    requires w < |ws|
    ensures AllHolding(ws[w := x]) + Sizes(Holding(ws[w])) == AllHolding(ws) + Sizes(Holding(x))
  {
    hide Holding, Sizes;
    var n := |ws| - 1;
    if w == n {
      assert ws[w := x][..n] == ws[..n];
    } else {
      assert ws[w := x][..n] == ws[..n][w := x];
      SetHolding(ws[..n], w, x);
    }
  }

  lemma RemovedJobs(s: seq<Job>, i: nat)
    requires i < |s|
    ensures multiset(Removed(s, i)) + multiset{s[i]} == multiset(s)
  {
    assert s == s[..i] + [s[i]] + s[i + 1..];
  }

  lemma {:induction false} SizesConcat(a: seq<Job>, b: seq<Job>)
    ensures Sizes(a + b) == Sizes(a) + Sizes(b)
  {
    if a == [] {
      assert a + b == b;
    } else {
      assert (a + b)[1..] == a[1..] + b;
      SizesConcat(a[1..], b);
    }
  }

  lemma SizesOne(j: Job)
    ensures Sizes([j]) == j.size
  {
    assert Sizes([j][1..]) == 0;
  }

  lemma SizesRemoved(s: seq<Job>, i: nat)
    requires i < |s|
    ensures Sizes(Removed(s, i)) + s[i].size == Sizes(s)
  {
    hide Sizes;
    assert s == s[..i] + ([s[i]] + s[i + 1..]);
    SizesConcat(s[..i], [s[i]] + s[i + 1..]);
    SizesConcat([s[i]], s[i + 1..]);
    SizesConcat(s[..i], s[i + 1..]);
    SizesOne(s[i]);
  }

  lemma FlatAppend(batches: seq<seq<Job>>, b: seq<Job>)
    ensures Flat(batches + [b]) == Flat(batches) + multiset(b)
  {
    assert (batches + [b])[..|batches|] == batches;
  }

  lemma HeadJob(q: seq<Job>)
    requires q != []
    ensures multiset(q) == multiset{q[0]} + multiset(q[1..]) && Sizes(q) == q[0].size + Sizes(q[1..])
  {
    assert q == [q[0]] + q[1..];
  }

  /** A received job joins what the worker has in hand. */
  lemma ReceivedJob(k: Worker, j: Job)
    requires CanReceive(k)
    ensures multiset(InHand(Received(k, j))) == multiset(InHand(k)) + multiset{j}
    ensures Sizes(Holding(Received(k, j))) == Sizes(Holding(k)) + j.size
  {
    SizesOne(j);
    if k.Collecting? {
      SizesConcat(k.batch, [j]);
    }
  }

  // ---------------------------------------------------------------------------
  // One step
  // ---------------------------------------------------------------------------

  /** The jobs that are not in a worker's hands. */
  ghost function Outside(s: Writer): multiset<Job> {
    multiset(s.blocked) + multiset(s.queue) + Flat(s.indexed) + Flat(s.failed)
  }

  /** Jobs that one worker gains or loses are lost or gained outside. */
  lemma ExchangeAccounted(s: Writer, t: Writer, w: nat)
    requires Accounted(s) && w < |s.workers| && |t.workers| == |s.workers|
    requires t.workers == s.workers[w := t.workers[w]] && t.submitted == s.submitted
    requires Outside(t) + multiset(InHand(t.workers[w])) == Outside(s) + multiset(InHand(s.workers[w]))
    ensures Accounted(t)
  {
    hide AllInHand, Flat, InHand;
    SetInHand(s.workers, w, t.workers[w]);
    var a, a', b, b' := Outside(s), Outside(t), AllInHand(s.workers), AllInHand(t.workers);
    var h, h' := multiset(InHand(s.workers[w])), multiset(InHand(t.workers[w]));
    Cancel(a, b, h, a', b', h');
    Regroup(multiset(s.blocked), multiset(s.queue), b, Flat(s.indexed), Flat(s.failed));
    Regroup(multiset(t.blocked), multiset(t.queue), b', Flat(t.indexed), Flat(t.failed));
  }

  /** The memory held outside the workers, and what is charged beyond it. */
  ghost function Charged(s: Writer): int {
    s.used - Sizes(s.blocked) - Sizes(s.queue)
  }

  lemma ExchangeMemory(s: Writer, t: Writer, w: nat)
    requires MemoryExact(s) && w < |s.workers| && |t.workers| == |s.workers|
    requires t.workers == s.workers[w := t.workers[w]]
    requires Charged(t) - Sizes(Holding(t.workers[w])) == Charged(s) - Sizes(Holding(s.workers[w]))
    ensures MemoryExact(t)
  {
    hide AllHolding, Holding, Sizes;
    SetHolding(s.workers, w, t.workers[w]);
  }

  lemma SubmitExact(s: Writer, job: Job)
    requires Accounted(s) && MemoryExact(s) && Enabled(s, Submit(job))
    ensures Accounted(Next(s, Submit(job))) && MemoryExact(Next(s, Submit(job)))
  {
    hide AllInHand, Flat, AllHolding, Sizes;
    SizesConcat(s.blocked, [job]);
    SizesOne(job);
  }

  lemma SendExact(s: Writer, i: nat)
    requires Accounted(s) && MemoryExact(s) && Enabled(s, Send(i))
    ensures Accounted(Next(s, Send(i))) && MemoryExact(Next(s, Send(i)))
  {
    hide AllInHand, Flat, AllHolding, Sizes, Removed;
    RemovedJobs(s.blocked, i);
    SizesRemoved(s.blocked, i);
    SizesConcat(s.queue, [s.blocked[i]]);
    SizesOne(s.blocked[i]);
  }

  /** A worker takes a job out of the channel or directly from a sender. */
  lemma TakeExact(s: Writer, t: Writer, w: nat, j: Job)
    requires Accounted(s) && MemoryExact(s) && w < |s.workers| && CanReceive(s.workers[w])
    requires t.workers == s.workers[w := Received(s.workers[w], j)]
    requires multiset(t.blocked) + multiset(t.queue) + multiset{j} == multiset(s.blocked) + multiset(s.queue)
    requires Sizes(t.blocked) + Sizes(t.queue) + j.size == Sizes(s.blocked) + Sizes(s.queue)
    requires t.submitted == s.submitted && t.indexed == s.indexed && t.failed == s.failed && t.used == s.used
    ensures Accounted(t) && MemoryExact(t)
  {
    hide AllInHand, Flat, AllHolding, Sizes, Received, InHand, Holding;
    ReceivedJob(s.workers[w], j);
    ExchangeAccounted(s, t, w);
    ExchangeMemory(s, t, w);
  }

  lemma QueueStepExact(s: Writer, step: Step)
    requires Accounted(s) && MemoryExact(s) && Enabled(s, step)
    requires step.Submit? || step.Send? || step.HandOver? || step.Receive?
    ensures Accounted(Next(s, step)) && MemoryExact(Next(s, step))
  {
    hide Accounted, MemoryExact, Removed, Received, Sizes;
    match step
    case Submit(job) => SubmitExact(s, job);
    case Send(i) => SendExact(s, i);
    case HandOver(i, w) =>
      RemovedJobs(s.blocked, i);
      SizesRemoved(s.blocked, i);
      TakeExact(s, Next(s, step), w, s.blocked[i]);
    case Receive(w) =>
      HeadJob(s.queue);
      TakeExact(s, Next(s, step), w, s.queue[0]);
  }

  /** A batch that ends is out of the worker's hands but still holds its memory. */
  lemma EndedBatch(s: Writer, t: Writer, w: nat, batch: seq<Job>)
    requires Accounted(s) && MemoryExact(s) && w < |s.workers|
    requires InHand(s.workers[w]) == Holding(s.workers[w]) == batch
    requires t.workers == s.workers[w := Releasing(batch, 0)]
    requires t.blocked == s.blocked && t.queue == s.queue && t.submitted == s.submitted && t.used == s.used
    requires || (t.failed == s.failed + [batch] && t.indexed == s.indexed)
             || (t.indexed == s.indexed + [batch] && t.failed == s.failed)
    ensures Accounted(t) && MemoryExact(t)
  {
    hide AllInHand, Flat, AllHolding, Sizes;
    FlatAppend(s.failed, batch);
    FlatAppend(s.indexed, batch);
    assert Holding(t.workers[w]) == batch;
    ExchangeAccounted(s, t, w);
    ExchangeMemory(s, t, w);
  }

  /** A worker that goes on with the same jobs. */
  lemma SameBatch(s: Writer, t: Writer, w: nat)
    requires Accounted(s) && MemoryExact(s) && w < |s.workers| && |t.workers| == |s.workers|
    requires t.workers == s.workers[w := t.workers[w]]
    requires InHand(t.workers[w]) == InHand(s.workers[w]) && Holding(t.workers[w]) == Holding(s.workers[w])
    requires t.blocked == s.blocked && t.queue == s.queue && t.submitted == s.submitted && t.used == s.used
    requires t.indexed == s.indexed && t.failed == s.failed
    ensures Accounted(t) && MemoryExact(t)
  {
    hide AllInHand, Flat, AllHolding, Sizes, InHand, Holding;
    ExchangeAccounted(s, t, w);
    ExchangeMemory(s, t, w);
  }

  lemma BatchStepExact(s: Writer, step: Step)
    requires Accounted(s) && MemoryExact(s) && Enabled(s, step)
    requires !(step.Submit? || step.Send? || step.HandOver? || step.Receive?)
    ensures Accounted(Next(s, step)) && MemoryExact(Next(s, step))
  {
    hide Accounted, MemoryExact, HasInit;
    var t := Next(s, step);
    match step
    case BeginBatch(w) => SameBatch(s, t, w);
    case PutInit(w, answer) =>
      if answer == PutError { EndedBatch(s, t, w, s.workers[w].batch); } else { SameBatch(s, t, w); }
    case PutGOP(w, answer) =>
      if answer == PutError { EndedBatch(s, t, w, s.workers[w].batch); } else { SameBatch(s, t, w); }
    case IndexBatch(w, ok) => EndedBatch(s, t, w, s.workers[w].batch);
    case ReleaseJob(w) => ReleaseExact(s, w);
    case EndBatch(w) =>
      assert s.workers[w].batch[s.workers[w].released..] == [];
      SameBatch(s, t, w);
    case Exit(w) => SameBatch(s, t, w);
    case Close => CloseExact(s);
  }

  lemma CloseExact(s: Writer)
    requires Accounted(s) && MemoryExact(s)
    ensures Accounted(s.(closed := true)) && MemoryExact(s.(closed := true))
  {
  }

  lemma ReleaseExact(s: Writer, w: nat)
    requires Accounted(s) && MemoryExact(s) && Enabled(s, ReleaseJob(w))
    ensures Accounted(Next(s, ReleaseJob(w))) && MemoryExact(Next(s, ReleaseJob(w)))
  {
    hide AllInHand, Flat, AllHolding, Sizes;
    var k, t := s.workers[w], Next(s, ReleaseJob(w));
    HeadJob(k.batch[k.released..]);
    assert k.batch[k.released..][1..] == k.batch[k.released + 1..];
    ExchangeAccounted(s, t, w);
    ExchangeMemory(s, t, w);
  }

  /** Keys stay stored, so a worker that is not part of the step stays right. */
  lemma WorkerStays(k: Worker, s: Writer, t: Writer)
    requires WorkerOk(k, s) && s.stored <= t.stored && (s.closed ==> t.closed)
    requires s.closed && s.queue == [] ==> t.queue == []
    ensures WorkerOk(k, t)
  {
  }

  /** Which worker a step moves, if any. */
  function Moved(step: Step): Option<nat> {
    match step
    case HandOver(_, w) => Some(w)
    case Receive(w) => Some(w)
    case BeginBatch(w) => Some(w)
    case PutInit(w, _) => Some(w)
    case PutGOP(w, _) => Some(w)
    case IndexBatch(w, _) => Some(w)
    case ReleaseJob(w) => Some(w)
    case EndBatch(w) => Some(w)
    case Exit(w) => Some(w)
    case _ => None
  }

  lemma MovedWorkerOk(s: Writer, step: Step, w: nat)
    requires Bounded(s) && Enabled(s, step) && Moved(step) == Some(w)
    ensures w < |s.workers| && Next(s, step).workers == s.workers[w := Next(s, step).workers[w]]
    ensures WorkerOk(Next(s, step).workers[w], Next(s, step))
  {
    hide Bounded, WorkerOk;
    OneWorkerMoves(s, step, w);
    assert WorkerOk(s.workers[w], s) by {
      BoundedWorker(s, w);
    }
    if step.HandOver? || step.Receive? || step.Exit? {
      TakingWorkerOk(s, step, w);
    } else if step.PutInit? || step.PutGOP? {
      PuttingWorkerOk(s, step, w);
    } else {
      BatchWorkerOk(s, step, w);
    }
  }

  lemma BoundedWorker(s: Writer, w: nat)
    requires Bounded(s) && w < |s.workers|
    ensures WorkerOk(s.workers[w], s)
  {
  }

  lemma OneWorkerMoves(s: Writer, step: Step, w: nat)
    requires Enabled(s, step) && Moved(step) == Some(w)
    ensures w < |s.workers| && Next(s, step).workers == s.workers[w := Next(s, step).workers[w]]
  {
  }

  lemma TakingWorkerOk(s: Writer, step: Step, w: nat)
    requires Enabled(s, step) && Moved(step) == Some(w) && (step.HandOver? || step.Receive? || step.Exit?)
    requires WorkerOk(s.workers[w], s)
    ensures WorkerOk(Next(s, step).workers[w], Next(s, step))
  {
    hide JobStored;
  }

  lemma PuttingWorkerOk(s: Writer, step: Step, w: nat)
    requires Enabled(s, step) && Moved(step) == Some(w) && (step.PutInit? || step.PutGOP?)
    requires WorkerOk(s.workers[w], s)
    ensures WorkerOk(Next(s, step).workers[w], Next(s, step))
  {
  }

  lemma BatchWorkerOk(s: Writer, step: Step, w: nat)
    requires Enabled(s, step) && Moved(step) == Some(w)
    requires step.BeginBatch? || step.IndexBatch? || step.ReleaseJob? || step.EndBatch?
    requires WorkerOk(s.workers[w], s)
    ensures WorkerOk(Next(s, step).workers[w], Next(s, step))
  {
    hide JobStored;
  }

  lemma StepFrame(s: Writer, step: Step)
    requires Bounded(s) && Enabled(s, step)
    ensures var t := Next(s, step);
            && s.stored <= t.stored && (s.closed ==> t.closed && t.blocked == [])
            && (s.closed && s.queue == [] ==> t.queue == [])
            && |t.queue| <= t.capacity && (t.closed ==> t.blocked == [])
            && (Moved(step).None? ==> t.workers == s.workers)
  {
    hide WorkerOk, HasInit, Removed;
  }

  lemma StepBatches(s: Writer, step: Step)
    requires Bounded(s) && Enabled(s, step)
    ensures var t := Next(s, step);
            && (forall b, j :: b in t.indexed && j in b ==> JobStored(j, t.stored))
            && (forall b :: b in t.indexed || b in t.failed ==> 0 < |b| <= MAX_BATCH_SIZE)
  {
    hide HasInit, Removed, Received, Bounded;
    StepFrame(s, step);
    BatchesOk(s);
    if step.PutInit? || step.PutGOP? || step.IndexBatch? {
      BoundedWorker(s, step.w);
    }
  }

  lemma BatchesOk(s: Writer)
    requires Bounded(s)
    ensures forall b, j :: b in s.indexed && j in b ==> JobStored(j, s.stored)
    ensures forall b :: b in s.indexed || b in s.failed ==> 0 < |b| <= MAX_BATCH_SIZE
  {
  }

  lemma StepBounded(s: Writer, step: Step)
    requires Bounded(s) && Enabled(s, step)
    ensures Bounded(Next(s, step))
  {
    hide WorkerOk, JobStored, Next;
    var t := Next(s, step);
    StepFrame(s, step);
    StepBatches(s, step);
    if Moved(step).Some? {
      MovedWorkerOk(s, step, Moved(step).value);
    }
    forall w | 0 <= w < |t.workers| ensures WorkerOk(t.workers[w], t) {
      if Moved(step) != Some(w) {
        WorkerStays(s.workers[w], s, t);
      }
    }
  }

  // ---------------------------------------------------------------------------
  // Every run
  // ---------------------------------------------------------------------------

  lemma {:induction false} NoneInHand(n: nat)
    ensures AllInHand(seq(n, _ => Waiting)) == multiset{} && AllHolding(seq(n, _ => Waiting)) == 0
  {
    if n > 0 {
      var ws: seq<Worker> := seq(n, _ => Waiting);
      assert ws[..n - 1] == seq(n - 1, _ => Waiting);
      NoneInHand(n - 1);
    }
  }

  /** Every accepted job is in exactly one place, memory is charged for exactly the jobs
      not given back, and batches and the channel stay within their bounds. */
  lemma {:induction false} WriterSafe(capacity: nat, workers: nat, steps: seq<Step>)
    requires Run(New(capacity, workers), steps).Some?
    ensures var s := Run(New(capacity, workers), steps).value;
            Accounted(s) && MemoryExact(s) && Bounded(s) && |s.workers| == workers && s.capacity == capacity
  {
    hide Accounted, MemoryExact, Bounded, Next, Enabled;
    if steps == [] {
      NewSafe(capacity, workers);
    } else {
      var n := |steps| - 1;
      WriterSafe(capacity, workers, steps[..n]);
      var s := Run(New(capacity, workers), steps[..n]).value;
      if steps[n].Submit? || steps[n].Send? || steps[n].HandOver? || steps[n].Receive? {
        QueueStepExact(s, steps[n]);
      } else {
        BatchStepExact(s, steps[n]);
      }
      StepSizes(s, steps[n]);
      StepBounded(s, steps[n]);
    }
  }

  lemma StepSizes(s: Writer, step: Step)
    requires Enabled(s, step)
    ensures |Next(s, step).workers| == |s.workers| && Next(s, step).capacity == s.capacity
  {
  }

  lemma NewSafe(capacity: nat, workers: nat)
    ensures var s := New(capacity, workers); Accounted(s) && MemoryExact(s) && Bounded(s)
  {
    NoneInHand(workers);
  }

  /** Close returns once every worker is gone. */
  ghost predicate CloseReturned(s: Writer) {
    s.closed && forall w :: 0 <= w < |s.workers| ==> s.workers[w] == Exited
  }

  lemma {:induction false} NothingInHand(ws: seq<Worker>)
    requires forall w :: 0 <= w < |ws| ==> ws[w] == Exited
    ensures AllInHand(ws) == multiset{} && AllHolding(ws) == 0
  {
    if ws != [] {
      NothingInHand(ws[..|ws| - 1]);
    }
  }

  /** With at least one worker, when Close returns every submitted job has been indexed or
      has failed with its batch, nothing is queued and no memory is held. */
  lemma CloseDrains(capacity: nat, workers: nat, steps: seq<Step>)
    requires Run(New(capacity, workers), steps).Some? && workers > 0
    requires CloseReturned(Run(New(capacity, workers), steps).value)
    ensures var s := Run(New(capacity, workers), steps).value;
            && s.queue == [] && s.blocked == [] && s.used == 0
            && multiset(s.submitted) == Flat(s.indexed) + Flat(s.failed)
  {
    var s := Run(New(capacity, workers), steps).value;
    WriterSafe(capacity, workers, steps);
    assert WorkerOk(s.workers[0], s);
    NothingInHand(s.workers);
  }

  /** A step in which the storage or the index reports an error. */
  predicate Errs(step: Step) {
    ((step.PutInit? || step.PutGOP?) && step.answer == PutError) || (step.IndexBatch? && !step.ok)
  }

  function Errors(steps: seq<Step>): nat {
    if steps == [] then 0 else Errors(steps[..|steps| - 1]) + if Errs(steps[|steps| - 1]) then 1 else 0
  }

  /** A batch fails for each such step and for no other reason; an entry left to the
      compensation queue is none. */
  lemma {:induction false} FailedExactly(capacity: nat, workers: nat, steps: seq<Step>)
    requires Run(New(capacity, workers), steps).Some?
    ensures |Run(New(capacity, workers), steps).value.failed| == Errors(steps)
  {
    hide Next, Enabled, Errs;
    if steps != [] {
      var n := |steps| - 1;
      FailedExactly(capacity, workers, steps[..n]);
      StepFailed(Run(New(capacity, workers), steps[..n]).value, steps[n]);
    }
  }

  lemma StepFailed(s: Writer, step: Step)
    requires Enabled(s, step)
    ensures |Next(s, step).failed| == |s.failed| + if Errs(step) then 1 else 0
  {
  }

  /** So when nothing fails, Close leaves every submitted job indexed. */
  lemma CloseIndexesAll(capacity: nat, workers: nat, steps: seq<Step>)
    requires Run(New(capacity, workers), steps).Some? && workers > 0
    requires CloseReturned(Run(New(capacity, workers), steps).value) && Errors(steps) == 0
    ensures var s := Run(New(capacity, workers), steps).value; Flat(s.indexed) == multiset(s.submitted)
  {
    hide Run, CloseReturned;
    CloseDrains(capacity, workers, steps);
    FailedExactly(capacity, workers, steps);
  }

  /** Without workers Close returns at once and leaves the queue as it is. */
  lemma NoWorkersNoDrain(job: Job) returns (steps: seq<Step>)
    ensures Run(New(1, 0), steps).Some?
    ensures CloseReturned(Run(New(1, 0), steps).value) && Run(New(1, 0), steps).value.queue == [job]
  {
    steps := [Submit(job), Send(0), Close];
    var a, b, c: seq<Step> := [], [Submit(job)], [Submit(job), Send(0)];
    assert b[..0] == a && c[..1] == b && steps[..2] == c;
    assert Run(New(1, 0), a) == Some(New(1, 0));
    assert Run(New(1, 0), b) == Some(Next(New(1, 0), Submit(job)));
    var s := Next(New(1, 0), Submit(job));
    assert Run(New(1, 0), c) == Some(Next(s, Send(0)));
  }

  lemma {:induction false} NoWorkersNoBatches(capacity: nat, steps: seq<Step>)
    requires Run(New(capacity, 0), steps).Some?
    ensures var s := Run(New(capacity, 0), steps).value; s.indexed == [] && s.failed == []
  {
    hide Next;
    if steps != [] {
      var n := |steps| - 1;
      NoWorkersNoBatches(capacity, steps[..n]);
      WriterSafe(capacity, 0, steps[..n]);
      IdleStep(Run(New(capacity, 0), steps[..n]).value, steps[n]);
    }
  }

  lemma IdleStep(s: Writer, step: Step)
    requires Enabled(s, step) && s.workers == []
    ensures Next(s, step).indexed == s.indexed && Next(s, step).failed == s.failed
  {
  }

  /** When Close returns the queue is empty if and only if there was a worker or nothing has
      been submitted; without workers it holds every job. */
  lemma DrainedExactly(capacity: nat, workers: nat, steps: seq<Step>)
    requires Run(New(capacity, workers), steps).Some? && CloseReturned(Run(New(capacity, workers), steps).value)
    ensures var s := Run(New(capacity, workers), steps).value;
            && (s.queue == [] <==> workers > 0 || s.submitted == [])
            && (workers == 0 ==> multiset(s.queue) == multiset(s.submitted))
  {
    hide Run;
    var s := Run(New(capacity, workers), steps).value;
    WriterSafe(capacity, workers, steps);
    if workers > 0 {
      CloseDrains(capacity, workers, steps);
    } else {
      NoWorkersNoBatches(capacity, steps);
      assert |multiset(s.queue)| == |s.queue| && |multiset(s.submitted)| == |s.submitted|;
    }
  }

  // ---------------------------------------------------------------------------
  // Close comes to an end
  // ---------------------------------------------------------------------------

  /** An upper bound on the steps a worker still has to take for the jobs in its hands. */
  function Left(worker: Worker): nat {
    match worker
    case Exited => 0
    case Waiting => 1
    case Releasing(batch, released) => 2 + if released <= |batch| then |batch| - released else 0
    case Indexing(batch) => |batch| + 3
    case Storing(batch, i, initDone) =>
      |batch| + 3 + (if i <= |batch| then 2 * (|batch| - i) else 0) + if initDone then 0 else 1
    case Collecting(batch) => 3 * |batch| + 5
  }

  function AllLeft(workers: seq<Worker>): nat {
    if workers == [] then 0 else AllLeft(workers[..|workers| - 1]) + Left(workers[|workers| - 1])
  }

  const STEPS_PER_JOB: nat := 8

  function Remaining(s: Writer): nat {
    STEPS_PER_JOB * |s.queue| + AllLeft(s.workers)
  }

  lemma {:induction false} SetLeft(ws: seq<Worker>, w: nat, x: Worker)
    requires w < |ws|
    ensures AllLeft(ws[w := x]) + Left(ws[w]) == AllLeft(ws) + Left(x)
  {
    hide Left;
    var n := |ws| - 1;
    if w < n {
      SetLeft(ws[..n], w, x);
      assert ws[w := x][..n] == ws[..n][w := x];
    } else {
      assert ws[w := x][..n] == ws[..n];
    }
  }

  /** The moved worker comes closer to its end, by more than a received job adds. */
  lemma LeftShrinks(s: Writer, step: Step, w: nat)
    requires Enabled(s, step) && Moved(step) == Some(w) && !step.HandOver? && WorkerOk(s.workers[w], s)
    ensures var t := Next(s, step);
            STEPS_PER_JOB * |t.queue| + Left(t.workers[w]) < STEPS_PER_JOB * |s.queue| + Left(s.workers[w])
  {
    hide JobStored;
  }

  /** After Close every step brings the end closer. */
  lemma ClosedStep(s: Writer, step: Step)
    requires Bounded(s) && s.closed && Enabled(s, step)
    ensures Next(s, step).closed && Bounded(Next(s, step)) && Remaining(Next(s, step)) < Remaining(s)
  {
    hide Bounded, Left, WorkerOk, Next;
    StepBounded(s, step);
    StepFrame(s, step);
    ClosedMoves(s, step);
    var w := Moved(step).value;
    OneWorkerMoves(s, step, w);
    BoundedWorker(s, w);
    LeftShrinks(s, step, w);
    SetLeft(s.workers, w, Next(s, step).workers[w]);
  }

  lemma ClosedMoves(s: Writer, step: Step)
    requires Bounded(s) && s.closed && Enabled(s, step)
    ensures Moved(step).Some? && !step.HandOver?
  {
  }

  /** After Close some step can be taken until every worker is gone. */
  lemma NoDeadlock(s: Writer) returns (step: Step)
    requires Bounded(s) && s.closed && !CloseReturned(s)
    ensures Enabled(s, step)
  {
    var w :| 0 <= w < |s.workers| && s.workers[w] != Exited;
    BoundedWorker(s, w);
    match s.workers[w]
    case Waiting => step := if s.queue == [] then Exit(w) else Receive(w);
    case Collecting(batch) =>
      step := if |batch| == MAX_BATCH_SIZE || s.queue == [] then BeginBatch(w) else Receive(w);
    case Storing(batch, i, initDone) =>
      step := if HasInit(batch[i]) && !initDone then PutInit(w, Stored) else PutGOP(w, Stored);
    case Indexing(_) => step := IndexBatch(w, true);
    case Releasing(batch, released) => step := if released < |batch| then ReleaseJob(w) else EndBatch(w);
  }

  lemma RunExtends(start: Writer, steps: seq<Step>, step: Step)
    ensures Run(start, steps + [step])
         == if Run(start, steps).Some? && Enabled(Run(start, steps).value, step)
            then Some(Next(Run(start, steps).value, step)) else None
  {
    hide Next, Enabled;
    assert (steps + [step])[..|steps|] == steps;
  }

  /** However the workers interleave after Close, they take no more steps than remain, and
      they can only stop when all are gone. */
  lemma {:induction false} CloseEnds(capacity: nat, workers: nat, steps: seq<Step>, more: seq<Step>)
    requires Run(New(capacity, workers), steps).Some? && Run(New(capacity, workers), steps).value.closed
    requires Run(New(capacity, workers), steps + more).Some?
    ensures var s, t := Run(New(capacity, workers), steps).value, Run(New(capacity, workers), steps + more).value;
            && t.closed && |more| + Remaining(t) <= Remaining(s)
            && (!CloseReturned(t) <==> exists step :: Enabled(t, step))
  {
    hide Run, Next, Enabled, Remaining, CloseReturned, Bounded;
    var start := New(capacity, workers);
    WriterSafe(capacity, workers, steps + more);
    if more == [] {
      assert steps + more == steps;
    } else {
      var n := |more| - 1;
      assert steps + more == (steps + more[..n]) + [more[n]];
      RunExtends(start, steps + more[..n], more[n]);
      CloseEnds(capacity, workers, steps, more[..n]);
      WriterSafe(capacity, workers, steps + more[..n]);
      ClosedStep(Run(start, steps + more[..n]).value, more[n]);
    }
    var t := Run(start, steps + more).value;
    if !CloseReturned(t) {
      var step := NoDeadlock(t);
    } else {
      forall step ensures !Enabled(t, step) {
        AllGone(t, step);
      }
    }
  }

  lemma AllGone(t: Writer, step: Step)
    requires Bounded(t) && CloseReturned(t)
    ensures !Enabled(t, step)
  {
  }

  /** An indexed job was stored before: its keys had been put without error. */
  lemma IndexedWasStored(capacity: nat, workers: nat, steps: seq<Step>, b: seq<Job>, j: Job)
    requires Run(New(capacity, workers), steps).Some?
    requires b in Run(New(capacity, workers), steps).value.indexed && j in b
    ensures JobStored(j, Run(New(capacity, workers), steps).value.stored)
  {
    WriterSafe(capacity, workers, steps);
  }
}
