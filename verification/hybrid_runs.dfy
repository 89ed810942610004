/** What a whole run of the hybrid store comes to: how each Put ends, how often each server call
    is tried, and what the filer and the cache have for a key. */
module HybridRuns {
  import opened Common
  import opened HybridProtocol

  // ---------------------------------------------------------------------------
  // How a Put ends
  // ---------------------------------------------------------------------------

  /** What a step means for its Put. */
  datatype Mark = AssignedOk | UploadedOk | RegisteredOk | CachedIt | HandedOver | FellBack

  function MarkOf(step: Step): Option<(nat, Mark)> {
    match step
    case Assign(p, _, _, true, _) => Some((p, AssignedOk))
    case UploadData(p, _, true, _) => Some((p, UploadedOk))
    case Register(p, _, true, _) => Some((p, RegisteredOk))
    case CachePut(p) => Some((p, CachedIt))
    case Enqueue(p) => Some((p, HandedOver))
    case Fallback(p, _, _) => Some((p, FellBack))
    case _ => None
  }

  predicate Has(steps: seq<Step>, p: nat, mark: Mark) {
    steps != [] && (Has(steps[..|steps| - 1], p, mark) || MarkOf(steps[|steps| - 1]) == Some((p, mark)))
  }

  datatype Server = Master | Volume | Filer

  /** The step is a failed attempt of the Put at this server; whether it is worth retrying. */
  function Failure(step: Step): Option<(nat, Server, bool)> {
    match step
    case Assign(p, _, _, false, again) => Some((p, Master, again))
    case UploadData(p, _, false, again) => Some((p, Volume, again))
    case Register(p, _, false, again) => Some((p, Filer, again))
    case _ => None
  }

  function Failures(steps: seq<Step>, p: nat, server: Server): nat {
    if steps == [] then 0 else
      var x := Failure(steps[|steps| - 1]);
      Failures(steps[..|steps| - 1], p, server) + if x.Some? && x.value.0 == p && x.value.1 == server then 1 else 0
  }

  /** A failure that is not worth retrying. */
  predicate Final(steps: seq<Step>, p: nat, server: Server) {
    steps != [] && (Final(steps[..|steps| - 1], p, server) || Failure(steps[|steps| - 1]) == Some((p, server, false)))
  }

  /** Three attempts have failed, or one for good. */
  predicate GivenUp(steps: seq<Step>, p: nat, server: Server) {
    Failures(steps, p, server) == 3 || Final(steps, p, server)
  }

  /** The Put is still trying, with this many attempts left. */
  predicate Trying(steps: seq<Step>, p: nat, server: Server, left: nat) {
    Failures(steps, p, server) + left == 3 && left > 0 && !Final(steps, p, server)
  }

  /** Where a Put is, told by its steps. */
  predicate Progress(steps: seq<Step>, p: nat, x: Put) {
    var placed, uploaded, registered := Has(steps, p, AssignedOk), Has(steps, p, UploadedOk), Has(steps, p, RegisteredOk);
    var cached, handed, fellBack := Has(steps, p, CachedIt), Has(steps, p, HandedOver), Has(steps, p, FellBack);
    match x
    case Assigning(_, _, left) =>
      !placed && !fellBack && Trying(steps, p, Master, left) && Untouched(steps, p, Volume) && Untouched(steps, p, Filer)
      && !uploaded && !registered && !cached && !handed
    case Uploading(_, _, _, _, left) =>
      placed && !uploaded && !fellBack && Trying(steps, p, Volume, left) && Untouched(steps, p, Filer)
      && !registered && !cached && !handed
    case Registering(_, left) =>
      placed && uploaded && !registered && !fellBack && Trying(steps, p, Filer, left) && !cached && !handed
    case Caching(_) => placed && uploaded && registered && !cached && !handed && !fellBack
    case Compensating(_) => placed && uploaded && !registered && !cached && !handed && !fellBack && GivenUp(steps, p, Filer)
    case FallingBack(_, _) => !placed && !uploaded && !registered && !cached && !handed && !fellBack && GivenUp(steps, p, Master)
    case Done =>
      if !placed then fellBack && GivenUp(steps, p, Master) && !cached && !handed
      else if !uploaded then GivenUp(steps, p, Volume) && !cached && !handed && !fellBack
      else if !registered then handed && GivenUp(steps, p, Filer) && !cached && !fellBack
      else cached && !handed && !fellBack
  }

  predicate Untouched(steps: seq<Step>, p: nat, server: Server) {
    Failures(steps, p, server) == 0 && !Final(steps, p, server)
  }

  /** No step of the Put has been taken. */
  ghost predicate Unborn(steps: seq<Step>, p: nat) {
    (forall mark :: !Has(steps, p, mark)) && forall server :: Untouched(steps, p, server)
  }

  /** One more step of the run, as the histories see it. */
  lemma OneMore(pre: seq<Step>, step: Step, p: nat)
    ensures forall mark :: Has(pre + [step], p, mark) <==> Has(pre, p, mark) || MarkOf(step) == Some((p, mark))
    ensures forall server ::
              var x := Failure(step);
              && Failures(pre + [step], p, server)
                 == Failures(pre, p, server) + (if x.Some? && x.value.0 == p && x.value.1 == server then 1 else 0)
              && (Final(pre + [step], p, server) <==> Final(pre, p, server) || x == Some((p, server, false)))
  {
    assert (pre + [step])[..|pre|] == pre;
  }

  /** Whose step it is. */
  function Of(step: Step): Option<nat> {
    match step
    case Assign(p, _, _, _, _) => Some(p)
    case UploadData(p, _, _, _) => Some(p)
    case Register(p, _, _, _) => Some(p)
    case CachePut(p) => Some(p)
    case Enqueue(p) => Some(p)
    case Fallback(p, _, _) => Some(p)
    case _ => None
  }

  lemma OthersStep(pre: seq<Step>, step: Step, p: nat, x: Put)
    requires Of(step) != Some(p)
    ensures Progress(pre, p, x) ==> Progress(pre + [step], p, x)
    ensures Unborn(pre, p) ==> Unborn(pre + [step], p)
  {
    hide Has, Failures, Final;
    OneMore(pre, step, p);
    forall server | Untouched(pre, p, server) ensures Untouched(pre + [step], p, server) {
    }
  }

  lemma OthersKept(md5: Bytes -> Bytes, s: Store, step: Step, p: nat)
    requires Enabled(s, step) && Of(step) != Some(p)
    ensures |s.puts| <= |Next(md5, s, step).puts|
    ensures p < |s.puts| ==> Next(md5, s, step).puts[p] == s.puts[p]
    ensures |s.puts| <= p < |Next(md5, s, step).puts| ==> Next(md5, s, step).puts[p].Assigning? && Next(md5, s, step).puts[p].left == 3
    ensures p >= |Next(md5, s, step).puts| ==> p >= |s.puts|
  {
    hide Enqueued, RetryOr, MetaOf;
    if step.Enqueue? {
      EnqueuedPuts(s, s.puts[step.p].meta);
    }
  }

  lemma OwnStep(md5: Bytes -> Bytes, s: Store, pre: seq<Step>, step: Step, p: nat)
    requires Enabled(s, step) && Of(step) == Some(p) && p < |s.puts| && Progress(pre, p, s.puts[p])
    ensures p < |Next(md5, s, step).puts| && Progress(pre + [step], p, Next(md5, s, step).puts[p])
  {
    hide Has, Failures, Final, MetaOf, Enqueued;
    OneMore(pre, step, p);
    if step.Enqueue? {
      EnqueuedPuts(s, s.puts[step.p].meta);
    }
  }

  lemma NewPut(steps: seq<Step>, p: nat, x: Put)
    requires Unborn(steps, p) && x.Assigning? && x.left == 3
    ensures Progress(steps, p, x)
  {
    hide Has, Failures, Final;
    assert Untouched(steps, p, Master);
  }

  /** In every interleaving the steps of a Put tell where it is. One that is done has fallen
      back if the master assigned it no file; otherwise, if its file was uploaded, it has
      registered and cached its entry or left it to the worker. It has given up a server only
      after three failed attempts or one that is not worth retrying. */
  lemma {:induction false} PutProgress(md5: Bytes -> Bytes, steps: seq<Step>, p: nat)
    requires Run(md5, steps).Some?
    ensures p < |Run(md5, steps).value.puts| ==> Progress(steps, p, Run(md5, steps).value.puts[p])
    ensures p >= |Run(md5, steps).value.puts| ==> Unborn(steps, p)
  {
    hide Next, Enabled, Progress, Unborn;
    if steps == [] {
      NoSteps(p);
    } else {
      var n := |steps| - 1;
      var pre, step := steps[..n], steps[n];
      var s := Run(md5, pre).value;
      assert steps == pre + [step];
      PutProgress(md5, pre, p);
      if Of(step) == Some(p) {
        OwnEnabled(s, step, p);
        OwnStep(md5, s, pre, step, p);
      } else {
        OthersKept(md5, s, step, p);
        if p < |s.puts| {
          OthersStep(pre, step, p, s.puts[p]);
        } else {
          OthersStep(pre, step, p, Done);
          if p < |Run(md5, steps).value.puts| {
            NewPut(steps, p, Run(md5, steps).value.puts[p]);
          }
        }
      }
    }
  }

  lemma NoSteps(p: nat)
    ensures Unborn([], p)
  {
  }

  lemma OwnEnabled(s: Store, step: Step, p: nat)
    requires Enabled(s, step) && Of(step) == Some(p)
    ensures p < |s.puts|
  {
  }

  // ---------------------------------------------------------------------------
  // A Put comes to an end
  // ---------------------------------------------------------------------------

  function StepsOf(steps: seq<Step>, p: nat): nat {
    if steps == [] then 0 else StepsOf(steps[..|steps| - 1], p) + if Of(steps[|steps| - 1]) == Some(p) then 1 else 0
  }

  /** The most steps a Put can still take. */
  function Remaining(x: Put): nat {
    match x
    case Assigning(_, _, left) => left + 7
    case Uploading(_, _, _, _, left) => left + 4
    case Registering(_, left) => left + 1
    case Done => 0
    case _ => 1
  }

  predicate Attempts(x: Put) {
    x.Assigning? || x.Uploading? || x.Registering? ==> 1 <= x.left <= 3
  }

  lemma OwnShrinks(md5: Bytes -> Bytes, s: Store, step: Step, p: nat)
    requires Enabled(s, step) && Of(step) == Some(p) && p < |s.puts| && Attempts(s.puts[p])
    ensures var t := Next(md5, s, step); p < |t.puts| && Attempts(t.puts[p]) && Remaining(t.puts[p]) < Remaining(s.puts[p])
  {
    hide MetaOf, Enqueued;
    if step.Enqueue? {
      EnqueuedPuts(s, s.puts[step.p].meta);
    }
  }

  lemma {:induction false} StepsLeft(md5: Bytes -> Bytes, steps: seq<Step>, p: nat)
    requires Run(md5, steps).Some?
    ensures var s := Run(md5, steps).value;
            if p < |s.puts| then Attempts(s.puts[p]) && StepsOf(steps, p) + Remaining(s.puts[p]) <= 10
            else StepsOf(steps, p) == 0
  {
    hide Next, Enabled, Of;
    if steps != [] {
      var n := |steps| - 1;
      StepsLeft(md5, steps[..n], p);
      var s := Run(md5, steps[..n]).value;
      if Of(steps[n]) == Some(p) {
        OwnEnabled(s, steps[n], p);
        OwnShrinks(md5, s, steps[n], p);
      } else {
        OthersKept(md5, s, steps[n], p);
      }
    }
  }

  /** However the rest interleaves, a Put takes at most ten steps, three attempts at each of
      three servers and one more, and until it is done there is a step it can take. */
  lemma PutEnds(md5: Bytes -> Bytes, steps: seq<Step>, p: nat)
    requires Run(md5, steps).Some? && p < |Run(md5, steps).value.puts|
    ensures StepsOf(steps, p) <= 10
    ensures var s := Run(md5, steps).value;
            s.puts[p].Done? <==> forall step :: Of(step) == Some(p) ==> !Enabled(s, step)
  {
    StepsLeft(md5, steps, p);
    var s := Run(md5, steps).value;
    if !s.puts[p].Done? {
      var step := SomeStep(s, p);
    }
  }

  lemma SomeStep(s: Store, p: nat) returns (step: Step)
    requires p < |s.puts| && !s.puts[p].Done?
    ensures Of(step) == Some(p) && Enabled(s, step)
  {
    match s.puts[p]
    case Assigning(_, _, _) => step := Assign(p, [], [], false, false);
    case Uploading(_, _, _, _, _) => step := UploadData(p, false, false, false);
    case Registering(_, _) => step := Register(p, false, false, false);
    case Caching(_) => step := CachePut(p);
    case Compensating(_) => step := Enqueue(p);
    case FallingBack(key, _) => step := Fallback(p, false, EntryMeta(key, [], [], 0, []));
  }

  // ---------------------------------------------------------------------------
  // The worker's attempts
  // ---------------------------------------------------------------------------

  /** The attempts since the worker last took an entry. */
  function Tries(steps: seq<Step>): nat {
    if steps == [] then 0 else
      match steps[|steps| - 1]
      case Take => 0
      case Retry(_, _) => Tries(steps[..|steps| - 1]) + 1
      case _ => Tries(steps[..|steps| - 1])
  }

  lemma WorkerStep(md5: Bytes -> Bytes, s: Store, step: Step)
    requires Enabled(s, step)
    ensures var t := Next(md5, s, step);
            && (step.Take? ==> t.worker.Retrying? && t.worker.left == 3)
            && (step.Retry? && t.worker.Retrying? ==> t.worker.left == s.worker.left - 1)
            && (!step.Take? && !step.Retry? && t.worker.Retrying? ==> t.worker == s.worker)
  {
    hide Enqueued, RetryOr, MetaOf;
    if step.Enqueue? {
      EnqueuedWorker(s, s.puts[step.p].meta);
    }
  }

  lemma EnqueuedWorker(s: Store, meta: EntryMeta)
    ensures Enqueued(s, meta).worker == s.worker && Enqueued(s, meta).exhausted == s.exhausted
  {
  }

  lemma {:induction false} TriesLeft(md5: Bytes -> Bytes, steps: seq<Step>)
    requires Run(md5, steps).Some?
    ensures var w := Run(md5, steps).value.worker; w.Retrying? ==> Tries(steps) + w.left == 3
  {
    hide Next;
    if steps != [] {
      var n := |steps| - 1;
      TriesLeft(md5, steps[..n]);
      WorkerStep(md5, Run(md5, steps[..n]).value, steps[n]);
    }
  }

  /** In every interleaving the worker gives up an entry exactly when its third attempt has
      failed; until then it goes on with the entry. */
  lemma ThreeTries(md5: Bytes -> Bytes, steps: seq<Step>, step: Step)
    requires Run(md5, steps).Some? && Enabled(Run(md5, steps).value, step)
    ensures var s := Run(md5, steps).value;
            var t := Next(md5, s, step);
            && (step.Retry? && !step.ok ==>
                  if Tries(steps) + 1 == 3 then t.worker.Idle? && t.exhausted == s.exhausted + {s.worker.meta.key}
                  else t.worker.Retrying? && t.worker.meta == s.worker.meta)
            && (!(step.Retry? && !step.ok) ==> t.exhausted == s.exhausted)
  {
    hide Enqueued, RetryOr, MetaOf, Run;
    CompensationAccounted(md5, steps);
    TriesLeft(md5, steps);
    if step.Enqueue? {
      EnqueuedWorker(Run(md5, steps).value, Run(md5, steps).value.puts[step.p].meta);
    }
  }

  lemma GivenUpStays(md5: Bytes -> Bytes, s: Store, step: Step)
    requires Enabled(s, step)
    ensures s.exhausted <= Next(md5, s, step).exhausted && s.overflow <= Next(md5, s, step).overflow
  {
    hide RetryOr, MetaOf;
  }

  /** A key that the worker has given up, or that found the queue full, stays pending and is not
      tried again, whatever Puts of it follow. */
  lemma {:induction false} GivenUpForGood(md5: Bytes -> Bytes, steps: seq<Step>, more: seq<Step>, k: Bytes)
    requires Run(md5, steps).Some? && Run(md5, steps + more).Some?
    requires k in Run(md5, steps).value.exhausted + Run(md5, steps).value.overflow
    ensures var t := Run(md5, steps + more).value;
            && k in t.exhausted + t.overflow && k in t.pending
            && k !in Keys(t.queue) && k !in InFlight(t.worker)
  {
    hide Next, Enabled;
    CompensationAccounted(md5, steps + more);
    if more == [] {
      assert steps + more == steps;
    } else {
      var n := |more| - 1;
      assert (steps + more)[..|steps| + n] == steps + more[..n] && (steps + more)[|steps| + n] == more[n];
      GivenUpForGood(md5, steps, more[..n], k);
      GivenUpStays(md5, Run(md5, steps + more[..n]).value, more[n]);
    }
  }

  // ---------------------------------------------------------------------------
  // What the filer and the cache have
  // ---------------------------------------------------------------------------

  /** The file a step gives a key in the filer, or that it takes the key out. */
  function FilerChange(s: Store, step: Step): Option<(Bytes, Option<Bytes>)>
    requires Enabled(s, step)
  {
    match step
    case Register(p, effect, _, _) => if effect then Some((s.puts[p].meta.key, Some(s.puts[p].meta.fileId))) else None
    case Fallback(_, effect, entry) => if effect then Some((entry.key, Some(entry.fileId))) else None
    case Retry(effect, _) => if effect then Some((s.worker.meta.key, Some(s.worker.meta.fileId))) else None
    case DeleteEntry(key, effect, _) => if effect then Some((key, None)) else None
    case _ => None
  }

  /** The same for the cache. */
  function CacheChange(s: Store, step: Step): Option<(Bytes, Option<Bytes>)>
    requires Enabled(s, step)
  {
    match step
    case CachePut(p) => Some((s.puts[p].meta.key, Some(s.puts[p].meta.fileId)))
    case CacheRetried => Some((s.worker.meta.key, Some(s.worker.meta.fileId)))
    case CacheLookup(i) => Some((s.lookups[i].meta.key, Some(s.lookups[i].meta.fileId)))
    case Uncache(i) => Some((s.deletes[i], None))
    case _ => None
  }

  function After(before: Option<Bytes>, change: Option<(Bytes, Option<Bytes>)>, k: Bytes): Option<Bytes> {
    if change.Some? && change.value.0 == k then change.value.1 else before
  }

  /** The file that the last change of the key in the run has given it. */
  function LastInFiler(md5: Bytes -> Bytes, steps: seq<Step>, k: Bytes): Option<Bytes>
    requires Run(md5, steps).Some?
  {
    if steps == [] then None else
      var pre := steps[..|steps| - 1];
      After(LastInFiler(md5, pre, k), FilerChange(Run(md5, pre).value, steps[|steps| - 1]), k)
  }

  function LastInCache(md5: Bytes -> Bytes, steps: seq<Step>, k: Bytes): Option<Bytes>
    requires Run(md5, steps).Some?
  {
    if steps == [] then None else
      var pre := steps[..|steps| - 1];
      After(LastInCache(md5, pre, k), CacheChange(Run(md5, pre).value, steps[|steps| - 1]), k)
  }

  lemma StepChanges(md5: Bytes -> Bytes, s: Store, step: Step, k: Bytes)
    requires Enabled(s, step)
    ensures FileOf(Next(md5, s, step).filer, k) == After(FileOf(s.filer, k), FilerChange(s, step), k)
    ensures FileOf(Next(md5, s, step).cache, k) == After(FileOf(s.cache, k), CacheChange(s, step), k)
  {
    FilerChanges(md5, s, step, k);
    CacheChanges(md5, s, step, k);
  }

  lemma FilerChanges(md5: Bytes -> Bytes, s: Store, step: Step, k: Bytes)
    requires Enabled(s, step)
    ensures FileOf(Next(md5, s, step).filer, k) == After(FileOf(s.filer, k), FilerChange(s, step), k)
  {
    hide Enqueued, RetryOr, MetaOf;
    if step.Enqueue? {
      EnqueuedElse(s, s.puts[step.p].meta);
    }
  }

  lemma CacheChanges(md5: Bytes -> Bytes, s: Store, step: Step, k: Bytes)
    requires Enabled(s, step)
    ensures FileOf(Next(md5, s, step).cache, k) == After(FileOf(s.cache, k), CacheChange(s, step), k)
  {
    hide Enqueued, RetryOr, MetaOf;
    if step.Enqueue? {
      EnqueuedElse(s, s.puts[step.p].meta);
    }
  }

  lemma EnqueuedElse(s: Store, meta: EntryMeta)
    ensures Enqueued(s, meta).filer == s.filer && Enqueued(s, meta).cache == s.cache
  {
  }

  /** After every run the filer has for a key the file of the last registration, fallback or
      retry that took effect, whatever it reported, unless a deletion did since; and the cache
      that of the last Put, retry or lookup that cached the key, unless it was taken out since. */
  lemma {:induction false} LastChangeCounts(md5: Bytes -> Bytes, steps: seq<Step>, k: Bytes)
    requires Run(md5, steps).Some?
    ensures FileOf(Run(md5, steps).value.filer, k) == LastInFiler(md5, steps, k)
    ensures FileOf(Run(md5, steps).value.cache, k) == LastInCache(md5, steps, k)
  {
    hide Next, Enabled, FilerChange, CacheChange, After;
    if steps != [] {
      var n := |steps| - 1;
      LastChangeCounts(md5, steps[..n], k);
      StepChanges(md5, Run(md5, steps[..n]).value, steps[n], k);
    }
  }
}
