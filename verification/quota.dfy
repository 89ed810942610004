/** The memory quota: Allocate first adds and then takes back what exceeds the limit, so
    several callers can be between the two steps at once. */
module Quota {
  import opened Common

  /** The counter, and the sizes it should account for: grants not yet released, and
      rejected requests whose size has not been taken back yet. */
  datatype Ledger = Ledger(max: int, used: int, granted: seq<nat>, rejected: seq<nat>)

  datatype Step = Add(size: nat) | Rollback(i: nat) | Release(i: nat)

  function Without(s: seq<nat>, i: nat): seq<nat>
    requires i < |s|
  {
    s[..i] + s[i + 1..]
  }

  /** A rollback belongs to a rejected request and a release to a grant. */
  predicate Enabled(l: Ledger, s: Step) {
    match s
    case Add(_) => true
    case Rollback(i) => i < |l.rejected|
    case Release(i) => i < |l.granted|
  }

  function Next(l: Ledger, s: Step): Ledger
    requires Enabled(l, s)
  {
    match s
    case Add(size) =>
      var used := l.used + size;
      if used > l.max then l.(used := used, rejected := l.rejected + [size])
      else l.(used := used, granted := l.granted + [size])
    case Rollback(i) => l.(used := l.used - l.rejected[i], rejected := Without(l.rejected, i))
    case Release(i) => l.(used := l.used - l.granted[i], granted := Without(l.granted, i))
  }

  function New(max: int): Ledger {
    Ledger(max, 0, [], [])
  }

  class Controller {
    const maxBytes: int
    var usedBytes: int
    ghost var granted: seq<nat>
    ghost var rejected: seq<nat>

    ghost function Value(): Ledger
      reads this
    {
      Ledger(maxBytes, usedBytes, granted, rejected)
    }

    constructor (maxMB: int)
      ensures Value() == New(maxMB * 1024 * 1024)
    {
      maxBytes, usedBytes := maxMB * 1024 * 1024, 0;
      granted, rejected := [], [];
    }

    /** The first atomic step of Allocate, and the comparison it decides. */
    method AllocateAdd(size: nat) returns (newUsed: int, exceeded: bool)
      modifies this
      ensures Value() == Next(old(Value()), Add(size))
      ensures newUsed == usedBytes && (exceeded <==> newUsed > maxBytes)
    {
      usedBytes := usedBytes + size;
      newUsed := usedBytes;
      exceeded := newUsed > maxBytes;
      if exceeded {
        rejected := rejected + [size];
      } else {
        granted := granted + [size];
      }
    }

    /** Its second atomic step, taken by a request that exceeded the limit. */
    method AllocateRollback(size: nat, ghost i: nat)
      requires i < |rejected| && rejected[i] == size
      modifies this
      ensures Value() == Next(old(Value()), Rollback(i))
    {
      usedBytes := usedBytes - size;
      rejected := Without(rejected, i);
    }

    method Release(size: nat, ghost i: nat)
      requires i < |granted| && granted[i] == size
      modifies this
      ensures Value() == Next(old(Value()), Step.Release(i))
    {
      usedBytes := usedBytes - size;
      granted := Without(granted, i);
    }

    /** Allocate without interruption: granted, or without effect. */
    method Allocate(size: nat) returns (ok: bool)
      modifies this
      ensures ok <==> old(usedBytes) + size <= maxBytes
      ensures Value() == if ok then old(Value()).(used := old(usedBytes) + size, granted := old(granted) + [size])
                         else old(Value())
    {
      var newUsed, exceeded := AllocateAdd(size);
      if exceeded {
        AllocateRollback(size, |rejected| - 1);
        assert rejected == old(rejected);
      }
      ok := !exceeded;
    }
  }

  // ---------------------------------------------------------------------------
  // Every interleaving
  // ---------------------------------------------------------------------------

  function Sum(s: seq<nat>): nat {
    if s == [] then 0 else Sum(s[..|s| - 1]) + s[|s| - 1]
  }

  lemma {:induction false} SumWithout(s: seq<nat>, i: nat)
    requires i < |s|
    ensures Sum(Without(s, i)) == Sum(s) - s[i]
  {
    var n := |s| - 1;
    if i == n {
      assert Without(s, i) == s[..n];
    } else {
      SumWithout(s[..n], i);
      var w := Without(s, i);
      assert w[..n - 1] == Without(s[..n], i) && w[n - 1] == s[n];
    }
  }

  lemma SumAppend(s: seq<nat>, x: nat)
    ensures Sum(s + [x]) == Sum(s) + x
  {
    assert (s + [x])[..|s|] == s;
  }

  /** The state after a sequence of steps, if each was enabled when it was taken. */
  function Run(start: Ledger, steps: seq<Step>): Option<Ledger> {
    if steps == [] then Some(start) else
      var before := Run(start, steps[..|steps| - 1]);
      if before.Some? && Enabled(before.value, steps[|steps| - 1])
      then Some(Next(before.value, steps[|steps| - 1])) else None
  }

  /** The counter is exact, and grants stay within the limit. */
  ghost predicate Safe(l: Ledger) {
    l.used == Sum(l.granted) + Sum(l.rejected) && (l.granted != [] ==> Sum(l.granted) <= l.max)
  }

  lemma StepSafe(l: Ledger, s: Step)
    requires Safe(l) && Enabled(l, s)
    ensures Safe(Next(l, s))
  {
    match s
    case Add(size) =>
      SumAppend(l.granted, size);
      SumAppend(l.rejected, size);
    case Rollback(i) =>
      SumWithout(l.rejected, i);
    case Release(i) =>
      SumWithout(l.granted, i);
  }

  /** In every interleaving of adds, rollbacks and releases. */
  lemma {:induction false} QuotaSafe(max: int, steps: seq<Step>)
    requires Run(New(max), steps).Some?
    ensures Safe(Run(New(max), steps).value) && Run(New(max), steps).value.max == max
  {
    if steps != [] {
      var n := |steps| - 1;
      QuotaSafe(max, steps[..n]);
      StepSafe(Run(New(max), steps[..n]).value, steps[n]);
    }
  }

  /** A request is granted exactly when it fits beside the grants and the rejected sizes
      still in the counter; once those are gone, exactly when it fits the quota. */
  lemma GrantedExactly(max: int, steps: seq<Step>, size: nat)
    requires Run(New(max), steps).Some?
    ensures var l := Run(New(max), steps).value;
            && (Next(l, Add(size)).granted != l.granted <==> Sum(l.granted) + Sum(l.rejected) + size <= max)
            && (l.rejected == [] ==> (Next(l, Add(size)).granted != l.granted <==> Sum(l.granted) + size <= max))
  {
    QuotaSafe(max, steps);
    var l := Run(New(max), steps).value;
    assert |l.granted + [size]| != |l.granted|;
  }

  /** So a request can be turned away although the quota has room for it. */
  lemma SpuriousRejection(max: nat) returns (steps: seq<Step>)
    requires max > 0
    ensures Run(New(max), steps).Some?
    ensures var l := Run(New(max), steps).value;
            Sum(l.granted) + 1 <= max && Next(l, Add(1)).granted == l.granted
  {
    steps := [Add(max + 1)];
    assert steps[..0] == [];
  }
}
