/**
  Admission of large workspace operations (crates/media/src/disk.rs, apps/worker/src/common.rs): an
  operation starts only while free space covers the reserve and the budget of every operation that may
  run at once.
*/
module DiskAdmission {
  import opened Prelude

  type u64 = x: int | 0 <= x <= U64_MAX

  /** The concurrency that the deployment admits. */
  const MAX_CONCURRENT_WORKSPACE_OPERATIONS: u64 := 2

  /** u64::saturating_mul. */
  function SaturatingMul(a: u64, b: u64): u64 {
    if (a as int) * (b as int) <= U64_MAX then (a as int) * (b as int) else U64_MAX
  }

  /** DiskSpace::admits: the sum is checked, not saturated. */
  predicate Admits(available: u64, reserve: u64, required: u64) {
    (reserve as int) + (required as int) <= U64_MAX && available >= reserve + required
  }

  /** WorkspaceAdmission::admit on an operation of `multiple` times `bytes`. */
  predicate Admit(available: u64, reserve: u64, bytes: u64, multiple: u64, concurrency: u64) {
    Admits(available, reserve, SaturatingMul(SaturatingMul(bytes, multiple), concurrency))
  }

  // ---------------------------------------------------------------- arithmetic

  /** The unbounded demand. */
  function Demand(bytes: u64, multiple: u64, concurrency: u64): nat {
    ((bytes as int) * (multiple as int)) * (concurrency as int)
  }

  /** Where the saturated arithmetic is exact: a reserve is kept, or the demand fits. */
  predicate Exact(reserve: u64, demand: nat) { reserve > 0 || demand <= U64_MAX }

  lemma Grows(a: nat, b: nat)
    requires b > 0
    ensures a * b >= a
  {
    assert a * b == a + a * (b - 1);
  }

  lemma ChainIsCapped(bytes: u64, multiple: u64, concurrency: u64)
    requires concurrency > 0
    ensures SaturatingMul(SaturatingMul(bytes, multiple), concurrency) ==
      if Demand(bytes, multiple, concurrency) <= U64_MAX then Demand(bytes, multiple, concurrency) else U64_MAX
  {
    var product := (bytes as int) * (multiple as int);
    Grows(product, concurrency);
    if product > U64_MAX { Grows(U64_MAX, concurrency); }
  }

  /**
    The saturating chain admits exactly when free space covers the reserve and the unbounded demand. The
    exception is no reserve and a demand that 64 bits cannot hold: then it admits on a full 64-bit
    measurement.
  */
  lemma ChainExactly(available: u64, reserve: u64, bytes: u64, multiple: u64, concurrency: u64)
    requires concurrency > 0
    ensures var demand := Demand(bytes, multiple, concurrency);
      Admit(available, reserve, bytes, multiple, concurrency) <==>
        if Exact(reserve, demand) then available >= reserve + demand else available == U64_MAX
  {
    ChainIsCapped(bytes, multiple, concurrency);
  }

  // ---------------------------------------------------------------- runs

  /** An admitted operation: the bytes it may write, and those it has not written. */
  datatype Operation = Operation(bound: u64, unwritten: nat)

  datatype Volume = Volume(free: u64, active: seq<Operation>)

  datatype Event =
    | Start(bytes: u64, multiple: u64)
    | Write(index: nat, amount: nat)
    | Finish(index: nat, freed: nat)

  function Unwritten(active: seq<Operation>): nat {
    if active == [] then 0 else active[0].unwritten + Unwritten(active[1..])
  }

  /** An operation is active from the moment it checks; one that is refused is deferred. */
  function Step(v: Volume, e: Event, reserve: u64, concurrency: u64): Volume {
    match e
    case Start(bytes, multiple) =>
      if |v.active| < concurrency && Admit(v.free, reserve, bytes, multiple, concurrency)
      then v.(active := v.active + [Operation(SaturatingMul(bytes, multiple), SaturatingMul(bytes, multiple))])
      else v
    case Write(i, amount) =>
      if i < |v.active| && amount <= v.active[i].unwritten && amount <= v.free
      then Volume(v.free - amount, v.active[i := v.active[i].(unwritten := v.active[i].unwritten - amount)])
      else v
    case Finish(i, freed) =>
      if i < |v.active| && (v.free as int) + freed <= U64_MAX
      then Volume(v.free + freed, v.active[..i] + v.active[i + 1..])
      else v
  }

  function Run(v: Volume, events: seq<Event>, reserve: u64, concurrency: u64): Volume
    decreases |events|
  {
    if events == [] then v
    else Run(Step(v, events[0], reserve, concurrency), events[1..], reserve, concurrency)
  }

  ghost predicate Bounded(active: seq<Operation>, bound: nat) {
    forall i :: 0 <= i < |active| ==> active[i].bound <= bound
  }

  ghost predicate Consistent(active: seq<Operation>) {
    forall i :: 0 <= i < |active| ==> active[i].unwritten <= active[i].bound
  }

  /** Free space covers the reserve and everything the active operations may still write. */
  ghost predicate Covered(v: Volume, reserve: u64, concurrency: u64) {
    && |v.active| <= concurrency && Consistent(v.active)
    && v.free >= reserve + Unwritten(v.active)
  }

  /** The shares of the others cover what the others may still write; and the arithmetic is exact. */
  ghost predicate Fits(v: Volume, e: Event, reserve: u64, concurrency: u64) {
    e.Start? ==>
      var bound := SaturatingMul(e.bytes, e.multiple);
      && (bound == 0 || Unwritten(v.active) <= bound * (concurrency - 1))
      && Exact(reserve, Demand(e.bytes, e.multiple, concurrency))
  }

  ghost predicate AllFit(v: Volume, events: seq<Event>, reserve: u64, concurrency: u64)
    decreases |events|
  {
    events == [] ||
    (&& Fits(v, events[0], reserve, concurrency)
     && AllFit(Step(v, events[0], reserve, concurrency), events[1..], reserve, concurrency))
  }

  lemma {:induction false} UnwrittenSplit(a: seq<Operation>, b: seq<Operation>)
    ensures Unwritten(a + b) == Unwritten(a) + Unwritten(b)
  {
    if a == [] {
      assert a + b == b;
    } else {
      UnwrittenSplit(a[1..], b);
      assert (a + b)[1..] == a[1..] + b;
    }
  }

  lemma UnwrittenAt(a: seq<Operation>, i: nat)
    requires i < |a|
    ensures Unwritten(a) == Unwritten(a[..i]) + a[i].unwritten + Unwritten(a[i + 1..])
  {
    assert a == a[..i] + a[i..] && a[i..][1..] == a[i + 1..];
    UnwrittenSplit(a[..i], a[i..]);
  }

  lemma {:induction false} UnwrittenBound(a: seq<Operation>, bound: nat)
    requires Consistent(a) && Bounded(a, bound)
    ensures Unwritten(a) <= bound * |a|
  {
    if a != [] {
      UnwrittenBound(a[1..], bound);
      assert bound * |a| == bound + bound * (|a| - 1);
    }
  }

  lemma DemandBound(bytes: u64, multiple: u64, concurrency: u64)
    ensures SaturatingMul(bytes, multiple) * concurrency <= Demand(bytes, multiple, concurrency)
    ensures Demand(bytes, multiple, concurrency) <= U64_MAX && concurrency > 0 ==>
      SaturatingMul(bytes, multiple) * concurrency == Demand(bytes, multiple, concurrency)
  {
    var product, bound := (bytes as int) * (multiple as int), SaturatingMul(bytes, multiple);
    assert product * concurrency == bound * concurrency + (product - bound) * concurrency;
    if concurrency > 0 { Grows(product, concurrency); }
  }

  lemma OneShare(bound: int, concurrency: int)
    ensures bound * (concurrency - 1) + bound == bound * concurrency
  {}

  lemma AddOne(active: seq<Operation>, bound: u64)
    ensures Unwritten(active + [Operation(bound, bound)]) == Unwritten(active) + bound
  {
    UnwrittenSplit(active, [Operation(bound, bound)]);
  }

  lemma StartIsCovered(v: Volume, bytes: u64, multiple: u64, reserve: u64, concurrency: u64)
    requires Covered(v, reserve, concurrency) && Fits(v, Start(bytes, multiple), reserve, concurrency)
    requires |v.active| < concurrency && Admit(v.free, reserve, bytes, multiple, concurrency)
    ensures Covered(Step(v, Start(bytes, multiple), reserve, concurrency), reserve, concurrency)
  {
    var bound := SaturatingMul(bytes, multiple);
    ChainExactly(v.free, reserve, bytes, multiple, concurrency);
    AddOne(v.active, bound);
    OneShare(bound, concurrency);
    DemandBound(bytes, multiple, concurrency);
  }

  /** Whatever is measured, an admitted start leaves a covered volume covered. */
  ghost predicate SafeStart(active: seq<Operation>, bytes: u64, multiple: u64, reserve: u64, concurrency: u64) {
    forall free: u64 ::
      Covered(Volume(free, active), reserve, concurrency) && Admit(free, reserve, bytes, multiple, concurrency)
      ==> Covered(Step(Volume(free, active), Start(bytes, multiple), reserve, concurrency), reserve, concurrency)
  }

  /**
    When that is so, in terms of the start alone: the other shares of its budget cover what the others may
    still write, or no measurement can admit it. Where the arithmetic is not exact, only a full 64-bit
    measurement admits, and that must cover everything.
  */
  ghost predicate Affordable(active: seq<Operation>, bytes: u64, multiple: u64, reserve: u64, concurrency: u64) {
    var demand, bound := Demand(bytes, multiple, concurrency), SaturatingMul(bytes, multiple);
    var unwritten := Unwritten(active);
    if Exact(reserve, demand) then
      || bound == 0 || unwritten <= bound * (concurrency - 1)
      || reserve + Max(unwritten, demand) > U64_MAX
    else
      unwritten > U64_MAX || unwritten + bound <= U64_MAX
  }

  lemma AffordableIsSafe(active: seq<Operation>, bytes: u64, multiple: u64, reserve: u64, concurrency: u64)
    requires |active| < concurrency && Affordable(active, bytes, multiple, reserve, concurrency)
    ensures SafeStart(active, bytes, multiple, reserve, concurrency)
  {
    var bound := SaturatingMul(bytes, multiple);
    forall free: u64 |
      Covered(Volume(free, active), reserve, concurrency) && Admit(free, reserve, bytes, multiple, concurrency)
      ensures Covered(Step(Volume(free, active), Start(bytes, multiple), reserve, concurrency), reserve, concurrency)
    {
      ChainExactly(free, reserve, bytes, multiple, concurrency);
      if Exact(reserve, Demand(bytes, multiple, concurrency)) {
        StartIsCovered(Volume(free, active), bytes, multiple, reserve, concurrency);
      } else {
        AddOne(active, bound);
      }
    }
  }

  /** The measurement that shows a start unsafe. */
  lemma UnaffordableIsUnsafe(active: seq<Operation>, bytes: u64, multiple: u64, reserve: u64, concurrency: u64)
    requires |active| < concurrency && Consistent(active)
    requires !Affordable(active, bytes, multiple, reserve, concurrency)
    ensures !SafeStart(active, bytes, multiple, reserve, concurrency)
  {
    var demand, bound := Demand(bytes, multiple, concurrency), SaturatingMul(bytes, multiple);
    var exact := Exact(reserve, demand);
    var free: u64 := if exact then reserve + Max(Unwritten(active), demand) else U64_MAX;
    ChainExactly(free, reserve, bytes, multiple, concurrency);
    DemandBound(bytes, multiple, concurrency);
    OneShare(bound, concurrency);
    AddOne(active, bound);
    assert Covered(Volume(free, active), reserve, concurrency) && Admit(free, reserve, bytes, multiple, concurrency);
    assert !Covered(Step(Volume(free, active), Start(bytes, multiple), reserve, concurrency), reserve, concurrency);
  }

  /** A start is safe for every measurement exactly when it is affordable, or there is no room for it. */
  lemma SafeExactly(active: seq<Operation>, bytes: u64, multiple: u64, reserve: u64, concurrency: u64)
    requires Consistent(active)
    ensures SafeStart(active, bytes, multiple, reserve, concurrency) <==>
      |active| >= concurrency || Affordable(active, bytes, multiple, reserve, concurrency)
  {
    if |active| < concurrency {
      if Affordable(active, bytes, multiple, reserve, concurrency) {
        AffordableIsSafe(active, bytes, multiple, reserve, concurrency);
      } else {
        UnaffordableIsUnsafe(active, bytes, multiple, reserve, concurrency);
      }
    }
  }

  lemma WriteIsCovered(v: Volume, i: nat, amount: nat, reserve: u64, concurrency: u64)
    requires Covered(v, reserve, concurrency)
    ensures Covered(Step(v, Write(i, amount), reserve, concurrency), reserve, concurrency)
  {
    if i < |v.active| && amount <= v.active[i].unwritten {
      var after := v.active[i := v.active[i].(unwritten := v.active[i].unwritten - amount)];
      UnwrittenAt(v.active, i);
      UnwrittenAt(after, i);
      assert after[..i] == v.active[..i] && after[i + 1..] == v.active[i + 1..];
    }
  }

  lemma FinishIsCovered(v: Volume, i: nat, freed: nat, reserve: u64, concurrency: u64)
    requires Covered(v, reserve, concurrency)
    ensures Covered(Step(v, Finish(i, freed), reserve, concurrency), reserve, concurrency)
  {
    if i < |v.active| {
      UnwrittenAt(v.active, i);
      UnwrittenSplit(v.active[..i], v.active[i + 1..]);
    }
  }

  lemma StepKeepsCovered(v: Volume, e: Event, reserve: u64, concurrency: u64)
    requires Covered(v, reserve, concurrency) && Fits(v, e, reserve, concurrency)
    ensures Covered(Step(v, e, reserve, concurrency), reserve, concurrency)
  {
    match e
    case Start(bytes, multiple) =>
      if |v.active| < concurrency && Admit(v.free, reserve, bytes, multiple, concurrency) {
        StartIsCovered(v, bytes, multiple, reserve, concurrency);
      }
    case Write(i, amount) => WriteIsCovered(v, i, amount, reserve, concurrency);
    case Finish(i, freed) => FinishIsCovered(v, i, freed, reserve, concurrency);
  }

  /** Over every run of starts that fit, no admitted operation can eat into the reserve. */
  lemma {:induction false} RunStaysCovered(v: Volume, events: seq<Event>, reserve: u64, concurrency: u64)
    requires Covered(v, reserve, concurrency) && AllFit(v, events, reserve, concurrency)
    ensures Covered(Run(v, events, reserve, concurrency), reserve, concurrency)
    decreases |events|
  {
    if events != [] {
      StepKeepsCovered(v, events[0], reserve, concurrency);
      RunStaysCovered(Step(v, events[0], reserve, concurrency), events[1..], reserve, concurrency);
    }
  }

  // ---------------------------------------------------------------- one byte bound

  ghost predicate SharesBound(events: seq<Event>, bytes: u64, multiple: u64) {
    forall i :: 0 <= i < |events| && events[i].Start? ==> events[i] == Start(bytes, multiple)
  }

  lemma StepKeepsBounded(v: Volume, e: Event, bound: nat, reserve: u64, concurrency: u64)
    requires Bounded(v.active, bound) && (e.Start? ==> SaturatingMul(e.bytes, e.multiple) <= bound)
    ensures Bounded(Step(v, e, reserve, concurrency).active, bound)
  {}

  lemma EqualBoundFits(v: Volume, bytes: u64, multiple: u64, reserve: u64, concurrency: u64)
    requires Consistent(v.active) && Bounded(v.active, SaturatingMul(bytes, multiple)) && |v.active| < concurrency
    requires Exact(reserve, Demand(bytes, multiple, concurrency))
    ensures Fits(v, Start(bytes, multiple), reserve, concurrency)
  {
    var bound := SaturatingMul(bytes, multiple);
    UnwrittenBound(v.active, bound);
    Monotone(bound, |v.active|, concurrency - 1);
  }

  lemma Monotone(bound: nat, m: nat, n: nat)
    requires m <= n
    ensures bound * m <= bound * n
  {}

  /** Runs whose starts all have one bound stay covered. */
  lemma {:induction false} SharedStaysCovered(
    v: Volume, events: seq<Event>, bytes: u64, multiple: u64, reserve: u64, concurrency: u64)
    requires SharesBound(events, bytes, multiple) && Bounded(v.active, SaturatingMul(bytes, multiple))
    requires Exact(reserve, Demand(bytes, multiple, concurrency)) && Covered(v, reserve, concurrency)
    ensures Covered(Run(v, events, reserve, concurrency), reserve, concurrency)
    decreases |events|
  {
    if events != [] {
      var e := events[0];
      var next := Step(v, e, reserve, concurrency);
      StepKeepsBounded(v, e, SaturatingMul(bytes, multiple), reserve, concurrency);
      if e.Start? && |v.active| < concurrency {
        EqualBoundFits(v, bytes, multiple, reserve, concurrency);
        StepKeepsCovered(v, e, reserve, concurrency);
      } else if !e.Start? {
        StepKeepsCovered(v, e, reserve, concurrency);
      }
      SharedStaysCovered(next, events[1..], bytes, multiple, reserve, concurrency);
    }
  }

  /** Below the reserve nothing starts, so nothing changes. */
  lemma {:induction false} BelowReserveNothingStarts(free: u64, events: seq<Event>, reserve: u64, concurrency: u64)
    requires free < reserve
    ensures Run(Volume(free, []), events, reserve, concurrency) == Volume(free, [])
    decreases |events|
  {
    if events != [] { BelowReserveNothingStarts(free, events[1..], reserve, concurrency); }
  }

  /** The deployment: two operations at most, one byte bound, a positive reserve, any interleaving. */
  lemma SharedBoundIsSafe(free: u64, events: seq<Event>, bytes: u64, multiple: u64, reserve: u64)
    requires reserve > 0 && SharesBound(events, bytes, multiple)
    ensures var v := Run(Volume(free, []), events, reserve, MAX_CONCURRENT_WORKSPACE_OPERATIONS);
      && |v.active| <= 2
      && (if free >= reserve then v.free >= reserve + Unwritten(v.active) else v == Volume(free, []))
  {
    if free >= reserve {
      SharedStaysCovered(Volume(free, []), events, bytes, multiple, reserve, MAX_CONCURRENT_WORKSPACE_OPERATIONS);
    } else {
      BelowReserveNothingStarts(free, events, reserve, MAX_CONCURRENT_WORKSPACE_OPERATIONS);
    }
  }

  lemma RunStep(v: Volume, e: Event, events: seq<Event>, reserve: u64, concurrency: u64)
    ensures Run(v, [e] + events, reserve, concurrency)
         == Run(Step(v, e, reserve, concurrency), events, reserve, concurrency)
  {
    assert ([e] + events)[1..] == events;
  }

  const LARGE := Operation(10, 10)
  const SMALL := Operation(4, 4)

  /** A small operation is admitted beside the large one, writes all it may, and its output stays. */
  lemma SmallRound(free: u64, events: seq<Event>)
    requires free >= 9
    ensures Run(Volume(free, [LARGE]), [Start(4, 1)] + ([Write(1, 4)] + ([Finish(1, 0)] + events)), 1, 2)
         == Run(Volume(free - 4, [LARGE]), events, 1, 2)
  {
    var started := Volume(free, [LARGE, SMALL]);
    var written := Volume(free - 4, [LARGE, Operation(4, 0)]);
    RunStep(Volume(free, [LARGE]), Start(4, 1), [Write(1, 4)] + ([Finish(1, 0)] + events), 1, 2);
    assert Step(Volume(free, [LARGE]), Start(4, 1), 1, 2) == started;
    RunStep(started, Write(1, 4), [Finish(1, 0)] + events, 1, 2);
    assert Step(started, Write(1, 4), 1, 2) == written;
    RunStep(written, Finish(1, 0), events, 1, 2);
    assert Step(written, Finish(1, 0), 1, 2) == Volume(free - 4, [LARGE]);
  }

  /**
    Mixed sizes are not safe: from an idle volume, two small operations that keep their output use up
    what a large one was promised, and a third is still admitted.
  */
  lemma MixedSizesAreNotSafe()
    ensures var events := [Start(10, 1), Start(4, 1), Write(1, 4), Finish(1, 0),
                           Start(4, 1), Write(1, 4), Finish(1, 0), Start(4, 1)];
      var v := Run(Volume(21, []), events, 1, 2);
      v == Volume(13, [LARGE, SMALL]) && v.free < 1 + Unwritten(v.active)
  {
    var third := [Start(4, 1)] + [];
    var second := [Start(4, 1)] + ([Write(1, 4)] + ([Finish(1, 0)] + third));
    var first := [Start(4, 1)] + ([Write(1, 4)] + ([Finish(1, 0)] + second));
    assert [Start(10, 1), Start(4, 1), Write(1, 4), Finish(1, 0), Start(4, 1), Write(1, 4), Finish(1, 0), Start(4, 1)]
        == [Start(10, 1)] + first;
    RunStep(Volume(21, []), Start(10, 1), first, 1, 2);
    assert Step(Volume(21, []), Start(10, 1), 1, 2) == Volume(21, [LARGE]);
    SmallRound(21, second);
    SmallRound(17, third);
    RunStep(Volume(13, [LARGE]), Start(4, 1), [], 1, 2);
    assert Step(Volume(13, [LARGE]), Start(4, 1), 1, 2) == Volume(13, [LARGE, SMALL]);
    AddOne([LARGE], 4);
    AddOne([], 10);
    assert [LARGE] + [SMALL] == [LARGE, SMALL] && [] + [LARGE] == [LARGE];
  }
}
