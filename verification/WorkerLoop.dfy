/**
  The durable queue worker (apps/worker/src/runner.rs) with the failure constructors that drive its
  settlements (apps/worker/src/common.rs).

  A run is a finite script of polls. Each claimed job carries the outcome of every race it takes part
  in: which branch of the select is ready first, how the handler and the heartbeat end, and whether
  the settlement call itself succeeds.
*/
module WorkerLoop {
  import opened Prelude

  datatype HandlerFailure = HandlerFailure(
    retryable: bool,
    deferred: bool,                       // defer_until is set
    deferWithoutConsumingAttempt: bool,
    retryWithoutConsumingAttempt: bool,
    requiresStorageReconciliation: bool)

  const PERMANENT := HandlerFailure(false, false, false, false, false)

  type HandlerResult = Result<(), HandlerFailure>

  /** The select of execute_handler: the first branch to be ready, and how the others end. */
  datatype Race =
    | ShutdownFirst(result: HandlerResult, heartbeatOk: bool)
    | HandlerFirst(result: HandlerResult, heartbeatOk: bool)
    | HeartbeatFirst(result: HandlerResult)

  datatype Handler = Unregistered | Registered(cancellable: bool)

  /** One claimed job. */
  datatype Execution = Execution(
    hasLease: bool,
    handler: Handler,
    race: Race,
    settles: bool,                        // the repository accepts the settlement call
    requeues: bool)                       // a retry left the job queued rather than exhausted

  datatype Poll =
    | ShutdownDuringClaim
    | ClaimError
    | Nothing(shutdownWhileSleeping: bool)
    | Claimed(job: Execution)

  datatype HandlerRunOutcome =
    | Completed(result: HandlerResult)
    | ShutdownCompleted(result: HandlerResult)
    | HeartbeatFailed(result: HandlerResult)
    | Shutdown

  datatype Settlement =
    | CompleteLease
    | RetryLater(nonConsuming: bool)
    | Defer(nonConsuming: bool)
    | ShutdownRetry
    | FailJob

  /** One call to the job repository for the lease of the n-th claim. */
  datatype Call = Call(lease: nat, settlement: Settlement, accepted: bool)

  datatype Fate = Succeeded | Retried | Failed | ShutdownRequeued | Deferred | LeftForReconciliation | Aborted

  datatype LoopResult = Running | Stopped | Crashed

  /** execute_handler; an error is a worker error, which abandons the job without settling it. */
  function ExecuteHandler(cancellable: bool, race: Race): (r: Result<HandlerRunOutcome, ()>)
    ensures r.Ok? && r.value.Completed? ==> race.HandlerFirst? && race.heartbeatOk && r.value.result == race.result
    ensures r.Ok? && r.value.ShutdownCompleted? ==>
      race.ShutdownFirst? && race.heartbeatOk && r.value.result == race.result
    ensures r.Ok? && r.value.HeartbeatFailed? <==> race.HeartbeatFirst? && cancellable
    ensures r.Ok? && r.value.HeartbeatFailed? ==>
      r.value.result.Err? && (race.result.Err? ==> r.value.result == race.result)
    ensures r.Ok? && r.value.Shutdown? <==> race.ShutdownFirst? && race.heartbeatOk && !cancellable
    ensures r.Err? <==> (!race.HeartbeatFirst? && !race.heartbeatOk) || (race.HeartbeatFirst? && !cancellable)
  {
    match race
    case ShutdownFirst(result, heartbeatOk) =>
      if !heartbeatOk then Err(())
      else if cancellable then Ok(ShutdownCompleted(result))
      else Ok(Shutdown)
    case HandlerFirst(result, heartbeatOk) =>
      if heartbeatOk then Ok(Completed(result)) else Err(())
    case HeartbeatFirst(result) =>
      if !cancellable then Err(())
      else Ok(HeartbeatFailed(if result.Ok? then Err(PERMANENT) else result))
  }

  ghost function Count(fates: seq<Fate>, fate: Fate): nat {
    if fates == [] then 0
    else Count(fates[..|fates| - 1], fate) + (if fates[|fates| - 1] == fate then 1 else 0)
  }

  /** Every claim meets exactly one fate. */
  lemma {:induction false} Conservation(fates: seq<Fate>)
    ensures |fates| == Count(fates, Succeeded) + Count(fates, Retried) + Count(fates, Failed)
                       + Count(fates, ShutdownRequeued) + Count(fates, Deferred)
                       + Count(fates, LeftForReconciliation) + Count(fates, Aborted)
  {
    if fates != [] { Conservation(fates[..|fates| - 1]); }
  }

  lemma {:induction false} CountsOccurrences(fates: seq<Fate>, fate: Fate)
    ensures Count(fates, fate) == multiset(fates)[fate]
  {
    if fates != [] {
      CountsOccurrences(fates[..|fates| - 1], fate);
      assert fates == fates[..|fates| - 1] + [fates[|fates| - 1]];
    }
  }

  lemma CountAppend(fates: seq<Fate>, last: Fate, fate: Fate)
    ensures Count(fates + [last], fate) == Count(fates, fate) + (if last == fate then 1 else 0)
  {
    assert (fates + [last])[..|fates|] == fates;
  }

  /** The handler finished with Ok and the heartbeat ended without an error. */
  predicate Sound(job: Execution) {
    !job.race.HeartbeatFirst? && job.race.result.Ok? && job.race.heartbeatOk
  }

  /** The settlement a failed or successful handler asks for; none leaves the lease to recovery. */
  function Request(result: HandlerResult): Option<Settlement> {
    match result
    case Ok(_) => Some(CompleteLease)
    case Err(failure) =>
      if failure.requiresStorageReconciliation then None
      else if failure.deferred then Some(Defer(failure.deferWithoutConsumingAttempt))
      else if failure.retryable then Some(RetryLater(failure.retryWithoutConsumingAttempt))
      else Some(FailJob)
  }

  /** A worker error ends the run before the job could be settled. */
  predicate Abandoned(job: Execution) {
    || !job.hasLease
    || (job.handler.Registered? && !job.race.HeartbeatFirst? && !job.race.heartbeatOk)
    || (job.handler.Registered? && job.race.HeartbeatFirst? && !job.handler.cancellable)
  }

  /** The one settlement call a claimed job gives rise to, if any. */
  function Expected(job: Execution): Option<Settlement> {
    if Abandoned(job) then None
    else if job.handler.Unregistered? then Some(FailJob)
    else if job.race.HeartbeatFirst? && job.race.result.Ok? then Some(FailJob)
    else if job.race.ShutdownFirst? && !job.handler.cancellable then Some(ShutdownRetry)
    else Request(job.race.result)
  }

  /** What becomes of a claimed job. */
  function FateOf(job: Execution): Fate {
    if Abandoned(job) then Aborted
    else if Expected(job).None? then LeftForReconciliation
    else if !job.settles then Aborted
    else match Expected(job).value
      case CompleteLease => Succeeded
      case RetryLater(_) => if job.requeues then Retried else Failed
      case Defer(_) => Deferred
      case ShutdownRetry => ShutdownRequeued
      case FailJob => Failed
  }

  /** A lease is completed exactly when a registered handler returned Ok, not cut off by a shutdown
      it cannot hear, and the heartbeat ended without an error. */
  lemma CompletionNeedsSoundness(job: Execution)
    ensures Expected(job) == Some(CompleteLease) <==>
              && job.hasLease && job.handler.Registered? && Sound(job)
              && (job.race.ShutdownFirst? ==> job.handler.cancellable)
  {}

  // ---------------------------------------------------------------- what a claim calls for

  /** The worker gets as far as settling the job: its heartbeat ended well, or the handler could be told. */
  ghost predicate Reaches(job: Execution) {
    && job.hasLease
    && (job.handler.Registered? ==>
          if job.race.HeartbeatFirst? then job.handler.cancellable else job.race.heartbeatOk)
  }

  /** A shutdown came first, and the handler could not be told. */
  ghost predicate Unheard(job: Execution) {
    job.handler.Registered? && job.race.ShutdownFirst? && !job.handler.cancellable
  }

  /** A handler ran to its end and failed. */
  ghost predicate Fails(job: Execution) {
    Reaches(job) && job.handler.Registered? && !Unheard(job) && job.race.result.Err?
  }

  /** Its failure leaves the job to storage reconciliation. */
  ghost predicate Unresolved(job: Execution) {
    Fails(job) && job.race.result.error.requiresStorageReconciliation
  }

  ghost predicate Deferring(job: Execution) { Fails(job) && !Unresolved(job) && job.race.result.error.deferred }

  ghost predicate Retrying(job: Execution) {
    Fails(job) && !Unresolved(job) && !job.race.result.error.deferred && job.race.result.error.retryable
  }

  ghost predicate Made(calls: seq<Call>, l: nat, settlement: Settlement) {
    exists i :: 0 <= i < |calls| && calls[i].lease == l && calls[i].settlement == settlement
  }

  /** The calls made for the l-th claim are the ones its handler, heartbeat and shutdown call for. */
  ghost predicate SettledRightly(job: Execution, calls: seq<Call>, l: nat) {
    && (forall n :: Made(calls, l, RetryLater(n)) <==>
          Retrying(job) && n == job.race.result.error.retryWithoutConsumingAttempt)
    && (forall n :: Made(calls, l, Defer(n)) <==>
          Deferring(job) && n == job.race.result.error.deferWithoutConsumingAttempt)
    && (Made(calls, l, ShutdownRetry) <==> Reaches(job) && Unheard(job))
    && (Made(calls, l, CompleteLease) <==>
          Reaches(job) && job.handler.Registered? && !Unheard(job) && Sound(job))
    && (Made(calls, l, FailJob) <==>
          || (Reaches(job) && job.handler.Unregistered?)
          || (Reaches(job) && job.race.HeartbeatFirst? && job.race.result.Ok?)
          || (Fails(job) && !Unresolved(job) && !Deferring(job) && !Retrying(job)))
    && (Called(calls, l) <==> Reaches(job) && !Unresolved(job))
  }

  /** What became of the l-th claim follows from the call made for it and how that was answered. */
  ghost predicate DecidedRightly(job: Execution, fate: Fate, calls: seq<Call>, l: nat) {
    var retry := Made(calls, l, RetryLater(true)) || Made(calls, l, RetryLater(false));
    && (fate == Succeeded <==> job.settles && Made(calls, l, CompleteLease))
    && (fate == Retried <==> job.settles && job.requeues && retry)
    && (fate == Failed <==> job.settles && (Made(calls, l, FailJob) || (retry && !job.requeues)))
    && (fate == ShutdownRequeued <==> job.settles && Made(calls, l, ShutdownRetry))
    && (fate == Deferred <==> job.settles && (Made(calls, l, Defer(true)) || Made(calls, l, Defer(false))))
    && (fate == LeftForReconciliation <==> Unresolved(job))
    && (fate == Aborted <==> !Reaches(job) || (Called(calls, l) && !job.settles))
  }

  /** The loop ends well on a shutdown: while claiming, while sleeping, or during a job that was settled. */
  ghost predicate Stops(poll: Poll) {
    match poll
    case ShutdownDuringClaim => true
    case ClaimError => false
    case Nothing(shutdown) => shutdown
    case Claimed(job) =>
      job.handler.Registered? && job.race.ShutdownFirst? && Reaches(job) && (job.settles || Unresolved(job))
  }

  /** It ends with an error when a claim, a heartbeat or a settlement fails. */
  ghost predicate Breaks(poll: Poll) {
    match poll
    case ShutdownDuringClaim => false
    case ClaimError => true
    case Nothing(_) => false
    case Claimed(job) =>
      || !Reaches(job) || (job.handler.Registered? && job.race.HeartbeatFirst?)
      || (!job.settles && !Unresolved(job))
  }

  lemma AfterMeaning(poll: Poll)
    ensures After(poll) == Stopped <==> Stops(poll)
    ensures After(poll) == Crashed <==> Breaks(poll)
  {}

  /** The one call expected of a claim, settlement by settlement. */
  lemma ExpectedMeaning(job: Execution)
    ensures var e := Expected(job);
      && (forall n :: e == Some(RetryLater(n)) <==>
            Retrying(job) && n == job.race.result.error.retryWithoutConsumingAttempt)
      && (forall n :: e == Some(Defer(n)) <==>
            Deferring(job) && n == job.race.result.error.deferWithoutConsumingAttempt)
      && (e == Some(ShutdownRetry) <==> Reaches(job) && Unheard(job))
      && (e == Some(CompleteLease) <==>
            Reaches(job) && job.handler.Registered? && !Unheard(job) && Sound(job))
      && (e == Some(FailJob) <==>
            || (Reaches(job) && job.handler.Unregistered?)
            || (Reaches(job) && job.race.HeartbeatFirst? && job.race.result.Ok?)
            || (Fails(job) && !Unresolved(job) && !Deferring(job) && !Retrying(job)))
      && (e.Some? <==> Reaches(job) && !Unresolved(job))
  {}

  // ---------------------------------------------------------------- the ledger of a run

  ghost predicate CallOk(job: Execution, call: Call) {
    Expected(job) == Some(call.settlement) && call.accepted == job.settles
  }

  ghost predicate Called(calls: seq<Call>, l: nat) {
    exists i :: 0 <= i < |calls| && calls[i].lease == l
  }

  /** Calls are made at most once per claim, in claim order, and only the expected ones. */
  ghost predicate CallsOk(jobs: seq<Execution>, calls: seq<Call>) {
    && (forall i :: 0 <= i < |calls| ==> calls[i].lease < |jobs| && CallOk(jobs[calls[i].lease], calls[i]))
    && (forall i, j :: 0 <= i < j < |calls| ==> calls[i].lease < calls[j].lease)
  }

  /** Every decided claim met its fate, and the expected calls were really made. */
  ghost predicate FatesOk(jobs: seq<Execution>, calls: seq<Call>, fates: seq<Fate>) {
    && |fates| <= |jobs|
    && (forall l :: 0 <= l < |fates| ==> fates[l] == FateOf(jobs[l]))
    && (forall l :: 0 <= l < |fates| && Expected(jobs[l]).Some? ==> Called(calls, l))
  }

  ghost predicate Ledger(jobs: seq<Execution>, calls: seq<Call>, fates: seq<Fate>) {
    && |jobs| == |fates| && CallsOk(jobs, calls) && FatesOk(jobs, calls, fates)
    && (forall l :: 0 <= l < |fates| - 1 ==> fates[l] != Aborted)
  }

  ghost predicate Clean(fates: seq<Fate>) {
    forall l :: 0 <= l < |fates| ==> fates[l] != Aborted
  }

  /** The last claim is undecided; `called` says whether its settlement call was made. */
  ghost predicate Open(jobs: seq<Execution>, calls: seq<Call>, fates: seq<Fate>, job: Execution, called: bool) {
    && |jobs| == |fates| + 1 && jobs[|fates|] == job
    && CallsOk(jobs, calls) && FatesOk(jobs, calls, fates) && Clean(fates)
    && (if called then Called(calls, |fates|) else forall i :: 0 <= i < |calls| ==> calls[i].lease < |fates|)
  }

  lemma OpenClaim(jobs: seq<Execution>, calls: seq<Call>, fates: seq<Fate>, job: Execution)
    requires Ledger(jobs, calls, fates) && Clean(fates)
    ensures Open(jobs + [job], calls, fates, job, false)
  {}

  lemma CallClaim(jobs: seq<Execution>, calls: seq<Call>, fates: seq<Fate>, job: Execution, settlement: Settlement)
    requires Open(jobs, calls, fates, job, false) && Expected(job) == Some(settlement)
    ensures Open(jobs, calls + [Call(|fates|, settlement, job.settles)], fates, job, true)
  {
    var after := calls + [Call(|fates|, settlement, job.settles)];
    assert after[|calls|].lease == |fates|;
    forall l | 0 <= l < |fates| && Expected(jobs[l]).Some? ensures Called(after, l) {
      assert Called(calls, l);
      var i :| 0 <= i < |calls| && calls[i].lease == l;
      assert after[i].lease == l;
    }
  }

  lemma DecideClaim(jobs: seq<Execution>, calls: seq<Call>, fates: seq<Fate>, job: Execution)
    requires Open(jobs, calls, fates, job, Expected(job).Some?)
    ensures Ledger(jobs, calls, fates + [FateOf(job)])
    ensures FateOf(job) != Aborted ==> Clean(fates + [FateOf(job)])
  {}

  lemma {:induction false} NoneEarlier(fates: seq<Fate>, fate: Fate)
    requires forall i :: 0 <= i < |fates| ==> fates[i] != fate
    ensures Count(fates, fate) == 0
  {
    if fates != [] { NoneEarlier(fates[..|fates| - 1], fate); }
  }

  /** What a ledger says about a whole run. */
  lemma LedgerMeaning(jobs: seq<Execution>, calls: seq<Call>, fates: seq<Fate>)
    requires Ledger(jobs, calls, fates)
    ensures forall i, j :: 0 <= i < j < |calls| ==> calls[i].lease != calls[j].lease
    ensures forall i :: 0 <= i < |calls| && calls[i].settlement == CompleteLease ==>
              calls[i].lease < |jobs| && Sound(jobs[calls[i].lease])
    ensures Count(fates, Aborted) == (if fates != [] && fates[|fates| - 1] == Aborted then 1 else 0)
    ensures forall l :: 0 <= l < |jobs| && fates[l] != LeftForReconciliation && fates[l] != Aborted ==>
              exists i :: 0 <= i < |calls| && calls[i].lease == l && calls[i].accepted
  {
    if fates != [] { NoneEarlier(fates[..|fates| - 1], Aborted); }
    forall l | 0 <= l < |jobs| && fates[l] != LeftForReconciliation && fates[l] != Aborted
      ensures exists i :: 0 <= i < |calls| && calls[i].lease == l && calls[i].accepted
    {
      assert Called(calls, l);
      var i :| 0 <= i < |calls| && calls[i].lease == l;
      assert CallOk(jobs[l], calls[i]);
    }
  }

  lemma MadeExactly(jobs: seq<Execution>, calls: seq<Call>, fates: seq<Fate>, l: nat, settlement: Settlement)
    requires Ledger(jobs, calls, fates) && l < |jobs|
    ensures Made(calls, l, settlement) <==> Expected(jobs[l]) == Some(settlement)
    ensures Called(calls, l) <==> Expected(jobs[l]).Some?
  {
    if Expected(jobs[l]).Some? {
      assert Called(calls, l);
      var i :| 0 <= i < |calls| && calls[i].lease == l;
      assert CallOk(jobs[l], calls[i]);
    }
  }

  /** In a ledger every claim was settled and decided as its execution calls for. */
  lemma LedgerIsRight(jobs: seq<Execution>, calls: seq<Call>, fates: seq<Fate>, l: nat)
    requires Ledger(jobs, calls, fates) && l < |jobs|
    ensures SettledRightly(jobs[l], calls, l)
    ensures DecidedRightly(jobs[l], fates[l], calls, l)
  {
    forall settlement ensures Made(calls, l, settlement) <==> Expected(jobs[l]) == Some(settlement) {
      MadeExactly(jobs, calls, fates, l, settlement);
    }
    MadeExactly(jobs, calls, fates, l, FailJob);
    ExpectedMeaning(jobs[l]);
    assert fates[l] == FateOf(jobs[l]);
  }

  // ---------------------------------------------------------------- scripts

  /** The jobs a script of polls hands out, in order. */
  function Claims(script: seq<Poll>): seq<Execution> {
    if script == [] then []
    else
      var earlier, last := Claims(script[..|script| - 1]), script[|script| - 1];
      if last.Claimed? then earlier + [last.job] else earlier
  }

  /** What one poll means for the loop. A job stops it after a shutdown and ends it with an error when
      its heartbeat was lost or it could not be settled. */
  function After(poll: Poll): LoopResult {
    match poll
    case ShutdownDuringClaim => Stopped
    case ClaimError => Crashed
    case Nothing(shutdownWhileSleeping) => if shutdownWhileSleeping then Stopped else Running
    case Claimed(job) =>
      if FateOf(job) == Aborted || (job.handler.Registered? && job.race.HeartbeatFirst?) then Crashed
      else if job.handler.Registered? && job.race.ShutdownFirst? then Stopped
      else Running
  }

  /** The loop makes `polls` polls of the script: it goes on while they let it, and no longer. */
  ghost predicate Polled(script: seq<Poll>, polls: nat, result: LoopResult) {
    && polls <= |script|
    && (forall i :: 0 <= i < polls - 1 ==> After(script[i]) == Running)
    && (if polls == 0 then result == Running else result == After(script[polls - 1]))
    && (result == Running ==> polls == |script|)
  }

  /** That determines how far the loop gets and how it ends. */
  lemma PolledOnce(script: seq<Poll>, m: nat, r: LoopResult, n: nat, q: LoopResult)
    requires Polled(script, m, r) && Polled(script, n, q)
    ensures m == n && r == q
  {}

  /** And in terms of the polls: it ends with the first one that stops or breaks it. */
  lemma PolledMeaning(script: seq<Poll>, polls: nat, result: LoopResult)
    requires Polled(script, polls, result)
    ensures forall i :: 0 <= i < polls - 1 ==> !Stops(script[i]) && !Breaks(script[i])
    ensures result == Stopped <==> polls > 0 && Stops(script[polls - 1])
    ensures result == Crashed <==> polls > 0 && Breaks(script[polls - 1])
    ensures result == Running ==> polls == |script|
  {
    forall i | 0 <= i < polls
      ensures After(script[i]) == Stopped <==> Stops(script[i])
      ensures After(script[i]) == Crashed <==> Breaks(script[i])
    {
      AfterMeaning(script[i]);
    }
  }

  // ---------------------------------------------------------------- the worker

  class Worker {
    var polls: nat
    var claimed: nat
    var succeeded: nat
    var retried: nat
    var failed: nat
    var shutdownRequeued: nat

    var calls: seq<Call>                  // settlement calls made, in order
    ghost var jobs: seq<Execution>        // claims, in order
    ghost var fates: seq<Fate>            // what became of each claim

    constructor ()
      ensures Valid() && claimed == 0 && calls == [] && polls == 0
    {
      polls, claimed, succeeded, retried, failed, shutdownRequeued := 0, 0, 0, 0, 0, 0;
      calls, jobs, fates := [], [], [];
    }

    /** The counters count fates; `pending` is the claim being decided. */
    ghost predicate Counted(pending: seq<Fate>)
      reads this
    {
      && succeeded == Count(fates + pending, Succeeded) && retried == Count(fates + pending, Retried)
      && failed == Count(fates + pending, Failed) && shutdownRequeued == Count(fates + pending, ShutdownRequeued)
    }

    ghost predicate Valid()
      reads this
    {
      claimed == |jobs| && Ledger(jobs, calls, fates) && Counted([])
    }

    method Settle(job: Execution, settlement: Settlement) returns (accepted: bool)
      requires Open(jobs, calls, fates, job, false) && Expected(job) == Some(settlement) && claimed == |jobs|
      modifies this`calls
      ensures accepted == job.settles
      ensures calls == old(calls) + [Call(claimed - 1, settlement, accepted)]
      ensures Open(jobs, calls, fates, job, true)
    {
      CallClaim(jobs, calls, fates, job, settlement);
      accepted := job.settles;
      calls := calls + [Call(claimed - 1, settlement, accepted)];
    }

    ghost method Decide(job: Execution)
      requires claimed == |jobs| && Open(jobs, calls, fates, job, Expected(job).Some?)
      requires Counted([FateOf(job)])
      modifies this`fates
      ensures fates == old(fates) + [FateOf(job)] && Valid()
      ensures FateOf(job) != Aborted ==> Clean(fates)
    {
      DecideClaim(jobs, calls, fates, job);
      fates := fates + [FateOf(job)];
      assert fates + [] == fates;
    }

    /** Deciding a claim adds one to at most one counter. */
    lemma CountAll(fate: Fate)
      ensures Count(fates + [fate], Succeeded) == Count(fates + [], Succeeded) + (if fate == Succeeded then 1 else 0)
      ensures Count(fates + [fate], Retried) == Count(fates + [], Retried) + (if fate == Retried then 1 else 0)
      ensures Count(fates + [fate], Failed) == Count(fates + [], Failed) + (if fate == Failed then 1 else 0)
      ensures Count(fates + [fate], ShutdownRequeued)
              == Count(fates + [], ShutdownRequeued) + (if fate == ShutdownRequeued then 1 else 0)
    {
      assert fates + [] == fates;
      CountAppend(fates, fate, Succeeded);
      CountAppend(fates, fate, Retried);
      CountAppend(fates, fate, Failed);
      CountAppend(fates, fate, ShutdownRequeued);
    }

    /** finish_job. The answer is false when the settlement call failed, which ends the run. */
    method FinishJob(job: Execution, result: HandlerResult) returns (ok: bool)
      requires Open(jobs, calls, fates, job, false) && claimed == |jobs| && Counted([])
      requires !Abandoned(job) && Expected(job) == Request(result)
      modifies this`calls, this`fates, this`succeeded, this`retried, this`failed
      ensures Valid() && fates == old(fates) + [FateOf(job)]
      ensures ok <==> FateOf(job) != Aborted
      ensures ok ==> Clean(fates)
      // the call that was made for this claim, and the counter that follows from it
      ensures SettledRightly(job, calls, claimed - 1) && DecidedRightly(job, fates[claimed - 1], calls, claimed - 1)
      ensures succeeded == old(succeeded) + (if fates[claimed - 1] == Succeeded then 1 else 0)
      ensures retried == old(retried) + (if fates[claimed - 1] == Retried then 1 else 0)
      ensures failed == old(failed) + (if fates[claimed - 1] == Failed then 1 else 0)
    {
      ok := FinishCall(job, result);
      LedgerIsRight(jobs, calls, fates, claimed - 1);
    }

    method FinishCall(job: Execution, result: HandlerResult) returns (ok: bool)
      requires Open(jobs, calls, fates, job, false) && claimed == |jobs| && Counted([])
      requires !Abandoned(job) && Expected(job) == Request(result)
      modifies this`calls, this`fates, this`succeeded, this`retried, this`failed
      ensures Valid() && fates == old(fates) + [FateOf(job)]
      ensures ok <==> FateOf(job) != Aborted
      ensures ok ==> Clean(fates)
      ensures succeeded == old(succeeded) + (if FateOf(job) == Succeeded then 1 else 0)
      ensures retried == old(retried) + (if FateOf(job) == Retried then 1 else 0)
      ensures failed == old(failed) + (if FateOf(job) == Failed then 1 else 0)
    {
      ok := true;
      CountAll(FateOf(job));
      match result {
        case Ok(_) =>
          ok := Settle(job, CompleteLease);
          if ok { succeeded := succeeded + 1; }
        case Err(failure) => ok := FinishFailure(job, failure);
      }
      Decide(job);
    }

    /** The settlements a failure may ask for. */
    method FinishFailure(job: Execution, failure: HandlerFailure) returns (ok: bool)
      requires Open(jobs, calls, fates, job, false) && claimed == |jobs| && Counted([])
      requires !Abandoned(job) && Expected(job) == Request(Err(failure))
      modifies this`calls, this`retried, this`failed
      ensures Open(jobs, calls, fates, job, Expected(job).Some?) && Counted([FateOf(job)])
      ensures ok <==> FateOf(job) != Aborted
    {
      ok := true;
      CountAll(FateOf(job));
      if failure.requiresStorageReconciliation {
      } else if failure.deferred {
        ok := Settle(job, Defer(failure.deferWithoutConsumingAttempt));
      } else if failure.retryable {
        ok := SettleRetry(job, failure.retryWithoutConsumingAttempt);
      } else {
        ok := Settle(job, FailJob);
        if ok { failed := failed + 1; }
      }
    }

    /** A retry that exhausts the job's attempts counts as a failure. */
    method SettleRetry(job: Execution, nonConsuming: bool) returns (ok: bool)
      requires Open(jobs, calls, fates, job, false) && claimed == |jobs| && Counted([])
      requires !Abandoned(job) && Expected(job) == Some(RetryLater(nonConsuming))
      modifies this`calls, this`retried, this`failed
      ensures Open(jobs, calls, fates, job, true) && Counted([FateOf(job)])
      ensures ok <==> FateOf(job) != Aborted
    {
      CountAll(FateOf(job));
      ok := Settle(job, RetryLater(nonConsuming));
      if ok {
        if job.requeues { retried := retried + 1; } else { failed := failed + 1; }
      }
    }

    /** One claimed job, from the claim to its settlement. */
    method ProcessJob(job: Execution) returns (next: LoopResult)
      requires Valid() && Clean(fates)
      modifies this
      ensures Valid() && jobs == old(jobs) + [job] && polls == old(polls)
      ensures next == Crashed <==> FateOf(job) == Aborted || (job.handler.Registered? && job.race.HeartbeatFirst?)
      ensures next == Stopped <==> FateOf(job) != Aborted && job.handler.Registered? && job.race.ShutdownFirst?
      ensures FateOf(job) != Aborted ==> Clean(fates)
    {
      Enter(job);
      if !job.hasLease {
        CountAll(FateOf(job));
        Decide(job);
        return Crashed;
      }
      if job.handler.Unregistered? { next := FailUnregistered(job); } else { next := RunHandler(job); }
    }

    /** The claim is counted and entered in the ledger, undecided. */
    method Enter(job: Execution)
      requires Valid() && Clean(fates)
      modifies this`claimed, this`jobs
      ensures jobs == old(jobs) + [job] && claimed == |jobs|
      ensures Open(jobs, calls, fates, job, false) && Counted([])
    {
      claimed := claimed + 1;
      OpenClaim(jobs, calls, fates, job);
      jobs := jobs + [job];
    }

    /** A job whose type has no handler fails. */
    method FailUnregistered(job: Execution) returns (next: LoopResult)
      requires Open(jobs, calls, fates, job, false) && claimed == |jobs| && Counted([])
      requires job.hasLease && job.handler.Unregistered?
      modifies this`calls, this`fates, this`failed
      ensures Valid()
      ensures next == if FateOf(job) == Aborted then Crashed else Running
      ensures FateOf(job) != Aborted ==> Clean(fates)
    {
      CountAll(FateOf(job));
      var ok := Settle(job, FailJob);
      if ok { failed := failed + 1; }
      Decide(job);
      next := if ok then Running else Crashed;
    }

    /** The handler is run against its heartbeat and the shutdown signal, and its outcome is settled. */
    method RunHandler(job: Execution) returns (next: LoopResult)
      requires Open(jobs, calls, fates, job, false) && claimed == |jobs| && Counted([])
      requires job.hasLease && job.handler.Registered?
      modifies this`calls, this`fates, this`succeeded, this`retried, this`failed, this`shutdownRequeued
      ensures Valid()
      ensures next == Crashed <==> FateOf(job) == Aborted || job.race.HeartbeatFirst?
      ensures next == Stopped <==> FateOf(job) != Aborted && job.race.ShutdownFirst?
      ensures FateOf(job) != Aborted ==> Clean(fates)
    {
      CountAll(FateOf(job));
      var outcome := ExecuteHandler(job.handler.cancellable, job.race);
      if outcome.Err? { Decide(job); return Crashed; }
      match outcome.value {
        case Completed(result) =>
          var ok := FinishJob(job, result);
          return if ok then Running else Crashed;
        case ShutdownCompleted(result) =>
          var ok := FinishJob(job, result);
          return if ok then Stopped else Crashed;
        case HeartbeatFailed(result) =>
          var _ := FinishJob(job, result);
          return Crashed;
        case Shutdown =>
          var ok := Settle(job, ShutdownRetry);
          if ok { shutdownRequeued := shutdownRequeued + 1; }
          Decide(job);
          return if ok then Stopped else Crashed;
      }
    }

    /** run_loop over a script of polls. */
    method RunLoop(script: seq<Poll>) returns (result: LoopResult)
      requires Valid() && claimed == 0 && polls == 0
      modifies this
      ensures Valid()
      // the loop makes the polls it must, and claims exactly the jobs they hand out
      ensures Polled(script, polls, result)
      ensures jobs == Claims(script[..polls]) && claimed == |jobs|
      // every claim that asks for a settlement gets that one call, and no claim gets another
      ensures forall l :: 0 <= l < |jobs| && Expected(jobs[l]).Some? ==> Called(calls, l)
      ensures forall i :: 0 <= i < |calls| ==> calls[i].lease < |jobs| && CallOk(jobs[calls[i].lease], calls[i])
      ensures forall i, j :: 0 <= i < j < |calls| ==> calls[i].lease != calls[j].lease
      // only sound executions are completed
      ensures forall i :: 0 <= i < |calls| && calls[i].settlement == CompleteLease ==> Sound(jobs[calls[i].lease])
      // which call that is, and what it leads to, follows from the race of handler, heartbeat and shutdown
      ensures forall l :: 0 <= l < |jobs| ==>
                SettledRightly(jobs[l], calls, l) && DecidedRightly(jobs[l], fates[l], calls, l)
      ensures |fates| == |jobs| && succeeded == multiset(fates)[Succeeded] && retried == multiset(fates)[Retried]
      ensures failed == multiset(fates)[Failed] && shutdownRequeued == multiset(fates)[ShutdownRequeued]
      // when the loop ends, and how
      ensures forall i :: 0 <= i < polls - 1 ==> !Stops(script[i]) && !Breaks(script[i])
      ensures result == Stopped <==> polls > 0 && Stops(script[polls - 1])
      ensures result == Crashed <==> polls > 0 && Breaks(script[polls - 1])
      ensures result == Running ==> polls == |script|
      // conservation of claims
      ensures claimed == succeeded + retried + failed + shutdownRequeued
                         + multiset(fates)[Deferred] + multiset(fates)[LeftForReconciliation] + multiset(fates)[Aborted]
      ensures multiset(fates)[Aborted] <= 1
      ensures multiset(fates)[Aborted] == 1 ==> result == Crashed
    {
      result := Poll(script);
      TellCalls();
      TellCounts();
      TellLedger();
      PolledMeaning(script, polls, result);
    }

    /** What the ledger says as a whole. */
    lemma TellLedger()
      requires Valid()
      ensures forall l :: 0 <= l < |jobs| && Expected(jobs[l]).Some? ==> Called(calls, l)
      ensures forall i :: 0 <= i < |calls| ==> calls[i].lease < |jobs| && CallOk(jobs[calls[i].lease], calls[i])
      ensures forall i, j :: 0 <= i < j < |calls| ==> calls[i].lease != calls[j].lease
      ensures forall i :: 0 <= i < |calls| && calls[i].settlement == CompleteLease ==> Sound(jobs[calls[i].lease])
      ensures multiset(fates)[Aborted] == if fates != [] && fates[|fates| - 1] == Aborted then 1 else 0
    {
      LedgerMeaning(jobs, calls, fates);
      CountsOccurrences(fates, Aborted);
    }

    /** What the worker's ledger says, claim by claim. */
    lemma TellCalls()
      requires Valid()
      ensures forall l :: 0 <= l < |jobs| ==>
                SettledRightly(jobs[l], calls, l) && DecidedRightly(jobs[l], fates[l], calls, l)
    {
      forall l | 0 <= l < |jobs|
        ensures SettledRightly(jobs[l], calls, l) && DecidedRightly(jobs[l], fates[l], calls, l)
      {
        LedgerIsRight(jobs, calls, fates, l);
      }
    }

    /** What its counters say. */
    lemma TellCounts()
      requires claimed == |fates| && Counted([])
      ensures succeeded == multiset(fates)[Succeeded] && retried == multiset(fates)[Retried]
      ensures failed == multiset(fates)[Failed] && shutdownRequeued == multiset(fates)[ShutdownRequeued]
      ensures claimed == succeeded + retried + failed + shutdownRequeued
                         + multiset(fates)[Deferred] + multiset(fates)[LeftForReconciliation] + multiset(fates)[Aborted]
    {
      Conservation(fates);
      CountsOccurrences(fates, Succeeded);
      CountsOccurrences(fates, Retried);
      CountsOccurrences(fates, Failed);
      CountsOccurrences(fates, ShutdownRequeued);
      CountsOccurrences(fates, Deferred);
      CountsOccurrences(fates, LeftForReconciliation);
      CountsOccurrences(fates, Aborted);
      assert fates + [] == fates;
    }

    /** The loop itself. */
    method Poll(script: seq<Poll>) returns (result: LoopResult)
      requires Valid() && claimed == 0 && polls == 0
      modifies this
      ensures Valid() && (result != Crashed ==> Clean(fates))
      ensures Polled(script, polls, result) && jobs == Claims(script[..polls])
    {
      result := Running;
      while polls < |script| && result == Running
        invariant polls <= |script| && Polling(script[..polls], result)
        decreases |script| - polls
      {
        assert script[..polls + 1] == script[..polls] + [script[polls]];
        result := PollOnce(script[..polls], script[polls]);
      }
    }

    /** The polls made so far, of which only the latest may have ended the loop. */
    ghost predicate Polling(made: seq<Poll>, result: LoopResult)
      reads this
    {
      && Valid() && polls == |made| && jobs == Claims(made)
      && (result != Crashed ==> Clean(fates))
      && (forall i :: 0 <= i < |made| - 1 ==> After(made[i]) == Running)
      && (if made == [] then result == Running else result == After(made[|made| - 1]))
    }

    /** One more poll of a loop that is still running. */
    method PollOnce(ghost made: seq<Poll>, poll: Poll) returns (result: LoopResult)
      requires Polling(made, Running)
      modifies this
      ensures Polling(made + [poll], result) && polls == old(polls) + 1
    {
      assert (made + [poll])[..|made|] == made;
      polls := polls + 1;
      result := Turn(poll);
    }

    /** One turn of the loop, after a poll. */
    method Turn(poll: Poll) returns (result: LoopResult)
      requires Valid() && Clean(fates)
      modifies this
      ensures Valid() && polls == old(polls) && result == After(poll) && (result != Crashed ==> Clean(fates))
      ensures jobs == if poll.Claimed? then old(jobs) + [poll.job] else old(jobs)
    {
      match poll {
        case ShutdownDuringClaim => result := Stopped;
        case ClaimError => result := Crashed;
        case Nothing(shutdownWhileSleeping) => result := if shutdownWhileSleeping then Stopped else Running;
        case Claimed(job) => result := ProcessJob(job);
      }
    }
  }
}
