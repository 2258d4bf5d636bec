/**
  The status relation of an ingest (crates/inbox/src/lib.rs) and what it promises about whole
  histories.
*/
module IngestStatus {
  import opened Prelude

  datatype Status =
    | Received | Queued | Downloading | Probing | ExactDedupCheck | Normalizing | Fingerprinting
    | DuplicatePending | Storing | Completed | FailedRetryable | FailedTerminal | Cancelled

  predicate IsTerminal(s: Status) { s in {Completed, FailedTerminal, Cancelled} }

  /** can_transition_to. */
  predicate CanTransition(from: Status, to: Status) {
    if from == to then true
    else if IsTerminal(from) then false
    else if to in {FailedRetryable, FailedTerminal, Cancelled} then true
    else if from == FailedRetryable && to == Queued then true
    else
      (from, to) in {
        (Received, Queued), (Queued, Downloading), (Downloading, Probing), (Probing, Normalizing),
        (Probing, ExactDedupCheck), (ExactDedupCheck, Normalizing), (Normalizing, Fingerprinting),
        (Normalizing, Storing), (Fingerprinting, Storing), (Fingerprinting, DuplicatePending),
        (Fingerprinting, Completed), (DuplicatePending, Queued), (DuplicatePending, Storing),
        (FailedRetryable, Storing), (FailedRetryable, Fingerprinting), (Storing, Fingerprinting),
        (Storing, Completed)
      }
  }

  class Ingest {
    var status: Status
    ghost var history: seq<Status>          // every status so far

    constructor ()
      ensures status == Received && history == [Received] && Valid()
    {
      status, history := Received, [Received];
    }

    ghost predicate Valid()
      reads this
    {
      IsHistory(history) && status == history[|history| - 1]
    }

    /** transition_to: a refused target leaves the status alone. */
    method TransitionTo(target: Status) returns (r: Result<(), (Status, Status)>)
      requires Valid()
      modifies this
      ensures Valid()
      ensures r.Ok? <==> CanTransition(old(status), target)
      ensures r.Ok? ==> status == target && history == old(history) + [target]
      ensures r.Err? ==> r.error == (old(status), target) && status == old(status) && history == old(history)
    {
      if !CanTransition(status, target) { return Err((status, target)); }
      status := target;
      history := history + [target];
      r := Ok(());
    }
  }

  /** A history starts at `Received` and follows the relation. */
  ghost predicate IsHistory(h: seq<Status>) {
    && |h| > 0 && h[0] == Received
    && forall i :: 0 <= i < |h| - 1 ==> CanTransition(h[i], h[i + 1])
  }

  /** What an ingest that never failed must have gone through before it has this status. */
  function Passed(s: Status): set<Status> {
    match s
    case Received => {}
    case Queued => {Received}
    case Downloading => {Received, Queued}
    case Probing => {Received, Queued, Downloading}
    case ExactDedupCheck => {Received, Queued, Downloading, Probing}
    case Normalizing => {Received, Queued, Downloading, Probing}
    case Fingerprinting => {Received, Queued, Downloading, Probing, Normalizing}
    case DuplicatePending => {Received, Queued, Downloading, Probing, Normalizing, Fingerprinting}
    case Storing => {Received, Queued, Downloading, Probing, Normalizing}
    case Completed => {Received, Queued, Downloading, Probing, Normalizing}
    case FailedRetryable => {Received}
    case FailedTerminal => {Received}
    case Cancelled => {Received}
  }

  ghost function Seen(h: seq<Status>): set<Status> { set s | s in h }

  lemma PassedGrows(from: Status, to: Status)
    requires CanTransition(from, to) && from != FailedRetryable
    ensures Passed(to) <= Passed(from) + {from} || from == to
  {}

  /** At every moment, every stage that the status of that moment builds on has been gone through. */
  ghost predicate NothingSkipped(h: seq<Status>) {
    forall n :: 0 < n <= |h| ==> StageReady(h, n)
  }

  ghost predicate StageReady(h: seq<Status>, n: nat)
    requires 0 < n <= |h|
  {
    Passed(h[n - 1]) <= Seen(h[..n])
  }

  /** A retry goes straight back to a late stage. */
  predicate Resumes(from: Status, to: Status) { from == FailedRetryable && to in {Storing, Fingerprinting} }

  /** Every such retry comes after the media was normalized. */
  ghost predicate ResumesNormalized(h: seq<Status>) {
    forall i :: 0 <= i < |h| - 1 && Resumes(h[i], h[i + 1]) ==> Normalizing in h[..i]
  }

  /** Reaching a stage soundly means that what it builds on was seen too. */
  lemma StagesBefore(h: seq<Status>, n: nat, stage: Status)
    requires n <= |h| && (forall m :: 0 < m <= n ==> StageReady(h, m)) && stage in h[..n]
    ensures Passed(stage) <= Seen(h[..n])
  {
    var j :| 0 <= j < n && h[j] == stage;
    assert StageReady(h, j + 1);
    assert Seen(h[..j + 1]) <= Seen(h[..n]);
  }

  lemma StepIsReady(h: seq<Status>, n: nat)
    requires IsHistory(h) && ResumesNormalized(h) && 0 < n < |h|
    requires forall m :: 0 < m <= n ==> StageReady(h, m)
    ensures StageReady(h, n + 1)
  {
    var from, to := h[n - 1], h[n];
    assert CanTransition(h[n - 1], h[n - 1 + 1]);
    assert StageReady(h, n);
    assert h[..n + 1] == h[..n] + [to];
    assert from in h[..n] && h[0] in h[..n];
    if Resumes(from, to) {
      assert Normalizing in h[..n - 1];
      assert Normalizing in h[..n];
      StagesBefore(h, n, Normalizing);
    } else if from != FailedRetryable {
      PassedGrows(from, to);
    }
  }

  lemma {:induction false} PrefixIsReady(h: seq<Status>, n: nat)
    requires IsHistory(h) && ResumesNormalized(h) && 0 < n <= |h|
    ensures forall m :: 0 < m <= n ==> StageReady(h, m)
  {
    if n > 1 {
      PrefixIsReady(h, n - 1);
      StepIsReady(h, n - 1);
    }
  }

  lemma LateResumeSkips(h: seq<Status>, i: nat)
    requires i < |h| - 1 && Resumes(h[i], h[i + 1]) && Normalizing !in h[..i]
    ensures !StageReady(h, i + 2)
  {
    assert h[..i + 2] == h[..i] + [h[i], h[i + 1]];
    assert Normalizing in Passed(h[i + 1]);
  }

  /**
    In a history nothing is stored, fingerprinted or completed that was not queued, downloaded, probed
    and normalized, exactly when every retry that goes straight back to storing or fingerprinting comes
    after normalizing. The relation itself does not ask for that.
  */
  lemma NothingIsSkippedExactly(h: seq<Status>)
    requires IsHistory(h)
    ensures NothingSkipped(h) <==> ResumesNormalized(h)
  {
    if ResumesNormalized(h) {
      PrefixIsReady(h, |h|);
    } else {
      var i :| 0 <= i < |h| - 1 && Resumes(h[i], h[i + 1]) && Normalizing !in h[..i];
      LateResumeSkips(h, i);
    }
  }

  /** The relation allows a history that skips everything. */
  lemma RetriesMaySkip()
    ensures var h := [Received, FailedRetryable, Storing, Completed]; IsHistory(h) && !NothingSkipped(h)
  {
    var h := [Received, FailedRetryable, Storing, Completed];
    assert CanTransition(h[0], h[1]) && CanTransition(h[1], h[2]) && CanTransition(h[2], h[3]);
    assert Resumes(h[1], h[1 + 1]) && Normalizing !in h[..1];
    LateResumeSkips(h, 1);
  }

  /** A terminal status, once reached, stays. */
  lemma {:induction false} TerminalStays(h: seq<Status>, i: nat, j: nat)
    requires IsHistory(h) && i <= j < |h| && IsTerminal(h[i])
    ensures h[j] == h[i]
    decreases j
  {
    if i < j {
      TerminalStays(h, i, j - 1);
      assert CanTransition(h[j - 1], h[j - 1 + 1]);
    }
  }

  /** A late stage has the whole pipeline behind it. */
  lemma LateStagesAreEarned(h: seq<Status>, n: nat)
    requires IsHistory(h) && ResumesNormalized(h) && n < |h|
    requires h[n] in {Fingerprinting, DuplicatePending, Storing, Completed}
    ensures Queued in h[..n] && Downloading in h[..n] && Probing in h[..n] && Normalizing in h[..n]
  {
    NothingIsSkippedExactly(h);
    assert StageReady(h, n + 1);
    forall stage | stage in {Queued, Downloading, Probing, Normalizing} ensures stage in h[..n] {
      assert stage in Passed(h[n]);
      SeenBefore(h, n, stage);
    }
  }

  lemma SeenBefore(h: seq<Status>, n: nat, stage: Status)
    requires n < |h| && stage in Seen(h[..n + 1]) && stage != h[n]
    ensures stage in h[..n]
  {
    assert h[..n + 1] == h[..n] + [h[n]];
  }

  // ---------------------------------------------------------------- what an ingest can still do

  /** The straight way to the end from a status that is not terminal. */
  function WayOut(s: Status): seq<Status> {
    match s
    case Received => [Queued, Downloading, Probing, Normalizing, Storing, Completed]
    case FailedRetryable => [Queued, Downloading, Probing, Normalizing, Storing, Completed]
    case Queued => [Downloading, Probing, Normalizing, Storing, Completed]
    case Downloading => [Probing, Normalizing, Storing, Completed]
    case Probing => [Normalizing, Storing, Completed]
    case ExactDedupCheck => [Normalizing, Storing, Completed]
    case Normalizing => [Storing, Completed]
    case Fingerprinting => [Completed]
    case DuplicatePending => [Storing, Completed]
    case Storing => [Completed]
    case _ => []
  }

  /** One history goes on with another. */
  ghost predicate Follows(from: Status, rest: seq<Status>) {
    && (rest != [] ==> CanTransition(from, rest[0]))
    && forall i :: 0 <= i < |rest| - 1 ==> CanTransition(rest[i], rest[i + 1])
  }

  lemma HistoryGoesOn(h: seq<Status>, rest: seq<Status>)
    requires IsHistory(h) && Follows(h[|h| - 1], rest)
    ensures IsHistory(h + rest)
  {
    var all := h + rest;
    forall i | 0 <= i < |all| - 1 ensures CanTransition(all[i], all[i + 1]) {
      if i < |h| - 1 {
        assert CanTransition(h[i], h[i + 1]);
      } else if i >= |h| {
        assert CanTransition(rest[i - |h|], rest[i - |h| + 1]);
      }
    }
  }

  /** No ingest gets stuck: whatever happened so far, one that is not terminal can still be completed without
      a further failure, can fail and be cancelled, and after a failure can be retried from the queue, from
      fingerprinting or from storing. */
  lemma NeverStuck(h: seq<Status>)
    requires IsHistory(h) && !IsTerminal(h[|h| - 1])
    ensures exists rest ::
      && IsHistory(h + rest) && rest != [] && rest[|rest| - 1] == Completed
      && FailedRetryable !in rest
    ensures forall s :: s in {FailedRetryable, FailedTerminal, Cancelled} ==> IsHistory(h + [s])
    ensures forall s :: s in {Queued, Fingerprinting, Storing} ==> IsHistory(h + [FailedRetryable, s])
  {
    var last := h[|h| - 1];
    WayOutFollows(last);
    HistoryGoesOn(h, WayOut(last));
    forall s | s in {FailedRetryable, FailedTerminal, Cancelled} ensures IsHistory(h + [s]) { HistoryGoesOn(h, [s]); }
    forall s | s in {Queued, Fingerprinting, Storing} ensures IsHistory(h + [FailedRetryable, s]) {
      RetryFollows(last, s);
      HistoryGoesOn(h, [FailedRetryable, s]);
    }
  }

  lemma WayOutFollows(s: Status)
    requires !IsTerminal(s)
    ensures Follows(s, WayOut(s)) && WayOut(s) != [] && FailedRetryable !in WayOut(s)
    ensures WayOut(s)[|WayOut(s)| - 1] == Completed
  {}

  lemma RetryFollows(from: Status, to: Status)
    requires !IsTerminal(from) && to in {Queued, Fingerprinting, Storing}
    ensures Follows(from, [FailedRetryable, to])
  {}

  /** The pipeline with every detour: through deduplication and a pending duplicate, fingerprinting before
      or after storing, and a duplicate that is queued again. */
  lemma DetoursAreHistories()
    ensures var start := [Received, Queued, Downloading, Probing];
      && IsHistory(start + [ExactDedupCheck, Normalizing, Fingerprinting, DuplicatePending, Storing, Completed])
      && IsHistory(start + [Normalizing, Storing, Fingerprinting, Completed])
      && IsHistory(start + [Normalizing, Fingerprinting, Storing, Completed])
      && IsHistory(start + [Normalizing, Fingerprinting, DuplicatePending, Queued])
  {
    var start := [Received, Queued, Downloading, Probing];
    HistoryGoesOn([Received], [Queued, Downloading, Probing]);
    assert [Received] + [Queued, Downloading, Probing] == start;
    HistoryGoesOn(start, [ExactDedupCheck, Normalizing, Fingerprinting, DuplicatePending, Storing, Completed]);
    HistoryGoesOn(start, [Normalizing, Storing, Fingerprinting, Completed]);
    HistoryGoesOn(start, [Normalizing, Fingerprinting, Storing, Completed]);
    HistoryGoesOn(start, [Normalizing, Fingerprinting, DuplicatePending, Queued]);
  }

  /** The order of the pipeline. */
  function Rank(s: Status): nat {
    match s
    case Received => 0
    case Queued => 1
    case Downloading => 2
    case Probing => 3
    case ExactDedupCheck => 4
    case Normalizing => 5
    case Fingerprinting => 6
    case DuplicatePending => 7
    case Storing => 8
    case _ => 9
  }

  /** Without a failure the pipeline only ever goes back from a pending duplicate to the queue, or from
      storing to fingerprinting. */
  lemma {:induction false} OnlyForward(h: seq<Status>, i: nat, j: nat)
    requires IsHistory(h) && i <= j < |h| && forall k :: i <= k <= j ==> h[k] != FailedRetryable
    requires forall k :: i <= k < j ==> !(h[k] == DuplicatePending && h[k + 1] == Queued)
    requires forall k :: i <= k < j ==> !(h[k] == Storing && h[k + 1] == Fingerprinting)
    ensures Rank(h[i]) <= Rank(h[j]) && (Rank(h[i]) == Rank(h[j]) ==> h[i] == h[j])
    decreases j
  {
    if i < j {
      OnlyForward(h, i, j - 1);
      assert CanTransition(h[j - 1], h[j - 1 + 1]);
    }
  }
}
