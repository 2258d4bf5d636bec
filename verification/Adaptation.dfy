/**
  Bounded video adaptation (apps/worker/src/normalization.rs).

  A run tries a remux, then one constant-quality encode, then either one two-pass encode or the
  rest of the resolution ladder. It may hold one fallback, owns every file it makes through a
  cleanup guard, and publishes exactly one winner. Everything outside the run (encoder, file
  removal, publication I/O, cancellation) is an arbitrary oracle.
*/
module Adaptation {
  import opened Prelude

  /** A candidate file name: names are fresh UUIDs, so the n-th candidate is simply n. */
  type Path = nat

  /** File contents, reduced to what the digest keeps: the length and the hash. */
  datatype Artifact = Artifact(bytes: nat, sha256: nat)

  datatype Candidate = Candidate(path: Path, file: Artifact)

  datatype FallbackPolicy = KeepFirst | KeepSmallest

  /** How an encode ends. `Interrupted` is the run being dropped during the encode. */
  datatype Encode =
    | Produced(file: Artifact)
    | Failed(leftover: Option<Artifact>)
    | Interrupted(leftover: Option<Artifact>)

  /** How removing an existing file ends: on the first try, on the synchronous retry, found to be
      gone already, not at all, or dropped while the asynchronous attempt was running. */
  datatype Removal = Removed | RemovedOnRetry | Vanished | Stuck | RemovalInterrupted(removed: bool)

  datatype PublishIo = Works | Broken | PublishInterrupted(linked: bool)

  /** Reserving the two-pass log directory, and dropping it again once the encode is done. */
  datatype PasslogIo = Reserved | NotReserved | ReserveInterrupted | RemoveInterrupted

  /** Every answer the outside world may give, one function per kind of question. */
  datatype Environment = Environment(
    encode: Path -> Encode,
    planFails: Path -> bool,
    removal: nat -> Removal,
    rival: nat -> Option<Artifact>,
    dropRemoves: Path -> bool,
    publish: PublishIo,
    passlogs: PasslogIo)

  datatype Plan = Plan(remux: bool, hasVideo: bool, ladder: nat, twoPass: bool)

  datatype Error =
    | EncodeFailed
    | InvalidPlan
    | NoVideo
    | NoDimensions
    | PasslogFailed
    | OutputPublish
    | OutputExceedsStorageLimit(bytes: nat, limit: nat)

  datatype Outcome = Published(file: Artifact) | Failure(error: Error) | Dropped

  /** One moment: the candidates on disk, the names in the guard, and the destination. */
  datatype Snapshot = Snapshot(files: set<Path>, guard: seq<Path>, canonical: Option<Artifact>)

  // ---------------------------------------------------------------- reference definitions

  /** The first artifact that fits the storage limit. */
  ghost function FirstFitting(s: seq<Artifact>, limit: nat): Option<Artifact>
  {
    if s == [] then None
    else
      var earlier := FirstFitting(s[..|s| - 1], limit);
      if earlier.Some? then earlier
      else if s[|s| - 1].bytes <= limit then Some(s[|s| - 1])
      else None
  }

  /** The largest artifact above the storage limit. */
  ghost function LargestOversized(s: seq<Artifact>, limit: nat): Option<nat>
  {
    if s == [] then None
    else
      var earlier := LargestOversized(s[..|s| - 1], limit);
      var last := s[|s| - 1].bytes;
      if last <= limit then earlier
      else if earlier.Some? then Some(Max(earlier.value, last))
      else Some(last)
  }

  ghost predicate Preferred(a: Artifact, target: nat, limit: nat) {
    a.bytes <= target && a.bytes <= limit
  }

  ghost predicate NonePreferred(s: seq<Artifact>, target: nat, limit: nat) {
    forall i :: 0 <= i < |s| ==> !Preferred(s[i], target, limit)
  }

  /** How many candidates a run makes when none of them is preferred: a remux, and then either two encodes
      or one for every rung of the ladder. */
  ghost function FullSchedule(plan: Plan): nat {
    (if plan.remux then 1 else 0) + (if plan.twoPass then 2 else Max(1, plan.ladder))
  }

  /** There is something to encode. */
  ghost predicate Encodable(plan: Plan) { plan.hasVideo && plan.ladder > 0 }

  /** How many candidates may follow the first encode. */
  ghost function AfterQuality(plan: Plan): nat {
    if plan.twoPass then 1 else if plan.ladder == 0 then 0 else plan.ladder - 1
  }

  lemma {:induction false} FirstFittingMeaning(s: seq<Artifact>, limit: nat)
    ensures FirstFitting(s, limit).None? <==> forall i :: 0 <= i < |s| ==> s[i].bytes > limit
    ensures FirstFitting(s, limit).Some? ==>
              exists i :: 0 <= i < |s| && s[i] == FirstFitting(s, limit).value && s[i].bytes <= limit
                          && forall j :: 0 <= j < i ==> s[j].bytes > limit
  {
    if s != [] {
      var init := s[..|s| - 1];
      FirstFittingMeaning(init, limit);
      assert forall i :: 0 <= i < |init| ==> init[i] == s[i];
      if FirstFitting(init, limit).Some? {
        var i :| 0 <= i < |init| && init[i] == FirstFitting(init, limit).value && init[i].bytes <= limit
                 && forall j :: 0 <= j < i ==> init[j].bytes > limit;
        assert s[i] == FirstFitting(s, limit).value;
      } else if s[|s| - 1].bytes <= limit {
        assert s[|s| - 1] == FirstFitting(s, limit).value;
      }
    }
  }

  lemma {:induction false} LargestOversizedMeaning(s: seq<Artifact>, limit: nat)
    ensures LargestOversized(s, limit).None? <==> forall i :: 0 <= i < |s| ==> s[i].bytes <= limit
    ensures LargestOversized(s, limit).Some? ==>
              && (forall i :: 0 <= i < |s| && s[i].bytes > limit ==> s[i].bytes <= LargestOversized(s, limit).value)
              && (exists i :: 0 <= i < |s| && s[i].bytes > limit && s[i].bytes == LargestOversized(s, limit).value)
  {
    if s != [] {
      var init := s[..|s| - 1];
      LargestOversizedMeaning(init, limit);
      assert forall i :: 0 <= i < |init| ==> init[i] == s[i];
      if LargestOversized(init, limit).Some? {
        var i :| 0 <= i < |init| && init[i].bytes > limit && init[i].bytes == LargestOversized(init, limit).value;
        assert s[i].bytes == LargestOversized(init, limit).value;
      }
      if s[|s| - 1].bytes > limit {
        assert s[|s| - 1].bytes > limit;
      }
    }
  }

  /** The file a finished run publishes, or nothing when no candidate fits the storage. */
  ghost function Winner(produced: seq<Artifact>, plan: Plan, target: nat, limit: nat): Option<Artifact>
    requires |produced| > 0
  {
    var init, last := produced[..|produced| - 1], produced[|produced| - 1];
    if Preferred(last, target, limit) then Some(last)
    else if
      && plan.twoPass && |produced| == FullSchedule(plan) && last.bytes <= limit
      && (FirstFitting(init, limit).None? || last.bytes < FirstFitting(init, limit).value.bytes)
    then Some(last)
    else FirstFitting(produced, limit)
  }

  /** A finished run stopped at the first preferred candidate, or made the whole schedule. */
  ghost predicate Complete(produced: seq<Artifact>, plan: Plan, target: nat, limit: nat)
  {
    && 0 < |produced| <= FullSchedule(plan)
    && NonePreferred(produced[..|produced| - 1], target, limit)
    && (Preferred(produced[|produced| - 1], target, limit) || (|produced| == FullSchedule(plan) && Encodable(plan)))
  }

  /** `Vec::retain(|candidate| candidate != path)`. */
  function Forget(paths: seq<Path>, path: Path): (r: seq<Path>)
    ensures forall q :: q in r <==> q in paths && q != path
  {
    if paths == [] then []
    else if paths[0] == path then Forget(paths[1..], path)
    else [paths[0]] + Forget(paths[1..], path)
  }

  lemma AtMostTwo(s: set<Path>, a: Path, b: Path)
    requires s <= {a, b}
    ensures |s| <= 2
  {
    Subset(s, {a, b});
  }

  lemma {:induction false} Subset(s: set<Path>, t: set<Path>)
    requires s <= t
    ensures |s| <= |t|
    decreases |s|
  {
    if s != {} {
      var x :| x in s;
      Subset(s - {x}, t - {x});
    }
  }

  // ---------------------------------------------------------------- histories

  /** Everything that can happen to the candidates, the guard and the destination. */
  datatype Effect = Created(p: Path) | Deleted(p: Path) | Guarded(p: Path) | Forgotten(p: Path) | Linked(file: Artifact)

  ghost function Perform(s: Snapshot, e: Effect): Snapshot {
    match e
    case Created(p) => s.(files := s.files + {p})
    case Deleted(p) => s.(files := s.files - {p})
    case Guarded(p) => s.(guard := s.guard + [p])
    case Forgotten(p) => s.(guard := Forget(s.guard, p))
    case Linked(file) => s.(canonical := Some(file))
  }

  /** The effects of a run so far, the latest last. */
  datatype History = Start(first: Snapshot) | Then(past: History, effect: Effect)

  /** The moment a history leads to. */
  ghost function Last(h: History): Snapshot {
    match h case Start(s) => s case Then(past, e) => Perform(Last(past), e)
  }

  ghost function Beginning(h: History): Snapshot {
    match h case Start(s) => s case Then(past, _) => Beginning(past)
  }

  /** Every candidate on disk is in the guard. */
  ghost predicate Owned(s: Snapshot) { forall p :: p in s.files ==> p in s.guard }

  /** And there are at most two of them when removals work. */
  ghost predicate SnapshotOk(s: Snapshot, lean: bool) { Owned(s) && (lean ==> |s.files| <= 2) }

  /** At every moment of the history the files are owned, and a link replaces nothing. */
  ghost predicate Story(h: History, lean: bool) {
    && SnapshotOk(Last(h), lean)
    && (h.Then? ==> Story(h.past, lean) && (h.effect.Linked? ==> Last(h.past).canonical.None?))
  }

  /** At some moment the file is on disk. */
  ghost predicate Appears(h: History, p: Path) {
    p in Last(h).files || (h.Then? && Appears(h.past, p))
  }

  /** What was removed so far is gone or, if it could not be removed, still guarded. */
  ghost predicate Swept(done: seq<Path>, guard: seq<Path>, files: set<Path>, lean: bool) {
    forall q :: q in done ==> (q in guard ==> q in files) && (lean ==> q !in files)
  }

  lemma SweptStep(
    done: seq<Path>, p: Path, guard: seq<Path>, files: set<Path>,
    guardAfter: seq<Path>, filesAfter: set<Path>, lean: bool)
    requires Swept(done, guard, files, lean)
    requires filesAfter == files || filesAfter == files - {p}
    requires forall q :: q in guardAfter ==> q in guard
    requires (lean ==> p !in filesAfter) && (p in guardAfter ==> p in filesAfter)
    ensures Swept(done + [p], guardAfter, filesAfter, lean)
  {}

  lemma AllSwept(done: seq<Path>, s: Snapshot, lean: bool)
    requires Swept(done, s.guard, s.files, lean) && Owned(s) && forall q :: q in s.guard ==> q in done
    ensures lean ==> s.files == {}
    ensures forall q :: q in s.guard ==> q in s.files
  {}

  /** The files after the guard has tried to remove the given names. */
  ghost function AfterDrop(files: map<Path, Artifact>, names: seq<Path>, removes: Path -> bool): map<Path, Artifact> {
    if names == [] then files
    else
      var earlier, last := AfterDrop(files, names[..|names| - 1], removes), names[|names| - 1];
      if removes(last) then earlier - {last} else earlier
  }

  lemma AfterDropStep(files: map<Path, Artifact>, names: seq<Path>, i: nat, removes: Path -> bool)
    requires i < |names|
    ensures var earlier := AfterDrop(files, names[..i], removes);
      AfterDrop(files, names[..i + 1], removes) == if removes(names[i]) then earlier - {names[i]} else earlier
  {
    assert names[..i + 1][..i] == names[..i];
  }

  lemma {:induction false} AfterDropMeaning(files: map<Path, Artifact>, names: seq<Path>, removes: Path -> bool)
    ensures var after := AfterDrop(files, names, removes);
      && (forall p :: p in after <==> p in files && !(p in names && removes(p)))
      && (forall p :: p in after ==> after[p] == files[p])
  {
    if names != [] {
      AfterDropMeaning(files, names[..|names| - 1], removes);
      assert names == names[..|names| - 1] + [names[|names| - 1]];
    }
  }

  /** All moments of a history, in order. */
  ghost function Moments(h: History): (r: seq<Snapshot>)
    ensures |r| > 0 && r[|r| - 1] == Last(h) && r[0] == Beginning(h)
  {
    if h.Then? then Moments(h.past) + [Last(h)] else [h.first]
  }

  ghost predicate Shown(moments: seq<Snapshot>, p: Path) { exists i :: 0 <= i < |moments| && p in moments[i].files }

  /** One moment follows from another by one effect. */
  ghost predicate OneEffect(a: Snapshot, b: Snapshot) { exists e :: b == Perform(a, e) }

  /** What a history says about each of its moments. */
  lemma {:induction false} StoryAt(h: History, lean: bool, i: nat)
    requires Story(h, lean) && i < |Moments(h)|
    ensures SnapshotOk(Moments(h)[i], lean)
    ensures i > 0 ==> OneEffect(Moments(h)[i - 1], Moments(h)[i])
    ensures i > 0 ==> Moments(h)[i - 1].canonical.Some? ==> Moments(h)[i].canonical == Moments(h)[i - 1].canonical
  {
    if h.Then? {
      if i < |Moments(h)| - 1 {
        StoryAt(h.past, lean, i);
      } else {
        assert Moments(h)[i] == Perform(Last(h.past), h.effect);
      }
    }
  }

  lemma {:induction false} AppearsSomewhere(h: History, p: Path)
    ensures Appears(h, p) <==> Shown(Moments(h), p)
  {
    var all := Moments(h);
    if h.Then? {
      AppearsSomewhere(h.past, p);
      assert forall i :: 0 <= i < |Moments(h.past)| ==> all[i] == Moments(h.past)[i];
      if Appears(h.past, p) {
        var i :| 0 <= i < |Moments(h.past)| && p in Moments(h.past)[i].files;
        assert p in all[i].files;
      }
    }
    if p in Last(h).files { assert p in all[|all| - 1].files; }
  }

  /** In no history is a destination replaced, whoever linked it. */
  lemma {:induction false} DestinationStays(h: History, lean: bool, i: nat, j: nat)
    requires Story(h, lean) && i <= j < |Moments(h)| && Moments(h)[i].canonical.Some?
    ensures Moments(h)[j].canonical == Moments(h)[i].canonical
    decreases j
  {
    if i < j {
      DestinationStays(h, lean, i, j - 1);
      StoryAt(h, lean, j);
    }
  }

  // ---------------------------------------------------------------- the run

  class VideoCandidateSet {
    const target: nat
    const limit: nat
    const env: Environment

    var paths: seq<Path>                 // the cleanup guard
    var fallback: Option<Candidate>
    var largestOversized: Option<nat>
    var attempts: nat

    var names: nat                       // next fresh name
    var removals: nat                    // removal attempts so far
    var pauses: nat                      // moments at which another worker may act
    var disk: map<Path, Artifact>        // candidate files that exist
    var canonical: Option<Artifact>      // canonical.mp4

    ghost var produced: seq<Artifact>    // results of the encodes that succeeded, in order
    ghost var history: History           // the start, and the moment after every single effect

    constructor (target: nat, limit: nat, env: Environment, canonical: Option<Artifact>)
      ensures this.target == target && this.limit == limit && this.env == env
      ensures this.canonical == canonical && produced == [] && names == 0 && attempts == 0
      ensures Valid() && Tracks() && Lean({}) && disk == map[] && fallback.None? && removals == 0
      ensures history == Start(Snapshot({}, [], canonical))
    {
      this.target, this.limit, this.env := target, limit, env;
      paths, fallback, largestOversized, attempts := [], None, None, 0;
      names, removals, pauses, disk := 0, 0, 0, map[];
      this.canonical := canonical;
      produced, history := [], Start(Snapshot({}, [], canonical));
    }

    /** No removal ever leaves a file behind. */
    ghost predicate RemovalsWork() {
      forall n :: env.removal(n) != Stuck
    }

    /** The run is never dropped while it removes a file. */
    ghost predicate Uninterrupted() {
      forall n :: !env.removal(n).RemovalInterrupted?
    }

    /** It was not dropped during a removal so far. */
    ghost predicate Unbroken()
      reads this`removals
    {
      forall n :: 0 <= n < removals ==> !env.removal(n).RemovalInterrupted?
    }

    /** It was dropped during the latest removal. */
    ghost predicate Cut()
      reads this`removals
    {
      removals > 0 && env.removal(removals - 1).RemovalInterrupted?
    }

    /** No other worker links the destination. */
    ghost predicate Unrivalled() {
      forall n :: env.rival(n).None?
    }

    /** Nothing outside goes wrong; another worker may still come first. */
    ghost predicate Cooperative(plan: Plan) {
      && plan.hasVideo && plan.ladder > 0 && env.publish == Works && env.passlogs == Reserved && Uninterrupted()
      && forall p :: env.encode(p).Produced? && !env.planFails(p)
    }

    static ghost predicate Kept(before: Option<Artifact>, after: Option<Artifact>) {
      before.Some? ==> after == before
    }

    ghost function Held(): set<Path>
      reads this`fallback
    {
      if fallback.Some? then {fallback.value.path} else {}
    }

    /** The present moment. */
    ghost function Now(): Snapshot
      reads this`disk, this`paths, this`canonical
    {
      Snapshot(disk.Keys, paths, canonical)
    }

    /** What every step keeps: the history leaves nothing out and ends now, at every moment of it each
        candidate on disk was guarded, and everything produced was on disk; a held fallback is on disk,
        fits the storage limit and is above the target. */
    ghost predicate Valid()
      reads this
    {
      && Recorded()
      && (forall p :: p in paths ==> p < names)
      && (fallback.Some? ==>
            && fallback.value.path in disk && disk[fallback.value.path] == fallback.value.file
            && target < fallback.value.file.bytes <= limit)
    }

    /** The part of it that the history alone decides. */
    ghost predicate Recorded()
      reads this`history, this`disk, this`paths, this`canonical, this`produced
    {
      && Story(history, RemovalsWork()) && Last(history) == Now()
      && forall i :: 0 <= i < |produced| ==> Appears(history, i)
    }

    /** The mutable summary agrees with the list of everything produced so far. */
    ghost predicate Tracks()
      reads this`fallback, this`largestOversized, this`produced
    {
      && (fallback.None? <==> FirstFitting(produced, limit).None?)
      && (fallback.Some? ==> fallback.value.file == FirstFitting(produced, limit).value)
      && largestOversized == LargestOversized(produced, limit)
      && NonePreferred(produced, target, limit)
    }

    /** When removals work, only the fallback and the given candidates exist. */
    ghost predicate Lean(current: set<Path>)
      reads this`disk, this`fallback
    {
      RemovalsWork() ==> disk.Keys <= Held() + current
    }

    /** Every effect is followed by the record of it. */
    ghost method Note(e: Effect)
      requires Story(history, RemovalsWork()) && Perform(Last(history), e) == Now() && SnapshotOk(Now(), RemovalsWork())
      requires e.Linked? ==> Last(history).canonical.None?
      requires forall i :: 0 <= i < |produced| ==> Appears(history, i)
      modifies this`history
      ensures Recorded() && history == Then(old(history), e)
    {
      history := Then(history, e);
    }

    /** Another worker gets its turn, and may link the destination if nothing is there. */
    method Pause()
      requires Valid()
      modifies this`canonical, this`pauses, this`history
      ensures Valid() && Beginning(history) == old(Beginning(history))
      ensures Kept(old(canonical), canonical) && (Unrivalled() ==> canonical == old(canonical))
    {
      var rival := env.rival(pauses);
      pauses := pauses + 1;
      if canonical.None? && rival.Some? {
        canonical := rival;
        Note(Linked(rival.value));
      }
    }

    lemma LeanIsSmall(p: Path)
      requires Lean({p})
      ensures RemovalsWork() ==> |disk.Keys| <= 2
    {
      if RemovalsWork() {
        AtMostTwo(disk.Keys, if fallback.Some? then fallback.value.path else p, p);
      }
    }

    method NextPath() returns (p: Path)
      requires Valid() && Lean({})
      modifies this`attempts, this`paths, this`names, this`history, this`canonical, this`pauses
      ensures Valid() && Lean({})
      ensures p == old(names) && names == p + 1 && attempts == old(attempts) + 1
      ensures paths == old(paths) + [p] && p !in disk
      ensures Kept(old(canonical), canonical) && (Unrivalled() ==> canonical == old(canonical))
      ensures Beginning(history) == old(Beginning(history))
    {
      Pause();
      attempts := attempts + 1;
      p := names;
      names := names + 1;
      Push(p);
    }

    /** VideoCandidateCleanup::push. */
    method Push(p: Path)
      requires Valid() && p < names
      modifies this`paths, this`history
      ensures Valid() && paths == old(paths) + [p] && Beginning(history) == old(Beginning(history))
    {
      paths := paths + [p];
      Note(Guarded(p));
    }

    /** One run of the executor against a guarded name. */
    method Execute(p: Path) returns (r: Encode)
      requires Valid() && Lean({}) && p in paths && p !in disk && p == |produced|
      modifies this`disk, this`produced, this`history, this`canonical, this`pauses
      ensures Valid() && Lean({p})
      ensures r == env.encode(p)
      ensures r.Produced? ==> disk == old(disk)[p := r.file] && produced == old(produced) + [r.file]
      ensures !r.Produced? ==>
                && produced == old(produced)
                && disk == if r.leftover.Some? then old(disk)[p := r.leftover.value] else old(disk)
      ensures Kept(old(canonical), canonical) && (Unrivalled() ==> canonical == old(canonical))
      ensures Beginning(history) == old(Beginning(history))
    {
      Pause();
      r := env.encode(p);
      if r.Produced? {
        Produce(p, r.file);
      } else {
        Leave(p, r.leftover);
      }
    }

    /** What an encode that did not succeed leaves on disk. */
    method Leave(p: Path, leftover: Option<Artifact>)
      requires Valid() && Lean({}) && p in paths && p !in disk
      modifies this`disk, this`history
      ensures Valid() && Lean({p}) && Beginning(history) == old(Beginning(history))
      ensures disk == if leftover.Some? then old(disk)[p := leftover.value] else old(disk)
    {
      if leftover.Some? { Create(p, leftover.value); }
    }

    /** What an encode that succeeded leaves on disk. */
    method Produce(p: Path, file: Artifact)
      requires Valid() && Lean({}) && p in paths && p !in disk && p == |produced|
      modifies this`disk, this`produced, this`history
      ensures Valid() && Lean({p}) && disk == old(disk)[p := file] && produced == old(produced) + [file]
      ensures Beginning(history) == old(Beginning(history))
    {
      Create(p, file);
      produced := produced + [file];
    }

    /** A file appears under a guarded name. */
    method Create(p: Path, file: Artifact)
      requires Valid() && Lean({}) && p in paths && p !in disk
      modifies this`disk, this`history
      ensures Valid() && Lean({p}) && disk == old(disk)[p := file] && Appears(history, p)
      ensures Beginning(history) == old(Beginning(history))
    {
      ghost var before := disk.Keys;
      disk := disk[p := file];
      assert disk.Keys == before + {p};
      LeanIsSmall(p);
      Note(Created(p));
    }

    /** The file leaves the disk. */
    method Unlink(p: Path)
      requires Valid()
      requires fallback.Some? ==> fallback.value.path != p
      modifies this`disk, this`history
      ensures Valid()
      ensures disk == old(disk) - {p}
      ensures Beginning(history) == old(Beginning(history))
    {
      ghost var before := disk.Keys;
      disk := disk - {p};
      assert disk.Keys == before - {p};
      Subset(disk.Keys, before);
      Note(Deleted(p));
    }

    /** VideoCandidateCleanup::forget. */
    method Release(p: Path)
      requires Valid()
      requires p !in disk
      modifies this`paths, this`history
      ensures Valid()
      ensures p !in paths
      ensures forall q :: q in paths <==> q in old(paths) && q != p
      ensures Beginning(history) == old(Beginning(history))
    {
      paths := Forget(paths, p);
      Note(Forgotten(p));
    }

    /** The file is gone, and then its name. */
    method Erase(p: Path)
      requires Valid()
      requires fallback.Some? ==> fallback.value.path != p
      modifies this`disk, this`paths, this`history
      ensures Valid() && disk == old(disk) - {p} && Beginning(history) == old(Beginning(history))
      ensures forall q :: q in paths <==> q in old(paths) && q != p
    {
      Unlink(p);
      Release(p);
    }

    /** remove_video_candidate: forget the name only once the file is known to be gone. */
    method RemoveCandidate(p: Path) returns (dropped: bool)
      requires Valid()
      requires fallback.Some? ==> fallback.value.path != p
      modifies this`disk, this`paths, this`removals, this`history, this`canonical, this`pauses
      ensures Valid()
      ensures disk == old(disk) || disk == old(disk) - {p}
      ensures RemovalsWork() && !dropped ==> p !in disk
      ensures if dropped then Cut() else old(Unbroken()) ==> Unbroken()
      ensures !dropped ==> (p in paths ==> p in disk)
      ensures forall q :: q in paths ==> q in old(paths)
      ensures forall q :: q in old(paths) && q != p ==> q in paths
      ensures Kept(old(canonical), canonical) && (Unrivalled() ==> canonical == old(canonical))
      ensures Beginning(history) == old(Beginning(history))
    {
      dropped := false;
      Pause();
      if p !in disk {
        Release(p);                          // NotFound
      } else {
        dropped := Delete(p);
      }
    }

    /** One removal of a file that exists. */
    method Delete(p: Path) returns (dropped: bool)
      requires Valid() && p in disk
      requires fallback.Some? ==> fallback.value.path != p
      modifies this`disk, this`paths, this`removals, this`history
      ensures Valid() && Beginning(history) == old(Beginning(history))
      ensures disk == old(disk) || disk == old(disk) - {p}
      ensures RemovalsWork() && !dropped ==> p !in disk
      ensures if dropped then Cut() else old(Unbroken()) ==> Unbroken()
      ensures !dropped ==> (p in paths <==> p in old(paths) && p in disk)
      ensures forall q :: q != p ==> (q in paths <==> q in old(paths))
    {
      dropped := false;
      var outcome := env.removal(removals);
      removals := removals + 1;
      match outcome {
        case Stuck =>
        case RemovalInterrupted(removed) =>
          dropped := true;
          if removed { Unlink(p); }
        case _ =>
          Erase(p);
      }
    }

    /** VideoCandidateSet::consider. Returns the selected candidate, if the new result is one. */
    method Consider(c: Candidate, policy: FallbackPolicy, ghost before: seq<Artifact>)
      returns (selected: Option<Candidate>, dropped: bool)
      requires Considering(c, before)
      modifies this`disk, this`paths, this`removals, this`history, this`fallback, this`largestOversized
      modifies this`canonical, this`pauses
      ensures Valid() && Beginning(history) == old(Beginning(history))
      ensures Kept(old(canonical), canonical) && (Unrivalled() ==> canonical == old(canonical))
      ensures selected.Some? ==>
                && selected.value == c && c.file.bytes <= limit && fallback.None?
                && c.path in disk && disk[c.path] == c.file
                && (!dropped ==> Lean({c.path}))
      ensures selected.Some? <==> Selects(c.file, policy, before)
      ensures selected.None? ==> Tracks() && (!dropped ==> Lean({}))
      ensures forall q :: q in paths ==> q in old(paths)
      ensures if dropped then Cut() else old(Unbroken()) ==> Unbroken()
    {
      var selects := c.file.bytes <= limit && match policy
        case KeepFirst => c.file.bytes <= target
        case KeepSmallest => fallback.None? || c.file.bytes < fallback.value.file.bytes;
      if selects {
        selected, dropped := Some(c), false;
        if fallback.Some? { dropped := Supersede(c); }
      } else {
        selected := None;
        PreferredIsSelected(before, c.file, policy);
        dropped := SetAside(c, policy, before);
      }
    }

    /** A new result is on disk beside the fallback, and the summary does not describe it yet. */
    ghost predicate Considering(c: Candidate, before: seq<Artifact>)
      reads this
    {
      && Valid() && Lean({c.path}) && c.path in disk && disk[c.path] == c.file
      && (fallback.Some? ==> fallback.value.path != c.path)
      && produced == before + [c.file] && Before(before)
    }

    /** The selected candidate replaces the fallback, whose file is removed. */
    method Supersede(c: Candidate) returns (dropped: bool)
      requires Valid() && Lean({c.path}) && c.path in disk && fallback.Some? && fallback.value.path != c.path
      modifies this`disk, this`paths, this`removals, this`history, this`fallback, this`canonical, this`pauses
      ensures Valid() && Beginning(history) == old(Beginning(history)) && fallback.None?
      ensures Kept(old(canonical), canonical) && (Unrivalled() ==> canonical == old(canonical))
      ensures c.path in disk && disk[c.path] == old(disk)[c.path] && (!dropped ==> Lean({c.path}))
      ensures forall q :: q in paths ==> q in old(paths)
      ensures if dropped then Cut() else old(Unbroken()) ==> Unbroken()
    {
      var previous := fallback.value;
      fallback := None;
      dropped := RemoveCandidate(previous.path);
    }

    /** A result that is not selected is noted, and kept as the fallback or removed. */
    method SetAside(c: Candidate, policy: FallbackPolicy, ghost before: seq<Artifact>) returns (dropped: bool)
      requires Considering(c, before)
      requires !Selects(c.file, policy, before) && !Preferred(c.file, target, limit)
      modifies this`disk, this`paths, this`removals, this`history, this`fallback, this`largestOversized
      modifies this`canonical, this`pauses
      ensures Valid() && Beginning(history) == old(Beginning(history))
      ensures Kept(old(canonical), canonical) && (Unrivalled() ==> canonical == old(canonical))
      ensures Tracks() && (!dropped ==> Lean({}))
      ensures forall q :: q in paths ==> q in old(paths)
      ensures if dropped then Cut() else old(Unbroken()) ==> Unbroken()
    {
      dropped := false;
      AppendSummary(before, c.file);
      if c.file.bytes > limit {
        largestOversized := Some(Max(if largestOversized.Some? then largestOversized.value else 0, c.file.bytes));
      }
      if c.file.bytes <= limit && fallback.None? && policy == KeepFirst {
        fallback := Some(c);
      } else {
        assert Tracks();
        dropped := RemoveCandidate(c.path);
      }
    }

    /** The summary describes what had been produced before the newest candidate. */
    ghost predicate Before(before: seq<Artifact>)
      reads this`fallback, this`largestOversized
    {
      && (fallback.None? <==> FirstFitting(before, limit).None?)
      && (fallback.Some? ==> fallback.value.file == FirstFitting(before, limit).value)
      && largestOversized == LargestOversized(before, limit)
      && NonePreferred(before, target, limit)
    }

    /** Which results are chosen: within the target when the first fallback is kept, and otherwise
        any result that fits the storage and beats the fallback. */
    ghost predicate Selects(file: Artifact, policy: FallbackPolicy, before: seq<Artifact>) {
      file.bytes <= limit && match policy
        case KeepFirst => file.bytes <= target
        case KeepSmallest =>
          FirstFitting(before, limit).None? || file.bytes < FirstFitting(before, limit).value.bytes
    }

    lemma AppendFacts(before: seq<Artifact>, file: Artifact)
      ensures (before + [file])[..|before|] == before
    {}

    /** What one more result changes in the summary of all of them. */
    lemma AppendSummary(before: seq<Artifact>, file: Artifact)
      requires NonePreferred(before, target, limit) && !Preferred(file, target, limit)
      ensures var first, largest := FirstFitting(before, limit), LargestOversized(before, limit);
        && FirstFitting(before + [file], limit)
           == (if first.Some? then first else if file.bytes <= limit then Some(file) else None)
        && LargestOversized(before + [file], limit)
           == (if file.bytes <= limit then largest
               else Some(Max(if largest.Some? then largest.value else 0, file.bytes)))
      ensures NonePreferred(before + [file], target, limit)
    {
      AppendFacts(before, file);
    }

    /** A preferred result is selected under either policy, because a held fallback is above the target. */
    lemma PreferredIsSelected(before: seq<Artifact>, file: Artifact, policy: FallbackPolicy)
      requires NonePreferred(before, target, limit)
      ensures Preferred(file, target, limit) ==> Selects(file, policy, before)
    {
      FirstFittingMeaning(before, limit);
    }

    /** The run links the destination, where nothing is. */
    method Link(file: Artifact)
      requires Valid() && canonical.None?
      modifies this`canonical, this`history
      ensures Valid() && canonical == Some(file) && Beginning(history) == old(Beginning(history))
    {
      canonical := Some(file);
      Note(Linked(file));
    }

    /** publish_video_candidate: link without overwriting, then remove every guarded name. */
    method Publish(selected: Candidate) returns (out: Outcome)
      requires Valid() && fallback.None?
      modifies this`canonical, this`pauses, this`disk, this`paths, this`removals, this`history
      ensures Valid() && Beginning(history) == old(Beginning(history))
      ensures Kept(old(canonical), canonical)
      ensures out.Published? ==> out.file == selected.file && canonical == Some(selected.file)
      ensures out.Published? && RemovalsWork() ==> disk == map[]
      ensures out.Published? ==> forall q :: q in paths ==> q in disk
      ensures out.Published? || out == Failure(OutputPublish) || out == Dropped
      ensures out.Published? ==> env.publish == Works && (old(Unbroken()) ==> Unbroken())
      ensures out == Dropped ==> env.publish.PublishInterrupted? || Cut()
      // with working I/O the run fails exactly when other content is already there
      ensures out.Failure? ==> env.publish == Broken || Lost(selected.file)
      ensures env.publish == Broken ==> out.Failure?
      ensures Unrivalled() && old(canonical).None? && out.Failure? ==> env.publish == Broken
    {
      Pause();
      match env.publish {
        case Broken => return Failure(OutputPublish);
        case PublishInterrupted(linked) =>
          if linked && canonical.None? { Link(selected.file); }
          return Dropped;
        case Works =>
      }
      if canonical.None? {
        Link(selected.file);
      } else if canonical.value != selected.file {
        return Failure(OutputPublish);
      }
      out := Cleanup(selected.file);
    }

    /** Another worker's content is at the destination. */
    ghost predicate Lost(file: Artifact)
      reads this`canonical
    {
      canonical.Some? && canonical.value != file
    }

    /** The loop that removes every guarded name after the link. */
    method Cleanup(file: Artifact) returns (out: Outcome)
      requires Valid() && fallback.None? && canonical == Some(file)
      modifies this`canonical, this`pauses, this`disk, this`paths, this`removals, this`history
      ensures Valid() && canonical == Some(file) && Beginning(history) == old(Beginning(history))
      ensures (out == Published(file) && (old(Unbroken()) ==> Unbroken())) || (out == Dropped && Cut())
      ensures out.Published? && RemovalsWork() ==> disk == map[]
      ensures out.Published? ==> forall q :: q in paths ==> q in disk
    {
      var remaining := paths;
      for i := 0 to |remaining|
        invariant Sweeping(file, remaining, i, old(Beginning(history))) && (old(Unbroken()) ==> Unbroken())
      {
        var dropped := SweepNext(file, remaining, i, old(Beginning(history)));
        if dropped { return Dropped; }
      }
      assert remaining[..|remaining|] == remaining;
      AllSwept(remaining, Now(), RemovalsWork());
      out := Published(file);
    }

    /** The destination is linked and the first `i` of the given names have been dealt with. */
    ghost predicate Sweeping(file: Artifact, remaining: seq<Path>, i: nat, start: Snapshot)
      requires i <= |remaining|
      reads this
    {
      && Valid() && fallback.None? && canonical == Some(file) && Beginning(history) == start
      && (forall q :: q in paths ==> q in remaining)
      && Swept(remaining[..i], paths, disk.Keys, RemovalsWork())
    }

    /** One round of that loop. */
    method SweepNext(file: Artifact, remaining: seq<Path>, i: nat, ghost start: Snapshot) returns (dropped: bool)
      requires i < |remaining| && Sweeping(file, remaining, i, start)
      modifies this`canonical, this`pauses, this`disk, this`paths, this`removals, this`history
      ensures Valid() && canonical == Some(file) && Beginning(history) == start
      ensures if dropped then Cut() else Sweeping(file, remaining, i + 1, start) && (old(Unbroken()) ==> Unbroken())
    {
      dropped := RemoveCandidate(remaining[i]);
      if !dropped {
        SweptStep(
          remaining[..i], remaining[i], old(paths), old(disk.Keys), paths, disk.Keys, RemovalsWork());
        assert remaining[..i + 1] == remaining[..i] + [remaining[i]];
      }
    }

    /** Every name handed out so far was encoded successfully, in order, and nothing dropped the run. */
    ghost predicate InStep()
      reads this`names, this`produced, this`removals
    {
      names == |produced| && Encoded() && Unbroken()
    }

    /** Everything produced is what its encode made, and was planned first if it was not the first. */
    ghost predicate Encoded()
      reads this`produced
    {
      EncodedAs(produced)
    }

    ghost predicate EncodedAs(s: seq<Artifact>) {
      forall i :: 0 <= i < |s| ==> env.encode(i) == Produced(s[i]) && (i > 0 ==> !env.planFails(i))
    }

    lemma EncodedMore(s: seq<Artifact>, file: Artifact)
      requires EncodedAs(s) && env.encode(|s|) == Produced(file) && (|s| > 0 ==> !env.planFails(|s|))
      ensures EncodedAs(s + [file])
    {}

    /** Between candidates. */
    ghost predicate Resting()
      reads this
    {
      Valid() && Tracks() && Lean({}) && InStep()
    }

    /** A candidate that may be published now. */
    ghost predicate Ready(c: Candidate)
      reads this
    {
      && Valid() && Lean({c.path}) && fallback.None? && c.path in disk && disk[c.path] == c.file
      && InStep()
    }

    /** Encode one candidate and consider it. */
    method Attempt(p: Path, policy: FallbackPolicy) returns (selected: Option<Candidate>, stop: Option<Outcome>)
      requires Valid() && Tracks() && Lean({}) && p in paths && p !in disk
      requires p == |produced| && names == p + 1 && Encoded() && Unbroken() && (p > 0 ==> !env.planFails(p))
      modifies this`disk, this`paths, this`removals, this`history, this`fallback, this`largestOversized, this`produced
      modifies this`canonical, this`pauses
      ensures Valid() && Beginning(history) == old(Beginning(history))
      ensures Kept(old(canonical), canonical) && (Unrivalled() ==> canonical == old(canonical))
      ensures stop.Some? ==> stop.value == Dropped || stop.value == Failure(EncodeFailed)
      ensures stop == Some(Failure(EncodeFailed)) <==> env.encode(p).Failed?
      ensures stop == Some(Dropped) ==> env.encode(p).Interrupted? || Cut()
      ensures stop.None? ==> env.encode(p).Produced?
      ensures produced == old(produced) + if env.encode(p).Produced? then [env.encode(p).file] else []
      ensures Encoded()
      ensures stop.None? && selected.Some? ==>
                && Ready(selected.value) && selected.value.file == env.encode(p).file
                && Selects(selected.value.file, policy, old(produced))
      ensures stop.None? && selected.None? ==>
                Resting() && !Selects(env.encode(p).file, policy, old(produced))
    {
      selected, stop := None, None;
      ghost var before := produced;
      if env.encode(p).Produced? { EncodedMore(before, env.encode(p).file); }
      var r := Execute(p);
      match r {
        case Failed(_) => stop := Some(Failure(EncodeFailed));
        case Interrupted(_) => stop := Some(Dropped);
        case Produced(file) => selected, stop := Judge(Candidate(p, file), policy, before);
      }
    }

    /** Consider a finished encode; the removal it leads to may drop the run. */
    method Judge(c: Candidate, policy: FallbackPolicy, ghost before: seq<Artifact>)
      returns (selected: Option<Candidate>, stop: Option<Outcome>)
      requires Considering(c, before) && InStep()
      modifies this`disk, this`paths, this`removals, this`history, this`fallback, this`largestOversized
      modifies this`canonical, this`pauses
      ensures Valid() && Beginning(history) == old(Beginning(history))
      ensures Kept(old(canonical), canonical) && (Unrivalled() ==> canonical == old(canonical))
      ensures stop.None? || (stop == Some(Dropped) && Cut())
      ensures stop.None? && selected.Some? ==>
                Ready(selected.value) && selected.value == c && Selects(c.file, policy, before)
      ensures stop.None? && selected.None? ==> Resting() && !Selects(c.file, policy, before)
    {
      var dropped;
      selected, dropped := Consider(c, policy, before);
      stop := if dropped then Some(Dropped) else None;
    }

    /** Drop for VideoCandidateCleanup: it runs on every way out of a run. */
    method DropGuard()
      requires Valid()
      modifies this`disk, this`history, this`fallback
      ensures Valid() && Beginning(history) == old(Beginning(history))
      ensures forall p :: p in disk <==> p in old(disk) && !env.dropRemoves(p)
      ensures forall p :: p in disk ==> disk[p] == old(disk)[p]
    {
      fallback := None;
      for i := 0 to |paths|
        invariant Valid() && Beginning(history) == old(Beginning(history)) && fallback.None?
        invariant disk == AfterDrop(old(disk), paths[..i], env.dropRemoves)
      {
        AfterDropStep(old(disk), paths, i, env.dropRemoves);
        if env.dropRemoves(paths[i]) { Unlink(paths[i]); }
      }
      assert paths[..|paths|] == paths;
      AfterDropMeaning(old(disk), paths, env.dropRemoves);
      assert Owned(Now());
    }

    /** The run has neither published nor given up: it may still need `rest` more candidates. */
    ghost predicate Searching(plan: Plan, rest: nat)
      reads this
    {
      && Resting()
      && |produced| + rest == FullSchedule(plan)
    }

    /** A two-pass encode had its logs from beginning to end. */
    ghost predicate LogsKept(plan: Plan)
      reads this`produced
    {
      plan.twoPass && |produced| == FirstEncode(plan) + 2 ==> env.passlogs == Reserved
    }

    /** The verdict of a finished run about everything it produced. */
    ghost predicate Verdict(plan: Plan, out: Outcome)
      reads this`names, this`produced, this`removals
    {
      Finished(out) ==>
        && Complete(produced, plan, target, limit) && names == |produced| && Unbroken() && LogsKept(plan)
        && (out.Published? ==> Winner(produced, plan, target, limit) == Some(out.file))
        && (out.Failure? ==> Winner(produced, plan, target, limit).None?
                             && LargestOversized(produced, limit) == Some(out.error.bytes)
                             && out.error.limit == limit)
    }

    static ghost function Chosen(out: Outcome): Option<Artifact> {
      if out.Published? then Some(out.file) else None
    }

    static ghost predicate Finished(out: Outcome) {
      out.Published? || (out.Failure? && out.error.OutputExceedsStorageLimit?)
    }

    /** The winner could not be published, because other content was at the destination. */
    ghost predicate Beaten(plan: Plan, out: Outcome)
      reads this`produced, this`canonical
    {
      && out == Failure(OutputPublish) && Complete(produced, plan, target, limit)
      && Winner(produced, plan, target, limit).Some? && Lost(Winner(produced, plan, target, limit).value)
    }

    /** Nothing is encoded after a preferred candidate, and everything produced is what its encode made. */
    ghost predicate Ordered(plan: Plan)
      reads this`produced
    {
      && |produced| <= FullSchedule(plan) && Encoded()
      && forall i :: 0 <= i < |produced| - 1 ==> !Preferred(produced[i], target, limit)
    }

    /** A name was handed out after everything produced so far. */
    ghost predicate Trying()
      reads this`names, this`produced
    {
      names == |produced| + 1
    }

    /** Why a run that neither published nor found everything too large ended as it did. Each reason is
        an answer of the outside world that the run asked for. */
    ghost predicate Explained(plan: Plan, out: Outcome, published: Option<Artifact>)
      reads this`names, this`produced, this`removals, this`canonical
    {
      match out
      case Published(_) => env.publish == Works
      case Dropped => Interruption(plan)
      case Failure(error) =>
        match error
        case EncodeFailed => Trying() && env.encode(|produced|).Failed?
        case InvalidPlan => Trying() && |produced| > 0 && env.planFails(|produced|)
        case NoVideo => names == |produced| == FirstEncode(plan) && !plan.hasVideo
        case NoDimensions => names == |produced| == FirstEncode(plan) && plan.hasVideo && plan.ladder == 0
        case PasslogFailed => AtTwoPass(plan) && env.passlogs == NotReserved
        case OutputPublish =>
          && HasWinner(plan) && (env.publish == Broken || Beaten(plan, out))
          && (Unrivalled() && published.None? ==> env.publish == Broken)
        case OutputExceedsStorageLimit(_, _) => true
    }

    /** The run was dropped by the encode, the removal, the pass logs or the publication it was at. */
    ghost predicate Interruption(plan: Plan)
      reads this`names, this`produced, this`removals
    {
      || (Trying() && env.encode(|produced|).Interrupted?)
      || Cut()
      || (AtTwoPass(plan) && env.passlogs == ReserveInterrupted)
      || (plan.twoPass && |produced| == FirstEncode(plan) + 2 && env.passlogs == RemoveInterrupted)
      || (HasWinner(plan) && env.publish.PublishInterrupted?)
    }

    /** How many candidates come before the first encode. */
    static ghost function FirstEncode(plan: Plan): nat {
      if plan.remux then 1 else 0
    }

    /** The name of the two-pass candidate has been handed out. */
    ghost predicate AtTwoPass(plan: Plan)
      reads this`names, this`produced
    {
      plan.twoPass && Trying() && names == FirstEncode(plan) + 2
    }

    /** The schedule is over and one candidate is to be published. */
    ghost predicate HasWinner(plan: Plan)
      reads this`produced
    {
      Complete(produced, plan, target, limit) && Winner(produced, plan, target, limit).Some?
    }

    /** What remains to be true of the run whatever a phase decides. */
    ghost predicate Phase(plan: Plan, out: Option<Outcome>, published: Option<Artifact>, start: Snapshot)
      reads this
    {
      && Valid() && Beginning(history) == start && Kept(published, canonical)
      && (out.None? && Unrivalled() ==> canonical == published)
      && (out.Some? ==> Verdict(plan, out.value) && Ordered(plan) && Explained(plan, out.value, published))
      && (out.Some? && out.value.Published? ==>
            canonical == Some(out.value.file) && (RemovalsWork() ==> disk == map[]))
    }

    /** A fresh name has been handed out and is about to be encoded. */
    ghost predicate Armed(plan: Plan, p: Path, rest: nat)
      reads this
    {
      && Valid() && Tracks() && Lean({}) && p in paths && p !in disk
      && p == |produced| && Trying() && |produced| + rest == FullSchedule(plan)
      && Encoded() && Unbroken()
    }

    lemma SelectedWins(plan: Plan, before: seq<Artifact>, file: Artifact, policy: FallbackPolicy)
      requires NonePreferred(before, target, limit)
      requires |before| < FullSchedule(plan)
      requires policy == KeepSmallest ==> plan.twoPass && |before| + 1 == FullSchedule(plan) && Encodable(plan)
      requires Selects(file, policy, before)
      ensures Complete(before + [file], plan, target, limit)
      ensures Winner(before + [file], plan, target, limit) == Some(file)
    {
      AppendFacts(before, file);
    }

    lemma RejectedLoses(plan: Plan, before: seq<Artifact>, file: Artifact, policy: FallbackPolicy)
      requires NonePreferred(before, target, limit)
      requires policy == KeepFirst ==> !plan.twoPass || |before| + 1 < FullSchedule(plan)
      requires !Selects(file, policy, before)
      ensures Winner(before + [file], plan, target, limit) == FirstFitting(before + [file], limit)
    {
      AppendFacts(before, file);
      PreferredIsSelected(before, file, policy);
    }

    /** Only the two-pass candidate, the last one, is judged against the fallback. */
    ghost predicate Suits(plan: Plan, policy: FallbackPolicy, rest: nat) {
      if policy == KeepSmallest then plan.twoPass && rest == 1 && Encodable(plan) else !plan.twoPass || rest > 1
    }

    /** Encode one candidate, consider it, and publish it when it is selected. */
    method FinishCandidate(plan: Plan, p: Path, policy: FallbackPolicy, ghost rest: nat) returns (out: Option<Outcome>)
      requires Armed(plan, p, rest) && rest > 0 && (p > 0 ==> !env.planFails(p))
      requires policy == KeepSmallest && env.encode(p).Produced? ==> env.passlogs == Reserved
      requires Suits(plan, policy, rest)
      modifies this
      ensures Phase(plan, out, old(canonical), old(Beginning(history)))
      ensures out.None? ==> Settling(plan, rest - 1)
    {
      ghost var before := produced;
      var selected, stop := Attempt(p, policy);
      ghost var start := old(Beginning(history));
      if stop.Some? {
        StopsHere(plan, before, rest, stop.value, old(canonical), start);
        return stop;
      }
      ghost var file := env.encode(p).file;
      out := Conclude(plan, before, file, selected, policy, rest, old(canonical), start);
    }

    /** The run ends with nothing published, after at most one result beyond the given ones. */
    lemma StopsHere(
      plan: Plan, before: seq<Artifact>, rest: nat, out: Outcome, published: Option<Artifact>, start: Snapshot)
      requires Valid() && Beginning(history) == start && Kept(published, canonical)
      requires NonePreferred(before, target, limit) && |before| + rest == FullSchedule(plan) && rest > 0
      requires before <= produced && |produced| <= |before| + 1
      requires Encoded() && !Finished(out) && Explained(plan, out, published)
      ensures Phase(plan, Some(out), published, start)
    {
      forall i | 0 <= i < |produced| - 1 ensures !Preferred(produced[i], target, limit) {
        assert produced[i] == before[i];
      }
    }

    /** The candidate was considered: it is published now, or the run goes on. */
    method Conclude(
      plan: Plan, ghost before: seq<Artifact>, ghost file: Artifact, selected: Option<Candidate>,
      ghost policy: FallbackPolicy, ghost rest: nat, ghost published: Option<Artifact>, ghost start: Snapshot)
      returns (out: Option<Outcome>)
      requires produced == before + [file] && |before| + rest == FullSchedule(plan) && rest > 0
      requires NonePreferred(before, target, limit) && Encoded()
      requires policy == KeepSmallest ==> env.passlogs == Reserved
      requires Suits(plan, policy, rest)
      requires Valid() && Kept(published, canonical) && (Unrivalled() ==> canonical == published)
      requires Beginning(history) == start
      requires selected.Some? ==> Ready(selected.value) && selected.value.file == file && Selects(file, policy, before)
      requires selected.None? ==> Resting() && !Selects(file, policy, before)
      modifies this`canonical, this`pauses, this`disk, this`paths, this`removals, this`history
      ensures Phase(plan, out, published, start)
      ensures out.None? ==> Settling(plan, rest - 1)
    {
      if selected.None? {
        RejectedLoses(plan, before, file, policy);
        return None;
      }
      SelectedWins(plan, before, file, policy);
      var o := PublishWinner(plan, selected.value);
      return Some(o);
    }

    /** Publish a candidate already known to be the winner. */
    method PublishWinner(plan: Plan, c: Candidate) returns (out: Outcome)
      requires Ready(c) && Complete(produced, plan, target, limit) && LogsKept(plan)
      requires Winner(produced, plan, target, limit) == Some(c.file)
      modifies this`canonical, this`pauses, this`disk, this`paths, this`removals, this`history
      ensures Phase(plan, Some(out), old(canonical), old(Beginning(history)))
    {
      out := Publish(c);
    }

    /** The next candidate gets its name. */
    method Arm(ghost plan: Plan, ghost rest: nat) returns (p: Path)
      requires Searching(plan, rest)
      modifies this`attempts, this`paths, this`names, this`history, this`canonical, this`pauses
      ensures Armed(plan, p, rest) && Beginning(history) == old(Beginning(history))
      ensures Kept(old(canonical), canonical) && (Unrivalled() ==> canonical == old(canonical))
    {
      p := NextPath();
    }

    /** One constant-quality or remux candidate. */
    method TryCandidate(plan: Plan, mayFailToPlan: bool, ghost rest: nat) returns (out: Option<Outcome>)
      requires Searching(plan, rest) && rest > 0
      requires !plan.twoPass || rest > 1
      requires mayFailToPlan <==> produced != []
      modifies this
      ensures Phase(plan, out, old(canonical), old(Beginning(history)))
      ensures out.None? ==> Settling(plan, rest - 1)
    {
      var p := Arm(plan, rest);
      if mayFailToPlan && env.planFails(p) {
        StopsHere(plan, produced, rest, Failure(InvalidPlan), old(canonical), old(Beginning(history)));
        return Some(Failure(InvalidPlan));
      }
      out := FinishCandidate(plan, p, KeepFirst, rest);
    }

    /** The two-pass candidate, which replaces the rest of the ladder. */
    method TryTwoPass(plan: Plan) returns (out: Option<Outcome>)
      requires Searching(plan, 1) && plan.twoPass && Encodable(plan)
      modifies this
      ensures Phase(plan, out, old(canonical), old(Beginning(history)))
      ensures out.None? ==> Settling(plan, 0)
    {
      var p := Arm(plan, 1);
      out := FinishTwoPass(plan, p, old(canonical), old(Beginning(history)));
    }

    method FinishTwoPass(plan: Plan, p: Path, ghost published: Option<Artifact>, ghost start: Snapshot)
      returns (out: Option<Outcome>)
      requires Armed(plan, p, 1) && plan.twoPass && Encodable(plan) && Beginning(history) == start
      requires Kept(published, canonical) && (Unrivalled() ==> canonical == published)
      modifies this
      ensures Phase(plan, out, published, start)
      ensures out.None? ==> Settling(plan, 0)
    {
      match env.passlogs {
        case NotReserved => out := Some(Failure(PasslogFailed));
        case ReserveInterrupted => out := Some(Dropped);
        case _ =>
          if env.planFails(p) {
            out := Some(Failure(InvalidPlan));
          } else {
            out := EncodeTwice(plan, p, published, start);
            return;
          }
      }
      StopsHere(plan, produced, 1, out.value, published, start);
    }

    /** The two passes themselves, once their logs are reserved. */
    method EncodeTwice(plan: Plan, p: Path, ghost published: Option<Artifact>, ghost start: Snapshot)
      returns (out: Option<Outcome>)
      requires Armed(plan, p, 1) && plan.twoPass && Encodable(plan) && Beginning(history) == start
      requires Kept(published, canonical) && (Unrivalled() ==> canonical == published)
      requires !env.planFails(p) && (env.passlogs == Reserved || env.passlogs == RemoveInterrupted)
      modifies this
      ensures Phase(plan, out, published, start)
      ensures out.None? ==> Settling(plan, 0)
    {
      attempts := attempts + 1;
      if env.encode(p).Produced? && env.passlogs == RemoveInterrupted {
        out := DropAfterEncode(plan, p, published, start);
      } else {
        out := FinishCandidate(plan, p, KeepSmallest, 1);
      }
    }

    /** The run is dropped while it removes the pass logs of a finished encode. */
    method DropAfterEncode(plan: Plan, p: Path, ghost published: Option<Artifact>, ghost start: Snapshot)
      returns (out: Option<Outcome>)
      requires Armed(plan, p, 1) && plan.twoPass && env.passlogs == RemoveInterrupted && env.encode(p).Produced?
      requires !env.planFails(p)
      requires Beginning(history) == start && Kept(published, canonical)
      modifies this`disk, this`produced, this`history, this`canonical, this`pauses
      ensures out == Some(Dropped) && Phase(plan, out, published, start)
    {
      ghost var before := produced;
      var _ := Execute(p);
      out := Some(Dropped);
      StopsHere(plan, before, 1, out.value, published, start);
    }

    /** Nothing was selected so far; were the schedule over, the fallback would be the winner. */
    ghost predicate Settling(plan: Plan, rest: nat)
      reads this
    {
      && Searching(plan, rest) && |produced| > 0 && LogsKept(plan)
      && Winner(produced, plan, target, limit) == FirstFitting(produced, limit)
    }

    method PublishFallback(plan: Plan) returns (out: Outcome)
      requires Settling(plan, 0) && Encodable(plan)
      modifies this
      ensures Phase(plan, Some(out), old(canonical), old(Beginning(history)))
    {
      FirstFittingMeaning(produced, limit);
      LargestOversizedMeaning(produced, limit);
      assert NonePreferred(produced[..|produced| - 1], target, limit);
      if fallback.None? {
        assert produced[0].bytes > limit;
        return Failure(OutputExceedsStorageLimit(
          if largestOversized.Some? then largestOversized.value else limit, limit));
      }
      var selected := fallback.value;
      fallback := None;
      out := PublishWinner(plan, selected);
    }

    /** The ladder below the first rung, one constant-quality candidate per rung. */
    method TryLadder(plan: Plan) returns (out: Option<Outcome>)
      requires plan.ladder > 0 && Settling(plan, plan.ladder - 1) && !plan.twoPass
      modifies this
      ensures Phase(plan, out, old(canonical), old(Beginning(history)))
      ensures out.None? ==> Settling(plan, 0)
    {
      for rung := 1 to plan.ladder
        invariant Settling(plan, plan.ladder - rung)
        invariant Kept(old(canonical), canonical) && (Unrivalled() ==> canonical == old(canonical))
        invariant Beginning(history) == old(Beginning(history))
      {
        out := TryCandidate(plan, true, plan.ladder - rung);
        if out.Some? { return; }
      }
      out := None;
    }

    /** execute_video_normalization, up to the moment its guard is dropped. */
    method Adapt(plan: Plan) returns (out: Outcome)
      requires Resting() && produced == []
      modifies this
      ensures Phase(plan, Some(out), old(canonical), old(Beginning(history)))
    {
      var o: Option<Outcome>;
      if plan.remux {
        o := TryCandidate(plan, false, FullSchedule(plan));
        if o.Some? { return o.value; }
      }
      out := AdaptByEncoding(plan);
    }

    /** The remux, if there was one, did not do: video has to be encoded. */
    method AdaptByEncoding(plan: Plan) returns (out: Outcome)
      requires Searching(plan, 1 + AfterQuality(plan))
      modifies this
      ensures Phase(plan, Some(out), old(canonical), old(Beginning(history)))
    {
      if !plan.hasVideo || plan.ladder == 0 {
        out := Failure(if !plan.hasVideo then NoVideo else NoDimensions);
        StopsHere(plan, produced, 1 + AfterQuality(plan), out, canonical, Beginning(history));
        return;
      }
      var o := TryCandidate(plan, plan.remux, 1 + AfterQuality(plan));
      if o.Some? { return o.value; }
      out := AdaptFurther(plan);
    }

    /** Nor did the first encode: what is left is the two-pass encode or the rest of the ladder. */
    method AdaptFurther(plan: Plan) returns (out: Outcome)
      requires Encodable(plan) && Settling(plan, AfterQuality(plan))
      modifies this
      ensures Phase(plan, Some(out), old(canonical), old(Beginning(history)))
    {
      var o: Option<Outcome>;
      if plan.twoPass {
        o := TryTwoPass(plan);
      } else {
        o := TryLadder(plan);
      }
      if o.Some? { return o.value; }
      out := PublishFallback(plan);
    }

    /** The whole of execute_video_normalization. */
    method Run(plan: Plan) returns (out: Outcome)
      requires Resting() && produced == [] && history == Start(Now())
      modifies this
      // the history runs from the start to the end, one effect at a time, and shows every candidate
      ensures Moments(history)[0] == old(Now()) && Moments(history)[|Moments(history)| - 1] == Now()
      ensures forall i :: 0 < i < |Moments(history)| ==> OneEffect(Moments(history)[i - 1], Moments(history)[i])
      ensures forall n :: 0 <= n < |produced| ==> Shown(Moments(history), n)
      // ownership at every moment of it, and nothing left behind
      ensures forall i :: 0 <= i < |Moments(history)| ==> Owned(Moments(history)[i])
      ensures RemovalsWork() ==> forall i :: 0 <= i < |Moments(history)| ==> |Moments(history)[i].files| <= 2
      ensures forall p :: p in disk ==> !env.dropRemoves(p)
      ensures out.Published? && RemovalsWork() ==> disk == map[]
      // whoever links the destination, at whatever moment, it is never replaced
      ensures forall i, j :: 0 <= i <= j < |Moments(history)| && Moments(history)[i].canonical.Some? ==>
                Moments(history)[j].canonical == Moments(history)[i].canonical
      ensures out.Published? ==> canonical == Some(out.file)
      // outcome
      ensures out.Published? ==> out.file.bytes <= limit && out.file in produced
      ensures Finished(out) ==> (out.Failure? <==> forall a :: a in produced ==> a.bytes > limit)
      ensures Finished(out) && out.Failure? ==>
                && out.error.limit == limit
                && (exists a :: a in produced && a.bytes == out.error.bytes)
                && forall a :: a in produced ==> a.bytes <= out.error.bytes
      // every other outcome is the fault of an answer the run received, so working paths lead to a finish
      ensures Explained(plan, out, old(canonical))
      ensures Finished(out) ==> Unbroken() && LogsKept(plan)
      ensures forall i :: 0 < i < |produced| ==> !env.planFails(i)
      ensures Cooperative(plan) ==> Finished(out) || Beaten(plan, out)
      ensures Cooperative(plan) && Unrivalled() && old(canonical).None? ==> Finished(out)
      // target preference
      ensures forall i :: 0 <= i < |produced| - 1 ==> !Preferred(produced[i], target, limit)
      ensures Finished(out) ==> forall i :: 0 <= i < |produced| && Preferred(produced[i], target, limit) ==>
                i == |produced| - 1 && names == |produced| && out == Published(produced[i])
      // which candidates were made, and which of them wins: the whole schedule unless one is preferred
      ensures |produced| <= (if plan.remux then 1 else 0) + (if plan.twoPass then 2 else Max(1, plan.ladder))
      ensures Finished(out) && NonePreferred(produced, target, limit) ==>
                |produced| == (if plan.remux then 1 else 0) + (if plan.twoPass then 2 else plan.ladder)
      ensures Finished(out) && NonePreferred(produced, target, limit) ==>
                Chosen(out) == if plan.twoPass then SmallestLast(produced, limit) else FirstFitting(produced, limit)
      ensures forall i :: 0 <= i < |produced| ==> env.encode(i) == Produced(produced[i])
      ensures Finished(out) ==> Complete(produced, plan, target, limit)
      ensures out.Published? ==> Winner(produced, plan, target, limit) == Some(out.file)
    {
      out := AdaptThenDrop(plan);
      if Finished(out) { FinishMeaning(plan, out); }
      TellStory();
    }

    /** What a finished run says about the candidates. */
    lemma FinishMeaning(plan: Plan, out: Outcome)
      requires Finished(out) && Verdict(plan, out)
      ensures out.Published? ==> out.file.bytes <= limit && out.file in produced
      ensures out.Failure? <==> forall a :: a in produced ==> a.bytes > limit
      ensures out.Failure? ==>
                && out.error.limit == limit
                && (exists a :: a in produced && a.bytes == out.error.bytes)
                && forall a :: a in produced ==> a.bytes <= out.error.bytes
      ensures forall i :: 0 <= i < |produced| && Preferred(produced[i], target, limit) ==>
                i == |produced| - 1 && names == |produced| && out == Published(produced[i])
      ensures NonePreferred(produced, target, limit) ==>
                && |produced| == (if plan.remux then 1 else 0) + (if plan.twoPass then 2 else plan.ladder)
                && Chosen(out) == if plan.twoPass then SmallestLast(produced, limit) else FirstFitting(produced, limit)
    {
      WinnerMeaning(produced, plan, target, limit);
      if NonePreferred(produced, target, limit) { WholeSchedule(produced, plan, target, limit); }
    }

    /** Whatever happened, the guard is dropped at the end. */
    method AdaptThenDrop(plan: Plan) returns (out: Outcome)
      requires Resting() && produced == []
      modifies this
      ensures Phase(plan, Some(out), old(canonical), old(Beginning(history)))
      ensures forall p :: p in disk ==> !env.dropRemoves(p)
    {
      out := Adapt(plan);
      DropGuard();
    }

    /** What a valid history says. */
    lemma TellStory()
      requires Valid()
      ensures Moments(history)[0] == Beginning(history)
      ensures forall i :: 0 < i < |Moments(history)| ==> OneEffect(Moments(history)[i - 1], Moments(history)[i])
      ensures forall n :: 0 <= n < |produced| ==> Shown(Moments(history), n)
      ensures forall i :: 0 <= i < |Moments(history)| ==> Owned(Moments(history)[i])
      ensures RemovalsWork() ==> forall i :: 0 <= i < |Moments(history)| ==> |Moments(history)[i].files| <= 2
      ensures forall i, j :: 0 <= i <= j < |Moments(history)| && Moments(history)[i].canonical.Some? ==>
                Moments(history)[j].canonical == Moments(history)[i].canonical
    {
      var all, lean := Moments(history), RemovalsWork();
      forall i | 0 < i < |all| ensures OneEffect(all[i - 1], all[i]) { StoryAt(history, lean, i); }
      forall i | 0 <= i < |all| ensures Owned(all[i]) && (lean ==> |all[i].files| <= 2) {
        StoryAt(history, lean, i);
      }
      forall n | 0 <= n < |produced| ensures Shown(all, n) { AppearsSomewhere(history, n); }
      forall i, j | 0 <= i <= j < |all| && all[i].canonical.Some? ensures all[j].canonical == all[i].canonical {
        DestinationStays(history, lean, i, j);
      }
    }
  }

  /** The last result if it is smaller than the first that fits before it, and otherwise that one. */
  ghost function SmallestLast(s: seq<Artifact>, limit: nat): Option<Artifact>
    requires |s| > 0
  {
    var first, last := FirstFitting(s[..|s| - 1], limit), s[|s| - 1];
    if last.bytes <= limit && (first.None? || last.bytes < first.value.bytes) then Some(last) else first
  }

  /** With nothing preferred the whole schedule is made, and every result of it counts. */
  lemma WholeSchedule(produced: seq<Artifact>, plan: Plan, target: nat, limit: nat)
    requires Complete(produced, plan, target, limit) && NonePreferred(produced, target, limit)
    ensures |produced| == (if plan.remux then 1 else 0) + (if plan.twoPass then 2 else plan.ladder)
    ensures Winner(produced, plan, target, limit) ==
      if plan.twoPass then SmallestLast(produced, limit) else FirstFitting(produced, limit)
  {
    assert !Preferred(produced[|produced| - 1], target, limit);
  }

  /** The winner in plain terms. */
  lemma WinnerMeaning(produced: seq<Artifact>, plan: Plan, target: nat, limit: nat)
    requires Complete(produced, plan, target, limit)
    ensures Winner(produced, plan, target, limit).None? <==> forall a :: a in produced ==> a.bytes > limit
    ensures var winner := Winner(produced, plan, target, limit);
      winner.Some? ==> winner.value in produced && winner.value.bytes <= limit
    ensures forall i :: 0 <= i < |produced| && Preferred(produced[i], target, limit) ==>
              i == |produced| - 1 && Winner(produced, plan, target, limit) == Some(produced[i])
    ensures LargestOversized(produced, limit).Some? && Winner(produced, plan, target, limit).None? ==>
              && (exists a :: a in produced && a.bytes == LargestOversized(produced, limit).value)
              && forall a :: a in produced ==> a.bytes <= LargestOversized(produced, limit).value
  {
    FirstFittingMeaning(produced, limit);
    LargestOversizedMeaning(produced, limit);
    var init := produced[..|produced| - 1];
    assert forall i :: 0 <= i < |init| ==> init[i] == produced[i] && !Preferred(produced[i], target, limit);
  }
}
