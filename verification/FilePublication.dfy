/**
  No-overwrite publication of workspace artifacts (crates/media/src/publication.rs).

  Any number of publishers race for one destination. Each filesystem call is one atomic step on a
  model of the directory (names to inodes) and the inode table (inodes to nodes), so that a hard
  link really shares its node. Every step may fail, and a publisher may be dropped at any time.
*/
module FilePublication {
  import opened Prelude

  type Content = seq<nat>

  /** Temporary names carry a fresh UUID, so each belongs to one publisher. */
  datatype Path = Destination | Temporary(owner: nat)

  datatype Node = Regular(content: Content) | Other

  datatype PublishError = InvalidWorkspace | NotRegular | DestinationConflict | Io

  datatype PublishOutcome = Published | Reused

  datatype Stage =
    | Idle
    | Writing
    | CheckingTemporary
    | Linking
    | CheckingDestination
    | HashingTemporary
    | HashingDestination(digest: Content)
    | Done(result: Result<PublishOutcome, PublishError>)
    | Dropped
    | Detached        // dropped, but its link call is already on its way
    | LinkedLate      // and that call went through

  datatype State = State(
    fs: map<Path, nat>,
    nodes: map<nat, Node>,
    next: nat,
    stages: map<nat, Stage>,
    made: map<nat, Content>,       // what each publisher had finished writing when it began
    winner: Option<nat>)           // who linked the destination
  {
    function Stage(p: nat): Stage { if p in stages then stages[p] else Idle }

    function At(p: nat, stage: Stage): State { this.(stages := stages[p := stage]) }

    /** The node behind a name. */
    function NodeAt(path: Path): Option<Node> {
      if path in fs && fs[path] in nodes then Some(nodes[fs[path]]) else None
    }
  }

  /** One system call of one publisher; `ok` is false when the call itself fails. */
  datatype Action =
    | Reserve(p: nat)
    | Write(p: nat, content: Content)
    | Begin(p: nat, workspaceOk: bool)
    | CheckTemporary(p: nat, ok: bool)
    | Link(p: nat, ok: bool)
    | CheckDestination(p: nat, ok: bool)
    | HashTemporary(p: nat, ok: bool)
    | HashDestination(p: nat, ok: bool)
    | RemoveTemporary(p: nat, ok: bool)
    | Drop(p: nat, ok: bool)
    | LateLink(p: nat, ok: bool)

  /** The publisher will make no further call by itself. */
  predicate Settled(stage: Stage) { stage.Done? || stage.Dropped? || stage.Detached? || stage.LinkedLate? }

  /** The effect of an action; an action that is not enabled changes nothing. */
  function Apply(s: State, a: Action): State
  {
    var p := a.p;
    var temporary := Temporary(p);
    match a
    case Reserve(_) =>
      if s.Stage(p) == Idle && temporary !in s.fs then
        s.(fs := s.fs[temporary := s.next], nodes := s.nodes[s.next := Regular([])],
           next := s.next + 1, stages := s.stages[p := Writing])
      else s
    case Write(_, content) =>
      if s.Stage(p) == Writing && temporary in s.fs then
        s.(nodes := s.nodes[s.fs[temporary] := Regular(content)])
      else s
    case Begin(_, workspaceOk) =>
      if s.Stage(p) == Writing && s.NodeAt(temporary).Some? && s.NodeAt(temporary).value.Regular? then
        s.(made := s.made[p := s.NodeAt(temporary).value.content],
           stages := s.stages[p := if workspaceOk then CheckingTemporary else Done(Err(InvalidWorkspace))])
      else s
    case CheckTemporary(_, ok) =>
      if s.Stage(p) == CheckingTemporary then
        if !ok || temporary !in s.fs then s.At(p, Done(Err(Io)))
        else if s.NodeAt(temporary) == Some(Other) then s.At(p, Done(Err(NotRegular)))
        else s.At(p, Linking)
      else s
    case Link(_, ok) =>
      if s.Stage(p) == Linking then
        if !ok || temporary !in s.fs then s.At(p, Done(Err(Io)))
        else if Destination in s.fs then s.At(p, CheckingDestination)
        else
          s.(fs := s.fs[Destination := s.fs[temporary]], winner := Some(p),
             stages := s.stages[p := Done(Ok(Published))])
      else s
    case CheckDestination(_, ok) =>
      if s.Stage(p) == CheckingDestination then
        if !ok || s.NodeAt(Destination).None? then s.At(p, Done(Err(Io)))
        else if s.NodeAt(Destination).value.Other? then s.At(p, Done(Err(NotRegular)))
        else s.At(p, HashingTemporary)
      else s
    case HashTemporary(_, ok) =>
      if s.Stage(p) == HashingTemporary then
        if !ok || s.NodeAt(temporary).None? || s.NodeAt(temporary).value.Other? then s.At(p, Done(Err(Io)))
        else s.At(p, HashingDestination(s.NodeAt(temporary).value.content))
      else s
    case HashDestination(_, ok) =>
      if s.Stage(p).HashingDestination? then
        if !ok || s.NodeAt(Destination).None? || s.NodeAt(Destination).value.Other? then s.At(p, Done(Err(Io)))
        else if s.NodeAt(Destination).value.content == s.Stage(p).digest then s.At(p, Done(Ok(Reused)))
        else s.At(p, Done(Err(DestinationConflict)))
      else s
    case RemoveTemporary(_, ok) =>
      if Settled(s.Stage(p)) && ok then s.(fs := s.fs - {temporary}) else s
    case Drop(_, ok) =>
      if s.Stage(p) != Idle && !Settled(s.Stage(p)) then
        s.(fs := if ok then s.fs - {temporary} else s.fs,
           stages := s.stages[p := if s.Stage(p) == Linking then Detached else Dropped])
      else s
    case LateLink(_, ok) =>
      if s.Stage(p) != Detached then s
      else if !ok || temporary !in s.fs || Destination in s.fs then s.At(p, Dropped)
      else
        s.(fs := s.fs[Destination := s.fs[temporary]], winner := Some(p), stages := s.stages[p := LinkedLate])
  }

  function Run(s: State, actions: seq<Action>): State
    decreases |actions|
  {
    if actions == [] then s else Run(Apply(s, actions[0]), actions[1..])
  }

  /** No publisher has started; the destination may already exist, as any kind of node. */
  ghost predicate Init(s: State) {
    && s.stages == map[] && s.made == map[] && s.winner == None
    && s.fs.Keys <= {Destination}
    && (forall path :: path in s.fs ==> s.fs[path] in s.nodes && s.fs[path] < s.next)
  }

  /** A publisher that has stopped writing but may still need its temporary. */
  predicate Busy(stage: Stage) {
    !stage.Idle? && !stage.Writing? && !Settled(stage)
  }

  /** This publisher's link created the destination. */
  predicate Linker(stage: Stage) { stage == Done(Ok(Published)) || stage.LinkedLate? }

  predicate Succeeded(stage: Stage) { stage.Done? && stage.result.Ok? }

  ghost predicate Inv(s: State) {
    && FsOk(s)
    && Separate(s)
    && forall p: nat :: PublisherOk(s, p)
  }

  ghost predicate FsOk(s: State) {
    forall path :: path in s.fs ==> s.fs[path] in s.nodes && s.fs[path] < s.next
  }

  /** What is known about one publisher from its stage. */
  ghost predicate PublisherOk(s: State, p: nat) {
    var stage := s.Stage(p);
    && (stage.Idle? ==> Temporary(p) !in s.fs)
    && (stage.Writing? ==> s.NodeAt(Temporary(p)).Some? && s.NodeAt(Temporary(p)).value.Regular?)
    && (Busy(stage) ==> p in s.made && s.NodeAt(Temporary(p)) == Some(Regular(s.made[p])))
    && (stage.HashingDestination? ==> stage.digest == s.made[p])
    && (stage.Done? ==> p in s.made)
    && (Succeeded(stage) ==> s.NodeAt(Destination) == Some(Regular(s.made[p])))
    && (stage.CheckingDestination? ==> s.NodeAt(Destination).Some?)
    && (stage.HashingTemporary? || stage.HashingDestination? ==>
          s.NodeAt(Destination).Some? && s.NodeAt(Destination).value.Regular?)
    && (stage == Done(Err(NotRegular)) ==> s.NodeAt(Destination) == Some(Other))
    && (stage == Done(Err(DestinationConflict)) ==>
          s.NodeAt(Destination).Some? && s.NodeAt(Destination).value.Regular?
          && s.NodeAt(Destination).value.content != s.made[p])
    && (stage.Detached? ==>
          p in s.made && (Temporary(p) in s.fs ==> s.NodeAt(Temporary(p)) == Some(Regular(s.made[p]))))
    && (stage.LinkedLate? ==> p in s.made && s.NodeAt(Destination) == Some(Regular(s.made[p])))
    && (Linker(stage) <==> s.winner == Some(p))
  }

  /** Two names share a node only when a finished writer linked the destination. */
  ghost predicate Separate(s: State) {
    && (forall p: nat, q: nat :: p != q && Temporary(p) in s.fs && Temporary(q) in s.fs ==>
          s.fs[Temporary(p)] != s.fs[Temporary(q)])
    && (forall p: nat :: s.Stage(p).Writing? && Temporary(p) in s.fs && Destination in s.fs ==>
          s.fs[Temporary(p)] != s.fs[Destination])
  }

  lemma InitIsInv(s: State)
    requires Init(s)
    ensures Inv(s)
  {}

  /** A publisher moves to a stage whose obligations already hold. */
  lemma MoveKeeps(s: State, p: nat, stage: Stage)
    requires Inv(s) && Busy(s.Stage(p)) && PublisherOk(s, p)
    requires Busy(stage) || stage.Done?
    requires stage.HashingDestination? ==> stage.digest == s.made[p]
    requires stage != Done(Ok(Published))
    requires Succeeded(stage) ==> s.NodeAt(Destination) == Some(Regular(s.made[p]))
    requires stage.CheckingDestination? ==> s.NodeAt(Destination).Some?
    requires stage.HashingTemporary? || stage.HashingDestination? ==>
               s.NodeAt(Destination).Some? && s.NodeAt(Destination).value.Regular?
    requires stage == Done(Err(NotRegular)) ==> s.NodeAt(Destination) == Some(Other)
    requires stage == Done(Err(DestinationConflict)) ==>
               s.NodeAt(Destination).Some? && s.NodeAt(Destination).value.Regular?
               && s.NodeAt(Destination).value.content != s.made[p]
    ensures Inv(s.At(p, stage))
  {
    var t := s.At(p, stage);
    forall q: nat ensures PublisherOk(t, q) { OthersKeep(s, t, p, q); }
  }

  /** Publishers other than the one acting are unaffected when the destination, their temporaries
      and their records are. */
  lemma OthersKeep(s: State, t: State, p: nat, q: nat)
    requires PublisherOk(s, q)
    requires q != p ==> t.Stage(q) == s.Stage(q) && (q in t.made <==> q in s.made)
    requires q != p ==> q in s.made ==> t.made[q] == s.made[q]
    requires q != p ==> t.NodeAt(Temporary(q)) == s.NodeAt(Temporary(q))
    requires q != p ==> (Temporary(q) in t.fs <==> Temporary(q) in s.fs)
    requires q != p ==> (t.winner == Some(q) <==> s.winner == Some(q))
    requires t.NodeAt(Destination) == s.NodeAt(Destination) || s.NodeAt(Destination).None?
    requires q == p ==> PublisherOk(t, q)
    ensures PublisherOk(t, q)
  {}

  lemma ReserveKeeps(s: State, p: nat)
    requires Inv(s)
    ensures Kept(s, Reserve(p))
  {
    var t := Apply(s, Reserve(p));
    if t != s {
      assert PublisherOk(s, p);
      forall q: nat ensures PublisherOk(t, q) { assert PublisherOk(s, q); OthersKeep(s, t, p, q); }
    }
  }

  lemma WriteKeeps(s: State, p: nat, content: Content)
    requires Inv(s)
    ensures Kept(s, Write(p, content))
  {
    var t := Apply(s, Write(p, content));
    if t != s {
      assert PublisherOk(s, p);
      forall q: nat ensures PublisherOk(t, q) { assert PublisherOk(s, q); OthersKeep(s, t, p, q); }
    }
  }

  lemma BeginKeeps(s: State, p: nat, workspaceOk: bool)
    requires Inv(s)
    ensures Kept(s, Begin(p, workspaceOk))
  {
    var t := Apply(s, Begin(p, workspaceOk));
    if t != s {
      assert PublisherOk(s, p);
      forall q: nat ensures PublisherOk(t, q) { assert PublisherOk(s, q); OthersKeep(s, t, p, q); }
    }
  }

  lemma LinkKeeps(s: State, p: nat, a: Action)
    requires Inv(s) && Destination !in s.fs
    requires (a == Link(p, true) && s.Stage(p) == Linking)
             || (a == LateLink(p, true) && s.Stage(p) == Detached && Temporary(p) in s.fs)
    ensures Kept(s, a)
  {
    var t := Apply(s, a);
    assert PublisherOk(s, p);
    assert s.winner.Some? ==> PublisherOk(s, s.winner.value);
    forall q: nat ensures PublisherOk(t, q) { assert PublisherOk(s, q); OthersKeep(s, t, p, q); }
  }

  /** A link call that was on its way fails, and nothing remains to be done. */
  lemma LateFailureKeeps(s: State, p: nat)
    requires Inv(s) && s.Stage(p) == Detached
    ensures Inv(s.At(p, Dropped))
  {
    var t := s.At(p, Dropped);
    assert PublisherOk(s, p);
    forall q: nat ensures PublisherOk(t, q) { assert PublisherOk(s, q); OthersKeep(s, t, p, q); }
  }

  /** A temporary name goes away; the destination keeps its own link to the node. */
  lemma RemoveKeeps(s: State, a: Action)
    requires Inv(s) && (a.RemoveTemporary? || a.Drop?)
    ensures Kept(s, a)
  {
    var t := Apply(s, a);
    assert PublisherOk(s, a.p);
    forall q: nat ensures PublisherOk(t, q) { assert PublisherOk(s, q); OthersKeep(s, t, a.p, q); }
  }

  ghost predicate Kept(s: State, a: Action) {
    && Inv(Apply(s, a))
    && (Destination in s.fs ==>
          && Apply(s, a).NodeAt(Destination) == s.NodeAt(Destination)
          && Apply(s, a).winner == s.winner)
  }

  /** Every single step keeps the invariant and leaves an existing destination alone. */
  lemma StepKeeps(s: State, a: Action)
    requires Inv(s)
    ensures Kept(s, a)
  {
    assert PublisherOk(s, a.p);
    match a
    case Reserve(p) => ReserveKeeps(s, p);
    case Write(p, content) => WriteKeeps(s, p, content);
    case Begin(p, workspaceOk) => BeginKeeps(s, p, workspaceOk);
    case RemoveTemporary(_, _) => RemoveKeeps(s, a);
    case Drop(_, _) => RemoveKeeps(s, a);
    case Link(p, ok) =>
      if s.Stage(p) == Linking && ok && Destination !in s.fs {
        LinkKeeps(s, p, a);
      } else if s.Stage(p) == Linking {
        MoveKeeps(s, p, Apply(s, a).Stage(p));
      }
    case LateLink(p, ok) =>
      if s.Stage(p) == Detached {
        if ok && Temporary(p) in s.fs && Destination !in s.fs {
          LinkKeeps(s, p, a);
        } else {
          LateFailureKeeps(s, p);
        }
      }
    case _ =>
      if Apply(s, a) != s { MoveKeeps(s, a.p, Apply(s, a).Stage(a.p)); }
  }

  // ---------------------------------------------------------------- theorems over whole runs

  lemma {:induction false} RunKeeps(s: State, actions: seq<Action>)
    requires Inv(s)
    ensures Inv(Run(s, actions))
    ensures Destination in s.fs && s.NodeAt(Destination).Some? ==>
              && Destination in Run(s, actions).fs
              && Run(s, actions).NodeAt(Destination) == s.NodeAt(Destination)
              && Run(s, actions).winner == s.winner
    decreases |actions|
  {
    if actions != [] {
      StepKeeps(s, actions[0]);
      RunKeeps(Apply(s, actions[0]), actions[1..]);
    }
  }

  lemma {:induction false} RunConcat(s: State, a: seq<Action>, b: seq<Action>)
    ensures Run(s, a + b) == Run(Run(s, a), b)
    decreases |a|
  {
    if a == [] {
      assert a + b == b;
    } else {
      assert (a + b)[0] == a[0] && (a + b)[1..] == a[1..] + b;
      RunConcat(Apply(s, a[0]), a[1..], b);
    }
  }

  /** Under every interleaving: once the destination exists its node never changes, and whoever
      linked it stays the only publisher that may report having published. */
  lemma DestinationIsFixed(init: State, earlier: seq<Action>, later: seq<Action>)
    requires Init(init)
    ensures Destination in Run(init, earlier).fs ==>
              && Run(init, earlier).NodeAt(Destination).Some?
              && Run(init, earlier + later).NodeAt(Destination) == Run(init, earlier).NodeAt(Destination)
              && Run(init, earlier + later).winner == Run(init, earlier).winner
  {
    InitIsInv(init);
    RunKeeps(init, earlier);
    RunKeeps(Run(init, earlier), later);
    RunConcat(init, earlier, later);
  }

  /** Whatever happens afterwards, including removal of its own temporary, a publisher that
      returned Ok had exactly the bytes that the destination holds; one that returned a conflict
      had different bytes; and at most one publisher created the destination. */
  lemma ResultsAgreeWithDestination(init: State, actions: seq<Action>, p: nat)
    requires Init(init)
    ensures var s := Run(init, actions);
            && (Succeeded(s.Stage(p)) ==> p in s.made && s.NodeAt(Destination) == Some(Regular(s.made[p])))
            && (s.Stage(p) == Done(Err(DestinationConflict)) ==>
                  p in s.made && s.NodeAt(Destination).Some? && s.NodeAt(Destination) != Some(Regular(s.made[p])))
            && (s.Stage(p) == Done(Err(NotRegular)) ==> s.NodeAt(Destination) == Some(Other))
            && (forall q: nat :: Linker(s.Stage(p)) && Linker(s.Stage(q)) ==> p == q)
            && (Destination in init.fs ==> !Linker(s.Stage(p)))
  {
    InitIsInv(init);
    RunKeeps(init, actions);
    var s := Run(init, actions);
    assert PublisherOk(s, p);
    forall q: nat | Linker(s.Stage(p)) && Linker(s.Stage(q)) ensures p == q {
      assert PublisherOk(s, q);
    }
  }

  /** The destination holds what its first publisher made, or what was there to begin with. */
  lemma DestinationOrigin(init: State, actions: seq<Action>)
    requires Init(init)
    ensures var s := Run(init, actions);
            Destination in s.fs && Destination !in init.fs ==>
              exists p: nat :: s.winner == Some(p) && p in s.made && s.NodeAt(Destination) == Some(Regular(s.made[p]))
  {
    InitIsInv(init);
    Origin(init, actions);
    RunKeeps(init, actions);
    var s := Run(init, actions);
    if s.winner.Some? { assert PublisherOk(s, s.winner.value); }
  }

  lemma {:induction false} Origin(s: State, actions: seq<Action>)
    requires Inv(s)
    ensures Destination in Run(s, actions).fs && Destination !in s.fs ==> Run(s, actions).winner.Some?
    decreases |actions|
  {
    if actions != [] {
      StepKeeps(s, actions[0]);
      var t := Apply(s, actions[0]);
      if Destination in t.fs && Destination !in s.fs { RunKeeps(t, actions[1..]); }
      else if Destination !in s.fs { Origin(t, actions[1..]); }
    }
  }

  // ---------------------------------------------------------------- the code

  /** Calls of other publishers. */
  ghost predicate Foreign(actions: seq<Action>, p: nat) {
    forall i :: 0 <= i < |actions| ==> actions[i].p != p
  }

  lemma OtherKeepsStage(s: State, a: Action, p: nat)
    requires a.p != p
    ensures Apply(s, a).Stage(p) == s.Stage(p)
    ensures Temporary(p) in Apply(s, a).fs <==> Temporary(p) in s.fs
  {
    assert Temporary(p) != Temporary(a.p);
  }

  lemma {:induction false} OthersKeepStage(s: State, actions: seq<Action>, p: nat)
    requires Foreign(actions, p)
    ensures Run(s, actions).Stage(p) == s.Stage(p)
    ensures Temporary(p) in Run(s, actions).fs <==> Temporary(p) in s.fs
    decreases |actions|
  {
    if actions != [] {
      OtherKeepsStage(s, actions[0], p);
      OthersKeepStage(Apply(s, actions[0]), actions[1..], p);
    }
  }

  lemma RunSnoc(s: State, actions: seq<Action>, a: Action)
    ensures Run(s, actions + [a]) == Apply(Run(s, actions), a)
  {
    RunConcat(s, actions, [a]);
    var t := Run(s, actions);
    assert [a][1..] == [];
    assert Run(t, [a]) == Run(Apply(t, a), []);
  }

  /** What the others do before each call of the code, and whether the call itself goes through. */
  datatype Surroundings = Surroundings(workspaceOk: bool, others: nat -> seq<Action>, ok: nat -> bool)

  /** One of the calls from the `first` to the `last` fails. */
  ghost predicate CallFails(around: Surroundings, first: nat, last: nat) {
    exists k :: first <= k <= last && !around.ok(k)
  }

  /** What a publication that is not cut short by a failing call must report, from the destination alone. */
  ghost predicate IsVerdict(s: State, p: nat, r: Result<PublishOutcome, PublishError>) {
    && p in s.made && s.NodeAt(Destination).Some?
    && r == (if s.NodeAt(Destination).value.Other? then Err(NotRegular)
             else if s.NodeAt(Destination).value.content != s.made[p] then Err(DestinationConflict)
             else if s.winner == Some(p) then Ok(Published)
             else Ok(Reused))
  }

  /** The calls on an existing destination that this result takes: none failed. */
  ghost predicate Needed(around: Surroundings, r: Result<PublishOutcome, PublishError>) {
    && (r != Ok(Published) ==> around.ok(3))
    && (r == Ok(Reused) || r == Err(DestinationConflict) ==> around.ok(4) && around.ok(5))
  }

  lemma ResultIsVerdict(s: State, p: nat, r: Result<PublishOutcome, PublishError>)
    requires Inv(s) && s.Stage(p) == Done(r) && r != Err(Io) && r != Err(InvalidWorkspace)
    ensures IsVerdict(s, p, r)
  {
    assert PublisherOk(s, p);
    match r
    case Ok(outcome) => assert outcome.Published? || outcome.Reused?;
    case Err(error) => assert error.NotRegular? || error.DestinationConflict?;
  }

  datatype LinkResult = Linked | AlreadyExists | LinkFailed

  /** The shared workspace, as one publisher's calls see it. */
  class Workspace {
    var state: State
    ghost var trace: seq<Action>

    constructor (initial: State)
      requires Init(initial)
      ensures state == initial && trace == [] && Inv(state)
    {
      state, trace := initial, [];
      InitIsInv(initial);
    }

    /** The others act, then this publisher makes one call. */
    method Call(others: seq<Action>, a: Action)
      requires Inv(state) && Foreign(others, a.p)
      modifies this
      ensures Inv(state) && Run(old(state), others).Stage(a.p) == old(state).Stage(a.p)
      ensures Inv(Run(old(state), others)) && state == Apply(Run(old(state), others), a)
      ensures trace == old(trace) + (others + [a]) && state == Run(old(state), others + [a])
    {
      OthersKeepStage(state, others, a.p);
      RunSnoc(state, others, a);
      RunKeeps(state, others);
      StepKeeps(Run(state, others), a);
      trace := trace + (others + [a]);
      state := Apply(Run(state, others), a);
    }

    /** The publisher `p` is at `stage`, and the workspace is where the calls since `start` lead. */
    ghost predicate At(p: nat, stage: Stage, start: State, past: seq<Action>)
      reads this
    {
      && Inv(state) && state.Stage(p) == stage
      && past <= trace && state == Run(start, trace[|past|..])
    }

    lemma CallExtends(start: State, past: seq<Action>, before: seq<Action>, more: seq<Action>)
      requires past <= before && trace == before + more && state == Run(Run(start, before[|past|..]), more)
      ensures past <= trace && state == Run(start, trace[|past|..])
    {
      assert trace[|past|..] == before[|past|..] + more;
      RunConcat(start, before[|past|..], more);
    }

    /** require_regular on the temporary. */
    method RequireTemporary(p: nat, others: seq<Action>, ok: bool, ghost start: State, ghost past: seq<Action>)
      returns (r: Result<(), PublishError>)
      requires At(p, CheckingTemporary, start, past) && Foreign(others, p)
      modifies this
      ensures At(p, if r.Ok? then Linking else Done(Err(r.error)), start, past)
      ensures (r.Err? <==> !ok) && (r.Err? ==> r.error == Io)
    {
      ghost var before := trace;
      Call(others, CheckTemporary(p, ok));
      assert PublisherOk(Run(old(state), others), p);
      CallExtends(start, past, before, others + [CheckTemporary(p, ok)]);
      r := if !ok || Temporary(p) !in state.fs then Err(Io)
           else if state.NodeAt(Temporary(p)) == Some(Other) then Err(NotRegular)
           else Ok(());
    }

    /** The hard link, which never replaces its destination. */
    method HardLink(p: nat, others: seq<Action>, ok: bool, ghost start: State, ghost past: seq<Action>)
      returns (r: LinkResult)
      requires At(p, Linking, start, past) && Foreign(others, p)
      modifies this
      ensures At(p, match r case Linked => Done(Ok(Published)) case AlreadyExists => CheckingDestination
                    case LinkFailed => Done(Err(Io)), start, past)
      ensures r.LinkFailed? <==> !ok
      ensures r.AlreadyExists? <==> ok && Destination in Run(old(state), others).fs
      ensures r.Linked? ==> Destination in state.fs && state.NodeAt(Destination) == state.NodeAt(Temporary(p))
      ensures r.AlreadyExists? ==> state.NodeAt(Destination) == Run(old(state), others).NodeAt(Destination)
    {
      ghost var before := trace;
      var existed := Destination in Run(state, others).fs;
      var present := Temporary(p) in Run(state, others).fs;
      Call(others, Link(p, ok));
      assert PublisherOk(Run(old(state), others), p);
      CallExtends(start, past, before, others + [Link(p, ok)]);
      r := if !ok || !present then LinkFailed else if existed then AlreadyExists else Linked;
    }

    /** require_regular on the destination. */
    method RequireDestination(p: nat, others: seq<Action>, ok: bool, ghost start: State, ghost past: seq<Action>)
      returns (r: Result<(), PublishError>)
      requires At(p, CheckingDestination, start, past) && Foreign(others, p)
      modifies this
      ensures At(p, if r.Ok? then HashingTemporary else Done(Err(r.error)), start, past)
      ensures r == Err(Io) <==> !ok
      ensures r.Err? ==> r.error in {Io, NotRegular}
    {
      ghost var before := trace;
      Call(others, CheckDestination(p, ok));
      assert PublisherOk(Run(old(state), others), p);
      CallExtends(start, past, before, others + [CheckDestination(p, ok)]);
      r := if !ok || state.NodeAt(Destination).None? then Err(Io)
           else if state.NodeAt(Destination).value.Other? then Err(NotRegular)
           else Ok(());
    }

    /** sha256_file on the temporary; the digest stands for the content. */
    method DigestTemporary(p: nat, others: seq<Action>, ok: bool, ghost start: State, ghost past: seq<Action>)
      returns (r: Result<Content, PublishError>)
      requires At(p, HashingTemporary, start, past) && Foreign(others, p)
      modifies this
      ensures At(p, if r.Ok? then HashingDestination(r.value) else Done(Err(r.error)), start, past)
      ensures r.Err? <==> !ok
      ensures r.Err? ==> r.error == Io
    {
      ghost var before := trace;
      Call(others, HashTemporary(p, ok));
      assert PublisherOk(Run(old(state), others), p);
      CallExtends(start, past, before, others + [HashTemporary(p, ok)]);
      var node := state.NodeAt(Temporary(p));
      r := if !ok || node.None? || node.value.Other? then Err(Io) else Ok(node.value.content);
    }

    /** sha256_file on the destination, and the comparison. */
    method CompareDestination(
      p: nat, digest: Content, others: seq<Action>, ok: bool, ghost start: State, ghost past: seq<Action>)
      returns (r: Result<PublishOutcome, PublishError>)
      requires At(p, HashingDestination(digest), start, past) && Foreign(others, p)
      modifies this
      ensures At(p, Done(r), start, past)
      ensures r == Err(Io) <==> !ok
      ensures r == Err(Io) || r == Ok(Reused) || r == Err(DestinationConflict)
    {
      ghost var before := trace;
      Call(others, HashDestination(p, ok));
      assert PublisherOk(Run(old(state), others), p);
      CallExtends(start, past, before, others + [HashDestination(p, ok)]);
      var node := state.NodeAt(Destination);
      if !ok || node.None? || node.value.Other? { return Err(Io); }
      r := if node.value.content == digest then Ok(Reused) else Err(DestinationConflict);
    }

    /** compare_or_conflict. */
    method CompareOrConflict(p: nat, around: Surroundings, ghost start: State, ghost past: seq<Action>)
      returns (r: Result<PublishOutcome, PublishError>)
      requires At(p, CheckingDestination, start, past) && forall k :: Foreign(around.others(k), p)
      modifies this
      ensures At(p, Done(r), start, past)
      ensures if r == Err(Io) then CallFails(around, 3, 5) else IsVerdict(state, p, r) && Needed(around, r)
      ensures r != Ok(Published)
    {
      var regular := RequireDestination(p, around.others(3), around.ok(3), start, past);
      if regular.Err? {
        r := Err(regular.error);
        if r != Err(Io) { ResultIsVerdict(state, p, r); }
        return;
      }
      var digest := DigestTemporary(p, around.others(4), around.ok(4), start, past);
      if digest.Err? { return Err(digest.error); }
      r := CompareDestination(p, digest.value, around.others(5), around.ok(5), start, past);
      if r != Err(Io) { ResultIsVerdict(state, p, r); }
    }

    /**
      publish_or_reuse, whatever the others do between its calls. It is a run of the machine above that
      ends with the returned result: on Ok the destination holds the publisher's own bytes, and on a
      conflict it holds other bytes.
    */
    method PublishOrReuse(p: nat, around: Surroundings) returns (r: Result<PublishOutcome, PublishError>)
      requires Inv(state) && state.Stage(p) == Writing && forall k :: Foreign(around.others(k), p)
      modifies this
      ensures Inv(state) && old(trace) <= trace && state == Run(old(state), trace[|old(trace)|..])
      ensures state.Stage(p) == Done(r) && p in state.made
      ensures r.Ok? ==> state.NodeAt(Destination) == Some(Regular(state.made[p]))
      ensures r == Err(DestinationConflict) ==>
                state.NodeAt(Destination).Some? && state.NodeAt(Destination) != Some(Regular(state.made[p]))
      // a failed call is reported as such, and otherwise the destination alone decides what is reported
      ensures r == Err(InvalidWorkspace) <==> !around.workspaceOk
      ensures r == Err(Io) ==> CallFails(around, 1, 5)
      ensures r != Err(Io) && around.workspaceOk ==>
                IsVerdict(state, p, r) && around.ok(1) && around.ok(2) && Needed(around, r)
    {
      ghost var start, past := state, trace;
      r := PublishFrom(p, around, start, past);
      assert PublisherOk(state, p);
      if r != Err(Io) && around.workspaceOk { ResultIsVerdict(state, p, r); }
    }

    method PublishFrom(p: nat, around: Surroundings, ghost start: State, ghost past: seq<Action>)
      returns (r: Result<PublishOutcome, PublishError>)
      requires At(p, Writing, start, past) && forall k :: Foreign(around.others(k), p)
      modifies this
      ensures At(p, Done(r), start, past)
      ensures r == Err(InvalidWorkspace) <==> !around.workspaceOk
      ensures r == Err(Io) ==> CallFails(around, 1, 5)
      ensures r != Err(Io) && around.workspaceOk ==> around.ok(1) && around.ok(2) && Needed(around, r)
    {
      ghost var before := trace;
      Call(around.others(0), Begin(p, around.workspaceOk));
      CallExtends(start, past, before, around.others(0) + [Begin(p, around.workspaceOk)]);
      assert PublisherOk(Run(old(state), around.others(0)), p);
      if !around.workspaceOk { return Err(InvalidWorkspace); }
      var regular := RequireTemporary(p, around.others(1), around.ok(1), start, past);
      if regular.Err? { return Err(regular.error); }
      var link := HardLink(p, around.others(2), around.ok(2), start, past);
      match link {
        case Linked => r := Ok(Published);
        case LinkFailed => r := Err(Io);
        case AlreadyExists => r := CompareOrConflict(p, around, start, past);
      }
    }
  }

  /** The guard of one temporary: as long as the file may exist, the guard holds its name. */
  class TempArtifact {
    const workspace: Workspace
    const owner: nat
    var path: Option<Path>

    constructor (workspace: Workspace, owner: nat)
      requires Inv(workspace.state)
      ensures this.workspace == workspace && this.owner == owner && Owns()
    {
      this.workspace, this.owner, path := workspace, owner, Some(Temporary(owner));
    }

    ghost predicate Owns()
      reads this, workspace
    {
      && Inv(workspace.state)
      && (path.Some? ==> path.value == Temporary(owner))
      && (Temporary(owner) in workspace.state.fs ==> path.Some?)
    }

    /** A removal, early or in the destructor, leaves an existing destination as it was. */
    method Unlink(others: seq<Action>, a: Action)
      requires Inv(workspace.state) && Foreign(others, owner) && (a.RemoveTemporary? || a.Drop?) && a.p == owner
      modifies workspace
      ensures Inv(workspace.state)
      ensures a.ok && (a.RemoveTemporary? <==> Settled(old(workspace.state).Stage(owner))) ==>
                Temporary(owner) !in workspace.state.fs
      ensures Temporary(owner) in workspace.state.fs ==> Temporary(owner) in old(workspace.state).fs
      ensures old(workspace.state).NodeAt(Destination).Some? ==>
                workspace.state.NodeAt(Destination) == old(workspace.state).NodeAt(Destination)
    {
      ghost var before := workspace.state;
      OthersKeepStage(before, others, owner);
      RunKeeps(before, others);
      RunKeeps(before, others + [a]);
      assert PublisherOk(Run(before, others), owner);
      workspace.Call(others, a);
    }

    /** remove: the name is given up only once the call removed the file; one that was not there keeps it. */
    method Remove(others: seq<Action>, ok: bool)
      requires Owns() && Foreign(others, owner) && Settled(workspace.state.Stage(owner))
      modifies this, workspace
      ensures Owns()
      ensures old(path).Some? ==> (path.None? <==> ok && Temporary(owner) in old(workspace.state).fs)
      ensures ok ==> Temporary(owner) !in workspace.state.fs
      ensures old(workspace.state).NodeAt(Destination).Some? ==>
                workspace.state.NodeAt(Destination) == old(workspace.state).NodeAt(Destination)
    {
      if path.None? { return; }
      var present := Temporary(owner) in Run(workspace.state, others).fs;
      OthersKeepStage(workspace.state, others, owner);
      Unlink(others, RemoveTemporary(owner, ok));
      if ok && present { path := None; }
    }

    /** Drop: the guard tries once more, whatever the publisher was doing. */
    method Dispose(others: seq<Action>, ok: bool)
      requires Owns() && Foreign(others, owner)
      modifies this, workspace
      ensures path.None? && Inv(workspace.state)
      ensures old(path).None? || ok ==> Temporary(owner) !in workspace.state.fs
      ensures old(workspace.state).NodeAt(Destination).Some? ==>
                workspace.state.NodeAt(Destination) == old(workspace.state).NodeAt(Destination)
    {
      if path.None? { return; }
      path := None;
      if Settled(workspace.state.Stage(owner)) {
        Unlink(others, RemoveTemporary(owner, ok));
      } else {
        Unlink(others, Drop(owner, ok));
      }
    }
  }
}
