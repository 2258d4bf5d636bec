/**
  The fenced Telegram send (apps/worker/src/publication.rs) over the post transitions of
  crates/persistence/src/publisher.rs.

  One post, any number of handler invocations on any number of workers. Each repository transaction
  and each end of a Telegram request is one atomic step. Any transaction may be refused because the
  job lease is gone, or may report a database error with or without having committed. A handler may
  crash anywhere; a request it left behind may still take effect later.

  Telegram is an oracle with one contract: an error that the handler does not treat as ambiguous
  means that the request did not take effect and never will.
*/
module FencedSend {
  import opened Prelude

  datatype PostState = Draft | Queued | Sending | Published | Unknown | Failed | Cancelled

  predicate QueueMutable(state: PostState) { state in {Draft, Queued, Failed} }

  predicate LiveOrFenced(state: PostState) { state in {Sending, Published, Unknown} }

  datatype Post = Post(
    state: PostState, generation: nat, token: Option<nat>, revision: nat, message: Option<int>)
  {
    function To(next: PostState): Post { this.(state := next, token := None, revision := revision + 1) }
  }

  datatype Lease = Lease(generation: nat, token: nat)

  /** What the error predicates of TelegramPublicationApi say about one transport error. */
  datatype Flags = Flags(copyUnavailable: bool, noEffect: bool, caption: bool, ambiguous: bool)

  datatype Settlement = Retry | Fail(target: PostState)

  /** settle_publication_transport_error: the order of the tests matters. */
  function Settle(flags: Flags): Settlement {
    if flags.noEffect then Retry
    else if flags.caption then Fail(Failed)
    else if flags.ambiguous then Fail(Unknown)
    else Fail(Failed)
  }

  datatype HandlerResult = Done | Retryable | Permanent

  /** Where a handler invocation is in publish_post. */
  datatype Stage =
    | Idle
    | Reconciling
    | Claimed(lease: Lease)
    | Ready(lease: Lease, hasFile: bool)
    | Copying(lease: Lease, hasFile: bool, request: nat)
    | Fallback(lease: Lease)
    | SendingFile(lease: Lease, request: nat)
    | Completing(lease: Lease, message: int)
    | Settling(lease: Lease, settlement: Settlement)
    | Returned(result: HandlerResult)
    | Crashed

  datatype State = State(
    post: Post,
    nextToken: nat,
    nextRequest: nat,
    outstanding: set<nat>,          // requests that may still take effect
    landed: map<nat, int>,          // requests that took effect, with their message
    handlers: map<nat, Stage>)
  {
    function Stage(h: nat): Stage { if h in handlers then handlers[h] else Idle }

    function At(h: nat, stage: Stage): State { this.(handlers := handlers[h := stage]) }

    predicate Holds(lease: Lease) {
      post.state == Sending && post.generation == lease.generation && post.token == Some(lease.token)
    }
  }

  /** How a repository call is answered. */
  datatype Reply = Answered | LeaseLost | DatabaseError(committed: bool)

  datatype Receipt = Found(hasFile: bool) | Missing | LookupFailed | Invalid

  datatype Answer = Message | TransportError(flags: Flags)

  datatype Action =
    | Claim(h: nat, expectedRevision: nat, dependenciesReady: bool, reply: Reply)
    | Reconcile(h: nat, reply: Reply)
    | LookUpReceipt(h: nat, receipt: Receipt)
    | StartCopy(h: nat)
    | CopyReturns(h: nat, answer: Answer)
    | StartSend(h: nat)
    | SendReturns(h: nat, answer: Answer)
    | Complete(h: nat, reply: Reply)
    | SettleFailure(h: nat, reply: Reply, attemptsExhausted: bool)
    | Crash(h: nat)
    | Land(request: nat, message: int)            // Telegram carries out a pending request
    | Schedule | Edit | Cancel                     // administrator
    | SettleTerminal(expectedRevision: nat)        // queue settlement and stale recovery

  /** claim_publish commits only for a queued post at the expected revision. */
  predicate Claimable(s: State, expectedRevision: nat, dependenciesReady: bool) {
    s.post.state == Queued && s.post.revision == expectedRevision && dependenciesReady
  }

  function ClaimedPost(s: State): Post {
    s.post.(state := Sending, generation := s.post.generation + 1, token := Some(s.nextToken),
            revision := s.post.revision + 1)
  }

  function ApplyClaim(s: State, h: nat, expectedRevision: nat, dependenciesReady: bool, reply: Reply): State {
    if s.Stage(h) != Idle then s
    else if reply == LeaseLost then s.At(h, Returned(Done))
    else if reply.DatabaseError? then
      var t := s.At(h, Returned(Retryable));
      if reply.committed && Claimable(s, expectedRevision, dependenciesReady)
      then t.(post := ClaimedPost(s), nextToken := s.nextToken + 1) else t
    else if s.post.state == Sending then s.At(h, Reconciling)
    else if s.post.state != Queued || s.post.revision != expectedRevision then s.At(h, Returned(Done))
    else if !dependenciesReady then s.At(h, Returned(Retryable))
    else
      s.At(h, Claimed(Lease(s.post.generation + 1, s.nextToken))).(
        post := ClaimedPost(s), nextToken := s.nextToken + 1)
  }

  /** reconcile_interrupted_publish fences a post left in `sending`; it never requeues it. */
  function ApplyReconcile(s: State, h: nat, reply: Reply): State {
    if s.Stage(h) != Reconciling then s
    else
      var t := s.At(h, Returned(if reply.DatabaseError? then Retryable else Done));
      if s.post.state == Sending && (reply == Answered || reply == DatabaseError(true))
      then t.(post := s.post.To(Unknown)) else t
  }

  function ApplyLookUp(s: State, h: nat, receipt: Receipt): State {
    if !s.Stage(h).Claimed? then s
    else
      var lease := s.Stage(h).lease;
      match receipt
      case Found(hasFile) => s.At(h, Ready(lease, hasFile))
      case Missing => s.At(h, Settling(lease, Fail(Failed)))
      case LookupFailed => s.At(h, Settling(lease, Retry))
      case Invalid => s.At(h, Settling(lease, Fail(Failed)))
  }

  function ApplyStart(s: State, h: nat, stage: Stage): State {
    s.At(h, stage).(outstanding := s.outstanding + {s.nextRequest}, nextRequest := s.nextRequest + 1)
  }

  function ApplyCopyReturns(s: State, h: nat, answer: Answer): State {
    if !s.Stage(h).Copying? then s
    else
      var Copying(lease, hasFile, request) := s.Stage(h);
      match answer
      case Message =>
        if request in s.landed then s.At(h, Completing(lease, s.landed[request])) else s
      case TransportError(flags) =>
        if flags.copyUnavailable then
          if request !in s.outstanding then s
          else
            s.At(h, if hasFile then Fallback(lease) else Settling(lease, Fail(Failed))).(
              outstanding := s.outstanding - {request})
        else ApplyTransportError(s, h, lease, request, flags)
  }

  /** An error the handler takes for definite is reported only for a request that had no effect. */
  function ApplyTransportError(s: State, h: nat, lease: Lease, request: nat, flags: Flags): State {
    if Settle(flags) == Fail(Unknown) then s.At(h, Settling(lease, Fail(Unknown)))
    else if request !in s.outstanding then s
    else s.At(h, Settling(lease, Settle(flags))).(outstanding := s.outstanding - {request})
  }

  function ApplySendReturns(s: State, h: nat, answer: Answer): State {
    if !s.Stage(h).SendingFile? then s
    else
      var SendingFile(lease, request) := s.Stage(h);
      match answer
      case Message =>
        if request in s.landed then s.At(h, Completing(lease, s.landed[request])) else s
      case TransportError(flags) => ApplyTransportError(s, h, lease, request, flags)
  }

  /** complete_publish; any error but a lost lease or a conflict is fenced as unknown. */
  function ApplyComplete(s: State, h: nat, reply: Reply): State {
    if !s.Stage(h).Completing? then s
    else
      var Completing(lease, message) := s.Stage(h);
      if message <= 0 then s.At(h, Settling(lease, Fail(Unknown)))
      else if reply == LeaseLost then s.At(h, Returned(Done))
      else
        var t := s.At(h, if reply.DatabaseError? then Settling(lease, Fail(Unknown)) else Returned(Done));
        if s.Holds(lease) && reply != DatabaseError(false)
        then t.(post := s.post.To(Published).(message := Some(message))) else t
  }

  /** retry_publish and fail_publish. */
  function ApplySettle(s: State, h: nat, reply: Reply, attemptsExhausted: bool): State {
    if !s.Stage(h).Settling? then s
    else
      var Settling(lease, settlement) := s.Stage(h);
      var next :=
        if settlement.Retry? then if attemptsExhausted then Failed else Queued
        else settlement.target;
      var result :=
        match reply
        case LeaseLost => Done
        case DatabaseError(_) => Permanent
        case Answered =>
          if !s.Holds(lease) then Done
          else if settlement.Retry? && !attemptsExhausted then Retryable
          else Permanent;
      var t := s.At(h, Returned(result));
      if s.Holds(lease) && (reply == Answered || reply == DatabaseError(true))
      then t.(post := s.post.To(next)) else t
  }

  /** The effect of an action; an action that is not enabled changes nothing. */
  function Apply(s: State, a: Action): State {
    match a
    case Claim(h, expectedRevision, dependenciesReady, reply) =>
      ApplyClaim(s, h, expectedRevision, dependenciesReady, reply)
    case Reconcile(h, reply) => ApplyReconcile(s, h, reply)
    case LookUpReceipt(h, receipt) => ApplyLookUp(s, h, receipt)
    case StartCopy(h) =>
      if s.Stage(h).Ready? then ApplyStart(s, h, Copying(s.Stage(h).lease, s.Stage(h).hasFile, s.nextRequest)) else s
    case CopyReturns(h, answer) => ApplyCopyReturns(s, h, answer)
    case StartSend(h) =>
      if s.Stage(h).Fallback? then ApplyStart(s, h, SendingFile(s.Stage(h).lease, s.nextRequest)) else s
    case SendReturns(h, answer) => ApplySendReturns(s, h, answer)
    case Complete(h, reply) => ApplyComplete(s, h, reply)
    case SettleFailure(h, reply, attemptsExhausted) => ApplySettle(s, h, reply, attemptsExhausted)
    case Crash(h) => s.At(h, Crashed)
    case Land(request, message) =>
      if request in s.outstanding
      then s.(outstanding := s.outstanding - {request}, landed := s.landed[request := message]) else s
    case Schedule =>
      if QueueMutable(s.post.state) then s.(post := s.post.(state := Queued, revision := s.post.revision + 1)) else s
    case Edit =>
      if QueueMutable(s.post.state) then s.(post := s.post.(revision := s.post.revision + 1)) else s
    case Cancel =>
      if QueueMutable(s.post.state) then s.(post := s.post.(state := Cancelled, revision := s.post.revision + 1)) else s
    case SettleTerminal(expectedRevision) =>
      if s.post.state == Queued && s.post.revision == expectedRevision then s.(post := s.post.To(Failed))
      else if s.post.state == Sending then s.(post := s.post.To(Unknown))
      else s
  }

  function Run(s: State, actions: seq<Action>): State
    decreases |actions|
  {
    if actions == [] then s else Run(Apply(s, actions[0]), actions[1..])
  }

  /** A post that was just created: nothing has been sent for it. */
  ghost predicate Init(s: State) {
    && s.post.state in {Draft, Queued} && s.post.message == None
    && s.outstanding == {} && s.landed == map[] && s.handlers == map[]
  }

  // ---------------------------------------------------------------- the invariant

  /** The handler holds a claim. */
  predicate Engaged(stage: Stage) {
    !stage.Idle? && !stage.Reconciling? && !stage.Returned? && !stage.Crashed?
  }

  /** Requests that have or may have an effect. */
  ghost function Spent(s: State): set<nat> { s.outstanding + s.landed.Keys }

  /** What a handler's stage says about the requests made for the post. */
  ghost predicate StageOk(s: State, stage: Stage) {
    Engaged(stage) ==>
      && LiveOrFenced(s.post.state)
      && stage.lease.generation == s.post.generation
      && (s.post.state == Sending ==> s.post.token == Some(stage.lease.token))
      && (match stage
          case Copying(_, _, request) => Spent(s) == {request}
          case SendingFile(_, request) => Spent(s) == {request}
          case Completing(_, message) =>
            s.outstanding == {} && exists r :: r in s.landed && s.landed == map[r := message]
          case Settling(_, settlement) =>
            && (settlement.Fail? ==> settlement.target in {Failed, Unknown})
            && (settlement != Fail(Unknown) ==> Spent(s) == {})
          case _ => Spent(s) == {})
  }

  ghost predicate Inv(s: State) {
    && (forall h: nat :: StageOk(s, s.Stage(h)))
    && (forall h: nat, k: nat :: Engaged(s.Stage(h)) && Engaged(s.Stage(k)) ==> h == k)
    && (forall r :: r in Spent(s) ==> r < s.nextRequest)
    && (forall r, q :: r in Spent(s) && q in Spent(s) ==> r == q)
    && (forall r :: r in s.outstanding ==> r !in s.landed)
    && (!LiveOrFenced(s.post.state) ==> Spent(s) == {})
    && (s.post.state == Published ==>
          s.post.message.Some? && exists r :: r in s.landed && s.landed == map[r := s.post.message.value])
  }

  /** The holder of the claim moves on, or anyone returns: only its own stage needs to be checked. */
  lemma MoveKeeps(s: State, t: State, h: nat)
    requires Inv(s) && Engaged(s.Stage(h))
    requires t.handlers == s.handlers[h := t.Stage(h)]
    requires StageOk(t, t.Stage(h))
    ensures forall k: nat :: StageOk(t, t.Stage(k))
    ensures forall k: nat, l: nat :: Engaged(t.Stage(k)) && Engaged(t.Stage(l)) ==> k == l
  {
    assert StageOk(s, s.Stage(h));
    forall k: nat ensures StageOk(t, t.Stage(k)) {
      if k != h { assert t.Stage(k) == s.Stage(k); }
    }
    assert forall k: nat :: k != h ==> t.Stage(k) == s.Stage(k) && !Engaged(t.Stage(k));
  }

  lemma ClaimKeeps(s: State, h: nat, expectedRevision: nat, dependenciesReady: bool, reply: Reply)
    requires Inv(s)
    ensures Inv(ApplyClaim(s, h, expectedRevision, dependenciesReady, reply))
  {
    var t := ApplyClaim(s, h, expectedRevision, dependenciesReady, reply);
    assert forall k: nat :: k != h ==> t.Stage(k) == s.Stage(k);
    forall k: nat ensures StageOk(t, t.Stage(k)) { assert StageOk(s, s.Stage(k)); }
    forall k: nat | s.post.state == Queued ensures !Engaged(s.Stage(k)) { assert StageOk(s, s.Stage(k)); }
  }

  /** Fencing a post in `sending` as unknown is always safe. */
  lemma FenceKeeps(s: State, t: State)
    requires Inv(s) && s.post.state == Sending
    requires t == s.(post := s.post.To(Unknown), handlers := t.handlers)
    requires forall k: nat :: t.Stage(k) == s.Stage(k) || !Engaged(t.Stage(k))
    ensures Inv(t)
  {
    assert Spent(t) == Spent(s);
    forall k: nat ensures StageOk(t, t.Stage(k)) { assert StageOk(s, s.Stage(k)); }
    forall k: nat, l: nat | Engaged(t.Stage(k)) && Engaged(t.Stage(l)) ensures k == l {
      assert t.Stage(k) == s.Stage(k) && t.Stage(l) == s.Stage(l);
    }
  }

  /** Handlers that hold no claim may come, go and return. */
  lemma BystanderKeeps(s: State, t: State)
    requires Inv(s) && t == s.(handlers := t.handlers)
    requires forall k: nat :: t.Stage(k) == s.Stage(k) || !Engaged(t.Stage(k))
    ensures Inv(t)
  {
    assert Spent(t) == Spent(s);
    forall k: nat ensures StageOk(t, t.Stage(k)) { assert StageOk(s, s.Stage(k)); }
    forall k: nat, l: nat | Engaged(t.Stage(k)) && Engaged(t.Stage(l)) ensures k == l {
      assert t.Stage(k) == s.Stage(k) && t.Stage(l) == s.Stage(l);
    }
  }

  lemma ReconcileKeeps(s: State, h: nat, reply: Reply)
    requires Inv(s)
    ensures Inv(ApplyReconcile(s, h, reply))
    ensures var post := ApplyReconcile(s, h, reply).post;
      post != s.post ==> s.post.state == Sending && post == s.post.To(Unknown)
  {
    var t := ApplyReconcile(s, h, reply);
    assert forall k: nat :: k != h ==> t.Stage(k) == s.Stage(k);
    assert t.Stage(h) == s.Stage(h) || t.Stage(h).Returned?;
    if t.post != s.post { FenceKeeps(s, t); } else { BystanderKeeps(s, t); }
  }

  lemma LookUpKeeps(s: State, h: nat, receipt: Receipt)
    requires Inv(s)
    ensures Inv(ApplyLookUp(s, h, receipt))
  {
    assert StageOk(s, s.Stage(h));
    var t := ApplyLookUp(s, h, receipt);
    if t != s { MoveKeeps(s, t, h); }
  }

  lemma StartKeeps(s: State, h: nat, a: Action)
    requires Inv(s) && (a == StartCopy(h) || a == StartSend(h))
    ensures Inv(Apply(s, a))
  {
    assert StageOk(s, s.Stage(h));
    var t := Apply(s, a);
    if t != s {
      assert Spent(t) == {s.nextRequest};
      MoveKeeps(s, t, h);
    }
  }

  /** A request that certainly had no effect is forgotten. */
  lemma CloseKeeps(s: State, t: State, h: nat, request: nat)
    requires Inv(s) && Engaged(s.Stage(h)) && Spent(s) == {request} && request in s.outstanding
    requires t == s.(outstanding := s.outstanding - {request}, handlers := s.handlers[h := t.Stage(h)])
    requires Engaged(t.Stage(h)) && t.Stage(h).lease == s.Stage(h).lease
    requires t.Stage(h).Fallback? || t.Stage(h).Settling?
    requires t.Stage(h).Settling? && t.Stage(h).settlement.Fail? ==> t.Stage(h).settlement.target in {Failed, Unknown}
    ensures Inv(t)
  {
    assert StageOk(s, s.Stage(h));
    assert s.landed == map[] by { assert forall r :: r in s.landed ==> r == request; }
    assert s.outstanding == {request};
    assert Spent(t) == {};
    MoveKeeps(s, t, h);
  }

  lemma TransportKeeps(s: State, h: nat, request: nat, flags: Flags)
    requires Inv(s) && Engaged(s.Stage(h)) && Spent(s) == {request}
    ensures Inv(ApplyTransportError(s, h, s.Stage(h).lease, request, flags))
  {
    var t := ApplyTransportError(s, h, s.Stage(h).lease, request, flags);
    assert StageOk(s, s.Stage(h));
    if Settle(flags) == Fail(Unknown) { MoveKeeps(s, t, h); }
    else if t != s { CloseKeeps(s, t, h, request); }
  }

  /** The message a handler goes on to record is the one that landed. */
  lemma MessageKeeps(s: State, t: State, h: nat, request: nat)
    requires Inv(s) && Engaged(s.Stage(h)) && Spent(s) == {request} && request in s.landed
    requires t == s.At(h, Completing(s.Stage(h).lease, s.landed[request]))
    ensures Inv(t)
  {
    assert StageOk(s, s.Stage(h));
    assert s.landed == map[request := s.landed[request]] by { assert s.landed.Keys == {request}; }
    assert s.outstanding == {};
    MoveKeeps(s, t, h);
  }

  lemma ReturnsKeep(s: State, h: nat, a: Action)
    requires Inv(s) && (a.CopyReturns? || a.SendReturns?) && a.h == h
    ensures Inv(Apply(s, a))
  {
    assert StageOk(s, s.Stage(h));
    var t := Apply(s, a);
    if t != s {
      var request := s.Stage(h).request;
      match a.answer
      case Message => MessageKeeps(s, t, h, request);
      case TransportError(flags) =>
        if a.CopyReturns? && flags.copyUnavailable { CloseKeeps(s, t, h, request); }
        else { TransportKeeps(s, h, request, flags); }
    }
  }

  lemma CompleteKeeps(s: State, h: nat, reply: Reply)
    requires Inv(s)
    ensures Inv(ApplyComplete(s, h, reply))
    ensures var post := ApplyComplete(s, h, reply).post;
      post != s.post ==>
        && s.Stage(h).Completing? && s.Holds(s.Stage(h).lease)
        && post.state == Published && post.message == Some(s.Stage(h).message)
        && s.landed.Values == {s.Stage(h).message}
  {
    assert StageOk(s, s.Stage(h));
    var t := ApplyComplete(s, h, reply);
    assert Spent(t) == Spent(s);
    if t != s { MoveKeeps(s, t, h); }
  }

  lemma SettleKeeps(s: State, h: nat, reply: Reply, attemptsExhausted: bool)
    requires Inv(s)
    ensures Inv(ApplySettle(s, h, reply, attemptsExhausted))
    ensures var post := ApplySettle(s, h, reply, attemptsExhausted).post;
      post != s.post ==>
        && s.Stage(h).Settling? && s.Holds(s.Stage(h).lease)
        && (post.state == Unknown || (post.state in {Queued, Failed} && s.landed == map[] && s.outstanding == {}))
        && (post.state == Queued ==> s.Stage(h).settlement.Retry? && !attemptsExhausted)
  {
    assert StageOk(s, s.Stage(h));
    var t := ApplySettle(s, h, reply, attemptsExhausted);
    assert Spent(t) == Spent(s);
    if t != s { MoveKeeps(s, t, h); }
  }

  lemma LandKeeps(s: State, request: nat, message: int)
    requires Inv(s)
    ensures Inv(Apply(s, Land(request, message)))
  {
    var t := Apply(s, Land(request, message));
    if t != s {
      assert Spent(t) == Spent(s) == {request};
      assert s.landed == map[] by { assert forall r :: r in s.landed ==> r == request; }
      assert s.post.state != Published;
      assert forall k: nat :: t.Stage(k) == s.Stage(k);
      forall k: nat ensures StageOk(t, t.Stage(k)) { assert StageOk(s, s.Stage(k)); }
    }
  }

  lemma AdministrationKeeps(s: State, a: Action)
    requires Inv(s) && (a.Schedule? || a.Edit? || a.Cancel? || a.SettleTerminal? || a.Crash?)
    ensures Inv(Apply(s, a))
  {
    var t := Apply(s, a);
    assert forall k: nat :: t.Stage(k) == s.Stage(k) || t.Stage(k) == Crashed;
    if t.post.state == Unknown && s.post.state == Sending { FenceKeeps(s, t); }
    else if a.Crash? { BystanderKeeps(s, t); }
    else {
      forall k: nat ensures StageOk(t, t.Stage(k)) { assert StageOk(s, s.Stage(k)); }
    }
  }

  lemma StepKeeps(s: State, a: Action)
    requires Inv(s)
    ensures Inv(Apply(s, a))
  {
    match a
    case Claim(h, expectedRevision, dependenciesReady, reply) =>
      ClaimKeeps(s, h, expectedRevision, dependenciesReady, reply);
    case Reconcile(h, reply) => ReconcileKeeps(s, h, reply);
    case LookUpReceipt(h, receipt) => LookUpKeeps(s, h, receipt);
    case StartCopy(h) => StartKeeps(s, h, a);
    case StartSend(h) => StartKeeps(s, h, a);
    case CopyReturns(h, answer) => ReturnsKeep(s, h, a);
    case SendReturns(h, answer) => ReturnsKeep(s, h, a);
    case Complete(h, reply) => CompleteKeeps(s, h, reply);
    case SettleFailure(h, reply, attemptsExhausted) => SettleKeeps(s, h, reply, attemptsExhausted);
    case Land(request, message) => LandKeeps(s, request, message);
    case _ => AdministrationKeeps(s, a);
  }

  lemma {:induction false} RunKeeps(s: State, actions: seq<Action>)
    requires Inv(s)
    ensures Inv(Run(s, actions))
    decreases |actions|
  {
    if actions != [] {
      StepKeeps(s, actions[0]);
      RunKeeps(Apply(s, actions[0]), actions[1..]);
    }
  }

  lemma InitIsInv(s: State)
    requires Init(s)
    ensures Inv(s)
  {}

  // ---------------------------------------------------------------- theorems over whole runs

  /** At most one send per post ever takes effect, and no further one is pending or possible while a
      post is in a state from which it could be queued again. */
  lemma AtMostOnce(init: State, actions: seq<Action>)
    requires Init(init)
    ensures var s := Run(init, actions);
            && |s.landed| <= 1
            && |s.outstanding| + |s.landed| <= 1
            && (!LiveOrFenced(s.post.state) ==> s.landed == map[] && s.outstanding == {})
            && (s.post.state == Published ==>
                  |s.landed| == 1 && s.post.message.Some? && s.landed.Values == {s.post.message.value})
  {
    InitIsInv(init);
    RunKeeps(init, actions);
    var s := Run(init, actions);
    if r :| r in s.outstanding {
      assert s.outstanding == {r};
      assert s.landed == map[] by { assert forall q :: q in s.landed ==> q in Spent(s); }
    } else if r :| r in s.landed {
      assert forall q :: q in s.landed ==> q in Spent(s) && q == r;
      assert s.landed == map[r := s.landed[r]];
    }
  }

  /** Whichever step takes a post out of `sending` back to a state it can be sent from again, the
      claim that ends with it had no effect and never will. */
  lemma RequeueMeansNothingWasSent(init: State, actions: seq<Action>, a: Action)
    requires Init(init)
    ensures var s := Run(init, actions);
            var t := Apply(s, a);
            s.post.state == Sending && !LiveOrFenced(t.post.state) ==>
              && s.landed == map[] && s.outstanding == {}
              && a.SettleFailure? && s.Stage(a.h).Settling? && s.Stage(a.h).settlement != Fail(Unknown)
  {
    InitIsInv(init);
    RunKeeps(init, actions);
    StepKeeps(Run(init, actions), a);
    var s := Run(init, actions);
    if a.SettleFailure? { assert StageOk(s, s.Stage(a.h)); }
  }

  lemma TerminalStateStays(s: State, a: Action)
    requires s.post.state in {Published, Unknown, Cancelled}
    ensures Apply(s, a).post == s.post
  {}

  /** Published, unknown and cancelled posts never change again, so a delivered message is never sent again. */
  lemma {:induction false} TerminalStatesStay(s: State, actions: seq<Action>)
    requires s.post.state in {Published, Unknown, Cancelled}
    ensures Run(s, actions).post == s.post
    decreases |actions|
  {
    if actions != [] {
      TerminalStateStays(s, actions[0]);
      TerminalStatesStay(Apply(s, actions[0]), actions[1..]);
    }
  }

  lemma EveryChangeIsRevised(s: State, a: Action)
    ensures Apply(s, a).post == s.post || Apply(s, a).post.revision == s.post.revision + 1
  {}

  /** A revision stands for one post: whoever finds the revision it expects finds the post it expects. */
  lemma {:induction false} RevisionsFence(s: State, actions: seq<Action>)
    ensures Run(s, actions).post.revision >= s.post.revision
    ensures Run(s, actions).post.revision == s.post.revision ==> Run(s, actions).post == s.post
    decreases |actions|
  {
    if actions != [] {
      EveryChangeIsRevised(s, actions[0]);
      RevisionsFence(Apply(s, actions[0]), actions[1..]);
    }
  }

  /** What an administrator schedules can be claimed at its new revision, and at no earlier one. */
  lemma ScheduleMakesClaimable(s: State, a: Action, expectedRevision: nat)
    requires a.Schedule? && QueueMutable(s.post.state) && expectedRevision <= s.post.revision
    ensures var t := Apply(s, a);
      && Claimable(t, t.post.revision, true) && !Claimable(t, expectedRevision, true)
      && t.handlers == s.handlers && t.outstanding == s.outstanding && t.landed == s.landed
  {}

  /** An edit changes nothing but the revision, and nothing that expects an earlier one can claim the post. */
  lemma EditFencesOldJobs(s: State, expectedRevision: nat)
    requires QueueMutable(s.post.state) && expectedRevision <= s.post.revision
    ensures var t := Apply(s, Edit);
      && t.post.state == s.post.state && t.post.generation == s.post.generation && t.post.message == s.post.message
      && !Claimable(t, expectedRevision, true)
  {}

  /** What is cancelled before it is sent stays cancelled, and nothing is ever sent for it. */
  lemma CancelIsFinal(s: State, actions: seq<Action>)
    requires Inv(s) && QueueMutable(s.post.state)
    ensures var t := Run(Apply(s, Cancel), actions);
      t.post.state == Cancelled && t.landed == map[] && t.outstanding == {}
  {
    var t := Apply(s, Cancel);
    StepKeeps(s, Cancel);
    RunKeeps(t, actions);
    TerminalStatesStay(t, actions);
    assert Spent(Run(t, actions)) == {};
  }

  /** Settling a terminal job leaves no send under way and nothing for that job to claim. */
  lemma TerminalJobIsSettled(s: State, expectedRevision: nat)
    ensures var t := Apply(s, SettleTerminal(expectedRevision));
      && t.post.state != Sending && !Claimable(t, expectedRevision, true)
      && (s.post.state != Sending && !Claimable(s, expectedRevision, true) ==> t == s)
      && (s.post.state == Sending ==> t.post.state == Unknown)
      && (t.post.state == Failed ==> !LiveOrFenced(s.post.state))
  {}

  /** Apart from claiming and reconciling, a handler changes the post only under the lease it holds. */
  lemma OnlyTheHolderWrites(s: State, a: Action)
    requires Inv(s) && Actor(a).Some? && !a.Claim? && !a.Reconcile?
    ensures var stage := s.Stage(Actor(a).value);
      Apply(s, a).post != s.post ==> Engaged(stage) && s.Holds(stage.lease)
  {}

  lemma {:induction false} LandedStaysFenced(s: State, actions: seq<Action>)
    requires Inv(s) && s.landed != map[]
    ensures LiveOrFenced(Run(s, actions).post.state) && Run(s, actions).landed == s.landed
    decreases |actions|
  {
    LandedIsAlone(s);
    if actions != [] {
      StepKeeps(s, actions[0]);
      NothingElseLands(s, actions[0]);
      LandedStaysFenced(Apply(s, actions[0]), actions[1..]);
    }
  }

  lemma LandedIsAlone(s: State)
    requires Inv(s) && s.landed != map[]
    ensures s.outstanding == {} && LiveOrFenced(s.post.state)
  {
    var r :| r in s.landed.Keys;
    assert r in Spent(s);
    assert s.outstanding == {} by { assert forall q :: q in s.outstanding ==> q in Spent(s); }
  }

  lemma NothingElseLands(s: State, a: Action)
    requires s.outstanding == {}
    ensures Apply(s, a).landed == s.landed
  {}

  /** The claim, the receipt and the request of an undisturbed delivery. */
  ghost function Beginnings(init: State, h: nat, hasFile: bool): seq<Action> {
    [Claim(h, init.post.revision, true, Answered), LookUpReceipt(h, Found(hasFile)), StartCopy(h)]
  }

  /** A claim on a queued post, up to the request. */
  lemma DeliveryBegins(init: State, h: nat, hasFile: bool)
    requires Init(init) && init.post.state == Queued
    ensures var s := Run(init, Beginnings(init, h, hasFile));
            var lease := Lease(init.post.generation + 1, init.nextToken);
            && s.Stage(h) == Copying(lease, hasFile, init.nextRequest) && s.Holds(lease)
            && s.outstanding == {init.nextRequest} && s.landed == map[]
  {
    var s1 := Apply(init, Claim(h, init.post.revision, true, Answered));
    var s2 := Apply(s1, LookUpReceipt(h, Found(hasFile)));
    Unfold(s2, [StartCopy(h)]);
    Unfold(s1, [LookUpReceipt(h, Found(hasFile)), StartCopy(h)]);
    Unfold(init, Beginnings(init, h, hasFile));
    assert Run(Apply(s2, StartCopy(h)), []) == Apply(s2, StartCopy(h));
  }

  /** From the request that lands to the published post. */
  lemma DeliveryEnds(s: State, h: nat, lease: Lease, hasFile: bool, request: nat, message: int)
    requires s.Stage(h) == Copying(lease, hasFile, request) && s.Holds(lease)
    requires s.outstanding == {request} && s.landed == map[] && message > 0
    ensures var t := Run(s, [Land(request, message), CopyReturns(h, Message), Complete(h, Answered)]);
            && t.post.state == Published && t.post.message == Some(message)
            && t.landed == map[request := message] && t.Stage(h) == Returned(Done)
  {
    var s4 := Apply(s, Land(request, message));
    var s5 := Apply(s4, CopyReturns(h, Message));
    assert s5.Stage(h) == Completing(lease, message);
    var s6 := Apply(s5, Complete(h, Answered));
    Unfold(s5, [Complete(h, Answered)]);
    Unfold(s4, [CopyReturns(h, Message), Complete(h, Answered)]);
    Unfold(s, [Land(request, message), CopyReturns(h, Message), Complete(h, Answered)]);
    assert Run(s6, []) == s6;
  }

  /** Nothing above holds for want of deliveries: an undisturbed invocation on a queued post delivers
      one message and publishes the post with it. */
  lemma UndisturbedDelivery(init: State, h: nat, hasFile: bool, message: int)
    requires Init(init) && init.post.state == Queued && message > 0
    ensures var s := Run(init, Beginnings(init, h, hasFile)
                               + [Land(init.nextRequest, message), CopyReturns(h, Message), Complete(h, Answered)]);
            && s.post.state == Published && s.post.message == Some(message)
            && s.landed == map[init.nextRequest := message] && s.Stage(h) == Returned(Done)
  {
    var first := Beginnings(init, h, hasFile);
    var second := [Land(init.nextRequest, message), CopyReturns(h, Message), Complete(h, Answered)];
    DeliveryBegins(init, h, hasFile);
    var lease := Lease(init.post.generation + 1, init.nextToken);
    DeliveryEnds(Run(init, first), h, lease, hasFile, init.nextRequest, message);
    RunConcat(init, first, second);
  }

  lemma Unfold(s: State, actions: seq<Action>)
    requires actions != []
    ensures Run(s, actions) == Run(Apply(s, actions[0]), actions[1..])
  {}

  // ---------------------------------------------------------------- the code

  /** The handler invocation a step belongs to. */
  function Actor(a: Action): Option<nat> {
    match a
    case Claim(h, _, _, _) => Some(h)
    case Reconcile(h, _) => Some(h)
    case LookUpReceipt(h, _) => Some(h)
    case StartCopy(h) => Some(h)
    case CopyReturns(h, _) => Some(h)
    case StartSend(h) => Some(h)
    case SendReturns(h, _) => Some(h)
    case Complete(h, _) => Some(h)
    case SettleFailure(h, _, _) => Some(h)
    case Crash(h) => Some(h)
    case _ => None
  }

  /** Steps of everyone else: other handlers, Telegram, the administrator, recovery. */
  ghost predicate Foreign(actions: seq<Action>, h: nat) {
    forall i :: 0 <= i < |actions| ==> Actor(actions[i]) != Some(h)
  }

  lemma OtherKeepsStage(s: State, a: Action, h: nat)
    requires Actor(a) != Some(h)
    ensures Apply(s, a).Stage(h) == s.Stage(h)
  {}

  lemma {:induction false} OthersKeepStage(s: State, actions: seq<Action>, h: nat)
    requires Foreign(actions, h)
    ensures Run(s, actions).Stage(h) == s.Stage(h)
    decreases |actions|
  {
    if actions != [] {
      OtherKeepsStage(s, actions[0], h);
      OthersKeepStage(Apply(s, actions[0]), actions[1..], h);
    }
  }

  lemma {:induction false} RunConcat(s: State, a: seq<Action>, b: seq<Action>)
    ensures Run(s, a + b) == Run(Run(s, a), b)
    decreases |a|
  {
    if a == [] {
      assert a + b == b;
    } else {
      assert (a + b)[0] == a[0] && (a + b)[1..] == a[1..] + b;
      RunConcat(Apply(s, a[0]), a[1..], b);
    }
  }

  lemma RunSnoc(s: State, actions: seq<Action>, a: Action)
    ensures Run(s, actions + [a]) == Apply(Run(s, actions), a)
  {
    RunConcat(s, actions, [a]);
    Unfold(Run(s, actions), [a]);
    assert [a][1..] == [];
  }

  /** Everything one invocation meets: the steps of the others before each of its own, the answers of
      the database, the receipt, the answers of Telegram, and whether the job's attempts are used up. */
  datatype Surroundings = Surroundings(
    others: nat -> seq<Action>, reply: nat -> Reply, dependenciesReady: bool, receipt: Receipt,
    copyAnswer: Answer, sendAnswer: Answer, attemptsExhausted: bool)

  datatype Invocation = Invocation(h: nat, expectedRevision: nat, around: Surroundings)

  ghost predicate Apart(job: Invocation) { forall k :: Foreign(job.around.others(k), job.h) }

  datatype ClaimResult = Got(lease: Lease) | FoundSending | NotForUs | ClaimFailed

  const TIMED_OUT := TransportError(Flags(false, false, false, true))

  /** Telegram keeps its contract: an answer that it could not give is an ambiguous error instead. */
  function Possible(s: State, request: nat, wish: Answer, copy: bool): Answer {
    match wish
    case Message => if request in s.landed then wish else TIMED_OUT
    case TransportError(flags) =>
      var ambiguous := !(copy && flags.copyUnavailable) && Settle(flags) == Fail(Unknown);
      if request in s.outstanding || ambiguous then wish else TIMED_OUT
  }

  /** Where an answer takes the handler. */
  function AfterSend(lease: Lease, answer: Answer, message: int): Stage {
    match answer
    case Message => Completing(lease, message)
    case TransportError(flags) => Settling(lease, Settle(flags))
  }

  function AfterCopy(lease: Lease, hasFile: bool, answer: Answer, message: int): Stage {
    if answer.TransportError? && answer.flags.copyUnavailable
    then if hasFile then Fallback(lease) else Settling(lease, Fail(Failed))
    else AfterSend(lease, answer, message)
  }

  function AfterLookUp(lease: Lease, receipt: Receipt): Stage {
    match receipt
    case Found(hasFile) => Ready(lease, hasFile)
    case LookupFailed => Settling(lease, Retry)
    case _ => Settling(lease, Fail(Failed))
  }

  function MessageOf(s: State, request: nat): int { if request in s.landed then s.landed[request] else 0 }

  lemma CopyAnswered(s: State, h: nat, lease: Lease, hasFile: bool, request: nat, wish: Answer)
    requires s.Stage(h) == Copying(lease, hasFile, request)
    ensures var answer := Possible(s, request, wish, true);
      Apply(s, CopyReturns(h, answer)).Stage(h) == AfterCopy(lease, hasFile, answer, MessageOf(s, request))
  {}

  /** What a settlement answers, and where it leaves the handler and the post. */
  lemma SettleAnswered(s: State, h: nat, reply: Reply, exhausted: bool)
    requires s.Stage(h).Settling? && s.Stage(h).settlement in {Retry, Fail(Failed), Fail(Unknown)}
    ensures var t := Apply(s, SettleFailure(h, reply, exhausted)); var held := s.Holds(s.Stage(h).lease);
      && t.Stage(h).Returned?
      && t.Stage(h).result == SettleResult(reply, held, s.Stage(h).settlement, exhausted)
      && (reply == Answered && held ==>
            (t.post.state == Queued <==> s.Stage(h).settlement.Retry? && !exhausted))
  {}

  function SettleResult(reply: Reply, held: bool, settlement: Settlement, exhausted: bool): HandlerResult {
    match reply
    case LeaseLost => Done
    case DatabaseError(_) => Permanent
    case Answered => if !held then Done else if settlement.Retry? && !exhausted then Retryable else Permanent
  }

  lemma CompleteAnswered(s: State, h: nat, lease: Lease, message: int, reply: Reply)
    requires s.Stage(h) == Completing(lease, message)
    ensures Apply(s, Complete(h, reply)).Stage(h) ==
      if message > 0 && !reply.DatabaseError? then Returned(Done) else Settling(lease, Fail(Unknown))
  {}

  lemma SendAnswered(s: State, h: nat, lease: Lease, request: nat, wish: Answer)
    requires s.Stage(h) == SendingFile(lease, request)
    ensures var answer := Possible(s, request, wish, false);
      Apply(s, SendReturns(h, answer)).Stage(h) == AfterSend(lease, answer, MessageOf(s, request))
  {}

  // What an invocation has to do, stage by stage.

  predicate Over(stage: Stage) { stage.Returned? || stage.Crashed? }

  /** Which of its pauses a handler at this stage has reached. */
  function Pause(stage: Stage): nat {
    match stage
    case Idle => 0
    case Reconciling => 1
    case Claimed(_) => 1
    case Ready(_, _) => 2
    case Copying(_, _, _) => 3
    case Fallback(_) => 4
    case SendingFile(_, _) => 5
    case Completing(_, _) => 6
    case _ => 7
  }

  /** The step a handler at its stage takes next. */
  function OwnStep(world: State, job: Invocation): Action {
    var Invocation(h, expectedRevision, around) := job;
    match world.Stage(h)
    case Idle => Claim(h, expectedRevision, around.dependenciesReady, around.reply(0))
    case Reconciling => Reconcile(h, around.reply(1))
    case Claimed(_) => LookUpReceipt(h, around.receipt)
    case Ready(_, _) => StartCopy(h)
    case Copying(_, _, request) => CopyReturns(h, Possible(world, request, around.copyAnswer, true))
    case Fallback(_) => StartSend(h)
    case SendingFile(_, request) => SendReturns(h, Possible(world, request, around.sendAnswer, false))
    case Completing(_, _) => Complete(h, around.reply(6))
    case _ => SettleFailure(h, around.reply(7), around.attemptsExhausted)
  }

  /** The others act, then the handler takes its next step, until it is over. */
  ghost function Advance(s: State, job: Invocation): State {
    if Over(s.Stage(job.h)) then s
    else
      var world := Run(s, job.around.others(Pause(s.Stage(job.h))));
      Apply(world, OwnStep(world, job))
  }

  ghost function Stepper(job: Invocation): State -> State { s => Advance(s, job) }

  ghost function Driven(s: State, job: Invocation, n: nat): State { Iterate(Stepper(job), s, n) }

  /** A driven invocation is a run of the machine. */
  lemma {:induction false} DrivenIsRun(s: State, job: Invocation, n: nat) returns (actions: seq<Action>)
    ensures Driven(s, job, n) == Run(s, actions)
  {
    if n == 0 {
      actions := [];
    } else {
      var before := DrivenIsRun(s, job, n - 1);
      var t := Driven(s, job, n - 1);
      if Over(t.Stage(job.h)) {
        actions := before;
      } else {
        var others := job.around.others(Pause(t.Stage(job.h)));
        var own := OwnStep(Run(t, others), job);
        actions := before + (others + [own]);
        RunConcat(s, before, others + [own]);
        RunSnoc(t, others, own);
      }
    }
  }

  /** Once an invocation is over, driving it further changes nothing. */
  lemma DrivenStays(s: State, job: Invocation, m: nat, n: nat)
    requires m <= n && Over(Driven(s, job, m).Stage(job.h))
    ensures Driven(s, job, n) == Driven(s, job, m)
  {
    AdvanceOver(Driven(s, job, m), job);
    IterateStays(Stepper(job), s, m, n);
  }

  /** So an invocation has one end. */
  lemma OneEnd(s: State, job: Invocation, m: nat, n: nat)
    requires Over(Driven(s, job, m).Stage(job.h)) && Over(Driven(s, job, n).Stage(job.h))
    ensures Driven(s, job, m) == Driven(s, job, n)
  {
    if m <= n { DrivenStays(s, job, m, n); } else { DrivenStays(s, job, n, m); }
  }

  lemma AdvanceAlone(s: State, job: Invocation)
    requires !Over(s.Stage(job.h)) && job.around.others(Pause(s.Stage(job.h))) == []
    ensures Advance(s, job) == Apply(s, OwnStep(s, job))
  {}

  lemma AdvanceBy(s: State, job: Invocation, a: Action)
    requires !Over(s.Stage(job.h))
    requires a == OwnStep(Run(s, job.around.others(Pause(s.Stage(job.h)))), job)
    ensures Advance(s, job) == Apply(Run(s, job.around.others(Pause(s.Stage(job.h)))), a)
  {}

  lemma AdvanceOver(s: State, job: Invocation)
    requires Over(s.Stage(job.h))
    ensures Advance(s, job) == s
  {}

  lemma DrivenStep(s: State, job: Invocation, n: nat)
    ensures Driven(s, job, n + 1) == Advance(Driven(s, job, n), job)
  {}

  /** Driving on is driving from the next stage. */
  lemma {:induction false} DrivenOn(s: State, job: Invocation, n: nat)
    requires n > 0
    ensures Driven(s, job, n) == Driven(Advance(s, job), job, n - 1)
  {
    DrivenStep(s, job, n - 1);
    if n > 1 {
      DrivenOn(s, job, n - 1);
      DrivenStep(Advance(s, job), job, n - 2);
    }
  }

  // ---------------------------------------------------------------- how an undisturbed invocation ends

  /** No invocation takes more steps than these: claim, receipt, copy and its answer, send and its answer,
      completion, settlement. */
  const MOST_STEPS := 8

  /** Nobody else acts, except that Telegram carries out the copy or the file send that is under way. */
  ghost predicate Quiet(job: Invocation) {
    forall k: nat :: k != 3 && k != 5 ==> job.around.others(k) == []
  }

  /** The post can be claimed, and nothing was sent for it. */
  ghost predicate Sendable(s: State, job: Invocation) {
    && Quiet(job) && s.Stage(job.h) == Idle && s.outstanding == {} && s.landed == map[]
    && s.post.state == Queued && s.post.revision == job.expectedRevision
    && job.around.dependenciesReady && job.around.reply(0) == Answered
  }

  /** The end of an invocation. */
  datatype End = End(post: PostState, result: HandlerResult)

  ghost predicate EndsAt(t: State, h: nat, end: End) {
    t.post.state == end.post && t.Stage(h) == Returned(end.result)
  }

  /** The claim is settled one way, if the database lets it: a lost lease is left alone, and an error is
      permanent whether or not it hides a commit. */
  ghost function Settled(reply: Reply, target: End): End {
    match reply
    case Answered => target
    case LeaseLost => End(Sending, Done)
    case DatabaseError(committed) => End(if committed then target.post else Sending, Permanent)
  }

  /** A requeue, unless the attempts of the job are used up. */
  ghost function Requeued(exhausted: bool): End {
    if exhausted then End(Failed, Permanent) else End(Queued, Retryable)
  }

  /** The handler holds the claim and is at this stage. */
  ghost predicate Holding(t: State, h: nat, lease: Lease, stage: Stage) {
    t.Stage(h) == stage && t.Holds(lease)
  }

  lemma {:induction false} LastStep(t: State, job: Invocation, n: nat)
    requires n > 0 && Over(Advance(t, job).Stage(job.h))
    ensures Driven(t, job, n) == Advance(t, job)
  {
    AdvanceOver(Advance(t, job), job);
    IterateLast(Stepper(job), t, n);
  }

  /** What a claim that is still held is settled as. */
  ghost function Target(settlement: Settlement, exhausted: bool): End {
    match settlement
    case Retry => Requeued(exhausted)
    case Fail(target) => End(target, Permanent)
  }

  lemma SettleStep(t: State, job: Invocation, lease: Lease, settlement: Settlement)
    requires Quiet(job) && Holding(t, job.h, lease, Settling(lease, settlement))
    ensures var target := Target(settlement, job.around.attemptsExhausted);
      EndsAt(Advance(t, job), job.h, Settled(job.around.reply(7), target))
  {
    AdvanceAlone(t, job);
  }

  lemma RetryEnds(t: State, job: Invocation, lease: Lease, n: nat)
    requires Quiet(job) && n > 0 && Holding(t, job.h, lease, Settling(lease, Retry))
    ensures EndsAt(Driven(t, job, n), job.h, Settled(job.around.reply(7), Requeued(job.around.attemptsExhausted)))
  {
    SettleStep(t, job, lease, Retry);
    LastStep(t, job, n);
  }

  lemma FailEnds(t: State, job: Invocation, lease: Lease, target: PostState, n: nat)
    requires Quiet(job) && n > 0 && Holding(t, job.h, lease, Settling(lease, Fail(target)))
    ensures EndsAt(Driven(t, job, n), job.h, Settled(job.around.reply(7), End(target, Permanent)))
  {
    SettleStep(t, job, lease, Fail(target));
    LastStep(t, job, n);
  }

  /** What a transport error that cannot be answered with a file send leads to. */
  ghost predicate ErrorEnds(t: State, job: Invocation, flags: Flags) {
    var Surroundings(_, reply, _, _, _, _, exhausted) := job.around;
    && (flags.noEffect ==> EndsAt(t, job.h, Settled(reply(7), Requeued(exhausted))))
    && (!flags.noEffect && flags.caption ==> EndsAt(t, job.h, Settled(reply(7), End(Failed, Permanent))))
    && (!flags.noEffect && !flags.caption && flags.ambiguous ==>
          EndsAt(t, job.h, Settled(reply(7), End(Unknown, Permanent))))
    && (!flags.noEffect && !flags.caption && !flags.ambiguous ==>
          EndsAt(t, job.h, Settled(reply(7), End(Failed, Permanent))))
  }

  lemma TransportErrorEnds(t: State, job: Invocation, lease: Lease, flags: Flags, n: nat)
    requires Quiet(job) && n > 0 && Holding(t, job.h, lease, Settling(lease, Settle(flags)))
    ensures ErrorEnds(Driven(t, job, n), job, flags)
  {
    if flags.noEffect {
      RetryEnds(t, job, lease, n);
    } else {
      FailEnds(t, job, lease, if flags.ambiguous && !flags.caption then Unknown else Failed, n);
    }
  }

  /** What a message that landed leads to: the post is published with it, unless completing fails. Then a
      hidden commit has published it all the same, and otherwise it is fenced as unknown. */
  ghost predicate MessageEnds(t: State, job: Invocation, message: int) {
    var complete, settle := job.around.reply(6), job.around.reply(7);
    var unknown := Settled(settle, End(Unknown, Permanent));
    && (t.post.state == Published ==> t.post.message == Some(message))
    && (if message <= 0 then EndsAt(t, job.h, unknown)
        else match complete
          case Answered => EndsAt(t, job.h, End(Published, Done))
          case LeaseLost => EndsAt(t, job.h, End(Sending, Done))
          case DatabaseError(committed) =>
            if committed then EndsAt(t, job.h, End(Published, if settle.DatabaseError? then Permanent else Done))
            else EndsAt(t, job.h, unknown))
  }

  lemma CompleteStep(t: State, job: Invocation, lease: Lease, message: int)
    requires Quiet(job) && Holding(t, job.h, lease, Completing(lease, message))
    ensures var u, reply := Advance(t, job), job.around.reply(6);
      if message <= 0 || reply == DatabaseError(false) then
        Holding(u, job.h, lease, Settling(lease, Fail(Unknown)))
      else
        && u.Stage(job.h) == (if reply.DatabaseError? then Settling(lease, Fail(Unknown)) else Returned(Done))
        && u.post.state == (if reply.LeaseLost? then Sending else Published)
        && (u.post.state == Published ==> u.post.message == Some(message))
  {
    AdvanceAlone(t, job);
  }

  /** A hidden commit: the settlement finds the claim gone. */
  lemma LateSettleStep(t: State, job: Invocation, lease: Lease, settlement: Settlement)
    requires Quiet(job) && t.Stage(job.h) == Settling(lease, settlement) && !t.Holds(lease)
    ensures var u := Advance(t, job);
      u.post == t.post && u.Stage(job.h) == Returned(if job.around.reply(7).DatabaseError? then Permanent else Done)
  {
    AdvanceAlone(t, job);
  }

  lemma LandedEnds(t: State, job: Invocation, lease: Lease, message: int, n: nat)
    requires Quiet(job) && n > 1 && Holding(t, job.h, lease, Completing(lease, message))
    ensures MessageEnds(Driven(t, job, n), job, message)
  {
    var reply, u := job.around.reply(6), Advance(t, job);
    CompleteStep(t, job, lease, message);
    if message <= 0 || reply == DatabaseError(false) {
      DrivenOn(t, job, n);
      FailEnds(u, job, lease, Unknown, n - 1);
      FencedEnds(Driven(t, job, n), job, message);
    } else if reply.DatabaseError? {
      DrivenOn(t, job, n);
      LateSettleStep(u, job, lease, Fail(Unknown));
      LastStep(u, job, n - 1);
    } else {
      LastStep(t, job, n);
    }
  }

  lemma FencedEnds(t: State, job: Invocation, message: int)
    requires message <= 0 || job.around.reply(6) == DatabaseError(false)
    requires EndsAt(t, job.h, Settled(job.around.reply(7), End(Unknown, Permanent)))
    ensures MessageEnds(t, job, message)
  {}

  /** The handler has its request out. */
  ghost predicate Requested(t: State, h: nat, lease: Lease, stage: Stage, request: nat) {
    && Holding(t, h, lease, stage)
    && t.outstanding == {request} && t.landed == map[] && t.nextRequest == request + 1
    && (stage == SendingFile(lease, request) || exists hasFile :: stage == Copying(lease, hasFile, request))
  }

  lemma RequestLands(t: State, h: nat, lease: Lease, stage: Stage, request: nat, message: int)
    requires Requested(t, h, lease, stage, request)
    ensures Run(t, [Land(request, message)]) == t.(outstanding := {}, landed := map[request := message])
  {
    Unfold(t, [Land(request, message)]);
    var after := Apply(t, Land(request, message));
    assert [Land(request, message)][1..] == [] && Run(after, []) == after;
  }

  /** How an outstanding request may turn out: carried out and answered, or answered with an error. Only an
      ambiguous error may hide that it was carried out. */
  ghost predicate Turns(others: seq<Action>, request: nat, answer: Answer, message: int) {
    match answer
    case Message => others == [Land(request, message)]
    case TransportError(flags) =>
      || others == []
      || (others == [Land(request, message)]
          && flags.ambiguous && !flags.noEffect && !flags.caption && !flags.copyUnavailable)
  }

  lemma SendStep(t: State, job: Invocation, lease: Lease, request: nat, message: int)
    requires Quiet(job) && Requested(t, job.h, lease, SendingFile(lease, request), request)
    requires Turns(job.around.others(5), request, job.around.sendAnswer, message)
    ensures Holding(Advance(t, job), job.h, lease, AfterSend(lease, job.around.sendAnswer, message))
  {
    RequestLands(t, job.h, lease, SendingFile(lease, request), request, message);
    assert Run(t, []) == t;
  }

  lemma SendEnds(t: State, job: Invocation, lease: Lease, request: nat, message: int, n: nat)
    requires Quiet(job) && n > 2 && Requested(t, job.h, lease, SendingFile(lease, request), request)
    requires Turns(job.around.others(5), request, job.around.sendAnswer, message)
    ensures match job.around.sendAnswer
      case Message => MessageEnds(Driven(t, job, n), job, message)
      case TransportError(flags) => ErrorEnds(Driven(t, job, n), job, flags)
  {
    SendStep(t, job, lease, request, message);
    DrivenOn(t, job, n);
    match job.around.sendAnswer
    case Message => LandedEnds(Advance(t, job), job, lease, message, n - 1);
    case TransportError(flags) => TransportErrorEnds(Advance(t, job), job, lease, flags, n - 1);
  }

  lemma CopyStep(t: State, job: Invocation, lease: Lease, hasFile: bool, request: nat, message: int)
    requires Quiet(job) && Requested(t, job.h, lease, Copying(lease, hasFile, request), request)
    requires Turns(job.around.others(3), request, job.around.copyAnswer, message)
    ensures var u, answer := Advance(t, job), job.around.copyAnswer;
      && Holding(u, job.h, lease, AfterCopy(lease, hasFile, answer, message))
      && (answer.TransportError? && answer.flags.copyUnavailable ==>
            u.outstanding == {} && u.landed == map[] && u.nextRequest == request + 1)
  {
    RequestLands(t, job.h, lease, Copying(lease, hasFile, request), request, message);
    assert Run(t, []) == t;
  }

  /** A request goes out. */
  lemma StartStep(t: State, job: Invocation, lease: Lease, hasFile: bool)
    requires Quiet(job) && t.outstanding == {} && t.landed == map[]
    requires Holding(t, job.h, lease, Ready(lease, hasFile)) || Holding(t, job.h, lease, Fallback(lease))
    ensures var request := t.nextRequest;
      Requested(Advance(t, job), job.h, lease,
                if t.Stage(job.h).Ready? then Copying(lease, hasFile, request) else SendingFile(lease, request),
                request)
  {
    AdvanceAlone(t, job);
  }

  /** The copy is out; where Telegram says that it cannot be made, the file is sent instead. */
  lemma CopyEnds(t: State, job: Invocation, lease: Lease, hasFile: bool, request: nat, message: int, n: nat)
    requires Quiet(job) && n > 4 && Requested(t, job.h, lease, Copying(lease, hasFile, request), request)
    requires job.around.receipt == Found(hasFile) && Answerable(job, request, message)
    ensures InvocationEnds(Driven(t, job, n), job, message)
  {
    var u := Advance(t, job);
    CopyStep(t, job, lease, hasFile, request, message);
    DrivenOn(t, job, n);
    match job.around.copyAnswer
    case Message => LandedEnds(u, job, lease, message, n - 1);
    case TransportError(flags) =>
      if !flags.copyUnavailable {
        TransportErrorEnds(u, job, lease, flags, n - 1);
      } else if !hasFile {
        FailEnds(u, job, lease, Failed, n - 1);
      } else {
        StartStep(u, job, lease, hasFile);
        DrivenOn(u, job, n - 1);
        SendEnds(Advance(u, job), job, lease, request + 1, message, n - 2);
      }
  }

  /** The receipt holds a file, and the copy is answered with the error that asks for it. */
  predicate SendsFile(job: Invocation) {
    && job.around.receipt == Found(true)
    && job.around.copyAnswer.TransportError? && job.around.copyAnswer.flags.copyUnavailable
  }

  /** Telegram gives the answers that the invocation is told to meet. */
  ghost predicate Answerable(job: Invocation, request: nat, message: int) {
    && Turns(job.around.others(3), request, job.around.copyAnswer, message)
    && (SendsFile(job) ==> Turns(job.around.others(5), request + 1, job.around.sendAnswer, message))
  }

  /** How an invocation that got its claim ends, by the receipt and the answers of Telegram. */
  ghost predicate InvocationEnds(t: State, job: Invocation, message: int) {
    var Surroundings(_, reply, _, receipt, copyAnswer, sendAnswer, exhausted) := job.around;
    var rejected := Settled(reply(7), End(Failed, Permanent));
    match receipt
    case Missing => EndsAt(t, job.h, rejected)
    case Invalid => EndsAt(t, job.h, rejected)
    case LookupFailed => EndsAt(t, job.h, Settled(reply(7), Requeued(exhausted)))
    case Found(hasFile) =>
      match copyAnswer
      case Message => MessageEnds(t, job, message)
      case TransportError(flags) =>
        if !flags.copyUnavailable then ErrorEnds(t, job, flags)
        else if !hasFile then EndsAt(t, job.h, rejected)
        else match sendAnswer
          case Message => MessageEnds(t, job, message)
          case TransportError(again) => ErrorEnds(t, job, again)
  }

  lemma ClaimStep(s: State, job: Invocation)
    requires Sendable(s, job)
    ensures var lease, t := Lease(s.post.generation + 1, s.nextToken), Advance(s, job);
      && Holding(t, job.h, lease, Claimed(lease))
      && t.outstanding == {} && t.landed == map[] && t.nextRequest == s.nextRequest
  {
    AdvanceAlone(s, job);
  }

  lemma LookUpStep(t: State, job: Invocation, lease: Lease)
    requires Quiet(job) && Holding(t, job.h, lease, Claimed(lease))
    ensures var u := Advance(t, job);
      && Holding(u, job.h, lease, AfterLookUp(lease, job.around.receipt))
      && u.outstanding == t.outstanding && u.landed == t.landed && u.nextRequest == t.nextRequest
  {
    AdvanceAlone(t, job);
  }

  /** The receipt was looked up, the claim is held, and nothing was sent under it yet. */
  ghost predicate Untouched(t: State, job: Invocation, lease: Lease) {
    && Holding(t, job.h, lease, AfterLookUp(lease, job.around.receipt))
    && t.outstanding == {} && t.landed == map[]
  }

  /** From the receipt on. */
  lemma ReceiptEnds(t: State, job: Invocation, lease: Lease, message: int, n: nat)
    requires Quiet(job) && n > 5 && Untouched(t, job, lease) && Answerable(job, t.nextRequest, message)
    ensures InvocationEnds(Driven(t, job, n), job, message)
  {
    match job.around.receipt
    case Missing => FailEnds(t, job, lease, Failed, n);
    case Invalid => FailEnds(t, job, lease, Failed, n);
    case LookupFailed => RetryEnds(t, job, lease, n);
    case Found(hasFile) =>
      StartStep(t, job, lease, hasFile);
      DrivenOn(t, job, n);
      CopyEnds(Advance(t, job), job, lease, hasFile, t.nextRequest, message, n - 1);
  }

  /** The same in the middle of an invocation. */
  lemma FoundEnds(s: State, job: Invocation, lease: Lease, message: int, m: nat, n: nat)
    requires Quiet(job) && Untouched(Driven(s, job, m), job, lease)
    requires Answerable(job, Driven(s, job, m).nextRequest, message) && Over(Driven(s, job, n).Stage(job.h))
    ensures InvocationEnds(Driven(s, job, n), job, message)
  {
    ReceiptEnds(Driven(s, job, m), job, lease, message, MOST_STEPS);
    IterateAdd(Stepper(job), s, m, MOST_STEPS);
    EndIsOver(Driven(s, job, m + MOST_STEPS), job, message);
    OneEnd(s, job, n, m + MOST_STEPS);
  }

  lemma EndIsOver(t: State, job: Invocation, message: int)
    requires InvocationEnds(t, job, message)
    ensures Over(t.Stage(job.h))
  {}

  lemma UndisturbedEnds(s: State, job: Invocation, message: int)
    requires Sendable(s, job) && Answerable(job, s.nextRequest, message)
    ensures InvocationEnds(Driven(s, job, MOST_STEPS), job, message)
  {
    var lease, t := Lease(s.post.generation + 1, s.nextToken), Advance(s, job);
    ClaimStep(s, job);
    LookUpStep(t, job, lease);
    DrivenOn(s, job, MOST_STEPS);
    DrivenOn(t, job, MOST_STEPS - 1);
    ReceiptEnds(Advance(t, job), job, lease, message, MOST_STEPS - 2);
  }

  /** How an invocation ends that gets no claim: a lost lease, a post that is not queued at the expected
      revision, and one that another handler is sending are left to others; only the last is fenced. */
  ghost predicate UnclaimedEnds(s: State, t: State, job: Invocation) {
    var Surroundings(_, reply, ready, _, _, _, _) := job.around;
    var expected := s.post.state == Queued && s.post.revision == job.expectedRevision;
    match reply(0)
    case LeaseLost => t.post == s.post && t.Stage(job.h) == Returned(Done)
    case DatabaseError(committed) =>
      EndsAt(t, job.h, End(if committed && expected && ready then Sending else s.post.state, Retryable))
    case Answered =>
      if s.post.state == Sending then
        match reply(1)
        case Answered => EndsAt(t, job.h, End(Unknown, Done))
        case LeaseLost => EndsAt(t, job.h, End(Sending, Done))
        case DatabaseError(committed) => EndsAt(t, job.h, End(if committed then Unknown else Sending, Retryable))
      else if !expected then t.post == s.post && t.Stage(job.h) == Returned(Done)
      else t.post == s.post && t.Stage(job.h) == Returned(Retryable)
  }

  lemma ReconcileStep(t: State, job: Invocation)
    requires Quiet(job) && t.Stage(job.h) == Reconciling && t.post.state == Sending
    ensures EndsAt(Advance(t, job), job.h,
      match job.around.reply(1)
      case Answered => End(Unknown, Done)
      case LeaseLost => End(Sending, Done)
      case DatabaseError(committed) => End(if committed then Unknown else Sending, Retryable))
  {
    AdvanceAlone(t, job);
  }

  /** An answer to the claim that gives no claim. */
  lemma RefusedStep(s: State, job: Invocation)
    requires Quiet(job) && s.Stage(job.h) == Idle
    requires job.around.reply(0) != Answered || !Claimable(s, job.expectedRevision, job.around.dependenciesReady)
    ensures var t := Advance(s, job);
      if job.around.reply(0) == Answered && s.post.state == Sending
      then t.Stage(job.h) == Reconciling && t.post == s.post
      else UnclaimedEnds(s, t, job) && Over(t.Stage(job.h))
  {
    AdvanceAlone(s, job);
  }

  lemma UnclaimedEnd(s: State, job: Invocation)
    requires Quiet(job) && s.Stage(job.h) == Idle
    requires job.around.reply(0) != Answered || !Claimable(s, job.expectedRevision, job.around.dependenciesReady)
    ensures UnclaimedEnds(s, Driven(s, job, MOST_STEPS), job)
    ensures Over(Driven(s, job, MOST_STEPS).Stage(job.h))
  {
    var t := Advance(s, job);
    RefusedStep(s, job);
    if job.around.reply(0) == Answered && s.post.state == Sending {
      ReconcileStep(t, job);
      DrivenOn(s, job, MOST_STEPS);
      LastStep(t, job, MOST_STEPS - 1);
    } else {
      LastStep(s, job, MOST_STEPS);
    }
  }

  /** The database and Telegram, as one handler invocation sees them. */
  class Publication {
    var state: State
    ghost var steps: nat               // steps of the invocation so far

    constructor (initial: State)
      requires Init(initial)
      ensures state == initial && Inv(state)
    {
      state, steps := initial, 0;
      InitIsInv(initial);
    }

    /** The handler is at `stage`, where driving it from `start` has led. */
    ghost predicate At(job: Invocation, stage: Stage, start: State)
      reads this
    {
      state.Stage(job.h) == stage && state == Driven(start, job, steps)
    }

    /** The others act, then the handler takes the step that its stage asks for. */
    method Call(job: Invocation, a: Action, ghost stage: Stage, ghost start: State)
      requires At(job, stage, start) && !Over(stage)
      requires a == OwnStep(Run(state, job.around.others(Pause(stage))), job)
      modifies this
      ensures state == Apply(Run(old(state), job.around.others(Pause(stage))), a)
      ensures At(job, state.Stage(job.h), start)
    {
      var world := Run(state, job.around.others(Pause(state.Stage(job.h))));
      var next := Apply(world, a);
      AdvanceBy(state, job, a);
      Move(next, Stepper(job), start);
    }

    /** One more application of the step. */
    method Move(next: State, ghost step: State -> State, ghost start: State)
      requires state == Iterate(step, start, steps) && next == step(state)
      modifies this
      ensures state == next && state == Iterate(step, start, steps)
    {
      state := next;
      steps := steps + 1;
    }

    /** What the others have made of the world when the handler goes on. */
    lemma World(job: Invocation, stage: Stage, start: State)
      requires Apart(job) && At(job, stage, start)
      ensures Run(state, job.around.others(Pause(stage))).Stage(job.h) == stage
    {
      OthersKeepStage(state, job.around.others(Pause(stage)), job.h);
    }

    method ClaimPublish(job: Invocation, ghost start: State) returns (r: ClaimResult)
      requires Apart(job) && At(job, Idle, start)
      modifies this
      ensures At(job, match r case Got(lease) => Claimed(lease) case FoundSending => Reconciling
                      case NotForUs => Returned(Done) case ClaimFailed => Returned(Retryable), start)
    {
      var Invocation(h, expectedRevision, around) := job;
      var world, reply := Run(state, around.others(0)), around.reply(0);
      World(job, Idle, start);
      Call(job, Claim(h, expectedRevision, around.dependenciesReady, reply), Idle, start);
      r := if reply == LeaseLost then NotForUs
           else if reply.DatabaseError? then ClaimFailed
           else if world.post.state == Sending then FoundSending
           else if world.post.state != Queued || world.post.revision != expectedRevision then NotForUs
           else if !around.dependenciesReady then ClaimFailed
           else Got(Lease(world.post.generation + 1, world.nextToken));
    }

    method ReconcileInterrupted(job: Invocation, ghost start: State) returns (r: HandlerResult)
      requires Apart(job) && At(job, Reconciling, start)
      modifies this
      ensures At(job, Returned(r), start)
      ensures r == if job.around.reply(1).DatabaseError? then Retryable else Done
    {
      World(job, Reconciling, start);
      Call(job, Reconcile(job.h, job.around.reply(1)), Reconciling, start);
      r := if job.around.reply(1).DatabaseError? then Retryable else Done;
    }

    method FindReceipt(job: Invocation, lease: Lease, ghost start: State)
      requires Apart(job) && At(job, Claimed(lease), start)
      modifies this
      ensures At(job, AfterLookUp(lease, job.around.receipt), start)
    {
      World(job, Claimed(lease), start);
      Call(job, LookUpReceipt(job.h, job.around.receipt), Claimed(lease), start);
    }

    /** copy_from_storage: the request goes out, and its answer comes back later. */
    method CopyFromStorage(job: Invocation, lease: Lease, hasFile: bool, ghost start: State)
      returns (answer: Answer, message: int)
      requires Apart(job) && At(job, Ready(lease, hasFile), start)
      modifies this
      ensures At(job, AfterCopy(lease, hasFile, answer, message), start)
    {
      var request := Run(state, job.around.others(2)).nextRequest;
      World(job, Ready(lease, hasFile), start);
      Call(job, StartCopy(job.h), Ready(lease, hasFile), start);
      answer, message := AwaitCopy(job, lease, hasFile, request, start);
    }

    method AwaitCopy(job: Invocation, lease: Lease, hasFile: bool, request: nat, ghost start: State)
      returns (answer: Answer, message: int)
      requires Apart(job) && At(job, Copying(lease, hasFile, request), start)
      modifies this
      ensures At(job, AfterCopy(lease, hasFile, answer, message), start)
    {
      var world := Run(state, job.around.others(3));
      answer := Possible(world, request, job.around.copyAnswer, true);
      message := MessageOf(world, request);
      World(job, Copying(lease, hasFile, request), start);
      Call(job, CopyReturns(job.h, answer), Copying(lease, hasFile, request), start);
      CopyAnswered(world, job.h, lease, hasFile, request, job.around.copyAnswer);
    }

    /** send_storage_file. */
    method SendStorageFile(job: Invocation, lease: Lease, ghost start: State)
      returns (answer: Answer, message: int)
      requires Apart(job) && At(job, Fallback(lease), start)
      modifies this
      ensures At(job, AfterSend(lease, answer, message), start)
    {
      var request := Run(state, job.around.others(4)).nextRequest;
      World(job, Fallback(lease), start);
      Call(job, StartSend(job.h), Fallback(lease), start);
      answer, message := AwaitSend(job, lease, request, start);
    }

    method AwaitSend(job: Invocation, lease: Lease, request: nat, ghost start: State)
      returns (answer: Answer, message: int)
      requires Apart(job) && At(job, SendingFile(lease, request), start)
      modifies this
      ensures At(job, AfterSend(lease, answer, message), start)
    {
      var world := Run(state, job.around.others(5));
      answer := Possible(world, request, job.around.sendAnswer, false);
      message := MessageOf(world, request);
      World(job, SendingFile(lease, request), start);
      Call(job, SendReturns(job.h, answer), SendingFile(lease, request), start);
      SendAnswered(world, job.h, lease, request, job.around.sendAnswer);
    }

    /** complete_publish; false when the outcome must be fenced as unknown instead. */
    method CompletePublish(job: Invocation, lease: Lease, message: int, ghost start: State)
      returns (settled: bool)
      requires Apart(job) && At(job, Completing(lease, message), start)
      modifies this
      ensures At(job, if settled then Returned(Done) else Settling(lease, Fail(Unknown)), start)
      ensures settled <==> message > 0 && !job.around.reply(6).DatabaseError?
    {
      World(job, Completing(lease, message), start);
      CompleteAnswered(Run(state, job.around.others(6)), job.h, lease, message, job.around.reply(6));
      Call(job, Complete(job.h, job.around.reply(6)), Completing(lease, message), start);
      settled := message > 0 && !job.around.reply(6).DatabaseError?;
    }

    /** retry_publish and fail_publish: a lost lease is left alone, an error is permanent, and otherwise the
        job is retried exactly when the post was requeued. */
    method SettleLease(job: Invocation, lease: Lease, settlement: Settlement, ghost start: State)
      returns (r: HandlerResult)
      requires Apart(job) && At(job, Settling(lease, settlement), start)
      requires settlement in {Retry, Fail(Failed), Fail(Unknown)}
      modifies this
      ensures At(job, Returned(r), start)
      ensures var reply := job.around.reply(7); var held := Run(old(state), job.around.others(7)).Holds(lease);
        && (r == Done <==> reply == LeaseLost || (reply == Answered && !held))
        && (r == Retryable <==> reply == Answered && held && state.post.state == Queued)
        && (reply.DatabaseError? ==> r == Permanent)
    {
      var world, reply := Run(state, job.around.others(7)), job.around.reply(7);
      World(job, Settling(lease, settlement), start);
      SettleAnswered(world, job.h, reply, job.around.attemptsExhausted);
      Call(job, SettleFailure(job.h, reply, job.around.attemptsExhausted), Settling(lease, settlement), start);
      match reply {
        case LeaseLost => r := Done;
        case DatabaseError(_) => r := Permanent;
        case Answered =>
          if !world.Holds(lease) { return Done; }
          r := if settlement.Retry? && !job.around.attemptsExhausted then Retryable else Permanent;
      }
    }

    /** From the claim on. */
    method SendClaimed(job: Invocation, lease: Lease, ghost start: State) returns (r: HandlerResult)
      requires Apart(job) && At(job, Claimed(lease), start)
      modifies this
      ensures At(job, Returned(r), start)
    {
      FindReceipt(job, lease, start);
      match job.around.receipt {
        case Missing => r := SettleLease(job, lease, Fail(Failed), start);
        case LookupFailed => r := SettleLease(job, lease, Retry, start);
        case Invalid => r := SettleLease(job, lease, Fail(Failed), start);
        case Found(hasFile) => r := SendFound(job, lease, hasFile, start);
      }
    }

    /** The copy, its fallback, and what their errors lead to. */
    method SendFound(job: Invocation, lease: Lease, hasFile: bool, ghost start: State) returns (r: HandlerResult)
      requires Apart(job) && At(job, Ready(lease, hasFile), start)
      modifies this
      ensures At(job, Returned(r), start)
      // with nobody in the way, the answers decide how it ends
      ensures forall message :: Quiet(job) && Untouched(old(state), job, lease)
                                && Answerable(job, old(state).nextRequest, message) ==>
                InvocationEnds(state, job, message)
    {
      ghost var before, soFar := state, steps;
      r := DeliverFound(job, lease, hasFile, start);
      forall message | Quiet(job) && Untouched(before, job, lease) && Answerable(job, before.nextRequest, message)
        ensures InvocationEnds(state, job, message)
      {
        FoundEnds(start, job, lease, message, soFar, steps);
      }
    }

    method DeliverFound(job: Invocation, lease: Lease, hasFile: bool, ghost start: State) returns (r: HandlerResult)
      requires Apart(job) && At(job, Ready(lease, hasFile), start)
      modifies this
      ensures At(job, Returned(r), start)
    {
      var answer, message := CopyFromStorage(job, lease, hasFile, start);
      if answer.TransportError? && answer.flags.copyUnavailable {
        if !hasFile {
          r := SettleLease(job, lease, Fail(Failed), start);
          return;
        }
        answer, message := SendStorageFile(job, lease, start);
      }
      if answer.TransportError? {
        r := SettleLease(job, lease, Settle(answer.flags), start);
        return;
      }
      var settled := CompletePublish(job, lease, message, start);
      if settled { return Done; }
      r := SettleLease(job, lease, Fail(Unknown), start);
    }

    /** The branches of publish_post. */
    method Perform(job: Invocation, ghost start: State) returns (r: HandlerResult)
      requires Apart(job) && At(job, Idle, start)
      modifies this
      ensures At(job, Returned(r), start)
    {
      var claim := ClaimPublish(job, start);
      match claim {
        case NotForUs => r := Done;
        case ClaimFailed => r := Retryable;
        case FoundSending => r := ReconcileInterrupted(job, start);
        case Got(lease) => r := SendClaimed(job, lease, start);
      }
    }

    /**
      publish_post, whatever everyone else does between its steps: it ends where driving the machine stage
      by stage ends, with the result it returns. That is a run of the machine, so what the machine keeps,
      the code keeps: at most one message. And with nobody in the way, the receipt and the answers of the
      database and of Telegram decide how it ends.
    */
    method PublishPost(job: Invocation) returns (r: HandlerResult)
      requires Inv(state) && state.Stage(job.h) == Idle && Apart(job)
      modifies this
      ensures state == Driven(old(state), job, steps) && state.Stage(job.h) == Returned(r)
      ensures Inv(state) && exists actions :: state == Run(old(state), actions)
      ensures forall m, n :: m in state.landed && n in state.landed ==> m == n
      ensures Quiet(job)
              && (job.around.reply(0) != Answered
                  || !Claimable(old(state), job.expectedRevision, job.around.dependenciesReady)) ==>
                UnclaimedEnds(old(state), state, job)
      ensures forall message :: Sendable(old(state), job) && Answerable(job, old(state).nextRequest, message) ==>
                InvocationEnds(state, job, message)
    {
      ghost var start := state;
      steps := 0;
      r := Perform(job, start);
      var actions := DrivenIsRun(start, job, steps);
      RunKeeps(start, actions);
      forall m, n | m in state.landed && n in state.landed ensures m == n {
        assert m in Spent(state) && n in Spent(state);
      }
      if Quiet(job)
         && (job.around.reply(0) != Answered
             || !Claimable(start, job.expectedRevision, job.around.dependenciesReady)) {
        UnclaimedEnd(start, job);
        OneEnd(start, job, steps, MOST_STEPS);
      }
      forall message | Sendable(start, job) && Answerable(job, start.nextRequest, message)
        ensures InvocationEnds(state, job, message)
      {
        UndisturbedEnds(start, job, message);
        OneEnd(start, job, steps, MOST_STEPS);
      }
    }
  }
}
