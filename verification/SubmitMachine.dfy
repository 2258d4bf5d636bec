/**
  The action panel of the browser userscript (userscripts/sooqa-2ch-save.user.js): clicks, the
  asynchronous metadata form, requests with their callbacks, and the history of accepted actions.

  A payload is represented by everything it is assembled from, so equal representations mean equal
  request bodies. `crypto.randomUUID` is a counter: identifiers are fresh.
*/
module SubmitMachine {
  import opened Prelude

  datatype ActionButton = ActionButton(key: string, requestAction: string, caption: string, detailed: bool)

  datatype Metadata = Metadata(description: string, tags: seq<string>, publicText: string, publishAt: string)

  datatype Payload = Payload(actionId: nat, pageTitle: string, action: ActionButton, metadata: Option<Metadata>)

  datatype Attempt = Attempt(actionKey: string, actionId: nat, payload: Payload)

  /** Reading the token from the script's storage may itself throw. */
  datatype Token = Configured | Missing | ReadThrows

  /** What a submission finds when it is about to send: the token, the request API, and whether the
      API throws instead of accepting the request. */
  datatype Api = Api(token: Token, available: bool, throws: bool)

  datatype FormResult = Filled(metadata: Metadata) | Dismissed | FormThrew

  datatype Event =
    | Click(action: ActionButton, pageTitle: string, api: Api)
    | FormDone(result: FormResult, title: string, formApi: Api)
    | Load(status: nat)
    | Error
    | Timeout

  /** What the network sees and answers. */
  datatype Entry =
    | Send(actionId: nat, payload: Payload)
    | Response(actionId: nat, status: nat)
    | Failure(actionId: nat)

  // ---------------------------------------------------------------- traces

  /** Every callback answers the request just before it, so requests never overlap. */
  ghost predicate Alternates(trace: seq<Entry>) {
    && (forall i :: 0 <= i < |trace| && !trace[i].Send? ==>
          i > 0 && trace[i - 1].Send? && trace[i - 1].actionId == trace[i].actionId)
    && (forall i :: 0 <= i < |trace| - 1 && trace[i].Send? ==> !trace[i + 1].Send?)
  }

  /** An identifier stands for one payload, and is never sent again once it was answered. */
  ghost predicate Identified(trace: seq<Entry>) {
    && (forall i, j :: 0 <= i < j < |trace| && trace[i].Send? && trace[j].Send? ==>
          trace[i].actionId == trace[j].actionId ==> trace[i].payload == trace[j].payload)
    && (forall i, j :: 0 <= i < j < |trace| && trace[i].Response? && trace[j].Send? ==>
          trace[i].actionId != trace[j].actionId)
  }

  ghost predicate Below(trace: seq<Entry>, bound: nat) {
    forall i :: 0 <= i < |trace| ==> trace[i].actionId < bound
  }

  /** The pending attempt continues the trace consistently: it was never answered. */
  ghost predicate MayRetry(trace: seq<Entry>, attempt: Attempt) {
    forall i :: 0 <= i < |trace| && trace[i].actionId == attempt.actionId ==>
      && !trace[i].Response?
      && (trace[i].Send? ==> trace[i].payload == attempt.payload)
  }

  ghost predicate Idle(trace: seq<Entry>) { |trace| > 0 ==> !trace[|trace| - 1].Send? }

  lemma SendExtends(trace: seq<Entry>, attempt: Attempt)
    requires Alternates(trace) && Identified(trace) && MayRetry(trace, attempt) && Idle(trace)
    ensures var after := trace + [Send(attempt.actionId, attempt.payload)];
            Alternates(after) && Identified(after) && MayRetry(after, attempt)
  {}

  lemma AnswerExtends(trace: seq<Entry>, answer: Entry)
    requires Alternates(trace) && Identified(trace) && |trace| > 0 && trace[|trace| - 1].Send?
    requires !answer.Send? && answer.actionId == trace[|trace| - 1].actionId
    ensures Alternates(trace + [answer]) && Identified(trace + [answer]) && Idle(trace + [answer])
    ensures forall attempt :: answer.Failure? && MayRetry(trace, attempt) ==> MayRetry(trace + [answer], attempt)
  {}

  lemma FreshMayRetry(trace: seq<Entry>, attempt: Attempt)
    requires Below(trace, attempt.actionId)
    ensures MayRetry(trace, attempt)
  {}

  /** The identifiers of the accepting responses, in order. */
  ghost function Acceptances(trace: seq<Entry>): seq<nat> {
    if trace == [] then [] else Acceptances(trace[..|trace| - 1]) + Accepting(trace[|trace| - 1])
  }

  ghost function Accepting(e: Entry): seq<nat> {
    if e.Response? && 200 <= e.status < 300 then [e.actionId] else []
  }

  lemma AcceptancesSnoc(trace: seq<Entry>, e: Entry)
    ensures Acceptances(trace + [e]) == Acceptances(trace) + Accepting(e)
  {
    assert (trace + [e])[..|trace|] == trace;
  }

  // ---------------------------------------------------------------- the machine

  /** What the panel remembers, with everything the network has seen. */
  datatype PanelState = PanelState(
    retry: Option<Attempt>,          // the attempt a further click may repeat
    form: Option<ActionButton>,      // the submission waiting for its form
    inFlight: Option<Attempt>,       // the request waiting for its callback
    nextId: nat,
    trace: seq<Entry>,
    accepted: seq<nat>,              // action identifiers recorded as accepted
    stuck: bool)                     // the token read threw: sending is set, and nothing resets it

  const INITIAL := PanelState(None, None, None, 0, [], [], false)

  predicate Sends(api: Api) { api.token.Configured? && api.available && !api.throws }

  ghost function Sent(s: PanelState, api: Api): PanelState
    requires s.retry.Some?
  {
    if api.token.ReadThrows? then s.(stuck := true)
    else if !Sends(api) then s
    else s.(inFlight := s.retry, trace := s.trace + [Send(s.retry.value.actionId, s.retry.value.payload)])
  }

  ghost function Started(s: PanelState, action: ActionButton, pageTitle: string, metadata: Option<Metadata>, api: Api)
    : PanelState
  {
    var attempt := Attempt(action.key, s.nextId, Payload(s.nextId, pageTitle, action, metadata));
    Sent(Made(s, attempt), api)
  }

  predicate Busy(s: PanelState) { s.inFlight.Some? || s.form.Some? || s.stuck }

  /** What one event does. */
  ghost function Next(s: PanelState, event: Event): PanelState {
    match event
    case Click(action, pageTitle, api) =>
      if Busy(s) then s
      else if s.retry.Some? && s.retry.value.actionKey == action.key then Sent(s, api)
      else if action.detailed then s.(retry := None, form := Some(action))
      else Started(s, action, pageTitle, None, api)
    case FormDone(result, pageTitle, api) =>
      if s.form.None? then s
      else if !result.Filled? then s.(form := None)
      else Started(s.(form := None), s.form.value, pageTitle, Some(result.metadata), api)
    case Load(status) =>
      if s.inFlight.None? then s
      else
        var answer := Response(s.inFlight.value.actionId, status);
        s.(retry := None, inFlight := None, trace := s.trace + [answer], accepted := s.accepted + Accepting(answer))
    case _ =>
      if s.inFlight.None? then s
      else s.(inFlight := None, trace := s.trace + [Failure(s.inFlight.value.actionId)])
  }

  /** What any sequence of events does. */
  ghost function After(s: PanelState, events: seq<Event>): PanelState {
    if events == [] then s else Next(After(s, events[..|events| - 1]), events[|events| - 1])
  }

  /** What every event keeps. */
  ghost predicate Sound(s: PanelState) {
    && (s.form.Some? ==> s.inFlight.None? && s.retry.None?)
    && (s.stuck ==> s.inFlight.None? && s.form.None?)
    && (s.inFlight.Some? ==> s.retry == s.inFlight)
    && (s.inFlight.None? <==> Idle(s.trace))
    && (s.inFlight.Some? ==> s.trace[|s.trace| - 1] == Send(s.inFlight.value.actionId, s.inFlight.value.payload))
    && Alternates(s.trace) && Identified(s.trace) && Below(s.trace, s.nextId)
    && (s.retry.Some? ==>
          && s.retry.value.actionId < s.nextId && s.retry.value.payload.actionId == s.retry.value.actionId
          && s.retry.value.actionKey == s.retry.value.payload.action.key
          && MayRetry(s.trace, s.retry.value))
    && s.accepted == Acceptances(s.trace)
  }

  lemma SentKeeps(s: PanelState, api: Api)
    requires Sound(s) && s.retry.Some? && !Busy(s)
    ensures Sound(Sent(s, api))
  {
    if Sends(api) {
      var attempt := s.retry.value;
      SendExtends(s.trace, attempt);
      BelowSnoc(s.trace, Send(attempt.actionId, attempt.payload), s.nextId);
      AcceptancesSnoc(s.trace, Send(attempt.actionId, attempt.payload));
    }
  }

  lemma BelowSnoc(trace: seq<Entry>, e: Entry, bound: nat)
    requires Below(trace, bound) && e.actionId < bound
    ensures Below(trace + [e], bound)
  {}

  /** The attempt is made but not yet sent. */
  ghost function Made(s: PanelState, attempt: Attempt): PanelState {
    s.(retry := Some(attempt), nextId := s.nextId + 1)
  }

  lemma MadeKeeps(s: PanelState, attempt: Attempt)
    requires Sound(s) && !Busy(s) && attempt.actionId == s.nextId && attempt.payload.actionId == s.nextId
    requires attempt.actionKey == attempt.payload.action.key
    ensures Sound(Made(s, attempt)) && !Busy(Made(s, attempt))
  {
    FreshMayRetry(s.trace, attempt);
    BelowMore(s.trace, s.nextId);
  }

  lemma BelowMore(trace: seq<Entry>, bound: nat)
    requires Below(trace, bound)
    ensures Below(trace, bound + 1)
  {}

  lemma StartedKeeps(s: PanelState, action: ActionButton, pageTitle: string, metadata: Option<Metadata>, api: Api)
    requires Sound(s) && !Busy(s)
    ensures Sound(Started(s, action, pageTitle, metadata, api))
  {
    var attempt := Attempt(action.key, s.nextId, Payload(s.nextId, pageTitle, action, metadata));
    MadeKeeps(s, attempt);
    SentKeeps(Made(s, attempt), api);
  }

  lemma AnswerKeeps(s: PanelState, answer: Entry, event: Event)
    requires Sound(s) && s.inFlight.Some? && answer.actionId == s.inFlight.value.actionId
    requires if event.Load? then answer == Response(answer.actionId, event.status) else answer.Failure?
    requires event.Load? || event.Error? || event.Timeout?
    ensures Sound(Next(s, event))
  {
    AnswerExtends(s.trace, answer);
    AcceptancesSnoc(s.trace, answer);
  }

  lemma NextKeeps(s: PanelState, event: Event)
    requires Sound(s)
    ensures Sound(Next(s, event))
  {
    match event
    case Click(action, pageTitle, api) =>
      if !Busy(s) {
        if s.retry.Some? && s.retry.value.actionKey == action.key {
          SentKeeps(s, api);
        } else if !action.detailed {
          StartedKeeps(s, action, pageTitle, None, api);
        }
      }
    case FormDone(result, pageTitle, api) =>
      if s.form.Some? && result.Filled? {
        StartedKeeps(s.(form := None), s.form.value, pageTitle, Some(result.metadata), api);
      }
    case Load(status) =>
      if s.inFlight.Some? { AnswerKeeps(s, Response(s.inFlight.value.actionId, status), event); }
    case Error =>
      if s.inFlight.Some? { AnswerKeeps(s, Failure(s.inFlight.value.actionId), event); }
    case Timeout =>
      if s.inFlight.Some? { AnswerKeeps(s, Failure(s.inFlight.value.actionId), event); }
  }

  /** Whatever happens in whatever order: requests never overlap, an identifier stands for one payload and
      is not sent again once answered, and what is recorded is what was accepted. */
  lemma {:induction false} EveryRunIsSound(events: seq<Event>)
    ensures Sound(After(INITIAL, events))
  {
    if events != [] {
      EveryRunIsSound(events[..|events| - 1]);
      NextKeeps(After(INITIAL, events[..|events| - 1]), events[|events| - 1]);
    }
  }

  // ---------------------------------------------------------------- the panel

  class Panel {
    var retry: Option<Attempt>
    var sending: bool
    var collecting: bool
    var disabled: bool                       // the action buttons
    var pending: Option<ActionButton>        // the submission waiting for its form
    var inFlight: Option<Attempt>            // the request waiting for its callback
    var nextId: nat
    var accepted: seq<nat>                   // action identifiers recorded as accepted
    ghost var trace: seq<Entry>

    constructor ()
      ensures Valid() && View() == INITIAL
    {
      retry, sending, collecting, disabled := None, false, false, false;
      pending, inFlight, nextId, accepted, trace := None, None, 0, [], [];
    }

    ghost function View(): PanelState
      reads this
    {
      PanelState(retry, pending, inFlight, nextId, trace, accepted, sending && inFlight.None?)
    }

    /** The flags and the buttons agree with what the panel is waiting for. */
    ghost predicate Coherent()
      reads this
    {
      && (inFlight.Some? ==> sending) && (collecting <==> pending.Some?)
      && (disabled <==> sending || collecting)
      && (pending.Some? ==> !sending && retry.None?)
    }

    ghost predicate Valid()
      reads this
    {
      Coherent() && Sound(View())
    }

    /** The part of `submit` before the form, or all of it for a plain action. */
    method Click(action: ActionButton, pageTitle: string, api: Api)
      requires Coherent()
      modifies this
      ensures Coherent() && View() == Next(old(View()), Event.Click(action, pageTitle, api))
    {
      if sending || collecting { return; }
      if retry.Some? && retry.value.actionKey != action.key { retry := None; }
      if retry.None? {
        if action.detailed {
          collecting, disabled, pending := true, true, Some(action);
          return;
        }
        MakeAttempt(action, pageTitle, None);
      }
      SendAttempt(api);
    }

    /** The form settles; the submission that waited for it goes on. */
    method FormDone(result: FormResult, pageTitle: string, api: Api)
      requires Coherent()
      modifies this
      ensures Coherent() && View() == Next(old(View()), Event.FormDone(result, pageTitle, api))
    {
      if pending.None? { return; }
      var action := pending.value;
      collecting, pending := false, None;
      if !sending { disabled := false; }
      if !result.Filled? { return; }
      if sending || collecting || retry.Some? { return; }
      MakeAttempt(action, pageTitle, Some(result.metadata));
      SendAttempt(api);
    }

    method MakeAttempt(action: ActionButton, pageTitle: string, metadata: Option<Metadata>)
      modifies this`retry, this`nextId
      ensures nextId == old(nextId) + 1
      ensures retry == Some(Attempt(action.key, old(nextId), Payload(old(nextId), pageTitle, action, metadata)))
    {
      var actionId := nextId;
      nextId := nextId + 1;
      retry := Some(Attempt(action.key, actionId, Payload(actionId, pageTitle, action, metadata)));
    }

    method SendAttempt(api: Api)
      requires Coherent() && retry.Some? && !collecting && !sending
      modifies this`sending, this`disabled, this`inFlight, this`trace
      ensures View() == Sent(old(View()), api) && Coherent()
    {
      var attempt := retry.value;
      sending, disabled := true, true;
      if api.token.ReadThrows? { return; }
      if api.token.Missing? || !api.available || api.throws {
        sending, disabled := false, false;
        return;
      }
      inFlight := Some(attempt);
      trace := trace + [Send(attempt.actionId, attempt.payload)];
    }

    method OnLoad(status: nat)
      requires Coherent()
      modifies this
      ensures Coherent() && View() == Next(old(View()), Event.Load(status))
      ensures old(inFlight).Some? ==>
                && !sending && inFlight.None? && retry.None?
                && trace == old(trace) + [Response(old(inFlight).value.actionId, status)]
                && accepted == old(accepted) + if 200 <= status < 300 then [old(inFlight).value.actionId] else []
    {
      if inFlight.None? { return; }
      var attempt := inFlight.value;
      sending, disabled, retry, inFlight := false, false, None, None;
      trace := trace + [Response(attempt.actionId, status)];
      if 200 <= status < 300 { accepted := accepted + [attempt.actionId]; }
      assert old(accepted) + [] == old(accepted);
    }

    /** `onerror` and `ontimeout`: the attempt is kept for a retry. */
    method OnFailure(event: Event)
      requires Coherent() && (event.Error? || event.Timeout?)
      modifies this
      ensures Coherent() && View() == Next(old(View()), event)
      ensures retry == old(retry) && accepted == old(accepted)
      ensures old(inFlight).Some? ==>
                !sending && inFlight.None? && trace == old(trace) + [Failure(old(inFlight).value.actionId)]
    {
      if inFlight.None? { return; }
      var attempt := inFlight.value;
      sending, disabled, inFlight := false, false, None;
      trace := trace + [Failure(attempt.actionId)];
    }

    method Handle(event: Event)
      requires Valid()
      modifies this
      ensures Valid() && View() == Next(old(View()), event)
    {
      NextKeeps(View(), event);
      match event {
        case Click(action, pageTitle, api) => Click(action, pageTitle, api);
        case FormDone(result, title, formApi) => FormDone(result, title, formApi);
        case Load(status) => OnLoad(status);
        case Error => OnFailure(event);
        case Timeout => OnFailure(event);
      }
    }

    /** Any sequence of events, from a fresh panel. */
    method Run(events: seq<Event>)
      requires Valid() && View() == INITIAL
      modifies this
      // what was sent, answered and recorded is what the events make it
      ensures View() == After(INITIAL, events)
      // at most one request is in flight, at every moment
      ensures Alternates(trace)
      // equal identifiers mean equal payloads, with no response between
      ensures Identified(trace)
      // at rest
      ensures !(sending && collecting) && (disabled <==> sending || collecting)
      // sending means a request in flight, unless reading the token threw
      ensures sending <==> inFlight.Some? || View().stuck
      ensures accepted == Acceptances(trace)
    {
      for i := 0 to |events|
        invariant Valid() && View() == After(INITIAL, events[..i])
      {
        assert events[..i + 1][..i] == events[..i];
        Handle(events[i]);
      }
      assert events[..|events|] == events;
    }
  }

  // ---------------------------------------------------------------- what events send

  /** Whatever event sends a request: it repeats the attempt kept for a retry of the same action, which was
      never answered, or carries an identifier never used before. */
  lemma SendMeaning(s: PanelState, event: Event)
    requires Sound(s) && Next(s, event).inFlight.Some? && s.inFlight.None?
    ensures var attempt := Next(s, event).inFlight.value;
      && Next(s, event).trace == s.trace + [Send(attempt.actionId, attempt.payload)]
      && (if s.retry == Some(attempt)
          then forall i :: 0 <= i < |s.trace| && s.trace[i].actionId == attempt.actionId ==> !s.trace[i].Response?
          else forall i :: 0 <= i < |s.trace| ==> s.trace[i].actionId != attempt.actionId)
      && (event.Click? && s.retry.Some? && s.retry.value.actionKey == event.action.key ==> s.retry == Some(attempt))
  {}

  lemma AfterSnoc(s: PanelState, events: seq<Event>, event: Event)
    ensures After(s, events + [event]) == Next(After(s, events), event)
  {
    assert (events + [event])[..|events|] == events;
  }

  lemma {:induction false} AfterConcat(s: PanelState, a: seq<Event>, b: seq<Event>)
    ensures After(s, a + b) == After(After(s, a), b)
    decreases |b|
  {
    if b == [] {
      assert a + b == a;
    } else {
      var init, last := b[..|b| - 1], b[|b| - 1];
      AfterConcat(s, a, init);
      assert a + b == (a + init) + [last];
      AfterSnoc(s, a + init, last);
    }
  }

  /** The panel is at rest with this attempt kept. */
  ghost predicate Keeps(s: PanelState, attempt: Attempt) { !Busy(s) && s.retry == Some(attempt) }

  /** The event cannot send, and is no click on another action: callbacks and form results that nobody waits
      for, and clicks on the same action that find no token or no working API. */
  predicate Harmless(event: Event, key: string) {
    event.Click? ==>
      && event.action.key == key && !event.api.token.ReadThrows?
      && (event.api.token.Missing? || !event.api.available || event.api.throws)
  }

  lemma {:induction false} HarmlessKeeps(s: PanelState, attempt: Attempt, events: seq<Event>)
    requires Keeps(s, attempt) && forall i :: 0 <= i < |events| ==> Harmless(events[i], attempt.actionKey)
    ensures After(s, events) == s
    decreases |events|
  {
    if events != [] { HarmlessKeeps(s, attempt, events[..|events| - 1]); }
  }

  lemma KeptIsSent(s: PanelState, attempt: Attempt, later: seq<Event>, click: Event)
    requires Keeps(s, attempt) && forall i :: 0 <= i < |later| ==> Harmless(later[i], attempt.actionKey)
    requires click.Click? && click.action.key == attempt.actionKey && Sends(click.api)
    ensures After(s, later + [click]).trace == s.trace + [Send(attempt.actionId, attempt.payload)]
  {
    HarmlessKeeps(s, attempt, later);
    AfterSnoc(s, later, click);
  }

  /**
    A request that failed is repeated: after the failure, however many clicks on its action found no token
    or no API, the next click on that action that can send repeats identifier and payload.
  */
  lemma FailureIsRetried(events: seq<Event>, failure: Event, later: seq<Event>, click: Event)
    requires var before, after := After(INITIAL, events), After(INITIAL, events + [failure]);
      after.trace != before.trace && after.trace[|after.trace| - 1].Failure?
    requires var trace := After(INITIAL, events + [failure]).trace;
      && |trace| >= 2 && trace[|trace| - 2].Send?
      && (forall i :: 0 <= i < |later| ==> Harmless(later[i], trace[|trace| - 2].payload.action.key))
      && click.Click? && click.action.key == trace[|trace| - 2].payload.action.key && Sends(click.api)
    ensures var trace := After(INITIAL, events + [failure]).trace;
      && trace[|trace| - 2].actionId == trace[|trace| - 1].actionId
      && After(INITIAL, (events + [failure]) + (later + [click])).trace == trace + [trace[|trace| - 2]]
  {
    EveryRunIsSound(events);
    AfterSnoc(INITIAL, events, failure);
    RetriedFrom(After(INITIAL, events), failure, later, click);
    AfterConcat(INITIAL, events + [failure], later + [click]);
  }

  lemma RetriedFrom(s: PanelState, failure: Event, later: seq<Event>, click: Event)
    requires Sound(s) && Next(s, failure).trace != s.trace
    requires var trace := Next(s, failure).trace;
      && |trace| >= 2 && trace[|trace| - 1].Failure? && trace[|trace| - 2].Send?
      && (forall i :: 0 <= i < |later| ==> Harmless(later[i], trace[|trace| - 2].payload.action.key))
      && click.Click? && click.action.key == trace[|trace| - 2].payload.action.key && Sends(click.api)
    ensures var t := Next(s, failure);
      && t.trace[|t.trace| - 2].actionId == t.trace[|t.trace| - 1].actionId
      && After(t, later + [click]).trace == t.trace + [t.trace[|t.trace| - 2]]
  {
    FailureKeeps(s, failure);
    KeptIsSent(Next(s, failure), s.inFlight.value, later, click);
  }

  lemma FailureKeeps(s: PanelState, failure: Event)
    requires Sound(s) && Next(s, failure).trace != s.trace
    requires var trace := Next(s, failure).trace; trace != [] && trace[|trace| - 1].Failure?
    ensures s.inFlight.Some? && Keeps(Next(s, failure), s.inFlight.value)
    ensures var attempt := s.inFlight.value;
      && attempt.actionKey == attempt.payload.action.key
      && Next(s, failure).trace == s.trace + [Failure(attempt.actionId)]
      && |s.trace| > 0 && s.trace[|s.trace| - 1] == Send(attempt.actionId, attempt.payload)
  {}

  /** At rest, with no attempt kept for the action. */
  ghost predicate Fresh(s: PanelState, action: ActionButton) {
    !Busy(s) && (s.retry.Some? ==> s.retry.value.actionKey != action.key)
  }

  ghost predicate Unused(trace: seq<Entry>, id: nat) { forall i :: 0 <= i < |trace| ==> trace[i].actionId != id }

  /** A plain action makes one attempt, with the title of the first click, and sends it as soon as it can. */
  lemma PlainIsSent(events: seq<Event>, first: Event, later: seq<Event>, click: Event)
    requires first.Click? && !first.action.detailed && Fresh(After(INITIAL, events), first.action)
    requires Harmless(first, first.action.key)
    requires forall i :: 0 <= i < |later| ==> Harmless(later[i], first.action.key)
    requires click.Click? && click.action.key == first.action.key && Sends(click.api)
    ensures var s := After(INITIAL, events); var id := s.nextId;
      && Unused(s.trace, id)
      && After(INITIAL, (events + [first]) + (later + [click])).trace
         == s.trace + [Send(id, Payload(id, first.pageTitle, first.action, None))]
  {
    var s := After(INITIAL, events);
    EveryRunIsSound(events);
    AfterSnoc(INITIAL, events, first);
    var attempt := Attempt(first.action.key, s.nextId, Payload(s.nextId, first.pageTitle, first.action, None));
    assert Keeps(Next(s, first), attempt);
    KeptIsSent(Next(s, first), attempt, later, click);
    AfterConcat(INITIAL, events + [first], later + [click]);
  }

  /** And at once if the first click can. */
  lemma PlainIsSentAtOnce(events: seq<Event>, click: Event)
    requires click.Click? && !click.action.detailed && Fresh(After(INITIAL, events), click.action) && Sends(click.api)
    ensures var s := After(INITIAL, events); var id := s.nextId;
      && Unused(s.trace, id)
      && After(INITIAL, events + [click]).trace
         == s.trace + [Send(id, Payload(id, click.pageTitle, click.action, None))]
  {
    EveryRunIsSound(events);
    AfterSnoc(INITIAL, events, click);
  }

  /** The form is open for this action. */
  ghost predicate Collecting(s: PanelState, action: ActionButton) {
    s.form == Some(action) && s.inFlight.None? && s.retry.None?
  }

  lemma {:induction false} FormWaits(s: PanelState, action: ActionButton, events: seq<Event>)
    requires Collecting(s, action) && forall i :: 0 <= i < |events| ==> !events[i].FormDone?
    ensures After(s, events) == s
    decreases |events|
  {
    if events != [] { FormWaits(s, action, events[..|events| - 1]); }
  }

  /**
    A detailed action sends what its form was filled with: the clicked action and exactly that metadata,
    under an identifier never used before, whatever is clicked while the form is open.
  */
  lemma FormIsSent(events: seq<Event>, click: Event, meanwhile: seq<Event>, metadata: Metadata, title: string, api: Api)
    requires click.Click? && click.action.detailed && Fresh(After(INITIAL, events), click.action)
    requires (forall i :: 0 <= i < |meanwhile| ==> !meanwhile[i].FormDone?) && Sends(api)
    ensures var s := After(INITIAL, events); var id := s.nextId;
      && Unused(s.trace, id)
      && After(INITIAL, (events + [click]) + (meanwhile + [FormDone(Filled(metadata), title, api)])).trace
         == s.trace + [Send(id, Payload(id, title, click.action, Some(metadata)))]
  {
    var s, done := After(INITIAL, events), FormDone(Filled(metadata), title, api);
    EveryRunIsSound(events);
    AfterSnoc(INITIAL, events, click);
    FormWaits(Next(s, click), click.action, meanwhile);
    AfterSnoc(Next(s, click), meanwhile, done);
    AfterConcat(INITIAL, events + [click], meanwhile + [done]);
  }

  /** A form that is not filled sends nothing, and leaves no attempt behind. */
  lemma FormIsDropped(events: seq<Event>, click: Event, meanwhile: seq<Event>, done: Event)
    requires click.Click? && click.action.detailed && Fresh(After(INITIAL, events), click.action)
    requires forall i :: 0 <= i < |meanwhile| ==> !meanwhile[i].FormDone?
    requires done.FormDone? && !done.result.Filled?
    ensures var s := After(INITIAL, events); var t := After(INITIAL, (events + [click]) + (meanwhile + [done]));
      t.trace == s.trace && !Busy(t) && t.retry.None?
  {
    var s := After(INITIAL, events);
    AfterSnoc(INITIAL, events, click);
    FormWaits(Next(s, click), click.action, meanwhile);
    AfterSnoc(Next(s, click), meanwhile, done);
    AfterConcat(INITIAL, events + [click], meanwhile + [done]);
  }

  /** While a request is out, nothing but its answer is noticed; the answer is recorded if it accepts, and
      then the attempt is over. */
  lemma AnswerEndsAttempt(events: seq<Event>, meanwhile: seq<Event>, status: nat)
    requires var trace := After(INITIAL, events).trace; trace != [] && trace[|trace| - 1].Send?
    requires forall i :: 0 <= i < |meanwhile| ==> meanwhile[i].Click? || meanwhile[i].FormDone?
    ensures var s := After(INITIAL, events); var id := s.trace[|s.trace| - 1].actionId;
      var t := After(INITIAL, events + (meanwhile + [Load(status)]));
      && t.trace == s.trace + [Response(id, status)] && !Busy(t) && t.retry.None?
      && t.accepted == s.accepted + if 200 <= status < 300 then [id] else []
  {
    var s := After(INITIAL, events);
    EveryRunIsSound(events);
    RequestWaits(s, meanwhile);
    AfterSnoc(s, meanwhile, Load(status));
    AfterConcat(INITIAL, events, meanwhile + [Load(status)]);
  }

  lemma {:induction false} RequestWaits(s: PanelState, events: seq<Event>)
    requires Sound(s) && s.inFlight.Some?
    requires forall i :: 0 <= i < |events| ==> events[i].Click? || events[i].FormDone?
    ensures After(s, events) == s
    decreases |events|
  {
    if events != [] { RequestWaits(s, events[..|events| - 1]); }
  }

  /** The event reaches the point where the token is read. */
  predicate ReadsToken(s: PanelState, event: Event) {
    match event
    case Click(action, _, _) =>
      !Busy(s) && (!action.detailed || (s.retry.Some? && s.retry.value.actionKey == action.key))
    case FormDone(result, _, _) => s.form.Some? && result.Filled?
    case _ => false
  }

  function ApiOf(event: Event): Option<Api> {
    match event
    case Click(_, _, api) => Some(api)
    case FormDone(_, _, api) => Some(api)
    case _ => None
  }

  /** The panel gets stuck exactly when reading the token throws. */
  lemma StuckExactly(s: PanelState, event: Event)
    requires Sound(s) && !s.stuck
    ensures Next(s, event).stuck <==> ReadsToken(s, event) && ApiOf(event).value.token.ReadThrows?
  {}

  lemma StuckStep(s: PanelState, event: Event)
    requires Sound(s) && s.stuck
    ensures Next(s, event) == s
  {}

  /** And then it stays so for good: no event changes anything any more. */
  lemma {:induction false} StuckStays(s: PanelState, events: seq<Event>)
    requires Sound(s) && s.stuck
    ensures After(s, events) == s
  {
    if events != [] {
      StuckStays(s, events[..|events| - 1]);
      StuckStep(s, events[|events| - 1]);
    }
  }

  // ---------------------------------------------------------------- accepted history

  const MAX_HISTORY_ENTRIES := 200
  const MAX_HISTORY_KEY_CHARS := 2048

  datatype Marker = Marker(
    threadKey: string, mediaKey: string, actionId: string, requestedAction: string, acceptedAt: nat)

  /** An element of the stored array: a marker with string keys, or anything else. */
  datatype Stored = Entry(marker: Marker) | Junk

  /** What the script finds in its storage. JSON text may hold an array or any other value. */
  datatype Storage =
    | Unavailable | Throws | Array(items: seq<Stored>) | JsonArray(items: seq<Stored>) | JsonOther | BadJson | Other

  /** The array that is then filtered. JSON text of anything but an array is not one, and filtering it throws. */
  function Found(storage: Storage): Option<seq<Stored>> {
    match storage
    case Array(items) => Some(items)
    case JsonArray(items) => Some(items)
    case JsonOther => None
    case _ => Some([])
  }

  predicate SameAction(a: Marker, b: Marker) {
    a.threadKey == b.threadKey && a.mediaKey == b.mediaKey && a.actionId == b.actionId
  }

  predicate Acceptable(stored: Stored) {
    && stored.Entry? && |stored.marker.threadKey| <= MAX_HISTORY_KEY_CHARS
    && |stored.marker.mediaKey| <= MAX_HISTORY_KEY_CHARS
  }

  /** `slice(-n)`. */
  function Last<T>(s: seq<T>, n: nat): seq<T> { if |s| <= n then s else s[|s| - n..] }

  function Markers(stored: seq<Stored>): seq<Marker> {
    if stored == [] then []
    else (if Acceptable(stored[0]) then [stored[0].marker] else []) + Markers(stored[1..])
  }

  function Others(history: seq<Marker>, marker: Marker): seq<Marker> {
    if history == [] then []
    else (if SameAction(history[0], marker) then [] else [history[0]]) + Others(history[1..], marker)
  }

  lemma MarkersStep(stored: seq<Stored>, i: nat)
    requires i < |stored|
    ensures Markers(stored[i..]) ==
      (if Acceptable(stored[i]) then [stored[i].marker] else []) + Markers(stored[i + 1..])
  {
    assert stored[i..][1..] == stored[i + 1..];
  }

  /** The positions of the stored entries with usable keys, in order and without a gap. */
  ghost predicate Positions(stored: seq<Stored>, at: seq<nat>) {
    && (forall j, k :: 0 <= j < k < |at| ==> at[j] < at[k])
    && (forall i: nat :: i in at <==>
          && i < |stored| && stored[i].Entry?
          && |stored[i].marker.threadKey| <= 2048 && |stored[i].marker.mediaKey| <= 2048)
  }

  /** The history is the newest of them, at most 200. */
  ghost predicate Newest(stored: seq<Stored>, history: seq<Marker>) {
    exists at :: Positions(stored, at) && Reads(stored, at, history)
  }

  ghost predicate Reads(stored: seq<Stored>, at: seq<nat>, history: seq<Marker>)
    requires Positions(stored, at)
  {
    && |history| == (if |at| <= 200 then |at| else 200)
    && forall k :: 0 <= k < |history| ==>
         at[|at| - |history| + k] in at && history[k] == stored[at[|at| - |history| + k]].marker
  }

  /** Filtering keeps every usable entry, in order. */
  lemma {:induction false} MarkersMeaning(stored: seq<Stored>) returns (at: seq<nat>)
    ensures Positions(stored, at) && |at| == |Markers(stored)|
    ensures forall k :: 0 <= k < |at| ==> at[k] in at && Markers(stored)[k] == stored[at[k]].marker
    decreases |stored|
  {
    if stored == [] {
      at := [];
    } else {
      var rest := MarkersMeaning(stored[1..]);
      forall j | 0 <= j < |rest|
        ensures rest[j] < |stored| - 1 && stored[rest[j] + 1].Entry?
        ensures Markers(stored[1..])[j] == stored[rest[j] + 1].marker
      {
        assert rest[j] in rest;
        assert stored[1..][rest[j]] == stored[rest[j] + 1];
      }
      var shifted := seq(|rest|, k requires 0 <= k < |rest| => rest[k] + 1);
      at := (if Acceptable(stored[0]) then [0] else []) + shifted;
      ShiftedPositions(stored, rest, shifted, at);
      forall k | 0 <= k < |at| ensures at[k] in at && Markers(stored)[k] == stored[at[k]].marker {
        assert at[k] in at;
        ShiftedMarker(stored, rest, shifted, k);
      }
    }
  }

  lemma ShiftedMarker(stored: seq<Stored>, rest: seq<nat>, shifted: seq<nat>, k: nat)
    requires stored != [] && |shifted| == |rest| == |Markers(stored[1..])|
    requires forall j :: 0 <= j < |rest| ==>
      && rest[j] < |stored| - 1 && stored[rest[j] + 1].Entry? && shifted[j] == rest[j] + 1
      && Markers(stored[1..])[j] == stored[rest[j] + 1].marker
    requires k < |(if Acceptable(stored[0]) then [0] else []) + shifted|
    ensures var at := (if Acceptable(stored[0]) then [0] else []) + shifted;
      && |Markers(stored)| == |at| && at[k] < |stored| && stored[at[k]].Entry?
      && Markers(stored)[k] == stored[at[k]].marker
  {}

  lemma ShiftedPositions(stored: seq<Stored>, rest: seq<nat>, shifted: seq<nat>, at: seq<nat>)
    requires stored != [] && Positions(stored[1..], rest) && |shifted| == |rest|
    requires forall k :: 0 <= k < |rest| ==> shifted[k] == rest[k] + 1
    requires at == (if Acceptable(stored[0]) then [0] else []) + shifted
    ensures Positions(stored, at)
  {
    forall i: nat
      ensures i in at <==>
        && i < |stored| && stored[i].Entry?
        && |stored[i].marker.threadKey| <= 2048 && |stored[i].marker.mediaKey| <= 2048
    {
      if i > 0 {
        assert i in at <==> i in shifted;
        if i - 1 in rest {
          var k :| 0 <= k < |rest| && rest[k] == i - 1;
          assert shifted[k] == i;
        }
        if i < |stored| { assert stored[1..][i - 1] == stored[i]; }
      } else {
        assert forall k :: 0 <= k < |shifted| ==> shifted[k] != 0;
      }
    }
  }

  lemma LoadedIsNewest(stored: seq<Stored>)
    ensures Newest(stored, Last(Markers(stored), MAX_HISTORY_ENTRIES))
  {
    var at := MarkersMeaning(stored);
    assert Reads(stored, at, Last(Markers(stored), MAX_HISTORY_ENTRIES));
  }

  lemma OthersStep(history: seq<Marker>, marker: Marker, i: nat)
    requires i < |history|
    ensures Others(history[i..], marker) ==
      (if SameAction(history[i], marker) then [] else [history[i]]) + Others(history[i + 1..], marker)
  {
    assert history[i..][1..] == history[i + 1..];
  }

  /** No action occurs twice. */
  ghost predicate Unique(history: seq<Marker>) {
    forall i, j :: 0 <= i < j < |history| ==> !SameAction(history[i], history[j])
  }

  lemma {:induction false} OthersMeaning(history: seq<Marker>, marker: Marker)
    ensures forall m :: m in Others(history, marker) <==> m in history && !SameAction(m, marker)
  {
    if history != [] { OthersMeaning(history[1..], marker); }
  }

  lemma {:induction false} OthersUnique(history: seq<Marker>, marker: Marker)
    requires Unique(history)
    ensures Unique(Others(history, marker))
  {
    if history != [] {
      OthersUnique(history[1..], marker);
      OthersMeaning(history[1..], marker);
      var rest := Others(history[1..], marker);
      forall j | 0 <= j < |rest| ensures !SameAction(history[0], rest[j]) {
        assert rest[j] in history[1..];
        var k :| 0 <= k < |history[1..]| && history[1..][k] == rest[j];
        assert history[k + 1] == rest[j];
      }
    }
  }

  lemma LastUnique(history: seq<Marker>, n: nat)
    requires Unique(history)
    ensures Unique(Last(history, n))
  {}

  lemma AppendUnique(history: seq<Marker>, marker: Marker)
    requires Unique(history) && forall m :: m in history ==> !SameAction(m, marker)
    ensures Unique(history + [marker])
  {}

  /** What recording an action leaves behind. */
  ghost function AfterRecord(history: seq<Marker>, marker: Marker): seq<Marker> {
    Last(Others(history, marker) + [marker], MAX_HISTORY_ENTRIES)
  }

  /** The newest entry is the action just accepted, it occurs once, and no other action comes to
      occur twice. */
  lemma RecordMeaning(history: seq<Marker>, marker: Marker)
    ensures var after := AfterRecord(history, marker);
            && 0 < |after| <= MAX_HISTORY_ENTRIES && after[|after| - 1] == marker
            && (forall i :: 0 <= i < |after| - 1 ==> !SameAction(after[i], marker) && after[i] in history)
            && (Unique(history) ==> Unique(after))
  {
    OthersMeaning(history, marker);
    var others := Others(history, marker);
    var all, after := others + [marker], AfterRecord(history, marker);
    forall i | 0 <= i < |after| - 1 ensures after[i] in others {
      assert after[i] == all[|all| - |after| + i];
    }
    if Unique(history) {
      OthersUnique(history, marker);
      AppendUnique(others, marker);
      LastUnique(all, MAX_HISTORY_ENTRIES);
    }
  }

  // ---------------------------------------------------------------- a session of accepts and clears

  datatype HistoryStep = Accept(marker: Marker) | ClearAll

  ghost function AfterStep(history: seq<Marker>, step: HistoryStep): seq<Marker> {
    if step.Accept? then AfterRecord(history, step.marker) else []
  }

  ghost function AfterSteps(history: seq<Marker>, steps: seq<HistoryStep>): seq<Marker> {
    if steps == [] then history
    else AfterStep(AfterSteps(history, steps[..|steps| - 1]), steps[|steps| - 1])
  }

  /** The action is among the newest `n` entries. */
  ghost predicate Recent(history: seq<Marker>, marker: Marker, n: nat) {
    exists i :: 0 <= i < |history| && |history| - n <= i && SameAction(history[i], marker)
  }

  lemma {:induction false} OthersConcat(a: seq<Marker>, b: seq<Marker>, marker: Marker)
    ensures Others(a + b, marker) == Others(a, marker) + Others(b, marker) && |Others(b, marker)| <= |b|
    decreases |a| + |b|
  {
    if a != [] {
      OthersConcat(a[1..], b, marker);
      assert (a + b)[1..] == a[1..] + b;
      Associate(if SameAction(a[0], marker) then [] else [a[0]], Others(a[1..], marker), Others(b, marker));
    } else {
      assert a + b == b;
      if b != [] { OthersConcat([], b[1..], marker); }
    }
  }

  /** Filtering keeps another action where it was, counted from the end, or brings it closer. */
  lemma OthersKeepsRecent(history: seq<Marker>, recorded: Marker, i: nat)
    requires i < |history| && !SameAction(history[i], recorded)
    ensures var others := Others(history, recorded);
      exists j :: 0 <= j < |others| && |others| - (|history| - i) <= j && others[j] == history[i]
  {
    var front, rest := history[..i], history[i + 1..];
    var others := Others(history, recorded);
    assert history == front + ([history[i]] + rest);
    OthersConcat(front, [history[i]] + rest, recorded);
    assert ([history[i]] + rest)[1..] == rest;
    OthersConcat([], rest, recorded);
    assert others[|Others(front, recorded)|] == history[i];
  }

  lemma RecordKeepsRecent(history: seq<Marker>, recorded: Marker, marker: Marker, n: nat)
    requires Recent(history, marker, n) && n < MAX_HISTORY_ENTRIES
    ensures Recent(AfterRecord(history, recorded), marker, n + 1)
  {
    var i :| 0 <= i < |history| && |history| - n <= i && SameAction(history[i], marker);
    var others, after := Others(history, recorded), AfterRecord(history, recorded);
    if SameAction(history[i], recorded) {
      assert after[|after| - 1] == recorded && SameAction(after[|after| - 1], marker);
    } else {
      OthersKeepsRecent(history, recorded, i);
      var j :| 0 <= j < |others| && |others| - (|history| - i) <= j && others[j] == history[i];
      var k := |after| - (|others| + 1 - j);
      assert after[k] == history[i];
    }
  }

  /** Over any session: at most the newest 200, and no action twice if none was. */
  lemma {:induction false} SessionMeaning(history: seq<Marker>, steps: seq<HistoryStep>)
    requires |history| <= MAX_HISTORY_ENTRIES
    ensures |AfterSteps(history, steps)| <= MAX_HISTORY_ENTRIES
    ensures Unique(history) ==> Unique(AfterSteps(history, steps))
  {
    if steps != [] {
      var before := AfterSteps(history, steps[..|steps| - 1]);
      SessionMeaning(history, steps[..|steps| - 1]);
      if steps[|steps| - 1].Accept? { RecordMeaning(before, steps[|steps| - 1].marker); }
    }
  }

  /** An accepted action stays in the history until it is cleared or 200 further acceptances have come. */
  lemma {:induction false} AcceptedStays(history: seq<Marker>, marker: Marker, later: seq<HistoryStep>)
    requires |later| < MAX_HISTORY_ENTRIES && forall i :: 0 <= i < |later| ==> later[i].Accept?
    ensures Recent(AfterSteps(AfterRecord(history, marker), later), marker, |later| + 1)
  {
    if later == [] {
      RecordMeaning(history, marker);
      var after := AfterRecord(history, marker);
      assert SameAction(after[|after| - 1], marker);
    } else {
      var init := later[..|later| - 1];
      AcceptedStays(history, marker, init);
      RecordKeepsRecent(AfterSteps(AfterRecord(history, marker), init), later[|later| - 1].marker, marker, |later|);
    }
  }

  class AcceptedHistory {
    var entries: Option<seq<Marker>>       // `env.history`, once loaded

    constructor ()
      ensures entries.None?
    {
      entries := None;
    }

    ghost predicate Valid()
      reads this
    {
      entries.Some? ==> |entries.value| <= MAX_HISTORY_ENTRIES
    }

    /** The history as the next use will find it; none if loading it throws. */
    ghost function History(storage: Storage): Option<seq<Marker>>
      reads this
    {
      if entries.Some? then entries
      else if Found(storage).None? then None
      else Some(Last(Markers(Found(storage).value), MAX_HISTORY_ENTRIES))
    }

    static method Acceptables(stored: seq<Stored>) returns (value: seq<Marker>)
      ensures value == Markers(stored)
    {
      value := [];
      for i := 0 to |stored|
        invariant value + Markers(stored[i..]) == Markers(stored)
      {
        MarkersStep(stored, i);
        if Acceptable(stored[i]) { value := value + [stored[i].marker]; }
      }
    }

    /** loadAcceptedHistory; none when it throws, and then nothing is remembered. */
    method Load(storage: Storage) returns (history: Option<seq<Marker>>)
      requires Valid()
      modifies this
      ensures Valid() && history == old(History(storage)) && entries == history
      ensures old(entries).Some? ==> history == old(entries)
      ensures old(entries).None? ==> (history.None? <==> storage.JsonOther?)
      ensures old(entries).None? && (storage.Array? || storage.JsonArray?) ==> Newest(storage.items, history.value)
      ensures old(entries).None? && (storage.BadJson? || storage.Other? || storage.Throws? || storage.Unavailable?) ==>
                history == Some([])
    {
      if storage.Array? || storage.JsonArray? { LoadedIsNewest(storage.items); }
      if entries.None? {
        var found := Found(storage);
        if found.None? { return None; }
        var value := Acceptables(found.value);
        entries := Some(Last(value, MAX_HISTORY_ENTRIES));
      }
      history := entries;
    }

    static method Filter(history: seq<Marker>, marker: Marker) returns (remaining: seq<Marker>)
      ensures remaining == Others(history, marker)
    {
      remaining := [];
      for i := 0 to |history|
        invariant remaining + Others(history[i..], marker) == Others(history, marker)
      {
        OthersStep(history, marker, i);
        if !SameAction(history[i], marker) { remaining := remaining + [history[i]]; }
      }
    }

    /** recordAcceptedAction; false when loading the history throws. */
    method Record(storage: Storage, marker: Marker) returns (recorded: bool)
      requires Valid()
      modifies this
      ensures Valid() && (recorded <==> old(History(storage)).Some?)
      ensures entries == if recorded then Some(AfterRecord(old(History(storage)).value, marker)) else None
    {
      var history := Load(storage);
      if history.None? { return false; }
      var remaining := Filter(history.value, marker);
      RecordMeaning(history.value, marker);
      entries := Some(Last(remaining + [marker], MAX_HISTORY_ENTRIES));
      recorded := true;
    }

    /** clearAcceptedHistory. */
    method Clear()
      modifies this
      ensures Valid() && entries == Some([])
    {
      entries := Some([]);
    }

    /** A session on a loaded history. */
    method Session(storage: Storage, steps: seq<HistoryStep>)
      requires Valid() && entries.Some?
      modifies this
      ensures Valid() && entries == Some(AfterSteps(old(entries).value, steps))
    {
      for i := 0 to |steps|
        invariant Valid() && entries == Some(AfterSteps(old(entries).value, steps[..i]))
      {
        assert steps[..i + 1][..i] == steps[..i];
        match steps[i] {
          case Accept(marker) => var _ := Record(storage, marker);
          case ClearAll => Clear();
        }
      }
      assert steps[..|steps|] == steps;
    }
  }
}
