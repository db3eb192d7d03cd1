/**
 Browser authorization flows: start, cancel, callback and expiry, with the callback suspended while
 the code is exchanged and the credential saved (RFC 6749 section 4.1, RFC 7636 section 4).
 */
module CloudAuthorization {
  import opened Prelude

  const FLOW_TTL_MS: int := 20 * 60 * 1000
  const MAX_FLOWS: nat := 8

  datatype Provider = DigitalOcean | Gcp | Unsupported(name: string)

  datatype Status = Authorizing | Succeeded | Failed | Cancelled | Expired

  datatype Flow = Flow(provider: Provider, state: string, verifier: string, authorizationUrl: string, status: Status,
                       expiresAt: int)

  /**
   `objects` holds every flow object ever created, by id; `flows` are the ids the service still lists.
   A suspended callback keeps its object, listed or not. `accepted` lists the flows a callback was accepted for,
   `saves` those whose credential the store was asked to save, `stored` those whose credential it has.
   */
  datatype Service = Service(configured: set<Provider>, objects: map<string, Flow>, flows: set<string>,
                             stateIndex: map<string, string>, exchanging: set<string>,
                             accepted: seq<string>, saves: seq<string>, stored: seq<string>)

  datatype Outcome = ExchangeFails | SaveFails | Saves

  datatype Event =
    | Start(provider: Provider, id: string, state: string, verifier: string, url: string, now: int, createdAt: int)
    | Query(id: string, now: int)
    | Cancel(id: string, now: int)
    | Callback(provider: Provider, state: string, error: bool, code: bool, now: int)
    | ExchangeEnds(id: string, outcome: Outcome)
    | Close

  datatype Reply =
    | Done | NotSupported | NotConfigured | FlowBusy | FlowLimit | NotFound | StateRequired | InvalidCallback

  function Initial(configured: set<Provider>): Service {
    Service(configured, map[], {}, map[], {}, [], [], [])
  }

  // ---- the transitions

  predicate Lapsed(s: Service, id: string, now: int) {
    id in s.flows && id in s.objects && s.objects[id].expiresAt <= now
  }

  function Erase(flow: Flow, status: Status): Flow {
    flow.(verifier := "", authorizationUrl := "", status := status)
  }

  /** Expires every listed flow whose time is up, and forgets those expired for another full period. */
  function Sweep(s: Service, now: int): Service {
    s.(objects := (map id | id in s.objects ::
                     if Lapsed(s, id, now) then Erase(s.objects[id], Expired) else s.objects[id]),
       flows := (set id | id in s.flows && !(Lapsed(s, id, now) && now - s.objects[id].expiresAt > FLOW_TTL_MS)),
       stateIndex := s.stateIndex - (set id | id in s.flows && Lapsed(s, id, now) :: s.objects[id].state))
  }

  function ActiveIds(s: Service): set<string> {
    set id | id in s.flows && id in s.objects && s.objects[id].status.Authorizing?
  }

  /** What `start` answers once the sweep is done. */
  function Admission(s: Service, provider: Provider): Reply {
    if provider.Unsupported? then NotSupported
    else if provider !in s.configured then NotConfigured
    else if exists id | id in ActiveIds(s) :: s.objects[id].provider == provider then FlowBusy
    else if |ActiveIds(s)| >= MAX_FLOWS then FlowLimit
    else Done
  }

  /** The flow a callback is accepted for, if any. */
  function Match(s: Service, provider: Provider, state: string): Option<string> {
    if state in s.stateIndex && s.stateIndex[state] in s.flows && s.stateIndex[state] in s.objects
       && s.objects[s.stateIndex[state]].state == state && s.objects[s.stateIndex[state]].provider == provider
       && s.objects[s.stateIndex[state]].status.Authorizing?
    then Some(s.stateIndex[state]) else None
  }

  function Accept(s: Service, id: string, error: bool, code: bool): Service
    requires id in s.objects
  {
    var flow := s.objects[id];
    var taken := s.(stateIndex := s.stateIndex - {flow.state}, accepted := s.accepted + [id]);
    if error || !code || flow.provider !in s.configured then
      taken.(objects := s.objects[id := Erase(flow, Failed)])
    else
      taken.(objects := s.objects[id := flow.(authorizationUrl := "")], exchanging := s.exchanging + {id})
  }

  /** A new flow, once admitted. */
  function Admit(s: Service, id: string, flow: Flow): Service {
    s.(objects := s.objects[id := flow], flows := s.flows + {id}, stateIndex := s.stateIndex[flow.state := id])
  }

  function Withdraw(s: Service, id: string): Service
    requires id in s.objects
  {
    var flow := s.objects[id];
    s.(objects := s.objects[id := Erase(flow, if flow.status.Authorizing? then Cancelled else flow.status)],
       stateIndex := s.stateIndex - {flow.state})
  }

  /** The suspended callback resumes: the exchange and the save are over. */
  function Settle(s: Service, id: string, outcome: Outcome): Service
    requires id in s.objects
  {
    var flow := s.objects[id].(verifier := "", status := if outcome.Saves? then Succeeded else Failed);
    s.(objects := s.objects[id := flow], exchanging := s.exchanging - {id},
       saves := if outcome.ExchangeFails? then s.saves else s.saves + [id],
       stored := if outcome.Saves? then s.stored + [id] else s.stored)
  }

  function Shut(s: Service): Service {
    s.(objects := (map id | id in s.objects ::
                     if id in s.flows then s.objects[id].(verifier := "", authorizationUrl := "") else s.objects[id]),
       flows := {}, stateIndex := map[])
  }

  /** `start`, `cancel` and `callback` once the sweep is done. */
  function StartSwept(s: Service, event: Event): Service
    requires event.Start?
  {
    if !Admission(s, event.provider).Done? then s
    else Admit(s, event.id, Flow(event.provider, event.state, event.verifier, event.url, Authorizing,
                                 event.createdAt + FLOW_TTL_MS))
  }

  function CancelSwept(s: Service, id: string): Service {
    if id in s.flows && id in s.objects then Withdraw(s, id) else s
  }

  function CallbackSwept(s: Service, provider: Provider, state: string, error: bool, code: bool): Service {
    if state != "" && Match(s, provider, state).Some? then Accept(s, Match(s, provider, state).value, error, code)
    else s
  }

  function Step(s: Service, event: Event): Service {
    match event
    case Start(_, _, _, _, _, now, _) => StartSwept(Sweep(s, now), event)
    case Query(_, now) => Sweep(s, now)
    case Cancel(id, now) => CancelSwept(Sweep(s, now), id)
    case Callback(provider, state, error, code, now) => CallbackSwept(Sweep(s, now), provider, state, error, code)
    case ExchangeEnds(id, outcome) => if id in s.exchanging && id in s.objects then Settle(s, id, outcome) else s
    case Close => Shut(s)
  }

  function Run(s: Service, events: seq<Event>): Service {
    Fold(Step, s, events)
  }

  // ---- what every run keeps

  /** Random ids, states and verifiers: non-empty, and never seen before. */
  predicate Fresh(s: Service, event: Event) {
    event.Start? ==>
      && event.id !in s.objects && event.state != "" && event.verifier != "" && event.url != ""
      && (forall id | id in s.objects :: s.objects[id].state != event.state)
  }

  predicate FreshRun(s: Service, events: seq<Event>)
    decreases |events|
  {
    events == [] || (FreshRun(s, events[..|events| - 1]) && Fresh(Run(s, events[..|events| - 1]), events[|events| - 1]))
  }

  /** A callback could still be accepted for this flow. */
  predicate Open(s: Service, id: string) {
    id in s.flows && id in s.objects && s.objects[id].status.Authorizing? && id !in s.exchanging
  }

  predicate Distinct(s: Service) {
    && s.flows <= s.objects.Keys && s.exchanging <= s.objects.Keys
    && (forall id | id in s.objects :: s.objects[id].state != "" && !s.objects[id].provider.Unsupported?)
    && (forall a, b | a in s.objects && b in s.objects && s.objects[a].state == s.objects[b].state :: a == b)
  }

  /** The index points exactly to the open flows. */
  ghost predicate IndexExact(s: Service) {
    && (forall state | state in s.stateIndex ::
          Open(s, s.stateIndex[state]) && s.objects[s.stateIndex[state]].state == state)
    && (forall id | Open(s, id) :: s.objects[id].state in s.stateIndex && s.stateIndex[s.objects[id].state] == id)
  }

  /** Secrets live only in flows that are still authorizing. */
  predicate SecretsOnlyWhileAuthorizing(s: Service) {
    forall id | id in s.objects && s.objects[id].verifier != "" :: s.objects[id].status.Authorizing?
  }

  predicate OnePerProvider(s: Service) {
    forall a, b | a in ActiveIds(s) && b in ActiveIds(s) && s.objects[a].provider == s.objects[b].provider :: a == b
  }

  predicate NoRepeats(ids: seq<string>) {
    forall i, j | 0 <= i < j < |ids| :: ids[i] != ids[j]
  }

  /** Accepted flows never open again; credentials are saved for accepted flows, once each. */
  predicate Histories(s: Service) {
    && NoRepeats(s.accepted) && NoRepeats(s.saves)
    && (forall id | id in s.accepted :: id in s.objects && (id in s.exchanging || !s.objects[id].status.Authorizing?))
    && (forall id | id in s.saves :: id in s.accepted)
    && (forall id | id in s.exchanging :: id in s.accepted && id !in s.saves)
  }

  /** `Succeeded` is reported only for credentials the store has; one that it has is `Succeeded` until it expires. */
  predicate StatusTrue(s: Service) {
    && NoRepeats(s.stored) && (forall id | id in s.stored :: id in s.saves && id in s.objects)
    && (forall id | id in s.objects && s.objects[id].status.Succeeded? :: id in s.stored)
    && (forall id | id in s.stored :: s.objects[id].status.Succeeded? || s.objects[id].status.Expired?)
  }

  ghost predicate Inv(s: Service) {
    Distinct(s) && IndexExact(s) && SecretsOnlyWhileAuthorizing(s) && OnePerProvider(s) && Histories(s)
  }

  lemma SweepInv(s: Service, now: int)
    requires Inv(s)
    ensures Inv(Sweep(s, now))
  {
    var after := Sweep(s, now);
    assert forall id :: Open(after, id) <==> Open(s, id) && !Lapsed(s, id, now);
    forall id | Open(after, id)
      ensures after.objects[id].state in after.stateIndex && after.stateIndex[after.objects[id].state] == id
    {
      assert Open(s, id);
    }
  }

  lemma AdmitOpens(s: Service, id: string, flow: Flow, other: string)
    requires Distinct(s) && id !in s.objects && flow.status.Authorizing?
    ensures Open(Admit(s, id, flow), other) <==> Open(s, other) || other == id
  {
  }

  lemma AdmitIndex(s: Service, id: string, flow: Flow)
    requires Distinct(s) && IndexExact(s) && id !in s.objects
    requires flow.status.Authorizing? && flow.state != "" && !flow.provider.Unsupported?
    requires forall other | other in s.objects :: s.objects[other].state != flow.state
    ensures Distinct(Admit(s, id, flow)) && IndexExact(Admit(s, id, flow))
  {
    var after := Admit(s, id, flow);
    assert flow.state !in s.stateIndex;
    forall other ensures Open(after, other) <==> Open(s, other) || other == id {
      AdmitOpens(s, id, flow, other);
    }
  }

  lemma AdmitInv(s: Service, id: string, flow: Flow)
    requires Inv(s) && id !in s.objects && flow.status.Authorizing? && flow.state != "" && !flow.provider.Unsupported?
    requires forall other | other in s.objects :: s.objects[other].state != flow.state
    requires forall other | other in ActiveIds(s) :: s.objects[other].provider != flow.provider
    ensures Inv(Admit(s, id, flow))
  {
    AdmitIndex(s, id, flow);
    assert ActiveIds(Admit(s, id, flow)) == ActiveIds(s) + {id};
  }

  /** Taking one flow out of the index, and making sure it is no longer open, keeps the index exact. */
  lemma IndexWithout(s: Service, after: Service, id: string)
    requires Distinct(s) && IndexExact(s) && id in s.objects && id in after.objects && !Open(after, id)
    requires after.flows == s.flows && after.stateIndex == s.stateIndex - {s.objects[id].state}
    requires after.objects == s.objects[id := after.objects[id]] && after.exchanging - {id} == s.exchanging - {id}
    requires after.objects[id].state == s.objects[id].state && after.objects[id].provider == s.objects[id].provider
    ensures Distinct(after) && IndexExact(after)
  {
    assert forall other | other in s.objects :: after.objects[other].state == s.objects[other].state;
    assert forall other | other != id :: other in after.exchanging <==> other in s.exchanging - {id};
    assert forall other :: Open(after, other) <==> Open(s, other) && other != id;
  }

  lemma FewerActive(s: Service, after: Service)
    requires OnePerProvider(s) && s.objects.Keys <= after.objects.Keys && ActiveIds(after) <= ActiveIds(s)
    requires forall id | id in s.objects :: after.objects[id].provider == s.objects[id].provider
    ensures OnePerProvider(after)
  {
  }

  lemma AcceptInv(s: Service, id: string, error: bool, code: bool)
    requires Inv(s) && Open(s, id)
    ensures Inv(Accept(s, id, error, code))
  {
    var after := Accept(s, id, error, code);
    IndexWithout(s, after, id);
    FewerActive(s, after);
    assert id !in s.accepted && id !in s.saves;
  }

  lemma WithdrawInv(s: Service, id: string)
    requires Inv(s) && id in s.flows
    ensures Inv(Withdraw(s, id))
  {
    var after := Withdraw(s, id);
    IndexWithout(s, after, id);
    FewerActive(s, after);
  }

  lemma SettleHistories(s: Service, id: string, outcome: Outcome)
    requires Distinct(s) && Histories(s) && id in s.exchanging
    ensures Histories(Settle(s, id, outcome))
  {
  }

  lemma SettleInv(s: Service, id: string, outcome: Outcome)
    requires Inv(s) && id in s.exchanging
    ensures Inv(Settle(s, id, outcome))
  {
    var after := Settle(s, id, outcome);
    assert s.objects[id].state !in s.stateIndex;
    IndexWithout(s, after, id);
    FewerActive(s, after);
    SettleHistories(s, id, outcome);
  }

  lemma ShutInv(s: Service)
    requires Inv(s)
    ensures Inv(Shut(s))
  {
    assert ActiveIds(Shut(s)) == {};
  }

  lemma StartInv(s: Service, event: Event)
    requires Inv(s) && event.Start? && Fresh(s, event)
    ensures Inv(StartSwept(s, event))
  {
    if Admission(s, event.provider).Done? {
      var flow :=
        Flow(event.provider, event.state, event.verifier, event.url, Authorizing, event.createdAt + FLOW_TTL_MS);
      AdmitInv(s, event.id, flow);
      assert StartSwept(s, event) == Admit(s, event.id, flow);
    } else {
      assert StartSwept(s, event) == s;
    }
  }

  lemma StepInv(s: Service, event: Event)
    requires Inv(s) && Fresh(s, event)
    ensures Inv(Step(s, event))
  {
    match event
    case Start(_, _, _, _, _, now, _) =>
      SweepInv(s, now);
      StartInv(Sweep(s, now), event);
    case Query(_, now) => SweepInv(s, now);
    case Cancel(id, now) =>
      SweepInv(s, now);
      if id in Sweep(s, now).flows {
        WithdrawInv(Sweep(s, now), id);
      }
    case Callback(provider, state, error, code, now) =>
      SweepInv(s, now);
      var matched := Match(Sweep(s, now), provider, state);
      if matched.Some? {
        AcceptInv(Sweep(s, now), matched.value, error, code);
      }
    case ExchangeEnds(id, outcome) =>
      if id in s.exchanging {
        SettleInv(s, id, outcome);
      }
    case Close => ShutInv(s);
  }

  // ---- what is reported of a flow

  predicate Refused(s: Service, event: Event, id: string)
    requires id in s.objects
  {
    event.Callback? && (event.error || !event.code || s.objects[id].provider !in s.configured)
  }

  /** The times at which a call looks at the clock. */
  function ClockOf(event: Event): Option<int> {
    match event
    case Start(_, _, _, _, _, now, _) => Some(now)
    case Query(_, now) => Some(now)
    case Cancel(_, now) => Some(now)
    case Callback(_, _, _, _, now) => Some(now)
    case _ => None
  }

  lemma StatusAfterSweep(s: Service, now: int, id: string)
    requires id in s.objects
    ensures Sweep(s, now).objects[id].status
         == if id in s.flows && s.objects[id].expiresAt <= now then Expired else s.objects[id].status
  {
  }

  lemma StatusAfterCallback(s: Service, event: Event, id: string)
    requires Inv(s) && event.Callback? && id in s.objects
    ensures id in Step(s, event).objects
    ensures Step(s, event).objects[id].status
         == if id in s.flows && s.objects[id].expiresAt <= event.now then Expired
            else if Refused(s, event, id) && Open(s, id) && event.state == s.objects[id].state
                    && event.provider == s.objects[id].provider then Failed
            else s.objects[id].status
  {
    var swept := Sweep(s, event.now);
    SweepInv(s, event.now);
    StatusAfterSweep(s, event.now, id);
    MatchedExactlyWhenOpen(swept, event.provider, event.state, id);
    assert Open(swept, id) <==> Open(s, id) && s.objects[id].expiresAt > event.now;
  }

  lemma StatusAfterCancel(s: Service, event: Event, id: string)
    requires event.Cancel? && id in s.objects
    ensures id in Step(s, event).objects
    ensures Step(s, event).objects[id].status
         == if id in s.flows && s.objects[id].expiresAt <= event.now then Expired
            else if event.id == id && id in s.flows && s.objects[id].status.Authorizing? then Cancelled
            else s.objects[id].status
  {
    StatusAfterSweep(s, event.now, id);
  }

  /**
   How the status of a flow changes, call by call: it expires when a call finds its time up, a cancel withdraws it
   while it is authorizing, a callback for it that brings no usable code fails it, and an exchange that ends makes
   it succeed exactly when the store has the credential, and fail otherwise. Nothing else changes it.
   */
  lemma StatusAfter(s: Service, event: Event, id: string)
    requires Inv(s) && Fresh(s, event) && id in s.objects
    ensures var before, after := s.objects[id], Step(s, event);
            && id in after.objects
            && after.objects[id].status
               == if ClockOf(event).Some? && id in s.flows && before.expiresAt <= ClockOf(event).value then Expired
                  else if event.Cancel? && event.id == id && id in s.flows && before.status.Authorizing? then Cancelled
                  else if Refused(s, event, id) && Open(s, id) && event.state == before.state
                          && event.provider == before.provider then Failed
                  else if event.ExchangeEnds? && event.id == id && id in s.exchanging then
                    if event.outcome == Saves then Succeeded else Failed
                  else before.status
  {
    match event
    case Start(_, _, _, _, _, now, _) =>
      StatusAfterSweep(s, now, id);
      assert Step(s, event).objects[id] == Sweep(s, now).objects[id];
    case Query(_, now) => StatusAfterSweep(s, now, id);
    case Cancel(_, _) => StatusAfterCancel(s, event, id);
    case Callback(_, _, _, _, _) => StatusAfterCallback(s, event, id);
    case ExchangeEnds(_, _) =>
    case Close =>
  }

  lemma StoredIsTold(s: Service, event: Event, id: string)
    requires Inv(s) && StatusTrue(s) && Fresh(s, event) && id in s.stored
    ensures var after := Step(s, event);
            id in after.objects && (after.objects[id].status.Succeeded? || after.objects[id].status.Expired?)
  {
    StatusAfter(s, event, id);
  }

  lemma SucceedsOnly(s: Service, event: Event, id: string)
    requires Inv(s) && Fresh(s, event) && id in Step(s, event).objects && Step(s, event).objects[id].status.Succeeded?
    ensures id in s.objects
    ensures s.objects[id].status.Succeeded? || (event == ExchangeEnds(id, Saves) && id in s.exchanging)
  {
    if id in s.objects {
      StatusAfter(s, event, id);
    }
  }

  lemma ToldIsStored(s: Service, event: Event, id: string)
    requires Inv(s) && StatusTrue(s) && Fresh(s, event) && id in Step(s, event).objects
    requires Step(s, event).objects[id].status.Succeeded?
    ensures id in Step(s, event).stored
  {
    SucceedsOnly(s, event, id);
    StoredAfter(s, event);
  }

  lemma NewlyStored(s: Service, event: Event)
    requires Inv(s) && StatusTrue(s) && Fresh(s, event)
    ensures var after := Step(s, event);
            NoRepeats(after.stored) && forall id | id in after.stored :: id in after.saves
  {
    StoredAfter(s, event);
  }

  lemma StepStatusTrue(s: Service, event: Event)
    requires Inv(s) && StatusTrue(s) && Fresh(s, event)
    ensures StatusTrue(Step(s, event))
  {
    var after := Step(s, event);
    NewlyStored(s, event);
    StoredAfter(s, event);
    forall id | id in s.stored
      ensures id in after.objects && (after.objects[id].status.Succeeded? || after.objects[id].status.Expired?)
    {
      StoredIsTold(s, event, id);
    }
    forall id | id in after.objects && after.objects[id].status.Succeeded? ensures id in after.stored {
      ToldIsStored(s, event, id);
    }
    if after.stored != s.stored {
      StatusAfter(s, event, event.id);
    }
  }

  lemma StoredAfter(s: Service, event: Event)
    ensures Step(s, event).stored
         == if event.ExchangeEnds? && event.id in s.exchanging && event.id in s.objects && event.outcome == Saves
            then s.stored + [event.id] else s.stored
    ensures s.saves <= Step(s, event).saves
    ensures Step(s, event).stored != s.stored ==> event.id in Step(s, event).saves
  {
  }

  /** The store has the credential of a flow whose exchange ends exactly when exchange and save have worked. */
  lemma StoredExactlyWhenSaved(s: Service, id: string, outcome: Outcome)
    requires Inv(s) && StatusTrue(s) && id in s.exchanging
    ensures var after := Step(s, ExchangeEnds(id, outcome));
            && (id in after.saves <==> outcome != ExchangeFails)
            && (id in after.stored <==> outcome == Saves)
            && (after.objects[id].status == Succeeded <==> outcome == Saves)
            && (after.objects[id].status == Failed <==> outcome != Saves)
  {
    assert id !in s.stored;
  }

  /** A flow just started is authorizing. */
  lemma StartsAuthorizing(s: Service, event: Event)
    requires event.Start? && Fresh(s, event) && event.id in Step(s, event).objects
    ensures Step(s, event).objects[event.id]
         == Flow(event.provider, event.state, event.verifier, event.url, Authorizing, event.createdAt + 1200000)
  {
  }

  /** A callback that is accepted for this flow. */
  predicate AcceptedFor(s: Service, event: Event, id: string) {
    && event.Callback? && Open(s, id) && s.objects[id].expiresAt > event.now
    && event.state == s.objects[id].state && event.provider == s.objects[id].provider
  }

  lemma ExchangingAfterCallback(s: Service, event: Event, id: string)
    requires Inv(s) && event.Callback?
    ensures id in Step(s, event).exchanging
       <==> id in s.exchanging
            || (AcceptedFor(s, event, id) && !event.error && event.code && event.provider in s.configured)
  {
    var swept := Sweep(s, event.now);
    SweepInv(s, event.now);
    MatchedExactlyWhenOpen(swept, event.provider, event.state, id);
    assert Open(swept, id) <==> Open(s, id) && s.objects[id].expiresAt > event.now;
  }

  /** An exchange runs from an accepted callback with a code, for a configured provider, until it ends. */
  lemma ExchangingAfter(s: Service, event: Event, id: string)
    requires Inv(s) && Fresh(s, event)
    ensures id in Step(s, event).exchanging
       <==> (id in s.exchanging && !(event.ExchangeEnds? && event.id == id))
            || (AcceptedFor(s, event, id) && !event.error && event.code && event.provider in s.configured)
  {
    if event.Callback? {
      ExchangingAfterCallback(s, event, id);
    }
  }

  lemma ListedAfterSweep(s: Service, now: int, id: string)
    requires s.flows <= s.objects.Keys && id in s.objects
    ensures id in Sweep(s, now).flows <==> id in s.flows && now - s.objects[id].expiresAt <= 1_200_000
  {
  }

  lemma OnlyStartLists(s: Service, event: Event, id: string)
    requires Fresh(s, event) && id in s.objects
    ensures id in Step(s, event).flows
       <==> event != Close && id in if ClockOf(event).Some? then Sweep(s, ClockOf(event).value).flows else s.flows
  {
  }

  /** A flow stays listed until it has been expired for twenty minutes, or the service is closed. */
  lemma ListedAfter(s: Service, event: Event, id: string)
    requires Inv(s) && Fresh(s, event) && id in s.objects
    ensures id in Step(s, event).flows
       <==> id in s.flows && event != Close
            && (ClockOf(event).Some? ==> ClockOf(event).value - s.objects[id].expiresAt <= 1_200_000)
  {
    OnlyStartLists(s, event, id);
    if ClockOf(event).Some? {
      ListedAfterSweep(s, ClockOf(event).value, id);
    }
  }

  /** A flow keeps its provider, state and time limit, and its verifier and link exactly as long as it may need them. */
  predicate KeepsSecrets(before: Flow, after: Flow, exchanging: bool) {
    && after.provider == before.provider && after.state == before.state && after.expiresAt == before.expiresAt
    && after.verifier == (if after.status.Authorizing? then before.verifier else "")
    && after.authorizationUrl
       == (if after.status.Authorizing? && !exchanging then before.authorizationUrl else "")
  }

  lemma SweepKeepsSecrets(s: Service, now: int, id: string)
    requires Inv(s) && LinksOnlyUntilCallback(s) && id in s.objects
    ensures KeepsSecrets(s.objects[id], Sweep(s, now).objects[id], id in s.exchanging)
    ensures LinksOnlyUntilCallback(Sweep(s, now))
  {
  }

  lemma AcceptKeepsSecrets(s: Service, accepted: string, error: bool, code: bool, id: string)
    requires Inv(s) && LinksOnlyUntilCallback(s) && id in s.objects && Open(s, accepted)
    ensures var after := Accept(s, accepted, error, code);
            && id in after.objects && KeepsSecrets(s.objects[id], after.objects[id], id in after.exchanging)
            && (id in s.exchanging ==> id in after.exchanging)
            && (after.objects[id].status.Authorizing? ==> s.objects[id].status.Authorizing?)
  {
  }

  lemma CallbackKeepsSecrets(s: Service, event: Event, id: string)
    requires Inv(s) && LinksOnlyUntilCallback(s) && id in s.objects && event.Callback?
    ensures var after := CallbackSwept(s, event.provider, event.state, event.error, event.code);
            && id in after.objects && KeepsSecrets(s.objects[id], after.objects[id], id in after.exchanging)
            && (id in s.exchanging ==> id in after.exchanging)
            && (after.objects[id].status.Authorizing? ==> s.objects[id].status.Authorizing?)
  {
    var matched := Match(s, event.provider, event.state);
    if event.state != "" && matched.Some? {
      MatchedExactlyWhenOpen(s, event.provider, event.state, matched.value);
      AcceptKeepsSecrets(s, matched.value, event.error, event.code, id);
    }
  }

  lemma StartKeepsSecrets(s: Service, event: Event, id: string)
    requires Inv(s) && LinksOnlyUntilCallback(s) && Fresh(s, event) && id in s.objects && event.Start?
    ensures var after := Step(s, event);
            id in after.objects && KeepsSecrets(s.objects[id], after.objects[id], id in after.exchanging)
  {
    SweepKeepsSecrets(s, event.now, id);
    assert Step(s, event).objects[id] == Sweep(s, event.now).objects[id];
  }

  lemma CancelKeepsSecrets(s: Service, event: Event, id: string)
    requires Inv(s) && LinksOnlyUntilCallback(s) && id in s.objects && event.Cancel?
    ensures var after := Step(s, event);
            id in after.objects && KeepsSecrets(s.objects[id], after.objects[id], id in after.exchanging)
  {
    SweepKeepsSecrets(s, event.now, id);
    assert event.id != id ==> Step(s, event).objects[id] == Sweep(s, event.now).objects[id];
  }

  lemma ExchangeKeepsSecrets(s: Service, event: Event, id: string)
    requires Inv(s) && LinksOnlyUntilCallback(s) && id in s.objects && event.ExchangeEnds?
    ensures var after := Step(s, event);
            id in after.objects && KeepsSecrets(s.objects[id], after.objects[id], id in after.exchanging)
  {
  }

  /**
   The verifier of a flow is there as long as it is authorizing, its link as long as no callback was accepted
   besides; after that, and when a listed flow is closed, they are gone.
   */
  lemma SecretsAfter(s: Service, event: Event, id: string)
    requires Inv(s) && LinksOnlyUntilCallback(s) && Fresh(s, event) && id in s.objects
    ensures var after := Step(s, event);
            && id in after.objects
            && if event.Close? && id in s.flows then
                 after.objects[id] == s.objects[id].(verifier := "", authorizationUrl := "")
               else KeepsSecrets(s.objects[id], after.objects[id], id in after.exchanging)
  {
    match event
    case Start(_, _, _, _, _, _, _) => StartKeepsSecrets(s, event, id);
    case Query(_, now) => SweepKeepsSecrets(s, now, id);
    case Cancel(_, _) => CancelKeepsSecrets(s, event, id);
    case Callback(_, _, _, _, now) =>
      SweepInv(s, now);
      SweepKeepsSecrets(s, now, id);
      CallbackKeepsSecrets(Sweep(s, now), event, id);
    case ExchangeEnds(_, _) => ExchangeKeepsSecrets(s, event, id);
    case Close =>
  }

  /** In every reachable service a flow that is reported as succeeded has its credential in the store. */
  lemma SucceededIsStored(configured: set<Provider>, events: seq<Event>, id: string)
    requires FreshRun(Initial(configured), events)
    ensures var s := Run(Initial(configured), events);
            id in s.objects && s.objects[id].status == Succeeded ==> id in s.stored
  {
    RunStatusTrue(configured, events);
  }

  lemma {:induction false} RunStatusTrue(configured: set<Provider>, events: seq<Event>)
    requires FreshRun(Initial(configured), events)
    ensures StatusTrue(Run(Initial(configured), events))
  {
    if events != [] {
      var init := events[..|events| - 1];
      RunStatusTrue(configured, init);
      RunInv(configured, init);
      StepStatusTrue(Run(Initial(configured), init), events[|events| - 1]);
    }
  }

  /** Every run keeps the invariant. */
  lemma {:induction false} RunInv(configured: set<Provider>, events: seq<Event>)
    requires FreshRun(Initial(configured), events)
    ensures Inv(Run(Initial(configured), events))
  {
    if events != [] {
      RunInv(configured, events[..|events| - 1]);
      StepInv(Run(Initial(configured), events[..|events| - 1]), events[|events| - 1]);
    }
  }

  /** The link to the provider is shown only until the callback, a cancel or expiry. */
  predicate LinksOnlyUntilCallback(s: Service) {
    forall id | id in s.objects && s.objects[id].authorizationUrl != "" ::
      s.objects[id].status.Authorizing? && id !in s.exchanging
  }

  lemma SweepLinks(s: Service, now: int)
    requires LinksOnlyUntilCallback(s)
    ensures LinksOnlyUntilCallback(Sweep(s, now))
  {
  }

  lemma StepLinks(s: Service, event: Event)
    requires s.exchanging <= s.objects.Keys && LinksOnlyUntilCallback(s) && Fresh(s, event)
    ensures Step(s, event).exchanging <= Step(s, event).objects.Keys && LinksOnlyUntilCallback(Step(s, event))
  {
    if ClockOf(event).Some? {
      SweepLinks(s, ClockOf(event).value);
    }
  }

  lemma {:induction false} RunLinks(configured: set<Provider>, events: seq<Event>)
    requires FreshRun(Initial(configured), events)
    ensures var s := Run(Initial(configured), events);
            s.exchanging <= s.objects.Keys && LinksOnlyUntilCallback(s)
  {
    if events != [] {
      RunLinks(configured, events[..|events| - 1]);
      StepLinks(Run(Initial(configured), events[..|events| - 1]), events[|events| - 1]);
    }
  }

  // ---- consequences

  ghost function Of(s: Service, provider: Provider): set<string> {
    set id | id in ActiveIds(s) && s.objects[id].provider == provider
  }

  lemma AtMostOne(s: Service, provider: Provider)
    requires OnePerProvider(s)
    ensures |Of(s, provider)| <= 1
  {
    if Of(s, provider) != {} {
      var id :| id in Of(s, provider);
      assert Of(s, provider) == {id};
    }
  }

  lemma AtMostTwoActive(s: Service)
    requires OnePerProvider(s) && forall id | id in s.objects :: !s.objects[id].provider.Unsupported?
    ensures |ActiveIds(s)| <= 2
  {
    AtMostOne(s, DigitalOcean);
    AtMostOne(s, Gcp);
    assert ActiveIds(s) == Of(s, DigitalOcean) + Of(s, Gcp);
  }

  /** With two providers the limit of eight authorizing flows is out of reach. */
  lemma LimitIsNeverReached(s: Service, provider: Provider)
    requires Inv(s)
    ensures |ActiveIds(s)| <= 2 && !Admission(s, provider).FlowLimit?
  {
    AtMostTwoActive(s);
  }

  /** A provider can be started exactly when it is set up and no flow of it is authorizing within its time. */
  lemma AdmittedExactlyWhenFree(s: Service, event: Event)
    requires Inv(s) && event.Start? && Fresh(s, event)
    ensures event.id in Step(s, event).flows
       <==> !event.provider.Unsupported? && event.provider in s.configured
            && (forall id | id in ActiveIds(s) && s.objects[id].provider == event.provider ::
                  s.objects[id].expiresAt <= event.now)
  {
    var swept := Sweep(s, event.now);
    SweepInv(s, event.now);
    LimitIsNeverReached(swept, event.provider);
    StillActive(s, event.now);
  }

  /** What a start is told: what is wrong with the provider, that a flow of it is authorizing, or that it is done. */
  lemma AdmissionAnswers(s: Service, provider: Provider)
    requires Inv(s)
    ensures Admission(s, provider)
         == if provider != DigitalOcean && provider != Gcp then NotSupported
            else if provider !in s.configured then NotConfigured
            else if exists id :: id in ActiveIds(s) && s.objects[id].provider == provider then FlowBusy else Done
  {
    LimitIsNeverReached(s, provider);
  }

  lemma RefusalTellsWhy(s: Service, provider: Provider)
    requires Inv(s)
    ensures var reply := Admission(s, provider);
            !reply.FlowLimit?
            && (reply == Done || reply == if provider != DigitalOcean && provider != Gcp then NotSupported
                                          else if provider !in s.configured then NotConfigured else FlowBusy)
  {
    AdmissionAnswers(s, provider);
  }

  lemma StillActive(s: Service, now: int)
    requires Distinct(s)
    ensures forall id :: id in ActiveIds(Sweep(s, now)) <==> id in ActiveIds(s) && s.objects[id].expiresAt > now
  {
  }

  /** The index finds a flow exactly when it is open under that state and provider. */
  lemma MatchedExactlyWhenOpen(s: Service, provider: Provider, state: string, id: string)
    requires Distinct(s) && IndexExact(s)
    ensures state != "" && Match(s, provider, state) == Some(id)
       <==> Open(s, id) && s.objects[id].state == state && s.objects[id].provider == provider
  {
  }

  lemma AcceptedIsMatched(s: Service, provider: Provider, state: string, error: bool, code: bool, id: string)
    ensures CallbackSwept(s, provider, state, error, code).accepted == s.accepted + [id]
       <==> state != "" && Match(s, provider, state) == Some(id)
  {
    var after := CallbackSwept(s, provider, state, error, code);
    if after.accepted == s.accepted + [id] {
      assert after.accepted[|s.accepted|] == id;
    }
  }

  /** A callback is accepted exactly for an open, unexpired flow of its provider and state. */
  lemma AcceptedExactlyWhenOpen(s: Service, provider: Provider, state: string, error: bool, code: bool, now: int,
                                id: string)
    requires Inv(s)
    ensures Step(s, Callback(provider, state, error, code, now)).accepted == s.accepted + [id]
       <==> Open(s, id) && s.objects[id].state == state && s.objects[id].provider == provider
            && s.objects[id].expiresAt > now
  {
    var swept := Sweep(s, now);
    SweepInv(s, now);
    MatchedExactlyWhenOpen(swept, provider, state, id);
    AcceptedIsMatched(swept, provider, state, error, code, id);
    assert Open(swept, id) <==> Open(s, id) && s.objects[id].expiresAt > now;
  }

  lemma ClosedStepStaysClosed(s: Service, event: Event, id: string)
    requires id in s.objects && !s.objects[id].status.Authorizing? && Fresh(s, event)
    ensures var after := Step(s, event);
            && id in after.objects && !after.objects[id].status.Authorizing?
            && (after.accepted == s.accepted || exists other :: other != id && after.accepted == s.accepted + [other])
  {
  }

  /** For a flow that was cancelled, has failed or expired, no callback of any later run is accepted. */
  lemma {:induction false} ClosedFlowsStayClosed(s: Service, events: seq<Event>, id: string)
    requires id in s.objects && !s.objects[id].status.Authorizing? && FreshRun(s, events)
    ensures var after := Run(s, events);
            && id in after.objects && !after.objects[id].status.Authorizing?
            && s.accepted <= after.accepted && id !in after.accepted[|s.accepted|..]
  {
    if events != [] {
      ClosedFlowsStayClosed(s, events[..|events| - 1], id);
      ClosedStepStaysClosed(Run(s, events[..|events| - 1]), events[|events| - 1], id);
    }
  }

  // ---- which flows can still be saved

  /** The exchange of this flow is running, or a callback may still start one. */
  predicate Savable(s: Service, id: string)
    requires id in s.objects
  {
    id in s.exchanging || (Open(s, id) && s.objects[id].provider in s.configured)
  }

  lemma HopelessStep(s: Service, event: Event, id: string)
    requires id in s.objects && !Savable(s, id) && Fresh(s, event)
    ensures var after := Step(s, event);
            && id in after.objects && !Savable(after, id)
            && s.saves <= after.saves && id !in after.saves[|s.saves|..]
  {
  }

  /** Once no exchange of a flow runs and no callback may start one, it is never saved in any later run. */
  lemma {:induction false} HopelessIsNeverSaved(s: Service, events: seq<Event>, id: string)
    requires id in s.objects && !Savable(s, id) && FreshRun(s, events)
    ensures var after := Run(s, events);
            && id in after.objects && !Savable(after, id)
            && s.saves <= after.saves && id !in after.saves[|s.saves|..]
  {
    if events != [] {
      HopelessIsNeverSaved(s, events[..|events| - 1], id);
      HopelessStep(Run(s, events[..|events| - 1]), events[|events| - 1], id);
    }
  }

  lemma RunOne(s: Service, event: Event)
    ensures Run(s, [event]) == Step(s, event) && (FreshRun(s, [event]) <==> Fresh(s, event))
  {
    FoldOne(Step, s, event);
    assert [event][..0] == [];
  }

  lemma RunTwo(s: Service, a: Event, b: Event)
    ensures Run(s, [a] + [b]) == Step(Step(s, a), b)
    ensures FreshRun(s, [a] + [b]) <==> Fresh(s, a) && Fresh(Step(s, a), b)
  {
    RunOne(s, a);
    FoldConcat(Step, s, [a], [b]);
    FoldOne(Step, Step(s, a), b);
    assert ([a] + [b])[..1] == [a];
  }

  lemma SaveComes(s: Service, id: string) returns (events: seq<Event>)
    requires Inv(s) && id in s.objects && Savable(s, id)
    ensures FreshRun(s, events) && Run(s, events).saves == s.saves + [id] && id in Run(s, events).stored
  {
    var flow, save := s.objects[id], ExchangeEnds(id, Saves);
    var callback := Callback(flow.provider, flow.state, false, true, flow.expiresAt - 1);
    if id in s.exchanging {
      RunOne(s, save);
      return [save];
    }
    RunTwo(s, callback, save);
    SweepInv(s, callback.now);
    assert Open(Sweep(s, callback.now), id);
    MatchedExactlyWhenOpen(Sweep(s, callback.now), flow.provider, flow.state, id);
    events := [callback] + [save];
  }

  ghost predicate SavedLater(s: Service, id: string) {
    exists events ::
      && FreshRun(s, events) && s.saves <= Run(s, events).saves
      && id in Run(s, events).saves[|s.saves|..] && id in Run(s, events).stored
  }

  /** Some continuation saves a credential for a flow exactly when it is savable. */
  lemma SavedLaterExactlyWhenSavable(s: Service, id: string)
    requires Inv(s) && id in s.objects
    ensures SavedLater(s, id) <==> Savable(s, id)
  {
    if Savable(s, id) {
      var events := SaveComes(s, id);
      assert Run(s, events).saves[|s.saves|..] == [id];
    } else {
      forall events | FreshRun(s, events)
        ensures s.saves <= Run(s, events).saves && id !in Run(s, events).saves[|s.saves|..]
      {
        HopelessIsNeverSaved(s, events, id);
      }
    }
  }

  /** A cancel stops the credential of a flow from being saved exactly when its code is not being exchanged. */
  lemma CancelStopsExactlyWithoutExchange(s: Service, id: string, now: int)
    requires Inv(s) && id in s.objects
    ensures !SavedLater(Step(s, Cancel(id, now)), id) <==> id !in s.exchanging
  {
    var cancelled := Step(s, Cancel(id, now));
    StepInv(s, Cancel(id, now));
    SavedLaterExactlyWhenSavable(cancelled, id);
    assert cancelled.exchanging == s.exchanging && id in cancelled.objects && !Open(cancelled, id);
  }

  /** A start and its callback: the code is being exchanged. */
  function Exchanging(configured: set<Provider>, id: string, state: string): Service {
    var started := Step(Initial(configured), Start(Gcp, id, state, "verifier", "url", 0, 0));
    Step(started, Callback(Gcp, state, false, true, 1))
  }

  lemma ExchangingIsReachable(configured: set<Provider>, id: string, state: string) returns (events: seq<Event>)
    requires Gcp in configured && state != ""
    ensures FreshRun(Initial(configured), events)
    ensures Exchanging(configured, id, state) == Run(Initial(configured), events)
    ensures Inv(Exchanging(configured, id, state)) && id in Exchanging(configured, id, state).exchanging
  {
    var start, callback := Start(Gcp, id, state, "verifier", "url", 0, 0), Callback(Gcp, state, false, true, 1);
    events := [start] + [callback];
    RunTwo(Initial(configured), start, callback);
    RunInv(configured, events);
    var started := Step(Initial(configured), start);
    assert Open(started, id) && started.objects[id].expiresAt == FLOW_TTL_MS;
  }

  /** A cancel during the exchange: the credential is saved all the same. */
  lemma CancelDoesNotStopTheExchange(configured: set<Provider>, id: string, state: string)
    requires Gcp in configured && state != ""
    ensures var after := Step(Step(Exchanging(configured, id, state), Cancel(id, 2)), ExchangeEnds(id, Saves));
            after.saves == [id] && id in after.objects && after.objects[id].status == Succeeded
  {
    var events := ExchangingIsReachable(configured, id, state);
    var s := Exchanging(configured, id, state);
    var cancelled := Step(s, Cancel(id, 2));
    assert id in cancelled.exchanging && cancelled.saves == s.saves;
  }
}
