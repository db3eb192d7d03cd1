/** Commands that wait for a reply arriving on another channel: who settles a waiter, and how often. */
module RpcClient {
  import opened Prelude

  datatype Outcome = Resolved | Refused | TimedOut | FetchFailed | Cancelled

  /** What has become of the call itself: the request is out, it returned the waiter, or it threw. */
  datatype Call = Fetching | Returned | Thrown

  /**
   `waiters` are the commands issued with a waiter, `outcomes` everything ever done to each, `timers` the
   timers that can still fire.
   */
  datatype Client = Client(sequence: nat, waiters: set<nat>, pending: set<nat>, timers: set<nat>,
                           outcomes: map<nat, seq<Outcome>>, calls: map<nat, Call>)

  datatype Event =
    | Issue(wait: bool)
    | Acknowledged(id: nat)
    | RequestFails(id: nat)
    | Response(id: nat, success: bool)
    | TimerFires(id: nat)
    | Cancel

  const NEW: Client := Client(0, {}, {}, {}, map[], map[])

  function OutcomesOf(outcomes: map<nat, seq<Outcome>>, id: nat): seq<Outcome> {
    if id in outcomes then outcomes[id] else []
  }

  function Also(outcomes: map<nat, seq<Outcome>>, id: nat, outcome: Outcome): map<nat, seq<Outcome>> {
    outcomes[id := OutcomesOf(outcomes, id) + [outcome]]
  }

  /** A pending waiter is taken off the list, its timer stopped, and it is settled. */
  function Settle(c: Client, id: nat, outcome: Outcome): Client {
    c.(pending := c.pending - {id}, timers := c.timers - {id}, outcomes := Also(c.outcomes, id, outcome))
  }

  function Step(c: Client, event: Event): Client {
    match event
    case Issue(wait) =>
      var id := c.sequence + 1;
      var next := c.(sequence := id, calls := c.calls[id := Fetching]);
      if wait then next.(waiters := c.waiters + {id}, pending := c.pending + {id}, timers := c.timers + {id}) else next
    case Acknowledged(id) =>
      if id in c.calls && c.calls[id].Fetching? then c.(calls := c.calls[id := Returned]) else c
    case RequestFails(id) =>
      if id !in c.calls || !c.calls[id].Fetching? then c
      else if id in c.pending then Settle(c.(calls := c.calls[id := Returned]), id, FetchFailed)
      else c.(calls := c.calls[id := Thrown])
    case Response(id, success) =>
      if id in c.pending then Settle(c, id, if success then Resolved else Refused) else c
    case TimerFires(id) =>
      if id !in c.timers then c
      else if id in c.pending then Settle(c, id, TimedOut) else c.(timers := c.timers - {id})
    case Cancel =>
      c.(pending := {}, timers := c.timers - c.pending,
         outcomes := map id | id in c.outcomes.Keys + c.pending ::
           if id in c.pending then OutcomesOf(c.outcomes, id) + [Cancelled] else c.outcomes[id])
  }

  function Run(events: seq<Event>): Client {
    Fold(Step, NEW, events)
  }

  // ---- conservation

  /** Every waiter is either pending with a live timer and untouched, or was settled exactly once; nothing else is. */
  ghost predicate Conserved(c: Client) {
    && c.timers == c.pending && c.pending <= c.waiters
    && (forall id | id in c.waiters :: 0 < id <= c.sequence)
    && (forall id | id in c.calls :: 0 < id <= c.sequence)
    && forall id: nat :: |OutcomesOf(c.outcomes, id)| == if id in c.waiters - c.pending then 1 else 0
  }

  lemma StepConserves(c: Client, event: Event)
    requires Conserved(c)
    ensures Conserved(Step(c, event))
  {
    var after := Step(c, event);
    forall id: nat
      ensures |OutcomesOf(after.outcomes, id)| == if id in after.waiters - after.pending then 1 else 0
    {
      assert |OutcomesOf(c.outcomes, id)| == if id in c.waiters - c.pending then 1 else 0;
      if event.Issue? {
        assert OutcomesOf(after.outcomes, id) == OutcomesOf(c.outcomes, id);
      }
    }
  }

  lemma {:induction false} RunConserves(events: seq<Event>)
    ensures Conserved(Run(events))
  {
    if events != [] {
      RunConserves(events[..|events| - 1]);
      StepConserves(Run(events[..|events| - 1]), events[|events| - 1]);
    }
  }

  /** Once cancelled, no waiter issued so far is pending, now or ever again. */
  lemma {:induction false} CancelledForGood(before: seq<Event>, after: seq<Event>, id: nat)
    requires id in Run(before).waiters
    ensures var c := Run(before + [Cancel] + after);
            id in c.waiters && id !in c.pending && |OutcomesOf(c.outcomes, id)| == 1
  {
    var events := before + [Cancel] + after;
    RunConserves(events);
    if after == [] {
      assert events[..|events| - 1] == before;
    } else {
      CancelledForGood(before, after[..|after| - 1], id);
      RunConserves(before + [Cancel] + after[..|after| - 1]);
      assert events[..|events| - 1] == before + [Cancel] + after[..|after| - 1];
    }
  }

  // ---- the first event that concerns a waiter decides it

  /** Whether the request of call `id` is still out after these events. */
  function Out(events: seq<Event>, id: nat): bool {
    || events == []
    || (var last := events[|events| - 1];
        Out(events[..|events| - 1], id) && last != Acknowledged(id) && last != RequestFails(id))
  }

  /** Whether the request was acknowledged while it was out. */
  predicate Acked(events: seq<Event>, id: nat) {
    events != [] &&
    var before := events[..|events| - 1];
    Acked(before, id) || (Out(before, id) && events[|events| - 1] == Acknowledged(id))
  }

  /** What an event does to the waiter `id` if it is still pending; a request can only fail while it is out. */
  function Verdict(event: Event, id: nat, out: bool): Option<Outcome> {
    match event
    case Response(at, success) => if at != id then None else if success then Some(Resolved) else Some(Refused)
    case TimerFires(at) => if at == id then Some(TimedOut) else None
    case RequestFails(at) => if at == id && out then Some(FetchFailed) else None
    case Cancel => Some(Cancelled)
    case _ => None
  }

  function FirstVerdict(events: seq<Event>, id: nat): Option<Outcome> {
    if events == [] then None
    else
      var before := events[..|events| - 1];
      if FirstVerdict(before, id).Some? then FirstVerdict(before, id)
      else Verdict(events[|events| - 1], id, Out(before, id))
  }

  /** What the client knows of the waiter issued last, after more events. */
  ghost predicate Decided(c: Client, events: seq<Event>, id: nat) {
    && id in c.waiters && id in c.calls
    && (c.calls[id].Fetching? <==> Out(events, id))
    && (c.calls[id].Returned? <==> Acked(events, id) || FirstVerdict(events, id) == Some(FetchFailed))
    && !(Acked(events, id) && Out(events, id))
    && match FirstVerdict(events, id)
       case None => id in c.pending
       case Some(outcome) => id !in c.pending && OutcomesOf(c.outcomes, id) == [outcome]
  }

  lemma StepDecides(c: Client, events: seq<Event>, event: Event, id: nat)
    requires Conserved(c) && Decided(c, events, id)
    ensures Decided(Step(c, event), events + [event], id)
  {
    assert (events + [event])[..|events|] == events;
  }

  /** A waiter stays pending until the first event that concerns it, and that event alone says how it ends. */
  lemma {:induction false} FirstVerdictDecides(before: seq<Event>, after: seq<Event>)
    ensures Decided(Run(before + [Issue(true)] + after), after, Run(before).sequence + 1)
  {
    var id := Run(before).sequence + 1;
    var events := before + [Issue(true)] + after;
    RunConserves(before);
    if after == [] {
      assert events[..|events| - 1] == before;
    } else {
      var init, last := after[..|after| - 1], after[|after| - 1];
      FirstVerdictDecides(before, init);
      RunConserves(before + [Issue(true)] + init);
      assert events[..|events| - 1] == before + [Issue(true)] + init;
      StepDecides(Run(before + [Issue(true)] + init), init, last, id);
      assert init + [last] == after;
    }
  }

  /** What the client knows of the command issued last without a waiter, after more events. */
  ghost predicate Called(c: Client, events: seq<Event>, id: nat) {
    && id !in c.waiters && id in c.calls && id <= c.sequence
    && (c.calls[id].Fetching? <==> Out(events, id))
    && (c.calls[id].Returned? <==> Acked(events, id))
    && !(Acked(events, id) && Out(events, id))
  }

  /** A command without a waiter never has one; its call returns or throws by what the request does first. */
  lemma {:induction false} WithoutWaiter(before: seq<Event>, after: seq<Event>)
    ensures Called(Run(before + [Issue(false)] + after), after, Run(before).sequence + 1)
  {
    var id := Run(before).sequence + 1;
    var events := before + [Issue(false)] + after;
    RunConserves(before);
    if after == [] {
      assert events[..|events| - 1] == before;
    } else {
      var init, last := after[..|after| - 1], after[|after| - 1];
      WithoutWaiter(before, init);
      RunConserves(before + [Issue(false)] + init);
      assert events[..|events| - 1] == before + [Issue(false)] + init;
    }
  }

  // ---- what the caller gets

  /** The caller of a waiting command is handed the reply exactly when the call returned and the waiter was resolved. */
  ghost predicate Served(c: Client, id: nat) {
    id in c.calls && c.calls[id].Returned? && OutcomesOf(c.outcomes, id) == [Resolved]
  }

  /** The caller is served exactly when its reply comes first and its request is acknowledged. */
  lemma ServedExactlyWhenAcked(before: seq<Event>, after: seq<Event>)
    ensures var id := Run(before).sequence + 1;
            Served(Run(before + [Issue(true)] + after), id)
            <==> FirstVerdict(after, id) == Some(Resolved) && Acked(after, id)
  {
    var events, id := before + [Issue(true)] + after, Run(before).sequence + 1;
    FirstVerdictDecides(before, after);
    RunConserves(events);
    var outcomes := OutcomesOf(Run(events).outcomes, id);
    assert FirstVerdict(after, id).None? ==> |outcomes| == 0;
    assert FirstVerdict(after, id).Some? ==> outcomes[0] == FirstVerdict(after, id).value;
  }

  lemma RunMore(events: seq<Event>, event: Event)
    ensures Run(events + [event]) == Step(Run(events), event)
  {
    assert (events + [event])[..|events|] == events;
  }

  /** A reply that overtakes its failing request is lost on the caller: the waiter is resolved, the call throws. */
  lemma OvertakingReplyIsLost(before: seq<Event>)
    ensures var id := Run(before).sequence + 1;
            var c := Run(before + [Issue(true)] + [Response(id, true)] + [RequestFails(id)]);
            OutcomesOf(c.outcomes, id) == [Resolved] && id in c.calls && c.calls[id].Thrown? && !Served(c, id)
  {
    var id := Run(before).sequence + 1;
    RunConserves(before);
    RunMore(before, Issue(true));
    RunMore(before + [Issue(true)], Response(id, true));
    RunMore(before + [Issue(true)] + [Response(id, true)], RequestFails(id));
    assert OutcomesOf(Run(before).outcomes, id) == [];
  }
}
