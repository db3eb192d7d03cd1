/** The same runtime as the objects the browser keeps: fields reassigned by each event. */
module ReplayObjects {
  import opened Prelude
  import opened ReplayRuntime

  class PlatformRuntime {
    var replaying: bool
    var replayPhase: Phase
    var replayDoneSeen: bool
    var replayBufferedEvents: seq<Event>
    var gateRequired: bool
    var currentRunner: Option<string>
    var generation: nat
    var latestJob: nat
    var jobs: map<nat, Job>
    var delivered: seq<Event>
    var effects: seq<Effect>

    function View(): State
      reads this
    {
      State(Gate(replaying, replayPhase, replayDoneSeen, replayBufferedEvents, gateRequired),
            Reloads(currentRunner, generation, latestJob, jobs), delivered, effects)
    }

    constructor ()
      ensures View() == INITIAL
    {
      replaying, replayPhase, replayDoneSeen, replayBufferedEvents, gateRequired := true, Replay, false, [], true;
      currentRunner, generation, latestJob, jobs := None, 0, 0, map[];
      delivered, effects := [], [];
    }

    method SetReplaying(value: bool, phase: Phase)
      modifies this`replaying, this`replayPhase
      ensures View().gate == ReplayRuntime.SetReplaying(old(View().gate), value, phase)
    {
      replaying := value;
      replayPhase := if value then phase else NoPhase;
    }

    method SelectRunner(id: Option<string>, invalidate: bool)
      modifies this`currentRunner, this`generation
      ensures View().reloads == Select(old(View().reloads), id, invalidate)
    {
      if id == currentRunner {
        return;
      }
      currentRunner := id;
      if invalidate {
        generation := generation + 1;
      }
    }

    method SetRunner(id: Option<string>)
      modifies this`currentRunner, this`generation
      ensures View() == Step(old(View()), Input.SelectRunner(id))
    {
      SelectRunner(id, true);
    }

    /** A new connection: the replay epoch starts over. */
    method Connect(skipTranscriptGate: bool)
      modifies this
      ensures View() == Step(old(View()), Input.Connect(skipTranscriptGate))
    {
      gateRequired := !skipTranscriptGate;
      SetReplaying(!skipTranscriptGate, if skipTranscriptGate then NoPhase else Replay);
      replayDoneSeen := false;
      replayBufferedEvents := [];
    }

    /** The connection is open: without a replay to wait for, the canonical reload starts now. */
    method Opened(skipTranscriptGate: bool, waitForReplayDone: bool)
      modifies this
      ensures View() == Step(old(View()), Input.Opened(skipTranscriptGate, waitForReplayDone))
    {
      if skipTranscriptGate || waitForReplayDone {
        return;
      }
      if replaying {
        SetReplaying(true, Canonical);
      }
      var _ := ReloadTranscript();
    }

    /** The start of a reload, up to its first await. */
    method ReloadTranscript() returns (job: nat)
      modifies this`latestJob, this`jobs
      ensures View() == Step(old(View()), StartReload) && job == latestJob
    {
      latestJob := latestJob + 1;
      job := latestJob;
      jobs := jobs[job := Job(generation, Loading)];
    }

    /** The replay gate: true when it swallowed the event. */
    method ReplayEventGate(event: Event) returns (taken: bool)
      modifies this`replayBufferedEvents
      ensures taken == Held(old(View()), event)
      ensures replayBufferedEvents == if taken && replayDoneSeen then old(replayBufferedEvents) + [event]
                                      else old(replayBufferedEvents)
    {
      if !replaying || !gateRequired || !IsGated(event) {
        return false;
      }
      if replayDoneSeen {
        replayBufferedEvents := replayBufferedEvents + [event];
      }
      return true;
    }

    method Dispatch(event: Event)
      modifies this
      ensures View() == Step(old(View()), Arrive(event))
    {
      var taken := ReplayEventGate(event);
      if taken {
        return;
      }
      match event {
        case ReplayDone(runner) => HandleReplayDone(runner);
        case Other(_) =>
        case _ => delivered := delivered + [event];
      }
    }

    method HandleReplayDone(runner: Option<string>)
      modifies this
      ensures View() == Step(old(View()), Arrive(ReplayDone(runner)))
    {
      replayDoneSeen := true;
      if replaying {
        SetReplaying(true, Canonical);
      }
      if runner.Some? {
        SelectRunner(runner, currentRunner.Some?);
      }
      var _ := ReloadTranscript();
    }

    /** Dispatches what the filter leaves, now that the replay has ended. */
    method FlushBufferedEvents(events: seq<Event>, rendered: set<nat>)
      requires !replaying && forall i | 0 <= i < |events| :: IsGated(events[i])
      modifies this
      ensures View() == old(View()).(delivered := old(delivered) + FilterReplay(events, rendered))
    {
      var kept := FilterReplay(events, rendered);
      FilterStaysGated(events, rendered);
      for i := 0 to |kept|
        invariant View() == old(View()).(delivered := old(delivered) + kept[..i])
      {
        PrefixStep(kept, i);
        Dispatch(kept[i]);
      }
    }

    /** get_state answered. */
    method StateArrives(job: nat, gate: Option<bool>)
      modifies this
      ensures View() == Step(old(View()), Input.StateArrives(job, gate))
    {
      if Acts(View(), job, Loading) {
        effects := effects + [Applied(job)];
        if gate.Some? {
          gateRequired := gate.value;
        }
      }
    }

    /** The messages of a reload arrived: render, end the replay, flush. */
    method MessagesArrive(job: nat, rendered: set<nat>)
      requires forall i | 0 <= i < |replayBufferedEvents| :: IsGated(replayBufferedEvents[i])
      modifies this
      ensures View() == Step(old(View()), Input.MessagesArrive(job, rendered))
    {
      if !InStage(View().reloads, job, Loading) {
        return;
      }
      if !IsCurrent(View().reloads, job) {
        jobs := jobs[job := jobs[job].(stage := Ended)];
        return;
      }
      jobs := jobs[job := jobs[job].(stage := Shown)];
      effects := effects + [Rendered(job)];
      SetReplaying(false, NoPhase);
      var events := replayBufferedEvents;
      replayBufferedEvents := [];
      FlushBufferedEvents(events, rendered);
    }

    method ReloadFails(job: nat, endsReplay: bool)
      modifies this
      ensures View() == Step(old(View()), Input.ReloadFails(job, endsReplay))
    {
      if !InStage(View().reloads, job, Loading) {
        return;
      }
      var current := IsCurrent(View().reloads, job);
      jobs := jobs[job := jobs[job].(stage := Ended)];
      if current && endsReplay {
        SetReplaying(false, NoPhase);
      }
    }

    method RenderSettles(job: nat, complete: bool)
      modifies this
      ensures View() == Step(old(View()), Input.RenderSettles(job, complete))
    {
      if !InStage(View().reloads, job, Shown) {
        return;
      }
      if complete && IsCurrent(View().reloads, job) {
        effects := effects + [AfterRender(job)];
      }
      jobs := jobs[job := jobs[job].(stage := Ended)];
    }
  }

  lemma {:induction false} KeptStayGated(events: seq<Event>)
    requires forall i | 0 <= i < |events| :: IsGated(events[i])
    ensures forall i | 0 <= i < |FlatMap(KeptOf, events)| :: IsGated(FlatMap(KeptOf, events)[i])
  {
    if events != [] {
      KeptStayGated(events[..|events| - 1]);
    }
  }

  lemma FilterStaysGated(events: seq<Event>, rendered: set<nat>)
    requires forall i | 0 <= i < |events| :: IsGated(events[i])
    ensures forall i | 0 <= i < |FilterReplay(events, rendered)| :: IsGated(FilterReplay(events, rendered)[i])
  {
    KeptStayGated(events);
  }

  /** Only gated events are ever buffered, so every flush meets its precondition. */
  lemma {:induction false} BufferHoldsGatedEvents(inputs: seq<Input>)
    ensures var buffer := Run(INITIAL, inputs).gate.buffer;
            forall i | 0 <= i < |buffer| :: IsGated(buffer[i])
  {
    if inputs != [] {
      BufferHoldsGatedEvents(inputs[..|inputs| - 1]);
    }
  }
}
