/**
 The event stream while a transcript is being replayed and reloaded: which events are dropped,
 buffered, flushed or dispatched, and which reload jobs may still act.
 */
module ReplayRuntime {
  import opened Prelude

  datatype Stage = Start | Update | End

  /** Message, tool and agent events are replay-gated; `replay_done` and the rest are not. */
  datatype Event =
    | MessageEvent(stage: Stage, fromAssistant: bool, id: nat)
    | ToolEvent(stage: Stage, id: nat)
    | AgentEvent(id: nat)
    | ReplayDone(runner: Option<string>)
    | Other(id: nat)

  datatype Phase = Replay | Canonical | NoPhase

  /** Loading: waiting for replies. Shown: rendered, backfill still running. */
  datatype JobStage = Loading | Shown | Ended
  datatype Job = Job(generation: nat, stage: JobStage)
  datatype Effect = Applied(job: nat) | Rendered(job: nat) | AfterRender(job: nat)

  /** The selected runner, its generation, and every reload job begun. */
  datatype Reloads = Reloads(runner: Option<string>, generation: nat, latestJob: nat, jobs: map<nat, Job>)

  /** The replay phase of the current connection. */
  datatype Gate = Gate(replaying: bool, phase: Phase, doneSeen: bool, buffer: seq<Event>, required: bool)

  /** `delivered` are the gated events handed to the transcript and agent handlers. */
  datatype State = State(gate: Gate, reloads: Reloads, delivered: seq<Event>, effects: seq<Effect>)

  datatype Input =
    | Connect(skipGate: bool)
    | Opened(skipGate: bool, replay: bool)
    | Arrive(event: Event)
    | SelectRunner(id: Option<string>)
    | StartReload
    | StateArrives(job: nat, gate: Option<bool>)
    | MessagesArrive(job: nat, rendered: set<nat>)
    | ReloadFails(job: nat, endsReplay: bool)
    | RenderSettles(job: nat, complete: bool)

  const INITIAL := State(Gate(true, Replay, false, [], true), Reloads(None, 0, 0, map[]), [], [])

  predicate IsGated(event: Event) {
    event.MessageEvent? || event.ToolEvent? || event.AgentEvent?
  }

  // ---- filtering the buffer

  predicate Finished(events: seq<Event>, rendered: set<nat>) {
    exists i | 0 <= i < |events| ::
      events[i].MessageEvent? && events[i].stage.End? && events[i].fromAssistant && events[i].id in rendered
  }

  predicate Kept(event: Event) {
    !((event.MessageEvent? && event.fromAssistant) || event.ToolEvent?)
  }

  function KeptOf(event: Event): seq<Event> {
    if Kept(event) then [event] else []
  }

  /** Once a finished assistant message is already on screen, assistant and tool events are duplicates. */
  function FilterReplay(events: seq<Event>, rendered: set<nat>): seq<Event> {
    if Finished(events, rendered) then FlatMap(KeptOf, events) else events
  }

  // ---- one step

  function SetReplaying(g: Gate, value: bool, phase: Phase): Gate {
    g.(replaying := value, phase := if value then phase else NoPhase)
  }

  function Select(r: Reloads, id: Option<string>, invalidate: bool): Reloads {
    if id == r.runner then r
    else r.(runner := id, generation := if invalidate then r.generation + 1 else r.generation)
  }

  function Begin(r: Reloads): Reloads {
    r.(latestJob := r.latestJob + 1, jobs := r.jobs[r.latestJob + 1 := Job(r.generation, Loading)])
  }

  predicate IsCurrent(r: Reloads, job: nat) {
    job == r.latestJob && job in r.jobs && r.jobs[job].generation == r.generation
  }

  predicate InStage(r: Reloads, job: nat, stage: JobStage) {
    job in r.jobs && r.jobs[job].stage == stage
  }

  function Advance(r: Reloads, job: nat, from: JobStage, stage: JobStage): Reloads {
    if InStage(r, job, from) then r.(jobs := r.jobs[job := r.jobs[job].(stage := stage)]) else r
  }

  /** What an input does to the runner selection and the reload jobs. */
  function StepReloads(r: Reloads, input: Input): Reloads {
    match input
    case Opened(skipGate, replay) => if skipGate || replay then r else Begin(r)
    case Arrive(event) =>
      if event.ReplayDone? then
        Begin(if event.runner.Some? then Select(r, event.runner, r.runner.Some?) else r)
      else r
    case SelectRunner(id) => Select(r, id, true)
    case StartReload => Begin(r)
    case MessagesArrive(job, _) => Advance(r, job, Loading, if IsCurrent(r, job) then Shown else Ended)
    case ReloadFails(job, _) => Advance(r, job, Loading, Ended)
    case RenderSettles(job, _) => Advance(r, job, Shown, Ended)
    case _ => r
  }

  predicate Acts(s: State, job: nat, stage: JobStage) {
    InStage(s.reloads, job, stage) && IsCurrent(s.reloads, job)
  }

  predicate Held(s: State, event: Event) {
    s.gate.replaying && s.gate.required && IsGated(event)
  }

  /** What an input does to the replay phase and the buffer. */
  function StepGate(s: State, input: Input): Gate {
    var g := s.gate;
    match input
    case Connect(skipGate) =>
      SetReplaying(g, !skipGate, Replay).(required := !skipGate, doneSeen := false, buffer := [])
    case Opened(skipGate, replay) =>
      if !skipGate && !replay && g.replaying then SetReplaying(g, true, Canonical) else g
    case Arrive(event) =>
      if Held(s, event) then if g.doneSeen then g.(buffer := g.buffer + [event]) else g
      else if event.ReplayDone? then
        var marked := g.(doneSeen := true);
        if g.replaying then SetReplaying(marked, true, Canonical) else marked
      else g
    case StateArrives(job, gate) => if Acts(s, job, Loading) && gate.Some? then g.(required := gate.value) else g
    case MessagesArrive(job, _) => if Acts(s, job, Loading) then SetReplaying(g, false, NoPhase).(buffer := []) else g
    case ReloadFails(job, endsReplay) =>
      if Acts(s, job, Loading) && endsReplay then SetReplaying(g, false, NoPhase) else g
    case _ => g
  }

  /** The gated events an input hands to the handlers. */
  function Delivers(s: State, input: Input): seq<Event> {
    match input
    case Arrive(event) => if !Held(s, event) && IsGated(event) then [event] else []
    case MessagesArrive(job, rendered) => if Acts(s, job, Loading) then FilterReplay(s.gate.buffer, rendered) else []
    case _ => []
  }

  /** What an input lets a reload job do. */
  function Effects(s: State, input: Input): seq<Effect> {
    match input
    case StateArrives(job, _) => if Acts(s, job, Loading) then [Applied(job)] else []
    case MessagesArrive(job, _) => if Acts(s, job, Loading) then [Rendered(job)] else []
    case RenderSettles(job, complete) => if complete && Acts(s, job, Shown) then [AfterRender(job)] else []
    case _ => []
  }

  function Step(s: State, input: Input): State {
    State(StepGate(s, input), StepReloads(s.reloads, input), s.delivered + Delivers(s, input),
          s.effects + Effects(s, input))
  }

  function Run(s: State, inputs: seq<Input>): State {
    Fold(Step, s, inputs)
  }

  // ---- stale reloads never act

  /** The inputs that begin a reload. */
  predicate Starts(input: Input) {
    input.StartReload? || (input.Arrive? && input.event.ReplayDone?) || input == Opened(false, false)
  }

  /**
   The inputs that select another runner. The first replay may adopt the server's runner when none
   was selected without counting as a change.
   */
  predicate Invalidates(r: Reloads, input: Input) {
    || (input.SelectRunner? && input.id != r.runner)
    || (input.Arrive? && input.event.ReplayDone? && input.event.runner.Some? && r.runner.Some?
        && input.event.runner != r.runner)
  }

  /** Nothing in `inputs`, run from `r`, starts a reload or invalidates the runner. */
  predicate Undisturbed(r: Reloads, inputs: seq<Input>)
    decreases |inputs|
  {
    inputs == []
    || (var init := inputs[..|inputs| - 1];
        var last := inputs[|inputs| - 1];
        && Undisturbed(r, init)
        && !Starts(last) && !Invalidates(Fold(StepReloads, r, init), last))
  }

  /** Jobs are numbered from 1 and carry a generation that has existed. */
  predicate JobsKnown(r: Reloads) {
    forall job | job in r.jobs :: 1 <= job <= r.latestJob && r.jobs[job].generation <= r.generation
  }

  predicate Later(a: Reloads, b: Reloads) {
    && JobsKnown(b) && a.latestJob <= b.latestJob && a.generation <= b.generation
    && forall job | job in a.jobs :: job in b.jobs && b.jobs[job].generation == a.jobs[job].generation
  }

  lemma StepLater(r: Reloads, input: Input)
    requires JobsKnown(r)
    ensures Later(r, StepReloads(r, input))
  {
  }

  lemma {:induction false} RunLater(r: Reloads, inputs: seq<Input>)
    requires JobsKnown(r)
    ensures var after := Fold(StepReloads, r, inputs);
            && Later(r, after)
            && (after.latestJob == r.latestJob && after.generation == r.generation <==> Undisturbed(r, inputs))
  {
    if inputs != [] {
      var init, last := inputs[..|inputs| - 1], inputs[|inputs| - 1];
      RunLater(r, init);
      StepLater(Fold(StepReloads, r, init), last);
    }
  }

  lemma {:induction false} ReloadsRun(s: State, inputs: seq<Input>)
    ensures Run(s, inputs).reloads == Fold(StepReloads, s.reloads, inputs)
  {
    if inputs != [] {
      ReloadsRun(s, inputs[..|inputs| - 1]);
    }
  }

  /** After any run, a reload that was current is current still exactly when nothing disturbed it. */
  lemma CurrentExactlyWhenUndisturbed(s: State, inputs: seq<Input>, job: nat)
    requires JobsKnown(s.reloads) && IsCurrent(s.reloads, job)
    ensures IsCurrent(Run(s, inputs).reloads, job) <==> Undisturbed(s.reloads, inputs)
  {
    RunLater(s.reloads, inputs);
    ReloadsRun(s, inputs);
  }

  function JobOf(input: Input): Option<nat> {
    match input
    case StateArrives(job, _) => Some(job)
    case MessagesArrive(job, _) => Some(job)
    case ReloadFails(job, _) => Some(job)
    case RenderSettles(job, _) => Some(job)
    case _ => None
  }

  /** A continuation of a reload that is no longer current changes neither the gate nor the screen. */
  lemma StaleContinuationIsInert(s: State, input: Input)
    requires JobOf(input).Some? && !IsCurrent(s.reloads, JobOf(input).value)
    ensures var after := Step(s, input);
            after.gate == s.gate && after.delivered == s.delivered && after.effects == s.effects
  {
  }

  lemma StartedIsCurrent(s: State, start: Input)
    requires JobsKnown(s.reloads) && Starts(start)
    ensures var r := Step(s, start).reloads;
            JobsKnown(r) && r.latestJob == s.reloads.latestJob + 1 && IsCurrent(r, r.latestJob)
  {
  }

  /** None of the inputs is the reply with the messages of that reload, or its failure. */
  predicate Unanswered(inputs: seq<Input>, job: nat) {
    forall i | 0 <= i < |inputs| ::
      !(inputs[i].MessagesArrive? && inputs[i].job == job) && !(inputs[i].ReloadFails? && inputs[i].job == job)
  }

  /** Until it is answered, a reload waits for its replies. */
  lemma {:induction false} LoadingUntilAnswered(r: Reloads, inputs: seq<Input>, job: nat)
    requires JobsKnown(r) && InStage(r, job, Loading) && Unanswered(inputs, job)
    ensures InStage(Fold(StepReloads, r, inputs), job, Loading)
  {
    if inputs != [] {
      var init := inputs[..|inputs| - 1];
      LoadingUntilAnswered(r, init, job);
      RunLater(r, init);
    }
  }

  predicate Unsettled(inputs: seq<Input>, job: nat) {
    forall i | 0 <= i < |inputs| :: !(inputs[i].RenderSettles? && inputs[i].job == job)
  }

  lemma {:induction false} ShownUntilSettled(r: Reloads, inputs: seq<Input>, job: nat)
    requires JobsKnown(r) && InStage(r, job, Shown) && Unsettled(inputs, job)
    ensures InStage(Fold(StepReloads, r, inputs), job, Shown)
  {
    if inputs != [] {
      var init := inputs[..|inputs| - 1];
      ShownUntilSettled(r, init, job);
      RunLater(r, init);
    }
  }

  /** What a reply lets a reload do if it is current: apply the state, or render the messages; a failure nothing. */
  function EffectOfReply(input: Input): seq<Effect> {
    match input
    case StateArrives(job, _) => [Applied(job)]
    case MessagesArrive(job, _) => [Rendered(job)]
    case _ => []
  }

  /**
   Over every interleaving: a reply of a reload not answered before acts if and only if no other reload has
   begun and no other runner has been selected since it began; otherwise it changes nothing that is seen.
   */
  lemma ReplyActsExactlyWhenUndisturbed(s: State, start: Input, inputs: seq<Input>, input: Input)
    requires JobsKnown(s.reloads) && Starts(start)
    requires JobOf(input) == Some(s.reloads.latestJob + 1) && !input.RenderSettles?
    requires Unanswered(inputs, s.reloads.latestJob + 1)
    ensures var began := Step(s, start);
            var now := Run(began, inputs);
            && Effects(now, input) == (if Undisturbed(began.reloads, inputs) then EffectOfReply(input) else [])
            && (!Undisturbed(began.reloads, inputs) ==>
                  var after := Step(now, input);
                  after.gate == now.gate && after.delivered == now.delivered && after.effects == now.effects)
  {
    var began := Step(s, start);
    StartedIsCurrent(s, start);
    CurrentExactlyWhenUndisturbed(began, inputs, began.reloads.latestJob);
    LoadingUntilAnswered(began.reloads, inputs, began.reloads.latestJob);
    ReloadsRun(began, inputs);
  }

  lemma {:induction false} EndedStays(r: Reloads, inputs: seq<Input>, job: nat)
    requires JobsKnown(r) && InStage(r, job, Ended)
    ensures InStage(Fold(StepReloads, r, inputs), job, Ended)
  {
    if inputs != [] {
      var init := inputs[..|inputs| - 1];
      EndedStays(r, init, job);
      RunLater(r, init);
    }
  }

  lemma ReplyAnswers(r: Reloads, job: nat, rendered: set<nat>)
    requires JobsKnown(r) && InStage(r, job, Loading)
    ensures var after := StepReloads(r, MessagesArrive(job, rendered));
            JobsKnown(after) && InStage(after, job, if IsCurrent(r, job) then Shown else Ended)
            && (IsCurrent(after, job) <==> IsCurrent(r, job))
  {
  }

  /** Where a reload stands when its render settles: shown if it was current when it was answered, else ended. */
  lemma StageWhenSettling(r: Reloads, a: seq<Input>, rendered: set<nat>, b: seq<Input>, job: nat)
    requires JobsKnown(r) && InStage(r, job, Loading) && Unanswered(a, job) && Unsettled(b, job)
    ensures var answered := Fold(StepReloads, r, a);
            var after := Fold(StepReloads, r, a + ([MessagesArrive(job, rendered)] + b));
            InStage(after, job, if IsCurrent(answered, job) then Shown else Ended)
  {
    var reply := MessagesArrive(job, rendered);
    var answered := Fold(StepReloads, r, a);
    LoadingUntilAnswered(r, a, job);
    RunLater(r, a);
    ReplyAnswers(answered, job, rendered);
    FoldConcat(StepReloads, r, a, [reply] + b);
    FoldConcat(StepReloads, answered, [reply], b);
    FoldOne(StepReloads, answered, reply);
    if IsCurrent(answered, job) {
      ShownUntilSettled(StepReloads(answered, reply), b, job);
    } else {
      EndedStays(StepReloads(answered, reply), b, job);
    }
  }

  /** A reload that is current was current before. */
  lemma StaleStays(r: Reloads, a: seq<Input>, b: seq<Input>, job: nat)
    requires JobsKnown(r) && job in r.jobs && IsCurrent(Fold(StepReloads, r, a + b), job)
    ensures IsCurrent(Fold(StepReloads, r, a), job)
  {
    RunLater(r, a);
    RunLater(Fold(StepReloads, r, a), b);
    FoldConcat(StepReloads, r, a, b);
  }

  /** A render that settles after its reply acts if it is complete and nothing disturbed the reload, and not else. */
  lemma SettlingActsExactlyWhenUndisturbed(s: State, start: Input, a: seq<Input>, rendered: set<nat>, b: seq<Input>,
                                           complete: bool)
    requires JobsKnown(s.reloads) && Starts(start)
    requires Unanswered(a, s.reloads.latestJob + 1) && Unsettled(b, s.reloads.latestJob + 1)
    ensures var began, job := Step(s, start), s.reloads.latestJob + 1;
            var inputs := a + ([MessagesArrive(job, rendered)] + b);
            Effects(Run(began, inputs), RenderSettles(job, complete))
            == if complete && Undisturbed(began.reloads, inputs) then [AfterRender(job)] else []
  {
    var began, job := Step(s, start), s.reloads.latestJob + 1;
    var rest := [MessagesArrive(job, rendered)] + b;
    StartedIsCurrent(s, start);
    CurrentExactlyWhenUndisturbed(began, a + rest, job);
    ReloadsRun(began, a + rest);
    StageWhenSettling(began.reloads, a, rendered, b, job);
    if IsCurrent(Run(began, a + rest).reloads, job) {
      StaleStays(began.reloads, a, rest, job);
    }
  }

  /** How far a reload has come, and what it has done by then. */
  predicate InStep(s: State, job: nat) {
    var rendered, after := multiset(s.effects)[Rendered(job)], multiset(s.effects)[AfterRender(job)];
    && (job !in s.reloads.jobs || s.reloads.jobs[job].stage.Loading? ==> rendered == after == 0)
    && (job in s.reloads.jobs && s.reloads.jobs[job].stage.Shown? ==> rendered == 1 && after == 0)
    && after <= rendered <= 1
  }

  /** Over every run, a reload renders at most once, and does what comes after the render at most once, after it. */
  lemma {:induction false} EachActsOnce(inputs: seq<Input>, job: nat)
    ensures InStep(Run(INITIAL, inputs), job)
  {
    if inputs != [] {
      var init, last := inputs[..|inputs| - 1], inputs[|inputs| - 1];
      EachActsOnce(init, job);
      ReachableJobsKnown(init);
      StepInStep(Run(INITIAL, init), last, job);
    }
  }

  lemma EffectsCounted(s: State, input: Input, job: nat)
    ensures multiset(Effects(s, input))[Rendered(job)]
         == if input.MessagesArrive? && input.job == job && Acts(s, job, Loading) then 1 else 0
    ensures multiset(Effects(s, input))[AfterRender(job)]
         == if input.RenderSettles? && input.job == job && input.complete && Acts(s, job, Shown) then 1 else 0
  {
  }

  lemma StageAfter(r: Reloads, input: Input, job: nat)
    requires JobsKnown(r)
    ensures var after := StepReloads(r, input);
            if job in r.jobs then
              job in after.jobs && after.jobs[job].stage
              == (if JobOf(input) != Some(job) || input.StateArrives? then r.jobs[job].stage
                  else if input.RenderSettles? then if r.jobs[job].stage.Shown? then Ended else r.jobs[job].stage
                  else if !r.jobs[job].stage.Loading? then r.jobs[job].stage
                  else if input.MessagesArrive? && IsCurrent(r, job) then Shown else Ended)
            else job in after.jobs ==> after.jobs[job].stage.Loading?
  {
  }

  lemma StepInStep(s: State, input: Input, job: nat)
    requires InStep(s, job) && JobsKnown(s.reloads)
    ensures InStep(Step(s, input), job)
  {
    EffectsCounted(s, input, job);
    StageAfter(s.reloads, input, job);
    var before, now := multiset(s.effects), multiset(Effects(s, input));
    assert multiset(s.effects + Effects(s, input)) == before + now;
    var after := Step(s, input);
    assert multiset(after.effects)[Rendered(job)] == before[Rendered(job)] + now[Rendered(job)];
    assert multiset(after.effects)[AfterRender(job)] == before[AfterRender(job)] + now[AfterRender(job)];
  }

  /** Leaving a runner and coming back cannot revive the reload that was under way. */
  lemma SwitchAndBackStaysStale(s: State, other: Option<string>, inputs: seq<Input>, job: nat)
    requires JobsKnown(s.reloads) && IsCurrent(s.reloads, job) && other != s.reloads.runner
    ensures var back := Step(Step(s, SelectRunner(other)), SelectRunner(s.reloads.runner));
            back.reloads.runner == s.reloads.runner && !IsCurrent(Run(back, inputs).reloads, job)
  {
    var back := Step(Step(s, SelectRunner(other)), SelectRunner(s.reloads.runner));
    StepLater(s.reloads, SelectRunner(other));
    StepLater(Step(s, SelectRunner(other)).reloads, SelectRunner(s.reloads.runner));
    RunLater(back.reloads, inputs);
    ReloadsRun(back, inputs);
  }

  lemma ReachableJobsKnown(inputs: seq<Input>)
    ensures JobsKnown(Run(INITIAL, inputs).reloads)
  {
    RunLater(INITIAL.reloads, inputs);
    ReloadsRun(INITIAL, inputs);
  }

  // ---- the runner, the gated kinds and the phase, told from the inputs

  /**
   Selecting takes the runner; `replay_done` takes the one it names. The generation counts the changes,
   but not the adoption of the first runner by `replay_done`.
   */
  lemma RunnerIsSelected(s: State, input: Input)
    ensures var r, after := s.reloads, Step(s, input).reloads;
            if input.SelectRunner? then
              after.runner == input.id && after.generation == r.generation + (if input.id != r.runner then 1 else 0)
            else if input.Arrive? && input.event.ReplayDone? && input.event.runner.Some? then
              && after.runner == input.event.runner
              && after.generation
                 == r.generation + (if r.runner.Some? && r.runner != input.event.runner then 1 else 0)
            else after.runner == r.runner && after.generation == r.generation
  {
  }

  /** Message, tool and agent events are gated, and nothing else. */
  lemma GatedKinds(event: Event)
    ensures IsGated(event) <==> !event.ReplayDone? && !event.Other?
  {
  }

  /** Since the last connection the replay was done, or the connection opened without a replay to wait for. */
  predicate CanonicalDue(inputs: seq<Input>)
    decreases |inputs|
  {
    if inputs == [] then false
    else
      var last := inputs[|inputs| - 1];
      !last.Connect?
      && ((last.Arrive? && last.event.ReplayDone?) || last == Opened(false, false)
          || CanonicalDue(inputs[..|inputs| - 1]))
  }

  /** While replaying, the phase is the replay, and the canonical reload from the moment that is due. */
  lemma {:induction false} PhaseIsTrue(inputs: seq<Input>)
    ensures var gate := Run(INITIAL, inputs).gate;
            gate.phase == if !gate.replaying then NoPhase else if CanonicalDue(inputs) then Canonical else Replay
  {
    if inputs != [] {
      PhaseIsTrue(inputs[..|inputs| - 1]);
    }
  }
}
