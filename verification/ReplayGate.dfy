/** One connection epoch: what happens to the gated events before, during and after the replay. */
module ReplayGate {
  import opened Prelude
  import opened ReplayRuntime

  /** Just connected: replaying, nothing seen, nothing buffered. */
  predicate Connected(s: State) {
    s.gate.replaying && !s.gate.doneSeen && s.gate.buffer == []
  }

  /** A connection starts anew, whatever came before: nothing seen, nothing buffered, replaying unless told to skip. */
  lemma ConnectStartsEpoch(s: State, skip: bool)
    ensures var after := Step(s, Connect(skip));
            && after.gate.replaying == after.gate.required == !skip
            && !after.gate.doneSeen && after.gate.buffer == []
            && after.reloads == s.reloads && after.delivered == s.delivered && after.effects == s.effects
            && (Connected(after) <==> !skip)
  {
  }

  /** A reload that is still current is waiting for its messages. */
  predicate InFlight(s: State) {
    Acts(s, s.reloads.latestJob, Loading)
  }

  predicate NoConnect(inputs: seq<Input>) {
    forall i | 0 <= i < |inputs| :: !inputs[i].Connect?
  }

  /** Whatever may happen in an epoch before `replay_done`: no reconnect, but reloads, selections and replies. */
  predicate BeforeDone(inputs: seq<Input>) {
    NoConnect(inputs) && forall i | 0 <= i < |inputs| :: !(inputs[i].Arrive? && inputs[i].event.ReplayDone?)
  }

  function GatedIn(input: Input): seq<Event> {
    if input.Arrive? && IsGated(input.event) then [input.event] else []
  }

  /** The gated events among the inputs, in arrival order. */
  function GatedOf(inputs: seq<Input>): seq<Event> {
    FlatMap(GatedIn, inputs)
  }

  // ---- what ends the replay, and what the gate lets through

  /** A current reload answers, or fails in a way that ends the replay. */
  predicate Answers(s: State, input: Input) {
    || (input.MessagesArrive? && Acts(s, input.job, Loading))
    || (input.ReloadFails? && input.endsReplay && Acts(s, input.job, Loading))
  }

  predicate Answered(s: State, inputs: seq<Input>)
    decreases |inputs|
  {
    inputs != []
    && (Answered(s, inputs[..|inputs| - 1]) || Answers(Run(s, inputs[..|inputs| - 1]), inputs[|inputs| - 1]))
  }

  /** A current reload applies a state that says whether the gate is required. */
  predicate Switches(s: State, input: Input) {
    input.StateArrives? && input.gate.Some? && Acts(s, input.job, Loading)
  }

  /** Whether the gate is required: what the last such state said. */
  predicate RequiredAfter(s: State, inputs: seq<Input>)
    decreases |inputs|
  {
    if inputs == [] then s.gate.required
    else
      var init, last := inputs[..|inputs| - 1], inputs[|inputs| - 1];
      if Switches(Run(s, init), last) then last.gate.value else RequiredAfter(s, init)
  }

  predicate Lets(s: State, inputs: seq<Input>) {
    Answered(s, inputs) || !RequiredAfter(s, inputs)
  }

  /** The gated events that arrive after an answer, or while the gate is not required. */
  function LetThrough(s: State, inputs: seq<Input>): seq<Event>
    decreases |inputs|
  {
    if inputs == [] then []
    else
      var init := inputs[..|inputs| - 1];
      LetThrough(s, init) + (if Lets(s, init) then GatedIn(inputs[|inputs| - 1]) else [])
  }

  /** All other gated events. */
  function HeldBack(s: State, inputs: seq<Input>): seq<Event>
    decreases |inputs|
  {
    if inputs == [] then []
    else
      var init := inputs[..|inputs| - 1];
      HeldBack(s, init) + (if Lets(s, init) then [] else GatedIn(inputs[|inputs| - 1]))
  }

  // ---- before replay_done

  /** One input before `replay_done`. */
  lemma StepBeforeDone(s: State, input: Input)
    requires !s.gate.doneSeen && s.gate.buffer == [] && BeforeDone([input])
    ensures var after := Step(s, input);
            && (after.gate.replaying <==> s.gate.replaying && !Answers(s, input))
            && after.gate.required == (if Switches(s, input) then input.gate.value else s.gate.required)
            && !after.gate.doneSeen && after.gate.buffer == []
            && after.delivered
               == s.delivered + (if s.gate.replaying && s.gate.required then [] else GatedIn(input))
  {
    assert [input][0] == input;
    FilterNothing(if input.MessagesArrive? then input.rendered else {});
  }

  /**
   Before `replay_done` gated events are dropped, not buffered, until a current reload answers; those that
   arrive after that, or while the gate is not required, are delivered.
   */
  lemma {:induction false} DroppedBeforeDone(s: State, inputs: seq<Input>)
    requires Connected(s) && BeforeDone(inputs)
    ensures var after := Run(s, inputs);
            && (after.gate.replaying <==> !Answered(s, inputs)) && after.gate.required == RequiredAfter(s, inputs)
            && !after.gate.doneSeen && after.gate.buffer == []
            && after.delivered == s.delivered + LetThrough(s, inputs)
  {
    if inputs != [] {
      var init, last := inputs[..|inputs| - 1], inputs[|inputs| - 1];
      DroppedBeforeDone(s, init);
      StepBeforeDone(Run(s, init), last);
    }
  }

  lemma FilterNothing(rendered: set<nat>)
    ensures FilterReplay([], rendered) == []
  {
  }

  /** Input i brings a gated event that the gate lets through. */
  predicate PassesAt(s: State, inputs: seq<Input>, i: nat)
    requires i < |inputs|
  {
    GatedIn(inputs[i]) != [] && Lets(s, inputs[..i])
  }

  lemma PassesAtMore(s: State, init: seq<Input>, last: Input, i: nat)
    requires i < |init|
    ensures PassesAt(s, init + [last], i) == PassesAt(s, init, i)
  {
    assert (init + [last])[..i] == init[..i];
  }

  lemma LetThroughMore(s: State, init: seq<Input>, last: Input)
    ensures LetThrough(s, init + [last]) == LetThrough(s, init) + (if Lets(s, init) then GatedIn(last) else [])
    ensures PassesAt(s, init + [last], |init|) <==> GatedIn(last) != [] && Lets(s, init)
  {
    assert (init + [last])[..|init|] == init;
  }

  lemma {:induction false} NothingLetThrough(s: State, inputs: seq<Input>)
    ensures LetThrough(s, inputs) == [] <==> forall i | 0 <= i < |inputs| :: !PassesAt(s, inputs, i)
  {
    if inputs != [] {
      var init, last := inputs[..|inputs| - 1], inputs[|inputs| - 1];
      InitAndLast(inputs);
      NothingLetThrough(s, init);
      LetThroughMore(s, init, last);
      forall i | 0 <= i < |init| ensures PassesAt(s, inputs, i) == PassesAt(s, init, i) {
        PassesAtMore(s, init, last, i);
      }
    }
  }

  /** So a replay stays out of the transcript exactly when none of its gated events comes after such an answer. */
  lemma ReplayIsSilentExactlyUnlessAnswered(s: State, inputs: seq<Input>)
    requires Connected(s) && BeforeDone(inputs)
    ensures Run(s, inputs).delivered == s.delivered <==> forall i | 0 <= i < |inputs| :: !PassesAt(s, inputs, i)
  {
    DroppedBeforeDone(s, inputs);
    NothingLetThrough(s, inputs);
  }

  /** No reload is in flight and none is begun: then none answers, and the gate stays as it is. */
  lemma {:induction false} NothingAnswers(s: State, inputs: seq<Input>)
    requires JobsKnown(s.reloads) && !InFlight(s) && forall i | 0 <= i < |inputs| :: !Starts(inputs[i])
    ensures var after := Run(s, inputs);
            JobsKnown(after.reloads) && after.reloads.latestJob == s.reloads.latestJob && !InFlight(after)
    ensures !Answered(s, inputs) && RequiredAfter(s, inputs) == s.gate.required
  {
    if inputs != [] {
      var init := inputs[..|inputs| - 1];
      NothingAnswers(s, init);
      StepLater(Run(s, init).reloads, inputs[|inputs| - 1]);
    }
  }

  lemma RunTwo(s: State, a: Input, b: Input)
    ensures Run(s, [a] + [b]) == Step(Step(s, a), b)
  {
    FoldConcat(Step, s, [a], [b]);
    FoldOne(Step, s, a);
    FoldOne(Step, Step(s, a), b);
  }

  /** An answer of a current reload, and an event after it: it gets through. */
  lemma AnswerLetsThrough(s: State)
    requires Connected(s) && InFlight(s)
    ensures var inputs := [MessagesArrive(s.reloads.latestJob, {})] + [Arrive(AgentEvent(0))];
            BeforeDone(inputs) && Run(s, inputs).delivered == s.delivered + [AgentEvent(0)]
  {
    FilterNothing({});
    RunTwo(s, MessagesArrive(s.reloads.latestJob, {}), Arrive(AgentEvent(0)));
  }

  /**
   When no reload is begun during the replay, gated events stay out of the transcript whatever arrives
   if and only if no reload from before the connection is still in flight and current.
   */
  lemma ReplayIsSilentExactlyWithoutOldReload(s: State)
    requires Connected(s) && s.gate.required && JobsKnown(s.reloads)
    ensures (forall inputs | BeforeDone(inputs) && (forall i | 0 <= i < |inputs| :: !Starts(inputs[i])) ::
               Run(s, inputs).delivered == s.delivered)
       <==> !InFlight(s)
  {
    if InFlight(s) {
      AnswerLetsThrough(s);
      var inputs := [MessagesArrive(s.reloads.latestJob, {})] + [Arrive(AgentEvent(0))];
      assert |Run(s, inputs).delivered| == |s.delivered| + 1;
    } else {
      forall inputs | BeforeDone(inputs) && forall i | 0 <= i < |inputs| :: !Starts(inputs[i])
        ensures Run(s, inputs).delivered == s.delivered
      {
        StaysSilent(s, inputs);
      }
    }
  }

  lemma {:induction false} StaysSilent(s: State, inputs: seq<Input>)
    requires Connected(s) && s.gate.required && JobsKnown(s.reloads) && !InFlight(s) && BeforeDone(inputs)
    requires forall i | 0 <= i < |inputs| :: !Starts(inputs[i])
    ensures Run(s, inputs).delivered == s.delivered
  {
    forall i | 0 <= i < |inputs| ensures !PassesAt(s, inputs, i) {
      NothingAnswers(s, inputs[..i]);
    }
    ReplayIsSilentExactlyUnlessAnswered(s, inputs);
  }

  /** A reload begun, and not answered when the connection is made anew, lets an event of the replay through. */
  lemma OldReloadLetsThrough()
    ensures var s := Run(INITIAL, [StartReload] + [Connect(false)]);
            && Connected(s) && s.gate.required && JobsKnown(s.reloads) && InFlight(s)
            && Run(s, [MessagesArrive(1, {})] + [Arrive(AgentEvent(0))]).delivered == s.delivered + [AgentEvent(0)]
  {
    RunTwo(INITIAL, StartReload, Connect(false));
    AnswerLetsThrough(Run(INITIAL, [StartReload] + [Connect(false)]));
  }

  lemma BegunWhileReplaying(s: State)
    requires Connected(s) && JobsKnown(s.reloads)
    ensures var begun := Step(s, StartReload);
            Connected(begun) && InFlight(begun) && begun.delivered == s.delivered
            && begun.reloads.latestJob == s.reloads.latestJob + 1
  {
  }

  lemma FirstThen(s: State, first: Input, inputs: seq<Input>)
    ensures Run(s, [first] + inputs) == Run(Step(s, first), inputs)
  {
    FoldConcat(Step, s, [first], inputs);
    FoldOne(Step, s, first);
  }

  /** So does a reload begun during the replay, with none in flight before. */
  lemma NewReloadLetsThrough()
    ensures var s := Run(INITIAL, [Connect(false)]);
            && Connected(s) && s.gate.required && JobsKnown(s.reloads) && !InFlight(s)
            && Run(s, [StartReload] + ([MessagesArrive(1, {})] + [Arrive(AgentEvent(0))])).delivered
               == s.delivered + [AgentEvent(0)]
  {
    FoldOne(Step, INITIAL, Connect(false));
    var s := Run(INITIAL, [Connect(false)]);
    BegunWhileReplaying(s);
    FirstThen(s, StartReload, [MessagesArrive(1, {})] + [Arrive(AgentEvent(0))]);
    AnswerLetsThrough(Step(s, StartReload));
  }

  // ---- between replay_done and the reload's messages

  /** Replaying, `replay_done` seen, having buffered exactly `held`. */
  predicate Waiting(s: State, held: seq<Event>) {
    s.gate.replaying && s.gate.doneSeen && s.gate.buffer == held
  }

  lemma DoneStartsWaiting(s: State, runner: Option<string>)
    requires Connected(s) && JobsKnown(s.reloads)
    ensures var after := Step(s, Arrive(ReplayDone(runner)));
            && Waiting(after, []) && after.gate.required == s.gate.required && after.delivered == s.delivered
            && after.reloads.latestJob == s.reloads.latestJob + 1 && InFlight(after)
  {
  }

  /** One input after `replay_done`, not an answer. */
  lemma StepWhileWaiting(s: State, held: seq<Event>, input: Input)
    requires Waiting(s, held) && !input.Connect? && !Answers(s, input)
    ensures var after := Step(s, input);
            && Waiting(after, held + (if s.gate.required then GatedIn(input) else []))
            && after.gate.required == (if Switches(s, input) then input.gate.value else s.gate.required)
            && after.delivered == s.delivered + (if s.gate.required then [] else GatedIn(input))
  {
  }

  /** Until a current reload answers, whichever, gated events are buffered in order while the gate is required. */
  lemma {:induction false} BufferedWhileWaiting(s: State, held: seq<Event>, inputs: seq<Input>)
    requires Waiting(s, held) && NoConnect(inputs) && !Answered(s, inputs)
    ensures var after := Run(s, inputs);
            && Waiting(after, held + HeldBack(s, inputs)) && after.gate.required == RequiredAfter(s, inputs)
            && after.delivered == s.delivered + LetThrough(s, inputs)
  {
    if inputs != [] {
      var init, last := inputs[..|inputs| - 1], inputs[|inputs| - 1];
      BufferedWhileWaiting(s, held, init);
      StepWhileWaiting(Run(s, init), held + HeldBack(s, init), last);
    }
  }

  // ---- after the reload

  predicate Released(s: State) {
    !s.gate.replaying && s.gate.buffer == []
  }

  lemma {:induction false} LiveAfterReload(s: State, inputs: seq<Input>)
    requires Released(s) && NoConnect(inputs)
    ensures Released(Run(s, inputs)) && Run(s, inputs).delivered == s.delivered + GatedOf(inputs)
  {
    if inputs != [] {
      LiveAfterReload(s, inputs[..|inputs| - 1]);
      if inputs[|inputs| - 1].MessagesArrive? {
        FilterNothing(inputs[|inputs| - 1].rendered);
      }
    }
  }

  // ---- the whole epoch

  lemma DoneWaits(s: State, runner: Option<string>)
    requires Connected(s)
    ensures Waiting(Step(s, Arrive(ReplayDone(runner))), [])
    ensures Step(s, Arrive(ReplayDone(runner))).delivered == s.delivered
  {
  }

  lemma ReplyReleases(s: State, job: nat, rendered: set<nat>)
    requires Answers(s, MessagesArrive(job, rendered))
    ensures var after := Step(s, MessagesArrive(job, rendered));
            Released(after) && after.delivered == s.delivered + FilterReplay(s.gate.buffer, rendered)
  {
  }

  lemma EpochFromConnected(s: State, before: seq<Input>, runner: Option<string>, during: seq<Input>,
                           job: nat, rendered: set<nat>, after: seq<Input>)
    requires Connected(s) && BeforeDone(before) && NoConnect(during) && NoConnect(after)
    requires var done := Step(Run(s, before), Arrive(ReplayDone(runner)));
             && !Answered(s, before) && !Answered(done, during)
             && Answers(Run(done, during), MessagesArrive(job, rendered))
    ensures var done := Step(Run(s, before), Arrive(ReplayDone(runner)));
            Run(s, before + [Arrive(ReplayDone(runner))] + during + [MessagesArrive(job, rendered)] + after).delivered
            == s.delivered + LetThrough(s, before) + LetThrough(done, during)
               + FilterReplay(HeldBack(done, during), rendered) + GatedOf(after)
  {
    var replayDone, reply := Arrive(ReplayDone(runner)), MessagesArrive(job, rendered);
    var done := Step(Run(s, before), replayDone);
    DroppedBeforeDone(s, before);
    DoneWaits(Run(s, before), runner);
    BufferedWhileWaiting(done, [], during);
    NothingAdded(HeldBack(done, during));
    ReplyReleases(Run(done, during), job, rendered);
    LiveAfterReload(Step(Run(done, during), reply), after);
    RunInFive(s, before, replayDone, during, reply, after);
  }

  /**
   From any state on, an epoch that begins with a connection and in which a current reload answers first after
   `replay_done`, whichever reload and whatever else happens: what was held back before `replay_done` is never
   delivered, what was held back after it is delivered by that answer, in order and once, except what the filter
   drops, and all later events follow. Nothing of an earlier epoch comes back.
   */
  lemma EpochDelivers(s: State, before: seq<Input>, runner: Option<string>, during: seq<Input>,
                      job: nat, rendered: set<nat>, after: seq<Input>)
    requires BeforeDone(before) && NoConnect(during) && NoConnect(after)
    requires var start := Step(s, Connect(false));
             var done := Step(Run(start, before), Arrive(ReplayDone(runner)));
             && !Answered(start, before) && !Answered(done, during)
             && Answers(Run(done, during), MessagesArrive(job, rendered))
    ensures var start := Step(s, Connect(false));
            var done := Step(Run(start, before), Arrive(ReplayDone(runner)));
            var epoch := before + [Arrive(ReplayDone(runner))] + during + [MessagesArrive(job, rendered)] + after;
            Run(s, [Connect(false)] + epoch).delivered
            == s.delivered + LetThrough(start, before) + LetThrough(done, during)
               + FilterReplay(HeldBack(done, during), rendered) + GatedOf(after)
  {
    ConnectStartsEpoch(s, false);
    EpochFromConnected(Step(s, Connect(false)), before, runner, during, job, rendered, after);
    FirstThen(s, Connect(false),
              before + [Arrive(ReplayDone(runner))] + during + [MessagesArrive(job, rendered)] + after);
  }

  /** From any state on, a connection that skips the replay delivers every gated event as it comes. */
  lemma SkippedEpochDeliversAll(s: State, inputs: seq<Input>)
    requires NoConnect(inputs)
    ensures Run(s, [Connect(true)] + inputs).delivered == s.delivered + GatedOf(inputs)
  {
    ConnectStartsEpoch(s, true);
    LiveAfterReload(Step(s, Connect(true)), inputs);
    FirstThen(s, Connect(true), inputs);
  }

  /** Nothing answers and the gate is required all along. */
  predicate Closed(s: State, inputs: seq<Input>) {
    forall i | 0 <= i <= |inputs| :: !Lets(s, inputs[..i])
  }

  lemma {:induction false} ClosedHoldsAll(s: State, inputs: seq<Input>)
    requires Closed(s, inputs)
    ensures LetThrough(s, inputs) == [] && HeldBack(s, inputs) == GatedOf(inputs) && !Answered(s, inputs)
  {
    assert inputs[..|inputs|] == inputs;
    if inputs != [] {
      var init := inputs[..|inputs| - 1];
      assert forall i | 0 <= i <= |init| :: init[..i] == inputs[..i];
      ClosedHoldsAll(s, init);
    }
  }

  /**
   While the gate is closed: gated events between connection and `replay_done` are never delivered; those after it
   are delivered exactly once, in arrival order and ahead of all later ones, except those the filter drops.
   */
  lemma EpochDeliversInOrder(s: State, before: seq<Input>, runner: Option<string>, during: seq<Input>,
                             job: nat, rendered: set<nat>, after: seq<Input>)
    requires BeforeDone(before) && NoConnect(during) && NoConnect(after)
    requires var start := Step(s, Connect(false));
             var done := Step(Run(start, before), Arrive(ReplayDone(runner)));
             && Closed(start, before) && Closed(done, during)
             && Answers(Run(done, during), MessagesArrive(job, rendered))
    ensures var epoch := before + [Arrive(ReplayDone(runner))] + during + [MessagesArrive(job, rendered)] + after;
            Run(s, [Connect(false)] + epoch).delivered
            == s.delivered + FilterReplay(GatedOf(during), rendered) + GatedOf(after)
  {
    var start := Step(s, Connect(false));
    var done := Step(Run(start, before), Arrive(ReplayDone(runner)));
    ClosedHoldsAll(start, before);
    ClosedHoldsAll(done, during);
    NothingAdded(s.delivered);
    EpochDelivers(s, before, runner, during, job, rendered, after);
  }

  /** An epoch whose replay was ended early, before `replay_done`: from then on everything is delivered at once. */
  lemma EndedEarlyDeliversAll(s: State, before: seq<Input>, after: seq<Input>)
    requires BeforeDone(before) && NoConnect(after) && Answered(Step(s, Connect(false)), before)
    ensures Run(s, [Connect(false)] + (before + after)).delivered
         == s.delivered + LetThrough(Step(s, Connect(false)), before) + GatedOf(after)
  {
    var start := Step(s, Connect(false));
    ConnectStartsEpoch(s, false);
    DroppedBeforeDone(start, before);
    LiveAfterReload(Run(start, before), after);
    FoldConcat(Step, start, before, after);
    FirstThen(s, Connect(false), before + after);
  }

  // ---- a reload that fails after replay_done

  /** A current reload is answered with its messages. */
  predicate Flushes(s: State, input: Input) {
    input.MessagesArrive? && Acts(s, input.job, Loading)
  }

  predicate Flushed(s: State, inputs: seq<Input>)
    decreases |inputs|
  {
    inputs != []
    && (Flushed(s, inputs[..|inputs| - 1]) || Flushes(Run(s, inputs[..|inputs| - 1]), inputs[|inputs| - 1]))
  }

  /** The replay is over with these events still in the buffer. */
  predicate Stranded(s: State, held: seq<Event>) {
    !s.gate.replaying && s.gate.buffer == held
  }

  lemma FailureStrands(s: State, held: seq<Event>, job: nat)
    requires Waiting(s, held) && Answers(s, ReloadFails(job, true))
    ensures Stranded(Step(s, ReloadFails(job, true)), held)
    ensures Step(s, ReloadFails(job, true)).delivered == s.delivered
  {
  }

  lemma {:induction false} StrandedUntilFlushed(s: State, held: seq<Event>, inputs: seq<Input>)
    requires Stranded(s, held) && NoConnect(inputs) && !Flushed(s, inputs)
    ensures Stranded(Run(s, inputs), held) && Run(s, inputs).delivered == s.delivered + GatedOf(inputs)
  {
    if inputs != [] {
      StrandedUntilFlushed(s, held, inputs[..|inputs| - 1]);
    }
  }

  /**
   Events buffered for a reload that fails are delivered with the messages of the next current reload that is
   answered, behind all that arrived meanwhile, and until then not at all.
   */
  lemma FailedReloadDeliversLate(s: State, held: seq<Event>, failed: nat, meanwhile: seq<Input>, job: nat,
                                 rendered: set<nat>)
    requires Waiting(s, held) && Answers(s, ReloadFails(failed, true)) && NoConnect(meanwhile)
    requires var after := Step(s, ReloadFails(failed, true));
             !Flushed(after, meanwhile) && Flushes(Run(after, meanwhile), MessagesArrive(job, rendered))
    ensures var after := Step(s, ReloadFails(failed, true));
            && Run(after, meanwhile).delivered == s.delivered + GatedOf(meanwhile)
            && Run(after, meanwhile + [MessagesArrive(job, rendered)]).delivered
               == s.delivered + GatedOf(meanwhile) + FilterReplay(held, rendered)
  {
    var after, reply := Step(s, ReloadFails(failed, true)), MessagesArrive(job, rendered);
    FailureStrands(s, held, failed);
    StrandedUntilFlushed(after, held, meanwhile);
    ReplyReleases(Run(after, meanwhile), job, rendered);
    FoldConcat(Step, after, meanwhile, [reply]);
    FoldOne(Step, Run(after, meanwhile), reply);
  }

  /** So an event that comes after the failure overtakes those that are buffered. */
  lemma FailedReloadReorders(s: State, held: seq<Event>, failed: nat, later: Event)
    requires Waiting(s, held) && Answers(s, ReloadFails(failed, true)) && IsGated(later)
    ensures var after := Step(Step(s, ReloadFails(failed, true)), Arrive(later));
            Run(after, [StartReload] + [MessagesArrive(failed + 1, {})]).delivered == s.delivered + [later] + held
  {
    var after := Step(Step(s, ReloadFails(failed, true)), Arrive(later));
    FailureStrands(s, held, failed);
    RunTwo(after, StartReload, MessagesArrive(failed + 1, {}));
    assert !Finished(held, {});
  }

  /** Such a state is reachable, with an event buffered. */
  lemma WaitingIsReachable()
    ensures var s := Run(INITIAL, [Arrive(ReplayDone(None))] + [Arrive(AgentEvent(1))]);
            Waiting(s, [AgentEvent(1)]) && Answers(s, ReloadFails(1, true))
  {
    var done := Step(INITIAL, Arrive(ReplayDone(None)));
    RunTwo(INITIAL, Arrive(ReplayDone(None)), Arrive(AgentEvent(1)));
    DoneStartsWaiting(INITIAL, None);
    StepWhileWaiting(done, [], Arrive(AgentEvent(1)));
    NothingAdded([AgentEvent(1)]);
    assert Step(done, Arrive(AgentEvent(1))).reloads == done.reloads;
  }

  /** What an answer renders; a failure renders nothing. */
  function RenderedBy(answer: Input): set<nat> {
    if answer.MessagesArrive? then answer.rendered else {}
  }

  /** Buffered events are delivered ahead of the next one exactly when the reload is answered with its messages. */
  lemma BufferedComesFirstExactlyWhenAnswered(s: State, held: seq<Event>, answer: Input, next: Event)
    requires Waiting(s, held) && held != [] && Answers(s, answer) && IsGated(next)
    ensures Run(s, [answer] + [Arrive(next)]).delivered == s.delivered + FilterReplay(held, RenderedBy(answer)) + [next]
       <==> answer.MessagesArrive?
  {
    RunTwo(s, answer, Arrive(next));
    if answer.MessagesArrive? {
      ReplyReleases(s, answer.job, answer.rendered);
    } else {
      FailureStrands(s, held, answer.job);
      assert !Finished(held, {});
    }
  }

  lemma RunInFive(s: State, a: seq<Input>, x: Input, b: seq<Input>, y: Input, c: seq<Input>)
    ensures Run(s, a + [x] + b + [y] + c) == Run(Step(Run(Step(Run(s, a), x), b), y), c)
  {
    FoldConcat(Step, s, a + [x] + b + [y], c);
    FoldConcat(Step, s, a + [x] + b, [y]);
    FoldConcat(Step, s, a + [x], b);
    FoldConcat(Step, s, a, [x]);
    FoldOne(Step, Run(s, a), x);
    FoldOne(Step, Run(Step(Run(s, a), x), b), y);
  }

  // ---- what the filter drops

  /** Nothing unless a finished assistant message is already on screen; then exactly the assistant and tool events. */
  lemma {:induction false} FilterDropsExactly(events: seq<Event>, rendered: set<nat>, event: Event)
    ensures event in FilterReplay(events, rendered) <==>
            && event in events
            && ((exists e | e in events :: e.MessageEvent? && e.stage == End && e.fromAssistant && e.id in rendered)
                ==> !event.ToolEvent? && (event.MessageEvent? ==> !event.fromAssistant))
  {
    if Finished(events, rendered) {
      KeptExactly(events, event);
    }
  }

  lemma {:induction false} KeptExactly(events: seq<Event>, event: Event)
    ensures event in FlatMap(KeptOf, events) <==> event in events && Kept(event)
  {
    if events != [] {
      KeptExactly(events[..|events| - 1], event);
      assert events == events[..|events| - 1] + [events[|events| - 1]];
    }
  }
}
