/**
 Render jobs over whole runs: every suspended job resumes at any time, live messages arrive at any
 time, and each new render supersedes the ones before it.
 */
module TranscriptJobs {
  import opened Prelude
  import opened TranscriptTurns
  import opened ToolCards
  import opened TranscriptRender

  /** How many messages the first chunk and each later chunk may hold. */
  datatype SizesRaw = SizesRaw(tail: nat, chunk: nat)
  type Sizes = s: SizesRaw | s.tail >= 1 && s.chunk >= 1 witness SizesRaw(40, 60)

  /** The transcript as shown, and the card operations performed since it was last cleared. */
  datatype Screen = Screen(contents: seq<Message>, log: seq<CardOp>)

  /** Where a job is suspended: after publishing a chunk, before taking the next one, or not at all. */
  datatype Stage = AfterChunk | AtYield | Returned(complete: bool)
  datatype Job = Job(number: nat, turns: seq<Turn>, stage: Stage)
  datatype Machine = Machine(sizes: Sizes, screen: Screen, current: nat, jobs: seq<Job>)

  datatype Event = StartRender(messages: seq<Message>) | Resume(index: nat) | LiveMessage(message: Message) | ClearAll

  function Initial(sizes: Sizes): Machine {
    Machine(sizes, Screen([], []), 0, [])
  }

  function Render(screen: Screen, chunk: seq<Message>, prepend: bool): Screen {
    Screen(if prepend then ShownAll(chunk) + screen.contents else screen.contents + ShownAll(chunk),
           screen.log + OpsAll(if prepend then Reverse(chunk) else chunk))
  }

  function Start(m: Machine, messages: seq<Message>): Machine {
    var (chunk, rest) := TakeTail(SplitTurns(messages), m.sizes.tail, true, []);
    Machine(m.sizes, Render(Screen([], []), chunk, false), m.current + 2,
            m.jobs + [Job(m.current + 2, rest, AfterChunk)])
  }

  function Continue(m: Machine, index: nat): Machine
    requires index < |m.jobs|
  {
    var job := m.jobs[index];
    match job.stage
    case Returned(_) => m
    case AfterChunk => m.(jobs := m.jobs[index := job.(stage := if job.turns == [] then Returned(true) else AtYield)])
    case AtYield =>
      if job.number != m.current then m.(jobs := m.jobs[index := job.(stage := Returned(false))])
      else
        var (chunk, rest) := TakeTail(job.turns, m.sizes.chunk, false, []);
        m.(screen := Render(m.screen, chunk, true), jobs := m.jobs[index := job.(turns := rest, stage := AfterChunk)])
  }

  function Step(m: Machine, event: Event): Machine {
    match event
    case StartRender(messages) => Start(m, messages)
    case Resume(index) => if index < |m.jobs| then Continue(m, index) else m
    case LiveMessage(message) => m.(screen := Render(m.screen, [message], false))
    case ClearAll => m.(screen := Screen([], []), current := m.current + 1)
  }

  function Run(m: Machine, events: seq<Event>): Machine {
    Fold(Step, m, events)
  }

  // ---- what the run should have shown, read off the events alone

  function NextBase(base: seq<Message>, event: Event): seq<Message> {
    match event
    case StartRender(messages) => messages
    case ClearAll => []
    case _ => base
  }

  function NextLive(live: seq<Message>, event: Event): seq<Message> {
    match event
    case StartRender(_) => []
    case ClearAll => []
    case LiveMessage(message) => live + [message]
    case Resume(_) => live
  }

  /** The messages of the latest render, unless the transcript was cleared since. */
  function Base(events: seq<Event>): seq<Message> {
    if events == [] then [] else NextBase(Base(events[..|events| - 1]), events[|events| - 1])
  }

  /** The live messages since the latest render or clear. */
  function Live(events: seq<Event>): seq<Message> {
    if events == [] then [] else NextLive(Live(events[..|events| - 1]), events[|events| - 1])
  }

  predicate Numbered(m: Machine) {
    && (forall i | 0 <= i < |m.jobs| :: m.jobs[i].number <= m.current && NonEmptyTurns(m.jobs[i].turns))
    && (forall i | 0 <= i < |m.jobs| && m.jobs[i].stage.AtYield? :: m.jobs[i].turns != [])
    && (forall i, j | 0 <= i < j < |m.jobs| :: m.jobs[i].number < m.jobs[j].number)
  }

  /** The screen shows the tail of `base` that `turns` no longer holds, then the live messages. */
  predicate Shows(screen: Screen, turns: seq<Turn>, base: seq<Message>, live: seq<Message>) {
    var left := |Flatten(turns)|;
    && left <= |base| && base[..left] == Flatten(turns)
    && screen.contents == ShownAll(base[left..] + live)
    && multiset(screen.log) == multiset(OpsAll(base[left..] + live))
  }

  predicate Inv(m: Machine, base: seq<Message>, live: seq<Message>) {
    && Numbered(m)
    && forall i | 0 <= i < |m.jobs| && m.jobs[i].number == m.current ::
         && Shows(m.screen, m.jobs[i].turns, base, live)
         && (m.jobs[i].stage.Returned? ==> m.jobs[i].stage.complete && m.jobs[i].turns == [])
  }

  lemma TailOfAll(messages: seq<Message>, left: seq<Message>, chunk: seq<Message>)
    requires left + chunk == messages
    ensures |left| <= |messages| && messages[..|left|] == left && messages[|left|..] + [] == chunk
  {
  }

  lemma FirstShows(chunk: seq<Message>)
    ensures Render(Screen([], []), chunk, false).contents == ShownAll(chunk)
    ensures Render(Screen([], []), chunk, false).log == OpsAll(chunk)
  {
    NothingAdded(ShownAll(chunk));
    NothingAdded(OpsAll(chunk));
  }

  lemma StartShows(messages: seq<Message>, sizes: Sizes)
    ensures var (chunk, rest) := TakeTail(SplitTurns(messages), sizes.tail, true, []);
            NonEmptyTurns(rest) && Shows(Render(Screen([], []), chunk, false), rest, messages, [])
  {
    SplitTurnsLaw(messages);
    TakeTailLaw(SplitTurns(messages), sizes.tail, true, []);
    var (chunk, rest) := TakeTail(SplitTurns(messages), sizes.tail, true, []);
    NothingAdded(messages);
    TailOfAll(messages, Flatten(rest), chunk);
    FirstShows(chunk);
  }

  lemma TailGrows(base: seq<Message>, left: seq<Message>, chunk: seq<Message>, live: seq<Message>)
    requires |left + chunk| <= |base| && base[..|left + chunk|] == left + chunk
    ensures base[|left|..] + live == chunk + (base[|left + chunk|..] + live)
    ensures base[..|left|] == left
  {
    assert base == left + chunk + base[|left + chunk|..];
  }

  lemma PrependShows(screen: Screen, turns: seq<Turn>, base: seq<Message>, live: seq<Message>, sizes: Sizes)
    requires Shows(screen, turns, base, live) && NonEmptyTurns(turns)
    ensures var (chunk, rest) := TakeTail(turns, sizes.chunk, false, []);
            NonEmptyTurns(rest) && Shows(Render(screen, chunk, true), rest, base, live)
  {
    TakeTailLaw(turns, sizes.chunk, false, []);
    var (chunk, rest) := TakeTail(turns, sizes.chunk, false, []);
    assert Flatten(rest) + chunk == Flatten(turns);
    TailGrows(base, Flatten(rest), chunk, live);
    ChunkShows(screen, chunk, base[|Flatten(turns)|..] + live);
  }

  lemma ChunkShows(screen: Screen, chunk: seq<Message>, shown: seq<Message>)
    requires screen.contents == ShownAll(shown) && multiset(screen.log) == multiset(OpsAll(shown))
    ensures Render(screen, chunk, true).contents == ShownAll(chunk + shown)
    ensures multiset(Render(screen, chunk, true).log) == multiset(OpsAll(chunk + shown))
  {
    FlatMapConcat(Shown, chunk, shown);
    FlatMapConcat(OpsOf, chunk, shown);
    ReverseSameOps(chunk);
  }

  lemma LiveShows(screen: Screen, turns: seq<Turn>, base: seq<Message>, live: seq<Message>, message: Message)
    requires Shows(screen, turns, base, live)
    ensures Shows(Render(screen, [message], false), turns, base, live + [message])
  {
    var shown := base[|Flatten(turns)|..];
    assert shown + (live + [message]) == (shown + live) + [message];
    FlatMapConcat(Shown, shown + live, [message]);
    FlatMapConcat(OpsOf, shown + live, [message]);
  }

  lemma NewJobInv(m: Machine, screen: Screen, turns: seq<Turn>, base: seq<Message>)
    requires Numbered(m) && NonEmptyTurns(turns) && Shows(screen, turns, base, [])
    ensures var number := m.current + 2;
            Inv(Machine(m.sizes, screen, number, m.jobs + [Job(number, turns, AfterChunk)]), base, [])
  {
  }

  lemma StartInv(m: Machine, messages: seq<Message>)
    requires Numbered(m)
    ensures Inv(Start(m, messages), messages, [])
  {
    var (chunk, rest) := TakeTail(SplitTurns(messages), m.sizes.tail, true, []);
    StartShows(messages, m.sizes);
    NewJobInv(m, Render(Screen([], []), chunk, false), rest, messages);
  }

  lemma LiveInv(m: Machine, base: seq<Message>, live: seq<Message>, message: Message)
    requires Inv(m, base, live)
    ensures Inv(Step(m, LiveMessage(message)), base, live + [message])
  {
    forall i | 0 <= i < |m.jobs| && m.jobs[i].number == m.current
      ensures Shows(Render(m.screen, [message], false), m.jobs[i].turns, base, live + [message])
    {
      LiveShows(m.screen, m.jobs[i].turns, base, live, message);
    }
  }

  predicate MayBe(job: Job) {
    && NonEmptyTurns(job.turns) && (job.stage.AtYield? ==> job.turns != [])
    && (job.stage.Returned? ==> job.stage.complete && job.turns == [])
  }

  /** The current job moves on. */
  lemma CurrentMoves(m: Machine, base: seq<Message>, live: seq<Message>, index: nat, screen: Screen, job: Job)
    requires Inv(m, base, live) && index < |m.jobs| && m.jobs[index].number == job.number == m.current
    requires MayBe(job) && Shows(screen, job.turns, base, live)
    ensures Inv(m.(screen := screen, jobs := m.jobs[index := job]), base, live)
  {
  }

  /** A superseded job moves on, and the screen stays. */
  lemma OtherMoves(m: Machine, base: seq<Message>, live: seq<Message>, index: nat, stage: Stage)
    requires Inv(m, base, live) && index < |m.jobs| && m.jobs[index].number != m.current
    requires stage.AtYield? ==> m.jobs[index].turns != []
    ensures Inv(m.(jobs := m.jobs[index := m.jobs[index].(stage := stage)]), base, live)
  {
  }

  lemma ResumeInv(m: Machine, base: seq<Message>, live: seq<Message>, index: nat)
    requires Inv(m, base, live) && index < |m.jobs|
    ensures Inv(Continue(m, index), base, live)
  {
    var job, after := m.jobs[index], Continue(m, index);
    if job.stage.Returned? {
    } else if job.number != m.current {
      OtherMoves(m, base, live, index, after.jobs[index].stage);
    } else {
      if job.stage.AtYield? {
        PrependShows(m.screen, job.turns, base, live, m.sizes);
      }
      CurrentMoves(m, base, live, index, after.screen, after.jobs[index]);
    }
  }

  lemma StepInv(m: Machine, base: seq<Message>, live: seq<Message>, event: Event)
    requires Inv(m, base, live)
    ensures Inv(Step(m, event), NextBase(base, event), NextLive(live, event)) && Step(m, event).sizes == m.sizes
  {
    match event
    case StartRender(messages) => StartInv(m, messages);
    case ClearAll =>
    case LiveMessage(message) => LiveInv(m, base, live, message);
    case Resume(index) =>
      if index < |m.jobs| {
        ResumeInv(m, base, live, index);
      }
  }

  /** The invariant holds after every run. */
  lemma {:induction false} RunInv(events: seq<Event>, sizes: Sizes)
    ensures Inv(Run(Initial(sizes), events), Base(events), Live(events))
    ensures Run(Initial(sizes), events).sizes == sizes
  {
    if events != [] {
      var before, event := events[..|events| - 1], events[|events| - 1];
      RunInv(before, sizes);
      StepInv(Run(Initial(sizes), before), Base(before), Live(before), event);
    }
  }

  // ---- the theorems

  /**
   Refinement: a render that has completed and is still the current job shows exactly what plain in-order
   rendering of all its messages followed by the live ones shows, and leaves exactly the same tool cards.
   */
  lemma CompletedRenderIsInOrder(events: seq<Event>, sizes: Sizes, index: nat)
    requires var m := Run(Initial(sizes), events);
             index < |m.jobs| && m.jobs[index].stage == Returned(true) && m.jobs[index].number == m.current
    ensures var m := Run(Initial(sizes), events);
            var all := Base(events) + Live(events);
            && m.screen.contents == ShownAll(all) && Sifted(all, m.screen.contents)
            && (NoClash(OpsAll(all)) ==>
                  && ToolCards.Run(EMPTY, m.screen.log) == ToolCards.Run(EMPTY, OpsAll(all))
                  && CardsTell(all, ToolCards.Run(EMPTY, m.screen.log).cards))
  {
    RunInv(events, sizes);
    var m := Run(Initial(sizes), events);
    var all := Base(events) + Live(events);
    assert Base(events)[0..] == Base(events);
    var at := ShownIsSifted(all);
    if NoClash(OpsAll(all)) {
      CardsOfMessages(all);
      OrderIndependence(OpsAll(all), m.screen.log);
    }
  }

  /** A superseded job stays superseded and never touches the screen again, in any continuation. */
  lemma {:induction false} SupersededNeverInserts(m: Machine, events: seq<Event>, index: nat)
    requires index < |m.jobs| && m.jobs[index].number < m.current
    ensures var after := Run(m, events);
            && index < |after.jobs| && after.jobs[index].number < after.current
            && Step(after, Resume(index)).screen == after.screen
  {
    if events != [] {
      SupersededNeverInserts(m, events[..|events| - 1], index);
    }
  }

  /** Starting a render, or clearing, supersedes every job there is. */
  lemma NewRenderSupersedes(events: seq<Event>, sizes: Sizes, event: Event, index: nat)
    requires event.StartRender? || event.ClearAll?
    requires index < |Run(Initial(sizes), events).jobs|
    ensures var after := Step(Run(Initial(sizes), events), event);
            after.jobs[index].number < after.current
  {
    RunInv(events, sizes);
  }

  /**
   The value a superseded render returns says nothing about the screen: it reports completion
   exactly when it had no turns left to take.
   */
  lemma SupersededResult(m: Machine, index: nat)
    requires index < |m.jobs| && m.jobs[index].number < m.current && m.jobs[index].stage.AfterChunk?
    ensures var after := Run(m, [Resume(index)] + [Resume(index)]);
            && index < |after.jobs| && after.jobs[index].stage == Returned(m.jobs[index].turns == [])
            && after.screen == m.screen
  {
    FoldConcat(Step, m, [Resume(index)], [Resume(index)]);
    FoldOne(Step, m, Resume(index));
    FoldOne(Step, Step(m, Resume(index)), Resume(index));
  }

  /** A superseded render that reports completion: nothing to render, and another render begun before it went on. */
  lemma SupersededReportsCompletion(sizes: Sizes)
    ensures var m := Run(Initial(sizes), [StartRender([])] + [StartRender([])]);
            && |m.jobs| == 2 && m.jobs[0].number < m.current
            && var after := Run(m, [Resume(0)] + [Resume(0)]);
               |after.jobs| == 2 && after.jobs[0].stage == Returned(true)
  {
    var initial := Initial(sizes);
    var m := Run(initial, [StartRender([])] + [StartRender([])]);
    FoldConcat(Step, initial, [StartRender([])], [StartRender([])]);
    FoldOne(Step, initial, StartRender([]));
    FoldOne(Step, Step(initial, StartRender([])), StartRender([]));
    StartEmpty(initial);
    StartEmpty(Start(initial, []));
    SupersededResult(m, 0);
    FoldConcat(Step, m, [Resume(0)], [Resume(0)]);
    FoldOne(Step, m, Resume(0));
    FoldOne(Step, Step(m, Resume(0)), Resume(0));
  }

  lemma StartEmpty(m: Machine)
    ensures var after := Start(m, []);
            after.current == m.current + 2 && after.jobs == m.jobs + [Job(m.current + 2, [], AfterChunk)]
  {
    SplitTurnsLaw([]);
    assert SplitTurns([]) == [];
  }

  lemma ResumeShrinks(m: Machine, index: nat)
    requires Numbered(m) && index < |m.jobs| && m.jobs[index].number == m.current && !m.jobs[index].stage.Returned?
    ensures var after := Continue(m, index);
            && Numbered(after) && after.jobs[index].number == after.current && |after.jobs| == |m.jobs|
            && (after.jobs[index].stage.Returned? ==> after.jobs[index].stage.complete && after.jobs[index].turns == [])
            && (|| |Flatten(after.jobs[index].turns)| < |Flatten(m.jobs[index].turns)|
                || (after.jobs[index].turns == m.jobs[index].turns
                    && m.jobs[index].stage.AfterChunk? && !after.jobs[index].stage.AfterChunk?))
  {
    TakeTailLaw(m.jobs[index].turns, m.sizes.chunk, false, []);
  }

  /** Left alone, the current job drains its turns and completes. */
  lemma {:induction false} CurrentJobCompletes(m: Machine, index: nat) returns (resumes: seq<Event>)
    requires Numbered(m) && index < |m.jobs| && m.jobs[index].number == m.current && !m.jobs[index].stage.Returned?
    ensures forall i | 0 <= i < |resumes| :: resumes[i] == Resume(index)
    ensures var after := Run(m, resumes);
            index < |after.jobs| && after.jobs[index].stage == Returned(true) && after.jobs[index].turns == []
    decreases |Flatten(m.jobs[index].turns)|, m.jobs[index].stage.AfterChunk?
  {
    var next := Continue(m, index);
    ResumeShrinks(m, index);
    var rest := [];
    if !next.jobs[index].stage.Returned? {
      rest := CurrentJobCompletes(next, index);
    }
    resumes := [Resume(index)] + rest;
    FoldConcat(Step, m, [Resume(index)], rest);
    FoldOne(Step, m, Resume(index));
  }
}
