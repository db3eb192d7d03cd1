/**
 When an upload succeeds: what every answer does to the client, and how many requests in a row may go wrong.
 Nothing fails on the disk here; requests and replies may be lost, and proxies may answer.
 */
module UploadFinishing {
  import opened Prelude
  import opened UploadServer
  import opened UploadClient
  import opened UploadEnding

  // ---- what each answer does

  predicate TryLater(status: nat) {
    status >= 500 || status == 429
  }

  /** The request was lost, or is to be sent again, or the server has another part than the client thinks. */
  predicate Setback(answer: Answer) {
    match answer
    case Lost => true
    case Http(status, reply) =>
      TryLater(status) || (status == 409 && reply.Some? && reply.value.OutOfSync?)
  }

  /** After a setback the client tries again, from where the server says if it says so, and gives up after six. */
  lemma SetbackLaw(file: File, client: Client, answer: Answer)
    requires Setback(answer) && client.progress.Uploading?
    ensures var after := React(file, client, answer);
            && after.chunkSize == client.chunkSize && after.attempts == client.attempts + 1
            && (after.progress.Failed? <==> client.attempts >= 6) && !after.progress.Finished?
            && (answer.Lost? || answer.reply.None? || !answer.reply.value.OutOfSync? ==> after.offset == client.offset)
            && (answer.Http? && answer.status == 409 && client.attempts < 6 ==> after.offset == answer.reply.value.have)
  {
  }

  /** A body too large for a proxy: the next is half as long, but no smaller than 64 KiB, and starts where it did. */
  lemma TooLargeLaw(file: File, client: Client)
    requires client.progress.Uploading? && client.chunkSize > 64 * 1024 && client.offset <= |file.bytes|
    ensures var after := React(file, client, Http(413, None));
            && after.progress.Uploading? && after.offset == client.offset && after.attempts == 0
            && after.shrinks == client.shrinks + 1
            && after.chunkSize == (var sent := |NextRequest(file, client).chunk.body|;
                                   if sent < 128 * 1024 then 64 * 1024 else sent / 2)
  {
  }

  /** A success resets the retries; the last one ends the upload. */
  lemma SuccessLaw(file: File, client: Client, reply: Reply)
    requires client.progress.Uploading? && client.offset <= |file.bytes| && (reply.Received? || reply.Saved?)
    ensures var after := React(file, client, Http(200, Some(reply)));
            && after.attempts == 0 && after.chunkSize == client.chunkSize
            && (after.progress.Finished? <==> NextRequest(file, client).chunk.last || reply.Saved?)
            && (!after.progress.Finished? ==> after.progress.Uploading? && after.offset == reply.size)
  {
  }

  /** Every other answer ends the upload at once: a redirect, another refusal, or 413 to a smallest chunk. */
  lemma OtherwiseGivesUp(file: File, client: Client, status: nat, reply: Option<Reply>)
    requires client.progress.Uploading? && status >= 300 && !Setback(Http(status, reply))
    requires status == 413 ==> client.chunkSize <= MIN_CHUNK
    ensures React(file, client, Http(status, reply)).progress.Failed?
  {
  }

  // ---- setbacks in a row

  function AnswerAt(file: File, world: World, event: Event): Answer {
    Exchange(world.net, NextRequest(file, world.client), event).1
  }

  /** How many requests up to the n-th were setbacks, counted back from the last one without a gap. */
  function Streak(file: File, run: nat -> World, schedule: Schedule, n: nat): nat {
    if n == 0 then 0
    else if !run(n - 1).client.progress.Uploading? then Streak(file, run, schedule, n - 1)
    else if Setback(AnswerAt(file, run(n - 1), schedule(n - 1))) then Streak(file, run, schedule, n - 1) + 1
    else 0
  }

  /** What a proxy may answer without ending the upload: try later, or that a chunk above the smallest is too large. */
  predicate Bearable(event: Event, chunkSize: nat) {
    event.fate.Proxied? ==>
      TryLater(event.fate.status) || (event.fate.status == 413 && chunkSize > MIN_CHUNK)
  }

  ghost predicate AlwaysBearable(run: nat -> World, schedule: Schedule) {
    forall k: nat | run(k).client.progress.Uploading? :: Bearable(schedule(k), run(k).client.chunkSize)
  }

  /** The loop of a file as it starts after others, with nothing of any file on its way. */
  predicate FreshStart(start: World) {
    && Starts(start) && start.net.sent == {} && start.client.chunkSize <= MAX_CHUNK
    && start.client.shrinks + ShrinksLeft(start.client.chunkSize) <= 7
  }

  ghost predicate AlwaysClean(file: File, schedule: Schedule) {
    forall k: nat :: Clean(file.name, schedule(k))
  }

  /** One bearable request on a calm disk: a setback, a smaller chunk or a success. */
  lemma BearableStep(file: File, world: World, event: Event)
    requires world.client.progress.Uploading? && Steady(file, world)
    requires Clean(file.name, event) && Bearable(event, world.client.chunkSize)
    ensures var answer, after := AnswerAt(file, world, event), Iterate(file, world, event).client;
            if Setback(answer) then
              after.attempts == world.client.attempts + 1
              && after.progress == if world.client.attempts >= MAX_RETRIES then Failed else Uploading
            else after.attempts == 0 && !after.progress.Failed?
  {
    var arrived := CleanArrivals(file, world, event);
    NextRequestIsPiece(file, world.client);
    HandleKeeps(SlotOf(arrived.net.store, file.name), NextRequest(file, world.client).chunk, Fine, file.bytes);
  }

  /** The retries counted are the setbacks in a row, and the client gives up at the seventh. */
  predicate Counted(world: World, streak: nat) {
    match world.client.progress
    case Uploading => world.client.attempts == streak <= MAX_RETRIES
    case Finished => streak == 0
    case Failed => streak == MAX_RETRIES + 1
  }

  /** A run takes its steps while the upload goes on, and then stays. */
  ghost predicate IsRun(file: File, run: nat -> World, schedule: Schedule) {
    Follows(file, run, schedule, 0) && forall k: nat | !run(k).client.progress.Uploading? :: run(k + 1) == run(k)
  }

  lemma RunOfIsRun(file: File, start: World, schedule: Schedule)
    ensures IsRun(file, RunOf(file, start, schedule), schedule)
  {
    var run := RunOf(file, start, schedule);
    forall k: nat
      ensures run(k + 1) == if run(k).client.progress.Uploading? then Iterate(file, run(k), schedule(0 + k)) else run(k)
    {
      TraceStep(file, start, schedule, 0, k, k);
    }
  }

  lemma CountedStep(file: File, world: World, event: Event, streak: nat)
    requires world.client.progress.Uploading? && Steady(file, world) && Counted(world, streak)
    requires Clean(file.name, event) && Bearable(event, world.client.chunkSize)
    ensures var after := Iterate(file, world, event);
            Steady(file, after) && Counted(after, if Setback(AnswerAt(file, world, event)) then streak + 1 else 0)
  {
    BearableStep(file, world, event);
    CleanIterationIsProgress(file, world, event);
  }

  lemma {:induction false} StreakCounts(file: File, run: nat -> World, schedule: Schedule, n: nat)
    requires IsRun(file, run, schedule) && Steady(file, run(0)) && Counted(run(0), 0)
    requires AlwaysClean(file, schedule) && AlwaysBearable(run, schedule)
    ensures Steady(file, run(n)) && Counted(run(n), Streak(file, run, schedule, n))
  {
    if n > 0 {
      StreakCounts(file, run, schedule, n - 1);
      if run(n - 1).client.progress.Uploading? {
        assert run(n - 1 + 1) == Iterate(file, run(n - 1), schedule(0 + (n - 1)));
        CountedStep(file, run(n - 1), schedule(n - 1), Streak(file, run, schedule, n - 1));
      } else {
        assert run(n - 1 + 1) == run(n - 1);
      }
    }
  }

  /** Over a clean network an upload ends, and it has failed exactly when there were more than six setbacks in a row. */
  lemma FailsExactlyAfterSeven(file: File, start: World, schedule: Schedule) returns (total: nat)
    requires Starts(start) && Steady(file, start)
    requires AlwaysClean(file, schedule) && AlwaysBearable(RunOf(file, start, schedule), schedule)
    ensures var run := RunOf(file, start, schedule);
            && !run(total).client.progress.Uploading?
            && forall n :: run(n).client.progress.Failed? <==> Streak(file, run, schedule, n) > 6
  {
    var run := RunOf(file, start, schedule);
    total := CleanEnds(file, start, schedule, 0);
    RunOfIsRun(file, start, schedule);
    forall n: nat ensures Counted(run(n), Streak(file, run, schedule, n)) {
      StreakCounts(file, run, schedule, n);
    }
  }

  /** A file alone: whose requests have not been sent. */
  lemma FreshIsOk(file: File, start: World)
    requires FreshStart(start)
    ensures ClientOk(file, start, map[file.name := file.bytes], Calm) && Steady(file, start)
  {
  }

  /**
   Over a clean network and a disk that does not fail, an upload is over after some number of requests, and then the
   file is reported as uploaded and stored with its exact bytes exactly when never more than six requests in a row
   were setbacks.
   */
  lemma FinishesExactlyWithinRetries(file: File, start: World, schedule: Schedule) returns (total: nat)
    requires FreshStart(start) && AlwaysCalm(schedule) && AlwaysClean(file, schedule)
    requires AlwaysBearable(RunOf(file, start, schedule), schedule)
    ensures var run := RunOf(file, start, schedule);
            && !run(total).client.progress.Uploading?
            && (run(total).client.progress.Finished? && Holds(run(total).net, file)
                <==> Streak(file, run, schedule, total) <= 6)
  {
    FreshIsOk(file, start);
    total := FailsExactlyAfterSeven(file, start, schedule);
    TraceKeeps(file, start, schedule, 0, total, map[file.name := file.bytes], Calm);
  }

  // ---- proxies with a limit: no request is ever out of sequence

  /** The reply does not come: the request or its reply is lost, or a proxy asks to try later. */
  predicate Missed(event: Event) {
    event.fate.Dropped? || (event.fate.Proxied? && TryLater(event.fate.status))
  }

  /** How many events before the n-th were missed, counted back without a gap. */
  function Misses(schedule: Schedule, n: nat): nat {
    if n == 0 then 0 else if Missed(schedule(n - 1)) then Misses(schedule, n - 1) + 1 else 0
  }

  function BodyOf(file: File, client: Client): nat {
    |NextRequest(file, client).chunk.body|
  }

  /** Bodies above the limit, and only those, are answered with 413, and not passed on. */
  predicate Limits(file: File, client: Client, event: Event, limit: nat) {
    match event.fate
    case Delivered(_) => BodyOf(file, client) <= limit
    case Dropped(applied) => applied.Some? ==> BodyOf(file, client) <= limit
    case Proxied(applied, status) =>
      if status == 413 then applied.None? && BodyOf(file, client) > limit
      else TryLater(status) && BodyOf(file, client) <= limit
  }

  ghost predicate AlwaysLimits(file: File, run: nat -> World, schedule: Schedule, limit: nat) {
    limit >= MIN_CHUNK
    && forall k: nat | run(k).client.progress.Uploading? :: Limits(file, run(k).client, schedule(k), limit)
  }

  predicate OldChunksReach(file: File, world: World) {
    forall r | r in world.net.sent && r.name == file.name && r.chunk.offset > 0 && !r.chunk.last ::
      |r.chunk.body| >= world.client.chunkSize
  }

  /**
   The server has what the client has sent: just that, or the next chunk as well, or the whole file when the next
   chunk is the last and has passed the proxies before.
   */
  predicate SlotInSync(slot: Slot, file: File, client: Client, limit: nat) {
    if slot.part.Some? then
      && slot.part.value <= file.bytes
      && (|slot.part.value| == client.offset || |slot.part.value| >= ChunkEnd(file, client))
      && |slot.part.value| >= client.offset
    else slot.target == Some(file.bytes) && ChunkEnd(file, client) == |file.bytes| && BodyOf(file, client) <= limit
  }

  predicate InSync(file: File, world: World, limit: nat) {
    && OldChunksReach(file, world)
    && (world.client.offset > 0 ==> SlotInSync(SlotOf(world.net.store, file.name), file, world.client, limit))
  }

  lemma MiddleStaysInSync(slot: Slot, chunk: Chunk, file: File, client: Client, limit: nat)
    requires SlotInSync(slot, file, client, limit) && client.offset <= |file.bytes| && client.offset > 0
    requires Piece(chunk, file.bytes) && chunk.offset > 0 && !chunk.last && |chunk.body| >= client.chunkSize
    ensures SlotInSync(Handle(slot, chunk, Fine).0, file, client, limit)
  {
    if slot.part.Some? {
      JoinPiece(slot.part.value, chunk, file.bytes);
    }
  }

  lemma {:induction false} LateStaysInSync(file: File, world: World, late: seq<Late>, limit: nat)
    requires Steady(file, world) && InSync(file, world, limit)
    requires forall i | 0 <= i < |late| :: Forward(file.name, late[i])
    ensures InSync(file, World(world.client, ApplyLate(world.net, late)), limit)
    ensures ApplyLate(world.net, late).sent == world.net.sent
  {
    if late != [] {
      LateStaysInSync(file, world, late[..|late| - 1], limit);
      var before := ApplyLate(world.net, late[..|late| - 1]);
      var arrival := late[|late| - 1];
      assert Forward(file.name, arrival);
      if arrival.request in world.net.sent && arrival.request.name == file.name && world.client.offset > 0 {
        MiddleStaysInSync(SlotOf(before.store, file.name), arrival.request.chunk, file, world.client, limit);
      }
    }
  }

  /** A request that is handled and answered. */
  lemma AnsweredInSync(file: File, world: World, fate: Fate, limit: nat)
    requires world.client.progress.Uploading? && Steady(file, world) && InSync(file, world, limit)
    requires CalmFate(fate) && Limits(file, world.client, Event([], fate), limit) && fate.Delivered?
    ensures var after := Iterate(file, world, Event([], fate));
            after.client.progress.Uploading? ==> InSync(file, after, limit)
  {
    var slot, request := SlotOf(world.net.store, file.name), NextRequest(file, world.client);
    NextRequestIsPiece(file, world.client);
    assert ApplyLate(world.net, []) == world.net;
    JoinPiece(if world.client.offset > 0 && slot.part.Some? then slot.part.value else [], request.chunk, file.bytes);
    HandleKeeps(slot, request.chunk, Fine, file.bytes);
  }

  /** One that is handled, with the reply lost. */
  lemma UnansweredInSync(file: File, world: World, fate: Fate, limit: nat)
    requires world.client.progress.Uploading? && Steady(file, world) && InSync(file, world, limit)
    requires CalmFate(fate) && Limits(file, world.client, Event([], fate), limit)
    requires !fate.Delivered? && Applied(fate).Some?
    ensures var after := Iterate(file, world, Event([], fate));
            after.client.progress.Uploading? ==> InSync(file, after, limit)
  {
    var slot, request := SlotOf(world.net.store, file.name), NextRequest(file, world.client);
    NextRequestIsPiece(file, world.client);
    assert ApplyLate(world.net, []) == world.net;
    JoinPiece(if world.client.offset > 0 && slot.part.Some? then slot.part.value else [], request.chunk, file.bytes);
    HandleKeeps(slot, request.chunk, Fine, file.bytes);
  }

  /** One that is not handled. */
  lemma UnhandledInSync(file: File, world: World, fate: Fate, limit: nat)
    requires world.client.progress.Uploading? && Steady(file, world) && InSync(file, world, limit)
    requires Limits(file, world.client, Event([], fate), limit) && limit >= MIN_CHUNK && Applied(fate).None?
    ensures var after := Iterate(file, world, Event([], fate));
            after.client.progress.Uploading? ==> InSync(file, after, limit)
  {
    NextRequestIsPiece(file, world.client);
    assert ApplyLate(world.net, []) == world.net;
  }

  lemma FateStaysInSync(file: File, world: World, fate: Fate, limit: nat)
    requires world.client.progress.Uploading? && Steady(file, world) && InSync(file, world, limit)
    requires CalmFate(fate) && Limits(file, world.client, Event([], fate), limit) && limit >= MIN_CHUNK
    ensures var after := Iterate(file, world, Event([], fate));
            after.client.progress.Uploading? ==> InSync(file, after, limit)
  {
    if fate.Delivered? {
      AnsweredInSync(file, world, fate, limit);
    } else if Applied(fate).Some? {
      UnansweredInSync(file, world, fate, limit);
    } else {
      UnhandledInSync(file, world, fate, limit);
    }
  }

  /** In sync, the server is never asked for a chunk out of sequence. */
  lemma NeverOutOfSequence(file: File, world: World, fate: Fate, limit: nat)
    requires world.client.progress.Uploading? && Steady(file, world) && InSync(file, world, limit)
    requires CalmFate(fate) && Limits(file, world.client, Event([], fate), limit)
    ensures Setback(AnswerAt(file, world, Event([], fate))) <==> Missed(Event([], fate))
  {
    var slot, request := SlotOf(world.net.store, file.name), NextRequest(file, world.client);
    NextRequestIsPiece(file, world.client);
    assert ApplyLate(world.net, []) == world.net;
    JoinPiece(if world.client.offset > 0 && slot.part.Some? then slot.part.value else [], request.chunk, file.bytes);
    HandleKeeps(slot, request.chunk, Fine, file.bytes);
  }

  lemma StaysInSync(file: File, world: World, event: Event, limit: nat)
    requires world.client.progress.Uploading? && Steady(file, world) && InSync(file, world, limit)
    requires Clean(file.name, event) && Limits(file, world.client, event, limit) && limit >= MIN_CHUNK
    ensures var after := Iterate(file, world, event);
            && (after.client.progress.Uploading? ==> InSync(file, after, limit))
            && (Setback(AnswerAt(file, world, event)) <==> Missed(event))
  {
    LateStaysInSync(file, world, event.late, limit);
    LateChunksGrow(file, world.net, event.late);
    var late := World(world.client, ApplyLate(world.net, event.late));
    LateFirst(file, world, event);
    SteadyLate(file, world, late);
    FateStaysInSync(file, late, event.fate, limit);
    NeverOutOfSequence(file, late, event.fate, limit);
    SameAnswer(file, world, event);
  }

  lemma SteadyLate(file: File, world: World, late: World)
    requires Steady(file, world) && late.client == world.client && late.net.sent == world.net.sent
    requires Grown(SlotOf(world.net.store, file.name), SlotOf(late.net.store, file.name), file.bytes)
    ensures Steady(file, late)
  {
  }

  lemma SameAnswer(file: File, world: World, event: Event)
    ensures AnswerAt(file, world, event)
         == AnswerAt(file, World(world.client, ApplyLate(world.net, event.late)), Event([], event.fate))
  {
  }

  lemma LimitsBear(file: File, client: Client, event: Event, limit: nat)
    requires Limits(file, client, event, limit) && limit >= MIN_CHUNK && client.offset <= |file.bytes|
    ensures Bearable(event, client.chunkSize)
  {
  }

  /** An upload that goes on has gone on before. */
  lemma StopsOnce(file: File, run: nat -> World, schedule: Schedule, n: nat)
    requires IsRun(file, run, schedule) && run(n).client.progress.Uploading?
    ensures n == 0 || run(n - 1).client.progress.Uploading?
  {
    if n > 0 {
      var k: nat := n - 1;
      assert run(k + 1) == run(n);
    }
  }

  lemma {:induction false} MissesAreSetbacks(file: File, run: nat -> World, schedule: Schedule, limit: nat, n: nat)
    requires IsRun(file, run, schedule) && Steady(file, run(0)) && Counted(run(0), 0) && InSync(file, run(0), limit)
    requires AlwaysClean(file, schedule) && AlwaysLimits(file, run, schedule, limit) && AlwaysBearable(run, schedule)
    requires n == 0 || run(n - 1).client.progress.Uploading?
    ensures Streak(file, run, schedule, n) == Misses(schedule, n)
    ensures run(n).client.progress.Uploading? ==> InSync(file, run(n), limit)
  {
    if n > 0 {
      var before := run(n - 1);
      StopsOnce(file, run, schedule, n - 1);
      MissesAreSetbacks(file, run, schedule, limit, n - 1);
      StreakCounts(file, run, schedule, n - 1);
      assert run(n - 1 + 1) == Iterate(file, before, schedule(0 + (n - 1)));
      StaysInSync(file, before, schedule(n - 1), limit);
    }
  }

  lemma StartsInSync(file: File, start: World, schedule: Schedule, limit: nat)
    requires FreshStart(start) && AlwaysClean(file, schedule)
    requires AlwaysLimits(file, RunOf(file, start, schedule), schedule, limit)
    ensures InSync(file, start, limit) && Counted(start, 0)
  {
  }

  lemma LimitsAlwaysBear(file: File, run: nat -> World, schedule: Schedule, limit: nat)
    requires AlwaysLimits(file, run, schedule, limit) && forall k: nat :: run(k).client.offset <= |file.bytes|
    ensures AlwaysBearable(run, schedule)
  {
    forall k: nat | run(k).client.progress.Uploading? ensures Bearable(schedule(k), run(k).client.chunkSize) {
      LimitsBear(file, run(k).client, schedule(k), limit);
    }
  }

  /**
   Over a clean network whose proxies have a body limit of 64 KiB or more, with a disk that does not fail: if never
   more than six requests in a row are missed, the upload finishes, with the exact bytes stored.
   */
  lemma FinishesUnlessSevenMissed(file: File, start: World, schedule: Schedule, limit: nat) returns (total: nat)
    requires FreshStart(start) && AlwaysCalm(schedule) && AlwaysClean(file, schedule)
    requires AlwaysLimits(file, RunOf(file, start, schedule), schedule, limit)
    requires forall n :: Misses(schedule, n) <= 6
    ensures Trace(file, start, schedule, 0, total).client.progress.Finished?
    ensures Holds(Trace(file, start, schedule, 0, total).net, file)
  {
    var run := RunOf(file, start, schedule);
    FreshIsOk(file, start);
    forall k: nat ensures run(k).client.offset <= |file.bytes| {
      TraceKeeps(file, start, schedule, 0, k, map[file.name := file.bytes], Calm);
    }
    LimitsAlwaysBear(file, run, schedule, limit);
    RunOfIsRun(file, start, schedule);
    StartsInSync(file, start, schedule, limit);
    total := FinishesExactlyWithinRetries(file, start, schedule);
    StreakIsMisses(file, run, schedule, limit, total);
  }

  lemma {:induction false} StreakIsMisses(file: File, run: nat -> World, schedule: Schedule, limit: nat, n: nat)
    requires IsRun(file, run, schedule) && Steady(file, run(0)) && Counted(run(0), 0) && InSync(file, run(0), limit)
    requires AlwaysClean(file, schedule) && AlwaysLimits(file, run, schedule, limit) && AlwaysBearable(run, schedule)
    requires forall k :: Misses(schedule, k) <= 6
    ensures Streak(file, run, schedule, n) <= 6
  {
    if n > 0 && !run(n - 1).client.progress.Uploading? {
      StreakIsMisses(file, run, schedule, limit, n - 1);
    } else {
      MissesAreSetbacks(file, run, schedule, limit, n);
    }
  }

  // ---- without such a limit

  /** The last chunk is applied and the reply lost; a proxy finds it too large; then half of it is out of sequence. */
  lemma RefusedAfterHalving(file: File, world: World)
    requires |file.bytes| == 4 * MIN_CHUNK && At(file, world, 2 * MIN_CHUNK, 2 * MIN_CHUNK, 0)
    ensures var applied := Iterate(file, world, LOSE);
            var halved := Iterate(file, applied, TOO_LARGE);
            var refused := Iterate(file, halved, PASS);
            && applied.client.progress.Uploading? && halved.client.progress.Uploading?
            && At(file, refused, MIN_CHUNK, 0, 1) && Holds(refused.net, file)
  {
    var request := NextRequest(file, world.client);
    assert request.chunk == Chunk(2 * MIN_CHUNK, file.bytes[2 * MIN_CHUNK..], true);
    assert forall net: Net :: ApplyLate(net, []) == net;
    assert file.bytes[..2 * MIN_CHUNK] + file.bytes[2 * MIN_CHUNK..] == file.bytes;
    var applied := Iterate(file, world, LOSE);
    assert SlotOf(applied.net.store, file.name) == Slot(None, Some(file.bytes));
    var halved := Iterate(file, applied, TOO_LARGE);
    assert halved.client == Client(MIN_CHUNK, 2 * MIN_CHUNK, 0, world.client.shrinks + 1, Uploading);
  }

  lemma {:induction false} LostUntilItFails(file: File, world: World, schedule: Schedule, first: nat, m: nat)
    requires 0 < m < 7 && At(file, world, MIN_CHUNK, 0, 7 - m) && Holds(world.net, file)
    requires forall k | first <= k < first + m :: schedule(k) == HOLD
    ensures var end := Trace(file, world, schedule, first, m);
            end.client.progress.Failed? && Holds(end.net, file)
    decreases m
  {
    var next := Iterate(file, world, HOLD);
    assert ApplyLate(world.net, []) == world.net;
    assert schedule(first) == HOLD;
    TraceFirst(file, world, schedule, first, m - 1);
    if m > 1 {
      IsHeld(file, world, MIN_CHUNK, 0, 7 - m);
      LostUntilItFails(file, next, schedule, first + 1, m - 1);
    } else {
      assert Trace(file, next, schedule, first + 1, 0) == next;
    }
  }

  function TooLargeLate(): Schedule {
    (k: nat) =>
      if k == 0 || k == 3 then TOO_LARGE else if k == 2 then LOSE else if 5 <= k < 11 then HOLD else PASS
  }

  lemma {:induction false} NeverSevenMissed(n: nat)
    ensures Misses(TooLargeLate(), n) <= if 5 <= n <= 11 then n - 5 else 6
    ensures n == 0 || n > 11 ==> Misses(TooLargeLate(), n) == 0
  {
    if n > 0 {
      NeverSevenMissed(n - 1);
    }
  }

  lemma TwoToTheLast(file: File, start: World, schedule: Schedule) returns (world: World)
    requires |file.bytes| == 4 * MIN_CHUNK && start.client == Client(MAX_CHUNK, 0, 0, 0, Uploading)
    requires schedule(0) == TOO_LARGE && schedule(1) == PASS
    ensures world == Trace(file, start, schedule, 0, 2) && At(file, world, 2 * MIN_CHUNK, 2 * MIN_CHUNK, 0)
  {
    var halved := Iterate(file, start, TOO_LARGE);
    Halves(file, start, 0);
    assert halved.client.chunkSize == 2 * MIN_CHUNK;
    world := Iterate(file, halved, PASS);
    Passes(file, halved, 2 * MIN_CHUNK, 0, 0);
    TraceStep(file, start, schedule, 0, 0, 0);
    TraceStep(file, start, schedule, 0, 1, 1);
  }

  lemma ThreeToTheRefusal(file: File, world: World, schedule: Schedule) returns (refused: World)
    requires |file.bytes| == 4 * MIN_CHUNK && At(file, world, 2 * MIN_CHUNK, 2 * MIN_CHUNK, 0)
    requires schedule(2) == LOSE && schedule(3) == TOO_LARGE && schedule(4) == PASS
    ensures refused == Trace(file, world, schedule, 2, 3)
    ensures At(file, refused, MIN_CHUNK, 0, 1) && Holds(refused.net, file)
  {
    var applied := Iterate(file, world, LOSE);
    var halved := Iterate(file, applied, TOO_LARGE);
    refused := Iterate(file, halved, PASS);
    RefusedAfterHalving(file, world);
    TraceStep(file, world, schedule, 2, 0, 2);
    TraceStep(file, world, schedule, 2, 1, 3);
    TraceStep(file, world, schedule, 2, 2, 4);
  }

  /**
   When an answer of 413 may come at any time, six requests missed in a row can be too many: here an upload of four
   smallest chunks fails with the file stored.
   */
  lemma TooLargeMayComeTooLate(file: File, start: World)
    requires |file.bytes| == 4 * MIN_CHUNK && start.client == Client(MAX_CHUNK, 0, 0, 0, Uploading)
    ensures AlwaysCalm(TooLargeLate()) && AlwaysClean(file, TooLargeLate())
    ensures forall n :: Misses(TooLargeLate(), n) <= 6
    ensures var end := Trace(file, start, TooLargeLate(), 0, 11);
            end.client.progress.Failed? && Holds(end.net, file)
  {
    forall n ensures Misses(TooLargeLate(), n) <= 6 {
      NeverSevenMissed(n);
    }
    var end := ElevenSteps(file, start, TooLargeLate());
  }

  lemma ElevenSteps(file: File, start: World, schedule: Schedule) returns (end: World)
    requires |file.bytes| == 4 * MIN_CHUNK && start.client == Client(MAX_CHUNK, 0, 0, 0, Uploading)
    requires schedule(0) == TOO_LARGE && schedule(1) == PASS
    requires schedule(2) == LOSE && schedule(3) == TOO_LARGE && schedule(4) == PASS
    requires forall k | 5 <= k < 11 :: schedule(k) == HOLD
    ensures end == Trace(file, start, schedule, 0, 11) && end.client.progress.Failed? && Holds(end.net, file)
  {
    var world := TwoToTheLast(file, start, schedule);
    var refused := ThreeToTheRefusal(file, world, schedule);
    end := Trace(file, refused, schedule, 5, 6);
    LostUntilItFails(file, refused, schedule, 5, 6);
    FiveAndSix(file, start, schedule, world, refused);
  }

  lemma FiveAndSix(file: File, start: World, schedule: Schedule, world: World, refused: World)
    requires world == Trace(file, start, schedule, 0, 2) && refused == Trace(file, world, schedule, 2, 3)
    ensures Trace(file, start, schedule, 0, 11) == Trace(file, refused, schedule, 5, 6)
  {
    TraceSplit(file, start, schedule, 0, 2, 3);
    TraceSplit(file, start, schedule, 0, 5, 6);
  }
}
