/**
 When the upload of a file is sure to end. The retry limit alone does not see to it: a late first chunk takes
 the partial copy back, the client follows, and the next success resets its retries. No request need be
 applied twice for that.
 */
module UploadEnding {
  import opened Prelude
  import opened UploadServer
  import opened UploadClient

  /** The upload is over after some number of requests. */
  ghost predicate Ends(file: File, start: World, schedule: Schedule) {
    exists n: nat :: !Trace(file, start, schedule, 0, n).client.progress.Uploading?
  }

  /** Where the loop of one file starts, whatever files came before it. */
  predicate Starts(start: World) {
    start.client == Client(start.client.chunkSize, 0, 0, start.client.shrinks, Uploading)
    && MIN_CHUNK <= start.client.chunkSize
  }

  ghost predicate AlwaysCalm(schedule: Schedule) {
    forall k: nat :: CalmEvent(schedule(k))
  }

  predicate NothingSent(file: File, net: Net) {
    forall r | r in net.sent :: r.name != file.name
  }

  // ---- files that are sent in one chunk

  predicate Single(file: File, world: World) {
    && |file.bytes| <= MIN_CHUNK <= world.client.chunkSize && world.client.offset == 0
    && (world.client.progress.Uploading? ==> world.client.attempts <= MAX_RETRIES)
  }

  lemma SingleStep(file: File, world: World, event: Event)
    requires Single(file, world) && world.client.progress.Uploading?
    ensures var after := Iterate(file, world, event);
            && Single(file, after)
            && (after.client.progress.Uploading? ==>
                  || after.client.chunkSize < world.client.chunkSize
                  || (after.client.chunkSize == world.client.chunkSize
                      && after.client.attempts > world.client.attempts))
  {
  }

  lemma {:induction false} SingleEnds(file: File, world: World, schedule: Schedule, first: nat) returns (total: nat)
    requires Single(file, world)
    ensures !Trace(file, world, schedule, first, total).client.progress.Uploading?
    decreases world.client.chunkSize, MAX_RETRIES - world.client.attempts, world.client.progress.Uploading?
  {
    total := 0;
    if world.client.progress.Uploading? {
      var next := Iterate(file, world, schedule(first));
      SingleStep(file, world, schedule(first));
      if next.client.progress.Uploading? {
        total := SingleEnds(file, next, schedule, first + 1);
      }
      total := EndsOneLater(file, world, next, schedule, first, total);
    }
  }

  // ---- files that are sent in two chunks, on a disk that does not fail

  /** A first chunk of the smallest size or more, or one that starts no earlier. */
  predicate Big(chunk: Chunk) {
    if chunk.offset == 0 then |chunk.body| >= MIN_CHUNK || chunk.last else chunk.offset >= MIN_CHUNK
  }

  predicate BigSent(file: File, net: Net) {
    forall r | r in net.sent && r.name == file.name :: Piece(r.chunk, file.bytes) && Big(r.chunk)
  }

  /** At least the first chunk is there, or the whole file. */
  predicate Ahead(slot: Slot, file: Bytes) {
    if slot.part.Some? then slot.part.value <= file && |slot.part.value| >= MIN_CHUNK else slot.target == Some(file)
  }

  predicate TwoChunks(file: File, world: World) {
    && |file.bytes| <= 2 * MIN_CHUNK && MIN_CHUNK <= world.client.chunkSize
    && world.client.offset <= |file.bytes| && BigSent(file, world.net)
    && (world.client.progress.Uploading? ==> world.client.attempts <= MAX_RETRIES)
    && if world.client.offset == 0 then OnlyStarts(world.net.sent, file.name)
       else world.client.offset >= MIN_CHUNK && Ahead(SlotOf(world.net.store, file.name), file.bytes)
  }

  lemma HandleStaysAhead(slot: Slot, chunk: Chunk, file: Bytes)
    requires Piece(chunk, file) && Big(chunk) && (chunk.offset == 0 || Ahead(slot, file))
    ensures Ahead(Handle(slot, chunk, Fine).0, file)
  {
    JoinPiece(if chunk.offset > 0 && slot.part.Some? then slot.part.value else [], chunk, file);
  }

  lemma {:induction false} LateStaysAhead(file: File, net: Net, late: seq<Late>)
    requires BigSent(file, net) && forall i | 0 <= i < |late| :: late[i].disk.Fine?
    requires OnlyStarts(net.sent, file.name) || Ahead(SlotOf(net.store, file.name), file.bytes)
    ensures ApplyLate(net, late).sent == net.sent
    ensures Ahead(SlotOf(net.store, file.name), file.bytes)
        ==> Ahead(SlotOf(ApplyLate(net, late).store, file.name), file.bytes)
  {
    if late != [] {
      LateStaysAhead(file, net, late[..|late| - 1]);
      var before := ApplyLate(net, late[..|late| - 1]);
      var arrival := late[|late| - 1];
      assert arrival.disk.Fine?;
      if arrival.request in net.sent && arrival.request.name == file.name {
        if Ahead(SlotOf(net.store, file.name), file.bytes) {
          HandleStaysAhead(SlotOf(before.store, file.name), arrival.request.chunk, file.bytes);
        }
      }
    }
  }

  /** Closer to the end: a smaller chunk, the first chunk through, or one retry less. */
  predicate Onward(before: Client, after: Client) {
    || after.chunkSize < before.chunkSize
    || (after.chunkSize == before.chunkSize
        && (|| (before.offset == 0 < after.offset)
            || ((before.offset == 0 <==> after.offset == 0) && after.attempts > before.attempts)))
  }

  lemma TwoChunksFate(file: File, world: World, fate: Fate)
    requires TwoChunks(file, world) && world.client.progress.Uploading? && CalmFate(fate)
    ensures var after := Iterate(file, world, Event([], fate));
            TwoChunks(file, after) && (after.client.progress.Uploading? ==> Onward(world.client, after.client))
  {
    var slot, request := SlotOf(world.net.store, file.name), NextRequest(file, world.client);
    NextRequestIsPiece(file, world.client);
    assert ApplyLate(world.net, []) == world.net;
    HandleStaysAhead(slot, request.chunk, file.bytes);
    HandleKeeps(slot, request.chunk, Fine, file.bytes);
  }

  lemma TwoChunksStep(file: File, world: World, event: Event) returns (after: World)
    requires TwoChunks(file, world) && world.client.progress.Uploading? && CalmEvent(event)
    ensures after == Iterate(file, world, event)
    ensures TwoChunks(file, after) && (after.client.progress.Uploading? ==> Onward(world.client, after.client))
  {
    after := Iterate(file, world, event);
    LateStaysAhead(file, world.net, event.late);
    LateFirst(file, world, event);
    TwoChunksFate(file, World(world.client, ApplyLate(world.net, event.late)), event.fate);
  }

  lemma {:induction false} TwoChunksEnd(file: File, world: World, schedule: Schedule, first: nat) returns (total: nat)
    requires TwoChunks(file, world) && AlwaysCalm(schedule)
    ensures !Trace(file, world, schedule, first, total).client.progress.Uploading?
    decreases world.client.chunkSize, world.client.offset == 0, MAX_RETRIES - world.client.attempts,
              world.client.progress.Uploading?
  {
    total := 0;
    if world.client.progress.Uploading? {
      var next := TwoChunksStep(file, world, schedule(first));
      if next.client.progress.Uploading? {
        total := TwoChunksEnd(file, next, schedule, first + 1);
      }
      total := EndsOneLater(file, world, next, schedule, first, total);
    }
  }

  // ---- networks that apply every request at most once

  function LateRequests(late: seq<Late>): multiset<Request> {
    if late == [] then multiset{} else LateRequests(late[..|late| - 1]) + multiset{late[|late| - 1].request}
  }

  /** The requests sent and never applied, after one more. */
  function UnappliedNext(file: File, world: World, unapplied: multiset<Request>, event: Event): multiset<Request> {
    unapplied - LateRequests(event.late)
    + (if Applied(event.fate).None? then multiset{NextRequest(file, world.client)} else multiset{})
  }

  function Unapplied(file: File, run: nat -> World, schedule: Schedule, k: nat): multiset<Request> {
    if k == 0 then multiset{}
    else
      var before := Unapplied(file, run, schedule, k - 1);
      if run(k - 1).client.progress.Uploading? then UnappliedNext(file, run(k - 1), before, schedule(k - 1)) else before
  }

  function RunOf(file: File, start: World, schedule: Schedule): nat -> World {
    (k: nat) => Trace(file, start, schedule, 0, k)
  }

  /** Before every request of the run, what arrives late is among those sent and never applied, each once. */
  ghost predicate OnceEach(file: File, run: nat -> World, schedule: Schedule) {
    forall k: nat | run(k).client.progress.Uploading? ::
      LateRequests(schedule(k).late) <= Unapplied(file, run, schedule, k)
  }

  /** What arrives late was sent by this upload and has not been applied before, not even in part. */
  ghost predicate AtMostOnce(file: File, start: World, schedule: Schedule) {
    OnceEach(file, RunOf(file, start, schedule), schedule)
  }

  // ---- the network as a player who answers the client

  /** Where client and server are, what the network is about to do, and the requests it still holds. */
  datatype Game<P> = Game(world: World, phase: P, held: multiset<Request>)

  function Turn<P>(file: File, move: (World, P) -> (Event, P)): Game<P> -> Game<P> {
    (g: Game<P>) =>
      var (event, phase) := move(g.world, g.phase);
      Game(Iterate(file, g.world, event), phase, UnappliedNext(file, g.world, g.held, event))
  }

  /** The move is open to a network that applies every request at most once, and the upload goes on. */
  predicate Open<P>(move: (World, P) -> (Event, P), g: Game<P>) {
    g.world.client.progress.Uploading? && LateRequests(move(g.world, g.phase).0.late) <= g.held
  }

  lemma {:induction false} RepeatKeeps<S(!new)>(next: S -> S, inv: S -> bool, s: S, n: nat)
    requires inv(s) && forall t | inv(t) :: inv(next(t))
    ensures inv(Repeat(next, s, n))
  {
    if n > 0 {
      RepeatKeeps(next, inv, s, n - 1);
    }
  }

  lemma {:induction false} RunIsTrace(file: File, run: nat -> World, schedule: Schedule, k: nat)
    requires Follows(file, run, schedule, 0) && forall j: nat :: run(j).client.progress.Uploading?
    ensures Trace(file, run(0), schedule, 0, k) == run(k)
  {
    if k > 0 {
      RunIsTrace(file, run, schedule, k - 1);
      TraceStep(file, run(0), schedule, 0, k - 1, k - 1);
    }
  }

  predicate HoldsBack(file: File, world: World, event: Event, before: multiset<Request>, after: multiset<Request>) {
    after == UnappliedNext(file, world, before, event)
  }

  /** What a network holds that starts with nothing and holds back what it does not apply. */
  ghost predicate Holding(file: File, run: nat -> World, schedule: Schedule, held: nat -> multiset<Request>) {
    && held(0) == multiset{}
    && forall k: nat :: HoldsBack(file, run(k), schedule(k), held(k), held(k + 1))
  }

  lemma UnappliedStep(file: File, run: nat -> World, schedule: Schedule, k: nat, at: nat)
    requires at == k + 1 && run(k).client.progress.Uploading?
    ensures HoldsBack(file, run(k), schedule(k), Unapplied(file, run, schedule, k), Unapplied(file, run, schedule, at))
  {
  }

  lemma {:induction false} HeldIsUnapplied(file: File, run: nat -> World, schedule: Schedule,
                                           held: nat -> multiset<Request>, k: nat)
    requires Holding(file, run, schedule, held) && forall j: nat :: run(j).client.progress.Uploading?
    ensures Unapplied(file, run, schedule, k) == held(k)
  {
    if k > 0 {
      HeldIsUnapplied(file, run, schedule, held, k - 1);
      UnappliedStep(file, run, schedule, k - 1, k);
      assert HoldsBack(file, run(k - 1), schedule(k - 1), held(k - 1), held(k - 1 + 1));
    }
  }

  /** A run that goes on, with a network that only lets go of what it holds. */
  lemma NeverEnds(file: File, run: nat -> World, schedule: Schedule, held: nat -> multiset<Request>)
    requires Follows(file, run, schedule, 0) && Holding(file, run, schedule, held)
    requires forall k: nat :: run(k).client.progress.Uploading? && LateRequests(schedule(k).late) <= held(k)
    ensures AtMostOnce(file, run(0), schedule) && !Ends(file, run(0), schedule)
  {
    var traced := RunOf(file, run(0), schedule);
    forall k: nat ensures traced(k) == run(k) {
      RunIsTrace(file, run, schedule, k);
    }
    forall k: nat ensures Unapplied(file, traced, schedule, k) == held(k) {
      HeldIsUnapplied(file, traced, schedule, held, k);
    }
    forall k: nat ensures Trace(file, run(0), schedule, 0, k).client.progress.Uploading? {
      assert traced(k) == run(k);
    }
  }

  /** The games of a play: one turn after the other. */
  lemma Games<P(!new)>(file: File, move: (World, P) -> (Event, P), inv: Game<P> -> bool, g: Game<P>)
      returns (games: nat -> Game<P>)
    requires inv(g) && forall t | inv(t) :: inv(Turn(file, move)(t))
    ensures games(0) == g && forall k: nat :: inv(games(k)) && games(k + 1) == Turn(file, move)(games(k))
  {
    games := (k: nat) => Repeat(Turn(file, move), g, k);
    forall k: nat ensures inv(games(k)) && games(k + 1) == Turn(file, move)(games(k)) {
      RepeatKeeps(Turn(file, move), inv, g, k);
    }
  }

  lemma TurnIsStep<P>(file: File, move: (World, P) -> (Event, P), now: Game<P>, next: Game<P>, event: Event)
    requires next == Turn(file, move)(now) && event == move(now.world, now.phase).0
    ensures next.world == Iterate(file, now.world, event) && HoldsBack(file, now.world, event, now.held, next.held)
  {
  }

  /** A player whose every move keeps up an invariant keeps the upload going for ever. */
  lemma KeptUpForEver<P(!new)>(file: File, move: (World, P) -> (Event, P), inv: Game<P> -> bool, g: Game<P>)
      returns (schedule: Schedule)
    requires inv(g) && g.held == multiset{}
    requires forall t | inv(t) :: Open(move, t) && inv(Turn(file, move)(t))
    ensures AtMostOnce(file, g.world, schedule) && !Ends(file, g.world, schedule)
    ensures (forall t | inv(t) :: CalmEvent(move(t.world, t.phase).0)) ==> AlwaysCalm(schedule)
  {
    var games := Games(file, move, inv, g);
    var run, held := (k: nat) => games(k).world, (k: nat) => games(k).held;
    schedule := (k: nat) => move(games(k).world, games(k).phase).0;
    forall k: nat
      ensures run(k + 1) == Iterate(file, run(k), schedule(k))
      ensures HoldsBack(file, run(k), schedule(k), held(k), held(k + 1))
    {
      TurnIsStep(file, move, games(k), games(k + 1), schedule(k));
    }
    forall k: nat ensures Open(move, games(k)) {
    }
    NeverEnds(file, run, schedule, held);
  }

  // ---- the moves

  function FirstChunk(file: File, size: nat): Request {
    NextRequest(file, Client(size, 0, 0, 0, Uploading))
  }

  const PASS := Event([], Delivered(Fine))
  const HOLD := Event([], Dropped(None))
  const LOSE := Event([], Dropped(Some(Fine)))
  const TOO_LARGE := Event([], Proxied(None, 413))

  /** A request held back arrives, on this disk, just before the current one. */
  function Release(request: Request, disk: Disk): Event {
    Event([Late(request, disk)], Delivered(Fine))
  }

  lemma OneLate(request: Request, disk: Disk, net: Net)
    requires request in net.sent
    ensures LateRequests(Release(request, disk).late) == multiset{request}
    ensures ApplyLate(net, Release(request, disk).late) == net.(store := Apply(net.store, request, disk))
  {
    var late := [Late(request, disk)];
    assert late[..0] == [] && ApplyLate(net, []) == net;
  }

  lemma HeldAfter(file: File, world: World, held: multiset<Request>)
    ensures UnappliedNext(file, world, held, PASS) == held && UnappliedNext(file, world, held, LOSE) == held
    ensures UnappliedNext(file, world, held, HOLD) == held + multiset{NextRequest(file, world.client)}
  {
    assert LateRequests([]) == multiset{};
  }

  lemma HeldAfterRelease(file: File, world: World, held: multiset<Request>, request: Request, disk: Disk)
    requires request in world.net.sent
    ensures UnappliedNext(file, world, held, Release(request, disk)) == held - multiset{request}
  {
    OneLate(request, disk, world.net);
  }

  /** The client is uploading chunks of this size, `offset` bytes through, and the partial copy is as long. */
  predicate At(file: File, world: World, size: nat, offset: nat, attempts: nat) {
    && world.client == Client(size, offset, attempts, world.client.shrinks, Uploading)
    && MIN_CHUNK <= size && offset <= |file.bytes|
    && (offset > 0 ==> SlotOf(world.net.store, file.name).part == Some(file.bytes[..offset]))
  }

  lemma Passes(file: File, world: World, size: nat, offset: nat, attempts: nat)
    requires offset + size < |file.bytes| && At(file, world, size, offset, attempts)
    ensures var after := Iterate(file, world, PASS);
            At(file, after, size, offset + size, 0) && world.net.sent <= after.net.sent
  {
    var request := NextRequest(file, world.client);
    assert request.chunk == Chunk(offset, file.bytes[offset..offset + size], false);
    assert ApplyLate(world.net, []) == world.net;
    assert file.bytes[..offset] + file.bytes[offset..offset + size] == file.bytes[..offset + size];
    assert offset == 0 ==> [] + request.chunk.body == file.bytes[..size];
  }

  lemma IsHeld(file: File, world: World, size: nat, offset: nat, attempts: nat)
    requires At(file, world, size, offset, attempts) && attempts < MAX_RETRIES
    ensures var after := Iterate(file, world, HOLD);
            && At(file, after, size, offset, attempts + 1)
            && after.net.sent == world.net.sent + {NextRequest(file, world.client)}
            && after.net.store == world.net.store
  {
    assert ApplyLate(world.net, []) == world.net;
  }

  lemma Halves(file: File, world: World, attempts: nat)
    requires At(file, world, world.client.chunkSize, 0, attempts) && world.client.chunkSize > MIN_CHUNK
    ensures var after := Iterate(file, world, TOO_LARGE); At(file, after, after.client.chunkSize, 0, 0)
  {
  }

  // ---- on disks that may fail

  /** At the start with nothing held; at the start with the first chunk held; past the first chunk. */
  datatype Flip = Bottom | Again | Top

  function Undo(file: File): (World, Flip) -> (Event, Flip) {
    (world: World, phase: Flip) =>
      match phase
      case Bottom => if world.client.chunkSize >= |file.bytes| then (TOO_LARGE, Bottom) else (HOLD, Again)
      case Again => (PASS, Top)
      case Top => (Release(FirstChunk(file, world.client.chunkSize), WriteFails(true, 0, false)), Bottom)
  }

  predicate Undoing(file: File, g: Game<Flip>) {
    var size := g.world.client.chunkSize;
    var first := FirstChunk(file, size);
    match g.phase
    case Bottom => At(file, g.world, size, 0, 0) || At(file, g.world, size, 0, 1)
    case Again =>
      && size < |file.bytes| && first in g.held && first in g.world.net.sent
      && (At(file, g.world, size, 0, 1) || At(file, g.world, size, 0, 2))
    case Top =>
      && size < |file.bytes| && first in g.held && first in g.world.net.sent
      && At(file, g.world, size, size, 0)
  }

  /** The first chunk arrives again and fails after the file was opened: the client is sent back to the start. */
  lemma Undone(file: File, world: World, size: nat)
    requires size < |file.bytes| && At(file, world, size, size, 0) && FirstChunk(file, size) in world.net.sent
    ensures At(file, Iterate(file, world, Release(FirstChunk(file, size), WriteFails(true, 0, false))), size, 0, 1)
  {
    var first, disk := FirstChunk(file, size), WriteFails(true, 0, false);
    OneLate(first, disk, world.net);
    assert [] + first.chunk.body[..0] == [];
    var arrived := Apply(world.net.store, first, disk);
    assert SlotOf(arrived, file.name).part == Some([]);
  }

  lemma FromBottom(file: File, g: Game<Flip>, size: nat, attempts: nat)
    requires |file.bytes| > MIN_CHUNK && g.phase.Bottom? && attempts <= 1 && At(file, g.world, size, 0, attempts)
    ensures Open(Undo(file), g) && Undoing(file, Turn(file, Undo(file))(g))
  {
    HeldAfter(file, g.world, g.held);
    if size >= |file.bytes| {
      Halves(file, g.world, attempts);
    } else {
      IsHeld(file, g.world, size, 0, attempts);
    }
  }

  lemma FromAgain(file: File, g: Game<Flip>, size: nat, attempts: nat)
    requires g.phase.Again? && size < |file.bytes| && At(file, g.world, size, 0, attempts)
    requires FirstChunk(file, size) in g.held && FirstChunk(file, size) in g.world.net.sent
    ensures Open(Undo(file), g) && Undoing(file, Turn(file, Undo(file))(g))
  {
    HeldAfter(file, g.world, g.held);
    Passes(file, g.world, size, 0, attempts);
  }

  lemma FromTop(file: File, g: Game<Flip>, size: nat)
    requires g.phase.Top? && size < |file.bytes| && At(file, g.world, size, size, 0)
    requires FirstChunk(file, size) in g.held && FirstChunk(file, size) in g.world.net.sent
    ensures Open(Undo(file), g) && Undoing(file, Turn(file, Undo(file))(g))
  {
    OneLate(FirstChunk(file, size), WriteFails(true, 0, false), g.world.net);
    Undone(file, g.world, size);
  }

  lemma UndoingGoesOn(file: File, g: Game<Flip>)
    requires |file.bytes| > MIN_CHUNK && Undoing(file, g)
    ensures Open(Undo(file), g) && Undoing(file, Turn(file, Undo(file))(g))
  {
    var size, attempts := g.world.client.chunkSize, g.world.client.attempts;
    match g.phase
    case Bottom => FromBottom(file, g, size, attempts);
    case Again => FromAgain(file, g, size, attempts);
    case Top => FromTop(file, g, size);
  }

  lemma LargeMayNotEnd(file: File, start: World) returns (schedule: Schedule)
    requires Starts(start) && |file.bytes| > MIN_CHUNK
    ensures AtMostOnce(file, start, schedule) && !Ends(file, start, schedule)
  {
    var g := Game(start, Bottom, multiset{});
    forall t | Undoing(file, t) ensures Open(Undo(file), t) && Undoing(file, Turn(file, Undo(file))(t)) {
      UndoingGoesOn(file, t);
    }
    schedule := KeptUpForEver(file, Undo(file), t => Undoing(file, t), g);
  }

  // ---- on disks that never fail: the network moves the client up, back, up again and to the start

  /**
   At the start; on the way up with the first chunk held; at the last chunk, held too; on the way up again
   from where the first chunk took it; one chunk before the last, the server being ahead of it.
   */
  datatype Lap = Foot | Climb | Reached(end: nat) | Second(end: nat) | Loaded(end: nat)

  function LastChunk(file: File, size: nat, end: nat): Request {
    NextRequest(file, Client(size, end, 0, 0, Uploading))
  }

  function LapMove(file: File, size: nat, offset: nat, phase: Lap): (Event, Lap) {
    match phase
    case Foot => if 2 * size >= |file.bytes| then (TOO_LARGE, Foot) else (HOLD, Climb)
    case Climb => if offset + size < |file.bytes| then (PASS, Climb) else (HOLD, Reached(offset))
    case Reached(end) => (Release(FirstChunk(file, size), Fine), Second(end))
    case Second(end) => if offset + size == end then (LOSE, Loaded(end)) else (PASS, Second(end))
    case Loaded(end) => (Release(LastChunk(file, size, end), Fine), Foot)
  }

  function Lapping(file: File): (World, Lap) -> (Event, Lap) {
    (world: World, phase: Lap) => LapMove(file, world.client.chunkSize, world.client.offset, phase)
  }

  /** `to` is reached from `from` in whole steps. */
  predicate Aligned(from: nat, step: nat, to: nat)
    decreases if from < to then to - from else 0
  {
    from == to || (from < to && step > 0 && Aligned(from + step, step, to))
  }

  lemma {:induction false} AlignedMore(from: nat, step: nat, to: nat)
    requires step > 0 && Aligned(from, step, to)
    ensures Aligned(from, step, to + step)
    decreases if from < to then to - from else 0
  {
    if from < to {
      AlignedMore(from + step, step, to);
    } else {
      assert Aligned(from + step, step, to + step);
    }
  }

  lemma AlignedNext(from: nat, step: nat, to: nat)
    requires from < to && Aligned(from, step, to)
    ensures from + step <= to && Aligned(from + step, step, to)
  {
    assert Aligned(from + step, step, to);
  }

  /** A request was sent and is held back. */
  predicate Stored<P>(g: Game<P>, request: Request) {
    request in g.held && request in g.world.net.sent
  }

  /** Where the last chunk starts. */
  predicate LastAt(file: File, size: nat, end: nat) {
    2 * size < |file.bytes| && end < |file.bytes| <= end + size
  }

  predicate OnLap(file: File, g: Game<Lap>) {
    var size, offset, attempts := g.world.client.chunkSize, g.world.client.offset, g.world.client.attempts;
    match g.phase
    case Foot => At(file, g.world, size, 0, attempts) && attempts <= 4
    case Climb =>
      && 2 * size < |file.bytes| && Stored(g, FirstChunk(file, size)) && At(file, g.world, size, offset, attempts)
      && ((offset == 0 && attempts <= 5) || (attempts == 0 && Aligned(size, size, offset) && offset < |file.bytes|))
    case Reached(end) =>
      && LastAt(file, size, end) && Stored(g, FirstChunk(file, size)) && Stored(g, LastChunk(file, size, end))
      && At(file, g.world, size, end, 1) && Aligned(size, size, end)
    case Second(end) =>
      && LastAt(file, size, end) && Stored(g, LastChunk(file, size, end))
      && At(file, g.world, size, offset, attempts) && attempts <= 2
      && size <= offset < end && Aligned(offset, size, end)
    case Loaded(end) =>
      && LastAt(file, size, end) && Stored(g, LastChunk(file, size, end)) && attempts <= 3
      && Trails(file, g.world, size, end, attempts)
  }

  /** The client is one chunk before the last, the partial copy already goes up to the last. */
  predicate Trails(file: File, world: World, size: nat, end: nat, attempts: nat) {
    && MIN_CHUNK <= size < end <= |file.bytes|
    && world.client == Client(size, end - size, attempts, world.client.shrinks, Uploading)
    && SlotOf(world.net.store, file.name).part == Some(file.bytes[..end])
  }

  lemma FromFoot(file: File, g: Game<Lap>, size: nat, attempts: nat)
    requires |file.bytes| > 2 * MIN_CHUNK && g.phase.Foot? && attempts <= 4 && At(file, g.world, size, 0, attempts)
    ensures Open(Lapping(file), g) && OnLap(file, Turn(file, Lapping(file))(g))
  {
    HeldAfter(file, g.world, g.held);
    if 2 * size >= |file.bytes| {
      Halves(file, g.world, attempts);
    } else {
      IsHeld(file, g.world, size, 0, attempts);
    }
  }

  lemma FromClimb(file: File, g: Game<Lap>, size: nat, offset: nat, attempts: nat)
    requires g.phase.Climb? && At(file, g.world, size, offset, attempts) && OnLap(file, g)
    ensures Open(Lapping(file), g) && OnLap(file, Turn(file, Lapping(file))(g))
  {
    HeldAfter(file, g.world, g.held);
    if offset + size < |file.bytes| {
      Passes(file, g.world, size, offset, attempts);
      if offset > 0 {
        AlignedMore(size, size, offset);
      }
    } else {
      IsHeld(file, g.world, size, offset, attempts);
    }
  }

  /** The first chunk arrives again at the last: the client is sent back to where it ends. */
  lemma SentBack(file: File, world: World, size: nat, end: nat)
    requires LastAt(file, size, end) && At(file, world, size, end, 1) && FirstChunk(file, size) in world.net.sent
    ensures var after := Iterate(file, world, Release(FirstChunk(file, size), Fine));
            At(file, after, size, size, 2) && world.net.sent <= after.net.sent
  {
    var first := FirstChunk(file, size);
    OneLate(first, Fine, world.net);
    assert [] + first.chunk.body == file.bytes[..size];
    var arrived := Apply(world.net.store, first, Fine);
    assert SlotOf(arrived, file.name).part == Some(file.bytes[..size]);
  }

  lemma FromReached(file: File, g: Game<Lap>, size: nat, end: nat)
    requires g.phase == Reached(end) && At(file, g.world, size, end, 1) && OnLap(file, g)
    ensures Open(Lapping(file), g) && OnLap(file, Turn(file, Lapping(file))(g))
  {
    OneLate(FirstChunk(file, size), Fine, g.world.net);
    HeldAfterRelease(file, g.world, g.held, FirstChunk(file, size), Fine);
    assert LastChunk(file, size, end).chunk.offset == end && FirstChunk(file, size).chunk.offset == 0;
    assert LastChunk(file, size, end) in g.held - multiset{FirstChunk(file, size)};
    SentBack(file, g.world, size, end);
  }

  /** A chunk is applied and the reply lost: the server is ahead of the client. */
  lemma GetsAhead(file: File, world: World, size: nat, end: nat, attempts: nat)
    requires size < end < |file.bytes| && At(file, world, size, end - size, attempts) && attempts < MAX_RETRIES
    ensures var after := Iterate(file, world, LOSE);
            Trails(file, after, size, end, attempts + 1) && world.net.sent <= after.net.sent
  {
    var offset := end - size;
    var request := NextRequest(file, world.client);
    assert request.chunk == Chunk(offset, file.bytes[offset..end], false);
    assert ApplyLate(world.net, []) == world.net;
    assert file.bytes[..offset] + file.bytes[offset..end] == file.bytes[..end];
  }

  lemma FromSecond(file: File, g: Game<Lap>, size: nat, offset: nat, attempts: nat, end: nat)
    requires g.phase == Second(end) && At(file, g.world, size, offset, attempts) && OnLap(file, g)
    ensures Open(Lapping(file), g) && OnLap(file, Turn(file, Lapping(file))(g))
  {
    HeldAfter(file, g.world, g.held);
    AlignedNext(offset, size, end);
    if offset + size == end {
      GetsAhead(file, g.world, size, end, attempts);
    } else {
      Passes(file, g.world, size, offset, attempts);
    }
  }

  /** The last chunk arrives one chunk early for the client: the file is finished, and the client sent to the start. */
  lemma SentToStart(file: File, world: World, size: nat, end: nat, attempts: nat)
    requires LastAt(file, size, end) && Trails(file, world, size, end, attempts) && attempts < MAX_RETRIES
    requires LastChunk(file, size, end) in world.net.sent
    ensures At(file, Iterate(file, world, Release(LastChunk(file, size, end), Fine)), size, 0, attempts + 1)
  {
    var last := LastChunk(file, size, end);
    OneLate(last, Fine, world.net);
    assert last.chunk == Chunk(end, file.bytes[end..], true);
    var arrived := Apply(world.net.store, last, Fine);
    assert SlotOf(arrived, file.name).part == None;
  }

  lemma FromLoaded(file: File, g: Game<Lap>, size: nat, attempts: nat, end: nat)
    requires g.phase == Loaded(end) && Trails(file, g.world, size, end, attempts) && OnLap(file, g)
    ensures Open(Lapping(file), g) && OnLap(file, Turn(file, Lapping(file))(g))
  {
    OneLate(LastChunk(file, size, end), Fine, g.world.net);
    SentToStart(file, g.world, size, end, attempts);
  }

  lemma LapGoesOn(file: File, g: Game<Lap>)
    requires |file.bytes| > 2 * MIN_CHUNK && OnLap(file, g)
    ensures Open(Lapping(file), g) && OnLap(file, Turn(file, Lapping(file))(g))
  {
    var size, offset, attempts := g.world.client.chunkSize, g.world.client.offset, g.world.client.attempts;
    match g.phase
    case Foot => FromFoot(file, g, size, attempts);
    case Climb => FromClimb(file, g, size, offset, attempts);
    case Reached(end) => FromReached(file, g, size, end);
    case Second(end) => FromSecond(file, g, size, offset, attempts, end);
    case Loaded(end) => FromLoaded(file, g, size, attempts, end);
  }

  lemma LappingIsCalm(file: File, size: nat, offset: nat, phase: Lap)
    ensures CalmEvent(LapMove(file, size, offset, phase).0)
  {
  }

  lemma LargeMayNotEndCalmly(file: File, start: World) returns (schedule: Schedule)
    requires Starts(start) && |file.bytes| > 2 * MIN_CHUNK
    ensures AlwaysCalm(schedule) && AtMostOnce(file, start, schedule) && !Ends(file, start, schedule)
  {
    var g := Game(start, Foot, multiset{});
    forall t | OnLap(file, t) ensures Open(Lapping(file), t) && OnLap(file, Turn(file, Lapping(file))(t)) {
      LapGoesOn(file, t);
    }
    forall t: Game<Lap> ensures CalmEvent(Lapping(file)(t.world, t.phase).0) {
      LappingIsCalm(file, t.world.client.chunkSize, t.world.client.offset, t.phase);
    }
    schedule := KeptUpForEver(file, Lapping(file), t => OnLap(file, t), g);
  }

  // ---- the two theorems

  /**
   Whatever the network and the disk do, even on a network that applies every request at most once, an upload
   is sure to end exactly when the file fits in a smallest chunk.
   */
  lemma SureToEndExactlyInOneChunk(file: File, start: World)
    requires Starts(start)
    ensures (forall schedule :: Ends(file, start, schedule)) <==> |file.bytes| <= MIN_CHUNK
    ensures (forall schedule | AtMostOnce(file, start, schedule) :: Ends(file, start, schedule))
       <==> |file.bytes| <= MIN_CHUNK
  {
    if |file.bytes| <= MIN_CHUNK {
      forall schedule: Schedule ensures Ends(file, start, schedule) {
        var n := SingleEnds(file, start, schedule, 0);
      }
    } else {
      var schedule := LargeMayNotEnd(file, start);
    }
  }

  /** And on disks that never fail, exactly when it fits in two of them. */
  lemma SureToEndCalmlyExactlyInTwoChunks(file: File, start: World)
    requires Starts(start) && NothingSent(file, start.net)
    ensures (forall schedule | AlwaysCalm(schedule) :: Ends(file, start, schedule))
       <==> |file.bytes| <= 2 * MIN_CHUNK
    ensures (forall schedule | AlwaysCalm(schedule) && AtMostOnce(file, start, schedule) :: Ends(file, start, schedule))
       <==> |file.bytes| <= 2 * MIN_CHUNK
  {
    if |file.bytes| <= 2 * MIN_CHUNK {
      forall schedule: Schedule | AlwaysCalm(schedule) ensures Ends(file, start, schedule) {
        var n := TwoChunksEnd(file, start, schedule, 0);
      }
    } else {
      var schedule := LargeMayNotEndCalmly(file, start);
    }
  }
}
