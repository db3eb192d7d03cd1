/**
 The browser's chunked upload against an adversarial network: requests vanish, replies
 vanish after the chunk was applied, proxies answer 413/429/5xx on their own, and any
 request ever sent may be applied again later.
 */
module UploadClient {
  import opened Prelude
  import opened UploadServer

  const MAX_CHUNK: nat := 8 * 1024 * 1024
  const MIN_CHUNK: nat := 64 * 1024
  const MAX_RETRIES: nat := 6

  datatype File = File(name: string, bytes: Bytes)
  datatype Request = Request(name: string, chunk: Chunk)

  // ---- the network and the server's store

  datatype Late = Late(request: Request, disk: Disk)
  type ErrorStatus = status: nat | status >= 300 witness 502

  /** Delivered: handled, and the server's reply arrives. Dropped: fetch rejects. Proxied: an intermediary answers. */
  datatype Fate =
    | Delivered(disk: Disk)
    | Dropped(applied: Option<Disk>)
    | Proxied(applied: Option<Disk>, status: ErrorStatus)

  /** Before the current request meets its fate, requests sent earlier may be applied (again). */
  datatype Event = Event(late: seq<Late>, fate: Fate)
  type Schedule = nat -> Event

  datatype Net = Net(store: map<string, Slot>, sent: set<Request>)
  datatype Answer = Lost | Http(status: nat, reply: Option<Reply>)

  function SlotOf(store: map<string, Slot>, name: string): Slot {
    if name in store then store[name] else Slot(None, None)
  }

  function StatusOf(reply: Reply): nat {
    match reply
    case Received(_) => 200
    case Saved => 200
    case OutOfSync(_) => 409
    case ServerError => 500
  }

  function Apply(store: map<string, Slot>, request: Request, disk: Disk): map<string, Slot> {
    store[request.name := Handle(SlotOf(store, request.name), request.chunk, disk).0]
  }

  function ApplyLate(net: Net, late: seq<Late>): Net {
    if late == [] then net
    else
      var before := ApplyLate(net, late[..|late| - 1]);
      var arrival := late[|late| - 1];
      if arrival.request in net.sent then before.(store := Apply(before.store, arrival.request, arrival.disk))
      else before
  }

  function Exchange(net: Net, request: Request, event: Event): (Net, Answer) {
    var n := ApplyLate(net, event.late);
    var sent := n.sent + {request};
    match event.fate
    case Delivered(disk) =>
      var reply := Handle(SlotOf(n.store, request.name), request.chunk, disk).1;
      (Net(Apply(n.store, request, disk), sent), Http(StatusOf(reply), Some(reply)))
    case Dropped(applied) =>
      (Net(if applied.Some? then Apply(n.store, request, applied.value) else n.store, sent), Lost)
    case Proxied(applied, status) =>
      (Net(if applied.Some? then Apply(n.store, request, applied.value) else n.store, sent), Http(status, None))
  }

  predicate CalmFate(fate: Fate) {
    match fate
    case Delivered(disk) => disk.Fine?
    case Dropped(applied) => applied.Some? ==> applied.value.Fine?
    case Proxied(applied, _) => applied.Some? ==> applied.value.Fine?
  }

  /** No disk failure. */
  predicate CalmEvent(event: Event) {
    CalmFate(event.fate) && forall i | 0 <= i < |event.late| :: event.late[i].disk.Fine?
  }

  /** A late arrival that cannot take the named file's partial copy back: of another file, or a chunk in the middle. */
  predicate Forward(name: string, arrival: Late) {
    || arrival.request.name != name
    || (arrival.request.chunk.offset > 0 && !arrival.request.chunk.last && arrival.disk.Fine?)
  }

  /** The current request meets no disk failure, and no first or last chunk of the named file arrives late. */
  predicate Clean(name: string, event: Event) {
    CalmFate(event.fate) && forall i | 0 <= i < |event.late| :: Forward(name, event.late[i])
  }

  // ---- the client

  datatype Progress = Uploading | Finished | Failed
  datatype Client = Client(chunkSize: nat, offset: nat, attempts: nat, shrinks: nat, progress: Progress)
  datatype World = World(client: Client, net: Net)

  function ChunkEnd(file: File, client: Client): nat {
    Min(client.offset + client.chunkSize, |file.bytes|)
  }

  function NextRequest(file: File, client: Client): Request {
    var end := ChunkEnd(file, client);
    Request(file.name, Chunk(client.offset, if client.offset <= end then file.bytes[client.offset..end] else [],
                             end >= |file.bytes|))
  }

  function Retry(client: Client): Client {
    client.(attempts := client.attempts + 1,
            progress := if client.attempts + 1 > MAX_RETRIES then Failed else Uploading)
  }

  function React(file: File, client: Client, answer: Answer): Client {
    var end := ChunkEnd(file, client);
    match answer
    case Lost => Retry(client)
    case Http(status, reply) =>
      if 200 <= status < 300 then
        if end >= |file.bytes| || reply == Some(Saved) then client.(attempts := 0, progress := Finished)
        else client.(attempts := 0, offset := if reply.Some? && reply.value.Received? then reply.value.size else end)
      else if status == 409 && reply.Some? && reply.value.OutOfSync? then
        var retried := Retry(client);
        if retried.progress.Failed? then retried else retried.(offset := reply.value.have)
      else if status == 413 && client.chunkSize > MIN_CHUNK then
        client.(chunkSize := Max(MIN_CHUNK, Min(client.chunkSize, end - client.offset) / 2), attempts := 0,
                shrinks := client.shrinks + 1)
      else if status >= 500 || status == 429 then Retry(client)
      else client.(progress := Failed)
  }

  function Iterate(file: File, world: World, event: Event): World {
    var (net, answer) := Exchange(world.net, NextRequest(file, world.client), event);
    World(React(file, world.client, answer), net)
  }

  /** The state after at most `n` requests, stopping once the file is finished or given up. */
  function Trace(file: File, world: World, schedule: Schedule, first: nat, n: nat): World {
    if n == 0 then world
    else
      var before := Trace(file, world, schedule, first, n - 1);
      if before.client.progress.Uploading? then Iterate(file, before, schedule(first + n - 1)) else before
  }

  // ---- what every run keeps

  /** Calm: no disk failures. OldHarmless: no old file looks like the new one. Wild: neither is known. */
  datatype Mode = Calm | OldHarmless | Wild

  predicate Base(slot: Slot, file: Bytes, mode: Mode) {
    mode.OldHarmless? ==> !Mimics(slot.target, file)
  }

  predicate Sure(slot: Slot, file: Bytes, mode: Mode) {
    && Synced(slot, file) && Base(slot, file, mode)
    && (mode.Calm? && slot.part.None? ==> slot.target == Some(file))
  }

  predicate OnlyStarts(sent: set<Request>, name: string) {
    forall r | r in sent && r.name == name :: r.chunk.offset == 0
  }

  predicate NameOk(net: Net, name: string, file: Bytes, mode: Mode) {
    && Base(SlotOf(net.store, name), file, mode)
    && (Sure(SlotOf(net.store, name), file, mode) || OnlyStarts(net.sent, name))
  }

  /** Every request carries a piece of its file, and every slot is trustworthy or was only asked to start afresh. */
  predicate Inv(net: Net, files: map<string, Bytes>, mode: Mode) {
    && (forall r | r in net.sent :: r.name in files && Piece(r.chunk, files[r.name]))
    && (forall name | name in files :: NameOk(net, name, files[name], mode))
  }

  /** Finished copies are only ever replaced by the exact file. */
  predicate Keeps(a: Net, b: Net, files: map<string, Bytes>) {
    forall name | name in files ::
      SlotOf(b.store, name).target == SlotOf(a.store, name).target || SlotOf(b.store, name).target == Some(files[name])
  }

  predicate Holds(net: Net, file: File) {
    SlotOf(net.store, file.name).target == Some(file.bytes)
  }

  predicate Fits(mode: Mode, event: Event) {
    mode.Calm? ==> CalmEvent(event)
  }

  predicate ClientOk(file: File, world: World, files: map<string, Bytes>, mode: Mode) {
    && file.name in files && files[file.name] == file.bytes
    && Inv(world.net, files, mode)
    && world.client.offset <= |file.bytes|
    && MIN_CHUNK <= world.client.chunkSize <= MAX_CHUNK
    && (world.client.progress.Uploading? ==> world.client.attempts <= MAX_RETRIES)
    && world.client.shrinks + ShrinksLeft(world.client.chunkSize) <= 7
    && (world.client.offset == 0 || Sure(SlotOf(world.net.store, file.name), file.bytes, mode))
  }

  function ShrinksLeft(chunkSize: nat): nat {
    if chunkSize <= MIN_CHUNK then 0 else 1 + ShrinksLeft(Max(MIN_CHUNK, chunkSize / 2))
  }

  lemma {:induction false} SmallerShrinksLess(a: nat, b: nat)
    requires a <= b
    ensures ShrinksLeft(a) <= ShrinksLeft(b)
    decreases b
  {
    if a > MIN_CHUNK {
      SmallerShrinksLess(Max(MIN_CHUNK, a / 2), Max(MIN_CHUNK, b / 2));
    }
  }

  lemma ApplyKeeps(net: Net, request: Request, disk: Disk, files: map<string, Bytes>, mode: Mode)
    requires Inv(net, files, mode) && request.name in files && Piece(request.chunk, files[request.name])
    requires mode.Calm? ==> disk.Fine?
    requires request.chunk.offset == 0 || Sure(SlotOf(net.store, request.name), files[request.name], mode)
    ensures var after := Net(Apply(net.store, request, disk), net.sent + {request});
            && Inv(after, files, mode) && Keeps(net, after, files)
            && (Sure(SlotOf(net.store, request.name), files[request.name], mode)
                ==> Sure(SlotOf(after.store, request.name), files[request.name], mode))
    ensures var file := files[request.name];
            var (slot', reply) := Handle(SlotOf(net.store, request.name), request.chunk, disk);
            && (reply.ServerError? || Sure(slot', file, mode))
            && (reply.Saved? && !mode.Wild? ==> slot'.target == Some(file))
  {
    var slot := SlotOf(net.store, request.name);
    var file := files[request.name];
    HandleKeeps(slot, request.chunk, disk, file);
    SavedIsExactUnlessDeceived(slot, request.chunk, disk, file);
    var after := Net(Apply(net.store, request, disk), net.sent + {request});
    forall name | name in files ensures NameOk(after, name, files[name], mode) {
      if name != request.name {
        assert NameOk(net, name, files[name], mode);
      }
    }
  }

  lemma {:induction false} LateKeeps(net: Net, late: seq<Late>, files: map<string, Bytes>, mode: Mode)
    requires Inv(net, files, mode)
    requires mode.Calm? ==> forall i | 0 <= i < |late| :: late[i].disk.Fine?
    ensures var after := ApplyLate(net, late);
            && after.sent == net.sent && Inv(after, files, mode) && Keeps(net, after, files)
            && (forall name | name in files && Sure(SlotOf(net.store, name), files[name], mode) ::
                  Sure(SlotOf(after.store, name), files[name], mode))
  {
    if late != [] {
      LateKeeps(net, late[..|late| - 1], files, mode);
      var before := ApplyLate(net, late[..|late| - 1]);
      var arrival := late[|late| - 1];
      if arrival.request in net.sent {
        assert NameOk(before, arrival.request.name, files[arrival.request.name], mode);
        ApplyKeeps(before, arrival.request, arrival.disk, files, mode);
        assert net.sent + {arrival.request} == net.sent;
      }
    }
  }

  lemma NextRequestIsPiece(file: File, client: Client)
    requires client.offset <= |file.bytes|
    ensures Piece(NextRequest(file, client).chunk, file.bytes)
  {
  }

  function Applied(fate: Fate): Option<Disk> {
    match fate
    case Delivered(disk) => Some(disk)
    case Dropped(disk) => disk
    case Proxied(disk, _) => disk
  }

  /** What a reply that reached the client lets it conclude about the slot. */
  predicate TellsTruth(slot: Slot, request: Request, answer: Answer, file: Bytes, mode: Mode) {
    && (answer.Http? && answer.reply.None? ==> answer.status >= 300)
    && (answer.Http? && answer.reply.Some? ==>
          var reply := answer.reply.value;
          && answer.status == StatusOf(reply)
          && (answer.status != 500 ==> Sure(slot, file, mode))
          && (reply.Saved? ==> request.chunk.last && (mode.Wild? || slot.target == Some(file)))
          && (reply.Received? ==> !request.chunk.last && reply.size <= |file|)
          && (reply.OutOfSync? ==> reply.have <= |file|))
  }

  /** One exchange, whatever its fate, keeps the network invariant. */
  lemma ExchangeKeeps(net: Net, request: Request, event: Event, files: map<string, Bytes>, mode: Mode)
    requires Inv(net, files, mode) && request.name in files && Piece(request.chunk, files[request.name])
    requires request.chunk.offset == 0 || Sure(SlotOf(net.store, request.name), files[request.name], mode)
    requires Fits(mode, event)
    ensures var after := Exchange(net, request, event).0;
            && Inv(after, files, mode) && Keeps(net, after, files)
            && (request.chunk.offset == 0 || Sure(SlotOf(after.store, request.name), files[request.name], mode))
  {
    LateKeeps(net, event.late, files, mode);
    var n := ApplyLate(net, event.late);
    if Applied(event.fate).Some? {
      ApplyKeeps(n, request, Applied(event.fate).value, files, mode);
    } else {
      var after := Exchange(net, request, event).0;
      forall name | name in files ensures NameOk(after, name, files[name], mode) {
        assert NameOk(n, name, files[name], mode);
      }
    }
  }

  /** And a server reply tells the truth. */
  lemma ExchangeTellsTruth(net: Net, request: Request, event: Event, files: map<string, Bytes>, mode: Mode)
    requires Inv(net, files, mode) && request.name in files && Piece(request.chunk, files[request.name])
    requires request.chunk.offset == 0 || Sure(SlotOf(net.store, request.name), files[request.name], mode)
    requires Fits(mode, event)
    ensures var (after, answer) := Exchange(net, request, event);
            TellsTruth(SlotOf(after.store, request.name), request, answer, files[request.name], mode)
  {
    if event.fate.Delivered? {
      LateKeeps(net, event.late, files, mode);
      var n := ApplyLate(net, event.late);
      ApplyKeeps(n, request, event.fate.disk, files, mode);
      HandleKeeps(SlotOf(n.store, request.name), request.chunk, event.fate.disk, files[request.name]);
    }
  }

  /** One iteration of the client's loop keeps everything, and `Finished` means the exact bytes are stored. */
  lemma IterateKeeps(file: File, world: World, event: Event, files: map<string, Bytes>, mode: Mode)
    requires ClientOk(file, world, files, mode) && world.client.progress.Uploading? && Fits(mode, event)
    ensures var after := Iterate(file, world, event);
            && ClientOk(file, after, files, mode) && Keeps(world.net, after.net, files)
            && (after.client.progress.Finished? && !mode.Wild? ==> Holds(after.net, file))
  {
    NextRequestIsPiece(file, world.client);
    ExchangeKeeps(world.net, NextRequest(file, world.client), event, files, mode);
    ExchangeTellsTruth(world.net, NextRequest(file, world.client), event, files, mode);
    var after := Iterate(file, world, event);
    if after.client.shrinks > world.client.shrinks {
      SmallerShrinksLess(after.client.chunkSize, Max(MIN_CHUNK, world.client.chunkSize / 2));
    }
  }

  /**
   With nothing known about the disk or the old files: the iteration that reports the file as uploaded
   leaves its exact bytes if and only if the retry check was not deceived by an older finished file.
   */
  lemma FinishedIsExactUnlessDeceived(file: File, world: World, event: Event, files: map<string, Bytes>)
    requires ClientOk(file, world, files, Wild) && world.client.progress.Uploading?
    requires Iterate(file, world, event).client.progress.Finished?
    ensures Holds(Iterate(file, world, event).net, file)
       <==> !Deceived(SlotOf(ApplyLate(world.net, event.late).store, file.name),
                      NextRequest(file, world.client).chunk, file.bytes)
  {
    var request := NextRequest(file, world.client);
    NextRequestIsPiece(file, world.client);
    LateKeeps(world.net, event.late, files, Wild);
    ExchangeTellsTruth(world.net, request, event, files, Wild);
    var slot := SlotOf(ApplyLate(world.net, event.late).store, file.name);
    SavedIsExactUnlessDeceived(slot, request.chunk, event.fate.disk, file.bytes);
  }

  /** Whole runs of one file, however long. */
  lemma {:induction false} TraceKeeps(
      file: File, world: World, schedule: Schedule, first: nat, n: nat, files: map<string, Bytes>, mode: Mode)
    requires ClientOk(file, world, files, mode) && world.client.progress.Uploading?
    requires forall k | k >= first :: Fits(mode, schedule(k))
    ensures var after := Trace(file, world, schedule, first, n);
            && ClientOk(file, after, files, mode) && Keeps(world.net, after.net, files)
            && (after.client.progress.Finished? && !mode.Wild? ==> Holds(after.net, file))
  {
    if n > 0 {
      TraceKeeps(file, world, schedule, first, n - 1, files, mode);
      var before := Trace(file, world, schedule, first, n - 1);
      if before.client.progress.Uploading? {
        IterateKeeps(file, before, schedule(first + n - 1), files, mode);
      }
    }
  }

  // ---- termination

  /** 1 when the next handled request may move the client back, 0 when offsets can only advance. */
  function Lag(file: File, world: World): nat {
    var slot := SlotOf(world.net.store, file.name);
    var client := world.client;
    if client.offset == 0 then 0
    else if slot.part.Some? then if |slot.part.value| >= client.offset then 0 else 1
    else if slot.target == Some(file.bytes) && client.offset + client.chunkSize >= |file.bytes| then 0
    else 1
  }

  predicate PiecesSent(file: File, net: Net) {
    forall r | r in net.sent && r.name == file.name :: Piece(r.chunk, file.bytes)
  }

  /** All that progress depends on over a clean network: a sane client and a partial copy that is a prefix. */
  predicate Steady(file: File, world: World) {
    && PiecesSent(file, world.net)
    && world.client.offset <= |file.bytes| && world.client.chunkSize >= MIN_CHUNK
    && (world.client.progress.Uploading? ==> world.client.attempts <= MAX_RETRIES)
    && (world.client.offset == 0 || Synced(SlotOf(world.net.store, file.name), file.bytes))
  }

  /** Lower in (chunk size, lag, bytes left, retries left), lexicographically. */
  predicate Closer(file: File, before: World, after: World) {
    || after.client.chunkSize < before.client.chunkSize
    || (after.client.chunkSize == before.client.chunkSize
        && (|| Lag(file, after) < Lag(file, before)
            || (Lag(file, after) == Lag(file, before)
                && (|| after.client.offset > before.client.offset
                    || (after.client.offset == before.client.offset
                        && after.client.attempts > before.client.attempts)))))
  }

  /** The partial copy is as it was or longer, a prefix if it was one; the finished file is as it was. */
  predicate Grown(before: Slot, after: Slot, file: Bytes) {
    && after.target == before.target && (after.part.Some? <==> before.part.Some?)
    && (before.part.Some? ==> |before.part.value| <= |after.part.value|)
    && (Synced(before, file) ==> Synced(after, file))
  }

  lemma MiddleChunkGrows(slot: Slot, chunk: Chunk, file: Bytes)
    requires Piece(chunk, file) && chunk.offset > 0 && !chunk.last
    ensures Grown(slot, Handle(slot, chunk, Fine).0, file)
  {
    if slot.part.Some? && slot.part.value <= file {
      JoinPiece(slot.part.value, chunk, file);
    }
  }

  lemma {:induction false} LateChunksGrow(file: File, net: Net, late: seq<Late>)
    requires PiecesSent(file, net) && forall i | 0 <= i < |late| :: Forward(file.name, late[i])
    ensures ApplyLate(net, late).sent == net.sent
    ensures Grown(SlotOf(net.store, file.name), SlotOf(ApplyLate(net, late).store, file.name), file.bytes)
  {
    if late != [] {
      LateChunksGrow(file, net, late[..|late| - 1]);
      var before := ApplyLate(net, late[..|late| - 1]);
      var arrival := late[|late| - 1];
      assert Forward(file.name, arrival);
      if arrival.request in net.sent && arrival.request.name == file.name {
        MiddleChunkGrows(SlotOf(before.store, file.name), arrival.request.chunk, file.bytes);
      }
    }
  }

  /** An event is its late arrivals, then its fate. */
  lemma LateFirst(file: File, world: World, event: Event)
    requires ApplyLate(world.net, event.late).sent == world.net.sent
    ensures Iterate(file, world, event)
         == Iterate(file, World(world.client, ApplyLate(world.net, event.late)), Event([], event.fate))
  {
  }

  /** What late arrivals over a clean network do to the measure: nothing bad. */
  lemma CleanArrivals(file: File, world: World, event: Event) returns (arrived: World)
    requires Steady(file, world) && Clean(file.name, event)
    ensures arrived.client == world.client && Steady(file, arrived) && Lag(file, arrived) <= Lag(file, world)
    ensures Iterate(file, world, event) == Iterate(file, arrived, Event([], event.fate))
  {
    arrived := World(world.client, ApplyLate(world.net, event.late));
    LateChunksGrow(file, world.net, event.late);
    LateFirst(file, world, event);
  }

  lemma FateIsSteady(file: File, world: World, fate: Fate)
    requires Steady(file, world) && world.client.progress.Uploading? && CalmFate(fate)
    ensures Steady(file, Iterate(file, world, Event([], fate)))
  {
    var slot, request := SlotOf(world.net.store, file.name), NextRequest(file, world.client);
    NextRequestIsPiece(file, world.client);
    assert ApplyLate(world.net, []) == world.net;
    HandleKeeps(slot, request.chunk, Fine, file.bytes);
  }

  lemma FateIsProgress(file: File, world: World, fate: Fate)
    requires Steady(file, world) && world.client.progress.Uploading? && CalmFate(fate)
    ensures var after := Iterate(file, world, Event([], fate));
            after.client.progress.Uploading? ==> Closer(file, world, after)
  {
    var slot, request := SlotOf(world.net.store, file.name), NextRequest(file, world.client);
    NextRequestIsPiece(file, world.client);
    assert ApplyLate(world.net, []) == world.net;
    HandleKeeps(slot, request.chunk, Fine, file.bytes);
    if slot.part.Some? && world.client.offset > 0 {
      JoinPiece(slot.part.value, request.chunk, file.bytes);
    }
  }

  /** One request over a clean network ends the upload or brings it closer to its end. */
  lemma CleanIterationIsProgress(file: File, world: World, event: Event)
    requires Steady(file, world) && world.client.progress.Uploading? && Clean(file.name, event)
    ensures var after := Iterate(file, world, event);
            Steady(file, after) && (after.client.progress.Uploading? ==> Closer(file, world, after))
  {
    var arrived := CleanArrivals(file, world, event);
    FateIsSteady(file, arrived, event.fate);
    FateIsProgress(file, arrived, event.fate);
  }

  /** Over a clean network every upload ends. */
  lemma {:induction false} CleanEnds(file: File, world: World, schedule: Schedule, first: nat) returns (total: nat)
    requires Steady(file, world)
    requires forall k | k >= first :: Clean(file.name, schedule(k))
    ensures !Trace(file, world, schedule, first, total).client.progress.Uploading?
    decreases world.client.chunkSize, Lag(file, world), |file.bytes| - world.client.offset,
              MAX_RETRIES - world.client.attempts, world.client.progress.Uploading?
  {
    total := 0;
    if world.client.progress.Uploading? {
      var next := Iterate(file, world, schedule(first));
      CleanIterationIsProgress(file, world, schedule(first));
      if next.client.progress.Uploading? {
        total := CleanEnds(file, next, schedule, first + 1);
      }
      total := EndsOneLater(file, world, next, schedule, first, total);
    }
  }

  lemma TraceStep(file: File, world: World, schedule: Schedule, first: nat, n: nat, at: nat)
    requires at == first + n
    ensures var before := Trace(file, world, schedule, first, n);
            Trace(file, world, schedule, first, n + 1)
            == if before.client.progress.Uploading? then Iterate(file, before, schedule(at)) else before
  {
  }

  lemma {:induction false} TraceSplit(file: File, world: World, schedule: Schedule, first: nat, n: nat, m: nat)
    ensures Trace(file, world, schedule, first, n + m)
         == Trace(file, Trace(file, world, schedule, first, n), schedule, first + n, m)
    decreases m
  {
    if m > 0 {
      var at := first + n + (m - 1);
      TraceSplit(file, world, schedule, first, n, m - 1);
      TraceStep(file, world, schedule, first, n + (m - 1), at);
      TraceStep(file, Trace(file, world, schedule, first, n), schedule, first + n, m - 1, at);
    }
  }

  /** A run is its first request and the run after it. */
  lemma TraceFirst(file: File, world: World, schedule: Schedule, first: nat, m: nat)
    requires world.client.progress.Uploading?
    ensures Trace(file, world, schedule, first, m + 1)
         == Trace(file, Iterate(file, world, schedule(first)), schedule, first + 1, m)
  {
    TraceStep(file, world, schedule, first, 0, first);
    TraceSplit(file, world, schedule, first, 1, m);
  }

  lemma EndsOneLater(file: File, world: World, next: World, schedule: Schedule, first: nat, n: nat)
      returns (total: nat)
    requires world.client.progress.Uploading? && next == Iterate(file, world, schedule(first))
    requires !Trace(file, next, schedule, first + 1, n).client.progress.Uploading?
    ensures !Trace(file, world, schedule, first, total).client.progress.Uploading?
  {
    TraceFirst(file, world, schedule, first, n);
    total := n + 1;
  }

  lemma OkIsSteady(file: File, world: World, files: map<string, Bytes>)
    requires ClientOk(file, world, files, Wild)
    ensures Steady(file, world)
  {
    assert NameOk(world.net, file.name, file.bytes, Wild);
  }

  /** Once the network is clean from `quiet` on, every upload ends, whatever happened before. */
  lemma UploadEnds(file: File, world: World, schedule: Schedule, first: nat, quiet: nat, files: map<string, Bytes>)
      returns (total: nat)
    requires ClientOk(file, world, files, Wild) && world.client.progress.Uploading?
    requires forall k | k >= quiet :: Clean(file.name, schedule(k))
    ensures forall n | n >= total :: !Trace(file, world, schedule, first, n).client.progress.Uploading?
  {
    var n := Max(0, quiet - first);
    TraceKeeps(file, world, schedule, first, n, files, Wild);
    var calm := Trace(file, world, schedule, first, n);
    OkIsSteady(file, calm, files);
    var rest := CleanEnds(file, calm, schedule, first + n);
    TraceSplit(file, world, schedule, first, n, rest);
    total := n + rest;
    forall k | k >= total ensures !Trace(file, world, schedule, first, k).client.progress.Uploading? {
      EndedStays(file, world, schedule, first, total, k);
    }
  }

  lemma {:induction false} EndedStays(file: File, world: World, schedule: Schedule, first: nat, n: nat, k: nat)
    requires n <= k && !Trace(file, world, schedule, first, n).client.progress.Uploading?
    ensures Trace(file, world, schedule, first, k) == Trace(file, world, schedule, first, n)
  {
    if n < k {
      EndedStays(file, world, schedule, first, n, k - 1);
    }
  }

  // ---- where the guarantees stop

  /** A disk failure during the final chunk makes the client report an old look-alike as uploaded. */
  lemma OldFileReportedAsUploaded(file: File, stale: Bytes, store: map<string, Slot>, schedule: Schedule)
    requires MIN_CHUNK < |file.bytes| <= 2 * MIN_CHUNK
    requires SlotOf(store, file.name).target == Some(stale) && Mimics(Some(stale), file.bytes)
    requires stale[MIN_CHUNK..] == file.bytes[MIN_CHUNK..]
    requires schedule(0) == Event([], Proxied(None, 413))
    requires schedule(1) == Event([], Delivered(Fine))
    requires schedule(2) == Event([], Delivered(WriteFails(true, 0, true)))
    requires schedule(3) == Event([], Delivered(Fine))
    ensures var end := Trace(file, World(Client(MAX_CHUNK, 0, 0, 0, Uploading), Net(store, {})), schedule, 0, 4);
            end.client.progress.Finished? && SlotOf(end.net.store, file.name).target == Some(stale) != Some(file.bytes)
  {
    var w0 := World(Client(MAX_CHUNK, 0, 0, 0, Uploading), Net(store, {}));
    var w1 := Trace(file, w0, schedule, 0, 1);
    assert w1 == Iterate(file, Trace(file, w0, schedule, 0, 0), schedule(0));
    assert w1.client == Client(MIN_CHUNK, 0, 0, 1, Uploading);
    var w2 := Trace(file, w0, schedule, 0, 2);
    assert w2 == Iterate(file, w1, schedule(1));
    assert w2.client == Client(MIN_CHUNK, MIN_CHUNK, 0, 1, Uploading);
    var w3 := Trace(file, w0, schedule, 0, 3);
    assert w3 == Iterate(file, w2, schedule(2));
    assert w3.client == Client(MIN_CHUNK, MIN_CHUNK, 1, 1, Uploading);
    assert SlotOf(w3.net.store, file.name) == Slot(None, Some(stale));
    var w4 := Trace(file, w0, schedule, 0, 4);
    assert w4 == Iterate(file, w3, schedule(3));
    LookAlikeIsTaken(file, stale, w3, schedule(3));
  }

  /** With the partial copy gone, the last chunk sent again is taken for a retry of the old file's. */
  lemma LookAlikeIsTaken(file: File, stale: Bytes, world: World, event: Event)
    requires MIN_CHUNK < |file.bytes| <= 2 * MIN_CHUNK && |stale| == |file.bytes|
    requires stale[MIN_CHUNK..] == file.bytes[MIN_CHUNK..]
    requires world.client == Client(MIN_CHUNK, MIN_CHUNK, 1, 1, Uploading)
    requires SlotOf(world.net.store, file.name) == Slot(None, Some(stale)) && event == Event([], Delivered(Fine))
    ensures var after := Iterate(file, world, event);
            after.client.progress.Finished? && SlotOf(after.net.store, file.name) == Slot(None, Some(stale))
  {
    var chunk := NextRequest(file, world.client).chunk;
    assert ApplyLate(world.net, []) == world.net;
    assert chunk.last && chunk.offset == MIN_CHUNK;
    assert chunk.body == file.bytes[MIN_CHUNK..] == stale[MIN_CHUNK..];
    assert stale[MIN_CHUNK..MIN_CHUNK + |chunk.body|] == chunk.body;
    assert RangeEquals(Some(stale), MIN_CHUNK, chunk.body);
  }

  // ---- the client's loops

  /** The body of the loop after the request: what one answer changes. */
  method TakeAnswer(file: File, chunkSize0: nat, offset0: nat, attempts0: nat, shrinks0: nat, answer: Answer)
      returns (chunkSize: nat, offset: nat, attempts: nat, shrinks: nat, progress: Progress)
    requires offset0 <= |file.bytes|
    ensures Client(chunkSize, offset, attempts, shrinks, progress)
         == React(file, Client(chunkSize0, offset0, attempts0, shrinks0, Uploading), answer)
  {
    chunkSize, offset, attempts, shrinks, progress := chunkSize0, offset0, attempts0, shrinks0, Uploading;
    var end := Min(offset + chunkSize, |file.bytes|);
    match answer
    case Lost =>
      attempts := attempts + 1;
      progress := if attempts > MAX_RETRIES then Failed else Uploading;
    case Http(status, reply) =>
      if 200 <= status < 300 {
        attempts := 0;
        if end >= |file.bytes| || reply == Some(Saved) {
          progress := Finished;
        } else {
          offset := if reply.Some? && reply.value.Received? then reply.value.size else end;
        }
      } else if status == 409 && reply.Some? && reply.value.OutOfSync? {
        attempts := attempts + 1;
        if attempts > MAX_RETRIES {
          progress := Failed;
        } else {
          offset := reply.value.have;
        }
      } else if status == 413 && chunkSize > MIN_CHUNK {
        chunkSize := Max(MIN_CHUNK, Min(chunkSize, end - offset) / 2);
        shrinks := shrinks + 1;
        attempts := 0;
      } else if status >= 500 || status == 429 {
        attempts := attempts + 1;
        progress := if attempts > MAX_RETRIES then Failed else Uploading;
      } else {
        progress := Failed;
      }
  }

  /** One turn of the retry loop: cut the chunk, send it, take the answer. */
  method SendChunk(file: File, chunkSize0: nat, offset0: nat, attempts0: nat, shrinks0: nat, net0: Net, event: Event)
      returns (chunkSize: nat, offset: nat, attempts: nat, shrinks: nat, progress: Progress, net: Net)
    requires offset0 <= |file.bytes|
    ensures World(Client(chunkSize, offset, attempts, shrinks, progress), net)
         == Iterate(file, World(Client(chunkSize0, offset0, attempts0, shrinks0, Uploading), net0), event)
  {
    var request := NextRequest(file, Client(chunkSize0, offset0, attempts0, shrinks0, Uploading));
    var exchanged := Exchange(net0, request, event);
    net := exchanged.0;
    chunkSize, offset, attempts, shrinks, progress :=
      TakeAnswer(file, chunkSize0, offset0, attempts0, shrinks0, exchanged.1);
  }

  /** The run stays within the file and is over after `total` requests. */
  ghost predicate EndsBy(file: File, start: World, schedule: Schedule, first: nat, total: nat) {
    && (forall n: nat :: Trace(file, start, schedule, first, n).client.offset <= |file.bytes|)
    && forall n | n >= total :: !Trace(file, start, schedule, first, n).client.progress.Uploading?
  }

  lemma RunEnds(file: File, start: World, schedule: Schedule, first: nat, quiet: nat, files: map<string, Bytes>)
      returns (total: nat)
    requires ClientOk(file, start, files, Wild) && start.client.progress.Uploading?
    requires forall k | k >= quiet :: Clean(file.name, schedule(k))
    ensures EndsBy(file, start, schedule, first, total)
  {
    total := UploadEnds(file, start, schedule, first, quiet, files);
    forall n: nat ensures Trace(file, start, schedule, first, n).client.offset <= |file.bytes| {
      TraceKeeps(file, start, schedule, first, n, files, Wild);
    }
  }

  /** `run` is a run from request `first` on: world k + 1 is world k after its event, while the upload goes on. */
  ghost predicate Follows(file: File, run: nat -> World, schedule: Schedule, first: nat) {
    forall k: nat | run(k).client.progress.Uploading? :: run(k + 1) == Iterate(file, run(k), schedule(first + k))
  }

  lemma TraceFollows(file: File, start: World, schedule: Schedule, first: nat) returns (run: nat -> World)
    ensures Follows(file, run, schedule, first)
    ensures forall k: nat :: run(k) == Trace(file, start, schedule, first, k)
  {
    run := (k: nat) => Trace(file, start, schedule, first, k);
    forall k: nat | run(k).client.progress.Uploading?
      ensures run(k + 1) == Iterate(file, run(k), schedule(first + k))
    {
      TraceStep(file, start, schedule, first, k, first + k);
    }
  }

  /** The retry loop for one file. It ends because the run it is part of does. */
  method UploadFile(file: File, net0: Net, chunkSize0: nat, shrinks0: nat, schedule: Schedule, first: nat,
                    ghost total: nat)
      returns (result: World, next: nat)
    requires EndsBy(file, World(Client(chunkSize0, 0, 0, shrinks0, Uploading), net0), schedule, first, total)
    ensures next >= first && !result.client.progress.Uploading?
    ensures result
         == Trace(file, World(Client(chunkSize0, 0, 0, shrinks0, Uploading), net0), schedule, first, next - first)
  {
    var net, chunkSize, shrinks := net0, chunkSize0, shrinks0;
    next := first;
    var offset: nat, attempts: nat, progress := 0, 0, Uploading;
    ghost var start := World(Client(chunkSize, offset, attempts, shrinks, progress), net0);
    ghost var run := TraceFollows(file, start, schedule, first);
    ghost var n: nat := 0;
    while progress.Uploading?
      invariant next == first + n
      invariant World(Client(chunkSize, offset, attempts, shrinks, progress), net) == run(n)
      decreases total - n
    {
      assert run(n).client.offset <= |file.bytes|;
      chunkSize, offset, attempts, shrinks, progress, net :=
        SendChunk(file, chunkSize, offset, attempts, shrinks, net, schedule(next));
      next, n := next + 1, n + 1;
    }
    result := World(Client(chunkSize, offset, attempts, shrinks, progress), net);
  }

  predicate Distinct(files: seq<File>) {
    forall i, j | 0 <= i < j < |files| :: files[i].name != files[j].name
  }

  ghost function Contents(files: seq<File>): map<string, Bytes>
    requires Distinct(files)
  {
    assert forall f, g | f in files && g in files && f.name == g.name :: f == g;
    map f | f in files :: f.name := f.bytes
  }

  predicate NoLookAlikes(files: seq<File>, store: map<string, Slot>) {
    forall i | 0 <= i < |files| :: !Mimics(SlotOf(store, files[i].name).target, files[i].bytes)
  }

  lemma FreshNet(files: seq<File>, net: Net, mode: Mode)
    requires Distinct(files) && net.sent == {}
    requires mode.OldHarmless? ==> NoLookAlikes(files, net.store)
    ensures Inv(net, Contents(files), mode)
  {
    forall name | name in Contents(files) ensures NameOk(net, name, Contents(files)[name], mode) {
      var f :| f in files && f.name == name && f.bytes == Contents(files)[name];
    }
  }

  /** What is known when one file's loop has ended, in the mode the whole run is in. */
  lemma FileEnds(file: File, client: Client, net: Net, schedule: Schedule, first: nat, n: nat,
                 files: map<string, Bytes>, mode: Mode, end: World)
    requires ClientOk(file, World(client, net), files, mode) && client.progress.Uploading?
    requires forall k | k >= first :: Fits(mode, schedule(k))
    requires end == Trace(file, World(client, net), schedule, first, n)
    ensures Inv(end.net, files, mode) && Keeps(net, end.net, files)
    ensures MIN_CHUNK <= end.client.chunkSize <= MAX_CHUNK
    ensures end.client.shrinks + ShrinksLeft(end.client.chunkSize) <= 7
    ensures end.client.progress.Finished? && !mode.Wild? ==> Holds(end.net, file)
  {
    TraceKeeps(file, World(client, net), schedule, first, n, files, mode);
  }

  lemma WildIsWeakest(file: File, world: World, files: map<string, Bytes>, mode: Mode)
    requires ClientOk(file, world, files, mode)
    ensures ClientOk(file, world, files, Wild)
  {
    forall name | name in files ensures NameOk(world.net, name, files[name], Wild) {
      assert NameOk(world.net, name, files[name], mode);
    }
  }

  lemma StillHeld(files: seq<File>, done: seq<File>, a: Net, b: Net)
    requires Distinct(files) && forall f | f in done :: f in files && Holds(a, f)
    requires Keeps(a, b, Contents(files))
    ensures forall f | f in done :: Holds(b, f)
  {
    forall f | f in done ensures Holds(b, f) {
      assert f.name in Contents(files) && Contents(files)[f.name] == f.bytes;
    }
  }

  /** Where the next file's loop starts: chunks of the size the one before left, at offset 0. */
  function StartAfter(net0: Net, ends: seq<World>): World {
    if ends == [] then World(Client(MAX_CHUNK, 0, 0, 0, Uploading), net0)
    else
      var last := ends[|ends| - 1];
      World(Client(last.client.chunkSize, 0, 0, last.client.shrinks, Uploading), last.net)
  }

  /** The first file starts with chunks of 8 MiB; a later one keeps the size to which chunks were halved before. */
  lemma SizeIsKept(net0: Net, ends: seq<World>)
    ensures var start := StartAfter(net0, ends);
            && start.client.progress.Uploading? && start.client.offset == start.client.attempts == 0
            && start.client.chunkSize == (if ends == [] then 8_388_608 else ends[|ends| - 1].client.chunkSize)
            && start.net == if ends == [] then net0 else ends[|ends| - 1].net
  {
  }

  /** The loop of one file took the requests from `first` up to `next` and left `end`. */
  ghost predicate RanOne(file: File, start: World, schedule: Schedule, first: nat, next: nat, end: World) {
    first <= next && !end.client.progress.Uploading? && end == Trace(file, start, schedule, first, next - first)
  }

  /** One run after the other: file i took the requests from at[i] up to at[i + 1] and left ends[i]. */
  ghost predicate Runs(files: seq<File>, net0: Net, schedule: Schedule, at: seq<nat>, ends: seq<World>)
    decreases |ends|
  {
    && |ends| <= |files| && |at| == |ends| + 1
    && if ends == [] then at[0] == 0
       else
         var last := |ends| - 1;
         && Runs(files, net0, schedule, at[..last + 1], ends[..last])
         && RanOne(files[last], StartAfter(net0, ends[..last]), schedule, at[last], at[last + 1], ends[last])
  }

  lemma RunsMore(files: seq<File>, net0: Net, schedule: Schedule, at: seq<nat>, ends: seq<World>, end: World, next: nat)
    requires Runs(files, net0, schedule, at, ends) && |ends| < |files|
    requires RanOne(files[|ends|], StartAfter(net0, ends), schedule, at[|ends|], next, end)
    ensures Runs(files, net0, schedule, at + [next], ends + [end])
  {
    assert (ends + [end])[..|ends|] == ends && (at + [next])[..|ends| + 1] == at;
  }

  /** The files whose loops have finished. */
  function Done(files: seq<File>, ends: seq<World>): seq<File>
    requires |ends| <= |files|
  {
    if ends == [] then []
    else
      var last := |ends| - 1;
      Done(files, ends[..last]) + (if ends[last].client.progress.Finished? then [files[last]] else [])
  }

  /** What is known between two files. */
  ghost predicate Between(files: seq<File>, done: seq<File>, world: World, mode: Mode)
    requires Distinct(files)
  {
    && Inv(world.net, Contents(files), mode)
    && MIN_CHUNK <= world.client.chunkSize <= MAX_CHUNK
    && world.client.shrinks + ShrinksLeft(world.client.chunkSize) <= 7
    && forall f | f in done :: f in files && (mode.Wild? || Holds(world.net, f))
  }

  lemma BetweenStart(files: seq<File>, net: Net, mode: Mode)
    requires Distinct(files) && net.sent == {}
    requires mode.OldHarmless? ==> NoLookAlikes(files, net.store)
    ensures Between(files, [], StartAfter(net, []), mode)
  {
    FreshNet(files, net, mode);
    assert ShrinksLeft(MAX_CHUNK) == 7;
  }

  lemma ReadyForFile(files: seq<File>, done: seq<File>, world: World, mode: Mode, file: File)
    requires Distinct(files) && Between(files, done, world, mode) && file in files
    requires world.client == Client(world.client.chunkSize, 0, 0, world.client.shrinks, Uploading)
    ensures ClientOk(file, world, Contents(files), mode) && ClientOk(file, world, Contents(files), Wild)
  {
    assert file.name in Contents(files) && Contents(files)[file.name] == file.bytes;
    WildIsWeakest(file, world, Contents(files), mode);
  }

  lemma BetweenNext(files: seq<File>, done: seq<File>, world: World, mode: Mode, file: File, schedule: Schedule,
                    first: nat, n: nat, end: World)
    requires Distinct(files) && Between(files, done, world, mode) && file in files
    requires world.client == Client(world.client.chunkSize, 0, 0, world.client.shrinks, Uploading)
    requires forall k: nat :: Fits(mode, schedule(k))
    requires end == Trace(file, world, schedule, first, n)
    ensures Between(files, done + (if end.client.progress.Finished? then [file] else []), end, mode)
  {
    ReadyForFile(files, done, world, mode, file);
    FileEnds(file, world.client, world.net, schedule, first, n, Contents(files), mode, end);
    if !mode.Wild? {
      StillHeld(files, done, world.net, end.net);
    }
  }

  /** Some of the files are through: `start` is where the next one starts. */
  ghost predicate Through(files: seq<File>, net0: Net, schedule: Schedule, mode: Mode, at: seq<nat>, ends: seq<World>,
                          done: seq<File>, start: World)
    requires Distinct(files)
  {
    && Runs(files, net0, schedule, at, ends) && start == StartAfter(net0, ends)
    && done == Done(files, ends) && Between(files, done, start, mode)
  }

  lemma ThroughNext(files: seq<File>, net0: Net, schedule: Schedule, mode: Mode, at: seq<nat>, ends: seq<World>,
                    done: seq<File>, start: World, end: World, next: nat)
    requires Distinct(files) && Through(files, net0, schedule, mode, at, ends, done, start)
    requires |ends| < |files| && RanOne(files[|ends|], start, schedule, at[|ends|], next, end)
    requires forall k: nat :: Fits(mode, schedule(k))
    ensures Through(files, net0, schedule, mode, at + [next], ends + [end],
                    done + (if end.client.progress.Finished? then [files[|ends|]] else []),
                    World(Client(end.client.chunkSize, 0, 0, end.client.shrinks, Uploading), end.net))
  {
    var first := at[|ends|];
    BetweenNext(files, done, start, mode, files[|ends|], schedule, first, next - first, end);
    RunsMore(files, net0, schedule, at, ends, end, next);
    assert (ends + [end])[..|ends|] == ends;
  }

  lemma ReadyToRun(files: seq<File>, net0: Net, schedule: Schedule, mode: Mode, at: seq<nat>, ends: seq<World>,
                   done: seq<File>, start: World, next: nat, quiet: nat)
      returns (total: nat)
    requires Distinct(files) && Through(files, net0, schedule, mode, at, ends, done, start) && |ends| < |files|
    requires forall k | k >= quiet :: Clean(files[|ends|].name, schedule(k))
    ensures EndsBy(files[|ends|], start, schedule, next, total)
  {
    assert start.client.progress.Uploading?;
    ReadyForFile(files, done, start, mode, files[|ends|]);
    total := RunEnds(files[|ends|], start, schedule, next, quiet, Contents(files));
  }

  /** All selected files, one after the other; `done` lists the files reported as uploaded. */
  method UploadFiles(files: seq<File>, net0: Net, schedule: Schedule, ghost quiet: nat, ghost mode: Mode)
      returns (net: Net, done: seq<File>, shrinks: nat, ghost at: seq<nat>, ghost ends: seq<World>)
    requires Distinct(files) && net0.sent == {}
    requires forall f, k | f in files && k >= quiet :: Clean(f.name, schedule(k))
    requires forall k: nat :: Fits(mode, schedule(k))
    requires mode.OldHarmless? ==> NoLookAlikes(files, net0.store)
    ensures Runs(files, net0, schedule, at, ends) && |ends| == |files|
    ensures done == Done(files, ends) && net == StartAfter(net0, ends).net
    ensures forall f | f in done :: f in files && (mode.Wild? || Holds(net, f))
    ensures shrinks == StartAfter(net0, ends).client.shrinks <= 7
  {
    BetweenStart(files, net0, mode);
    net, done, shrinks, at, ends := net0, [], 0, [0], [];
    var chunkSize, next := MAX_CHUNK, 0;
    ghost var start := StartAfter(net0, ends);
    for i := 0 to |files|
      invariant |ends| == i && |at| == i + 1 && next == at[i]
      invariant start == World(Client(chunkSize, 0, 0, shrinks, Uploading), net)
      invariant Through(files, net0, schedule, mode, at, ends, done, start)
    {
      ghost var total := ReadyToRun(files, net0, schedule, mode, at, ends, done, start, next, quiet);
      var result;
      result, next := UploadFile(files[i], net, chunkSize, shrinks, schedule, next, total);
      ThroughNext(files, net0, schedule, mode, at, ends, done, start, result, next);
      at, ends := at + [next], ends + [result];
      net, chunkSize, shrinks := result.net, result.client.chunkSize, result.client.shrinks;
      start := World(Client(chunkSize, 0, 0, shrinks, Uploading), net);
      if result.client.progress.Finished? {
        done := done + [files[i]];
      }
    }
  }
}
