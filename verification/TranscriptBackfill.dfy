/** The renderer's own loops, run on the real store while live messages arrive at every await. */
module TranscriptBackfill {
  import opened Prelude
  import opened TranscriptTurns
  import opened ToolCards
  import opened TranscriptRender
  import opened TranscriptJobs

  /** The live messages that arrive during the n-th await. */
  type Arrivals = nat -> seq<Message>

  /** All live messages of the first n awaits. */
  function Arrived(arrivals: Arrivals, n: nat): seq<Message> {
    if n == 0 then [] else Arrived(arrivals, n - 1) + arrivals(n - 1)
  }

  ghost predicate Displays(transcript: Transcript, screen: Screen)
    reads transcript, transcript.cards
  {
    && transcript.batch.None? && Contents(transcript.items) == screen.contents
    && transcript.cards.View() == ToolCards.Run(EMPTY, screen.log)
  }

  /** Clears the transcript, as the start of every render does. */
  method ClearTranscript(transcript: Transcript)
    requires transcript.batch.None?
    modifies transcript, transcript.cards
    ensures Displays(transcript, Screen([], []))
  {
    transcript.items := [];
    transcript.cards.Clear();
  }

  method Publish(transcript: Transcript, chunk: seq<Message>, prepend: bool, ghost screen: Screen)
    requires Displays(transcript, screen)
    modifies transcript, transcript.cards
    ensures Displays(transcript, TranscriptJobs.Render(screen, chunk, prepend))
  {
    ghost var before := transcript.items;
    ghost var added := transcript.RenderChunk(chunk, prepend);
    ContentsConcat(added, before);
    ContentsConcat(before, added);
    FoldConcat(ToolCards.Step, EMPTY, screen.log, OpsAll(if prepend then Reverse(chunk) else chunk));
  }

  /** One await: the live messages that arrived are appended one by one. */
  method Await(transcript: Transcript, arrived: seq<Message>, ghost screen: Screen, ghost turns: seq<Turn>,
               ghost base: seq<Message>, ghost live: seq<Message>)
      returns (ghost after: Screen)
    requires Displays(transcript, screen) && Shows(screen, turns, base, live)
    modifies transcript, transcript.cards
    ensures Displays(transcript, after) && Shows(after, turns, base, live + arrived)
  {
    after := screen;
    assert live + arrived[..0] == live;
    for i := 0 to |arrived|
      invariant Displays(transcript, after) && Shows(after, turns, base, live + arrived[..i])
    {
      Publish(transcript, [arrived[i]], false, after);
      LiveShows(after, turns, base, live + arrived[..i], arrived[i]);
      after := TranscriptJobs.Render(after, [arrived[i]], false);
      PrefixStep(arrived, i);
      assert live + arrived[..i + 1] == live + arrived[..i] + [arrived[i]];
    }
    assert arrived[..|arrived|] == arrived;
  }

  /** Takes one chunk off the queue and prepends it. */
  method PrependChunk(transcript: Transcript, queue: TurnQueue, chunkSize: nat, ghost screen: Screen,
                      ghost base: seq<Message>, ghost live: seq<Message>)
      returns (ghost after: Screen)
    requires chunkSize >= 1 && NonEmptyTurns(queue.turns) && queue.turns != []
    requires Displays(transcript, screen) && Shows(screen, queue.turns, base, live)
    modifies transcript, transcript.cards, queue
    ensures NonEmptyTurns(queue.turns) && |Flatten(queue.turns)| < |Flatten(old(queue.turns))|
    ensures Displays(transcript, after) && Shows(after, queue.turns, base, live)
  {
    PrependShows(screen, queue.turns, base, live, SizesRaw(1, chunkSize));
    TakeTailLaw(queue.turns, chunkSize, false, []);
    var chunk := queue.TakeTailChunk(chunkSize, false);
    Publish(transcript, chunk, true, screen);
    after := TranscriptJobs.Render(screen, chunk, true);
  }

  /** One round of the loop: yield, take and prepend a chunk, let the view settle. */
  method Round(transcript: Transcript, queue: TurnQueue, chunkSize: nat, arrivals: Arrivals, n: nat,
               ghost screen: Screen, ghost base: seq<Message>)
      returns (ghost after: Screen)
    requires chunkSize >= 1 && NonEmptyTurns(queue.turns) && queue.turns != []
    requires Displays(transcript, screen) && Shows(screen, queue.turns, base, Arrived(arrivals, n))
    modifies transcript, transcript.cards, queue
    ensures NonEmptyTurns(queue.turns) && |Flatten(queue.turns)| < |Flatten(old(queue.turns))|
    ensures Displays(transcript, after) && Shows(after, queue.turns, base, Arrived(arrivals, n + 2))
  {
    ghost var live, more := Arrived(arrivals, n), Arrived(arrivals, n + 1);
    after := Await(transcript, arrivals(n), screen, queue.turns, base, live);
    after := PrependChunk(transcript, queue, chunkSize, after, base, more);
    after := Await(transcript, arrivals(n + 1), after, queue.turns, base, more);
    assert Arrived(arrivals, n + 2) == more + arrivals(n + 1);
  }

  /** Drains the remaining turns chunk by chunk, continuing after `first` awaits. */
  method Backfill(transcript: Transcript, queue: TurnQueue, chunkSize: nat, arrivals: Arrivals, first: nat,
                  ghost screen: Screen, ghost base: seq<Message>)
      returns (awaits: nat, ghost after: Screen)
    requires chunkSize >= 1 && NonEmptyTurns(queue.turns)
    requires Displays(transcript, screen) && Shows(screen, queue.turns, base, Arrived(arrivals, first))
    modifies transcript, transcript.cards, queue
    ensures queue.turns == [] && awaits >= first
    ensures Displays(transcript, after) && Shows(after, [], base, Arrived(arrivals, awaits))
  {
    awaits, after := first, screen;
    while |queue.turns| > 0
      invariant NonEmptyTurns(queue.turns) && awaits >= first
      invariant Displays(transcript, after) && Shows(after, queue.turns, base, Arrived(arrivals, awaits))
      decreases |Flatten(queue.turns)|
    {
      after := Round(transcript, queue, chunkSize, arrivals, awaits, after, base);
      awaits := awaits + 2;
    }
  }

  /**
   A render that nothing supersedes: the store ends with all messages in order, then every message
   that arrived during its awaits, and the cards are those of in-order rendering.
   */
  method RenderTranscript(transcript: Transcript, messages: seq<Message>, sizes: Sizes, arrivals: Arrivals)
      returns (awaits: nat)
    requires transcript.batch.None?
    modifies transcript, transcript.cards
    ensures Contents(transcript.items) == ShownAll(messages + Arrived(arrivals, awaits))
    ensures Sifted(messages + Arrived(arrivals, awaits), Contents(transcript.items))
    ensures NoClash(OpsAll(messages + Arrived(arrivals, awaits))) ==>
              && transcript.cards.View() == ToolCards.Run(EMPTY, OpsAll(messages + Arrived(arrivals, awaits)))
              && CardsTell(messages + Arrived(arrivals, awaits), transcript.cards.cards)
  {
    ClearTranscript(transcript);
    var turns := SplitIntoTurns(messages);
    var queue := new TurnQueue(turns);
    StartShows(messages, sizes);
    var chunk := queue.TakeTailChunk(sizes.tail, true);
    Publish(transcript, chunk, false, Screen([], []));
    ghost var after := TranscriptJobs.Render(Screen([], []), chunk, false);
    after := Await(transcript, arrivals(0), after, queue.turns, messages, []);
    assert Arrived(arrivals, 0) == [];
    awaits, after := Backfill(transcript, queue, sizes.chunk, arrivals, 1, after, messages);
    assert messages[0..] == messages;
    ghost var at := ShownIsSifted(messages + Arrived(arrivals, awaits));
    if NoClash(OpsAll(messages + Arrived(arrivals, awaits))) {
      CardsOfMessages(messages + Arrived(arrivals, awaits));
      OrderIndependence(OpsAll(messages + Arrived(arrivals, awaits)), after.log);
    }
  }
}
