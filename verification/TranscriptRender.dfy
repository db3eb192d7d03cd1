/**
 Tail-first rendering: the newest turns are shown first and older chunks are prepended between
 awaits, while live messages are appended and newer renders take over.
 */
module TranscriptRender {
  import opened Prelude
  import opened TranscriptTurns
  import opened ToolCards

  // ---- what rendering one message adds

  /** The transcript item a message becomes; results only update a card, empty notes show nothing. */
  function Shown(message: Message): seq<Message> {
    match message
    case ToolResult(_, _, _) => []
    case Custom(note) => if note == "" then [] else [message]
    case _ => [message]
  }

  function CallOf(block: Block): seq<CardOp> {
    if block.Call? then [Ensure(block.call)] else []
  }

  function OpsOf(message: Message): seq<CardOp> {
    match message
    case Assistant(blocks) => FlatMap(CallOf, blocks)
    case ToolResult(callId, output, isError) => [Finish(callId, Result(output, isError))]
    case _ => []
  }

  function ShownAll(messages: seq<Message>): seq<Message> {
    FlatMap(Shown, messages)
  }

  function OpsAll(messages: seq<Message>): seq<CardOp> {
    FlatMap(OpsOf, messages)
  }

  lemma RunOpsAppend(r: Registry, messages: seq<Message>, message: Message)
    ensures Run(r, OpsAll(messages + [message])) == Run(Run(r, OpsAll(messages)), OpsOf(message))
  {
    FlatMapAppend(OpsOf, messages, message);
    FoldConcat(Step, r, OpsAll(messages), OpsOf(message));
  }

  /** Rendering a chunk backwards performs the same card operations in another order. */
  lemma {:induction false} ReverseSameOps(messages: seq<Message>)
    ensures multiset(OpsAll(Reverse(messages))) == multiset(OpsAll(messages))
  {
    if messages != [] {
      var init, last := messages[..|messages| - 1], messages[|messages| - 1];
      ReverseSameOps(init);
      FlatMapConcat(OpsOf, [last], Reverse(init));
      FlatMapOne(OpsOf, last);
    }
  }

  // ---- what that is, told from the messages alone

  /** A message that leaves no item: a tool result, or an empty note. */
  predicate Silent(message: Message) {
    message.ToolResult? || message == Custom("")
  }

  /** The output is the input at these places, in order; all other places are silent. */
  predicate Picks(input: seq<Message>, output: seq<Message>, at: seq<nat>) {
    && |at| == |output|
    && (forall k | 0 <= k < |at| :: at[k] < |input| && output[k] == input[at[k]] && !Silent(output[k]))
    && (forall j, k | 0 <= j < k < |at| :: at[j] < at[k])
    && (forall i: nat | i < |input| && !Silent(input[i]) :: i in at)
  }

  /** The messages that are not silent, in order. */
  ghost predicate Sifted(input: seq<Message>, output: seq<Message>) {
    exists at: seq<nat> :: Picks(input, output, at)
  }

  lemma PicksSilent(input: seq<Message>, output: seq<Message>, at: seq<nat>, message: Message)
    requires Picks(input, output, at) && Silent(message)
    ensures Picks(input + [message], output, at)
  {
  }

  lemma PicksShown(input: seq<Message>, output: seq<Message>, at: seq<nat>, message: Message)
    requires Picks(input, output, at) && !Silent(message)
    ensures Picks(input + [message], output + [message], at + [|input|])
  {
    var more := at + [|input|];
    forall i: nat | i < |input| + 1 && !Silent((input + [message])[i]) ensures i in more {
      if i < |input| {
        assert i in at;
      } else {
        assert more[|at|] == i;
      }
    }
  }

  /** Rendering shows exactly the messages that are not silent, each where it stands. */
  lemma {:induction false} ShownIsSifted(messages: seq<Message>) returns (at: seq<nat>)
    ensures Picks(messages, ShownAll(messages), at) && Sifted(messages, ShownAll(messages))
  {
    at := [];
    if messages != [] {
      var init, last := messages[..|messages| - 1], messages[|messages| - 1];
      at := ShownIsSifted(init);
      InitAndLast(messages);
      if Silent(last) {
        NothingAdded(ShownAll(init));
        PicksSilent(init, ShownAll(init), at, last);
      } else {
        PicksShown(init, ShownAll(init), at, last);
        at := at + [|init|];
      }
    }
  }

  /** So a message that is not silent is shown as often as it occurs, and a silent one never. */
  lemma {:induction false} ShownCount(messages: seq<Message>, m: Message)
    ensures multiset(ShownAll(messages))[m] == if Silent(m) then 0 else multiset(messages)[m]
  {
    if messages != [] {
      var init, last := messages[..|messages| - 1], messages[|messages| - 1];
      ShownCount(init, m);
      InitAndLast(messages);
      assert multiset(ShownAll(init) + Shown(last)) == multiset(ShownAll(init)) + multiset(Shown(last));
    }
  }

  /** An assistant message holds this call. */
  predicate Calls(messages: seq<Message>, call: ToolCall) {
    exists m | m in messages :: m.Assistant? && Call(call) in m.blocks
  }

  /**
   There is a card for exactly the calls of the messages; it shows the output and the outcome of its result, or that
   it is running when there is none.
   */
  ghost predicate CardsTell(messages: seq<Message>, cards: map<string, Card>) {
    && (forall id | id in cards :: cards[id].call.id == id && Calls(messages, cards[id].call))
    && (forall call | Calls(messages, call) :: call.id in cards)
    && (forall id, output, isError | ToolResult(id, output, isError) in messages && id in cards ::
          cards[id].text == output && cards[id].status == if isError then Failed else Succeeded)
    && (forall id | id in cards && (forall output, isError :: ToolResult(id, output, isError) !in messages) ::
          cards[id].text == "" && cards[id].status == Running)
  }

  lemma CallsAreEnsured(messages: seq<Message>, call: ToolCall)
    ensures Ensure(call) in OpsAll(messages) <==> Calls(messages, call)
  {
    FlatMapHas(OpsOf, messages, Ensure(call));
    forall m | m in messages ensures Ensure(call) in OpsOf(m) <==> m.Assistant? && Call(call) in m.blocks {
      if m.Assistant? {
        FlatMapHas(CallOf, m.blocks, Ensure(call));
        forall b | b in m.blocks ensures Ensure(call) in CallOf(b) <==> b == Call(call) {
        }
      }
    }
  }

  lemma ResultsAreFinished(messages: seq<Message>, id: string, result: Result)
    ensures Finish(id, result) in OpsAll(messages) <==> ToolResult(id, result.text, result.isError) in messages
  {
    FlatMapHas(OpsOf, messages, Finish(id, result));
    forall m | m in messages
      ensures Finish(id, result) in OpsOf(m) <==> m == ToolResult(id, result.text, result.isError)
    {
      if m.Assistant? {
        FlatMapHas(CallOf, m.blocks, Finish(id, result));
      }
    }
  }

  /** The cards that in-order rendering leaves. */
  lemma CardsOfMessages(messages: seq<Message>)
    requires NoClash(OpsAll(messages))
    ensures CardsTell(messages, Run(EMPTY, OpsAll(messages)).cards)
  {
    var r := Run(EMPTY, OpsAll(messages));
    RunDescribes(OpsAll(messages));
    forall call ensures Ensure(call) in Set(OpsAll(messages)) <==> Calls(messages, call) {
      CallsAreEnsured(messages, call);
    }
    forall id, result
      ensures Finish(id, result) in Set(OpsAll(messages)) <==> ToolResult(id, result.text, result.isError) in messages
    {
      ResultsAreFinished(messages, id, result);
    }
    DescribedTells(messages, r, Set(OpsAll(messages)));
  }

  lemma DescribedTells(messages: seq<Message>, r: Registry, ops: set<CardOp>)
    requires Describes(r, ops) && forall call :: Ensure(call) in ops <==> Calls(messages, call)
    requires forall id, result :: Finish(id, result) in ops <==> ToolResult(id, result.text, result.isError) in messages
    ensures CardsTell(messages, r.cards)
  {
    forall id, output, isError | ToolResult(id, output, isError) in messages && id in r.cards
      ensures r.cards[id].text == output && r.cards[id].status == if isError then Failed else Succeeded
    {
      assert Finish(id, Result(output, isError)) in ops;
    }
    forall id | id in r.cards && forall output, isError :: ToolResult(id, output, isError) !in messages
      ensures r.cards[id].text == "" && r.cards[id].status == Running
    {
      forall result ensures Finish(id, result) !in ops {
        assert ToolResult(id, result.text, result.isError) !in messages;
      }
    }
  }

  // ---- the item store and the batch that builds a chunk

  datatype Item = Item(id: nat, content: Message)
  datatype Batch = Batch(prepend: bool, items: seq<Item>)

  function Contents(items: seq<Item>): seq<Message> {
    seq(|items|, i requires 0 <= i < |items| => items[i].content)
  }

  /** Ids are handed out once each. */
  predicate FreshIds(items: seq<Item>, low: nat, high: nat) {
    && (forall i | 0 <= i < |items| :: low <= items[i].id < high)
    && (forall i, j | 0 <= i < j < |items| :: items[i].id != items[j].id)
  }

  class Transcript {
    var items: seq<Item>
    var nextId: nat
    var batch: Option<Batch>
    const cards: ToolCardRegistry

    constructor (cards: ToolCardRegistry)
      ensures items == [] && batch == None && nextId == 1 && this.cards == cards
    {
      items, batch, nextId, this.cards := [], None, 1, cards;
    }

    /** Into the open batch, or straight into the store; a direction change inside a batch throws. */
    method Insert(added: seq<Item>, prepend: bool) returns (ok: bool)
      modifies this`items, this`batch
      ensures ok == (old(batch).Some? ==> old(batch).value.prepend == prepend)
      ensures if old(batch).None? then
                batch == None && items == if prepend then added + old(items) else old(items) + added
              else
                && items == old(items)
                && batch == if !ok then old(batch)
                            else Some(Batch(prepend, if prepend then added + old(batch).value.items
                                                     else old(batch).value.items + added))
    {
      ok := true;
      match batch
      case Some(b) =>
        if prepend != b.prepend {
          ok := false;
        } else if prepend {
          batch := Some(b.(items := added + b.items));
        } else {
          batch := Some(b.(items := b.items + added));
        }
      case None =>
        if |added| > 0 {
          items := if prepend then added + items else items + added;
        } else {
          assert added + items == items == items + added;
        }
    }

    method EnsureCalls(blocks: seq<Block>)
      modifies cards
      ensures cards.View() == Run(old(cards.View()), FlatMap(CallOf, blocks))
    {
      for i := 0 to |blocks|
        invariant cards.View() == Run(old(cards.View()), FlatMap(CallOf, blocks[..i]))
      {
        PrefixStep(blocks, i);
        FlatMapAppend(CallOf, blocks[..i], blocks[i]);
        FoldConcat(Step, old(cards.View()), FlatMap(CallOf, blocks[..i]), CallOf(blocks[i]));
        if blocks[i].Call? {
          FoldOne(Step, cards.View(), Ensure(blocks[i].call));
          cards.EnsureStore(blocks[i].call);
        }
      }
      assert blocks[..|blocks|] == blocks;
    }

    /** One message inside an open batch of the same direction. */
    method RenderInBatch(message: Message, prepend: bool)
      requires batch.Some? && batch.value.prepend == prepend
      modifies this`items, this`batch, this`nextId, cards
      ensures items == old(items) && batch.Some? && batch.value.prepend == prepend
      ensures cards.View() == Run(old(cards.View()), OpsOf(message))
      ensures nextId == old(nextId) + |Shown(message)|
      ensures batch.value.items == (
                var added := if Shown(message) == [] then [] else [Item(old(nextId), message)];
                if prepend then added + old(batch).value.items else old(batch).value.items + added)
    {
      match message {
        case ToolResult(callId, output, isError) =>
          FoldOne(Step, cards.View(), Finish(callId, Result(output, isError)));
          var _ := cards.FinishResult(callId, output, isError);
        case Assistant(blocks) =>
          EnsureCalls(blocks);
        case _ =>
      }
      if Shown(message) != [] {
        var item := Item(nextId, message);
        nextId := nextId + 1;
        var _ := Insert([item], prepend);
      }
    }

    /** The same, told from the start of the batch. */
    method RenderNext(message: Message, prepend: bool, ghost done: seq<Message>, ghost low: nat, ghost start: Registry)
      requires batch.Some? && batch.value.prepend == prepend
      requires Built(done, prepend, batch.value.items, low, nextId) && cards.View() == Run(start, OpsAll(done))
      modifies this`items, this`batch, this`nextId, cards
      ensures items == old(items) && batch.Some? && batch.value.prepend == prepend
      ensures Built(done + [message], prepend, batch.value.items, low, nextId)
      ensures cards.View() == Run(start, OpsAll(done + [message]))
    {
      ghost var items0, id0 := batch.value.items, nextId;
      ghost var next := if Shown(message) == [] then [] else [Item(id0, message)];
      RenderInBatch(message, prepend);
      assert nextId == id0 + |next|;
      assert batch.value.items == if prepend then next + items0 else items0 + next;
      BuiltStep(done, message, prepend, items0, next, low, id0);
      RunOpsAppend(start, done, message);
    }

    /** The work done inside one batch: every message in turn. */
    method FillBatch(messages: seq<Message>, prepend: bool)
      requires batch == Some(Batch(prepend, []))
      modifies this`items, this`batch, this`nextId, cards
      ensures items == old(items) && batch.Some?
      ensures Built(messages, prepend, batch.value.items, old(nextId), nextId)
      ensures cards.View() == Run(old(cards.View()), OpsAll(messages))
    {
      for i := 0 to |messages|
        invariant items == old(items) && batch.Some? && batch.value.prepend == prepend
        invariant Built(messages[..i], prepend, batch.value.items, old(nextId), nextId)
        invariant cards.View() == Run(old(cards.View()), OpsAll(messages[..i]))
      {
        RenderNext(messages[i], prepend, messages[..i], old(nextId), old(cards.View()));
        PrefixStep(messages, i);
      }
      assert messages[..|messages|] == messages;
    }

    /** A whole chunk in one publication: in order when appended, back to front when prepended. */
    method RenderChunk(chunk: seq<Message>, prepend: bool) returns (ghost added: seq<Item>)
      requires batch.None?
      modifies this, cards
      ensures batch.None? && nextId >= old(nextId) && FreshIds(added, old(nextId), nextId)
      ensures Contents(added) == ShownAll(chunk) && Sifted(chunk, Contents(added))
      ensures items == if prepend then added + old(items) else old(items) + added
      ensures cards.View() == Run(old(cards.View()), OpsAll(if prepend then Reverse(chunk) else chunk))
    {
      batch := Some(Batch(prepend, []));
      FillBatch(if prepend then Reverse(chunk) else chunk, prepend);
      GrowIsOrdered(if prepend then Reverse(chunk) else chunk, prepend);
      ReverseTwice(chunk);
      added := batch.value.items;
      ghost var at := ShownIsSifted(chunk);
      var built := batch.value.items;
      batch := None;
      var _ := Insert(built, prepend);
    }
  }

  /** What a batch holds after some messages, each pushed to the end or unshifted to the front. */
  function Grow(messages: seq<Message>, prepend: bool): seq<Message> {
    if messages == [] then []
    else
      var before, added := Grow(messages[..|messages| - 1], prepend), Shown(messages[|messages| - 1]);
      if prepend then added + before else before + added
  }

  lemma {:induction false} GrowIsOrdered(messages: seq<Message>, prepend: bool)
    ensures Grow(messages, prepend) == ShownAll(if prepend then Reverse(messages) else messages)
  {
    if messages != [] {
      var init, last := messages[..|messages| - 1], messages[|messages| - 1];
      GrowIsOrdered(init, prepend);
      if prepend {
        FlatMapConcat(Shown, [last], Reverse(init));
        FlatMapOne(Shown, last);
      }
    }
  }

  lemma GrowAppend(messages: seq<Message>, message: Message, prepend: bool)
    ensures Grow(messages + [message], prepend)
         == if prepend then Shown(message) + Grow(messages, prepend) else Grow(messages, prepend) + Shown(message)
  {
    assert (messages + [message])[..|messages|] == messages;
  }

  predicate Built(messages: seq<Message>, prepend: bool, items: seq<Item>, low: nat, high: nat) {
    low <= high && FreshIds(items, low, high) && Contents(items) == Grow(messages, prepend)
  }

  lemma ContentsConcat(a: seq<Item>, b: seq<Item>)
    ensures Contents(a + b) == Contents(a) + Contents(b)
  {
  }

  lemma FreshConcat(items: seq<Item>, added: seq<Item>, low: nat, middle: nat, high: nat)
    requires low <= middle <= high && FreshIds(items, low, middle) && FreshIds(added, middle, high)
    ensures FreshIds(items + added, low, high) && FreshIds(added + items, low, high)
  {
  }

  lemma BuiltStep(messages: seq<Message>, message: Message, prepend: bool, items: seq<Item>, added: seq<Item>,
                  low: nat, high: nat)
    requires Built(messages, prepend, items, low, high)
    requires FreshIds(added, high, high + |added|) && Contents(added) == Shown(message)
    ensures Built(messages + [message], prepend, if prepend then added + items else items + added, low, high + |added|)
  {
    FreshConcat(items, added, low, high, high + |added|);
    GrowAppend(messages, message, prepend);
    if prepend {
      ContentsConcat(added, items);
    } else {
      ContentsConcat(items, added);
    }
  }
}
