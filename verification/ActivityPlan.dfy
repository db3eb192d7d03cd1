/**
 The render plan as the program builds it: one list of parts per item, an activity stack listed where it
 starts and filled on while later blocks and items follow. Stacks are shared objects; here they are
 numbered, and the list of parts holds their numbers.
 */
module ActivityPlan {
  import opened Prelude
  import opened TranscriptActivity

  datatype StackKey = StackKey(item: string, position: nat)

  datatype Stack = Stack(key: StackKey, blocks: seq<Block>)

  datatype Part = StackPart(number: nat) | TextPart(position: nat, block: Block)

  /** A part as the group it shows. */
  function Shows(stacks: seq<Stack>, part: Part): Group {
    match part
    case StackPart(number) => Stacked(if number < |stacks| then stacks[number].blocks else [])
    case TextPart(_, block) => Spoken(block)
  }

  function AllShow(stacks: seq<Stack>, parts: seq<Part>): (groups: seq<Group>)
    ensures |groups| == |parts|
  {
    if parts == [] then []
    else AllShow(stacks, parts[..|parts| - 1]) + [Shows(stacks, parts[|parts| - 1])]
  }

  predicate Below(parts: seq<Part>, n: nat) {
    forall k | 0 <= k < |parts| && parts[k].StackPart? :: parts[k].number < n
  }

  lemma {:induction false} ShowUnchanged(stacks: seq<Stack>, more: seq<Stack>, parts: seq<Part>, n: nat)
    requires Below(parts, n) && n <= |stacks| && n <= |more| && stacks[..n] == more[..n]
    ensures AllShow(stacks, parts) == AllShow(more, parts)
  {
    if parts != [] {
      ShowUnchanged(stacks, more, parts[..|parts| - 1], n);
      assert forall k | 0 <= k < n :: stacks[k] == stacks[..n][k] && more[k] == more[..n][k];
    }
  }

  lemma ShowAppend(stacks: seq<Stack>, parts: seq<Part>, part: Part)
    ensures AllShow(stacks, parts + [part]) == AllShow(stacks, parts) + [Shows(stacks, part)]
  {
    assert (parts + [part])[..|parts|] == parts;
  }

  lemma {:induction false} ShowConcat(stacks: seq<Stack>, a: seq<Part>, b: seq<Part>)
    ensures AllShow(stacks, a + b) == AllShow(stacks, a) + AllShow(stacks, b)
  {
    if b == [] {
      assert a + b == a;
    } else {
      ShowConcat(stacks, a, b[..|b| - 1]);
      assert a + b == a + b[..|b| - 1] + [b[|b| - 1]];
      ShowAppend(stacks, a + b[..|b| - 1], b[|b| - 1]);
    }
  }

  /** The parts so far show the grouping so far, and the pending stack is the last of them. */
  ghost predicate Plan(stacks: seq<Stack>, parts: seq<Part>, pending: Option<nat>, g: Grouping) {
    && AllShow(stacks, parts) == g.groups && (pending.Some? <==> g.open)
    && Below(parts, |stacks|)
    && (pending.Some? ==>
          && parts != [] && |stacks| == pending.value + 1
          && parts[|parts| - 1] == StackPart(pending.value) && Below(parts[..|parts| - 1], pending.value))
  }

  lemma PlanAct(stacks: seq<Stack>, parts: seq<Part>, pending: Option<nat>, g: Grouping, block: Block, key: StackKey)
    requires Plan(stacks, parts, pending, g)
    ensures pending.Some? ==>
              var last := stacks[pending.value];
              Plan(stacks[pending.value := last.(blocks := last.blocks + [block])], parts, pending, Add(g, Act(block)))
    ensures pending.None? ==>
              Plan(stacks + [Stack(key, [block])], parts + [StackPart(|stacks|)], Some(|stacks|), Add(g, Act(block)))
  {
    if pending.Some? {
      var n, init := pending.value, parts[..|parts| - 1];
      var more := stacks[n := stacks[n].(blocks := stacks[n].blocks + [block])];
      ShowUnchanged(stacks, more, init, n);
    } else {
      var more := stacks + [Stack(key, [block])];
      ShowUnchanged(stacks, more, parts, |stacks|);
      ShowAppend(more, parts, StackPart(|stacks|));
      assert (parts + [StackPart(|stacks|)])[..|parts|] == parts;
    }
  }

  lemma PlanWords(stacks: seq<Stack>, parts: seq<Part>, pending: Option<nat>, g: Grouping, block: Block, position: nat)
    requires Plan(stacks, parts, pending, g)
    ensures Plan(stacks, parts + [TextPart(position, block)], None, Add(g, Words(block)))
  {
    ShowAppend(stacks, parts, TextPart(position, block));
  }

  // ---- the texts of a message, by position

  function TextsOf(blocks: seq<Block>): seq<Block> {
    if blocks == [] then []
    else TextsOf(blocks[..|blocks| - 1]) + (if blocks[|blocks| - 1].Text? then [blocks[|blocks| - 1]] else [])
  }

  /** The texts that show, each with its position among all texts of the message, empty ones included. */
  function TextPartsOf(blocks: seq<Block>): seq<Part> {
    if blocks == [] then []
    else
      var init, last := blocks[..|blocks| - 1], blocks[|blocks| - 1];
      TextPartsOf(init) + (if last.Text? && last.text != "" then [TextPart(|TextsOf(init)|, last)] else [])
  }

  function OnlyTexts(parts: seq<Part>): seq<Part> {
    if parts == [] then []
    else
      OnlyTexts(parts[..|parts| - 1]) + (if parts[|parts| - 1].TextPart? then [parts[|parts| - 1]] else [])
  }

  /** A text part names its block: the one text of the message at that position. */
  lemma {:induction false} TextPartExactly(blocks: seq<Block>, position: nat, block: Block)
    ensures TextPart(position, block) in TextPartsOf(blocks)
       <==> position < |TextsOf(blocks)| && TextsOf(blocks)[position] == block && block.Text? && block.text != ""
  {
    if blocks != [] {
      TextPartExactly(blocks[..|blocks| - 1], position, block);
    }
  }

  /** Those are all the text blocks, the empty ones included, as often as they occur, and no other blocks. */
  lemma {:induction false} TextsAreAll(blocks: seq<Block>, block: Block)
    ensures multiset(TextsOf(blocks))[block] == if block.Text? then multiset(blocks)[block] else 0
  {
    if blocks != [] {
      TextsAreAll(blocks[..|blocks| - 1], block);
      InitAndLast(blocks);
    }
  }

  /** The texts of these blocks are drawn, and counted. */
  predicate TextsDrawn(blocks: seq<Block>, visible: seq<Part>, texts: nat) {
    OnlyTexts(visible) == TextPartsOf(blocks) && texts == |TextsOf(blocks)|
  }

  lemma TextsDrawnMore(blocks: seq<Block>, block: Block, visible: seq<Part>, texts: nat)
    requires TextsDrawn(blocks, visible, texts)
    ensures !block.Text? ==> TextsDrawn(blocks + [block], visible, texts)
    ensures block.Text? && block.text == "" ==> TextsDrawn(blocks + [block], visible, texts + 1)
    ensures block.Text? && block.text != "" ==>
              TextsDrawn(blocks + [block], visible + [TextPart(texts, block)], texts + 1)
    ensures forall number :: OnlyTexts(visible + [StackPart(number)]) == OnlyTexts(visible)
  {
    assert (blocks + [block])[..|blocks|] == blocks;
    forall part: Part ensures (visible + [part])[..|visible|] == visible {
    }
    NothingAdded(TextPartsOf(blocks));
    NothingAdded(TextsOf(blocks));
    NothingAdded(OnlyTexts(visible));
  }

  // ---- the program

  ghost predicate DistinctKeys(stacks: seq<Stack>) {
    forall j, k | 0 <= j < k < |stacks| :: stacks[j].key != stacks[k].key
  }

  /** The stacks there were keep their keys; the `added` new ones are named after the item and numbered from 0. */
  ghost predicate KeysGrow(stacks: seq<Stack>, more: seq<Stack>, item: string, added: nat) {
    && |more| == |stacks| + added && DistinctKeys(more)
    && (forall k | 0 <= k < |stacks| :: more[k].key == stacks[k].key)
    && (forall k | |stacks| <= k < |more| :: more[k].key == StackKey(item, k - |stacks|))
  }

  datatype Drawn = Drawn(stacks: seq<Stack>, visible: seq<Part>, pending: Option<nat>, activities: nat, texts: nat)

  /** A block of activity: on the pending stack, or on a new one. */
  method DrawActivity(key: StackKey, block: Block, before: seq<Stack>, pending: Option<nat>,
                      ghost parts: seq<Part>, ghost g: Grouping)
    returns (stacks: seq<Stack>, number: nat)
    requires Plan(before, parts, pending, g) && IsActivity(block)
    ensures pending.Some? ==> |stacks| == |before| && Plan(stacks, parts, Some(number), Add(g, Act(block)))
    ensures pending.None? ==> number == |before| && |stacks| == |before| + 1 && stacks[number].key == key
                              && Plan(stacks, parts + [StackPart(number)], Some(number), Add(g, Act(block)))
    ensures forall k | 0 <= k < |before| :: stacks[k].key == before[k].key
  {
    PlanAct(before, parts, pending, g, block, key);
    stacks := before;
    if pending.None? {
      number := |before|;
      stacks := before + [Stack(key, [])];
    } else {
      number := pending.value;
    }
    var blocks := stacks[number].blocks + [block];
    stacks := stacks[number := stacks[number].(blocks := blocks)];
    assert pending.None? ==> blocks == [block] && stacks == before + [Stack(key, [block])];
  }

  lemma KeysStay(start: seq<Stack>, before: seq<Stack>, after: seq<Stack>, item: string, added: nat)
    requires KeysGrow(start, before, item, added) && forall k | 0 <= k < |start| :: start[k].key.item != item
    requires |before| <= |after| && forall k | 0 <= k < |before| :: after[k].key == before[k].key
    ensures |after| == |before| ==> KeysGrow(start, after, item, added)
    ensures |after| == |before| + 1 && after[|before|].key == StackKey(item, added)
        ==> KeysGrow(start, after, item, added + 1)
  {
  }

  /** A block of activity of a message: a new stack is listed where it starts. */
  method DrawStep(item: string, block: Block, before: Drawn, ghost parts: seq<Part>, ghost g: Grouping,
                  ghost start: seq<Stack>)
    returns (d: Drawn)
    requires IsActivity(block) && Plan(before.stacks, parts + before.visible, before.pending, g)
    requires KeysGrow(start, before.stacks, item, before.activities)
    requires forall k | 0 <= k < |start| :: start[k].key.item != item
    ensures Plan(d.stacks, parts + d.visible, d.pending, Add(g, Act(block)))
    ensures KeysGrow(start, d.stacks, item, d.activities) && d.texts == before.texts
    ensures d.visible == before.visible || exists number :: d.visible == before.visible + [StackPart(number)]
  {
    d := before;
    var stacks, number := DrawActivity(StackKey(item, d.activities), block, d.stacks, d.pending, parts + d.visible, g);
    KeysStay(start, before.stacks, stacks, item, before.activities);
    if d.pending.None? {
      Assoc(parts, d.visible, [StackPart(number)]);
      d := d.(visible := d.visible + [StackPart(number)], activities := d.activities + 1);
    }
    d := d.(stacks := stacks, pending := Some(number));
  }

  /** A text of a message: it counts, and unless it is empty it ends the run of activity and is listed. */
  method DrawText(block: Block, before: Drawn, ghost parts: seq<Part>, ghost g: Grouping)
    returns (d: Drawn)
    requires block.Text? && Plan(before.stacks, parts + before.visible, before.pending, g)
    ensures Plan(d.stacks, parts + d.visible, d.pending, Fold(Add, g, SignalsOfBlock(block)))
    ensures d.stacks == before.stacks && d.activities == before.activities && d.texts == before.texts + 1
    ensures d.visible == if block.text == "" then before.visible
                         else before.visible + [TextPart(before.texts, block)]
  {
    d := before;
    var position := d.texts;
    d := d.(texts := d.texts + 1);
    if block.text != "" {
      PlanWords(d.stacks, parts + d.visible, d.pending, g, block, position);
      FoldOne(Add, g, Words(block));
      Assoc(parts, d.visible, [TextPart(position, block)]);
      d := d.(pending := None, visible := d.visible + [TextPart(position, block)]);
    }
  }

  /** One block of a message. */
  method DrawBlock(item: string, block: Block, before: Drawn, ghost parts: seq<Part>, ghost g: Grouping,
                   ghost start: seq<Stack>, ghost drawn: seq<Block>)
    returns (d: Drawn)
    requires Plan(before.stacks, parts + before.visible, before.pending, g)
    requires KeysGrow(start, before.stacks, item, before.activities)
    requires forall k | 0 <= k < |start| :: start[k].key.item != item
    requires TextsDrawn(drawn, before.visible, before.texts)
    ensures Plan(d.stacks, parts + d.visible, d.pending, Fold(Add, g, SignalsOfBlock(block)))
    ensures KeysGrow(start, d.stacks, item, d.activities)
    ensures TextsDrawn(drawn + [block], d.visible, d.texts)
  {
    d := before;
    TextsDrawnMore(drawn, block, before.visible, before.texts);
    if IsActivity(block) {
      FoldOne(Add, g, Act(block));
      d := DrawStep(item, block, before, parts, g, start);
    } else if block.Text? {
      d := DrawText(block, before, parts, g);
    }
  }

  /** The blocks of a message, and the end of the run of activity if it failed. */
  method DrawMessage(item: string, message: Message, stacks: seq<Stack>, pending: Option<nat>,
                     ghost parts: seq<Part>, ghost g: Grouping)
    returns (d: Drawn)
    requires Plan(stacks, parts, pending, g) && DistinctKeys(stacks)
    requires forall k | 0 <= k < |stacks| :: stacks[k].key.item != item
    ensures Plan(d.stacks, parts + d.visible, d.pending, Fold(Add, g, SignalsOfMessage(message)))
    ensures KeysGrow(stacks, d.stacks, item, d.activities)
    ensures OnlyTexts(d.visible) == TextPartsOf(message.blocks)
  {
    d := Drawn(stacks, [], pending, 0, 0);
    assert parts + [] == parts;
    for i := 0 to |message.blocks|
      invariant Plan(d.stacks, parts + d.visible, d.pending, Fold(Add, g, FlatMap(SignalsOfBlock, message.blocks[..i])))
      invariant KeysGrow(stacks, d.stacks, item, d.activities)
      invariant TextsDrawn(message.blocks[..i], d.visible, d.texts)
    {
      PrefixStep(message.blocks, i);
      var block := message.blocks[i];
      ghost var signals := FlatMap(SignalsOfBlock, message.blocks[..i]);
      FlatMapAppend(SignalsOfBlock, message.blocks[..i], block);
      FoldConcat(Add, g, signals, SignalsOfBlock(block));
      d := DrawBlock(item, block, d, parts, Fold(Add, g, signals), stacks, message.blocks[..i]);
    }
    assert message.blocks[..|message.blocks|] == message.blocks;
    ghost var signals := FlatMap(SignalsOfBlock, message.blocks);
    FoldConcat(Add, g, signals, if message.error then [Break] else []);
    FoldOne(Add, Fold(Add, g, signals), Break);
    if message.error {
      d := d.(pending := None);
    }
  }

  function PartsOf(blocksById: map<string, seq<Part>>): Item -> seq<Part> {
    (item: Item) => if item.id in blocksById then blocksById[item.id] else []
  }

  /** The parts in the order they are rendered. */
  function Rendered(items: seq<Item>, blocksById: map<string, seq<Part>>): seq<Part> {
    FlatMap(PartsOf(blocksById), items)
  }

  predicate DistinctIds(items: seq<Item>) {
    forall i, j | 0 <= i < j < |items| :: items[i].id != items[j].id
  }

  predicate Passed(items: seq<Item>, id: string) {
    exists item | item in items :: item.id == id
  }

  lemma {:induction false} RenderedUnchanged(items: seq<Item>, blocksById: map<string, seq<Part>>, id: string,
                                             parts: seq<Part>)
    requires !Passed(items, id)
    ensures Rendered(items, blocksById[id := parts]) == Rendered(items, blocksById)
  {
    if items != [] {
      assert items == items[..|items| - 1] + [items[|items| - 1]];
      RenderedUnchanged(items[..|items| - 1], blocksById, id, parts);
    }
  }

  lemma GroupedMore(items: seq<Item>, item: Item, messages: map<string, Message>)
    ensures Grouped(Signals(items + [item], messages))
         == Fold(Add, Grouped(Signals(items, messages)), SignalsOfItem(messages)(item))
  {
    FlatMapAppend(SignalsOfItem(messages), items, item);
    FoldConcat(Add, NOTHING, Signals(items, messages), SignalsOfItem(messages)(item));
  }

  lemma RenderedMore(items: seq<Item>, item: Item, blocksById: map<string, seq<Part>>)
    ensures Rendered(items + [item], blocksById)
         == Rendered(items, blocksById) + (if item.id in blocksById then blocksById[item.id] else [])
    ensures item.id !in blocksById ==> Rendered(items + [item], blocksById) == Rendered(items, blocksById)
  {
    FlatMapAppend(PartsOf(blocksById), items, item);
  }

  /** The texts of an item's message are listed under it; without a message nothing is. */
  predicate TextsListed(item: Item, messages: map<string, Message>, blocksById: map<string, seq<Part>>) {
    if IsTurnBoundary(item) || item.id !in messages then item.id !in blocksById
    else item.id in blocksById && OnlyTexts(blocksById[item.id]) == TextPartsOf(messages[item.id].blocks)
  }

  /** Lists there are only of items drawn, and they hold what they should. */
  ghost predicate Listed(items: seq<Item>, messages: map<string, Message>, blocksById: map<string, seq<Part>>) {
    && (forall id | id in blocksById :: Passed(items, id))
    && (forall item | item in items :: TextsListed(item, messages, blocksById))
  }

  lemma ListedMore(items: seq<Item>, item: Item, messages: map<string, Message>,
                   before: map<string, seq<Part>>, after: map<string, seq<Part>>)
    requires Listed(items, messages, before) && !Passed(items, item.id)
    requires forall id | id != item.id :: (id in after <==> id in before) && (id in after ==> after[id] == before[id])
    requires TextsListed(item, messages, after)
    ensures Listed(items + [item], messages, after)
  {
    assert (items + [item])[|items|] == item;
    forall id | id in after ensures Passed(items + [item], id) {
      if id != item.id {
        assert Passed(items, id);
      }
    }
    forall other | other in items ensures TextsListed(other, messages, after) {
      assert Passed(items, other.id);
      assert TextsListed(other, messages, before);
    }
  }

  /** Stacks are named after items drawn, and no two alike. */
  ghost predicate KeysPassed(items: seq<Item>, stacks: seq<Stack>) {
    DistinctKeys(stacks) && forall k | 0 <= k < |stacks| :: Passed(items, stacks[k].key.item)
  }

  lemma KeysPassedMore(items: seq<Item>, item: Item, before: seq<Stack>, after: seq<Stack>, added: nat)
    requires KeysPassed(items, before) && KeysGrow(before, after, item.id, added)
    ensures KeysPassed(items + [item], after)
  {
    assert (items + [item])[|items|] == item;
    forall k | 0 <= k < |after| ensures Passed(items + [item], after[k].key.item) {
      if k < |before| {
        assert Passed(items, before[k].key.item);
      }
    }
  }

  /** Everything drawn so far: where the plan stands after some of the items. */
  ghost predicate Standing(items: seq<Item>, messages: map<string, Message>, blocksById: map<string, seq<Part>>,
                           stacks: seq<Stack>, pending: Option<nat>)
  {
    && Listed(items, messages, blocksById) && KeysPassed(items, stacks)
    && Plan(stacks, Rendered(items, blocksById), pending, Grouped(Signals(items, messages)))
  }

  method DrawItem(item: Item, messages: map<string, Message>, blocksBefore: map<string, seq<Part>>,
                  stacksBefore: seq<Stack>, pendingBefore: Option<nat>, ghost items: seq<Item>)
    returns (blocksById: map<string, seq<Part>>, stacks: seq<Stack>, pending: Option<nat>)
    requires Standing(items, messages, blocksBefore, stacksBefore, pendingBefore) && !Passed(items, item.id)
    ensures Standing(items + [item], messages, blocksById, stacks, pending)
  {
    blocksById, stacks, pending := blocksBefore, stacksBefore, pendingBefore;
    ghost var parts, g := Rendered(items, blocksById), Grouped(Signals(items, messages));
    ghost var added := 0;
    GroupedMore(items, item, messages);
    RenderedMore(items, item, blocksById);
    if IsTurnBoundary(item) {
      FoldOne(Add, g, Break);
      pending := None;
    } else if item.id in messages {
      forall k | 0 <= k < |stacks| ensures stacks[k].key.item != item.id {
        assert Passed(items, stacks[k].key.item);
      }
      var d := DrawMessage(item.id, messages[item.id], stacks, pending, parts, g);
      RenderedUnchanged(items, blocksById, item.id, d.visible);
      blocksById := blocksById[item.id := d.visible];
      RenderedMore(items, item, blocksById);
      stacks, pending, added := d.stacks, d.pending, d.activities;
    }
    ListedMore(items, item, messages, blocksBefore, blocksById);
    KeysPassedMore(items, item, stacksBefore, stacks, added);
  }

  method InterleaveTranscriptActivity(items: seq<Item>, messages: map<string, Message>)
    returns (blocksById: map<string, seq<Part>>, stacks: seq<Stack>, current: Option<StackKey>)
    requires DistinctIds(items)
    ensures AllShow(stacks, Rendered(items, blocksById)) == Grouped(Signals(items, messages)).groups
    ensures DistinctKeys(stacks)
    ensures forall item | item in items :: TextsListed(item, messages, blocksById)
    ensures current.Some? <==> Grouped(Signals(items, messages)).open
    ensures current.Some? ==> stacks != [] && current.value == stacks[|stacks| - 1].key
  {
    blocksById, stacks := map[], [];
    var pending: Option<nat> := None;
    for i := 0 to |items|
      invariant Standing(items[..i], messages, blocksById, stacks, pending)
    {
      PrefixStep(items, i);
      blocksById, stacks, pending := DrawItem(items[i], messages, blocksById, stacks, pending, items[..i]);
    }
    assert items[..|items|] == items;
    current := if pending.Some? then Some(stacks[pending.value].key) else None;
  }
}
