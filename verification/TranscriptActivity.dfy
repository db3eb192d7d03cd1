/** Consecutive activity of a transcript gathered into stacks, between what the reader sees as text. */
module TranscriptActivity {
  import opened Prelude

  datatype Kind = User | Compaction | OtherKind

  datatype Item = Item(id: string, kind: Kind)

  datatype Block = Thinking(content: string) | ToolCall(call: string) | Text(text: string) | OtherBlock

  datatype Message = Message(blocks: seq<Block>, error: bool)

  predicate IsTurnBoundary(item: Item) {
    item.kind.User? || item.kind.Compaction?
  }

  predicate IsActivity(block: Block) {
    block.Thinking? || block.ToolCall?
  }

  // ---- the transcript as a stream, and its grouping

  /** What matters for the grouping: activity, visible text, and breaks. */
  datatype Signal = Act(block: Block) | Words(block: Block) | Break

  function SignalsOfBlock(block: Block): seq<Signal> {
    if IsActivity(block) then [Act(block)]
    else if block.Text? && block.text != "" then [Words(block)]
    else []
  }

  function SignalsOfMessage(message: Message): seq<Signal> {
    FlatMap(SignalsOfBlock, message.blocks) + (if message.error then [Break] else [])
  }

  function SignalsOfItem(messages: map<string, Message>): Item -> seq<Signal> {
    item =>
      if IsTurnBoundary(item) then [Break]
      else if item.id in messages then SignalsOfMessage(messages[item.id]) else []
  }

  function Signals(items: seq<Item>, messages: map<string, Message>): seq<Signal> {
    FlatMap(SignalsOfItem(messages), items)
  }

  datatype Group = Stacked(blocks: seq<Block>) | Spoken(block: Block)

  /** The groups so far; whether the next activity joins the last of them. */
  datatype Grouping = Grouping(groups: seq<Group>, open: bool)

  function Add(g: Grouping, signal: Signal): Grouping {
    match signal
    case Act(block) =>
      if g.open && g.groups != [] && g.groups[|g.groups| - 1].Stacked? then
        var last := g.groups[|g.groups| - 1];
        g.(groups := g.groups[..|g.groups| - 1] + [Stacked(last.blocks + [block])])
      else Grouping(g.groups + [Stacked([block])], true)
    case Words(block) => Grouping(g.groups + [Spoken(block)], false)
    case Break => g.(open := false)
  }

  const NOTHING: Grouping := Grouping([], false)

  function Grouped(signals: seq<Signal>): Grouping {
    Fold(Add, NOTHING, signals)
  }

  // ---- what the grouping keeps

  function BlocksOf(group: Group): seq<Block> {
    match group
    case Stacked(blocks) => blocks
    case Spoken(block) => [block]
  }

  function ShownOf(signal: Signal): seq<Block> {
    if signal.Break? then [] else [signal.block]
  }

  predicate Proper(g: Grouping) {
    && (g.open ==> g.groups != [] && g.groups[|g.groups| - 1].Stacked?)
    && forall k | 0 <= k < |g.groups| && g.groups[k].Stacked? :: g.groups[k].blocks != []
  }

  lemma AddKeepsProper(g: Grouping, signal: Signal)
    requires Proper(g)
    ensures Proper(Add(g, signal))
  {
  }

  /** Growing the last group by a block shows that block at the end. */
  lemma LastShows(init: seq<Group>, blocks: seq<Block>, block: Block)
    ensures FlatMap(BlocksOf, init + [Stacked(blocks + [block])])
         == FlatMap(BlocksOf, init + [Stacked(blocks)]) + [block]
  {
    FlatMapAppend(BlocksOf, init, Stacked(blocks));
    FlatMapAppend(BlocksOf, init, Stacked(blocks + [block]));
    Assoc(FlatMap(BlocksOf, init), blocks, [block]);
  }

  lemma AddShows(g: Grouping, signal: Signal)
    requires Proper(g)
    ensures FlatMap(BlocksOf, Add(g, signal).groups) == FlatMap(BlocksOf, g.groups) + ShownOf(signal)
  {
    var after := Add(g, signal).groups;
    if signal.Act? && g.open {
      var init, last := g.groups[..|g.groups| - 1], g.groups[|g.groups| - 1];
      assert g.groups == init + [last];
      LastShows(init, last.blocks, signal.block);
    } else if !signal.Break? {
      FlatMapAppend(BlocksOf, g.groups, after[|g.groups|]);
    }
  }

  /** Expanding the groups gives exactly the shown blocks, in their order. */
  lemma {:induction false} GroupingShowsAll(signals: seq<Signal>)
    ensures Proper(Grouped(signals))
    ensures FlatMap(BlocksOf, Grouped(signals).groups) == FlatMap(ShownOf, signals)
  {
    if signals != [] {
      GroupingShowsAll(signals[..|signals| - 1]);
      AddKeepsProper(Grouped(signals[..|signals| - 1]), signals[|signals| - 1]);
      AddShows(Grouped(signals[..|signals| - 1]), signals[|signals| - 1]);
    }
  }

  /** The number of the group that takes signal i. */
  function GroupNo(signals: seq<Signal>, i: nat): int
    requires i < |signals|
  {
    |Grouped(signals[..i + 1]).groups| - 1
  }

  predicate AllActs(signals: seq<Signal>, i: nat, j: nat)
    requires i <= j < |signals|
  {
    forall k | i <= k <= j :: signals[k].Act?
  }

  /** The group an activity block goes to is open until something else comes. */
  lemma {:induction false} OpenWhileActs(signals: seq<Signal>, i: nat, j: nat)
    requires i <= j < |signals| && signals[i].Act?
    ensures GroupNo(signals, i) <= GroupNo(signals, j)
    ensures signals[j].Act? ==> Grouped(signals[..j + 1]).open
    ensures AllActs(signals, i, j) ==> GroupNo(signals, j) == GroupNo(signals, i)
    ensures !AllActs(signals, i, j) && signals[j].Act? ==> GroupNo(signals, j) > GroupNo(signals, i)
    ensures !AllActs(signals, i, j) ==> GroupNo(signals, j) > GroupNo(signals, i) || !Grouped(signals[..j + 1]).open
    decreases j - i
  {
    GroupingShowsAll(signals[..j]);
    assert signals[..j + 1][..j] == signals[..j];
    if i < j {
      OpenWhileActs(signals, i, j - 1);
      assert AllActs(signals, i, j) <==> AllActs(signals, i, j - 1) && signals[j].Act?;
    }
  }

  /** Two activity blocks share a stack exactly when no text, turn boundary or error comes between them. */
  lemma SameStackExactlyWhenUnbroken(signals: seq<Signal>, i: nat, j: nat)
    requires i < j < |signals| && signals[i].Act? && signals[j].Act?
    ensures GroupNo(signals, i) == GroupNo(signals, j) <==> AllActs(signals, i, j)
  {
    OpenWhileActs(signals, i, j);
  }

  // ---- the same, told from the items

  /** Item i has blocks to show: it is not a turn boundary and its message is there. */
  predicate HasBlocks(items: seq<Item>, messages: map<string, Message>, i: int) {
    0 <= i < |items| && items[i].kind == OtherKind && items[i].id in messages
  }

  function BlocksAt(items: seq<Item>, messages: map<string, Message>, i: nat): seq<Block>
    requires i < |items| && items[i].id in messages
  {
    messages[items[i].id].blocks
  }

  /** Block b of item i is activity. */
  predicate ActivityAt(items: seq<Item>, messages: map<string, Message>, i: nat, b: nat) {
    && HasBlocks(items, messages, i) && b < |BlocksAt(items, messages, i)|
    && (BlocksAt(items, messages, i)[b].Thinking? || BlocksAt(items, messages, i)[b].ToolCall?)
  }

  /** How many signals come before block b of item i. */
  function SignalNo(items: seq<Item>, messages: map<string, Message>, i: nat, b: nat): nat
    requires HasBlocks(items, messages, i) && b <= |BlocksAt(items, messages, i)|
  {
    |Signals(items[..i], messages)| + |FlatMap(SignalsOfBlock, BlocksAt(items, messages, i)[..b])|
  }

  lemma FlatMapSplit<S, T>(f: S -> seq<T>, s: seq<S>, k: nat)
    requires k <= |s|
    ensures FlatMap(f, s) == FlatMap(f, s[..k]) + FlatMap(f, s[k..])
  {
    var a, b := s[..k], s[k..];
    FlatMapConcat(f, a, b);
    assert s == a + b;
  }

  lemma SignalsThrough(items: seq<Item>, messages: map<string, Message>, i: nat, j: nat)
    requires i < j <= |items|
    ensures Signals(items[..j], messages)
         == Signals(items[..i], messages) + SignalsOfItem(messages)(items[i]) + Signals(items[i + 1..j], messages)
  {
    var f := SignalsOfItem(messages);
    FlatMapSplit(f, items[..j], i + 1);
    assert items[..j][..i + 1] == items[..i] + [items[i]];
    assert items[..j][i + 1..] == items[i + 1..j];
    FlatMapAppend(f, items[..i], items[i]);
  }

  lemma PrefixOfFour<T>(s: seq<T>, a: seq<T>, b: seq<T>, c: seq<T>, d: seq<T>)
    requires s == a + (b + c) + d
    ensures |a| + |b| <= |s| && s[..|a| + |b|] == a + b
  {
    assert s == a + b + (c + d);
  }

  lemma SignalsBefore(items: seq<Item>, messages: map<string, Message>, i: nat, b: nat)
    requires HasBlocks(items, messages, i) && b <= |BlocksAt(items, messages, i)|
    ensures SignalNo(items, messages, i, b) <= |Signals(items, messages)|
    ensures Signals(items, messages)[..SignalNo(items, messages, i, b)]
         == Signals(items[..i], messages) + FlatMap(SignalsOfBlock, BlocksAt(items, messages, i)[..b])
  {
    var blocks := BlocksAt(items, messages, i);
    var ends := if HasError(items[i], messages) then [Break] else [];
    SignalsThrough(items, messages, i, |items|);
    assert items[..|items|] == items;
    FlatMapSplit(SignalsOfBlock, blocks, b);
    var first, second := FlatMap(SignalsOfBlock, blocks[..b]), FlatMap(SignalsOfBlock, blocks[b..]);
    assert SignalsOfItem(messages)(items[i]) == first + second + ends;
    Assoc(first, second, ends);
    PrefixOfFour(Signals(items, messages), Signals(items[..i], messages), first, second + ends,
                 Signals(items[i + 1..|items|], messages));
  }

  lemma SignalOfActivity(items: seq<Item>, messages: map<string, Message>, i: nat, b: nat)
    requires ActivityAt(items, messages, i, b)
    ensures SignalNo(items, messages, i, b) < |Signals(items, messages)|
    ensures Signals(items, messages)[SignalNo(items, messages, i, b)] == Act(BlocksAt(items, messages, i)[b])
  {
    var blocks := BlocksAt(items, messages, i);
    SignalsBefore(items, messages, i, b);
    SignalsBefore(items, messages, i, b + 1);
    PrefixStep(blocks, b);
    FlatMapAppend(SignalsOfBlock, blocks[..b], blocks[b]);
    assert Signals(items, messages)[..SignalNo(items, messages, i, b + 1)][SignalNo(items, messages, i, b)]
        == Act(blocks[b]);
  }

  /** The number of the stack that block b of item i is in. */
  function StackNo(items: seq<Item>, messages: map<string, Message>, i: nat, b: nat): int
    requires ActivityAt(items, messages, i, b)
  {
    SignalOfActivity(items, messages, i, b);
    GroupNo(Signals(items, messages), SignalNo(items, messages, i, b))
  }

  predicate VisibleText(block: Block) {
    block.Text? && block.text != ""
  }

  predicate HasError(item: Item, messages: map<string, Message>) {
    item.id in messages && messages[item.id].error
  }

  /** Between block b of item i and block c of item j there is no visible text, no turn boundary and no error. */
  predicate Unbroken(items: seq<Item>, messages: map<string, Message>, i: nat, b: nat, j: nat, c: nat)
    requires i <= j < |items|
  {
    && (forall k | i < k <= j :: items[k].kind != User && items[k].kind != Compaction)
    && (forall k | i <= k < j :: !HasError(items[k], messages))
    && forall k, d | i <= k <= j && items[k].id in messages && 0 <= d < |BlocksAt(items, messages, k)|
                     && (k == i ==> b < d) && (k == j ==> d < c) ::
         !VisibleText(BlocksAt(items, messages, k)[d])
  }

  predicate Acts(signals: seq<Signal>) {
    forall x | x in signals :: x.Act?
  }

  predicate Silent(blocks: seq<Block>) {
    forall d | 0 <= d < |blocks| :: !VisibleText(blocks[d])
  }

  lemma ActsOfSum(a: seq<Signal>, b: seq<Signal>)
    ensures Acts(a + b) <==> Acts(a) && Acts(b)
  {
    assert forall x :: x in a + b <==> x in a || x in b;
  }

  lemma ActsOfBlock(block: Block)
    ensures Acts(SignalsOfBlock(block)) <==> !VisibleText(block)
  {
    assert VisibleText(block) ==> Words(block) in SignalsOfBlock(block);
  }

  lemma {:induction false} ActsOfBlocks(blocks: seq<Block>)
    ensures Acts(FlatMap(SignalsOfBlock, blocks)) <==> Silent(blocks)
  {
    if blocks != [] {
      var init, last := blocks[..|blocks| - 1], blocks[|blocks| - 1];
      ActsOfBlocks(init);
      ActsOfBlock(last);
      ActsOfSum(FlatMap(SignalsOfBlock, init), SignalsOfBlock(last));
      assert forall d | 0 <= d < |init| :: init[d] == blocks[d];
    }
  }

  /** Nothing of an item breaks a stack. */
  predicate Quiet(item: Item, messages: map<string, Message>) {
    && item.kind == OtherKind && !HasError(item, messages)
    && (item.id in messages ==> Silent(messages[item.id].blocks))
  }

  predicate AllQuiet(items: seq<Item>, messages: map<string, Message>) {
    forall k | 0 <= k < |items| :: Quiet(items[k], messages)
  }

  lemma ActsOfMessage(message: Message)
    ensures Acts(SignalsOfMessage(message)) <==> !message.error && Silent(message.blocks)
  {
    var ends := if message.error then [Break] else [];
    ActsOfBlocks(message.blocks);
    ActsOfSum(FlatMap(SignalsOfBlock, message.blocks), ends);
    assert message.error ==> Break in ends;
  }

  lemma ActsOfItem(item: Item, messages: map<string, Message>)
    ensures Acts(SignalsOfItem(messages)(item)) <==> Quiet(item, messages)
  {
    if item.kind != OtherKind {
      assert Break in SignalsOfItem(messages)(item);
    } else if item.id in messages {
      ActsOfMessage(messages[item.id]);
    }
  }

  lemma {:induction false} ActsOfItems(items: seq<Item>, messages: map<string, Message>)
    ensures Acts(Signals(items, messages)) <==> AllQuiet(items, messages)
  {
    if items != [] {
      var init, last := items[..|items| - 1], items[|items| - 1];
      ActsOfItems(init, messages);
      ActsOfItem(last, messages);
      ActsOfSum(Signals(init, messages), SignalsOfItem(messages)(last));
      QuietMore(items, messages);
    }
  }

  lemma QuietMore(items: seq<Item>, messages: map<string, Message>)
    requires items != []
    ensures AllQuiet(items, messages)
       <==> AllQuiet(items[..|items| - 1], messages) && Quiet(items[|items| - 1], messages)
  {
    assert forall k | 0 <= k < |items| - 1 :: items[..|items| - 1][k] == items[k];
  }

  /** The signals of an item from block b on, and those of the items up to j. */
  function Onward(items: seq<Item>, messages: map<string, Message>, i: nat, b: nat, j: nat): seq<Signal>
    requires HasBlocks(items, messages, i) && b <= |BlocksAt(items, messages, i)| && i < j <= |items|
  {
    FlatMap(SignalsOfBlock, BlocksAt(items, messages, i)[b..])
    + (if HasError(items[i], messages) then [Break] else []) + Signals(items[i + 1..j], messages)
  }

  lemma Regroup<T>(p: seq<T>, x: seq<T>, y: seq<T>, e: seq<T>, r: seq<T>)
    ensures p + (x + y + e) + r == p + x + (y + e + r)
  {
  }

  lemma SignalsUpTo(items: seq<Item>, messages: map<string, Message>, i: nat, b: nat, j: nat)
    requires HasBlocks(items, messages, i) && b <= |BlocksAt(items, messages, i)| && i < j <= |items|
    ensures Signals(items[..j], messages)
         == Signals(items[..i], messages) + FlatMap(SignalsOfBlock, BlocksAt(items, messages, i)[..b])
            + Onward(items, messages, i, b, j)
  {
    var blocks := BlocksAt(items, messages, i);
    var ends := if HasError(items[i], messages) then [Break] else [];
    SignalsThrough(items, messages, i, j);
    FlatMapSplit(SignalsOfBlock, blocks, b);
    Regroup(Signals(items[..i], messages), FlatMap(SignalsOfBlock, blocks[..b]), FlatMap(SignalsOfBlock, blocks[b..]),
            ends, Signals(items[i + 1..j], messages));
  }

  lemma CutAfter<T>(s: seq<T>, m: nat, n: nat, a: seq<T>, b: seq<T>)
    requires m <= |s| && n <= |s| && s[..m] == a && s[..n] == a + b
    ensures m <= n && s[m..n] == b
  {
    assert s[..n][m..] == b;
  }

  /** What comes from block b of item i up to block c of a later item. */
  lemma SignalsBetween(items: seq<Item>, messages: map<string, Message>, i: nat, b: nat, j: nat, c: nat)
    requires ActivityAt(items, messages, i, b) && ActivityAt(items, messages, j, c) && i < j
    ensures SignalNo(items, messages, i, b) <= SignalNo(items, messages, j, c) <= |Signals(items, messages)|
    ensures Signals(items, messages)[SignalNo(items, messages, i, b)..SignalNo(items, messages, j, c)]
         == Onward(items, messages, i, b, j) + FlatMap(SignalsOfBlock, BlocksAt(items, messages, j)[..c])
  {
    SignalsBefore(items, messages, i, b);
    SignalsBefore(items, messages, j, c);
    SignalsUpTo(items, messages, i, b, j);
    var before := Signals(items[..i], messages) + FlatMap(SignalsOfBlock, BlocksAt(items, messages, i)[..b]);
    var last := FlatMap(SignalsOfBlock, BlocksAt(items, messages, j)[..c]);
    Assoc(before, Onward(items, messages, i, b, j), last);
    CutAfter(Signals(items, messages), SignalNo(items, messages, i, b), SignalNo(items, messages, j, c), before,
             Onward(items, messages, i, b, j) + last);
  }

  lemma UnbrokenHasParts(items: seq<Item>, messages: map<string, Message>, i: nat, b: nat, j: nat, c: nat)
    requires ActivityAt(items, messages, i, b) && ActivityAt(items, messages, j, c) && i < j
    requires Unbroken(items, messages, i, b, j, c)
    ensures Silent(BlocksAt(items, messages, i)[b..]) && !HasError(items[i], messages)
    ensures AllQuiet(items[i + 1..j], messages) && Silent(BlocksAt(items, messages, j)[..c])
  {
    var mine, others, middle := BlocksAt(items, messages, i), BlocksAt(items, messages, j), items[i + 1..j];
    assert forall d | 0 <= d < |mine| - b :: mine[b..][d] == mine[b + d];
    assert forall d | 0 <= d < c :: others[..c][d] == others[d];
    forall k | 0 <= k < |middle| ensures Quiet(middle[k], messages) {
      assert middle[k] == items[i + 1 + k];
      if middle[k].id in messages {
        var blocks := messages[middle[k].id].blocks;
        forall d | 0 <= d < |blocks| ensures !VisibleText(blocks[d]) {
          assert blocks[d] == BlocksAt(items, messages, i + 1 + k)[d];
        }
      }
    }
  }

  lemma PartsAreUnbroken(items: seq<Item>, messages: map<string, Message>, i: nat, b: nat, j: nat, c: nat)
    requires ActivityAt(items, messages, i, b) && ActivityAt(items, messages, j, c) && i < j
    requires Silent(BlocksAt(items, messages, i)[b..]) && !HasError(items[i], messages)
    requires AllQuiet(items[i + 1..j], messages) && Silent(BlocksAt(items, messages, j)[..c])
    ensures Unbroken(items, messages, i, b, j, c)
  {
    var mine, others, middle := BlocksAt(items, messages, i), BlocksAt(items, messages, j), items[i + 1..j];
    assert forall d | b <= d < |mine| :: mine[d] == mine[b..][d - b];
    assert forall d | 0 <= d < c :: others[d] == others[..c][d];
    forall k | i < k < j ensures Quiet(items[k], messages) {
      assert items[k] == middle[k - i - 1];
    }
  }

  lemma ActsOfFour(a: seq<Signal>, b: seq<Signal>, c: seq<Signal>, d: seq<Signal>)
    ensures Acts(a + b + c + d) <==> Acts(a) && Acts(b) && Acts(c) && Acts(d)
  {
    ActsOfSum(a, b);
    ActsOfSum(a + b, c);
    ActsOfSum(a + b + c, d);
  }

  lemma ActsOnward(items: seq<Item>, messages: map<string, Message>, i: nat, b: nat, j: nat, c: nat)
    requires ActivityAt(items, messages, i, b) && ActivityAt(items, messages, j, c) && i < j
    ensures Acts(Onward(items, messages, i, b, j) + FlatMap(SignalsOfBlock, BlocksAt(items, messages, j)[..c]))
         <==> Silent(BlocksAt(items, messages, i)[b..]) && !HasError(items[i], messages)
              && AllQuiet(items[i + 1..j], messages) && Silent(BlocksAt(items, messages, j)[..c])
  {
    var mine, others := BlocksAt(items, messages, i), BlocksAt(items, messages, j);
    var ends := if HasError(items[i], messages) then [Break] else [];
    ActsOfFour(FlatMap(SignalsOfBlock, mine[b..]), ends, Signals(items[i + 1..j], messages),
               FlatMap(SignalsOfBlock, others[..c]));
    ActsOfBlocks(mine[b..]);
    ActsOfBlocks(others[..c]);
    ActsOfItems(items[i + 1..j], messages);
    assert HasError(items[i], messages) ==> Break in ends;
  }

  /** What comes from one block of an item up to a later one. */
  lemma SignalsWithin(items: seq<Item>, messages: map<string, Message>, i: nat, b: nat, c: nat)
    requires HasBlocks(items, messages, i) && b <= c <= |BlocksAt(items, messages, i)|
    ensures SignalNo(items, messages, i, b) <= SignalNo(items, messages, i, c) <= |Signals(items, messages)|
    ensures Signals(items, messages)[SignalNo(items, messages, i, b)..SignalNo(items, messages, i, c)]
         == FlatMap(SignalsOfBlock, BlocksAt(items, messages, i)[b..c])
  {
    var blocks, before := BlocksAt(items, messages, i), Signals(items[..i], messages);
    SignalsBefore(items, messages, i, b);
    SignalsBefore(items, messages, i, c);
    FlatMapSplit(SignalsOfBlock, blocks[..c], b);
    assert blocks[..c][..b] == blocks[..b];
    assert blocks[..c][b..] == blocks[b..c];
    Assoc(before, FlatMap(SignalsOfBlock, blocks[..b]), FlatMap(SignalsOfBlock, blocks[b..c]));
    CutAfter(Signals(items, messages), SignalNo(items, messages, i, b), SignalNo(items, messages, i, c),
             before + FlatMap(SignalsOfBlock, blocks[..b]), FlatMap(SignalsOfBlock, blocks[b..c]));
  }

  lemma UnbrokenWithin(items: seq<Item>, messages: map<string, Message>, i: nat, b: nat, c: nat)
    requires ActivityAt(items, messages, i, b) && ActivityAt(items, messages, i, c) && b < c
    ensures Unbroken(items, messages, i, b, i, c) <==> Silent(BlocksAt(items, messages, i)[b..c])
  {
    var blocks := BlocksAt(items, messages, i);
    assert forall d | b <= d < c :: blocks[d] == blocks[b..c][d - b];
    assert forall d | 0 <= d < c - b :: blocks[b..c][d] == blocks[b + d];
  }

  /** The signals from one activity block up to a later one are all activity exactly when nothing breaks in. */
  lemma ActsBetween(items: seq<Item>, messages: map<string, Message>, i: nat, b: nat, j: nat, c: nat)
    requires ActivityAt(items, messages, i, b) && ActivityAt(items, messages, j, c) && (i < j || (i == j && b < c))
    ensures SignalNo(items, messages, i, b) <= SignalNo(items, messages, j, c) <= |Signals(items, messages)|
    ensures Acts(Signals(items, messages)[SignalNo(items, messages, i, b)..SignalNo(items, messages, j, c)])
         <==> Unbroken(items, messages, i, b, j, c)
  {
    if i == j {
      SignalsWithin(items, messages, i, b, c);
      UnbrokenWithin(items, messages, i, b, c);
      ActsOfBlocks(BlocksAt(items, messages, i)[b..c]);
    } else {
      SignalsBetween(items, messages, i, b, j, c);
      ActsOnward(items, messages, i, b, j, c);
      if Unbroken(items, messages, i, b, j, c) {
        UnbrokenHasParts(items, messages, i, b, j, c);
      } else if Acts(Onward(items, messages, i, b, j) + FlatMap(SignalsOfBlock, BlocksAt(items, messages, j)[..c])) {
        PartsAreUnbroken(items, messages, i, b, j, c);
      }
    }
  }

  lemma ActsOfSlice(signals: seq<Signal>, m: nat, n: nat)
    requires m <= n < |signals| && signals[n].Act?
    ensures AllActs(signals, m, n) <==> Acts(signals[m..n])
  {
    assert forall k | m <= k < n :: signals[k] == signals[m..n][k - m];
    assert forall k | 0 <= k < n - m :: signals[m..n][k] == signals[m + k];
  }

  /** Two activity blocks are in one stack exactly when no visible text, turn boundary or error comes between them. */
  lemma OneStackExactly(items: seq<Item>, messages: map<string, Message>, i: nat, b: nat, j: nat, c: nat)
    requires ActivityAt(items, messages, i, b) && ActivityAt(items, messages, j, c) && (i < j || (i == j && b < c))
    ensures StackNo(items, messages, i, b) == StackNo(items, messages, j, c)
       <==> Unbroken(items, messages, i, b, j, c)
  {
    var signals, m, n := Signals(items, messages), SignalNo(items, messages, i, b), SignalNo(items, messages, j, c);
    SignalOfActivity(items, messages, i, b);
    SignalOfActivity(items, messages, j, c);
    ActsBetween(items, messages, i, b, j, c);
    SignalsDiffer(items, messages, i, b, j, c);
    ActsOfSlice(signals, m, n);
    SameStackExactlyWhenUnbroken(signals, m, n);
  }

  lemma SignalsDiffer(items: seq<Item>, messages: map<string, Message>, i: nat, b: nat, j: nat, c: nat)
    requires ActivityAt(items, messages, i, b) && ActivityAt(items, messages, j, c) && (i < j || (i == j && b < c))
    ensures SignalNo(items, messages, i, b) < SignalNo(items, messages, j, c)
  {
    var blocks := BlocksAt(items, messages, i);
    PrefixStep(blocks, b);
    FlatMapAppend(SignalsOfBlock, blocks[..b], blocks[b]);
    if i < j {
      SignalsUpTo(items, messages, i, b + 1, j);
    } else {
      FlatMapSplit(SignalsOfBlock, blocks[..c], b + 1);
      assert blocks[..c][..b + 1] == blocks[..b + 1];
    }
  }
}
