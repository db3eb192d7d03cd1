/** Transcript messages, their division into turns, and the chunks taken from the tail. */
module TranscriptTurns {
  import opened Prelude

  datatype ToolCall = ToolCall(id: string, name: string)

  datatype Block = Text(text: string) | Thinking(thinking: string) | Call(call: ToolCall)

  datatype Message =
    | User(prompt: string)
    | Assistant(blocks: seq<Block>)
    | CompactionSummary
    | ToolResult(callId: string, output: string, isError: bool)
    | Custom(note: string)

  type Turn = seq<Message>

  function Flatten(turns: seq<Turn>): seq<Message> {
    if turns == [] then [] else Flatten(turns[..|turns| - 1]) + turns[|turns| - 1]
  }

  // ---- splitting into turns

  /** A new turn starts at each user message. */
  function Extend(turns: seq<Turn>, message: Message): seq<Turn> {
    if turns == [] || message.User? then turns + [[message]]
    else turns[..|turns| - 1] + [turns[|turns| - 1] + [message]]
  }

  function SplitTurns(messages: seq<Message>): seq<Turn> {
    if messages == [] then []
    else Extend(SplitTurns(messages[..|messages| - 1]), messages[|messages| - 1])
  }

  lemma SplitAppend(messages: seq<Message>, message: Message)
    ensures SplitTurns(messages + [message]) == Extend(SplitTurns(messages), message)
  {
    assert (messages + [message])[..|messages|] == messages;
  }

  lemma ExtendLast(turns: seq<Turn>, current: Turn, message: Message)
    requires !message.User?
    ensures Extend(turns + [current], message) == turns + [current + [message]]
  {
    assert (turns + [current])[..|turns|] == turns;
  }

  predicate NonEmptyTurns(turns: seq<Turn>) {
    forall i | 0 <= i < |turns| :: turns[i] != []
  }

  /** Turns are non-empty, a user message only ever opens a turn, and every turn but the first opens with one. */
  predicate ProperTurns(turns: seq<Turn>) {
    && NonEmptyTurns(turns)
    && (forall i, j | 0 <= i < |turns| && 1 <= j < |turns[i]| :: !turns[i][j].User?)
    && (forall i | 1 <= i < |turns| :: turns[i] != [] && turns[i][0].User?)
  }

  lemma ExtendLaw(turns: seq<Turn>, message: Message)
    requires ProperTurns(turns)
    ensures Flatten(Extend(turns, message)) == Flatten(turns) + [message]
    ensures ProperTurns(Extend(turns, message))
  {
    var extended := Extend(turns, message);
    if turns == [] || message.User? {
      assert extended[..|extended| - 1] == turns;
    } else {
      var init, last := turns[..|turns| - 1], turns[|turns| - 1];
      assert extended[..|extended| - 1] == init && extended[|extended| - 1] == last + [message];
      Assoc(Flatten(init), last, [message]);
    }
  }

  lemma {:induction false} SplitTurnsLaw(messages: seq<Message>)
    ensures Flatten(SplitTurns(messages)) == messages
    ensures ProperTurns(SplitTurns(messages))
  {
    if messages != [] {
      var front, message := messages[..|messages| - 1], messages[|messages| - 1];
      SplitTurnsLaw(front);
      ExtendLaw(SplitTurns(front), message);
      assert messages == front + [message];
    }
  }

  /** There is only one proper division of a message list into turns. */
  lemma {:induction false} ProperTurnsAreUnique(turns: seq<Turn>)
    requires ProperTurns(turns)
    ensures SplitTurns(Flatten(turns)) == turns
    decreases |Flatten(turns)|
  {
    if turns != [] {
      var init, last := turns[..|turns| - 1], turns[|turns| - 1];
      var shorter, message := last[..|last| - 1], last[|last| - 1];
      assert last == shorter + [message];
      assert turns == init + [last];
      if shorter == [] {
        ProperTurnsAreUnique(init);
        SplitAppend(Flatten(init), message);
      } else {
        var before := init + [shorter];
        assert before[..|before| - 1] == init;
        assert Flatten(before) + [message] == Flatten(turns);
        ProperTurnsAreUnique(before);
        SplitAppend(Flatten(before), message);
        ExtendLast(init, shorter, message);
      }
    }
  }

  method SplitIntoTurns(messages: seq<Message>) returns (turns: seq<Turn>)
    ensures turns == SplitTurns(messages)
  {
    turns := [];
    var current: Turn := [];
    for i := 0 to |messages|
      invariant SplitTurns(messages[..i]) == if current == [] then turns else turns + [current]
      invariant current == [] ==> i == 0 && turns == []
    {
      assert messages[..i + 1] == messages[..i] + [messages[i]];
      SplitAppend(messages[..i], messages[i]);
      if messages[i].User? && |current| > 0 {
        turns := turns + [current];
        current := [];
      } else if |current| > 0 {
        ExtendLast(turns, current, messages[i]);
      }
      assert [] + [messages[i]] == [messages[i]];
      current := current + [messages[i]];
    }
    assert messages[..|messages|] == messages;
    if |current| > 0 {
      turns := turns + [current];
    }
  }

  // ---- taking a chunk from the tail

  /** The chunk taken and the turns left, continuing with `chunk` already taken. */
  function TakeTail(turns: seq<Turn>, max: nat, preserveOversized: bool, chunk: seq<Message>): (seq<Message>, seq<Turn>)
    requires max >= 1 && |chunk| < max
  {
    if turns == [] then (chunk, turns)
    else
      var rest, turn := turns[..|turns| - 1], turns[|turns| - 1];
      if |turn| > max - |chunk| then
        if chunk != [] then (chunk, turns)
        else if preserveOversized then (turn, rest)
        else (turn[|turn| - max..], rest + [turn[..|turn| - max]])
      else if |turn| + |chunk| >= max then (turn + chunk, rest)
      else TakeTail(rest, max, preserveOversized, turn + chunk)
  }

  /**
   Taking a chunk moves messages off the end and changes nothing else: it makes progress, respects
   the limit (except for one preserved oversized turn), stops only when the next turn does not fit,
   and cuts a turn only if that turn alone exceeds the limit.
   */
  lemma {:induction false} TakeTailLaw(turns: seq<Turn>, max: nat, preserveOversized: bool, chunk: seq<Message>)
    requires max >= 1 && |chunk| < max && NonEmptyTurns(turns)
    ensures var (taken, left) := TakeTail(turns, max, preserveOversized, chunk);
            && Flatten(left) + taken == Flatten(turns) + chunk
            && NonEmptyTurns(left)
            && |taken| >= |chunk| && (turns != [] ==> taken != [])
            && (|taken| <= max || (preserveOversized && turns != [] && taken == turns[|turns| - 1]))
            && (left != [] ==> |taken| + |left[|left| - 1]| > max)
            && (left <= turns || (!preserveOversized && |taken| == max && |turns[|turns| - 1]| > max))
  {
    if turns != [] {
      var rest, turn := turns[..|turns| - 1], turns[|turns| - 1];
      if |turn| > max - |chunk| {
        if chunk == [] && !preserveOversized {
          var (taken, left) := TakeTail(turns, max, preserveOversized, chunk);
          assert left[..|left| - 1] == rest;
          assert turn == turn[..|turn| - max] + turn[|turn| - max..];
        }
      } else {
        assert Flatten(turns) + chunk == Flatten(rest) + (turn + chunk);
        if |turn| + |chunk| < max {
          TakeTailLaw(rest, max, preserveOversized, turn + chunk);
        }
      }
    }
  }

  /** The shared list of turns that a render job drains in place. */
  class TurnQueue {
    var turns: seq<Turn>

    constructor (turns: seq<Turn>)
      ensures this.turns == turns
    {
      this.turns := turns;
    }

    method TakeTailChunk(max: nat, preserveOversized: bool) returns (chunk: seq<Message>)
      requires max >= 1
      modifies this
      ensures (chunk, turns) == TakeTail(old(turns), max, preserveOversized, [])
    {
      chunk := [];
      while |turns| > 0
        invariant |chunk| < max
        invariant TakeTail(turns, max, preserveOversized, chunk) == TakeTail(old(turns), max, preserveOversized, [])
        decreases |turns|
      {
        var turn := turns[|turns| - 1];
        var available := max - |chunk|;
        if |turn| > available {
          if |chunk| > 0 {
            break;
          }
          if preserveOversized {
            chunk := turn + chunk;
            assert chunk == turn;
            turns := turns[..|turns| - 1];
            return;
          }
          chunk := turn[|turn| - max..] + chunk;
          assert chunk == turn[|turn| - max..];
          turns := turns[..|turns| - 1] + [turn[..|turn| - max]];
          return;
        }
        chunk := turn + chunk;
        turns := turns[..|turns| - 1];
        if |chunk| >= max {
          return;
        }
      }
    }
  }
}
