/** Durable history and the live tail of the same session, joined without repeating what they share. */
module TranscriptMerge {
  import opened Prelude

  const TOLERANCE_MS: int := 10000

  /** A message as far as it is compared; `content` is its canonical form. */
  datatype Message = Message(role: string, responseId: Option<string>, toolCallId: Option<string>, content: string,
                             timestamp: Option<int>)

  /** Two ids, both there and not empty, that differ. */
  predicate Clash(a: Option<string>, b: Option<string>) {
    a.Some? && b.Some? && a.value != "" && b.value != "" && a != b
  }

  predicate Same(a: Message, b: Message) {
    && a.role == b.role && !Clash(a.responseId, b.responseId) && !Clash(a.toolCallId, b.toolCallId)
    && a.content == b.content
    && (a.timestamp.Some? && b.timestamp.Some? ==>
          -TOLERANCE_MS <= a.timestamp.value - b.timestamp.value <= TOLERANCE_MS)
  }

  /** Being the same is symmetric, but it does not carry over: two messages may each be the same as a third. */
  lemma SameIsNotTransitive()
    ensures exists a, b, c :: Same(a, b) && Same(b, a) && Same(b, c) && !Same(a, c)
  {
    var at := (t: int) => Message("user", None, None, "resume", Some(t));
    assert Same(at(0), at(8000)) && Same(at(8000), at(0)) && Same(at(8000), at(16000)) && !Same(at(0), at(16000));
  }

  /** The last k durable messages are the first k live ones. */
  predicate Overlaps(durable: seq<Message>, live: seq<Message>, k: int) {
    && 0 <= k <= |durable| && k <= |live|
    && forall i | 0 <= i < k :: Same(durable[|durable| - k..][i], live[i])
  }

  function LongestUpTo(durable: seq<Message>, live: seq<Message>, k: nat): (overlap: nat)
    requires k <= |durable| && k <= |live|
    ensures overlap <= k && Overlaps(durable, live, overlap)
    ensures forall j | overlap < j <= k :: !Overlaps(durable, live, j)
  {
    if Overlaps(durable, live, k) then k else LongestUpTo(durable, live, k - 1)
  }

  function Overlap(durable: seq<Message>, live: seq<Message>): (overlap: nat)
    ensures Overlaps(durable, live, overlap) && forall j | overlap < j :: !Overlaps(durable, live, j)
  {
    LongestUpTo(durable, live, Min(|durable|, |live|))
  }

  /** All durable history, then what is left of the live tail after the longest overlap. */
  function Merge(durable: seq<Message>, live: seq<Message>): seq<Message> {
    durable + live[Overlap(durable, live)..]
  }

  /** Whether one alignment holds, message by message, stopping at the first that differs. */
  method Aligned(durable: seq<Message>, live: seq<Message>, overlap: nat) returns (matches: bool)
    requires overlap <= |durable| && overlap <= |live|
    ensures matches <==> Overlaps(durable, live, overlap)
  {
    var durableStart := |durable| - overlap;
    for index := 0 to overlap
      invariant forall i | 0 <= i < index :: Same(durable[durableStart..][i], live[i])
    {
      if !Same(durable[durableStart + index], live[index]) {
        assert durable[durableStart..][index] == durable[durableStart + index];
        return false;
      }
    }
    return true;
  }

  method MergeClaudeTranscriptMessages(durable: seq<Message>, live: seq<Message>) returns (merged: seq<Message>)
    ensures merged == Merge(durable, live)
  {
    if durable == [] {
      return live;
    }
    if live == [] {
      return durable;
    }
    var overlap := Min(|durable|, |live|);
    while overlap > 0
      invariant 0 <= overlap <= |durable| && overlap <= |live|
      invariant forall j | overlap < j :: !Overlaps(durable, live, j)
    {
      var matches := Aligned(durable, live, overlap);
      if matches {
        return durable + live[overlap..];
      }
      overlap := overlap - 1;
    }
    return durable + live;
  }

  /** Two ids, neither of them missing nor empty, that differ. */
  predicate OtherIds(a: Option<string>, b: Option<string>) {
    a.Some? && b.Some? && a.value != b.value && a.value != "" && b.value != ""
  }

  /** Messages that can be told apart. */
  predicate Different(a: Message, b: Message) {
    || a.role != b.role || a.content != b.content
    || OtherIds(a.toolCallId, b.toolCallId) || OtherIds(a.responseId, b.responseId)
    || (a.timestamp.Some? && b.timestamp.Some?
        && (a.timestamp.value > b.timestamp.value + 10_000 || b.timestamp.value > a.timestamp.value + 10_000))
  }

  lemma DifferentIsNotSame(a: Message, b: Message)
    ensures Different(a, b) <==> !Same(a, b)
  {
    assert Clash(a.toolCallId, b.toolCallId) ==> OtherIds(a.toolCallId, b.toolCallId);
    assert Clash(a.responseId, b.responseId) ==> OtherIds(a.responseId, b.responseId);
  }

  lemma OneOverlaps(durable: seq<Message>, live: seq<Message>)
    requires |durable| == |live| == 1
    ensures Overlap(durable, live) == if Same(durable[0], live[0]) then 1 else 0
  {
    assert durable[|durable| - 1..][0] == durable[0];
    if Same(durable[0], live[0]) {
      assert Overlaps(durable, live, 1);
    } else {
      assert !Overlaps(durable, live, 1);
    }
  }

  /** One live message is taken for the one durable message exactly when the two cannot be told apart. */
  lemma OneIsMergedExactly(d: Message, m: Message)
    ensures Merge([d], [m]) == [d] + if Different(d, m) then [m] else []
  {
    DifferentIsNotSame(d, m);
    OneOverlaps([d], [m]);
    assert [m][1..] == [] && [m][0..] == [m];
  }

  /** A live message that differs from all durable ones is kept, and so is all that follows it. */
  lemma NewIsKept(durable: seq<Message>, live: seq<Message>, i: nat)
    requires i < |live| && forall d | d in durable :: Different(d, live[i])
    ensures var merged := Merge(durable, live);
            |merged| >= |live| - i && merged[|merged| - (|live| - i)..] == live[i..]
  {
    var k := Overlap(durable, live);
    if i < k {
      DifferentIsNotSame(durable[|durable| - k..][i], live[i]);
    }
    assert live[k..][i - k..] == live[i..];
  }

  /** The whole live tail is there at the end, each message itself or a durable one that is the same. */
  lemma LiveIsSuffix(durable: seq<Message>, live: seq<Message>)
    ensures Overlaps(Merge(durable, live), live, |live|)
  {
    var k, merged := Overlap(durable, live), Merge(durable, live);
    var tail := merged[|merged| - |live|..];
    forall i | 0 <= i < |live| ensures Same(tail[i], live[i]) {
      if i < k {
        assert tail[i] == durable[|durable| - k..][i];
      } else {
        assert tail[i] == live[i];
      }
    }
  }

  /** Merging the same live tail again changes nothing. */
  lemma MergeIsIdempotent(durable: seq<Message>, live: seq<Message>)
    ensures Merge(Merge(durable, live), live) == Merge(durable, live)
  {
    LiveIsSuffix(durable, live);
    assert Overlap(Merge(durable, live), live) == |live|;
  }

  /** A live tail that goes on from where durable history ends: what a longer alignment covers of it is lost. */
  lemma MergeOfShared(before: seq<Message>, shared: seq<Message>, after: seq<Message>)
    ensures var k := Overlap(before + shared, shared + after);
            && |shared| <= k <= |shared| + |after|
            && Merge(before + shared, shared + after) == before + shared + after[k - |shared|..]
  {
    var durable, live := before + shared, shared + after;
    assert durable[|durable| - |shared|..] == shared;
    assert forall i | 0 <= i < |shared| :: live[i] == shared[i];
    assert Overlaps(durable, live, |shared|);
    var k := Overlap(durable, live);
    assert live[k..] == after[k - |shared|..];
  }

  /** It is joined without a repeat and without a loss exactly when no longer alignment fits. */
  lemma NoRepeat(before: seq<Message>, shared: seq<Message>, after: seq<Message>)
    ensures Merge(before + shared, shared + after) == before + shared + after
       <==> forall k | |shared| < k :: !Overlaps(before + shared, shared + after, k)
  {
    MergeOfShared(before, shared, after);
    var k := Overlap(before + shared, shared + after);
    assert after[0..] == after;
    if k > |shared| {
      assert |Merge(before + shared, shared + after)| < |before + shared + after|;
    }
  }

  /** A longer alignment by coincidence swallows a live message: a repeated prompt is taken for an older one. */
  lemma RepeatedPromptIsSwallowed(prompt: Message)
    ensures Merge([prompt] + [prompt], [prompt] + [prompt]) == [prompt] + [prompt]
    ensures Merge([prompt] + [prompt], [prompt] + [prompt]) != [prompt] + [prompt] + [prompt]
  {
    var two := [prompt] + [prompt];
    assert two[2 - 2..] == two;
    assert Overlaps(two, two, 2);
    assert two + two[2..] == two;
  }
}
