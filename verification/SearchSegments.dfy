/** A snippet cut into plain and highlighted segments along ranges that may overlap. */
module SearchSegments {
  datatype Range = Range(start: nat, end: nat)

  datatype Segment = Segment(text: string, match_: bool)

  /** By start, the longer first. */
  predicate Before(a: Range, b: Range) {
    a.start < b.start || (a.start == b.start && a.end >= b.end)
  }

  predicate Sorted(ranges: seq<Range>) {
    forall i, j | 0 <= i < j < |ranges| :: Before(ranges[i], ranges[j])
  }

  predicate Fit(text: string, ranges: seq<Range>) {
    forall i | 0 <= i < |ranges| :: ranges[i].start < ranges[i].end <= |text|
  }

  // ---- cutting

  /** What is left to cut from the cursor on, the ranges in order; one that starts before the cursor is skipped. */
  function Cut(text: string, ranges: seq<Range>, cursor: nat): seq<Segment>
    requires Fit(text, ranges) && cursor <= |text|
  {
    if ranges == [] then
      if cursor < |text| then [Segment(text[cursor..], false)] else []
    else
      var r, rest := ranges[0], ranges[1..];
      if r.start < cursor then Cut(text, rest, cursor) else Pieces(text, r, cursor) + Cut(text, rest, r.end)
  }

  /** The plain text up to a range, if any, and the range. */
  function Pieces(text: string, r: Range, cursor: nat): seq<Segment>
    requires cursor <= r.start < r.end <= |text|
  {
    (if r.start > cursor then [Segment(text[cursor..r.start], false)] else []) + [Segment(text[r.start..r.end], true)]
  }

  function TextOf(segments: seq<Segment>): string {
    if segments == [] then "" else segments[0].text + TextOf(segments[1..])
  }

  function Run(n: nat, mark: bool): seq<bool> {
    seq(n, i => mark)
  }

  /** For every character, whether it is highlighted. */
  function Marks(segments: seq<Segment>): seq<bool> {
    if segments == [] then []
    else Run(|segments[0].text|, segments[0].match_) + Marks(segments[1..])
  }

  /** The ranges that are highlighted: in order, those that start where the one before has ended. */
  function Kept(ranges: seq<Range>, cursor: nat): seq<Range> {
    if ranges == [] then []
    else if ranges[0].start < cursor then Kept(ranges[1..], cursor)
    else [ranges[0]] + Kept(ranges[1..], ranges[0].end)
  }

  ghost predicate Covered(ranges: seq<Range>, p: int) {
    exists i :: 0 <= i < |ranges| && ranges[i].start <= p < ranges[i].end
  }

  lemma TextOfCons(segment: Segment, rest: seq<Segment>)
    ensures TextOf([segment] + rest) == segment.text + TextOf(rest)
  {
    assert ([segment] + rest)[1..] == rest;
  }

  lemma TextOfPieces(text: string, r: Range, cursor: nat, rest: seq<Segment>)
    requires cursor <= r.start < r.end <= |text| && TextOf(rest) == text[r.end..]
    ensures TextOf(Pieces(text, r, cursor) + rest) == text[cursor..]
  {
    var here := Segment(text[r.start..r.end], true);
    TextOfCons(here, rest);
    assert here.text + text[r.end..] == text[r.start..];
    if r.start > cursor {
      var gap := Segment(text[cursor..r.start], false);
      TextOfCons(gap, [here] + rest);
      assert Pieces(text, r, cursor) + rest == [gap] + ([here] + rest);
      assert gap.text + text[r.start..] == text[cursor..];
    } else {
      assert Pieces(text, r, cursor) + rest == [here] + rest;
    }
  }

  predicate NoneEmpty(segments: seq<Segment>) {
    forall i | 0 <= i < |segments| :: segments[i].text != ""
  }

  /** Nothing is lost, nothing is empty. */
  lemma {:induction false} CutLosesNothing(text: string, ranges: seq<Range>, cursor: nat)
    requires Fit(text, ranges) && cursor <= |text|
    ensures TextOf(Cut(text, ranges, cursor)) == text[cursor..] && NoneEmpty(Cut(text, ranges, cursor))
  {
    if ranges == [] {
      if cursor < |text| {
        TextOfCons(Segment(text[cursor..], false), []);
      }
    } else if ranges[0].start < cursor {
      CutLosesNothing(text, ranges[1..], cursor);
    } else {
      CutLosesNothing(text, ranges[1..], ranges[0].end);
      TextOfPieces(text, ranges[0], cursor, Cut(text, ranges[1..], ranges[0].end));
    }
  }

  lemma MarksCons(segment: Segment, rest: seq<Segment>)
    ensures Marks([segment] + rest) == Run(|segment.text|, segment.match_) + Marks(rest)
  {
    assert ([segment] + rest)[1..] == rest;
  }

  /** The marks of a range and what follows it. */
  lemma MarksOfRange(text: string, r: Range, rest: seq<Segment>, cursor: nat)
    requires cursor <= r.start < r.end <= |text|
    ensures Marks(Pieces(text, r, cursor) + rest)
            == Run(r.start - cursor, false) + Run(r.end - r.start, true) + Marks(rest)
  {
    var here := Segment(text[r.start..r.end], true);
    MarksCons(here, rest);
    if r.start > cursor {
      var gap := Segment(text[cursor..r.start], false);
      MarksCons(gap, [here] + rest);
      assert Pieces(text, r, cursor) + rest == [gap] + ([here] + rest);
    } else {
      assert Pieces(text, r, cursor) + rest == [here] + rest;
    }
  }

  lemma {:induction false} KeptStartLater(ranges: seq<Range>, cursor: nat)
    requires forall i | 0 <= i < |ranges| :: ranges[i].start < ranges[i].end
    ensures forall i | 0 <= i < |Kept(ranges, cursor)| :: Kept(ranges, cursor)[i].start >= cursor
  {
    if ranges != [] {
      KeptStartLater(ranges[1..], cursor);
      KeptStartLater(ranges[1..], ranges[0].end);
    }
  }

  lemma CoveredCons(r: Range, rest: seq<Range>, p: int)
    ensures Covered([r] + rest, p) <==> r.start <= p < r.end || Covered(rest, p)
  {
    assert ([r] + rest)[0] == r && forall i | 0 <= i < |rest| :: ([r] + rest)[i + 1] == rest[i];
  }

  lemma MarksOfPieces(text: string, r: Range, rest: seq<Segment>, cursor: nat, p: nat)
    requires cursor <= r.start < r.end <= |text| && cursor <= p < r.end + |Marks(rest)|
    ensures |Marks(Pieces(text, r, cursor) + rest)| == r.end - cursor + |Marks(rest)|
    ensures Marks(Pieces(text, r, cursor) + rest)[p - cursor]
         == if p < r.end then r.start <= p else Marks(rest)[p - r.end]
  {
    MarksOfRange(text, r, rest, cursor);
  }

  /** A character is highlighted exactly when a kept range covers it. */
  lemma {:induction false} MarkedExactlyWhenKept(text: string, ranges: seq<Range>, cursor: nat, p: nat)
    requires Fit(text, ranges) && cursor <= p < |text|
    ensures |Marks(Cut(text, ranges, cursor))| == |text| - cursor
    ensures Marks(Cut(text, ranges, cursor))[p - cursor] <==> Covered(Kept(ranges, cursor), p)
    decreases |ranges|
  {
    if ranges == [] {
      MarksCons(Segment(text[cursor..], false), []);
    } else if ranges[0].start < cursor {
      MarkedExactlyWhenKept(text, ranges[1..], cursor, p);
    } else {
      var r, rest := ranges[0], ranges[1..];
      MarksFill(text, rest, r.end);
      MarksOfPieces(text, r, Cut(text, rest, r.end), cursor, p);
      CoveredCons(r, Kept(rest, r.end), p);
      if p >= r.end {
        MarkedExactlyWhenKept(text, rest, r.end, p);
      } else {
        NotCoveredBefore(rest, r.end, p);
      }
    }
  }

  lemma NotCoveredBefore(ranges: seq<Range>, cursor: nat, p: nat)
    requires p < cursor && forall i | 0 <= i < |ranges| :: ranges[i].start < ranges[i].end
    ensures !Covered(Kept(ranges, cursor), p)
  {
    KeptStartLater(ranges, cursor);
  }

  lemma {:induction false} MarksFill(text: string, ranges: seq<Range>, cursor: nat)
    requires Fit(text, ranges) && cursor <= |text|
    ensures |Marks(Cut(text, ranges, cursor))| == |text| - cursor
    decreases |ranges|
  {
    if ranges == [] {
      MarksCons(Segment(text[cursor..], false), []);
    } else if ranges[0].start < cursor {
      MarksFill(text, ranges[1..], cursor);
    } else {
      MarksOfRange(text, ranges[0], Cut(text, ranges[1..], ranges[0].end), cursor);
      MarksFill(text, ranges[1..], ranges[0].end);
    }
  }

  /** Of sorted ranges, every one that starts at the cursor or later starts inside a kept one. */
  lemma {:induction false} StartsAreKept(ranges: seq<Range>, cursor: nat, i: nat)
    requires Sorted(ranges) && i < |ranges| && ranges[i].start >= cursor
    requires forall j | 0 <= j < |ranges| :: ranges[j].start < ranges[j].end
    ensures Covered(Kept(ranges, cursor), ranges[i].start)
    decreases |ranges|
  {
    var r, rest, p := ranges[0], ranges[1..], ranges[i].start;
    assert i > 0 ==> rest[i - 1] == ranges[i] && Before(r, ranges[i]);
    if r.start < cursor {
      StartsAreKept(rest, cursor, i - 1);
    } else {
      CoveredCons(r, Kept(rest, r.end), p);
      if p >= r.end {
        StartsAreKept(rest, r.end, i - 1);
      }
    }
  }

  /** No range starts before an earlier one has ended. */
  predicate Apart(ranges: seq<Range>) {
    forall i, j | 0 <= i < j < |ranges| :: ranges[i].end <= ranges[j].start
  }

  lemma {:induction false} ApartAreKept(ranges: seq<Range>, cursor: nat)
    requires Apart(ranges) && forall i | 0 <= i < |ranges| :: cursor <= ranges[i].start
    ensures Kept(ranges, cursor) == ranges
  {
    if ranges != [] {
      ApartAreKept(ranges[1..], ranges[0].end);
      assert ranges == [ranges[0]] + ranges[1..];
    }
  }

  /** A kept range is one of the ranges. */
  lemma {:induction false} KeptAreRanges(ranges: seq<Range>, cursor: nat)
    ensures forall r | r in Kept(ranges, cursor) :: r in ranges
  {
    if ranges != [] {
      KeptAreRanges(ranges[1..], cursor);
      KeptAreRanges(ranges[1..], ranges[0].end);
    }
  }

  // ---- which ranges are kept, without the cursor

  /** It starts earlier, or at the same place and is longer, and reaches into the other. */
  predicate Overtakes(k: Range, r: Range) {
    (k.start < r.start || (k.start == r.start && k.end > r.end)) && r.start < k.end
  }

  /** A choice of ranges: exactly those that no chosen one overtakes. */
  predicate Greedy(ranges: seq<Range>, chosen: set<Range>) {
    && (forall r | r in chosen :: r in ranges)
    && forall r | r in ranges :: r in chosen <==> forall k | k in chosen :: !Overtakes(k, r)
  }

  lemma {:induction false} KeptOrOvertaken(ranges: seq<Range>, cursor: nat, i: nat) returns (k: Range)
    requires Sorted(ranges) && i < |ranges| && ranges[i].start >= cursor
    requires forall j | 0 <= j < |ranges| :: ranges[j].start < ranges[j].end
    ensures k in Kept(ranges, cursor) && (k == ranges[i] || Overtakes(k, ranges[i]))
    decreases |ranges|
  {
    var r, rest := ranges[0], ranges[1..];
    assert i > 0 ==> rest[i - 1] == ranges[i] && Before(r, ranges[i]);
    if r.start < cursor {
      k := KeptOrOvertaken(rest, cursor, i - 1);
    } else if ranges[i].start < r.end {
      k := r;
    } else {
      k := KeptOrOvertaken(rest, r.end, i - 1);
    }
  }

  lemma {:induction false} KeptAreApart(ranges: seq<Range>, cursor: nat)
    requires forall j | 0 <= j < |ranges| :: ranges[j].start < ranges[j].end
    ensures Apart(Kept(ranges, cursor))
    decreases |ranges|
  {
    if ranges != [] {
      KeptAreApart(ranges[1..], cursor);
      KeptAreApart(ranges[1..], ranges[0].end);
      KeptStartLater(ranges[1..], ranges[0].end);
    }
  }

  lemma KeptDoNotOvertake(ranges: seq<Range>, k: Range, r: Range)
    requires forall j | 0 <= j < |ranges| :: ranges[j].start < ranges[j].end
    requires k in Kept(ranges, 0) && r in Kept(ranges, 0)
    ensures !Overtakes(k, r)
  {
    var kept := Kept(ranges, 0);
    KeptAreApart(ranges, 0);
    KeptAreRanges(ranges, 0);
    var i :| 0 <= i < |kept| && kept[i] == k;
    var j :| 0 <= j < |kept| && kept[j] == r;
  }

  /** Exactly the ranges that no kept one overtakes are kept. */
  lemma KeptIsGreedy(ranges: seq<Range>)
    requires Sorted(ranges) && forall j | 0 <= j < |ranges| :: ranges[j].start < ranges[j].end
    ensures Greedy(ranges, set r | r in Kept(ranges, 0))
  {
    KeptAreRanges(ranges, 0);
    var kept := set r | r in Kept(ranges, 0);
    forall r | r in ranges ensures r in kept <==> forall k | k in kept :: !Overtakes(k, r) {
      var i :| 0 <= i < |ranges| && ranges[i] == r;
      var k := KeptOrOvertaken(ranges, 0, i);
      assert k in kept;
      if r in kept {
        forall k | k in kept ensures !Overtakes(k, r) {
          KeptDoNotOvertake(ranges, k, r);
        }
      }
    }
  }

  /** And no other choice is greedy. */
  lemma GreedyIsUnique(ranges: seq<Range>, a: set<Range>, b: set<Range>)
    requires Sorted(ranges) && Greedy(ranges, a) && Greedy(ranges, b)
    ensures a == b
  {
    forall r | r in ranges ensures r in a <==> r in b {
      var i :| 0 <= i < |ranges| && ranges[i] == r;
      GreedyAgree(ranges, a, b, i);
    }
  }

  lemma {:induction false} GreedyAgree(ranges: seq<Range>, a: set<Range>, b: set<Range>, i: nat)
    requires Sorted(ranges) && Greedy(ranges, a) && Greedy(ranges, b) && i < |ranges|
    ensures ranges[i] in a <==> ranges[i] in b
    decreases i
  {
    var r := ranges[i];
    forall k | k in ranges && Overtakes(k, r) ensures k in a <==> k in b {
      var j :| 0 <= j < |ranges| && ranges[j] == k;
      assert j > i ==> Before(r, k);
      GreedyAgree(ranges, a, b, j);
    }
  }

  /** Character p of a text cut along the ranges is highlighted. */
  ghost predicate MarkedAt(text: string, ranges: seq<Range>, p: int)
    requires Fit(text, ranges)
  {
    0 <= p < |Marks(Cut(text, ranges, 0))| && Marks(Cut(text, ranges, 0))[p]
  }

  lemma MarkedAtExactly(text: string, ranges: seq<Range>, p: int)
    requires Fit(text, ranges)
    ensures MarkedAt(text, ranges, p) <==> Covered(Kept(ranges, 0), p)
  {
    MarksFill(text, ranges, 0);
    if 0 <= p < |text| {
      MarkedExactlyWhenKept(text, ranges, 0, p);
    } else {
      KeptAreRanges(ranges, 0);
      forall i | 0 <= i < |Kept(ranges, 0)| ensures !(Kept(ranges, 0)[i].start <= p < Kept(ranges, 0)[i].end) {
        assert Kept(ranges, 0)[i] in ranges;
      }
    }
  }

  // ---- the loop

  /** One turn of the loop. */
  lemma CutStep(text: string, ranges: seq<Range>, i: nat, cursor: nat)
    requires Fit(text, ranges) && i < |ranges| && cursor <= |text|
    ensures Cut(text, ranges[i..], cursor)
         == if ranges[i].start < cursor then Cut(text, ranges[i + 1..], cursor)
            else Pieces(text, ranges[i], cursor) + Cut(text, ranges[i + 1..], ranges[i].end)
  {
    assert ranges[i..][1..] == ranges[i + 1..];
  }

  /** One turn of the loop: a range that starts before the cursor is passed over. */
  method CutOne(text: string, ranges: seq<Range>, i: nat, cursor: nat, before: seq<Segment>)
    returns (segments: seq<Segment>, next: nat)
    requires Fit(text, ranges) && i < |ranges| && cursor <= |text|
    ensures next <= |text|
    ensures segments + Cut(text, ranges[i + 1..], next) == before + Cut(text, ranges[i..], cursor)
  {
    var range := ranges[i];
    segments := before;
    CutStep(text, ranges, i, cursor);
    if range.start < cursor {
      return before, cursor;
    }
    if range.start > cursor {
      segments := segments + [Segment(text[cursor..range.start], false)];
    }
    segments := segments + [Segment(text[range.start..range.end], true)];
    next := range.end;
    assert segments == before + Pieces(text, range, cursor);
  }

  method CutSnippet(text: string, ranges: seq<Range>) returns (segments: seq<Segment>)
    requires Fit(text, ranges)
    ensures segments == Cut(text, ranges, 0)
  {
    segments := [];
    var cursor: nat := 0;
    assert ranges[0..] == ranges;
    for i := 0 to |ranges|
      invariant cursor <= |text| && segments + Cut(text, ranges[i..], cursor) == Cut(text, ranges, 0)
    {
      segments, cursor := CutOne(text, ranges, i, cursor, segments);
    }
    if cursor < |text| {
      segments := segments + [Segment(text[cursor..], false)];
    }
  }

  // ---- sorting

  function Insert(sorted: seq<Range>, r: Range): seq<Range> {
    if sorted == [] then [r]
    else if Before(sorted[|sorted| - 1], r) then sorted + [r]
    else Insert(sorted[..|sorted| - 1], r) + [sorted[|sorted| - 1]]
  }

  /** The ranges in order, equals as they came. */
  function Sort(ranges: seq<Range>): seq<Range> {
    if ranges == [] then [] else Insert(Sort(ranges[..|ranges| - 1]), ranges[|ranges| - 1])
  }

  lemma {:induction false} InsertAdds(sorted: seq<Range>, r: Range)
    ensures multiset(Insert(sorted, r)) == multiset(sorted) + multiset{r}
    ensures forall x | x in Insert(sorted, r) :: x == r || x in sorted
  {
    if sorted != [] {
      var init, last := sorted[..|sorted| - 1], sorted[|sorted| - 1];
      assert sorted == init + [last];
      InsertAdds(init, r);
    }
  }

  lemma {:induction false} InsertLaw(sorted: seq<Range>, r: Range)
    requires Sorted(sorted)
    ensures Sorted(Insert(sorted, r))
  {
    if sorted != [] && !Before(sorted[|sorted| - 1], r) {
      var init, last := sorted[..|sorted| - 1], sorted[|sorted| - 1];
      InsertLaw(init, r);
      InsertAdds(init, r);
      forall x | x in Insert(init, r) ensures Before(x, last) {
      }
    }
  }

  lemma {:induction false} SortLaw(ranges: seq<Range>)
    ensures Sorted(Sort(ranges)) && multiset(Sort(ranges)) == multiset(ranges)
  {
    if ranges != [] {
      var init, last := ranges[..|ranges| - 1], ranges[|ranges| - 1];
      assert multiset(ranges) == multiset(init) + multiset{last} by {
        assert ranges == init + [last];
      }
      SortLaw(init);
      InsertLaw(Sort(init), last);
      InsertAdds(Sort(init), last);
    }
  }

  /** Ranges that come apart are in order already. */
  lemma {:induction false} ApartIsSorted(ranges: seq<Range>)
    requires Apart(ranges) && forall i | 0 <= i < |ranges| :: ranges[i].start < ranges[i].end
    ensures Sort(ranges) == ranges
  {
    if ranges != [] {
      ApartIsSorted(ranges[..|ranges| - 1]);
      assert ranges == ranges[..|ranges| - 1] + [ranges[|ranges| - 1]];
    }
  }
}
