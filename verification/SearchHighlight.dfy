/** A search snippet with the terms of its query highlighted. Lower case keeps the length of a text here. */
module SearchHighlight {
  import opened Prelude
  import opened SearchSegments
  import opened SearchTerms

  predicate Occurs(text: string, needle: string, p: int) {
    0 <= p && p + |needle| <= |text| && text[p..][..|needle|] == needle
  }

  /** The first occurrence at `from` or later. */
  function IndexOf(text: string, needle: string, from: nat): (index: Option<nat>)
    ensures index.Some? ==> from <= index.value && Occurs(text, needle, index.value)
    ensures index.Some? ==> forall p | from <= p < index.value :: !Occurs(text, needle, p)
    ensures index.None? ==> forall p | from <= p :: !Occurs(text, needle, p)
    decreases |text| - from
  {
    if from + |needle| > |text| then None
    else if Occurs(text, needle, from) then Some(from)
    else if from == |text| then None
    else IndexOf(text, needle, from + 1)
  }

  /** The occurrences found by going on after the end of each. */
  function Scan(text: string, needle: string, from: nat): (ranges: seq<Range>)
    requires needle != ""
    decreases |text| - from
  {
    match IndexOf(text, needle, from)
    case None => []
    case Some(p) => [Range(p, p + |needle|)] + Scan(text, needle, p + |needle|)
  }

  lemma ScanStep(text: string, needle: string, from: nat, p: nat, end: nat)
    requires needle != "" && IndexOf(text, needle, from) == Some(p) && end == p + |needle|
    ensures Scan(text, needle, from) == [Range(p, end)] + Scan(text, needle, end)
  {
  }

  method ScanTerm(text: string, needle: string) returns (ranges: seq<Range>)
    requires needle != ""
    ensures ranges == Scan(text, needle, 0)
  {
    ranges := [];
    var from: nat := 0;
    var index := IndexOf(text, needle, from);
    while index.Some?
      invariant index == IndexOf(text, needle, from)
      invariant ranges + Scan(text, needle, from) == Scan(text, needle, 0)
      decreases |text| - from
    {
      var p := index.value;
      var end := p + |needle|;
      ScanStep(text, needle, from, p, end);
      ghost var found, rest := ranges, Scan(text, needle, end);
      ranges := ranges + [Range(p, end)];
      assert found + ([Range(p, end)] + rest) == ranges + rest;
      from := end;
      index := IndexOf(text, needle, from);
    }
  }

  /** Every occurrence starts inside one that was found. */
  lemma {:induction false} ScanFindsAll(text: string, needle: string, from: nat, p: nat) returns (r: Range)
    requires needle != "" && from <= p && Occurs(text, needle, p)
    ensures r in Scan(text, needle, from) && r.start <= p < r.end && r.end == r.start + |needle|
    ensures Occurs(text, needle, r.start)
    decreases |text| - from
  {
    var q := IndexOf(text, needle, from).value;
    r := Range(q, q + |needle|);
    if p >= r.end {
      r := ScanFindsAll(text, needle, q + |needle|, p);
    }
  }

  lemma {:induction false} ScanIsSound(text: string, needle: string, from: nat)
    requires needle != ""
    ensures forall i | 0 <= i < |Scan(text, needle, from)| ::
              var r := Scan(text, needle, from)[i];
              from <= r.start < r.end <= |text| && r.end == r.start + |needle| && Occurs(text, needle, r.start)
    ensures forall i, j | 0 <= i < j < |Scan(text, needle, from)| ::
              Scan(text, needle, from)[i].end <= Scan(text, needle, from)[j].start
    decreases |text| - from
  {
    var index := IndexOf(text, needle, from);
    if index.Some? {
      ScanIsSound(text, needle, index.value + |needle|);
    }
  }

  // ---- all terms

  function ScanOf(lower: char -> char, text: string): string -> seq<Range> {
    (term: string) => if term == "" then [] else Scan(Lower(lower, text), Lower(lower, term), 0)
  }

  /** The ranges of all terms, or without any the part the server matched. */
  function Ranges(lower: char -> char, before: string, primary: string, after: string, terms: seq<string>): seq<Range> {
    var found := FlatMap(ScanOf(lower, before + primary + after), terms);
    if found == [] && primary != "" then [Range(|before|, |before| + |primary|)] else found
  }

  lemma RangesFit(lower: char -> char, before: string, primary: string, after: string, terms: seq<string>)
    ensures forall r | r in Ranges(lower, before, primary, after, terms) ::
              r.start < r.end <= |before + primary + after|
  {
    var text := before + primary + after;
    forall r | r in FlatMap(ScanOf(lower, text), terms) ensures r.start < r.end <= |text| {
      FlatMapHas(ScanOf(lower, text), terms, r);
      var k :| 0 <= k < |terms| && r in ScanOf(lower, text)(terms[k]);
      ScanIsSound(Lower(lower, text), Lower(lower, terms[k]), 0);
    }
  }

  /** The ranges of a query on a snippet, in the order they are cut. */
  function InOrder(lower: char -> char, before: string, primary: string, after: string, query: string): seq<Range> {
    Sort(Ranges(lower, before, primary, after, Terms(lower, query)))
  }

  lemma SortedFit(lower: char -> char, before: string, primary: string, after: string, query: string)
    ensures Sorted(InOrder(lower, before, primary, after, query))
    ensures Fit(before + primary + after, InOrder(lower, before, primary, after, query))
    ensures forall r :: r in InOrder(lower, before, primary, after, query)
                        <==> r in Ranges(lower, before, primary, after, Terms(lower, query))
  {
    var ranges := Ranges(lower, before, primary, after, Terms(lower, query));
    RangesFit(lower, before, primary, after, Terms(lower, query));
    SortLaw(ranges);
    forall r ensures r in Sort(ranges) <==> r in ranges {
      assert r in multiset(Sort(ranges)) <==> r in multiset(ranges);
    }
  }

  function Highlight(lower: char -> char, before: string, primary: string, after: string, query: string): seq<Segment> {
    SortedFit(lower, before, primary, after, query);
    Cut(before + primary + after, InOrder(lower, before, primary, after, query), 0)
  }

  /** The ranges of all terms, term by term. */
  method ScanTerms(lower: char -> char, text: string, terms: seq<string>) returns (ranges: seq<Range>)
    requires forall i | 0 <= i < |terms| :: terms[i] != ""
    ensures ranges == FlatMap(ScanOf(lower, text), terms)
  {
    var normalized := Lower(lower, text);
    ranges := [];
    for i := 0 to |terms|
      invariant ranges == FlatMap(ScanOf(lower, text), terms[..i])
    {
      PrefixStep(terms, i);
      FlatMapAppend(ScanOf(lower, text), terms[..i], terms[i]);
      var found := ScanTerm(normalized, Lower(lower, terms[i]));
      ranges := ranges + found;
    }
    assert terms[..|terms|] == terms;
  }

  method HighlightSearchSnippet(lower: char -> char, before: string, primary: string, after: string, query: string)
    returns (segments: seq<Segment>)
    ensures segments == Highlight(lower, before, primary, after, query)
  {
    var text := before + primary + after;
    var terms := SearchTerms.SearchTerms(lower, query);
    TermsAreProper(lower, query);
    var ranges := ScanTerms(lower, text, terms);
    if ranges == [] && primary != "" {
      ranges := [Range(|before|, |before| + |primary|)];
    }
    SortedFit(lower, before, primary, after, query);
    segments := CutSnippet(text, Sort(ranges));
  }

  // ---- what is highlighted

  /** Nothing of the snippet is lost and no segment is empty. */
  lemma SegmentsMakeTheSnippet(lower: char -> char, before: string, primary: string, after: string, query: string)
    ensures TextOf(Highlight(lower, before, primary, after, query)) == before + primary + after
    ensures NoneEmpty(Highlight(lower, before, primary, after, query))
  {
    SortedFit(lower, before, primary, after, query);
    CutLosesNothing(before + primary + after, InOrder(lower, before, primary, after, query), 0);
  }

  /** The query on the snippet, and what comes of it. */
  datatype Search = Search(lower: char -> char, before: string, primary: string, after: string, query: string)

  function TextOfSearch(s: Search): string {
    s.before + s.primary + s.after
  }

  function RangesOf(s: Search): seq<Range> {
    InOrder(s.lower, s.before, s.primary, s.after, s.query)
  }

  predicate TermOccurs(s: Search, term: string, p: int) {
    Occurs(Lower(s.lower, TextOfSearch(s)), Lower(s.lower, term), p)
  }

  ghost predicate Highlighted(s: Search, p: int) {
    SortedFit(s.lower, s.before, s.primary, s.after, s.query);
    MarkedAt(TextOfSearch(s), RangesOf(s), p)
  }

  lemma HighlightedExactlyWhenKept(s: Search, p: int)
    ensures Highlighted(s, p) <==> Covered(Kept(RangesOf(s), 0), p)
  {
    SortedFit(s.lower, s.before, s.primary, s.after, s.query);
    MarkedAtExactly(TextOfSearch(s), RangesOf(s), p);
  }

  /** The range of a found occurrence is among those of the search. */
  lemma RangeOfOccurrence(s: Search, term: string, p: int) returns (r: Range)
    requires term in Terms(s.lower, s.query) && TermOccurs(s, term, p)
    ensures r in RangesOf(s) && r.start <= p < r.end && r.end == r.start + |term| && TermOccurs(s, term, r.start)
  {
    var terms, text := Terms(s.lower, s.query), TextOfSearch(s);
    TermsAreProper(s.lower, s.query);
    r := ScanFindsAll(Lower(s.lower, text), Lower(s.lower, term), 0, p);
    FlatMapHas(ScanOf(s.lower, text), terms, r);
    assert r in ScanOf(s.lower, text)(term);
    SortedFit(s.lower, s.before, s.primary, s.after, s.query);
  }

  /** Every found range starts inside a highlighted one. */
  lemma StartIsHighlighted(s: Search, r: Range)
    requires r in RangesOf(s)
    ensures Highlighted(s, r.start)
  {
    SortedFit(s.lower, s.before, s.primary, s.after, s.query);
    var i :| 0 <= i < |RangesOf(s)| && RangesOf(s)[i] == r;
    StartsAreKept(RangesOf(s), 0, i);
    HighlightedExactlyWhenKept(s, r.start);
  }

  /** No term of the text goes unnoticed: each occurrence starts inside one whose first character is highlighted. */
  lemma EveryOccurrenceIsTouched(s: Search, term: string, p: int)
    requires term in Terms(s.lower, s.query) && TermOccurs(s, term, p)
    ensures exists q :: q <= p < q + |term| && TermOccurs(s, term, q) && Highlighted(s, q)
  {
    var r := RangeOfOccurrence(s, term, p);
    StartIsHighlighted(s, r);
  }

  /** A text does not overlap itself. */
  predicate Unbordered(needle: string) {
    forall k | 0 < k < |needle| :: needle[k..] != needle[..|needle| - k]
  }

  lemma OverlapIsBorder(text: string, needle: string, q: int, p: int)
    requires Occurs(text, needle, q) && Occurs(text, needle, p) && q <= p < q + |needle|
    ensures needle[p - q..] == needle[..|needle| - (p - q)]
  {
    var k := p - q;
    forall i | 0 <= i < |needle| - k ensures needle[k..][i] == needle[..|needle| - k][i] {
      assert needle[k..][i] == text[q..][..|needle|][k + i];
      assert needle[..|needle| - k][i] == text[p..][..|needle|][i];
    }
  }

  /** The first character of every occurrence is highlighted, for terms that cannot overlap themselves. */
  lemma UnborderedTermsAreHighlighted(s: Search, term: string, p: int)
    requires term in Terms(s.lower, s.query) && TermOccurs(s, term, p) && Unbordered(Lower(s.lower, term))
    ensures Highlighted(s, p)
  {
    var r := RangeOfOccurrence(s, term, p);
    OverlapIsBorder(Lower(s.lower, TextOfSearch(s)), Lower(s.lower, term), r.start, p);
    StartIsHighlighted(s, r);
  }

  /** The occurrences found of a single term come apart. */
  lemma SingleTermIsApart(s: Search, term: string)
    requires Terms(s.lower, s.query) == [term]
    ensures Apart(RangesOf(s))
  {
    TermsAreProper(s.lower, s.query);
    assert Terms(s.lower, s.query)[0] == term;
    OneTermRanges(s.lower, s.before, s.primary, s.after, term);
    ApartIsSorted(Ranges(s.lower, s.before, s.primary, s.after, [term]));
  }

  lemma OneTermRanges(lower: char -> char, before: string, primary: string, after: string, term: string)
    requires term != ""
    ensures var ranges := Ranges(lower, before, primary, after, [term]);
            Apart(ranges) && forall i | 0 <= i < |ranges| :: ranges[i].start < ranges[i].end
  {
    var text := before + primary + after;
    FlatMapOne(ScanOf(lower, text), term);
    ScanIsSound(Lower(lower, text), Lower(lower, term), 0);
  }

  /** And for any terms, when no two of the found occurrences overlap. */
  lemma ApartOccurrencesAreHighlighted(s: Search, term: string, p: int)
    requires term in Terms(s.lower, s.query) && TermOccurs(s, term, p) && Apart(RangesOf(s))
    ensures Highlighted(s, p)
  {
    var r := RangeOfOccurrence(s, term, p);
    ApartAreKept(RangesOf(s), 0);
    var i :| 0 <= i < |RangesOf(s)| && RangesOf(s)[i] == r;
    HighlightedExactlyWhenKept(s, p);
  }

  /** A highlighted character lies in a range. */
  lemma RangeOfHighlighted(s: Search, p: int) returns (r: Range)
    requires Highlighted(s, p)
    ensures r in Ranges(s.lower, s.before, s.primary, s.after, Terms(s.lower, s.query)) && r.start <= p < r.end
  {
    HighlightedExactlyWhenKept(s, p);
    KeptAreRanges(RangesOf(s), 0);
    SortedFit(s.lower, s.before, s.primary, s.after, s.query);
    var i :| 0 <= i < |Kept(RangesOf(s), 0)| && Kept(RangesOf(s), 0)[i].start <= p < Kept(RangesOf(s), 0)[i].end;
    r := Kept(RangesOf(s), 0)[i];
  }

  /** A found range is an occurrence of a term. */
  lemma TermOfRange(s: Search, r: Range) returns (term: string)
    requires r in FlatMap(ScanOf(s.lower, TextOfSearch(s)), Terms(s.lower, s.query))
    ensures term in Terms(s.lower, s.query) && TermOccurs(s, term, r.start) && r.end == r.start + |term|
  {
    var terms, text := Terms(s.lower, s.query), TextOfSearch(s);
    FlatMapHas(ScanOf(s.lower, text), terms, r);
    var k :| 0 <= k < |terms| && r in ScanOf(s.lower, text)(terms[k]);
    ScanIsSound(Lower(s.lower, text), Lower(s.lower, terms[k]), 0);
    term := terms[k];
  }

  /** Only terms are highlighted, or, when none occurs, what the server matched. */
  lemma OnlyTermsAreHighlighted(s: Search, p: int)
    requires Highlighted(s, p)
    ensures (exists term, q :: term in Terms(s.lower, s.query) && TermOccurs(s, term, q) && q <= p < q + |term|)
         || (|s.before| <= p < |s.before| + |s.primary|
             && forall term, q | term in Terms(s.lower, s.query) :: !TermOccurs(s, term, q))
  {
    var r := RangeOfHighlighted(s, p);
    if r in FlatMap(ScanOf(s.lower, TextOfSearch(s)), Terms(s.lower, s.query)) {
      var term := TermOfRange(s, r);
    } else {
      forall term, q | term in Terms(s.lower, s.query) ensures !TermOccurs(s, term, q) {
        if TermOccurs(s, term, q) {
          OccurrenceIsFound(s, term, q);
        }
      }
    }
  }

  lemma OccurrenceIsFound(s: Search, term: string, p: int)
    requires term in Terms(s.lower, s.query) && TermOccurs(s, term, p)
    ensures FlatMap(ScanOf(s.lower, TextOfSearch(s)), Terms(s.lower, s.query)) != []
  {
    var text := TextOfSearch(s);
    TermsAreProper(s.lower, s.query);
    var r := ScanFindsAll(Lower(s.lower, text), Lower(s.lower, term), 0, p);
    FlatMapHas(ScanOf(s.lower, text), Terms(s.lower, s.query), r);
    assert r in ScanOf(s.lower, text)(term);
  }

  lemma NothingFound(s: Search)
    requires NothingOccurs(s)
    ensures FlatMap(ScanOf(s.lower, TextOfSearch(s)), Terms(s.lower, s.query)) == []
  {
    var found := FlatMap(ScanOf(s.lower, TextOfSearch(s)), Terms(s.lower, s.query));
    if found != [] {
      assert found[0] in found;
      var term := TermOfRange(s, found[0]);
      assert false;
    }
  }

  lemma CoveredByOne(ranges: seq<Range>, before: nat, length: nat, p: int)
    requires ranges == if length == 0 then [] else [Range(before, before + length)]
    ensures Covered(ranges, p) <==> before <= p < before + length
  {
    if length > 0 {
      assert ranges[0] == Range(before, before + length);
    }
  }

  ghost predicate NothingOccurs(s: Search) {
    forall term, q | term in Terms(s.lower, s.query) :: !TermOccurs(s, term, q)
  }

  lemma NothingKeepsMatch(s: Search)
    requires NothingOccurs(s)
    ensures Kept(RangesOf(s), 0)
         == if s.primary == "" then [] else [Range(|s.before|, |s.before| + |s.primary|)]
  {
    NothingFound(s);
    OnlyMatch(s);
  }

  lemma KeptMatchIsHighlighted(s: Search, p: int, kept: seq<Range>)
    requires kept == Kept(RangesOf(s), 0)
    requires kept == if s.primary == "" then [] else [Range(|s.before|, |s.before| + |s.primary|)]
    ensures Highlighted(s, p) <==> |s.before| <= p < |s.before| + |s.primary|
  {
    HighlightedExactlyWhenKept(s, p);
    CoveredByOne(kept, |s.before|, |s.primary|, p);
  }

  /** When no term occurs, what the server matched is highlighted, all of it and nothing else. */
  lemma MatchWhenNothingOccurs(s: Search, p: int)
    requires NothingOccurs(s)
    ensures Highlighted(s, p) <==> |s.before| <= p < |s.before| + |s.primary|
  {
    NothingKeepsMatch(s);
    KeptMatchIsHighlighted(s, p, Kept(RangesOf(s), 0));
  }

  lemma SortOfOne(r: Range)
    ensures Sort([r]) == [r] && Kept([r], 0) == [r] && Sort([]) == [] && Kept([], 0) == []
  {
    assert [r][..0] == [] && [r][1..] == [];
    assert Insert([], r) == [r];
    assert Kept([r][1..], r.end) == [];
  }

  lemma SortOfMatch(lower: char -> char, before: string, primary: string, after: string, terms: seq<string>)
    requires FlatMap(ScanOf(lower, before + primary + after), terms) == []
    ensures Kept(Sort(Ranges(lower, before, primary, after, terms)), 0)
         == if primary == "" then [] else [Range(|before|, |before| + |primary|)]
  {
    SortOfOne(Range(|before|, |before| + |primary|));
  }

  lemma OnlyMatch(s: Search)
    requires FlatMap(ScanOf(s.lower, TextOfSearch(s)), Terms(s.lower, s.query)) == []
    ensures Kept(RangesOf(s), 0)
         == if s.primary == "" then [] else [Range(|s.before|, |s.before| + |s.primary|)]
  {
    SortOfMatch(s.lower, s.before, s.primary, s.after, Terms(s.lower, s.query));
  }

  /** An occurrence that starts inside a passed-over occurrence of the same term. */
  ghost predicate InPassedOver(s: Search, term: string, p: int) {
    TermOccurs(s, term, p) &&
    exists r :: r in RangesOf(s) && r !in Kept(RangesOf(s), 0) && r.start < p < r.end && r.end == r.start + |term|
                && TermOccurs(s, term, r.start)
  }

  /** The first character of an occurrence stays plain exactly when it is in a passed-over range and in no kept one. */
  lemma MissedExactlyWhenPassedOver(s: Search, term: string, p: int)
    requires term in Terms(s.lower, s.query) && TermOccurs(s, term, p)
    ensures !Highlighted(s, p) <==> InPassedOver(s, term, p) && !Covered(Kept(RangesOf(s), 0), p)
  {
    HighlightedExactlyWhenKept(s, p);
    var r := RangeOfOccurrence(s, term, p);
    if p == r.start {
      StartIsHighlighted(s, r);
    }
  }

  /**
   The first character of every occurrence of every term is highlighted exactly when each occurrence that
   starts inside a passed-over range of its own term also starts inside a kept range.
   */
  lemma AllHighlightedExactlyWhenRecovered(s: Search)
    ensures (forall term, p | term in Terms(s.lower, s.query) && TermOccurs(s, term, p) :: Highlighted(s, p))
       <==> (forall term, p | term in Terms(s.lower, s.query) && InPassedOver(s, term, p) ::
               Covered(Kept(RangesOf(s), 0), p))
  {
    forall term, p | term in Terms(s.lower, s.query) && TermOccurs(s, term, p)
      ensures !Highlighted(s, p) <==> InPassedOver(s, term, p) && !Covered(Kept(RangesOf(s), 0), p)
    {
      MissedExactlyWhenPassedOver(s, term, p);
    }
  }

  /** The kept ranges of a search are the greedy choice of those found. */
  lemma KeptOfSearch(s: Search, chosen: set<Range>)
    ensures Greedy(RangesOf(s), chosen) <==> chosen == set r | r in Kept(RangesOf(s), 0)
  {
    SortedFit(s.lower, s.before, s.primary, s.after, s.query);
    KeptIsGreedy(RangesOf(s));
    if Greedy(RangesOf(s), chosen) {
      GreedyIsUnique(RangesOf(s), chosen, set r | r in Kept(RangesOf(s), 0));
    }
  }

  // ---- two terms, one of which can overlap itself

  function Same(c: char): char {
    c
  }

  lemma LowerSame(s: string)
    ensures Lower(Same, s) == s
  {
  }

  lemma RangesOfXababa(text: string, terms: seq<string>)
    requires text == "xababa" && terms == ["xab"] + ["aba"]
    ensures Ranges(Same, text, "", "", terms) == [Range(0, 3), Range(1, 4)]
    ensures Occurs(Lower(Same, text), Lower(Same, "aba"), 3)
  {
    LowerSame(text);
    LowerSame("xab");
    LowerSame("aba");
    ScansOfXababa();
    NothingAdded(text);
    var scan := ScanOf(Same, text);
    FlatMapOne(scan, "xab");
    FlatMapAppend(scan, ["xab"], "aba");
    Pair(Range(0, 3), Range(1, 4));
  }

  lemma SearchOfXababa(text: string, query: string) returns (s: Search)
    requires text == "xababa" && query == "xab" + (" " + "aba")
    ensures Terms(s.lower, s.query) == ["xab"] + ["aba"] && TermOccurs(s, "aba", 3)
    ensures RangesOf(s) == [Range(0, 3), Range(1, 4)]
  {
    s := Search(Same, text, "", "", query);
    LowerSame("xab");
    LowerSame("aba");
    TwoWordsAreTerms(Same, "xab", "aba");
    RangesOfXababa(text, Terms(Same, query));
    TwoSorted(Range(0, 3), Range(1, 4));
    NothingAdded(text);
  }

  /** In "xababa", asked for "xab" and "aba", the second "aba" is not highlighted, not even its first character. */
  lemma OverlappingTermIsMissed() returns (s: Search)
    ensures Terms(s.lower, s.query) == ["xab"] + ["aba"] && TermOccurs(s, "aba", 3) && !Highlighted(s, 3)
  {
    s := SearchOfXababa("xababa", "xab" + (" " + "aba"));
    TwoSorted(Range(0, 3), Range(1, 4));
    HighlightedExactlyWhenKept(s, 3);
  }

  lemma TwoSorted(a: Range, b: Range)
    requires Before(a, b) && b.start < a.end
    ensures Sort([a, b]) == [a, b] && Kept([a, b], 0) == [a]
  {
    assert [a, b][..1] == [a] && [a][..0] == [];
    assert Sort([a]) == Insert([], a) == [a];
    assert Insert([a], b) == [a] + [b] == [a, b];
    assert [a, b][1..] == [b] && [b][1..] == [];
    assert Kept([b], a.end) == [];
    assert [a] + [] == [a];
  }

  lemma ScansOfXababa()
    ensures Scan("xababa", "xab", 0) == [Range(0, 3)] && Scan("xababa", "aba", 0) == [Range(1, 4)]
    ensures Occurs("xababa", "aba", 3)
  {
    var text := "xababa";
    assert text[0..][..3] == "xab" && text[1..][..3] == "aba" && text[3..][..3] == "aba" && text[0..][..3] != "aba";
    assert Occurs(text, "xab", 0) && Occurs(text, "aba", 1) && !Occurs(text, "aba", 0);
    assert !Occurs(text, "xab", 3) && !Occurs(text, "aba", 4);
    ScanStep(text, "xab", 0, 0, 3);
    ScanStep(text, "aba", 0, 1, 4);
    assert IndexOf(text, "xab", 3).None? && IndexOf(text, "aba", 4).None?;
  }
}
