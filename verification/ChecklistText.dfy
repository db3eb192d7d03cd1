/**
 The lines of a Markdown plan and the pattern of a checklist line, matched the way a backtracking
 engine matches it, and the rewriting of a matched line (section 22.2 of ECMA-262).
 */
module ChecklistText {
  import opened Prelude

  // ---- characters

  /** `.`: anything but a line terminator. */
  predicate Dot(c: char) {
    c != '\n' && c != '\r' && c != '\U{2028}' && c != '\U{2029}'
  }

  predicate Bullet(c: char) {
    c == '-' || c == '*' || c == '+'
  }

  predicate Box(c: char) {
    c == ' ' || c == 'x' || c == 'X'
  }

  predicate Digit(c: char) {
    '0' <= c <= '9'
  }

  // ---- the pattern

  /** How many characters a greedy `\s*` takes. */
  function Spaces(s: string): (n: nat)
    ensures n <= |s| && (forall i | 0 <= i < n :: Space(s[i])) && (n < |s| ==> !Space(s[n]))
  {
    if s == [] || !Space(s[0]) then 0 else 1 + Spaces(s[1..])
  }

  /** How many characters a greedy `\d*` takes. */
  function Digits(s: string): (n: nat)
    ensures n <= |s| && (forall i | 0 <= i < n :: Digit(s[i])) && (n < |s| ==> !Digit(s[n]))
  {
    if s == [] || !Digit(s[0]) then 0 else 1 + Digits(s[1..])
  }

  /** `[-*+] ` or `\d+[.)] `. */
  function MarkerEnd(s: string): (end: Option<nat>)
    ensures end.Some? ==> 0 < end.value <= |s| && !Space(s[0])
  {
    if |s| >= 2 && Bullet(s[0]) && s[1] == ' ' then Some(2)
    else
      var d := Digits(s);
      if 0 < d && d + 1 < |s| && (s[d] == '.' || s[d] == ')') && s[d + 1] == ' ' then Some(d + 2) else None
  }

  /** `\s*` and the marker: nothing to backtrack, a marker does not start with white space. */
  function PrefixEnd(s: string): (end: Option<nat>)
    ensures end.Some? ==> 0 < end.value <= |s|
  {
    var i := Spaces(s);
    match MarkerEnd(s[i..])
    case None => None
    case Some(m) => Some(i + m)
  }

  /** `(.+?)\s*$`, having taken t characters: the lazy group grows until only white space is left. */
  function Lazy(s: string, t: nat): (end: Option<nat>)
    requires t <= |s|
    ensures end.Some? ==> 1 <= end.value <= |s|
    decreases |s| - t
  {
    if t >= 1 && AllSpace(s[t..]) then Some(t)
    else if t < |s| && Dot(s[t]) then Lazy(s, t + 1)
    else None
  }

  datatype Cut = Cut(gap: nat, text: nat)

  /** `\s+(.+?)\s*$`, the greedy gap giving back white space while the text does not match. */
  function Gap(s: string, g: nat): (cut: Option<Cut>)
    requires g <= |s|
    ensures cut.Some? ==> 1 <= cut.value.gap <= g && 1 <= cut.value.text && cut.value.gap + cut.value.text <= |s|
  {
    if g == 0 then None
    else if Lazy(s[g..], 0).Some? then Some(Cut(g, Lazy(s[g..], 0).value))
    else Gap(s, g - 1)
  }

  datatype Match = Match(prefix: string, mark: char, gap: string, text: string)

  function GapAndText(prefix: string, mark: char, rest: string): Option<Match> {
    match Gap(rest, Spaces(rest))
    case None => None
    case Some(Cut(g, t)) => Some(Match(prefix, mark, rest[..g], rest[g..][..t]))
  }

  /** The box and what follows it, after a prefix of p characters. */
  function AfterPrefix(line: string, p: nat): Option<Match>
    requires p <= |line|
  {
    if p + 3 <= |line| && line[p] == '[' && Box(line[p + 1]) && line[p + 2] == ']'
    then GapAndText(line[..p], line[p + 1], line[p + 3..]) else None
  }

  function Parse(line: string): Option<Match> {
    match PrefixEnd(line)
    case None => None
    case Some(p) => AfterPrefix(line, p)
  }

  /** A matched line with its box checked: what followed the text is dropped. */
  function Rewrite(m: Match): string {
    m.prefix + "[x]" + m.gap + m.text
  }

  // ---- what the pattern finds

  /** The lazy group may end after t characters. */
  predicate Fits(s: string, t: int) {
    && 1 <= t <= |s| && AllSpace(s[t..])
    && forall i | 0 <= i < t :: s[i] != '\n' && s[i] != '\r' && s[i] != '\U{2028}' && s[i] != '\U{2029}'
  }

  predicate Least(s: string, t: int) {
    Fits(s, t) && forall u | 0 <= u < t :: !Fits(s, u)
  }

  /** No text is to be found. */
  predicate Barren(s: string) {
    forall u | 0 <= u <= |s| :: !Fits(s, u)
  }

  lemma {:induction false} LazyLaw(s: string, t: nat)
    requires t <= |s| && (forall i | 0 <= i < t :: Dot(s[i])) && (forall u | 0 <= u < t :: !Fits(s, u))
    ensures match Lazy(s, t)
            case Some(n) => Least(s, n)
            case None => Barren(s)
    decreases |s| - t
  {
    if t >= 1 && AllSpace(s[t..]) {
    } else if t < |s| && Dot(s[t]) {
      LazyLaw(s, t + 1);
    } else if t < |s| {
      assert forall u | t < u <= |s| :: !Fits(s, u);
    }
  }

  /** What is cut off after the text is white space. */
  lemma {:induction false} CutIsSpace(s: string, g: nat)
    requires g <= |s| && Gap(s, g).Some?
    ensures var Cut(a, t) := Gap(s, g).value; AllSpace(s[a + t..])
  {
    if g > 0 {
      LazyLaw(s[g..], 0);
      var text := Lazy(s[g..], 0);
      if text.Some? {
        assert s[g..][text.value..] == s[g + text.value..];
      } else {
        CutIsSpace(s, g - 1);
      }
    }
  }

  /** Backtracking finds the longest gap that leaves a text, and then the shortest text. */
  lemma {:induction false} GapLaw(s: string, g: nat)
    requires g <= |s| && forall i | 0 <= i < g :: Space(s[i])
    ensures match Gap(s, g)
            case Some(Cut(a, t)) => 1 <= a <= g && Least(s[a..], t) && forall b | a < b <= g :: Barren(s[b..])
            case None => forall b | 1 <= b <= g :: Barren(s[b..])
  {
    if g > 0 {
      LazyLaw(s[g..], 0);
      GapLaw(s, g - 1);
    }
  }

  lemma FitsCut(s: string, n: nat, b: nat, u: int)
    requires n <= |s| && AllSpace(s[n..]) && b <= n && b + u <= n
    ensures Fits(s[..n][b..], u) <==> Fits(s[b..], u)
  {
    var short, long := s[..n][b..], s[b..];
    if 1 <= u {
      assert forall i | 0 <= i < u :: short[i] == long[i];
      assert forall i | 0 <= i < n - b - u :: short[u..][i] == long[u..][i];
      assert forall i | n - b - u <= i < |s| - b - u :: long[u..][i] == s[n..][i + b + u - n];
    }
  }

  lemma BarrenCut(s: string, n: nat, b: nat)
    requires n <= |s| && AllSpace(s[n..]) && b <= n && Barren(s[b..])
    ensures Barren(s[..n][b..])
  {
    var cut := s[..n][b..];
    forall u | 0 <= u <= |cut| ensures !Fits(cut, u) {
      FitsCut(s, n, b, u);
    }
  }

  lemma LeastCut(s: string, n: nat, b: nat, t: nat)
    requires n <= |s| && AllSpace(s[n..]) && b + t <= n && Least(s[b..], t)
    ensures Least(s[..n][b..], t)
  {
    var cut := s[..n][b..];
    FitsCut(s, n, b, t);
    forall u | 0 <= u < t ensures !Fits(cut, u) {
      FitsCut(s, n, b, u);
    }
  }

  lemma BarrenHasNone(s: string, t: int)
    ensures !(Barren(s) && Least(s, t))
  {
  }

  lemma GapFound(s: string, g: int, t: int)
    requires 1 <= g <= Spaces(s) && Least(s[g..], t) && forall b | g < b <= Spaces(s) :: Barren(s[b..])
    ensures Gap(s, Spaces(s)) == Some(Cut(g, t))
  {
    BarrenHasNone(s[g..], t);
    GapLaw(s, Spaces(s));
    var Cut(a, n) := Gap(s, Spaces(s)).value;
    BarrenHasNone(s[a..], n);
    assert a == g;
  }

  lemma GapMissing(s: string)
    requires forall b | 1 <= b <= Spaces(s) :: Barren(s[b..])
    ensures Gap(s, Spaces(s)) == None
  {
    GapLaw(s, Spaces(s));
  }

  lemma {:induction false} SpacesOfCut(s: string, n: nat)
    requires n <= |s|
    ensures Spaces(s[..n]) <= Spaces(s)
  {
    if n > 0 && Space(s[0]) {
      SpacesOfCut(s[1..], n - 1);
      assert s[..n][1..] == s[1..][..n - 1];
    }
  }

  /** White space after the text plays no part in where the gap and the text are found. */
  lemma GapIgnoresTail(s: string, n: nat)
    requires n <= |s| && AllSpace(s[n..])
    requires var found := Gap(s, Spaces(s)); found.Some? ==> found.value.gap + found.value.text <= n
    ensures Gap(s[..n], Spaces(s[..n])) == Gap(s, Spaces(s))
  {
    var cut := s[..n];
    var long, short := Spaces(s), Spaces(cut);
    SpacesOfCut(s, n);
    GapLaw(s, long);
    var found := Gap(s, long);
    var least := if found.Some? then found.value.gap else 0;
    forall b | least < b <= short ensures Barren(cut[b..]) {
      assert Barren(s[b..]);
      BarrenCut(s, n, b);
    }
    if found.None? {
      GapMissing(cut);
    } else {
      var Cut(g, t) := found.value;
      LeastCut(s, n, g, t);
      assert g <= short by {
        assert forall i | 0 <= i < g :: Space(s[i]) && s[i] == cut[i];
      }
      GapFound(cut, g, t);
    }
  }

  // ---- the pattern as a language

  predicate IsMarker(m: string) {
    || m == "- " || m == "* " || m == "+ "
    || (|m| >= 3 && (forall i | 0 <= i < |m| - 2 :: '0' <= m[i] <= '9')
        && (m[|m| - 2] == '.' || m[|m| - 2] == ')') && m[|m| - 1] == ' ')
  }

  /** A line taken apart as the pattern says, however the parts were found. */
  predicate Reads(line: string, indent: string, marker: string, mark: char, gap: string, text: string, tail: string) {
    && line == indent + marker + ['[', mark, ']'] + (gap + text + tail)
    && AllSpace(indent) && IsMarker(marker) && (mark == ' ' || mark == 'x' || mark == 'X')
    && gap != "" && AllSpace(gap) && Fits(text + tail, |text|)
  }

  lemma MarkerFound(s: string, marker: string)
    requires IsMarker(marker) && marker <= s
    ensures MarkerEnd(s) == Some(|marker|) && !Space(s[0])
  {
    assert forall i | 0 <= i < |marker| :: s[i] == marker[i];
    if !Bullet(marker[0]) {
      assert !Digit(s[|marker| - 2]);
      assert Digits(s) == |marker| - 2;
    }
  }

  lemma PrefixInTwo(line: string, indent: string, marker: string)
    requires indent + marker <= line
    ensures marker <= line[|indent|..] && forall k | 0 <= k < |indent| :: line[k] == indent[k]
  {
    var whole := indent + marker;
    assert forall k | 0 <= k < |whole| :: line[k] == whole[k];
    assert line[|indent|..][..|marker|] == marker;
  }

  lemma PrefixFound(line: string, indent: string, marker: string)
    requires AllSpace(indent) && IsMarker(marker) && indent + marker <= line
    ensures PrefixEnd(line) == Some(|indent| + |marker|)
  {
    var i := |indent|;
    PrefixInTwo(line, indent, marker);
    MarkerFound(line[i..], marker);
    assert line[i] == line[i..][0] && Spaces(line) == i;
  }

  lemma TextFound(gap: string, text: string, tail: string)
    requires gap != "" && AllSpace(gap) && Fits(text + tail, |text|)
    ensures var rest := gap + text + tail; Gap(rest, Spaces(rest)).Some?
  {
    var rest := gap + text + tail;
    assert rest[|gap|..] == text + tail;
    assert forall i | 0 <= i < |gap| :: rest[i] == gap[i];
    GapLaw(rest, Spaces(rest));
    assert !Barren(rest[|gap|..]);
  }

  lemma PartsAtBox(prefix: string, mark: char, rest: string)
    ensures var line, p := prefix + ['[', mark, ']'] + rest, |prefix|;
            && |line| == p + 3 + |rest| && line[..p] == prefix && line[p + 3..] == rest
            && line[p] == '[' && line[p + 1] == mark && line[p + 2] == ']'
  {
  }

  /** Every line that can be read as the pattern says is matched, with that prefix and that box. */
  lemma PatternFindsAll(line: string, indent: string, marker: string, mark: char, gap: string, text: string,
                        tail: string)
    requires Reads(line, indent, marker, mark, gap, text, tail)
    ensures Parse(line).Some? && Parse(line).value.prefix == indent + marker && Parse(line).value.mark == mark
  {
    var prefix, rest := indent + marker, gap + text + tail;
    var p := |prefix|;
    assert line == prefix + ['[', mark, ']'] + rest;
    PartsAtBox(prefix, mark, rest);
    PrefixFound(line, indent, marker);
    TextFound(gap, text, tail);
    assert Parse(line) == GapAndText(line[..p], line[p + 1], line[p + 3..]);
  }

  lemma MarkerIsMarker(s: string)
    requires MarkerEnd(s).Some?
    ensures IsMarker(s[..MarkerEnd(s).value])
  {
  }

  lemma FoundPrefix(line: string, p: nat) returns (indent: string, marker: string)
    requires PrefixEnd(line) == Some(p)
    ensures line[..p] == indent + marker && AllSpace(indent) && IsMarker(marker)
  {
    var i := Spaces(line);
    indent, marker := line[..i], line[i..][..p - i];
    MarkerIsMarker(line[i..]);
  }

  lemma FoundText(rest: string, g: nat, t: nat) returns (tail: string)
    requires Gap(rest, Spaces(rest)) == Some(Cut(g, t))
    ensures var gap, text := rest[..g], rest[g..][..t];
            rest == gap + text + tail && gap != "" && AllSpace(gap) && Fits(text + tail, |text|)
  {
    GapLaw(rest, Spaces(rest));
    tail := rest[g..][t..];
    assert rest[g..][..t] + tail == rest[g..];
    Assoc(rest[..g], rest[g..][..t], tail);
  }

  lemma BoxSplits(line: string, p: nat)
    requires p + 3 <= |line| && line[p] == '[' && line[p + 2] == ']'
    ensures line == line[..p] + ['[', line[p + 1], ']'] + line[p + 3..]
  {
  }

  /** And what is matched reads as the pattern says, with the groups it found. */
  lemma PatternFindsOnly(line: string) returns (indent: string, marker: string, tail: string)
    requires Parse(line).Some?
    ensures var m := Parse(line).value;
            m.prefix == indent + marker && Reads(line, indent, marker, m.mark, m.gap, m.text, tail)
  {
    var p, g, t := ParseParts(line);
    indent, marker := FoundPrefix(line, p);
    tail := FoundText(line[p + 3..], g, t);
    BoxSplits(line, p);
  }

  // ---- rewriting

  /** The prefix is found again in any line that shares it. */
  lemma PrefixShared(line: string, other: string, p: nat)
    requires PrefixEnd(line) == Some(p) && p <= |other| && other[..p] == line[..p]
    ensures PrefixEnd(other) == Some(p)
  {
    var i := Spaces(line);
    var m := p - i;
    assert forall k | 0 <= k < p :: other[k] == line[k];
    assert Spaces(other) == i;
    var s, u := line[i..], other[i..];
    assert forall k | 0 <= k < m :: u[k] == s[k];
    MarkerShared(s, u, m);
  }

  lemma MarkerShared(s: string, u: string, m: nat)
    requires MarkerEnd(s) == Some(m) && m <= |u| && forall k | 0 <= k < m :: u[k] == s[k]
    ensures MarkerEnd(u) == Some(m)
  {
    if !(Bullet(s[0]) && s[1] == ' ') {
      var d := Digits(s);
      assert d == m - 2 && !Digit(s[d]);
      assert Digits(u) == d;
    }
  }

  lemma RestFrom(prefix: string, mark: char, rest: string, g: nat, t: nat)
    requires Gap(rest, Spaces(rest)) == Some(Cut(g, t))
    ensures g + t <= |rest| && GapAndText(prefix, mark, rest) == Some(Match(prefix, mark, rest[..g], rest[g..][..t]))
  {
  }

  lemma ParseParts(line: string) returns (p: nat, g: nat, t: nat)
    requires Parse(line).Some?
    ensures PrefixEnd(line) == Some(p) && p + 3 <= |line|
    ensures line[p] == '[' && Box(line[p + 1]) && line[p + 2] == ']'
    ensures Gap(line[p + 3..], Spaces(line[p + 3..])) == Some(Cut(g, t))
    ensures g + t <= |line[p + 3..]| && AllSpace(line[p + 3..][g + t..])
    ensures Parse(line) == Some(Match(line[..p], line[p + 1], line[p + 3..][..g], line[p + 3..][g..][..t]))
  {
    p := PrefixEnd(line).value;
    var rest := line[p + 3..];
    var found := Gap(rest, Spaces(rest)).value;
    g, t := found.gap, found.text;
    CutIsSpace(rest, Spaces(rest));
  }

  lemma TakenInTwo(s: string, g: nat, t: nat)
    requires g + t <= |s|
    ensures s[..g + t] == s[..g] + s[g..][..t]
  {
  }

  lemma KeptParses(rest: string, g: nat, t: nat)
    requires Gap(rest, Spaces(rest)) == Some(Cut(g, t)) && AllSpace(rest[g + t..])
    ensures var kept := rest[..g] + rest[g..][..t]; Gap(kept, Spaces(kept)) == Some(Cut(g, t))
  {
    TakenInTwo(rest, g, t);
    GapIgnoresTail(rest, g + t);
  }

  lemma BoxedLine(prefix: string, kept: string)
    ensures var after, p := prefix + "[x]" + kept, |prefix|;
            && |after| == p + 3 + |kept| && after[..p] == prefix && after[p + 3..] == kept
            && after[p] == '[' && after[p + 1] == 'x' && after[p + 2] == ']'
  {
  }

  lemma BoxParses(line: string, p: nat, gap: string, text: string)
    requires PrefixEnd(line) == Some(p) && Gap(gap + text, Spaces(gap + text)) == Some(Cut(|gap|, |text|))
    ensures Parse(line[..p] + "[x]" + (gap + text)) == Some(Match(line[..p], 'x', gap, text))
  {
    var prefix, kept := line[..p], gap + text;
    var after := prefix + "[x]" + kept;
    BoxedLine(prefix, kept);
    assert kept[..|gap|] == gap && kept[|gap|..][..|text|] == text;
    PrefixShared(line, after, p);
    RestFrom(prefix, 'x', kept, |gap|, |text|);
    assert Parse(after) == GapAndText(after[..p], after[p + 1], after[p + 3..]);
  }

  /** A rewritten line matches again, with the same prefix, gap and text, and the box checked. */
  lemma RewriteParses(line: string)
    requires Parse(line).Some?
    ensures Parse(Rewrite(Parse(line).value)) == Some(Parse(line).value.(mark := 'x'))
  {
    var p, g, t := ParseParts(line);
    var m := Parse(line).value;
    KeptParses(line[p + 3..], g, t);
    BoxParses(line, p, m.gap, m.text);
    Assoc(m.prefix + "[x]", m.gap, m.text);
  }

  // ---- a carriage return at the end of a line changes nothing

  lemma PrefixOfReturn(line: string)
    ensures PrefixEnd(line + "\r") == PrefixEnd(line)
  {
    var other, i := line + "\r", Spaces(line);
    if i == |line| {
      assert Spaces(other) == i + 1;
      assert other[i + 1..] == line[i..] == "";
    } else {
      assert other[i] == line[i] && Spaces(other) == i;
      assert other[i..] == line[i..] + "\r";
      MarkerOfReturn(line[i..]);
    }
  }

  lemma MarkerOfReturn(s: string)
    requires s != ""
    ensures MarkerEnd(s + "\r") == MarkerEnd(s)
  {
    var d, long := Digits(s), s + "\r";
    assert forall i | 0 <= i < |s| :: long[i] == s[i];
    assert !Digit(long[d]) && Digits(long) == d;
  }

  lemma GapOfReturn(rest: string)
    ensures Gap(rest + "\r", Spaces(rest + "\r")) == Gap(rest, Spaces(rest))
  {
    var long := rest + "\r";
    GapLaw(long, Spaces(long));
    var found := Gap(long, Spaces(long));
    if found.Some? {
      var Cut(g, t) := found.value;
      assert Fits(long[g..], t) && Dot(long[g..][t - 1]);
      assert long[g..][t - 1] == long[g + t - 1];
    }
    assert long[..|rest|] == rest;
    GapIgnoresTail(long, |rest|);
  }

  lemma RestOfReturn(prefix: string, mark: char, rest: string)
    ensures GapAndText(prefix, mark, rest + "\r") == GapAndText(prefix, mark, rest)
  {
    GapOfReturn(rest);
    var long, found := rest + "\r", Gap(rest, Spaces(rest));
    if found.Some? {
      var Cut(g, t) := found.value;
      assert long[..g] == rest[..g] && long[g..][..t] == rest[g..][..t];
    }
  }

  lemma AfterPrefixOfReturn(line: string, p: nat)
    requires p <= |line|
    ensures AfterPrefix(line + "\r", p) == AfterPrefix(line, p)
  {
    var long := line + "\r";
    if p + 3 <= |line| {
      assert long[..p] == line[..p];
      assert long[p + 3..] == line[p + 3..] + "\r";
      RestOfReturn(line[..p], line[p + 1], line[p + 3..]);
    } else if p + 3 == |long| {
      assert long[p + 2] == '\r';
    }
  }

  lemma ParseOfReturn(line: string)
    ensures Parse(line + "\r") == Parse(line)
  {
    PrefixOfReturn(line);
    if PrefixEnd(line).Some? {
      AfterPrefixOfReturn(line, PrefixEnd(line).value);
    }
  }
}
