/** A plan split into lines at every line feed, a carriage return before it going with it, and joined again. */
module ChecklistLines {
  import opened ChecklistText

  function Chop(line: string): string {
    if line != "" && line[|line| - 1] == '\r' then line[..|line| - 1] else line
  }

  /** The lines that have ended, and the one still open. */
  datatype Broken = Broken(done: seq<string>, last: string)

  function Break(s: string): Broken {
    if s == "" then Broken([], "")
    else
      var Broken(done, last) := Break(s[..|s| - 1]);
      var c := s[|s| - 1];
      if c == '\n' then Broken(done + [Chop(last)], "") else Broken(done, last + [c])
  }

  function Lines(s: string): (lines: seq<string>)
    ensures |lines| >= 1
  {
    var Broken(done, last) := Break(s);
    done + [last]
  }

  function Glue(done: seq<string>, last: string): string {
    if done == [] then last else Glue(done[..|done| - 1], done[|done| - 1]) + "\n" + last
  }

  function Join(lines: seq<string>): string
    requires |lines| >= 1
  {
    Glue(lines[..|lines| - 1], lines[|lines| - 1])
  }

  predicate Plain(lines: seq<string>) {
    forall i | 0 <= i < |lines| :: '\n' !in lines[i]
  }

  lemma {:induction false} BreakIsPlain(s: string)
    ensures Plain(Break(s).done) && '\n' !in Break(s).last
  {
    if s != "" {
      BreakIsPlain(s[..|s| - 1]);
    }
  }

  lemma {:induction false} BreakAppend(s: string, w: string)
    requires '\n' !in w
    ensures Break(s + w) == Broken(Break(s).done, Break(s).last + w)
  {
    if w == "" {
      assert s + w == s && Break(s).last + w == Break(s).last;
    } else {
      var init, c := w[..|w| - 1], w[|w| - 1];
      BreakAppend(s, init);
      assert (s + w)[..|s + w| - 1] == s + init && c in w;
      assert Break(s).last + init + [c] == Break(s).last + w;
    }
  }

  /** The text of ended lines, each with its end, and of the open one. */
  function Woven(done: seq<string>, ends: seq<string>, last: string): string
    requires |done| == |ends|
    decreases |done|
  {
    if done == [] then last
    else Woven(done[..|done| - 1], ends[..|ends| - 1], done[|done| - 1]) + ends[|ends| - 1] + last
  }

  /** A line end: a line feed that no carriage return precedes, or both. */
  predicate LineEnd(line: string, end: string) {
    end == "\r\n" || (end == "\n" && (line == "" || line[|line| - 1] != '\r'))
  }

  predicate Delimited(done: seq<string>, ends: seq<string>) {
    |done| == |ends| && forall i | 0 <= i < |done| :: LineEnd(done[i], ends[i])
  }

  lemma WovenAppend(done: seq<string>, ends: seq<string>, last: string, w: string)
    requires |done| == |ends|
    ensures Woven(done, ends, last + w) == Woven(done, ends, last) + w
  {
    if done != [] {
      var s := Woven(done[..|done| - 1], ends[..|ends| - 1], done[|done| - 1]) + ends[|ends| - 1];
      assert s + (last + w) == s + last + w;
    }
  }

  lemma WovenMore(done: seq<string>, ends: seq<string>, line: string, end: string)
    requires |done| == |ends|
    ensures Woven(done + [line], ends + [end], "") == Woven(done, ends, line) + end
  {
    assert (done + [line])[..|done|] == done && (ends + [end])[..|ends|] == ends;
    assert Woven(done, ends, line) + end + "" == Woven(done, ends, line) + end;
  }

  /** A line feed ends the open line, a carriage return at its end going with it. */
  lemma WovenFeed(done: seq<string>, ends: seq<string>, last: string) returns (end: string)
    requires |done| == |ends|
    ensures LineEnd(Chop(last), end)
    ensures Woven(done + [Chop(last)], ends + [end], "") == Woven(done, ends, last) + "\n"
  {
    end := "\n";
    if Chop(last) != last {
      end := "\r\n";
      assert Chop(last) + "\r" == last;
      WovenAppend(done, ends, Chop(last), "\r");
      assert Woven(done, ends, Chop(last)) + "\r" + "\n" == Woven(done, ends, Chop(last)) + "\r\n";
    }
    WovenMore(done, ends, Chop(last), end);
  }

  lemma DelimitedMore(done: seq<string>, ends: seq<string>, line: string, end: string)
    requires Delimited(done, ends) && LineEnd(line, end)
    ensures Delimited(done + [line], ends + [end])
  {
  }

  /** The text is its lines with their ends, and a line feed ends a line wherever there is one. */
  lemma {:induction false} LinesAreDelimited(s: string) returns (ends: seq<string>)
    ensures Delimited(Break(s).done, ends) && Woven(Break(s).done, ends, Break(s).last) == s
    ensures Plain(Break(s).done) && '\n' !in Break(s).last
    ensures Lines(s) == Break(s).done + [Break(s).last]
  {
    BreakIsPlain(s);
    ends := [];
    if s != "" {
      var init, c := s[..|s| - 1], s[|s| - 1];
      var Broken(done, last) := Break(init);
      ends := LinesAreDelimited(init);
      assert init + [c] == s;
      if c != '\n' {
        WovenAppend(done, ends, last, [c]);
      } else {
        var end := WovenFeed(done, ends, last);
        DelimitedMore(done, ends, Chop(last), end);
        ends := ends + [end];
      }
    }
  }

  function Chopped(lines: seq<string>): (r: seq<string>)
    ensures |r| == |lines| && forall i | 0 <= i < |r| :: r[i] == Chop(lines[i])
  {
    if lines == [] then [] else Chopped(lines[..|lines| - 1]) + [Chop(lines[|lines| - 1])]
  }

  /** Splitting what was joined gives the lines back, but for carriage returns at the ends of all but the last. */
  lemma {:induction false} BreakOfGlue(done: seq<string>, last: string)
    requires Plain(done) && '\n' !in last
    ensures Break(Glue(done, last)) == Broken(Chopped(done), last)
  {
    if done == [] {
      BreakAppend("", last);
      assert "" + last == last;
    } else {
      var s := Glue(done[..|done| - 1], done[|done| - 1]);
      BreakOfGlue(done[..|done| - 1], done[|done| - 1]);
      assert (s + "\n")[..|s|] == s;
      BreakAppend(s + "\n", last);
      assert "" + last == last;
    }
  }

  lemma {:induction false} LastHasNoReturn(s: string)
    requires '\r' !in s
    ensures '\r' !in Break(s).last
  {
    if s != "" {
      LastHasNoReturn(s[..|s| - 1]);
    }
  }

  /** Without carriage returns, joining the lines gives the text back. */
  lemma {:induction false} GlueOfBreak(s: string)
    requires '\r' !in s
    ensures Glue(Break(s).done, Break(s).last) == s
  {
    if s != "" {
      var init, c := s[..|s| - 1], s[|s| - 1];
      GlueOfBreak(init);
      LastHasNoReturn(init);
      var Broken(done, last) := Break(init);
      if c == '\n' {
        assert Break(s) == Broken(done + [last], "");
        assert Glue(done + [last], "") == init + "\n" + "" by {
          assert (done + [last])[..|done|] == done;
        }
      } else {
        GlueAppend(done, last, [c]);
      }
    }
  }

  lemma GlueAppend(done: seq<string>, last: string, w: string)
    ensures Glue(done, last + w) == Glue(done, last) + w
  {
    if done != [] {
      var s := Glue(done[..|done| - 1], done[|done| - 1]) + "\n";
      assert s + (last + w) == s + last + w;
    }
  }

  lemma JoinOfLines(s: string)
    requires '\r' !in s
    ensures Join(Lines(s)) == s
  {
    GlueOfBreak(s);
    var Broken(done, last) := Break(s);
    assert (done + [last])[..|done|] == done;
  }

  lemma LinesOfJoin(lines: seq<string>)
    requires |lines| >= 1 && Plain(lines)
    ensures var last := |lines| - 1;
            Lines(Join(lines)) == Chopped(lines[..last]) + [lines[last]]
  {
    BreakOfGlue(lines[..|lines| - 1], lines[|lines| - 1]);
  }

  lemma ParseChop(line: string)
    ensures Parse(Chop(line)) == Parse(line)
  {
    if Chop(line) != line {
      var kept := line[..|line| - 1];
      var long := kept + "\r";
      assert long == line;
      ParseOfReturn(kept);
    }
  }
}
