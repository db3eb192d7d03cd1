/** A search query read into its terms: words of three UTF-16 code units or more, and quoted phrases of any length. */
module SearchTerms {
  import opened Prelude

  function TrimStart(s: string): string {
    if s != "" && Space(s[0]) then TrimStart(s[1..]) else s
  }

  function TrimEnd(s: string): string {
    if s != "" && Space(s[|s| - 1]) then TrimEnd(s[..|s| - 1]) else s
  }

  function Trim(s: string): string {
    TrimEnd(TrimStart(s))
  }

  predicate Trimmed(s: string) {
    s == "" || (!Space(s[0]) && !Space(s[|s| - 1]))
  }

  lemma {:induction false} TrimStartLaw(s: string)
    ensures TrimStart(s) == "" || !Space(TrimStart(s)[0])
  {
    if s != "" && Space(s[0]) {
      TrimStartLaw(s[1..]);
    }
  }

  lemma {:induction false} TrimEndLaw(s: string)
    ensures TrimEnd(s) <= s && (TrimEnd(s) == "" || !Space(TrimEnd(s)[|TrimEnd(s)| - 1]))
  {
    if s != "" && Space(s[|s| - 1]) {
      TrimEndLaw(s[..|s| - 1]);
    }
  }

  lemma TrimLaw(s: string)
    ensures Trimmed(Trim(s)) && (Trimmed(s) ==> Trim(s) == s)
  {
    TrimStartLaw(s);
    TrimEndLaw(TrimStart(s));
  }

  /** The length-preserving lower case of a text. */
  function Lower(lower: char -> char, s: string): (r: string)
    ensures |r| == |s| && forall i | 0 <= i < |s| :: r[i] == lower(s[i])
  {
    seq(|s|, i requires 0 <= i < |s| => lower(s[i]))
  }

  /** The length of a text in UTF-16 code units. */
  function Units(s: string): (units: nat)
    ensures |s| <= units <= 2 * |s|
  {
    if s == "" then 0 else (if s[0] as int >= 0x10000 then 2 else 1) + Units(s[1..])
  }

  // ---- reading

  datatype Reading = Reading(terms: seq<string>, current: string, quoted: bool)

  predicate Known(lower: char -> char, terms: seq<string>, value: string) {
    exists term | term in terms :: Lower(lower, term) == Lower(lower, value)
  }

  function Push(lower: char -> char, r: Reading): Reading {
    var value := Trim(r.current);
    if value != "" && (r.quoted || Units(value) >= 3) && !Known(lower, r.terms, value)
    then r.(terms := r.terms + [value], current := "") else r.(current := "")
  }

  predicate EscapedQuote(s: string) {
    |s| >= 2 && s[0] == '\\' && s[1] == '"'
  }

  /** One character; an escaped quote was dealt with before. */
  function Take(lower: char -> char, r: Reading, c: char): Reading {
    if c == '"' then
      var pushed := if r.quoted || Trim(r.current) != "" then Push(lower, r) else r;
      pushed.(quoted := !r.quoted)
    else if Space(c) && !r.quoted then Push(lower, r)
    else r.(current := r.current + [c])
  }

  function Read(lower: char -> char, r: Reading, s: string): Reading
    decreases |s|
  {
    if s == "" then r
    else if EscapedQuote(s) then Read(lower, r.(current := r.current + "\""), s[2..])
    else Read(lower, Take(lower, r, s[0]), s[1..])
  }

  const START: Reading := Reading([], "", false)

  function Terms(lower: char -> char, query: string): seq<string> {
    Push(lower, Read(lower, START, Trim(query))).terms
  }

  method SearchTerms(lower: char -> char, query: string) returns (terms: seq<string>)
    ensures terms == Terms(lower, query)
  {
    var source := Trim(query);
    var r, index: nat := START, 0;
    assert source[0..] == source;
    while index < |source|
      invariant index <= |source| && Read(lower, r, source[index..]) == Read(lower, START, source)
    {
      var character := source[index];
      assert source[index..][1..] == source[index + 1..];
      if character == '\\' && index + 1 < |source| && source[index + 1] == '"' {
        assert source[index..][2..] == source[index + 2..];
        r := r.(current := r.current + "\"");
        index := index + 2;
      } else {
        r := Take(lower, r, character);
        index := index + 1;
      }
    }
    return Push(lower, r).terms;
  }

  // ---- what terms are

  /** Terms have no space around them, are not empty, and differ even when case is ignored. */
  predicate Proper(lower: char -> char, terms: seq<string>) {
    && (forall i | 0 <= i < |terms| :: terms[i] != "" && Trimmed(terms[i]))
    && forall i, j | 0 <= i < j < |terms| :: Lower(lower, terms[i]) != Lower(lower, terms[j])
  }

  lemma PushIsProper(lower: char -> char, r: Reading)
    requires Proper(lower, r.terms)
    ensures Proper(lower, Push(lower, r).terms)
  {
    TrimLaw(r.current);
  }

  lemma {:induction false} ReadIsProper(lower: char -> char, r: Reading, s: string)
    requires Proper(lower, r.terms)
    ensures Proper(lower, Read(lower, r, s).terms)
    decreases |s|
  {
    if s == "" {
    } else if EscapedQuote(s) {
      ReadIsProper(lower, r.(current := r.current + "\""), s[2..]);
    } else {
      PushIsProper(lower, r);
      ReadIsProper(lower, Take(lower, r, s[0]), s[1..]);
    }
  }

  lemma TermsAreProper(lower: char -> char, query: string)
    ensures Proper(lower, Terms(lower, query))
  {
    ReadIsProper(lower, START, Trim(query));
    PushIsProper(lower, Read(lower, START, Trim(query)));
  }

  // ---- asking for a phrase

  function Escape(phrase: string): string {
    if phrase == "" then ""
    else (if phrase[0] == '"' then "\\\"" else [phrase[0]]) + Escape(phrase[1..])
  }

  /** The query that asks for one phrase: its quotes escaped, in quotes. */
  function Quoted(phrase: string): string {
    "\"" + Escape(phrase) + "\""
  }

  lemma ReadPlain(lower: char -> char, r: Reading, c: char, tail: string)
    requires (r.quoted || !Space(c)) && c != '"' && (c == '\\' ==> tail == "" || tail[0] != '"')
    ensures Read(lower, r, [c] + tail) == Read(lower, r.(current := r.current + [c]), tail)
  {
    assert ([c] + tail)[1..] == tail;
  }

  lemma ReadEscapedQuote(lower: char -> char, r: Reading, tail: string)
    ensures Read(lower, r, "\\\"" + tail) == Read(lower, r.(current := r.current + "\""), tail)
  {
    assert ("\\\"" + tail)[2..] == tail;
  }

  lemma EscapedHead(phrase: string, end: string)
    requires phrase != ""
    ensures Escape(phrase) + end
         == (if phrase[0] == '"' then "\\\"" else [phrase[0]]) + (Escape(phrase[1..]) + end)
    ensures Escape(phrase) != "" && (phrase[0] != '"' ==> Escape(phrase)[0] == phrase[0])
    ensures Escape(phrase)[0] != '"'
  {
  }

  /** A backslash of an escaped text is not followed by a quote, unless it is the last character. */
  lemma NoQuoteFollows(phrase: string, end: string)
    requires phrase != "" && (phrase[|phrase| - 1] == '\\' ==> end == "" || end[0] != '"')
    ensures phrase[0] == '\\' ==>
              var tail := Escape(phrase[1..]) + end; tail == "" || tail[0] != '"'
  {
    if phrase[1..] != "" {
      EscapedHead(phrase[1..], end);
    } else {
      assert Escape(phrase[1..]) + end == end;
    }
  }

  lemma ReadEscapedHead(lower: char -> char, r: Reading, phrase: string, end: string)
    requires phrase != "" && (r.quoted || !Space(phrase[0]))
    requires (phrase[|phrase| - 1] == '\\' ==> end == "" || end[0] != '"')
    ensures Read(lower, r, Escape(phrase) + end)
         == Read(lower, r.(current := r.current + [phrase[0]]), Escape(phrase[1..]) + end)
  {
    var c, rest := phrase[0], phrase[1..];
    EscapedHead(phrase, end);
    if c == '"' {
      ReadEscapedQuote(lower, r, Escape(rest) + end);
    } else {
      NoQuoteFollows(phrase, end);
      ReadPlain(lower, r, c, Escape(rest) + end);
    }
  }

  predicate Spaceless(s: string) {
    forall i | 0 <= i < |s| :: !Space(s[i])
  }

  /** Within quotes, or without white space, an escaped text is read back as it was, unless its end escapes a quote. */
  lemma {:induction false} ReadEscaped(lower: char -> char, r: Reading, phrase: string, end: string)
    requires r.quoted || Spaceless(phrase)
    requires (phrase != "" && phrase[|phrase| - 1] == '\\' ==> end == "" || end[0] != '"')
    ensures Read(lower, r, Escape(phrase) + end) == Read(lower, r.(current := r.current + phrase), end)
    decreases |phrase|
  {
    if phrase == "" {
      assert r.current + phrase == r.current && Escape(phrase) + end == end;
    } else {
      var c, rest := phrase[0], phrase[1..];
      ReadEscapedHead(lower, r, phrase, end);
      ReadEscaped(lower, r.(current := r.current + [c]), rest, end);
      assert r.current + [c] + rest == r.current + phrase;
    }
  }

  lemma QuotedIsTrimmed(phrase: string)
    ensures Trim(Quoted(phrase)) == Quoted(phrase)
  {
    TrimLaw(Quoted(phrase));
  }

  lemma OpenQuote(lower: char -> char, tail: string)
    ensures Read(lower, START, "\"" + tail) == Read(lower, Reading([], "", true), tail)
  {
    assert ("\"" + tail)[1..] == tail;
  }

  /** Asking for a phrase finds that phrase and nothing else, exactly when it does not end with a backslash. */
  lemma QuotedPhraseIsTheTerm(lower: char -> char, phrase: string)
    requires phrase != "" && Trimmed(phrase)
    ensures Terms(lower, Quoted(phrase)) == [phrase] <==> phrase[|phrase| - 1] != '\\'
  {
    QuotedIsTrimmed(phrase);
    assert Quoted(phrase) == "\"" + (Escape(phrase) + "\"");
    OpenQuote(lower, Escape(phrase) + "\"");
    if phrase[|phrase| - 1] != '\\' {
      ReadEscaped(lower, Reading([], "", true), phrase, "\"");
      TrimLaw(phrase);
      assert "" + phrase == phrase;
      CloseQuote(lower, phrase);
    } else {
      SwallowedQuote(lower, phrase);
    }
  }

  /** A backslash cannot be asked for as a quoted phrase. */
  lemma BackslashIsNotTheTerm(lower: char -> char)
    ensures Terms(lower, Quoted("\\")) != ["\\"]
  {
    QuotedPhraseIsTheTerm(lower, "\\");
  }

  lemma CloseQuote(lower: char -> char, phrase: string)
    requires phrase != "" && Trim(phrase) == phrase
    ensures Push(lower, Read(lower, Reading([], phrase, true), "\"")).terms == [phrase]
  {
    var r := Reading([], phrase, true);
    assert "\""[1..] == "";
    var after := Take(lower, r, '"');
    assert after == Reading([phrase], "", false);
    assert Read(lower, r, "\"") == after;
  }

  /** The last backslash takes the closing quote into the phrase. */
  lemma SwallowedRead(lower: char -> char, init: string)
    ensures Read(lower, Reading([], "", true), Escape(init + "\\") + "\"") == Reading([], init + "\"", true)
  {
    EscapeAppend(init, '\\');
    assert Escape(init + "\\") + "\"" == Escape(init) + "\\\"";
    ReadEscaped(lower, Reading([], "", true), init, "\\\"");
    assert "" + init == init;
    assert "\\\"" + "" == "\\\"";
    ReadEscapedQuote(lower, Reading([], init, true), "");
  }

  lemma SwallowedQuote(lower: char -> char, phrase: string)
    requires phrase != "" && phrase[|phrase| - 1] == '\\'
    ensures Push(lower, Read(lower, Reading([], "", true), Escape(phrase) + "\"")).terms != [phrase]
  {
    var init := phrase[..|phrase| - 1];
    InitAndLast(phrase);
    SwallowedRead(lower, init);
    PushedIsOther(lower, Reading([], init + "\"", true), phrase);
  }

  lemma PushedIsOther(lower: char -> char, r: Reading, phrase: string)
    requires r.terms == [] && r.current != "" && r.current[|r.current| - 1] == '"'
    requires phrase != "" && phrase[|phrase| - 1] == '\\'
    ensures Push(lower, r).terms != [phrase]
  {
    PushedLast(lower, r);
    assert phrase in [phrase];
  }

  /** What is pushed last ends as the text read ended, unless that was white space. */
  lemma PushedLast(lower: char -> char, r: Reading)
    requires r.terms == [] && r.current != "" && !Space(r.current[|r.current| - 1])
    ensures forall term | term in Push(lower, r).terms :: term != "" && term[|term| - 1] == r.current[|r.current| - 1]
  {
    TrimStartKeepsEnd(r.current);
  }

  lemma {:induction false} TrimStartKeepsEnd(s: string)
    requires s != "" && !Space(s[|s| - 1])
    ensures TrimStart(s) != "" && TrimStart(s)[|TrimStart(s)| - 1] == s[|s| - 1]
  {
    if Space(s[0]) {
      TrimStartKeepsEnd(s[1..]);
    }
  }

  lemma {:induction false} EscapeAppend(phrase: string, c: char)
    requires c != '"'
    ensures Escape(phrase + [c]) == Escape(phrase) + [c]
  {
    if phrase == "" {
      assert ([c])[1..] == "";
    } else {
      EscapeAppend(phrase[1..], c);
      assert (phrase + [c])[1..] == phrase[1..] + [c];
    }
  }

  // ---- asking for words and phrases

  /** A word or a quoted phrase, and the white space before it. */
  datatype Part = Part(gap: string, text: string, quoted: bool)

  predicate Writable(part: Part) {
    AllSpace(part.gap) && part.text != "" && Trimmed(part.text)
    && (if part.quoted then part.text[|part.text| - 1] != '\\' else Spaceless(part.text))
  }

  /** Words are kept apart, and a word that ends with a backslash does not escape the quote of a phrase. */
  predicate Follows(part: Part, next: Part) {
    next.gap != "" || part.quoted || (next.quoted && part.text != "" && part.text[|part.text| - 1] != '\\')
  }

  predicate WellWritten(parts: seq<Part>) {
    (forall i | 0 <= i < |parts| :: Writable(parts[i]))
    && forall i | 0 < i < |parts| :: Follows(parts[i - 1], parts[i])
  }

  function Spelled(part: Part): string {
    if part.quoted then Quoted(part.text) else Escape(part.text)
  }

  function Written(parts: seq<Part>): string {
    if parts == [] then "" else parts[0].gap + (Spelled(parts[0]) + Written(parts[1..]))
  }

  /** Three UTF-16 code units or more: characters from U+10000 on take two. */
  predicate Long(word: string) {
    |word| >= 3 || (|word| == 2 && (word[0] as int > 0xFFFF || word[1] as int > 0xFFFF))
  }

  /** What a part adds to the terms: its text, if it is a phrase or long enough, and no term but for case. */
  function Added(lower: char -> char, terms: seq<string>, part: Part): seq<string> {
    if (part.quoted || Long(part.text)) && forall term | term in terms :: Lower(lower, term) != Lower(lower, part.text)
    then [part.text] else []
  }

  function Chosen(lower: char -> char, terms: seq<string>, parts: seq<Part>): seq<string>
    decreases |parts|
  {
    if parts == [] then terms else Chosen(lower, terms + Added(lower, terms, parts[0]), parts[1..])
  }

  lemma LongLaw(word: string)
    ensures Units(word) >= 3 <==> Long(word)
  {
    if |word| == 2 {
      assert Units(word[1..][1..]) == 0;
    } else if |word| == 1 {
      assert Units(word[1..]) == 0;
    }
  }

  lemma PushPart(lower: char -> char, terms: seq<string>, part: Part)
    requires Writable(part)
    ensures Push(lower, Reading(terms, part.text, part.quoted))
         == Reading(terms + Added(lower, terms, part), "", part.quoted)
  {
    TrimLaw(part.text);
    LongLaw(part.text);
    NothingAdded(terms);
  }

  lemma PushNothing(lower: char -> char, r: Reading)
    requires r.current == ""
    ensures Push(lower, r) == r
  {
  }

  lemma {:induction false} ReadGap(lower: char -> char, r: Reading, gap: string, tail: string)
    requires AllSpace(gap) && !r.quoted && (gap == "" ==> r.current == "")
    ensures Read(lower, r, gap + tail) == Read(lower, Push(lower, r), tail)
    decreases |gap|
  {
    if gap == "" {
      PushNothing(lower, r);
      assert gap + tail == tail;
    } else {
      assert (gap + tail)[1..] == gap[1..] + tail;
      PushNothing(lower, Push(lower, r));
      ReadGap(lower, Push(lower, r), gap[1..], tail);
    }
  }

  lemma TakeQuote(lower: char -> char, r: Reading, tail: string)
    ensures Read(lower, r, "\"" + tail) == Read(lower, Take(lower, r, '"'), tail)
  {
    assert ("\"" + tail)[1..] == tail;
  }

  lemma OpensPhrase(lower: char -> char, r: Reading)
    requires !r.quoted && Trimmed(r.current)
    ensures Take(lower, r, '"') == Reading(Push(lower, r).terms, "", true)
  {
    TrimLaw(r.current);
  }

  lemma ClosesPhrase(lower: char -> char, terms: seq<string>, part: Part, tail: string)
    requires Writable(part) && part.quoted
    ensures Read(lower, Reading(terms, part.text, true), "\"" + tail)
         == Read(lower, Reading(terms + Added(lower, terms, part), "", false), tail)
  {
    TakeQuote(lower, Reading(terms, part.text, true), tail);
    PushPart(lower, terms, part);
  }

  lemma ReadsPhrase(lower: char -> char, terms: seq<string>, text: string, end: string)
    requires text != "" && (text[|text| - 1] == '\\' ==> end == "" || end[0] != '"')
    ensures Read(lower, Reading(terms, "", true), Escape(text) + end) == Read(lower, Reading(terms, text, true), end)
  {
    ReadEscaped(lower, Reading(terms, "", true), text, end);
    NothingAdded(text);
  }

  lemma SpelledPhrase(text: string, tail: string)
    ensures Quoted(text) + tail == "\"" + (Escape(text) + ("\"" + tail))
  {
    Assoc("\"", Escape(text), "\"");
    Assoc("\"", Escape(text) + "\"", tail);
    Assoc(Escape(text), "\"", tail);
  }

  lemma ReadPhrase(lower: char -> char, r: Reading, part: Part, tail: string)
    requires !r.quoted && Trimmed(r.current) && Writable(part) && part.quoted
    ensures var terms := Push(lower, r).terms;
            Read(lower, r, Spelled(part) + tail)
            == Read(lower, Reading(terms + Added(lower, terms, part), "", false), tail)
  {
    var terms, end := Push(lower, r).terms, "\"" + tail;
    SpelledPhrase(part.text, tail);
    TakeQuote(lower, r, Escape(part.text) + end);
    OpensPhrase(lower, r);
    ReadsPhrase(lower, terms, part.text, end);
    ClosesPhrase(lower, terms, part, tail);
  }

  lemma SpelledEnds(part: Part)
    requires Writable(part)
    ensures Spelled(part) != "" && !Space(Spelled(part)[0]) && !Space(Spelled(part)[|Spelled(part)| - 1])
  {
    if !part.quoted {
      EscapeEnds(part.text);
    }
  }

  lemma {:induction false} EscapeEnds(text: string)
    requires text != ""
    ensures Escape(text) != "" && Escape(text)[|Escape(text)| - 1] == text[|text| - 1]
    ensures Escape(text)[0] == text[0] || Escape(text)[0] == '\\'
  {
    if |text| > 1 {
      EscapeEnds(text[1..]);
    }
  }

  /** What comes after a word does not begin with a quote that its last backslash would escape. */
  lemma NoQuoteEscaped(part: Part, parts: seq<Part>)
    requires !part.quoted && part.text != "" && part.text[|part.text| - 1] == '\\'
    requires parts != [] ==> Follows(part, parts[0]) && Writable(parts[0])
    ensures Written(parts) == "" || Written(parts)[0] != '"'
  {
    if parts != [] {
      assert Space(parts[0].gap[0]);
    }
  }

  lemma RestIsWellWritten(parts: seq<Part>)
    requires WellWritten(parts) && parts != []
    ensures WellWritten(parts[1..]) && Writable(parts[0])
    ensures |parts| > 1 ==> Follows(parts[0], parts[1..][0])
  {
    forall i | 0 < i < |parts[1..]| ensures Follows(parts[1..][i - 1], parts[1..][i]) {
      assert parts[1..][i - 1] == parts[i] && parts[1..][i] == parts[i + 1];
    }
  }

  lemma ReadWord(lower: char -> char, r: Reading, parts: seq<Part>)
    requires WellWritten(parts) && parts != [] && !parts[0].quoted && !r.quoted && r.current == ""
    ensures Read(lower, r, Spelled(parts[0]) + Written(parts[1..]))
         == Read(lower, Reading(r.terms, parts[0].text, false), Written(parts[1..]))
  {
    RestIsWellWritten(parts);
    if parts[0].text[|parts[0].text| - 1] == '\\' {
      NoQuoteEscaped(parts[0], parts[1..]);
    }
    ReadEscaped(lower, r, parts[0].text, Written(parts[1..]));
    NothingAdded(parts[0].text);
  }

  lemma {:induction false} ReadParts(lower: char -> char, r: Reading, parts: seq<Part>)
    requires WellWritten(parts) && !r.quoted && Trimmed(r.current)
    requires parts != [] && r.current != "" ==> parts[0].gap != "" || parts[0].quoted
    ensures Push(lower, Read(lower, r, Written(parts))).terms == Chosen(lower, Push(lower, r).terms, parts)
    decreases |parts|
  {
    if parts != [] {
      var part, rest, terms := parts[0], parts[1..], Push(lower, r).terms;
      var more := terms + Added(lower, terms, part);
      RestIsWellWritten(parts);
      if part.quoted {
        if part.gap == "" {
          NothingAdded(Spelled(part) + Written(rest));
          ReadPhrase(lower, r, part, Written(rest));
        } else {
          ReadGap(lower, r, part.gap, Spelled(part) + Written(rest));
          PushNothing(lower, Push(lower, r));
          ReadPhrase(lower, Push(lower, r), part, Written(rest));
        }
        PushNothing(lower, Reading(more, "", false));
        ReadParts(lower, Reading(more, "", false), rest);
      } else {
        ReadGap(lower, r, part.gap, Spelled(part) + Written(rest));
        ReadWord(lower, Push(lower, r), parts);
        PushPart(lower, terms, part);
        ReadParts(lower, Reading(terms, part.text, false), rest);
      }
    }
  }

  lemma {:induction false} WrittenEnds(parts: seq<Part>)
    requires WellWritten(parts) && parts != []
    ensures Written(parts) != "" && !Space(Written(parts)[|Written(parts)| - 1])
    ensures parts[0].gap == "" ==> !Space(Written(parts)[0])
  {
    SpelledEnds(parts[0]);
    if |parts| > 1 {
      RestIsWellWritten(parts);
      WrittenEnds(parts[1..]);
    }
  }

  /**
   The terms of a query of words and phrases, however they are mixed and spaced: the phrases, and the words
   that are long enough, in their order, leaving out what is a term already but for case.
   */
  lemma PartsAreTerms(lower: char -> char, parts: seq<Part>)
    requires WellWritten(parts) && (parts != [] ==> parts[0].gap == "")
    ensures Terms(lower, Written(parts)) == Chosen(lower, [], parts)
  {
    if parts != [] {
      WrittenEnds(parts);
    }
    TrimLaw(Written(parts));
    ReadParts(lower, START, parts);
    PushNothing(lower, START);
  }

  lemma {:induction false} EscapesNothing(text: string)
    requires '"' !in text
    ensures Escape(text) == text
  {
    if text != "" {
      EscapesNothing(text[1..]);
    }
  }

  lemma WrittenFirst(part: Part, rest: seq<Part>)
    ensures Written([part] + rest) == part.gap + (Spelled(part) + Written(rest))
  {
    assert ([part] + rest)[1..] == rest;
  }

  lemma ChosenFirst(lower: char -> char, terms: seq<string>, part: Part, rest: seq<Part>)
    ensures Chosen(lower, terms, [part] + rest) == Chosen(lower, terms + Added(lower, terms, part), rest)
  {
    assert ([part] + rest)[1..] == rest;
  }

  predicate LongWord(word: string) {
    |word| >= 3 && Spaceless(word) && '"' !in word
  }

  lemma WrittenWords(a: string, b: string)
    requires LongWord(a) && LongWord(b)
    ensures Written([Part("", a, false)] + ([Part(" ", b, false)] + [])) == a + (" " + b)
  {
    EscapesNothing(a);
    EscapesNothing(b);
    WrittenFirst(Part(" ", b, false), []);
    WrittenFirst(Part("", a, false), [Part(" ", b, false)] + []);
    NothingAdded(b);
    NothingAdded(a + (" " + b));
  }

  lemma ChosenWords(lower: char -> char, a: string, b: string)
    requires LongWord(a) && LongWord(b) && Lower(lower, a) != Lower(lower, b)
    ensures Chosen(lower, [], [Part("", a, false)] + ([Part(" ", b, false)] + [])) == [a] + [b]
  {
    ChosenFirst(lower, [], Part("", a, false), [Part(" ", b, false)] + []);
    NothingAdded([a]);
    ChosenFirst(lower, [a], Part(" ", b, false), []);
  }

  /** Two long words that differ by more than case are the terms. */
  lemma TwoWordsAreTerms(lower: char -> char, a: string, b: string)
    requires LongWord(a) && LongWord(b) && Lower(lower, a) != Lower(lower, b)
    ensures Terms(lower, a + (" " + b)) == [a] + [b]
  {
    WrittenWords(a, b);
    ChosenWords(lower, a, b);
    PartsAreTerms(lower, [Part("", a, false)] + ([Part(" ", b, false)] + []));
  }
}
