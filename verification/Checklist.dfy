/** The items of a plan, and checking one of them. */
module Checklist {
  import opened Prelude
  import opened ChecklistText
  import opened ChecklistLines

  datatype Item = Item(line: nat, checked: bool, text: string)

  function ItemOf(parsed: Option<Match>, index: nat): seq<Item> {
    match parsed
    case None => []
    case Some(m) => [Item(index, m.mark != ' ', m.text)]
  }

  function ItemsOf(parsed: seq<Option<Match>>): seq<Item> {
    if parsed == [] then [] else ItemsOf(parsed[..|parsed| - 1]) + ItemOf(parsed[|parsed| - 1], |parsed| - 1)
  }

  function Parsed(lines: seq<string>): (r: seq<Option<Match>>)
    ensures |r| == |lines| && forall i | 0 <= i < |r| :: r[i] == Parse(lines[i])
  {
    if lines == [] then [] else Parsed(lines[..|lines| - 1]) + [Parse(lines[|lines| - 1])]
  }

  function ChecklistItems(markdown: string): seq<Item> {
    ItemsOf(Parsed(Lines(markdown)))
  }

  function FirstUnchecked(items: seq<Item>): (first: Option<Item>)
    ensures first.Some? ==> first.value in items && !first.value.checked
    ensures first.None? ==> forall i | 0 <= i < |items| :: items[i].checked
  {
    if items == [] then None
    else if FirstUnchecked(items[..|items| - 1]).Some? then FirstUnchecked(items[..|items| - 1])
    else if !items[|items| - 1].checked then Some(items[|items| - 1])
    else None
  }

  datatype Checked = Written(plan: string) | Disappeared | Changed

  function CheckItem(markdown: string, target: Item): Checked {
    var lines := Lines(markdown);
    if target.line >= |lines| then Disappeared
    else
      match Parse(lines[target.line])
      case None => Changed
      case Some(m) =>
        if m.text != target.text then Changed else Written(Join(lines[target.line := Rewrite(m)]))
  }

  // ---- what checking does to the items

  function MarkIf(item: Item, line: nat): Item {
    if item.line == line then item.(checked := true) else item
  }

  /** The same items, those of the given line checked. */
  function Marked(items: seq<Item>, line: nat): (r: seq<Item>)
    ensures |r| == |items| && forall i | 0 <= i < |r| :: r[i] == MarkIf(items[i], line)
  {
    if items == [] then [] else Marked(items[..|items| - 1], line) + [MarkIf(items[|items| - 1], line)]
  }

  lemma {:induction false} LinesBelow(parsed: seq<Option<Match>>)
    ensures forall i | 0 <= i < |ItemsOf(parsed)| :: ItemsOf(parsed)[i].line < |parsed|
  {
    if parsed != [] {
      LinesBelow(parsed[..|parsed| - 1]);
    }
  }

  ghost predicate Increasing(items: seq<Item>) {
    forall i, j | 0 <= i < j < |items| :: items[i].line < items[j].line
  }

  lemma {:induction false} LinesIncrease(parsed: seq<Option<Match>>)
    ensures Increasing(ItemsOf(parsed))
  {
    if parsed != [] {
      LinesIncrease(parsed[..|parsed| - 1]);
      LinesBelow(parsed[..|parsed| - 1]);
    }
  }

  /** Every item is what its line says. */
  lemma {:induction false} ItemAt(parsed: seq<Option<Match>>, item: Item)
    requires item in ItemsOf(parsed)
    ensures item.line < |parsed| && ItemOf(parsed[item.line], item.line) == [item]
  {
    var init, last := parsed[..|parsed| - 1], parsed[|parsed| - 1];
    if item in ItemsOf(init) {
      ItemAt(init, item);
    } else {
      assert item in ItemOf(last, |init|);
    }
  }

  /** And every line that matches has its item. */
  lemma {:induction false} LineHasItem(parsed: seq<Option<Match>>, k: nat)
    requires k < |parsed| && parsed[k].Some?
    ensures Item(k, parsed[k].value.mark != ' ', parsed[k].value.text) in ItemsOf(parsed)
  {
    if k < |parsed| - 1 {
      LineHasItem(parsed[..|parsed| - 1], k);
    }
  }

  /** The items of a plan are exactly its matching lines, checked when the box holds an x, small or capital. */
  lemma ItemsExactly(plan: string, item: Item)
    ensures item in ChecklistItems(plan)
       <==> && item.line < |Lines(plan)| && Parse(Lines(plan)[item.line]).Some?
            && item.text == Parse(Lines(plan)[item.line]).value.text
            && (item.checked <==> Parse(Lines(plan)[item.line]).value.mark in "xX")
  {
    var parsed := Parsed(Lines(plan));
    if item in ItemsOf(parsed) {
      ItemAt(parsed, item);
    }
    if item.line < |parsed| && parsed[item.line].Some? {
      LineHasItem(parsed, item.line);
      var p, g, t := ParseParts(Lines(plan)[item.line]);
    }
  }

  lemma MarkedConcat(a: seq<Item>, b: seq<Item>, line: nat)
    ensures Marked(a + b, line) == Marked(a, line) + Marked(b, line)
  {
  }

  lemma NoneMarked(items: seq<Item>, line: nat)
    requires forall i | 0 <= i < |items| :: items[i].line != line
    ensures Marked(items, line) == items
  {
  }

  lemma ItemsAppend(init: seq<Option<Match>>, last: Option<Match>)
    ensures ItemsOf(init + [last]) == ItemsOf(init) + ItemOf(last, |init|)
  {
    assert (init + [last])[..|init|] == init;
  }

  function Check(m: Match): Option<Match> {
    Some(m.(mark := 'x'))
  }

  /** Checking the last box marks the last item. */
  lemma LastMarks(init: seq<Option<Match>>, m: Match)
    ensures ItemsOf(init + [Check(m)]) == Marked(ItemsOf(init + [Some(m)]), |init|)
  {
    var item := Item(|init|, m.mark != ' ', m.text);
    ItemsAppend(init, Check(m));
    ItemsAppend(init, Some(m));
    LinesBelow(init);
    NoneMarked(ItemsOf(init), |init|);
    MarkedConcat(ItemsOf(init), [item], |init|);
    assert Marked([item], |init|) == [MarkIf(item, |init|)];
  }

  /** A line after the checked one changes nothing about it. */
  lemma MarksBefore(init: seq<Option<Match>>, checked: seq<Option<Match>>, last: Option<Match>, k: nat)
    requires |checked| == |init| && k < |init| && ItemsOf(checked) == Marked(ItemsOf(init), k)
    ensures ItemsOf(checked + [last]) == Marked(ItemsOf(init + [last]), k)
  {
    ItemsAppend(checked, last);
    ItemsAppend(init, last);
    MarkedConcat(ItemsOf(init), ItemOf(last, |init|), k);
    NoneMarked(ItemOf(last, |init|), k);
  }

  /** Checking the box of one line marks its item and leaves all others. */
  lemma {:induction false} ReplaceMarks(parsed: seq<Option<Match>>, k: nat)
    requires k < |parsed| && parsed[k].Some?
    ensures ItemsOf(parsed[k := Check(parsed[k].value)]) == Marked(ItemsOf(parsed), k)
  {
    var init, last := parsed[..|parsed| - 1], parsed[|parsed| - 1];
    InitAndLast(parsed);
    UpdatedInitAndLast(parsed, k, Check(parsed[k].value));
    if k < |init| {
      ReplaceMarks(init, k);
      MarksBefore(init, init[k := Check(init[k].value)], last, k);
    } else {
      LastMarks(init, last.value);
    }
  }

  lemma RewriteIsPlain(line: string)
    requires Parse(line).Some? && '\n' !in line
    ensures '\n' !in Rewrite(Parse(line).value)
  {
    var p, g, t := ParseParts(line);
    var m := Parse(line).value;
    assert forall c | c in m.prefix || c in m.gap || c in m.text :: c in line;
  }

  lemma ChoppedParsesAlike(lines: seq<string>)
    ensures Parsed(Chopped(lines)) == Parsed(lines)
  {
    forall i | 0 <= i < |lines| ensures Parsed(Chopped(lines))[i] == Parsed(lines)[i] {
      ParseChop(lines[i]);
    }
  }

  lemma ParsedAppend(init: seq<string>, last: string)
    ensures Parsed(init + [last]) == Parsed(init) + [Parse(last)]
  {
    assert (init + [last])[..|init|] == init;
  }

  lemma AllButLastChopped(init: seq<string>, last: string)
    ensures Parsed(Chopped(init) + [last]) == Parsed(init + [last])
  {
    ChoppedParsesAlike(init);
    ParsedAppend(Chopped(init), last);
    ParsedAppend(init, last);
  }

  lemma JoinParsesAlike(lines: seq<string>)
    requires |lines| >= 1 && Plain(lines)
    ensures Parsed(Lines(Join(lines))) == Parsed(lines)
  {
    var init, last := lines[..|lines| - 1], lines[|lines| - 1];
    AllButLastChopped(init, last);
    LinesOfJoin(lines);
    InitAndLast(lines);
  }

  lemma RewrittenLines(lines: seq<string>, k: nat)
    requires k < |lines| && Parse(lines[k]).Some? && Plain(lines)
    ensures var after := lines[k := Rewrite(Parse(lines[k]).value)];
            Plain(after) && Parsed(after) == Parsed(lines)[k := Check(Parse(lines[k]).value)]
  {
    RewriteParses(lines[k]);
    RewriteIsPlain(lines[k]);
  }

  lemma WrittenWith(plan: string, target: Item, m: Match)
    requires target.line < |Lines(plan)| && Parse(Lines(plan)[target.line]) == Some(m) && m.text == target.text
    ensures CheckItem(plan, target) == Written(Join(Lines(plan)[target.line := Rewrite(m)]))
  {
  }

  /** Checking an item of the plan succeeds, checks that item, and touches no other. */
  lemma CheckingMarks(plan: string, item: Item)
    requires item in ChecklistItems(plan)
    ensures CheckItem(plan, item).Written?
    ensures ChecklistItems(CheckItem(plan, item).plan) == Marked(ChecklistItems(plan), item.line)
  {
    var lines, k := Lines(plan), item.line;
    ItemAt(Parsed(lines), item);
    var m := Parse(lines[k]).value;
    WrittenWith(plan, item, m);
    BreakIsPlain(plan);
    RewrittenLines(lines, k);
    ReplaceMarks(Parsed(lines), k);
    JoinParsesAlike(lines[k := Rewrite(m)]);
  }

  lemma {:induction false} ParsedLineIsItem(parsed: seq<Option<Match>>, k: nat)
    requires k < |parsed| && parsed[k].Some?
    ensures ItemOf(parsed[k], k)[0] in ItemsOf(parsed)
  {
    if k < |parsed| - 1 {
      ParsedLineIsItem(parsed[..|parsed| - 1], k);
    }
  }

  /** The plan still has an item with the line and text of the target. */
  ghost predicate Present(plan: string, target: Item) {
    exists item :: item in ChecklistItems(plan) && item.line == target.line && item.text == target.text
  }

  lemma WrittenIsPresent(plan: string, target: Item)
    requires CheckItem(plan, target).Written?
    ensures Present(plan, target)
  {
    var parsed := Parsed(Lines(plan));
    ParsedLineIsItem(parsed, target.line);
    var item := ItemOf(parsed[target.line], target.line)[0];
    assert item in ChecklistItems(plan) && item.line == target.line && item.text == target.text;
  }

  /** A target can be checked exactly when it is still present; otherwise the error says whether its line is gone. */
  lemma CheckedExactlyWhenPresent(plan: string, target: Item)
    ensures CheckItem(plan, target).Written? <==> Present(plan, target)
    ensures CheckItem(plan, target).Disappeared? <==> target.line >= |Lines(plan)|
  {
    if CheckItem(plan, target).Written? {
      WrittenIsPresent(plan, target);
    } else if Present(plan, target) {
      var item :| item in ChecklistItems(plan) && item.line == target.line && item.text == target.text;
      ItemAt(Parsed(Lines(plan)), item);
      assert false;
    }
  }
}
