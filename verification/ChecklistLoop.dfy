/** The loop that works a plan off item by item, and what it does to the plan over a whole run. */
module ChecklistLoop {
  import opened Prelude
  import opened Checklist
  import opened ChecklistLines

  const MAX_STALLED_ITERATIONS: nat := 20

  /** What the world does in one iteration; `touched` is what it leaves in the plan file meanwhile. */
  datatype Attempt = Attempt(aborted: bool, subagentOk: bool, headRestored: bool, validationOk: bool, commitOk: bool,
                             touched: string)

  datatype Record = Record(iteration: nat, item: string, succeeded: bool)

  datatype Ending = Complete | Stalled | Aborted

  datatype Outcome = Outcome(records: seq<Record>, ending: Ending)

  predicate Succeeds(attempt: Attempt) {
    attempt.subagentOk && attempt.headRestored && attempt.validationOk && attempt.commitOk
  }

  // ---- the items still to do

  /** The unchecked items, in order. */
  function Unchecked(items: seq<Item>): (r: seq<Item>)
    ensures |r| <= |items|
  {
    if items == [] then []
    else
      var last := items[|items| - 1];
      Unchecked(items[..|items| - 1]) + Open(last)
  }

  function Open(item: Item): seq<Item> {
    if item.checked then [] else [item]
  }

  function Todo(plan: string): seq<Item> {
    Unchecked(ChecklistItems(plan))
  }

  lemma {:induction false} FirstIsHead(items: seq<Item>)
    ensures FirstUnchecked(items) == if Unchecked(items) == [] then None else Some(Unchecked(items)[0])
  {
    if items != [] {
      FirstIsHead(items[..|items| - 1]);
    }
  }

  lemma UncheckedAppend(init: seq<Item>, last: Item)
    ensures Unchecked(init + [last]) == Unchecked(init) + Open(last)
  {
    assert (init + [last])[..|init|] == init;
  }

  lemma MarkedAppend(init: seq<Item>, last: Item, line: nat)
    ensures Marked(init + [last], line) == Marked(init, line) + [MarkIf(last, line)]
  {
    assert (init + [last])[..|init|] == init;
  }

  lemma LastPops(init: seq<Item>, last: Item)
    requires Increasing(init + [last]) && Unchecked(init) == [] && !last.checked
    ensures Unchecked(Marked(init + [last], last.line)) == []
  {
    MarkedAppend(init, last, last.line);
    UncheckedAppend(init, MarkIf(last, last.line));
    forall i | 0 <= i < |init| ensures init[i].line != last.line {
      assert (init + [last])[i].line < (init + [last])[|init|].line;
    }
    NoneMarked(init, last.line);
  }

  lemma LaterStays(init: seq<Item>, last: Item, first: Item)
    requires first.line < last.line && Unchecked(init) != []
    requires Unchecked(Marked(init, first.line)) == Unchecked(init)[1..]
    ensures Unchecked(Marked(init + [last], first.line)) == Unchecked(init + [last])[1..]
  {
    UncheckedAppend(init, last);
    MarkedAppend(init, last, first.line);
    UncheckedAppend(Marked(init, first.line), last);
    TailOfConcat(Unchecked(init), Open(last));
  }

  lemma FirstIsEarlier(init: seq<Item>, last: Item, first: Item)
    requires Increasing(init + [last]) && FirstUnchecked(init) == Some(first)
    ensures Increasing(init) && first.line < last.line
  {
    var items := init + [last];
    assert forall i | 0 <= i < |init| :: items[i] == init[i];
    var i :| 0 <= i < |init| && init[i] == first;
    assert items[i].line < items[|init|].line;
  }

  lemma OnlyLastIsOpen(init: seq<Item>, last: Item)
    requires Increasing(init + [last]) && Unchecked(init) == [] && !last.checked
    ensures Unchecked(init + [last]) == [last] && Unchecked(Marked(init + [last], last.line)) == []
  {
    UncheckedAppend(init, last);
    LastPops(init, last);
  }

  lemma FirstOfAppend(init: seq<Item>, last: Item)
    ensures FirstUnchecked(init + [last])
         == if FirstUnchecked(init).Some? then FirstUnchecked(init) else if last.checked then None else Some(last)
    ensures Unchecked(init) != [] ==> Unchecked(init + [last]) != []
    ensures FirstUnchecked(init).Some? <==> Unchecked(init) != []
  {
    assert (init + [last])[..|init|] == init;
    FirstIsHead(init);
  }

  lemma {:induction false} AppendedPops(init: seq<Item>, last: Item, first: Item)
    requires Increasing(init + [last]) && FirstUnchecked(init + [last]) == Some(first)
    ensures Unchecked(init + [last]) != []
    ensures Unchecked(Marked(init + [last], first.line)) == Unchecked(init + [last])[1..]
    decreases |init| + 1, 0
  {
    FirstOfAppend(init, last);
    if FirstUnchecked(init).Some? {
      FirstIsEarlier(init, last, first);
      MarkingPops(init, first);
      LaterStays(init, last, first);
    } else {
      OnlyLastIsOpen(init, last);
    }
  }

  lemma {:induction false} MarkingPops(items: seq<Item>, first: Item)
    requires Increasing(items) && FirstUnchecked(items) == Some(first)
    ensures Unchecked(items) != [] && Unchecked(Marked(items, first.line)) == Unchecked(items)[1..]
    decreases |items|, 1
  {
    var init, last := items[..|items| - 1], items[|items| - 1];
    var whole := init + [last];
    assert whole == items;
    AppendedPops(init, last, first);
  }

  /** Checking the first unchecked item takes exactly it off the list. */
  lemma CheckingPops(plan: string, first: Item)
    requires FirstUnchecked(ChecklistItems(plan)) == Some(first)
    ensures CheckItem(plan, first).Written?
    ensures Todo(plan) != [] && Todo(plan)[0] == first && Todo(CheckItem(plan, first).plan) == Todo(plan)[1..]
  {
    LinesIncrease(Parsed(Lines(plan)));
    FirstIsHead(ChecklistItems(plan));
    CheckingMarks(plan, first);
    MarkingPops(ChecklistItems(plan), first);
  }

  // ---- the plan moves on

  /** The plan with its first unchecked item checked. */
  function Next(plan: string): string {
    match FirstUnchecked(ChecklistItems(plan))
    case None => plan
    case Some(item) => (match CheckItem(plan, item) case Written(after) => after case _ => plan)
  }

  function Advance(plan: string, n: nat): string {
    Repeat(Next, plan, n)
  }

  lemma NextPops(plan: string)
    requires Todo(plan) != []
    ensures Todo(Next(plan)) == Todo(plan)[1..]
  {
    FirstIsHead(ChecklistItems(plan));
    CheckingPops(plan, Todo(plan)[0]);
  }

  predicate Kept(before: Item, after: Item) {
    after.line == before.line && after.text == before.text && (before.checked ==> after.checked)
  }

  predicate AllKept(before: seq<Item>, after: seq<Item>) {
    |after| == |before| && forall i | 0 <= i < |before| :: Kept(before[i], after[i])
  }

  /** The items of both plans have the same lines and texts, and nothing is unchecked again. */
  predicate OnlyChecked(before: string, after: string) {
    AllKept(ChecklistItems(before), ChecklistItems(after))
  }

  lemma MarkedKept(items: seq<Item>, line: nat)
    ensures AllKept(items, items) && AllKept(items, Marked(items, line))
  {
  }

  lemma NextMarks(plan: string, first: Item)
    requires FirstUnchecked(ChecklistItems(plan)) == Some(first)
    ensures ChecklistItems(Next(plan)) == Marked(ChecklistItems(plan), first.line)
  {
    CheckingMarks(plan, first);
  }

  lemma NextKeeps(plan: string)
    ensures OnlyChecked(plan, plan) && OnlyChecked(plan, Next(plan))
  {
    var items := ChecklistItems(plan);
    var first := FirstUnchecked(items);
    if first.Some? {
      NextMarks(plan, first.value);
      MarkedKept(items, first.value.line);
    } else {
      MarkedKept(items, 0);
    }
  }

  lemma KeptTrans(a: seq<Item>, b: seq<Item>, c: seq<Item>)
    requires AllKept(a, b) && AllKept(b, c)
    ensures AllKept(a, c)
  {
    assert forall i | 0 <= i < |a| :: Kept(a[i], b[i]) && Kept(b[i], c[i]) ==> Kept(a[i], c[i]);
  }

  /** Advancing by n checks the first n unchecked items and leaves the list of lines and texts alone. */
  lemma AdvanceLaw(plan: string, n: nat)
    requires n <= |Todo(plan)|
    ensures Todo(Advance(plan, n)) == Todo(plan)[n..] && OnlyChecked(plan, Advance(plan, n))
  {
    forall p | Todo(p) != [] ensures Todo(Next(p)) == Todo(p)[1..] {
      NextPops(p);
    }
    forall p ensures OnlyChecked(p, p) && OnlyChecked(p, Next(p)) {
      NextKeeps(p);
    }
    forall p, q, r | OnlyChecked(p, q) && OnlyChecked(q, r) ensures OnlyChecked(p, r) {
      KeptTrans(ChecklistItems(p), ChecklistItems(q), ChecklistItems(r));
    }
    RepeatPops(Next, Todo, plan, n);
    RepeatStays(Next, OnlyChecked, plan, n);
  }

  // ---- the loop

  function After(record: Record, rest: Outcome): Outcome {
    Outcome([record] + rest.records, rest.ending)
  }

  /**
   The run from iteration i on, with the items of `todo` unchecked, the first of which has failed
   `stalled` times in a row.
   */
  function Course(todo: seq<Item>, env: nat -> Attempt, i: nat, stalled: nat): Outcome
    requires stalled < MAX_STALLED_ITERATIONS
    decreases |todo|, MAX_STALLED_ITERATIONS - stalled
  {
    if env(i).aborted then Outcome([], Aborted)
    else if todo == [] then Outcome([], Complete)
    else
      var record := Record(i, todo[0].text, Succeeds(env(i)));
      if record.succeeded then After(record, Course(todo[1..], env, i + 1, 0))
      else if stalled + 1 == MAX_STALLED_ITERATIONS then Outcome([record], Stalled)
      else After(record, Course(todo, env, i + 1, stalled + 1))
  }

  /** How many of the records are successes. */
  function Successes(records: seq<Record>): nat {
    if records == [] then 0
    else Successes(records[..|records| - 1]) + (if records[|records| - 1].succeeded then 1 else 0)
  }

  lemma {:induction false} SuccessesCons(record: Record, records: seq<Record>)
    ensures Successes([record] + records) == (if record.succeeded then 1 else 0) + Successes(records)
  {
    if records == [] {
      assert ([record] + records)[..0] == [];
    } else {
      SuccessesCons(record, records[..|records| - 1]);
      assert ([record] + records)[..|records|] == [record] + records[..|records| - 1];
    }
  }

  /** At most twenty iterations for every item that is unchecked at the start. */
  lemma {:induction false} AtMostTwentyEach(todo: seq<Item>, env: nat -> Attempt, i: nat, stalled: nat)
    requires stalled < MAX_STALLED_ITERATIONS
    ensures |Course(todo, env, i, stalled).records| <= Max(0, 20 * |todo| - stalled)
    decreases |todo|, MAX_STALLED_ITERATIONS - stalled
  {
    if !env(i).aborted && todo != [] {
      if Succeeds(env(i)) {
        AtMostTwentyEach(todo[1..], env, i + 1, 0);
      } else if stalled + 1 < MAX_STALLED_ITERATIONS {
        AtMostTwentyEach(todo, env, i + 1, stalled + 1);
      }
    }
  }

  /** Every twentieth attempt works. */
  function Slow(i: nat): Attempt {
    Attempt(false, true, true, true, i % 20 == 0, "")
  }

  /** Where a run of attempts stands within its twenty. */
  predicate InTurn(i: nat, stalled: nat) {
    exists turns: nat | 0 <= turns <= i :: i == 20 * turns + stalled + 1
  }

  lemma NextInTurn(i: nat, stalled: nat)
    requires stalled < MAX_STALLED_ITERATIONS && InTurn(i, stalled)
    ensures Succeeds(Slow(i)) <==> stalled + 1 == MAX_STALLED_ITERATIONS
    ensures InTurn(i + 1, if stalled + 1 == MAX_STALLED_ITERATIONS then 0 else stalled + 1)
  {
    var turns: nat :| i == 20 * turns + stalled + 1;
    if stalled + 1 == MAX_STALLED_ITERATIONS {
      assert i + 1 == 20 * (turns + 1) + 0 + 1;
    } else {
      assert i + 1 == 20 * turns + (stalled + 1) + 1;
    }
  }

  /** The bound is reached: nineteen failures before every success. */
  lemma {:induction false} TwentyEachIsReached(todo: seq<Item>, i: nat, stalled: nat)
    requires stalled < MAX_STALLED_ITERATIONS && InTurn(i, stalled)
    ensures Course(todo, Slow, i, stalled).ending.Complete?
    ensures |Course(todo, Slow, i, stalled).records|
         == if todo == [] then 0 else 20 * |todo| - stalled
    decreases |todo|, MAX_STALLED_ITERATIONS - stalled
  {
    if todo != [] {
      NextInTurn(i, stalled);
      if stalled + 1 == MAX_STALLED_ITERATIONS {
        TwentyEachIsReached(todo[1..], i + 1, 0);
      } else {
        TwentyEachIsReached(todo, i + 1, stalled + 1);
      }
    }
  }

  lemma SuccessesUpTo(record: Record, more: seq<Record>, k: nat)
    requires 0 < k <= |more| + 1
    ensures Successes(([record] + more)[..k]) == (if record.succeeded then 1 else 0) + Successes(more[..k - 1])
  {
    assert ([record] + more)[..k] == [record] + more[..k - 1];
    SuccessesCons(record, more[..k - 1]);
  }

  lemma CourseHead(todo: seq<Item>, env: nat -> Attempt, i: nat, stalled: nat)
    returns (record: Record, rest: seq<Item>, next: nat)
    requires stalled < MAX_STALLED_ITERATIONS && |Course(todo, env, i, stalled).records| > 1
    ensures todo != [] && record == Record(i, todo[0].text, Succeeds(env(i))) && next < MAX_STALLED_ITERATIONS
    ensures rest == if record.succeeded then todo[1..] else todo
    ensures Course(todo, env, i, stalled).records == [record] + Course(rest, env, i + 1, next).records
  {
    record := Record(i, todo[0].text, Succeeds(env(i)));
    rest, next := if record.succeeded then todo[1..] else todo, if record.succeeded then 0 else stalled + 1;
  }

  /** Every record names its iteration, the item that was then first, and what came of it. */
  lemma {:induction false} RecordsAreFaithful(todo: seq<Item>, env: nat -> Attempt, i: nat, stalled: nat, k: nat)
    requires stalled < MAX_STALLED_ITERATIONS && k < |Course(todo, env, i, stalled).records|
    ensures var records := Course(todo, env, i, stalled).records;
            var done := Successes(records[..k]);
            && done < |todo| && records[k].iteration == i + k && records[k].item == todo[done].text
            && (records[k].succeeded <==> var a := env(i + k);
                                          a.subagentOk && a.headRestored && a.validationOk && a.commitOk)
    decreases k
  {
    if k > 0 {
      var record, rest, next := CourseHead(todo, env, i, stalled);
      RecordsAreFaithful(rest, env, i + 1, next, k - 1);
      SuccessesUpTo(record, Course(rest, env, i + 1, next).records, k);
    }
  }

  /** No more successes than items; all of them when the run is complete, not all when it has stalled. */
  lemma {:induction false} CompleteWhenAllDone(todo: seq<Item>, env: nat -> Attempt, i: nat, stalled: nat)
    requires stalled < MAX_STALLED_ITERATIONS
    ensures var out := Course(todo, env, i, stalled);
            && Successes(out.records) <= |todo|
            && (out.ending.Complete? ==> Successes(out.records) == |todo|)
            && (out.ending.Stalled? ==> Successes(out.records) < |todo|)
    decreases |todo|, MAX_STALLED_ITERATIONS - stalled
  {
    if !env(i).aborted && todo != [] {
      var record := Record(i, todo[0].text, Succeeds(env(i)));
      if Succeeds(env(i)) {
        CompleteWhenAllDone(todo[1..], env, i + 1, 0);
        SuccessesCons(record, Course(todo[1..], env, i + 1, 0).records);
      } else if stalled + 1 < MAX_STALLED_ITERATIONS {
        CompleteWhenAllDone(todo, env, i + 1, stalled + 1);
        SuccessesCons(record, Course(todo, env, i + 1, stalled + 1).records);
      } else {
        SuccessesCons(record, []);
        assert [record] + [] == [record];
      }
    }
  }

  /** The run stops early only after twenty failures in a row. */
  lemma {:induction false} StalledAfterTwentyFailures(todo: seq<Item>, env: nat -> Attempt, i: nat, stalled: nat)
    requires stalled < MAX_STALLED_ITERATIONS && Course(todo, env, i, stalled).ending.Stalled?
    ensures var records := Course(todo, env, i, stalled).records;
            && |records| + stalled >= 20
            && forall k | Max(0, |records| - 20) <= k < |records| :: !records[k].succeeded
    decreases |todo|, MAX_STALLED_ITERATIONS - stalled
  {
    if Succeeds(env(i)) {
      StalledAfterTwentyFailures(todo[1..], env, i + 1, 0);
    } else if stalled + 1 < MAX_STALLED_ITERATIONS {
      StalledAfterTwentyFailures(todo, env, i + 1, stalled + 1);
    }
  }

  /** Without a signal the run is not aborted. */
  lemma {:induction false} NeverAbortedUnasked(todo: seq<Item>, env: nat -> Attempt, i: nat, stalled: nat)
    requires stalled < MAX_STALLED_ITERATIONS && forall k: nat :: !env(k).aborted
    ensures !Course(todo, env, i, stalled).ending.Aborted?
    decreases |todo|, MAX_STALLED_ITERATIONS - stalled
  {
    if todo != [] {
      if Succeeds(env(i)) {
        NeverAbortedUnasked(todo[1..], env, i + 1, 0);
      } else if stalled + 1 < MAX_STALLED_ITERATIONS {
        NeverAbortedUnasked(todo, env, i + 1, stalled + 1);
      }
    }
  }

  // ---- the loop over the plan file

  class PlanFile {
    var text: string
  }

  /** What was recorded so far, and then the rest. */
  function Then(records: seq<Record>, rest: Outcome): Outcome {
    Outcome(records + rest.records, rest.ending)
  }

  lemma ThenAfter(records: seq<Record>, record: Record, rest: Outcome)
    ensures Then(records, After(record, rest)) == Then(records + [record], rest)
  {
    assert records + ([record] + rest.records) == records + [record] + rest.records;
  }

  /** One iteration: what the rest of the course is before it and after it. */
  lemma CourseStep(todo: seq<Item>, n: nat, env: nat -> Attempt, i: nat, stalled: nat, records: seq<Record>)
    requires stalled < MAX_STALLED_ITERATIONS && !env(i).aborted && n < |todo|
    ensures var record := Record(i, todo[n].text, Succeeds(env(i)));
            Then(records, Course(todo[n..], env, i, stalled)) ==
            if record.succeeded then Then(records + [record], Course(todo[n + 1..], env, i + 1, 0))
            else if stalled + 1 == MAX_STALLED_ITERATIONS then Outcome(records + [record], Stalled)
            else Then(records + [record], Course(todo[n..], env, i + 1, stalled + 1))
    ensures Successes(records + [Record(i, todo[n].text, Succeeds(env(i)))])
         == Successes(records) + (if Succeeds(env(i)) then 1 else 0)
  {
    var record := Record(i, todo[n].text, Succeeds(env(i)));
    assert (records + [record])[..|records|] == records;
    assert todo[n..][1..] == todo[n + 1..];
    if record.succeeded {
      ThenAfter(records, record, Course(todo[n + 1..], env, i + 1, 0));
    } else if stalled + 1 < MAX_STALLED_ITERATIONS {
      ThenAfter(records, record, Course(todo[n..], env, i + 1, stalled + 1));
    }
  }

  /** The texts the plan goes through as its items are checked one after the other. */
  ghost predicate Chain(texts: seq<string>, todo: seq<Item>) {
    && |texts| == |todo| + 1
    && (forall n {:trigger Todo(texts[n])} | 0 <= n < |texts| :: Todo(texts[n]) == todo[n..])
    && (forall n {:trigger CheckItem(texts[n], todo[n])} | 0 <= n < |todo| ::
          CheckItem(texts[n], todo[n]) == Written(texts[n + 1]))
  }

  lemma CheckHead(plan: string)
    requires Todo(plan) != []
    ensures CheckItem(plan, Todo(plan)[0]) == Written(Next(plan))
  {
    FirstIsHead(ChecklistItems(plan));
    CheckingMarks(plan, Todo(plan)[0]);
  }

  lemma ChainLink(plan: string, n: nat)
    requires n <= |Todo(plan)|
    ensures Todo(Advance(plan, n)) == Todo(plan)[n..]
    ensures n < |Todo(plan)| ==> CheckItem(Advance(plan, n), Todo(plan)[n]) == Written(Advance(plan, n + 1))
  {
    AdvanceLaw(plan, n);
    if n < |Todo(plan)| {
      assert Todo(Advance(plan, n))[0] == Todo(plan)[n];
      CheckHead(Advance(plan, n));
    }
  }

  lemma Advances(plan: string, count: nat) returns (texts: seq<string>)
    ensures |texts| == count && forall n | 0 <= n < count :: texts[n] == Advance(plan, n)
  {
    texts := seq(count, n requires 0 <= n => Advance(plan, n));
  }

  lemma AdvancesAreChain(plan: string, texts: seq<string>, todo: seq<Item>)
    requires todo == Todo(plan) && |texts| == |todo| + 1
    requires forall n | 0 <= n < |texts| :: texts[n] == Advance(plan, n)
    ensures Chain(texts, todo)
  {
    forall n | 0 <= n < |texts|
      ensures Todo(texts[n]) == todo[n..] && (n < |todo| ==> CheckItem(texts[n], todo[n]) == Written(texts[n + 1]))
    {
      ChainLink(plan, n);
      assert texts[n] == Advance(plan, n);
    }
  }

  lemma PlanChain(plan: string) returns (texts: seq<string>)
    ensures Chain(texts, Todo(plan)) && forall n | 0 <= n < |texts| :: texts[n] == Advance(plan, n)
  {
    texts := Advances(plan, |Todo(plan)| + 1);
    AdvancesAreChain(plan, texts, Todo(plan));
  }

  method ReadFirst(file: PlanFile, ghost texts: seq<string>, ghost todo: seq<Item>, ghost n: nat)
    returns (planBefore: string, first: Option<Item>)
    requires Chain(texts, todo) && n <= |todo| && file.text == texts[n]
    ensures planBefore == texts[n] && first == if n == |todo| then None else Some(todo[n])
  {
    planBefore := file.text;
    assert Todo(texts[n]) == todo[n..];
    FirstIsHead(ChecklistItems(planBefore));
    first := FirstUnchecked(ChecklistItems(planBefore));
  }

  /** The part of an iteration after the subagent: validate, check the item, commit, or put the plan back. */
  method Attempted(file: PlanFile, planBefore: string, item: Item, attempt: Attempt,
                   ghost texts: seq<string>, ghost todo: seq<Item>, ghost n: nat)
    returns (succeeded: bool)
    requires Chain(texts, todo) && n < |todo| && planBefore == texts[n] && item == todo[n]
    modifies file
    ensures succeeded <==> attempt.subagentOk && attempt.headRestored && attempt.validationOk && attempt.commitOk
    ensures file.text == if succeeded then texts[n + 1] else texts[n]
  {
    assert CheckItem(texts[n], todo[n]) == Written(texts[n + 1]);
    file.text := attempt.touched;
    var subagentOk := attempt.subagentOk && attempt.headRestored;
    succeeded := subagentOk && attempt.validationOk;
    if succeeded {
      file.text := CheckItem(planBefore, item).plan;
      succeeded := attempt.commitOk;
    }
    if !succeeded {
      file.text := planBefore;
    }
  }

  method RunLoop(file: PlanFile, env: nat -> Attempt, ghost texts: seq<string>, ghost todo: seq<Item>)
    returns (records: seq<Record>, ending: Ending)
    requires Chain(texts, todo) && file.text == texts[0]
    modifies file
    ensures Outcome(records, ending) == Course(todo, env, 1, 0)
    ensures Successes(records) <= |todo| && file.text == texts[Successes(records)]
  {
    ghost var n := 0;
    records := [];
    var iteration: nat, stalled: nat, stalledItem := 1, 0, None;
    assert todo[0..] == todo;
    while true
      invariant stalled < MAX_STALLED_ITERATIONS && n == Successes(records) <= |todo|
      invariant file.text == texts[n]
      invariant if stalledItem.Some? then n < |todo| && stalledItem.value == todo[n] else stalled == 0
      invariant Course(todo, env, 1, 0) == Then(records, Course(todo[n..], env, iteration, stalled))
      decreases |todo| - n, MAX_STALLED_ITERATIONS - stalled
    {
      if env(iteration).aborted {
        return records, Aborted;
      }
      var planBefore, first := ReadFirst(file, texts, todo, n);
      if first.None? {
        return records, Complete;
      }
      var item := first.value;
      if stalledItem != Some(item) {
        stalledItem, stalled := Some(item), 0;
      }
      CourseStep(todo, n, env, iteration, stalled, records);
      var succeeded := Attempted(file, planBefore, item, env(iteration), texts, todo, n);
      records := records + [Record(iteration, item.text, succeeded)];
      iteration := iteration + 1;
      if succeeded {
        n := n + 1;
        stalledItem, stalled := None, 0;
      } else {
        stalled := stalled + 1;
        if stalled >= MAX_STALLED_ITERATIONS {
          return records, Stalled;
        }
      }
    }
  }

  // ---- what a newly checked box stands for

  /** Iteration `record.iteration` did all there is to do for an item. */
  predicate Worked(env: nat -> Attempt, record: Record) {
    var a := env(record.iteration);
    a.subagentOk && a.headRestored && a.validationOk && a.commitOk
  }

  lemma {:induction false} NthSuccess(records: seq<Record>, j: nat) returns (k: nat)
    requires j < Successes(records)
    ensures k < |records| && records[k].succeeded && Successes(records[..k]) == j
  {
    var init := records[..|records| - 1];
    if j < Successes(init) {
      k := NthSuccess(init, j);
      assert records[..k] == init[..k];
    } else {
      k := |records| - 1;
    }
  }

  lemma {:induction false} UncheckedIsOpen(items: seq<Item>, item: Item)
    ensures item in Unchecked(items) <==> item in items && !item.checked
  {
    if items != [] {
      UncheckedIsOpen(items[..|items| - 1], item);
    }
  }

  /** An item that was open and is not among those left is one of the first n. */
  lemma CheckedIsEarly(before: seq<Item>, after: seq<Item>, n: nat, m: nat) returns (j: nat)
    requires AllKept(before, after) && Increasing(after) && n <= |Unchecked(before)|
    requires Unchecked(after) == Unchecked(before)[n..]
    requires m < |before| && !before[m].checked && after[m].checked
    ensures j < n && Unchecked(before)[j] == before[m]
  {
    var item := before[m];
    UncheckedIsOpen(before, item);
    j :| 0 <= j < |Unchecked(before)| && Unchecked(before)[j] == item;
    if n <= j {
      assert Unchecked(before)[n..][j - n] == item;
    }
    forall i | 0 <= i < |after| ensures after[i] != item {
      assert Kept(before[m], after[m]) && (i < m ==> after[i].line < after[m].line);
    }
    UncheckedIsOpen(after, item);
  }

  /** A box checked meanwhile has an iteration for its text that did all there is to do. */
  ghost predicate WorkedFor(before: seq<Item>, after: seq<Item>, env: nat -> Attempt, records: seq<Record>) {
    && AllKept(before, after)
    && forall m | 0 <= m < |before| && !before[m].checked && after[m].checked ::
         WorkedOn(env, records, before[m].text)
  }

  ghost predicate WorkedOn(env: nat -> Attempt, records: seq<Record>, text: string) {
    exists k :: 0 <= k < |records| && records[k].item == text && Worked(env, records[k])
  }

  /** What the records of a run say. */
  ghost predicate Faithful(env: nat -> Attempt, records: seq<Record>) {
    forall k | 0 <= k < |records| ::
      records[k].iteration == k + 1 && (records[k].succeeded <==> Worked(env, records[k]))
  }

  lemma CourseIsFaithful(todo: seq<Item>, env: nat -> Attempt)
    ensures Faithful(env, Course(todo, env, 1, 0).records)
  {
    var records := Course(todo, env, 1, 0).records;
    forall k | 0 <= k < |records|
      ensures records[k].iteration == k + 1 && (records[k].succeeded <==> Worked(env, records[k]))
    {
      RecordsAreFaithful(todo, env, 1, 0, k);
    }
  }

  lemma EarlyIsWorkedOn(todo: seq<Item>, env: nat -> Attempt, j: nat) returns (k: nat)
    requires j < Successes(Course(todo, env, 1, 0).records)
    ensures j < |todo| && k < |Course(todo, env, 1, 0).records|
    ensures Course(todo, env, 1, 0).records[k].item == todo[j].text && Worked(env, Course(todo, env, 1, 0).records[k])
  {
    k := NthSuccess(Course(todo, env, 1, 0).records, j);
    RecordsAreFaithful(todo, env, 1, 0, k);
  }

  lemma CourseIsWorkedFor(before: seq<Item>, after: seq<Item>, env: nat -> Attempt)
    requires AllKept(before, after) && Increasing(after)
    requires var n := Successes(Course(Unchecked(before), env, 1, 0).records);
             n <= |Unchecked(before)| && Unchecked(after) == Unchecked(before)[n..]
    ensures WorkedFor(before, after, env, Course(Unchecked(before), env, 1, 0).records)
  {
    var records := Course(Unchecked(before), env, 1, 0).records;
    forall m | 0 <= m < |before| && !before[m].checked && after[m].checked
      ensures WorkedOn(env, records, before[m].text)
    {
      var j := CheckedIsEarly(before, after, Successes(records), m);
      var k := EarlyIsWorkedOn(Unchecked(before), env, j);
    }
  }

  /** Every box a run checks has an iteration for its text in which subagent, HEAD, validation and commit worked. */
  lemma RunIsWorkedFor(plan: string, env: nat -> Attempt, records: seq<Record>, after: string)
    requires records == Course(Todo(plan), env, 1, 0).records && Successes(records) <= |Todo(plan)|
    requires after == Advance(plan, Successes(records))
    ensures Faithful(env, records) && WorkedFor(ChecklistItems(plan), ChecklistItems(after), env, records)
  {
    AdvanceLaw(plan, Successes(records));
    LinesIncrease(Parsed(Lines(after)));
    CourseIsFaithful(Todo(plan), env);
    CourseIsWorkedFor(ChecklistItems(plan), ChecklistItems(after), env);
  }

  /** The whole run over a plan file: what a caller of the loop can rely on. */
  method RunChecklist(file: PlanFile, env: nat -> Attempt) returns (records: seq<Record>, ending: Ending)
    modifies file
    ensures Outcome(records, ending) == Course(old(Todo(file.text)), env, 1, 0)
    ensures file.text == Advance(old(file.text), Successes(records))
    ensures Successes(records) <= |old(Todo(file.text))| && |records| <= 20 * |old(Todo(file.text))|
    ensures ending.Complete? ==> Successes(records) == |old(Todo(file.text))|
    ensures Faithful(env, records)
    ensures WorkedFor(old(ChecklistItems(file.text)), ChecklistItems(file.text), env, records)
  {
    ghost var plan, todo := file.text, Todo(file.text);
    ghost var texts := PlanChain(file.text);
    AtMostTwentyEach(todo, env, 1, 0);
    CompleteWhenAllDone(todo, env, 1, 0);
    records, ending := RunLoop(file, env, texts, todo);
    RunIsWorkedFor(plan, env, records, file.text);
  }
}
