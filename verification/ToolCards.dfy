/** Tool cards: calls and results may be rendered in any order and still meet. */
module ToolCards {
  import opened Prelude
  import opened TranscriptTurns

  datatype Status = Running | Succeeded | Failed
  datatype Result = Result(text: string, isError: bool)
  datatype Card = Card(call: ToolCall, status: Status, text: string)
  datatype Registry = Registry(cards: map<string, Card>, pending: map<string, Result>)

  datatype CardOp = Ensure(call: ToolCall) | Finish(id: string, result: Result)

  const EMPTY := Registry(map[], map[])

  function StatusOf(result: Result): Status {
    if result.isError then Failed else Succeeded
  }

  function EnsureCard(r: Registry, call: ToolCall): Registry {
    if call.id in r.cards then
      r.(cards := r.cards[call.id := r.cards[call.id].(call := call)])
    else if call.id in r.pending then
      Registry(r.cards[call.id := Card(call, StatusOf(r.pending[call.id]), r.pending[call.id].text)],
               r.pending - {call.id})
    else
      r.(cards := r.cards[call.id := Card(call, Running, "")])
  }

  function FinishCard(r: Registry, id: string, result: Result): Registry {
    if id in r.cards then r.(cards := r.cards[id := r.cards[id].(status := StatusOf(result), text := result.text)])
    else r.(pending := r.pending[id := result])
  }

  function Step(r: Registry, op: CardOp): Registry {
    match op
    case Ensure(call) => EnsureCard(r, call)
    case Finish(id, result) => FinishCard(r, id, result)
  }

  function Run(r: Registry, ops: seq<CardOp>): Registry {
    Fold(Step, r, ops)
  }

  // ---- order independence

  predicate Clash(a: CardOp, b: CardOp) {
    || (a.Ensure? && b.Ensure? && a.call.id == b.call.id)
    || (a.Finish? && b.Finish? && a.id == b.id)
  }

  /** One call and at most one result for each tool call id. */
  predicate NoClash(ops: seq<CardOp>) {
    forall i, j | 0 <= i < j < |ops| :: !Clash(ops[i], ops[j])
  }

  /** The registry that a set of operations determines, without mentioning their order. */
  ghost predicate Describes(r: Registry, ops: set<CardOp>) {
    && (forall id | id in r.cards :: Ensure(r.cards[id].call) in ops && r.cards[id].call.id == id)
    && (forall call | Ensure(call) in ops :: call.id in r.cards)
    && (forall id, result | Finish(id, result) in ops ::
          if id in r.cards then r.cards[id].status == (if result.isError then Failed else Succeeded)
                                && r.cards[id].text == result.text
          else id in r.pending && r.pending[id] == result)
    && (forall id | id in r.cards && (forall result :: Finish(id, result) !in ops) ::
          r.cards[id].status == Running && r.cards[id].text == "")
    && (forall id | id in r.pending :: id !in r.cards && Finish(id, r.pending[id]) in ops)
  }

  lemma EnsureDescribes(r: Registry, ops: set<CardOp>, call: ToolCall)
    requires Describes(r, ops) && forall a | a in ops :: !Clash(a, Ensure(call))
    ensures Describes(EnsureCard(r, call), ops + {Ensure(call)})
  {
    var all := ops + {Ensure(call)};
    if call.id in r.cards {
      assert Clash(Ensure(r.cards[call.id].call), Ensure(call));
      assert false;
    }
    assert forall id, result :: Finish(id, result) in all <==> Finish(id, result) in ops;
  }

  lemma FinishDescribes(r: Registry, ops: set<CardOp>, id: string, result: Result)
    requires Describes(r, ops) && forall a | a in ops :: !Clash(a, Finish(id, result))
    ensures Describes(FinishCard(r, id, result), ops + {Finish(id, result)})
  {
    var all := ops + {Finish(id, result)};
    assert forall other :: Finish(id, other) in ops ==> Clash(Finish(id, other), Finish(id, result));
    assert forall call :: Ensure(call) in all <==> Ensure(call) in ops;
    var after := FinishCard(r, id, result);
    forall i | i in after.cards && (forall other :: Finish(i, other) !in all)
      ensures after.cards[i].status == Running && after.cards[i].text == ""
    {
      assert i != id by {
        assert Finish(id, result) in all;
      }
      forall other ensures Finish(i, other) !in ops {
        assert Finish(i, other) !in all;
      }
    }
  }

  ghost function Set(ops: seq<CardOp>): set<CardOp> {
    set op | op in ops
  }

  lemma {:induction false} RunDescribes(ops: seq<CardOp>)
    requires NoClash(ops)
    ensures Describes(Run(EMPTY, ops), Set(ops))
  {
    if ops != [] {
      var init, op := ops[..|ops| - 1], ops[|ops| - 1];
      assert ops == init + [op];
      assert Set(ops) == Set(init) + {op};
      RunDescribes(init);
      match op
      case Ensure(call) => EnsureDescribes(Run(EMPTY, init), Set(init), call);
      case Finish(id, result) => FinishDescribes(Run(EMPTY, init), Set(init), id, result);
    }
  }

  lemma DescribedIsUnique(r: Registry, s: Registry, ops: set<CardOp>)
    requires Describes(r, ops) && Describes(s, ops) && forall a, b | a in ops && b in ops && Clash(a, b) :: a == b
    ensures r == s
  {
    forall id | id in r.cards || id in s.cards ensures id in r.cards && id in s.cards && r.cards[id] == s.cards[id] {
      var owner := if id in r.cards then r.cards[id].call else s.cards[id].call;
      assert Ensure(owner) in ops && owner.id == id;
      assert id in r.cards && id in s.cards;
      assert Clash(Ensure(r.cards[id].call), Ensure(s.cards[id].call));
      if result :| Finish(id, result) in ops {
      } else {
      }
    }
    assert r.cards == s.cards;
    forall id | id in r.pending ensures id in s.pending && r.pending[id] == s.pending[id] {
      assert Finish(id, r.pending[id]) in ops;
    }
    forall id | id in s.pending ensures id in r.pending {
      assert Finish(id, s.pending[id]) in ops;
    }
    assert r.pending == s.pending;
  }

  lemma ClashFreeSets(a: seq<CardOp>, b: seq<CardOp>)
    requires multiset(a) == multiset(b) && NoClash(a)
    ensures Set(a) == Set(b) && NoClash(b)
    ensures forall x, y | x in Set(a) && y in Set(a) && Clash(x, y) :: x == y
  {
    forall x ensures x in a <==> x in b {
      assert x in multiset(a) <==> x in multiset(b);
    }
    forall i, j | 0 <= i < j < |b| ensures !Clash(b[i], b[j]) {
      if b[i] == b[j] {
        assert b == b[..i] + [b[i]] + b[i + 1..j] + [b[j]] + b[j + 1..];
        assert multiset(b)[b[i]] >= 2;
        TwicePresent(a, b[i]);
      } else {
        assert b[i] in a && b[j] in a;
      }
    }
  }

  lemma {:induction false} TwicePresent(a: seq<CardOp>, x: CardOp)
    requires multiset(a)[x] >= 2
    ensures exists i, j :: 0 <= i < j < |a| && a[i] == x && a[j] == x
  {
    var init, last := a[..|a| - 1], a[|a| - 1];
    assert a == init + [last];
    if last == x {
      assert multiset(init)[x] >= 1;
      assert x in init;
    } else {
      TwicePresent(init, x);
    }
  }

  /** Every order of the same operations leaves the same cards. */
  lemma OrderIndependence(a: seq<CardOp>, b: seq<CardOp>)
    requires multiset(a) == multiset(b) && NoClash(a)
    ensures Run(EMPTY, a) == Run(EMPTY, b)
  {
    ClashFreeSets(a, b);
    RunDescribes(a);
    RunDescribes(b);
    DescribedIsUnique(Run(EMPTY, a), Run(EMPTY, b), Set(a));
  }

  /** The registry object: a map of cards and the results still waiting for their card. */
  class ToolCardRegistry {
    var cards: map<string, Card>
    var pending: map<string, Result>

    function View(): Registry
      reads this
    {
      Registry(cards, pending)
    }

    constructor ()
      ensures View() == EMPTY
    {
      cards, pending := map[], map[];
    }

    method EnsureStore(call: ToolCall)
      modifies this
      ensures View() == Step(old(View()), Ensure(call))
    {
      if call.id !in cards {
        var card := Card(call, Running, "");
        if call.id in pending {
          var result := pending[call.id];
          card := Card(call, if result.isError then Failed else Succeeded, result.text);
        }
        cards := cards[call.id := card];
        pending := pending - {call.id};
      } else {
        cards := cards[call.id := cards[call.id].(call := call)];
      }
    }

    method FinishResult(id: string, text: string, isError: bool) returns (shown: bool)
      modifies this
      ensures View() == Step(old(View()), Finish(id, Result(text, isError)))
      ensures shown <==> id in old(cards)
    {
      shown := id in cards;
      if !shown {
        pending := pending[id := Result(text, isError)];
      } else {
        cards := cards[id := cards[id].(status := if isError then Failed else Succeeded, text := text)];
      }
    }

    method Clear()
      modifies this
      ensures View() == EMPTY
    {
      cards, pending := map[], map[];
    }
  }
}
