/** The client as the program keeps it: a counter and a map of pending waiters, changed by whoever comes first. */
module RpcClientObject {
  import opened RpcClient

  class WaitingClient {
    var sequence: nat
    var waiters: set<nat>
    var pending: set<nat>
    var timers: set<nat>
    var outcomes: map<nat, seq<Outcome>>
    var calls: map<nat, Call>

    function View(): Client
      reads this
    {
      Client(sequence, waiters, pending, timers, outcomes, calls)
    }

    constructor ()
      ensures View() == NEW
    {
      sequence, waiters, pending, timers, outcomes, calls := 0, {}, {}, {}, map[], map[];
    }

    /** `rpc` up to the request. */
    method Rpc(wait: bool) returns (id: nat)
      modifies this
      ensures View() == Step(old(View()), Issue(wait)) && id == sequence
    {
      sequence := sequence + 1;
      id := sequence;
      calls := calls[id := Fetching];
      if wait {
        waiters := waiters + {id};
        timers := timers + {id};
        pending := pending + {id};
      }
    }

    method Acknowledge(id: nat)
      requires id in calls && calls[id].Fetching?
      modifies this`calls
      ensures View() == Step(old(View()), Acknowledged(id))
    {
      calls := calls[id := Returned];
    }

    /** Takes a pending waiter off the list, stops its timer and settles it. */
    method SettleWaiter(id: nat, outcome: Outcome)
      requires id in pending
      modifies this`pending, this`timers, this`outcomes
      ensures View() == Settle(old(View()), id, outcome)
    {
      pending := pending - {id};
      timers := timers - {id};
      outcomes := Also(outcomes, id, outcome);
    }

    /** The catch branch: the waiter is rejected, or without one the call itself throws. */
    method FailRequest(id: nat)
      requires id in calls && calls[id].Fetching?
      modifies this
      ensures View() == Step(old(View()), RequestFails(id))
    {
      if id !in pending {
        calls := calls[id := Thrown];
        return;
      }
      calls := calls[id := Returned];
      SettleWaiter(id, FetchFailed);
    }

    method HandleResponse(id: nat, success: bool)
      modifies this
      ensures View() == Step(old(View()), Response(id, success))
    {
      if id !in pending {
        return;
      }
      SettleWaiter(id, if success then Resolved else Refused);
    }

    method FireTimer(id: nat)
      requires id in timers
      modifies this
      ensures View() == Step(old(View()), TimerFires(id))
    {
      timers := timers - {id};
      if id in pending {
        pending := pending - {id};
        outcomes := Also(outcomes, id, TimedOut);
      }
    }

    /** Rejects every pending waiter, one after the other. */
    method CancelPending()
      modifies this
      ensures View() == Step(old(View()), Cancel) && pending == {}
    {
      ghost var before := View();
      var todo := pending;
      while todo != {}
        invariant todo <= pending && View() == CancelledSome(before, before.pending - todo)
      {
        var id :| id in todo;
        CancelOneMore(before, before.pending - todo, id);
        assert before.pending - (todo - {id}) == before.pending - todo + {id};
        timers := timers - {id};
        outcomes := Also(outcomes, id, Cancelled);
        todo := todo - {id};
      }
      assert before.pending - todo == before.pending;
      pending := {};
    }

    method Dispose()
      modifies this
      ensures View() == Step(old(View()), Cancel) && pending == {}
    {
      CancelPending();
    }
  }

  /** Some of the pending waiters already rejected, none yet taken off the list. */
  ghost function CancelledSome(c: Client, ids: set<nat>): Client {
    c.(timers := c.timers - ids,
       outcomes := map id | id in c.outcomes.Keys + ids ::
         if id in ids then OutcomesOf(c.outcomes, id) + [Cancelled] else c.outcomes[id])
  }

  lemma CancelOneMore(c: Client, ids: set<nat>, id: nat)
    requires id !in ids
    ensures var some := CancelledSome(c, ids);
            CancelledSome(c, ids + {id})
            == some.(timers := some.timers - {id}, outcomes := Also(some.outcomes, id, Cancelled))
  {
    var some, more := CancelledSome(c, ids), CancelledSome(c, ids + {id});
    assert more.outcomes == Also(some.outcomes, id, Cancelled);
  }
}
