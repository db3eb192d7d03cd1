/** The authorization service as the object the hub keeps: each call updates its maps in place. */
module CloudAuthorizationService {
  import opened Prelude
  import opened CloudAuthorization

  /** The sweep of some of the listed flows. */
  ghost function SweepOver(s: Service, ids: set<string>, now: int): Service {
    s.(objects := (map id | id in s.objects ::
                     if id in ids && Lapsed(s, id, now) then Erase(s.objects[id], Expired) else s.objects[id]),
       flows := (set id | id in s.flows
                          && !(id in ids && Lapsed(s, id, now) && now - s.objects[id].expiresAt > FLOW_TTL_MS)),
       stateIndex := s.stateIndex - (set id | id in ids && Lapsed(s, id, now) :: s.objects[id].state))
  }

  lemma SweepOverAll(s: Service, now: int)
    ensures SweepOver(s, s.flows, now) == CloudAuthorization.Sweep(s, now)
  {
    assert (set id | id in s.flows && Lapsed(s, id, now) :: s.objects[id].state)
        == (set id | id in s.flows && Lapsed(s, id, now) :: s.objects[id].state);
  }

  /** Sweeping one more flow: what the body of the loop must do. */
  lemma SweepOneMore(s: Service, ids: set<string>, id: string, now: int)
    requires s.flows <= s.objects.Keys && id in s.flows && id !in ids
    ensures SweepOver(s, ids + {id}, now) ==
            var before := SweepOver(s, ids, now);
            if s.objects[id].expiresAt > now then before
            else before.(objects := before.objects[id := Erase(s.objects[id], Expired)],
                         flows := if now - s.objects[id].expiresAt > FLOW_TTL_MS then before.flows - {id}
                                  else before.flows,
                         stateIndex := before.stateIndex - {s.objects[id].state})
  {
    var before, after := SweepOver(s, ids, now), SweepOver(s, ids + {id}, now);
    var lapsed := set x | x in ids && Lapsed(s, x, now) :: s.objects[x].state;
    var more := set x | x in ids + {id} && Lapsed(s, x, now) :: s.objects[x].state;
    if s.objects[id].expiresAt > now {
      assert more == lapsed;
      assert after.objects == before.objects && after.flows == before.flows;
    } else {
      assert more == lapsed + {s.objects[id].state};
      assert after.stateIndex == before.stateIndex - {s.objects[id].state};
      assert after.objects == before.objects[id := Erase(s.objects[id], Expired)];
    }
  }

  class AuthorizationService {
    const configured: set<Provider>
    var objects: map<string, Flow>
    var flows: set<string>
    var stateIndex: map<string, string>
    var exchanging: set<string>
    var accepted: seq<string>
    var saves: seq<string>
    var stored: seq<string>

    function View(): Service
      reads this
    {
      Service(configured, objects, flows, stateIndex, exchanging, accepted, saves, stored)
    }

    constructor (configured: set<Provider>)
      ensures View() == Initial(configured)
    {
      this.configured, objects, flows, stateIndex, exchanging := configured, map[], {}, map[], {};
      accepted, saves, stored := [], [], [];
    }

    method Sweep(now: int)
      requires flows <= objects.Keys
      modifies this`objects, this`flows, this`stateIndex
      ensures View() == CloudAuthorization.Sweep(old(View()), now) && flows <= objects.Keys
    {
      ghost var before := View();
      var todo := flows;
      while todo != {}
        invariant todo <= before.flows && View() == SweepOver(before, before.flows - todo, now)
      {
        var id :| id in todo;
        SweepOneMore(before, before.flows - todo, id, now);
        assert before.flows - (todo - {id}) == before.flows - todo + {id};
        todo := todo - {id};
        var flow := objects[id];
        if flow.expiresAt <= now {
          objects := objects[id := flow.(status := Expired, verifier := "", authorizationUrl := "")];
          stateIndex := stateIndex - {flow.state};
          if now - flow.expiresAt > FLOW_TTL_MS {
            flows := flows - {id};
          }
        }
      }
      assert before.flows - todo == before.flows;
      SweepOverAll(before, now);
    }

    /** A start once the sweep is done. */
    method StartFlow(provider: Provider, id: string, flow: Flow) returns (reply: Reply)
      modifies this`objects, this`flows, this`stateIndex
      ensures reply == Admission(old(View()), provider)
      ensures View() == if reply.Done? then Admit(old(View()), id, flow) else old(View())
    {
      reply := Admission(View(), provider);
      if reply.Done? {
        objects := objects[id := flow];
        flows := flows + {id};
        stateIndex := stateIndex[flow.state := id];
      }
    }

    method Start(provider: Provider, id: string, state: string, verifier: string, url: string, now: int, createdAt: int)
      returns (reply: Reply)
      requires Inv(View()) && Fresh(View(), Event.Start(provider, id, state, verifier, url, now, createdAt))
      modifies this
      ensures View() == Step(old(View()), Event.Start(provider, id, state, verifier, url, now, createdAt))
      ensures Inv(View())
      ensures !reply.FlowLimit? && (reply.Done? <==> id in objects)
      ensures reply == Done || reply == if provider != DigitalOcean && provider != Gcp then NotSupported
                                        else if provider !in configured then NotConfigured else FlowBusy
    {
      ghost var event := Event.Start(provider, id, state, verifier, url, now, createdAt);
      StepInv(View(), event);
      SweepInv(View(), now);
      Sweep(now);
      RefusalTellsWhy(View(), provider);
      reply :=
        StartFlow(provider, id, Flow(provider, state, verifier, url, Authorizing, createdAt + FLOW_TTL_MS));
    }

    /** The snapshot of a flow, without its secrets. */
    method Status(id: string, now: int) returns (reply: Option<Status>)
      requires Inv(View())
      modifies this
      ensures View() == Step(old(View()), Query(id, now)) && Inv(View())
      ensures reply == if id in flows && id in objects then Some(objects[id].status) else None
    {
      SweepInv(View(), now);
      Sweep(now);
      reply := if id in flows then Some(objects[id].status) else None;
    }

    method Cancel(id: string, now: int) returns (reply: Reply)
      requires Inv(View())
      modifies this
      ensures View() == Step(old(View()), Event.Cancel(id, now)) && Inv(View())
      ensures reply == if id in flows then Done else NotFound
    {
      StepInv(View(), Event.Cancel(id, now));
      SweepInv(View(), now);
      Sweep(now);
      if id !in flows {
        return NotFound;
      }
      var flow := objects[id];
      objects := objects[id := Erase(flow, if flow.status.Authorizing? then Cancelled else flow.status)];
      stateIndex := stateIndex - {flow.state};
      return Done;
    }

    /** The callback up to its first await; a true answer means the exchange of the code is now under way. */
    method Callback(provider: Provider, state: string, error: bool, code: bool, now: int)
      returns (reply: Reply, suspended: bool)
      requires Inv(View())
      modifies this
      ensures View() == Step(old(View()), Event.Callback(provider, state, error, code, now)) && Inv(View())
      ensures reply.Done? <==> accepted != old(accepted)
      ensures reply == Done || reply == if state == "" then StateRequired else InvalidCallback
      ensures suspended <==> exchanging != old(exchanging)
    {
      ghost var before := View();
      ghost var event := Event.Callback(provider, state, error, code, now);
      StepInv(before, event);
      SweepInv(before, now);
      Sweep(now);
      if state == "" {
        return StateRequired, false;
      }
      var matched := Match(View(), provider, state);
      if matched.None? {
        return InvalidCallback, false;
      }
      suspended := TakeCallback(matched.value, error, code);
      assert View() == Step(before, event);
      reply := Done;
    }

    /** The state has matched: it can never match again, and a code is exchanged only for a configured provider. */
    method TakeCallback(id: string, error: bool, code: bool) returns (suspended: bool)
      requires id in objects && id !in exchanging
      modifies this`objects, this`stateIndex, this`exchanging, this`accepted
      ensures View() == Accept(old(View()), id, error, code)
      ensures accepted == old(accepted) + [id] && (suspended <==> exchanging != old(exchanging))
    {
      var flow := objects[id];
      stateIndex := stateIndex - {flow.state};
      accepted := accepted + [id];
      suspended := !error && code && flow.provider in configured;
      objects := objects[id := if suspended then flow.(authorizationUrl := "") else Erase(flow, Failed)];
      if suspended {
        exchanging := exchanging + {id};
      }
    }

    /** The rest of the callback, after the exchange and the save. */
    method ExchangeEnds(id: string, outcome: Outcome)
      requires Inv(View()) && id in exchanging
      modifies this
      ensures View() == Step(old(View()), Event.ExchangeEnds(id, outcome)) && Inv(View())
      ensures !outcome.ExchangeFails? ==> id !in old(saves) && saves == old(saves) + [id]
      ensures id in objects && objects[id].status == if outcome == Saves then Succeeded else Failed
      ensures stored == if outcome == Saves then old(stored) + [id] else old(stored)
    {
      StepInv(View(), Event.ExchangeEnds(id, outcome));
      if !outcome.ExchangeFails? {
        saves := saves + [id];
      }
      if outcome.Saves? {
        stored := stored + [id];
      }
      objects := objects[id := objects[id].(verifier := "", status := if outcome.Saves? then Succeeded else Failed)];
      exchanging := exchanging - {id};
    }

    method Close()
      requires Inv(View())
      modifies this
      ensures View() == Step(old(View()), Event.Close) && Inv(View())
      ensures flows == {} && stateIndex == map[]
      ensures forall id | id in old(flows) ::
                id in objects && objects[id] == old(objects)[id].(verifier := "", authorizationUrl := "")
    {
      StepInv(View(), Event.Close);
      objects := map id | id in objects ::
        if id in flows then objects[id].(verifier := "", authorizationUrl := "") else objects[id];
      flows := {};
      stateIndex := map[];
    }
  }
}
