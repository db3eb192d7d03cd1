/** Events already seen on the stream, recognized by id among the last few accepted. */
module SseDeduper {
  import opened Prelude

  /** The last n elements, or all of them. */
  function Last<T>(s: seq<T>, n: nat): (r: seq<T>)
    ensures |r| == Min(|s|, n)
  {
    if |s| <= n then s else s[|s| - n..]
  }

  lemma LastOfLast<T>(s: seq<T>, x: T, n: nat)
    ensures Last(Last(s, n) + [x], n) == Last(s + [x], n)
  {
  }

  lemma InLast<T>(s: seq<T>, i: nat, n: nat)
    requires i < |s|
    ensures |s| - i <= n ==> s[i] in Last(s, n)
  {
    if |s| - i <= n < |s| {
      assert Last(s, n)[i - (|s| - n)] == s[i];
    }
  }

  predicate Missing(id: Option<string>) {
    id.None? || id.value == ""
  }

  /** The ids accepted so far, after one more message; with no id, or an empty one, it passes and leaves no trace. */
  function Accept(maxIds: nat): (seq<string>, Option<string>) -> seq<string> {
    (accepted: seq<string>, id: Option<string>) =>
      if Missing(id) || id.value in Last(accepted, maxIds) then accepted else accepted + [id.value]
  }

  function Accepted(maxIds: nat, messages: seq<Option<string>>): seq<string> {
    Fold(Accept(maxIds), [], messages)
  }

  /** An id, not empty, that is not among the last `maxIds` of these. */
  predicate IsNew(maxIds: nat, accepted: seq<string>, id: Option<string>) {
    id.Some? && id.value != "" && forall k | 0 <= k < |accepted| && |accepted| - k <= maxIds :: accepted[k] != id.value
  }

  /** Exactly the new ids are accepted. */
  lemma AcceptedExactlyWhenNew(maxIds: nat, messages: seq<Option<string>>, id: Option<string>)
    ensures var before := Accepted(maxIds, messages);
            Accepted(maxIds, messages + [id]) == if IsNew(maxIds, before, id) then before + [id.value] else before
  {
    assert (messages + [id])[..|messages|] == messages;
    NewIsNotLast(maxIds, Accepted(maxIds, messages), id);
  }

  lemma NewIsNotLast(maxIds: nat, accepted: seq<string>, id: Option<string>)
    ensures IsNew(maxIds, accepted, id) <==> !Missing(id) && id.value !in Last(accepted, maxIds)
  {
    if !Missing(id) {
      forall k | 0 <= k < |accepted| && |accepted| - k <= maxIds ensures accepted[k] in Last(accepted, maxIds) {
        InLast(accepted, k, maxIds);
      }
      assert id.value in Last(accepted, maxIds) ==> !IsNew(maxIds, accepted, id) by {
        if i :| 0 <= i < |Last(accepted, maxIds)| && Last(accepted, maxIds)[i] == id.value {
          assert accepted[|accepted| - |Last(accepted, maxIds)| + i] == id.value;
        }
      }
    }
  }

  /** An id is accepted again only after at least `maxIds` others. */
  lemma {:induction false} RepeatsAreFarApart(maxIds: nat, messages: seq<Option<string>>, i: nat, j: nat)
    requires i < j < |Accepted(maxIds, messages)| && Accepted(maxIds, messages)[i] == Accepted(maxIds, messages)[j]
    ensures j - i > maxIds
  {
    var init, last := messages[..|messages| - 1], messages[|messages| - 1];
    var before := Accepted(maxIds, init);
    if j < |before| {
      RepeatsAreFarApart(maxIds, init, i, j);
    } else {
      InLast(before, i, maxIds);
    }
  }

  class Deduper {
    const maxIds: nat
    var ids: set<string>
    var queue: seq<string>
    ghost var accepted: seq<string>

    ghost predicate Valid()
      reads this
    {
      && queue == Last(accepted, maxIds) && Mirrors()
      && forall i, j | 0 <= i < j < |queue| :: queue[i] != queue[j]
    }

    constructor (maxIds: nat)
      ensures Valid() && accepted == [] && this.maxIds == maxIds
    {
      this.maxIds, ids, queue, accepted := maxIds, {}, [], [];
    }

    /** Whether the message is a duplicate: exactly when it has an id that is among the last `maxIds` accepted. */
    method Dedupe(id: Option<string>) returns (duplicate: bool)
      requires Valid()
      modifies this
      ensures Valid() && accepted == Accept(maxIds)(old(accepted), id)
      ensures duplicate <==> id.Some? && id.value != "" && !IsNew(maxIds, old(accepted), id)
    {
      NewIsNotLast(maxIds, accepted, id);
      if Missing(id) {
        return false;
      }
      if id.value in ids {
        return true;
      }
      ids := ids + {id.value};
      queue := queue + [id.value];
      accepted := accepted + [id.value];
      LastOfLast(old(accepted), id.value, maxIds);
      Trim();
      return false;
    }

    predicate Mirrors()
      reads this
    {
      (forall id | id in ids :: id in queue) && (forall id | id in queue :: id in ids)
    }

    /** Forgets the oldest ids until the queue is short enough. */
    method Trim()
      requires Mirrors() && forall i, j | 0 <= i < j < |queue| :: queue[i] != queue[j]
      modifies this`ids, this`queue
      ensures queue == Last(old(queue), maxIds) && Mirrors()
      ensures forall i, j | 0 <= i < j < |queue| :: queue[i] != queue[j]
    {
      ghost var k := 0;
      while |queue| > maxIds
        invariant 0 <= k <= |old(queue)| && queue == old(queue)[k..] && (k > 0 ==> |queue| >= maxIds)
        invariant Mirrors() && forall i, j | 0 <= i < j < |queue| :: queue[i] != queue[j]
      {
        var oldest := queue[0];
        assert queue == [oldest] + queue[1..];
        queue := queue[1..];
        ids := ids - {oldest};
        k := k + 1;
      }
    }
  }
}
