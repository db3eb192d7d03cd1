/**
 The stack of focus boundaries of a document: everything beside the active surface is made inert, and
 given its own flag back when the surface changes.
 */
module FocusBoundary {
  import opened Prelude

  /** A document that keeps its shape. Elements are numbered; the depth of one is that of its parent plus one. */
  datatype Tree = Tree(parent: map<nat, nat>, depth: map<nat, nat>, body: nat)

  predicate Shaped(t: Tree) {
    forall e | e in t.parent ::
      e in t.depth && t.parent[e] in t.depth && t.depth[e] == t.depth[t.parent[e]] + 1
  }

  /** Elements with the same parent, the element itself not among them. */
  function Siblings(t: Tree, e: nat): (r: set<nat>)
    requires e in t.parent
  {
    set x | x in t.parent && t.parent[x] == t.parent[e] && x != e
  }

  /** What has to be inert while `node` is the active surface: the siblings all the way up its ancestor path. */
  function Beside(t: Tree, node: nat): (r: set<nat>)
    requires Shaped(t)
    ensures r <= t.parent.Keys
    decreases if node in t.depth then t.depth[node] else 0
  {
    if node !in t.parent then {}
    else Siblings(t, node) + (if t.parent[node] == t.body then {} else Beside(t, t.parent[node]))
  }

  datatype Entry = Entry(id: nat, node: nat, priority: int)

  /** The entry of the highest priority, the latest among equals. */
  function Top(entries: seq<Entry>): (top: Option<Entry>)
    ensures top.None? <==> entries == []
  {
    if entries == [] then None
    else
      var best, candidate := Top(entries[..|entries| - 1]), entries[|entries| - 1];
      if best.None? || candidate.priority >= best.value.priority then Some(candidate) else best
  }

  /** Entry k has the highest priority, and every later one a lower. */
  predicate TopAt(entries: seq<Entry>, k: int) {
    && 0 <= k < |entries|
    && (forall j | 0 <= j < |entries| :: entries[j].priority <= entries[k].priority)
    && (forall j | k < j < |entries| :: entries[j].priority < entries[k].priority)
  }

  lemma {:induction false} TopLaw(entries: seq<Entry>) returns (k: nat)
    requires entries != []
    ensures TopAt(entries, k) && Top(entries) == Some(entries[k])
  {
    k := |entries| - 1;
    if k > 0 {
      var before := TopLaw(entries[..k]);
      if entries[k].priority < entries[before].priority {
        k := before;
      }
    }
  }

  // ---- the stack

  /** The registered entries, and the number of the next one. */
  datatype Registry = Registry(entries: seq<Entry>, next: nat)

  /** The registry, the flags put aside, and the flag of every element. */
  datatype Stack = Stack(registry: Registry, isolated: map<nat, bool>, inert: map<nat, bool>)

  datatype Event = Register(node: nat, priority: int) | Release(id: nat)

  function IndexOf(entries: seq<Entry>, id: nat): (index: Option<nat>)
    ensures index.Some? ==> index.value < |entries| && entries[index.value].id == id
    ensures index.None? ==> forall i | 0 <= i < |entries| :: entries[i].id != id
  {
    if entries == [] then None
    else if IndexOf(entries[..|entries| - 1], id).Some? then IndexOf(entries[..|entries| - 1], id)
    else if entries[|entries| - 1].id == id then Some(|entries| - 1)
    else None
  }

  function RemoveAt(entries: seq<Entry>, index: nat): (r: seq<Entry>)
    requires index < |entries|
    ensures |r| == |entries| - 1 && forall k | 0 <= k < |r| :: r[k] == if k < index then entries[k] else entries[k + 1]
  {
    entries[..index] + entries[index + 1..]
  }

  function Change(r: Registry, event: Event): Registry {
    match event
    case Register(node, priority) => Registry(r.entries + [Entry(r.next, node, priority)], r.next + 1)
    case Release(id) =>
      match IndexOf(r.entries, id)
      case None => r
      case Some(index) => r.(entries := RemoveAt(r.entries, index))
  }

  function Wanted(t: Tree, entries: seq<Entry>): (wanted: set<nat>)
    requires Shaped(t)
    ensures wanted <= t.parent.Keys
  {
    if entries == [] then {} else Beside(t, Top(entries).value.node)
  }

  /** Every element's own flag. */
  function Original(isolated: map<nat, bool>, inert: map<nat, bool>): map<nat, bool> {
    map e | e in inert :: if e in isolated then isolated[e] else inert[e]
  }

  /** Everything in the set inert, the rest as given. */
  function Forced(flags: map<nat, bool>, beside: set<nat>): map<nat, bool> {
    map e | e in flags :: e in beside || flags[e]
  }

  function Kept(flags: map<nat, bool>, beside: set<nat>): map<nat, bool> {
    map e | e in flags && e in beside :: flags[e]
  }

  /** Gives every element its own flag back, and makes inert what the entries now want. */
  function Isolate(t: Tree, s: Stack, registry: Registry): Stack
    requires Shaped(t)
  {
    var own, wanted := Original(s.isolated, s.inert), Wanted(t, registry.entries);
    Stack(registry, Kept(own, wanted), Forced(own, wanted))
  }

  /** A boundary that was already released changes nothing. */
  predicate Stale(s: Stack, event: Event) {
    event.Release? && IndexOf(s.registry.entries, event.id).None?
  }

  function Step(t: Tree): (Stack, Event) -> Stack
    requires Shaped(t)
  {
    (s: Stack, event: Event) => if Stale(s, event) then s else Isolate(t, s, Change(s.registry, event))
  }

  const EMPTY: Registry := Registry([], 0)

  function Run(t: Tree, flags: map<nat, bool>, events: seq<Event>): Stack
    requires Shaped(t)
  {
    Fold(Step(t), Stack(EMPTY, map[], flags), events)
  }

  /** The elements beside the path of the top entry are inert, all others as in `flags`, which can be recovered. */
  predicate Right(t: Tree, flags: map<nat, bool>, s: Stack)
    requires Shaped(t)
  {
    var wanted := Wanted(t, s.registry.entries);
    s.isolated == Kept(flags, wanted) && s.inert == Forced(flags, wanted)
  }

  lemma OwnFlagsRecovered(flags: map<nat, bool>, wanted: set<nat>)
    ensures Original(Kept(flags, wanted), Forced(flags, wanted)) == flags
    ensures Forced(flags, {}) == flags && Kept(flags, {}) == map[]
  {
  }

  lemma OneMore(flags: map<nat, bool>, beside: set<nat>, e: nat)
    requires e in flags && e !in beside
    ensures Kept(flags, beside + {e}) == Kept(flags, beside)[e := Forced(flags, beside)[e]]
    ensures Forced(flags, beside + {e}) == Forced(flags, beside)[e := true]
  {
  }

  lemma IsolateIsRight(t: Tree, flags: map<nat, bool>, s: Stack, registry: Registry)
    requires Shaped(t) && Original(s.isolated, s.inert) == flags
    ensures Right(t, flags, Isolate(t, s, registry))
  {
  }

  lemma StepIsRight(t: Tree, flags: map<nat, bool>, s: Stack, event: Event)
    requires Shaped(t) && Right(t, flags, s)
    ensures Right(t, flags, Step(t)(s, event))
  {
    OwnFlagsRecovered(flags, Wanted(t, s.registry.entries));
    IsolateIsRight(t, flags, s, Change(s.registry, event));
  }

  /**
   However boundaries are registered and released: every element's own flag can be told, the elements
   beside the path of the top entry are inert and all others have their own flag, and once every
   boundary is released the document is as it was.
   */
  lemma {:induction false} RunIsRight(t: Tree, flags: map<nat, bool>, events: seq<Event>)
    requires Shaped(t)
    ensures var s := Run(t, flags, events);
            && Right(t, flags, s) && Original(s.isolated, s.inert) == flags
            && (s.registry.entries == [] ==> s.inert == flags && s.isolated == map[])
  {
    var s := Run(t, flags, events);
    if events != [] {
      var before := Run(t, flags, events[..|events| - 1]);
      RunIsRight(t, flags, events[..|events| - 1]);
      StepIsRight(t, flags, before, events[|events| - 1]);
    }
    OwnFlagsRecovered(flags, Wanted(t, s.registry.entries));
  }

  // ---- which boundaries are on the stack

  predicate Ordered(r: Registry) {
    && (forall i, j | 0 <= i < j < |r.entries| :: r.entries[i].id < r.entries[j].id)
    && (forall i | 0 <= i < |r.entries| :: r.entries[i].id < r.next)
  }

  lemma ChangeKeepsOrder(r: Registry, event: Event)
    requires Ordered(r)
    ensures Ordered(Change(r, event))
  {
  }

  predicate Listed(r: Registry, id: nat) {
    IndexOf(r.entries, id).Some?
  }

  lemma RegisterLists(r: Registry, node: nat, priority: int, id: nat)
    ensures Listed(Change(r, Register(node, priority)), id) <==> id == r.next || Listed(r, id)
  {
    var after := Change(r, Register(node, priority)).entries;
    assert after[..|r.entries|] == r.entries;
  }

  lemma ReleaseLists(r: Registry, released: nat, id: nat)
    requires Ordered(r)
    ensures Listed(Change(r, Release(released)), id) <==> Listed(r, id) && id != released
  {
    var at, after := IndexOf(r.entries, released), Change(r, Release(released)).entries;
    if at.Some? && Listed(r, id) && id != released {
      var k := IndexOf(r.entries, id).value;
      assert after[if k < at.value then k else k - 1].id == id;
    }
  }

  /** How many registrations there were: the number the next one gets. */
  function Registered(events: seq<Event>): nat {
    if events == [] then 0
    else Registered(events[..|events| - 1]) + (if events[|events| - 1].Register? then 1 else 0)
  }

  /** Whether the entry was released after it was registered. */
  predicate Released(events: seq<Event>, id: nat) {
    events != [] &&
    var before, last := events[..|events| - 1], events[|events| - 1];
    Released(before, id) || (last == Release(id) && id < Registered(before))
  }

  lemma {:induction false} RunRegistry(t: Tree, flags: map<nat, bool>, events: seq<Event>)
    requires Shaped(t)
    ensures Run(t, flags, events).registry == Fold(Change, EMPTY, events)
  {
    if events != [] {
      RunRegistry(t, flags, events[..|events| - 1]);
    }
  }

  /** An entry is on the stack exactly when it was registered and not released since. */
  lemma {:induction false} OnStackUntilReleased(events: seq<Event>, id: nat)
    ensures var r := Fold(Change, EMPTY, events);
            && Ordered(r) && r.next == Registered(events)
            && (Listed(r, id) <==> id < Registered(events) && !Released(events, id))
            && (Released(events, id) ==> id < Registered(events))
  {
    if events != [] {
      var before, last := events[..|events| - 1], events[|events| - 1];
      var r := Fold(Change, EMPTY, before);
      OnStackUntilReleased(before, id);
      ChangeKeepsOrder(r, last);
      match last
      case Register(node, priority) => RegisterLists(r, node, priority, id);
      case Release(released) => ReleaseLists(r, released, id);
    }
  }

  /** The call that put an entry on the stack. */
  predicate Registers(events: seq<Event>, i: int, e: Entry) {
    0 <= i < |events| && events[i] == Register(e.node, e.priority) && Registered(events[..i]) == e.id
  }

  lemma RegistersEarlier(events: seq<Event>, e: Entry)
    requires events != []
    ensures var before, last := events[..|events| - 1], events[|events| - 1];
            (exists i :: Registers(events, i, e))
            <==> (exists i :: Registers(before, i, e))
                 || (last == Register(e.node, e.priority) && Registered(before) == e.id)
  {
    var before := events[..|events| - 1];
    forall i | 0 <= i < |before| ensures Registers(before, i, e) <==> Registers(events, i, e) {
      assert before[..i] == events[..i];
    }
    assert events[..|events| - 1] == before;
    assert Registers(events, |events| - 1, e) <==>
           events[|events| - 1] == Register(e.node, e.priority) && Registered(before) == e.id;
  }

  lemma ReleaseTakes(r: Registry, released: nat, e: Entry)
    requires Ordered(r)
    ensures e in Change(r, Release(released)).entries <==> e in r.entries && e.id != released
  {
    var at, after := IndexOf(r.entries, released), Change(r, Release(released)).entries;
    if at.Some? && e in r.entries && e.id != released {
      var k :| 0 <= k < |r.entries| && r.entries[k] == e;
      assert after[if k < at.value then k else k - 1] == e;
    }
  }

  /** The entries on the stack are those registered and not released since, with their node and priority. */
  lemma {:induction false} EntriesExactly(events: seq<Event>, e: Entry)
    ensures e in Fold(Change, EMPTY, events).entries
       <==> (exists i :: Registers(events, i, e)) && !Released(events, e.id)
  {
    if events != [] {
      var before, last := events[..|events| - 1], events[|events| - 1];
      EntriesExactly(before, e);
      RegistersEarlier(events, e);
      OnStackUntilReleased(before, e.id);
      match last
      case Register(node, priority) =>
      case Release(released) =>
        ReleaseTakes(Fold(Change, EMPTY, before), released, e);
        RegisteredIsCounted(before, e);
    }
  }

  lemma RegisteredIsCounted(events: seq<Event>, e: Entry)
    ensures (exists i :: Registers(events, i, e)) ==> e.id < Registered(events)
  {
    forall i | Registers(events, i, e) ensures e.id < Registered(events) {
      RegisteredGrows(events, i);
    }
  }

  lemma {:induction false} RegisteredGrows(events: seq<Event>, i: nat)
    requires i < |events|
    ensures Registered(events[..i]) + (if events[i].Register? then 1 else 0) <= Registered(events)
  {
    var before := events[..|events| - 1];
    if i < |before| {
      RegisteredGrows(before, i);
      assert before[..i] == events[..i];
    }
  }

  // ---- which elements are inert

  /** An element lies beside the path from the surface of the top entry up to the body. */
  predicate BesideTop(t: Tree, entries: seq<Entry>, e: nat)
    requires Shaped(t)
  {
    exists k | 0 <= k < |entries| :: TopAt(entries, k) && e in Beside(t, entries[k].node)
  }

  /** However boundaries come and go, an element is inert exactly when it was to begin with or is beside the top. */
  lemma InertExactly(t: Tree, flags: map<nat, bool>, events: seq<Event>, e: nat)
    requires Shaped(t)
    ensures var s := Run(t, flags, events);
            && (e in s.inert <==> e in flags)
            && (e in flags ==> (s.inert[e] <==> flags[e] || BesideTop(t, s.registry.entries, e)))
  {
    RunIsRight(t, flags, events);
    var entries := Run(t, flags, events).registry.entries;
    if entries != [] {
      var k := TopLaw(entries);
      assert forall j | TopAt(entries, j) :: j == k;
    }
  }

  // ---- the path itself

  /** An element and all that contain it. */
  function Lineage(t: Tree, node: nat): (r: set<nat>)
    requires Shaped(t)
    ensures node in r
    decreases if node in t.depth then t.depth[node] else 0
  {
    {node} + (if node in t.parent then Lineage(t, t.parent[node]) else {})
  }

  lemma {:induction false} LineageDepths(t: Tree, node: nat)
    requires Shaped(t) && node in t.depth
    ensures forall e | e in Lineage(t, node) :: e in t.depth && (e == node || t.depth[e] < t.depth[node])
    decreases t.depth[node]
  {
    if node in t.parent {
      LineageDepths(t, t.parent[node]);
    }
  }

  lemma {:induction false} BesideDepths(t: Tree, node: nat)
    requires Shaped(t) && node in t.depth
    ensures forall e | e in Beside(t, node) :: e in t.depth && t.depth[e] <= t.depth[node]
    decreases t.depth[node]
  {
    if node in t.parent {
      BesideDepths(t, t.parent[node]);
    }
  }

  /** The active surface and everything that contains it are never made inert. */
  lemma {:induction false} PathIsNeverBeside(t: Tree, node: nat)
    requires Shaped(t)
    ensures Lineage(t, node) !! Beside(t, node)
    decreases if node in t.depth then t.depth[node] else 0
  {
    if node in t.parent {
      var up := t.parent[node];
      PathIsNeverBeside(t, up);
      LineageDepths(t, node);
      LineageDepths(t, up);
      BesideDepths(t, up);
    }
  }

  /** What is beside a node: the siblings of each element on its path up to the body. */
  lemma {:induction false} BesideExactly(t: Tree, node: nat, e: nat)
    requires Shaped(t)
    ensures e in Beside(t, node) <==>
            exists b :: b in Branches(t, node) && b in t.parent && e in t.parent && t.parent[e] == t.parent[b] && e != b
    decreases if node in t.depth then t.depth[node] else 0
  {
    if node in t.parent && t.parent[node] != t.body {
      BesideExactly(t, t.parent[node], e);
    }
  }

  /** The elements from a node up to, not including, the body. */
  function Branches(t: Tree, node: nat): set<nat>
    requires Shaped(t)
    decreases if node in t.depth then t.depth[node] else 0
  {
    if node !in t.parent then {}
    else {node} + (if t.parent[node] == t.body then {} else Branches(t, t.parent[node]))
  }
}
