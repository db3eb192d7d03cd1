/** Sessions grouped with their forks under their roots, and the families split by whether one of them is alive. */
module SessionFamilies {
  import opened Prelude
  import opened SessionRoots

  datatype Session = Session(identity: string, parent: Option<string>)

  datatype Family = Family(session: Session, forks: seq<Session>)

  function ById(sessions: seq<Session>): map<string, Session> {
    if sessions == [] then map[]
    else
      var last := sessions[|sessions| - 1];
      ById(sessions[..|sessions| - 1])[last.identity := last]
  }

  function ForestOf(sessions: seq<Session>): Forest {
    var byId := ById(sessions);
    map id | id in byId :: byId[id].parent
  }

  predicate DistinctIds(sessions: seq<Session>) {
    forall i, j | 0 <= i < j < |sessions| :: sessions[i].identity != sessions[j].identity
  }

  lemma {:induction false} ByIdFinds(sessions: seq<Session>)
    requires DistinctIds(sessions)
    ensures forall x | x in sessions :: x.identity in ById(sessions) && ById(sessions)[x.identity] == x
    ensures forall id | id in ById(sessions) :: ById(sessions)[id] in sessions && ById(sessions)[id].identity == id
  {
    if sessions != [] {
      ByIdFinds(sessions[..|sessions| - 1]);
    }
  }

  // ---- the grouping, as a function of the sessions looked at so far

  /** Every session named here is in the forest. */
  predicate Known(g: Forest, sessions: seq<Session>) {
    forall x | x in sessions :: x.identity in g
  }

  /** The roots, in the order their first member comes. */
  function Roots(g: Forest, sessions: seq<Session>): (roots: seq<string>)
    requires Known(g, sessions)
    ensures forall r | r in roots :: r in g
  {
    if sessions == [] then []
    else
      var before, root := Roots(g, sessions[..|sessions| - 1]), Root(g, sessions[|sessions| - 1].identity);
      if root in before then before else before + [root]
  }

  /** A session as a fork of the given root, or nothing. */
  function ForkOf(g: Forest, root: string, x: Session): seq<Session>
    requires x.identity in g
  {
    if Root(g, x.identity) == root && x.identity != root then [x] else []
  }

  function Forks(g: Forest, sessions: seq<Session>, root: string): seq<Session>
    requires Known(g, sessions)
  {
    if sessions == [] then []
    else Forks(g, sessions[..|sessions| - 1], root) + ForkOf(g, root, sessions[|sessions| - 1])
  }

  function FamilyOf(g: Forest, byId: map<string, Session>, sessions: seq<Session>, root: string): Family
    requires Known(g, sessions) && root in byId
  {
    Family(byId[root], Forks(g, sessions, root))
  }

  /** The families of the sessions looked at so far, keyed by root in the order the roots came. */
  ghost predicate Tabled(g: Forest, byId: map<string, Session>, seen: seq<Session>, order: seq<string>,
                         table: map<string, Family>)
  {
    && Known(g, seen) && byId.Keys == g.Keys
    && order == Roots(g, seen)
    && (forall r :: r in table <==> r in order)
    && forall r | r in table :: table[r] == FamilyOf(g, byId, seen, r)
  }

  lemma {:induction false} NoForksYet(g: Forest, sessions: seq<Session>, root: string)
    requires Known(g, sessions) && root !in Roots(g, sessions)
    ensures Forks(g, sessions, root) == []
  {
    if sessions != [] {
      NoForksYet(g, sessions[..|sessions| - 1], root);
    }
  }

  lemma FamilyGrows(g: Forest, byId: map<string, Session>, seen: seq<Session>, x: Session, root: string)
    requires Known(g, seen) && x.identity in g && root in byId
    ensures Known(g, seen + [x])
    ensures FamilyOf(g, byId, seen + [x], root) == Family(byId[root], Forks(g, seen, root) + ForkOf(g, root, x))
  {
    assert (seen + [x])[..|seen|] == seen;
  }

  lemma RootsGrow(g: Forest, seen: seq<Session>, x: Session)
    requires Known(g, seen) && x.identity in g
    ensures Known(g, seen + [x])
    ensures var before, root := Roots(g, seen), Root(g, x.identity);
            Roots(g, seen + [x]) == if root in before then before else before + [root]
  {
    assert (seen + [x])[..|seen|] == seen;
  }

  /** The table after one more session, whose root is `root`. */
  function Entered(byId: map<string, Session>, table: map<string, Family>, x: Session, root: string)
    : map<string, Family>
    requires root in byId
  {
    var family := if root in table then table[root] else Family(byId[root], []);
    table[root := if x.identity != root then family.(forks := family.forks + [x]) else family]
  }

  lemma EnteredFamily(g: Forest, byId: map<string, Session>, x: Session, order: seq<string>,
                      table: map<string, Family>, seen: seq<Session>, root: string, r: string)
    requires Tabled(g, byId, seen, order, table) && x.identity in g && root == Root(g, x.identity)
    requires root in byId && (r == root || r in table)
    ensures r in byId && Known(g, seen + [x])
    ensures Entered(byId, table, x, root)[r] == FamilyOf(g, byId, seen + [x], r)
  {
    if root !in table {
      NoForksYet(g, seen, root);
    }
    FamilyGrows(g, byId, seen, x, r);
  }

  lemma EnteredIsTabled(g: Forest, byId: map<string, Session>, x: Session, order: seq<string>,
                        table: map<string, Family>, seen: seq<Session>, root: string)
    requires Tabled(g, byId, seen, order, table) && x.identity in g && root == Root(g, x.identity)
    ensures root in byId
    ensures Tabled(g, byId, seen + [x], if root in table then order else order + [root], Entered(byId, table, x, root))
  {
    RootsGrow(g, seen, x);
    var next := Entered(byId, table, x, root);
    forall r | r in next ensures next[r] == FamilyOf(g, byId, seen + [x], r) {
      EnteredFamily(g, byId, x, order, table, seen, root, r);
    }
  }

  /** The second half of a turn of the grouping loop, the root being found. */
  method Enter(byId: map<string, Session>, x: Session, root: string, order: seq<string>, table: map<string, Family>)
    returns (nextOrder: seq<string>, nextTable: map<string, Family>)
    requires root in byId
    ensures nextOrder == if root in table then order else order + [root]
    ensures nextTable == Entered(byId, table, x, root)
  {
    nextOrder, nextTable := order, table;
    if root !in table {
      nextTable := nextTable[root := Family(byId[root], [])];
      nextOrder := nextOrder + [root];
    }
    if x.identity != root {
      nextTable := nextTable[root := nextTable[root].(forks := nextTable[root].forks + [x])];
    }
  }

  /** One turn of the grouping loop. */
  method AddToFamily(g: Forest, byId: map<string, Session>, x: Session, order: seq<string>, table: map<string, Family>,
                     ghost seen: seq<Session>)
    returns (nextOrder: seq<string>, nextTable: map<string, Family>)
    requires Tabled(g, byId, seen, order, table) && x.identity in g
    ensures Tabled(g, byId, seen + [x], nextOrder, nextTable)
  {
    var root := FindRoot(g, x.identity);
    EnteredIsTabled(g, byId, x, order, table, seen, root);
    nextOrder, nextTable := Enter(byId, x, root, order, table);
  }

  method GroupSessionFamilies(sessions: seq<Session>) returns (families: seq<Family>)
    requires DistinctIds(sessions)
    ensures Known(ForestOf(sessions), sessions)
    ensures families == FamiliesOf(sessions)
  {
    var byId, g := ById(sessions), ForestOf(sessions);
    ByIdFinds(sessions);
    var order: seq<string> := [];
    var table: map<string, Family> := map[];
    for i := 0 to |sessions|
      invariant Tabled(g, byId, sessions[..i], order, table)
    {
      PrefixStep(sessions, i);
      order, table := AddToFamily(g, byId, sessions[i], order, table, sessions[..i]);
    }
    assert sessions[..|sessions|] == sessions;
    families := seq(|order|, k requires 0 <= k < |order| && order[k] in table => table[order[k]]);
    TabledIsAll(sessions, order, table, families);
  }

  lemma TabledIsAll(sessions: seq<Session>, order: seq<string>, table: map<string, Family>, families: seq<Family>)
    requires DistinctIds(sessions) && Tabled(ForestOf(sessions), ById(sessions), sessions, order, table)
    requires |families| == |order| && forall k | 0 <= k < |order| :: families[k] == table[order[k]]
    ensures families == FamiliesOf(sessions)
  {
    var all := FamiliesOf(sessions);
    forall k | 0 <= k < |order| ensures families[k] == all[k] {
      assert order[k] in table;
    }
  }

  lemma AllKnown(sessions: seq<Session>)
    requires DistinctIds(sessions)
    ensures Known(ForestOf(sessions), sessions) && ForestOf(sessions).Keys == ById(sessions).Keys
  {
    ByIdFinds(sessions);
  }

  /** One family for every root, in the order the roots are first met: the root's session and, in order, its forks. */
  ghost function FamiliesOf(sessions: seq<Session>): (families: seq<Family>)
    requires DistinctIds(sessions)
    ensures Known(ForestOf(sessions), sessions)
    ensures |families| == |Roots(ForestOf(sessions), sessions)|
  {
    AllKnown(sessions);
    var g, byId := ForestOf(sessions), ById(sessions);
    var roots := Roots(g, sessions);
    seq(|roots|, k requires 0 <= k < |roots| => FamilyOf(g, byId, sessions, roots[k]))
  }

  // ---- every session in exactly one family

  function Members(family: Family): seq<Session> {
    [family.session] + family.forks
  }

  lemma {:induction false} RootsLaw(g: Forest, sessions: seq<Session>)
    requires Known(g, sessions)
    ensures var roots := Roots(g, sessions);
            && (forall i, j | 0 <= i < j < |roots| :: roots[i] != roots[j])
            && (forall r | r in roots :: Root(g, r) == r)
            && (forall x | x in sessions :: Root(g, x.identity) in roots)
  {
    if sessions != [] {
      RootsLaw(g, sessions[..|sessions| - 1]);
      RootIsIdempotent(g, sessions[|sessions| - 1].identity);
    }
  }

  lemma {:induction false} ForksCount(g: Forest, sessions: seq<Session>, root: string, x: Session)
    requires Known(g, sessions) && x.identity in g
    ensures multiset(Forks(g, sessions, root))[x]
         == if Root(g, x.identity) == root && x.identity != root then multiset(sessions)[x] else 0
  {
    if sessions != [] {
      var init, last := sessions[..|sessions| - 1], sessions[|sessions| - 1];
      ForksCount(g, init, root, x);
      assert sessions == init + [last];
    }
  }

  lemma {:induction false} CountOnce(sessions: seq<Session>, x: Session)
    requires DistinctIds(sessions)
    ensures multiset(sessions)[x] == if x in sessions then 1 else 0
  {
    if sessions != [] {
      var init, last := sessions[..|sessions| - 1], sessions[|sessions| - 1];
      CountOnce(init, x);
      assert sessions == init + [last];
    }
  }

  /** A session is a member of the family of its root, once, and of no other. */
  lemma MemberCount(sessions: seq<Session>, k: nat, x: Session)
    requires DistinctIds(sessions) && k < |FamiliesOf(sessions)| && x in sessions
    ensures multiset(Members(FamiliesOf(sessions)[k]))[x]
         == if Root(ForestOf(sessions), x.identity) == Roots(ForestOf(sessions), sessions)[k] then 1 else 0
  {
    AllKnown(sessions);
    ByIdFinds(sessions);
    var g, root := ForestOf(sessions), Roots(ForestOf(sessions), sessions)[k];
    RootsLaw(g, sessions);
    ForksCount(g, sessions, root, x);
    CountOnce(sessions, x);
    assert ById(sessions)[root] == x <==> x.identity == root;
    var forks := Forks(g, sessions, root);
    assert multiset([ById(sessions)[root]] + forks) == multiset([ById(sessions)[root]]) + multiset(forks);
  }

  lemma {:induction false} ForksAreSessions(g: Forest, sessions: seq<Session>, root: string)
    requires Known(g, sessions)
    ensures forall x | x in Forks(g, sessions, root) :: x in sessions
  {
    if sessions != [] {
      ForksAreSessions(g, sessions[..|sessions| - 1], root);
    }
  }

  lemma MembersAreSessions(sessions: seq<Session>, k: nat, x: Session)
    requires DistinctIds(sessions) && k < |FamiliesOf(sessions)| && x in Members(FamiliesOf(sessions)[k])
    ensures x in sessions
  {
    AllKnown(sessions);
    ByIdFinds(sessions);
    ForksAreSessions(ForestOf(sessions), sessions, Roots(ForestOf(sessions), sessions)[k]);
  }

  lemma {:induction false} CountInFlat<S, T>(f: S -> seq<T>, s: seq<S>, x: T, k: int)
    requires forall j | 0 <= j < |s| :: multiset(f(s[j]))[x] == if j == k then 1 else 0
    ensures multiset(FlatMap(f, s))[x] == if 0 <= k < |s| then 1 else 0
  {
    if s != [] {
      var last := |s| - 1;
      CountInFlat(f, s[..last], x, k);
      assert multiset(FlatMap(f, s)) == multiset(FlatMap(f, s[..last])) + multiset(f(s[last]));
    }
  }

  /** The families partition the sessions: each is in exactly one, once. */
  lemma EachSessionOnce(sessions: seq<Session>)
    requires DistinctIds(sessions)
    ensures multiset(FlatMap(Members, FamiliesOf(sessions))) == multiset(sessions)
  {
    var families, roots := FamiliesOf(sessions), Roots(ForestOf(sessions), sessions);
    RootsLaw(ForestOf(sessions), sessions);
    forall x ensures multiset(FlatMap(Members, families))[x] == multiset(sessions)[x] {
      CountOnce(sessions, x);
      var home := -1;
      if x in sessions {
        home :| 0 <= home < |roots| && roots[home] == Root(ForestOf(sessions), x.identity);
      }
      forall j | 0 <= j < |families| ensures multiset(Members(families[j]))[x] == if j == home then 1 else 0 {
        if x in sessions {
          MemberCount(sessions, j, x);
        } else if x in Members(families[j]) {
          MembersAreSessions(sessions, j, x);
        }
      }
      CountInFlat(Members, families, x, home);
    }
  }

  // ---- the order of families and of their members

  predicate Precedes(sessions: seq<Session>, x: Session, y: Session) {
    exists p, q | 0 <= p < q < |sessions| :: sessions[p] == x && sessions[q] == y
  }

  lemma PrecedesInMore(sessions: seq<Session>, last: Session, x: Session, y: Session)
    ensures Precedes(sessions, x, y) ==> Precedes(sessions + [last], x, y)
    ensures x in sessions ==> Precedes(sessions + [last], x, last)
  {
    var all := sessions + [last];
    if Precedes(sessions, x, y) {
      var p, q :| 0 <= p < q < |sessions| && sessions[p] == x && sessions[q] == y;
      assert all[p] == x && all[q] == y;
    }
    if x in sessions {
      var p :| 0 <= p < |sessions| && sessions[p] == x;
      assert all[p] == x && all[|sessions|] == last;
    }
  }

  lemma {:induction false} ForksInOrder(g: Forest, sessions: seq<Session>, root: string, i: nat, j: nat)
    requires Known(g, sessions) && i < j < |Forks(g, sessions, root)|
    ensures Precedes(sessions, Forks(g, sessions, root)[i], Forks(g, sessions, root)[j])
  {
    var init, last := sessions[..|sessions| - 1], sessions[|sessions| - 1];
    var before := Forks(g, init, root);
    InitAndLast(sessions);
    if j < |before| {
      ForksInOrder(g, init, root, i, j);
      PrecedesInMore(init, last, before[i], before[j]);
    } else {
      ForksAreSessions(g, init, root);
      assert before[i] in before;
      PrecedesInMore(init, last, before[i], last);
    }
  }

  /** A session of root a is met before any of root b. */
  predicate MetBefore(g: Forest, sessions: seq<Session>, a: string, b: string)
    requires Known(g, sessions)
  {
    exists p | 0 <= p < |sessions| ::
      Root(g, sessions[p].identity) == a && forall q | 0 <= q <= p :: Root(g, sessions[q].identity) != b
  }

  lemma {:induction false} RootsAreMet(g: Forest, sessions: seq<Session>, root: string) returns (p: nat)
    requires Known(g, sessions) && root in Roots(g, sessions)
    ensures p < |sessions| && Root(g, sessions[p].identity) == root
  {
    var init := sessions[..|sessions| - 1];
    if root in Roots(g, init) {
      p := RootsAreMet(g, init, root);
    } else {
      p := |init|;
    }
  }

  lemma MetBeforeMore(g: Forest, init: seq<Session>, last: Session, p: nat, a: string, b: string)
    requires Known(g, init + [last]) && Known(g, init) && p < |init| && Root(g, init[p].identity) == a
    requires forall q | 0 <= q <= p :: Root(g, init[q].identity) != b
    ensures MetBefore(g, init + [last], a, b)
  {
    var sessions := init + [last];
    assert sessions[p] == init[p] && forall q | 0 <= q <= p :: sessions[q] == init[q];
  }

  lemma {:induction false} RootsInOrder(g: Forest, sessions: seq<Session>, i: nat, j: nat)
    requires Known(g, sessions) && i < j < |Roots(g, sessions)|
    ensures MetBefore(g, sessions, Roots(g, sessions)[i], Roots(g, sessions)[j])
  {
    var init := sessions[..|sessions| - 1];
    var before, root := Roots(g, init), Roots(g, sessions)[j];
    var p: nat;
    if j < |before| {
      RootsInOrder(g, init, i, j);
      p :| 0 <= p < |init| && Root(g, init[p].identity) == before[i]
           && forall q | 0 <= q <= p :: Root(g, init[q].identity) != root;
    } else {
      RootsLaw(g, init);
      assert before[i] in before;
      p := RootsAreMet(g, init, before[i]);
      assert forall q | 0 <= q <= p :: init[q] in init;
    }
    InitAndLast(sessions);
    MetBeforeMore(g, init, sessions[|sessions| - 1], p, before[i], root);
  }

  /** The first member of a family is the root of all its members. */
  lemma RootComesFirst(sessions: seq<Session>, k: nat, x: Session)
    requires DistinctIds(sessions) && k < |FamiliesOf(sessions)| && x in Members(FamiliesOf(sessions)[k])
    ensures x in sessions
    ensures Root(ForestOf(sessions), x.identity) == Members(FamiliesOf(sessions)[k])[0].identity
  {
    ByIdFinds(sessions);
    MembersShareRoot(sessions, k, x);
  }

  /** The others come in the order they were given. */
  lemma ForksComeInOrder(sessions: seq<Session>, k: nat, i: nat, j: nat)
    requires DistinctIds(sessions) && k < |FamiliesOf(sessions)| && 0 < i < j < |Members(FamiliesOf(sessions)[k])|
    ensures Precedes(sessions, Members(FamiliesOf(sessions)[k])[i], Members(FamiliesOf(sessions)[k])[j])
  {
    AllKnown(sessions);
    ForksInOrder(ForestOf(sessions), sessions, Roots(ForestOf(sessions), sessions)[k], i - 1, j - 1);
  }

  /** Families come in the order in which one of their members is first met. */
  lemma FamiliesInOrder(sessions: seq<Session>, k: nat, l: nat)
    requires DistinctIds(sessions) && k < l < |FamiliesOf(sessions)|
    ensures exists p | 0 <= p < |sessions| ::
              && sessions[p] in Members(FamiliesOf(sessions)[k])
              && forall q | 0 <= q <= p :: sessions[q] !in Members(FamiliesOf(sessions)[l])
  {
    AllKnown(sessions);
    var g := ForestOf(sessions);
    var roots := Roots(g, sessions);
    RootsInOrder(g, sessions, k, l);
    var p :| 0 <= p < |sessions| && Root(g, sessions[p].identity) == roots[k]
             && forall q | 0 <= q <= p :: Root(g, sessions[q].identity) != roots[l];
    MembersShareRoot(sessions, k, sessions[p]);
    forall q | 0 <= q <= p ensures sessions[q] !in Members(FamiliesOf(sessions)[l]) {
      MembersShareRoot(sessions, l, sessions[q]);
    }
  }

  // ---- the entries of the sidebar: persisted sessions, and runners without one

  datatype Entry = Persisted(session: Session) | Running(identity: string)

  datatype EntryFamily = EntryFamily(entry: Entry, children: seq<Entry>)

  /** What decides where an entry belongs; a runner has no parent. */
  function SessionOf(entry: Entry): Session {
    match entry
    case Persisted(session) => session
    case Running(identity) => Session(identity, None)
  }

  function SessionsOf(entries: seq<Entry>): (sessions: seq<Session>)
    ensures |sessions| == |entries|
  {
    seq(|entries|, i requires 0 <= i < |entries| => SessionOf(entries[i]))
  }

  function AsFamily(family: EntryFamily): Family {
    Family(SessionOf(family.entry), SessionsOf(family.children))
  }

  function AsTable(table: map<string, EntryFamily>): map<string, Family> {
    map root | root in table :: AsFamily(table[root])
  }

  function EntriesById(entries: seq<Entry>): map<string, Entry> {
    if entries == [] then map[]
    else
      var last := entries[|entries| - 1];
      EntriesById(entries[..|entries| - 1])[SessionOf(last).identity := last]
  }

  function SessionsById(byId: map<string, Entry>): map<string, Session> {
    map id | id in byId :: SessionOf(byId[id])
  }

  lemma {:induction false} ByIdOfEntries(entries: seq<Entry>)
    ensures SessionsById(EntriesById(entries)) == ById(SessionsOf(entries))
    ensures forall id | id in EntriesById(entries) :: EntriesById(entries)[id] in entries
  {
    if entries != [] {
      ByIdOfEntries(entries[..|entries| - 1]);
      assert SessionsOf(entries)[..|entries| - 1] == SessionsOf(entries[..|entries| - 1]);
    }
  }

  predicate Drawn(entries: seq<Entry>, family: EntryFamily) {
    family.entry in entries && forall x | x in family.children :: x in entries
  }

  lemma SessionsOfMore(entries: seq<Entry>, x: Entry)
    ensures SessionsOf(entries + [x]) == SessionsOf(entries) + [SessionOf(x)]
  {
  }

  lemma AsTableWith(table: map<string, EntryFamily>, root: string, family: EntryFamily)
    ensures AsTable(table[root := family]) == AsTable(table)[root := AsFamily(family)]
  {
  }

  predicate AllDrawn(entries: seq<Entry>, table: map<string, EntryFamily>) {
    forall r | r in table :: Drawn(entries, table[r])
  }

  /** The second half of a turn of the grouping loop over entries. */
  method EnterEntry(byId: map<string, Entry>, x: Entry, root: string, order: seq<string>,
                    table: map<string, EntryFamily>, ghost entries: seq<Entry>)
    returns (nextOrder: seq<string>, nextTable: map<string, EntryFamily>)
    requires root in byId && byId[root] in entries && x in entries && AllDrawn(entries, table)
    ensures nextOrder == if root in AsTable(table) then order else order + [root]
    ensures AsTable(nextTable) == Entered(SessionsById(byId), AsTable(table), SessionOf(x), root)
    ensures AllDrawn(entries, nextTable)
  {
    nextOrder := order;
    var family := EntryFamily(byId[root], []);
    if root !in table {
      nextOrder := nextOrder + [root];
    } else {
      family := table[root];
    }
    if SessionOf(x).identity != root {
      SessionsOfMore(family.children, x);
      family := family.(children := family.children + [x]);
    }
    AsTableWith(table, root, family);
    nextTable := table[root := family];
  }

  /** One turn of the grouping loop over entries. */
  method AddEntryToFamily(g: Forest, byId: map<string, Entry>, x: Entry, order: seq<string>,
                          table: map<string, EntryFamily>, ghost entries: seq<Entry>, ghost seen: seq<Session>)
    returns (nextOrder: seq<string>, nextTable: map<string, EntryFamily>)
    requires Tabled(g, SessionsById(byId), seen, order, AsTable(table)) && SessionOf(x).identity in g
    requires x in entries && AllDrawn(entries, table) && forall id | id in byId :: byId[id] in entries
    ensures Tabled(g, SessionsById(byId), seen + [SessionOf(x)], nextOrder, AsTable(nextTable))
    ensures AllDrawn(entries, nextTable)
  {
    var root := FindRoot(g, SessionOf(x).identity);
    EnteredIsTabled(g, SessionsById(byId), SessionOf(x), order, AsTable(table), seen, root);
    nextOrder, nextTable := EnterEntry(byId, x, root, order, table, entries);
  }

  /** The table once all entries are in, as the families it lists. */
  lemma EntriesAreAll(entries: seq<Entry>, order: seq<string>, table: map<string, EntryFamily>,
                      families: seq<EntryFamily>)
    requires var sessions := SessionsOf(entries);
             DistinctIds(sessions) && Tabled(ForestOf(sessions), ById(sessions), sessions, order, AsTable(table))
    requires AllDrawn(entries, table) && |families| == |order|
    requires forall k | 0 <= k < |order| :: order[k] in table && families[k] == table[order[k]]
    ensures |families| == |FamiliesOf(SessionsOf(entries))|
    ensures forall k | 0 <= k < |families| ::
              AsFamily(families[k]) == FamiliesOf(SessionsOf(entries))[k] && Drawn(entries, families[k])
  {
    var viewed := seq(|order|, k requires 0 <= k < |order| => AsFamily(families[k]));
    TabledIsAll(SessionsOf(entries), order, AsTable(table), viewed);
  }

  lemma NothingTabled(g: Forest, byId: map<string, Session>, table: map<string, EntryFamily>)
    requires byId.Keys == g.Keys && table == map[]
    ensures Tabled(g, byId, [], [], AsTable(table))
  {
  }

  /** The grouping loop over entries, whose sessions are `sessions`. */
  method EnterAll(entries: seq<Entry>, g: Forest, byId: map<string, Entry>, ghost sessions: seq<Session>)
    returns (order: seq<string>, table: map<string, EntryFamily>)
    requires sessions == SessionsOf(entries) && Known(g, sessions) && SessionsById(byId).Keys == g.Keys
    requires forall id | id in byId :: byId[id] in entries
    ensures Tabled(g, SessionsById(byId), sessions, order, AsTable(table)) && AllDrawn(entries, table)
  {
    order, table := [], map[];
    NothingTabled(g, SessionsById(byId), table);
    for i := 0 to |entries|
      invariant Tabled(g, SessionsById(byId), sessions[..i], order, AsTable(table)) && AllDrawn(entries, table)
    {
      PrefixStep(sessions, i);
      order, table := AddEntryToFamily(g, byId, entries[i], order, table, entries, sessions[..i]);
    }
    assert sessions[..|sessions|] == sessions;
  }

  /** Entries are grouped as their sessions are, a runner counting as a session without a parent. */
  method GroupSessionEntriesByFamily(entries: seq<Entry>) returns (families: seq<EntryFamily>)
    requires DistinctIds(SessionsOf(entries))
    ensures |families| == |FamiliesOf(SessionsOf(entries))|
    ensures forall k | 0 <= k < |families| ::
              AsFamily(families[k]) == FamiliesOf(SessionsOf(entries))[k] && Drawn(entries, families[k])
  {
    ghost var sessions := SessionsOf(entries);
    var byId, g := EntriesById(entries), ForestOf(SessionsOf(entries));
    AllKnown(sessions);
    ByIdOfEntries(entries);
    var order, table := EnterAll(entries, g, byId, sessions);
    assert forall r :: r in AsTable(table) <==> r in table;
    families := seq(|order|, k requires 0 <= k < |order| && order[k] in table => table[order[k]]);
    EntriesAreAll(entries, order, table, families);
  }

  // ---- alive families apart from the others

  predicate SomeAlive(isAlive: Session -> bool, members: seq<Session>) {
    exists x | x in members :: isAlive(x)
  }

  /** The members of a family that goes to the active (or the inactive) side, kept together. */
  function Side(isAlive: Session -> bool, alive: bool): Family -> seq<Session> {
    family => if SomeAlive(isAlive, Members(family)) == alive then Members(family) else []
  }

  method PartitionSessionFamilies(sessions: seq<Session>, isAlive: Session -> bool)
    returns (active: seq<Session>, inactive: seq<Session>)
    requires DistinctIds(sessions)
    ensures active == SideOf(sessions, isAlive, true) && inactive == SideOf(sessions, isAlive, false)
  {
    active, inactive := [], [];
    var families := GroupSessionFamilies(sessions);
    for i := 0 to |families|
      invariant active == FlatMap(Side(isAlive, true), families[..i])
      invariant inactive == FlatMap(Side(isAlive, false), families[..i])
    {
      var members := Members(families[i]);
      PrefixStep(families, i);
      FlatMapAppend(Side(isAlive, true), families[..i], families[i]);
      FlatMapAppend(Side(isAlive, false), families[..i], families[i]);
      if SomeAlive(isAlive, members) {
        active := active + members;
      } else {
        inactive := inactive + members;
      }
    }
    assert families[..|families|] == families;
  }

  lemma {:induction false} SidesMakeAll(isAlive: Session -> bool, families: seq<Family>)
    ensures multiset(FlatMap(Side(isAlive, true), families)) + multiset(FlatMap(Side(isAlive, false), families))
         == multiset(FlatMap(Members, families))
  {
    if families != [] {
      SidesMakeAll(isAlive, families[..|families| - 1]);
    }
  }

  ghost predicate Related(sessions: seq<Session>, x: Session, y: Session)
    requires DistinctIds(sessions) && x in sessions && y in sessions
  {
    AllKnown(sessions);
    Root(ForestOf(sessions), x.identity) == Root(ForestOf(sessions), y.identity)
  }

  /** The members of a family are exactly the sessions with its root. */
  lemma MembersShareRoot(sessions: seq<Session>, k: nat, x: Session)
    requires DistinctIds(sessions) && k < |FamiliesOf(sessions)|
    ensures x in Members(FamiliesOf(sessions)[k]) <==>
            x in sessions && Root(ForestOf(sessions), x.identity) == Roots(ForestOf(sessions), sessions)[k]
  {
    if x in sessions {
      MemberCount(sessions, k, x);
    } else if x in Members(FamiliesOf(sessions)[k]) {
      MembersAreSessions(sessions, k, x);
    }
  }

  /** The families whose liveness is `alive`, one after the other. */
  ghost function SideOf(sessions: seq<Session>, isAlive: Session -> bool, alive: bool): seq<Session>
    requires DistinctIds(sessions)
  {
    FlatMap(Side(isAlive, alive), FamiliesOf(sessions))
  }

  lemma AliveRelativeMakesActive(sessions: seq<Session>, isAlive: Session -> bool, x: Session, y: Session)
    requires DistinctIds(sessions) && x in sessions && y in sessions && Related(sessions, x, y) && isAlive(y)
    ensures x in SideOf(sessions, isAlive, true)
  {
    var families, g := FamiliesOf(sessions), ForestOf(sessions);
    RootsLaw(g, sessions);
    var home :| 0 <= home < |families| && Roots(g, sessions)[home] == Root(g, x.identity);
    MembersShareRoot(sessions, home, x);
    MembersShareRoot(sessions, home, y);
    assert SomeAlive(isAlive, Members(families[home]));
    FlatMapHas(Side(isAlive, true), families, x);
  }

  lemma ActiveHasAliveRelative(sessions: seq<Session>, isAlive: Session -> bool, x: Session) returns (y: Session)
    requires DistinctIds(sessions) && x in sessions && x in SideOf(sessions, isAlive, true)
    ensures y in sessions && Related(sessions, x, y) && isAlive(y)
  {
    var families := FamiliesOf(sessions);
    FlatMapHas(Side(isAlive, true), families, x);
    var k :| 0 <= k < |families| && x in Side(isAlive, true)(families[k]);
    y :| y in Members(families[k]) && isAlive(y);
    MembersShareRoot(sessions, k, x);
    MembersShareRoot(sessions, k, y);
  }

  /** Both sides together are all the sessions; a session is active exactly when one of its family is alive. */
  lemma PartitionKeepsFamiliesTogether(sessions: seq<Session>, isAlive: Session -> bool)
    requires DistinctIds(sessions)
    ensures multiset(SideOf(sessions, isAlive, true)) + multiset(SideOf(sessions, isAlive, false)) == multiset(sessions)
    ensures forall x | x in sessions ::
              x in SideOf(sessions, isAlive, true)
              <==> exists y :: y in sessions && Related(sessions, x, y) && isAlive(y)
  {
    SidesMakeAll(isAlive, FamiliesOf(sessions));
    EachSessionOnce(sessions);
    forall x | x in sessions
      ensures x in SideOf(sessions, isAlive, true)
         <==> exists y :: y in sessions && Related(sessions, x, y) && isAlive(y)
    {
      if x in SideOf(sessions, isAlive, true) {
        var _ := ActiveHasAliveRelative(sessions, isAlive, x);
      } else if y :| y in sessions && Related(sessions, x, y) && isAlive(y) {
        AliveRelativeMakesActive(sessions, isAlive, x, y);
      }
    }
  }
}
