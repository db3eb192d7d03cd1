/** The stack of focus boundaries as the object kept for a document, its elements' flags changed one by one. */
module FocusBoundaryStack {
  import opened FocusBoundary

  class BoundaryStack {
    const t: Tree
    var entries: seq<Entry>
    var next: nat
    var isolated: map<nat, bool>
    var inert: map<nat, bool>

    function View(): Stack
      reads this
    {
      Stack(Registry(entries, next), isolated, inert)
    }

    /** The document is all there, and what is put aside belongs to it. */
    ghost predicate Valid()
      reads this
    {
      Shaped(t) && t.parent.Keys <= inert.Keys && isolated.Keys <= inert.Keys
    }

    constructor (t: Tree, flags: map<nat, bool>)
      requires Shaped(t) && t.parent.Keys <= flags.Keys
      ensures Valid() && this.t == t && View() == Stack(EMPTY, map[], flags)
    {
      this.t, entries, next, isolated, inert := t, [], 0, map[], flags;
    }

    /** Gives every element that was put aside its flag back. */
    method Restore()
      requires Valid()
      modifies this`isolated, this`inert
      ensures Valid() && isolated == map[] && inert == Original(old(isolated), old(inert))
    {
      var todo := isolated.Keys;
      while todo != {}
        invariant todo <= isolated.Keys && isolated == old(isolated)
        invariant inert == Original(isolated - todo, old(inert))
      {
        var e :| e in todo;
        inert := inert[e := isolated[e]];
        todo := todo - {e};
      }
      assert isolated - {} == isolated;
      isolated := map[];
    }

    /** Puts the flags of the siblings of a branch aside and makes them inert. */
    method SetAside(branch: nat, ghost own: map<nat, bool>, ghost done: set<nat>)
      requires Valid() && branch in t.parent && Siblings(t, branch) !! done
      requires isolated == Kept(own, done) && inert == Forced(own, done)
      modifies this`isolated, this`inert
      ensures Valid()
      ensures isolated == Kept(own, done + Siblings(t, branch)) && inert == Forced(own, done + Siblings(t, branch))
    {
      var siblings := Siblings(t, branch);
      var todo := siblings;
      assert done + (siblings - todo) == done;
      while todo != {}
        invariant todo <= siblings && Valid()
        invariant isolated == Kept(own, done + (siblings - todo)) && inert == Forced(own, done + (siblings - todo))
      {
        var sibling :| sibling in todo;
        OneMore(own, done + (siblings - todo), sibling);
        assert done + (siblings - (todo - {sibling})) == done + (siblings - todo) + {sibling};
        isolated := isolated[sibling := inert[sibling]];
        inert := inert[sibling := true];
        todo := todo - {sibling};
      }
      assert siblings - {} == siblings;
    }

    method Isolate()
      requires Valid()
      modifies this`isolated, this`inert
      ensures Valid() && View() == FocusBoundary.Isolate(t, old(View()), old(View()).registry)
    {
      Restore();
      ghost var own, wanted := inert, Wanted(t, entries);
      ghost var done: set<nat> := {};
      assert Forced(own, {}) == own;
      if entries != [] {
        var branch := Top(entries).value.node;
        while branch in t.parent
          invariant Valid() && isolated == Kept(own, done) && inert == Forced(own, done)
          invariant done + Beside(t, branch) == wanted
          invariant branch in t.parent ==> forall e | e in done :: e in t.depth && t.depth[e] > t.depth[branch]
          decreases if branch in t.depth then t.depth[branch] else 0, if branch in t.parent then 1 else 0
        {
          SetAside(branch, own, done);
          done := done + Siblings(t, branch);
          if t.parent[branch] == t.body {
            break;
          }
          branch := t.parent[branch];
        }
      }
      assert done == wanted;
    }

    method RegisterFocusBoundary(node: nat, priority: int) returns (id: nat)
      requires Valid()
      modifies this
      ensures Valid() && View() == Step(t)(old(View()), Register(node, priority)) && id == old(next)
    {
      id := next;
      entries := entries + [Entry(next, node, priority)];
      next := next + 1;
      Isolate();
    }

    method Release(id: nat)
      requires Valid()
      modifies this
      ensures Valid() && View() == Step(t)(old(View()), Event.Release(id))
    {
      var index := IndexOf(entries, id);
      if index.None? {
        return;
      }
      entries := RemoveAt(entries, index.value);
      Isolate();
    }

    /** Whether the boundary is the one that owns the focus. */
    method IsTop(id: nat) returns (top: bool)
      ensures top <==> exists k :: TopAt(entries, k) && entries[k].id == id
    {
      top := Top(entries).Some? && Top(entries).value.id == id;
      if entries != [] {
        ghost var k := TopLaw(entries);
        assert TopAt(entries, k) && forall j | TopAt(entries, j) :: j == k;
      }
    }
  }
}
