/** The root of a session: up the parent links, over a graph that may have cycles. */
module SessionRoots {
  import opened Prelude

  /** Every listed identity, with the identity of its parent if it names one. */
  type Forest = map<string, Option<string>>

  /** The parent, when it is listed too. */
  function Up(g: Forest, id: string): Option<string>
    requires id in g
  {
    if g[id].Some? && g[id].value in g then g[id] else None
  }

  predicate Distinct(path: seq<string>) {
    forall i, j | 0 <= i < j < |path| :: path[i] != path[j]
  }

  /** The distinct identities passed on the way up to `cur`, each the child of the next. */
  predicate Trail(g: Forest, path: seq<string>, cur: string) {
    && cur in g && Distinct(path)
    && (forall i | 0 <= i < |path| :: path[i] in g)
    && (forall i | 0 <= i < |path| - 1 :: g[path[i]] == Some(path[i + 1]))
    && (path != [] ==> g[path[|path| - 1]] == Some(cur))
  }

  lemma {:induction false} DistinctIsShort(path: seq<string>, keys: set<string>)
    requires Distinct(path) && forall i | 0 <= i < |path| :: path[i] in keys
    ensures |path| <= |keys|
  {
    if path != [] {
      DistinctIsShort(path[1..], keys - {path[0]});
    }
  }

  lemma TrailIsShort(g: Forest, path: seq<string>, cur: string)
    requires Trail(g, path, cur) && cur !in path
    ensures |path| < |g| && (Up(g, cur).Some? ==> Trail(g, path + [cur], Up(g, cur).value))
  {
    DistinctIsShort(path + [cur], g.Keys);
    assert |g.Keys| == |g|;
  }

  /** The walk: on to the parent until there is none, or until an identity comes round again. */
  function Walk(g: Forest, cur: string, path: seq<string>): (root: string)
    requires Trail(g, path, cur)
    ensures root in g
    decreases |g| - |path|
  {
    if Up(g, cur).None? || cur in path then cur
    else
      TrailIsShort(g, path, cur);
      Walk(g, Up(g, cur).value, path + [cur])
  }

  function Root(g: Forest, id: string): (root: string)
    requires id in g
    ensures root in g
  {
    Walk(g, id, [])
  }

  // ---- what a root is

  /** A cycle of parents through `id`. */
  predicate Ring(g: Forest, ring: seq<string>, id: string) {
    ring != [] && ring[0] == id && Trail(g, ring, id)
  }

  /** Without a listed parent, or its own ancestor. */
  ghost predicate IsTop(g: Forest, id: string)
    requires id in g
  {
    g[id].None? || g[id].value !in g || exists ring :: Ring(g, ring, id)
  }

  /** The walk round a cycle ends where it began. */
  lemma {:induction false} WalkRound(g: Forest, ring: seq<string>, id: string, k: nat)
    requires Ring(g, ring, id) && k <= |ring|
    requires Trail(g, ring[..k], if k == |ring| then id else ring[k])
    ensures Walk(g, if k == |ring| then id else ring[k], ring[..k]) == id
    decreases |ring| - k
  {
    if k == |ring| {
      assert ring[..k] == ring && id in ring;
    } else {
      assert ring[k] !in ring[..k];
      var next := if k + 1 == |ring| then id else ring[k + 1];
      assert Up(g, ring[k]) == Some(next);
      assert ring[..k + 1] == ring[..k] + [ring[k]];
      TrailIsShort(g, ring[..k], ring[k]);
      WalkRound(g, ring, id, k + 1);
    }
  }

  lemma TopIsItsRoot(g: Forest, id: string)
    requires id in g && IsTop(g, id)
    ensures Root(g, id) == id
  {
    if Up(g, id).Some? {
      var ring :| Ring(g, ring, id);
      assert ring[..0] == [];
      WalkRound(g, ring, id, 0);
    }
  }

  /** The walk ends at a top. */
  lemma {:induction false} WalkEndsAtTop(g: Forest, cur: string, path: seq<string>)
    requires Trail(g, path, cur)
    ensures IsTop(g, Walk(g, cur, path))
    decreases |g| - |path|
  {
    if Up(g, cur).None? {
    } else if cur in path {
      var i :| 0 <= i < |path| && path[i] == cur;
      assert Ring(g, path[i..], cur);
    } else {
      TrailIsShort(g, path, cur);
      WalkEndsAtTop(g, Up(g, cur).value, path + [cur]);
    }
  }

  /** Having started from an identity that is on no cycle makes no difference. */
  lemma {:induction false} WalkForgetsStart(g: Forest, start: string, cur: string, path: seq<string>)
    requires start in g && !IsTop(g, start) && Trail(g, [start] + path, cur) && Trail(g, path, cur)
    ensures Walk(g, cur, [start] + path) == Walk(g, cur, path)
    decreases |g| - |path|
  {
    assert cur == start ==> Ring(g, [start] + path, start);
    if Up(g, cur).Some? && cur !in path {
      TrailIsShort(g, path, cur);
      TrailIsShort(g, [start] + path, cur);
      assert [start] + path + [cur] == [start] + (path + [cur]);
      WalkForgetsStart(g, start, Up(g, cur).value, path + [cur]);
    }
  }

  /** A session is its own root exactly when it is a top; any other has the root of its parent. */
  lemma RootLaw(g: Forest, id: string)
    requires id in g
    ensures IsTop(g, Root(g, id)) && (Root(g, id) == id <==> IsTop(g, id))
    ensures !IsTop(g, id) ==> Root(g, id) == Root(g, g[id].value)
  {
    WalkEndsAtTop(g, id, []);
    if IsTop(g, id) {
      TopIsItsRoot(g, id);
    } else {
      assert [id] + [] == [] + [id] == [id];
      assert Trail(g, [id] + [], Up(g, id).value);
      WalkForgetsStart(g, id, Up(g, id).value, []);
    }
  }

  lemma RootIsIdempotent(g: Forest, id: string)
    requires id in g
    ensures Root(g, Root(g, id)) == Root(g, id)
  {
    RootLaw(g, id);
    RootLaw(g, Root(g, id));
  }

  /** The loop of the walk, with its set of identities seen. */
  method FindRoot(g: Forest, id: string) returns (root: string)
    requires id in g
    ensures root == Root(g, id)
  {
    root := id;
    var seen: set<string> := {};
    ghost var path: seq<string> := [];
    while Up(g, root).Some? && root !in seen
      invariant Trail(g, path, root) && forall id :: id in seen <==> id in path
      invariant Walk(g, root, path) == Root(g, id)
      decreases |g| - |path|
    {
      TrailIsShort(g, path, root);
      seen := seen + {root};
      path := path + [root];
      root := Up(g, root).value;
    }
  }
}
