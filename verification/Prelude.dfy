/** Shared by every module: a value that may be absent. */
module Prelude {
  datatype Option<+T> = None | Some(value: T)

  function Min(a: int, b: int): int {
    if a <= b then a else b
  }

  function Max(a: int, b: int): int {
    if a >= b then a else b
  }

  /** White space and line terminators (section 12 of ECMA-262): what `\s` matches and trimming removes. */
  predicate Space(c: char) {
    || '\t' <= c <= '\r' || c == ' ' || c == '\U{a0}' || c == '\U{1680}' || '\U{2000}' <= c <= '\U{200a}'
    || c == '\U{2028}' || c == '\U{2029}' || c == '\U{202f}' || c == '\U{205f}' || c == '\U{3000}' || c == '\U{feff}'
  }

  /** The 25 characters one by one. */
  lemma SpacesExactly(c: char)
    ensures Space(c) <==>
            c as int in {0x9, 0xA, 0xB, 0xC, 0xD, 0x20, 0xA0, 0x1680, 0x2000, 0x2001, 0x2002, 0x2003, 0x2004, 0x2005,
                         0x2006, 0x2007, 0x2008, 0x2009, 0x200A, 0x2028, 0x2029, 0x202F, 0x205F, 0x3000, 0xFEFF}
  {
  }

  predicate AllSpace(s: string) {
    forall i | 0 <= i < |s| :: Space(s[i])
  }

  lemma PrefixStep<T>(s: seq<T>, i: nat)
    requires i < |s|
    ensures s[..i + 1] == s[..i] + [s[i]]
  {
  }

  lemma InitAndLast<T>(s: seq<T>)
    requires s != []
    ensures s[..|s| - 1] + [s[|s| - 1]] == s
  {
  }

  lemma UpdatedInitAndLast<T>(s: seq<T>, k: nat, x: T)
    requires k < |s|
    ensures s[k := x] == if k < |s| - 1 then s[..|s| - 1][k := x] + [s[|s| - 1]] else s[..|s| - 1] + [x]
  {
  }

  lemma Pair<T>(a: T, b: T)
    ensures [a] + [b] == [a, b] && [] + [a] == [a] && [a] + [] == [a]
  {
  }

  lemma NothingAdded<T>(s: seq<T>)
    ensures [] + s == s && s + [] == s
  {
  }

  lemma Assoc<T>(a: seq<T>, b: seq<T>, c: seq<T>)
    ensures a + b + c == a + (b + c)
  {
  }

  lemma TailOfConcat<T>(a: seq<T>, b: seq<T>)
    requires a != []
    ensures (a + b)[1..] == a[1..] + b
  {
  }

  function FlatMap<S, T>(f: S -> seq<T>, s: seq<S>): seq<T> {
    if s == [] then [] else FlatMap(f, s[..|s| - 1]) + f(s[|s| - 1])
  }

  lemma FlatMapAppend<S, T>(f: S -> seq<T>, s: seq<S>, x: S)
    ensures FlatMap(f, s + [x]) == FlatMap(f, s) + f(x)
  {
    assert (s + [x])[..|s|] == s;
  }

  lemma FlatMapOne<S, T>(f: S -> seq<T>, x: S)
    ensures FlatMap(f, [x]) == f(x)
  {
    assert [x][..0] == [];
  }

  lemma {:induction false} FlatMapConcat<S, T>(f: S -> seq<T>, a: seq<S>, b: seq<S>)
    ensures FlatMap(f, a + b) == FlatMap(f, a) + FlatMap(f, b)
  {
    if b == [] {
      assert a + b == a;
    } else {
      assert (a + b)[..|a + b| - 1] == a + b[..|b| - 1];
      FlatMapConcat(f, a, b[..|b| - 1]);
    }
  }

  lemma {:induction false} FlatMapHas<S, T>(f: S -> seq<T>, s: seq<S>, x: T)
    ensures x in FlatMap(f, s) <==> exists k :: 0 <= k < |s| && x in f(s[k])
  {
    if s != [] {
      var last := |s| - 1;
      FlatMapHas(f, s[..last], x);
      assert forall k | 0 <= k < last :: s[..last][k] == s[k];
    }
  }

  function Reverse<T>(s: seq<T>): seq<T> {
    if s == [] then [] else [s[|s| - 1]] + Reverse(s[..|s| - 1])
  }

  lemma ReverseAppend<T>(s: seq<T>, x: T)
    ensures Reverse(s + [x]) == [x] + Reverse(s)
  {
    assert (s + [x])[..|s|] == s;
  }

  lemma {:induction false} ReverseCons<T>(x: T, s: seq<T>)
    ensures Reverse([x] + s) == Reverse(s) + [x]
  {
    if s == [] {
      assert [x] + s == [] + [x];
      ReverseAppend([], x);
    } else {
      var init, last := s[..|s| - 1], s[|s| - 1];
      ReverseCons(x, init);
      ReverseAppend([x] + init, last);
      assert [x] + s == [x] + init + [last];
      assert [last] + (Reverse(init) + [x]) == [last] + Reverse(init) + [x];
    }
  }

  lemma {:induction false} ReverseTwice<T>(s: seq<T>)
    ensures Reverse(Reverse(s)) == s
  {
    if s != [] {
      ReverseTwice(s[..|s| - 1]);
      ReverseCons(s[|s| - 1], Reverse(s[..|s| - 1]));
    }
  }

  /** The state after a run of events. */
  function Fold<S, E>(step: (S, E) -> S, start: S, events: seq<E>): S {
    if events == [] then start else step(Fold(step, start, events[..|events| - 1]), events[|events| - 1])
  }

  lemma {:induction false} FoldConcat<S, E>(step: (S, E) -> S, start: S, a: seq<E>, b: seq<E>)
    ensures Fold(step, start, a + b) == Fold(step, Fold(step, start, a), b)
  {
    if b == [] {
      assert a + b == a;
    } else {
      FoldConcat(step, start, a, b[..|b| - 1]);
      assert (a + b)[..|a + b| - 1] == a + b[..|b| - 1];
    }
  }

  lemma FoldOne<S, E>(step: (S, E) -> S, start: S, event: E)
    ensures Fold(step, start, [event]) == step(start, event)
  {
    assert [event][..0] == [];
  }

  function Repeat<S>(next: S -> S, s: S, n: nat): S {
    if n == 0 then s else next(Repeat(next, s, n - 1))
  }

  /** A step that takes the head off a list, repeated n times, takes the first n off. */
  lemma {:induction false} RepeatPops<S(!new), T>(next: S -> S, list: S -> seq<T>, s: S, n: nat)
    requires n <= |list(s)| && forall p :: list(p) != [] ==> list(next(p)) == list(p)[1..]
    ensures list(Repeat(next, s, n)) == list(s)[n..]
  {
    if n > 0 {
      RepeatPops(next, list, s, n - 1);
    }
  }

  /** A step within a preorder, repeated, stays within it. */
  lemma {:induction false} RepeatStays<S(!new)>(next: S -> S, order: (S, S) -> bool, s: S, n: nat)
    requires forall p :: order(p, p) && order(p, next(p))
    requires forall p, q, r :: order(p, q) && order(q, r) ==> order(p, r)
    ensures order(s, Repeat(next, s, n))
  {
    if n > 0 {
      RepeatStays(next, order, s, n - 1);
    }
  }
}
