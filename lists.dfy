/** The list helpers of gantt/gantt.py: _flatten (gantt.py:237-254) and the
    "keep the first occurrence" loop that Project.get_resources and
    Project.get_tasks run over its result (gantt.py:1044-1047, 1064-1067). */
module Lists {

  /** A Python list whose items are values or, nested to any depth, lists. */
  datatype Nested<T> = Leaf(value: T) | Group(items: seq<Nested<T>>)

  /** The values of a nested list, left to right. */
  function Flatten<T>(n: Nested<T>): seq<T>
    decreases n
  {
    match n
    case Leaf(v) => [v]
    case Group(items) => FlattenAll(items)
  }

  function FlattenAll<T>(ns: seq<Nested<T>>): seq<T>
    decreases ns
  {
    if ns == [] then [] else Flatten(ns[0]) + FlattenAll(ns[1..])
  }

  /** Each value as a leaf: the list [v0, v1, ...] as an item of a list. */
  function Leaves<T>(xs: seq<T>): (r: seq<Nested<T>>)
    ensures |r| == |xs| && forall k :: 0 <= k < |xs| ==> r[k] == Leaf(xs[k])
  {
    seq(|xs|, k requires 0 <= k < |xs| => Leaf(xs[k]))
  }

  /** Number of list cells and values: what each step of _flatten reduces. */
  function Size<T>(n: Nested<T>): (r: nat)
    ensures r >= 1
    decreases n
  {
    match n
    case Leaf(_) => 1
    case Group(items) => 1 + SizeAll(items)
  }

  function SizeAll<T>(ns: seq<Nested<T>>): (r: nat)
    ensures r >= |ns|
    decreases ns
  {
    if ns == [] then 0 else Size(ns[0]) + SizeAll(ns[1..])
  }

  lemma {:induction false} FlattenAllAppend<T>(a: seq<Nested<T>>, b: seq<Nested<T>>)
    ensures FlattenAll(a + b) == FlattenAll(a) + FlattenAll(b)
    ensures SizeAll(a + b) == SizeAll(a) + SizeAll(b)
    decreases |a|
  {
    if a == [] {
      assert a + b == b;
    } else {
      assert (a + b)[0] == a[0];
      assert (a + b)[1..] == a[1..] + b;
      FlattenAllAppend(a[1..], b);
      assert FlattenAll(a + b) == Flatten(a[0]) + FlattenAll(a[1..] + b);
      assert SizeAll(a + b) == Size(a[0]) + SizeAll(a[1..] + b);
    }
  }

  /** Splitting a list around one item. */
  lemma FlattenAllAround<T>(l: seq<Nested<T>>, i: nat)
    requires i < |l|
    ensures FlattenAll(l) == FlattenAll(l[..i]) + Flatten(l[i]) + FlattenAll(l[i + 1..])
    ensures SizeAll(l) == SizeAll(l[..i]) + Size(l[i]) + SizeAll(l[i + 1..])
  {
    var tail := l[i..];
    assert l == l[..i] + tail;
    FlattenAllAppend(l[..i], tail);
    assert tail[0] == l[i] && tail[1..] == l[i + 1..];
  }

  lemma {:induction false} FlattenLeaves<T>(xs: seq<T>)
    ensures FlattenAll(Leaves(xs)) == xs
    decreases |xs|
  {
    if xs != [] {
      assert Leaves(xs)[1..] == Leaves(xs[1..]);
      FlattenLeaves(xs[1..]);
    }
  }

  /** A list of values only is its own flattening. */
  lemma {:induction false} FlattenAllOfValues<T>(l: seq<Nested<T>>)
    requires forall k :: 0 <= k < |l| ==> l[k].Leaf?
    ensures FlattenAll(l) == seq(|l|, k requires 0 <= k < |l| => l[k].value)
    decreases |l|
  {
    if l != [] {
      FlattenAllOfValues(l[1..]);
    }
  }

  /** _flatten: scan the list, splicing each nested list in place of the
      item that holds it and dropping each empty one, which moves the index
      back by one (to -1 at the front). */
  method FlattenList<T>(xs: seq<Nested<T>>) returns (r: seq<T>)
    ensures r == FlattenAll(xs)
  {
    var l := xs;
    var i: int := 0;
    while i < |l|
      invariant 0 <= i <= |l|
      invariant forall k :: 0 <= k < i ==> l[k].Leaf?
      invariant FlattenAll(l) == FlattenAll(xs)
      decreases SizeAll(l) - i
    {
      ghost var l0 := l;
      ghost var i0 := i;
      while l[i].Group?
        invariant 0 <= i < |l| && i == i0
        invariant l[..i] == l0[..i]
        invariant FlattenAll(l) == FlattenAll(xs)
        invariant SizeAll(l) <= SizeAll(l0)
        decreases Size(l[i])
      {
        var items := l[i].items;
        FlattenAllAround(l, i);
        if items == [] {
          // l.pop(i); i -= 1; break
          var l' := l[..i] + l[i + 1..];
          FlattenAllAppend(l[..i], l[i + 1..]);
          assert l'[..i] == l[..i];
          l := l';
          i := i - 1;
          break;
        } else {
          // l[i:i + 1] = l[i]
          var l' := l[..i] + items + l[i + 1..];
          FlattenAllAppend(l[..i] + items, l[i + 1..]);
          FlattenAllAppend(l[..i], items);
          assert l'[..i] == l[..i];
          assert l'[i] == items[0];
          assert SizeAll(items) == Size(items[0]) + SizeAll(items[1..]);
          l := l';
        }
      }
      i := i + 1;
    }
    FlattenAllOfValues(l);
    r := seq(|l|, k requires 0 <= k < |l| => l[k].value);
  }

  // ---------------------------------------------------------------------
  // Keeping the first occurrence

  /** The loop `if r not in flist: flist.append(r)` run over xs, starting
      from flist == acc. */
  function DedupFrom<T(==)>(acc: seq<T>, xs: seq<T>): seq<T>
    decreases |xs|
  {
    if xs == [] then acc
    else DedupFrom(if xs[0] in acc then acc else acc + [xs[0]], xs[1..])
  }

  function Dedup<T(==)>(xs: seq<T>): seq<T> {
    DedupFrom([], xs)
  }

  predicate NoDuplicates<T(==)>(xs: seq<T>) {
    forall i, j :: 0 <= i < j < |xs| ==> xs[i] != xs[j]
  }

  /** The position of the first occurrence of x in xs. */
  function FirstIndex<T(==)>(xs: seq<T>, x: T): (r: nat)
    requires x in xs
    ensures r < |xs| && xs[r] == x && x !in xs[..r]
  {
    if xs[0] == x then 0
    else
      var k := FirstIndex(xs[1..], x);
      assert xs[..k + 1] == [xs[0]] + xs[1..][..k];
      k + 1
  }

  /** The loop as written, over a flat list. */
  method DedupLoop<T(==)>(xs: seq<T>) returns (r: seq<T>)
    ensures r == Dedup(xs)
  {
    r := [];
    for k := 0 to |xs|
      invariant DedupFrom(r, xs[k..]) == Dedup(xs)
    {
      assert xs[k..][1..] == xs[k + 1..];
      if xs[k] !in r {
        r := r + [xs[k]];
      }
    }
  }

  lemma {:induction false} DedupFromAppend<T>(acc: seq<T>, a: seq<T>, b: seq<T>)
    ensures DedupFrom(acc, a + b) == DedupFrom(DedupFrom(acc, a), b)
    decreases |a|
  {
    if a == [] {
      assert a + b == b;
    } else {
      assert (a + b)[0] == a[0];
      assert (a + b)[1..] == a[1..] + b;
      DedupFromAppend(if a[0] in acc then acc else acc + [a[0]], a[1..], b);
    }
  }

  /** The result holds what acc and xs hold, acc first, without adding a
      duplicate. */
  lemma {:induction false} DedupFromFacts<T>(acc: seq<T>, xs: seq<T>)
    ensures forall x :: x in DedupFrom(acc, xs) <==> x in acc || x in xs
    ensures |DedupFrom(acc, xs)| >= |acc| && DedupFrom(acc, xs)[..|acc|] == acc
    ensures NoDuplicates(acc) ==> NoDuplicates(DedupFrom(acc, xs))
    decreases |xs|
  {
    if xs != [] {
      var acc' := if xs[0] in acc then acc else acc + [xs[0]];
      DedupFromFacts(acc', xs[1..]);
      assert forall x :: x in xs <==> x == xs[0] || x in xs[1..] by {
        assert xs == [xs[0]] + xs[1..];
      }
      assert acc'[..|acc|] == acc;
      assert DedupFrom(acc, xs)[..|acc|] == DedupFrom(acc, xs)[..|acc'|][..|acc|];
    }
  }

  /** The first-seen rule: an element is appended where it first occurs. */
  lemma DedupSnoc<T>(xs: seq<T>, x: T)
    ensures Dedup(xs + [x]) == Dedup(xs) + (if x in xs then [] else [x])
  {
    DedupFromAppend([], xs, [x]);
    DedupFromFacts([], xs);
  }

  /** Running doubles out of a list first changes nothing further on. */
  lemma {:induction false} DedupFromDedup<T>(acc: seq<T>, b: seq<T>)
    ensures DedupFrom(acc, Dedup(b)) == DedupFrom(acc, b)
    decreases |b|
  {
    if b != [] {
      var b' := b[..|b| - 1];
      var x := b[|b| - 1];
      assert b == b' + [x];
      DedupSnoc(b', x);
      DedupFromDedup(acc, b');
      DedupFromAppend(acc, Dedup(b'), if x in b' then [] else [x]);
      DedupFromAppend(acc, b', [x]);
      DedupFromFacts(acc, b');
    }
  }

  /** What get_tasks and get_resources promise of their result: each element
      of xs exactly once, in the order of first occurrence. */
  lemma {:induction false} DedupFacts<T>(xs: seq<T>)
    ensures forall x :: x in Dedup(xs) <==> x in xs
    ensures NoDuplicates(Dedup(xs))
    ensures forall i, j :: 0 <= i < j < |Dedup(xs)| ==> FirstIndex(xs, Dedup(xs)[i]) < FirstIndex(xs, Dedup(xs)[j])
    decreases |xs|
  {
    DedupFromFacts([], xs);
    if xs != [] {
      var xs' := xs[..|xs| - 1];
      var x := xs[|xs| - 1];
      assert xs == xs' + [x];
      DedupSnoc(xs', x);
      DedupFacts(xs');
      var d := Dedup(xs);
      var d' := Dedup(xs');
      forall y | y in xs'
        ensures FirstIndex(xs, y) == FirstIndex(xs', y)
      {
        FirstIndexExtend(xs', x, y);
      }
      forall i, j | 0 <= i < j < |d|
        ensures FirstIndex(xs, d[i]) < FirstIndex(xs, d[j])
      {
        assert d[i] == d'[i];
        if j < |d'| {
          assert d[j] == d'[j];
        } else {
          assert d[j] == x && x !in xs';
          assert FirstIndex(xs, x) == |xs'| by {
            assert xs[..|xs'|] == xs';
          }
        }
      }
    }
  }

  lemma InPrefix<T>(s: seq<T>, j: int, n: int)
    ensures 0 <= j < n <= |s| ==> s[j] in s[..n]
  {
    if 0 <= j < n <= |s| {
      assert s[..n][j] == s[j];
    }
  }

  lemma FirstIndexExtend<T>(xs: seq<T>, x: T, y: T)
    requires y in xs
    ensures FirstIndex(xs + [x], y) == FirstIndex(xs, y)
  {
    var k := FirstIndex(xs, y);
    var k' := FirstIndex(xs + [x], y);
    assert (xs + [x])[..k] == xs[..k];
    if k' < k {
      InPrefix(xs, k', k);
      assert false;
    } else if k' > k {
      InPrefix(xs + [x], k, k');
      assert false;
    }
  }
}
