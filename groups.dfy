/**
 * Grouping a sequence by a key, as the source's counters and `dict.setdefault`-style loops
 * do: the group of a key keeps the order of the sequence, and the group sizes add up to the
 * length of the sequence.
 */
module Groups {
  import opened Seqs
  import opened MapSums

  /** The test "has key `k`"; one named function so that every use denotes the same predicate. */
  function KeyIs<T(!new), K(==)>(key: T -> K, k: K): (p: T -> bool)
    ensures forall x :: p(x) == (key(x) == k)
  {
    x => key(x) == k
  }

  /** The keys occurring in `xs`. */
  function KeysOf<T, K>(xs: seq<T>, key: T -> K): (ks: set<K>)
    ensures forall x :: x in xs ==> key(x) in ks
  {
    set i | 0 <= i < |xs| :: key(xs[i])
  }

  /** The elements with key `k`, in order. */
  function Group<T(!new), K(==)>(xs: seq<T>, key: T -> K, k: K): (g: seq<T>)
    ensures forall x :: x in g <==> x in xs && key(x) == k
  {
    Filter(xs, KeyIs(key, k))
  }

  /** Each key that occurs, mapped to the size of its group. */
  function GroupSizes<T(!new), K(!new)>(xs: seq<T>, key: T -> K): (m: map<K, nat>)
    ensures m.Keys == KeysOf(xs, key)
    ensures forall k :: k in m ==> m[k] == |Group(xs, key, k)|
  {
    map k | k in KeysOf(xs, key) :: |Group(xs, key, k)|
  }

  /** A group is empty unless its key occurs. */
  lemma EmptyUnlessKeyOccurs<T(!new), K>(xs: seq<T>, key: T -> K, k: K)
    ensures Group(xs, key, k) == [] || k in KeysOf(xs, key)
  {
    var g := Group(xs, key, k);
    if g != [] {
      assert g[0] in g;
    }
  }

  lemma KeysOfSnoc<T, K>(xs: seq<T>, x: T, key: T -> K)
    ensures KeysOf(xs + [x], key) == KeysOf(xs, key) + {key(x)}
  {
    var ys := xs + [x];
    assert forall i :: 0 <= i < |xs| ==> ys[i] == xs[i];
    assert ys[|xs|] == x;
  }

  /** Appending one element extends its own group by it and leaves the other groups alone. */
  lemma GroupSnoc<T(!new), K>(xs: seq<T>, x: T, key: T -> K, k: K)
    ensures Group(xs + [x], key, k) == Group(xs, key, k) + (if key(x) == k then [x] else [])
  {
    FilterAppend(xs, [x], KeyIs(key, k));
    assert Filter([x], KeyIs(key, k)) == Filter([], KeyIs(key, k)) + (if key(x) == k then [x] else []) by {
      assert [x][..0] == [];
    }
  }

  lemma GroupSizeSnocAt<T(!new), K>(xs: seq<T>, x: T, key: T -> K, k: K)
    ensures |Group(xs + [x], key, k)|
      == (if k in KeysOf(xs, key) then |Group(xs, key, k)| else 0) + (if key(x) == k then 1 else 0)
  {
    GroupSnoc(xs, x, key, k);
    EmptyUnlessKeyOccurs(xs, key, k);
  }

  /** `counts[k] = counts.get(k, 0) + 1`. */
  function Increment<K>(counts: map<K, nat>, k: K): map<K, nat> {
    counts[k := (if k in counts then counts[k] else 0) + 1]
  }

  /** Appending one element adds one to its key's count, starting from 0 for a new key. */
  lemma GroupSizesSnoc<T(!new), K(!new)>(xs: seq<T>, x: T, key: T -> K)
    ensures GroupSizes(xs + [x], key) == Increment(GroupSizes(xs, key), key(x))
  {
    GroupSizesSnocExplicit(xs, x, key);
  }

  lemma GroupSizesSnocExplicit<T(!new), K(!new)>(xs: seq<T>, x: T, key: T -> K)
    ensures var before := GroupSizes(xs, key);
      GroupSizes(xs + [x], key) == before[key(x) := (if key(x) in before then before[key(x)] else 0) + 1]
  {
    var before, after := GroupSizes(xs, key), GroupSizes(xs + [x], key);
    var expected := before[key(x) := (if key(x) in before then before[key(x)] else 0) + 1];
    KeysOfSnoc(xs, x, key);
    assert after.Keys == expected.Keys;
    forall k | k in after
      ensures after[k] == expected[k]
    {
      GroupSizeSnocAt(xs, x, key, k);
    }
    MapExtensional(after, expected);
  }

  /** Two maps with the same keys and the same value at every key are equal. */
  lemma MapExtensional<K, V>(a: map<K, V>, b: map<K, V>)
    requires a.Keys == b.Keys && forall k :: k in a ==> a[k] == b[k]
    ensures a == b
  {
  }

  /** The group sizes add up to the length of the sequence: every element is in exactly one group. */
  lemma {:induction false} GroupSizesSum<T(!new), K(!new)>(xs: seq<T>, key: T -> K)
    ensures Sum(GroupSizes(xs, key)) == |xs|
  {
    if xs == [] {
      assert GroupSizes(xs, key) == map[];
    } else {
      var init, x := xs[..|xs| - 1], xs[|xs| - 1];
      assert xs == init + [x];
      GroupSizesSum(init, key);
      GroupSizesSnoc(init, x, key);
      var m := GroupSizes(init, key);
      assert Increment(m, key(x)) == m[key(x) := (if key(x) in m then m[key(x)] else 0) + 1];
      SumUpdate(m, key(x), (if key(x) in m then m[key(x)] else 0) + 1);
    }
  }
}
