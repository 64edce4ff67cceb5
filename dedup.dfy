/** Order-preserving de-duplication. Each element may carry a key (`None` for an element
    that is skipped); the first element with a given key claims it, and later elements with
    that key are dropped. The movie detail route de-duplicates principals by row id and
    ratings by source in this way, tracking the keys it has seen in a `Set`. */
module Dedup {
  import opened Js

  /** Position `i` holds the first occurrence of its key. */
  predicate IsFirst<T, K(==)>(s: seq<T>, key: T -> Option<K>, i: int)
  {
    0 <= i < |s| && key(s[i]).Some? && forall j :: 0 <= j < i ==> key(s[j]) != key(s[i])
  }

  /** The keys carried by the elements of `s`: the `Set` of seen keys after a pass over `s`. */
  function KeysOf<T, K(==)>(s: seq<T>, key: T -> Option<K>): (keys: set<K>)
    ensures forall j :: 0 <= j < |s| && key(s[j]).Some? ==> key(s[j]).value in keys
    ensures forall k :: k in keys ==> exists j :: 0 <= j < |s| && key(s[j]) == Some(k)
    decreases |s|
  {
    if s == [] then {}
    else
      var prefix := s[..|s| - 1];
      var last := key(s[|s| - 1]);
      assert forall j :: 0 <= j < |prefix| ==> prefix[j] == s[j];
      KeysOf(prefix, key) + (if last.Some? then {last.value} else {})
  }

  /** The positions of the first occurrences, in increasing order, and no others. */
  function FirstIndices<T, K(==)>(s: seq<T>, key: T -> Option<K>): (idx: seq<nat>)
    ensures forall a :: 0 <= a < |idx| ==> IsFirst(s, key, idx[a])
    ensures forall a, b :: 0 <= a < b < |idx| ==> idx[a] < idx[b]
    ensures forall i :: IsFirst(s, key, i) ==> i in idx
    decreases |s|
  {
    if s == [] then []
    else
      var prefix := s[..|s| - 1];
      assert forall i :: 0 <= i < |prefix| ==> (IsFirst(prefix, key, i) <==> IsFirst(s, key, i));
      FirstIndices(prefix, key) + (if IsFirst(s, key, |s| - 1) then [|s| - 1] else [])
  }

  /** A position is a first occurrence exactly when its key is not among those seen before. */
  lemma FirstIffUnseen<T, K>(s: seq<T>, key: T -> Option<K>, i: nat)
    requires i < |s|
    ensures IsFirst(s, key, i) <==> key(s[i]).Some? && key(s[i]).value !in KeysOf(s[..i], key)
  {
    var prefix := s[..i];
    assert forall j :: 0 <= j < i ==> prefix[j] == s[j];
  }

  /** One more element extends the seen keys and the first positions as a loop does. */
  lemma Step<T, K>(s: seq<T>, key: T -> Option<K>, i: nat)
    requires i < |s|
    ensures KeysOf(s[..i + 1], key) == KeysOf(s[..i], key) + (if key(s[i]).Some? then {key(s[i]).value} else {})
    ensures FirstIndices(s[..i + 1], key) == FirstIndices(s[..i], key) + (if IsFirst(s, key, i) then [i] else [])
  {
    var longer := s[..i + 1];
    assert longer[..i] == s[..i];
    assert forall j :: 0 <= j < |longer| ==> longer[j] == s[j];
    assert IsFirst(longer, key, i) <==> IsFirst(s, key, i);
  }

  /** Keys at first positions are pairwise distinct: each key is claimed at most once. */
  lemma FirstKeysDistinct<T, K>(s: seq<T>, key: T -> Option<K>)
    ensures var idx := FirstIndices(s, key);
            forall a, b :: 0 <= a < b < |idx| ==> key(s[idx[a]]) != key(s[idx[b]])
  {
    var idx := FirstIndices(s, key);
    forall a, b | 0 <= a < b < |idx|
      ensures key(s[idx[a]]) != key(s[idx[b]])
    {
      assert idx[a] < idx[b] && IsFirst(s, key, idx[b]);
    }
  }

  /** Every key carried anywhere is claimed at some first position, at or before it. */
  lemma {:induction false} FirstCovers<T, K>(s: seq<T>, key: T -> Option<K>, i: nat)
    requires i < |s| && key(s[i]).Some?
    ensures exists a :: 0 <= a < |FirstIndices(s, key)| && FirstIndices(s, key)[a] <= i &&
                        key(s[FirstIndices(s, key)[a]]) == key(s[i])
    decreases i
  {
    var idx := FirstIndices(s, key);
    if IsFirst(s, key, i) {
      var a :| 0 <= a < |idx| && idx[a] == i;
    } else {
      var j :| 0 <= j < i && key(s[j]) == key(s[i]);
      FirstCovers(s, key, j);
    }
  }

  /** There are exactly as many first positions as distinct keys. */
  lemma {:induction false} FirstCount<T, K>(s: seq<T>, key: T -> Option<K>, n: nat)
    requires n <= |s|
    ensures |FirstIndices(s[..n], key)| == |KeysOf(s[..n], key)|
    decreases n
  {
    if n > 0 {
      var m := n - 1;
      FirstCount(s, key, m);
      Step(s, key, m);
      FirstIffUnseen(s, key, m);
      var seen := KeysOf(s[..m], key);
      if IsFirst(s, key, m) {
        assert |seen + {key(s[m]).value}| == |seen| + 1;
      } else if key(s[m]).Some? {
        assert seen + {key(s[m]).value} == seen;
      }
    }
  }

  /** `f` applied to the elements at the given positions, in their order. */
  function Gather<T, U>(s: seq<T>, idx: seq<nat>, f: T -> U): (r: seq<U>)
    requires forall a :: 0 <= a < |idx| ==> idx[a] < |s|
    ensures |r| == |idx| && forall a :: 0 <= a < |idx| ==> r[a] == f(s[idx[a]])
  {
    seq(|idx|, a requires 0 <= a < |idx| => f(s[idx[a]]))
  }

  lemma GatherSnoc<T, U>(s: seq<T>, idx: seq<nat>, i: nat, f: T -> U)
    requires forall a :: 0 <= a < |idx| ==> idx[a] < |s|
    requires i < |s|
    ensures Gather(s, idx + [i], f) == Gather(s, idx, f) + [f(s[i])]
  {
  }

  /** The elements at the first positions, extended by one more element. */
  lemma GatherFirstStep<T, K, U>(s: seq<T>, key: T -> Option<K>, f: T -> U, i: nat)
    requires i < |s|
    ensures Gather(s, FirstIndices(s[..i + 1], key), f) ==
            Gather(s, FirstIndices(s[..i], key), f) + (if IsFirst(s, key, i) then [f(s[i])] else [])
  {
    Step(s, key, i);
    if IsFirst(s, key, i) {
      GatherSnoc(s, FirstIndices(s[..i], key), i, f);
    }
  }

  /** The present values of a sequence of options, in order. */
  function Present<U>(xs: seq<Option<U>>): (r: seq<U>)
    ensures |r| <= |xs|
    ensures forall y :: y in r ==> Some(y) in xs
    ensures forall a :: 0 <= a < |xs| && xs[a].Some? ==> xs[a].value in r
    decreases |xs|
  {
    if xs == [] then []
    else
      var prefix := xs[..|xs| - 1];
      assert forall a :: 0 <= a < |prefix| ==> prefix[a] == xs[a];
      Present(prefix) + (if xs[|xs| - 1].Some? then [xs[|xs| - 1].value] else [])
  }

  lemma PresentSnoc<U>(xs: seq<Option<U>>, x: Option<U>)
    ensures Present(xs + [x]) == Present(xs) + (if x.Some? then [x.value] else [])
  {
    assert (xs + [x])[..|xs|] == xs;
  }

  /** The kept values of the first positions of `s[..i + 1]`: those of `s[..i]`, and the
      value at `i` when `i` is a first position and its value is present. */
  lemma PresentFirstStep<T, K, U>(s: seq<T>, key: T -> Option<K>, f: T -> Option<U>, i: nat)
    requires i < |s|
    ensures Present(Gather(s[..i + 1], FirstIndices(s[..i + 1], key), f)) ==
            Present(Gather(s[..i], FirstIndices(s[..i], key), f)) + (if IsFirst(s, key, i) && f(s[i]).Some? then [f(s[i]).value] else [])
  {
    var longer, shorter := s[..i + 1], s[..i];
    assert longer[..i + 1] == longer && longer[..i] == shorter;
    assert forall a :: 0 <= a <= i ==> longer[a] == s[a];
    assert IsFirst(longer, key, i) <==> IsFirst(s, key, i);
    GatherFirstStep(longer, key, f, i);
    var idx := FirstIndices(shorter, key);
    var g := Gather(shorter, idx, f);
    assert Gather(longer, idx, f) == g;
    if IsFirst(s, key, i) {
      assert Gather(longer, FirstIndices(longer, key), f) == g + [f(s[i])];
      PresentSnoc(g, f(s[i]));
    } else {
      assert Gather(longer, FirstIndices(longer, key), f) == g;
    }
  }

  /** Values at different positions that `f` tells apart stay told apart in `Present`. */
  lemma {:induction false} PresentInjective<U, K>(xs: seq<Option<U>>, f: U -> K)
    requires forall a, b :: 0 <= a < b < |xs| && xs[a].Some? && xs[b].Some? ==> f(xs[a].value) != f(xs[b].value)
    ensures forall a, b :: 0 <= a < b < |Present(xs)| ==> f(Present(xs)[a]) != f(Present(xs)[b])
    decreases |xs|
  {
    if xs != [] {
      var prefix := xs[..|xs| - 1];
      var last := xs[|xs| - 1];
      assert xs == prefix + [last];
      PresentInjective(prefix, f);
      PresentSnoc(prefix, last);
      if last.Some? {
        forall y | y in Present(prefix)
          ensures f(y) != f(last.value)
        {
          var a :| 0 <= a < |prefix| && prefix[a] == Some(y);
          assert xs[a] == Some(y);
        }
      }
    }
  }
}
