/** Sequence operations the source gets from JavaScript: `Array.prototype.splice`
    used to remove or insert one element, and the key order of a `Map` or a
    plain object, which is the order in which keys were first inserted. */
module SeqUtil {

  ghost predicate Distinct<T>(s: seq<T>) {
    forall i, j :: 0 <= i < j < |s| ==> s[i] != s[j]
  }

  /** `s.splice(i, 1)` on a copy of `s`: removes the element at `i`; an index
      past the end removes nothing. */
  function RemoveAt<T>(s: seq<T>, i: nat): (r: seq<T>)
    ensures i < |s| ==> |r| == |s| - 1 && multiset(r) == multiset(s) - multiset{s[i]}
    ensures i < |s| ==> forall k :: 0 <= k < |r| ==> r[k] == (if k < i then s[k] else s[k + 1])
    ensures i >= |s| ==> r == s
  {
    if i < |s| then
      assert s == s[..i] + [s[i]] + s[i + 1..];
      s[..i] + s[i + 1..]
    else s
  }

  /** `s.splice(i, 0, x)` on a copy of `s`: inserts `x` before position `i`;
      an index past the end appends. */
  function InsertAt<T>(s: seq<T>, i: nat, x: T): (r: seq<T>)
    ensures |r| == |s| + 1 && multiset(r) == multiset(s) + multiset{x}
    ensures r[if i < |s| then i else |s|] == x
    ensures forall k :: 0 <= k < |s| ==> r[if k < i then k else k + 1] == s[k]
  {
    var j := if i < |s| then i else |s|;
    assert s == s[..j] + s[j..];
    s[..j] + [x] + s[j..]
  }

  /** The elements of `s` without repeats, each where it first appears: the
      key order of a `Map` (or an object) filled by `set` calls in the order
      of `s`. */
  function FirstAppearance<T(==)>(s: seq<T>): (r: seq<T>)
    decreases |s|
  {
    if s == [] then []
    else
      var prefix := FirstAppearance(s[..|s| - 1]);
      if s[|s| - 1] in s[..|s| - 1] then prefix else prefix + [s[|s| - 1]]
  }

  /** The key order has no repeats and holds exactly the elements of `s`. */
  lemma {:induction false} FirstAppearanceSpec<T>(s: seq<T>)
    ensures Distinct(FirstAppearance(s))
    ensures forall x :: x in FirstAppearance(s) <==> x in s
    ensures |FirstAppearance(s)| <= |s|
    decreases |s|
  {
    if s != [] {
      var init := s[..|s| - 1];
      FirstAppearanceSpec(init);
      assert s == init + [s[|s| - 1]];
    }
  }

  /** On a sequence without repeats the key order is the sequence itself. */
  lemma {:induction false} FirstAppearanceOfDistinct<T>(s: seq<T>)
    requires Distinct(s)
    ensures FirstAppearance(s) == s
    decreases |s|
  {
    if s != [] {
      var init := s[..|s| - 1];
      FirstAppearanceOfDistinct(init);
      assert s[|s| - 1] !in init;
      assert s == init + [s[|s| - 1]];
    }
  }

  /** Appending `x` to the input appends `x` to the key order exactly when
      it is a new key. */
  lemma FirstAppearanceSnoc<T>(s: seq<T>, x: T)
    ensures FirstAppearance(s + [x]) == if x in s then FirstAppearance(s) else FirstAppearance(s) + [x]
  {
    assert (s + [x])[..|s + [x]| - 1] == s;
  }

  /** Keys inserted after the keys of `a` come after them: the key order of
      `a + b` starts with the key order of `a`, and everything after it is a
      key that `a` does not have. */
  lemma {:induction false} FirstAppearanceAppend<T>(a: seq<T>, b: seq<T>)
    ensures |FirstAppearance(a)| <= |FirstAppearance(a + b)|
    ensures FirstAppearance(a + b)[..|FirstAppearance(a)|] == FirstAppearance(a)
    ensures forall i :: |FirstAppearance(a)| <= i < |FirstAppearance(a + b)| ==> FirstAppearance(a + b)[i] !in a
    decreases |b|
  {
    if b == [] {
      assert a + b == a;
    } else {
      var b' := b[..|b| - 1];
      var x := b[|b| - 1];
      FirstAppearanceAppend(a, b');
      assert a + b == (a + b') + [x];
      FirstAppearanceSnoc(a + b', x);
    }
  }

  /** Appending only keys already present leaves the key order alone. */
  lemma {:induction false} FirstAppearanceCovered<T>(a: seq<T>, b: seq<T>)
    requires forall x :: x in b ==> x in a
    ensures FirstAppearance(a + b) == FirstAppearance(a)
    decreases |b|
  {
    if b == [] {
      assert a + b == a;
    } else {
      var b' := b[..|b| - 1];
      var x := b[|b| - 1];
      FirstAppearanceCovered(a, b');
      assert a + b == (a + b') + [x];
      assert x in a + b';
      FirstAppearanceSnoc(a + b', x);
    }
  }

  /** `s.reduce((acc, x) => { acc[key(x)] = x; return acc; }, {})`: every
      element stored under its key, a later element replacing an earlier one
      with the same key. */
  function IndexBy<T, K(==)>(s: seq<T>, key: T -> K): map<K, T>
    decreases |s|
  {
    if s == [] then map[] else IndexBy(s[..|s| - 1], key)[key(s[|s| - 1]) := s[|s| - 1]]
  }

  /** The keys of the index are exactly the keys of the elements. */
  lemma {:induction false} IndexByKeys<T, K>(s: seq<T>, key: T -> K)
    ensures forall k :: k in IndexBy(s, key) ==> exists i :: 0 <= i < |s| && key(s[i]) == k
    ensures forall i :: 0 <= i < |s| ==> key(s[i]) in IndexBy(s, key)
    decreases |s|
  {
    if s != [] {
      var init := s[..|s| - 1];
      IndexByKeys(init, key);
      forall k | k in IndexBy(s, key) ensures exists i :: 0 <= i < |s| && key(s[i]) == k {
        if k != key(s[|s| - 1]) {
          assert k in IndexBy(init, key);
          var i :| 0 <= i < |init| && key(init[i]) == k;
          assert key(s[i]) == k;
        }
      }
      forall i | 0 <= i < |init| ensures key(s[i]) in IndexBy(s, key) {
        assert s[i] == init[i];
      }
    }
  }

  /** Last write wins: when some element at or after `lo` has key `k`, the
      index stores under `k` an element at or after `lo` whose key is `k`. */
  lemma {:induction false} IndexByLate<T, K>(s: seq<T>, key: T -> K, lo: nat, k: K)
    requires exists j :: lo <= j < |s| && key(s[j]) == k
    ensures k in IndexBy(s, key)
    ensures exists i :: lo <= i < |s| && key(s[i]) == k && s[i] == IndexBy(s, key)[k]
    decreases |s|
  {
    var last := |s| - 1;
    if key(s[last]) != k {
      var init := s[..last];
      var j :| lo <= j < |s| && key(s[j]) == k;
      assert key(init[j]) == k;
      IndexByLate(init, key, lo, k);
      var i :| lo <= i < |init| && key(init[i]) == k && init[i] == IndexBy(init, key)[k];
      assert s[i] == init[i];
    }
  }

  /** With distinct keys, each element is stored under its own key. */
  lemma IndexByDistinct<T, K>(s: seq<T>, key: T -> K, i: nat)
    requires forall a, b :: 0 <= a < b < |s| ==> key(s[a]) != key(s[b])
    requires i < |s|
    ensures key(s[i]) in IndexBy(s, key) && IndexBy(s, key)[key(s[i])] == s[i]
  {
    IndexByLate(s, key, 0, key(s[i]));
  }
}
