/**
 * A stable sort by an integer key, standing for Python's `sorted(xs, key=k)`,
 * and the proof that a sorted, key-stable arrangement is unique, so any
 * stable sort (Python's included) yields exactly this sequence.
 */
module StableSort {

  ghost predicate SortedBy<T>(s: seq<T>, key: T -> int)
  {
    forall i, j :: 0 <= i < j < |s| ==> key(s[i]) <= key(s[j])
  }

  /** The elements of `s` whose key is `k`, in their order in `s`. */
  function WithKey<T>(s: seq<T>, key: T -> int, k: int): (r: seq<T>)
  {
    if s == [] then []
    else (if key(s[0]) == k then [s[0]] else []) + WithKey(s[1..], key, k)
  }

  /** Insert `x` before the first element of `s` whose key is not smaller than its own. */
  function InsertByKey<T>(x: T, s: seq<T>, key: T -> int): (r: seq<T>)
  {
    if s == [] || key(x) <= key(s[0]) then [x] + s
    else [s[0]] + InsertByKey(x, s[1..], key)
  }

  lemma {:induction false} InsertPermutes<T>(x: T, s: seq<T>, key: T -> int)
    ensures multiset(InsertByKey(x, s, key)) == multiset(s) + multiset{x}
  {
    if s != [] && key(x) > key(s[0]) {
      InsertPermutes(x, s[1..], key);
      assert s == [s[0]] + s[1..];
    }
  }

  lemma {:induction false} InsertSorted<T>(x: T, s: seq<T>, key: T -> int)
    requires SortedBy(s, key)
    ensures SortedBy(InsertByKey(x, s, key), key)
  {
    if s != [] && key(x) > key(s[0]) {
      var rest := InsertByKey(x, s[1..], key);
      InsertSorted(x, s[1..], key);
      InsertPermutes(x, s[1..], key);
      forall i | 0 <= i < |rest| ensures key(s[0]) <= key(rest[i]) {
        assert rest[i] in multiset(rest);
        assert rest[i] == x || rest[i] in multiset(s[1..]);
      }
    }
  }

  /** Insertion keeps the order among equal keys, placing `x` first among its own key. */
  lemma {:induction false} InsertWithKey<T>(x: T, s: seq<T>, key: T -> int, k: int)
    requires SortedBy(s, key)
    ensures WithKey(InsertByKey(x, s, key), key, k) ==
            if key(x) == k then [x] + WithKey(s, key, k) else WithKey(s, key, k)
  {
    if s == [] || key(x) <= key(s[0]) {
      assert ([x] + s)[1..] == s;
    } else {
      var r := InsertByKey(x, s[1..], key);
      InsertWithKey(x, s[1..], key, k);
      assert ([s[0]] + r)[1..] == r;
    }
  }

  /** The stable sort of `s` by `key`: sorted, a permutation, and order-preserving within each key. */
  function SortByKey<T>(s: seq<T>, key: T -> int): (r: seq<T>)
    ensures SortedBy(r, key)
    ensures multiset(r) == multiset(s)
    ensures forall k :: WithKey(r, key, k) == WithKey(s, key, k)
  {
    if s == [] then []
    else
      var sortedTail := SortByKey(s[1..], key);
      InsertSorted(s[0], sortedTail, key);
      InsertPermutes(s[0], sortedTail, key);
      assert s == [s[0]] + s[1..];
      forall k ensures WithKey(InsertByKey(s[0], sortedTail, key), key, k) == WithKey(s, key, k) {
        InsertWithKey(s[0], sortedTail, key, k);
      }
      InsertByKey(s[0], sortedTail, key)
  }

  /** The first element is listed under its own key. */
  lemma WithKeyOfHead<T>(s: seq<T>, key: T -> int)
    ensures s != [] ==> WithKey(s, key, key(s[0])) != [] && WithKey(s, key, key(s[0]))[0] == s[0]
  {
  }

  /** A non-empty `WithKey` has a witness in `s`. */
  lemma {:induction false} WithKeyWitness<T>(s: seq<T>, key: T -> int, k: int) returns (i: nat)
    requires WithKey(s, key, k) != []
    ensures i < |s| && key(s[i]) == k
  {
    if key(s[0]) == k {
      i := 0;
    } else {
      var j := WithKeyWitness(s[1..], key, k);
      i := j + 1;
    }
  }

  /** `WithKey` of a non-empty sequence, one step unfolded. */
  lemma WithKeyUnfold<T>(s: seq<T>, key: T -> int, k: int)
    requires s != []
    ensures WithKey(s, key, k) == (if key(s[0]) == k then [s[0]] else []) + WithKey(s[1..], key, k)
  {
  }

  /** Sorted arrangements with the same order within every key start with the same element. */
  lemma SameHead<T>(a: seq<T>, b: seq<T>, key: T -> int)
    requires a != [] && b != []
    requires SortedBy(a, key) && SortedBy(b, key)
    requires forall k :: WithKey(a, key, k) == WithKey(b, key, k)
    ensures a[0] == b[0]
  {
    var ka, kb := key(a[0]), key(b[0]);
    WithKeyOfHead(a, key);
    WithKeyOfHead(b, key);
    assert WithKey(b, key, ka) == WithKey(a, key, ka);
    var i := WithKeyWitness(b, key, ka);
    assert kb <= ka;
    assert WithKey(a, key, kb) == WithKey(b, key, kb);
    var j := WithKeyWitness(a, key, kb);
    assert ka <= kb;
  }

  /** Dropping a common head keeps the order within every key equal. */
  lemma SameTailsByKey<T>(a: seq<T>, b: seq<T>, key: T -> int, k: int)
    requires a != [] && b != [] && a[0] == b[0]
    requires WithKey(a, key, k) == WithKey(b, key, k)
    ensures WithKey(a[1..], key, k) == WithKey(b[1..], key, k)
  {
    var ta, tb := WithKey(a[1..], key, k), WithKey(b[1..], key, k);
    WithKeyUnfold(a, key, k);
    WithKeyUnfold(b, key, k);
    if key(a[0]) == k {
      assert [a[0]] + ta == [b[0]] + tb;
      assert ([a[0]] + ta)[1..] == ta;
      assert ([b[0]] + tb)[1..] == tb;
    } else {
      assert [] + ta == ta && [] + tb == tb;
    }
  }

  /**
   * Two arrangements that are both sorted by `key` and agree on the order
   * within every key are equal: a stable sort has only one possible result.
   */
  lemma {:induction false} StableSortUnique<T>(a: seq<T>, b: seq<T>, key: T -> int)
    requires SortedBy(a, key) && SortedBy(b, key)
    requires forall k :: WithKey(a, key, k) == WithKey(b, key, k)
    ensures a == b
  {
    WithKeyOfHead(a, key);
    WithKeyOfHead(b, key);
    if a != [] && b != [] {
      SameHead(a, b, key);
      forall k ensures WithKey(a[1..], key, k) == WithKey(b[1..], key, k) {
        SameTailsByKey(a, b, key, k);
      }
      assert SortedBy(a[1..], key) && SortedBy(b[1..], key);
      StableSortUnique(a[1..], b[1..], key);
      assert a == [a[0]] + a[1..] && b == [b[0]] + b[1..];
    }
  }
}
