/** The frame operations the converter uses, on rows kept in a `seq`:
    `drop_duplicates(subset=...)` keeps the first row of every key, in the
    original order; `groupby` visits the distinct keys in ascending order. */
module Tables {
  import opened Text

  /** Some row of s has key k. */
  predicate HasKey<T, K(==)>(s: seq<T>, key: T -> K, k: K) {
    exists i :: 0 <= i < |s| && key(s[i]) == k
  }

  lemma HasKeyAppend<T, K>(s: seq<T>, x: T, key: T -> K, k: K)
    ensures HasKey(s + [x], key, k) <==> HasKey(s, key, k) || key(x) == k
  {
    var t := s + [x];
    if HasKey(s, key, k) {
      var i :| 0 <= i < |s| && key(s[i]) == k;
      assert t[i] == s[i];
    }
    if HasKey(t, key, k) {
      var i :| 0 <= i < |t| && key(t[i]) == k;
      if i < |s| { assert t[i] == s[i]; }
    }
    if key(x) == k {
      assert t[|s|] == x;
    }
  }

  /** `drop_duplicates(subset=key)`: the rows whose key no earlier row has. */
  function DistinctBy<T, K(==)>(s: seq<T>, key: T -> K): seq<T>
    decreases |s|
  {
    if |s| == 0 then []
    else
      var init := s[..|s| - 1];
      DistinctBy(init, key) + (if HasKey(init, key, key(s[|s| - 1])) then [] else [s[|s| - 1]])
  }

  /** The index of the first row of s with key k. */
  function FirstIndex<T, K(==)>(s: seq<T>, key: T -> K, k: K): (i: nat)
    requires HasKey(s, key, k)
    ensures i < |s| && key(s[i]) == k && !HasKey(s[..i], key, k)
    decreases |s|
  {
    var init := s[..|s| - 1];
    HasKeyAppend(init, s[|s| - 1], key, k);
    assert s == init + [s[|s| - 1]];
    if HasKey(init, key, k) then
      var i := FirstIndex(init, key, k);
      assert s[..i] == init[..i];
      i
    else
      assert s[..|s| - 1] == init;
      |s| - 1
  }

  /** What `drop_duplicates` promises: the same keys, each once, each row the
      first row of its key, and the rows in the order of their first
      appearance. */
  lemma {:induction false} DistinctByProperties<T, K>(s: seq<T>, key: T -> K)
    ensures var r := DistinctBy(s, key);
      && (forall k :: HasKey(r, key, k) <==> HasKey(s, key, k))
      && (forall m :: 0 <= m < |r| ==> HasKey(s, key, key(r[m])) && r[m] == s[FirstIndex(s, key, key(r[m]))])
      && (forall m1, m2 :: 0 <= m1 < m2 < |r| ==>
            FirstIndex(s, key, key(r[m1])) < FirstIndex(s, key, key(r[m2])))
    decreases |s|
  {
    var r := DistinctBy(s, key);
    if |s| > 0 {
      var init := s[..|s| - 1];
      var x := s[|s| - 1];
      var r0 := DistinctBy(init, key);
      DistinctByProperties(init, key);
      assert s == init + [x];
      forall k ensures HasKey(s, key, k) <==> HasKey(init, key, k) || key(x) == k {
        HasKeyAppend(init, x, key, k);
      }
      // first indices in s agree with those in init for keys init already has
      forall k | HasKey(init, key, k) ensures FirstIndex(s, key, k) == FirstIndex(init, key, k) {
      }
      if HasKey(init, key, key(x)) {
        assert r == r0;
      } else {
        assert r == r0 + [x];
        forall k ensures HasKey(r, key, k) <==> HasKey(r0, key, k) || key(x) == k {
          HasKeyAppend(r0, x, key, k);
        }
        assert FirstIndex(s, key, key(x)) == |s| - 1;
        forall m | 0 <= m < |r0| ensures FirstIndex(s, key, key(r[m])) < |s| - 1 {
          assert r[m] == r0[m];
        }
      }
    }
  }

  /** `drop_duplicates` leaves no two rows with the same key. */
  lemma DistinctByKeysDistinct<T, K>(s: seq<T>, key: T -> K)
    ensures var r := DistinctBy(s, key);
      forall m1, m2 :: 0 <= m1 < m2 < |r| ==> key(r[m1]) != key(r[m2])
  {
    DistinctByProperties(s, key);
  }

  /** The key column of s. */
  function KeysOf<T, K>(s: seq<T>, key: T -> K): (r: seq<K>)
    ensures |r| == |s| && forall i :: 0 <= i < |s| ==> r[i] == key(s[i])
  {
    seq(|s|, i requires 0 <= i < |s| => key(s[i]))
  }

  /** The key column of `drop_duplicates(subset=key)` lists every key of s
      exactly once. */
  lemma DistinctKeys<T, K>(s: seq<T>, key: T -> K)
    ensures var ks := KeysOf(DistinctBy(s, key), key);
      && (forall k :: k in ks <==> HasKey(s, key, k))
      && (forall i, j :: 0 <= i < j < |ks| ==> ks[i] != ks[j])
  {
    var r := DistinctBy(s, key);
    var ks := KeysOf(r, key);
    DistinctByProperties(s, key);
    DistinctByKeysDistinct(s, key);
    forall k ensures k in ks <==> HasKey(r, key, k) {
      if k in ks {
        var i :| 0 <= i < |ks| && ks[i] == k;
      }
      if HasKey(r, key, k) {
        var i :| 0 <= i < |r| && key(r[i]) == k;
        assert ks[i] == k;
      }
    }
  }

  function Whole<T>(x: T): T { x }

  /** `unique()` / a `drop_duplicates()` over every column: each value once,
      in order of first appearance. */
  function Unique<T(==)>(s: seq<T>): seq<T> {
    DistinctBy(s, Whole)
  }

  lemma UniqueProperties<T>(s: seq<T>)
    ensures var u := Unique(s);
      && (forall x :: x in u <==> x in s)
      && (forall i, j :: 0 <= i < j < |u| ==> u[i] != u[j])
  {
    DistinctKeys(s, Whole);
    var u := Unique(s);
    assert KeysOf(u, Whole) == u;
    forall x ensures HasKey(s, Whole, x) <==> x in s {
      if x in s {
        var i :| 0 <= i < |s| && s[i] == x;
        assert Whole(s[i]) == x;
      }
    }
  }

  /** The rows of s that satisfy p, in order (a boolean-mask selection). */
  function Filter<T(!new)>(s: seq<T>, p: T -> bool): (r: seq<T>)
    ensures |r| <= |s|
    ensures forall x :: x in r <==> x in s && p(x)
    decreases |s|
  {
    if |s| == 0 then []
    else
      var init := Filter(s[..|s| - 1], p);
      assert s == s[..|s| - 1] + [s[|s| - 1]];
      init + (if p(s[|s| - 1]) then [s[|s| - 1]] else [])
  }

  function Concat<T>(ss: seq<seq<T>>): seq<T>
    decreases |ss|
  {
    if |ss| == 0 then [] else Concat(ss[..|ss| - 1]) + ss[|ss| - 1]
  }

  // ---------------------------------------------------------------------------
  // The ascending key order in which `groupby` visits its groups

  predicate StrictlySorted(s: seq<string>) {
    forall i, j :: 0 <= i < j < |s| ==> Less(s[i], s[j])
  }

  lemma SortedDistinct(s: seq<string>)
    requires StrictlySorted(s)
    ensures forall i, j :: 0 <= i < j < |s| ==> s[i] != s[j]
  {
    forall i, j | 0 <= i < j < |s| ensures s[i] != s[j] {
      LessIrreflexive(s[i]);
    }
  }

  lemma LessThanSorted(x: string, s: seq<string>)
    requires StrictlySorted(s) && |s| > 0 && Less(x, s[0])
    ensures forall j :: 0 <= j < |s| ==> Less(x, s[j])
  {
    forall j | 0 < j < |s| ensures Less(x, s[j]) {
      LessTransitive(x, s[0], s[j]);
    }
  }

  function InsertSorted(x: string, s: seq<string>): (r: seq<string>)
    requires StrictlySorted(s) && x !in s
    ensures StrictlySorted(r) && |r| == |s| + 1
    ensures forall y :: y in r <==> y == x || y in s
    decreases |s|
  {
    if |s| == 0 then [x]
    else if Less(x, s[0]) then
      LessThanSorted(x, s);
      [x] + s
    else
      LessTotal(x, s[0]);
      var tail := InsertSorted(x, s[1..]);
      assert forall y :: y in s <==> y == s[0] || y in s[1..] by {
        assert s == [s[0]] + s[1..];
      }
      assert forall j :: 0 <= j < |tail| ==> Less(s[0], tail[j]) by {
        forall j | 0 <= j < |tail| ensures Less(s[0], tail[j]) {
          if tail[j] != x {
            assert tail[j] in s[1..];
            var k :| 0 <= k < |s[1..]| && s[1..][k] == tail[j];
            assert s[k + 1] == tail[j];
          }
        }
      }
      [s[0]] + tail
  }

  /** The distinct strings of the input in ascending order. */
  function SortDistinct(s: seq<string>): (r: seq<string>)
    requires forall i, j :: 0 <= i < j < |s| ==> s[i] != s[j]
    ensures StrictlySorted(r) && |r| == |s|
    ensures forall y :: y in r <==> y in s
    decreases |s|
  {
    if |s| == 0 then []
    else
      var init := s[..|s| - 1];
      assert s == init + [s[|s| - 1]];
      InsertSorted(s[|s| - 1], SortDistinct(init))
  }
}
