/** Ascending enumeration of a finite key set: the iteration order of an ordered map. */
module Order {

  ghost predicate StrictTotal<K(!new)>(less: (K, K) -> bool) {
    && (forall a :: !less(a, a))
    && (forall a, b {:trigger less(a, b)} :: a == b || less(a, b) || less(b, a))
    && (forall a, b, c {:trigger less(a, b), less(b, c)} :: less(a, b) && less(b, c) ==> less(a, c))
  }

  ghost predicate Ascends<K>(less: (K, K) -> bool, s: seq<K>) {
    forall i, j :: 0 <= i < j < |s| ==> less(s[i], s[j])
  }

  predicate IsLeast<K(==)>(less: (K, K) -> bool, keys: set<K>, k: K) {
    k in keys && forall x | x in keys :: x == k || less(k, x)
  }

  /** Every non-empty finite set has a least element. */
  lemma {:induction false} LeastExists<K(!new)>(less: (K, K) -> bool, keys: set<K>) returns (k: K)
    requires StrictTotal(less) && keys != {}
    ensures IsLeast(less, keys, k)
    decreases |keys|
  {
    var x :| x in keys;
    if keys == {x} {
      k := x;
    } else {
      var rest := keys - {x};
      assert rest != {} by {
        assert keys == rest + {x};
      }
      var m := LeastExists(less, rest);
      k := if less(x, m) then x else m;
      assert less(x, m) || less(m, x);
    }
  }

  /** The keys in ascending order, each exactly once. */
  function Ascending<K(==, !new)>(keys: set<K>, less: (K, K) -> bool): (s: seq<K>)
    requires StrictTotal(less)
    ensures Ascends(less, s)
    ensures forall k :: k in s <==> k in keys
    ensures |s| == |keys|
    decreases |keys|
  {
    if keys == {} then []
    else
      assert exists k :: IsLeast(less, keys, k) by {
        var k := LeastExists(less, keys);
      }
      var k :| IsLeast(less, keys, k);
      assert |keys - {k}| == |keys| - 1;
      [k] + Ascending(keys - {k}, less)
  }

  /** An ascending sequence has no repeats. */
  lemma AscendsDistinct<K(!new)>(less: (K, K) -> bool, s: seq<K>, i: nat, j: nat)
    requires StrictTotal(less) && Ascends(less, s) && i < j < |s|
    ensures s[i] != s[j]
  {
    assert less(s[i], s[j]);
  }

  /** Dropping the head of an ascending sequence drops exactly that key. */
  lemma TailMembers<K(!new)>(less: (K, K) -> bool, s: seq<K>, y: K)
    requires StrictTotal(less) && Ascends(less, s) && s != []
    ensures y in s[1..] <==> y in s && y != s[0]
  {
    if y in s[1..] {
      var j :| 0 <= j < |s[1..]| && s[1..][j] == y;
      assert less(s[0], s[j + 1]);
    }
    if y in s && y != s[0] {
      var j :| 0 <= j < |s| && s[j] == y;
      assert s[1..][j - 1] == y;
    }
  }

  lemma HeadMember<K>(s: seq<K>)
    ensures s == [] || s[0] in s
  {
  }

  lemma HeadIsLeast<K(!new)>(less: (K, K) -> bool, s: seq<K>, y: K)
    requires Ascends(less, s) && y in s
    ensures y == s[0] || less(s[0], y)
  {
    var j :| 0 <= j < |s| && s[j] == y;
    assert j == 0 || less(s[0], s[j]);
  }

  lemma SameHead<K(!new)>(less: (K, K) -> bool, s: seq<K>, t: seq<K>)
    requires StrictTotal(less) && Ascends(less, s) && Ascends(less, t)
    requires forall k :: k in s <==> k in t
    requires s != []
    ensures t != [] && s[0] == t[0]
  {
    assert s[0] in t;
    HeadIsLeast(less, s, t[0]);
    HeadIsLeast(less, t, s[0]);
  }

  /** Ascending listings are unique: the order of the elements is fixed by their set. */
  lemma {:induction false} AscendingUnique<K(!new)>(less: (K, K) -> bool, s: seq<K>, t: seq<K>)
    requires StrictTotal(less) && Ascends(less, s) && Ascends(less, t)
    requires forall k :: k in s <==> k in t
    ensures s == t
    decreases |s|
  {
    if s == [] {
      HeadMember(t);
    } else {
      SameHead(less, s, t);
      forall y ensures y in s[1..] <==> y in t[1..] {
        TailMembers(less, s, y);
        TailMembers(less, t, y);
      }
      AscendingUnique(less, s[1..], t[1..]);
      assert s == [s[0]] + s[1..] && t == [t[0]] + t[1..];
    }
  }

  /** An ascending listing that takes only keys smaller than all it leaves out is a prefix of the enumeration. */
  lemma AscendingPrefix<K(!new)>(keys: set<K>, less: (K, K) -> bool, taken: seq<K>)
    requires StrictTotal(less) && Ascends(less, taken)
    requires forall k :: k in taken ==> k in keys
    requires forall k, x :: k in taken && x in keys && x !in taken ==> less(k, x)
    ensures |taken| <= |keys| && taken == Ascending(keys, less)[..|taken|]
  {
    var rest := keys - (set k | k in taken);
    var all := taken + Ascending(rest, less);
    assert forall k :: k in all <==> k in keys;
    forall i, j | 0 <= i < j < |all| ensures less(all[i], all[j]) {
      if i < |taken| <= j {
        assert all[i] in taken && all[j] in Ascending(rest, less);
      }
    }
    AscendingUnique(less, all, Ascending(keys, less));
  }
}
