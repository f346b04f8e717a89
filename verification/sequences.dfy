/**
 * The JavaScript array built-ins the route handlers use (`map`, `indexOf`,
 * `splice`, `filter`) and the MongoDB "first match" conventions, over
 * Dafny sequences, with the reference definitions they are compared with.
 */
module Sequences {

  datatype Option<+T> = None | Some(value: T)

  /** `s.map(key)`: the key of every element, in order. */
  function Keys<T, K>(s: seq<T>, key: T -> K): (r: seq<K>)
    ensures |r| == |s|
    ensures forall i :: 0 <= i < |s| ==> r[i] == key(s[i])
  {
    seq(|s|, i requires 0 <= i < |s| => key(s[i]))
  }

  /** No two positions of `s` carry the same key. */
  predicate UniqueKeys<T, K(==)>(s: seq<T>, key: T -> K)
  {
    forall i, j | 0 <= i < j < |s| :: key(s[i]) != key(s[j])
  }

  /** `Array.prototype.indexOf`: the first position holding `x`, or -1. */
  function IndexOf<T(==)>(s: seq<T>, x: T): (r: int)
    ensures -1 <= r < |s|
    ensures r == -1 <==> x !in s
    ensures r != -1 ==> s[r] == x && x !in s[..r]
  {
    if s == [] then -1
    else if s[0] == x then 0
    else
      var k := IndexOf(s[1..], x);
      assert s[1..] == s[..|s|][1..];
      if k == -1 then -1
      else
        assert s[..k + 1] == [s[0]] + s[1..][..k];
        k + 1
  }

  /**
   * The elements of `s` appear in `order`, each at a later position than
   * the one before it.
   */
  predicate InOrder<T(==)>(s: seq<T>, order: seq<T>)
  {
    forall i, j | 0 <= i < j < |s| :: IndexOf(order, s[i]) < IndexOf(order, s[j])
  }

  /** No element occurs twice. */
  predicate Distinct<T(==)>(xs: seq<T>)
  {
    UniqueKeys(xs, (x: T) => x)
  }

  /** The elements of `xs` whose flag is set, in order. */
  function Selected<T>(xs: seq<T>, flags: seq<bool>): (r: seq<T>)
    requires |xs| == |flags|
    ensures |r| <= |xs|
    ensures forall y | y in r :: y in xs
  {
    if xs == [] then []
    else (if flags[0] then [xs[0]] else []) + Selected(xs[1..], flags[1..])
  }

  /** Number of set flags. */
  function CountTrue(flags: seq<bool>): nat
  {
    if flags == [] then 0 else (if flags[0] then 1 else 0) + CountTrue(flags[1..])
  }

  /** The tail of a sequence without repeats has none, and lacks the head. */
  lemma DistinctTail<T>(xs: seq<T>)
    requires xs != [] && Distinct(xs)
    ensures Distinct(xs[1..]) && xs[0] !in xs[1..]
  {
    var t := xs[1..];
    forall i, j | 0 <= i < j < |t| ensures t[i] != t[j] {
      assert t[i] == xs[i + 1] && t[j] == xs[j + 1];
    }
    forall k | 0 <= k < |t| ensures t[k] != xs[0] {
      assert t[k] == xs[k + 1];
    }
  }

  /** One element is kept per set flag. */
  lemma {:induction false} SelectedCount<T>(xs: seq<T>, flags: seq<bool>)
    requires |xs| == |flags|
    ensures |Selected(xs, flags)| == CountTrue(flags)
  {
    if xs != [] {
      SelectedCount(xs[1..], flags[1..]);
    }
  }

  /** An element of a sequence without repeats is kept exactly when its flag is set. */
  lemma {:induction false} SelectedHas<T>(xs: seq<T>, flags: seq<bool>)
    requires |xs| == |flags| && Distinct(xs)
    ensures forall i | 0 <= i < |xs| :: xs[i] in Selected(xs, flags) <==> flags[i]
  {
    if xs != [] {
      var t, ft := xs[1..], flags[1..];
      DistinctTail(xs);
      SelectedHas(t, ft);
      var r := Selected(xs, flags);
      assert r == (if flags[0] then [xs[0]] else []) + Selected(t, ft);
      forall i | 0 <= i < |xs| ensures xs[i] in r <==> flags[i] {
        if i > 0 {
          assert xs[i] == t[i - 1] && flags[i] == ft[i - 1];
        }
      }
    }
  }

  /** The kept elements keep their order. */
  lemma {:induction false} SelectedInOrder<T>(xs: seq<T>, flags: seq<bool>)
    requires |xs| == |flags| && Distinct(xs)
    ensures InOrder(Selected(xs, flags), xs)
  {
    if xs != [] {
      var t, ft := xs[1..], flags[1..];
      DistinctTail(xs);
      SelectedInOrder(t, ft);
      var rest := Selected(t, ft);
      InOrderShift(rest, xs);
      if flags[0] {
        InOrderCons(rest, xs);
      }
    }
  }

  /** Order within the tail is order within the whole when the head is absent. */
  lemma InOrderShift<T>(rest: seq<T>, xs: seq<T>)
    requires xs != [] && xs[0] !in rest
    requires forall y | y in rest :: y in xs[1..]
    requires InOrder(rest, xs[1..])
    ensures InOrder(rest, xs)
  {
    forall i, j | 0 <= i < j < |rest| ensures IndexOf(xs, rest[i]) < IndexOf(xs, rest[j]) {
      IndexOfShift(xs, rest[i]);
      IndexOfShift(xs, rest[j]);
    }
  }

  /** The head goes before everything that follows it. */
  lemma InOrderCons<T>(rest: seq<T>, xs: seq<T>)
    requires xs != [] && xs[0] !in rest
    requires forall y | y in rest :: y in xs[1..]
    requires InOrder(rest, xs)
    ensures InOrder([xs[0]] + rest, xs)
  {
    var r := [xs[0]] + rest;
    forall i, j | 0 <= i < j < |r| ensures IndexOf(xs, r[i]) < IndexOf(xs, r[j]) {
      assert r[j] == rest[j - 1];
      IndexOfShift(xs, r[j]);
      if i > 0 {
        assert r[i] == rest[i - 1];
      }
    }
  }

  /** When the last flag is set, the selection ends with the last element. */
  lemma {:induction false} SelectedLast<T>(xs: seq<T>, flags: seq<bool>)
    requires |xs| == |flags| && flags != [] && flags[|flags| - 1]
    ensures Selected(xs, flags) != []
    ensures Selected(xs, flags)[|Selected(xs, flags)| - 1] == xs[|xs| - 1]
  {
    if |xs| > 1 {
      SelectedLast(xs[1..], flags[1..]);
    }
  }

  /** Past a different head, positions are one more than in the tail. */
  lemma IndexOfShift<T>(xs: seq<T>, y: T)
    requires xs != [] && y in xs[1..] && y != xs[0]
    ensures IndexOf(xs, y) == IndexOf(xs[1..], y) + 1
  {
  }

  /** The facts about `Selected` together. */
  lemma SelectedFacts<T>(xs: seq<T>, flags: seq<bool>)
    requires |xs| == |flags| && Distinct(xs)
    ensures |Selected(xs, flags)| == CountTrue(flags)
    ensures forall i | 0 <= i < |xs| :: xs[i] in Selected(xs, flags) <==> flags[i]
    ensures InOrder(Selected(xs, flags), xs)
  {
    SelectedCount(xs, flags);
    SelectedHas(xs, flags);
    SelectedInOrder(xs, flags);
  }

  /** The first occurrence is where `IndexOf` points. */
  lemma IndexOfAt<T>(s: seq<T>, x: T, i: nat)
    requires i < |s| && s[i] == x && x !in s[..i]
    ensures IndexOf(s, x) == i
  {
  }

  /**
   * The array left behind by `Array.prototype.splice(start, 1)`: a negative
   * start counts from the end (clamped at 0), a start past the end removes
   * nothing.
   */
  function Splice1<T>(s: seq<T>, start: int): (r: seq<T>)
    ensures 0 <= start < |s| ==> r == s[..start] + s[start + 1..]
    ensures start == -1 && s != [] ==> r == s[..|s| - 1]
    ensures start == -1 && s == [] ==> r == []
    ensures start >= |s| ==> r == s
  {
    var k := if start < 0 then (if |s| + start < 0 then 0 else |s| + start)
             else (if start > |s| then |s| else start);
    if k < |s| then s[..k] + s[k + 1..] else s
  }

  /** `s.filter(keep)`. */
  function Filter<T>(s: seq<T>, keep: T -> bool): (r: seq<T>)
    ensures |r| <= |s|
    ensures forall x | x in r :: x in s && keep(x)
    ensures forall x | x in s && keep(x) :: x in r
  {
    if s == [] then []
    else
      assert s == [s[0]] + s[1..];
      (if keep(s[0]) then [s[0]] else []) + Filter(s[1..], keep)
  }

  /**
   * Reference definition: `s` without its first element whose key is `k`
   * (the whole of `s` when there is none).
   */
  function RemoveFirstWhere<T, K(==)>(s: seq<T>, key: T -> K, k: K): (r: seq<T>)
    ensures forall x :: x in r ==> x in s
  {
    if s == [] then []
    else if key(s[0]) == k then s[1..]
    else [s[0]] + RemoveFirstWhere(s[1..], key, k)
  }

  /** `key(x)` occurs among the keys of `s` exactly when an element of `s` has that key. */
  lemma KeyIn<T, K>(s: seq<T>, key: T -> K, k: K)
    ensures k in Keys(s, key) <==> exists i :: 0 <= i < |s| && key(s[i]) == k
  {
    if k in Keys(s, key) {
      var i :| 0 <= i < |s| && Keys(s, key)[i] == k;
      assert key(s[i]) == k;
    }
    if exists i :: 0 <= i < |s| && key(s[i]) == k {
      var i :| 0 <= i < |s| && key(s[i]) == k;
      assert Keys(s, key)[i] == k;
    }
  }

  /**
   * `s.splice(s.map(key).indexOf(k), 1)` with `k` present removes exactly
   * the first element whose key is `k`.
   */
  lemma {:induction false} SpliceAtIndexOfRemovesFirst<T, K>(s: seq<T>, key: T -> K, k: K)
    requires k in Keys(s, key)
    ensures Splice1(s, IndexOf(Keys(s, key), k)) == RemoveFirstWhere(s, key, k)
  {
    var ks := Keys(s, key);
    assert ks[0] == key(s[0]);
    if key(s[0]) == k {
      assert IndexOf(ks, k) == 0;
      assert Splice1(s, 0) == s[..0] + s[1..];
    } else {
      var t := s[1..];
      assert Keys(t, key) == ks[1..];
      assert k in Keys(t, key);
      SpliceAtIndexOfRemovesFirst(t, key, k);
      var j := IndexOf(ks[1..], k);
      assert IndexOf(ks, k) == j + 1;
      SpliceAfterHead(s, j);
      assert RemoveFirstWhere(s, key, k) == [s[0]] + RemoveFirstWhere(t, key, k);
    }
  }

  /** Splicing past the head leaves the head in front. */
  lemma SpliceAfterHead<T>(s: seq<T>, j: nat)
    requires j + 1 < |s|
    ensures Splice1(s, j + 1) == [s[0]] + Splice1(s[1..], j)
  {
    var t := s[1..];
    assert Splice1(s, j + 1) == s[..j + 1] + s[j + 2..];
    assert Splice1(t, j) == t[..j] + t[j + 1..];
    assert s[..j + 1] == [s[0]] + t[..j];
    assert s[j + 2..] == t[j + 1..];
  }

  /**
   * `s.splice(s.map(key).indexOf(k), 1)` with `k` absent: `indexOf` gives -1
   * and the splice drops the LAST element.
   */
  lemma SpliceAtMissingDropsLast<T, K>(s: seq<T>, key: T -> K, k: K)
    requires k !in Keys(s, key) && s != []
    ensures Splice1(s, IndexOf(Keys(s, key), k)) == s[..|s| - 1]
    ensures |Splice1(s, IndexOf(Keys(s, key), k))| == |s| - 1
  {
  }

  /** Removing one position keeps keys unique. */
  lemma RemoveAtKeepsUnique<T, K>(s: seq<T>, i: nat, key: T -> K)
    requires UniqueKeys(s, key) && i < |s|
    ensures UniqueKeys(s[..i] + s[i + 1..], key)
  {
    var r := s[..i] + s[i + 1..];
    forall a, b | 0 <= a < b < |r| ensures key(r[a]) != key(r[b]) {
      var a' := if a < i then a else a + 1;
      var b' := if b < i then b else b + 1;
      assert r[a] == s[a'] && r[b] == s[b'];
    }
  }

  /** Adding an element whose key is new keeps keys unique, at either end. */
  lemma AddKeepsUnique<T, K>(s: seq<T>, x: T, key: T -> K)
    requires UniqueKeys(s, key) && key(x) !in Keys(s, key)
    ensures UniqueKeys([x] + s, key) && UniqueKeys(s + [x], key)
  {
    forall i | 0 <= i < |s| ensures key(s[i]) != key(x) {
      assert Keys(s, key)[i] == key(s[i]);
    }
    var front, back := [x] + s, s + [x];
    forall a, b | 0 <= a < b < |front| ensures key(front[a]) != key(front[b]) {
      assert front[b] == s[b - 1];
    }
    forall a, b | 0 <= a < b < |back| ensures key(back[a]) != key(back[b]) {
      assert back[a] == s[a];
    }
  }

  /** Overwriting one position with an element of the same key keeps keys unique. */
  lemma UpdateKeepsUnique<T, K>(s: seq<T>, i: nat, x: T, key: T -> K)
    requires UniqueKeys(s, key) && i < |s| && key(x) == key(s[i])
    ensures UniqueKeys(s[i := x], key)
    ensures Keys(s[i := x], key) == Keys(s, key)
  {
  }

  /** The elements of `s[i := x]` are `x` and elements of `s`. */
  lemma InUpdate<T>(s: seq<T>, i: nat, x: T)
    requires i < |s|
    ensures forall y :: y in s[i := x] ==> y == x || y in s
  {
    forall y | y in s[i := x] ensures y == x || y in s {
      var j :| 0 <= j < |s| && s[i := x][j] == y;
      if j != i { assert s[j] == y; }
    }
  }

  /** Elements of `s[1..]` sit at positions 1 and up of `s`. */
  lemma InTail<T>(s: seq<T>, y: T) returns (m: nat)
    requires s != [] && y in s[1..]
    ensures 1 <= m < |s| && s[m] == y
  {
    var j :| 0 <= j < |s[1..]| && s[1..][j] == y;
    m := j + 1;
  }

  /** `Filter` keeps keys unique. */
  lemma {:induction false} FilterKeepsUnique<T, K>(s: seq<T>, keep: T -> bool, key: T -> K)
    requires UniqueKeys(s, key)
    ensures UniqueKeys(Filter(s, keep), key)
  {
    if s != [] {
      var t := Filter(s[1..], keep);
      FilterKeepsUnique(s[1..], keep, key);
      if keep(s[0]) {
        var r := [s[0]] + t;
        forall j | 0 <= j < |t| ensures key(s[0]) != key(t[j]) {
          var m := InTail(s, t[j]);
        }
        forall a, b | 0 <= a < b < |r| ensures key(r[a]) != key(r[b]) {
          assert r[b] == t[b - 1];
          if a > 0 { assert r[a] == t[a - 1]; }
        }
      }
    }
  }

  /** A filter that every element passes keeps the sequence as it is. */
  lemma {:induction false} FilterKeepsAll<T>(s: seq<T>, keep: T -> bool)
    ensures (forall x | x in s :: keep(x)) ==> Filter(s, keep) == s
  {
    if s != [] && forall x | x in s :: keep(x) {
      assert forall x | x in s[1..] :: x in s;
      FilterKeepsAll(s[1..], keep);
      assert s == [s[0]] + s[1..];
    }
  }

  /** `RemoveFirstWhere` keeps unique any key that was unique. */
  lemma {:induction false} RemoveFirstKeepsUnique<T, K, L>(s: seq<T>, key: T -> K, k: K, other: T -> L)
    requires UniqueKeys(s, other)
    ensures UniqueKeys(RemoveFirstWhere(s, key, k), other)
  {
    if s != [] && key(s[0]) != k {
      var t := RemoveFirstWhere(s[1..], key, k);
      RemoveFirstKeepsUnique(s[1..], key, k, other);
      var r := [s[0]] + t;
      forall j | 0 <= j < |t| ensures other(s[0]) != other(t[j]) {
        var m := InTail(s, t[j]);
      }
      forall a, b | 0 <= a < b < |r| ensures other(r[a]) != other(r[b]) {
        assert r[b] == t[b - 1];
        if a > 0 { assert r[a] == t[a - 1]; }
      }
    }
  }

  /**
   * With unique keys, `RemoveFirstWhere(s, key, k)` holds exactly the
   * elements of `s` whose key is not `k`.
   */
  lemma {:induction false} RemoveFirstErases<T, K>(s: seq<T>, key: T -> K, k: K)
    requires UniqueKeys(s, key)
    ensures forall x :: x in RemoveFirstWhere(s, key, k) <==> x in s && key(x) != k
  {
    if s != [] {
      forall x | x in s[1..] ensures key(x) != key(s[0]) {
        var m := InTail(s, x);
      }
      assert s == [s[0]] + s[1..];
      if key(s[0]) != k {
        RemoveFirstErases(s[1..], key, k);
      }
    }
  }
}
