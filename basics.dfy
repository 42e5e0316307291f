/** Small helpers shared by the model: an optional value, Python's
    substring test, distinctness and sums. */
module Basics {

  datatype Option<+T> = None | Some(value: T)

  /** Python's `t in s` on two strings: `t` occurs in `s` as a contiguous
      piece (the empty string occurs in every string). */
  predicate Contains(s: string, t: string) {
    exists i :: 0 <= i <= |s| && t <= s[i..]
  }

  lemma ContainsSelf(s: string)
    ensures Contains(s, s)
  {
    assert s <= s[0..];
  }

  predicate Distinct<T(==)>(s: seq<T>) {
    forall i, j :: 0 <= i < j < |s| ==> s[i] != s[j]
  }

  /** Sum of a sequence of counts, added from the front. */
  function Sum(s: seq<nat>): nat {
    if s == [] then 0 else s[0] + Sum(s[1..])
  }

  lemma {:induction false} SumAppend(a: seq<nat>, b: seq<nat>)
    ensures Sum(a + b) == Sum(a) + Sum(b)
  {
    if a == [] {
      assert a + b == b;
    } else {
      assert (a + b)[1..] == a[1..] + b;
      SumAppend(a[1..], b);
    }
  }

  /** Replacing one count changes the sum by the difference. */
  lemma {:induction false} SumUpdate(s: seq<nat>, i: nat, x: nat)
    requires i < |s|
    ensures Sum(s[i := x]) == Sum(s) - s[i] + x
  {
    if i > 0 {
      assert s[i := x][1..] == s[1..][i - 1 := x];
      SumUpdate(s[1..], i - 1, x);
    }
  }

  /** Dropping the last element of `a + b` drops that of `b`. */
  lemma DropLastOfAppend<T>(a: seq<T>, b: seq<T>)
    requires b != []
    ensures (a + b)[..|a + b| - 1] == a + b[..|b| - 1]
    ensures (a + b)[|a + b| - 1] == b[|b| - 1]
  {
  }

  lemma Associative<T>(a: seq<T>, b: seq<T>, c: seq<T>)
    ensures (a + b) + c == a + (b + c)
  {
  }

  /** How often each of `ids` occurs in `m`, in the order of `ids`. */
  function Multiplicities<K>(ids: seq<K>, m: multiset<K>): (r: seq<nat>)
    ensures |r| == |ids|
  {
    if ids == [] then [] else Multiplicities(ids[..|ids| - 1], m) + [m[ids[|ids| - 1]]]
  }

  lemma {:induction false} MultiplicitiesAt<K>(ids: seq<K>, m: multiset<K>, i: nat)
    requires i < |ids|
    ensures Multiplicities(ids, m)[i] == m[ids[i]]
  {
    if i < |ids| - 1 {
      MultiplicitiesAt(ids[..|ids| - 1], m, i);
    }
  }

  lemma MultiplicitiesAdd<K>(ids: seq<K>, m: multiset<K>, j: nat)
    requires Distinct(ids) && j < |ids|
    ensures Multiplicities(ids, m + multiset{ids[j]})
         == Multiplicities(ids, m)[j := Multiplicities(ids, m)[j] + 1]
  {
    forall i | 0 <= i < |ids|
      ensures Multiplicities(ids, m + multiset{ids[j]})[i]
           == Multiplicities(ids, m)[j := Multiplicities(ids, m)[j] + 1][i]
    {
      MultiplicitiesAt(ids, m + multiset{ids[j]}, i);
      MultiplicitiesAt(ids, m, i);
    }
  }

  /** Counting each of a list of distinct keys in a sequence drawn from
      those keys accounts for every element once. */
  lemma {:induction false} MultiplicitiesSum<K>(ids: seq<K>, s: seq<K>)
    requires Distinct(ids)
    requires forall k :: 0 <= k < |s| ==> s[k] in ids
    ensures Sum(Multiplicities(ids, multiset(s))) == |s|
  {
    if s == [] {
      MultiplicitiesZero(ids);
    } else {
      var n := |s| - 1;
      MultiplicitiesSum(ids, s[..n]);
      assert s == s[..n] + [s[n]];
      assert multiset(s) == multiset(s[..n]) + multiset{s[n]};
      var j :| 0 <= j < |ids| && ids[j] == s[n];
      var counts := Multiplicities(ids, multiset(s[..n]));
      MultiplicitiesAdd(ids, multiset(s[..n]), j);
      SumUpdate(counts, j, counts[j] + 1);
    }
  }

  lemma {:induction false} MultiplicitiesZero<K>(ids: seq<K>)
    ensures Sum(Multiplicities(ids, multiset{})) == 0
  {
    if ids != [] {
      MultiplicitiesZero(ids[..|ids| - 1]);
      SumAppend(Multiplicities(ids[..|ids| - 1], multiset{}), [0]);
    }
  }

  lemma InDropLast<T>(s: seq<T>, x: T)
    requires s != []
    ensures x in s <==> x in s[..|s| - 1] || x == s[|s| - 1]
  {
    if x in s {
      var i :| 0 <= i < |s| && s[i] == x;
      if i < |s| - 1 {
        assert s[..|s| - 1][i] == x;
      }
    }
  }
}
