/** The ordering of the report (slack_bot.py:109): `sorted(items,
    key=lambda x: x[1], reverse=True)`, a stable sort by count, largest
    first, in which groups with equal counts keep their order. */
module Ranking {
  import opened Basics
  import opened OrderedDict

  type Item = (string, nat)

  /** Counts never increase from one item to the next. */
  predicate NonIncreasing(s: seq<Item>) {
    forall i, j :: 0 <= i < j < |s| ==> s[i].1 >= s[j].1
  }

  /** The items with count `c`, in their order in `s`. */
  function WithCount(s: seq<Item>, c: nat): seq<Item> {
    if s == [] then [] else (if s[0].1 == c then [s[0]] else []) + WithCount(s[1..], c)
  }

  /** Puts `x` in front of the first item whose count is not larger. */
  function Insert(x: Item, s: seq<Item>): seq<Item> {
    if s == [] || s[0].1 <= x.1 then [x] + s else [s[0]] + Insert(x, s[1..])
  }

  /** The sort: each item is inserted into the sorted rest, ahead of the
      items of equal count that follow it. */
  function SortByCount(s: seq<Item>): seq<Item> {
    if s == [] then [] else Insert(s[0], SortByCount(s[1..]))
  }

  lemma {:induction false} InsertPermutes(x: Item, s: seq<Item>)
    ensures multiset(Insert(x, s)) == multiset{x} + multiset(s)
  {
    if s != [] && s[0].1 > x.1 {
      InsertPermutes(x, s[1..]);
      assert s == [s[0]] + s[1..];
    }
  }

  /** Every item of `Insert(x, s)` is at most `b` when `x` and all of `s`
      are. */
  lemma {:induction false} InsertBounded(x: Item, s: seq<Item>, b: nat)
    requires x.1 <= b
    requires forall j :: 0 <= j < |s| ==> s[j].1 <= b
    ensures forall j :: 0 <= j < |Insert(x, s)| ==> Insert(x, s)[j].1 <= b
  {
    if s != [] && s[0].1 > x.1 {
      InsertBounded(x, s[1..], b);
    }
  }

  lemma {:induction false} InsertSorted(x: Item, s: seq<Item>)
    requires NonIncreasing(s)
    ensures NonIncreasing(Insert(x, s))
  {
    if s != [] && s[0].1 > x.1 {
      InsertSorted(x, s[1..]);
      InsertBounded(x, s[1..], s[0].1);
    }
  }

  lemma {:induction false} InsertStable(x: Item, s: seq<Item>, c: nat)
    requires NonIncreasing(s)
    ensures WithCount(Insert(x, s), c) == WithCount([x] + s, c)
  {
    if s != [] && s[0].1 > x.1 {
      InsertStable(x, s[1..], c);
      var r := Insert(x, s[1..]);
      assert ([s[0]] + r)[1..] == r;
      assert ([x] + s)[1..] == s;
      assert ([x] + s[1..])[1..] == s[1..];
      if x.1 == c {
        assert WithCount(s, c) == WithCount(s[1..], c);
      }
    } else {
      assert ([x] + s)[1..] == s;
    }
  }

  /** The result is ordered by count, largest first; it holds the same
      items; and the items of any one count appear in their original order
      (stability). */
  lemma {:induction false} SortByCountFacts(s: seq<Item>)
    ensures NonIncreasing(SortByCount(s))
    ensures multiset(SortByCount(s)) == multiset(s)
    ensures forall c :: WithCount(SortByCount(s), c) == WithCount(s, c)
  {
    if s != [] {
      SortByCountFacts(s[1..]);
      var t := SortByCount(s[1..]);
      InsertSorted(s[0], t);
      InsertPermutes(s[0], t);
      assert s == [s[0]] + s[1..];
      forall c
        ensures WithCount(Insert(s[0], t), c) == WithCount(s, c)
      {
        InsertStable(s[0], t, c);
        assert ([s[0]] + t)[1..] == t;
      }
    }
  }
  lemma {:induction false} WithCountMembers(s: seq<Item>, c: nat, x: Item)
    ensures x in WithCount(s, c) <==> x in s && x.1 == c
  {
    if s != [] {
      WithCountMembers(s[1..], c, x);
      assert s == [s[0]] + s[1..];
    }
  }

  /** Two count-ordered arrangements that agree on the order of the items
      of every count are the same. */
  lemma {:induction false} OrderedArrangementUnique(r: seq<Item>, t: seq<Item>)
    requires NonIncreasing(r) && NonIncreasing(t)
    requires forall c :: WithCount(r, c) == WithCount(t, c)
    ensures r == t
  {
    if r != [] {
      WithCountMembers(r, r[0].1, r[0]);
      WithCountMembers(t, r[0].1, r[0]);
    }
    if t != [] {
      WithCountMembers(t, t[0].1, t[0]);
      WithCountMembers(r, t[0].1, t[0]);
    }
    if r != [] && t != [] {
      var m := r[0].1;
      assert m == t[0].1;
      assert r[0] == WithCount(r, m)[0] == WithCount(t, m)[0] == t[0];
      forall c
        ensures WithCount(r[1..], c) == WithCount(t[1..], c)
      {
        var head := if r[0].1 == c then [r[0]] else [];
        assert WithCount(r, c) == head + WithCount(r[1..], c);
        assert WithCount(t, c) == head + WithCount(t[1..], c);
        assert (head + WithCount(r[1..], c))[|head|..] == WithCount(r[1..], c);
        assert (head + WithCount(t[1..], c))[|head|..] == WithCount(t[1..], c);
      }
      OrderedArrangementUnique(r[1..], t[1..]);
    }
  }

  /** The sort's result is the only arrangement that is ordered by count
      and keeps the original order within each count. */
  lemma SortByCountUnique(s: seq<Item>, r: seq<Item>)
    requires NonIncreasing(r)
    requires forall c :: WithCount(r, c) == WithCount(s, c)
    ensures r == SortByCount(s)
  {
    SortByCountFacts(s);
    OrderedArrangementUnique(r, SortByCount(s));
  }

  lemma {:induction false} InsertSum(x: Item, s: seq<Item>)
    ensures Sum(Values(Insert(x, s))) == x.1 + Sum(Values(s))
  {
    if s != [] && s[0].1 > x.1 {
      InsertSum(x, s[1..]);
    }
  }

  /** Sorting neither loses nor adds to any count: the counts keep their
      total. */
  lemma {:induction false} SortByCountSum(s: seq<Item>)
    ensures Sum(Values(SortByCount(s))) == Sum(Values(s))
  {
    if s != [] {
      SortByCountSum(s[1..]);
      InsertSum(s[0], SortByCount(s[1..]));
    }
  }
}
