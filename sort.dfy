/**
 * `sortItemsByStars` (src/utils/sort.ts): the items of one category are
 * reordered in place, most stars first, an item without stars ranking as
 * -1, and equal counts by name.
 *
 * The comparator is modelled as written; `localeCompare` becomes an ordinal
 * comparison of the names. The engine's sort algorithm is not visible, so
 * the in-place reordering is an insertion sort, specified by the pure
 * `Sort` below; what the source promises is proved about `Sort`: the result
 * is a permutation of the input and ordered by the comparator.
 */
module Sort {
  import opened Wrappers
  import opened ListTypes

  /** `a.stars ?? -1`. */
  function Rank(item: ParsedItem): int {
    item.stars.GetOr(-1)
  }

  /** Ordinal comparison of two names: negative, zero or positive. */
  function NameCompare(a: string, b: string): (r: int)
    ensures -1 <= r <= 1
  {
    if a == [] && b == [] then 0
    else if a == [] then -1
    else if b == [] then 1
    else if a[0] < b[0] then -1
    else if a[0] > b[0] then 1
    else NameCompare(a[1..], b[1..])
  }

  /** The comparator handed to `items.sort`: negative when `a` goes first. */
  function Compare(a: ParsedItem, b: ParsedItem): int {
    var left := Rank(a);
    var right := Rank(b);
    if right != left then right - left else NameCompare(a.name, b.name)
  }

  /** Names compare equal exactly when they are the same string. */
  lemma {:induction false} NameCompareZero(a: string, b: string)
    ensures NameCompare(a, b) == 0 <==> a == b
  {
    if a != [] && b != [] && a[0] == b[0] {
      NameCompareZero(a[1..], b[1..]);
      assert a == [a[0]] + a[1..] && b == [b[0]] + b[1..];
    }
  }

  /** Swapping the names negates the comparison. */
  lemma {:induction false} NameCompareFlip(a: string, b: string)
    ensures NameCompare(b, a) == -NameCompare(a, b)
  {
    if a != [] && b != [] && a[0] == b[0] {
      NameCompareFlip(a[1..], b[1..]);
    }
  }

  /** The ordinal order on names is transitive. */
  lemma {:induction false} NameCompareTrans(a: string, b: string, c: string)
    requires NameCompare(a, b) <= 0 && NameCompare(b, c) <= 0
    ensures NameCompare(a, c) <= 0
  {
    if a != [] && b != [] && c != [] && a[0] == b[0] && b[0] == c[0] {
      NameCompareTrans(a[1..], b[1..], c[1..]);
    }
  }

  /** The comparator is antisymmetric: swapping the items negates its sign. */
  lemma CompareFlip(a: ParsedItem, b: ParsedItem)
    ensures Compare(a, b) < 0 <==> Compare(b, a) > 0
    ensures Compare(a, b) == 0 <==> Compare(b, a) == 0
  {
    NameCompareFlip(a.name, b.name);
  }

  /** The comparator is transitive. */
  lemma CompareTrans(a: ParsedItem, b: ParsedItem, c: ParsedItem)
    requires Compare(a, b) <= 0 && Compare(b, c) <= 0
    ensures Compare(a, c) <= 0
  {
    if Rank(a) == Rank(b) && Rank(b) == Rank(c) {
      NameCompareTrans(a.name, b.name, c.name);
    }
  }

  /** Two items the comparator calls equal have the same rank and the same name. */
  lemma CompareZero(a: ParsedItem, b: ParsedItem)
    ensures Compare(a, b) == 0 <==> Rank(a) == Rank(b) && a.name == b.name
  {
    NameCompareZero(a.name, b.name);
  }

  /** Each neighbour comes no later than the next by the comparator. */
  predicate Sorted(s: seq<ParsedItem>) {
    forall i :: 0 < i < |s| ==> Compare(s[i - 1], s[i]) <= 0
  }

  /** `t` with `x` placed after the last element that does not follow it. */
  function Insert(t: seq<ParsedItem>, x: ParsedItem): (r: seq<ParsedItem>)
    ensures |r| == |t| + 1
    ensures r[|r| - 1] == x || (t != [] && r[|r| - 1] == t[|t| - 1])
  {
    if t == [] || Compare(x, t[|t| - 1]) >= 0 then t + [x]
    else Insert(t[..|t| - 1], x) + [t[|t| - 1]]
  }

  /** The reordering the in-place sort performs. */
  function Sort(s: seq<ParsedItem>): (r: seq<ParsedItem>)
    ensures |r| == |s|
  {
    if s == [] then []
    else Insert(Sort(s[..|s| - 1]), s[|s| - 1])
  }

  /** Inserting adds exactly the one item. */
  lemma {:induction false} InsertPermutes(t: seq<ParsedItem>, x: ParsedItem)
    ensures multiset(Insert(t, x)) == multiset(t) + multiset{x}
  {
    if t != [] && Compare(x, t[|t| - 1]) < 0 {
      InsertPermutes(t[..|t| - 1], x);
      assert t == t[..|t| - 1] + [t[|t| - 1]];
    }
  }

  /** The sort's result is a permutation of its input. */
  lemma {:induction false} SortPermutes(s: seq<ParsedItem>)
    ensures multiset(Sort(s)) == multiset(s)
  {
    if s != [] {
      SortPermutes(s[..|s| - 1]);
      InsertPermutes(Sort(s[..|s| - 1]), s[|s| - 1]);
      assert s == s[..|s| - 1] + [s[|s| - 1]];
    }
  }

  /** Inserting into a sorted sequence keeps it sorted. */
  lemma {:induction false} InsertSorted(t: seq<ParsedItem>, x: ParsedItem)
    requires Sorted(t)
    ensures Sorted(Insert(t, x))
  {
    if t != [] && Compare(x, t[|t| - 1]) < 0 {
      var u := t[..|t| - 1];
      InsertSorted(u, x);
      var w := Insert(u, x);
      CompareFlip(x, t[|t| - 1]);
      assert Compare(w[|w| - 1], t[|t| - 1]) <= 0;
    } else if t != [] {
      CompareFlip(x, t[|t| - 1]);
    }
  }

  /** The sort's result is ordered. */
  lemma {:induction false} SortSorted(s: seq<ParsedItem>)
    ensures Sorted(Sort(s))
  {
    if s != [] {
      SortSorted(s[..|s| - 1]);
      InsertSorted(Sort(s[..|s| - 1]), s[|s| - 1]);
    }
  }

  /** A sorted sequence is ordered between any two positions, not just neighbours. */
  lemma {:induction false} SortedPairwise(s: seq<ParsedItem>, i: nat, j: nat)
    requires Sorted(s) && i < j < |s|
    ensures Compare(s[i], s[j]) <= 0
    decreases j - i
  {
    if i + 1 < j {
      SortedPairwise(s, i + 1, j);
      CompareTrans(s[i], s[i + 1], s[j]);
    }
  }

  /**
   * What the source promises of the sorted items, for any two positions:
   * more stars first (missing stars counting -1), and by name on a tie.
   */
  lemma SortOrder(s: seq<ParsedItem>, i: nat, j: nat)
    requires i < j < |s|
    ensures Rank(Sort(s)[i]) >= Rank(Sort(s)[j])
    ensures Rank(Sort(s)[i]) == Rank(Sort(s)[j]) ==> NameCompare(Sort(s)[i].name, Sort(s)[j].name) <= 0
  {
    var t := Sort(s);
    SortSorted(s);
    SortedPairwise(t, i, j);
  }

  /** In sorted items, one with stars of at least zero always precedes one without stars. */
  lemma UnstarredLast(t: seq<ParsedItem>, i: nat, j: nat)
    requires Sorted(t) && i < |t| && j < |t|
    requires t[i].stars.Some? && t[i].stars.value >= 0 && t[j].stars.None?
    ensures i < j
  {
    if j < i {
      SortedPairwise(t, j, i);
    }
  }

  /**
   * Where insertion puts `x`: after the first `j` items, when `x` goes
   * before every item from `j` on and not before the item just ahead of `j`.
   */
  lemma {:induction false} InsertSplits(t: seq<ParsedItem>, x: ParsedItem, j: nat)
    requires j <= |t|
    requires j == 0 || Compare(x, t[j - 1]) >= 0
    requires forall k :: j <= k < |t| ==> Compare(x, t[k]) < 0
    ensures Insert(t, x) == t[..j] + [x] + t[j..]
  {
    if j < |t| {
      var n := |t| - 1;
      assert Compare(x, t[n]) < 0;
      assert Insert(t, x) == Insert(t[..n], x) + [t[n]];
      assert t[..n][..j] == t[..j];
      InsertSplits(t[..n], x, j);
      assert t[j..] == t[..n][j..] + [t[n]];
    } else {
      assert t[..j] == t && t[j..] == [];
    }
  }

  /** One pass of the outer loop: `a[i]` is moved left past every earlier item it goes before. */
  method InsertAt(a: array<ParsedItem>, i: nat)
    requires i < a.Length
    modifies a
    ensures a[..i + 1] == Insert(old(a[..i]), old(a[i]))
    ensures a[i + 1..] == old(a[i + 1..])
  {
    ghost var t := a[..i];
    ghost var x := a[i];
    var j := ShiftLeft(a, i);
    InsertSplits(t, x, j);
    Spliced(a[..i + 1], t, x, j);
  }

  /**
   * The swapping loop: the item at `i` ends at the returned position `j`,
   * the items it went before each move one place right, and it does not go
   * before the item left in front of it.
   */
  method ShiftLeft(a: array<ParsedItem>, i: nat) returns (j: nat)
    requires i < a.Length
    modifies a
    ensures j <= i && a[j] == old(a[i])
    ensures forall k :: 0 <= k < j ==> a[k] == old(a[k])
    ensures forall k :: j < k <= i ==> a[k] == old(a[k - 1])
    ensures forall k :: i < k < a.Length ==> a[k] == old(a[k])
    ensures forall k :: j <= k < i ==> Compare(old(a[i]), old(a[k])) < 0
    ensures j == 0 || Compare(old(a[i]), old(a[j - 1])) >= 0
  {
    var x := a[i];
    j := i;
    while j > 0 && Compare(x, a[j - 1]) < 0
      invariant 0 <= j <= i
      invariant forall k :: 0 <= k < j ==> a[k] == old(a[k])
      invariant forall k :: j < k <= i ==> a[k] == old(a[k - 1])
      invariant a[j] == x
      invariant forall k :: i < k < a.Length ==> a[k] == old(a[k])
      invariant forall k :: j <= k < i ==> Compare(x, old(a[k])) < 0
    {
      assert a[j - 1] == old(a[j - 1]);
      a[j] := a[j - 1];
      a[j - 1] := x;
      j := j - 1;
    }
  }

  /** A sequence that agrees with `t[..j] + [x] + t[j..]` position by position is that sequence. */
  lemma Spliced(r: seq<ParsedItem>, t: seq<ParsedItem>, x: ParsedItem, j: nat)
    requires j <= |t| && |r| == |t| + 1
    requires forall k :: 0 <= k < j ==> r[k] == t[k]
    requires r[j] == x
    requires forall k :: j < k < |r| ==> r[k] == t[k - 1]
    ensures r == t[..j] + [x] + t[j..]
  {
  }

  /** `sortItemsByStars(items)`: reorders the array in place as `Sort` does. */
  method SortItemsByStars(a: array<ParsedItem>)
    modifies a
    ensures a[..] == Sort(old(a[..]))
  {
    ghost var s := a[..];
    var i := 0;
    while i < a.Length
      invariant 0 <= i <= a.Length
      invariant a[..i] == Sort(s[..i])
      invariant a[i..] == s[i..]
    {
      assert s[..i + 1][..i] == s[..i];
      InsertAt(a, i);
      i := i + 1;
    }
    assert a[..] == a[..i] && s[..i] == s;
  }

  /** The four items of the source's sort example, in their input order. */
  function ExampleItems(): seq<ParsedItem> {
    [ ParsedItem("Bravo", "", "", Some(5)), ParsedItem("Alpha", "", "", Some(5)),
      ParsedItem("Charlie", "", "", None), ParsedItem("Delta", "", "", Some(10)) ]
  }

  /** The first three example items sort to Alpha, Bravo, Charlie. */
  lemma SortExamplePrefix()
    ensures Sort(ExampleItems()[..3]) == [ExampleItems()[1], ExampleItems()[0], ExampleItems()[2]]
  {
    var s := ExampleItems();
    assert s[..1] == [s[0]] && s[..2] == [s[0], s[1]] && s[..3] == [s[0], s[1], s[2]];
    assert Sort(s[..1]) == [s[0]];
    assert NameCompare("Alpha", "Bravo") == -1;
    assert Sort(s[..2]) == [s[1], s[0]];
    assert s[..3][..2] == s[..2] && s[..3][2] == s[2];
  }

  /** Delta, with the most stars, is inserted in front of the other three. */
  lemma InsertDeltaExample()
    ensures Insert([ExampleItems()[1], ExampleItems()[0], ExampleItems()[2]], ExampleItems()[3])
         == [ExampleItems()[3], ExampleItems()[1], ExampleItems()[0], ExampleItems()[2]]
  {
    var s := ExampleItems();
    assert [s[1], s[0], s[2]][..2] == [s[1], s[0]] && [s[1], s[0]][..1] == [s[1]];
    assert Insert([s[1]], s[3]) == [s[3], s[1]];
    assert Insert([s[1], s[0]], s[3]) == [s[3], s[1], s[0]];
  }

  /** Bravo 5, Alpha 5, Charlie unstarred, Delta 10 sort to Delta, Alpha, Bravo, Charlie. */
  lemma SortExample()
    ensures Names(Sort(ExampleItems())) == ["Delta", "Alpha", "Bravo", "Charlie"]
  {
    var s := ExampleItems();
    SortExamplePrefix();
    InsertDeltaExample();
    assert s[..3] == s[..|s| - 1];
    assert Sort(s) == [s[3], s[1], s[0], s[2]];
  }
}
