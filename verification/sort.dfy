/** `node->neighbours.sort(...)` with the comparator `a->weight < b->weight`:
    `std::list::sort` is stable, so the result is the ascending-by-weight
    permutation that keeps equal-weight neighbours in their original order. */
module Sorting {
  import opened GraphItems

  /** Ascending by the weight of the nodes the list points to. */
  ghost predicate SortedBy(items: seq<Item>, l: seq<nat>)
    requires AllBelow(l, |items|)
  {
    forall j, k :: 0 <= j < k < |l| ==> items[l[j]].weight <= items[l[k]].weight
  }

  /** The entries of `l` that point to a node of weight `w`, in list order. */
  function WithWeight(items: seq<Item>, l: seq<nat>, w: int): (r: seq<nat>)
    requires AllBelow(l, |items|)
    ensures |r| <= |l|
    decreases |l|
  {
    if l == [] then []
    else (if items[l[0]].weight == w then [l[0]] else []) + WithWeight(items, l[1..], w)
  }

  /** Put `x` in front of the first entry whose weight is not below its own: an
      element coming from earlier in the input lands before its equals. */
  function Insert(items: seq<Item>, x: nat, l: seq<nat>): (r: seq<nat>)
    requires AllBelow(l, |items|) && x < |items|
    ensures AllBelow(r, |items|)
    ensures multiset(r) == multiset(l) + multiset{x}
    decreases |l|
  {
    if l == [] || items[x].weight <= items[l[0]].weight then [x] + l
    else
      var rest := Insert(items, x, l[1..]);
      assert l == [l[0]] + l[1..];
      [l[0]] + rest
  }

  /** The sorted list. */
  function SortByWeight(items: seq<Item>, l: seq<nat>): (r: seq<nat>)
    requires AllBelow(l, |items|)
    ensures AllBelow(r, |items|)
    ensures multiset(r) == multiset(l)
    ensures SortedBy(items, r)
    decreases |l|
  {
    if l == [] then []
    else
      assert l == [l[0]] + l[1..];
      var rest := SortByWeight(items, l[1..]);
      InsertSorted(items, l[0], rest);
      Insert(items, l[0], rest)
  }

  /** Every node of the list weighs at least `b`. */
  ghost predicate AtLeast(items: seq<Item>, l: seq<nat>, b: int)
    requires AllBelow(l, |items|)
  {
    forall k :: 0 <= k < |l| ==> b <= items[l[k]].weight
  }

  lemma {:induction false} InsertAtLeast(items: seq<Item>, x: nat, l: seq<nat>, b: int)
    requires AllBelow(l, |items|) && x < |items|
    requires AtLeast(items, l, b) && b <= items[x].weight
    ensures AtLeast(items, Insert(items, x, l), b)
    decreases |l|
  {
    if l != [] && items[x].weight > items[l[0]].weight {
      InsertAtLeast(items, x, l[1..], b);
      var r := Insert(items, x, l);
      assert r == [l[0]] + Insert(items, x, l[1..]);
    }
  }

  /** A list is sorted when its head is a lower bound and its tail is sorted. */
  lemma SortedCons(items: seq<Item>, l: seq<nat>)
    requires AllBelow(l, |items|) && l != []
    ensures SortedBy(items, l) <==> AtLeast(items, l[1..], items[l[0]].weight) && SortedBy(items, l[1..])
  {
    if AtLeast(items, l[1..], items[l[0]].weight) && SortedBy(items, l[1..]) {
      forall j, k | 0 <= j < k < |l| ensures items[l[j]].weight <= items[l[k]].weight {
        assert l[k] == l[1..][k - 1];
        if j > 0 {
          assert l[j] == l[1..][j - 1];
        }
      }
    }
    if SortedBy(items, l) {
      forall k | 0 <= k < |l| - 1 ensures items[l[0]].weight <= items[l[1..][k]].weight {
        assert l[1..][k] == l[k + 1];
      }
    }
  }

  lemma {:induction false} InsertSorted(items: seq<Item>, x: nat, l: seq<nat>)
    requires AllBelow(l, |items|) && x < |items| && SortedBy(items, l)
    ensures SortedBy(items, Insert(items, x, l))
    decreases |l|
  {
    var r := Insert(items, x, l);
    if l == [] {
    } else if items[x].weight <= items[l[0]].weight {
      SortedCons(items, l);
      SortedCons(items, r);
      assert r[1..] == l;
    } else {
      SortedCons(items, l);
      InsertSorted(items, x, l[1..]);
      InsertAtLeast(items, x, l[1..], items[l[0]].weight);
      assert r[1..] == Insert(items, x, l[1..]);
      SortedCons(items, r);
    }
  }

  /** Inserting `x` adds it at the front of the entries of its own weight. */
  lemma {:induction false} InsertWithWeight(items: seq<Item>, x: nat, l: seq<nat>, w: int)
    requires AllBelow(l, |items|) && x < |items|
    ensures WithWeight(items, Insert(items, x, l), w) ==
            (if items[x].weight == w then [x] else []) + WithWeight(items, l, w)
    decreases |l|
  {
    var r := Insert(items, x, l);
    if l != [] && items[x].weight > items[l[0]].weight {
      var rest := Insert(items, x, l[1..]);
      assert r[0] == l[0] && r[1..] == rest;
      InsertWithWeight(items, x, l[1..], w);
    } else {
      assert r[0] == x && r[1..] == l;
    }
  }

  /** Stability: for every weight, the entries of that weight appear in the sorted list
      in the same order as in the input. */
  lemma {:induction false} SortStable(items: seq<Item>, l: seq<nat>, w: int)
    requires AllBelow(l, |items|)
    ensures WithWeight(items, SortByWeight(items, l), w) == WithWeight(items, l, w)
    decreases |l|
  {
    if l != [] {
      SortStable(items, l[1..], w);
      InsertWithWeight(items, l[0], SortByWeight(items, l[1..]), w);
    }
  }

  /** Sorting a list that is already in ascending order leaves it as it is. */
  lemma {:induction false} SortSorted(items: seq<Item>, l: seq<nat>)
    requires AllBelow(l, |items|) && SortedBy(items, l)
    ensures SortByWeight(items, l) == l
    decreases |l|
  {
    if l != [] {
      assert SortedBy(items, l[1..]) by {
        forall j, k | 0 <= j < k < |l| - 1
          ensures items[l[1..][j]].weight <= items[l[1..][k]].weight
        {
          assert l[1..][j] == l[j + 1] && l[1..][k] == l[k + 1];
        }
      }
      SortSorted(items, l[1..]);
      assert l == [l[0]] + l[1..];
      if |l| > 1 {
        assert items[l[0]].weight <= items[l[1]].weight;
      }
    }
  }
}
