/**
  The read-back check of a return: equal length and equal item maps decide whether the
  observed lines are the proposed ones in some order.
 */
module ReturnVerification {
  import opened Options
  import opened ActionModel

  /** A dictionary comprehension: the last line of an order item wins. */
  function ItemMap(items: seq<ReturnItem>): map<Uuid, int> {
    if items == [] then map[]
    else ItemMap(items[..|items| - 1])[items[|items| - 1].orderItem := items[|items| - 1].quantity]
  }

  predicate ItemsMatch(proposed: seq<ReturnItem>, observed: seq<ReturnItem>) {
    |observed| == |ItemMap(proposed)| && ItemMap(observed) == ItemMap(proposed)
  }

  predicate DistinctItems(items: seq<ReturnItem>) {
    forall i, j | 0 <= i < j < |items| :: items[i].orderItem != items[j].orderItem
  }

  lemma {:induction false} MapKeys(items: seq<ReturnItem>)
    ensures forall k :: k in ItemMap(items) <==> exists i :: 0 <= i < |items| && items[i].orderItem == k
  {
    if items != [] {
      var init := items[..|items| - 1];
      MapKeys(init);
      assert forall i | 0 <= i < |init| :: init[i] == items[i];
    }
  }

  lemma LastIsNew(items: seq<ReturnItem>)
    requires items != []
    ensures var init, last := items[..|items| - 1], items[|items| - 1];
      DistinctItems(items) <==> DistinctItems(init) && last.orderItem !in ItemMap(init)
  {
    var init, last := items[..|items| - 1], items[|items| - 1];
    MapKeys(init);
    assert forall i | 0 <= i < |init| :: init[i] == items[i];
    if last.orderItem in ItemMap(init) {
      var i :| 0 <= i < |init| && init[i].orderItem == last.orderItem;
      assert items[i].orderItem == items[|items| - 1].orderItem;
    }
  }

  lemma {:induction false} MapSize(items: seq<ReturnItem>)
    ensures |ItemMap(items)| <= |items|
    ensures |ItemMap(items)| == |items| <==> DistinctItems(items)
  {
    hide DistinctItems;
    if items == [] {
      NoItemsAreDistinct();
    } else {
      var init, last := items[..|items| - 1], items[|items| - 1];
      MapSize(init);
      LastIsNew(items);
      Grows(ItemMap(init), last.orderItem, last.quantity);
    }
  }

  lemma NoItemsAreDistinct()
    ensures DistinctItems([])
  {
  }

  lemma Grows(m: map<Uuid, int>, k: Uuid, v: int)
    ensures |m[k := v]| == if k in m then |m| else |m| + 1
  {
    assert m[k := v].Keys == m.Keys + {k};
    assert |m[k := v].Keys| == |m[k := v]| && |m.Keys| == |m|;
  }

  lemma {:induction false} DistinctMapHoldsEachLine(items: seq<ReturnItem>)
    requires DistinctItems(items)
    ensures forall line: ReturnItem ::
              line in items <==> line.orderItem in ItemMap(items) && ItemMap(items)[line.orderItem] == line.quantity
    ensures forall line: ReturnItem :: multiset(items)[line] == if line in items then 1 else 0
  {
    if items != [] {
      var init, last := items[..|items| - 1], items[|items| - 1];
      DistinctMapHoldsEachLine(init);
      LastIsNew(items);
      assert items == init + [last];
      assert last !in init;
    }
  }

  /** For a proposal without repeated order items the check accepts exactly the permutations of its lines. */
  lemma ItemsMatchExactlyPermutations(proposed: seq<ReturnItem>, observed: seq<ReturnItem>)
    requires DistinctItems(proposed)
    ensures ItemsMatch(proposed, observed) <==> multiset(observed) == multiset(proposed)
  {
    MapSize(proposed);
    MapSize(observed);
    DistinctMapHoldsEachLine(proposed);
    if ItemsMatch(proposed, observed) {
      DistinctMapHoldsEachLine(observed);
      assert forall line: ReturnItem :: multiset(observed)[line] == multiset(proposed)[line];
    }
    if multiset(observed) == multiset(proposed) {
      PermutationsStayDistinct(proposed, observed);
      DistinctMapHoldsEachLine(observed);
      SameLinesSameMap(proposed, observed);
    }
  }

  lemma PermutationsStayDistinct(proposed: seq<ReturnItem>, observed: seq<ReturnItem>)
    requires DistinctItems(proposed) && multiset(observed) == multiset(proposed)
    ensures DistinctItems(observed) && |observed| == |proposed|
  {
    DistinctMapHoldsEachLine(proposed);
    assert |multiset(observed)| == |observed| && |multiset(proposed)| == |proposed|;
    forall i, j | 0 <= i < j < |observed|
      ensures observed[i].orderItem != observed[j].orderItem
    {
      assert observed[i] in multiset(observed) && observed[j] in multiset(observed);
      if observed[i] == observed[j] {
        TwiceInMultiset(observed, i, j);
      }
    }
  }

  lemma TwiceInMultiset(items: seq<ReturnItem>, i: nat, j: nat)
    requires i < j < |items| && items[i] == items[j]
    ensures multiset(items)[items[i]] >= 2
  {
    assert items == items[..j] + items[j..];
    assert items[..j][i] in multiset(items[..j]) && items[j..][0] in multiset(items[j..]);
  }

  lemma SameLinesSameMap(proposed: seq<ReturnItem>, observed: seq<ReturnItem>)
    requires DistinctItems(proposed) && DistinctItems(observed) && multiset(observed) == multiset(proposed)
    ensures ItemMap(observed) == ItemMap(proposed)
  {
    DistinctMapHoldsEachLine(proposed);
    DistinctMapHoldsEachLine(observed);
    forall line: ReturnItem
      ensures line in observed <==> line in proposed
    {
      assert line in multiset(observed) <==> line in multiset(proposed);
    }
    MapsAgree(proposed, observed);
    MapsAgree(observed, proposed);
    assert ItemMap(observed).Keys == ItemMap(proposed).Keys;
  }

  lemma MapsAgree(a: seq<ReturnItem>, b: seq<ReturnItem>)
    requires DistinctItems(a) && DistinctItems(b)
    requires forall line: ReturnItem :: line in a ==> line in b
    ensures forall k | k in ItemMap(a) :: k in ItemMap(b) && ItemMap(a)[k] == ItemMap(b)[k]
  {
    DistinctMapHoldsEachLine(a);
    DistinctMapHoldsEachLine(b);
    forall k | k in ItemMap(a)
      ensures k in ItemMap(b) && ItemMap(a)[k] == ItemMap(b)[k]
    {
      assert ReturnItem(k, ItemMap(a)[k]) in a;
    }
  }

  /** A proposal that repeats an order item can never be verified, not even by its own lines. */
  lemma RepeatedItemsNeverMatchThemselves(proposed: seq<ReturnItem>)
    ensures ItemsMatch(proposed, proposed) <==> DistinctItems(proposed)
  {
    MapSize(proposed);
  }
}
