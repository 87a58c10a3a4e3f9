/** Folding a stream of labelled items separately for each label. */
module Demux {
  import opened Lists

  /** The items of one label, in order. */
  function Own<E>(labels: seq<string>, items: seq<E>, id: string): seq<E>
    requires |labels| == |items|
  {
    if items == [] then []
    else
      var n := |items| - 1;
      Own(labels[..n], items[..n], id) + if labels[n] == id then [items[n]] else []
  }

  /** The labels in the order in which they first occur; "" stands for no label. */
  function Order(labels: seq<string>): seq<string> {
    if labels == [] then []
    else
      var n := |labels| - 1;
      NextOrder(Order(labels[..n]), labels[n])
  }

  function NextOrder(order: seq<string>, id: string): seq<string> {
    if id == "" || id in order then order else order + [id]
  }

  function Find<T>(table: map<string, T>, id: string): Option<T> {
    if id in table then Some(table[id]) else None
  }

  function NextTable<E, T>(absorb: (string, Option<T>, E) -> T, table: map<string, T>, id: string, item: E): map<string, T> {
    if id == "" then table else table[id := absorb(id, Find(table, id), item)]
  }

  /** Reading the stream once, all labels mixed together. */
  function Table<E, T>(absorb: (string, Option<T>, E) -> T, labels: seq<string>, items: seq<E>): map<string, T>
    requires |labels| == |items|
  {
    if items == [] then map[]
    else
      var n := |items| - 1;
      NextTable(absorb, Table(absorb, labels[..n], items[..n]), labels[n], items[n])
  }

  /** Folding the items of one label alone. */
  function Fold<E, T>(absorb: (string, Option<T>, E) -> T, id: string, own: seq<E>): Option<T> {
    if own == [] then None
    else Some(absorb(id, Fold(absorb, id, own[..|own| - 1]), own[|own| - 1]))
  }

  lemma FoldSnoc<E, T>(absorb: (string, Option<T>, E) -> T, id: string, own: seq<E>, item: E)
    ensures Fold(absorb, id, own + [item]) == Some(absorb(id, Fold(absorb, id, own), item))
  {
    assert (own + [item])[..|own|] == own;
  }

  lemma TableSnoc<E, T>(absorb: (string, Option<T>, E) -> T, labels: seq<string>, items: seq<E>, n: nat)
    requires |labels| == |items| && n < |items|
    ensures Table(absorb, labels[..n + 1], items[..n + 1]) == NextTable(absorb, Table(absorb, labels[..n], items[..n]), labels[n], items[n])
    ensures Order(labels[..n + 1]) == NextOrder(Order(labels[..n]), labels[n])
  {
    assert labels[..n + 1][..n] == labels[..n] && items[..n + 1][..n] == items[..n];
  }

  /** Reading the mixed stream gives each label the fold of its own items alone. */
  lemma {:induction false} TableIsFolds<E, T>(absorb: (string, Option<T>, E) -> T, labels: seq<string>, items: seq<E>, id: string)
    requires |labels| == |items| && id != ""
    ensures Find(Table(absorb, labels, items), id) == Fold(absorb, id, Own(labels, items, id))
  {
    if items != [] {
      var n := |items| - 1;
      TableIsFolds(absorb, labels[..n], items[..n], id);
      if labels[n] == id {
        FoldSnoc(absorb, id, Own(labels[..n], items[..n], id), items[n]);
      } else {
        assert Own(labels, items, id) == Own(labels[..n], items[..n], id);
      }
    }
  }

  /** The order lists each label once, and the table has exactly these. */
  lemma {:induction false} OrderIsOfTable<E, T>(absorb: (string, Option<T>, E) -> T, labels: seq<string>, items: seq<E>)
    requires |labels| == |items|
    ensures forall id :: id in Order(labels) <==> id in Table(absorb, labels, items)
  {
    if items != [] {
      var n := |items| - 1;
      OrderIsOfTable(absorb, labels[..n], items[..n]);
    }
  }

  /** It is the list of labels without repetitions, first occurrences first. */
  lemma {:induction false} OrderIsDedup(labels: seq<string>)
    ensures Order(labels) == Dedup(NonEmpty(labels))
  {
    if labels != [] {
      var n := |labels| - 1;
      OrderIsDedup(labels[..n]);
      DedupSnoc(NonEmpty(labels[..n]), labels[n]);
      assert NonEmpty(labels[..n]) + [] == NonEmpty(labels[..n]);
    }
  }

  function NonEmpty(labels: seq<string>): seq<string> {
    if labels == [] then []
    else NonEmpty(labels[..|labels| - 1]) + if labels[|labels| - 1] != "" then [labels[|labels| - 1]] else []
  }

  // Counting

  function OwnSum<E>(order: seq<string>, labels: seq<string>, items: seq<E>): nat
    requires |labels| == |items|
  {
    if order == [] then 0
    else OwnSum(order[..|order| - 1], labels, items) + |Own(labels, items, order[|order| - 1])|
  }

  lemma {:induction false} OwnSumStep<E>(order: seq<string>, labels: seq<string>, items: seq<E>, id: string, item: E)
    requires |labels| == |items| && Distinct(order)
    ensures OwnSum(order, labels + [id], items + [item]) == OwnSum(order, labels, items) + if id in order then 1 else 0
  {
    if order != [] {
      var n := |order| - 1;
      assert order == order[..n] + [order[n]];
      OwnSumStep(order[..n], labels, items, id, item);
      OwnSnoc(labels, items, id, item, order[n]);
    }
  }

  lemma OwnSnoc<E>(labels: seq<string>, items: seq<E>, id: string, item: E, other: string)
    requires |labels| == |items|
    ensures Own(labels + [id], items + [item], other) == Own(labels, items, other) + if id == other then [item] else []
  {
    assert (labels + [id])[..|labels|] == labels && (items + [item])[..|items|] == items;
  }

  lemma OwnSumSnoc<E>(order: seq<string>, id: string, labels: seq<string>, items: seq<E>)
    requires |labels| == |items|
    ensures OwnSum(order + [id], labels, items) == OwnSum(order, labels, items) + |Own(labels, items, id)|
  {
    assert (order + [id])[..|order|] == order;
  }

  lemma {:induction false} OwnOfUnlisted<E>(labels: seq<string>, items: seq<E>, id: string)
    requires |labels| == |items| && id != "" && id !in Order(labels)
    ensures Own(labels, items, id) == []
  {
    if items != [] {
      OwnOfUnlisted(labels[..|items| - 1], items[..|items| - 1], id);
    }
  }

  lemma {:induction false} OrderIsOnce(labels: seq<string>)
    ensures Distinct(Order(labels)) && "" !in Order(labels)
  {
    if labels != [] {
      OrderIsOnce(labels[..|labels| - 1]);
    }
  }

  /** No labelled item is lost or taken twice. */
  lemma {:induction false} ItemsAddUp<E>(labels: seq<string>, items: seq<E>)
    requires |labels| == |items|
    ensures OwnSum(Order(labels), labels, items) == |NonEmpty(labels)|
  {
    if items != [] {
      var n := |items| - 1;
      var ls, xs, id := labels[..n], items[..n], labels[n];
      assert labels == ls + [id] && items == xs + [items[n]];
      ItemsAddUp(ls, xs);
      OrderIsOnce(ls);
      OwnSumStep(Order(ls), ls, xs, id, items[n]);
      if id != "" && id !in Order(ls) {
        OwnSumSnoc(Order(ls), id, labels, items);
        OwnOfUnlisted(ls, xs, id);
        OwnSnoc(ls, xs, id, items[n], id);
        assert |Own(labels, items, id)| == 1;
      }
      assert |NonEmpty(labels)| == |NonEmpty(ls)| + if id != "" then 1 else 0;
    }
  }
}
