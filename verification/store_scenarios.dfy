/** Concrete runs of the store, with string payloads standing for the
    catalog fields the store never interprets. */
module StoreScenarios {
  import opened Wrappers
  import opened Store
  import opened StoreLaws

  const A: Product<string> := Product(1, "apple", None)
  const B: Product<string> := Product(2, "bread", None)
  const C: Product<string> := Product(3, "cheese", None)

  /** Adding A, then B, then A again keeps the order [A, B], with two units of A. */
  lemma AddABAKeepsFirstOrder()
    ensures Run(Init(), [AddToBasketM(A), AddToBasketM(B), AddToBasketM(A)]).basket
         == [Item(1, "apple", 2), Item(2, "bread", 1)]
  {
    var ms := [AddToBasketM(A), AddToBasketM(B), AddToBasketM(A)];
    var s1 := AddToBasket(Init(), A);
    var s2 := AddToBasket(s1, B);
    assert s2.basket == [Item(1, "apple", 1), Item(2, "bread", 1)];
    assert Find(s2.basket, 1) == Some(0);
    assert ms[1..] == [AddToBasketM(B), AddToBasketM(A)];
    assert ms[1..][1..] == [AddToBasketM(A)];
    assert Run(Init(), ms) == Run(s1, ms[1..]) == Run(s2, [AddToBasketM(A)]);
    assert [AddToBasketM(A)][1..] == [];
    assert Run(s2, [AddToBasketM(A)]) == AddToBasket(s2, A);
    assert AddToBasket(s2, A).basket == s2.basket[0 := Item(1, "apple", 2)];
  }

  /** From [A, B, C], removing position 1 leaves [A, C]; position -1 counts
      from the end and removes C; position 3 removes nothing. */
  lemma RemoveFromThreeLines()
    ensures var s := State([], [Item(1, "apple", 1), Item(2, "bread", 1), Item(3, "cheese", 1)]);
      && RemoveFromBasket(s, 1).basket == [Item(1, "apple", 1), Item(3, "cheese", 1)]
      && RemoveFromBasket(s, -1).basket == [Item(1, "apple", 1), Item(2, "bread", 1)]
      && RemoveFromBasket(s, 3) == s
  {
    var s := State([], [Item(1, "apple", 1), Item(2, "bread", 1), Item(3, "cheese", 1)]);
    RemoveInRangeShape(s, 1);
    assert RemovedAt(s.basket, RemoveFromBasket(s, -1).basket, 2);
  }

  /** A fetch that returns [B, C] replaces a non-empty catalog outright; a
      failed fetch leaves the whole state as it was. */
  lemma FetchReplacesOrKeeps()
    ensures var s := State([A], [Item(1, "apple", 1)]);
      && FetchProducts(s, Some([B, C])) == State([B, C], [Item(1, "apple", 1)])
      && FetchProducts(s, None) == s
  {
  }

  /** Empty store, add id 1 once: one line with one unit; add it again: still
      one line, now with two units; remove position 0: the basket is empty again. */
  lemma AddTwiceThenRemove()
    ensures Run(Init(), [AddToBasketM(A)]).basket == [Item(1, "apple", 1)]
    ensures Run(Init(), [AddToBasketM(A), AddToBasketM(A)]).basket == [Item(1, "apple", 2)]
    ensures Run(Init(), [AddToBasketM(A), AddToBasketM(A), RemoveFromBasketM(0)]).basket == []
  {
    var s1 := AddToBasket(Init(), A);
    assert s1.basket == [Item(1, "apple", 1)];
    assert [AddToBasketM(A)][1..] == [];
    assert Run(Init(), [AddToBasketM(A)]) == s1;
    assert Find(s1.basket, 1) == Some(0);
    var s2 := AddToBasket(s1, A);
    assert s2.basket == s1.basket[0 := Item(1, "apple", 2)] == [Item(1, "apple", 2)];
    assert [AddToBasketM(A)][1..] == [];
    assert Run(s1, [AddToBasketM(A)]) == s2;
    var ms := [AddToBasketM(A), AddToBasketM(A), RemoveFromBasketM(0)];
    assert ms[1..] == [AddToBasketM(A), RemoveFromBasketM(0)];
    assert ms[1..][1..] == [RemoveFromBasketM(0)];
    assert Run(Init(), ms) == Run(s1, ms[1..]) == Run(s2, [RemoveFromBasketM(0)]);
    assert [AddToBasketM(A), AddToBasketM(A)][1..] == [AddToBasketM(A)];
    assert Run(Init(), [AddToBasketM(A), AddToBasketM(A)]) == Run(s1, [AddToBasketM(A)]);
  }
}
