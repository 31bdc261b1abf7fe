/** Properties of the store's mutations: the basket invariants they keep,
    the order they preserve, what they do to the multiset of units in the
    basket, and how they interact. */
module StoreLaws {
  import opened Wrappers
  import opened Store

  // ---------------------------------------------------------------------
  // Lookup under the invariant

  /** With unique ids, `find` lands on the one line that carries the id. */
  lemma FindIsTheOnlyMatch<T>(b: seq<Item<T>>, k: int)
    requires UniqueIds(b)
    requires 0 <= k < |b|
    ensures Find(b, b[k].id) == Some(k)
  {
    var r := Find(b, b[k].id);
    assert HasId(b, b[k].id);
  }

  // ---------------------------------------------------------------------
  // The invariants hold from the start and are kept by every mutation

  lemma InitValid<T>()
    ensures Valid(Init<T>())
  {
  }

  /** `addToBasket` never creates a second line for an id, and never
      leaves a line with zero units. */
  lemma AddToBasketPreservesValid<T>(s: State<T>, p: Product<T>)
    requires Valid(s)
    ensures Valid(AddToBasket(s, p))
  {
    var r := AddToBasket(s, p);
    if !HasId(s.basket, p.id) {
      forall j, k | 0 <= j < k < |r.basket|
        ensures r.basket[j].id != r.basket[k].id
      {
        if k == |s.basket| {
          assert r.basket[j] == r.basket[..|s.basket|][j] == s.basket[j];
        } else {
          assert r.basket[j] == s.basket[j] && r.basket[k] == s.basket[k];
        }
      }
      forall k | 0 <= k < |r.basket|
        ensures r.basket[k].quantity >= 1
      {
        if k < |s.basket| {
          assert r.basket[k] == r.basket[..|s.basket|][k];
        }
      }
    }
  }

  /** Deleting a line keeps ids unique and quantities positive. */
  lemma RemoveFromBasketPreservesValid<T>(s: State<T>, index: int)
    requires Valid(s)
    ensures Valid(RemoveFromBasket(s, index))
  {
    var r := RemoveFromBasket(s, index);
    if r.basket != s.basket {
      var i := SpliceStart(index, |s.basket|);
      assert RemovedAt(s.basket, r.basket, i);
      forall j, k | 0 <= j < k < |r.basket|
        ensures r.basket[j].id != r.basket[k].id
      {
        var j' := if j < i then j else j + 1;
        var k' := if k < i then k else k + 1;
        assert r.basket[j] == s.basket[j'] && r.basket[k] == s.basket[k'];
      }
      forall k | 0 <= k < |r.basket|
        ensures r.basket[k].quantity >= 1
      {
        var k' := if k < i then k else k + 1;
        assert r.basket[k] == s.basket[k'];
      }
    }
  }

  lemma CommitPreservesValid<T>(s: State<T>, m: Mutation<T>)
    requires Valid(s)
    ensures Valid(Commit(s, m))
  {
    match m
    case SetProductsM(ps) =>
    case AddToBasketM(p) => AddToBasketPreservesValid(s, p);
    case RemoveFromBasketM(i) => RemoveFromBasketPreservesValid(s, i);
  }

  /** Any sequence of commits from a valid state ends in a valid state; in
      particular every state reachable from `Init` is valid. */
  lemma {:induction false} RunPreservesValid<T>(s: State<T>, ms: seq<Mutation<T>>)
    requires Valid(s)
    ensures Valid(Run(s, ms))
    decreases |ms|
  {
    if |ms| > 0 {
      CommitPreservesValid(s, ms[0]);
      RunPreservesValid(Commit(s, ms[0]), ms[1..]);
    }
  }

  // ---------------------------------------------------------------------
  // Order

  /** Adding keeps the order of the lines: an existing id stays where it is,
      a new id goes to the end. */
  lemma AddToBasketKeepsOrder<T>(s: State<T>, p: Product<T>)
    ensures Ids(AddToBasket(s, p).basket)
         == if HasId(s.basket, p.id) then Ids(s.basket) else Ids(s.basket) + [p.id]
  {
    var r := AddToBasket(s, p);
    if !HasId(s.basket, p.id) {
      forall k | 0 <= k < |s.basket|
        ensures Ids(r.basket)[k] == Ids(s.basket)[k]
      {
        assert r.basket[k] == r.basket[..|s.basket|][k];
      }
    }
  }

  /** An in-range non-negative index removes exactly that line:
      the result is the lines before it followed by the lines after it. */
  lemma RemoveInRangeShape<T>(s: State<T>, i: int)
    requires 0 <= i < |s.basket|
    ensures RemoveFromBasket(s, i).basket == s.basket[..i] + s.basket[i + 1..]
    ensures |RemoveFromBasket(s, i).basket| == |s.basket| - 1
    ensures Ids(RemoveFromBasket(s, i).basket) == Ids(s.basket)[..i] + Ids(s.basket)[i + 1..]
  {
    var r := RemoveFromBasket(s, i);
    assert RemovedAt(s.basket, r.basket, i);
    assert r.basket == s.basket[..i] + s.basket[i + 1..];
  }

  /** An index at or past the end deletes nothing. */
  lemma RemoveOutOfRangeIsNoOp<T>(s: State<T>, i: int)
    requires i >= |s.basket|
    ensures RemoveFromBasket(s, i) == s
  {
  }

  // ---------------------------------------------------------------------
  // The basket as a multiset of units

  /** The units of a line: `quantity` copies of its id. */
  ghost function Units<T>(it: Item<T>): multiset<int> {
    multiset{}[it.id := it.quantity]
  }

  /** The basket as a multiset of ids, each line contributing its units. */
  ghost function Bag<T>(b: seq<Item<T>>): multiset<int> {
    if |b| == 0 then multiset{} else Units(b[0]) + Bag(b[1..])
  }

  lemma {:induction false} BagConcat<T>(a: seq<Item<T>>, c: seq<Item<T>>)
    ensures Bag(a + c) == Bag(a) + Bag(c)
    decreases |a|
  {
    if |a| == 0 {
      assert a + c == c;
    } else {
      assert (a + c)[1..] == a[1..] + c;
      BagConcat(a[1..], c);
    }
  }

  lemma BagSplit<T>(b: seq<Item<T>>, i: int, x: Item<T>)
    requires 0 <= i < |b|
    ensures Bag(b[..i] + [x] + b[i + 1..]) == Bag(b[..i]) + Units(x) + Bag(b[i + 1..])
  {
    BagConcat(b[..i] + [x], b[i + 1..]);
    BagConcat(b[..i], [x]);
    assert Bag([x]) == Units(x) + Bag([x][1..]);
  }

  /** Every `addToBasket` puts exactly one more unit of the product's id in
      the basket and changes the count of no other id, whether or not the
      basket already held a line for it. */
  lemma AddToBasketAddsOneUnit<T>(s: State<T>, p: Product<T>)
    ensures Bag(AddToBasket(s, p).basket) == Bag(s.basket) + multiset{p.id}
  {
    var b := s.basket;
    var r := AddToBasket(s, p).basket;
    match Find(b, p.id)
    case Some(i) =>
      var x := r[i];
      assert r == b[..i] + [x] + b[i + 1..];
      assert b == b[..i] + [b[i]] + b[i + 1..];
      BagSplit(b, i, x);
      BagSplit(b, i, b[i]);
      assert Units(x) == Units(b[i]) + multiset{p.id};
    case None =>
      assert r == b + [NewItem(p)];
      BagConcat(b, [NewItem(p)]);
      assert Bag([NewItem(p)]) == Units(NewItem(p)) + Bag([NewItem(p)][1..]);
  }

  /** A removal that deletes a line takes out exactly that line's units. */
  lemma RemoveFromBasketTakesOutOneLine<T>(s: State<T>, index: int)
    requires |s.basket| > 0 && index < |s.basket|
    ensures var i := SpliceStart(index, |s.basket|);
      Bag(RemoveFromBasket(s, index).basket) + Units(s.basket[i]) == Bag(s.basket)
  {
    var b := s.basket;
    var i := SpliceStart(index, |b|);
    var r := RemoveFromBasket(s, index).basket;
    assert r == b[..i] + b[i + 1..];
    assert b == b[..i] + [b[i]] + b[i + 1..];
    BagSplit(b, i, b[i]);
    BagConcat(b[..i], b[i + 1..]);
  }

  /** An id with no line has no units. */
  lemma {:induction false} BagOfMissingId<T>(b: seq<Item<T>>, id: int)
    requires !HasId(b, id)
    ensures Bag(b)[id] == 0
    decreases |b|
  {
    if |b| > 0 {
      assert b[0].id != id;
      BagOfMissingId(b[1..], id);
    }
  }

  /** With unique ids, the multiset counts each id exactly as many times as
      its line's `quantity` says: the bag and the basket tell the same story. */
  lemma {:induction false} BagCountsLine<T>(b: seq<Item<T>>, k: int)
    requires UniqueIds(b)
    requires 0 <= k < |b|
    ensures Bag(b)[b[k].id] == b[k].quantity
    decreases |b|
  {
    if k == 0 {
      BagOfMissingId(b[1..], b[0].id);
    } else {
      assert b[1..][k - 1] == b[k];
      BagCountsLine(b[1..], k - 1);
      assert b[0].id != b[k].id;
    }
  }

  // ---------------------------------------------------------------------
  // Repeated adds and the inverse of a fresh add

  /** The product added `n` times in a row. */
  function AddTimes<T>(s: State<T>, p: Product<T>, n: nat): State<T> {
    if n == 0 then s else AddToBasket(AddTimes(s, p, n - 1), p)
  }

  /** Adding a product whose id is not in the basket `n >= 1` times grows the
      basket by one line only, carrying `n` units. */
  lemma {:induction false} AddTimesAppendsOneLine<T>(s: State<T>, p: Product<T>, n: nat)
    requires !HasId(s.basket, p.id)
    requires n >= 1
    ensures AddTimes(s, p, n).basket == s.basket + [Item(p.id, p.attrs, n)]
    ensures AddTimes(s, p, n).products == s.products
  {
    if n > 1 {
      AddTimesAppendsOneLine(s, p, n - 1);
      var b' := AddTimes(s, p, n - 1).basket;
      var b := s.basket;
      assert b'[|b|].id == p.id;
      assert HasId(b', p.id);
      assert Find(b', p.id).value == |b|;
      var r := AddTimes(s, p, n).basket;
      forall k | 0 <= k < |r|
        ensures r[k] == (b + [Item(p.id, p.attrs, n)])[k]
      {
      }
    }
  }

  /** Adding the same new product twice leaves one line with two units. */
  lemma AddTwiceMergesIntoOneLine<T>(s: State<T>, p: Product<T>)
    requires !HasId(s.basket, p.id)
    ensures AddToBasket(AddToBasket(s, p), p).basket == s.basket + [Item(p.id, p.attrs, 2)]
  {
    AddTimesAppendsOneLine(s, p, 2);
  }

  /** A fresh add is undone by removing the last line. */
  lemma RemoveUndoesFreshAdd<T>(s: State<T>, p: Product<T>)
    requires !HasId(s.basket, p.id)
    ensures RemoveFromBasket(AddToBasket(s, p), |s.basket|) == s
  {
    var r := AddToBasket(s, p);
    RemoveInRangeShape(r, |s.basket|);
    assert r.basket[..|s.basket|] == s.basket;
  }

  /** The stored line wins: when the id is already in the basket, the
      incoming product's other fields make no difference. */
  lemma AddIgnoresIncomingAttrs<T>(s: State<T>, p: Product<T>, attrs: T)
    requires HasId(s.basket, p.id)
    ensures AddToBasket(s, p.(attrs := attrs)) == AddToBasket(s, p)
  {
  }

  /** The spread is overridden: a `quantity` field on the incoming product
      never reaches the basket. */
  lemma AddIgnoresIncomingQuantity<T>(s: State<T>, p: Product<T>, q: Option<int>)
    ensures AddToBasket(s, p.(quantity := q)) == AddToBasket(s, p)
  {
  }

  // ---------------------------------------------------------------------
  // The product list and the basket are independent

  /** The last `setProducts` wins outright: there is no merge. */
  lemma SetProductsLastWins<T>(s: State<T>, a: seq<Product<T>>, c: seq<Product<T>>)
    ensures SetProducts(SetProducts(s, a), c) == SetProducts(s, c)
  {
  }

  /** Basket mutations and a product-list replacement commute, so a fetch
      that lands between basket mutations changes nothing about the basket. */
  lemma SetProductsCommutesWithBasket<T>(s: State<T>, ps: seq<Product<T>>, m: Mutation<T>)
    requires !m.SetProductsM?
    ensures Commit(SetProducts(s, ps), m) == SetProducts(Commit(s, m), ps)
  {
  }
}
