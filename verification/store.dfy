/** The shopping-basket state container: a product list and a basket,
    changed only through the three mutations `setProducts`, `addToBasket`
    and `removeFromBasket`. Each mutation is a pure function from the old
    state to the new one. */
module Store {
  import opened Wrappers

  /** A catalog record. `attrs` stands for every field other than `id` and
      `quantity`; the store never looks inside it. `quantity` is the field an
      incoming object may happen to carry (a basket item handed back to
      `addToBasket`, say); the store never reads it either. */
  datatype Product<T> = Product(id: int, attrs: T, quantity: Option<int>)

  /** One line of the basket: the product's identity and payload plus a count. */
  datatype Item<T> = Item(id: int, attrs: T, quantity: nat)

  datatype State<T> = State(products: seq<Product<T>>, basket: seq<Item<T>>)

  /** Both collections start empty. */
  function Init<T>(): (s: State<T>)
    ensures s.products == [] && s.basket == []
  {
    State([], [])
  }

  // ---------------------------------------------------------------------
  // Basket invariants

  predicate HasId<T>(b: seq<Item<T>>, id: int) {
    exists k :: 0 <= k < |b| && b[k].id == id
  }

  /** No two basket lines share an `id`. */
  ghost predicate UniqueIds<T>(b: seq<Item<T>>) {
    forall j, k :: 0 <= j < k < |b| ==> b[j].id != b[k].id
  }

  /** Every basket line counts at least one unit. */
  ghost predicate PositiveQuantities<T>(b: seq<Item<T>>) {
    forall k :: 0 <= k < |b| ==> b[k].quantity >= 1
  }

  ghost predicate Valid<T>(s: State<T>) {
    UniqueIds(s.basket) && PositiveQuantities(s.basket)
  }

  /** The ids of the basket, in basket order. */
  function Ids<T>(b: seq<Item<T>>): (r: seq<int>)
    ensures |r| == |b|
    ensures forall k :: 0 <= k < |b| ==> r[k] == b[k].id
  {
    if |b| == 0 then [] else [b[0].id] + Ids(b[1..])
  }

  // ---------------------------------------------------------------------
  // setProducts

  /** The product list is replaced wholesale; the basket is not touched. */
  function SetProducts<T>(s: State<T>, ps: seq<Product<T>>): (r: State<T>)
    ensures r.products == ps
    ensures r.basket == s.basket
  {
    s.(products := ps)
  }

  // ---------------------------------------------------------------------
  // addToBasket

  /** The lookup `basket.find(item => item.id === id)` performs, returning the
      position of the first line with that id (where the source gets the line
      object itself), or None when there is none. */
  function Find<T>(b: seq<Item<T>>, id: int): (r: Option<nat>)
    ensures r.Some? ==> r.value < |b| && b[r.value].id == id
    ensures r.Some? ==> forall k :: 0 <= k < r.value ==> b[k].id != id
    ensures r.None? <==> !HasId(b, id)
  {
    if |b| == 0 then None
    else if b[0].id == id then Some(0)
    else
      match Find(b[1..], id)
      case None => None
      case Some(k) => Some(k + 1)
  }

  /** The object built by `{ ...product, quantity: 1 }`: the product's fields,
      with whatever `quantity` it carried overridden by 1. */
  function NewItem<T>(p: Product<T>): Item<T> {
    Item(p.id, p.attrs, 1)
  }

  /** The first line with the product's id gains one unit; when there is no
      such line, a fresh line with quantity 1 is appended. */
  function AddToBasket<T>(s: State<T>, p: Product<T>): (r: State<T>)
    ensures r.products == s.products
    ensures HasId(s.basket, p.id) ==>
      var i := Find(s.basket, p.id).value;
      && |r.basket| == |s.basket|
      && r.basket[i].id == s.basket[i].id == p.id
      && r.basket[i].attrs == s.basket[i].attrs
      && r.basket[i].quantity == s.basket[i].quantity + 1
      && forall k :: 0 <= k < |s.basket| && k != i ==> r.basket[k] == s.basket[k]
    ensures !HasId(s.basket, p.id) ==>
      && |r.basket| == |s.basket| + 1
      && r.basket[..|s.basket|] == s.basket
      && r.basket[|s.basket|] == Item(p.id, p.attrs, 1)
  {
    match Find(s.basket, p.id)
    case Some(i) =>
      var it := s.basket[i];
      s.(basket := s.basket[i := it.(quantity := it.quantity + 1)])
    case None =>
      s.(basket := s.basket + [NewItem(p)])
  }

  // ---------------------------------------------------------------------
  // removeFromBasket

  /** The position `splice(start, deleteCount)` starts at, as ECMAScript's
      Array.prototype.splice computes it from an integer `start`: a negative
      start counts back from the end, and the result is clamped to [0, len].
      Its cases only define the primitive; what removal means for the basket
      is stated on `RemoveFromBasket` in terms of the index itself. */
  function SpliceStart(start: int, len: nat): (r: nat)
    ensures r <= len
    ensures 0 <= start <= len ==> r == start
    ensures start > len ==> r == len
    ensures start < 0 <= len + start ==> r == len + start
    ensures len + start < 0 ==> r == 0
  {
    if start < 0 then (if len + start < 0 then 0 else len + start)
    else if start > len then len
    else start
  }

  /** `r` is `b` with exactly the line at position `i` taken out and the
      lines after it shifted left by one. */
  ghost predicate RemovedAt<T>(b: seq<Item<T>>, r: seq<Item<T>>, i: int) {
    && 0 <= i < |b|
    && |r| == |b| - 1
    && (forall k :: 0 <= k < i ==> r[k] == b[k])
    && (forall k :: i <= k < |r| ==> r[k] == b[k + 1])
  }

  /** `basket.splice(index, 1)`: at most one line is deleted, and the product
      list is not touched. */
  function RemoveFromBasket<T>(s: State<T>, index: int): (r: State<T>)
    ensures r.products == s.products
    ensures 0 <= index < |s.basket| ==> RemovedAt(s.basket, r.basket, index)
    ensures -|s.basket| <= index < 0 ==> RemovedAt(s.basket, r.basket, |s.basket| + index)
    ensures index < -|s.basket| && |s.basket| > 0 ==> RemovedAt(s.basket, r.basket, 0)
    ensures index >= |s.basket| || |s.basket| == 0 ==> r.basket == s.basket
  {
    var start := SpliceStart(index, |s.basket|);
    if start < |s.basket| then
      s.(basket := s.basket[..start] + s.basket[start + 1..])
    else
      s
  }

  // ---------------------------------------------------------------------
  // Dispatch

  /** The payload of a `commit(name, payload)` call, one case per mutation. */
  datatype Mutation<T> =
    | SetProductsM(products: seq<Product<T>>)
    | AddToBasketM(product: Product<T>)
    | RemoveFromBasketM(index: int)

  /** A catalog replacement touches only the catalog; a basket mutation
      touches only the basket. */
  function Commit<T>(s: State<T>, m: Mutation<T>): (r: State<T>)
    ensures m.SetProductsM? ==> r.products == m.products && r.basket == s.basket
    ensures !m.SetProductsM? ==> r.products == s.products
  {
    match m
    case SetProductsM(ps) => SetProducts(s, ps)
    case AddToBasketM(p) => AddToBasket(s, p)
    case RemoveFromBasketM(i) => RemoveFromBasket(s, i)
  }

  /** The state after committing `ms` in order. A run of basket mutations
      only never changes the catalog, and a run of catalog replacements only
      never changes the basket; a run that replaces the catalog at all ends
      with the last replacement's list. */
  function Run<T>(s: State<T>, ms: seq<Mutation<T>>): (r: State<T>)
    ensures (forall k :: 0 <= k < |ms| ==> !ms[k].SetProductsM?) ==> r.products == s.products
    ensures (forall k :: 0 <= k < |ms| ==> ms[k].SetProductsM?) ==> r.basket == s.basket
    ensures |ms| > 0 && ms[|ms| - 1].SetProductsM? ==> r.products == ms[|ms| - 1].products
    decreases |ms|
  {
    if |ms| == 0 then s else Run(Commit(s, ms[0]), ms[1..])
  }

  /** `fetchProducts`: the request's outcome is a parameter. A response that
      arrives commits its product list; a rejected request commits nothing. */
  function FetchProducts<T>(s: State<T>, response: Option<seq<Product<T>>>): (r: State<T>)
    ensures response.Some? ==> r.products == response.value
    ensures response.None? ==> r == s
    ensures r.basket == s.basket
  {
    match response
    case Some(ps) => Commit(s, SetProductsM(ps))
    case None => s
  }
}
