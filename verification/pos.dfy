/** components/POS.tsx: the cart engine (add, remove, change quantity and
    the derived total, item count and profit), the checkout that turns a
    cart into a logged transaction, and the product filter with its
    category list. */
module Pos {
  import opened Wrappers
  import opened PosTypes
  import Seqs
  import Db

  /** The pending sale: at most one line per product id, in the order the
      products were first added. */
  type Cart = seq<CartItem>

  /** Some line of the cart is for product `id`. */
  predicate HasLine(cart: Cart, id: string)
  {
    exists i :: 0 <= i < |cart| && cart[i].product.id == id
  }

  /** No two lines are for the same product. */
  predicate UniqueLines(cart: Cart)
  {
    forall i, j :: 0 <= i < j < |cart| ==> cart[i].product.id != cart[j].product.id
  }

  /** The cart invariant: one line per product id, every quantity at
      least one. */
  predicate WellFormed(cart: Cart)
  {
    && UniqueLines(cart)
    && forall i :: 0 <= i < |cart| ==> cart[i].quantity >= 1
  }

  /** Applies `f` to every line for product `id` and keeps all other
      lines as they are, in place. */
  function MapLines(cart: Cart, id: string, f: CartItem -> CartItem): (r: Cart)
    ensures |r| == |cart|
    ensures forall i :: 0 <= i < |cart| ==> r[i] == if cart[i].product.id == id then f(cart[i]) else cart[i]
  {
    if |cart| == 0 then []
    else [if cart[0].product.id == id then f(cart[0]) else cart[0]] + MapLines(cart[1..], id, f)
  }

  /** One more unit on a line; the line keeps its own product snapshot. */
  function Incremented(item: CartItem): CartItem
  {
    item.(quantity := item.quantity + 1)
  }

  /** `addToCart`: a product already in the cart gets one more unit on its
      line (keeping the snapshot taken when it was first added); any other
      product is appended as a new line of quantity one. */
  function AddToCart(cart: Cart, p: Product): (r: Cart)
    ensures HasLine(cart, p.id) ==>
      && |r| == |cart|
      && (forall i :: 0 <= i < |cart| && cart[i].product.id == p.id ==>
            r[i].product == cart[i].product && r[i].quantity == cart[i].quantity + 1)
      && (forall i :: 0 <= i < |cart| && cart[i].product.id != p.id ==> r[i] == cart[i])
    ensures !HasLine(cart, p.id) ==> r == cart + [CartItem(p, 1)]
  {
    if HasLine(cart, p.id) then MapLines(cart, p.id, Incremented)
    else cart + [CartItem(p, 1)]
  }

  /** The predicate of `removeFromCart`'s filter. */
  function OtherLine(id: string): CartItem -> bool
  {
    (item: CartItem) => item.product.id != id
  }

  /** `removeFromCart`: drop the line with that id whatever its quantity;
      the other lines stay, in order. */
  function RemoveFromCart(cart: Cart, id: string): (r: Cart)
    ensures forall x :: x in r <==> x in cart && x.product.id != id
    ensures forall x :: multiset(r)[x] == if x.product.id != id then multiset(cart)[x] else 0
    ensures Seqs.IsSubsequence(r, cart)
  {
    Seqs.Filter(cart, OtherLine(id))
  }

  /** The removed id is gone, and removing an absent id changes nothing. */
  lemma RemoveFromCartEffect(cart: Cart, id: string)
    ensures !HasLine(RemoveFromCart(cart, id), id)
    ensures !HasLine(cart, id) ==> RemoveFromCart(cart, id) == cart
  {
    var r := RemoveFromCart(cart, id);
    forall j | 0 <= j < |r|
      ensures r[j].product.id != id
    {
      assert r[j] in r;
    }
    if !HasLine(cart, id) {
      forall x | x in cart
        ensures OtherLine(id)(x)
      {
        var j :| 0 <= j < |cart| && cart[j] == x;
      }
      Seqs.FilterKeepsAll(cart, OtherLine(id));
    }
  }

  function Max(a: int, b: int): int
  {
    if a >= b then a else b
  }

  /** `updateQuantity`: the line with that id gets quantity
      max(1, quantity + delta); every other line, and the order, is kept; an
      absent id leaves the cart as it was. */
  function UpdateQuantity(cart: Cart, id: string, delta: int): (r: Cart)
    ensures |r| == |cart|
    ensures forall i :: 0 <= i < |cart| ==> r[i].product == cart[i].product
    ensures forall i :: 0 <= i < |cart| && cart[i].product.id == id ==>
      && r[i].quantity == Max(1, cart[i].quantity + delta)
      && r[i].quantity >= 1
    ensures forall i :: 0 <= i < |cart| && cart[i].product.id != id ==> r[i] == cart[i]
    ensures !HasLine(cart, id) ==> r == cart
  {
    MapLines(cart, id, (item: CartItem) => item.(quantity := Max(1, item.quantity + delta)))
  }

  // ---------------------------------------------------------- derived values

  /** `cartTotal`: the sum of price times quantity. An empty cart is worth
      nothing, and with no negative price or quantity the total is never
      negative. */
  function CartTotal(cart: Cart): (r: int)
    ensures |cart| == 0 ==> r == 0
    ensures (forall i :: 0 <= i < |cart| ==> cart[i].product.price >= 0 && cart[i].quantity >= 0) ==> r >= 0
  {
    if forall i :: 0 <= i < |cart| ==> cart[i].product.price >= 0 && cart[i].quantity >= 0 then
      assert forall i :: 0 <= i < |cart| ==> LineTotal(cart[i]) >= 0;
      Seqs.SumNonNegative(cart, LineTotal);
      Seqs.Sum(cart, LineTotal)
    else
      Seqs.Sum(cart, LineTotal)
  }

  /** `cartItemCount`: the sum of quantities. With every quantity at least
      one there are at least as many units as lines. */
  function CartItemCount(cart: Cart): (r: int)
    ensures |cart| == 0 ==> r == 0
    ensures (forall i :: 0 <= i < |cart| ==> cart[i].quantity >= 1) ==> r >= |cart|
  {
    if forall i :: 0 <= i < |cart| ==> cart[i].quantity >= 1 then
      assert forall x :: x in cart ==> LineUnits(x) >= 1;
      Seqs.SumAtLeastLength(cart, LineUnits);
      Seqs.Sum(cart, LineUnits)
    else
      Seqs.Sum(cart, LineUnits)
  }

  /** `cartProfit`: the sum of (price - cost) times quantity, which is the
      cart's total minus what its goods cost. */
  function CartProfit(cart: Cart): (r: int)
    ensures r == CartTotal(cart) - Seqs.Sum(cart, LineCost)
  {
    ProfitIsTotalMinusCost(cart);
    Seqs.Sum(cart, LineProfit)
  }

  /** Summed per line, profit is value minus cost. */
  lemma {:induction false} ProfitIsTotalMinusCost(cart: Cart)
    ensures Seqs.Sum(cart, LineProfit) == Seqs.Sum(cart, LineTotal) - Seqs.Sum(cart, LineCost)
    decreases |cart|
  {
    if |cart| > 0 {
      ProfitIsTotalMinusCost(cart[1..]);
      var it := cart[0];
      assert LineProfit(it) == LineTotal(it) - LineCost(it) by {
        assert (it.product.price - it.product.cost) * it.quantity
            == it.product.price * it.quantity - it.product.cost * it.quantity;
      }
    }
  }

  /** The sums over two sequences that differ at one position only. */
  lemma {:induction false} SumDiffersAtOne<T>(a: seq<T>, b: seq<T>, k: int, f: T -> int)
    requires |a| == |b| && 0 <= k < |a|
    requires forall i :: 0 <= i < |a| && i != k ==> a[i] == b[i]
    ensures Seqs.Sum(b, f) == Seqs.Sum(a, f) - f(a[k]) + f(b[k])
    decreases |a|
  {
    if k > 0 {
      SumDiffersAtOne(a[1..], b[1..], k - 1, f);
    } else {
      assert a[1..] == b[1..];
    }
  }

  /** In a cart with unique ids, adding a product already present changes
      exactly the one line that holds it. */
  lemma AddExistingChangesOneLine(cart: Cart, p: Product, k: int)
    requires UniqueLines(cart)
    requires 0 <= k < |cart| && cart[k].product.id == p.id
    ensures |AddToCart(cart, p)| == |cart|
    ensures AddToCart(cart, p)[k] == Incremented(cart[k])
    ensures forall i :: 0 <= i < |cart| && i != k ==> AddToCart(cart, p)[i] == cart[i]
  {
    assert HasLine(cart, p.id);
    forall i | 0 <= i < |cart| && i != k
      ensures cart[i].product.id != p.id
    {
      if i < k {
        assert cart[i].product.id != cart[k].product.id;
      } else {
        assert cart[k].product.id != cart[i].product.id;
      }
    }
  }

  /** In a well-formed cart, adding a product raises the item count by one
      and the total by one unit price: the product's own for a new line,
      and for a line already present the price captured when it was first
      added. */
  lemma AddToCartAmounts(cart: Cart, p: Product)
    requires WellFormed(cart)
    ensures CartItemCount(AddToCart(cart, p)) == CartItemCount(cart) + 1
    ensures !HasLine(cart, p.id) ==> CartTotal(AddToCart(cart, p)) == CartTotal(cart) + p.price
    ensures forall k :: 0 <= k < |cart| && cart[k].product.id == p.id ==>
      CartTotal(AddToCart(cart, p)) == CartTotal(cart) + cart[k].product.price
  {
    if HasLine(cart, p.id) {
      forall k | 0 <= k < |cart| && cart[k].product.id == p.id
        ensures CartItemCount(AddToCart(cart, p)) == CartItemCount(cart) + 1
        ensures CartTotal(AddToCart(cart, p)) == CartTotal(cart) + cart[k].product.price
      {
        AddExistingCount(cart, p, k);
        AddExistingTotal(cart, p, k);
      }
      var k :| 0 <= k < |cart| && cart[k].product.id == p.id;
      AddExistingCount(cart, p, k);
    } else {
      Seqs.SumAppend(cart, [CartItem(p, 1)], LineUnits);
      Seqs.SumAppend(cart, [CartItem(p, 1)], LineTotal);
    }
  }

  /** The count step of `AddToCartAmounts` for a line already present. */
  lemma AddExistingCount(cart: Cart, p: Product, k: int)
    requires UniqueLines(cart)
    requires 0 <= k < |cart| && cart[k].product.id == p.id
    ensures CartItemCount(AddToCart(cart, p)) == CartItemCount(cart) + 1
  {
    AddExistingChangesOneLine(cart, p, k);
    var r := AddToCart(cart, p);
    LineCountStep(cart, r, k);
  }

  lemma LineCountStep(cart: Cart, r: Cart, k: int)
    requires |r| == |cart| && 0 <= k < |cart|
    requires r[k] == Incremented(cart[k])
    requires forall i :: 0 <= i < |cart| && i != k ==> r[i] == cart[i]
    ensures CartItemCount(r) == CartItemCount(cart) + 1
  {
    SumDiffersAtOne(cart, r, k, LineUnits);
  }

  /** The total step of `AddToCartAmounts` for a line already present. */
  lemma AddExistingTotal(cart: Cart, p: Product, k: int)
    requires UniqueLines(cart)
    requires 0 <= k < |cart| && cart[k].product.id == p.id
    ensures CartTotal(AddToCart(cart, p)) == CartTotal(cart) + cart[k].product.price
  {
    AddExistingChangesOneLine(cart, p, k);
    LineTotalStep(cart, AddToCart(cart, p), k);
  }

  lemma LineTotalStep(cart: Cart, r: Cart, k: int)
    requires |r| == |cart| && 0 <= k < |cart|
    requires r[k] == Incremented(cart[k])
    requires forall i :: 0 <= i < |cart| && i != k ==> r[i] == cart[i]
    ensures CartTotal(r) == CartTotal(cart) + cart[k].product.price
  {
    SumDiffersAtOne(cart, r, k, LineTotal);
    IncrementedLineTotal(cart[k]);
  }

  /** One more unit adds one unit price to a line's value. */
  lemma IncrementedLineTotal(it: CartItem)
    ensures LineTotal(Incremented(it)) == LineTotal(it) + it.product.price
  {
    assert it.product.price * (it.quantity + 1) == it.product.price * it.quantity + it.product.price;
  }

  // ------------------------------------------------------------ invariant

  lemma AddPreservesWellFormed(cart: Cart, p: Product)
    requires WellFormed(cart)
    ensures WellFormed(AddToCart(cart, p))
  {
  }

  lemma RemovePreservesWellFormed(cart: Cart, id: string)
    requires WellFormed(cart)
    ensures WellFormed(RemoveFromCart(cart, id))
  {
    var r := RemoveFromCart(cart, id);
    FilterKeepsUniqueLines(cart, OtherLine(id));
    forall i | 0 <= i < |r|
      ensures r[i].quantity >= 1
    {
      assert r[i] in cart;
    }
  }

  /** Dropping lines never creates two lines for one product. */
  lemma {:induction false} FilterKeepsUniqueLines(cart: Cart, keep: CartItem -> bool)
    requires UniqueLines(cart)
    ensures UniqueLines(Seqs.Filter(cart, keep))
    decreases |cart|
  {
    if |cart| > 0 {
      var tail := cart[1..];
      TailKeepsUniqueLines(cart);
      FilterKeepsUniqueLines(tail, keep);
      var rest := Seqs.Filter(tail, keep);
      if keep(cart[0]) {
        forall k | 0 <= k < |rest|
          ensures rest[k].product.id != cart[0].product.id
        {
          assert rest[k] in tail;
          var m :| 0 <= m < |tail| && tail[m] == rest[k];
          assert cart[0].product.id != cart[m + 1].product.id;
        }
        ConsKeepsUniqueLines(cart[0], rest);
        assert Seqs.Filter(cart, keep) == [cart[0]] + rest;
      } else {
        assert Seqs.Filter(cart, keep) == rest;
      }
    }
  }

  lemma TailKeepsUniqueLines(cart: Cart)
    requires |cart| > 0 && UniqueLines(cart)
    ensures UniqueLines(cart[1..])
  {
    var tail := cart[1..];
    forall a, b | 0 <= a < b < |tail|
      ensures tail[a].product.id != tail[b].product.id
    {
      assert cart[a + 1].product.id != cart[b + 1].product.id;
    }
  }

  lemma ConsKeepsUniqueLines(c: CartItem, rest: Cart)
    requires UniqueLines(rest)
    requires forall k :: 0 <= k < |rest| ==> rest[k].product.id != c.product.id
    ensures UniqueLines([c] + rest)
  {
    var r := [c] + rest;
    forall a, b | 0 <= a < b < |r|
      ensures r[a].product.id != r[b].product.id
    {
      if a == 0 {
        assert r[b] == rest[b - 1];
      } else {
        assert r[a] == rest[a - 1] && r[b] == rest[b - 1];
      }
    }
  }

  lemma UpdatePreservesWellFormed(cart: Cart, id: string, delta: int)
    requires WellFormed(cart)
    ensures WellFormed(UpdateQuantity(cart, id, delta))
  {
  }

  /** In a cart with unique ids, changing one line's quantity changes the
      item count by exactly the change the clamp lets through on that
      line. */
  lemma UpdateQuantityCount(cart: Cart, id: string, delta: int, k: int)
    requires UniqueLines(cart)
    requires 0 <= k < |cart| && cart[k].product.id == id
    ensures CartItemCount(UpdateQuantity(cart, id, delta))
         == CartItemCount(cart) - cart[k].quantity + Max(1, cart[k].quantity + delta)
  {
    var r := UpdateQuantity(cart, id, delta);
    forall i | 0 <= i < |cart| && i != k
      ensures r[i] == cart[i]
    {
      if i < k {
        assert cart[i].product.id != cart[k].product.id;
      } else {
        assert cart[k].product.id != cart[i].product.id;
      }
    }
    SumDiffersAtOne(cart, r, k, LineUnits);
  }

  /** One user action on the cart; `Clear` is the cart's clear button. */
  datatype CartOp = Add(product: Product) | Remove(id: string) | Update(id: string, delta: int) | Clear

  function Apply(cart: Cart, op: CartOp): Cart
  {
    match op
    case Add(p) => AddToCart(cart, p)
    case Remove(id) => RemoveFromCart(cart, id)
    case Update(id, d) => UpdateQuantity(cart, id, d)
    case Clear => []
  }

  function ApplyAll(cart: Cart, ops: seq<CartOp>): Cart
    decreases |ops|
  {
    if |ops| == 0 then cart else ApplyAll(Apply(cart, ops[0]), ops[1..])
  }

  /** Any sequence of adds, removes, quantity changes and clears, starting from a
      well-formed cart (the empty one, say), keeps one line per id and
      every quantity at least one. */
  lemma {:induction false} ApplyAllPreservesWellFormed(cart: Cart, ops: seq<CartOp>)
    requires WellFormed(cart)
    ensures WellFormed(ApplyAll(cart, ops))
    decreases |ops|
  {
    if |ops| > 0 {
      match ops[0] {
        case Add(p) => AddPreservesWellFormed(cart, p);
        case Remove(id) => RemovePreservesWellFormed(cart, id);
        case Update(id, d) => UpdatePreservesWellFormed(cart, id, d);
        case Clear =>
      }
      ApplyAllPreservesWellFormed(Apply(cart, ops[0]), ops[1..]);
    }
  }

  // --------------------------------------------------------------- checkout

  /** A transaction's recorded amounts agree with its own items. */
  predicate AmountsMatchItems(t: Transaction)
  {
    t.total == CartTotal(t.items) && t.totalProfit == CartProfit(t.items)
  }

  /** Outcome of `handleCheckout`: the cart and store afterwards and the
      transaction created, if any. */
  datatype CheckoutResult = CheckoutResult(cart: Cart, store: Db.Store, created: Option<Transaction>)

  /** `handleCheckout`: an empty cart creates nothing; otherwise one
      transaction carrying the cart's lines, total and profit goes to the
      head of the log, and the cart is emptied. `freshId` stands for
      `crypto.randomUUID()` and `now` for `Date.now()`. */
  function HandleCheckout(cart: Cart, store: Db.Store, pay: PaymentMethod, freshId: string, now: int): (r: CheckoutResult)
    ensures |cart| == 0 ==> r == CheckoutResult(cart, store, None)
    ensures |cart| > 0 ==>
      && r.cart == []
      && r.created.Some?
      && r.store.products == store.products
      && Db.GetTransactions(r.store) == [r.created.value] + Db.GetTransactions(store)
    ensures |cart| > 0 ==>
      var t := r.created.value;
      && t.id == freshId && t.timestamp == now && t.paymentMethod == pay
      && t.items == cart
      && t.total == CartTotal(cart)
      && t.totalProfit == CartProfit(cart)
  {
    if |cart| == 0 then CheckoutResult(cart, store, None)
    else
      var t := Transaction(freshId, now, cart, CartTotal(cart), CartProfit(cart), pay);
      CheckoutResult([], Db.AddTransaction(store, t), Some(t))
  }

  /** A checked-out transaction's amounts can be recomputed from its own
      lines, and its profit is its total minus the cost of its goods. */
  lemma CheckoutAmountsConsistent(cart: Cart, store: Db.Store, pay: PaymentMethod, freshId: string, now: int)
    requires |cart| > 0
    ensures var t := HandleCheckout(cart, store, pay, freshId, now).created.value;
            AmountsMatchItems(t) && t.totalProfit == t.total - Seqs.Sum(t.items, LineCost)
  {
  }

  /** With a fresh id, checkout keeps transaction ids unique in the log. */
  lemma CheckoutKeepsIdsUnique(cart: Cart, store: Db.Store, pay: PaymentMethod, freshId: string, now: int)
    requires Seqs.NoDuplicates(TransactionIds(Db.GetTransactions(store)))
    requires freshId !in TransactionIds(Db.GetTransactions(store))
    ensures Seqs.NoDuplicates(TransactionIds(Db.GetTransactions(HandleCheckout(cart, store, pay, freshId, now).store)))
  {
    var before := Db.GetTransactions(store);
    var after := Db.GetTransactions(HandleCheckout(cart, store, pay, freshId, now).store);
    if |cart| > 0 {
      assert TransactionIds(after) == [freshId] + TransactionIds(before);
    }
  }

  /** A latte at 28.00 with cost 8.00, added twice and paid in cash: the
      cart shows 56.00, two items and 40.00 profit, and the one new log
      entry carries the same amounts. */
  lemma LatteSale(store: Db.Store)
    ensures var latte := Product("latte", "Latte", 2800, 800, "Coffee", None);
            var cart := AddToCart(AddToCart([], latte), latte);
            var r := HandleCheckout(cart, store, Cash, "t1", 0);
            && CartTotal(cart) == 5600 && CartItemCount(cart) == 2 && CartProfit(cart) == 4000
            && r.cart == [] && r.created.Some?
            && r.created.value.total == 5600 && r.created.value.totalProfit == 4000
            && |Db.GetTransactions(r.store)| == |Db.GetTransactions(store)| + 1
  {
    var latte := Product("latte", "Latte", 2800, 800, "Coffee", None);
    var once := AddToCart([], latte);
    assert once == [CartItem(latte, 1)];
    assert once[0].product.id == latte.id;
    assert HasLine(once, latte.id);
    var cart := AddToCart(once, latte);
    assert cart == [CartItem(latte, 2)];
  }

  // ------------------------------------------------------------ product grid

  /** The category tab and search box test of `filteredProducts`. */
  predicate ShownBy(p: Product, category: string, term: string)
  {
    && (category == "All" || p.category == category)
    && Seqs.Contains(Seqs.ToLower(p.name), Seqs.ToLower(term))
  }

  function ShownFilter(category: string, term: string): Product -> bool
  {
    (p: Product) => ShownBy(p, category, term)
  }

  /** `filteredProducts`: the products in the chosen category ('All' for
      every one) whose name contains the search term, ignoring case, in
      catalog order. */
  function FilteredProducts(products: seq<Product>, category: string, term: string): (r: seq<Product>)
    ensures forall p :: p in r <==>
      && p in products
      && (category == "All" || p.category == category)
      && Seqs.Contains(Seqs.ToLower(p.name), Seqs.ToLower(term))
    ensures forall p :: multiset(r)[p] == if ShownBy(p, category, term) then multiset(products)[p] else 0
    ensures Seqs.IsSubsequence(r, products)
  {
    Seqs.Filter(products, ShownFilter(category, term))
  }

  /** The 'All' tab with an empty search shows the whole catalog. */
  lemma AllTabEmptySearchShowsAll(products: seq<Product>)
    ensures FilteredProducts(products, "All", "") == products
  {
    forall p | p in products
      ensures ShownFilter("All", "")(p)
    {
      Seqs.ContainsEmpty(Seqs.ToLower(p.name));
    }
    Seqs.FilterKeepsAll(products, ShownFilter("All", ""));
  }

  /** The category of each product, in catalog order. */
  function ProductCategories(products: seq<Product>): seq<string>
  {
    Seqs.Map(products, CategoryOf)
  }

  function CategoryOf(p: Product): string
  {
    p.category
  }

  /** `categories`: 'All' followed by each category of the catalog once, in
      an order that follows the catalog. */
  function Categories(products: seq<Product>): (r: seq<string>)
    ensures |r| >= 1 && r[0] == "All"
    ensures forall c :: c in r[1..] <==> c in ProductCategories(products)
    ensures Seqs.NoDuplicates(r[1..])
    ensures Seqs.IsSubsequence(r[1..], ProductCategories(products))
  {
    var r := ["All"] + Seqs.Distinct(ProductCategories(products));
    assert r[1..] == Seqs.Distinct(ProductCategories(products));
    r
  }
}
