/**
 * The shopping cart held client-side: a list of items keyed by `_id`. Each
 * operation maps the previous cart to the next one.
 */
module Cart {
  import Lists

  datatype CartItem = CartItem(id: string, name: string, price: int, quantity: int)

  type Cart = seq<CartItem>

  predicate Contains(cart: Cart, id: string) {
    exists i :: 0 <= i < |cart| && cart[i].id == id
  }

  predicate DistinctIds(cart: Cart) {
    forall i, j :: 0 <= i < j < |cart| ==> cart[i].id != cart[j].id
  }

  /** `_id`s distinct and every quantity at least 1. */
  predicate WellFormed(cart: Cart) {
    && DistinctIds(cart)
    && (forall i :: 0 <= i < |cart| ==> cart[i].quantity >= 1)
  }

  // The callbacks the updaters pass to map and filter.
  function HasId(id: string): CartItem -> bool { (i: CartItem) => i.id == id }
  function OtherId(id: string): CartItem -> bool { (i: CartItem) => i.id != id }
  function Above1(id: string): CartItem -> bool { (i: CartItem) => i.id == id && i.quantity > 1 }
  function Positive(): CartItem -> bool { (i: CartItem) => i.quantity > 0 }
  function Inc(): CartItem -> CartItem { (i: CartItem) => i.(quantity := i.quantity + 1) }
  function Dec(): CartItem -> CartItem { (i: CartItem) => i.(quantity := i.quantity - 1) }

  /** `increaseQuantity(id)`: one more of every item with that `_id`. */
  function IncreaseQuantity(cart: Cart, id: string): Cart {
    Lists.Replace(cart, HasId(id), Inc())
  }

  /** `addToCart(item)`: one more of a present item, else the item appended with quantity 1. */
  function AddToCart(cart: Cart, item: CartItem): Cart {
    if Contains(cart, item.id) then IncreaseQuantity(cart, item.id)
    else cart + [item.(quantity := 1)]
  }

  /** `removeFromCart(id)` */
  function RemoveFromCart(cart: Cart, id: string): Cart {
    Lists.Keep(cart, OtherId(id))
  }

  /** `clearCart()`: no item is left, so the cart is trivially well formed. */
  function ClearCart(): (r: Cart)
    ensures forall id :: !Contains(r, id)
    ensures WellFormed(r)
  {
    []
  }

  /** `decreaseQuantity(id)`: one fewer of that item unless it is at 1; then items at 0 or below go. */
  function DecreaseQuantity(cart: Cart, id: string): Cart {
    Lists.Keep(Lists.Replace(cart, Above1(id), Dec()), Positive())
  }

  // ---------------------------------------------------------------- what each operation does

  /** Adding a present item increments only the items with its `_id`, by one; the length stays. */
  lemma AddExisting(cart: Cart, item: CartItem)
    requires Contains(cart, item.id)
    ensures var r := AddToCart(cart, item);
            && |r| == |cart|
            && forall i :: 0 <= i < |cart| ==>
                 r[i] == if cart[i].id == item.id then cart[i].(quantity := cart[i].quantity + 1) else cart[i]
  {
  }

  /** Adding a new item appends it at the end with quantity 1, whatever quantity it came with. */
  lemma AddNew(cart: Cart, item: CartItem)
    requires !Contains(cart, item.id)
    ensures var r := AddToCart(cart, item);
            && |r| == |cart| + 1 && r[..|cart|] == cart
            && r[|cart|].id == item.id && r[|cart|].name == item.name
            && r[|cart|].price == item.price && r[|cart|].quantity == 1
  {
    assert (cart + [item.(quantity := 1)])[..|cart|] == cart;
  }

  /** Removing drops every item with the `_id` and keeps all others. */
  lemma RemoveSpec(cart: Cart, id: string)
    ensures !Contains(RemoveFromCart(cart, id), id)
    ensures forall x :: x in cart && x.id != id ==> x in RemoveFromCart(cart, id)
    ensures forall x :: x in RemoveFromCart(cart, id) ==> x in cart
  {
    var r := RemoveFromCart(cart, id);
    forall i | 0 <= i < |r| ensures r[i].id != id {
      assert r[i] in r;
    }
  }

  /** Removing keeps the relative order of what is left: it distributes over concatenation. */
  lemma RemoveKeepsOrder(a: Cart, b: Cart, id: string)
    ensures RemoveFromCart(a + b, id) == RemoveFromCart(a, id) + RemoveFromCart(b, id)
  {
    Lists.KeepAppend(a, b, OtherId(id));
  }

  /** Decreasing never takes an item below 1: an item at 1 stays at 1; on a well-formed cart nothing is dropped. */
  lemma DecreaseSpec(cart: Cart, id: string)
    requires WellFormed(cart)
    ensures var r := DecreaseQuantity(cart, id);
            && |r| == |cart|
            && forall i :: 0 <= i < |cart| ==>
                 r[i] == if cart[i].id == id && cart[i].quantity > 1 then cart[i].(quantity := cart[i].quantity - 1) else cart[i]
  {
    var m := Lists.Replace(cart, Above1(id), Dec());
    Lists.KeepAll(m, Positive());
  }

  /** On any cart, the trailing filter of a decrease drops exactly the items at 0 or below. */
  lemma DecreaseDropsOnlyNonPositive(cart: Cart, id: string)
    ensures forall x :: x in DecreaseQuantity(cart, id) ==> x.quantity > 0
    ensures |DecreaseQuantity(cart, id)| == |cart| <==> forall i :: 0 <= i < |cart| ==> cart[i].quantity > 0
  {
    var m := Lists.Replace(cart, Above1(id), Dec());
    Lists.KeepMultiset(m, Positive());
    assert forall i :: 0 <= i < |cart| ==> (m[i].quantity > 0 <==> cart[i].quantity > 0);
  }

  /** Increasing an absent `_id` leaves the cart as it was. */
  lemma IncreaseAbsent(cart: Cart, id: string)
    requires !Contains(cart, id)
    ensures IncreaseQuantity(cart, id) == cart
  {
    var r := IncreaseQuantity(cart, id);
    assert forall i :: 0 <= i < |cart| ==> r[i] == cart[i];
  }

  // ---------------------------------------------------------------- the cart invariant

  /** Filtering keeps distinct `_id`s distinct. */
  lemma {:induction false} KeepPreservesDistinct(cart: Cart, keep: CartItem -> bool)
    requires DistinctIds(cart)
    ensures DistinctIds(Lists.Keep(cart, keep))
  {
    if cart != [] {
      var tail := cart[1..];
      KeepPreservesDistinct(tail, keep);
      var rt := Lists.Keep(tail, keep);
      assert forall x :: x in rt ==> x in tail;
      assert forall x :: x in tail ==> x.id != cart[0].id;
      var r := Lists.Keep(cart, keep);
      if keep(cart[0]) {
        assert r == [cart[0]] + rt;
        forall i, j | 0 <= i < j < |r| ensures r[i].id != r[j].id {
          if i == 0 {
            assert r[0] == cart[0];
            assert r[j] == rt[j - 1];
            assert rt[j - 1] in rt;
            assert rt[j - 1] in tail;
          } else {
            assert r[i] == rt[i - 1] && r[j] == rt[j - 1];
            assert 0 <= i - 1 < j - 1 < |rt|;
          }
        }
      } else {
        assert r == rt;
      }
    }
  }

  lemma AddPreserves(cart: Cart, item: CartItem)
    requires WellFormed(cart)
    ensures WellFormed(AddToCart(cart, item))
  {
    if !Contains(cart, item.id) {
      var r := AddToCart(cart, item);
      assert forall i :: 0 <= i < |cart| ==> r[i] == cart[i];
    }
  }

  lemma RemovePreserves(cart: Cart, id: string)
    requires WellFormed(cart)
    ensures WellFormed(RemoveFromCart(cart, id))
  {
    KeepPreservesDistinct(cart, OtherId(id));
    var r := RemoveFromCart(cart, id);
    forall i | 0 <= i < |r| ensures r[i].quantity >= 1 {
      assert r[i] in r;
    }
  }

  lemma IncreasePreserves(cart: Cart, id: string)
    requires WellFormed(cart)
    ensures WellFormed(IncreaseQuantity(cart, id))
  {
  }

  lemma DecreasePreserves(cart: Cart, id: string)
    requires WellFormed(cart)
    ensures WellFormed(DecreaseQuantity(cart, id))
  {
    DecreaseSpec(cart, id);
  }

  /** A cart built from the empty cart by any sequence of these operations. */
  datatype Op = Add(item: CartItem) | Remove(id: string) | Clear | Increase(id: string) | Decrease(id: string)

  function Apply(cart: Cart, op: Op): Cart {
    match op
    case Add(item) => AddToCart(cart, item)
    case Remove(id) => RemoveFromCart(cart, id)
    case Clear => ClearCart()
    case Increase(id) => IncreaseQuantity(cart, id)
    case Decrease(id) => DecreaseQuantity(cart, id)
  }

  function Run(cart: Cart, ops: seq<Op>): Cart
    decreases |ops|
  {
    if ops == [] then cart else Run(Apply(cart, ops[0]), ops[1..])
  }

  /** Starting from the empty cart, every sequence of operations keeps `_id`s distinct and quantities at least 1. */
  lemma {:induction false} RunPreserves(cart: Cart, ops: seq<Op>)
    requires WellFormed(cart)
    ensures WellFormed(Run(cart, ops))
    decreases |ops|
  {
    if ops != [] {
      match ops[0] {
        case Add(item) => AddPreserves(cart, item);
        case Remove(id) => RemovePreserves(cart, id);
        case Clear =>
        case Increase(id) => IncreasePreserves(cart, id);
        case Decrease(id) => DecreasePreserves(cart, id);
      }
      RunPreserves(Apply(cart, ops[0]), ops[1..]);
    }
  }

  lemma FromEmpty(ops: seq<Op>)
    ensures WellFormed(Run(ClearCart(), ops))
  {
    RunPreserves(ClearCart(), ops);
  }

  // ---------------------------------------------------------------- inverses

  /** On a well-formed cart, a decrease undoes an increase. */
  lemma DecreaseUndoesIncrease(cart: Cart, id: string)
    requires WellFormed(cart)
    ensures DecreaseQuantity(IncreaseQuantity(cart, id), id) == cart
  {
    var up := IncreaseQuantity(cart, id);
    var m := Lists.Replace(up, Above1(id), Dec());
    assert forall i :: 0 <= i < |cart| ==> m[i] == cart[i];
    assert m == cart;
    Lists.KeepAll(m, Positive());
  }

  /** Removing an item right after adding it leaves the cart as removing it would have. */
  lemma RemoveAfterAdd(cart: Cart, item: CartItem)
    ensures RemoveFromCart(AddToCart(cart, item), item.id) == RemoveFromCart(cart, item.id)
  {
    if Contains(cart, item.id) {
      ReplaceThenRemove(cart, item.id);
    } else {
      Lists.KeepAppend(cart, [item.(quantity := 1)], OtherId(item.id));
      assert Lists.Keep([item.(quantity := 1)], OtherId(item.id)) == [];
    }
  }

  lemma {:induction false} ReplaceThenRemove(cart: Cart, id: string)
    ensures RemoveFromCart(IncreaseQuantity(cart, id), id) == RemoveFromCart(cart, id)
  {
    if cart != [] {
      ReplaceThenRemove(cart[1..], id);
      var up := IncreaseQuantity(cart, id);
      assert up[1..] == IncreaseQuantity(cart[1..], id);
      assert up == [up[0]] + up[1..];
      assert cart == [cart[0]] + cart[1..];
      Lists.KeepAppend([up[0]], up[1..], OtherId(id));
      Lists.KeepAppend([cart[0]], cart[1..], OtherId(id));
    }
  }
}
