/** The cart state holder: one object that owns an open/closed flag and the
    ordered list of line items, updated in place by its mutators, each of
    which hands back a snapshot of the resulting state. */
module Cart {
  import opened CartItems

  /** What every mutator returns and what `GetState` reports. */
  datatype CartState = CartState(open: bool, items: seq<Product>)

  class CartManager {
    var open: bool
    var items: seq<Product>

    /** The object invariant: no two line items share an id. */
    ghost predicate Valid()
      reads this
    {
      UniqueIds(items)
    }

    /** A new manager is closed and holds no items. */
    constructor ()
      ensures Valid()
      ensures !open && items == []
    {
      open := false;
      items := [];
    }

    /** The current state, without changing it. */
    function GetState(): (s: CartState)
      reads this
      ensures s.open == open && s.items == items
    {
      CartState(open, items)
    }

    /** Marks the cart open; the items are untouched. Calling it twice is the
        same as calling it once. */
    method Open() returns (s: CartState)
      requires Valid()
      modifies this
      ensures Valid()
      ensures open && items == old(items)
      ensures s == GetState()
    {
      open := true;
      s := CartState(open, items);
    }

    /** Marks the cart closed; the items are untouched. */
    method Close() returns (s: CartState)
      requires Valid()
      modifies this
      ensures Valid()
      ensures !open && items == old(items)
      ensures s == GetState()
    {
      open := false;
      s := CartState(open, items);
    }

    /** Appends `p` unless an item with the same id is already in the cart,
        in which case nothing changes. */
    method AddProduct(p: Product) returns (s: CartState)
      requires Valid()
      modifies this
      ensures Valid()
      ensures items == Added(old(items), p) && open == old(open)
      ensures ProductIsInTheCart(p)
      ensures s == GetState()
    {
      if !ProductIsInTheCart(p) {
        items := items + [p];
      }
      s := CartState(open, items);
    }

    /** Drops the item whose id is `id`; when no item has it the items are
        unchanged. */
    method RemoveProduct(id: ProductId) returns (s: CartState)
      requires Valid()
      modifies this
      ensures Valid()
      ensures items == Removed(old(items), id) && open == old(open)
      ensures !HasId(items, id)
      ensures HasId(old(items), id) ==> |items| == |old(items)| - 1
      ensures HasId(old(items), id) ==>
                items == old(items)[..FirstIndex(old(items), id)] + old(items)[FirstIndex(old(items), id) + 1..]
      ensures !HasId(old(items), id) ==> items == old(items)
      ensures s == GetState()
    {
      RemovedUnique(items, id);
      if HasId(items, id) {
        RemovedExactlyOne(items, id);
      } else {
        RemovedAbsent(items, id);
      }
      items := Removed(items, id);
      s := CartState(open, items);
    }

    /** Empties the item list and leaves the open flag as it was. */
    method ClearProducts() returns (s: CartState)
      requires Valid()
      modifies this
      ensures Valid()
      ensures items == [] && open == old(open)
      ensures s == GetState()
    {
      items := [];
      s := CartState(open, items);
    }

    /** Empties the item list and closes the cart. */
    method ClearCart() returns (s: CartState)
      requires Valid()
      modifies this
      ensures Valid()
      ensures s == CartState(false, [])
      ensures s == GetState()
    {
      s := ClearProducts();
      s := Close();
    }

    /** Whether the cart holds at least one item. */
    function HasProducts(): (b: bool)
      reads this
      ensures b <==> exists id :: HasId(items, id)
    {
      assert items != [] ==> HasId(items, items[0].id);
      |items| > 0
    }

    /** Whether an item with the same id as `p` is in the cart; the other
        fields of `p` play no part. */
    function ProductIsInTheCart(p: Product): (b: bool)
      reads this
      ensures b <==> exists i :: 0 <= i < |items| && items[i].id == p.id
    {
      HasId(items, p.id)
    }
  }
}
