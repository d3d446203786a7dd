/** The behaviour the CartManager tests pin down, one method per test case.
    Each starts from a fresh manager, makes the same calls as the test, and
    promises in its postcondition what the test expects. The last three
    methods are not tests of their own: they generalize the tested additions
    to first-seen order and to a cart that starts empty. Products are plain
    values here rather than records made by a fixture server. */
module CartScenarios {
  import opened CartItems
  import opened Cart

  /** Open, then add one product: the state is exactly open with that one item. */
  method ReturnsTheState(product: Product) returns (state: CartState)
    ensures state == CartState(true, [product])
  {
    var manager := new CartManager();
    var _ := manager.Open();
    var _ := manager.AddProduct(product);
    state := manager.GetState();
  }

  /** `open` reports an open cart. */
  method SetsCartToOpen() returns (state: CartState)
    ensures state.open
  {
    var manager := new CartManager();
    state := manager.Open();
  }

  /** `close` reports a closed cart. */
  method SetsCartToClosed() returns (state: CartState)
    ensures !state.open
  {
    var manager := new CartManager();
    state := manager.Close();
  }

  /** Adding the same product twice leaves one item. */
  method AddsProductOnlyOnce(product: Product) returns (state: CartState)
    ensures |state.items| == 1 && state.items == [product]
  {
    var manager := new CartManager();
    var _ := manager.AddProduct(product);
    state := manager.AddProduct(product);
  }

  /** One add gives one item; removing by that product's id gives none. */
  method RemovesProduct(product: Product) returns (added: CartState, removed: CartState)
    ensures |added.items| == 1
    ensures |removed.items| == 0
  {
    var manager := new CartManager();
    added := manager.AddProduct(product);
    removed := manager.RemoveProduct(product.id);
  }

  /** Two adds, then clearing the products, leaves no items. */
  method ClearsProducts(product1: Product, product2: Product) returns (state: CartState)
    ensures |state.items| == 0
  {
    var manager := new CartManager();
    var _ := manager.AddProduct(product1);
    var _ := manager.AddProduct(product2);
    state := manager.ClearProducts();
  }

  /** An opened cart holding two products, once cleared, is closed and empty. */
  method ClearsCart(product1: Product, product2: Product) returns (state: CartState)
    ensures !state.open
    ensures |state.items| == 0
  {
    var manager := new CartManager();
    var _ := manager.Open();
    var _ := manager.AddProduct(product1);
    var _ := manager.AddProduct(product2);
    state := manager.ClearCart();
  }

  /** After two adds the cart has products. */
  method HasProductsWhenNotEmpty(product1: Product, product2: Product) returns (has: bool)
    ensures has
  {
    var manager := new CartManager();
    var _ := manager.AddProduct(product1);
    var _ := manager.AddProduct(product2);
    has := manager.HasProducts();
  }

  /** A product just added is in the cart. */
  method ProductIsAlreadyInTheCart(product: Product) returns (inCart: bool)
    ensures inCart
  {
    var manager := new CartManager();
    var _ := manager.AddProduct(product);
    inCart := manager.ProductIsInTheCart(product);
  }

  /** Any run of additions to a fresh manager: the items hold one product
      per distinct id, the first one added with that id, in first-seen order. */
  method AddsAll(products: seq<Product>) returns (state: CartState)
    ensures !state.open
    ensures UniqueIds(state.items)
    ensures forall id :: HasId(state.items, id) <==> HasId(products, id)
    ensures FirstSeenOrder(products, state.items)
  {
    var manager := new CartManager();
    var i := 0;
    while i < |products|
      invariant 0 <= i <= |products|
      invariant manager.Valid() && !manager.open
      invariant manager.items == AddedInOrder(products[..i])
    {
      assert products[..i + 1][..i] == products[..i];
      var _ := manager.AddProduct(products[i]);
      i := i + 1;
    }
    assert products[..i] == products;
    AddedInOrderFirstSeen(products);
    state := manager.GetState();
  }

  /** A fresh manager is closed, empty, and has no products. */
  method FreshCartIsEmpty() returns (state: CartState, has: bool)
    ensures state == CartState(false, [])
    ensures !has
  {
    var manager := new CartManager();
    state := manager.GetState();
    has := manager.HasProducts();
  }

  /** Two products with different ids stay in the order they were added. */
  method KeepsInsertionOrder(first: Product, second: Product) returns (state: CartState)
    requires first.id != second.id
    ensures state.items == [first, second]
  {
    var manager := new CartManager();
    var _ := manager.AddProduct(first);
    state := manager.AddProduct(second);
  }
}
