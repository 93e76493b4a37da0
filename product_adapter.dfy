/** The cart interactions of the product list adapter: the list of products it
    shows, and the add/remove toggle and volume controls of one of its rows,
    all acting on the cart store. */
module Adapter {
  import opened PurchasedItems
  import opened CartDb

  /** What the list is for: browsing, editing the cart, or looking at an order. */
  datatype Mode = Browse | Cart | History

  predicate InRange(volume: int, product: Product) {
    product.minimumVolume <= volume <= product.maximumVolume
  }

  /** The volume the add button leaves: one step up, unless that passes the maximum. */
  function VolumeAdded(volume: int, product: Product): int {
    var newVolume := volume + product.volumeSet;
    if newVolume <= product.maximumVolume then newVolume else volume
  }

  /** The volume the subtract button leaves: one step down, unless that passes the minimum. */
  function VolumeSubtracted(volume: int, product: Product): int {
    var newVolume := volume - product.volumeSet;
    if newVolume >= product.minimumVolume then newVolume else volume
  }

  /** The volume after pressing add (`true`) and subtract (`false`) in turn. */
  function AfterSteps(volume: int, product: Product, steps: seq<bool>): int
    decreases steps
  {
    if steps == [] then volume
    else
      var next := if steps[0] then VolumeAdded(volume, product) else VolumeSubtracted(volume, product);
      AfterSteps(next, product, steps[1..])
  }

  /** A volume within the product's bounds stays within them however the two
      buttons are pressed, as long as the step is not negative. */
  lemma {:induction false} StepsStayInRange(volume: int, product: Product, steps: seq<bool>)
    requires InRange(volume, product) && product.volumeSet >= 0
    ensures InRange(AfterSteps(volume, product, steps), product)
    decreases steps
  {
    if steps != [] {
      var next := if steps[0] then VolumeAdded(volume, product) else VolumeSubtracted(volume, product);
      StepsStayInRange(next, product, steps[1..]);
    }
  }

  /** Every cart line of the product has a volume within its bounds. */
  ghost predicate LinesInRange(rows: seq<PurchasedItem>, product: Product) {
    forall r :: r in Select(rows, CartLineOf(product.id)) ==> InRange(r.volume, product)
  }

  /** Writing one volume into a product's cart lines leaves every line at that
      volume, within bounds when the volume is, and keeps every product at one
      cart line at most. */
  lemma VolumeWrite(rows: seq<PurchasedItem>, product: Product, v: int, price: Option<int>)
    ensures var rows' := Update(rows, CartLineOf(product.id), ContentValues(Some(v), price));
      && (forall r :: r in Select(rows', CartLineOf(product.id)) ==> r.volume == v)
      && (InRange(v, product) ==> LinesInRange(rows', product))
      && (CartLinesUnique(rows) ==> CartLinesUnique(rows'))
  {
    UpdatedVolume(rows, CartLineOf(product.id), v, price);
    if CartLinesUnique(rows) {
      UpdateKeepsUnique(rows, CartLineOf(product.id), ContentValues(Some(v), price));
    }
  }

  class ProductAdapter {
    /** The products the list shows, in order. */
    var products: seq<Product>
    const cart: CartDbHelper
    const adapterMode: Mode
    const dateOfRequest: int

    constructor (adapterMode: Mode, dateOfRequest: int, cart: CartDbHelper)
      ensures products == [] && this.cart == cart
      ensures this.adapterMode == adapterMode && this.dateOfRequest == dateOfRequest
    {
      products := [];
      this.cart := cart;
      this.adapterMode := adapterMode;
      this.dateOfRequest := dateOfRequest;
    }

    method GetItemCount() returns (n: int)
      ensures n == |products|
    {
      n := |products|;
    }

    /** The number of lines in the cart. */
    method GetCartItemCount() returns (n: int)
      ensures n == |Select(cart.rows, AcceptedIs(false))|
    {
      var ids := cart.GetProductIdsFromCart(false);
      n := |ids|;
    }

    method AddNewProducts(list: seq<Product>)
      modifies this`products
      ensures products == list
    {
      products := [];
      products := products + list;
    }

    /** Takes the product's line out of the cart and, if there was one, the
        product out of the list. */
    method RemoveProduct(position: int)
      requires 0 <= position < |products|
      modifies this`products, cart`rows
      ensures cart.rows == Delete(old(cart.rows), CartLineOf(old(products)[position].id))
      ensures products ==
        if InCart(old(cart.rows), old(products)[position].id)
        then old(products)[..position] + old(products)[position + 1..]
        else old(products)
    {
      var removed := cart.RemoveProductFromCart(products[position].id);
      CartLineQueryIff(old(cart.rows), old(products)[position].id);
      if removed > 0 {
        products := products[..position] + products[position + 1..];
      }
    }
  }

  /** One row of the list: the product it shows, the cart line bound to it,
      and its check box. */
  class ViewHolder {
    const adapter: ProductAdapter
    var product: Product
    var cartItem: PurchasedItem
    var checked: bool

    constructor (adapter: ProductAdapter, product: Product, cartItem: PurchasedItem)
      ensures this.adapter == adapter && this.product == product && this.cartItem == cartItem
      ensures !checked
    {
      this.adapter := adapter;
      this.product := product;
      this.cartItem := cartItem;
      checked := false;
    }

    method OnVolumeAdded()
      modifies adapter.cart`rows
      ensures var newVolume := cartItem.volume + product.volumeSet;
        adapter.cart.rows ==
          if newVolume <= product.maximumVolume
          then adapter.cart.VolumeUpdated(old(adapter.cart.rows), product.id, newVolume)
          else old(adapter.cart.rows)
      ensures cartItem.volume + product.volumeSet <= product.maximumVolume ==>
        forall r :: r in Select(adapter.cart.rows, CartLineOf(product.id)) ==>
          r.volume == VolumeAdded(cartItem.volume, product)
      ensures (old(LinesInRange(adapter.cart.rows, product)) && InRange(cartItem.volume, product)
               && product.volumeSet >= 0) ==> LinesInRange(adapter.cart.rows, product)
      ensures old(CartLinesUnique(adapter.cart.rows)) ==> CartLinesUnique(adapter.cart.rows)
    {
      var newVolume := cartItem.volume + product.volumeSet;
      if newVolume <= product.maximumVolume {
        assert VolumeAdded(cartItem.volume, product) == newVolume;
        var _ := adapter.cart.UpdateVolume(product.id, newVolume);
        VolumeWrite(old(adapter.cart.rows), product, newVolume, adapter.cart.PriceFor(product.id, newVolume));
      }
    }

    method OnVolumeSubtracted()
      modifies adapter.cart`rows
      ensures var newVolume := cartItem.volume - product.volumeSet;
        adapter.cart.rows ==
          if newVolume >= product.minimumVolume
          then adapter.cart.VolumeUpdated(old(adapter.cart.rows), product.id, newVolume)
          else old(adapter.cart.rows)
      ensures cartItem.volume - product.volumeSet >= product.minimumVolume ==>
        forall r :: r in Select(adapter.cart.rows, CartLineOf(product.id)) ==>
          r.volume == VolumeSubtracted(cartItem.volume, product)
      ensures (old(LinesInRange(adapter.cart.rows, product)) && InRange(cartItem.volume, product)
               && product.volumeSet >= 0) ==> LinesInRange(adapter.cart.rows, product)
      ensures old(CartLinesUnique(adapter.cart.rows)) ==> CartLinesUnique(adapter.cart.rows)
    {
      var newVolume := cartItem.volume - product.volumeSet;
      if newVolume >= product.minimumVolume {
        assert VolumeSubtracted(cartItem.volume, product) == newVolume;
        var _ := adapter.cart.UpdateVolume(product.id, newVolume);
        VolumeWrite(old(adapter.cart.rows), product, newVolume, adapter.cart.PriceFor(product.id, newVolume));
      }
    }

    /** The browse-mode toggle: takes the product out of the cart when it is
        in, and otherwise adds a line at the product's minimum volume. */
    method UpdateToCart()
      modifies adapter.cart`rows, adapter.cart`nextId, this`checked
      ensures InCart(adapter.cart.rows, product.id) == !old(InCart(adapter.cart.rows, product.id))
      ensures checked == InCart(adapter.cart.rows, product.id)
      ensures old(InCart(adapter.cart.rows, product.id)) ==>
        && adapter.cart.rows == Delete(old(adapter.cart.rows), CartLineOf(product.id))
        && adapter.cart.nextId == old(adapter.cart.nextId)
      ensures !old(InCart(adapter.cart.rows, product.id)) ==>
        && adapter.cart.rows == old(adapter.cart.rows) +
             [NewItem(adapter.cart.signedUser, product.id).(volume := product.minimumVolume,
                totalPrice := adapter.cart.PriceFor(product.id, product.minimumVolume).GetOr(Blank.totalPrice))]
        && adapter.cart.nextId == old(adapter.cart.nextId) + 1
      ensures old(CartLinesUnique(adapter.cart.rows)) ==> CartLinesUnique(adapter.cart.rows)
    {
      var isAdded := adapter.cart.IsProductAddedToCart(product.id);
      if isAdded {
        var _ := adapter.cart.RemoveProductFromCart(product.id);
        checked := false;
        if CartLinesUnique(old(adapter.cart.rows)) {
          DeleteKeepsUnique(old(adapter.cart.rows), product.id);
        }
      } else {
        var _ := adapter.cart.AddProductToCart(product.id, product.minimumVolume);
        checked := true;
        var line := adapter.cart.rows[|adapter.cart.rows| - 1];
        assert adapter.cart.rows == old(adapter.cart.rows) + [line];
        if CartLinesUnique(old(adapter.cart.rows)) {
          AddKeepsUnique(old(adapter.cart.rows), line);
        }
      }
    }
  }
}
