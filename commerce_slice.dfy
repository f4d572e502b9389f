/**
 * The commerce slice of the store: the product list, the cart, the wishlist,
 * the fetch flags and the marketplace filter, and the reducers that update
 * them in place.
 */
module CommerceSlice {
  import opened Wrappers
  import opened Data
  import Seqs

  /** A cart line. The reducers accept any quantity; only the cart page refuses values below 1. */
  datatype CartItem = CartItem(product: Product, quantity: int)

  datatype PriceRange = PriceRange(lo: real, hi: real)

  /** The stored filter; every field is optional. */
  datatype CommerceFilter = CommerceFilter(
    category: Option<string>,
    certification: Option<string>,
    priceRange: Option<PriceRange>)

  datatype CommerceState = CommerceState(
    products: seq<Product>,
    cart: seq<CartItem>,
    wishlist: seq<Product>,
    loading: bool,
    error: Option<string>,
    filter: CommerceFilter)

  const InitialState := CommerceState([], [], [], false, None, CommerceFilter(None, None, None))

  function LineProductId(item: CartItem): string { item.product.id }

  /** `addToCart` on the cart value: merge into the first line with the same product id, or append. */
  function AddLine(cart: seq<CartItem>, item: CartItem): seq<CartItem> {
    var i := Seqs.IndexOf(cart, LineProductId, item.product.id);
    if i == -1 then cart + [item]
    else cart[i := cart[i].(quantity := cart[i].quantity + item.quantity)]
  }

  /**
   * When the product is already in the cart, the first line for it gains the
   * payload quantity and every other line, and the length, stay as they were;
   * otherwise the payload is appended at the end.
   */
  lemma AddLineFacts(cart: seq<CartItem>, item: CartItem)
    ensures var i := Seqs.IndexOf(cart, LineProductId, item.product.id);
      i != -1 ==>
        && |AddLine(cart, item)| == |cart|
        && AddLine(cart, item)[i].product == cart[i].product
        && AddLine(cart, item)[i].quantity == cart[i].quantity + item.quantity
        && forall j :: 0 <= j < |cart| && j != i ==> AddLine(cart, item)[j] == cart[j]
    ensures (forall j :: 0 <= j < |cart| ==> cart[j].product.id != item.product.id) ==>
      AddLine(cart, item) == cart + [item]
  {
  }

  /** Merge-on-add keeps the cart free of two lines for one product. */
  lemma AddLineKeepsUnique(cart: seq<CartItem>, item: CartItem)
    requires Seqs.UniqueKeys(cart, LineProductId)
    ensures Seqs.UniqueKeys(AddLine(cart, item), LineProductId)
  {
    var i := Seqs.IndexOf(cart, LineProductId, item.product.id);
    var r := AddLine(cart, item);
    if i != -1 {
      forall j, k | 0 <= j < k < |r| ensures r[j].product.id != r[k].product.id {
        assert LineProductId(cart[j]) != LineProductId(cart[k]);
      }
    }
  }

  /** `updateCartQuantity` on the cart value: set the quantity of the first matching line, unvalidated. */
  function SetQuantity(cart: seq<CartItem>, productId: string, quantity: int): (r: seq<CartItem>)
    ensures |r| == |cart|
    ensures Seqs.IndexOf(cart, LineProductId, productId) == -1 ==> r == cart
    ensures forall j :: 0 <= j < |cart| ==>
      if j == Seqs.IndexOf(cart, LineProductId, productId)
      then r[j] == cart[j].(quantity := quantity)
      else r[j] == cart[j]
  {
    var i := Seqs.IndexOf(cart, LineProductId, productId);
    if i == -1 then cart else cart[i := cart[i].(quantity := quantity)]
  }

  /** `removeFromCart` on the cart value. */
  function RemoveLine(cart: seq<CartItem>, productId: string): seq<CartItem> {
    Seqs.RemoveKey(cart, LineProductId, productId)
  }

  /**
   * Removal keeps exactly the lines of other products, in their original
   * order; removing twice is removing once.
   */
  lemma RemoveLineFacts(cart: seq<CartItem>, productId: string)
    ensures forall x :: x in RemoveLine(cart, productId) <==> x in cart && x.product.id != productId
    ensures Seqs.IsSubsequence(RemoveLine(cart, productId), cart)
    ensures RemoveLine(RemoveLine(cart, productId), productId) == RemoveLine(cart, productId)
    ensures Seqs.UniqueKeys(cart, LineProductId) ==> Seqs.UniqueKeys(RemoveLine(cart, productId), LineProductId)
  {
    Seqs.RemoveKeyFacts(cart, LineProductId, productId);
    if Seqs.UniqueKeys(cart, LineProductId) {
      Seqs.RemoveKeyKeepsUnique(cart, LineProductId, productId);
    }
  }

  /**
   * With one line per product, removing a product in the cart drops exactly
   * its line: the other lines stay in order and the cart is one line shorter.
   */
  lemma RemovePresentLine(cart: seq<CartItem>, i: int)
    requires Seqs.UniqueKeys(cart, LineProductId) && 0 <= i < |cart|
    ensures RemoveLine(cart, cart[i].product.id) == cart[..i] + cart[i + 1..]
    ensures |RemoveLine(cart, cart[i].product.id)| == |cart| - 1
  {
    Seqs.RemoveUniqueKey(cart, LineProductId, i);
  }

  /** Adding to the wishlist is a no-op for a product id already there, so wishlist ids stay distinct. */
  lemma WishlistAddFacts(wishlist: seq<Product>, p: Product)
    ensures (exists j :: 0 <= j < |wishlist| && wishlist[j].id == p.id) ==>
      Seqs.AddIfAbsent(wishlist, ProductId, p) == wishlist
    ensures (forall j :: 0 <= j < |wishlist| ==> wishlist[j].id != p.id) ==>
      Seqs.AddIfAbsent(wishlist, ProductId, p) == wishlist + [p]
    ensures Seqs.UniqueKeys(wishlist, ProductId) ==>
      Seqs.UniqueKeys(Seqs.AddIfAbsent(wishlist, ProductId, p), ProductId)
  {
    Seqs.AddIfAbsentFacts(wishlist, ProductId, p);
  }

  class CommerceStore {
    var products: seq<Product>
    var cart: seq<CartItem>
    var wishlist: seq<Product>
    var loading: bool
    var error: Option<string>
    var filter: CommerceFilter

    function State(): CommerceState
      reads this
    {
      CommerceState(products, cart, wishlist, loading, error, filter)
    }

    /** Cart lines are distinct by product id and so are wishlist products. */
    ghost predicate Valid()
      reads this
    {
      Seqs.UniqueKeys(cart, LineProductId) && Seqs.UniqueKeys(wishlist, ProductId)
    }

    constructor ()
      ensures State() == InitialState && Valid()
    {
      products, cart, wishlist := [], [], [];
      loading, error := false, None;
      filter := CommerceFilter(None, None, None);
    }

    method FetchProductsStart()
      modifies this
      ensures State() == old(State()).(loading := true, error := None)
      ensures old(Valid()) ==> Valid()
    {
      loading := true;
      error := None;
    }

    /** Replaces the products and clears `loading`; `error` keeps whatever it held. */
    method FetchProductsSuccess(payload: seq<Product>)
      modifies this
      ensures State() == old(State()).(products := payload, loading := false)
      ensures old(Valid()) ==> Valid()
    {
      products := payload;
      loading := false;
    }

    method FetchProductsFailure(message: string)
      modifies this
      ensures State() == old(State()).(loading := false, error := Some(message))
      ensures old(Valid()) ==> Valid()
    {
      loading := false;
      error := Some(message);
    }

    method AddToCart(item: CartItem)
      modifies this
      ensures State() == old(State()).(cart := AddLine(old(cart), item))
      ensures old(Valid()) ==> Valid()
    {
      ghost var before := cart;
      var i := Seqs.FindIndex(cart, LineProductId, item.product.id);
      if i != -1 {
        cart := cart[i := cart[i].(quantity := cart[i].quantity + item.quantity)];
      } else {
        cart := cart + [item];
      }
      if Seqs.UniqueKeys(before, LineProductId) {
        AddLineKeepsUnique(before, item);
      }
    }

    method RemoveFromCart(productId: string)
      modifies this
      ensures State() == old(State()).(cart := RemoveLine(old(cart), productId))
      ensures old(Valid()) ==> Valid()
      ensures old(Valid()) && (exists i :: 0 <= i < |old(cart)| && old(cart)[i].product.id == productId) ==>
        |cart| == |old(cart)| - 1
    {
      ghost var before := cart;
      cart := RemoveLine(cart, productId);
      RemoveLineFacts(before, productId);
      if Seqs.UniqueKeys(before, LineProductId) && exists i :: 0 <= i < |before| && before[i].product.id == productId {
        var i :| 0 <= i < |before| && before[i].product.id == productId;
        RemovePresentLine(before, i);
      }
    }

    method UpdateCartQuantity(productId: string, quantity: int)
      modifies this
      ensures State() == old(State()).(cart := SetQuantity(old(cart), productId, quantity))
      ensures old(Valid()) ==> Valid()
    {
      var i := Seqs.FindIndex(cart, LineProductId, productId);
      if i != -1 {
        cart := cart[i := cart[i].(quantity := quantity)];
      }
      assert forall j :: 0 <= j < |cart| ==> LineProductId(cart[j]) == LineProductId(old(cart)[j]);
    }

    method ClearCart()
      modifies this
      ensures State() == old(State()).(cart := [])
      ensures old(Valid()) ==> Valid()
    {
      cart := [];
    }

    method AddToWishlist(p: Product)
      modifies this
      ensures State() == old(State()).(wishlist := Seqs.AddIfAbsent(old(wishlist), ProductId, p))
      ensures old(Valid()) ==> Valid()
    {
      var i := Seqs.FindIndex(wishlist, ProductId, p.id);
      if i == -1 {
        wishlist := wishlist + [p];
      }
      WishlistAddFacts(old(wishlist), p);
    }

    method RemoveFromWishlist(productId: string)
      modifies this
      ensures State() == old(State()).(wishlist := Seqs.RemoveKey(old(wishlist), ProductId, productId))
      ensures old(Valid()) ==> Valid()
    {
      ghost var before := wishlist;
      wishlist := Seqs.RemoveKey(wishlist, ProductId, productId);
      if Seqs.UniqueKeys(before, ProductId) {
        Seqs.RemoveKeyKeepsUnique(before, ProductId, productId);
      }
    }

    method SetFilter(payload: CommerceFilter)
      modifies this
      ensures State() == old(State()).(filter := payload)
      ensures old(Valid()) ==> Valid()
    {
      filter := payload;
    }
  }
}
