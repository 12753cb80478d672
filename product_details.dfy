/** The size selection and add-to-cart rules of the product page,
    candle-shop-frontend/src/pages/ProductDetails.jsx, over the fragrance
    view GET `/api/fragrances/:id` answers with. */
module ProductDetails {
  import opened Tables
  import opened Fragrances
  import opened Shop

  /** `data.sizes?.find(s => s.stock_quantity > 0)`. */
  function FirstInStock(sizes: seq<Size>): (r: Option<nat>)
    ensures r.Some? ==> r.value < |sizes| && InStock(sizes[r.value])
    ensures r.Some? ==> forall i :: 0 <= i < r.value ==> !InStock(sizes[i])
    ensures r.None? <==> forall i :: 0 <= i < |sizes| ==> !InStock(sizes[i])
  {
    if |sizes| == 0 then None
    else if InStock(sizes[0]) then Some(0)
    else
      match FirstInStock(sizes[1..])
      case None => None
      case Some(i) => Some(i + 1)
  }

  /** `firstAvailable || data.sizes?.[0]`: the first size in stock, else the
      first size, else nothing. */
  function InitialSelection(sizes: Option<seq<Size>>): (r: Option<Size>)
    ensures r.None? <==> sizes.None? || |sizes.value| == 0
    ensures r.Some? ==> r.value in sizes.value
    ensures sizes.Some? ==> match FirstInStock(sizes.value)
      case Some(i) => r == Some(sizes.value[i])
      case None => |sizes.value| > 0 ==> r == Some(sizes.value[0])
  {
    match sizes
    case None => None
    case Some(s) =>
      match FirstInStock(s)
      case Some(i) => Some(s[i])
      case None => if |s| == 0 then None else Some(s[0])
  }

  /** The initial selection is in stock exactly when some size is. */
  lemma InitialSelectionInStock(sizes: seq<Size>)
    ensures (InitialSelection(Some(sizes)).Some? && InStock(InitialSelection(Some(sizes)).value))
            <==> exists i :: 0 <= i < |sizes| && InStock(sizes[i])
  {
    if FirstInStock(sizes).None? && |sizes| > 0 {
      assert !InStock(sizes[0]);
    }
  }

  /** `isInStock && setSelectedSize(size)`: a click selects the size only
      when it is in stock. */
  function ClickSize(selected: Option<Size>, clicked: Size): (r: Option<Size>)
    ensures InStock(clicked) ==> r == Some(clicked)
    ensures !InStock(clicked) ==> r == selected
  {
    if InStock(clicked) then Some(clicked) else selected
  }

  /** The selection after a row of clicks on size buttons. */
  function Clicked(selected: Option<Size>, clicks: seq<Size>): Option<Size>
    decreases |clicks|
  {
    if |clicks| == 0 then selected else Clicked(ClickSize(selected, clicks[0]), clicks[1..])
  }

  /** Once an in-stock size is selected, clicks keep the selection in stock. */
  lemma {:induction false} ClicksKeepSelectionInStock(selected: Option<Size>, clicks: seq<Size>)
    requires selected.Some? && InStock(selected.value)
    ensures Clicked(selected, clicks).Some? && InStock(Clicked(selected, clicks).value)
    decreases |clicks|
  {
    if |clicks| > 0 {
      ClicksKeepSelectionInStock(ClickSize(selected, clicks[0]), clicks[1..]);
    }
  }

  /** `handleAddToCart`: nothing without a selection, else the cart item for
      the selected size. It looks at no stock itself. */
  function AddToCart(f: Fragrance, selected: Option<Size>): (r: Option<CartItem>)
    ensures r.None? <==> selected.None?
    ensures r.Some? ==> r.value == CartItemOf(f, selected.value)
  {
    match selected
    case None => None
    case Some(s) => Some(CartItemOf(f, s))
  }

  /** `!selectedSize || selectedSize.stock_quantity === 0`. */
  predicate AddToCartDisabled(selected: Option<Size>) {
    selected.None? || selected.value.stockQuantity == 0
  }

  /** `selectedSize && 0 < stock_quantity <= 5`: the "Only n left" notice. */
  predicate LowStockNotice(selected: Option<Size>) {
    selected.Some? && 0 < selected.value.stockQuantity <= 5
  }

  /** With no size in stock and the first one oversold (negative stock, which
      the order route allows), the page preselects it, leaves the button
      enabled, and a click adds it to the cart. */
  lemma OversoldSizeCanBeAdded(f: Fragrance, sizes: seq<Size>)
    requires |sizes| > 0 && sizes[0].stockQuantity < 0
    requires forall i :: 0 <= i < |sizes| ==> !InStock(sizes[i])
    ensures InitialSelection(Some(sizes)) == Some(sizes[0])
    ensures !AddToCartDisabled(InitialSelection(Some(sizes)))
    ensures AddToCart(f, InitialSelection(Some(sizes))) == Some(CartItemOf(f, sizes[0]))
  {
  }

  /** The button is enabled exactly for a selection with non-zero stock, and
      then a click yields an item; the low-stock notice implies an enabled
      button. */
  lemma EnabledMeansAddable(f: Fragrance, selected: Option<Size>)
    ensures !AddToCartDisabled(selected) <==> selected.Some? && selected.value.stockQuantity != 0
    ensures !AddToCartDisabled(selected) ==> AddToCart(f, selected).Some?
    ensures LowStockNotice(selected) ==> !AddToCartDisabled(selected)
  {
  }
}
