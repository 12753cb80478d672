/** The pricing and quick-add rules of the shop page,
    candle-shop-frontend/src/pages/Shop.jsx, over the fragrance views the
    page loads. Prices are integer pence. */
module Shop {
  import opened Tables
  import opened Fragrances

  /** The object handed to the cart. */
  datatype CartItem = CartItem(
    id: int,
    fragranceId: int,
    name: string,
    price: int,
    size: string,
    burnTime: string,
    imageUrl: Option<string>,
    stockQuantity: int)

  /** The cart item for one size of a fragrance: the size's id as the item
      id, the name "<fragrance> - <size>", price, burn time and stock from the
      size, image from the fragrance. */
  function CartItemOf(f: Fragrance, s: Size): (c: CartItem)
    ensures c.id == s.id && c.fragranceId == f.id
    ensures c.name == f.name + " - " + s.sizeName
    ensures c.price == s.price && c.stockQuantity == s.stockQuantity
    ensures c.size == s.sizeName && c.burnTime == s.burnTime && c.imageUrl == f.imageUrl
  {
    CartItem(s.id, f.id, f.name + " - " + s.sizeName, s.price, s.sizeName, s.burnTime,
             f.imageUrl, s.stockQuantity)
  }

  /** For one fragrance the item name tells the sizes apart. */
  lemma CartNameNamesTheSize(f: Fragrance, s1: Size, s2: Size)
    requires CartItemOf(f, s1).name == CartItemOf(f, s2).name
    ensures s1.sizeName == s2.sizeName
  {
    var p := f.name + " - ";
    assert CartItemOf(f, s1).name == p + s1.sizeName;
    assert CartItemOf(f, s2).name == p + s2.sizeName;
    assert s1.sizeName == (p + s1.sizeName)[|p|..];
    assert s2.sizeName == (p + s2.sizeName)[|p|..];
  }

  predicate InStock(s: Size) {
    s.stockQuantity > 0
  }

  /** A size button's click, `isInStock && handleQuickAdd(...)`: the item
      for the size when it is in stock, nothing otherwise. */
  function QuickAdd(f: Fragrance, s: Size): (r: Option<CartItem>)
    ensures r.Some? <==> s.stockQuantity > 0
    ensures r.Some? ==> r.value == CartItemOf(f, s)
  {
    if InStock(s) then Some(CartItemOf(f, s)) else None
  }

  /** `Math.min` of the prices of a non-empty list of sizes. */
  function MinPrice(sizes: seq<Size>): (m: int)
    requires |sizes| > 0
    ensures forall i :: 0 <= i < |sizes| ==> m <= sizes[i].price
    ensures exists i :: 0 <= i < |sizes| && m == sizes[i].price
  {
    if |sizes| == 1 then sizes[0].price
    else
      var rest := MinPrice(sizes[1..]);
      assert forall i :: 1 <= i < |sizes| ==> sizes[1..][i - 1] == sizes[i];
      if sizes[0].price <= rest then sizes[0].price else rest
  }

  /** `getStartingPrice`: 0 when the sizes are missing or empty, else the
      lowest price. */
  function StartingPrice(sizes: Option<seq<Size>>): (r: int)
    ensures (sizes.None? || |sizes.value| == 0) ==> r == 0
    ensures sizes.Some? && |sizes.value| > 0 ==>
      && (forall i :: 0 <= i < |sizes.value| ==> r <= sizes.value[i].price)
      && (exists i :: 0 <= i < |sizes.value| && r == sizes.value[i].price)
  {
    if sizes.None? || |sizes.value| == 0 then 0 else MinPrice(sizes.value)
  }

  /** The sizes both fragrance routes send (`ActiveSizes`) are cheapest
      first, so the "From" price is the first size's price. */
  lemma StartingPriceOfListedSizes(sizes: seq<Size>, fragranceId: int)
    requires |ActiveSizes(sizes, fragranceId)| > 0
    ensures StartingPrice(Some(ActiveSizes(sizes, fragranceId)))
            == ActiveSizes(sizes, fragranceId)[0].price
  {
    var listed := ActiveSizes(sizes, fragranceId);
    assert SortedBy(listed, PriceOf);
    var m := StartingPrice(Some(listed));
    var i :| 0 <= i < |listed| && m == listed[i].price;
    if i > 0 {
      assert PriceOf(listed[0]) <= PriceOf(listed[i]);
    }
  }
}
