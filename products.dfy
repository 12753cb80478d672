/** The `products` table and the routes of candle-shop-backend/routes/products.js.
    The table's DDL is not part of the repository; the model assumes what the
    routes rely on: a SERIAL `id` primary key, `is_active` defaulting to true
    and `created_at`/`updated_at` set from the clock. Prices are integer pence. */
module Products {
  import opened Tables

  datatype Product = Product(
    id: int,
    name: string,
    description: string,
    price: int,
    stockQuantity: int,
    imageUrl: string,
    isActive: bool,
    createdAt: int,
    updatedAt: int)

  function IdOf(p: Product): int { p.id }
  function NewestFirst(p: Product): int { -p.createdAt }
  predicate IsActive(p: Product) { p.isActive }

  /** GET `/`: `SELECT * FROM products WHERE is_active = true ORDER BY created_at DESC`. */
  function List(rows: seq<Product>): (r: seq<Product>)
    ensures forall k :: 0 <= k < |r| ==> r[k] in rows && r[k].isActive
    ensures forall j :: 0 <= j < |rows| && rows[j].isActive ==> rows[j] in r
    ensures SortedBy(r, NewestFirst)
    ensures multiset(r) == multiset(Filter(rows, IsActive))
  {
    var active := Filter(rows, IsActive);
    var r := SortBy(active, NewestFirst);
    assert forall k :: 0 <= k < |r| ==> r[k] in active by {
      forall k | 0 <= k < |r| ensures r[k] in active {
        SortByMembers(active, NewestFirst, r[k]);
      }
    }
    assert forall j :: 0 <= j < |rows| && rows[j].isActive ==> rows[j] in r by {
      forall j | 0 <= j < |rows| && rows[j].isActive ensures rows[j] in r {
        assert IsActive(rows[j]);
        SortByMembers(active, NewestFirst, rows[j]);
      }
    }
    r
  }

  /** GET `/:id`: the row with that id whatever its `is_active`, or 404. */
  function Get(rows: seq<Product>, id: int): (r: Reply<Product>)
    ensures r.Ok? <==> HasKey(rows, IdOf, id)
    ensures r.Ok? ==> r.status == 200 && r.value in rows && r.value.id == id
    ensures r.Err? ==> r == Err(404, "Product not found")
  {
    match IndexOf(rows, IdOf, id)
    case None => Err(404, "Product not found")
    case Some(i) => Ok(200, rows[i])
  }

  /** The stock statement of an order line,
      `UPDATE products SET stock_quantity = stock_quantity - qty WHERE id = productId`:
      every row with that id loses `qty`; a product id naming no row changes nothing. */
  function Decremented(rows: seq<Product>, productId: int, qty: int): seq<Product> {
    seq(|rows|, j requires 0 <= j < |rows| =>
      if rows[j].id == productId then rows[j].(stockQuantity := rows[j].stockQuantity - qty)
      else rows[j])
  }

  /** DELETE `/:id` only clears the flag: the product leaves the listing and
      is still returned by id. */
  lemma SoftDeletedStaysFetchable(rows: seq<Product>, i: nat)
    requires UniqueKeys(rows, IdOf)
    requires i < |rows|
    ensures var after := rows[i := rows[i].(isActive := false)];
      && Get(after, rows[i].id) == Ok(200, after[i])
      && after[i] !in List(after)
  {
    var after := rows[i := rows[i].(isActive := false)];
    assert forall m :: 0 <= m < |after| ==> IdOf(after[m]) == IdOf(rows[m]);
    assert UniqueKeys(after, IdOf);
    IndexOfUnique(after, IdOf, rows[i].id, i);
  }

  class ProductTable {
    var rows: seq<Product>
    var nextId: int

    ghost predicate Valid()
      reads this
    {
      0 <= nextId && UniqueKeys(rows, IdOf) && KeysBelow(rows, IdOf, nextId)
    }

    constructor ()
      ensures Valid() && rows == [] && nextId == 1
    {
      rows := [];
      nextId := 1;
    }

    /** POST `/`: one row from the five given fields, returned with 201. */
    method Create(name: string, description: string, price: int, stockQuantity: int,
                  imageUrl: string, now: int) returns (r: Reply<Product>)
      requires Valid()
      modifies this
      ensures Valid()
      ensures r == Ok(201, Product(old(nextId), name, description, price, stockQuantity,
                                   imageUrl, true, now, now))
      ensures rows == old(rows) + [r.value] && nextId == old(nextId) + 1
    {
      var p := Product(nextId, name, description, price, stockQuantity, imageUrl, true, now, now);
      AppendFresh(rows, IdOf, nextId, p, nextId + 1);
      rows := rows + [p];
      nextId := nextId + 1;
      r := Ok(201, p);
    }

    /** PUT `/:id`: the six listed fields and `updated_at` of that row are
        overwritten; 404 when no row has the id. */
    method Update(id: int, name: string, description: string, price: int, stockQuantity: int,
                  imageUrl: string, isActive: bool, now: int) returns (r: Reply<Product>)
      requires Valid()
      modifies this
      ensures Valid() && nextId == old(nextId)
      ensures match IndexOf(old(rows), IdOf, id)
        case None => r == Err(404, "Product not found") && rows == old(rows)
        case Some(i) =>
          && rows == old(rows)[i := old(rows)[i].(name := name, description := description,
               price := price, stockQuantity := stockQuantity, imageUrl := imageUrl,
               isActive := isActive, updatedAt := now)]
          && r == Ok(200, rows[i])
    {
      match IndexOf(rows, IdOf, id)
      case None =>
        r := Err(404, "Product not found");
      case Some(i) =>
        var p := rows[i].(name := name, description := description, price := price,
                          stockQuantity := stockQuantity, imageUrl := imageUrl,
                          isActive := isActive, updatedAt := now);
        OverwriteKeepsKeys(rows, IdOf, nextId, i, p);
        rows := rows[i := p];
        r := Ok(200, p);
    }

    /** DELETE `/:id`: soft delete, setting only `is_active` to false. */
    method SoftDelete(id: int) returns (r: Reply<string>)
      requires Valid()
      modifies this
      ensures Valid() && nextId == old(nextId)
      ensures match IndexOf(old(rows), IdOf, id)
        case None => r == Err(404, "Product not found") && rows == old(rows)
        case Some(i) =>
          && rows == old(rows)[i := old(rows)[i].(isActive := false)]
          && r == Ok(200, "Product deleted successfully")
    {
      match IndexOf(rows, IdOf, id)
      case None =>
        r := Err(404, "Product not found");
      case Some(i) =>
        var p := rows[i].(isActive := false);
        OverwriteKeepsKeys(rows, IdOf, nextId, i, p);
        rows := rows[i := p];
        r := Ok(200, "Product deleted successfully");
    }

    /** The stock statement of an order line, run inside the order transaction. */
    method DecrementStock(productId: int, qty: int)
      requires Valid()
      modifies this
      ensures Valid() && nextId == old(nextId)
      ensures rows == Decremented(old(rows), productId, qty)
    {
      var after := Decremented(rows, productId, qty);
      assert forall m :: 0 <= m < |after| ==> IdOf(after[m]) == IdOf(rows[m]);
      rows := after;
    }
  }
}
