/** The `fragrances` and `fragrance_sizes` tables and the routes of
    candle-shop-backend/routes/fragrances.js. Nullable columns are `Option`
    in the rows; a NOT NULL column is plain in the row and `Option` in a
    request body, where an absent field makes the statement fail (500).
    Prices are integer pence. */
module Fragrances {
  import opened Tables

  datatype Fragrance = Fragrance(
    id: int,
    name: string,
    description: Option<string>,
    imageUrl: Option<string>,
    isActive: Option<bool>,
    createdAt: int,
    updatedAt: int)

  datatype Size = Size(
    id: int,
    fragranceId: int,
    sizeName: string,
    burnTime: string,
    price: int,
    stockQuantity: int,
    sku: Option<string>,
    isActive: Option<bool>,
    createdAt: int,
    updatedAt: int)

  /** The size fields of a POST or PUT body; `isActive` is read by PUT only. */
  datatype SizeBody = SizeBody(
    sizeName: Option<string>,
    burnTime: Option<string>,
    price: Option<int>,
    stockQuantity: Option<int>,
    sku: Option<string>,
    isActive: Option<bool>)

  /** A fragrance row with its `sizes` array, as both GET routes send it. */
  datatype FragranceView = FragranceView(fragrance: Fragrance, sizes: seq<Size>)

  function FragranceIdOf(f: Fragrance): int { f.id }
  function SizeIdOf(s: Size): int { s.id }
  function FragranceNewestFirst(f: Fragrance): int { -f.createdAt }
  function PriceOf(s: Size): int { s.price }
  predicate FragranceIsActive(f: Fragrance) { f.isActive == Some(true) }

  /** The four NOT NULL size columns are all given. */
  predicate NotNullsGiven(b: SizeBody) {
    b.sizeName.Some? && b.burnTime.Some? && b.price.Some? && b.stockQuantity.Some?
  }

  /** `sku` is UNIQUE; NULL SKUs never collide. */
  predicate SkusUnique(sizes: seq<Size>) {
    forall i, j :: 0 <= i < j < |sizes| && sizes[i].sku.Some? ==> sizes[i].sku != sizes[j].sku
  }

  /** A row other than `except` already holds the non-NULL `sku`. */
  predicate SkuTaken(sizes: seq<Size>, sku: Option<string>, except: int) {
    sku.Some? && exists j :: 0 <= j < |sizes| && j != except && sizes[j].sku == sku
  }

  /** The SET list of PUT `/sizes/:sizeId`: the six body fields and
      `updated_at`; the id, the fragrance and `created_at` stay. */
  function Overwritten(s: Size, body: SizeBody, now: int): (r: Size)
    requires NotNullsGiven(body)
    ensures r.id == s.id && r.fragranceId == s.fragranceId && r.createdAt == s.createdAt
  {
    s.(sizeName := body.sizeName.value, burnTime := body.burnTime.value,
       price := body.price.value, stockQuantity := body.stockQuantity.value,
       sku := body.sku, isActive := body.isActive, updatedAt := now)
  }

  // ---------------------------------------------------------------------
  // The GET routes
  // ---------------------------------------------------------------------

  /** `fragrance_id = $1 AND is_active = true`. */
  predicate ActiveSizeOf(s: Size, fragranceId: int) {
    s.fragranceId == fragranceId && s.isActive == Some(true)
  }

  /** `WHERE fragrance_id = $1 AND is_active = true`, in table order. */
  function SizesFor(sizes: seq<Size>, fragranceId: int): (r: seq<Size>)
    ensures forall k :: 0 <= k < |r| ==> r[k] in sizes && ActiveSizeOf(r[k], fragranceId)
    ensures forall j :: 0 <= j < |sizes| && ActiveSizeOf(sizes[j], fragranceId) ==> sizes[j] in r
    ensures multiset(r) <= multiset(sizes)
    ensures forall x :: multiset(r)[x] == if ActiveSizeOf(x, fragranceId) then multiset(sizes)[x] else 0
  {
    if |sizes| == 0 then []
    else
      assert sizes == [sizes[0]] + sizes[1..];
      var rest := SizesFor(sizes[1..], fragranceId);
      if ActiveSizeOf(sizes[0], fragranceId) then [sizes[0]] + rest
      else rest
  }

  /** The sizes query of both GET routes: the fragrance's active sizes,
      cheapest first. */
  function ActiveSizes(sizes: seq<Size>, fragranceId: int): (r: seq<Size>)
    ensures SortedBy(r, PriceOf)
    ensures forall k :: 0 <= k < |r| ==> r[k] in sizes && ActiveSizeOf(r[k], fragranceId)
    ensures forall j :: 0 <= j < |sizes| && ActiveSizeOf(sizes[j], fragranceId) ==> sizes[j] in r
    ensures multiset(r) <= multiset(sizes)
    ensures forall x :: multiset(r)[x] == if ActiveSizeOf(x, fragranceId) then multiset(sizes)[x] else 0
  {
    var chosen := SizesFor(sizes, fragranceId);
    var r := SortBy(chosen, PriceOf);
    assert multiset(r) == multiset(chosen);
    assert forall k :: 0 <= k < |r| ==> r[k] in chosen by {
      forall k | 0 <= k < |r| ensures r[k] in chosen {
        SortByMembers(chosen, PriceOf, r[k]);
      }
    }
    assert forall j :: 0 <= j < |sizes| && ActiveSizeOf(sizes[j], fragranceId) ==> sizes[j] in r by {
      forall j | 0 <= j < |sizes| && ActiveSizeOf(sizes[j], fragranceId) ensures sizes[j] in r {
        SortByMembers(chosen, PriceOf, sizes[j]);
      }
    }
    r
  }

  function Views(fragrances: seq<Fragrance>, sizes: seq<Size>): (r: seq<FragranceView>)
    ensures |r| == |fragrances|
    ensures forall k :: 0 <= k < |r| ==> r[k].fragrance == fragrances[k]
    ensures forall k :: 0 <= k < |r| ==> r[k].sizes == ActiveSizes(sizes, fragrances[k].id)
  {
    seq(|fragrances|, k requires 0 <= k < |fragrances| =>
      FragranceView(fragrances[k], ActiveSizes(sizes, fragrances[k].id)))
  }

  /** `SELECT * FROM fragrances WHERE is_active = true ORDER BY created_at DESC`. */
  function NewestActive(fragrances: seq<Fragrance>): (r: seq<Fragrance>)
    ensures forall k :: 0 <= k < |r| ==> r[k] in fragrances && r[k].isActive == Some(true)
    ensures forall j :: 0 <= j < |fragrances| && fragrances[j].isActive == Some(true) ==> fragrances[j] in r
    ensures SortedBy(r, FragranceNewestFirst)
    ensures multiset(r) == multiset(Filter(fragrances, FragranceIsActive))
  {
    var active := Filter(fragrances, FragranceIsActive);
    var r := SortBy(active, FragranceNewestFirst);
    assert forall k :: 0 <= k < |r| ==> r[k] in active by {
      forall k | 0 <= k < |r| ensures r[k] in active {
        SortByMembers(active, FragranceNewestFirst, r[k]);
      }
    }
    assert forall j :: 0 <= j < |fragrances| && fragrances[j].isActive == Some(true) ==> fragrances[j] in r by {
      forall j | 0 <= j < |fragrances| && fragrances[j].isActive == Some(true) ensures fragrances[j] in r {
        assert FragranceIsActive(fragrances[j]);
        SortByMembers(active, FragranceNewestFirst, fragrances[j]);
      }
    }
    r
  }

  /** GET `/`: the active fragrances, newest first, each with its active
      sizes cheapest first. */
  function ListFragrances(fragrances: seq<Fragrance>, sizes: seq<Size>): (r: seq<FragranceView>)
    ensures forall k :: 0 <= k < |r| ==>
      r[k].fragrance in fragrances && r[k].fragrance.isActive == Some(true)
    ensures forall j :: 0 <= j < |fragrances| && fragrances[j].isActive == Some(true) ==>
      exists k :: 0 <= k < |r| && r[k].fragrance == fragrances[j]
    ensures forall i, j :: 0 <= i < j < |r| ==> r[i].fragrance.createdAt >= r[j].fragrance.createdAt
    ensures forall k :: 0 <= k < |r| ==> r[k].sizes == ActiveSizes(sizes, r[k].fragrance.id)
    ensures |r| == |NewestActive(fragrances)|
    ensures forall k :: 0 <= k < |r| ==> r[k].fragrance == NewestActive(fragrances)[k]
  {
    var sorted := NewestActive(fragrances);
    var r := Views(sorted, sizes);
    ViewsListAll(fragrances, sorted, r);
    ViewsKeepOrder(sorted, r);
    r
  }

  /** Every active fragrance has a view in the listing. */
  lemma ViewsListAll(fragrances: seq<Fragrance>, sorted: seq<Fragrance>, r: seq<FragranceView>)
    requires forall j :: 0 <= j < |fragrances| && fragrances[j].isActive == Some(true) ==> fragrances[j] in sorted
    requires |r| == |sorted| && forall k :: 0 <= k < |r| ==> r[k].fragrance == sorted[k]
    ensures forall j :: 0 <= j < |fragrances| && fragrances[j].isActive == Some(true) ==>
      exists k :: 0 <= k < |r| && r[k].fragrance == fragrances[j]
  {
    forall j | 0 <= j < |fragrances| && fragrances[j].isActive == Some(true)
      ensures exists k :: 0 <= k < |r| && r[k].fragrance == fragrances[j]
    {
      var k :| 0 <= k < |sorted| && sorted[k] == fragrances[j];
      assert r[k].fragrance == fragrances[j];
    }
  }

  /** The views keep the newest-first order of the fragrances they show. */
  lemma ViewsKeepOrder(sorted: seq<Fragrance>, r: seq<FragranceView>)
    requires SortedBy(sorted, FragranceNewestFirst)
    requires |r| == |sorted| && forall k :: 0 <= k < |r| ==> r[k].fragrance == sorted[k]
    ensures forall i, j :: 0 <= i < j < |r| ==> r[i].fragrance.createdAt >= r[j].fragrance.createdAt
  {
    forall i, j | 0 <= i < j < |r| ensures r[i].fragrance.createdAt >= r[j].fragrance.createdAt {
      assert FragranceNewestFirst(sorted[i]) <= FragranceNewestFirst(sorted[j]);
    }
  }

  /** GET `/:id`: the fragrance whatever its `is_active`, with its active
      sizes cheapest first; 404 when no row has the id. */
  function GetFragrance(fragrances: seq<Fragrance>, sizes: seq<Size>, id: int): (r: Reply<FragranceView>)
    ensures r.Ok? <==> HasKey(fragrances, FragranceIdOf, id)
    ensures r.Err? ==> r == Err(404, "Fragrance not found")
    ensures r.Ok? ==>
      (r.status == 200 && r.value.fragrance in fragrances && r.value.fragrance.id == id
       && r.value.sizes == ActiveSizes(sizes, id))
  {
    match IndexOf(fragrances, FragranceIdOf, id)
    case None => Err(404, "Fragrance not found")
    case Some(i) => Ok(200, FragranceView(fragrances[i], ActiveSizes(sizes, id)))
  }

  /** A soft-deleted size is in neither GET's answer. */
  lemma SoftDeletedSizeHidden(fragrances: seq<Fragrance>, sizes: seq<Size>, i: nat, id: int)
    requires i < |sizes|
    ensures var after := sizes[i := sizes[i].(isActive := Some(false))];
      && (forall k :: 0 <= k < |ListFragrances(fragrances, after)| ==>
            after[i] !in ListFragrances(fragrances, after)[k].sizes)
      && (GetFragrance(fragrances, after, id).Ok? ==>
            after[i] !in GetFragrance(fragrances, after, id).value.sizes)
  {
  }

  /** A soft-deleted fragrance leaves the listing but GET `/:id` still
      answers with it. */
  lemma SoftDeletedFragranceStaysFetchable(fragrances: seq<Fragrance>, sizes: seq<Size>, i: nat)
    requires UniqueKeys(fragrances, FragranceIdOf)
    requires i < |fragrances|
    ensures var after := fragrances[i := fragrances[i].(isActive := Some(false))];
      && GetFragrance(after, sizes, fragrances[i].id)
         == Ok(200, FragranceView(after[i], ActiveSizes(sizes, fragrances[i].id)))
      && (forall k :: 0 <= k < |ListFragrances(after, sizes)| ==>
            ListFragrances(after, sizes)[k].fragrance != after[i])
  {
    var after := fragrances[i := fragrances[i].(isActive := Some(false))];
    assert forall m :: 0 <= m < |after| ==> FragranceIdOf(after[m]) == FragranceIdOf(fragrances[m]);
    IndexOfUnique(after, FragranceIdOf, fragrances[i].id, i);
  }

  // ---------------------------------------------------------------------
  // The tables and the writing routes
  // ---------------------------------------------------------------------

  class FragranceStore {
    var fragrances: seq<Fragrance>
    var sizes: seq<Size>
    var nextFragranceId: int
    var nextSizeId: int

    ghost predicate Valid()
      reads this
    {
      && 0 <= nextFragranceId && 0 <= nextSizeId
      && UniqueKeys(fragrances, FragranceIdOf) && KeysBelow(fragrances, FragranceIdOf, nextFragranceId)
      && UniqueKeys(sizes, SizeIdOf) && KeysBelow(sizes, SizeIdOf, nextSizeId)
      && SkusUnique(sizes)
      // fragrance_sizes.fragrance_id REFERENCES fragrances(id)
      && (forall k :: 0 <= k < |sizes| ==> HasKey(fragrances, FragranceIdOf, sizes[k].fragranceId))
    }

    constructor ()
      ensures Valid() && fragrances == [] && sizes == []
    {
      fragrances, sizes := [], [];
      nextFragranceId, nextSizeId := 1, 1;
    }

    /** POST `/`: a new active fragrance from the three given fields, 201; a
        missing name violates NOT NULL (500). The SERIAL value is drawn
        either way. */
    method CreateFragrance(name: Option<string>, description: Option<string>,
                           imageUrl: Option<string>, now: int) returns (r: Reply<Fragrance>)
      requires Valid()
      modifies this
      ensures Valid() && sizes == old(sizes) && nextSizeId == old(nextSizeId)
      ensures nextFragranceId == old(nextFragranceId) + 1
      ensures name.None? ==>
        r == Err(500, "Failed to create fragrance") && fragrances == old(fragrances)
      ensures name.Some? ==>
        && r == Ok(201, Fragrance(old(nextFragranceId), name.value, description, imageUrl,
                                  Some(true), now, now))
        && fragrances == old(fragrances) + [r.value]
    {
      var id := nextFragranceId;
      nextFragranceId := nextFragranceId + 1;
      if name.None? {
        r := Err(500, "Failed to create fragrance");
        return;
      }
      var f := Fragrance(id, name.value, description, imageUrl, Some(true), now, now);
      AppendFresh(fragrances, FragranceIdOf, id, f, nextFragranceId);
      forall k | 0 <= k < |sizes| ensures HasKey(fragrances + [f], FragranceIdOf, sizes[k].fragranceId) {
        HasKeyAppend(fragrances, FragranceIdOf, sizes[k].fragranceId, f);
      }
      fragrances := fragrances + [f];
      r := Ok(201, f);
    }

    /** PUT `/:id`: exactly name, description, image and active flag (and
        `updated_at`) of that row are overwritten; 404 when absent; a missing
        name violates NOT NULL (500). */
    method UpdateFragrance(id: int, name: Option<string>, description: Option<string>,
                           imageUrl: Option<string>, isActive: Option<bool>, now: int)
      returns (r: Reply<Fragrance>)
      requires Valid()
      modifies this
      ensures Valid() && sizes == old(sizes)
      ensures nextFragranceId == old(nextFragranceId) && nextSizeId == old(nextSizeId)
      ensures match IndexOf(old(fragrances), FragranceIdOf, id)
        case None => r == Err(404, "Fragrance not found") && fragrances == old(fragrances)
        case Some(i) =>
          if name.None? then
            r == Err(500, "Failed to update fragrance") && fragrances == old(fragrances)
          else
            && fragrances == old(fragrances)[i := old(fragrances)[i].(name := name.value,
                 description := description, imageUrl := imageUrl, isActive := isActive,
                 updatedAt := now)]
            && r == Ok(200, fragrances[i])
    {
      match IndexOf(fragrances, FragranceIdOf, id)
      case None =>
        r := Err(404, "Fragrance not found");
      case Some(i) =>
        if name.None? {
          r := Err(500, "Failed to update fragrance");
        } else {
          var f := fragrances[i].(name := name.value, description := description,
                                  imageUrl := imageUrl, isActive := isActive, updatedAt := now);
          Overwrite(i, f);
          r := Ok(200, f);
        }
    }

    /** DELETE `/:id`: only `is_active` becomes false; the row and its sizes
        stay. 404 when absent. */
    method SoftDeleteFragrance(id: int) returns (r: Reply<string>)
      requires Valid()
      modifies this
      ensures Valid() && sizes == old(sizes)
      ensures nextFragranceId == old(nextFragranceId) && nextSizeId == old(nextSizeId)
      ensures match IndexOf(old(fragrances), FragranceIdOf, id)
        case None => r == Err(404, "Fragrance not found") && fragrances == old(fragrances)
        case Some(i) =>
          && fragrances == old(fragrances)[i := old(fragrances)[i].(isActive := Some(false))]
          && r == Ok(200, "Fragrance deleted successfully")
    {
      match IndexOf(fragrances, FragranceIdOf, id)
      case None =>
        r := Err(404, "Fragrance not found");
      case Some(i) =>
        Overwrite(i, fragrances[i].(isActive := Some(false)));
        r := Ok(200, "Fragrance deleted successfully");
    }

    /** Row `i` of `fragrances` replaced by a row with the same id. */
    method Overwrite(i: nat, f: Fragrance)
      requires Valid() && i < |fragrances| && f.id == fragrances[i].id
      modifies this
      ensures Valid() && fragrances == old(fragrances)[i := f] && sizes == old(sizes)
      ensures nextFragranceId == old(nextFragranceId) && nextSizeId == old(nextSizeId)
    {
      OverwriteKeepsKeys(fragrances, FragranceIdOf, nextFragranceId, i, f);
      var after := fragrances[i := f];
      forall k | 0 <= k < |sizes| ensures HasKey(after, FragranceIdOf, sizes[k].fragranceId) {
        var m :| 0 <= m < |fragrances| && fragrances[m].id == sizes[k].fragranceId;
        assert after[m].id == fragrances[m].id;
      }
      fragrances := after;
    }

    /** POST `/:id/sizes`: one new active size linked to fragrance `id`, 201.
        A missing NOT NULL field, a fragrance id naming no row (FOREIGN KEY)
        and a SKU already in use (UNIQUE) all fail the INSERT (500); the
        SERIAL value is drawn either way. */
    method CreateSize(fragranceId: int, body: SizeBody, now: int) returns (r: Reply<Size>)
      requires Valid()
      modifies this
      ensures Valid() && fragrances == old(fragrances)
      ensures nextFragranceId == old(nextFragranceId) && nextSizeId == old(nextSizeId) + 1
      ensures if !NotNullsGiven(body) || !HasKey(fragrances, FragranceIdOf, fragranceId)
                 || SkuTaken(old(sizes), body.sku, -1)
        then r == Err(500, "Failed to create fragrance size") && sizes == old(sizes)
        else
          && r == Ok(201, Size(old(nextSizeId), fragranceId, body.sizeName.value, body.burnTime.value,
                               body.price.value, body.stockQuantity.value, body.sku, Some(true), now, now))
          && sizes == old(sizes) + [r.value]
    {
      var id := nextSizeId;
      nextSizeId := nextSizeId + 1;
      if !NotNullsGiven(body) || !HasKey(fragrances, FragranceIdOf, fragranceId)
         || SkuTaken(sizes, body.sku, -1) {
        r := Err(500, "Failed to create fragrance size");
        return;
      }
      var s := Size(id, fragranceId, body.sizeName.value, body.burnTime.value, body.price.value,
                    body.stockQuantity.value, body.sku, Some(true), now, now);
      AppendFresh(sizes, SizeIdOf, id, s, nextSizeId);
      var after := sizes + [s];
      assert forall m :: 0 <= m < |sizes| ==> after[m] == sizes[m];
      sizes := after;
      r := Ok(201, s);
    }

    /** PUT `/sizes/:sizeId`: all six size fields (and `updated_at`) of that
        row are overwritten; 404 when absent; a missing NOT NULL field or a
        SKU held by another size fails the UPDATE (500). */
    method UpdateSize(sizeId: int, body: SizeBody, now: int) returns (r: Reply<Size>)
      requires Valid()
      modifies this
      ensures Valid() && fragrances == old(fragrances)
      ensures nextFragranceId == old(nextFragranceId) && nextSizeId == old(nextSizeId)
      ensures match IndexOf(old(sizes), SizeIdOf, sizeId)
        case None => r == Err(404, "Fragrance size not found") && sizes == old(sizes)
        case Some(i) =>
          if !NotNullsGiven(body) || SkuTaken(old(sizes), body.sku, i) then
            r == Err(500, "Failed to update fragrance size") && sizes == old(sizes)
          else
            && sizes == old(sizes)[i := Overwritten(old(sizes)[i], body, now)]
            && r == Ok(200, sizes[i])
    {
      match IndexOf(sizes, SizeIdOf, sizeId)
      case None =>
        r := Err(404, "Fragrance size not found");
      case Some(i) =>
        if !NotNullsGiven(body) || SkuTaken(sizes, body.sku, i) {
          r := Err(500, "Failed to update fragrance size");
        } else {
          var s := Overwritten(sizes[i], body, now);
          OverwriteSize(i, s);
          r := Ok(200, s);
        }
    }

    /** DELETE `/sizes/:sizeId`: only `is_active` becomes false. */
    method SoftDeleteSize(sizeId: int) returns (r: Reply<string>)
      requires Valid()
      modifies this
      ensures Valid() && fragrances == old(fragrances)
      ensures nextFragranceId == old(nextFragranceId) && nextSizeId == old(nextSizeId)
      ensures match IndexOf(old(sizes), SizeIdOf, sizeId)
        case None => r == Err(404, "Fragrance size not found") && sizes == old(sizes)
        case Some(i) =>
          && sizes == old(sizes)[i := old(sizes)[i].(isActive := Some(false))]
          && r == Ok(200, "Fragrance size deleted successfully")
    {
      match IndexOf(sizes, SizeIdOf, sizeId)
      case None =>
        r := Err(404, "Fragrance size not found");
      case Some(i) =>
        OverwriteSize(i, sizes[i].(isActive := Some(false)));
        r := Ok(200, "Fragrance size deleted successfully");
    }

    /** PATCH `/sizes/:sizeId/stock`: only `stock_quantity` (and
        `updated_at`) of that size changes; 404 when absent; a missing
        quantity violates NOT NULL (500). */
    method PatchStock(sizeId: int, stockQuantity: Option<int>, now: int) returns (r: Reply<Size>)
      requires Valid()
      modifies this
      ensures Valid() && fragrances == old(fragrances)
      ensures nextFragranceId == old(nextFragranceId) && nextSizeId == old(nextSizeId)
      ensures match IndexOf(old(sizes), SizeIdOf, sizeId)
        case None => r == Err(404, "Fragrance size not found") && sizes == old(sizes)
        case Some(i) =>
          if stockQuantity.None? then
            r == Err(500, "Failed to update stock") && sizes == old(sizes)
          else
            && sizes == old(sizes)[i := old(sizes)[i].(stockQuantity := stockQuantity.value,
                                                       updatedAt := now)]
            && r == Ok(200, sizes[i])
    {
      match IndexOf(sizes, SizeIdOf, sizeId)
      case None =>
        r := Err(404, "Fragrance size not found");
      case Some(i) =>
        if stockQuantity.None? {
          r := Err(500, "Failed to update stock");
        } else {
          var s := sizes[i].(stockQuantity := stockQuantity.value, updatedAt := now);
          OverwriteSize(i, s);
          r := Ok(200, s);
        }
    }

    /** Row `i` of `sizes` replaced by a row with the same id and fragrance
        whose SKU no other row holds. */
    method OverwriteSize(i: nat, s: Size)
      requires Valid() && i < |sizes| && s.id == sizes[i].id
      requires s.fragranceId == sizes[i].fragranceId && !SkuTaken(sizes, s.sku, i)
      modifies this
      ensures Valid() && sizes == old(sizes)[i := s] && fragrances == old(fragrances)
      ensures nextFragranceId == old(nextFragranceId) && nextSizeId == old(nextSizeId)
    {
      OverwriteKeepsKeys(sizes, SizeIdOf, nextSizeId, i, s);
      var after := sizes[i := s];
      forall a, b | 0 <= a < b < |after| && after[a].sku.Some? ensures after[a].sku != after[b].sku {
        if a == i {
          assert after[b] == sizes[b];
        } else if b == i {
          assert after[a] == sizes[a];
        }
      }
      sizes := after;
    }
  }
}
