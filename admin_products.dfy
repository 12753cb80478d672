/** The fragrance admin page, candle-shop-frontend/src/pages/admin/Products.jsx:
    the default sizes a new fragrance is seeded with, the SKU each seeded
    size gets, the save handler with its seeding loop, the body of an inline
    size edit and the colour of the stock field. The HTTP requests the page
    issues are returned as values; what the server answers is a parameter. */
module AdminProducts {
  import opened Tables
  import opened Text
  import opened Fragrances

  // ---------------------------------------------------------------------
  // SKUs
  // ---------------------------------------------------------------------

  /** `${name.toUpperCase().replace(/\s+/g, '-')}-${sizeName.replace(/\s+/g, '')}`. */
  function Sku(name: string, sizeName: string): string {
    DashRuns(ToUpper(name)) + "-" + StripSpaces(sizeName)
  }

  /** A generated SKU never contains whitespace. */
  lemma SkuHasNoSpace(name: string, sizeName: string)
    ensures HasNoSpace(Sku(name, sizeName))
  {
    var a, b := DashRuns(ToUpper(name)), StripSpaces(sizeName);
    var s := a + "-" + b;
    forall i | 0 <= i < |s| ensures !IsSpace(s[i]) {
      if i < |a| {
        assert s[i] == a[i];
      } else if i == |a| {
        assert s[i] == '-';
      } else {
        assert s[i] == b[i - |a| - 1];
      }
    }
  }

  predicate IsAlphanumeric(c: char) {
    ('A' <= c <= 'Z') || ('a' <= c <= 'z') || ('0' <= c <= '9')
  }

  lemma AlphanumericHasNoSpace(s: string)
    requires forall i :: 0 <= i < |s| ==> IsAlphanumeric(s[i])
    ensures HasNoSpace(s)
  {
  }

  // The concrete cases below take their strings as parameters equal to the
  // literals, so that the verifier does not evaluate the string functions on
  // literals all at once.

  lemma UpperLavenderDreams(name: string, spaces: string)
    requires (name == "Lavender Dreams" && spaces == " ") || (name == "lavender  dreams" && spaces == "  ")
    ensures ToUpper(name) == "LAVENDER" + spaces + "DREAMS"
  {
    var u := ToUpper(name);
    var t := "LAVENDER" + spaces + "DREAMS";
    forall i | 0 <= i < |t| ensures u[i] == t[i] {
      assert u[i] == UpperChar(name[i]);
    }
  }

  lemma DashedLavenderDreams(first: string, spaces: string, second: string)
    requires first == "LAVENDER" && second == "DREAMS" && (spaces == " " || spaces == "  ")
    ensures DashRuns(first + spaces + second) == "LAVENDER-DREAMS"
  {
    AlphanumericHasNoSpace(first);
    AlphanumericHasNoSpace(second);
    DashRunsJoinsWords(first, spaces, second);
  }

  lemma StrippedSixOunce(s: string)
    requires s == "6 oz"
    ensures StripSpaces(s) == "6oz"
  {
    AlphanumericHasNoSpace("6");
    assert s == "6" + " oz";
    StripSpacesAppendPlain("6", " oz");
    var t := " oz";
    assert t[1..] == "oz";
    AlphanumericHasNoSpace("oz");
    NoSpaceUnchanged("oz");
  }

  /** The SKU of the 6 oz size of "Lavender Dreams". */
  lemma SkuExample()
    ensures Sku("Lavender Dreams", "6 oz") == "LAVENDER-DREAMS-6oz"
  {
    var name, size := "Lavender Dreams", "6 oz";
    UpperLavenderDreams(name, " ");
    DashedLavenderDreams("LAVENDER", " ", "DREAMS");
    StrippedSixOunce(size);
  }

  /** Names differing only in letter case and in the length of whitespace
      runs give the same SKU, so the second fragrance's seeded size collides
      with the first's on the UNIQUE `sku` column. */
  lemma SkusCollide()
    ensures Sku("lavender  dreams", "6 oz") == Sku("Lavender Dreams", "6 oz")
  {
    var name, size := "lavender  dreams", "6 oz";
    UpperLavenderDreams(name, "  ");
    DashedLavenderDreams("LAVENDER", "  ", "DREAMS");
    StrippedSixOunce(size);
    SkuExample();
  }

  // ---------------------------------------------------------------------
  // Seeding a new fragrance
  // ---------------------------------------------------------------------

  datatype SizeSeed = SizeSeed(sizeName: string, burnTime: string, price: int, stockQuantity: int)

  /** `defaultSizes`; prices in pence. */
  const DefaultSizes: seq<SizeSeed> := [
    SizeSeed("6 oz", "30-35", 1800, 0),
    SizeSeed("9 oz", "45-50", 2800, 0),
    SizeSeed("12 oz", "60-70", 3800, 0)
  ]

  datatype Verb = Post | Put

  /** `/api/fragrances`, `/api/fragrances/:id`, `/api/fragrances/:id/sizes`
      and `/api/fragrances/sizes/:sizeId`. */
  datatype Endpoint =
    | FragranceList | FragranceById(id: int) | SizesOf(fragranceId: int) | SizeById(sizeId: int)

  datatype Payload =
    | FragranceFields(name: string, description: Option<string>, imageUrl: Option<string>, isActive: bool)
    | SizeFields(size: SizeBody)

  datatype ApiCall = ApiCall(verb: Verb, endpoint: Endpoint, payload: Payload)

  /** The name, description and image fields of the form. Description and
      image are `None` when an edit copied a NULL column into the form. */
  datatype FormData = FormData(name: string, description: Option<string>, imageUrl: Option<string>)

  datatype Notice = Notice(message: string, isError: bool)

  const EmptyForm := FormData("", Some(""), Some(""))

  /** `handleEdit`: the form takes the fragrance's name, description and
      image as they are, NULLs included. */
  function EditForm(f: Fragrance): (r: FormData)
    ensures r.name == f.name && r.description == f.description && r.imageUrl == f.imageUrl
  {
    FormData(f.name, f.description, f.imageUrl)
  }

  /** The size POST for one default size of a saved fragrance: the default's
      fields plus the SKU built from the saved name. */
  function SeedCall(saved: Fragrance, seed: SizeSeed): ApiCall {
    ApiCall(Post, SizesOf(saved.id),
      SizeFields(SizeBody(Some(seed.sizeName), Some(seed.burnTime), Some(seed.price),
                          Some(seed.stockQuantity), Some(Sku(saved.name, seed.sizeName)), None)))
  }

  function SeedCalls(saved: Fragrance): (r: seq<ApiCall>)
    ensures |r| == |DefaultSizes|
    ensures forall k :: 0 <= k < |r| ==> r[k] == SeedCall(saved, DefaultSizes[k])
  {
    seq(|DefaultSizes|, k requires 0 <= k < |DefaultSizes| => SeedCall(saved, DefaultSizes[k]))
  }

  /** Seeding posts exactly three sizes, in order 6 oz at 18.00, 9 oz at 28.00
      and 12 oz at 38.00, each with stock 0 and a whitespace-free SKU, all to
      the saved fragrance's id. */
  lemma SeedCallsAreTheDefaults(saved: Fragrance)
    ensures |SeedCalls(saved)| == 3
    ensures forall k :: 0 <= k < 3 ==>
      && SeedCalls(saved)[k].verb == Post
      && SeedCalls(saved)[k].endpoint == SizesOf(saved.id)
      && SeedCalls(saved)[k].payload.SizeFields?
      && SeedCalls(saved)[k].payload.size.stockQuantity == Some(0)
      && SeedCalls(saved)[k].payload.size.sku.Some?
      && HasNoSpace(SeedCalls(saved)[k].payload.size.sku.value)
    ensures SeedCalls(saved)[0].payload.size.sizeName == Some("6 oz")
    ensures SeedCalls(saved)[0].payload.size.price == Some(1800)
    ensures SeedCalls(saved)[1].payload.size.sizeName == Some("9 oz")
    ensures SeedCalls(saved)[1].payload.size.price == Some(2800)
    ensures SeedCalls(saved)[2].payload.size.sizeName == Some("12 oz")
    ensures SeedCalls(saved)[2].payload.size.price == Some(3800)
  {
    forall k | 0 <= k < 3 ensures HasNoSpace(SeedCalls(saved)[k].payload.size.sku.value) {
      SkuHasNoSpace(saved.name, DefaultSizes[k].sizeName);
    }
  }

  /** The save request: PUT to the edited fragrance's id, or POST to the
      collection, with the form's fields and `is_active: true`. */
  function SaveCall(editing: Option<Fragrance>, form: FormData): (r: ApiCall)
    ensures editing.Some? ==> r.verb == Put && r.endpoint == FragranceById(editing.value.id)
    ensures editing.None? ==> r.verb == Post && r.endpoint == FragranceList
    ensures r.payload == FragranceFields(form.name, form.description, form.imageUrl, true)
  {
    var payload := FragranceFields(form.name, form.description, form.imageUrl, true);
    match editing
    case Some(f) => ApiCall(Put, FragranceById(f.id), payload)
    case None => ApiCall(Post, FragranceList, payload)
  }

  /** Saving an edit without touching the fields re-sends the stored name,
      description and image, NULLs as NULLs, so the fragrance PUT writes them
      back unchanged and only re-activates the row. */
  lemma UnchangedEditResendsRow(f: Fragrance)
    ensures SaveCall(Some(f), EditForm(f))
      == ApiCall(Put, FragranceById(f.id), FragranceFields(f.name, f.description, f.imageUrl, true))
  {
  }

  /** The `for (const size of defaultSizes)` loop: one size POST per default
      size, in order, until a fetch throws. `completed` says that none threw. */
  method SeedSizes(saved: Fragrance, seedThrows: nat -> bool) returns (sent: seq<ApiCall>, completed: bool)
    ensures 1 <= |sent| <= |DefaultSizes| && sent == SeedCalls(saved)[..|sent|]
    ensures forall k :: 0 <= k < |sent| - 1 ==> !seedThrows(k)
    ensures completed <==> forall k :: 0 <= k < |DefaultSizes| ==> !seedThrows(k)
    ensures completed ==> |sent| == |DefaultSizes|
    ensures !completed ==> seedThrows(|sent| - 1)
  {
    sent := [];
    var k := 0;
    while k < |DefaultSizes|
      invariant 0 <= k <= |DefaultSizes|
      invariant |sent| == k && sent == SeedCalls(saved)[..k]
      invariant forall j :: 0 <= j < k ==> !seedThrows(j)
    {
      sent := sent + [SeedCall(saved, DefaultSizes[k])];
      assert SeedCalls(saved)[..k + 1] == SeedCalls(saved)[..k] + [SeedCalls(saved)[k]];
      if seedThrows(k) {
        completed := false;
        return;
      }
      k := k + 1;
    }
    completed := true;
  }

  /** The state of the page that `handleSubmit` reads and resets. */
  class FragranceAdmin {
    var showForm: bool
    var editing: Option<Fragrance>
    var form: FormData
    var notice: Option<Notice>

    constructor ()
      ensures !showForm && editing.None? && form == EmptyForm && notice.None?
    {
      showForm, editing, form, notice := false, None, EmptyForm, None;
    }

    /** `handleEdit`: the fragrance becomes the one being edited, the form
        takes its stored fields and is shown; the notice stays. */
    method Edit(f: Fragrance)
      modifies this
      ensures editing == Some(f) && form == EditForm(f) && showForm
      ensures notice == old(notice)
    {
      editing, form, showForm := Some(f), EditForm(f), true;
    }

    /** `handleSubmit`. `saved` is the fragrance of an ok answer to the save
        request (None for a rejection or a thrown fetch); `seedThrows(k)`
        says that the fetch of the `k`th size POST throws. The answers to the
        size POSTs are not looked at. The returned calls are the requests
        issued, in order. The notice is chosen from the value of `editing`
        the handler started with. */
    method Submit(saved: Option<Fragrance>, seedThrows: nat -> bool) returns (calls: seq<ApiCall>)
      modifies this
      ensures |calls| >= 1 && calls[0] == SaveCall(old(editing), old(form))
      ensures saved.None? ==>
        && calls == [calls[0]]
        && showForm == old(showForm) && editing == old(editing) && form == old(form)
        && notice == Some(Notice("Failed to save fragrance", true))
      ensures saved.Some? && old(editing).Some? ==>
        && calls == [calls[0]]
        && !showForm && editing.None? && form == EmptyForm
        && notice == Some(Notice("Fragrance updated successfully", false))
      ensures saved.Some? && old(editing).None? ==>
        && 2 <= |calls| <= 1 + |DefaultSizes|
        && calls[1..] == SeedCalls(saved.value)[..|calls| - 1]
        && (forall k :: 0 <= k < |calls| - 2 ==> !seedThrows(k))
        && if forall k :: 0 <= k < |DefaultSizes| ==> !seedThrows(k) then
             && |calls| == 1 + |DefaultSizes|
             && !showForm && editing.None? && form == EmptyForm
             && notice == Some(Notice("Fragrance created successfully", false))
           else
             && seedThrows(|calls| - 2)
             && showForm == old(showForm) && editing == old(editing) && form == old(form)
             && notice == Some(Notice("Failed to save fragrance", true))
    {
      var wasEditing := editing;
      calls := [SaveCall(editing, form)];
      if saved.None? {
        notice := Some(Notice("Failed to save fragrance", true));
        return;
      }
      if wasEditing.None? {
        var sent, completed := SeedSizes(saved.value, seedThrows);
        calls := calls + sent;
        if !completed {
          notice := Some(Notice("Failed to save fragrance", true));
          return;
        }
      }
      showForm, editing, form := false, None, EmptyForm;
      notice := Some(Notice(if wasEditing.Some? then "Fragrance updated successfully"
                            else "Fragrance created successfully", false));
    }
  }

  // ---------------------------------------------------------------------
  // Inline size edits
  // ---------------------------------------------------------------------

  /** The three inputs of a size row: burn time, price and stock. The price
      and stock inputs are number fields whose value is sent as a string:
      `None` is a value its column cannot store (an emptied field, which
      the input reports as "", or a fractional stock for the INTEGER
      column), `Some(v)` is one the column parses to `v` (price in pence). */
  datatype SizeEdit = BurnTime(burnTime: string) | Price(price: Option<int>) | Stock(stock: Option<int>)

  /** The edit's value can be stored in its column. */
  predicate Storable(edit: SizeEdit) {
    match edit
    case BurnTime(_) => true
    case Price(p) => p.Some?
    case Stock(q) => q.Some?
  }

  /** `{...size, [field]: value}` read as a PUT body: the size's own fields
      with the edited one replaced; a value its column cannot store leaves
      that column without a value the PUT can write. */
  function EditedBody(s: Size, edit: SizeEdit): (r: SizeBody)
    ensures NotNullsGiven(r) <==> Storable(edit)
    ensures r.sizeName == Some(s.sizeName) && r.sku == s.sku && r.isActive == s.isActive
    ensures r.burnTime == Some(if edit.BurnTime? then edit.burnTime else s.burnTime)
    ensures r.price == if edit.Price? then edit.price else Some(s.price)
    ensures r.stockQuantity == if edit.Stock? then edit.stock else Some(s.stockQuantity)
  {
    var body := SizeBody(Some(s.sizeName), Some(s.burnTime), Some(s.price), Some(s.stockQuantity),
                         s.sku, s.isActive);
    match edit
    case BurnTime(b) => body.(burnTime := Some(b))
    case Price(p) => body.(price := p)
    case Stock(q) => body.(stockQuantity := q)
  }

  predicate HasSize(v: FragranceView, sizeId: int) {
    exists m :: 0 <= m < |v.sizes| && v.sizes[m].id == sizeId
  }

  /** The first size with the id inside the first fragrance that has one
      (`fragrances.find(...)` then `sizes.find(...)`). */
  function FindSize(views: seq<FragranceView>, sizeId: int): (r: Option<Size>)
    ensures r.Some? ==> r.value.id == sizeId
    ensures r.Some? ==> exists k :: 0 <= k < |views| && r.value in views[k].sizes
    ensures r.Some? ==>
      exists k :: (0 <= k < |views| && r.value in views[k].sizes
                   && forall j :: 0 <= j < k ==> !HasSize(views[j], sizeId))
    ensures r.None? <==> forall k :: 0 <= k < |views| ==> !HasSize(views[k], sizeId)
  {
    if |views| == 0 then None
    else
      match IndexOf(views[0].sizes, SizeIdOf, sizeId)
      case Some(m) => Some(views[0].sizes[m])
      case None =>
        var rest := FindSize(views[1..], sizeId);
        assert forall k :: 1 <= k < |views| ==> views[1..][k - 1] == views[k];
        assert rest.Some? ==> exists k :: 0 <= k < |views| - 1 && rest.value in views[1..][k].sizes;
        assert rest.Some? ==>
          exists k :: (0 <= k < |views| && rest.value in views[k].sizes
                       && forall j :: 0 <= j < k ==> !HasSize(views[j], sizeId)) by {
          if rest.Some? {
            var k :| (0 <= k < |views| - 1 && rest.value in views[1..][k].sizes
                      && forall j :: 0 <= j < k ==> !HasSize(views[1..][j], sizeId));
            forall j | 1 <= j < k + 1 ensures !HasSize(views[j], sizeId) {
              assert views[j] == views[1..][j - 1];
            }
            assert rest.value in views[k + 1].sizes;
          }
        }
        rest
  }

  /** `handleUpdateSize`: the PUT for the edited size, or nothing when no
      loaded fragrance holds the size (the lookup throws and only a notice
      follows). */
  function UpdateSizeCall(views: seq<FragranceView>, sizeId: int, edit: SizeEdit): (r: Option<ApiCall>)
    ensures r.None? <==> forall k :: 0 <= k < |views| ==> !HasSize(views[k], sizeId)
    ensures r.Some? ==> r.value.verb == Put && r.value.endpoint == SizeById(sizeId)
    ensures r.Some? ==>
      exists k, m :: (0 <= k < |views| && 0 <= m < |views[k].sizes| && views[k].sizes[m].id == sizeId
                      && r.value.payload == SizeFields(EditedBody(views[k].sizes[m], edit)))
  {
    match FindSize(views, sizeId)
    case None => None
    case Some(s) => Some(ApiCall(Put, SizeById(sizeId), SizeFields(EditedBody(s, edit))))
  }

  /** Sent back to the size PUT, an edited body changes the edited field and
      `updated_at` of the stored row and nothing else, provided the page's
      copy of the size matches the stored row; a value the column cannot
      store fails the NOT NULL check of `UpdateSize`, which answers 500 and
      changes nothing. */
  lemma EditChangesOneField(s: Size, edit: SizeEdit, now: int)
    ensures !Storable(edit) ==> !NotNullsGiven(EditedBody(s, edit))
    ensures Storable(edit) ==>
      (NotNullsGiven(EditedBody(s, edit)) &&
       Overwritten(s, EditedBody(s, edit), now) ==
         match edit
         case BurnTime(b) => s.(burnTime := b, updatedAt := now)
         case Price(p) => s.(price := p.value, updatedAt := now)
         case Stock(q) => s.(stockQuantity := q.value, updatedAt := now))
  {
  }

  // ---------------------------------------------------------------------
  // Stock colour
  // ---------------------------------------------------------------------

  datatype StockColour = Red | Yellow | Plain

  /** `stock_quantity === 0 ? red : stock_quantity <= 5 ? yellow : ''`. */
  function StockColourOf(stock: int): (c: StockColour)
    ensures c == Red <==> stock == 0
    ensures c == Yellow <==> stock != 0 && stock <= 5
    ensures c == Plain <==> stock > 5
  {
    if stock == 0 then Red else if stock <= 5 then Yellow else Plain
  }
}
