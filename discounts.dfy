/** The `discount_codes` table and the routes of
    candle-shop-backend/routes/discounts.js. Codes are unique and stored
    upper-cased; `discount_value` is in hundredths; `is_active` is a nullable
    column (an update whose body leaves it out stores NULL); an absent or
    empty `expires_at` is NULL, meaning "never expires". */
module Discounts {
  import opened Tables
  import opened Text

  datatype DiscountCode = DiscountCode(
    id: int,
    code: string,
    discountType: string,
    discountValue: int,
    isActive: Option<bool>,
    expiresAt: Option<int>,
    createdAt: int)

  function DiscountIdOf(d: DiscountCode): int { d.id }
  function DiscountNewestFirst(d: DiscountCode): int { -d.createdAt }

  /** The WHERE clause of `validate`: `code = $1 AND is_active = true AND
      (expires_at IS NULL OR expires_at > NOW())`. A NULL `is_active` is not
      true. */
  predicate Applicable(d: DiscountCode, code: string, now: int) {
    && d.code == code
    && d.isActive == Some(true)
    && (d.expiresAt.None? || d.expiresAt.value > now)
  }

  /** `code` is UNIQUE. */
  predicate CodesUnique(rows: seq<DiscountCode>) {
    forall i, j :: 0 <= i < j < |rows| ==> rows[i].code != rows[j].code
  }

  predicate AllUpperCase(rows: seq<DiscountCode>) {
    forall i :: 0 <= i < |rows| ==> IsUpperCase(rows[i].code)
  }

  predicate HasCode(rows: seq<DiscountCode>, code: string) {
    exists i :: 0 <= i < |rows| && rows[i].code == code
  }

  /** The first row satisfying the WHERE clause of `validate`. */
  function FirstApplicable(rows: seq<DiscountCode>, code: string, now: int): (r: Option<nat>)
    ensures r.Some? ==> r.value < |rows| && Applicable(rows[r.value], code, now)
    ensures r.None? <==> forall i :: 0 <= i < |rows| ==> !Applicable(rows[i], code, now)
  {
    if |rows| == 0 then None
    else if Applicable(rows[0], code, now) then Some(0)
    else
      match FirstApplicable(rows[1..], code, now)
      case None => None
      case Some(i) => Some(i + 1)
  }

  /** POST `/validate`: the row whose code is the input upper-cased, when it
      is active and unexpired; 404 otherwise. A body without `code` makes
      `toUpperCase` throw, which the handler answers with 500. */
  function Validate(rows: seq<DiscountCode>, code: Option<string>, now: int): (r: Reply<DiscountCode>)
    ensures code.None? ==> r == Err(500, "Failed to validate discount code")
    ensures code.Some? ==>
      (r.Ok? <==> exists i :: 0 <= i < |rows| && Applicable(rows[i], ToUpper(code.value), now))
    ensures r.Ok? ==>
      (r.status == 200 && r.value in rows && Applicable(r.value, ToUpper(code.value), now))
    ensures code.Some? && r.Err? ==> r == Err(404, "Invalid or expired discount code")
  {
    match code
    case None => Err(500, "Failed to validate discount code")
    case Some(c) =>
      match FirstApplicable(rows, ToUpper(c), now)
      case None => Err(404, "Invalid or expired discount code")
      case Some(i) => Ok(200, rows[i])
  }

  /** With unique codes the row `validate` answers with is the one carrying
      the upper-cased code. */
  lemma ValidateFindsTheCode(rows: seq<DiscountCode>, c: string, now: int, j: nat)
    requires CodesUnique(rows)
    requires j < |rows| && rows[j].code == ToUpper(c)
    ensures Validate(rows, Some(c), now) ==
      if Applicable(rows[j], ToUpper(c), now) then Ok(200, rows[j])
      else Err(404, "Invalid or expired discount code")
  {
    var r := Validate(rows, Some(c), now);
    if r.Ok? {
      var i :| 0 <= i < |rows| && rows[i] == r.value;
      assert rows[i].code == rows[j].code;
    }
  }

  /** `validate` does not care about the case of its input: the input and
      its upper-cased form give the same answer. */
  lemma ValidateIgnoresCase(rows: seq<DiscountCode>, c: string, now: int)
    ensures Validate(rows, Some(ToUpper(c)), now) == Validate(rows, Some(c), now)
  {
    ToUpperIsUpper(c);
  }

  lemma ValidateWelcome(rows: seq<DiscountCode>, now: int)
    ensures Validate(rows, Some("welcome10"), now) == Validate(rows, Some("WELCOME10"), now)
  {
    assert ToUpper("welcome10") == "WELCOME10";
    ValidateIgnoresCase(rows, "welcome10", now);
  }

  /** A code just created (active, unexpired) is accepted by `validate` in
      any letter case. */
  lemma CreatedCodeValidates(rows: seq<DiscountCode>, d: DiscountCode, c: string, now: int)
    requires CodesUnique(rows + [d])
    requires d.code == ToUpper(c) && d.isActive == Some(true)
    requires d.expiresAt.None? || d.expiresAt.value > now
    ensures Validate(rows + [d], Some(c), now) == Ok(200, d)
  {
    ValidateFindsTheCode(rows + [d], c, now, |rows|);
  }

  /** After DELETE no input validates to the removed code. */
  lemma DeletedCodeRejected(rows: seq<DiscountCode>, i: nat, c: string, now: int)
    requires CodesUnique(rows) && i < |rows|
    requires ToUpper(c) == rows[i].code
    ensures Validate(Without(rows, i), Some(c), now) == Err(404, "Invalid or expired discount code")
  {
    var s := Without(rows, i);
    forall m | 0 <= m < |s| ensures s[m].code != rows[i].code {
      var m' := if m < i then m else m + 1;
      assert s[m] == rows[m'] && m' != i;
    }
  }

  /** GET `/`: every code, active or not, newest first. */
  function ListCodes(rows: seq<DiscountCode>): (r: seq<DiscountCode>)
    ensures SortedBy(r, DiscountNewestFirst)
    ensures multiset(r) == multiset(rows)
  {
    SortBy(rows, DiscountNewestFirst)
  }

  class DiscountTable {
    var rows: seq<DiscountCode>
    var nextId: int

    ghost predicate Valid()
      reads this
    {
      && 0 <= nextId
      && UniqueKeys(rows, DiscountIdOf) && KeysBelow(rows, DiscountIdOf, nextId)
      && CodesUnique(rows)
      && AllUpperCase(rows)
    }

    constructor ()
      ensures Valid() && rows == [] && nextId == 1
    {
      rows := [];
      nextId := 1;
    }

    /** POST `/`. The code is upper-cased before the INSERT (a missing code
        throws there, 500); `is_active` takes its default, true; a missing type
        or value violates NOT NULL (500); an existing code violates UNIQUE
        (400). Once the INSERT runs its SERIAL value is drawn, whatever the
        outcome. */
    method Create(code: Option<string>, discountType: Option<string>, discountValue: Option<int>,
                  expiresAt: Option<int>, now: int) returns (r: Reply<DiscountCode>)
      requires Valid()
      modifies this
      ensures Valid()
      ensures code.None? ==>
        r == Err(500, "Failed to create discount code") && rows == old(rows) && nextId == old(nextId)
      ensures code.Some? ==> nextId == old(nextId) + 1
      ensures code.Some? && (discountType.None? || discountValue.None?) ==>
        r == Err(500, "Failed to create discount code") && rows == old(rows)
      ensures code.Some? && discountType.Some? && discountValue.Some? ==>
        if HasCode(old(rows), ToUpper(code.value)) then
          r == Err(400, "Discount code already exists") && rows == old(rows)
        else
          && r == Ok(201, DiscountCode(old(nextId), ToUpper(code.value), discountType.value,
                                       discountValue.value, Some(true), expiresAt, now))
          && rows == old(rows) + [r.value]
    {
      if code.None? {
        r := Err(500, "Failed to create discount code");
        return;
      }
      var upper := ToUpper(code.value);
      var id := nextId;
      nextId := nextId + 1;
      if discountType.None? || discountValue.None? {
        r := Err(500, "Failed to create discount code");
        return;
      }
      if HasCode(rows, upper) {
        r := Err(400, "Discount code already exists");
        return;
      }
      var d := DiscountCode(id, upper, discountType.value, discountValue.value, Some(true), expiresAt, now);
      AppendFresh(rows, DiscountIdOf, id, d, nextId);
      ToUpperIsUpper(code.value);
      var after := rows + [d];
      assert forall m :: 0 <= m < |rows| ==> after[m] == rows[m];
      rows := after;
      r := Ok(201, d);
    }

    /** PUT `/:id`: code (upper-cased), type, value, active flag and expiry of
        that row are overwritten. A missing code throws before the query
        (500); no row with the id is 404; a missing type or value violates NOT
        NULL and a code held by another row violates UNIQUE, and both are
        answered with 500. */
    method Update(id: int, code: Option<string>, discountType: Option<string>,
                  discountValue: Option<int>, isActive: Option<bool>, expiresAt: Option<int>)
      returns (r: Reply<DiscountCode>)
      requires Valid()
      modifies this
      ensures Valid() && nextId == old(nextId)
      ensures code.None? ==> r == Err(500, "Failed to update discount code") && rows == old(rows)
      ensures code.Some? ==>
        match IndexOf(old(rows), DiscountIdOf, id)
        case None => r == Err(404, "Discount code not found") && rows == old(rows)
        case Some(i) =>
          if discountType.None? || discountValue.None?
             || exists j :: 0 <= j < |old(rows)| && j != i && old(rows)[j].code == ToUpper(code.value)
          then r == Err(500, "Failed to update discount code") && rows == old(rows)
          else
            && rows == old(rows)[i := old(rows)[i].(code := ToUpper(code.value),
                 discountType := discountType.value, discountValue := discountValue.value,
                 isActive := isActive, expiresAt := expiresAt)]
            && r == Ok(200, rows[i])
    {
      if code.None? {
        r := Err(500, "Failed to update discount code");
        return;
      }
      var upper := ToUpper(code.value);
      match IndexOf(rows, DiscountIdOf, id)
      case None =>
        r := Err(404, "Discount code not found");
      case Some(i) =>
        if discountType.None? || discountValue.None?
           || exists j :: 0 <= j < |rows| && j != i && rows[j].code == upper {
          r := Err(500, "Failed to update discount code");
        } else {
          var d := rows[i].(code := upper, discountType := discountType.value,
                            discountValue := discountValue.value, isActive := isActive,
                            expiresAt := expiresAt);
          OverwriteKeepsKeys(rows, DiscountIdOf, nextId, i, d);
          ToUpperIsUpper(code.value);
          rows := rows[i := d];
          r := Ok(200, d);
        }
    }

    /** DELETE `/:id`: the row is physically removed; 404 when absent. */
    method Delete(id: int) returns (r: Reply<string>)
      requires Valid()
      modifies this
      ensures Valid() && nextId == old(nextId)
      ensures match IndexOf(old(rows), DiscountIdOf, id)
        case None => r == Err(404, "Discount code not found") && rows == old(rows)
        case Some(i) =>
          && rows == Without(old(rows), i)
          && !HasKey(rows, DiscountIdOf, id)
          && r == Ok(200, "Discount code deleted successfully")
    {
      match IndexOf(rows, DiscountIdOf, id)
      case None =>
        r := Err(404, "Discount code not found");
      case Some(i) =>
        WithoutKeepsKeys(rows, DiscountIdOf, nextId, i);
        var s := Without(rows, i);
        forall a, b | 0 <= a < b < |s| ensures s[a].code != s[b].code {
          var a' := if a < i then a else a + 1;
          var b' := if b < i then b else b + 1;
          assert s[a] == rows[a'] && s[b] == rows[b'] && a' < b';
        }
        rows := s;
        r := Ok(200, "Discount code deleted successfully");
    }
  }
}
