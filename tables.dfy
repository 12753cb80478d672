/** Shared vocabulary for the in-memory model of the shop's PostgreSQL tables:
    optional values, HTTP-style replies, primary-key lookups, WHERE filters and
    ORDER BY clauses. A table is a sequence of rows in insertion order; every
    row type has an integer `id` reached through a named key function. */
module Tables {

  datatype Option<T> = None | Some(value: T)

  /** What a route handler sends back: a status code with a row (or other
      payload), or a status code with the `error` message of the JSON body. */
  datatype Reply<T> = Ok(status: int, value: T) | Err(status: int, message: string)

  // ---------------------------------------------------------------------
  // Primary keys
  // ---------------------------------------------------------------------

  /** No two rows share a key (PRIMARY KEY, UNIQUE). */
  predicate UniqueKeys<T>(rows: seq<T>, key: T -> int) {
    forall i, j :: 0 <= i < j < |rows| ==> key(rows[i]) != key(rows[j])
  }

  /** Every key lies in [0, bound): the SERIAL counter has passed every row. */
  predicate KeysBelow<T>(rows: seq<T>, key: T -> int, bound: int) {
    forall i :: 0 <= i < |rows| ==> 0 <= key(rows[i]) < bound
  }

  lemma KeysBelowRaise<T>(rows: seq<T>, key: T -> int, bound: int, bound': int)
    requires KeysBelow(rows, key, bound) && bound <= bound'
    ensures KeysBelow(rows, key, bound')
  {
  }

  predicate HasKey<T>(rows: seq<T>, key: T -> int, k: int) {
    exists i :: 0 <= i < |rows| && key(rows[i]) == k
  }

  lemma HasKeyAppend<T>(rows: seq<T>, key: T -> int, k: int, x: T)
    requires HasKey(rows, key, k)
    ensures HasKey(rows + [x], key, k)
  {
    var i :| 0 <= i < |rows| && key(rows[i]) == k;
    assert (rows + [x])[i] == rows[i];
  }

  /** Position of the first row whose key is `k` (`WHERE id = $1`). */
  function IndexOf<T>(rows: seq<T>, key: T -> int, k: int): (r: Option<nat>)
    ensures r.Some? ==> r.value < |rows| && key(rows[r.value]) == k
    ensures r.Some? ==> forall i :: 0 <= i < r.value ==> key(rows[i]) != k
    ensures r.None? <==> forall i :: 0 <= i < |rows| ==> key(rows[i]) != k
  {
    if |rows| == 0 then None
    else if key(rows[0]) == k then Some(0)
    else
      match IndexOf(rows[1..], key, k)
      case None => None
      case Some(i) => Some(i + 1)
  }

  /** With unique keys the row found is the only one carrying that key. */
  lemma IndexOfUnique<T>(rows: seq<T>, key: T -> int, k: int, j: nat)
    requires UniqueKeys(rows, key)
    requires j < |rows| && key(rows[j]) == k
    ensures IndexOf(rows, key, k) == Some(j)
  {
  }

  /** Inserting a row whose key is the current SERIAL value keeps both key
      invariants, with the counter moved past it. */
  lemma AppendFresh<T>(rows: seq<T>, key: T -> int, bound: int, x: T, bound': int)
    requires UniqueKeys(rows, key) && KeysBelow(rows, key, bound)
    requires 0 <= bound && key(x) == bound && bound < bound'
    ensures UniqueKeys(rows + [x], key) && KeysBelow(rows + [x], key, bound')
  {
    var s := rows + [x];
    assert forall m :: 0 <= m < |rows| ==> s[m] == rows[m];
    forall i, j | 0 <= i < j < |s| ensures key(s[i]) != key(s[j]) {
      if j < |rows| {
        assert s[i] == rows[i] && s[j] == rows[j];
      } else {
        assert s[i] == rows[i];
      }
    }
  }

  /** Overwriting a row without touching its key keeps both key invariants. */
  lemma OverwriteKeepsKeys<T>(rows: seq<T>, key: T -> int, bound: int, i: nat, x: T)
    requires UniqueKeys(rows, key) && KeysBelow(rows, key, bound)
    requires i < |rows| && key(x) == key(rows[i])
    ensures UniqueKeys(rows[i := x], key) && KeysBelow(rows[i := x], key, bound)
  {
    var s := rows[i := x];
    assert forall m :: 0 <= m < |s| ==> key(s[m]) == key(rows[m]);
  }

  /** The table with row `i` physically removed (`DELETE ... WHERE id = $1`). */
  function Without<T>(rows: seq<T>, i: nat): (r: seq<T>)
    requires i < |rows|
    ensures |r| == |rows| - 1
    ensures forall m :: 0 <= m < i ==> r[m] == rows[m]
    ensures forall m :: i <= m < |r| ==> r[m] == rows[m + 1]
  {
    rows[..i] + rows[i + 1..]
  }

  lemma WithoutKeepsKeys<T>(rows: seq<T>, key: T -> int, bound: int, i: nat)
    requires UniqueKeys(rows, key) && KeysBelow(rows, key, bound)
    requires i < |rows|
    ensures UniqueKeys(Without(rows, i), key) && KeysBelow(Without(rows, i), key, bound)
    ensures !HasKey(Without(rows, i), key, key(rows[i]))
  {
    var s := Without(rows, i);
    forall a, b | 0 <= a < b < |s| ensures key(s[a]) != key(s[b]) {
      var a' := if a < i then a else a + 1;
      var b' := if b < i then b else b + 1;
      assert s[a] == rows[a'] && s[b] == rows[b'] && a' < b';
    }
    forall m | 0 <= m < |s| ensures key(s[m]) != key(rows[i]) {
      var m' := if m < i then m else m + 1;
      assert s[m] == rows[m'] && m' != i;
    }
  }

  // ---------------------------------------------------------------------
  // WHERE filters
  // ---------------------------------------------------------------------

  /** The rows satisfying `p`, in table order. */
  function Filter<T>(s: seq<T>, p: T -> bool): (r: seq<T>)
    ensures |r| <= |s|
    ensures forall i :: 0 <= i < |r| ==> r[i] in s && p(r[i])
    ensures forall i :: 0 <= i < |s| && p(s[i]) ==> s[i] in r
    ensures multiset(r) <= multiset(s)
  {
    if |s| == 0 then []
    else
      assert s == [s[0]] + s[1..];
      if p(s[0]) then [s[0]] + Filter(s[1..], p)
    else Filter(s[1..], p)
  }

  // ---------------------------------------------------------------------
  // ORDER BY
  // ---------------------------------------------------------------------

  /** Non-decreasing in `key`: `ORDER BY key ASC`; a negated key gives DESC. */
  predicate SortedBy<T>(s: seq<T>, key: T -> int) {
    forall i, j :: 0 <= i < j < |s| ==> key(s[i]) <= key(s[j])
  }

  function InsertBy<T>(x: T, s: seq<T>, key: T -> int): (r: seq<T>)
    requires SortedBy(s, key)
    ensures SortedBy(r, key)
    ensures multiset(r) == multiset(s) + multiset{x}
  {
    if |s| == 0 then [x]
    else if key(x) <= key(s[0]) then [x] + s
    else
      var t := InsertBy(x, s[1..], key);
      assert s == [s[0]] + s[1..];
      assert forall i :: 0 <= i < |t| ==> key(s[0]) <= key(t[i]) by {
        forall i | 0 <= i < |t| ensures key(s[0]) <= key(t[i]) {
          assert t[i] in multiset(t);
          assert t[i] == x || t[i] in multiset(s[1..]);
        }
      }
      [s[0]] + t
  }

  /** The rows in `key` order; which of two equal-key rows comes first is
      not fixed, as SQL does not fix it. */
  function SortBy<T>(s: seq<T>, key: T -> int): (r: seq<T>)
    ensures SortedBy(r, key)
    ensures multiset(r) == multiset(s)
    ensures |r| == |s|
  {
    if |s| == 0 then []
    else
      assert s == [s[0]] + s[1..];
      InsertBy(s[0], SortBy(s[1..], key), key)
  }

  /** A sorted listing contains exactly the rows it was made from. */
  lemma SortByMembers<T>(s: seq<T>, key: T -> int, x: T)
    ensures x in SortBy(s, key) <==> x in s
  {
    assert x in SortBy(s, key) <==> x in multiset(SortBy(s, key));
  }
}
