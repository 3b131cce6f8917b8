/**
 * The parts of the `linedb` store format the archiver relies on: a file is
 * a sequence of named items, each a scalar or a table of typed rows. The
 * encoder's text layout, its comment lines and blank lines belong to the
 * `linedb` library, which is not part of this model; only the item and
 * row sequences the archiver emits and consumes are.
 *
 * Tables built from a Go map are emitted in ascending key order
 * (`addSortedMapKeyValue`, main.go:408-421; `writeJournalDB`,
 * main.go:490-513), and the readers fold the rows back into a map, a
 * later row overwriting an earlier one with the same key (main.go:467-475,
 * main.go:557-568).
 */
module StoreFormat {
  import opened Wrappers
  import opened Ordering

  datatype Field = IntField(i: int) | StrField(s: string)

  datatype Item =
    | Scalar(name: string, value: Field)
    | Table(name: string, rows: seq<seq<Field>>)

  /** The rows of a map in ascending key order, one row per entry. */
  ghost function SortedRows<K(!new), V(!new)>(m: map<K, V>, lt: (K, K) -> bool, enc: (K, V) -> seq<Field>)
    : (rows: seq<seq<Field>>)
    requires IsStrictTotalOrder(lt)
    ensures |rows| == |m|
  {
    RowsFor(m, SortedOf(m.Keys, lt), enc)
  }

  /** The rows of `m` for the given keys, in the order given. */
  function RowsFor<K(!new), V(!new)>(m: map<K, V>, keys: seq<K>, enc: (K, V) -> seq<Field>)
    : (rows: seq<seq<Field>>)
    requires forall k :: k in keys ==> k in m
    ensures |rows| == |keys|
    ensures forall i :: 0 <= i < |keys| ==> rows[i] == enc(keys[i], m[keys[i]])
  {
    seq(|keys|, i requires 0 <= i < |keys| => enc(keys[i], m[keys[i]]))
  }

  /**
   * Folds rows into a map as the readers' `for d.NextRow()` loops do: a
   * row the decoder `dec` accepts sets its key, a later row for the same
   * key overwrites an earlier one, and any other row leaves the map as it is.
   */
  function ApplyRows<K(!new), V(!new)>(acc: map<K, V>, rows: seq<seq<Field>>, dec: seq<Field> -> Option<(K, V)>)
    : map<K, V>
    decreases |rows|
  {
    if rows == [] then acc
    else
      ApplyRows(ApplyRow(acc, rows[0], dec), rows[1..], dec)
  }

  /** One step of the fold: the map after reading one row. */
  function ApplyRow<K(!new), V(!new)>(acc: map<K, V>, row: seq<Field>, dec: seq<Field> -> Option<(K, V)>)
    : (next: map<K, V>)
    ensures dec(row).Some? ==> next == acc[dec(row).value.0 := dec(row).value.1]
    ensures dec(row).None? ==> next == acc
  {
    match dec(row) case Some(kv) => acc[kv.0 := kv.1] case None => acc
  }

  /** Reading one more row applies it on top of what the earlier rows built. */
  lemma {:induction false} ApplyRowsSnoc<K(!new), V(!new)>(acc: map<K, V>, rows: seq<seq<Field>>, row: seq<Field>,
                                                          dec: seq<Field> -> Option<(K, V)>)
    ensures ApplyRows(acc, rows + [row], dec) == ApplyRow(ApplyRows(acc, rows, dec), row, dec)
    decreases |rows|
  {
    if rows == [] {
      assert [] + [row] == [row];
      assert [row][1..] == [];
    } else {
      assert (rows + [row])[0] == rows[0];
      assert (rows + [row])[1..] == rows[1..] + [row];
      ApplyRowsSnoc(ApplyRow(acc, rows[0], dec), rows[1..], row, dec);
    }
  }

  /**
   * A later row for a key wins: whatever the earlier rows held, a last
   * row the decoder reads as `(k, v)` leaves `k` mapped to `v`, and every
   * other key as the earlier rows left it.
   */
  lemma LaterRowWins<K(!new), V(!new)>(acc: map<K, V>, rows: seq<seq<Field>>, row: seq<Field>,
                                       dec: seq<Field> -> Option<(K, V)>)
    requires dec(row).Some?
    ensures var after := ApplyRows(acc, rows + [row], dec);
      && dec(row).value.0 in after && after[dec(row).value.0] == dec(row).value.1
      && forall k :: k != dec(row).value.0 ==> (k in after <==> k in ApplyRows(acc, rows, dec))
    ensures forall k :: k != dec(row).value.0 && k in ApplyRows(acc, rows, dec) ==>
      ApplyRows(acc, rows + [row], dec)[k] == ApplyRows(acc, rows, dec)[k]
  {
    ApplyRowsSnoc(acc, rows, row, dec);
  }

  /**
   * The readers' row loop (`for d.NextRow() { m[...] = ... }`), filling a
   * map in place.
   */
  method FoldRows<K(!new), V(!new)>(acc: map<K, V>, rows: seq<seq<Field>>, dec: seq<Field> -> Option<(K, V)>)
    returns (m: map<K, V>)
    ensures m == ApplyRows(acc, rows, dec)
  {
    m := acc;
    for i := 0 to |rows|
      invariant ApplyRows(m, rows[i..], dec) == ApplyRows(acc, rows, dec)
    {
      assert rows[i..][0] == rows[i] && rows[i..][1..] == rows[i + 1..];
      match dec(rows[i]) {
        case Some(kv) => m := m[kv.0 := kv.1];
        case None =>
      }
    }
    assert rows[|rows|..] == [];
  }

  /** `dec` reads back every row `enc` writes. */
  ghost predicate Inverse<K(!new), V(!new)>(enc: (K, V) -> seq<Field>, dec: seq<Field> -> Option<(K, V)>) {
    forall k, v :: dec(enc(k, v)) == Some((k, v))
  }

  /** The entries of `m` for the given keys. */
  ghost function Restrict<K(!new), V(!new)>(m: map<K, V>, keys: seq<K>): map<K, V>
    requires forall k :: k in keys ==> k in m
  {
    map k | k in keys :: m[k]
  }

  lemma RestrictCons<K(!new), V(!new)>(acc: map<K, V>, m: map<K, V>, keys: seq<K>)
    requires keys != [] && forall k :: k in keys ==> k in m
    ensures acc[keys[0] := m[keys[0]]] + Restrict(m, keys[1..]) == acc + Restrict(m, keys)
  {
    var lhs := acc[keys[0] := m[keys[0]]] + Restrict(m, keys[1..]);
    var rhs := acc + Restrict(m, keys);
    assert forall k :: k in keys <==> k == keys[0] || k in keys[1..];
    assert lhs.Keys == rhs.Keys;
    assert forall k | k in lhs :: lhs[k] == rhs[k];
  }

  lemma RestrictAll<K(!new), V(!new)>(m: map<K, V>, keys: seq<K>)
    requires forall k :: k in keys <==> k in m
    ensures Restrict(m, keys) == m
  {
    assert Restrict(m, keys).Keys == m.Keys;
  }

  lemma {:induction false} ApplyRowsFor<K(!new), V(!new)>(acc: map<K, V>, m: map<K, V>, keys: seq<K>,
                                                         enc: (K, V) -> seq<Field>, dec: seq<Field> -> Option<(K, V)>)
    requires Inverse(enc, dec)
    requires forall k :: k in keys ==> k in m
    ensures ApplyRows(acc, RowsFor(m, keys, enc), dec) == acc + Restrict(m, keys)
    decreases |keys|
  {
    var rows := RowsFor(m, keys, enc);
    if keys == [] {
      assert Restrict(m, keys) == map[];
    } else {
      var k0 := keys[0];
      assert dec(rows[0]) == Some((k0, m[k0]));
      assert rows[1..] == RowsFor(m, keys[1..], enc);
      ApplyRowsFor(acc[k0 := m[k0]], m, keys[1..], enc, dec);
      RestrictCons(acc, m, keys);
    }
  }

  /**
   * Round trip: reading back the sorted rows of a map, on top of any map
   * the reader starts from, adds exactly that map's entries.
   */
  lemma SortedRowsReadBack<K(!new), V(!new)>(acc: map<K, V>, m: map<K, V>, lt: (K, K) -> bool,
                                             enc: (K, V) -> seq<Field>, dec: seq<Field> -> Option<(K, V)>)
    requires IsStrictTotalOrder(lt) && Inverse(enc, dec)
    ensures ApplyRows(acc, SortedRows(m, lt, enc), dec) == acc + m
  {
    var keys := SortedOf(m.Keys, lt);
    ApplyRowsFor(acc, m, keys, enc, dec);
    RestrictAll(m, keys);
  }

  /**
   * The emitted rows are in strictly ascending key order, one for each
   * entry of the map, each carrying that entry.
   */
  lemma SortedRowsAscending<K(!new), V(!new)>(m: map<K, V>, lt: (K, K) -> bool, enc: (K, V) -> seq<Field>)
    requires IsStrictTotalOrder(lt)
    ensures var rows := SortedRows(m, lt, enc); var keys := SortedOf(m.Keys, lt);
      && |keys| == |rows| == |m|
      && StrictlySorted(keys, lt)
      && (forall k :: k in m <==> k in keys)
      && (forall i :: 0 <= i < |rows| ==> rows[i] == enc(keys[i], m[keys[i]]))
  {
  }

  /**
   * For rows that start with their integer key: the table has one row per
   * entry, in strictly ascending key order, each row carrying its entry.
   */
  lemma IntKeyedRowsAscending<V(!new)>(m: map<int, V>, enc: (int, V) -> seq<Field>)
    requires forall k, v :: |enc(k, v)| > 0 && enc(k, v)[0] == IntField(k)
    ensures IsStrictTotalOrder(IntLess)
    ensures var rows := SortedRows(m, IntLess, enc);
      && |rows| == |m|
      && (forall i :: 0 <= i < |rows| ==>
            rows[i][0].IntField? && rows[i][0].i in m && rows[i] == enc(rows[i][0].i, m[rows[i][0].i]))
      && (forall i, j :: 0 <= i < j < |rows| ==> rows[i][0].i < rows[j][0].i)
  {
    IntLessIsStrictTotalOrder();
    var keys := SortedOf(m.Keys, IntLess);
    var rows := SortedRows(m, IntLess, enc);
    assert forall i :: 0 <= i < |rows| ==> rows[i] == enc(keys[i], m[keys[i]]) && rows[i][0].i == keys[i];
  }

  /** Reading back the rows of an integer-keyed table into an empty map gives the map. */
  lemma IntKeyedRowsReadBack<V(!new)>(m: map<int, V>, enc: (int, V) -> seq<Field>, dec: seq<Field> -> Option<(int, V)>)
    requires Inverse(enc, dec)
    ensures IsStrictTotalOrder(IntLess)
    ensures ApplyRows(map[], SortedRows(m, IntLess, enc), dec) == m
  {
    IntLessIsStrictTotalOrder();
    SortedRowsReadBack(map[], m, IntLess, enc, dec);
    assert map[] + m == m;
  }

  /**
   * The loop that emits one row per key after sorting the keys
   * (`for _, key := range keys { e.Add...(...).EndRow() }`).
   */
  method EmitSortedRows<K(!new), V(!new)>(m: map<K, V>, lt: (K, K) -> bool, enc: (K, V) -> seq<Field>)
    returns (rows: seq<seq<Field>>)
    requires IsStrictTotalOrder(lt)
    ensures rows == SortedRows(m, lt, enc)
  {
    var keys := SortSet(m.Keys, lt);
    rows := EmitRows(m, keys, enc);
  }

  /** The body of that loop: one row per key, in the order of `keys`. */
  method EmitRows<K(!new), V(!new)>(m: map<K, V>, keys: seq<K>, enc: (K, V) -> seq<Field>)
    returns (rows: seq<seq<Field>>)
    requires forall k :: k in keys ==> k in m
    ensures rows == RowsFor(m, keys, enc)
  {
    rows := [];
    for i := 0 to |keys|
      invariant |rows| == i
      invariant forall j :: 0 <= j < i ==> rows[j] == enc(keys[j], m[keys[j]])
    {
      rows := rows + [enc(keys[i], m[keys[i]])];
    }
  }

  /** A string table row: key, value. */
  function StringRow(k: string, v: string): seq<Field> {
    [StrField(k), StrField(v)]
  }

  /** Reads a string table row, `m[d.GetString()] = d.GetString()`. */
  function ReadStringRow(row: seq<Field>): (r: Option<(string, string)>)
    ensures r.Some? ==> row == StringRow(r.value.0, r.value.1)
  {
    if |row| == 2 && row[0].StrField? && row[1].StrField? then Some((row[0].s, row[1].s)) else None
  }

  lemma StringRowInverse()
    ensures Inverse(StringRow, ReadStringRow)
  {
  }

  /** The table `addSortedMapKeyValue` emits for a string map. */
  ghost function StringTable(tableName: string, m: map<string, string>): Item {
    StrLessIsStrictTotalOrder();
    Table(tableName, SortedRows(m, StrLess, StringRow))
  }

  /**
   * `addSortedMapKeyValue`: a table named `tableName` with one
   * (key, value) row per map entry, keys in ascending string order.
   */
  method AddSortedMapKeyValue(tableName: string, m: map<string, string>) returns (item: Item)
    ensures item == StringTable(tableName, m)
    ensures item.Table? && item.name == tableName && |item.rows| == |m|
  {
    StrLessIsStrictTotalOrder();
    var rows := EmitSortedRows(m, StrLess, StringRow);
    item := Table(tableName, rows);
  }

  /** A string table reads back as the map it was made from. */
  lemma StringTableReadBack(tableName: string, acc: map<string, string>, m: map<string, string>)
    ensures ApplyRows(acc, StringTable(tableName, m).rows, ReadStringRow) == acc + m
  {
    StrLessIsStrictTotalOrder();
    StringRowInverse();
    SortedRowsReadBack(acc, m, StrLess, StringRow, ReadStringRow);
  }
}
