/**
 * A flattened table (a pandas DataFrame as the core uses it): column names
 * and rows of string values, and the `TableName` discriminator column that
 * the cache path inserts at position 0 (classes/data_wrangler.py, line 319).
 */
module Tables {

  datatype Table = Table(columns: seq<string>, rows: seq<seq<string>>)

  /** Every row has one value per column. */
  predicate WellFormed(t: Table)
  {
    forall r :: 0 <= r < |t.rows| ==> |t.rows[r]| == |t.columns|
  }

  const TableNameColumn: string := "TableName"

  /**
   * `DataFrame.insert(0, 'TableName', key)` when the frame has no such column
   * yet: a new first column named `TableName` whose value is `key` on every
   * row, with every other column and value kept in place.
   */
  function WithTableName(t: Table, key: string): (r: Table)
    ensures |r.columns| == |t.columns| + 1
    ensures r.columns[0] == TableNameColumn && r.columns[1..] == t.columns
    ensures |r.rows| == |t.rows|
    ensures forall i :: 0 <= i < |r.rows| ==> |r.rows[i]| == |t.rows[i]| + 1
    ensures forall i :: 0 <= i < |r.rows| ==> r.rows[i][0] == key && r.rows[i][1..] == t.rows[i]
    ensures WellFormed(t) ==> WellFormed(r)
  {
    Table([TableNameColumn] + t.columns, seq(|t.rows|, i requires 0 <= i < |t.rows| => [key] + t.rows[i]))
  }

  /** Dropping the first column of every row. */
  function WithoutFirstColumn(t: Table): Table
    requires |t.columns| >= 1 && forall i :: 0 <= i < |t.rows| ==> |t.rows[i]| >= 1
  {
    Table(t.columns[1..], seq(|t.rows|, i requires 0 <= i < |t.rows| => t.rows[i][1..]))
  }

  /** Inserting the discriminator loses nothing: dropping it again gives the original table. */
  lemma {:induction false} TableNameRemovable(t: Table, key: string)
    ensures WithoutFirstColumn(WithTableName(t, key)) == t
  {
    var r := WithTableName(t, key);
    var back := WithoutFirstColumn(r);
    assert back.rows == t.rows;
  }

}

/**
 * Python's `dict[str, DataFrame]`: keys in insertion order, one value per key.
 * Storing under a key already present keeps the key's position and replaces
 * its value; storing under a new key appends it.
 */
module OrderedDicts {
  import opened Wrappers
  import opened Tables
  import Sequences

  datatype OrderedDict = OrderedDict(keys: seq<string>, values: seq<Table>)
  {
    /** One value per key, and no key twice. */
    predicate Valid()
    {
      && |keys| == |values|
      && forall i, j :: 0 <= i < j < |keys| ==> keys[i] != keys[j]
    }

    /** `d.get(k)`. */
    function Get(k: string): Option<Table>
      requires Valid()
    {
      if k in keys then Some(values[Sequences.IndexOf(keys, k)]) else None
    }

    /** `d[k] = v`. */
    function Put(k: string, v: Table): (r: OrderedDict)
      requires Valid()
      ensures r.Valid()
      ensures r.keys == if k in keys then keys else keys + [k]
      ensures forall p :: 0 <= p < |r.keys| ==> r.values[p] == if r.keys[p] == k then v else values[p]
    {
      if k in keys then
        var i := Sequences.IndexOf(keys, k);
        OrderedDict(keys, values[i := v])
      else
        OrderedDict(keys + [k], values + [v])
    }
  }

  const Empty: OrderedDict := OrderedDict([], [])

  lemma {:induction false} PositionOfKey(d: OrderedDict, p: nat)
    requires d.Valid() && p < |d.keys|
    ensures Sequences.IndexOf(d.keys, d.keys[p]) == p
  {
  }

  /** After `d[k] = v`, looking up `k` gives `v` and every other key gives what it gave before. */
  lemma {:induction false} PutGet(d: OrderedDict, k: string, v: Table, k': string)
    requires d.Valid()
    ensures d.Put(k, v).Get(k') == if k' == k then Some(v) else d.Get(k')
  {
    var r := d.Put(k, v);
    if k' in r.keys {
      var p := Sequences.IndexOf(r.keys, k');
      PositionOfKey(r, p);
      if k' != k {
        assert k' in d.keys;
        PositionOfKey(d, p);
      }
    }
  }

}
