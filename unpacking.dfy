/**
 * What `unpack_data` computes (classes/data_wrangler.py, lines 200-263),
 * apart from the object state it updates: the outcome of reading the file,
 * the required-column check, and the dictionary of tables built from the
 * `(tableName, data)` records.
 *
 * pandas' `json_normalize` and `DataFrame(...)` are the parameters
 * `normalize` and `construct`: each either gives a table or raised (None).
 */
module Unpacking {
  import opened Wrappers
  import opened Tables
  import opened OrderedDicts

  /** One row of the frame `read_json` returns: a table name and its nested payload. */
  datatype RawRecord<D> = RawRecord(tableName: string, data: D)

  /**
   * What `pd.read_json(self.path)` (line 174) gives: the file is missing
   * (FileNotFoundError), the text is not JSON (ValueError), reading failed in
   * another way (any other exception), or a frame with its column names and rows.
   */
  datatype ReadOutcome<D> =
    | FileNotFound
    | InvalidJson
    | ReadFailed
    | Frame(columns: seq<string>, records: seq<RawRecord<D>>)

  /** Lines 205-210: the frame must have both a `tableName` and a `data` column. */
  predicate HasRequiredColumns(columns: seq<string>)
  {
    "tableName" in columns && "data" in columns
  }

  /** Lines 220-230: the normaliser's table, else the fallback's table, else nothing (the table is skipped). */
  function Convert<D>(data: D, normalize: D -> Option<Table>, construct: D -> Option<Table>): Option<Table>
  {
    if normalize(data).Some? then normalize(data) else construct(data)
  }

  /** A record after conversion: its name and the table it gave, if any. */
  datatype Attempt = Attempt(tableName: string, table: Option<Table>)

  function Attempts<D>(records: seq<RawRecord<D>>, normalize: D -> Option<Table>, construct: D -> Option<Table>): seq<Attempt>
  {
    seq(|records|, i requires 0 <= i < |records| =>
      Attempt(records[i].tableName, Convert(records[i].data, normalize, construct)))
  }

  /** Lines 213-232: `fda_tables[table_name] = new_df` for every converted record, in input order. */
  function Collect(attempts: seq<Attempt>): (d: OrderedDict)
    ensures d.Valid()
  {
    if attempts == [] then Empty
    else
      var prev := Collect(attempts[..|attempts| - 1]);
      var last := attempts[|attempts| - 1];
      if last.table.Some? then prev.Put(last.tableName, last.table.value) else prev
  }

  /** Converting one more record stores its table, if it has one, under its name. */
  lemma {:induction false} CollectStep<D>(records: seq<RawRecord<D>>, normalize: D -> Option<Table>, construct: D -> Option<Table>, i: nat)
    requires i < |records|
    ensures var a := Attempts(records, normalize, construct);
      var table := Convert(records[i].data, normalize, construct);
      Collect(a[..i + 1]) == if table.Some? then Collect(a[..i]).Put(records[i].tableName, table.value) else Collect(a[..i])
  {
    var a := Attempts(records, normalize, construct);
    assert a[..i + 1][..i] == a[..i];
  }

  /** Some record named `k` was converted. */
  ghost predicate StoredSomewhere(a: seq<Attempt>, k: string)
  {
    exists i :: 0 <= i < |a| && a[i].tableName == k && a[i].table.Some?
  }

  /** Record `i` is the first converted record named `k`. */
  ghost predicate FirstStored(a: seq<Attempt>, i: int, k: string)
  {
    && 0 <= i < |a| && a[i].tableName == k && a[i].table.Some?
    && forall j :: 0 <= j < i && a[j].tableName == k ==> a[j].table.None?
  }

  /** Record `i` is the last converted record named `k`. */
  ghost predicate LastStored(a: seq<Attempt>, i: int, k: string)
  {
    && 0 <= i < |a| && a[i].tableName == k && a[i].table.Some?
    && forall j :: i < j < |a| && a[j].tableName == k ==> a[j].table.None?
  }

  /** The dictionary's keys are exactly the names of the converted records. */
  lemma {:induction false} CollectKeys(a: seq<Attempt>)
    ensures forall k :: k in Collect(a).keys <==> StoredSomewhere(a, k)
  {
    if a != [] {
      var n := |a|;
      var init := a[..n - 1];
      CollectKeys(init);
      forall k
        ensures k in Collect(a).keys <==> StoredSomewhere(a, k)
      {
        if StoredSomewhere(init, k) {
          var i :| 0 <= i < |init| && init[i].tableName == k && init[i].table.Some?;
          assert a[i] == init[i];
        }
        if StoredSomewhere(a, k) {
          var i :| 0 <= i < n && a[i].tableName == k && a[i].table.Some?;
          if i < n - 1 {
            assert init[i] == a[i];
          }
        }
      }
    }
  }

  /** A repeated name holds the table of its last converted record. */
  lemma {:induction false} CollectValues(a: seq<Attempt>)
    ensures forall p :: 0 <= p < |Collect(a).keys| ==>
      exists i :: LastStored(a, i, Collect(a).keys[p]) && a[i].table == Some(Collect(a).values[p])
  {
    if a == [] {
      assert Collect(a).keys == [];
    } else {
      var n := |a|;
      var init := a[..n - 1];
      var prev := Collect(init);
      var last := a[n - 1];
      var d := Collect(a);
      CollectValues(init);
      forall p | 0 <= p < |d.keys|
        ensures exists i :: LastStored(a, i, d.keys[p]) && a[i].table == Some(d.values[p])
      {
        var k := d.keys[p];
        if last.table.Some? && last.tableName == k {
          assert d.values[p] == last.table.value;
          assert LastStored(a, n - 1, k) && a[n - 1].table == Some(d.values[p]);
        } else {
          assert p < |prev.keys| && prev.keys[p] == k && d.values[p] == prev.values[p];
          var i :| LastStored(init, i, k) && init[i].table == Some(prev.values[p]);
          assert a[i] == init[i];
          forall j | i < j < n && a[j].tableName == k
            ensures a[j].table.None?
          {
            if j < n - 1 {
              assert a[j] == init[j];
            }
          }
          assert LastStored(a, i, k) && a[i].table == Some(d.values[p]);
        }
      }
    }
  }

  lemma {:induction false} FirstStoredInPrefix(a: seq<Attempt>, i: int, k: string)
    requires a != [] && FirstStored(a, i, k) && StoredSomewhere(a[..|a| - 1], k)
    ensures i < |a| - 1 && FirstStored(a[..|a| - 1], i, k)
  {
    var init := a[..|a| - 1];
    var i0 :| 0 <= i0 < |init| && init[i0].tableName == k && init[i0].table.Some?;
    assert a[i0] == init[i0];
  }

  /** Keys stand in the order in which their names were first converted. */
  lemma {:induction false} CollectOrder(a: seq<Attempt>)
    ensures forall p, q, i, j ::
      && 0 <= p < q < |Collect(a).keys|
      && FirstStored(a, i, Collect(a).keys[p])
      && FirstStored(a, j, Collect(a).keys[q])
      ==> i < j
  {
    if a != [] {
      var n := |a|;
      var init := a[..n - 1];
      var prev := Collect(init);
      var d := Collect(a);
      CollectOrder(init);
      CollectKeys(init);
      forall p, q, i, j |
        && 0 <= p < q < |d.keys|
        && FirstStored(a, i, d.keys[p])
        && FirstStored(a, j, d.keys[q])
        ensures i < j
      {
        assert p < |prev.keys| && prev.keys[p] == d.keys[p];
        FirstStoredInPrefix(a, i, d.keys[p]);
        if q < |prev.keys| {
          assert prev.keys[q] == d.keys[q];
          FirstStoredInPrefix(a, j, d.keys[q]);
        } else {
          assert d.keys[q] !in prev.keys;
        }
      }
    }
  }

  /** When every record converts and no name repeats, the keys and tables are the records', in input order. */
  lemma {:induction false} CollectDistinctRecords(a: seq<Attempt>)
    requires forall i :: 0 <= i < |a| ==> a[i].table.Some?
    requires forall i, j :: 0 <= i < j < |a| ==> a[i].tableName != a[j].tableName
    ensures |Collect(a).keys| == |a|
    ensures forall i :: 0 <= i < |a| ==> Collect(a).keys[i] == a[i].tableName && Collect(a).values[i] == a[i].table.value
  {
    if a != [] {
      var n := |a|;
      var init := a[..n - 1];
      CollectDistinctRecords(init);
    }
  }

  /** How `unpack_data` ends (lines 235-263). */
  datatype UnpackOutcome =
    | Missing         // FileNotFoundError handler: the flag is set to 0
    | DataError       // ValueError handler: nothing changes
    | Unexpected      // generic handler: the flag is set to 0
    | NothingStored   // no table survived: return before any attribute is set
    | Stored(tables: OrderedDict)

  /**
   * The outcome of `unpack_data` with the required-column check as the tests
   * expect it: the columns of the frame that was read.
   */
  function Unpack<D>(src: ReadOutcome<D>, normalize: D -> Option<Table>, construct: D -> Option<Table>): UnpackOutcome
  {
    match src
    case FileNotFound => Missing
    case InvalidJson => DataError
    case ReadFailed => Unexpected
    case Frame(columns, records) =>
      if !HasRequiredColumns(columns) then DataError
      else
        var d := Collect(Attempts(records, normalize, construct));
        if d.keys == [] then NothingStored else Stored(d)
  }

  /**
   * The outcome of `unpack_data` as written: line 207 reads
   * `fda_tables.unpacked.columns`, but `fda_tables` is a local variable first
   * assigned at line 213 and is read inside a generator expression, so every
   * frame that is read raises NameError and ends in the generic handler.
   */
  function UnpackAsWritten<D>(src: ReadOutcome<D>): UnpackOutcome
  {
    match src
    case FileNotFound => Missing
    case InvalidJson => DataError
    case ReadFailed => Unexpected
    case Frame(_, _) => Unexpected
  }

  /** Unpacking stores tables exactly when the frame has both columns and at least one record converts. */
  lemma {:induction false} UnpackStoresIffSomeRecordConverts<D>(src: ReadOutcome<D>, normalize: D -> Option<Table>, construct: D -> Option<Table>)
    ensures Unpack(src, normalize, construct).Stored? <==>
      && src.Frame?
      && HasRequiredColumns(src.columns)
      && exists i :: 0 <= i < |src.records| && Convert(src.records[i].data, normalize, construct).Some?
  {
    if src.Frame? && HasRequiredColumns(src.columns) {
      var records := src.records;
      var a := Attempts(records, normalize, construct);
      CollectKeys(a);
      var d := Collect(a);
      if exists i :: 0 <= i < |records| && Convert(records[i].data, normalize, construct).Some? {
        var i :| 0 <= i < |records| && Convert(records[i].data, normalize, construct).Some?;
        assert a[i].tableName == records[i].tableName && a[i].table.Some?;
        assert StoredSomewhere(a, records[i].tableName);
      }
      if d.keys != [] {
        assert StoredSomewhere(a, d.keys[0]);
        var i :| 0 <= i < |a| && a[i].tableName == d.keys[0] && a[i].table.Some?;
        assert Convert(records[i].data, normalize, construct).Some?;
      }
    }
  }

  /**
   * The misread column check: for any readable frame with both columns and a
   * record that converts, the code as written ends in the generic handler
   * (so the flag is 0), where the intended check stores the tables.
   */
  lemma {:induction false} ColumnCheckTypoBlocksUnpack<D>(src: ReadOutcome<D>, normalize: D -> Option<Table>, construct: D -> Option<Table>)
    requires src.Frame? && HasRequiredColumns(src.columns)
    requires exists i :: 0 <= i < |src.records| && Convert(src.records[i].data, normalize, construct).Some?
    ensures UnpackAsWritten(src) == Unexpected
    ensures Unpack(src, normalize, construct).Stored?
  {
    UnpackStoresIffSomeRecordConverts(src, normalize, construct);
  }

  /** A concrete input: one record whose payload the normaliser turns into an empty table. */
  lemma {:induction false} ColumnCheckTypoExample()
    ensures var src := Frame(["tableName", "data"], [RawRecord("Active Investigations", 0)]);
      && UnpackAsWritten(src) == Unexpected
      && Unpack(src, (x: int) => Some(Table([], [])), (x: int) => None) == Stored(OrderedDict(["Active Investigations"], [Table([], [])]))
  {
    var src := Frame(["tableName", "data"], [RawRecord("Active Investigations", 0)]);
    var normalize := (x: int) => Some(Table([], []));
    var construct := (x: int) => None;
    var a := Attempts(src.records, normalize, construct);
    assert a == [Attempt("Active Investigations", Some(Table([], [])))];
    assert a[..0] == [];
  }

}
