/**
 * The `Data_Wrangler` object (classes/data_wrangler.py): its attributes, the
 * `is_data_unpacked` setter, `unpack_data`, `_init_db`, `_insert_data` and
 * `cache_data`.
 *
 * The DataFrames in `tables` are the very objects held as the values of
 * `scraped_data` (line 248 stores the dictionary whose values line 246
 * listed), so tagging a table in `_init_db` changes both. The model keeps
 * that sharing as the invariant `scrapedData == Some(OrderedDict(keys, tables))`.
 *
 * Every DROP, CREATE and INSERT passed to `cur.execute` is appended to
 * `issued` (the `sqlite_master` query is not modelled); reading
 * the file is the parameter `src`, and pandas' two conversions are the
 * parameters `normalize` and `construct`.
 */
module Wrangler {
  import opened Wrappers
  import opened Tables
  import opened OrderedDicts
  import opened SqlText
  import opened Unpacking
  import opened Caching

  /** Lines 239-244: the description stored in `structure` after a successful unpack. */
  const StructureDescription: seq<string> := [
    "The scraped data is structured as a dictionary",
    "(dict[str, pd.DataFrame]) with 7 entries. Each",
    "entry key is a table name as a string and each",
    "value is the table data as a pd.DataFrame."
  ]

  /**
   * Lines 213-230: the loop over the frame's rows building the dictionary,
   * which keeps the table of every record that converts, the last one for a
   * repeated name, in first-seen order.
   */
  method CollectRecords<D>(records: seq<RawRecord<D>>, normalize: D -> Option<Table>, construct: D -> Option<Table>)
    returns (fdaTables: OrderedDict)
    ensures fdaTables == Collect(Attempts(records, normalize, construct))
  {
    ghost var attempts := Attempts(records, normalize, construct);
    fdaTables := Empty;
    var i := 0;
    while i < |records|
      invariant 0 <= i <= |records|
      invariant fdaTables == Collect(attempts[..i])
    {
      var table := normalize(records[i].data);
      if table.None? {
        table := construct(records[i].data);
      }
      CollectStep(records, normalize, construct, i);
      if table.Some? {
        fdaTables := fdaTables.Put(records[i].tableName, table.value);
      }
      i := i + 1;
    }
    assert attempts[..i] == attempts;
  }

  class DataWrangler {
    var path: string
    var isDataUnpacked: int
    var structure: Option<seq<string>>
    var keys: Option<seq<string>>
    var tables: Option<seq<Table>>
    var numEntries: Option<nat>
    var scrapedData: Option<OrderedDict>
    /** Every DROP, CREATE and INSERT passed to `cur.execute`, oldest first. */
    ghost var issued: seq<Statement>

    /**
     * The flag is 0 or 1; the unpacked attributes are either all unset or all
     * set together, as one successful unpack sets them; and the dictionary
     * shares its keys and tables with `keys` and `tables`.
     */
    ghost predicate Valid()
      reads this
    {
      && (isDataUnpacked == 0 || isDataUnpacked == 1)
      && structure.Some? == keys.Some? == tables.Some? == numEntries.Some? == scrapedData.Some?
      && (keys.Some? ==>
            && structure.value == StructureDescription
            && |keys.value| == |tables.value| == numEntries.value >= 1
            && scrapedData.value == OrderedDict(keys.value, tables.value)
            && scrapedData.value.Valid())
    }

    /** Lines 49-64: the path is kept, the flag is 0 and nothing is unpacked. */
    constructor(path: string)
      ensures Valid()
      ensures this.path == path && isDataUnpacked == 0
      ensures structure.None? && keys.None? && tables.None? && numEntries.None? && scrapedData.None?
      ensures issued == []
    {
      this.path := path;
      isDataUnpacked := 0;
      structure := None;
      keys := None;
      tables := None;
      numEntries := None;
      scrapedData := None;
      issued := [];
    }

    /** Lines 84-89: only 0 and 1 are stored; any other integer is ignored without an error. */
    method SetIsDataUnpacked(flag: int)
      requires Valid()
      modifies this`isDataUnpacked
      ensures Valid()
      ensures isDataUnpacked == if flag == 0 || flag == 1 then flag else old(isDataUnpacked)
    {
      if flag == 0 || flag == 1 {
        isDataUnpacked := flag;
      }
    }

    /**
     * Lines 177-263. A missing file, or any error other than a ValueError,
     * sets the flag to 0 and keeps the rest; a ValueError (bad JSON, a missing
     * column) and an empty dictionary change nothing; otherwise the attributes
     * are set from the dictionary of converted tables and the flag to 1.
     */
    method UnpackData<D>(src: ReadOutcome<D>, normalize: D -> Option<Table>, construct: D -> Option<Table>)
      requires Valid()
      modifies this
      ensures Valid()
      ensures path == old(path) && issued == old(issued)
      ensures match Unpack(src, normalize, construct)
        case Missing | Unexpected =>
          && isDataUnpacked == 0
          && structure == old(structure) && keys == old(keys) && tables == old(tables)
          && numEntries == old(numEntries) && scrapedData == old(scrapedData)
        case DataError | NothingStored =>
          && isDataUnpacked == old(isDataUnpacked)
          && structure == old(structure) && keys == old(keys) && tables == old(tables)
          && numEntries == old(numEntries) && scrapedData == old(scrapedData)
        case Stored(d) =>
          && isDataUnpacked == 1
          && structure == Some(StructureDescription)
          && keys == Some(d.keys) && tables == Some(d.values)
          && numEntries == Some(|d.keys|) && scrapedData == Some(d)
    {
      match src {
        case FileNotFound =>
          isDataUnpacked := 0;
        case InvalidJson =>
        case ReadFailed =>
          isDataUnpacked := 0;
        case Frame(columns, records) =>
          if !HasRequiredColumns(columns) {
            return;
          }
          var fdaTables := CollectRecords(records, normalize, construct);
          if fdaTables.keys == [] {
            return;
          }
          Store(fdaTables);
      }
    }

    /** Lines 239-249: the attributes set from a non-empty dictionary, and the flag set to 1. */
    method Store(d: OrderedDict)
      requires d.Valid() && d.keys != []
      modifies this`structure, this`keys, this`tables, this`numEntries, this`scrapedData, this`isDataUnpacked
      ensures Valid()
      ensures && isDataUnpacked == 1
              && structure == Some(StructureDescription)
              && keys == Some(d.keys) && tables == Some(d.values)
              && numEntries == Some(|d.keys|) && scrapedData == Some(d)
    {
      structure := Some(StructureDescription);
      keys := Some(d.keys);
      tables := Some(d.values);
      numEntries := Some(|d.keys|);
      scrapedData := Some(d);
      isDataUnpacked := 1;
    }

    /**
     * Lines 294-345, as `InitDbEffect` describes them. The tagging loop changes
     * the shared tables one at a time, so a conflict part-way leaves the
     * tables before it tagged, in `tables` and in `scrapedData` alike.
     */
    method InitDb() returns (outcome: InitOutcome)
      requires Valid()
      modifies this`tables, this`scrapedData, this`issued
      ensures Valid()
      ensures var e := InitDbEffect(old(isDataUnpacked), old(keys), old(tables));
        && outcome == e.outcome
        && tables == e.tables
        && issued == old(issued) + e.issued
        && scrapedData == if tables.Some? then Some(OrderedDict(keys.value, tables.value)) else None
    {
      if isDataUnpacked == 0 {
        return Refused;
      }
      issued := issued + [Drop];
      if tables.None? {
        return Raised;
      }
      var conflict := TagTables();
      if conflict {
        return Raised;
      }
      issued := issued + [Create(tables.value[0].columns)];
      outcome := Created;
    }

    /**
     * Lines 318-319: `insert(0, 'TableName', key)` on each table in turn. The
     * tables before the first that already has a `TableName` column are
     * tagged; that one raises ValueError, reported here as `conflict`.
     */
    method TagTables() returns (conflict: bool)
      requires Valid() && tables.Some?
      modifies this`tables, this`scrapedData
      ensures Valid()
      ensures var ts := old(tables.value);
        && conflict == (FirstConflict(ts) < |ts|)
        && tables == Some(TagFirst(ts, keys.value, FirstConflict(ts)))
    {
      ghost var ts := tables.value;
      TagFirstNone(ts, keys.value);
      var idx := 0;
      while idx < |tables.value|
        invariant Valid() && tables.Some?
        invariant 0 <= idx <= FirstConflict(ts)
        invariant tables.value == TagFirst(ts, keys.value, idx)
      {
        TagFirstStep(ts, keys.value, idx);
        if TableNameColumn in tables.value[idx].columns {
          return true;
        }
        tables := Some(tables.value[idx := WithTableName(tables.value[idx], keys.value[idx])]);
        scrapedData := Some(OrderedDict(keys.value, tables.value));
        idx := idx + 1;
      }
      conflict := false;
    }

    /** Lines 347-394: one INSERT per row, table after table, each naming the first table's columns. */
    method InsertData()
      requires Valid() && tables.Some?
      modifies this`issued
      ensures Valid()
      ensures issued == old(issued) + AllInserts(tables.value[0].columns, tables.value)
    {
      var ts := tables.value;
      var columns := ts[0].columns;
      var t := 0;
      while t < |ts|
        invariant 0 <= t <= |ts|
        invariant issued == old(issued) + AllInserts(columns, ts[..t])
      {
        var rows := ts[t].rows;
        var r := 0;
        while r < |rows|
          invariant 0 <= r <= |rows|
          invariant issued == old(issued) + AllInserts(columns, ts[..t]) + RowInserts(columns, rows[..r])
        {
          issued := issued + [Insert(columns, rows[r])];
          assert RowInserts(columns, rows[..r + 1]) == RowInserts(columns, rows[..r]) + [Insert(columns, rows[r])];
          r := r + 1;
        }
        assert rows[..r] == rows;
        assert ts[..t + 1][..t] == ts[..t];
        t := t + 1;
      }
      assert ts[..t] == ts;
    }

    /** Lines 396-417, as `CacheEffect` describes them: `_init_db`, then `_insert_data` when it created the relation. */
    method CacheData() returns (outcome: CacheOutcome)
      requires Valid()
      modifies this`tables, this`scrapedData, this`issued
      ensures Valid()
      ensures var e := CacheEffect(old(isDataUnpacked), old(keys), old(tables));
        && outcome == e.outcome
        && tables == e.tables
        && issued == old(issued) + e.issued
        && scrapedData == if tables.Some? then Some(OrderedDict(keys.value, tables.value)) else None
    {
      var init := InitDb();
      if init == Refused {
        return NotUnpacked;
      }
      if init == Raised {
        return Failed;
      }
      InsertData();
      outcome := Cached;
    }
  }
}
