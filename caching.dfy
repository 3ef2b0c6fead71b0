/**
 * What the cache path does (classes/data_wrangler.py, lines 294-417), as
 * functions of the object state it starts from: the tables after the
 * `TableName` column has been inserted and the SQL statements issued, in
 * order. The store itself is not modelled; a statement issued is one passed
 * to `cur.execute`, recorded by its form (its SQL text is `Text`).
 */
module Caching {
  import opened Wrappers
  import opened SqlText
  import opened Tables

  /**
   * The index of the first table that already has a `TableName` column, or
   * `|ts|`: `DataFrame.insert` raises ValueError on such a table (line 319).
   */
  function FirstConflict(ts: seq<Table>): (c: nat)
    ensures c <= |ts|
    ensures forall i :: 0 <= i < c ==> TableNameColumn !in ts[i].columns
    ensures c < |ts| ==> TableNameColumn in ts[c].columns
  {
    if ts == [] then 0
    else if TableNameColumn in ts[0].columns then 0
    else 1 + FirstConflict(ts[1..])
  }

  /** The tables after the loop at lines 318-319 has tagged the first `n` of them. */
  function TagFirst(ts: seq<Table>, keys: seq<string>, n: nat): seq<Table>
    requires n <= |ts| <= |keys|
  {
    seq(|ts|, i requires 0 <= i < |ts| => if i < n then WithTableName(ts[i], keys[i]) else ts[i])
  }

  lemma {:induction false} TagFirstNone(ts: seq<Table>, keys: seq<string>)
    requires |ts| <= |keys|
    ensures TagFirst(ts, keys, 0) == ts
  {
  }

  /** Tagging table `n` in place extends the tagged prefix by one. */
  lemma {:induction false} TagFirstStep(ts: seq<Table>, keys: seq<string>, n: nat)
    requires n < |ts| <= |keys|
    ensures TagFirst(ts, keys, n)[n] == ts[n]
    ensures TagFirst(ts, keys, n)[n := WithTableName(ts[n], keys[n])] == TagFirst(ts, keys, n + 1)
  {
  }

  /** The INSERT statements for the rows of one table, in row order. */
  function RowInserts(columns: seq<string>, rows: seq<seq<string>>): seq<Statement>
  {
    seq(|rows|, r requires 0 <= r < |rows| => Insert(columns, rows[r]))
  }

  /** Lines 370-388: the INSERT statements for all tables, in table order and then row order. */
  function AllInserts(columns: seq<string>, ts: seq<Table>): seq<Statement>
  {
    if ts == [] then []
    else AllInserts(columns, ts[..|ts| - 1]) + RowInserts(columns, ts[|ts| - 1].rows)
  }

  /** The number of rows over all tables. */
  function TotalRows(ts: seq<Table>): nat
  {
    if ts == [] then 0 else TotalRows(ts[..|ts| - 1]) + |ts[|ts| - 1].rows|
  }

  /** One INSERT per row over all tables. */
  lemma {:induction false} AllInsertsLength(columns: seq<string>, ts: seq<Table>)
    ensures |AllInserts(columns, ts)| == TotalRows(ts)
  {
    if ts != [] {
      AllInsertsLength(columns, ts[..|ts| - 1]);
    }
  }

  lemma {:induction false} TotalRowsPrefix(ts: seq<Table>, t: nat)
    requires t < |ts|
    ensures TotalRows(ts[..t]) + |ts[t].rows| <= TotalRows(ts)
  {
    if t < |ts| - 1 {
      var init := ts[..|ts| - 1];
      assert init[..t] == ts[..t] && init[t] == ts[t];
      TotalRowsPrefix(init, t);
    } else {
      assert ts[..t] == ts[..|ts| - 1];
    }
  }

  /**
   * Row `r` of table `t` is issued after every row of the tables before it
   * and after the rows before it in its own table.
   */
  lemma {:induction false} AllInsertsAt(columns: seq<string>, ts: seq<Table>, t: nat, r: nat)
    requires t < |ts| && r < |ts[t].rows|
    ensures TotalRows(ts[..t]) + r < |AllInserts(columns, ts)|
    ensures AllInserts(columns, ts)[TotalRows(ts[..t]) + r] == Insert(columns, ts[t].rows[r])
  {
    var init := ts[..|ts| - 1];
    AllInsertsLength(columns, ts);
    AllInsertsLength(columns, init);
    TotalRowsPrefix(ts, t);
    if t < |ts| - 1 {
      assert init[..t] == ts[..t] && init[t] == ts[t];
      AllInsertsAt(columns, init, t, r);
    } else {
      assert ts[..t] == init;
    }
  }

  /** Tables with the same row counts have the same running totals. */
  lemma {:induction false} TotalRowsSameShape(ts: seq<Table>, us: seq<Table>)
    requires |ts| == |us|
    requires forall i :: 0 <= i < |ts| ==> |ts[i].rows| == |us[i].rows|
    ensures TotalRows(ts) == TotalRows(us)
  {
    if ts != [] {
      TotalRowsSameShape(ts[..|ts| - 1], us[..|us| - 1]);
    }
  }

  /**
   * When every row has one value per column of `columns`, every statement is
   * an INSERT naming `columns` with one value per column.
   */
  lemma {:induction false} InsertsMatchSchema(columns: seq<string>, ts: seq<Table>)
    requires forall t, r :: 0 <= t < |ts| && 0 <= r < |ts[t].rows| ==> |ts[t].rows[r]| == |columns|
    ensures forall k :: 0 <= k < |AllInserts(columns, ts)| ==>
      && AllInserts(columns, ts)[k].Insert?
      && AllInserts(columns, ts)[k].columns == columns
      && |AllInserts(columns, ts)[k].row| == |columns|
  {
    if ts != [] {
      var init := ts[..|ts| - 1];
      var last := ts[|ts| - 1];
      InsertsMatchSchema(columns, init);
      var before := AllInserts(columns, init);
      var s := AllInserts(columns, ts);
      forall k | 0 <= k < |s|
        ensures s[k].Insert? && s[k].columns == columns && |s[k].row| == |columns|
      {
        if k < |before| {
          assert s[k] == before[k];
        } else {
          assert s[k] == Insert(columns, last.rows[k - |before|]);
        }
      }
    }
  }

  /** How `_init_db` ends: refused (returns False), raised an exception, or created the relation. */
  datatype InitOutcome = Refused | Raised | Created

  datatype InitResult = InitResult(outcome: InitOutcome, tables: Option<seq<Table>>, issued: seq<Statement>)

  /**
   * Lines 304-345. A flag of 0 refuses before anything is issued. Otherwise
   * the DROP is issued; `len(None)` raises when no tables were ever stored;
   * the tables are tagged in order until one already has a `TableName`
   * column, which raises; when all are tagged the CREATE is issued with the
   * columns of the first table.
   */
  function InitDbEffect(flag: int, keys: Option<seq<string>>, tables: Option<seq<Table>>): (r: InitResult)
    requires tables.Some? ==> keys.Some? && |keys.value| == |tables.value| >= 1
    ensures flag == 0 ==> r == InitResult(Refused, tables, [])
    ensures r.outcome == Created ==> tables.Some? && r.tables.Some? && |r.tables.value| == |tables.value| && |r.issued| == 2
    ensures r.outcome == Created ==>
      && r.tables == Some(TagFirst(tables.value, keys.value, |tables.value|))
      && r.issued == [Drop, Create([TableNameColumn] + tables.value[0].columns)]
    ensures flag != 0 ==> r.outcome != Refused && |r.issued| >= 1 && r.issued[0] == Drop
    ensures r.outcome == Raised ==> r.issued == [Drop]
  {
    if flag == 0 then InitResult(Refused, tables, [])
    else if tables.None? then InitResult(Raised, tables, [Drop])
    else
      var ts := tables.value;
      var c := FirstConflict(ts);
      var tagged := TagFirst(ts, keys.value, c);
      if c < |ts| then InitResult(Raised, Some(tagged), [Drop])
      else InitResult(Created, Some(tagged), [Drop, Create(tagged[0].columns)])
  }

  /** What `cache_data` reports: data not unpacked, an exception caught, or every row cached. */
  datatype CacheOutcome = NotUnpacked | Failed | Cached

  datatype CacheResult = CacheResult(outcome: CacheOutcome, tables: Option<seq<Table>>, issued: seq<Statement>)

  /** Lines 400-417: `_init_db`, then `_insert_data` when the relation was created. */
  function CacheEffect(flag: int, keys: Option<seq<string>>, tables: Option<seq<Table>>): CacheResult
    requires tables.Some? ==> keys.Some? && |keys.value| == |tables.value| >= 1
  {
    var init := InitDbEffect(flag, keys, tables);
    match init.outcome
    case Refused => CacheResult(NotUnpacked, init.tables, init.issued)
    case Raised => CacheResult(Failed, init.tables, init.issued)
    case Created =>
      var ts := init.tables.value;
      CacheResult(Cached, init.tables, init.issued + AllInserts(ts[0].columns, ts))
  }

  /** The relation is created exactly when the data is unpacked and no table has a `TableName` column yet. */
  lemma {:induction false} InitDbCreatesIffUntagged(flag: int, keys: Option<seq<string>>, tables: Option<seq<Table>>)
    requires tables.Some? ==> keys.Some? && |keys.value| == |tables.value| >= 1
    ensures InitDbEffect(flag, keys, tables).outcome == Created <==>
      && flag != 0
      && tables.Some?
      && forall i :: 0 <= i < |tables.value| ==> TableNameColumn !in tables.value[i].columns
  {
  }

  /** A run over untagged tables, unfolded. */
  lemma {:induction false} CacheEffectUntagged(keys: seq<string>, ts: seq<Table>)
    requires |keys| == |ts| >= 1
    requires forall i :: 0 <= i < |ts| ==> TableNameColumn !in ts[i].columns
    ensures var tagged := TagFirst(ts, keys, |ts|);
      CacheEffect(1, Some(keys), Some(ts))
        == CacheResult(Cached, Some(tagged),
             [Drop, Create(tagged[0].columns)] + AllInserts(tagged[0].columns, tagged))
  {
    assert FirstConflict(ts) == |ts|;
  }

  /**
   * A successful cache run over tables with no `TableName` column: it tags
   * table `i` with `keys[i]`, issues the DROP, the CREATE with `TableName`
   * followed by the first table's columns, and then one INSERT per row.
   */
  lemma {:induction false} CachedRun(keys: seq<string>, ts: seq<Table>)
    requires |keys| == |ts| >= 1
    requires forall i :: 0 <= i < |ts| ==> TableNameColumn !in ts[i].columns
    ensures var e := CacheEffect(1, Some(keys), Some(ts));
      && e.outcome == Cached
      && e.tables == Some(TagFirst(ts, keys, |ts|))
      && |e.issued| == 2 + TotalRows(ts)
      && e.issued[0] == Drop
      && e.issued[1] == Create([TableNameColumn] + ts[0].columns)
  {
    var tagged := TagFirst(ts, keys, |ts|);
    CacheEffectUntagged(keys, ts);
    var columns := tagged[0].columns;
    assert columns == [TableNameColumn] + ts[0].columns;
    TotalRowsSameShape(ts, tagged);
    AllInsertsLength(columns, tagged);
  }

  /** Tagging keeps every table's row count, so the running totals agree. */
  lemma {:induction false} TaggedTotalRows(ts: seq<Table>, keys: seq<string>, t: nat)
    requires t <= |ts| <= |keys|
    ensures TotalRows(TagFirst(ts, keys, |ts|)[..t]) == TotalRows(ts[..t])
  {
    var tagged := TagFirst(ts, keys, |ts|);
    TotalRowsSameShape(ts[..t], tagged[..t]);
  }

  /** Over the tagged tables, row `r` of table `t` is issued led by `keys[t]`. */
  lemma {:induction false} TaggedInsertAt(columns: seq<string>, ts: seq<Table>, keys: seq<string>, t: nat, r: nat)
    requires |ts| <= |keys| && t < |ts| && r < |ts[t].rows|
    ensures TotalRows(ts[..t]) + r < |AllInserts(columns, TagFirst(ts, keys, |ts|))|
    ensures AllInserts(columns, TagFirst(ts, keys, |ts|))[TotalRows(ts[..t]) + r] == Insert(columns, [keys[t]] + ts[t].rows[r])
  {
    var tagged := TagFirst(ts, keys, |ts|);
    TaggedTotalRows(ts, keys, t);
    assert tagged[t] == WithTableName(ts[t], keys[t]);
    AllInsertsAt(columns, tagged, t, r);
  }

  /**
   * In a successful cache run, row `r` of table `t` is the INSERT at position
   * `2 + TotalRows(ts[..t]) + r`: after the DROP, the CREATE, every row of the
   * tables before it and the rows before it in its own table; it is led by
   * its own table's key.
   */
  lemma {:induction false} CachedRunInsert(keys: seq<string>, ts: seq<Table>, t: nat, r: nat)
    requires |keys| == |ts| >= 1
    requires forall i :: 0 <= i < |ts| ==> TableNameColumn !in ts[i].columns
    requires t < |ts| && r < |ts[t].rows|
    ensures var e := CacheEffect(1, Some(keys), Some(ts));
      && 2 + TotalRows(ts[..t]) + r < |e.issued|
      && e.issued[2 + TotalRows(ts[..t]) + r]
           == Insert([TableNameColumn] + ts[0].columns, [keys[t]] + ts[t].rows[r])
  {
    var tagged := TagFirst(ts, keys, |ts|);
    CacheEffectUntagged(keys, ts);
    var columns := tagged[0].columns;
    assert columns == [TableNameColumn] + ts[0].columns;
    TaggedInsertAt(columns, ts, keys, t, r);
  }

  /**
   * Caching twice is destructive: after a successful run every table has a
   * `TableName` column, so a second run issues the DROP and then raises at
   * the first table, leaving no relation and the tables as they were.
   */
  lemma {:induction false} SecondCacheFails(keys: seq<string>, ts: seq<Table>)
    requires |keys| == |ts| >= 1
    requires CacheEffect(1, Some(keys), Some(ts)).outcome == Cached
    ensures var first := CacheEffect(1, Some(keys), Some(ts));
      && first.tables.Some? && |first.tables.value| == |ts|
      && var second := CacheEffect(1, Some(keys), first.tables);
      && second.outcome == Failed
      && second.issued == [Drop]
      && second.tables == first.tables
  {
    var first := CacheEffect(1, Some(keys), Some(ts));
    var tagged := first.tables.value;
    assert tagged[0].columns[0] == TableNameColumn;
    assert FirstConflict(tagged) == 0;
    assert TagFirst(tagged, keys, 0) == tagged;
  }

  /**
   * When every table is rectangular and has as many columns as the first,
   * every statement after the CREATE is an INSERT into the created columns
   * with one value per column (so, by `SqlText.InsertStatementReadsBack`, its text
   * reads back with as many values as column names).
   */
  lemma {:induction false} CachedRunMatchesSchema(keys: seq<string>, ts: seq<Table>)
    requires |keys| == |ts| >= 1
    requires forall i :: 0 <= i < |ts| ==> TableNameColumn !in ts[i].columns
    requires forall i :: 0 <= i < |ts| ==> WellFormed(ts[i]) && |ts[i].columns| == |ts[0].columns|
    ensures var e := CacheEffect(1, Some(keys), Some(ts));
      forall k :: 2 <= k < |e.issued| ==>
        && e.issued[k].Insert?
        && e.issued[k].columns == [TableNameColumn] + ts[0].columns
        && |e.issued[k].row| == 1 + |ts[0].columns|
  {
    var e := CacheEffect(1, Some(keys), Some(ts));
    var tagged := TagFirst(ts, keys, |ts|);
    CacheEffectUntagged(keys, ts);
    var columns := tagged[0].columns;
    forall t, r | 0 <= t < |tagged| && 0 <= r < |tagged[t].rows|
      ensures |tagged[t].rows[r]| == |columns|
    {
      assert WellFormed(tagged[t]);
    }
    InsertsMatchSchema(columns, tagged);
    forall k | 2 <= k < |e.issued|
      ensures e.issued[k] == AllInserts(columns, tagged)[k - 2]
    {
    }
  }

}
