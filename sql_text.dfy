/**
 * The SQL text the cache path sends to the store
 * (classes/data_wrangler.py, lines 315, 332, 366 and 382-385). Each statement
 * comes with a reader that recovers the quoted lists from it, and a lemma
 * that reading a built statement gives back its columns and values.
 */
module SqlText {
  import opened Wrappers
  import opened Quoting

  /** Line 315. */
  const DropStatement: string := "DROP TABLE IF EXISTS Food_Recalls"

  const CreateHead: string := "CREATE TABLE IF NOT EXISTS Food_Recalls("
  const InsertHead: string := "INSERT INTO Food_Recalls ("
  const ValuesHead: string := " VALUES ("

  /** Line 332: the relation created from the quoted column list. */
  function CreateStatement(columns: seq<string>): string
  {
    CreateHead + QuotedList(columns) + ")"
  }

  /** Line 366: the part of every INSERT that names the columns. */
  function InsertPrefix(columns: seq<string>): string
  {
    InsertHead + QuotedList(columns) + ") VALUES"
  }

  /** Lines 380-385: the INSERT issued for one row. */
  function InsertStatement(columns: seq<string>, row: seq<string>): string
  {
    InsertPrefix(columns) + " " + ("(" + QuotedList(row) + ")")
  }

  /** A statement passed to `cur.execute`, by its form. */
  datatype Statement =
    | Drop
    | Create(columns: seq<string>)
    | Insert(columns: seq<string>, row: seq<string>)

  /** The exact SQL text of a statement. */
  function Text(st: Statement): string
  {
    match st
    case Drop => DropStatement
    case Create(columns) => CreateStatement(columns)
    case Insert(columns, row) => InsertStatement(columns, row)
  }

  /** Splits `s` after `head`, if `s` starts with it. */
  function AfterHead(head: string, s: string): Option<string>
  {
    if |head| <= |s| && s[..|head|] == head then Some(s[|head|..]) else None
  }

  /** The column names a CREATE statement declares, as they were written between quotes. */
  function ReadCreate(s: string): Option<seq<string>>
  {
    match AfterHead(CreateHead, s)
    case None => None
    case Some(body) =>
      match ReadList(body)
      case Some((columns, after)) => if after == [] then Some(columns) else None
      case None => None
  }

  /** The values of the " VALUES (...)" tail of an INSERT statement. */
  function ReadValues(s: string): Option<seq<string>>
  {
    match AfterHead(ValuesHead, s)
    case None => None
    case Some(valuesText) =>
      match ReadList(valuesText)
      case Some((values, after)) => if after == [] then Some(values) else None
      case None => None
  }

  /** The column names and the values of an INSERT statement. */
  function ReadInsert(s: string): Option<(seq<string>, seq<string>)>
  {
    match AfterHead(InsertHead, s)
    case None => None
    case Some(body) =>
      match ReadList(body)
      case None => None
      case Some((columns, rest)) =>
        match ReadValues(rest)
        case None => None
        case Some(values) => Some((columns, values))
  }

  lemma {:induction false} AfterHeadOf(head: string, tail: string)
    ensures AfterHead(head, head + tail) == Some(tail)
  {
    assert (head + tail)[..|head|] == head;
    assert (head + tail)[|head|..] == tail;
  }

  /** The CREATE statement declares one column per name, each the name without its double quotes. */
  lemma {:induction false} CreateStatementReadsBack(columns: seq<string>)
    ensures ReadCreate(CreateStatement(columns)) == Some(StripAll(columns))
  {
    var body := QuotedList(columns) + ")";
    assert CreateStatement(columns) == CreateHead + body;
    AfterHeadOf(CreateHead, body);
    ReadQuotedList(columns, "");
    assert body == QuotedList(columns) + ")" + "";
  }

  lemma {:induction false} Regroup(c: string, v: string)
    ensures InsertHead + c + ") VALUES" + " " + ("(" + v + ")")
         == InsertHead + (c + ")" + (ValuesHead + (v + ")")))
  {
    assert ") VALUES" + " " + "(" == ")" + ValuesHead;
  }

  lemma {:induction false} InsertStatementShape(columns: seq<string>, row: seq<string>)
    ensures InsertStatement(columns, row)
         == InsertHead + (QuotedList(columns) + ")" + (ValuesHead + (QuotedList(row) + ")")))
  {
    Regroup(QuotedList(columns), QuotedList(row));
  }

  lemma {:induction false} ReadValuesBack(row: seq<string>)
    ensures ReadValues(ValuesHead + (QuotedList(row) + ")")) == Some(StripAll(row))
  {
    var valuesText := QuotedList(row) + ")";
    AfterHeadOf(ValuesHead, valuesText);
    ReadQuotedList(row, "");
    assert valuesText == QuotedList(row) + ")" + "";
  }

  /**
   * An INSERT statement names every column and carries every value of its
   * row, in order, each without its double quotes.
   */
  lemma {:induction false} InsertStatementReadsBack(columns: seq<string>, row: seq<string>)
    ensures ReadInsert(InsertStatement(columns, row)) == Some((StripAll(columns), StripAll(row)))
  {
    var rest := ValuesHead + (QuotedList(row) + ")");
    var body := QuotedList(columns) + ")" + rest;
    InsertStatementShape(columns, row);
    AfterHeadOf(InsertHead, body);
    ReadQuotedList(columns, rest);
    ReadValuesBack(row);
  }

}
