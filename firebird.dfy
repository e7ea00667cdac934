/** The connection façade: the open/closed state, statement execution over
    an abstract log of what the engine was asked to run, the catalog lookups,
    table creation, batch insertion and column removal. */
module Adapter {
  import opened Wrappers
  import opened Strings
  import opened Values
  import opened Statements
  import opened Binding
  import opened ColumnRemoval

  /** The adapter's failures (its exception, without the message text). */
  datatype DbError =
    | NotOpen              // an operation on a closed connection
    | CannotOpen           // the engine refused the connection
    | ArgumentOutOfRange   // fewer column types than column names

  /** A statement handed to the engine: its text and its bound parameters. */
  datatype Statement = Statement(sql: string, parameters: seq<Parameter>)

  /** A statement as `ExecuteNonQuery` passes it on: normalised, no parameters. */
  function Logged(sql: string): Statement {
    Statement(AdjustQuotedFields(sql), [])
  }

  /** The statements that remove columns, as `ExecuteNonQuery` passes them on. */
  function DropLog(table: string, retained: seq<string>): (log: seq<Statement>)
    ensures |log| == 5
  {
    [Logged(Render(Begin)),
     Logged(Render(RenameToOld(table))),
     Logged(Render(CopyFromOld(table, retained))),
     Logged(Render(DropOld(table))),
     Logged(Render(End))]
  }

  /** One parameterised execution of `sql` per row, in row order. */
  function InsertLog(sql: string, rows: seq<seq<Obj>>, culture: Culture): (log: seq<Statement>)
    ensures |log| == |rows|
  {
    seq(|rows|, k requires 0 <= k < |rows| => Statement(sql, Parameters(rows[k], culture)))
  }

  /** For bracket-free names the logged removal statements are exactly
      `BEGIN`, the rename to `_old`, the copy of the retained columns, the
      drop of `_old`, and `END`. */
  lemma DropLogText(table: string, retained: seq<string>)
    requires BracketFree(table)
    requires forall i :: 0 <= i < |retained| ==> BracketFree(retained[i])
    ensures DropLog(table, retained) == [
      Statement("BEGIN", []),
      Statement("ALTER TABLE \"" + table + "\" RENAME TO \"" + table + "_old\"", []),
      Statement("CREATE TABLE \"" + table + "\" AS SELECT " + Join(",", QuotedNames(retained))
        + " FROM \"" + table + "_old\"", []),
      Statement("DROP TABLE \"" + table + "_old\"", []),
      Statement("END", [])]
  {
    DropScriptBracketFree(table, retained);
    var script := DropScript(table, retained);
    assert script[0] in script && script[1] in script && script[2] in script;
    assert script[3] in script && script[4] in script;
  }

  /** Five single appends make one append of five. */
  lemma AppendFive<T>(l0: seq<T>, l1: seq<T>, l2: seq<T>, l3: seq<T>, l4: seq<T>, l5: seq<T>, a: T, b: T, c: T, d: T, e: T)
    requires l1 == l0 + [a] && l2 == l1 + [b] && l3 == l2 + [c] && l4 == l3 + [d] && l5 == l4 + [e]
    ensures l5 == l0 + [a, b, c, d, e]
  {
  }

  /** The adapter over one engine connection. */
  class Firebird {
    /** The connection state is `Open`. */
    var open: bool
    var isReadOnly: bool
    /** What the engine's catalog reports: user table names in sorted order,
        and the columns of each table (under its stored, upper-case name) in
        field order. */
    var catalogTables: seq<string>
    var catalogColumns: map<string, seq<string>>
    /** Every statement executed through `ExecuteNonQuery` or with bound
        parameters, in order; queries that return rows are not recorded. */
    ghost var log: seq<Statement>

    constructor (tables: seq<string>, columns: map<string, seq<string>>)
      ensures !open && !isReadOnly && log == []
      ensures catalogTables == tables && catalogColumns == columns
    {
      open := false;
      isReadOnly := false;
      catalogTables := tables;
      catalogColumns := columns;
      log := [];
    }

    /** `OpenDatabase`: connects when closed (`connects` says whether the
        engine accepts), then records the read-only flag. Creating the
        database file is the engine's business. */
    method OpenDatabase(readOnly: bool, connects: bool) returns (r: Outcome<DbError>)
      modifies this`open, this`isReadOnly
      ensures r.Pass? <==> old(open) || connects
      ensures r.Pass? ==> open && isReadOnly == readOnly
      ensures r.Fail? ==> r == Fail(CannotOpen) && !open && isReadOnly == old(isReadOnly)
    {
      if !open {
        if !connects {
          return Fail(CannotOpen);
        }
        open := true;
      }
      isReadOnly := readOnly;
      r := Pass;
    }

    /** `CloseDatabase`: closes an open connection; a closed one stays closed. */
    method CloseDatabase()
      modifies this`open
      ensures !open
    {
      if open {
        open := false;
      }
    }

    /** `ExecuteNonQuery`: on an open connection, runs the statement after
        bracket normalisation; on a closed one, fails and runs nothing. */
    method ExecuteNonQuery(query: string) returns (r: Outcome<DbError>)
      modifies this`log
      ensures r.Pass? <==> open
      ensures r.Fail? ==> r.error == NotOpen
      ensures log == if open then old(log) + [Logged(query)] else old(log)
    {
      if open {
        log := log + [Logged(query)];
        r := Pass;
      } else {
        r := Fail(NotOpen);
      }
    }

    /** `ExecuteQuery`, up to the rows it returns: on an open connection the
        engine is given the normalised query; on a closed one it fails. */
    method ExecuteQuery(query: string) returns (r: Result<string, DbError>)
      ensures r.Success? <==> open
      ensures r.Success? ==> r.value == AdjustQuotedFields(query)
      ensures r.Failure? ==> r.error == NotOpen
    {
      if open {
        r := Success(AdjustQuotedFields(query));
      } else {
        r := Failure(NotOpen);
      }
    }

    /** `GetTableNames`: the catalog's table list when open, empty when closed. */
    function GetTableNames(): (names: seq<string>)
      reads this`open, this`catalogTables
      ensures !open ==> names == []
      ensures open ==> names == catalogTables
    {
      if open then catalogTables else []
    }

    /** The name the column query looks up: the table name upper-cased, as
        it appears in the normalised query text. */
    function CatalogKey(tableName: string): string {
      AdjustQuotedFields(Upper(tableName))
    }

    /** `GetColumnNames` (and `GetTableColumns`): the catalog's columns for
        the upper-cased name when open, empty when closed or unknown. */
    function GetColumnNames(tableName: string): (names: seq<string>)
      reads this`open, this`catalogColumns
      ensures !open ==> names == []
      ensures open && CatalogKey(tableName) in catalogColumns ==> names == catalogColumns[CatalogKey(tableName)]
      ensures CatalogKey(tableName) !in catalogColumns ==> names == []
    {
      if open && CatalogKey(tableName) in catalogColumns then catalogColumns[CatalogKey(tableName)] else []
    }

    /** `TableExists`: an exact-case match against the table names, so always
        false on a closed connection. */
    function TableExists(tableName: string): (b: bool)
      reads this`open, this`catalogTables
      ensures b <==> open && tableName in catalogTables
    {
      tableName in GetTableNames()
    }

    /** `CreateTable`: builds the statement (which throws when there are
        fewer types than names) and executes it. */
    method CreateTable(tableName: string, colNames: seq<string>, colTypes: seq<Option<string>>)
      returns (r: Outcome<DbError>)
      modifies this`log
      ensures |colNames| > |colTypes| ==> r == Fail(ArgumentOutOfRange) && log == old(log)
      ensures |colNames| <= |colTypes| ==> (r.Pass? <==> open)
      ensures |colNames| <= |colTypes| && open ==>
        log == old(log) + [Logged(CreateTableSQL(tableName, colNames, colTypes))]
      ensures !open ==> log == old(log)
    {
      var text := CreateTableText(tableName, colNames, colTypes);
      if text.Failure? {
        return Fail(ArgumentOutOfRange);
      }
      r := ExecuteNonQuery(text.value);
    }

    /** `BindParametersAndRunQuery`: binds one row of values to `query` and
        has the engine run it; a closed connection makes the driver fail. */
    method BindParametersAndRunQuery(query: string, values: seq<Obj>, culture: Culture)
      returns (r: Outcome<DbError>)
      modifies this`log
      ensures r.Pass? <==> open
      ensures r.Fail? ==> r.error == NotOpen
      ensures log == if open then old(log) + [Statement(query, Parameters(values, culture))] else old(log)
    {
      if !open {
        return Fail(NotOpen);
      }
      var ps := BindParameters(values, culture);
      log := log + [Statement(query, ps)];
      r := Pass;
    }

    /** `InsertRows`: one insert statement, executed once per row with that
        row's parameters; beginning the transaction fails when closed. */
    method InsertRows(tableName: string, columnNames: seq<string>, rows: seq<seq<Obj>>, culture: Culture)
      returns (r: Result<int, DbError>)
      modifies this`log
      ensures r.Success? <==> open
      ensures r.Success? ==> r.value == 0
      ensures r.Failure? ==> r.error == NotOpen
      ensures log == if open then old(log) + InsertLog(InsertSQL(tableName, columnNames), rows, culture) else old(log)
    {
      if !open {
        return Failure(NotOpen);
      }
      var sql := CreateInsertSQL(tableName, columnNames);
      var k := 0;
      while k < |rows|
        invariant 0 <= k <= |rows|
        invariant open
        invariant log == old(log) + InsertLog(sql, rows[..k], culture)
      {
        var _ := BindParametersAndRunQuery(sql, rows[k], culture);
        assert InsertLog(sql, rows[..k + 1], culture)
          == InsertLog(sql, rows[..k], culture) + [Statement(sql, Parameters(rows[k], culture))];
        k := k + 1;
      }
      assert rows[..k] == rows;
      r := Success(0);
    }

    /** The five statements of column removal, each through `ExecuteNonQuery`;
        the copy selects the accumulated quoted list `separated`. */
    method ExecuteDropScript(tableName: string, kept: seq<string>, separated: string)
      requires open
      requires separated == Join(",", QuotedNames(kept))
      modifies this`log
      ensures log == old(log) + DropLog(tableName, kept)
    {
      ghost var before := log;
      var c := "CREATE TABLE \"" + tableName + "\" AS SELECT " + separated + " FROM \"" + tableName + "_old\"";
      assert c == Render(CopyFromOld(tableName, kept));
      var a, b, d, e := Render(Begin), Render(RenameToOld(tableName)), Render(DropOld(tableName)), Render(End);
      var r := ExecuteNonQuery(a);
      ghost var after1 := log;
      r := ExecuteNonQuery(b);
      ghost var after2 := log;
      r := ExecuteNonQuery(c);
      ghost var after3 := log;
      r := ExecuteNonQuery(d);
      ghost var after4 := log;
      r := ExecuteNonQuery(e);
      AppendFive(before, after1, after2, after3, after4, log, Logged(a), Logged(b), Logged(c), Logged(d), Logged(e));
    }

    /** `DropColumns`: the table's columns less the removed ones, and, when
        any remain, the five removal statements; otherwise nothing. */
    method DropColumns(tableName: string, colsToRemove: seq<string>)
      modifies this`log
      ensures var kept := Without(GetColumnNames(tableName), colsToRemove);
        log == old(log) + if kept != [] then DropLog(tableName, kept) else []
    {
      var kept, separated := RetainedColumns(tableName, colsToRemove);
      if |kept| > 0 {
        ExecuteDropScript(tableName, kept, separated.value);
      }
    }

    /** The first half of `DropColumns`: the table's columns less the removed
        ones, and their quoted list accumulated from null. Columns can only
        remain on an open connection. */
    method RetainedColumns(tableName: string, colsToRemove: seq<string>)
      returns (kept: seq<string>, separated: Option<string>)
      ensures kept == Without(GetColumnNames(tableName), colsToRemove)
      ensures kept != [] ==> open
      ensures separated.None? <==> kept == []
      ensures separated.Some? ==> separated.value == Join(",", QuotedNames(kept))
    {
      var columns := GetColumnNames(tableName);
      kept := RemoveAll(columns, colsToRemove);
      separated := QuotedList(kept);
      WithoutLength(columns, colsToRemove);
    }
  }
}
