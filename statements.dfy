/** The SQL text the adapter builds itself: the parameterised INSERT, the
    CREATE TABLE statement, the bracket-to-double-quote normalisation applied
    to every raw statement, and the DDL type name of a runtime value. */
module Statements {
  import opened Wrappers
  import opened Strings
  import opened Values

  /** A column name between double quotes, verbatim (embedded quotes are not escaped). */
  function Quote(name: string): string {
    "\"" + name + "\""
  }

  function QuotedNames(names: seq<string>): (r: seq<string>)
    ensures |r| == |names|
    ensures forall i :: 0 <= i < |names| ==> r[i] == Quote(names[i])
  {
    seq(|names|, i requires 0 <= i < |names| => Quote(names[i]))
  }

  /** The positional placeholder `@k`. */
  function Placeholder(k: nat): string {
    "@" + NatToString(k)
  }

  /** `@1` .. `@n`, in order. */
  function Placeholders(n: nat): (r: seq<string>)
    ensures |r| == n
    ensures forall i :: 0 <= i < n ==> r[i] == Placeholder(i + 1)
  {
    seq(n, i requires 0 <= i < n => Placeholder(i + 1))
  }

  /** Distinct positions have distinct placeholders. */
  lemma PlaceholderInjective(j: nat, k: nat)
    ensures Placeholder(j) == Placeholder(k) ==> j == k
  {
    if Placeholder(j) == Placeholder(k) {
      assert NatToString(j) == Placeholder(j)[1..];
      assert NatToString(k) == Placeholder(k)[1..];
      NatToStringInjective(j, k);
    }
  }

  // ---------------------------------------------------------------------
  // INSERT

  /** The parameterised insert statement for `table` and `columns`. */
  function InsertSQL(table: string, columns: seq<string>): string {
    "INSERT INTO " + table + "(" + Join(",", QuotedNames(columns))
      + ") VALUES (" + Join(",", Placeholders(|columns|)) + ")"
  }

  /** `CreateInsertSQL`: the statement built with a string builder, column by
      column and then placeholder by placeholder. */
  method CreateInsertSQL(tableName: string, columnNames: seq<string>) returns (sql: string)
    ensures sql == InsertSQL(tableName, columnNames)
  {
    sql := "INSERT INTO " + tableName + "(";
    sql := AppendQuotedNames(sql, columnNames);
    sql := sql + ") VALUES (";
    sql := AppendPlaceholders(sql, |columnNames|);
    sql := sql + ")";
  }

  /** The first loop of `CreateInsertSQL`: each name in double quotes, a
      comma before every name but the first. */
  method AppendQuotedNames(start: string, names: seq<string>) returns (sql: string)
    ensures sql == start + Join(",", QuotedNames(names))
  {
    sql := start;
    var i := 0;
    while i < |names|
      invariant 0 <= i <= |names|
      invariant sql == start + Join(",", QuotedNames(names[..i]))
    {
      ghost var done := QuotedNames(names[..i]);
      BuilderAppend(start, ",", done, Quote(names[i]));
      assert done + [Quote(names[i])] == QuotedNames(names[..i + 1]);
      if i > 0 {
        sql := sql + ",";
      }
      sql := sql + ("\"" + names[i] + "\"");
      i := i + 1;
    }
    assert names[..i] == names;
  }

  /** The second loop of `CreateInsertSQL`: `@1` to `@n`, comma-separated. */
  method AppendPlaceholders(start: string, n: nat) returns (sql: string)
    ensures sql == start + Join(",", Placeholders(n))
  {
    sql := start;
    var i := 0;
    while i < n
      invariant 0 <= i <= n
      invariant sql == start + Join(",", Placeholders(i))
    {
      BuilderAppend(start, ",", Placeholders(i), Placeholder(i + 1));
      assert Placeholders(i) + [Placeholder(i + 1)] == Placeholders(i + 1);
      if i > 0 {
        sql := sql + ",";
      }
      sql := sql + ("@" + NatToString(i + 1));
      i := i + 1;
    }
  }

  /** A placeholder holds no comma. */
  lemma PlaceholderHasNoComma(k: nat)
    ensures ',' !in Placeholder(k)
  {
    var s := NatToString(k);
    var p := Placeholder(k);
    assert forall i :: 1 <= i < |p| ==> p[i] == s[i - 1];
    assert forall i :: 0 <= i < |p| ==> p[i] != ',';
  }

  /** The VALUES list for `n >= 1` columns, split at its commas, gives exactly
      `n` placeholders, the k-th (from 0) being `@k+1`, whatever the names.
      (With no columns the list is empty, and splitting it gives one empty
      piece.) */
  lemma InsertPlaceholdersCount(n: nat)
    requires n >= 1
    ensures Split(',', Join(",", Placeholders(n))) == Placeholders(n)
    ensures |Split(',', Join(",", Placeholders(n)))| == n
    ensures forall k :: 0 <= k < n ==> Split(',', Join(",", Placeholders(n)))[k] == "@" + NatToString(k + 1)
  {
    var ps := Placeholders(n);
    forall i | 0 <= i < |ps| ensures ',' !in ps[i] {
      PlaceholderHasNoComma(i + 1);
    }
    SplitJoin(',', ps);
  }

  /** When there is at least one column and no name holds a comma, the
      column list splits into exactly
      the quoted names, in order, so the k-th placeholder stands for the k-th
      column. */
  lemma InsertPlaceholdersMatchColumns(columns: seq<string>)
    requires |columns| >= 1
    requires forall i :: 0 <= i < |columns| ==> ',' !in columns[i]
    ensures Split(',', Join(",", QuotedNames(columns))) == QuotedNames(columns)
    ensures Split(',', Join(",", Placeholders(|columns|))) == Placeholders(|columns|)
    ensures forall k :: 0 <= k < |columns| ==>
      Split(',', Join(",", Placeholders(|columns|)))[k] == "@" + NatToString(k + 1) &&
      Split(',', Join(",", QuotedNames(columns)))[k] == "\"" + columns[k] + "\""
  {
    InsertPlaceholdersCount(|columns|);
    var qs := QuotedNames(columns);
    forall i | 0 <= i < |qs| ensures ',' !in qs[i] {
      assert qs[i] == ['"'] + columns[i] + ['"'];
    }
    SplitJoin(',', qs);
  }

  lemma TwoPlaceholders()
    ensures Join(",", Placeholders(2)) == "@1,@2"
  {
    assert NatToString(1) == "1" && NatToString(2) == "2";
    assert Placeholder(1) == "@1" && Placeholder(2) == "@2";
    assert Placeholders(2) == ["@1", "@2"];
    assert ["@1", "@2"][..1] == ["@1"];
  }

  lemma TwoQuotedNames()
    ensures Join(",", QuotedNames(["a", "b"])) == "\"a\",\"b\""
  {
    assert Quote("a") == "\"a\"" && Quote("b") == "\"b\"";
    assert QuotedNames(["a", "b"]) == ["\"a\"", "\"b\""];
    assert ["\"a\"", "\"b\""][..1] == ["\"a\""];
  }

  /** The two-column example: `INSERT INTO T("a","b") VALUES (@1,@2)`. */
  lemma InsertExample()
    ensures InsertSQL("T", ["a", "b"]) == "INSERT INTO T(\"a\",\"b\") VALUES (@1,@2)"
  {
    TwoPlaceholders();
    TwoQuotedNames();
  }

  // ---------------------------------------------------------------------
  // CREATE TABLE

  /** A column type as given; a null type becomes `INTEGER`. */
  function ColumnType(ty: Option<string>): string {
    match ty
    case None => "INTEGER"
    case Some(t) => t
  }

  /** `"name" TYPE`. */
  function ColumnDefinition(name: string, ty: Option<string>): string {
    Quote(name) + " " + ColumnType(ty)
  }

  function ColumnDefinitions(names: seq<string>, types: seq<Option<string>>): (r: seq<string>)
    requires |names| <= |types|
    ensures |r| == |names|
    ensures forall i :: 0 <= i < |names| ==> r[i] == ColumnDefinition(names[i], types[i])
  {
    seq(|names|, i requires 0 <= i < |names| => ColumnDefinition(names[i], types[i]))
  }

  /** The create-table statement for parallel name and type lists. */
  function CreateTableSQL(table: string, names: seq<string>, types: seq<Option<string>>): string
    requires |names| <= |types|
  {
    "CREATE TABLE " + table + " (" + Join(",", ColumnDefinitions(names, types)) + ")"
  }

  lemma ColumnDefinitionsAppend(names: seq<string>, types: seq<Option<string>>, c: nat)
    requires c < |names| && c < |types|
    ensures ColumnDefinitions(names[..c + 1], types[..c + 1])
      == ColumnDefinitions(names[..c], types[..c]) + [ColumnDefinition(names[c], types[c])]
  {
  }

  /** The appends for one column of `CreateTable`: the quoted name, a space,
      and the type or `INTEGER` for a null type. */
  method DefinitionText(name: string, ty: Option<string>) returns (piece: string)
    ensures piece == ColumnDefinition(name, ty)
    ensures |piece| >= 3
  {
    piece := "\"" + name + "\" ";
    if ty.None? {
      piece := piece + "INTEGER";
    } else {
      piece := piece + ty.value;
    }
  }

  /** One pass of the `CreateTable` loop: a comma when the builder is not
      empty, then the next definition, extends the joined definitions by one. */
  lemma DefinitionStep(body: string, names: seq<string>, types: seq<Option<string>>, c: nat, piece: string)
    requires c < |names| && c < |types|
    requires body == "" + Join(",", ColumnDefinitions(names[..c], types[..c]))
    requires |body| > 0 <==> c > 0
    requires piece == ColumnDefinition(names[c], types[c]) && |piece| > 0
    ensures (if |body| > 0 then body + "," else body) + piece
      == "" + Join(",", ColumnDefinitions(names[..c + 1], types[..c + 1]))
    ensures |(if |body| > 0 then body + "," else body) + piece| > 0
  {
    var done := ColumnDefinitions(names[..c], types[..c]);
    ColumnDefinitionsAppend(names, types, c);
    BuilderAppend("", ",", done, piece);
  }

  /** Why building a statement can fail. */
  datatype BuildError = TypeIndexOutOfRange

  /** The statement text `CreateTable` builds: definitions are appended one by
      one, a comma first whenever the builder is not empty, and the head is
      inserted in front at the end. Running out of types throws before
      anything is executed. */
  method CreateTableText(tableName: string, colNames: seq<string>, colTypes: seq<Option<string>>)
    returns (r: Result<string, BuildError>)
    ensures r.Success? <==> |colNames| <= |colTypes|
    ensures r.Success? ==> r.value == CreateTableSQL(tableName, colNames, colTypes)
    ensures r.Failure? ==> r.error == TypeIndexOutOfRange
  {
    var body := "";
    var c := 0;
    while c < |colNames|
      invariant 0 <= c <= |colNames| && c <= |colTypes|
      invariant |body| > 0 <==> c > 0
      invariant body == "" + Join(",", ColumnDefinitions(colNames[..c], colTypes[..c]))
    {
      if c >= |colTypes| {
        return Failure(TypeIndexOutOfRange);
      }
      var piece := DefinitionText(colNames[c], colTypes[c]);
      DefinitionStep(body, colNames, colTypes, c, piece);
      if |body| > 0 {
        body := body + ",";
      }
      body := body + piece;
      c := c + 1;
    }
    assert colNames[..c] == colNames;
    assert ColumnDefinitions(colNames, colTypes[..c]) == ColumnDefinitions(colNames, colTypes);
    r := Success("CREATE TABLE " + tableName + " (" + body + ")");
  }

  /** When there is at least one name, at least as many types, and no name
      or type holds a comma, the column list splits back into
      one definition per column, in the given order, with a null type read
      as `INTEGER`. */
  lemma CreateTableColumnsInOrder(names: seq<string>, types: seq<Option<string>>)
    requires 1 <= |names| <= |types|
    requires forall i :: 0 <= i < |names| ==> ',' !in names[i] && ',' !in ColumnType(types[i])
    ensures |Split(',', Join(",", ColumnDefinitions(names, types)))| == |names|
    ensures forall k :: 0 <= k < |names| ==>
      Split(',', Join(",", ColumnDefinitions(names, types)))[k] ==
        "\"" + names[k] + "\" " + (if types[k].None? then "INTEGER" else types[k].value)
  {
    var ds := ColumnDefinitions(names, types);
    forall i | 0 <= i < |ds| ensures ',' !in ds[i] {
      assert ds[i] == ['"'] + names[i] + ['"', ' '] + ColumnType(types[i]);
    }
    SplitJoin(',', ds);
  }

  // ---------------------------------------------------------------------
  // Quote normalisation

  /** `AdjustQuotedFields`: every `[` and every `]` becomes `"`. */
  function AdjustQuotedFields(sql: string): (r: string)
    ensures |r| == |sql|
    ensures forall i :: 0 <= i < |sql| ==>
      r[i] == if sql[i] == '[' || sql[i] == ']' then '"' else sql[i]
    ensures '[' !in r && ']' !in r
  {
    Replace(Replace(sql, '[', '"'), ']', '"')
  }

  /** Normalising twice is normalising once. */
  lemma AdjustQuotedFieldsIdempotent(sql: string)
    ensures AdjustQuotedFields(AdjustQuotedFields(sql)) == AdjustQuotedFields(sql)
  {
    var once := AdjustQuotedFields(sql);
    assert forall i :: 0 <= i < |once| ==> AdjustQuotedFields(once)[i] == once[i];
  }

  /** Text without brackets passes through unchanged. */
  lemma AdjustQuotedFieldsKeepsBracketFree(sql: string)
    requires '[' !in sql && ']' !in sql
    ensures AdjustQuotedFields(sql) == sql
  {
    assert forall i :: 0 <= i < |sql| ==> AdjustQuotedFields(sql)[i] == sql[i];
  }

  // ---------------------------------------------------------------------
  // DDL type names

  /** `GetDBDataTypeName`: the DDL type for a value's runtime type; a null
      reference has no type and gives null. The branch for a missing type
      cannot be reached, since every non-null value has a runtime type. */
  function GetDBDataTypeName(value: Obj): (r: Option<string>)
    ensures r.None? <==> value.NullObj?
    ensures r == Some("TIMESTAMP") <==> value.DateTimeObj?
    ensures r == Some("INTEGER") <==> value.IntObj?
    ensures r == Some("FLOAT") <==> value.FloatObj?
    ensures r == Some("DOUBLE PRECISION") <==> value.DoubleObj?
    ensures r.Some? && !(value.DateTimeObj? || value.IntObj? || value.FloatObj? || value.DoubleObj?)
      ==> r == Some("VARCHAR(50)")
  {
    match value
    case NullObj => None
    case DateTimeObj(_) => Some("TIMESTAMP")
    case IntObj(_) => Some("INTEGER")
    case FloatObj(_) => Some("FLOAT")
    case DoubleObj(_) => Some("DOUBLE PRECISION")
    case _ => Some("VARCHAR(50)")
  }

  /** Feeding the type names of a row of sample values to the create-table
      text: a null sample and an int sample both give an `INTEGER` column. */
  lemma CreateTableFromSamples(names: seq<string>, samples: seq<Obj>, k: nat)
    requires |names| == |samples| && k < |names|
    requires samples[k].NullObj? || samples[k].IntObj?
    ensures var types := seq(|samples|, i requires 0 <= i < |samples| => GetDBDataTypeName(samples[i]));
      ColumnDefinitions(names, types)[k] == "\"" + names[k] + "\" INTEGER"
  {
  }
}
