/** Column removal by rename, copy and drop: the retained column list, the
    five statements that carry it out, and their effect on a schema. */
module ColumnRemoval {
  import opened Wrappers
  import opened Strings
  import opened Statements

  /** `columns` without every name that occurs (exact case) in `removed`. */
  function Without(columns: seq<string>, removed: seq<string>): (r: seq<string>)
    decreases |columns|
  {
    if |columns| == 0 then []
    else
      var last := columns[|columns| - 1];
      Without(columns[..|columns| - 1], removed) + (if last in removed then [] else [last])
  }

  /** Removal never adds a column. */
  lemma {:induction false} WithoutLength(columns: seq<string>, removed: seq<string>)
    ensures |Without(columns, removed)| <= |columns|
    decreases |columns|
  {
    if |columns| > 0 {
      WithoutLength(columns[..|columns| - 1], removed);
    }
  }

  /** A name survives exactly when it is a column and is not removed. */
  lemma {:induction false} WithoutMembers(columns: seq<string>, removed: seq<string>)
    ensures forall c :: c in Without(columns, removed) <==> c in columns && c !in removed
    decreases |columns|
  {
    if |columns| > 0 {
      var init := columns[..|columns| - 1];
      WithoutMembers(init, removed);
      assert columns == init + [columns[|columns| - 1]];
    }
  }

  /** Removal distributes over concatenation: survivors keep their original
      relative order. */
  lemma {:induction false} WithoutConcat(a: seq<string>, b: seq<string>, removed: seq<string>)
    ensures Without(a + b, removed) == Without(a, removed) + Without(b, removed)
    decreases |b|
  {
    if |b| == 0 {
      assert a + b == a;
    } else {
      var b' := b[..|b| - 1];
      var last := b[|b| - 1];
      var tail := if last in removed then [] else [last];
      WithoutConcat(a, b', removed);
      assert (a + b)[..|a + b| - 1] == a + b';
      assert (a + b)[|a + b| - 1] == last;
      assert Without(a + b, removed) == Without(a + b', removed) + tail;
      assert Without(b, removed) == Without(b', removed) + tail;
    }
  }

  /** Removing nothing keeps every column. */
  lemma {:induction false} WithoutNothing(columns: seq<string>)
    ensures Without(columns, []) == columns
    decreases |columns|
  {
    if |columns| > 0 {
      WithoutNothing(columns[..|columns| - 1]);
    }
  }

  /** Removing the same names again changes nothing. */
  lemma {:induction false} WithoutIdempotent(columns: seq<string>, removed: seq<string>)
    ensures Without(Without(columns, removed), removed) == Without(columns, removed)
    decreases |columns|
  {
    if |columns| > 0 {
      var init := columns[..|columns| - 1];
      var last := columns[|columns| - 1];
      WithoutIdempotent(init, removed);
      var tail := if last in removed then [] else [last];
      WithoutConcat(Without(init, removed), tail, removed);
      if last !in removed {
        assert [last][..0] == [];
      }
    }
  }

  /** `List.RemoveAll(c => removed.Contains(c))` on the column list. */
  method RemoveAll(columns: seq<string>, removed: seq<string>) returns (kept: seq<string>)
    ensures kept == Without(columns, removed)
  {
    kept := [];
    var i := 0;
    while i < |columns|
      invariant 0 <= i <= |columns|
      invariant kept == Without(columns[..i], removed)
    {
      assert columns[..i + 1][..i] == columns[..i];
      if columns[i] !in removed {
        kept := kept + [columns[i]];
      }
      i := i + 1;
    }
    assert columns[..i] == columns;
  }

  /** String concatenation where a null left operand counts as empty. */
  function NullConcat(a: Option<string>, b: string): (r: string)
    ensures a.None? ==> r == b
    ensures a.Some? ==> r == a.value + b
  {
    match a
    case None => b
    case Some(s) => s + b
  }

  /** The quoted, comma-separated column list `DropColumns` accumulates,
      starting from null. */
  method QuotedList(columns: seq<string>) returns (separated: Option<string>)
    ensures separated.None? <==> columns == []
    ensures separated.Some? ==> separated.value == Join(",", QuotedNames(columns))
  {
    separated := None;
    var j := 0;
    while j < |columns|
      invariant 0 <= j <= |columns|
      invariant separated == if j == 0 then None else Some(Join(",", QuotedNames(columns[..j])))
    {
      if separated.Some? {
        separated := Some(separated.value + ",");
      }
      separated := Some(NullConcat(separated, "\"" + columns[j] + "\""));
      assert QuotedNames(columns[..j + 1]) == QuotedNames(columns[..j]) + [Quote(columns[j])];
      JoinAppend(",", QuotedNames(columns[..j]), Quote(columns[j]));
      j := j + 1;
    }
    assert columns[..j] == columns;
  }

  // ---------------------------------------------------------------------
  // The statements

  /** The statements the adapter issues, before normalisation. */
  datatype Ddl =
    | Begin
    | RenameToOld(table: string)
    | CopyFromOld(table: string, columns: seq<string>)
    | DropOld(table: string)
    | End

  /** The text of a statement, every identifier double-quoted. */
  function Render(d: Ddl): string {
    match d
    case Begin => "BEGIN"
    case RenameToOld(t) => "ALTER TABLE \"" + t + "\" RENAME TO \"" + t + "_old\""
    case CopyFromOld(t, cols) => "CREATE TABLE \"" + t + "\" AS SELECT " + Join(",", QuotedNames(cols)) + " FROM \"" + t + "_old\""
    case DropOld(t) => "DROP TABLE \"" + t + "_old\""
    case End => "END"
  }

  /** The name the table is parked under while it is copied. */
  function OldName(table: string): string {
    table + "_old"
  }

  /** The five steps that remove columns from `table`, keeping `retained`. */
  function DropScript(table: string, retained: seq<string>): seq<Ddl> {
    [Begin,
     RenameToOld(table),
     CopyFromOld(table, retained),
     DropOld(table),
     End]
  }

  // ---------------------------------------------------------------------
  // Effect on a schema

  /** Table names (exact case) and their ordered column lists. */
  type Schema = map<string, seq<string>>

  /** One statement applied to a schema; `None` is a failing statement. */
  function Apply(s: Schema, d: Ddl): Option<Schema> {
    match d
    case Begin => Some(s)
    case End => Some(s)
    case RenameToOld(t) =>
      if t in s && OldName(t) !in s then Some((s - {t})[OldName(t) := s[t]]) else None
    case CopyFromOld(t, cols) =>
      if t !in s && OldName(t) in s && (forall c :: c in cols ==> c in s[OldName(t)]) then Some(s[t := cols]) else None
    case DropOld(t) =>
      if OldName(t) in s then Some(s - {OldName(t)}) else None
  }

  /** A script run statement by statement, stopping at the first failure. */
  function Run(s: Schema, script: seq<Ddl>): Option<Schema>
    decreases |script|
  {
    if |script| == 0 then Some(s)
    else
      match Apply(s, script[0])
      case None => None
      case Some(s') => Run(s', script[1..])
  }

  /** Removing columns from an existing table, when some column survives and
      no `_old` table is in the way, leaves the table with exactly the
      retained columns in their original order, no `_old` table, and every
      other table as it was. */
  lemma DropColumnsEffect(s: Schema, table: string, removed: seq<string>)
    requires table in s && OldName(table) !in s
    requires Without(s[table], removed) != []
    ensures Run(s, DropScript(table, Without(s[table], removed))) == Some(s[table := Without(s[table], removed)])
    ensures OldName(table) !in s[table := Without(s[table], removed)]
  {
    var kept := Without(s[table], removed);
    WithoutMembers(s[table], removed);
    var old_ := OldName(table);
    assert table != old_ by {
      assert |old_| == |table| + 4;
    }
    var script := DropScript(table, kept);
    var s1 := (s - {table})[old_ := s[table]];
    var s2 := s1[table := kept];
    var s3 := s2 - {old_};
    assert s3 == s[table := kept];
    assert Run(s3, [End]) == Some(s3) by {
      assert [End][1..] == [];
    }
    assert Apply(s2, DropOld(table)) == Some(s3);
    assert Run(s2, [DropOld(table), End]) == Some(s3) by {
      assert [DropOld(table), End][1..] == [End];
    }
    assert Apply(s1, CopyFromOld(table, kept)) == Some(s2);
    assert Run(s1, script[2..]) == Some(s3) by {
      assert script[2..][1..] == [DropOld(table), End];
    }
    assert Apply(s, RenameToOld(table)) == Some(s1);
    assert Run(s, script[1..]) == Some(s3) by {
      assert script[1..][1..] == script[2..];
    }
  }

  /** Removing `b` from a table `T` with columns `a`, `b`, `c` leaves `T`
      with `a`, `c` and no `T_old`. */
  lemma DropColumnsExample()
    ensures Without(["a", "b", "c"], ["b"]) == ["a", "c"]
    ensures Run(map["T" := ["a", "b", "c"]], DropScript("T", Without(["a", "b", "c"], ["b"])))
      == Some(map["T" := ["a", "c"]])
  {
    var s: Schema := map["T" := ["a", "b", "c"]];
    assert OldName("T") == "T_old";
    assert Without(["a", "b", "c"], ["b"]) == ["a", "c"] by {
      assert ["a", "b", "c"][..2] == ["a", "b"];
      assert ["a", "b"][..1] == ["a"];
      assert ["a"][..0] == [];
    }
    DropColumnsEffect(s, "T", ["b"]);
    assert s["T" := ["a", "c"]] == map["T" := ["a", "c"]];
  }

  /** A leftover `_old` table makes the rename fail, so nothing after it runs. */
  lemma LeftoverOldTableBlocks(s: Schema, table: string, retained: seq<string>)
    requires OldName(table) in s
    ensures Run(s, DropScript(table, retained)).None?
  {
    var script := DropScript(table, retained);
    assert Apply(s, script[0]) == Some(s);
    assert Apply(s, script[1]).None?;
  }

  /** No `[` or `]` in `s`. */
  predicate BracketFree(s: string) {
    '[' !in s && ']' !in s
  }

  /** Each removal statement renders without brackets when its names hold none. */
  lemma RenameBracketFree(t: string)
    requires BracketFree(t)
    ensures BracketFree(Render(RenameToOld(t)))
  {
  }

  lemma CopyBracketFree(t: string, cols: seq<string>)
    requires BracketFree(t) && forall i :: 0 <= i < |cols| ==> BracketFree(cols[i])
    ensures BracketFree(Render(CopyFromOld(t, cols)))
  {
    var qs := QuotedNames(cols);
    forall i | 0 <= i < |qs| ensures BracketFree(qs[i]) {
      assert qs[i] == "\"" + cols[i] + "\"";
    }
    JoinBracketFree(qs);
    var list := Join(",", qs);
    var head := "CREATE TABLE \"" + t + "\" AS SELECT ";
    var tail := " FROM \"" + t + "_old\"";
    assert BracketFree(head) && BracketFree(tail);
    ConcatBracketFree(head, list);
    ConcatBracketFree(head + list, tail);
  }

  lemma ConcatBracketFree(a: string, b: string)
    requires BracketFree(a) && BracketFree(b)
    ensures BracketFree(a + b)
  {
  }

  lemma DropBracketFree(t: string)
    requires BracketFree(t)
    ensures BracketFree(Render(DropOld(t)))
  {
  }

  /** The removal statements hold no brackets when the names do not, so
      normalising them before execution leaves them as rendered. */
  lemma DropScriptBracketFree(table: string, retained: seq<string>)
    requires BracketFree(table)
    requires forall i :: 0 <= i < |retained| ==> BracketFree(retained[i])
    ensures forall d :: d in DropScript(table, retained) ==> AdjustQuotedFields(Render(d)) == Render(d)
  {
    RenameBracketFree(table);
    CopyBracketFree(table, retained);
    DropBracketFree(table);
    forall d | d in DropScript(table, retained)
      ensures AdjustQuotedFields(Render(d)) == Render(d)
    {
      AdjustQuotedFieldsKeepsBracketFree(Render(d));
    }
  }

  lemma {:induction false} JoinBracketFree(xs: seq<string>)
    requires forall i :: 0 <= i < |xs| ==> BracketFree(xs[i])
    ensures BracketFree(Join(",", xs))
    decreases |xs|
  {
    if |xs| > 1 {
      JoinBracketFree(xs[..|xs| - 1]);
    }
  }
}
