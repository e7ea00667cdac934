/** The per-column accumulator that infers one type for a result column from
    the cells appended to it row by row, and converts a cell back on read. */
module ColumnTyping {
  import opened Wrappers
  import opened Values

  /** The column's type tag, `dataType`; `Unset` is the initial null. */
  datatype DataType = Unset | IntType | DoubleType | ByteArrayType | DateTimeType | StringType

  /** One stored entry of the `values` list. */
  datatype Cell =
    | NullCell
    | IntCell(i: int32)
    | DoubleCell(d: Float64)
    | BytesCell(bytes: Option<seq<bv8>>)  // a byte array, or a null array reference
    | DateCell(t: DateTime)
    | TextCell(s: Option<string>)        // a text that is not an exact date, or a null string

  /** The stored entry is a null reference: one appended by `addNull`, or a
      null array or null string handed to the other appends. */
  predicate IsNull(cell: Cell) {
    cell.NullCell? || (cell.BytesCell? && cell.bytes.None?) || (cell.TextCell? && cell.s.None?)
  }

  /** What `GetValue` hands back. `Converted(tag, cell)` stands for a
      `Convert.ToInt32/ToDouble/ToDateTime` of a cell that is not already of
      the tag's type; the conversion itself is not modelled. */
  datatype ReadValue =
    | DbNull
    | AsInt32(i: int32)
    | AsDouble(d: Float64)
    | AsDateTime(t: DateTime)
    | AsStored(cell: Cell)
    | AsText(s: string)
    | Converted(target: DataType, source: Cell)

  datatype ReadError = NotEnoughValues | IndexOutOfRange

  /** The tag after appending `cell` to a column tagged `tag`. */
  function Step(tag: DataType, cell: Cell): DataType {
    match cell
    case NullCell => tag
    case IntCell(_) => if tag == Unset then IntType else tag
    case DoubleCell(_) => if tag == Unset || tag == IntType then DoubleType else tag
    case BytesCell(_) => if tag == Unset || tag == ByteArrayType then ByteArrayType else tag
    case DateCell(_) => if tag == Unset then DateTimeType else tag
    case TextCell(_) => StringType
  }

  /** The tag of a column whose stored entries are `cells`, appended in order. */
  function TagOf(cells: seq<Cell>): DataType
    decreases |cells|
  {
    if |cells| == 0 then Unset else Step(TagOf(cells[..|cells| - 1]), cells[|cells| - 1])
  }

  lemma TagOfAppend(cells: seq<Cell>, c: Cell)
    ensures TagOf(cells + [c]) == Step(TagOf(cells), c)
  {
    assert (cells + [c])[..|cells|] == cells;
  }

  /** The cell `addTextValue` stores: the parsed date when the text has the
      exact date pattern, the text itself otherwise. */
  function TextEntry(culture: Culture, value: Option<string>): Cell {
    match value
    case None => TextCell(None)  // the exact parse of a null string fails
    case Some(s) =>
      match culture.parseExact(s)
      case Some(d) => DateCell(d)
      case None => TextCell(Some(s))
  }

  // ---------------------------------------------------------------------
  // The tag only ever widens.

  /** `b` is a tag that a column tagged `a` can end up with. */
  predicate Widens(a: DataType, b: DataType) {
    a == b || a == Unset || (a == IntType && b == DoubleType) || b == StringType
  }

  /** Whatever is appended after a prefix, the tag only widens. */
  lemma {:induction false} OnlyWidens(h: seq<Cell>, k: seq<Cell>)
    ensures Widens(TagOf(h), TagOf(h + k))
    decreases |k|
  {
    if |k| == 0 {
      assert h + k == h;
    } else {
      var k' := k[..|k| - 1];
      OnlyWidens(h, k');
      assert h + k == (h + k') + [k[|k| - 1]];
      TagOfAppend(h + k', k[|k| - 1]);
    }
  }

  /** Once the tag is string, no append changes it. */
  lemma StringAbsorbs(h: seq<Cell>, k: seq<Cell>)
    requires TagOf(h) == StringType
    ensures TagOf(h + k) == StringType
  {
    OnlyWidens(h, k);
  }

  /** Once the tag is double, it never returns to int (nor to anything but string). */
  lemma DoubleNeverNarrows(h: seq<Cell>, k: seq<Cell>)
    requires TagOf(h) == DoubleType
    ensures TagOf(h + k) == DoubleType || TagOf(h + k) == StringType
  {
    OnlyWidens(h, k);
  }

  // ---------------------------------------------------------------------
  // The tag in closed form.

  /** The tag is string exactly when some non-date (possibly null) text was appended. */
  lemma {:induction false} TagIsStringIff(cells: seq<Cell>)
    ensures TagOf(cells) == StringType <==> exists i :: 0 <= i < |cells| && cells[i].TextCell?
    decreases |cells|
  {
    if |cells| > 0 {
      var h := cells[..|cells| - 1];
      TagIsStringIff(h);
      assert cells == h + [cells[|cells| - 1]];
      if exists i :: 0 <= i < |h| && h[i].TextCell? {
        var i :| 0 <= i < |h| && h[i].TextCell?;
        assert cells[i].TextCell?;
      }
      if exists i :: 0 <= i < |cells| && cells[i].TextCell? {
        var i :| 0 <= i < |cells| && cells[i].TextCell?;
        if i < |h| { assert h[i].TextCell?; }
      }
    }
  }

  /** The tag is unset exactly when every entry was appended by `addNull`. */
  lemma {:induction false} TagIsUnsetIff(cells: seq<Cell>)
    ensures TagOf(cells) == Unset <==> forall i :: 0 <= i < |cells| ==> cells[i].NullCell?
    decreases |cells|
  {
    if |cells| > 0 {
      var h := cells[..|cells| - 1];
      TagIsUnsetIff(h);
      assert forall i :: 0 <= i < |h| ==> h[i] == cells[i];
    }
  }

  /** Some entry holds a double. */
  predicate HasDouble(cells: seq<Cell>) {
    exists j :: 0 <= j < |cells| && cells[j].DoubleCell?
  }

  /** The tag a text-free column gets from its first non-null entry at `f`. */
  function FirstEntryTag(cells: seq<Cell>, f: nat): DataType
    requires f < |cells|
  {
    match cells[f]
    case IntCell(_) => if HasDouble(cells) then DoubleType else IntType
    case DoubleCell(_) => DoubleType
    case BytesCell(_) => ByteArrayType
    case DateCell(_) => DateTimeType
    case _ => Unset
  }

  /** In a column with no non-date text, the first non-null entry fixes the
      tag, and the only later change is int widening to double. */
  lemma {:induction false} TagFromFirstEntry(cells: seq<Cell>, f: nat)
    requires f < |cells| && !cells[f].NullCell?
    requires forall i :: 0 <= i < f ==> cells[i].NullCell?
    requires forall i :: 0 <= i < |cells| ==> !cells[i].TextCell?
    ensures TagOf(cells) == FirstEntryTag(cells, f)
    decreases |cells|
  {
    var h := cells[..|cells| - 1];
    assert forall i :: 0 <= i < |h| ==> h[i] == cells[i];
    if |cells| == f + 1 {
      TagIsUnsetIff(h);
      assert !HasDouble(h);
      if HasDouble(cells) {
        var j :| 0 <= j < |cells| && cells[j].DoubleCell?;
        assert j == f;
      }
    } else {
      TagFromFirstEntry(h, f);
      assert HasDouble(cells) <==> HasDouble(h) || cells[|cells| - 1].DoubleCell? by {
        if HasDouble(cells) {
          var j :| 0 <= j < |cells| && cells[j].DoubleCell?;
          if j < |h| { assert h[j].DoubleCell?; }
        }
        if HasDouble(h) {
          var j :| 0 <= j < |h| && h[j].DoubleCell?;
          assert cells[j].DoubleCell?;
        }
      }
    }
  }

  /** Every entry before `f` is null, and `f` is the first non-null one. */
  lemma {:induction false} FirstNonNullExists(cells: seq<Cell>, i: nat)
    requires i < |cells| && !cells[i].NullCell?
    ensures exists f :: 0 <= f <= i && !cells[f].NullCell? && forall k :: 0 <= k < f ==> cells[k].NullCell?
    decreases i
  {
    if i > 0 && !(forall k :: 0 <= k < i ==> cells[k].NullCell?) {
      var k :| 0 <= k < i && !cells[k].NullCell?;
      FirstNonNullExists(cells, k);
    }
  }

  /** A column of ints and nulls with at least one later double is tagged
      double, and each of its ints reads back through the double conversion. */
  lemma IntsThenDoubleReadAsDouble(cells: seq<Cell>, i: nat, j: nat, culture: Culture)
    requires forall k :: 0 <= k < |cells| ==> cells[k].NullCell? || cells[k].IntCell? || cells[k].DoubleCell?
    requires i < j < |cells| && cells[i].IntCell? && cells[j].DoubleCell?
    ensures TagOf(cells) == DoubleType
    ensures ReadCell(TagOf(cells), cells[i], culture) == Converted(DoubleType, cells[i])
  {
    FirstNonNullExists(cells, i);
    var f :| 0 <= f <= i && !cells[f].NullCell? && forall k :: 0 <= k < f ==> cells[k].NullCell?;
    TagFromFirstEntry(cells, f);
  }

  /** A column of byte arrays and nulls is tagged byte[], and every array
      reads back exactly as stored (a null array as DBNull). */
  lemma ByteColumnReadsBack(cells: seq<Cell>, i: nat, culture: Culture)
    requires forall k :: 0 <= k < |cells| ==> cells[k].NullCell? || cells[k].BytesCell?
    requires i < |cells| && cells[i].BytesCell?
    ensures TagOf(cells) == ByteArrayType
    ensures ReadCell(TagOf(cells), cells[i], culture) ==
      if cells[i].bytes.None? then DbNull else AsStored(BytesCell(cells[i].bytes))
  {
    FirstNonNullExists(cells, i);
    var f :| 0 <= f <= i && !cells[f].NullCell? && forall k :: 0 <= k < f ==> cells[k].NullCell?;
    TagFromFirstEntry(cells, f);
  }

  // ---------------------------------------------------------------------
  // Read-back.

  /** `ToString()` of a stored entry that is neither null nor a date. */
  function EntryText(cell: Cell, culture: Culture): string
    requires !IsNull(cell) && !cell.DateCell?
  {
    match cell
    case IntCell(n) => culture.intText(n)
    case DoubleCell(d) => culture.doubleText(d)
    case BytesCell(_) => "System.Byte[]"
    case TextCell(s) => s.value
  }

  /** The value `GetValue` returns for a stored entry under the final tag. */
  function ReadCell(tag: DataType, cell: Cell, culture: Culture): ReadValue {
    if IsNull(cell) then DbNull
    else if tag == IntType then
      (if cell.IntCell? then AsInt32(cell.i) else Converted(IntType, cell))
    else if tag == DoubleType then
      (if cell.DoubleCell? then AsDouble(cell.d) else Converted(DoubleType, cell))
    else if tag == DateTimeType then
      (if cell.DateCell? then AsDateTime(cell.t) else Converted(DateTimeType, cell))
    else if tag == ByteArrayType then AsStored(cell)
    else if cell.DateCell? then AsText(culture.storedText(cell.t))
    else AsText(EntryText(cell, culture))
  }

  /** Text appended to a column that ends up tagged string reads back as the
      same text, provided the culture formats a parsed date back to the text
      it was parsed from. */
  lemma TextRoundTrip(h: seq<Cell>, s: string, k: seq<Cell>, culture: Culture)
    requires culture.parseExact(s).Some? ==> culture.storedText(culture.parseExact(s).value) == s
    requires TagOf(h + [TextEntry(culture, Some(s))] + k) == StringType
    ensures ReadCell(TagOf(h + [TextEntry(culture, Some(s))] + k), TextEntry(culture, Some(s)), culture) == AsText(s)
  {
  }

  /** A text that parses as a date, appended to a column that ends up tagged
      DateTime, reads back as the parsed date. */
  lemma DateRoundTrip(h: seq<Cell>, s: string, d: DateTime, k: seq<Cell>, culture: Culture)
    requires culture.parseExact(s) == Some(d)
    requires TagOf(h + [TextEntry(culture, Some(s))] + k) == DateTimeType
    ensures ReadCell(DateTimeType, TextEntry(culture, Some(s)), culture) == AsDateTime(d)
  {
  }

  /** A text that does not parse as a date, a null one included, forces the
      tag to string, for good. */
  lemma PlainTextForcesString(h: seq<Cell>, value: Option<string>, k: seq<Cell>, culture: Culture)
    requires value.None? || culture.parseExact(value.value).None?
    ensures TagOf(h + [TextEntry(culture, value)] + k) == StringType
  {
    TagOfAppend(h, TextEntry(culture, value));
    StringAbsorbs(h + [TextEntry(culture, value)], k);
  }

  /** A null string or a null array is stored as a null entry that reads back
      as DBNull, yet it still moves the tag: a column of nothing but null
      entries can be tagged string or byte[]. */
  lemma NullPayloadsMoveTag(culture: Culture)
    ensures IsNull(TextEntry(culture, None)) && IsNull(BytesCell(None))
    ensures TagOf([TextEntry(culture, None)]) == StringType
    ensures TagOf([BytesCell(None)]) == ByteArrayType
    ensures forall tag :: ReadCell(tag, TextEntry(culture, None), culture) == DbNull
    ensures forall tag :: ReadCell(tag, BytesCell(None), culture) == DbNull
  {
    TagOfAppend([], TextEntry(culture, None));
    TagOfAppend([], BytesCell(None));
    assert [] + [TextEntry(culture, None)] == [TextEntry(culture, None)];
    assert [] + [BytesCell(None)] == [BytesCell(None)];
  }

  /** The accumulator: a type tag and the list of stored entries. */
  class Column {
    var dataType: DataType
    var values: seq<Cell>

    /** The tag is always the one the appended entries determine. */
    ghost predicate Valid()
      reads this
    {
      dataType == TagOf(values)
    }

    constructor ()
      ensures Valid()
      ensures dataType == Unset && values == []
    {
      dataType := Unset;
      values := [];
    }

    method AddIntValue(value: int32)
      requires Valid()
      modifies this
      ensures Valid()
      ensures values == old(values) + [IntCell(value)]
      ensures dataType == if old(dataType) == Unset then IntType else old(dataType)
    {
      TagOfAppend(values, IntCell(value));
      if dataType == Unset {
        dataType := IntType;
      }
      values := values + [IntCell(value)];
    }

    method AddDoubleValue(value: Float64)
      requires Valid()
      modifies this
      ensures Valid()
      ensures values == old(values) + [DoubleCell(value)]
      ensures dataType == if old(dataType) in {Unset, IntType} then DoubleType else old(dataType)
    {
      TagOfAppend(values, DoubleCell(value));
      if dataType == Unset || dataType == IntType {
        dataType := DoubleType;
      }
      values := values + [DoubleCell(value)];
    }

    method AddByteArrayValue(value: Option<seq<bv8>>)
      requires Valid()
      modifies this
      ensures Valid()
      ensures values == old(values) + [BytesCell(value)]
      ensures dataType == if old(dataType) == Unset then ByteArrayType else old(dataType)
    {
      TagOfAppend(values, BytesCell(value));
      if dataType == Unset || dataType == ByteArrayType {
        dataType := ByteArrayType;
      }
      values := values + [BytesCell(value)];
    }

    method AddTextValue(value: Option<string>, culture: Culture)
      requires Valid()
      modifies this
      ensures Valid()
      ensures values == old(values) + [TextEntry(culture, value)]
      ensures value.Some? && culture.parseExact(value.value).Some? ==>
        dataType == if old(dataType) == Unset then DateTimeType else old(dataType)
      ensures value.None? || culture.parseExact(value.value).None? ==> dataType == StringType
    {
      var date := if value.Some? then culture.parseExact(value.value) else None;
      if date.Some? {
        var cell := DateCell(date.value);
        assert cell == TextEntry(culture, value);
        TagOfAppend(values, cell);
        if dataType == Unset {
          dataType := DateTimeType;
        }
        values := values + [cell];
      } else {
        var cell := TextCell(value);
        assert cell == TextEntry(culture, value);
        TagOfAppend(values, cell);
        dataType := StringType;
        values := values + [cell];
      }
    }

    method AddNull()
      requires Valid()
      modifies this
      ensures Valid()
      ensures values == old(values) + [NullCell]
      ensures dataType == old(dataType)
    {
      TagOfAppend(values, NullCell);
      values := values + [NullCell];
    }

    /** The entry at `rowIndex`, converted according to the final tag. */
    function GetValue(rowIndex: int, culture: Culture): (r: Result<ReadValue, ReadError>)
      reads this
      ensures r.Success? <==> 0 <= rowIndex < |values|
      ensures rowIndex >= |values| ==> r == Failure(NotEnoughValues)
      ensures 0 <= rowIndex < |values| && IsNull(values[rowIndex]) ==> r == Success(DbNull)
      ensures 0 <= rowIndex < |values| && !IsNull(values[rowIndex]) && dataType == ByteArrayType ==>
        r == Success(AsStored(values[rowIndex]))
    {
      if rowIndex >= |values| then Failure(NotEnoughValues)
      else if rowIndex < 0 then Failure(IndexOutOfRange)
      else Success(ReadCell(dataType, values[rowIndex], culture))
    }
  }
}
