/** The per-value type dispatch that binds a row of boxed values to the
    positional placeholders `@1`, `@2`, ... of a prepared statement. */
module Binding {
  import opened Wrappers
  import opened Strings
  import opened Values
  import opened Statements

  /** The driver's parameter types the adapter uses. */
  datatype FbDbType = Text | Integer | Float | Double | Binary

  /** The value a parameter is given; `TextValue(None)` is a null string. */
  datatype BoundValue =
    | TextValue(text: Option<string>)
    | IntegerValue(i: int32)
    | FloatValue(f: Float32)
    | DoubleValue(d: Float64)
    | BinaryValue(bytes: seq<bv8>)

  /** A parameter type together with its value. */
  datatype Bound = Bound(dbType: FbDbType, value: BoundValue)

  /** One added parameter: its name, type and value. */
  datatype Parameter = Parameter(name: string, bound: Bound)

  /** The value has the shape the parameter type expects. */
  predicate WellTyped(b: Bound) {
    match b.dbType
    case Text => b.value.TextValue?
    case Integer => b.value.IntegerValue?
    case Float => b.value.FloatValue?
    case Double => b.value.DoubleValue?
    case Binary => b.value.BinaryValue?
  }

  /** Boxed values the driver receives in their own native type. */
  predicate IsNative(v: Obj) {
    v.IntObj? || v.FloatObj? || v.DoubleObj? || v.BytesObj?
  }

  /** The dispatch for one value, first match wins: null or DBNull, an enum,
      a date, an int, a float, a double, a byte array, and otherwise the value
      as a string (`as string`, which is null for anything but a string). */
  function Bind(v: Obj, culture: Culture): (b: Bound)
    ensures WellTyped(b)
    ensures b.dbType == Text <==> !IsNative(v)
    ensures v.NullObj? || v.DBNullObj? ==> b == Bound(Text, TextValue(Some("")))
    ensures v.OtherObj? ==> b == Bound(Text, TextValue(None))
  {
    match v
    case NullObj => Bound(Text, TextValue(Some("")))
    case DBNullObj => Bound(Text, TextValue(Some("")))
    case EnumObj(name) => Bound(Text, TextValue(Some(name)))
    case DateTimeObj(d) => Bound(Text, TextValue(Some(culture.boundText(d))))
    case IntObj(i) => Bound(Integer, IntegerValue(i))
    case FloatObj(f) => Bound(Float, FloatValue(f))
    case DoubleObj(d) => Bound(Double, DoubleValue(d))
    case BytesObj(bytes) => Bound(Binary, BinaryValue(bytes))
    case StringObj(s) => Bound(Text, TextValue(Some(s)))
    case OtherObj => Bound(Text, TextValue(None))
  }

  /** The boxed value a natively typed parameter carries; text parameters
      carry no native value. */
  function NativeValue(b: Bound): Option<Obj> {
    match b.value
    case TextValue(_) => None
    case IntegerValue(i) => Some(IntObj(i))
    case FloatValue(f) => Some(FloatObj(f))
    case DoubleValue(d) => Some(DoubleObj(d))
    case BinaryValue(bytes) => Some(BytesObj(bytes))
  }

  /** Ints, floats, doubles and byte arrays are bound unchanged, and they are
      the only values that are. */
  lemma NativeValuesUnchanged(v: Obj, culture: Culture)
    ensures NativeValue(Bind(v, culture)) == Some(v) <==> IsNative(v)
    ensures !IsNative(v) ==> NativeValue(Bind(v, culture)) == None
  {
  }

  /** An enum binds as the text of its name, not as its underlying int. */
  lemma EnumBindsAsName(name: string, culture: Culture)
    ensures Bind(EnumObj(name), culture) == Bound(Text, TextValue(Some(name)))
    ensures NativeValue(Bind(EnumObj(name), culture)).None?
  {
  }

  /** The parameters for a row of values: one per value, named after its
      1-based position. */
  function Parameters(values: seq<Obj>, culture: Culture): (ps: seq<Parameter>)
    ensures |ps| == |values|
  {
    seq(|values|, i requires 0 <= i < |values| => Parameter(Placeholder(i + 1), Bind(values[i], culture)))
  }

  /** The loop of `BindParametersAndRunQuery` that adds one parameter per value. */
  method BindParameters(values: seq<Obj>, culture: Culture) returns (ps: seq<Parameter>)
    ensures ps == Parameters(values, culture)
  {
    ps := [];
    var i := 0;
    while i < |values|
      invariant 0 <= i <= |values|
      invariant |ps| == i
      invariant forall j :: 0 <= j < i ==> ps[j] == Parameter(Placeholder(j + 1), Bind(values[j], culture))
    {
      var name := "@" + NatToString(i + 1);
      var v := values[i];
      var b: Bound;
      if v.DBNullObj? || v.NullObj? {
        b := Bound(Text, TextValue(Some("")));
      } else if v.EnumObj? {
        b := Bound(Text, TextValue(Some(v.name)));
      } else if v.DateTimeObj? {
        b := Bound(Text, TextValue(Some(culture.boundText(v.t))));
      } else if v.IntObj? {
        b := Bound(Integer, IntegerValue(v.i));
      } else if v.FloatObj? {
        b := Bound(Float, FloatValue(v.f));
      } else if v.DoubleObj? {
        b := Bound(Double, DoubleValue(v.d));
      } else if v.BytesObj? {
        b := Bound(Binary, BinaryValue(v.bytes));
      } else {
        b := Bound(Text, TextValue(if v.StringObj? then Some(v.s) else None));
      }
      ps := ps + [Parameter(name, b)];
      i := i + 1;
    }
  }

  /** The parameter names are exactly the placeholders of the insert
      statement for as many columns, in the same order, and no two coincide. */
  lemma ParameterNamesArePlaceholders(values: seq<Obj>, culture: Culture)
    ensures seq(|values|, i requires 0 <= i < |values| => Parameters(values, culture)[i].name)
      == Placeholders(|values|)
    ensures forall i, j :: 0 <= i < j < |values| ==>
      Parameters(values, culture)[i].name != Parameters(values, culture)[j].name
  {
    var ps := Parameters(values, culture);
    forall i, j | 0 <= i < j < |values| ensures ps[i].name != ps[j].name {
      PlaceholderInjective(i + 1, j + 1);
    }
  }

  /** A null or DBNull at position i gives an empty-text parameter at position i. */
  lemma NullBindsAsEmptyText(values: seq<Obj>, culture: Culture, i: nat)
    requires i < |values| && (values[i].NullObj? || values[i].DBNullObj?)
    ensures Parameters(values, culture)[i] == Parameter("@" + NatToString(i + 1), Bound(Text, TextValue(Some(""))))
  {
  }
}
