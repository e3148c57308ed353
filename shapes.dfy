/**
 * The part of Go's `reflect` the decoder relies on, as data: a `Shape` per field
 * type, a `Value` tree per field value, the zero value of each shape, reflect's
 * `IsZero`, and a `Cell` for a settable location (`reflect.Value.Set`).
 */
module Shapes {
  import opened GoTime

  /** The bit sizes of Go's integer kinds; 0 stands for `int`/`uint`, the machine word. */
  type BitSize = b: int | b == 0 || b == 8 || b == 16 || b == 32 || b == 64

  type FloatSize = b: int | b == 32 || b == 64 witness 32

  /** A field type. */
  datatype Shape =
    | Str
    | Bool
    | Int(bits: BitSize)
    | Uint(bits: BitSize)
    | Float(fbits: FloatSize)
      /** `time.Time` when `alias` is empty, otherwise a type defined as `time.Time`. */
    | Time(alias: string)
    | Ptr(elem: Shape)
    | Slice(elem: Shape)
    | Struct(name: string, fields: seq<Field>)
      /** A kind with no setter: complex64, map, chan, interface, … */
    | Other(kind: string)

  /** A struct field: its name, its raw `qp` tag ("" when absent), whether it is
      exported, and its type. */
  datatype Field = Field(name: string, tag: string, exported: bool, shape: Shape)

  /** A value of some shape. A slice records whether it is nil; a value of a kind
      with no setter is opaque and records only whether it is its zero value. */
  datatype Value =
    | StrV(s: string)
    | BoolV(b: bool)
    | IntV(i: int)
    | UintV(u: nat)
    | FloatV(x: real)
    | TimeV(t: Stamp)
    | NilPtr
    | PtrTo(target: Value)
    | SliceV(isNil: bool, items: seq<Value>)
    | StructV(vals: seq<Value>)
    | OtherV(zero: bool)

  /** `reflect.Zero(t)` */
  function Zero(shape: Shape): Value
    decreases shape, 1
  {
    match shape
    case Str => StrV("")
    case Bool => BoolV(false)
    case Int(_) => IntV(0)
    case Uint(_) => UintV(0)
    case Float(_) => FloatV(0.0)
    case Time(_) => TimeV(ZeroTime)
    case Ptr(_) => NilPtr
    case Slice(_) => SliceV(true, [])
    case Struct(_, fields) => StructV(ZeroFields(shape, 0))
    case Other(_) => OtherV(true)
  }

  /** The zero values of the fields of a struct shape, from field i on. */
  function ZeroFields(st: Shape, i: nat): (r: seq<Value>)
    requires st.Struct? && i <= |st.fields|
    ensures |r| == |st.fields| - i
    decreases st, 0, |st.fields| - i
  {
    if i == |st.fields| then []
    else
      assert st.fields[i] in st.fields;
      [Zero(st.fields[i].shape)] + ZeroFields(st, i + 1)
  }

  /** The value is one of the shape: reflect never lets a field hold anything else. */
  predicate HasShape(v: Value, shape: Shape)
    decreases shape
  {
    match shape
    case Str => v.StrV?
    case Bool => v.BoolV?
    case Int(_) => v.IntV?
    case Uint(_) => v.UintV?
    case Float(_) => v.FloatV?
    case Time(_) => v.TimeV?
    case Ptr(e) => v.NilPtr? || (v.PtrTo? && HasShape(v.target, e))
    case Slice(e) => v.SliceV? && (v.isNil ==> v.items == []) && forall k | 0 <= k < |v.items| :: HasShape(v.items[k], e)
    case Struct(_, fields) =>
      && v.StructV? && |v.vals| == |fields|
      && forall k | 0 <= k < |fields| :: fields[k] in fields && HasShape(v.vals[k], fields[k].shape)
    case Other(_) => v.OtherV?
  }

  /** reflect.Value.IsZero: a pointer or slice is zero only when nil (an empty
      non-nil slice is not), a struct when every field is. */
  predicate IsZero(v: Value)
  {
    match v
    case StrV(s) => s == ""
    case BoolV(b) => !b
    case IntV(i) => i == 0
    case UintV(u) => u == 0
    case FloatV(x) => x == 0.0
    case TimeV(t) => t == ZeroTime
    case NilPtr => true
    case PtrTo(_) => false
    case SliceV(isNil, _) => isNil
    case StructV(vals) => forall k | 0 <= k < |vals| :: IsZero(vals[k])
    case OtherV(zero) => zero
  }

  /** The kind's name as `reflect.Kind.String` spells it. */
  function KindName(shape: Shape): string
  {
    match shape
    case Str => "string"
    case Bool => "bool"
    case Int(b) => if b == 0 then "int" else "int" + BitsName(b)
    case Uint(b) => if b == 0 then "uint" else "uint" + BitsName(b)
    case Float(b) => "float" + BitsName(b)
    case Time(_) => "struct"
    case Ptr(_) => "ptr"
    case Slice(_) => "slice"
    case Struct(_, _) => "struct"
    case Other(k) => k
  }

  function BitsName(b: int): string
  {
    if b == 8 then "8" else if b == 16 then "16" else if b == 32 then "32" else "64"
  }

  /** The type's name as `%s` of a `reflect.Type` prints it (without package paths). */
  function TypeString(shape: Shape): string
  {
    match shape
    case Time(alias) => if alias == "" then "time.Time" else alias
    case Ptr(e) => "*" + TypeString(e)
    case Slice(e) => "[]" + TypeString(e)
    case Struct(name, _) => name
    case _ => KindName(shape)
  }

  /** A settable location: a struct field, a slice element or a pointer's target. */
  class Cell {
    var val: Value

    constructor(v: Value)
      ensures val == v
    {
      val := v;
    }
  }

  // ---------------------------------------------------------------------------
  // Properties

  /** The zero value is of its shape, and is zero. */
  lemma {:induction false} ZeroSpec(shape: Shape)
    ensures HasShape(Zero(shape), shape) && IsZero(Zero(shape))
    decreases shape, 1
  {
    if shape.Struct? {
      ZeroFieldsSpec(shape, 0);
    }
  }

  lemma {:induction false} ZeroFieldsSpec(st: Shape, i: nat)
    requires st.Struct? && i <= |st.fields|
    ensures forall k | 0 <= k < |st.fields| - i ::
      HasShape(ZeroFields(st, i)[k], st.fields[i + k].shape) && IsZero(ZeroFields(st, i)[k])
    decreases st, 0, |st.fields| - i
  {
    if i < |st.fields| {
      assert st.fields[i] in st.fields;
      ZeroSpec(st.fields[i].shape);
      ZeroFieldsSpec(st, i + 1);
    }
  }

  /** A value of a shape is zero exactly when it is the zero value of that shape. */
  lemma {:induction false} ZeroUnique(v: Value, shape: Shape)
    requires HasShape(v, shape)
    ensures IsZero(v) <==> v == Zero(shape)
    decreases shape, 1
  {
    ZeroSpec(shape);
    if shape.Struct? {
      ZeroFieldsUnique(v.vals, shape, 0);
      assert v.vals[0..] == v.vals;
    }
  }

  lemma {:induction false} ZeroFieldsUnique(vals: seq<Value>, st: Shape, i: nat)
    requires st.Struct? && |vals| == |st.fields| && i <= |vals|
    requires forall k | 0 <= k < |vals| :: HasShape(vals[k], st.fields[k].shape)
    ensures (forall k | i <= k < |vals| :: IsZero(vals[k])) <==> vals[i..] == ZeroFields(st, i)
    decreases st, 0, |vals| - i
  {
    if i < |vals| {
      assert st.fields[i] in st.fields;
      ZeroUnique(vals[i], st.fields[i].shape);
      ZeroFieldsUnique(vals, st, i + 1);
      assert vals[i..] == [vals[i]] + vals[i + 1..];
    }
  }
}
