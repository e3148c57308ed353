/**
 * parser.go: the recursive decode engine. `parse` checks that the destination is a
 * non-nil pointer to a struct, then walks the struct's fields in declaration order
 * and stops at the first failure. Each field goes to one of three parsers: time
 * types first, then structs (recursion), then everything else.
 *
 * A struct is a `Value` tree; the functions below say what a decode does to that
 * tree, and the methods, which write field by field through `Cell`s as the Go code
 * writes through `reflect.Value`s, are proved to do exactly that.
 *
 * `setValue`, which the time and primitive parsers call, is not part of this model:
 * it is the `Coercion` parameter, an arbitrary function that keeps values in their
 * shape and may fail. A write or `Interface()` through an unexported field is a
 * reflect panic, modelled as the `Panic` outcome.
 */
module Parser {
  import opened Wrappers
  import opened Text
  import opened Shapes
  import opened FieldError
  import GoTime

  /** url.Values: each key with its list of values. */
  type Values = map<string, seq<string>>

  /** What `setValue(v, queryValue)` leaves in v, and the error it returns. */
  datatype Coerced = Coerced(val: Value, err: Option<Error>)

  /** `setValue`, given the target's type, its current value and the query values. */
  datatype Coercion = Coercion(setValue: (Shape, Value, seq<string>) -> Coerced)

  /** reflect only ever stores a value of the target's type. */
  ghost predicate Sound(co: Coercion)
  {
    forall s: Shape, v: Value, qv: seq<string> {:trigger co.setValue(s, v, qv)} ::
      HasShape(v, s) ==> HasShape(co.setValue(s, v, qv).val, s)
  }

  /** The two reflect panics a decode can hit. */
  datatype PanicCause =
      /** Value.Set on a value reached through an unexported field */
    | SetUnexported
      /** Value.Interface on a value reached through an unexported field */
    | InterfaceUnexported

  /** How a call ends: it returns nil, returns an error, or panics. */
  datatype Outcome = Success | Failure(err: Error) | Panic(cause: PanicCause)

  /** The value a field (or a struct) holds after a call, and how the call ended. */
  datatype Decoded = Decoded(val: Value, out: Outcome)

  // ---------------------------------------------------------------------------
  // Pure predicates

  /** getStructTag: the trimmed `qp` tag, with "" and "-" both meaning no tag. */
  function GetStructTag(tag: string): (r: string)
    ensures r == "" <==> TrimSpace(tag) == "" || TrimSpace(tag) == "-"
    ensures r != "" ==> r == TrimSpace(tag)
  {
    var t := TrimSpace(tag);
    if t == "" || t == "-" then "" else t
  }

  /** The key is in the query with at least one value. */
  predicate Present(q: Values, key: string)
  {
    key in q && |q[key]| > 0
  }

  /** isTimeType: time.Time, a type convertible to it, or a pointer to either. Such a
      type is, once a pointer is looked through, of struct kind. */
  predicate IsTimeType(shape: Shape)
    ensures IsTimeType(shape) ==> KindName(if shape.Ptr? then shape.elem else shape) == "struct"
  {
    shape.Time? || (shape.Ptr? && shape.elem.Time?)
  }

  /** isStructType: a struct or a pointer to a struct, time types excluded. */
  predicate IsStructType(shape: Shape)
    ensures IsStructType(shape) ==> KindName(if shape.Ptr? then shape.elem else shape) == "struct"
  {
    !IsTimeType(shape) && (shape.Struct? || (shape.Ptr? && shape.elem.Struct?))
  }

  /** validateStructPointer: a non-nil pointer whose target is of struct kind, which
      `time.Time` and the types defined over it are. */
  predicate IsStructPointer(shape: Shape, v: Value)
    ensures IsStructPointer(shape, v) ==> shape.Ptr? && v.PtrTo? && KindName(shape.elem) == "struct"
  {
    shape.Ptr? && (shape.elem.Struct? || shape.elem.Time?) && v.PtrTo?
  }

  /**
   * parse on a pointer to a time: the walk over the fields of `time.Time` passes
   * `wall` and `ext`, which have no tag, and reaches the unexported `loc`, a pointer
   * to the struct `time.Location`, which goes to parseStructField. A nil `loc` (the
   * UTC location) is then allocated with Set, any other is handed to Interface, and
   * either panics.
   */
  function TimeWalkPanic(t: GoTime.Stamp): PanicCause
  {
    if t.zone == GoTime.UTC then SetUnexported else InterfaceUnexported
  }

  /** isAllFieldsZero: every field is zero, which is reflect's IsZero of the struct. */
  predicate IsAllFieldsZero(v: Value)
    requires v.StructV?
    ensures IsAllFieldsZero(v) <==> IsZero(v)
  {
    forall k | 0 <= k < |v.vals| :: IsZero(v.vals[k])
  }

  /** parseField's dispatch: the time check comes first, so a time type, though of
      struct kind, is never a struct type; only one pointer is looked through; any
      other shape goes to the primitive parser. */
  lemma FieldDispatch(shape: Shape)
    ensures !(IsTimeType(shape) && IsStructType(shape))
    ensures shape.Time? || (shape.Ptr? && shape.elem.Time?) ==> IsTimeType(shape) && !IsStructType(shape)
    ensures shape.Struct? || (shape.Ptr? && shape.elem.Struct?) ==> IsStructType(shape) && !IsTimeType(shape)
    ensures shape.Ptr? && shape.elem.Ptr? ==> !IsTimeType(shape) && !IsStructType(shape)
    ensures !shape.Ptr? && KindName(shape) != "struct" ==> !IsTimeType(shape) && !IsStructType(shape)
  {
  }

  /** isAllFieldsZero holds exactly when the struct is the zero value of its type:
      the cleanup of a freshly allocated pointer resets it only when the decode left
      the target as reflect.New made it. */
  lemma AllFieldsZeroIsZero(v: Value, st: Shape)
    requires st.Struct? && HasShape(v, st)
    ensures IsAllFieldsZero(v) <==> v == Zero(st)
  {
    ZeroUnique(v, st);
  }

  /** The error a failed `setValue` becomes: its message, the field's name and type. */
  function FieldFailure(e: Error, f: Field): Error
  {
    Plain(Message(e) + " " + f.name + "(" + TypeString(f.shape) + ")")
  }

  function NotExported(f: Field): Error
  {
    Plain("cannot set field " + f.name + ", be sure it is exported")
  }

  // ---------------------------------------------------------------------------
  // What a decode does

  /** parse: ErrNotPtr, writing nothing, unless dst is a non-nil pointer to a struct;
      otherwise the fields of the target are decoded in place. A time target panics
      on its unexported location field. */
  function ParseSpec(q: Values, shape: Shape, dst: Value, co: Coercion): (r: Decoded)
    requires Sound(co) && HasShape(dst, shape)
    ensures HasShape(r.val, shape)
  {
    if !IsStructPointer(shape, dst) then Decoded(dst, Failure(Sentinel(ErrNotPtr)))
    else if shape.elem.Time? then
      assert HasShape(dst.target, shape.elem);
      Decoded(dst, Panic(TimeWalkPanic(dst.target.t)))
    else
      assert HasShape(dst.target, shape.elem);
      var d := DecodeFields(q, shape.elem, dst.target.vals, 0, co);
      Decoded(PtrTo(d.val), d.out)
  }

  /** The field loop of parse from field i on: each field is decoded from its own
      value, and the first call that does not succeed ends the loop. */
  function DecodeFields(q: Values, st: Shape, vals: seq<Value>, i: nat, co: Coercion): (r: Decoded)
    requires Sound(co) && st.Struct? && HasShape(StructV(vals), st) && i <= |vals|
    ensures HasShape(r.val, st)
    ensures forall k | 0 <= k < i :: r.val.vals[k] == vals[k]
    decreases st, 0, |vals| - i
  {
    if i == |vals| then Decoded(StructV(vals), Success)
    else
      assert st.fields[i] in st.fields;
      var d := DecodeField(q, st.fields[i], vals[i], co);
      var next := vals[i := d.val];
      if !d.out.Success? then Decoded(StructV(next), d.out)
      else DecodeFields(q, st, next, i + 1, co)
  }

  /** parseField: time types before structs, everything else as a primitive. */
  function DecodeField(q: Values, f: Field, v: Value, co: Coercion): (r: Decoded)
    requires Sound(co) && HasShape(v, f.shape)
    ensures HasShape(r.val, f.shape)
    decreases f.shape, 2
  {
    if IsTimeType(f.shape) then DecodeTimeField(q, f, v, co)
    else if IsStructType(f.shape) then DecodeStructField(q, f, v, co)
    else DecodePrimitiveField(q, f, v, co)
  }

  /** parseTimeField */
  function DecodeTimeField(q: Values, f: Field, v: Value, co: Coercion): (r: Decoded)
    requires Sound(co) && IsTimeType(f.shape) && HasShape(v, f.shape)
    ensures HasShape(r.val, f.shape)
  {
    var tag := GetStructTag(f.tag);
    if tag == "" || !Present(q, tag) then Decoded(v, Success)
    else
      var alloc := f.shape.Ptr? && v.NilPtr?;
      if alloc && !f.exported then Decoded(v, Panic(SetUnexported))
      else
        var held := if alloc then PtrTo(TimeV(GoTime.ZeroTime)) else v;
        var c := co.setValue(Time(""), TimeV(GoTime.ZeroTime), q[tag]);
        if c.err.Some? then Decoded(held, Failure(FieldFailure(c.err.value, f)))
        else if !f.exported then Decoded(held, Panic(SetUnexported))
        else if f.shape.Ptr? then
          Decoded(if c.val.t == GoTime.ZeroTime then NilPtr else PtrTo(TimeV(c.val.t)), Success)
        else Decoded(TimeV(c.val.t), Success)
  }

  /** parseStructField: the tag plays no part. A nil pointer is allocated before the
      recursion and reset to nil when the recursion succeeds and leaves every field
      zero; when it fails, what it wrote stays. */
  function DecodeStructField(q: Values, f: Field, v: Value, co: Coercion): (r: Decoded)
    requires Sound(co) && IsStructType(f.shape) && HasShape(v, f.shape)
    ensures HasShape(r.val, f.shape)
    decreases f.shape, 1
  {
    if !f.exported then
      Decoded(v, Panic(if f.shape.Ptr? && v.NilPtr? then SetUnexported else InterfaceUnexported))
    else if f.shape.Struct? then DecodeFields(q, f.shape, v.vals, 0, co)
    else
      var st := f.shape.elem;
      ZeroSpec(st);
      var target := if v.NilPtr? then Zero(st) else v.target;
      assert HasShape(target, st);
      var d := DecodeFields(q, st, target.vals, 0, co);
      if d.out.Success? && v.NilPtr? && IsAllFieldsZero(d.val) then Decoded(NilPtr, Success)
      else Decoded(PtrTo(d.val), d.out)
  }

  /** parsePrimitiveField: what `setValue` leaves in the field stays, even when it
      fails. */
  function DecodePrimitiveField(q: Values, f: Field, v: Value, co: Coercion): (r: Decoded)
    requires Sound(co) && HasShape(v, f.shape)
    ensures HasShape(r.val, f.shape)
  {
    var tag := GetStructTag(f.tag);
    if tag == "" || !Present(q, tag) then Decoded(v, Success)
    else if !f.exported then Decoded(v, Failure(NotExported(f)))
    else
      var c := co.setValue(f.shape, v, q[tag]);
      Decoded(c.val, if c.err.Some? then Failure(FieldFailure(c.err.value, f)) else Success)
  }

  // ---------------------------------------------------------------------------
  // The decode, in place

  /** parse(queryValues, dst) */
  method Parse(q: Values, shape: Shape, dst: Cell, co: Coercion) returns (out: Outcome)
    requires Sound(co) && HasShape(dst.val, shape)
    modifies dst
    ensures Decoded(dst.val, out) == ParseSpec(q, shape, old(dst.val), co)
  {
    if !IsStructPointer(shape, dst.val) {
      return Failure(Sentinel(ErrNotPtr));
    }
    if shape.elem.Time? {
      assert HasShape(dst.val.target, shape.elem);
      return Panic(TimeWalkPanic(dst.val.target.t));
    }
    var rec := new Cell(dst.val.target);
    out := ParseStruct(q, shape.elem, rec, co);
    dst.val := PtrTo(rec.val);
  }

  /** The field loop of parse, over the struct held by rec. */
  method ParseStruct(q: Values, st: Shape, rec: Cell, co: Coercion) returns (out: Outcome)
    requires Sound(co) && st.Struct? && HasShape(rec.val, st)
    modifies rec
    ensures Decoded(rec.val, out) == DecodeFields(q, st, old(rec.val).vals, 0, co)
    decreases st, 0
  {
    var i := 0;
    while i < |st.fields|
      invariant 0 <= i <= |st.fields| && HasShape(rec.val, st)
      invariant DecodeFields(q, st, old(rec.val).vals, 0, co) == DecodeFields(q, st, rec.val.vals, i, co)
    {
      assert st.fields[i] in st.fields;
      var fieldValue := new Cell(rec.val.vals[i]);
      out := ParseField(q, st.fields[i], fieldValue, co);
      rec.val := StructV(rec.val.vals[i := fieldValue.val]);
      if !out.Success? {
        return;
      }
      i := i + 1;
    }
    out := Success;
  }

  /** parseField */
  method ParseField(q: Values, f: Field, fieldValue: Cell, co: Coercion) returns (out: Outcome)
    requires Sound(co) && HasShape(fieldValue.val, f.shape)
    modifies fieldValue
    ensures Decoded(fieldValue.val, out) == DecodeField(q, f, old(fieldValue.val), co)
    decreases f.shape, 2
  {
    if IsTimeType(f.shape) {
      out := ParseTimeField(q, f, fieldValue, co);
    } else if IsStructType(f.shape) {
      out := ParseStructField(q, f, fieldValue, co);
    } else {
      out := ParsePrimitiveField(q, f, fieldValue, co);
    }
  }

  /** parseTimeField */
  method ParseTimeField(q: Values, f: Field, fieldValue: Cell, co: Coercion) returns (out: Outcome)
    requires Sound(co) && IsTimeType(f.shape) && HasShape(fieldValue.val, f.shape)
    modifies fieldValue
    ensures Decoded(fieldValue.val, out) == DecodeTimeField(q, f, old(fieldValue.val), co)
  {
    var tag := GetStructTag(f.tag);
    if tag == "" || !Present(q, tag) {
      return Success;
    }
    var queryValue := q[tag];
    var isPtr := f.shape.Ptr?;
    if isPtr && fieldValue.val.NilPtr? {
      if !f.exported {
        return Panic(SetUnexported);
      }
      fieldValue.val := PtrTo(TimeV(GoTime.ZeroTime));
    }
    var timeVal := co.setValue(Time(""), TimeV(GoTime.ZeroTime), queryValue);
    if timeVal.err.Some? {
      return Failure(FieldFailure(timeVal.err.value, f));
    }
    if !f.exported {
      return Panic(SetUnexported);
    }
    if isPtr {
      fieldValue.val := PtrTo(TimeV(timeVal.val.t));
      if timeVal.val.t == GoTime.ZeroTime {
        fieldValue.val := NilPtr;
      }
    } else {
      fieldValue.val := TimeV(timeVal.val.t);
    }
    out := Success;
  }

  /** parseStructField */
  method ParseStructField(q: Values, f: Field, fieldValue: Cell, co: Coercion) returns (out: Outcome)
    requires Sound(co) && IsStructType(f.shape) && HasShape(fieldValue.val, f.shape)
    modifies fieldValue
    ensures Decoded(fieldValue.val, out) == DecodeStructField(q, f, old(fieldValue.val), co)
    decreases f.shape, 1
  {
    if !f.exported {
      return Panic(if f.shape.Ptr? && fieldValue.val.NilPtr? then SetUnexported else InterfaceUnexported);
    }
    if f.shape.Struct? {
      out := ParseStruct(q, f.shape, fieldValue, co);
      return;
    }
    var st := f.shape.elem;
    var shouldCleanupNilPointer := false;
    if fieldValue.val.NilPtr? {
      ZeroSpec(st);
      fieldValue.val := PtrTo(Zero(st));
      shouldCleanupNilPointer := true;
    }
    var target := new Cell(fieldValue.val.target);
    out := ParseStruct(q, st, target, co);
    fieldValue.val := PtrTo(target.val);
    if out.Success? && shouldCleanupNilPointer && IsAllFieldsZero(target.val) {
      fieldValue.val := NilPtr;
    }
  }

  /** parsePrimitiveField */
  method ParsePrimitiveField(q: Values, f: Field, fieldValue: Cell, co: Coercion) returns (out: Outcome)
    requires Sound(co) && HasShape(fieldValue.val, f.shape)
    modifies fieldValue
    ensures Decoded(fieldValue.val, out) == DecodePrimitiveField(q, f, old(fieldValue.val), co)
  {
    var tag := GetStructTag(f.tag);
    if tag == "" || !Present(q, tag) {
      return Success;
    }
    if !f.exported {
      return Failure(NotExported(f));
    }
    var c := co.setValue(f.shape, fieldValue.val, q[tag]);
    fieldValue.val := c.val;
    out := if c.err.Some? then Failure(FieldFailure(c.err.value, f)) else Success;
  }

  // ---------------------------------------------------------------------------
  // Properties

  /** Only the pointer check reports ErrNotPtr: a failing field reports a formatted
      message, never a sentinel. */
  lemma {:induction false} FieldErrorsArePlain(q: Values, f: Field, v: Value, co: Coercion)
    requires Sound(co) && HasShape(v, f.shape)
    ensures DecodeField(q, f, v, co).out.Failure? ==> DecodeField(q, f, v, co).out.err.Plain?
    decreases f.shape, 2
  {
    if IsStructType(f.shape) && f.exported {
      var st := if f.shape.Struct? then f.shape else f.shape.elem;
      ZeroSpec(st);
      var target := if f.shape.Struct? then v else if v.NilPtr? then Zero(st) else v.target;
      assert HasShape(target, st);
      FieldsErrorsArePlain(q, st, target.vals, 0, co);
    }
  }

  lemma {:induction false} FieldsErrorsArePlain(q: Values, st: Shape, vals: seq<Value>, i: nat, co: Coercion)
    requires Sound(co) && st.Struct? && HasShape(StructV(vals), st) && i <= |vals|
    ensures DecodeFields(q, st, vals, i, co).out.Failure? ==> DecodeFields(q, st, vals, i, co).out.err.Plain?
    decreases st, 0, |vals| - i
  {
    if i < |vals| {
      assert st.fields[i] in st.fields;
      FieldErrorsArePlain(q, st.fields[i], vals[i], co);
      var d := DecodeField(q, st.fields[i], vals[i], co);
      if d.out.Success? {
        FieldsErrorsArePlain(q, st, vals[i := d.val], i + 1, co);
      }
    }
  }

  /** parse reports ErrNotPtr exactly when dst is not a non-nil pointer to a struct,
      and then leaves it as it was. */
  lemma ParseRejectsNonPointer(q: Values, shape: Shape, dst: Value, co: Coercion)
    requires Sound(co) && HasShape(dst, shape)
    ensures ParseSpec(q, shape, dst, co).out == Failure(Sentinel(ErrNotPtr)) <==> !IsStructPointer(shape, dst)
    ensures !IsStructPointer(shape, dst) ==> ParseSpec(q, shape, dst, co).val == dst
  {
    if IsStructPointer(shape, dst) && shape.elem.Struct? {
      assert HasShape(dst.target, shape.elem);
      FieldsErrorsArePlain(q, shape.elem, dst.target.vals, 0, co);
    }
  }

  /** A non-nil pointer to a time passes validateStructPointer, writes nothing and
      panics: with Set for a UTC time, whose location is nil, and with Interface
      otherwise. A nil one is not a struct pointer. */
  lemma ParseTimePointer(q: Values, alias: string, t: GoTime.Stamp, co: Coercion)
    requires Sound(co)
    ensures IsStructPointer(Ptr(Time(alias)), PtrTo(TimeV(t)))
    ensures t.zone == GoTime.UTC ==>
      ParseSpec(q, Ptr(Time(alias)), PtrTo(TimeV(t)), co) == Decoded(PtrTo(TimeV(t)), Panic(SetUnexported))
    ensures t.zone != GoTime.UTC ==>
      ParseSpec(q, Ptr(Time(alias)), PtrTo(TimeV(t)), co) == Decoded(PtrTo(TimeV(t)), Panic(InterfaceUnexported))
    ensures ParseSpec(q, Ptr(Time(alias)), NilPtr, co) == Decoded(NilPtr, Failure(Sentinel(ErrNotPtr)))
  {
  }

  /** The position of the first field, from i on, whose decode from its own value does
      not succeed; |vals| when there is none. */
  ghost function FirstFailure(q: Values, st: Shape, vals: seq<Value>, i: nat, co: Coercion): (k: nat)
    requires Sound(co) && st.Struct? && HasShape(StructV(vals), st) && i <= |vals|
    ensures i <= k <= |vals|
    decreases |vals| - i
  {
    if i == |vals| || !DecodeField(q, st.fields[i], vals[i], co).out.Success? then i
    else FirstFailure(q, st, vals, i + 1, co)
  }

  /** Every field from i up to the first failure succeeds ... */
  lemma {:induction false} BeforeFirstFailure(q: Values, st: Shape, vals: seq<Value>, i: nat, j: nat, co: Coercion)
    requires Sound(co) && st.Struct? && HasShape(StructV(vals), st) && i <= |vals|
    requires i <= j < FirstFailure(q, st, vals, i, co)
    ensures DecodeField(q, st.fields[j], vals[j], co).out.Success?
    decreases |vals| - i
  {
    if j > i {
      BeforeFirstFailure(q, st, vals, i + 1, j, co);
    }
  }

  /** ... and the first failure does not. */
  lemma {:induction false} AtFirstFailure(q: Values, st: Shape, vals: seq<Value>, i: nat, co: Coercion)
    requires Sound(co) && st.Struct? && HasShape(StructV(vals), st) && i <= |vals|
    requires FirstFailure(q, st, vals, i, co) < |vals|
    ensures !DecodeField(q, st.fields[FirstFailure(q, st, vals, i, co)], vals[FirstFailure(q, st, vals, i, co)], co).out.Success?
    decreases |vals| - i
  {
    if DecodeField(q, st.fields[i], vals[i], co).out.Success? {
      AtFirstFailure(q, st, vals, i + 1, co);
    }
  }

  /** The field loop in declaration order: every field j from i up to and including
      the first one that fails holds what decoding it from its own value gives. */
  lemma {:induction false} FieldsInOrder(q: Values, st: Shape, vals: seq<Value>, i: nat, j: nat, co: Coercion)
    requires Sound(co) && st.Struct? && HasShape(StructV(vals), st) && i <= j < |vals|
    requires j <= FirstFailure(q, st, vals, i, co)
    ensures DecodeFields(q, st, vals, i, co).val.vals[j] == DecodeField(q, st.fields[j], vals[j], co).val
    decreases |vals| - i
  {
    var next := vals[i := DecodeField(q, st.fields[i], vals[i], co).val];
    if DecodeField(q, st.fields[i], vals[i], co).out.Success? {
      FieldsStep(q, st, vals, i, co);
      if j > i {
        FieldsInOrder(q, st, next, i + 1, j, co);
        assert next[j] == vals[j];
      }
    } else {
      FieldsStop(q, st, vals, i, co);
    }
  }

  /** The fields after the first failing one are not touched. */
  lemma {:induction false} FieldsAfter(q: Values, st: Shape, vals: seq<Value>, i: nat, j: nat, co: Coercion)
    requires Sound(co) && st.Struct? && HasShape(StructV(vals), st) && i <= |vals|
    requires FirstFailure(q, st, vals, i, co) < j < |vals|
    ensures DecodeFields(q, st, vals, i, co).val.vals[j] == vals[j]
    decreases |vals| - i
  {
    if DecodeField(q, st.fields[i], vals[i], co).out.Success? {
      var next := vals[i := DecodeField(q, st.fields[i], vals[i], co).val];
      FieldsStep(q, st, vals, i, co);
      FieldsAfter(q, st, next, i + 1, j, co);
    } else {
      FieldsStop(q, st, vals, i, co);
    }
  }

  /** The field loop ends as the first failing field's decode ends, and succeeds when
      no field fails. */
  lemma {:induction false} FieldsEndAsFirstFailure(q: Values, st: Shape, vals: seq<Value>, i: nat, co: Coercion)
    requires Sound(co) && st.Struct? && HasShape(StructV(vals), st) && i <= |vals|
    ensures DecodeFields(q, st, vals, i, co).out ==
      if FirstFailure(q, st, vals, i, co) == |vals| then Success
      else DecodeField(q, st.fields[FirstFailure(q, st, vals, i, co)], vals[FirstFailure(q, st, vals, i, co)], co).out
    decreases |vals| - i
  {
    if i < |vals| && DecodeField(q, st.fields[i], vals[i], co).out.Success? {
      var next := vals[i := DecodeField(q, st.fields[i], vals[i], co).val];
      FieldsStep(q, st, vals, i, co);
      FieldsEndAsFirstFailure(q, st, next, i + 1, co);
      var k := FirstFailure(q, st, vals, i, co);
      if k < |vals| {
        assert next[k] == vals[k];
      }
    }
  }

  /** One failing field ends the loop there. */
  lemma FieldsStop(q: Values, st: Shape, vals: seq<Value>, i: nat, co: Coercion)
    requires Sound(co) && st.Struct? && HasShape(StructV(vals), st) && i < |vals|
    requires !DecodeField(q, st.fields[i], vals[i], co).out.Success?
    ensures DecodeFields(q, st, vals, i, co).val.vals == vals[i := DecodeField(q, st.fields[i], vals[i], co).val]
    ensures DecodeFields(q, st, vals, i, co).out == DecodeField(q, st.fields[i], vals[i], co).out
    ensures FirstFailure(q, st, vals, i, co) == i
  {
  }

  /** One successful field: the loop and the first failure from i are those from i + 1
      on the updated fields. */
  lemma FieldsStep(q: Values, st: Shape, vals: seq<Value>, i: nat, co: Coercion)
    requires Sound(co) && st.Struct? && HasShape(StructV(vals), st) && i < |vals|
    requires DecodeField(q, st.fields[i], vals[i], co).out.Success?
    ensures HasShape(StructV(vals[i := DecodeField(q, st.fields[i], vals[i], co).val]), st)
    ensures DecodeFields(q, st, vals, i, co)
      == DecodeFields(q, st, vals[i := DecodeField(q, st.fields[i], vals[i], co).val], i + 1, co)
    ensures FirstFailure(q, st, vals, i, co)
      == FirstFailure(q, st, vals[i := DecodeField(q, st.fields[i], vals[i], co).val], i + 1, co)
  {
    assert st.fields[i] in st.fields;
    var next := vals[i := DecodeField(q, st.fields[i], vals[i], co).val];
    FirstFailureFrom(q, st, vals, next, i + 1, co);
  }

  /** FirstFailure from j on looks only at the fields from j on. */
  lemma {:induction false} FirstFailureFrom(q: Values, st: Shape, vals: seq<Value>, vals': seq<Value>, j: nat, co: Coercion)
    requires Sound(co) && st.Struct? && HasShape(StructV(vals), st) && HasShape(StructV(vals'), st)
    requires j <= |vals| == |vals'| && vals[j..] == vals'[j..]
    ensures FirstFailure(q, st, vals, j, co) == FirstFailure(q, st, vals', j, co)
    decreases |vals| - j
  {
    if j < |vals| {
      assert vals[j] == vals[j..][0] == vals'[j];
      assert vals[j + 1..] == vals[j..][1..];
      assert vals'[j + 1..] == vals'[j..][1..];
      FirstFailureFrom(q, st, vals, vals', j + 1, co);
    }
  }

  /** No key the field would read is present: a time or primitive field whose tag is
      missing, "-" or absent from the query, or an exported struct field all of whose
      fields are quiet. */
  ghost predicate Quiet(q: Values, f: Field)
    decreases f.shape, 1
  {
    if !IsStructType(f.shape) then GetStructTag(f.tag) == "" || !Present(q, GetStructTag(f.tag))
    else if f.shape.Struct? then f.exported && QuietFields(q, f.shape)
    else f.exported && QuietFields(q, f.shape.elem)
  }

  /** Every field of the struct is quiet. */
  ghost predicate QuietFields(q: Values, st: Shape)
    requires st.Struct?
    decreases st, 0
  {
    forall k | 0 <= k < |st.fields| :: st.fields[k] in st.fields && Quiet(q, st.fields[k])
  }

  /** A field none of whose keys is present is left exactly as it was, and a nil
      pointer to a struct stays nil. */
  lemma {:induction false} QuietFieldUnchanged(q: Values, f: Field, v: Value, co: Coercion)
    requires Sound(co) && HasShape(v, f.shape) && Quiet(q, f)
    ensures DecodeField(q, f, v, co) == Decoded(v, Success)
    decreases f.shape, 2
  {
    if IsStructType(f.shape) {
      var st := if f.shape.Struct? then f.shape else f.shape.elem;
      ZeroSpec(st);
      var target := if f.shape.Struct? then v else if v.NilPtr? then Zero(st) else v.target;
      assert HasShape(target, st);
      QuietFieldsUnchanged(q, st, target.vals, 0, co);
    }
  }

  lemma {:induction false} QuietFieldsUnchanged(q: Values, st: Shape, vals: seq<Value>, i: nat, co: Coercion)
    requires Sound(co) && st.Struct? && HasShape(StructV(vals), st) && i <= |vals|
    requires QuietFields(q, st)
    ensures DecodeFields(q, st, vals, i, co) == Decoded(StructV(vals), Success)
    decreases st, 0, |vals| - i
  {
    if i < |vals| {
      assert st.fields[i] in st.fields;
      QuietFieldUnchanged(q, st.fields[i], vals[i], co);
      assert vals[i := vals[i]] == vals;
      QuietFieldsUnchanged(q, st, vals, i + 1, co);
    }
  }

  /** A query with none of the keys of a struct leaves the struct as it was. */
  lemma QuietParseUnchanged(q: Values, shape: Shape, dst: Value, co: Coercion)
    requires Sound(co) && HasShape(dst, shape) && IsStructPointer(shape, dst) && shape.elem.Struct?
    requires QuietFields(q, shape.elem)
    ensures ParseSpec(q, shape, dst, co) == Decoded(dst, Success)
  {
    assert HasShape(dst.target, shape.elem);
    QuietFieldsUnchanged(q, shape.elem, dst.target.vals, 0, co);
  }

  /** Time and primitive fields: a field with no tag, a tag of "-", or a key absent or
      mapped to no values is left unchanged without error; with its key present an
      unexported field fails with "cannot set field <name>, be sure it is exported"
      (a primitive) or panics once it would be written (a time); an exported primitive
      field holds what `setValue` wrote and fails with its error, followed by the
      field's name and type; a failing exported time field fails the same way. */
  lemma KeyedFieldSpec(q: Values, f: Field, v: Value, co: Coercion)
    requires Sound(co) && HasShape(v, f.shape) && !IsStructType(f.shape)
    ensures GetStructTag(f.tag) == "" || !Present(q, GetStructTag(f.tag)) ==> DecodeField(q, f, v, co) == Decoded(v, Success)
    ensures GetStructTag(f.tag) != "" && Present(q, GetStructTag(f.tag)) && !f.exported && !IsTimeType(f.shape) ==>
      DecodeField(q, f, v, co) == Decoded(v, Failure(NotExported(f)))
      && Message(NotExported(f)) == "cannot set field " + f.name + ", be sure it is exported"
    ensures GetStructTag(f.tag) != "" && Present(q, GetStructTag(f.tag)) && !f.exported && IsTimeType(f.shape) ==>
      DecodeField(q, f, v, co).out.Failure? || DecodeField(q, f, v, co).out == Panic(SetUnexported)
    ensures GetStructTag(f.tag) != "" && Present(q, GetStructTag(f.tag)) && f.exported && !IsTimeType(f.shape) ==>
      var c := co.setValue(f.shape, v, q[GetStructTag(f.tag)]);
      DecodeField(q, f, v, co) == Decoded(c.val, if c.err.Some? then Failure(FieldFailure(c.err.value, f)) else Success)
    ensures GetStructTag(f.tag) != "" && Present(q, GetStructTag(f.tag)) && f.exported && IsTimeType(f.shape) ==>
      var c := co.setValue(Time(""), TimeV(GoTime.ZeroTime), q[GetStructTag(f.tag)]);
      c.err.Some? ==> DecodeField(q, f, v, co).out == Failure(FieldFailure(c.err.value, f))
    ensures forall e: Error :: Message(FieldFailure(e, f)) == Message(e) + " " + f.name + "(" + TypeString(f.shape) + ")"
  {
  }

  /** A struct field ignores its tag; an unexported one panics whatever the query. */
  lemma StructFieldSpec(q: Values, f: Field, v: Value, co: Coercion, tag: string)
    requires Sound(co) && HasShape(v, f.shape) && IsStructType(f.shape)
    ensures DecodeField(q, f, v, co) == DecodeField(q, f.(tag := tag), v, co)
    ensures !f.exported ==> DecodeField(q, f, v, co).val == v && DecodeField(q, f, v, co).out.Panic?
  {
  }

  /** A pointer to a struct: the target (a zero struct when the pointer is nil) is
      decoded field by field and the pointer then points to the result, with its
      outcome. The one exception is a nil pointer whose decode succeeded with every
      field still zero: it stays nil. So a non-nil pointer is never reset to nil, and
      after a failure or a panic the allocation stays. */
  lemma StructPointerSpec(q: Values, f: Field, v: Value, co: Coercion)
    requires Sound(co) && HasShape(v, f.shape) && f.exported && f.shape.Ptr? && f.shape.elem.Struct?
    ensures HasShape(if v.NilPtr? then Zero(f.shape.elem) else v.target, f.shape.elem)
    ensures var st := f.shape.elem;
      var d := DecodeFields(q, st, (if v.NilPtr? then Zero(st) else v.target).vals, 0, co);
      DecodeField(q, f, v, co) ==
        if v.NilPtr? && d.out.Success? && IsAllFieldsZero(d.val) then Decoded(NilPtr, Success)
        else Decoded(PtrTo(d.val), d.out)
    ensures v.PtrTo? ==> DecodeField(q, f, v, co).val.PtrTo?
    ensures DecodeField(q, f, v, co).out.Success? ==>
      DecodeField(q, f, v, co).val.NilPtr? || !IsZero(DecodeField(q, f, v, co).val.target) || v.PtrTo?
    ensures !DecodeField(q, f, v, co).out.Success? ==> DecodeField(q, f, v, co).val.PtrTo?
  {
    ZeroSpec(f.shape.elem);
  }

  /** A time field whose key is present: the values are parsed into a fresh time.Time.
      On success a time.Time (or an alias) holds the parsed time, and a pointer ends nil
      exactly when that time is the zero time, even when it pointed somewhere before;
      on failure a time.Time keeps its value and a nil pointer stays allocated. */
  lemma TimeFieldSpec(q: Values, f: Field, v: Value, co: Coercion)
    requires Sound(co) && HasShape(v, f.shape) && IsTimeType(f.shape) && f.exported
    requires GetStructTag(f.tag) != "" && Present(q, GetStructTag(f.tag))
    ensures var c := co.setValue(Time(""), TimeV(GoTime.ZeroTime), q[GetStructTag(f.tag)]);
      && (c.err.None? ==> DecodeField(q, f, v, co).out == Success && c.val.TimeV?)
      && (c.err.None? && f.shape.Time? ==> DecodeField(q, f, v, co).val == TimeV(c.val.t))
      && (c.err.None? && f.shape.Ptr? ==>
            (DecodeField(q, f, v, co).val.NilPtr? <==> c.val.t == GoTime.ZeroTime)
            && (DecodeField(q, f, v, co).val.PtrTo? ==> DecodeField(q, f, v, co).val.target == TimeV(c.val.t)))
      && (c.err.Some? ==> DecodeField(q, f, v, co).out.Failure?)
      && (c.err.Some? && v != NilPtr ==> DecodeField(q, f, v, co).val == v)
      && (c.err.Some? && v == NilPtr ==> DecodeField(q, f, v, co).val == PtrTo(Zero(f.shape.elem)))
  {
  }
}
