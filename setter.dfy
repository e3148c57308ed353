/**
 * setter.go: `SetValue`, which writes one query value into a settable location.
 * A pointer is dereferenced once, allocating its target when nil; a slice takes the
 * comma-separated, trimmed, non-empty pieces of the value, each converted by a
 * recursive call; any other kind goes through the `setters` table. The `set*`
 * helpers that setter.go repeats are those of primitive_setter.go.
 */
module Setter {
  import opened Wrappers
  import opened Text
  import opened Strconv
  import opened Shapes
  import opened PrimitiveSetter
  import opened FieldError

  /** The float parser the float setters use; it is not part of this model. */
  type FloatParser = (string, FloatSize) -> Option<real>

  /** An entry of the `setters` table. */
  datatype SetterKind = SetStrKind | SetBoolKind | SetIntKind(bits: BitSize) | SetUintKind(bits: BitSize) | SetFloatKind(fbits: FloatSize)

  /** The `setters` table: each primitive kind with the bit size of its own width,
      and no entry for any other kind. */
  function Setters(shape: Shape): (r: Option<SetterKind>)
    ensures r.None? <==> !(shape.Str? || shape.Bool? || shape.Int? || shape.Uint? || shape.Float?)
    ensures shape.Str? ==> r == Some(SetStrKind)
    ensures shape.Bool? ==> r == Some(SetBoolKind)
    ensures shape.Int? ==> r == Some(SetIntKind(shape.bits))
    ensures shape.Uint? ==> r == Some(SetUintKind(shape.bits))
    ensures shape.Float? ==> r == Some(SetFloatKind(shape.fbits))
  {
    match shape
    case Str => Some(SetStrKind)
    case Bool => Some(SetBoolKind)
    case Int(b) => Some(SetIntKind(b))
    case Uint(b) => Some(SetUintKind(b))
    case Float(b) => Some(SetFloatKind(b))
    case _ => None
  }

  /** Runs the setter the table gives for the shape; the value it returns is of the shape. */
  function Apply(shape: Shape, k: SetterKind, value: string, parseFloat: FloatParser): (r: Option<Value>)
    requires Setters(shape) == Some(k)
    ensures r.Some? ==> HasShape(r.value, shape)
  {
    match k
    case SetStrKind => SetStr(value)
    case SetBoolKind => SetBool(value)
    case SetIntKind(b) => SetInt(b, value)
    case SetUintKind(b) => SetUint(b, value)
    case SetFloatKind(b) => SetFloat(parseFloat, b, value)
  }

  /** The pieces kept from raw pieces: each trimmed, the empty ones dropped, in order. */
  function KeepNonEmpty(pieces: seq<string>): (r: seq<string>)
    ensures |r| <= |pieces|
  {
    if pieces == [] then []
    else
      var t := TrimSpace(pieces[|pieces| - 1]);
      KeepNonEmpty(pieces[..|pieces| - 1]) + (if t != "" then [t] else [])
  }

  /** Every kept piece is non-empty and already trimmed. */
  lemma {:induction false} KeepNonEmptySpec(pieces: seq<string>)
    ensures forall k | 0 <= k < |KeepNonEmpty(pieces)| :: KeepNonEmpty(pieces)[k] != "" && TrimSpace(KeepNonEmpty(pieces)[k]) == KeepNonEmpty(pieces)[k]
  {
    if pieces != [] {
      var n := |pieces| - 1;
      KeepNonEmptySpec(pieces[..n]);
      TrimSpaceIdempotent(pieces[n]);
    }
  }

  /** The elements a slice query value stands for. */
  function Pieces(q: string): seq<string>
  {
    KeepNonEmpty(Split(q, ','))
  }

  /** The closure in SetValue that collects the non-empty trimmed pieces. */
  method SplitValues(q: string) returns (result: seq<string>)
    ensures result == Pieces(q)
  {
    var pieces := Split(q, ',');
    result := [];
    var i := 0;
    while i < |pieces|
      invariant 0 <= i <= |pieces|
      invariant result == KeepNonEmpty(pieces[..i])
    {
      assert pieces[..i + 1][..i] == pieces[..i];
      var value := TrimSpace(pieces[i]);
      if value != "" {
        result := result + [value];
      }
      i := i + 1;
    }
    assert pieces[..i] == pieces;
  }

  /** The outcome of a write: the location's new value and the error returned. */
  datatype Written = Written(val: Value, err: Option<Error>)

  function UnsupportedKind(shape: Shape): Error
  {
    Plain("qparser: unsupported kind " + KindName(shape))
  }

  function InvalidValue(q: string): Error
  {
    Plain("qparser: invalid value '" + q + "' for field")
  }

  /** What SetValue leaves in a location holding `prev`. */
  function SetValueSpec(prev: Value, shape: Shape, q: string, parseFloat: FloatParser): (r: Written)
    requires HasShape(prev, shape)
    ensures HasShape(r.val, shape)
    decreases shape, 2
  {
    if shape.Ptr? then
      var target := if prev.PtrTo? then prev.target else Zero(shape.elem);
      ZeroSpec(shape.elem);
      var w := SetDirect(target, shape.elem, q, parseFloat);
      Written(PtrTo(w.val), w.err)
    else
      SetDirect(prev, shape, q, parseFloat)
  }

  /** SetValue once any pointer has been dereferenced. */
  function SetDirect(prev: Value, shape: Shape, q: string, parseFloat: FloatParser): (r: Written)
    requires HasShape(prev, shape)
    ensures HasShape(r.val, shape)
    ensures r.err.Some? ==> r.val == prev
    decreases shape, 1
  {
    if shape.Slice? then SetSlice(prev, shape, q, parseFloat) else SetScalar(prev, shape, q, parseFloat)
  }

  /** A slice is replaced by a new non-nil one only when every piece converts. */
  function SetSlice(prev: Value, shape: Shape, q: string, parseFloat: FloatParser): (r: Written)
    requires shape.Slice? && HasShape(prev, shape)
    ensures HasShape(r.val, shape)
    ensures r.err.Some? ==> r.val == prev
    decreases shape, 0
  {
    match SetEach(shape.elem, Pieces(q), parseFloat)
    case Ok(items) => Written(SliceV(false, items), None)
    case Err(e) => Written(prev, Some(e))
  }

  /** Any other kind goes through the `setters` table. */
  function SetScalar(prev: Value, shape: Shape, q: string, parseFloat: FloatParser): (r: Written)
    requires HasShape(prev, shape)
    ensures HasShape(r.val, shape)
    ensures r.err.Some? ==> r.val == prev
  {
    match Setters(shape)
    case None => Written(prev, Some(UnsupportedKind(shape)))
    case Some(k) =>
      match Apply(shape, k, q, parseFloat)
      case None => Written(prev, Some(InvalidValue(q)))
      case Some(v) => Written(v, None)
  }

  /** Each piece converted into a fresh element, in order; the first failure wins. */
  function SetEach(elem: Shape, pieces: seq<string>, parseFloat: FloatParser): (r: Result<seq<Value>, Error>)
    ensures r.Ok? ==> |r.value| == |pieces| && forall k | 0 <= k < |pieces| :: HasShape(r.value[k], elem)
    decreases elem, 3, |pieces|
  {
    if pieces == [] then Ok([])
    else
      ZeroSpec(elem);
      var w := SetValueSpec(Zero(elem), elem, pieces[0], parseFloat);
      if w.err.Some? then Err(w.err.value)
      else
        match SetEach(elem, pieces[1..], parseFloat)
        case Err(e) => Err(e)
        case Ok(rest) => Ok([w.val] + rest)
  }

  /** `items` followed by the result of the rest, or its error. */
  function Prepend(items: seq<Value>, r: Result<seq<Value>, Error>): Result<seq<Value>, Error>
  {
    match r
    case Ok(rest) => Ok(items + rest)
    case Err(e) => Err(e)
  }

  /** SetValue: writes q into the location. */
  method SetValue(cell: Cell, shape: Shape, q: string, parseFloat: FloatParser) returns (err: Option<Error>)
    requires HasShape(cell.val, shape)
    modifies cell
    ensures Written(cell.val, err) == SetValueSpec(old(cell.val), shape, q, parseFloat)
    decreases shape, 2
  {
    if shape.Ptr? {
      ZeroHasShape(shape.elem);
      if cell.val.NilPtr? {
        cell.val := PtrTo(Zero(shape.elem));
      }
      var target := new Cell(cell.val.target);
      err := SetDirectly(target, shape.elem, q, parseFloat);
      cell.val := PtrTo(target.val);
    } else {
      err := SetDirectly(cell, shape, q, parseFloat);
    }
  }

  /** The part of SetValue after the pointer step. */
  method SetDirectly(v: Cell, shape: Shape, q: string, parseFloat: FloatParser) returns (err: Option<Error>)
    requires HasShape(v.val, shape)
    modifies v
    ensures Written(v.val, err) == SetDirect(old(v.val), shape, q, parseFloat)
    decreases shape, 1
  {
    if shape.Slice? {
      err := SetSliceValue(v, shape, q, parseFloat);
      return;
    }
    var setter := Setters(shape);
    if setter.None? {
      return Some(UnsupportedKind(shape));
    }
    var value := Apply(shape, setter.value, q, parseFloat);
    if value.None? {
      return Some(InvalidValue(q));
    }
    v.val := value.value;
    err := None;
  }

  /** The slice branch of SetValue: convert the pieces, then assign the new slice. */
  method SetSliceValue(v: Cell, shape: Shape, q: string, parseFloat: FloatParser) returns (err: Option<Error>)
    requires shape.Slice? && HasShape(v.val, shape)
    modifies v
    ensures Written(v.val, err) == SetSlice(old(v.val), shape, q, parseFloat)
    decreases shape, 0
  {
    var values := SplitValues(q);
    var items;
    items, err := FillSlice(shape.elem, values, parseFloat);
    if err.None? {
      v.val := SliceV(false, items);
    }
  }

  /** Fills a new slice of the element shape, one piece per element, stopping at the
      first failure. */
  method FillSlice(elem: Shape, values: seq<string>, parseFloat: FloatParser) returns (items: seq<Value>, err: Option<Error>)
    ensures (if err.None? then Ok(items) else Err(err.value)) == SetEach(elem, values, parseFloat)
    decreases elem, 4, |values|
  {
    ZeroHasShape(elem);
    var zero := Zero(elem);
    var cpSlice := new Value[|values|](_ => zero);
    var i := 0;
    assert values[0..] == values && cpSlice[..0] == [];
    PrependNothing(SetEach(elem, values, parseFloat));
    while i < |values|
      invariant 0 <= i <= |values|
      invariant SetEach(elem, values, parseFloat) == Prepend(cpSlice[..i], SetEach(elem, values[i..], parseFloat))
    {
      var done := cpSlice[..i];
      // the element starts out as the element type's zero value
      var val, e := SetItem(zero, elem, values[i], parseFloat);
      FillStep(elem, values, i, done, val, e, parseFloat);
      if e.Some? {
        return [], e;
      }
      cpSlice[i] := val;
      assert cpSlice[..i + 1] == done + [val];
      i := i + 1;
    }
    assert values[i..] == [] && cpSlice[..i] + [] == cpSlice[..];
    return cpSlice[..], None;
  }

  /** `SetValue(cpSlice.Index(i), value)`: the element's new value and the error. */
  method SetItem(item: Value, elem: Shape, value: string, parseFloat: FloatParser) returns (val: Value, err: Option<Error>)
    requires HasShape(item, elem)
    ensures Written(val, err) == SetValueSpec(item, elem, value, parseFloat)
    decreases elem, 3, 0
  {
    var cell := new Cell(item);
    err := SetValue(cell, elem, value, parseFloat);
    val := cell.val;
  }

  /** One element of FillSlice: its failure is the slice's failure; otherwise it
      joins the elements done so far. */
  lemma FillStep(elem: Shape, values: seq<string>, i: nat, done: seq<Value>, val: Value, e: Option<Error>, parseFloat: FloatParser)
    requires i < |values| && ZeroSpecHolds(elem)
    requires Written(val, e) == SetValueSpec(Zero(elem), elem, values[i], parseFloat)
    requires SetEach(elem, values, parseFloat) == Prepend(done, SetEach(elem, values[i..], parseFloat))
    ensures e.Some? ==> SetEach(elem, values, parseFloat) == Err(e.value)
    ensures e.None? ==> SetEach(elem, values, parseFloat) == Prepend(done + [val], SetEach(elem, values[i + 1..], parseFloat))
  {
    SetEachStep(elem, values, i, parseFloat);
    PrependTwice(done, [val], SetEach(elem, values[i + 1..], parseFloat));
  }

  lemma PrependTwice(a: seq<Value>, b: seq<Value>, r: Result<seq<Value>, Error>)
    ensures Prepend(a, Prepend(b, r)) == Prepend(a + b, r)
  {
    if r.Ok? {
      assert a + (b + r.value) == (a + b) + r.value;
    }
  }

  lemma PrependNothing(r: Result<seq<Value>, Error>)
    ensures Prepend([], r) == r
  {
    if r.Ok? {
      assert [] + r.value == r.value;
    }
  }

  /** One step of SetEach: piece i, then the pieces after it. */
  lemma SetEachStep(elem: Shape, pieces: seq<string>, i: nat, parseFloat: FloatParser)
    requires i < |pieces|
    ensures ZeroSpecHolds(elem) && var w := SetValueSpec(Zero(elem), elem, pieces[i], parseFloat);
      SetEach(elem, pieces[i..], parseFloat) ==
        if w.err.Some? then Err(w.err.value) else Prepend([w.val], SetEach(elem, pieces[i + 1..], parseFloat))
  {
    ZeroHasShape(elem);
    assert pieces[i..][1..] == pieces[i + 1..];
  }

  // ---------------------------------------------------------------------------
  // Properties

  /** A nil pointer is allocated before the conversion and stays allocated when the
      conversion fails; a non-nil pointer keeps pointing at its target. */
  lemma PointerStaysAllocated(prev: Value, shape: Shape, q: string, parseFloat: FloatParser)
    requires shape.Ptr? && HasShape(prev, shape)
    ensures SetValueSpec(prev, shape, q, parseFloat).val.PtrTo?
    ensures prev.PtrTo? && SetValueSpec(prev, shape, q, parseFloat).err.Some? ==>
      SetValueSpec(prev, shape, q, parseFloat).val == prev
    ensures prev.NilPtr? && SetValueSpec(prev, shape, q, parseFloat).err.Some? ==>
      SetValueSpec(prev, shape, q, parseFloat).val == PtrTo(Zero(shape.elem))
  {
  }

  /** A slice gets one element per non-empty trimmed piece, element k being the
      conversion of piece k; on any failure the slice keeps its previous value. */
  lemma {:induction false} SetEachSpec(elem: Shape, pieces: seq<string>, parseFloat: FloatParser)
    ensures ZeroSpecHolds(elem) && var r := SetEach(elem, pieces, parseFloat);
      && (r.Ok? <==> forall k | 0 <= k < |pieces| :: SetValueSpec(Zero(elem), elem, pieces[k], parseFloat).err.None?)
      && (r.Ok? ==> forall k | 0 <= k < |pieces| :: r.value[k] == SetValueSpec(Zero(elem), elem, pieces[k], parseFloat).val)
  {
    ZeroHasShape(elem);
    if pieces != [] {
      SetEachSpec(elem, pieces[1..], parseFloat);
      var r := SetEach(elem, pieces, parseFloat);
      if r.Ok? {
        assert forall k | 1 <= k < |pieces| :: pieces[k] == pieces[1..][k - 1];
      }
    }
  }

  /** The zero value of the shape is of the shape (a helper for stating SetEachSpec). */
  predicate ZeroSpecHolds(shape: Shape)
  {
    HasShape(Zero(shape), shape)
  }

  lemma ZeroHasShape(shape: Shape)
    ensures ZeroSpecHolds(shape)
  {
    ZeroSpec(shape);
  }

  lemma SliceSpec(prev: Value, elem: Shape, q: string, parseFloat: FloatParser)
    requires HasShape(prev, Slice(elem))
    ensures var w := SetValueSpec(prev, Slice(elem), q, parseFloat);
      && (w.err.Some? ==> w.val == prev)
      && (w.err.None? ==> w.val.SliceV? && !w.val.isNil && |w.val.items| == |Pieces(q)|)
  {
    assert SetValueSpec(prev, Slice(elem), q, parseFloat) == SetSlice(prev, Slice(elem), q, parseFloat);
  }

  /** A kind with no setter fails with "unsupported kind" and writes nothing. */
  lemma UnsupportedKindSpec(prev: Value, shape: Shape, q: string, parseFloat: FloatParser)
    requires HasShape(prev, shape) && !shape.Ptr? && !shape.Slice? && Setters(shape).None?
    ensures SetValueSpec(prev, shape, q, parseFloat) == Written(prev, Some(UnsupportedKind(shape)))
  {
  }

  /**
   * Every kind in the table: a value its setter converts is written with no error;
   * one it rejects fails with "invalid value '<q>'" and the location keeps its value.
   */
  lemma TableKindSpec(prev: Value, shape: Shape, q: string, parseFloat: FloatParser)
    requires HasShape(prev, shape) && !shape.Ptr? && !shape.Slice? && Setters(shape).Some?
    ensures Apply(shape, Setters(shape).value, q, parseFloat).None? ==>
      SetValueSpec(prev, shape, q, parseFloat) == Written(prev, Some(InvalidValue(q)))
    ensures Apply(shape, Setters(shape).value, q, parseFloat).Some? ==>
      SetValueSpec(prev, shape, q, parseFloat) == Written(Apply(shape, Setters(shape).value, q, parseFloat).value, None)
  {
  }

  /** An integer location takes exactly the in-range signed decimals, and otherwise
      reports the literal and keeps its value. */
  lemma SetIntValue(prev: Value, bits: BitSize, q: string, parseFloat: FloatParser)
    requires HasShape(prev, Int(bits))
    ensures var w := SetValueSpec(prev, Int(bits), q, parseFloat);
      && (w.err.None? <==> IsSignedDecimal(q) && MinInt(bits) <= SignedValue(q) <= MaxInt(bits))
      && (w.err.None? ==> w.val == IntV(SignedValue(q)))
      && (w.err.Some? ==> w.val == prev && w.err == Some(InvalidValue(q)))
  {
  }

  /** Text without a comma is one element, trimmed, unless it is blank:
      "foo.bar.baz.qux" stays whole. */
  lemma NoCommaOnePiece(q: string)
    requires !ContainsChar(q, ',')
    ensures Pieces(q) == if TrimSpace(q) == "" then [] else [TrimSpace(q)]
  {
    SplitWithoutSeparator(q, ',');
    assert [q][1..] == [];
  }

  /** Keeping pieces distributes over concatenation. */
  lemma {:induction false} KeepNonEmptyAppend(x: seq<string>, y: seq<string>)
    ensures KeepNonEmpty(x + y) == KeepNonEmpty(x) + KeepNonEmpty(y)
  {
    if y == [] {
      assert x + y == x;
    } else {
      var n := |y| - 1;
      var t := TrimSpace(y[n]);
      var e := if t != "" then [t] else [];
      assert KeepNonEmpty(x + y) == KeepNonEmpty(x + y[..n]) + e by {
        assert (x + y)[..|x + y| - 1] == x + y[..n];
        assert (x + y)[|x + y| - 1] == y[n];
      }
      assert KeepNonEmpty(y) == KeepNonEmpty(y[..n]) + e;
      KeepNonEmptyAppend(x, y[..n]);
    }
  }

  /** "a,b" holds the elements of "a" followed by those of "b". */
  lemma PiecesConcat(a: string, b: string)
    requires !ContainsChar(a, ',')
    ensures Pieces(a + [','] + b) == Pieces(a) + Pieces(b)
  {
    SplitAfterPiece(a, b, ',');
    SplitWithoutSeparator(a, ',');
    KeepNonEmptyAppend([a], Split(b, ','));
  }

  /** A []string location receives exactly the pieces, in order. */
  lemma StringSlice(prev: Value, q: string, parseFloat: FloatParser)
    requires HasShape(prev, Slice(Str))
    ensures var w := SetValueSpec(prev, Slice(Str), q, parseFloat);
      && w.err.None? && w.val.SliceV? && |w.val.items| == |Pieces(q)|
      && forall k | 0 <= k < |Pieces(q)| :: w.val.items[k] == StrV(Pieces(q)[k])
  {
    var ps := Pieces(q);
    SetEachSpec(Str, ps, parseFloat);
    assert forall k | 0 <= k < |ps| :: SetValueSpec(Zero(Str), Str, ps[k], parseFloat) == Written(StrV(ps[k]), None);
    assert SetValueSpec(prev, Slice(Str), q, parseFloat) == SetSlice(prev, Slice(Str), q, parseFloat);
  }
}
