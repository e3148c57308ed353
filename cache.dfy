/**
 * cache.go: the schema of a struct type, built once and memoised. A field is
 * described when it is exported and either carries a `qp` tag or, untagged, is a
 * struct (or a pointer to one) other than `time.Time`; an unexported field with a
 * tag only raises a flag. The process-wide cache keeps the first schema stored for a
 * type.
 */
module Cache {
  import opened Wrappers
  import opened Shapes

  /** fieldInfo: `index` is the field's position in its struct. */
  datatype FieldInfo = FieldInfo(name: string, tag: string, typ: Shape, index: nat, isNested: bool)

  /** structInfo */
  datatype StructInfo = StructInfo(name: string, fields: seq<FieldInfo>, hasUnexportedWithTag: bool)

  /** After removing one pointer level, a struct other than `time.Time` itself; a type
      defined as `time.Time` is a different type and counts. */
  predicate IsNestedStruct(t: Shape)
  {
    var u := if t.Ptr? then t.elem else t;
    u.Struct? || (u.Time? && u.alias != "")
  }

  /** The descriptor field f, at position i, contributes, if any. */
  function Entry(f: Field, i: nat): (r: Option<FieldInfo>)
    ensures r.Some? <==> f.exported && (f.tag != "" || IsNestedStruct(f.shape))
    ensures r.Some? ==> r.value.name == f.name && r.value.typ == f.shape && r.value.index == i
    ensures r.Some? ==> (r.value.isNested <==> f.tag == "") && r.value.tag == f.tag
  {
    if !f.exported then None
    else if f.tag != "" then Some(FieldInfo(f.name, f.tag, f.shape, i, false))
    else if IsNestedStruct(f.shape) then Some(FieldInfo(f.name, "", f.shape, i, true))
    else None
  }

  /** The descriptors of the first n fields, in declaration order. */
  function Entries(fs: seq<Field>, n: nat): seq<FieldInfo>
    requires n <= |fs|
  {
    if n == 0 then []
    else
      var e := Entry(fs[n - 1], n - 1);
      Entries(fs, n - 1) + (if e.Some? then [e.value] else [])
  }

  /** Some unexported field among the first n carries a tag. */
  function HiddenTag(fs: seq<Field>, n: nat): bool
    requires n <= |fs|
  {
    n > 0 && (HiddenTag(fs, n - 1) || (!fs[n - 1].exported && fs[n - 1].tag != ""))
  }

  /** The schema of a struct type. */
  function Describe(rt: Shape): StructInfo
    requires rt.Struct?
  {
    StructInfo(rt.name, Entries(rt.fields, |rt.fields|), HiddenTag(rt.fields, |rt.fields|))
  }

  /** The schema-building loop of getStructCache. */
  method BuildStructInfo(rt: Shape) returns (info: StructInfo)
    requires rt.Struct?
    ensures info == Describe(rt)
  {
    var fs := rt.fields;
    var fields: seq<FieldInfo> := [];
    var hidden := false;
    for i := 0 to |fs|
      invariant fields == Entries(fs, i) && hidden == HiddenTag(fs, i)
    {
      var field := fs[i];
      var tag := field.tag;
      if !field.exported {
        if tag != "" {
          hidden := true;
        }
      } else if tag != "" {
        fields := fields + [FieldInfo(field.name, tag, field.shape, i, false)];
      } else {
        var fieldType := field.shape;
        if fieldType.Ptr? {
          fieldType := fieldType.elem;
        }
        if fieldType.Struct? || (fieldType.Time? && fieldType.alias != "") {
          fields := fields + [FieldInfo(field.name, "", field.shape, i, true)];
        }
      }
    }
    info := StructInfo(rt.name, fields, hidden);
  }

  /** The process-wide cache, keyed by type. */
  class StructCache {
    var entries: map<Shape, StructInfo>

    /** Every stored schema is the schema of its key. */
    predicate Valid()
      reads this
    {
      forall t | t in entries :: t.Struct? && entries[t] == Describe(t)
    }

    constructor()
      ensures entries == map[] && Valid()
    {
      entries := map[];
    }

    /** sync.Map.Load */
    method Load(rt: Shape) returns (r: Option<StructInfo>)
      ensures r.Some? <==> rt in entries
      ensures r.Some? ==> r.value == entries[rt]
    {
      if rt in entries {
        r := Some(entries[rt]);
      } else {
        r := None;
      }
    }

    /** sync.Map.LoadOrStore: the entry already stored wins; otherwise info is stored. */
    method LoadOrStore(rt: Shape, info: StructInfo) returns (actual: StructInfo)
      modifies this
      ensures rt in old(entries) ==> actual == old(entries)[rt] && entries == old(entries)
      ensures rt !in old(entries) ==> actual == info && entries == old(entries)[rt := info]
    {
      if rt in entries {
        actual := entries[rt];
      } else {
        entries := entries[rt := info];
        actual := info;
      }
    }

    /** getStructCache: the stored schema if any, else a fresh one, stored. No stored
        entry is ever replaced. */
    method GetStructCache(rt: Shape) returns (info: StructInfo)
      requires rt.Struct? && Valid()
      modifies this
      ensures Valid()
      ensures info == Describe(rt) && rt in entries && entries[rt] == info
      ensures forall t | t in old(entries) :: t in entries && entries[t] == old(entries)[t]
      ensures entries.Keys == old(entries).Keys + {rt}
    {
      var cached := Load(rt);
      if cached.Some? {
        return cached.value;
      }
      var built := BuildStructInfo(rt);
      info := LoadOrStore(rt, built);
    }
  }

  // ---------------------------------------------------------------------------
  // Properties

  /** The descriptors are exactly the fields whose Entry exists, each at most once and
      in declaration order. */
  lemma {:induction false} EntriesSpec(fs: seq<Field>, n: nat)
    requires n <= |fs|
    ensures forall k | 0 <= k < |Entries(fs, n)| ::
      Entries(fs, n)[k].index < n && Entry(fs[Entries(fs, n)[k].index], Entries(fs, n)[k].index) == Some(Entries(fs, n)[k])
    ensures forall k1, k2 | 0 <= k1 < k2 < |Entries(fs, n)| :: Entries(fs, n)[k1].index < Entries(fs, n)[k2].index
    ensures forall i | 0 <= i < n :: Entry(fs[i], i).Some? ==> exists k | 0 <= k < |Entries(fs, n)| :: Entries(fs, n)[k].index == i
  {
    if n > 0 {
      EntriesSpec(fs, n - 1);
      var r := Entries(fs, n);
      var prev := Entries(fs, n - 1);
      assert forall k | 0 <= k < |prev| :: r[k] == prev[k];
      var e := Entry(fs[n - 1], n - 1);
      if e.Some? {
        assert r[|prev|] == e.value;
      }
    }
  }

  lemma {:induction false} HiddenTagSpec(fs: seq<Field>, n: nat)
    requires n <= |fs|
    ensures HiddenTag(fs, n) <==> exists i | 0 <= i < n :: !fs[i].exported && fs[i].tag != ""
  {
    if n > 0 {
      HiddenTagSpec(fs, n - 1);
    }
  }

  /** The schema of a struct: no unexported field appears; every exported tagged field
      appears with its tag, not nested; an untagged exported field appears exactly when
      it is a nested struct, and then it is nested with an empty tag and its own type;
      fields keep declaration order; the flag says whether an unexported field is
      tagged. */
  lemma DescribeSpec(rt: Shape)
    requires rt.Struct?
    ensures var info := Describe(rt); var fs := rt.fields;
      && info.name == rt.name
      && (forall k | 0 <= k < |info.fields| ::
            var i := info.fields[k].index;
            && i < |fs| && fs[i].exported && info.fields[k].name == fs[i].name && info.fields[k].typ == fs[i].shape
            && (info.fields[k].isNested <==> fs[i].tag == "") && info.fields[k].tag == fs[i].tag)
      && (forall k1, k2 | 0 <= k1 < k2 < |info.fields| :: info.fields[k1].index < info.fields[k2].index)
      && (forall i | 0 <= i < |fs| ::
            (exists k | 0 <= k < |info.fields| :: info.fields[k].index == i) <==>
              fs[i].exported && (fs[i].tag != "" || IsNestedStruct(fs[i].shape)))
      && (info.hasUnexportedWithTag <==> exists i | 0 <= i < |fs| :: !fs[i].exported && fs[i].tag != "")
  {
    var fs := rt.fields;
    var r := Entries(fs, |fs|);
    EntriesSpec(fs, |fs|);
    HiddenTagSpec(fs, |fs|);
    forall i | 0 <= i < |fs| && exists k | 0 <= k < |r| :: r[k].index == i
      ensures Entry(fs[i], i).Some?
    {
      var k :| 0 <= k < |r| && r[k].index == i;
      assert Entry(fs[r[k].index], r[k].index) == Some(r[k]);
    }
  }
}
