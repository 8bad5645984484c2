/** Go values as bind.go sees them, and the value-level rules of binding. Reflection, Valuers
    and JSON text are abstracted: a scalar is any value bound as it is (numbers, strings,
    bytes, times, Valuers), a record any struct or map. An argument of slice type that is a
    Valuer has a case of its own, since bindNamed and bindForExec look at it differently. */
module Values {
  import opened Wrappers

  datatype Value =
    | Null
    | Scalar(repr: int)
    | List(elems: seq<Value>, isNil: bool)
    | Record(repr: int)
    | NilPtr
    | Ptr(target: Value)
    | Unbindable
    | Json(of: Value)
    | Raw(arg: Arg)

  datatype Error =
    | UnsupportedType
    | PlaceholderNotFound(name: string)
    | SliceExpansion(name: string)
    | TagInvalid
    | IndexPanic

  datatype Style = Question | Dollar | At

  /** The options that reach binding; a nil config is `Config(false, Question)`. The tag name and
      the name mapper have gone into the metadata of struct arguments. */
  datatype Config = Config(sliceExpansion: bool, placeholder: Style)

  const DEFAULT_CONFIG := Config(false, Question)

  /** Field metadata of a struct type: the bind-direction lookup and the tag flags. */
  datatype StructType = BadTag | Fields(index: map<string, nat>, flags: seq<Flags>)
  datatype Flags = Flags(json: bool, omitEmpty: bool)

  /** A dereferenced struct or map argument; a field behind a nil embedded pointer is None. */
  datatype Object =
    | MapObj(entries: map<string, Value>)
    | OddKeyMap
    | StructObj(typ: StructType, fields: seq<Option<Value>>)

  /** The argument of a call after dereferencing pointers. `Anys` is a `[]any`, `Slice` any
      other slice of neither structs nor maps, `Objects` a slice of structs or maps. A
      `ValuerSlice` has a slice type with a Value method; `elems` are its elements when they are
      structs or maps. */
  datatype Arg =
    | NoArg
    | NilPointer
    | One(v: Value)
    | ValuerSlice(repr: int, elems: Option<seq<Object>>)
    | Anys(vs: seq<Value>)
    | Slice(vs: seq<Value>)
    | Objects(objs: seq<Object>)
    | Obj(obj: Object)

  /** The elements of a slice of structs or maps. */
  function Elements(arg: Arg): Option<seq<Object>> {
    match arg
    case Objects(objs) => Some(objs)
    case ValuerSlice(_, elems) => elems
    case _ => None
  }

  function Deref(v: Value): Value { if v.Ptr? then Deref(v.target) else v }

  /** isZeroAny */
  predicate IsZero(v: Value) {
    match v
    case Null => true
    case Scalar(n) => n == 0
    case List(_, isNil) => isNil
    case Record(n) => n == 0
    case NilPtr => true
    case _ => false
  }

  /** normalizeBindValue */
  function Normalize(v: Value, json: bool): Result<Value, Error> {
    match v
    case Null => Ok(Null)
    case NilPtr => Ok(Null)
    case Ptr(t) => Normalize(t, json)
    case Scalar(_) => Ok(v)
    case Json(_) => Ok(v)
    case List(_, _) => if json then Ok(Json(v)) else Err(UnsupportedType)
    case Record(_) => if json then Ok(Json(v)) else Err(UnsupportedType)
    case _ => Err(UnsupportedType)
  }

  /** isExpandableSlice */
  predicate IsExpandable(v: Value) { Deref(v).List? }

  function NormalizeFirst(vs: seq<Value>, n: nat): Result<seq<Value>, Error>
    requires n <= |vs|
  {
    if n == 0 then Ok([]) else
      match NormalizeFirst(vs, n - 1)
      case Err(e) => Err(e)
      case Ok(out) =>
        match Normalize(vs[n - 1], false)
        case Err(e) => Err(e)
        case Ok(v) => Ok(out + [v])
  }

  /** expandSlice: an empty slice is an error, otherwise every element is normalised. */
  function Expand(vs: seq<Value>, name: string): Result<seq<Value>, Error> {
    if vs == [] then Err(SliceExpansion(name)) else NormalizeFirst(vs, |vs|)
  }

  method ExpandSlice(vs: seq<Value>, name: string) returns (r: Result<seq<Value>, Error>)
    ensures r == Expand(vs, name)
    ensures r.Ok? <==> vs != [] && forall k | 0 <= k < |vs| :: Bindable(vs[k])
    ensures r.Ok? ==> Elementwise(vs, r.value)
    ensures r.Err? ==> r.error == if vs == [] then SliceExpansion(name) else UnsupportedType
  {
    ExpandIs(vs, name);
    if |vs| == 0 { return Err(SliceExpansion(name)); }
    var out := [];
    for i := 0 to |vs|
      invariant NormalizeFirst(vs, i) == Ok(out)
    {
      var item := Normalize(vs[i], false);
      if item.Err? {
        NormalizeFails(vs, i, |vs|);
        return Err(item.error);
      }
      out := out + [item.value];
    }
    r := Ok(out);
  }

  lemma {:induction false} NormalizeFails(vs: seq<Value>, i: nat, n: nat)
    requires i < n <= |vs|
    requires NormalizeFirst(vs, i).Ok? && Normalize(vs[i], false).Err?
    ensures NormalizeFirst(vs, n) == Err(Normalize(vs[i], false).error)
  {
    if i + 1 < n { NormalizeFails(vs, i, n - 1); }
  }

  lemma {:induction false} NormalizeLength(vs: seq<Value>, n: nat)
    requires n <= |vs|
    ensures NormalizeFirst(vs, n).Ok? ==> |NormalizeFirst(vs, n).value| == n
  {
    if n > 0 { NormalizeLength(vs, n - 1); }
  }

  datatype Lookup = Lookup(v: Value, json: bool, omitEmpty: bool)

  /** lookupNamedValue */
  function LookupNamed(obj: Object, ti: Option<StructType>, name: string): Result<Lookup, Error> {
    match obj
    case MapObj(entries) =>
      if name in entries then Ok(Lookup(entries[name], false, false)) else Err(PlaceholderNotFound(name))
    case OddKeyMap => Err(UnsupportedType)
    case StructObj(_, fields) =>
      if ti.None? || ti.value.BadTag? then Err(UnsupportedType)
      else if name !in ti.value.index then Err(PlaceholderNotFound(name))
      else
        var i := ti.value.index[name];
        if i >= |fields| || i >= |ti.value.flags| then Err(IndexPanic)
        else if fields[i].None? then Err(PlaceholderNotFound(name))
        else Ok(Lookup(fields[i].value, ti.value.flags[i].json, ti.value.flags[i].omitEmpty))
  }

  /** bindValue */
  function BindValue(obj: Object, ti: Option<StructType>, name: string): Result<Value, Error> {
    match LookupNamed(obj, ti, name)
    case Err(e) => Err(e)
    case Ok(l) => if l.omitEmpty && IsZero(l.v) then Ok(Null) else Normalize(l.v, l.json)
  }

  /** getTypeInfo, for the objects that need it. */
  function TypeInfo(obj: Object): Result<Option<StructType>, Error> {
    if !obj.StructObj? then Ok(None)
    else if obj.typ.BadTag? then Err(TagInvalid)
    else Ok(Some(obj.typ))
  }

  // ----- the binding rules by cases -----

  /** The value an object holds under a name, and the options of its tag; `t` is the struct type
      whose metadata is consulted. */
  ghost predicate Field(obj: Object, t: Option<StructType>, name: string, x: Value, json: bool, omitEmpty: bool) {
    match obj
    case MapObj(entries) => name in entries && x == entries[name] && !json && !omitEmpty
    case OddKeyMap => false
    case StructObj(_, fields) =>
      && t.Some? && t.value.Fields? && name in t.value.index
      && var i := t.value.index[name];
      i < |fields| && i < |t.value.flags| && fields[i] == Some(x) && t.value.flags[i] == Flags(json, omitEmpty)
  }

  /** No field or entry of that name, or a field behind a nil embedded pointer. */
  ghost predicate Missing(obj: Object, t: Option<StructType>, name: string) {
    match obj
    case MapObj(entries) => name !in entries
    case OddKeyMap => false
    case StructObj(_, fields) =>
      && t.Some? && t.value.Fields?
      && (name in t.value.index ==>
        var i := t.value.index[name];
        i < |fields| && i < |t.value.flags| && fields[i] == None)
  }

  ghost predicate Zero(x: Value) {
    x == Null || x == NilPtr || x == Scalar(0) || x == Record(0) || (x.List? && x.isNil)
  }

  /** Nil is NULL, pointers are followed, scalars stay, and lists and records are marshalled under a
      json tag and refused otherwise. */
  ghost predicate Becomes(x: Value, json: bool, v: Value) {
    match x
    case Ptr(target) => Becomes(target, json, v)
    case Null => v == Null
    case NilPtr => v == Null
    case Scalar(_) => v == x
    case Json(_) => v == x
    case List(_, _) => json && v == Json(x)
    case Record(_) => json && v == Json(x)
    case _ => false
  }

  /** A slice, perhaps behind pointers, and its elements. */
  ghost predicate SliceOf(x: Value, elems: seq<Value>) {
    match x
    case Ptr(target) => SliceOf(target, elems)
    case List(es, _) => elems == es
    case _ => false
  }

  lemma {:induction false} NormalizeIs(x: Value, json: bool, v: Value)
    ensures Normalize(x, json) == Ok(v) <==> Becomes(x, json, v)
    ensures Normalize(x, json).Err? ==> Normalize(x, json) == Err(UnsupportedType)
  { if x.Ptr? { NormalizeIs(x.target, json, v); } }

  lemma {:induction false} ExpandableIs(x: Value)
    ensures IsExpandable(x) ==> SliceOf(x, Deref(x).elems)
    ensures forall elems | SliceOf(x, elems) :: IsExpandable(x) && Deref(x).elems == elems
  { if x.Ptr? { ExpandableIs(x.target); } }

  lemma ZeroIs(x: Value)
    ensures IsZero(x) <==> Zero(x)
  {}

  lemma {:induction false} LookupIs(obj: Object, t: Option<StructType>, name: string)
    ensures var r := LookupNamed(obj, t, name);
      && (r.Ok? ==> Field(obj, t, name, r.value.v, r.value.json, r.value.omitEmpty))
      && (r.Err? ==> forall x, json, omitEmpty :: !Field(obj, t, name, x, json, omitEmpty))
      && (Missing(obj, t, name) ==> r == Err(PlaceholderNotFound(name)))
      && (r.Err? && r.error.PlaceholderNotFound? ==> Missing(obj, t, name) && r.error.name == name)
    ensures forall x, json, omitEmpty | Field(obj, t, name, x, json, omitEmpty) ::
      LookupNamed(obj, t, name) == Ok(Lookup(x, json, omitEmpty))
  {}

  /** Every element of a slice that is not empty, in order. */
  ghost predicate Elementwise(elems: seq<Value>, vals: seq<Value>) {
    elems != [] && |vals| == |elems| && forall k | 0 <= k < |vals| :: Becomes(elems[k], false, vals[k])
  }

  ghost predicate Bindable(x: Value) { exists v :: Becomes(x, false, v) }

  lemma {:induction false} BindableIs(x: Value)
    ensures var r := Normalize(x, false);
      (Bindable(x) <==> r.Ok?) && (r.Ok? ==> Becomes(x, false, r.value)) && (r.Err? ==> r.error == UnsupportedType)
  {
    var r := Normalize(x, false);
    NormalizeIs(x, false, if r.Ok? then r.value else Null);
    if v :| Becomes(x, false, v) { NormalizeIs(x, false, v); }
    hide Becomes, Normalize;
  }

  lemma {:induction false} FirstIs(vs: seq<Value>, n: nat)
    requires n <= |vs|
    ensures var r := NormalizeFirst(vs, n);
      && (r.Ok? <==> forall k | 0 <= k < n :: Bindable(vs[k]))
      && (r.Ok? ==> |r.value| == n && forall k | 0 <= k < n :: Becomes(vs[k], false, r.value[k]))
      && (r.Err? ==> r.error == UnsupportedType)
  {
    if n > 0 {
      FirstIs(vs, n - 1);
      BindableIs(vs[n - 1]);
      hide Normalize, Becomes, Bindable;
    }
  }

  lemma {:induction false} ExpandIs(vs: seq<Value>, name: string)
    ensures var r := Expand(vs, name);
      && (r.Ok? <==> vs != [] && forall k | 0 <= k < |vs| :: Bindable(vs[k]))
      && (r.Ok? ==> Elementwise(vs, r.value))
      && (r.Err? ==> r.error == if vs == [] then SliceExpansion(name) else UnsupportedType)
  {
    FirstIs(vs, |vs|);
    hide Becomes, NormalizeFirst, Bindable;
  }

  /** The one value bound for a name, without slice expansion. */
  ghost predicate Holds(obj: Object, t: Option<StructType>, name: string, v: Value) {
    exists x, json, omitEmpty :: Field(obj, t, name, x, json, omitEmpty) && Stands(x, json, omitEmpty, v)
  }

  ghost predicate Stands(x: Value, json: bool, omitEmpty: bool, v: Value) {
    if omitEmpty && Zero(x) then v == Null else Becomes(x, json, v)
  }

  /** bindValue by these cases. */
  lemma {:induction false} BindValueIs(obj: Object, t: Option<StructType>, name: string, v: Value)
    ensures BindValue(obj, t, name) == Ok(v) <==> Holds(obj, t, name, v)
    ensures Missing(obj, t, name) ==> BindValue(obj, t, name) == Err(PlaceholderNotFound(name))
  {
    LookupIs(obj, t, name);
    var r := LookupNamed(obj, t, name);
    hide LookupNamed, Normalize, Field, Becomes, Zero, IsZero, Missing;
    if r.Ok? {
      ZeroIs(r.value.v);
      NormalizeIs(r.value.v, r.value.json, v);
      if Holds(obj, t, name, v) {
        var x, json, omitEmpty :| Field(obj, t, name, x, json, omitEmpty) && Stands(x, json, omitEmpty, v);
        assert r == Ok(Lookup(x, json, omitEmpty));
      }
      if BindValue(obj, t, name) == Ok(v) {
        assert Field(obj, t, name, r.value.v, r.value.json, r.value.omitEmpty);
        assert Stands(r.value.v, r.value.json, r.value.omitEmpty, v);
      }
    }
  }

  /** The index of a struct type leads past its fields. */
  ghost predicate Astray(obj: Object, t: Option<StructType>, name: string) {
    && obj.StructObj? && t.Some? && t.value.Fields? && name in t.value.index
    && (t.value.index[name] >= |obj.fields| || t.value.index[name] >= |t.value.flags|)
  }

  /** Why a name has no value. */
  ghost predicate Unheld(obj: Object, t: Option<StructType>, name: string, e: Error) {
    && (forall v :: !Holds(obj, t, name, v))
    && e == if Missing(obj, t, name) then PlaceholderNotFound(name)
            else if Astray(obj, t, name) then IndexPanic
            else UnsupportedType
  }

  lemma {:induction false} BindValueFails(obj: Object, t: Option<StructType>, name: string, e: Error)
    requires BindValue(obj, t, name) == Err(e)
    ensures Unheld(obj, t, name, e)
  {
    forall v ensures !Holds(obj, t, name, v) { BindValueIs(obj, t, name, v); }
    var r := LookupNamed(obj, t, name);
    hide Holds;
    if r.Ok? { NormalizeIs(r.value.v, r.value.json, Null); }
  }
}
