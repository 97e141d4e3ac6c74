/** `addMetadata` / `addMetadataByField` of `content-loader.ts`: the
    schema-driven walk that stamps every object reached through the schema
    with `__metadata` and collects schema and data errors, together with the
    two normalisers applied before it. */
module Annotator {
  import opened Wrappers
  import opened Strings
  import opened Values
  import opened Paths
  import opened Schema
  import opened Reducer

  /** The walk's context. `sep` is the platform path separator used by the
      POSIX conversion of `filePath`; `modelFieldPath` is `None` at the top
      of a file. */
  datatype Context = Context(
    filePath: string,
    sep: char,
    modelsByName: map<string, Model>,
    dataFieldPath: seq<PathElem>,
    modelFieldPath: Option<seq<PathElem>>)

  /** The `__metadata` object: `srcObjectId` only at the top of a file,
      `srcModelName` when the model has a name, `isList` only when true. */
  function Metadata(model: Model, ctx: Context): (r: seq<(string, Value)>)
    ensures |ctx.dataFieldPath| == 0 ==>
      Lookup(r, "srcObjectId") == Some(VStr(ConvertToPosixFilePath(ctx.filePath, ctx.sep)))
    ensures |ctx.dataFieldPath| > 0 ==> Lookup(r, "srcObjectId").None?
    ensures model.name.Some? ==> Lookup(r, "srcModelName") == Some(VStr(model.name.value))
    ensures model.name.None? ==> Lookup(r, "srcModelName").None?
    ensures model.isList ==> Lookup(r, "isList") == Some(VBool(true))
    ensures !model.isList ==> Lookup(r, "isList").None?
    ensures forall k :: k !in {"srcObjectId", "srcModelName", "isList"} ==> Lookup(r, k).None?
    ensures UniqueKeys(r)
  {
    var root := SetIf([], |ctx.dataFieldPath| == 0, "srcObjectId", VStr(ConvertToPosixFilePath(ctx.filePath, ctx.sep)));
    var named := SetIf(root, model.name.Some?, "srcModelName", VStr(model.name.GetOr("")));
    SetIf(named, model.isList, "isList", VBool(true))
  }

  /** `if (cond) obj[k] = x`. */
  function SetIf(kvs: seq<(string, Value)>, cond: bool, k: string, x: Value): (r: seq<(string, Value)>)
    requires UniqueKeys(kvs)
    ensures Lookup(r, k) == if cond then Some(x) else Lookup(kvs, k)
    ensures forall k' :: k' != k ==> Lookup(r, k') == Lookup(kvs, k')
    ensures UniqueKeys(r)
  {
    if cond then
      SetKeyUnique(kvs, k, x);
      SetKey(kvs, k, x)
    else kvs
  }

  const SchemaLocation := "location: stackbit.yaml:"

  /** `positionInSchema`. */
  function PositionInSchema(ctx: Context): (r: string)
    ensures StartsWith(r, SchemaLocation)
  {
    SchemaLocation + JoinPath(ctx.modelFieldPath.GetOr([]), ".")
  }

  function DataLocation(ctx: Context): string {
    "location: " + ctx.filePath + ":"
  }

  /** `positionInData`. */
  function PositionInData(ctx: Context): (r: string)
    ensures StartsWith(r, DataLocation(ctx))
  {
    DataLocation(ctx) + JoinPath(ctx.dataFieldPath, ".")
  }

  /** For dot-free names and indices, splitting a dot-joined field path on
      `.` gives back the text of each element. */
  lemma JoinPathSplits(p: seq<PathElem>)
    requires |p| >= 1 && forall i :: 0 <= i < |p| ==> IsPlainElem(p[i])
    ensures Split(JoinPath(p, "."), '.') == ElemStrings(p)
  {
    var parts := ElemStrings(p);
    forall i | 0 <= i < |parts|
      ensures '.' !in parts[i]
    {
      if p[i].Index? {
        var d := NatToString(p[i].index);
        assert forall k :: 0 <= k < |d| ==> IsDigit(d[k]);
      }
    }
    assert "." == ['.'];
    SplitJoin(parts, '.');
  }

  /** The schema position names the model field path: what follows the
      `location: stackbit.yaml:` prefix splits on `.` into the path's
      elements. */
  lemma PositionInSchemaPath(ctx: Context)
    requires ctx.modelFieldPath.Some? && |ctx.modelFieldPath.value| >= 1
    requires forall i :: 0 <= i < |ctx.modelFieldPath.value| ==> IsPlainElem(ctx.modelFieldPath.value[i])
    ensures StartsWith(PositionInSchema(ctx), SchemaLocation)
    ensures Split(PositionInSchema(ctx)[|SchemaLocation|..], '.') == ElemStrings(ctx.modelFieldPath.value)
  {
    var r := PositionInSchema(ctx);
    assert r[|SchemaLocation|..] == JoinPath(ctx.modelFieldPath.value, ".");
    JoinPathSplits(ctx.modelFieldPath.value);
  }

  /** The data position names the file and the data field path: what follows
      `location: <filePath>:` splits on `.` into the path's elements. */
  lemma PositionInDataPath(ctx: Context)
    requires |ctx.dataFieldPath| >= 1
    requires forall i :: 0 <= i < |ctx.dataFieldPath| ==> IsPlainElem(ctx.dataFieldPath[i])
    ensures StartsWith(PositionInData(ctx), DataLocation(ctx))
    ensures Split(PositionInData(ctx)[|DataLocation(ctx)|..], '.') == ElemStrings(ctx.dataFieldPath)
  {
    var r := PositionInData(ctx);
    assert r[|DataLocation(ctx)|..] == JoinPath(ctx.dataFieldPath, ".");
    JoinPathSplits(ctx.dataFieldPath);
  }

  const ModelsMissing := "Field of type 'model' must have a 'models' property with an array of at least one model name, "
  const ModelUnknown := "The 'models' property of a field of type 'model' must reference an existing model, "
  const TypeMissing := "The object referenced by a field of type 'model' with multiple models must specify the 'type' property, "
  const TypeUnknown := "The 'type' property of an object referenced by a field of type 'model' must reference an existing model, "

  /** The property key a primitive `type` value names, as JavaScript
      converts it; composite values name none here. */
  function PropertyKey(v: Value): Option<string> {
    match v
    case VStr(s) => Some(s)
    case VNum(n) => Some(if n < 0 then "-" + NatToString(-n) else NatToString(n))
    case VBool(b) => Some(if b then "true" else "false")
    case VNull => Some("null")
    case VUndef => Some("undefined")
    case _ => None
  }

  /** The registered model named by `v.type`, if any. */
  function TypeModel(v: Value, reg: map<string, Model>): (r: Option<string>)
    ensures r.Some? ==> r.value in reg && Has(v, "type")
  {
    match Get(v, "type")
    case None => None
    case Some(t) =>
      match PropertyKey(t)
      case None => None
      case Some(k) => if k in reg then Some(k) else None
  }

  /** The value `_.assign` stamps and the reducer then walks: an object gets
      (or updates) its `__metadata` key; an array or a string keeps only its
      items or characters, which is all the walk visits; any other value is
      boxed into an object holding just `__metadata`. */
  function Boxed(data: Value, meta: Value): (r: Value)
    ensures data.VObj? ==> r == VObj(SetKey(data.fields, "__metadata", meta))
    ensures data.VArr? || data.VStr? ==> r == data
    ensures !(data.VObj? || data.VArr? || data.VStr?) ==> r == VObj([("__metadata", meta)])
  {
    match data
    case VObj(kvs) => VObj(SetKey(kvs, "__metadata", meta))
    case VArr(_) => data
    case VStr(_) => data
    case _ => VObj([("__metadata", meta)])
  }

  /** The reducer visits nothing larger than the data, except `__metadata`
      itself. */
  lemma BoxedEntries(data: Value, meta: Value, i: int)
    requires 0 <= i < |Entries(Boxed(data, meta))|
    ensures var e := Entries(Boxed(data, meta))[i];
            e.0 == Name("__metadata") || e.0.Index? || Size(e.1) < Size(data)
  {
    var e := Entries(Boxed(data, meta))[i];
    match data
    case VObj(kvs) =>
      var b := SetKey(kvs, "__metadata", meta);
      assert e == (Name(b[i].0), b[i].1);
      if b[i] != ("__metadata", meta) {
        var j :| 0 <= j < |kvs| && kvs[j] == b[i];
        FieldSmaller(kvs, j);
      }
    case VArr(xs) =>
    case VStr(_) =>
    case _ =>
  }

  /** The `modelFieldPath` of the fields of `model`. */
  function FieldsBase(model: Model, ctx: Context): seq<PathElem> {
    ctx.modelFieldPath.GetOr([Name(model.name.GetOr(""))]) + [Name("fields")]
  }

  /** The reducer callback of `addMetadata`: `__metadata`, falsy values,
      array indexes and undeclared fields come back as they are; a declared
      field is annotated by its field model. */
  function Callback(data: Value, model: Model, ctx: Context): (f: (Value, PathElem) --> Step)
    ensures forall x, k :: (k == Name("__metadata") || k.Index? || Size(x) < Size(data)) ==> f.requires(x, k)
    ensures forall x, k :: f.requires(x, k) && (k == Name("__metadata") || k.Index? || !Truthy(x)) ==>
      f(x, k) == Step(Some(x), [])
    ensures forall x: Value, k: PathElem :: k.Name? && k != Name("__metadata") && Truthy(x) && Size(x) < Size(data) ==>
      f(x, k) == AnnotateField(x, k.name, model, FieldsBase(model, ctx), ctx)
    decreases Size(data), 0
  {
    (x: Value, k: PathElem) requires k == Name("__metadata") || k.Index? || Size(x) < Size(data) =>
      if k == Name("__metadata") || k.Index? || !Truthy(x) then Step(Some(x), [])
      else AnnotateField(x, k.name, model, FieldsBase(model, ctx), ctx)
  }

  /** `addMetadata(data, model, context)`. */
  function AddMetadata(data: Value, model: Model, ctx: Context): (r: Reduced)
    ensures data.VArr? <==> r.data.VArr?
    decreases Size(data), 1
  {
    var boxed := Boxed(data, VObj(Metadata(model, ctx)));
    var f := Callback(data, model, ctx);
    forall i | 0 <= i < |Entries(boxed)|
      ensures f.requires(Entries(boxed)[i].1, Entries(boxed)[i].0)
    {
      BoxedEntries(data, VObj(Metadata(model, ctx)), i);
    }
    DataReducerSync(boxed, f)
  }

  /** The callback a list field passes over its items: each item is
      annotated by the item model at its own index. */
  function ItemCallback(x: Value, itemModel: Model, itemCtx: Context): (f: (Value, PathElem) --> Step)
    ensures forall item, idx :: Size(item) <= Size(x) ==> f.requires(item, idx)
    ensures forall item, idx :: Size(item) <= Size(x) ==>
      var res := AddMetadataByField(item, itemModel, itemCtx.(dataFieldPath := itemCtx.dataFieldPath + [idx]));
      f(item, idx) == Step(Some(res.data), res.errors)
    decreases Size(x), 3
  {
    (item: Value, idx: PathElem) requires Size(item) <= Size(x) =>
      var res := AddMetadataByField(item, itemModel, itemCtx.(dataFieldPath := itemCtx.dataFieldPath + [idx]));
      Step(Some(res.data), res.errors)
  }

  /** The reducer's callback for a truthy field value under key `name`. */
  function AnnotateField(x: Value, name: string, model: Model, base: seq<PathElem>, ctx: Context): (r: Step)
    ensures r.data.Some?
    ensures FindField(model.fields, name).None? ==> r == Step(Some(x), [])
    decreases Size(x), 4
  {
    match FindField(model.fields, name)
    case None => Step(Some(x), [])
    case Some(field) =>
      var inner := ctx.(dataFieldPath := ctx.dataFieldPath + [Name(name)],
                        modelFieldPath := Some(base + [Name(name)]));
      if IsObjectList(field) then
        var f := ItemCallback(x, field.items.value, inner.(modelFieldPath := Some(base + [Name(name), Name("items")])));
        forall i | 0 <= i < |Entries(x)|
          ensures f.requires(Entries(x)[i].1, Entries(x)[i].0)
        {
          EntriesSmaller(x, i);
        }
        var red := DataReducerSync(x, f);
        Step(Some(red.data), red.errors)
      else
        var res := AddMetadataByField(x, field, inner);
        Step(Some(res.data), res.errors)
  }

  /** A list field whose items are objects, models or references. */
  predicate IsObjectList(field: Model) {
    field.kind == Some("list") && field.items.Some? &&
    field.items.value.kind in {Some("object"), Some("model"), Some("reference")}
  }

  /** `addMetadataByField(fieldValue, fieldModel, context)`. Only a
      `model` field reports errors of its own: any other field reports only
      what annotating its value with some model reports, and a reference to
      an object without `type` is left as it is. */
  function AddMetadataByField(v: Value, field: Model, ctx: Context): (r: Reduced)
    ensures field.kind !in {Some("object"), Some("model"), Some("reference")} ==> r == Reduced(v, [])
    ensures field.kind == Some("object") ==> r == AddMetadata(v, field, ctx)
    ensures field.kind == Some("model") && (field.models.None? || |field.models.value| == 0) ==>
      r == Reduced(v, [ModelsMissing + PositionInSchema(ctx)])
    ensures field.kind == Some("model") && field.models.Some? && |field.models.value| == 1 ==>
      var n := field.models.value[0];
      r == if n in ctx.modelsByName
           then AddMetadata(v, ctx.modelsByName[n], ctx.(modelFieldPath := Some([Name(n)])))
           else Reduced(v, [ModelUnknown + PositionInSchema(ctx)])
    ensures field.kind == Some("model") && field.models.Some? && |field.models.value| > 1 ==>
      r == if !Has(v, "type") then Reduced(v, [TypeMissing + PositionInData(ctx)])
           else if TypeModel(v, ctx.modelsByName).None? then Reduced(v, [TypeUnknown + PositionInData(ctx)])
           else var t := TypeModel(v, ctx.modelsByName).value;
                AddMetadata(v, ctx.modelsByName[t], ctx.(modelFieldPath := Some([Name(t)])))
    ensures field.kind == Some("reference") ==>
      r == if TypeModel(v, ctx.modelsByName).None? then Reduced(v, [])
           else var t := TypeModel(v, ctx.modelsByName).value;
                AddMetadata(v, ctx.modelsByName[t], ctx.(modelFieldPath := Some([Name(t)])))
    ensures field.kind == Some("reference") && !Has(v, "type") ==> r == Reduced(v, [])
    ensures field.kind != Some("model") && r.errors != [] ==> exists m, c :: r == AddMetadata(v, m, c)
    decreases Size(v), 2
  {
    if field.kind == Some("object") then AddMetadata(v, field, ctx)
    else if field.kind == Some("model") then
      if field.models.None? || |field.models.value| < 1 then
        Reduced(v, [ModelsMissing + PositionInSchema(ctx)])
      else if |field.models.value| == 1 then
        var n := field.models.value[0];
        if n !in ctx.modelsByName then Reduced(v, [ModelUnknown + PositionInSchema(ctx)])
        else AddMetadata(v, ctx.modelsByName[n], ctx.(modelFieldPath := Some([Name(n)])))
      else if !Has(v, "type") then Reduced(v, [TypeMissing + PositionInData(ctx)])
      else
        match TypeModel(v, ctx.modelsByName)
        case None => Reduced(v, [TypeUnknown + PositionInData(ctx)])
        case Some(t) => AddMetadata(v, ctx.modelsByName[t], ctx.(modelFieldPath := Some([Name(t)])))
    else if field.kind == Some("reference") then
      match TypeModel(v, ctx.modelsByName)
      case None => Reduced(v, [])
      case Some(t) => AddMetadata(v, ctx.modelsByName[t], ctx.(modelFieldPath := Some([Name(t)])))
    else Reduced(v, [])
  }

  /** Every error a model field reports leaves the value as it was: it is
      either resolved to a registered model and annotated with it, or
      returned unchanged with exactly one error. */
  lemma ModelFieldOutcome(v: Value, field: Model, ctx: Context)
    requires field.kind == Some("model")
    ensures var r := AddMetadataByField(v, field, ctx);
      (r.data == v && |r.errors| == 1) ||
      (exists n :: n in ctx.modelsByName &&
         r == AddMetadata(v, ctx.modelsByName[n], ctx.(modelFieldPath := Some([Name(n)]))))
  {
  }

  /** The walk of an object is the reducer over the object stamped with
      its `__metadata`. */
  lemma ObjectWalk(kvs: seq<(string, Value)>, model: Model, ctx: Context)
    ensures var obj := SetKey(kvs, "__metadata", VObj(Metadata(model, ctx)));
      && Callable(Entries(VObj(obj)), Callback(VObj(kvs), model, ctx))
      && AddMetadata(VObj(kvs), model, ctx) == DataReducerSync(VObj(obj), Callback(VObj(kvs), model, ctx))
  {
    var meta := VObj(Metadata(model, ctx));
    var obj := SetKey(kvs, "__metadata", meta);
    forall i | 0 <= i < |Entries(VObj(obj))|
      ensures Callback(VObj(kvs), model, ctx).requires(Entries(VObj(obj))[i].1, Entries(VObj(obj))[i].0)
    {
      BoxedEntries(VObj(kvs), meta, i);
    }
  }

  /** The walk of an object stamps it with the metadata of this model and
      position. */
  lemma MetadataStamped(kvs: seq<(string, Value)>, model: Model, ctx: Context)
    requires UniqueKeys(kvs)
    ensures AddMetadata(VObj(kvs), model, ctx).data.VObj?
    ensures Lookup(AddMetadata(VObj(kvs), model, ctx).data.fields, "__metadata") == Some(VObj(Metadata(model, ctx)))
  {
    var meta := VObj(Metadata(model, ctx));
    var obj := SetKey(kvs, "__metadata", meta);
    var f := Callback(VObj(kvs), model, ctx);
    SetKeyUnique(kvs, "__metadata", meta);
    ObjectWalk(kvs, model, ctx);
    ObjectReducerLookup(obj, f, "__metadata");
    var j :| 0 <= j < |obj| && obj[j] == ("__metadata", meta);
    assert f(meta, Name("__metadata")) == Step(Some(meta), []);
  }

  /** The walk of an object keeps exactly its keys, plus `__metadata`. */
  lemma KeysKept(kvs: seq<(string, Value)>, model: Model, ctx: Context, k: string)
    requires UniqueKeys(kvs)
    ensures AddMetadata(VObj(kvs), model, ctx).data.VObj?
    ensures Lookup(AddMetadata(VObj(kvs), model, ctx).data.fields, k).Some? <==>
      k == "__metadata" || Lookup(kvs, k).Some?
  {
    var meta := VObj(Metadata(model, ctx));
    var obj := SetKey(kvs, "__metadata", meta);
    var f := Callback(VObj(kvs), model, ctx);
    SetKeyUnique(kvs, "__metadata", meta);
    ObjectWalk(kvs, model, ctx);
    ObjectReducerLookup(obj, f, k);
    if Lookup(obj, k).Some? {
      var i :| 0 <= i < |obj| && obj[i] == (k, Lookup(obj, k).value);
      BoxedEntries(VObj(kvs), meta, i);
      assert Entries(VObj(obj))[i] == (Name(k), obj[i].1);
      assert f(obj[i].1, Name(k)).data.Some?;
    }
  }

  /** Falsy values and fields the model does not declare come back from the
      walk unchanged. */
  lemma PassThrough(kvs: seq<(string, Value)>, model: Model, ctx: Context, k: string)
    requires UniqueKeys(kvs)
    requires k != "__metadata" && Lookup(kvs, k).Some?
    requires !Truthy(Lookup(kvs, k).value) || FindField(model.fields, k).None?
    ensures AddMetadata(VObj(kvs), model, ctx).data.VObj?
    ensures Lookup(AddMetadata(VObj(kvs), model, ctx).data.fields, k) == Lookup(kvs, k)
  {
    var meta := VObj(Metadata(model, ctx));
    var obj := SetKey(kvs, "__metadata", meta);
    var f := Callback(VObj(kvs), model, ctx);
    SetKeyUnique(kvs, "__metadata", meta);
    ObjectWalk(kvs, model, ctx);
    ObjectReducerLookup(obj, f, k);
    var i :| 0 <= i < |obj| && obj[i] == (k, Lookup(obj, k).value);
    BoxedEntries(VObj(kvs), meta, i);
    assert Entries(VObj(obj))[i] == (Name(k), obj[i].1);
    assert f(obj[i].1, Name(k)) == Step(Some(obj[i].1), []);
  }

  /** List item `i` annotated by the item model at data path `..., i`. */
  function AnnotateItem(item: Value, i: nat, itemModel: Model, itemCtx: Context): Reduced {
    AddMetadataByField(item, itemModel, itemCtx.(dataFieldPath := itemCtx.dataFieldPath + [Index(i)]))
  }

  /** The errors of annotating list items one by one, item `i` at data path
      `..., i`. */
  function ItemErrors(xs: seq<Value>, itemModel: Model, itemCtx: Context): seq<string> {
    if |xs| == 0 then []
    else
      var n := |xs| - 1;
      ItemErrors(xs[..n], itemModel, itemCtx)
      + AnnotateItem(xs[n], n, itemModel, itemCtx).errors
  }

  /** The data of annotating list items one by one, item `i` at data path
      `..., i`. */
  function ItemData(xs: seq<Value>, itemModel: Model, itemCtx: Context): (r: seq<Value>)
    ensures |r| == |xs|
    ensures forall i :: 0 <= i < |xs| ==> r[i] == AnnotateItem(xs[i], i, itemModel, itemCtx).data
  {
    if |xs| == 0 then []
    else
      var n := |xs| - 1;
      ItemData(xs[..n], itemModel, itemCtx) + [AnnotateItem(xs[n], n, itemModel, itemCtx).data]
  }

  lemma {:induction false} ItemDataAll(xs: seq<Value>, itemModel: Model, itemCtx: Context, steps: seq<Step>)
    requires |steps| == |xs|
    requires forall i :: 0 <= i < |xs| ==> steps[i].data == Some(AnnotateItem(xs[i], i, itemModel, itemCtx).data)
    ensures PresentData(steps) == ItemData(xs, itemModel, itemCtx)
  {
    if |xs| > 0 {
      var n := |xs| - 1;
      ItemDataAll(xs[..n], itemModel, itemCtx, steps[..n]);
    }
  }

  lemma {:induction false} ItemErrorsAll(xs: seq<Value>, itemModel: Model, itemCtx: Context, steps: seq<Step>)
    requires |steps| == |xs|
    requires forall i :: 0 <= i < |xs| ==> steps[i].errors == AnnotateItem(xs[i], i, itemModel, itemCtx).errors
    ensures AllErrors(steps) == ItemErrors(xs, itemModel, itemCtx)
  {
    if |xs| > 0 {
      var n := |xs| - 1;
      ItemErrorsAll(xs[..n], itemModel, itemCtx, steps[..n]);
    }
  }

  /** A list field whose items are objects, models or references annotates
      an array item by item: the result is the annotated items, in order and
      spliced one level as lodash `concat` does, and its errors are the
      items' errors in order, item `i` reported at data path `..., name, i`
      and schema path `..., name, items`. */
  lemma ListFieldItems(xs: seq<Value>, name: string, model: Model, base: seq<PathElem>, ctx: Context)
    requires FindField(model.fields, name).Some? && IsObjectList(FindField(model.fields, name).value)
    ensures var itemModel := FindField(model.fields, name).value.items.value;
      var itemCtx := ctx.(dataFieldPath := ctx.dataFieldPath + [Name(name)],
                          modelFieldPath := Some(base + [Name(name), Name("items")]));
      var r := AnnotateField(VArr(xs), name, model, base, ctx);
      r.data == Some(VArr(Flatten1(ItemData(xs, itemModel, itemCtx)))) &&
      r.errors == ItemErrors(xs, itemModel, itemCtx)
  {
    var itemModel := FindField(model.fields, name).value.items.value;
    var itemCtx := ctx.(dataFieldPath := ctx.dataFieldPath + [Name(name)],
                        modelFieldPath := Some(base + [Name(name), Name("items")]));
    var f := ItemCallback(VArr(xs), itemModel, itemCtx);
    var es := Entries(VArr(xs));
    forall i | 0 <= i < |es|
      ensures Size(es[i].1) <= Size(VArr(xs))
    {
      EntriesSmaller(VArr(xs), i);
    }
    assert Callable(es, f);
    DataReducerArray(xs, f);
    var steps := Steps(es, f);
    forall i | 0 <= i < |xs|
      ensures steps[i].data == Some(AnnotateItem(xs[i], i, itemModel, itemCtx).data)
      ensures steps[i].errors == AnnotateItem(xs[i], i, itemModel, itemCtx).errors
    {
      assert es[i] == (Index(i), xs[i]);
    }
    ItemDataAll(xs, itemModel, itemCtx, steps);
    ItemErrorsAll(xs, itemModel, itemCtx, steps);
  }

  /** A primitive reached by the walk is boxed: numbers, booleans and null
      become an object holding only `__metadata`. */
  lemma PrimitiveBoxed(data: Value, model: Model, ctx: Context)
    requires data.VNum? || data.VBool? || data.VNull? || data.VUndef?
    ensures AddMetadata(data, model, ctx) == Reduced(VObj([("__metadata", VObj(Metadata(model, ctx)))]), [])
  {
    var meta := VObj(Metadata(model, ctx));
    var f := Callback(data, model, ctx);
    CallbackKeepsMetadata(data, model, ctx, meta);
    ReduceSingleObject("__metadata", meta, f);
  }

  lemma CallbackKeepsMetadata(data: Value, model: Model, ctx: Context, meta: Value)
    ensures Callback(data, model, ctx).requires(meta, Name("__metadata"))
    ensures Callback(data, model, ctx)(meta, Name("__metadata")) == Step(Some(meta), [])
  {
  }

  /** A string reached by the walk becomes an object of its characters
      keyed by index, with no errors. */
  lemma StringBoxed(s: string, model: Model, ctx: Context)
    ensures AddMetadata(VStr(s), model, ctx).errors == []
    ensures AddMetadata(VStr(s), model, ctx).data.VObj?
  {
    var f := Callback(VStr(s), model, ctx);
    var es := Entries(VStr(s));
    assert Callable(es, f);
    DataReducerClean(VStr(s), f);
  }

  /** `normalizeDataObject`: an array read for a list model is wrapped as
      `{items: data}`; everything else is left alone. */
  function NormalizeDataObject(data: Value, model: Model): (r: Value)
    ensures model.isList && data.VArr? ==> Get(r, "items") == Some(data) && |r.fields| == 1
    ensures !(model.isList && data.VArr?) ==> r == data
  {
    if model.isList && data.VArr? then VObj([("items", data)]) else data
  }

  /** The own enumerable properties `_.omit` copies from a value. */
  function OwnFields(v: Value): (r: seq<(string, Value)>)
    ensures v.VObj? ==> r == v.fields
    ensures |r| == |Entries(v)|
  {
    if v.VObj? then v.fields
    else seq(|Entries(v)|, i requires 0 <= i < |Entries(v)| => (ElemToString(Entries(v)[i].0), Entries(v)[i].1))
  }

  /** `normalizePageObject`: a page of a `hideContent` model loses its
      `markdown_content`; every other property stays. */
  function NormalizePageObject(page: Value, model: Model): (r: Value)
    ensures !model.hideContent ==> r == page
    ensures model.hideContent ==> r.VObj? && Lookup(r.fields, "markdown_content").None?
    ensures model.hideContent && page.VObj? ==>
      forall k :: k != "markdown_content" ==> Lookup(r.fields, k) == Lookup(page.fields, k)
  {
    if model.hideContent then VObj(OmitKey(OwnFields(page), "markdown_content")) else page
  }
}
