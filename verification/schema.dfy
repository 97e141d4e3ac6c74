/** The part of a stackbit.yaml schema the loader reads: models (and the
    fields inside them, which share the same shape) with the attributes the
    matcher and the annotator consult. */
module Schema {
  import opened Wrappers
  import opened Values

  /** A `match`/`exclude` attribute: one glob or a list of globs. */
  datatype GlobSpec = OneGlob(glob: string) | GlobList(globs: seq<string>)

  /** A model or a field. `kind` is the `type` attribute (`page`, `data`,
      `config`, `object`, or a field type such as `list` or `model`);
      `models` is `None` when the attribute is absent or not an array.
      `isList` and `hideContent` record the truthiness of those
      attributes. */
  datatype Model = Model(
    name: Option<string>,
    kind: Option<string>,
    file: Option<Value>,
    folder: Option<string>,
    matchGlob: Option<GlobSpec>,
    excludeGlob: Option<GlobSpec>,
    layout: Option<Value>,
    isList: bool,
    hideContent: bool,
    fields: seq<Model>,
    items: Option<Model>,
    models: Option<seq<string>>)

  /** `_.get(model, key)` for the attributes a key path can name. */
  function Attr(m: Model, key: string): (r: Option<Value>)
    ensures key == "file" ==> r == m.file
    ensures key == "layout" ==> r == m.layout
    ensures key == "name" ==> (r.Some? <==> m.name.Some?)
  {
    if key == "name" then (if m.name.Some? then Some(VStr(m.name.value)) else None)
    else if key == "type" then (if m.kind.Some? then Some(VStr(m.kind.value)) else None)
    else if key == "layout" then m.layout
    else if key == "file" then m.file
    else None
  }

  /** The key `_.keyBy` files a model under: an unnamed model goes under
      `"undefined"`. */
  function NameKey(m: Model): string {
    if m.name.Some? then m.name.value else "undefined"
  }

  /** `_.keyBy(models, 'name')`: a later model with the same name replaces
      an earlier one. */
  function KeyByName(models: seq<Model>): (r: map<string, Model>)
    ensures forall k :: k in r <==> exists i :: 0 <= i < |models| && NameKey(models[i]) == k
  {
    if |models| == 0 then map[]
    else
      var prev := KeyByName(models[..|models| - 1]);
      var last := models[|models| - 1];
      assert forall i :: 0 <= i < |models| - 1 ==> models[..|models| - 1][i] == models[i];
      prev[NameKey(last) := last]
  }

  /** The model filed under a name is the last one carrying that name. */
  lemma {:induction false} KeyByNameLast(models: seq<Model>, i: int)
    requires 0 <= i < |models|
    requires forall j :: i < j < |models| ==> NameKey(models[j]) != NameKey(models[i])
    ensures NameKey(models[i]) in KeyByName(models)
    ensures KeyByName(models)[NameKey(models[i])] == models[i]
  {
    if i < |models| - 1 {
      var init := models[..|models| - 1];
      assert init[i] == models[i];
      KeyByNameLast(init, i);
    }
  }

  /** `_.filter(models, _.matches({type: kind}))`. */
  function ModelsOfKind(models: seq<Model>, kind: string): (r: seq<Model>)
    ensures forall m :: m in r <==> m in models && m.kind == Some(kind)
  {
    if |models| == 0 then []
    else (if models[0].kind == Some(kind) then [models[0]] else []) + ModelsOfKind(models[1..], kind)
  }

  /** The filter distributes over concatenation, so the kept models keep
      their order and repetitions. */
  lemma {:induction false} ModelsOfKindAppend(a: seq<Model>, b: seq<Model>, kind: string)
    ensures ModelsOfKind(a + b, kind) == ModelsOfKind(a, kind) + ModelsOfKind(b, kind)
  {
    if |a| == 0 {
      assert a + b == b;
    } else {
      assert (a + b)[1..] == a[1..] + b;
      ModelsOfKindAppend(a[1..], b, kind);
    }
  }

  /** `models[i]` is the first model of that kind. */
  predicate FirstOfKindAt(models: seq<Model>, kind: string, i: int) {
    0 <= i < |models| && models[i].kind == Some(kind) && forall j :: 0 <= j < i ==> models[j].kind != Some(kind)
  }

  /** `_.find(models, _.matches({type: kind}))`: the first such model. */
  function FirstOfKind(models: seq<Model>, kind: string): (r: Option<Model>)
    ensures r.None? <==> forall i :: 0 <= i < |models| ==> models[i].kind != Some(kind)
    ensures r.Some? ==> r.value.kind == Some(kind) && exists i :: FirstOfKindAt(models, kind, i) && models[i] == r.value
  {
    if |models| == 0 then None
    else if models[0].kind == Some(kind) then Some(models[0])
    else
      var r := FirstOfKind(models[1..], kind);
      if r.Some? then
        var i :| FirstOfKindAt(models[1..], kind, i) && models[1..][i] == r.value;
        assert FirstOfKindAt(models, kind, i + 1);
        r
      else r
  }

  /** `_.find(fields, {name})`: the first field with that name. */
  function FindField(fields: seq<Model>, name: string): (r: Option<Model>)
    ensures r.None? <==> forall i :: 0 <= i < |fields| ==> fields[i].name != Some(name)
    ensures r.Some? ==> r.value in fields && r.value.name == Some(name)
    ensures r.Some? ==> exists i :: (0 <= i < |fields| && fields[i] == r.value &&
                                     forall j :: 0 <= j < i ==> fields[j].name != Some(name))
  {
    if |fields| == 0 then None
    else if fields[0].name == Some(name) then Some(fields[0])
    else
      var r := FindField(fields[1..], name);
      if r.Some? then
        var i :| (0 <= i < |fields[1..]| && fields[1..][i] == r.value &&
                  forall j :: 0 <= j < i ==> fields[1..][j].name != Some(name));
        assert fields[i + 1] == r.value;
        r
      else r
  }
}
