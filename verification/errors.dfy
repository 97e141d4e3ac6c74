/** The loader's error classes as one datatype, with the message and the
    `name` each class reports. An inner `error` is represented by its
    message, the only part the outer message uses. */
module ContentErrors {
  import opened Strings
  import opened Values
  import opened Paths

  datatype ContentError =
    | Custom(message: string)
    | FileNotMatchedModel(filePath: string)
    | FileMatchedMultipleModels(filePath: string, modelNames: seq<string>)
    | FileRead(filePath: string, inner: string)
    | FolderRead(folderPath: string, inner: string)
    | FileForModelNotFound(modelName: string)
    | ModelNotFound(modelName: string, fieldPath: seq<PathElem>)
    | IllegalModelField(modelName: string, modelType: string, fieldPath: seq<PathElem>)
    | ContentValidation(vtype: string, message: string, modelName: string, filePath: string,
                        value: Value, fieldPath: seq<PathElem>)

  function Quote(s: string): string {
    "'" + s + "'"
  }

  /** The `message` each error class builds in its constructor. */
  function Message(e: ContentError): (m: string)
    ensures e.ContentValidation? || e.Custom? ==> m == e.message
  {
    match e
    case Custom(msg) => msg
    case FileNotMatchedModel(p) =>
      Affixed("file " + Quote(p), " does not match any model")
    case FileMatchedMultipleModels(p, names) => MultipleModelsText(p, names)
    case FileRead(p, inner) =>
      NotLoaded("file " + Quote(p), ":  " + inner)
    case FolderRead(p, inner) =>
      NotLoaded("folder " + Quote(p), ": " + inner)
    case FileForModelNotFound(n) => "file for model " + Quote(n) + " not found"
    case ModelNotFound(n, fp) => ModelNotFoundText(n, fp)
    case IllegalModelField(n, t, fp) => IllegalModelFieldText(n, t, fp)
    case ContentValidation(_, msg, _, _, _, _) => msg
  }

  function MultipleModelsText(p: string, names: seq<string>): string {
    "file " + Quote(p) + " matches several models " + Quote(Join(names, ", "))
  }

  function ModelNotFoundText(n: string, fp: seq<PathElem>): string {
    "model " + Quote(n) + " referenced in " + Quote(JoinPath(fp, ".")) + " not found"
  }

  function IllegalModelFieldText(n: string, t: string, fp: seq<PathElem>): string {
    "field of type 'model' cannot reference model of type other than 'object', field "
    + Quote(JoinPath(fp, ".")) + " referenced model " + Quote(n) + " of type " + Quote(t)
  }

  /** `pre` followed by `suf`. */
  function Affixed(pre: string, suf: string): (m: string)
    ensures StartsWith(m, pre) && EndsWith(m, suf)
  {
    var m := pre + suf;
    assert m[..|pre|] == pre;
    assert m[|pre|..] == suf;
    m
  }

  /** `<subject> could not be loaded<tail>`. */
  function NotLoaded(subject: string, tail: string): (m: string)
    ensures StartsWith(m, subject) && EndsWith(m, tail)
  {
    Affixed(subject, Affixed(" could not be loaded", tail))
  }

  /** The not-matched message names the file and says it matches no
      model. */
  lemma NotMatchedMessage(p: string)
    ensures StartsWith(Message(FileNotMatchedModel(p)), "file " + Quote(p))
    ensures EndsWith(Message(FileNotMatchedModel(p)), " does not match any model")
  {
  }

  /** The read errors name the file or folder first and end with the
      inner error's message (after two spaces for a file, one for a
      folder). */
  lemma ReadErrorMessages(e: ContentError)
    requires e.FileRead? || e.FolderRead?
    ensures e.FileRead? ==>
      StartsWith(Message(e), "file " + Quote(e.filePath)) && EndsWith(Message(e), ":  " + e.inner)
    ensures e.FolderRead? ==>
      StartsWith(Message(e), "folder " + Quote(e.folderPath)) && EndsWith(Message(e), ": " + e.inner)
  {
  }

  /** The `name` property: only `ContentValidationError` sets its own; every
      other class inherits `Error`'s. */
  function Name(e: ContentError): (n: string)
    ensures n == "ContentValidationError" <==> e.ContentValidation?
  {
    if e.ContentValidation? then "ContentValidationError" else "Error"
  }

  /** The not-matched message identifies the file: two different paths never
      produce the same message. */
  lemma NotMatchedMessageInjective(p: string, q: string)
    requires Message(FileNotMatchedModel(p)) == Message(FileNotMatchedModel(q))
    ensures p == q
  {
    var mp := Message(FileNotMatchedModel(p));
    var mq := Message(FileNotMatchedModel(q));
    assert |p| == |q|;
    assert mp[6..6 + |p|] == p;
    assert mq[6..6 + |q|] == q;
  }

  /** The several-models message names every matched model. */
  lemma MultipleModelsMessageNamesAll(p: string, names: seq<string>, i: int)
    requires 0 <= i < |names|
    ensures Contains(Message(FileMatchedMultipleModels(p, names)), names[i])
  {
    var joined := Join(names, ", ");
    JoinContainsPart(names, ", ", i);
    QuoteContains(joined, names[i]);
    ContainsRight("file " + Quote(p) + " matches several models ", Quote(joined), names[i]);
  }

  /** The model-not-found message quotes the dot-joined field path. */
  lemma ModelNotFoundMessageEmbedsPath(n: string, fp: seq<PathElem>)
    ensures Contains(Message(ModelNotFound(n, fp)), JoinPath(fp, "."))
  {
    var jp := JoinPath(fp, ".");
    assert OccursAt(jp, jp, 0);
    QuoteContains(jp, jp);
    var a := "model " + Quote(n) + " referenced in ";
    ContainsRight(a, Quote(jp), jp);
    ContainsLeft(a + Quote(jp), " not found", jp);
  }

  /** The illegal-model-field message quotes the dot-joined field path. */
  lemma IllegalModelFieldMessageEmbedsPath(n: string, t: string, fp: seq<PathElem>)
    ensures Contains(Message(IllegalModelField(n, t, fp)), JoinPath(fp, "."))
  {
    var jp := JoinPath(fp, ".");
    assert OccursAt(jp, jp, 0);
    QuoteContains(jp, jp);
    var a := "field of type 'model' cannot reference model of type other than 'object', field ";
    ContainsRight(a, Quote(jp), jp);
    var b := a + Quote(jp);
    ContainsLeft(b, " referenced model ", jp);
    ContainsLeft(b + " referenced model ", Quote(n), jp);
    ContainsLeft(b + " referenced model " + Quote(n), " of type ", jp);
    ContainsLeft(b + " referenced model " + Quote(n) + " of type ", Quote(t), jp);
  }

  lemma QuoteContains(s: string, x: string)
    requires Contains(s, x)
    ensures Contains(Quote(s), x)
  {
    ContainsRight("'", s, x);
    ContainsLeft("'" + s, "'", x);
  }

  /** Whatever occurs in `b` occurs in `a + b`. */
  lemma ContainsRight(a: string, b: string, x: string)
    requires Contains(b, x)
    ensures Contains(a + b, x)
  {
    var k: nat :| k <= |b| && OccursAt(b, x, k);
    assert (a + b)[|a| + k..|a| + k + |x|] == b[k..k + |x|];
    assert OccursAt(a + b, x, |a| + k);
  }

  /** Whatever occurs in `a` occurs in `a + b`. */
  lemma ContainsLeft(a: string, b: string, x: string)
    requires Contains(a, x)
    ensures Contains(a + b, x)
  {
    var k: nat :| k <= |a| && OccursAt(a, x, k);
    assert (a + b)[k..k + |x|] == a[k..k + |x|];
    assert OccursAt(a + b, x, k);
  }
}
