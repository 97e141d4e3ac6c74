/** `content-loader.ts`: `loadContent` and the steps it runs (the config
    file, the data directory, the pages directory), each file parsed,
    matched to a model, normalised and annotated. The file system and the
    glob matcher are parameters; the file parser is a parameter too, so that
    the parser as written and the corrected one run through the same
    loader. */
module Loader {
  import opened Wrappers
  import opened Strings
  import opened Values
  import opened Paths
  import opened ContentErrors
  import opened Schema
  import opened Matcher
  import opened Codec
  import opened Reducer
  import opened Walker
  import opened Annotator

  /** The file system, by resolved path: what `readDirRec` finds at a
      directory (`None` when it does not exist, the message of `readdir`'s
      rejection when it cannot be listed, otherwise its tree), whether a
      path exists, and a file's text or the message of the read error. */
  datatype Io = Io(
    listDir: string -> Listing,
    pathExists: string -> bool,
    readFile: string -> Result<string, string>)

  /** Everything the loader takes from outside: the file system, the glob
      matcher, the platform path separator and the project directory. */
  datatype Env = Env(io: Io, glob: Glob, sep: char, dirPath: string)

  /** The parts of stackbit.yaml `loadContent` reads. `pageLayoutKey` is
      `None` when the key is absent and `Some(None)` when it is `null`. */
  datatype SiteSchema = SiteSchema(
    ssgName: Option<string>,
    dataDir: Option<string>,
    pagesDir: Option<string>,
    publishDir: Option<string>,
    excludePages: seq<string>,
    pageLayoutKey: Option<Option<string>>,
    models: seq<Model>)

  /** What `loadContent` resolves to. */
  datatype Loaded = Loaded(data: seq<Value>, errors: seq<string>, loadedContentDirs: seq<string>)

  /** `parseFileWithErrors`: `Failure` when it throws instead of resolving. */
  type Parser = string -> Result<Reduced, string>

  /** `path.join(dirPath, rel)`, keeping a leading `/` of `dirPath`. */
  function Resolve(dirPath: string, rel: string): string {
    if StartsWith(dirPath, "/") then "/" + PathJoin(dirPath, rel) else PathJoin(dirPath, rel)
  }

  /** The path segments `isSubFolder` compares. */
  function FolderSegments(p: string): seq<string> {
    CompactStrings(Split(Trim(p, {'/'}), '/'))
  }

  /** `isSubFolder(child, parent)`: the parent's segments are a prefix of
      the child's. */
  function IsSubFolder(child: string, parent: string): (r: bool)
    ensures r <==> |FolderSegments(parent)| <= |FolderSegments(child)| &&
                   FolderSegments(child)[..|FolderSegments(parent)|] == FolderSegments(parent)
    ensures FolderSegments(parent) == [] ==> r
  {
    var c := FolderSegments(child);
    var p := FolderSegments(parent);
    (if |p| <= |c| then c[..|p|] else c) == p
  }

  /** `inferConfigFilePathFromSchema`. */
  function InferConfigFiles(ssgName: Option<string>): (r: Option<seq<string>>)
    ensures r.Some? <==> ssgName in {Some("gatsby"), Some("hugo"), Some("jekyll")}
    ensures r.Some? ==> |r.value| > 0
  {
    if ssgName == Some("gatsby") then Some(["site-metadata.json"])
    else if ssgName == Some("hugo") then Some(["config.yaml", "config.yml", "config.toml", "config.json", "theme.toml"])
    else if ssgName == Some("jekyll") then Some(["_config.yml", "_config.yaml", "_config.toml"])
    else None
  }

  /** `LOADER_EXCLUDED_FILES`. */
  const LoaderExcludedFiles: seq<string> := [
    "LICENSE.md", "README.md", "README.theme.md", "CONTRIBUTING.md", "CHANGELOG.md",
    "stackbit.yaml", "netlify.toml", "theme.toml", "package.json", "package-lock.json", "yarn-lock.json"]

  /** `_.isEmpty` of an optional string. */
  predicate Blank(s: Option<string>) {
    s.None? || s.value == ""
  }

  /** The exclusions for the pages directory whose data directory lies
      inside it. */
  function DataDirExcludes(schema: SiteSchema): (r: seq<string>)
    ensures !Blank(schema.dataDir) && IsSubFolder(schema.dataDir.value, schema.pagesDir.GetOr("")) ==>
      Trim(schema.dataDir.value, {'/'}) + "/**/*" in r
  {
    if !Blank(schema.dataDir) && IsSubFolder(schema.dataDir.value, schema.pagesDir.GetOr(""))
    then [Trim(schema.dataDir.value, {'/'}) + "/**/*"]
    else []
  }

  /** The exclusions for a pages directory that is the project root. */
  function RootPagesExcludes(schema: SiteSchema, configFiles: Option<seq<string>>): (r: seq<string>)
    ensures schema.pagesDir == Some("") ==> "node_modules/**/*" in r
    ensures schema.pagesDir == Some("") && configFiles.Some? ==> forall x :: x in configFiles.value ==> x in r
    ensures schema.pagesDir == Some("") && !Blank(schema.publishDir) ==>
      Trim(schema.publishDir.value, {'/'}) + "/**/*" in r
    ensures schema.pagesDir != Some("") ==> r == []
  {
    if schema.pagesDir == Some("") then
      ["node_modules/**/*"]
      + (if configFiles.Some? then configFiles.value else [])
      + (if Blank(schema.publishDir) then [] else [Trim(schema.publishDir.value, {'/'}) + "/**/*"])
    else []
  }

  /** The `excludePages` list `loadContent` builds: the schema's own
      exclusions, then the fixed list, then the data directory when it lies
      inside the pages directory, then, for pages at the project root,
      `node_modules`, the config files and the publish directory. */
  function PageExcludes(schema: SiteSchema, configFiles: Option<seq<string>>): (r: seq<string>)
    ensures |r| >= |schema.excludePages| + |LoaderExcludedFiles|
    ensures r[..|schema.excludePages|] == schema.excludePages
    ensures r[|schema.excludePages|..|schema.excludePages| + |LoaderExcludedFiles|] == LoaderExcludedFiles
    ensures forall x :: x in LoaderExcludedFiles ==> x in r
    ensures !Blank(schema.dataDir) && IsSubFolder(schema.dataDir.value, schema.pagesDir.GetOr("")) ==>
      Trim(schema.dataDir.value, {'/'}) + "/**/*" in r
    ensures schema.pagesDir == Some("") ==> "node_modules/**/*" in r
    ensures schema.pagesDir == Some("") && configFiles.Some? ==> forall x :: x in configFiles.value ==> x in r
    ensures schema.pagesDir == Some("") && !Blank(schema.publishDir) ==>
      Trim(schema.publishDir.value, {'/'}) + "/**/*" in r
    ensures schema.pagesDir != Some("") ==>
      |r| == |schema.excludePages| + |LoaderExcludedFiles| + |DataDirExcludes(schema)|
  {
    var r := schema.excludePages + LoaderExcludedFiles + DataDirExcludes(schema) + RootPagesExcludes(schema, configFiles);
    FourParts(schema.excludePages, LoaderExcludedFiles, DataDirExcludes(schema), RootPagesExcludes(schema, configFiles));
    r
  }

  lemma FourParts<T>(a: seq<T>, b: seq<T>, d: seq<T>, e: seq<T>)
    ensures (a + b + d + e)[..|a|] == a
    ensures (a + b + d + e)[|a|..|a| + |b|] == b
    ensures forall x :: x in b || x in d || x in e ==> x in a + b + d + e
  {
    assert a + b + d + e == a + (b + d + e);
    assert (a + b + d + e)[|a|..] == b + d + e;
  }

  /** `getFirstExistingFile`: the first name whose resolved path exists. */
  function FirstExisting(env: Env, names: seq<string>): (r: Option<string>)
    ensures r.Some? ==> r.value in names && env.io.pathExists(Resolve(env.dirPath, r.value))
    ensures r.None? <==> forall i :: 0 <= i < |names| ==> !env.io.pathExists(Resolve(env.dirPath, names[i]))
  {
    if |names| == 0 then None
    else if env.io.pathExists(Resolve(env.dirPath, names[0])) then Some(names[0])
    else
      var r := FirstExisting(env, names[1..]);
      assert forall i :: 1 <= i < |names| ==> names[1..][i - 1] == names[i];
      r
  }

  /** The message `parseFileWithErrors` reports for a file it cannot load. */
  function LoadErrorMessage(filePath: string, inner: string): (m: string)
    ensures StartsWith(m, "error loading file, file: " + filePath + ", error: ")
  {
    "error loading file, file: " + filePath + ", error: " + inner
  }

  /** `_.assign(frontmatter, {markdown_content})`. `_.assign` boxes its
      target: an object gains `markdown_content`, and so does the empty
      object `null` (no front matter), a number or a boolean boxes to. An
      array or a string gains it too, but every later walk over an
      array-like visits its indexes only, so the property is never seen
      again: the value stands for itself. */
  function AssignMarkdown(frontmatter: Value, markdown: string): (r: Value)
    ensures !frontmatter.VArr? && !frontmatter.VStr? ==>
      r.VObj? && Lookup(r.fields, "markdown_content") == Some(VStr(markdown))
    ensures frontmatter.VObj? ==>
      forall k :: k != "markdown_content" ==> Lookup(r.fields, k) == Lookup(frontmatter.fields, k)
    ensures !frontmatter.VObj? && !frontmatter.VArr? && !frontmatter.VStr? ==>
      r == VObj([("markdown_content", VStr(markdown))])
    ensures frontmatter.VArr? || frontmatter.VStr? ==>
      && Entries(r) == Entries(frontmatter) && !Has(r, "markdown_content")
      && forall i :: 0 <= i < |Entries(r)| ==> Entries(r)[i].0.Index?
  {
    if frontmatter.VArr? || frontmatter.VStr? then frontmatter
    else VObj(SetKey(OwnFields(frontmatter), "markdown_content", VStr(markdown)))
  }

  function IsMarkdownPath(filePath: string): bool {
    Extension(filePath) in {"md", "markdown", "mdx"}
  }

  /** `parseFileWithErrors` as its author evidently intended: read and parse
      the file; a markdown document is flattened to its front matter plus
      `markdown_content`; any failure becomes one error and `null` data. */
  function ParseFileWithErrors(io: Io, c: Codecs, filePath: string): (r: Reduced)
    ensures r.errors == [] || (r.data == VNull && |r.errors| == 1 &&
                               StartsWith(r.errors[0], "error loading file, file: " + filePath + ", error: "))
    ensures io.readFile(filePath).Failure? ==>
      r == Reduced(VNull, [LoadErrorMessage(filePath, io.readFile(filePath).error)])
    ensures io.readFile(filePath).Success? && ParseDataByFilePath(c, io.readFile(filePath).value, filePath).Failure? ==>
      r == Reduced(VNull, [LoadErrorMessage(filePath, ParseDataByFilePath(c, io.readFile(filePath).value, filePath).error)])
    ensures io.readFile(filePath).Success? && ParseDataByFilePath(c, io.readFile(filePath).value, filePath).Success? ==>
      r.errors == []
  {
    match io.readFile(filePath)
    case Failure(e) => Reduced(VNull, [LoadErrorMessage(filePath, e)])
    case Success(text) =>
      match ParseDataByFilePath(c, text, filePath)
      case Failure(e) => Reduced(VNull, [LoadErrorMessage(filePath, e)])
      case Success(data) =>
        if IsMarkdownPath(filePath) && Has(data, "frontmatter") && Has(data, "markdown")
        then Reduced(AssignMarkdown(Get(data, "frontmatter").value, MarkdownField(c, data)), [])
        else Reduced(data, [])
  }

  /** A markdown page with object front matter parses to its front matter
      fields plus `markdown_content`. */
  lemma MarkdownFlattened(io: Io, c: Codecs, filePath: string, fm: seq<(string, Value)>, body: string)
    requires IsMarkdownPath(filePath) && io.readFile(filePath).Success?
    requires ParseMarkdownWithFrontMatter(c, io.readFile(filePath).value) == Success(MarkdownDoc(VObj(fm), body))
    ensures var r := ParseFileWithErrors(io, c, filePath);
      && r.errors == [] && r.data.VObj?
      && Lookup(r.data.fields, "markdown_content") == Some(VStr(body))
      && forall k :: k != "markdown_content" ==> Lookup(r.data.fields, k) == Lookup(fm, k)
  {
    var doc := MarkdownDoc(VObj(fm), body);
    var data := MarkdownDocValue(doc);
    MarkdownDispatch(c, io.readFile(filePath).value, filePath);
    MarkdownDocFields(c, VObj(fm), body);
    assert ParseFileWithErrors(io, c, filePath) == Reduced(AssignMarkdown(VObj(fm), body), []);
  }

  /** A markdown page whose front matter is a string parses to that
      string alone: the body is lost, and the walk later sees one entry
      per character. */
  lemma MarkdownStringFrontMatter(io: Io, c: Codecs, filePath: string, s: string, body: string)
    requires IsMarkdownPath(filePath) && io.readFile(filePath).Success?
    requires ParseMarkdownWithFrontMatter(c, io.readFile(filePath).value) == Success(MarkdownDoc(VStr(s), body))
    ensures ParseFileWithErrors(io, c, filePath) == Reduced(VStr(s), [])
  {
    MarkdownDispatch(c, io.readFile(filePath).value, filePath);
    MarkdownDocFields(c, VStr(s), body);
  }

  lemma MarkdownDispatch(c: Codecs, s: string, filePath: string)
    requires IsMarkdownPath(filePath)
    ensures ParseMarkdownWithFrontMatter(c, s).Success? ==>
      ParseDataByFilePath(c, s, filePath) == Success(MarkdownDocValue(ParseMarkdownWithFrontMatter(c, s).value))
  {
    var ext := Extension(filePath);
    assert ext == "md" || ext == "markdown" || ext == "mdx";
  }

  /** The corrected parser: it never throws. */
  function CorrectParser(io: Io, c: Codecs): (p: Parser)
    ensures forall f :: p(f) == Success(ParseFileWithErrors(io, c, f))
  {
    f => Success(ParseFileWithErrors(io, c, f))
  }

  /** The message of the `ReferenceError` the parser as written throws. */
  const UtilsUndefined := "utils is not defined"

  /** `parseFileWithErrors` as written: it calls `utils.parseFile`, but the
      module binds no `utils` (it imports named helpers, and `parseFile` is
      not exported), so every call throws before anything is read. */
  function AsWrittenParser(): (p: Parser)
    ensures forall f :: p(f) == Failure(UtilsUndefined)
  {
    f => Failure(UtilsUndefined)
  }

  /** `matchObjectToModel`: the type is read from the object under
      `typeKey` (`null` when the key is absent or not given); a matcher
      error, or a glob that throws, is thrown. */
  function MatchObjectToModel(g: Glob, obj: Value, models: seq<Model>, filePath: string,
                              typeKey: Option<string>, modelTypeKey: string): (r: Result<Model, string>)
    ensures r.Success? ==> r.value in models
    ensures var q := Query(filePath, ObjectType(obj, typeKey), modelTypeKey);
      GetModelsByQuery(g, q, models).Success? ==>
        ((r.Success? <==> |GetModelsByQuery(g, q, models).value| == 1) &&
         (|GetModelsByQuery(g, q, models).value| == 0 ==> r == Failure(Message(FileNotMatchedModel(filePath)))))
    ensures var q := Query(filePath, ObjectType(obj, typeKey), modelTypeKey);
      GetModelsByQuery(g, q, models).Success? && |GetModelsByQuery(g, q, models).value| == 1 ==>
        r == Success(GetModelsByQuery(g, q, models).value[0])
    ensures var q := Query(filePath, ObjectType(obj, typeKey), modelTypeKey);
      GetModelsByQuery(g, q, models).Success? && |GetModelsByQuery(g, q, models).value| > 1 ==>
        r == Failure(Message(FileMatchedMultipleModels(filePath, ModelNames(GetModelsByQuery(g, q, models).value))))
    ensures var q := Query(filePath, ObjectType(obj, typeKey), modelTypeKey);
      GetModelsByQuery(g, q, models).Failure? ==> r == Failure(GetModelsByQuery(g, q, models).error)
  {
    var q := Query(filePath, ObjectType(obj, typeKey), modelTypeKey);
    ResultRuleWhenMatched(g, q, models);
    match GetModelByQuery(g, q, models)
    case Failure(e) => Failure(e)
    case Success(choice) =>
      if choice.error.Some? then Failure(Message(choice.error.value)) else Success(choice.model.value)
  }

  lemma ResultRuleWhenMatched(g: Glob, q: Query, models: seq<Model>)
    ensures GetModelsByQuery(g, q, models).Success? ==>
      var ms := GetModelsByQuery(g, q, models).value;
      var r := GetModelByQuery(g, q, models).value;
      (|ms| == 0 ==> r.error == Some(FileNotMatchedModel(q.filePath))) &&
      (|ms| > 1 ==> r.error == Some(FileMatchedMultipleModels(q.filePath, ModelNames(ms)))) &&
      (|ms| == 1 ==> r.model == Some(ms[0])) &&
      (r.model.Some? <==> |ms| == 1)
  {
    if GetModelsByQuery(g, q, models).Success? {
      ResultRule(g, q, models);
    }
  }

  /** `_.get(object, key)` for a string key, as lodash reads it: a key
      without `.`, or one the object holds as it is, names one property;
      any other is a path of `.`-separated keys. */
  function LodashGet(obj: Value, k: string): (r: Option<Value>)
    ensures '.' !in k || Has(obj, k) ==> r == Get(obj, k)
    ensures r.Some? && '.' !in k ==> obj.VObj?
  {
    if '.' !in k || Has(obj, k) then Get(obj, k) else GetPath(obj, Split(k, '.'))
  }

  /** A dotted key the object does not hold as such reads the nested
      property: `_.get(o, 'a.b')` is `o.a.b`. */
  lemma LodashGetDeep(obj: Value, parts: seq<string>)
    requires |parts| >= 2 && forall i :: 0 <= i < |parts| ==> '.' !in parts[i]
    requires !Has(obj, Join(parts, "."))
    ensures LodashGet(obj, Join(parts, ".")) == GetPath(obj, parts)
  {
    SplitJoin(parts, '.');
    assert Join(parts, ".") == parts[0] + "." + Join(parts[1..], ".");
    assert Join(parts, ".")[|parts[0]|] == '.';
  }

  /** `_.get(object, typeKey, null)`, or `null` when no key is given. */
  function ObjectType(obj: Value, typeKey: Option<string>): (r: Value)
    ensures typeKey.None? ==> r == VNull
    ensures typeKey.Some? ==> (r == VNull <==> LodashGet(obj, typeKey.value) in {None, Some(VNull)})
  {
    match typeKey
    case None => VNull
    case Some(k) => LodashGet(obj, k).GetOr(VNull)
  }

  /** A page `{meta: {layout: 'post'}}` read with the type key
      `meta.layout` has the type `post`; a property named `meta.layout`
      itself would take precedence. */
  lemma ObjectTypeNested()
    ensures ObjectType(VObj([("meta", VObj([("layout", VStr("post"))]))]), Some("meta.layout")) == VStr("post")
    ensures ObjectType(VObj([("meta.layout", VStr("page")), ("meta", VObj([("layout", VStr("post"))]))]),
                       Some("meta.layout")) == VStr("page")
  {
    var inner := VObj([("layout", VStr("post"))]);
    LodashGetDeep(VObj([("meta", inner)]), ["meta", "layout"]);
    assert Join(["meta", "layout"], ".") == "meta.layout";
  }

  /** How a directory's files are matched and normalised. */
  datatype DirKind = DataDir | PagesDir

  /** The key of the model a file's type is compared with: data files
      name their model, pages their layout. */
  function ModelTypeKey(kind: DirKind): string {
    if kind == DataDir then "name" else "layout"
  }

  /** The normalisation of a matched file: `normalizeDataObject` for data
      files, `normalizePageObject` for pages. */
  function Normalize(kind: DirKind, data: Value, model: Model): Value {
    if kind == DataDir then NormalizeDataObject(data, model) else NormalizePageObject(data, model)
  }

  /** The context a file's annotation starts from: its path, no data or
      schema path yet. */
  function TopContext(env: Env, filePath: string, modelsByName: map<string, Model>): Context {
    Context(filePath, env.sep, modelsByName, [], None)
  }

  /** The reducer callback of `loadData` / `loadPages` for one file. A
      parser that throws rejects the load; falsy data contributes only the
      parser's errors; a matcher error is caught and becomes one error;
      otherwise the normalised, annotated object and its errors. */
  function LoadFile(env: Env, parse: Parser, kind: DirKind, dir: string, models: seq<Model>,
                    typeKey: Option<string>, modelsByName: map<string, Model>, rel: string): (r: Result<Step, string>)
    ensures parse(Resolve(env.dirPath, PathJoin(dir, rel))).Failure? ==>
      r == Failure(parse(Resolve(env.dirPath, PathJoin(dir, rel))).error)
    ensures parse(Resolve(env.dirPath, PathJoin(dir, rel))).Success? ==> r.Success?
    ensures var res := parse(Resolve(env.dirPath, PathJoin(dir, rel)));
      res.Success? && !Truthy(res.value.data) ==> r == Success(Step(None, res.value.errors))
    ensures var res := parse(Resolve(env.dirPath, PathJoin(dir, rel)));
      res.Success? && Truthy(res.value.data) ==>
        var m := MatchObjectToModel(env.glob, res.value.data, models, rel, typeKey, ModelTypeKey(kind));
        m.Failure? ==> r == Success(Step(None, [m.error]))
    ensures var res := parse(Resolve(env.dirPath, PathJoin(dir, rel)));
      res.Success? && Truthy(res.value.data) ==>
        var m := MatchObjectToModel(env.glob, res.value.data, models, rel, typeKey, ModelTypeKey(kind));
        m.Success? ==>
          var a := AddMetadata(Normalize(kind, res.value.data, m.value), m.value, TopContext(env, PathJoin(dir, rel), modelsByName));
          r == Success(Step(Some(a.data), a.errors))
    ensures r.Success? && r.value.data.Some? ==> r.value.data.value.VObj? || r.value.data.value.VArr?
  {
    var res :- parse(Resolve(env.dirPath, PathJoin(dir, rel)));
    if !Truthy(res.data) then Success(Step(None, res.errors))
    else
      match MatchObjectToModel(env.glob, res.data, models, rel, typeKey, ModelTypeKey(kind))
      case Failure(msg) => Success(Step(None, [msg]))
      case Success(model) =>
        var data := Normalize(kind, res.data, model);
        var ctx := TopContext(env, PathJoin(dir, rel), modelsByName);
        var annotated := AddMetadata(data, model, ctx);
        AnnotatedShape(data, model, ctx);
        Success(Step(Some(annotated.data), annotated.errors))
  }

  lemma AnnotatedShape(data: Value, model: Model, ctx: Context)
    ensures AddMetadata(data, model, ctx).data.VObj? || AddMetadata(data, model, ctx).data.VArr?
  {
    var boxed := Boxed(data, VObj(Metadata(model, ctx)));
    var f := Callback(data, model, ctx);
    forall i | 0 <= i < |Entries(boxed)|
      ensures f.requires(Entries(boxed)[i].1, Entries(boxed)[i].0)
    {
      BoxedEntries(data, VObj(Metadata(model, ctx)), i);
    }
  }

  /** `dataReducer` over the sorted files, one after another: results are
      concatenated, errors appended, and the first rejection rejects the
      whole. */
  function LoadFiles(files: seq<string>, load: string -> Result<Step, string>): (r: Result<(seq<Value>, seq<string>), string>)
  {
    if |files| == 0 then Success(([], []))
    else
      var acc :- LoadFiles(files[..|files| - 1], load);
      var step :- load(files[|files| - 1]);
      Success((if step.data.Some? then ConcatValue(acc.0, step.data.value) else acc.0, acc.1 + step.errors))
  }

  /** The steps of loading `files` one by one, when none rejects. */
  function FileSteps(files: seq<string>, load: string -> Result<Step, string>): (r: seq<Step>)
    requires forall i :: 0 <= i < |files| ==> load(files[i]).Success?
    ensures |r| == |files|
    ensures forall i :: 0 <= i < |files| ==> r[i] == load(files[i]).value
  {
    seq(|files|, i requires 0 <= i < |files| => load(files[i]).value)
  }

  /** When no file rejects, the loaded data is the files' present data in
      file order, an array result spliced one level. */
  lemma {:induction false} LoadFilesData(files: seq<string>, load: string -> Result<Step, string>)
    requires forall i :: 0 <= i < |files| ==> load(files[i]).Success?
    ensures LoadFiles(files, load).Success?
    ensures LoadFiles(files, load).value.0 == Flatten1(PresentData(FileSteps(files, load)))
  {
    LoadFilesErrors(files, load);
    if |files| > 0 {
      var n := |files| - 1;
      LoadFilesData(files[..n], load);
      var steps := FileSteps(files, load);
      assert steps[..n] == FileSteps(files[..n], load);
      var pre := PresentData(steps[..n]);
      var st := steps[n];
      if st.data.Some? {
        assert PresentData(steps) == pre + [st.data.value];
        assert (pre + [st.data.value])[..|pre|] == pre;
      } else {
        assert PresentData(steps) == pre + [];
        assert pre + [] == pre;
      }
    }
  }

  /** The errors of loading `files` one by one, when none rejects. */
  function FileErrors(files: seq<string>, load: string -> Result<Step, string>): seq<string>
    requires forall i :: 0 <= i < |files| ==> load(files[i]).Success?
  {
    if |files| == 0 then []
    else FileErrors(files[..|files| - 1], load) + load(files[|files| - 1]).value.errors
  }

  /** When no file rejects, the load succeeds and its errors are every
      file's errors in file order: one bad file does not stop the others. */
  lemma {:induction false} LoadFilesErrors(files: seq<string>, load: string -> Result<Step, string>)
    requires forall i :: 0 <= i < |files| ==> load(files[i]).Success?
    ensures LoadFiles(files, load).Success?
    ensures LoadFiles(files, load).value.1 == FileErrors(files, load)
  {
    if |files| > 0 {
      LoadFilesErrors(files[..|files| - 1], load);
    }
  }

  /** The first file that rejects rejects the whole load, with its
      error. */
  lemma {:induction false} LoadFilesFirstRejection(files: seq<string>, load: string -> Result<Step, string>, i: int)
    requires 0 <= i < |files| && load(files[i]).Failure?
    requires forall j :: 0 <= j < i ==> load(files[j]).Success?
    ensures LoadFiles(files, load) == Failure(load(files[i]).error)
  {
    var n := |files| - 1;
    if i < n {
      LoadFilesFirstRejection(files[..n], load, i);
    } else {
      LoadFilesErrors(files[..n], load);
    }
  }

  /** The loader's callback for `dir`. */
  function FileLoader(env: Env, parse: Parser, kind: DirKind, dir: string, models: seq<Model>,
                      typeKey: Option<string>, modelsByName: map<string, Model>): (load: string -> Result<Step, string>)
    ensures forall rel :: load(rel) == LoadFile(env, parse, kind, dir, models, typeKey, modelsByName, rel)
  {
    rel => LoadFile(env, parse, kind, dir, models, typeKey, modelsByName, rel)
  }

  /** The files `loadData` / `loadPages` read under `dir`. */
  function DirFiles(env: Env, dir: string, excludes: seq<string>): Result<seq<string>, string> {
    ReadDir(env.io.listDir(Resolve(env.dirPath, dir)), excludes, env.glob)
  }

  /** `loadData`: no data directory loads nothing; otherwise every data
      file, without exclusions, against the `data` models, matched by
      `type` against model names. */
  function LoadData(env: Env, parse: Parser, schema: SiteSchema, modelsByName: map<string, Model>)
    : (r: Result<(seq<Value>, seq<string>), string>)
    ensures schema.dataDir.None? ==> r == Success(([], []))
  {
    match schema.dataDir
    case None => Success(([], []))
    case Some(dir) =>
      var files :- DirFiles(env, dir, []);
      LoadFiles(files, FileLoader(env, parse, DataDir, dir, ModelsOfKind(schema.models, "data"), Some("type"), modelsByName))
  }

  /** The page type key: `_.get(schema, 'pageLayoutKey', 'layout')`
      falls back to `layout` only when the key is absent; a `null` or empty
      key reads no type, so pages are matched by path and `layout` only. */
  function PageTypeKey(schema: SiteSchema): (r: Option<string>)
    ensures schema.pageLayoutKey.None? ==> r == Some("layout")
    ensures schema.pageLayoutKey == Some(None) ==> r.None?
    ensures forall k :: schema.pageLayoutKey == Some(Some(k)) ==> (r == Some(k) <==> k != "")
    ensures r.Some? ==> r.value != ""
  {
    match schema.pageLayoutKey
    case None => Some("layout")
    case Some(None) => None
    case Some(Some(k)) => if k == "" then None else Some(k)
  }

  /** `loadPages`: no pages directory loads nothing; otherwise every page
      file not excluded, against the `page` models, matched by the layout
      key against model layouts. */
  function LoadPages(env: Env, parse: Parser, schema: SiteSchema, modelsByName: map<string, Model>,
                     excludes: seq<string>): (r: Result<(seq<Value>, seq<string>), string>)
    ensures schema.pagesDir.None? ==> r == Success(([], []))
  {
    match schema.pagesDir
    case None => Success(([], []))
    case Some(dir) =>
      var files :- DirFiles(env, dir, excludes);
      LoadFiles(files, FileLoader(env, parse, PagesDir, dir, ModelsOfKind(schema.models, "page"), PageTypeKey(schema), modelsByName))
  }

  /** `loadConfigFile`: nothing without config files or when none exists;
      the parser's errors when the file holds no data; an error when the
      schema has no `config` model; otherwise the annotated config. */
  function LoadConfigFile(env: Env, parse: Parser, configFiles: Option<seq<string>>, models: seq<Model>,
                          modelsByName: map<string, Model>): (r: Result<Reduced, string>)
    ensures configFiles.None? ==> r == Success(Reduced(VNull, []))
    ensures configFiles.Some? && FirstExisting(env, configFiles.value).None? ==> r == Success(Reduced(VNull, []))
    ensures r.Success? && FirstOfKind(models, "config").None? ==> r.value.data == VNull
    ensures configFiles.Some? && FirstExisting(env, configFiles.value) == Some("") ==> r == Success(Reduced(VNull, []))
    ensures configFiles.Some? && FirstExisting(env, configFiles.value).Some? && FirstExisting(env, configFiles.value).value != "" ==>
      var name := FirstExisting(env, configFiles.value).value;
      var res := parse(Resolve(env.dirPath, name));
      && (res.Failure? ==> r == Failure(res.error))
      && (res.Success? && !Truthy(res.value.data) ==> r == Success(Reduced(VNull, res.value.errors)))
      && (res.Success? && Truthy(res.value.data) && FirstOfKind(models, "config").None? ==>
            r == Success(Reduced(VNull, ["config model not found"])))
      && (res.Success? && Truthy(res.value.data) && FirstOfKind(models, "config").Some? ==>
            r == Success(AddMetadata(res.value.data, FirstOfKind(models, "config").value, TopContext(env, name, modelsByName))))
  {
    if configFiles.None? || |configFiles.value| == 0 then Success(Reduced(VNull, []))
    else
      match FirstExisting(env, configFiles.value)
      case None => Success(Reduced(VNull, []))
      case Some(name) =>
        if name == "" then Success(Reduced(VNull, []))
        else
          var res :- parse(Resolve(env.dirPath, name));
          if !Truthy(res.data) then Success(Reduced(VNull, res.errors))
          else
            match FirstOfKind(models, "config")
            case None => Success(Reduced(VNull, ["config model not found"]))
            case Some(model) => Success(AddMetadata(res.data, model, TopContext(env, name, modelsByName)))
  }

  /** `_.compact([dataDir, pagesDir])`. */
  function ContentDirs(schema: SiteSchema): (r: seq<string>)
    ensures forall d :: d in r <==> (schema.dataDir == Some(d) || schema.pagesDir == Some(d)) && d != ""
  {
    (if Blank(schema.dataDir) then [] else [schema.dataDir.value])
    + (if Blank(schema.pagesDir) then [] else [schema.pagesDir.value])
  }

  /** `loadContent(dirPath, schema)` with a given parser: config, data and
      pages in that order; the data is the truthy values of the three
      results concatenated, the errors are the three error lists
      concatenated. */
  function LoadContentWith(env: Env, schema: SiteSchema, parse: Parser): (r: Result<Loaded, string>)
    ensures r.Success? ==> forall i :: 0 <= i < |r.value.data| ==> Truthy(r.value.data[i])
    ensures r.Success? ==> r.value.loadedContentDirs == ContentDirs(schema)
  {
    var modelsByName := KeyByName(schema.models);
    var configFiles := InferConfigFiles(schema.ssgName);
    var excludes := PageExcludes(schema, configFiles);
    var config :- LoadConfigFile(env, parse, configFiles, schema.models, modelsByName);
    var data :- LoadData(env, parse, schema, modelsByName);
    var pages :- LoadPages(env, parse, schema, modelsByName, excludes);
    Success(Loaded(Compact(ConcatValue([], config.data) + data.0 + pages.0),
                   config.errors + data.1 + pages.1,
                   ContentDirs(schema)))
  }

  /** `loadContent` with the corrected parser: it rejects only when the
      data or pages directory cannot be listed (a path that exists but
      cannot be read as a directory, an entry whose `stat` fails, or a
      malformed exclude pattern), and then with the listing's error; a
      directory that does not exist lists nothing. */
  function LoadContent(env: Env, c: Codecs, schema: SiteSchema): (r: Result<Loaded, string>)
    ensures r.Success? <==>
      && (schema.dataDir.None? || DirFiles(env, schema.dataDir.value, []).Success?)
      && (schema.pagesDir.None? ||
          DirFiles(env, schema.pagesDir.value, PageExcludes(schema, InferConfigFiles(schema.ssgName))).Success?)
    ensures schema.dataDir.Some? && DirFiles(env, schema.dataDir.value, []).Failure? ==>
      r == Failure(DirFiles(env, schema.dataDir.value, []).error)
    ensures r.Success? ==> r.value.loadedContentDirs == ContentDirs(schema)
  {
    CorrectedLoadOutcome(env, c, schema);
    LoadContentWith(env, schema, CorrectParser(env.io, c))
  }

  lemma CorrectedLoadOutcome(env: Env, c: Codecs, schema: SiteSchema)
    ensures var r := LoadContentWith(env, schema, CorrectParser(env.io, c));
      && (r.Success? <==>
          && (schema.dataDir.None? || DirFiles(env, schema.dataDir.value, []).Success?)
          && (schema.pagesDir.None? ||
              DirFiles(env, schema.pagesDir.value, PageExcludes(schema, InferConfigFiles(schema.ssgName))).Success?))
      && (schema.dataDir.Some? && DirFiles(env, schema.dataDir.value, []).Failure? ==>
          r == Failure(DirFiles(env, schema.dataDir.value, []).error))
  {
    var parse := CorrectParser(env.io, c);
    var modelsByName := KeyByName(schema.models);
    var configFiles := InferConfigFiles(schema.ssgName);
    ConfigParseResolves(env, parse, configFiles, schema.models, modelsByName);
    if schema.dataDir.Some? && DirFiles(env, schema.dataDir.value, []).Success? {
      CorrectedDirNeverRejects(env, c, DataDir, schema.dataDir.value, [], ModelsOfKind(schema.models, "data"),
                               Some("type"), modelsByName);
    }
    if schema.pagesDir.Some? && DirFiles(env, schema.pagesDir.value, PageExcludes(schema, configFiles)).Success? {
      CorrectedDirNeverRejects(env, c, PagesDir, schema.pagesDir.value, PageExcludes(schema, configFiles),
                               ModelsOfKind(schema.models, "page"), PageTypeKey(schema), modelsByName);
    }
  }

  /** A data directory that exists but cannot be listed rejects
      `loadContent` with the message of `readdir`'s rejection. */
  lemma DataDirUnreadableRejects(env: Env, c: Codecs, schema: SiteSchema, e: string)
    requires schema.dataDir.Some?
    requires env.io.listDir(Resolve(env.dirPath, schema.dataDir.value)) == Some(Failure(e))
    ensures LoadContent(env, c, schema) == Failure(e)
  {
  }

  /** An entry of the data directory whose `stat` fails rejects
      `loadContent` with that message, once the entries before it are
      walked without a rejection; no exclusion can skip it, since `stat`
      comes before the filter. */
  lemma BrokenDataEntryRejects(env: Env, c: Codecs, schema: SiteSchema, ns: seq<Node>, i: nat)
    requires schema.dataDir.Some?
    requires env.io.listDir(Resolve(env.dirPath, schema.dataDir.value)) == Some(Success(ns))
    requires i < |ns| && ns[i].Broken?
    requires forall j :: 0 <= j < i ==> WalkNode("", ns[j], LoaderFilter(env.glob, [])).Success?
    ensures LoadContent(env, c, schema) == Failure(ns[i].error)
  {
    ReadDirFirstFailure(ns, [], env.glob, i);
  }

  /** The results of the three steps, in order, make up the result. */
  lemma LoadContentAggregates(env: Env, schema: SiteSchema, parse: Parser)
    requires LoadContentWith(env, schema, parse).Success?
    ensures var modelsByName := KeyByName(schema.models);
      var configFiles := InferConfigFiles(schema.ssgName);
      var config := LoadConfigFile(env, parse, configFiles, schema.models, modelsByName);
      var data := LoadData(env, parse, schema, modelsByName);
      var pages := LoadPages(env, parse, schema, modelsByName, PageExcludes(schema, configFiles));
      && config.Success? && data.Success? && pages.Success?
      && LoadContentWith(env, schema, parse).value.errors == config.value.errors + data.value.1 + pages.value.1
      && LoadContentWith(env, schema, parse).value.data == Compact(ConcatValue([], config.value.data) + data.value.0 + pages.value.0)
  {
  }

  /** With the corrected parser and well-formed exclude patterns, loading a
      directory never rejects, and its errors are its files' errors in
      sorted file order. */
  lemma CorrectedDirNeverRejects(env: Env, c: Codecs, kind: DirKind, dir: string, excludes: seq<string>,
                                 models: seq<Model>, typeKey: Option<string>, modelsByName: map<string, Model>)
    requires DirFiles(env, dir, excludes).Success?
    ensures var files := DirFiles(env, dir, excludes).value;
      var load := FileLoader(env, CorrectParser(env.io, c), kind, dir, models, typeKey, modelsByName);
      (forall i :: 0 <= i < |files| ==> load(files[i]).Success?) &&
      LoadFiles(files, load).Success? && LoadFiles(files, load).value.1 == FileErrors(files, load)
  {
    var files := DirFiles(env, dir, excludes).value;
    var load := FileLoader(env, CorrectParser(env.io, c), kind, dir, models, typeKey, modelsByName);
    LoadFilesErrors(files, load);
  }

  /** The parser as written rejects the whole load as soon as one data file
      is listed. */
  lemma AsWrittenRejectsData(env: Env, schema: SiteSchema)
    requires schema.dataDir.Some?
    requires DirFiles(env, schema.dataDir.value, []).Success? && |DirFiles(env, schema.dataDir.value, []).value| > 0
    ensures LoadData(env, AsWrittenParser(), schema, KeyByName(schema.models)) == Failure(UtilsUndefined)
  {
    var files := DirFiles(env, schema.dataDir.value, []).value;
    var load := FileLoader(env, AsWrittenParser(), DataDir, schema.dataDir.value,
                           ModelsOfKind(schema.models, "data"), Some("type"), KeyByName(schema.models));
    LoadFilesFirstRejection(files, load, 0);
  }

  /** A config file that exists and whose parse throws makes the config
      step throw the same error. */
  lemma ConfigParseThrows(env: Env, parse: Parser, configFiles: Option<seq<string>>, models: seq<Model>,
                          modelsByName: map<string, Model>)
    requires configFiles.Some? && FirstExisting(env, configFiles.value).Some?
    requires FirstExisting(env, configFiles.value).value != ""
    requires parse(Resolve(env.dirPath, FirstExisting(env, configFiles.value).value)).Failure?
    ensures LoadConfigFile(env, parse, configFiles, models, modelsByName)
         == Failure(parse(Resolve(env.dirPath, FirstExisting(env, configFiles.value).value)).error)
  {
  }

  /** A parser that never throws never makes the config step throw. */
  lemma ConfigParseResolves(env: Env, parse: Parser, configFiles: Option<seq<string>>, models: seq<Model>,
                            modelsByName: map<string, Model>)
    requires forall f :: parse(f).Success?
    ensures LoadConfigFile(env, parse, configFiles, models, modelsByName).Success?
  {
  }

  /** A config step that throws makes `loadContent` throw the same error. */
  lemma ConfigThrowPropagates(env: Env, schema: SiteSchema, parse: Parser)
    requires LoadConfigFile(env, parse, InferConfigFiles(schema.ssgName), schema.models, KeyByName(schema.models)).Failure?
    ensures LoadContentWith(env, schema, parse)
         == Failure(LoadConfigFile(env, parse, InferConfigFiles(schema.ssgName), schema.models, KeyByName(schema.models)).error)
  {
  }

  /** The parser as written rejects `loadContent` whenever a config file
      exists, where the corrected parser resolves. */
  lemma AsWrittenRejectsConfig(env: Env, c: Codecs, schema: SiteSchema)
    requires InferConfigFiles(schema.ssgName).Some?
    requires FirstExisting(env, InferConfigFiles(schema.ssgName).value).Some?
    requires FirstExisting(env, InferConfigFiles(schema.ssgName).value).value != ""
    ensures LoadContentWith(env, schema, AsWrittenParser()) == Failure(UtilsUndefined)
    ensures LoadConfigFile(env, CorrectParser(env.io, c), InferConfigFiles(schema.ssgName), schema.models,
                           KeyByName(schema.models)).Success?
  {
    ConfigParseThrows(env, AsWrittenParser(), InferConfigFiles(schema.ssgName), schema.models, KeyByName(schema.models));
    ConfigThrowPropagates(env, schema, AsWrittenParser());
    ConfigParseResolves(env, CorrectParser(env.io, c), InferConfigFiles(schema.ssgName), schema.models,
                        KeyByName(schema.models));
  }
}
