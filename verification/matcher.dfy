/** `content-loader/model-matcher.ts`: choosing the schema model that
    describes a content file. Models are split into three groups: those with
    a `file` attribute, those carrying the query's discriminator, and the
    rest, matched by folder and glob. The first group with a match wins. The
    glob library is the parameter `glob`: `glob(path, pattern)` is whether
    `path` matches `pattern`, or a `Failure` when the pattern is malformed
    and the library throws. */
module Matcher {
  import opened Wrappers
  import opened Strings
  import opened Values
  import opened Schema
  import opened ContentErrors

  type Glob = (string, string) -> Result<bool, string>

  /** `micromatch.isMatch(path, patterns)` for a list of patterns: every
      pattern is compiled first, so any malformed one throws; otherwise the
      path matches when some pattern matches it. */
  function IsMatchAny(g: Glob, path: string, patterns: seq<string>): (r: Result<bool, string>)
    ensures r.Success? <==> forall i :: 0 <= i < |patterns| ==> g(path, patterns[i]).Success?
    ensures r == Success(true) <==>
      (forall i :: 0 <= i < |patterns| ==> g(path, patterns[i]).Success?) &&
      (exists i :: 0 <= i < |patterns| && g(path, patterns[i]) == Success(true))
  {
    if |patterns| == 0 then Success(false)
    else
      match g(path, patterns[0])
      case Failure(e) => Failure(e)
      case Success(b) =>
        match IsMatchAny(g, path, patterns[1..])
        case Failure(e) => Failure(e)
        case Success(b') =>
          assert forall i :: 1 <= i < |patterns| ==> patterns[1..][i - 1] == patterns[i];
          Success(b || b')
  }

  const BraceChars: set<char> := {'{', '}'}

  /** The alternatives of one pattern: braces trimmed from the ends, split
      on `,`, empty parts dropped. */
  function Alternatives(pattern: string): (r: seq<string>)
    ensures forall i :: 0 <= i < |r| ==> r[i] != "" && ',' !in r[i]
  {
    var parts := Split(Trim(pattern, BraceChars), ',');
    SplitPartsFree(Trim(pattern, BraceChars), ',');
    assert forall x :: x in parts ==> ',' !in x;
    CompactStrings(parts)
  }

  function AlternativesOfAll(patterns: seq<string>): (r: seq<string>)
    ensures forall i :: 0 <= i < |r| ==> r[i] != "" && ',' !in r[i]
  {
    if |patterns| == 0 then []
    else AlternativesOfAll(patterns[..|patterns| - 1]) + Alternatives(patterns[|patterns| - 1])
  }

  /** `globToArray`: cast to an array, drop empty patterns, expand each into
      its alternatives. */
  function GlobToArray(spec: GlobSpec): (r: seq<string>)
    ensures forall i :: 0 <= i < |r| ==> r[i] != "" && ',' !in r[i]
  {
    var patterns := match spec
      case OneGlob(p) => [p]
      case GlobList(ps) => ps;
    AlternativesOfAll(CompactStrings(patterns))
  }

  /** `joinPathAndGlob`: every alternative prefixed by `folder/`, or left
      alone when the folder is empty. */
  function JoinPathAndGlob(folder: string, spec: GlobSpec): (r: seq<string>)
    ensures |r| == |GlobToArray(spec)|
    ensures folder == "" ==> r == GlobToArray(spec)
    ensures folder != "" ==> forall i :: 0 <= i < |r| ==> r[i] == folder + "/" + GlobToArray(spec)[i]
  {
    var parts := GlobToArray(spec);
    if folder == "" then parts
    else seq(|parts|, i requires 0 <= i < |parts| => folder + "/" + parts[i])
  }

  lemma TrimUntouched(s: string, cs: set<char>)
    requires |s| > 0 && s[0] !in cs && s[|s| - 1] !in cs
    ensures Trim(s, cs) == s
  {
  }

  lemma JoinFirstLast(parts: seq<string>, sep: string)
    requires |parts| >= 1 && forall i :: 0 <= i < |parts| ==> parts[i] != ""
    ensures |Join(parts, sep)| > 0
    ensures Join(parts, sep)[0] == parts[0][0]
    ensures Join(parts, sep)[|Join(parts, sep)| - 1] == parts[|parts| - 1][|parts[|parts| - 1]| - 1]
    decreases |parts|
  {
    if |parts| > 1 {
      JoinFirstLast(parts[1..], sep);
    }
  }

  lemma {:induction false} CompactNonEmpty(xs: seq<string>)
    requires forall i :: 0 <= i < |xs| ==> xs[i] != ""
    ensures CompactStrings(xs) == xs
  {
    if |xs| > 0 {
      CompactNonEmpty(xs[1..]);
    }
  }

  lemma TrimBraces(j: string)
    requires |j| > 0 && j[0] !in BraceChars && j[|j| - 1] !in BraceChars
    ensures Trim(j, BraceChars) == j
    ensures Trim("{" + j + "}", BraceChars) == j
  {
    TrimUntouched(j, BraceChars);
    var b := "{" + j + "}";
    assert b[1..] == j + "}";
    assert TrimStart(j + "}", BraceChars) == j + "}";
    assert (j + "}")[..|j|] == j;
    assert TrimEnd(j + "}", BraceChars) == TrimEnd(j, BraceChars);
  }

  lemma OnePatternAlternatives(p: string)
    requires p != ""
    ensures GlobToArray(OneGlob(p)) == Alternatives(p)
  {
    assert CompactStrings([p]) == [p];
    assert AlternativesOfAll([p]) == Alternatives(p);
  }

  /** A comma-separated pattern expands back into the parts it was written
      from, with or without surrounding braces. */
  lemma AlternativesRoundTrip(parts: seq<string>)
    requires |parts| >= 1
    requires forall i :: 0 <= i < |parts| ==> parts[i] != "" && ',' !in parts[i] && '{' !in parts[i] && '}' !in parts[i]
    ensures GlobToArray(OneGlob(Join(parts, ","))) == parts
    ensures GlobToArray(OneGlob("{" + Join(parts, ",") + "}")) == parts
  {
    var j := Join(parts, ",");
    JoinFirstLast(parts, ",");
    assert j[0] in parts[0];
    assert j[|j| - 1] in parts[|parts| - 1];
    TrimBraces(j);
    SplitJoin(parts, ',');
    CompactNonEmpty(parts);
    OnePatternAlternatives(j);
    OnePatternAlternatives("{" + j + "}");
  }

  /** The query: the file's path, the discriminator value read from the
      content (`VUndef` when the query carries none), and the model
      attribute it is compared with. */
  datatype Query = Query(filePath: string, objectType: Value, modelTypeKey: string)

  predicate InFileGroup(m: Model) {
    m.file.Some?
  }

  predicate InTypeGroup(q: Query, m: Model) {
    !InFileGroup(m) && Truthy(q.objectType) && Attr(m, q.modelTypeKey).Some?
  }

  predicate InGlobGroup(q: Query, m: Model) {
    !InFileGroup(m) && !InTypeGroup(q, m)
  }

  datatype Groups = Groups(byFile: seq<Model>, byType: seq<Model>, byGlob: seq<Model>)

  /** The source's `reduce`, pushing each model onto one of three lists. */
  function Partition(q: Query, models: seq<Model>): (r: Groups)
    ensures |r.byFile| + |r.byType| + |r.byGlob| == |models|
  {
    if |models| == 0 then Groups([], [], [])
    else
      var g := Partition(q, models[..|models| - 1]);
      var m := models[|models| - 1];
      if InFileGroup(m) then Groups(g.byFile + [m], g.byType, g.byGlob)
      else if InTypeGroup(q, m) then Groups(g.byFile, g.byType + [m], g.byGlob)
      else Groups(g.byFile, g.byType, g.byGlob + [m])
  }

  /** `_.filter(xs, p)`, stated independently of the partition. */
  function FilterModels(xs: seq<Model>, p: Model -> bool): (r: seq<Model>)
    ensures forall m :: m in r <==> m in xs && p(m)
    ensures |r| <= |xs|
    ensures (forall m :: m in xs ==> !p(m)) ==> r == []
  {
    if |xs| == 0 then []
    else
      var init := FilterModels(xs[..|xs| - 1], p);
      assert forall m :: m in xs <==> m in xs[..|xs| - 1] || m == xs[|xs| - 1];
      if p(xs[|xs| - 1]) then init + [xs[|xs| - 1]] else init
  }

  /** `_.filter` distributes over concatenation, so the kept models keep
      their order and repetitions; with the singleton case, which the
      contract above pins down, this determines the result. */
  lemma {:induction false} FilterModelsAppend(a: seq<Model>, b: seq<Model>, p: Model -> bool)
    ensures FilterModels(a + b, p) == FilterModels(a, p) + FilterModels(b, p)
  {
    if |b| == 0 {
      assert a + b == a;
    } else {
      var n := |b| - 1;
      assert (a + b)[..|a + b| - 1] == a + b[..n];
      assert (a + b)[|a + b| - 1] == b[n];
      FilterModelsAppend(a, b[..n], p);
    }
  }

  /** Each group is exactly the models, in order, that satisfy that group's
      test: a model with `file` always goes to the file group, one with the
      discriminator attribute (and a truthy query type) to the type group,
      every other to the glob group. */
  lemma {:induction false} PartitionIsFilter(q: Query, models: seq<Model>)
    ensures Partition(q, models).byFile == FilterModels(models, m => InFileGroup(m))
    ensures Partition(q, models).byType == FilterModels(models, m => InTypeGroup(q, m))
    ensures Partition(q, models).byGlob == FilterModels(models, m => InGlobGroup(q, m))
  {
    if |models| > 0 {
      PartitionIsFilter(q, models[..|models| - 1]);
    }
  }

  /** File tier: a model whose `file` is a string the path matches. A
      non-string `file` or a throwing pattern counts as no match. */
  predicate FileMatches(g: Glob, q: Query, m: Model) {
    m.file.Some? && m.file.value.VStr? && g(q.filePath, m.file.value.s) == Success(true)
  }

  /** Type tier: the model's attribute is strictly equal to the query type. */
  predicate TypeMatches(q: Query, m: Model) {
    Attr(m, q.modelTypeKey).Some? && StrictEq(q.objectType, Attr(m, q.modelTypeKey).value)
  }

  // The glob patterns of a glob-tier model, with the defaults `folder: ''`,
  // `match: '**/*'` (every file) and `exclude: []`.
  function MatchPatterns(m: Model): seq<string> {
    JoinPathAndGlob(m.folder.GetOr(""), m.matchGlob.GetOr(OneGlob("**/*")))
  }

  function ExcludePatterns(m: Model): seq<string> {
    JoinPathAndGlob(m.folder.GetOr(""), m.excludeGlob.GetOr(GlobList([])))
  }

  /** Glob tier: the path matches a `match` alternative and, when there are
      exclude alternatives, none of them. A malformed pattern throws. */
  function GlobMatches(g: Glob, q: Query, m: Model): (r: Result<bool, string>)
    ensures r == Success(true) <==>
      IsMatchAny(g, q.filePath, MatchPatterns(m)) == Success(true) &&
      (|ExcludePatterns(m)| == 0 || IsMatchAny(g, q.filePath, ExcludePatterns(m)) == Success(false))
  {
    var inc :- IsMatchAny(g, q.filePath, MatchPatterns(m));
    if !inc then Success(false)
    else if |ExcludePatterns(m)| == 0 then Success(true)
    else
      var exc :- IsMatchAny(g, q.filePath, ExcludePatterns(m));
      Success(!exc)
  }

  function FileTier(g: Glob, q: Query, byFile: seq<Model>): (r: seq<Model>)
    ensures forall m :: m in r <==> m in byFile && FileMatches(g, q, m)
  {
    FilterModels(byFile, m => FileMatches(g, q, m))
  }

  function TypeTier(q: Query, byType: seq<Model>): (r: seq<Model>)
    ensures forall m :: m in r <==> m in byType && TypeMatches(q, m)
  {
    FilterModels(byType, m => TypeMatches(q, m))
  }

  /** A filter whose test may throw: the first throwing element aborts
      it. */
  function FilterOrThrow(xs: seq<Model>, p: Model -> Result<bool, string>): (r: Result<seq<Model>, string>)
    ensures r.Success? ==> forall m :: m in r.value <==> m in xs && p(m) == Success(true)
    ensures r.Success? <==> forall i :: 0 <= i < |xs| ==> p(xs[i]).Success?
    ensures r.Success? ==> |r.value| <= |xs|
  {
    if |xs| == 0 then Success([])
    else
      var n := |xs| - 1;
      var prefix := xs[..n];
      assert forall i :: 0 <= i < n ==> prefix[i] == xs[i];
      assert forall m :: m in xs <==> m in prefix || m == xs[n];
      match FilterOrThrow(prefix, p)
      case Failure(e) => Failure(e)
      case Success(ms) =>
        match p(xs[n])
        case Failure(e) => Failure(e)
        case Success(b) => Success(if b then ms + [xs[n]] else ms)
  }

  /** When the whole filter succeeds, it distributes over concatenation:
      both halves succeed and the kept elements keep their order. */
  lemma {:induction false} FilterOrThrowAppend(a: seq<Model>, b: seq<Model>, p: Model -> Result<bool, string>)
    requires FilterOrThrow(a + b, p).Success?
    ensures FilterOrThrow(a, p).Success? && FilterOrThrow(b, p).Success?
    ensures FilterOrThrow(a + b, p).value == FilterOrThrow(a, p).value + FilterOrThrow(b, p).value
  {
    if |b| == 0 {
      assert a + b == a;
    } else {
      var n := |b| - 1;
      assert (a + b)[..|a + b| - 1] == a + b[..n];
      assert (a + b)[|a + b| - 1] == b[n];
      FilterOrThrowAppend(a, b[..n], p);
    }
  }

  /** `GlobMatches` for a fixed query, as one function value. */
  function GlobTest(g: Glob, q: Query): (p: Model -> Result<bool, string>)
    ensures forall m :: p(m) == GlobMatches(g, q, m)
  {
    m => GlobMatches(g, q, m)
  }

  /** The glob tier filter; the first throwing model aborts it. */
  function GlobTier(g: Glob, q: Query, byGlob: seq<Model>): (r: Result<seq<Model>, string>)
    ensures r.Success? ==> forall m :: m in r.value <==> m in byGlob && GlobMatches(g, q, m) == Success(true)
    ensures r.Success? <==> forall i :: 0 <= i < |byGlob| ==> GlobMatches(g, q, byGlob[i]).Success?
  {
    FilterOrThrow(byGlob, GlobTest(g, q))
  }

  /** `getModelsByQuery`. */
  function GetModelsByQuery(g: Glob, q: Query, models: seq<Model>): (r: Result<seq<Model>, string>)
    ensures r.Success? ==> forall m :: m in r.value ==> m in models
  {
    var groups := Partition(q, models);
    PartitionIsFilter(q, models);
    var byFile := FileTier(g, q, groups.byFile);
    if |byFile| > 0 then Success(byFile)
    else
      var byType := TypeTier(q, groups.byType);
      if |byType| > 0 then Success(byType)
      else GlobTier(g, q, groups.byGlob)
  }

  /** Precedence: a file-tier match decides, whatever the other tiers would
      say, even if a glob-tier pattern is malformed. */
  lemma FileTierWins(g: Glob, q: Query, models: seq<Model>, m: Model)
    requires m in models && FileMatches(g, q, m)
    ensures GetModelsByQuery(g, q, models).Success?
    ensures m in GetModelsByQuery(g, q, models).value
    ensures forall x :: x in GetModelsByQuery(g, q, models).value ==> FileMatches(g, q, x)
  {
    PartitionIsFilter(q, models);
  }

  /** Without a file-tier match, a discriminator match decides. */
  lemma TypeTierNext(g: Glob, q: Query, models: seq<Model>, m: Model)
    requires forall x :: x in models ==> !FileMatches(g, q, x)
    requires m in models && InTypeGroup(q, m) && TypeMatches(q, m)
    ensures GetModelsByQuery(g, q, models).Success?
    ensures m in GetModelsByQuery(g, q, models).value
    ensures forall x :: x in GetModelsByQuery(g, q, models).value ==> InTypeGroup(q, x) && TypeMatches(q, x)
  {
    PartitionIsFilter(q, models);
    var groups := Partition(q, models);
    assert FileTier(g, q, groups.byFile) == [];
  }

  /** When the glob tier decides, its models are glob-group models: a model
      carrying the discriminator that failed to match is never reconsidered
      by folder and glob. */
  lemma GlobTierLast(g: Glob, q: Query, models: seq<Model>)
    requires forall x :: x in models ==> !FileMatches(g, q, x)
    requires forall x :: x in models && InTypeGroup(q, x) ==> !TypeMatches(q, x)
    ensures GetModelsByQuery(g, q, models) == GlobTier(g, q, Partition(q, models).byGlob)
    ensures GetModelsByQuery(g, q, models).Success? ==>
      forall x :: x in GetModelsByQuery(g, q, models).value ==> InGlobGroup(q, x) && GlobMatches(g, q, x) == Success(true)
  {
    PartitionIsFilter(q, models);
    var groups := Partition(q, models);
    assert FileTier(g, q, groups.byFile) == [];
    assert TypeTier(q, groups.byType) == [];
  }

  /** A pattern without commas or outer braces is its own only
      alternative. */
  lemma SimplePattern(p: string)
    requires p != "" && p[0] !in BraceChars && p[|p| - 1] !in BraceChars && ',' !in p
    ensures GlobToArray(OneGlob(p)) == [p]
  {
    TrimUntouched(p, BraceChars);
    SplitFree(p, ',');
    assert CompactStrings([p]) == [p];
    OnePatternAlternatives(p);
  }

  // With no `folder`, `match` or `exclude`, a glob-tier model matches
  // exactly the paths the pattern `**/*` matches.
  lemma GlobDefaults(g: Glob, q: Query, m: Model)
    requires m.folder.None? && m.matchGlob.None? && m.excludeGlob.None?
    ensures MatchPatterns(m) == ["**/*"]
    ensures ExcludePatterns(m) == []
    ensures GlobMatches(g, q, m) == g(q.filePath, "**/*")
  {
    DefaultPatterns(m);
    NoExcludes(g, q, m);
    IsMatchOne(g, q.filePath, "**/*");
  }

  /** Without exclude patterns, the glob tier is the match test alone. */
  lemma NoExcludes(g: Glob, q: Query, m: Model)
    requires ExcludePatterns(m) == []
    ensures GlobMatches(g, q, m) == IsMatchAny(g, q.filePath, MatchPatterns(m))
  {
  }

  lemma DefaultPatterns(m: Model)
    requires m.folder.None? && m.matchGlob.None? && m.excludeGlob.None?
    ensures MatchPatterns(m) == ["**/*"]
    ensures ExcludePatterns(m) == []
  {
    SimplePattern("**/*");
    assert GlobToArray(GlobList([])) == [];
  }

  lemma IsMatchOne(g: Glob, path: string, p: string)
    ensures IsMatchAny(g, path, [p]) == g(path, p)
  {
    assert [p][1..] == [];
  }

  /** What `getModelByQuery` returns: the single model, or the error. */
  datatype Choice = Choice(model: Option<Model>, error: Option<ContentError>)

  function ModelNames(ms: seq<Model>): (r: seq<string>)
    ensures |r| == |ms|
    ensures forall i :: 0 <= i < |ms| ==> r[i] == ms[i].name.GetOr("")
  {
    if |ms| == 0 then [] else [ms[0].name.GetOr("")] + ModelNames(ms[1..])
  }

  /** `getModelByQuery`: no match is a not-matched error, several matches
      are a several-models error naming them in model order, one match is
      the model. A throwing glob propagates. */
  function GetModelByQuery(g: Glob, q: Query, models: seq<Model>): (r: Result<Choice, string>)
    ensures r.Success? <==> GetModelsByQuery(g, q, models).Success?
    ensures r.Success? ==> (r.value.model.Some? <==> r.value.error.None?)
    ensures r.Success? && r.value.model.Some? ==> r.value.model.value in models
    ensures r.Success? && r.value.error.Some? ==>
      (r.value.error.value.FileNotMatchedModel? || r.value.error.value.FileMatchedMultipleModels?) &&
      r.value.error.value.filePath == q.filePath
  {
    var matched :- GetModelsByQuery(g, q, models);
    if |matched| == 0 then Success(Choice(None, Some(FileNotMatchedModel(q.filePath))))
    else if |matched| > 1 then
      Success(Choice(None, Some(FileMatchedMultipleModels(q.filePath, ModelNames(matched)))))
    else Success(Choice(Some(matched[0]), None))
  }

  /** The result rule in terms of how many models matched. */
  lemma ResultRule(g: Glob, q: Query, models: seq<Model>)
    requires GetModelsByQuery(g, q, models).Success?
    ensures var ms := GetModelsByQuery(g, q, models).value;
            var r := GetModelByQuery(g, q, models).value;
            (|ms| == 0 <==> r.error == Some(FileNotMatchedModel(q.filePath))) &&
            (|ms| > 1 <==> r.error == Some(FileMatchedMultipleModels(q.filePath, ModelNames(ms)))) &&
            (|ms| == 1 ==> r.model == Some(ms[0])) && (r.model.Some? ==> |ms| == 1)
  {
  }
}
