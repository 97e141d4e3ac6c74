/** `libs/api/src/lib/api.ts`: page URLs derived from file paths under
    `content/pages`, documents read from markdown or JSON files with their
    `__metadata`, pages grouped by URL, and the site configuration. The
    workspace's files, the file listing and the parsers are parameters. */
module Api {
  import opened Wrappers
  import opened Strings
  import opened Values
  import opened Paths
  import opened Annotator

  const DataDir := "content/data"
  const PagesDir := "content/pages"
  const SiteConfigFile := "content/data/config.json"

  /** What gray-matter returns: the body, the front matter fields and the
      excerpt. */
  datatype Matter = Matter(content: string, data: seq<(string, Value)>, excerpt: string)

  /** The workspace as `api.ts` reads it: file text by relative path (a
      read error's message on failure), gray-matter and `JSON.parse`, each
      `Failure` when it throws. */
  datatype Workspace = Workspace(
    readFile: string -> Result<string, string>,
    matter: string -> Result<Matter, string>,
    jsonParse: string -> Result<Value, string>)

  /** `s.split(c)[0]`: the part before the first `c`. */
  function BeforeFirst(s: string, c: char): (r: string)
    ensures c !in r
    ensures StartsWith(s, r)
    ensures |r| < |s| ==> s[|r|] == c
    ensures c !in s ==> r == s
  {
    if |s| == 0 || s[0] == c then "" else [s[0]] + BeforeFirst(s[1..], c)
  }

  /** `fileToUrl`: `undefined` (here `None`) outside `content/pages`;
      otherwise the rest of the path cut at its first `.`, with a trailing
      `/index` removed and an empty result read as `/`. */
  function FileToUrl(file: string): (r: Option<string>)
    ensures r.None? <==> !StartsWith(file, PagesDir)
    ensures r.Some? ==> '.' !in r.value
  {
    if !StartsWith(file, PagesDir) then None
    else
      var u := BeforeFirst(file[|PagesDir|..], '.');
      if EndsWith(u, "/index") then
        var cut := u[..|u| - 6];
        Some(if cut == "" then "/" else cut)
      else Some(u)
  }

  lemma {:induction false} BeforeFirstAppend(u: string, rest: string)
    requires '.' !in u
    ensures BeforeFirst(u + "." + rest, '.') == u
  {
    if |u| > 0 {
      assert (u + "." + rest)[1..] == u[1..] + "." + rest;
      BeforeFirstAppend(u[1..], rest);
    }
  }

  /** A page file's URL is its path under `content/pages` without the
      extension. */
  lemma PageUrl(u: string, ext: string)
    requires '.' !in u && !EndsWith(u, "/index")
    ensures FileToUrl(PagesDir + u + "." + ext) == Some(u)
  {
    var file := PagesDir + u + "." + ext;
    assert file[..|PagesDir|] == PagesDir;
    assert file[|PagesDir|..] == u + "." + ext;
    BeforeFirstAppend(u, ext);
  }

  /** An index page's URL is its directory's URL, `/` at the top. */
  lemma IndexPageUrl(u: string, ext: string)
    requires '.' !in u
    ensures FileToUrl(PagesDir + u + "/index." + ext) == Some(if u == "" then "/" else u)
  {
    var file := PagesDir + u + "/index." + ext;
    assert file[..|PagesDir|] == PagesDir;
    assert file[|PagesDir|..] == (u + "/index") + "." + ext;
    BeforeFirstAppend(u + "/index", ext);
    var v := u + "/index";
    assert v[|v| - 6..] == "/index";
    assert v[..|v| - 6] == u;
  }

  /** The fixture pages `content/pages/index.md` and
      `content/pages/about.md` map to `/` and `/about`. */
  lemma FixtureUrls(index: string, about: string)
    requires index == "content/pages/index.md" && about == "content/pages/about.md"
    ensures FileToUrl(index) == Some("/")
    ensures FileToUrl(about) == Some("/about")
  {
    FixtureIndexUrl(index);
    FixtureAboutUrl(about);
  }

  lemma FixtureIndexUrl(index: string)
    requires index == "content/pages/index.md"
    ensures FileToUrl(index) == Some("/")
  {
    assert index == PagesDir + "" + "/index." + "md" by {
      assert PagesDir + "" == PagesDir;
    }
    IndexPageUrl("", "md");
  }

  lemma FixtureAboutUrl(about: string)
    requires about == "content/pages/about.md"
    ensures FileToUrl(about) == Some("/about")
  {
    assert "/about"[1] != "/index"[1];
    assert about == PagesDir + "/about" + "." + "md" by {
      assert PagesDir + "/about" == "content/pages/about";
    }
    PageUrl("/about", "md");
  }

  /** `{...base, ...extra}` property by property: a key already present
      keeps its place and takes the new value, a new key goes last. */
  function Spread(base: seq<(string, Value)>, extra: seq<(string, Value)>): (r: seq<(string, Value)>)
    ensures forall p :: p in r ==> p in base || p in extra
    ensures forall k :: Lookup(base, k).Some? ==> Lookup(r, k).Some?
  {
    if |extra| == 0 then base
    else
      var n := |extra| - 1;
      SetKey(Spread(base, extra[..n]), extra[n].0, extra[n].1)
  }

  /** After a spread, a key holds the spread object's value when it has
      one, and the base's otherwise. */
  lemma {:induction false} SpreadLookup(base: seq<(string, Value)>, extra: seq<(string, Value)>, k: string)
    requires UniqueKeys(extra)
    ensures Lookup(Spread(base, extra), k) == if Lookup(extra, k).Some? then Lookup(extra, k) else Lookup(base, k)
  {
    if |extra| > 0 {
      var n := |extra| - 1;
      var init := extra[..n];
      assert UniqueKeys(init);
      SpreadLookup(base, init, k);
      if extra[n].0 == k {
        LookupUnique(extra, n);
        assert forall i :: 0 <= i < |init| ==> init[i].0 != k;
      } else {
        assert forall i :: 0 <= i < |init| ==> init[i] == extra[i];
        assert Lookup(extra, k).None? <==> Lookup(init, k).None?;
        if Lookup(extra, k).Some? {
          var i :| 0 <= i < |extra| && extra[i] == (k, Lookup(extra, k).value);
          LookupUnique(extra, i);
          LookupUnique(init, i);
        }
      }
    }
  }

  /** The `__metadata` `readContent` puts first: the file's path and URL
      (`undefined` outside the pages directory). */
  function DocumentMetadata(relFilePath: string): (r: Value)
    ensures Get(r, "id") == Some(VStr(relFilePath))
  {
    VObj([("id", VStr(relFilePath)),
          ("url", match FileToUrl(relFilePath) case Some(u) => VStr(u) case None => VUndef)])
  }

  /** The parsed file before `__metadata` is added: markdown becomes
      `{content, ...frontmatter, excerpt}`, JSON its parsed value; any
      other extension throws. */
  function ParseContent(ws: Workspace, relFilePath: string, raw: string): (r: Result<Value, string>)
    ensures Extension(relFilePath) !in {"md", "json"} ==>
      r == Failure("Unsupported file type found at: " + relFilePath)
    ensures Extension(relFilePath) == "json" ==> r == ws.jsonParse(raw)
  {
    var ext := Extension(relFilePath);
    if ext == "md" then
      match ws.matter(raw)
      case Failure(e) => Failure(e)
      case Success(m) =>
        Success(VObj(Spread(Spread([("content", VStr(m.content))], m.data), [("excerpt", VStr(m.excerpt))])))
    else if ext == "json" then ws.jsonParse(raw)
    else Failure("Unsupported file type found at: " + relFilePath)
  }

  /** A markdown document holds the excerpt, every front matter field
      other than `excerpt`, and the body under `content` unless the front
      matter has its own `content`. */
  lemma MarkdownDocument(ws: Workspace, relFilePath: string, raw: string, k: string)
    requires Extension(relFilePath) == "md" && ws.matter(raw).Success?
    requires UniqueKeys(ws.matter(raw).value.data)
    ensures var m := ws.matter(raw).value;
      var r := ParseContent(ws, relFilePath, raw);
      && r.Success? && r.value.VObj?
      && (k == "excerpt" ==> Lookup(r.value.fields, k) == Some(VStr(m.excerpt)))
      && (k != "excerpt" && Lookup(m.data, k).Some? ==> Lookup(r.value.fields, k) == Lookup(m.data, k))
      && (k == "content" && Lookup(m.data, k).None? ==> Lookup(r.value.fields, k) == Some(VStr(m.content)))
  {
    var m := ws.matter(raw).value;
    SpreadLookup([("content", VStr(m.content))], m.data, k);
    SpreadLookup(Spread([("content", VStr(m.content))], m.data), [("excerpt", VStr(m.excerpt))], k);
  }

  /** `readContent(relFilePath)`: `__metadata` first, then the file's own
      properties spread over it. */
  function ReadContent(ws: Workspace, relFilePath: string): (r: Result<Value, string>)
    ensures ws.readFile(relFilePath).Failure? ==> r == Failure(ws.readFile(relFilePath).error)
    ensures r.Success? ==> r.value.VObj?
  {
    var raw :- ws.readFile(relFilePath);
    var parsed :- ParseContent(ws, relFilePath, raw);
    Success(VObj(Spread([("__metadata", DocumentMetadata(relFilePath))], OwnFields(parsed))))
  }

  /** A document whose file has no `__metadata` of its own carries the
      path and URL; every property of the file is kept. */
  lemma ReadContentFields(ws: Workspace, relFilePath: string, k: string)
    requires ReadContent(ws, relFilePath).Success?
    requires var parsed := ParseContent(ws, relFilePath, ws.readFile(relFilePath).value).value;
      UniqueKeys(OwnFields(parsed))
    ensures var parsed := ParseContent(ws, relFilePath, ws.readFile(relFilePath).value).value;
      var doc := ReadContent(ws, relFilePath).value;
      && (Lookup(OwnFields(parsed), k).Some? ==> Lookup(doc.fields, k) == Lookup(OwnFields(parsed), k))
      && (k == "__metadata" && Lookup(OwnFields(parsed), k).None? ==>
            Lookup(doc.fields, k) == Some(DocumentMetadata(relFilePath)))
  {
    var parsed := ParseContent(ws, relFilePath, ws.readFile(relFilePath).value).value;
    SpreadLookup([("__metadata", DocumentMetadata(relFilePath))], OwnFields(parsed), k);
  }

  /** `siteConfig()`. */
  function SiteConfig(ws: Workspace): (r: Result<Value, string>)
    ensures ws.readFile(SiteConfigFile).Failure? ==> r == Failure(ws.readFile(SiteConfigFile).error)
    ensures r.Success? ==> r.value.VObj?
  {
    ReadContent(ws, SiteConfigFile)
  }

  /** The site configuration's metadata names `content/data/config.json`
      and no URL, since it lies outside the pages directory. */
  lemma SiteConfigMetadata()
    ensures DocumentMetadata(SiteConfigFile) == VObj([("id", VStr("content/data/config.json")), ("url", VUndef)])
  {
    assert SiteConfigFile[8] != PagesDir[8];
    assert !StartsWith(SiteConfigFile, PagesDir);
  }

  /** `urlToFilePairs()` over the page files the glob lists. */
  function UrlToFilePairs(pageFiles: seq<string>): (r: seq<(Option<string>, string)>)
    ensures |r| == |pageFiles|
    ensures forall i :: 0 <= i < |r| ==> r[i] == (FileToUrl(pageFiles[i]), pageFiles[i])
  {
    seq(|pageFiles|, i requires 0 <= i < |pageFiles| => (FileToUrl(pageFiles[i]), pageFiles[i]))
  }

  /** The property key `Object.fromEntries` files a URL under: an
      undefined URL becomes the key `undefined`. */
  function UrlKey(url: Option<string>): string {
    url.GetOr("undefined")
  }

  /** The file `Object.fromEntries(urlToFilePairs())[url]` names: the last
      page file with that URL key. */
  function FileForUrl(pairs: seq<(Option<string>, string)>, url: string): (r: Option<string>)
    ensures r.None? <==> forall i :: 0 <= i < |pairs| ==> UrlKey(pairs[i].0) != url
    ensures r.Some? ==> exists i :: 0 <= i < |pairs| && UrlKey(pairs[i].0) == url && pairs[i].1 == r.value &&
                                    forall j :: i < j < |pairs| ==> UrlKey(pairs[j].0) != url
  {
    if |pairs| == 0 then None
    else
      var n := |pairs| - 1;
      if UrlKey(pairs[n].0) == url then Some(pairs[n].1)
      else
        var r := FileForUrl(pairs[..n], url);
        assert forall i :: 0 <= i < n ==> pairs[..n][i] == pairs[i];
        r
  }

  /** `urlToContent(url)`: the document of the page file with that URL; a
      URL no page has leaves nothing to read, and the call throws. */
  function UrlToContent(ws: Workspace, pageFiles: seq<string>, url: string): (r: Result<Value, string>)
    ensures FileForUrl(UrlToFilePairs(pageFiles), url).None? ==> r.Failure?
    ensures FileForUrl(UrlToFilePairs(pageFiles), url).Some? ==>
      r == ReadContent(ws, FileForUrl(UrlToFilePairs(pageFiles), url).value)
  {
    match FileForUrl(UrlToFilePairs(pageFiles), url)
    case None => Failure("no page file for url " + url)
    case Some(file) => ReadContent(ws, file)
  }

  /** The page's `type` property is the requested type. */
  predicate HasType(content: Value, contentType: string) {
    Get(content, "type") == Some(VStr(contentType))
  }

  /** One page file's contribution: its URL and document when the URL is
      non-empty and the type matches, nothing otherwise. An empty file
      name is skipped unread; a failed read throws. */
  function PageEntry(ws: Workspace, file: string, contentType: string): (r: Result<Option<(string, Value)>, string>)
    ensures r.Failure? <==> file != "" && ReadContent(ws, file).Failure?
    ensures r.Success? && r.value.Some? <==>
      && file != "" && ReadContent(ws, file).Success? && FileToUrl(file).Some? && FileToUrl(file).value != ""
      && HasType(ReadContent(ws, file).value, contentType)
    ensures r.Success? && r.value.Some? ==> r.value.value == (FileToUrl(file).value, ReadContent(ws, file).value)
  {
    if file == "" then Success(None)
    else
      var content :- ReadContent(ws, file);
      var url := FileToUrl(file);
      if url.Some? && url.value != "" && HasType(content, contentType)
      then Success(Some((url.value, content)))
      else Success(None)
  }

  /** `f` applied to each element in order; the first failure is the
      result. */
  function MapAll<X>(f: string -> Result<X, string>, xs: seq<string>): (r: Result<seq<X>, string>)
    ensures r.Success? <==> (forall i :: 0 <= i < |xs| ==> f(xs[i]).Success?)
    ensures r.Success? ==> (|r.value| == |xs| && forall i :: 0 <= i < |xs| ==> r.value[i] == f(xs[i]).value)
  {
    if |xs| == 0 then Success([])
    else
      var n := |xs| - 1;
      assert forall i :: 0 <= i < n ==> xs[..n][i] == xs[i];
      var acc :- MapAll(f, xs[..n]);
      var e :- f(xs[n]);
      Success(acc + [e])
  }

  /** `PageEntry` for a fixed workspace and type, as one function value. */
  function EntryOf(ws: Workspace, contentType: string): string -> Result<Option<(string, Value)>, string> {
    file => PageEntry(ws, file, contentType)
  }

  /** The result object built from the entries: each kept page is
      assigned under its URL, a later one replacing an earlier one. */
  function Collect(entries: seq<Option<(string, Value)>>): (r: seq<(string, Value)>)
    ensures forall p :: p in r ==> Some(p) in entries
  {
    if |entries| == 0 then []
    else
      var n := |entries| - 1;
      var acc := Collect(entries[..n]);
      assert forall e :: e in entries[..n] ==> e in entries;
      match entries[n]
      case Some((url, content)) => SetKey(acc, url, content)
      case None => acc
  }

  /** The entry kept under `url`. */
  predicate KeptAt(e: Option<(string, Value)>, url: string) {
    e.Some? && e.value.0 == url
  }

  /** The reference reading of the result at `url`: the last entry kept
      under that URL. */
  function LastKept(entries: seq<Option<(string, Value)>>, url: string): (r: Option<Value>)
    ensures r.None? <==> forall i :: 0 <= i < |entries| ==> !KeptAt(entries[i], url)
  {
    if |entries| == 0 then None
    else
      var n := |entries| - 1;
      assert forall i :: 0 <= i < n ==> entries[..n][i] == entries[i];
      if KeptAt(entries[n], url) then Some(entries[n].value.1)
      else LastKept(entries[..n], url)
  }

  /** A value found comes from a kept entry with no later kept entry
      under the same URL. */
  lemma {:induction false} LastKeptIsLast(entries: seq<Option<(string, Value)>>, url: string)
    requires LastKept(entries, url).Some?
    ensures exists i :: (0 <= i < |entries| && KeptAt(entries[i], url) &&
      LastKept(entries, url).value == entries[i].value.1 && (forall j :: i < j < |entries| ==> !KeptAt(entries[j], url)))
  {
    var n := |entries| - 1;
    if !KeptAt(entries[n], url) {
      var init := entries[..n];
      LastKeptIsLast(init, url);
      var i :| 0 <= i < |init| && KeptAt(init[i], url) && LastKept(init, url).value == init[i].value.1 &&
        (forall j :: i < j < |init| ==> !KeptAt(init[j], url));
      assert entries[i] == init[i];
      assert forall j :: i < j < |entries| ==> !KeptAt(entries[j], url) by {
        forall j | i < j < |entries| ensures !KeptAt(entries[j], url) {
          if j < n { assert entries[j] == init[j]; }
        }
      }
    }
  }

  lemma {:induction false} CollectLookup(entries: seq<Option<(string, Value)>>, url: string)
    ensures Lookup(Collect(entries), url) == LastKept(entries, url)
  {
    if |entries| > 0 {
      CollectLookup(entries[..|entries| - 1], url);
    }
  }

  /** `pagesBySlug(contentType)`: the pages read in order, collected by
      URL. */
  function PagesBySlug(ws: Workspace, pageFiles: seq<string>, contentType: string)
    : (r: Result<seq<(string, Value)>, string>)
    ensures r.Success? <==> forall i :: 0 <= i < |pageFiles| && pageFiles[i] != "" ==> ReadContent(ws, pageFiles[i]).Success?
  {
    var entries :- MapAll(EntryOf(ws, contentType), pageFiles);
    Success(Collect(entries))
  }

  /** A page file stored under `url`: named, with that (non-empty) URL
      and the requested type. */
  predicate StoredUnder(ws: Workspace, file: string, contentType: string, url: string) {
    && file != "" && url != "" && FileToUrl(file) == Some(url)
    && ReadContent(ws, file).Success? && HasType(ReadContent(ws, file).value, contentType)
  }

  /** When every page reads, the result holds, under each URL, the last
      entry kept for it; and it has that URL exactly when some page file
      is stored under it (non-empty name and URL, requested type). */
  lemma PagesBySlugKeys(ws: Workspace, pageFiles: seq<string>, contentType: string, url: string)
    requires forall i :: 0 <= i < |pageFiles| && pageFiles[i] != "" ==> ReadContent(ws, pageFiles[i]).Success?
    ensures var r := PagesBySlug(ws, pageFiles, contentType);
      && r.Success?
      && Lookup(r.value, url) == LastKept(MapAll(EntryOf(ws, contentType), pageFiles).value, url)
      && (Lookup(r.value, url).Some? <==> exists i :: 0 <= i < |pageFiles| && StoredUnder(ws, pageFiles[i], contentType, url))
  {
    var entries := MapAll(EntryOf(ws, contentType), pageFiles).value;
    CollectLookup(entries, url);
    forall i | 0 <= i < |pageFiles|
      ensures KeptAt(entries[i], url) <==> StoredUnder(ws, pageFiles[i], contentType, url)
    {
      assert entries[i] == PageEntry(ws, pageFiles[i], contentType).value;
    }
  }
}
