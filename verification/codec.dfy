/** The format codec of `content-loader/utils.ts`: markdown front matter
    detection (`parseMarkdownWithFrontMatter`) and the extension dispatch of
    `parseDataByFilePath` / `stringifyDataByFilePath`. The YAML, TOML and
    JSON libraries are parameters (`Codecs`); a `Failure` is the message of
    the error the library throws. */
module Codec {
  import opened Wrappers
  import opened Strings
  import opened Values
  import opened Paths

  datatype Codecs = Codecs(
    yamlLoad: string -> Result<Value, string>,
    yamlDump: Value -> Result<string, string>,
    jsonParse: string -> Result<Value, string>,
    jsonStringify: Value -> Result<string, string>,
    tomlParse: string -> Result<Value, string>,
    tomlStringify: Value -> Result<string, string>,
    /** JavaScript string conversion of a value (`'' + v`). */
    toText: Value -> string)

  /** The result of parsing a markdown file. `frontmatter` is `VNull` when
      the file has none. */
  datatype MarkdownDoc = MarkdownDoc(frontmatter: Value, markdown: string)

  function MarkdownDocValue(d: MarkdownDoc): Value {
    VObj([("frontmatter", d.frontmatter), ("markdown", VStr(d.markdown))])
  }

  /** The four front matter conventions, in the order the source tries them. */
  datatype FrontMatterKind = YamlFm | TomlFm | JsonMdFm | JsonFm

  const FrontMatterKinds: seq<FrontMatterKind> := [YamlFm, TomlFm, JsonMdFm, JsonFm]

  function StartDelimiter(k: FrontMatterKind): string {
    match k
    case YamlFm => "---\n"
    case TomlFm => "+++\n"
    case JsonMdFm => "---json\n"
    case JsonFm => "{\n"
  }

  function EndDelimiter(k: FrontMatterKind): string {
    match k
    case YamlFm => "\n---"
    case TomlFm => "\n+++"
    case JsonMdFm => "\n---"
    case JsonFm => "\n}"
  }

  function ParseFrontMatter(c: Codecs, k: FrontMatterKind, text: string): Result<Value, string> {
    match k
    case YamlFm => c.yamlLoad(text)
    case TomlFm => c.tomlParse(text)
    case JsonMdFm => c.jsonParse(text)
    case JsonFm => c.jsonParse("{" + text + "}")
  }

  /** JavaScript `s.substring(a, b)`: bounds are clamped and swapped when
      `a > b`. */
  function Substring(s: string, a: nat, b: nat): (r: string)
    ensures a <= b <= |s| ==> r == s[a..b]
  {
    var lo := if a <= b then a else b;
    var hi := if a <= b then b else a;
    var lo' := if lo <= |s| then lo else |s|;
    var hi' := if hi <= |s| then hi else |s|;
    s[lo'..hi']
  }

  /** Length of the match of `/^\s*?(\n|$)/` on `t` from index `k`, if any:
      the shortest run of whitespace followed by a newline (consumed) or by
      the end of the text. */
  function AfterDelimiterMatch(t: string, k: nat): (r: Option<nat>)
    requires k <= |t|
    ensures r.Some? ==> k <= r.value <= |t|
    ensures r.Some? ==> forall j :: k <= j < r.value ==> IsJsSpace(t[j])
    ensures r.Some? ==> r.value == |t| || (k < r.value && t[r.value - 1] == '\n')
    ensures r.Some? ==> forall j :: k <= j < r.value - 1 ==> t[j] != '\n'
    decreases |t| - k
  {
    if k == |t| then Some(k)
    else if t[k] == '\n' then Some(k + 1)
    else if IsJsSpace(t[k]) then AfterDelimiterMatch(t, k + 1)
    else None
  }

  /** `s` splits into front matter `fm` and body `body` under convention
      `k`, with the first end delimiter at `i` and `n` characters consumed
      after it: `fm` lies between the start delimiter and the first end
      delimiter, and `body` follows a whitespace run that reaches the end of
      `s` or stops at (and includes) its first newline. */
  predicate FrontMatterSplit(s: string, k: FrontMatterKind, fm: string, body: string, i: nat, n: nat) {
    var e := i + |EndDelimiter(k)|;
    && StartsWith(s, StartDelimiter(k))
    && OccursAt(s, EndDelimiter(k), i)
    && (forall j: nat :: j < i ==> !OccursAt(s, EndDelimiter(k), j))
    && fm == Substring(s, |StartDelimiter(k)|, i)
    && e + n <= |s|
    && (forall j :: e <= j < e + n ==> IsJsSpace(s[j]))
    && (forall j :: e <= j < e + n - 1 ==> s[j] != '\n')
    && (e + n == |s| || (n > 0 && s[e + n - 1] == '\n'))
    && body == s[e + n..]
  }

  /** The raw front matter text and the body that convention `k` would
      extract from `s`, if its delimiters are in place. The end delimiter is
      searched from the start of `s`, as the source does. */
  function Extract(s: string, k: FrontMatterKind): (r: Option<(string, string)>)
    ensures r.Some? ==> StartsWith(s, StartDelimiter(k)) && Contains(s, EndDelimiter(k))
    ensures r.Some? ==> exists i: nat, n: nat :: FrontMatterSplit(s, k, r.value.0, r.value.1, i, n)
    ensures r.None? && StartsWith(s, StartDelimiter(k)) && IndexOf(s, EndDelimiter(k)).Some? ==>
      AfterDelimiterMatch(s[IndexOf(s, EndDelimiter(k)).value + |EndDelimiter(k)|..], 0).None?
  {
    if !StartsWith(s, StartDelimiter(k)) then None
    else
      match IndexOf(s, EndDelimiter(k))
      case None => None
      case Some(index) =>
        var endDelimEnd := index + |EndDelimiter(k)|;
        var after := s[endDelimEnd..];
        match AfterDelimiterMatch(after, 0)
        case None => None
        case Some(len) =>
          ExtractSplits(s, k, index, len);
          Some((Substring(s, |StartDelimiter(k)|, index), after[len..]))
  }

  lemma ExtractSplits(s: string, k: FrontMatterKind, index: nat, len: nat)
    requires StartsWith(s, StartDelimiter(k))
    requires IndexOf(s, EndDelimiter(k)) == Some(index)
    requires AfterDelimiterMatch(s[index + |EndDelimiter(k)|..], 0) == Some(len)
    ensures var after := s[index + |EndDelimiter(k)|..];
      FrontMatterSplit(s, k, Substring(s, |StartDelimiter(k)|, index), after[len..], index, len)
    ensures Contains(s, EndDelimiter(k))
  {
    assert OccursAt(s, EndDelimiter(k), index);
    var e := index + |EndDelimiter(k)|;
    var after := s[e..];
    assert forall j :: e <= j < e + len ==> s[j] == after[j - e];
    assert after[len..] == s[e + len..];
  }

  /** One iteration of the source's `forEach` over the conventions: a
      convention whose delimiters match overwrites what earlier ones found. */
  function TryKind(c: Codecs, s: string, k: FrontMatterKind, acc: Result<MarkdownDoc, string>)
    : Result<MarkdownDoc, string>
  {
    if acc.Failure? then acc
    else
      match Extract(s, k)
      case None => acc
      case Some((text, body)) =>
        match ParseFrontMatter(c, k, text)
        case Failure(e) => Failure(e)
        case Success(fm) => Success(MarkdownDoc(fm, body))
  }

  function TryKinds(c: Codecs, s: string, kinds: seq<FrontMatterKind>, acc: Result<MarkdownDoc, string>)
    : Result<MarkdownDoc, string>
  {
    if |kinds| == 0 then acc else TryKinds(c, s, kinds[1..], TryKind(c, s, kinds[0], acc))
  }

  /** `string.replace('\r\n', '\n')` replaces only the first occurrence. */
  function NormalizeFirstCrlf(input: string): string {
    ReplaceFirst(input, "\r\n", "\n")
  }

  /** `parseMarkdownWithFrontMatter` as written: all four conventions are
      tried in turn and a later match would overwrite an earlier one. */
  function ParseMarkdownWithFrontMatter(c: Codecs, input: string): (r: Result<MarkdownDoc, string>)
    ensures r.Success? ==> EndsWith(NormalizeFirstCrlf(input), r.value.markdown)
    ensures (forall k :: !StartsWith(NormalizeFirstCrlf(input), StartDelimiter(k))) ==>
      r == Success(MarkdownDoc(VNull, NormalizeFirstCrlf(input)))
  {
    var s := NormalizeFirstCrlf(input);
    TryKindsSuffix(c, s, FrontMatterKinds, Success(MarkdownDoc(VNull, s)));
    NoStartKeepsAll(c, s);
    TryKinds(c, s, FrontMatterKinds, Success(MarkdownDoc(VNull, s)))
  }

  lemma NoStartKeepsAll(c: Codecs, s: string)
    ensures (forall k :: !StartsWith(s, StartDelimiter(k))) ==>
      TryKinds(c, s, FrontMatterKinds, Success(MarkdownDoc(VNull, s))) == Success(MarkdownDoc(VNull, s))
  {
    if forall k :: !StartsWith(s, StartDelimiter(k)) {
      TryKindsNoStart(c, s, FrontMatterKinds, Success(MarkdownDoc(VNull, s)));
    }
  }

  /** Whatever the conventions extract, the body is a suffix of the text. */
  lemma {:induction false} TryKindsSuffix(c: Codecs, s: string, kinds: seq<FrontMatterKind>,
                                          acc: Result<MarkdownDoc, string>)
    requires acc.Success? ==> EndsWith(s, acc.value.markdown)
    ensures TryKinds(c, s, kinds, acc).Success? ==> EndsWith(s, TryKinds(c, s, kinds, acc).value.markdown)
  {
    if |kinds| > 0 {
      var next := TryKind(c, s, kinds[0], acc);
      if next.Success? && Extract(s, kinds[0]).Some? && next != acc {
        var i: nat, n: nat :| FrontMatterSplit(s, kinds[0], Extract(s, kinds[0]).value.0, Extract(s, kinds[0]).value.1, i, n);
      }
      TryKindsSuffix(c, s, kinds[1..], next);
    }
  }

  /** The first convention whose start delimiter prefixes `s`. */
  function FirstStarting(s: string, kinds: seq<FrontMatterKind>): (r: Option<FrontMatterKind>)
    ensures r.Some? ==> r.value in kinds && StartsWith(s, StartDelimiter(r.value))
    ensures r.None? ==> forall k :: k in kinds ==> !StartsWith(s, StartDelimiter(k))
  {
    if |kinds| == 0 then None
    else if StartsWith(s, StartDelimiter(kinds[0])) then Some(kinds[0])
    else FirstStarting(s, kinds[1..])
  }

  /** The intended reading: the first convention whose start delimiter
      matches decides, and no later one is consulted. */
  function ParseMarkdownFirstMatch(c: Codecs, input: string): Result<MarkdownDoc, string> {
    var s := NormalizeFirstCrlf(input);
    match FirstStarting(s, FrontMatterKinds)
    case None => Success(MarkdownDoc(VNull, s))
    case Some(k) =>
      match Extract(s, k)
      case None => Success(MarkdownDoc(VNull, s))
      case Some((text, body)) =>
        match ParseFrontMatter(c, k, text)
        case Failure(e) => Failure(e)
        case Success(fm) => Success(MarkdownDoc(fm, body))
  }

  /** No string starts with two different start delimiters. */
  lemma StartDelimitersExclusive(s: string, k1: FrontMatterKind, k2: FrontMatterKind)
    requires k1 != k2
    ensures !(StartsWith(s, StartDelimiter(k1)) && StartsWith(s, StartDelimiter(k2)))
  {
    var a := StartDelimiter(k1);
    var b := StartDelimiter(k2);
    assert a[0] != b[0] || a[3] != b[3];
  }

  lemma {:induction false} TryKindsNoStart(c: Codecs, s: string, kinds: seq<FrontMatterKind>,
                                           acc: Result<MarkdownDoc, string>)
    requires forall k :: k in kinds ==> !StartsWith(s, StartDelimiter(k))
    ensures TryKinds(c, s, kinds, acc) == acc
  {
    if |kinds| > 0 {
      TryKindsNoStart(c, s, kinds[1..], acc);
    }
  }

  lemma {:induction false} TryKindsFirst(c: Codecs, s: string, kinds: seq<FrontMatterKind>,
                                         acc: Result<MarkdownDoc, string>)
    requires FirstStarting(s, kinds).Some?
    requires forall i, j :: 0 <= i < j < |kinds| ==> kinds[i] != kinds[j]
    requires forall k1, k2 :: k1 in kinds && k2 in kinds && k1 != k2 ==>
      !(StartsWith(s, StartDelimiter(k1)) && StartsWith(s, StartDelimiter(k2)))
    ensures TryKinds(c, s, kinds, acc) == TryKind(c, s, FirstStarting(s, kinds).value, acc)
  {
    var k := kinds[0];
    if StartsWith(s, StartDelimiter(k)) {
      forall k' | k' in kinds[1..]
        ensures !StartsWith(s, StartDelimiter(k'))
      {
        var j :| 0 <= j < |kinds[1..]| && kinds[1..][j] == k';
        assert kinds[j + 1] == k';
      }
      TryKindsNoStart(c, s, kinds[1..], TryKind(c, s, k, acc));
    } else {
      assert TryKind(c, s, k, acc) == acc;
      TryKindsFirst(c, s, kinds[1..], acc);
    }
  }

  /** The source's loop and the first-match reading agree on every input:
      at most one start delimiter can match, so nothing is ever
      overwritten. */
  lemma FrontMatterLoopIsFirstMatch(c: Codecs, input: string)
    ensures ParseMarkdownWithFrontMatter(c, input) == ParseMarkdownFirstMatch(c, input)
  {
    var s := NormalizeFirstCrlf(input);
    var acc := Success(MarkdownDoc(VNull, s));
    match FirstStarting(s, FrontMatterKinds)
    case None =>
      TryKindsNoStart(c, s, FrontMatterKinds, acc);
    case Some(k) =>
      forall k1, k2 | k1 in FrontMatterKinds && k2 in FrontMatterKinds && k1 != k2
        ensures !(StartsWith(s, StartDelimiter(k1)) && StartsWith(s, StartDelimiter(k2)))
      {
        StartDelimitersExclusive(s, k1, k2);
      }
      TryKindsFirst(c, s, FrontMatterKinds, acc);
  }

  /** When the first end delimiter is followed by something other than
      whitespace and a newline (or the end), no front matter is extracted. */
  lemma BadEndDelimiterNoFrontMatter(c: Codecs, input: string, k: FrontMatterKind)
    requires StartsWith(NormalizeFirstCrlf(input), StartDelimiter(k))
    requires IndexOf(NormalizeFirstCrlf(input), EndDelimiter(k)).Some?
    requires var s := NormalizeFirstCrlf(input);
             var i := IndexOf(s, EndDelimiter(k)).value;
             AfterDelimiterMatch(s[i + |EndDelimiter(k)|..], 0).None?
    ensures ParseMarkdownWithFrontMatter(c, input) == Success(MarkdownDoc(VNull, NormalizeFirstCrlf(input)))
  {
    FrontMatterLoopIsFirstMatch(c, input);
    var s := NormalizeFirstCrlf(input);
    FirstStartingIs(s, k);
    ExtractBadEnd(s, k);
  }

  /** A convention whose start delimiter prefixes `s` is the first one. */
  lemma FirstStartingIs(s: string, k: FrontMatterKind)
    requires StartsWith(s, StartDelimiter(k))
    ensures FirstStarting(s, FrontMatterKinds) == Some(k)
  {
    var f := FirstStarting(s, FrontMatterKinds);
    assert k in FrontMatterKinds;
    if f.Some? && f.value != k {
      StartDelimitersExclusive(s, f.value, k);
    }
  }

  lemma ExtractBadEnd(s: string, k: FrontMatterKind)
    requires IndexOf(s, EndDelimiter(k)).Some?
    requires var i := IndexOf(s, EndDelimiter(k)).value;
             AfterDelimiterMatch(s[i + |EndDelimiter(k)|..], 0).None?
    ensures Extract(s, k).None?
  {
  }

  /** The serialised form of a markdown document, as
      `stringifyDataByFilePath` writes it, given the YAML dump `dump` of its
      front matter. */
  function MarkdownText(dump: string, markdown: string): string {
    "---\n" + dump + "---\n" + markdown
  }

  lemma NoCrlfInMarkdownText(d: string, m: string)
    requires |d| >= 1 && d[|d| - 1] == '\n'
    requires !Contains(d, "\r\n") && !Contains(m, "\r\n")
    ensures !Contains(MarkdownText(d, m), "\r\n")
  {
    var s := MarkdownText(d, m);
    forall k: nat | k <= |s|
      ensures !OccursAt(s, "\r\n", k)
    {
      if k + 2 > |s| {
      } else if k < 4 {
        assert s[k] == "---\n"[k];
        assert s[k] != '\r';
      } else if k < 4 + |d| - 1 {
        assert d[k - 4..k - 2] == s[k..k + 2];
        assert !OccursAt(d, "\r\n", k - 4);
      } else if k < 4 + |d| + 4 {
        assert s[k] == '\n' || s[k] == "---\n"[k - 4 - |d|];
        assert s[k] != '\r';
      } else {
        var j := k - (8 + |d|);
        assert m[j..j + 2] == s[k..k + 2];
        assert !OccursAt(m, "\r\n", j);
      }
    }
  }

  /** The first `\n---` of a serialised document is the one that closes the
      dump. */
  lemma FirstEndDelimiter(d: string, m: string)
    requires |d| >= 1 && d[|d| - 1] == '\n'
    requires !Contains("\n" + d, "\n---")
    ensures IndexOf(MarkdownText(d, m), "\n---") == Some(3 + |d|)
  {
    var s := MarkdownText(d, m);
    var t := "\n" + d;
    var e := 3 + |d|;
    assert s[3..e + 1] == t;
    assert s[e..e + 4] == "\n---";
    assert OccursAt(s, "\n---", e);
    forall k: nat | k < e
      ensures !OccursAt(s, "\n---", k)
    {
      NoEarlyEndDelimiter(d, m, k);
    }
  }

  lemma NoEarlyEndDelimiter(d: string, m: string, k: nat)
    requires |d| >= 1 && d[|d| - 1] == '\n'
    requires !Contains("\n" + d, "\n---")
    requires k < 3 + |d|
    ensures !OccursAt(MarkdownText(d, m), "\n---", k)
  {
    var s := MarkdownText(d, m);
    var t := "\n" + d;
    var e := 3 + |d|;
    if k < 3 {
      assert s[k] == "---\n"[k];
      assert s[k..k + 4][0] != '\n';
    } else if k + 4 <= e + 1 {
      assert s[3..e + 1] == t;
      assert t[k - 3..k + 1] == s[k..k + 4];
      assert !OccursAt(t, "\n---", k - 3);
    } else {
      assert s[e] == '\n';
      assert s[k..k + 4][e - k] == s[e];
      assert "\n---"[e - k] == '-';
    }
  }

  /** Serialising a document and parsing it back gives the same body, and
      front matter read from the dump without its final newline, provided
      the dump ends in a newline, neither it nor the body holds a `\r\n`,
      and `\n---` first occurs where the dump ends. */
  lemma {:induction false} MarkdownBodySurvives(c: Codecs, d: string, m: string)
    requires |d| >= 1 && d[|d| - 1] == '\n'
    requires !Contains("\n" + d, "\n---")
    requires !Contains(d, "\r\n") && !Contains(m, "\r\n")
    ensures Extract(MarkdownText(d, m), YamlFm) == Some((d[..|d| - 1], m))
    ensures c.yamlLoad(d[..|d| - 1]).Success? ==>
      ParseMarkdownWithFrontMatter(c, MarkdownText(d, m))
        == Success(MarkdownDoc(c.yamlLoad(d[..|d| - 1]).value, m))
    ensures c.yamlLoad(d[..|d| - 1]).Failure? ==>
      ParseMarkdownWithFrontMatter(c, MarkdownText(d, m)) == Failure(c.yamlLoad(d[..|d| - 1]).error)
  {
    var s := MarkdownText(d, m);
    NoCrlfInMarkdownText(d, m);
    assert NormalizeFirstCrlf(s) == s;
    FrontMatterLoopIsFirstMatch(c, s);
    MarkdownTextExtract(d, m);
    FirstStartingIs(s, YamlFm);
  }

  lemma MarkdownTextExtract(d: string, m: string)
    requires |d| >= 1 && d[|d| - 1] == '\n'
    requires !Contains("\n" + d, "\n---")
    ensures StartsWith(MarkdownText(d, m), StartDelimiter(YamlFm))
    ensures Extract(MarkdownText(d, m), YamlFm) == Some((d[..|d| - 1], m))
  {
    var s := MarkdownText(d, m);
    assert StartsWith(s, "---\n");
    var e := 3 + |d|;
    FirstEndDelimiter(d, m);
    var after := s[e + 4..];
    assert after == "\n" + m;
    assert AfterDelimiterMatch(after, 0) == Some(1);
    assert after[1..] == m;
    assert Substring(s, 4, e) == d[..|d| - 1];
  }

  /** `string.replace(/\n---\s*$/, '')` finds a match at `i`. */
  predicate YamlTerminatorAt(s: string, i: nat) {
    OccursAt(s, "\n---", i) && forall k :: i + 4 <= k < |s| ==> IsJsSpace(s[k])
  }

  function FindYamlTerminator(s: string, from: nat): (r: Option<nat>)
    ensures r.Some? ==> from <= r.value && YamlTerminatorAt(s, r.value)
    ensures r.Some? ==> forall i: nat :: from <= i < r.value ==> !YamlTerminatorAt(s, i)
    ensures r.None? ==> forall i: nat :: from <= i ==> !YamlTerminatorAt(s, i)
    decreases |s| - from
  {
    if from + 4 > |s| then None
    else if YamlTerminatorAt(s, from) then Some(from)
    else FindYamlTerminator(s, from + 1)
  }

  /** A YAML file loses one trailing document terminator `\n---` and the
      whitespace after it before it is parsed. */
  function StripYamlTerminator(s: string): string {
    match FindYamlTerminator(s, 0)
    case None => s
    case Some(i) => s[..i]
  }

  /** The terminator is removed exactly: `t + "\n---" + ws` strips back to
      `t` for whitespace `ws`. */
  lemma StripYamlTerminatorExact(t: string, ws: string)
    requires forall k :: 0 <= k < |ws| ==> IsJsSpace(ws[k])
    ensures StripYamlTerminator(t + "\n---" + ws) == t
  {
    var s := t + "\n---" + ws;
    assert s[|t|..|t| + 4] == "\n---";
    assert YamlTerminatorAt(s, |t|);
    forall i: nat | i < |t|
      ensures !YamlTerminatorAt(s, i)
    {
      if i + 3 <= |t| {
        assert s[|t| + 1] == '-';
        assert !IsJsSpace(s[|t| + 1]);
      } else {
        assert s[i..i + 4][|t| - i] == s[|t|] == '\n';
        assert "\n---"[|t| - i] == '-';
      }
    }
  }

  const ParseExtensions: set<string> := {"yml", "yaml", "json", "toml", "markdown", "mdx", "md", "js", "jsx"}

  function UnsupportedMessage(op: string, ext: string, filePath: string): string {
    op + " error, extension '" + ext + "' of file " + filePath + " is not supported"
  }

  /** `parseDataByFilePath`: dispatch on the file extension. */
  function ParseDataByFilePath(c: Codecs, s: string, filePath: string): (r: Result<Value, string>)
    ensures Extension(filePath) !in ParseExtensions ==>
      r == Failure(UnsupportedMessage("parseDataByFilePath", Extension(filePath), filePath))
    ensures Extension(filePath) in {"yml", "yaml"} ==> r == c.yamlLoad(StripYamlTerminator(s))
    ensures Extension(filePath) == "json" ==> r == c.jsonParse(s)
    ensures Extension(filePath) == "toml" ==> r == c.tomlParse(s)
    ensures Extension(filePath) in {"md", "markdown", "mdx"} ==>
      r == (match ParseMarkdownWithFrontMatter(c, s)
            case Failure(e) => Failure(e)
            case Success(doc) => Success(MarkdownDocValue(doc)))
    ensures Extension(filePath) in {"js", "jsx"} ==> r == Success(VStr(s))
  {
    var ext := Extension(filePath);
    if ext == "yml" || ext == "yaml" then c.yamlLoad(StripYamlTerminator(s))
    else if ext == "json" then c.jsonParse(s)
    else if ext == "toml" then c.tomlParse(s)
    else if ext == "markdown" || ext == "mdx" || ext == "md" then
      match ParseMarkdownWithFrontMatter(c, s)
      case Failure(e) => Failure(e)
      case Success(doc) => Success(MarkdownDocValue(doc))
    else if ext == "js" || ext == "jsx" then Success(VStr(s))
    else Failure(UnsupportedMessage("parseDataByFilePath", ext, filePath))
  }

  /** `_.get(data, 'markdown', '')` used as text. */
  function MarkdownField(c: Codecs, data: Value): string {
    match Get(data, "markdown")
    case None => ""
    case Some(VStr(m)) => m
    case Some(v) => c.toText(v)
  }

  /** `stringifyDataByFilePath`: the inverse dispatch. */
  function StringifyDataByFilePath(c: Codecs, data: Value, filePath: string): (r: Result<string, string>)
    ensures Extension(filePath) !in ParseExtensions ==>
      r == Failure(UnsupportedMessage("stringifyDataByFilePath", Extension(filePath), filePath))
    ensures Extension(filePath) in {"yml", "yaml"} ==> r == c.yamlDump(data)
    ensures Extension(filePath) == "json" ==> r == c.jsonStringify(data)
    ensures Extension(filePath) == "toml" ==> r == c.tomlStringify(data)
    ensures Extension(filePath) in {"md", "markdown", "mdx"} ==>
      r == (match c.yamlDump(Get(data, "frontmatter").GetOr(VUndef))
            case Failure(e) => Failure(e)
            case Success(dump) => Success(MarkdownText(dump, MarkdownField(c, data))))
    ensures Extension(filePath) in {"js", "jsx"} && data.VStr? ==> r == Success(data.s)
  {
    var ext := Extension(filePath);
    if ext == "yml" || ext == "yaml" then c.yamlDump(data)
    else if ext == "json" then c.jsonStringify(data)
    else if ext == "toml" then c.tomlStringify(data)
    else if ext == "markdown" || ext == "mdx" || ext == "md" then
      match c.yamlDump(Get(data, "frontmatter").GetOr(VUndef))
      case Failure(e) => Failure(e)
      case Success(dump) => Success(MarkdownText(dump, MarkdownField(c, data)))
    else if ext == "js" || ext == "jsx" then
      Success(if data.VStr? then data.s else c.toText(data))
    else Failure(UnsupportedMessage("stringifyDataByFilePath", ext, filePath))
  }

  lemma MarkdownDocFields(c: Codecs, fm: Value, m: string)
    ensures Get(MarkdownDocValue(MarkdownDoc(fm, m)), "frontmatter") == Some(fm)
    ensures Get(MarkdownDocValue(MarkdownDoc(fm, m)), "markdown") == Some(VStr(m))
    ensures MarkdownField(c, MarkdownDocValue(MarkdownDoc(fm, m))) == m
  {
    var doc := MarkdownDocValue(MarkdownDoc(fm, m));
    assert doc.fields[1..] == [("markdown", VStr(m))];
    assert doc.fields[0].0 != "markdown";
    assert Lookup(doc.fields[1..], "markdown") == Some(VStr(m));
  }

  /** Round trip through a markdown file: a document whose front matter
      dump meets the conditions of `MarkdownBodySurvives`, and which the
      YAML library reads back, parses to itself. */
  lemma MarkdownRoundTrip(c: Codecs, fm: Value, m: string, filePath: string, d: string)
    requires Extension(filePath) == "md"
    requires c.yamlDump(fm) == Success(d)
    requires |d| >= 1 && d[|d| - 1] == '\n'
    requires !Contains("\n" + d, "\n---")
    requires !Contains(d, "\r\n") && !Contains(m, "\r\n")
    requires c.yamlLoad(d[..|d| - 1]) == Success(fm)
    ensures var doc := MarkdownDocValue(MarkdownDoc(fm, m));
            StringifyDataByFilePath(c, doc, filePath) == Success(MarkdownText(d, m)) &&
            ParseDataByFilePath(c, MarkdownText(d, m), filePath) == Success(doc)
  {
    MarkdownDocFields(c, fm, m);
    MarkdownBodySurvives(c, d, m);
  }

  /** Round trip through a JSON file, given that the JSON library reads back
      what it writes. */
  lemma JsonRoundTrip(c: Codecs, x: Value, filePath: string, j: string)
    requires Extension(filePath) == "json"
    requires c.jsonStringify(x) == Success(j) && c.jsonParse(j) == Success(x)
    ensures ParseDataByFilePath(c, StringifyDataByFilePath(c, x, filePath).value, filePath) == Success(x)
  {
  }

  /** Round trip through a YAML file: the dump is parsed back unless it ends
      in a document terminator, which the parser side strips first. */
  lemma YamlRoundTrip(c: Codecs, x: Value, filePath: string, y: string)
    requires Extension(filePath) in {"yml", "yaml"}
    requires c.yamlDump(x) == Success(y) && c.yamlLoad(y) == Success(x)
    requires FindYamlTerminator(y, 0).None?
    ensures ParseDataByFilePath(c, StringifyDataByFilePath(c, x, filePath).value, filePath) == Success(x)
  {
  }

  /** An extension outside the supported set fails in both directions. */
  lemma UnsupportedExtensionFailsBothWays(c: Codecs, s: string, data: Value, filePath: string)
    requires Extension(filePath) !in ParseExtensions
    ensures ParseDataByFilePath(c, s, filePath).Failure?
    ensures StringifyDataByFilePath(c, data, filePath).Failure?
  {
  }
}
