/** File paths and field paths: the extension test (`path.extname`), the
    POSIX conversion of file paths, `path.join` on relative paths, and the
    two renderings of field paths (`fieldPathToString` and `fromPath`). */
module Paths {
  import opened Wrappers
  import opened Strings

  /** An element of a field path: a property name or an array index. */
  datatype PathElem = Name(name: string) | Index(index: nat)

  function ElemToString(e: PathElem): string {
    match e
    case Name(s) => s
    case Index(i) => NatToString(i)
  }

  function ElemStrings(p: seq<PathElem>): (r: seq<string>)
    ensures |r| == |p|
    ensures forall i :: 0 <= i < |p| ==> r[i] == ElemToString(p[i])
  {
    seq(|p|, i requires 0 <= i < |p| => ElemToString(p[i]))
  }

  /** `fieldPath.join(sep)`: numbers print in decimal. */
  function JoinPath(p: seq<PathElem>, sep: string): string {
    Join(ElemStrings(p), sep)
  }

  /** The part of `path` after its last `/`. */
  function Basename(path: string): (r: string)
    ensures '/' !in r
    ensures EndsWith(path, r)
    ensures |r| < |path| ==> path[|path| - |r| - 1] == '/'
  {
    if |path| == 0 then ""
    else if path[|path| - 1] == '/' then ""
    else Basename(path[..|path| - 1]) + [path[|path| - 1]]
  }

  /** Index of the last `.` in `s`, if any. */
  function LastDot(s: string): (r: Option<nat>)
    ensures r.Some? ==> r.value < |s| && s[r.value] == '.' && '.' !in s[r.value + 1..]
    ensures r.None? ==> '.' !in s
  {
    if |s| == 0 then None
    else if s[|s| - 1] == '.' then Some(|s| - 1)
    else LastDot(s[..|s| - 1])
  }

  /** `path.extname(p).substring(1)`: the text after the last dot of the
      base name, or `''` when the base name has no dot or its only dot
      leads it (a dot-file such as `.md`). */
  function Extension(path: string): (r: string)
    ensures '.' !in r && '/' !in r
  {
    var base := Basename(path);
    match LastDot(base)
    case Some(k) => if k > 0 then base[k + 1..] else ""
    case None => ""
  }

  /** The extension of `dir/name.ext` is `ext` whenever `name` is a non-empty
      name without slashes and `ext` has no dot or slash. */
  lemma ExtensionOf(dir: string, name: string, ext: string)
    requires |name| > 0 && '/' !in name
    requires '.' !in ext && '/' !in ext
    ensures Extension(dir + "/" + name + "." + ext) == ext
    ensures Extension(name + "." + ext) == ext
  {
    var n := name + "." + ext;
    BasenameNoSlash(n);
    BasenameAfterSlash(dir, n);
    assert dir + "/" + name + "." + ext == dir + "/" + n;
    LastDotAt(name, ext);
  }

  lemma {:induction false} BasenameNoSlash(s: string)
    requires '/' !in s
    ensures Basename(s) == s
  {
    if |s| > 0 {
      BasenameNoSlash(s[..|s| - 1]);
    }
  }

  lemma {:induction false} BasenameAfterSlash(d: string, s: string)
    requires '/' !in s
    ensures Basename(d + "/" + s) == s
  {
    if |s| == 0 {
      assert d + "/" + s == d + "/";
    } else {
      var p := d + "/" + s;
      assert p[..|p| - 1] == d + "/" + s[..|s| - 1];
      BasenameAfterSlash(d, s[..|s| - 1]);
      assert s == s[..|s| - 1] + [s[|s| - 1]];
    }
  }

  lemma {:induction false} LastDotAt(name: string, ext: string)
    requires '.' !in ext
    ensures LastDot(name + "." + ext) == Some(|name|)
  {
    if |ext| > 0 {
      var s := name + "." + ext;
      assert s[..|s| - 1] == name + "." + ext[..|ext| - 1];
      LastDotAt(name, ext[..|ext| - 1]);
    } else {
      assert name + "." + ext == name + ".";
    }
  }

  /** `convertToPosixFilePath` with the platform separator `sep`: on a
      non-POSIX platform a leading drive `c:` becomes `/c` and every `sep`
      becomes `/`. */
  function ConvertToPosixFilePath(filePath: string, sep: char): (r: string)
    ensures sep == '/' || filePath == "" ==> r == filePath
    ensures sep != '/' ==> sep !in r
  {
    if sep == '/' then filePath
    else if filePath == "" then filePath
    else
      var undriven :=
        if |filePath| >= 2 && IsWordChar(filePath[0]) && filePath[1] == ':'
        then "/" + [filePath[0]] + filePath[2..]
        else filePath;
      var parts := Split(undriven, sep);
      SplitPartsFree(undriven, sep);
      JoinFree(parts, "/", sep);
      Join(parts, "/")
  }

  /** Apart from the drive prefix, the conversion replaces separators one
      for one and changes nothing else. */
  lemma PosixConversionReplaces(filePath: string, sep: char)
    requires sep != '/' && filePath != ""
    requires !(|filePath| >= 2 && IsWordChar(filePath[0]) && filePath[1] == ':')
    ensures ConvertToPosixFilePath(filePath, sep) == ReplaceChar(filePath, sep, '/')
  {
    JoinSplitReplace(filePath, sep, '/');
  }

  /** The path segments of a relative path, with empty and `.` segments
      dropped. */
  function Segments(p: string): (r: seq<string>)
    ensures forall i :: 0 <= i < |r| ==> r[i] != "" && r[i] != "." && '/' !in r[i]
  {
    SplitPartsFree(p, '/');
    DropTrivial(Split(p, '/'))
  }

  function DropTrivial(xs: seq<string>): (r: seq<string>)
    ensures forall i :: 0 <= i < |r| ==> r[i] != "" && r[i] != "." && r[i] in xs
  {
    if |xs| == 0 then []
    else if xs[0] == "" || xs[0] == "." then DropTrivial(xs[1..])
    else [xs[0]] + DropTrivial(xs[1..])
  }

  /** `path.join(a, b)` for relative paths without `..` segments: the
      result's segments are those of `a` followed by those of `b`, and `.`
      stands for the empty path. */
  function PathJoin(a: string, b: string): (r: string)
    ensures r != ""
    ensures |Segments(a) + Segments(b)| > 0 ==> Segments(r) == Segments(a) + Segments(b)
    ensures |Segments(a) + Segments(b)| == 0 ==> r == "."
  {
    var segs := Segments(a) + Segments(b);
    if |segs| == 0 then "." else
      assert segs[0] != "";
      JoinNonEmpty(segs, "/");
      SegmentsOfJoin(segs);
      Join(segs, "/")
  }

  /** Joining proper segments with `/` and splitting into segments again
      gives them back. */
  lemma SegmentsOfJoin(segs: seq<string>)
    requires |segs| >= 1
    requires forall i :: 0 <= i < |segs| ==> segs[i] != "" && segs[i] != "." && '/' !in segs[i]
    ensures Segments(Join(segs, "/")) == segs
  {
    assert "/" == ['/'];
    SplitJoin(segs, '/');
    DropTrivialProper(segs);
  }

  lemma {:induction false} DropTrivialProper(xs: seq<string>)
    requires forall i :: 0 <= i < |xs| ==> xs[i] != "" && xs[i] != "."
    ensures DropTrivial(xs) == xs
  {
    if |xs| > 0 {
      DropTrivialProper(xs[1..]);
    }
  }

  lemma JoinNonEmpty(parts: seq<string>, sep: string)
    requires |parts| >= 1 && parts[0] != ""
    ensures Join(parts, sep) != ""
  {
    if |parts| > 1 {
      assert Join(parts, sep) == parts[0] + sep + Join(parts[1..], sep);
      assert |Join(parts, sep)| >= |parts[0]|;
    }
  }

  predicate HasNonWordChar(s: string) {
    exists i | 0 <= i < |s| :: !IsWordChar(s[i])
  }

  /** One step of `fieldPathToString`'s reduce, at position `index`. */
  function FieldPathStep(acc: string, e: PathElem, index: nat): string {
    match e
    case Name(s) =>
      if HasNonWordChar(s) then acc + "['" + s + "']"
      else if index > 0 then acc + "." + s
      else acc + s
    case Index(i) => acc + "[" + NatToString(i) + "]"
  }

  /** `fieldPathToString`: names made of word characters are joined with
      dots (no dot before the first element), other names are quoted in
      brackets, and indices are bracketed. */
  function FieldPathToString(p: seq<PathElem>): string
  {
    if |p| == 0 then ""
    else FieldPathStep(FieldPathToString(p[..|p| - 1]), p[|p| - 1], |p| - 1)
  }

  predicate IsWordName(e: PathElem) {
    e.Name? && !HasNonWordChar(e.name)
  }

  /** For paths of word-character names the rendering is the dot-join of
      the names, so splitting on `.` recovers the names. */
  lemma {:induction false} FieldPathToStringWords(p: seq<PathElem>)
    requires forall i :: 0 <= i < |p| ==> IsWordName(p[i])
    ensures FieldPathToString(p) == Join(ElemStrings(p), ".")
  {
    if |p| > 1 {
      var q := p[..|p| - 1];
      assert forall i :: 0 <= i < |q| ==> IsWordName(q[i]);
      FieldPathToStringWords(q);
      WordStep(p);
      JoinSnoc(ElemStrings(q), p[|p| - 1].name, ".");
      ElemStringsSnoc(p);
    } else if |p| == 1 {
      assert p[..0] == [];
      assert FieldPathToString(p) == p[0].name;
    }
  }

  lemma WordStep(p: seq<PathElem>)
    requires |p| > 1 && IsWordName(p[|p| - 1])
    ensures FieldPathToString(p) == FieldPathToString(p[..|p| - 1]) + "." + p[|p| - 1].name
  {
  }

  lemma ElemStringsSnoc(p: seq<PathElem>)
    requires |p| > 0
    ensures ElemStrings(p) == ElemStrings(p[..|p| - 1]) + [ElemToString(p[|p| - 1])]
  {
    var q := p[..|p| - 1];
    var r, rq := ElemStrings(p), ElemStrings(q);
    forall i | 0 <= i < |q|
      ensures r[i] == rq[i]
    {
      assert q[i] == p[i];
    }
    assert r[|q|] == ElemToString(p[|q|]);
    assert r == rq + [ElemToString(p[|p| - 1])];
  }

  lemma FieldPathWordsRoundTrip(p: seq<PathElem>)
    requires |p| >= 1
    requires forall i :: 0 <= i < |p| ==> IsWordName(p[i])
    ensures Split(FieldPathToString(p), '.') == ElemStrings(p)
  {
    FieldPathToStringWords(p);
    var names := ElemStrings(p);
    forall i | 0 <= i < |names|
      ensures '.' !in names[i]
    {
      WordNameNoDot(p[i].name);
    }
    SplitJoin(names, '.');
  }

  lemma WordNameNoDot(s: string)
    requires !HasNonWordChar(s)
    ensures '.' !in s
  {
    forall k | 0 <= k < |s|
      ensures s[k] != '.'
    {
      assert IsWordChar(s[k]);
    }
  }

  lemma {:induction false} JoinSnoc(parts: seq<string>, x: string, sep: string)
    requires |parts| >= 1
    ensures Join(parts + [x], sep) == Join(parts, sep) + sep + x
  {
    if |parts| == 1 {
      assert (parts + [x])[1..] == [x];
    } else {
      JoinSnoc(parts[1..], x, sep);
      assert (parts + [x])[1..] == parts[1..] + [x];
    }
  }

  lemma DigitsHaveNoDot(t: string)
    requires forall k :: 0 <= k < |t| ==> IsDigit(t[k])
    ensures '.' !in t
  {
  }

  /** One step of `fromPath`'s reduce. */
  function FromPathStep(acc: string, e: PathElem): string {
    match e
    case Name(s) =>
      if '.' in s then acc + "[\"" + s + "\"]"
      else acc + (if acc != "" then "." else "") + s
    case Index(i) => acc + (if acc != "" then "." else "") + NatToString(i)
  }

  /** `fromPath`, the inverse of lodash `toPath`: names containing a dot
      are quoted in brackets, everything else is dot-joined. */
  function FromPath(p: seq<PathElem>): string
  {
    if |p| == 0 then ""
    else FromPathStep(FromPath(p[..|p| - 1]), p[|p| - 1])
  }

  predicate IsPlainElem(e: PathElem) {
    match e
    case Name(s) => s != "" && '.' !in s
    case Index(_) => true
  }

  /** For non-empty dot-free names and indices, `fromPath` is the dot-join,
      so splitting its output on `.` recovers every element's text: the
      `toPath` direction of the round trip. */
  lemma FromPathStepPlain(acc: string, e: PathElem)
    requires IsPlainElem(e)
    ensures acc == "" ==> FromPathStep(acc, e) == ElemToString(e)
    ensures acc != "" ==> FromPathStep(acc, e) == acc + "." + ElemToString(e)
    ensures FromPathStep(acc, e) != ""
  {
    if e.Index? {
      assert NatToString(e.index) != "";
    }
  }

  lemma {:induction false} FromPathPlain(p: seq<PathElem>)
    requires forall i :: 0 <= i < |p| ==> IsPlainElem(p[i])
    ensures |p| >= 1 ==> FromPath(p) != ""
    ensures FromPath(p) == Join(ElemStrings(p), ".")
  {
    if |p| >= 1 {
      var q := p[..|p| - 1];
      var last := p[|p| - 1];
      FromPathPlain(q);
      FromPathStepPlain(FromPath(q), last);
      ElemStringsSnoc(p);
      if |q| == 0 {
        assert ElemStrings(p) == [ElemToString(last)];
      } else {
        JoinSnoc(ElemStrings(q), ElemToString(last), ".");
      }
    }
  }

  lemma {:induction false} FromPathRoundTrip(p: seq<PathElem>)
    requires |p| >= 1
    requires forall i :: 0 <= i < |p| ==> IsPlainElem(p[i])
    ensures Split(FromPath(p), '.') == ElemStrings(p)
  {
    FromPathPlain(p);
    var names := ElemStrings(p);
    forall i | 0 <= i < |names|
      ensures '.' !in names[i]
    {
      if p[i].Index? {
        DigitsHaveNoDot(NatToString(p[i].index));
      }
    }
    SplitJoin(names, '.');
  }
}
