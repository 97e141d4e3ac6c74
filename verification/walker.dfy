/** `readDirRec` of `content-loader/utils.ts` and the loader's `readDir`:
    the depth-first listing of a content directory, filtered by the exclude
    globs and the loadable extensions, then sorted. */
module Walker {
  import opened Wrappers
  import opened Strings
  import opened Paths
  import opened Matcher

  /** A directory entry as `fs.stat` sees it (symbolic links already
      followed): a regular file, a directory with its entries in `readdir`
      order, anything else (socket, FIFO, device), a directory whose
      `readdir` rejects (no permission), or an entry whose `stat` rejects
      (a dangling symbolic link, no permission), each with the message of
      the rejection. */
  datatype Node =
    | File(name: string)
    | Dir(name: string, children: seq<Node>)
    | Special(name: string)
    | Unreadable(name: string, error: string)
    | Broken(name: string, error: string)

  datatype EntryKind = FileEntry | DirEntry | OtherEntry

  function Kind(n: Node): EntryKind {
    match n
    case File(_) => FileEntry
    case Dir(_, _) => DirEntry
    case Unreadable(_, _) => DirEntry
    case Special(_) => OtherEntry
    case Broken(_, _) => OtherEntry
  }

  /** A tree the file system reads without a rejection: no entry whose
      `stat` or `readdir` fails. */
  predicate Healthy(n: Node)
    decreases n
  {
    match n
    case Dir(_, children) => HealthyList(children)
    case Unreadable(_, _) => false
    case Broken(_, _) => false
    case _ => true
  }

  predicate HealthyList(ns: seq<Node>)
    decreases ns
  {
    forall i :: 0 <= i < |ns| ==> Healthy(ns[i])
  }

  /** The filter `readDirRec` is given: `Failure` when it throws. */
  type Filter = (string, EntryKind) -> Result<bool, string>

  /** `path.relative(rootDir, path.join(dir, name))` for an entry `name` of
      the directory at relative path `prefix`. */
  function RelPath(prefix: string, name: string): (r: string)
    ensures prefix == "" ==> r == name
    ensures prefix != "" ==> StartsWith(r, prefix + "/") && r[|prefix| + 1..] == name
  {
    if prefix == "" then name else prefix + "/" + name
  }

  /** One entry: its `stat` comes first, and a failing one rejects the
      walk whatever the filter says; then the filter sees its relative path
      and kind; an entry it rejects is skipped whole, a directory is walked
      (its `readdir` may reject), a file is listed, anything else is
      dropped. */
  function WalkNode(prefix: string, n: Node, filter: Filter): (r: Result<seq<string>, string>)
    ensures n.Broken? ==> r == Failure(n.error)
    ensures n.Unreadable? && Admits(filter, RelPath(prefix, n.name), DirEntry) ==> r == Failure(n.error)
    decreases n
  {
    if n.Broken? then Failure(n.error)
    else
      var rel := RelPath(prefix, n.name);
      match filter(rel, Kind(n))
      case Failure(e) => Failure(e)
      case Success(keep) =>
        if !keep then Success([])
        else
          match n
          case File(_) => Success([rel])
          case Dir(_, children) => WalkList(rel, children, filter)
          case Unreadable(_, e) => Failure(e)
          case Special(_) => Success([])
  }

  /** The entries of one directory, in order; the first rejection aborts
      the walk. */
  function WalkList(prefix: string, ns: seq<Node>, filter: Filter): (r: Result<seq<string>, string>)
    decreases ns
  {
    if |ns| == 0 then Success([])
    else
      match WalkNode(prefix, ns[0], filter)
      case Failure(e) => Failure(e)
      case Success(first) =>
        match WalkList(prefix, ns[1..], filter)
        case Failure(e) => Failure(e)
        case Success(rest) => Success(first + rest)
  }

  /** What `readDirRec` finds at its root: `None` when the path does not
      exist, otherwise what `readdir` gives for it (a rejection when the
      path is not a directory or cannot be read). */
  type Listing = Option<Result<seq<Node>, string>>

  /** `readDirRec(dir, {filter})`: a directory that does not exist lists as
      empty; one whose `readdir` rejects rejects the walk. */
  function ReadDirRec(root: Listing, filter: Filter): (r: Result<seq<string>, string>)
    ensures root.None? ==> r == Success([])
    ensures root.Some? && root.value.Failure? ==> r == Failure(root.value.error)
  {
    match root
    case None => Success([])
    case Some(Failure(e)) => Failure(e)
    case Some(Success(ns)) => WalkList("", ns, filter)
  }

  /** The filter admits the entry. */
  predicate Admits(filter: Filter, rel: string, k: EntryKind) {
    filter(rel, k) == Success(true)
  }

  /** Reference definition of the listing: `p` is listed when it names a
      file the filter admits, inside directories the filter admits. */
  predicate ListedAt(prefix: string, n: Node, p: string, filter: Filter)
    decreases n
  {
    var rel := RelPath(prefix, n.name);
    Admits(filter, rel, Kind(n)) &&
    match n
    case File(_) => p == rel
    case Dir(_, children) => ListedIn(rel, children, p, filter)
    case Special(_) => false
    case Unreadable(_, _) => false
    case Broken(_, _) => false
  }

  predicate ListedIn(prefix: string, ns: seq<Node>, p: string, filter: Filter)
    decreases ns
  {
    exists i :: 0 <= i < |ns| && ListedAt(prefix, ns[i], p, filter)
  }

  /** Every path the walk lists names a file the filter admitted. */
  lemma {:induction false} WalkAdmitted(prefix: string, n: Node, filter: Filter)
    ensures WalkNode(prefix, n, filter).Success? ==>
      forall p :: p in WalkNode(prefix, n, filter).value ==> Admits(filter, p, FileEntry)
    decreases n
  {
    var rel := RelPath(prefix, n.name);
    if filter(rel, Kind(n)) == Success(true) && n.Dir? {
      WalkListAdmitted(rel, n.children, filter);
    }
  }

  lemma {:induction false} WalkListAdmitted(prefix: string, ns: seq<Node>, filter: Filter)
    ensures WalkList(prefix, ns, filter).Success? ==>
      forall p :: p in WalkList(prefix, ns, filter).value ==> Admits(filter, p, FileEntry)
    decreases ns
  {
    if |ns| > 0 {
      WalkAdmitted(prefix, ns[0], filter);
      WalkListAdmitted(prefix, ns[1..], filter);
    }
  }

  lemma ReadDirRecAdmitted(root: Listing, filter: Filter)
    ensures ReadDirRec(root, filter).Success? ==>
      forall p :: p in ReadDirRec(root, filter).value ==> Admits(filter, p, FileEntry)
  {
    if root.Some? && root.value.Success? {
      WalkListAdmitted("", root.value.value, filter);
    }
  }

  /** On a healthy tree a filter that never throws never aborts the walk,
      and then the walk lists exactly the paths of the reference
      definition. */
  lemma {:induction false} WalkComplete(prefix: string, n: Node, filter: Filter, p: string)
    requires Healthy(n)
    requires forall rel, k :: filter(rel, k).Success?
    ensures WalkNode(prefix, n, filter).Success?
    ensures p in WalkNode(prefix, n, filter).value <==> ListedAt(prefix, n, p, filter)
    decreases n
  {
    var rel := RelPath(prefix, n.name);
    if filter(rel, Kind(n)) == Success(true) && n.Dir? {
      WalkListComplete(rel, n.children, filter, p);
    }
  }

  lemma {:induction false} WalkListComplete(prefix: string, ns: seq<Node>, filter: Filter, p: string)
    requires HealthyList(ns)
    requires forall rel, k :: filter(rel, k).Success?
    ensures WalkList(prefix, ns, filter).Success?
    ensures p in WalkList(prefix, ns, filter).value <==> ListedIn(prefix, ns, p, filter)
    decreases ns
  {
    if |ns| > 0 {
      WalkComplete(prefix, ns[0], filter, p);
      WalkListComplete(prefix, ns[1..], filter, p);
      if ListedIn(prefix, ns[1..], p, filter) {
        var i :| 0 <= i < |ns[1..]| && ListedAt(prefix, ns[1..][i], p, filter);
        assert ListedAt(prefix, ns[i + 1], p, filter);
      }
      if ListedIn(prefix, ns, p, filter) && !ListedAt(prefix, ns[0], p, filter) {
        var i :| 0 <= i < |ns| && ListedAt(prefix, ns[i], p, filter);
        assert ns[1..][i - 1] == ns[i];
      }
    }
  }

  /** The entries of a directory are walked one after another: the walk
      rejects exactly when one of them does, and then with the error of
      the first that does. */
  lemma {:induction false} WalkListFirstFailure(prefix: string, ns: seq<Node>, filter: Filter)
    ensures WalkList(prefix, ns, filter).Failure? <==>
      exists i :: 0 <= i < |ns| && WalkNode(prefix, ns[i], filter).Failure?
    ensures forall i ::
      (0 <= i < |ns| && WalkNode(prefix, ns[i], filter).Failure? &&
       forall j :: 0 <= j < i ==> WalkNode(prefix, ns[j], filter).Success?) ==>
      WalkList(prefix, ns, filter) == Failure(WalkNode(prefix, ns[i], filter).error)
    decreases ns
  {
    if |ns| > 0 {
      WalkListFirstFailure(prefix, ns[1..], filter);
      assert forall i :: 1 <= i < |ns| ==> ns[1..][i - 1] == ns[i];
      if WalkNode(prefix, ns[0], filter).Success? && WalkList(prefix, ns[1..], filter).Failure? {
        var i :| 0 <= i < |ns[1..]| && WalkNode(prefix, ns[1..][i], filter).Failure?;
        assert WalkNode(prefix, ns[i + 1], filter).Failure?;
      }
    }
  }

  /** `_.some(patterns, exclude => micromatch.isMatch(path, exclude))`:
      patterns are tried in order and the first match stops the search, so
      a malformed pattern throws only when no earlier pattern matched. */
  function SomeMatch(g: Glob, path: string, patterns: seq<string>): (r: Result<bool, string>)
    ensures r == Success(false) <==> forall i :: 0 <= i < |patterns| ==> g(path, patterns[i]) == Success(false)
    ensures r == Success(true) <==>
      exists i :: 0 <= i < |patterns| && g(path, patterns[i]) == Success(true) &&
        forall j :: 0 <= j < i ==> g(path, patterns[j]) == Success(false)
    ensures (forall i :: 0 <= i < |patterns| ==> g(path, patterns[i]).Success?) ==> r.Success?
  {
    if |patterns| == 0 then Success(false)
    else
      match g(path, patterns[0])
      case Failure(e) => Failure(e)
      case Success(b) =>
        if b then Success(true)
        else
          var r := SomeMatch(g, path, patterns[1..]);
          assert forall i :: 1 <= i < |patterns| ==> patterns[1..][i - 1] == patterns[i];
          if r == Success(true) then
            var i :| 0 <= i < |patterns[1..]| && g(path, patterns[1..][i]) == Success(true) &&
              forall j :: 0 <= j < i ==> g(path, patterns[1..][j]) == Success(false);
            assert forall j :: 0 <= j < i + 1 ==> g(path, patterns[j]) == Success(false);
            r
          else r
  }

  /** The extensions the loader reads. */
  const LoadableExtensions: seq<string> := ["md", "markdown", "mdx", "yml", "yaml", "json", "toml"]

  /** The loader's filter: an excluded entry is skipped; of the rest, files
      are kept only with a loadable extension. */
  function LoaderFilter(g: Glob, excludes: seq<string>): (f: Filter)
    ensures forall rel, k :: f(rel, k) == Success(true) <==>
      SomeMatch(g, rel, excludes) == Success(false) && (k != FileEntry || Extension(rel) in LoadableExtensions)
    ensures (forall rel, i :: 0 <= i < |excludes| ==> g(rel, excludes[i]).Success?) ==>
      forall rel, k :: f(rel, k).Success?
  {
    (rel: string, k: EntryKind) =>
      match SomeMatch(g, rel, excludes)
      case Failure(e) => Failure(e)
      case Success(excluded) =>
        if excluded then Success(false)
        else Success(k != FileEntry || Extension(rel) in LoadableExtensions)
  }

  /** JavaScript's default string order (code-unit order). */
  predicate LexLess(a: string, b: string) {
    if |a| == 0 then |b| > 0
    else if |b| == 0 then false
    else if a[0] != b[0] then a[0] < b[0]
    else LexLess(a[1..], b[1..])
  }

  predicate LexLeq(a: string, b: string) {
    a == b || LexLess(a, b)
  }

  lemma {:induction false} LexTotal(a: string, b: string)
    ensures LexLess(a, b) || a == b || LexLess(b, a)
  {
    if |a| > 0 && |b| > 0 && a[0] == b[0] {
      LexTotal(a[1..], b[1..]);
      if a[1..] == b[1..] {
        assert a == [a[0]] + a[1..] && b == [b[0]] + b[1..];
      }
    }
  }

  lemma {:induction false} LexIrreflexive(a: string)
    ensures !LexLess(a, a)
  {
    if |a| > 0 {
      LexIrreflexive(a[1..]);
    }
  }

  lemma {:induction false} LexAsymmetric(a: string, b: string)
    ensures !(LexLess(a, b) && LexLess(b, a))
  {
    if |a| > 0 && |b| > 0 && a[0] == b[0] {
      LexAsymmetric(a[1..], b[1..]);
    }
  }

  lemma {:induction false} LexTrans(a: string, b: string, c: string)
    requires LexLess(a, b) && LexLess(b, c)
    ensures LexLess(a, c)
  {
    if |a| > 0 && |b| > 0 && |c| > 0 && a[0] == b[0] && b[0] == c[0] {
      LexTrans(a[1..], b[1..], c[1..]);
    }
  }

  lemma LexLeqTrans(a: string, b: string, c: string)
    requires LexLeq(a, b) && LexLeq(b, c)
    ensures LexLeq(a, c)
  {
    if a != b && b != c {
      LexTrans(a, b, c);
    }
  }

  predicate Sorted(s: seq<string>) {
    forall i, j :: 0 <= i < j < |s| ==> LexLeq(s[i], s[j])
  }

  /** Insert `x` before the first element not below it. */
  function Insert(x: string, s: seq<string>): (r: seq<string>)
    requires Sorted(s)
    ensures Sorted(r)
    ensures multiset(r) == multiset(s) + multiset{x}
  {
    if |s| == 0 then [x]
    else if LexLeq(x, s[0]) then
      assert forall j :: 0 <= j < |s| ==> LexLeq(s[0], s[j]);
      forall j | 0 <= j < |s|
        ensures LexLeq(x, s[j])
      {
        LexLeqTrans(x, s[0], s[j]);
      }
      [x] + s
    else
      LexTotal(x, s[0]);
      var rest := Insert(x, s[1..]);
      assert s == [s[0]] + s[1..];
      forall j | 0 <= j < |rest|
        ensures LexLeq(s[0], rest[j])
      {
        assert rest[j] in multiset(rest);
        if rest[j] != x {
          assert rest[j] in multiset(s[1..]);
          var m :| 0 <= m < |s[1..]| && s[1..][m] == rest[j];
          assert s[m + 1] == rest[j];
        }
      }
      [s[0]] + rest
  }

  /** `array.slice().sort()` on strings: the same paths in ascending
      order. */
  function SortStrings(s: seq<string>): (r: seq<string>)
    ensures Sorted(r)
    ensures multiset(r) == multiset(s)
  {
    if |s| == 0 then []
    else
      assert s == s[..|s| - 1] + [s[|s| - 1]];
      Insert(s[|s| - 1], SortStrings(s[..|s| - 1]))
  }

  lemma SortedSameHead(a: seq<string>, b: seq<string>)
    requires Sorted(a) && Sorted(b)
    requires multiset(a) == multiset(b)
    requires |a| > 0
    ensures |b| > 0 && a[0] == b[0]
  {
    assert |b| == |multiset(b)| == |a|;
    assert a[0] in multiset(b) && b[0] in multiset(a);
    var i :| 0 <= i < |b| && b[i] == a[0];
    var j :| 0 <= j < |a| && a[j] == b[0];
    assert LexLeq(b[0], b[i]) && LexLeq(a[0], a[j]);
    LexAsymmetric(a[0], b[0]);
  }

  lemma SameTail(a: seq<string>, b: seq<string>)
    requires |a| > 0 && |b| > 0 && a[0] == b[0]
    requires multiset(a) == multiset(b)
    ensures multiset(a[1..]) == multiset(b[1..])
  {
    assert a == [a[0]] + a[1..] && b == [b[0]] + b[1..];
    assert multiset(a[1..]) == multiset(a) - multiset{a[0]};
    assert multiset(b[1..]) == multiset(b) - multiset{b[0]};
  }

  /** Two sorted arrangements of the same paths are the same array, so the
      sort's result does not depend on the order `readdir` returned. */
  lemma {:induction false} SortedUnique(a: seq<string>, b: seq<string>)
    requires Sorted(a) && Sorted(b)
    requires multiset(a) == multiset(b)
    ensures a == b
  {
    if |a| > 0 {
      SortedSameHead(a, b);
      SameTail(a, b);
      SortedUnique(a[1..], b[1..]);
      assert a == [a[0]] + a[1..] && b == [b[0]] + b[1..];
    } else {
      assert |b| == |multiset(b)| == 0;
    }
  }

  /** The loader's `readDir`: the filtered listing, sorted. */
  function ReadDir(root: Listing, excludes: seq<string>, g: Glob): (r: Result<seq<string>, string>)
    ensures root.None? ==> r == Success([])
    ensures root.Some? && root.value.Failure? ==> r == Failure(root.value.error)
    ensures r.Failure? ==> r == ReadDirRec(root, LoaderFilter(g, excludes))
    ensures r.Success? <==> ReadDirRec(root, LoaderFilter(g, excludes)).Success?
    ensures r.Success? ==> Sorted(r.value)
    ensures r.Success? ==> multiset(r.value) == multiset(ReadDirRec(root, LoaderFilter(g, excludes)).value)
  {
    match ReadDirRec(root, LoaderFilter(g, excludes))
    case Failure(e) => Failure(e)
    case Success(ps) => Success(SortStrings(ps))
  }

  /** Every path `readDir` lists is a file no exclude pattern matches, with
      a loadable extension. */
  lemma ReadDirAdmitted(root: Listing, excludes: seq<string>, g: Glob, p: string)
    requires ReadDir(root, excludes, g).Success? && p in ReadDir(root, excludes, g).value
    ensures SomeMatch(g, p, excludes) == Success(false) && Extension(p) in LoadableExtensions
  {
    var f := LoaderFilter(g, excludes);
    ReadDirRecAdmitted(root, f);
    assert p in multiset(ReadDir(root, excludes, g).value);
    assert Admits(f, p, FileEntry);
  }

  /** On a healthy tree with well-formed exclude patterns `readDir` lists
      exactly the admitted files of the tree. */
  lemma ReadDirComplete(ns: seq<Node>, excludes: seq<string>, g: Glob, p: string)
    requires HealthyList(ns)
    requires forall rel, i :: 0 <= i < |excludes| ==> g(rel, excludes[i]).Success?
    ensures ReadDir(Some(Success(ns)), excludes, g).Success?
    ensures p in ReadDir(Some(Success(ns)), excludes, g).value <==> ListedIn("", ns, p, LoaderFilter(g, excludes))
  {
    var f := LoaderFilter(g, excludes);
    WalkListComplete("", ns, f, p);
    var ps := WalkList("", ns, f).value;
    assert p in ps <==> p in multiset(SortStrings(ps));
  }

  /** `readDir` rejects with the error of the first entry of the root
      whose walk rejects, whatever follows it. */
  lemma ReadDirFirstFailure(ns: seq<Node>, excludes: seq<string>, g: Glob, i: nat)
    requires i < |ns| && WalkNode("", ns[i], LoaderFilter(g, excludes)).Failure?
    requires forall j :: 0 <= j < i ==> WalkNode("", ns[j], LoaderFilter(g, excludes)).Success?
    ensures ReadDir(Some(Success(ns)), excludes, g) == Failure(WalkNode("", ns[i], LoaderFilter(g, excludes)).error)
  {
    WalkListFirstFailure("", ns, LoaderFilter(g, excludes));
  }
}
