/** JSON-like content values as the loader sees them after parsing: the
    JavaScript primitives, arrays, and objects whose keys keep their
    insertion order. `VUndef` stands for JavaScript `undefined`; no parser
    produces it, only the loader itself (an absent page url). Numbers are
    modelled by integers. */
module Values {
  import opened Wrappers

  datatype Value =
    | VUndef
    | VNull
    | VBool(b: bool)
    | VNum(n: int)
    | VStr(s: string)
    | VArr(items: seq<Value>)
    | VObj(fields: seq<(string, Value)>)

  /** JavaScript truthiness: `undefined`, `null`, `false`, `0` and `''` are
      falsy; every array and object is truthy. */
  predicate Truthy(v: Value) {
    match v
    case VUndef => false
    case VNull => false
    case VBool(b) => b
    case VNum(n) => n != 0
    case VStr(s) => s != ""
    case VArr(_) => true
    case VObj(_) => true
  }

  /** `_.isNil`. */
  predicate IsNil(v: Value) {
    v.VUndef? || v.VNull?
  }

  /** JavaScript `===`. Arrays and objects compare by reference; a value read
      from content and one read from the schema are never the same
      reference, so two composite values are never strictly equal here. */
  predicate StrictEq(a: Value, b: Value) {
    match (a, b)
    case (VUndef, VUndef) => true
    case (VNull, VNull) => true
    case (VBool(x), VBool(y)) => x == y
    case (VNum(x), VNum(y)) => x == y
    case (VStr(x), VStr(y)) => x == y
    case _ => false
  }

  function Sum(s: seq<nat>): nat {
    if |s| == 0 then 0 else s[0] + Sum(s[1..])
  }

  lemma {:induction false} SumBoundsElement(s: seq<nat>, i: int)
    requires 0 <= i < |s|
    ensures s[i] <= Sum(s)
  {
    if i > 0 {
      SumBoundsElement(s[1..], i - 1);
    }
  }

  /** A size measure: every element of an array or object is smaller than
      the array or object. Used to justify recursion through closures. */
  function Size(v: Value): nat {
    match v
    case VArr(xs) => 1 + Sum(seq(|xs|, i requires 0 <= i < |xs| => Size(xs[i])))
    case VObj(kvs) => 1 + Sum(seq(|kvs|, i requires 0 <= i < |kvs| => Size(kvs[i].1)))
    case _ => 1
  }

  lemma ItemSmaller(xs: seq<Value>, i: int)
    requires 0 <= i < |xs|
    ensures Size(xs[i]) < Size(VArr(xs))
  {
    var sizes := seq(|xs|, j requires 0 <= j < |xs| => Size(xs[j]));
    SumBoundsElement(sizes, i);
  }

  lemma FieldSmaller(kvs: seq<(string, Value)>, i: int)
    requires 0 <= i < |kvs|
    ensures Size(kvs[i].1) < Size(VObj(kvs))
  {
    var sizes := seq(|kvs|, j requires 0 <= j < |kvs| => Size(kvs[j].1));
    SumBoundsElement(sizes, i);
  }

  function Keys(kvs: seq<(string, Value)>): seq<string> {
    if |kvs| == 0 then [] else [kvs[0].0] + Keys(kvs[1..])
  }

  /** Objects built by the JavaScript runtime never repeat a key. */
  predicate UniqueKeys(kvs: seq<(string, Value)>) {
    forall i, j :: 0 <= i < j < |kvs| ==> kvs[i].0 != kvs[j].0
  }

  /** Property lookup: the first entry with key `k`. */
  function Lookup(kvs: seq<(string, Value)>, k: string): (r: Option<Value>)
    ensures r.None? <==> forall i :: 0 <= i < |kvs| ==> kvs[i].0 != k
    ensures r.Some? ==> exists i :: 0 <= i < |kvs| && kvs[i] == (k, r.value)
  {
    if |kvs| == 0 then None
    else if kvs[0].0 == k then Some(kvs[0].1)
    else Lookup(kvs[1..], k)
  }

  lemma LookupUnique(kvs: seq<(string, Value)>, i: int)
    requires UniqueKeys(kvs)
    requires 0 <= i < |kvs|
    ensures Lookup(kvs, kvs[i].0) == Some(kvs[i].1)
  {
    if i > 0 {
      LookupUnique(kvs[1..], i - 1);
    }
  }

  /** `_.get(v, k)` for a single key: only objects have named properties. */
  function Get(v: Value, k: string): Option<Value> {
    if v.VObj? then Lookup(v.fields, k) else None
  }

  /** `_.has(v, k)`. */
  predicate Has(v: Value, k: string) {
    Get(v, k).Some?
  }

  /** `_.get(v, path)` for a key path. */
  function GetPath(v: Value, path: seq<string>): (r: Option<Value>)
    ensures |path| == 1 ==> r == Get(v, path[0])
  {
    if |path| == 0 then Some(v)
    else
      match Get(v, path[0])
      case None => None
      case Some(child) => GetPath(child, path[1..])
  }

  /** `obj[k] = x`: an existing key keeps its position and takes the new
      value; a new key is appended. */
  function SetKey(kvs: seq<(string, Value)>, k: string, x: Value): (r: seq<(string, Value)>)
    ensures Lookup(r, k) == Some(x)
    ensures forall k' :: k' != k ==> Lookup(r, k') == Lookup(kvs, k')
    ensures forall i :: 0 <= i < |r| ==> r[i] == (k, x) || r[i] in kvs
  {
    if |kvs| == 0 then [(k, x)]
    else if kvs[0].0 == k then [(k, x)] + kvs[1..]
    else [kvs[0]] + SetKey(kvs[1..], k, x)
  }

  /** Setting a key never reorders the object: an existing key stays where
      it is, a new one goes last. */
  lemma {:induction false} SetKeyKeys(kvs: seq<(string, Value)>, k: string, x: Value)
    ensures Lookup(kvs, k).Some? ==> Keys(SetKey(kvs, k, x)) == Keys(kvs)
    ensures Lookup(kvs, k).None? ==> Keys(SetKey(kvs, k, x)) == Keys(kvs) + [k]
  {
    if |kvs| > 0 && kvs[0].0 != k {
      SetKeyKeys(kvs[1..], k, x);
      assert SetKey(kvs, k, x)[1..] == SetKey(kvs[1..], k, x);
    } else if |kvs| > 0 {
      assert SetKey(kvs, k, x)[1..] == kvs[1..];
    }
  }

  lemma {:induction false} KeysAt(kvs: seq<(string, Value)>)
    ensures |Keys(kvs)| == |kvs|
    ensures forall i :: 0 <= i < |kvs| ==> Keys(kvs)[i] == kvs[i].0
  {
    if |kvs| > 0 {
      KeysAt(kvs[1..]);
    }
  }

  /** Setting a key keeps an object's keys distinct. */
  lemma SetKeyUnique(kvs: seq<(string, Value)>, k: string, x: Value)
    requires UniqueKeys(kvs)
    ensures UniqueKeys(SetKey(kvs, k, x))
  {
    var r := SetKey(kvs, k, x);
    SetKeyKeys(kvs, k, x);
    KeysAt(kvs);
    KeysAt(r);
    forall i, j | 0 <= i < j < |r|
      ensures r[i].0 != r[j].0
    {
      assert r[i].0 == Keys(r)[i] && r[j].0 == Keys(r)[j];
      if j < |kvs| {
        assert Keys(r)[i] == kvs[i].0 && Keys(r)[j] == kvs[j].0;
      } else {
        assert Keys(r)[i] == kvs[i].0 && Keys(r)[j] == k;
      }
    }
  }

  /** `_.omit(obj, k)`: a copy without key `k`. */
  function OmitKey(kvs: seq<(string, Value)>, k: string): (r: seq<(string, Value)>)
    ensures Lookup(r, k).None?
    ensures forall k' :: k' != k ==> Lookup(r, k') == Lookup(kvs, k')
    ensures forall i :: 0 <= i < |r| ==> r[i] in kvs
  {
    if |kvs| == 0 then []
    else if kvs[0].0 == k then OmitKey(kvs[1..], k)
    else [kvs[0]] + OmitKey(kvs[1..], k)
  }

  /** `acc.concat(v)`: an array argument is spliced in one level deep, any
      other value is appended. */
  function ConcatValue(acc: seq<Value>, v: Value): (r: seq<Value>)
    ensures v.VArr? ==> r == acc + v.items
    ensures !v.VArr? ==> r == acc + [v]
  {
    match v
    case VArr(items) => acc + items
    case _ => acc + [v]
  }

  /** `_.compact` on values: drops the falsy ones, keeping order. */
  function Compact(xs: seq<Value>): (r: seq<Value>)
    ensures forall i :: 0 <= i < |r| ==> Truthy(r[i])
    ensures forall x :: x in r ==> x in xs
    ensures forall i :: 0 <= i < |xs| && Truthy(xs[i]) ==> xs[i] in r
    ensures |r| <= |xs|
  {
    if |xs| == 0 then []
    else if Truthy(xs[0]) then [xs[0]] + Compact(xs[1..])
    else Compact(xs[1..])
  }

  /** `_.compact` distributes over concatenation: the truthy values keep
      their order and their repetitions. With the singleton case, which the
      contract above pins down, this determines the result. */
  lemma {:induction false} CompactAppend(a: seq<Value>, b: seq<Value>)
    ensures Compact(a + b) == Compact(a) + Compact(b)
  {
    if |a| == 0 {
      assert a + b == b;
    } else {
      assert (a + b)[1..] == a[1..] + b;
      CompactAppend(a[1..], b);
    }
  }
}
