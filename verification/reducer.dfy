/** `dataReducerSync` of `content-loader/utils.ts`: maps a callback over the
    entries of an array or object and collects the `data` and `errors` the
    callback returns. Array results are concatenated (an array result is
    spliced one level deep), object results are stored under the entry's
    key, and errors are concatenated in entry order. */
module Reducer {
  import opened Wrappers
  import opened Strings
  import opened Values
  import opened Paths

  /** What the callback returns: `data` when the result has that key, and
      its error messages. */
  datatype Step = Step(data: Option<Value>, errors: seq<string>)

  datatype Reduced = Reduced(data: Value, errors: seq<string>)

  /** The entries lodash `_.reduce` visits: array items with their index,
      object properties with their key, and the characters of a string with
      their index. Other values have none. */
  function Entries(v: Value): (r: seq<(PathElem, Value)>)
    ensures v.VArr? ==> |r| == |v.items| && forall i :: 0 <= i < |r| ==> r[i] == (Index(i), v.items[i])
    ensures v.VObj? ==> |r| == |v.fields| && forall i :: 0 <= i < |r| ==> r[i] == (Name(v.fields[i].0), v.fields[i].1)
    ensures v.VStr? ==> |r| == |v.s| && forall i :: 0 <= i < |r| ==> r[i] == (Index(i), VStr([v.s[i]]))
    ensures !(v.VArr? || v.VObj? || v.VStr?) ==> r == []
  {
    match v
    case VArr(xs) => seq(|xs|, i requires 0 <= i < |xs| => (Index(i), xs[i]))
    case VObj(kvs) => seq(|kvs|, i requires 0 <= i < |kvs| => (Name(kvs[i].0), kvs[i].1))
    case VStr(s) => seq(|s|, i requires 0 <= i < |s| => (Index(i), VStr([s[i]])))
    case _ => []
  }

  /** Every entry of an array or object is smaller than the whole, and a
      character of a string is no larger than the string. */
  lemma EntriesSmaller(v: Value, i: int)
    requires 0 <= i < |Entries(v)|
    ensures v.VArr? || v.VObj? ==> Size(Entries(v)[i].1) < Size(v)
    ensures Size(Entries(v)[i].1) <= Size(v)
  {
    match v
    case VArr(xs) => ItemSmaller(xs, i);
    case VObj(kvs) => FieldSmaller(kvs, i);
    case VStr(_) =>
  }

  ghost predicate Callable(entries: seq<(PathElem, Value)>, f: (Value, PathElem) --> Step) {
    forall i :: 0 <= i < |entries| ==> f.requires(entries[i].1, entries[i].0)
  }

  /** The callback's results, one per entry. */
  function Steps(entries: seq<(PathElem, Value)>, f: (Value, PathElem) --> Step): (r: seq<Step>)
    requires Callable(entries, f)
    ensures |r| == |entries|
    ensures forall i :: 0 <= i < |entries| ==> r[i] == f(entries[i].1, entries[i].0)
  {
    if |entries| == 0 then []
    else Steps(entries[..|entries| - 1], f) + [f(entries[|entries| - 1].1, entries[|entries| - 1].0)]
  }

  /** All error messages of `steps`, in order. */
  function AllErrors(steps: seq<Step>): seq<string> {
    if |steps| == 0 then [] else AllErrors(steps[..|steps| - 1]) + steps[|steps| - 1].errors
  }

  /** The array accumulator: `accum.data = accum.data.concat(value)`. */
  function ReduceArray(entries: seq<(PathElem, Value)>, f: (Value, PathElem) --> Step): (r: (seq<Value>, seq<string>))
    requires Callable(entries, f)
  {
    if |entries| == 0 then ([], [])
    else
      var prev := ReduceArray(entries[..|entries| - 1], f);
      var step := f(entries[|entries| - 1].1, entries[|entries| - 1].0);
      (if step.data.Some? then ConcatValue(prev.0, step.data.value) else prev.0, prev.1 + step.errors)
  }

  /** The object accumulator: `accum.data[key] = value`. */
  function ReduceObject(entries: seq<(PathElem, Value)>, f: (Value, PathElem) --> Step)
    : (r: (seq<(string, Value)>, seq<string>))
    requires Callable(entries, f)
  {
    if |entries| == 0 then ([], [])
    else
      var prev := ReduceObject(entries[..|entries| - 1], f);
      var e := entries[|entries| - 1];
      var step := f(e.1, e.0);
      (if step.data.Some? then SetKey(prev.0, ElemToString(e.0), step.data.value) else prev.0,
       prev.1 + step.errors)
  }

  /** `dataReducerSync(data, f)`: an array input gives an array, anything
      else an object (empty when there is nothing to visit). */
  function DataReducerSync(data: Value, f: (Value, PathElem) --> Step): (r: Reduced)
    requires Callable(Entries(data), f)
    ensures data.VArr? <==> r.data.VArr?
    ensures !data.VArr? ==> r.data.VObj?
  {
    if data.VArr? then
      var a := ReduceArray(Entries(data), f);
      Reduced(VArr(a.0), a.1)
    else
      var o := ReduceObject(Entries(data), f);
      Reduced(VObj(o.0), o.1)
  }

  lemma {:induction false} ReduceArrayErrors(entries: seq<(PathElem, Value)>, f: (Value, PathElem) --> Step)
    requires Callable(entries, f)
    ensures ReduceArray(entries, f).1 == AllErrors(Steps(entries, f))
  {
    if |entries| > 0 {
      var init := entries[..|entries| - 1];
      ReduceArrayErrors(init, f);
      assert Steps(entries, f)[..|entries| - 1] == Steps(init, f);
    }
  }

  lemma {:induction false} ReduceObjectErrors(entries: seq<(PathElem, Value)>, f: (Value, PathElem) --> Step)
    requires Callable(entries, f)
    ensures ReduceObject(entries, f).1 == AllErrors(Steps(entries, f))
  {
    if |entries| > 0 {
      var init := entries[..|entries| - 1];
      ReduceObjectErrors(init, f);
      assert Steps(entries, f)[..|entries| - 1] == Steps(init, f);
    }
  }

  /** The errors of a reduction are exactly the callback's errors, entry by
      entry, in order. */
  lemma DataReducerErrors(data: Value, f: (Value, PathElem) --> Step)
    requires Callable(Entries(data), f)
    ensures DataReducerSync(data, f).errors == AllErrors(Steps(Entries(data), f))
  {
    if data.VArr? {
      ReduceArrayErrors(Entries(data), f);
    } else {
      ReduceObjectErrors(Entries(data), f);
    }
  }

  lemma {:induction false} AllErrorsEmpty(steps: seq<Step>)
    requires forall i :: 0 <= i < |steps| ==> steps[i].errors == []
    ensures AllErrors(steps) == []
  {
    if |steps| > 0 {
      AllErrorsEmpty(steps[..|steps| - 1]);
    }
  }

  /** A callback that reports no error for any entry leaves the reducer
      with no errors. */
  lemma DataReducerClean(data: Value, f: (Value, PathElem) --> Step)
    requires Callable(Entries(data), f)
    requires forall i :: 0 <= i < |Entries(data)| ==> f(Entries(data)[i].1, Entries(data)[i].0).errors == []
    ensures DataReducerSync(data, f).errors == []
  {
    DataReducerErrors(data, f);
    AllErrorsEmpty(Steps(Entries(data), f));
  }

  /** The value the object accumulator ends with under key `k`: the last
      entry with that key whose callback kept a value. */
  function KeyData(entries: seq<(PathElem, Value)>, f: (Value, PathElem) --> Step, k: string): Option<Value>
    requires Callable(entries, f)
  {
    if |entries| == 0 then None
    else
      var e := entries[|entries| - 1];
      var d := f(e.1, e.0).data;
      if ElemToString(e.0) == k && d.Some? then d else KeyData(entries[..|entries| - 1], f, k)
  }

  lemma {:induction false} ReduceObjectKeyData(entries: seq<(PathElem, Value)>, f: (Value, PathElem) --> Step,
                                               k: string)
    requires Callable(entries, f)
    ensures Lookup(ReduceObject(entries, f).0, k) == KeyData(entries, f, k)
  {
    if |entries| > 0 {
      ReduceObjectKeyData(entries[..|entries| - 1], f, k);
    }
  }

  /** With distinct keys, the entry holding `k` alone decides. */
  lemma {:induction false} KeyDataUnique(entries: seq<(PathElem, Value)>, f: (Value, PathElem) --> Step,
                                         k: string)
    requires Callable(entries, f)
    requires forall i, j :: 0 <= i < j < |entries| ==> ElemToString(entries[i].0) != ElemToString(entries[j].0)
    ensures (forall i :: 0 <= i < |entries| ==> ElemToString(entries[i].0) != k) ==> KeyData(entries, f, k).None?
    ensures forall i :: 0 <= i < |entries| && ElemToString(entries[i].0) == k ==>
      KeyData(entries, f, k) == f(entries[i].1, entries[i].0).data
  {
    if |entries| > 0 {
      var n := |entries| - 1;
      var init := entries[..n];
      assert forall i :: 0 <= i < n ==> init[i] == entries[i];
      KeyDataUnique(init, f, k);
      if ElemToString(entries[n].0) == k {
        assert forall i :: 0 <= i < n ==> ElemToString(init[i].0) != k;
      }
    }
  }

  lemma ReduceObjectLookup(entries: seq<(PathElem, Value)>, f: (Value, PathElem) --> Step, k: string)
    requires Callable(entries, f)
    requires forall i, j :: 0 <= i < j < |entries| ==> ElemToString(entries[i].0) != ElemToString(entries[j].0)
    ensures (forall i :: 0 <= i < |entries| ==> ElemToString(entries[i].0) != k) ==>
      Lookup(ReduceObject(entries, f).0, k).None?
    ensures forall i :: 0 <= i < |entries| && ElemToString(entries[i].0) == k ==>
      Lookup(ReduceObject(entries, f).0, k) == f(entries[i].1, entries[i].0).data
  {
    ReduceObjectKeyData(entries, f, k);
    KeyDataUnique(entries, f, k);
  }

  /** Reducing a one-property object gives that property's callback
      result. */
  lemma ReduceSingleObject(k: string, x: Value, f: (Value, PathElem) --> Step)
    requires f.requires(x, Name(k))
    ensures Callable(Entries(VObj([(k, x)])), f)
    ensures DataReducerSync(VObj([(k, x)]), f)
         == Reduced(VObj(if f(x, Name(k)).data.Some? then [(k, f(x, Name(k)).data.value)] else []),
                    f(x, Name(k)).errors)
  {
    var es := Entries(VObj([(k, x)]));
    assert es == [(Name(k), x)];
    assert es[..0] == [];
    assert ElemToString(Name(k)) == k;
    var st := f(x, Name(k));
    var r := ReduceObject(es, f);
    assert ReduceObject(es[..0], f) == ([], []);
    assert r.1 == [] + st.errors == st.errors;
    if st.data.Some? {
      assert SetKey([], k, st.data.value) == [(k, st.data.value)];
    }
  }

  /** On an object with distinct keys, the result holds under each key
      exactly the callback's `data` for that entry, and nothing under any
      other key. */
  lemma ObjectReducerLookup(kvs: seq<(string, Value)>, f: (Value, PathElem) --> Step, k: string)
    requires UniqueKeys(kvs)
    requires Callable(Entries(VObj(kvs)), f)
    ensures Lookup(kvs, k).None? ==> Lookup(DataReducerSync(VObj(kvs), f).data.fields, k).None?
    ensures forall i :: 0 <= i < |kvs| && kvs[i].0 == k ==>
      Lookup(DataReducerSync(VObj(kvs), f).data.fields, k) == f(kvs[i].1, Name(k)).data
  {
    var entries := Entries(VObj(kvs));
    forall i | 0 <= i < |entries|
      ensures entries[i] == (Name(kvs[i].0), kvs[i].1) && ElemToString(entries[i].0) == kvs[i].0
    {
    }
    ReduceObjectKeyData(entries, f, k);
    KeyDataUnique(entries, f, k);
    assert DataReducerSync(VObj(kvs), f).data.fields == ReduceObject(entries, f).0;
    forall i | 0 <= i < |kvs| && kvs[i].0 == k
      ensures Lookup(DataReducerSync(VObj(kvs), f).data.fields, k) == f(kvs[i].1, Name(k)).data
    {
      assert entries[i] == (Name(k), kvs[i].1);
    }
  }

  /** `_.flatten` one level: array items are spliced, others kept. */
  function Flatten1(xs: seq<Value>): seq<Value> {
    if |xs| == 0 then [] else ConcatValue(Flatten1(xs[..|xs| - 1]), xs[|xs| - 1])
  }

  function EntryValues(entries: seq<(PathElem, Value)>): (r: seq<Value>)
    ensures |r| == |entries|
    ensures forall i :: 0 <= i < |entries| ==> r[i] == entries[i].1
  {
    if |entries| == 0 then [] else EntryValues(entries[..|entries| - 1]) + [entries[|entries| - 1].1]
  }

  lemma {:induction false} ReduceArrayIdentity(entries: seq<(PathElem, Value)>, f: (Value, PathElem) --> Step)
    requires Callable(entries, f)
    requires forall i :: 0 <= i < |entries| ==> f(entries[i].1, entries[i].0) == Step(Some(entries[i].1), [])
    ensures ReduceArray(entries, f) == (Flatten1(EntryValues(entries)), [])
  {
    if |entries| > 0 {
      var init := entries[..|entries| - 1];
      var last := entries[|entries| - 1];
      ReduceArrayIdentity(init, f);
      assert f(last.1, last.0) == Step(Some(last.1), []);
      assert ReduceArray(entries, f) == (ConcatValue(ReduceArray(init, f).0, last.1), ReduceArray(init, f).1 + []);
      assert EntryValues(entries)[..|entries| - 1] == EntryValues(init);
      assert Flatten1(EntryValues(entries))
          == ConcatValue(Flatten1(EntryValues(init)), entries[|entries| - 1].1);
      assert ReduceArray(entries, f).0 == Flatten1(EntryValues(entries));
      assert ReduceArray(entries, f).1 == [];
    }
  }

  /** A callback that returns every item unchanged flattens an array one
      level: the reducer is `concat`, not `push`. */
  lemma ArrayReducerFlattens(xs: seq<Value>, f: (Value, PathElem) --> Step)
    requires forall i :: 0 <= i < |xs| ==> f.requires(xs[i], Index(i)) && f(xs[i], Index(i)) == Step(Some(xs[i]), [])
    ensures Callable(Entries(VArr(xs)), f)
    ensures DataReducerSync(VArr(xs), f) == Reduced(VArr(Flatten1(xs)), [])
  {
    var entries := Entries(VArr(xs));
    ReduceArrayIdentity(entries, f);
    assert EntryValues(entries) == xs;
  }

  /** The `data` of the steps that carry one, in order; steps without
      `data` contribute nothing. */
  function PresentData(steps: seq<Step>): (r: seq<Value>)
    ensures |r| <= |steps|
  {
    if |steps| == 0 then []
    else
      var last := steps[|steps| - 1];
      PresentData(steps[..|steps| - 1]) + (if last.data.Some? then [last.data.value] else [])
  }

  /** The array accumulator, for any callback: the present results in entry
      order, each array result spliced one level; results without `data`
      are dropped. */
  lemma {:induction false} ReduceArrayData(entries: seq<(PathElem, Value)>, f: (Value, PathElem) --> Step)
    requires Callable(entries, f)
    ensures ReduceArray(entries, f).0 == Flatten1(PresentData(Steps(entries, f)))
  {
    if |entries| > 0 {
      var n := |entries| - 1;
      var init := entries[..n];
      ReduceArrayData(init, f);
      var steps := Steps(entries, f);
      assert steps[..n] == Steps(init, f);
      var pre := PresentData(steps[..n]);
      var st := steps[n];
      if st.data.Some? {
        assert PresentData(steps) == pre + [st.data.value];
        assert (pre + [st.data.value])[..|pre|] == pre;
      } else {
        assert PresentData(steps) == pre + [];
        assert pre + [] == pre;
      }
    }
  }

  /** `dataReducerSync` on an array: the data is the flattened present
      callback results, and the errors the callback errors, both in item
      order. */
  lemma DataReducerArray(xs: seq<Value>, f: (Value, PathElem) --> Step)
    requires Callable(Entries(VArr(xs)), f)
    ensures DataReducerSync(VArr(xs), f).data == VArr(Flatten1(PresentData(Steps(Entries(VArr(xs)), f))))
    ensures DataReducerSync(VArr(xs), f).errors == AllErrors(Steps(Entries(VArr(xs)), f))
  {
    ReduceArrayData(Entries(VArr(xs)), f);
    ReduceArrayErrors(Entries(VArr(xs)), f);
  }

  lemma {:induction false} Flatten1Flat(xs: seq<Value>)
    requires forall i :: 0 <= i < |xs| ==> !xs[i].VArr?
    ensures Flatten1(xs) == xs
  {
    if |xs| > 0 {
      Flatten1Flat(xs[..|xs| - 1]);
    }
  }
}
