/** to_sanity_check_paths_entry and to_sanity_check_paths_dict: the
    normalisers of sanity_check_paths. The entry normaliser turns inner
    lists into tuples, also inside the dict elements, which it changes in
    place; the methods return the dicts as they are left. */
module Sanity {
  import opened Values
  import opened Descriptors
  import opened Matcher
  import opened Lists
  import Shapes
  import TableLaws

  /** One (key, value) pair of a dict element: the key must be a string; a
      list value becomes a tuple; a value other than a string or tuple raises. */
  function PairValue(k: Value, v: Value): Outcome<Value>
  {
    if !k.VStr? then Fail(NonStringKey)
    else if v.VList? then Ok(VTuple(v.items))
    else if !(v.VStr? || v.VTuple?) then Fail(BadElement)
    else Ok(v)
  }

  /** The loop over the pairs of a dict element; the first bad pair raises. */
  function ConvertPairs(es: seq<(Value, Value)>): Outcome<seq<(Value, Value)>>
    decreases |es|
  {
    if es == [] then Ok([])
    else
      var init :- ConvertPairs(es[..|es| - 1]);
      var x :- PairValue(es[|es| - 1].0, es[|es| - 1].1);
      Ok(init + [(es[|es| - 1].0, x)])
  }

  /** One element of a sanity check paths entry. */
  function SanityElem(e: Value): Outcome<Value>
  {
    if e.VStr? || e.VTuple? then Ok(e)
    else if e.VList? then Ok(VTuple(e.items))
    else if e.VDict? then
      var es :- ConvertPairs(e.entries);
      Ok(VDict(es))
    else Fail(BadElement)
  }

  /** The loop over the elements; the first bad element raises. */
  function SanityElems(xs: seq<Value>): Outcome<seq<Value>>
    decreases |xs|
  {
    if xs == [] then Ok([])
    else
      var init :- SanityElems(xs[..|xs| - 1]);
      var last :- SanityElem(xs[|xs| - 1]);
      Ok(init + [last])
  }

  /** to_sanity_check_paths_entry. */
  function SanityEntry(spec: Value): Outcome<Value>
  {
    if !(spec.VList? || spec.VTuple?) then Fail(NotAList)
    else
      var ys :- SanityElems(spec.items);
      Ok(VList(ys))
  }

  /** The loop of to_sanity_check_paths_dict over the keys. */
  function SanityPairs(es: seq<(Value, Value)>): Outcome<seq<(Value, Value)>>
    decreases |es|
  {
    if es == [] then Ok([])
    else
      var init :- SanityPairs(es[..|es| - 1]);
      var y :- SanityEntry(es[|es| - 1].1);
      Ok(init + [(es[|es| - 1].0, y)])
  }

  /** to_sanity_check_paths_dict. */
  function SanityDict(spec: Value): Outcome<Value>
  {
    if !spec.VDict? then Fail(NotADict)
    else
      var es :- SanityPairs(spec.entries);
      Ok(VDict(es))
  }

  /** A pair the dict loop accepts. */
  predicate PairAllowed(p: (Value, Value))
  {
    p.0.VStr? && (p.1.VStr? || p.1.VTuple? || p.1.VList?)
  }

  /** An element the entry loop accepts. */
  predicate ElemAllowed(e: Value)
  {
    e.VStr? || e.VTuple? || e.VList? ||
    (e.VDict? && forall j :: 0 <= j < |e.entries| ==> PairAllowed(e.entries[j]))
  }

  /** The element an accepted element is replaced by. */
  function ElemConverted(e: Value): Value
  {
    if e.VDict? then VDict(seq(|e.entries|, j requires 0 <= j < |e.entries| => (e.entries[j].0, Converted(e.entries[j].1))))
    else Converted(e)
  }

  /** The dict loop succeeds iff every pair is accepted, and then keeps the
      keys in order and turns each list value into a tuple. */
  lemma {:induction false} ConvertPairsMeaning(es: seq<(Value, Value)>)
    ensures ConvertPairs(es).Ok? <==> forall j :: 0 <= j < |es| ==> PairAllowed(es[j])
    ensures ConvertPairs(es).Ok? ==> (|ConvertPairs(es).value| == |es| &&
      forall j :: 0 <= j < |es| ==> ConvertPairs(es).value[j] == (es[j].0, Converted(es[j].1)))
    decreases |es|
  {
    if es != [] {
      var init := es[..|es| - 1];
      ConvertPairsMeaning(init);
      assert forall j :: 0 <= j < |init| ==> init[j] == es[j];
    }
  }

  lemma {:induction false} PairsPrefixFailure(es: seq<(Value, Value)>, n: nat)
    requires n <= |es| && ConvertPairs(es[..n]).Fail?
    ensures ConvertPairs(es) == ConvertPairs(es[..n])
    decreases |es| - n
  {
    if n < |es| {
      var ys := es[..n + 1];
      assert ys[..|ys| - 1] == es[..n];
      PairsPrefixFailure(es, n + 1);
    } else {
      assert es[..n] == es;
    }
  }

  /** The error of a dict element is the one of its first bad pair: a
      non-string key is reported before anything about its value. */
  lemma FirstBadPair(es: seq<(Value, Value)>, j: nat)
    requires j < |es| && !PairAllowed(es[j])
    requires forall k :: 0 <= k < j ==> PairAllowed(es[k])
    ensures ConvertPairs(es) == Fail(if !es[j].0.VStr? then NonStringKey else BadElement)
  {
    var pre := es[..j];
    assert forall k :: 0 <= k < |pre| ==> pre[k] == es[k];
    ConvertPairsMeaning(pre);
    var ys := es[..j + 1];
    assert ys[..|ys| - 1] == pre && ys[|ys| - 1] == es[j];
    PairsPrefixFailure(es, j + 1);
  }

  lemma {:induction false} ElemsPrefixFailure(xs: seq<Value>, n: nat)
    requires n <= |xs| && SanityElems(xs[..n]).Fail?
    ensures SanityElems(xs) == SanityElems(xs[..n])
    decreases |xs| - n
  {
    if n < |xs| {
      var ys := xs[..n + 1];
      assert ys[..|ys| - 1] == xs[..n];
      ElemsPrefixFailure(xs, n + 1);
    } else {
      assert xs[..n] == xs;
    }
  }

  lemma ElemMeaning(e: Value)
    ensures SanityElem(e).Ok? <==> ElemAllowed(e)
    ensures SanityElem(e).Ok? ==> SanityElem(e).value == ElemConverted(e)
  {
    if e.VDict? {
      ConvertPairsMeaning(e.entries);
    }
  }

  lemma {:induction false} ElemsMeaning(xs: seq<Value>)
    ensures SanityElems(xs).Ok? <==> forall i :: 0 <= i < |xs| ==> ElemAllowed(xs[i])
    ensures SanityElems(xs).Ok? ==> (|SanityElems(xs).value| == |xs| &&
      forall i :: 0 <= i < |xs| ==> SanityElems(xs).value[i] == ElemConverted(xs[i]))
    decreases |xs|
  {
    if xs != [] {
      var init := xs[..|xs| - 1];
      ElemsMeaning(init);
      ElemMeaning(xs[|xs| - 1]);
      assert forall i :: 0 <= i < |init| ==> init[i] == xs[i];
    }
  }

  /** to_sanity_check_paths_entry in terms of its input: it succeeds iff the
      input is a list or tuple of accepted elements, and then keeps the
      length and order, turns each inner list into a tuple and each list
      value of a dict element into a tuple. */
  lemma SanityEntryMeaning(spec: Value)
    ensures SanityEntry(spec).Ok? <==>
      (spec.VList? || spec.VTuple?) && forall i :: 0 <= i < |spec.items| ==> ElemAllowed(spec.items[i])
    ensures !(spec.VList? || spec.VTuple?) ==> SanityEntry(spec) == Fail(NotAList)
    ensures SanityEntry(spec).Ok? ==>
      var r := SanityEntry(spec).value;
      r.VList? && |r.items| == |spec.items| &&
      forall i :: 0 <= i < |spec.items| ==> r.items[i] == ElemConverted(spec.items[i])
  {
    if spec.VList? || spec.VTuple? {
      ElemsMeaning(spec.items);
    }
  }

  /** Normalising a normalised entry changes nothing. */
  lemma SanityEntryIdempotent(spec: Value)
    requires SanityEntry(spec).Ok?
    ensures SanityEntry(SanityEntry(spec).value) == SanityEntry(spec)
  {
    var r := SanityEntry(spec).value;
    SanityEntryMeaning(spec);
    SanityEntryMeaning(r);
    forall i | 0 <= i < |r.items|
      ensures ElemAllowed(r.items[i]) && ElemConverted(r.items[i]) == r.items[i]
    {
      var e := spec.items[i];
      if e.VDict? {
        var p := r.items[i].entries;
        assert forall j :: 0 <= j < |p| ==> p[j] == (e.entries[j].0, Converted(e.entries[j].1));
      }
    }
    assert SanityEntry(r).value.items == r.items;
  }

  /** A dict element whose values are all strings. */
  predicate StringValued(e: Value)
  {
    e.VDict? ==> forall j :: 0 <= j < |e.entries| ==> e.entries[j].1.VStr?
  }

  lemma ConvertedElemShape(e: Value)
    requires ElemAllowed(e)
    ensures Shapes.StrOrStrTuple(ElemConverted(e)) || Shapes.StrOrTupleKeyedDict(ElemConverted(e)) <==>
      ((e.VList? || e.VTuple?) ==> AllStrings(e.items)) && StringValued(e)
  {
    if e.VDict? {
      var c := ElemConverted(e);
      assert forall j :: 0 <= j < |e.entries| ==> c.entries[j].1.VStr? == e.entries[j].1.VStr?;
      assert forall j :: 0 <= j < |e.entries| ==> Shapes.StrOrStrTuple(c.entries[j].0);
    }
  }

  /** The result of to_sanity_check_paths_entry is a SANITY_CHECK_PATHS_ENTRY
      exactly when the inner lists and tuples hold strings and no dict
      element has a list or tuple value: STRING_OR_TUPLE_DICT allows tuples
      only as keys, while the normaliser makes them values. */
  lemma SanityEntryConforms(spec: Value)
    requires SanityEntry(spec).Ok?
    ensures Conforms(CheckableTypes, SanityEntry(spec).value, SanityCheckPathsEntry) ==
      Ok(NestedStrings(spec.items) && forall i :: 0 <= i < |spec.items| ==> StringValued(spec.items[i]))
  {
    var t := CheckableTypes;
    TableLaws.InTable(t);
    var r := SanityEntry(spec).value;
    SanityEntryMeaning(spec);
    Shapes.SanityCheckPathsEntryShape(t, r);
    forall i | 0 <= i < |spec.items|
      ensures Shapes.StrOrStrTuple(r.items[i]) || Shapes.StrOrTupleKeyedDict(r.items[i]) <==>
        ((spec.items[i].VList? || spec.items[i].VTuple?) ==> AllStrings(spec.items[i].items)) && StringValued(spec.items[i])
    {
      ConvertedElemShape(spec.items[i]);
    }
  }

  /** The documented example ['foo', ['bar', 'baz'], {'f42': ['a', 'b']}]
      becomes ['foo', ('bar', 'baz'), {'f42': ('a', 'b')}], for any strings;
      and that result is not a SANITY_CHECK_PATHS_ENTRY. */
  lemma DocumentedExample(a: string, b: string, c: string, k: string, x: string, y: string)
    ensures var spec := VList([VStr(a), VList([VStr(b), VStr(c)]), VDict([(VStr(k), VList([VStr(x), VStr(y)]))])]);
      var res := VList([VStr(a), VTuple([VStr(b), VStr(c)]), VDict([(VStr(k), VTuple([VStr(x), VStr(y)]))])]);
      SanityEntry(spec) == Ok(res) && Conforms(CheckableTypes, res, SanityCheckPathsEntry) == Ok(false)
  {
    var d := VDict([(VStr(k), VList([VStr(x), VStr(y)]))]);
    var spec := VList([VStr(a), VList([VStr(b), VStr(c)]), d]);
    var res := VList([VStr(a), VTuple([VStr(b), VStr(c)]), VDict([(VStr(k), VTuple([VStr(x), VStr(y)]))])]);
    assert PairAllowed(d.entries[0]);
    assert ElemAllowed(spec.items[0]) && ElemAllowed(spec.items[1]) && ElemAllowed(spec.items[2]);
    SanityEntryMeaning(spec);
    assert ElemConverted(d) == res.items[2];
    assert SanityEntry(spec).value.items == res.items;
    SanityEntryConforms(spec);
    assert !StringValued(spec.items[2]);
  }

  /** The in-place change to a dict element: the same keys in the same
      order, and each value kept or, if it was a list, made a tuple. */
  predicate Retupled(before: Value, after: Value)
  {
    if before.VDict? then
      after.VDict? && PairsRetupled(before.entries, after.entries)
    else after == before
  }

  predicate PairsRetupled(before: seq<(Value, Value)>, after: seq<(Value, Value)>)
  {
    |after| == |before| && forall j :: 0 <= j < |before| ==> PairRetupled(before[j], after[j])
  }

  predicate PairRetupled(before: (Value, Value), after: (Value, Value))
  {
    after.0 == before.0 &&
    (after.1 == before.1 || (before.1.VList? && after.1 == VTuple(before.1.items)))
  }

  /** Changing values only keeps the keys distinct. */
  lemma KeysKept(before: seq<(Value, Value)>, after: seq<(Value, Value)>)
    requires DistinctKeys(before) && PairsRetupled(before, after)
    ensures DistinctKeys(after)
  {
  }

  /** A pair that raises makes the whole dict loop raise with its error. */
  lemma PairFails(orig: seq<(Value, Value)>, i: nat)
    requires i < |orig| && ConvertPairs(orig[..i]).Ok?
    requires PairValue(orig[i].0, orig[i].1).Fail?
    ensures ConvertPairs(orig) == Fail(PairValue(orig[i].0, orig[i].1).error)
  {
    var ys := orig[..i + 1];
    assert ys[..|ys| - 1] == orig[..i] && ys[|ys| - 1] == orig[i];
    PairsPrefixFailure(orig, i + 1);
  }

  /** One more pair converted: the loop's prefix grows by one. */
  lemma PairStep(orig: seq<(Value, Value)>, cur: seq<(Value, Value)>, i: nat)
    requires i < |orig| == |cur| && ConvertPairs(orig[..i]) == Ok(cur[..i])
    requires PairValue(orig[i].0, orig[i].1) == Ok(cur[i].1) && cur[i].0 == orig[i].0
    ensures ConvertPairs(orig[..i + 1]) == Ok(cur[..i + 1])
  {
    var ys := orig[..i + 1];
    assert ys[..|ys| - 1] == orig[..i] && ys[|ys| - 1] == orig[i];
    assert cur[..i + 1] == cur[..i] + [cur[i]];
  }

  /** Replacing the list value of pair i by a tuple: `elem[key] = tuple(value)`
      overwrites that pair in place and keeps the change a retupling. */
  lemma ListValueStep(orig: seq<(Value, Value)>, cur: seq<(Value, Value)>, i: nat)
    requires DistinctKeys(orig) && i < |orig| && PairsRetupled(orig, cur)
    requires cur[i] == orig[i] && orig[i].1.VList?
    ensures Put(cur, cur[i].0, VTuple(cur[i].1.items)) == cur[i := (cur[i].0, VTuple(cur[i].1.items))]
    ensures PairsRetupled(orig, cur[i := (cur[i].0, VTuple(cur[i].1.items))])
  {
    KeysKept(orig, cur);
    PutExisting(cur, i, VTuple(cur[i].1.items));
  }

  /** The dict branch of to_sanity_check_paths_entry: updates the pairs of
      elem in place and returns them as left, also when a pair raises. */
  method ConvertDictElem(elem: Value) returns (r: Outcome<Value>, after: Value)
    requires elem.VDict? && DistinctKeys(elem.entries)
    ensures r == SanityElem(elem)
    ensures Retupled(elem, after)
    ensures r.Ok? ==> after == r.value
  {
    var orig := elem.entries;
    var cur := orig;
    var i := 0;
    while i < |orig|
      invariant 0 <= i <= |orig|
      invariant PairsRetupled(orig, cur)
      invariant forall j :: i <= j < |orig| ==> cur[j] == orig[j]
      invariant ConvertPairs(orig[..i]) == Ok(cur[..i])
    {
      var key, value := cur[i].0, cur[i].1;
      assert cur[i] == orig[i];
      if !key.VStr? {
        PairFails(orig, i);
        return Fail(NonStringKey), VDict(cur);
      } else if value.VList? {
        ListValueStep(orig, cur, i);
        cur := Put(cur, key, VTuple(value.items));
      } else if !(value.VStr? || value.VTuple?) {
        PairFails(orig, i);
        return Fail(BadElement), VDict(cur);
      }
      PairStep(orig, cur, i);
      i := i + 1;
    }
    assert orig[..i] == orig && cur[..i] == cur;
    return Ok(VDict(cur)), VDict(cur);
  }

  /** One pass of the element loop of to_sanity_check_paths_entry: the
      converted element, and the element as the caller sees it afterwards. */
  method ConvertElem(elem: Value) returns (c: Outcome<Value>, after: Value)
    requires elem.VDict? ==> DistinctKeys(elem.entries)
    ensures c == SanityElem(elem)
    ensures Retupled(elem, after)
    ensures c.Ok? && elem.VDict? ==> after == c.value
  {
    after := elem;
    if elem.VStr? || elem.VTuple? {
      c := Ok(elem);
    } else if elem.VList? {
      c := Ok(VTuple(elem.items));
    } else if elem.VDict? {
      c, after := ConvertDictElem(elem);
    } else {
      c := Fail(BadElement);
    }
  }

  /** to_sanity_check_paths_entry. Beside the result it returns the
      elements of spec as the caller sees them afterwards: the dict elements
      are changed in place, and on success the result holds those very dicts. */
  method ToSanityCheckPathsEntry(spec: Value) returns (r: Outcome<Value>, elems: seq<Value>)
    requires WellFormed(spec)
    ensures r == SanityEntry(spec)
    ensures (spec.VList? || spec.VTuple?) ==>
      |elems| == |spec.items| && forall i :: 0 <= i < |spec.items| ==> Retupled(spec.items[i], elems[i])
    ensures r.Ok? ==> (r.value.VList? && |r.value.items| == |spec.items| &&
      forall i :: 0 <= i < |spec.items| && spec.items[i].VDict? ==> elems[i] == r.value.items[i])
  {
    if !(spec.VList? || spec.VTuple?) {
      return Fail(NotAList), [];
    }
    var xs := spec.items;
    elems := xs;
    var result: seq<Value> := [];
    var i := 0;
    while i < |xs|
      invariant 0 <= i <= |xs| && |result| == i && |elems| == |xs|
      invariant SanityElems(xs[..i]) == Ok(result)
      invariant forall j :: i <= j < |xs| ==> elems[j] == xs[j]
      invariant forall j :: 0 <= j < |xs| ==> Retupled(xs[j], elems[j])
      invariant forall j :: 0 <= j < i && xs[j].VDict? ==> elems[j] == result[j]
    {
      assert WellFormed(xs[i]);
      var c, changed := ConvertElem(xs[i]);
      elems := elems[i := changed];
      if c.Fail? {
        ElemFails(xs, i);
        return Fail(c.error), elems;
      }
      ElemStep(xs, i, result, c.value);
      result := result + [c.value];
      i := i + 1;
    }
    assert xs[..i] == xs;
    return Ok(VList(result)), elems;
  }

  /** One more element converted: the loop's prefix grows by one. */
  lemma ElemStep(xs: seq<Value>, i: nat, result: seq<Value>, y: Value)
    requires i < |xs| && SanityElems(xs[..i]) == Ok(result) && SanityElem(xs[i]) == Ok(y)
    ensures SanityElems(xs[..i + 1]) == Ok(result + [y])
  {
    var ys := xs[..i + 1];
    assert ys[..|ys| - 1] == xs[..i] && ys[|ys| - 1] == xs[i];
  }

  /** An element that raises makes the whole loop raise with its error. */
  lemma ElemFails(xs: seq<Value>, i: nat)
    requires i < |xs| && SanityElems(xs[..i]).Ok? && SanityElem(xs[i]).Fail?
    ensures SanityElems(xs) == Fail(SanityElem(xs[i]).error)
  {
    var ys := xs[..i + 1];
    assert ys[..|ys| - 1] == xs[..i] && ys[|ys| - 1] == xs[i];
    ElemsPrefixFailure(xs, i + 1);
  }

  lemma {:induction false} SanityPairsPrefixFailure(es: seq<(Value, Value)>, n: nat)
    requires n <= |es| && SanityPairs(es[..n]).Fail?
    ensures SanityPairs(es) == SanityPairs(es[..n])
    decreases |es| - n
  {
    if n < |es| {
      var ys := es[..n + 1];
      assert ys[..|ys| - 1] == es[..n];
      SanityPairsPrefixFailure(es, n + 1);
    } else {
      assert es[..n] == es;
    }
  }

  lemma {:induction false} SanityPairsMeaning(es: seq<(Value, Value)>)
    ensures SanityPairs(es).Ok? <==> forall j :: 0 <= j < |es| ==> SanityEntry(es[j].1).Ok?
    ensures SanityPairs(es).Ok? ==> (|SanityPairs(es).value| == |es| &&
      forall j :: 0 <= j < |es| ==> SanityPairs(es).value[j] == (es[j].0, SanityEntry(es[j].1).value))
    decreases |es|
  {
    if es != [] {
      var init := es[..|es| - 1];
      SanityPairsMeaning(init);
      assert forall j :: 0 <= j < |init| ==> init[j] == es[j];
    }
  }

  /** to_sanity_check_paths_dict in terms of its input: it succeeds iff the
      input is a dict whose every value is a valid entry, and then keeps the
      keys in order with each value normalised. */
  lemma SanityDictMeaning(spec: Value)
    ensures !spec.VDict? ==> SanityDict(spec) == Fail(NotADict)
    ensures SanityDict(spec).Ok? <==>
      spec.VDict? && forall j :: 0 <= j < |spec.entries| ==> SanityEntry(spec.entries[j].1).Ok?
    ensures SanityDict(spec).Ok? ==>
      var r := SanityDict(spec).value;
      r.VDict? && Keys(r.entries) == Keys(spec.entries) &&
      forall j :: 0 <= j < |spec.entries| ==> r.entries[j].1 == SanityEntry(spec.entries[j].1).value
  {
    if spec.VDict? {
      SanityPairsMeaning(spec.entries);
      var r := SanityDict(spec);
      if r.Ok? {
        assert forall j :: 0 <= j < |spec.entries| ==> Keys(r.value.entries)[j] == Keys(spec.entries)[j];
      }
    }
  }

  /** `spec[key]` for the key at position i of a dict. */
  lemma {:induction false} GetAt(entries: seq<(Value, Value)>, i: nat)
    requires DistinctKeys(entries) && i < |entries|
    ensures Get(entries, entries[i].0) == Some(entries[i].1)
  {
    if i > 0 {
      assert entries[0].0 != entries[i].0;
      var rest := entries[1..];
      assert rest[i - 1] == entries[i];
      GetAt(rest, i - 1);
    }
  }

  /** One more key done: the loop's prefix grows by one. */
  lemma SanityPairStep(es: seq<(Value, Value)>, i: nat, res: seq<(Value, Value)>, y: Value)
    requires i < |es| && SanityPairs(es[..i]) == Ok(res) && SanityEntry(es[i].1) == Ok(y)
    ensures SanityPairs(es[..i + 1]) == Ok(res + [(es[i].0, y)])
  {
    var ys := es[..i + 1];
    assert ys[..|ys| - 1] == es[..i] && ys[|ys| - 1] == es[i];
  }

  /** A value that raises makes the whole loop raise with its error. */
  lemma SanityPairFails(es: seq<(Value, Value)>, i: nat)
    requires i < |es| && SanityPairs(es[..i]).Ok? && SanityEntry(es[i].1).Fail?
    ensures SanityPairs(es) == Fail(SanityEntry(es[i].1).error)
  {
    var ys := es[..i + 1];
    assert ys[..|ys| - 1] == es[..i] && ys[|ys| - 1] == es[i];
    SanityPairsPrefixFailure(es, i + 1);
  }

  /** A key of the dict is not among the keys copied before it. */
  lemma FreshKey(es: seq<(Value, Value)>, i: nat, res: seq<(Value, Value)>)
    requires DistinctKeys(es) && i < |es| && |res| == i
    requires forall j :: 0 <= j < i ==> res[j].0 == es[j].0
    ensures es[i].0 !in Keys(res)
  {
  }

  /** One more key of to_sanity_check_paths_dict: `res[key] = value` adds a
      new last pair, and the loop's prefix grows by one. */
  lemma DictStep(es: seq<(Value, Value)>, i: nat, res: seq<(Value, Value)>, y: Value)
    requires DistinctKeys(es) && i < |es| && |res| == i
    requires forall j :: 0 <= j < i ==> res[j].0 == es[j].0
    requires SanityPairs(es[..i]) == Ok(res) && SanityEntry(es[i].1) == Ok(y)
    ensures Put(res, es[i].0, y) == res + [(es[i].0, y)]
    ensures SanityPairs(es[..i + 1]) == Ok(Put(res, es[i].0, y))
  {
    SanityPairStep(es, i, res, y);
    FreshKey(es, i, res);
    PutNew(res, es[i].0, y);
  }

  /** The values of a well-formed dict are well formed. */
  lemma ValueWellFormed(spec: Value, i: nat)
    requires WellFormed(spec) && spec.VDict? && i < |spec.entries|
    ensures WellFormed(spec.entries[i].1)
  {
  }

  /** `to_sanity_check_paths_entry(spec[key])` for the key at position i. */
  method EntryAt(es: seq<(Value, Value)>, i: nat) returns (c: Outcome<Value>)
    requires DistinctKeys(es) && i < |es| && WellFormed(es[i].1)
    ensures c == SanityEntry(es[i].1)
  {
    GetAt(es, i);
    var left;
    c, left := ToSanityCheckPathsEntry(Get(es, es[i].0).value);
  }

  /** to_sanity_check_paths_dict, filling a new dict key by key. */
  method ToSanityCheckPathsDict(spec: Value) returns (r: Outcome<Value>)
    requires WellFormed(spec)
    ensures r == SanityDict(spec)
  {
    if !spec.VDict? {
      return Fail(NotADict);
    }
    var es := spec.entries;
    var res: seq<(Value, Value)> := [];
    var i := 0;
    while i < |es|
      invariant 0 <= i <= |es| && |res| == i
      invariant SanityPairs(es[..i]) == Ok(res)
      invariant forall j :: 0 <= j < i ==> res[j].0 == es[j].0
    {
      var key := es[i].0;
      ValueWellFormed(spec, i);
      var c := EntryAt(es, i);
      if c.Fail? {
        SanityPairFails(es, i);
        return Fail(c.error);
      }
      DictStep(es, i, res, c.value);
      res := Put(res, key, c.value);
      i := i + 1;
    }
    assert es[..i] == es;
    return Ok(VDict(res));
  }
}
