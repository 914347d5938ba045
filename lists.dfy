/** The list normalisers: to_list_of_strings, ensure_iterable_license_specs,
    to_list_of_strings_and_tuples and to_list_of_strings_and_tuples_and_dicts.
    The first two decide on the whole value; the last two run a loop over
    the elements, modelled as methods proved against ConvertAll. */
module Lists {
  import opened Values
  import opened Descriptors
  import opened Matcher
  import Shapes
  import TableLaws

  /** to_list_of_strings: a list of strings as it is, a string as a
      one-element list, a tuple of strings as a list; nothing else. */
  function ToListOfStrings(v: Value): (r: Outcome<Value>)
    ensures r.Ok? <==> v.VStr? || ((v.VList? || v.VTuple?) && AllStrings(v.items))
    ensures r.Fail? ==> r.error == Unsupported
  {
    if v.VList? && AllStrings(v.items) then Ok(v)
    else if v.VStr? then Ok(VList([v]))
    else if v.VTuple? && AllStrings(v.items) then Ok(VList(v.items))
    else Fail(Unsupported)
  }

  /** What to_list_of_strings returns is a LIST_OF_STRINGS value, holding
      the input string or the input's elements in order. */
  lemma ListOfStringsResult(v: Value)
    requires ToListOfStrings(v).Ok?
    ensures Conforms(CheckableTypes, ToListOfStrings(v).value, ListOfStrings) == Ok(true)
    ensures ToListOfStrings(v).value.items == if v.VStr? then [v] else v.items
  {
    var t := CheckableTypes;
    TableLaws.InTableToo(t);
    ListOfStringsResultIn(t, v);
  }

  lemma ListOfStringsResultIn(known: seq<Desc>, v: Value)
    requires ListOfStrings in known && ToListOfStrings(v).Ok?
    ensures Conforms(known, ToListOfStrings(v).value, ListOfStrings) == Ok(true)
    ensures ToListOfStrings(v).value.items == if v.VStr? then [v] else v.items
  {
    Shapes.ListOfStringsShape(known, ToListOfStrings(v).value);
  }

  /** A value is left untouched exactly when it already is a LIST_OF_STRINGS. */
  lemma ListOfStringsFixedPoint(v: Value)
    ensures ToListOfStrings(v) == Ok(v) <==> Conforms(CheckableTypes, v, ListOfStrings) == Ok(true)
  {
    var t := CheckableTypes;
    TableLaws.InTableToo(t);
    Shapes.ListOfStringsShape(t, v);
  }

  /** Converting a converted value changes nothing. */
  lemma {:induction false} ListOfStringsIdempotent(v: Value)
    requires ToListOfStrings(v).Ok?
    ensures ToListOfStrings(ToListOfStrings(v).value) == ToListOfStrings(v)
  {
    var r := ToListOfStrings(v).value;
    assert r.VList? && AllStrings(r.items) by { ListOfStringsResult(v); }
  }

  /** ensure_iterable_license_specs: None becomes [None], a string a
      one-element list, a list or tuple of strings a list. */
  function EnsureIterableLicenseSpecs(specs: Value): (r: Outcome<Value>)
    ensures r.Ok? <==> specs.VNone? || specs.VStr? || ((specs.VList? || specs.VTuple?) && AllStrings(specs.items))
    ensures r.Fail? ==> r.error == UnsupportedLicense
  {
    if specs.VNone? then Ok(VList([VNone]))
    else if specs.VStr? then Ok(VList([specs]))
    else if (specs.VList? || specs.VTuple?) && AllStrings(specs.items) then Ok(VList(specs.items))
    else Fail(UnsupportedLicense)
  }

  /** The license specs are always a list one can iterate: [None] for no
      spec, and otherwise a LIST_OF_STRINGS. */
  lemma LicenseSpecsIterable(specs: Value)
    requires EnsureIterableLicenseSpecs(specs).Ok?
    ensures var r := EnsureIterableLicenseSpecs(specs).value;
      if specs.VNone? then r == VList([VNone])
      else Conforms(CheckableTypes, r, ListOfStrings) == Ok(true)
  {
    if !specs.VNone? {
      var t := CheckableTypes;
      TableLaws.InTableToo(t);
      Shapes.ListOfStringsShape(t, EnsureIterableLicenseSpecs(specs).value);
    }
  }

  /** Apart from None and the kind of error, the license specs are
      normalised as to_list_of_strings normalises. */
  lemma LicenseSpecsAgree(specs: Value)
    requires !specs.VNone?
    ensures EnsureIterableLicenseSpecs(specs).Ok? <==> ToListOfStrings(specs).Ok?
    ensures EnsureIterableLicenseSpecs(specs).Ok? ==>
      EnsureIterableLicenseSpecs(specs).value == ToListOfStrings(specs).value
  {
  }

  /** One element of the loop: a string or tuple (or, when dicts are
      allowed, a dict) is kept, a list becomes a tuple. */
  function ConvertElem(e: Value, allowDicts: bool): Outcome<Value>
  {
    if e.VStr? || e.VTuple? || (allowDicts && e.VDict?) then Ok(e)
    else if e.VList? then Ok(VTuple(e.items))
    else Fail(BadElement)
  }

  /** An element the loop accepts. */
  predicate Allowed(e: Value, allowDicts: bool)
  {
    e.VStr? || e.VTuple? || e.VList? || (allowDicts && e.VDict?)
  }

  /** The element a list element is replaced by. */
  function Converted(e: Value): Value
  {
    if e.VList? then VTuple(e.items) else e
  }

  /** The loop over xs, element by element; the first bad element raises. */
  function ConvertAll(xs: seq<Value>, allowDicts: bool): Outcome<seq<Value>>
    decreases |xs|
  {
    if xs == [] then Ok([])
    else
      var init :- ConvertAll(xs[..|xs| - 1], allowDicts);
      var last :- ConvertElem(xs[|xs| - 1], allowDicts);
      Ok(init + [last])
  }

  /** to_list_of_strings_and_tuples (allowDicts false) and
      to_list_of_strings_and_tuples_and_dicts (allowDicts true). */
  function StringsAndTuples(spec: Value, allowDicts: bool): Outcome<Value>
  {
    if !(spec.VList? || spec.VTuple?) then Fail(NotAList)
    else
      var ys :- ConvertAll(spec.items, allowDicts);
      Ok(VList(ys))
  }

  /** The loop succeeds iff every element is allowed, and then replaces each
      element, in place and in order, by its converted form. */
  lemma {:induction false} ConvertAllMeaning(xs: seq<Value>, allowDicts: bool)
    ensures ConvertAll(xs, allowDicts).Ok? <==> forall i :: 0 <= i < |xs| ==> Allowed(xs[i], allowDicts)
    ensures ConvertAll(xs, allowDicts).Fail? ==> ConvertAll(xs, allowDicts).error == BadElement
    ensures ConvertAll(xs, allowDicts).Ok? ==>
      |ConvertAll(xs, allowDicts).value| == |xs| &&
      forall i :: 0 <= i < |xs| ==> ConvertAll(xs, allowDicts).value[i] == Converted(xs[i])
    decreases |xs|
  {
    if xs != [] {
      var init := xs[..|xs| - 1];
      ConvertAllMeaning(init, allowDicts);
      assert forall i :: 0 <= i < |init| ==> init[i] == xs[i];
    }
  }

  /** Once a prefix of the elements fails, the whole loop fails the same way. */
  lemma {:induction false} PrefixFailure(xs: seq<Value>, n: nat, allowDicts: bool)
    requires n <= |xs| && ConvertAll(xs[..n], allowDicts).Fail?
    ensures ConvertAll(xs, allowDicts) == ConvertAll(xs[..n], allowDicts)
    decreases |xs| - n
  {
    if n < |xs| {
      var ys := xs[..n + 1];
      assert ys[..|ys| - 1] == xs[..n];
      PrefixFailure(xs, n + 1, allowDicts);
    } else {
      assert xs[..n] == xs;
    }
  }

  /** The normaliser's result in terms of its input: a list (even for a
      tuple input) of the converted elements, or an error naming why. */
  lemma StringsAndTuplesMeaning(spec: Value, allowDicts: bool)
    ensures StringsAndTuples(spec, allowDicts).Ok? <==>
      (spec.VList? || spec.VTuple?) && forall i :: 0 <= i < |spec.items| ==> Allowed(spec.items[i], allowDicts)
    ensures !(spec.VList? || spec.VTuple?) ==> StringsAndTuples(spec, allowDicts) == Fail(NotAList)
    ensures (spec.VList? || spec.VTuple?) && StringsAndTuples(spec, allowDicts).Fail? ==>
      StringsAndTuples(spec, allowDicts) == Fail(BadElement)
    ensures StringsAndTuples(spec, allowDicts).Ok? ==>
      var r := StringsAndTuples(spec, allowDicts).value;
      r.VList? && |r.items| == |spec.items| &&
      forall i :: 0 <= i < |spec.items| ==> r.items[i] == Converted(spec.items[i])
  {
    if spec.VList? || spec.VTuple? {
      ConvertAllMeaning(spec.items, allowDicts);
    }
  }

  /** Normalising a normalised list changes nothing. */
  lemma StringsAndTuplesIdempotent(spec: Value, allowDicts: bool)
    requires StringsAndTuples(spec, allowDicts).Ok?
    ensures StringsAndTuples(StringsAndTuples(spec, allowDicts).value, allowDicts) == StringsAndTuples(spec, allowDicts)
  {
    var r := StringsAndTuples(spec, allowDicts).value;
    StringsAndTuplesMeaning(spec, allowDicts);
    ConvertAllMeaning(r.items, allowDicts);
    assert r.items == r.items;
    assert ConvertAll(r.items, allowDicts).value == r.items;
  }

  /** Every tuple and list element holds only strings. */
  predicate NestedStrings(xs: seq<Value>)
  {
    forall i :: 0 <= i < |xs| ==> (xs[i].VList? || xs[i].VTuple?) ==> AllStrings(xs[i].items)
  }

  /** The result of to_list_of_strings_and_tuples is a STRING_OR_TUPLE_LIST
      exactly when the inner lists and tuples hold only strings. */
  lemma StringsAndTuplesConforms(spec: Value)
    requires StringsAndTuples(spec, false).Ok?
    ensures Conforms(CheckableTypes, StringsAndTuples(spec, false).value, StringOrTupleList) ==
      Ok(NestedStrings(spec.items))
  {
    var t := CheckableTypes;
    TableLaws.InTable(t);
    TableLaws.InTableToo(t);
    var r := StringsAndTuples(spec, false).value;
    StringsAndTuplesMeaning(spec, false);
    Shapes.StringOrTupleListShape(t, r);
    assert (forall j :: 0 <= j < |r.items| ==> Shapes.StrOrStrTuple(r.items[j])) <==> NestedStrings(spec.items);
  }

  /** Every dict element is a dict of strings to strings. */
  predicate StringDicts(xs: seq<Value>)
  {
    forall i :: 0 <= i < |xs| ==> xs[i].VDict? ==> Shapes.StrDict(xs[i])
  }

  /** The result of to_list_of_strings_and_tuples_and_dicts is a
      STRING_OR_TUPLE_OR_DICT_LIST exactly when the inner lists and tuples
      hold only strings and the dicts map strings to strings. */
  lemma StringsTuplesDictsConforms(spec: Value)
    requires StringsAndTuples(spec, true).Ok?
    ensures Conforms(CheckableTypes, StringsAndTuples(spec, true).value, StringOrTupleOrDictList) ==
      Ok(NestedStrings(spec.items) && StringDicts(spec.items))
  {
    var t := CheckableTypes;
    TableLaws.InTable(t);
    TableLaws.InTableToo(t);
    var r := StringsAndTuples(spec, true).value;
    StringsAndTuplesMeaning(spec, true);
    Shapes.StringOrTupleOrDictListShape(t, r);
    ConvertedDictsShape(spec.items, r.items);
  }

  /** The converted elements are strings, string tuples or string dicts
      exactly when the inputs' lists and tuples hold strings and their dicts
      map strings to strings. */
  lemma ConvertedDictsShape(xs: seq<Value>, ys: seq<Value>)
    requires |ys| == |xs| && forall i :: 0 <= i < |xs| ==> ys[i] == Converted(xs[i]) && Allowed(xs[i], true)
    ensures (forall j :: 0 <= j < |ys| ==> Shapes.StrOrStrTuple(ys[j]) || Shapes.StrDict(ys[j])) <==>
      NestedStrings(xs) && StringDicts(xs)
  {
    if forall j :: 0 <= j < |ys| ==> Shapes.StrOrStrTuple(ys[j]) || Shapes.StrDict(ys[j]) {
      forall i | 0 <= i < |xs|
        ensures ((xs[i].VList? || xs[i].VTuple?) ==> AllStrings(xs[i].items)) && (xs[i].VDict? ==> Shapes.StrDict(xs[i]))
      {
        assert Shapes.StrOrStrTuple(ys[i]) || Shapes.StrDict(ys[i]);
      }
    }
    if NestedStrings(xs) && StringDicts(xs) {
      forall j | 0 <= j < |ys|
        ensures Shapes.StrOrStrTuple(ys[j]) || Shapes.StrDict(ys[j])
      {
        assert Allowed(xs[j], true);
      }
    }
  }

  /** The documented example: ['foo', ['bar', 'baz']] becomes
      ['foo', ('bar', 'baz')], for any three strings. */
  lemma StringsAndTuplesExample(a: string, b: string, c: string, allowDicts: bool)
    ensures StringsAndTuples(VList([VStr(a), VList([VStr(b), VStr(c)])]), allowDicts) ==
      Ok(VList([VStr(a), VTuple([VStr(b), VStr(c)])]))
  {
    var xs := [VStr(a), VList([VStr(b), VStr(c)])];
    ConvertAllMeaning(xs, allowDicts);
    assert Allowed(xs[0], allowDicts) && Allowed(xs[1], allowDicts);
    assert ConvertAll(xs, allowDicts).value == [VStr(a), VTuple([VStr(b), VStr(c)])];
  }

  /** to_list_of_strings_and_tuples. */
  method ToListOfStringsAndTuples(spec: Value) returns (r: Outcome<Value>)
    ensures r == StringsAndTuples(spec, false)
  {
    if !(spec.VList? || spec.VTuple?) {
      return Fail(NotAList);
    }
    var xs := spec.items;
    var res: seq<Value> := [];
    var i := 0;
    while i < |xs|
      invariant 0 <= i <= |xs|
      invariant ConvertAll(xs[..i], false) == Ok(res)
    {
      var elem := xs[i];
      assert xs[..i + 1][..i] == xs[..i];
      if elem.VStr? || elem.VTuple? {
        res := res + [elem];
      } else if elem.VList? {
        res := res + [VTuple(elem.items)];
      } else {
        PrefixFailure(xs, i + 1, false);
        return Fail(BadElement);
      }
      i := i + 1;
    }
    assert xs[..i] == xs;
    return Ok(VList(res));
  }

  /** to_list_of_strings_and_tuples_and_dicts. */
  method ToListOfStringsAndTuplesAndDicts(spec: Value) returns (r: Outcome<Value>)
    ensures r == StringsAndTuples(spec, true)
  {
    if !(spec.VList? || spec.VTuple?) {
      return Fail(NotAList);
    }
    var xs := spec.items;
    var res: seq<Value> := [];
    var i := 0;
    while i < |xs|
      invariant 0 <= i <= |xs|
      invariant ConvertAll(xs[..i], true) == Ok(res)
    {
      var elem := xs[i];
      assert xs[..i + 1][..i] == xs[..i];
      if elem.VStr? || elem.VTuple? || elem.VDict? {
        res := res + [elem];
      } else if elem.VList? {
        res := res + [VTuple(elem.items)];
      } else {
        PrefixFailure(xs, i + 1, true);
        return Fail(BadElement);
      }
      i := i + 1;
    }
    assert xs[..i] == xs;
    return Ok(VList(res));
  }
}
