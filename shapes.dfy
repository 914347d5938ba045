/** The values the flat descriptors of the table accept, stated without the
    matcher: lists and tuples of strings, string dicts, and the lists the
    list normalisers produce. */
module Shapes {
  import opened Values
  import opened Descriptors
  import opened Matcher
  import TableLaws

  /** The element loop of a list or tuple, when no element check raises, is
      true iff every element matches. */
  lemma {:induction false} AllItemsOk(known: seq<Desc>, v: Value, allowed: seq<Item>, i: nat)
    requires (v.VList? || v.VTuple?) && i <= |v.items|
    requires forall j :: i <= j < |v.items| ==> AnyConforms(known, v.items[j], allowed, 0).Ok?
    ensures AllItems(known, v, allowed, i) ==
      Ok(forall j :: i <= j < |v.items| ==> AnyConforms(known, v.items[j], allowed, 0).value)
    decreases |v.items| - i
  {
    if i < |v.items| {
      AllItemsOk(known, v, allowed, i + 1);
    }
  }

  /** The same for the values of a dict. */
  lemma {:induction false} AllValuesOk(known: seq<Desc>, v: Value, allowed: seq<Item>, i: nat)
    requires v.VDict? && i <= |v.entries|
    requires forall j :: i <= j < |v.entries| ==> AnyConforms(known, v.entries[j].1, allowed, 0).Ok?
    ensures AllValues(known, v, allowed, i) ==
      Ok(forall j :: i <= j < |v.entries| ==> AnyConforms(known, v.entries[j].1, allowed, 0).value)
    decreases |v.entries| - i
  {
    if i < |v.entries| {
      AllValuesOk(known, v, allowed, i + 1);
    }
  }

  /** The same for the keys of a dict. */
  lemma {:induction false} AllKeysOk(known: seq<Desc>, v: Value, allowed: seq<Item>, i: nat)
    requires v.VDict? && i <= |v.entries|
    requires forall j :: i <= j < |v.entries| ==> AnyConforms(known, v.entries[j].0, allowed, 0).Ok?
    ensures AllKeys(known, v, allowed, i) ==
      Ok(forall j :: i <= j < |v.entries| ==> AnyConforms(known, v.entries[j].0, allowed, 0).value)
    decreases |v.entries| - i
  {
    if i < |v.entries| {
      AllKeysOk(known, v, allowed, i + 1);
    }
  }

  /** A registered list or tuple descriptor with a single flat elem_types
      requirement accepts exactly the values of its parent type whose
      elements each match an allowed type. */
  lemma FlatList(known: seq<Desc>, v: Value, d: Desc)
    requires d.Comp? && d in known && (d.parent == List || d.parent == Tuple)
    requires |d.reqs| == 1 && d.reqs[0].0 == ElemTypes
    requires IsInstance(v, d.parent) ==>
      forall j :: 0 <= j < |v.items| ==> AnyConforms(known, v.items[j], d.reqs[0].1, 0).Ok?
    ensures Conforms(known, v, d) == Ok(IsInstance(v, d.parent) &&
      forall j :: 0 <= j < |v.items| ==> AnyConforms(known, v.items[j], d.reqs[0].1, 0).value)
  {
    if IsInstance(v, d.parent) {
      var allowed := d.reqs[0].1;
      AllItemsOk(known, v, allowed, 0);
      assert Lookup(d.reqs, ElemTypes) == Some(allowed);
      assert ReqCheck(known, v, d.parent, d.reqs, ElemTypes) == AllItems(known, v, allowed, 0);
      assert ReqsConform(known, v, d.parent, d.reqs, 1) == Ok(true);
      assert Conforms(known, v, d) == ReqsConform(known, v, d.parent, d.reqs, 0);
    }
  }

  /** A registered dict descriptor with flat elem_types and key_types
      accepts exactly the dicts whose values and keys each match. */
  lemma FlatDict(known: seq<Desc>, v: Value, d: Desc)
    requires d.Comp? && d in known && d.parent == Dict
    requires |d.reqs| == 2 && d.reqs[0].0 == ElemTypes && d.reqs[1].0 == KeyTypes
    requires !AllPairs(d.reqs[0].1)
    requires v.VDict? ==> forall j :: 0 <= j < |v.entries| ==> AnyConforms(known, v.entries[j].1, d.reqs[0].1, 0).Ok?
    requires v.VDict? ==> forall j :: 0 <= j < |v.entries| ==> AnyConforms(known, v.entries[j].0, d.reqs[1].1, 0).Ok?
    ensures Conforms(known, v, d) == Ok(v.VDict? &&
      (forall j :: 0 <= j < |v.entries| ==> AnyConforms(known, v.entries[j].1, d.reqs[0].1, 0).value) &&
      (forall j :: 0 <= j < |v.entries| ==> AnyConforms(known, v.entries[j].0, d.reqs[1].1, 0).value))
  {
    if v.VDict? {
      TableLaws.NamesDiffer();
      var reqs := d.reqs;
      assert reqs[1..] == [reqs[1]];
      assert Lookup(reqs, KeyTypes) == Some(reqs[1].1);
      AllValuesOk(known, v, reqs[0].1, 0);
      AllKeysOk(known, v, reqs[1].1, 0);
      assert Lookup(reqs, ElemTypes) == Some(reqs[0].1);
      assert ReqCheck(known, v, Dict, reqs, ElemTypes) == AllValues(known, v, reqs[0].1, 0);
      assert ReqCheck(known, v, Dict, reqs, KeyTypes) == AllKeys(known, v, reqs[1].1, 0);
      assert ReqsConform(known, v, Dict, reqs, 2) == Ok(true);
      assert ReqsConform(known, v, Dict, reqs, 1) == AllKeys(known, v, reqs[1].1, 0);
      assert Conforms(known, v, d) == ReqsConform(known, v, Dict, reqs, 0);
    }
  }

  /** any() over the string type alone is the string test. */
  lemma AnyStr(known: seq<Desc>, y: Value)
    ensures AnyConforms(known, y, Types([PStr]), 0) == Ok(y.VStr?)
  {
    assert Types([PStr]) == [TypeItem(Prim(Str))];
    TableLaws.AnySingle(known, y, Str);
  }

  /** A string or a tuple of strings. */
  predicate StrOrStrTuple(y: Value)
  {
    y.VStr? || (y.VTuple? && AllStrings(y.items))
  }

  /** A dict with string keys and string values. */
  predicate StrDict(y: Value)
  {
    y.VDict? && forall j :: 0 <= j < |y.entries| ==> y.entries[j].0.VStr? && y.entries[j].1.VStr?
  }

  /** A dict with string values and keys that are strings or tuples of strings. */
  predicate StrOrTupleKeyedDict(y: Value)
  {
    y.VDict? && forall j :: 0 <= j < |y.entries| ==> StrOrStrTuple(y.entries[j].0) && y.entries[j].1.VStr?
  }

  /** LIST_OF_STRINGS accepts exactly the lists of strings. */
  lemma ListOfStringsShape(known: seq<Desc>, v: Value)
    requires ListOfStrings in known
    ensures Conforms(known, v, ListOfStrings) == Ok(v.VList? && AllStrings(v.items))
  {
    if v.VList? {
      forall j | 0 <= j < |v.items| { AnyStr(known, v.items[j]); }
    }
    FlatList(known, v, ListOfStrings);
  }

  /** TUPLE_OF_STRINGS accepts exactly the tuples of strings. */
  lemma TupleOfStringsShape(known: seq<Desc>, v: Value)
    requires TupleOfStrings in known
    ensures Conforms(known, v, TupleOfStrings) == Ok(v.VTuple? && AllStrings(v.items))
  {
    if v.VTuple? {
      forall j | 0 <= j < |v.items| { AnyStr(known, v.items[j]); }
    }
    FlatList(known, v, TupleOfStrings);
  }

  /** STRING_DICT accepts exactly the dicts of strings to strings. */
  lemma StringDictShape(known: seq<Desc>, v: Value)
    requires StringDict in known
    ensures Conforms(known, v, StringDict) == Ok(StrDict(v))
  {
    assert StringDict.reqs[0].1 == Types([PStr]) && StringDict.reqs[1].1 == Types([PStr]);
    if v.VDict? {
      forall j | 0 <= j < |v.entries|
        ensures AnyConforms(known, v.entries[j].1, StringDict.reqs[0].1, 0) == Ok(v.entries[j].1.VStr?)
      {
        AnyStr(known, v.entries[j].1);
      }
      forall j | 0 <= j < |v.entries|
        ensures AnyConforms(known, v.entries[j].0, StringDict.reqs[1].1, 0) == Ok(v.entries[j].0.VStr?)
      {
        AnyStr(known, v.entries[j].0);
      }
    }
    assert !IsPair(StringDict.reqs[0].1[0]);
    FlatDict(known, v, StringDict);
  }

  /** any() over a string or TUPLE_OF_STRINGS. */
  lemma AnyStrOrTuple(known: seq<Desc>, y: Value)
    requires TupleOfStrings in known
    ensures AnyConforms(known, y, Types([PStr, TupleOfStrings]), 0) == Ok(StrOrStrTuple(y))
  {
    var a := Types([PStr, TupleOfStrings]);
    TupleOfStringsShape(known, y);
    assert ItemConforms(known, y, a[0]) == Ok(y.VStr?);
    assert ItemConforms(known, y, a[1]) == Ok(y.VTuple? && AllStrings(y.items));
    assert AnyConforms(known, y, a, 2) == Ok(false);
  }

  /** STRING_OR_TUPLE_DICT accepts exactly the dicts with string values and
      string or tuple-of-string keys. */
  lemma StringOrTupleDictShape(known: seq<Desc>, v: Value)
    requires StringOrTupleDict in known && TupleOfStrings in known
    ensures Conforms(known, v, StringOrTupleDict) == Ok(StrOrTupleKeyedDict(v))
  {
    assert StringOrTupleDict.reqs[0].1 == Types([PStr]);
    assert StringOrTupleDict.reqs[1].1 == Types([PStr, TupleOfStrings]);
    if v.VDict? {
      forall j | 0 <= j < |v.entries|
        ensures AnyConforms(known, v.entries[j].1, StringOrTupleDict.reqs[0].1, 0) == Ok(v.entries[j].1.VStr?)
      {
        AnyStr(known, v.entries[j].1);
      }
      forall j | 0 <= j < |v.entries|
        ensures AnyConforms(known, v.entries[j].0, StringOrTupleDict.reqs[1].1, 0) == Ok(StrOrStrTuple(v.entries[j].0))
      {
        AnyStrOrTuple(known, v.entries[j].0);
      }
    }
    assert !IsPair(StringOrTupleDict.reqs[0].1[0]);
    FlatDict(known, v, StringOrTupleDict);
  }

  /** STRING_OR_TUPLE_LIST accepts exactly the lists of strings and tuples
      of strings. */
  lemma StringOrTupleListShape(known: seq<Desc>, v: Value)
    requires StringOrTupleList in known && TupleOfStrings in known
    ensures Conforms(known, v, StringOrTupleList) ==
      Ok(v.VList? && forall j :: 0 <= j < |v.items| ==> StrOrStrTuple(v.items[j]))
  {
    if v.VList? {
      forall j | 0 <= j < |v.items| { AnyStrOrTuple(known, v.items[j]); }
    }
    FlatList(known, v, StringOrTupleList);
  }

  /** any() over a string, TUPLE_OF_STRINGS or STRING_DICT. */
  lemma AnyStrTupleOrDict(known: seq<Desc>, y: Value)
    requires TupleOfStrings in known && StringDict in known
    ensures AnyConforms(known, y, Types([PStr, TupleOfStrings, StringDict]), 0) == Ok(StrOrStrTuple(y) || StrDict(y))
  {
    var a := Types([PStr, TupleOfStrings, StringDict]);
    TupleOfStringsShape(known, y);
    StringDictShape(known, y);
    assert ItemConforms(known, y, a[0]) == Ok(y.VStr?);
    assert ItemConforms(known, y, a[1]) == Ok(y.VTuple? && AllStrings(y.items));
    assert ItemConforms(known, y, a[2]) == Ok(StrDict(y));
    assert AnyConforms(known, y, a, 3) == Ok(false);
    assert AnyConforms(known, y, a, 2) == Ok(StrDict(y));
    assert AnyConforms(known, y, a, 1) == Ok((y.VTuple? && AllStrings(y.items)) || StrDict(y));
  }

  /** STRING_OR_TUPLE_OR_DICT_LIST accepts exactly the lists of strings,
      tuples of strings and string dicts. */
  lemma StringOrTupleOrDictListShape(known: seq<Desc>, v: Value)
    requires StringOrTupleOrDictList in known && TupleOfStrings in known && StringDict in known
    ensures Conforms(known, v, StringOrTupleOrDictList) ==
      Ok(v.VList? && forall j :: 0 <= j < |v.items| ==> StrOrStrTuple(v.items[j]) || StrDict(v.items[j]))
  {
    if v.VList? {
      forall j | 0 <= j < |v.items| { AnyStrTupleOrDict(known, v.items[j]); }
    }
    FlatList(known, v, StringOrTupleOrDictList);
  }

  /** any() over a string, TUPLE_OF_STRINGS or STRING_OR_TUPLE_DICT. */
  lemma AnySanityElement(known: seq<Desc>, y: Value)
    requires TupleOfStrings in known && StringOrTupleDict in known
    ensures AnyConforms(known, y, Types([PStr, TupleOfStrings, StringOrTupleDict]), 0) ==
      Ok(StrOrStrTuple(y) || StrOrTupleKeyedDict(y))
  {
    var a := Types([PStr, TupleOfStrings, StringOrTupleDict]);
    TupleOfStringsShape(known, y);
    StringOrTupleDictShape(known, y);
    assert ItemConforms(known, y, a[0]) == Ok(y.VStr?);
    assert ItemConforms(known, y, a[1]) == Ok(y.VTuple? && AllStrings(y.items));
    assert ItemConforms(known, y, a[2]) == Ok(StrOrTupleKeyedDict(y));
    assert AnyConforms(known, y, a, 3) == Ok(false);
    assert AnyConforms(known, y, a, 2) == Ok(StrOrTupleKeyedDict(y));
    assert AnyConforms(known, y, a, 1) == Ok((y.VTuple? && AllStrings(y.items)) || StrOrTupleKeyedDict(y));
  }

  /** SANITY_CHECK_PATHS_ENTRY accepts exactly the lists of strings, tuples
      of strings and dicts with string values. */
  lemma SanityCheckPathsEntryShape(known: seq<Desc>, v: Value)
    requires SanityCheckPathsEntry in known && TupleOfStrings in known && StringOrTupleDict in known
    ensures Conforms(known, v, SanityCheckPathsEntry) ==
      Ok(v.VList? && forall j :: 0 <= j < |v.items| ==> StrOrStrTuple(v.items[j]) || StrOrTupleKeyedDict(v.items[j]))
  {
    if v.VList? {
      forall j | 0 <= j < |v.items| { AnySanityElement(known, v.items[j]); }
    }
    FlatList(known, v, SanityCheckPathsEntry);
  }
}
