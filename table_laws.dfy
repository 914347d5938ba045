/** The fixed descriptor table is well formed, so checking a value against
    any of its descriptors never raises; and TOOLCHAIN_DICT accepts exactly
    the name/version(/hidden) dicts. */
module TableLaws {
  import opened Values
  import opened Descriptors
  import opened Matcher
  import MatcherLaws

  /** A checkable type: an easy type or a registered composite one. */
  predicate TypeOk(known: seq<Desc>, it: Item)
  {
    it.TypeItem? && (it.t.Prim? || it.t in known)
  }

  predicate TypesOk(known: seq<Desc>, items: seq<Item>)
  {
    forall j :: 0 <= j < |items| ==> TypeOk(known, items[j])
  }

  /** A per-key rule whose allowed types are all checkable. */
  predicate RulesOk(known: seq<Desc>, items: seq<Item>)
  {
    forall j :: 0 <= j < |items| ==> items[j].RuleItem? && TypesOk(known, items[j].allowed)
  }

  /** A requirement that its checker can evaluate without raising. */
  predicate ReqOk(known: seq<Desc>, parent: Kind, reqs: seq<(string, seq<Item>)>, name: string)
  {
    if name == ElemTypes then
      && (parent == List || parent == Tuple || parent == Dict)
      && Lookup(reqs, ElemTypes).Some?
      && (TypesOk(known, Lookup(reqs, ElemTypes).value)
          || (parent == Dict && RulesOk(known, Lookup(reqs, ElemTypes).value)))
    else if parent == Dict && name == KeyTypes then
      Lookup(reqs, KeyTypes).Some? && TypesOk(known, Lookup(reqs, KeyTypes).value)
    else if parent == Dict && name == OptKeys then
      Lookup(reqs, OptKeys).Some? && Lookup(reqs, ReqKeys).Some?
    else if parent == Dict && name == ReqKeys then
      Lookup(reqs, ReqKeys).Some?
    else false
  }

  predicate CompOk(known: seq<Desc>, d: Desc)
  {
    d.Comp? && forall i :: 0 <= i < |d.reqs| ==> ReqOk(known, d.parent, d.reqs, d.reqs[i].0)
  }

  /** Every registered descriptor is composite and all its requirements are
      checkable against the registry itself. */
  predicate WellFormedRegistry(known: seq<Desc>)
  {
    forall m :: 0 <= m < |known| ==> CompOk(known, known[m])
  }

  /** With a well-formed registry, checking against an easy or registered
      type never raises. */
  lemma {:induction false} ConformsTotal(known: seq<Desc>, v: Value, d: Desc)
    requires WellFormedRegistry(known) && (d.Prim? || d in known)
    ensures Conforms(known, v, d).Ok?
    decreases v, 5, 0
  {
    if d.Comp? && IsInstance(v, d.parent) {
      var m :| 0 <= m < |known| && known[m] == d;
      assert CompOk(known, d);
      ReqsTotal(known, v, d, 0);
    }
  }

  lemma {:induction false} ReqsTotal(known: seq<Desc>, v: Value, d: Desc, i: nat)
    requires WellFormedRegistry(known) && CompOk(known, d) && IsInstance(v, d.parent) && i <= |d.reqs|
    ensures ReqsConform(known, v, d.parent, d.reqs, i).Ok?
    decreases v, 4, |d.reqs| - i
  {
    if i < |d.reqs| {
      ReqCheckTotal(known, v, d.parent, d.reqs, d.reqs[i].0);
      ReqsTotal(known, v, d, i + 1);
    }
  }

  lemma {:induction false} ReqCheckTotal(known: seq<Desc>, v: Value, parent: Kind, reqs: seq<(string, seq<Item>)>, name: string)
    requires WellFormedRegistry(known) && ReqOk(known, parent, reqs, name) && IsInstance(v, parent)
    ensures ReqCheck(known, v, parent, reqs, name).Ok?
    decreases v, 3, 0
  {
    if name == ElemTypes {
      ElementTypesTotal(known, v, Lookup(reqs, ElemTypes).value);
    } else if parent == Dict && name == KeyTypes {
      AllKeysTotal(known, v, Lookup(reqs, KeyTypes).value, 0);
    }
  }

  lemma {:induction false} ElementTypesTotal(known: seq<Desc>, v: Value, allowed: seq<Item>)
    requires WellFormedRegistry(known) && (v.VList? || v.VTuple? || v.VDict?)
    requires TypesOk(known, allowed) || (v.VDict? && RulesOk(known, allowed))
    ensures ElementTypes(known, v, allowed).Ok?
    decreases v, 2, 0
  {
    if v.VList? || v.VTuple? {
      AllItemsTotal(known, v, allowed, 0);
    } else if AllPairs(allowed) {
      AllPerKeyTotal(known, v, allowed, 0);
    } else {
      AllValuesTotal(known, v, allowed, 0);
    }
  }

  lemma {:induction false} AllItemsTotal(known: seq<Desc>, v: Value, allowed: seq<Item>, i: nat)
    requires WellFormedRegistry(known) && (v.VList? || v.VTuple?) && i <= |v.items| && TypesOk(known, allowed)
    ensures AllItems(known, v, allowed, i).Ok?
    decreases v, 1, |v.items| - i
  {
    if i < |v.items| {
      AnyTotal(known, v.items[i], allowed, 0);
      AllItemsTotal(known, v, allowed, i + 1);
    }
  }

  lemma {:induction false} AllValuesTotal(known: seq<Desc>, v: Value, allowed: seq<Item>, i: nat)
    requires WellFormedRegistry(known) && v.VDict? && i <= |v.entries| && TypesOk(known, allowed)
    ensures AllValues(known, v, allowed, i).Ok?
    decreases v, 1, |v.entries| - i
  {
    if i < |v.entries| {
      AnyTotal(known, v.entries[i].1, allowed, 0);
      AllValuesTotal(known, v, allowed, i + 1);
    }
  }

  lemma {:induction false} AllPerKeyTotal(known: seq<Desc>, v: Value, allowed: seq<Item>, i: nat)
    requires WellFormedRegistry(known) && v.VDict? && i <= |v.entries|
    requires TypesOk(known, allowed) || RulesOk(known, allowed)
    ensures AllPerKey(known, v, allowed, i).Ok?
    decreases v, 1, |v.entries| - i
  {
    if i < |v.entries| {
      RuleForOk(known, allowed, v.entries[i].0);
      AnyTotal(known, v.entries[i].1, RuleFor(allowed, v.entries[i].0), 0);
      AllPerKeyTotal(known, v, allowed, i + 1);
    }
  }

  lemma {:induction false} AllKeysTotal(known: seq<Desc>, v: Value, allowed: seq<Item>, i: nat)
    requires WellFormedRegistry(known) && v.VDict? && i <= |v.entries| && TypesOk(known, allowed)
    ensures AllKeys(known, v, allowed, i).Ok?
    decreases v, 1, |v.entries| - i
  {
    if i < |v.entries| {
      AnyTotal(known, v.entries[i].0, allowed, 0);
      AllKeysTotal(known, v, allowed, i + 1);
    }
  }

  lemma {:induction false} AnyTotal(known: seq<Desc>, y: Value, allowed: seq<Item>, j: nat)
    requires WellFormedRegistry(known) && j <= |allowed| && TypesOk(known, allowed)
    ensures AnyConforms(known, y, allowed, j).Ok?
    decreases y, 7, |allowed| - j
  {
    if j < |allowed| {
      ConformsTotal(known, y, allowed[j].t);
      AnyTotal(known, y, allowed, j + 1);
    }
  }

  /** The allowed types a per-key rule gives are checkable. */
  lemma {:induction false} RuleForOk(known: seq<Desc>, allowed: seq<Item>, key: Value)
    requires TypesOk(known, allowed) || RulesOk(known, allowed)
    ensures TypesOk(known, RuleFor(allowed, key))
    decreases |allowed|
  {
    if allowed != [] {
      var rest := allowed[1..];
      assert forall j :: 0 <= j < |rest| ==> rest[j] == allowed[j + 1];
      RuleForOk(known, rest, key);
    }
  }

  lemma NamesDiffer()
    ensures ElemTypes != KeyTypes && ElemTypes != OptKeys && ElemTypes != ReqKeys
    ensures KeyTypes != OptKeys && KeyTypes != ReqKeys && OptKeys != ReqKeys
  {
    assert ElemTypes[0] == 'e' && KeyTypes[0] == 'k' && OptKeys[0] == 'o' && ReqKeys[0] == 'r';
  }

  /** A composite descriptor with only a flat elem_types of checkable types. */
  lemma FlatOk(known: seq<Desc>, parent: Kind, items: seq<Item>)
    requires parent == List || parent == Tuple || parent == Dict
    requires TypesOk(known, items)
    ensures CompOk(known, Comp(parent, [(ElemTypes, items)]))
  {
  }

  /** A dict descriptor with flat elem_types and key_types of checkable types. */
  lemma FlatKeyedOk(known: seq<Desc>, elems: seq<Item>, keys: seq<Item>)
    requires TypesOk(known, elems) && TypesOk(known, keys)
    ensures CompOk(known, Comp(Dict, [(ElemTypes, elems), (KeyTypes, keys)]))
  {
    NamesDiffer();
    var reqs := [(ElemTypes, elems), (KeyTypes, keys)];
    assert reqs[1..] == [(KeyTypes, keys)];
    assert Lookup(reqs, KeyTypes) == Some(keys);
  }

  /** A dict descriptor with per-key elem_types, opt_keys and req_keys. */
  lemma PerKeyOk(known: seq<Desc>, rules: seq<Item>, opt: seq<Item>, req: seq<Item>)
    requires RulesOk(known, rules)
    ensures CompOk(known, Comp(Dict, [(ElemTypes, rules), (OptKeys, opt), (ReqKeys, req)]))
  {
    NamesDiffer();
    var reqs := [(ElemTypes, rules), (OptKeys, opt), (ReqKeys, req)];
    assert reqs[1..] == [(OptKeys, opt), (ReqKeys, req)] && reqs[1..][1..] == [(ReqKeys, req)];
    assert Lookup(reqs, OptKeys) == Some(opt);
    assert Lookup(reqs[1..][1..], ReqKeys) == Some(req);
    assert Lookup(reqs[1..], ReqKeys) == Some(req);
    assert Lookup(reqs, ReqKeys) == Some(req);
  }

  lemma ToolchainOk(known: seq<Desc>)
    ensures CompOk(known, ToolchainDict)
  {
    var t := ToolchainRules;
    assert TypesOk(known, t[0].allowed) && TypesOk(known, t[1].allowed) && TypesOk(known, t[2].allowed);
    PerKeyOk(known, t, KeyNames(["hidden"]), KeyNames(["name", "version"]));
  }

  lemma DependencyDictOk(known: seq<Desc>)
    requires ToolchainDict in known
    ensures CompOk(known, DependencyDict)
  {
    var e := DependencyDict.reqs[0].1;
    assert TypesOk(known, e[0].allowed) && TypesOk(known, e[1].allowed) && TypesOk(known, e[2].allowed);
    assert TypesOk(known, e[3].allowed) && TypesOk(known, e[4].allowed) && TypesOk(known, e[5].allowed);
    PerKeyOk(known, e, DependencyDict.reqs[1].1, DependencyDict.reqs[2].1);
  }

  lemma SanityCheckPathsDictOk(known: seq<Desc>)
    requires SanityCheckPathsEntry in known
    ensures CompOk(known, SanityCheckPathsDict)
  {
    var s := SanityCheckPathsDict.reqs[0].1;
    assert TypesOk(known, s[0].allowed) && TypesOk(known, s[1].allowed);
    PerKeyOk(known, s, SanityCheckPathsDict.reqs[1].1, SanityCheckPathsDict.reqs[2].1);
  }

  lemma ChecksumPartsOk(known: seq<Desc>)
    requires ChecksumAndType in known && ChecksumTuple in known && ChecksumList in known
    ensures CompOk(known, ChecksumAndType) && CompOk(known, ChecksumList)
    ensures CompOk(known, ChecksumTuple) && CompOk(known, ChecksumDict)
  {
    FlatOk(known, Tuple, Types([PStr, PInt]));
    FlatOk(known, List, Types([PStr, ChecksumAndType]));
    FlatOk(known, Tuple, Types([PStr, ChecksumAndType]));
    FlatKeyedOk(known, Types([PNone, PStr, ChecksumAndType, ChecksumTuple, ChecksumList]), Types([PStr]));
  }

  lemma ChecksumGroupsOk(known: seq<Desc>)
    requires ChecksumAndType in known && ChecksumDict in known
    requires ChecksumListWDict in known && ChecksumTupleWDict in known
    ensures CompOk(known, ChecksumListWDict) && CompOk(known, ChecksumTupleWDict)
    ensures CompOk(known, Checksums)
  {
    FlatOk(known, List, Types([PStr, ChecksumAndType, ChecksumDict]));
    FlatOk(known, Tuple, Types([PStr, ChecksumAndType, ChecksumDict]));
    FlatOk(known, List, Types([PNone, PStr, ChecksumAndType, ChecksumListWDict, ChecksumTupleWDict, ChecksumDict]));
  }

  lemma StringTypesOk(known: seq<Desc>)
    requires TupleOfStrings in known && StringDict in known && StringOrTupleDict in known
    ensures CompOk(known, ListOfStrings) && CompOk(known, TupleOfStrings)
    ensures CompOk(known, StringDict) && CompOk(known, StringOrTupleDict)
    ensures CompOk(known, StringOrTupleList) && CompOk(known, StringOrTupleOrDictList)
    ensures CompOk(known, SanityCheckPathsEntry)
  {
    FlatOk(known, List, Types([PStr]));
    FlatOk(known, Tuple, Types([PStr]));
    FlatKeyedOk(known, Types([PStr]), Types([PStr]));
    FlatKeyedOk(known, Types([PStr]), Types([PStr, TupleOfStrings]));
    FlatOk(known, List, Types([PStr, TupleOfStrings]));
    FlatOk(known, List, Types([PStr, TupleOfStrings, StringDict]));
    FlatOk(known, List, Types([PStr, TupleOfStrings, StringOrTupleDict]));
  }

  lemma DependenciesOk(known: seq<Desc>)
    requires DependencyDict in known
    ensures CompOk(known, Dependencies)
  {
    FlatOk(known, List, Types([DependencyDict]));
  }

  /** CHECKABLE_TYPES is a well-formed registry. */
  lemma CheckableTypesWellFormed()
    ensures WellFormedRegistry(CheckableTypes)
  {
    var t := CheckableTypes;
    InTable(t);
    ToolchainOk(t);
    DependencyDictOk(t);
    SanityCheckPathsDictOk(t);
    ChecksumPartsOk(t);
    ChecksumGroupsOk(t);
    StringTypesOk(t);
    DependenciesOk(t);
    forall m | 0 <= m < |t| ensures CompOk(t, t[m]) {
      EntryNamed(m);
    }
  }

  /** The registered descriptors the others refer to. */
  lemma InTable(t: seq<Desc>)
    requires t == CheckableTypes
    ensures ChecksumAndType in t && ChecksumList in t && ChecksumTuple in t
    ensures ChecksumListWDict in t && ChecksumTupleWDict in t && ChecksumDict in t
    ensures DependencyDict in t && SanityCheckPathsEntry in t && ToolchainDict in t
    ensures StringDict in t && StringOrTupleDict in t && TupleOfStrings in t
  {
    assert t[0] == ChecksumAndType && t[1] == ChecksumList && t[2] == ChecksumTuple;
    assert t[3] == ChecksumListWDict && t[4] == ChecksumTupleWDict && t[5] == ChecksumDict;
    assert t[8] == DependencyDict && t[11] == SanityCheckPathsEntry && t[16] == ToolchainDict;
    assert t[12] == StringDict && t[14] == StringOrTupleDict && t[17] == TupleOfStrings;
  }

  /** The registered descriptors that parameters are declared with. */
  lemma InTableToo(t: seq<Desc>)
    requires t == CheckableTypes
    ensures Checksums in t && Dependencies in t && ListOfStrings in t
    ensures SanityCheckPathsDict in t && StringOrTupleList in t && StringOrTupleOrDictList in t
  {
    assert t[6] == Checksums && t[7] == Dependencies && t[9] == ListOfStrings;
    assert t[10] == SanityCheckPathsDict && t[13] == StringOrTupleList && t[15] == StringOrTupleOrDictList;
  }

  /** Each position of CHECKABLE_TYPES holds one of the named descriptors. */
  lemma EntryNamed(m: nat)
    requires m < |CheckableTypes|
    ensures CheckableTypes[m] in {ChecksumAndType, ChecksumList, ChecksumTuple, ChecksumListWDict,
      ChecksumTupleWDict, ChecksumDict, Checksums, Dependencies, DependencyDict, ListOfStrings,
      SanityCheckPathsDict, SanityCheckPathsEntry, StringDict, StringOrTupleList,
      StringOrTupleDict, StringOrTupleOrDictList, ToolchainDict, TupleOfStrings}
  {
  }

  /** Checking any value against an easy type or an entry of
      CHECKABLE_TYPES never raises. */
  lemma TableNeverRaises(v: Value, d: Desc)
    requires d.Prim? || d in CheckableTypes
    ensures Conforms(CheckableTypes, v, d).Ok?
  {
    CheckableTypesWellFormed();
    ConformsTotal(CheckableTypes, v, d);
  }

  /** An entry TOOLCHAIN_DICT allows: a string name or version, a bool hidden. */
  predicate ToolchainEntry(e: (Value, Value))
  {
    || (e.0 == VStr("name") && e.1.VStr?)
    || (e.0 == VStr("version") && e.1.VStr?)
    || (e.0 == VStr("hidden") && e.1.VBool?)
  }

  /** A dict with string name and version keys, an optional bool hidden key
      and nothing else. */
  predicate ToolchainShaped(v: Value)
  {
    && v.VDict?
    && (forall i :: 0 <= i < |v.entries| ==> ToolchainEntry(v.entries[i]))
    && VStr("name") in Keys(v.entries)
    && VStr("version") in Keys(v.entries)
  }

  /** is_value_of_type(v, TOOLCHAIN_DICT) is false for every other value and
      never raises. */
  lemma ToolchainDictExactly(v: Value)
    ensures Conforms(CheckableTypes, v, ToolchainDict) == Ok(ToolchainShaped(v))
  {
    InTable(CheckableTypes);
    ToolchainConforms(CheckableTypes, v);
  }

  lemma ToolchainConforms(known: seq<Desc>, v: Value)
    requires ToolchainDict in known
    ensures Conforms(known, v, ToolchainDict) == Ok(ToolchainShaped(v))
  {
    if v.VDict? {
      var reqs := ToolchainDict.reqs;
      assert reqs[0].0 == ElemTypes && reqs[1].0 == OptKeys && reqs[2].0 == ReqKeys;
      ToolchainElems(known, v);
      ToolchainOptKeys(known, v);
      ToolchainReqKeys(known, v);
      var e := forall i :: 0 <= i < |v.entries| ==> ToolchainEntry(v.entries[i]);
      var o := forall i :: 0 <= i < |v.entries| ==>
        v.entries[i].0.VStr? && (v.entries[i].0.s in ["hidden"] || v.entries[i].0.s in ["name", "version"]);
      var q := VStr("name") in Keys(v.entries) && VStr("version") in Keys(v.entries);
      assert e ==> o;
      ThreeReqs(known, v, Dict, reqs, e, o, q);
    }
  }

  /** Three requirements that each check to a truth value: all must hold. */
  lemma ThreeReqs(known: seq<Desc>, v: Value, parent: Kind, reqs: seq<(string, seq<Item>)>, a: bool, b: bool, c: bool)
    requires |reqs| == 3
    requires ReqCheck(known, v, parent, reqs, reqs[0].0) == Ok(a)
    requires ReqCheck(known, v, parent, reqs, reqs[1].0) == Ok(b)
    requires ReqCheck(known, v, parent, reqs, reqs[2].0) == Ok(c)
    ensures ReqsConform(known, v, parent, reqs, 0) == Ok(a && b && c)
  {
    assert ReqsConform(known, v, parent, reqs, 3) == Ok(true);
    ReqStep(known, v, parent, reqs, 2, c, true);
    ReqStep(known, v, parent, reqs, 1, b, c);
    ReqStep(known, v, parent, reqs, 0, a, b && c);
  }

  lemma ReqStep(known: seq<Desc>, v: Value, parent: Kind, reqs: seq<(string, seq<Item>)>, i: nat, c: bool, rest: bool)
    requires i < |reqs|
    requires ReqCheck(known, v, parent, reqs, reqs[i].0) == Ok(c)
    requires ReqsConform(known, v, parent, reqs, i + 1) == Ok(rest)
    ensures ReqsConform(known, v, parent, reqs, i) == Ok(c && rest)
  {
  }

  lemma ToolchainElems(known: seq<Desc>, v: Value)
    requires v.VDict?
    ensures ReqCheck(known, v, Dict, ToolchainDict.reqs, ElemTypes) ==
      Ok(forall i :: 0 <= i < |v.entries| ==> ToolchainEntry(v.entries[i]))
  {
    assert AllPairs(ToolchainRules);
    ToolchainPerKey(known, v, 0);
  }

  lemma ToolchainOptKeys(known: seq<Desc>, v: Value)
    requires v.VDict?
    ensures ReqCheck(known, v, Dict, ToolchainDict.reqs, OptKeys) ==
      Ok(forall i :: 0 <= i < |v.entries| ==>
        v.entries[i].0.VStr? && (v.entries[i].0.s in ["hidden"] || v.entries[i].0.s in ["name", "version"]))
  {
    PerKeyChecks(known, v, ToolchainRules, KeyNames(["hidden"]), KeyNames(["name", "version"]));
    MatcherLaws.OptKeysLaw(v, ["hidden"], ["name", "version"]);
  }

  lemma ToolchainReqKeys(known: seq<Desc>, v: Value)
    requires v.VDict?
    ensures ReqCheck(known, v, Dict, ToolchainDict.reqs, ReqKeys) ==
      Ok(VStr("name") in Keys(v.entries) && VStr("version") in Keys(v.entries))
  {
    var names := ["name", "version"];
    PerKeyChecks(known, v, ToolchainRules, KeyNames(["hidden"]), KeyNames(names));
    MatcherLaws.ReqKeysLaw(v, names);
    assert (forall i :: 0 <= i < |names| ==> VStr(names[i]) in Keys(v.entries)) <==>
      VStr(names[0]) in Keys(v.entries) && VStr(names[1]) in Keys(v.entries);
  }

  /** The key checks of a dict descriptor with per-key elem_types, opt_keys
      and req_keys read the two key lists. */
  lemma PerKeyChecks(known: seq<Desc>, v: Value, rules: seq<Item>, opt: seq<Item>, req: seq<Item>)
    ensures var reqs := [(ElemTypes, rules), (OptKeys, opt), (ReqKeys, req)];
      && ReqCheck(known, v, Dict, reqs, OptKeys) == Ok(CheckKnownKeys(v, opt + req))
      && ReqCheck(known, v, Dict, reqs, ReqKeys) == Ok(CheckRequiredKeys(v, req))
  {
    NamesDiffer();
    var reqs := [(ElemTypes, rules), (OptKeys, opt), (ReqKeys, req)];
    assert reqs[1..] == [(OptKeys, opt), (ReqKeys, req)] && reqs[1..][1..] == [(ReqKeys, req)];
    assert Lookup(reqs, OptKeys) == Some(opt);
    assert Lookup(reqs[1..][1..], ReqKeys) == Some(req);
    assert Lookup(reqs[1..], ReqKeys) == Some(req);
    assert Lookup(reqs, ReqKeys) == Some(req);
  }

  lemma {:induction false} ToolchainPerKey(known: seq<Desc>, v: Value, i: nat)
    requires v.VDict? && i <= |v.entries|
    ensures AllPerKey(known, v, ToolchainRules, i) ==
      Ok(forall k :: i <= k < |v.entries| ==> ToolchainEntry(v.entries[k]))
    decreases |v.entries| - i
  {
    if i < |v.entries| {
      ToolchainPerKey(known, v, i + 1);
      var (key, val) := v.entries[i];
      ToolchainRule(key);
      AnySingle(known, val, Str);
      AnySingle(known, val, Bool);
      assert AnyConforms(known, val, [], 0) == Ok(false);
    }
  }

  /** any() over a single easy type is that isinstance check. */
  lemma AnySingle(known: seq<Desc>, y: Value, k: Kind)
    ensures AnyConforms(known, y, [TypeItem(Prim(k))], 0) == Ok(IsInstance(y, k))
  {
    var a := [TypeItem(Prim(k))];
    assert ItemConforms(known, y, a[0]) == Ok(IsInstance(y, k));
    assert AnyConforms(known, y, a, 1) == Ok(false);
  }

  /** The allowed types TOOLCHAIN_DICT gives each key. */
  lemma ToolchainRule(key: Value)
    ensures RuleFor(ToolchainRules, key) ==
      if key == VStr("name") || key == VStr("version") then [TypeItem(PStr)]
      else if key == VStr("hidden") then [TypeItem(PBool)]
      else []
  {
    var r := ToolchainRules;
    assert r[1..] == [r[1], r[2]] && r[1..][1..] == [r[2]] && r[1..][1..][1..] == [];
    assert RuleLookup([], key) == None;
    assert RuleLookup([r[2]], key) == if key == VStr("version") then Some([TypeItem(PStr)]) else None;
    assert RuleLookup([r[1], r[2]], key) ==
      if key == VStr("version") || key == VStr("name") then Some([TypeItem(PStr)]) else None;
    assert RuleLookup(r, key) ==
      if key == VStr("version") || key == VStr("name") then Some([TypeItem(PStr)])
      else if key == VStr("hidden") then Some([TypeItem(PBool)]) else None;
  }

  /** The toolchain dict shapes the table accepts and rejects. */
  lemma ToolchainExamples()
    ensures Conforms(CheckableTypes, VDict([(VStr("name"), VStr("GCC")), (VStr("version"), VStr("4.9.3"))]), ToolchainDict) == Ok(true)
    ensures Conforms(CheckableTypes, VDict([(VStr("name"), VStr("GCC")), (VStr("version"), VStr("4.9.3")), (VStr("hidden"), VBool(true))]), ToolchainDict) == Ok(true)
    ensures Conforms(CheckableTypes, VDict([(VStr("name"), VStr("GCC"))]), ToolchainDict) == Ok(false)
    ensures Conforms(CheckableTypes, VDict([(VStr("name"), VStr("GCC")), (VStr("version"), VStr("4.9.3")), (VStr("arch"), VStr("x86"))]), ToolchainDict) == Ok(false)
  {
    NameVersionExample("GCC", "4.9.3");
    HiddenExample("GCC", "4.9.3", true);
    NameOnlyExample("GCC");
    ExtraKeyExample("GCC", "4.9.3", VStr("arch"), VStr("x86"));
  }

  lemma NameVersionExample(n: string, ver: string)
    ensures Conforms(CheckableTypes, VDict([(VStr("name"), VStr(n)), (VStr("version"), VStr(ver))]), ToolchainDict) == Ok(true)
  {
    var a := VDict([(VStr("name"), VStr(n)), (VStr("version"), VStr(ver))]);
    ToolchainDictExactly(a);
    assert Keys(a.entries)[1] == VStr("version");
  }

  lemma HiddenExample(n: string, ver: string, h: bool)
    ensures Conforms(CheckableTypes, VDict([(VStr("name"), VStr(n)), (VStr("version"), VStr(ver)), (VStr("hidden"), VBool(h))]), ToolchainDict) == Ok(true)
  {
    var b := VDict([(VStr("name"), VStr(n)), (VStr("version"), VStr(ver)), (VStr("hidden"), VBool(h))]);
    ToolchainDictExactly(b);
    assert Keys(b.entries)[1] == VStr("version");
  }

  lemma NameOnlyExample(n: string)
    ensures Conforms(CheckableTypes, VDict([(VStr("name"), VStr(n))]), ToolchainDict) == Ok(false)
  {
    var c := VDict([(VStr("name"), VStr(n))]);
    ToolchainDictExactly(c);
    assert Keys(c.entries) == [VStr("name")];
    assert VStr("version") != VStr("name");
  }

  /** A key other than name, version and hidden is rejected. */
  lemma ExtraKeyExample(n: string, ver: string, k: Value, x: Value)
    requires k != VStr("name") && k != VStr("version") && k != VStr("hidden")
    ensures Conforms(CheckableTypes, VDict([(VStr("name"), VStr(n)), (VStr("version"), VStr(ver)), (k, x)]), ToolchainDict) == Ok(false)
  {
    var d := VDict([(VStr("name"), VStr(n)), (VStr("version"), VStr(ver)), (k, x)]);
    ToolchainDictExactly(d);
    assert !ToolchainEntry(d.entries[2]);
  }
}
