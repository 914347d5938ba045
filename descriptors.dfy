/** Type descriptors for easyconfig parameter values and the fixed table of
    them: the composite descriptors, CHECKABLE_TYPES, EASY_TYPES and
    PARAMETER_TYPES. */
module Descriptors {
  import opened Values
  import Hashable

  /** A descriptor: an easy type checked with isinstance, or a composite
      pair (parent type, requirements) whose requirements are as_hashable of
      the requirements dict, a tuple of (name, value) pairs sorted by name. */
  datatype Desc =
    | Prim(kind: Kind)
    | Comp(parent: Kind, reqs: seq<(string, seq<Item>)>)

  /** An element of a requirement's tuple value: a type, a key name (in
      opt_keys and req_keys), or a (key, allowed types) pair that as_hashable
      made of a per-key elem_types dict. */
  datatype Item =
    | TypeItem(t: Desc)
    | KeyItem(key: string)
    | RuleItem(key: string, allowed: seq<Item>)

  const ElemTypes := "elem_types"
  const KeyTypes := "key_types"
  const OptKeys := "opt_keys"
  const ReqKeys := "req_keys"

  /** The names SANITY_CHECK_PATHS_FILES and SANITY_CHECK_PATHS_DIRS stand for. */
  const SanityCheckPathsFiles := "files"
  const SanityCheckPathsDirs := "dirs"

  function Types(ds: seq<Desc>): (r: seq<Item>)
    ensures |r| == |ds| && forall i :: 0 <= i < |ds| ==> r[i] == TypeItem(ds[i])
  {
    seq(|ds|, i requires 0 <= i < |ds| => TypeItem(ds[i]))
  }

  function KeyNames(ks: seq<string>): (r: seq<Item>)
    ensures |r| == |ks| && forall i :: 0 <= i < |ks| ==> r[i] == KeyItem(ks[i])
  {
    seq(|ks|, i requires 0 <= i < |ks| => KeyItem(ks[i]))
  }

  const PStr := Prim(Str)
  const PInt := Prim(Int)
  const PBool := Prim(Bool)
  const PNone := Prim(NoneType)

  /** dict with name and version strings and an optional hidden bool. */
  const ToolchainRules := [
    RuleItem("hidden", [TypeItem(PBool)]),
    RuleItem("name", [TypeItem(PStr)]),
    RuleItem("version", [TypeItem(PStr)])]

  const ToolchainDict := Comp(Dict, [
    (ElemTypes, ToolchainRules),
    (OptKeys, KeyNames(["hidden"])),
    (ReqKeys, KeyNames(["name", "version"]))])

  /** The dependency dict's per-key rules, sorted by key. */
  const DependencyRules := [
    RuleItem("full_mod_name", [TypeItem(PStr)]),
    RuleItem("name", [TypeItem(PStr)]),
    RuleItem("short_mod_name", [TypeItem(PStr)]),
    RuleItem("toolchain", [TypeItem(ToolchainDict)]),
    RuleItem("version", [TypeItem(PStr)]),
    RuleItem("versionsuffix", [TypeItem(PStr)])]

  const DependencyDict := Comp(Dict, [
    (ElemTypes, DependencyRules),
    (OptKeys, KeyNames(["full_mod_name", "short_mod_name", "toolchain", "versionsuffix"])),
    (ReqKeys, KeyNames(["name", "version"]))])

  const Dependencies := Comp(List, [(ElemTypes, Types([DependencyDict]))])

  const TupleOfStrings := Comp(Tuple, [(ElemTypes, Types([PStr]))])
  const ListOfStrings := Comp(List, [(ElemTypes, Types([PStr]))])
  const StringOrTupleList := Comp(List, [(ElemTypes, Types([PStr, TupleOfStrings]))])
  const StringDict := Comp(Dict, [(ElemTypes, Types([PStr])), (KeyTypes, Types([PStr]))])
  const StringOrTupleDict := Comp(Dict, [(ElemTypes, Types([PStr])), (KeyTypes, Types([PStr, TupleOfStrings]))])
  const StringOrTupleOrDictList := Comp(List, [(ElemTypes, Types([PStr, TupleOfStrings, StringDict]))])
  const SanityCheckPathsEntry := Comp(List, [(ElemTypes, Types([PStr, TupleOfStrings, StringOrTupleDict]))])

  /** The per-key rules are sorted by name: "dirs" before "files". */
  const SanityCheckPathsDict := Comp(Dict, [
    (ElemTypes, [RuleItem(SanityCheckPathsDirs, Types([SanityCheckPathsEntry])),
                 RuleItem(SanityCheckPathsFiles, Types([SanityCheckPathsEntry]))]),
    (OptKeys, []),
    (ReqKeys, KeyNames([SanityCheckPathsFiles, SanityCheckPathsDirs]))])

  /** A (type, value) checksum pair; the value may be an int for type "size". */
  const ChecksumAndType := Comp(Tuple, [(ElemTypes, Types([PStr, PInt]))])
  const ChecksumList := Comp(List, [(ElemTypes, Types([PStr, ChecksumAndType]))])
  const ChecksumTuple := Comp(Tuple, [(ElemTypes, Types([PStr, ChecksumAndType]))])
  const ChecksumDict := Comp(Dict, [
    (ElemTypes, Types([PNone, PStr, ChecksumAndType, ChecksumTuple, ChecksumList])),
    (KeyTypes, Types([PStr]))])
  const ChecksumListWDict := Comp(List, [(ElemTypes, Types([PStr, ChecksumAndType, ChecksumDict]))])
  const ChecksumTupleWDict := Comp(Tuple, [(ElemTypes, Types([PStr, ChecksumAndType, ChecksumDict]))])
  const Checksums := Comp(List, [(ElemTypes, Types([PNone, PStr, ChecksumAndType,
                                                    ChecksumListWDict, ChecksumTupleWDict, ChecksumDict]))])

  /** CHECKABLE_TYPES, in the order of the source. */
  const CheckableTypes: seq<Desc> := [
    ChecksumAndType, ChecksumList, ChecksumTuple,
    ChecksumListWDict, ChecksumTupleWDict, ChecksumDict, Checksums,
    Dependencies, DependencyDict, ListOfStrings,
    SanityCheckPathsDict, SanityCheckPathsEntry, StringDict, StringOrTupleList,
    StringOrTupleDict, StringOrTupleOrDictList, ToolchainDict, TupleOfStrings]

  /** EASY_TYPES holds every Kind: each plain descriptor is an easy type. */
  const EasyTypes: seq<Kind> := [Str, Bool, Dict, Int, List, Str, Tuple, NoneType]

  /** PARAMETER_TYPES: the fixed entries, then every dependency parameter
      mapped to DEPENDENCIES, overriding a fixed entry of the same name. */
  function ParameterTypes(dependencyParameters: seq<string>): (m: map<string, Desc>)
    ensures forall p :: p in dependencyParameters ==> p in m && m[p] == Dependencies
    ensures forall p :: p in m && p !in dependencyParameters ==> p in BaseParameterTypes && m[p] == BaseParameterTypes[p]
    ensures forall p :: p in BaseParameterTypes ==> p in m
  {
    BaseParameterTypes + (map p | p in dependencyParameters :: Dependencies)
  }

  const BaseParameterTypes: map<string, Desc> := map[
    "checksums" := Checksums,
    "docurls" := ListOfStrings,
    "name" := PStr,
    "osdependencies" := StringOrTupleList,
    "patches" := StringOrTupleOrDictList,
    "sanity_check_paths" := SanityCheckPathsDict,
    "toolchain" := ToolchainDict,
    "version" := PStr]

  /** Requirement names in strictly increasing order, as as_hashable leaves them. */
  predicate NamesSorted(reqs: seq<(string, seq<Item>)>)
  {
    forall i :: 0 <= i < |reqs| - 1 ==> Hashable.StrLess(reqs[i].0, reqs[i + 1].0)
  }

  /** Per-key rules in strictly increasing key order. */
  predicate RulesSorted(items: seq<Item>)
  {
    && (forall i :: 0 <= i < |items| ==> items[i].RuleItem?)
    && (forall i :: 0 <= i < |items| - 1 ==> Hashable.StrLess(RuleKey(items[i]), RuleKey(items[i + 1])))
  }

  function RuleKey(it: Item): string
  {
    if it.RuleItem? then it.key else ""
  }

  /** Every composite descriptor of the table is in the sorted form that
      as_hashable produces: requirement names in increasing order. */
  lemma TableCanonical()
    ensures forall d :: d in CheckableTypes ==> d.Comp? && NamesSorted(d.reqs)
  {
    var a, b, c, d := ElemTypes, KeyTypes, OptKeys, ReqKeys;
    assert Hashable.StrLess(a, b) && Hashable.StrLess(a, c) && Hashable.StrLess(c, d);
    assert NamesSorted(ToolchainDict.reqs) && NamesSorted(DependencyDict.reqs);
    assert NamesSorted(SanityCheckPathsDict.reqs);
    assert NamesSorted(StringDict.reqs) && NamesSorted(StringOrTupleDict.reqs) && NamesSorted(ChecksumDict.reqs);
  }

  /** The per-key rules of the table are sorted by key, as as_hashable sorts
      the items of a per-key elem_types dict. */
  lemma RulesCanonical()
    ensures RulesSorted(ToolchainDict.reqs[0].1)
    ensures RulesSorted(DependencyDict.reqs[0].1)
    ensures RulesSorted(SanityCheckPathsDict.reqs[0].1)
  {
    ToolchainRulesSorted();
    DependencyRulesSorted();
    SanityRulesSorted();
  }

  lemma ToolchainRulesSorted()
    ensures RulesSorted(ToolchainRules)
  {
    ToolchainKeysOrdered();
    var r := ToolchainRules;
    assert RuleKey(r[0]) == "hidden" && RuleKey(r[1]) == "name" && RuleKey(r[2]) == "version";
  }

  lemma DependencyRulesSorted()
    ensures RulesSorted(DependencyRules)
  {
    DependencyKeysOrdered();
    VersionBeforeVersionsuffix();
    DependencyRuleKeys();
    SixRulesSorted(DependencyRules);
  }

  lemma DependencyRuleKeys()
    ensures |DependencyRules| == 6 && forall i :: 0 <= i < 6 ==> DependencyRules[i].RuleItem?
    ensures RuleKey(DependencyRules[0]) == "full_mod_name" && RuleKey(DependencyRules[1]) == "name"
    ensures RuleKey(DependencyRules[2]) == "short_mod_name" && RuleKey(DependencyRules[3]) == "toolchain"
    ensures RuleKey(DependencyRules[4]) == "version" && RuleKey(DependencyRules[5]) == "versionsuffix"
  {
  }

  /** Six rules whose neighbouring keys are in increasing order. */
  lemma SixRulesSorted(r: seq<Item>)
    requires |r| == 6 && forall i :: 0 <= i < 6 ==> r[i].RuleItem?
    requires Hashable.StrLess(RuleKey(r[0]), RuleKey(r[1])) && Hashable.StrLess(RuleKey(r[1]), RuleKey(r[2]))
    requires Hashable.StrLess(RuleKey(r[2]), RuleKey(r[3])) && Hashable.StrLess(RuleKey(r[3]), RuleKey(r[4]))
    requires Hashable.StrLess(RuleKey(r[4]), RuleKey(r[5]))
    ensures RulesSorted(r)
  {
    forall i | 0 <= i < |r| - 1
      ensures Hashable.StrLess(RuleKey(r[i]), RuleKey(r[i + 1]))
    {
      if i == 0 {} else if i == 1 {} else if i == 2 {} else if i == 3 {} else {}
    }
  }

  lemma SanityRulesSorted()
    ensures RulesSorted(SanityCheckPathsDict.reqs[0].1)
  {
    var r := SanityCheckPathsDict.reqs[0].1;
    assert RuleKey(r[0]) == "dirs" && RuleKey(r[1]) == "files";
    assert Hashable.StrLess("dirs", "files");
  }

  lemma ToolchainKeysOrdered()
    ensures Hashable.StrLess("hidden", "name") && Hashable.StrLess("name", "version")
  {
  }

  lemma DependencyKeysOrdered()
    ensures Hashable.StrLess("full_mod_name", "name") && Hashable.StrLess("name", "short_mod_name")
    ensures Hashable.StrLess("short_mod_name", "toolchain") && Hashable.StrLess("toolchain", "version")
  {
  }

  lemma VersionBeforeVersionsuffix()
    ensures Hashable.StrLess("version", "versionsuffix")
  {
    var a, b := "version", "versionsuffix";
    assert Hashable.StrLess(a[7..], b[7..]);
    assert a[6..] == [a[6]] + a[7..] && b[6..] == [b[6]] + b[7..];
    assert Hashable.StrLess(a[6..], b[6..]);
    assert Hashable.StrLess(a[5..], b[5..]);
    assert Hashable.StrLess(a[4..], b[4..]);
    assert Hashable.StrLess(a[3..], b[3..]);
    assert Hashable.StrLess(a[2..], b[2..]);
    assert Hashable.StrLess(a[1..], b[1..]);
  }
}
