/** to_dependency and to_dependencies: a dependency given as a dict is
    normalised to a dict with name, version and optionally versionsuffix and
    toolchain keys, or, for an external module, to the module names; any
    other value is passed on untouched. */
module Dependency {
  import opened Values
  import Text
  import opened Descriptors
  import opened Matcher
  import Toolchain
  import TableLaws
  import MatcherLaws

  const Name := VStr("name")
  const Version := VStr("version")
  const VersionSuffix := VStr("versionsuffix")
  const ToolchainKey := VStr("toolchain")
  const ExternalModule := VStr("external_module")
  const FullModName := VStr("full_mod_name")
  const ShortModName := VStr("short_mod_name")

  /** The key names are seven different strings. */
  lemma KeysDiffer()
    ensures Name != Version && Name != VersionSuffix && Name != ToolchainKey && Name != ExternalModule
    ensures Name != FullModName && Name != ShortModName
    ensures Version != VersionSuffix && Version != ToolchainKey && Version != ExternalModule
    ensures Version != FullModName && Version != ShortModName
    ensures VersionSuffix != ToolchainKey && VersionSuffix != ExternalModule
    ensures VersionSuffix != FullModName && VersionSuffix != ShortModName
    ensures ToolchainKey != ExternalModule && ToolchainKey != FullModName && ToolchainKey != ShortModName
    ensures ExternalModule != FullModName && ExternalModule != ShortModName && FullModName != ShortModName
  {
    assert Name.s[0] == 'n' && Version.s[0] == 'v' && VersionSuffix.s[0] == 'v' && ToolchainKey.s[0] == 't';
    assert ExternalModule.s[0] == 'e' && FullModName.s[0] == 'f' && ShortModName.s[0] == 's';
    assert |Version.s| == 7 && |VersionSuffix.s| == 13;
  }

  /** name, version, versionsuffix or toolchain. */
  predicate DependencyKey(k: Value)
  {
    k == Name || k == Version || k == VersionSuffix || k == ToolchainKey
  }

  predicate HasKey(entries: seq<(Value, Value)>, k: Value)
  {
    k in Keys(entries)
  }

  /** `dep.get('external_module', False)` is true. */
  predicate IsExternal(entries: seq<(Value, Value)>)
  {
    Get(entries, ExternalModule).Some? && Truthy(Get(entries, ExternalModule).value)
  }

  /** sorted(dep.keys()) == ['external_module', 'name']. */
  predicate ExternalKeys(entries: seq<(Value, Value)>)
  {
    |entries| == 2 && HasKey(entries, ExternalModule) && HasKey(entries, Name)
  }

  /** What an external module dependency becomes. */
  function ExternalSpec(moduleName: Value): Value
  {
    VDict([(ExternalModule, VBool(true)), (FullModName, moduleName), (Name, VNone),
           (ShortModName, moduleName), (Version, VNone)])
  }

  /** The first loop, over the fixed names: each name that dep has is
      stored as a string and removed from the list of keys still to do. */
  function Preset(dep: seq<(Value, Value)>, names: seq<Value>, depspec: seq<(Value, Value)>, keys: seq<Value>):
    (r: (seq<(Value, Value)>, seq<Value>))
    ensures forall k :: k in r.1 ==> k in keys
    decreases |names|
  {
    if names == [] then (depspec, keys)
    else if HasKey(dep, names[0]) then
      Preset(dep, names[1..], Put(depspec, names[0], VStr(Text.Str(Get(dep, names[0]).value))), RemoveFirst(keys, names[0]))
    else Preset(dep, names[1..], depspec, keys)
  }

  /** One turn of the second loop, for a key of dep. */
  function FillStep(dep: seq<(Value, Value)>, key: Value, depspec: seq<(Value, Value)>): Outcome<seq<(Value, Value)>>
    requires HasKey(dep, key)
  {
    var val := Get(dep, key).value;
    if key == VersionSuffix then Ok(Put(depspec, key, VStr(Text.Str(val))))
    else if key == ToolchainKey then
      var tc :- Toolchain.ToToolchainDict(val);
      Ok(Put(depspec, ToolchainKey, tc))
    else if !(HasKey(depspec, Name) && HasKey(depspec, Version)) then
      Ok(Put(Put(depspec, Name, key), Version, VStr(Text.Str(val))))
    else Fail(UnexpectedPair)
  }

  /** FillStep on an ordinary key while name or version is still unset. */
  lemma FillStepFallback(dep: seq<(Value, Value)>, key: Value, depspec: seq<(Value, Value)>)
    requires HasKey(dep, key) && key != VersionSuffix && key != ToolchainKey
    requires !(HasKey(depspec, Name) && HasKey(depspec, Version))
    ensures FillStep(dep, key, depspec) == Ok(Put(Put(depspec, Name, key), Version, VStr(Text.Str(Get(dep, key).value))))
  {
  }

  /** The second loop, over the keys still to do. */
  function Fill(dep: seq<(Value, Value)>, keys: seq<Value>, depspec: seq<(Value, Value)>): Outcome<seq<(Value, Value)>>
    requires forall k :: k in keys ==> HasKey(dep, k)
    decreases |keys|
  {
    if keys == [] then Ok(depspec)
    else
      var next :- FillStep(dep, keys[0], depspec);
      Fill(dep, keys[1..], next)
  }

  /** to_dependency(dep). */
  function NormalisedDependency(dep: Value): Outcome<Value>
  {
    if !dep.VDict? then Ok(dep)
    else if IsExternal(dep.entries) then
      if ExternalKeys(dep.entries) then Ok(ExternalSpec(Get(dep.entries, Name).value))
      else Fail(BadExternalModule)
    else
      var pre := Pre(dep.entries);
      Finish(Fill(dep.entries, pre.1, pre.0))
  }

  /** A value other than a dict is passed on untouched; a dict that is not
      an external module and normalises has both name and version. */
  lemma PassedOnOrNamed(dep: Value)
    ensures !dep.VDict? ==> NormalisedDependency(dep) == Ok(dep)
    ensures dep.VDict? && !IsExternal(dep.entries) && NormalisedDependency(dep).Ok? ==>
      var r := NormalisedDependency(dep).value;
      r.VDict? && HasKey(r.entries, Name) && HasKey(r.entries, Version)
  {
  }

  /** The first loop, started from an empty depspec and all keys of dep. */
  function Pre(dep: seq<(Value, Value)>): (seq<(Value, Value)>, seq<Value>)
  {
    Preset(dep, [Name, Version], [], Keys(dep))
  }

  /** The final check that name and version were both found. */
  function Finish(filled: Outcome<seq<(Value, Value)>>): Outcome<Value>
  {
    match filled
    case Fail(e) => Fail(e)
    case Ok(f) =>
      if HasKey(f, Name) && HasKey(f, Version) then Ok(VDict(f))
      else Fail(MissingNameOrVersion)
  }

  /** to_dependency. */
  method ToDependency(dep: Value) returns (r: Outcome<Value>)
    ensures r == NormalisedDependency(dep)
  {
    if !dep.VDict? {
      return Ok(dep);
    }
    var es := dep.entries;
    var depspec: seq<(Value, Value)> := [];
    var ext := Get(es, ExternalModule);
    if ext.Some? && Truthy(ext.value) {
      if ExternalKeys(es) {
        var moduleName := Get(es, Name).value;
        depspec := [(ExternalModule, VBool(true)), (FullModName, moduleName), (Name, VNone),
                    (ShortModName, moduleName), (Version, VNone)];
        return Ok(VDict(depspec));
      }
      return Fail(BadExternalModule);
    }
    var depspec0, depKeys := PresetLoop(es);
    var filled := FillLoop(es, depKeys, depspec0);
    if filled.Fail? {
      return Fail(filled.error);
    }
    depspec := filled.value;
    if !(HasKey(depspec, Name) && HasKey(depspec, Version)) {
      return Fail(MissingNameOrVersion);
    }
    return Ok(VDict(depspec));
  }

  /** The first loop of to_dependency: name and version, when dep has them,
      are stored as strings and struck from the list of keys still to do. */
  method PresetLoop(es: seq<(Value, Value)>) returns (depspec: seq<(Value, Value)>, depKeys: seq<Value>)
    ensures (depspec, depKeys) == Pre(es)
    ensures forall k :: k in depKeys ==> HasKey(es, k)
  {
    depspec := [];
    depKeys := Keys(es);
    var fixed := [Name, Version];
    for j := 0 to |fixed|
      invariant Preset(es, fixed[j..], depspec, depKeys) == Preset(es, fixed, [], Keys(es))
      invariant forall k :: k in depKeys ==> HasKey(es, k)
    {
      var key := fixed[j];
      assert fixed[j..][1..] == fixed[j + 1..];
      if HasKey(es, key) {
        depspec := Put(depspec, key, VStr(Text.Str(Get(es, key).value)));
        depKeys := RemoveFirst(depKeys, key);
      }
    }
    assert fixed[|fixed|..] == [];
  }

  /** The second loop of to_dependency, over the keys still to do. */
  method FillLoop(es: seq<(Value, Value)>, depKeys: seq<Value>, start: seq<(Value, Value)>)
    returns (r: Outcome<seq<(Value, Value)>>)
    requires forall k :: k in depKeys ==> HasKey(es, k)
    ensures r == Fill(es, depKeys, start)
  {
    var depspec := start;
    var i := 0;
    while i < |depKeys|
      invariant 0 <= i <= |depKeys|
      invariant forall k :: k in depKeys[i..] ==> HasKey(es, k)
      invariant Fill(es, depKeys[i..], depspec) == Fill(es, depKeys, start)
    {
      assert depKeys[i..][0] == depKeys[i] && depKeys[i..][1..] == depKeys[i + 1..];
      var next := FillKey(es, depKeys[i], depspec);
      if next.Fail? {
        FillFirstFails(es, depKeys[i..], depspec);
        return Fail(next.error);
      }
      FillFirst(es, depKeys[i..], depspec, next.value);
      depspec := next.value;
      i := i + 1;
    }
    assert depKeys[i..] == [];
    return Ok(depspec);
  }

  /** One turn of the second loop of to_dependency, for a key of dep: the
      branches of FillStep written as statements, so that FillLoop's body
      runs them as the source does. */
  method FillKey(es: seq<(Value, Value)>, key: Value, depspec: seq<(Value, Value)>)
    returns (r: Outcome<seq<(Value, Value)>>)
    requires HasKey(es, key)
    ensures r == FillStep(es, key, depspec)
  {
    var val := Get(es, key).value;
    if key == VersionSuffix {
      r := Ok(Put(depspec, key, VStr(Text.Str(val))));
    } else if key == ToolchainKey {
      var tc := Toolchain.ToToolchainDict(val);
      if tc.Fail? {
        return Fail(tc.error);
      }
      r := Ok(Put(depspec, ToolchainKey, tc.value));
    } else if !(HasKey(depspec, Name) && HasKey(depspec, Version)) {
      r := Ok(Put(Put(depspec, Name, key), Version, VStr(Text.Str(val))));
    } else {
      r := Fail(UnexpectedPair);
    }
  }

  /** The second loop raises with the error of its first turn. */
  lemma FillFirstFails(dep: seq<(Value, Value)>, keys: seq<Value>, depspec: seq<(Value, Value)>)
    requires forall k :: k in keys ==> HasKey(dep, k)
    requires keys != [] && FillStep(dep, keys[0], depspec).Fail?
    ensures Fill(dep, keys, depspec) == Fail(FillStep(dep, keys[0], depspec).error)
  {
  }

  /** An external module dependency must have exactly the keys
      external_module and name, and then names its module twice, with name
      and version None. */
  lemma ExternalModuleLaw(dep: Value)
    requires dep.VDict? && IsExternal(dep.entries)
    ensures NormalisedDependency(dep).Ok? <==> ExternalKeys(dep.entries)
    ensures NormalisedDependency(dep).Fail? ==> NormalisedDependency(dep).error == BadExternalModule
    ensures NormalisedDependency(dep).Ok? ==>
      var r := NormalisedDependency(dep).value.entries;
      && Get(r, ExternalModule) == Some(VBool(true))
      && Get(r, FullModName) == Get(dep.entries, Name)
      && Get(r, ShortModName) == Get(dep.entries, Name)
      && Get(r, Name) == Some(VNone)
      && Get(r, Version) == Some(VNone)
  {
    KeysDiffer();
    if ExternalKeys(dep.entries) {
      var n := Get(dep.entries, Name).value;
      GetOfFive(ExternalModule, FullModName, Name, ShortModName, Version, VBool(true), n, VNone, n, VNone);
    }
  }

  /** Looking up each key of a five-entry dict with distinct keys. */
  lemma GetOfFive(a: Value, b: Value, c: Value, d: Value, e: Value, va: Value, vb: Value, vc: Value, vd: Value, ve: Value)
    requires a != b && a != c && a != d && a != e && b != c && b != d && b != e && c != d && c != e && d != e
    ensures var es := [(a, va), (b, vb), (c, vc), (d, vd), (e, ve)];
      Get(es, a) == Some(va) && Get(es, b) == Some(vb) && Get(es, c) == Some(vc) &&
      Get(es, d) == Some(vd) && Get(es, e) == Some(ve)
  {
    var es := [(a, va), (b, vb), (c, vc), (d, vd), (e, ve)];
    var es1, es2, es3, es4 := es[1..], es[2..], es[3..], es[4..];
    assert es1 == [(b, vb), (c, vc), (d, vd), (e, ve)] && es2 == es1[1..] && es3 == es2[1..] && es4 == es3[1..];
    assert Get(es4, e) == Some(ve);
    assert Get(es3, d) == Some(vd) && Get(es3, e) == Some(ve);
    assert Get(es2, c) == Some(vc) && Get(es2, d) == Some(vd) && Get(es2, e) == Some(ve);
    assert Get(es1, b) == Some(vb) && Get(es1, c) == Some(vc) && Get(es1, d) == Some(vd) && Get(es1, e) == Some(ve);
  }

  /** The dict an external module becomes is not a DEPENDENCY_DICT: its
      external_module key is not among the allowed keys. */
  lemma ExternalNotDependencyDict(moduleName: Value)
    ensures Conforms(CheckableTypes, ExternalSpec(moduleName), DependencyDict) == Ok(false)
  {
    KeysDiffer();
    var v := ExternalSpec(moduleName);
    assert v.entries[0].0 == ExternalModule;
    UnknownKeyNotDependencyDict(v, 0);
  }

  /** A dict with a key that DEPENDENCY_DICT does not name is not a
      DEPENDENCY_DICT. */
  lemma UnknownKeyNotDependencyDict(v: Value, i: nat)
    requires v.VDict? && i < |v.entries|
    requires v.entries[i].0 !in {FullModName, ShortModName, ToolchainKey, VersionSuffix, Name, Version}
    ensures Conforms(CheckableTypes, v, DependencyDict) == Ok(false)
  {
    var t := CheckableTypes;
    TableLaws.InTable(t);
    TableLaws.TableNeverRaises(v, DependencyDict);
    UnknownKeyFails(t, v, i);
  }

  lemma UnknownKeyFails(known: seq<Desc>, v: Value, i: nat)
    requires v.VDict? && i < |v.entries| && DependencyDict in known
    requires v.entries[i].0 !in {FullModName, ShortModName, ToolchainKey, VersionSuffix, Name, Version}
    requires Conforms(known, v, DependencyDict).Ok?
    ensures Conforms(known, v, DependencyDict) == Ok(false)
  {
    var reqs := DependencyDict.reqs;
    assert reqs[1].0 == OptKeys;
    DependencyOptKeys(known, v, i);
    assert Conforms(known, v, DependencyDict) == ReqsConform(known, v, Dict, reqs, 0);
    assert ReqsConform(known, v, Dict, reqs, 1).Ok? ==> ReqsConform(known, v, Dict, reqs, 1) == Ok(false);
  }

  lemma DependencyOptKeys(known: seq<Desc>, v: Value, i: nat)
    requires v.VDict? && i < |v.entries|
    requires v.entries[i].0 !in {FullModName, ShortModName, ToolchainKey, VersionSuffix, Name, Version}
    ensures ReqCheck(known, v, Dict, DependencyDict.reqs, OptKeys) == Ok(false)
  {
    var opt := ["full_mod_name", "short_mod_name", "toolchain", "versionsuffix"];
    var req := ["name", "version"];
    TableLaws.PerKeyChecks(known, v, DependencyRules, KeyNames(opt), KeyNames(req));
    MatcherLaws.OptKeysLaw(v, opt, req);
    UnknownKeyName(v.entries[i].0);
  }

  /** A key other than the six DEPENDENCY_DICT names is not among their strings. */
  lemma UnknownKeyName(k: Value)
    requires k !in {FullModName, ShortModName, ToolchainKey, VersionSuffix, Name, Version}
    ensures !(k.VStr? && (k.s in ["full_mod_name", "short_mod_name", "toolchain", "versionsuffix"] ||
                          k.s in ["name", "version"]))
  {
  }

  /** Keys that only set versionsuffix or toolchain leave name and version
      as they were, and succeed when the toolchain converts. */
  lemma {:induction false} FillSpecialKeys(dep: seq<(Value, Value)>, keys: seq<Value>, depspec: seq<(Value, Value)>)
    requires forall k :: k in keys ==> HasKey(dep, k) && (k == VersionSuffix || k == ToolchainKey)
    ensures (ToolchainKey in keys ==>
      Get(dep, ToolchainKey).Some? && Toolchain.ToToolchainDict(Get(dep, ToolchainKey).value).Ok?) ==>
      Fill(dep, keys, depspec).Ok?
    ensures Fill(dep, keys, depspec).Ok? ==>
      && Get(Fill(dep, keys, depspec).value, Name) == Get(depspec, Name)
      && Get(Fill(dep, keys, depspec).value, Version) == Get(depspec, Version)
    decreases |keys|
  {
    if keys != [] {
      assert keys[0] in keys;
      assert forall k :: k in keys[1..] ==> k in keys;
      FillStepSpecial(dep, keys[0], depspec);
      var step := FillStep(dep, keys[0], depspec);
      if step.Ok? {
        FillFirst(dep, keys, depspec, step.value);
        FillSpecialKeys(dep, keys[1..], step.value);
      } else {
        FillFirstFails(dep, keys, depspec);
      }
    }
  }

  /** versionsuffix and toolchain are neither name nor version. */
  lemma SpecialKeysDiffer()
    ensures VersionSuffix != Name && VersionSuffix != Version && ToolchainKey != Name && ToolchainKey != Version
  {
    assert Name.s[0] == 'n' && Version.s[0] == 'v' && VersionSuffix.s[0] == 'v' && ToolchainKey.s[0] == 't';
    assert |Version.s| == 7 && |VersionSuffix.s| == 13;
  }

  /** One turn on versionsuffix or toolchain: it fails only on a toolchain
      that does not convert, and leaves name and version alone. */
  lemma FillStepSpecial(dep: seq<(Value, Value)>, key: Value, depspec: seq<(Value, Value)>)
    requires HasKey(dep, key) && (key == VersionSuffix || key == ToolchainKey)
    ensures (key == ToolchainKey ==> Toolchain.ToToolchainDict(Get(dep, key).value).Ok?) ==>
      FillStep(dep, key, depspec).Ok?
    ensures FillStep(dep, key, depspec).Ok? ==>
      && Get(FillStep(dep, key, depspec).value, Name) == Get(depspec, Name)
      && Get(FillStep(dep, key, depspec).value, Version) == Get(depspec, Version)
  {
    SpecialKeysDiffer();
  }

  /** Once name and version are set, any other key raises. */
  lemma {:induction false} FillNeedsSpecialKeys(dep: seq<(Value, Value)>, keys: seq<Value>, depspec: seq<(Value, Value)>)
    requires forall k :: k in keys ==> HasKey(dep, k)
    requires HasKey(depspec, Name) && HasKey(depspec, Version)
    requires Fill(dep, keys, depspec).Ok?
    ensures forall k :: k in keys ==> k == VersionSuffix || k == ToolchainKey
    decreases |keys|
  {
    if keys != [] {
      var step := FillStep(dep, keys[0], depspec);
      assert step.Ok?;
      assert keys[0] == VersionSuffix || keys[0] == ToolchainKey;
      var next := step.value;
      assert Keys(next) == Keys(depspec) || Keys(next) == Keys(depspec) + [keys[0]];
      FillNeedsSpecialKeys(dep, keys[1..], next);
      assert forall k :: k in keys ==> k == keys[0] || k in keys[1..];
    }
  }

  /** The first loop on a dict with both name and version. */
  lemma PresetBoth(dep: seq<(Value, Value)>)
    requires DistinctKeys(dep) && HasKey(dep, Name) && HasKey(dep, Version)
    ensures var pre := Pre(dep);
      && Get(pre.0, Name) == Some(VStr(Text.Str(Get(dep, Name).value)))
      && Get(pre.0, Version) == Some(VStr(Text.Str(Get(dep, Version).value)))
      && (forall k :: k in pre.1 ==> k in Keys(dep) && k != Name && k != Version)
      && (forall k :: k in Keys(dep) && k != Name && k != Version ==> k in pre.1)
  {
    var ks := Keys(dep);
    KeysNoDuplicates(dep);
    RemoveFirstOnce(ks, Name);
    RemoveFirstOnce(RemoveFirst(ks, Name), Version);
    NameNotVersion();
    PresetPair(dep, Name, Version, ks);
  }

  lemma NameNotVersion()
    ensures Name != Version
  {
    assert |Name.s| == 4 && |Version.s| == 7;
  }

  /** The first loop when dep has both fixed names. */
  lemma PresetPair(dep: seq<(Value, Value)>, a: Value, b: Value, keys: seq<Value>)
    requires HasKey(dep, a) && HasKey(dep, b)
    ensures Preset(dep, [a, b], [], keys) ==
      (Put(Put([], a, VStr(Text.Str(Get(dep, a).value))), b, VStr(Text.Str(Get(dep, b).value))),
       RemoveFirst(RemoveFirst(keys, a), b))
  {
    var s0, k0 := Put([], a, VStr(Text.Str(Get(dep, a).value))), RemoveFirst(keys, a);
    var s1, k1 := Put(s0, b, VStr(Text.Str(Get(dep, b).value))), RemoveFirst(k0, b);
    assert [a, b][0] == a && [a, b][1..] == [b];
    assert Preset(dep, [a, b], [], keys) == Preset(dep, [b], s0, k0);
    assert [b][0] == b && [b][1..] == [];
    assert Preset(dep, [b], s0, k0) == Preset(dep, [], s1, k1);
  }

  /** A dict with both name and version keys: it succeeds exactly when every
      other key is versionsuffix or toolchain and the toolchain converts,
      and then name and version are str() of the given values. */
  lemma FullySpecified(dep: Value)
    requires dep.VDict? && DistinctKeys(dep.entries) && !IsExternal(dep.entries)
    requires HasKey(dep.entries, Name) && HasKey(dep.entries, Version)
    ensures NormalisedDependency(dep).Ok? ==>
      forall k :: k in Keys(dep.entries) ==> DependencyKey(k)
    ensures (forall k :: k in Keys(dep.entries) ==> DependencyKey(k)) &&
      (HasKey(dep.entries, ToolchainKey) ==> Toolchain.ToToolchainDict(Get(dep.entries, ToolchainKey).value).Ok?)
      ==> NormalisedDependency(dep).Ok?
    ensures NormalisedDependency(dep).Ok? ==>
      && Get(NormalisedDependency(dep).value.entries, Name) == Some(VStr(Text.Str(Get(dep.entries, Name).value)))
      && Get(NormalisedDependency(dep).value.entries, Version) == Some(VStr(Text.Str(Get(dep.entries, Version).value)))
  {
    var es := dep.entries;
    PresetBoth(es);
    var pre := Pre(es);
    var f := Fill(es, pre.1, pre.0);
    assert NormalisedDependency(dep) == Finish(f);
    if f.Ok? {
      FillNeedsSpecialKeys(es, pre.1, pre.0);
      FillSpecialKeys(es, pre.1, pre.0);
      assert forall k :: k in Keys(es) ==> DependencyKey(k) by {
        forall k | k in Keys(es)
          ensures DependencyKey(k)
        {
          if k != Name && k != Version {
            assert k in pre.1;
          }
        }
      }
    }
    if (forall k :: k in Keys(es) ==> DependencyKey(k)) &&
       (HasKey(es, ToolchainKey) ==> Toolchain.ToToolchainDict(Get(es, ToolchainKey).value).Ok?) {
      assert forall k :: k in pre.1 ==> HasKey(es, k) && (k == VersionSuffix || k == ToolchainKey) by { KeysDiffer(); }
      FillSpecialKeys(es, pre.1, pre.0);
    }
  }

  /** Without name and version, a dict of versionsuffix and toolchain keys
      only (also the empty dict) cannot be parsed. */
  lemma NoNameNorVersion(dep: Value)
    requires dep.VDict? && !IsExternal(dep.entries)
    requires forall k :: k in Keys(dep.entries) ==> k == VersionSuffix || k == ToolchainKey
    requires HasKey(dep.entries, ToolchainKey) ==> Toolchain.ToToolchainDict(Get(dep.entries, ToolchainKey).value).Ok?
    ensures NormalisedDependency(dep) == Fail(MissingNameOrVersion)
  {
    var es := dep.entries;
    KeysDiffer();
    assert !HasKey(es, Name) && !HasKey(es, Version);
    PresetNeither(es);
    assert NormalisedDependency(dep) == Finish(Fill(es, Keys(es), []));
    FillSpecialKeys(es, Keys(es), []);
  }

  /** The fallback: with name given but no version, the first other key
      becomes the name, replacing the given one, and its value the version. */
  lemma NameOnlyFallback(n: Value, k: Value, v: Value)
    requires k != Name && k != Version && k != VersionSuffix && k != ToolchainKey && k != ExternalModule
    ensures NormalisedDependency(VDict([(Name, n), (k, v)])) == Ok(VDict([(Name, k), (Version, VStr(Text.Str(v)))]))
  {
    var es := [(Name, n), (k, v)];
    var x, y := VStr(Text.Str(n)), VStr(Text.Str(v));
    NameNotVersion();
    NameNotExternal();
    GetOfTwo(Name, k, n, v, ExternalModule);
    GetOfTwo(Name, k, n, v, Version);
    GetOfTwo(Name, k, n, v, k);
    KeysOfTwo(Name, k, n, v);
    PresetFirstOnly(es, Name, Version, [Name, k]);
    assert RemoveFirst([Name, k], Name) == [k];
    PutOnEmpty(Name, x);
    FillOneFallback(es, k, [(Name, x)]);
    PutOverOne(Name, x, k, Version, y);
    var s1 := [(Name, k), (Version, y)];
    KeysOfTwo(Name, Version, k, y);
    assert Pre(es) == ([(Name, x)], [k]);
    FilledDict(VDict(es), s1);
  }

  /** to_dependency on a dict that is not an external module, once the two
      loops have filled a depspec with name and version. */
  lemma FilledDict(dep: Value, filled: seq<(Value, Value)>)
    requires dep.VDict? && !IsExternal(dep.entries)
    requires Fill(dep.entries, Pre(dep.entries).1, Pre(dep.entries).0) == Ok(filled)
    requires HasKey(filled, Name) && HasKey(filled, Version)
    ensures NormalisedDependency(dep) == Ok(VDict(filled))
  {
  }

  lemma NameNotExternal()
    ensures Name != ExternalModule
  {
    assert Name.s[0] == 'n' && ExternalModule.s[0] == 'e';
  }

  /** Looking up a key of a two-entry dict. */
  lemma GetOfTwo(a: Value, b: Value, va: Value, vb: Value, c: Value)
    requires a != b
    ensures Get([(a, va), (b, vb)], c) == if c == a then Some(va) else if c == b then Some(vb) else None
  {
    var es := [(a, va), (b, vb)];
    assert es[1..] == [(b, vb)] && es[1..][1..] == [];
  }

  lemma KeysOfTwo(a: Value, b: Value, va: Value, vb: Value)
    ensures Keys([(a, va), (b, vb)]) == [a, b]
  {
  }

  /** The first loop when dep has the first fixed name only. */
  lemma PresetFirstOnly(dep: seq<(Value, Value)>, a: Value, b: Value, keys: seq<Value>)
    requires HasKey(dep, a) && !HasKey(dep, b)
    ensures Preset(dep, [a, b], [], keys) == (Put([], a, VStr(Text.Str(Get(dep, a).value))), RemoveFirst(keys, a))
  {
    var s0, k0 := Put([], a, VStr(Text.Str(Get(dep, a).value))), RemoveFirst(keys, a);
    assert [a, b][0] == a && [a, b][1..] == [b];
    assert Preset(dep, [a, b], [], keys) == Preset(dep, [b], s0, k0);
    assert [b][0] == b && [b][1..] == [];
    assert Preset(dep, [b], s0, k0) == Preset(dep, [], s0, k0);
  }

  lemma PutOnEmpty(a: Value, x: Value)
    ensures Put([], a, x) == [(a, x)]
  {
  }

  /** `d[a] = y` then `d[b] = z` on the one-entry dict {a: x}. */
  lemma PutOverOne(a: Value, x: Value, y: Value, b: Value, z: Value)
    requires a != b
    ensures Put(Put([(a, x)], a, y), b, z) == [(a, y), (b, z)]
  {
    PutExisting([(a, x)], 0, y);
    assert [(a, x)][0 := (a, y)] == [(a, y)];
    PutNew([(a, y)], b, z);
  }

  /** The second loop on a single ordinary key while name or version is
      still unset: the fallback. */
  lemma FillOneFallback(dep: seq<(Value, Value)>, key: Value, depspec: seq<(Value, Value)>)
    requires HasKey(dep, key) && key != VersionSuffix && key != ToolchainKey
    requires !(HasKey(depspec, Name) && HasKey(depspec, Version))
    ensures Fill(dep, [key], depspec) == Ok(Put(Put(depspec, Name, key), Version, VStr(Text.Str(Get(dep, key).value))))
  {
    FillStepFallback(dep, key, depspec);
    assert [key][0] == key && [key][1..] == [];
  }

  /** The documented example {'foo': '1.2.3', 'toolchain': ...} becomes
      {'name': 'foo', 'version': '1.2.3', 'toolchain': ...}, for any name
      key, version string and convertible toolchain. */
  lemma DocumentedExample(k: string, ver: string, tc: Value)
    requires VStr(k) !in {Name, Version, VersionSuffix, ToolchainKey, ExternalModule}
    requires Toolchain.ToToolchainDict(tc).Ok?
    ensures NormalisedDependency(VDict([(VStr(k), VStr(ver)), (ToolchainKey, tc)])) ==
      Ok(VDict([(Name, VStr(k)), (Version, VStr(ver)), (ToolchainKey, Toolchain.ToToolchainDict(tc).value)]))
  {
    var key := VStr(k);
    var x := VStr(ver);
    var es := [(key, x), (ToolchainKey, tc)];
    var t := Toolchain.ToToolchainDict(tc).value;
    var s1 := [(Name, key), (Version, x)];
    var s2 := s1 + [(ToolchainKey, t)];
    assert key != Name && key != Version && key != VersionSuffix && key != ToolchainKey && key != ExternalModule;
    SpecialKeysDiffer();
    ExternalNotSpecial();
    NameNotVersion();
    GetOfTwo(key, ToolchainKey, x, tc, ExternalModule);
    GetOfTwo(key, ToolchainKey, x, tc, Name);
    GetOfTwo(key, ToolchainKey, x, tc, Version);
    GetOfTwo(key, ToolchainKey, x, tc, key);
    GetOfTwo(key, ToolchainKey, x, tc, ToolchainKey);
    KeysOfTwo(key, ToolchainKey, x, tc);
    PresetNeither(es);
    FallbackFromEmpty(es, key, ver);
    FillFirst(es, [key, ToolchainKey], [], s1);
    assert [key, ToolchainKey][1..] == [ToolchainKey];
    KeysOfTwo(Name, Version, key, x);
    ToolchainLast(es, s1, tc);
    AppendToPair((Name, key), (Version, x), (ToolchainKey, t));
    GetOfThree(Name, Version, ToolchainKey, key, x, t);
    FilledDict(VDict(es), s2);
  }

  /** to_dependency on a dict that is not an external module. */
  lemma NotExternal(dep: Value)
    requires dep.VDict? && !IsExternal(dep.entries)
    ensures NormalisedDependency(dep) == Finish(Fill(dep.entries, Pre(dep.entries).1, Pre(dep.entries).0))
  {
  }

  /** The second loop after a successful first turn. */
  lemma FillFirst(dep: seq<(Value, Value)>, keys: seq<Value>, depspec: seq<(Value, Value)>, next: seq<(Value, Value)>)
    requires forall k :: k in keys ==> HasKey(dep, k)
    requires keys != [] && FillStep(dep, keys[0], depspec) == Ok(next)
    ensures Fill(dep, keys, depspec) == Fill(dep, keys[1..], next)
  {
  }

  /** A toolchain key as the last key still to do, not yet in depspec. */
  lemma ToolchainLast(dep: seq<(Value, Value)>, depspec: seq<(Value, Value)>, tc: Value)
    requires Get(dep, ToolchainKey) == Some(tc) && Toolchain.ToToolchainDict(tc).Ok?
    requires ToolchainKey !in Keys(depspec)
    ensures Fill(dep, [ToolchainKey], depspec) == Ok(depspec + [(ToolchainKey, Toolchain.ToToolchainDict(tc).value)])
  {
    ToolchainNotSuffix();
    var t := Toolchain.ToToolchainDict(tc).value;
    assert FillStep(dep, ToolchainKey, depspec) == Ok(Put(depspec, ToolchainKey, t));
    PutNew(depspec, ToolchainKey, t);
    FillFirst(dep, [ToolchainKey], depspec, depspec + [(ToolchainKey, t)]);
    assert [ToolchainKey][1..] == [];
  }

  lemma ToolchainNotSuffix()
    ensures ToolchainKey != VersionSuffix
  {
    assert ToolchainKey.s[0] == 't' && VersionSuffix.s[0] == 'v';
  }

  /** The first loop does nothing on a dict without name and version. */
  lemma PresetNeither(dep: seq<(Value, Value)>)
    requires !HasKey(dep, Name) && !HasKey(dep, Version)
    ensures Pre(dep) == ([], Keys(dep))
  {
    assert [Name, Version][1..] == [Version];
    assert Preset(dep, [Version], [], Keys(dep)) == ([], Keys(dep));
  }

  /** The fallback from an empty depspec, for a string version. */
  lemma FallbackFromEmpty(dep: seq<(Value, Value)>, key: Value, ver: string)
    requires Get(dep, key) == Some(VStr(ver)) && key != VersionSuffix && key != ToolchainKey
    ensures FillStep(dep, key, []) == Ok([(Name, key), (Version, VStr(ver))])
  {
    var x := VStr(ver);
    NameNotVersion();
    FillStepFallback(dep, key, []);
    assert VStr(Text.Str(Get(dep, key).value)) == x;
    PutOnEmpty(Name, key);
    var s0 := Put([], Name, key);
    assert Keys(s0) == [Name];
    PutNew(s0, Version, x);
    var s1 := Put(s0, Version, x);
    AppendToOne((Name, key), (Version, x));
    assert s1 == [(Name, key), (Version, x)];
  }

  lemma AppendToOne<T>(a: T, b: T)
    ensures [a] + [b] == [a, b]
  {
  }

  lemma AppendToPair<T>(a: T, b: T, c: T)
    ensures [a, b] + [c] == [a, b, c]
  {
  }

  /** A dict that sets external_module to False is not an external module,
      and the key is left over once name and version are set. */
  lemma ExternalFlagFalse(n: Value, v: Value)
    ensures NormalisedDependency(VDict([(Name, n), (Version, v), (ExternalModule, VBool(false))])) == Fail(UnexpectedPair)
  {
    var f := VBool(false);
    var es := [(Name, n), (Version, v), (ExternalModule, f)];
    NameNotVersion();
    NameNotExternal();
    VersionNotExternal();
    GetOfThree(Name, Version, ExternalModule, n, v, f);
    assert Keys(es) == [Name, Version, ExternalModule];
    PresetPair(es, Name, Version, Keys(es));
    assert RemoveFirst([Name, Version, ExternalModule], Name) == [Version, ExternalModule];
    assert RemoveFirst([Version, ExternalModule], Version) == [ExternalModule];
    var s1 := Put(Put([], Name, VStr(Text.Str(n))), Version, VStr(Text.Str(v)));
    assert HasKey(s1, Name) && HasKey(s1, Version);
    SpecialKeysDiffer();
    ExternalNotSpecial();
    FillStepUnexpected(es, ExternalModule, s1);
    assert Pre(es) == (s1, [ExternalModule]);
    FillFailed(VDict(es), UnexpectedPair);
  }

  /** to_dependency on a dict that is not an external module, when the
      second loop raises. */
  lemma FillFailed(dep: Value, e: Error)
    requires dep.VDict? && !IsExternal(dep.entries)
    requires Fill(dep.entries, Pre(dep.entries).1, Pre(dep.entries).0) == Fail(e)
    ensures NormalisedDependency(dep) == Fail(e)
  {
  }

  lemma VersionNotExternal()
    ensures Version != ExternalModule
  {
    assert Version.s[0] == 'v' && ExternalModule.s[0] == 'e';
  }

  lemma ExternalNotSpecial()
    ensures ExternalModule != VersionSuffix && ExternalModule != ToolchainKey
  {
    assert ExternalModule.s[0] == 'e' && VersionSuffix.s[0] == 'v' && ToolchainKey.s[0] == 't';
  }

  /** Looking up each key of a three-entry dict with distinct keys. */
  lemma GetOfThree(a: Value, b: Value, c: Value, va: Value, vb: Value, vc: Value)
    requires a != b && a != c && b != c
    ensures var es := [(a, va), (b, vb), (c, vc)];
      Get(es, a) == Some(va) && Get(es, b) == Some(vb) && Get(es, c) == Some(vc)
  {
    var es := [(a, va), (b, vb), (c, vc)];
    assert es[0].0 == a && es[1..] == [(b, vb), (c, vc)];
    GetOfTwo(b, c, vb, vc, b);
    GetOfTwo(b, c, vb, vc, c);
  }

  /** FillStep on an ordinary key once name and version are both set. */
  lemma FillStepUnexpected(dep: seq<(Value, Value)>, key: Value, depspec: seq<(Value, Value)>)
    requires HasKey(dep, key) && key != VersionSuffix && key != ToolchainKey
    requires HasKey(depspec, Name) && HasKey(depspec, Version)
    ensures FillStep(dep, key, depspec) == Fail(UnexpectedPair)
    ensures Fill(dep, [key], depspec) == Fail(UnexpectedPair)
  {
  }

  /** The comprehension `[f(x) for x in xs]`: the first element that
      raises makes the whole of it raise. */
  function MapAll(f: Value -> Outcome<Value>, xs: seq<Value>): Outcome<seq<Value>>
  {
    if xs == [] then Ok([])
    else
      var y :- f(xs[0]);
      var rest :- MapAll(f, xs[1..]);
      Ok([y] + rest)
  }

  /** to_dependencies(dep_list). */
  function ToDependencies(depList: Value): Outcome<Value>
  {
    match Iterate(depList)
    case None => Fail(NotIterable)
    case Some(xs) =>
      var ys :- MapAll(NormalisedDependency, xs);
      Ok(VList(ys))
  }

  lemma {:induction false} MapAllMeaning(f: Value -> Outcome<Value>, xs: seq<Value>)
    ensures MapAll(f, xs).Ok? <==> forall i :: 0 <= i < |xs| ==> f(xs[i]).Ok?
    ensures MapAll(f, xs).Ok? ==> (|MapAll(f, xs).value| == |xs| &&
      forall i :: 0 <= i < |xs| ==> MapAll(f, xs).value[i] == f(xs[i]).value)
  {
    if xs != [] {
      MapAllMeaning(f, xs[1..]);
      assert forall i :: 1 <= i < |xs| ==> xs[1..][i - 1] == xs[i];
    }
  }

  lemma {:induction false} FirstFailure(f: Value -> Outcome<Value>, xs: seq<Value>, j: nat)
    requires j < |xs| && f(xs[j]).Fail?
    requires forall i :: 0 <= i < j ==> f(xs[i]).Ok?
    ensures MapAll(f, xs) == Fail(f(xs[j]).error)
  {
    if j > 0 {
      var tail := xs[1..];
      assert tail[j - 1] == xs[j];
      forall i | 0 <= i < j - 1
        ensures f(tail[i]).Ok?
      {
        assert tail[i] == xs[i + 1];
      }
      FirstFailure(f, tail, j - 1);
      assert f(xs[0]).Ok?;
    }
  }

  /** The first dependency that raises decides the error of to_dependencies. */
  lemma FirstBadDependency(depList: Value, j: nat)
    requires Iterate(depList).Some? && j < |Iterate(depList).value|
    requires NormalisedDependency(Iterate(depList).value[j]).Fail?
    requires forall i :: 0 <= i < j ==> NormalisedDependency(Iterate(depList).value[i]).Ok?
    ensures ToDependencies(depList) == Fail(NormalisedDependency(Iterate(depList).value[j]).error)
  {
    FirstFailure(NormalisedDependency, Iterate(depList).value, j);
  }

  /** to_dependencies keeps length and order: each element is normalised on
      its own; anything it cannot iterate raises. */
  lemma ToDependenciesLaw(depList: Value)
    ensures Iterate(depList).None? ==> ToDependencies(depList) == Fail(NotIterable)
    ensures Iterate(depList).Some? ==>
      var xs := Iterate(depList).value;
      && (ToDependencies(depList).Ok? <==> forall i :: 0 <= i < |xs| ==> NormalisedDependency(xs[i]).Ok?)
      && (ToDependencies(depList).Ok? ==>
            ToDependencies(depList).value.VList? && |ToDependencies(depList).value.items| == |xs| &&
            forall i :: 0 <= i < |xs| ==> ToDependencies(depList).value.items[i] == NormalisedDependency(xs[i]).value)
  {
    if Iterate(depList).Some? {
      MapAllMeaning(NormalisedDependency, Iterate(depList).value);
    }
  }
}
