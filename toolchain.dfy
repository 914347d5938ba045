/** to_toolchain_dict: a toolchain given as "name, version[, hidden]", as a
    list or tuple of two or three strings, or as a dict, normalised to a
    dict with name, version and an optional hidden key. */
module Toolchain {
  import opened Values
  import opened Text
  import opened Descriptors
  import opened Matcher
  import TableLaws

  /** The words that set and clear the hidden flag, after strip() and lower(). */
  const TrueWords: set<string> := {"yes", "true", "t", "y", "1", "on"}
  const FalseWords: set<string> := {"no", "false", "f", "n", "0", "off"}

  /** The hidden flag, read from its stripped, lower-cased text. */
  function TruthValue(word: string): Outcome<bool>
  {
    if word in TrueWords then Ok(true)
    else if word in FalseWords then Ok(false)
    else Fail(InvalidTruthValue)
  }

  /** part.strip(): only a string has a strip method. */
  function StripPart(part: Value): Outcome<string>
  {
    if part.VStr? then Ok(Strip(part.s)) else Fail(NotAString)
  }

  /** spec.split(','), as a list of string values. */
  function SplitParts(s: string): (r: seq<Value>)
    ensures |r| == multiset(s)[','] + 1
    ensures forall i :: 0 <= i < |r| ==> r[i] == VStr(Split(s, ',')[i])
  {
    var parts := Split(s, ',');
    seq(|parts|, i requires 0 <= i < |parts| => VStr(parts[i]))
  }

  function NameVersion(name: string, version: string): Value
  {
    VDict([(VStr("name"), VStr(name)), (VStr("version"), VStr(version))])
  }

  function NameVersionHidden(name: string, version: string, hidden: bool): Value
  {
    VDict([(VStr("name"), VStr(name)), (VStr("version"), VStr(version)), (VStr("hidden"), VBool(hidden))])
  }

  /** sorted(keys) is ['name', 'version'] or ['hidden', 'name', 'version']:
      two keys that are name and version, or three that are hidden, name
      and version. */
  predicate ToolchainKeys(entries: seq<(Value, Value)>)
  {
    && (|entries| == 2 || |entries| == 3)
    && VStr("name") in Keys(entries)
    && VStr("version") in Keys(entries)
    && (|entries| == 3 ==> VStr("hidden") in Keys(entries))
  }

  /** A list or tuple of parts: two give name and version, three also give
      hidden, which is read first. */
  function FromParts(parts: seq<Value>): Outcome<Value>
  {
    if |parts| == 2 then
      var name :- StripPart(parts[0]);
      var version :- StripPart(parts[1]);
      Ok(NameVersion(name, version))
    else if |parts| == 3 then
      var word :- StripPart(parts[2]);
      var hidden :- TruthValue(Lower(word));
      var name :- StripPart(parts[0]);
      var version :- StripPart(parts[1]);
      Ok(NameVersionHidden(name, version, hidden))
    else Fail(WrongLength)
  }

  /** to_toolchain_dict(spec). A dict comes back unchanged if its keys are
      right; its values are not looked at. */
  function ToToolchainDict(spec: Value): (r: Outcome<Value>)
    ensures spec.VDict? ==> (r.Ok? <==> ToolchainKeys(spec.entries)) && (r.Ok? ==> r.value == spec)
    ensures r.Fail? && (spec.VList? || spec.VTuple?) && |spec.items| != 2 && |spec.items| != 3 ==> r.error == WrongLength
    ensures !(spec.VStr? || spec.VList? || spec.VTuple? || spec.VDict?) ==> r == Fail(Unsupported)
  {
    match spec
    case VStr(s) => FromParts(SplitParts(s))
    case VList(parts) => FromParts(parts)
    case VTuple(parts) => FromParts(parts)
    case VDict(e) => if ToolchainKeys(e) then Ok(spec) else Fail(BadToolchainKeys)
    case _ => Fail(Unsupported)
  }

  /** Only the words of the two lists are accepted, and none is in both, so
      the order of the two tests does not matter. */
  lemma TruthWordsDisjoint()
    ensures TrueWords !! FalseWords
    ensures forall w :: TruthValue(w).Fail? <==> w !in TrueWords && w !in FalseWords
  {
  }

  /** A dict from a string, list or tuple has string name and version and,
      with three parts, a bool hidden; so it matches TOOLCHAIN_DICT. */
  lemma ConvertedConforms(spec: Value)
    requires !spec.VDict? && ToToolchainDict(spec).Ok?
    ensures TableLaws.ToolchainShaped(ToToolchainDict(spec).value)
    ensures DistinctKeys(ToToolchainDict(spec).value.entries)
    ensures Conforms(CheckableTypes, ToToolchainDict(spec).value, ToolchainDict) == Ok(true)
  {
    var parts := if spec.VStr? then SplitParts(spec.s) else spec.items;
    assert ToToolchainDict(spec) == FromParts(parts);
    PartsShaped(parts);
    TableLaws.ToolchainDictExactly(FromParts(parts).value);
  }

  lemma PartsShaped(parts: seq<Value>)
    requires FromParts(parts).Ok?
    ensures FromParts(parts).value.VDict?
    ensures TableLaws.ToolchainShaped(FromParts(parts).value)
    ensures DistinctKeys(FromParts(parts).value.entries)
    ensures ToolchainKeys(FromParts(parts).value.entries)
  {
    var name, version := StripPart(parts[0]).value, StripPart(parts[1]).value;
    if |parts| == 2 {
      NameVersionShaped(name, version);
    } else {
      NameVersionHiddenShaped(name, version, TruthValue(Lower(StripPart(parts[2]).value)).value);
    }
  }

  lemma NameVersionShaped(name: string, version: string)
    ensures TableLaws.ToolchainShaped(NameVersion(name, version))
    ensures DistinctKeys(NameVersion(name, version).entries)
    ensures ToolchainKeys(NameVersion(name, version).entries)
  {
    var e := NameVersion(name, version).entries;
    assert Keys(e)[0] == VStr("name") && Keys(e)[1] == VStr("version");
  }

  lemma NameVersionHiddenShaped(name: string, version: string, hidden: bool)
    ensures TableLaws.ToolchainShaped(NameVersionHidden(name, version, hidden))
    ensures DistinctKeys(NameVersionHidden(name, version, hidden).entries)
    ensures ToolchainKeys(NameVersionHidden(name, version, hidden).entries)
  {
    var e := NameVersionHidden(name, version, hidden).entries;
    assert Keys(e)[0] == VStr("name") && Keys(e)[1] == VStr("version") && Keys(e)[2] == VStr("hidden");
  }

  /** Normalising a normalised toolchain changes nothing. */
  lemma Idempotent(spec: Value)
    requires ToToolchainDict(spec).Ok?
    ensures ToToolchainDict(ToToolchainDict(spec).value) == ToToolchainDict(spec)
  {
    if !spec.VDict? {
      var parts := if spec.VStr? then SplitParts(spec.s) else spec.items;
      assert ToToolchainDict(spec) == FromParts(parts);
      PartsShaped(parts);
    }
  }

  /** A comma-separated toolchain string is accepted iff it has two parts,
      or three parts of which the last is a truth word; a string with
      another number of commas raises the length error. */
  lemma StringLaw(s: string)
    ensures ToToolchainDict(VStr(s)).Ok? <==>
      || multiset(s)[','] == 1
      || (multiset(s)[','] == 2 && Lower(Strip(Split(s, ',')[2])) in TrueWords + FalseWords)
    ensures multiset(s)[','] != 1 && multiset(s)[','] != 2 ==> ToToolchainDict(VStr(s)) == Fail(WrongLength)
  {
    var parts := SplitParts(s);
    assert ToToolchainDict(VStr(s)) == FromParts(parts);
    if |parts| == 2 {
      assert StripPart(parts[0]).Ok? && StripPart(parts[1]).Ok?;
    } else if |parts| == 3 {
      assert StripPart(parts[0]).Ok? && StripPart(parts[1]).Ok?;
      assert StripPart(parts[2]) == Ok(Strip(Split(s, ',')[2]));
    }
  }

  /** Splitting "a,b" with no comma in a or b gives back a and b. */
  lemma SplitTwo(a: string, b: string)
    requires ',' !in a && ',' !in b
    ensures Split(a + "," + b, ',') == [a, b]
  {
    var s := a + "," + b;
    var p := Split(s, ',');
    assert multiset(s)[','] == 1 by {
      assert multiset(s) == multiset(a) + multiset{','} + multiset(b);
    }
    assert Join(p, ',') == p[0] + "," + p[1] by {
      assert p[1..] == [p[1]];
    }
    CutUnique(p[0], p[1], a, b);
  }

  /** The cut at the only separator is unique. */
  lemma CutUnique(x: string, y: string, a: string, b: string)
    requires x + "," + y == a + "," + b && ',' !in x && ',' !in a
    ensures x == a && y == b
  {
    var s := a + "," + b;
    NotShorter(x, y, a, b);
    NotShorter(a, b, x, y);
    assert x == s[..|x|] && a == s[..|a|];
    assert y == s[|x| + 1..] && b == s[|a| + 1..];
  }

  lemma NotShorter(x: string, y: string, a: string, b: string)
    requires x + "," + y == a + "," + b && ',' !in a
    ensures |x| >= |a|
  {
    assert forall i :: 0 <= i < |a| ==> (a + "," + b)[i] == a[i];
    assert (x + "," + y)[|x|] == ',';
  }

  /** Text with no surrounding whitespace is left alone by strip(). */
  lemma StripKeeps(s: string)
    requires s == [] || (!IsSpace(s[0]) && !IsSpace(s[|s| - 1]))
    ensures Strip(s) == s
  {
  }

  /** A name and version without commas, written as "name,version", read
      back as the name/version dict of their stripped texts. */
  lemma FormatRoundTrip(name: string, version: string)
    requires ',' !in name && ',' !in version
    ensures ToToolchainDict(VStr(name + "," + version)) == Ok(NameVersion(Strip(name), Strip(version)))
  {
    var s := name + "," + version;
    SplitTwo(name, version);
    var parts := SplitParts(s);
    assert parts == [VStr(name), VStr(version)];
    assert ToToolchainDict(VStr(s)) == FromParts(parts);
  }

  /** The list form with a bool written as True or False reads back the flag. */
  lemma HiddenRoundTrip(name: string, version: string, hidden: bool)
    requires name == [] || (!IsSpace(name[0]) && !IsSpace(name[|name| - 1]))
    requires version == [] || (!IsSpace(version[0]) && !IsSpace(version[|version| - 1]))
    ensures ToToolchainDict(VList([VStr(name), VStr(version), VStr(BoolWord(hidden))]))
      == Ok(NameVersionHidden(name, version, hidden))
  {
    StripKeeps(name);
    StripKeeps(version);
    HiddenWord(hidden);
    var parts := [VStr(name), VStr(version), VStr(BoolWord(hidden))];
    FromThree(parts, name, version, BoolWord(hidden), hidden);
    ListForm(parts);
  }

  lemma ListForm(parts: seq<Value>)
    ensures ToToolchainDict(VList(parts)) == FromParts(parts)
  {
  }

  /** str() of a bool. */
  function BoolWord(b: bool): string
  {
    if b then "True" else "False"
  }

  lemma HiddenWord(hidden: bool)
    ensures StripPart(VStr(BoolWord(hidden))) == Ok(BoolWord(hidden))
    ensures TruthValue(Lower(BoolWord(hidden))) == Ok(hidden)
  {
    StripKeeps(BoolWord(hidden));
    LowerWords();
    TruthWords();
  }

  lemma FromThree(parts: seq<Value>, name: string, version: string, word: string, hidden: bool)
    requires |parts| == 3 && StripPart(parts[0]) == Ok(name) && StripPart(parts[1]) == Ok(version)
    requires StripPart(parts[2]) == Ok(word) && TruthValue(Lower(word)) == Ok(hidden)
    ensures FromParts(parts) == Ok(NameVersionHidden(name, version, hidden))
  {
  }

  lemma TruthWords()
    ensures TruthValue("true") == Ok(true) && TruthValue("false") == Ok(false)
    ensures TruthValue("maybe") == Fail(InvalidTruthValue)
  {
    assert "true" in TrueWords;
    assert "false" !in TrueWords by {
      assert forall w :: w in TrueWords ==> |w| != 5 || w[0] != 'f';
    }
    assert "false" in FalseWords;
    assert "maybe" !in TrueWords && "maybe" !in FalseWords by {
      assert forall w :: w in TrueWords + FalseWords ==> |w| != 5 || w[0] == 'f';
    }
  }

  lemma LowerWords()
    ensures Lower("True") == "true" && Lower("False") == "false" && Lower("maybe") == "maybe"
  {
    var t, f, m := Lower("True"), Lower("False"), Lower("maybe");
    assert t[0] == 't' && t[1] == 'r' && t[2] == 'u' && t[3] == 'e';
    assert f[0] == 'f' && f[1] == 'a' && f[2] == 'l' && f[3] == 's' && f[4] == 'e';
    assert m[0] == 'm' && m[1] == 'a' && m[2] == 'y' && m[3] == 'b' && m[4] == 'e';
  }

  /** An unknown truth word and a list of the wrong length are rejected. */
  lemma Examples()
    ensures ToToolchainDict(VList([VStr("foss"), VStr("2016a"), VStr("maybe")])) == Fail(InvalidTruthValue)
    ensures ToToolchainDict(VList([VStr("foss")])) == Fail(WrongLength)
    ensures ToToolchainDict(VInt(3)) == Fail(Unsupported)
  {
    BadWordExample("foss", "2016a", "maybe");
  }

  lemma BadWordExample(name: string, version: string, word: string)
    requires name == "foss" && version == "2016a" && word == "maybe"
    ensures ToToolchainDict(VList([VStr(name), VStr(version), VStr(word)])) == Fail(InvalidTruthValue)
  {
    StripKeeps(word);
    LowerWords();
    TruthWords();
    var q := [VStr(name), VStr(version), VStr(word)];
    assert StripPart(q[2]) == Ok(word);
  }
}
