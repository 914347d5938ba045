/** check_type_of_param_value and convert_value_type: a parameter value is
    checked against the type PARAMETER_TYPES declares for it and, when asked
    to, converted with the function TYPE_CONVERSION_FUNCTIONS registers for
    that type. */
module Dispatch {
  import opened Values
  import opened Descriptors
  import opened Matcher
  import Text
  import Toolchain
  import Lists
  import Sanity
  import Dependency
  import ChecksumEntries
  import TableLaws
  import MatcherLaws

  /** The functions of TYPE_CONVERSION_FUNCTIONS. The float entry has no
      counterpart: no value here is a float and no parameter is declared
      with that type. */
  datatype Converter =
    | StrFn
    | IntFn
    | ToChecksumsFn
    | ToDependenciesFn
    | ToListOfStringsFn
    | ToToolchainDictFn
    | ToSanityCheckPathsDictFn
    | ToListOfStringsAndTuplesFn
    | ToListOfStringsAndTuplesAndDictsFn

  /** TYPE_CONVERSION_FUNCTIONS.get(typ). */
  function ConverterFor(typ: Desc): Option<Converter>
  {
    if typ == PStr then Some(StrFn)
    else if typ == PInt then Some(IntFn)
    else if typ == Checksums then Some(ToChecksumsFn)
    else if typ == Dependencies then Some(ToDependenciesFn)
    else if typ == ListOfStrings then Some(ToListOfStringsFn)
    else if typ == ToolchainDict then Some(ToToolchainDictFn)
    else if typ == SanityCheckPathsDict then Some(ToSanityCheckPathsDictFn)
    else if typ == StringOrTupleList then Some(ToListOfStringsAndTuplesFn)
    else if typ == StringOrTupleOrDictList then Some(ToListOfStringsAndTuplesAndDictsFn)
    else None
  }

  /** The descriptors TYPE_CONVERSION_FUNCTIONS is keyed by differ from each
      other and from TUPLE_OF_STRINGS. */
  lemma KeysOfConversionTable()
    ensures PStr != PInt
    ensures Checksums != Dependencies && Checksums != ListOfStrings && Checksums != ToolchainDict
    ensures Checksums != SanityCheckPathsDict && Checksums != StringOrTupleList && Checksums != StringOrTupleOrDictList
    ensures Dependencies != ListOfStrings && Dependencies != ToolchainDict && Dependencies != SanityCheckPathsDict
    ensures Dependencies != StringOrTupleList && Dependencies != StringOrTupleOrDictList
    ensures ListOfStrings != ToolchainDict && ListOfStrings != SanityCheckPathsDict
    ensures ListOfStrings != StringOrTupleList && ListOfStrings != StringOrTupleOrDictList
    ensures ToolchainDict != SanityCheckPathsDict && ToolchainDict != StringOrTupleList
    ensures ToolchainDict != StringOrTupleOrDictList
    ensures SanityCheckPathsDict != StringOrTupleList && SanityCheckPathsDict != StringOrTupleOrDictList
    ensures StringOrTupleList != StringOrTupleOrDictList
    ensures TupleOfStrings !in {Checksums, Dependencies, ListOfStrings, ToolchainDict, SanityCheckPathsDict,
                                StringOrTupleList, StringOrTupleOrDictList}
  {
    assert |Checksums.reqs[0].1| == 6 && |Dependencies.reqs[0].1| == 1 && |ListOfStrings.reqs[0].1| == 1;
    assert |StringOrTupleList.reqs[0].1| == 2 && |StringOrTupleOrDictList.reqs[0].1| == 3;
    assert Dependencies.reqs[0].1[0].t.Comp? && ListOfStrings.reqs[0].1[0].t.Prim?;
    assert |ToolchainDict.reqs[1].1| == 1 && |SanityCheckPathsDict.reqs[1].1| == 0;
    assert Checksums.parent == List && Dependencies.parent == List && ListOfStrings.parent == List;
    assert StringOrTupleList.parent == List && StringOrTupleOrDictList.parent == List;
    assert ToolchainDict.parent == Dict && SanityCheckPathsDict.parent == Dict && TupleOfStrings.parent == Tuple;
  }

  /** func(val) for a registered conversion function. */
  function Apply(f: Converter, val: Value): Outcome<Value>
  {
    match f
    case StrFn => Ok(VStr(Text.Str(val)))
    case IntFn => ToInt(val)
    case ToChecksumsFn => ChecksumEntries.ToChecksums(val)
    case ToDependenciesFn => Dependency.ToDependencies(val)
    case ToListOfStringsFn => Lists.ToListOfStrings(val)
    case ToToolchainDictFn => Toolchain.ToToolchainDict(val)
    case ToSanityCheckPathsDictFn => Sanity.SanityDict(val)
    case ToListOfStringsAndTuplesFn => Lists.StringsAndTuples(val, false)
    case ToListOfStringsAndTuplesAndDictsFn => Lists.StringsAndTuples(val, true)
  }

  predicate IsDigit(c: char)
  {
    '0' <= c <= '9'
  }

  /** The value of a string of decimal digits. */
  function DigitsValue(s: string): nat
    requires forall i :: 0 <= i < |s| ==> IsDigit(s[i])
  {
    if s == [] then 0
    else
      assert IsDigit(s[|s| - 1]);
      DigitsValue(s[..|s| - 1]) * 10 + (s[|s| - 1] as int - '0' as int)
  }

  /** An optional sign followed by at least one decimal digit. */
  function ParseInt(s: string): (r: Option<int>)
    ensures r.Some? ==> s != []
  {
    if s != [] && (s[0] == '-' || s[0] == '+') then
      var ds := s[1..];
      if ds != [] && forall i :: 0 <= i < |ds| ==> IsDigit(ds[i]) then
        var n: int := DigitsValue(ds);
        Some(if s[0] == '-' then -n else n)
      else None
    else if s != [] && forall i :: 0 <= i < |s| ==> IsDigit(s[i]) then Some(DigitsValue(s))
    else None
  }

  /** int(val): an int is kept, a bool counts as 0 or 1, and a string must
      be a decimal numeral, possibly surrounded by whitespace. */
  function ToInt(val: Value): Outcome<Value>
  {
    match val
    case VInt(_) => Ok(val)
    case VBool(b) => Ok(VInt(if b then 1 else 0))
    case VStr(s) =>
      (match ParseInt(Text.Strip(s))
       case Some(i) => Ok(VInt(i))
       case None => Fail(Unsupported))
    case _ => Fail(Unsupported)
  }

  /** The type `isinstance(res, typ)` effectively tests: the type itself, or
      the parent type of a composite descriptor. */
  function ParentKind(typ: Desc): Kind
  {
    if typ.Prim? then typ.kind else typ.parent
  }

  /** convert_value_type(val, typ). Every kind is in EASY_TYPES, so the
      first test applies to every plain type. */
  function ConvertValueType(val: Value, typ: Desc): (r: Outcome<Value>)
    ensures r.Ok? ==> IsInstance(r.value, ParentKind(typ))
  {
    if typ.Prim? && IsInstance(val, typ.kind) then Ok(val)
    else
      var matched :- if typ in CheckableTypes then Conforms(CheckableTypes, val, typ) else Ok(false);
      if matched then Ok(val)
      else
        match ConverterFor(typ)
        case None => Fail(NoConversion)
        case Some(f) =>
          match Apply(f, val)
          case Fail(e) => Fail(ConversionFailed(e))
          case Ok(res) => if IsInstance(res, ParentKind(typ)) then Ok(res) else Fail(UnexpectedResultType)
  }

  /** check_type_of_param_value(key, val, auto_convert), with PARAMETER_TYPES
      built from the given dependency parameter names. */
  function CheckTypeOfParamValue(dependencyParameters: seq<string>, key: string, val: Value, autoConvert: bool):
    Outcome<(bool, Value)>
  {
    var types := ParameterTypes(dependencyParameters);
    var typeOk :- if key !in types then Ok(true) else Conforms(CheckableTypes, val, types[key]);
    if typeOk then Ok((true, val))
    else if autoConvert then
      var newval :- ConvertValueType(val, types[key]);
      Ok((true, newval))
    else Ok((false, VNone))
  }

  /** Every type PARAMETER_TYPES declares is plain or registered in
      CHECKABLE_TYPES, so checking a parameter value never raises. */
  lemma ParameterTypesChecked(dependencyParameters: seq<string>, key: string, val: Value)
    requires key in ParameterTypes(dependencyParameters)
    ensures ParameterTypes(dependencyParameters)[key].Prim? || ParameterTypes(dependencyParameters)[key] in CheckableTypes
    ensures Conforms(CheckableTypes, val, ParameterTypes(dependencyParameters)[key]).Ok?
  {
    var t := CheckableTypes;
    TableLaws.InTableToo(t);
    TableLaws.InTable(t);
    var d := ParameterTypes(dependencyParameters)[key];
    if key !in dependencyParameters {
      assert d in BaseParameterTypes.Values;
    }
    TableLaws.TableNeverRaises(val, d);
  }

  /** Every type PARAMETER_TYPES declares has a conversion function. */
  lemma ParameterTypesConvertible(dependencyParameters: seq<string>, key: string)
    requires key in ParameterTypes(dependencyParameters)
    ensures ConverterFor(ParameterTypes(dependencyParameters)[key]).Some?
  {
    var d := ParameterTypes(dependencyParameters)[key];
    if key !in dependencyParameters {
      assert d in BaseParameterTypes.Values;
    }
  }

  /** check_type_of_param_value: an unregistered parameter or a matching
      value gives (True, val); a value that does not match gives (False,
      None) without auto_convert, and the converted value, or the
      conversion error, with it. It raises only when converting. */
  lemma CheckTypeLaw(dependencyParameters: seq<string>, key: string, val: Value, autoConvert: bool)
    ensures var types := ParameterTypes(dependencyParameters);
      var r := CheckTypeOfParamValue(dependencyParameters, key, val, autoConvert);
      && (key !in types ==> r == Ok((true, val)))
      && (key in types && Conforms(CheckableTypes, val, types[key]) == Ok(true) ==> r == Ok((true, val)))
      && (key in types && Conforms(CheckableTypes, val, types[key]) == Ok(false) && !autoConvert ==>
            r == Ok((false, VNone)))
      && (key in types && Conforms(CheckableTypes, val, types[key]) == Ok(false) && autoConvert ==>
            match ConvertValueType(val, types[key])
            case Ok(v) => r == Ok((true, v))
            case Fail(e) => r == Fail(e))
  {
    var types := ParameterTypes(dependencyParameters);
    if key in types {
      ParameterTypesChecked(dependencyParameters, key, val);
    }
  }

  /** The flag is false exactly for a registered parameter whose value does
      not match, without auto_convert; only a conversion can raise. */
  lemma CheckTypeFlag(dependencyParameters: seq<string>, key: string, val: Value, autoConvert: bool)
    ensures var types := ParameterTypes(dependencyParameters);
      var r := CheckTypeOfParamValue(dependencyParameters, key, val, autoConvert);
      && (r.Ok? && !r.value.0 <==>
            key in types && !autoConvert && Conforms(CheckableTypes, val, types[key]) == Ok(false))
      && (r.Fail? ==> autoConvert)
  {
    CheckTypeLaw(dependencyParameters, key, val, autoConvert);
    var types := ParameterTypes(dependencyParameters);
    if key in types {
      ParameterTypesChecked(dependencyParameters, key, val);
    }
  }

  /** A value that already has the target type is returned unchanged. */
  lemma AlreadyOfType(val: Value, typ: Desc)
    requires typ.Prim? || typ in CheckableTypes
    requires Conforms(CheckableTypes, val, typ) == Ok(true)
    ensures ConvertValueType(val, typ) == Ok(val)
  {
  }

  /** A value that does not have a target type without a conversion
      function raises. */
  lemma NoConverterRaises(val: Value, typ: Desc)
    requires typ.Prim? || typ in CheckableTypes
    requires Conforms(CheckableTypes, val, typ) == Ok(false)
    requires ConverterFor(typ).None?
    ensures ConvertValueType(val, typ) == Fail(NoConversion)
  {
  }

  /** str() of a natural number is a nonempty string of digits with that
      value. */
  lemma {:induction false} NatDigits(n: nat)
    ensures var s := Text.NatToString(n);
      && s != [] && s[0] != '-' && s[0] != '+'
      && (forall i :: 0 <= i < |s| ==> IsDigit(s[i]))
      && DigitsValue(s) == n
  {
    var s := Text.NatToString(n);
    var d := ['0' + (n % 10) as char];
    if n < 10 {
      assert s == d;
      assert s[..0] == [];
    } else {
      NatDigits(n / 10);
      assert s == Text.NatToString(n / 10) + d;
      assert s[..|s| - 1] == Text.NatToString(n / 10);
    }
  }

  /** int() reads back what str() prints for an int. */
  lemma ParseIntRoundTrip(i: int)
    ensures ParseInt(Text.IntToString(i)) == Some(i)
  {
    if i < 0 {
      NatDigits(-i);
      assert ("-" + Text.NatToString(-i))[1..] == Text.NatToString(-i);
    } else {
      NatDigits(i);
    }
  }

  /** Text with nothing but digits and a sign has no surrounding whitespace. */
  lemma IntTextStripped(i: int)
    ensures Text.Strip(Text.IntToString(i)) == Text.IntToString(i)
  {
    var s := Text.IntToString(i);
    var n := if i < 0 then -i else i;
    var t := Text.NatToString(n);
    NatDigits(n);
    assert s == if i < 0 then "-" + t else t;
    assert s[|s| - 1] == t[|t| - 1];
    NotSpace(s[0]);
    NotSpace(s[|s| - 1]);
    assert Text.StripLeft(s) == s;
    assert Text.StripRight(s) == s;
  }

  lemma NotSpace(c: char)
    requires IsDigit(c) || c == '-'
    ensures !Text.IsSpace(c)
  {
  }

  /** No plain type is in CHECKABLE_TYPES. */
  lemma PlainNotCheckable(k: Kind)
    ensures Prim(k) !in CheckableTypes
  {
    TableCanonical();
  }

  /** Converting an int to str and back to int gives the int again, through
      the registered str and int conversion functions. */
  lemma StrIntRoundTrip(i: int)
    ensures ConvertValueType(VInt(i), PStr) == Ok(VStr(Text.IntToString(i)))
    ensures ConvertValueType(VStr(Text.IntToString(i)), PInt) == Ok(VInt(i))
  {
    IntToStr(i);
    StrToInt(i);
  }

  lemma IntToStr(i: int)
    ensures ConvertValueType(VInt(i), PStr) == Ok(VStr(Text.IntToString(i)))
  {
    assert ConverterFor(PStr) == Some(StrFn);
    PlainConverted(VInt(i), Str, StrFn);
    assert Text.Str(VInt(i)) == Text.IntToString(i);
  }

  lemma StrToInt(i: int)
    ensures ConvertValueType(VStr(Text.IntToString(i)), PInt) == Ok(VInt(i))
  {
    assert ConverterFor(PInt) == Some(IntFn);
    PlainConverted(VStr(Text.IntToString(i)), Int, IntFn);
    ParseIntRoundTrip(i);
    IntTextStripped(i);
    assert ToInt(VStr(Text.IntToString(i))) == Ok(VInt(i));
  }

  /** A value outside a plain type is handed to the conversion function,
      and its result re-checked against that type. */
  lemma PlainConverted(val: Value, k: Kind, f: Converter)
    requires !IsInstance(val, k) && ConverterFor(Prim(k)) == Some(f)
    ensures ConvertValueType(val, Prim(k)) ==
      match Apply(f, val)
      case Fail(e) => Fail(ConversionFailed(e))
      case Ok(res) => if IsInstance(res, k) then Ok(res) else Fail(UnexpectedResultType)
  {
    PlainNotCheckable(k);
  }

  /** A registered composite type that the value does not match: the
      conversion function's result, re-checked against the parent type. */
  lemma ConvertedWith(val: Value, typ: Desc, f: Converter)
    requires typ.Comp? && typ in CheckableTypes
    requires Conforms(CheckableTypes, val, typ) == Ok(false) && ConverterFor(typ) == Some(f)
    ensures ConvertValueType(val, typ) ==
      match Apply(f, val)
      case Fail(e) => Fail(ConversionFailed(e))
      case Ok(res) => if IsInstance(res, typ.parent) then Ok(res) else Fail(UnexpectedResultType)
  {
  }

  /** With auto_convert, a registered parameter whose value does not match
      succeeds exactly when convert_value_type does, with its result. */
  lemma ConvertedParam(dependencyParameters: seq<string>, key: string, val: Value)
    requires key in ParameterTypes(dependencyParameters)
    requires Conforms(CheckableTypes, val, ParameterTypes(dependencyParameters)[key]) == Ok(false)
    ensures var c := ConvertValueType(val, ParameterTypes(dependencyParameters)[key]);
      CheckTypeOfParamValue(dependencyParameters, key, val, true) == if c.Ok? then Ok((true, c.value)) else Fail(c.error)
  {
  }

  /** A parameter that is not a dependency parameter has its fixed type. */
  lemma FixedParamType(dependencyParameters: seq<string>, key: string)
    requires key !in dependencyParameters && key in BaseParameterTypes
    ensures key in ParameterTypes(dependencyParameters)
    ensures ParameterTypes(dependencyParameters)[key] == BaseParameterTypes[key]
  {
  }

  lemma FixedTypes()
    ensures "docurls" in BaseParameterTypes && BaseParameterTypes["docurls"] == ListOfStrings
    ensures "toolchain" in BaseParameterTypes && BaseParameterTypes["toolchain"] == ToolchainDict
  {
  }

  /** With auto_convert, a docurls value that does not match is converted
      with to_list_of_strings, and what comes back is a LIST_OF_STRINGS. */
  lemma DocurlsConverted(dependencyParameters: seq<string>, val: Value)
    requires "docurls" !in dependencyParameters
    requires CheckTypeOfParamValue(dependencyParameters, "docurls", val, true).Ok?
    ensures var r := CheckTypeOfParamValue(dependencyParameters, "docurls", val, true).value;
      r.0 && Conforms(CheckableTypes, r.1, ListOfStrings) == Ok(true)
  {
    FixedTypes();
    FixedParamType(dependencyParameters, "docurls");
    ListOfStringsRegistered();
    ListParamConverted(dependencyParameters, "docurls", val);
  }

  /** A LIST_OF_STRINGS parameter: with auto_convert, a successful check
      gives a LIST_OF_STRINGS. */
  lemma ListParamConverted(dependencyParameters: seq<string>, key: string, val: Value)
    requires key in ParameterTypes(dependencyParameters) && ParameterTypes(dependencyParameters)[key] == ListOfStrings
    requires ListOfStrings in CheckableTypes && ConverterFor(ListOfStrings) == Some(ToListOfStringsFn)
    requires CheckTypeOfParamValue(dependencyParameters, key, val, true).Ok?
    ensures var r := CheckTypeOfParamValue(dependencyParameters, key, val, true).value;
      r.0 && Conforms(CheckableTypes, r.1, ListOfStrings) == Ok(true)
  {
    ParameterTypesChecked(dependencyParameters, key, val);
    CheckTypeLaw(dependencyParameters, key, val, true);
    if Conforms(CheckableTypes, val, ListOfStrings) == Ok(false) {
      ConvertedParam(dependencyParameters, key, val);
      ConvertedWith(val, ListOfStrings, ToListOfStringsFn);
      assert Apply(ToListOfStringsFn, val) == Lists.ToListOfStrings(val);
      if Lists.ToListOfStrings(val).Ok? {
        Lists.ListOfStringsResult(val);
      }
    }
  }

  /** The re-check after a conversion looks at the parent type only: a
      toolchain dict with the right keys but an int name goes through
      check_type_of_param_value unchanged although it is no TOOLCHAIN_DICT. */
  lemma ToolchainNotRechecked(dependencyParameters: seq<string>, n: int, v: string)
    requires "toolchain" !in dependencyParameters
    ensures var val := VDict([(VStr("name"), VInt(n)), (VStr("version"), VStr(v))]);
      && Conforms(CheckableTypes, val, ToolchainDict) == Ok(false)
      && CheckTypeOfParamValue(dependencyParameters, "toolchain", val, true) == Ok((true, val))
  {
    var val := VDict([(VStr("name"), VInt(n)), (VStr("version"), VStr(v))]);
    FixedTypes();
    FixedParamType(dependencyParameters, "toolchain");
    IntNameToolchain(n, v);
    ToolchainParamUnchanged(dependencyParameters, "toolchain", val);
  }

  /** LIST_OF_STRINGS is registered in CHECKABLE_TYPES and converted with
      to_list_of_strings. */
  lemma ListOfStringsRegistered()
    ensures ListOfStrings in CheckableTypes && ConverterFor(ListOfStrings) == Some(ToListOfStringsFn)
  {
    TableLaws.InTableToo(CheckableTypes);
    ListOfStringsConverter();
  }

  lemma ListOfStringsConverter()
    ensures ConverterFor(ListOfStrings) == Some(ToListOfStringsFn)
  {
    assert |Checksums.reqs[0].1| == 6 && |ListOfStrings.reqs[0].1| == 1;
    assert Dependencies.reqs[0].1[0].t.Comp? && ListOfStrings.reqs[0].1[0].t.Prim?;
  }

  /** TOOLCHAIN_DICT is registered in CHECKABLE_TYPES and converted with
      to_toolchain_dict. */
  lemma ToolchainDictRegistered()
    ensures ToolchainDict in CheckableTypes && ConverterFor(ToolchainDict) == Some(ToToolchainDictFn)
  {
    TableLaws.InTable(CheckableTypes);
    ToolchainDictConverter();
  }

  lemma ToolchainDictConverter()
    ensures ConverterFor(ToolchainDict) == Some(ToToolchainDictFn)
  {
    assert ToolchainDict.parent == Dict;
    assert Checksums.parent == List && Dependencies.parent == List && ListOfStrings.parent == List;
  }

  /** A TOOLCHAIN_DICT parameter whose dict value does not match but which
      to_toolchain_dict returns as it is passes unchanged. */
  lemma ToolchainParamUnchanged(dependencyParameters: seq<string>, key: string, val: Value)
    requires key in ParameterTypes(dependencyParameters) && ParameterTypes(dependencyParameters)[key] == ToolchainDict
    requires val.VDict? && Conforms(CheckableTypes, val, ToolchainDict) == Ok(false)
    requires Toolchain.ToToolchainDict(val) == Ok(val)
    ensures CheckTypeOfParamValue(dependencyParameters, key, val, true) == Ok((true, val))
  {
    ToolchainDictRegistered();
    assert Apply(ToToolchainDictFn, val) == Ok(val);
    ConvertedUnchanged(dependencyParameters, key, val, ToToolchainDictFn);
  }

  /** A dict with an int name: no TOOLCHAIN_DICT, yet to_toolchain_dict
      returns it as it is. */
  lemma IntNameToolchain(n: int, v: string)
    ensures var val := VDict([(VStr("name"), VInt(n)), (VStr("version"), VStr(v))]);
      && Conforms(CheckableTypes, val, ToolchainDict) == Ok(false)
      && Toolchain.ToToolchainDict(val) == Ok(val)
  {
    var val := VDict([(VStr("name"), VInt(n)), (VStr("version"), VStr(v))]);
    TableLaws.ToolchainDictExactly(val);
    assert !TableLaws.ToolchainEntry(val.entries[0]);
    assert Toolchain.ToolchainKeys(val.entries);
  }

  /** A registered parameter whose value does not match but which its
      conversion function returns as it is, of the parent type: with
      auto_convert the value passes unchanged. */
  lemma ConvertedUnchanged(dependencyParameters: seq<string>, key: string, val: Value, f: Converter)
    requires key in ParameterTypes(dependencyParameters)
    requires var typ := ParameterTypes(dependencyParameters)[key];
      && typ.Comp? && typ in CheckableTypes && ConverterFor(typ) == Some(f)
      && Conforms(CheckableTypes, val, typ) == Ok(false)
      && Apply(f, val) == Ok(val) && IsInstance(val, typ.parent)
    ensures CheckTypeOfParamValue(dependencyParameters, key, val, true) == Ok((true, val))
  {
    var typ := ParameterTypes(dependencyParameters)[key];
    ConvertedWith(val, typ, f);
    ConvertedParam(dependencyParameters, key, val);
  }

  /** TUPLE_OF_STRINGS has no conversion function: a list of strings is not
      turned into a tuple. */
  lemma TupleOfStringsNotConverted(xs: seq<Value>)
    ensures ConvertValueType(VList(xs), TupleOfStrings) == Fail(NoConversion)
  {
    assert TupleOfStrings in CheckableTypes by { TableLaws.InTable(CheckableTypes); }
    assert ConverterFor(TupleOfStrings) == None by { KeysOfConversionTable(); }
    UnconvertibleMismatch(VList(xs), TupleOfStrings);
  }

  /** A registered composite type without a conversion function raises for
      every value outside its parent type. */
  lemma UnconvertibleMismatch(val: Value, typ: Desc)
    requires typ.Comp? && typ in CheckableTypes && !IsInstance(val, typ.parent)
    requires ConverterFor(typ).None?
    ensures ConvertValueType(val, typ) == Fail(NoConversion)
  {
    ParentMismatch(CheckableTypes, val, typ);
  }

  /** ParentFirst, instantiated with CHECKABLE_TYPES through a variable. */
  lemma ParentMismatch(t: seq<Desc>, v: Value, d: Desc)
    requires t == CheckableTypes && d.Comp? && d in t && !IsInstance(v, d.parent)
    ensures Conforms(CheckableTypes, v, d) == Ok(false)
  {
    MatcherLaws.ParentFirst(t, v, d);
  }
}
