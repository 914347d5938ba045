# EasyBuild easyconfig parameter types, in Dafny

This project models `easybuild/framework/easyconfig/types.py` from the
EasyBuild framework. That module decides whether the value of an easyconfig
parameter (`toolchain`, `dependencies`, `checksums`, `sanity_check_paths`,
...) has the type EasyBuild expects. When asked to, it converts the value
into that type: a value read from a YAML (`.yeb`) easyconfig becomes the
form a `.eb` easyconfig would have given.

Modules, in dependency order:

- `Values`: the closed universe of Python values the checker sees (`None`,
  bool, int, str, list, tuple, dict) and `isinstance`. A dict is an
  association list that keeps insertion order. The module also holds the
  errors the module raises and the Python dict and list operations it relies
  on (`d[k] = v`, `d.get(k)`, `list.remove`, iteration).
- `Text`: `str.split` on one character, `strip`, `lower` and `str()`.
- `Hashable`: `as_hashable`, the sorted tuple-of-pairs form in which every
  composite type descriptor stores its requirements.
- `Descriptors`: the descriptor constants (`TOOLCHAIN_DICT`,
  `DEPENDENCY_DICT`, `CHECKSUMS`, ...), `CHECKABLE_TYPES`, `EASY_TYPES` and
  `PARAMETER_TYPES`.
- `Matcher`, `MatcherLaws`, `Shapes`, `TableLaws`: `is_value_of_type` and the
  `check_*` helpers as functions. Their laws state:
  - which values each descriptor accepts;
  - that checking against the table never raises;
  - what each requirement (`elem_types`, `key_types`, `opt_keys`,
    `req_keys`) means.
- `TypeCheck`: the same checks as methods with the loops of the source. Each
  method is proved equal to the matcher's functions.
- `Toolchain`, `Lists`, `Sanity`, `Dependency`, `ChecksumEntries`: the
  normalisers behind `TYPE_CONVERSION_FUNCTIONS`. The looping ones
  (`as_hashable`, the list normalisers, `to_sanity_check_paths_*`,
  `to_dependency`) are methods proved equal to specification functions. The
  others are functions, with laws about both.
- `Dispatch`: `convert_value_type`, `check_type_of_param_value` and
  `TYPE_CONVERSION_FUNCTIONS`.

The `CHECKABLE_TYPES` registry is a parameter `known` of the matcher. The
dispatcher passes the table constant. This keeps the source's error branches
(a composite descriptor that is not registered, a requirement without a
checker) reachable in the laws.

Points where the code does something other than one might expect, and the
model follows the code:

- A strict `int` check might be expected, but `isinstance(True, int)` holds
  in Python, so a bool passes an `int` check (`Values.IsInstance`).
- After conversion the code re-checks only `isinstance(res, typ)`. For a
  composite descriptor that is a check of the parent type, so a converted
  value need not match the descriptor. The model proves where the result
  also matches the descriptor:
  - `Toolchain.ConvertedConforms`;
  - `Lists.ListOfStringsResult`;
  - `Dispatch.DocurlsConverted`, `Dispatch.ListParamConverted`.
- The model also shows where it does not:
  - `Dispatch.ToolchainNotRechecked`: a toolchain dict with an int name is
    passed on unchanged;
  - `Sanity.SanityEntryConforms` and `Sanity.DocumentedExample`: a dict
    element with a list value becomes a dict with a tuple value.
    `STRING_OR_TUPLE_DICT` rejects that, because it allows tuples only as
    keys.
- The comment in `_to_checksum` says that `[[[type, value]]]` is read as
  `[[(type, value)]]`. The code turns the middle list into a tuple as well,
  because it sits at list level 1 (`ChecksumEntries.NestedGroupExample`).
  The model follows the code.
- The docstring of `to_dependency` (types.py:449-451) says an external module
  becomes `{'name': ..., 'external_module': True, 'version': None}`. The
  code (types.py:462-468) sets name to None and stores the module name under
  `full_mod_name` and `short_mod_name` (`Dependency.ExternalModuleLaw`).
  The model follows the code.

## Model

| member | source | states |
|---|---|---|
| Values.Get | easybuild/framework/easyconfig/types.py:459 | `d.get(key)`: a value exactly when the key is present, and then a pair of the dict |
| Values.Put | easybuild/framework/easyconfig/types.py:478 | `d[key] = val`: the key then maps to val and every other key is unchanged; an existing key keeps its place, a new key goes last |
| Values.PutExisting | easybuild/framework/easyconfig/types.py:409 | assigning to a key the dict has replaces that pair in place |
| Values.PutNew | easybuild/framework/easyconfig/types.py:435 | assigning to a new key appends a pair |
| Values.RemoveFirst | easybuild/framework/easyconfig/types.py:479 | `dep_keys.remove(key)`: one element fewer when the key is present, the list unchanged otherwise, no other element lost or added |
| Values.RemoveFirstOnce | easybuild/framework/easyconfig/types.py:479 | removing a key that occurs once leaves no copy of it and no duplicates |
| Values.Iterate | easybuild/framework/easyconfig/types.py:510 | what a `for` loop visits: the items of a list or tuple, the keys of a dict, one element per character of a string; nothing for None, bool or int, which raise a TypeError |
| Values.KeysNoDuplicates | easybuild/framework/easyconfig/types.py:473 | `list(dep.keys())` of a Python dict holds each key once |
| Text.StripLeft | easybuild/framework/easyconfig/types.py:279 | the suffix left after the leading whitespace; it starts with a non-space |
| Text.StripRight | easybuild/framework/easyconfig/types.py:279 | the prefix left before the trailing whitespace; it ends with a non-space |
| Text.Split | easybuild/framework/easyconfig/types.py:273-274 | `s.split(',')`: one part more than there are commas, no part holds a comma, and joining the parts with commas gives s back |
| Text.Str | easybuild/framework/easyconfig/types.py:478 | `str(v)` of a string is the string itself |
| Hashable.AsHashable | easybuild/framework/easyconfig/types.py:43-52 | the loop of `as_hashable` computes the canonical form: the items sorted by key, a list value turned into a tuple, a dict value into its own hashable form |
| Hashable.SortByKey | easybuild/framework/easyconfig/types.py:46 | `sorted(d.items())` is a sorted permutation of the items |
| Hashable.CanonicalFormSortsFirst | easybuild/framework/easyconfig/types.py:46-51 | the canonical form sorts the items first, then converts each value |
| Hashable.SortCommutesWithConvert | easybuild/framework/easyconfig/types.py:46-51 | converting the values before or after sorting gives the same pairs |
| Hashable.CanonicalFormFromEntries | easybuild/framework/easyconfig/types.py:43-52 | each pair of the canonical form comes from an entry of the dict, and there are as many pairs as entries |
| Hashable.CanonicalFormHasEntries | easybuild/framework/easyconfig/types.py:43-52 | each entry of the dict has its pair in the canonical form |
| Hashable.CanonicalFormStrictlySorted | easybuild/framework/easyconfig/types.py:46 | for a dict with string keys, the keys of the canonical form are in strictly increasing order |
| Hashable.CanonicalFormOrderIndependent | easybuild/framework/easyconfig/types.py:46 | two dicts with the same entries in any insertion order have the same canonical form |
| Hashable.SortedUnique | easybuild/framework/easyconfig/types.py:46 | two key-sorted permutations of the same distinct-keyed entries are equal |
| Descriptors.ParameterTypes | easybuild/framework/easyconfig/types.py:669-681 | PARAMETER_TYPES: every dependency parameter maps to DEPENDENCIES, and every other parameter has its fixed entry |
| Descriptors.TableCanonical | easybuild/framework/easyconfig/types.py:584-663 | every entry of CHECKABLE_TYPES is composite, with requirement names in the sorted order that `as_hashable` leaves |
| Descriptors.RulesCanonical | easybuild/framework/easyconfig/types.py:584-631 | the per-key rules of TOOLCHAIN_DICT, DEPENDENCY_DICT and SANITY_CHECK_PATHS_DICT are sorted by key |
| Matcher.Lookup | easybuild/framework/easyconfig/types.py:153 | `extra_reqs[name]`: a value exactly when some requirement has that name, and then the value of the first requirement of that name; in every descriptor `as_hashable` builds it is the only one |
| Matcher.CheckKnownKeys | easybuild/framework/easyconfig/types.py:115-122 | true exactly when the value is a dict whose every key is an allowed key |
| Matcher.CheckRequiredKeys | easybuild/framework/easyconfig/types.py:125-133 | true exactly when the value is a dict that holds every required key |
| MatcherLaws.ParentFirst | easybuild/framework/easyconfig/types.py:155-157 | a value without the parent type is rejected without any requirement being looked at |
| MatcherLaws.UnregisteredFails | easybuild/framework/easyconfig/types.py:185-186 | a composite descriptor outside CHECKABLE_TYPES raises |
| MatcherLaws.UnknownRequirementRaises | easybuild/framework/easyconfig/types.py:170-177 | once the parent type matches, a requirement name without a checker raises and never yields False |
| MatcherLaws.AnyConformsMeaning | easybuild/framework/easyconfig/types.py:97-98 | `any(is_value_of_type(elem, t) ...)` that returns is true iff some allowed type matches |
| MatcherLaws.AllItemsMeaning | easybuild/framework/easyconfig/types.py:96-99 | the element loop that returns is true iff every element matches some allowed type |
| MatcherLaws.ListElementLaw | easybuild/framework/easyconfig/types.py:63-67 | for a list or tuple, elem_types holds iff every element matches at least one allowed type |
| MatcherLaws.EmptyListPasses | easybuild/framework/easyconfig/types.py:96-99 | an empty list or tuple passes any elem_types |
| MatcherLaws.PerKeyMissingKey | easybuild/framework/easyconfig/types.py:84-91 | a dict key without a per-key rule gets no allowed types, so the check cannot pass |
| MatcherLaws.OptKeysLaw | easybuild/framework/easyconfig/types.py:166 | opt_keys holds iff the value is a dict whose every key is in opt_keys + req_keys |
| MatcherLaws.ReqKeysLaw | easybuild/framework/easyconfig/types.py:167 | req_keys holds iff the value is a dict holding every required key |
| Shapes.FlatList | easybuild/framework/easyconfig/types.py:150-174 | a list or tuple descriptor with one flat elem_types accepts exactly the values of its parent type whose elements each match |
| Shapes.FlatDict | easybuild/framework/easyconfig/types.py:150-174 | a dict descriptor with flat elem_types and key_types accepts exactly the dicts whose values and keys each match |
| Shapes.ListOfStringsShape | easybuild/framework/easyconfig/types.py:608 | LIST_OF_STRINGS accepts exactly the lists of strings |
| Shapes.TupleOfStringsShape | easybuild/framework/easyconfig/types.py:607 | TUPLE_OF_STRINGS accepts exactly the tuples of strings |
| Shapes.StringDictShape | easybuild/framework/easyconfig/types.py:610-615 | STRING_DICT accepts exactly the dicts from strings to strings |
| Shapes.StringOrTupleDictShape | easybuild/framework/easyconfig/types.py:616-621 | STRING_OR_TUPLE_DICT accepts exactly the dicts with string values and string or tuple-of-strings keys |
| Shapes.StringOrTupleListShape | easybuild/framework/easyconfig/types.py:609 | STRING_OR_TUPLE_LIST accepts exactly the lists of strings and tuples of strings |
| Shapes.StringOrTupleOrDictListShape | easybuild/framework/easyconfig/types.py:622 | STRING_OR_TUPLE_OR_DICT_LIST accepts exactly the lists of strings, string tuples and string dicts |
| Shapes.SanityCheckPathsEntryShape | easybuild/framework/easyconfig/types.py:623 | SANITY_CHECK_PATHS_ENTRY accepts exactly the lists of strings, string tuples and STRING_OR_TUPLE_DICT dicts |
| TableLaws.ConformsTotal | easybuild/framework/easyconfig/types.py:136-188 | with a well-formed registry, checking against an easy or a registered type never raises |
| TableLaws.CheckableTypesWellFormed | easybuild/framework/easyconfig/types.py:659-663 | every CHECKABLE_TYPES entry is composite, and each of its requirements has a checker for its parent type and names only easy or registered types |
| TableLaws.TableNeverRaises | easybuild/framework/easyconfig/types.py:136-188 | is_value_of_type against an easy type or an entry of CHECKABLE_TYPES returns for every value |
| TableLaws.ToolchainDictExactly | easybuild/framework/easyconfig/types.py:584-592 | TOOLCHAIN_DICT accepts exactly the dicts with string name and version and at most a bool hidden besides |
| TableLaws.ToolchainConforms | easybuild/framework/easyconfig/types.py:584-592 | the same, for any registry that holds TOOLCHAIN_DICT |
| TableLaws.ToolchainExamples | easybuild/framework/easyconfig/types.py:584-592 | {name, version} and {name, version, hidden} match; a dict without version or with an extra key does not |
| TableLaws.ExtraKeyExample | easybuild/framework/easyconfig/types.py:590-591 | a toolchain dict with any key other than name, version and hidden is rejected |
| TableLaws.NameOnlyExample | easybuild/framework/easyconfig/types.py:591 | a toolchain dict without version is rejected |
| TypeCheck.IsValueOfType | easybuild/framework/easyconfig/types.py:136-188 | the method returns exactly what the matcher's function gives, raising included |
| TypeCheck.RunCheck | easybuild/framework/easyconfig/types.py:160-172 | one entry of extra_req_checkers, as the matcher's ReqCheck |
| TypeCheck.CheckElementTypes | easybuild/framework/easyconfig/types.py:55-99 | check_element_types pairs each element with its allowed types and checks every pair, as the matcher's ElementTypes |
| TypeCheck.CheckKeyTypes | easybuild/framework/easyconfig/types.py:102-112 | check_key_types, as the matcher's KeyTypesConform |
| TypeCheck.AnyIsValueOfType | easybuild/framework/easyconfig/types.py:98 | `any(...)` over the allowed types, stopping at the first match or error |
| Toolchain.SplitParts | easybuild/framework/easyconfig/types.py:273-274 | the parts of `spec.split(',')`: one more than there are commas |
| Toolchain.ToToolchainDict | easybuild/framework/easyconfig/types.py:261-305 | a dict comes back unchanged iff its keys are {name, version} or {hidden, name, version}; a list of other than 2 or 3 parts is a length error; other types are unsupported |
| Toolchain.TruthWordsDisjoint | easybuild/framework/easyconfig/types.py:282-288 | the true and false words are disjoint, and only they are accepted |
| Toolchain.ConvertedConforms | easybuild/framework/easyconfig/types.py:276-289 | a dict made from a string, list or tuple has distinct keys and is a TOOLCHAIN_DICT |
| Toolchain.Idempotent | easybuild/framework/easyconfig/types.py:261-305 | converting a converted toolchain changes nothing |
| Toolchain.StringLaw | easybuild/framework/easyconfig/types.py:273-291 | a string is accepted iff it has one comma, or two commas and a truth word last; another number of commas is the length error |
| Toolchain.FormatRoundTrip | easybuild/framework/easyconfig/types.py:273-279 | "name,version" without further commas reads back as the dict of the stripped name and version |
| Toolchain.HiddenRoundTrip | easybuild/framework/easyconfig/types.py:281-289 | a three-element list whose last element is the string "True" or "False" reads back the flag |
| Toolchain.Examples | easybuild/framework/easyconfig/types.py:287-304 | an unknown truth word, a one-element list and an int are rejected with their own errors |
| Toolchain.BadWordExample | easybuild/framework/easyconfig/types.py:282-288 | "foss, 2016a, maybe" raises the invalid truth value error |
| Lists.ToListOfStrings | easybuild/framework/easyconfig/types.py:313-331 | succeeds iff the value is a string or a list or tuple of strings; anything else is unsupported |
| Lists.ListOfStringsResult | easybuild/framework/easyconfig/types.py:313-331 | the result is a LIST_OF_STRINGS holding the string, or the input's elements in order |
| Lists.ListOfStringsFixedPoint | easybuild/framework/easyconfig/types.py:322-323 | a value is returned untouched iff it already is a LIST_OF_STRINGS |
| Lists.ListOfStringsIdempotent | easybuild/framework/easyconfig/types.py:313-331 | converting a converted value changes nothing |
| Lists.EnsureIterableLicenseSpecs | easybuild/framework/easyconfig/types.py:560-578 | succeeds iff the specs are None, a string, or a list or tuple of strings; otherwise the license error |
| Lists.LicenseSpecsIterable | easybuild/framework/easyconfig/types.py:567-572 | the result is [None] for None, and otherwise a LIST_OF_STRINGS |
| Lists.LicenseSpecsAgree | easybuild/framework/easyconfig/types.py:560-578 | apart from None and the error raised, the license specs are normalised as to_list_of_strings normalises |
| Lists.ConvertAllMeaning | easybuild/framework/easyconfig/types.py:348-354 | the element loop succeeds iff every element is allowed, and then replaces each element, in order, by its converted form |
| Lists.StringsAndTuplesMeaning | easybuild/framework/easyconfig/types.py:334-382 | both normalisers succeed iff the input is a list or tuple of allowed elements; the result is a list of the converted elements; the errors are not-a-list and bad-element |
| Lists.StringsAndTuplesIdempotent | easybuild/framework/easyconfig/types.py:334-382 | normalising a normalised list changes nothing |
| Lists.StringsAndTuplesConforms | easybuild/framework/easyconfig/types.py:334-356 | the result is a STRING_OR_TUPLE_LIST exactly when the inner lists and tuples hold only strings |
| Lists.StringsTuplesDictsConforms | easybuild/framework/easyconfig/types.py:359-382 | the result is a STRING_OR_TUPLE_OR_DICT_LIST exactly when the inner lists and tuples hold strings and the dicts map strings to strings |
| Lists.StringsAndTuplesExample | easybuild/framework/easyconfig/types.py:336-341 | the documented example ['foo', ['bar', 'baz']] becomes ['foo', ('bar', 'baz')] |
| Lists.ToListOfStringsAndTuples | easybuild/framework/easyconfig/types.py:334-356 | the loop of to_list_of_strings_and_tuples computes the normaliser without dicts |
| Lists.ToListOfStringsAndTuplesAndDicts | easybuild/framework/easyconfig/types.py:359-382 | the loop of to_list_of_strings_and_tuples_and_dicts computes the normaliser with dicts |
| Sanity.ConvertPairsMeaning | easybuild/framework/easyconfig/types.py:405-412 | the loop over a dict element succeeds iff every pair is accepted, and then keeps the keys in order with list values turned into tuples |
| Sanity.FirstBadPair | easybuild/framework/easyconfig/types.py:405-412 | the error for a dict element is that of its first bad pair: a non-string key is reported before anything about its value |
| Sanity.ElemMeaning | easybuild/framework/easyconfig/types.py:400-416 | one element converts iff it is accepted, and then to its converted form |
| Sanity.SanityEntryMeaning | easybuild/framework/easyconfig/types.py:385-418 | to_sanity_check_paths_entry succeeds iff the input is a list or tuple of accepted elements, and then keeps length and order and turns lists into tuples |
| Sanity.SanityEntryIdempotent | easybuild/framework/easyconfig/types.py:385-418 | normalising a normalised entry changes nothing |
| Sanity.SanityEntryConforms | easybuild/framework/easyconfig/types.py:385-418 | the result is a SANITY_CHECK_PATHS_ENTRY exactly when the inner lists and tuples hold strings and no dict element has a list or tuple value |
| Sanity.DocumentedExample | easybuild/framework/easyconfig/types.py:389-392 | the documented example is normalised as documented, and the result is no SANITY_CHECK_PATHS_ENTRY |
| Sanity.ListValueStep | easybuild/framework/easyconfig/types.py:408-409 | `elem[key] = tuple(value)` overwrites that pair in place |
| Sanity.ConvertDictElem | easybuild/framework/easyconfig/types.py:404-413 | the dict branch returns the converted element and changes the dict in place, also when a pair raises |
| Sanity.ConvertElem | easybuild/framework/easyconfig/types.py:399-416 | one turn of the element loop: the converted element, and the element as the caller sees it afterwards |
| Sanity.ToSanityCheckPathsEntry | easybuild/framework/easyconfig/types.py:385-418 | the method computes to_sanity_check_paths_entry; it returns the changed elements, and on success the result holds those very dicts |
| Sanity.SanityPairsMeaning | easybuild/framework/easyconfig/types.py:433-435 | the dict loop succeeds iff every value is a valid entry, and then keeps the keys in order with each value normalised |
| Sanity.SanityDictMeaning | easybuild/framework/easyconfig/types.py:421-436 | to_sanity_check_paths_dict rejects a non-dict, and succeeds iff every value is a valid entry, with the keys kept in order |
| Sanity.GetAt | easybuild/framework/easyconfig/types.py:435 | `spec[key]` for the key at position i is its own value |
| Sanity.DictStep | easybuild/framework/easyconfig/types.py:435 | `sanity_check_dict[key] = ...` adds a new last pair |
| Sanity.EntryAt | easybuild/framework/easyconfig/types.py:435 | `to_sanity_check_paths_entry(spec[key])` for the key at position i |
| Sanity.ToSanityCheckPathsDict | easybuild/framework/easyconfig/types.py:421-436 | the method, filling a new dict key by key, computes to_sanity_check_paths_dict |
| Dependency.PassedOnOrNamed | easybuild/framework/easyconfig/types.py:456-500 | a value other than a dict is passed on untouched; a converted dict that is not an external module has name and version |
| Dependency.ToDependency | easybuild/framework/easyconfig/types.py:440-502 | the method computes to_dependency |
| Dependency.PresetLoop | easybuild/framework/easyconfig/types.py:473-479 | the first loop stores name and version as strings and strikes them from the keys still to do |
| Dependency.FillLoop | easybuild/framework/easyconfig/types.py:481-489 | the second loop, over the keys still to do |
| Dependency.FillKey | easybuild/framework/easyconfig/types.py:482-489 | one turn of the second loop, with its four branches |
| Dependency.FillFirstFails | easybuild/framework/easyconfig/types.py:481-489 | the second loop raises with the error of a failing first turn |
| Dependency.ExternalModuleLaw | easybuild/framework/easyconfig/types.py:459-470 | an external module must have exactly the keys external_module and name; it then names its module twice, with name and version None |
| Dependency.ExternalNotDependencyDict | easybuild/framework/easyconfig/types.py:462-468 | the dict an external module becomes is not a DEPENDENCY_DICT |
| Dependency.UnknownKeyNotDependencyDict | easybuild/framework/easyconfig/types.py:593-604 | a dict with a key DEPENDENCY_DICT does not name is not a DEPENDENCY_DICT |
| Dependency.FillSpecialKeys | easybuild/framework/easyconfig/types.py:482-485 | versionsuffix and toolchain keys leave name and version alone, and succeed when the toolchain converts |
| Dependency.FillNeedsSpecialKeys | easybuild/framework/easyconfig/types.py:486-489 | once name and version are set, any other key raises |
| Dependency.PresetBoth | easybuild/framework/easyconfig/types.py:476-479 | with both name and version, the first loop stores their str() and leaves exactly the other keys to do |
| Dependency.FullySpecified | easybuild/framework/easyconfig/types.py:473-492 | a dict with name and version succeeds exactly when every other key is versionsuffix or toolchain and the toolchain converts; name and version are then str() of the given values |
| Dependency.NoNameNorVersion | easybuild/framework/easyconfig/types.py:491-492 | without name and version, a dict of versionsuffix and toolchain keys only, the empty dict included, cannot be parsed |
| Dependency.NameOnlyFallback | easybuild/framework/easyconfig/types.py:486-487 | with a name but no version, the first other key becomes the name, replacing the given one, and its value becomes the version |
| Dependency.DocumentedExample | easybuild/framework/easyconfig/types.py:444-447 | {'foo': '1.2.3', 'toolchain': ...} becomes {'name': 'foo', 'version': '1.2.3', 'toolchain': ...} |
| Dependency.ExternalFlagFalse | easybuild/framework/easyconfig/types.py:459-489 | external_module set to False is not an external module, and the key is left over once name and version are set |
| Dependency.ToolchainLast | easybuild/framework/easyconfig/types.py:484-485 | a toolchain key adds the converted toolchain as a new pair |
| Dependency.FirstBadDependency | easybuild/framework/easyconfig/types.py:505-510 | the first dependency that raises decides the error of to_dependencies |
| Dependency.ToDependenciesLaw | easybuild/framework/easyconfig/types.py:505-510 | to_dependencies keeps length and order and normalises each element on its own; a value that cannot be iterated raises |
| ChecksumEntries.Collect | easybuild/framework/easyconfig/types.py:542-546 | a comprehension gives all the values, or the first error |
| ChecksumEntries.ToChecksum | easybuild/framework/easyconfig/types.py:513-549 | every error is a ValueError, and a result has the shape of the input |
| ChecksumEntries.ToChecksums | easybuild/framework/easyconfig/types.py:552-557 | succeeds iff every entry converts at level 0 with dicts allowed, with one result per entry in order; a ValueError becomes "Invalid checksums" |
| ChecksumEntries.PairRule | easybuild/framework/easyconfig/types.py:524-533 | a (str, str or int) pair becomes a tuple exactly when its value is not a string or it lies inside a group |
| ChecksumEntries.NoneInGroup | easybuild/framework/easyconfig/types.py:538-539 | a group with a None in it raises |
| ChecksumEntries.DeepLevel | easybuild/framework/easyconfig/types.py:534-549 | from list level 2 on no group is accepted: only None, a string, a pair, or an allowed dict whose values convert |
| ChecksumEntries.NoGroupInTuple | easybuild/framework/easyconfig/types.py:540-542 | inside a tuple group, or a list group inside a list, a nested group raises |
| ChecksumEntries.NoDictInDict | easybuild/framework/easyconfig/types.py:545-546 | a dict as the value in a dict raises |
| ChecksumEntries.Idempotent | easybuild/framework/easyconfig/types.py:513-549 | converting a converted checksum changes nothing |
| ChecksumEntries.ToChecksumsIdempotent | easybuild/framework/easyconfig/types.py:552-557 | to_checksums on its own result changes nothing |
| ChecksumEntries.NestedGroupExample | easybuild/framework/easyconfig/types.py:536 | [[[type, value]]] becomes [((type, value),)] |
| ChecksumEntries.SingletonGroup | easybuild/framework/easyconfig/types.py:540-544 | a one-element list is a group; at level 1 it becomes a tuple |
| Dispatch.ConvertValueType | easybuild/framework/easyconfig/types.py:226-258 | a result always has the parent type of the target |
| Dispatch.ParameterTypesChecked | easybuild/framework/easyconfig/types.py:669-681 | every type PARAMETER_TYPES declares is easy or registered, so checking a parameter never raises |
| Dispatch.ParameterTypesConvertible | easybuild/framework/easyconfig/types.py:669-695 | every type PARAMETER_TYPES declares has a conversion function |
| Dispatch.CheckTypeLaw | easybuild/framework/easyconfig/types.py:191-223 | an unregistered parameter or a matching value gives (True, val); a mismatch gives (False, None) without auto_convert, and the converted value or the conversion error with it |
| Dispatch.CheckTypeFlag | easybuild/framework/easyconfig/types.py:191-223 | the flag is False exactly for a mismatching registered parameter without auto_convert; only a conversion raises |
| Dispatch.AlreadyOfType | easybuild/framework/easyconfig/types.py:235-241 | a value that already has the target type is returned unchanged |
| Dispatch.NoConverterRaises | easybuild/framework/easyconfig/types.py:255-256 | a mismatching value with no conversion function for its type raises |
| Dispatch.ParseInt | easybuild/framework/easyconfig/types.py:686 | only a nonempty text parses as an int |
| Dispatch.ParseIntRoundTrip | easybuild/framework/easyconfig/types.py:686 | int() reads back what str() prints for an int |
| Dispatch.StrIntRoundTrip | easybuild/framework/easyconfig/types.py:684-686 | converting an int to str and back to int, through the registered functions, gives the int again |
| Dispatch.PlainConverted | easybuild/framework/easyconfig/types.py:243-253 | a value outside an easy type goes to the conversion function, and its result is re-checked against that type |
| Dispatch.ConvertedWith | easybuild/framework/easyconfig/types.py:243-253 | the same for a registered composite type, re-checked against the parent type |
| Dispatch.ConvertedParam | easybuild/framework/easyconfig/types.py:214-219 | with auto_convert, a mismatching registered parameter succeeds exactly when convert_value_type does, with its result |
| Dispatch.DocurlsConverted | easybuild/framework/easyconfig/types.py:671 | with auto_convert, a successful check of docurls gives a LIST_OF_STRINGS |
| Dispatch.ListParamConverted | easybuild/framework/easyconfig/types.py:214-219 | a LIST_OF_STRINGS parameter: with auto_convert, a successful check gives a LIST_OF_STRINGS |
| Dispatch.ToolchainNotRechecked | easybuild/framework/easyconfig/types.py:252-253 | a toolchain dict with an int name passes check_type_of_param_value unchanged although it is no TOOLCHAIN_DICT |
| Dispatch.ToolchainParamUnchanged | easybuild/framework/easyconfig/types.py:214-219 | a mismatching toolchain dict that to_toolchain_dict returns as it is passes unchanged |
| Dispatch.ConvertedUnchanged | easybuild/framework/easyconfig/types.py:243-253 | a mismatching value that its conversion function returns as it is, of the parent type, passes unchanged |
| Dispatch.TupleOfStringsNotConverted | easybuild/framework/easyconfig/types.py:683-695 | TUPLE_OF_STRINGS has no conversion function, so a list of strings is not turned into a tuple |
| Dispatch.UnconvertibleMismatch | easybuild/framework/easyconfig/types.py:255-256 | a registered type without a conversion function raises for every value outside its parent type |

## Left out

- Logging (`_log.debug`, `_log.warning`) and the texts of the error messages. Errors are kept as a small enumeration of causes.
- `to_name_version_dict` (types.py:308-310) only reports that it is no longer supported, through the logger.
- `float` and its entry in TYPE_CONVERSION_FUNCTIONS: the value universe has no floats, and no parameter is declared with that type.
- Dispatch.ParseInt: does not model Python's `int()` on underscores, on Unicode digits or on other bases; it accepts an optional sign, decimal digits and surrounding whitespace.
- Text.Str: gives the repr of non-string values without Python's escaping rules, so only `str()` of a string is stated.
- `DEPENDENCY_PARAMETERS` (from `easyconfig/format/format.py`) is not part of this model. It is a parameter of `Descriptors.ParameterTypes`.
- `SANITY_CHECK_PATHS_FILES` and `SANITY_CHECK_PATHS_DIRS` come from the same module. They are taken to be "files" and "dirs".
- `easybuild/toolchains/compiler/systemcompiler.py` is not part of this model.
- Descriptors are a closed datatype. A malformed `expected_type` that is neither an easy type nor a (parent, requirements) tuple therefore cannot be written.
- Hashable.AsHashable: requires string keys at every level (`Hashable`). Sorting keys that mix strings with other types raises a TypeError in Python. The descriptor constants have string keys only.
- Sanity.ToSanityCheckPathsEntry: aliasing. The dicts inside `spec` are changed in place. The method returns them as the `elems` out-parameter, and the result holds those very dicts, instead of mutating shared heap objects.
- Sanity.ToSanityCheckPathsEntry, Sanity.ToSanityCheckPathsDict: require a well-formed value (no dict with a key twice), which every Python dict is.
- Toolchain.ToToolchainDict, Dependency.ToDependency: `sorted(spec.keys())` (types.py:296) and `sorted(dep.keys())` (types.py:461) raise a TypeError for keys that mix strings with other types. The model reports the key error (BadToolchainKeys, BadExternalModule) instead, so the exception class is folded into that error there.
- Dispatch.ConvertValueType: `isinstance(res, typ)` with a composite descriptor tests the parent type, so only that is stated. The conformance of the converted value is proved per normaliser and is not stated in general.
- The CHECKSUMS, DEPENDENCIES and SANITY_CHECK_PATHS_DICT conversions are not proved to always give a matching value. Lemmas show when they do and where they do not.
