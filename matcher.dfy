/** The structural matcher: is_value_of_type and the requirement checkers
    check_element_types, check_key_types, check_known_keys and
    check_required_keys, as functions. `known` stands for CHECKABLE_TYPES:
    a composite descriptor outside it cannot be checked. */
module Matcher {
  import opened Values
  import opened Descriptors

  /** The value of the first requirement with the given name
      (`extra_reqs[name]`). Python's `dict(expected_type[1])` keeps the last
      pair of a name instead; the two agree because `as_hashable` leaves
      each name once (Descriptors.TableCanonical). */
  function Lookup(reqs: seq<(string, seq<Item>)>, name: string): (r: Option<seq<Item>>)
    ensures r.Some? <==> exists i :: 0 <= i < |reqs| && reqs[i].0 == name
    ensures r.Some? ==> (name, r.value) in reqs
    ensures r.Some? ==>
              exists i :: 0 <= i < |reqs| && reqs[i] == (name, r.value) && forall j :: 0 <= j < i ==> reqs[j].0 != name
  {
    if reqs == [] then None
    else if reqs[0].0 == name then Some(reqs[0].1)
    else Lookup(reqs[1..], name)
  }

  /** `k in allowed_keys`: only a string key can equal a key name. */
  predicate KeyIn(k: Value, allowed: seq<Item>)
  {
    k.VStr? && KeyItem(k.s) in allowed
  }

  /** `all(key in allowed_keys for key in ks)` */
  predicate AllKeysIn(ks: seq<Value>, allowed: seq<Item>)
  {
    ks == [] || (KeyIn(ks[0], allowed) && AllKeysIn(ks[1..], allowed))
  }

  /** check_known_keys: val is a dict and each of its keys is an allowed key. */
  function CheckKnownKeys(val: Value, allowedKeys: seq<Item>): (r: bool)
    ensures r <==> val.VDict? && forall i :: 0 <= i < |val.entries| ==> KeyIn(val.entries[i].0, allowedKeys)
  {
    if val.VDict? then
      AllKeysInMeaning(Keys(val.entries), allowedKeys);
      AllKeysIn(Keys(val.entries), allowedKeys)
    else false
  }

  lemma {:induction false} AllKeysInMeaning(ks: seq<Value>, allowed: seq<Item>)
    ensures AllKeysIn(ks, allowed) <==> forall i :: 0 <= i < |ks| ==> KeyIn(ks[i], allowed)
  {
    if ks != [] {
      AllKeysInMeaning(ks[1..], allowed);
      assert forall i :: 1 <= i < |ks| ==> ks[i] == ks[1..][i - 1];
    }
  }

  /** A required key name is present iff some key of the dict is that string. */
  predicate Present(req: Item, ks: seq<Value>)
  {
    req.KeyItem? && VStr(req.key) in ks
  }

  /** `all(key in keys for key in required_keys)` */
  predicate AllPresent(reqKeys: seq<Item>, ks: seq<Value>)
  {
    reqKeys == [] || (Present(reqKeys[0], ks) && AllPresent(reqKeys[1..], ks))
  }

  lemma {:induction false} AllPresentMeaning(reqKeys: seq<Item>, ks: seq<Value>)
    ensures AllPresent(reqKeys, ks) <==> forall i :: 0 <= i < |reqKeys| ==> Present(reqKeys[i], ks)
  {
    if reqKeys != [] {
      AllPresentMeaning(reqKeys[1..], ks);
      assert forall i :: 1 <= i < |reqKeys| ==> reqKeys[i] == reqKeys[1..][i - 1];
    }
  }

  /** check_required_keys: val is a dict holding every required key. */
  function CheckRequiredKeys(val: Value, requiredKeys: seq<Item>): (r: bool)
    ensures r <==> val.VDict? && forall i :: 0 <= i < |requiredKeys| ==>
      requiredKeys[i].KeyItem? && exists j :: 0 <= j < |val.entries| && val.entries[j].0 == VStr(requiredKeys[i].key)
  {
    if val.VDict? then
      AllPresentMeaning(requiredKeys, Keys(val.entries));
      AllPresent(requiredKeys, Keys(val.entries))
    else false
  }

  /** `allowed_types = dict(allowed_types)` succeeds iff every item is a
      two-element iterable: a per-key rule, a composite descriptor (the pair
      of its parent type and requirements) or a two-character string. */
  predicate IsPair(it: Item)
  {
    it.RuleItem? || (it.TypeItem? && it.t.Comp?) || (it.KeyItem? && |it.key| == 2)
  }

  predicate AllPairs(allowed: seq<Item>)
  {
    forall j :: 0 <= j < |allowed| ==> IsPair(allowed[j])
  }

  /** `allowed_types[key]` in the dict made by dict(allowed_types), if the
      key is there. The last pair with a key wins, as in dict(); the key of
      a composite descriptor is a type object and equals no value. */
  function RuleLookup(allowed: seq<Item>, key: Value): Option<seq<Item>>
  {
    if allowed == [] then None
    else
      match RuleLookup(allowed[1..], key)
      case Some(later) => Some(later)
      case None =>
        var it := allowed[0];
        if it.RuleItem? && key == VStr(it.key) then Some(it.allowed)
        else if it.KeyItem? && |it.key| == 2 && key == VStr([it.key[0]]) then Some([KeyItem([it.key[1]])])
        else None
  }

  /** The allowed types for a key, or the empty list for a key without a rule. */
  function RuleFor(allowed: seq<Item>, key: Value): seq<Item>
  {
    match RuleLookup(allowed, key)
    case Some(a) => a
    case None => []
  }

  /** `a and b` once both checks have run: the first error wins. */
  function AndThen(b: bool, o: Outcome<bool>): Outcome<bool>
  {
    match o
    case Ok(c) => Ok(b && c)
    case Fail(e) => Fail(e)
  }

  /** is_value_of_type(v, d). */
  function Conforms(known: seq<Desc>, v: Value, d: Desc): Outcome<bool>
    decreases v, 5, 0
  {
    match d
    case Prim(k) => Ok(IsInstance(v, k))
    case Comp(parent, reqs) =>
      if d !in known then Fail(UnknownType)
      else if !IsInstance(v, parent) then Ok(false)
      else ReqsConform(known, v, parent, reqs, 0)
  }

  /** The loop over the requirement names from position i on; each check
      runs even once the result is false. */
  function ReqsConform(known: seq<Desc>, v: Value, parent: Kind, reqs: seq<(string, seq<Item>)>, i: nat): Outcome<bool>
    requires i <= |reqs|
    decreases v, 4, |reqs| - i
  {
    if i == |reqs| then Ok(true)
    else
      var c :- ReqCheck(known, v, parent, reqs, reqs[i].0);
      AndThen(c, ReqsConform(known, v, parent, reqs, i + 1))
  }

  /** extra_req_checkers[name](v): elem_types for every parent, the key
      checks for a dict parent only, anything else is an unknown requirement. */
  function ReqCheck(known: seq<Desc>, v: Value, parent: Kind, reqs: seq<(string, seq<Item>)>, name: string): Outcome<bool>
    decreases v, 3, 0
  {
    if name == ElemTypes then
      match Lookup(reqs, ElemTypes)
      case None => Fail(MissingRequirement(ElemTypes))
      case Some(allowed) => ElementTypes(known, v, allowed)
    else if parent == Dict && name == KeyTypes then
      match Lookup(reqs, KeyTypes)
      case None => Fail(MissingRequirement(KeyTypes))
      case Some(allowed) => KeyTypesConform(known, v, allowed)
    else if parent == Dict && name == OptKeys then
      match Lookup(reqs, OptKeys)
      case None => Fail(MissingRequirement(OptKeys))
      case Some(opt) =>
        match Lookup(reqs, ReqKeys)
        case None => Fail(MissingRequirement(ReqKeys))
        case Some(req) => Ok(CheckKnownKeys(v, opt + req))
    else if parent == Dict && name == ReqKeys then
      match Lookup(reqs, ReqKeys)
      case None => Fail(MissingRequirement(ReqKeys))
      case Some(req) => Ok(CheckRequiredKeys(v, req))
    else Fail(UnknownRequirement(name))
  }

  /** check_element_types(v, allowed). */
  function ElementTypes(known: seq<Desc>, v: Value, allowed: seq<Item>): Outcome<bool>
    decreases v, 2, 0
  {
    if v.VList? || v.VTuple? then AllItems(known, v, allowed, 0)
    else if v.VDict? then
      if AllPairs(allowed) then AllPerKey(known, v, allowed, 0)
      else AllValues(known, v, allowed, 0)
    else Fail(UncheckableElements)
  }

  /** check_key_types(v, allowed). */
  function KeyTypesConform(known: seq<Desc>, v: Value, allowed: seq<Item>): Outcome<bool>
    decreases v, 2, 0
  {
    if v.VDict? then AllKeys(known, v, allowed, 0) else Ok(false)
  }

  /** Every item of a list or tuple from position i on matches an allowed type. */
  function AllItems(known: seq<Desc>, v: Value, allowed: seq<Item>, i: nat): Outcome<bool>
    requires (v.VList? || v.VTuple?) && i <= |v.items|
    decreases v, 1, |v.items| - i
  {
    if i == |v.items| then Ok(true)
    else
      var a :- AnyConforms(known, v.items[i], allowed, 0);
      AndThen(a, AllItems(known, v, allowed, i + 1))
  }

  /** Every value of a dict from position i on matches an allowed type. */
  function AllValues(known: seq<Desc>, v: Value, allowed: seq<Item>, i: nat): Outcome<bool>
    requires v.VDict? && i <= |v.entries|
    decreases v, 1, |v.entries| - i
  {
    if i == |v.entries| then Ok(true)
    else
      var a :- AnyConforms(known, v.entries[i].1, allowed, 0);
      AndThen(a, AllValues(known, v, allowed, i + 1))
  }

  /** Every value of a dict from position i on matches a type allowed for its key. */
  function AllPerKey(known: seq<Desc>, v: Value, allowed: seq<Item>, i: nat): Outcome<bool>
    requires v.VDict? && i <= |v.entries|
    decreases v, 1, |v.entries| - i
  {
    if i == |v.entries| then Ok(true)
    else
      var a :- AnyConforms(known, v.entries[i].1, RuleFor(allowed, v.entries[i].0), 0);
      AndThen(a, AllPerKey(known, v, allowed, i + 1))
  }

  /** Every key of a dict from position i on matches an allowed type. */
  function AllKeys(known: seq<Desc>, v: Value, allowed: seq<Item>, i: nat): Outcome<bool>
    requires v.VDict? && i <= |v.entries|
    decreases v, 1, |v.entries| - i
  {
    if i == |v.entries| then Ok(true)
    else
      var a :- AnyConforms(known, v.entries[i].0, allowed, 0);
      AndThen(a, AllKeys(known, v, allowed, i + 1))
  }

  /** `any(is_value_of_type(y, t) for t in allowed[j..])`: stops at the
      first match, so later items are never checked. */
  function AnyConforms(known: seq<Desc>, y: Value, allowed: seq<Item>, j: nat): Outcome<bool>
    requires j <= |allowed|
    decreases y, 7, |allowed| - j
  {
    if j == |allowed| then Ok(false)
    else
      var c :- ItemConforms(known, y, allowed[j]);
      if c then Ok(true) else AnyConforms(known, y, allowed, j + 1)
  }

  /** is_value_of_type(y, it): only a type can be checked; a key name or a
      rule pair in a list of allowed types is an unknown type. */
  function ItemConforms(known: seq<Desc>, y: Value, it: Item): Outcome<bool>
    decreases y, 6, 0
  {
    match it
    case TypeItem(t) => Conforms(known, y, t)
    case _ => Fail(UnknownType)
  }
}
