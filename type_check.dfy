/** is_value_of_type and its checkers as the loops they are, each proved to
    compute its function of the Matcher module. */
module TypeCheck {
  import opened Values
  import opened Descriptors
  import opened Matcher

  /** is_value_of_type(value, expected_type) */
  method IsValueOfType(known: seq<Desc>, value: Value, expectedType: Desc) returns (r: Outcome<bool>)
    ensures r == Conforms(known, value, expectedType)
    decreases value, 4
  {
    match expectedType
    case Prim(k) =>
      return Ok(IsInstance(value, k));
    case Comp(parent, reqs) =>
      if expectedType !in known {
        return Fail(UnknownType);
      }
      var typeOk := IsInstance(value, parent);
      if !typeOk {
        return Ok(false);
      }
      var i := 0;
      while i < |reqs|
        invariant 0 <= i <= |reqs|
        invariant Conforms(known, value, expectedType) == AndThen(typeOk, ReqsConform(known, value, parent, reqs, i))
      {
        var checkOk := RunCheck(known, value, parent, reqs, reqs[i].0);
        if checkOk.Fail? {
          return Fail(checkOk.error);
        }
        typeOk := typeOk && checkOk.value;
        i := i + 1;
      }
      return Ok(typeOk);
  }

  /** extra_req_checkers[name](value) */
  method RunCheck(known: seq<Desc>, value: Value, parent: Kind, reqs: seq<(string, seq<Item>)>, name: string)
    returns (r: Outcome<bool>)
    ensures r == ReqCheck(known, value, parent, reqs, name)
    decreases value, 3
  {
    if name == ElemTypes {
      var allowed := Lookup(reqs, ElemTypes);
      if allowed.None? {
        return Fail(MissingRequirement(ElemTypes));
      }
      r := CheckElementTypes(known, value, allowed.value);
    } else if parent == Dict && name == KeyTypes {
      var allowed := Lookup(reqs, KeyTypes);
      if allowed.None? {
        return Fail(MissingRequirement(KeyTypes));
      }
      r := CheckKeyTypes(known, value, allowed.value);
    } else if parent == Dict && name == OptKeys {
      var opt, req := Lookup(reqs, OptKeys), Lookup(reqs, ReqKeys);
      if opt.None? {
        return Fail(MissingRequirement(OptKeys));
      }
      if req.None? {
        return Fail(MissingRequirement(ReqKeys));
      }
      r := Ok(CheckKnownKeys(value, opt.value + req.value));
    } else if parent == Dict && name == ReqKeys {
      var req := Lookup(reqs, ReqKeys);
      if req.None? {
        return Fail(MissingRequirement(ReqKeys));
      }
      r := Ok(CheckRequiredKeys(value, req.value));
    } else {
      r := Fail(UnknownRequirement(name));
    }
  }

  /** What remains of check_element_types' final loop from position i on,
      by the shape of elems. */
  ghost function ElementsFrom(known: seq<Desc>, elems: Value, allowed: seq<Item>, i: nat): Outcome<bool>
    requires elems.VList? || elems.VTuple? || elems.VDict?
    requires i <= if elems.VDict? then |elems.entries| else |elems.items|
  {
    if elems.VList? || elems.VTuple? then AllItems(known, elems, allowed, i)
    else if AllPairs(allowed) then AllPerKey(known, elems, allowed, i)
    else AllValues(known, elems, allowed, i)
  }

  /** check_element_types(elems, allowed_types): pair every element with its
      allowed types, then check each pair. */
  method CheckElementTypes(known: seq<Desc>, elems: Value, allowed: seq<Item>) returns (r: Outcome<bool>)
    ensures r == ElementTypes(known, elems, allowed)
    decreases elems, 2
  {
    var pairs: seq<(Value, seq<Item>)>;
    if elems.VList? || elems.VTuple? {
      pairs := seq(|elems.items|, k requires 0 <= k < |elems.items| => (elems.items[k], allowed));
    } else if elems.VDict? {
      if AllPairs(allowed) {
        pairs := [];
        for k := 0 to |elems.entries|
          invariant |pairs| == k
          invariant forall m :: 0 <= m < k ==> pairs[m] == (elems.entries[m].1, RuleFor(allowed, elems.entries[m].0))
        {
          var (key, val) := elems.entries[k];
          var rule := RuleLookup(allowed, key);
          if rule.Some? {
            pairs := pairs + [(val, rule.value)];
          } else {
            pairs := pairs + [(val, [])];
          }
        }
      } else {
        pairs := seq(|elems.entries|, k requires 0 <= k < |elems.entries| => (elems.entries[k].1, allowed));
      }
    } else {
      return Fail(UncheckableElements);
    }
    ghost var n := if elems.VDict? then |elems.entries| else |elems.items|;
    assert |pairs| == n;
    var res := true;
    for i := 0 to |pairs|
      invariant ElementTypes(known, elems, allowed) == AndThen(res, ElementsFrom(known, elems, allowed, i))
    {
      var (elem, allowedElem) := pairs[i];
      assert elem < elems by {
        if elems.VDict? { assert elem == elems.entries[i].1; } else { assert elem == elems.items[i]; }
      }
      var a := AnyIsValueOfType(known, elem, allowedElem);
      if a.Fail? {
        return Fail(a.error);
      }
      res := res && a.value;
    }
    return Ok(res);
  }

  /** check_key_types(val, allowed_types) */
  method CheckKeyTypes(known: seq<Desc>, val: Value, allowed: seq<Item>) returns (r: Outcome<bool>)
    ensures r == KeyTypesConform(known, val, allowed)
    decreases val, 2
  {
    if !val.VDict? {
      return Ok(false);
    }
    var res := true;
    for i := 0 to |val.entries|
      invariant KeyTypesConform(known, val, allowed) == AndThen(res, AllKeys(known, val, allowed, i))
    {
      var a := AnyIsValueOfType(known, val.entries[i].0, allowed);
      if a.Fail? {
        return Fail(a.error);
      }
      res := res && a.value;
    }
    return Ok(res);
  }

  /** any(is_value_of_type(y, t) for t in allowed) */
  method AnyIsValueOfType(known: seq<Desc>, y: Value, allowed: seq<Item>) returns (r: Outcome<bool>)
    ensures r == AnyConforms(known, y, allowed, 0)
    decreases y, 5
  {
    for j := 0 to |allowed|
      invariant AnyConforms(known, y, allowed, 0) == AnyConforms(known, y, allowed, j)
    {
      if !allowed[j].TypeItem? {
        return Fail(UnknownType);
      }
      var c := IsValueOfType(known, y, allowed[j].t);
      if c.Fail? {
        return c;
      }
      if c.value {
        return Ok(true);
      }
    }
    return Ok(false);
  }
}
