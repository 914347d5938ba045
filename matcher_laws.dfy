/** What the structural matcher guarantees: a parent mismatch decides
    before any requirement runs, an unknown requirement always raises, the
    meaning of elem_types for lists and per-key dicts, and, for the fixed
    descriptor table, that matching never raises at all. */
module MatcherLaws {
  import opened Values
  import opened Descriptors
  import opened Matcher

  /** The requirement names is_value_of_type has a checker for. */
  predicate HasChecker(parent: Kind, name: string)
  {
    name == ElemTypes || (parent == Dict && (name == KeyTypes || name == OptKeys || name == ReqKeys))
  }

  /** A composite descriptor whose parent type the value lacks is rejected
      without looking at its requirements, whatever they are. */
  lemma ParentFirst(known: seq<Desc>, v: Value, d: Desc)
    requires d.Comp? && d in known && !IsInstance(v, d.parent)
    ensures Conforms(known, v, d) == Ok(false)
  {
  }

  /** A composite descriptor outside CHECKABLE_TYPES cannot be checked. */
  lemma UnregisteredFails(known: seq<Desc>, v: Value, d: Desc)
    requires d.Comp? && d !in known
    ensures Conforms(known, v, d) == Fail(UnknownType)
  {
  }

  /** Once the parent type matches, a requirement name without a checker
      makes the check raise; it never yields false. */
  lemma UnknownRequirementRaises(known: seq<Desc>, v: Value, d: Desc, k: nat)
    requires d.Comp? && d in known && IsInstance(v, d.parent)
    requires k < |d.reqs| && !HasChecker(d.parent, d.reqs[k].0)
    ensures Conforms(known, v, d).Fail?
  {
    ReqsFailFrom(known, v, d.parent, d.reqs, 0, k);
  }

  lemma {:induction false} ReqsFailFrom(known: seq<Desc>, v: Value, parent: Kind, reqs: seq<(string, seq<Item>)>, i: nat, k: nat)
    requires i <= k < |reqs| && !HasChecker(parent, reqs[k].0)
    ensures ReqsConform(known, v, parent, reqs, i).Fail?
    decreases k - i
  {
    if i < k && ReqCheck(known, v, parent, reqs, reqs[i].0).Ok? {
      ReqsFailFrom(known, v, parent, reqs, i + 1, k);
    }
  }

  /** any(...) that returns normally is true iff some allowed type, from
      position j on, matches. */
  lemma {:induction false} AnyConformsMeaning(known: seq<Desc>, y: Value, allowed: seq<Item>, j: nat)
    requires j <= |allowed| && AnyConforms(known, y, allowed, j).Ok?
    ensures AnyConforms(known, y, allowed, j).value <==>
      exists m :: j <= m < |allowed| && ItemConforms(known, y, allowed[m]) == Ok(true)
    decreases |allowed| - j
  {
    if j < |allowed| && ItemConforms(known, y, allowed[j]) != Ok(true) {
      AnyConformsMeaning(known, y, allowed, j + 1);
      if AnyConforms(known, y, allowed, j).value {
        var m :| j + 1 <= m < |allowed| && ItemConforms(known, y, allowed[m]) == Ok(true);
      }
    }
  }

  /** The element loop over a list or tuple that returns normally is true
      iff every element from position i on matches some allowed type. */
  lemma {:induction false} AllItemsMeaning(known: seq<Desc>, v: Value, allowed: seq<Item>, i: nat)
    requires (v.VList? || v.VTuple?) && i <= |v.items| && AllItems(known, v, allowed, i).Ok?
    ensures AllItems(known, v, allowed, i).value <==>
      forall k :: i <= k < |v.items| ==> AnyConforms(known, v.items[k], allowed, 0) == Ok(true)
    decreases |v.items| - i
  {
    if i < |v.items| {
      AllItemsMeaning(known, v, allowed, i + 1);
    }
  }

  /** For a list or tuple, elem_types holds iff every element matches at
      least one allowed type; the check raises only when a type check does. */
  lemma ListElementLaw(known: seq<Desc>, v: Value, allowed: seq<Item>)
    requires v.VList? || v.VTuple?
    requires ElementTypes(known, v, allowed).Ok?
    ensures ElementTypes(known, v, allowed).value <==>
      forall k :: 0 <= k < |v.items| ==>
        exists m :: 0 <= m < |allowed| && ItemConforms(known, v.items[k], allowed[m]) == Ok(true)
  {
    AllItemsMeaning(known, v, allowed, 0);
    if ElementTypes(known, v, allowed).value {
      forall k | 0 <= k < |v.items|
        ensures exists m :: 0 <= m < |allowed| && ItemConforms(known, v.items[k], allowed[m]) == Ok(true)
      {
        AnyConformsMeaning(known, v.items[k], allowed, 0);
      }
    } else {
      var k :| 0 <= k < |v.items| && AnyConforms(known, v.items[k], allowed, 0) != Ok(true);
      AllItemsOkAt(known, v, allowed, 0, k);
      AnyConformsMeaning(known, v.items[k], allowed, 0);
    }
  }

  /** When the element loop returns normally, so did each element's any(...). */
  lemma {:induction false} AllItemsOkAt(known: seq<Desc>, v: Value, allowed: seq<Item>, i: nat, k: nat)
    requires (v.VList? || v.VTuple?) && i <= k < |v.items| && AllItems(known, v, allowed, i).Ok?
    ensures AnyConforms(known, v.items[k], allowed, 0).Ok?
    decreases k - i
  {
    if i < k {
      AllItemsOkAt(known, v, allowed, i + 1, k);
    }
  }

  /** An empty list or tuple passes any elem_types. */
  lemma EmptyListPasses(known: seq<Desc>, v: Value, allowed: seq<Item>)
    requires (v.VList? || v.VTuple?) && v.items == []
    ensures ElementTypes(known, v, allowed) == Ok(true)
  {
  }

  /** For a dict checked against a per-key elem_types, a key without a rule
      gets no allowed types, so the check cannot pass. */
  lemma PerKeyMissingKey(known: seq<Desc>, v: Value, allowed: seq<Item>, k: nat)
    requires v.VDict? && AllPairs(allowed)
    requires k < |v.entries| && RuleLookup(allowed, v.entries[k].0).None?
    ensures ElementTypes(known, v, allowed) != Ok(true)
  {
    PerKeyMissingFrom(known, v, allowed, 0, k);
  }

  lemma {:induction false} PerKeyMissingFrom(known: seq<Desc>, v: Value, allowed: seq<Item>, i: nat, k: nat)
    requires v.VDict? && i <= k < |v.entries| && RuleLookup(allowed, v.entries[k].0).None?
    ensures AllPerKey(known, v, allowed, i) != Ok(true)
    decreases k - i
  {
    if i < k {
      PerKeyMissingFrom(known, v, allowed, i + 1, k);
    }
  }

  /** opt_keys holds iff the value is a dict whose every key is one of
      opt_keys + req_keys. */
  lemma OptKeysLaw(v: Value, opt: seq<string>, req: seq<string>)
    ensures CheckKnownKeys(v, KeyNames(opt) + KeyNames(req)) <==>
      v.VDict? && forall i :: 0 <= i < |v.entries| ==>
        v.entries[i].0.VStr? && (v.entries[i].0.s in opt || v.entries[i].0.s in req)
  {
    var allowed := KeyNames(opt) + KeyNames(req);
    forall s: string ensures KeyItem(s) in allowed <==> s in opt || s in req {
      if KeyItem(s) in allowed {
        var j :| 0 <= j < |allowed| && allowed[j] == KeyItem(s);
        if j < |opt| { assert opt[j] == s; } else { assert req[j - |opt|] == s; }
      }
      if s in opt {
        var j :| 0 <= j < |opt| && opt[j] == s;
        assert allowed[j] == KeyItem(s);
      }
      if s in req {
        var j :| 0 <= j < |req| && req[j] == s;
        assert allowed[|opt| + j] == KeyItem(s);
      }
    }
  }

  /** req_keys holds iff the value is a dict that has every required key. */
  lemma ReqKeysLaw(v: Value, req: seq<string>)
    ensures CheckRequiredKeys(v, KeyNames(req)) <==>
      v.VDict? && forall i :: 0 <= i < |req| ==> VStr(req[i]) in Keys(v.entries)
  {
    if v.VDict? {
      forall i | 0 <= i < |req|
        ensures (exists j :: 0 <= j < |v.entries| && v.entries[j].0 == VStr(req[i])) <==> VStr(req[i]) in Keys(v.entries)
      {
        if VStr(req[i]) in Keys(v.entries) {
          var j :| 0 <= j < |Keys(v.entries)| && Keys(v.entries)[j] == VStr(req[i]);
          assert v.entries[j].0 == VStr(req[i]);
        }
      }
    }
  }
}
