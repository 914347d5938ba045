/** Python values as they reach the easyconfig type checker, the errors it
    raises, and the few dict and list operations of Python that it relies on. */
module Values {

  /** The closed universe of easyconfig parameter values. A dict is an
      association list: Python dicts keep insertion order, and several
      normalisers depend on it. Python dicts never hold a key twice; every
      operation below that builds a dict keeps its keys distinct. */
  datatype Value =
    | VNone
    | VBool(b: bool)
    | VInt(i: int)
    | VStr(s: string)
    | VList(items: seq<Value>)
    | VTuple(items: seq<Value>)
    | VDict(entries: seq<(Value, Value)>)

  /** The Python type objects that a descriptor can name: the easy types. */
  datatype Kind = NoneType | Bool | Int | Str | List | Tuple | Dict

  /** isinstance(v, k). In Python bool is a subclass of int, so a bool
      passes an int check. */
  predicate IsInstance(v: Value, k: Kind)
  {
    match k
    case NoneType => v.VNone?
    case Bool => v.VBool?
    case Int => v.VInt? || v.VBool?
    case Str => v.VStr?
    case List => v.VList?
    case Tuple => v.VTuple?
    case Dict => v.VDict?
  }

  /** Python truth value (`if v:`). */
  predicate Truthy(v: Value)
  {
    match v
    case VNone => false
    case VBool(b) => b
    case VInt(i) => i != 0
    case VStr(s) => |s| > 0
    case VList(xs) => |xs| > 0
    case VTuple(xs) => |xs| > 0
    case VDict(e) => |e| > 0
  }

  datatype Option<+T> = None | Some(value: T)

  /** What went wrong; the texts of the EasyBuildError messages are not modelled. */
  datatype Error =
    | UnknownType                     // descriptor neither easy nor checkable
    | UnknownRequirement(name: string) // requirement without a checker
    | MissingRequirement(name: string) // KeyError on a requirement lookup
    | UncheckableElements             // element types of a non-container
    | NotAString                      // AttributeError: .strip() on a non-string
    | InvalidTruthValue               // unknown token for the hidden flag
    | WrongLength                     // toolchain list of other than 2 or 3 parts
    | BadToolchainKeys                // toolchain dict with other keys
    | Unsupported                     // a shape the normaliser does not convert
    | NotIterable                     // TypeError: iterating a non-iterable
    | NotAList                        // a list normaliser given neither list nor tuple
    | NotADict                        // sanity_check_paths given a non-dict
    | BadElement                      // a list element of a type the normaliser rejects
    | NonStringKey                    // a sanity check dict entry with a non-string key
    | BadExternalModule               // external module dict with other keys
    | UnexpectedPair                  // dependency key left over
    | MissingNameOrVersion            // dependency without name or version
    | BadChecksum                     // ValueError raised by _to_checksum
    | InvalidChecksums(cause: Error)  // to_checksums wrapping a ValueError
    | UnsupportedLicense              // license spec of another type
    | NoConversion                    // no conversion function for the type
    | ConversionFailed(cause: Error)  // the conversion function raised
    | UnexpectedResultType            // conversion result fails isinstance

  /** A computation that returns a value or raises. */
  datatype Outcome<+T> = Ok(value: T) | Fail(error: Error)
  {
    predicate IsFailure() { Fail? }

    function PropagateFailure<U>(): Outcome<U>
      requires Fail?
    {
      Fail(error)
    }

    function Extract(): T
      requires Ok?
    {
      value
    }
  }

  /** The keys of a dict, in insertion order (`list(d.keys())`). */
  function Keys(entries: seq<(Value, Value)>): (ks: seq<Value>)
    ensures |ks| == |entries|
    ensures forall i :: 0 <= i < |entries| ==> ks[i] == entries[i].0
  {
    if entries == [] then [] else [entries[0].0] + Keys(entries[1..])
  }

  /** `d.get(key)`: the value stored under key, if any. */
  function Get(entries: seq<(Value, Value)>, key: Value): (r: Option<Value>)
    ensures r.Some? <==> key in Keys(entries)
    ensures r.Some? ==> (key, r.value) in entries
  {
    if entries == [] then None
    else if entries[0].0 == key then Some(entries[0].1)
    else Get(entries[1..], key)
  }

  /** `d[key] = val`: an existing key keeps its place, a new one goes last. */
  function Put(entries: seq<(Value, Value)>, key: Value, val: Value): (r: seq<(Value, Value)>)
    ensures Get(r, key) == Some(val)
    ensures forall k :: k != key ==> Get(r, k) == Get(entries, k)
    ensures Keys(r) == if key in Keys(entries) then Keys(entries) else Keys(entries) + [key]
  {
    Assigned(entries, key, val);
    Assign(entries, key, val)
  }

  /** The walk behind Put, without its contract. */
  function Assign(entries: seq<(Value, Value)>, key: Value, val: Value): seq<(Value, Value)>
  {
    if entries == [] then [(key, val)]
    else if entries[0].0 == key then [(key, val)] + entries[1..]
    else [entries[0]] + Assign(entries[1..], key, val)
  }

  lemma {:induction false} Assigned(entries: seq<(Value, Value)>, key: Value, val: Value)
    ensures PutOf(entries, key, val, Assign(entries, key, val))
  {
    if entries == [] {
    } else if entries[0].0 == key {
      var r := [(key, val)] + entries[1..];
      assert r[1..] == entries[1..];
    } else {
      Assigned(entries[1..], key, val);
      PutStep(entries, key, val, Assign(entries[1..], key, val));
    }
  }

  /** What Put promises, for a pair placed in front of a Put on the rest. */
  ghost predicate PutOf(entries: seq<(Value, Value)>, key: Value, val: Value, r: seq<(Value, Value)>)
  {
    && Get(r, key) == Some(val)
    && (forall k :: k != key ==> Get(r, k) == Get(entries, k))
    && Keys(r) == if key in Keys(entries) then Keys(entries) else Keys(entries) + [key]
  }

  lemma PutStep(entries: seq<(Value, Value)>, key: Value, val: Value, rest: seq<(Value, Value)>)
    requires entries != [] && entries[0].0 != key
    requires PutOf(entries[1..], key, val, rest)
    ensures PutOf(entries, key, val, [entries[0]] + rest)
  {
    var r := [entries[0]] + rest;
    assert r[1..] == rest;
    var ks, kr := Keys(entries[1..]), Keys(rest);
    assert Keys(entries) == [entries[0].0] + ks;
    assert Keys(r) == [entries[0].0] + kr;
    if key in ks {
      assert key in Keys(entries);
    } else {
      assert key !in Keys(entries);
      assert [entries[0].0] + (ks + [key]) == ([entries[0].0] + ks) + [key];
    }
    forall k | k != key
      ensures Get(r, k) == Get(entries, k)
    {
    }
  }

  /** `xs.remove(x)` for an x in xs: drops its first occurrence. */
  function RemoveFirst(xs: seq<Value>, x: Value): (r: seq<Value>)
    ensures x in xs ==> |r| == |xs| - 1
    ensures x !in xs ==> r == xs
    ensures forall y :: y in r ==> y in xs
    ensures forall y :: y in xs && y != x ==> y in r
  {
    if xs == [] then []
    else if xs[0] == x then xs[1..]
    else [xs[0]] + RemoveFirst(xs[1..], x)
  }

  /** The elements a `for` loop or comprehension visits: a list or tuple
      yields its items, a dict its keys, a string its characters; anything
      else raises TypeError. */
  function Iterate(v: Value): (r: Option<seq<Value>>)
    ensures r.None? <==> v.VNone? || v.VBool? || v.VInt?
    ensures (v.VList? || v.VTuple?) ==> r == Some(v.items)
    ensures v.VDict? ==> r == Some(Keys(v.entries))
    ensures v.VStr? ==> r.Some? && |r.value| == |v.s|
                        && forall i :: 0 <= i < |v.s| ==> r.value[i] == VStr([v.s[i]])
  {
    match v
    case VList(xs) => Some(xs)
    case VTuple(xs) => Some(xs)
    case VDict(e) => Some(Keys(e))
    case VStr(s) => Some(seq(|s|, i requires 0 <= i < |s| => VStr([s[i]])))
    case _ => None
  }

  /** Every element is a string (`all(isinstance(s, str) for s in xs)`). */
  predicate AllStrings(xs: seq<Value>)
  {
    forall i :: 0 <= i < |xs| ==> xs[i].VStr?
  }

  /** No key occurs twice, as in every Python dict. */
  predicate DistinctKeys(entries: seq<(Value, Value)>)
  {
    forall i, j :: 0 <= i < j < |entries| ==> entries[i].0 != entries[j].0
  }

  /** Every dict inside v, at any depth, has distinct keys: what every
      Python value satisfies. */
  predicate WellFormed(v: Value)
  {
    match v
    case VList(xs) => forall i :: 0 <= i < |xs| ==> WellFormed(xs[i])
    case VTuple(xs) => forall i :: 0 <= i < |xs| ==> WellFormed(xs[i])
    case VDict(es) => DistinctKeys(es) && forall i :: 0 <= i < |es| ==> WellFormed(es[i].0) && WellFormed(es[i].1)
    case _ => true
  }

  /** Assigning to a key a dict already has replaces its value in place. */
  lemma PutExisting(entries: seq<(Value, Value)>, i: nat, val: Value)
    requires DistinctKeys(entries) && i < |entries|
    ensures Put(entries, entries[i].0, val) == entries[i := (entries[i].0, val)]
  {
    AssignExisting(entries, i, val);
  }

  lemma {:induction false} AssignExisting(entries: seq<(Value, Value)>, i: nat, val: Value)
    requires DistinctKeys(entries) && i < |entries|
    ensures Assign(entries, entries[i].0, val) == entries[i := (entries[i].0, val)]
  {
    var k := entries[i].0;
    if i == 0 {
      assert [(k, val)] + entries[1..] == entries[0 := (k, val)];
    } else {
      var rest := entries[1..];
      assert rest[i - 1] == entries[i];
      assert DistinctKeys(rest) by {
        forall a, b | 0 <= a < b < |rest|
          ensures rest[a].0 != rest[b].0
        {
          assert rest[a] == entries[a + 1] && rest[b] == entries[b + 1];
        }
      }
      assert entries[0].0 != k;
      AssignExisting(rest, i - 1, val);
      assert [entries[0]] + rest[i - 1 := (k, val)] == entries[i := (k, val)];
    }
  }

  /** Assigning to a new key appends the pair. */
  lemma PutNew(entries: seq<(Value, Value)>, key: Value, val: Value)
    requires key !in Keys(entries)
    ensures Put(entries, key, val) == entries + [(key, val)]
  {
    AssignNew(entries, key, val);
  }

  lemma {:induction false} AssignNew(entries: seq<(Value, Value)>, key: Value, val: Value)
    requires key !in Keys(entries)
    ensures Assign(entries, key, val) == entries + [(key, val)]
  {
    if entries != [] {
      var rest := entries[1..];
      assert Keys(entries) == [entries[0].0] + Keys(rest);
      AssignNew(rest, key, val);
      assert [entries[0]] + (rest + [(key, val)]) == entries + [(key, val)];
    }
  }

  /** No element occurs twice. */
  predicate NoDuplicates(xs: seq<Value>)
  {
    forall i, j :: 0 <= i < j < |xs| ==> xs[i] != xs[j]
  }

  /** The keys of a Python dict occur once each. */
  lemma KeysNoDuplicates(entries: seq<(Value, Value)>)
    requires DistinctKeys(entries)
    ensures NoDuplicates(Keys(entries))
  {
  }

  /** Removing an element that occurs once leaves none of it, and no
      duplicates. */
  lemma {:induction false} RemoveFirstOnce(xs: seq<Value>, x: Value)
    requires NoDuplicates(xs)
    ensures x !in RemoveFirst(xs, x) && NoDuplicates(RemoveFirst(xs, x))
  {
    if xs != [] && xs[0] != x {
      assert forall i :: 0 <= i < |xs| - 1 ==> xs[1..][i] == xs[i + 1];
      RemoveFirstOnce(xs[1..], x);
      var r := RemoveFirst(xs[1..], x);
      assert xs[0] !in r;
    } else if xs != [] {
      assert xs[0] !in xs[1..];
    }
  }
}
