/** as_hashable: the canonical, hashable form of a requirements dict, a
    key-sorted tuple of (key, value) pairs in which list values become tuples
    and dict values are canonicalised in turn. */
module Hashable {
  import opened Values

  /** Python's `<` on str: code points compared left to right, a proper
      prefix first. */
  predicate StrLess(a: string, b: string)
  {
    if a == [] then b != []
    else if b == [] then false
    else if a[0] != b[0] then a[0] < b[0]
    else StrLess(a[1..], b[1..])
  }

  lemma {:induction false} StrLessIrreflexive(a: string)
    ensures !StrLess(a, a)
  {
    if a != [] { StrLessIrreflexive(a[1..]); }
  }

  lemma {:induction false} StrLessTransitive(a: string, b: string, c: string)
    requires StrLess(a, b) && StrLess(b, c)
    ensures StrLess(a, c)
  {
    if a != [] && b != [] && c != [] && a[0] == b[0] == c[0] {
      StrLessTransitive(a[1..], b[1..], c[1..]);
    }
  }

  lemma {:induction false} StrLessTotal(a: string, b: string)
    ensures a == b || StrLess(a, b) || StrLess(b, a)
  {
    if a != [] && b != [] && a[0] == b[0] {
      StrLessTotal(a[1..], b[1..]);
      if a[1..] == b[1..] {
        assert a == [a[0]] + a[1..] && b == [b[0]] + b[1..];
      }
    }
  }

  lemma {:induction false} StrLessAsymmetric(a: string, b: string)
    requires StrLess(a, b)
    ensures !StrLess(b, a)
  {
    if a != [] && b != [] && a[0] == b[0] {
      StrLessAsymmetric(a[1..], b[1..]);
    }
  }

  /** The text of a string key; the model sorts only string-keyed dicts. */
  function KeyText(p: (Value, Value)): string
  {
    if p.0.VStr? then p.0.s else ""
  }

  /** Sorted by key, as `sorted(d.items())` orders a dict with distinct keys. */
  ghost predicate SortedByKey(s: seq<(Value, Value)>)
  {
    forall i, j :: 0 <= i < j < |s| ==> !StrLess(KeyText(s[j]), KeyText(s[i]))
  }

  /** Every dict reached by as_hashable has string keys: the top-level dict
      and, recursively, every dict stored as one of its values. */
  ghost predicate Hashable(d: Value)
  {
    d.VDict? &&
    forall i :: 0 <= i < |d.entries| ==>
      d.entries[i].0.VStr? && (d.entries[i].1.VDict? ==> Hashable(d.entries[i].1))
  }

  /** Inserts p before the first entry whose key is not below p's. */
  function Insert(p: (Value, Value), s: seq<(Value, Value)>): (r: seq<(Value, Value)>)
    ensures multiset(r) == multiset(s) + multiset{p}
    ensures |r| == |s| + 1
  {
    if s == [] then [p]
    else if !StrLess(KeyText(s[0]), KeyText(p)) then [p] + s
    else
      assert s == [s[0]] + s[1..];
      [s[0]] + Insert(p, s[1..])
  }

  lemma {:induction false} InsertSorted(p: (Value, Value), s: seq<(Value, Value)>)
    requires SortedByKey(s)
    ensures SortedByKey(Insert(p, s))
  {
    if s == [] {
    } else if !StrLess(KeyText(s[0]), KeyText(p)) {
      SortedAfterFirst(p, s);
    } else {
      InsertSorted(p, s[1..]);
      var t := Insert(p, s[1..]);
      forall j | 0 <= j < |t| ensures !StrLess(KeyText(t[j]), KeyText(s[0])) {
        InsertedAfterHead(p, s, t[j]);
      }
      ConsSorted(s[0], t);
    }
  }

  /** An entry of Insert(p, s[1..]) does not sort before s[0] when p does not. */
  lemma InsertedAfterHead(p: (Value, Value), s: seq<(Value, Value)>, q: (Value, Value))
    requires SortedByKey(s) && s != [] && StrLess(KeyText(s[0]), KeyText(p))
    requires q in multiset(s[1..]) + multiset{p}
    ensures !StrLess(KeyText(q), KeyText(s[0]))
  {
    if q == p {
      StrLessAsymmetric(KeyText(s[0]), KeyText(p));
    } else {
      assert q in s[1..];
      var k :| 0 <= k < |s[1..]| && s[1..][k] == q;
      assert s[k + 1] == q;
    }
  }

  /** A head that sorts before every entry of a sorted tail. */
  lemma ConsSorted(h: (Value, Value), t: seq<(Value, Value)>)
    requires SortedByKey(t)
    requires forall j :: 0 <= j < |t| ==> !StrLess(KeyText(t[j]), KeyText(h))
    ensures SortedByKey([h] + t)
  {
    var r := [h] + t;
    forall i, j | 0 <= i < j < |r|
      ensures !StrLess(KeyText(r[j]), KeyText(r[i]))
    {
      assert r[j] == t[j - 1];
      if i > 0 {
        assert r[i] == t[i - 1];
      }
    }
  }

  lemma {:induction false} SortedAfterFirst(p: (Value, Value), s: seq<(Value, Value)>)
    requires SortedByKey(s) && s != [] && !StrLess(KeyText(s[0]), KeyText(p))
    ensures SortedByKey([p] + s)
  {
    forall j | 0 < j < |[p] + s| ensures !StrLess(KeyText(([p] + s)[j]), KeyText(p)) {
      var t := KeyText(([p] + s)[j]);
      if StrLess(t, KeyText(p)) {
        StrLessTotal(KeyText(s[0]), KeyText(p));
        if j > 1 {
          StrLessTotal(t, KeyText(s[0]));
          if StrLess(t, KeyText(s[0])) {
          } else if t == KeyText(s[0]) {
          } else {
            StrLessTransitive(KeyText(s[0]), t, KeyText(p));
          }
        }
      }
    }
  }

  /** sorted(d.items()) by insertion. */
  function SortByKey(s: seq<(Value, Value)>): (r: seq<(Value, Value)>)
    ensures |r| == |s|
    ensures multiset(r) == multiset(s)
    ensures SortedByKey(r)
  {
    if s == [] then []
    else
      assert s == [s[0]] + s[1..];
      InsertSorted(s[0], SortByKey(s[1..]));
      Insert(s[0], SortByKey(s[1..]))
  }

  /** The value stored in the hashable form: a list becomes a tuple of the
      same items, a dict its own canonical form, anything else stays. */
  function ConvertValue(val: Value): Value
    decreases val, 3, 0
  {
    match val
    case VList(xs) => VTuple(xs)
    case VDict(_) => CanonicalForm(val)
    case _ => val
  }

  /** The entries of d from position i on, with their values converted. */
  function ConvertEntries(d: Value, i: nat): seq<(Value, Value)>
    requires d.VDict? && i <= |d.entries|
    decreases d, 1, |d.entries| - i
  {
    if i == |d.entries| then []
    else [(d.entries[i].0, ConvertValue(d.entries[i].1))] + ConvertEntries(d, i + 1)
  }

  /** A sequence of (key, value) pairs as a sequence of Python 2-tuples. */
  function Pairs(s: seq<(Value, Value)>): seq<Value>
  {
    seq(|s|, k requires 0 <= k < |s| => VTuple([s[k].0, s[k].1]))
  }

  /** The canonical form of dict d: its converted entries, sorted by key,
      as a tuple of 2-tuples. */
  function CanonicalForm(d: Value): Value
    requires d.VDict?
    decreases d, 2, 0
  {
    VTuple(Pairs(SortByKey(ConvertEntries(d, 0))))
  }

  /** One entry with its value converted. */
  function ConvertEntry(p: (Value, Value)): (Value, Value)
  {
    (p.0, ConvertValue(p.1))
  }

  /** Each entry with its value converted, in the given order. */
  function ConvertEach(s: seq<(Value, Value)>): (r: seq<(Value, Value)>)
    ensures |r| == |s|
    ensures forall k :: 0 <= k < |s| ==> r[k] == ConvertEntry(s[k])
  {
    if s == [] then [] else [ConvertEntry(s[0])] + ConvertEach(s[1..])
  }

  lemma {:induction false} ConvertEntriesIsConvertEach(d: Value, i: nat)
    requires d.VDict? && i <= |d.entries|
    ensures ConvertEntries(d, i) == ConvertEach(d.entries[i..])
    decreases |d.entries| - i
  {
    if i < |d.entries| {
      ConvertEntriesIsConvertEach(d, i + 1);
      assert d.entries[i..][1..] == d.entries[i + 1..];
    }
  }

  lemma {:induction false} InsertCommutesWithConvert(p: (Value, Value), s: seq<(Value, Value)>)
    ensures Insert(ConvertEntry(p), ConvertEach(s)) == ConvertEach(Insert(p, s))
  {
    if s == [] {
    } else if !StrLess(KeyText(s[0]), KeyText(p)) {
      assert ([p] + s)[1..] == s;
    } else {
      InsertCommutesWithConvert(p, s[1..]);
      var rest := Insert(p, s[1..]);
      assert ([s[0]] + rest)[1..] == rest;
    }
  }

  /** Sorting only looks at keys, so converting the values before or after
      sorting gives the same sequence. */
  lemma {:induction false} SortCommutesWithConvert(s: seq<(Value, Value)>)
    ensures SortByKey(ConvertEach(s)) == ConvertEach(SortByKey(s))
  {
    if s != [] {
      SortCommutesWithConvert(s[1..]);
      InsertCommutesWithConvert(s[0], SortByKey(s[1..]));
    }
  }

  /** The canonical form is what as_hashable builds: sort the items first,
      then convert each value. */
  lemma CanonicalFormSortsFirst(d: Value)
    requires d.VDict?
    ensures CanonicalForm(d) == VTuple(Pairs(ConvertEach(SortByKey(d.entries))))
  {
    ConvertEntriesIsConvertEach(d, 0);
    assert d.entries[0..] == d.entries;
    SortCommutesWithConvert(d.entries);
  }

  /** In a dict with distinct keys every entry occurs at most once. */
  lemma {:induction false} CountAtMostOne(e: seq<(Value, Value)>, p: (Value, Value))
    requires DistinctKeys(e)
    ensures multiset(e)[p] <= 1
  {
    if e != [] {
      assert e == [e[0]] + e[1..];
      CountAtMostOne(e[1..], p);
      if e[0] == p {
        assert p !in e[1..];
      }
    }
  }

  lemma CountTwo(s: seq<(Value, Value)>, i: nat, j: nat)
    requires i < j < |s| && s[i] == s[j]
    ensures multiset(s)[s[i]] >= 2
  {
    assert s == s[..j] + [s[j]] + s[j + 1..];
    assert s[..j][i] == s[i];
  }

  /** A permutation of distinct-keyed entries has distinct keys. */
  lemma PermutationDistinct(e: seq<(Value, Value)>, s: seq<(Value, Value)>, i: nat, j: nat)
    requires DistinctKeys(e) && multiset(s) == multiset(e)
    requires i < j < |s|
    ensures s[i].0 != s[j].0
  {
    if s[i] == s[j] {
      CountTwo(s, i, j);
      CountAtMostOne(e, s[i]);
    } else {
      assert s[i] in multiset(e) && s[j] in multiset(e);
      var a :| 0 <= a < |e| && e[a] == s[i];
      var b :| 0 <= b < |e| && e[b] == s[j];
      assert a != b;
    }
  }

  /** A permutation of the entries of a dict with distinct string keys has
      distinct key texts. */
  lemma PermutationKeysDistinct(e: seq<(Value, Value)>, s: seq<(Value, Value)>)
    requires DistinctKeys(e) && multiset(s) == multiset(e)
    requires forall k :: 0 <= k < |e| ==> e[k].0.VStr?
    ensures forall i :: 0 <= i < |s| ==> s[i].0.VStr?
    ensures forall i, j :: 0 <= i < j < |s| ==> KeyText(s[i]) != KeyText(s[j])
  {
    forall i | 0 <= i < |s| ensures s[i].0.VStr? {
      assert s[i] in multiset(e);
      var a :| 0 <= a < |e| && e[a] == s[i];
    }
    forall i, j | 0 <= i < j < |s| ensures KeyText(s[i]) != KeyText(s[j]) {
      PermutationDistinct(e, s, i, j);
      assert s[i] in multiset(e) && s[j] in multiset(e);
      var a :| 0 <= a < |e| && e[a] == s[i];
      var b :| 0 <= b < |e| && e[b] == s[j];
      assert s[i].0.VStr? && s[j].0.VStr?;
      assert s[i].0 == VStr(KeyText(s[i])) && s[j].0 == VStr(KeyText(s[j]));
    }
  }

  /** Two key-sorted sequences with the same entries and distinct keys
      start with the same entry. */
  lemma SortedSameHead(a: seq<(Value, Value)>, b: seq<(Value, Value)>)
    requires SortedByKey(a) && SortedByKey(b)
    requires multiset(a) == multiset(b) && a != []
    requires forall i, j :: 0 <= i < j < |a| ==> KeyText(a[i]) != KeyText(a[j])
    ensures b != [] && a[0] == b[0]
  {
    assert a[0] in multiset(b);
    var j :| 0 <= j < |b| && b[j] == a[0];
    assert b[0] in multiset(a);
    var k :| 0 <= k < |a| && a[k] == b[0];
    if k != 0 {
      assert !StrLess(KeyText(a[k]), KeyText(a[0]));
      StrLessTotal(KeyText(a[0]), KeyText(a[k]));
    }
  }

  /** Two key-sorted sequences with the same entries and distinct keys are equal. */
  lemma {:induction false} SortedUnique(a: seq<(Value, Value)>, b: seq<(Value, Value)>)
    requires SortedByKey(a) && SortedByKey(b)
    requires multiset(a) == multiset(b)
    requires forall i, j :: 0 <= i < j < |a| ==> KeyText(a[i]) != KeyText(a[j])
    ensures a == b
  {
    if a == [] {
      assert |b| == |multiset(b)| == 0;
    } else {
      SortedSameHead(a, b);
      SameTails(a, b);
      SortedTail(a);
      SortedTail(b);
      DistinctTail(a);
      SortedUnique(a[1..], b[1..]);
      assert a == [a[0]] + a[1..] && b == [b[0]] + b[1..];
    }
  }

  /** Equal heads and equal multisets leave equal multisets of the tails. */
  lemma SameTails(a: seq<(Value, Value)>, b: seq<(Value, Value)>)
    requires a != [] && b != [] && a[0] == b[0] && multiset(a) == multiset(b)
    ensures multiset(a[1..]) == multiset(b[1..])
  {
    assert a == [a[0]] + a[1..] && b == [b[0]] + b[1..];
    assert multiset(a) == multiset([a[0]]) + multiset(a[1..]);
    assert multiset(b) == multiset([b[0]]) + multiset(b[1..]);
    assert multiset(a[1..]) == multiset(a) - multiset([a[0]]);
    assert multiset(b[1..]) == multiset(b) - multiset([b[0]]);
  }

  /** The tail of a key-sorted sequence is key-sorted. */
  lemma SortedTail(a: seq<(Value, Value)>)
    requires a != [] && SortedByKey(a)
    ensures SortedByKey(a[1..])
  {
    var t := a[1..];
    forall i, j | 0 <= i < j < |t|
      ensures !StrLess(KeyText(t[j]), KeyText(t[i]))
    {
      assert t[i] == a[i + 1] && t[j] == a[j + 1];
    }
  }

  /** The tail of a sequence with distinct keys has distinct keys. */
  lemma DistinctTail(a: seq<(Value, Value)>)
    requires a != [] && forall i, j :: 0 <= i < j < |a| ==> KeyText(a[i]) != KeyText(a[j])
    ensures forall i, j :: 0 <= i < j < |a[1..]| ==> KeyText(a[1..][i]) != KeyText(a[1..][j])
  {
    var t := a[1..];
    forall i, j | 0 <= i < j < |t|
      ensures KeyText(t[i]) != KeyText(t[j])
    {
      assert t[i] == a[i + 1] && t[j] == a[j + 1];
    }
  }

  /** The pair the canonical form holds for entry p. */
  function PairOf(p: (Value, Value)): Value
  {
    VTuple([p.0, ConvertValue(p.1)])
  }

  /** Every pair of the canonical form comes from an entry of d. */
  lemma CanonicalFormFromEntries(d: Value)
    requires d.VDict?
    ensures CanonicalForm(d).VTuple? && |CanonicalForm(d).items| == |d.entries|
    ensures forall i :: 0 <= i < |CanonicalForm(d).items| ==>
      exists k :: 0 <= k < |d.entries| && CanonicalForm(d).items[i] == PairOf(d.entries[k])
  {
    CanonicalFormSortsFirst(d);
    var s := SortByKey(d.entries);
    var ps := CanonicalForm(d).items;
    forall i | 0 <= i < |ps| ensures exists k :: 0 <= k < |d.entries| && ps[i] == PairOf(d.entries[k]) {
      assert s[i] in multiset(d.entries);
      var k :| 0 <= k < |d.entries| && d.entries[k] == s[i];
      assert ps[i] == PairOf(s[i]);
    }
  }

  /** Every entry of d has its pair in the canonical form. */
  lemma CanonicalFormHasEntries(d: Value)
    requires d.VDict?
    ensures CanonicalForm(d).VTuple?
    ensures forall k :: 0 <= k < |d.entries| ==> PairOf(d.entries[k]) in CanonicalForm(d).items
  {
    CanonicalFormSortsFirst(d);
    forall k | 0 <= k < |d.entries| ensures PairOf(d.entries[k]) in CanonicalForm(d).items {
      PairInSorted(d.entries[k], d.entries);
    }
  }

  lemma PairInSorted(p: (Value, Value), e: seq<(Value, Value)>)
    requires p in e
    ensures PairOf(p) in Pairs(ConvertEach(SortByKey(e)))
  {
    var s := SortByKey(e);
    EntryInPermutation(p, e, s);
    var i :| 0 <= i < |s| && s[i] == p;
    var c := ConvertEach(s);
    assert c[i] == ConvertEntry(s[i]);
    assert Pairs(c)[i] == PairOf(p);
  }

  lemma EntryInPermutation(p: (Value, Value), e: seq<(Value, Value)>, s: seq<(Value, Value)>)
    requires p in e && multiset(s) == multiset(e)
    ensures exists i :: 0 <= i < |s| && s[i] == p
  {
    assert p in multiset(e);
    assert p in s;
  }

  /** The keys of the canonical form of a dict with distinct string keys
      are strings in strictly increasing order. */
  lemma CanonicalFormStrictlySorted(d: Value)
    requires Hashable(d)
    requires DistinctKeys(d.entries)
    ensures CanonicalForm(d).VTuple?
    ensures var ps := CanonicalForm(d).items;
      forall i, j :: 0 <= i < j < |ps| ==>
        ps[i].items[0].VStr? && ps[j].items[0].VStr? && StrLess(ps[i].items[0].s, ps[j].items[0].s)
  {
    CanonicalFormSortsFirst(d);
    var s := SortByKey(d.entries);
    var ps := CanonicalForm(d).items;
    PermutationKeysDistinct(d.entries, s);
    forall i, j | 0 <= i < j < |ps|
      ensures ps[i].items[0].VStr? && ps[j].items[0].VStr? && StrLess(ps[i].items[0].s, ps[j].items[0].s)
    {
      assert ps[i] == PairOf(s[i]) && ps[j] == PairOf(s[j]);
      assert !StrLess(KeyText(s[j]), KeyText(s[i]));
      StrLessTotal(KeyText(s[i]), KeyText(s[j]));
    }
  }

  /** Two dicts that hold the same entries in any insertion order have the
      same canonical form. */
  lemma CanonicalFormOrderIndependent(d1: Value, d2: Value)
    requires d1.VDict? && d2.VDict? && Hashable(d1)
    requires DistinctKeys(d1.entries)
    requires multiset(d1.entries) == multiset(d2.entries)
    ensures CanonicalForm(d1) == CanonicalForm(d2)
  {
    CanonicalFormSortsFirst(d1);
    CanonicalFormSortsFirst(d2);
    PermutationKeysDistinct(d1.entries, SortByKey(d1.entries));
    SortedUnique(SortByKey(d1.entries), SortByKey(d2.entries));
  }

  /** res holds the converted pairs of the first i items. */
  ghost predicate PairsUpTo(res: seq<Value>, items: seq<(Value, Value)>, i: nat)
  {
    && i <= |items| && |res| == i
    && forall k :: 0 <= k < i ==> res[k] == PairOf(items[k])
  }

  lemma PairsExtend(res: seq<Value>, items: seq<(Value, Value)>, i: nat, x: Value)
    requires PairsUpTo(res, items, i) && i < |items| && x == PairOf(items[i])
    ensures PairsUpTo(res + [x], items, i + 1)
  {
  }

  lemma PairsDone(res: seq<Value>, items: seq<(Value, Value)>)
    requires PairsUpTo(res, items, |items|)
    ensures res == Pairs(ConvertEach(items))
  {
    var c := ConvertEach(items);
    forall k | 0 <= k < |res|
      ensures res[k] == Pairs(c)[k]
    {
      assert c[k] == ConvertEntry(items[k]);
    }
  }

  /** The i-th sorted item is an entry of d. */
  lemma SortedEntry(d: Value, items: seq<(Value, Value)>, i: nat) returns (j: nat)
    requires Hashable(d) && items == SortByKey(d.entries) && i < |items|
    ensures j < |d.entries| && d.entries[j] == items[i]
    ensures items[i].1.VDict? ==> Hashable(items[i].1)
  {
    assert items[i] in multiset(d.entries);
    j :| 0 <= j < |d.entries| && d.entries[j] == items[i];
  }

  /** as_hashable(dict_value): sort the items, then append each (key, value)
      pair with a list value turned into a tuple and a dict value turned into
      its own hashable form. */
  method AsHashable(d: Value) returns (r: Value)
    requires Hashable(d)
    ensures r == CanonicalForm(d)
    decreases d
  {
    var items := SortByKey(d.entries);
    var res: seq<Value> := [];
    for i := 0 to |items|
      invariant |res| == i
      invariant PairsUpTo(res, items, i)
    {
      var (key, val) := items[i];
      ghost var want := ConvertValue(items[i].1);
      if val.VList? {
        val := VTuple(val.items);
      } else if val.VDict? {
        ghost var j := SortedEntry(d, items, i);
        val := AsHashable(val);
      }
      assert val == want;
      PairsExtend(res, items, i, VTuple([key, val]));
      res := res + [VTuple([key, val])];
    }
    CanonicalFormSortsFirst(d);
    PairsDone(res, items);
    r := VTuple(res);
  }
}
