/** _to_checksum and to_checksums: each entry of the checksums parameter is
    None, a SHA256 string, a (type, value) pair, a group of alternative or
    jointly required checksums, or a dict from file name to checksum. Pairs
    are turned into tuples where they cannot be a group of two checksums. */
module ChecksumEntries {
  import opened Values

  /** `len(checksum) == 2 and isinstance(checksum[0], str) and
      isinstance(checksum[1], (str, int))`; a bool is an int here. */
  predicate IsChecksumPair(xs: seq<Value>)
  {
    |xs| == 2 && IsInstance(xs[0], Str) && (IsInstance(xs[1], Str) || IsInstance(xs[1], Int))
  }

  /** `any(x is None for x in checksum)`. */
  predicate HasNone(xs: seq<Value>)
  {
    exists i :: 0 <= i < |xs| && xs[i].VNone?
  }

  /** A comprehension over outcomes: all values, or the first error. */
  function Collect(rs: seq<Outcome<Value>>): (r: Outcome<seq<Value>>)
    ensures r.Ok? <==> forall i :: 0 <= i < |rs| ==> rs[i].Ok?
    ensures r.Ok? ==> |r.value| == |rs| && forall i :: 0 <= i < |rs| ==> r.value[i] == rs[i].value
    ensures r.Fail? ==> exists i :: 0 <= i < |rs| && rs[i] == Fail(r.error)
  {
    if rs == [] then Ok([])
    else
      var y :- rs[0];
      var ys :- Collect(rs[1..]);
      assert forall i :: 1 <= i < |rs| ==> rs[1..][i - 1] == rs[i];
      Ok([y] + ys)
  }

  /** The outer shape is kept: None and strings are returned as they are,
      a list or tuple stays a list or tuple of the same length, and a dict
      stays a dict with the same keys in the same order. */
  predicate SameShape(c: Value, r: Value)
  {
    && (c.VNone? || c.VStr? ==> r == c)
    && (c.VList? || c.VTuple? ==> (r.VList? || r.VTuple?) && |r.items| == |c.items|)
    && (c.VDict? ==> r.VDict? && Keys(r.entries) == Keys(c.entries))
  }

  /** _to_checksum(checksum, list_level, allow_dict). Every error it raises
      is a ValueError. */
  function ToChecksum(c: Value, level: nat, allowDict: bool): (r: Outcome<Value>)
    ensures r.Fail? ==> r.error == BadChecksum
    ensures r.Ok? ==> SameShape(c, r.value)
    decreases c
  {
    match c
    case VNone => Ok(c)
    case VStr(_) => Ok(c)
    case VList(xs) =>
      if IsChecksumPair(xs) then
        if !IsInstance(xs[1], Str) || level > 0 then Ok(VTuple(xs)) else Ok(c)
      else if level < 2 && !HasNone(xs) then
        if level > 0 then
          var ys :- Collect(seq(|xs|, i requires 0 <= i < |xs| => ToChecksum(xs[i], 99, allowDict)));
          Ok(VTuple(ys))
        else
          var ys :- Collect(seq(|xs|, i requires 0 <= i < |xs| => ToChecksum(xs[i], level + 1, allowDict)));
          Ok(VList(ys))
      else Fail(BadChecksum)
    case VTuple(xs) =>
      if IsChecksumPair(xs) then Ok(VTuple(xs))
      else if level < 2 && !HasNone(xs) then
        var ys :- Collect(seq(|xs|, i requires 0 <= i < |xs| => ToChecksum(xs[i], 99, allowDict)));
        Ok(VTuple(ys))
      else Fail(BadChecksum)
    case VDict(e) =>
      if allowDict then
        var vs :- Collect(seq(|e|, i requires 0 <= i < |e| => ToChecksum(e[i].1, 0, false)));
        Ok(VDict(seq(|e|, i requires 0 <= i < |e| => (e[i].0, vs[i]))))
      else Fail(BadChecksum)
    case _ => Fail(BadChecksum)
  }

  /** to_checksums(checksums): every entry at list level 0 with dicts
      allowed; a ValueError becomes one "Invalid checksums" error, and a
      value that cannot be iterated raises a TypeError. */
  function ToChecksums(checksums: Value): (r: Outcome<Value>)
    ensures Iterate(checksums).None? ==> r == Fail(NotIterable)
    ensures Iterate(checksums).Some? ==>
      var xs := Iterate(checksums).value;
      && (r.Ok? <==> forall i :: 0 <= i < |xs| ==> ToChecksum(xs[i], 0, true).Ok?)
      && (r.Ok? ==> (r.value.VList? && |r.value.items| == |xs|))
      && (r.Ok? ==> forall i :: 0 <= i < |xs| ==> r.value.items[i] == ToChecksum(xs[i], 0, true).value)
      && (r.Fail? ==> r.error == InvalidChecksums(BadChecksum))
  {
    match Iterate(checksums)
    case None => Fail(NotIterable)
    case Some(xs) =>
      var rs := seq(|xs|, i requires 0 <= i < |xs| => ToChecksum(xs[i], 0, true));
      assert forall i :: 0 <= i < |xs| ==> rs[i] == ToChecksum(xs[i], 0, true);
      match Collect(rs)
      case Fail(e) => Fail(InvalidChecksums(e))
      case Ok(ys) => Ok(VList(ys))
  }

  /** Collect of outcomes that are all Ok. */
  lemma CollectOk(rs: seq<Outcome<Value>>, ys: seq<Value>)
    requires |rs| == |ys| && forall i :: 0 <= i < |rs| ==> rs[i] == Ok(ys[i])
    ensures Collect(rs) == Ok(ys)
  {
    assert Collect(rs).value == ys;
  }

  /** A two-element (str, str or int) sequence is the checksum pair: it
      becomes a tuple exactly when its value is not a string or it sits
      inside a group; a list (type, str value) at the top is left as a list
      of two checksums. */
  lemma PairRule(c: Value, level: nat, allowDict: bool)
    requires (c.VList? || c.VTuple?) && IsChecksumPair(c.items)
    ensures ToChecksum(c, level, allowDict) ==
      Ok(if !c.items[1].VStr? || level > 0 then VTuple(c.items) else c)
  {
  }

  /** A group (a sequence that is not a pair) at list level 0 or 1 with a
      None in it raises. */
  lemma NoneInGroup(c: Value, level: nat, allowDict: bool, i: nat)
    requires (c.VList? || c.VTuple?) && !IsChecksumPair(c.items)
    requires i < |c.items| && c.items[i].VNone?
    ensures ToChecksum(c, level, allowDict) == Fail(BadChecksum)
  {
  }

  /** From list level 2 on (99 is what a tuple passes to its elements) no
      group is accepted: only None, a string, a pair, or, when allowed, a
      dict whose values all convert. */
  lemma DeepLevel(c: Value, level: nat, allowDict: bool)
    requires level >= 2
    ensures ToChecksum(c, level, allowDict).Ok? <==>
      || c.VNone? || c.VStr?
      || ((c.VList? || c.VTuple?) && IsChecksumPair(c.items))
      || (c.VDict? && allowDict && forall i :: 0 <= i < |c.entries| ==> ToChecksum(c.entries[i].1, 0, false).Ok?)
  {
    if c.VDict? && allowDict {
      var e := c.entries;
      var rs := seq(|e|, i requires 0 <= i < |e| => ToChecksum(e[i].1, 0, false));
      assert forall i :: 0 <= i < |e| ==> rs[i] == ToChecksum(e[i].1, 0, false);
    }
  }

  /** Inside a tuple group, or a list group inside a list, any element that
      is itself a group makes the whole entry raise. */
  lemma NoGroupInTuple(c: Value, level: nat, allowDict: bool, i: nat)
    requires (c.VTuple? || (c.VList? && level == 1)) && !IsChecksumPair(c.items) && level < 2
    requires i < |c.items| && (c.items[i].VList? || c.items[i].VTuple?) && !IsChecksumPair(c.items[i].items)
    ensures ToChecksum(c, level, allowDict) == Fail(BadChecksum)
  {
    var xs := c.items;
    var rs := seq(|xs|, j requires 0 <= j < |xs| => ToChecksum(xs[j], 99, allowDict));
    assert rs[i] == ToChecksum(xs[i], 99, allowDict);
    assert rs[i].Fail?;
  }

  /** A dict is accepted only where dicts are allowed, so a dict as the
      value in a dict raises. */
  lemma NoDictInDict(c: Value, level: nat, i: nat)
    requires c.VDict? && i < |c.entries| && c.entries[i].1.VDict?
    ensures ToChecksum(c, level, true) == Fail(BadChecksum)
    ensures ToChecksum(c.entries[i].1, level, false) == Fail(BadChecksum)
  {
    var e := c.entries;
    var rs := seq(|e|, j requires 0 <= j < |e| => ToChecksum(e[j].1, 0, false));
    assert rs[i] == ToChecksum(e[i].1, 0, false);
    assert rs[i].Fail?;
  }

  /** Converting an already converted checksum changes nothing. */
  lemma {:induction false} Idempotent(c: Value, level: nat, allowDict: bool)
    requires ToChecksum(c, level, allowDict).Ok?
    ensures ToChecksum(ToChecksum(c, level, allowDict).value, level, allowDict) == ToChecksum(c, level, allowDict)
    decreases c
  {
    var r := ToChecksum(c, level, allowDict).value;
    match c
    case VNone =>
    case VStr(_) =>
    case VList(xs) =>
      if !IsChecksumPair(xs) {
        var inner := if level > 0 then 99 else level + 1;
        GroupIdempotent(c, xs, inner, allowDict);
      }
    case VTuple(xs) =>
      if !IsChecksumPair(xs) {
        GroupIdempotent(c, xs, 99, allowDict);
      }
    case VDict(e) =>
      DictIdempotent(c, level, allowDict);
  }

  /** The values of a converted dict convert to themselves. */
  lemma {:induction false} DictIdempotent(c: Value, level: nat, allowDict: bool)
    requires c.VDict? && ToChecksum(c, level, allowDict).Ok?
    ensures ToChecksum(ToChecksum(c, level, allowDict).value, level, allowDict) == ToChecksum(c, level, allowDict)
    decreases c, 0
  {
    var e := c.entries;
    var r := ToChecksum(c, level, allowDict).value;
    var rs := seq(|e|, i requires 0 <= i < |e| => ToChecksum(e[i].1, 0, false));
    var vs := Collect(rs).value;
    var e2 := r.entries;
    assert |e2| == |e| && forall i :: 0 <= i < |e| ==> e2[i] == (e[i].0, vs[i]);
    forall i | 0 <= i < |e|
      ensures ToChecksum(e2[i].1, 0, false) == Ok(vs[i])
    {
      assert rs[i] == ToChecksum(e[i].1, 0, false);
      assert e[i].1 < c;
      Idempotent(e[i].1, 0, false);
    }
    var rs2 := seq(|e2|, i requires 0 <= i < |e2| => ToChecksum(e2[i].1, 0, false));
    CollectOk(rs2, vs);
    assert seq(|e2|, i requires 0 <= i < |e2| => (e2[i].0, vs[i])) == e2;
  }

  /** The elements of a converted group convert to themselves at the same
      level, and the group is still a group without None. */
  lemma {:induction false} GroupIdempotent(c: Value, xs: seq<Value>, inner: nat, allowDict: bool)
    requires (c.VList? || c.VTuple?) && c.items == xs
    requires Collect(seq(|xs|, i requires 0 <= i < |xs| => ToChecksum(xs[i], inner, allowDict))).Ok?
    ensures var ys := Collect(seq(|xs|, i requires 0 <= i < |xs| => ToChecksum(xs[i], inner, allowDict))).value;
      && Collect(seq(|ys|, i requires 0 <= i < |ys| => ToChecksum(ys[i], inner, allowDict))) == Ok(ys)
      && (!IsChecksumPair(xs) && !HasNone(xs) ==> !IsChecksumPair(ys) && !HasNone(ys))
    decreases c, 0
  {
    var rs := seq(|xs|, i requires 0 <= i < |xs| => ToChecksum(xs[i], inner, allowDict));
    var ys := Collect(rs).value;
    forall i | 0 <= i < |xs|
      ensures ToChecksum(ys[i], inner, allowDict) == Ok(ys[i])
      ensures SameShape(xs[i], ys[i])
    {
      assert rs[i] == ToChecksum(xs[i], inner, allowDict);
      assert xs[i] < c;
      Idempotent(xs[i], inner, allowDict);
    }
    CollectOk(seq(|ys|, i requires 0 <= i < |ys| => ToChecksum(ys[i], inner, allowDict)), ys);
  }

  /** to_checksums applied to its own result changes nothing. */
  lemma ToChecksumsIdempotent(checksums: Value)
    requires ToChecksums(checksums).Ok?
    ensures ToChecksums(ToChecksums(checksums).value) == ToChecksums(checksums)
  {
    var xs := Iterate(checksums).value;
    var ys := ToChecksums(checksums).value.items;
    forall i | 0 <= i < |ys|
      ensures ToChecksum(ys[i], 0, true) == Ok(ys[i])
    {
      Idempotent(xs[i], 0, true);
    }
    CollectOk(seq(|ys|, i requires 0 <= i < |ys| => ToChecksum(ys[i], 0, true)), ys);
  }

  /** A pair nested three lists deep: the outer list stays a list, the
      middle list, at list level 1, becomes a tuple, and the pair inside it,
      at level 99, becomes a tuple too. */
  lemma NestedGroupExample(t: string, v: string)
    ensures ToChecksum(VList([VList([VList([VStr(t), VStr(v)])])]), 0, true) ==
      Ok(VList([VTuple([VTuple([VStr(t), VStr(v)])])]))
  {
    var pair := VList([VStr(t), VStr(v)]);
    var inner := VTuple([VStr(t), VStr(v)]);
    PairRule(pair, 99, true);
    SingletonGroup(pair, 1, true, inner);
    SingletonGroup(VList([pair]), 0, true, VTuple([inner]));
  }

  /** A one-element list is a group, never a pair: below list level 2 its
      element is converted one level deeper; at level 1 the group becomes a
      tuple. */
  lemma SingletonGroup(x: Value, level: nat, allowDict: bool, y: Value)
    requires level < 2 && !x.VNone?
    requires ToChecksum(x, if level > 0 then 99 else level + 1, allowDict) == Ok(y)
    ensures ToChecksum(VList([x]), level, allowDict) == Ok(if level > 0 then VTuple([y]) else VList([y]))
  {
    var inner := if level > 0 then 99 else level + 1;
    assert !HasNone([x]);
    assert seq(1, i requires 0 <= i < 1 => ToChecksum([x][i], inner, allowDict)) == [ToChecksum(x, inner, allowDict)];
    CollectOk([ToChecksum(x, inner, allowDict)], [y]);
  }
}
