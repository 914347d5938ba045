/** The Python string builtins the normalisers call: str.split, str.strip,
    str.lower and str(). */
module Text {
  import opened Values

  /** The characters for which Python's str.isspace() holds; str.strip()
      with no argument removes exactly these from both ends. */
  predicate IsSpace(c: char)
  {
    || ('\t' <= c <= '\r')
    || ('\U{1C}' <= c <= '\U{1F}')
    || c == ' ' || c == '\U{85}' || c == '\U{A0}' || c == '\U{1680}'
    || ('\U{2000}' <= c <= '\U{200A}')
    || c == '\U{2028}' || c == '\U{2029}' || c == '\U{202F}' || c == '\U{205F}' || c == '\U{3000}'
  }

  /** s.lstrip(): the suffix of s left after its leading whitespace. */
  function StripLeft(s: string): (r: string)
    ensures |r| <= |s| && r == s[|s| - |r|..]
    ensures forall i :: 0 <= i < |s| - |r| ==> IsSpace(s[i])
    ensures r != [] ==> !IsSpace(r[0])
  {
    if s != [] && IsSpace(s[0]) then StripLeft(s[1..]) else s
  }

  /** s.rstrip(): the prefix of s left before its trailing whitespace. */
  function StripRight(s: string): (r: string)
    ensures |r| <= |s| && r == s[..|r|]
    ensures forall i :: |r| <= i < |s| ==> IsSpace(s[i])
    ensures r != [] ==> !IsSpace(r[|r| - 1])
  {
    if s != [] && IsSpace(s[|s| - 1]) then StripRight(s[..|s| - 1]) else s
  }

  /** s.strip() */
  function Strip(s: string): string
  {
    StripRight(StripLeft(s))
  }

  /** s.lower(), on ASCII letters. Every other character is kept: the only
      use of lower() here compares against ASCII words, and no non-ASCII
      character lower-cases to one of their letters. */
  function Lower(s: string): string
  {
    seq(|s|, i requires 0 <= i < |s| => if 'A' <= s[i] <= 'Z' then (s[i] as int + 32) as char else s[i])
  }

  /** sep.join(parts) */
  function Join(parts: seq<string>, sep: char): string
    requires |parts| >= 1
  {
    if |parts| == 1 then parts[0] else parts[0] + [sep] + Join(parts[1..], sep)
  }

  /** s.split(sep) for a one-character separator: cutting s at each
      occurrence of sep gives one part more than there are separators, no
      part holds sep, and joining the parts with sep gives s back. */
  function Split(s: string, sep: char): (parts: seq<string>)
    ensures SplitOf(s, sep, parts)
  {
    CutLaws(s, sep);
    Cut(s, sep)
  }

  /** What Split promises of the parts of s. */
  predicate SplitOf(s: string, sep: char, parts: seq<string>)
  {
    && |parts| == multiset(s)[sep] + 1
    && (forall i :: 0 <= i < |parts| ==> sep !in parts[i])
    && Join(parts, sep) == s
  }

  /** The walk behind Split, without its contract. */
  function Cut(s: string, sep: char): (parts: seq<string>)
    ensures |parts| >= 1
  {
    if s == [] then [""]
    else
      var rest := Cut(s[1..], sep);
      if s[0] == sep then [""] + rest else [[s[0]] + rest[0]] + rest[1..]
  }

  lemma {:induction false} CutLaws(s: string, sep: char)
    ensures SplitOf(s, sep, Cut(s, sep))
  {
    if s != [] {
      CutLaws(s[1..], sep);
      assert s == [s[0]] + s[1..];
      if s[0] == sep {
        CutAtSeparator(s[1..], sep, Cut(s[1..], sep));
      } else {
        CutAtOther(s[0], s[1..], sep, Cut(s[1..], sep));
      }
    }
  }

  lemma CutAtSeparator(t: string, sep: char, rest: seq<string>)
    requires SplitOf(t, sep, rest)
    ensures SplitOf([sep] + t, sep, [""] + rest)
  {
    var parts := [""] + rest;
    assert parts[1..] == rest;
    assert multiset([sep] + t) == multiset([sep]) + multiset(t);
  }

  lemma CutAtOther(c: char, t: string, sep: char, rest: seq<string>)
    requires c != sep && SplitOf(t, sep, rest)
    ensures SplitOf([c] + t, sep, [[c] + rest[0]] + rest[1..])
  {
    var parts := [[c] + rest[0]] + rest[1..];
    assert multiset([c] + t) == multiset([c]) + multiset(t);
    forall i | 0 <= i < |parts|
      ensures sep !in parts[i]
    {
      if i > 0 {
        assert parts[i] == rest[i];
      }
    }
    JoinFront(c, rest, sep);
  }

  /** Putting a character in front of the first part puts it in front of
      the joined string. */
  lemma JoinFront(c: char, rest: seq<string>, sep: char)
    requires |rest| >= 1
    ensures Join([[c] + rest[0]] + rest[1..], sep) == [c] + Join(rest, sep)
  {
    var parts := [[c] + rest[0]] + rest[1..];
    if |rest| > 1 {
      assert parts[1..] == rest[1..];
    }
  }

  /** Decimal digits of a natural number. */
  function NatToString(n: nat): string
  {
    var d := ['0' + (n % 10) as char];
    if n < 10 then d else NatToString(n / 10) + d
  }

  /** str() of an int. */
  function IntToString(i: int): string
  {
    if i < 0 then "-" + NatToString(-i) else NatToString(i)
  }

  /** str(v): a string is its own text, any other value prints as its repr. */
  function Str(v: Value): (r: string)
    ensures v.VStr? ==> r == v.s
  {
    if v.VStr? then v.s else Repr(v)
  }

  /** repr(v). Strings are quoted with single quotes and are not escaped. */
  function Repr(v: Value): string
    decreases v, 1
  {
    match v
    case VNone => "None"
    case VBool(b) => if b then "True" else "False"
    case VInt(i) => IntToString(i)
    case VStr(s) => "'" + s + "'"
    case VList(xs) => "[" + ReprItems(xs) + "]"
    case VTuple(xs) => "(" + ReprItems(xs) + (if |xs| == 1 then "," else "") + ")"
    case VDict(e) => "{" + ReprEntries(v, 0) + "}"
  }

  function ReprItems(xs: seq<Value>): string
  {
    if xs == [] then ""
    else if |xs| == 1 then Repr(xs[0])
    else Repr(xs[0]) + ", " + ReprItems(xs[1..])
  }

  /** The items of dict d from position i on. */
  function ReprEntries(d: Value, i: nat): string
    requires d.VDict? && i <= |d.entries|
    decreases d, 0, |d.entries| - i
  {
    if i == |d.entries| then ""
    else
      var item := Repr(d.entries[i].0) + ": " + Repr(d.entries[i].1);
      if i + 1 == |d.entries| then item else item + ", " + ReprEntries(d, i + 1)
  }
}
