/** String helpers with Python's meaning: `sep.join(parts)` and `sub in s`. */
module Text {

  /** `sep.join(parts)`: the parts in order with `sep` between neighbours. */
  function Join(parts: seq<string>, sep: string): string
  {
    if |parts| == 0 then ""
    else if |parts| == 1 then parts[0]
    else parts[0] + sep + Join(parts[1..], sep)
  }

  /** Where part `i` begins in `Join(parts, sep)`: the lengths of the parts
      before it, each followed by one separator. */
  function Offset(parts: seq<string>, sep: string, i: nat): nat
    requires i <= |parts|
  {
    if i == 0 then 0 else |parts[0]| + |sep| + Offset(parts[1..], sep, i - 1)
  }

  /** A slice of the right operand of a concatenation, seen through the
      concatenation. */
  lemma SliceRight(a: string, b: string, lo: nat, hi: nat)
    requires lo <= hi <= |b|
    ensures (a + b)[|a| + lo..|a| + hi] == b[lo..hi]
  {
  }

  /** A slice of the left operand of a concatenation, seen through the
      concatenation. */
  lemma SliceLeft(a: string, b: string, lo: nat, hi: nat)
    requires lo <= hi <= |a|
    ensures (a + b)[lo..hi] == a[lo..hi]
  {
  }

  /** Part `i` sits verbatim at `Offset(parts, sep, i)`. */
  lemma {:induction false} JoinPartAt(parts: seq<string>, sep: string, i: nat)
    requires i < |parts|
    ensures Offset(parts, sep, i) + |parts[i]| <= |Join(parts, sep)|
    ensures Join(parts, sep)[Offset(parts, sep, i)..Offset(parts, sep, i) + |parts[i]|] == parts[i]
  {
    if |parts| == 1 {
    } else if i == 0 {
      assert Join(parts, sep) == parts[0] + (sep + Join(parts[1..], sep));
    } else {
      var rest := Join(parts[1..], sep);
      var head := parts[0] + sep;
      assert Join(parts, sep) == head + rest;
      assert parts[1..][i - 1] == parts[i];
      JoinPartAt(parts[1..], sep, i - 1);
      var o := Offset(parts[1..], sep, i - 1);
      SliceRight(head, rest, o, o + |parts[i]|);
    }
  }

  /** Unless part `i` is the last one, one separator follows it. */
  lemma {:induction false} JoinSeparatorAfter(parts: seq<string>, sep: string, i: nat)
    requires i + 1 < |parts|
    ensures Offset(parts, sep, i) + |parts[i]| + |sep| <= |Join(parts, sep)|
    ensures Join(parts, sep)[Offset(parts, sep, i) + |parts[i]|..Offset(parts, sep, i) + |parts[i]| + |sep|] == sep
  {
    if i == 0 {
      assert Join(parts, sep) == (parts[0] + sep) + Join(parts[1..], sep);
      assert (parts[0] + sep)[|parts[0]|..] == sep;
    } else {
      var rest := Join(parts[1..], sep);
      var head := parts[0] + sep;
      assert Join(parts, sep) == head + rest;
      assert parts[1..][i - 1] == parts[i];
      JoinSeparatorAfter(parts[1..], sep, i - 1);
      var o := Offset(parts[1..], sep, i - 1) + |parts[i]|;
      SliceRight(head, rest, o, o + |sep|);
    }
  }

  /** The join ends where its last part ends: nothing follows the last part. */
  lemma {:induction false} JoinLength(parts: seq<string>, sep: string)
    requires |parts| > 0
    ensures |Join(parts, sep)| == Offset(parts, sep, |parts| - 1) + |parts[|parts| - 1]|
  {
    if |parts| > 1 {
      var last := |parts| - 1;
      JoinLength(parts[1..], sep);
      assert parts[1..][last - 1] == parts[last];
      assert Offset(parts, sep, last) == |parts[0]| + |sep| + Offset(parts[1..], sep, last - 1);
      assert |Join(parts, sep)| == |parts[0]| + |sep| + |Join(parts[1..], sep)|;
    }
  }

  /** `sub` occurs in `s` starting at position `i`. */
  predicate OccursAt(s: string, sub: string, i: nat)
  {
    i + |sub| <= |s| && s[i..i + |sub|] == sub
  }

  /** Python's `sub in s` for `str`, searching from position `i`. */
  function ContainsFrom(s: string, sub: string, i: nat): (b: bool)
    ensures b <==> exists j :: i <= j && OccursAt(s, sub, j)
    decreases |s| - i
  {
    if i + |sub| > |s| then false
    else OccursAt(s, sub, i) || ContainsFrom(s, sub, i + 1)
  }

  /** Python's `sub in s` for `str`. */
  function Contains(s: string, sub: string): (b: bool)
    ensures b <==> exists j :: OccursAt(s, sub, j)
  {
    ContainsFrom(s, sub, 0)
  }

  /** `s.startswith(p)`. */
  predicate StartsWith(s: string, p: string)
  {
    |p| <= |s| && s[..|p|] == p
  }

  /** `s.endswith(x)`. */
  predicate EndsWith(s: string, x: string)
  {
    |x| <= |s| && s[|s| - |x|..] == x
  }
}
