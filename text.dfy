/** ASCII case mapping and substring search: the two string primitives the
    fallback rule set relies on (`String.prototype.toLowerCase` restricted to
    ASCII, and `String.prototype.includes`). */
module Text {

  predicate IsUpper(c: char) { 'A' <= c <= 'Z' }

  predicate IsLower(c: char) { 'a' <= c <= 'z' }

  /** Lower-cases one ASCII letter; every other character is left as it is. */
  function LowerChar(c: char): (d: char)
    ensures !IsUpper(d)
    ensures IsUpper(c) ==> IsLower(d) && d as int - c as int == 'a' as int - 'A' as int
    ensures !IsUpper(c) ==> d == c
  {
    if IsUpper(c) then (c as int - 'A' as int + 'a' as int) as char else c
  }

  /** Upper-cases one ASCII letter; every other character is left as it is. */
  function UpperChar(c: char): (d: char)
    ensures !IsLower(d)
    ensures IsLower(c) ==> IsUpper(d) && c as int - d as int == 'a' as int - 'A' as int
    ensures !IsLower(c) ==> d == c
  {
    if IsLower(c) then (c as int - 'a' as int + 'A' as int) as char else c
  }

  /** `s.toLowerCase()` on ASCII text: same length, each character lowered. */
  function Lower(s: string): (r: string)
    ensures |r| == |s|
    ensures forall i :: 0 <= i < |s| ==> r[i] == LowerChar(s[i])
  {
    if s == [] then [] else [LowerChar(s[0])] + Lower(s[1..])
  }

  /** `s.toUpperCase()` on ASCII text. */
  function Upper(s: string): (r: string)
    ensures |r| == |s|
    ensures forall i :: 0 <= i < |s| ==> r[i] == UpperChar(s[i])
  {
    if s == [] then [] else [UpperChar(s[0])] + Upper(s[1..])
  }

  /** No character of `s` is an upper-case ASCII letter. */
  predicate AllLower(s: string) {
    forall i :: 0 <= i < |s| ==> !IsUpper(s[i])
  }

  /** Two strings that differ at most in the ASCII case of their letters. */
  predicate SameUpToCase(a: string, b: string) {
    |a| == |b| && forall i :: 0 <= i < |a| ==> LowerChar(a[i]) == LowerChar(b[i])
  }

  /** `key` occurs in `s` starting at index `i`. */
  predicate OccursAt(s: string, key: string, i: nat) {
    i + |key| <= |s| && s[i..i + |key|] == key
  }

  /** `s.includes(key)`: some index of `s` starts an occurrence of `key`. */
  function Includes(s: string, key: string): (b: bool)
    ensures b <==> exists i: nat :: OccursAt(s, key, i)
  {
    if |s| < |key| then false
    else if s[..|key|] == key then (assert OccursAt(s, key, 0); true)
    else
      var rest := Includes(s[1..], key);
      ShiftOccurrence(s, key);
      rest
  }

  /** An occurrence in `s[1..]` at `i` is one in `s` at `i + 1`, and every
      occurrence in `s` other than at 0 arises this way. */
  lemma ShiftOccurrence(s: string, key: string)
    requires |s| >= |key| && s[..|key|] != key
    ensures (exists i: nat :: OccursAt(s, key, i)) <==> (exists i: nat :: OccursAt(s[1..], key, i))
  {
    if i: nat :| OccursAt(s, key, i) {
      assert i != 0;
      assert s[1..][i - 1..i - 1 + |key|] == s[i..i + |key|];
      assert OccursAt(s[1..], key, i - 1);
    }
    if i: nat :| OccursAt(s[1..], key, i) {
      assert s[1..][i..i + |key|] == s[i + 1..i + 1 + |key|];
      assert OccursAt(s, key, i + 1);
    }
  }

  /** Lowering leaves no upper-case letter. */
  lemma LowerIsAllLower(s: string)
    ensures AllLower(Lower(s))
  {
  }

  /** A string without upper-case letters is its own lowering. */
  lemma AllLowerFixed(s: string)
    requires AllLower(s)
    ensures Lower(s) == s
  {
  }

  /** Strings equal up to case have the same lowering. */
  lemma SameUpToCaseLower(a: string, b: string)
    requires SameUpToCase(a, b)
    ensures Lower(a) == Lower(b)
  {
  }

  /** Upper-casing keeps a string equal up to case. */
  lemma UpperSameUpToCase(s: string)
    ensures SameUpToCase(Upper(s), s)
  {
  }

  /** A lower-case key found in `s` in any case is found in `Lower(s)` as is. */
  lemma LowerOccurrence(s: string, key: string, i: nat)
    requires AllLower(key)
    requires i + |key| <= |s| && SameUpToCase(s[i..i + |key|], key)
    ensures OccursAt(Lower(s), key, i)
    ensures Includes(Lower(s), key)
  {
    var ls := Lower(s);
    var w := ls[i..i + |key|];
    forall k | 0 <= k < |key| ensures w[k] == key[k] {
      assert w[k] == LowerChar(s[i + k]);
      assert s[i..i + |key|][k] == s[i + k];
      assert LowerChar(key[k]) == key[k];
    }
    assert w == key;
    assert OccursAt(ls, key, i);
  }
}
