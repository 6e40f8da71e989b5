/** String primitives the classifiers are built from: Python's `str.lower()`
    restricted to ASCII, the substring test behind Python's `sub in s`, and
    `sep.join(parts)`. */
module Text {

  datatype Option<T> = None | Some(value: T)

  predicate IsUpper(c: char) { 'A' <= c <= 'Z' }

  /** Lower-cases an ASCII capital; every other character is unchanged. */
  function LowerChar(c: char): (d: char)
    ensures !IsUpper(d)
    ensures IsUpper(c) ==> 'a' <= d <= 'z' && d as int - 'a' as int == c as int - 'A' as int
    ensures !IsUpper(c) ==> d == c
  {
    if IsUpper(c) then (c as int - 'A' as int + 'a' as int) as char else c
  }

  /** `s.lower()` on ASCII text: the same length, character by character. */
  function Lower(s: string): (r: string)
    ensures |r| == |s|
    ensures forall i | 0 <= i < |s| :: r[i] == LowerChar(s[i])
    ensures forall i | 0 <= i < |r| :: !IsUpper(r[i])
  {
    if s == [] then [] else [LowerChar(s[0])] + Lower(s[1..])
  }

  /** Python's `sub in s`: `sub` occurs in `s` at some offset. */
  predicate Contains(s: string, sub: string)
  {
    exists i | 0 <= i <= |s| :: sub <= s[i..]
  }

  /** An occurrence in the right part is an occurrence in the whole. */
  lemma ContainsRight(a: string, b: string, sub: string)
    requires Contains(b, sub)
    ensures Contains(a + b, sub)
  {
    var i :| 0 <= i <= |b| && sub <= b[i..];
    assert (a + b)[|a| + i..] == b[i..];
  }

  /** An occurrence survives lower-casing: the keyword tests run on
      lower-cased text, so they find a keyword written in any case. */
  lemma ContainsLower(s: string, sub: string)
    requires Contains(s, sub)
    ensures Contains(Lower(s), Lower(sub))
  {
    var i :| 0 <= i <= |s| && sub <= s[i..];
    assert Lower(sub) <= Lower(s)[i..] by {
      forall k | 0 <= k < |sub|
        ensures Lower(sub)[k] == Lower(s)[i..][k]
      {
        assert sub[k] == s[i + k];
      }
    }
  }

  /** `sep.join(parts)`. */
  function Join(parts: seq<string>, sep: string): (r: string)
    ensures |parts| > 0 ==> parts[0] <= r
    ensures forall k | 0 <= k < |parts| :: Contains(r, parts[k])
  {
    if |parts| == 0 then ""
    else if |parts| == 1 then
      assert parts[0] <= parts[0][0..];
      parts[0]
    else
      var rest := Join(parts[1..], sep);
      var r := parts[0] + sep + rest;
      assert parts[0] <= r[0..];
      assert forall k | 1 <= k < |parts| :: Contains(r, parts[k]) by {
        forall k | 1 <= k < |parts| ensures Contains(r, parts[k]) {
          assert parts[1..][k - 1] == parts[k];
          ContainsRight(parts[0] + sep, rest, parts[k]);
        }
      }
      r
  }
}
