/** Character classes and string helpers shared by the components: `\d`, the
    line terminators that `.` in a regular expression does not match,
    `String.prototype.toLowerCase` and `String.prototype.includes`. */
module Text {

  /** `\d` in a JavaScript regular expression: ASCII digits only. */
  predicate IsDigit(c: char) {
    '0' <= c <= '9'
  }

  /** The characters that `.` does not match (section 22.2.2.9 of ECMA-262). */
  predicate IsLineTerminator(c: char) {
    c == '\n' || c == '\r' || c == '\U{2028}' || c == '\U{2029}'
  }

  /** Lower-casing of one character, for the ASCII letters. */
  function Lower(c: char): (r: char)
    ensures 'A' <= c <= 'Z' ==> 'a' <= r <= 'z' && r as int == c as int + 32
    ensures !('A' <= c <= 'Z') ==> r == c
  {
    if 'A' <= c <= 'Z' then (c as int + 32) as char else c
  }

  /** `s.toLowerCase()`, for ASCII letters. */
  function ToLower(s: string): (r: string)
    ensures |r| == |s|
  {
    seq(|s|, i requires 0 <= i < |s| => Lower(s[i]))
  }

  /** `sub` occurs in `s` starting at position `i`. */
  predicate OccursAt(s: string, sub: string, i: int) {
    0 <= i && i + |sub| <= |s| && s[i..i + |sub|] == sub
  }

  /** `s.includes(sub)`: `sub` occurs in `s` at some position. */
  predicate Contains(s: string, sub: string) {
    exists i | 0 <= i <= |s| - |sub| :: OccursAt(s, sub, i)
  }

  /** A witness position makes `Contains` true. */
  lemma ContainsAt(s: string, sub: string, i: nat)
    requires OccursAt(s, sub, i)
    ensures Contains(s, sub)
  {
  }

  /** A string occurs in any string that it is a piece of. */
  lemma {:induction false} ContainsInConcat(a: string, sub: string, b: string)
    ensures Contains(a + sub + b, sub)
  {
    var s := a + sub + b;
    assert s[|a|..|a| + |sub|] == sub;
    ContainsAt(s, sub, |a|);
  }

  /** `s.includes(words[0]) || s.includes(words[1]) || ...`. */
  function ContainsAny(s: string, words: seq<string>): (r: bool)
    ensures r <==> exists j | 0 <= j < |words| :: Contains(s, words[j])
  {
    if |words| == 0 then false
    else Contains(s, words[0]) || ContainsAny(s, words[1..])
  }

  /** Whatever contains a string also contains each of its prefixes. */
  lemma ContainsPrefix(s: string, pre: string, rest: string)
    requires Contains(s, pre + rest)
    ensures Contains(s, pre)
  {
    var i :| 0 <= i <= |s| - |pre + rest| && OccursAt(s, pre + rest, i);
    assert s[i..i + |pre|] == (pre + rest)[..|pre|] == pre;
    ContainsAt(s, pre, i);
  }

  /** `includes` over a list of words made of two lists. */
  lemma ContainsAnyAppend(s: string, a: seq<string>, b: seq<string>)
    ensures ContainsAny(s, a + b) <==> ContainsAny(s, a) || ContainsAny(s, b)
  {
    if ContainsAny(s, a + b) {
      var j :| 0 <= j < |a + b| && Contains(s, (a + b)[j]);
      if j >= |a| {
        assert b[j - |a|] == (a + b)[j];
      }
    }
    if ContainsAny(s, a) {
      var j :| 0 <= j < |a| && Contains(s, a[j]);
      assert (a + b)[j] == a[j];
    }
    if ContainsAny(s, b) {
      var j :| 0 <= j < |b| && Contains(s, b[j]);
      assert (a + b)[|a| + j] == b[j];
    }
  }

  /** A word whose characters at `k` and `k + 1` never occur side by side at
      the matching distance in `s` is not in `s`. */
  lemma NotContains(s: string, w: string, k: nat)
    requires k + 1 < |w|
    requires forall j | k <= j <= |s| - |w| + k :: s[j] != w[k] || s[j + 1] != w[k + 1]
    ensures !Contains(s, w)
  {
    forall i | 0 <= i <= |s| - |w|
      ensures !OccursAt(s, w, i)
    {
      assert s[i..i + |w|][k] == s[i + k] && s[i..i + |w|][k + 1] == s[i + k + 1];
    }
  }
}
