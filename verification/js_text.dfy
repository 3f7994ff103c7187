/** JavaScript string semantics used across the code base.

    A `string` here is a sequence of Dafny `char`s, which are Unicode scalar values, and its
    length is `|s|`. JavaScript counts and compares UTF-16 code units instead; the two agree
    on text inside the Basic Multilingual Plane, whereas a character outside it is one `char`
    here but two code units in JavaScript. */
module JsText {
  import opened Wrappers

  /** A present string value is truthy exactly when it is not empty; `undefined` is falsy. */
  predicate Truthy(o: Option<string>) {
    o.Some? && o.value != ""
  }

  /** The characters matched by `\s` and removed by `String.prototype.trim`
      (WhiteSpace and LineTerminator of ECMA-262). */
  predicate IsSpace(c: char) {
    var n := c as int;
    n == 0x09 || n == 0x0A || n == 0x0B || n == 0x0C || n == 0x0D || n == 0x20 ||
    n == 0xA0 || n == 0x1680 || (0x2000 <= n <= 0x200A) ||
    n == 0x2028 || n == 0x2029 || n == 0x202F || n == 0x205F || n == 0x3000 || n == 0xFEFF
  }

  /** Number of leading whitespace characters of `s`. */
  function LeadingSpace(s: string): (n: nat)
    ensures n <= |s|
    ensures forall k :: 0 <= k < n ==> IsSpace(s[k])
    ensures n == |s| || !IsSpace(s[n])
  {
    if |s| == 0 || !IsSpace(s[0]) then 0 else 1 + LeadingSpace(s[1..])
  }

  /** Number of trailing whitespace characters of `s`. */
  function TrailingSpace(s: string): (n: nat)
    ensures n <= |s|
    ensures forall k :: |s| - n <= k < |s| ==> IsSpace(s[k])
    ensures n == |s| || !IsSpace(s[|s| - n - 1])
  {
    if |s| == 0 || !IsSpace(s[|s| - 1]) then 0 else 1 + TrailingSpace(s[..|s| - 1])
  }

  /** `String.prototype.trimStart`. */
  function TrimStart(s: string): (r: string)
    ensures exists n :: 0 <= n <= |s| && r == s[n..] && forall k :: 0 <= k < n ==> IsSpace(s[k])
    ensures r == "" || !IsSpace(r[0])
  {
    s[LeadingSpace(s)..]
  }

  /** `String.prototype.trim`: `s` without its leading and trailing whitespace. */
  function Trim(s: string): (r: string)
    ensures exists i, j :: 0 <= i <= j <= |s| && r == s[i..j]
              && (forall k :: 0 <= k < i ==> IsSpace(s[k]))
              && (forall k :: j <= k < |s| ==> IsSpace(s[k]))
    ensures r == "" || (!IsSpace(r[0]) && !IsSpace(r[|r| - 1]))
  {
    var i := LeadingSpace(s);
    var t := s[i..];
    var n := TrailingSpace(t);
    var j := |s| - n;
    assert forall k :: j <= k < |s| ==> IsSpace(s[k]) by {
      forall k | j <= k < |s| ensures IsSpace(s[k]) {
        assert s[k] == t[k - i];
      }
    }
    assert s[i..j] == t[..|t| - n];
    assert s[i..j] == "" || !IsSpace(s[i..j][0]);
    s[i..j]
  }

  /** Text of whitespace only trims to nothing. */
  lemma AllSpaceTrimsToEmpty(s: string)
    requires forall k :: 0 <= k < |s| ==> IsSpace(s[k])
    ensures Trim(s) == ""
  {
    assert LeadingSpace(s) == |s|;
  }

  /** `s.split(sep)[0]` for a one-character separator: the text before the first `sep`,
      or all of `s` when it has none. */
  function BeforeFirst(s: string, sep: char): (r: string)
    ensures r <= s
    ensures sep !in r
    ensures r == s || s[|r|] == sep
  {
    if |s| == 0 || s[0] == sep then "" else [s[0]] + BeforeFirst(s[1..], sep)
  }

  /** `a < b` on two strings: lexicographic order of characters, a proper prefix first. Characters
      are scalar values (see the module header), so outside the Basic Multilingual Plane this order
      differs from JavaScript's order of UTF-16 code units. */
  predicate Less(a: string, b: string) {
    if |a| == 0 then |b| > 0
    else if |b| == 0 then false
    else if a[0] == b[0] then Less(a[1..], b[1..])
    else a[0] < b[0]
  }

  /** `a >= b` on two strings. */
  predicate AtLeast(a: string, b: string) {
    !Less(a, b)
  }

  /** `a <= b` on two strings. */
  predicate AtMost(a: string, b: string) {
    !Less(b, a)
  }

  /** `s.startsWith(p)`. */
  predicate StartsWith(s: string, p: string) {
    p <= s
  }
}
