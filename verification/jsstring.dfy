/** `String.prototype.trim` as used by the chat handler's blank-query guard.
    Characters are Unicode scalar values; the whitespace set is ECMAScript's
    WhiteSpace plus LineTerminator productions (section 12.2 and 12.3 of
    ECMA-262). */
module JsString {

  predicate IsJsWhitespace(c: char) {
    var u := c as int;
    || u == 0x09 || u == 0x0A || u == 0x0B || u == 0x0C || u == 0x0D
    || u == 0x20 || u == 0xA0 || u == 0x1680
    || (0x2000 <= u <= 0x200A)
    || u == 0x2028 || u == 0x2029 || u == 0x202F || u == 0x205F
    || u == 0x3000 || u == 0xFEFF
  }

  /** Every character of `s` is whitespace (vacuously so for ""). */
  predicate IsBlank(s: string) {
    forall i | 0 <= i < |s| :: IsJsWhitespace(s[i])
  }

  /** The first index at or after `i` that does not hold whitespace, or `|s|`. */
  function SkipBlanks(s: string, i: nat): (k: nat)
    requires i <= |s|
    ensures i <= k <= |s|
    ensures forall j | i <= j < k :: IsJsWhitespace(s[j])
    ensures k < |s| ==> !IsJsWhitespace(s[k])
    decreases |s| - i
  {
    if i == |s| || !IsJsWhitespace(s[i]) then i
    else SkipBlanks(s, i + 1)
  }

  /** Going down from `j`, the end of the last non-whitespace character at or
      after `lo`, or `lo` itself. */
  function SkipBlanksBack(s: string, lo: nat, j: nat): (k: nat)
    requires lo <= j <= |s|
    ensures lo <= k <= j
    ensures forall m | k <= m < j :: IsJsWhitespace(s[m])
    ensures k > lo ==> !IsJsWhitespace(s[k - 1])
    decreases j
  {
    if j == lo || !IsJsWhitespace(s[j - 1]) then j
    else SkipBlanksBack(s, lo, j - 1)
  }

  /** `s.trim()`: a contiguous piece of `s`, with nothing but whitespace
      before and after it, and neither end of which is whitespace. */
  function Trim(s: string): (r: string)
    ensures exists a, b | 0 <= a <= b <= |s| ::
              && r == s[a..b]
              && (forall i | 0 <= i < a :: IsJsWhitespace(s[i]))
              && (forall i | b <= i < |s| :: IsJsWhitespace(s[i]))
    ensures r != [] ==> !IsJsWhitespace(r[0]) && !IsJsWhitespace(r[|r| - 1])
  {
    var a := SkipBlanks(s, 0);
    var b := SkipBlanksBack(s, a, |s|);
    s[a..b]
  }

  /** `!query.trim()` holds exactly for the blank queries. */
  lemma TrimEmptyIffBlank(s: string)
    ensures Trim(s) == [] <==> IsBlank(s)
  {
    var r := Trim(s);
    var a, b :| && 0 <= a <= b <= |s|
                && r == s[a..b]
                && (forall i | 0 <= i < a :: IsJsWhitespace(s[i]))
                && (forall i | b <= i < |s| :: IsJsWhitespace(s[i]));
    if r != [] {
      assert s[a] == r[0];
    }
  }
}
