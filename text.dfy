/**
 * The parts of JavaScript string semantics the news update relies on:
 * truthiness of an optional string, the `||` operator chained over
 * several operands, and `String.prototype.trim`.
 */
module JsText {
  import opened Wrappers

  /** A property holding a string, or `undefined`. */
  type JsString = Option<string>

  /** `undefined` and the empty string are falsy; every other string is truthy. */
  predicate Truthy(v: JsString) {
    v.Some? && v.value != ""
  }

  /**
   * `cs[0] || cs[1] || ... || cs[n-1]`: the first truthy operand, or the
   * last operand when none is truthy.
   */
  function OrChain(cs: seq<JsString>): (r: JsString)
    requires |cs| > 0
    ensures forall k :: 0 <= k < |cs| && Truthy(cs[k]) && (forall j :: 0 <= j < k ==> !Truthy(cs[j])) ==> r == cs[k]
    ensures (forall k :: 0 <= k < |cs| ==> !Truthy(cs[k])) ==> r == cs[|cs| - 1]
    ensures Truthy(r) <==> exists k :: 0 <= k < |cs| && Truthy(cs[k])
  {
    if |cs| == 1 || Truthy(cs[0]) then cs[0] else OrChain(cs[1..])
  }

  /**
   * The characters `String.prototype.trim` removes: the ECMAScript
   * WhiteSpace code points (tab, vertical tab, form feed, the byte order
   * mark and every space separator) and the LineTerminator code points.
   */
  predicate IsJsWhitespace(c: char) {
    || c == '\t' || c == '\U{000B}' || c == '\U{000C}' || c == ' ' || c == '\U{00A0}'
    || c == '\U{FEFF}' || c == '\U{1680}' || ('\U{2000}' <= c <= '\U{200A}')
    || c == '\U{202F}' || c == '\U{205F}' || c == '\U{3000}'
    || c == '\n' || c == '\r' || c == '\U{2028}' || c == '\U{2029}'
  }

  /** `s` with its leading whitespace removed: the longest suffix that does not start with whitespace. */
  function TrimStart(s: string): (r: string)
    ensures |r| <= |s| && r == s[|s| - |r|..]
    ensures forall k :: 0 <= k < |s| - |r| ==> IsJsWhitespace(s[k])
    ensures r != [] ==> !IsJsWhitespace(r[0])
  {
    if s != [] && IsJsWhitespace(s[0]) then TrimStart(s[1..]) else s
  }

  /** `s` with its trailing whitespace removed: the longest prefix that does not end with whitespace. */
  function TrimEnd(s: string): (r: string)
    ensures |r| <= |s| && r == s[..|r|]
    ensures forall k :: |r| <= k < |s| ==> IsJsWhitespace(s[k])
    ensures r != [] ==> !IsJsWhitespace(r[|r| - 1])
  {
    if s != [] && IsJsWhitespace(s[|s| - 1]) then TrimEnd(s[..|s| - 1]) else s
  }

  /**
   * `s.trim()`: the slice of `s` left after whitespace is dropped from both
   * ends. Whitespace inside the string is kept.
   */
  function Trim(s: string): (r: string)
    ensures exists i, j :: 0 <= i <= j <= |s| && r == s[i..j]
                           && (forall k :: 0 <= k < i ==> IsJsWhitespace(s[k]))
                           && (forall k :: j <= k < |s| ==> IsJsWhitespace(s[k]))
    ensures r != [] ==> !IsJsWhitespace(r[0]) && !IsJsWhitespace(r[|r| - 1])
    ensures r == [] <==> forall k :: 0 <= k < |s| ==> IsJsWhitespace(s[k])
  {
    var t := TrimStart(s);
    var r := TrimEnd(t);
    var i := |s| - |t|;
    assert r == s[i..i + |r|];
    r
  }
}
