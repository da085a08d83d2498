/**
  The string primitives the startup manager relies on: .NET's `char.IsWhiteSpace`,
  `string.Trim` and `string.ToLower`, and a first-occurrence search.
  Strings are sequences of Unicode scalar values.
 */
module Text {

  /** The characters .NET's `char.IsWhiteSpace` accepts: the Unicode space, line and
      paragraph separators (categories Zs, Zl, Zp) together with U+0009..U+000D and U+0085. */
  predicate IsWhiteSpace(c: char) {
    || ('\U{9}' <= c <= '\U{D}')
    || c == ' '
    || c == '\U{85}'
    || c == '\U{A0}'
    || c == '\U{1680}'
    || ('\U{2000}' <= c <= '\U{200A}')
    || c == '\U{2028}'
    || c == '\U{2029}'
    || c == '\U{202F}'
    || c == '\U{205F}'
    || c == '\U{3000}'
  }

  predicate WhitespaceOnly(s: string) {
    forall i :: 0 <= i < |s| ==> IsWhiteSpace(s[i])
  }

  /** Neither the first nor the last character is whitespace. */
  predicate Trimmed(s: string) {
    s == [] || (!IsWhiteSpace(s[0]) && !IsWhiteSpace(s[|s| - 1]))
  }

  /** Whitespace strictly between two non-whitespace characters: the whitespace
      that survives trimming. */
  predicate HasInnerWhitespace(s: string) {
    exists i, j, k :: 0 <= i < j < k < |s| && !IsWhiteSpace(s[i]) && IsWhiteSpace(s[j]) && !IsWhiteSpace(s[k])
  }

  /** A string without whitespace is its own trimmed form and is blank only when empty. */
  lemma NoWhitespace(s: string)
    requires forall i :: 0 <= i < |s| ==> !IsWhiteSpace(s[i])
    ensures Trimmed(s) && !IsAnyWhitespaceIn(s)
    ensures s != [] ==> !WhitespaceOnly(s)
  {
  }

  /** `IsAnyWhitespaceIn`: scans the string from the left and answers true at the
      first whitespace character. */
  function IsAnyWhitespaceIn(s: string): (r: bool)
    ensures r <==> exists i :: 0 <= i < |s| && IsWhiteSpace(s[i])
  {
    if s == [] then false else IsWhiteSpace(s[0]) || IsAnyWhitespaceIn(s[1..])
  }

  /** `TrimStart`: drops the leading whitespace and nothing else. */
  function TrimStart(s: string): (r: string)
    ensures |r| <= |s| && r == s[|s| - |r|..]
    ensures forall i :: 0 <= i < |s| - |r| ==> IsWhiteSpace(s[i])
    ensures r != [] ==> !IsWhiteSpace(r[0])
  {
    if s != [] && IsWhiteSpace(s[0]) then TrimStart(s[1..]) else s
  }

  /** `TrimEnd`: drops the trailing whitespace and nothing else. */
  function TrimEnd(s: string): (r: string)
    ensures |r| <= |s| && r == s[..|r|]
    ensures forall i :: |r| <= i < |s| ==> IsWhiteSpace(s[i])
    ensures r != [] ==> !IsWhiteSpace(r[|r| - 1])
  {
    if s != [] && IsWhiteSpace(s[|s| - 1]) then TrimEnd(s[..|s| - 1]) else s
  }

  /** `string.Trim()`: removes whitespace from both ends. */
  function Trim(s: string): (r: string)
    ensures Trimmed(r)
    ensures |r| <= |s|
    ensures r == [] <==> WhitespaceOnly(s)
    ensures Trimmed(s) ==> r == s
  {
    TrimEnd(TrimStart(s))
  }

  /** Trimming leaves whitespace in the result exactly when the input had
      whitespace between two non-whitespace characters. */
  lemma TrimKeepsInnerWhitespace(s: string)
    ensures IsAnyWhitespaceIn(Trim(s)) <==> HasInnerWhitespace(s)
  {
    if IsAnyWhitespaceIn(Trim(s)) {
      var i, j, k := InnerWhitespaceSurvivesTrim(s);
      assert !IsWhiteSpace(s[i]) && IsWhiteSpace(s[j]) && !IsWhiteSpace(s[k]);
    }
    if HasInnerWhitespace(s) {
      InnerWhitespaceIsKept(s);
    }
  }

  lemma InnerWhitespaceIsKept(s: string)
    requires HasInnerWhitespace(s)
    ensures IsAnyWhitespaceIn(Trim(s))
  {
    var i, j, k :| 0 <= i < j < k < |s| && !IsWhiteSpace(s[i]) && IsWhiteSpace(s[j]) && !IsWhiteSpace(s[k]);
    TrimmedKeepsWhitespaceBetween(s, i, j, k);
  }

  /** Whitespace left after trimming sits between the first and the last character
      that trimming kept. */
  lemma {:induction false} InnerWhitespaceSurvivesTrim(s: string) returns (i: nat, j: nat, k: nat)
    requires IsAnyWhitespaceIn(TrimEnd(TrimStart(s)))
    ensures i < j < k < |s| && !IsWhiteSpace(s[i]) && IsWhiteSpace(s[j]) && !IsWhiteSpace(s[k])
  {
    var t := TrimStart(s);
    var r := TrimEnd(t);
    var a := |s| - |t|;
    assert r[0] == t[0];
    var w := WhitespaceInsideTrimmed(r);
    assert r[w] == t[w] && r[|r| - 1] == t[|r| - 1];
    assert t[0] == s[a] && t[w] == s[a + w] && t[|r| - 1] == s[a + |r| - 1];
    i, j, k := a, a + w, a + |r| - 1;
  }

  /** In a trimmed string, any whitespace lies strictly inside. */
  lemma WhitespaceInsideTrimmed(r: string) returns (j: nat)
    requires Trimmed(r) && IsAnyWhitespaceIn(r)
    ensures 0 < j < |r| - 1 && IsWhiteSpace(r[j])
  {
    j :| 0 <= j < |r| && IsWhiteSpace(r[j]);
  }

  lemma {:induction false} TrimmedKeepsWhitespaceBetween(s: string, i: nat, j: nat, k: nat)
    requires i < j < k < |s| && !IsWhiteSpace(s[i]) && IsWhiteSpace(s[j]) && !IsWhiteSpace(s[k])
    ensures IsAnyWhitespaceIn(Trim(s))
  {
    var t := TrimStart(s);
    var a := |s| - |t|;
    assert forall x :: 0 <= x < a ==> IsWhiteSpace(s[x]);
    assert a <= i;
    assert t == s[a..];
    assert t[k - a] == s[k];
    assert t[j - a] == s[j];
    var r := TrimEnd(t);
    assert forall x :: |r| <= x < |t| ==> IsWhiteSpace(t[x]);
    assert k - a < |r|;
    assert r == t[..|r|];
    assert IsWhiteSpace(r[j - a]);
    assert Trim(s) == r;
  }

  predicate IsAsciiUpper(c: char) {
    'A' <= c <= 'Z'
  }

  predicate HasAsciiUpper(s: string) {
    exists i :: 0 <= i < |s| && IsAsciiUpper(s[i])
  }

  /** `char.ToLower`, restricted to the ASCII letters. */
  function ToLowerChar(c: char): (d: char)
    ensures !IsAsciiUpper(d)
    ensures IsWhiteSpace(d) <==> IsWhiteSpace(c)
    ensures !IsAsciiUpper(c) ==> d == c
    ensures IsAsciiUpper(c) ==> 'a' <= d <= 'z' && d as int - c as int == 'a' as int - 'A' as int
  {
    if IsAsciiUpper(c) then (c as int - 'A' as int + 'a' as int) as char else c
  }

  /** `string.ToLower()`, character by character. */
  function ToLower(s: string): (r: string)
    ensures |r| == |s|
    ensures forall i :: 0 <= i < |s| ==> r[i] == ToLowerChar(s[i])
    ensures !HasAsciiUpper(r)
    ensures !HasAsciiUpper(s) ==> r == s
  {
    seq(|s|, i requires 0 <= i < |s| => ToLowerChar(s[i]))
  }

  /** Lower-casing and whitespace do not interact: lower-casing neither adds nor
      removes whitespace, so it commutes with trimming. */
  lemma {:induction false} ToLowerPreservesWhitespace(s: string)
    ensures IsAnyWhitespaceIn(ToLower(s)) <==> IsAnyWhitespaceIn(s)
    ensures WhitespaceOnly(ToLower(s)) <==> WhitespaceOnly(s)
    ensures Trimmed(s) ==> Trimmed(ToLower(s))
  {
    var l := ToLower(s);
    if IsAnyWhitespaceIn(l) {
      var i :| 0 <= i < |l| && IsWhiteSpace(l[i]);
      assert IsWhiteSpace(s[i]);
    }
    if IsAnyWhitespaceIn(s) {
      var i :| 0 <= i < |s| && IsWhiteSpace(s[i]);
      assert IsWhiteSpace(l[i]);
    }
  }

  /** The position of the first `c` in `s`, or `|s|` when there is none. */
  function IndexOf(s: string, c: char): (i: nat)
    ensures i <= |s|
    ensures i < |s| ==> s[i] == c
    ensures forall j :: 0 <= j < i ==> s[j] != c
  {
    if s == [] then 0 else if s[0] == c then 0 else 1 + IndexOf(s[1..], c)
  }
}
