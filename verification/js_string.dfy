/** The parts of JavaScript's string semantics the core depends on:
    `trim`, `toLowerCase`, `includes`, `indexOf` and `replace` with a string
    pattern. Strings are sequences of Unicode scalar values. */
module JsString {
  import opened Wrappers

  /** ECMAScript line terminators: the characters `.` in a regular
      expression refuses to match. */
  predicate IsLineTerminator(c: char) {
    c == '\n' || c == '\r' || c == '\U{2028}' || c == '\U{2029}'
  }

  /** The characters `String.prototype.trim` removes: ECMAScript WhiteSpace
      (tab, vertical tab, form feed, space, no-break space, the byte order
      mark and the Unicode space separators) plus the line terminators. */
  predicate IsWhitespace(c: char) {
    || c == '\t' || c == '\U{B}' || c == '\U{C}' || c == ' '
    || c == '\U{A0}' || c == '\U{1680}'
    || ('\U{2000}' <= c <= '\U{200A}')
    || c == '\U{202F}' || c == '\U{205F}' || c == '\U{3000}' || c == '\U{FEFF}'
    || IsLineTerminator(c)
  }

  predicate AllWhitespace(s: string) {
    forall i :: 0 <= i < |s| ==> IsWhitespace(s[i])
  }

  /** Neither end of `s` is a whitespace character. */
  predicate IsTrimmed(s: string) {
    s == [] || (!IsWhitespace(s[0]) && !IsWhitespace(s[|s| - 1]))
  }

  /** `String.prototype.trimStart`: the longest suffix that does not start
      with whitespace. */
  function TrimStart(s: string): (r: string)
    ensures |r| <= |s| && r == s[|s| - |r|..]
    ensures r == [] || !IsWhitespace(r[0])
  {
    if |s| > 0 && IsWhitespace(s[0]) then
      var r := TrimStart(s[1..]);
      assert s[1..][|s| - 1 - |r|..] == s[|s| - |r|..];
      r
    else s
  }

  /** `String.prototype.trimEnd`: the longest prefix that does not end with
      whitespace. */
  function TrimEnd(s: string): (r: string)
    ensures |r| <= |s| && r == s[..|r|]
    ensures r == [] || !IsWhitespace(r[|r| - 1])
  {
    if |s| > 0 && IsWhitespace(s[|s| - 1]) then
      var init := s[..|s| - 1];
      var r := TrimEnd(init);
      assert init[..|r|] == s[..|r|];
      r
    else s
  }

  /** `trimStart` removes only whitespace. */
  lemma {:induction false} TrimStartRemovesWhitespace(s: string)
    ensures AllWhitespace(s[..|s| - |TrimStart(s)|])
  {
    if |s| > 0 && IsWhitespace(s[0]) {
      TrimStartRemovesWhitespace(s[1..]);
      var n := |s| - |TrimStart(s)|;
      assert forall i :: 1 <= i < n ==> s[..n][i] == s[1..][..n - 1][i - 1];
    }
  }

  /** `trimEnd` removes only whitespace. */
  lemma {:induction false} TrimEndRemovesWhitespace(s: string)
    ensures AllWhitespace(s[|TrimEnd(s)|..])
  {
    if |s| > 0 && IsWhitespace(s[|s| - 1]) {
      var init := s[..|s| - 1];
      TrimEndRemovesWhitespace(init);
      var m := |TrimEnd(init)|;
      assert forall i :: 0 <= i < |s| - 1 - m ==> s[m..][i] == init[m..][i];
    }
  }

  lemma AppendAssoc(a: string, b: string, c: string)
    ensures a + (b + c) == (a + b) + c
  {
  }

  /** Number of whitespace characters `trim` removes from the start. */
  function LeadingWhitespace(s: string): (n: nat)
    ensures n <= |s|
  {
    |s| - |TrimStart(s)|
  }

  /** `String.prototype.trim`: `s` with the whitespace at both ends removed.
      The result is the infix of `s` that starts after its leading
      whitespace, and neither of its ends is whitespace. */
  function Trim(s: string): (r: string)
    ensures IsTrimmed(r)
    ensures LeadingWhitespace(s) + |r| <= |s|
    ensures r == s[LeadingWhitespace(s)..LeadingWhitespace(s) + |r|]
  {
    var t := TrimStart(s);
    var r := TrimEnd(t);
    assert IsTrimmed(r) by {
      if r != [] {
        assert r[0] == t[0];
      }
    }
    r
  }

  /** Only whitespace lies outside the trimmed infix. */
  lemma TrimRemovesWhitespace(s: string)
    ensures var a, r := LeadingWhitespace(s), Trim(s);
            AllWhitespace(s[..a]) && AllWhitespace(s[a + |r|..])
  {
    var t := TrimStart(s);
    var r := TrimEnd(t);
    var a := |s| - |t|;
    TrimStartRemovesWhitespace(s);
    TrimEndRemovesWhitespace(t);
    assert t == s[a..];
    assert s[a + |r|..] == t[|r|..];
  }

  lemma {:induction false} TrimStartAllWhitespace(w: string)
    requires AllWhitespace(w)
    ensures TrimStart(w) == []
  {
    if w != [] {
      TrimStartAllWhitespace(w[1..]);
    }
  }

  lemma {:induction false} TrimEndAppendWhitespace(t: string, w: string)
    requires t == [] || !IsWhitespace(t[|t| - 1])
    requires AllWhitespace(w)
    ensures TrimEnd(t + w) == t
  {
    if w == [] {
      assert t + w == t;
    } else {
      var w' := w[..|w| - 1];
      assert (t + w)[..|t + w| - 1] == t + w';
      TrimEndAppendWhitespace(t, w');
    }
  }

  /** Trimming is the identity on trimmed text followed by whitespace. */
  lemma TrimTrailingWhitespace(t: string, w: string)
    requires IsTrimmed(t) && AllWhitespace(w)
    ensures Trim(t + w) == t
  {
    if t == [] {
      assert t + w == w;
      TrimStartAllWhitespace(w);
    } else {
      assert (t + w)[0] == t[0];
      TrimEndAppendWhitespace(t, w);
    }
  }

  /** Trimming a trimmed string changes nothing. */
  lemma TrimTrimmed(t: string)
    requires IsTrimmed(t)
    ensures Trim(t) == t
  {
    TrimTrailingWhitespace(t, []);
    assert t + [] == t;
  }

  /** `toLowerCase` of one character. Besides ASCII this covers the Latin-1
      capitals, `Œ`, `Ÿ`, the Kelvin sign (which lowers to an ASCII `k`) and
      the dotted capital `İ` (which lowers to `i` plus a combining dot). Every
      other character is kept; no lookup key or landmark of the model
      contains a character such a mapping could produce. */
  function LowerChar(c: char): (r: string)
    ensures 1 <= |r| <= 2
  {
    if 'A' <= c <= 'Z' then [(c as int + 32) as char]
    else if '\U{C0}' <= c <= '\U{DE}' && c != '\U{D7}' then [(c as int + 32) as char]
    else if c == '\U{152}' then ['\U{153}']
    else if c == '\U{178}' then ['\U{FF}']
    else if c == '\U{212A}' then ['k']
    else if c == '\U{130}' then ['i', '\U{307}']
    else [c]
  }

  /** `String.prototype.toLowerCase`, character by character. */
  function ToLower(s: string): (r: string)
    ensures |s| <= |r| <= 2 * |s|
    ensures (forall i :: 0 <= i < |s| ==> s[i] < '\U{80}') ==>
              |r| == |s| && forall i :: 0 <= i < |s| ==> r[i] == LowerAscii(s[i])
  {
    if s == [] then [] else LowerChar(s[0]) + ToLower(s[1..])
  }

  /** Over an ASCII prefix, lowering works position by position. */
  lemma {:induction false} ToLowerAsciiAt(s: string, i: nat)
    requires i < |s|
    requires forall k :: 0 <= k <= i ==> s[k] < '\U{80}'
    ensures i < |ToLower(s)|
    ensures ToLower(s)[i] == if 'A' <= s[i] <= 'Z' then (s[i] as int + 32) as char else s[i]
  {
    if i > 0 {
      ToLowerAsciiAt(s[1..], i - 1);
    }
  }

  /** ASCII lowering of one character. It is also the case folding of a
      regular expression's `i` flag on ASCII: no other character folds onto
      an ASCII letter under that flag. */
  function LowerAscii(c: char): char
  {
    if 'A' <= c <= 'Z' then (c as int + 32) as char else c
  }

  /** Two strings whose ASCII prefixes differ ignoring case at position `n`
      lower to different strings. */
  lemma LowerDiffersAt(a: string, b: string, n: nat)
    requires n < |a| && n < |b|
    requires forall k :: 0 <= k <= n ==> a[k] < '\U{80}' && b[k] < '\U{80}'
    requires LowerAscii(a[n]) != LowerAscii(b[n])
    ensures ToLower(a) != ToLower(b)
  {
    ToLowerAsciiAt(a, n);
    ToLowerAsciiAt(b, n);
    assert ToLower(a)[n] != ToLower(b)[n];
  }

  lemma {:induction false} ToLowerAppend(a: string, b: string)
    ensures ToLower(a + b) == ToLower(a) + ToLower(b)
  {
    if a == [] {
      assert a + b == b;
    } else {
      assert (a + b)[1..] == a[1..] + b;
      ToLowerAppend(a[1..], b);
    }
  }

  /** `needle` occurs in `hay` starting at position `i`. */
  predicate OccursAt(hay: string, needle: string, i: int) {
    0 <= i && i + |needle| <= |hay| && hay[i..i + |needle|] == needle
  }

  /** `hay.indexOf(needle, from)`: the first position at or after `from`
      where `needle` occurs. */
  function IndexOfFrom(hay: string, needle: string, from: nat): (r: Option<nat>)
    requires from <= |hay|
    ensures r.Some? ==> from <= r.value && OccursAt(hay, needle, r.value)
    ensures r.Some? ==> forall j :: from <= j < r.value ==> !OccursAt(hay, needle, j)
    ensures r.None? ==> forall j :: from <= j ==> !OccursAt(hay, needle, j)
    decreases |hay| - from
  {
    if from + |needle| > |hay| then None
    else if hay[from..from + |needle|] == needle then Some(from)
    else IndexOfFrom(hay, needle, from + 1)
  }

  function IndexOf(hay: string, needle: string): (r: Option<nat>)
    ensures r.Some? ==> OccursAt(hay, needle, r.value)
    ensures r.Some? ==> forall j :: 0 <= j < r.value ==> !OccursAt(hay, needle, j)
    ensures r.None? ==> forall j :: !OccursAt(hay, needle, j)
  {
    IndexOfFrom(hay, needle, 0)
  }

  /** `hay.includes(needle)`. */
  predicate Includes(hay: string, needle: string) {
    IndexOf(hay, needle).Some?
  }

  /** `s.replace(pattern, '')` with a string pattern: only the first
      occurrence is removed. */
  function RemoveFirst(s: string, pattern: string): (r: string)
    ensures IndexOf(s, pattern).None? ==> r == s
    ensures IndexOf(s, pattern).Some? ==>
              var i := IndexOf(s, pattern).value;
              |r| == |s| - |pattern| && r == s[..i] + s[i + |pattern|..]
  {
    match IndexOf(s, pattern)
    case None => s
    case Some(i) => s[..i] + s[i + |pattern|..]
  }
}
