/** The activity tag codec (`src/services/mapService.ts`): an activity is a
    plain string that may carry inline `[at: …]` and `[time: …]` tags.
    `Parse` reads it into a `DayPlanActivity`, `Format` writes one back. */
module MapService {
  import opened Wrappers
  import opened JsString
  import opened Types

  datatype TagKind = At | Time

  function Keyword(k: TagKind): string {
    match k
    case At => "at"
    case Time => "time"
  }

  /** Length of the opening `[keyword: ` of a tag. */
  function HeaderLength(k: TagKind): nat {
    |Keyword(k)| + 3
  }

  /** `s` starts with `[`, the keyword of `k` in any letter case, a colon and
      exactly one space. */
  predicate OpensTag(s: string, k: TagKind) {
    var kw := Keyword(k);
    && |s| >= HeaderLength(k)
    && s[0] == '['
    && (forall i :: 0 <= i < |kw| ==> LowerAscii(s[i + 1]) == kw[i])
    && s[|kw| + 1] == ':'
    && s[|kw| + 2] == ' '
  }

  /** The character after `[` decides which kind of tag can open. */
  lemma OpensTagFirstLetter(s: string, k: TagKind)
    requires |s| > 1 && LowerAscii(s[1]) != Keyword(k)[0]
    ensures !OpensTag(s, k)
  {
  }

  /** A character the capture group `(.*?)` may take before the closing `]`. */
  predicate ValueChar(c: char) {
    c != ']' && !IsLineTerminator(c)
  }

  predicate IsTagValue(v: string) {
    forall i :: 0 <= i < |v| ==> ValueChar(v[i])
  }

  /** The position of the first `]` at or after `j`, unless a line terminator
      comes before it: where the lazy `(.*?)\]` stops. */
  function CloseFrom(s: string, j: nat): (r: Option<nat>)
    requires j <= |s|
    ensures r.Some? ==> j <= r.value < |s| && s[r.value] == ']' && IsTagValue(s[j..r.value])
    decreases |s| - j
  {
    if j == |s| then None
    else if s[j] == ']' then Some(j)
    else if IsLineTerminator(s[j]) then None
    else
      var r := CloseFrom(s, j + 1);
      assert r.Some? ==> s[j..r.value] == [s[j]] + s[j + 1..r.value];
      r
  }

  /** The capture of `/\[kw: (.*?)\]/i` when the match starts at the first
      character of `s`. */
  function TagAt(s: string, k: TagKind): (r: Option<string>)
    ensures r.Some? ==>
              && OpensTag(s, k)
              && HeaderLength(k) + |r.value| < |s|
              && s[HeaderLength(k)..HeaderLength(k) + |r.value|] == r.value
              && s[HeaderLength(k) + |r.value|] == ']'
              && IsTagValue(r.value)
  {
    if !OpensTag(s, k) then None
    else
      match CloseFrom(s, HeaderLength(k))
      case None => None
      case Some(j) => Some(s[HeaderLength(k)..j])
  }

  /** `CloseFrom` fails only when every `]` after `j` comes after a line
      terminator. */
  lemma {:induction false} CloseFromNone(s: string, j: nat)
    requires j <= |s| && CloseFrom(s, j).None?
    ensures forall e :: j <= e < |s| && s[e] == ']' ==>
              exists m :: j <= m < e && IsLineTerminator(s[m])
    decreases |s| - j
  {
    if j < |s| && s[j] != ']' && !IsLineTerminator(s[j]) {
      CloseFromNone(s, j + 1);
      forall e | j + 1 <= e < |s| && s[e] == ']'
        ensures exists m :: j <= m < e && IsLineTerminator(s[m])
      {
        var m :| j + 1 <= m < e && IsLineTerminator(s[m]);
      }
    }
  }

  /** A tag that opens but is not matched has a line terminator before
      every later `]`. */
  lemma TagAtNone(s: string, k: TagKind)
    requires OpensTag(s, k) && TagAt(s, k).None?
    ensures forall j :: HeaderLength(k) <= j < |s| && s[j] == ']' ==>
              exists m :: HeaderLength(k) <= m < j && IsLineTerminator(s[m])
  {
    CloseFromNone(s, HeaderLength(k));
  }

  /** Length of the whole match of a `k` tag whose value is `v`. */
  function TagLength(k: TagKind, v: string): nat {
    HeaderLength(k) + |v| + 1
  }

  /** `s.replace(/\[kw: (.*?)\]/gi, '')`: scanning left to right, every match
      is removed and the scan resumes after it. */
  function Strip(s: string, k: TagKind): (r: string)
    ensures |r| <= |s|
    decreases |s|
  {
    if s == [] then []
    else
      match TagAt(s, k)
      case Some(v) => Strip(s[TagLength(k, v)..], k)
      case None => [s[0]] + Strip(s[1..], k)
  }

  /** The capture of the first match of `/\[kw: (.*?)\]/i` in `s`, if any. */
  function FirstTag(s: string, k: TagKind): (r: Option<string>)
    ensures r.Some? ==> IsTagValue(r.value)
    ensures r.Some? ==> TagLength(k, r.value) <= |s|
    decreases |s|
  {
    if s == [] then None
    else
      match TagAt(s, k)
      case Some(v) => Some(v)
      case None => FirstTag(s[1..], k)
  }

  /** No tag matches at any position of `s` when none matches at its first
      position nor anywhere in `s[1..]`. */
  lemma NoTagShift(s: string, k: TagKind)
    requires s != [] && TagAt(s, k).None?
    requires forall i :: 0 <= i < |s| - 1 ==> TagAt(s[1..][i..], k).None?
    ensures forall i :: 0 <= i < |s| ==> TagAt(s[i..], k).None?
  {
    forall i | 0 <= i < |s| ensures TagAt(s[i..], k).None? {
      if i == 0 {
        assert s[0..] == s;
      } else {
        assert s[i..] == s[1..][i - 1..];
      }
    }
  }

  /** `FirstTag` is absent exactly when no position of `s` matches. */
  lemma {:induction false} FirstTagNoneIff(s: string, k: TagKind)
    ensures FirstTag(s, k).None? <==> forall i :: 0 <= i < |s| ==> TagAt(s[i..], k).None?
    decreases |s|
  {
    if s != [] {
      assert s[0..] == s;
      if TagAt(s, k).None? {
        FirstTagNoneIff(s[1..], k);
        if FirstTag(s, k).None? {
          NoTagShift(s, k);
        } else {
          var i :| 0 <= i < |s| - 1 && TagAt(s[1..][i..], k).Some?;
          assert s[1..][i..] == s[i + 1..];
        }
      }
    }
  }

  /** `FirstTag` is the capture of the leftmost position at which a tag
      matches. */
  lemma {:induction false} FirstTagIsLeftmost(s: string, k: TagKind)
    requires FirstTag(s, k).Some?
    ensures exists i :: 0 <= i < |s| && TagAt(s[i..], k) == FirstTag(s, k)
                        && forall j :: 0 <= j < i ==> TagAt(s[j..], k).None?
    decreases |s|
  {
    assert s[0..] == s;
    if TagAt(s, k).None? {
      FirstTagIsLeftmost(s[1..], k);
      var i :| 0 <= i < |s| - 1 && TagAt(s[1..][i..], k) == FirstTag(s, k)
               && forall j :: 0 <= j < i ==> TagAt(s[1..][j..], k).None?;
      assert s[1..][i..] == s[i + 1..];
      forall j | 0 <= j < i + 1 ensures TagAt(s[j..], k).None? {
        if j > 0 {
          assert s[j..] == s[1..][j - 1..];
        }
      }
      assert 0 <= i + 1 < |s| && TagAt(s[i + 1..], k) == FirstTag(s, k);
    }
  }

  /** `parseActivityString`: the location is the first at-tag's capture, the
      time the first time-tag's capture, and the text is the input with every
      at-tag and then every time-tag removed, trimmed. */
  function Parse(activity: string): (r: DayPlanActivity)
    ensures IsTrimmed(r.text)
    ensures r.location.Some? ==> IsTagValue(r.location.value)
    ensures r.time.Some? ==> IsTagValue(r.time.value)
  {
    var text := Trim(Strip(Strip(activity, At), Time));
    DayPlanActivity(text, FirstTag(activity, At), FirstTag(activity, Time))
  }

  function TagText(k: TagKind, v: string): string {
    "[" + Keyword(k) + ": " + v + "]"
  }

  /** `formatActivityWithTags`: the text, then ` [at: L]` when the location
      is truthy, then ` [time: H]` when the time is truthy. */
  function Format(a: DayPlanActivity): (r: string)
    ensures !Truthy(a.location) && !Truthy(a.time) ==> r == a.text
  {
    a.text
    + (if Truthy(a.location) then " " + TagText(At, a.location.value) else "")
    + (if Truthy(a.time) then " " + TagText(Time, a.time.value) else "")
  }

  /* ---------------- Activity strings built by the tag grammar ---------------- */

  /** A piece of an activity string: free text or a tag. */
  datatype Piece = Plain(text: string) | Tag(kind: TagKind, value: string)

  function PieceText(p: Piece): string {
    match p
    case Plain(t) => t
    case Tag(k, v) => TagText(k, v)
  }

  function Render(ps: seq<Piece>): string {
    if ps == [] then "" else PieceText(ps[0]) + Render(ps[1..])
  }

  /** Free text holds no `[`; a tag value holds no bracket and no line
      terminator. */
  predicate PieceOK(p: Piece) {
    match p
    case Plain(t) => '[' !in t
    case Tag(_, v) => '[' !in v && IsTagValue(v)
  }

  predicate WellFormed(ps: seq<Piece>) {
    forall i :: 0 <= i < |ps| ==> PieceOK(ps[i])
  }

  /** The free text of the pieces, concatenated. */
  function PlainText(ps: seq<Piece>): string {
    if ps == [] then ""
    else (if ps[0].Plain? then ps[0].text else "") + PlainText(ps[1..])
  }

  /** The value of the first tag of kind `k`. */
  function FirstValue(ps: seq<Piece>, k: TagKind): Option<string> {
    if ps == [] then None
    else if ps[0].Tag? && ps[0].kind == k then Some(ps[0].value)
    else FirstValue(ps[1..], k)
  }

  /** The pieces without the tags of kind `k`. */
  function Without(ps: seq<Piece>, k: TagKind): seq<Piece> {
    if ps == [] then []
    else (if ps[0].Tag? && ps[0].kind == k then [] else [ps[0]]) + Without(ps[1..], k)
  }

  lemma {:induction false} StripBracketFree(a: string, b: string, k: TagKind)
    requires '[' !in a
    ensures Strip(a + b, k) == a + Strip(b, k)
  {
    if a != [] {
      assert (a + b)[0] == a[0];
      assert (a + b)[1..] == a[1..] + b;
      StripBracketFree(a[1..], b, k);
    } else {
      assert a + b == b;
    }
  }

  lemma {:induction false} CloseFromValue(s: string, j: nat, e: nat)
    requires j <= e < |s| && s[e] == ']' && IsTagValue(s[j..e])
    ensures CloseFrom(s, j) == Some(e)
    decreases e - j
  {
    if j < e {
      assert s[j] == s[j..e][0];
      assert s[j + 1..e] == s[j..e][1..];
      CloseFromValue(s, j + 1, e);
    }
  }

  lemma StripNoBracket(a: string, k: TagKind)
    requires '[' !in a
    ensures Strip(a, k) == a
  {
    StripBracketFree(a, [], k);
    assert a + [] == a;
  }

  /** A tag written by `TagText` is matched, and its value captured, by the
      pattern of its own kind. */
  lemma TagAtOwn(k: TagKind, v: string, b: string)
    requires IsTagValue(v)
    ensures TagAt(TagText(k, v) + b, k) == Some(v)
  {
    var s := TagText(k, v) + b;
    var h := HeaderLength(k);
    assert s[h..h + |v|] == v;
    assert s[h + |v|] == ']';
    assert OpensTag(s, k);
    CloseFromValue(s, h, h + |v|);
  }

  lemma TagAtOther(k: TagKind, other: TagKind, v: string, b: string)
    requires k != other
    ensures TagAt(TagText(other, v) + b, k) == None
  {
    var s := TagText(other, v) + b;
    assert s[1] == Keyword(other)[0];
    assert !OpensTag(s, k);
  }

  lemma WellFormedTail(ps: seq<Piece>)
    requires ps != [] && WellFormed(ps)
    ensures PieceOK(ps[0]) && WellFormed(ps[1..])
  {
    forall i | 0 <= i < |ps| - 1 ensures PieceOK(ps[1..][i]) {
      assert ps[1..][i] == ps[i + 1];
    }
  }

  lemma RenderCons(p: Piece, ps: seq<Piece>)
    ensures Render([p] + ps) == PieceText(p) + Render(ps)
  {
    assert ([p] + ps)[1..] == ps;
  }

  /** A leading tag of the stripped kind is removed whole. */
  lemma StripLeadingOwnTag(k: TagKind, v: string, rest: string)
    requires IsTagValue(v)
    ensures Strip(TagText(k, v) + rest, k) == Strip(rest, k)
  {
    var s := TagText(k, v) + rest;
    TagAtOwn(k, v, rest);
    assert s[TagLength(k, v)..] == rest;
  }

  /** A first character where no tag matches, followed by bracket-free
      text, is kept along with that text. */
  lemma StripSkipBracketFree(c: char, inner: string, rest: string, k: TagKind)
    requires TagAt([c] + (inner + rest), k).None? && '[' !in inner
    ensures Strip([c] + (inner + rest), k) == [c] + (inner + Strip(rest, k))
  {
    var s := [c] + (inner + rest);
    StripSkip(s, k);
    assert s[1..] == inner + rest;
    StripBracketFree(inner, rest, k);
  }

  /** A leading tag of the other kind is kept verbatim. */
  lemma StripLeadingOtherTag(k: TagKind, other: TagKind, v: string, rest: string)
    requires k != other && '[' !in v
    ensures Strip(TagText(other, v) + rest, k) == TagText(other, v) + Strip(rest, k)
  {
    var tt := TagText(other, v);
    var inner := Keyword(other) + ": " + v + "]";
    assert tt == ['['] + inner;
    AppendAssoc(['['], inner, rest);
    TagAtOther(k, other, v, rest);
    StripSkipBracketFree('[', inner, rest, k);
    AppendAssoc(['['], inner, Strip(rest, k));
  }

  /** Stripping kind `k` from one well-formed piece followed by anything. */
  lemma StripPiece(p: Piece, rest: string, k: TagKind)
    requires PieceOK(p)
    ensures Strip(PieceText(p) + rest, k)
            == (if p.Tag? && p.kind == k then "" else PieceText(p)) + Strip(rest, k)
  {
    match p
    case Plain(t) =>
      StripBracketFree(t, rest, k);
    case Tag(kk, v) =>
      if kk == k {
        StripLeadingOwnTag(k, v, rest);
        assert "" + Strip(rest, k) == Strip(rest, k);
      } else {
        StripLeadingOtherTag(k, kk, v, rest);
      }
  }

  lemma {:induction false} WithoutWellFormed(ps: seq<Piece>, k: TagKind)
    requires WellFormed(ps)
    ensures WellFormed(Without(ps, k))
  {
    if ps != [] {
      WellFormedTail(ps);
      WithoutWellFormed(ps[1..], k);
      var w := Without(ps, k);
      var w' := Without(ps[1..], k);
      var head := if ps[0].Tag? && ps[0].kind == k then [] else [ps[0]];
      assert w == head + w';
      forall i | 0 <= i < |w| ensures PieceOK(w[i]) {
        if i < |head| {
          assert w[i] == ps[0];
        } else {
          assert w[i] == w'[i - |head|];
        }
      }
    }
  }

  /** Stripping the tags of kind `k` from a rendered activity removes exactly
      those tags and keeps every other piece verbatim. */
  lemma {:induction false} StripRender(ps: seq<Piece>, k: TagKind)
    requires WellFormed(ps)
    ensures Strip(Render(ps), k) == Render(Without(ps, k))
  {
    if ps != [] {
      WellFormedTail(ps);
      var rest := Render(ps[1..]);
      var w' := Without(ps[1..], k);
      StripRender(ps[1..], k);
      assert Strip(rest, k) == Render(w');
      assert Render(ps) == PieceText(ps[0]) + rest;
      StripPiece(ps[0], rest, k);
      if ps[0].Tag? && ps[0].kind == k {
        assert Without(ps, k) == [] + w';
        assert [] + w' == w';
      } else {
        assert Without(ps, k) == [ps[0]] + w';
        RenderCons(ps[0], w');
      }
    }
  }

  lemma {:induction false} FirstTagBracketFree(a: string, b: string, k: TagKind)
    requires '[' !in a
    ensures FirstTag(a + b, k) == FirstTag(b, k)
  {
    if a != [] {
      assert (a + b)[1..] == a[1..] + b;
      FirstTagBracketFree(a[1..], b, k);
    } else {
      assert a + b == b;
    }
  }

  lemma FirstTagNoBracket(a: string, k: TagKind)
    requires '[' !in a
    ensures FirstTag(a, k) == None
  {
    FirstTagBracketFree(a, [], k);
    assert a + [] == a;
  }

  lemma FirstTagPiece(p: Piece, rest: string, k: TagKind)
    requires PieceOK(p)
    ensures FirstTag(PieceText(p) + rest, k)
            == (if p.Tag? && p.kind == k then Some(p.value) else FirstTag(rest, k))
  {
    match p
    case Plain(t) =>
      FirstTagBracketFree(t, rest, k);
    case Tag(kk, v) =>
      var tt := TagText(kk, v);
      if kk == k {
        TagAtOwn(k, v, rest);
      } else {
        TagAtOther(k, kk, v, rest);
        assert (tt + rest)[1..] == tt[1..] + rest;
        assert tt[1..] == Keyword(kk) + ": " + v + "]";
        FirstTagBracketFree(tt[1..], rest, k);
      }
  }

  /** In a rendered activity the first match of kind `k` is the first tag of
      kind `k` among the pieces. */
  lemma {:induction false} FirstTagRender(ps: seq<Piece>, k: TagKind)
    requires WellFormed(ps)
    ensures FirstTag(Render(ps), k) == FirstValue(ps, k)
  {
    if ps != [] {
      WellFormedTail(ps);
      FirstTagRender(ps[1..], k);
      FirstTagPiece(ps[0], Render(ps[1..]), k);
    }
  }

  /** Removing the at-tags and then the time-tags leaves the free text. */
  lemma {:induction false} RenderWithoutTags(ps: seq<Piece>)
    ensures Render(Without(Without(ps, At), Time)) == PlainText(ps)
  {
    if ps != [] {
      RenderWithoutTags(ps[1..]);
      var w := Without(Without(ps[1..], At), Time);
      var p := ps[0];
      if p.Tag? && p.kind == At {
        assert Without(ps, At) == [] + Without(ps[1..], At);
        assert [] + Without(ps[1..], At) == Without(ps[1..], At);
      } else {
        var w1 := Without(ps[1..], At);
        assert Without(ps, At) == [p] + w1;
        assert ([p] + w1)[1..] == w1;
        if p.Tag? {
          assert Without([p] + w1, Time) == [] + w;
          assert [] + w == w;
        } else {
          assert Without([p] + w1, Time) == [p] + w;
          RenderCons(p, w);
        }
      }
    }
  }

  lemma {:induction false} PlainTextBracketFree(ps: seq<Piece>)
    requires WellFormed(ps)
    ensures '[' !in PlainText(ps)
  {
    if ps != [] {
      WellFormedTail(ps);
      PlainTextBracketFree(ps[1..]);
    }
  }

  lemma TrimBracketFree(s: string)
    requires '[' !in s
    ensures '[' !in Trim(s)
  {
    var r := Trim(s);
    var a := LeadingWhitespace(s);
    forall i | 0 <= i < |r| ensures r[i] != '[' {
      assert r[i] == s[a + i];
    }
  }

  /** Parsing an activity written in the tag grammar: the text is the
      trimmed free text, which holds no tag, and location and time are the
      values of the first at-tag and the first time-tag, wherever they
      stand. */
  lemma ParseRender(ps: seq<Piece>)
    requires WellFormed(ps)
    ensures Parse(Render(ps))
            == DayPlanActivity(Trim(PlainText(ps)), FirstValue(ps, At), FirstValue(ps, Time))
    ensures '[' !in Parse(Render(ps)).text
  {
    StripRender(ps, At);
    WithoutWellFormed(ps, At);
    StripRender(Without(ps, At), Time);
    RenderWithoutTags(ps);
    FirstTagRender(ps, At);
    FirstTagRender(ps, Time);
    PlainTextBracketFree(ps);
    TrimBracketFree(PlainText(ps));
  }

  /** A bracket-free string has no tag: it parses to its trimmed self. */
  lemma ParseBracketFree(t: string)
    requires '[' !in t
    ensures Parse(t) == DayPlanActivity(Trim(t), None, None)
  {
    StripBracketFree(t, [], At);
    StripBracketFree(t, [], Time);
    FirstTagBracketFree(t, [], At);
    FirstTagBracketFree(t, [], Time);
    assert t + [] == t;
  }

  /** Re-parsing a parsed text changes nothing when the text holds no `[`:
      tag removal is then complete. */
  lemma ReparseText(activity: string)
    requires '[' !in Parse(activity).text
    ensures Parse(Parse(activity).text) == DayPlanActivity(Parse(activity).text, None, None)
  {
    var t := Parse(activity).text;
    ParseBracketFree(t);
    TrimTrimmed(t);
  }

  /** `[at` followed by an at-tag with value `x` and then `: y]`. */
  function SplicedInput(x: string, y: string): string {
    "[at" + (TagText(At, x) + SplicedTail(y))
  }

  function SplicedTail(y: string): string {
    ": " + y + "]"
  }

  /** A string whose fourth character is `[` does not open an at-tag. */
  lemma NotOpenedAt(s: string)
    requires |s| > 3 && s[3] == '['
    ensures TagAt(s, At) == None
  {
  }

  lemma StripSkip(s: string, k: TagKind)
    requires s != [] && TagAt(s, k).None?
    ensures Strip(s, k) == [s[0]] + Strip(s[1..], k)
  {
  }

  lemma FirstTagSkip(s: string, k: TagKind)
    requires s != [] && TagAt(s, k).None?
    ensures FirstTag(s, k) == FirstTag(s[1..], k)
  {
  }

  /** Removing a leading tag of its own kind leaves what follows it when
      that holds no `[`. */
  lemma StripOwnTag(k: TagKind, v: string, tail: string)
    requires IsTagValue(v) && '[' !in tail
    ensures Strip(TagText(k, v) + tail, k) == tail
  {
    StripLeadingOwnTag(k, v, tail);
    StripNoBracket(tail, k);
  }

  /** `[at[` opens no at-tag. */
  lemma SplicedHead(t: string)
    requires |t| > 0 && t[0] == '['
    ensures TagAt("[at" + t, At) == None
    ensures ("[at" + t)[1..] == "at" + t
  {
    var s := "[at" + t;
    assert s[3] == '[';
    NotOpenedAt(s);
  }

  /** A character and a bracket-free fragment that open no tag are kept,
      and the own-kind tag after them is removed. */
  lemma StripSkipThenOwnTag(c: char, inner: string, k: TagKind, x: string, tail: string)
    requires TagAt([c] + (inner + (TagText(k, x) + tail)), k).None? && '[' !in inner
    requires IsTagValue(x) && '[' !in tail
    ensures Strip([c] + (inner + (TagText(k, x) + tail)), k) == [c] + (inner + tail)
  {
    StripSkipBracketFree(c, inner, TagText(k, x) + tail, k);
    StripOwnTag(k, x, tail);
  }

  lemma SplicedAtPass(x: string, tail: string)
    requires '[' !in x && IsTagValue(x) && '[' !in tail
    ensures Strip("[at" + (TagText(At, x) + tail), At) == "[at" + tail
  {
    var t := TagText(At, x) + tail;
    SplicedHead(t);
    assert "[at" + t == ['['] + ("at" + t);
    StripSkipThenOwnTag('[', "at", At, x, tail);
    assert ['['] + ("at" + tail) == "[at" + tail;
  }

  lemma SplicedTimePass(y: string)
    requires '[' !in y && IsTagValue(y)
    ensures Strip(TagText(At, y), Time) == TagText(At, y)
  {
    var u := TagText(At, y);
    StripLeadingOtherTag(Time, At, y, []);
    assert u + [] == u;
  }

  lemma SplicedLocation(x: string, tail: string)
    requires '[' !in x && IsTagValue(x)
    ensures FirstTag("[at" + (TagText(At, x) + tail), At) == Some(x)
  {
    var t := TagText(At, x) + tail;
    var s := "[at" + t;
    SplicedHead(t);
    FirstTagSkip(s, At);
    FirstTagBracketFree("at", t, At);
    TagAtOwn(At, x, tail);
  }

  /** What follows the `[` of an at-tag holds no `[`. */
  lemma AfterAtBracket(x: string, tail: string)
    requires '[' !in x && '[' !in tail
    ensures '[' !in (TagText(At, x) + tail)[1..]
  {
    var t := TagText(At, x) + tail;
    assert t[1..] == "at: " + x + "]" + tail;
  }

  lemma SplicedTime(x: string, tail: string)
    requires '[' !in x && '[' !in tail
    ensures FirstTag("[at" + (TagText(At, x) + tail), Time) == None
  {
    var t := TagText(At, x) + tail;
    var s := "[at" + t;
    assert s[1] == 'a';
    OpensTagFirstLetter(s, Time);
    FirstTagSkip(s, Time);
    assert s[1..] == "at" + t;
    FirstTagBracketFree("at", t, Time);
    TagAtOther(Time, At, x, tail);
    FirstTagSkip(t, Time);
    AfterAtBracket(x, tail);
    FirstTagNoBracket(t[1..], Time);
  }

  lemma SplicedText(x: string, y: string)
    requires '[' !in x && IsTagValue(x)
    requires '[' !in y && IsTagValue(y)
    ensures Parse(SplicedInput(x, y)).text == TagText(At, y)
  {
    var tail := SplicedTail(y);
    var s := SplicedInput(x, y);
    var u := TagText(At, y);
    assert '[' !in tail;
    assert u == "[at" + tail;
    SplicedAtPass(x, tail);
    assert Strip(s, At) == u;
    SplicedTimePass(y);
    assert Strip(Strip(s, At), Time) == u;
    TrimTrimmed(u);
    assert Parse(s).text == u;
  }

  /** Tag removal is a single left-to-right pass, so removing one tag can
      join two fragments into a new one: `[at[at: x]: y]` parses to the text
      `[at: y]`, which is itself an at-tag. */
  lemma SplicedTagSurvives(x: string, y: string)
    requires '[' !in x && IsTagValue(x)
    requires '[' !in y && IsTagValue(y)
    ensures Parse(SplicedInput(x, y)) == DayPlanActivity(TagText(At, y), Some(x), None)
    ensures TagAt(Parse(SplicedInput(x, y)).text, At) == Some(y)
  {
    SplicedText(x, y);
    SplicedLocation(x, SplicedTail(y));
    SplicedTime(x, SplicedTail(y));
    TagAtOwn(At, y, []);
    assert TagText(At, y) + [] == TagText(At, y);
  }

  /* ---------------- Format and the round trip ---------------- */

  /** The pieces `Format` writes: the text, then a space and an at-tag when
      the location is truthy, then a space and a time-tag when the time is
      truthy. */
  function FormatPieces(a: DayPlanActivity): seq<Piece> {
    [Plain(a.text)]
    + (if Truthy(a.location) then [Plain(" "), Tag(At, a.location.value)] else [])
    + (if Truthy(a.time) then [Plain(" "), Tag(Time, a.time.value)] else [])
  }

  lemma {:induction false} RenderAppendText(xs: seq<Piece>, ys: seq<Piece>)
    ensures Render(xs + ys) == Render(xs) + Render(ys)
  {
    if xs == [] {
      assert xs + ys == ys;
    } else {
      var zs := xs + ys;
      assert zs[0] == xs[0] && zs[1..] == xs[1..] + ys;
      RenderAppendText(xs[1..], ys);
      assert Render(zs) == PieceText(xs[0]) + (Render(xs[1..]) + Render(ys));
    }
  }

  lemma {:induction false} PlainTextAppend(xs: seq<Piece>, ys: seq<Piece>)
    ensures PlainText(xs + ys) == PlainText(xs) + PlainText(ys)
  {
    if xs == [] {
      assert xs + ys == ys;
    } else {
      var zs := xs + ys;
      assert zs[0] == xs[0] && zs[1..] == xs[1..] + ys;
      PlainTextAppend(xs[1..], ys);
    }
  }

  lemma {:induction false} FirstValueAppend(xs: seq<Piece>, ys: seq<Piece>, k: TagKind)
    ensures FirstValue(xs + ys, k) == (if FirstValue(xs, k).Some? then FirstValue(xs, k) else FirstValue(ys, k))
  {
    if xs == [] {
      assert xs + ys == ys;
    } else {
      var zs := xs + ys;
      assert zs[0] == xs[0] && zs[1..] == xs[1..] + ys;
      FirstValueAppend(xs[1..], ys, k);
    }
  }

  lemma RenderAppend(xs: seq<Piece>, ys: seq<Piece>)
    ensures Render(xs + ys) == Render(xs) + Render(ys)
    ensures PlainText(xs + ys) == PlainText(xs) + PlainText(ys)
    ensures FirstValue(xs + ys, At) == (if FirstValue(xs, At).Some? then FirstValue(xs, At) else FirstValue(ys, At))
    ensures FirstValue(xs + ys, Time) == (if FirstValue(xs, Time).Some? then FirstValue(xs, Time) else FirstValue(ys, Time))
  {
    RenderAppendText(xs, ys);
    PlainTextAppend(xs, ys);
    FirstValueAppend(xs, ys, At);
    FirstValueAppend(xs, ys, Time);
  }

  lemma RenderSingle(p: Piece)
    ensures Render([p]) == PieceText(p)
    ensures PlainText([p]) == (if p.Plain? then p.text else "")
    ensures FirstValue([p], At) == (if p.Tag? && p.kind == At then Some(p.value) else None)
    ensures FirstValue([p], Time) == (if p.Tag? && p.kind == Time then Some(p.value) else None)
  {
    assert [p][1..] == [];
  }

  lemma SpacedTag(k: TagKind, v: string)
    ensures Render([Plain(" "), Tag(k, v)]) == " " + TagText(k, v)
    ensures PlainText([Plain(" "), Tag(k, v)]) == " "
    ensures FirstValue([Plain(" "), Tag(k, v)], k) == Some(v)
    ensures k == At ==> FirstValue([Plain(" "), Tag(k, v)], Time) == None
    ensures k == Time ==> FirstValue([Plain(" "), Tag(k, v)], At) == None
  {
    RenderSingle(Plain(" "));
    RenderSingle(Tag(k, v));
    RenderAppend([Plain(" ")], [Tag(k, v)]);
    assert [Plain(" ")] + [Tag(k, v)] == [Plain(" "), Tag(k, v)];
  }

  /** The separating spaces `Format` writes before its tags. */
  function FormatSpaces(a: DayPlanActivity): string {
    (if Truthy(a.location) then " " else "") + (if Truthy(a.time) then " " else "")
  }

  lemma FormatRendersPieces(a: DayPlanActivity)
    ensures Format(a) == Render(FormatPieces(a))
    ensures PlainText(FormatPieces(a)) == a.text + FormatSpaces(a)
    ensures FirstValue(FormatPieces(a), At) == (if Truthy(a.location) then a.location else None)
    ensures FirstValue(FormatPieces(a), Time) == (if Truthy(a.time) then a.time else None)
  {
    var p0: seq<Piece> := [Plain(a.text)];
    var p1: seq<Piece> := if Truthy(a.location) then [Plain(" "), Tag(At, a.location.value)] else [];
    var p2: seq<Piece> := if Truthy(a.time) then [Plain(" "), Tag(Time, a.time.value)] else [];
    assert FormatPieces(a) == p0 + p1 + p2;
    RenderSingle(Plain(a.text));
    if Truthy(a.location) {
      SpacedTag(At, a.location.value);
    }
    if Truthy(a.time) {
      SpacedTag(Time, a.time.value);
    }
    RenderAppend(p0, p1);
    RenderAppend(p0 + p1, p2);
    assert PlainText(p0 + p1 + p2) == a.text + PlainText(p1) + PlainText(p2);
  }

  /** A structured activity `Format` can write without loss: trimmed text
      free of `[`, and a location and a time that are each absent or a
      non-empty tag value free of `[`. */
  predicate Encodable(a: DayPlanActivity) {
    && IsTrimmed(a.text) && '[' !in a.text
    && (a.location.None? || (a.location.value != "" && '[' !in a.location.value && IsTagValue(a.location.value)))
    && (a.time.None? || (a.time.value != "" && '[' !in a.time.value && IsTagValue(a.time.value)))
  }

  lemma FormatPiecesWellFormed(a: DayPlanActivity)
    requires Encodable(a)
    ensures WellFormed(FormatPieces(a))
  {
  }

  lemma FormatPiecesFields(a: DayPlanActivity)
    requires Encodable(a)
    ensures Trim(PlainText(FormatPieces(a))) == a.text
    ensures FirstValue(FormatPieces(a), At) == a.location
    ensures FirstValue(FormatPieces(a), Time) == a.time
  {
    FormatRendersPieces(a);
    assert AllWhitespace(FormatSpaces(a));
    TrimTrailingWhitespace(a.text, FormatSpaces(a));
  }

  /** Parsing what `Format` wrote gives back the structured activity. */
  lemma RoundTrip(a: DayPlanActivity)
    requires Encodable(a)
    ensures Parse(Format(a)) == a
  {
    var ps := FormatPieces(a);
    FormatPiecesWellFormed(a);
    ParseRender(ps);
    FormatPiecesFields(a);
    FormatRendersPieces(a);
  }

  /** `Format` drops a location or time that is the empty string: only the
      truthiness of each field matters. */
  lemma FormatIgnoresEmptyFields(a: DayPlanActivity)
    ensures Format(a) == Format(DayPlanActivity(a.text,
                                                if Truthy(a.location) then a.location else None,
                                                if Truthy(a.time) then a.time else None))
  {
  }

  /** `addLocationToActivity`: parse, overwrite the location, format. For a
      non-empty location free of brackets and line terminators the result
      parses to that location, with the text and the (truthy) time of the
      original activity. */
  function AddLocationToActivity(activity: string, location: string): (r: string)
    ensures var p := Parse(activity);
            && location != "" && '[' !in location && IsTagValue(location)
            && '[' !in p.text && (p.time.None? || '[' !in p.time.value)
            ==> Parse(r) == DayPlanActivity(p.text, Some(location), if Truthy(p.time) then p.time else None)
  {
    var p := Parse(activity);
    var r := Format(DayPlanActivity(p.text, Some(location), p.time));
    if location != "" && '[' !in location && IsTagValue(location)
       && '[' !in p.text && (p.time.None? || '[' !in p.time.value) then
      var a := DayPlanActivity(p.text, Some(location), if Truthy(p.time) then p.time else None);
      FormatIgnoresEmptyFields(DayPlanActivity(p.text, Some(location), p.time));
      RoundTrip(a);
      r
    else
      r
  }

  /** `updateLocationInActivity` runs the same steps as
      `addLocationToActivity`, so the two agree on every input. */
  function UpdateLocationInActivity(activity: string, newLocation: string): (r: string)
    ensures r == AddLocationToActivity(activity, newLocation)
  {
    var parsed := Parse(activity);
    Format(DayPlanActivity(parsed.text, Some(newLocation), parsed.time))
  }

  /* ---------------- Location inference and map entries ---------------- */

  /** Known landmarks per city, in the table's order. */
  const CityLandmarks: seq<(string, seq<string>)> := [
    ("Paris", ["Eiffel Tower", "Louvre", "Notre Dame", "Arc de Triomphe", "Montmartre",
               "Champs-Élysées", "Seine", "Sacré-Cœur", "Panthéon", "Musée d'Orsay",
               "Versailles", "Tuileries", "Pompidou", "Luxembourg Gardens"]),
    ("London", ["Big Ben", "Tower of London", "Buckingham Palace", "London Eye", "British Museum",
                "Westminster Abbey", "Hyde Park", "St. Paul's Cathedral", "Trafalgar Square",
                "Piccadilly Circus", "Covent Garden", "Tate Modern", "Thames"]),
    ("New York", ["Times Square", "Central Park", "Empire State Building", "Statue of Liberty",
                  "Brooklyn Bridge", "Broadway", "Fifth Avenue", "Museum of Modern Art", "MoMA",
                  "Grand Central", "Rockefeller Center", "Wall Street", "High Line"]),
    ("Tokyo", ["Tokyo Tower", "Shibuya", "Shinjuku", "Ginza", "Akihabara", "Imperial Palace",
               "Meiji Shrine", "Harajuku", "Asakusa", "Senso-ji", "Ueno Park", "Tokyo Skytree"]),
    ("Rome", ["Colosseum", "Vatican", "Trevi Fountain", "Pantheon", "Spanish Steps",
              "Roman Forum", "St. Peter's Basilica", "Sistine Chapel", "Piazza Navona"])
  ]

  /** The landmark lists of `cities`, one after the other. */
  function Flatten(cities: seq<(string, seq<string>)>): seq<string> {
    if cities == [] then [] else cities[0].1 + Flatten(cities[1..])
  }

  /** `haystack` (already lower-cased) contains the lower-cased landmark. */
  predicate Mentions(haystack: string, landmark: string) {
    Includes(haystack, ToLower(landmark))
  }

  /** The first of `landmarks` that the lower-cased text mentions. */
  function FirstMentioned(haystack: string, landmarks: seq<string>): (r: Option<string>)
    ensures r.Some? ==> exists i :: 0 <= i < |landmarks| && landmarks[i] == r.value
                                    && Mentions(haystack, landmarks[i])
                                    && forall j :: 0 <= j < i ==> !Mentions(haystack, landmarks[j])
    ensures r.None? ==> forall i :: 0 <= i < |landmarks| ==> !Mentions(haystack, landmarks[i])
  {
    if landmarks == [] then None
    else if Mentions(haystack, landmarks[0]) then Some(landmarks[0])
    else
      var r := FirstMentioned(haystack, landmarks[1..]);
      assert forall i :: 1 <= i < |landmarks| ==> landmarks[i] == landmarks[1..][i - 1];
      r
  }

  /** The gazetteer step of `extractPossibleLocation`: the first landmark, in
      city-then-list order, whose lower-cased form occurs in the lower-cased
      text. The trip's destination plays no part. */
  function GazetteerMatch(text: string): Option<string> {
    FirstMentioned(ToLower(text), Flatten(CityLandmarks))
  }

  /** `extractPossibleLocation`: the gazetteer first; `phraseRules` stands for
      the verb-phrase and landmark-type regular expressions tried after it. */
  function ExtractPossibleLocation(text: string, phraseRules: string -> Option<string>): (r: Option<string>)
    ensures GazetteerMatch(text).Some? ==> r == GazetteerMatch(text)
    ensures GazetteerMatch(text).None? ==> r == phraseRules(text)
  {
    match GazetteerMatch(text)
    case Some(landmark) => Some(landmark)
    case None => phraseRules(text)
  }

  /** The gazetteer scan as the source writes it, over any table: an outer
      loop over the cities and an inner loop over each city's landmarks,
      returning at the first hit. It finds the first mentioned landmark of
      the flattened table. */
  method ScanTable(text: string, cities: seq<(string, seq<string>)>) returns (r: Option<string>)
    ensures r == FirstMentioned(ToLower(text), Flatten(cities))
  {
    var lower := ToLower(text);
    var ci := 0;
    assert cities[0..] == cities;
    while ci < |cities|
      invariant 0 <= ci <= |cities|
      invariant FirstMentioned(lower, Flatten(cities)) == FirstMentioned(lower, Flatten(cities[ci..]))
    {
      var list := cities[ci].1;
      var later := Flatten(cities[ci + 1..]);
      FlattenCons(cities, ci);
      var li := 0;
      while li < |list|
        invariant 0 <= li <= |list|
        invariant FirstMentioned(lower, Flatten(cities)) == FirstMentioned(lower, list[li..] + later)
      {
        if Mentions(lower, list[li]) {
          FirstMentionedHead(lower, list, li, later);
          return Some(list[li]);
        }
        FirstMentionedHead(lower, list, li, later);
        li := li + 1;
      }
      assert list[li..] + later == later;
      ci := ci + 1;
    }
    return None;
  }

  lemma FlattenCons(cities: seq<(string, seq<string>)>, ci: nat)
    requires ci < |cities|
    ensures Flatten(cities[ci..]) == cities[ci].1[0..] + Flatten(cities[ci + 1..])
  {
    assert cities[ci..][1..] == cities[ci + 1..];
    assert cities[ci].1[0..] == cities[ci].1;
  }

  lemma FirstMentionedHead(lower: string, list: seq<string>, li: nat, later: seq<string>)
    requires li < |list|
    ensures Mentions(lower, list[li]) ==> FirstMentioned(lower, list[li..] + later) == Some(list[li])
    ensures !Mentions(lower, list[li]) ==>
              FirstMentioned(lower, list[li..] + later) == FirstMentioned(lower, list[li + 1..] + later)
  {
    var rest := list[li..] + later;
    assert rest[0] == list[li];
    assert rest[1..] == list[li + 1..] + later;
  }

  /** The gazetteer step of `extractPossibleLocation` over the landmark
      table. */
  method ScanGazetteer(text: string) returns (r: Option<string>)
    ensures r == GazetteerMatch(text)
  {
    r := ScanTable(text, CityLandmarks);
  }

  /** The map entry for the activity at position `i` of a day. */
  function ToMapActivity(activity: string, i: nat, phraseRules: string -> Option<string>): (r: MapActivity)
    ensures r.index == i + 1
    ensures r.title == Parse(activity).text && r.time == Parse(activity).time
    ensures Truthy(Parse(activity).location) ==>
              r.location == Parse(activity).location && !r.isAutoDetected
    ensures !Truthy(Parse(activity).location) ==>
              && r.location == ExtractPossibleLocation(Parse(activity).text, phraseRules)
              && (r.isAutoDetected <==> r.location.Some?)
  {
    var parsed := Parse(activity);
    var location := if Truthy(parsed.location) then parsed.location
                    else ExtractPossibleLocation(parsed.text, phraseRules);
    MapActivity(parsed.text, location, parsed.time, i + 1, !Truthy(parsed.location) && location.Some?)
  }

  /** `dayPlanToMapActivities`: one entry per activity, in order, numbered
      from 1, titled with the parsed text and carrying the parsed time. An
      explicit, non-empty at-tag gives the location; otherwise the inferred
      one does, and only then is the entry marked auto-detected. */
  function DayPlanToMapActivities(plan: DayPlan, phraseRules: string -> Option<string>): (r: seq<MapActivity>)
    ensures |r| == |plan.activities|
    ensures forall i :: 0 <= i < |r| ==>
              var p := Parse(plan.activities[i]);
              && r[i].index == i + 1
              && r[i].title == p.text
              && r[i].time == p.time
              && (Truthy(p.location) ==> r[i].location == p.location && !r[i].isAutoDetected)
              && (!Truthy(p.location) ==>
                    r[i].location == ExtractPossibleLocation(p.text, phraseRules)
                    && (r[i].isAutoDetected <==> r[i].location.Some?))
  {
    if |plan.activities| == 0 then []
    else seq(|plan.activities|, i requires 0 <= i < |plan.activities| =>
               ToMapActivity(plan.activities[i], i, phraseRules))
  }

  /** The first landmark of the table wins whatever surrounds it: for
      example `Visit the Eiffel Tower` is located at `Eiffel Tower`, whatever
      the later rules would say. */
  lemma EiffelTowerIsFound(p: string, q: string, phraseRules: string -> Option<string>)
    ensures ExtractPossibleLocation(p + "Eiffel Tower" + q, phraseRules) == Some("Eiffel Tower")
  {
    var lm := "Eiffel Tower";
    assert CityLandmarks[0].1[0] == lm;
    assert Flatten(CityLandmarks) == CityLandmarks[0].1 + Flatten(CityLandmarks[1..]);
    assert Flatten(CityLandmarks)[0] == lm;
    ToLowerAppend(p + lm, q);
    ToLowerAppend(p, lm);
    var lower := ToLower(p + lm + q);
    assert lower == ToLower(p) + ToLower(lm) + ToLower(q);
    assert OccursAt(lower, ToLower(lm), |ToLower(p)|);
    assert Mentions(lower, lm);
  }

  /** Setting the location of a timed activity keeps its text and time:
      for example `Relax [time: 3pm]` with `Beach Club` parses back to the
      text `Relax`, the location `Beach Club` and the time `3pm`. */
  lemma SetLocationOnTimedActivity(t: string, h: string, l: string)
    requires IsTrimmed(t) && '[' !in t
    requires h != "" && '[' !in h && IsTagValue(h)
    requires l != "" && '[' !in l && IsTagValue(l)
    ensures Parse(AddLocationToActivity(t + " " + TagText(Time, h), l))
            == DayPlanActivity(t, Some(l), Some(h))
  {
    var ps := [Plain(t + " "), Tag(Time, h)];
    RenderSingle(Tag(Time, h));
    assert ps[1..] == [Tag(Time, h)];
    assert Render(ps) == t + " " + TagText(Time, h);
    assert PlainText(ps) == t + " ";
    assert FirstValue(ps, At) == None;
    assert FirstValue(ps, Time) == Some(h);
    assert WellFormed(ps);
    ParseRender(ps);
    TrimTrailingWhitespace(t, " ");
  }

  /** For an activity written in the tag grammar whose first at-tag is
      non-empty, the map entry takes that tag's value and is not marked
      auto-detected, whatever the inference rules say. */
  lemma ExplicitLocationWins(ps: seq<Piece>, i: nat, phraseRules: string -> Option<string>)
    requires WellFormed(ps)
    requires FirstValue(ps, At).Some? && FirstValue(ps, At).value != ""
    ensures ToMapActivity(Render(ps), i, phraseRules).location == FirstValue(ps, At)
    ensures !ToMapActivity(Render(ps), i, phraseRules).isAutoDetected
    ensures ToMapActivity(Render(ps), i, phraseRules).title == Trim(PlainText(ps))
  {
    ParseRender(ps);
  }
}
