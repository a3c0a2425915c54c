/**
 * apps/assistant/src/proactive/markdown-v2.ts, read back the way Telegram reads it (Bot API,
 * Formatting options, section "MarkdownV2 style"), and the dispatcher's `toPlain`.
 */
module MarkdownV2 {
  import opened Common

  /** The class of both regular expressions, `\` included. */
  predicate Special(c: char) {
    || c == '_' || c == '*' || c == '[' || c == ']' || c == '(' || c == ')' || c == '~' || c == '`'
    || c == '>' || c == '#' || c == '+' || c == '-' || c == '=' || c == '|' || c == '{' || c == '}'
    || c == '.' || c == '!' || c == '\\'
  }

  function EscapeMd(s: string): string {
    if s == "" then ""
    else (if Special(s[0]) then ['\\', s[0]] else [s[0]]) + EscapeMd(s[1..])
  }

  function Bold(s: string): string {
    "*" + EscapeMd(s) + "*"
  }

  // ------------------------------------------------------------------ how Telegram reads a message

  /** One visible character. */
  datatype Glyph = Glyph(shape: char, bold: bool)

  datatype Scan = Malformed | Scanned(glyphs: seq<Glyph>, bold: bool) {
    function After(before: seq<Glyph>): Scan {
      if Malformed? then Malformed else Scanned(before + glyphs, bold)
    }
  }

  /**
   * Reads `md` with bold on or off: `\` makes the special character after it an ordinary one,
   * `*` turns bold on and off, and any other special character is an error.
   */
  function ScanFrom(md: string, bold: bool): Scan {
    if md == "" then Scanned([], bold)
    else if md[0] == '\\' then
      if |md| >= 2 && Special(md[1]) then ScanFrom(md[2..], bold).After([Glyph(md[1], bold)]) else Malformed
    else if md[0] == '*' then ScanFrom(md[1..], !bold)
    else if Special(md[0]) then Malformed
    else ScanFrom(md[1..], bold).After([Glyph(md[0], bold)])
  }

  /** `md` is well formed, with every bold span closed, and shows exactly `glyphs`. */
  predicate Reads(md: string, glyphs: seq<Glyph>) {
    ScanFrom(md, false) == Scanned(glyphs, false)
  }

  function Styled(s: string, bold: bool): seq<Glyph> {
    seq(|s|, i requires 0 <= i < |s| => Glyph(s[i], bold))
  }

  function Plain(s: string): seq<Glyph> { Styled(s, false) }

  function Strong(s: string): seq<Glyph> { Styled(s, true) }

  /** The visible characters without their style. */
  function Text(glyphs: seq<Glyph>): string {
    seq(|glyphs|, i requires 0 <= i < |glyphs| => glyphs[i].shape)
  }

  lemma {:induction false} ScanAppend(a: string, b: string, bold: bool)
    requires ScanFrom(a, bold).Scanned?
    ensures ScanFrom(a + b, bold) == ScanFrom(b, ScanFrom(a, bold).bold).After(ScanFrom(a, bold).glyphs)
  {
    if a == "" {
      assert a + b == b;
      assert forall g: seq<Glyph> :: [] + g == g;
    } else if a[0] == '\\' {
      assert (a + b)[2..] == a[2..] + b;
      ScanAppend(a[2..], b, bold);
      AfterAfter([Glyph(a[1], bold)], ScanFrom(a[2..], bold).glyphs, ScanFrom(b, ScanFrom(a, bold).bold));
    } else {
      assert (a + b)[1..] == a[1..] + b;
      ScanAppend(a[1..], b, if a[0] == '*' then !bold else bold);
      if a[0] != '*' {
        AfterAfter([Glyph(a[0], bold)], ScanFrom(a[1..], bold).glyphs, ScanFrom(b, ScanFrom(a, bold).bold));
      }
    }
  }

  lemma AfterAfter(x: seq<Glyph>, y: seq<Glyph>, r: Scan)
    ensures r.After(y).After(x) == r.After(x + y)
  {
    if r.Scanned? { assert x + (y + r.glyphs) == (x + y) + r.glyphs; }
  }

  lemma ReadsAppend(a: string, x: seq<Glyph>, b: string, y: seq<Glyph>)
    requires Reads(a, x) && Reads(b, y)
    ensures Reads(a + b, x + y)
  {
    ScanAppend(a, b, false);
  }

  // ------------------------------------------------------------------ what the two helpers write

  /** Escaped text shows itself, in whatever style surrounds it. */
  lemma {:induction false} EscapedShowsItself(s: string, bold: bool)
    ensures ScanFrom(EscapeMd(s), bold) == Scanned(Styled(s, bold), bold)
  {
    if s == "" {
    } else {
      var rest := EscapeMd(s[1..]);
      EscapedShowsItself(s[1..], bold);
      assert Styled(s, bold) == [Glyph(s[0], bold)] + Styled(s[1..], bold);
      if Special(s[0]) {
        assert (['\\', s[0]] + rest)[2..] == rest;
      } else {
        assert ([s[0]] + rest)[1..] == rest;
      }
    }
  }

  lemma EscapedReads(s: string)
    ensures Reads(EscapeMd(s), Plain(s))
  {
    EscapedShowsItself(s, false);
  }

  /** A bold text shows itself, all of it bold, and leaves bold off. */
  lemma BoldReads(s: string)
    ensures Reads(Bold(s), Strong(s))
  {
    var inner := EscapeMd(s);
    EscapedShowsItself(s, true);
    ScanAppend(inner, "*", true);
    assert ("*" + inner + "*")[1..] == inner + "*";
    assert "*"[1..] == "";
    assert Strong(s) + [] == Strong(s);
  }

  lemma {:induction false} NeverLonger(md: string, bold: bool)
    requires ScanFrom(md, bold).Scanned?
    ensures |ScanFrom(md, bold).glyphs| <= |md|
    ensures |ScanFrom(md, bold).glyphs| == |md| ==> forall i :: 0 <= i < |md| ==> !Special(md[i])
  {
    if md == "" {
    } else {
      if md[0] == '\\' {
        NeverLonger(md[2..], bold);
      } else {
        NeverLonger(md[1..], if md[0] == '*' then !bold else bold);
        assert forall i :: 1 <= i < |md| ==> md[i] == md[1..][i - 1];
      }
    }
  }

  lemma {:induction false} NothingToEscape(s: string)
    requires forall i :: 0 <= i < |s| ==> !Special(s[i])
    ensures EscapeMd(s) == s
  {
    if s == "" {
    } else {
      NothingToEscape(s[1..]);
      assert s == [s[0]] + s[1..];
    }
  }

  lemma PlainShowsItself(s: string)
    requires forall i :: 0 <= i < |s| ==> !Special(s[i])
    ensures Reads(s, Plain(s))
  {
    NothingToEscape(s);
    EscapedReads(s);
  }

  /** The character class is exact: unescaped text shows itself precisely when it holds none of it. */
  lemma UnescapedShowsItselfIff(s: string)
    ensures Reads(s, Plain(s)) <==> forall i :: 0 <= i < |s| ==> s[i] !in "_*[]()~`>#+-=|{}.!\\"
  {
    assert forall c :: Special(c) <==> c in "_*[]()~`>#+-=|{}.!\\";
    if Reads(s, Plain(s)) { NeverLonger(s, false); }
    if forall i :: 0 <= i < |s| ==> !Special(s[i]) { PlainShowsItself(s); }
  }

  // ------------------------------------------------------------------ the plain-text fallback

  /** `.replace(/\\([…])/g, '$1')`: left to right, without overlap. */
  function Unescape(md: string): string {
    if md == "" then ""
    else if md[0] == '\\' && |md| >= 2 && Special(md[1]) then [md[1]] + Unescape(md[2..])
    else [md[0]] + Unescape(md[1..])
  }

  predicate Markup(c: char) { c == '*' || c == '_' || c == '`' }

  /** `.replace(/[*_`]/g, '')` */
  function Strip(s: string): string {
    if s == "" then ""
    else (if Markup(s[0]) then "" else [s[0]]) + Strip(s[1..])
  }

  function ToPlain(md: string): string {
    Strip(Unescape(md))
  }

  lemma {:induction false} StripPrefix(c: char, s: string)
    ensures Strip([c] + s) == (if Markup(c) then "" else [c]) + Strip(s)
  {
    assert ([c] + s)[1..] == s;
  }

  lemma {:induction false} StripIsFilter(s: string, keep: char -> bool)
    requires forall c :: keep(c) <==> c != '*' && c != '_' && c != '`'
    ensures Strip(s) == Filter(keep, s)
  {
    if s == "" {
    } else {
      StripIsFilter(s[1..], keep);
    }
  }

  /** Of any well-formed message the fallback keeps the visible text, less `*`, `_` and backtick. */
  lemma FallbackOf(md: string, bold: bool, keep: char -> bool)
    requires ScanFrom(md, bold).Scanned?
    requires forall c :: keep(c) <==> c != '*' && c != '_' && c != '`'
    ensures ToPlain(md) == Filter(keep, Text(ScanFrom(md, bold).glyphs))
  {
    FallbackStrips(md, bold);
    StripIsFilter(Text(ScanFrom(md, bold).glyphs), keep);
  }

  lemma {:induction false} FallbackStrips(md: string, bold: bool)
    requires ScanFrom(md, bold).Scanned?
    ensures ToPlain(md) == Strip(Text(ScanFrom(md, bold).glyphs))
  {
    if md == "" {
      assert Text([]) == "";
    } else if md[0] == '*' {
      FallbackStrips(md[1..], !bold);
      StripPrefix('*', Unescape(md[1..]));
    } else {
      var c, rest := if md[0] == '\\' then md[1] else md[0], if md[0] == '\\' then md[2..] else md[1..];
      var glyphs := ScanFrom(rest, bold).glyphs;
      FallbackStrips(rest, bold);
      StripPrefix(c, Unescape(rest));
      StripPrefix(c, Text(glyphs));
      assert Text([Glyph(c, bold)] + glyphs) == [c] + Text(glyphs);
    }
  }

  lemma {:induction false} StripKeepsIff(s: string)
    ensures |Strip(s)| <= |s|
    ensures Strip(s) == s <==> forall i :: 0 <= i < |s| ==> !Markup(s[i])
  {
    if s == "" {
    } else {
      StripKeepsIff(s[1..]);
      assert s == [s[0]] + s[1..];
      if !Markup(s[0]) { assert Strip(s)[1..] == Strip(s[1..]); }
    }
  }

  /**
   * The fallback of a well-formed message: the visible text less its markup characters, and so
   * the visible text itself exactly when there are none in it.
   */
  lemma FallbackIsExactIff(md: string, glyphs: seq<Glyph>)
    requires Reads(md, glyphs)
    ensures ToPlain(md) == Strip(Text(glyphs))
    ensures ToPlain(md) == Text(glyphs) <==>
            forall i :: 0 <= i < |glyphs| ==> glyphs[i].shape != '*' && glyphs[i].shape != '_' && glyphs[i].shape != '`'
  {
    FallbackStrips(md, false);
    StripKeepsIff(Text(glyphs));
    assert forall i :: 0 <= i < |glyphs| ==> Text(glyphs)[i] == glyphs[i].shape;
  }

  /** On escaped text the fallback undoes `EscapeMd` exactly when nothing of it is markup. */
  lemma EscapeIsUndoneIff(s: string)
    ensures ToPlain(EscapeMd(s)) == s <==> forall i :: 0 <= i < |s| ==> s[i] != '*' && s[i] != '_' && s[i] != '`'
  {
    EscapedReads(s);
    FallbackIsExactIff(EscapeMd(s), Plain(s));
    assert Text(Plain(s)) == s;
  }
}
