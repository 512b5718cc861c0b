/** The speech-markup document sent to the Edge TTS endpoint: escaping of the five XML
    metacharacters and the fixed `<speak>` wrapper. */
module Ssml {
  import opened Text

  /** `s.replace(/c/g, rep)`: every occurrence of the character `c` becomes `rep`. */
  function ReplaceAll(s: string, c: char, rep: string): (r: string)
    ensures c !in s ==> r == s
    ensures c !in rep ==> c !in r
  {
    if s == [] then []
    else (if s[0] == c then rep else [s[0]]) + ReplaceAll(s[1..], c, rep)
  }

  /** The five-step replace chain of `escapeSSML`, in source order (`&` first). */
  function EscapeSsml(text: string): string
  {
    ReplaceAll(ReplaceAll(ReplaceAll(ReplaceAll(ReplaceAll(
      text, '&', "&amp;"), '<', "&lt;"), '>', "&gt;"), '"', "&quot;"), '\'', "&apos;")
  }

  predicate IsMeta(c: char)
  {
    c == '&' || c == '<' || c == '>' || c == '"' || c == '\''
  }

  /** The entity each metacharacter stands for; other characters stand for themselves. */
  function EscapeChar(c: char): string
  {
    match c
    case '&' => "&amp;"
    case '<' => "&lt;"
    case '>' => "&gt;"
    case '"' => "&quot;"
    case '\'' => "&apos;"
    case _ => [c]
  }

  /** Reference definition: substitute each character independently. */
  function EscapeEach(s: string): string
  {
    if s == [] then [] else EscapeChar(s[0]) + EscapeEach(s[1..])
  }

  /** One of the five entities starts at position `i` of `r`. */
  predicate EntityAt(r: string, i: nat)
    requires i <= |r|
  {
    "&amp;" <= r[i..] || "&lt;" <= r[i..] || "&gt;" <= r[i..] || "&quot;" <= r[i..] || "&apos;" <= r[i..]
  }

  /** No raw `<`, `>`, `"` or `'` remains, and every `&` begins an entity. */
  predicate WellEscaped(r: string)
  {
    forall i :: 0 <= i < |r| ==> !(r[i] == '<' || r[i] == '>' || r[i] == '"' || r[i] == '\'')
                                  && (r[i] == '&' ==> EntityAt(r, i))
  }

  /** Decodes the five entities, scanning left to right. */
  function Unescape(s: string): string
    decreases |s|
  {
    if s == [] then []
    else if "&amp;" <= s then "&" + Unescape(s[5..])
    else if "&lt;" <= s then "<" + Unescape(s[4..])
    else if "&gt;" <= s then ">" + Unescape(s[4..])
    else if "&quot;" <= s then "\"" + Unescape(s[6..])
    else if "&apos;" <= s then "'" + Unescape(s[6..])
    else [s[0]] + Unescape(s[1..])
  }

  lemma {:induction false} ReplaceAllAppend(a: string, b: string, c: char, rep: string)
    ensures ReplaceAll(a + b, c, rep) == ReplaceAll(a, c, rep) + ReplaceAll(b, c, rep)
    decreases |a|
  {
    if a == [] {
      assert a + b == b;
    } else {
      assert (a + b)[1..] == a[1..] + b;
      ReplaceAllAppend(a[1..], b, c, rep);
    }
  }

  lemma EscapeAppend(a: string, b: string)
    ensures EscapeSsml(a + b) == EscapeSsml(a) + EscapeSsml(b)
  {
    var s1a, s1b := ReplaceAll(a, '&', "&amp;"), ReplaceAll(b, '&', "&amp;");
    ReplaceAllAppend(a, b, '&', "&amp;");
    var s2a, s2b := ReplaceAll(s1a, '<', "&lt;"), ReplaceAll(s1b, '<', "&lt;");
    ReplaceAllAppend(s1a, s1b, '<', "&lt;");
    var s3a, s3b := ReplaceAll(s2a, '>', "&gt;"), ReplaceAll(s2b, '>', "&gt;");
    ReplaceAllAppend(s2a, s2b, '>', "&gt;");
    var s4a, s4b := ReplaceAll(s3a, '"', "&quot;"), ReplaceAll(s3b, '"', "&quot;");
    ReplaceAllAppend(s3a, s3b, '"', "&quot;");
    ReplaceAllAppend(s4a, s4b, '\'', "&apos;");
  }

  /** On a single character the chain produces exactly that character's entity: no entity
      introduced by an earlier step contains a character a later step replaces. */
  lemma ReplaceAllOne(d: char, c: char, rep: string)
    ensures ReplaceAll([d], c, rep) == if d == c then rep else [d]
  {
    assert [d][1..] == [];
  }

  lemma EscapeOneChar(c: char)
    ensures EscapeSsml([c]) == EscapeChar(c)
  {
    ReplaceAllOne(c, '&', "&amp;");
    var s1 := ReplaceAll([c], '&', "&amp;");
    if c == '&' {
      assert s1 == "&amp;";
      assert '<' !in s1 && '>' !in s1 && '"' !in s1 && '\'' !in s1;
    } else {
      ReplaceAllOne(c, '<', "&lt;");
      var s2 := ReplaceAll(s1, '<', "&lt;");
      if c == '<' {
        assert s2 == "&lt;";
        assert '>' !in s2 && '"' !in s2 && '\'' !in s2;
      } else {
        ReplaceAllOne(c, '>', "&gt;");
        var s3 := ReplaceAll(s2, '>', "&gt;");
        if c == '>' {
          assert s3 == "&gt;";
          assert '"' !in s3 && '\'' !in s3;
        } else {
          ReplaceAllOne(c, '"', "&quot;");
          var s4 := ReplaceAll(s3, '"', "&quot;");
          ReplaceAllOne(c, '\'', "&apos;");
          if c == '"' {
            assert s4 == "&quot;";
            assert '\'' !in s4;
          }
        }
      }
    }
  }

  /** The sequential replace chain equals per-character substitution. */
  lemma {:induction false} EscapeIsPerChar(s: string)
    ensures EscapeSsml(s) == EscapeEach(s)
    decreases |s|
  {
    if s != [] {
      assert s == [s[0]] + s[1..];
      EscapeAppend([s[0]], s[1..]);
      EscapeOneChar(s[0]);
      EscapeIsPerChar(s[1..]);
    }
  }

  lemma EntityAtAppend(a: string, b: string, i: nat)
    requires i < |a| && EntityAt(a, i)
    ensures EntityAt(a + b, i)
  {
    assert (a + b)[i..] == a[i..] + b;
  }

  lemma WellEscapedAppend(a: string, b: string)
    requires WellEscaped(a) && WellEscaped(b)
    ensures WellEscaped(a + b)
  {
    var r := a + b;
    forall i | 0 <= i < |r|
      ensures !(r[i] == '<' || r[i] == '>' || r[i] == '"' || r[i] == '\'')
      ensures r[i] == '&' ==> EntityAt(r, i)
    {
      if i < |a| {
        assert r[i] == a[i];
        if a[i] == '&' { EntityAtAppend(a, b, i); }
      } else {
        assert r[i] == b[i - |a|];
        assert r[i..] == b[i - |a|..];
      }
    }
  }

  lemma {:induction false} EscapeEachWellEscaped(s: string)
    ensures WellEscaped(EscapeEach(s))
    decreases |s|
  {
    if s != [] {
      var e := EscapeChar(s[0]);
      assert WellEscaped(e) by {
        if s[0] == '&' { assert e[0..] == e; }
        else if s[0] == '<' { assert e[0..] == e; }
        else if s[0] == '>' { assert e[0..] == e; }
        else if s[0] == '"' { assert e[0..] == e; }
        else if s[0] == '\'' { assert e[0..] == e; }
      }
      EscapeEachWellEscaped(s[1..]);
      WellEscapedAppend(e, EscapeEach(s[1..]));
    }
  }

  lemma UnescapeAmp(rest: string)
    ensures Unescape("&amp;" + rest) == "&" + Unescape(rest)
  {
    var e := "&amp;" + rest;
    assert "&amp;" <= e && e[5..] == rest;
  }

  lemma UnescapeLt(rest: string)
    ensures Unescape("&lt;" + rest) == "<" + Unescape(rest)
  {
    var e := "&lt;" + rest;
    assert e[1] == 'l';
    assert "&lt;" <= e && e[4..] == rest;
  }

  lemma UnescapeGt(rest: string)
    ensures Unescape("&gt;" + rest) == ">" + Unescape(rest)
  {
    var e := "&gt;" + rest;
    assert e[1] == 'g';
    assert "&gt;" <= e && e[4..] == rest;
  }

  lemma UnescapeQuot(rest: string)
    ensures Unescape("&quot;" + rest) == "\"" + Unescape(rest)
  {
    var e := "&quot;" + rest;
    assert e[1] == 'q';
    assert "&quot;" <= e && e[6..] == rest;
  }

  lemma UnescapeApos(rest: string)
    ensures Unescape("&apos;" + rest) == "'" + Unescape(rest)
  {
    var e := "&apos;" + rest;
    assert e[1] == 'a' && e[2] == 'p';
    assert "&apos;" <= e && e[6..] == rest;
  }

  lemma UnescapePlain(c: char, rest: string)
    requires c != '&'
    ensures Unescape([c] + rest) == [c] + Unescape(rest)
  {
    var e := [c] + rest;
    assert e[0] == c && e[1..] == rest;
  }

  lemma UnescapeStep(c: char, rest: string)
    ensures Unescape(EscapeChar(c) + rest) == [c] + Unescape(rest)
  {
    if c == '&' { UnescapeAmp(rest); }
    else if c == '<' { UnescapeLt(rest); }
    else if c == '>' { UnescapeGt(rest); }
    else if c == '"' { UnescapeQuot(rest); }
    else if c == '\'' { UnescapeApos(rest); }
    else { UnescapePlain(c, rest); }
  }

  lemma {:induction false} UnescapeEscapeEach(s: string)
    ensures Unescape(EscapeEach(s)) == s
    decreases |s|
  {
    if s != [] {
      UnescapeStep(s[0], EscapeEach(s[1..]));
      UnescapeEscapeEach(s[1..]);
      assert s == [s[0]] + s[1..];
    }
  }

  /** Escaping guarantee of `escapeSSML`: nothing raw survives, escaping can be undone, and a
      string free of metacharacters is returned unchanged. */
  lemma EscapeSsmlProperties(text: string)
    ensures WellEscaped(EscapeSsml(text))
    ensures Unescape(EscapeSsml(text)) == text
    ensures (forall i :: 0 <= i < |text| ==> !IsMeta(text[i])) ==> EscapeSsml(text) == text
  {
    EscapeIsPerChar(text);
    EscapeEachWellEscaped(text);
    UnescapeEscapeEach(text);
  }

  /** The opening tag of the document. */
  const SpeakHead: string := "<speak version='1.0' xml:lang='en-US'>"
  /** Text before the escaped payload, after `trim`. */
  const SpeakOpen: string := SpeakHead + "\n  <voice>\n    <speak>"
  /** Text after the escaped payload, after `trim`. */
  const SpeakClose: string := "</speak>\n  </voice>\n</speak>"

  lemma PaddingIsSpace()
    ensures AllSpace("\n") && AllSpace("\n    ")
  {
  }

  /** Trimming the template around any payload `e` gives exactly `SpeakOpen + e + SpeakClose`. */
  lemma WrapperTrim(e: string)
    ensures Trim("\n" + (SpeakOpen + e + SpeakClose) + "\n    ") == SpeakOpen + e + SpeakClose
  {
    var body := SpeakOpen + e + SpeakClose;
    assert body[0] == SpeakOpen[0] == '<';
    assert body[|body| - 1] == SpeakClose[|SpeakClose| - 1] == '>';
    PaddingIsSpace();
    TrimPadded("\n", body, "\n    ");
  }

  /** The wrapper starts with the opening tag, ends with `</speak>`, and `e` can be cut back out. */
  lemma WrapperShape(e: string)
    ensures (SpeakOpen + e + SpeakClose)[|SpeakOpen|..|SpeakOpen + e + SpeakClose| - |SpeakClose|] == e
    ensures SpeakHead <= SpeakOpen + e + SpeakClose
    ensures var b := SpeakOpen + e + SpeakClose; b[|b| - |"</speak>"|..] == "</speak>"
  {
    var body := SpeakOpen + e + SpeakClose;
    assert body[|body| - |"</speak>"|..] == SpeakClose[|SpeakClose| - |"</speak>"|..];
    assert SpeakHead <= SpeakOpen;
  }

  /** The template literal of `createSSML` around an already escaped payload, before `trim`. */
  function Template(e: string): string
  {
    "\n" + (SpeakOpen + e + SpeakClose) + "\n    "
  }

  /** `createSSML`: the template literal, including its leading newline and trailing indentation,
      then `trim`. */
  function CreateSsml(text: string): (r: string)
    ensures r == SpeakOpen + EscapeSsml(text) + SpeakClose
    ensures SpeakHead <= r
    ensures |r| >= |SpeakOpen| + |SpeakClose| && r[|r| - |"</speak>"|..] == "</speak>"
    ensures Unescape(r[|SpeakOpen|..|r| - |SpeakClose|]) == text
  {
    var e := EscapeSsml(text);
    WrapperTrim(e);
    WrapperShape(e);
    EscapeSsmlProperties(text);
    Trim(Template(e))
  }
}
