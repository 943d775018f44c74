/**
 * The HTML escaping `highlightCode` applies before highlighting: every '&' becomes
 * "&amp;", then every '<' becomes "&lt;", then every '>' becomes "&gt;", each pass a
 * global replacement over the whole text.
 */
module CodeBlock {
  import JsString

  /** `s.replace(/c/g, r)`: every occurrence of the character `c` replaced by `r`. */
  function ReplaceAll(s: string, c: char, r: string): (t: string)
    ensures c !in r ==> c !in t
    ensures |r| >= 1 ==> |t| >= |s|
  {
    if s == [] then [] else (if s[0] == c then r else [s[0]]) + ReplaceAll(s[1..], c, r)
  }

  lemma {:induction false} ReplaceAllAppend(a: string, b: string, c: char, r: string)
    ensures ReplaceAll(a + b, c, r) == ReplaceAll(a, c, r) + ReplaceAll(b, c, r)
  {
    if a == [] {
      assert a + b == b;
    } else {
      var head := if a[0] == c then r else [a[0]];
      assert (a + b)[0] == a[0] && (a + b)[1..] == a[1..] + b;
      ReplaceAllAppend(a[1..], b, c, r);
      JsString.Associative(head, ReplaceAll(a[1..], c, r), ReplaceAll(b, c, r));
    }
  }

  lemma {:induction false} ReplaceAllAbsent(s: string, c: char, r: string)
    requires c !in s
    ensures ReplaceAll(s, c, r) == s
  {
    if s != [] {
      ReplaceAllAbsent(s[1..], c, r);
    }
  }

  lemma ReplaceAllSingle(c: char, d: char, r: string)
    ensures ReplaceAll([c], d, r) == if c == d then r else [c]
  {
  }

  /** The three passes as the component chains them. */
  function EscapeHtml(code: string): (escaped: string)
    ensures '>' !in escaped
    ensures |escaped| >= |code|
  {
    ReplaceAll(ReplaceAll(ReplaceAll(code, '&', "&amp;"), '<', "&lt;"), '>', "&gt;")
  }

  /** The entity for one character: the reference, single-pass definition of escaping. */
  function EscapeChar(c: char): (e: string)
    ensures c != '&' && c != '<' && c != '>' ==> e == [c]
    ensures '<' !in e && '>' !in e
  {
    if c == '&' then "&amp;" else if c == '<' then "&lt;" else if c == '>' then "&gt;" else [c]
  }

  function EscapeEach(s: string): string
  {
    if s == [] then [] else EscapeChar(s[0]) + EscapeEach(s[1..])
  }

  /**
   * The chain of passes escapes each character on its own. Replacing '&' first is what
   * makes this hold: the '&' the later passes write is never replaced again.
   */
  lemma {:induction false} ChainIsCharByChar(code: string)
    ensures EscapeHtml(code) == EscapeEach(code)
  {
    if code != [] {
      var c, rest := code[0], code[1..];
      assert code == [c] + rest;
      EscapeDistributes([c], rest);
      EscapeSingle(c);
      ChainIsCharByChar(rest);
    }
  }

  /** On one character the chain of passes writes that character's entity. */
  lemma EscapeSingle(c: char)
    ensures EscapeHtml([c]) == EscapeChar(c)
  {
    if c == '&' {
      EscapeAmpersand(c);
    } else if c == '<' {
      LessThanEscapedOnce();
    } else {
      EscapeOther(c);
    }
  }

  lemma EscapeAmpersand(c: char)
    requires c == '&'
    ensures EscapeHtml([c]) == "&amp;"
  {
    var amp := ReplaceAll([c], '&', "&amp;");
    ReplaceAllSingle(c, '&', "&amp;");
    assert amp == "&amp;";
    assert '<' !in amp && '>' !in amp;
    var lt := ReplaceAll(amp, '<', "&lt;");
    ReplaceAllAbsent(amp, '<', "&lt;");
    assert lt == amp;
    ReplaceAllAbsent(lt, '>', "&gt;");
  }

  /** A lone "<" becomes exactly "&lt;", not "&amp;lt;". */
  lemma LessThanEscapedOnce()
    ensures EscapeHtml("<") == "&lt;"
  {
    ReplaceAllSingle('<', '&', "&amp;");
    ReplaceAllSingle('<', '<', "&lt;");
    ReplaceAllAbsent("&lt;", '>', "&gt;");
  }

  lemma EscapeOther(c: char)
    requires c != '&' && c != '<'
    ensures EscapeHtml([c]) == EscapeChar(c)
  {
    ReplaceAllSingle(c, '&', "&amp;");
    ReplaceAllSingle(c, '<', "&lt;");
    ReplaceAllSingle(c, '>', "&gt;");
  }

  lemma {:induction false} EscapeEachAppend(a: string, b: string)
    ensures EscapeEach(a + b) == EscapeEach(a) + EscapeEach(b)
  {
    if a == [] {
      assert a + b == b;
    } else {
      assert (a + b)[0] == a[0] && (a + b)[1..] == a[1..] + b;
      EscapeEachAppend(a[1..], b);
    }
  }

  lemma {:induction false} EscapeEachFacts(s: string)
    ensures '<' !in EscapeEach(s) && '>' !in EscapeEach(s)
    ensures |EscapeEach(s)| >= |s|
    ensures ('&' !in s && '<' !in s && '>' !in s) ==> EscapeEach(s) == s
  {
    if s != [] {
      EscapeEachFacts(s[1..]);
    }
  }

  /** The escaped text holds no '<' and no '>', and is at least as long as the code. */
  lemma NoAngleBrackets(code: string)
    ensures '<' !in EscapeHtml(code) && '>' !in EscapeHtml(code)
    ensures |EscapeHtml(code)| >= |code|
  {
    ChainIsCharByChar(code);
    EscapeEachFacts(code);
  }

  /** Text without '&', '<' and '>' is left as it is. */
  lemma NothingToEscape(code: string)
    requires '&' !in code && '<' !in code && '>' !in code
    ensures EscapeHtml(code) == code
  {
    ChainIsCharByChar(code);
    EscapeEachFacts(code);
  }

  /** Escaping two pieces and joining them is escaping the joined text. */
  lemma EscapeDistributes(a: string, b: string)
    ensures EscapeHtml(a + b) == EscapeHtml(a) + EscapeHtml(b)
  {
    ReplaceAllAppend(a, b, '&', "&amp;");
    var a1, b1 := ReplaceAll(a, '&', "&amp;"), ReplaceAll(b, '&', "&amp;");
    ReplaceAllAppend(a1, b1, '<', "&lt;");
    var a2, b2 := ReplaceAll(a1, '<', "&lt;"), ReplaceAll(b1, '<', "&lt;");
    ReplaceAllAppend(a2, b2, '>', "&gt;");
  }

  /** Reads the three entities back; any other character stands for itself. */
  function Unescape(s: string): string
  {
    if s == [] then []
    else if |s| >= 5 && s[..5] == "&amp;" then "&" + Unescape(s[5..])
    else if |s| >= 4 && s[..4] == "&lt;" then "<" + Unescape(s[4..])
    else if |s| >= 4 && s[..4] == "&gt;" then ">" + Unescape(s[4..])
    else [s[0]] + Unescape(s[1..])
  }

  /** Nothing is lost: the escaped text reads back as the original code. */
  lemma {:induction false} UnescapeEscape(code: string)
    ensures Unescape(EscapeHtml(code)) == code
  {
    ChainIsCharByChar(code);
    UnescapeEach(code);
  }

  lemma {:induction false} UnescapeEach(s: string)
    ensures Unescape(EscapeEach(s)) == s
  {
    if s != [] {
      UnescapeEntity(s[0], EscapeEach(s[1..]));
      UnescapeEach(s[1..]);
      assert [s[0]] + s[1..] == s;
    }
  }

  /** An entity, or a character that needs none, reads back as the one character. */
  lemma UnescapeEntity(c: char, rest: string)
    ensures Unescape(EscapeChar(c) + rest) == [c] + Unescape(rest)
  {
    if c == '&' {
      UnescapeAmp(rest);
    } else if c == '<' || c == '>' {
      UnescapeAngle(c, rest);
    } else {
      UnescapePlain(c, rest);
    }
  }

  lemma UnescapeAmp(rest: string)
    ensures Unescape("&amp;" + rest) == "&" + Unescape(rest)
  {
    var t := "&amp;" + rest;
    assert t[..5] == "&amp;" && t[5..] == rest;
  }

  /** "&lt;" and "&gt;" read back as '<' and '>'; the second letter tells them apart. */
  lemma UnescapeAngle(c: char, rest: string)
    requires c == '<' || c == '>'
    ensures Unescape(EscapeChar(c) + rest) == [c] + Unescape(rest)
  {
    var e := EscapeChar(c);
    var t := e + rest;
    assert |e| == 4 && t[1] == e[1] && e[1] == (if c == '<' then 'l' else 'g');
    assert t[..4] == e && t[4..] == rest;
  }

  lemma UnescapePlain(c: char, rest: string)
    requires c != '&'
    ensures Unescape([c] + rest) == [c] + Unescape(rest)
  {
    var t := [c] + rest;
    assert t[0] == c && t[1..] == rest;
  }
}
