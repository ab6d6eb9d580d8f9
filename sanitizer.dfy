/**
 * `sanitizeInput` of src/utils/api.js: the HTML escaper applied to every
 * free-text value a form sends. It chains six global replacements, `&`
 * first; this module proves the chain equal to a one-pass character map,
 * that no markup character survives, that the escaping can be undone, and
 * that it is not idempotent.
 */
module Sanitizer {
  import opened JsValues

  /** `s.replace(/c/g, rep)`: every occurrence of `c` replaced by `rep`. */
  function ReplaceAll(s: string, c: char, rep: string): (r: string)
    ensures c !in rep ==> c !in r
  {
    if s == [] then []
    else (if s[0] == c then rep else [s[0]]) + ReplaceAll(s[1..], c, rep)
  }

  /** The chain of six replacements, in the order the source applies them. */
  function SanitizeString(s: string): string
  {
    var amp := ReplaceAll(s, '&', "&amp;");
    var lt := ReplaceAll(amp, '<', "&lt;");
    var gt := ReplaceAll(lt, '>', "&gt;");
    var quot := ReplaceAll(gt, '"', "&quot;");
    var apos := ReplaceAll(quot, '\'', "&#x27;");
    ReplaceAll(apos, '/', "&#x2F;")
  }

  /** `sanitizeInput(v)`: strings are escaped, every other value is returned as it is. */
  function Sanitize(v: JsValue): (r: JsValue)
    ensures !v.JStr? ==> r == v
    ensures v.JStr? ==> r == JStr(Escape(v.s))
    ensures v.JStr? ==> r.JStr? && Unescape(r.s) == v.s && FreeOfMarkup(r.s)
  {
    match v
    case JStr(s) =>
      ChainIsSinglePass(s);
      UnescapeEscape(s);
      EscapeIsFreeOfMarkup(s);
      JStr(SanitizeString(s))
    case _ => v
  }

  /** The characters the sanitiser exists to remove. */
  predicate IsMarkup(c: char)
  {
    c == '<' || c == '>' || c == '"' || c == '\'' || c == '/'
  }

  predicate FreeOfMarkup(s: string)
  {
    forall i :: 0 <= i < |s| ==> !IsMarkup(s[i])
  }

  /** The entity one character is written as; other characters stand for themselves. */
  function EscapeChar(c: char): string
  {
    match c
    case '&' => "&amp;"
    case '<' => "&lt;"
    case '>' => "&gt;"
    case '"' => "&quot;"
    case '\'' => "&#x27;"
    case '/' => "&#x2F;"
    case _ => [c]
  }

  /** The one-pass reading: each character of `s`, left to right, replaced by its entity. */
  function Escape(s: string): string
  {
    if s == [] then [] else EscapeChar(s[0]) + Escape(s[1..])
  }

  /** Decoding of the six entities, reading left to right. */
  function Unescape(s: string): string
    decreases |s|
  {
    if s == [] then []
    else if "&amp;" <= s then "&" + Unescape(s[5..])
    else if "&lt;" <= s then "<" + Unescape(s[4..])
    else if "&gt;" <= s then ">" + Unescape(s[4..])
    else if "&quot;" <= s then "\"" + Unescape(s[6..])
    else if "&#x27;" <= s then "'" + Unescape(s[6..])
    else if "&#x2F;" <= s then "/" + Unescape(s[6..])
    else [s[0]] + Unescape(s[1..])
  }

  lemma {:induction false} ReplaceAllConcat(a: string, b: string, c: char, rep: string)
    ensures ReplaceAll(a + b, c, rep) == ReplaceAll(a, c, rep) + ReplaceAll(b, c, rep)
  {
    if a != [] {
      var head := if a[0] == c then rep else [a[0]];
      assert (a + b)[0] == a[0] && (a + b)[1..] == a[1..] + b;
      ReplaceAllConcat(a[1..], b, c, rep);
      assert ReplaceAll(a + b, c, rep) == head + (ReplaceAll(a[1..], c, rep) + ReplaceAll(b, c, rep));
    } else {
      assert a + b == b;
    }
  }

  lemma {:induction false} ReplaceAbsent(s: string, c: char, rep: string)
    requires c !in s
    ensures ReplaceAll(s, c, rep) == s
  {
    if s != [] {
      ReplaceAbsent(s[1..], c, rep);
      assert [s[0]] + s[1..] == s;
    }
  }

  lemma {:induction false} ReplaceOne(c: char, d: char, rep: string)
    ensures ReplaceAll([c], d, rep) == if c == d then rep else [c]
  {
    assert [c][1..] == [];
    assert rep + [] == rep && [c] + [] == [c];
  }

  /** The chain escapes `SanitizeString` distributes over concatenation. */
  lemma ChainConcat(a: string, b: string)
    ensures SanitizeString(a + b) == SanitizeString(a) + SanitizeString(b)
  {
    var a1, b1 := ReplaceAll(a, '&', "&amp;"), ReplaceAll(b, '&', "&amp;");
    ReplaceAllConcat(a, b, '&', "&amp;");
    var a2, b2 := ReplaceAll(a1, '<', "&lt;"), ReplaceAll(b1, '<', "&lt;");
    ReplaceAllConcat(a1, b1, '<', "&lt;");
    var a3, b3 := ReplaceAll(a2, '>', "&gt;"), ReplaceAll(b2, '>', "&gt;");
    ReplaceAllConcat(a2, b2, '>', "&gt;");
    var a4, b4 := ReplaceAll(a3, '"', "&quot;"), ReplaceAll(b3, '"', "&quot;");
    ReplaceAllConcat(a3, b3, '"', "&quot;");
    var a5, b5 := ReplaceAll(a4, '\'', "&#x27;"), ReplaceAll(b4, '\'', "&#x27;");
    ReplaceAllConcat(a4, b4, '\'', "&#x27;");
    ReplaceAllConcat(a5, b5, '/', "&#x2F;");
  }

  /** A text none of whose characters is replaced later passes the rest of the chain unchanged. */
  lemma {:induction false} ChainTail(e: string, from: nat)
    requires from <= 6
    requires forall j :: from <= j < 6 ==> StepChar(j) !in e
    ensures Steps(e, from) == e
    decreases 6 - from
  {
    if from < 6 {
      ReplaceAbsent(e, StepChar(from), StepEntity(from));
      ChainTail(e, from + 1);
    }
  }

  /** Step `k`'s entity is the character's entity, and holds no character a later step replaces. */
  lemma StepEntityFacts(k: nat)
    requires k < 6
    ensures EscapeChar(StepChar(k)) == StepEntity(k)
    ensures forall j :: k < j < 6 ==> StepChar(j) !in StepEntity(k)
  {
  }

  /** The character step `k` (0 to 5) of the chain replaces, and its entity. */
  function StepChar(k: nat): char
    requires k < 6
  {
    ['&', '<', '>', '"', '\'', '/'][k]
  }

  function StepEntity(k: nat): string
    requires k < 6
  {
    ["&amp;", "&lt;", "&gt;", "&quot;", "&#x27;", "&#x2F;"][k]
  }

  /** Steps `from` to 5 of the chain applied to `s`. */
  function Steps(s: string, from: nat): string
    requires from <= 6
    decreases 6 - from
  {
    if from == 6 then s else Steps(ReplaceAll(s, StepChar(from), StepEntity(from)), from + 1)
  }

  lemma ChainIsSteps(s: string)
    ensures SanitizeString(s) == Steps(s, 0)
  {
  }

  /** On one character, the steps from `from` on yield its entity once that step is reached. */
  lemma {:induction false} StepsOnChar(c: char, from: nat)
    requires from <= 6
    requires forall k :: 0 <= k < from ==> StepChar(k) != c
    ensures Steps([c], from) == EscapeChar(c)
    decreases 6 - from
  {
    if from == 6 {
      assert StepChar(0) != c && StepChar(1) != c && StepChar(2) != c;
      assert StepChar(3) != c && StepChar(4) != c && StepChar(5) != c;
    } else {
      ReplaceOne(c, StepChar(from), StepEntity(from));
      if StepChar(from) == c {
        StepEntityFacts(from);
        ChainTail(StepEntity(from), from + 1);
      } else {
        StepsOnChar(c, from + 1);
      }
    }
  }

  /**
   * On one character the chain yields that character's entity: `&` goes
   * first, and no entity contains a character a later step replaces.
   */
  lemma ChainOnChar(c: char)
    ensures SanitizeString([c]) == EscapeChar(c)
  {
    ChainIsSteps([c]);
    StepsOnChar(c, 0);
  }

  /** The six-step chain equals the one-pass character map. */
  lemma {:induction false} ChainIsSinglePass(s: string)
    ensures SanitizeString(s) == Escape(s)
  {
    if s == [] {
      assert SanitizeString(s) == [];
    } else {
      assert s == [s[0]] + s[1..];
      ChainConcat([s[0]], s[1..]);
      ChainOnChar(s[0]);
      ChainIsSinglePass(s[1..]);
    }
  }

  /** No markup character survives escaping. */
  lemma {:induction false} EscapeIsFreeOfMarkup(s: string)
    ensures FreeOfMarkup(Escape(s))
  {
    if s != [] {
      EscapeIsFreeOfMarkup(s[1..]);
      var e, rest := EscapeChar(s[0]), Escape(s[1..]);
      assert FreeOfMarkup(e);
      forall i | 0 <= i < |e + rest|
        ensures !IsMarkup((e + rest)[i])
      {
        if i >= |e| {
          assert (e + rest)[i] == rest[i - |e|];
        }
      }
    }
  }

  /** Decoding one entity and then the rest. */
  lemma UnescapeStep(c: char, rest: string)
    ensures Unescape(EscapeChar(c) + rest) == [c] + Unescape(rest)
  {
    var t := EscapeChar(c) + rest;
    if c == '&' {
      assert "&amp;" <= t && t[5..] == rest;
    } else if c == '<' {
      assert t[1] == 'l' && !("&amp;" <= t);
      assert "&lt;" <= t && t[4..] == rest;
    } else if c == '>' {
      assert t[1] == 'g' && !("&amp;" <= t) && !("&lt;" <= t);
      assert "&gt;" <= t && t[4..] == rest;
    } else if c == '"' {
      assert t[1] == 'q' && !("&amp;" <= t) && !("&lt;" <= t) && !("&gt;" <= t);
      assert "&quot;" <= t && t[6..] == rest;
    } else if c == '\'' {
      assert t[1] == '#' && t[4] == '7';
      assert !("&amp;" <= t) && !("&lt;" <= t) && !("&gt;" <= t) && !("&quot;" <= t);
      assert "&#x27;" <= t && t[6..] == rest;
    } else if c == '/' {
      assert t[1] == '#' && t[4] == 'F';
      assert !("&amp;" <= t) && !("&lt;" <= t) && !("&gt;" <= t) && !("&quot;" <= t) && !("&#x27;" <= t);
      assert "&#x2F;" <= t && t[6..] == rest;
    } else {
      assert t[0] == c && t[1..] == rest;
    }
  }

  /** Escaping loses nothing: decoding the entities gives back the original text. */
  lemma {:induction false} UnescapeEscape(s: string)
    ensures Unescape(Escape(s)) == s
  {
    if s != [] {
      UnescapeStep(s[0], Escape(s[1..]));
      UnescapeEscape(s[1..]);
      assert [s[0]] + s[1..] == s;
    }
  }

  /** Sanitising is not idempotent: a second pass escapes the ampersands of the first. */
  lemma NotIdempotent()
    ensures Sanitize(JStr("<")) == JStr("&lt;")
    ensures Sanitize(Sanitize(JStr("<"))) == JStr("&amp;lt;")
  {
    assert Escape("<") == "&lt;" by {
      assert "<"[1..] == [];
    }
    assert Escape("&lt;") == "&amp;lt;" by {
      assert "&lt;"[1..] == "lt;" && "lt;"[1..] == "t;" && "t;"[1..] == ";" && ";"[1..] == [];
    }
  }

  lemma {:induction false} EscapeConcat(a: string, b: string)
    ensures Escape(a + b) == Escape(a) + Escape(b)
  {
    if a != [] {
      assert (a + b)[1..] == a[1..] + b;
      EscapeConcat(a[1..], b);
    } else {
      assert a + b == b;
    }
  }

  /** Text with no character the sanitiser replaces. */
  predicate Plain(s: string)
  {
    forall i :: 0 <= i < |s| ==> !IsMarkup(s[i]) && s[i] != '&'
  }

  /** Plain text is left as it is. */
  lemma {:induction false} EscapePlain(s: string)
    requires Plain(s)
    ensures Escape(s) == s
  {
    if s != [] {
      EscapePlain(s[1..]);
      assert EscapeChar(s[0]) == [s[0]];
    }
  }

  lemma EscapeOne(c: char)
    ensures Escape([c]) == EscapeChar(c)
  {
    assert [c][1..] == [];
    assert EscapeChar(c) + [] == EscapeChar(c);
  }

  lemma EscapeThree(a: string, b: string, c: string)
    ensures Escape(a + b + c) == Escape(a) + Escape(b) + Escape(c)
  {
    EscapeConcat(a, b);
    EscapeConcat(a + b, c);
  }

  lemma EscapeCons(c: char, rest: string)
    ensures Escape([c] + rest) == EscapeChar(c) + Escape(rest)
  {
    assert ([c] + rest)[1..] == rest;
  }

  /** Plain text before a closing bracket. */
  lemma EscapeNameBracket(name: string)
    requires Plain(name)
    ensures Escape(name + ">") == name + "&gt;"
  {
    EscapePlain(name);
    EscapeOne('>');
    EscapeConcat(name, ">");
  }

  /** An opening tag loses both angle brackets. */
  lemma EscapeOpenTag(name: string)
    requires Plain(name)
    ensures Escape("<" + name + ">") == "&lt;" + name + "&gt;"
  {
    EscapeNameBracket(name);
    EscapeCons('<', name + ">");
    assert "<" + name + ">" == ['<'] + (name + ">");
  }

  /** A closing tag loses its angle brackets and its slash. */
  lemma EscapeCloseTag(name: string)
    requires Plain(name)
    ensures Escape("</" + name + ">") == "&lt;&#x2F;" + name + "&gt;"
  {
    EscapeNameBracket(name);
    var rest := ['/'] + (name + ">");
    EscapeCons('/', name + ">");
    assert Escape(rest) == "&#x2F;" + (name + "&gt;");
    EscapeCons('<', rest);
    assert "</" + name + ">" == ['<'] + rest;
    assert "&lt;&#x2F;" + name + "&gt;" == "&lt;" + ("&#x2F;" + (name + "&gt;"));
  }

  lemma EscapeBody()
    ensures Escape("a&b") == "a&amp;b"
  {
    EscapeOne('a');
    EscapeOne('&');
    EscapeOne('b');
    EscapeThree("a", "&", "b");
    assert "a&b" == "a" + "&" + "b";
  }

  lemma EscapeScriptOpen()
    ensures Escape("<script>") == "&lt;script&gt;"
  {
    var name := "script";
    assert Plain(name);
    EscapeOpenTag(name);
    assert "<script>" == "<" + name + ">";
    assert "&lt;script&gt;" == "&lt;" + name + "&gt;";
  }

  lemma EscapeScriptClose()
    ensures Escape("</script>") == "&lt;&#x2F;script&gt;"
  {
    var name := "script";
    assert Plain(name);
    EscapeCloseTag(name);
    assert "</script>" == "</" + name + ">";
    assert "&lt;&#x2F;script&gt;" == "&lt;&#x2F;" + name + "&gt;";
  }

  /** A closing tag keeps no slash: `/` is escaped too. */
  lemma ScriptTagExample()
    ensures Sanitize(JStr("<script>" + "a&b" + "</script>"))
         == JStr("&lt;script&gt;" + "a&amp;b" + "&lt;&#x2F;script&gt;")
  {
    EscapeScriptOpen();
    EscapeBody();
    EscapeScriptClose();
    EscapeThree("<script>", "a&b", "</script>");
  }
}
