/** `escapeHTML` of the chat web client (examples/chat/webroot/chat.js):
    four global replacements applied one after the other, `&` first, then
    `>`, `<` and `"`. A `char` is one Unicode scalar value, so lengths here
    count characters rather than UTF-16 code units, and strings holding lone
    surrogates are outside the model. */
module HtmlEscape {

  /** `s.replace(/c/g, rep)`: every occurrence of `c`, left to right,
      replaced by `rep`. */
  function ReplaceAll(s: string, c: char, rep: string): (r: string)
    ensures c !in rep ==> c !in r
    ensures |rep| >= 1 ==> |r| >= |s|
    ensures c !in s ==> r == s
    decreases |s|
  {
    if s == [] then []
    else (if s[0] == c then rep else [s[0]]) + ReplaceAll(s[1..], c, rep)
  }

  /** Replacing in a concatenation is replacing in each part. */
  lemma {:induction false} ReplaceAllAppend(a: string, b: string, c: char, rep: string)
    ensures ReplaceAll(a + b, c, rep) == ReplaceAll(a, c, rep) + ReplaceAll(b, c, rep)
    decreases |a|
  {
    if a == [] {
      assert a + b == b;
    } else {
      var head := if a[0] == c then rep else [a[0]];
      var ra, rb := ReplaceAll(a[1..], c, rep), ReplaceAll(b, c, rep);
      calc {
        ReplaceAll(a + b, c, rep);
        { assert (a + b)[0] == a[0] && (a + b)[1..] == a[1..] + b; }
        head + ReplaceAll(a[1..] + b, c, rep);
        { ReplaceAllAppend(a[1..], b, c, rep); }
        head + (ra + rb);
        (head + ra) + rb;
        ReplaceAll(a, c, rep) + rb;
      }
    }
  }

  /** `escapeHTML`, pass by pass as the client writes it. */
  function EscapeHTML(s: string): string {
    ReplaceAll(ReplaceAll(ReplaceAll(ReplaceAll(s, '&', "&amp;"), '>', "&gt;"), '<', "&lt;"), '"', "&quot;")
  }

  /** The four characters the client escapes. */
  predicate Special(c: char) {
    c == '&' || c == '<' || c == '>' || c == '"'
  }

  /** The entity for one character: the four special ones become their named
      entities, every other character stands for itself. */
  function EscapeChar(c: char): (e: string)
    ensures Special(c) ==> |e| >= 4 && e[0] == '&'
    ensures !Special(c) ==> e == [c]
    ensures '<' !in e && '>' !in e && '"' !in e
  {
    if c == '&' then "&amp;"
    else if c == '<' then "&lt;"
    else if c == '>' then "&gt;"
    else if c == '"' then "&quot;"
    else [c]
  }

  /** The reference escape: one left-to-right pass, each character replaced
      by its entity. */
  function Escape(s: string): (r: string)
    ensures '<' !in r && '>' !in r && '"' !in r
    decreases |s|
  {
    if s == [] then [] else EscapeChar(s[0]) + Escape(s[1..])
  }

  /** The four passes on a single character give its entity: since `&` is
      replaced first, the `&` that the later passes introduce is never
      escaped again, and no entity contains a character a later pass
      replaces. */
  lemma PassesOnChar(c: char)
    ensures EscapeHTML([c]) == EscapeChar(c)
  {
    var p1 := ReplaceAll([c], '&', "&amp;");
    assert p1 == (if c == '&' then "&amp;" else [c]) + ReplaceAll([], '&', "&amp;");
    var p2 := ReplaceAll(p1, '>', "&gt;");
    if c == '>' {
      assert p2 == "&gt;" + ReplaceAll([], '>', "&gt;");
    }
    var p3 := ReplaceAll(p2, '<', "&lt;");
    if c == '<' {
      assert p3 == "&lt;" + ReplaceAll([], '<', "&lt;");
    }
    var p4 := ReplaceAll(p3, '"', "&quot;");
    if c == '"' {
      assert p4 == "&quot;" + ReplaceAll([], '"', "&quot;");
    }
  }

  /** Escaping a concatenation is escaping each part. */
  lemma EscapeHTMLAppend(a: string, b: string)
    ensures EscapeHTML(a + b) == EscapeHTML(a) + EscapeHTML(b)
  {
    var a1, b1 := ReplaceAll(a, '&', "&amp;"), ReplaceAll(b, '&', "&amp;");
    ReplaceAllAppend(a, b, '&', "&amp;");
    var a2, b2 := ReplaceAll(a1, '>', "&gt;"), ReplaceAll(b1, '>', "&gt;");
    ReplaceAllAppend(a1, b1, '>', "&gt;");
    var a3, b3 := ReplaceAll(a2, '<', "&lt;"), ReplaceAll(b2, '<', "&lt;");
    ReplaceAllAppend(a2, b2, '<', "&lt;");
    ReplaceAllAppend(a3, b3, '"', "&quot;");
  }

  /** The client's four passes compute exactly the one-pass reference. */
  lemma {:induction false} EscapeHTMLIsEscape(s: string)
    ensures EscapeHTML(s) == Escape(s)
    decreases |s|
  {
    if s != [] {
      assert s == [s[0]] + s[1..];
      EscapeHTMLAppend([s[0]], s[1..]);
      PassesOnChar(s[0]);
      EscapeHTMLIsEscape(s[1..]);
    }
  }

  /** The output holds no `<`, `>` or `"`, and `<` comes out as `&lt;`, not
      as the double-escaped `&amp;lt;`. */
  lemma NoMarkupLeft(s: string)
    ensures '<' !in EscapeHTML(s) && '>' !in EscapeHTML(s) && '"' !in EscapeHTML(s)
    ensures EscapeHTML("<") == "&lt;" && EscapeHTML("&") == "&amp;"
  {
    EscapeHTMLIsEscape(s);
    PassesOnChar('<');
    PassesOnChar('&');
  }

  /** `t` begins with one of the four entities the escape produces. */
  predicate StartsWithEntity(t: string) {
    || (|t| >= 5 && t[..5] == "&amp;")
    || (|t| >= 4 && t[..4] == "&lt;")
    || (|t| >= 4 && t[..4] == "&gt;")
    || (|t| >= 6 && t[..6] == "&quot;")
  }

  /** Every `&` of `r` begins an entity. */
  predicate AmpersandsStartEntities(r: string) {
    forall i :: 0 <= i < |r| && r[i] == '&' ==> StartsWithEntity(r[i..])
  }

  lemma {:induction false} EscapeAmpersandsStartEntities(s: string)
    ensures AmpersandsStartEntities(Escape(s))
    decreases |s|
  {
    if s != [] {
      var e, rest := EscapeChar(s[0]), Escape(s[1..]);
      var r := Escape(s);
      assert r == e + rest;
      EscapeAmpersandsStartEntities(s[1..]);
      forall i | 0 <= i < |r| && r[i] == '&' ensures StartsWithEntity(r[i..]) {
        if i >= |e| {
          var j := i - |e|;
          assert rest[j] == r[i] && r[i..] == rest[j..];
          assert 0 <= j < |rest| && rest[j] == '&';
          assert StartsWithEntity(rest[j..]);
        } else if s[0] == '&' {
          assert r[..5] == e == "&amp;";
          assert i == 0 && r[i..] == r;
          assert StartsWithEntity(r[i..]);
        } else if s[0] == '<' {
          assert r[..4] == e == "&lt;";
          assert i == 0 && r[i..] == r;
          assert StartsWithEntity(r[i..]);
        } else if s[0] == '>' {
          assert r[..4] == e == "&gt;";
          assert i == 0 && r[i..] == r;
          assert StartsWithEntity(r[i..]);
        } else if s[0] == '"' {
          assert r[..6] == e == "&quot;";
          assert i == 0 && r[i..] == r;
          assert StartsWithEntity(r[i..]);
        }
      }
    }
  }

  /** Every `&` of the output begins one of `&amp;`, `&lt;`, `&gt;` or
      `&quot;`. */
  lemma EscapeHTMLAmpersands(s: string)
    ensures AmpersandsStartEntities(EscapeHTML(s))
  {
    EscapeHTMLIsEscape(s);
    EscapeAmpersandsStartEntities(s);
  }

  /** Text without special characters comes out unchanged; together with
      `EscapeHTMLAppend` this says such characters pass through in order. */
  lemma {:induction false} PlainPassesThrough(s: string)
    requires forall i :: 0 <= i < |s| ==> !Special(s[i])
    ensures EscapeHTML(s) == s
    decreases |s|
  {
    EscapeHTMLIsEscape(s);
    EscapeOfPlain(s);
  }

  lemma {:induction false} EscapeOfPlain(s: string)
    requires forall i :: 0 <= i < |s| ==> !Special(s[i])
    ensures Escape(s) == s
    decreases |s|
  {
    if s != [] {
      assert !Special(s[0]);
      EscapeOfPlain(s[1..]);
    }
  }

  /** The output is never shorter than the input, and as long exactly when
      the input has nothing to escape. */
  lemma {:induction false} EscapeLength(s: string)
    ensures |Escape(s)| >= |s|
    ensures |Escape(s)| == |s| <==> forall i :: 0 <= i < |s| ==> !Special(s[i])
    decreases |s|
  {
    if s != [] {
      EscapeLength(s[1..]);
      if forall i :: 0 <= i < |s[1..]| ==> !Special(s[1..][i]) {
        if !Special(s[0]) {
          forall i | 0 <= i < |s| ensures !Special(s[i]) {
            if i > 0 { assert s[i] == s[1..][i - 1]; }
          }
        }
      } else {
        var j :| 0 <= j < |s[1..]| && Special(s[1..][j]);
        assert Special(s[j + 1]);
      }
    }
  }

  /** The length bound, for the client's function. */
  lemma EscapeHTMLLength(s: string)
    ensures |EscapeHTML(s)| >= |s|
    ensures |EscapeHTML(s)| == |s| <==> forall i :: 0 <= i < |s| ==> !Special(s[i])
  {
    EscapeHTMLIsEscape(s);
    EscapeLength(s);
  }

  /** Reading the four entities back, left to right. */
  function Unescape(t: string): string
    decreases |t|
  {
    if t == [] then []
    else if |t| >= 5 && t[..5] == "&amp;" then "&" + Unescape(t[5..])
    else if |t| >= 4 && t[..4] == "&lt;" then "<" + Unescape(t[4..])
    else if |t| >= 4 && t[..4] == "&gt;" then ">" + Unescape(t[4..])
    else if |t| >= 6 && t[..6] == "&quot;" then "\"" + Unescape(t[6..])
    else [t[0]] + Unescape(t[1..])
  }

  /** Unescaping undoes the escape of one character in front of anything. */
  lemma UnescapeChar(c: char, rest: string)
    ensures Unescape(EscapeChar(c) + rest) == [c] + Unescape(rest)
  {
    if c == '&' { UnescapeAmp(rest); }
    else if c == '<' { UnescapeLt(rest); }
    else if c == '>' { UnescapeGt(rest); }
    else if c == '"' { UnescapeQuot(rest); }
    else {
      var t := [c] + rest;
      assert t[0] == c && t[1..] == rest;
      assert !(|t| >= 5 && t[..5] == "&amp;") && !(|t| >= 4 && t[..4] == "&lt;") by { assert t[0] != '&'; }
      assert !(|t| >= 4 && t[..4] == "&gt;") && !(|t| >= 6 && t[..6] == "&quot;") by { assert t[0] != '&'; }
    }
  }

  lemma UnescapeAmp(rest: string)
    ensures Unescape("&amp;" + rest) == "&" + Unescape(rest)
  {
    var t := "&amp;" + rest;
    assert t[..5] == "&amp;" && t[5..] == rest;
  }

  lemma UnescapeLt(rest: string)
    ensures Unescape("&lt;" + rest) == "<" + Unescape(rest)
  {
    var t := "&lt;" + rest;
    assert !(|t| >= 5 && t[..5] == "&amp;") by { assert t[1] == 'l'; }
    assert t[..4] == "&lt;" && t[4..] == rest;
  }

  lemma UnescapeGt(rest: string)
    ensures Unescape("&gt;" + rest) == ">" + Unescape(rest)
  {
    var t := "&gt;" + rest;
    assert !(|t| >= 5 && t[..5] == "&amp;") by { assert t[1] == 'g'; }
    assert t[..4] != "&lt;" by { assert t[1] == 'g'; }
    assert t[..4] == "&gt;" && t[4..] == rest;
  }

  lemma UnescapeQuot(rest: string)
    ensures Unescape("&quot;" + rest) == "\"" + Unescape(rest)
  {
    var t := "&quot;" + rest;
    assert t[..5] != "&amp;" by { assert t[1] == 'q'; }
    assert t[..4] != "&lt;" && t[..4] != "&gt;" by { assert t[1] == 'q'; }
    assert t[..6] == "&quot;" && t[6..] == rest;
  }

  lemma {:induction false} EscapeRoundTrip(s: string)
    ensures Unescape(Escape(s)) == s
    decreases |s|
  {
    if s != [] {
      UnescapeChar(s[0], Escape(s[1..]));
      EscapeRoundTrip(s[1..]);
    }
  }

  /** The escape loses nothing: the entities read back to the original
      text, so different texts never escape alike. */
  lemma EscapeHTMLRoundTrip(s: string, s': string)
    ensures Unescape(EscapeHTML(s)) == s
    ensures s != s' ==> EscapeHTML(s) != EscapeHTML(s')
  {
    EscapeHTMLIsEscape(s);
    EscapeHTMLIsEscape(s');
    EscapeRoundTrip(s);
    EscapeRoundTrip(s');
  }
}
