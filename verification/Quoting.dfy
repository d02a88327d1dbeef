/** Quoting by successive replacement passes, for XML service manifests and systemd unit files. */
module Quoting {
  import opened Basics
  import opened Characters

  // ---- `str::replace` with a one-character pattern ----

  function Replace(s: string, c: char, t: string): string {
    if s == "" then "" else (if s[0] == c then t else [s[0]]) + Replace(s[1..], c, t)
  }

  /** The same text with every character substituted by itself. */
  function Substitute(s: string, f: char -> string): string {
    if s == "" then "" else f(s[0]) + Substitute(s[1..], f)
  }

  lemma {:induction false} ReplaceAppend(a: string, b: string, c: char, t: string)
    ensures Replace(a + b, c, t) == Replace(a, c, t) + Replace(b, c, t)
  {
    if a == "" {
      assert a + b == b;
    } else {
      ReplaceAppend(a[1..], b, c, t);
      var first := if a[0] == c then t else [a[0]];
      assert (a + b)[1..] == a[1..] + b && (a + b)[0] == a[0];
      assert first + (Replace(a[1..], c, t) + Replace(b, c, t)) == (first + Replace(a[1..], c, t)) + Replace(b, c, t);
    }
  }

  lemma {:induction false} ReplaceAbsent(s: string, c: char, t: string)
    requires forall i | 0 <= i < |s| :: s[i] != c
    ensures Replace(s, c, t) == s
  {
    if s != "" {
      ReplaceAbsent(s[1..], c, t);
      assert [s[0]] + s[1..] == s;
    }
  }

  lemma ReplaceOne(x: char, c: char, t: string)
    ensures Replace([x], c, t) == if x == c then t else [x]
  {
    assert [x][1..] == "" && [x] + "" == [x] && t + "" == t;
  }

  function HasControl(s: string): bool {
    exists i | 0 <= i < |s| :: IsControl(s[i])
  }

  // ---- XML ----

  function XmlPasses(s: string): string {
    Replace(
      Replace(Replace(Replace(Replace(s, '&', "&amp;"), '<', "&lt;"), '>', "&gt;"), '"', "&quot;"),
      '\'', "&apos;")
  }

  /** `xml_escape` */
  function XmlEscape(s: string): Result<string, string> {
    if HasControl(s) then Err("service path contains control characters") else Ok(XmlPasses(s))
  }

  /** The five predefined entities of XML 1.0, section 4.6. */
  function XmlChar(c: char): string {
    match c
    case '&' => "&amp;"
    case '<' => "&lt;"
    case '>' => "&gt;"
    case '"' => "&quot;"
    case '\'' => "&apos;"
    case _ => [c]
  }

  function XmlUnescape(s: string): Option<string> {
    if s == "" then Some("") else
    var (c, n) := if "&amp;" <= s then ('&', 5)
                  else if "&lt;" <= s then ('<', 4)
                  else if "&gt;" <= s then ('>', 4)
                  else if "&quot;" <= s then ('"', 6)
                  else if "&apos;" <= s then ('\'', 6)
                  else (s[0], 1);
    // raw markup, or an ampersand that starts no entity
    if n == 1 && c in {'&', '<', '>', '"', '\''} then None else
    match XmlUnescape(s[n..])
    case None => None
    case Some(rest) => Some([c] + rest)
  }

  lemma XmlPassesAppend(a: string, b: string)
    ensures XmlPasses(a + b) == XmlPasses(a) + XmlPasses(b)
  {
    var a1, b1 := Replace(a, '&', "&amp;"), Replace(b, '&', "&amp;");
    var a2, b2 := Replace(a1, '<', "&lt;"), Replace(b1, '<', "&lt;");
    var a3, b3 := Replace(a2, '>', "&gt;"), Replace(b2, '>', "&gt;");
    var a4, b4 := Replace(a3, '"', "&quot;"), Replace(b3, '"', "&quot;");
    ReplaceAppend(a, b, '&', "&amp;");
    ReplaceAppend(a1, b1, '<', "&lt;");
    ReplaceAppend(a2, b2, '>', "&gt;");
    ReplaceAppend(a3, b3, '"', "&quot;");
    ReplaceAppend(a4, b4, '\'', "&apos;");
  }

  predicate Markup(c: char) {
    c in {'<', '>', '"', '\''}
  }

  predicate Plain(e: string) {
    forall i | 0 <= i < |e| :: !Markup(e[i])
  }

  lemma PlainKept(e: string)
    requires Plain(e)
    ensures Replace(e, '<', "&lt;") == e && Replace(e, '>', "&gt;") == e
    ensures Replace(e, '"', "&quot;") == e && Replace(e, '\'', "&apos;") == e
  {
    ReplaceAbsent(e, '<', "&lt;");
    ReplaceAbsent(e, '>', "&gt;");
    ReplaceAbsent(e, '"', "&quot;");
    ReplaceAbsent(e, '\'', "&apos;");
  }

  lemma EntityPlain(c: char)
    ensures Plain(XmlChar(c))
  {
  }

  lemma MarkupPasses(c: char, e: string)
    requires Plain(e) && e == if Markup(c) then XmlChar(c) else [c]
    ensures Replace(Replace(Replace(Replace([c], '<', "&lt;"), '>', "&gt;"), '"', "&quot;"), '\'', "&apos;") == e
  {
    PlainKept(e);
    ReplaceOne(c, '<', "&lt;");
    ReplaceOne(c, '>', "&gt;");
    ReplaceOne(c, '"', "&quot;");
    ReplaceOne(c, '\'', "&apos;");
  }

  /** What one pass wrote, the later passes leave alone. */
  lemma XmlPassesOne(c: char)
    ensures XmlPasses([c]) == XmlChar(c)
  {
    ReplaceOne(c, '&', "&amp;");
    EntityPlain(c);
    if c == '&' {
      PlainKept(XmlChar(c));
    } else {
      MarkupPasses(c, XmlChar(c));
    }
  }

  /** The five passes, in the order the program makes them, amount to one substitution per character. */
  lemma {:induction false} XmlIsSubstitution(s: string)
    ensures XmlPasses(s) == Substitute(s, XmlChar)
  {
    if s != "" {
      XmlPassesAppend([s[0]], s[1..]);
      XmlPassesOne(s[0]);
      XmlIsSubstitution(s[1..]);
      assert [s[0]] + s[1..] == s;
    }
  }

  lemma XmlUnescapeEntity(c: char, rest: string)
    requires Markup(c) || c == '&'
    ensures XmlUnescape(XmlChar(c) + rest) ==
            match XmlUnescape(rest) case None => None case Some(r) => Some([c] + r)
  {
    var e := XmlChar(c);
    var s, n := e + rest, |e|;
    assert s[n..] == rest && s[..n] == e;
    assert s[0] == '&' && s[1] == e[1] && s[2] == e[2];
    hide Replace, Substitute, HasControl;
    match c
    case '&' => assert "&amp;" <= s;
    case '<' => assert "&lt;" <= s;
    case '>' => assert "&gt;" <= s;
    case '"' => assert "&quot;" <= s;
    case _ => assert "&apos;" <= s;
  }

  lemma XmlUnescapeChar(c: char, rest: string)
    ensures XmlUnescape(XmlChar(c) + rest) ==
            match XmlUnescape(rest) case None => None case Some(r) => Some([c] + r)
  {
    if Markup(c) || c == '&' {
      XmlUnescapeEntity(c, rest);
    } else {
      var s := [c] + rest;
      assert s[0] == c && s[1..] == rest;
    }
  }

  /**
   * Escaping is undone by unescaping, on every string it accepts; so no raw markup is left and nothing is conflated.
   */
  lemma {:induction false} XmlRoundTrip(s: string)
    ensures XmlUnescape(XmlPasses(s)) == Some(s)
  {
    XmlIsSubstitution(s);
    if s != "" {
      XmlUnescapeChar(s[0], Substitute(s[1..], XmlChar));
      XmlIsSubstitution(s[1..]);
      XmlRoundTrip(s[1..]);
      assert [s[0]] + s[1..] == s;
    }
  }

  lemma {:induction false} XmlNoMarkup(s: string)
    ensures forall i | 0 <= i < |XmlPasses(s)| :: !Markup(XmlPasses(s)[i])
  {
    XmlIsSubstitution(s);
    if s != "" {
      XmlIsSubstitution(s[1..]);
      XmlNoMarkup(s[1..]);
      assert forall i | 0 <= i < |XmlChar(s[0])| :: !Markup(XmlChar(s[0])[i]);
    }
  }

  /**
   * `xml_escape` refuses exactly what holds a control character; whatever else it is given can be read back from it.
   */
  lemma XmlEscapeIff(s: string)
    ensures XmlEscape(s).Ok? <==> forall i | 0 <= i < |s| :: !IsControl(s[i])
    ensures XmlEscape(s).Ok? ==> XmlUnescape(XmlEscape(s).value) == Some(s)
  {
    XmlRoundTrip(s);
  }

  /** The same passes with the ampersand last. */
  function AmpersandLast(s: string): string {
    Replace(
      Replace(Replace(Replace(Replace(s, '<', "&lt;"), '>', "&gt;"), '"', "&quot;"), '\'', "&apos;"),
      '&', "&amp;")
  }

  lemma AmpersandLastAppend(a: string, b: string)
    ensures AmpersandLast(a + b) == AmpersandLast(a) + AmpersandLast(b)
  {
    var a1, b1 := Replace(a, '<', "&lt;"), Replace(b, '<', "&lt;");
    var a2, b2 := Replace(a1, '>', "&gt;"), Replace(b1, '>', "&gt;");
    var a3, b3 := Replace(a2, '"', "&quot;"), Replace(b2, '"', "&quot;");
    var a4, b4 := Replace(a3, '\'', "&apos;"), Replace(b3, '\'', "&apos;");
    ReplaceAppend(a, b, '<', "&lt;");
    ReplaceAppend(a1, b1, '>', "&gt;");
    ReplaceAppend(a2, b2, '"', "&quot;");
    ReplaceAppend(a3, b3, '\'', "&apos;");
    ReplaceAppend(a4, b4, '&', "&amp;");
  }

  lemma AmpersandLastOne(c: char)
    ensures if Markup(c) then |AmpersandLast([c])| > |XmlChar(c)| else AmpersandLast([c]) == XmlChar(c)
  {
    EntityPlain(c);
    var e := if Markup(c) then XmlChar(c) else [c];
    MarkupPasses(c, e);
    if Markup(c) {
      assert e == "&" + e[1..];
      ReplaceAppend("&", e[1..], '&', "&amp;");
      ReplaceOne('&', '&', "&amp;");
      ReplaceAbsent(e[1..], '&', "&amp;");
    } else {
      ReplaceOne(c, '&', "&amp;");
    }
  }

  /** Escaping the ampersand first matters exactly for the strings that hold other markup. */
  lemma {:induction false} AmpersandFirstMatters(s: string)
    ensures |AmpersandLast(s)| >= |XmlPasses(s)|
    ensures AmpersandLast(s) == XmlPasses(s) <==> forall i | 0 <= i < |s| :: !Markup(s[i])
    ensures (exists i | 0 <= i < |s| :: Markup(s[i])) ==> |AmpersandLast(s)| > |XmlPasses(s)|
  {
    if s != "" {
      assert [s[0]] + s[1..] == s;
      XmlPassesAppend([s[0]], s[1..]);
      AmpersandLastAppend([s[0]], s[1..]);
      XmlPassesOne(s[0]);
      AmpersandLastOne(s[0]);
      AmpersandFirstMatters(s[1..]);
      assert forall i | 0 <= i < |s[1..]| :: s[1..][i] == s[i + 1];
    }
  }

  // ---- systemd ----

  function UnitPasses(s: string): string {
    Replace(Replace(Replace(Replace(s, '\\', "\\\\"), '"', "\\\""), '%', "%%"), '$', "$$")
  }

  function UnitChar(c: char): string {
    match c
    case '\\' => "\\\\"
    case '"' => "\\\""
    case '%' => "%%"
    case '$' => "$$"
    case _ => [c]
  }

  /** Reads a double-quoted `ExecStart` word back; a bare quote would end it, a lone `%` or `$` would expand. */
  function UnitUnescape(s: string): Option<string> {
    if s == "" then Some("")
    else if s[0] in {'\\', '"', '%', '$'} then
      if |s| >= 2 && ((s[0] == '\\' && s[1] in {'\\', '"'}) || (s[0] in {'%', '$'} && s[1] == s[0])) then
        match UnitUnescape(s[2..])
        case None => None
        case Some(rest) => Some([s[1]] + rest)
      else None
    else
      match UnitUnescape(s[1..])
      case None => None
      case Some(rest) => Some([s[0]] + rest)
  }

  lemma UnitPassesAppend(a: string, b: string)
    ensures UnitPasses(a + b) == UnitPasses(a) + UnitPasses(b)
  {
    var a1, b1 := Replace(a, '\\', "\\\\"), Replace(b, '\\', "\\\\");
    var a2, b2 := Replace(a1, '"', "\\\""), Replace(b1, '"', "\\\"");
    var a3, b3 := Replace(a2, '%', "%%"), Replace(b2, '%', "%%");
    ReplaceAppend(a, b, '\\', "\\\\");
    ReplaceAppend(a1, b1, '"', "\\\"");
    ReplaceAppend(a2, b2, '%', "%%");
    ReplaceAppend(a3, b3, '$', "$$");
  }

  lemma UnitPassesOne(c: char)
    ensures UnitPasses([c]) == UnitChar(c)
  {
    ReplaceOne(c, '\\', "\\\\");
    ReplaceOne(c, '"', "\\\"");
    ReplaceOne(c, '%', "%%");
    ReplaceOne(c, '$', "$$");
    ReplaceAbsent("\\\\", '"', "\\\"");
    ReplaceAbsent("\\\\", '%', "%%");
    ReplaceAbsent("\\\"", '%', "%%");
    ReplaceAbsent("\\\\", '$', "$$");
    ReplaceAbsent("\\\"", '$', "$$");
    ReplaceAbsent("%%", '$', "$$");
  }

  /** The four passes amount to one substitution per character. */
  lemma {:induction false} UnitIsSubstitution(s: string)
    ensures UnitPasses(s) == Substitute(s, UnitChar)
  {
    if s != "" {
      UnitPassesAppend([s[0]], s[1..]);
      UnitPassesOne(s[0]);
      UnitIsSubstitution(s[1..]);
      assert [s[0]] + s[1..] == s;
    }
  }

  lemma UnitUnescapeChar(c: char, rest: string)
    ensures UnitUnescape(UnitChar(c) + rest) ==
            match UnitUnescape(rest) case None => None case Some(r) => Some([c] + r)
  {
    var s := UnitChar(c) + rest;
    assert s[|UnitChar(c)|..] == rest;
    assert s[0] == UnitChar(c)[0];
    if |UnitChar(c)| == 2 {
      assert s[1] == UnitChar(c)[1];
    }
  }

  lemma {:induction false} UnitRoundTrip(s: string)
    ensures UnitUnescape(UnitPasses(s)) == Some(s)
  {
    UnitIsSubstitution(s);
    if s != "" {
      UnitUnescapeChar(s[0], Substitute(s[1..], UnitChar));
      UnitIsSubstitution(s[1..]);
      UnitRoundTrip(s[1..]);
      assert [s[0]] + s[1..] == s;
    }
  }

  /** The same passes with the backslash last. */
  function BackslashLast(s: string): string {
    Replace(Replace(Replace(Replace(s, '"', "\\\""), '%', "%%"), '$', "$$"), '\\', "\\\\")
  }

  lemma BackslashLastAppend(a: string, b: string)
    ensures BackslashLast(a + b) == BackslashLast(a) + BackslashLast(b)
  {
    var a1, b1 := Replace(a, '"', "\\\""), Replace(b, '"', "\\\"");
    var a2, b2 := Replace(a1, '%', "%%"), Replace(b1, '%', "%%");
    var a3, b3 := Replace(a2, '$', "$$"), Replace(b2, '$', "$$");
    ReplaceAppend(a, b, '"', "\\\"");
    ReplaceAppend(a1, b1, '%', "%%");
    ReplaceAppend(a2, b2, '$', "$$");
    ReplaceAppend(a3, b3, '\\', "\\\\");
  }

  lemma BackslashLastOne(c: char)
    ensures if c == '"' then |BackslashLast([c])| > |UnitChar(c)| else BackslashLast([c]) == UnitChar(c)
  {
    ReplaceOne(c, '"', "\\\"");
    ReplaceOne(c, '%', "%%");
    ReplaceOne(c, '$', "$$");
    ReplaceOne(c, '\\', "\\\\");
    var e := UnitChar(c);
    if c == '"' {
      ReplaceAbsent(e, '%', "%%");
      ReplaceAbsent(e, '$', "$$");
      assert e == "\\" + "\"";
      ReplaceAppend("\\", "\"", '\\', "\\\\");
      ReplaceOne('\\', '\\', "\\\\");
      ReplaceOne('"', '\\', "\\\\");
    } else if c == '%' {
      ReplaceAbsent(e, '$', "$$");
      ReplaceAbsent(e, '\\', "\\\\");
    } else if c == '$' {
      ReplaceAbsent(e, '\\', "\\\\");
    }
  }

  /** Escaping the backslash first matters exactly for the strings that hold a quote. */
  lemma {:induction false} BackslashFirstMatters(s: string)
    ensures |BackslashLast(s)| >= |UnitPasses(s)|
    ensures BackslashLast(s) == UnitPasses(s) <==> '"' !in s
    ensures '"' in s ==> |BackslashLast(s)| > |UnitPasses(s)|
  {
    if s != "" {
      assert [s[0]] + s[1..] == s;
      UnitPassesAppend([s[0]], s[1..]);
      BackslashLastAppend([s[0]], s[1..]);
      UnitPassesOne(s[0]);
      BackslashLastOne(s[0]);
      BackslashFirstMatters(s[1..]);
    }
  }

  const BEFORE_WORD := "[Unit]\nDescription=Ullage subscription usage daemon\n\n[Service]\nType=simple\nExecStart="
  const AFTER_WORD := " __daemon\nRestart=on-failure\nRestartSec=5\nUMask=0077\nNoNewPrivileges=true\n\n"
    + "[Install]\nWantedBy=default.target\n"

  /** The fixed text of the unit: a plain service, restarted when it fails, with no new privileges. */
  lemma UnitText()
    ensures BEFORE_WORD ==
            "[Unit]\nDescription=Ullage subscription usage daemon\n\n[Service]\nType=simple\nExecStart="
    ensures AFTER_WORD ==
            " __daemon\nRestart=on-failure\nRestartSec=5\nUMask=0077\nNoNewPrivileges=true\n\n"
            + "[Install]\nWantedBy=default.target\n"
  {
  }

  /** `render_unit` */
  function RenderUnit(executable: string): Result<string, string> {
    if HasControl(executable) then Err("service executable path contains control characters")
    else Ok(BEFORE_WORD + "\"" + UnitPasses(executable) + "\"" + AFTER_WORD)
  }

  /** Reads the rest of a double-quoted `ExecStart` word, and what follows its closing quote. */
  function WordRest(s: string): Option<(string, string)> {
    if s == "" then None
    else if s[0] == '"' then Some(("", s[1..]))
    else
      var doubled := s[0] in {'\\', '%', '$'};
      if doubled && (|s| == 1 || (if s[0] == '\\' then s[1] !in {'\\', '"'} else s[1] != s[0])) then None
      else
        match WordRest(s[if doubled then 2 else 1..])
        case None => None
        case Some((word, rest)) => Some(([if doubled then s[1] else s[0]] + word, rest))
  }

  function QuotedWord(s: string): Option<(string, string)> {
    if s != "" && s[0] == '"' then WordRest(s[1..]) else None
  }

  lemma WordRestChar(c: char, more: string)
    ensures WordRest(UnitChar(c) + more) ==
            match WordRest(more) case None => None case Some((word, rest)) => Some(([c] + word, rest))
  {
    var s := UnitChar(c) + more;
    assert s[|UnitChar(c)|..] == more && s[0] == UnitChar(c)[0];
    if |UnitChar(c)| == 2 {
      assert s[1] == UnitChar(c)[1];
    }
  }

  lemma WordEnds(rest: string)
    ensures WordRest("\"" + rest) == Some(("", rest))
  {
    assert ("\"" + rest)[1..] == rest;
  }

  lemma {:induction false} WordReadsBack(word: string, rest: string)
    ensures WordRest(UnitPasses(word) + ("\"" + rest)) == Some((word, rest))
  {
    hide UnitPasses, WordRest, UnitChar;
    UnitIsSubstitution(word);
    if word == "" {
      WordEnds(rest);
      assert UnitPasses(word) + ("\"" + rest) == "\"" + rest;
    } else {
      UnitIsSubstitution(word[1..]);
      WordReadsBack(word[1..], rest);
      var more := UnitPasses(word[1..]) + ("\"" + rest);
      WordRestChar(word[0], more);
      assert UnitPasses(word) + ("\"" + rest) == UnitChar(word[0]) + more;
      assert [word[0]] + word[1..] == word;
    }
  }

  /**
   * The unit is refused exactly for a control character; otherwise the command systemd reads after `ExecStart=` is the
   * executable as one quoted word, and then ` __daemon`.
   */
  lemma RenderUnitReads(executable: string)
    ensures RenderUnit(executable).Ok? <==> forall i | 0 <= i < |executable| :: !IsControl(executable[i])
    ensures RenderUnit(executable).Ok? ==>
              && BEFORE_WORD <= RenderUnit(executable).value
              && QuotedWord(RenderUnit(executable).value[|BEFORE_WORD|..]) == Some((executable, AFTER_WORD))
  {
    hide UnitPasses, WordRest, BEFORE_WORD, AFTER_WORD;
    WordReadsBack(executable, AFTER_WORD);
    var word := UnitPasses(executable);
    TailAfter(BEFORE_WORD, word, "\"" + AFTER_WORD);
    assert BEFORE_WORD + "\"" + word + "\"" + AFTER_WORD == BEFORE_WORD + "\"" + word + ("\"" + AFTER_WORD);
  }

  lemma TailAfter(front: string, word: string, back: string)
    ensures var u, tail := front + "\"" + word + back, "\"" + (word + back);
      u == front + tail && front <= u && u[|front|..] == tail && tail[1..] == word + back
  {
    var u, tail := front + "\"" + word + back, "\"" + (word + back);
    assert u == front + tail;
    assert (front + tail)[|front|..] == tail;
  }

  /** Different executables never share a unit file. */
  lemma RenderUnitInjective(a: string, b: string)
    requires RenderUnit(a).Ok? && RenderUnit(a) == RenderUnit(b)
    ensures a == b
  {
    hide RenderUnit, QuotedWord;
    RenderUnitReads(a);
    RenderUnitReads(b);
  }
}
