/** Stripping terminal escape sequences from text the daemon sent, before it reaches a terminal. */
module CliText {
  import opened Characters

  const ESC := '\U{1B}'
  const BEL := '\U{7}'
  const ST := '\U{9C}'

  predicate CsiFinal(c: char) {
    '\U{40}' <= c <= '\U{7E}'
  }

  predicate StringOpener(c: char) {
    c == ']' || c == 'P' || c == 'X' || c == '^' || c == '_'
  }

  predicate Kept(c: char) {
    c == '\n' || (!IsControl(c) && !IsUnsafe(c))
  }

  // ---- The automaton for ECMA-48 sequences (sections 5.4 and 5.6) ----

  datatype Mode = Text | Escape | Csi | Osc | OscEscape

  function Step(q: Mode, c: char): Mode {
    match q
    case Text => if c == ESC then Escape else Text
    case Escape => if c == '[' then Csi else if StringOpener(c) then Osc else if c == ESC then Escape else Text
    case Csi => if CsiFinal(c) then Text else Csi
    case Osc => if c == BEL || c == ST then Text else if c == ESC then OscEscape else Osc
    case OscEscape => if c == BEL || c == ST || c == '\\' then Text else if c == ESC then OscEscape else Osc
  }

  function Emit(q: Mode, c: char): string {
    if (q == Text || (q == Escape && c != '[' && !StringOpener(c))) && c != ESC && Kept(c) then [c] else ""
  }

  function After(q: Mode, s: string): Mode
    decreases |s|
  {
    if s == "" then q else After(Step(q, s[0]), s[1..])
  }

  function Output(q: Mode, s: string): string
    decreases |s|
  {
    if s == "" then "" else Emit(q, s[0]) + Output(Step(q, s[0]), s[1..])
  }

  function Sanitized(s: string): string {
    Output(Text, s)
  }

  // ---- The program's loops ----

  /** `strip_until_string_terminator` */
  method StripUntilStringTerminator(s: string, start: nat) returns (i: nat)
    requires start <= |s|
    ensures start <= i <= |s|
    ensures Output(Osc, s[start..]) == Output(Text, s[i..])
  {
    var escaped := false;
    i := start;
    while i < |s|
      invariant start <= i <= |s|
      invariant Output(Osc, s[start..]) == Output(if escaped then OscEscape else Osc, s[i..])
    {
      var next := s[i];
      assert s[i..][1..] == s[i + 1..];
      i := i + 1;
      if next == BEL || next == ST || (escaped && next == '\\') {
        return;
      }
      escaped := next == ESC;
    }
    assert s[i..] == "";
  }

  method SkipCsi(s: string, start: nat) returns (i: nat)
    requires start <= |s|
    ensures start <= i <= |s|
    ensures Output(Csi, s[start..]) == Output(Text, s[i..])
  {
    i := start;
    while i < |s|
      invariant start <= i <= |s|
      invariant Output(Csi, s[start..]) == Output(Csi, s[i..])
    {
      assert s[i..][1..] == s[i + 1..];
      i := i + 1;
      if CsiFinal(s[i - 1]) {
        return;
      }
    }
    assert s[i..] == "";
  }

  lemma Shift(q: Mode, s: string, i: nat)
    requires i < |s|
    ensures Output(q, s[i..]) == Emit(q, s[i]) + Output(Step(q, s[i]), s[i + 1..])
  {
    assert s[i..][1..] == s[i + 1..];
  }

  /** What follows an escape character: a sequence to skip, or nothing special. */
  method SkipSequence(s: string, start: nat) returns (i: nat)
    requires start <= |s|
    ensures start <= i <= |s|
    ensures Output(Escape, s[start..]) == Output(Text, s[i..])
  {
    i := start;
    if i < |s| && s[i] == '[' {
      Shift(Escape, s, i);
      i := SkipCsi(s, i + 1);
    } else if i < |s| && StringOpener(s[i]) {
      Shift(Escape, s, i);
      i := StripUntilStringTerminator(s, i + 1);
    } else {
      EscapeElsewhere(s[i..]);
    }
  }

  /** `sanitize_cli_text`: one character of lookahead, and an inner loop for each kind of sequence. */
  method SanitizeCliText(s: string) returns (sanitized: string)
    ensures sanitized == Sanitized(s)
  {
    hide Output, IsControl, IsUnsafe;
    sanitized := "";
    var i := 0;
    assert s[0..] == s;
    while i < |s|
      invariant i <= |s|
      invariant sanitized + Output(Text, s[i..]) == Sanitized(s)
    {
      var c := s[i];
      Shift(Text, s, i);
      AppendAssociates(sanitized, Emit(Text, c), Output(Step(Text, c), s[i + 1..]));
      i := i + 1;
      if c == ESC {
        i := SkipSequence(s, i);
        continue;
      }
      if c == '\n' || (!IsControl(c) && !IsUnsafe(c)) {
        sanitized := sanitized + [c];
      }
    }
    EmptyOutput(s[i..]);
  }

  lemma AppendAssociates(a: string, b: string, c: string)
    ensures a + (b + c) == a + b + c && (b == "" ==> a + (b + c) == a + c)
  {
  }

  lemma EmptyOutput(s: string)
    requires s == ""
    ensures Output(Text, s) == ""
  {
  }

  lemma EscapeElsewhere(s: string)
    requires s == "" || (s[0] != '[' && !StringOpener(s[0]))
    ensures Output(Escape, s) == Output(Text, s)
  {
  }

  // ---- Main results ----

  /** The stripper composes: a text cut anywhere is handled from the mode its first part leads to. */
  lemma {:induction false} Composes(q: Mode, a: string, b: string)
    ensures Output(q, a + b) == Output(q, a) + Output(After(q, a), b)
    ensures After(q, a + b) == After(After(q, a), b)
    decreases |a|
  {
    if a == "" {
      assert a + b == b;
    } else {
      hide Step, Emit;
      Composes(Step(q, a[0]), a[1..], b);
      assert (a + b)[1..] == a[1..] + b;
    }
  }

  predicate Clean(s: string) {
    forall i | 0 <= i < |s| :: Kept(s[i])
  }

  lemma {:induction false} OutputClean(q: Mode, s: string)
    ensures Clean(Output(q, s))
    decreases |s|
  {
    if s != "" {
      OutputClean(Step(q, s[0]), s[1..]);
    }
  }

  /** Positions of `s`, in order, that spell `t`. */
  ghost predicate Embeds(t: string, s: string, at: seq<nat>) {
    && |at| == |t|
    && (forall i | 0 <= i < |at| :: at[i] < |s| && s[at[i]] == t[i])
    && (forall i, j | 0 <= i < j < |at| :: at[i] < at[j])
  }

  /** Nothing is invented or moved: the output is a subsequence of the input. */
  lemma {:induction false} OutputEmbeds(q: Mode, s: string) returns (at: seq<nat>)
    ensures Embeds(Output(q, s), s, at)
    decreases |s|
  {
    if s == "" {
      at := [];
    } else {
      var rest := OutputEmbeds(Step(q, s[0]), s[1..]);
      var moved := seq(|rest|, i requires 0 <= i < |rest| => rest[i] + 1);
      at := (if Emit(q, s[0]) == "" then [] else [0]) + moved;
    }
  }

  lemma {:induction false} CleanUntouched(s: string)
    requires Clean(s)
    ensures Output(Text, s) == s && After(Text, s) == Text
  {
    if s != "" {
      CleanUntouched(s[1..]);
      assert [s[0]] + s[1..] == s;
    }
  }

  /** Clean text is left alone, and only clean text is; so sanitizing twice is sanitizing once. */
  lemma IdentityIffClean(s: string)
    ensures Sanitized(s) == s <==> Clean(s)
    ensures Sanitized(Sanitized(s)) == Sanitized(s)
  {
    OutputClean(Text, s);
    CleanUntouched(Sanitized(s));
    if Clean(s) {
      CleanUntouched(s);
    }
  }

  // ---- Main results: what is stripped, without the automaton ----

  /** A terminal text, taken apart as ECMA-48 has it. The two `Cut` pieces are sequences the text ends in. */
  datatype Piece = Plain(c: char)
                 | Stray
                 | Control(body: string, final: char)
                 | Payload(opener: char, body: string, end: string)
                 | CutControl(body: string)
                 | CutPayload(opener: char, body: string)

  function Spelling(p: Piece): string {
    match p
    case Plain(c) => [c]
    case Stray => "\U{1B}"
    case Control(body, final) => "\U{1B}[" + body + [final]
    case Payload(opener, body, end) => "\U{1B}" + [opener] + body + end
    case CutControl(body) => "\U{1B}[" + body
    case CutPayload(opener, body) => "\U{1B}" + [opener] + body
  }

  /** What reaches the terminal of a piece. */
  function Shown(p: Piece): string {
    if p.Plain? && Harmless(p.c) then [p.c] else ""
  }

  predicate Harmless(c: char) {
    || c == '\n' || '\U{20}' <= c <= '\U{7E}' || '\U{A0}' <= c <= '\U{61B}' || '\U{61D}' <= c <= '\U{200D}'
    || '\U{2010}' <= c <= '\U{2029}' || '\U{202F}' <= c <= '\U{2065}' || '\U{206A}' <= c
  }

  predicate NoFinal(body: string) {
    forall i | 0 <= i < |body| :: !('\U{40}' <= body[i] <= '\U{7E}')
  }

  /** No bell, no C1 string terminator and no escape with a backslash after it. */
  predicate NoTerminator(body: string) {
    && (forall i | 0 <= i < |body| :: body[i] != '\U{7}' && body[i] != '\U{9C}')
    && (forall i | 0 < i < |body| :: body[i - 1] == '\U{1B}' ==> body[i] != '\\')
  }

  predicate Fits(p: Piece, rest: string) {
    match p
    case Plain(c) => c != '\U{1B}'
    case Stray => rest == "" || rest[0] !in "[]PX^_"
    case Control(body, final) => NoFinal(body) && '\U{40}' <= final <= '\U{7E}'
    case Payload(opener, body, end) =>
      opener in "]PX^_" && NoTerminator(body) && (end == "\U{7}" || end == "\U{9C}" || end == "\U{1B}\\")
    case CutControl(body) => rest == "" && NoFinal(body)
    case CutPayload(opener, body) => rest == "" && opener in "]PX^_" && NoTerminator(body)
  }

  function Spell(ps: seq<Piece>): string {
    if ps == [] then "" else Spelling(ps[0]) + Spell(ps[1..])
  }

  function Show(ps: seq<Piece>): string {
    if ps == [] then "" else Shown(ps[0]) + Show(ps[1..])
  }

  predicate FitTogether(ps: seq<Piece>) {
    ps == [] || (Fits(ps[0], Spell(ps[1..])) && FitTogether(ps[1..]))
  }

  lemma {:induction false} ControlSkipped(body: string)
    requires NoFinal(body)
    ensures Output(Csi, body) == "" && After(Csi, body) == Csi
  {
    if body != "" {
      ControlSkipped(body[1..]);
    }
  }

  lemma {:induction false} PayloadSkipped(q: Mode, body: string)
    requires q == Osc || (q == OscEscape && (body == "" || body[0] != '\\'))
    requires NoTerminator(body)
    ensures Output(q, body) == "" && (After(q, body) == Osc || After(q, body) == OscEscape)
    decreases |body|
  {
    if body != "" {
      PayloadSkipped(Step(q, body[0]), body[1..]);
    }
  }

  lemma Single(q: Mode, c: char)
    ensures Output(q, [c]) == Emit(q, c) && After(q, [c]) == Step(q, c)
  {
    assert [c][1..] == "";
    assert Emit(q, c) + "" == Emit(q, c);
  }

  lemma Open(opening: string, body: string)
    requires |opening| == 2 && opening[0] == ESC && (opening[1] == '[' || StringOpener(opening[1]))
    ensures var q := if opening[1] == '[' then Csi else Osc;
      Output(Text, opening + body) == Output(q, body) && After(Text, opening + body) == After(q, body)
  {
    assert opening == [ESC] + [opening[1]];
    Single(Text, ESC);
    Single(Escape, opening[1]);
    Composes(Text, [ESC], [opening[1]]);
    Composes(Text, opening, body);
  }

  lemma Ends(q: Mode, end: string)
    requires q == Osc || q == OscEscape
    requires end == "\U{7}" || end == "\U{9C}" || end == "\U{1B}\\"
    ensures Output(q, end) == "" && After(q, end) == Text
  {
    if end == "\U{1B}\\" {
      assert end == [ESC] + ['\\'];
      Single(q, ESC);
      Single(OscEscape, '\\');
      Composes(q, [ESC], ['\\']);
    } else {
      assert end == [end[0]];
      Single(q, end[0]);
    }
  }

  lemma ControlText(body: string, final: char, b: string)
    requires NoFinal(body)
    ensures Output(Text, "\U{1B}[" + body) == ""
    ensures '\U{40}' <= final <= '\U{7E}' ==> Output(Text, "\U{1B}[" + body + [final] + b) == Output(Text, b)
  {
    var t := "\U{1B}[" + body;
    ControlSkipped(body);
    Open("\U{1B}[", body);
    if '\U{40}' <= final <= '\U{7E}' {
      Single(Csi, final);
      Composes(Text, t, [final]);
      Composes(Text, t + [final], b);
    }
  }

  lemma PayloadText(opener: char, body: string, end: string, b: string)
    requires opener in "]PX^_" && NoTerminator(body)
    ensures Output(Text, "\U{1B}" + [opener] + body) == ""
    ensures end == "\U{7}" || end == "\U{9C}" || end == "\U{1B}\\" ==>
              Output(Text, "\U{1B}" + [opener] + body + end + b) == Output(Text, b)
  {
    var t := "\U{1B}" + [opener] + body;
    PayloadSkipped(Osc, body);
    Open("\U{1B}" + [opener], body);
    if end == "\U{7}" || end == "\U{9C}" || end == "\U{1B}\\" {
      Ends(After(Osc, body), end);
      Composes(Text, t, end);
      Composes(Text, t + end, b);
    }
  }

  /** A control sequence is dropped, from its `ESC [` through the first character of the final range. */
  lemma ControlStripped(a: string, body: string, final: char, b: string)
    requires After(Text, a) == Text && NoFinal(body)
    ensures Sanitized(a + ("\U{1B}[" + body)) == Sanitized(a)
    ensures '\U{40}' <= final <= '\U{7E}' ==>
              Sanitized(a + ("\U{1B}[" + body + [final] + b)) == Sanitized(a) + Sanitized(b)
  {
    hide Output, After;
    ControlText(body, final, b);
    Composes(Text, a, "\U{1B}[" + body);
    Composes(Text, a, "\U{1B}[" + body + [final] + b);
  }

  /** A string sequence is dropped, from its opener through the first terminator. */
  lemma PayloadStripped(a: string, opener: char, body: string, end: string, b: string)
    requires After(Text, a) == Text && opener in "]PX^_" && NoTerminator(body)
    ensures Sanitized(a + ("\U{1B}" + [opener] + body)) == Sanitized(a)
    ensures end == "\U{7}" || end == "\U{9C}" || end == "\U{1B}\\" ==>
              Sanitized(a + ("\U{1B}" + [opener] + body + end + b)) == Sanitized(a) + Sanitized(b)
  {
    hide Output, After;
    PayloadText(opener, body, end, b);
    Composes(Text, a, "\U{1B}" + [opener] + body);
    Composes(Text, a, "\U{1B}" + [opener] + body + end + b);
  }

  /** Of a text taken apart this way exactly the harmless plain characters are left, in order. */
  lemma {:induction false} PiecesShown(ps: seq<Piece>)
    requires FitTogether(ps)
    ensures Sanitized(Spell(ps)) == Show(ps)
  {
    if ps != [] {
      var p, rest := ps[0], Spell(ps[1..]);
      PiecesShown(ps[1..]);
      match p
      case Plain(c) => {
        Single(Text, c);
        Composes(Text, [c], rest);
      }
      case Stray => {
        Single(Text, ESC);
        Composes(Text, [ESC], rest);
        EscapeElsewhere(rest);
      }
      case Control(body, final) => ControlText(body, final, rest);
      case Payload(opener, body, end) => PayloadText(opener, body, end, rest);
      case CutControl(body) => ControlText(body, ESC, rest);
        assert Spelling(p) + rest == Spelling(p);
      case CutPayload(opener, body) => PayloadText(opener, body, "", rest);
        assert Spelling(p) + rest == Spelling(p);
    }
  }

  lemma {:induction false} FirstFinal(s: string) returns (i: nat)
    ensures i <= |s| && NoFinal(s[..i]) && (i < |s| ==> '\U{40}' <= s[i] <= '\U{7E}')
    decreases |s|
  {
    if s == "" || '\U{40}' <= s[0] <= '\U{7E}' {
      i := 0;
    } else {
      var j := FirstFinal(s[1..]);
      i := j + 1;
      assert s[..i] == [s[0]] + s[1..][..j];
    }
  }

  lemma {:induction false} FirstTerminator(s: string) returns (i: nat, end: string)
    ensures i + |end| <= |s| && NoTerminator(s[..i]) && s[i..i + |end|] == end
    ensures if end == "" then i == |s| else end == "\U{7}" || end == "\U{9C}" || end == "\U{1B}\\"
    decreases |s|
  {
    if s == "" {
      i, end := 0, "";
    } else if s[0] == '\U{7}' || s[0] == '\U{9C}' {
      i, end := 0, [s[0]];
    } else if |s| > 1 && s[0] == '\U{1B}' && s[1] == '\\' {
      i, end := 0, "\U{1B}\\";
    } else {
      var j, e := FirstTerminator(s[1..]);
      i, end := j + 1, e;
      assert s[..i] == [s[0]] + s[1..][..j];
      assert s[i..i + |end|] == s[1..][j..j + |e|];
    }
  }

  lemma ControlPiece(t: string) returns (p: Piece, rest: string)
    ensures "\U{1B}[" + t == Spelling(p) + rest && Fits(p, rest) && |rest| <= |t|
  {
    hide NoTerminator, NoFinal;
    var i := FirstFinal(t);
    if i < |t| {
      p, rest := Control(t[..i], t[i]), t[i + 1..];
      assert t == t[..i] + [t[i]] + rest;
    } else {
      p, rest := CutControl(t), "";
      assert t == t[..i];
    }
  }

  lemma PayloadPiece(opener: char, t: string) returns (p: Piece, rest: string)
    requires opener in "]PX^_"
    ensures "\U{1B}" + [opener] + t == Spelling(p) + rest && Fits(p, rest) && |rest| <= |t|
  {
    hide NoTerminator, NoFinal;
    var i, end := FirstTerminator(t);
    if end != "" {
      p, rest := Payload(opener, t[..i], end), t[i + |end|..];
      assert t == t[..i] + end + rest;
    } else {
      p, rest := CutPayload(opener, t), "";
      assert t == t[..i];
    }
  }

  /** The first piece of a text that is not empty. */
  lemma FirstPiece(s: string) returns (p: Piece, rest: string)
    requires s != ""
    ensures s == Spelling(p) + rest && Fits(p, rest) && |rest| < |s|
  {
    if s[0] != ESC {
      p, rest := Plain(s[0]), s[1..];
    } else if |s| > 1 && (s[1] == '[' || s[1] in "]PX^_") {
      assert s == "\U{1B}" + [s[1]] + s[2..];
      if s[1] == '[' {
        p, rest := ControlPiece(s[2..]);
      } else {
        p, rest := PayloadPiece(s[1], s[2..]);
      }
    } else {
      p, rest := Stray, s[1..];
    }
  }

  /** Every text is spelled by such pieces. */
  lemma {:induction false} EveryTextFits(s: string) returns (ps: seq<Piece>)
    ensures FitTogether(ps) && Spell(ps) == s
    decreases |s|
  {
    if s == "" {
      ps := [];
    } else {
      var p, rest := FirstPiece(s);
      var more := EveryTextFits(rest);
      ps := [p] + more;
      assert ps[1..] == more;
    }
  }

  /** So this is all that sanitizing does: to show the pieces of a text, however it is taken apart. */
  lemma SanitizedIff(s: string, t: string)
    ensures Sanitized(s) == t <==> exists ps :: FitTogether(ps) && Spell(ps) == s && Show(ps) == t
  {
    var ps := EveryTextFits(s);
    PiecesShown(ps);
    forall qs | FitTogether(qs) && Spell(qs) == s ensures Show(qs) == Sanitized(s) {
      PiecesShown(qs);
    }
  }
}
