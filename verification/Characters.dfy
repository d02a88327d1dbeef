/** The characters the program refuses in names and strips from its output, and how it trims and folds answers. */
module Characters {

  /** `char::is_control`: the C0 and C1 ranges and delete. */
  predicate IsControl(c: char) {
    c <= '\U{1F}' || '\U{7F}' <= c <= '\U{9F}'
  }

  /** Control characters and the bidirectional overrides, marks and isolates. */
  predicate IsUnsafe(c: char) {
    IsControl(c) || c == '\U{61C}' || c == '\U{200E}' || c == '\U{200F}'
    || '\U{202A}' <= c <= '\U{202E}' || '\U{2066}' <= c <= '\U{2069}'
  }

  predicate AnyUnsafe(s: string) {
    exists i | 0 <= i < |s| :: IsUnsafe(s[i])
  }

  /** The characters of the Unicode `White_Space` property, which `str::trim` removes. */
  predicate White(c: char) {
    '\U{9}' <= c <= '\U{D}' || c == ' ' || c == '\U{85}' || c == '\U{A0}' || c == '\U{1680}'
    || '\U{2000}' <= c <= '\U{200A}' || c == '\U{2028}' || c == '\U{2029}' || c == '\U{202F}' || c == '\U{205F}'
       || c == '\U{3000}'
  }

  function TrimStart(s: string): string {
    if s != "" && White(s[0]) then TrimStart(s[1..]) else s
  }

  function TrimEnd(s: string): string {
    if s != "" && White(s[|s| - 1]) then TrimEnd(s[..|s| - 1]) else s
  }

  function Trim(s: string): string {
    TrimEnd(TrimStart(s))
  }

  /** ASCII lower case. */
  function Lower(s: string): string {
    seq(|s|, i requires 0 <= i < |s| => if 'A' <= s[i] <= 'Z' then s[i] - 'A' + 'a' else s[i])
  }

  /** Nothing is left to trim. */
  predicate Trimmed(s: string) {
    s == "" || (!White(s[0]) && !White(s[|s| - 1]))
  }

  lemma {:induction false} TrimEndKeepsStart(s: string)
    ensures TrimEnd(s) <= s && (TrimEnd(s) == "" || !White(TrimEnd(s)[|TrimEnd(s)| - 1]))
  {
    if s != "" && White(s[|s| - 1]) {
      TrimEndKeepsStart(s[..|s| - 1]);
    }
  }

  lemma {:induction false} TrimStartDrops(s: string)
    ensures TrimStart(s) == "" || !White(TrimStart(s)[0])
  {
    if s != "" && White(s[0]) {
      TrimStartDrops(s[1..]);
    }
  }

  lemma TrimTrims(s: string)
    ensures Trimmed(Trim(s))
  {
    TrimStartDrops(s);
    TrimEndKeepsStart(TrimStart(s));
  }

  predicate AllWhite(s: string) {
    forall i | 0 <= i < |s| :: White(s[i])
  }

  lemma {:induction false} TrimStartCuts(s: string) returns (n: nat)
    ensures n <= |s| && AllWhite(s[..n]) && TrimStart(s) == s[n..]
  {
    n := 0;
    if s != "" && White(s[0]) {
      var m := TrimStartCuts(s[1..]);
      n := m + 1;
      assert s[1..][m..] == s[n..] && s[..n] == [s[0]] + s[1..][..m];
    }
  }

  lemma {:induction false} TrimEndCuts(s: string) returns (n: nat)
    ensures n <= |s| && AllWhite(s[n..]) && TrimEnd(s) == s[..n]
  {
    n := |s|;
    if s != "" && White(s[|s| - 1]) {
      var t := s[..|s| - 1];
      n := TrimEndCuts(t);
      assert t[..n] == s[..n] && s[n..] == t[n..] + [s[|s| - 1]];
    }
  }

  lemma {:induction false} TrimAllWhite(s: string)
    requires AllWhite(s)
    ensures TrimStart(s) == ""
  {
    if s != "" {
      TrimAllWhite(s[1..]);
    }
  }

  lemma {:induction false} TrimStartOf(a: string, t: string)
    requires AllWhite(a) && (t == "" || !White(t[0]))
    ensures TrimStart(a + t) == t
  {
    if a == "" {
      assert a + t == t;
    } else {
      assert (a + t)[1..] == a[1..] + t;
      TrimStartOf(a[1..], t);
    }
  }

  lemma {:induction false} TrimEndOf(t: string, b: string)
    requires AllWhite(b) && (t == "" || !White(t[|t| - 1]))
    ensures TrimEnd(t + b) == t
  {
    if b == "" {
      assert t + b == t;
    } else {
      assert (t + b)[..|t + b| - 1] == t + b[..|b| - 1];
      TrimEndOf(t, b[..|b| - 1]);
    }
  }

  /** What trimming leaves: the part between the white space on either side, which has none at its own ends. */
  lemma TrimIff(s: string, t: string)
    ensures Trim(s) == t <==> Trimmed(t) && exists a, b :: AllWhite(a) && AllWhite(b) && s == a + t + b
  {
    var n := TrimStartCuts(s);
    var m := TrimEndCuts(s[n..]);
    TrimTrims(s);
    assert s == s[..n] + Trim(s) + s[n..][m..];
    forall a, b | AllWhite(a) && AllWhite(b) && s == a + t + b && Trimmed(t) ensures Trim(s) == t {
      if t == "" {
        TrimAllWhite(s);
      } else {
        assert s == a + (t + b);
        TrimStartOf(a, t + b);
        TrimEndOf(t, b);
      }
    }
  }

  lemma UnsafeWithin(s: string)
    ensures AnyUnsafe(s) <==> exists c | c in s :: IsUnsafe(c)
  {
    if c :| c in s && IsUnsafe(c) {
      var i :| 0 <= i < |s| && s[i] == c;
    }
  }

  // ---- The ranges, character by character ----

  lemma WhiteListed(c: char)
    ensures White(c) <==>
              (c as int in
              {0x9, 0xA, 0xB, 0xC, 0xD, 0x20, 0x85, 0xA0, 0x1680, 0x2000, 0x2001, 0x2002, 0x2003, 0x2004, 0x2005,
               0x2006, 0x2007, 0x2008, 0x2009, 0x200A, 0x2028, 0x2029, 0x202F, 0x205F, 0x3000})
  {
  }

  lemma UnsafeListed(c: char)
    ensures IsControl(c) <==> c as int < 0x20 || 0x7F <= c as int < 0xA0
    ensures IsUnsafe(c) <==>
              (c as int < 0x20 || 0x7F <= c as int < 0xA0 || c as int in
              {0x61C, 0x200E, 0x200F, 0x202A, 0x202B, 0x202C, 0x202D, 0x202E, 0x2066, 0x2067, 0x2068, 0x2069})
  {
  }

  /** Folding changes the 26 capital letters and nothing else. */
  lemma LowerAt(s: string, i: nat)
    requires i < |s|
    ensures |Lower(s)| == |s|
    ensures Lower(s)[i] as int == s[i] as int + if 65 <= s[i] as int <= 90 then 32 else 0
  {
  }
}
