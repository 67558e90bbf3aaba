/**
 What the translation keeps of a pattern's meaning: the few respellings and what they
 stand for, the code points the twin names, and which tokens are refused.
 */
module PatternMeaning {
  import opened PatternLexer
  import opened PatternLaws
  import opened Wrappers
  import opened Decimals

  // ---- code points ----

  predicate IsOctal(c: char) { '0' <= c <= '7' }

  /** Octal digits read from the left. */
  function ReadOctal(digits: string, acc: nat): nat
    requires forall k :: 0 <= k < |digits| ==> '0' <= digits[k] <= '7'
  {
    if digits == "" then acc
    else ReadOctal(digits[1..], 8 * acc + (digits[0] - '0') as nat)
  }

  /** Two hexadecimal digits that stand for v. */
  ghost predicate HexPair(h: char, l: char, v: nat) {
    HexValue(h).Some? && HexValue(l).Some? && 16 * HexValue(h).value + HexValue(l).value == v
  }

  lemma DigitIs(v: nat)
    requires v < 16
    ensures HexValue(HexDigit(v)) == Some(v)
  {
  }

  /** \0 takes the octal digits that follow, two at most. */
  ghost predicate OctalTaken(s: string, n: nat) {
    && 2 <= n <= 4 && n <= |s| && (forall k :: 2 <= k < n ==> '0' <= s[k] <= '7')
    && (n == 4 || n == |s| || !IsOctal(s[n]))
  }

  /** The NUL escape with its octal digits becomes \x and two digits of the same value, on
      the wire and in the twin. */
  lemma OctalIsKept(s: string, inClass: bool)
    requires 2 <= |s| && s[0] == '\\' && s[1] == '0'
    ensures Escape(s, inClass).Some?
    ensures var e := Escape(s, inClass).value;
            && OctalTaken(s, e.n) && |e.wire| == 4 && e.wire[..2] == "\\x" && e.twin == e.wire
            && HexPair(e.wire[2], e.wire[3], ReadOctal(s[2..e.n], 0))
  {
    var n := OctalSpan(s);
    var digits := s[2..n];
    var v := OctalValue(digits);
    DigitIs(v / 16);
    DigitIs(v % 16);
    OctalByDigits(digits);
  }

  lemma OctalByDigits(digits: string)
    requires |digits| <= 2 && forall k :: 0 <= k < |digits| ==> '0' <= digits[k] <= '7'
    ensures OctalValue(digits) == ReadOctal(digits, 0)
  {
    if digits != "" {
      var a := (digits[0] - '0') as nat;
      var rest := digits[1..];
      if rest == "" {
        assert ReadOctal(rest, a) == a;
      } else {
        assert rest[0] == digits[1] && rest[1..] == "";
        assert ReadOctal("", 8 * a + (rest[0] - '0') as nat) == 8 * a + (rest[0] - '0') as nat;
      }
    }
  }

  lemma {:induction false} HexIsRead(v: nat, acc: nat, more: string)
    ensures ParseHexFrom(Hex(v) + more, acc) == ParseHexFrom(more, Shifted(acc, |Hex(v)|) + v)
    decreases v
  {
    if v < 16 {
      DigitIs(v);
      OneDigit(HexDigit(v), more, acc);
      assert Shifted(acc, 1) == 16 * acc;
    } else {
      HexIsRead(v / 16, acc, [HexDigit(v % 16)] + more);
      HexStep(v, acc, more);
    }
  }

  lemma HexStep(v: nat, acc: nat, more: string)
    requires 16 <= v
    requires var h, last := Hex(v / 16), [HexDigit(v % 16)] + more;
             ParseHexFrom(h + last, acc) == ParseHexFrom(last, Shifted(acc, |h|) + v / 16)
    ensures ParseHexFrom(Hex(v) + more, acc) == ParseHexFrom(more, Shifted(acc, |Hex(v)|) + v)
  {
    HexSplit(v, more);
    DigitIs(v % 16);
    OneDigit(HexDigit(v % 16), more, Shifted(acc, |Hex(v / 16)|) + v / 16);
  }

  lemma HexSplit(v: nat, more: string)
    requires 16 <= v
    ensures Hex(v) + more == Hex(v / 16) + ([HexDigit(v % 16)] + more) && |Hex(v)| == |Hex(v / 16)| + 1
  {
  }

  lemma OneDigit(d: char, more: string, acc: nat)
    requires HexValue(d).Some?
    ensures ParseHexFrom([d] + more, acc) == ParseHexFrom(more, 16 * acc + HexValue(d).value)
  {
    assert ([d] + more)[0] == d && ([d] + more)[1..] == more;
  }

  /** acc moved up k hexadecimal places. */
  function Shifted(acc: nat, k: nat): nat { if k == 0 then acc else 16 * Shifted(acc, k - 1) }

  lemma {:induction false} NothingShifted(k: nat)
    ensures Shifted(0, k) == 0
  {
    if 0 < k {
      NothingShifted(k - 1);
    }
  }

  lemma NothingMore(h: string, v: nat)
    requires ParseHexFrom(h + "", 0) == ParseHexFrom("", 0 + v)
    ensures ParseHexFrom(h, 0) == Some(v)
  {
    assert h + "" == h;
  }

  /** A code point spelled in hexadecimal reads back as itself. */
  lemma HexReadsBack(v: nat)
    ensures ParseHexFrom(Hex(v), 0) == Some(v)
  {
    HexIsRead(v, 0, "");
    NothingShifted(|Hex(v)|);
    NothingMore(Hex(v), v);
  }

  /** The twin is \x{...} and names code point v. */
  ghost predicate TwinNames(twin: string, v: nat) {
    && 5 <= |twin| && twin[..3] == "\\x{" && twin[|twin| - 1] == '}'
    && ParseHexFrom(twin[3..|twin| - 1], 0) == Some(v)
  }

  lemma GoNames(v: nat)
    ensures TwinNames(GoCodepoint(v), v)
  {
    var h := Hex(v);
    var t := GoCodepoint(v);
    HexReadsBack(v);
    assert t[3..|t| - 1] == h;
    assert h != "";
  }

  /** An escape that names a code point in hexadecimal goes out as it stands, and its twin
      names the same one. */
  lemma PointIsKept(s: string, inClass: bool)
    requires 2 <= |s| && s[0] == '\\' && Escape(s, inClass).Some?
    requires s[1] == 'u' || s[1] == 'U' || (s[1] == 'x' && At(s, 2, '{'))
    ensures var e := Escape(s, inClass).value;
            var digits := if s[1] == 'x' then s[3..e.n - 1] else s[2..e.n];
            && e.wire == s[..e.n] && digits != "" && ParseHexFrom(digits, 0).Some?
            && ParseHexFrom(digits, 0).value <= MAX_RUNE && TwinNames(e.twin, ParseHexFrom(digits, 0).value)
            && (s[1] == 'u' ==> |digits| == 4) && (s[1] == 'U' ==> |digits| == 8)
            && (s[1] == 'x' ==> s[e.n - 1] == '}' && forall k :: 3 <= k < e.n - 1 ==> s[k] != '}')
  {
    var e := Escape(s, inClass).value;
    GoNames(ParseHexFrom(if s[1] == 'x' then s[3..e.n - 1] else s[2..e.n], 0).value);
  }

  /** A control escape names its letter's position in the alphabet, escape names 27. */
  lemma ControlIsKept(s: string, inClass: bool)
    requires 3 <= |s| && s[0] == '\\' && s[1] == 'c' && IsLetter(s[2])
    ensures Escape(s, inClass).Some?
    ensures var e := Escape(s, inClass).value;
            && e.n == 3 && e.wire == s[..3]
            && TwinNames(e.twin, Position(s[2]))
  {
    PositionIs(s[2]);
    GoNames(Position(s[2]));
  }

  /** A letter's position in the alphabet. */
  function Position(c: char): nat
    requires IsLetter(c)
  {
    if 'a' <= c then (c - 'a') as nat + 1 else (c - 'A') as nat + 1
  }

  lemma PositionIs(c: char)
    requires IsLetter(c)
    ensures c as nat % 32 == Position(c)
  {
  }

  // ---- what goes on the wire ----

  /** A class literal the engine would read as syntax: an opening bracket, or an & or ~ that
      is followed by another. */
  predicate ClassSyntax(s: string) {
    s != "" && (s[0] == '[' || ((s[0] == '&' || s[0] == '~') && At(s, 1, s[0])))
  }

  predicate NegatedProperty(s: string) {
    && 2 <= |s| && s[0] == '\\' && (s[1] == 'p' || s[1] == 'P')
    && (if At(s, 2, '{') then At(s, 3, '^') else At(s, 2, '^'))
  }

  /** The name of a negated property, past its caret: up to the brace, or nothing. */
  ghost predicate NegatedName(s: string, n: nat, name: string) {
    if At(s, 2, '{') then 5 <= n <= |s| && name == s[4..n - 1] && s[n - 1] == '}' && '}' !in name
    else n == 3 && name == ""
  }

  /** The wire form of a token: one of four respellings, or the two bytes an accented byte is
      echoed as, or the token itself. */
  lemma TokenWire(s: string, st: State)
    requires s != "" && Next(s, st).Some?
    ensures var e := Next(s, st).value.emit;
            && 0 < e.n <= |s|
            && if s[0] == '\\' && At(s, 1, '0') then
                 OctalTaken(s, e.n) && |e.wire| == 4 && e.wire[..2] == "\\x"
                 && HexPair(e.wire[2], e.wire[3], ReadOctal(s[2..e.n], 0))
               else if s[0] == '\\' && At(s, 1, 'Z') then e.n == 2 && e.wire == "\\z"
               else if NegatedProperty(s) then
                 exists name :: NegatedName(s, e.n, name)
                   && e.wire == (if s[1] == 'p' then "\\P{" else "\\p{") + name + "}"
               else if st.inClass && ClassSyntax(s) && !(s[0] == '[' && At(s, 1, ':')) then
                 e.n == 1 && e.wire == ['\\', s[0]]
               else if !st.inClass && s[0] >= HIGH then
                 e.n == 1 && |e.wire| == 2
                 && (s[0] < '\U{100}' ==>
                       64 * (e.wire[0] as nat - 0xC0) + (e.wire[1] as nat - 0x80) == s[0] as nat
                       && 0xC2 <= e.wire[0] as nat <= 0xC3 && 0x80 <= e.wire[1] as nat < 0xC0)
               else e.wire == s[..e.n]
  {
    if s[0] == '\\' {
      if At(s, 1, '0') {
        OctalIsKept(s, st.inClass);
      } else if NegatedProperty(s) {
        NegatedWire(s);
      }
    }
  }

  lemma NegatedWire(s: string)
    requires NegatedProperty(s) && EscapeProperty(s).Some?
    ensures var e := EscapeProperty(s).value;
            exists name :: NegatedName(s, e.n, name) && e.wire == (if s[1] == 'p' then "\\P{" else "\\p{") + name + "}"
  {
    var e := EscapeProperty(s).value;
    var p := PropertySpan(s).value;
    var name := p.name[1..];
    if At(s, 2, '{') {
      assert p.name == s[3..e.n - 1] && name == s[4..e.n - 1];
    }
    assert NegatedName(s, e.n, name);
    if s[1] == 'p' {
      assert "\\" + ['P'] + "{" == "\\P{";
    } else {
      assert "\\" + ['p'] + "{" == "\\p{";
    }
  }

  // ---- what is refused ----

  /** A code point in hexadecimal. */
  predicate NamesPoint(digits: string) {
    digits != "" && ParseHexFrom(digits, 0).Some? && ParseHexFrom(digits, 0).value <= MAX_RUNE
  }

  /** The letters, beside those with a form of their own, that the engine takes after a
      backslash. */
  const LETTERS := "AabBdDefGhHnrsStvwWzZ"

  /** The escapes that are taken. */
  ghost predicate EscapeForm(s: string, inClass: bool)
    requires 2 <= |s|
  {
    var c := s[1];
    if c == 'p' || c == 'P' then 2 < |s| && (s[2] == '{' ==> exists e: nat :: 3 < e < |s| && FirstAt(s, '}', e))
    else if c == 'k' then !inClass && At(s, 2, '<') && exists e: nat :: 2 < e < |s| && FirstAt(s, '>', e)
    else if c == 'x' && At(s, 2, '{') then
      exists e: nat :: 3 <= e < |s| && FirstAt(s, '}', e) && NamesPoint(s[3..e])
    else if c == 'u' then 6 <= |s| && NamesPoint(s[2..6])
    else if c == 'U' then 10 <= |s| && NamesPoint(s[2..10])
    else if c == 'c' then 3 <= |s| && IsLetter(s[2])
    else if c == 'K' || '1' <= c <= '9' then !inClass
    else if IsLetter(c) then c == 'x' || c in LETTERS
    else c < HIGH
  }

  /** The first c of s stands at e. */
  ghost predicate FirstAt(s: string, c: char, e: nat)
    requires e < |s|
  {
    s[e] == c && forall k :: 0 <= k < e ==> s[k] != c
  }

  lemma FirstIs(s: string, c: char)
    ensures IndexOf(s, c) < |s| <==> exists e: nat :: e < |s| && FirstAt(s, c, e)
    ensures forall e: nat :: e < |s| && FirstAt(s, c, e) ==> e == IndexOf(s, c)
  {
    if IndexOf(s, c) < |s| {
      assert FirstAt(s, c, IndexOf(s, c));
    }
  }

  /** An escape is taken exactly when it has such a form. */
  lemma EscapeTaken(s: string, inClass: bool)
    requires 2 <= |s| && s[0] == '\\'
    ensures Escape(s, inClass).Some? <==> EscapeForm(s, inClass)
  {
    FirstIs(s, '}');
    FirstIs(s, '>');
    if s[1] != 'p' && s[1] != 'P' && s[1] != 'k' && s[1] != 'x' && s[1] != 'u' && s[1] != 'U' && s[1] != 'c' &&
       s[1] != '0' {
      ShortTaken(s[1], inClass);
    }
  }

  lemma ShortTaken(c: char, inClass: bool)
    requires c != 'p' && c != 'P' && c != 'k' && c != 'x' && c != 'u' && c != 'U' && c != 'c' && c != '0'
    ensures ShortEscape(c, inClass).Some? <==>
            if c == 'K' || '1' <= c <= '9' then !inClass else if IsLetter(c) then c in LETTERS else c < HIGH
  {
  }

  // ---- groups ----

  /** The "(?" construct at the start of s is a comment, a named backreference, or flags for
      what follows: it opens no group. */
  ghost predicate OpensNone(s: string) {
    || At(s, 2, '#') || (At(s, 2, 'P') && At(s, 3, '='))
    || exists j: nat :: 2 < j < |s| && s[j] == ')' && forall k :: 2 <= k < j ==> IsFlag(s[k])
  }

  /** Inline flags: some flags, one dash at most and not last, and a parenthesis or colon. */
  ghost predicate FlagForm(s: string, j: nat) {
    && 2 < j < |s| && (s[j] == ')' || s[j] == ':') && s[j - 1] != '-'
    && (forall k :: 2 <= k < j ==> IsFlag(s[k]))
    && forall k, l :: 2 <= k < l < j ==> s[k] != '-' || s[l] != '-'
  }

  ghost predicate GroupForm(s: string) {
    || At(s, 2, ':') || At(s, 2, '=') || At(s, 2, '!') || At(s, 2, '>') || At(s, 2, '<')
    || (At(s, 2, 'P') && At(s, 3, '<'))
    || ((At(s, 2, '#') || (At(s, 2, 'P') && At(s, 3, '='))) && exists e: nat :: e < |s| && FirstAt(s, ')', e))
    || exists j: nat :: FlagForm(s, j)
  }

  lemma {:induction false} CountNone(s: string, c: char)
    ensures Count(s, c) == 0 <==> forall k :: 0 <= k < |s| ==> s[k] != c
  {
    if s != "" {
      CountNone(s[1..], c);
      assert forall k :: 0 <= k < |s[1..]| ==> s[1..][k] == s[k + 1];
      assert forall k :: 0 < k < |s| ==> s[k] == s[1..][k - 1];
    }
  }

  lemma {:induction false} CountAtMostOne(s: string, c: char)
    ensures Count(s, c) <= 1 <==> forall k, l :: 0 <= k < l < |s| ==> s[k] != c || s[l] != c
  {
    if s != "" {
      var t := s[1..];
      CountAtMostOne(t, c);
      CountNone(t, c);
      assert forall k :: 0 <= k < |t| ==> t[k] == s[k + 1];
      if Count(s, c) <= 1 {
        forall k, l | 0 <= k < l < |s| ensures s[k] != c || s[l] != c {
          assert s[l] == t[l - 1] && (0 < k ==> s[k] == t[k - 1]);
        }
      }
      if forall k, l :: 0 <= k < l < |s| ==> s[k] != c || s[l] != c {
        forall k, l | 0 <= k < l < |t| ensures t[k] != c || t[l] != c {
          assert t[k] == s[k + 1] && t[l] == s[l + 1];
        }
        if s[0] == c {
          forall l | 0 <= l < |t| ensures t[l] != c {
            assert t[l] == s[l + 1];
          }
        }
      }
    }
  }

  lemma FlagsTaken(s: string)
    requires OpensGroup(s)
    ensures FlagGroup(s).Some? <==> exists j: nat :: FlagForm(s, j)
    ensures FlagGroup(s).Some? ==> FlagForm(s, FlagGroup(s).value.n - 1)
  {
    var rest := s[2..];
    var j := FlagsEnd(rest);
    CountAtMostOne(rest[..j], '-');
    assert forall k :: 0 <= k < |rest| ==> rest[k] == s[k + 2];
    if i: nat :| FlagForm(s, i) {
      FlagsEndAt(s, i);
    }
    if j < |rest| && FlagGroup(s).Some? {
      FlagsForm(s, j);
    }
  }

  lemma FlagsEndAt(s: string, i: nat)
    requires OpensGroup(s) && FlagForm(s, i)
    ensures FlagGroup(s).Some?
  {
    var rest := s[2..];
    assert forall k :: 0 <= k < i - 2 ==> IsFlag(rest[k]) by {
      forall k | 0 <= k < i - 2 ensures IsFlag(rest[k]) {
        assert rest[k] == s[k + 2];
      }
    }
    assert rest[i - 2] == s[i] && !IsFlag(s[i]);
    var flags := rest[..i - 2];
    assert FlagsEnd(rest) == i - 2;
    assert forall k :: 0 <= k < |flags| ==> flags[k] == s[k + 2];
    CountAtMostOne(flags, '-');
  }

  lemma FlagsForm(s: string, j: nat)
    requires OpensGroup(s) && FlagGroup(s).Some? && j == FlagsEnd(s[2..])
    ensures FlagForm(s, j + 2) && FlagGroup(s).value.n == j + 3
  {
    var rest := s[2..];
    var flags := rest[..j];
    CountAtMostOne(flags, '-');
    assert forall k :: 2 <= k < j + 2 ==> s[k] == rest[k - 2] == flags[k - 2];
    assert flags[|flags| - 1] == s[j + 1];
  }

  /** A "(?" construct is taken exactly when it has such a form. */
  lemma GroupTaken(s: string)
    requires OpensGroup(s)
    ensures Group(s).Some? <==> GroupForm(s)
  {
    if 2 < |s| && !IsFlag(s[2]) {
      FirstIs(s, ')');
      NoFlags(s);
    } else {
      FlagsTaken(s);
    }
  }

  lemma NoFlags(s: string)
    requires 2 < |s| && !IsFlag(s[2])
    ensures forall j: nat :: !FlagForm(s, j)
  {
    forall j: nat ensures !FlagForm(s, j) {
      if 2 < j {
        assert !IsFlag(s[2]);
      }
    }
  }

  /** Go's flags are the flags that Go has, in order. */
  lemma {:induction false} FlagsKept(s: string, f: char)
    ensures Count(GoFlags(s), f) == if f == 'x' || f == 'u' then 0 else Count(s, f)
  {
    if s != "" {
      FlagsKept(s[1..], f);
      var g := GoFlags(s[1..]);
      assert ([s[0]] + g)[1..] == g && "" + g == g;
    }
  }

  lemma {:induction false} CountJoin(a: string, b: string, c: char)
    ensures Count(a + b, c) == Count(a, c) + Count(b, c)
  {
    if a == "" {
      assert a + b == b;
    } else {
      assert (a + b)[1..] == a[1..] + b;
      CountJoin(a[1..], b, c);
    }
  }

  /** How many more groups the text opens than it closes. */
  function Open(s: string): int { Count(s, '(') - Count(s, ')') }

  lemma OpenJoin(a: string, b: string)
    ensures Open(a + b) == Open(a) + Open(b)
  {
    CountJoin(a, b, '(');
    CountJoin(a, b, ')');
  }

  lemma OpenShort()
    ensures Open("(?") == 1 && Open("(?:") == 1 && Open("(?<") == 1 && Open("") == 0 && Open("x") == 0
    ensures Open(")") == -1 && Open(":") == 0
  {
    assert "(?"[1..] == "?" && "(?:"[1..] == "?:" && "(?<"[1..] == "?<" && "?:"[1..] == ":" && "?<"[1..] == "<";
    assert "?"[1..] == "" && ":"[1..] == "" && "<"[1..] == "" && "x"[1..] == "" && ")"[1..] == "";
  }

  lemma TrimOpens(g: string)
    ensures Open(TrimDash(g)) == Open(g)
  {
    if g != "" && g[|g| - 1] == '-' {
      var rest := g[..|g| - 1];
      assert g == rest + "-";
      OpenJoin(rest, "-");
      assert "-"[1..] == "";
    }
  }

  ghost predicate AllFlags(flags: string) { forall k :: 0 <= k < |flags| ==> IsFlag(flags[k]) }

  lemma FlagsOpenNone(flags: string)
    requires AllFlags(flags)
    ensures Open(TrimDash(GoFlags(flags))) == 0
  {
    var g := GoFlags(flags);
    NoneOf(flags, '(');
    NoneOf(flags, ')');
    TrimOpens(g);
    assert Open(g) == 0;
  }

  lemma NoneOf(flags: string, c: char)
    requires !IsFlag(c) && AllFlags(flags)
    ensures Count(GoFlags(flags), c) == 0
  {
    FlagsKept(flags, c);
    CountNone(flags, c);
  }

  lemma NotFlagged(s: string)
    requires 2 < |s| && !IsFlag(s[2])
    ensures forall j: nat :: 2 < j < |s| && s[j] == ')' ==> exists k :: 2 <= k < j && !IsFlag(s[k])
  {
    forall j: nat | 2 < j < |s| && s[j] == ')' ensures exists k :: 2 <= k < j && !IsFlag(s[k]) {
      assert !IsFlag(s[2]);
    }
  }

  /** The twin opens a group exactly when the construct does, so an unbalanced parenthesis
      stays unbalanced. */
  lemma GroupBalance(s: string)
    requires OpensGroup(s) && Group(s).Some?
    ensures Open(Group(s).value.twin) == if OpensNone(s) then 0 else 1
  {
    OpenShort();
    if 2 < |s| && !IsFlag(s[2]) {
      NotFlagged(s);
    } else {
      FlagBalance(s);
      FlagsClose(s, FlagGroup(s).value.n - 1);
    }
  }

  /** Flags end at their first byte that is none. */
  lemma FlagsClose(s: string, i: nat)
    requires FlagForm(s, i)
    ensures (exists j: nat :: 2 < j < |s| && s[j] == ')' && forall k :: 2 <= k < j ==> IsFlag(s[k])) <==> s[i] == ')'
  {
    assert !IsFlag(s[i]);
    if j: nat :| 2 < j < |s| && s[j] == ')' && forall k :: 2 <= k < j ==> IsFlag(s[k]) {
      assert !IsFlag(s[j]);
      assert j == i;
    }
  }

  lemma FlagBalance(s: string)
    requires OpensGroup(s) && FlagGroup(s).Some?
    ensures Open(FlagGroup(s).value.twin) == if s[FlagGroup(s).value.n - 1] == ')' then 0 else 1
    ensures FlagForm(s, FlagGroup(s).value.n - 1)
  {
    var rest := s[2..];
    var j := FlagsEnd(rest);
    var flags := rest[..j];
    FlagsTaken(s);
    FlagsForm(s, j);
    assert rest[j] == s[j + 2];
    FlagsOpenNone(flags);
    OpenShort();
    var twin := TrimDash(GoFlags(flags));
    OpenJoin("(?" + twin, [rest[j]]);
    OpenJoin("(?", twin);
    assert rest[j] == ')' ==> [rest[j]] == ")";
    assert rest[j] == ':' ==> [rest[j]] == ":";
  }

  // ---- quantifiers ----

  /** A counted repeat as it is spelled. */
  function Spelled(b: Bounds): string { "{" + Body(b) + "}" }

  function Body(b: Bounds): string { if b.comma then b.lo + "," + b.hi else b.lo }

  /** Digits, the upper bound that of the lower one without a comma. */
  ghost predicate WellCounted(b: Bounds) {
    b.lo != "" && IsDigits(b.lo) && IsDigits(b.hi) && (!b.comma ==> b.hi == b.lo) && b.n == |Body(b)| + 2
  }

  lemma BodyIsRead(b: Bounds)
    requires WellCounted(b)
    ensures BodyBounds(Body(b), b.n) == Some(b)
  {
    var body := Body(b);
    assert forall k :: 0 <= k < |b.lo| ==> body[k] == b.lo[k];
    assert forall k :: 0 <= k < |b.lo| ==> IsDigit(body[k]);
    if b.comma {
      assert body[|b.lo|] == ',';
      IndexIs(body, ',', |b.lo|);
      assert body[..|b.lo|] == b.lo && body[|b.lo| + 1..] == b.hi;
    } else {
      assert IndexOf(body, ',') == |body|;
      assert body[..|body|] == body;
    }
  }

  lemma BodyHasNoBrace(b: Bounds)
    requires WellCounted(b)
    ensures forall k :: 0 <= k < |Body(b)| ==> Body(b)[k] != '}'
  {
    var body := Body(b);
    forall k | 0 <= k < |body| ensures body[k] != '}' {
      if k < |b.lo| {
        assert body[k] == b.lo[k] && IsDigit(b.lo[k]);
      } else if k > |b.lo| {
        assert body[k] == b.hi[k - |b.lo| - 1] && IsDigit(b.hi[k - |b.lo| - 1]);
      }
    }
  }

  lemma BracesAt(body: string, r: string)
    requires forall k :: 0 <= k < |body| ==> body[k] != '}'
    ensures var s := "{" + body + "}" + r;
            IndexOf(s, '}') == |body| + 1 < |s| && s[1..|body| + 1] == body && s[0] == '{'
  {
    var s := "{" + body + "}" + r;
    assert forall k :: 0 < k < |body| + 1 ==> s[k] == body[k - 1];
    assert s[|body| + 1] == '}';
    IndexIs(s, '}', |body| + 1);
  }

  /** What starts with a spelled repeat is read as it, */
  lemma SpelledIsRead(b: Bounds, r: string)
    requires WellCounted(b)
    ensures RepeatBounds(Spelled(b) + r) == Some(b)
  {
    BodyHasNoBrace(b);
    BracesAt(Body(b), r);
    ReadsBody(Spelled(b) + r, Body(b));
    BodyIsRead(b);
  }

  lemma ReadsBody(s: string, body: string)
    requires s != "" && s[0] == '{' && IndexOf(s, '}') == |body| + 1 < |s| && s[1..|body| + 1] == body
    ensures RepeatBounds(s) == BodyBounds(body, |body| + 2)
  {
  }

  lemma BodyIs(body: string, n: nat)
    requires BodyBounds(body, n).Some? && n == |body| + 2
    ensures var b := BodyBounds(body, n).value; WellCounted(b) && body == Body(b)
  {
    var b := BodyBounds(body, n).value;
    var comma := IndexOf(body, ',');
    if comma < |body| {
      assert body == body[..comma] + "," + body[comma + 1..];
    } else {
      assert body[..comma] == body;
    }
  }

  lemma Braced(s: string, end: nat)
    requires 0 < end < |s| && s[0] == '{' && s[end] == '}'
    ensures s[..end + 1] == "{" + s[1..end] + "}"
  {
  }

  /** and what is read as a repeat starts with it. */
  lemma ReadIsSpelled(s: string)
    requires s != "" && s[0] == '{' && RepeatBounds(s).Some?
    ensures var b := RepeatBounds(s).value; WellCounted(b) && b.n <= |s| && s[..b.n] == Spelled(b)
  {
    var end := IndexOf(s, '}');
    BodyIs(s[1..end], end + 1);
    Braced(s, end);
  }

  /** The twin of a repeat is a repeat with the same commas, each count clamped to Go's
      limit. */
  lemma RepeatIsClamped(s: string)
    requires s != "" && s[0] == '{' && RepeatBounds(s).Some? && Repeat(s).Some?
    ensures var b, e := RepeatBounds(s).value, Repeat(s).value.0;
            && e.wire == s[..b.n] && e.n == b.n && Repeat(s).value.1 == QGreedy
            && exists t: Bounds ::
                 && WellCounted(t) && e.twin == Spelled(t) && t.comma == b.comma && (t.hi == "" <==> b.hi == "")
                 && Decimal(t.lo) == Least(Decimal(b.lo), MAX_TWIN_REPEAT)
                 && Decimal(t.hi) == Least(Decimal(b.hi), MAX_TWIN_REPEAT)
  {
    var b, e := RepeatBounds(s).value, Repeat(s).value.0;
    ReadIsSpelled(s);
    ClampValue(b.lo);
    ClampValue(b.hi);
    var lo, hi := ClampRepeat(b.lo), ClampRepeat(b.hi);
    var t := Bounds(lo, hi, b.comma, |TwinCounts(b.lo, b.hi, b.comma)| + 2);
    assert WellCounted(t) && e.twin == Spelled(t);
  }

  /** A quantifier is refused only after a possessive one, or when its counts are inverted;
      and what the next token is told of it. */
  lemma QuantifierTaken(s: string, prev: Quant)
    requires s != "" && IsQuantifier(s[0])
    ensures Quantifier(s, prev).None? <==>
            || (prev == QPossessive && (s[0] != '{' || RepeatBounds(s).Some?))
            || (s[0] == '{' && RepeatBounds(s).Some? && RepeatBounds(s).value.hi != ""
                && Decimal(RepeatBounds(s).value.lo) > Decimal(RepeatBounds(s).value.hi))
    ensures Quantifier(s, prev).Some? ==>
              var q := Quantifier(s, prev).value.1;
              && (q == QPossessive <==> s[0] == '+' && (prev == QGreedy || prev == QLazy))
              && (q == QLazy <==> s[0] == '?' && prev == QGreedy)
              && (q == QNone <==> s[0] == '{' && RepeatBounds(s).None?)
  {
    if s[0] == '{' && RepeatBounds(s).Some? {
      RepeatIsOrdered(s);
    }
  }

  // ---- classes ----

  /** Brackets: which token opens or closes a class and how much it takes. A bracket just
      after the opening one, or after its caret, is a literal; a POSIX class goes up to its
      own close. */
  lemma BracketTaken(s: string, st: State)
    requires s != "" && Next(s, st).Some?
    ensures var t := Next(s, st).value; var n := t.emit.n;
            && (t.next.inClass <==> if st.inClass then s[0] != ']' else s[0] == '[')
            && (!st.inClass && s[0] == '[' ==>
                  if At(s, 1, '^') then (if At(s, 2, ']') then s[..n] == "[^]" else s[..n] == "[^")
                  else if At(s, 1, ']') then s[..n] == "[]" else s[..n] == "[")
            && (st.inClass && s[0] == '[' && At(s, 1, ':') ==>
                  4 <= n + 1 && s[n - 2] == ':' && s[n - 1] == ']'
                  && forall k :: 0 <= k < n - 2 ==> !(s[k] == ':' && s[k + 1] == ']'))
  {
  }

  // ---- the twin ----

  /** What the twin says where the wire keeps an escape Go does not share: a literal for
      what stands for a character, nothing but an assertion of width zero for an assertion,
      and in a class always one item. */
  ghost predicate EscapeTwin(e: Emit, c: char, inClass: bool)
    requires e.wire != ""
  {
    if c == 'p' || c == 'P' || c == 'k' || '1' <= c <= '9' then e.twin == "x"
    else if c == 'A' || c == 'b' || c == 'B' || c == 'G' || c == 'z' || c == 'Z' then
      if inClass then e.twin == "x"
      else |e.twin| == 2 && e.twin[0] == '\\' && e.twin[1] == (if c == 'Z' then 'z' else if c == 'G' then 'b' else c)
    else if c == 'K' then !inClass && e.twin == ""
    else if c == 'h' || c == 'H' then e.twin == "\\s"
    else if c == 'e' then e.twin == "\\x{1b}"
    else e.twin == e.wire || exists v :: TwinNames(e.twin, v)
  }

  predicate IsRepeat(s: string) { s != "" && s[0] == '{' && RepeatBounds(s).Some? }

  predicate IsSuffix(s: string, st: State) {
    s != "" && !st.inClass && s[0] != '\\' && s[0] != '[' && !OpensGroup(s) && IsQuantifier(s[0])
  }

  /** The twin of a token that opens no group: that of an escape, nothing for the plus of a
      possessive quantifier, clamped counts for a repeat, and otherwise the wire form. Only
      a quantifier is remembered by the token after it. */
  lemma TokenTwin(s: string, st: State)
    requires s != "" && Next(s, st).Some?
    ensures var t := Next(s, st).value;
            && (!IsSuffix(s, st) ==> t.next.prev == QNone)
            && if s[0] == '\\' then 2 <= |s| && t.emit.wire != "" && EscapeTwin(t.emit, s[1], st.inClass)
               else if !st.inClass && OpensGroup(s) then true
               else if IsSuffix(s, st) && IsRepeat(s) then t.next.prev == QGreedy
               else t.emit.twin == if t.next.prev == QPossessive then "" else t.emit.wire
  {
    if s[0] == '\\' {
      EscapeTwinIs(s, st.inClass);
    }
  }

  lemma EscapeTwinIs(s: string, inClass: bool)
    requires 2 <= |s| && s[0] == '\\' && Escape(s, inClass).Some?
    ensures EscapeTwin(Escape(s, inClass).value, s[1], inClass)
  {
    if s[1] == 'u' || s[1] == 'U' || (s[1] == 'x' && At(s, 2, '{')) {
      PointIsKept(s, inClass);
    } else if s[1] == 'c' {
      ControlIsKept(s, inClass);
    } else if s[1] == '0' {
      OctalIsKept(s, inClass);
    } else if s[1] != 'p' && s[1] != 'P' && s[1] != 'k' && s[1] != 'x' {
      ShortTwin(s[1], inClass);
    }
  }

  lemma ShortTwin(c: char, inClass: bool)
    requires ShortEscape(c, inClass).Some?
    ensures var e := ShortEscape(c, inClass).value;
            && e.0 == (if c == 'Z' then "\\z" else ['\\', c])
            && if c == 'A' || c == 'b' || c == 'B' || c == 'G' || c == 'z' || c == 'Z' then
                 if inClass then e.1 == "x"
                 else e.1 == ['\\', if c == 'Z' then 'z' else if c == 'G' then 'b' else c]
               else if IsDigit(c) then e.1 == "x"
               else if c == 'K' then !inClass && e.1 == ""
               else if c == 'h' || c == 'H' then e.1 == "\\s"
               else if c == 'e' then e.1 == "\\x{1b}"
               else e.1 == e.0
  {
  }
}
