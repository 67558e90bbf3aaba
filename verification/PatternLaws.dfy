/**
 Translating a translated pattern changes nothing: exactly when no property name is a
 bare ^ or starts with ^^, and no byte of 0x80 or more stands outside every construct.
 */
module PatternLaws {
  import opened PatternLexer
  import opened Wrappers
  import opened Decimals

  // ---- the tokens that break it ----

  /** \p{^}, \p^ and \p{^^...}: the caret negation is respelled once too often. */
  ghost predicate CaretTrap(s: string) {
    && |s| >= 2 && s[0] == '\\' && (s[1] == 'p' || s[1] == 'P')
    && PropertySpan(s).Some?
    && PropertySpan(s).value.name[0] == '^'
    && (|PropertySpan(s).value.name| == 1 || PropertySpan(s).value.name[1] == '^')
  }

  /** A byte that is echoed as two. */
  ghost predicate EchoTrap(s: string, st: State) {
    s != "" && s[0] >= HIGH && !st.inClass
  }

  /** Some token of s is such a one. */
  ghost predicate Traps(s: string, st: State)
    decreases |s|
  {
    s != "" && Next(s, st).Some? &&
    (CaretTrap(s) || EchoTrap(s, st) || Traps(s[Next(s, st).value.emit.n..], Next(s, st).value.next))
  }

  // ---- what the rest of a pattern and its wire form have in common ----

  /** r, the wire form of s, starts with the byte s starts with, but for the bytes
      that are escaped in a class and those echoed as two. */
  ghost predicate Head(s: string, r: string, inClass: bool) {
    && (s == "" <==> r == "")
    && (s != "" ==>
      || r[0] == s[0]
      || (inClass && r[0] == '\\' && (s[0] == '[' || s[0] == '&' || s[0] == '~'))
      || (!inClass && s[0] >= HIGH && r[0] >= HIGH))
  }

  lemma NextHead(s: string, st: State)
    requires s != "" && Next(s, st).Some?
    ensures Head(s, Next(s, st).value.emit.wire, st.inClass)
  {
  }

  lemma RunHead(s: string, st: State)
    requires Run(s, st).Some?
    ensures Head(s, Run(s, st).value.wire, st.inClass)
  {
    if s != "" {
      NextHead(s, st);
    }
  }

  /** A byte that outside a class stands for itself and starts nothing. */
  ghost predicate Ordinary(c: char) {
    c < HIGH && c != '\\' && c != '[' && c != '(' && !IsQuantifier(c)
  }

  lemma OrdinaryNext(s: string, st: State)
    requires s != "" && Ordinary(s[0]) && !st.inClass
    ensures Next(s, st) == Some(Token(Emit(1, [s[0]], [s[0]]), State(false, QNone)))
  {
  }

  /** r is the wire form of s. */
  ghost predicate Spells(s: string, st: State, r: string) {
    Run(s, st).Some? && Run(s, st).value.wire == r
  }

  lemma OrdinaryStep(s: string, st: State, r: string)
    requires Spells(s, st, r) && !st.inClass && s != "" && Ordinary(s[0])
    ensures r != "" && r[0] == s[0] && Spells(s[1..], State(false, QNone), r[1..])
  {
    OrdinaryNext(s, st);
    var rest := Run(s[1..], State(false, QNone)).value.wire;
    assert r == [s[0]] + rest && r[1..] == rest;
  }

  /** Ordinary bytes are echoed one for one: a stretch of them in s is in its wire form. */
  lemma {:induction false} OrdinaryKept(s: string, st: State, r: string, k: nat)
    requires Spells(s, st, r) && !st.inClass
    requires k <= |s| && forall i :: 0 <= i < k ==> Ordinary(s[i])
    ensures k <= |r| && forall i :: 0 <= i < k ==> r[i] == s[i]
    decreases k
  {
    if 0 < k {
      OrdinaryStep(s, st, r);
      OrdinaryKept(s[1..], State(false, QNone), r[1..], k - 1);
      assert forall i :: 0 < i < k ==> r[i] == r[1..][i - 1] && s[i] == s[1..][i - 1];
    }
  }

  /** And a stretch of them in the wire form was in s. */
  lemma {:induction false} OrdinaryWas(s: string, st: State, r: string, k: nat)
    requires Spells(s, st, r) && !st.inClass
    requires k <= |r| && forall i :: 0 <= i < k ==> Ordinary(r[i])
    ensures k <= |s| && forall i :: 0 <= i < k ==> s[i] == r[i]
    decreases k
  {
    if 0 < k {
      RunHead(s, st);
      OrdinaryStep(s, st, r);
      OrdinaryWas(s[1..], State(false, QNone), r[1..], k - 1);
      assert forall i :: 0 < i < k ==> r[i] == r[1..][i - 1] && s[i] == s[1..][i - 1];
    }
  }

  // ---- scanning ahead within a token ----

  ghost predicate Same(s: string, q: string, n: nat) {
    n <= |s| && n <= |q| && s[..n] == q[..n]
  }

  lemma IndexIs(s: string, c: char, i: nat)
    requires i < |s| && s[i] == c && forall k :: 0 <= k < i ==> s[k] != c
    ensures IndexOf(s, c) == i
  {
  }

  lemma IndexStable(s: string, q: string, n: nat, c: char)
    requires Same(s, q, n) && IndexOf(s, c) < n
    ensures IndexOf(q, c) == IndexOf(s, c)
  {
    var i := IndexOf(s, c);
    assert forall k :: 0 <= k <= i ==> q[k] == s[..n][k];
    IndexIs(q, c, i);
  }

  lemma CloseStable(s: string, q: string, n: nat)
    requires Same(s, q, n) && IndexOfClose(s) + 2 <= n
    ensures IndexOfClose(q) == IndexOfClose(s)
  {
    var i := IndexOfClose(s);
    assert forall k :: 0 <= k < i + 2 ==> q[k] == s[..n][k];
  }

  lemma FlagsStable(s: string, q: string, n: nat)
    requires Same(s, q, n) && FlagsEnd(s) < n
    ensures FlagsEnd(q) == FlagsEnd(s)
  {
    var j := FlagsEnd(s);
    assert forall k :: 0 <= k <= j ==> q[k] == s[..n][k];
  }

  // ---- each token of the wire form, read again ----

  /** q, read again where s was read, is the token e spelled as it stands. */
  ghost function Respelled(e: Emit): Option<Emit> {
    Some(Emit(|e.wire|, e.wire, e.twin))
  }

  /** A braced property name is found again where it was spelled. */
  lemma BracedName(q: string, name: string)
    requires name != "" && |q| >= 4 + |name| && q[0] == '\\' && q[1] != '}' && q[2] == '{' && q[3 + |name|] == '}'
    requires forall k :: 0 <= k < |name| ==> q[3 + k] == name[k] && name[k] != '}'
    ensures PropertySpan(q) == Some(Property(name, 4 + |name|))
  {
    forall k | 3 <= k < 3 + |name| ensures q[k] == name[k - 3] {
      assert q[3 + (k - 3)] == name[k - 3];
    }
    IndexIs(q, '}', 3 + |name|);
    assert q[3..3 + |name|] == name;
  }

  lemma CaretAgain(s: string, r: string)
    requires |s| >= 2 && s[0] == '\\' && (s[1] == 'p' || s[1] == 'P')
    requires PropertySpan(s).Some? && PropertySpan(s).value.name[0] == '^' && !CaretTrap(s)
    ensures var e := EscapeProperty(s).value; EscapeProperty(e.wire + r) == Respelled(e)
  {
    var e := EscapeProperty(s).value;
    var more := PropertySpan(s).value.name[1..];
    var q := e.wire + r;
    assert forall k :: 0 <= k < |e.wire| ==> q[k] == e.wire[k];
    assert forall k :: 0 <= k < |more| ==> e.wire[3 + k] == more[k];
    BracedName(q, more);
    assert q[..|e.wire|] == e.wire;
  }

  lemma PropertyAgain(s: string, r: string)
    requires |s| >= 2 && s[0] == '\\' && (s[1] == 'p' || s[1] == 'P')
    requires PropertySpan(s).Some? && PropertySpan(s).value.name[0] != '^'
    ensures var e := EscapeProperty(s).value; EscapeProperty(e.wire + r) == Respelled(e)
  {
    var Property(name, n) := PropertySpan(s).value;
    var q := s[..n] + r;
    assert q[..n] == s[..n];
    assert q[2] == s[2];
    if s[2] == '{' {
      IndexStable(s, q, n, '}');
      assert q[3..n - 1] == s[3..n - 1];
    } else {
      assert q[2..3] == s[2..3];
    }
    assert PropertySpan(q) == PropertySpan(s);
  }

  lemma HexAgain(s: string, r: string)
    requires |s| >= 2 && s[0] == '\\' && s[1] == 'x' && EscapeHex(s).Some?
    requires !At(s, 2, '{') ==> !At(r, 0, '{')
    ensures var e := EscapeHex(s).value; EscapeHex(e.wire + r) == Respelled(e)
  {
    var e := EscapeHex(s).value;
    var q := e.wire + r;
    assert q[..e.n] == s[..e.n];
    if |s| > 2 && s[2] == '{' {
      assert q[2] == s[2];
      IndexStable(s, q, e.n, '}');
      assert q[3..e.n - 1] == s[3..e.n - 1];
    } else if r != "" {
      assert q[2] == r[0];
    }
  }

  lemma FixedHexAgain(s: string, r: string)
    requires |s| >= 2 && s[0] == '\\' && EscapeFixedHex(s).Some?
    ensures var e := EscapeFixedHex(s).value; EscapeFixedHex(e.wire + r) == Respelled(e)
  {
    var e := EscapeFixedHex(s).value;
    var q := e.wire + r;
    assert q[..e.n] == s[..e.n] && q[1] == s[1];
    assert q[2..e.n] == s[2..e.n];
  }

  lemma DelimitedAgain(s: string, close: char, twin: string, r: string)
    requires s != "" && Delimited(s, close, twin).Some?
    ensures var e := Delimited(s, close, twin).value; Delimited(e.wire + r, close, twin) == Respelled(e)
  {
    var e := Delimited(s, close, twin).value;
    assert (e.wire + r)[..e.n] == s[..e.n];
    IndexStable(s, e.wire + r, e.n, close);
  }

  lemma EscapeAgain(s: string, inClass: bool, r: string)
    requires |s| >= 2 && s[0] == '\\' && s[1] != '0' && Escape(s, inClass).Some? && !CaretTrap(s)
    requires s[1] == 'x' && !At(s, 2, '{') ==> !At(r, 0, '{')
    ensures var e := Escape(s, inClass).value; Escape(e.wire + r, inClass) == Respelled(e)
  {
    var e := Escape(s, inClass).value;
    var q := e.wire + r;
    var c := s[1];
    if c == 'p' || c == 'P' {
      if PropertySpan(s).value.name[0] == '^' {
        CaretAgain(s, r);
      } else {
        PropertyAgain(s, r);
      }
    } else if c == 'x' {
      HexAgain(s, r);
    } else if c == 'u' || c == 'U' {
      FixedHexAgain(s, r);
    } else if c == 'k' {
      DelimitedAgain(s, '>', "x", r);
      assert e.n > 2 by { assert s[0] != '>' && s[1] != '>' && s[2] != '>'; }
      assert q[1] == s[1] && q[2] == s[2];
    } else if c == 'c' {
      assert q[1] == s[1] && q[2] == s[2] && q[..3] == s[..3];
    } else {
      assert q[1] == e.wire[1];
    }
  }

  lemma FlagGroupAgain(s: string, r: string)
    requires OpensGroup(s) && FlagGroup(s).Some?
    ensures var e := FlagGroup(s).value; OpensGroup(e.wire + r) && FlagGroup(e.wire + r) == Respelled(e)
  {
    var e := FlagGroup(s).value;
    var q := e.wire + r;
    var j := FlagsEnd(s[2..]);
    assert q[..e.n] == s[..e.n] && q[0] == s[0] && q[1] == s[1];
    SameBeyond(s, q, j + 3);
    FlagsStable(s[2..], q[2..], j + 1);
    FlagGroupAlike(s, q, j);
    assert s[..j + 3] == q[..j + 3];
  }

  lemma SameBeyond(s: string, q: string, n: nat)
    requires 2 < n <= |s| && n <= |q| && s[..n] == q[..n]
    ensures s[2..][..n - 2] == q[2..][..n - 2] && s[2..][..n - 3] == q[2..][..n - 3] && s[2..][n - 3] == q[2..][n - 3]
  {
    assert forall k :: 0 <= k < n ==> s[k] == s[..n][k] && q[k] == q[..n][k];
  }

  /** A flag group depends on its flags and the byte after them alone. */
  lemma FlagGroupAlike(s: string, q: string, j: nat)
    requires OpensGroup(s) && OpensGroup(q) && j == FlagsEnd(s[2..]) == FlagsEnd(q[2..])
    requires j < |s[2..]| && j < |q[2..]| && s[2..][..j] == q[2..][..j] && s[2..][j] == q[2..][j]
    requires s[..j + 3] == q[..j + 3]
    ensures FlagGroup(q) == FlagGroup(s)
  {
  }

  /** What a group token must see after it, if it is cut short of what it looked at. */
  ghost predicate GroupSees(s: string, r: string)
    requires OpensGroup(s)
  {
    if At(s, 2, ':') then At(r, 0, ':')
    else if At(s, 2, 'P') && At(s, 3, '<') then At(r, 0, 'P') && At(r, 1, '<')
    else if At(s, 2, '<') && !At(s, 3, '=') && !At(s, 3, '!') then !At(r, 0, '=') && !At(r, 0, '!')
    else true
  }

  lemma GroupAgain(s: string, r: string)
    requires OpensGroup(s) && Group(s).Some? && GroupSees(s, r)
    ensures var e := Group(s).value; OpensGroup(e.wire + r) && Group(e.wire + r) == Respelled(e)
  {
    var e := Group(s).value;
    var q := e.wire + r;
    assert q[..e.n] == s[..e.n] && q[0] == s[0] && q[1] == s[1];
    assert forall k :: 0 <= k < |r| ==> q[e.n + k] == r[k];
    if At(s, 2, ':') || (At(s, 2, 'P') && At(s, 3, '<')) {
    } else if At(s, 2, '#') {
      DelimitedAgain(s, ')', "", r);
    } else if At(s, 2, 'P') && At(s, 3, '=') {
      DelimitedAgain(s, ')', "x", r);
    } else if At(s, 2, '<') || At(s, 2, '=') || At(s, 2, '!') || At(s, 2, '>') {
      assert q[2] == s[2];
    } else {
      FlagGroupAgain(s, r);
      assert q[2] == s[2];
    }
  }

  lemma SliceSame(s: string, q: string, n: nat, i: nat, j: nat)
    requires Same(s, q, n) && i <= j <= n
    ensures s[i..j] == q[i..j]
  {
    assert forall k :: 0 <= k < n ==> s[k] == s[..n][k] && q[k] == q[..n][k];
  }

  lemma BoundsStable(s: string, q: string)
    requires s != "" && s[0] == '{' && RepeatBounds(s).Some? && Same(s, q, RepeatBounds(s).value.n)
    ensures q != "" && q[0] == '{' && RepeatBounds(q) == RepeatBounds(s)
  {
    var n := RepeatBounds(s).value.n;
    assert q[0] == q[..n][0] && s[0] == s[..n][0];
    IndexStable(s, q, n, '}');
    SliceSame(s, q, n, 1, n - 1);
    BoundsAlike(s, q);
  }

  /** The bounds depend on what the braces hold alone. */
  lemma BoundsAlike(s: string, q: string)
    requires s != "" && q != "" && s[0] == q[0] == '{' && IndexOf(q, '}') == IndexOf(s, '}')
    requires IndexOf(s, '}') < |s| && IndexOf(q, '}') < |q| && s[1..IndexOf(s, '}')] == q[1..IndexOf(s, '}')]
    ensures RepeatBounds(q) == RepeatBounds(s)
  {
  }

  lemma BoundsOrdinary(s: string)
    requires s != "" && s[0] == '{' && RepeatBounds(s).Some?
    ensures forall k :: 1 <= k < RepeatBounds(s).value.n ==> Ordinary(s[k])
  {
    var end := IndexOf(s, '}');
    var body := s[1..end];
    var comma := IndexOf(body, ',');
    forall k | 1 <= k < end ensures Ordinary(s[k]) {
      assert s[k] == body[k - 1];
      if k - 1 < comma {
        assert body[..comma][k - 1] == body[k - 1];
      } else if comma < k - 1 {
        assert body[comma + 1..][k - 2 - comma] == body[k - 1];
      }
    }
  }

  /** A literal brace stays one: what follows it is no repeat in the wire form either. */
  lemma BraceAgain(s: string, r: string)
    requires s != "" && s[0] == '{' && RepeatBounds(s).None?
    requires Spells(s[1..], State(false, QNone), r)
    ensures RepeatBounds("{" + r).None?
  {
    var q := "{" + r;
    if RepeatBounds(q).Some? {
      var n := RepeatBounds(q).value.n;
      BoundsOrdinary(q);
      SameAfterBrace(s, q, r, n);
      BoundsStable(q, s);
    }
  }

  lemma SameAfterBrace(s: string, q: string, r: string, n: nat)
    requires s != "" && s[0] == '{' && q == "{" + r && 1 <= n <= |q|
    requires forall k :: 1 <= k < n ==> Ordinary(q[k])
    requires Spells(s[1..], State(false, QNone), r)
    ensures Same(q, s, n)
  {
    assert forall i :: 0 <= i < n - 1 ==> r[i] == q[i + 1];
    OrdinaryWas(s[1..], State(false, QNone), r, n - 1);
    assert forall i :: 0 <= i < n - 1 ==> s[1..][i] == s[i + 1];
    assert forall k :: 0 < k < n ==> q[k] == r[k - 1] == s[1..][k - 1] == s[k];
  }

  lemma QuantifierAgain(s: string, prev: Quant, r: string)
    requires s != "" && IsQuantifier(s[0]) && Quantifier(s, prev).Some?
    requires var (e, q) := Quantifier(s, prev).value; Spells(s[e.n..], State(false, q), r)
    ensures var (e, q) := Quantifier(s, prev).value;
            (e.wire + r)[0] == s[0] && Quantifier(e.wire + r, prev) == Some((Respelled(e).value, q))
  {
    var (e, q) := Quantifier(s, prev).value;
    var t := e.wire + r;
    assert t[..e.n] == s[..e.n] && t[0] == s[0];
    if s[0] == '{' {
      if RepeatBounds(s).Some? {
        BoundsStable(s, t);
      } else {
        BraceAgain(s, r);
      }
    }
  }

  lemma ClassOpenAgain(s: string, r: string)
    requires At(s, 0, '[') && Head(s[ClassOpen(s)..], r, true)
    ensures ClassOpen(s[..ClassOpen(s)] + r) == ClassOpen(s)
  {
    var n := ClassOpen(s);
    var q := s[..n] + r;
    assert forall k :: 0 <= k < n ==> q[k] == s[k];
    assert forall k :: 0 <= k < |r| ==> q[n + k] == r[k];
    assert n < |s| ==> s[n..][0] == s[n];
  }

  /** A byte escaped in a class is read again as an escape. */
  lemma EscapedAgain(c: char, r: string)
    requires c == '[' || c == '&' || c == '~'
    ensures var e := Emit(2, ['\\', c], ['\\', c]);
            Next(['\\', c] + r, State(true, QNone)) == Plain(Some(e), true)
  {
    var q := ['\\', c] + r;
    assert q[0] == '\\' && q[1] == c && q[..2] == ['\\', c];
    assert ShortEscape(c, true) == Some((['\\', c], ['\\', c]));
  }

  lemma ClassLiteralAgain(s: string, r: string)
    requires s != "" && s[0] != '\\' && s[0] != ']' && !(s[0] == '[' && At(s, 1, ':'))
    requires Spells(s[1..], State(true, QNone), r)
    ensures var e := ClassLiteral(s);
            Next(e.wire + r, State(true, QNone)) == Plain(Respelled(e), true)
  {
    var e := ClassLiteral(s);
    if |e.wire| == 2 {
      EscapedAgain(s[0], r);
    } else {
      RunHead(s[1..], State(true, QNone));
      assert 1 < |s| ==> s[1..][0] == s[1];
      var q := e.wire + r;
      assert q[0] == s[0] && (r != "" ==> q[1] == r[0]);
    }
  }

  lemma PosixAgain(s: string, r: string)
    requires At(s, 0, '[') && At(s, 1, ':') && IndexOfClose(s) < |s|
    ensures var n := IndexOfClose(s) + 2;
            Next(s[..n] + r, State(true, QNone)) == Plain(Some(Verbatim(s, n, s[..n])), true)
  {
    var n := IndexOfClose(s) + 2;
    var q := s[..n] + r;
    assert q[..n] == s[..n];
    CloseStable(s, q, n);
    assert q[0] == s[0] && q[1] == s[1];
  }

  /** s and st are at a token that reads again as itself: no trap, no octal escape. */
  ghost predicate Steady(s: string, st: State, r: string) {
    && s != "" && Next(s, st).Some? && !CaretTrap(s) && !EchoTrap(s, st)
    && !(s[0] == '\\' && At(s, 1, '0'))
    && (st.inClass ==> st.prev == QNone)
    && Spells(s[Next(s, st).value.emit.n..], Next(s, st).value.next, r)
  }

  /** The token t read again from the start of q. */
  ghost predicate Again(t: Token, q: string, st: State) {
    q != "" && Next(q, st) == Some(Token(Respelled(t.emit).value, t.next))
  }

  lemma EscapeReadAgain(s: string, st: State, r: string)
    requires Steady(s, st, r) && s[0] == '\\'
    ensures Again(Next(s, st).value, Next(s, st).value.emit.wire + r, st)
  {
    var t := Next(s, st).value;
    RunHead(s[t.emit.n..], t.next);
    if s[1] == 'x' && !At(s, 2, '{') {
      assert t.emit.n == 2 && (2 < |s| ==> s[2..][0] == s[2]);
    }
    EscapeAgain(s, st.inClass, r);
    assert (t.emit.wire + r)[0] == t.emit.wire[0];
  }

  lemma ClassReadAgain(s: string, st: State, r: string)
    requires Steady(s, st, r) && s[0] != '\\' && st.inClass
    ensures Again(Next(s, st).value, Next(s, st).value.emit.wire + r, st)
  {
    if s[0] == ']' {
    } else if s[0] == '[' && At(s, 1, ':') {
      PosixAgain(s, r);
    } else {
      ClassLiteralAgain(s, r);
    }
  }

  lemma GroupReadAgain(s: string, st: State, r: string)
    requires Steady(s, st, r) && !st.inClass && OpensGroup(s)
    ensures Again(Next(s, st).value, Next(s, st).value.emit.wire + r, st)
  {
    var t := Next(s, st).value;
    var rest := s[t.emit.n..];
    RunHead(rest, t.next);
    assert rest != "" ==> rest[0] == s[t.emit.n];
    if At(s, 2, ':') || (At(s, 2, 'P') && At(s, 3, '<')) {
      assert rest[0] == s[2] && (At(s, 2, 'P') ==> rest[1] == s[3]);
      OrdinaryKept(rest, t.next, r, if At(s, 2, ':') then 1 else 2);
    }
    GroupAgain(s, r);
    assert (t.emit.wire + r)[0] == '(';
  }

  lemma PlainReadAgain(s: string, st: State, r: string)
    requires Steady(s, st, r) && s[0] != '\\' && !st.inClass && !OpensGroup(s)
    ensures Again(Next(s, st).value, Next(s, st).value.emit.wire + r, st)
  {
    var t := Next(s, st).value;
    var q := t.emit.wire + r;
    var rest := s[t.emit.n..];
    RunHead(rest, t.next);
    assert rest != "" ==> rest[0] == s[t.emit.n];
    if s[0] == '[' {
      ClassOpenAgain(s, r);
      assert q[0] == s[0] && q[..t.emit.n] == t.emit.wire;
    } else if IsQuantifier(s[0]) {
      QuantifierAgain(s, st.prev, r);
    } else {
      assert q[0] == s[0] && (r != "" ==> q[1] == r[0]);
    }
  }

  /** Such a token is one token of the wire form, spelled as it stands, and leaves the
      lexer in the same state. */
  lemma NextAgain(s: string, st: State, r: string)
    requires Steady(s, st, r)
    ensures Again(Next(s, st).value, Next(s, st).value.emit.wire + r, st)
  {
    if s[0] == '\\' {
      EscapeReadAgain(s, st, r);
    } else if st.inClass {
      ClassReadAgain(s, st, r);
    } else if OpensGroup(s) {
      GroupReadAgain(s, st, r);
    } else {
      PlainReadAgain(s, st, r);
    }
  }

  lemma RunToken(q: string, st: State, e: Emit, next: State, r: string)
    requires q == e.wire + r && q != "" && Next(q, st) == Some(Token(Respelled(e).value, next))
    ensures Run(q, st) == Prepend(e, Run(r, next))
  {
    assert q[|e.wire|..] == r;
  }

  predicate IsHexDigit(c: char) { '0' <= c <= '9' || 'a' <= c <= 'f' }

  /** A hexadecimal digit, in a class or out of it, is itself. */
  lemma HexDigitRun(c: char, r: string, inClass: bool)
    requires IsHexDigit(c)
    ensures var st := State(inClass, QNone);
            Run([c] + r, st) == Prepend(Emit(1, [c], [c]), Run(r, st))
  {
    var q := [c] + r;
    var e := Emit(1, [c], [c]);
    assert q[0] == c;
    assert Next(q, State(inClass, QNone)) == Some(Token(e, State(inClass, QNone)));
    RunToken(q, State(inClass, QNone), e, State(inClass, QNone), r);
  }

  lemma PrependTwice(a: Emit, b: Emit, n: nat, o: Option<Output>)
    ensures Prepend(a, Prepend(b, o)) == Prepend(Emit(n, a.wire + b.wire, a.twin + b.twin), o)
  {
    if o.Some? {
      assert a.wire + (b.wire + o.value.wire) == a.wire + b.wire + o.value.wire;
      assert a.twin + (b.twin + o.value.twin) == a.twin + b.twin + o.value.twin;
    }
  }

  /** \x is read as it stands before a digit. */
  lemma HexOpens(h: char, r: string, st: State)
    requires IsHexDigit(h)
    ensures Run("\\x" + ([h] + r), st) == Prepend(Emit(2, "\\x", "\\x"), Run([h] + r, State(st.inClass, QNone)))
  {
    var x, on, q := Emit(2, "\\x", "\\x"), State(st.inClass, QNone), "\\x" + ([h] + r);
    assert q[0] == '\\' && q[1] == 'x' && q[2] == h && q[..2] == "\\x";
    assert Next(q, st) == Some(Token(x, on));
    RunToken(q, st, x, on, [h] + r);
  }

  lemma ShortHexSpelled(h: char, l: char, r: string)
    ensures "\\x" + ([h] + ([l] + r)) == ['\\', 'x', h, l] + r
    ensures "\\x" + ([h] + [l]) == ['\\', 'x', h, l]
  {
  }

  /** \xhl is read as \x and two digits. */
  lemma ShortHexRun(h: char, l: char, r: string, st: State)
    requires IsHexDigit(h) && IsHexDigit(l)
    ensures var w := ['\\', 'x', h, l];
            Run(w + r, st) == Prepend(Emit(4, w, w), Run(r, State(st.inClass, QNone)))
  {
    var on := State(st.inClass, QNone);
    var x, d, g := Emit(2, "\\x", "\\x"), Emit(1, [h], [h]), Emit(1, [l], [l]);
    var more := [h] + ([l] + r);
    HexOpens(h, [l] + r, st);
    HexDigitRun(h, [l] + r, st.inClass);
    HexDigitRun(l, r, st.inClass);
    PrependTwice(d, g, 2, Run(r, on));
    PrependTwice(x, Emit(2, [h] + [l], [h] + [l]), 4, Run(r, on));
    ShortHexSpelled(h, l, r);
  }

  /** An octal escape becomes a \x escape, read again as that and two digits. */
  lemma OctalAgain(s: string, st: State, r: string)
    requires s != "" && s[0] == '\\' && At(s, 1, '0')
    ensures var e := Escape(s, st.inClass).value;
            Run(e.wire + r, st) == Prepend(e, Run(r, State(st.inClass, QNone)))
  {
    var e := Escape(s, st.inClass).value;
    var h, l := e.wire[2], e.wire[3];
    assert e.wire == ['\\', 'x', h, l];
    ShortHexRun(h, l, r, st);
  }

  /** A token of the pattern, and what its wire form is read as. */
  lemma TokenAgain(s: string, st: State, r: string)
    requires s != "" && Next(s, st).Some? && !CaretTrap(s) && !EchoTrap(s, st)
    requires st.inClass ==> st.prev == QNone
    requires var t := Next(s, st).value; Spells(s[t.emit.n..], t.next, r)
    ensures var t := Next(s, st).value; Run(t.emit.wire + r, st) == Prepend(t.emit, Run(r, t.next))
  {
    var t := Next(s, st).value;
    if s[0] == '\\' && At(s, 1, '0') {
      OctalAgain(s, st, r);
    } else {
      NextAgain(s, st, r);
      RunToken(t.emit.wire + r, st, t.emit, t.next, r);
    }
  }

  // ---- where it breaks ----

  /** How many bytes of 0x80 or more. */
  function High(s: string): nat {
    if s == "" then 0 else (if s[0] >= HIGH then 1 else 0) + High(s[1..])
  }

  lemma {:induction false} HighConcat(a: string, b: string)
    ensures High(a + b) == High(a) + High(b)
  {
    if a == "" {
      assert a + b == b;
    } else {
      assert (a + b)[1..] == a[1..] + b;
      HighConcat(a[1..], b);
    }
  }

  lemma {:induction false} NoHigh(s: string)
    requires forall k :: 0 <= k < |s| ==> s[k] < HIGH
    ensures High(s) == 0
  {
    if s != "" {
      NoHigh(s[1..]);
    }
  }

  lemma PropertyHigh(s: string)
    requires |s| >= 2 && s[0] == '\\' && (s[1] == 'p' || s[1] == 'P') && EscapeProperty(s).Some?
    ensures High(EscapeProperty(s).value.wire) >= High(s[..EscapeProperty(s).value.n])
  {
    var e := EscapeProperty(s).value;
    var Property(name, n) := PropertySpan(s).value;
    if name[0] == '^' {
      var more := name[1..];
      var open := "\\" + [if s[1] == 'P' then 'p' else 'P'] + "{";
      assert e.wire == open + (more + "}");
      HighConcat(open, more + "}");
      HighConcat(more, "}");
      NoHigh("}");
      NoHigh(open);
      if s[2] == '{' {
        assert s[..n] == s[..4] + (more + "}");
        HighConcat(s[..4], more + "}");
        NoHigh(s[..4]);
      } else {
        NoHigh(s[..n]);
      }
    }
  }

  lemma EchoHigh(c: char)
    requires c >= HIGH
    ensures High(Echo(c)) == 2
  {
    var e := Echo(c);
    assert e == [e[0]] + [e[1]];
    HighConcat([e[0]], [e[1]]);
  }

  lemma TokenHigh(s: string, st: State)
    requires s != "" && Next(s, st).Some?
    ensures var e := Next(s, st).value.emit; High(e.wire) >= High(s[..e.n])
    ensures EchoTrap(s, st) ==> High(s[..1]) == 1 && High(Next(s, st).value.emit.wire) == 2
  {
    var e := Next(s, st).value.emit;
    if s[0] == '\\' {
      if s[1] == 'p' || s[1] == 'P' {
        PropertyHigh(s);
      } else if e.wire != s[..e.n] {
        NoHigh(s[..e.n]);
      }
    } else if e.wire != s[..e.n] {
      if EchoTrap(s, st) {
        EchoHigh(s[0]);
      } else {
        NoHigh(s[..e.n]);
      }
    }
    if EchoTrap(s, st) {
      assert s[..1] == [s[0]];
    }
  }

  lemma HighSplit(s: string, n: nat)
    requires n <= |s|
    ensures High(s) == High(s[..n]) + High(s[n..])
  {
    assert s == s[..n] + s[n..];
    HighConcat(s[..n], s[n..]);
  }

  /** No pattern loses such a byte. */
  lemma {:induction false} RunHigh(s: string, st: State, r: string)
    requires Spells(s, st, r)
    ensures High(r) >= High(s)
    decreases |s|
  {
    if s != "" {
      var t := Next(s, st).value;
      var rest := s[t.emit.n..];
      var more := Run(rest, t.next).value.wire;
      TokenHigh(s, st);
      RunHigh(rest, t.next, more);
      HighConcat(t.emit.wire, more);
      HighSplit(s, t.emit.n);
    }
  }

  /** The wire form of a negated property: its name follows the brace. */
  lemma CaretWire(s: string)
    requires CaretTrap(s) && PropertySpan(s).value.name != "^"
    ensures var e, more := EscapeProperty(s).value, PropertySpan(s).value.name[1..];
            && |e.wire| == 4 + |more| && e.wire[0] == '\\' && e.wire[2] == '{' && e.wire[3 + |more|] == '}'
            && forall k :: 0 <= k < |more| ==> e.wire[3 + k] == more[k] && more[k] != '}'
  {
    var name := PropertySpan(s).value.name;
    assert forall k :: 0 <= k < |name| ==> name[k] == s[3 + k];
  }

  /** Each trap changes its own wire form when that is read again. */
  lemma CaretBreaks(s: string, st: State, r: string)
    requires CaretTrap(s) && Next(s, st).Some?
    ensures var o := Run(Next(s, st).value.emit.wire + r, st);
            o.Some? ==> o.value.wire != Next(s, st).value.emit.wire + r
  {
    var e := Next(s, st).value.emit;
    var more := PropertySpan(s).value.name[1..];
    var q := e.wire + r;
    assert forall k :: 0 <= k < |e.wire| ==> q[k] == e.wire[k];
    if more == "" {
      IndexIs(q, '}', 3);
      assert Next(q, st).None?;
    } else {
      CaretWire(s);
      BracedName(q, more);
      assert EscapeProperty(q).value.wire[1] == (if q[1] == 'P' then 'p' else 'P');
      if Run(q, st).Some? {
        var d := Next(q, st).value;
        assert d.emit == EscapeProperty(q).value;
        assert Run(q, st).value.wire[1] == d.emit.wire[1];
      }
    }
  }

  lemma EchoRun(c: char, r: string, prev: Quant)
    requires c >= HIGH
    ensures Run([c] + r, State(false, prev)) == Prepend(Emit(1, Echo(c), Echo(c)), Run(r, State(false, QNone)))
  {
    var q := [c] + r;
    assert q[0] == c && q[1..] == r;
    assert Next(q, State(false, prev)) == Some(Token(Emit(1, Echo(c), Echo(c)), State(false, QNone)));
  }

  lemma EchoBreaks(s: string, st: State, r: string)
    requires EchoTrap(s, st)
    ensures var o := Run(Next(s, st).value.emit.wire + r, st);
            o.Some? ==> o.value.wire != Next(s, st).value.emit.wire + r
  {
    var e := Next(s, st).value.emit;
    var on := State(false, QNone);
    var hi, lo := e.wire[0], e.wire[1];
    var q := e.wire + r;
    assert q == [hi] + ([lo] + r);
    EchoRun(hi, [lo] + r, st.prev);
    EchoRun(lo, r, QNone);
    if Run(r, on).Some? {
      var w := Run(r, on).value.wire;
      RunHigh(r, on, w);
      EchoHigh(hi);
      EchoHigh(lo);
      HighConcat(Echo(hi), Echo(lo) + w);
      HighConcat(Echo(lo), w);
      HighConcat(e.wire, r);
      EchoHigh(s[0]);
    }
  }

  // ---- the law ----

  /** Read again, the wire form of s spells itself, with the same twin, if and only if
      s holds no trap. */
  lemma {:induction false} RunAgain(s: string, st: State)
    requires Run(s, st).Some? && (st.inClass ==> st.prev == QNone)
    ensures var o := Run(s, st).value;
            && (!Traps(s, st) ==> Run(o.wire, st) == Some(o))
            && (Traps(s, st) ==> Run(o.wire, st).None? || Run(o.wire, st).value.wire != o.wire)
    decreases |s|
  {
    if s != "" {
      var t := Next(s, st).value;
      var rest := s[t.emit.n..];
      var r := Run(rest, t.next).value.wire;
      if CaretTrap(s) {
        CaretBreaks(s, st, r);
      } else if EchoTrap(s, st) {
        EchoBreaks(s, st, r);
      } else {
        RunAgain(rest, t.next);
        TokenAgain(s, st, r);
        var again := Run(r, t.next);
        if again.Some? && t.emit.wire + again.value.wire == t.emit.wire + r {
          assert (t.emit.wire + again.value.wire)[|t.emit.wire|..] == again.value.wire;
          assert (t.emit.wire + r)[|t.emit.wire|..] == r;
        }
      }
    }
  }

  /** Translation is idempotent exactly on the patterns without a trap. */
  lemma TranslateAgain(p: string, accepts: string -> bool)
    requires Translate(p, accepts).Some?
    ensures var out := Translate(p, accepts).value;
            Translate(out, accepts) == Some(out) <==> !Traps(p, START)
    ensures !Traps(p, START) ==> Run(Translate(p, accepts).value, START).value.twin == Run(p, START).value.twin
  {
    RunAgain(p, START);
  }

  /** A trap: one accented letter, its two bytes echoed as four. */
  lemma AccentIsMangled(accepts: string -> bool)
    requires forall t :: accepts(t)
    ensures var e := "\U{C3}\U{A9}";
            Translate(e, accepts) == Some("\U{C3}\U{83}\U{C2}\U{A9}") && Traps(e, START)
  {
    EchoRun('\U{A9}', "", QNone);
    EchoRun('\U{C3}', "\U{A9}", QNone);
    assert "\U{A9}" + "" == "\U{A9}" && "\U{C3}" + "\U{A9}" == "\U{C3}\U{A9}";
    assert Echo('\U{C3}') == "\U{C3}\U{83}" && Echo('\U{A9}') == "\U{C2}\U{A9}";
    assert "\U{C2}\U{A9}" + "" == "\U{C2}\U{A9}";
    assert "\U{C3}\U{83}" + "\U{C2}\U{A9}" == "\U{C3}\U{83}\U{C2}\U{A9}";
  }

  // ---- what is left alone, and what is not ----

  /** A negated property that is the whole pattern. */
  ghost predicate Negated(q: string) {
    && 5 <= |q| && q[0] == '\\' && (q[1] == 'p' || q[1] == 'P') && q[2] == '{' && q[3] == '^' && q[|q| - 1] == '}'
    && forall k :: 3 <= k < |q| - 1 ==> q[k] != '}'
  }

  lemma FlippedOnce(p: string)
    requires Negated(p) && 6 <= |p| && p[4] == '^'
    ensures Negated(Flipped(p)) && |Flipped(p)| == |p| - 1
  {
    var q := Flipped(p);
    assert forall k :: 3 <= k < |q| ==> q[k] == p[k + 1];
  }

  /** What a translation makes of a negated property. */
  function Flipped(q: string): string
    requires 5 <= |q|
  {
    ['\\', if q[1] == 'P' then 'p' else 'P', '{'] + q[4..]
  }

  lemma CaretSpan(q: string)
    requires 5 <= |q| && q[0] == '\\' && q[1] != '}' && q[2] == '{' && q[|q| - 1] == '}'
    requires forall k :: 3 <= k < |q| - 1 ==> q[k] != '}'
    ensures PropertySpan(q) == Some(Property(q[3..|q| - 1], |q|))
  {
    BracedName(q, q[3..|q| - 1]);
  }

  lemma CaretRun(q: string)
    requires Negated(q)
    ensures Next(q, START).Some?
    ensures Run(q, START) == Some(Output(Flipped(q), "x"))
  {
    CaretSpan(q);
    var e := EscapeProperty(q).value;
    FlippedWire(q, q[3..|q| - 1]);
    assert e == Emit(|q|, Flipped(q), "x") && Next(q, START) == Some(Token(e, START));
    LastToken(q, e);
  }

  lemma FlippedWire(q: string, name: string)
    requires 5 <= |q| && q[|q| - 1] == '}' && name == q[3..|q| - 1]
    ensures "\\" + [if q[1] == 'P' then 'p' else 'P'] + "{" + name[1..] + "}" == Flipped(q)
  {
    assert q[4..] == name[1..] + "}";
  }

  lemma LastToken(q: string, e: Emit)
    requires q != "" && e.n == |q| && Next(q, START) == Some(Token(e, START))
    ensures Run(q, START) == Some(Output(e.wire, e.twin))
  {
    assert q[|q|..] == "" && e.wire + "" == e.wire && e.twin + "" == e.twin;
  }

  lemma CaretTraps(p: string)
    requires Negated(p) && 6 <= |p| && p[4] == '^'
    ensures Traps(p, START)
  {
    CaretRun(p);
    CaretSpan(p);
    assert CaretTrap(p);
  }

  /** The trap at work: each translation of a doubly negated property, such as \p{^^L},
      takes one negation off, so the second differs from the first. */
  lemma CaretIsRespelled(p: string, accepts: string -> bool)
    requires forall t :: accepts(t)
    requires Negated(p) && 6 <= |p| && p[4] == '^'
    ensures Traps(p, START)
    ensures Translate(p, accepts) == Some(Flipped(p)) && Translate(Flipped(p), accepts) == Some(Flipped(Flipped(p)))
    ensures Flipped(Flipped(p)) != Flipped(p)
  {
    CaretTraps(p);
    FlippedOnce(p);
    CaretRun(p);
    CaretRun(Flipped(p));
    assert |Flipped(Flipped(p))| == |Flipped(p)| - 1;
  }

  /** The token at the start of s has a form the engine reads otherwise: \0, \Z, a caret
      property, an operator in a class, or a byte that is echoed as two. */
  ghost predicate Rewritten(s: string, st: State)
    requires s != ""
  {
    || (s[0] == '\\' && (At(s, 1, '0') || At(s, 1, 'Z')))
    || (s[0] == '\\' && (At(s, 1, 'p') || At(s, 1, 'P')) && PropertySpan(s).Some? &&
        PropertySpan(s).value.name[0] == '^')
    || (st.inClass && s[0] == '[' && !At(s, 1, ':'))
    || (st.inClass && (s[0] == '&' || s[0] == '~') && At(s, 1, s[0]))
    || EchoTrap(s, st)
  }

  ghost predicate NothingToRewrite(s: string, st: State)
    decreases |s|
  {
    s == "" ||
    (!Rewritten(s, st) &&
     (Next(s, st).Some? ==> NothingToRewrite(s[Next(s, st).value.emit.n..], Next(s, st).value.next)))
  }

  lemma VerbatimToken(s: string, st: State)
    requires s != "" && Next(s, st).Some? && !Rewritten(s, st)
    ensures var e := Next(s, st).value.emit; e.wire == s[..e.n]
  {
  }

  /** A token rewritten starts differently, or holds one more byte of 0x80 or more. */
  lemma RewrittenToken(s: string, st: State)
    requires s != "" && Next(s, st).Some? && Rewritten(s, st) && !EchoTrap(s, st)
    ensures var e := Next(s, st).value.emit;
            |e.wire| >= 2 && (e.wire[0] != s[0] || (|s| >= 2 && e.wire[1] != s[1]))
  {
  }

  /** The pattern comes back as it was just when no token needed rewriting. */
  lemma {:induction false} Unchanged(s: string, st: State, r: string)
    requires Spells(s, st, r)
    ensures r == s <==> NothingToRewrite(s, st)
    decreases |s|
  {
    if s != "" {
      var t := Next(s, st).value;
      var n := t.emit.n;
      var rest := s[n..];
      var more := Run(rest, t.next).value.wire;
      assert r == t.emit.wire + more && s == s[..n] + rest;
      if EchoTrap(s, st) {
        TokenHigh(s, st);
        RunHigh(rest, t.next, more);
        HighConcat(t.emit.wire, more);
        HighSplit(s, n);
      } else if Rewritten(s, st) {
        RewrittenToken(s, st);
        assert r[0] == t.emit.wire[0] && r[1] == t.emit.wire[1];
      } else {
        VerbatimToken(s, st);
        Unchanged(rest, t.next, more);
        assert r[n..] == more && s[n..] == rest;
      }
    }
  }

  /** What goes on the wire holds none of the forms the engine reads otherwise. */
  lemma WireIsClean(p: string, accepts: string -> bool)
    requires Translate(p, accepts).Some? && !Traps(p, START)
    ensures NothingToRewrite(Translate(p, accepts).value, START)
  {
    RunAgain(p, START);
    var out := Translate(p, accepts).value;
    Unchanged(out, START, out);
  }

  // ---- repeat counts ----

  lemma {:induction false} TrimZerosValue(s: string)
    requires IsDigits(s)
    ensures IsDigits(TrimZeros(s)) && Decimal(TrimZeros(s)) == Decimal(s)
  {
    if s != "" && s[0] == '0' {
      LeadingZero(s);
      TrimZerosValue(s[1..]);
    }
  }

  lemma {:induction false} CompareBytesValue(a: string, b: string)
    requires IsDigits(a) && IsDigits(b) && |a| == |b|
    ensures CompareBytes(a, b) < 0 <==> Decimal(a) < Decimal(b)
    ensures CompareBytes(a, b) > 0 <==> Decimal(a) > Decimal(b)
  {
    if a != "" {
      CompareBytesValue(a[1..], b[1..]);
      DecimalBound(a[1..]);
      DecimalBound(b[1..]);
      var x, y, p := DigitValue(a[0]), DigitValue(b[0]), Pow10(|a| - 1);
      if x < y {
        DigitTimes(x, y, p);
      } else if y < x {
        DigitTimes(y, x, p);
      }
    }
  }

  lemma ShorterIsLess(x: string, y: string)
    requires IsDigits(x) && IsDigits(y) && |x| < |y| && y[0] != '0'
    ensures Decimal(x) < Decimal(y)
  {
    DecimalBound(x);
    DecimalBound(y);
    PowPositive(|x|, |y| - 1);
  }

  /** Decimal strings of any length and with any leading zeros compare as their values. */
  lemma CompareDecimalValue(a: string, b: string)
    requires IsDigits(a) && IsDigits(b)
    ensures CompareDecimal(a, b) < 0 <==> Decimal(a) < Decimal(b)
    ensures CompareDecimal(a, b) > 0 <==> Decimal(a) > Decimal(b)
  {
    var x, y := TrimZeros(a), TrimZeros(b);
    TrimZerosValue(a);
    TrimZerosValue(b);
    if |x| == |y| {
      CompareBytesValue(x, y);
    } else if |x| < |y| {
      ShorterIsLess(x, y);
    } else {
      ShorterIsLess(y, x);
    }
  }

  lemma Thousand(s: string)
    requires |s| == 4 && s[0] == '1' && s[1] == '0' && s[2] == '0' && s[3] == '0'
    ensures IsDigits(s) && Decimal(s) == MAX_TWIN_REPEAT
  {
    TrimZerosValue(s[1..]);
    assert TrimZeros(s[1..][1..][1..][1..]) == "";
    assert TrimZeros(s[1..][1..][1..]) == "";
    assert TrimZeros(s[1..][1..]) == "";
    assert Pow10(0) == 1 && Pow10(1) == 10 && Pow10(2) == 100 && Pow10(3) == 1000;
  }

  function Least(m: nat, n: nat): nat { if m < n then m else n }

  /** A count in the twin is the pattern's up to Go's limit. */
  lemma ClampValue(s: string)
    requires IsDigits(s)
    ensures IsDigits(ClampRepeat(s)) && Decimal(ClampRepeat(s)) == Least(Decimal(s), MAX_TWIN_REPEAT)
  {
    var z := ClampRepeat(s);
    if s != "" && Decimal(s) > MAX_TWIN_REPEAT {
      Thousand(z);
    }
  }

  /** Clamping the counts never turns an inverted repeat into a valid one: the repeats
      accepted are those in order, and their twins are in order too. */
  lemma RepeatIsOrdered(s: string)
    requires s != "" && s[0] == '{' && RepeatBounds(s).Some?
    ensures var b := RepeatBounds(s).value;
            && (Repeat(s).Some? <==> b.hi == "" || Decimal(b.lo) <= Decimal(b.hi))
            && IsDigits(ClampRepeat(b.lo)) && IsDigits(ClampRepeat(b.hi))
            && (Repeat(s).Some? && b.hi != "" ==> Decimal(ClampRepeat(b.lo)) <= Decimal(ClampRepeat(b.hi)))
  {
    var b := RepeatBounds(s).value;
    CompareDecimalValue(b.lo, b.hi);
    ClampValue(b.lo);
    ClampValue(b.hi);
  }
}
