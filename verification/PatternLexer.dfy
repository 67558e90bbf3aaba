/**
 The pattern translator's lexer for the DeepSeek dialect: what each token of a regular
 expression is spelled as on the wire, and in the Go-syntax twin that is only checked.

 A pattern is a sequence of bytes, one char each.
 */
module PatternLexer {
  import opened Wrappers
  import opened Decimals

  /** A token consumed: n bytes, written as wire and, in the twin, as twin. */
  datatype Emit = Emit(n: nat, wire: string, twin: string)

  const HIGH: char := '\U{80}'

  // ---- strings ----

  function IndexOf(s: string, c: char): (i: nat)
    ensures i <= |s| && (i < |s| ==> s[i] == c) && forall k :: 0 <= k < i ==> s[k] != c
  {
    if s == "" || s[0] == c then 0 else IndexOf(s[1..], c) + 1
  }

  /** Where ":]" first starts. */
  function IndexOfClose(s: string): (i: nat)
    ensures i <= |s| && (i < |s| ==> i + 2 <= |s| && s[i] == ':' && s[i + 1] == ']')
    ensures forall k :: 0 <= k < i && k + 1 < |s| ==> !(s[k] == ':' && s[k + 1] == ']')
  {
    if s == "" || (|s| > 1 && s[0] == ':' && s[1] == ']') then 0 else IndexOfClose(s[1..]) + 1
  }

  predicate At(s: string, i: nat, c: char) {
    i < |s| && s[i] == c
  }

  predicate IsLetter(c: char) { 'a' <= c <= 'z' || 'A' <= c <= 'Z' }

  function HexDigit(v: nat): char
    requires v < 16
  {
    "0123456789abcdef"[v]
  }

  function Hex(v: nat): string {
    if v < 16 then [HexDigit(v)] else Hex(v / 16) + [HexDigit(v % 16)]
  }

  function HexValue(c: char): Option<nat> {
    if '0' <= c <= '9' then Some((c - '0') as nat)
    else if 'a' <= c <= 'f' then Some((c - 'a') as nat + 10)
    else if 'A' <= c <= 'F' then Some((c - 'A') as nat + 10)
    else None
  }

  const MAX_RUNE: nat := 0x10FFFF

  function ParseHexFrom(s: string, acc: nat): Option<nat> {
    if s == "" then Some(acc)
    else if HexValue(s[0]).None? then None
    else ParseHexFrom(s[1..], 16 * acc + HexValue(s[0]).value)
  }

  /** A code point in hexadecimal. */
  function ParseRune(s: string): Option<nat> {
    var v := ParseHexFrom(s, 0);
    if s == "" || v.None? || v.value > MAX_RUNE then None else v
  }

  function GoCodepoint(v: nat): string {
    "\\x{" + Hex(v) + "}"
  }

  // ---- escapes ----

  datatype Property = Property(name: string, n: nat)

  function PropertySpan(s: string): (r: Option<Property>)
    requires |s| >= 2
    ensures r.Some? ==> 3 <= r.value.n <= |s| && r.value.name != ""
  {
    if |s| > 2 && s[2] == '{' then
      var end := IndexOf(s, '}');
      if end == |s| || end <= 3 then None else Some(Property(s[3..end], end + 1))
    else if |s| > 2 then Some(Property(s[2..3], 3))
    else None
  }

  function ClassNeutral(inClass: bool, outside: string): string {
    if inClass then "x" else outside
  }

  /** How many bytes \0 and up to two octal digits after it take. */
  function OctalSpan(s: string): (n: nat)
    requires |s| >= 2
    ensures 2 <= n <= 4 && n <= |s| && forall k :: 2 <= k < n ==> '0' <= s[k] <= '7'
  {
    if |s| == 2 || !('0' <= s[2] <= '7') then 2
    else if |s| == 3 || !('0' <= s[3] <= '7') then 3
    else 4
  }

  function OctalValue(s: string): (v: nat)
    requires |s| <= 2 && forall k :: 0 <= k < |s| ==> '0' <= s[k] <= '7'
    ensures v < 64
  {
    if s == "" then 0
    else if |s| == 1 then (s[0] - '0') as nat
    else 8 * (s[0] - '0') as nat + (s[1] - '0') as nat
  }

  function Verbatim(s: string, n: nat, twin: string): Emit
    requires n <= |s|
  {
    Emit(n, s[..n], twin)
  }

  /** Everything up to the first close, whatever it holds. */
  function Delimited(s: string, close: char, twin: string): (e: Option<Emit>)
    requires s != ""
    ensures e.Some? ==> 1 <= e.value.n <= |s| && e.value.wire == s[..e.value.n] && (s[0] != close ==> 2 <= e.value.n)
  {
    var end := IndexOf(s, close);
    if end == |s| then None else Some(Verbatim(s, end + 1, twin))
  }

  function EscapeProperty(s: string): Option<Emit>
    requires |s| >= 2 && s[0] == '\\'
  {
    var p := PropertySpan(s);
    if p.None? then None
    else if p.value.name[0] == '^' then
      Some(Emit(p.value.n, "\\" + [if s[1] == 'P' then 'p' else 'P'] + "{" + p.value.name[1..] + "}", "x"))
    else Some(Verbatim(s, p.value.n, "x"))
  }

  function EscapeHex(s: string): Option<Emit>
    requires |s| >= 2 && s[0] == '\\' && s[1] == 'x'
  {
    if !(|s| > 2 && s[2] == '{') then Some(Verbatim(s, 2, s[..2]))
    else
      var end := IndexOf(s, '}');
      if end == |s| || ParseRune(s[3..end]).None? then None
      else Some(Verbatim(s, end + 1, GoCodepoint(ParseRune(s[3..end]).value)))
  }

  function EscapeFixedHex(s: string): Option<Emit>
    requires |s| >= 2 && s[0] == '\\'
  {
    var width := if s[1] == 'U' then 8 else 4;
    if |s| < 2 + width || ParseRune(s[2..2 + width]).None? then None
    else Some(Verbatim(s, 2 + width, GoCodepoint(ParseRune(s[2..2 + width]).value)))
  }

  /** The escapes of two bytes: their wire form and twin depend on the letter alone. */
  function ShortEscape(c: char, inClass: bool): Option<(string, string)> {
    var e := ['\\', c];
    if c == 'z' || c == 'Z' then Some(("\\z", ClassNeutral(inClass, "\\z")))
    else if c == 'A' || c == 'b' || c == 'B' then Some((e, ClassNeutral(inClass, e)))
    else if c == 'G' then Some((e, ClassNeutral(inClass, "\\b")))
    else if c == 'K' then if inClass then None else Some((e, ""))
    else if c == 'e' then Some((e, "\\x{1b}"))
    else if c == 'h' || c == 'H' then Some((e, "\\s"))
    else if IsDigit(c) then if inClass then None else Some((e, "x"))
    else if c in "afnrtvdDwWsS" then Some((e, e))
    else if c >= HIGH || IsLetter(c) then None
    else Some((e, e))
  }

  /** The escape at the start of s. */
  function Escape(s: string, inClass: bool): (e: Option<Emit>)
    requires |s| >= 2 && s[0] == '\\'
    ensures e.Some? ==> 2 <= e.value.n <= |s| && e.value.wire != "" && e.value.wire[0] == '\\'
  {
    var c := s[1];
    if c == 'p' || c == 'P' then EscapeProperty(s)
    else if c == 'k' then if inClass || !At(s, 2, '<') then None else Delimited(s, '>', "x")
    else if c == 'x' then EscapeHex(s)
    else if c == 'u' || c == 'U' then EscapeFixedHex(s)
    else if c == 'c' then
      if |s| < 3 || !IsLetter(s[2]) then None else Some(Verbatim(s, 3, GoCodepoint(s[2] as nat % 32)))
    else if c == '0' then
      var n := OctalSpan(s);
      var hex := "\\x" + [HexDigit(OctalValue(s[2..n]) / 16), HexDigit(OctalValue(s[2..n]) % 16)];
      Some(Emit(n, hex, hex))
    else
      var e := ShortEscape(c, inClass);
      if e.None? then None else Some(Emit(2, e.value.0, e.value.1))
  }

  // ---- groups ----

  predicate IsFlag(c: char) { c in "imsxuU-" }

  function FlagsEnd(s: string): (j: nat)
    ensures j <= |s| && (j < |s| ==> !IsFlag(s[j])) && forall k :: 0 <= k < j ==> IsFlag(s[k])
  {
    if s == "" || !IsFlag(s[0]) then 0 else FlagsEnd(s[1..]) + 1
  }

  function Count(s: string, c: char): nat {
    if s == "" then 0 else (if s[0] == c then 1 else 0) + Count(s[1..], c)
  }

  /** The flags Go has: x and u are dropped. */
  function GoFlags(s: string): string {
    if s == "" then ""
    else (if s[0] == 'x' || s[0] == 'u' then "" else [s[0]]) + GoFlags(s[1..])
  }

  function TrimDash(s: string): string {
    if s != "" && s[|s| - 1] == '-' then s[..|s| - 1] else s
  }

  predicate OpensGroup(s: string) { At(s, 0, '(') && At(s, 1, '?') }

  function FlagGroup(s: string): (e: Option<Emit>)
    requires OpensGroup(s)
    ensures e.Some? ==> 2 < e.value.n <= |s| && e.value.wire == s[..e.value.n]
  {
    var rest := s[2..];
    var j := FlagsEnd(rest);
    if j == |rest| || (rest[j] != ')' && rest[j] != ':') then None
    else
      var flags := rest[..j];
      var twin := TrimDash(GoFlags(flags));
      if flags == "" || flags[|flags| - 1] == '-' || Count(flags, '-') > 1 then None
      else Some(Verbatim(s, 2 + j + 1,
        if twin != "" then "(?" + twin + [rest[j]] else if rest[j] == ':' then "(?:" else ""))
  }

  /** The "(?" construct at the start of s. */
  function Group(s: string): (e: Option<Emit>)
    requires OpensGroup(s)
    ensures e.Some? ==> 2 <= e.value.n <= |s| && e.value.wire == s[..e.value.n]
  {
    if At(s, 2, ':') || (At(s, 2, 'P') && At(s, 3, '<')) then Some(Verbatim(s, 2, "(?"))
    else if At(s, 2, '#') then Delimited(s, ')', "")
    else if At(s, 2, 'P') && At(s, 3, '=') then Delimited(s, ')', "x")
    else if At(s, 2, '<') && (At(s, 3, '=') || At(s, 3, '!')) then Some(Verbatim(s, 4, "(?:"))
    else if At(s, 2, '=') || At(s, 2, '!') || At(s, 2, '>') then Some(Verbatim(s, 3, "(?:"))
    else if At(s, 2, '<') then Some(Verbatim(s, 3, "(?<"))
    else FlagGroup(s)
  }

  // ---- quantifiers ----

  datatype Quant = QNone | QGreedy | QLazy | QPossessive

  /** A well-formed {lo}, {lo,} or {lo,hi}: hi is "" for the open form. */
  datatype Bounds = Bounds(lo: string, hi: string, comma: bool, n: nat)

  /** What the braces hold; n is the length of the whole. */
  function BodyBounds(body: string, n: nat): (r: Option<Bounds>)
    ensures r.Some? ==> r.value.n == n && IsDigits(r.value.lo) && IsDigits(r.value.hi) && r.value.lo != "" && body != ""
  {
    var comma := IndexOf(body, ',');
    var lo, hi := body[..comma], if comma < |body| then body[comma + 1..] else body[..comma];
    if lo == "" || !IsDigits(lo) || !IsDigits(hi) then None
    else Some(Bounds(lo, hi, comma < |body|, n))
  }

  function RepeatBounds(s: string): (r: Option<Bounds>)
    requires s != "" && s[0] == '{'
    ensures r.Some? ==> 3 <= r.value.n <= |s| && IsDigits(r.value.lo) && IsDigits(r.value.hi) && r.value.lo != ""
  {
    var end := IndexOf(s, '}');
    if end == |s| then None else BodyBounds(s[1..end], end + 1)
  }

  function TrimZeros(s: string): (t: string)
    ensures |t| <= |s| && t == s[|s| - |t|..] && (t != "" ==> t[0] != '0')
    ensures forall k :: 0 <= k < |s| - |t| ==> s[k] == '0'
  {
    if s != "" && s[0] == '0' then TrimZeros(s[1..]) else s
  }

  function CompareBytes(a: string, b: string): int {
    if a == "" && b == "" then 0
    else if a == "" then -1
    else if b == "" then 1
    else if a[0] < b[0] then -1
    else if a[0] > b[0] then 1
    else CompareBytes(a[1..], b[1..])
  }

  function CompareDecimal(a: string, b: string): int {
    var x, y := TrimZeros(a), TrimZeros(b);
    if |x| != |y| then |x| - |y| else CompareBytes(x, y)
  }

  const MAX_TWIN_REPEAT: nat := 1000

  function ClampRepeat(s: string): string
    requires IsDigits(s)
  {
    if s != "" && Decimal(s) > MAX_TWIN_REPEAT then "1000" else s
  }

  function TwinCounts(lo: string, hi: string, comma: bool): string
    requires IsDigits(lo) && IsDigits(hi)
  {
    if comma then ClampRepeat(lo) + "," + ClampRepeat(hi) else ClampRepeat(lo)
  }

  /** A '{' at the start of s: a repeat, or a literal brace. */
  function Repeat(s: string): (r: Option<(Emit, Quant)>)
    requires s != "" && s[0] == '{'
    ensures r.Some? ==> 1 <= r.value.0.n <= |s| && r.value.0.wire == s[..r.value.0.n]
  {
    var b := RepeatBounds(s);
    if b.None? then Some((Emit(1, "{", "{"), QNone))
    else
      var Bounds(lo, hi, comma, n) := b.value;
      if hi != "" && CompareDecimal(lo, hi) > 0 then None
      else Some((Verbatim(s, n, "{" + TwinCounts(lo, hi, comma) + "}"), QGreedy))
  }

  predicate IsQuantifier(c: char) { c == '*' || c == '+' || c == '?' || c == '{' }

  function Quantifier(s: string, prev: Quant): (r: Option<(Emit, Quant)>)
    requires s != "" && IsQuantifier(s[0])
    ensures r.Some? ==> 1 <= r.value.0.n <= |s| && r.value.0.wire == s[..r.value.0.n]
  {
    var c := s[0];
    if prev == QPossessive && (c != '{' || RepeatBounds(s).Some?) then None
    else if c == '+' && (prev == QGreedy || prev == QLazy) then Some((Emit(1, "+", ""), QPossessive))
    else if c == '?' && prev == QGreedy then Some((Emit(1, "?", "?"), QLazy))
    else if c == '{' then Repeat(s)
    else Some((Emit(1, [c], [c]), QGreedy))
  }

  // ---- classes and the rest ----

  function ClassLiteral(s: string): Emit
    requires s != ""
  {
    var c := s[0];
    if c == '[' || ((c == '&' || c == '~') && |s| > 1 && s[1] == c) then Emit(1, ['\\', c], ['\\', c])
    else Emit(1, [c], [c])
  }

  /** The '[' at the start of s with the '^' and the literal ']' that may follow it. */
  function ClassOpen(s: string): (n: nat)
    requires s != ""
    ensures 1 <= n <= |s|
  {
    var j := if At(s, 1, '^') then 2 else 1;
    if At(s, j, ']') then j + 1 else j
  }

  /** A byte outside every construct goes through string(c), which spells a byte of
      0x80 or more as the two bytes of that code point. */
  function Echo(c: char): (e: string)
    ensures c < HIGH ==> e == [c]
    ensures c >= HIGH ==> |e| == 2 && e[0] >= HIGH && e[1] >= HIGH
  {
    if c < HIGH then [c]
    else [(0xC0 + (c as nat / 64) % 64) as char, (0x80 + c as nat % 64) as char]
  }

  datatype State = State(inClass: bool, prev: Quant)

  datatype Token = Token(emit: Emit, next: State)

  function Plain(e: Option<Emit>, inClass: bool): Option<Token> {
    if e.None? then None else Some(Token(e.value, State(inClass, QNone)))
  }

  /** The token at the start of s. */
  function Next(s: string, st: State): (t: Option<Token>)
    requires s != ""
    ensures t.Some? ==> 1 <= t.value.emit.n <= |s|
  {
    var c := s[0];
    if c == '\\' then if |s| < 2 then None else Plain(Escape(s, st.inClass), st.inClass)
    else if st.inClass then
      if c == ']' then Plain(Some(Emit(1, "]", "]")), false)
      else if c == '[' && At(s, 1, ':') then
        var end := IndexOfClose(s);
        if end == |s| then None else Plain(Some(Verbatim(s, end + 2, s[..end + 2])), true)
      else Plain(Some(ClassLiteral(s)), true)
    else if c == '[' then Plain(Some(Verbatim(s, ClassOpen(s), s[..ClassOpen(s)])), true)
    else if OpensGroup(s) then Plain(Group(s), false)
    else if IsQuantifier(c) then
      var q := Quantifier(s, st.prev);
      if q.None? then None else Some(Token(q.value.0, State(false, q.value.1)))
    else Plain(Some(Emit(1, Echo(c), Echo(c))), false)
  }

  datatype Output = Output(wire: string, twin: string)

  function Prepend(e: Emit, o: Option<Output>): Option<Output> {
    if o.None? then None else Some(Output(e.wire + o.value.wire, e.twin + o.value.twin))
  }

  /** Both spellings of the whole of s, or None when a form is rejected. */
  function Run(s: string, st: State): Option<Output>
    decreases |s|
  {
    if s == "" then if st.inClass then None else Some(Output("", ""))
    else
      var t := Next(s, st);
      if t.None? then None else Prepend(t.value.emit, Run(s[t.value.emit.n..], t.value.next))
  }

  const START := State(false, QNone)

  /** translate: accepts stands for Go's syntax.Parse on the twin. */
  function Translate(p: string, accepts: string -> bool): Option<string> {
    var o := Run(p, START);
    if o.Some? && accepts(o.value.twin) then Some(o.value.wire) else None
  }
}
