/**
 The lower-bound token count: long runs are widened to positions the split regex
 must cut at and charged a floor; the spans between them go to the codec whole.
 */
module TokenCount {
  import opened TokenRuns
  import opened TokenPieces
  import opened Wrappers

  /** The tokenizer's Count: None is its error result. */
  type Codec = Text -> Option<int>

  const MAX_PIECE_BYTES: nat := 1024

  function FloorTokens(n: int): (t: nat)
    ensures n <= MAX_TOKEN_BYTES * t < n + MAX_TOKEN_BYTES || (n <= 0 && t == 0)
  {
    if n <= 0 then 0 else (n + MAX_TOKEN_BYTES - 1) / MAX_TOKEN_BYTES
  }

  /** One codec call; an error, or a negative count, is charged the floor. */
  function CountWhole(codec: Codec, s: Text): (n: int)
    ensures 0 <= n
  {
    if s == [] then 0
    else
      var r := codec(s);
      if r.None? || r.value < 0 then FloorTokens(Bytes(s, 0, |s|)) else r.value
  }

  // ---- widening a run to a region ----

  /** A lone apostrophe with no letters after it, which a walk back from it treats as if
      it contracted some. The count never asks for that walk: see ApostropheNotAlone. */
  ghost predicate IdleApostrophe(s: Text, a: nat, b: nat, c: Class) {
    c == Other && a + 1 == b <= |s| && s[a].apostrophe && (b < |s| ==> ClassAt(s, 0, b) != Letter)
  }

  /** The one cut the walk up passes: an apostrophe after letters that carries marks is
      taken for a contraction of the letters after the marks. */
  ghost predicate MarkedApostrophe(s: Text, q: nat) {
    && 0 < q && q + 1 < |s| && s[q].apostrophe && s[q + 1].kind == Mark && After(s, q + 1) == Letter
    && ClassAt(s, 0, q - 1) == Letter
  }

  datatype Span = Span(lo: nat, hi: nat)

  /** hi is the first cut from b on that is not a marked apostrophe. */
  ghost predicate EndsAbove(s: Text, b: nat, hi: nat) {
    && b <= hi <= |s| && Safe(s, hi) && !MarkedApostrophe(s, hi)
    && forall q :: b <= q < hi ==> (Safe(s, q) <==> MarkedApostrophe(s, q))
  }

  /** r is the region of the long run [a, b): it starts at the last cut up to a, and ends
      at the first cut from b on but for marked apostrophes. */
  ghost predicate Widens(s: Text, r: Span, a: nat, b: nat) {
    && r.lo <= a && Safe(s, r.lo) && (forall q :: r.lo < q <= a ==> !Safe(s, q))
    && EndsAbove(s, b, r.hi)
  }

  /** r is the smallest range around [a, b) with a cut at both ends. */
  ghost predicate Smallest(s: Text, r: Span, a: nat, b: nat) {
    forall x: nat, y: nat :: x <= a && b <= y && Safe(s, x) && Safe(s, y) ==> x <= r.lo && r.hi <= y
  }

  /** A marked apostrophe is a cut. */
  lemma MarkedIsCut(s: Text, q: nat)
    requires MarkedApostrophe(s, q)
    ensures Safe(s, q)
  {
  }

  /** The region is the smallest such range if and only if the walk up meets no marked
      apostrophe: that is, unless the first cut from b on is one. */
  lemma SmallestUnlessMarked(s: Text, r: Span, a: nat, b: nat)
    requires Widens(s, r, a, b)
    ensures Smallest(s, r, a, b) <==> forall q :: b <= q < r.hi ==> !MarkedApostrophe(s, q)
  {
    if q :| b <= q < r.hi && MarkedApostrophe(s, q) {
      MarkedIsCut(s, q);
      assert r.lo <= a && Safe(s, r.lo) && Safe(s, q);
    }
  }

  /** An input on which it is not: a letter, an apostrophe that carries a mark, a letter.
      The region of the first letter is the whole text, though the apostrophe is a cut. */
  lemma MarkedIsPassed(s: Text, r: Span)
    requires |s| == 4 && s[0].kind == Letter && s[1].apostrophe && s[2].kind == Mark && s[3].kind == Letter
    ensures IsRun(s, 0, 1, Letter) && MarkedApostrophe(s, 1)
    ensures Widens(s, r, 0, 1) <==> r == Span(0, 4)
    ensures !Smallest(s, Span(0, 4), 0, 1)
  {
    assert Before(s, 0, 1) == Letter && Before(s, 0, 2) == Other && After(s, 2) == Letter;
    assert ClassAt(s, 0, 0) == Letter && ClassAt(s, 0, 1) == Other == ClassAt(s, 0, 2) && ClassAt(s, 0, 3) == Letter;
    assert Safe(s, 0) && Safe(s, 1) && !Safe(s, 2) && !Safe(s, 3) && Safe(s, 4);
  }

  lemma NoBoundaryInside(s: Text, a: nat, b: nat, c: Class)
    requires IsRun(s, a, b, c)
    ensures forall q :: a < q < b ==> !Boundary(s, q)
  {
    forall q | a < q < b ensures !Boundary(s, q) {
      assert ClassAt(s, 0, q - 1) == c == ClassAt(s, 0, q);
    }
  }

  /** A symbol run starts at a cut unless it is a lone apostrophe after letters. */
  lemma SymbolRunStart(s: Text, a: nat, b: nat)
    requires IsRun(s, a, b, Other)
    requires !(0 < a && b == a + 1 && s[a].apostrophe && ClassAt(s, 0, a - 1) == Letter)
    ensures Safe(s, a)
  {
    assert a + 1 < b ==> ClassAt(s, 0, a + 1) == Other;
  }

  /** One step of the walk: over the letters before a lone apostrophe there is no
      cut, save at the apostrophe itself when no letters follow it. */
  lemma OverLetters(s: Text, ls: nat, a: nat, b: nat)
    requires IsRun(s, a, b, Other) && b == a + 1 && s[a].apostrophe
    requires ls < a && IsRun(s, ls, a, Letter)
    ensures forall q :: ls < q <= a && Safe(s, q) ==> q == a && IdleApostrophe(s, a, b, Other)
    ensures ls == 0 || ClassAt(s, 0, ls - 1) == Digit ==> Safe(s, ls)
    ensures ls > 0 && ClassAt(s, 0, ls - 1) == Other ==> !Safe(s, ls)
    ensures ls > 0 ==> ClassAt(s, 0, ls - 1) == Digit || ClassAt(s, 0, ls - 1) == Other
  {
    NoBoundaryInside(s, ls, a, Letter);
    if b < |s| && s[b].kind == Mark {
      MarkJoins(s, b);
    }
    assert ClassAt(s, 0, ls) == Letter == ClassAt(s, 0, a - 1);
  }

  /** Walks back from the symbol run [from, letters): while it is a lone apostrophe
      after letters, over those letters and the symbol run that may lead them. */
  method ContractionStart(s: Text, from: nat, letters: nat) returns (ra: nat)
    requires IsRun(s, from, letters, Other)
    ensures ra <= from && Safe(s, ra) && ClassAt(s, 0, ra) != Digit
    ensures forall q :: ra < q <= from && Safe(s, q) ==> q == from && IdleApostrophe(s, from, letters, Other)
  {
    ra := from;
    var l: nat := letters;
    while ra > 0 && l == ra + 1 && s[ra].apostrophe
      invariant ra <= from && IsRun(s, ra, l, Other)
      invariant if ra == from then l == letters else l < |s| && ClassAt(s, 0, l) == Letter && !Safe(s, l)
      invariant forall q :: ra < q <= from && Safe(s, q) ==> q == from && IdleApostrophe(s, from, letters, Other)
      decreases ra
    {
      var lc, ls := PrevRun(s, ra);
      if lc != Letter {
        break;
      }
      OverLetters(s, ls, ra, l);
      if ls == 0 {
        ra := 0;
        return;
      }
      var pc, ps := PrevRun(s, ls);
      if pc != Other {
        ra := ls;
        return;
      }
      NoBoundaryInside(s, ps, ls, Other);
      ra, l := ps, ls;
    }
    SymbolRunStart(s, ra, l);
  }

  /** What the scan from just past an apostrophe finds when letters follow, with or
      without marks between: the end of those letters, and no cut before it but the
      one the marks make. */
  lemma LettersAfterApostrophe(s: Text, q: nat)
    requires q + 1 < |s| && s[q].apostrophe && ClassAt(s, q + 1, q + 1) == Letter
    requires 0 < q && Boundary(s, q) && ClassAt(s, 0, q - 1) == Letter
    ensures var e := RunStop(s, q + 1, q + 1);
            && Boundary(s, e) && ClassAt(s, 0, e - 1) == Letter
            && forall p :: q <= p < e && Safe(s, p) ==> p == q && MarkedApostrophe(s, q)
  {
    var e := RunStop(s, q + 1, q + 1);
    var m := q + 1;
    while m < |s| && s[m].kind == Mark
      invariant q < m <= |s| && forall j :: q < j < m ==> s[j].kind == Mark
      invariant ClassAt(s, 0, q) == Other
      invariant forall j :: q < j < m ==> Before(s, 0, j) == Other
      invariant Before(s, 0, m) == Other
    {
      m := m + 1;
    }
    BeforeMarks(s, q + 1, q + 1, q + 1);
    AfterMarks(s, q + 1, m);
    assert m < |s| && s[m].kind == Letter;
    forall k | m <= k < |s| ensures ClassAt(s, q + 1, k) == ClassAt(s, 0, k) {
      BeforeFrom(s, q + 1, m, k);
      BeforeFrom(s, 0, m, k);
      if m < k {
        NotBefore(s, m, k);
      }
    }
    if e <= m {
      BeforeMarks(s, q + 1, q + 1, e);
      AfterMarks(s, e, m);
    }
  }

  lemma {:induction false} NotBefore(s: Text, m: nat, k: nat)
    requires m < k <= |s| && s[m].kind != Mark
    ensures Before(s, m, k) != NoClass
    decreases k
  {
    if m + 1 < k {
      NotBefore(s, m, k - 1);
    }
  }

  /** Above a long run: the letters a symbol run may lead, then contractions. */
  method RegionEnd(s: Text, c: Class, b: nat) returns (re: nat)
    requires 0 < b <= |s| && Boundary(s, b) && ClassAt(s, 0, b - 1) == c && (c == Letter || c == Other)
    ensures EndsAbove(s, b, re)
  {
    forall q | MarkedApostrophe(s, q) ensures Safe(s, q) {
      MarkedIsCut(s, q);
    }
    re := b;
    if c != Letter {
      var nc, ne := RunEnd(s, re);
      if re < |s| {
        ScanFromBoundary(s, re);
        Mirror(s, re);
        if nc == Letter {
          NoBoundaryInside(s, re, ne, Letter);
          assert Leads(s, re);
          re := ne;
        }
      }
    }
    while re < |s| && s[re].apostrophe
      invariant b <= re <= |s| && Boundary(s, re)
      invariant ClassAt(s, 0, re - 1) == Letter || re == |s| || ClassAt(s, 0, re) == Digit
      invariant forall q :: b <= q < re && Safe(s, q) ==> MarkedApostrophe(s, q)
      decreases |s| - re
    {
      var nc, ne := RunEnd(s, re + 1);
      if nc != Letter {
        break;
      }
      LettersAfterApostrophe(s, re);
      re := ne;
    }
  }

  /** Widens the long run [a, b). Below, it starts at the last cut, unless it walks back
      from a lone apostrophe that contracts nothing. */
  method Region(s: Text, c: Class, a: nat, b: nat, prevClass: Class, prevStart: nat) returns (ra: nat, re: nat)
    requires IsRun(s, a, b, c) && (c == Letter || c == Other)
    requires if prevClass == NoClass then Safe(s, a) else IsRun(s, prevStart, a, prevClass)
    ensures ra < re <= |s| && Safe(s, ra) && Safe(s, re) && ClassAt(s, 0, ra) != Digit
    ensures (prevClass == Letter && IdleApostrophe(s, a, b, c)) || Widens(s, Span(ra, re), a, b)
    ensures EndsAbove(s, b, re) && (prevClass == NoClass ==> ra == a)
  {
    ra := a;
    if c == Letter && prevClass == Other {
      NoBoundaryInside(s, prevStart, a, Other);
      ra := ContractionStart(s, prevStart, a);
      assert Leads(s, a);
    } else if c == Other && b == a + 1 && s[a].apostrophe && prevClass == Letter {
      ra := ContractionStart(s, a, b);
    } else {
      assert a + 1 < b ==> ClassAt(s, 0, a + 1) == c;
    }
    re := RegionEnd(s, c, b);
  }

  // ---- the count ----

  /** Where the spans so far end. */
  ghost function Reach(rs: seq<Span>): nat {
    if rs == [] then 0 else rs[|rs| - 1].hi
  }

  /** Regions in order, apart, with a cut at each end. */
  ghost predicate Apart(s: Text, rs: seq<Span>)
    decreases rs
  {
    rs == [] ||
    var r, before := rs[|rs| - 1], rs[..|rs| - 1];
    && Apart(s, before)
    && Reach(before) <= r.lo < r.hi <= |s|
    && Safe(s, r.lo) && Safe(s, r.hi) && ClassAt(s, 0, r.lo) != Digit
  }

  /** A floor for each region, and the codec for each span between them. */
  ghost function Charge(s: Text, codec: Codec, rs: seq<Span>): int
    requires Apart(s, rs)
    decreases rs
  {
    if rs == [] then 0
    else
      var r, before := rs[|rs| - 1], rs[..|rs| - 1];
      ReachBound(s, before);
      Charge(s, codec, before) + CountWhole(codec, s[Reach(before)..r.lo]) + FloorTokens(Bytes(s, r.lo, r.hi))
  }

  lemma ReachBound(s: Text, rs: seq<Span>)
    requires Apart(s, rs)
    ensures Reach(rs) <= |s| && Safe(s, Reach(rs))
  {
  }

  ghost predicate IsLong(s: Text, limit: int, a: nat, b: nat, c: Class) {
    IsRun(s, a, b, c) && c != Digit && limit <= Bytes(s, a, b)
  }

  ghost predicate NoLongRun(s: Text, limit: int) { forall a: nat, b: nat, c :: !IsLong(s, limit, a, b, c) }

  ghost predicate FromLongRuns(s: Text, limit: int, rs: seq<Span>) {
    forall r :: r in rs ==> exists a: nat, b: nat, c ::
      IsLong(s, limit, a, b, c) && Widens(s, r, a, b)
  }

  /** Every long run that starts before position p is inside a region. */
  ghost predicate LongRunsIn(s: Text, limit: int, rs: seq<Span>, p: nat) {
    forall a: nat, b: nat, c :: a < p && IsLong(s, limit, a, b, c) ==> exists r :: r in rs && r.lo <= a && b <= r.hi
  }

  /** Two runs that overlap are one. */
  lemma SameRun(s: Text, i: nat, e: nat, c: Class, a: nat, b: nat, d: Class)
    requires IsRun(s, i, e, c) && IsRun(s, a, b, d) && i <= a < e
    ensures a == i && b == e && c == d
  {
    NoBoundaryInside(s, i, e, c);
    assert ClassAt(s, 0, a) == d;
    if e < b {
      NoBoundaryInside(s, a, b, c);
    }
  }

  /** What the scan has established when it stands at position i. */
  ghost predicate Scanned(s: Text, limit: int, rs: seq<Span>, i: nat) {
    && Apart(s, rs) && Reach(rs) <= i <= |s| && Boundary(s, i)
    && FromLongRuns(s, limit, rs) && LongRunsIn(s, limit, rs, i)
  }

  /** A run the scan passes over. */
  lemma Passed(s: Text, limit: int, rs: seq<Span>, i: nat, e: nat, c: Class)
    requires Scanned(s, limit, rs, i) && i < e && IsRun(s, i, e, c) && !IsLong(s, limit, i, e, c)
    ensures Scanned(s, limit, rs, e)
  {
    forall a: nat, b: nat, d | a < e && IsLong(s, limit, a, b, d)
      ensures exists r :: r in rs && r.lo <= a && b <= r.hi
    {
      if i <= a {
        SameRun(s, i, e, c, a, b, d);
      }
    }
  }

  /** A long run the scan widens to a region. */
  lemma Widened(s: Text, limit: int, codec: Codec, rs: seq<Span>, r: Span, i: nat, e: nat, c: Class)
    requires Scanned(s, limit, rs, i) && IsLong(s, limit, i, e, c) && Widens(s, r, i, e)
    requires Reach(rs) <= r.lo < r.hi <= |s| && Safe(s, r.lo) && Safe(s, r.hi) && ClassAt(s, 0, r.lo) != Digit
    ensures Scanned(s, limit, rs + [r], r.hi) && Reach(rs + [r]) == r.hi
    ensures Charge(s, codec, rs + [r])
         == Charge(s, codec, rs) + CountWhole(codec, s[Reach(rs)..r.lo]) + FloorTokens(Bytes(s, r.lo, r.hi))
  {
    var more := rs + [r];
    assert more[..|more| - 1] == rs;
    forall a: nat, b: nat, d | a < r.hi && IsLong(s, limit, a, b, d)
      ensures exists x :: x in more && x.lo <= a && b <= x.hi
    {
      if a < i {
        var x :| x in rs && x.lo <= a && b <= x.hi;
        assert x in more;
      } else {
        NoBoundaryInside(s, a, b, d);
        assert r in more && b <= r.hi;
      }
    }
    forall x | x in more
      ensures exists a: nat, b: nat, d :: IsLong(s, limit, a, b, d) && Widens(s, x, a, b)
    {
    }
  }

  // ---- the bound ----

  /** What is asked of the codec: the count of a span is the count of its pieces in
      place, for spans between cuts that end after a letter or a digit, or at the end
      of the text. (Cut after whitespace, the regex's lookahead would see the end.) */
  ghost predicate Faithful(codec: Codec, s: Text, ps: seq<Piece>) {
    forall x: nat, y: nat ::
      && x <= y <= |s| && Safe(s, x) && Safe(s, y)
      && (y == |s| || y == 0 || ClassAt(s, 0, y - 1) != Other)
      && codec(s[x..y]).Some? && 0 <= codec(s[x..y]).value
      ==> codec(s[x..y]).value == TokensIn(ps, 0, x, y)
  }

  lemma {:induction false} BytesOfSlice(s: Text, x: nat, y: nat, n: nat)
    requires x <= y <= |s| && n <= y - x
    ensures Bytes(s[x..y], 0, n) == Bytes(s, x, x + n)
    decreases n
  {
    if 0 < n {
      BytesOfSlice(s, x, y, n - 1);
    }
  }

  lemma FloorIsLeast(n: nat, t: nat)
    requires n <= MAX_TOKEN_BYTES * t
    ensures FloorTokens(n) <= t
  {
  }

  lemma SpanFloor(s: Text, ps: seq<Piece>, x: nat, y: nat)
    requires Tiles(s, 0, ps) && x <= y <= |s| && Safe(s, x) && Safe(s, y)
    ensures FloorTokens(Bytes(s[x..y], 0, y - x)) <= TokensIn(ps, 0, x, y)
  {
    TokensCoverBytes(s, ps, 0, x, y);
    BytesOfSlice(s, x, y, y - x);
    FloorIsLeast(Bytes(s, x, y), TokensIn(ps, 0, x, y));
  }

  /** A span handed to the codec is charged no more than its tokens, error or not. */
  lemma SpanIsLower(s: Text, codec: Codec, ps: seq<Piece>, x: nat, y: nat)
    requires Tiles(s, 0, ps) && Faithful(codec, s, ps)
    requires x <= y <= |s| && Safe(s, x) && Safe(s, y)
    requires y == |s| || y == 0 || ClassAt(s, 0, y - 1) != Other
    ensures CountWhole(codec, s[x..y]) <= TokensIn(ps, 0, x, y)
  {
    SpanFloor(s, ps, x, y);
  }

  /** A region opens right after a letter or a digit, or at the start of the text. */
  lemma OpensAfterSolid(s: Text, lo: nat)
    requires lo < |s| && Safe(s, lo) && ClassAt(s, 0, lo) != Digit
    ensures lo == 0 || ClassAt(s, 0, lo - 1) != Other
  {
  }

  /** A span and the region after it are charged no more than their tokens. */
  lemma RegionIsLower(s: Text, codec: Codec, ps: seq<Piece>, m: nat, r: Span)
    requires Tiles(s, 0, ps) && Faithful(codec, s, ps)
    requires m <= r.lo < r.hi <= |s| && Safe(s, m) && Safe(s, r.lo) && Safe(s, r.hi) && ClassAt(s, 0, r.lo) != Digit
    ensures CountWhole(codec, s[m..r.lo]) + FloorTokens(Bytes(s, r.lo, r.hi)) <= TokensIn(ps, 0, m, r.hi)
  {
    OpensAfterSolid(s, r.lo);
    SpanIsLower(s, codec, ps, m, r.lo);
    TokensCoverBytes(s, ps, 0, r.lo, r.hi);
    TokensSplit(ps, 0, m, r.lo, r.hi);
  }

  /** The regions and the spans between them are charged no more than their tokens. */
  lemma {:induction false} ChargeIsLower(s: Text, codec: Codec, ps: seq<Piece>, rs: seq<Span>)
    requires Apart(s, rs) && Tiles(s, 0, ps) && Faithful(codec, s, ps)
    ensures Charge(s, codec, rs) <= TokensIn(ps, 0, 0, Reach(rs))
    decreases rs
  {
    if rs != [] {
      var r, before := rs[|rs| - 1], rs[..|rs| - 1];
      ReachBound(s, before);
      ChargeIsLower(s, codec, ps, before);
      RegionIsLower(s, codec, ps, Reach(before), r);
      TokensSplit(ps, 0, 0, Reach(before), r.hi);
    }
  }

  lemma OneRuneMore(ps: seq<Piece>, rest: seq<Piece>, x: nat, y: nat, a: nat, b: nat)
    requires ps != [] && rest == ps[1..] && ps[0].runes == 1 && |ps[0].tokens| == 1 && y == x + 1 && x <= a <= b
    requires forall c: nat :: y <= c <= b ==> TokensIn(rest, y, c, b) == b - c
    ensures TokensIn(ps, x, a, b) == b - a
  {
    if a == x < b {
      TokensSplit(ps, x, a, y, b);
      NoneBefore(rest, y, x, y);
      assert TokensIn(ps, x, x, y) == 1;
      assert TokensIn(ps, x, y, b) == TokensIn(rest, y, y, b);
    } else if a == x {
      NoneBefore(ps, x, a, b);
    }
  }

  /** Every text has a tiling, and a codec faithful to it: one token for each rune. */
  lemma {:induction false} RuneByRune(s: Text, x: nat) returns (ps: seq<Piece>)
    requires x <= |s|
    ensures Tiles(s, x, ps) && forall a: nat, b: nat :: x <= a <= b <= |s| ==> TokensIn(ps, x, a, b) == b - a
    ensures x == 0 ==> Faithful(t => Some(|t|), s, ps)
    decreases |s| - x
  {
    if x == |s| {
      ps := [];
    } else {
      var rest := RuneByRune(s, x + 1);
      var p := Piece(1, [s[x].width]);
      ps := [p] + rest;
      assert ps[1..] == rest;
      assert s[x].kind == Letter || s[x].kind == Mark ==> LetterPieceAt(s, x, x + 1, x + 1);
      assert Bytes(s, x, x) == 0 && p.tokens[1..] == [] && Sum(p.tokens) == s[x].width;
      forall a: nat, b: nat | x <= a <= b <= |s| ensures TokensIn(ps, x, a, b) == b - a {
        OneRuneMore(ps, rest, x, x + 1, a, b);
      }
    }
  }

  lemma {:induction false} NoneBefore(ps: seq<Piece>, x: nat, a: nat, b: nat)
    requires b <= x
    ensures TokensIn(ps, x, a, b) == 0
    decreases ps
  {
    if ps != [] {
      NoneBefore(ps[1..], x + ps[0].runes, a, b);
    }
  }

  /** The walk never crosses an earlier cut, so clamping a region to the end of the
      region before it never changes anything. */
  lemma ClampIsIdle(s: Text, cut: nat, r: Span, a: nat, b: nat)
    requires Widens(s, r, a, b) && Safe(s, cut) && cut < a
    ensures cut <= r.lo
  {
  }

  /** n is at most the token count of every tiling the codec is faithful to. */
  ghost predicate IsLowerBound(s: Text, codec: Codec, n: int) {
    forall ps :: Tiles(s, 0, ps) && Faithful(codec, s, ps) ==> n <= TokensIn(ps, 0, 0, |s|)
  }

  lemma WholeIsLower(s: Text, codec: Codec, rs: seq<Span>)
    requires Apart(s, rs) && Reach(rs) <= |s|
    ensures IsLowerBound(s, codec, Charge(s, codec, rs) + CountWhole(codec, s[Reach(rs)..]))
  {
    forall ps | Tiles(s, 0, ps) && Faithful(codec, s, ps)
      ensures Charge(s, codec, rs) + CountWhole(codec, s[Reach(rs)..]) <= TokensIn(ps, 0, 0, |s|)
    {
      ReachBound(s, rs);
      ChargeIsLower(s, codec, ps, rs);
      SpanIsLower(s, codec, ps, Reach(rs), |s|);
      assert s[Reach(rs)..|s|] == s[Reach(rs)..];
      TokensSplit(ps, 0, 0, Reach(rs), |s|);
    }
  }

  // ---- what exactly is counted ----

  /** The codec counts the span: it does not fail. */
  ghost predicate Answers(codec: Codec, span: Text) {
    codec(span).Some? && 0 <= codec(span).value
  }

  /** The least number of tokens of at most 128 bytes for n bytes. */
  ghost predicate LeastTokens(n: nat, t: nat) {
    n <= MAX_TOKEN_BYTES * t && (0 < t ==> MAX_TOKEN_BYTES * (t - 1) < n)
  }

  /** What the span s[x..y] is worth: its own tokens, or as many as its bytes need when the
      codec fails on it. */
  ghost predicate SpanWorth(s: Text, codec: Codec, ps: seq<Piece>, x: nat, y: nat, n: int)
    requires x <= y <= |s|
  {
    if x == y then n == 0
    else if Answers(codec, s[x..y]) then n == TokensIn(ps, 0, x, y)
    else 0 <= n && LeastTokens(Bytes(s, x, y), n)
  }

  /** What the regions rs and the spans before them are worth: for each span its tokens, for
      each region the least its bytes need. */
  ghost predicate Worth(s: Text, codec: Codec, ps: seq<Piece>, rs: seq<Span>, n: int)
    requires Apart(s, rs)
    decreases rs
  {
    if rs == [] then n == 0
    else
      var r, before := rs[|rs| - 1], rs[..|rs| - 1];
      exists b: int, m: int, t: nat ::
        Worth(s, codec, ps, before, b) && SpanWorth(s, codec, ps, Reach(before), r.lo, m)
        && LeastTokens(Bytes(s, r.lo, r.hi), t) && n == b + m + t
  }

  /** n is what the whole text is worth, given its regions. */
  ghost predicate WorthWhole(s: Text, codec: Codec, ps: seq<Piece>, rs: seq<Span>, n: int)
    requires Apart(s, rs) && Reach(rs) <= |s|
  {
    exists b: int, m: int ::
      Worth(s, codec, ps, rs, b) && SpanWorth(s, codec, ps, Reach(rs), |s|, m) && n == b + m
  }

  /** n is what the whole text is worth in every tiling the codec is faithful to. */
  ghost predicate IsExact(s: Text, codec: Codec, rs: seq<Span>, n: int)
    requires Apart(s, rs) && Reach(rs) <= |s|
  {
    forall ps :: Tiles(s, 0, ps) && Faithful(codec, s, ps) ==> WorthWhole(s, codec, ps, rs, n)
  }

  lemma FloorIsTight(n: int)
    ensures 0 <= n ==> LeastTokens(n, FloorTokens(n))
  {
  }

  lemma SpanIsExact(s: Text, codec: Codec, ps: seq<Piece>, x: nat, y: nat)
    requires Faithful(codec, s, ps) && x <= y <= |s| && Safe(s, x) && Safe(s, y)
    requires y == |s| || y == 0 || ClassAt(s, 0, y - 1) != Other
    ensures SpanWorth(s, codec, ps, x, y, CountWhole(codec, s[x..y]))
  {
    BytesOfSlice(s, x, y, y - x);
    FloorIsTight(Bytes(s, x, y));
  }

  lemma WorthMore(s: Text, codec: Codec, ps: seq<Piece>, rs: seq<Span>, b: int, m: int, t: nat)
    requires Apart(s, rs) && rs != []
    requires var r, before := rs[|rs| - 1], rs[..|rs| - 1];
             && Worth(s, codec, ps, before, b) && SpanWorth(s, codec, ps, Reach(before), r.lo, m)
             && LeastTokens(Bytes(s, r.lo, r.hi), t)
    ensures Worth(s, codec, ps, rs, b + m + t)
  {
  }

  lemma {:induction false} ChargeIsExact(s: Text, codec: Codec, ps: seq<Piece>, rs: seq<Span>)
    requires Apart(s, rs) && Faithful(codec, s, ps)
    ensures Worth(s, codec, ps, rs, Charge(s, codec, rs))
    decreases rs
  {
    if rs != [] {
      var r, before := rs[|rs| - 1], rs[..|rs| - 1];
      ReachBound(s, before);
      ChargeIsExact(s, codec, ps, before);
      OpensAfterSolid(s, r.lo);
      SpanIsExact(s, codec, ps, Reach(before), r.lo);
      FloorIsTight(Bytes(s, r.lo, r.hi));
      WorthMore(s, codec, ps, rs, Charge(s, codec, before), CountWhole(codec, s[Reach(before)..r.lo]),
        FloorTokens(Bytes(s, r.lo, r.hi)));
    }
  }

  /** Spans are counted exactly and regions at the least their bytes need: with the codec
      answering, the total is the tokens outside the regions and a floor for each. */
  lemma WholeIsExact(s: Text, codec: Codec, rs: seq<Span>)
    requires Apart(s, rs) && Reach(rs) <= |s|
    ensures IsExact(s, codec, rs, Charge(s, codec, rs) + CountWhole(codec, s[Reach(rs)..]))
  {
    forall ps | Tiles(s, 0, ps) && Faithful(codec, s, ps)
      ensures WorthWhole(s, codec, ps, rs, Charge(s, codec, rs) + CountWhole(codec, s[Reach(rs)..])) {
      ReachBound(s, rs);
      ChargeIsExact(s, codec, ps, rs);
      SpanIsExact(s, codec, ps, Reach(rs), |s|);
      assert s[Reach(rs)..|s|] == s[Reach(rs)..];
    }
  }

  lemma RegionsAreLong(s: Text, limit: int, rs: seq<Span>)
    requires FromLongRuns(s, limit, rs)
    ensures rs != [] ==> exists a: nat, b: nat, c :: IsLong(s, limit, a, b, c)
  {
    if rs != [] {
      assert rs[0] in rs;
    }
  }

  /** A text without a long run is one codec call. */
  lemma ShortIsOneCall(s: Text, limit: int, codec: Codec, rs: seq<Span>)
    requires Scanned(s, limit, rs, |s|) && NoLongRun(s, limit)
    ensures rs == []
    ensures s != [] && Answers(codec, s) ==>
              Charge(s, codec, rs) + CountWhole(codec, s[Reach(rs)..]) == codec(s).value
  {
    RegionsAreLong(s, limit, rs);
    assert s[0..] == s;
  }

  // ---- the loop ----

  /** The loop of Count: the scan stands at i, the last region ended at spanStart, and
      prevClass and prevStart are the run just passed, if any since then. */
  ghost predicate Standing(s: Text, limit: int, codec: Codec, rs: seq<Span>, total: int,
                           spanStart: nat, prevClass: Class, prevStart: nat, i: nat) {
    && Scanned(s, limit, rs, i)
    && spanStart == Reach(rs) && Safe(s, spanStart) && total == Charge(s, codec, rs)
    && if prevClass == NoClass then i == spanStart
       else spanStart <= prevStart && IsRun(s, prevStart, i, prevClass) && !IsLong(s, limit, prevStart, i, prevClass)
  }

  /** A run the count passed over is shorter than the limit, so a lone apostrophe that
      reaches the limit never follows passed letters. */
  lemma ApostropheNotAlone(s: Text, limit: int, p: nat, i: nat, e: nat)
    requires IsRun(s, p, i, Letter) && !IsLong(s, limit, p, i, Letter) && IsLong(s, limit, i, e, Other)
    ensures !(e == i + 1 && s[i].apostrophe)
  {
    if s[i].apostrophe {
      OneByte(s, i);
    }
  }

  lemma OneByte(s: Text, i: nat)
    requires i < |s| && s[i].apostrophe
    ensures Bytes(s, i, i + 1) == 1
  {
    assert Bytes(s, i, i) == 0;
  }

  lemma RunFromBoundary(s: Text, i: nat)
    requires i < |s| && Boundary(s, i)
    ensures IsRun(s, i, RunStop(s, i, i), ClassAt(s, i, i)) && ClassAt(s, i, i) != Mark
  {
    ScanFromBoundary(s, i);
    Mirror(s, i);
  }

  lemma StandPast(s: Text, limit: int, codec: Codec, rs: seq<Span>, total: int,
                  spanStart: nat, prevClass: Class, prevStart: nat, i: nat, e: nat, c: Class)
    requires Standing(s, limit, codec, rs, total, spanStart, prevClass, prevStart, i)
    requires IsRun(s, i, e, c) && c != NoClass && !IsLong(s, limit, i, e, c)
    ensures Standing(s, limit, codec, rs, total, spanStart, c, i, e)
  {
    Passed(s, limit, rs, i, e, c);
  }

  lemma StandAfter(s: Text, limit: int, codec: Codec, rs: seq<Span>, total: int,
                   spanStart: nat, prevClass: Class, prevStart: nat, i: nat, e: nat, c: Class, r: Span)
    requires Standing(s, limit, codec, rs, total, spanStart, prevClass, prevStart, i)
    requires IsLong(s, limit, i, e, c) && (prevClass == NoClass ==> r.lo == i)
    requires (prevClass == Letter && IdleApostrophe(s, i, e, c)) || Widens(s, r, i, e)
    requires r.lo < r.hi <= |s| && Safe(s, r.lo) && Safe(s, r.hi) && ClassAt(s, 0, r.lo) != Digit
    ensures spanStart <= r.lo && i < r.hi
    ensures Standing(s, limit, codec, rs + [r],
                     total + CountWhole(codec, s[spanStart..r.lo]) + FloorTokens(Bytes(s, r.lo, r.hi)),
                     r.hi, NoClass, prevStart, r.hi)
  {
    if prevClass == Letter && c == Other {
      ApostropheNotAlone(s, limit, prevStart, i, e);
    }
    if prevClass != NoClass {
      ClampIsIdle(s, spanStart, r, i, e);
    }
    Widened(s, limit, codec, rs, r, i, e, c);
  }

  function Max(a: nat, b: nat): nat { if a < b then b else a }

  /** A long run: the span up to its region, and the region's floor. */
  method ChargeRegion(s: Text, ghost limit: int, codec: Codec, ghost rs: seq<Span>, total: int, spanStart: nat,
                      prevClass: Class, prevStart: nat, i: nat, e: nat, c: Class) returns (ra: nat, re: nat, more: int)
    requires Standing(s, limit, codec, rs, total, spanStart, prevClass, prevStart, i) && IsLong(s, limit, i, e, c)
    requires c == Letter || c == Other
    ensures i < re <= |s|
    ensures Standing(s, limit, codec, rs + [Span(ra, re)], more, re, NoClass, prevStart, re)
  {
    ra, re := Region(s, c, i, e, prevClass, prevStart);
    StandAfter(s, limit, codec, rs, total, spanStart, prevClass, prevStart, i, e, c, Span(ra, re));
    ra := Max(ra, spanStart);
    more := total + CountWhole(codec, s[spanStart..ra]) + FloorTokens(Bytes(s, ra, re));
  }

  /** Counts s: maxPiece overrides the default limit when positive. */
  method Count(s: Text, maxPiece: int, codec: Codec) returns (total: int, ghost regions: seq<Span>)
    ensures Scanned(s, if 0 < maxPiece then maxPiece else MAX_PIECE_BYTES, regions, |s|)
    ensures Reach(regions) <= |s| && total == Charge(s, codec, regions) + CountWhole(codec, s[Reach(regions)..])
    ensures IsLowerBound(s, codec, total) && IsExact(s, codec, regions, total)
    ensures NoLongRun(s, if 0 < maxPiece then maxPiece else MAX_PIECE_BYTES) ==>
              regions == [] && (s != [] && Answers(codec, s) ==> total == codec(s).value)
  {
    var limit := maxPiece;
    if limit <= 0 {
      limit := MAX_PIECE_BYTES;
    }
    regions := [];
    var spanStart: nat, i: nat := 0, 0;
    var prevClass: Class, prevStart: nat := NoClass, 0;
    total := 0;
    while i < |s|
      invariant i <= |s| && Standing(s, limit, codec, regions, total, spanStart, prevClass, prevStart, i)
      decreases |s| - i
    {
      var c, end := RunEnd(s, i);
      RunFromBoundary(s, i);
      if Bytes(s, i, end) < limit || c == Digit {
        StandPast(s, limit, codec, regions, total, spanStart, prevClass, prevStart, i, end, c);
        prevClass, prevStart, i := c, i, end;
        continue;
      }
      var ra, re;
      ra, re, total := ChargeRegion(s, limit, codec, regions, total, spanStart, prevClass, prevStart, i, end, c);
      regions := regions + [Span(ra, re)];
      spanStart, i := re, re;
      prevClass := NoClass;
    }
    total := total + CountWhole(codec, s[spanStart..]);
    WholeIsLower(s, codec, regions);
    WholeIsExact(s, codec, regions);
    if NoLongRun(s, limit) {
      ShortIsOneCall(s, limit, codec, regions);
    }
  }
}
