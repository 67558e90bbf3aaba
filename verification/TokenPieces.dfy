/**
 The pieces the tokenizer's split regex may cut a text into, the positions no such
 piece can straddle, and what a tiling of the text by pieces costs in tokens.

 A piece here is any rune sequence one of the regex's alternatives can match;
 which alternative wins where is not used, so the results hold of every tiling.
 */
module TokenPieces {
  import opened TokenRuns

  // ---- shapes ----

  ghost predicate DigitPiece(s: Text, x: nat, y: nat)
    requires x <= y <= |s|
  {
    x < y <= x + 3 && forall k :: x <= k < y ==> s[k].kind == Digit
  }

  /** Symbols, whitespace and newlines, with the marks that follow them. A piece
      that opens with a mark is a letter piece: that alternative comes first. */
  ghost predicate SymbolPiece(s: Text, x: nat, y: nat)
    requires x <= y <= |s|
  {
    x < y && s[x].kind == Other && forall k :: x <= k < y ==> s[k].kind == Other || s[k].kind == Mark
  }

  /** An optional lead rune, letters and marks up to m, and from m to y an optional
      contraction: an apostrophe and one or two letters. */
  ghost predicate LetterPieceAt(s: Text, x: nat, m: nat, y: nat)
    requires x <= y <= |s|
  {
    && x < m <= y
    && (s[x].kind == Letter || s[x].kind == Mark || (s[x].kind == Other && x + 1 < m))
    && (forall k :: x < k < m ==> s[k].kind == Letter || s[k].kind == Mark)
    && (m < y ==> s[m].apostrophe && m + 1 < y <= m + 3 && forall k :: m < k < y ==> s[k].kind == Letter)
  }

  ghost predicate IsPiece(s: Text, x: nat, y: nat) {
    x <= y <= |s| && (DigitPiece(s, x, y) || SymbolPiece(s, x, y) || exists m :: LetterPieceAt(s, x, m, y))
  }

  // ---- cuts ----

  /** At p an apostrophe may contract the letters before it. */
  ghost predicate Contracts(s: Text, p: nat) {
    0 < p && p + 1 < |s| && s[p].apostrophe && s[p + 1].kind == Letter && ClassAt(s, 0, p - 1) == Letter
  }

  /** At p the last rune of a symbol run may lead the letters after it. */
  ghost predicate Leads(s: Text, p: nat) {
    0 < p < |s| && ClassAt(s, 0, p - 1) == Other && ClassAt(s, 0, p) == Letter
  }

  /** The run boundaries at which no piece can reach across. */
  ghost predicate Safe(s: Text, p: nat) {
    p <= |s| && Boundary(s, p) && !Contracts(s, p) && !Leads(s, p)
  }

  lemma {:induction false} SymbolPieceIsUniform(s: Text, x: nat, y: nat, k: nat)
    requires x <= y <= |s| && SymbolPiece(s, x, y) && x <= k < y
    ensures ClassAt(s, 0, k) == Other
    decreases k
  {
    if s[k].kind == Mark {
      SymbolPieceIsUniform(s, x, y, k - 1);
      MarkJoins(s, k);
    }
  }

  /** No piece of any shape straddles a safe position: neither a letter piece with
      its lead rune nor one with a contraction. */
  lemma SafeIsCut(s: Text, p: nat, x: nat, y: nat)
    requires Safe(s, p) && IsPiece(s, x, y)
    ensures !(x < p < y)
  {
    if x < p < y {
      if SymbolPiece(s, x, y) {
        SymbolPieceIsUniform(s, x, y, p - 1);
        SymbolPieceIsUniform(s, x, y, p);
      } else if !DigitPiece(s, x, y) {
        var m :| LetterPieceAt(s, x, m, y);
        if s[p].kind == Mark {
          MarkJoins(s, p);
        }
      }
    }
  }

  /** Safety is exact on run boundaries: where it fails, a piece of an allowed shape
      does reach across. With a lone apostrophe between two letter runs, neither
      end of it is a cut. */
  lemma CutIffSafe(s: Text, p: nat)
    requires p <= |s| && Boundary(s, p)
    ensures Safe(s, p) <==> forall x: nat, y: nat :: IsPiece(s, x, y) ==> !(x < p < y)
  {
    if Safe(s, p) {
      forall x: nat, y: nat | IsPiece(s, x, y) ensures !(x < p < y) {
        SafeIsCut(s, p, x, y);
      }
    } else if Contracts(s, p) {
      assert LetterPieceAt(s, p - 1, p, p + 2);
      assert IsPiece(s, p - 1, p + 2);
    } else {
      if s[p].kind == Mark {
        MarkJoins(s, p);
      }
      assert LetterPieceAt(s, p - 1, p + 1, p + 1);
      assert IsPiece(s, p - 1, p + 1);
    }
  }

  // ---- tilings ----

  /** One piece: how many runes it holds, and the bytes of each of its tokens. */
  datatype Piece = Piece(runes: nat, tokens: seq<nat>)

  const MAX_TOKEN_BYTES: nat := 128

  function Bytes(s: Text, a: nat, b: nat): (n: nat)
    requires a <= b <= |s|
    ensures b - a <= n
  {
    if a == b then 0 else Bytes(s, a, b - 1) + s[b - 1].width
  }

  ghost function Sum(ns: seq<nat>): nat {
    if ns == [] then 0 else ns[0] + Sum(ns[1..])
  }

  /** Tokens cover at least the piece's own bytes (an invalid byte is tokenized as
      the three bytes of U+FFFD), and none is longer than the longest token. */
  ghost predicate TokensCover(s: Text, x: nat, p: Piece)
    requires x + p.runes <= |s|
  {
    && Bytes(s, x, x + p.runes) <= Sum(p.tokens)
    && forall k :: 0 <= k < |p.tokens| ==> p.tokens[k] <= MAX_TOKEN_BYTES
  }

  /** The pieces ps tile s from position x to its end. */
  ghost predicate Tiles(s: Text, x: nat, ps: seq<Piece>)
    requires x <= |s|
    decreases ps
  {
    if ps == [] then x == |s|
    else
      && x + ps[0].runes <= |s|
      && IsPiece(s, x, x + ps[0].runes)
      && TokensCover(s, x, ps[0])
      && Tiles(s, x + ps[0].runes, ps[1..])
  }

  /** Tokens of the pieces that start in [a, b), where ps starts at x. */
  ghost function TokensIn(ps: seq<Piece>, x: nat, a: nat, b: nat): nat
    decreases ps
  {
    if ps == [] then 0
    else (if a <= x < b then |ps[0].tokens| else 0) + TokensIn(ps[1..], x + ps[0].runes, a, b)
  }

  lemma {:induction false} TokensSplit(ps: seq<Piece>, x: nat, a: nat, b: nat, c: nat)
    requires a <= b <= c
    ensures TokensIn(ps, x, a, b) + TokensIn(ps, x, b, c) == TokensIn(ps, x, a, c)
    decreases ps
  {
    if ps != [] {
      TokensSplit(ps[1..], x + ps[0].runes, a, b, c);
    }
  }

  lemma {:induction false} BytesSplit(s: Text, a: nat, b: nat, c: nat)
    requires a <= b <= c <= |s|
    ensures Bytes(s, a, c) == Bytes(s, a, b) + Bytes(s, b, c)
    decreases c
  {
    if b < c {
      BytesSplit(s, a, b, c - 1);
    }
  }

  lemma {:induction false} SumBound(ns: seq<nat>)
    requires forall k :: 0 <= k < |ns| ==> ns[k] <= MAX_TOKEN_BYTES
    ensures Sum(ns) <= MAX_TOKEN_BYTES * |ns|
  {
    if ns != [] {
      SumBound(ns[1..]);
    }
  }

  /** Between two positions no piece can straddle, whole tokens tile the bytes, so
      there are enough of them to cover the bytes. */
  lemma {:induction false} TokensCoverBytes(s: Text, ps: seq<Piece>, x: nat, a: nat, b: nat)
    requires x <= |s| && Tiles(s, x, ps) && a <= b <= |s| && Safe(s, a) && Safe(s, b)
    ensures a <= x <= b ==> Bytes(s, x, b) <= MAX_TOKEN_BYTES * TokensIn(ps, x, a, b)
    ensures x <= a ==> Bytes(s, a, b) <= MAX_TOKEN_BYTES * TokensIn(ps, x, a, b)
    decreases ps
  {
    if ps != [] {
      var y := x + ps[0].runes;
      SafeIsCut(s, a, x, y);
      SafeIsCut(s, b, x, y);
      TokensCoverBytes(s, ps[1..], y, a, b);
      SumBound(ps[0].tokens);
      if a <= x && y <= b {
        BytesSplit(s, x, y, b);
      }
    }
  }
}
