/**
 The translator's writer: it walks a pattern once and appends to the two spellings as
 it goes. Its result is the lexer's, for every pattern.
 */
module PatternWriter {
  import L = PatternLexer
  import opened PatternLaws
  import opened Wrappers

  class Writer {
    var out: string
    var chk: string

    constructor ()
      ensures out == "" && chk == ""
    {
      out, chk := "", "";
    }

    method Both(s: string)
      modifies this
      ensures out == old(out) + s && chk == old(chk) + s
    {
      out, chk := out + s, chk + s;
    }

    method Split(wire: string, twin: string)
      modifies this
      ensures out == old(out) + wire && chk == old(chk) + twin
    {
      out, chk := out + wire, chk + twin;
    }

    /** Appends a construct the dialect has spelled, or reports that it rejects it. */
    method Put(e: Option<L.Emit>) returns (n: nat, ok: bool)
      modifies this
      ensures ok == e.Some?
      ensures ok ==> n == e.value.n && out == old(out) + e.value.wire && chk == old(chk) + e.value.twin
      ensures !ok ==> out == old(out) && chk == old(chk)
    {
      if e.None? {
        return 0, false;
      }
      Split(e.value.wire, e.value.twin);
      return e.value.n, true;
    }

    method Repeat(s: string) returns (n: nat, ok: bool, q: L.Quant)
      requires L.At(s, 0, '{')
      modifies this
      ensures ok == L.Repeat(s).Some?
      ensures ok ==> var (e, r) := L.Repeat(s).value;
                     n == e.n && q == r && out == old(out) + e.wire && chk == old(chk) + e.twin
    {
      var b := L.RepeatBounds(s);
      if b.None? {
        Both("{");
        return 1, true, L.QNone;
      }
      var lo, hi, comma, m := b.value.lo, b.value.hi, b.value.comma, b.value.n;
      if hi != "" && L.CompareDecimal(lo, hi) > 0 {
        return 0, false, L.QNone;
      }
      var twin := L.ClampRepeat(lo);
      if comma {
        twin := twin + "," + L.ClampRepeat(hi);
      }
      Split(s[..m], "{" + twin + "}");
      return m, true, L.QGreedy;
    }

    method Quantifier(s: string, prev: L.Quant) returns (n: nat, ok: bool, q: L.Quant)
      requires s != "" && L.IsQuantifier(s[0])
      modifies this
      ensures ok == L.Quantifier(s, prev).Some?
      ensures ok ==> var (e, r) := L.Quantifier(s, prev).value;
                     n == e.n && q == r && out == old(out) + e.wire && chk == old(chk) + e.twin
    {
      var c := s[0];
      if prev == L.QPossessive && (c != '{' || L.RepeatBounds(s).Some?) {
        return 0, false, L.QNone;
      }
      if c == '+' && (prev == L.QGreedy || prev == L.QLazy) {
        Split("+", "");
        return 1, true, L.QPossessive;
      } else if c == '?' && prev == L.QGreedy {
        Both("?");
        return 1, true, L.QLazy;
      } else if c == '{' {
        n, ok, q := Repeat(s);
      } else {
        Both([c]);
        return 1, true, L.QGreedy;
      }
    }

    /** Opens a class: the bracket, a '^', and a ']' that is a literal there. */
    method OpenClass(s: string) returns (n: nat)
      requires L.At(s, 0, '[')
      modifies this
      ensures n == L.ClassOpen(s) && out == old(out) + s[..n] && chk == old(chk) + s[..n]
    {
      Both("[");
      n := 1;
      if L.At(s, 1, '^') {
        Both("^");
        n := 2;
      }
      if L.At(s, n, ']') {
        Both("]");
        n := n + 1;
      }
    }

    /** What the lexer would give for the rest of p, behind what is written already. */
    ghost predicate Owes(total: Option<L.Output>, p: string, i: nat, st: L.State)
      requires i <= |p|
      reads this
    {
      total == Whole(out, chk, p, i, st)
    }

    /** One token: a body of the loop in run. */
    method Token(s: string, st: L.State) returns (n: nat, ok: bool, next: L.State)
      requires s != ""
      modifies this
      ensures ok == L.Next(s, st).Some?
      ensures ok ==> var t := L.Next(s, st).value;
                     n == t.emit.n && next == t.next && out == old(out) + t.emit.wire && chk == old(chk) + t.emit.twin
    {
      var c := s[0];
      next := L.State(st.inClass, L.QNone);
      if c == '\\' {
        if |s| < 2 {
          return 0, false, next;
        }
        n, ok := Put(L.Escape(s, st.inClass));
      } else if st.inClass {
        if c == ']' {
          next := L.State(false, L.QNone);
          Both("]");
          n, ok := 1, true;
        } else if c == '[' && L.At(s, 1, ':') {
          var end := L.IndexOfClose(s);
          if end == |s| {
            return 0, false, next;
          }
          Both(s[..end + 2]);
          n, ok := end + 2, true;
        } else {
          n, ok := Put(Some(L.ClassLiteral(s)));
        }
      } else if c == '[' {
        next := L.State(true, L.QNone);
        n := OpenClass(s);
        ok := true;
      } else if c == '(' && L.At(s, 1, '?') {
        n, ok := Put(L.Group(s));
      } else if L.IsQuantifier(c) {
        var q;
        n, ok, q := Quantifier(s, st.prev);
        next := L.State(false, q);
      } else {
        Both(L.Echo(c));
        n, ok := 1, true;
      }
    }

    method Advance(p: string, i: nat, st: L.State, ghost total: Option<L.Output>)
        returns (n: nat, ok: bool, next: L.State)
      requires i < |p| && Owes(total, p, i, st)
      modifies this
      ensures ok == L.Next(p[i..], st).Some?
      ensures ok ==> 0 < n && i + n <= |p| && Owes(total, p, i + n, next)
      ensures !ok ==> total == None
    {
      ghost var o, k := out, chk;
      n, ok, next := Token(p[i..], st);
      if ok {
        OwesRest(total, o, k, p, i, st, out, chk, n, next);
      } else {
        RunStep(p[i..], st);
      }
    }

    method Run(p: string) returns (ok: bool)
      modifies this
      ensures ok == L.Run(p, L.START).Some?
      ensures ok ==> var o := L.Run(p, L.START).value; out == old(out) + o.wire && chk == old(chk) + o.twin
    {
      ghost var total := L.Prepend(L.Emit(0, out, chk), L.Run(p, L.START));
      var st := L.START;
      var i: nat := 0;
      assert p[0..] == p;
      while i < |p|
        invariant 0 <= i <= |p| && Owes(total, p, i, st)
      {
        var n, good, next := Advance(p, i, st, total);
        if !good {
          return false;
        }
        st, i := next, i + n;
      }
      assert p[i..] == "";
      return !st.inClass;
    }
  }

  /** What is written already and what the lexer gives for the rest of p. */
  function Whole(out: string, chk: string, p: string, i: nat, st: L.State): Option<L.Output>
    requires i <= |p|
  {
    L.Prepend(L.Emit(0, out, chk), L.Run(p[i..], st))
  }

  /** From o and k written before position i to out and chk written n bytes on. */
  lemma OwesRest(total: Option<L.Output>, o: string, k: string, p: string, i: nat, st: L.State,
                 out: string, chk: string, n: nat, next: L.State)
    requires i < |p| && L.Next(p[i..], st).Some?
    requires total == Whole(o, k, p, i, st)
    requires var t := L.Next(p[i..], st).value;
            out == o + t.emit.wire && chk == k + t.emit.twin && n == t.emit.n && next == t.next
    ensures i + n <= |p| && total == Whole(out, chk, p, i + n, next)
  {
    OwesOn(total, o, k, p[i..], st);
    assert p[i..][n..] == p[i + n..];
  }

  lemma OwesOn(total: Option<L.Output>, out: string, chk: string, rest: string, st: L.State)
    requires rest != "" && L.Next(rest, st).Some?
    requires total == L.Prepend(L.Emit(0, out, chk), L.Run(rest, st))
    ensures var t := L.Next(rest, st).value;
            total == L.Prepend(L.Emit(0, out + t.emit.wire, chk + t.emit.twin), L.Run(rest[t.emit.n..], t.next))
  {
    var t := L.Next(rest, st).value;
    RunStep(rest, st);
    PrependTwice(L.Emit(0, out, chk), t.emit, 0, L.Run(rest[t.emit.n..], t.next));
  }

  lemma RunStep(rest: string, st: L.State)
    requires rest != ""
    ensures L.Run(rest, st) ==
            match L.Next(rest, st)
            case None => None
            case Some(t) => L.Prepend(t.emit, L.Run(rest[t.emit.n..], t.next))
  {
  }

  /** translate, with Go's parser as the predicate accepts. */
  method Translate(p: string, accepts: string -> bool) returns (out: string, ok: bool)
    ensures L.Translate(p, accepts) == if ok then Some(out) else None
  {
    var w := new Writer();
    ok := w.Run(p);
    assert ok ==> w.out == L.Run(p, L.START).value.wire && w.chk == L.Run(p, L.START).value.twin;
    if !ok || !accepts(w.chk) {
      return "", false;
    }
    return w.out, true;
  }
}
