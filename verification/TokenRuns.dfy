/**
 Runs of one rune class in a text, and the two scans that find them: forward
 from a run's start (RunEnd) and backward from its end (PrevRun).

 A text is a sequence of decoded runes, and a position is a rune index. What the
 program asks about a rune is its class, its width in bytes, and whether it is
 the ASCII apostrophe. An invalid byte is a one-byte rune of class Other.
 */
module TokenRuns {

  datatype Class = NoClass | Letter | Digit | Other | Mark

  datatype RawRune = Rune(kind: Class, width: nat, apostrophe: bool)

  type Rune = r: RawRune |
    r.kind != NoClass && 1 <= r.width <= 4 && (r.apostrophe ==> r.kind == Other && r.width == 1)
    witness Rune(Other, 1, true)

  type Text = seq<Rune>

  /** Class of the nearest rune of s[lo..k] that is not a mark. */
  ghost function Before(s: Text, lo: nat, k: nat): Class
    requires lo <= k <= |s|
    decreases k
  {
    if k == lo then NoClass
    else if s[k - 1].kind != Mark then s[k - 1].kind
    else Before(s, lo, k - 1)
  }

  /** Class of the first rune of s[k..] that is not a mark. */
  ghost function After(s: Text, k: nat): Class
    requires k <= |s|
    decreases |s| - k
  {
    if k == |s| then NoClass
    else if s[k].kind != Mark then s[k].kind
    else After(s, k + 1)
  }

  /** The class of the run that rune k belongs to, for a scan that starts at lo:
      a mark extends a letter or symbol run, and after a digit or at the start it
      opens the run that follows, which is a symbol run unless letters follow. */
  ghost function ClassAt(s: Text, lo: nat, k: nat): Class
    requires lo <= k < |s|
  {
    if s[k].kind != Mark then s[k].kind
    else if Before(s, lo, k) == Letter || Before(s, lo, k) == Other then Before(s, lo, k)
    else if After(s, k) == Letter then Letter
    else Other
  }

  /** Position p separates two runs of s (or is one of its ends). */
  ghost predicate Boundary(s: Text, p: nat)
    requires p <= |s|
  {
    p == 0 || p == |s| || ClassAt(s, 0, p - 1) != ClassAt(s, 0, p)
  }

  /** All of s[a..b] is of class c, for a scan that starts at lo. */
  ghost predicate Uniform(s: Text, lo: nat, a: nat, b: nat, c: Class)
    requires lo <= a <= b <= |s|
  {
    forall k :: a <= k < b ==> ClassAt(s, lo, k) == c
  }

  /** s[a..b] is one whole run of s, of class c. */
  ghost predicate IsRun(s: Text, a: nat, b: nat, c: Class) {
    a < b <= |s| && Boundary(s, a) && Boundary(s, b) && Uniform(s, 0, a, b, c)
  }

  /** Where the run of constant class through k ends. */
  ghost function RunStop(s: Text, lo: nat, k: nat): (e: nat)
    requires lo <= k < |s|
    ensures k < e <= |s| && Uniform(s, lo, k, e, ClassAt(s, lo, k))
    ensures e < |s| ==> ClassAt(s, lo, e) != ClassAt(s, lo, k)
    decreases |s| - k
  {
    if k + 1 < |s| && ClassAt(s, lo, k + 1) == ClassAt(s, lo, k) then RunStop(s, lo, k + 1) else k + 1
  }

  /** Where the run of constant class that ends at e starts. */
  ghost function RunStart(s: Text, e: nat): (a: nat)
    requires 0 < e <= |s|
    ensures a < e && Uniform(s, 0, a, e, ClassAt(s, 0, e - 1))
    ensures 0 < a ==> ClassAt(s, 0, a - 1) != ClassAt(s, 0, e - 1)
  {
    if 1 < e && ClassAt(s, 0, e - 2) == ClassAt(s, 0, e - 1) then RunStart(s, e - 1) else e - 1
  }

  // ---- marks ----

  lemma {:induction false} BeforeMarks(s: Text, lo: nat, m: nat, k: nat)
    requires lo <= m <= k <= |s|
    requires forall j :: m <= j < k ==> s[j].kind == Mark
    ensures Before(s, lo, k) == Before(s, lo, m)
    decreases k
  {
    if m < k {
      BeforeMarks(s, lo, m, k - 1);
    }
  }

  lemma {:induction false} AfterMarks(s: Text, k: nat, m: nat)
    requires k <= m <= |s|
    requires forall j :: k <= j < m ==> s[j].kind == Mark
    ensures After(s, k) == After(s, m)
    decreases m - k
  {
    if k < m {
      AfterMarks(s, k + 1, m);
    }
  }

  /** A mark is in the run of the rune before it, unless that is a digit. */
  lemma MarkJoins(s: Text, p: nat)
    requires 0 < p < |s| && s[p].kind == Mark && s[p - 1].kind != Digit
    ensures ClassAt(s, 0, p) == ClassAt(s, 0, p - 1)
  {
    if s[p - 1].kind == Mark {
      assert After(s, p - 1) == After(s, p);
    }
  }

  /** Restarting the scan at a run boundary classifies the rest the same way. */
  lemma {:induction false} RestartAt(s: Text, i: nat, k: nat)
    requires i <= k < |s| && Boundary(s, i)
    ensures ClassAt(s, i, k) == ClassAt(s, 0, k)
  {
    if s[k].kind == Mark {
      BeforeFrom(s, 0, i, k);
      if Before(s, i, k) == NoClass && 0 < i {
        MarksFrom(s, i, k);
        if s[i - 1].kind != Digit {
          MarkJoins(s, i);
          assert false;
        }
      }
    }
  }

  lemma {:induction false} BeforeFrom(s: Text, lo: nat, i: nat, k: nat)
    requires lo <= i <= k <= |s|
    ensures Before(s, lo, k) == if Before(s, i, k) == NoClass then Before(s, lo, i) else Before(s, i, k)
    decreases k
  {
    if i < k && s[k - 1].kind == Mark {
      BeforeFrom(s, lo, i, k - 1);
    }
  }

  lemma {:induction false} MarksFrom(s: Text, i: nat, k: nat)
    requires i <= k < |s| && s[k].kind == Mark && Before(s, i, k) == NoClass
    ensures s[i].kind == Mark
    decreases k
  {
    if i < k {
      MarksFrom(s, i, k - 1);
    }
  }

  // ---- the partition ----

  /** The mirror law: from any run boundary, the backward scan from the end of the
      run that starts there comes back to it. */
  lemma Mirror(s: Text, i: nat)
    requires i < |s| && Boundary(s, i)
    ensures var e := RunStop(s, 0, i);
            IsRun(s, i, e, ClassAt(s, 0, i)) && ClassAt(s, 0, e - 1) == ClassAt(s, 0, i) && RunStart(s, e) == i
  {
    var e := RunStop(s, 0, i);
    var a := RunStart(s, e);
    assert ClassAt(s, 0, e - 1) == ClassAt(s, 0, i);
  }

  /** From a boundary the forward scan, which knows nothing of what came before,
      still finds the run of the whole text. */
  lemma ScanFromBoundary(s: Text, i: nat)
    requires i < |s| && Boundary(s, i)
    ensures ClassAt(s, i, i) == ClassAt(s, 0, i) && RunStop(s, i, i) == RunStop(s, 0, i)
  {
    forall k | i <= k < |s| ensures ClassAt(s, i, k) == ClassAt(s, 0, k) {
      RestartAt(s, i, k);
    }
    var e, f := RunStop(s, i, i), RunStop(s, 0, i);
  }

  // ---- the scans ----

  /** The forward scan from position i, which need not be a run boundary of s. */
  method RunEnd(s: Text, i: nat) returns (class_: Class, end: nat)
    requires i <= |s|
    ensures i == |s| ==> class_ == Other && end == i
    ensures i < |s| ==> class_ == ClassAt(s, i, i) && end == RunStop(s, i, i)
  {
    class_, end := NoClass, i;
    while end < |s|
      invariant i <= end <= |s|
      invariant class_ == NoClass || class_ == Letter || class_ == Digit || class_ == Other
      invariant class_ == NoClass ==> forall k :: i <= k < end ==> s[k].kind == Mark
      invariant class_ != NoClass ==> i < end && Uniform(s, i, i, end, class_) && Before(s, i, end) == class_
    {
      var c := s[end].kind;
      if c == Mark {
        c := if class_ != Digit then class_ else Other;
      }
      if (c != class_ && class_ != NoClass) || (c == Digit && end > i && class_ == NoClass) {
        break;
      }
      if class_ == NoClass && c != NoClass {
        ScanOpens(s, i, end);
      }
      class_ := c;
      end := end + 1;
    }
    if class_ == NoClass {
      class_ := Other;
      if i < end {
        ScanOpens(s, i, end);
      }
    }
    if i < |s| {
      StopIs(s, i, end, class_);
    }
  }

  /** Leading marks take the class of the run they open. */
  lemma ScanOpens(s: Text, i: nat, m: nat)
    requires i <= m <= |s|
    requires forall j :: i <= j < m ==> s[j].kind == Mark
    requires m < |s| ==> s[m].kind != Mark
    ensures Before(s, i, m) == NoClass
    ensures m < |s| && s[m].kind != Digit ==> Uniform(s, i, i, m + 1, s[m].kind)
    ensures m == |s| || s[m].kind == Digit ==> Uniform(s, i, i, m, Other)
  {
    BeforeMarks(s, i, i, m);
    forall k | i <= k < m
      ensures ClassAt(s, i, k) == if m < |s| && s[m].kind == Letter then Letter else Other
    {
      BeforeMarks(s, i, i, k);
      AfterMarks(s, k, m);
    }
  }

  lemma StopIs(s: Text, i: nat, end: nat, c: Class)
    requires i < end <= |s| && Uniform(s, i, i, end, c)
    requires end < |s| ==> ClassAt(s, i, end) != c
    ensures c == ClassAt(s, i, i) && end == RunStop(s, i, i)
  {
    var e := RunStop(s, i, i);
    assert ClassAt(s, i, i) == c;
  }

  /** The first of the run of marks that ends at position end. */
  method MarksBefore(s: Text, end: nat) returns (p: nat)
    requires end <= |s|
    ensures p <= end && forall j :: p <= j < end ==> s[j].kind == Mark
    ensures 0 < p ==> s[p - 1].kind != Mark
  {
    p := end;
    while p > 0 && s[p - 1].kind == Mark
      invariant p <= end && forall j :: p <= j < end ==> s[j].kind == Mark
    {
      p := p - 1;
    }
  }

  /** The backward scan: the class and the start of the run that ends at the run
      boundary end. */
  method PrevRun(s: Text, end: nat) returns (class_: Class, start: nat)
    requires 0 < end <= |s| && Boundary(s, end)
    ensures class_ == ClassAt(s, 0, end - 1) && start == RunStart(s, end)
  {
    start := end;
    var c := s[start - 1].kind;
    if c == Mark {
      var p := MarksBefore(s, start);
      TrailingMarks(s, p, end);
      if p == 0 {
        StartIs(s, 0, end, Other);
        return Other, 0;
      }
      var pc := s[p - 1].kind;
      if pc == Digit {
        StartIs(s, p, end, Other);
        return Other, p;
      }
      start, c := p, pc;
    }
    class_ := c;
    start := start - 1;
    if class_ == Digit {
      while start > 0 && s[start - 1].kind == Digit
        invariant start < end && Uniform(s, 0, start, end, Digit)
      {
        start := start - 1;
      }
      StartIs(s, start, end, Digit);
      return;
    }
    while start > 0
      invariant start < end && Uniform(s, 0, start, end, class_)
      invariant s[start].kind == class_ && (class_ == Letter || class_ == Other)
    {
      c := s[start - 1].kind;
      if c == class_ {
        start := start - 1;
        continue;
      }
      if c != Mark {
        break;
      }
      var p := MarksBefore(s, start);
      InnerMarks(s, p, start);
      if p == 0 {
        StartIs(s, 0, end, class_);
        return class_, 0;
      }
      var pc := s[p - 1].kind;
      if pc == class_ {
        start := p - 1;
      } else if pc == Digit {
        StartIs(s, p, end, class_);
        return class_, p;
      } else {
        StartIs(s, start, end, class_);
        return class_, start;
      }
    }
    StartIs(s, start, end, class_);
  }

  lemma StartIs(s: Text, a: nat, end: nat, c: Class)
    requires a < end <= |s| && Uniform(s, 0, a, end, c)
    requires 0 < a ==> ClassAt(s, 0, a - 1) != c
    ensures ClassAt(s, 0, end - 1) == c && RunStart(s, end) == a
  {
    var b := RunStart(s, end);
  }

  /** Marks that end a run are in the run of the rune before them; after a digit,
      or with nothing before them, they are a symbol run of their own. */
  lemma TrailingMarks(s: Text, p: nat, end: nat)
    requires p < end <= |s| && Boundary(s, end)
    requires forall j :: p <= j < end ==> s[j].kind == Mark
    requires 0 < p ==> s[p - 1].kind != Mark
    ensures p == 0 || s[p - 1].kind == Digit ==> Uniform(s, 0, p, end, Other)
    ensures 0 < p && s[p - 1].kind != Digit ==> Uniform(s, 0, p - 1, end, s[p - 1].kind)
  {
    forall k | p <= k < end
      ensures Before(s, 0, k) == (if p == 0 then NoClass else s[p - 1].kind) && After(s, k) == After(s, end)
    {
      BeforeMarks(s, 0, p, k);
      AfterMarks(s, k, end);
    }
    if end < |s| && s[end].kind == Mark {
      MarkJoins(s, end);
    }
  }

  /** Marks before a rune of a run belong to that run when a rune of its class, a
      digit or nothing precedes them, and to the run before otherwise. */
  lemma InnerMarks(s: Text, p: nat, m: nat)
    requires p < m < |s| && (s[m].kind == Letter || s[m].kind == Other)
    requires forall j :: p <= j < m ==> s[j].kind == Mark
    requires 0 < p ==> s[p - 1].kind != Mark
    ensures p == 0 || s[p - 1].kind == Digit || s[p - 1].kind == s[m].kind ==> Uniform(s, 0, p, m, s[m].kind)
    ensures 0 < p && s[p - 1].kind != Digit ==> Uniform(s, 0, p, m, s[p - 1].kind)
  {
    forall k | p <= k < m
      ensures Before(s, 0, k) == (if p == 0 then NoClass else s[p - 1].kind) && After(s, k) == s[m].kind
    {
      BeforeMarks(s, 0, p, k);
      AfterMarks(s, k, m);
    }
  }
}
