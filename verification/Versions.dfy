/** Dotted version strings, compared segment by segment. */
module Versions {
  import opened Wrappers
  import opened Decimals
  import opened Texts

  const MaxInt64 := 0x7FFF_FFFF_FFFF_FFFF

  // ---- versions ----

  function Split(s: string): (r: seq<string>)
    ensures r != []
  {
    if s == "" then [""]
    else
      var rest := Split(s[1..]);
      if s[0] == '.' then [""] + rest else [[s[0]] + rest[0]] + rest[1..]
  }

  /** A decimal number with an optional sign that fits 64 bits. */
  function Atoi(s: string): Option<int> {
    var signed := s != "" && (s[0] == '-' || s[0] == '+');
    var digits := if signed then s[1..] else s;
    if !IsNumber(digits) then None
    else
      var v: int := if signed && s[0] == '-' then 0 - Decimal(digits) else Decimal(digits);
      if -MaxInt64 - 1 <= v <= MaxInt64 then Some(v) else None
  }

  function Order(a: int, b: int): int { if a < b then -1 else if a > b then 1 else 0 }

  /** Numbers by value, anything else as text. */
  function CompareSegments(a: string, b: string): int {
    match (Atoi(a), Atoi(b))
    case (Some(m), Some(n)) => Order(m, n)
    case _ => if Less(a, b) then -1 else if Less(b, a) then 1 else 0
  }

  function Segment(s: seq<string>, i: nat): string { if i < |s| then s[i] else "" }

  function Longer(a: seq<string>, b: seq<string>): nat { if |a| < |b| then |b| else |a| }

  /** The first segment from i on that differs decides. */
  function CompareFrom(a: seq<string>, b: seq<string>, i: nat): int
    decreases Longer(a, b) - i
  {
    if i >= Longer(a, b) then 0
    else
      var c := CompareSegments(Segment(a, i), Segment(b, i));
      if c != 0 then c else CompareFrom(a, b, i + 1)
  }

  function Compare(a: string, b: string): int { CompareFrom(Split(a), Split(b), 0) }

  method VersionCmp(a: string, b: string) returns (c: int)
    ensures c == Compare(a, b)
  {
    var as0, bs := Split(a), Split(b);
    var i := 0;
    while i < |as0| || i < |bs|
      invariant CompareFrom(as0, bs, 0) == CompareFrom(as0, bs, i)
      decreases Longer(as0, bs) - i
    {
      var av, bv := "", "";
      if i < |as0| {
        av := as0[i];
      }
      if i < |bs| {
        bv := bs[i];
      }
      var an, bn := Atoi(av), Atoi(bv);
      if an.Some? && bn.Some? {
        if an.value < bn.value {
          return -1;
        } else if an.value > bn.value {
          return 1;
        }
        i := i + 1;
        continue;
      }
      if Less(av, bv) {
        return -1;
      } else if Less(bv, av) {
        return 1;
      }
      i := i + 1;
    }
    return 0;
  }

  // ---- its laws ----

  lemma SegmentsOppose(a: string, b: string)
    ensures CompareSegments(a, b) == -CompareSegments(b, a)
    ensures CompareSegments(a, a) == 0
  {
    LessIsTotal(a, b);
    LessIsTotal(a, a);
  }

  lemma {:induction false} OpposeFrom(a: seq<string>, b: seq<string>, i: nat)
    ensures CompareFrom(a, b, i) == -CompareFrom(b, a, i)
    ensures CompareFrom(a, a, i) == 0
    decreases Longer(a, b) + |a| - i
  {
    SegmentsOppose(Segment(a, i), Segment(b, i));
    if i < Longer(a, b) {
      OpposeFrom(a, b, i + 1);
    }
  }

  /** Swapping the versions swaps the answer, and a version equals itself: on all strings. */
  lemma Opposes(a: string, b: string)
    ensures Compare(a, b) == -Compare(b, a) && Compare(a, a) == 0
  {
    OpposeFrom(Split(a), Split(b), 0);
  }

  /** Every segment is a number that fits an int. */
  predicate Numeric(v: string) { forall i: nat :: i < |Split(v)| ==> Atoi(Split(v)[i]).Some? }

  predicate NumericOrMissing(s: string) { s == "" || Atoi(s).Some? }

  lemma SegmentsMove(a: string, b: string, c: string)
    requires NumericOrMissing(a) && NumericOrMissing(b) && NumericOrMissing(c)
    requires CompareSegments(a, b) <= 0 && CompareSegments(b, c) <= 0
    ensures CompareSegments(a, c) <= 0
    ensures CompareSegments(a, c) == 0 ==> CompareSegments(a, b) == 0 && CompareSegments(b, c) == 0
  {
    assert Atoi("") == None;
  }

  lemma CompareOne(a: seq<string>, b: seq<string>, i: nat)
    ensures CompareFrom(a, b, i) ==
            var c := CompareSegments(Segment(a, i), Segment(b, i)); if c != 0 then c else CompareFrom(a, b, i + 1)
  {
    if i >= Longer(a, b) {
      LessIsTotal("", "");
    }
  }

  lemma {:induction false} MovesFrom(a: seq<string>, b: seq<string>, c: seq<string>, i: nat)
    requires forall s :: s in a || s in b || s in c ==> Atoi(s).Some?
    requires CompareFrom(a, b, i) <= 0 && CompareFrom(b, c, i) <= 0
    ensures CompareFrom(a, c, i) <= 0
    ensures CompareFrom(a, c, i) == 0 ==> CompareFrom(a, b, i) == 0 && CompareFrom(b, c, i) == 0
    decreases |a| + |b| + |c| - i
  {
    if i < |a| + |b| + |c| {
      CompareOne(a, b, i);
      CompareOne(b, c, i);
      CompareOne(a, c, i);
      SegmentsMove(Segment(a, i), Segment(b, i), Segment(c, i));
      if CompareSegments(Segment(a, i), Segment(b, i)) == 0 && CompareSegments(Segment(b, i), Segment(c, i)) == 0 {
        SegmentsOppose(Segment(a, i), Segment(b, i));
        SegmentsOppose(Segment(b, i), Segment(c, i));
        SegmentsOppose(Segment(a, i), Segment(c, i));
        SegmentsMove(Segment(c, i), Segment(b, i), Segment(a, i));
        MovesFrom(a, b, c, i + 1);
      }
    }
  }

  /** On numeric versions the order is a total preorder. */
  lemma Moves(a: string, b: string, c: string)
    requires Numeric(a) && Numeric(b) && Numeric(c)
    requires Compare(a, b) <= 0 && Compare(b, c) <= 0
    ensures Compare(a, c) <= 0
    ensures Compare(a, c) == 0 ==> Compare(a, b) == 0 && Compare(b, c) == 0
  {
    MovesFrom(Split(a), Split(b), Split(c), 0);
  }

  // ---- numbers too large for an int ----

  predicate Fits(s: string) { IsNumber(s) && Decimal(s) <= MaxInt64 }

  /** a before b before h before a. */
  predicate Circle(a: string, b: string, h: string) {
    Fits(a) && Fits(b) && Compare(a, b) < 0 && Compare(b, h) < 0 && Compare(h, a) < 0
  }

  /** A number too large for an int is compared as text, and the order goes round in a
      circle with two numbers that fit if and only if one of its first 18 digits is not a
      nine. */
  lemma CircleIff(h: string)
    requires IsNumber(h) && Decimal(h) > MaxInt64
    ensures (exists a, b :: Circle(a, b, h)) <==> exists i: nat :: i < 18 && i < |h| && h[i] != '9'
  {
    LongEnough(h);
    if i: nat :| i < 18 && i < |h| && h[i] != '9' {
      var a, b := GoesRound(h, i);
    } else {
      forall a, b ensures !Circle(a, b, h) {
        if Fits(a) {
          NinesGoLast(h, a);
        }
      }
    }
  }

  /** An input: nine, ten, and any number of twenty digits that starts with ten. */
  lemma TooLargeGoesRound(h: string)
    requires IsNumber(h) && |h| == 20 && h[..2] == "10"
    ensures Circle("9", "10", h)
  {
    assert h[0] == h[..2][0] == '1';
    TenToTheNineteenth(h);
    NineAndTen();
    ByValue("9", "10");
    AgainstText("9", h);
    AgainstText("10", h);
    LessPrefix("10", h);
    LessAt(h, "9", 0);
  }

  lemma TenToTheNineteenth(h: string)
    requires IsDigits(h) && |h| == 20 && h[0] == '1'
    ensures IsNumber(h) && Decimal(h) > MaxInt64
  {
    DecimalBound(h);
    Powers();
  }

  lemma NineAndTen()
    ensures Fits("9") && Fits("10") && Decimal("9") == 9 && Decimal("10") == 10
  {
    assert "9"[1..] == "" && "10"[1..] == "0" && "0"[1..] == "";
    assert Pow10(1) == 10;
  }

  lemma NumberIs(s: string)
    requires IsNumber(s)
    ensures Atoi(s) == if Decimal(s) <= MaxInt64 then Some(Decimal(s)) else None
  {
    assert IsDigit(s[0]);
  }

  lemma LongEnough(h: string)
    requires IsDigits(h) && Decimal(h) > MaxInt64
    ensures 19 <= |h|
  {
    DecimalBound(h);
    Powers();
    if |h| < 19 {
      PowPositive(|h|, 18);
    }
  }

  /** How a number that does not fit stands to one that does. */
  lemma AgainstText(s: string, h: string)
    requires Fits(s) && IsNumber(h) && Decimal(h) > MaxInt64
    ensures Compare(s, h) < 0 <==> Less(s, h)
    ensures Compare(h, s) < 0 <==> Less(h, s)
  {
    NumberIs(s);
    NumberIs(h);
    Whole(s, h);
    Whole(h, s);
    LessIsTotal(s, h);
  }

  lemma ByValue(a: string, b: string)
    requires Fits(a) && Fits(b)
    ensures Compare(a, b) < 0 <==> Decimal(a) < Decimal(b)
  {
    NumberIs(a);
    NumberIs(b);
    Whole(a, b);
  }

  /** Nothing that fits sorts after a number too large that opens with 18 nines. */
  lemma NinesGoLast(h: string, a: string)
    requires IsNumber(h) && Decimal(h) > MaxInt64 && 19 <= |h| && forall i :: 0 <= i < 18 ==> h[i] == '9'
    requires Fits(a)
    ensures Compare(h, a) >= 0
  {
    AgainstText(a, h);
    if Less(h, a) {
      AboveNines(h, a, 18);
      NinesValue(a[..19], 18);
      DecimalPrefix(a, 19);
      Powers();
    }
  }

  lemma {:induction false} AboveNines(h: string, a: string, k: nat)
    requires IsDigits(a) && k < |h| && Less(h, a) && forall i :: 0 <= i < k ==> h[i] == '9'
    ensures k < |a| && forall i :: 0 <= i < k ==> a[i] == '9'
  {
    if 0 < k {
      assert IsDigit(a[0]);
      AboveNines(h[1..], a[1..], k - 1);
      forall i | 0 <= i < k ensures a[i] == '9' {
        assert 0 < i ==> a[i] == a[1..][i - 1];
      }
    }
  }

  lemma {:induction false} LessAt(a: string, b: string, i: nat)
    requires i < |a| && i < |b| && a[..i] == b[..i] && a[i] < b[i]
    ensures Less(a, b)
  {
    if 0 < i {
      assert a[0] == a[..i][0] == b[..i][0] == b[0];
      assert a[1..][..i - 1] == a[..i][1..] && b[1..][..i - 1] == b[..i][1..];
      LessAt(a[1..], b[1..], i - 1);
    }
  }

  lemma {:induction false} LessPrefix(a: string, b: string)
    requires |a| < |b| && a == b[..|a|]
    ensures Less(a, b)
  {
    if a != "" {
      assert a[0] == b[0] && a[1..] == b[1..][..|a| - 1];
      LessPrefix(a[1..], b[1..]);
    }
  }

  /** The two numbers: h cut off before digit i and closed with a nine, and a number above
      it that sorts before h. */
  lemma GoesRound(h: string, i: nat) returns (a: string, b: string)
    requires IsNumber(h) && Decimal(h) > MaxInt64 && 19 <= |h| && i < 18 && h[i] != '9'
    ensures Circle(a, b, h)
  {
    if h[0] == '0' {
      a := "9";
      NineAndTen();
      LessAt(h, a, 0);
      b := LongestFit(h);
      LessPrefix(b, h);
    } else {
      a := h[..i] + "9";
      LessAt(h, a, i);
      b := OneAbove(a);
      LessAt(b, h, 0);
    }
    ByValue(a, b);
    AgainstText(a, h);
    AgainstText(b, h);
  }

  lemma OneBefore(a: string)
    requires IsDigits(a)
    ensures IsDigits("1" + a) && Decimal("1" + a) == Pow10(|a|) + Decimal(a)
  {
    var one := "1" + a;
    assert one[1..] == a && one[0] == '1' && |one| == |a| + 1;
    assert DigitValue('1') * Pow10(|a|) == Pow10(|a|);
  }

  /** A zero and a one before a short number make a larger one that sorts low. */
  lemma OneAbove(a: string) returns (b: string)
    requires IsNumber(a) && |a| <= 18
    ensures Fits(a) && Fits(b) && b[0] == '0' && Decimal(a) < Decimal(b)
  {
    var one := "1" + a;
    b := "0" + one;
    OneBefore(a);
    assert b[1..] == one;
    LeadingZero(b);
    DecimalBound(a);
    Powers();
    PowPositive(|a|, 18);
  }

  /** The longest prefix that fits is all but a tenth of what does. */
  lemma {:induction false} LongestFit(h: string) returns (b: string)
    requires IsDigits(h) && Decimal(h) > MaxInt64
    ensures |b| < |h| && b == h[..|b|] && Fits(b) && 9 < Decimal(b)
  {
    var init := h[..|h| - 1];
    assert h == init + [h[|h| - 1]];
    DecimalMore(init, h[|h| - 1]);
    if Decimal(init) > MaxInt64 {
      b := LongestFit(init);
      assert b == h[..|b|];
    } else {
      b := init;
    }
  }

  lemma Whole(a: string, b: string)
    requires IsNumber(a) && IsNumber(b)
    ensures Compare(a, b) == CompareSegments(a, b)
  {
    SplitWhole(a);
    SplitWhole(b);
    CompareOne([a], [b], 0);
  }

  lemma {:induction false} SplitWhole(s: string)
    requires forall i :: 0 <= i < |s| ==> s[i] != '.'
    ensures Split(s) == [s]
  {
    if s != "" {
      SplitWhole(s[1..]);
      assert [s[0]] + s[1..] == s;
    }
  }

  // ---- what the comparison means ----

  /** The segments with dots between them. */
  function Joined(segments: seq<string>): string
    requires segments != []
  {
    if |segments| == 1 then segments[0] else segments[0] + "." + Joined(segments[1..])
  }

  /** Splitting takes the version apart at its dots, and nowhere else. */
  lemma {:induction false} SplitIs(v: string)
    ensures Joined(Split(v)) == v && forall i: nat :: i < |Split(v)| ==> '.' !in Split(v)[i]
  {
    if v != "" {
      SplitIs(v[1..]);
      var rest := Split(v[1..]);
      assert v == [v[0]] + v[1..];
      if v[0] == '.' {
        assert ([""] + rest)[1..] == rest;
      } else {
        var all := [[v[0]] + rest[0]] + rest[1..];
        assert all[1..] == rest[1..];
        JoinedMore(v[0], rest, all);
      }
    }
  }

  lemma JoinedMore(c: char, rest: seq<string>, all: seq<string>)
    requires rest != [] && |all| == |rest| && all[0] == [c] + rest[0] && all[1..] == rest[1..]
    ensures Joined(all) == [c] + Joined(rest)
  {
    if |rest| > 1 {
      var tail := "." + Joined(rest[1..]);
      assert ([c] + rest[0]) + tail == [c] + (rest[0] + tail);
    }
  }

  /** Every segment is a plain number that fits an int. */
  predicate AllFit(v: string) { forall i: nat :: i < |Split(v)| ==> Fits(Split(v)[i]) }

  function Values(v: string): seq<nat>
    requires AllFit(v)
  {
    seq(|Split(v)|, i requires 0 <= i < |Split(v)| => Decimal(Split(v)[i]))
  }

  predicate Agree(a: seq<nat>, b: seq<nat>, i: nat) {
    i <= |a| && i <= |b| && forall j: nat :: j < i ==> a[j] == b[j]
  }

  /** At the first place where the numbers differ a has the smaller one, or none any more. */
  ghost predicate Precedes(a: seq<nat>, b: seq<nat>) { exists i: nat :: Agree(a, b, i) && SmallerAt(a, b, i) }

  predicate SmallerAt(a: seq<nat>, b: seq<nat>, i: nat) {
    i < |b| && i <= |a| && (i == |a| || a[i] < b[i])
  }

  lemma {:induction false} LexFrom(a: string, b: string, va: seq<nat>, vb: seq<nat>, i: nat)
    requires AllFit(a) && AllFit(b) && va == Values(a) && vb == Values(b) && Agree(va, vb, i)
    ensures CompareFrom(Split(a), Split(b), i) < 0 <==> Precedes(va, vb)
    ensures CompareFrom(Split(a), Split(b), i) == 0 <==> va == vb
    decreases |va| - i
  {
    OneStep(Split(a), Split(b), va, vb, i);
    if i < |va| && i < |vb| && va[i] == vb[i] {
      LexFrom(a, b, va, vb, i + 1);
    } else {
      Decides(va, vb, i);
    }
  }

  lemma OneStep(a: seq<string>, b: seq<string>, va: seq<nat>, vb: seq<nat>, i: nat)
    requires |va| == |a| && |vb| == |b| && i <= |a| && i <= |b|
    requires forall j: nat :: j < |a| ==> Fits(a[j]) && va[j] == Decimal(a[j])
    requires forall j: nat :: j < |b| ==> Fits(b[j]) && vb[j] == Decimal(b[j])
    ensures CompareFrom(a, b, i) ==
            if i == |a| && i == |b| then 0
            else if i == |a| then -1
            else if i == |b| then 1
            else if va[i] == vb[i] then CompareFrom(a, b, i + 1)
            else Order(va[i], vb[i])
  {
    if i < |a| {
      NumberIs(a[i]);
    }
    if i < |b| {
      NumberIs(b[i]);
    }
    assert Atoi("") == None;
  }

  /** The first difference decides, and so does an end. */
  lemma Decides(a: seq<nat>, b: seq<nat>, i: nat)
    requires Agree(a, b, i) && (i < |a| && i < |b| ==> a[i] != b[i])
    ensures Precedes(a, b) <==> SmallerAt(a, b, i)
    ensures a == b <==> i == |a| && i == |b|
  {
    if j: nat :| Agree(a, b, j) && SmallerAt(a, b, j) {
      assert j == i;
    }
  }

  /** A version comes before another exactly when its numbers do, segment by segment; leading
      zeros do not matter, and a version comes before its own continuations. */
  lemma ComparesNumbers(a: string, b: string)
    requires AllFit(a) && AllFit(b)
    ensures Compare(a, b) == if Precedes(Values(a), Values(b)) then -1 else if Values(a) == Values(b) then 0 else 1
  {
    LexFrom(a, b, Values(a), Values(b), 0);
    OneOfThree(Split(a), Split(b), 0);
  }

  lemma {:induction false} OneOfThree(a: seq<string>, b: seq<string>, i: nat)
    ensures -1 <= CompareFrom(a, b, i) <= 1
    decreases Longer(a, b) - i
  {
    if i < Longer(a, b) {
      OneOfThree(a, b, i + 1);
    }
  }
}
