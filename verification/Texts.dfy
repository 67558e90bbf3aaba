/** Strings in order. */
module Texts {
  predicate Less(a: string, b: string) {
    b != "" && (a == "" || a[0] < b[0] || (a[0] == b[0] && Less(a[1..], b[1..])))
  }

  lemma {:induction false} LessIsTotal(a: string, b: string)
    ensures (if Less(a, b) then 1 else 0) + (if Less(b, a) then 1 else 0) + (if a == b then 1 else 0) == 1
  {
    if a != "" && b != "" {
      LessIsTotal(a[1..], b[1..]);
      if a[0] == b[0] {
        assert a == [a[0]] + a[1..] && b == [b[0]] + b[1..];
      }
    }
  }

  lemma {:induction false} LessMoves(a: string, b: string, c: string)
    requires Less(a, b) && Less(b, c)
    ensures Less(a, c)
  {
    if a != "" && a[0] == b[0] && b[0] == c[0] {
      LessMoves(a[1..], b[1..], c[1..]);
    }
  }
}
