/** White space as the source trims it. */
module Spaces {
  predicate IsSpace(c: char) {
    || '\t' <= c <= '\r' || c == ' ' || c == '\U{85}' || c == '\U{A0}' || c == '\U{1680}'
    || '\U{2000}' <= c <= '\U{200A}' || c == '\U{2028}' || c == '\U{2029}' || c == '\U{202F}'
    || c == '\U{205F}' || c == '\U{3000}'
  }

  function Trim(raw: string): string {
    if raw == "" then raw
    else if IsSpace(raw[0]) then Trim(raw[1..])
    else if IsSpace(raw[|raw| - 1]) then Trim(raw[..|raw| - 1])
    else raw
  }

  /** The middle of raw that Trim leaves. */
  ghost predicate Middle(raw: string, i: nat, j: nat) {
    && i <= j <= |raw|
    && (forall k: nat :: k < i || j <= k < |raw| ==> IsSpace(raw[k]))
    && (i < j ==> !IsSpace(raw[i]) && !IsSpace(raw[j - 1]))
  }

  /** Only white space goes, and all of it from both ends. */
  lemma {:induction false} TrimIs(raw: string)
    ensures exists i: nat, j: nat :: Middle(raw, i, j) && Trim(raw) == raw[i..j]
  {
    if raw == "" || (!IsSpace(raw[0]) && !IsSpace(raw[|raw| - 1])) {
      assert Middle(raw, 0, |raw|) && raw[0..|raw|] == raw;
    } else if IsSpace(raw[0]) {
      var rest := raw[1..];
      TrimIs(rest);
      var i: nat, j: nat :| Middle(rest, i, j) && Trim(rest) == rest[i..j];
      assert Middle(raw, i + 1, j + 1) && raw[i + 1..j + 1] == rest[i..j];
    } else {
      var rest := raw[..|raw| - 1];
      TrimIs(rest);
      var i: nat, j: nat :| Middle(rest, i, j) && Trim(rest) == rest[i..j];
      assert Middle(raw, i, j) && raw[i..j] == rest[i..j];
    }
  }

  predicate HasText(s: string) { exists i: nat :: i < |s| && !IsSpace(s[i]) }

  lemma TrimmedAway(s: string)
    ensures Trim(s) == "" <==> !HasText(s)
  {
    TrimIs(s);
    var i: nat, j: nat :| Middle(s, i, j) && Trim(s) == s[i..j];
    assert i < j ==> !IsSpace(s[i]);
  }
}
