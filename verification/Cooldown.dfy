/**
 How long a rate-limited scope stays quiet: the Retry-After header of section 10.2.3 of
 RFC 9110, and the fallback backoff when the header is missing or unusable.
 Times are nanoseconds since 1970.
 */
module Cooldown {
  import opened Spaces
  import opened Wrappers
  import opened Decimals

  const Second := 1_000_000_000
  const Minute := 60 * Second
  const LongestBackoff := 15 * Minute
  const MaxUint64 := 0xFFFF_FFFF_FFFF_FFFF
  const MaxInt64 := 0x7FFF_FFFF_FFFF_FFFF
  /** The last second of the year 9999. */
  const LastSecond := 253_402_300_799

  // ---- fallback backoff ----

  function Doubled(times: nat): (r: nat)
    ensures times < r
  {
    if times == 0 then 1 else 2 * Doubled(times - 1)
  }

  /** The n-th refusal in a row waits 2^(n-1) minutes, capped. */
  function Backoff(n: nat): nat {
    var wait := Minute * Doubled(if n == 0 then 0 else n - 1);
    if wait < LongestBackoff then wait else LongestBackoff
  }

  lemma {:induction false} DoubledGrows(a: nat, b: nat)
    requires a <= b
    ensures Doubled(a) <= Doubled(b)
    decreases b
  {
    if a < b {
      DoubledGrows(a, b - 1);
    }
  }

  /** The last clamp of the source is left out: the loop never passes the cap. */
  method FallbackBackoff(consecutive: nat) returns (backoff: nat)
    ensures backoff == Backoff(consecutive)
  {
    backoff := Minute;
    var i: nat := 1;
    while i < consecutive && backoff < LongestBackoff
      invariant 1 <= i && (i <= consecutive || i == 1)
      invariant backoff == Minute * Doubled(i - 1) && backoff <= LongestBackoff
    {
      if backoff > LongestBackoff / 2 {
        DoubledGrows(i, consecutive - 1);
        return LongestBackoff;
      }
      backoff := backoff * 2;
      i := i + 1;
    }
    if i < consecutive {
      DoubledGrows(i - 1, consecutive - 1);
    }
  }

  /** Refusal by refusal the wait never shrinks, and from the fifth on it is the cap. */
  lemma BackoffGrows(m: nat, n: nat)
    requires m <= n
    ensures Minute <= Backoff(m) <= Backoff(n) <= LongestBackoff
    ensures Backoff(n) == LongestBackoff <==> 5 <= n
  {
    DoubledGrows(if m == 0 then 0 else m - 1, if n == 0 then 0 else n - 1);
    assert Doubled(3) == 8 && Doubled(4) == 16 by {
      assert Doubled(1) == 2 && Doubled(2) == 4;
    }
    if 5 <= n {
      DoubledGrows(4, n - 1);
    } else {
      DoubledGrows(if n == 0 then 0 else n - 1, 3);
    }
  }

  // ---- Retry-After ----

  function ParseUint(raw: string): Option<nat> {
    if IsNumber(raw) && Decimal(raw) <= MaxUint64 then Some(Decimal(raw)) else None
  }

  /** Two's-complement addition and conversion on 64 bits. */
  function Signed(n: int): int {
    var m := n % (MaxUint64 + 1);
    if m <= MaxInt64 then m else m - (MaxUint64 + 1)
  }

  lemma SignedFits(n: nat)
    requires n <= MaxInt64
    ensures Signed(n) == n
  {
  }

  /** secs seconds after now, in the arithmetic of the source; None is a refusal. */
  function Later(secs: nat, now: nat): Option<int>
    requires secs <= MaxUint64 && now / Second <= MaxInt64
  {
    var unix := now / Second;
    if secs > MaxInt64 - unix then None
    else
      var at := Signed(Signed(unix) + Signed(secs));
      if at > LastSecond then None else Some(at * Second + now % Second)
  }

  /** The 64-bit sums never wrap. */
  lemma LaterIsExact(secs: nat, now: nat)
    requires secs <= MaxUint64 && now / Second <= MaxInt64
    ensures Later(secs, now) == if now / Second + secs <= LastSecond then Some(now + secs * Second) else None
  {
    var unix := now / Second;
    if secs <= MaxInt64 - unix {
      SignedFits(unix);
      SignedFits(secs);
      SignedFits(unix + secs);
      assert (unix + secs) * Second + now % Second == now + secs * Second;
    }
  }

  /** date stands for the parser of HTTP dates. */
  function Deadline(raw: string, now: nat, date: string -> Option<nat>): Option<int>
    requires now / Second <= MaxInt64
  {
    var t := Trim(raw);
    if t == "" then None
    else
      match ParseUint(t)
      case Some(secs) => Later(secs, now)
      case None =>
        match date(t)
        case None => None
        case Some(at) => if at < now then None else Some(at)
  }

  /** A number of seconds is added exactly, or refused once the sum leaves the year 9999. */
  lemma SecondsAreExact(raw: string, now: nat, date: string -> Option<nat>)
    requires IsNumber(Trim(raw)) && now / Second <= MaxInt64
    requires Decimal(Trim(raw)) > MaxUint64 ==> date(Trim(raw)) == None
    ensures Deadline(raw, now, date) ==
            if now / Second + Decimal(Trim(raw)) <= LastSecond then Some(now + Decimal(Trim(raw)) * Second) else None
  {
    if Decimal(Trim(raw)) <= MaxUint64 {
      LaterIsExact(Decimal(Trim(raw)), now);
    }
  }

  /** No header is read as a time already past. */
  lemma NeverPast(raw: string, now: nat, date: string -> Option<nat>)
    requires now / Second <= MaxInt64
    ensures Deadline(raw, now, date).Some? ==> now <= Deadline(raw, now, date).value
  {
    var t := Trim(raw);
    if ParseUint(t).Some? {
      LaterIsExact(ParseUint(t).value, now);
    }
  }

  /** Where a refusal at now, the n-th in a row, lets the next request through. */
  function RetryAt(raw: string, now: nat, n: nat, date: string -> Option<nat>): int
    requires now / Second <= MaxInt64
  {
    match Deadline(raw, now, date)
    case Some(at) => at
    case None => now + Backoff(n)
  }

  lemma RetryIsLater(raw: string, now: nat, n: nat, date: string -> Option<nat>)
    requires now / Second <= MaxInt64
    ensures now <= RetryAt(raw, now, n, date)
  {
    NeverPast(raw, now, date);
  }
}
