/** One-time codes: RFC 6238 codes computed as in section 5.3 of RFC 4226, and the
    recovery codes that stand in for them. */
module Totp {
  import opened Clock
  import opened Text
  import opened Wrappers

  type Byte = x: int | 0 <= x < 256

  /** A SHA-1 HMAC is 20 bytes long. */
  type Digest = d: seq<Byte> | |d| == 20 witness seq(20, _ => 0)

  /** The primitives: base32 decoding of a secret, the HMAC of a key and a time step,
      SHA-256 of a recovery code, and case folding. */
  datatype Primitives = Primitives(
    decode: string -> Option<string>,
    hmac: (string, int) -> Digest,
    hash: string -> string,
    fold: string -> string
  )

  const DIGITS := 6
  const PERIOD := 30
  const SKEW := 1

  // ----- codes

  /** The four bytes at the offset the last byte gives, without the sign bit. */
  function Truncated(d: Digest): nat {
    var off := d[19] % 16;
    (d[off] as int % 128) * 0x100_0000 + d[off + 1] as int * 0x1_0000 + d[off + 2] as int * 0x100 + d[off + 3] as int
  }

  function Digits(n: nat, width: nat): (s: string)
    ensures |s| == width
  {
    if width == 0 then "" else Digits(n / 10, width - 1) + [('0' as int + n % 10) as char]
  }

  function TotpCode(p: Primitives, key: string, step: int): string {
    Digits(Truncated(p.hmac(key, step)) % 1_000_000, DIGITS)
  }

  /** The number a string of digits shows. */
  function Value(s: string): int {
    if s == "" then 0 else 10 * Value(s[..|s| - 1]) + (s[|s| - 1] as int - '0' as int)
  }

  function Pow10(n: nat): nat {
    if n == 0 then 1 else 10 * Pow10(n - 1)
  }

  lemma {:induction false} DigitsShow(n: nat, width: nat)
    requires n < Pow10(width)
    ensures Value(Digits(n, width)) == n
  {
    if width > 0 {
      DigitsShow(n / 10, width - 1);
      var s := Digits(n, width);
      assert s[..|s| - 1] == Digits(n / 10, width - 1);
    }
  }

  /** A code is six digits, and two steps share a code exactly when their truncated
      digests agree in the last six decimal digits: no leading zero is lost. */
  lemma CodesAgree(p: Primitives, key: string, s1: int, s2: int)
    ensures |TotpCode(p, key, s1)| == DIGITS
    ensures TotpCode(p, key, s1) == TotpCode(p, key, s2)
            <==> Truncated(p.hmac(key, s1)) % 1_000_000 == Truncated(p.hmac(key, s2)) % 1_000_000
  {
    assert Pow10(6) == 1_000_000 by {
      assert Pow10(3) == 1000;
      assert Pow10(4) == 10_000 && Pow10(5) == 100_000;
    }
    DigitsShow(Truncated(p.hmac(key, s1)) % 1_000_000, DIGITS);
    DigitsShow(Truncated(p.hmac(key, s2)) % 1_000_000, DIGITS);
  }

  lemma ExampleDigits()
    ensures Digits(872921, 6) == "872921"
  {
    assert Digits(8, 1) == "8";
    assert Digits(87, 2) == Digits(8, 1) + "7" == "87";
    assert Digits(872, 3) == Digits(87, 2) + "2" == "872";
    assert Digits(8729, 4) == Digits(872, 3) + "9" == "8729";
    assert Digits(87292, 5) == Digits(8729, 4) + "2" == "87292";
    assert Digits(872921, 6) == Digits(87292, 5) + "1" == "872921";
  }

  /** The worked example of section 5.4 of RFC 4226: the last byte of the digest gives the
      offset 10 (0xa), the bytes there 0x50ef7f19, and so the code 872921. */
  lemma Rfc4226Example(p: Primitives, key: string, step: int)
    requires var d := p.hmac(key, step); d[19] == 0x5a && d[10] == 0x50 && d[11] == 0xef && d[12] == 0x7f && d[13] == 0x19
    ensures Truncated(p.hmac(key, step)) == 0x50ef7f19
    ensures TotpCode(p, key, step) == "872921"
  {
    assert 0x50ef7f19 % 1_000_000 == 872921;
    ExampleDigits();
  }

  /** The sign bit of the four bytes is dropped: the value does not depend on it. */
  lemma SignBitDropped(d: Digest, e: Digest)
    requires var off := d[19] % 16;
             && e[19] == d[19] && e[off] as int % 128 == d[off] as int % 128
             && e[off + 1] == d[off + 1] && e[off + 2] == d[off + 2] && e[off + 3] == d[off + 3]
    ensures Truncated(d) == Truncated(e) < 0x8000_0000
  {
  }

  // ----- verification

  /** Unix seconds over the period, truncated towards zero as Go divides. */
  function StepAt(now: int): int {
    var seconds := FloorTo(now, SECOND) / SECOND;
    if seconds >= 0 then seconds / PERIOD else -(-seconds / PERIOD)
  }

  /** From 1970 on, step n is the half-open interval of 30 seconds that starts at 30 n. */
  lemma StepMeaning(now: int, n: int)
    requires now >= 0
    ensures StepAt(now) == n <==> 30 * n * SECOND <= now < 30 * (n + 1) * SECOND
  {
    var seconds := FloorTo(now, SECOND) / SECOND;
    assert seconds * SECOND <= now < (seconds + 1) * SECOND;
    assert StepAt(now) == seconds / 30;
  }

  function Typed(code: string): string {
    Without(TrimSpace(code), {' '})
  }

  /** step is one that code may be accepted for. */
  ghost predicate Fits(p: Primitives, secret: string, code: string, now: int, lastStep: int, step: int) {
    && p.decode(secret).Some?
    && Typed(code) == TotpCode(p, p.decode(secret).value, step)
    && StepAt(now) - SKEW <= step <= StepAt(now) + SKEW
    && step > lastStep
  }

  /** The earliest step in [lo, hi] whose code this is. */
  function FirstMatch(p: Primitives, key: string, code: string, lastStep: int, lo: int, hi: int): Option<int>
    decreases hi - lo + 1
  {
    if lo > hi then None
    else if lo > lastStep && TotpCode(p, key, lo) == code then Some(lo)
    else FirstMatch(p, key, code, lastStep, lo + 1, hi)
  }

  function Verified(p: Primitives, secret: string, code: string, now: int, lastStep: int): Option<int> {
    if |Typed(code)| != DIGITS || p.decode(secret).None? then None
    else FirstMatch(p, p.decode(secret).value, Typed(code), lastStep, StepAt(now) - SKEW, StepAt(now) + SKEW)
  }

  lemma {:induction false} FirstMatchIsFirst(p: Primitives, key: string, code: string, lastStep: int, lo: int, hi: int)
    ensures var r := FirstMatch(p, key, code, lastStep, lo, hi);
            && (r.Some? ==> lo <= r.value <= hi && r.value > lastStep && TotpCode(p, key, r.value) == code)
            && forall s :: lo <= s <= hi && s > lastStep && TotpCode(p, key, s) == code ==> r.Some? && r.value <= s
    decreases hi - lo + 1
  {
    if lo <= hi {
      FirstMatchIsFirst(p, key, code, lastStep, lo + 1, hi);
    }
  }

  /** A code is accepted exactly when it fits some step, for the earliest such step. */
  lemma VerifiedMeaning(p: Primitives, secret: string, code: string, now: int, lastStep: int)
    ensures var r := Verified(p, secret, code, now, lastStep);
            && (r.Some? ==> Fits(p, secret, code, now, lastStep, r.value))
            && forall s :: Fits(p, secret, code, now, lastStep, s) ==> r.Some? && r.value <= s
  {
    if p.decode(secret).Some? {
      FirstMatchIsFirst(p, p.decode(secret).value, Typed(code), lastStep, StepAt(now) - SKEW, StepAt(now) + SKEW);
    }
  }

  method VerifyTOTP(p: Primitives, secret: string, code: string, now: int, lastStep: int) returns (step: int, ok: bool)
    ensures ok <==> Verified(p, secret, code, now, lastStep).Some?
    ensures step == if ok then Verified(p, secret, code, now, lastStep).value else 0
  {
    var typed := Typed(code);
    if |typed| != DIGITS {
      return 0, false;
    }
    var key := p.decode(secret);
    if key.None? {
      return 0, false;
    }
    var current := StepAt(now);
    step := current - SKEW;
    while step <= current + SKEW
      invariant current - SKEW <= step <= current + SKEW + 1
      invariant Verified(p, secret, code, now, lastStep)
                == FirstMatch(p, key.value, typed, lastStep, step, current + SKEW)
    {
      if step > lastStep && TotpCode(p, key.value, step) == typed {
        return step, true;
      }
      step := step + 1;
    }
    return 0, false;
  }

  // ----- recovery codes

  const RECOVERY_LENGTH := 10

  function Normalised(p: Primitives, code: string): string {
    p.fold(Without(TrimSpace(code), {'-', ' '}))
  }

  /** The stored form of a code. */
  function HashOf(p: Primitives, code: string): string {
    p.hash(Normalised(p, code))
  }

  predicate Matches(p: Primitives, hashes: seq<string>, code: string) {
    |Normalised(p, code)| == RECOVERY_LENGTH && HashOf(p, code) in hashes
  }

  method UseRecoveryCode(p: Primitives, hashes: seq<string>, code: string) returns (rest: seq<string>, ok: bool)
    ensures ok <==> Matches(p, hashes, code)
    ensures ok ==> rest == Spent(hashes, HashOf(p, code))
    ensures !ok ==> rest == hashes
  {
    if |Normalised(p, code)| != RECOVERY_LENGTH {
      return hashes, false;
    }
    var h := HashOf(p, code);
    for i := 0 to |hashes|
      invariant h !in hashes[..i]
    {
      if hashes[i] == h {
        SpentAt(hashes, h, i);
        return hashes[..i] + hashes[i + 1..], true;
      }
    }
    return hashes, false;
  }

  /** hashes without the first copy of h. */
  function Spent(hashes: seq<string>, h: string): seq<string> {
    if hashes == [] then []
    else if hashes[0] == h then hashes[1..]
    else [hashes[0]] + Spent(hashes[1..], h)
  }

  lemma {:induction false} SpentAt(hashes: seq<string>, h: string, i: nat)
    requires i < |hashes| && hashes[i] == h && h !in hashes[..i]
    ensures Spent(hashes, h) == hashes[..i] + hashes[i + 1..]
  {
    if i > 0 {
      assert hashes[0] in hashes[..i];
      assert hashes[1..][..i - 1] == hashes[..i][1..];
      SpentAt(hashes[1..], h, i - 1);
    }
  }

  /** Spending a code takes exactly one copy of its hash out. */
  lemma {:induction false} SpendingTakesOne(hashes: seq<string>, h: string)
    requires h in hashes
    ensures multiset(hashes) == multiset(Spent(hashes, h)) + multiset{h}
  {
    assert hashes == [hashes[0]] + hashes[1..];
    if hashes[0] != h {
      SpendingTakesOne(hashes[1..], h);
    }
  }
}
