/**
 * The one-time codes: how a freshly drawn code becomes the stored string,
 * how long it lives, and how a candidate is checked against a stored slot.
 * A slot is empty when its code is "" (and its expiry 0), issued otherwise.
 */
module Otp {

  /** 24 hours in milliseconds, the lifetime of both kinds of code. */
  const Lifetime: nat := 24 * 60 * 60 * 1000

  /** The bounds of the six-digit range the codes are drawn from. */
  const MinCode: nat := 100000
  const MaxCode: nat := 999999

  function DigitChar(d: nat): (c: char)
    requires d < 10
    ensures '0' <= c <= '9'
  {
    ('0' as int + d) as char
  }

  /** The decimal digits of a non-negative integer, as stored in a code slot. */
  function Digits(n: nat): (s: string)
    ensures s != []
    ensures forall i :: 0 <= i < |s| ==> '0' <= s[i] <= '9'
    decreases n
  {
    if n < 10 then [DigitChar(n)] else Digits(n / 10) + [DigitChar(n % 10)]
  }

  /** The number a string of decimal digits denotes. */
  function Value(s: string): (v: nat)
    requires forall i :: 0 <= i < |s| ==> '0' <= s[i] <= '9'
    decreases |s|
  {
    if s == [] then 0 else 10 * Value(s[..|s| - 1]) + (s[|s| - 1] as int - '0' as int)
  }

  /** The stored string denotes the code it was made from. */
  lemma {:induction false} DigitsValue(n: nat)
    ensures Value(Digits(n)) == n
    decreases n
  {
    if n >= 10 {
      var s := Digits(n);
      assert s[..|s| - 1] == Digits(n / 10);
      DigitsValue(n / 10);
    }
  }

  /** Different codes give different stored strings. */
  lemma DigitsInjective(m: nat, n: nat)
    requires Digits(m) == Digits(n)
    ensures m == n
  {
    DigitsValue(m);
    DigitsValue(n);
  }

  function Pow10(k: nat): nat
  {
    if k == 0 then 1 else 10 * Pow10(k - 1)
  }

  /** A number with k digits is written with exactly k characters. */
  lemma {:induction false} DigitsLength(n: nat, k: nat)
    requires 1 <= k
    requires Pow10(k - 1) <= n < Pow10(k)
    ensures |Digits(n)| == k
  {
    if k == 1 {
      assert n < 10;
    } else {
      assert Pow10(k - 1) == 10 * Pow10(k - 2);
      assert Pow10(k) == 10 * Pow10(k - 1);
      assert n >= 10;
      assert Pow10(k - 2) <= n / 10 < Pow10(k - 1);
      DigitsLength(n / 10, k - 1);
    }
  }

  /** Every code the generator can draw is stored as a six-character string. */
  lemma SixDigits(code: nat)
    requires MinCode <= code <= MaxCode
    ensures |Digits(code)| == 6
  {
    assert Pow10(5) == 100000 && Pow10(6) == 1000000;
    DigitsLength(code, 6);
  }

  /** What a check of a candidate code against a stored slot concludes. */
  datatype Verdict = Mismatch | Expired | Accepted

  /**
   * The check both `verifyEmail` and `resetPassword` apply: an empty slot or
   * a different code is "Invalid OTP"; a matching code whose expiry lies
   * strictly before `now` is "OTP expired"; otherwise it is accepted.
   */
  function Check(stored: string, expireAt: nat, candidate: string, now: nat): (v: Verdict)
    ensures v == Accepted <==> stored != "" && candidate == stored && now <= expireAt
    ensures v == Mismatch <==> stored == "" || candidate != stored
  {
    if stored == "" || stored != candidate then Mismatch
    else if expireAt < now then Expired
    else Accepted
  }
}
