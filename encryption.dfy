/**
 * The parts of lib/security/encryption.ts that are not calls into a crypto library:
 * the time-based one-time password (dynamic truncation as in section 5.3 of RFC 4226,
 * 30-second time steps as in section 4 of RFC 6238, a symmetric window of steps),
 * and the string formats of account numbers, backup codes, hex tokens and
 * rate-limit keys. HMAC-SHA-1 and the random byte source are inputs.
 */
module Encryption {
  import opened Wrappers
  import opened Text

  // ---------------------------------------------------------------------
  // Time-based one-time passwords

  /** An HMAC-SHA-1 digest. */
  type Digest = d: seq<byte> | |d| == 20 witness seq(20, _ => 0)

  /**
   * HMAC-SHA-1 keyed by a TOTP secret. The base64 decoding of the secret into the
   * key happens inside it, so it takes the secret as the application stores it.
   */
  type Hmac = (string, seq<byte>) -> Digest

  const TimeStepMs := 30_000

  /** Math.floor(now / 30000): the number of the 30-second step holding the instant `now`. */
  function TimeStep(now: int): (step: int)
    ensures step * TimeStepMs <= now < (step + 1) * TimeStepMs
  {
    now / TimeStepMs
  }

  /** The ASCII encoding of a string of ASCII characters, as Buffer.from encodes it. */
  function AsciiBytes(s: string): (r: seq<byte>)
    requires forall i :: 0 <= i < |s| ==> s[i] as int < 128
    ensures |r| == |s|
    ensures forall i :: 0 <= i < |s| ==> r[i] == s[i] as int
  {
    seq(|s|, i requires 0 <= i < |s| => s[i] as int)
  }

  lemma DecimalIsAscii(n: int)
    ensures forall i :: 0 <= i < |IntToDecimal(n)| ==> IntToDecimal(n)[i] as int < 128
  {
    NatToDecimalRoundTrip(if n < 0 then -n else n);
  }

  /**
   * The HMAC message for a time step: the bytes of its decimal numeral, as
   * `Buffer.from(timeStep.toString())` builds them, rather than the 8-byte
   * big-endian counter of section 5.1 of RFC 4226.
   */
  function CounterMessage(step: int): (m: seq<byte>)
    ensures |m| == |IntToDecimal(step)|
    ensures forall i :: 0 <= i < |m| ==> m[i] == IntToDecimal(step)[i] as int
  {
    DecimalIsAscii(step);
    AsciiBytes(IntToDecimal(step))
  }

  /** Different time steps give different HMAC messages. */
  lemma CounterMessageInjective(a: int, b: int)
    requires CounterMessage(a) == CounterMessage(b)
    ensures a == b
  {
    var sa, sb := IntToDecimal(a), IntToDecimal(b);
    assert sa == sb by {
      assert |sa| == |sb|;
      forall i | 0 <= i < |sa| ensures sa[i] == sb[i] {
        assert sa[i] as int == CounterMessage(a)[i] == CounterMessage(b)[i] == sb[i] as int;
      }
    }
    IntToDecimalInjective(a, b);
  }

  /** `hash[hash.length - 1] & 0xf`: the low nibble of the last byte, so at most 15. */
  function Offset(d: Digest): (o: int)
    ensures 0 <= o <= 15 && o + 3 < |d|
  {
    d[19] % 16
  }

  /**
   * The dynamic truncation: the four digest bytes from the offset on, read big-endian
   * with the top bit of the first one cleared.
   */
  function DynamicTruncation(d: Digest): (code: int)
    ensures 0 <= code < 0x8000_0000
  {
    var o := Offset(d);
    BigEndian((d[o] % 128) as int, d[o + 1] as int, d[o + 2] as int, d[o + 3] as int)
  }

  /** Four bytes read as a big-endian number. */
  function BigEndian(b0: int, b1: int, b2: int, b3: int): (n: int)
    requires 0 <= b0 < 128 && 0 <= b1 < 256 && 0 <= b2 < 256 && 0 <= b3 < 256
    ensures 0 <= n < 0x8000_0000
  {
    ((b0 * 0x100 + b1) * 0x100 + b2) * 0x100 + b3
  }

  /** The big-endian number gives back its four bytes. */
  lemma BigEndianBytes(b0: int, b1: int, b2: int, b3: int)
    requires 0 <= b0 < 128 && 0 <= b1 < 256 && 0 <= b2 < 256 && 0 <= b3 < 256
    ensures var n := BigEndian(b0, b1, b2, b3);
      n / 0x100_0000 == b0 && (n / 0x1_0000) % 0x100 == b1 && (n / 0x100) % 0x100 == b2 && n % 0x100 == b3
  {
  }

  /** The truncated value gives back the four bytes it was built from, with the top bit cleared. */
  lemma TruncationBytes(d: Digest)
    ensures var code, o := DynamicTruncation(d), Offset(d);
      code / 0x100_0000 == d[o] % 128
      && (code / 0x1_0000) % 0x100 == d[o + 1]
      && (code / 0x100) % 0x100 == d[o + 2]
      && code % 0x100 == d[o + 3]
  {
    var o := Offset(d);
    BigEndianBytes((d[o] % 128) as int, d[o + 1] as int, d[o + 2] as int, d[o + 3] as int);
  }

  const TokenDigits := 6

  /**
   * generateTOTPToken: the truncated HMAC of the step's message, modulo 10^6,
   * written in decimal and padded on the left with zeros to six characters.
   */
  function TotpToken(hmac: Hmac, secret: string, step: int): (t: string)
    ensures |t| == TokenDigits && AllDigits(t)
    ensures DecimalValue(t) == DynamicTruncation(hmac(secret, CounterMessage(step))) % 1_000_000
  {
    var code := DynamicTruncation(hmac(secret, CounterMessage(step))) % 1_000_000;
    var numeral := NatToDecimal(code);
    NatToDecimalRoundTrip(code);
    assert Pow10(6) == 1_000_000;
    NatToDecimalLength(code, 6);
    PadStartZeros(numeral, TokenDigits);
    PadStart(numeral, TokenDigits, '0')
  }

  /** Some step within `window` steps of `step` yields `token`. */
  predicate TotpAccepts(hmac: Hmac, secret: string, token: string, step: int, window: int)
  {
    exists s :: step - window <= s <= step + window && TotpToken(hmac, secret, s) == token
  }

  /**
   * validateTOTP: tries the steps from `window` before the current one to `window`
   * after it and accepts at the first whose token matches.
   */
  method ValidateTotp(hmac: Hmac, secret: string, token: string, window: Option<int>, now: int)
    returns (ok: bool)
    ensures ok <==> TotpAccepts(hmac, secret, token, TimeStep(now), window.GetOr(1))
    ensures window.GetOr(1) < 0 ==> !ok
  {
    var w := window.GetOr(1);
    var step := TimeStep(now);
    var i := -w;
    while i <= w
      invariant w >= 0 ==> -w <= i <= w + 1
      invariant forall s :: step - w <= s < step + i ==> TotpToken(hmac, secret, s) != token
      decreases w - i
    {
      if TotpToken(hmac, secret, step + i) == token {
        return true;
      }
      i := i + 1;
    }
    return false;
  }

  /** A token issued at an instant no more than `window` steps away from `now` is accepted. */
  lemma DriftTolerated(hmac: Hmac, secret: string, issued: int, now: int, window: int)
    requires TimeStep(now) - window <= TimeStep(issued) <= TimeStep(now) + window
    ensures TotpAccepts(hmac, secret, TotpToken(hmac, secret, TimeStep(issued)), TimeStep(now), window)
  {
  }

  /** Widening the window never rejects a token that was accepted. */
  lemma WindowMonotone(hmac: Hmac, secret: string, token: string, step: int, w1: int, w2: int)
    requires w1 <= w2 && TotpAccepts(hmac, secret, token, step, w1)
    ensures TotpAccepts(hmac, secret, token, step, w2)
  {
  }

  /** A token that is not six digits is never accepted, whatever the window. */
  lemma MalformedTokenRejected(hmac: Hmac, secret: string, token: string, step: int, window: int)
    requires !(|token| == TokenDigits && AllDigits(token))
    ensures !TotpAccepts(hmac, secret, token, step, window)
  {
  }

  // ---------------------------------------------------------------------
  // Generated identifiers, from given random bytes

  /** generateAccountNumber: "1001" and the upper-case hex of three random bytes. */
  function AccountNumber(random: seq<byte>): (r: string)
    requires |random| == 3
    ensures |r| == 10 && r[..4] == "1001"
    ensures IsHexUpper(r[4..]) && HexDecode(r[4..]) == Some(random)
  {
    HexUpperRoundTrip(random);
    var r := "1001" + Upper(HexLower(random));
    assert r[4..] == Upper(HexLower(random));
    r
  }

  /** Different random bytes give different account numbers. */
  lemma AccountNumberInjective(a: seq<byte>, b: seq<byte>)
    requires |a| == 3 && |b| == 3 && AccountNumber(a) == AccountNumber(b)
    ensures a == b
  {
    assert Some(a) == HexDecode(AccountNumber(a)[4..]) == HexDecode(AccountNumber(b)[4..]) == Some(b);
  }

  /** Array.from({ length: count }): a negative count gives no element. */
  function ArrayLength(count: int): nat
  {
    if count < 0 then 0 else count
  }

  lemma HexUpperAll(draws: seq<seq<byte>>)
    ensures forall i :: 0 <= i < |draws| ==>
      |Upper(HexLower(draws[i]))| == 2 * |draws[i]| && IsHexUpper(Upper(HexLower(draws[i])))
      && HexDecode(Upper(HexLower(draws[i]))) == Some(draws[i])
  {
    forall i | 0 <= i < |draws| ensures
      |Upper(HexLower(draws[i]))| == 2 * |draws[i]| && IsHexUpper(Upper(HexLower(draws[i])))
      && HexDecode(Upper(HexLower(draws[i]))) == Some(draws[i])
    {
      HexUpperRoundTrip(draws[i]);
    }
  }

  /**
   * generateBackupCodes: `count` codes (10 when omitted), the i-th the upper-case hex
   * of the i-th draw of four random bytes.
   */
  function BackupCodes(count: Option<int>, draws: seq<seq<byte>>): (r: seq<string>)
    requires |draws| == ArrayLength(count.GetOr(10))
    requires forall i :: 0 <= i < |draws| ==> |draws[i]| == 4
    ensures |r| == ArrayLength(count.GetOr(10))
    ensures forall i :: 0 <= i < |r| ==> |r[i]| == 8 && IsHexUpper(r[i]) && HexDecode(r[i]) == Some(draws[i])
  {
    HexUpperAll(draws);
    seq(|draws|, i requires 0 <= i < |draws| => Upper(HexLower(draws[i])))
  }

  /** Codes from different draws differ, so codes are as distinct as the draws behind them. */
  lemma BackupCodesDistinct(count: Option<int>, draws: seq<seq<byte>>, i: int, j: int)
    requires |draws| == ArrayLength(count.GetOr(10))
    requires forall k :: 0 <= k < |draws| ==> |draws[k]| == 4
    requires 0 <= i < |draws| && 0 <= j < |draws| && draws[i] != draws[j]
    ensures BackupCodes(count, draws)[i] != BackupCodes(count, draws)[j]
  {
    var r := BackupCodes(count, draws);
    assert HexDecode(r[i]) == Some(draws[i]) && HexDecode(r[j]) == Some(draws[j]);
  }

  /**
   * generateSecureToken: the lower-case hex of `length` random bytes (32 when omitted).
   * A negative length is a RangeError from the byte source, modelled as None.
   */
  function SecureToken(length: Option<int>, random: seq<byte>): (r: Option<string>)
    requires length.GetOr(32) >= 0 ==> |random| == length.GetOr(32)
    ensures r.None? <==> length.GetOr(32) < 0
    ensures r.Some? ==> |r.value| == 2 * length.GetOr(32) && IsHexLower(r.value) && HexDecode(r.value) == Some(random)
  {
    if length.GetOr(32) < 0 then None
    else
      HexLowerRoundTrip(random);
      Some(HexLower(random))
  }

  const RateLimitPrefix := "rate_limit:"

  /** createRateLimitKey: "rate_limit:", the action, ":" and the identifier. */
  function RateLimitKey(identifier: string, action: string): string
  {
    RateLimitPrefix + action + ":" + identifier
  }

  /** Reads a rate-limit key back as (action, identifier), splitting at the first ':' after the prefix. */
  function ParseRateLimitKey(key: string): Option<(string, string)>
  {
    if !StartsWith(key, RateLimitPrefix) then None
    else
      var rest := key[|RateLimitPrefix|..];
      var i := IndexOf(rest, ':');
      if i < 0 then None else Some((rest[..i], rest[i + 1..]))
  }

  /** An action without ':' can be read back from its key together with the identifier. */
  lemma RateLimitKeyRoundTrip(identifier: string, action: string)
    requires ':' !in action
    ensures ParseRateLimitKey(RateLimitKey(identifier, action)) == Some((action, identifier))
  {
    var key := RateLimitKey(identifier, action);
    var rest := key[|RateLimitPrefix|..];
    assert key[..|RateLimitPrefix|] == RateLimitPrefix;
    assert rest == action + ":" + identifier;
    IndexOfAt(rest, ':', |action|);
    assert rest[..|action|] == action && rest[|action| + 1..] == identifier;
  }

  /** So among actions without ':' every (identifier, action) pair has its own key. */
  lemma RateLimitKeyInjective(i1: string, a1: string, i2: string, a2: string)
    requires ':' !in a1 && ':' !in a2 && RateLimitKey(i1, a1) == RateLimitKey(i2, a2)
    ensures i1 == i2 && a1 == a2
  {
    RateLimitKeyRoundTrip(i1, a1);
    RateLimitKeyRoundTrip(i2, a2);
  }

  /** An action holding ':' can share its key with another pair. */
  lemma RateLimitKeyCollision()
    ensures RateLimitKey("c", "a:b") == RateLimitKey("b:c", "a")
  {
  }
}
