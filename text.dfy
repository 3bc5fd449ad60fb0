/**
 * Characters and strings as the validators and the token formats see them:
 * ASCII character classes, ASCII case mapping, substring search, decimal and
 * hexadecimal renderings. Strings are `seq<char>`.
 */
module Text {
  import opened Wrappers

  /** A byte as a Node.js Buffer holds it. */
  type byte = x: int | 0 <= x < 256

  predicate IsDigit(c: char) { '0' <= c <= '9' }
  predicate IsUpper(c: char) { 'A' <= c <= 'Z' }
  predicate IsLower(c: char) { 'a' <= c <= 'z' }
  predicate IsAlnum(c: char) { IsDigit(c) || IsUpper(c) || IsLower(c) }

  /** The regular-expression class `[a-zA-Z0-9_]`. */
  predicate IsWordChar(c: char) { IsAlnum(c) || c == '_' }

  /** Every character is in `\d`, that is `[0-9]`. */
  predicate AllDigits(s: string) { forall i :: 0 <= i < |s| ==> IsDigit(s[i]) }

  /** ASCII lower-casing: 'A'..'Z' become 'a'..'z', every other character is kept. */
  function LowerChar(c: char): char { if IsUpper(c) then (c as int + 32) as char else c }

  /** ASCII upper-casing: 'a'..'z' become 'A'..'Z', every other character is kept. */
  function UpperChar(c: char): char { if IsLower(c) then (c as int - 32) as char else c }

  function Lower(s: string): (r: string)
    ensures |r| == |s|
    ensures forall i :: 0 <= i < |s| ==> r[i] == LowerChar(s[i])
  {
    seq(|s|, i requires 0 <= i < |s| => LowerChar(s[i]))
  }

  function Upper(s: string): (r: string)
    ensures |r| == |s|
    ensures forall i :: 0 <= i < |s| ==> r[i] == UpperChar(s[i])
  {
    seq(|s|, i requires 0 <= i < |s| => UpperChar(s[i]))
  }

  lemma LowerAppend(a: string, b: string)
    ensures Lower(a + b) == Lower(a) + Lower(b)
  {
  }

  /** A lower-cased string holds the letter `c` only where the original holds `c` or its capital. */
  lemma LowerLacks(s: string, c: char)
    requires IsLower(c) && c !in s && UpperChar(c) !in s
    ensures c !in Lower(s)
  {
    forall i | 0 <= i < |s| ensures Lower(s)[i] != c {
      assert s[i] != c && s[i] != UpperChar(c);
    }
  }

  // ---------------------------------------------------------------------
  // Prefixes and substrings

  /** String.prototype.startsWith. */
  predicate StartsWith(s: string, p: string) { |p| <= |s| && s[..|p|] == p }

  /** `p` occurs in `s` starting at index `i`. */
  predicate OccursAt(s: string, p: string, i: int)
  {
    0 <= i && i + |p| <= |s| && s[i..i + |p|] == p
  }

  /**
   * String.prototype.includes, which is also what RegExp.prototype.test does
   * for a pattern that is a plain literal: try every start position from the left.
   */
  predicate Contains(s: string, p: string)
    decreases |s|
  {
    StartsWith(s, p) || (|s| > 0 && Contains(s[1..], p))
  }

  /** An occurrence at index `i` is found by the scan. */
  lemma {:induction false} OccursAtWitness(s: string, p: string, i: int)
    requires OccursAt(s, p, i)
    ensures Contains(s, p)
    decreases i
  {
    if i == 0 {
      assert s[..|p|] == s[0..|p|];
    } else {
      assert s[1..][i - 1..i - 1 + |p|] == s[i..i + |p|];
      OccursAtWitness(s[1..], p, i - 1);
    }
  }

  /** What the scan finds is an occurrence at some index. */
  lemma {:induction false} ContainsWitness(s: string, p: string)
    requires Contains(s, p)
    ensures exists i :: OccursAt(s, p, i)
    decreases |s|
  {
    if StartsWith(s, p) {
      assert OccursAt(s, p, 0);
    } else {
      ContainsWitness(s[1..], p);
      var i :| OccursAt(s[1..], p, i);
      assert s[1..][i..i + |p|] == s[i + 1..i + 1 + |p|];
      assert OccursAt(s, p, i + 1);
    }
  }

  /** The scan succeeds exactly when the pattern occurs at some index. */
  lemma ContainsIff(s: string, p: string)
    ensures Contains(s, p) <==> exists i :: OccursAt(s, p, i)
  {
    if Contains(s, p) {
      ContainsWitness(s, p);
    }
    if i :| OccursAt(s, p, i) {
      OccursAtWitness(s, p, i);
    }
  }

  /** A pattern with a character that the text lacks is not found in it. */
  lemma AbsentCharExcludes(s: string, p: string, c: char)
    requires c in p && c !in s
    ensures !Contains(s, p)
  {
    ContainsIff(s, p);
    var k :| 0 <= k < |p| && p[k] == c;
    forall i | 0 <= i && i + |p| <= |s| ensures !OccursAt(s, p, i) {
      assert s[i..i + |p|][k] == s[i + k] != p[k];
    }
  }

  // ---------------------------------------------------------------------
  // Splitting on a separator character

  /** String.prototype.indexOf for one character: the first index holding `c`, or -1. */
  function IndexOf(s: string, c: char): (r: int)
    ensures r == -1 <==> c !in s
    ensures r != -1 ==> 0 <= r < |s| && s[r] == c && forall k :: 0 <= k < r ==> s[k] != c
    decreases |s|
  {
    if s == [] then -1
    else if s[0] == c then 0
    else
      var j := IndexOf(s[1..], c);
      if j < 0 then -1 else j + 1
  }

  /** The first occurrence of `c` is where IndexOf finds it. */
  lemma IndexOfAt(s: string, c: char, i: int)
    requires 0 <= i < |s| && s[i] == c && forall k :: 0 <= k < i ==> s[k] != c
    ensures IndexOf(s, c) == i
  {
  }

  /** String.prototype.split with a one-character separator. */
  function Split(s: string, sep: char): (r: seq<string>)
    ensures |r| >= 1
    ensures forall k :: 0 <= k < |r| ==> sep !in r[k]
    decreases |s|
  {
    var i := IndexOf(s, sep);
    if i < 0 then [s] else [s[..i]] + Split(s[i + 1..], sep)
  }

  /** Array.prototype.join with a one-character separator. */
  function Join(parts: seq<string>, sep: char): string
    decreases |parts|
  {
    if parts == [] then ""
    else if |parts| == 1 then parts[0]
    else parts[0] + [sep] + Join(parts[1..], sep)
  }

  lemma Reassemble(s: string, i: int)
    requires 0 <= i < |s|
    ensures s == s[..i] + [s[i]] + s[i + 1..]
  {
  }

  /** Joining the pieces of a split with the same separator gives back the string. */
  lemma {:induction false} SplitJoin(s: string, sep: char)
    ensures Join(Split(s, sep), sep) == s
    decreases |s|
  {
    var i := IndexOf(s, sep);
    if i >= 0 {
      var rest := s[i + 1..];
      assert Join(Split(s, sep), sep) == s[..i] + [sep] + Join(Split(rest, sep), sep) by {
        var parts := Split(s, sep);
        assert parts == [s[..i]] + Split(rest, sep);
        assert parts[0] == s[..i] && parts[1..] == Split(rest, sep) && |parts| >= 2;
      }
      SplitJoin(rest, sep);
      Reassemble(s, i);
    }
  }

  // ---------------------------------------------------------------------
  // Decimal numerals

  function DigitChar(d: int): char
    requires 0 <= d < 10
  {
    ('0' as int + d) as char
  }

  function DigitValue(c: char): int
    requires IsDigit(c)
  {
    c as int - '0' as int
  }

  /** The decimal digits of `n`, most significant first, with no leading zero. */
  function NatToDecimal(n: nat): string
    decreases n
  {
    if n < 10 then [DigitChar(n)] else NatToDecimal(n / 10) + [DigitChar(n % 10)]
  }

  /** Number.prototype.toString() of an integral Number small enough to print without an exponent. */
  function IntToDecimal(i: int): string
  {
    if i < 0 then "-" + NatToDecimal(-i) else NatToDecimal(i)
  }

  /** The value of a string of digits, as Number() reads it ("" reads as 0). */
  function DecimalValue(s: string): nat
    requires AllDigits(s)
    decreases |s|
  {
    if s == [] then 0 else 10 * DecimalValue(s[..|s| - 1]) + DigitValue(s[|s| - 1])
  }

  /** The value of a two-digit string. */
  lemma DecimalValue2(s: string)
    requires |s| == 2 && AllDigits(s)
    ensures DecimalValue(s) == 10 * DigitValue(s[0]) + DigitValue(s[1])
  {
    var head := s[..1];
    assert head[..0] == [] && head[0] == s[0];
    assert DecimalValue(head) == DigitValue(s[0]);
  }

  /** The value of a four-digit string. */
  lemma DecimalValue4(s: string)
    requires |s| == 4 && AllDigits(s)
    ensures DecimalValue(s) == 1000 * DigitValue(s[0]) + 100 * DigitValue(s[1]) + 10 * DigitValue(s[2]) + DigitValue(s[3])
  {
    DecimalValue2(s[..2]);
    assert s[..3][..2] == s[..2];
  }

  function Pow10(k: nat): nat
  {
    if k == 0 then 1 else 10 * Pow10(k - 1)
  }

  /** The rendering is a digit string with no leading zero that reads back as `n`. */
  lemma {:induction false} NatToDecimalRoundTrip(n: nat)
    ensures AllDigits(NatToDecimal(n))
    ensures DecimalValue(NatToDecimal(n)) == n
    ensures |NatToDecimal(n)| >= 1
    ensures |NatToDecimal(n)| > 1 ==> NatToDecimal(n)[0] != '0'
    decreases n
  {
    if n >= 10 {
      NatToDecimalRoundTrip(n / 10);
      var s := NatToDecimal(n);
      assert s[..|s| - 1] == NatToDecimal(n / 10);
    }
  }

  /** A number below 10^k renders in at most k digits. */
  lemma {:induction false} NatToDecimalLength(n: nat, k: nat)
    requires 1 <= k && n < Pow10(k)
    ensures |NatToDecimal(n)| <= k
    decreases n
  {
    if n >= 10 {
      assert Pow10(1) == 10;
      assert k >= 2;
      NatToDecimalLength(n / 10, k - 1);
    }
  }

  /** Distinct integers have distinct renderings. */
  lemma IntToDecimalInjective(a: int, b: int)
    requires IntToDecimal(a) == IntToDecimal(b)
    ensures a == b
  {
    NatToDecimalRoundTrip(if a < 0 then -a else a);
    NatToDecimalRoundTrip(if b < 0 then -b else b);
    var s := IntToDecimal(a);
    if s[0] == '-' {
      assert a < 0 && b < 0;
      assert s[1..] == NatToDecimal(-a) == NatToDecimal(-b);
    } else {
      assert a >= 0 && b >= 0;
    }
  }

  /** String.prototype.padStart with a one-character filler. */
  function PadStart(s: string, n: int, c: char): string
  {
    if |s| >= n then s else seq(n - |s|, _ => c) + s
  }

  lemma {:induction false} LeadingZero(s: string)
    requires AllDigits(s)
    ensures AllDigits("0" + s) && DecimalValue("0" + s) == DecimalValue(s)
    decreases |s|
  {
    if s != [] {
      var t := "0" + s;
      assert t[..|t| - 1] == "0" + s[..|s| - 1];
      LeadingZero(s[..|s| - 1]);
    }
  }

  /** Padding a digit string on the left with zeros keeps its value. */
  lemma {:induction false} PadStartZeros(s: string, n: int)
    requires AllDigits(s)
    ensures AllDigits(PadStart(s, n, '0'))
    ensures DecimalValue(PadStart(s, n, '0')) == DecimalValue(s)
    ensures |PadStart(s, n, '0')| == if |s| >= n then |s| else n
    decreases n - |s|
  {
    if |s| < n {
      LeadingZero(s);
      PadStartZeros("0" + s, n);
      assert PadStart("0" + s, n, '0') == PadStart(s, n, '0');
    }
  }

  // ---------------------------------------------------------------------
  // Hexadecimal

  /** The lower-case hexadecimal digit of a nibble: 0-9, then a-f. */
  function HexDigitLower(v: int): char
    requires 0 <= v < 16
  {
    if v < 10 then ('0' as int + v) as char else ('a' as int + v - 10) as char
  }

  /** Buffer.prototype.toString('hex'): two lower-case digits per byte, high nibble first. */
  function HexLower(b: seq<byte>): string
    decreases |b|
  {
    if b == [] then [] else [HexDigitLower(b[0] / 16), HexDigitLower(b[0] % 16)] + HexLower(b[1..])
  }

  predicate IsHexLowerDigit(c: char) { IsDigit(c) || 'a' <= c <= 'f' }
  predicate IsHexUpperDigit(c: char) { IsDigit(c) || 'A' <= c <= 'F' }
  predicate IsHexLower(s: string) { forall i :: 0 <= i < |s| ==> IsHexLowerDigit(s[i]) }
  predicate IsHexUpper(s: string) { forall i :: 0 <= i < |s| ==> IsHexUpperDigit(s[i]) }

  /** The value of one hexadecimal digit of either case. */
  function HexNibble(c: char): Option<int>
  {
    if IsDigit(c) then Some(c as int - '0' as int)
    else if 'a' <= c <= 'f' then Some(c as int - 'a' as int + 10)
    else if 'A' <= c <= 'F' then Some(c as int - 'A' as int + 10)
    else None
  }

  /** A strict hexadecimal decoder: an even number of hex digits of either case, else None. */
  function HexDecode(s: string): Option<seq<byte>>
    decreases |s|
  {
    if s == [] then Some([])
    else if |s| == 1 then None
    else
      match (HexNibble(s[0]), HexNibble(s[1]), HexDecode(s[2..]))
      case (Some(hi), Some(lo), Some(rest)) =>
        if 0 <= hi < 16 && 0 <= lo < 16 then Some([(16 * hi + lo) as byte] + rest) else None
      case _ => None
  }

  /** Lower-case hex is twice as long as the bytes, uses only 0-9a-f, and decodes back to them. */
  lemma {:induction false} HexLowerRoundTrip(b: seq<byte>)
    ensures |HexLower(b)| == 2 * |b|
    ensures IsHexLower(HexLower(b))
    ensures HexDecode(HexLower(b)) == Some(b)
    decreases |b|
  {
    if b != [] {
      HexLowerRoundTrip(b[1..]);
      var h := HexLower(b);
      assert h[2..] == HexLower(b[1..]);
      assert [b[0]] + b[1..] == b;
    }
  }

  lemma UpperAppend(a: string, b: string)
    ensures Upper(a + b) == Upper(a) + Upper(b)
  {
  }

  /** Upper-casing lower-case hex gives 0-9A-F digits that decode to the same bytes. */
  lemma {:induction false} HexUpperRoundTrip(b: seq<byte>)
    ensures |Upper(HexLower(b))| == 2 * |b|
    ensures IsHexUpper(Upper(HexLower(b)))
    ensures HexDecode(Upper(HexLower(b))) == Some(b)
    decreases |b|
  {
    if b != [] {
      HexUpperRoundTrip(b[1..]);
      var pair := [HexDigitLower(b[0] / 16), HexDigitLower(b[0] % 16)];
      UpperAppend(pair, HexLower(b[1..]));
      var u := Upper(HexLower(b));
      assert u[2..] == Upper(HexLower(b[1..]));
      assert [b[0]] + b[1..] == b;
    }
  }
}
