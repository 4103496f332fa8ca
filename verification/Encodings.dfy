/**
 * Base58, base64 and hexadecimal texts of byte strings: bs58, atob and the helpers of
 * apps/web/src/components/wallet/utils.ts.
 */
module Encodings {
  import opened Wrappers
  import opened AsciiText
  import opened OctetStrings

  /* ---- positional numerals, most significant digit first ---- */

  function Pow(base: nat, n: nat): nat {
    if n == 0 then 1 else base * Pow(base, n - 1)
  }

  function Value(d: seq<nat>, base: nat): nat {
    if d == [] then 0 else Value(d[..|d| - 1], base) * base + d[|d| - 1]
  }

  lemma Multiples(x: int, base: int)
    requires base >= 0
    ensures x >= 1 ==> x * base >= base
    ensures x <= -1 ==> x * base <= -base
    ensures x == 0 ==> x * base == 0
    ensures x >= 0 && base >= 2 ==> x * base >= 2 * x
  {
  }

  lemma QuotientBounds(q: nat, r: nat, n: nat, base: nat)
    requires n == q * base + r && r < base && base >= 2
    ensures n >= base ==> 1 <= q < n
  {
    Multiples(q, base);
  }

  lemma DivFacts(n: nat, base: nat)
    requires base >= 2
    ensures n == (n / base) * base + n % base && 0 <= n % base < base
    ensures n >= base ==> 1 <= n / base < n
  {
    assert n == base * (n / base) + n % base;
    QuotientBounds(n / base, n % base, n, base);
  }

  /** The numeral of `n` without leading zeros. */
  function Digits(n: nat, base: nat): (d: seq<nat>)
    requires base >= 2
    ensures forall i | 0 <= i < |d| :: d[i] < base
    ensures d != [] ==> d[0] != 0
    ensures d == [] <==> n == 0
    decreases n
  {
    if n == 0 then []
    else if n < base then [n]
    else
      DivFacts(n, base);
      Digits(n / base, base) + [n % base]
  }

  lemma {:induction false} ValueOfDigits(n: nat, base: nat)
    requires base >= 2
    ensures Value(Digits(n, base), base) == n
    decreases n
  {
    if n >= base {
      DivFacts(n, base);
      ValueOfDigits(n / base, base);
      ValueLast(Digits(n / base, base), n % base, base);
    } else if n > 0 {
      assert [n] == [] + [n];
      ValueLast([], n, base);
    }
  }

  lemma EmptyValue(base: nat)
    ensures Value([], base) == 0
  {
  }

  lemma ValueLast(d: seq<nat>, last: nat, base: nat)
    ensures Value(d + [last], base) == Value(d, base) * base + last
  {
    assert (d + [last])[..|d|] == d;
  }

  lemma SameQuotient(q: nat, r: nat, q': nat, r': nat, base: nat)
    requires r < base && r' < base && q * base + r == q' * base + r'
    ensures q == q'
  {
    Multiples(q' - q, base);
    assert (q' - q) * base == q' * base - q * base;
  }

  lemma DivideDigit(q: nat, r: nat, base: nat)
    requires base >= 2 && r < base
    ensures (q * base + r) / base == q && (q * base + r) % base == r
  {
    var n := q * base + r;
    DivFacts(n, base);
    SameQuotient(q, r, n / base, n % base, base);
  }

  lemma Scale(v: nat, p: nat, base: nat)
    requires v >= p > 0 && base >= 2
    ensures v * base >= base * p > 0
  {
    Multiples(v - p, base);
    assert (v - p) * base == v * base - p * base;
    Multiples(p, base);
  }

  lemma PowStep(base: nat, n: nat)
    ensures Pow(base, n + 1) == base * Pow(base, n)
  {
  }

  lemma {:induction false} PositiveValue(d: seq<nat>, base: nat)
    requires base >= 2 && d != [] && d[0] != 0
    ensures Value(d, base) >= Pow(base, |d| - 1) && Pow(base, |d| - 1) > 0
  {
    hide Value, Pow;
    var init, last := d[..|d| - 1], d[|d| - 1];
    assert d == init + [last];
    ValueLast(init, last, base);
    if init != [] {
      PositiveValue(init, base);
      PowStep(base, |d| - 2);
      Scale(Value(init, base), Pow(base, |d| - 2), base);
    } else {
      EmptyValue(base);
      PowZero(base);
    }
  }

  lemma PowZero(base: nat)
    ensures Pow(base, 0) == 1
  {
  }

  lemma {:induction false} DigitsOfValue(d: seq<nat>, base: nat)
    requires base >= 2 && (forall i | 0 <= i < |d| :: d[i] < base) && (d != [] ==> d[0] != 0)
    ensures Digits(Value(d, base), base) == d
  {
    hide Value, Pow;
    EmptyValue(base);
    if |d| == 1 {
      assert d == [] + [d[0]];
      ValueLast([], d[0], base);
    } else if d != [] {
      var init, last := d[..|d| - 1], d[|d| - 1];
      assert d == init + [last];
      PositiveValue(init, base);
      DigitsOfValue(init, base);
      ValueLast(init, last, base);
      DivideDigit(Value(init, base), last, base);
      Multiples(Value(init, base), base);
    }
  }

  lemma StaysBelow(v: nat, last: nat, p: nat, base: nat)
    requires v < p && last < base
    ensures v * base + last < base * p
  {
    var k := p - v - 1;
    Multiples(k, base);
    assert base * p == v * base + base + k * base;
  }

  lemma {:induction false} ValueBelow(d: seq<nat>, base: nat)
    requires base >= 2 && forall i | 0 <= i < |d| :: d[i] < base
    ensures Value(d, base) < Pow(base, |d|)
  {
    hide Value, Pow;
    if d == [] {
      EmptyValue(base);
      PowZero(base);
    } else {
      var init, last := d[..|d| - 1], d[|d| - 1];
      assert d == init + [last];
      ValueBelow(init, base);
      ValueLast(init, last, base);
      PowStep(base, |d| - 1);
      StaysBelow(Value(init, base), last, Pow(base, |d| - 1), base);
    }
  }

  function LeadingZeros(d: seq<nat>): (z: nat)
    ensures z <= |d| && (forall i | 0 <= i < z :: d[i] == 0) && (z < |d| ==> d[z] != 0)
  {
    if d == [] || d[0] != 0 then 0 else 1 + LeadingZeros(d[1..])
  }

  lemma {:induction false} ZerosAreNothing(z: nat, d: seq<nat>, base: nat)
    ensures Value(Zeros(z) + d, base) == Value(d, base)
  {
    if d != [] {
      assert (Zeros(z) + d)[..z + |d| - 1] == Zeros(z) + d[..|d| - 1];
      ZerosAreNothing(z, d[..|d| - 1], base);
    } else if z > 0 {
      assert Zeros(z) + d == Zeros(z - 1) + [0];
      assert (Zeros(z - 1) + [0])[..z - 1] == Zeros(z - 1) + [];
      ZerosAreNothing(z - 1, [], base);
    }
  }

  /** A numeral is its leading zeros and the numeral of its value. */
  lemma SplitZeros(d: seq<nat>, base: nat)
    requires base >= 2 && forall i | 0 <= i < |d| :: d[i] < base
    ensures d == Zeros(LeadingZeros(d)) + Digits(Value(d, base), base)
  {
    var z := LeadingZeros(d);
    assert d == Zeros(z) + d[z..];
    ZerosAreNothing(z, d[z..], base);
    DigitsOfValue(d[z..], base);
  }

  lemma {:induction false} LeadingZerosOf(z: nat, d: seq<nat>)
    requires d != [] ==> d[0] != 0
    ensures LeadingZeros(Zeros(z) + d) == z
  {
    if z == 0 {
      assert Zeros(0) + d == d;
    } else {
      LeadingZerosOf(z - 1, d);
      assert (Zeros(z) + d)[1..] == Zeros(z - 1) + d;
    }
  }

  /* ---- base58 ---- */

  function Digit58(c: char): Option<nat> {
    if '1' <= c <= '9' then Some(c as int - '1' as int)
    else if 'A' <= c <= 'H' then Some(c as int - 'A' as int + 9)
    else if 'J' <= c <= 'N' then Some(c as int - 'J' as int + 17)
    else if 'P' <= c <= 'Z' then Some(c as int - 'P' as int + 22)
    else if 'a' <= c <= 'k' then Some(c as int - 'a' as int + 33)
    else if 'm' <= c <= 'z' then Some(c as int - 'm' as int + 44)
    else None
  }

  function Char58(k: nat): (c: char)
    requires k < 58
    ensures Digit58(c) == Some(k)
  {
    if k < 9 then ('1' as int + k) as char
    else if k < 17 then ('A' as int + k - 9) as char
    else if k < 22 then ('J' as int + k - 17) as char
    else if k < 33 then ('P' as int + k - 22) as char
    else if k < 44 then ('a' as int + k - 33) as char
    else ('m' as int + k - 44) as char
  }

  lemma Letters58(k: nat)
    ensures k < 33 ==> Digit58("123456789ABCDEFGHJKLMNPQRSTUVWXYZ"[k]) == Some(k)
  {
  }

  lemma SmallLetters58(k: nat)
    ensures k < 25 ==> Digit58("abcdefghijkmnopqrstuvwxyz"[k]) == Some(33 + k)
  {
  }

  lemma Injective58(c: char, d: char)
    ensures Digit58(c) == Digit58(d) && Digit58(c).Some? ==> c == d
    ensures Digit58(c).Some? ==> Digit58(c).value < 58
  {
  }

  /** The alphabet of Bitcoin base58: no zero, capital I, capital O or small l. */
  lemma Alphabet58(c: char, k: nat)
    ensures Digit58(c) == Some(k) <==>
        k < 58 && c == ("123456789ABCDEFGHJKLMNPQRSTUVWXYZ" + "abcdefghijkmnopqrstuvwxyz")[k]
  {
    hide Digit58;
    Letters58(k);
    if k >= 33 {
      SmallLetters58(k - 33);
    }
    Injective58(c, c);
    if k < 58 {
      Injective58(c, if k < 33 then "123456789ABCDEFGHJKLMNPQRSTUVWXYZ"[k] else "abcdefghijkmnopqrstuvwxyz"[k - 33]);
    }
  }

  function Text58(d: seq<nat>): (s: string)
    requires forall i | 0 <= i < |d| :: d[i] < 58
    ensures |s| == |d| && forall i | 0 <= i < |d| :: s[i] == Char58(d[i])
  {
    if d == [] then [] else Text58(d[..|d| - 1]) + [Char58(d[|d| - 1])]
  }

  predicate IsText58(s: string) {
    forall i | 0 <= i < |s| :: Digit58(s[i]).Some?
  }

  function Digits58(s: string): (d: seq<nat>)
    requires IsText58(s)
    ensures |d| == |s| && forall i | 0 <= i < |s| :: Digit58(s[i]) == Some(d[i]) && d[i] < 58
  {
    if s == [] then []
    else
      assert forall i | 0 <= i < |s| - 1 :: s[..|s| - 1][i] == s[i];
      Digits58(s[..|s| - 1]) + [Digit58(s[|s| - 1]).value]
  }

  /** Every leading '1' is a zero byte, the rest is a numeral. */
  function Decode58(s: string): Option<seq<nat>> {
    if IsText58(s) then Some(Zeros(LeadingZeros(Digits58(s))) + Digits(Value(Digits58(s), 58), 256)) else None
  }

  function Encode58(b: Octets): string {
    Text58(Zeros(LeadingZeros(b)) + Digits(Value(b, 256), 58))
  }

  lemma Base58RoundTrip(b: Octets)
    ensures Decode58(Encode58(b)) == Some(b)
  {
    hide Digits, Value, Zeros, LeadingZeros, Text58, Digits58;
    var z, v := LeadingZeros(b), Value(b, 256);
    var d := Zeros(z) + Digits(v, 58);
    var e := Encode58(b);
    assert forall i | 0 <= i < |e| :: Digit58(e[i]) == Some(d[i]);
    assert Digits58(e) == d;
    LeadingZerosOf(z, Digits(v, 58));
    ZerosAreNothing(z, Digits(v, 58), 58);
    ValueOfDigits(v, 58);
    SplitZeros(b, 256);
  }

  /* ---- how long a base58 text of 128 characters decodes ---- */

  lemma {:induction false} PowAdd(base: nat, m: nat, n: nat)
    ensures Pow(base, m + n) == Pow(base, m) * Pow(base, n)
  {
    hide Pow;
    PowZero(base);
    if m > 0 {
      PowAdd(base, m - 1, n);
      PowStep(base, m - 1);
      PowStep(base, m - 1 + n);
      Associates(base, Pow(base, m - 1), Pow(base, n));
    }
  }

  lemma Associates(a: nat, b: nat, c: nat)
    ensures a * (b * c) == (a * b) * c
  {
  }

  lemma {:induction false} PowGrows(base: nat, m: nat, n: nat)
    requires base >= 1 && m <= n
    ensures 1 <= Pow(base, m) <= Pow(base, n)
  {
    if n > m {
      PowGrows(base, m, n - 1);
      var x := Pow(base, n - 1);
      assert base * x >= x;
    } else if n > 0 {
      PowGrows(base, n - 1, n - 1);
      var x := Pow(base, n - 1);
      assert base * x >= x;
    }
  }

  /** Three base58 digits are worth at least two bytes. */
  lemma {:induction false} ThreeForTwo(k: nat)
    ensures Pow(58, 3 * k) >= Pow(256, 2 * k)
  {
    if k > 0 {
      ThreeForTwo(k - 1);
      var a, b := Pow(58, 3 * (k - 1)), Pow(256, 2 * (k - 1));
      PowAdd(58, 3, 3 * (k - 1));
      PowAdd(256, 2, 2 * (k - 1));
      SmallPowers();
      assert 195112 * a >= 65536 * b;
    }
  }

  lemma SmallPowers()
    ensures Pow(58, 3) == 195112 && Pow(256, 2) == 65536
  {
    assert Pow(58, 1) == 58 && Pow(58, 2) == 3364;
    assert Pow(256, 1) == 256;
  }

  lemma ManyDigits(k: nat)
    requires k <= 64
    ensures Pow(58, 63 + k) >= Pow(256, k)
  {
    hide Pow;
    var half := (k + 1) / 2;
    ThreeForTwo(half);
    PowGrows(256, k, 2 * half);
    PowGrows(58, 3 * half, 63 + k);
  }

  lemma DigitCount(n: nat, base: nat, k: nat)
    requires base >= 2 && n >= Pow(base, k)
    ensures |Digits(n, base)| > k
  {
    hide Digits, Value, Pow;
    var d := Digits(n, base);
    ValueOfDigits(n, base);
    ValueBelow(d, base);
    if |d| <= k {
      PowGrows(base, |d|, k);
      assert false;
    }
  }

  /** No text of 128 characters is the base58 form of 64 bytes: it is invalid or stands for more. */
  lemma LongTextsAreNot64(s: string)
    requires |s| == 128
    ensures Decode58(s).Some? ==> |Decode58(s).value| > 64
  {
    hide Digits, Value, Zeros, LeadingZeros, Digits58, Pow;
    if IsText58(s) {
      var d := Digits58(s);
      var z := LeadingZeros(d);
      if z <= 64 {
        var rest := d[z..];
        assert d == Zeros(z) + rest;
        ZerosAreNothing(z, rest, 58);
        PositiveValue(rest, 58);
        ManyDigits(64 - z);
        DigitCount(Value(d, 58), 256, 64 - z);
      }
    }
  }

  /* ---- base64 ---- */

  function Digit64(c: char): Option<nat> {
    if IsUpper(c) then Some(c as int - 'A' as int)
    else if IsLower(c) then Some(c as int - 'a' as int + 26)
    else if IsDigit(c) then Some(c as int - '0' as int + 52)
    else if c == '+' then Some(62)
    else if c == '/' then Some(63)
    else None
  }

  function Char64(k: nat): (c: char)
    requires k < 64
    ensures Digit64(c) == Some(k)
  {
    if k < 26 then ('A' as int + k) as char
    else if k < 52 then ('a' as int + k - 26) as char
    else if k < 62 then ('0' as int + k - 52) as char
    else if k == 62 then '+' else '/'
  }

  lemma Letters64(k: nat)
    ensures k < 26 ==> Digit64("ABCDEFGHIJKLMNOPQRSTUVWXYZ"[k]) == Some(k)
    ensures k < 12 ==> Digit64("0123456789+/"[k]) == Some(52 + k)
  {
  }

  lemma SmallLetters64(k: nat)
    ensures k < 26 ==> Digit64("abcdefghijklmnopqrstuvwxyz"[k]) == Some(26 + k)
  {
  }

  lemma Injective64(c: char, d: char)
    ensures Digit64(c) == Digit64(d) && Digit64(c).Some? ==> c == d
    ensures Digit64(c).Some? ==> Digit64(c).value < 64
  {
  }

  /** The alphabet of section 4 of RFC 4648. */
  lemma Alphabet64(c: char, k: nat)
    ensures Digit64(c) == Some(k) <==>
        k < 64 && c == ("ABCDEFGHIJKLMNOPQRSTUVWXYZ" + "abcdefghijklmnopqrstuvwxyz" + "0123456789+/")[k]
  {
    hide Digit64;
    Letters64(if k < 26 then k else if k < 52 then 26 else k - 52);
    if k >= 26 {
      SmallLetters64(k - 26);
    }
    Injective64(c, c);
    if k < 64 {
      Injective64(c, if k < 26 then "ABCDEFGHIJKLMNOPQRSTUVWXYZ"[k]
                  else if k < 52 then "abcdefghijklmnopqrstuvwxyz"[k - 26] else "0123456789+/"[k - 52]);
    }
  }

  function FourSextets(a: Octet, b: Octet, c: Octet): (d: seq<nat>)
    ensures |d| == 4 && d[0] < 64 && d[1] < 64 && d[2] < 64 && d[3] < 64
  {
    [a / 4, a % 4 * 16 + b / 16, b % 16 * 4 + c / 64, c % 64]
  }

  function ThreeBytes(w: nat, x: nat, y: nat, z: nat): (b: seq<nat>)
    requires w < 64 && x < 64 && y < 64 && z < 64
    ensures |b| == 3 && b[0] < 256 && b[1] < 256 && b[2] < 256
  {
    [w * 4 + x / 16, x % 16 * 16 + y / 4, y % 4 * 64 + z]
  }

  /** Six bits at a time; a final group of one or two bytes is filled with zero bits. */
  function Sextets(b: Octets): (d: seq<nat>)
    ensures forall i | 0 <= i < |d| :: d[i] < 64
  {
    if |b| == 0 then []
    else if |b| == 1 then FourSextets(b[0], 0, 0)[..2]
    else if |b| == 2 then FourSextets(b[0], b[1], 0)[..3]
    else FourSextets(b[0], b[1], b[2]) + Sextets(b[3..])
  }

  /** Bytes of a run of sextets; leftover bits of the last group are dropped. */
  function FromSextets(d: seq<nat>): seq<nat>
    requires forall i | 0 <= i < |d| :: d[i] < 64
  {
    if |d| < 2 then []
    else if |d| == 2 then ThreeBytes(d[0], d[1], 0, 0)[..1]
    else if |d| == 3 then ThreeBytes(d[0], d[1], d[2], 0)[..2]
    else ThreeBytes(d[0], d[1], d[2], d[3]) + FromSextets(d[4..])
  }

  lemma {:induction false} SextetCount(b: Octets)
    ensures |Sextets(b)| % 4 == (if |b| % 3 == 0 then 0 else |b| % 3 + 1)
  {
    hide FourSextets;
    if |b| >= 3 {
      SextetCount(b[3..]);
    }
  }

  lemma {:induction false} WholeGroups(d: seq<nat>, n: nat)
    requires |d| == 4 * n && forall i | 0 <= i < |d| :: d[i] < 64
    ensures |FromSextets(d)| == 3 * n
  {
    hide ThreeBytes;
    if n > 0 {
      WholeGroups(d[4..], n - 1);
    }
  }

  lemma OneGroup(a: Octet, b: Octet, c: Octet)
    ensures var d := FourSextets(a, b, c); ThreeBytes(d[0], d[1], d[2], d[3]) == [a, b, c]
    ensures c == 0 ==> FourSextets(a, b, c)[3] == 0
    ensures b == c == 0 ==> FourSextets(a, b, c)[2] == 0
  {
    assert (a % 4 * 16 + b / 16) / 16 == a % 4 && (a % 4 * 16 + b / 16) % 16 == b / 16;
    assert (b % 16 * 4 + c / 64) / 4 == b % 16 && (b % 16 * 4 + c / 64) % 4 == c / 64;
  }

  lemma {:induction false} SextetsRoundTrip(b: Octets)
    ensures FromSextets(Sextets(b)) == b
  {
    hide FourSextets, ThreeBytes;
    if |b| == 1 {
      OneGroup(b[0], 0, 0);
    } else if |b| == 2 {
      OneGroup(b[0], b[1], 0);
    } else if |b| >= 3 {
      OneGroup(b[0], b[1], b[2]);
      SextetsRoundTrip(b[3..]);
      var four, d := FourSextets(b[0], b[1], b[2]), Sextets(b);
      assert d[4..] == Sextets(b[3..]) && d[..4] == four;
      assert d[0] == four[0] && d[1] == four[1] && d[2] == four[2] && d[3] == four[3];
    }
  }

  /** Three bytes and their four sextets are the same 24 bits, most significant first. */
  lemma SameBits(a: Octet, b: Octet, c: Octet)
    ensures var d := FourSextets(a, b, c);
            a * 65536 + b * 256 + c == d[0] * 262144 + d[1] * 4096 + d[2] * 64 + d[3]
  {
  }

  function Text64(d: seq<nat>): (s: string)
    requires forall i | 0 <= i < |d| :: d[i] < 64
    ensures |s| == |d| && forall i | 0 <= i < |d| :: s[i] == Char64(d[i])
  {
    if d == [] then [] else Text64(d[..|d| - 1]) + [Char64(d[|d| - 1])]
  }

  predicate IsText64(s: string) {
    forall i | 0 <= i < |s| :: Digit64(s[i]).Some?
  }

  function Digits64(s: string): (d: seq<nat>)
    requires IsText64(s)
    ensures |d| == |s| && forall i | 0 <= i < |s| :: Digit64(s[i]) == Some(d[i]) && d[i] < 64
  {
    if s == [] then []
    else
      assert forall i | 0 <= i < |s| - 1 :: s[..|s| - 1][i] == s[i];
      Digits64(s[..|s| - 1]) + [Digit64(s[|s| - 1]).value]
  }

  /** The padded form. */
  function Encode64(b: Octets): string {
    Text64(Sextets(b)) + (if |b| % 3 == 1 then "==" else if |b| % 3 == 2 then "=" else "")
  }

  predicate IsAtobSpace(c: char) {
    c == ' ' || c == 9 as char || c == 10 as char || c == 12 as char || c == 13 as char
  }

  function WithoutSpaces(s: string): (r: string)
    ensures (forall i | 0 <= i < |s| :: !IsAtobSpace(s[i])) ==> r == s
  {
    if s == [] then [] else
      var rest := WithoutSpaces(s[..|s| - 1]);
      if IsAtobSpace(s[|s| - 1]) then rest else rest + [s[|s| - 1]]
  }

  function WithoutPadding(s: string): string {
    if |s| % 4 != 0 || s == [] || s[|s| - 1] != '=' then s
    else if s[|s| - 2] == '=' then s[..|s| - 2]
    else s[..|s| - 1]
  }

  /** atob: blanks are ignored, one or two '=' may complete the last group. */
  function Atob(text: string): Option<seq<nat>> {
    var s := WithoutPadding(WithoutSpaces(text));
    if |s| % 4 == 1 || !IsText64(s) then None else Some(FromSextets(Digits64(s)))
  }

  lemma NoBlankDigit(c: char, k: nat)
    requires k < 64 && c == Char64(k)
    ensures !IsAtobSpace(c) && c != '='
  {
  }

  lemma NoBlanks(b: Octets)
    ensures forall i | 0 <= i < |Encode64(b)| :: !IsAtobSpace(Encode64(b)[i])
  {
    hide Sextets, Text64, Char64;
    var s, e := Text64(Sextets(b)), Encode64(b);
    forall i | 0 <= i < |e| ensures !IsAtobSpace(e[i]) {
      if i < |s| {
        NoBlankDigit(e[i], Sextets(b)[i]);
      }
    }
  }

  lemma PaddingStrips(s: string, k: nat)
    requires k < 3 && |s| % 4 == (if k == 0 then 0 else k + 1) && (s != [] ==> s[|s| - 1] != '=')
    ensures WithoutPadding(s + (if k == 1 then "==" else if k == 2 then "=" else "")) == s
  {
    var e := s + (if k == 1 then "==" else if k == 2 then "=" else "");
    assert e[..|s|] == s;
  }

  /** Neither atob's blanks nor its padding touch the digits of an encoded text. */
  lemma PaddingGoes(b: Octets)
    ensures WithoutPadding(WithoutSpaces(Encode64(b))) == Text64(Sextets(b))
  {
    hide Sextets, Text64, WithoutSpaces, WithoutPadding, IsAtobSpace, Char64;
    var s := Text64(Sextets(b));
    NoBlanks(b);
    SextetCount(b);
    if s != [] {
      NoBlankDigit(s[|s| - 1], Sextets(b)[|s| - 1]);
    }
    PaddingStrips(s, |b| % 3);
  }

  lemma Base64RoundTrip(b: Octets)
    ensures Atob(Encode64(b)) == Some(b)
  {
    hide Sextets, FromSextets, Text64, Digits64, WithoutSpaces, WithoutPadding, Encode64, Digit64;
    var d := Sextets(b);
    var s := Text64(d);
    PaddingGoes(b);
    SextetCount(b);
    forall i | 0 <= i < |s| ensures Digit64(s[i]) == Some(d[i]) {
      assert s[i] == Char64(d[i]);
    }
    assert Digits64(s) == d;
    SextetsRoundTrip(b);
  }

  /* ---- hexadecimal ---- */

  function HexDigit(c: char): Option<nat> {
    if IsDigit(c) then Some(c as int - '0' as int)
    else if 'a' <= c <= 'f' then Some(c as int - 'a' as int + 10)
    else if 'A' <= c <= 'F' then Some(c as int - 'A' as int + 10)
    else None
  }

  /** /^[0-9a-fA-F]+$/ */
  predicate IsHex(s: string) {
    s != [] && forall i | 0 <= i < |s| :: HexDigit(s[i]).Some?
  }

  function HexByte(high: char, low: char): nat
    requires HexDigit(high).Some? && HexDigit(low).Some?
  {
    HexDigit(high).value * 16 + HexDigit(low).value
  }

  /** `s` writes `b` in hexadecimal, in lower case, upper case or both. */
  predicate HexWrites(s: string, b: seq<nat>) {
    |s| == 2 * |b| && forall i | 0 <= i < |b| ::
      HexDigit(s[2 * i]).Some? && HexDigit(s[2 * i + 1]).Some? && HexByte(s[2 * i], s[2 * i + 1]) == b[i]
  }

  lemma HexAlphabet(c: char, k: nat)
    ensures HexDigit(c) == Some(k) <==> k < 16 && (c == "0123456789abcdef"[k] || c == "0123456789ABCDEF"[k])
  {
  }

  lemma HexHalves(high: char, low: char, b: nat)
    ensures (HexDigit(high).Some? && HexDigit(low).Some? && HexByte(high, low) == b) <==>
        b < 256 && HexDigit(high) == Some(b / 16) && HexDigit(low) == Some(b % 16)
  {
  }

  /** Two hexadecimal digits, high half first, in either case. */
  predicate HexPair(high: char, low: char, b: nat)
    requires b < 256
  {
    && (high == "0123456789abcdef"[b / 16] || high == "0123456789ABCDEF"[b / 16])
    && (low == "0123456789abcdef"[b % 16] || low == "0123456789ABCDEF"[b % 16])
  }

  lemma HexPairExactly(high: char, low: char, b: nat)
    ensures (HexDigit(high).Some? && HexDigit(low).Some? && HexByte(high, low) == b) <==>
        b < 256 && HexPair(high, low, b)
  {
    hide HexDigit, HexByte;
    HexHalves(high, low, b);
    HexAlphabet(high, b / 16);
    HexAlphabet(low, b % 16);
  }

  /** Each byte is written by the digit of its high half and then that of its low half. */
  lemma HexWritesExactly(s: string, b: seq<nat>)
    ensures HexWrites(s, b) <==>
        |s| == 2 * |b| && forall i | 0 <= i < |b| :: b[i] < 256 && HexPair(s[2 * i], s[2 * i + 1], b[i])
  {
    hide HexDigit, HexPair, HexByte;
    if |s| == 2 * |b| {
      forall i | 0 <= i < |b|
        ensures (HexDigit(s[2 * i]).Some? && HexDigit(s[2 * i + 1]).Some? && HexByte(s[2 * i], s[2 * i + 1]) == b[i])
           <==> b[i] < 256 && HexPair(s[2 * i], s[2 * i + 1], b[i])
      {
        HexPairExactly(s[2 * i], s[2 * i + 1], b[i]);
      }
    }
  }

  function FromHex(s: string): (b: seq<nat>)
    requires |s| % 2 == 0 && forall i | 0 <= i < |s| :: HexDigit(s[i]).Some?
    ensures HexWrites(s, b)
  {
    hide HexDigit, HexByte;
    if s == [] then []
    else
      var n := |s| - 2;
      assert forall i | 0 <= i < n :: s[..n][i] == s[i];
      FromHex(s[..n]) + [HexByte(s[n], s[n + 1])]
  }

  lemma HexWritesOnce(s: string, a: seq<nat>, b: seq<nat>)
    requires HexWrites(s, a) && HexWrites(s, b)
    ensures a == b
  {
  }

  /** The loop of hexToBytes over a text the pattern has accepted. */
  method HexToBytes(hex: string) returns (bytes: array<nat>)
    requires |hex| % 2 == 0 && forall i | 0 <= i < |hex| :: HexDigit(hex[i]).Some?
    ensures fresh(bytes) && HexWrites(hex, bytes[..])
  {
    bytes := new nat[|hex| / 2];
    for i := 0 to bytes.Length
      invariant forall k | 0 <= k < i :: bytes[k] == HexByte(hex[2 * k], hex[2 * k + 1])
    {
      bytes[i] := HexByte(hex[2 * i], hex[2 * i + 1]);
    }
  }
}
