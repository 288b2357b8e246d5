// string_to_IV of libhlsanalysis/src/cm3u8parse.cpp: the IV attribute of a key line.
module KeyIvs {

  const AES_BLOCK_SIZE: int := 16

  type Byte = x: int | 0 <= x < 256

  // ---------------------------------------------------------------- numbers in base 256 and base 16

  function Power(b: nat, n: nat): nat {
    if n == 0 then 1 else b * Power(b, n - 1)
  }

  function BigEndian(bytes: seq<Byte>): nat {
    if bytes == [] then 0 else BigEndian(bytes[..|bytes| - 1]) * 256 + bytes[|bytes| - 1]
  }

  predicate IsHexDigit(c: char) {
    '0' <= c <= '9' || 'a' <= c <= 'f' || 'A' <= c <= 'F'
  }

  function Digit(c: char): (d: nat)
    requires IsHexDigit(c)
    ensures d < 16
  {
    if '0' <= c <= '9' then c as int - '0' as int
    else if 'a' <= c <= 'f' then c as int - 'a' as int + 10
    else c as int - 'A' as int + 10
  }

  predicate HexDigits(s: string) {
    forall c <- s :: IsHexDigit(c)
  }

  function HexValue(s: string): nat
    requires HexDigits(s)
  {
    if s == "" then 0 else HexValue(s[..|s| - 1]) * 16 + Digit(s[|s| - 1])
  }

  /** The digits by their values, in both cases. */
  lemma DigitsByText(i: nat)
    ensures i < 16 ==> IsHexDigit("0123456789abcdef"[i]) && Digit("0123456789abcdef"[i]) == i
    ensures i < 6 ==> IsHexDigit("ABCDEF"[i]) && Digit("ABCDEF"[i]) == 10 + i
  {
  }

  /** No other characters are digits. */
  lemma OnlyDigits(c: char)
    requires IsHexDigit(c)
    ensures c in "0123456789" || c in "abcdef" || c in "ABCDEF"
  {
    if '0' <= c <= '9' {
      assert "0123456789"[c as int - '0' as int] == c;
    } else if 'a' <= c <= 'f' {
      assert "abcdef"[c as int - 'a' as int] == c;
    } else {
      assert "ABCDEF"[c as int - 'A' as int] == c;
    }
  }

  /** The first digit and the first byte count most. */
  lemma FirstHighest()
    ensures HexDigits("1f0") && HexValue("1f0") == 0x1f0 && BigEndian([1, 2]) == 0x102
  {
    assert [1, 2][..1] == [1] && [1][..0] == [];
    assert "1f0"[..2] == "1f" && "1f"[..1] == "1" && "1"[..0] == "";
  }

  lemma {:induction false} BigEndianConcat(a: seq<Byte>, b: seq<Byte>)
    ensures BigEndian(a + b) == BigEndian(a) * Power(256, |b|) + BigEndian(b)
  {
    if b == [] {
      assert a + b == a;
    } else {
      var front, last := b[..|b| - 1], b[|b| - 1];
      assert (a + b)[..|a + b| - 1] == a + front;
      BigEndianConcat(a, front);
      calc {
        BigEndian(a + b);
        (BigEndian(a) * Power(256, |front|) + BigEndian(front)) * 256 + last;
        { Shuffle(BigEndian(a), 256, Power(256, |front|)); }
        BigEndian(a) * Power(256, |b|) + BigEndian(b);
      }
    }
  }

  lemma Shuffle(x: int, base: int, p: int)
    ensures x * p * base == x * (base * p)
  {
  }

  lemma {:induction false} HexConcat(a: string, b: string)
    requires HexDigits(a) && HexDigits(b)
    ensures HexDigits(a + b)
    ensures HexValue(a + b) == HexValue(a) * Power(16, |b|) + HexValue(b)
  {
    if b == "" {
      assert a + b == a;
    } else {
      var front := b[..|b| - 1];
      assert (a + b)[..|a + b| - 1] == a + front;
      HexConcat(a, front);
      Shuffle(HexValue(a), 16, Power(16, |front|));
    }
  }

  lemma {:induction false} HexBelow(s: string)
    requires HexDigits(s)
    ensures HexValue(s) < Power(16, |s|)
  {
    if s != "" {
      HexBelow(s[..|s| - 1]);
    }
  }

  // ---------------------------------------------------------------- strtoull in base 16

  predicate IsSpace(c: char) {
    c == ' ' || '\t' <= c <= '\r'
  }

  function SkipSpace(s: string): string {
    if s != "" && IsSpace(s[0]) then SkipSpace(s[1..]) else s
  }

  /** The digits s starts with. */
  function LeadingDigits(s: string): (d: string)
    ensures HexDigits(d)
  {
    if s != "" && IsHexDigit(s[0]) then [s[0]] + LeadingDigits(s[1..]) else ""
  }

  function SkipPrefix(s: string): string {
    if |s| > 2 && s[0] == '0' && (s[1] == 'x' || s[1] == 'X') && IsHexDigit(s[2]) then s[2..] else s
  }

  const ULLONG_MAX: nat := 0xffff_ffff_ffff_ffff

  /** Leading white space, a sign, a prefix, then digits; too large a value gives ULLONG_MAX. */
  function StrToULL(s: string): (r: nat)
    ensures r <= ULLONG_MAX
  {
    var t := SkipSpace(s);
    var negative := t != "" && t[0] == '-';
    var digits := LeadingDigits(SkipPrefix(if negative || (t != "" && t[0] == '+') then t[1..] else t));
    var value := HexValue(digits);
    if value > ULLONG_MAX then ULLONG_MAX
    else if negative && value > 0 then ULLONG_MAX + 1 - value
    else value
  }

  lemma {:induction false} AllDigits(s: string)
    requires HexDigits(s)
    ensures LeadingDigits(s) == s
  {
    if s != "" {
      assert s[0] in s;
      AllDigits(s[1..]);
    }
  }

  /** On digits alone it is their value, cut off at ULLONG_MAX. */
  lemma StrToULLOfDigits(s: string)
    requires HexDigits(s)
    ensures StrToULL(s) == if HexValue(s) > ULLONG_MAX then ULLONG_MAX else HexValue(s)
  {
    hide LeadingDigits, HexValue;
    AllDigits(s);
    if s != "" {
      assert s[0] in s;
      if |s| > 1 {
        assert s[1] in s;
      }
    }
    assert SkipSpace(s) == s && SkipPrefix(s) == s;
  }

  /** What strtoull makes of other texts: blanks, a sign, a prefix, and anything behind the digits. */
  lemma StrToULLByText()
    ensures StrToULL(" \t1g") == 1 && StrToULL("-1") == 0xffff_ffff_ffff_ffff && StrToULL("+f") == 15
    ensures StrToULL("0xa") == 10 && StrToULL("0x") == 0 && StrToULL("") == 0
  {
    BlanksByText();
    SignsByText();
    PrefixesByText();
    hide StrToULL;
  }

  lemma BlanksByText()
    ensures StrToULL(" \t1g") == 1
  {
    assert HexValue("1") == 1;
    hide HexValue;
    assert " \t1g"[1..] == "\t1g" && "\t1g"[1..] == "1g" && SkipSpace("1g") == "1g";
    assert SkipSpace("\t1g") == "1g" && SkipSpace(" \t1g") == "1g";
    assert LeadingDigits("1g"[1..]) == "" && LeadingDigits("1g") == "1";
  }

  lemma SignsByText()
    ensures StrToULL("-1") == 0xffff_ffff_ffff_ffff && StrToULL("+f") == 15
  {
    assert HexValue("1") == 1 && HexValue("f") == 15;
    hide HexValue;
    assert "-1"[1..] == "1" && LeadingDigits("1") == "1";
    assert "+f"[1..] == "f" && LeadingDigits("f") == "f";
  }

  lemma PrefixesByText()
    ensures StrToULL("0xa") == 10 && StrToULL("0x") == 0 && StrToULL("") == 0
  {
    assert HexValue("a") == 10 && HexValue("0") == 0;
    assert HexDigits("") && LeadingDigits("") == "" && HexValue("") == 0;
    hide HexValue;
    assert "0xa"[2..] == "a" && LeadingDigits("a") == "a";
    assert "0x"[0] == '0' && LeadingDigits("0x") == "0";
  }

  // ---------------------------------------------------------------- the IV

  /**
   * The halves are what strtoull makes of the last 16 characters and of those before them. The IV of
   * a hexadecimal number is its big-endian form exactly when the number fits in it.
   */
  ghost predicate HoldsIv(iv: seq<Byte>, digits: string) {
    && |iv| == AES_BLOCK_SIZE && |digits| > 16
    && BigEndian(iv[..8]) == StrToULL(digits[..|digits| - 16])
    && BigEndian(iv[8..]) == StrToULL(digits[|digits| - 16..])
    && (HexDigits(digits) ==> (BigEndian(iv) == HexValue(digits) <==> HexValue(digits) < Power(2, 128)))
  }

  /**
   * Up to 16 characters behind the prefix are always refused, and more than 16 never: the end
   * pointer that is looked at is set only in the first case. Nothing is stored on a refusal.
   */
  method string_to_IV(string_hexa: string, iv: array<Byte>) returns (ok: bool)
    requires iv.Length == AES_BLOCK_SIZE
    modifies iv
    ensures ok <==> ("0x" <= string_hexa || "0X" <= string_hexa) && |string_hexa| > 18
    ensures !ok ==> iv[..] == old(iv[..])
    ensures ok ==> HoldsIv(iv[..], string_hexa[2..])
  {
    hide StrToULL, BigEndian, HoldsIv;
    if string_hexa == "" || string_hexa[0] != '0' {
      return false;
    }
    if |string_hexa| == 1 || (string_hexa[1] != 'x' && string_hexa[1] != 'X') {
      return false;
    }
    var digits := string_hexa[2..];
    var len := |digits|;
    if len <= 16 {
      return false;
    }
    var iv_lo := StrToULL(digits[len - 16..]);
    var iv_hi := StrToULL(digits[..len - 16]);
    StoreWords(iv, iv_hi, iv_lo);
    IvMeans(iv, digits);
    return true;
  }

  lemma IvMeans(iv: array<Byte>, digits: string)
    requires iv.Length == AES_BLOCK_SIZE && |digits| > 16
    requires BigEndian(iv[..8]) == StrToULL(digits[..|digits| - 16])
    requires BigEndian(iv[8..]) == StrToULL(digits[|digits| - 16..])
    ensures HoldsIv(iv[..], digits)
  {
    hide StrToULL, HexValue, BigEndian, Power, HexDigits;
    assert iv[..][..8] == iv[..8] && iv[..][8..] == iv[8..];
    if HexDigits(digits) {
      IvIsValue(digits, iv[..]);
    }
  }

  /** The bytes of two words, highest first, filled from the back. */
  method StoreWords(iv: array<Byte>, hi: nat, lo: nat)
    requires iv.Length == AES_BLOCK_SIZE && hi <= ULLONG_MAX && lo <= ULLONG_MAX
    modifies iv
    ensures BigEndian(iv[..8]) == hi && BigEndian(iv[8..]) == lo
  {
    hide BigEndian, Halfway;
    var iv_hi, iv_lo, i := hi, lo, 7;
    StartHalves(iv, hi, lo);
    while i >= 0
      invariant -1 <= i <= 7
      invariant Halfway(iv, i + 1, iv_hi, iv_lo, hi, lo)
    {
      StorePair(iv, i, iv_hi, iv_lo, hi, lo);
      iv_hi := iv_hi / 256;
      iv_lo := iv_lo / 256;
      i := i - 1;
    }
    EndHalves(iv, i + 1, iv_hi, iv_lo, hi, lo);
  }

  /** Both halves are stored from byte k on. */
  ghost predicate Halfway(iv: array<Byte>, k: int, iv_hi: nat, iv_lo: nat, hi: nat, lo: nat)
    reads iv
  {
    && iv.Length == AES_BLOCK_SIZE && 0 <= k <= 8
    && Stored(iv_hi, iv[k..8], hi) && Stored(iv_lo, iv[8 + k..16], lo)
  }

  lemma StartHalves(iv: array<Byte>, hi: nat, lo: nat)
    requires iv.Length == AES_BLOCK_SIZE && hi <= ULLONG_MAX && lo <= ULLONG_MAX
    ensures Halfway(iv, 8, hi, lo, hi, lo)
  {
    NoneStored(hi);
    NoneStored(lo);
    assert iv[8..8] == [] == iv[16..16];
  }

  lemma EndHalves(iv: array<Byte>, k: int, iv_hi: nat, iv_lo: nat, hi: nat, lo: nat)
    requires Halfway(iv, k, iv_hi, iv_lo, hi, lo) && k == 0
    ensures BigEndian(iv[..8]) == hi && BigEndian(iv[8..]) == lo
  {
    hide BigEndian, Stored;
    AllStored(iv_hi, iv[k..8], hi);
    AllStored(iv_lo, iv[8 + k..16], lo);
    assert iv[..8] == iv[k..8] && iv[8..] == iv[8 + k..16];
  }

  /** The low byte of each word. */
  method StorePair(iv: array<Byte>, i: nat, iv_hi: nat, iv_lo: nat, ghost hi: nat, ghost lo: nat)
    requires Halfway(iv, i + 1, iv_hi, iv_lo, hi, lo)
    modifies iv
    ensures Halfway(iv, i, iv_hi / 256, iv_lo / 256, hi, lo)
  {
    hide Stored;
    StoreOne(iv_hi, iv[i + 1..8], hi);
    StoreOne(iv_lo, iv[9 + i..16], lo);
    iv[i] := iv_hi % 256;
    iv[8 + i] := iv_lo % 256;
    assert iv[i..8] == [iv_hi % 256] + old(iv[i + 1..8]);
    assert iv[8 + i..16] == [iv_lo % 256] + old(iv[9 + i..16]);
  }

  /** The bytes stored so far are the low ones of word; the rest is still in left. */
  ghost predicate Stored(left: nat, bytes: seq<Byte>, word: nat) {
    && |bytes| <= 8
    && word == left * Power(256, |bytes|) + BigEndian(bytes)
    && left < Power(256, 8 - |bytes|)
  }

  lemma NoneStored(word: nat)
    requires word <= ULLONG_MAX
    ensures Stored(word, [], word)
  {
    assert Power(256, 4) == 256 * (256 * (256 * (256 * Power(256, 0))));
    assert Power(256, 8) == 256 * (256 * (256 * (256 * Power(256, 4))));
  }

  lemma StoreOne(left: nat, bytes: seq<Byte>, word: nat)
    requires Stored(left, bytes, word) && |bytes| < 8
    ensures Stored(left / 256, [left % 256] + bytes, word)
  {
    var first: Byte, p := left % 256, Power(256, |bytes|);
    BigEndianConcat([first], bytes);
    assert BigEndian([first][..0]) == 0;
    Split(left / 256, first, p);
  }

  lemma Split(high: int, low: int, p: int)
    ensures (high * 256 + low) * p == high * (256 * p) + low * p
  {
  }

  lemma AllStored(left: nat, bytes: seq<Byte>, word: nat)
    requires Stored(left, bytes, word) && |bytes| == 8
    ensures BigEndian(bytes) == word
  {
  }

  /**
   * The 16 bytes are the big-endian form of the hexadecimal number exactly when it fits in them,
   * as every number of 17 to 32 digits does. The high half of a longer one is cut off at its largest value.
   */
  lemma IvIsValue(digits: string, iv: seq<Byte>)
    requires HexDigits(digits) && |digits| > 16 && |iv| == AES_BLOCK_SIZE
    requires BigEndian(iv[..8]) == StrToULL(digits[..|digits| - 16])
    requires BigEndian(iv[8..]) == StrToULL(digits[|digits| - 16..])
    ensures BigEndian(iv) == HexValue(digits) <==> HexValue(digits) < Power(2, 128)
    ensures |digits| <= 32 ==> BigEndian(iv) == HexValue(digits)
  {
    hide StrToULL, HexValue, BigEndian, Power;
    var high, low := digits[..|digits| - 16], digits[|digits| - 16..];
    assert digits == high + low && iv == iv[..8] + iv[8..];
    HexConcat(high, low);
    BigEndianConcat(iv[..8], iv[8..]);
    StrToULLOfDigits(high);
    StrToULLOfDigits(low);
    HexBelow(high);
    HexBelow(low);
    Powers();
    if |digits| <= 32 {
      PowerGrows(16, |high|, 16);
    }
  }

  /** 16^16 == 256^8 == 2^64, and 2^128 is its square. */
  lemma Powers()
    ensures Power(16, 16) == Power(256, 8) == ULLONG_MAX + 1
    ensures Power(2, 128) == (ULLONG_MAX + 1) * (ULLONG_MAX + 1)
  {
    hide Power;
    PowerSum(2, 64, 64);
    PowerSum(2, 32, 32);
    PowerSum(2, 16, 16);
    PowerSum(2, 8, 8);
    PowerSum(16, 8, 8);
    PowerSum(256, 4, 4);
    SmallPowers();
  }

  lemma SmallPowers()
    ensures Power(2, 8) == 256 && Power(256, 4) == 0x1_0000_0000 == Power(16, 8)
  {
    PowerSum(2, 4, 4);
    PowerSum(16, 4, 4);
    PowerSum(256, 2, 2);
    PowerSum(16, 2, 2);
    PowerSum(2, 2, 2);
    assert Power(2, 1) == 2 * Power(2, 0) && Power(2, 2) == 2 * Power(2, 1);
    assert Power(16, 1) == 16 * Power(16, 0) && Power(16, 2) == 16 * Power(16, 1);
    assert Power(256, 1) == 256 * Power(256, 0) && Power(256, 2) == 256 * Power(256, 1);
  }

  lemma {:induction false} PowerSum(b: nat, m: nat, n: nat)
    ensures Power(b, m + n) == Power(b, m) * Power(b, n)
  {
    if m > 0 {
      PowerSum(b, m - 1, n);
      Regroup(b, Power(b, m - 1), Power(b, n));
    }
  }

  lemma Regroup(x: int, y: int, z: int)
    ensures x * (y * z) == x * y * z
  {
  }

  lemma {:induction false} PowerGrows(b: nat, m: nat, n: nat)
    requires b > 0 && m <= n
    ensures 0 < Power(b, m) <= Power(b, n)
    decreases n
  {
    if m > 0 {
      PowerGrows(b, m - 1, n - 1);
      Grow(b, Power(b, m - 1), Power(b, n - 1));
    } else if n > 0 {
      PowerGrows(b, 0, n - 1);
      Grow(b, 1, Power(b, n - 1));
    }
  }

  lemma Grow(b: nat, x: nat, y: nat)
    requires b > 0 && 0 < x <= y
    ensures 0 < b * x <= b * y && x <= b * y
  {
  }
}
