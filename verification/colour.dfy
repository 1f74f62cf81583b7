/** The hover highlight colour of the canvas (`lightenColor` in
    src/components/CanvasER.js) and the base-16 text it goes through. */
module Colour {

  /** 16 to the power `k`. */
  function Pow16(k: nat): (r: nat)
    ensures r >= 1
  {
    if k == 0 then 1 else 16 * Pow16(k - 1)
  }

  /** A base-16 digit as `Number.prototype.toString(16)` writes it (lower case). */
  function HexDigit(d: int): (c: char)
    requires 0 <= d < 16
  {
    "0123456789abcdef"[d]
  }

  predicate IsLowerHex(c: char)
  {
    '0' <= c <= '9' || 'a' <= c <= 'f'
  }

  /** The value of a lower-case base-16 digit as `parseInt(_, 16)` reads it;
      only lower-case digits are ever parsed, since they come from `toString(16)`. */
  function DigitValue(c: char): (v: int)
    requires IsLowerHex(c)
    ensures 0 <= v < 16
  {
    if '0' <= c <= '9' then c as int - '0' as int
    else c as int - 'a' as int + 10
  }

  lemma DigitValueOfHexDigit(d: int)
    requires 0 <= d < 16
    ensures IsLowerHex(HexDigit(d)) && DigitValue(HexDigit(d)) == d
  {
  }

  /** `n.toString(16)` for a non-negative integer: no leading zeros, lower case. */
  function ToHex(n: nat): (s: string)
    ensures |s| >= 1
    ensures forall i :: 0 <= i < |s| ==> IsLowerHex(s[i])
    decreases n
  {
    if n < 16 then [HexDigit(n)] else ToHex(n / 16) + [HexDigit(n % 16)]
  }

  /** `parseInt(s, 16)` on a string made only of lower-case base-16 digits. */
  function ParseHex(s: string): nat
    requires forall i :: 0 <= i < |s| ==> IsLowerHex(s[i])
  {
    if |s| == 0 then 0 else ParseHex(s[..|s| - 1]) * 16 + DigitValue(s[|s| - 1])
  }

  /** Reading back what `ToHex` wrote gives the number again. */
  lemma {:induction false} ParseToHex(n: nat)
    ensures ParseHex(ToHex(n)) == n
    decreases n
  {
    var s := ToHex(n);
    if n < 16 {
      DigitValueOfHexDigit(n);
      assert s[..0] == [];
    } else {
      ParseToHex(n / 16);
      DigitValueOfHexDigit(n % 16);
      assert s[..|s| - 1] == ToHex(n / 16);
    }
  }

  /** A number in [16^k, 2*16^k) is written with k+1 digits, the first one '1'. */
  lemma {:induction false} ToHexLeadingOne(n: nat, k: nat)
    requires Pow16(k) <= n < 2 * Pow16(k)
    ensures |ToHex(n)| == k + 1 && ToHex(n)[0] == '1'
  {
    if k == 0 {
      assert n == 1;
    } else {
      var p := Pow16(k - 1);
      assert 16 * p <= n < 32 * p;
      assert p <= n / 16 < 2 * p;
      ToHexLeadingOne(n / 16, k - 1);
    }
  }

  /** Dropping the leading digit of a base-16 numeral removes its weight. */
  lemma {:induction false} ParseHexDropLeading(s: string)
    requires |s| >= 1
    requires forall i :: 0 <= i < |s| ==> IsLowerHex(s[i])
    ensures ParseHex(s) == DigitValue(s[0]) * Pow16(|s| - 1) + ParseHex(s[1..])
    decreases |s|
  {
    if |s| == 1 {
      assert s[..0] == [] && s[1..] == [];
    } else {
      var init := s[..|s| - 1];
      ParseHexDropLeading(init);
      assert init[0] == s[0];
      assert init[1..] == s[1..][..|s[1..]| - 1];
      var d0 := DigitValue(s[0]);
      var last := DigitValue(s[|s| - 1]);
      var rest := ParseHex(init[1..]);
      var w := Pow16(|s| - 2);
      assert Pow16(|s| - 1) == 16 * w;
      assert ParseHex(s) == ParseHex(init) * 16 + last;
      assert ParseHex(init) == d0 * w + rest;
      assert s[1..][|s[1..]| - 1] == s[|s| - 1];
      assert ParseHex(s[1..]) == rest * 16 + last;
      ShiftDigit(d0, w, rest, last);
    }
  }

  /** Moving one digit of weight `w` one place up multiplies its weight by 16. */
  lemma ShiftDigit(d0: int, w: int, rest: int, last: int)
    ensures (d0 * w + rest) * 16 + last == d0 * (16 * w) + (rest * 16 + last)
  {
  }

  /** The red, green and blue channels of a 24-bit colour
      (`num >> 16`, `num >> 8 & 0xFF`, `num & 0xFF`). */
  function Red(c: int): int { c / 0x10000 }
  function Green(c: int): int { (c / 0x100) % 0x100 }
  function Blue(c: int): int { c % 0x100 }

  /** The source's nested conditional `v < 255 ? v < 1 ? 0 : v : 255`. */
  function Clamp(v: int): (c: int)
    ensures 0 <= c <= 255
    ensures 0 <= v <= 255 ==> c == v
    ensures v < 0 ==> c == 0
    ensures v > 255 ==> c == 255
  {
    if v < 255 then (if v < 1 then 0 else v) else 255
  }

  /** Packing three in-range channels and reading them back is lossless. */
  lemma PackChannels(r: int, g: int, b: int)
    requires 0 <= r <= 255 && 0 <= g <= 255 && 0 <= b <= 255
    ensures Red(r * 0x10000 + g * 0x100 + b) == r
    ensures Green(r * 0x10000 + g * 0x100 + b) == g
    ensures Blue(r * 0x10000 + g * 0x100 + b) == b
  {
  }

  /** `lightenColor` on an already-parsed colour and an integer offset `amt`:
      "#" followed by exactly six lower-case base-16 digits, whose channels are
      the input channels shifted by `amt` and clamped to 0..255. */
  function LightenColor(color: int, amt: int): (r: string)
    requires 0 <= color < 0x1000000
    ensures |r| == 7 && r[0] == '#'
    ensures forall i :: 1 <= i < 7 ==> IsLowerHex(r[i])
    ensures Red(ParseHex(r[1..])) == Clamp(Red(color) + amt)
    ensures Green(ParseHex(r[1..])) == Clamp(Green(color) + amt)
    ensures Blue(ParseHex(r[1..])) == Clamp(Blue(color) + amt)
  {
    var rr := Clamp(Red(color) + amt);
    var gg := Clamp(Green(color) + amt);
    var bb := Clamp(Blue(color) + amt);
    var packed := 0x1000000 + rr * 0x10000 + gg * 0x100 + bb;
    var hex := ToHex(packed);
    assert Pow16(6) == 0x1000000;
    ToHexLeadingOne(packed, 6);
    ParseToHex(packed);
    ParseHexDropLeading(hex);
    assert DigitValue(hex[0]) == 1;
    PackChannels(rr, gg, bb);
    var r := "#" + hex[1..];
    assert r[1..] == hex[1..];
    r
  }
}
