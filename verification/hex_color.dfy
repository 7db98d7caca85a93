/** The fill colour of a new circle (getRandomHexColor): a value drawn below
    16777215 is written in base 16 with lower-case digits, as
    Number.prototype.toString(16) does, left-padded with '0' to six digits
    and prefixed with '#'.

    Math.random is not modelled: its result is the parameter `random`. */
module HexColor {

  /** The exclusive bound the random fraction is scaled by. As it is
      exclusive, 0xffffff itself is never drawn. */
  const ColorScale: nat := 16777215

  /** The width the hexadecimal text is padded to. */
  const ColorDigits: nat := 6

  predicate IsHexDigit(c: char)
  {
    '0' <= c <= '9' || 'a' <= c <= 'f'
  }

  predicate IsHexString(s: string)
  {
    forall i :: 0 <= i < |s| ==> IsHexDigit(s[i])
  }

  /** 16 to the power k: the number of values k hexadecimal digits can write. */
  function Pow16(k: nat): (p: nat)
    ensures p >= 1
  {
    if k == 0 then 1 else 16 * Pow16(k - 1)
  }

  /** The value of one digit. */
  function DigitValue(c: char): (d: nat)
    requires IsHexDigit(c)
    ensures d < 16
  {
    if c <= '9' then c as int - '0' as int else c as int - 'a' as int + 10
  }

  /** The lower-case digit that writes d; reading it back gives d. */
  function DigitChar(d: nat): (c: char)
    requires d < 16
    ensures IsHexDigit(c)
    ensures DigitValue(c) == d
  {
    if d < 10 then ('0' as int + d) as char else ('a' as int + d - 10) as char
  }

  /** The number a string of hexadecimal digits writes, most significant
      digit first; the independent reading that the formatting is checked
      against. */
  function HexValue(s: string): (n: nat)
    requires IsHexString(s)
    ensures n < Pow16(|s|)
  {
    if s == [] then 0 else 16 * HexValue(s[..|s| - 1]) + DigitValue(s[|s| - 1])
  }

  /** Number.prototype.toString(16) on a non-negative integer: the shortest
      digit string, so at least one digit and no leading zero. */
  function ToHex(n: nat): (s: string)
    ensures |s| >= 1 && IsHexString(s)
    ensures HexValue(s) == n
    ensures |s| > 1 ==> s[0] != '0'
  {
    if n < 16 then [DigitChar(n)]
    else
      var prefix := ToHex(n / 16);
      var s := prefix + [DigitChar(n % 16)];
      assert s[..|s| - 1] == prefix;
      s
  }

  /** String.prototype.padStart with a one-character filler. */
  function PadStart(s: string, targetLength: nat, fill: char): (r: string)
    ensures |r| == if |s| < targetLength then targetLength else |s|
    ensures r[|r| - |s|..] == s
    ensures forall i :: 0 <= i < |r| - |s| ==> r[i] == fill
  {
    if |s| < targetLength then seq(targetLength - |s|, _ => fill) + s else s
  }

  /** The template string of getRandomHexColor applied to the drawn value:
      '#' and at least six hexadecimal digits that write the value. */
  function FormatColor(n: nat): (color: string)
    ensures |color| >= 1 + ColorDigits && color[0] == '#'
    ensures IsHexString(color[1..]) && HexValue(color[1..]) == n
  {
    var hex := ToHex(n);
    var padded := PadStart(hex, ColorDigits, '0');
    var zeros := padded[..|padded| - |hex|];
    assert padded == zeros + hex;
    HexValueZeroPadded(zeros, hex);
    var color := "#" + padded;
    assert color[1..] == padded;
    color
  }

  /** Math.floor(Math.random() * 16777215), for the fraction Math.random
      returned. */
  function ColorValue(random: real): (n: nat)
    requires 0.0 <= random < 1.0
    ensures n < ColorScale
  {
    (random * ColorScale as real).Floor
  }

  /** getRandomHexColor, for the fraction Math.random returned: '#' and at
      least six hexadecimal digits, writing a value below the exclusive
      bound 16777215. */
  function RandomHexColor(random: real): (color: string)
    requires 0.0 <= random < 1.0
    ensures |color| >= 1 + ColorDigits && color[0] == '#'
    ensures IsHexString(color[1..]) && HexValue(color[1..]) < ColorScale
  {
    FormatColor(ColorValue(random))
  }

  /** A value below 16^k is written in at most k digits. */
  lemma {:induction false} ToHexLength(n: nat, k: nat)
    requires 1 <= k && n < Pow16(k)
    ensures |ToHex(n)| <= k
  {
    if n >= 16 {
      ToHexLength(n / 16, k - 1);
    }
  }

  /** Leading zeros do not change the value a digit string writes. */
  lemma {:induction false} HexValueZeroPadded(zeros: string, s: string)
    requires IsHexString(zeros) && IsHexString(s)
    requires forall i :: 0 <= i < |zeros| ==> zeros[i] == '0'
    ensures IsHexString(zeros + s)
    ensures HexValue(zeros + s) == HexValue(s)
  {
    var t := zeros + s;
    assert IsHexString(t) by {
      forall i | 0 <= i < |t| ensures IsHexDigit(t[i]) {
        if i < |zeros| { assert t[i] == zeros[i]; } else { assert t[i] == s[i - |zeros|]; }
      }
    }
    if s == [] {
      assert t == zeros;
      HexValueZeros(zeros);
    } else {
      var init := s[..|s| - 1];
      assert t[..|t| - 1] == zeros + init;
      HexValueZeroPadded(zeros, init);
    }
  }

  lemma {:induction false} HexValueZeros(zeros: string)
    requires IsHexString(zeros)
    requires forall i :: 0 <= i < |zeros| ==> zeros[i] == '0'
    ensures HexValue(zeros) == 0
  {
    if zeros != [] {
      HexValueZeros(zeros[..|zeros| - 1]);
    }
  }

  /** Every value a 24-bit colour can hold is formatted as '#' followed by
      exactly six lower-case hexadecimal digits that write the value. */
  lemma FormatColorShape(n: nat)
    requires n < Pow16(ColorDigits)
    ensures var color := FormatColor(n);
      |color| == 1 + ColorDigits && color[0] == '#'
      && IsHexString(color[1..]) && HexValue(color[1..]) == n
  {
    ToHexLength(n, ColorDigits);
  }

  /** Formatting loses nothing: distinct values get distinct colours. */
  lemma FormatColorInjective(m: nat, n: nat)
    requires m < Pow16(ColorDigits) && n < Pow16(ColorDigits)
    requires FormatColor(m) == FormatColor(n)
    ensures m == n
  {
    FormatColorShape(m);
    FormatColorShape(n);
  }

  /** Every colour below 0xffffff can be produced: the fraction n / 16777215
      yields the value n. */
  lemma ColorValueCovers(n: nat)
    requires n < ColorScale
    ensures 0.0 <= n as real / ColorScale as real < 1.0
    ensures ColorValue(n as real / ColorScale as real) == n
  {
  }

  /** Every colour getRandomHexColor returns is '#' and exactly six
      lower-case hexadecimal digits, writing a value below 16777215. */
  lemma RandomHexColorShape(random: real)
    requires 0.0 <= random < 1.0
    ensures var color := RandomHexColor(random);
      |color| == 1 + ColorDigits && color[0] == '#'
      && IsHexString(color[1..]) && HexValue(color[1..]) < ColorScale
  {
    FormatColorShape(ColorValue(random));
  }

  /** No value below the exclusive bound is formatted as white, "#ffffff". */
  lemma FormatColorNotWhite(n: nat)
    requires n < ColorScale
    ensures FormatColor(n) != "#ffffff"
  {
    assert Pow16(ColorDigits) == 16777216;
    FormatColorShape(n);
    var white: string := "#ffffff";
    assert white[1..] == "ffffff";
    assert "ffffff"[..5] == "fffff";
    assert "fffff"[..4] == "ffff";
    assert "ffff"[..3] == "fff";
    assert "fff"[..2] == "ff";
    assert "ff"[..1] == "f";
    assert "f"[..0] == "";
    assert HexValue("ffffff") == 16777215;
  }

  /** A 24-bit colour can be white, "#ffffff", but getRandomHexColor never
      returns it: the bound it scales by is exclusive. */
  lemma RandomHexColorNeverWhite(random: real)
    requires 0.0 <= random < 1.0
    ensures RandomHexColor(random) != "#ffffff"
  {
    FormatColorNotWhite(ColorValue(random));
  }
}
