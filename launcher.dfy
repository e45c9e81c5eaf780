/**
 * The launcher's colour helper, GameLauncher.darken_color: strip leading '#'s,
 * read the characters [0:2], [2:4] and [4:6] as base-16 integers the way
 * Python's int(s, 16) does, scale each by (1 - factor) truncating toward zero,
 * floor at 0 and format each as at least two lowercase hex digits after a '#'.
 * A field int() rejects is the ValueError result None.
 */
module Launcher {
  import opened Common

  predicate IsHexDigit(c: char)
  {
    '0' <= c <= '9' || 'a' <= c <= 'f' || 'A' <= c <= 'F'
  }

  predicate IsLowerHexDigit(c: char)
  {
    '0' <= c <= '9' || 'a' <= c <= 'f'
  }

  predicate AllHex(s: string)
  {
    forall i :: 0 <= i < |s| ==> IsHexDigit(s[i])
  }

  function HexValue(c: char): (v: nat)
    requires IsHexDigit(c)
    ensures v < 16
  {
    if '0' <= c <= '9' then (c - '0') as nat
    else if 'a' <= c <= 'f' then (c - 'a') as nat + 10
    else (c - 'A') as nat + 10
  }

  /** The lowercase digit that format(v, 'x') writes for v < 16. */
  function HexChar(v: nat): (c: char)
    requires v < 16
    ensures IsLowerHexDigit(c) && IsHexDigit(c) && HexValue(c) == v
  {
    if v < 10 then ('0' as int + v) as char else ('a' as int + v - 10) as char
  }

  /** A hex digit written in lowercase. */
  function LowerHex(c: char): (d: char)
    requires IsHexDigit(c)
    ensures IsLowerHexDigit(d) && HexValue(d) == HexValue(c)
  {
    if 'A' <= c <= 'F' then (c - 'A' + 'a') as char else c
  }

  lemma HexCharOfValue(c: char)
    requires IsHexDigit(c)
    ensures HexChar(HexValue(c)) == LowerHex(c)
  {
  }

  /** str.lstrip('#'). */
  function LStripHash(s: string): string
  {
    if s != [] && s[0] == '#' then LStripHash(s[1..]) else s
  }

  /** Stripping removes exactly the leading '#' characters and keeps the rest. */
  lemma {:induction false} LStripHashSpec(s: string)
    ensures var r := LStripHash(s);
      |r| <= |s| && r == s[|s| - |r|..] && (r == [] || r[0] != '#') &&
      forall i :: 0 <= i < |s| - |r| ==> s[i] == '#'
  {
    if s != [] && s[0] == '#' {
      LStripHashSpec(s[1..]);
      var r := LStripHash(s);
      assert s[1..][|s| - 1 - |r|..] == s[|s| - |r|..];
      forall i | 0 <= i < |s| - |r| ensures s[i] == '#' {
        if i > 0 {
          assert s[i] == s[1..][i - 1];
        }
      }
    }
  }

  /** Leading '#' characters make no difference. */
  lemma LStripHashPrefix(s: string)
    ensures LStripHash("#" + s) == LStripHash(s)
  {
    assert ("#" + s)[1..] == s;
  }

  /** Python's s[i:j] on a string: indices are clamped to the string. */
  function Slice(s: string, i: nat, j: nat): (r: string)
    ensures i <= j <= |s| ==> r == s[i..j]
    ensures i < |s| <= j ==> r == s[i..]
    ensures i >= |s| || j <= i ==> r == []
  {
    if i >= |s| || j <= i then []
    else if j >= |s| then s[i..]
    else s[i..j]
  }

  /** The ASCII whitespace int() strips around its argument. */
  predicate IsSpace(c: char)
  {
    c == ' ' || c == '\t' || c == '\n' || c == '\r' || c as int == 11 || c as int == 12
  }

  function TrimLeft(s: string): string
  {
    if s != [] && IsSpace(s[0]) then TrimLeft(s[1..]) else s
  }

  function TrimRight(s: string): string
  {
    if s != [] && IsSpace(s[|s| - 1]) then TrimRight(s[..|s| - 1]) else s
  }

  /** int() strips the leading whitespace and keeps the rest. */
  lemma {:induction false} TrimLeftSpec(s: string)
    ensures var r := TrimLeft(s); |r| <= |s| && (r == [] || !IsSpace(r[0])) && r == s[|s| - |r|..]
  {
    if s != [] && IsSpace(s[0]) {
      TrimLeftSpec(s[1..]);
      var r := TrimLeft(s);
      assert s[1..][|s| - 1 - |r|..] == s[|s| - |r|..];
    }
  }

  /** int() strips the trailing whitespace and keeps the rest. */
  lemma {:induction false} TrimRightSpec(s: string)
    ensures var r := TrimRight(s); |r| <= |s| && (r == [] || !IsSpace(r[|r| - 1])) && r == s[..|r|]
  {
    if s != [] && IsSpace(s[|s| - 1]) {
      TrimRightSpec(s[..|s| - 1]);
      var r := TrimRight(s);
      assert s[..|s| - 1][..|r|] == s[..|r|];
    }
  }

  /** The value of a string of hex digits, most significant first. */
  function DigitsValue(d: string): (v: nat)
    requires AllHex(d)
  {
    if d == [] then 0 else 16 * DigitsValue(d[..|d| - 1]) + HexValue(d[|d| - 1])
  }

  function Pow16(n: nat): (p: nat)
    ensures p >= 1
  {
    if n == 0 then 1 else 16 * Pow16(n - 1)
  }

  lemma {:induction false} DigitsValueBound(d: string)
    requires AllHex(d)
    ensures DigitsValue(d) < Pow16(|d|)
  {
    if d != [] {
      DigitsValueBound(d[..|d| - 1]);
    }
  }

  /** int(s, 16): surrounding whitespace, an optional sign, then one or more hex
      digits; anything else is a ValueError (None). */
  function ParseInt16(s: string): (r: Option<int>)
  {
    var t := TrimRight(TrimLeft(s));
    if t == [] then None
    else
      var neg := t[0] == '-';
      var digits := if t[0] == '+' || t[0] == '-' then t[1..] else t;
      if digits == [] || !AllHex(digits) then None
      else
        var v: int := DigitsValue(digits);
        Some(if neg then -v else v)
  }

  /** A field of at most two characters reads as at most 0xff. */
  lemma ParseShortBound(s: string)
    requires |s| <= 2 && ParseInt16(s).Some?
    ensures ParseInt16(s).value <= 255
  {
    TrimLeftSpec(s);
    TrimRightSpec(TrimLeft(s));
    var t := TrimRight(TrimLeft(s));
    var digits := if t[0] == '+' || t[0] == '-' then t[1..] else t;
    DigitsValueBound(digits);
    assert Pow16(|digits|) <= 256 by {
      assert |digits| <= 2;
      if |digits| == 2 {
        assert Pow16(2) == 256;
      }
    }
  }

  /** Two hex digits read back as 16 * first + second. */
  lemma ParseTwoDigits(s: string)
    requires |s| == 2 && AllHex(s)
    ensures ParseInt16(s) == Some(16 * HexValue(s[0]) + HexValue(s[1]))
  {
    assert !IsSpace(s[0]) && !IsSpace(s[1]);
    assert TrimLeft(s) == s;
    assert TrimRight(s) == s;
    assert s[0] != '+' && s[0] != '-';
    assert s[..1] == [s[0]] && s[..1][..0] == [];
    assert DigitsValue(s[..1]) == HexValue(s[0]);
    assert DigitsValue(s) == 16 * HexValue(s[0]) + HexValue(s[1]);
  }

  /** format(n, 'x'): the lowercase hex digits of n, without leading zeros. */
  function Hex(n: nat): (s: string)
    ensures |s| >= 1 && forall i :: 0 <= i < |s| ==> IsLowerHexDigit(s[i])
    ensures n < 16 <==> |s| == 1
  {
    if n < 16 then [HexChar(n)] else Hex(n / 16) + [HexChar(n % 16)]
  }

  /** format(n, 'x') reads back as n, and its first digit is 0 only for n == 0. */
  lemma {:induction false} HexDenotes(n: nat)
    ensures AllHex(Hex(n)) && DigitsValue(Hex(n)) == n
    ensures n >= 16 ==> Hex(n)[0] != '0'
  {
    var s := Hex(n);
    if n < 16 {
      assert s[..0] == [];
    } else {
      var h := Hex(n / 16);
      HexDenotes(n / 16);
      assert s == h + [HexChar(n % 16)];
      assert s[..|s| - 1] == h;
      assert s[0] == h[0];
      if n / 16 < 16 {
        assert HexValue(h[0]) == n / 16;
      }
    }
  }

  /** format(n, '02x') for n >= 0: Hex padded with zeros to width two. */
  function Pad2(n: nat): (s: string)
    ensures |s| >= 2 && forall i :: 0 <= i < |s| ==> IsLowerHexDigit(s[i])
    ensures n < 256 ==> s == [HexChar(n / 16), HexChar(n % 16)]
  {
    if n < 16 then
      assert HexChar(0) == '0';
      "0" + Hex(n)
    else
      assert n < 256 ==> Hex(n / 16) == [HexChar(n / 16)];
      Hex(n)
  }

  lemma MulNonNegative(a: real, b: real)
    requires a >= 0.0 && b >= 0.0
    ensures a * b >= 0.0
  {
  }

  /** One channel: max(0, int(c * (1 - factor))). */
  function DarkenChannel(c: int, factor: real): (d: nat)
    ensures 0.0 <= factor <= 1.0 ==> d <= MaxInt(0, c)
    ensures factor == 0.0 ==> d == MaxInt(0, c)
    ensures factor >= 1.0 && c >= 0 ==> d == 0
    ensures factor == 1.0 ==> d == 0
  {
    var scaled := c as real * (1.0 - factor);
    var t := Trunc(scaled);
    assert 0.0 <= factor <= 1.0 && c >= 0 ==> scaled <= c as real by {
      if 0.0 <= factor <= 1.0 && c >= 0 {
        MulNonNegative(c as real, factor);
      }
    }
    assert factor >= 1.0 && c >= 0 ==> scaled <= 0.0 by {
      if factor >= 1.0 && c >= 0 {
        MulNonNegative(c as real, factor - 1.0);
      }
    }
    if t < 0 then 0 else t
  }

  /** The three channels read from the stripped colour. */
  function Channels(color: string): Option<(int, int, int)>
  {
    var c := LStripHash(color);
    match (ParseInt16(Slice(c, 0, 2)), ParseInt16(Slice(c, 2, 4)), ParseInt16(Slice(c, 4, 6)))
    case (Some(r), Some(g), Some(b)) => Some((r, g, b))
    case _ => None
  }

  /** GameLauncher.darken_color. */
  function DarkenColor(color: string, factor: real): Option<string>
  {
    match Channels(color)
    case None => None
    case Some((r, g, b)) => Some(Render(DarkenChannel(r, factor), DarkenChannel(g, factor), DarkenChannel(b, factor)))
  }

  /** f'#{r:02x}{g:02x}{b:02x}'. */
  function Render(r: nat, g: nat, b: nat): (s: string)
    ensures |s| >= 7 && s[0] == '#'
    ensures r < 256 && g < 256 && b < 256 ==> |s| == 7 && s[1..] == Pad2(r) + Pad2(g) + Pad2(b)
  {
    "#" + Pad2(r) + Pad2(g) + Pad2(b)
  }

  lemma RenderBlack()
    ensures Render(0, 0, 0) == "#000000"
  {
  }

  lemma ChannelsBounded(color: string)
    requires Channels(color).Some?
    ensures var (r, g, b) := Channels(color).value; r <= 255 && g <= 255 && b <= 255
  {
    var c := LStripHash(color);
    ParseShortBound(Slice(c, 0, 2));
    ParseShortBound(Slice(c, 2, 4));
    ParseShortBound(Slice(c, 4, 6));
  }

  /** For 0 <= factor <= 1 the result is '#' and exactly six lowercase hex digits. */
  lemma DarkenColorFormat(color: string, factor: real)
    requires 0.0 <= factor <= 1.0 && DarkenColor(color, factor).Some?
    ensures var s := DarkenColor(color, factor).value;
      |s| == 7 && s[0] == '#' && forall i :: 1 <= i < 7 ==> IsLowerHexDigit(s[i])
  {
    ChannelsBounded(color);
  }

  /** "#3498db" and "3498db" give the same answer. */
  lemma DarkenColorIgnoresHash(color: string, factor: real)
    ensures DarkenColor("#" + color, factor) == DarkenColor(color, factor)
  {
    LStripHashPrefix(color);
    assert Channels("#" + color) == Channels(color);
  }

  /** Lowercase every digit of a hex string. */
  function LowerAll(s: string): (r: string)
    requires AllHex(s)
    ensures |r| == |s|
  {
    seq(|s|, i requires 0 <= i < |s| => LowerHex(s[i]))
  }

  /** A two-digit field read and written back with factor 0 is its own lowercase. */
  lemma FieldRoundTrip(field: string)
    requires |field| == 2 && AllHex(field)
    ensures ParseInt16(field).Some?
    ensures Pad2(DarkenChannel(ParseInt16(field).value, 0.0)) == LowerAll(field)
  {
    ParseTwoDigits(field);
    var v := 16 * HexValue(field[0]) + HexValue(field[1]);
    assert v / 16 == HexValue(field[0]) && v % 16 == HexValue(field[1]);
    assert DarkenChannel(v, 0.0) == v;
    HexCharOfValue(field[0]);
    HexCharOfValue(field[1]);
  }

  lemma LowerAllSplit(s: string, k: nat)
    requires AllHex(s) && k <= |s|
    ensures AllHex(s[..k]) && AllHex(s[k..])
    ensures LowerAll(s) == LowerAll(s[..k]) + LowerAll(s[k..])
  {
    assert AllHex(s[..k]) && AllHex(s[k..]);
  }

  /** Six hex digits split into the three two-digit fields. */
  lemma SixDigitFields(c: string)
    requires |c| >= 6 && AllHex(c[..6])
    ensures Slice(c, 0, 2) == c[..6][..2] && Slice(c, 2, 4) == c[..6][2..][..2] && Slice(c, 4, 6) == c[..6][2..][2..]
    ensures LowerAll(c[..6]) == LowerAll(Slice(c, 0, 2)) + LowerAll(Slice(c, 2, 4)) + LowerAll(Slice(c, 4, 6))
    ensures AllHex(Slice(c, 0, 2)) && AllHex(Slice(c, 2, 4)) && AllHex(Slice(c, 4, 6))
  {
    var six := c[..6];
    LowerAllSplit(six, 2);
    LowerAllSplit(six[2..], 2);
  }

  /** With factor 0, six leading hex digits come back as themselves in lowercase. */
  lemma DarkenByZeroIsLowercase(color: string)
    requires var c := LStripHash(color); |c| >= 6 && AllHex(c[..6])
    ensures DarkenColor(color, 0.0) == Some("#" + LowerAll(LStripHash(color)[..6]))
  {
    var c := LStripHash(color);
    SixDigitFields(c);
    var f0, f1, f2 := Slice(c, 0, 2), Slice(c, 2, 4), Slice(c, 4, 6);
    FieldRoundTrip(f0);
    FieldRoundTrip(f1);
    FieldRoundTrip(f2);
    var v0, v1, v2 := ParseInt16(f0).value, ParseInt16(f1).value, ParseInt16(f2).value;
    assert Channels(color) == Some((v0, v1, v2));
    var l0, l1, l2 := LowerAll(f0), LowerAll(f1), LowerAll(f2);
    assert Render(DarkenChannel(v0, 0.0), DarkenChannel(v1, 0.0), DarkenChannel(v2, 0.0)) == "#" + l0 + l1 + l2;
    ConcatAssoc("#", l0, l1, l2);
  }

  lemma ConcatAssoc(a: string, b: string, c: string, d: string)
    ensures a + b + c + d == a + (b + c + d)
  {
  }

  /** With factor 1 every channel is zero; above 1, every channel read as non-negative is. */
  lemma DarkenFullyIsBlack(color: string, factor: real)
    requires Channels(color).Some?
    requires factor == 1.0 || (factor > 1.0 && var (r, g, b) := Channels(color).value; r >= 0 && g >= 0 && b >= 0)
    ensures DarkenColor(color, factor) == Some("#000000")
  {
    var (r, g, b) := Channels(color).value;
    assert DarkenChannel(r, factor) == 0 && DarkenChannel(g, factor) == 0 && DarkenChannel(b, factor) == 0;
    RenderBlack();
  }

  lemma ChannelsFromFields(color: string, r: int, g: int, b: int)
    requires var c := LStripHash(color);
      ParseInt16(Slice(c, 0, 2)) == Some(r) && ParseInt16(Slice(c, 2, 4)) == Some(g) && ParseInt16(Slice(c, 4, 6)) == Some(b)
    ensures Channels(color) == Some((r, g, b))
  {
  }

  lemma RenderDarkRed()
    ensures Render(15, 0, 0) == "#0f0000"
  {
  }

  lemma ParseZeroZero()
    ensures ParseInt16("00") == Some(0)
  {
    ParseTwoDigits("00");
    assert "00"[0] == '0' && "00"[1] == '0' && HexValue('0') == 0;
  }

  lemma ParseMinusF()
    ensures ParseInt16("-f") == Some(-15)
  {
    assert TrimLeft("-f") == "-f";
    assert TrimRight("-f") == "-f";
    assert "-f"[1..] == "f" && "f"[..0] == [];
    assert DigitsValue("f") == 15;
  }

  /** A negative field such as "-f" is read by int() and, for a factor above 1,
      comes out positive: the darkening is not always toward black. */
  lemma NegativeFieldBrightens()
    ensures DarkenColor("-f0000", 2.0) == Some("#0f0000")
  {
    var c := "-f0000";
    assert LStripHash(c) == c;
    assert Slice(c, 0, 2) == "-f" && Slice(c, 2, 4) == "00" && Slice(c, 4, 6) == "00";
    ParseMinusF();
    ParseZeroZero();
    ChannelsFromFields(c, -15, 0, 0);
    assert DarkenChannel(-15, 2.0) == 15 by {
      assert -15 as real * (1.0 - 2.0) == 15 as real;
      TruncOfInt(15);
    }
    assert DarkenChannel(0, 2.0) == 0;
    RenderDarkRed();
  }
}
