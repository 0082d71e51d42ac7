/**
 * src/utils/colorUtils.js: `darkenColor`, which lowers each channel of a
 * CSS hex colour `#rrggbb` (section 5.2 of CSS Color Module Level 4) by a
 * fixed amount.  The JavaScript number semantics the code relies on are
 * written out: `parseInt(_, 16)` with its `NaN`, the int32 conversion of
 * `<<`, and `toString(16)` of a possibly negative or `NaN` number.
 */
module ColorUtils {
  import opened Wrappers
  import opened Strings
  import PercentDecoding

  /** An integral JavaScript number, or `NaN`. */
  datatype Num = NaN | Int(v: int)

  /** `'#3490dc'` and `10`, the parameter defaults. */
  const DefaultColor := "#3490dc"
  const DefaultAmount := 10

  // ---------------------------------------------------------------------
  // parseInt(s, 16)
  // ---------------------------------------------------------------------

  predicate IsHexDigit(c: char) {
    PercentDecoding.HexValue(c).Some?
  }

  /** Length of the longest prefix of hex digits. */
  function HexPrefixLength(s: string): (n: nat)
    ensures n <= |s|
    ensures forall i :: 0 <= i < n ==> IsHexDigit(s[i])
    ensures n < |s| ==> !IsHexDigit(s[n])
  {
    if s != [] && IsHexDigit(s[0]) then 1 + HexPrefixLength(s[1..]) else 0
  }

  /** The value of a string of hex digits, most significant first. */
  function HexDigitsValue(s: string): nat
    requires forall i :: 0 <= i < |s| ==> IsHexDigit(s[i])
  {
    if s == [] then 0
    else
      assert IsHexDigit(s[|s| - 1]);
      HexDigitsValue(s[..|s| - 1]) * 16 + PercentDecoding.HexValue(s[|s| - 1]).value
  }

  /**
   * What `parseInt(s, 16)` reads digits from: leading white space is
   * skipped, then an optional sign, then an optional `0x`/`0X`.
   */
  function HexBody(s: string): (w: string)
    ensures |w| <= |s|
  {
    var t := TrimStart(s);
    var u := if t != [] && (t[0] == '-' || t[0] == '+') then t[1..] else t;
    if |u| >= 2 && u[0] == '0' && (u[1] == 'x' || u[1] == 'X') then u[2..] else u
  }

  /** The longest run of hex digits at the start of `w`. */
  function HexRun(w: string): (p: string)
    ensures |p| == HexPrefixLength(w) && p <= w
    ensures forall i :: 0 <= i < |p| ==> IsHexDigit(p[i])
  {
    w[..HexPrefixLength(w)]
  }

  /**
   * `parseInt(s, 16)`: the longest run of hex digits of `HexBody(s)` is
   * the value, negated after a leading `-`, and `NaN` when that run is empty.
   */
  function ParseHex(s: string): (r: Num)
    ensures r.NaN? <==> HexPrefixLength(HexBody(s)) == 0
  {
    var t := TrimStart(s);
    var negative := t != [] && t[0] == '-';
    var p := HexRun(HexBody(s));
    if p == [] then NaN
    else
      var value: int := HexDigitsValue(p);
      Int(if negative then -value else value)
  }

  /** `s.substring(start, end)` for `start <= end`: both ends clamp to the length. */
  function Substring(s: string, start: nat, end: nat): (r: string)
    requires start <= end
    ensures |r| <= end - start
  {
    var a := if start < |s| then start else |s|;
    var b := if end < |s| then end else |s|;
    s[a..b]
  }

  // ---------------------------------------------------------------------
  // Number arithmetic
  // ---------------------------------------------------------------------

  /** `Math.max(0, c - amount)`; `NaN` stays `NaN`. */
  function Darken(c: Num, amount: int): (r: Num)
    ensures r.NaN? <==> c.NaN?
    ensures r.Int? ==> r.v >= 0 && r.v >= c.v - amount
    ensures r.Int? && amount >= 0 && c.v >= 0 ==> r.v <= c.v
  {
    match c
    case NaN => NaN
    case Int(x) => Int(if x - amount > 0 then x - amount else 0)
  }

  const TwoTo32 := 0x1_0000_0000
  const TwoTo31 := 0x8000_0000

  /** ECMAScript `ToInt32` of an integral number; `NaN` becomes 0. */
  function ToInt32(c: Num): (r: int)
    ensures -TwoTo31 <= r < TwoTo31
    ensures c.Int? && -TwoTo31 <= c.v < TwoTo31 ==> r == c.v
  {
    match c
    case NaN => 0
    case Int(x) => (x + TwoTo31) % TwoTo32 - TwoTo31
  }

  function Pow2(k: nat): (r: nat)
    ensures r >= 1
  {
    if k == 0 then 1 else 2 * Pow2(k - 1)
  }

  /** `c << k` for `0 <= k < 32`: both the operand and the result are int32. */
  function ShiftLeft(c: Num, k: nat): (r: int)
    requires k < 32
    ensures -TwoTo31 <= r < TwoTo31
  {
    ToInt32(Int(ToInt32(c) * Pow2(k)))
  }

  // ---------------------------------------------------------------------
  // toString(16)
  // ---------------------------------------------------------------------

  /** Lower-case hex digit for 0..15. */
  function LowerHexDigit(n: nat): (c: char)
    requires n < 16
    ensures PercentDecoding.HexValue(c) == Some(n)
  {
    if n < 10 then ('0' as int + n) as char else ('a' as int + n - 10) as char
  }

  /** `n.toString(16)` for `n >= 0`: no leading zeros, `"0"` for zero. */
  function Hex(n: nat): (r: string)
    ensures r != []
  {
    if n < 16 then [LowerHexDigit(n)] else Hex(n / 16) + [LowerHexDigit(n % 16)]
  }

  /** `x.toString(16)`: a minus sign for negatives, `"NaN"` for `NaN`. */
  function NumToHex(x: Num): string {
    match x
    case NaN => "NaN"
    case Int(v) => if v < 0 then "-" + Hex(-v) else Hex(v)
  }

  /** `s.slice(1)` */
  function DropFirst(s: string): string {
    if s == [] then [] else s[1..]
  }

  // ---------------------------------------------------------------------
  // darkenColor
  // ---------------------------------------------------------------------

  /** The three channels read from `color` (colorUtils.js lines 6-9). */
  function Channels(color: string): (Num, Num, Num) {
    var hex := DropFirst(color);
    (ParseHex(Substring(hex, 0, 2)), ParseHex(Substring(hex, 2, 4)), ParseHex(Substring(hex, 4, 6)))
  }

  /** `(1 << 24) + (r << 16) + (g << 8) + b`; `b` is added as a number, so a `NaN` there spreads. */
  function Packed(r: Num, g: Num, b: Num): Num {
    match b
    case NaN => NaN
    case Int(bv) => Int(Pow2(24) + ShiftLeft(r, 16) + ShiftLeft(g, 8) + bv)
  }

  /** `darkenColor(color, amount)` (colorUtils.js lines 1-16) for integral amounts. */
  function DarkenColor(color: string, amount: int): (r: string)
    ensures !StartsWith(color, "#") ==> r == color
    ensures StartsWith(color, "#") ==> StartsWith(r, "#")
  {
    if !StartsWith(color, "#") then color
    else
      var (r, g, b) := Channels(color);
      "#" + DropFirst(NumToHex(Packed(Darken(r, amount), Darken(g, amount), Darken(b, amount))))
  }

  // ---------------------------------------------------------------------
  // Properties
  // ---------------------------------------------------------------------

  /** The `n` low hex digits of `v`, zero-padded, most significant first. */
  function FixedHex(v: nat, n: nat): (r: string)
    ensures |r| == n
  {
    if n == 0 then [] else FixedHex(v / 16, n - 1) + [LowerHexDigit(v % 16)]
  }

  /** The padded digits are hex digits, and none is an upper-case letter. */
  lemma {:induction false} FixedHexDigits(v: nat, n: nat)
    ensures forall i :: 0 <= i < n ==> IsHexDigit(FixedHex(v, n)[i]) && !('A' <= FixedHex(v, n)[i] <= 'Z')
  {
    if n > 0 {
      FixedHexDigits(v / 16, n - 1);
    }
  }

  function Pow16(n: nat): (r: nat)
    ensures r >= 1
  {
    if n == 0 then 1 else 16 * Pow16(n - 1)
  }

  lemma DivMod16(a: nat, b: nat)
    ensures (16 * a + b) / 16 == a + b / 16
    ensures (16 * a + b) % 16 == b % 16
  {
  }

  lemma MulPow16(a: nat, m: nat)
    requires m > 0
    ensures a * Pow16(m) == 16 * (a * Pow16(m - 1))
  {
    calc {
      a * Pow16(m);
      a * (16 * Pow16(m - 1));
      16 * (a * Pow16(m - 1));
    }
  }

  /** A number with a leading 1 in hex digit `n` prints as `1` and `n` padded digits. */
  lemma {:induction false} HexLeadingOne(x: nat, n: nat)
    requires x < Pow16(n)
    ensures Hex(Pow16(n) + x) == "1" + FixedHex(x, n)
  {
    if n > 0 {
      var p := Pow16(n - 1);
      DivMod16(p, x);
      assert Pow16(n) + x == 16 * p + x;
      assert x / 16 < p;
      HexLeadingOne(x / 16, n - 1);
    }
  }

  /** Digit strings concatenate: the high part above `m` low digits. */
  lemma {:induction false} FixedHexSplit(a: nat, b: nat, n: nat, m: nat, c: nat)
    requires b < Pow16(m) && c == a * Pow16(m) + b
    ensures FixedHex(c, n + m) == FixedHex(a, n) + FixedHex(b, m)
  {
    if m > 0 {
      var p := Pow16(m - 1);
      MulPow16(a, m);
      DivMod16(a * p, b);
      assert b / 16 < p;
      FixedHexSplit(a, b / 16, n, m - 1, a * p + b / 16);
    }
  }

  lemma {:induction false} HexDigitsOfFixed(v: nat, n: nat)
    requires v < Pow16(n)
    ensures (forall i :: 0 <= i < n ==> IsHexDigit(FixedHex(v, n)[i])) && HexDigitsValue(FixedHex(v, n)) == v
  {
    if n > 0 {
      var s := FixedHex(v, n);
      FixedHexDigits(v, n);
      FixedHexDigits(v / 16, n - 1);
      assert s[..n - 1] == FixedHex(v / 16, n - 1);
      HexDigitsOfFixed(v / 16, n - 1);
    }
  }

  /** A well-formed `#rrggbb` colour, in either letter case. */
  predicate WellFormed(color: string) {
    |color| == 7 && color[0] == '#' &&
    IsHexDigit(color[1]) && IsHexDigit(color[2]) && IsHexDigit(color[3]) &&
    IsHexDigit(color[4]) && IsHexDigit(color[5]) && IsHexDigit(color[6])
  }

  /** A hex digit is neither white space, a sign nor the `x` of a `0x` prefix. */
  lemma HexDigitIsPlain(c: char)
    requires IsHexDigit(c)
    ensures !IsSpace(c) && c != '-' && c != '+' && c != 'x' && c != 'X'
    ensures PercentDecoding.HexValue(c).value < 16
  {
  }

  /** Two hex digits read by `parseInt`. */
  lemma ParsePair(s: string)
    requires |s| == 2 && IsHexDigit(s[0]) && IsHexDigit(s[1])
    ensures ParseHex(s) == Int(HexDigitsValue(s))
    ensures HexDigitsValue(s) < 256
  {
    HexDigitIsPlain(s[0]);
    HexDigitIsPlain(s[1]);
    assert TrimStart(s) == s;
    assert HexPrefixLength(s[2..]) == 0;
    assert HexPrefixLength(s[1..]) == 1;
    assert HexPrefixLength(s) == 2;
    assert s[..2] == s;
    assert s[..1] == [s[0]];
    assert HexDigitsValue([s[0]]) == PercentDecoding.HexValue(s[0]).value;
  }

  /** The channel values of a well-formed colour, each below 256. */
  function ChannelValue(color: string, i: nat): (v: nat)
    requires WellFormed(color) && i < 3
    ensures v < 256
  {
    ParsePair(color[1 + 2 * i..3 + 2 * i]);
    HexDigitsValue(color[1 + 2 * i..3 + 2 * i])
  }

  lemma ChannelsOfWellFormed(color: string)
    requires WellFormed(color)
    ensures Channels(color) == (Int(ChannelValue(color, 0)), Int(ChannelValue(color, 1)), Int(ChannelValue(color, 2)))
  {
    var hex := DropFirst(color);
    assert Substring(hex, 0, 2) == color[1..3];
    assert Substring(hex, 2, 4) == color[3..5];
    assert Substring(hex, 4, 6) == color[5..7];
    ParsePair(color[1..3]);
    ParsePair(color[3..5]);
    ParsePair(color[5..7]);
  }

  function Max0(x: int): nat {
    if x > 0 then x else 0
  }

  lemma PowValues()
    ensures Pow2(8) == 256 && Pow2(16) == 65536 && Pow2(24) == 16777216
    ensures Pow16(2) == 256 && Pow16(4) == 65536 && Pow16(6) == 16777216
  {
  }

  /** Shifting a byte left by 8 or 16 loses nothing. */
  lemma ShiftByte(x: nat, k: nat)
    requires x < 256 && (k == 8 || k == 16)
    ensures ShiftLeft(Int(x), k) == x * Pow2(k)
  {
    PowValues();
  }

  /** Packing three bytes under a leading 1 and printing drops nothing. */
  lemma PackedBytes(r: nat, g: nat, b: nat)
    requires r < 256 && g < 256 && b < 256
    ensures NumToHex(Packed(Int(r), Int(g), Int(b))) == "1" + (FixedHex(r, 2) + FixedHex(g, 2) + FixedHex(b, 2))
  {
    PowValues();
    ShiftByte(r, 16);
    ShiftByte(g, 8);
    var low := g * 256 + b;
    var x := r * 65536 + low;
    assert low < 65536;
    assert x < 16777216;
    assert Packed(Int(r), Int(g), Int(b)) == Int(16777216 + x);
    HexLeadingOne(x, 6);
    SixDigits(r, g, b);
  }

  /** Six padded digits of a packed triple are the three bytes' two digits each. */
  lemma SixDigits(r: nat, g: nat, b: nat)
    requires r < 256 && g < 256 && b < 256
    ensures FixedHex(r * 65536 + (g * 256 + b), 6) == FixedHex(r, 2) + FixedHex(g, 2) + FixedHex(b, 2)
  {
    var high := r * 256 + g;
    var c := high * 256 + b;
    assert c == r * 65536 + (g * 256 + b) by {
      assert high * 256 == r * 256 * 256 + g * 256;
    }
    assert FixedHex(c, 6) == FixedHex(r, 2) + FixedHex(g, 2) + FixedHex(b, 2) by {
      PowValues();
      ThreeDigitGroups(r, g, b, 2, high, c);
    }
  }

  /** Three groups of `n` padded digits, packed base `16^n`, print side by side. */
  lemma ThreeDigitGroups(r: nat, g: nat, b: nat, n: nat, high: nat, c: nat)
    requires r < Pow16(n) && g < Pow16(n) && b < Pow16(n)
    requires high == r * Pow16(n) + g && c == high * Pow16(n) + b
    ensures FixedHex(c, n + n + n) == FixedHex(r, n) + FixedHex(g, n) + FixedHex(b, n)
  {
    FixedHexSplit(r, g, n, n, high);
    FixedHexSplit(high, b, n + n, n, c);
  }

  /**
   * For a well-formed colour and a non-negative amount, the result is `#`
   * and six lower-case, zero-padded hex digits: each channel lowered by
   * `amount` and clamped at zero.
   */
  lemma DarkenWellFormed(color: string, amount: int)
    requires WellFormed(color) && amount >= 0
    ensures DarkenColor(color, amount) ==
      "#" + FixedHex(Max0(ChannelValue(color, 0) - amount), 2)
          + FixedHex(Max0(ChannelValue(color, 1) - amount), 2)
          + FixedHex(Max0(ChannelValue(color, 2) - amount), 2)
    ensures WellFormed(DarkenColor(color, amount))
  {
    ChannelsOfWellFormed(color);
    var r := Max0(ChannelValue(color, 0) - amount);
    var g := Max0(ChannelValue(color, 1) - amount);
    var b := Max0(ChannelValue(color, 2) - amount);
    assert StartsWith(color, "#");
    assert Darken(Int(ChannelValue(color, 0)), amount) == Int(r);
    assert Darken(Int(ChannelValue(color, 1)), amount) == Int(g);
    assert Darken(Int(ChannelValue(color, 2)), amount) == Int(b);
    PackedBytes(r, g, b);
    var digits := FixedHex(r, 2) + FixedHex(g, 2) + FixedHex(b, 2);
    assert NumToHex(Packed(Int(r), Int(g), Int(b))) == "1" + digits;
    assert DropFirst("1" + digits) == digits;
    var out := DarkenColor(color, amount);
    assert out == "#" + DropFirst(NumToHex(Packed(Int(r), Int(g), Int(b))));
    assert out == "#" + digits;
    Regroup("#", FixedHex(r, 2), FixedHex(g, 2), FixedHex(b, 2));
    ReadBack(r, g, b);
  }

  lemma Regroup(x: string, a: string, b: string, c: string)
    ensures x + (a + b + c) == x + a + b + c
  {
  }

  /** The three pairs of a `#` and three two-character strings. */
  lemma Pairs(a: string, b: string, c: string)
    requires |a| == 2 && |b| == 2 && |c| == 2
    ensures |"#" + a + b + c| == 7
    ensures ("#" + a + b + c)[1..3] == a && ("#" + a + b + c)[3..5] == b && ("#" + a + b + c)[5..7] == c
  {
  }

  /** Reading back the channels of a printed colour. */
  lemma ReadBack(r: nat, g: nat, b: nat)
    requires r < 256 && g < 256 && b < 256
    ensures WellFormed("#" + FixedHex(r, 2) + FixedHex(g, 2) + FixedHex(b, 2))
    ensures ChannelValue("#" + FixedHex(r, 2) + FixedHex(g, 2) + FixedHex(b, 2), 0) == r
    ensures ChannelValue("#" + FixedHex(r, 2) + FixedHex(g, 2) + FixedHex(b, 2), 1) == g
    ensures ChannelValue("#" + FixedHex(r, 2) + FixedHex(g, 2) + FixedHex(b, 2), 2) == b
  {
    var out := "#" + FixedHex(r, 2) + FixedHex(g, 2) + FixedHex(b, 2);
    Pairs(FixedHex(r, 2), FixedHex(g, 2), FixedHex(b, 2));
    FixedHexDigits(r, 2);
    FixedHexDigits(g, 2);
    FixedHexDigits(b, 2);
    assert out[1] == out[1..3][0] && out[2] == out[1..3][1];
    assert out[3] == out[3..5][0] && out[4] == out[3..5][1];
    assert out[5] == out[5..7][0] && out[6] == out[5..7][1];
    assert WellFormed(out);
    assert Pow16(2) == 256;
    HexDigitsOfFixed(r, 2);
    HexDigitsOfFixed(g, 2);
    HexDigitsOfFixed(b, 2);
  }

  /**
   * With amount 0 the result denotes the same colour: reading its channels
   * gives back the input's channels.
   */
  lemma DarkenZeroKeepsChannels(color: string)
    requires WellFormed(color)
    ensures WellFormed(DarkenColor(color, 0))
    ensures ChannelValue(DarkenColor(color, 0), 0) == ChannelValue(color, 0)
    ensures ChannelValue(DarkenColor(color, 0), 1) == ChannelValue(color, 1)
    ensures ChannelValue(DarkenColor(color, 0), 2) == ChannelValue(color, 2)
  {
    DarkenWellFormed(color, 0);
    var r := ChannelValue(color, 0);
    var g := ChannelValue(color, 1);
    var b := ChannelValue(color, 2);
    assert Max0(r - 0) == r && Max0(g - 0) == g && Max0(b - 0) == b;
    ReadBack(r, g, b);
  }

  lemma DefaultChannels()
    ensures WellFormed(DefaultColor)
    ensures ChannelValue(DefaultColor, 0) == 0x34
    ensures ChannelValue(DefaultColor, 1) == 0x90
    ensures ChannelValue(DefaultColor, 2) == 0xdc
  {
    var c := DefaultColor;
    assert WellFormed(c) by {
      assert c[1] == '3' && c[2] == '4' && c[3] == '9' && c[4] == '0' && c[5] == 'd' && c[6] == 'c';
    }
    assert c[1..3] == "34" && "34"[..1] == "3";
    assert c[3..5] == "90" && "90"[..1] == "9";
    assert c[5..7] == "dc" && "dc"[..1] == "d";
  }

  lemma DarkenedDigits()
    ensures "#" + FixedHex(0x2a, 2) + FixedHex(0x86, 2) + FixedHex(0xd2, 2) == "#2a86d2"
  {
    assert LowerHexDigit(2) == '2' && LowerHexDigit(10) == 'a';
    assert LowerHexDigit(8) == '8' && LowerHexDigit(6) == '6';
    assert LowerHexDigit(13) == 'd';
  }

  /** The defaults darken `#3490dc` to `#2a86d2`. */
  lemma DefaultDarkened()
    ensures DarkenColor(DefaultColor, DefaultAmount) == "#2a86d2"
  {
    DefaultChannels();
    DarkenWellFormed(DefaultColor, DefaultAmount);
    DarkenedDigits();
  }

  /**
   * A `NaN` blue channel (here, a colour too short to have one) makes the
   * sum `NaN`, printed as `"NaN"` and cut to `#aN`.
   */
  lemma ShortColorGivesNaN(color: string, amount: int)
    requires StartsWith(color, "#") && |color| <= 5
    ensures DarkenColor(color, amount) == "#aN"
  {
    var hex := DropFirst(color);
    assert Substring(hex, 4, 6) == [];
    assert TrimStart([]) == [];
    assert HexPrefixLength([]) == 0;
  }
}
