/**
 * `decodeURIComponent` restricted to the ASCII case of percent-encoding
 * (section 2.1 of RFC 3986): every `%` must be followed by two hex digits,
 * otherwise decoding fails (JavaScript throws a URIError).  An escape whose
 * octet is 0x80 or above starts a UTF-8 sequence; decoding those is not part
 * of this model and is treated as a failure.
 */
module PercentDecoding {
  import opened Wrappers

  function HexValue(c: char): Option<nat> {
    if '0' <= c <= '9' then Some(c as int - '0' as int)
    else if 'a' <= c <= 'f' then Some(c as int - 'a' as int + 10)
    else if 'A' <= c <= 'F' then Some(c as int - 'A' as int + 10)
    else None
  }

  /** `decodeURIComponent(s)`; `None` when it would throw. */
  function Decode(s: string): (r: Option<string>)
    ensures r.Some? ==> |r.value| <= |s|
    ensures r.Some? && s != [] ==> r.value != []
    ensures '%' !in s ==> r == Some(s)
    decreases |s|
  {
    if s == [] then Some([])
    else if s[0] != '%' then
      match Decode(s[1..])
      case None => None
      case Some(rest) =>
        assert s == [s[0]] + s[1..];
        Some([s[0]] + rest)
    else if |s| < 3 || HexValue(s[1]).None? || HexValue(s[2]).None? then None
    else
      var octet := 16 * HexValue(s[1]).value + HexValue(s[2]).value;
      if octet >= 0x80 then None
      else
        match Decode(s[3..])
        case None => None
        case Some(rest) => Some([octet as char] + rest)
  }

  /** Upper-case hex digit for 0..15, as RFC 3986 recommends for encoders. */
  function HexDigit(n: nat): char
    requires n < 16
  {
    if n < 10 then ('0' as int + n) as char else ('A' as int + n - 10) as char
  }

  /** The unreserved characters of section 2.3 of RFC 3986. */
  predicate Unreserved(c: char) {
    ('a' <= c <= 'z') || ('A' <= c <= 'Z') || ('0' <= c <= '9') ||
    c == '-' || c == '.' || c == '_' || c == '~'
  }

  /**
   * Reference encoder: every ASCII character outside the unreserved set
   * becomes `%HH`; other characters are kept.
   */
  function Encode(s: string): (r: string)
    ensures |r| >= |s|
  {
    if s == [] then []
    else if s[0] as int < 0x80 && !Unreserved(s[0]) then
      ['%', HexDigit(s[0] as int / 16), HexDigit(s[0] as int % 16)] + Encode(s[1..])
    else [s[0]] + Encode(s[1..])
  }

  lemma HexDigitValue(n: nat)
    requires n < 16
    ensures HexValue(HexDigit(n)) == Some(n)
  {
  }

  /** Decoding undoes encoding, for every string. */
  lemma {:induction false} DecodeEncode(s: string)
    ensures Decode(Encode(s)) == Some(s)
  {
    if s != [] {
      DecodeEncode(s[1..]);
      var e := Encode(s);
      if s[0] as int < 0x80 && !Unreserved(s[0]) {
        var c := s[0] as int;
        HexDigitValue(c / 16);
        HexDigitValue(c % 16);
        assert e[3..] == Encode(s[1..]);
        assert (16 * (c / 16) + c % 16) as char == s[0];
      } else {
        assert e[1..] == Encode(s[1..]);
      }
      assert s == [s[0]] + s[1..];
    }
  }

  /** Decoding is not the identity on an escape: `%3A` decodes to `:`. */
  lemma DecodeColon()
    ensures Decode("%3A") == Some(":")
  {
    var s := "%3A";
    assert |s| == 3 && s[0] == '%' && s[1] == '3' && s[2] == 'A' && s[3..] == [];
    assert HexValue('3') == Some(3) && HexValue('A') == Some(10);
    assert Decode(s[3..]) == Some([]);
    assert Decode(s) == Some([58 as char] + []);
    assert [58 as char] + [] == [58 as char] == ":";
  }
}
