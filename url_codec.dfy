/**
  `urllib.parse.quote_plus` with its default arguments, over the bytes of the
  (already UTF-8 encoded) text: the unreserved bytes of section 2.3 of
  RFC 3986 are copied, a space becomes `+` (the
  application/x-www-form-urlencoded convention) and every other byte becomes
  `%XX` with two upper-case hexadecimal digits (section 2.1 of RFC 3986).
  `UnquotePlus` is the matching decoder, and `TakeValue` reads one query
  parameter value out of a URL.
 */
module UrlCodec {
  import opened Wrappers

  newtype byte = b: int | 0 <= b < 256

  const Space: byte := 32

  /** The character a byte stands for in ASCII/Latin-1. */
  function ByteChar(b: byte): char
  {
    (b as int) as char
  }

  /** `A-Z a-z 0-9 _ . - ~`: the bytes `quote_plus` never escapes. */
  predicate IsUnreserved(b: byte)
  {
    var c := ByteChar(b);
    ('A' <= c <= 'Z') || ('a' <= c <= 'z') || ('0' <= c <= '9') || c == '_' || c == '.' || c == '-' || c == '~'
  }

  predicate IsUpperHexDigit(c: char)
  {
    ('0' <= c <= '9') || ('A' <= c <= 'F')
  }

  /** The upper-case hexadecimal digit for `n`. */
  function HexDigit(n: int): (c: char)
    requires 0 <= n < 16
    ensures IsUpperHexDigit(c)
  {
    if n < 10 then ('0' as int + n) as char else ('A' as int + n - 10) as char
  }

  /** The value of a hexadecimal digit of either case. */
  function HexValue(c: char): (v: Option<int>)
    ensures v.Some? ==> 0 <= v.value < 16
  {
    if '0' <= c <= '9' then Some(c as int - '0' as int)
    else if 'A' <= c <= 'F' then Some(c as int - 'A' as int + 10)
    else if 'a' <= c <= 'f' then Some(c as int - 'a' as int + 10)
    else None
  }

  /** The characters `quote_plus` can produce. */
  predicate IsQuotedChar(c: char)
  {
    ('A' <= c <= 'Z') || ('a' <= c <= 'z') || ('0' <= c <= '9') || c == '_' || c == '.' || c == '-' || c == '~'
    || c == '+' || c == '%'
  }

  /** The encoding of one byte: `+` for a space, the byte itself when it is
      unreserved, and otherwise `%` followed by the two upper-case hexadecimal
      digits of its value. */
  function EncodeByte(b: byte): (r: string)
    ensures b == Space ==> r == "+"
    ensures b != Space && IsUnreserved(b) ==> r == [ByteChar(b)]
    ensures b != Space && !IsUnreserved(b) ==>
              |r| == 3 && r[0] == '%' && IsUpperHexDigit(r[1]) && IsUpperHexDigit(r[2])
              && HexValue(r[1]).value * 16 + HexValue(r[2]).value == b as int
    ensures forall k :: 0 <= k < |r| ==> IsQuotedChar(r[k])
  {
    if b == Space then "+"
    else if IsUnreserved(b) then [ByteChar(b)]
    else ['%', HexDigit(b as int / 16), HexDigit(b as int % 16)]
  }

  /** `quote_plus`: the output uses only the unreserved characters, `+` and `%`,
      and each byte takes one to three characters. */
  function QuotePlus(s: seq<byte>): (r: string)
    ensures forall k :: 0 <= k < |r| ==> IsQuotedChar(r[k])
    ensures |s| <= |r| <= 3 * |s|
  {
    if s == [] then [] else EncodeByte(s[0]) + QuotePlus(s[1..])
  }

  function Prepend(b: byte, rest: Option<seq<byte>>): Option<seq<byte>>
  {
    match rest
    case Some(bs) => Some([b] + bs)
    case None => None
  }

  /** The decoder (`unquote_plus` restricted to ASCII input): `+` is a space,
      `%XX` is the byte with hexadecimal value XX, any other ASCII character is
      its own byte; a malformed escape or a non-ASCII character is rejected. */
  function UnquotePlus(t: string): Option<seq<byte>>
    decreases |t|
  {
    if t == [] then Some([])
    else if t[0] == '+' then Prepend(Space, UnquotePlus(t[1..]))
    else if t[0] == '%' then
      if |t| >= 3 && HexValue(t[1]).Some? && HexValue(t[2]).Some? then
        Prepend((16 * HexValue(t[1]).value + HexValue(t[2]).value) as byte, UnquotePlus(t[3..]))
      else None
    else if t[0] as int < 128 then Prepend(t[0] as int as byte, UnquotePlus(t[1..]))
    else None
  }

  /** The reserved delimiters of a URL query never occur in encoded text, so the
      encoded query cannot end its parameter early or start a new one. */
  lemma QuotePlusHasNoDelimiters(s: seq<byte>)
    ensures forall k :: 0 <= k < |QuotePlus(s)| ==>
              QuotePlus(s)[k] !in {' ', '"', '&', '=', '#', '?', '/', '\''}
  {
  }

  /** A space is written `+`, and a literal `+` is escaped, so a `+` in the
      output always stands for a space. */
  lemma PlusSignsAreSpaces()
    ensures EncodeByte(Space) == "+"
    ensures EncodeByte('+' as int as byte) == "%2B"
  {
  }

  lemma {:induction false} DecodeEncodedByte(b: byte, rest: string)
    ensures UnquotePlus(EncodeByte(b) + rest) == Prepend(b, UnquotePlus(rest))
  {
    var t := EncodeByte(b) + rest;
    if b == Space {
      assert t[1..] == rest;
    } else if IsUnreserved(b) {
      assert t[1..] == rest;
      assert t[0] as int as byte == b;
    } else {
      assert t[3..] == rest;
      assert HexValue(t[1]) == Some(b as int / 16);
      assert HexValue(t[2]) == Some(b as int % 16);
    }
  }

  /** Decoding the output of `quote_plus` gives back the original bytes. */
  lemma {:induction false} QuotePlusRoundTrip(s: seq<byte>)
    ensures UnquotePlus(QuotePlus(s)) == Some(s)
  {
    if s != [] {
      QuotePlusRoundTrip(s[1..]);
      DecodeEncodedByte(s[0], QuotePlus(s[1..]));
      assert [s[0]] + s[1..] == s;
    }
  }

  /** In particular encoded text holds neither `&`, which ends a parameter,
      nor `#`, which ends the query part of a URL. */
  lemma QuotePlusHasNoValueEnd(s: seq<byte>)
    ensures '&' !in QuotePlus(s) && '#' !in QuotePlus(s)
  {
    QuotePlusHasNoDelimiters(s);
  }

  /** Distinct queries give distinct encodings. */
  lemma QuotePlusInjective(s: seq<byte>, t: seq<byte>)
    requires QuotePlus(s) == QuotePlus(t)
    ensures s == t
  {
    QuotePlusRoundTrip(s);
    QuotePlusRoundTrip(t);
  }

  /** A character that ends a parameter value in a URL: `&` starts the next
      parameter and `#` starts the fragment (section 3.4 of RFC 3986). */
  predicate EndsValue(c: char)
  {
    c == '&' || c == '#'
  }

  /** The characters of `s` before the first `&` or `#` (all of `s` if there
      is none): how a parameter value is cut out of the rest of a URL. */
  function TakeValue(s: string): (r: string)
    ensures '&' !in r && '#' !in r
    ensures r <= s
    ensures |r| < |s| ==> EndsValue(s[|r|])
  {
    if s == [] || EndsValue(s[0]) then [] else [s[0]] + TakeValue(s[1..])
  }

  lemma {:induction false} TakeValueDelimiter(a: string, d: char, b: string)
    requires '&' !in a && '#' !in a && EndsValue(d)
    ensures TakeValue(a + [d] + b) == a
  {
    if a != [] {
      assert (a + [d] + b)[1..] == a[1..] + [d] + b;
      TakeValueDelimiter(a[1..], d, b);
    }
  }

  /** The value of the query parameter that starts right after `prefix`,
      or `None` if `url` does not start with `prefix`. */
  function ParamAfter(url: string, prefix: string): (v: Option<string>)
    ensures v.Some? <==> prefix <= url
    ensures v.Some? ==> '&' !in v.value && '#' !in v.value && prefix + v.value <= url
    ensures v.Some? && |prefix + v.value| < |url| ==> EndsValue(url[|prefix + v.value|])
  {
    if prefix <= url then
      var rest := url[|prefix|..];
      var v := TakeValue(rest);
      assert url == prefix + rest;
      Some(v)
    else None
  }

  /** The parameter value of `prefix + value + [d] + more` is `value` when `d`
      is `&` or `#` and `value` holds neither. */
  lemma ParamAfterValue(prefix: string, value: string, d: char, more: string)
    requires '&' !in value && '#' !in value && EndsValue(d)
    ensures ParamAfter(prefix + value + [d] + more, prefix) == Some(value)
  {
    var url := prefix + value + [d] + more;
    assert url[|prefix|..] == value + [d] + more;
    TakeValueDelimiter(value, d, more);
  }

  /** The URL `prefix + value + "&" + more` starts with `prefix`, ends with
      `"&" + more`, holds exactly `value` between the two, and its parameter
      after `prefix` is `value` when `value` holds neither `&` nor `#`. */
  lemma FramedParam(prefix: string, value: string, more: string)
    ensures var url := prefix + value + "&" + more;
            && |url| >= |prefix| + |more| + 1
            && url[..|prefix|] == prefix
            && url[|url| - |more| - 1..] == "&" + more
            && url[|prefix|..|url| - |more| - 1] == value
            && ('&' !in value && '#' !in value ==> ParamAfter(url, prefix) == Some(value))
  {
    var url := prefix + value + "&" + more;
    assert url[..|prefix|] == prefix;
    assert url[|url| - |more| - 1..] == "&" + more;
    assert url[|prefix|..|url| - |more| - 1] == value;
    if '&' !in value && '#' !in value {
      ParamAfterValue(prefix, value, '&', more);
    }
  }
}
