/**
 * The two library string functions the resolver uses: posixpath.basename and
 * urllib.parse.quote_plus (through urlencode, yafu.py:142 and 145).
 */
module UrlText {
  import opened Common

  /** posixpath.basename: the text after the last '/' of the path. */
  function Basename(p: string): string
    decreases |p|
  {
    if p == [] || p[|p| - 1] == '/' then [] else Basename(p[..|p| - 1]) + [p[|p| - 1]]
  }

  /** The basename is the longest suffix of the path that holds no '/'. */
  lemma {:induction false} BasenameIsLastSegment(p: string)
    ensures |Basename(p)| <= |p| && Basename(p) == p[|p| - |Basename(p)|..]
    ensures '/' !in Basename(p)
    ensures |Basename(p)| < |p| ==> p[|p| - |Basename(p)| - 1] == '/'
    decreases |p|
  {
    if p != [] && p[|p| - 1] != '/' {
      var init := p[..|p| - 1];
      BasenameIsLastSegment(init);
      var b := Basename(init);
      assert Basename(p) == b + [p[|p| - 1]];
      assert p[|p| - |Basename(p)|..] == init[|init| - |b|..] + [p[|p| - 1]];
      if |Basename(p)| < |p| {
        assert p[|p| - |Basename(p)| - 1] == init[|init| - |b| - 1];
      }
    }
  }

  /** What follows a '/' that is followed by no other '/' is the basename. */
  lemma {:induction false} BasenameAfterSlash(prefix: string, tail: string)
    requires '/' !in tail
    ensures Basename(prefix + "/" + tail) == tail
    decreases |tail|
  {
    var p := prefix + "/" + tail;
    if tail != [] {
      assert p[..|p| - 1] == prefix + "/" + tail[..|tail| - 1];
      BasenameAfterSlash(prefix, tail[..|tail| - 1]);
    }
  }

  /** The bytes quote() never escapes: ASCII letters, digits and "_.-~" (section 2.3 of RFC 3986). */
  predicate IsUnreserved(b: byte)
  {
    ('A' as byte <= b <= 'Z' as byte) || ('a' as byte <= b <= 'z' as byte) ||
    ('0' as byte <= b <= '9' as byte) ||
    b == '_' as byte || b == '.' as byte || b == '-' as byte || b == '~' as byte
  }

  predicate IsUpperHex(c: char)
  {
    ('0' <= c <= '9') || ('A' <= c <= 'F')
  }

  /** The characters quote_plus can produce. */
  predicate IsQuotedChar(c: char)
  {
    (c as int < 128 && IsUnreserved(c as int as byte)) || c == '+' || c == '%' || IsUpperHex(c)
  }

  function HexDigit(d: nat): (c: char)
    requires d < 16
    ensures IsUpperHex(c)
  {
    "0123456789ABCDEF"[d]
  }

  function HexValue(c: char): (d: nat)
    requires IsUpperHex(c)
    ensures d < 16
  {
    if '0' <= c <= '9' then c as int - '0' as int else c as int - 'A' as int + 10
  }

  lemma HexRoundTrip(d: nat)
    requires d < 16
    ensures HexValue(HexDigit(d)) == d
  {
  }

  /** quote_plus on one byte: unreserved bytes stay, space becomes '+', any other byte becomes %XX. */
  function QuoteByte(b: byte): (s: string)
    ensures 0 < |s| && forall i :: 0 <= i < |s| ==> IsQuotedChar(s[i])
  {
    if IsUnreserved(b) then [b as int as char]
    else if b == 32 then "+"
    else ['%', HexDigit(b as int / 16), HexDigit(b as int % 16)]
  }

  function QuoteBytes(bs: seq<byte>): string
  {
    if bs == [] then [] else QuoteByte(bs[0]) + QuoteBytes(bs[1..])
  }

  lemma {:induction false} QuotedBytesAlphabet(bs: seq<byte>)
    ensures forall i :: 0 <= i < |QuoteBytes(bs)| ==> IsQuotedChar(QuoteBytes(bs)[i])
    decreases |bs|
  {
    if bs != [] {
      QuotedBytesAlphabet(bs[1..]);
      var head, tail := QuoteByte(bs[0]), QuoteBytes(bs[1..]);
      forall i | 0 <= i < |head + tail| ensures IsQuotedChar((head + tail)[i]) {
        if i >= |head| {
          assert (head + tail)[i] == tail[i - |head|];
        }
      }
    }
  }

  /** UTF-8, the encoding quote_plus applies to a str before escaping bytes. */
  function Utf8(c: char): (bs: seq<byte>)
    ensures 1 <= |bs| <= 4
    ensures |bs| == 1 <==> c as int < 128
    ensures |bs| == 1 ==> bs[0] as int == c as int
    ensures |bs| > 1 ==> forall i :: 0 <= i < |bs| ==> bs[i] >= 128
  {
    var cp := c as int;
    if cp < 0x80 then [cp as byte]
    else if cp < 0x800 then [(0xC0 + cp / 0x40) as byte, (0x80 + cp % 0x40) as byte]
    else if cp < 0x10000 then
      [(0xE0 + cp / 0x1000) as byte, (0x80 + cp / 0x40 % 0x40) as byte, (0x80 + cp % 0x40) as byte]
    else
      [(0xF0 + cp / 0x40000) as byte, (0x80 + cp / 0x1000 % 0x40) as byte,
       (0x80 + cp / 0x40 % 0x40) as byte, (0x80 + cp % 0x40) as byte]
  }

  function Utf8Encode(s: string): seq<byte>
  {
    if s == [] then [] else Utf8(s[0]) + Utf8Encode(s[1..])
  }

  /** urllib.parse.quote_plus(s, safe=''), the escaping urlencode gives a value. */
  function QuotePlus(s: string): string
  {
    QuoteBytes(Utf8Encode(s))
  }

  /** quote_plus writes only unreserved characters, '+', '%' and upper-case hex digits; never a '/'. */
  lemma QuotedAlphabet(s: string)
    ensures forall i :: 0 <= i < |QuotePlus(s)| ==> IsQuotedChar(QuotePlus(s)[i])
    ensures '/' !in QuotePlus(s)
  {
    QuotedBytesAlphabet(Utf8Encode(s));
    var q := QuotePlus(s);
    forall i | 0 <= i < |q| ensures q[i] != '/' {
      assert IsQuotedChar(q[i]);
    }
  }

  /** unquote_plus at the byte level: '+' is a space, %XX a byte, any other ASCII character itself. */
  function Unquote(t: string): (r: Option<seq<byte>>)
    decreases |t|
  {
    if t == [] then Some([])
    else if t[0] == '%' then
      if |t| >= 3 && IsUpperHex(t[1]) && IsUpperHex(t[2]) then
        Prepend((16 * HexValue(t[1]) + HexValue(t[2])) as byte, Unquote(t[3..]))
      else None
    else if t[0] == '+' then Prepend(32, Unquote(t[1..]))
    else if t[0] as int < 128 then Prepend(t[0] as int as byte, Unquote(t[1..]))
    else None
  }

  function Prepend(b: byte, r: Option<seq<byte>>): Option<seq<byte>>
  {
    if r.Some? then Some([b] + r.value) else None
  }

  lemma UnquoteByte(b: byte, rest: string)
    ensures Unquote(QuoteByte(b) + rest) == Prepend(b, Unquote(rest))
  {
    var t := QuoteByte(b) + rest;
    if IsUnreserved(b) {
      assert t[1..] == rest;
    } else if b == 32 {
      assert t[1..] == rest;
    } else {
      assert t[3..] == rest;
      HexRoundTrip(b as int / 16);
      HexRoundTrip(b as int % 16);
    }
  }

  /** Escaping loses nothing: unquoting the escaped bytes gives them back. */
  lemma {:induction false} QuoteRoundTrip(bs: seq<byte>)
    ensures Unquote(QuoteBytes(bs)) == Some(bs)
    decreases |bs|
  {
    if bs != [] {
      UnquoteByte(bs[0], QuoteBytes(bs[1..]));
      QuoteRoundTrip(bs[1..]);
      assert [bs[0]] + bs[1..] == bs;
    }
  }

  /** A name made of unreserved ASCII characters is its own escape. */
  lemma {:induction false} QuotePlusKeepsUnreserved(s: string)
    requires forall i :: 0 <= i < |s| ==> s[i] as int < 128 && IsUnreserved(s[i] as int as byte)
    ensures QuotePlus(s) == s
    decreases |s|
  {
    if s != [] {
      QuotePlusKeepsUnreserved(s[1..]);
      assert QuotePlus(s) == QuoteByte(Utf8(s[0])[0]) + QuotePlus(s[1..]);
      assert s == [s[0]] + s[1..];
    }
  }
}
