/** The helpers of `OAuth+Extensions.swift`: the RFC 3986 percent-encoder, the
    lookup of a query item by name, the query-stripping of a URL, the nonce and
    the timestamp. What Foundation and CommonCrypto compute (URL parsing, query
    parsing, UTF-8 decoding, HMAC-SHA1) is supplied as a `Platform` value. */
module Extensions {
  import opened Wrappers
  import opened Models

  type byte = x: int | 0 <= x < 256

  // ---------------------------------------------------------------------------
  // The allowed character set

  predicate IsAsciiAlphanumeric(c: char) {
    'A' <= c <= 'Z' || 'a' <= c <= 'z' || '0' <= c <= '9'
  }

  /** `CharacterSet.urlRFC3986Allowed` as the encoder applies it: ASCII
      letters, digits and `- _ . ~`, the unreserved characters of section 2.3
      of RFC 3986. `addingPercentEncoding` ignores the non-ASCII members of
      `.alphanumerics`, so every non-ASCII character is escaped. */
  predicate IsUrlRfc3986Allowed(c: char) {
    IsAsciiAlphanumeric(c) || c == '-' || c == '_' || c == '.' || c == '~'
  }

  // ---------------------------------------------------------------------------
  // UTF-8, the encoding whose bytes Foundation percent-encodes

  /** The UTF-8 bytes of one Unicode scalar value. */
  function Utf8(c: char): (bs: seq<byte>)
    ensures 1 <= |bs| <= 4
    ensures |bs| == 1 <==> c as int < 0x80
  {
    var cp := c as int;
    if cp < 0x80 then [cp]
    else if cp < 0x800 then [0xC0 + cp / 64, 0x80 + cp % 64]
    else if cp < 0x10000 then [0xE0 + cp / 4096, 0x80 + (cp / 64) % 64, 0x80 + cp % 64]
    else [0xF0 + cp / 262144, 0x80 + (cp / 4096) % 64, 0x80 + (cp / 64) % 64, 0x80 + cp % 64]
  }

  function Utf8String(s: string): seq<byte> {
    if s == [] then [] else Utf8(s[0]) + Utf8String(s[1..])
  }

  /** The length of the UTF-8 sequence announced by its first byte. */
  function Utf8SequenceLength(lead: byte): nat {
    if lead < 0x80 then 1 else if lead < 0xE0 then 2 else if lead < 0xF0 then 3 else 4
  }

  function Utf8CodePoint(bs: seq<byte>): int
    requires 1 <= |bs| <= 4
  {
    var b0, b1, b2, b3 := bs[0] as int, (if |bs| > 1 then bs[1] else 0) as int,
                          (if |bs| > 2 then bs[2] else 0) as int, (if |bs| > 3 then bs[3] else 0) as int;
    if |bs| == 1 then b0
    else if |bs| == 2 then (b0 - 0xC0) * 64 + (b1 - 0x80)
    else if |bs| == 3 then (b0 - 0xE0) * 4096 + (b1 - 0x80) * 64 + (b2 - 0x80)
    else (b0 - 0xF0) * 262144 + (b1 - 0x80) * 4096 + (b2 - 0x80) * 64 + (b3 - 0x80)
  }

  predicate IsScalarValue(cp: int) {
    0 <= cp < 0xD800 || 0xE000 <= cp < 0x110000
  }

  /** A decoder for the byte sequences `Utf8String` produces. */
  function Utf8Decode(bs: seq<byte>): Option<string>
    decreases |bs|
  {
    if bs == [] then Some("")
    else
      var n := Utf8SequenceLength(bs[0]);
      if |bs| < n then None
      else
        var cp := Utf8CodePoint(bs[..n]);
        if !IsScalarValue(cp) then None
        else
          match Utf8Decode(bs[n..])
          case None => None
          case Some(rest) => Some([cp as char] + rest)
  }

  lemma Utf8CharDecodes(c: char)
    ensures Utf8SequenceLength(Utf8(c)[0]) == |Utf8(c)|
    ensures Utf8CodePoint(Utf8(c)) == c as int
  {
    var cp := c as int;
    if cp >= 0x10000 {
      FourByteDigits(cp);
    } else if cp >= 0x800 {
      ThreeByteDigits(cp);
    }
  }

  /** A code point from U+10000 in base 64 below its leading digit. */
  lemma FourByteDigits(cp: int)
    requires 0x10000 <= cp < 0x110000
    ensures cp / 262144 * 262144 + (cp / 4096) % 64 * 4096 + (cp / 64) % 64 * 64 + cp % 64 == cp
  {
    var q1, q2, q3 := cp / 64, cp / 4096, cp / 262144;
    assert cp == q1 * 64 + cp % 64;
    assert q1 == q2 * 64 + q1 % 64;
    assert q2 == q3 * 64 + q2 % 64;
    assert q2 == cp / 4096 && q1 % 64 == (cp / 64) % 64;
  }

  /** A code point from U+0800 to U+FFFF in base 64 below its leading digit. */
  lemma ThreeByteDigits(cp: int)
    requires 0x800 <= cp < 0x10000
    ensures cp / 4096 * 4096 + (cp / 64) % 64 * 64 + cp % 64 == cp
  {
    var q1, q2 := cp / 64, cp / 4096;
    assert cp == q1 * 64 + cp % 64;
    assert q1 == q2 * 64 + q1 % 64;
  }

  /** Decoding the UTF-8 bytes of a string gives the string back. */
  lemma {:induction false} Utf8RoundTrip(s: string)
    ensures Utf8Decode(Utf8String(s)) == Some(s)
  {
    if s != [] {
      var head, tail := Utf8(s[0]), Utf8String(s[1..]);
      var bs := head + tail;
      Utf8CharDecodes(s[0]);
      assert bs[0] == head[0];
      assert bs[..|head|] == head && bs[|head|..] == tail;
      Utf8RoundTrip(s[1..]);
      assert s == [s[0]] + s[1..];
    }
  }

  // ---------------------------------------------------------------------------
  // Percent-encoding (`oAuthURLEncodedString`)

  function HexDigit(d: int): (c: char)
    requires 0 <= d < 16
  {
    "0123456789ABCDEF"[d]
  }

  predicate IsUpperHexDigit(c: char) {
    '0' <= c <= '9' || 'A' <= c <= 'F'
  }

  function HexValue(c: char): (d: int)
    requires IsUpperHexDigit(c)
    ensures 0 <= d < 16
  {
    if c <= '9' then c as int - '0' as int else c as int - 'A' as int + 10
  }

  lemma HexDigitRoundTrip(d: int)
    requires 0 <= d < 16
    ensures IsUpperHexDigit(HexDigit(d)) && HexValue(HexDigit(d)) == d
  {
  }

  /** One byte as `%` and two upper-case hexadecimal digits. */
  function PercentEscape(b: byte): string {
    ['%', HexDigit(b / 16), HexDigit(b % 16)]
  }

  function PercentEscapes(bs: seq<byte>): string {
    if bs == [] then "" else PercentEscape(bs[0]) + PercentEscapes(bs[1..])
  }

  function EncodeChar(c: char): string {
    if IsUrlRfc3986Allowed(c) then [c] else PercentEscapes(Utf8(c))
  }

  /** Well-formed output of the encoder: allowed characters and `%XX`
      triplets with upper-case hexadecimal digits, nothing else. */
  predicate IsPercentEncoded(t: string)
    decreases |t|
  {
    if t == [] then true
    else if IsUrlRfc3986Allowed(t[0]) then IsPercentEncoded(t[1..])
    else |t| >= 3 && t[0] == '%' && IsUpperHexDigit(t[1]) && IsUpperHexDigit(t[2]) && IsPercentEncoded(t[3..])
  }

  lemma {:induction false} PercentEncodedConcat(a: string, b: string)
    requires IsPercentEncoded(a) && IsPercentEncoded(b)
    ensures IsPercentEncoded(a + b)
    decreases |a|
  {
    if a == [] {
      assert a + b == b;
    } else if IsUrlRfc3986Allowed(a[0]) {
      assert (a + b)[1..] == a[1..] + b;
      PercentEncodedConcat(a[1..], b);
    } else {
      assert (a + b)[3..] == a[3..] + b;
      PercentEncodedConcat(a[3..], b);
    }
  }

  lemma {:induction false} PercentEscapesEncoded(bs: seq<byte>)
    ensures IsPercentEncoded(PercentEscapes(bs))
  {
    if bs != [] {
      var e := PercentEscape(bs[0]);
      HexDigitRoundTrip(bs[0] / 16);
      HexDigitRoundTrip(bs[0] % 16);
      assert IsPercentEncoded(e) by { assert e[3..] == ""; }
      PercentEscapesEncoded(bs[1..]);
      PercentEncodedConcat(e, PercentEscapes(bs[1..]));
    }
  }

  /** `oAuthURLEncodedString`: encodes each character on its own; the result
      is always well formed. The encoder never fails. */
  function PercentEncode(s: string): (r: string)
    ensures IsPercentEncoded(r)
  {
    if s == [] then ""
    else
      var head := EncodeChar(s[0]);
      var tail := PercentEncode(s[1..]);
      assert IsPercentEncoded(head) by {
        if IsUrlRfc3986Allowed(s[0]) { assert head[1..] == ""; } else { PercentEscapesEncoded(Utf8(s[0])); }
      }
      PercentEncodedConcat(head, tail);
      head + tail
  }

  /** Every character of an encoded string is an allowed character or `%`. */
  lemma {:induction false} PercentEncodedAlphabet(t: string)
    requires IsPercentEncoded(t)
    ensures forall i :: 0 <= i < |t| ==> IsUrlRfc3986Allowed(t[i]) || t[i] == '%'
    decreases |t|
  {
    if t != [] {
      if IsUrlRfc3986Allowed(t[0]) {
        PercentEncodedAlphabet(t[1..]);
        assert forall i :: 1 <= i < |t| ==> t[i] == t[1..][i - 1];
      } else {
        PercentEncodedAlphabet(t[3..]);
        assert forall i :: 3 <= i < |t| ==> t[i] == t[3..][i - 3];
      }
    }
  }

  /** Encoding distributes over concatenation. */
  lemma {:induction false} PercentEncodeConcat(a: string, b: string)
    ensures PercentEncode(a + b) == PercentEncode(a) + PercentEncode(b)
  {
    if a == [] {
      assert a + b == b;
    } else {
      assert (a + b)[0] == a[0] && (a + b)[1..] == a[1..] + b;
      PercentEncodeConcat(a[1..], b);
    }
  }

  lemma {:induction false} PercentEncodeLength(s: string)
    ensures |PercentEncode(s)| >= |s|
    ensures (exists i :: 0 <= i < |s| && !IsUrlRfc3986Allowed(s[i])) ==> |PercentEncode(s)| >= |s| + 2
  {
    if s != [] {
      PercentEncodeLength(s[1..]);
      if exists i :: 0 <= i < |s| && !IsUrlRfc3986Allowed(s[i]) {
        if IsUrlRfc3986Allowed(s[0]) {
          var i :| 0 <= i < |s| && !IsUrlRfc3986Allowed(s[i]);
          assert s[1..][i - 1] == s[i];
        }
      }
    }
  }

  /** Encoding leaves a string unchanged exactly when it consists of allowed
      characters only. */
  lemma {:induction false} PercentEncodeIdentity(s: string)
    ensures PercentEncode(s) == s <==> forall i :: 0 <= i < |s| ==> IsUrlRfc3986Allowed(s[i])
  {
    PercentEncodeLength(s);
    if s != [] {
      PercentEncodeIdentity(s[1..]);
      if forall i :: 0 <= i < |s| ==> IsUrlRfc3986Allowed(s[i]) {
        assert forall i :: 0 <= i < |s[1..]| ==> IsUrlRfc3986Allowed(s[1..][i]) by {
          forall i | 0 <= i < |s[1..]| ensures IsUrlRfc3986Allowed(s[1..][i]) { assert s[1..][i] == s[1 + i]; }
        }
        assert s == [s[0]] + s[1..];
      }
    }
  }

  /** Inverse of `PercentEncode`, as bytes: a `%XX` triplet gives one byte, any
      other character its UTF-8 bytes. */
  function PercentDecode(t: string): Option<seq<byte>>
    decreases |t|
  {
    if t == [] then Some([])
    else if t[0] == '%' then
      if |t| >= 3 && IsUpperHexDigit(t[1]) && IsUpperHexDigit(t[2]) then
        Prepend([HexValue(t[1]) * 16 + HexValue(t[2])], PercentDecode(t[3..]))
      else None
    else Prepend(Utf8(t[0]), PercentDecode(t[1..]))
  }

  function Prepend(bs: seq<byte>, rest: Option<seq<byte>>): Option<seq<byte>> {
    match rest
    case None => None
    case Some(r) => Some(bs + r)
  }

  lemma PercentEscapeDecode(b: byte, t: string)
    ensures PercentDecode(PercentEscape(b) + t) == Prepend([b], PercentDecode(t))
  {
    var u := PercentEscape(b) + t;
    HexDigitRoundTrip(b / 16);
    HexDigitRoundTrip(b % 16);
    assert u[0] == '%' && u[1] == HexDigit(b / 16) && u[2] == HexDigit(b % 16);
    assert u[3..] == t;
  }

  lemma PrependTwice(a: seq<byte>, b: seq<byte>, rest: Option<seq<byte>>)
    ensures Prepend(a, Prepend(b, rest)) == Prepend(a + b, rest)
  {
    match rest
    case None =>
    case Some(r) => assert a + (b + r) == (a + b) + r;
  }

  lemma {:induction false} PercentEscapesDecode(bs: seq<byte>, t: string)
    ensures PercentDecode(PercentEscapes(bs) + t) == Prepend(bs, PercentDecode(t))
  {
    if bs == [] {
      assert PercentEscapes(bs) + t == t;
      match PercentDecode(t)
      case None =>
      case Some(r) => assert bs + r == r;
    } else {
      var rest := PercentEscapes(bs[1..]) + t;
      assert PercentEscapes(bs) + t == PercentEscape(bs[0]) + rest;
      PercentEscapeDecode(bs[0], rest);
      PercentEscapesDecode(bs[1..], t);
      PrependTwice([bs[0]], bs[1..], PercentDecode(t));
      assert [bs[0]] + bs[1..] == bs;
    }
  }

  /** Decoding an encoded string gives back the UTF-8 bytes of the original. */
  lemma {:induction false} PercentDecodeEncode(s: string)
    ensures PercentDecode(PercentEncode(s)) == Some(Utf8String(s))
  {
    if s != [] {
      PercentDecodeEncode(s[1..]);
      var tail := PercentEncode(s[1..]);
      if IsUrlRfc3986Allowed(s[0]) {
        assert (EncodeChar(s[0]) + tail)[1..] == tail;
      } else {
        PercentEscapesDecode(Utf8(s[0]), tail);
      }
    }
  }

  /** Distinct strings have distinct encodings. */
  lemma PercentEncodeInjective(a: string, b: string)
    requires PercentEncode(a) == PercentEncode(b)
    ensures a == b
  {
    PercentDecodeEncode(a);
    PercentDecodeEncode(b);
    Utf8RoundTrip(a);
    Utf8RoundTrip(b);
  }

  // ---------------------------------------------------------------------------
  // Query items (`URLQueryItem` and the `[URLQueryItem]` name subscript)

  datatype QueryItem = QueryItem(name: string, value: Option<string>)

  ghost predicate IsFirstMatch(items: seq<QueryItem>, name: string, i: int) {
    0 <= i < |items| && items[i].name == name && forall j :: 0 <= j < i ==> items[j].name != name
  }

  /** `filter({$0.name == name})`. */
  function Filter(items: seq<QueryItem>, name: string): (r: seq<QueryItem>)
    ensures r == [] <==> forall i :: 0 <= i < |items| ==> items[i].name != name
    ensures forall i :: IsFirstMatch(items, name, i) ==> r[0] == items[i]
  {
    if items == [] then []
    else if items[0].name == name then [items[0]] + Filter(items[1..], name)
    else
      var r := Filter(items[1..], name);
      assert forall i :: IsFirstMatch(items, name, i) ==> IsFirstMatch(items[1..], name, i - 1);
      assert (forall i :: 0 <= i < |items[1..]| ==> items[1..][i].name != name) ==>
             forall i :: 0 <= i < |items| ==> items[i].name != name by {
        forall i | 0 < i < |items| ensures items[i] == items[1..][i - 1] { }
      }
      r
  }

  /** The subscript `items[name]`: the value of the first item with that name;
      none when no item has it, or when that first item has no value. */
  function Value(items: seq<QueryItem>, name: string): (r: Option<string>)
    ensures (forall i :: 0 <= i < |items| ==> items[i].name != name) ==> r == None
    ensures forall i :: IsFirstMatch(items, name, i) ==> r == items[i].value
  {
    var matches := Filter(items, name);
    if matches == [] then None else matches[0].value
  }

  /** Items after the first match are ignored by the lookup. */
  lemma {:induction false} ValueIgnoresLaterItems(items: seq<QueryItem>, more: seq<QueryItem>, name: string, k: int)
    requires 0 <= k < |items| && items[k].name == name
    ensures Value(items + more, name) == Value(items, name)
  {
    var i := FirstMatchIndex(items, name, k);
    assert IsFirstMatch(items + more, name, i);
  }

  /** A prefix without the name does not affect the lookup. */
  lemma ValueSkipsOtherNames(items: seq<QueryItem>, more: seq<QueryItem>, name: string)
    requires forall i :: 0 <= i < |items| ==> items[i].name != name
    ensures Value(items + more, name) == Value(more, name)
  {
    if exists k :: 0 <= k < |more| && more[k].name == name {
      var k :| 0 <= k < |more| && more[k].name == name;
      var i := FirstMatchIndex(more, name, k);
      assert IsFirstMatch(items + more, name, |items| + i);
    } else {
      assert forall j :: 0 <= j < |items + more| ==> (items + more)[j].name != name by {
        forall j | |items| <= j < |items + more| ensures (items + more)[j] == more[j - |items|] { }
      }
    }
  }

  /** The index of the first item named `name`, given that item `k` has it. */
  function FirstMatchIndex(items: seq<QueryItem>, name: string, k: int): (i: int)
    requires 0 <= k < |items| && items[k].name == name
    ensures IsFirstMatch(items, name, i) && i <= k
  {
    if items[0].name == name then 0
    else FirstMatchIndex(items[1..], name, k - 1) + 1
  }

  // ---------------------------------------------------------------------------
  // URLs

  /** The parts of a URL as `URLComponents` holds them; `authority` stands for
      user, password, host and port together. */
  datatype UrlComponents = UrlComponents(
    scheme: Option<string>,
    authority: Option<string>,
    path: string,
    query: Option<string>,
    fragment: Option<string>)

  /** A parsed `URL`. `decomposable` is false for the URLs that
      `URLComponents(url:resolvingAgainstBaseURL:)` cannot take apart. */
  datatype Url = Url(parts: UrlComponents, decomposable: bool)

  function Part(prefix: string, part: Option<string>, suffix: string): string {
    match part
    case None => ""
    case Some(p) => prefix + p + suffix
  }

  /** `URLComponents.string`: none when an authority is followed by a path
      that does not start with `/`, or when a path without an authority starts
      with `//`. */
  function ComponentsString(c: UrlComponents): Option<string> {
    if c.authority.Some? && c.path != "" && c.path[0] != '/' then None
    else if c.authority.None? && |c.path| >= 2 && c.path[..2] == "//" then None
    else Some(Part("", c.scheme, ":") + Part("//", c.authority, "") + c.path
              + Part("?", c.query, "") + Part("#", c.fragment, ""))
  }

  /** `absoluteStringByTrimmingQuery()`: the URL written out without its query.
      It succeeds exactly when the URL can be taken apart and written out, and
      then the full URL string is the result with `?query` put back just before
      the fragment. */
  function AbsoluteStringByTrimmingQuery(url: Url): (r: Result<string, Failure>)
    ensures r.Err? ==> r.error == OAuth(FailedUrlStrippingQueries)
    ensures r.Ok? <==> url.decomposable && ComponentsString(url.parts).Some?
    ensures r.Ok? ==>
      var k := |r.value| - |Part("#", url.parts.fragment, "")|;
      0 <= k <= |r.value| &&
      ComponentsString(url.parts).value == r.value[..k] + Part("?", url.parts.query, "") + r.value[k..]
  {
    if !url.decomposable then Err(OAuth(FailedUrlStrippingQueries))
    else
      var components := url.parts.(query := None);
      match ComponentsString(components)
      case None => Err(OAuth(FailedUrlStrippingQueries))
      case Some(s) =>
        var c := url.parts;
        var head := Part("", c.scheme, ":") + Part("//", c.authority, "") + c.path;
        var fragment := Part("#", c.fragment, "");
        assert s == head + fragment;
        assert s[..|head|] == head && s[|head|..] == fragment;
        Ok(s)
  }

  /** The throwing `URL(string:)`: `BadURLError` when Foundation cannot parse
      the string. */
  function UrlFromString(platform: Platform, s: string): (r: Result<Url, Failure>)
    ensures r.Err? <==> platform.url(s).None?
    ensures r.Err? ==> r.error == BadUrl(s)
    ensures r.Ok? ==> platform.url(s) == Some(r.value)
  {
    match platform.url(s)
    case None => Err(BadUrl(s))
    case Some(u) => Ok(u)
  }

  // ---------------------------------------------------------------------------
  // Nonce and timestamp

  /** `generateNonce()` given the `uuidString` of a fresh UUID: its first
      eight characters. */
  function GenerateNonce(uuidString: string): (r: string)
    ensures r <= uuidString
    ensures |r| == if |uuidString| < 8 then |uuidString| else 8
  {
    if |uuidString| < 8 then uuidString else uuidString[..8]
  }

  /** The `uuidString` form of a UUID: 36 characters, upper-case hexadecimal
      digits in groups of 8-4-4-4-12 separated by hyphens. */
  ghost predicate IsUuidString(s: string) {
    |s| == 36 &&
    forall i :: 0 <= i < 36 ==>
      if i == 8 || i == 13 || i == 18 || i == 23 then s[i] == '-' else IsUpperHexDigit(s[i])
  }

  /** A nonce cut from a UUID string is eight hexadecimal digits, which the
      encoder leaves as they are. */
  lemma NonceFromUuid(uuidString: string)
    requires IsUuidString(uuidString)
    ensures var nonce := GenerateNonce(uuidString);
      |nonce| == 8 && (forall i :: 0 <= i < 8 ==> IsUpperHexDigit(nonce[i])) && PercentEncode(nonce) == nonce
  {
    var nonce := GenerateNonce(uuidString);
    assert forall i :: 0 <= i < 8 ==> nonce[i] == uuidString[i];
    PercentEncodeIdentity(nonce);
  }

  function DecimalDigit(d: int): (c: char)
    requires 0 <= d < 10
  {
    "0123456789"[d]
  }

  /** The decimal numeral of a natural number, as `String(Int)` writes it. */
  function NaturalString(n: nat): (r: string)
    ensures r != []
    ensures forall i :: 0 <= i < |r| ==> '0' <= r[i] <= '9'
    ensures r[0] == '0' ==> n == 0
  {
    if n < 10 then [DecimalDigit(n)] else NaturalString(n / 10) + [DecimalDigit(n % 10)]
  }

  /** `currentTimestamp` given the whole seconds since 1970 as `Int` truncates
      them: `String(Int)`, with a minus sign before a negative value. */
  function Timestamp(seconds: int): (r: string)
    ensures seconds >= 0 ==> r != [] && forall i :: 0 <= i < |r| ==> '0' <= r[i] <= '9'
    ensures seconds < 0 ==> |r| >= 2 && r[0] == '-' && forall i :: 1 <= i < |r| ==> '0' <= r[i] <= '9'
    ensures seconds >= 0 ==> (r[0] == '0' ==> r == "0")
    ensures seconds < 0 ==> r[1] != '0'
  {
    if seconds < 0 then "-" + NaturalString(-seconds) else NaturalString(seconds)
  }

  /** Reads back a string of decimal digits. */
  function DecimalValue(s: string): nat
    requires forall i :: 0 <= i < |s| ==> '0' <= s[i] <= '9'
  {
    if s == [] then 0 else DecimalValue(s[..|s| - 1]) * 10 + (s[|s| - 1] as int - '0' as int)
  }

  lemma {:induction false} NaturalStringRoundTrip(n: nat)
    ensures DecimalValue(NaturalString(n)) == n
    decreases n
  {
    if n >= 10 {
      var r := NaturalString(n);
      NaturalStringRoundTrip(n / 10);
      assert r[..|r| - 1] == NaturalString(n / 10);
    }
  }

  /** The timestamp of a non-negative time is its decimal numeral: reading it
      back gives the time, and the encoder leaves it unchanged. A negative time
      is a minus sign followed by the numeral of its magnitude. */
  lemma TimestampRoundTrip(seconds: int)
    ensures var ts := Timestamp(seconds);
      seconds >= 0 ==> DecimalValue(ts) == seconds && PercentEncode(ts) == ts
    ensures var ts := Timestamp(seconds);
      seconds < 0 ==> ts[0] == '-' && DecimalValue(ts[1..]) == -seconds && PercentEncode(ts) == ts
  {
    var ts := Timestamp(seconds);
    if seconds >= 0 {
      NaturalStringRoundTrip(seconds);
    } else {
      NaturalStringRoundTrip(-seconds);
      assert ts[1..] == NaturalString(-seconds);
    }
    assert forall i :: 0 <= i < |ts| ==> IsUrlRfc3986Allowed(ts[i]);
    PercentEncodeIdentity(ts);
  }

  // ---------------------------------------------------------------------------
  // What Foundation and CommonCrypto provide

  /** The foreign functions the library calls, as total functions:
      `URL(string:)`, `String.urlQueryItems`, `String(data:encoding: .utf8)`
      and `hmacSHA1Hash(key:)` (HMAC-SHA1 of a message under a key, Base64). */
  datatype Platform = Platform(
    url: string -> Option<Url>,
    queryItems: string -> Option<seq<QueryItem>>,
    utf8String: seq<byte> -> Option<string>,
    hmacSha1Base64: (string, string) -> string)
}
