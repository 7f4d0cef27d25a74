// UTF-8 as in section 3 of RFC 3629: encoding, strict decoding, and the facts the
// byte spans rest on.

module Utf8 {
  import opened Common

  type Byte = b: int | 0 <= b < 256

  const NEWLINE: Byte := 10

  function EncodeChar(c: char): (r: seq<Byte>)
    ensures 1 <= |r| <= 4
  {
    var n := c as int;
    if n < 0x80 then [n]
    else if n < 0x800 then [0xC0 + n / 64, 0x80 + n % 64]
    else if n < 0x10000 then [0xE0 + n / 4096, 0x80 + n / 64 % 64, 0x80 + n % 64]
    else [0xF0 + n / 262144, 0x80 + n / 4096 % 64, 0x80 + n / 64 % 64, 0x80 + n % 64]
  }

  function Encode(s: string): seq<Byte> {
    if s == "" then [] else EncodeChar(s[0]) + Encode(s[1..])
  }

  predicate Continuation(b: Byte) {
    0x80 <= b < 0xC0
  }

  predicate ScalarValue(n: int) {
    0 <= n < 0xD800 || 0xE000 <= n < 0x110000
  }

  function Payload(b: Byte): (r: int)
    requires Continuation(b)
    ensures 0 <= r < 64
  {
    var n: int := b;
    n - 0x80
  }

  function Lead(b: Byte, marker: int): (r: int)
    ensures r == b - marker
  {
    var n: int := b;
    n - marker
  }

  /** The first character and its length; overlong forms, surrogates and stray bytes are refused. */
  function DecodeHead(b: seq<Byte>): (r: Option<(char, nat)>)
    ensures r.Some? ==> 1 <= r.value.1 <= |b|
  {
    if |b| >= 1 && b[0] < 0x80 then Some((b[0] as char, 1))
    else if |b| >= 2 && 0xC2 <= b[0] < 0xE0 && Continuation(b[1]) then
      Some(((Lead(b[0], 0xC0) * 64 + Payload(b[1])) as char, 2))
    else if |b| >= 3 && 0xE0 <= b[0] < 0xF0 && Continuation(b[1]) && Continuation(b[2]) then
      var n := Lead(b[0], 0xE0) * 4096 + Payload(b[1]) * 64 + Payload(b[2]);
      if n >= 0x800 && ScalarValue(n) then Some((n as char, 3)) else None
    else if |b| >= 4 && 0xF0 <= b[0] < 0xF5 && Continuation(b[1]) && Continuation(b[2]) && Continuation(b[3]) then
      var n := Lead(b[0], 0xF0) * 262144 + Payload(b[1]) * 4096 + Payload(b[2]) * 64 + Payload(b[3]);
      if n >= 0x10000 && ScalarValue(n) then Some((n as char, 4)) else None
    else None
  }

  function Decode(b: seq<Byte>): Option<string> {
    if b == [] then Some("")
    else
      match DecodeHead(b)
      case None => None
      case Some((c, n)) =>
        match Decode(b[n..])
        case None => None
        case Some(s) => Some([c] + s)
  }

  lemma HeadRoundTrip(c: char, rest: seq<Byte>)
    ensures DecodeHead(EncodeChar(c) + rest) == Some((c, |EncodeChar(c)|))
  {
    var n := c as int;
    assert n / 4096 == n / 64 / 64 && n / 262144 == n / 64 / 64 / 64;
  }

  lemma {:induction false} DecodeEncode(s: string)
    ensures Decode(Encode(s)) == Some(s)
  {
    if s != "" {
      HeadRoundTrip(s[0], Encode(s[1..]));
      assert Encode(s)[|EncodeChar(s[0])|..] == Encode(s[1..]);
      DecodeEncode(s[1..]);
      assert s == [s[0]] + s[1..];
    }
  }

  lemma {:induction false} EncodeConcat(s: string, t: string)
    ensures Encode(s + t) == Encode(s) + Encode(t)
  {
    if s == "" {
      assert s + t == t;
    } else {
      EncodeConcat(s[1..], t);
      assert (s + t)[1..] == s[1..] + t;
      var head, rest, tail := EncodeChar(s[0]), Encode(s[1..]), Encode(t);
      assert head + (rest + tail) == (head + rest) + tail;
    }
  }

  /** Converting character offsets to byte offsets by encoding prefixes slices the same text. */
  lemma SliceByPrefixes(text: string, start: nat, end: nat)
    requires start <= end <= |text|
    ensures |Encode(text[..start])| <= |Encode(text[..end])| <= |Encode(text)|
    ensures Encode(text)[|Encode(text[..start])|..|Encode(text[..end])|] == Encode(text[start..end])
    ensures start < end ==> |Encode(text[..start])| < |Encode(text[..end])|
  {
    var a, b, c := text[..start], text[start..end], text[end..];
    EncodeConcat(a, b);
    EncodeConcat(a + b, c);
    assert a + b == text[..end] && (a + b) + c == text;
    if start < end {
      assert Encode(b) == EncodeChar(b[0]) + Encode(b[1..]);
    }
  }
}
