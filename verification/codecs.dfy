/** The text codecs a `.txt` upload goes through: Python's strict UTF-8
    decoder, the Latin-1 decoder it falls back to, and the newline
    translation that reading a file in text mode applies. */
module Codecs {
  import opened Common
  import opened Strings

  predicate IsContinuation(b: byte)
  {
    0x80 <= b < 0xC0
  }

  /** Decodes the one scalar value that starts `b`, with the number of bytes
      it used, or None where Python's strict decoder raises
      UnicodeDecodeError: a stray continuation byte, a lead byte that no
      well-formed sequence starts with (0xC0, 0xC1, 0xF5..0xFF), a missing
      continuation byte, an over-long form, a surrogate, or a value beyond
      U+10FFFF. */
  function DecodeScalar(b: seq<byte>): (r: Option<(char, nat)>)
    requires |b| > 0
    ensures r.Some? ==> 1 <= r.value.1 <= 4 && r.value.1 <= |b|
  {
    var b0: int := b[0];
    if b0 < 0x80 then Some((b0 as char, 1))
    else if 0xC2 <= b0 <= 0xDF then
      if |b| >= 2 && IsContinuation(b[1])
      then Some(((Two(b0, b[1])) as char, 2))
      else None
    else if 0xE0 <= b0 <= 0xEF then
      if |b| >= 3 && IsContinuation(b[1]) && IsContinuation(b[2]) then
        var cp := Three(b0, b[1], b[2]);
        if 0x800 <= cp && !(0xD800 <= cp <= 0xDFFF) then Some((cp as char, 3)) else None
      else None
    else if 0xF0 <= b0 <= 0xF4 then
      if |b| >= 4 && IsContinuation(b[1]) && IsContinuation(b[2]) && IsContinuation(b[3]) then
        var cp := Four(b0, b[1], b[2], b[3]);
        if 0x10000 <= cp <= 0x10FFFF then Some((cp as char, 4)) else None
      else None
    else None
  }

  /** The code point a two-, three- or four-byte sequence spells: the lead
      byte's payload bits followed by six bits from each continuation byte. */
  function Two(b0: int, b1: int): (cp: int)
    requires 0xC2 <= b0 <= 0xDF && 0x80 <= b1 < 0xC0
    ensures 0x80 <= cp < 0x800
  {
    (b0 - 0xC0) * 64 + (b1 - 0x80)
  }

  function Three(b0: int, b1: int, b2: int): (cp: int)
    requires 0xE0 <= b0 <= 0xEF && 0x80 <= b1 < 0xC0 && 0x80 <= b2 < 0xC0
    ensures 0 <= cp < 0x10000
  {
    (b0 - 0xE0) * 4096 + (b1 - 0x80) * 64 + (b2 - 0x80)
  }

  function Four(b0: int, b1: int, b2: int, b3: int): (cp: int)
    requires 0xF0 <= b0 <= 0xF4 && 0x80 <= b1 < 0xC0 && 0x80 <= b2 < 0xC0 && 0x80 <= b3 < 0xC0
    ensures 0 <= cp < 0x140000
  {
    (b0 - 0xF0) * 262144 + (b1 - 0x80) * 4096 + (b2 - 0x80) * 64 + (b3 - 0x80)
  }

  /** `data.decode('utf-8')`: the text, or None where it raises. The
      decoder succeeds only on canonical encodings: the bytes it accepts are
      exactly the encoding of the text it returns. */
  function DecodeUtf8(b: seq<byte>): (r: Option<string>)
    ensures r.Some? ==> EncodeUtf8(r.value) == b
    decreases |b|
  {
    if b == [] then Some("")
    else
      match DecodeScalar(b)
      case None => None
      case Some((c, k)) =>
        match DecodeUtf8(b[k..])
        case None => None
        case Some(s) =>
          DecodedScalarIsCanonical(b);
          assert b[..k] + b[k..] == b;
          Some([c] + s)
  }

  /** The UTF-8 encoding of one scalar value. */
  function EncodeScalar(c: char): (r: seq<byte>)
    ensures 1 <= |r| <= 4
  {
    var n := c as int;
    if n < 0x80 then [n]
    else if n < 0x800 then [0xC0 + n / 64, 0x80 + n % 64]
    else if n < 0x10000 then [0xE0 + n / 4096, 0x80 + (n / 64) % 64, 0x80 + n % 64]
    else [0xF0 + n / 262144, 0x80 + (n / 4096) % 64, 0x80 + (n / 64) % 64, 0x80 + n % 64]
  }

  /** `s.encode('utf-8')`. */
  function EncodeUtf8(s: string): seq<byte>
  {
    if s == [] then [] else EncodeScalar(s[0]) + EncodeUtf8(s[1..])
  }

  /** The decoder reads back exactly the scalar value the encoder wrote, and
      consumes exactly its bytes, whatever follows. */
  lemma DecodeEncodedScalar(c: char, rest: seq<byte>)
    ensures DecodeScalar(EncodeScalar(c) + rest) == Some((c, |EncodeScalar(c)|))
  {
    var n := c as int;
    var e := EncodeScalar(c);
    var b := e + rest;
    assert b[..|e|] == e;
    if n < 0x80 {
    } else if n < 0x800 {
      TwoOfEncoding(n);
      assert b[0] == e[0] && b[1] == e[1];
    } else if n < 0x10000 {
      ThreeOfEncoding(n);
      assert b[0] == e[0] && b[1] == e[1] && b[2] == e[2];
    } else {
      FourOfEncoding(n);
      assert b[0] == e[0] && b[1] == e[1] && b[2] == e[2] && b[3] == e[3];
    }
  }

  lemma TwoOfEncoding(n: int)
    requires 0x80 <= n < 0x800
    ensures 0xC2 <= 0xC0 + n / 64 <= 0xDF && IsContinuation(0x80 + n % 64)
    ensures Two(0xC0 + n / 64, 0x80 + n % 64) == n
  {
    SixBits(n);
  }

  lemma ThreeOfEncoding(n: int)
    requires 0x800 <= n < 0x10000
    ensures 0xE0 <= 0xE0 + n / 4096 <= 0xEF
    ensures IsContinuation(0x80 + (n / 64) % 64) && IsContinuation(0x80 + n % 64)
    ensures Three(0xE0 + n / 4096, 0x80 + (n / 64) % 64, 0x80 + n % 64) == n
  {
    SixBits(n);
    SixBits(n / 64);
  }

  lemma FourOfEncoding(n: int)
    requires 0x10000 <= n <= 0x10FFFF
    ensures 0xF0 <= 0xF0 + n / 262144 <= 0xF4
    ensures IsContinuation(0x80 + (n / 4096) % 64)
    ensures IsContinuation(0x80 + (n / 64) % 64) && IsContinuation(0x80 + n % 64)
    ensures Four(0xF0 + n / 262144, 0x80 + (n / 4096) % 64, 0x80 + (n / 64) % 64, 0x80 + n % 64) == n
  {
    SixBits(n);
    SixBits(n / 64);
    SixBits(n / 4096);
  }

  /** Splitting off the low six bits. */
  lemma SixBits(n: nat)
    ensures n == (n / 64) * 64 + n % 64 && 0 <= n % 64 < 64
    ensures n / 64 / 64 == n / 4096 && n / 4096 / 64 == n / 262144
  {
  }

  /** Whatever the decoder accepts is the canonical encoding of what it
      returns: no over-long forms, no surrogates, nothing beyond U+10FFFF. */
  lemma DecodedScalarIsCanonical(b: seq<byte>)
    requires |b| > 0 && DecodeScalar(b).Some?
    ensures EncodeScalar(DecodeScalar(b).value.0) == b[..DecodeScalar(b).value.1]
  {
    var b0: int := b[0];
    if b0 < 0x80 {
    } else if b0 <= 0xDF {
      TwoIsCanonical(b[0], b[1]);
      assert b[..2] == [b[0], b[1]];
    } else if b0 <= 0xEF {
      ThreeIsCanonical(b[0], b[1], b[2]);
      assert b[..3] == [b[0], b[1], b[2]];
    } else {
      FourIsCanonical(b[0], b[1], b[2], b[3]);
      assert b[..4] == [b[0], b[1], b[2], b[3]];
    }
  }

  lemma TwoIsCanonical(b0: byte, b1: byte)
    requires 0xC2 <= b0 <= 0xDF && IsContinuation(b1)
    ensures EncodeScalar(Two(b0, b1) as char) == [b0, b1]
  {
    var x1: int := b1 - 0x80;
    DivMod64(b0 - 0xC0, x1);
  }

  lemma ThreeIsCanonical(b0: byte, b1: byte, b2: byte)
    requires 0xE0 <= b0 <= 0xEF && IsContinuation(b1) && IsContinuation(b2)
    requires 0x800 <= Three(b0, b1, b2) && !(0xD800 <= Three(b0, b1, b2) <= 0xDFFF)
    ensures EncodeScalar(Three(b0, b1, b2) as char) == [b0, b1, b2]
  {
    var n := Three(b0, b1, b2);
    var x1: int := b1 - 0x80;
    var x2: int := b2 - 0x80;
    assert n == ((b0 - 0xE0) * 64 + x1) * 64 + x2;
    DivMod64((b0 - 0xE0) * 64 + x1, x2);
    DivMod64(b0 - 0xE0, x1);
    SixBits(n);
  }

  lemma FourIsCanonical(b0: byte, b1: byte, b2: byte, b3: byte)
    requires 0xF0 <= b0 <= 0xF4 && IsContinuation(b1) && IsContinuation(b2) && IsContinuation(b3)
    requires 0x10000 <= Four(b0, b1, b2, b3) <= 0x10FFFF
    ensures EncodeScalar(Four(b0, b1, b2, b3) as char) == [b0, b1, b2, b3]
  {
    var n := Four(b0, b1, b2, b3);
    var x1: int := b1 - 0x80;
    var x2: int := b2 - 0x80;
    var x3: int := b3 - 0x80;
    assert n == (((b0 - 0xF0) * 64 + x1) * 64 + x2) * 64 + x3;
    DivMod64(((b0 - 0xF0) * 64 + x1) * 64 + x2, x3);
    DivMod64((b0 - 0xF0) * 64 + x1, x2);
    DivMod64(b0 - 0xF0, x1);
    SixBits(n);
    SixBits(n / 64);
  }

  lemma DivMod64(q: nat, r: nat)
    requires r < 64
    ensures (q * 64 + r) / 64 == q && (q * 64 + r) % 64 == r
  {
  }

  /** Decoding what was encoded gives the text back: no character is lost. */
  lemma {:induction false} DecodeEncodeUtf8(s: string)
    ensures DecodeUtf8(EncodeUtf8(s)) == Some(s)
  {
    if s != [] {
      var head := EncodeScalar(s[0]);
      var tail := EncodeUtf8(s[1..]);
      DecodeEncodedScalar(s[0], tail);
      assert (head + tail)[|head|..] == tail;
      DecodeEncodeUtf8(s[1..]);
      assert [s[0]] + s[1..] == s;
    }
  }

  /** `data.decode('latin-1')`: every byte becomes the character with the
      same code; it never fails. */
  function DecodeLatin1(b: seq<byte>): (s: string)
    ensures |s| == |b|
    ensures forall i :: 0 <= i < |b| ==> s[i] as int == b[i]
  {
    if b == [] then [] else [b[0] as char] + DecodeLatin1(b[1..])
  }

  /** `s.encode('latin-1')` for text whose characters are all below 256. */
  function EncodeLatin1(s: string): (b: seq<byte>)
    requires forall i :: 0 <= i < |s| ==> (s[i] as int) < 256
    ensures |b| == |s|
  {
    if s == [] then [] else [s[0] as int] + EncodeLatin1(s[1..])
  }

  /** Latin-1 loses nothing: encoding the decoded text gives the bytes back. */
  lemma {:induction false} Latin1RoundTrip(b: seq<byte>)
    ensures EncodeLatin1(DecodeLatin1(b)) == b
  {
    if b != [] {
      Latin1RoundTrip(b[1..]);
      assert DecodeLatin1(b)[1..] == DecodeLatin1(b[1..]);
    }
  }

  /** Universal-newline translation of text-mode reading: "\r\n" and a lone
      "\r" each become "\n". */
  function TranslateNewlines(s: string): (r: string)
    ensures '\r' !in r
    ensures |r| <= |s|
  {
    if s == [] then []
    else if s[0] == '\r' then
      if |s| >= 2 && s[1] == '\n' then "\n" + TranslateNewlines(s[2..])
      else "\n" + TranslateNewlines(s[1..])
    else [s[0]] + TranslateNewlines(s[1..])
  }

  /** The translation is `s.replace("\r\n", "\n").replace("\r", "\n")`:
      every "\r\n" and every lone "\r" becomes one "\n", and every other
      character is kept, in order. */
  lemma {:induction false} TranslateNewlinesIsReplace(s: string)
    ensures TranslateNewlines(s) == Replace(Replace(s, "\r\n", "\n"), "\r", "\n")
  {
    if s == [] {
    } else if |s| >= 2 && s[..2] == "\r\n" {
      TranslateNewlinesIsReplace(s[2..]);
      assert s[0] == '\r' && s[1] == '\n';
      ReplaceCharHead('\n', Replace(s[2..], "\r\n", "\n"), '\r', "\n");
    } else {
      TranslateNewlinesIsReplace(s[1..]);
      if |s| >= 2 {
        assert s[..2] == [s[0], s[1]];
        assert Replace(s, "\r\n", "\n") == [s[0]] + Replace(s[1..], "\r\n", "\n");
      } else {
        assert s == [s[0]];
      }
      ReplaceCharHead(s[0], Replace(s[1..], "\r\n", "\n"), '\r', "\n");
    }
  }

  /** The translation changes a text exactly when the text holds a "\r". */
  lemma {:induction false} TranslateNewlinesIdentity(s: string)
    ensures TranslateNewlines(s) == s <==> '\r' !in s
  {
    if s != [] && s[0] != '\r' {
      TranslateNewlinesIdentity(s[1..]);
      assert [s[0]] + s[1..] == s;
      assert '\r' in s[1..] ==> '\r' in s;
      assert '\r' in s ==> '\r' in s[1..] by {
        if '\r' in s { var k :| 0 <= k < |s| && s[k] == '\r'; assert s[1..][k - 1] == '\r'; }
      }
    } else if s != [] {
      assert '\r' in s;
    }
  }
}
