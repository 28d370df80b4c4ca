/** `encodeURIComponent` as the adapter uses it to put service types, ids and server ids
    into request paths: every character outside the unreserved set
    `A-Z a-z 0-9 - _ . ! ~ * ' ( )` becomes the `%XY` escapes (upper-case hex) of its
    UTF-8 bytes. The matching decoder is the partner that shows nothing is lost. */
module UriEncoding {
  import opened Wrappers

  predicate Unreserved(c: char) {
    'A' <= c <= 'Z' || 'a' <= c <= 'z' || '0' <= c <= '9'
    || c == '-' || c == '_' || c == '.' || c == '!' || c == '~' || c == '*' || c == '\''
    || c == '(' || c == ')'
  }

  function HexDigit(d: nat): (c: char)
    requires d < 16
    ensures IsHex(c) && HexValue(c) == d
  {
    if d < 10 then (('0' as int) + d) as char else (('A' as int) + d - 10) as char
  }

  predicate IsHex(c: char) { '0' <= c <= '9' || 'A' <= c <= 'F' || 'a' <= c <= 'f' }

  function HexValue(c: char): nat {
    if '0' <= c <= '9' then (c as int) - ('0' as int)
    else if 'A' <= c <= 'F' then (c as int) - ('A' as int) + 10
    else if 'a' <= c <= 'f' then (c as int) - ('a' as int) + 10
    else 0
  }

  /** `%XY` for one byte. */
  function Escape(b: nat): string
    requires b < 256
  {
    ['%', HexDigit(b / 16), HexDigit(b % 16)]
  }

  /** The UTF-8 bytes of a Unicode scalar value. */
  function Utf8(cp: nat): (bytes: seq<nat>)
    requires cp < 0x11_0000
    ensures 1 <= |bytes| <= 4
    ensures forall k :: 0 <= k < |bytes| ==> bytes[k] < 256
  {
    if cp < 0x80 then [cp]
    else if cp < 0x800 then [0xC0 + cp / 64, 0x80 + cp % 64]
    else if cp < 0x1_0000 then [0xE0 + cp / 4096, 0x80 + cp / 64 % 64, 0x80 + cp % 64]
    else [0xF0 + cp / 262144, 0x80 + cp / 4096 % 64, 0x80 + cp / 64 % 64, 0x80 + cp % 64]
  }

  function EscapeAll(bytes: seq<nat>): (r: string)
    requires forall k :: 0 <= k < |bytes| ==> bytes[k] < 256
    ensures forall i :: 0 <= i < |r| ==> r[i] == '%' || IsHex(r[i])
    decreases |bytes|
  {
    if bytes == [] then [] else Escape(bytes[0]) + EscapeAll(bytes[1..])
  }

  function EncodeChar(c: char): (r: string)
    ensures forall i :: 0 <= i < |r| ==> EncodedChar(r[i])
  {
    if Unreserved(c) then [c] else EscapeAll(Utf8(c as nat))
  }

  /** Characters that can appear in an encoded component. */
  predicate EncodedChar(c: char) { Unreserved(c) || c == '%' || IsHex(c) }

  /** encodeURIComponent(s). The result never holds a '/', so it stays one path segment. */
  function EncodeComponent(s: string): (r: string)
    ensures forall i :: 0 <= i < |r| ==> EncodedChar(r[i])
    ensures '/' !in r
    decreases |s|
  {
    if s == [] then [] else EncodeChar(s[0]) + EncodeComponent(s[1..])
  }

  // ------------------------------------------------------------ decoding

  /** The byte written as `%XY` at position i, if there is one. */
  function ByteAt(s: string, i: nat): Option<nat> {
    if i + 3 <= |s| && s[i] == '%' && IsHex(s[i + 1]) && IsHex(s[i + 2])
    then Some(HexValue(s[i + 1]) * 16 + HexValue(s[i + 2]))
    else None
  }

  /** A UTF-8 continuation byte `10xxxxxx` at position i: its six payload bits. */
  function ContAt(s: string, i: nat): Option<nat> {
    var b := ByteAt(s, i);
    if b.Some? && 0x80 <= b.value < 0xC0 then Some(b.value - 0x80) else None
  }

  predicate IsScalar(cp: int) { 0 <= cp < 0xD800 || 0xE000 <= cp < 0x11_0000 }

  /** The character spelt by the escapes at the front of s, and the number of text
      characters they take; overlong forms, surrogates and values past U+10FFFF are refused. */
  function DecodeEscaped(s: string): Option<(char, nat)> {
    var b0 := ByteAt(s, 0);
    if b0.None? then None
    else if b0.value < 0x80 then Some((b0.value as char, 3))
    else if 0xC0 <= b0.value < 0xE0 then TwoByteChar(s, b0.value - 0xC0)
    else if 0xE0 <= b0.value < 0xF0 then ThreeByteChar(s, b0.value - 0xE0)
    else if 0xF0 <= b0.value < 0xF8 then FourByteChar(s, b0.value - 0xF0)
    else None
  }

  /** A two-byte sequence whose lead byte carries the bits `lead`. */
  function TwoByteChar(s: string, lead: nat): Option<(char, nat)>
    requires lead < 32
  {
    var c1 := ContAt(s, 3);
    if c1.None? then None
    else
      var cp := lead * 64 + c1.value;
      if 0x80 <= cp then Some((cp as char, 6)) else None
  }

  /** A three-byte sequence whose lead byte carries the bits `lead`. */
  function ThreeByteChar(s: string, lead: nat): Option<(char, nat)>
    requires lead < 16
  {
    var c1 := ContAt(s, 3);
    var c2 := ContAt(s, 6);
    if c1.None? || c2.None? then None
    else
      var cp := lead * 4096 + c1.value * 64 + c2.value;
      if 0x800 <= cp && IsScalar(cp) then Some((cp as char, 9)) else None
  }

  /** A four-byte sequence whose lead byte carries the bits `lead`. */
  function FourByteChar(s: string, lead: nat): Option<(char, nat)>
    requires lead < 8
  {
    var c1 := ContAt(s, 3);
    var c2 := ContAt(s, 6);
    var c3 := ContAt(s, 9);
    if c1.None? || c2.None? || c3.None? then None
    else
      var cp := lead * 262144 + c1.value * 4096 + c2.value * 64 + c3.value;
      if 0x1_0000 <= cp < 0x11_0000 then Some((cp as char, 12)) else None
  }

  /** decodeURIComponent(s); None where it would throw a URIError. */
  function DecodeComponent(s: string): Option<string>
    decreases |s|
  {
    if s == [] then Some([])
    else if s[0] != '%' then
      match DecodeComponent(s[1..])
      case None => None
      case Some(r) => Some([s[0]] + r)
    else
      match DecodeEscaped(s)
      case None => None
      case Some((c, n)) =>
        if n == 0 || n > |s| then None
        else
          match DecodeComponent(s[n..])
          case None => None
          case Some(r) => Some([c] + r)
  }

  lemma EscapeRead(b: nat, rest: string)
    requires b < 256
    ensures ByteAt(Escape(b) + rest, 0) == Some(b)
  {
    var s := Escape(b) + rest;
    assert s[0] == '%' && s[1] == HexDigit(b / 16) && s[2] == HexDigit(b % 16);
  }

  lemma ContinuationRead(x: nat, rest: string)
    requires x < 64
    ensures ContAt(Escape(0x80 + x) + rest, 0) == Some(x)
  {
    EscapeRead(0x80 + x, rest);
  }

  /** Reading a continuation byte three characters further on. */
  lemma ByteAtShift(pre: string, s: string, i: nat)
    requires |pre| == 3
    ensures ByteAt(pre + s, i + 3) == ByteAt(s, i)
    ensures ContAt(pre + s, i + 3) == ContAt(s, i)
  {
    var t := pre + s;
    if i + 3 <= |s| {
      assert t[i + 3] == s[i] && t[i + 4] == s[i + 1] && t[i + 5] == s[i + 2];
    }
  }

  lemma Decode1(cp: nat, rest: string)
    requires cp < 0x80
    ensures DecodeEscaped(Escape(cp) + rest) == Some((cp as char, 3))
  {
    EscapeRead(cp, rest);
  }

  lemma Decode2(cp: nat, rest: string)
    requires 0x80 <= cp < 0x800
    ensures DecodeEscaped(Escape(0xC0 + cp / 64) + (Escape(0x80 + cp % 64) + rest))
            == Some((cp as char, 6))
  {
    var e0 := Escape(0xC0 + cp / 64);
    var e1 := Escape(0x80 + cp % 64);
    EscapeRead(0xC0 + cp / 64, e1 + rest);
    ContinuationRead(cp % 64, rest);
    ByteAtShift(e0, e1 + rest, 0);
    assert (cp / 64) * 64 + cp % 64 == cp;
  }

  lemma Decode3(cp: nat, rest: string)
    requires 0x800 <= cp < 0x1_0000 && IsScalar(cp)
    ensures DecodeEscaped(Escape(0xE0 + cp / 4096) + (Escape(0x80 + cp / 64 % 64)
                          + (Escape(0x80 + cp % 64) + rest)))
            == Some((cp as char, 9))
  {
    var e0 := Escape(0xE0 + cp / 4096);
    var e1 := Escape(0x80 + cp / 64 % 64);
    var e2 := Escape(0x80 + cp % 64);
    EscapeRead(0xE0 + cp / 4096, e1 + (e2 + rest));
    ContinuationRead(cp / 64 % 64, e2 + rest);
    ContinuationRead(cp % 64, rest);
    ByteAtShift(e0, e1 + (e2 + rest), 0);
    ByteAtShift(e0, e1 + (e2 + rest), 3);
    ByteAtShift(e1, e2 + rest, 0);
    Recombine3(cp);
  }

  /** The four escapes of a four-byte sequence read back as its lead byte and payloads. */
  lemma Reads4(b0: nat, x1: nat, x2: nat, x3: nat, rest: string)
    requires b0 < 256 && x1 < 64 && x2 < 64 && x3 < 64
    ensures var s := Escape(b0) + (Escape(0x80 + x1) + (Escape(0x80 + x2) + (Escape(0x80 + x3) + rest)));
            ByteAt(s, 0) == Some(b0) && ContAt(s, 3) == Some(x1) && ContAt(s, 6) == Some(x2)
            && ContAt(s, 9) == Some(x3)
  {
    var e0, e1, e2, e3 := Escape(b0), Escape(0x80 + x1), Escape(0x80 + x2), Escape(0x80 + x3);
    EscapeRead(b0, e1 + (e2 + (e3 + rest)));
    ContinuationRead(x1, e2 + (e3 + rest));
    ContinuationRead(x2, e3 + rest);
    ContinuationRead(x3, rest);
    ByteAtShift(e0, e1 + (e2 + (e3 + rest)), 0);
    ByteAtShift(e0, e1 + (e2 + (e3 + rest)), 3);
    ByteAtShift(e0, e1 + (e2 + (e3 + rest)), 6);
    ByteAtShift(e1, e2 + (e3 + rest), 0);
    ByteAtShift(e1, e2 + (e3 + rest), 3);
    ByteAtShift(e2, e3 + rest, 0);
  }

  lemma Decode4(cp: nat, rest: string)
    requires 0x1_0000 <= cp < 0x11_0000
    ensures DecodeEscaped(Escape(0xF0 + cp / 262144) + (Escape(0x80 + cp / 4096 % 64)
                          + (Escape(0x80 + cp / 64 % 64) + (Escape(0x80 + cp % 64) + rest))))
            == Some((cp as char, 12))
  {
    var lead, x1, x2, x3 := cp / 262144, cp / 4096 % 64, cp / 64 % 64, cp % 64;
    Recombine4(cp);
    Reads4(0xF0 + lead, x1, x2, x3, rest);
    var s := Escape(0xF0 + lead) + (Escape(0x80 + x1) + (Escape(0x80 + x2) + (Escape(0x80 + x3) + rest)));
    assert FourByteChar(s, lead) == Some((cp as char, 12));
    assert ByteAt(s, 0).value - 0xF0 == lead;
  }

  lemma EscapeAllCons(bytes: seq<nat>, rest: string)
    requires |bytes| >= 1 && forall k :: 0 <= k < |bytes| ==> bytes[k] < 256
    ensures EscapeAll(bytes) + rest == Escape(bytes[0]) + (EscapeAll(bytes[1..]) + rest)
  {
  }

  lemma EscapeAll4(b0: nat, b1: nat, b2: nat, b3: nat, rest: string)
    requires b0 < 256 && b1 < 256 && b2 < 256 && b3 < 256
    ensures EscapeAll([b0, b1, b2, b3]) + rest == Escape(b0) + (Escape(b1) + (Escape(b2) + (Escape(b3) + rest)))
  {
    var bytes := [b0, b1, b2, b3];
    EscapeAllCons(bytes, rest);
    EscapeAllCons(bytes[1..], rest);
    EscapeAllCons(bytes[2..], rest);
    EscapeAllCons(bytes[3..], rest);
  }

  lemma EncodeChar4(c: char, rest: string)
    requires !Unreserved(c) && 0x1_0000 <= c as nat
    ensures |EncodeChar(c)| == 12
    ensures var cp := c as nat;
            EncodeChar(c) + rest == Escape(0xF0 + cp / 262144) + (Escape(0x80 + cp / 4096 % 64)
                          + (Escape(0x80 + cp / 64 % 64) + (Escape(0x80 + cp % 64) + rest)))
  {
    var cp := c as nat;
    EscapeAll4(0xF0 + cp / 262144, 0x80 + cp / 4096 % 64, 0x80 + cp / 64 % 64, 0x80 + cp % 64, rest);
    EscapeAll4(0xF0 + cp / 262144, 0x80 + cp / 4096 % 64, 0x80 + cp / 64 % 64, 0x80 + cp % 64, []);
  }

  lemma EncodeChar2(c: char, rest: string)
    requires !Unreserved(c) && 0x80 <= c as nat < 0x800
    ensures var cp := c as nat;
            EncodeChar(c) + rest == Escape(0xC0 + cp / 64) + (Escape(0x80 + cp % 64) + rest)
  {
    var bytes := Utf8(c as nat);
    EscapeAllCons(bytes, rest);
    EscapeAllCons(bytes[1..], rest);
  }

  lemma EncodeChar3(c: char, rest: string)
    requires !Unreserved(c) && 0x800 <= c as nat < 0x1_0000
    ensures var cp := c as nat;
            EncodeChar(c) + rest == Escape(0xE0 + cp / 4096) + (Escape(0x80 + cp / 64 % 64)
                          + (Escape(0x80 + cp % 64) + rest))
  {
    var bytes := Utf8(c as nat);
    EscapeAllCons(bytes, rest);
    EscapeAllCons(bytes[1..], rest);
    EscapeAllCons(bytes[2..], rest);
  }

  lemma DecodeEscapedChar(c: char, rest: string)
    requires !Unreserved(c)
    ensures DecodeEscaped(EncodeChar(c) + rest) == Some((c, |EncodeChar(c)|))
  {
    var cp := c as nat;
    if cp < 0x80 {
      assert EncodeChar(c) + rest == Escape(cp) + rest by {
        EscapeAllCons(Utf8(cp), rest);
      }
      Decode1(cp, rest);
    } else if cp < 0x800 {
      DecodeEscapedChar2(c, rest);
    } else if cp < 0x1_0000 {
      DecodeEscapedChar3(c, rest);
    } else {
      DecodeEscapedChar4(c, rest);
    }
  }

  lemma DecodeEscapedChar2(c: char, rest: string)
    requires !Unreserved(c) && 0x80 <= c as nat < 0x800
    ensures DecodeEscaped(EncodeChar(c) + rest) == Some((c, |EncodeChar(c)|))
  {
    EncodeChar2(c, rest);
    Decode2(c as nat, rest);
  }

  lemma DecodeEscapedChar3(c: char, rest: string)
    requires !Unreserved(c) && 0x800 <= c as nat < 0x1_0000
    ensures DecodeEscaped(EncodeChar(c) + rest) == Some((c, |EncodeChar(c)|))
  {
    var cp := c as nat;
    var t := Escape(0xE0 + cp / 4096) + (Escape(0x80 + cp / 64 % 64) + (Escape(0x80 + cp % 64) + rest));
    EncodeChar3(c, rest);
    assert EncodeChar(c) + rest == t;
    assert IsScalar(cp);
    Decode3(cp, rest);
    assert DecodeEscaped(t) == Some((c, 9));
  }

  lemma DecodeEscapedChar4(c: char, rest: string)
    requires !Unreserved(c) && 0x1_0000 <= c as nat
    ensures DecodeEscaped(EncodeChar(c) + rest) == Some((c, |EncodeChar(c)|))
  {
    var cp := c as nat;
    var t := Escape(0xF0 + cp / 262144) + (Escape(0x80 + cp / 4096 % 64)
             + (Escape(0x80 + cp / 64 % 64) + (Escape(0x80 + cp % 64) + rest)));
    EncodeChar4(c, rest);
    Decode4(cp, rest);
    assert DecodeEscaped(t) == Some((c, 12));
  }

  lemma Recombine3(cp: nat)
    requires 0x800 <= cp < 0x1_0000
    ensures (cp / 4096) * 4096 + (cp / 64 % 64) * 64 + cp % 64 == cp
  {
    var q := cp / 64;
    assert cp == q * 64 + cp % 64;
    assert q == (q / 64) * 64 + q % 64;
    assert cp / 4096 == q / 64;
  }

  lemma Recombine4(cp: nat)
    requires 0x1_0000 <= cp < 0x11_0000
    ensures (cp / 262144) * 262144 + (cp / 4096 % 64) * 4096 + (cp / 64 % 64) * 64 + cp % 64 == cp
  {
    var q := cp / 64;
    var r := q / 64;
    assert cp == q * 64 + cp % 64;
    assert q == r * 64 + q % 64;
    assert r == (r / 64) * 64 + r % 64;
    assert cp / 4096 == r;
    assert cp / 262144 == r / 64;
  }

  /** Decoding an encoded component gives the component back. */
  lemma {:induction false} DecodeEncode(s: string)
    ensures DecodeComponent(EncodeComponent(s)) == Some(s)
    decreases |s|
  {
    if s != [] {
      DecodeEncode(s[1..]);
      var e := EncodeChar(s[0]);
      var rest := EncodeComponent(s[1..]);
      var t := e + rest;
      assert t == EncodeComponent(s);
      if Unreserved(s[0]) {
        assert t[0] == s[0] && t[1..] == rest;
      } else {
        DecodeEscapedChar(s[0], rest);
        assert t[0] == '%';
        assert t[|e|..] == rest;
      }
      assert [s[0]] + s[1..] == s;
    }
  }
}
