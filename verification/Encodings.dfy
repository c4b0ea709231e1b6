/** Bytes and their text forms as Python produces and reads them: UTF-8, base64 (RFC 4648 section 4)
    and base16 (section 8). Decoding follows CPython: what is no symbol is skipped, a group that ends
    early is an error, and text after the padding is ignored. For each form the decoder is shown to
    undo the encoder. */
module Encodings {
  import opened Common

  type Byte = b: int | 0 <= b < 256

  // ---------------------------------------------------------------- base64

  type Sextet = v: int | 0 <= v < 64

  function Symbol(v: Sextet): char {
    if v < 26 then ('A' as int + v) as char
    else if v < 52 then ('a' as int + v - 26) as char
    else if v < 62 then ('0' as int + v - 52) as char
    else if v == 62 then '+' else '/'
  }

  function SymbolValue(c: char): (v: Option<Sextet>)
    ensures v.Some? ==> Symbol(v.value) == c
  {
    if 'A' <= c <= 'Z' then Some(c as int - 'A' as int)
    else if 'a' <= c <= 'z' then Some(c as int - 'a' as int + 26)
    else if '0' <= c <= '9' then Some(c as int - '0' as int + 52)
    else if c == '+' then Some(62) else if c == '/' then Some(63) else None
  }

  lemma SymbolIsRead(v: Sextet)
    ensures SymbolValue(Symbol(v)) == Some(v) && Symbol(v) != '=' && Symbol(v) < '\U{0080}'
  {
  }

  /** `base64.b64encode`. */
  function Base64Encode(b: seq<Byte>): (s: string)
    ensures |s| % 4 == 0
  {
    if b == [] then ""
    else if |b| == 1 then [Symbol(b[0] / 4), Symbol(b[0] % 4 * 16), '=', '=']
    else if |b| == 2 then [Symbol(b[0] / 4), Symbol(b[0] % 4 * 16 + b[1] / 16), Symbol(b[1] % 16 * 4), '=']
    else
      [Symbol(b[0] / 4), Symbol(b[0] % 4 * 16 + b[1] / 16), Symbol(b[1] % 16 * 4 + b[2] / 64), Symbol(b[2] % 64)]
      + Base64Encode(b[3..])
  }

  function Cons(b: Byte, rest: Option<seq<Byte>>): Option<seq<Byte>> {
    match rest case None => None case Some(r) => Some([b] + r)
  }

  /** The decoder behind `base64.b64decode`, reading from position `quad` of a group of four with the
      bits `left` over: characters outside the alphabet are skipped, and the padding that completes a
      group ends the input. */
  function DecodeFrom(s: string, quad: nat, left: nat, pads: nat): Option<seq<Byte>>
    requires quad < 4 && left < [1, 64, 16, 4][quad]
  {
    if s == "" then if quad == 0 then Some([]) else None
    else if s[0] == '=' then
      if quad < 2 then DecodeFrom(s[1..], quad, left, pads)
      else if quad + pads + 1 >= 4 then Some([])
      else DecodeFrom(s[1..], quad, left, pads + 1)
    else
      match SymbolValue(s[0])
      case None => DecodeFrom(s[1..], quad, left, pads)
      case Some(v) =>
        if quad == 0 then DecodeFrom(s[1..], 1, v, 0)
        else if quad == 1 then Cons(left * 4 + v / 16, DecodeFrom(s[1..], 2, v % 16, 0))
        else if quad == 2 then Cons(left * 16 + v / 4, DecodeFrom(s[1..], 3, v % 4, 0))
        else Cons(left * 64 + v, DecodeFrom(s[1..], 0, 0, 0))
  }

  predicate IsAscii(s: string) { forall i :: 0 <= i < |s| ==> s[i] < '\U{0080}' }

  function Base64Decode(s: string): Option<seq<Byte>> {
    if IsAscii(s) then DecodeFrom(s, 0, 0, 0) else None
  }

  lemma ReadSymbol(v: Sextet, rest: string, quad: nat, left: nat, pads: nat)
    requires quad < 4 && left < [1, 64, 16, 4][quad]
    ensures DecodeFrom([Symbol(v)] + rest, quad, left, pads)
            == if quad == 0 then DecodeFrom(rest, 1, v, 0)
               else if quad == 1 then Cons(left * 4 + v / 16, DecodeFrom(rest, 2, v % 16, 0))
               else if quad == 2 then Cons(left * 16 + v / 4, DecodeFrom(rest, 3, v % 4, 0))
               else Cons(left * 64 + v, DecodeFrom(rest, 0, 0, 0))
  {
    SymbolIsRead(v);
    assert ([Symbol(v)] + rest)[1..] == rest;
  }

  lemma {:induction false} Base64Full(b: seq<Byte>)
    requires |b| >= 3
    ensures DecodeFrom(Base64Encode(b), 0, 0, 0)
            == Cons(b[0], Cons(b[1], Cons(b[2], DecodeFrom(Base64Encode(b[3..]), 0, 0, 0))))
  {
    hide DecodeFrom, Symbol;
    var rest := Base64Encode(b[3..]);
    var v0, v1, v2, v3 := b[0] / 4, b[0] % 4 * 16 + b[1] / 16, b[1] % 16 * 4 + b[2] / 64, b[2] % 64;
    var s3 := [Symbol(v3)] + rest;
    var s2 := [Symbol(v2)] + s3;
    var s1 := [Symbol(v1)] + s2;
    assert Base64Encode(b) == [Symbol(v0)] + s1;
    ReadSymbol(v0, s1, 0, 0, 0);
    ReadSymbol(v1, s2, 1, v0, 0);
    ReadSymbol(v2, s3, 2, v1 % 16, 0);
    ReadSymbol(v3, rest, 3, v2 % 4, 0);
    assert v0 * 4 + v1 / 16 == b[0] && v1 % 16 * 16 + v2 / 4 == b[1] && v2 % 4 * 64 + v3 == b[2];
  }

  lemma {:induction false} Base64Tail(b: seq<Byte>)
    requires 1 <= |b| <= 2
    ensures DecodeFrom(Base64Encode(b), 0, 0, 0) == Some(b)
  {
    var v0 := b[0] / 4;
    if |b| == 1 {
      var v1 := b[0] % 4 * 16;
      assert v0 * 4 + v1 / 16 == b[0];
      assert [b[0]] + [] == b;
      assert Base64Encode(b) == [Symbol(v0)] + ([Symbol(v1)] + "==");
      ReadSymbol(v0, [Symbol(v1)] + "==", 0, 0, 0);
      ReadSymbol(v1, "==", 1, v0, 0);
      assert "=="[1..] == "=";
      assert DecodeFrom("=", 2, v1 % 16, 1) == Some([]);
      assert DecodeFrom("==", 2, v1 % 16, 0) == Some([]);
    } else {
      var v1, v2 := b[0] % 4 * 16 + b[1] / 16, b[1] % 16 * 4;
      assert Base64Encode(b) == [Symbol(v0)] + ([Symbol(v1)] + ([Symbol(v2)] + "="));
      ReadSymbol(v0, [Symbol(v1)] + ([Symbol(v2)] + "="), 0, 0, 0);
      ReadSymbol(v1, [Symbol(v2)] + "=", 1, v0, 0);
      ReadSymbol(v2, "=", 2, v1 % 16, 0);
      assert DecodeFrom("=", 3, v2 % 4, 0) == Some([]);
      assert v0 * 4 + v1 / 16 == b[0] && v1 % 16 * 16 + v2 / 4 == b[1];
      assert [b[0]] + ([b[1]] + []) == b;
    }
  }

  lemma {:induction false} Base64Ascii(b: seq<Byte>)
    ensures IsAscii(Base64Encode(b))
    decreases |b|
  {
    forall v: Sextet ensures Symbol(v) < '\U{0080}' { SymbolIsRead(v); }
    if |b| >= 3 { Base64Ascii(b[3..]); }
  }

  lemma {:induction false} DecodeEncoded(b: seq<Byte>)
    ensures DecodeFrom(Base64Encode(b), 0, 0, 0) == Some(b)
    decreases |b|
  {
    if |b| >= 3 {
      Base64Full(b);
      DecodeEncoded(b[3..]);
      assert b == [b[0]] + ([b[1]] + ([b[2]] + b[3..]));
    } else if b != [] {
      Base64Tail(b);
    }
  }

  lemma Base64RoundTrip(b: seq<Byte>)
    ensures Base64Decode(Base64Encode(b)) == Some(b)
  {
    hide DecodeFrom, Base64Encode;
    Base64Ascii(b);
    DecodeEncoded(b);
  }

  // ---------------------------------------------------------------- stripped padding

  function StripPadding(s: string): string {
    if s != "" && s[|s| - 1] == '=' then StripPadding(s[..|s| - 1]) else s
  }

  function Equals(n: nat): (r: string)
    ensures |r| == n
  {
    seq(n, _ => '=')
  }

  /** Padding added up to a multiple of four, as `_decrypt_file` does for a key without it. */
  function Repad(s: string): string {
    if |s| % 4 == 0 then s else s + Equals(4 - |s| % 4)
  }

  /** How an encoded text ends: in no, one or two `=` after a symbol. */
  lemma {:induction false} EncodedEnding(b: seq<Byte>) returns (body: string, n: nat)
    ensures n <= 2 && Base64Encode(b) == body + Equals(n)
    ensures body == "" || body[|body| - 1] != '='
    decreases |b|
  {
    hide Symbol;
    forall v: Sextet ensures Symbol(v) != '=' { SymbolIsRead(v); }
    if |b| < 3 {
      body, n := ShortEnding(b);
    } else {
      var front := Base64Encode(b)[..4];
      assert front[3] == Symbol(b[2] % 64);
      assert Base64Encode(b) == front + Base64Encode(b[3..]);
      var rest;
      rest, n := EncodedEnding(b[3..]);
      body := front + rest;
    }
  }

  lemma ShortEnding(b: seq<Byte>) returns (body: string, n: nat)
    requires |b| < 3
    ensures n <= 2 && Base64Encode(b) == body + Equals(n)
    ensures body == "" || body[|body| - 1] != '='
  {
    hide Symbol;
    forall v: Sextet ensures Symbol(v) != '=' { SymbolIsRead(v); }
    var s := Base64Encode(b);
    n := if b == [] then 0 else 3 - |b|;
    body := s[..|s| - n];
  }

  lemma {:induction false} StripsEquals(body: string, n: nat)
    requires body == "" || body[|body| - 1] != '='
    ensures StripPadding(body + Equals(n)) == body
    decreases n
  {
    if n == 0 {
      assert body + Equals(0) == body;
    } else {
      assert (body + Equals(n))[..|body| + n - 1] == body + Equals(n - 1);
      StripsEquals(body, n - 1);
    }
  }

  lemma RepadUndoesStripping(b: seq<Byte>)
    ensures Repad(StripPadding(Base64Encode(b))) == Base64Encode(b)
  {
    hide Base64Encode, StripPadding, Equals;
    var body, n := EncodedEnding(b);
    StripsEquals(body, n);
    assert |body| + n == |Base64Encode(b)|;
    assert body + Equals(0) == body;
  }

  // ---------------------------------------------------------------- base16

  function HexDigit(v: nat): char
    requires v < 16
  {
    if v < 10 then ('0' as int + v) as char else ('a' as int + v - 10) as char
  }

  function HexValue(c: char): Option<nat> {
    if '0' <= c <= '9' then Some(c as int - '0' as int)
    else if 'a' <= c <= 'f' then Some(c as int - 'a' as int + 10)
    else if 'A' <= c <= 'F' then Some(c as int - 'A' as int + 10)
    else None
  }

  /** `bytes.hex`. */
  function HexEncode(b: seq<Byte>): (s: string)
    ensures |s| == 2 * |b|
  {
    if b == [] then "" else [HexDigit(b[0] / 16), HexDigit(b[0] % 16)] + HexEncode(b[1..])
  }

  /** `bytes.fromhex`: white space may stand between bytes. */
  function HexDecode(s: string): Option<seq<Byte>> {
    if s == "" then Some([])
    else if s[0] == ' ' || '\t' <= s[0] <= '\r' then HexDecode(s[1..])
    else if |s| == 1 then None
    else
      match (HexValue(s[0]), HexValue(s[1]))
      case (Some(h), Some(l)) => if h < 16 && l < 16 then Cons(h * 16 + l, HexDecode(s[2..])) else None
      case _ => None
  }

  lemma {:induction false} HexRoundTrip(b: seq<Byte>)
    ensures HexDecode(HexEncode(b)) == Some(b)
  {
    if b != [] {
      HexRoundTrip(b[1..]);
      var s := HexEncode(b);
      assert s[2..] == HexEncode(b[1..]);
      assert HexValue(s[0]) == Some(b[0] / 16) && HexValue(s[1]) == Some(b[0] % 16);
      assert b == [b[0]] + b[1..];
    }
  }

  // ---------------------------------------------------------------- UTF-8

  function Utf8Char(c: char): seq<Byte> {
    var n: int := c as int;
    if n < 0x80 then [n]
    else if n < 0x800 then [Lead(0xC0, n / 64), Continuation(n)]
    else if n < 0x10000 then [Lead(0xE0, n / 64 / 64), Continuation(n / 64), Continuation(n)]
    else [Lead(0xF0, n / 64 / 64 / 64), Continuation(n / 64 / 64), Continuation(n / 64), Continuation(n)]
  }

  function Lead(mark: nat, high: nat): Byte
    requires mark + high < 256
  {
    mark + high
  }

  function Continuation(n: nat): Byte { 0x80 + n % 64 }

  /** `str.encode()`. */
  function Utf8Encode(s: string): seq<Byte> {
    if s == "" then [] else Utf8Char(s[0]) + Utf8Encode(s[1..])
  }

  predicate IsContinuation(b: Byte) { 0x80 <= b < 0xC0 }

  function Low(b: Byte): int { b as int - 0x80 }

  /** The character at the front and the number of bytes it takes; overlong forms, surrogates and
      values above U+10FFFF are errors. */
  function Utf8First(b: seq<Byte>): (r: Option<(char, nat)>)
    ensures r.Some? ==> 1 <= r.value.1 <= |b|
  {
    if b == [] then None
    else if b[0] < 0x80 then Some((b[0] as char, 1))
    else if 0xC2 <= b[0] < 0xE0 && |b| >= 2 && IsContinuation(b[1]) then
      var n := (b[0] as int - 0xC0) * 64 + Low(b[1]);
      Some((n as char, 2))
    else if 0xE0 <= b[0] < 0xF0 && |b| >= 3 && IsContinuation(b[1]) && IsContinuation(b[2]) then
      var n := ((b[0] as int - 0xE0) * 64 + Low(b[1])) * 64 + Low(b[2]);
      if 0x800 <= n < 0xD800 || 0xE000 <= n < 0x10000 then Some((n as char, 3)) else None
    else if 0xF0 <= b[0] < 0xF5 && |b| >= 4 && IsContinuation(b[1]) && IsContinuation(b[2]) && IsContinuation(b[3]) then
      var n := (((b[0] as int - 0xF0) * 64 + Low(b[1])) * 64 + Low(b[2])) * 64 + Low(b[3]);
      if 0x10000 <= n < 0x110000 then Some((n as char, 4)) else None
    else None
  }

  /** `bytes.decode('utf8')`. */
  function Utf8Decode(b: seq<Byte>): Option<string>
    decreases |b|
  {
    if b == [] then Some("")
    else
      match Utf8First(b)
      case None => None
      case Some((c, n)) =>
        match Utf8Decode(b[n..])
        case None => None
        case Some(rest) => Some([c] + rest)
  }

  lemma Utf8FirstOf(c: char, rest: seq<Byte>)
    ensures Utf8First(Utf8Char(c) + rest) == Some((c, |Utf8Char(c)|))
  {
    var n := c as int;
    var m := n / 64;
    var b := Utf8Char(c) + rest;
    assert n == m * 64 + n % 64 && m == m / 64 * 64 + m % 64;
    if n < 0x800 {
      assert n >= 0x80 ==> b[0] == 0xC0 + m && Low(b[1]) == n % 64;
    } else if n < 0x10000 {
      assert b[0] == 0xE0 + m / 64 && Low(b[1]) == m % 64 && Low(b[2]) == n % 64;
    } else {
      assert b[0] == 0xF0 + m / 64 / 64 && Low(b[1]) == m / 64 % 64 && Low(b[2]) == m % 64 && Low(b[3]) == n % 64;
    }
  }

  lemma {:induction false} Utf8RoundTrip(s: string)
    ensures Utf8Decode(Utf8Encode(s)) == Some(s)
  {
    hide Utf8First, Utf8Char;
    if s != "" {
      var head, rest := Utf8Char(s[0]), Utf8Encode(s[1..]);
      Utf8FirstOf(s[0], rest);
      assert (head + rest)[|head|..] == rest;
      Utf8RoundTrip(s[1..]);
      assert s == [s[0]] + s[1..];
    }
  }

  /** Text that is ASCII anyway is its own bytes. */
  lemma {:induction false} Utf8Ascii(s: string)
    requires IsAscii(s)
    ensures |Utf8Encode(s)| == |s| && forall i :: 0 <= i < |s| ==> Utf8Encode(s)[i] == s[i] as int
  {
    if s != "" { Utf8Ascii(s[1..]); }
  }
}
