/** What the text forms of Encodings are, beyond undoing each other: the alphabets and test vectors of
    RFC 4648, the only bytes UTF-8 decoding accepts, and what base64 decoding skips. */
module EncodingVectors {
  import opened Common
  import opened Encodings

  // ---------------------------------------------------------------- base64 and base16

  /** Table 1 of RFC 4648: A to Z, a to z, 0 to 9, + and /, each range in the order of the characters. */
  lemma Alphabet(v: Sextet)
    ensures Symbol(0) == 'A' && Symbol(25) == 'Z' && Symbol(26) == 'a' && Symbol(51) == 'z' && Symbol(52) == '0' && Symbol(61) == '9'
    ensures Symbol(62) == '+' && Symbol(63) == '/'
    ensures v !in {25, 51, 61, 62, 63} ==> Symbol(v + 1) as int == Symbol(v) as int + 1
  {
  }

  /** The vectors of section 10 of RFC 4648: "f", "fo", "foo" and "foob". */
  lemma Base64Vectors()
    ensures Base64Encode([0x66]) == "Zg==" && Base64Encode([0x66, 0x6F]) == "Zm8=" && Base64Encode([0x66, 0x6F, 0x6F]) == "Zm9v"
    ensures Base64Encode([0x66, 0x6F, 0x6F, 0x62]) == "Zm9vYg=="
  {
    var none: seq<Byte> := [];
    assert [0x66, 0x6F, 0x6F][3..] == none && Base64Encode(none) == "";
    assert [0x66, 0x6F, 0x6F, 0x62][3..] == [0x62];
    assert "Zm9v" + "Yg==" == "Zm9vYg==";
  }

  /** "foob" in base16, in lower case as `bytes.hex` writes it and in upper case as the RFC does. */
  lemma HexVectors()
    ensures HexEncode([0x66, 0x6F, 0x6F, 0x62]) == "666f6f62"
    ensures HexDecode("6F") == Some([0x6F]) && HexDecode("6f") == Some([0x6F]) && HexDecode("6f 6F") == Some([0x6F, 0x6F])
    ensures HexDecode("6") == None && HexDecode("6g") == None
  {
    assert [0x66, 0x6F, 0x6F, 0x62][1..] == [0x6F, 0x6F, 0x62] && [0x6F, 0x6F, 0x62][1..] == [0x6F, 0x62];
    assert [0x6F, 0x62][1..] == [0x62] && [0x62][1..] == [];
    assert HexEncode([0x62]) == "62" && HexEncode([0x6F, 0x62]) == "6f62" && HexEncode([0x6F, 0x6F, 0x62]) == "6f6f62";
    assert "6F"[2..] == "" && "6f"[2..] == "" && HexDecode("") == Some([]);
    assert [0x6F] + [] == [0x6F];
    assert "6f 6F"[2..] == " 6F" && " 6F"[1..] == "6F" && HexDecode(" 6F") == Some([0x6F]);
    assert [0x6F] + [0x6F] == [0x6F, 0x6F];
  }

  /** `b64decode` skips an ASCII character that is neither a symbol nor `=`, wherever it stands. */
  lemma NoiseIsSkipped(a: string, c: char, b: string)
    requires c < '\U{0080}' && SymbolValue(c).None? && c != '='
    ensures Base64Decode(a + [c] + b) == Base64Decode(a + b)
  {
    hide DecodeFrom;
    NoiseSkippedFrom(a, c, b, 0, 0, 0);
    if IsAscii(a + b) {
      assert forall i :: 0 <= i < |a| ==> a[i] == (a + b)[i];
      assert forall i :: 0 <= i < |b| ==> b[i] == (a + b)[|a| + i];
    }
    if IsAscii(a + [c] + b) {
      assert forall i :: 0 <= i < |a| ==> a[i] == (a + [c] + b)[i];
      assert forall i :: 0 <= i < |b| ==> b[i] == (a + [c] + b)[|a| + 1 + i];
    }
  }

  lemma {:induction false} NoiseSkippedFrom(a: string, c: char, b: string, quad: nat, left: nat, pads: nat)
    requires quad < 4 && left < [1, 64, 16, 4][quad] && SymbolValue(c).None? && c != '='
    ensures DecodeFrom(a + [c] + b, quad, left, pads) == DecodeFrom(a + b, quad, left, pads)
    decreases |a|
  {
    hide SymbolValue;
    if a == "" {
      assert a + [c] + b == [c] + b && ([c] + b)[1..] == b && a + b == b;
    } else {
      var x, rest := a[0], a[1..];
      assert (a + [c] + b)[0] == x && (a + b)[0] == x;
      assert (a + [c] + b)[1..] == rest + [c] + b && (a + b)[1..] == rest + b;
      if x == '=' {
        NoiseSkippedFrom(rest, c, b, quad, left, pads);
        if quad >= 2 && quad + pads + 1 < 4 { NoiseSkippedFrom(rest, c, b, quad, left, pads + 1); }
      } else {
        match SymbolValue(x) {
          case None => NoiseSkippedFrom(rest, c, b, quad, left, pads);
          case Some(v) =>
            var quad', left' := (quad + 1) % 4, if quad == 0 then v else if quad == 1 then v % 16 else if quad == 2 then v % 4 else 0;
            NoiseSkippedFrom(rest, c, b, quad', left', 0);
        }
      }
    }
  }

  // ---------------------------------------------------------------- UTF-8

  /** UTF-8 decoding accepts exactly what encoding writes: no overlong form, no surrogate, nothing beyond
      U+10FFFF, nothing cut short. */
  lemma {:induction false} Utf8Exactly(b: seq<Byte>, s: string)
    ensures Utf8Decode(b) == Some(s) <==> b == Utf8Encode(s)
    decreases |b|
  {
    hide Utf8First, Utf8Char;
    Utf8RoundTrip(s);
    if Utf8Decode(b) == Some(s) && b != [] {
      var first := Utf8First(b).value;
      FirstIsChar(b);
      Utf8Exactly(b[first.1..], s[1..]);
      assert b == b[..first.1] + b[first.1..];
      assert s[0] == first.0 && Utf8Decode(b[first.1..]) == Some(s[1..]);
    }
  }

  lemma FirstIsChar(b: seq<Byte>)
    requires Utf8First(b).Some?
    ensures b[..Utf8First(b).value.1] == Utf8Char(Utf8First(b).value.0)
  {
    var (c, n) := Utf8First(b).value;
    var m := c as int / 64;
    if n == 2 {
      assert m == b[0] - 0xC0 && c as int % 64 == Low(b[1]);
    } else if n == 3 {
      assert m == (b[0] - 0xE0) * 64 + Low(b[1]) && c as int % 64 == Low(b[2]);
      assert m / 64 == b[0] - 0xE0 && m % 64 == Low(b[1]);
    } else if n == 4 {
      assert m == ((b[0] - 0xF0) * 64 + Low(b[1])) * 64 + Low(b[2]) && c as int % 64 == Low(b[3]);
      assert m / 64 == (b[0] - 0xF0) * 64 + Low(b[1]) && m % 64 == Low(b[2]);
      assert m / 64 / 64 == b[0] - 0xF0 && m / 64 % 64 == Low(b[1]);
    }
  }

  /** The examples of section 7 of RFC 3629: U+2262 and U+0391 in the first, U+233B4 in the last. */
  lemma Utf8Vectors()
    ensures Utf8Encode("\U{2262}") == [0xE2, 0x89, 0xA2] && Utf8Encode("\U{0391}") == [0xCE, 0x91]
    ensures Utf8Encode("\U{233B4}") == [0xF0, 0xA3, 0x8E, 0xB4]
  {
    assert "\U{2262}"[1..] == "" && "\U{0391}"[1..] == "" && "\U{233B4}"[1..] == "" && Utf8Encode("") == [];
  }
}
