/** What the other side of the WeCom message encryption sees: the order under the signature, the bytes
    under AES, which messages are refused and with which code. */
module CryptWire {
  import opened Common
  import opened Encodings
  import opened Padding
  import opened FileTransport
  import opened Xml
  import opened MessageCrypt

  // ---------------------------------------------------------------- the signature

  /** In the order of code points: the first difference decides, and a prefix comes first. */
  ghost predicate Before(a: string, b: string) {
    a <= b || exists i :: 0 <= i < |a| && i < |b| && a[..i] == b[..i] && a[i] < b[i]
  }

  lemma {:induction false} AtMostExactly(a: string, b: string)
    ensures AtMost(a, b) <==> Before(a, b)
  {
    hide Before;
    if a == "" || b == "" {
      NothingBefore(a, b);
    } else {
      AtMostExactly(a[1..], b[1..]);
      if a[0] == b[0] { SameHead(a, b); } else { OtherHead(a, b); }
    }
  }

  lemma NothingBefore(a: string, b: string)
    requires a == "" || b == ""
    ensures Before(a, b) <==> a == ""
  {
  }

  lemma SameHead(a: string, b: string)
    requires a != "" && b != "" && a[0] == b[0]
    ensures Before(a, b) <==> Before(a[1..], b[1..])
  {
    var x, y := a[1..], b[1..];
    assert a == [a[0]] + x && b == [b[0]] + y;
    assert a <= b <==> x <= y;
    if i: nat :| i < |x| && i < |y| && x[..i] == y[..i] && x[i] < y[i] { DiffersLater(a, b, i); }
    if i: nat :| i < |a| && i < |b| && a[..i] == b[..i] && a[i] < b[i] {
      DiffersLater(a, b, i - 1);
      assert x[i - 1] < y[i - 1];
    }
  }

  lemma DiffersLater(a: string, b: string, i: nat)
    requires a != "" && b != "" && a[0] == b[0] && i + 1 < |a| && i + 1 < |b|
    ensures a[1..][..i] == b[1..][..i] <==> a[..i + 1] == b[..i + 1]
    ensures a[1..][i] == a[i + 1] && b[1..][i] == b[i + 1]
  {
    assert a[..i + 1] == [a[0]] + a[1..][..i] && b[..i + 1] == [b[0]] + b[1..][..i];
    assert a[1..][..i] == a[..i + 1][1..] && b[1..][..i] == b[..i + 1][1..];
  }

  lemma OtherHead(a: string, b: string)
    requires a != "" && b != "" && a[0] != b[0]
    ensures Before(a, b) <==> a[0] < b[0]
  {
    if a[0] < b[0] { assert a[..0] == b[..0]; }
    if i: nat :| i < |a| && i < |b| && a[..i] == b[..i] && a[i] < b[i] {
      if i > 0 { SameStart(a, b, i); }
    }
  }

  lemma SameStart(a: string, b: string, i: nat)
    requires 0 < i < |a| && i < |b| && a[..i] == b[..i]
    ensures a[0] == b[0]
  {
    assert a[..i][0] == a[0] && b[..i][0] == b[0];
  }

  /** The signature is the digest of the four parts in ascending order; they may be given in any order. */
  lemma SignatureExactly(hash: string -> string, a: string, b: string, c: string, d: string, parts: seq<string>)
    requires Before(a, b) && Before(b, c) && Before(c, d) && multiset(parts) == multiset([a, b, c, d])
    ensures Signature(hash, parts) == hash(a + b + c + d)
  {
    hide AtMost, Before, Sort, Join, Sorted;
    AscendingIsSorted(a, b, c, d);
    SortSorts(parts);
    SortedUnique(Sort(parts), [a, b, c, d]);
    JoinFour(a, b, c, d);
  }

  lemma AscendingIsSorted(a: string, b: string, c: string, d: string)
    requires Before(a, b) && Before(b, c) && Before(c, d)
    ensures Sorted([a, b, c, d])
  {
    hide AtMost, Before;
    AtMostExactly(a, b);
    AtMostExactly(b, c);
    AtMostExactly(c, d);
    AtMostTransitive(a, b, c);
    AtMostTransitive(b, c, d);
    AtMostTransitive(a, b, d);
  }

  lemma JoinFour(a: string, b: string, c: string, d: string)
    ensures Join([a, b, c, d]) == a + b + c + d
  {
    assert [a, b, c, d][1..] == [b, c, d] && [b, c, d][1..] == [c, d] && [c, d][1..] == [d] && [d][1..] == [];
    assert Join([]) == "" && Join([d]) == d && Join([c, d]) == c + d && Join([b, c, d]) == b + (c + d);
    assert a + (b + (c + d)) == a + b + c + d;
  }

  // ---------------------------------------------------------------- under AES

  /** For every peer that decrypts with the first 16 bytes of the key as the initialisation vector: it finds
      16 random bytes, the length high byte first, the text and the receive id, padded to blocks of 32. */
  lemma WireFormat(aes: Cbc, host: Host, key: seq<Byte>, random: seq<Byte>, message: string, receiveId: string)
    requires CbcInverts(aes) && IsAesKey(key) && |random| == 16 && |Utf8Encode(message)| < 0x1_0000_0000
    ensures var text, n := Utf8Encode(message), |Utf8Encode(message)|;
            var encrypt := Encrypt(aes, host, key, random, message, receiveId);
            encrypt.Some? && Base64Decode(encrypt.value).Some?
            && aes.decrypt(key, key[..16], Base64Decode(encrypt.value).value)
               == Pad(32, random + [n / 0x100_0000, n / 0x1_0000 % 0x100, n / 0x100 % 0x100, n % 0x100] + text + Utf8Encode(receiveId))
  {
    hide Utf8Encode, Base64Encode, Base64Decode, Pad, CbcInverts, Bytes4, Encrypt;
    EncryptIs(aes, host, key, random, message, receiveId);
    HighByteFirst(|Utf8Encode(message)|);
    var plain := random + Bytes4(|Utf8Encode(message)|) + Utf8Encode(message) + Utf8Encode(receiveId);
    Base64RoundTrip(aes.encrypt(key, key[..16], Pad(32, plain)));
    Inverted(aes, key, key[..16], Pad(32, plain));
  }

  lemma EncryptIs(aes: Cbc, host: Host, key: seq<Byte>, random: seq<Byte>, message: string, receiveId: string)
    requires IsAesKey(key) && |Utf8Encode(message)| < 0x1_0000_0000
    ensures var plain := random + Bytes4(|Utf8Encode(message)|) + Utf8Encode(message) + Utf8Encode(receiveId);
            Encrypt(aes, host, key, random, message, receiveId) == Some(Base64Encode(aes.encrypt(key, key[..16], Pad(32, plain))))
  {
    hide Utf8Encode, Base64Encode, Pad, Pack, HostToNet, Bytes4;
    LengthField(host, |Utf8Encode(message)|);
  }

  lemma HighByteFirst(n: nat)
    requires n < 0x1_0000_0000
    ensures Bytes4(n) == [n / 0x100_0000, n / 0x1_0000 % 0x100, n / 0x100 % 0x100, n % 0x100]
  {
  }

  lemma Inverted(aes: Cbc, key: seq<Byte>, iv: seq<Byte>, data: seq<Byte>)
    requires CbcInverts(aes) && IsAesKey(key) && |iv| == 16 && |data| % 16 == 0
    ensures aes.decrypt(key, iv, aes.encrypt(key, iv, data)) == data
  {
  }

  // ---------------------------------------------------------------- what is refused

  /** A message is accepted only under its own signature, with code 0; one with another signature is refused
      with -40001, one without the element with -40002 and an empty one with -40003. */
  lemma OnlySigned(aes: Cbc, hash: string -> string, p: Party, postData: string, signature: string, timestamp: string, nonce: string)
    requires IsAesKey(p.key)
    ensures var r, encrypt := DecryptMsg(aes, hash, p, postData, signature, timestamp, nonce), Field(postData, "Encrypt");
            (r.Returned? && r.content.Some? ==> r.code == 0 && encrypt.Some? && signature == Signature(hash, [p.token, timestamp, nonce, encrypt.value]))
            && (r.Returned? && r.content.None? ==> r.code in {-40001, -40002, -40003, -40005, -40007, -40008})
            && (r == Returned(-40001, None) <==>
                  encrypt.Some? && encrypt.value != "" && signature != Signature(hash, [p.token, timestamp, nonce, encrypt.value]))
            && (r == Returned(-40002, None) <==> encrypt.None?)
            && (r == Returned(-40003, None) <==> encrypt == Some(""))
  {
    hide Field, Signature, Base64Decode, Utf8Decode, HostToNet, Unpack, SliceFromBack;
  }

  /** What is no base64, or no whole number of AES blocks, is refused with -40007 before it is decrypted. */
  lemma NoBlocks(aes: Cbc, host: Host, key: seq<Byte>, text: string, receiveId: string)
    requires IsAesKey(key)
    ensures Decrypt(aes, host, key, text, receiveId) == Returned(-40007, None)
       <==> Base64Decode(text).None? || |Base64Decode(text).value| % 16 != 0
  {
    hide Base64Decode, Utf8Decode, HostToNet, Unpack, SliceFromBack;
  }

  /** A plaintext is refused with -40008 exactly if it is too short for the random bytes and the length field
      before the padding its last byte announces. */
  lemma TooShort(host: Host, plain: seq<Byte>, receiveId: string)
    ensures Unframe(host, plain, receiveId) == Returned(-40008, None)
       <==> plain == [] || plain[|plain| - 1] == 0 || |plain| < 20 + plain[|plain| - 1] as int
  {
    hide Utf8Decode, HostToNet, Unpack;
  }

  /** A length field beyond the end takes all there is as the text and leaves an empty receive id. */
  lemma LengthBeyondEnd(host: Host, random: seq<Byte>, n: nat, body: seq<Byte>, receiveId: string)
    requires |random| == 16 && |body| <= n < 0x1_0000_0000
    ensures Unframe(host, Pad(32, random + Bytes4(n) + body), receiveId)
            == if receiveId == "" then Returned(0, Some(body)) else Returned(-40005, None)
  {
    hide Utf8Encode, Utf8Decode, Pad, WellPadded, Pack, Unpack, HostToNet, SliceFromBack, Bytes4;
    LengthField(host, n);
    FourBytes(n);
    var plain := random + Bytes4(n) + body;
    var padded := Pad(32, plain);
    PadRoundTrip(32, plain, 32);
    SliceAgrees(padded, 32);
    var content := SliceFromBack(padded, 16, padded[|padded| - 1]);
    assert plain[16..] == Bytes4(n) + body;
    assert content[..4] == Bytes4(n) && content[4..] == body;
    assert body[|body|..] == [] && body[..|body|] == body;
    assert Utf8Decode([]) == Some("") by { Utf8RoundTrip(""); EmptyText(); }
  }

  lemma EmptyText()
    ensures Utf8Encode("") == []
  {
  }

  /** Nonce and time stamp can be read from the envelope as well. */
  lemma EnvelopeCarriesAll(encrypt: string, signature: string, timestamp: string, nonce: string)
    requires PlainSection(encrypt) && PlainSection(signature) && !Markup(timestamp, nonce)
    ensures var xml := Generate(encrypt, signature, timestamp, nonce);
            Field(xml, "TimeStamp") == Some(timestamp) && Field(xml, "Nonce") == Some(nonce)
  {
    hide Field, Generate, PlainSection, Clean, Envelope, PlainText;
    var fields := Fields(encrypt, signature, timestamp, nonce);
    FieldsClean(encrypt, signature, timestamp, nonce);
    EnvelopeClean(fields);
    GeneratedIsEnvelope(encrypt, signature, timestamp, nonce);
    FieldOfEnvelope(fields, "TimeStamp");
    FieldOfEnvelope(fields, "Nonce");
    SectionPrinted("Nonce", nonce);
    TimeStampText(timestamp);
    assert "Encrypt"[0] == 'E' && "MsgSignature"[0] == 'M' && "TimeStamp"[0] == 'T' && "Nonce"[0] == 'N';
    FindFourth(fields[0], fields[1], fields[2], fields[3], "TimeStamp");
    FindFourth(fields[0], fields[1], fields[2], fields[3], "Nonce");
  }

  lemma FindFourth(a: Node, b: Node, c: Node, d: Node, tag: string)
    requires a.Element? && b.Element? && c.Element? && d.Element? && a.tag != tag && b.tag != tag
    ensures c.tag == tag ==> Find([a, b, c, d], tag) == Some(c)
    ensures c.tag != tag && d.tag == tag ==> Find([a, b, c, d], tag) == Some(d)
  {
    assert [a, b, c, d][1..] == [b, c, d] && [b, c, d][1..] == [c, d] && [c, d][1..] == [d];
    assert Find([a, b, c, d], tag) == Find([b, c, d], tag) == Find([c, d], tag);
    assert Find([c, d], tag) == if c.tag == tag then Some(c) else Find([d], tag);
    assert [d][0] == d;
  }

  lemma TimeStampText(timestamp: string)
    ensures LeadingText(TimeStamp(timestamp).children) == timestamp
  {
    assert LeadingText([]) == "";
    if timestamp != "" {
      assert [Text(timestamp)][1..] == [] && timestamp + "" == timestamp;
      assert LeadingText([Text(timestamp)]) == timestamp + LeadingText([]);
    }
  }

  /** A time stamp of digits, and a nonce of printable ASCII without brackets, can stand in the envelope. */
  lemma UsualFieldsFit(timestamp: string, nonce: string)
    requires forall i :: 0 <= i < |timestamp| ==> '0' <= timestamp[i] <= '9'
    requires forall i :: 0 <= i < |nonce| ==> ' ' <= nonce[i] <= '~' && nonce[i] != ']'
    ensures !Markup(timestamp, nonce)
  {
    NoBracketIsPlainSection(timestamp);
    NoBracketIsPlainSection(nonce);
  }
}
