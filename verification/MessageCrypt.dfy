/** WeCom message encryption (WXBizMsgCrypt3.py): the framed plaintext, the signature over sorted parts
    and the XML envelope. AES and SHA-1 are function values; of AES only inversion is assumed. A message
    is a string; it travels as the bytes of its UTF-8 form. */
module MessageCrypt {
  import opened Common
  import opened Encodings
  import opened Padding
  import opened FileTransport
  import opened Xml

  const OK: int := 0
  const VALIDATE_SIGNATURE_ERROR: int := -40001
  const PARSE_XML_ERROR: int := -40002
  const COMPUTE_SIGNATURE_ERROR: int := -40003
  const VALIDATE_CORPID_ERROR: int := -40005
  const DECRYPT_AES_ERROR: int := -40007
  const ILLEGAL_BUFFER: int := -40008

  // ---------------------------------------------------------------- the signature

  /** Python's order on strings: by code point, a prefix first. */
  predicate AtMost(a: string, b: string) {
    a == "" || (b != "" && (a[0] < b[0] || (a[0] == b[0] && AtMost(a[1..], b[1..]))))
  }

  function Insert(x: string, s: seq<string>): seq<string> {
    if s == [] || AtMost(x, s[0]) then [x] + s else [s[0]] + Insert(x, s[1..])
  }

  function Sort(s: seq<string>): seq<string> {
    if s == [] then [] else Insert(s[0], Sort(s[1..]))
  }

  predicate Sorted(s: seq<string>) {
    forall i, j :: 0 <= i < j < |s| ==> AtMost(s[i], s[j])
  }

  lemma {:induction false} AtMostTotal(a: string, b: string)
    ensures AtMost(a, b) || AtMost(b, a)
    ensures AtMost(a, b) && AtMost(b, a) ==> a == b
  {
    if a != "" && b != "" {
      AtMostTotal(a[1..], b[1..]);
      assert a == [a[0]] + a[1..] && b == [b[0]] + b[1..];
    }
  }

  lemma {:induction false} AtMostTransitive(a: string, b: string, c: string)
    requires AtMost(a, b) && AtMost(b, c)
    ensures AtMost(a, c)
  {
    if a != "" && a[0] == b[0] == c[0] { AtMostTransitive(a[1..], b[1..], c[1..]); }
  }

  lemma {:induction false} InsertKeeps(x: string, s: seq<string>)
    ensures multiset(Insert(x, s)) == multiset{x} + multiset(s)
    ensures forall y :: y in Insert(x, s) <==> y == x || y in s
  {
    if s != [] && !AtMost(x, s[0]) {
      InsertKeeps(x, s[1..]);
      assert s == [s[0]] + s[1..];
    }
  }

  lemma {:induction false} InsertSorts(x: string, s: seq<string>)
    requires Sorted(s)
    ensures Sorted(Insert(x, s))
  {
    hide AtMost;
    if s == [] {
    } else if AtMost(x, s[0]) {
      forall j | 0 <= j < |s| ensures AtMost(x, s[j]) {
        if j > 0 { AtMostTransitive(x, s[0], s[j]); }
      }
    } else {
      AtMostTotal(x, s[0]);
      var rest := Insert(x, s[1..]);
      InsertSorts(x, s[1..]);
      InsertKeeps(x, s[1..]);
      forall j | 0 <= j < |rest| ensures AtMost(s[0], rest[j]) {
        assert rest[j] in rest;
      }
    }
  }

  lemma {:induction false} SortSorts(s: seq<string>)
    ensures Sorted(Sort(s)) && multiset(Sort(s)) == multiset(s)
  {
    hide Insert;
    if s != [] {
      SortSorts(s[1..]);
      InsertSorts(s[0], Sort(s[1..]));
      InsertKeeps(s[0], Sort(s[1..]));
      assert s == [s[0]] + s[1..];
    }
  }

  lemma SortedHeadLeast(s: seq<string>, x: string)
    requires Sorted(s) && x in s
    ensures AtMost(s[0], x)
  {
    AtMostTotal(x, x);
  }

  lemma {:induction false} SortedUnique(a: seq<string>, b: seq<string>)
    requires Sorted(a) && Sorted(b) && multiset(a) == multiset(b)
    ensures a == b
  {
    hide AtMost;
    assert |a| == |multiset(a)| == |multiset(b)| == |b|;
    if a != [] {
      assert a[0] in multiset(b) && b[0] in multiset(a);
      SortedHeadLeast(a, b[0]);
      SortedHeadLeast(b, a[0]);
      AtMostTotal(a[0], b[0]);
      SameTails(a, b);
      SortedUnique(a[1..], b[1..]);
    }
  }

  lemma SameTails(a: seq<string>, b: seq<string>)
    requires a != [] && b != [] && a[0] == b[0] && multiset(a) == multiset(b)
    ensures multiset(a[1..]) == multiset(b[1..])
    ensures a[1..] == b[1..] ==> a == b
  {
    assert a == [a[0]] + a[1..] && b == [b[0]] + b[1..];
    assert multiset(a[1..]) == multiset(a) - multiset{a[0]};
    assert multiset(b[1..]) == multiset(b) - multiset{a[0]};
  }

  function Join(s: seq<string>): string {
    if s == [] then "" else s[0] + Join(s[1..])
  }

  /** `getSHA1`, `hash` standing for the hex digest of the UTF-8 text. */
  function Signature(hash: string -> string, parts: seq<string>): string {
    hash(Join(Sort(parts)))
  }

  /** The signature does not depend on the order of its parts. */
  lemma SignatureOrderFree(hash: string -> string, a: seq<string>, b: seq<string>)
    requires multiset(a) == multiset(b)
    ensures Signature(hash, a) == Signature(hash, b)
  {
    SortSorts(a);
    SortSorts(b);
    SortedUnique(Sort(a), Sort(b));
  }

  // ---------------------------------------------------------------- the length field

  /** Whether the host stores the low byte of a word first. */
  datatype Host = LittleEndian | BigEndian

  function Bytes4(n: nat): seq<Byte>
    requires n < 0x1_0000_0000
  {
    [n / 0x100_0000, n / 0x1_0000 % 0x100, n / 0x100 % 0x100, n % 0x100]
  }

  function Value4(b: seq<Byte>): (n: nat)
    requires |b| == 4
    ensures n < 0x1_0000_0000
  {
    b[0] as int * 0x100_0000 + b[1] as int * 0x1_0000 + b[2] as int * 0x100 + b[3] as int
  }

  function Reversed4(b: seq<Byte>): seq<Byte>
    requires |b| == 4
  {
    [b[3], b[2], b[1], b[0]]
  }

  /** `struct.pack('I', n)` on this host. */
  function Pack(host: Host, n: nat): seq<Byte>
    requires n < 0x1_0000_0000
  {
    if host.BigEndian? then Bytes4(n) else Reversed4(Bytes4(n))
  }

  function Unpack(host: Host, b: seq<Byte>): (n: nat)
    requires |b| == 4
    ensures n < 0x1_0000_0000
  {
    if host.BigEndian? then Value4(b) else Value4(Reversed4(b))
  }

  /** `socket.htonl` and `socket.ntohl`. */
  function HostToNet(host: Host, n: nat): (m: nat)
    requires n < 0x1_0000_0000
    ensures m < 0x1_0000_0000
  {
    if host.BigEndian? then n else Value4(Reversed4(Bytes4(n)))
  }

  lemma ValueOfBytes(n: nat)
    requires n < 0x1_0000_0000
    ensures Value4(Bytes4(n)) == n
  {
    var a := n / 0x100;
    var b := a / 0x100;
    assert n == a * 0x100 + n % 0x100 && a == b * 0x100 + a % 0x100 && b == b / 0x100 * 0x100 + b % 0x100;
    assert n / 0x1_0000 == b && n / 0x100_0000 == b / 0x100;
  }

  lemma BytesOfValue(b: seq<Byte>)
    requires |b| == 4
    ensures Bytes4(Value4(b)) == b
  {
    var n := Value4(b);
    assert n / 0x100 == b[0] as int * 0x1_0000 + b[1] as int * 0x100 + b[2] as int;
    assert n / 0x1_0000 == b[0] as int * 0x100 + b[1] as int;
  }

  /** On every host the length is written high byte first, and read back. */
  lemma LengthField(host: Host, n: nat)
    requires n < 0x1_0000_0000
    ensures Pack(host, HostToNet(host, n)) == Bytes4(n)
    ensures HostToNet(host, Unpack(host, Bytes4(n))) == n
  {
    hide Bytes4, Value4;
    ValueOfBytes(n);
    assert |Bytes4(n)| == 4 by { FourBytes(n); }
    BytesOfValue(Reversed4(Bytes4(n)));
    BytesOfValue(Bytes4(n));
  }

  lemma FourBytes(n: nat)
    requires n < 0x1_0000_0000
    ensures |Bytes4(n)| == 4
  {
  }

  // ---------------------------------------------------------------- encrypting and decrypting

  /** `Prpcrypt.encrypt` with the 16 random digits it drew. `htonl` raises for a text of 2^32 bytes. */
  function Encrypt(aes: Cbc, host: Host, key: seq<Byte>, random: seq<Byte>, message: string, receiveId: string): Option<string>
    requires IsAesKey(key)
  {
    var text := Utf8Encode(message);
    if |text| >= 0x1_0000_0000 then None
    else
      var plain := random + Pack(host, HostToNet(host, |text|)) + text + Utf8Encode(receiveId);
      Some(Base64Encode(aes.encrypt(key, key[..16], Pad(32, plain))))
  }

  datatype Outcome = Returned(code: int, content: Option<seq<Byte>>) | Raised

  /** `Prpcrypt.decrypt`. The receive id is decoded outside the `try`, so bytes that are no UTF-8 raise. */
  function Decrypt(aes: Cbc, host: Host, key: seq<Byte>, text: string, receiveId: string): Outcome
    requires IsAesKey(key)
  {
    var decoded := Base64Decode(text);
    if decoded.None? || |decoded.value| % 16 != 0 then Returned(DECRYPT_AES_ERROR, None)
    else Unframe(host, aes.decrypt(key, key[..16], decoded.value), receiveId)
  }

  function Unframe(host: Host, plain: seq<Byte>, receiveId: string): Outcome {
    if plain == [] then Returned(ILLEGAL_BUFFER, None)
    else
      var content := SliceFromBack(plain, 16, plain[|plain| - 1]);
      if |content| < 4 then Returned(ILLEGAL_BUFFER, None)
      else
        var length := HostToNet(host, Unpack(host, content[..4]));
        var body := content[4..];
        var cut := if length <= |body| then length else |body|;
        match Utf8Decode(body[cut..])
        case None => Raised
        case Some(id) => if id != receiveId then Returned(VALIDATE_CORPID_ERROR, None) else Returned(OK, Some(body[..cut]))
  }

  lemma UnframeFramed(host: Host, random: seq<Byte>, text: seq<Byte>, sender: string, receiveId: string)
    requires |random| == 16 && |text| < 0x1_0000_0000
    ensures var plain := random + Pack(host, HostToNet(host, |text|)) + text + Utf8Encode(sender);
            Unframe(host, Pad(32, plain), receiveId)
            == if sender == receiveId then Returned(OK, Some(text)) else Returned(VALIDATE_CORPID_ERROR, None)
  {
    hide Utf8Encode, Utf8Decode, Pad, WellPadded, Pack, Unpack, HostToNet, SliceFromBack, Bytes4;
    LengthField(host, |text|);
    FourBytes(|text|);
    var field := Bytes4(|text|);
    var tail := Utf8Encode(sender);
    var plain := random + field + text + tail;
    var padded := Pad(32, plain);
    PadRoundTrip(32, plain, 32);
    SliceAgrees(padded, 32);
    var content := SliceFromBack(padded, 16, padded[|padded| - 1]);
    assert plain[16..] == field + (text + tail);
    assert content[..4] == field && content[4..] == text + tail;
    assert (text + tail)[..|text|] == text && (text + tail)[|text|..] == tail;
    Utf8RoundTrip(sender);
  }

  /** A message under 2^32 bytes comes back as its bytes for the receiver it was meant for, and as the
      corp-id error for any other. */
  lemma EncryptDecrypt(aes: Cbc, host: Host, key: seq<Byte>, random: seq<Byte>, message: string, sender: string, receiveId: string)
    requires CbcInverts(aes) && IsAesKey(key) && |random| == 16
    ensures Encrypt(aes, host, key, random, message, sender).Some? <==> |Utf8Encode(message)| < 0x1_0000_0000
    ensures |Utf8Encode(message)| < 0x1_0000_0000 ==>
              Decrypt(aes, host, key, Encrypt(aes, host, key, random, message, sender).value, receiveId)
              == if sender == receiveId then Returned(OK, Some(Utf8Encode(message))) else Returned(VALIDATE_CORPID_ERROR, None)
  {
    hide Utf8Encode, Base64Encode, Base64Decode, Pad, Unframe, Pack, HostToNet;
    var text := Utf8Encode(message);
    if |text| < 0x1_0000_0000 {
      var plain := random + Pack(host, HostToNet(host, |text|)) + text + Utf8Encode(sender);
      var cipher := aes.encrypt(key, key[..16], Pad(32, plain));
      Base64RoundTrip(cipher);
      assert |cipher| == |Pad(32, plain)| && |cipher| % 16 == 0;
      UnframeFramed(host, random, text, sender, receiveId);
    }
  }

  // ---------------------------------------------------------------- the envelope

  function SectionLine(tag: string, text: string): string {
    "<" + tag + ">" + "<![CDATA[" + text + "]]>" + "</" + tag + ">" + "\n"
  }

  /** `AES_TEXT_RESPONSE_TEMPLATE` filled in. */
  function Generate(encrypt: string, signature: string, timestamp: string, nonce: string): string {
    "<xml>" + "\n" + SectionLine("Encrypt", encrypt) + SectionLine("MsgSignature", signature)
    + "<TimeStamp>" + timestamp + "</TimeStamp>" + "\n" + SectionLine("Nonce", nonce) + "</xml>"
  }

  /** `tree.find(tag)`. */
  function Find(xs: seq<Node>, tag: string): (r: Option<Node>)
    ensures r.Some? ==> r.value.Element?
  {
    if xs == [] then None else if xs[0].Element? && xs[0].tag == tag then Some(xs[0]) else Find(xs[1..], tag)
  }

  /** `element.text`: the character data before the first child element. */
  function LeadingText(xs: seq<Node>): string {
    if xs == [] || xs[0].Element? then "" else xs[0].text + LeadingText(xs[1..])
  }

  function Field(xml: string, tag: string): Option<string> {
    match ReadDocument(xml)
    case Some(Element(_, children)) =>
      (match Find(children, tag) case None => None case Some(e) => Some(LeadingText(e.children)))
    case _ => None
  }

  function Section(tag: string, text: string): Node { Element(tag, [CData(text)]) }

  function TimeStamp(timestamp: string): Node {
    Element("TimeStamp", if timestamp == "" then [] else [Text(timestamp)])
  }

  /** Children one to a line. */
  function Lines(xs: seq<Node>): seq<Node> {
    if xs == [] then [] else [xs[0], Text("\n")] + Lines(xs[1..])
  }

  function Fields(encrypt: string, signature: string, timestamp: string, nonce: string): seq<Node> {
    [Section("Encrypt", encrypt), Section("MsgSignature", signature), TimeStamp(timestamp), Section("Nonce", nonce)]
  }

  function Envelope(fields: seq<Node>): Node { Element("xml", [Text("\n")] + Lines(fields)) }

  function PrintLines(xs: seq<Node>): string {
    if xs == [] then "" else Print(xs[0]) + "\n" + PrintLines(xs[1..])
  }

  lemma {:induction false} LinesPrinted(xs: seq<Node>)
    ensures PrintAll(Lines(xs)) == PrintLines(xs)
  {
    hide Print, PrintAll;
    if xs == [] {
      Nothing();
    } else {
      LinesPrinted(xs[1..]);
      PrintedTwo(xs[0], Text("\n"), Lines(xs[1..]));
      Nothing();
    }
  }

  lemma Nothing()
    ensures PrintAll([]) == "" && AllClean([]) && Lines([]) == [] && Print(Text("\n")) == "\n"
  {
  }

  lemma PrintedTwo(x: Node, y: Node, rest: seq<Node>)
    ensures PrintAll([x, y] + rest) == Print(x) + Print(y) + PrintAll(rest)
  {
    hide Print;
    var all, tail := [x, y] + rest, [y] + rest;
    assert all[1..] == tail && tail[1..] == rest;
    assert PrintAll(tail) == Print(y) + PrintAll(rest);
  }

  lemma EnvelopePrinted(fields: seq<Node>)
    ensures Print(Envelope(fields)) == "<xml>" + "\n" + PrintLines(fields) + "</xml>"
  {
    hide Lines, PrintLines;
    LinesPrinted(fields);
    var xs := [Text("\n")] + Lines(fields);
    assert xs[0] == Text("\n") && xs[1..] == Lines(fields);
    assert PrintAll(xs) == "\n" + PrintLines(fields);
    assert "<" + "xml" + ">" == "<xml>" && "</" + "xml" + ">" == "</xml>";
  }

  lemma SectionPrinted(tag: string, text: string)
    ensures Print(Section(tag, text)) + "\n" == SectionLine(tag, text) && LeadingText(Section(tag, text).children) == text
  {
    assert [CData(text)][1..] == [] && PrintAll([]) == "" && LeadingText([]) == "";
    assert PrintAll([CData(text)]) == "<![CDATA[" + text + "]]>";
  }

  lemma TimeStampPrinted(timestamp: string)
    ensures Print(TimeStamp(timestamp)) == "<TimeStamp>" + timestamp + "</TimeStamp>"
  {
    assert [Text(timestamp)][1..] == [] && PrintAll([]) == "";
    assert PrintAll([Text(timestamp)]) == timestamp;
    assert "<" + "TimeStamp" + ">" == "<TimeStamp>" && "</" + "TimeStamp" + ">" == "</TimeStamp>";
  }

  lemma GeneratedIsEnvelope(encrypt: string, signature: string, timestamp: string, nonce: string)
    ensures Generate(encrypt, signature, timestamp, nonce) == Print(Envelope(Fields(encrypt, signature, timestamp, nonce)))
  {
    hide Print, SectionLine, Envelope, Section, TimeStamp;
    var xs := Fields(encrypt, signature, timestamp, nonce);
    EnvelopePrinted(xs);
    SectionPrinted("Encrypt", encrypt);
    SectionPrinted("MsgSignature", signature);
    TimeStampPrinted(timestamp);
    SectionPrinted("Nonce", nonce);
    var n := SectionLine("Nonce", nonce);
    var t := "<TimeStamp>" + timestamp + "</TimeStamp>" + "\n";
    assert xs[3..] == [xs[3]] && xs[3..][1..] == [] && PrintLines([]) == "";
    assert PrintLines(xs[3..]) == n;
    assert xs[2..][0] == xs[2] && xs[2..][1..] == xs[3..] && xs[1..][0] == xs[1] && xs[1..][1..] == xs[2..];
    assert PrintLines(xs[2..]) == t + n;
    assert PrintLines(xs[1..]) == SectionLine("MsgSignature", signature) + (t + n);
    assert PrintLines(xs) == SectionLine("Encrypt", encrypt) + (SectionLine("MsgSignature", signature) + (t + n));
  }

  // ---------------------------------------------------------------- the fields read back

  /** Text that may stand in a CDATA section, and text that may stand outside one. */
  predicate Markup(timestamp: string, nonce: string) {
    !PlainText(timestamp) || !PlainSection(nonce)
  }

  lemma {:induction false} LinesClean(xs: seq<Node>)
    requires forall i :: 0 <= i < |xs| ==> Clean(xs[i]) && xs[i].Element?
    ensures AllClean(Lines(xs)) && (xs != [] ==> Lines(xs)[0].Element?)
  {
    hide Clean, AllClean, PlainText;
    if xs == [] {
      assert AllClean([]) by { Nothing(); }
    } else {
      LinesClean(xs[1..]);
      NewlineIsPlain();
      CleanTwo(xs[0], Lines(xs[1..]));
    }
  }

  lemma CleanTwo(x: Node, rest: seq<Node>)
    requires Clean(x) && x.Element? && PlainText("\n") && AllClean(rest) && (rest != [] ==> rest[0].Element?)
    ensures AllClean([x, Text("\n")] + rest)
  {
    assert Clean(Text("\n"));
    hide Clean, PlainText;
    var all, tail := [x, Text("\n")] + rest, [Text("\n")] + rest;
    assert all[1..] == tail && tail[1..] == rest && all[0] == x;
    assert AllClean(tail);
  }

  lemma NewlineIsPlain()
    ensures PlainText("\n")
  {
    assert SectionEnd("\n"[1..]) == 0;
    assert SectionEnd("\n") == 1;
  }

  lemma EnvelopeClean(fields: seq<Node>)
    requires forall i :: 0 <= i < |fields| ==> Clean(fields[i]) && fields[i].Element?
    ensures Clean(Envelope(fields))
  {
    hide Lines, PlainText;
    LinesClean(fields);
    NewlineIsPlain();
    var xs := [Text("\n")] + Lines(fields);
    assert xs[1..] == Lines(fields);
    assert fields == [] ==> Lines(fields) == [] by { Nothing(); }
    assert |xs| > 1 && fields != [] ==> xs[1] == Lines(fields)[0];
    assert AllClean(xs);
    assert IsName("xml");
  }

  lemma SectionClean(tag: string, text: string)
    requires IsName(tag) && PlainSection(text)
    ensures Clean(Section(tag, text))
  {
    hide PlainSection;
    var xs := [CData(text)];
    assert xs[0] == CData(text) && Clean(xs[0]) && xs[1..] == [] && AllClean(xs[1..]);
    assert AllClean(xs);
  }

  lemma TimeStampClean(timestamp: string)
    requires PlainText(timestamp)
    ensures Clean(TimeStamp(timestamp))
  {
    hide PlainText;
    var xs := [Text(timestamp)];
    assert xs[0] == Text(timestamp) && xs[1..] == [] && AllClean(xs[1..]);
    assert timestamp != "" ==> Clean(xs[0]) && AllClean(xs);
    assert IsName("TimeStamp");
  }

  lemma FieldsClean(encrypt: string, signature: string, timestamp: string, nonce: string)
    requires PlainSection(encrypt) && PlainSection(signature) && !Markup(timestamp, nonce)
    ensures forall i :: 0 <= i < 4 ==> Clean(Fields(encrypt, signature, timestamp, nonce)[i])
                                       && Fields(encrypt, signature, timestamp, nonce)[i].Element?
  {
    hide Clean, PlainSection, PlainText;
    assert IsName("Encrypt") && IsName("MsgSignature") && IsName("Nonce");
    SectionClean("Encrypt", encrypt);
    SectionClean("MsgSignature", signature);
    TimeStampClean(timestamp);
    SectionClean("Nonce", nonce);
  }

  lemma {:induction false} FindInLines(xs: seq<Node>, tag: string)
    ensures Find(Lines(xs), tag) == Find(xs, tag)
  {
    if xs != [] {
      FindInLines(xs[1..], tag);
      var rest := Lines(xs[1..]);
      var tail := [Text("\n")] + rest;
      var all := [xs[0]] + tail;
      assert Lines(xs) == all;
      assert tail[1..] == rest && Find(tail, tag) == Find(rest, tag);
      assert all[1..] == tail;
    }
  }

  lemma FieldOfEnvelope(fields: seq<Node>, tag: string)
    requires Clean(Envelope(fields))
    ensures Field(Print(Envelope(fields)), tag)
            == match Find(fields, tag) case None => None case Some(e) => Some(LeadingText(e.children))
  {
    hide Print, Clean, Lines, ReadDocument, LeadingText;
    DocumentRoundTrip(Envelope(fields));
    FindInLines(fields, tag);
    var xs := [Text("\n")] + Lines(fields);
    assert xs[1..] == Lines(fields);
  }

  /** The two fields the receiver needs are read out of the generated envelope. */
  lemma EnvelopeFields(encrypt: string, signature: string, timestamp: string, nonce: string)
    requires PlainSection(encrypt) && PlainSection(signature) && !Markup(timestamp, nonce)
    ensures var xml := Generate(encrypt, signature, timestamp, nonce);
            Field(xml, "Encrypt") == Some(encrypt) && Field(xml, "MsgSignature") == Some(signature)
  {
    hide Field, Generate, PlainSection, Clean, Envelope;
    var fields := Fields(encrypt, signature, timestamp, nonce);
    FieldsClean(encrypt, signature, timestamp, nonce);
    EnvelopeClean(fields);
    GeneratedIsEnvelope(encrypt, signature, timestamp, nonce);
    FieldOfEnvelope(fields, "Encrypt");
    FieldOfEnvelope(fields, "MsgSignature");
    assert fields[1..][0] == fields[1];
    SectionPrinted("Encrypt", encrypt);
    SectionPrinted("MsgSignature", signature);
    assert "Encrypt"[0] != "MsgSignature"[0];
  }

  // ---------------------------------------------------------------- EncryptMsg and DecryptMsg

  /** One end of the conversation: token, key and receive id, and the host's byte order. */
  datatype Party = Party(token: string, key: seq<Byte>, receiveId: string, host: Host)

  function EncryptMsg(aes: Cbc, hash: string -> string, p: Party, random: seq<Byte>, reply: string, nonce: string, timestamp: string): Option<string>
    requires IsAesKey(p.key)
  {
    match Encrypt(aes, p.host, p.key, random, reply, p.receiveId)
    case None => None
    case Some(encrypt) =>
      Some(Generate(encrypt, Signature(hash, [p.token, timestamp, nonce, encrypt]), timestamp, nonce))
  }

  /** An empty `Encrypt` element has no text; sorting it with the strings raises inside `getSHA1`. */
  function DecryptMsg(aes: Cbc, hash: string -> string, p: Party, postData: string, signature: string, timestamp: string, nonce: string): Outcome
    requires IsAesKey(p.key)
  {
    match Field(postData, "Encrypt")
    case None => Returned(PARSE_XML_ERROR, None)
    case Some(encrypt) =>
      if encrypt == "" then Returned(COMPUTE_SIGNATURE_ERROR, None)
      else if Signature(hash, [p.token, timestamp, nonce, encrypt]) != signature then Returned(VALIDATE_SIGNATURE_ERROR, None)
      else Decrypt(aes, p.host, p.key, encrypt, p.receiveId)
  }

  /** Hex digests are letters and digits. */
  ghost predicate GivesHex(hash: string -> string) {
    forall s :: forall i :: 0 <= i < |hash(s)| ==> HexValue(hash(s)[i]).Some?
  }

  lemma NoBracketIsPlainSection(s: string)
    requires forall i :: 0 <= i < |s| ==> ' ' <= s[i] < '\U{0080}' && s[i] != ']'
    ensures PlainSection(s)
  {
    hide SectionEnd;
    assert forall n :: 0 <= n < |s| ==> s[n..][0] == s[n];
  }

  lemma {:induction false} Base64Symbols(b: seq<Byte>)
    ensures forall i :: 0 <= i < |Base64Encode(b)| ==>
              ' ' <= Base64Encode(b)[i] < '\U{0080}' && Base64Encode(b)[i] != ']'
    decreases |b|
  {
    if |b| >= 3 { Base64Symbols(b[3..]); }
  }

  /** The main promise: what `EncryptMsg` makes, given back with the signature embedded in it and the
      same timestamp and nonce, is the message's bytes for the party it was meant for and the corp-id
      error for a party with another receive id, whatever the byte orders of the two hosts. */
  lemma MessageRoundTrip(aes: Cbc, hash: string -> string, from: Party, to: Party, random: seq<Byte>, reply: string, nonce: string, timestamp: string)
    requires CbcInverts(aes) && GivesHex(hash) && |from.key| in {16, 24, 32} && |random| == 16
    requires from.token == to.token && from.key == to.key
    requires |Utf8Encode(reply)| < 0x1_0000_0000 && !Markup(timestamp, nonce)
    ensures EncryptMsg(aes, hash, from, random, reply, nonce, timestamp).Some?
    ensures var xml := EncryptMsg(aes, hash, from, random, reply, nonce, timestamp).value;
            Field(xml, "MsgSignature").Some?
            && DecryptMsg(aes, hash, to, xml, Field(xml, "MsgSignature").value, timestamp, nonce)
               == if from.receiveId == to.receiveId then Returned(OK, Some(Utf8Encode(reply)))
                  else Returned(VALIDATE_CORPID_ERROR, None)
  {
    hide CbcInverts, Encrypt, Decrypt, Signature, Field, Generate, Markup;
    HostsAgree(aes, from.host, to.host, from.key, random, reply, from.receiveId);
    EncryptDecrypt(aes, to.host, from.key, random, reply, from.receiveId, to.receiveId);
    var encrypt := Encrypt(aes, from.host, from.key, random, reply, from.receiveId).value;
    var signature := Signature(hash, [from.token, timestamp, nonce, encrypt]);
    EncryptedText(aes, from.host, from.key, random, reply, from.receiveId);
    SignatureIsPlain(hash, [from.token, timestamp, nonce, encrypt]);
    EnvelopeFields(encrypt, signature, timestamp, nonce);
  }

  /** Hosts of either byte order encrypt a message to the same text. */
  lemma HostsAgree(aes: Cbc, a: Host, b: Host, key: seq<Byte>, random: seq<Byte>, message: string, receiveId: string)
    requires IsAesKey(key)
    ensures Encrypt(aes, a, key, random, message, receiveId) == Encrypt(aes, b, key, random, message, receiveId)
  {
    hide Pack, HostToNet, Bytes4, Utf8Encode, Base64Encode, Pad;
    var n := |Utf8Encode(message)|;
    if n < 0x1_0000_0000 {
      LengthField(a, n);
      LengthField(b, n);
    }
  }

  lemma SignatureIsPlain(hash: string -> string, parts: seq<string>)
    requires GivesHex(hash)
    ensures PlainSection(Signature(hash, parts))
  {
    hide Sort, Join, PlainSection;
    NoBracketIsPlainSection(Signature(hash, parts));
  }

  lemma EncryptedText(aes: Cbc, host: Host, key: seq<Byte>, random: seq<Byte>, message: string, receiveId: string)
    requires CbcInverts(aes) && IsAesKey(key) && |Utf8Encode(message)| < 0x1_0000_0000
    ensures var encrypt := Encrypt(aes, host, key, random, message, receiveId);
            encrypt.Some? && encrypt.value != "" && PlainSection(encrypt.value)
  {
    hide Utf8Encode, Base64Encode, Pack, HostToNet, PlainSection;
    var text := Utf8Encode(message);
    var plain := random + Pack(host, HostToNet(host, |text|)) + text + Utf8Encode(receiveId);
    var cipher := aes.encrypt(key, key[..16], Pad(32, plain));
    assert |cipher| == |Pad(32, plain)| > 0;
    Base64Symbols(cipher);
    NoBracketIsPlainSection(Base64Encode(cipher));
    EncodedNotEmpty(cipher);
  }

  lemma EncodedNotEmpty(b: seq<Byte>)
    requires b != []
    ensures Base64Encode(b) != ""
  {
  }
}
