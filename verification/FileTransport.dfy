/** Files encrypted for transport: `_decrypt_file` of the WeCom AI bot (AES-CBC, the key as base64 that
    may lack its padding) and the OpenClaw media upload and download (AES-ECB, the key as base64 of its
    hex form). AES is a pair of functions of which only inversion on whole blocks is assumed. */
module FileTransport {
  import opened Common
  import opened Encodings
  import opened Padding

  /** AES in CBC mode; arguments are key, initialisation vector and data. */
  datatype Cbc = Cbc(encrypt: (seq<Byte>, seq<Byte>, seq<Byte>) -> seq<Byte>, decrypt: (seq<Byte>, seq<Byte>, seq<Byte>) -> seq<Byte>)

  predicate IsAesKey(key: seq<Byte>) { |key| == 16 || |key| == 24 || |key| == 32 }

  ghost predicate CbcInverts(aes: Cbc) {
    forall key, iv, data :: IsAesKey(key) && |iv| == 16 && |data| % 16 == 0 ==>
      |aes.encrypt(key, iv, data)| == |data| && aes.decrypt(key, iv, aes.encrypt(key, iv, data)) == data
  }

  // ---------------------------------------------------------------- _decrypt_file

  function FileKey(aesKey: string): Option<seq<Byte>> {
    match Base64Decode(Repad(aesKey))
    case Some(key) => if IsAesKey(key) then Some(key) else None
    case None => None
  }

  function AlignedTo16(data: seq<Byte>): (r: seq<Byte>)
    ensures |r| % 16 == 0 && data <= r
  {
    if |data| % 16 == 0 then data else data + Fill(0, 16 - |data| % 16)
  }

  /** The file `_decrypt_file` must return, if it may return one at all. */
  ghost function FileContent(aes: Cbc, data: seq<Byte>, aesKey: string): Option<seq<Byte>> {
    if data == [] || aesKey == "" || FileKey(aesKey).None? then None
    else
      var key := FileKey(aesKey).value;
      var plain := aes.decrypt(key, key[..16], AlignedTo16(data));
      if WellPadded(plain, 32) then Some(Unpadded(plain)) else None
  }

  method DecryptFile(aes: Cbc, encrypted: seq<Byte>, aesKey: string) returns (r: Result<seq<Byte>, string>)
    ensures FileContent(aes, encrypted, aesKey) == match r case Ok(file) => Some(file) case Err(_) => None
  {
    if encrypted == [] { return Err("encrypted_data is empty"); }
    if aesKey == "" { return Err("aes_key is empty"); }
    var padded := aesKey;
    var remainder := |aesKey| % 4;
    if remainder != 0 { padded := aesKey + Equals(4 - remainder); }
    var decoded := Base64Decode(padded);
    if decoded.None? { return Err("binascii.Error"); }
    var key := decoded.value;
    if !IsAesKey(key) { return Err("Incorrect AES key length"); }
    var data := encrypted;
    if |data| % 16 != 0 { data := data + Fill(0, 16 - |data| % 16); }
    var decrypted := aes.decrypt(key, key[..16], data);
    r := RemovePadding(decrypted);
  }

  /** The base64 of a key, with its `=` or without. */
  function KeyText(key: seq<Byte>, stripped: bool): string {
    if stripped then StripPadding(Base64Encode(key)) else Base64Encode(key)
  }

  /** A file padded to blocks of 32 and encrypted comes back, with the key's base64 padded or not. */
  lemma DecryptFileRoundTrip(aes: Cbc, key: seq<Byte>, file: seq<Byte>, stripped: bool)
    requires CbcInverts(aes) && |key| in {16, 24, 32}
    ensures FileContent(aes, aes.encrypt(key, key[..16], Pad(32, file)), KeyText(key, stripped)) == Some(file)
  {
    hide Base64Encode, Base64Decode, StripPadding, WellPadded, Unpadded, Pad, KeyText;
    FileKeyForms(key, stripped);
    var padded := Pad(32, file);
    assert |padded| % 16 == 0;
    assert |aes.encrypt(key, key[..16], padded)| == |padded| > 0;
    PadRoundTrip(32, file, 32);
  }

  /** A file is returned exactly if the decrypted data, in CBC mode with the first 16 bytes of the key as the
      initialisation vector, are the file and 1 to 32 bytes of padding. */
  lemma FileExactly(aes: Cbc, data: seq<Byte>, key: seq<Byte>, stripped: bool, file: seq<Byte>)
    requires |key| in {16, 24, 32} && data != [] && |data| % 16 == 0
    ensures FileContent(aes, data, KeyText(key, stripped)) == Some(file)
       <==> exists p: Byte :: 1 <= p <= 32 && aes.decrypt(key, key[..16], data) == file + Fill(p, p)
  {
    hide Base64Encode, Base64Decode, StripPadding, KeyText, FileKey;
    FileKeyForms(key, stripped);
    var plain := aes.decrypt(key, key[..16], data);
    if p: Byte :| 1 <= p <= 32 && plain == file + Fill(p, p) {
      WellPaddedForm(plain, 32);
      assert plain[|plain| - 1] == Fill(p, p)[p - 1] == p;
      assert Unpadded(plain) == file;
    }
    if WellPadded(plain, 32) && Unpadded(plain) == file {
      var p := plain[|plain| - 1];
      assert plain == file + Fill(p, p);
    }
  }

  /** Data that end within a block are filled with zeros first. */
  lemma ShortBlockIsFilled(aes: Cbc, data: seq<Byte>, aesKey: string)
    requires data != [] && |data| % 16 != 0
    ensures FileContent(aes, data, aesKey) == FileContent(aes, data + Fill(0, 16 - |data| % 16), aesKey)
  {
    hide FileKey, WellPadded, Unpadded;
    assert |data + Fill(0, 16 - |data| % 16)| % 16 == 0;
  }

  lemma FileKeyForms(key: seq<Byte>, stripped: bool)
    requires IsAesKey(key)
    ensures KeyText(key, stripped) != "" && FileKey(KeyText(key, stripped)) == Some(key)
  {
    hide Base64Decode, StripPadding, Equals;
    Base64RoundTrip(key);
    RepadUndoesStripping(key);
    assert Base64Encode(key) != "";
    assert Repad("") == "";
  }

  // ---------------------------------------------------------------- media

  datatype Ecb = Ecb(encrypt: (seq<Byte>, seq<Byte>) -> seq<Byte>, decrypt: (seq<Byte>, seq<Byte>) -> seq<Byte>)

  ghost predicate EcbInverts(aes: Ecb) {
    forall key, data :: |key| == 16 && |data| % 16 == 0 ==>
      |aes.encrypt(key, data)| == |data| && aes.decrypt(key, aes.encrypt(key, data)) == data
  }

  datatype CdnMedia = CdnMedia(encryptQueryParam: string, aesKey: string)

  /** What the API and the CDN answer to an upload: the upload token, the HTTP status and the
      `x-encrypted-param` header. */
  datatype UploadReply = UploadReply(uploadParam: string, status: int, downloadParam: string)

  type Store = map<string, seq<Byte>>

  /** `upload_media` with the random key it drew; the CDN keeps the body under the token it returns. */
  function UploadMedia(aes: Ecb, file: seq<Byte>, rawKey: seq<Byte>, reply: UploadReply, cdn: Store): Result<(CdnMedia, Store), string> {
    var encodedKey := Base64Encode(Utf8Encode(HexEncode(rawKey)));
    var encrypted := aes.encrypt(rawKey, Pad(16, file));
    if reply.uploadParam == "" then Err("Failed to get upload URL")
    else if reply.status != 200 then Err("CDN upload failed")
    else if reply.downloadParam == "" then Err("CDN upload succeeded but no x-encrypted-param returned")
    else Ok((CdnMedia(reply.downloadParam, encodedKey), cdn[reply.downloadParam := encrypted]))
  }

  /** The 16-byte key from either form: 16 raw bytes, or 32 bytes of hex text. */
  function MediaKey(aesKey: string): Option<seq<Byte>> {
    match Base64Decode(aesKey)
    case None => None
    case Some(raw) =>
      if |raw| == 16 then Some(raw)
      else if |raw| != 32 then None
      else match Utf8Decode(raw) case None => None case Some(hex) => HexDecode(hex)
  }

  /** `PKCS7(128).unpadder()`: whole blocks, and at most 16 bytes of padding. */
  ghost function Unpad16(d: seq<Byte>): Option<seq<Byte>> {
    if |d| % 16 == 0 && WellPadded(d, 16) then Some(Unpadded(d)) else None
  }

  /** `download_media`; a token the CDN does not know is answered with another status than 200. */
  ghost function DownloadMedia(aes: Ecb, media: CdnMedia, cdn: Store): Option<seq<Byte>> {
    if media.encryptQueryParam == "" || media.aesKey == "" then None
    else if MediaKey(media.aesKey).None? || |MediaKey(media.aesKey).value| != 16 then None
    else if media.encryptQueryParam !in cdn then None
    else
      var encrypted := cdn[media.encryptQueryParam];
      if |encrypted| % 16 != 0 then None else Unpad16(aes.decrypt(MediaKey(media.aesKey).value, encrypted))
  }

  lemma {:induction false} HexIsAscii(b: seq<Byte>)
    ensures IsAscii(HexEncode(b))
  {
    if b != [] { HexIsAscii(b[1..]); }
  }

  /** Base64 of the key and base64 of its hex text both give the key. */
  lemma MediaKeyForms(key: seq<Byte>)
    requires |key| == 16
    ensures MediaKey(Base64Encode(key)) == Some(key)
    ensures MediaKey(Base64Encode(Utf8Encode(HexEncode(key)))) == Some(key)
  {
    hide Base64Encode, Base64Decode, HexEncode, HexDecode, Utf8Encode, Utf8Decode;
    var hex := HexEncode(key);
    HexIsAscii(key);
    Utf8Ascii(hex);
    Base64RoundTrip(key);
    Base64RoundTrip(Utf8Encode(hex));
    Utf8RoundTrip(hex);
    HexRoundTrip(key);
  }

  /** The length of the decoded bytes decides the form: 16 are the key, 32 its hex text, any other is none. */
  lemma MediaKeyByLength(raw: seq<Byte>)
    ensures MediaKey(Base64Encode(raw)) ==
            if |raw| == 16 then Some(raw)
            else if |raw| == 32 && Utf8Decode(raw).Some? then HexDecode(Utf8Decode(raw).value)
            else None
  {
    hide Base64Encode, Base64Decode, HexDecode, Utf8Decode;
    Base64RoundTrip(raw);
  }

  predicate Keeps(later: Store, cdn: Store, token: string) {
    token in cdn && token in later && later[token] == cdn[token]
  }

  /** Every file that was uploaded is downloaded unchanged, as long as the CDN keeps what it was given. */
  lemma MediaRoundTrip(aes: Ecb, file: seq<Byte>, rawKey: seq<Byte>, reply: UploadReply, cdn: Store, later: Store)
    requires EcbInverts(aes) && |rawKey| == 16
    ensures UploadMedia(aes, file, rawKey, reply, cdn).Ok? <==> reply.uploadParam != "" && reply.status == 200 && reply.downloadParam != ""
    ensures var up := UploadMedia(aes, file, rawKey, reply, cdn);
            up.Ok? && Keeps(later, up.value.1, reply.downloadParam) ==> DownloadMedia(aes, up.value.0, later) == Some(file)
  {
    hide Base64Encode, MediaKey, HexEncode, Utf8Encode, WellPadded, Unpadded, Pad;
    MediaKeyForms(rawKey);
    KeyTextNotEmpty(rawKey);
    PadRoundTrip(16, file, 16);
    var padded := Pad(16, file);
    assert |aes.encrypt(rawKey, padded)| == |padded|;
  }

  lemma KeyTextNotEmpty(key: seq<Byte>)
    requires |key| == 16
    ensures Base64Encode(Utf8Encode(HexEncode(key))) != ""
  {
    hide HexEncode, Utf8Encode;
    HexIsAscii(key);
    Utf8Ascii(HexEncode(key));
  }
}
