/** Block padding (section 6.3 of RFC 5652): how WXBizMsgCrypt3.py and the media client add it, the
    check `_decrypt_file` makes before removing it, and the unchecked slice of `Prpcrypt.decrypt`, which
    agrees with the check wherever the check accepts. */
module Padding {
  import opened Common
  import opened Encodings

  function Fill(p: Byte, n: nat): (r: seq<Byte>)
    ensures |r| == n && forall i :: 0 <= i < n ==> r[i] == p
  {
    seq(n, _ => p)
  }

  function Pad(block: nat, data: seq<Byte>): (r: seq<Byte>)
    requires block == 16 || block == 32
    ensures |r| % block == 0 && |data| < |r| <= |data| + block
  {
    var n := block - |data| % block;
    data + Fill(n, n)
  }

  /** The last byte says how many bytes were added, at most `most`, and each of them repeats it. */
  ghost predicate WellPadded(d: seq<Byte>, most: nat) {
    d != [] && var p := d[|d| - 1];
    1 <= p <= most && p <= |d| && forall i :: |d| - p <= i < |d| ==> d[i] == p
  }

  function Unpadded(d: seq<Byte>): seq<Byte>
    requires d != [] && d[|d| - 1] <= |d|
  {
    d[..|d| - d[|d| - 1]]
  }

  /** Well-padded buffers are exactly some data followed by `p` copies of `p`. */
  lemma WellPaddedForm(d: seq<Byte>, most: nat)
    ensures WellPadded(d, most) <==> exists p: Byte, data :: 1 <= p <= most && d == data + Fill(p, p)
  {
    if WellPadded(d, most) {
      var p := d[|d| - 1];
      assert d == Unpadded(d) + Fill(p, p);
    }
    if p: Byte, data :| 1 <= p <= most && d == data + Fill(p, p) {
      assert d[|d| - 1] == Fill(p, p)[p - 1];
      forall i | |d| - p <= i < |d| ensures d[i] == p {
        assert d[i] == Fill(p, p)[i - |data|];
      }
    }
  }

  /** Padding is undone, whatever the data, by a check that allows at least the block size. */
  lemma PadRoundTrip(block: nat, data: seq<Byte>, most: nat)
    requires (block == 16 || block == 32) && block <= most
    ensures WellPadded(Pad(block, data), most) && Unpadded(Pad(block, data)) == data
  {
    var n: Byte := block - |data| % block;
    WellPaddedForm(Pad(block, data), most);
    assert Pad(block, data) == data + Fill(n, n);
    assert Pad(block, data)[|Pad(block, data)| - 1] == Fill(n, n)[n - 1];
  }

  /** Python's `s[from:-back]` for `from, back >= 0`; `-0` is 0, so nothing is left then. */
  function SliceFromBack(s: seq<Byte>, from: nat, back: nat): seq<Byte> {
    if back == 0 || |s| < back || |s| - back < from then [] else s[from..|s| - back]
  }

  function DropFirst(s: seq<Byte>, n: nat): seq<Byte> {
    if n <= |s| then s[n..] else []
  }

  /** Where the check accepts, the unchecked slice of `Prpcrypt.decrypt` cuts at the same place. */
  lemma SliceAgrees(d: seq<Byte>, most: nat)
    requires WellPadded(d, most)
    ensures SliceFromBack(d, 16, d[|d| - 1]) == DropFirst(Unpadded(d), 16)
  {
  }

  /** The validation loop of `_decrypt_file`. */
  method RemovePadding(decrypted: seq<Byte>) returns (r: Result<seq<Byte>, string>)
    ensures r.Ok? <==> WellPadded(decrypted, 32)
    ensures r.Ok? ==> r.value == Unpadded(decrypted)
  {
    if |decrypted| == 0 { return Err("Decrypted data is empty"); }
    var padLen := decrypted[|decrypted| - 1];
    if padLen < 1 || padLen > 32 || padLen > |decrypted| { return Err("Invalid PKCS#7 padding value"); }
    for i := |decrypted| - padLen to |decrypted|
      invariant forall j :: |decrypted| - padLen <= j < i ==> decrypted[j] == padLen
    {
      if decrypted[i] != padLen { return Err("Invalid PKCS#7 padding: padding bytes mismatch"); }
    }
    return Ok(decrypted[..|decrypted| - padLen]);
  }
}
