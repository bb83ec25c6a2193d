/** Encryption of a file: PKCS #7 padding (section 6.3 of RFC 5652) to blocks of 16 bytes, then a
    block mode about which only this is assumed: on whole blocks it keeps the length, and
    decryption with the same key undoes it. */
module Cipher {
  import opened Bytes
  import opened Options

  const BLOCK: nat := 16

  /** enc and dec are the two directions of a block mode, for one key. */
  ghost predicate IsBlockMode(enc: seq<Byte> -> seq<Byte>, dec: seq<Byte> -> seq<Byte>) {
    forall d {:trigger enc(d)} :: |d| % BLOCK == 0 ==> |enc(d)| == |d| && dec(enc(d)) == d
  }

  function Pad(p: seq<Byte>): (d: seq<Byte>)
    ensures |d| == BLOCK * (|p| / BLOCK + 1)
  {
    var k: Byte := BLOCK - |p| % BLOCK;
    p + seq(k, i => k)
  }

  /** unpad: the last byte says how many bytes to drop, and all of them must hold that number. */
  function Unpad(d: seq<Byte>): Option<seq<Byte>> {
    if |d| == 0 || |d| % BLOCK != 0 then None
    else
      var k := d[|d| - 1];
      if k == 0 || k > BLOCK || exists i :: |d| - k <= i < |d| && d[i] != k then None
      else Some(d[..|d| - k])
  }

  function Encrypt(enc: seq<Byte> -> seq<Byte>, p: seq<Byte>): seq<Byte> {
    enc(Pad(p))
  }

  /** cipher.decrypt raises on a partial block, before unpad looks at anything. */
  function Decrypt(dec: seq<Byte> -> seq<Byte>, ct: seq<Byte>): Option<seq<Byte>> {
    if |ct| % BLOCK != 0 then None else Unpad(dec(ct))
  }

  lemma UnpadPad(p: seq<Byte>)
    ensures Unpad(Pad(p)) == Some(p)
  {
    var d := Pad(p);
    var k := BLOCK - |p| % BLOCK;
    assert forall i :: |p| <= i < |d| ==> d[i] == k;
    assert d[|d| - 1] == k;
    assert d[..|d| - k] == p;
  }

  /** Nothing but a padded text is accepted. */
  lemma UnpadIff(d: seq<Byte>, p: seq<Byte>)
    ensures Unpad(d) == Some(p) <==> d == Pad(p)
  {
    UnpadPad(p);
    if Unpad(d) == Some(p) {
      var k := d[|d| - 1];
      assert |p| == |d| - k && p == d[..|p|];
      assert forall i :: |d| - k <= i < |d| ==> d[i] == k;
      assert (k as int) == BLOCK - |p| % BLOCK;
      assert d == p + d[|p|..];
      assert d[|p|..] == seq(k, i => k);
    }
  }

  /** So a message is decrypted just when it is made of whole blocks and decrypts to a padded text. */
  lemma DecryptIff(dec: seq<Byte> -> seq<Byte>, ct: seq<Byte>, p: seq<Byte>)
    ensures Decrypt(dec, ct) == Some(p) <==> |ct| % BLOCK == 0 && dec(ct) == Pad(p)
  {
    hide Unpad, Pad;
    UnpadIff(dec(ct), p);
  }

  lemma DecryptUndoesEncrypt(enc: seq<Byte> -> seq<Byte>, dec: seq<Byte> -> seq<Byte>, p: seq<Byte>)
    requires IsBlockMode(enc, dec)
    ensures |Encrypt(enc, p)| == BLOCK * (|p| / BLOCK + 1)
    ensures Decrypt(dec, Encrypt(enc, p)) == Some(p)
  {
    UnpadPad(p);
    assert |enc(Pad(p))| == |Pad(p)|;
  }
}
