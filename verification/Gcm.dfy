/**
 * AES-256-GCM as far as storage encryption relies on it (sections 7.1 and 7.2
 * of NIST SP 800-38D): a key stream combined byte by byte, and a tag over the
 * associated data and the ciphertext. Which stream and which tag is left open.
 */
module Gcm {
  type byte = bv8
  type Bytes = seq<byte>

  const IV_LENGTH := 12
  const TAG_LENGTH := 16
  const KEY_LENGTH := 32

  type Tag = t: Bytes | |t| == TAG_LENGTH witness seq(TAG_LENGTH, _ => 0)
  type Iv = t: Bytes | |t| == IV_LENGTH witness seq(IV_LENGTH, _ => 0)
  type Key = t: Bytes | |t| == KEY_LENGTH witness seq(KEY_LENGTH, _ => 0)

  datatype Gcm = Gcm(pad: (Key, Iv, nat) -> byte, tag: (Key, Iv, string, Bytes) -> Tag)
  {
    // Encrypt or decrypt the bytes that stand at `offset` of the message.
    function Crypt(key: Key, iv: Iv, offset: nat, data: Bytes): (r: Bytes)
      ensures |r| == |data|
    {
      seq(|data|, i requires 0 <= i < |data| => data[i] ^ pad(key, iv, offset + i))
    }
  }

  lemma CryptConcat(g: Gcm, key: Key, iv: Iv, offset: nat, a: Bytes, b: Bytes)
    ensures g.Crypt(key, iv, offset, a + b) == g.Crypt(key, iv, offset, a) + g.Crypt(key, iv, offset + |a|, b)
  {
  }

  lemma XorTwice(x: byte, p: byte)
    ensures (x ^ p) ^ p == x
  {
  }

  lemma CryptTwice(g: Gcm, key: Key, iv: Iv, offset: nat, data: Bytes)
    ensures g.Crypt(key, iv, offset, g.Crypt(key, iv, offset, data)) == data
  {
    var once := g.Crypt(key, iv, offset, data);
    forall i | 0 <= i < |data| ensures g.Crypt(key, iv, offset, once)[i] == data[i] {
      XorTwice(data[i], g.pad(key, iv, offset + i));
    }
  }

  /** A running encryption or decryption. `ciphertext` is what the tag will cover. */
  class Cipher {
    const gcm: Gcm
    const key: Key
    const iv: Iv
    const aad: string
    var ciphertext: Bytes

    constructor (gcm: Gcm, key: Key, iv: Iv, aad: string)
      ensures this.gcm == gcm && this.key == key && this.iv == iv && this.aad == aad && ciphertext == []
    {
      this.gcm, this.key, this.iv, this.aad, ciphertext := gcm, key, iv, aad, [];
    }

    method Encrypt(plaintext: Bytes) returns (output: Bytes)
      modifies this
      ensures output == gcm.Crypt(key, iv, |old(ciphertext)|, plaintext)
      ensures ciphertext == old(ciphertext) + output
    {
      output := gcm.Crypt(key, iv, |ciphertext|, plaintext);
      ciphertext := ciphertext + output;
    }

    method Decrypt(input: Bytes) returns (output: Bytes)
      modifies this
      ensures output == gcm.Crypt(key, iv, |old(ciphertext)|, input)
      ensures ciphertext == old(ciphertext) + input
    {
      output := gcm.Crypt(key, iv, |ciphertext|, input);
      ciphertext := ciphertext + input;
    }

    method AuthTag() returns (tag: Tag)
      ensures tag == gcm.tag(key, iv, aad, ciphertext)
    {
      tag := gcm.tag(key, iv, aad, ciphertext);
    }
  }
}
