/** AES-256-CBC as the program uses it: a random initialisation vector in front, padding at the end. The cipher
    itself is a parameter; the lemmas that depend on it say so with `Lawful`.

    The two laws are that decryption undoes encryption under the same key, and how long a ciphertext is. Nothing is
    said about other keys or about secrecy. */
module Crypto {
  import opened Bytes

  type Key = k: Data | |k| == 32 witness seq(32, _ => 0)

  /** `enc` takes the text, the key and the random choice of the initialisation vector. */
  datatype Cipher = Cipher(enc: (Data, Key, nat) -> Data, dec: (Data, Key) -> Option<Data>)

  function CipherLength(n: nat): nat {
    16 + 16 * (n / 16 + 1)
  }

  ghost predicate Lawful(c: Cipher) {
    forall p: Data, k: Key, iv: nat ::
      && c.dec(c.enc(p, k, iv), k) == Some(p)
      && |c.enc(p, k, iv)| == CipherLength(|p|)
  }

  lemma LawfulAt(c: Cipher, p: Data, k: Key, iv: nat)
    requires Lawful(c)
    ensures c.dec(c.enc(p, k, iv), k) == Some(p)
    ensures |c.enc(p, k, iv)| == CipherLength(|p|)
  {
  }

  // ---- The hypothesis can be met: the padding of section 6.3 of RFC 5652 alone

  function Pad(p: Data): Data {
    var n := 16 - |p| % 16;
    seq(16, _ => 0) + p + seq(n, _ => n)
  }

  function Unpad(s: Data): Option<Data> {
    if |s| < 17 || s[|s| - 1] > |s| - 16 then None else Some(s[16..|s| - s[|s| - 1]])
  }

  lemma LawfulExists()
    ensures exists c :: Lawful(c)
  {
    var c := Cipher((p: Data, k: Key, iv: nat) => Pad(p), (s: Data, k: Key) => Unpad(s));
    forall p: Data, k: Key, iv: nat
      ensures c.dec(c.enc(p, k, iv), k) == Some(p) && |c.enc(p, k, iv)| == CipherLength(|p|)
    {
      var s := Pad(p);
      var n := 16 - |p| % 16;
      assert s[|s| - 1] == n;
      assert s[16..|s| - n] == p;
    }
    assert Lawful(c);
  }
}
