/** The two mechanisms of libs/jetcore/jetcore/crypto.py, symbolically: a genuine
    ciphertext remembers whom it was sealed for, a genuine signature which key
    made it and over which digest. Everything else is opaque bytes. */
module Crypto {
  import opened Basics
  import Nkey

  /** An X25519 pair; the private key is known only through its public half. */
  datatype PrivateKey = PrivateKey(publicKey: string)

  datatype Ciphertext =
    | Sealed(recipients: set<string>, plaintext: seq<Byte>)
    | Opaque(raw: seq<Byte>)

  datatype Digest = Digest(of: seq<Byte>)

  datatype Signature =
    | Signed(key: seq<Byte>, digest: Digest)
    | Unauthentic(raw: seq<Byte>)

  function EncryptFor(plaintext: seq<Byte>, recipients: seq<string>): (c: Ciphertext) {
    Sealed((set k | k in recipients), plaintext)
  }

  function Decrypt(c: Ciphertext, key: PrivateKey): (r: Option<seq<Byte>>) {
    if c.Sealed? && key.publicKey in c.recipients then Some(c.plaintext) else None
  }

  function Sign(key: seq<Byte>, plaintext: seq<Byte>): (s: Signature) {
    Signed(key, Digest(plaintext))
  }

  /** False for a signature that does not match; a failure for a key text that
      does not decode. */
  function Verify(crc16: Nkey.Checksum, publicKey: seq<Byte>, plaintext: seq<Byte>, signature: Signature)
    : (r: Result<bool, Nkey.KeyError>)
  {
    match Nkey.DecodePublic(crc16, publicKey)
    case Failure(e) => Failure(e)
    case Success(key) => Success(signature == Signed(key, Digest(plaintext)))
  }
}
