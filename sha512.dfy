/**
 * SHA-512 (FIPS 180-4, section 6.4) as the hashers use it through the `sha2`
 * crate.  The compression function is not modelled: the digest function is a
 * parameter, any total function on byte strings whose results are 64 bytes
 * long.  `Hasher` is the incremental state of `Sha512::new()`: `update`
 * appends bytes to the message, `finalize` hashes the message.
 */
module Sha512 {
  import opened Utf8

  /** Length of a SHA-512 digest in bytes. */
  const DigestLength: nat := 64

  type HashFunction = f: seq<byte> -> seq<byte> | forall m :: |f(m)| == DigestLength
    witness (m: seq<byte>) => seq(DigestLength, _ => 0)

  class Hasher {
    /** The bytes fed so far. */
    var message: seq<byte>

    constructor ()
      ensures message == []
    {
      message := [];
    }

    /** `hasher.update(s)` for a string `s`: its UTF-8 bytes are appended. */
    method Update(s: string)
      modifies this
      ensures message == old(message) + Encode(s)
    {
      message := message + Encode(s);
    }

    /** `hasher.finalize().to_vec()`: the digest of everything fed. */
    method Finalize(sha: HashFunction) returns (digest: seq<byte>)
      ensures digest == sha(message)
      ensures |digest| == DigestLength
    {
      digest := sha(message);
    }
  }
}
