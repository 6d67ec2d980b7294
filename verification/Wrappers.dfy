/** Values shared by the other modules. */
module Wrappers {

  datatype Option<+T> = None | Some(value: T)

  /**
   SHA-256 taken as an ideal hash: a digest remembers what was hashed, so equal digests
   mean equal inputs and nothing else about the digest is known.
   */
  datatype Digest = Sha256(preimage: string)
}
