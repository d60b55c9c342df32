/**
 * bcrypt as the backend uses it (`bcrypt.hash(s, 10)` and
 * `bcrypt.compare(s, digest)`): a digest records what it was made from, and
 * comparing accepts exactly the text a digest was made from. Salt, cost and
 * the strength of the hash are not modelled.
 */
module Crypto {
  /** A stored bcrypt digest. */
  datatype Digest = Bcrypt(secret: string)

  /** `bcrypt.hash` */
  function Hash(plain: string): Digest {
    Bcrypt(plain)
  }

  /** `bcrypt.compare` */
  predicate Compare(plain: string, digest: Digest) {
    digest == Hash(plain)
  }

  /** Every text matches its own digest, and no other text does. */
  lemma CompareHash(plain: string, other: string)
    ensures Compare(plain, Hash(plain))
    ensures Compare(other, Hash(plain)) <==> other == plain
  {
  }
}
