/**
 * Password hashing as the API uses bcrypt: `hash(password, cost)` draws a random salt,
 * and the stored digest carries cost and salt, so `compare` recomputes the digest with
 * them. The salt is a parameter here; the digest function is a deterministic stand-in.
 */
module Bcrypt {
  import Strings

  /** The cost factor both the register handler and the seed pass to `bcrypt.hash`. */
  const Rounds: nat := 10

  /** A stored password: never the plaintext, only cost, salt and checksum. */
  datatype Digest = Digest(cost: nat, salt: nat, checksum: nat)

  function Hash(password: string, cost: nat, salt: nat): (d: Digest)
    ensures d.cost == cost && d.salt == salt
  {
    Digest(cost, salt, (Strings.Fingerprint(password) * (cost + 1) + salt) % 0x1_0000_0000_0000_0000)
  }

  /** `bcrypt.compare(password, digest)`. */
  predicate Compare(password: string, digest: Digest) {
    Hash(password, digest.cost, digest.salt) == digest
  }

  /** A password always matches the digest made from it. */
  lemma CompareHash(password: string, cost: nat, salt: nat)
    ensures Compare(password, Hash(password, cost, salt))
  {
  }
}
