/**
 * An abstract model of bcrypt. A digest records its salt and what was hashed,
 * so hashing an already hashed value is representable, and comparing is
 * "the digest was made from this plaintext". Salt generation and the cost
 * factor are not modelled: the salt is a parameter.
 */
module Bcrypt {

  /** A stored password field: plaintext as given, or a digest of some earlier value. */
  datatype Secret = Plain(text: string) | Digest(salt: nat, of: Secret)

  /** `bcrypt.hash(value, salt)`. */
  function Hash(salt: nat, value: Secret): Secret
  {
    Digest(salt, value)
  }

  /** `bcrypt.compare(plain, hashed)`: true exactly when `hashed` is a digest of `plain`, under any salt. */
  function Compare(plain: string, hashed: Secret): (r: bool)
    ensures r <==> exists salt: nat :: hashed == Hash(salt, Plain(plain))
  {
    if hashed.Digest? && hashed.of == Plain(plain) then
      assert hashed == Hash(hashed.salt, Plain(plain));
      true
    else
      false
  }

  /** A digest of a digest no longer verifies the original plaintext: hashing twice loses the password. */
  lemma DoubleHashLosesPassword(plain: string, salt1: nat, salt2: nat)
    ensures !Compare(plain, Hash(salt2, Hash(salt1, Plain(plain))))
  {
  }
}
