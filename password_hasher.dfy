/** `PasswordHasher`: a stored password is `base64(salt) + ":" + base64(digest)`,
    where the digest is SHA-256 over the salt followed by the UTF-8 bytes of the
    password. The salt (from `SecureRandom`) is a parameter, and SHA-256 with the
    UTF-8 encoding is an abstract function `H(salt, password)`. */
module PasswordHashing {
  import opened Strings
  import opened Base64

  const SALT_LENGTH: nat := 16

  /** Length of a SHA-256 digest in bytes. */
  const DIGEST_LENGTH: nat := 32

  type Salt = s: seq<Byte> | |s| == SALT_LENGTH witness seq(16, _ => 0)

  /** `MessageDigest` after `update(salt)`, applied to `password.getBytes(UTF_8)`. */
  type Hash = (seq<Byte>, string) -> seq<Byte>

  /** SHA-256 always yields 32 bytes. */
  ghost predicate IsSha256Like(h: Hash) {
    forall salt, password :: |h(salt, password)| == DIGEST_LENGTH
  }

  /** `hashPassword(password)` with the salt drawn by `SecureRandom`. */
  function HashPassword(password: string, salt: Salt, h: Hash): (stored: string)
    ensures |stored| > 24 && stored[24] == ':'
    ensures Decode(stored[..24]) == Some(salt)
  {
    var a, b := Encode(salt), Encode(h(salt, password));
    EncodeShape(salt);
    assert |a| == 24;
    DecodeEncode(salt);
    assert (a + ":" + b)[..24] == a;
    a + ":" + b
  }

  /** `verifyPassword(password, storedHash)`: split on ':', exactly two parts,
      decode both (a decoding failure is caught and yields false), then compare
      the recomputed digest with the stored one. */
  function VerifyPassword(password: string, stored: string, h: Hash): (ok: bool)
    ensures ':' !in stored ==> !ok
    ensures ok ==> var parts := JavaSplit(stored, ':');
                   |parts| == 2 && Decode(parts[0]).Some? &&
                   Decode(parts[1]) == Some(h(Decode(parts[0]).value, password))
  {
    var parts := JavaSplit(stored, ':');
    if |parts| != 2 then false
    else
      match (Decode(parts[0]), Decode(parts[1]))
      case (Some(salt), Some(expected)) => expected == h(salt, password)
      case _ => false
  }

  // ---------------------------------------------------------------- properties

  /** The hash of a password verifies against that password. */
  lemma VerifyHashed(password: string, salt: Salt, h: Hash)
    requires |h(salt, password)| == DIGEST_LENGTH
    ensures VerifyPassword(password, HashPassword(password, salt, h), h)
  {
    var a, b := Encode(salt), Encode(h(salt, password));
    EncodeShape(salt);
    EncodeShape(h(salt, password));
    assert HashPassword(password, salt, h) == a + [':'] + b;
    JavaSplitTwo(a, b, ':');
    DecodeEncode(salt);
    DecodeEncode(h(salt, password));
  }

  /** With a SHA-256-like digest every stored hash verifies. */
  lemma VerifyHashedSha(password: string, salt: Salt, h: Hash)
    requires IsSha256Like(h)
    ensures VerifyPassword(password, HashPassword(password, salt, h), h)
  {
    VerifyHashed(password, salt, h);
  }

  /** Two hashes of the same password made with different salts are different. */
  lemma {:induction false} DistinctSaltsDistinctHashes(password: string, s1: Salt, s2: Salt, h: Hash)
    requires s1 != s2
    ensures HashPassword(password, s1, h) != HashPassword(password, s2, h)
  {
    if HashPassword(password, s1, h) == HashPassword(password, s2, h) {
      EncodeInjective(s1, s2);
    }
  }

  /** A password is verified only against a digest of that very password under
      the stored salt: if the digest separates two passwords, a hash of one never
      verifies the other. */
  lemma WrongPasswordFails(p: string, q: string, salt: Salt, h: Hash)
    requires |h(salt, p)| == DIGEST_LENGTH
    requires h(salt, p) != h(salt, q)
    ensures !VerifyPassword(q, HashPassword(p, salt, h), h)
  {
    var a, b := Encode(salt), Encode(h(salt, p));
    EncodeShape(salt);
    EncodeShape(h(salt, p));
    assert HashPassword(p, salt, h) == a + [':'] + b;
    JavaSplitTwo(a, b, ':');
    DecodeEncode(salt);
    DecodeEncode(h(salt, p));
  }
}
