/**
 * The stored credential format: `hashPassword` writes `hex(key) + "." + hex(salt)`,
 * where the key is 64 bytes derived by scrypt from the password and the salt's hex
 * text; `comparePasswords` splits the stored form on ".", hex-decodes the hash and
 * compares it with a fresh derivation, answering false for anything that throws.
 *
 * scrypt is an oracle: any function from (password, salt text) to 64 bytes.
 * `randomBytes(16)` is an oracle too: the salt is a parameter.
 */
module Credential {
  import opened Wrappers
  import opened Hex
  import JsString

  const KeyLength := 64
  const SaltLength := 16

  /** A key-derivation function with scrypt's signature as called here: 64 output bytes. */
  type Kdf = f: (string, string) -> seq<Byte> | forall password, salt :: |f(password, salt)| == KeyLength
    witness (password: string, salt: string) => seq<Byte>(KeyLength, _ => 0)

  /** The bytes `randomBytes(16)` returns. */
  type Salt = s: seq<Byte> | |s| == SaltLength
    witness seq<Byte>(SaltLength, _ => 0)

  /** `hashPassword`: the derived key and the salt, both in lowercase hexadecimal, joined by ".". */
  function HashPassword(kdf: Kdf, password: string, salt: Salt): (stored: string)
    ensures |stored| == 2 * KeyLength + 1 + 2 * SaltLength
    ensures JsString.Split(stored, '.') == [Encode(kdf(password, Encode(salt))), Encode(salt)]
  {
    var saltHex := Encode(salt);
    var key := Encode(kdf(password, saltHex));
    EncodeHasNoDot(kdf(password, saltHex));
    EncodeHasNoDot(salt);
    JsString.SplitAround(key, '.', saltHex);
    JsString.SplitWithoutSeparator(saltHex, '.');
    key + "." + saltHex
  }

  /** What `comparePasswords` can throw: scrypt refuses an undefined salt, `timingSafeEqual` unequal lengths. */
  datatype CryptoError = MissingSalt | ByteLengthMismatch

  /** `timingSafeEqual`: throws on buffers of different lengths, otherwise compares them byte by byte. */
  function TimingSafeEqual(a: seq<Byte>, b: seq<Byte>): (r: Result<bool, CryptoError>)
    ensures r.Failure? <==> |a| != |b|
    ensures r.Success? ==> (r.value <==> forall i :: 0 <= i < |a| ==> a[i] == b[i])
  {
    if |a| != |b| then Failure(ByteLengthMismatch) else Success(a == b)
  }

  /** The body of the `try` in `comparePasswords`, with what it may throw. */
  function CompareOrThrow(kdf: Kdf, supplied: string, stored: string): (r: Result<bool, CryptoError>)
    ensures var parts := JsString.Split(stored, '.');
      r.Failure? <==> (|parts| < 2 || |Decode(parts[0])| != KeyLength)
    ensures var parts := JsString.Split(stored, '.');
      r.Success? ==> (r.value <==> Decode(parts[0]) == kdf(supplied, parts[1]))
  {
    var parts := JsString.Split(stored, '.');
    var hashedBuf := Decode(parts[0]);
    if |parts| < 2 then Failure(MissingSalt)
    else TimingSafeEqual(hashedBuf, kdf(supplied, parts[1]))
  }

  /** `comparePasswords`: anything thrown is caught and answered with false. */
  function ComparePasswords(kdf: Kdf, supplied: string, stored: string): (ok: bool)
    ensures ok <==>
      var parts := JsString.Split(stored, '.');
      |parts| >= 2 && Decode(parts[0]) == kdf(supplied, parts[1])
  {
    match CompareOrThrow(kdf, supplied, stored)
    case Success(equal) => equal
    case Failure(_) => false
  }

  /** The hash part and the salt part that `comparePasswords` splits out are exactly the ones `hashPassword` joined. */
  lemma SplitRecoversParts(kdf: Kdf, password: string, salt: Salt)
    ensures var parts := JsString.Split(HashPassword(kdf, password, salt), '.');
      |parts| == 2 && Decode(parts[0]) == kdf(password, Encode(salt)) && parts[1] == Encode(salt)
  {
    DecodeEncode(kdf(password, Encode(salt)));
  }

  /** A password always matches the credential hashed from it. */
  lemma HashThenCompare(kdf: Kdf, password: string, salt: Salt)
    ensures ComparePasswords(kdf, password, HashPassword(kdf, password, salt))
  {
    SplitRecoversParts(kdf, password, salt);
  }

  /** Another password matches only if the oracle derives the same key from it under the same salt. */
  lemma OtherPasswordRejected(kdf: Kdf, password: string, other: string, salt: Salt)
    requires kdf(other, Encode(salt)) != kdf(password, Encode(salt))
    ensures !ComparePasswords(kdf, other, HashPassword(kdf, password, salt))
  {
    SplitRecoversParts(kdf, password, salt);
  }

  /**
   * `comparePasswords` throws internally exactly when the stored form has no "." or
   * its hash part does not decode to 64 bytes, and in each of those cases it answers false.
   */
  lemma MalformedIsFalse(kdf: Kdf, supplied: string, stored: string)
    ensures var parts := JsString.Split(stored, '.');
      CompareOrThrow(kdf, supplied, stored).Failure? <==> (|parts| < 2 || |Decode(parts[0])| != KeyLength)
    ensures CompareOrThrow(kdf, supplied, stored).Failure? ==> !ComparePasswords(kdf, supplied, stored)
  {
  }

  /** A stored form without "." never matches. */
  lemma NoDotNeverMatches(kdf: Kdf, supplied: string, stored: string)
    requires '.' !in stored
    ensures !ComparePasswords(kdf, supplied, stored)
  {
    JsString.SplitWithoutSeparator(stored, '.');
  }
}
