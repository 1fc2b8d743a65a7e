/** The collaborators the identity pipeline calls but does not implement:
    bcrypt, the JWT issuer, the image store, `uuid()` and the `validURL`
    check. Each is reduced to the contract the pipeline relies on. */
module Collaborators {
  import opened Wrappers

  /** A bcrypt hash. `key` stands for the derived key: the model keeps
      what `compareSync` needs to decide a match, not the cryptography. */
  datatype PasswordHash = Bcrypt(salt: string, key: string)

  /** `bcrypt.hashSync(pass, salt)`. */
  function Encrypt(pass: string, salt: string): PasswordHash {
    Bcrypt(salt, pass)
  }

  /** `bcrypt.compareSync(pass, encrypted)`. */
  predicate CheckMatch(pass: string, encrypted: PasswordHash) {
    encrypted.key == pass
  }

  /** A password matches its own hash, and no other password does. */
  lemma EncryptCheck(pass: string, other: string, salt: string)
    ensures CheckMatch(pass, Encrypt(pass, salt))
    ensures CheckMatch(other, Encrypt(pass, salt)) <==> other == pass
  {
  }

  /** The claims a session token carries: `{email, sub, accType}`. */
  datatype Claims = Claims(email: string, sub: string, accType: string)

  /** `generateToken(payload)`: a signed JWT, opaque to the pipeline. */
  datatype Token = Jwt(claims: Claims)

  function GenerateToken(payload: Claims): Token {
    Jwt(payload)
  }

  /** What the image store (`Uploader`) returns: an object whose
      `public_id` and `secure_url` may be missing; `{}` has neither. */
  datatype Picture = Picture(publicId: Option<string>, secureUrl: Option<string>)

  /** The empty object `{}`. */
  const EmptyPicture: Picture := Picture(None, None)

  /** The URL uploaded as every local account's first picture. */
  const DefaultImg: string :=
    "https://t4.ftcdn.net/jpg/00/64/67/63/360_F_64676383_LdbmhiNM6Ypzb3FM4PPuFP9rHe7ri8Ju.jpg"

  /** The results the outside world supplies to one pipeline call:
      the next `uuid()`, the next bcrypt salt, what `Uploader` stores for a
      source, whether `DeleteImage` succeeds for a public id, and whether
      the `validURL` regular expression accepts a string. */
  datatype Env = Env(
    uuid: string,
    salt: string,
    upload: string -> Picture,
    deleteImage: Option<string> -> bool,
    validUrl: string -> bool)

  /** The part of GitHub's `/user` reply the pipeline reads. */
  datatype GithubUser = GithubUser(name: string, email: string, bio: string, avatarUrl: string)
}
