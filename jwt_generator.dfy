/**
 The claim set of `JwtGenerator.generateJwt`. The clock read
 (`System.currentTimeMillis`) is the parameter `nowMs`; HMAC-SHA256 signing
 and the base64url encoding of the token (auth0 `JWT`) are the parameter
 `sign`, of which nothing is assumed.
 */
module JwtGenerator {
  import opened Common
  import opened QshCalculator

  /** A claim value: `withClaim` is given strings and one `long`. */
  datatype Claim = StringClaim(text: string) | NumberClaim(number: int)

  type Claims = map<string, Claim>

  /** HMAC-SHA256 signing of a claim set under a secret key, giving the token text. */
  type Signer = (Claims, string) -> string

  /** How long a token stays valid, in milliseconds. */
  const ValidityMs := 3600000

  /** Java's `/` on `long`: the quotient rounded toward zero. */
  function JavaDiv(a: int, d: int): (q: int)
    requires d > 0
    ensures a >= 0 ==> 0 <= a - q * d < d
    ensures a < 0 ==> 0 <= q * d - a < d
  {
    if a >= 0 then a / d else -((-a) / d)
  }

  /** `(System.currentTimeMillis() + 3600000) / 1000`: the `exp` claim, in seconds. */
  function ExpirySeconds(nowMs: int): (exp: int)
    ensures nowMs + ValidityMs >= 0 ==> exp * 1000 <= nowMs + ValidityMs < exp * 1000 + 1000
    ensures nowMs + ValidityMs < 0 ==> exp * 1000 - 1000 < nowMs + ValidityMs <= exp * 1000
  {
    JavaDiv(nowMs + ValidityMs, 1000)
  }

  /**
   For any clock reading after the epoch, the expiry is exactly 3600 seconds
   after the issue second, and it lies within the last second before
   `now + 1 hour`.
   */
  lemma ExpiryIsOneHourAhead(nowMs: int)
    requires nowMs >= 0
    ensures ExpirySeconds(nowMs) == JavaDiv(nowMs, 1000) + 3600
    ensures ExpirySeconds(nowMs) * 1000 <= nowMs + ValidityMs < ExpirySeconds(nowMs) * 1000 + 1000
  {
  }

  /** The claims `generateJwt` puts in the token. */
  function JwtClaims(httpMethod: string, uri: string, accessKey: string, nowMs: int, sha256: Digest): (claims: Claims)
    ensures claims.Keys == {"sub", "qsh", "iss", "exp"}
    ensures claims["sub"] == claims["iss"] == StringClaim(accessKey)
    ensures claims["qsh"] == StringClaim(Qsh(httpMethod, uri, sha256))
    ensures claims["exp"] == NumberClaim(ExpirySeconds(nowMs))
  {
    map["sub" := StringClaim(accessKey),
        "qsh" := StringClaim(Qsh(httpMethod, uri, sha256)),
        "iss" := StringClaim(accessKey),
        "exp" := NumberClaim(ExpirySeconds(nowMs))]
  }

  /** `generateJwt(method, uri, baseUrl, accessKey, secretKey)` at clock reading `nowMs`. */
  function GenerateJwt(httpMethod: string, uri: string, baseUrl: string, accessKey: string, secretKey: string,
                       nowMs: int, sha256: Digest, sign: Signer): string
  {
    sign(JwtClaims(httpMethod, uri, accessKey, nowMs, sha256), secretKey)
  }

  /**
   The token is the signature, under the secret key, of a claim set made of
   exactly `sub`, `qsh`, `iss` and `exp`: the access key twice, a QSH that
   decodes to the digest of the canonical request, and an expiry 3600
   seconds after the issue second.
   */
  lemma GenerateJwtContents(httpMethod: string, uri: string, baseUrl: string, accessKey: string, secretKey: string,
                            nowMs: int, sha256: Digest, sign: Signer)
    requires nowMs >= 0
    ensures var claims := JwtClaims(httpMethod, uri, accessKey, nowMs, sha256);
            && GenerateJwt(httpMethod, uri, baseUrl, accessKey, secretKey, nowMs, sha256, sign) == sign(claims, secretKey)
            && claims.Keys == {"sub", "qsh", "iss", "exp"}
            && claims["sub"] == claims["iss"] == StringClaim(accessKey)
            && claims["qsh"].StringClaim?
            && DecodeHex(claims["qsh"].text) == Some(sha256(CanonicalRequest(httpMethod, uri)))
            && claims["exp"] == NumberClaim(JavaDiv(nowMs, 1000) + 3600)
  {
    DecodeHexOf(sha256(CanonicalRequest(httpMethod, uri)));
    ExpiryIsOneHourAhead(nowMs);
  }

  /** `baseUrl` is accepted and ignored: it never reaches the token. */
  lemma GenerateJwtIgnoresBaseUrl(httpMethod: string, uri: string, b1: string, b2: string, accessKey: string,
                                  secretKey: string, nowMs: int, sha256: Digest, sign: Signer)
    ensures GenerateJwt(httpMethod, uri, b1, accessKey, secretKey, nowMs, sha256, sign)
         == GenerateJwt(httpMethod, uri, b2, accessKey, secretKey, nowMs, sha256, sign)
  {
  }

  /**
   The `qsh` claim is the hex form of the digest of the canonical request:
   decoding it gives back exactly those 32 bytes, in 64 lower-case characters.
   */
  lemma QshClaimEncodesRequest(httpMethod: string, uri: string, accessKey: string, nowMs: int, sha256: Digest)
    requires |sha256(CanonicalRequest(httpMethod, uri))| == Sha256Length
    ensures DecodeHex(JwtClaims(httpMethod, uri, accessKey, nowMs, sha256)["qsh"].text)
         == Some(sha256(CanonicalRequest(httpMethod, uri)))
    ensures |JwtClaims(httpMethod, uri, accessKey, nowMs, sha256)["qsh"].text| == 64
  {
    DecodeHexOf(sha256(CanonicalRequest(httpMethod, uri)));
  }

  /**
   Two requests whose claim sets coincide have canonical strings with the same
   digest: a claim set, hence a token, made for one endpoint does not fit
   another unless the digest itself collides.
   */
  lemma ClaimsBindRequest(m1: string, u1: string, m2: string, u2: string, accessKey: string, nowMs: int, sha256: Digest)
    requires JwtClaims(m1, u1, accessKey, nowMs, sha256) == JwtClaims(m2, u2, accessKey, nowMs, sha256)
    ensures sha256(CanonicalRequest(m1, u1)) == sha256(CanonicalRequest(m2, u2))
  {
    assert JwtClaims(m1, u1, accessKey, nowMs, sha256)["qsh"] == JwtClaims(m2, u2, accessKey, nowMs, sha256)["qsh"];
    QshBindsDigest(m1, u1, m2, u2, sha256);
  }
}
