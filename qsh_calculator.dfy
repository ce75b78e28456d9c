/**
 The canonical request hash (QSH) of `QshCalculator`: the canonical string
 `UPPER(method) & uri &`, its SHA-256 digest, and the lower-case hex rendering
 of that digest, two characters per byte.

 SHA-256 (`MessageDigest`, applied to the UTF-8 bytes of the string) is a
 library call; it is a parameter of type `Digest` here, and nothing is assumed
 about it except, where stated, the length of what it returns.
 */
module QshCalculator {
  import opened Common

  /** A Java `byte`: signed, eight bits. */
  newtype int8 = x: int | -128 <= x < 128

  /** SHA-256 over the UTF-8 encoding of a string, as `MessageDigest` returns it. */
  type Digest = string -> seq<int8>

  /** Length in bytes of a SHA-256 digest. */
  const Sha256Length := 32

  // ---------------------------------------------------------------------------
  // Canonical string
  // ---------------------------------------------------------------------------

  /** `method.toUpperCase() + "&" + uri + "&"`. */
  function CanonicalRequest(httpMethod: string, uri: string): (c: string)
    ensures |c| == |httpMethod| + |uri| + 2
  {
    Upper(httpMethod) + "&" + uri + "&"
  }

  /** Index of the first '&' in `c` at or after `from`, or `|c|` when there is none. */
  function FirstAmpersand(c: string, from: nat): (k: nat)
    requires from <= |c|
    ensures from <= k <= |c|
    ensures k < |c| ==> c[k] == '&'
    ensures forall j :: from <= j < k ==> c[j] != '&'
    decreases |c| - from
  {
    if from == |c| || c[from] == '&' then from else FirstAmpersand(c, from + 1)
  }

  /**
   Reads a canonical string back: the method is everything before the first
   '&', the URI everything between it and the trailing '&'.
   */
  function ParseCanonical(c: string): (r: Option<(string, string)>)
    ensures r.Some? ==> '&' !in r.value.0
  {
    if |c| == 0 || c[|c| - 1] != '&' then None
    else
      var k := FirstAmpersand(c, 0);
      if k + 1 < |c| then
        assert forall j :: 0 <= j < k ==> c[..k][j] == c[j];
        Some((c[..k], c[k + 1..|c| - 1]))
      else None
  }

  /**
   Round trip: for a method name without '&' (every HTTP verb), the canonical
   string gives back the upper-cased method and the URI verbatim, even when
   the URI holds '&' (a query string).
   */
  lemma ParseCanonicalRequest(httpMethod: string, uri: string)
    requires '&' !in httpMethod
    ensures ParseCanonical(CanonicalRequest(httpMethod, uri)) == Some((Upper(httpMethod), uri))
  {
    var c := CanonicalRequest(httpMethod, uri);
    var n := |httpMethod|;
    assert c[n] == '&';
    forall j | 0 <= j < n ensures c[j] != '&' {
      assert c[j] == UpperChar(httpMethod[j]);
      assert httpMethod[j] != '&';
    }
    assert FirstAmpersand(c, 0) == n by {
      FirstAmpersandAt(c, 0, n);
    }
    assert c[..n] == Upper(httpMethod);
    assert c[n + 1..|c| - 1] == uri;
  }

  lemma {:induction false} FirstAmpersandAt(c: string, from: nat, n: nat)
    requires from <= n < |c| && c[n] == '&'
    requires forall j :: from <= j < n ==> c[j] != '&'
    ensures FirstAmpersand(c, from) == n
    decreases n - from
  {
    if from < n {
      FirstAmpersandAt(c, from + 1, n);
    }
  }

  /**
   The canonical string ignores the case of the method and nothing else:
   two methods give the same canonical string for a URI exactly when they
   agree after upper-casing.
   */
  lemma CanonicalIgnoresMethodCase(m1: string, m2: string, uri: string)
    ensures CanonicalRequest(m1, uri) == CanonicalRequest(m2, uri) <==> Upper(m1) == Upper(m2)
  {
    if CanonicalRequest(m1, uri) == CanonicalRequest(m2, uri) {
      var c := CanonicalRequest(m1, uri);
      assert |m1| == |m2|;
      assert Upper(m1) == c[..|m1|];
      assert Upper(m2) == CanonicalRequest(m2, uri)[..|m2|];
    }
  }

  /**
   For '&'-free method names the canonical string is injective in
   (upper-cased method, URI): distinct requests never share it.
   */
  lemma CanonicalInjective(m1: string, u1: string, m2: string, u2: string)
    requires '&' !in m1 && '&' !in m2
    ensures CanonicalRequest(m1, u1) == CanonicalRequest(m2, u2) <==> Upper(m1) == Upper(m2) && u1 == u2
  {
    ParseCanonicalRequest(m1, u1);
    ParseCanonicalRequest(m2, u2);
  }

  // ---------------------------------------------------------------------------
  // Hex rendering of the digest
  // ---------------------------------------------------------------------------

  /** `0xff & b`: the unsigned value of a signed byte. */
  function Unsigned(b: int8): (u: nat)
    ensures u < 256
    ensures (u - b as int) % 256 == 0
  {
    if b < 0 then b as int + 256 else b as int
  }

  /** The byte whose unsigned value is `u` (the inverse of `Unsigned`). */
  function Signed(u: nat): (b: int8)
    requires u < 256
    ensures Unsigned(b) == u
  {
    if u < 128 then u as int8 else (u - 256) as int8
  }

  predicate IsLowerHex(c: char)
  {
    '0' <= c <= '9' || 'a' <= c <= 'f'
  }

  /** The lower-case hex digit for `d`, as `Integer.toHexString` writes it. */
  function HexDigit(d: nat): (c: char)
    requires d < 16
    ensures IsLowerHex(c)
  {
    if d < 10 then ('0' as int + d) as char else ('a' as int + d - 10) as char
  }

  /** The value of a lower-case hex digit; None for any other character. */
  function HexValue(c: char): (r: Option<nat>)
    ensures r.Some? <==> IsLowerHex(c)
    ensures r.Some? ==> r.value < 16 && HexDigit(r.value) == c
  {
    if '0' <= c <= '9' then Some(c as int - '0' as int)
    else if 'a' <= c <= 'f' then Some(c as int - 'a' as int + 10)
    else None
  }

  /** `Integer.toHexString(v)` for `v >= 0`: base 16, lower case, no leading zeros. */
  function ToHexString(v: nat): (h: string)
    ensures |h| >= 1
    decreases v
  {
    if v < 16 then [HexDigit(v)] else ToHexString(v / 16) + [HexDigit(v % 16)]
  }

  /**
   One iteration of the loop in `sha256Hex`: the hex of `0xff & b`, with a '0'
   in front when it has a single digit. Whatever the byte, the result is its
   two base-16 digits, high one first.
   */
  function ByteHex(b: int8): (h: string)
    ensures h == [HexDigit(Unsigned(b) / 16), HexDigit(Unsigned(b) % 16)]
  {
    var hex := ToHexString(Unsigned(b));
    assert Unsigned(b) >= 16 ==> Unsigned(b) / 16 < 16 && ToHexString(Unsigned(b) / 16) == [HexDigit(Unsigned(b) / 16)];
    if |hex| == 1 then "0" + hex else hex
  }

  /** The string `sha256Hex` builds from the digest `bytes`. */
  function HexOf(bytes: seq<int8>): (h: string)
    ensures |h| == 2 * |bytes|
  {
    if |bytes| == 0 then "" else ByteHex(bytes[0]) + HexOf(bytes[1..])
  }

  /** Every character of the hex rendering is a lower-case hex digit. */
  lemma {:induction false} HexOfIsLowerHex(bytes: seq<int8>)
    ensures forall i :: 0 <= i < |HexOf(bytes)| ==> IsLowerHex(HexOf(bytes)[i])
    decreases |bytes|
  {
    if |bytes| > 0 {
      HexOfIsLowerHex(bytes[1..]);
      var h := HexOf(bytes);
      forall i | 0 <= i < |h| ensures IsLowerHex(h[i]) {
        if i >= 2 {
          assert h[i] == HexOf(bytes[1..])[i - 2];
        }
      }
    }
  }

  lemma {:induction false} HexOfSnoc(bytes: seq<int8>, b: int8)
    ensures HexOf(bytes + [b]) == HexOf(bytes) + ByteHex(b)
    decreases |bytes|
  {
    if |bytes| == 0 {
      assert bytes + [b] == [b];
    } else {
      assert (bytes + [b])[1..] == bytes[1..] + [b];
      HexOfSnoc(bytes[1..], b);
    }
  }

  /** Reads lower-case hex back into bytes, two digits per byte. */
  function DecodeHex(s: string): (r: Option<seq<int8>>)
    ensures r.Some? ==> 2 * |r.value| == |s|
    decreases |s|
  {
    if |s| == 0 then Some([])
    else if |s| == 1 then None
    else
      match (HexValue(s[0]), HexValue(s[1]), DecodeHex(s[2..]))
      case (Some(hi), Some(lo), Some(rest)) => Some([Signed(hi * 16 + lo)] + rest)
      case _ => None
  }

  /** The two digits of one byte read back as that byte. */
  lemma ByteHexDecodes(b: int8)
    ensures HexValue(ByteHex(b)[0]).Some? && HexValue(ByteHex(b)[1]).Some?
    ensures Signed(HexValue(ByteHex(b)[0]).value * 16 + HexValue(ByteHex(b)[1]).value) == b
  {
    var u := Unsigned(b);
    assert HexValue(HexDigit(u / 16)) == Some(u / 16);
    assert HexValue(HexDigit(u % 16)) == Some(u % 16);
  }

  /** Decoding the hex rendering gives back the digest byte for byte. */
  lemma {:induction false} DecodeHexOf(bytes: seq<int8>)
    ensures DecodeHex(HexOf(bytes)) == Some(bytes)
    decreases |bytes|
  {
    if |bytes| > 0 {
      var h := HexOf(bytes);
      assert h[..2] == ByteHex(bytes[0]) && h[2..] == HexOf(bytes[1..]);
      DecodeHexOf(bytes[1..]);
      ByteHexDecodes(bytes[0]);
      assert [bytes[0]] + bytes[1..] == bytes;
    }
  }

  /** The hex rendering is injective: distinct digests give distinct strings. */
  lemma HexOfInjective(a: seq<int8>, b: seq<int8>)
    ensures HexOf(a) == HexOf(b) <==> a == b
  {
    DecodeHexOf(a);
    DecodeHexOf(b);
  }

  /** One loop iteration appends the byte's digits, padded to two. */
  lemma HexStep(hash: seq<int8>, i: nat, hex: string)
    requires i < |hash| && hex == ToHexString(Unsigned(hash[i]))
    ensures |hex| == 1 ==> HexOf(hash[..i + 1]) == HexOf(hash[..i]) + "0" + hex
    ensures |hex| != 1 ==> HexOf(hash[..i + 1]) == HexOf(hash[..i]) + hex
  {
    assert hash[..i + 1] == hash[..i] + [hash[i]];
    HexOfSnoc(hash[..i], hash[i]);
  }

  /**
   `sha256Hex(base)`: digests `base` and appends each byte's two hex digits to
   a string builder.
   */
  method Sha256Hex(base: string, sha256: Digest) returns (hexString: string)
    ensures hexString == HexOf(sha256(base))
  {
    var hash := sha256(base);
    hexString := "";
    for i := 0 to |hash|
      invariant hexString == HexOf(hash[..i])
    {
      var hex := ToHexString(Unsigned(hash[i]));
      HexStep(hash, i, hex);
      if |hex| == 1 {
        hexString := hexString + "0";
      }
      hexString := hexString + hex;
    }
    assert hash[..|hash|] == hash;
  }

  // ---------------------------------------------------------------------------
  // The QSH
  // ---------------------------------------------------------------------------

  /** The QSH claim value for a request: hex of the digest of its canonical string. */
  function Qsh(httpMethod: string, uri: string, sha256: Digest): string
  {
    HexOf(sha256(CanonicalRequest(httpMethod, uri)))
  }

  /**
   `calculateQsh(method, uri)`. The result decodes to the digest of the
   canonical string; it is lower-case hex, 64 characters for a 32-byte digest.
   */
  method CalculateQsh(httpMethod: string, uri: string, sha256: Digest) returns (qsh: string)
    ensures qsh == Qsh(httpMethod, uri, sha256)
    ensures DecodeHex(qsh) == Some(sha256(CanonicalRequest(httpMethod, uri)))
    ensures forall i :: 0 <= i < |qsh| ==> IsLowerHex(qsh[i])
    ensures |sha256(CanonicalRequest(httpMethod, uri))| == Sha256Length ==> |qsh| == 64
  {
    var canonicalRequest := Upper(httpMethod) + "&" + uri + "&";
    qsh := Sha256Hex(canonicalRequest, sha256);
    DecodeHexOf(sha256(canonicalRequest));
    HexOfIsLowerHex(sha256(canonicalRequest));
  }

  /** A 32-byte digest always yields 64 lower-case hex characters. */
  lemma QshFormat(httpMethod: string, uri: string, sha256: Digest)
    requires |sha256(CanonicalRequest(httpMethod, uri))| == Sha256Length
    ensures |Qsh(httpMethod, uri, sha256)| == 64
    ensures forall i :: 0 <= i < 64 ==> IsLowerHex(Qsh(httpMethod, uri, sha256)[i])
  {
    HexOfIsLowerHex(sha256(CanonicalRequest(httpMethod, uri)));
  }

  /** `calculateQsh("get", u) == calculateQsh("GET", u)`, and likewise for any casing. */
  lemma QshIgnoresMethodCase(m1: string, m2: string, uri: string, sha256: Digest)
    requires Upper(m1) == Upper(m2)
    ensures Qsh(m1, uri, sha256) == Qsh(m2, uri, sha256)
  {
    CanonicalIgnoresMethodCase(m1, m2, uri);
  }

  /**
   Two requests share a QSH only if the digest gives the same bytes for their
   canonical strings: the hex step loses nothing, so a token's QSH binds it to
   its method and URI as firmly as the digest does.
   */
  lemma QshBindsDigest(m1: string, u1: string, m2: string, u2: string, sha256: Digest)
    requires Qsh(m1, u1, sha256) == Qsh(m2, u2, sha256)
    ensures sha256(CanonicalRequest(m1, u1)) == sha256(CanonicalRequest(m2, u2))
  {
    HexOfInjective(sha256(CanonicalRequest(m1, u1)), sha256(CanonicalRequest(m2, u2)));
  }
}
