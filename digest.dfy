/** `hashCanonicalUrl`: the SHA-256 hex digest of a string, cut to a prefix.
    SHA-256 itself is a foreign library routine, so the model takes it as a
    parameter that yields 64 lower-case hexadecimal characters. */
module Digest {
  import opened Text

  predicate IsLowerHexDigit(c: char) {
    ('0' <= c <= '9') || ('a' <= c <= 'f')
  }

  /** What `digest('hex')` of a SHA-256 hash looks like: 64 lower-case hex digits. */
  predicate IsHexDigest(s: string) {
    |s| == 64 && forall i :: 0 <= i < |s| ==> IsLowerHexDigit(s[i])
  }

  type HexDigest = s: string | IsHexDigest(s)
    witness seq(64, _ => '0')

  /** `createHash('sha256').update(text).digest('hex')` */
  type Sha256 = string -> HexDigest

  /** The default prefix length of `hashCanonicalUrl`. */
  const DefaultHashLength: nat := 16

  /** `hashCanonicalUrl(text, length)`: the first `length` characters of the
      digest, or all 64 of them when `length` is larger. */
  function HashCanonicalUrl(sha256: Sha256, text: string, length: nat): (h: string)
    ensures |h| == Min(length, 64)
    ensures h <= sha256(text)
    ensures IsHexString(h)
    ensures forall i :: 0 <= i < |h| ==> IsLowerHexDigit(h[i])
  {
    sha256(text)[..Min(length, 64)]
  }

  /** A shorter hash of a text is a prefix of a longer one, so two texts whose
      long hashes agree also agree on every shorter hash. */
  lemma HashPrefixes(sha256: Sha256, a: string, b: string, m: nat, n: nat)
    requires m <= n
    ensures HashCanonicalUrl(sha256, a, m) <= HashCanonicalUrl(sha256, a, n)
    ensures HashCanonicalUrl(sha256, a, n) == HashCanonicalUrl(sha256, b, n)
        ==> HashCanonicalUrl(sha256, a, m) == HashCanonicalUrl(sha256, b, m)
  {
    var ha, hb := HashCanonicalUrl(sha256, a, n), HashCanonicalUrl(sha256, b, n);
    assert HashCanonicalUrl(sha256, a, m) == ha[..Min(m, 64)];
    assert HashCanonicalUrl(sha256, b, m) == hb[..Min(m, 64)];
  }
}
