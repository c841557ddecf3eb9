/** Operating-system versions and their encoding as the integers of AvailabilityVersions.h. */
module Versions {
  import opened Options

  datatype Version = Version(major: nat, minor: nat, patch: nat)

  /** Lexicographic order. */
  predicate Less(u: Version, v: Version) {
    u.major < v.major || (u.major == v.major && (u.minor < v.minor || (u.minor == v.minor && u.patch < v.patch)))
  }

  /** Mac OS X 10.0 to 10.9 are numbered 1000 to 1090, later versions by two digits a component. */
  predicate Legacy(v: Version) { v.major == 10 && v.minor <= 9 }

  predicate Encodable(v: Version) {
    v.major >= 10 && v.minor < 100 && v.patch < 100 && (Legacy(v) ==> v.patch == 0)
  }

  function Encode(v: Version): int {
    if Legacy(v) then 1000 + 10 * v.minor else 10000 * v.major + 100 * v.minor + v.patch
  }

  /** The version that an integer denotes, if any. */
  function Decode(n: int): Option<Version> {
    if 1000 <= n <= 1090 then (if n % 10 == 0 then Some(Version(10, (n - 1000) / 10, 0)) else None)
    else if n < 101000 then None
    else Some(Version(n / 10000, n / 100 % 100, n % 100))
  }

  /** The encoding is strictly increasing, across the seam from 1090 to 101000 as well. */
  lemma EncodeOrder(u: Version, v: Version)
    requires Encodable(u) && Encodable(v)
    ensures Encode(u) < Encode(v) <==> Less(u, v)
  {
    assert !Legacy(u) ==> Encode(u) >= 101000;
    assert !Legacy(v) ==> Encode(v) >= 101000;
  }

  /** Every encodable version is recovered from its encoding, and every integer that denotes a
      version is the encoding of that version and of no other. */
  lemma DecodeInverts(v: Version, n: int)
    requires Encodable(v)
    ensures Decode(Encode(v)) == Some(v)
    ensures Decode(n).Some? ==> Encodable(Decode(n).value) && Encode(Decode(n).value) == n
  {
    if !Legacy(v) {
      DigitsOf(v.major, v.minor, v.patch);
    }
    if n >= 101000 {
      var w := Version(n / 10000, n / 100 % 100, n % 100);
      assert n / 100 == 100 * (n / 10000) + n / 100 % 100;
      assert Decode(n) == Some(w) && Encode(w) == n;
    }
  }

  lemma DigitsOf(major: nat, minor: nat, patch: nat)
    requires minor < 100 && patch < 100
    ensures
      var n := 10000 * major + 100 * minor + patch;
      n / 10000 == major && n / 100 % 100 == minor && n % 100 == patch
  {
    var n := 10000 * major + 100 * minor + patch;
    assert n / 100 == 100 * major + minor;
  }

  datatype Constant = Constant(version: Version, code: int)

  /** The constant `code` for a version, which must be its encoding. */
  function Mac(major: nat, minor: nat, patch: nat, code: int): Constant
    requires Encodable(Version(major, minor, patch)) && Encode(Version(major, minor, patch)) == code
  {
    Constant(Version(major, minor, patch), code)
  }

  /** The __MAC_10_* constants of the header; each follows the encoding. */
  const MAC_10_CONSTANTS: seq<Constant> := [
    Mac(10, 0, 0, 1000), Mac(10, 1, 0, 1010), Mac(10, 2, 0, 1020), Mac(10, 3, 0, 1030), Mac(10, 4, 0, 1040),
    Mac(10, 5, 0, 1050), Mac(10, 6, 0, 1060), Mac(10, 7, 0, 1070), Mac(10, 8, 0, 1080), Mac(10, 9, 0, 1090),
    Mac(10, 10, 0, 101000), Mac(10, 10, 2, 101002), Mac(10, 10, 3, 101003), Mac(10, 11, 0, 101100), Mac(10, 11, 2, 101102),
    Mac(10, 11, 3, 101103), Mac(10, 11, 4, 101104), Mac(10, 12, 0, 101200), Mac(10, 12, 1, 101201), Mac(10, 12, 2, 101202),
    Mac(10, 12, 4, 101204), Mac(10, 13, 0, 101300), Mac(10, 13, 1, 101301), Mac(10, 13, 2, 101302), Mac(10, 13, 4, 101304),
    Mac(10, 14, 0, 101400), Mac(10, 14, 1, 101401), Mac(10, 14, 4, 101404), Mac(10, 14, 5, 101405), Mac(10, 14, 6, 101406),
    Mac(10, 15, 0, 101500), Mac(10, 15, 1, 101501), Mac(10, 15, 4, 101504), Mac(10, 16, 0, 101600)
  ]

  /** The later __MAC_* constants of the header; each follows the encoding. */
  const MAC_LATER_CONSTANTS: seq<Constant> := [
    Mac(11, 0, 0, 110000), Mac(11, 1, 0, 110100), Mac(11, 3, 0, 110300), Mac(11, 4, 0, 110400), Mac(11, 5, 0, 110500),
    Mac(11, 6, 0, 110600), Mac(12, 0, 0, 120000), Mac(12, 1, 0, 120100), Mac(12, 2, 0, 120200), Mac(12, 3, 0, 120300),
    Mac(12, 4, 0, 120400), Mac(12, 5, 0, 120500), Mac(12, 6, 0, 120600), Mac(12, 7, 0, 120700), Mac(13, 0, 0, 130000),
    Mac(13, 1, 0, 130100), Mac(13, 2, 0, 130200), Mac(13, 3, 0, 130300), Mac(13, 4, 0, 130400), Mac(13, 5, 0, 130500),
    Mac(13, 6, 0, 130600), Mac(14, 0, 0, 140000), Mac(14, 1, 0, 140100), Mac(14, 2, 0, 140200), Mac(14, 3, 0, 140300),
    Mac(14, 4, 0, 140400), Mac(14, 5, 0, 140500), Mac(15, 0, 0, 150000), Mac(15, 1, 0, 150100), Mac(15, 2, 0, 150200)
  ]
}
