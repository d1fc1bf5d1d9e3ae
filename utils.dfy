/** utils.py: the two header formatters of the three-line format and the partition checksum. */
module Utils {
  import opened Text

  /** get_version_str: the version line, "PAFF <version>" and a line feed. */
  function VersionStr(version: string): string {
    "PAFF " + version + "\n"
  }

  /** get_mode_str: the mode line of the three-line format, with a colon after "mode". */
  function ModeStr(mode: string): string {
    "mode: " + mode + "\n"
  }

  /** A header value survives the round trip when it holds no line feed and ends in a
      non-whitespace character (an empty one would lose the space before it to strip()). */
  predicate PlainValue(s: string) {
    '\n' !in s && |s| > 0 && !IsSpace(s[|s| - 1])
  }

  /** A character of a lower-case hexadecimal digest. */
  predicate IsLowerHex(c: char) {
    ('0' <= c <= '9') || ('a' <= c <= 'f')
  }

  /** The number of hexadecimal digits in an md5 hexdigest (RFC 1321: 128 bits). */
  const DigestWidth: nat := 32

  const DigestModulus: nat := 0x1_0000_0000_0000_0000_0000_0000_0000_0000

  function HexChar(d: nat): (c: char)
    requires d < 16
    ensures IsLowerHex(c)
  {
    if d < 10 then ('0' as int + d) as char else ('a' as int + d - 10) as char
  }

  /** 16 to the power `k`. */
  function Pow16(k: nat): (p: nat)
    ensures p > 0
  {
    if k == 0 then 1 else 16 * Pow16(k - 1)
  }

  /** A 128-bit value computed from every character of the text, in order. */
  function Fold(s: string): (h: nat)
    ensures h < DigestModulus
  {
    if s == [] then 0 else (Fold(s[..|s| - 1]) * 31 + s[|s| - 1] as int) % DigestModulus
  }

  /** calculate_checksum: a digest of the partition text alone, written as 32 lower-case
      hexadecimal digits like an md5 hexdigest. The model never looks inside the digest: it
      relies only on its shape, stated here. */
  function Checksum(partition: string): (digest: string)
    ensures |digest| == DigestWidth
    ensures forall i :: 0 <= i < |digest| ==> IsLowerHex(digest[i])
  {
    var n := Fold(partition);
    seq(DigestWidth, i requires 0 <= i < DigestWidth => HexChar((n / Pow16(i)) % 16))
  }

  /** A digest is one whitespace-free token, so it survives split() unchanged. */
  lemma {:induction false} ChecksumIsWord(partition: string)
    ensures IsWord(Checksum(partition))
  {
    var d := Checksum(partition);
    assert forall i :: 0 <= i < |d| ==> IsLowerHex(d[i]) && !IsSpace(d[i]);
  }

  /** Both formatters end in exactly one line feed, so stripping a formatted line gives the
      prefix and the value back when the value is non-empty and does not end in whitespace. */
  lemma {:induction false} StripVersionStr(version: string)
    requires |version| > 0 && !IsSpace(version[|version| - 1])
    ensures Strip(VersionStr(version)) == "PAFF " + version
  {
    StripLine("PAFF " + version, '\n');
  }

  lemma {:induction false} StripModeStr(mode: string)
    requires |mode| > 0 && !IsSpace(mode[|mode| - 1])
    ensures Strip(ModeStr(mode)) == "mode: " + mode
  {
    StripLine("mode: " + mode, '\n');
  }
}
