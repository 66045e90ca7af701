/**
 * The protocol-version naming the decoder prints beside every version pair
 * (record headers, hello versions, supported_versions entries).
 */
module Versions {

  import opened Bytes
  import opened Wrappers

  const DraftPrefix: string := "TLS 1.3 Draft "

  /** A decimal digit character for 0..9. */
  function DecimalDigit(d: nat): (c: char)
    requires d < 10
    ensures '0' <= c <= '9' && c as int - '0' as int == d
  {
    "0123456789"[d]
  }

  /**
   * The name of a (major, minor) version pair: SSL v1..v3 for (0, 0..2),
   * TLS 1.0..1.3 for (3, 1..4), "TLS 1.3 Draft N" for the experimental
   * drafts (0x7F, 20..28), "TLS 1.3 unknown draft" for any other 0x7F pair
   * and "unknown" for everything else.
   */
  function GetVersionString(major: Byte, minor: Byte): string
  {
    if major == 0 then
      if minor == 0 then "SSL v1"
      else if minor == 1 then "SSL v2"
      else if minor == 2 then "SSL v3"
      else "unknown"
    else if major == 3 then
      if minor == 1 then "TLS 1.0"
      else if minor == 2 then "TLS 1.1"
      else if minor == 3 then "TLS 1.2"
      else if minor == 4 then "TLS 1.3"
      else "unknown"
    else if major == 0x7F then
      if 20 <= minor <= 28 then DraftPrefix + [DecimalDigit(minor / 10), DecimalDigit(minor % 10)]
      else "TLS 1.3 unknown draft"
    else "unknown"
  }

  /** The version pairs the decoder has a specific name for. */
  predicate NamedVersion(major: Byte, minor: Byte)
  {
    || (major == 0 && minor <= 2)
    || (major == 3 && 1 <= minor <= 4)
    || (major == 0x7F && 20 <= minor <= 28)
  }

  /** Reads a printed version name back into its (major, minor) pair. */
  function VersionOfName(name: string): (v: Option<(Byte, Byte)>)
  {
    if name == "SSL v1" then Some((0, 0))
    else if name == "SSL v2" then Some((0, 1))
    else if name == "SSL v3" then Some((0, 2))
    else if name == "TLS 1.0" then Some((3, 1))
    else if name == "TLS 1.1" then Some((3, 2))
    else if name == "TLS 1.2" then Some((3, 3))
    else if name == "TLS 1.3" then Some((3, 4))
    else if |name| == 16 && name[..14] == DraftPrefix && name[14] == '2' && '0' <= name[15] <= '8' then
      Some((0x7F, 20 + (name[15] as int - '0' as int)))
    else None
  }

  /**
   * Every pair with a specific name is identified by that name, and every
   * other pair gets one of the two catch-all names, which identify nothing.
   */
  lemma {:induction false} VersionNameRoundTrip(major: Byte, minor: Byte)
    ensures NamedVersion(major, minor) ==> VersionOfName(GetVersionString(major, minor)) == Some((major, minor))
    ensures !NamedVersion(major, minor) ==>
      && GetVersionString(major, minor) == (if major == 0x7F then "TLS 1.3 unknown draft" else "unknown")
      && VersionOfName(GetVersionString(major, minor)).None?
  {
    if major == 0x7F && 20 <= minor <= 28 {
      var name := GetVersionString(major, minor);
      assert name[..14] == DraftPrefix;
      assert name[14] == '2' && name[15] == DecimalDigit(minor % 10);
      assert name != "SSL v1" && name != "SSL v2" && name != "SSL v3" by { assert |name| == 16; }
      assert name != "TLS 1.0" && name != "TLS 1.1" && name != "TLS 1.2" && name != "TLS 1.3" by { assert |name| == 16; }
    } else if !NamedVersion(major, minor) {
      var name := GetVersionString(major, minor);
      assert |name| != 16 by {
        assert name == "unknown" || name == "TLS 1.3 unknown draft";
      }
    }
  }
}
