/**
 * The 2-octet code lists of a Client Hello (cipher suites, and the
 * supported_groups, signature_algorithms and supported_versions extension
 * bodies): each entry is read big-endian and printed with the name its
 * table (or the version naming) gives it.
 */
module NamedLists {

  import opened Bytes
  import opened Tables
  import opened Versions

  /** The lists the decoder prints entry by entry, all made of 2-octet codes. */
  datatype ListKind = CipherSuites | Groups | Algorithms | SupportedVersions

  /**
   * The name the decoder prints beside a list entry: the cipher suite or
   * signature algorithm table name, the named group table's logging name,
   * or for a version pair the version naming of its two octets.
   */
  function ItemName(kind: ListKind, code: nat): string
    requires code < 0x1_0000
  {
    match kind
    case CipherSuites => LookupCipherSuite(code).name
    case Groups => LookupNamedGroup(code).loggingName
    case Algorithms => LookupSignatureAlgorithm(code).name
    case SupportedVersions => GetVersionString(code / 256, code % 256)
  }

  /** A version entry is named from its two octets as they appear in the message, high octet first. */
  lemma VersionItemName(msg: seq<Byte>, pos: nat)
    requires pos + 2 <= |msg|
    ensures ItemName(SupportedVersions, Be16(msg, pos)) == GetVersionString(msg[pos], msg[pos + 1])
  {
  }

  /** `codes` are the consecutive 2-octet entries of a list starting at `at`. */
  ghost predicate CodesAt(codes: seq<nat>, msg: seq<Byte>, at: nat)
  {
    && at + 2 * |codes| <= |msg|
    && forall k :: 0 <= k < |codes| ==> codes[k] == Be16(msg, at + 2 * k)
  }

  /**
   * Reads `count` 2-octet entries from `at` on; the decoder prints each
   * with its ItemName as it goes.
   */
  method ReadList(msg: seq<Byte>, at: nat, count: nat) returns (codes: seq<nat>)
    requires at + 2 * count <= |msg|
    ensures |codes| == count
    ensures CodesAt(codes, msg, at)
  {
    codes := [];
    var pos := at;
    for k := 0 to count
      invariant pos == at + 2 * k
      invariant |codes| == k
      invariant CodesAt(codes, msg, at)
    {
      codes := codes + [Be16(msg, pos)];
      pos := pos + 2;
    }
  }
}
