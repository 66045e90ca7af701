/**
 * The extension decoder of the Client Hello walk (RFC 8446 section 4.2):
 * it names the extension type and gives a structured body to
 * supported_groups, signature_algorithms, supported_versions and key_share;
 * any other extension is shown as its raw data octets.
 */
module Extensions {

  import opened Bytes
  import opened Tables
  import opened Versions
  import opened NamedLists

  datatype ExtensionBody =
    | ItemList(kind: ListKind, octetLength: nat, codes: seq<nat>)
    | KeyShareEntry(shareLength: nat, group: nat, keyLength: nat, keyOctets: seq<Byte>)
    | OpaqueData(octets: seq<Byte>)

  /**
   * What the decoder shows for one extension: the type code, the declared
   * length, where its data starts in the message, and the decoded body.
   * The title printed above it is the text of the extension type table's
   * row for the code, Title(r).
   */
  datatype ExtensionReport = ExtensionReport(extType: nat, length: nat, offset: nat, body: ExtensionBody)

  /** The extension type table row whose text heads the extension's print-out. */
  function Title(r: ExtensionReport): ExtensionTypeEntry
  {
    LookupExtensionType(r.extType)
  }

  /** The octets the decoder reads for one extension lie inside the buffer. */
  ghost predicate ExtensionReadable(extType: nat, length: nat, msg: seq<Byte>, at: nat)
  {
    if extType == ExtSupportedGroups || extType == ExtSignatureAlgorithms then
      at + 2 <= |msg| && at + 2 + 2 * (Be16(msg, at) / 2) <= |msg|
    else if extType == ExtSupportedVersions then
      at + 1 <= |msg| && at + 1 + 2 * (msg[at] / 2) <= |msg|
    else if extType == ExtKeyShare then
      at + 6 + length <= |msg|
    else
      length > 0 ==> at + length <= |msg|
  }

  /**
   * `r` is what the decoder shows for the extension of type `extType` and
   * declared length `length` whose data starts at `at`:
   * - supported_groups and signature_algorithms: a 2-octet octet length,
   *   then octet-length / 2 (rounded down) named codes;
   * - supported_versions: a 1-octet octet length, then octet-length / 2
   *   named version pairs;
   * - key_share: share length, group and key length (2 octets each), then
   *   `length` key octets starting 6 octets into the data;
   * - anything else: exactly the `length` data octets.
   */
  ghost predicate ExtensionDescribes(r: ExtensionReport, extType: nat, length: nat, msg: seq<Byte>, at: nat)
    requires ExtensionReadable(extType, length, msg, at)
  {
    && r.extType == extType
    && r.length == length
    && r.offset == at
    && if extType == ExtSupportedGroups || extType == ExtSignatureAlgorithms then
         var octets := Be16(msg, at);
         && r.body.ItemList? && r.body.kind == (if extType == ExtSupportedGroups then Groups else Algorithms) && r.body.octetLength == octets
         && |r.body.codes| == octets / 2
         && CodesAt(r.body.codes, msg, at + 2)
       else if extType == ExtSupportedVersions then
         && r.body.ItemList? && r.body.kind == SupportedVersions && r.body.octetLength == msg[at]
         && |r.body.codes| == msg[at] / 2
         && CodesAt(r.body.codes, msg, at + 1)
       else if extType == ExtKeyShare then
         && r.body.KeyShareEntry?
         && r.body.shareLength == Be16(msg, at)
         && r.body.group == Be16(msg, at + 2)
         && r.body.keyLength == Be16(msg, at + 4)
         && |r.body.keyOctets| == length && OctetsAt(r.body.keyOctets, msg, at + 6)
       else
         && r.body.OpaqueData?
         && |r.body.octets| == length && (length > 0 ==> OctetsAt(r.body.octets, msg, at))
  }

  /** The octet-by-octet hex print of `count` octets from `from`, as the octets shown. */
  method DumpOctets(msg: seq<Byte>, from: nat, count: nat) returns (octets: seq<Byte>)
    requires from + count <= |msg|
    ensures |octets| == count && OctetsAt(octets, msg, from)
  {
    octets := [];
    for k := 0 to count
      invariant |octets| == k && OctetsAt(octets, msg, from)
    {
      octets := octets + [msg[from + k]];
    }
  }

  /** Decodes the extension of type `extType` and length `length` whose data starts at `at`. */
  method DecodeExtension(extType: nat, length: nat, msg: seq<Byte>, at: nat) returns (report: ExtensionReport)
    requires ExtensionReadable(extType, length, msg, at)
    ensures ExtensionDescribes(report, extType, length, msg, at)
  {
    var body;
    if extType == ExtSupportedGroups || extType == ExtSignatureAlgorithms {
      var octets := Be16(msg, at);
      var kind := if extType == ExtSupportedGroups then Groups else Algorithms;
      var codes := ReadList(msg, at + 2, octets / 2);
      body := ItemList(kind, octets, codes);
    } else if extType == ExtSupportedVersions {
      var octets := msg[at];
      var codes := ReadList(msg, at + 1, octets / 2);
      body := ItemList(SupportedVersions, octets, codes);
    } else if extType == ExtKeyShare {
      var shareLength := Be16(msg, at);
      var group := Be16(msg, at + 2);
      var keyLength := Be16(msg, at + 4);
      var key := DumpOctets(msg, at + 6, length);
      body := KeyShareEntry(shareLength, group, keyLength, key);
    } else {
      var data := [];
      if length > 0 {
        data := DumpOctets(msg, at, length);
      }
      body := OpaqueData(data);
    }
    report := ExtensionReport(extType, length, at, body);
  }
}
