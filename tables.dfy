/**
 * The decoder's five code-to-name tables (extension types, alert
 * descriptions, cipher suites, signature algorithms, named groups) and the
 * linear scans over them. Every scan walks the rows in declaration order and
 * stops at the first row whose value is the code looked up or at the
 * terminating "undefined" row, so a lookup never fails.
 *
 * The numeric values of the enumerators live in a header that is not part of
 * this model; the values below are the IANA code points (RFC 8446 sections
 * 4.2 and 6, RFC 8701 for GREASE) and the values written beside the rows.
 */
module Tables {

  import opened Wrappers

  /** A row of the extension type table: value, enumerator name, description. */
  datatype ExtensionTypeEntry = ExtensionTypeEntry(value: nat, name: string, text: string)

  /** A row of the alert description table: value, enumerator name, description. */
  datatype AlertEntry = AlertEntry(value: nat, name: string, text: string)

  /** A row of the cipher suite table. */
  datatype CipherSuiteEntry = CipherSuiteEntry(value: nat, name: string, supported: bool)

  /** A row of the signature algorithm table. */
  datatype SignatureAlgorithmEntry = SignatureAlgorithmEntry(value: nat, name: string, supported: bool)

  /** A row of the named group table: the logged name and the name an interoperating peer expects. */
  datatype NamedGroupEntry = NamedGroupEntry(value: nat, loggingName: string, expectedName: string, supported: bool)

  /** Value of TLS_ET_UNDEFINED_EXTENSION_TYPE, the last row of the extension type table. */
  const ExtensionTypeUndefined: nat := 0xFFFF
  /** Value of TLS_AD_UNKNOWN, the last row of the alert table. */
  const AlertUnknown: nat := 255
  /** Value of TLS_CIPHER_SUITE_UNDEFINED. */
  const CipherSuiteUndefined: nat := 0xFFFF
  /** Value of TLS_SA_UNDEFINED. */
  const SignatureAlgorithmUndefined: nat := 0xFFFF
  /** Value of TLS_NG_UNDEFINED. */
  const NamedGroupUndefined: nat := 0xFFFF

  /** Extension type codes the extension decoder gives a structured body. */
  const ExtSupportedGroups: nat := 10
  const ExtSignatureAlgorithms: nat := 13
  const ExtSupportedVersions: nat := 43
  const ExtKeyShare: nat := 51

  /**
   * The extension type table in source order. It is written as two displays
   * (the registered types, then the GREASE values and the trailer) only to
   * keep each display short enough for the verifier to index.
   */
  const ExtensionTypeTable: seq<ExtensionTypeEntry> := RegisteredExtensionTypes + ReservedExtensionTypes

  const RegisteredExtensionTypes: seq<ExtensionTypeEntry> := [
    ExtensionTypeEntry(0x0000, "TLS_ET_SERVER_NAME", "Server name Indicator"),
    ExtensionTypeEntry(0x0001, "TLS_ET_MAX_FRAGMENT_LENGTH", "Max Fragment Length"),
    ExtensionTypeEntry(0x0002, "TLS_ET_CLIENT_CERTIFICATE_URL", "Client Certificate URL"),
    ExtensionTypeEntry(0x0003, "TLS_ET_TRUSTED_CA_KEYS", "Trusted Certiciate Authority Keys"),
    ExtensionTypeEntry(0x0004, "TLS_ET_TRUNCATED_HMAC", "Truncated HMAC"),
    ExtensionTypeEntry(0x0005, "TLS_ET_STATUS_REQUEST", "Status Request"),
    ExtensionTypeEntry(0x0006, "TLS_ET_USER_MAPPING", "User mapping"),
    ExtensionTypeEntry(0x0007, "TLS_ET_CLIENT_AUTHZ", "Client Authorisation"),
    ExtensionTypeEntry(0x0008, "TLS_ET_SERVER_AUTHZ", "Server Authorisation"),
    ExtensionTypeEntry(0x0009, "TLS_ET_CERT_TYPE", "Certificate Type"),
    ExtensionTypeEntry(0x000A, "TLS_ET_SUPPORTED_GROUPS", "Supported Groups"),
    ExtensionTypeEntry(0x000B, "TLS_ET_EC_POINT_FORMATS", "Eliptic Curve Point Formats"),
    ExtensionTypeEntry(0x000C, "TLS_ET_SRP", "Secure Remote Password"),
    ExtensionTypeEntry(0x000D, "TLS_ET_SIGNATURE_ALGORITHMS", "Signature Algorithms"),
    ExtensionTypeEntry(0x000E, "TLS_ET_USE_SRTP", "Use Secure RTP"),
    ExtensionTypeEntry(0x000F, "TLS_ET_HEARTBEAT", "Heartbeat"),
    ExtensionTypeEntry(0x0010, "TLS_ET_APPLICATION_LAYER_PROTOCOL_NEGOTIATION", "Application Layer Protocol Negotiation"),
    ExtensionTypeEntry(0x0011, "TLS_ET_STATUS_REQUEST_V2", "Status Request V2"),
    ExtensionTypeEntry(0x0012, "TLS_ET_SIGNED_CERTIFICATE_TIMESTAMP", "Signed Certificate Timestamp"),
    ExtensionTypeEntry(0x0013, "TLS_ET_CLIENT_CERTIFICATE_TYPE", "Client Certificate Type"),
    ExtensionTypeEntry(0x0014, "TLS_ET_SERVER_CERTIFICATE_TYPE", "Server Certificate Type"),
    ExtensionTypeEntry(0x0015, "TLS_ET_PADDING", "Padding"),
    ExtensionTypeEntry(0x0016, "TLS_ET_ENCRYPT_THEN_MAC", "Encrypt The MAC"),
    ExtensionTypeEntry(0x0017, "TLS_ET_EXTENDED_MASTER_SECRET", "Extended Master Secret"),
    ExtensionTypeEntry(0x0018, "TLS_ET_TOKEN_BINDING", "Token Binding"),
    ExtensionTypeEntry(0x0019, "TLS_ET_CACHED_INFO", "Cached Information"),
    ExtensionTypeEntry(0x001A, "TLS_ET_QUIC_TRANSPORT_PARAMETERS", "QUIC Transport Parameters (new)"),
    ExtensionTypeEntry(0x001B, "TLS_ET_COMPRESS_CERTIFICATE", "Compress Certificate"),
    ExtensionTypeEntry(0x001C, "TLS_ET_RECORD_SIZE_LIMIT", "Record Size Limit"),
    ExtensionTypeEntry(0x0023, "TLS_ET_SESSIONTICKET", "Session Ticket"),
    ExtensionTypeEntry(0x0033, "TLS_ET_KEY_SHARE", "Key Share"),
    ExtensionTypeEntry(0x0029, "TLS_ET_PRE_SHARED_KEY", "Pre-Shared Key"),
    ExtensionTypeEntry(0x002A, "TLS_ET_EARLY_DATA", "Early Data"),
    ExtensionTypeEntry(0x002B, "TLS_ET_SUPPORTED_VERSIONS", "Supported Versions"),
    ExtensionTypeEntry(0x002C, "TLS_ET_COOKIE", "Cookie"),
    ExtensionTypeEntry(0x002D, "TLS_ET_PSK_KEY_EXCHANGE_MODES", "PSK Key Exchange Modes"),
    ExtensionTypeEntry(0x002F, "TLS_ET_CERTIFICATE_AUTHORITIES", "Certificate Authorities"),
    ExtensionTypeEntry(0x0030, "TLS_ET_OID_FILTERS", "Object ID Filters"),
    ExtensionTypeEntry(0x0031, "TLS_ET_POST_HANDSHAKE_AUTH", "Post Handshake Authentitation"),
    ExtensionTypeEntry(0x0032, "TLS_ET_SIGNATURE_ALGORITHMS_CERT", "Signature Algorithm Certificate"),
    ExtensionTypeEntry(0x0033, "TLS_ET_KEY_SHARE", "Key Share")
  ]

  const ReservedExtensionTypes: seq<ExtensionTypeEntry> := [
    ExtensionTypeEntry(0x0A0A, "TLS_ET_RESERVED_GREASE_0", "GREASE protocol random extension 0"),
    ExtensionTypeEntry(0x1A1A, "TLS_ET_RESERVED_GREASE_1", "GREASE protocol random extension 1"),
    ExtensionTypeEntry(0x2A2A, "TLS_ET_RESERVED_GREASE_2", "GREASE protocol random extension 2"),
    ExtensionTypeEntry(0x3A3A, "TLS_ET_RESERVED_GREASE_3", "GREASE protocol random extension 3"),
    ExtensionTypeEntry(0x4A4A, "TLS_ET_RESERVED_GREASE_4", "GREASE protocol random extension 4"),
    ExtensionTypeEntry(0x5A5A, "TLS_ET_RESERVED_GREASE_5", "GREASE protocol random extension 5"),
    ExtensionTypeEntry(0x6A6A, "TLS_ET_RESERVED_GREASE_6", "GREASE protocol random extension 6"),
    ExtensionTypeEntry(0x7A7A, "TLS_ET_RESERVED_GREASE_7", "GREASE protocol random extension 7"),
    ExtensionTypeEntry(0x8A8A, "TLS_ET_RESERVED_GREASE_8", "GREASE protocol random extension 8"),
    ExtensionTypeEntry(0x9A9A, "TLS_ET_RESERVED_GREASE_9", "GREASE protocol random extension 9"),
    ExtensionTypeEntry(0xAAAA, "TLS_ET_RESERVED_GREASE_A", "GREASE protocol random extension A"),
    ExtensionTypeEntry(0xBABA, "TLS_ET_RESERVED_GREASE_B", "GREASE protocol random extension B"),
    ExtensionTypeEntry(0xCACA, "TLS_ET_RESERVED_GREASE_C", "GREASE protocol random extension C"),
    ExtensionTypeEntry(0xDADA, "TLS_ET_RESERVED_GREASE_D", "GREASE protocol random extension D"),
    ExtensionTypeEntry(0xEAEA, "TLS_ET_RESERVED_GREASE_E", "GREASE protocol random extension E"),
    ExtensionTypeEntry(0xFAFA, "TLS_ET_RESERVED_GREASE_F", "GREASE protocol random extension F"),
    ExtensionTypeEntry(0xFF01, "TLS_ET_RENEGOTIATION_INFO", "Renegotioation Information"),
    ExtensionTypeEntry(0xFFFF, "TLS_ET_UNDEFINED_EXTENSION_TYPE", "Undefined Extension Type")
  ]

  const AlertDescriptionTable: seq<AlertEntry> := [
    AlertEntry(0, "TLS_AD_CLOSE_NOTIFY", "Close Notify"),
    AlertEntry(10, "TLS_AD_UNEXPECTED_MESSAGE", "Unexpected Message"),
    AlertEntry(20, "TLS_AD_BAD_RECORD_MAC", "Bad Record MAC"),
    AlertEntry(21, "TLS_AD_DECRYPTION_FAILED_RESERVED", "Decryption Failed Reservered"),
    AlertEntry(22, "TLS_AD_RECORD_OVERFLOW", "Record Overflow"),
    AlertEntry(30, "TLS_AD_DECOMPRESSION_FAILURE", "Decompression Failure"),
    AlertEntry(40, "TLS_AD_HANDSHAKE_FAILURE", "Handshake Failure"),
    AlertEntry(41, "TLS_AD_NO_CERTIFICATE_RESERVED", "No Certificate Reserved"),
    AlertEntry(42, "TLS_AD_BAD_CERTIFICATE", "Bad Certificate"),
    AlertEntry(43, "TLS_AD_UNSUPPORTED_CERTIFICATE", "Unsupported Certificate"),
    AlertEntry(44, "TLS_AD_CERTIFICATE_REVOKED", "Certificate Revoked"),
    AlertEntry(45, "TLS_AD_CERTIFICATE_EXPIRED", "Certificate Expired"),
    AlertEntry(46, "TLS_AD_CERTIFICATE_UNKNOWN", "Certificate Unknown"),
    AlertEntry(47, "TLS_AD_ILLEGAL_PARAMETER", "Illegal Parameter"),
    AlertEntry(48, "TLS_AD_UNKNOWN_CA", "Unknown Certificate Authority"),
    AlertEntry(49, "TLS_AD_ACCESS_DENIED", "Access Denied"),
    AlertEntry(50, "TLS_AD_DECODE_ERROR", "Decode Error"),
    AlertEntry(51, "TLS_AD_DECRYPT_ERROR", "Decryption Error"),
    AlertEntry(60, "TLS_AD_EXPORT_RESTRICTION_RESERVED", "Export Restriction Reserved"),
    AlertEntry(70, "TLS_AD_PROTOCOL_VERSION", "Protocol Version"),
    AlertEntry(71, "TLS_AD_INSUFFICIENT_SECURITY", "Insufficient Security"),
    AlertEntry(80, "TLS_AD_INTERNAL_ERROR", "Internal Error"),
    AlertEntry(90, "TLS_AD_USER_CANCELED", "User Cancelled"),
    AlertEntry(100, "TLS_AD_NO_RENEGOTIATION", "No Renegotiation"),
    AlertEntry(110, "TLS_AD_UNSUPPORTED_EXTENSION", "Unsupported Extension"),
    AlertEntry(111, "TLS_AD_CERTIFICATE_UNOBTAINABLE", "Certificate Unobtainable"),
    AlertEntry(112, "TLS_AD_UNRECOGNIZED_NAME", "Unrecognized Name"),
    AlertEntry(113, "TLS_AD_BAD_CERTIFICATE_STATUS_RESPONSE", "Bad Certificate Status Response"),
    AlertEntry(114, "TLS_AD_BAD_CERTIFICATE_HASH_VALUE", "Bad Certificate Hash Value"),
    AlertEntry(255, "TLS_AD_UNKNOWN", "Unknown Alert Code")
  ]

  const CipherSuiteTable: seq<CipherSuiteEntry> := [
    CipherSuiteEntry(0x0005, "TLS_RSA_WITH_RC4_128_SHA", false),
    CipherSuiteEntry(0x000A, "TLS_RSA_WITH_3DES_EDE_CBC_SHA", false),
    CipherSuiteEntry(0x002F, "TLS_RSA_WITH_AES_128_CBC_SHA", false),
    CipherSuiteEntry(0x0030, "TLS_DH_DSS_WITH_AES_128_CBC_SHA", false),
    CipherSuiteEntry(0x0031, "TLS_DH_RSA_WITH_AES_128_CBC_SHA", false),
    CipherSuiteEntry(0x0032, "TLS_DHE_DSS_WITH_AES_128_CBC_SHA", false),
    CipherSuiteEntry(0x0033, "TLS_DHE_RSA_WITH_AES_128_CBC_SHA", false),
    CipherSuiteEntry(0x0034, "TLS_DH_ANON_WITH_AES_128_CBC_SHA", false),
    CipherSuiteEntry(0x0035, "TLS_RSA_WITH_AES_256_CBC_SHA", false),
    CipherSuiteEntry(0x0036, "TLS_DH_DSS_WITH_AES_256_CBC_SHA", false),
    CipherSuiteEntry(0x0037, "TLS_DH_RSA_WITH_AES_256_CBC_SHA", false),
    CipherSuiteEntry(0x0038, "TLS_DHE_DSS_WITH_AES_256_CBC_SHA", false),
    CipherSuiteEntry(0x0039, "TLS_DHE_RSA_WITH_AES_256_CBC_SHA", false),
    CipherSuiteEntry(0x003A, "TLS_DH_ANON_WITH_AES_256_CBC_SHA", false),
    CipherSuiteEntry(0x003C, "TLS_RSA_WITH_AES_128_CBC_SHA256", false),
    CipherSuiteEntry(0x009C, "TLS_RSA_WITH_AES_128_GCM_SHA256", false),
    CipherSuiteEntry(0x009D, "TLS_RSA_WITH_AES_256_GCM_SHA384", false),
    CipherSuiteEntry(0x00A2, "TLS_DHE_DSS_WITH_AES_128_GCM_SHA256", true),
    CipherSuiteEntry(0x009E, "TLS_DHE_RSA_WITH_AES_128_GCM_SHA256", false),
    CipherSuiteEntry(0x009F, "TLS_DHE_RSA_WITH_AES_256_GCM_SHA384", true),
    CipherSuiteEntry(0x00FF, "TLS_EMPTY_RENEGOTIATION_INFO_SCSV", false),
    CipherSuiteEntry(0x1301, "TLS_AES_128_GCM_SHA256", true),
    CipherSuiteEntry(0x1302, "TLS_AES_256_GCM_SHA384", true),
    CipherSuiteEntry(0x1303, "TLS_CHACHA20_POLY1305_SHA256", true),
    CipherSuiteEntry(0x1304, "TLS_AES_128_CCM_SHA256", false),
    CipherSuiteEntry(0x1305, "TLS_AES_128_CCM_8_SHA256", false),
    CipherSuiteEntry(0x6A6A, "Reserved (GREASE)", false),
    CipherSuiteEntry(0xC007, "TLS_ECDHE_ECDSA_WITH_RC4_128_SHA", false),
    CipherSuiteEntry(0xC009, "TLS_ECDHE_ECDSA_WITH_AES_128_CBC_SHA", false),
    CipherSuiteEntry(0xC00A, "TLS_ECDHE_ECDSA_WITH_AES_256_CBC_SHA", false),
    CipherSuiteEntry(0xC011, "TLS_ECDHE_RSA_WITH_RC4_128_SHA", false),
    CipherSuiteEntry(0xC012, "TLS_ECDHE_RSA_WITH_3DES_EDE_CBC_SHA", false),
    CipherSuiteEntry(0xC013, "TLS_ECDHE_RSA_WITH_AES_128_CBC_SHA", false),
    CipherSuiteEntry(0xC014, "TLS_ECDHE_RSA_WITH_AES_256_CBC_SHA", false),
    CipherSuiteEntry(0xC023, "TLS_ECDHE_ECDSA_WITH_AES_128_CBC_SHA256", false),
    CipherSuiteEntry(0xC027, "TLS_ECDHE_RSA_WITH_AES_128_CBC_SHA256", true),
    CipherSuiteEntry(0xC02F, "TLS_ECDHE_RSA_WITH_AES_128_GCM_SHA256", false),
    CipherSuiteEntry(0xC02B, "TLS_ECDHE_ECDSA_WITH_AES_128_GCM_SHA256", true),
    CipherSuiteEntry(0xC030, "TLS_ECDHE_RSA_WITH_AES_256_GCM_SHA384", true),
    CipherSuiteEntry(0xC02C, "TLS_ECDHE_ECDSA_WITH_AES_256_GCM_SHA384", true),
    CipherSuiteEntry(0xCCA8, "TLS_ECDHE_RSA_WITH_CHACHA20_POLY1305", false),
    CipherSuiteEntry(0xCCA9, "TLS_ECDHE_ECDSA_WITH_CHACHA20_POLY1305", false),
    CipherSuiteEntry(0xCCAA, "TLS_DHE_RSA_WITH_CHACHA20_POLY1305", false),
    CipherSuiteEntry(0xFFFF, "TLS_CIPHER_SUITE_UNDEFINED", false)
  ]

  const SignatureAlgorithmTable: seq<SignatureAlgorithmEntry> := [
    SignatureAlgorithmEntry(0x0201, "TLS_SA_RSA_PKCS1_SHA1", false),
    SignatureAlgorithmEntry(0x0202, "TLS_SA_DSA_SHA1", false),
    SignatureAlgorithmEntry(0x0203, "TLS_SA_ECDSA_SHA1", false),
    SignatureAlgorithmEntry(0x0302, "TLS_SA_DSA_SHA224", false),
    SignatureAlgorithmEntry(0x0401, "TLS_SA_RSA_PKCS1_SHA256", false),
    SignatureAlgorithmEntry(0x0402, "TLS_SA_DSA_SHA256", false),
    SignatureAlgorithmEntry(0x0403, "TLS_SA_ECDSA_SECP256R1_SHA256", true),
    SignatureAlgorithmEntry(0x0501, "TLS_SA_RSA_PKCS1_SHA384", false),
    SignatureAlgorithmEntry(0x0502, "TLS_SA_DSA_SHA384", false),
    SignatureAlgorithmEntry(0x0503, "TLS_SA_ECDSA_SECP384R1_SHA384", true),
    SignatureAlgorithmEntry(0x0601, "TLS_SA_RSA_PKCS1_SHA512", false),
    SignatureAlgorithmEntry(0x0602, "TLS_SA_DSA_SHA512", false),
    SignatureAlgorithmEntry(0x0603, "TLS_SA_ECDSA_SECP521R1_SHA512", true),
    SignatureAlgorithmEntry(0x0804, "TLS_SA_RSA_PSS_SHA256", false),
    SignatureAlgorithmEntry(0x0805, "TLS_SA_RSA_PSS_SHA384", false),
    SignatureAlgorithmEntry(0x0806, "TLS_SA_RSA_PSS_SHA512", false),
    SignatureAlgorithmEntry(0x0807, "TLS_SA_ED25519", false),
    SignatureAlgorithmEntry(0x0808, "TLS_SA_ED448", false),
    SignatureAlgorithmEntry(0xFFFF, "TLS_SA_UNDEFINED", false)
  ]

  const NamedGroupTable: seq<NamedGroupEntry> := [
    NamedGroupEntry(0x0017, "TLS_NG_SECP256R1", "P-256", true),
    NamedGroupEntry(0x0018, "TLS_NG_SECP384R1", "P-384", true),
    NamedGroupEntry(0x0019, "TLS_NG_SECP521R1", "P-521", true),
    NamedGroupEntry(0x001D, "TLS_NG_X25519", "x25519", true),
    NamedGroupEntry(0x001E, "TLS_NG_X448", "x448", false),
    NamedGroupEntry(0x0100, "TLS_NG_FFDHE2048", "ffdhe2048", true),
    NamedGroupEntry(0x0101, "TLS_NG_FFDHE3072", "ffdhe3072", true),
    NamedGroupEntry(0x0102, "TLS_NG_FFDHE4096", "ffdhe4096", true),
    NamedGroupEntry(0x0103, "TLS_NG_FFDHE6144", "ffdhe6144", false),
    NamedGroupEntry(0x0104, "TLS_NG_FFDHE8192", "ffdhe8192", false),
    NamedGroupEntry(0xFFFF, "TLS_NG_UNDEFINED", "unknown", false)
  ]

  /**
   * The scan every lookup runs: from row `i` on, the index of the first value
   * that is either the code or the sentinel.
   */
  function ScanFrom(values: seq<nat>, sentinel: nat, code: nat, i: nat): (k: nat)
    requires exists j :: i <= j < |values| && values[j] == sentinel
    ensures i <= k < |values|
    ensures values[k] == code || values[k] == sentinel
    ensures forall j :: i <= j < k ==> values[j] != code && values[j] != sentinel
    decreases |values| - i
  {
    if values[i] == sentinel || values[i] == code then i
    else ScanFrom(values, sentinel, code, i + 1)
  }

  /** The column of values a table scan compares, one per row. */
  function Codes<Row>(rows: seq<Row>, value: Row -> nat): (codes: seq<nat>)
    ensures |codes| == |rows|
    ensures forall i :: 0 <= i < |codes| ==> codes[i] == value(rows[i])
  {
    seq(|rows|, i requires 0 <= i < |rows| => value(rows[i]))
  }

  /** The terminating value occurs in the extension type table only as its last row. */
  lemma ExtensionTypeTerminatorLast()
    ensures ExtensionTypeTable[|ExtensionTypeTable| - 1].value == ExtensionTypeUndefined
    ensures forall j :: 0 <= j < |ExtensionTypeTable| - 1 ==> ExtensionTypeTable[j].value != ExtensionTypeUndefined
  {
    forall j | 0 <= j < |ExtensionTypeTable| - 1
      ensures ExtensionTypeTable[j].value != ExtensionTypeUndefined
    {
      if j < 10 {
      } else if j < 20 {
      } else if j < 30 {
      } else if j < 40 {
      } else if j < 50 {
      } else {
      }
    }
  }

  /** The row the extension type scan stops at. */
  function ExtensionTypeIndex(code: nat): (k: nat)
    ensures k < |ExtensionTypeTable|
  {
    ExtensionTypeTerminatorLast();
    ScanFrom(Codes(ExtensionTypeTable, (row: ExtensionTypeEntry) => row.value), ExtensionTypeUndefined, code, 0)
  }

  /** The scan stops at the first row holding the code, or else at the terminating row. */
  lemma ExtensionTypeIndexIsFirstMatch(code: nat)
    ensures var k := ExtensionTypeIndex(code);
      && (ExtensionTypeTable[k].value == code || k == |ExtensionTypeTable| - 1)
      && forall j :: 0 <= j < k ==> ExtensionTypeTable[j].value != code
  {
    ExtensionTypeTerminatorLast();
  }

  /** The terminating value occurs in the alert description table only as its last row. */
  lemma AlertTerminatorLast()
    ensures AlertDescriptionTable[|AlertDescriptionTable| - 1].value == AlertUnknown
    ensures forall j :: 0 <= j < |AlertDescriptionTable| - 1 ==> AlertDescriptionTable[j].value != AlertUnknown
  {
  }

  /** The row the alert description scan stops at. */
  function AlertIndex(code: nat): (k: nat)
    ensures k < |AlertDescriptionTable|
  {
    AlertTerminatorLast();
    ScanFrom(Codes(AlertDescriptionTable, (row: AlertEntry) => row.value), AlertUnknown, code, 0)
  }

  /** The scan stops at the first row holding the code, or else at the terminating row. */
  lemma AlertIndexIsFirstMatch(code: nat)
    ensures var k := AlertIndex(code);
      && (AlertDescriptionTable[k].value == code || k == |AlertDescriptionTable| - 1)
      && forall j :: 0 <= j < k ==> AlertDescriptionTable[j].value != code
  {
    AlertTerminatorLast();
  }

  /** The terminating value occurs in the cipher suite table only as its last row. */
  lemma CipherSuiteTerminatorLast()
    ensures CipherSuiteTable[|CipherSuiteTable| - 1].value == CipherSuiteUndefined
    ensures forall j :: 0 <= j < |CipherSuiteTable| - 1 ==> CipherSuiteTable[j].value != CipherSuiteUndefined
  {
  }

  /** The row the cipher suite scan stops at. */
  function CipherSuiteIndex(code: nat): (k: nat)
    ensures k < |CipherSuiteTable|
  {
    CipherSuiteTerminatorLast();
    ScanFrom(Codes(CipherSuiteTable, (row: CipherSuiteEntry) => row.value), CipherSuiteUndefined, code, 0)
  }

  /** The scan stops at the first row holding the code, or else at the terminating row. */
  lemma CipherSuiteIndexIsFirstMatch(code: nat)
    ensures var k := CipherSuiteIndex(code);
      && (CipherSuiteTable[k].value == code || k == |CipherSuiteTable| - 1)
      && forall j :: 0 <= j < k ==> CipherSuiteTable[j].value != code
  {
    CipherSuiteTerminatorLast();
  }

  /** The terminating value occurs in the signature algorithm table only as its last row. */
  lemma SignatureAlgorithmTerminatorLast()
    ensures SignatureAlgorithmTable[|SignatureAlgorithmTable| - 1].value == SignatureAlgorithmUndefined
    ensures forall j :: 0 <= j < |SignatureAlgorithmTable| - 1 ==> SignatureAlgorithmTable[j].value != SignatureAlgorithmUndefined
  {
  }

  /** The row the signature algorithm scan stops at. */
  function SignatureAlgorithmIndex(code: nat): (k: nat)
    ensures k < |SignatureAlgorithmTable|
  {
    SignatureAlgorithmTerminatorLast();
    ScanFrom(Codes(SignatureAlgorithmTable, (row: SignatureAlgorithmEntry) => row.value), SignatureAlgorithmUndefined, code, 0)
  }

  /** The scan stops at the first row holding the code, or else at the terminating row. */
  lemma SignatureAlgorithmIndexIsFirstMatch(code: nat)
    ensures var k := SignatureAlgorithmIndex(code);
      && (SignatureAlgorithmTable[k].value == code || k == |SignatureAlgorithmTable| - 1)
      && forall j :: 0 <= j < k ==> SignatureAlgorithmTable[j].value != code
  {
    SignatureAlgorithmTerminatorLast();
  }

  /** The terminating value occurs in the named group table only as its last row. */
  lemma NamedGroupTerminatorLast()
    ensures NamedGroupTable[|NamedGroupTable| - 1].value == SignatureAlgorithmUndefined
    ensures forall j :: 0 <= j < |NamedGroupTable| - 1 ==> NamedGroupTable[j].value != SignatureAlgorithmUndefined
  {
  }

  /**
   * The row the named group scan stops at. The scan is terminated by
   * TLS_SA_UNDEFINED, the signature algorithm table's terminator, rather than
   * by TLS_NG_UNDEFINED; the two have the same value, so the scan still ends
   * at the group table's last row.
   */
  function NamedGroupIndex(code: nat): (k: nat)
    ensures k < |NamedGroupTable|
  {
    NamedGroupTerminatorLast();
    ScanFrom(Codes(NamedGroupTable, (row: NamedGroupEntry) => row.value), SignatureAlgorithmUndefined, code, 0)
  }

  /** The scan stops at the first row holding the code, or else at the terminating row. */
  lemma NamedGroupIndexIsFirstMatch(code: nat)
    ensures var k := NamedGroupIndex(code);
      && (NamedGroupTable[k].value == code || k == |NamedGroupTable| - 1)
      && forall j :: 0 <= j < k ==> NamedGroupTable[j].value != code
  {
    NamedGroupTerminatorLast();
  }

  /** The row whose description the extension decoder prints for a type code. */
  function LookupExtensionType(code: nat): ExtensionTypeEntry
  {
    ExtensionTypeTable[ExtensionTypeIndex(code)]
  }

  /**
   * The extension type row is the row of the code when the table lists it,
   * and the undefined row otherwise.
   */
  lemma LookupExtensionTypeFinds(code: nat)
    ensures var r := LookupExtensionType(code);
      && r in ExtensionTypeTable
      && (r.value == code <==> exists i :: 0 <= i < |ExtensionTypeTable| && ExtensionTypeTable[i].value == code)
      && (r.value != code ==> r.text == "Undefined Extension Type")
  {
    ExtensionTypeIndexIsFirstMatch(code);
    ExtensionTypeTerminatorLast();
  }

  /**
   * The alert row whose description the record decoder prints, if any. The
   * scan stops at TLS_AD_UNKNOWN before comparing it, so that row is never
   * reported, and nothing is reported for a code the table does not list.
   */
  function FindAlert(code: nat): Option<AlertEntry>
  {
    var k := AlertIndex(code);
    if k < |AlertDescriptionTable| - 1 then Some(AlertDescriptionTable[k]) else None
  }

  lemma FindAlertFinds(code: nat)
    ensures var r := FindAlert(code);
      && (r.Some? <==> code != AlertUnknown && exists i :: 0 <= i < |AlertDescriptionTable| && AlertDescriptionTable[i].value == code)
      && (r.Some? ==> r.value.value == code && r.value in AlertDescriptionTable)
  {
    AlertIndexIsFirstMatch(code);
    AlertTerminatorLast();
  }

  /** The cipher suite row for a code: its name and whether the library supports it. */
  function LookupCipherSuite(code: nat): CipherSuiteEntry
  {
    CipherSuiteTable[CipherSuiteIndex(code)]
  }

  /** The row of the code when the table lists it, else TLS_CIPHER_SUITE_UNDEFINED, unsupported. */
  lemma LookupCipherSuiteFinds(code: nat)
    ensures var r := LookupCipherSuite(code);
      && r in CipherSuiteTable
      && (r.value == code <==> exists i :: 0 <= i < |CipherSuiteTable| && CipherSuiteTable[i].value == code)
      && (r.value != code ==> r.name == "TLS_CIPHER_SUITE_UNDEFINED" && !r.supported)
  {
    CipherSuiteIndexIsFirstMatch(code);
    CipherSuiteTerminatorLast();
  }

  /** The signature algorithm row for a code. */
  function LookupSignatureAlgorithm(code: nat): SignatureAlgorithmEntry
  {
    SignatureAlgorithmTable[SignatureAlgorithmIndex(code)]
  }

  /** The row of the code when the table lists it, else TLS_SA_UNDEFINED, unsupported. */
  lemma LookupSignatureAlgorithmFinds(code: nat)
    ensures var r := LookupSignatureAlgorithm(code);
      && r in SignatureAlgorithmTable
      && (r.value == code <==> exists i :: 0 <= i < |SignatureAlgorithmTable| && SignatureAlgorithmTable[i].value == code)
      && (r.value != code ==> r.name == "TLS_SA_UNDEFINED" && !r.supported)
  {
    SignatureAlgorithmIndexIsFirstMatch(code);
    SignatureAlgorithmTerminatorLast();
  }

  /** The named group row for a code; the decoders print its logging name. */
  function LookupNamedGroup(code: nat): NamedGroupEntry
  {
    NamedGroupTable[NamedGroupIndex(code)]
  }

  /** The row of the code when the table lists it, else TLS_NG_UNDEFINED, unsupported. */
  lemma LookupNamedGroupFinds(code: nat)
    ensures var r := LookupNamedGroup(code);
      && r in NamedGroupTable
      && (r.value == code <==> exists i :: 0 <= i < |NamedGroupTable| && NamedGroupTable[i].value == code)
      && (r.value != code ==> r.loggingName == "TLS_NG_UNDEFINED" && !r.supported)
  {
    NamedGroupIndexIsFirstMatch(code);
    NamedGroupTerminatorLast();
  }

  /** key_share is listed twice in the extension table; the first row (index 30) is the one printed. */
  lemma KeyShareFirstRowWins()
    ensures ExtensionTypeIndex(ExtKeyShare) == 30
    ensures ExtensionTypeTable[40].value == ExtKeyShare
  {
    ExtensionTypeIndexIsFirstMatch(ExtKeyShare);
    assert forall j :: 0 <= j < 30 ==> RegisteredExtensionTypes[j].value != ExtKeyShare;
    assert RegisteredExtensionTypes[30].value == ExtKeyShare;
    assert RegisteredExtensionTypes[40].value == ExtKeyShare;
    assert forall j :: 0 <= j < 41 ==> ExtensionTypeTable[j] == RegisteredExtensionTypes[j];
  }

  /** Looking up TLS_AES_128_GCM_SHA256 (0x1301) finds its row, marked supported. */
  lemma Aes128GcmSupported()
    ensures LookupCipherSuite(0x1301) == CipherSuiteEntry(0x1301, "TLS_AES_128_GCM_SHA256", true)
  {
    assert forall j :: 0 <= j < 21 ==> CipherSuiteTable[j].value != 0x1301;
    CipherSuiteIndexIsFirstMatch(0x1301);
    assert CipherSuiteTable[21] == CipherSuiteEntry(0x1301, "TLS_AES_128_GCM_SHA256", true);
    assert CipherSuiteIndex(0x1301) == 21;
  }
}
