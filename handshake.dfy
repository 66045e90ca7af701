/**
 * The handshake message decoder (RFC 8446 section 4): a 1-octet message
 * type and a 3-octet length, then a body that is decoded field by field for
 * Client Hello, Server Hello and Certificate messages and only named for the
 * other types. Offsets are counted from the message's type octet:
 * header 0..3, hello version 4..5, Unix time 6..9, random octets 10..37,
 * session identifier length 38, session identifier from 39.
 */
module Handshake {

  import opened Bytes
  import opened Wrappers
  import opened Versions
  import opened NamedLists
  import opened Extensions

  const HelloRequest: Byte := 0
  const ClientHello: Byte := 1
  const ServerHello: Byte := 2
  const NewSessionTicket: Byte := 4
  const EndOfEarlyData: Byte := 5
  const HelloRetryRequest: Byte := 6
  const EncryptedExtensions: Byte := 8
  const Certificate: Byte := 11
  const ServerKeyExchange: Byte := 12
  const CertificateRequest: Byte := 13
  const ServerHelloDone: Byte := 14
  const CertificateVerify: Byte := 15
  const ClientKeyExchange: Byte := 16
  const Finished: Byte := 20
  const KeyUpdate: Byte := 24
  const MessageHash: Byte := 254

  /** Octets of a Hello random after its 4-octet Unix time. */
  const RandomBytesLength: nat := 28
  /** Offset of the session identifier length octet. */
  const SessionIdLengthAt: nat := 38

  function Min(a: nat, b: nat): nat
  {
    if a <= b then a else b
  }

  /** A version pair as printed: both octets and their name. */
  datatype VersionField = VersionField(major: Byte, minor: Byte, name: string)

  function VersionAt(msg: seq<Byte>, pos: nat): VersionField
    requires pos + 2 <= |msg|
  {
    VersionField(msg[pos], msg[pos + 1], GetVersionString(msg[pos], msg[pos + 1]))
  }

  /**
   * One field dump of the Client Hello walk: the message's first
   * messageLength octets dumped with octets start..end highlighted.
   */
  datatype Span = Span(start: nat, end: nat)

  /**
   * The fields a Client Hello and a Server Hello both start with, as shown:
   * message length, hello version, the Unix time (assembled with the first
   * octet least significant), the 28 random octets in hex, the session
   * identifier length and, when it is not zero, the session identifier.
   */
  datatype HelloHead = HelloHead(
    messageLength: nat,
    helloVersion: VersionField,
    unixTime: nat,
    randomHex: string,
    sessionIdLength: nat,
    sessionIdHex: Option<string>)

  datatype ClientHelloReport = ClientHelloReport(
    head: HelloHead,
    cipherSuitesLength: nat,
    cipherSuites: seq<nat>,
    compressionMethods: seq<Byte>,
    extensionsLength: nat,
    extensions: seq<ExtensionReport>,
    extensionsEnd: nat,
    highlights: seq<Span>)

  datatype ServerHelloReport = ServerHelloReport(
    head: HelloHead,
    cipherSuite: nat,
    compressionMethod: Byte,
    extensionsLength: nat)

  datatype CertificateReport = CertificateReport(messageLength: nat, certificatesLength: nat, certificateLengths: seq<nat>)

  datatype HandshakeReport =
    | HelloRequestMessage(messageLength: nat, helloVersion: VersionField)
    | ClientHelloMessage(clientHello: ClientHelloReport)
    | ServerHelloMessage(serverHello: ServerHelloReport)
    | CertificateMessage(certificate: CertificateReport)
    | TypeOnlyMessage(typeName: string, shownLength: Option<nat>)
    | UnknownMessage(messageType: Byte)

  // ---------------------------------------------------------------------
  // Hello layout

  /** Offset just past the session identifier, where the cipher suites length starts. */
  function SessionIdEnd(msg: seq<Byte>): nat
    requires SessionIdLengthAt < |msg|
  {
    SessionIdLengthAt + 1 + msg[SessionIdLengthAt]
  }

  /** Offset of the compression methods length: after CipherSuitesLength / 2 suites. */
  function CompressionAt(msg: seq<Byte>): nat
    requires SessionIdLengthAt < |msg| && SessionIdEnd(msg) + 2 <= |msg|
  {
    SessionIdEnd(msg) + 2 + 2 * (Be16(msg, SessionIdEnd(msg)) / 2)
  }

  /** Offset of the extensions length, after the compression methods. */
  function ExtensionsLengthAt(msg: seq<Byte>): nat
    requires SessionIdLengthAt < |msg| && SessionIdEnd(msg) + 2 <= |msg| && CompressionAt(msg) < |msg|
  {
    CompressionAt(msg) + 1 + msg[CompressionAt(msg)]
  }

  /**
   * The session identifier as the decoder prints it: the hex loop always
   * renders RandomBytesLength octets and the text is then cut at
   * 2 * SessionIdentifierLength digits, so at most 28 octets are shown.
   */
  ghost predicate SessionIdShown(shown: Option<string>, msg: seq<Byte>)
    requires SessionIdLengthAt < |msg|
    requires msg[SessionIdLengthAt] > 0 ==> SessionIdLengthAt + 1 + RandomBytesLength <= |msg|
  {
    var length := msg[SessionIdLengthAt];
    if length == 0 then shown == None
    else shown.Some? && IsHexAt(shown.value, msg, SessionIdLengthAt + 1, Min(length, RandomBytesLength))
  }

  /** Renders the session identifier when its length is not zero. */
  method ShowSessionId(msg: seq<Byte>) returns (shown: Option<string>)
    requires SessionIdLengthAt < |msg|
    requires msg[SessionIdLengthAt] > 0 ==> SessionIdLengthAt + 1 + RandomBytesLength <= |msg|
    ensures SessionIdShown(shown, msg)
  {
    var length := msg[SessionIdLengthAt];
    if length == 0 {
      shown := None;
    } else {
      var octets := msg[SessionIdLengthAt + 1 .. SessionIdLengthAt + 1 + RandomBytesLength];
      var text := EncodeHex(octets);
      var m := Min(length, RandomBytesLength);
      HexPrefix(text, octets, m);
      assert octets[..m] == msg[SessionIdLengthAt + 1 .. SessionIdLengthAt + 1 + m];
      IsHexAtSlice(text[..2 * m], msg, SessionIdLengthAt + 1, m);
      shown := Some(text[..2 * m]);
    }
  }

  /** The octets both Hello decoders read before the cipher suite field lie inside the buffer. */
  ghost predicate HelloHeadReadable(msg: seq<Byte>)
  {
    && SessionIdLengthAt < |msg|
    && (msg[SessionIdLengthAt] > 0 ==> SessionIdLengthAt + 1 + RandomBytesLength <= |msg|)
  }

  /** `h` is what the decoders show for the leading fields of the Hello `msg`. */
  ghost predicate HelloHeadDescribes(h: HelloHead, msg: seq<Byte>)
    requires HelloHeadReadable(msg)
  {
    && h.messageLength == Be24(msg, 1)
    && h.helloVersion == VersionAt(msg, 4)
    && h.unixTime == Le32(msg, 6)
    && IsHexAt(h.randomHex, msg, 10, RandomBytesLength)
    && h.sessionIdLength == msg[SessionIdLengthAt]
    && SessionIdShown(h.sessionIdHex, msg)
  }

  method DecodeHelloHead(msg: seq<Byte>) returns (head: HelloHead)
    requires HelloHeadReadable(msg)
    ensures HelloHeadDescribes(head, msg)
  {
    var randomHex := EncodeHex(msg[10 .. 10 + RandomBytesLength]);
    IsHexAtSlice(randomHex, msg, 10, RandomBytesLength);
    var sessionId := ShowSessionId(msg);
    head := HelloHead(Be24(msg, 1), VersionAt(msg, 4), Le32(msg, 6), randomHex, msg[SessionIdLengthAt], sessionId);
  }

  /** A 32-octet session identifier, the largest TLS allows, is shown as its first 28 octets only. */
  lemma LongSessionIdTruncated(shown: Option<string>, msg: seq<Byte>)
    requires SessionIdLengthAt + 1 + RandomBytesLength <= |msg| && msg[SessionIdLengthAt] == 32
    requires SessionIdShown(shown, msg)
    ensures shown.Some? && |shown.value| == 2 * RandomBytesLength
  {
  }

  // ---------------------------------------------------------------------
  // The extension loop of the Client Hello walk

  /**
   * The octets the extension loop reads, from message offset `at` with
   * `done` of the `total` extension octets walked, lie inside the buffer.
   */
  ghost predicate ExtensionsReadable(msg: seq<Byte>, at: nat, done: nat, total: nat)
    decreases total - done
  {
    done < total ==>
      && at + 4 <= |msg|
      && ExtensionReadable(Be16(msg, at), Be16(msg, at + 2), msg, at + 4)
      && ExtensionsReadable(msg, at + 4 + Be16(msg, at + 2), done + 4 + Be16(msg, at + 2), total)
  }

  lemma ExtensionsReadableNext(msg: seq<Byte>, at: nat, done: nat, total: nat)
    requires ExtensionsReadable(msg, at, done, total) && done < total
    ensures at + 4 <= |msg|
    ensures ExtensionsReadable(msg, at + 4 + Be16(msg, at + 2), done + 4 + Be16(msg, at + 2), total)
  {
  }

  /**
   * `r` is what the loop shows for the extension whose 4-octet header (a
   * 2-octet type, a 2-octet length) starts at r.offset - 4, an iteration
   * the loop runs because the extensions index there, counted from `start`,
   * is still below `total`.
   */
  ghost predicate ExtensionShown(r: ExtensionReport, msg: seq<Byte>, start: nat, total: nat)
  {
    && start + 4 <= r.offset <= |msg|
    && r.offset - 4 - start < total
    && ExtensionReadable(Be16(msg, r.offset - 4), Be16(msg, r.offset - 2), msg, r.offset)
    && ExtensionDescribes(r, Be16(msg, r.offset - 4), Be16(msg, r.offset - 2), msg, r.offset)
  }

  /**
   * The loop from message offset `start` shows `reports` and stops at `end`:
   * the extensions tile the message (the first header at `start`, each next
   * header right after the previous data, `end` right after the last data),
   * and each one is shown as its header says.
   */
  ghost predicate Walked(reports: seq<ExtensionReport>, msg: seq<Byte>, start: nat, total: nat, end: nat)
  {
    && (|reports| == 0 ==> end == start)
    && (|reports| > 0 ==> reports[0].offset == start + 4)
    && (|reports| > 0 ==> reports[|reports| - 1].offset + reports[|reports| - 1].length == end)
    && (forall k :: 0 <= k < |reports| - 1 ==> reports[k + 1].offset == reports[k].offset + reports[k].length + 4)
    && (forall k :: 0 <= k < |reports| ==> ExtensionShown(reports[k], msg, start, total))
  }

  lemma WalkedExtend(reports: seq<ExtensionReport>, r: ExtensionReport, msg: seq<Byte>, start: nat, total: nat, end: nat)
    requires Walked(reports, msg, start, total, end)
    requires r.offset == end + 4 && ExtensionShown(r, msg, start, total)
    ensures Walked(reports + [r], msg, start, total, r.offset + r.length)
  {
    var extended := reports + [r];
    forall k | 0 <= k < |extended|
      ensures ExtensionShown(extended[k], msg, start, total)
    {
      if k < |reports| {
        assert extended[k] == reports[k];
      }
    }
  }

  /**
   * The extension loop: while the extensions index is below the extensions
   * length, read a type and a length, decode the extension, and advance the
   * message index and the extensions index by the same 4 + length. It stops
   * with the extensions index at or past the extensions length.
   */
  method WalkExtensions(msg: seq<Byte>, start: nat, total: nat) returns (reports: seq<ExtensionReport>, end: nat)
    requires ExtensionsReadable(msg, start, 0, total)
    ensures Walked(reports, msg, start, total, end)
    ensures end >= start + total
  {
    reports := [];
    end := start;
    var done := 0;
    while done < total
      invariant end == start + done
      invariant ExtensionsReadable(msg, end, done, total)
      invariant Walked(reports, msg, start, total, end)
      decreases total - done
    {
      var next;
      reports, next := WalkStep(msg, start, total, reports, end);
      done := done + (next - end);
      end := next;
    }
  }

  /** One iteration of the extension loop: decode the extension whose header is at `end`. */
  method WalkStep(msg: seq<Byte>, start: nat, total: nat, reports: seq<ExtensionReport>, end: nat)
    returns (extended: seq<ExtensionReport>, next: nat)
    requires start <= end && ExtensionsReadable(msg, end, end - start, total) && end - start < total
    requires Walked(reports, msg, start, total, end)
    ensures next == end + 4 + Be16(msg, end + 2)
    ensures ExtensionsReadable(msg, next, next - start, total)
    ensures Walked(extended, msg, start, total, next)
  {
    var extType := Be16(msg, end);
    var length := Be16(msg, end + 2);
    ExtensionsReadableNext(msg, end, end - start, total);
    var report := DecodeExtension(extType, length, msg, end + 4);
    WalkedExtend(reports, report, msg, start, total, end);
    extended := reports + [report];
    next := end + 4 + length;
  }

  // ---------------------------------------------------------------------
  // Client Hello

  /**
   * The octets the Client Hello walk reads lie inside the buffer. The
   * message length bounds the buffer because every field dump of the walk
   * is printed with the message length as its packet length; the model
   * records the dumps' highlight spans but does not render them.
   */
  ghost predicate ClientHelloReadable(msg: seq<Byte>)
  {
    && HelloHeadReadable(msg)
    && Be24(msg, 1) <= |msg|
    && SessionIdEnd(msg) + 2 <= |msg|
    && CompressionAt(msg) < |msg|
    && ExtensionsLengthAt(msg) + 2 <= |msg|
    && ExtensionsReadable(msg, ExtensionsLengthAt(msg) + 2, 0, Be16(msg, ExtensionsLengthAt(msg)))
  }

  /** One single-octet highlight per compression method. */
  function MethodSpans(from: nat, count: nat): (spans: seq<Span>)
    ensures |spans| == count
  {
    seq(count, k requires 0 <= k < count => Span(from + k, from + k))
  }

  /**
   * The field dumps of the Client Hello walk, in order: header, hello
   * version, Unix time, random octets, session identifier length, the
   * session identifier (when not empty), cipher suites length, compression
   * methods length, each compression method, extensions length.
   */
  function ClientHelloSpans(msg: seq<Byte>): seq<Span>
    requires SessionIdLengthAt < |msg| && SessionIdEnd(msg) + 2 <= |msg| && CompressionAt(msg) < |msg|
  {
    var length := msg[SessionIdLengthAt];
    var suites := SessionIdEnd(msg);
    var methods := CompressionAt(msg);
    var extensions := ExtensionsLengthAt(msg);
    [Span(0, 3), Span(4, 5), Span(6, 9), Span(10, 10 + RandomBytesLength - 1), Span(SessionIdLengthAt, SessionIdLengthAt)]
    + (if length > 0 then [Span(SessionIdLengthAt + 1, SessionIdLengthAt + length)] else [])
    + [Span(suites, suites + 1), Span(methods, methods)]
    + MethodSpans(methods + 1, msg[methods])
    + [Span(extensions, extensions + 1)]
  }

  /** `r` is what the Client Hello walk shows for `msg`. */
  ghost predicate ClientHelloDescribes(r: ClientHelloReport, msg: seq<Byte>)
    requires ClientHelloReadable(msg)
  {
    var suites := SessionIdEnd(msg);
    var suitesLength := Be16(msg, suites);
    var methods := CompressionAt(msg);
    var extensions := ExtensionsLengthAt(msg);
    var extensionsLength := Be16(msg, extensions);
    && HelloHeadDescribes(r.head, msg)
    && r.cipherSuitesLength == suitesLength
    && |r.cipherSuites| == suitesLength / 2
    && CodesAt(r.cipherSuites, msg, suites + 2)
    && |r.compressionMethods| == msg[methods] && OctetsAt(r.compressionMethods, msg, methods + 1)
    && r.extensionsLength == extensionsLength
    && r.extensionsEnd >= extensions + 2 + extensionsLength
    && Walked(r.extensions, msg, extensions + 2, extensionsLength, r.extensionsEnd)
    && r.highlights == ClientHelloSpans(msg)
  }

  /** Reads the compression methods one octet at a time, highlighting each. */
  method ReadCompressionMethods(msg: seq<Byte>, from: nat, count: nat) returns (methods: seq<Byte>, spans: seq<Span>)
    requires from + count <= |msg|
    ensures |methods| == count && OctetsAt(methods, msg, from)
    ensures spans == MethodSpans(from, count)
  {
    methods := [];
    spans := [];
    for k := 0 to count
      invariant |methods| == k && OctetsAt(methods, msg, from)
      invariant spans == MethodSpans(from, k)
    {
      methods := methods + [msg[from + k]];
      spans := spans + [Span(from + k, from + k)];
    }
  }

  /** Reads the cipher suites length and the CipherSuitesLength / 2 suites after it. */
  method DecodeCipherSuites(msg: seq<Byte>) returns (suitesLength: nat, suites: seq<nat>)
    requires SessionIdLengthAt < |msg| && SessionIdEnd(msg) + 2 <= |msg| && CompressionAt(msg) <= |msg|
    ensures suitesLength == Be16(msg, SessionIdEnd(msg))
    ensures |suites| == suitesLength / 2 && CodesAt(suites, msg, SessionIdEnd(msg) + 2)
  {
    var index := SessionIdEnd(msg);
    suitesLength := Be16(msg, index);
    suites := ReadList(msg, index + 2, suitesLength / 2);
  }

  /** Reads the extensions length and walks the extensions after it. */
  method DecodeClientExtensions(msg: seq<Byte>) returns (extensionsLength: nat, extensions: seq<ExtensionReport>, end: nat)
    requires ClientHelloReadable(msg)
    ensures extensionsLength == Be16(msg, ExtensionsLengthAt(msg))
    ensures end >= ExtensionsLengthAt(msg) + 2 + extensionsLength
    ensures Walked(extensions, msg, ExtensionsLengthAt(msg) + 2, extensionsLength, end)
  {
    var index := ExtensionsLengthAt(msg);
    extensionsLength := Be16(msg, index);
    extensions, end := WalkExtensions(msg, index + 2, extensionsLength);
  }

  /** Walks a Client Hello field by field and then its extensions, recording the highlight span of each field dump. */
  method DecodeClientHello(msg: seq<Byte>) returns (report: ClientHelloReport)
    requires ClientHelloReadable(msg)
    ensures ClientHelloDescribes(report, msg)
  {
    var head := DecodeHelloHead(msg);
    var sessionIdLength := msg[SessionIdLengthAt];
    var spans := [Span(0, 3), Span(4, 5), Span(6, 9), Span(10, 10 + RandomBytesLength - 1), Span(SessionIdLengthAt, SessionIdLengthAt)];
    if sessionIdLength > 0 {
      spans := spans + [Span(SessionIdLengthAt + 1, SessionIdLengthAt + sessionIdLength)];
    }
    var suitesLength, suites := DecodeCipherSuites(msg);
    var suitesAt := SessionIdEnd(msg);
    spans := spans + [Span(suitesAt, suitesAt + 1)];
    var methodsAt := CompressionAt(msg);
    spans := spans + [Span(methodsAt, methodsAt)];
    var methods, methodSpans := ReadCompressionMethods(msg, methodsAt + 1, msg[methodsAt]);
    spans := spans + methodSpans;
    var extensionsAt := ExtensionsLengthAt(msg);
    spans := spans + [Span(extensionsAt, extensionsAt + 1)];
    var extensionsLength, extensions, end := DecodeClientExtensions(msg);
    report := ClientHelloReport(head, suitesLength, suites, methods, extensionsLength, extensions, end, spans);
  }

  /**
   * The field dumps highlight disjoint ranges in increasing order, each
   * range non-empty.
   */
  lemma ClientHelloSpansOrdered(msg: seq<Byte>)
    requires SessionIdLengthAt < |msg| && SessionIdEnd(msg) + 2 <= |msg| && CompressionAt(msg) < |msg|
    ensures var spans := ClientHelloSpans(msg);
      && (forall k :: 0 <= k < |spans| ==> spans[k].start <= spans[k].end)
      && (forall k :: 0 <= k < |spans| - 1 ==> spans[k].end < spans[k + 1].start)
  {
  }

  // ---------------------------------------------------------------------
  // Server Hello

  /** The octets the Server Hello decoder reads lie inside the buffer. */
  ghost predicate ServerHelloReadable(msg: seq<Byte>)
  {
    && HelloHeadReadable(msg)
    && SessionIdEnd(msg) + 5 <= |msg|
  }

  /**
   * `r` is what the decoder shows for a Server Hello: the same leading
   * fields as a Client Hello, then one cipher suite, one compression method
   * and the extensions length; the extensions themselves are not walked.
   */
  ghost predicate ServerHelloDescribes(r: ServerHelloReport, msg: seq<Byte>)
    requires ServerHelloReadable(msg)
  {
    var suite := SessionIdEnd(msg);
    && HelloHeadDescribes(r.head, msg)
    && r.cipherSuite == Be16(msg, suite)
    && r.compressionMethod == msg[suite + 2]
    && r.extensionsLength == Be16(msg, suite + 3)
  }

  method DecodeServerHello(msg: seq<Byte>) returns (report: ServerHelloReport)
    requires ServerHelloReadable(msg)
    ensures ServerHelloDescribes(report, msg)
  {
    var head := DecodeHelloHead(msg);
    var index := SessionIdLengthAt + 1 + msg[SessionIdLengthAt];
    report := ServerHelloReport(head, Be16(msg, index), msg[index + 2], Be16(msg, index + 3));
  }

  // ---------------------------------------------------------------------
  // Certificate

  /**
   * The octets the loop reads from `pos` on lie inside the buffer, where
   * `number` counts the certificates before `pos`; the loop runs while the
   * position is below `end`. Each turn reads the 3-octet header and hands
   * `DecodeASN` the octet `number` places into the certificate data (the
   * C code indexes the certificate with its own number), which it reads.
   */
  ghost predicate CertificatesReadable(msg: seq<Byte>, end: nat, pos: nat, number: nat)
    decreases end - pos
  {
    pos < end ==> pos + 3 + number < |msg| && CertificatesReadable(msg, end, pos + Be24(msg, pos) + 3, number + 1)
  }

  /** The 3-octet certificate lengths the loop reads from `pos` on. */
  function CertificateLengths(msg: seq<Byte>, end: nat, pos: nat, number: nat): seq<nat>
    requires CertificatesReadable(msg, end, pos, number)
    decreases end - pos
  {
    if pos >= end then [] else [Be24(msg, pos)] + CertificateLengths(msg, end, pos + Be24(msg, pos) + 3, number + 1)
  }

  /** Octets taken by certificates of the given lengths, each with its 3-octet header. */
  function Total(lengths: seq<nat>): nat
  {
    if |lengths| == 0 then 0 else lengths[0] + 3 + Total(lengths[1..])
  }

  /**
   * `lengths` are the certificate lengths read from `pos`, where `number`
   * certificates came before: length k is read right after the k
   * certificates before it, every one of those headers starts below `end`,
   * the octet `DecodeASN` reads for it (`number + k` octets into its data)
   * is in the buffer, and the walk ends at or past `end`.
   */
  ghost predicate CertificateLayout(lengths: seq<nat>, msg: seq<Byte>, end: nat, pos: nat, number: nat)
  {
    && pos + Total(lengths) >= end
    && forall k :: 0 <= k < |lengths| ==>
         && pos + Total(lengths[..k]) < end
         && pos + Total(lengths[..k]) + 3 + number + k < |msg|
         && lengths[k] == Be24(msg, pos + Total(lengths[..k]))
  }

  /** The octets taken by the first k + 1 certificates: the first one's, then the next k. */
  lemma TotalPrefix(first: nat, rest: seq<nat>, k: nat)
    requires 0 < k <= |rest| + 1
    ensures Total(([first] + rest)[..k]) == first + 3 + Total(rest[..k - 1])
  {
    assert ([first] + rest)[..k] == [first] + rest[..k - 1];
  }

  lemma {:induction false} CertificateWalk(msg: seq<Byte>, end: nat, pos: nat, number: nat)
    requires CertificatesReadable(msg, end, pos, number)
    ensures CertificateLayout(CertificateLengths(msg, end, pos, number), msg, end, pos, number)
    decreases end - pos
  {
    if pos < end {
      var first := Be24(msg, pos);
      var next := pos + first + 3;
      CertificateWalk(msg, end, next, number + 1);
      var lengths := CertificateLengths(msg, end, pos, number);
      var rest := CertificateLengths(msg, end, next, number + 1);
      assert lengths == [first] + rest;
      assert lengths[1..] == rest;
      assert Total(lengths) == first + 3 + Total(rest);
      forall k | 0 <= k < |lengths|
        ensures pos + Total(lengths[..k]) < end
        ensures pos + Total(lengths[..k]) + 3 + number + k < |msg|
        ensures lengths[k] == Be24(msg, pos + Total(lengths[..k]))
      {
        if k > 0 {
          TotalPrefix(first, rest, k);
          assert lengths[k] == rest[k - 1];
          var at := next + Total(rest[..k - 1]);
          assert at + 3 + (number + 1) + (k - 1) < |msg|;
          assert pos + Total(lengths[..k]) == at;
        } else {
          assert Total(lengths[..0]) == 0;
        }
      }
    }
  }

  /**
   * Walks the certificate list: from offset 7, while the position is below
   * the last octet of the message, read a 3-octet length and skip the
   * certificate and its header. The certificate contents are not decoded.
   */
  method DecodeCertificate(msg: seq<Byte>) returns (report: CertificateReport)
    requires 7 <= |msg| && CertificatesReadable(msg, Be24(msg, 1) + 3, 7, 0)
    ensures report == CertificateReport(Be24(msg, 1), Be24(msg, 4), CertificateLengths(msg, Be24(msg, 1) + 3, 7, 0))
  {
    var messageLength := Be24(msg, 1);
    var end := messageLength + 3;
    var lengths: seq<nat> := [];
    var pos := 7;
    while pos < end
      invariant CertificatesReadable(msg, end, pos, |lengths|)
      invariant lengths + CertificateLengths(msg, end, pos, |lengths|) == CertificateLengths(msg, end, 7, 0)
      decreases end as int - pos
    {
      var length := Be24(msg, pos);
      lengths := lengths + [length];
      pos := pos + length + 3;
    }
    report := CertificateReport(messageLength, Be24(msg, 4), lengths);
  }

  /**
   * A Certificate message of 10 octets holding one empty certificate: the
   * header is readable, but the octet handed to `DecodeASN` is the 11th,
   * past the buffer.
   */
  lemma EmptyCertificateReadsPast()
    ensures !CertificatesReadable([11, 0, 0, 6, 0, 0, 3, 0, 0, 0], 9, 7, 0)
    ensures CertificatesReadable([11, 0, 0, 6, 0, 0, 3, 0, 0, 0, 0x30], 9, 7, 0)
  {
    var msg: seq<Byte> := [11, 0, 0, 6, 0, 0, 3, 0, 0, 0, 0x30];
    assert Be24(msg, 1) + 3 == 9 && Be24(msg, 7) == 0;
    assert Be24(msg[..10], 7) == 0;
    assert msg[..10] == [11, 0, 0, 6, 0, 0, 3, 0, 0, 0];
  }

  // ---------------------------------------------------------------------
  // Any handshake message

  /** The octets the handshake decoder reads for `msg` lie inside the buffer. */
  ghost predicate HandshakeReadable(msg: seq<Byte>)
  {
    && 4 <= |msg|
    && (msg[0] == HelloRequest ==> 6 <= |msg|)
    && (msg[0] == ClientHello ==> ClientHelloReadable(msg))
    && (msg[0] == ServerHello ==> ServerHelloReadable(msg))
    && (msg[0] == Certificate ==> 7 <= |msg| && CertificatesReadable(msg, Be24(msg, 1) + 3, 7, 0))
  }

  /** The enumerator name printed for a message type that is shown by name only. */
  function TypeOnlyName(messageType: Byte): Option<string>
  {
    if messageType == NewSessionTicket then Some("TLS_MT_NEW_SESSION_TICKET")
    else if messageType == EndOfEarlyData then Some("TLS_MT_END_OF_EARLY_DATA")
    else if messageType == HelloRetryRequest then Some("TLS_MT_HELLO_RETRY_REQUEST")
    else if messageType == EncryptedExtensions then Some("TLS_MT_ENCRYPTED_EXTENSIONS")
    else if messageType == ServerKeyExchange then Some("TLS_MT_SERVER_KEY_EXCHANGE")
    else if messageType == CertificateRequest then Some("TLS_MT_CERTIFICATE_REQUEST")
    else if messageType == ServerHelloDone then Some("TLS_MT_SERVER_HELLO_DONE")
    else if messageType == CertificateVerify then Some("TLS_MT_CERTIFICATE_VERIFY")
    else if messageType == ClientKeyExchange then Some("TLS_MT_CLIENT_KEY_EXCHANGE")
    else if messageType == Finished then Some("TLS_MT_FINISHED")
    else if messageType == KeyUpdate then Some("TLS_MT_KEY_UPDATE")
    else if messageType == MessageHash then Some("TLS_MT_MESSAGE_HASH")
    else None
  }

  /** `r` is what the decoder shows for the handshake message `msg`. */
  ghost predicate HandshakeDescribes(r: HandshakeReport, msg: seq<Byte>)
    requires HandshakeReadable(msg)
  {
    var messageType := msg[0];
    var messageLength := Be24(msg, 1);
    if messageType == HelloRequest then r == HelloRequestMessage(messageLength, VersionAt(msg, 4))
    else if messageType == ClientHello then r.ClientHelloMessage? && ClientHelloDescribes(r.clientHello, msg)
    else if messageType == ServerHello then r.ServerHelloMessage? && ServerHelloDescribes(r.serverHello, msg)
    else if messageType == Certificate then
      r == CertificateMessage(CertificateReport(messageLength, Be24(msg, 4), CertificateLengths(msg, messageLength + 3, 7, 0)))
    else if TypeOnlyName(messageType).Some? then
      var showsLength := messageType == ServerKeyExchange || messageType == ServerHelloDone;
      r == TypeOnlyMessage(TypeOnlyName(messageType).value, if showsLength then Some(messageLength) else None)
    else r == UnknownMessage(messageType)
  }

  /**
   * Decodes one handshake message and returns the octets it spans: its
   * 3-octet length plus the 4-octet header, whatever the type, so never 0.
   */
  method DecodeHandshakeRecord(msg: seq<Byte>) returns (consumed: nat, report: HandshakeReport)
    requires HandshakeReadable(msg)
    ensures consumed == Be24(msg, 1) + 4
    ensures HandshakeDescribes(report, msg)
  {
    var messageLength := Be24(msg, 1);
    var messageType := msg[0];
    if messageType == HelloRequest {
      report := HelloRequestMessage(messageLength, VersionAt(msg, 4));
    } else if messageType == ClientHello {
      var hello := DecodeClientHello(msg);
      report := ClientHelloMessage(hello);
    } else if messageType == ServerHello {
      var hello := DecodeServerHello(msg);
      report := ServerHelloMessage(hello);
    } else if messageType == Certificate {
      var certificates := DecodeCertificate(msg);
      report := CertificateMessage(certificates);
    } else {
      var name := TypeOnlyName(messageType);
      if name.Some? {
        var showsLength := messageType == ServerKeyExchange || messageType == ServerHelloDone;
        report := TypeOnlyMessage(name.value, if showsLength then Some(messageLength) else None);
      } else {
        report := UnknownMessage(messageType);
      }
    }
    consumed := messageLength + 4;
  }
}
