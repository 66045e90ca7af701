# miTLS test-tool core in Dafny

This project models two small parts of the miTLS test tooling:

- **The TLS packet pretty-printer** of the test server, `tests/Tester/Tester/SimpleServer.cpp`. It has two jobs:
  - It prints a captured packet as a hex/character dump, 16 octets per line, optionally restricted to the lines around a highlighted range.
  - It walks the packet record by record. For each handshake record it decodes the first message: Hello Request … Message Hash by name, Client Hello field by field with its extensions, Server Hello, and Certificate lists. For each alert record it shows the level and the description. It names cipher suites, signature algorithms, named groups, extension types and alert descriptions from its tables, and version pairs from its version naming.
- **The command-line parsers of the two `cmitls` drivers**, `src/tls/cmitls.c` and `apps/cmitls/cmitls.c`:
  - the option-table parser (`ParseArg`) and the argument loop (`ParseArgs`), with their hostname / port / file defaults;
  - the QUIC completion predicates;
  - the application's hex dump, its protocol-version naming and its negotiation callback.

Where the printer writes text to the console, the model returns a report value, for example `Records.RecordReport` or `Handshake.ClientHelloReport`. Each decoding method is proved against a ghost predicate (`…Describes`) that states what the report shows for the input octets.

Every decoder takes the buffer as a sequence and a *readable* precondition (`RecordReadable`, `ClientHelloReadable`, `PacketReadable`, …). That precondition is a sufficient bound: it keeps every octet the decoders read inside the captured buffer. The C code itself never checks this (see "Left out"). The hex dumps are the exception: see the `HexDump.DumpPacket` line under "Left out".

Modules:

- `Bytes`: octets, fixed-width fields and upper-case hex.
- `Versions`: version naming.
- `Tables`: the description tables and their lookups.
- `NamedLists`: 2-octet code lists.
- `Extensions`: the extension decoder.
- `Handshake`: the handshake message decoders.
- `HexDump`: the packet dump.
- `Records`: the record decoder and the packet loop.
- `CommandLine`: the shared option parser and argument loop.
- `TlsCli`: the `src/tls` driver.
- `AppCli`: the `apps` driver.
- `Wrappers`: `Option`.

Some source functions appear in the table only through the lemmas about them:
- `Versions.GetVersionString` is covered by `Versions.VersionNameRoundTrip`.
- The lookups `Tables.LookupExtensionType`, `FindAlert`, `LookupCipherSuite`, `LookupSignatureAlgorithm` and `LookupNamedGroup` are covered by the matching `…Finds` and `…IsFirstMatch` rows.
- `Records.RecordLength` is covered by `Records.RecordStops` and `Records.DecodeRecord`.
- `HexDump.CellAt` is covered by `HexDump.LineColumns`.
- `HexDump.LinePrinted` is covered by `HexDump.DumpLinesSound`, `DumpLinesComplete` and `UnhighlightedLineCount`.

The value column of a table (`Tables.Codes`, one function for all five tables) is a helper. It feeds the table scans to `Tables.ScanFrom`.

## Model

| member | source | states |
|---|---|---|
| Bytes.Be16 | tests/Tester/Tester/SimpleServer.cpp:1275-1278 | a 2-octet length is below 65536, with the first octet as its high byte and the second as its low byte |
| Bytes.Be24 | tests/Tester/Tester/SimpleServer.cpp:793-795 | a 3-octet message length is below 2^24, with its three octets as its three bytes in transmitted order |
| Bytes.Le32 | tests/Tester/Tester/SimpleServer.cpp:1215-1218 | the Unix time of a Hello random is assembled little-endian: octets 0, 1, 2 and 3 are its bytes from least to most significant |
| Bytes.OctetsAtIsSlice | tests/Tester/Tester/SimpleServer.cpp:1574-1580 | the octet-by-octet statement of "these are the octets at this offset" is the same as equality with the slice |
| Bytes.DigitValueInvertsHexDigit | tests/Tester/Tester/SimpleServer.cpp:780 | reading back a digit of the upper-case digit table gives the nibble it was taken for |
| Bytes.IsHexAtSlice | tests/Tester/Tester/SimpleServer.cpp:1224-1229 | the octet-by-octet hex rendering of a buffer range is the hex rendering of that slice |
| Bytes.HexPrefix | tests/Tester/Tester/SimpleServer.cpp:1259-1260 | cutting a hex text after 2m digits leaves the rendering of the first m octets |
| Bytes.ParseHex | tests/Tester/Tester/SimpleServer.cpp:1224-1229 | reading hex digit pairs back yields one value per pair |
| Bytes.HexTail | tests/Tester/Tester/SimpleServer.cpp:1224-1229 | dropping the first octet drops exactly its two digits |
| Bytes.HexRoundTrip | tests/Tester/Tester/SimpleServer.cpp:1224-1229 | the hex rendering loses nothing: parsing the text gives back the octets |
| Bytes.EncodeHex | tests/Tester/Tester/SimpleServer.cpp:1224-1229 | the hex loop writes two upper-case digits per octet, high nibble first |
| Versions.DecimalDigit | tests/Tester/Tester/SimpleServer.cpp:1662-1720 | a digit character for 0..9 whose character code, offset from '0', is the digit |
| Versions.VersionNameRoundTrip | tests/Tester/Tester/SimpleServer.cpp:1662-1720 | each named version pair (SSL v1..v3, TLS 1.0..1.3, drafts 20..28) is identified by its name; every other pair gets "TLS 1.3 unknown draft" (major 0x7F) or "unknown", and those identify nothing |
| NamedLists.VersionItemName | tests/Tester/Tester/SimpleServer.cpp:1487-1496 | a supported_versions entry is named from its two octets as they appear, high octet first |
| NamedLists.ReadList | tests/Tester/Tester/SimpleServer.cpp:1284-1301 | the list loop reads exactly `count` big-endian 2-octet codes, entry k at offset at + 2k |
| Tables.ScanFrom | tests/Tester/Tester/SimpleServer.cpp:1724-1741 | the table scan stops at the first row holding the code or the sentinel, and at no earlier row |
| Tables.ExtensionTypeTerminatorLast | tests/Tester/Tester/SimpleServer.cpp:156 | the extension type table's terminator occurs only in its last row, so every scan ends inside the table |
| Tables.ExtensionTypeIndex | tests/Tester/Tester/SimpleServer.cpp:1367-1376 | the extension type scan stops at a row of the table |
| Tables.ExtensionTypeIndexIsFirstMatch | tests/Tester/Tester/SimpleServer.cpp:1367-1376 | the extension type scan stops at the first row holding the code, else at the terminator row |
| Tables.AlertTerminatorLast | tests/Tester/Tester/SimpleServer.cpp:192 | TLS_AD_UNKNOWN occurs only in the alert table's last row |
| Tables.AlertIndex | tests/Tester/Tester/SimpleServer.cpp:702-718 | the alert scan stops at a row of the table |
| Tables.AlertIndexIsFirstMatch | tests/Tester/Tester/SimpleServer.cpp:702-718 | the alert scan stops at the first row holding the code, else at the terminator row |
| Tables.CipherSuiteTerminatorLast | tests/Tester/Tester/SimpleServer.cpp:249 | TLS_CIPHER_SUITE_UNDEFINED occurs only in the cipher suite table's last row |
| Tables.CipherSuiteIndex | tests/Tester/Tester/SimpleServer.cpp:1724-1741 | the cipher suite scan stops at a row of the table |
| Tables.CipherSuiteIndexIsFirstMatch | tests/Tester/Tester/SimpleServer.cpp:1724-1741 | the cipher suite scan stops at the first row holding the code, else at the terminator row |
| Tables.SignatureAlgorithmTerminatorLast | tests/Tester/Tester/SimpleServer.cpp:277 | TLS_SA_UNDEFINED occurs only in the signature algorithm table's last row |
| Tables.SignatureAlgorithmIndex | tests/Tester/Tester/SimpleServer.cpp:1743-1760 | the signature algorithm scan stops at a row of the table |
| Tables.SignatureAlgorithmIndexIsFirstMatch | tests/Tester/Tester/SimpleServer.cpp:1743-1760 | the signature algorithm scan stops at the first row holding the code, else at the terminator row |
| Tables.NamedGroupTerminatorLast | tests/Tester/Tester/SimpleServer.cpp:296 | the named group table's last row holds the value of TLS_SA_UNDEFINED (the sentinel its scan uses), and no earlier row does |
| Tables.NamedGroupIndex | tests/Tester/Tester/SimpleServer.cpp:1762-1777 | the named group scan, although it is terminated by TLS_SA_UNDEFINED, stops at a row of the group table |
| Tables.NamedGroupIndexIsFirstMatch | tests/Tester/Tester/SimpleServer.cpp:1762-1777 | the named group scan stops at the first row holding the code, else at the last row |
| Tables.LookupExtensionTypeFinds | tests/Tester/Tester/SimpleServer.cpp:1367-1384 | the extension title is the row of the code when the table lists it, else the "Undefined Extension Type" row |
| Tables.FindAlertFinds | tests/Tester/Tester/SimpleServer.cpp:700-718 | an alert description is printed with the first row holding its code; nothing is printed for an unlisted code or for TLS_AD_UNKNOWN itself |
| Tables.LookupCipherSuiteFinds | tests/Tester/Tester/SimpleServer.cpp:1724-1741 | the cipher suite name and support flag come from the code's row, else from the undefined, unsupported row |
| Tables.LookupSignatureAlgorithmFinds | tests/Tester/Tester/SimpleServer.cpp:1743-1760 | the signature algorithm name and flag come from the code's row, else from the undefined row |
| Tables.LookupNamedGroupFinds | tests/Tester/Tester/SimpleServer.cpp:1762-1777 | the named group logging name and flag come from the code's row, else from the undefined row |
| Tables.KeyShareFirstRowWins | tests/Tester/Tester/SimpleServer.cpp:91-157 | key_share is listed twice in the extension table, and the first of the two rows is the one printed |
| Tables.Aes128GcmSupported | tests/Tester/Tester/SimpleServer.cpp:202-250 | looking up 0x1301 gives TLS_AES_128_GCM_SHA256, marked supported |
| Extensions.DumpOctets | tests/Tester/Tester/SimpleServer.cpp:1566-1585 | the octet-by-octet print shows exactly the `count` octets from the data offset |
| Extensions.DecodeExtension | tests/Tester/Tester/SimpleServer.cpp:1359-1587 | the report shows, per type: supported_groups and signature_algorithms as a 2-octet length then length/2 named codes; supported_versions as a 1-octet length then length/2 version pairs; key_share as share length, group and key length then `length` key octets 6 octets in; any other type as its `length` data octets |
| Handshake.ShowSessionId | tests/Tester/Tester/SimpleServer.cpp:1251-1263 | an empty session identifier shows nothing; otherwise the text is the hex of the first min(L, 28) identifier octets |
| Handshake.DecodeHelloHead | tests/Tester/Tester/SimpleServer.cpp:1167-1271 | shows the message length, hello version and its name, the byte-swapped Unix time, the 28 random octets in hex, the session identifier length and the session identifier text |
| Handshake.LongSessionIdTruncated | tests/Tester/Tester/SimpleServer.cpp:1251-1263 | a 32-octet session identifier is shown as 56 hex digits, its first 28 octets |
| Handshake.WalkExtensions | tests/Tester/Tester/SimpleServer.cpp:1337-1354 | the extension loop shows extensions that tile the message from its start (each header right after the previous data), each as its header says, and it stops at or past start + extensions length |
| Handshake.WalkStep | tests/Tester/Tester/SimpleServer.cpp:1341-1353 | one turn of the extension loop moves past a 4-octet header and the declared data, and adds that extension's report |
| Handshake.ReadCompressionMethods | tests/Tester/Tester/SimpleServer.cpp:1315-1322 | reads exactly the `count` compression-method octets after their length, highlighting each |
| Handshake.DecodeCipherSuites | tests/Tester/Tester/SimpleServer.cpp:1273-1301 | the cipher suites length is read after the session identifier, then length/2 suites follow it |
| Handshake.DecodeClientExtensions | tests/Tester/Tester/SimpleServer.cpp:1324-1354 | the extensions length is read after the compression methods, and the extensions after it are walked |
| Handshake.DecodeClientHello | tests/Tester/Tester/SimpleServer.cpp:1167-1355 | the Client Hello report holds the hello head, the suites, the compression methods, the walked extensions and the field highlights in the order the fields are dumped |
| Handshake.ClientHelloSpansOrdered | tests/Tester/Tester/SimpleServer.cpp:1197-1333 | the field dumps of a Client Hello highlight non-empty, disjoint ranges in increasing order |
| Handshake.DecodeServerHello | tests/Tester/Tester/SimpleServer.cpp:839-953 | a Server Hello shows the Hello head, then one cipher suite, one compression method and the extensions length |
| Handshake.CertificateWalk | tests/Tester/Tester/SimpleServer.cpp:1026-1045 | the k-th certificate length is read right after the k earlier certificates and their 3-octet headers; every header read starts before the end; the octet `DecodeASN` reads for certificate k, k octets into its data, is inside the buffer; the walk ends at or past the end |
| Handshake.DecodeCertificate | tests/Tester/Tester/SimpleServer.cpp:998-1049 | the Certificate report holds the message length, the certificates field length and the lengths the walk reads from offset 7 |
| Handshake.EmptyCertificateReadsPast | tests/Tester/Tester/SimpleServer.cpp:1038 | a 10-octet Certificate message with one empty certificate is not readable, since the octet handed to `DecodeASN` is its 11th; with that octet present it is |
| Handshake.DecodeHandshakeRecord | tests/Tester/Tester/SimpleServer.cpp:785-1163 | returns the 3-octet message length plus the 4-octet header, never 0; the report shows the message as its type selects |
| HexDump.AsciiColumn | tests/Tester/Tester/SimpleServer.cpp:511-534 | the character column has one character per cell |
| HexDump.LineCells | tests/Tester/Tester/SimpleServer.cpp:476-503 | a dump line always has 16 cells |
| HexDump.RenderHexColumn | tests/Tester/Tester/SimpleServer.cpp:476-503 | the hex column loop produces the line's cells and their hex text |
| HexDump.RenderAsciiColumn | tests/Tester/Tester/SimpleServer.cpp:511-534 | the character loop produces the character column of the cells |
| HexDump.RenderLine | tests/Tester/Tester/SimpleServer.cpp:466-539 | a printed line is the line at its address |
| HexDump.DumpPacket | tests/Tester/Tester/SimpleServer.cpp:411-549 | the caption appears exactly when the title is not empty, and the lines are the printed lines from address 0 |
| HexDump.HexColumnLength | tests/Tester/Tester/SimpleServer.cpp:476-503 | the hex column of n cells has 3n characters plus one per completed group of eight |
| HexDump.HexColumnCell | tests/Tester/Tester/SimpleServer.cpp:480-500 | cell i takes the three characters from its column offset |
| HexDump.HexColumnGap | tests/Tester/Tester/SimpleServer.cpp:502 | an extra space follows every eighth cell |
| HexDump.HexColumnLayout | tests/Tester/Tester/SimpleServer.cpp:476-503 | the whole column layout: length, each cell's three characters, and the space after each group of eight |
| HexDump.LineColumns | tests/Tester/Tester/SimpleServer.cpp:476-534 | column i shows an octet inside the packet as two hex digits that read back as the octet, and as itself or '.' in the character column; it is highlighted exactly when it lies in a non-empty range; a position past the end shows as blanks |
| HexDump.DumpLinesSound | tests/Tester/Tester/SimpleServer.cpp:442-466 | every printed line starts at a multiple of 16 below the length, is selected, and is rendered from its address |
| HexDump.DumpLinesComplete | tests/Tester/Tester/SimpleServer.cpp:442-466 | every selected line at a multiple of 16 below the length is printed |
| HexDump.DumpLinesOrdered | tests/Tester/Tester/SimpleServer.cpp:442 | printed lines come in strictly increasing address order |
| HexDump.UnhighlightedLineCount | tests/Tester/Tester/SimpleServer.cpp:446-449 | without a highlight every line is printed: the length divided by 16, rounded up |
| Records.DecodeRecord | tests/Tester/Tester/SimpleServer.cpp:607-762 | returns the content length plus 5 for a handshake or alert record and 0 otherwise; the report shows the record as its content type selects |
| Records.RecordStops | tests/Tester/Tester/SimpleServer.cpp:660-761 | a record stops the walk exactly when it is neither a handshake nor an alert record; any other record spans at least its 5-octet header |
| Records.RecordLengthAtHeader | tests/Tester/Tester/SimpleServer.cpp:632-761 | what the record decoder returns is decided by the record header alone |
| Records.RecordOffsetsStep | tests/Tester/Tester/SimpleServer.cpp:573-584 | one turn of the packet loop: the record at the cursor is listed first, and the packet decodes exactly when that record does not stop the walk and the rest decodes |
| Records.RecordOffsetsLayout | tests/Tester/Tester/SimpleServer.cpp:573-584 | the walk's records start at the cursor, each before the last octet with a readable header, each next one right after its predecessor, which did not stop the walk |
| Records.DecodesIffNoneStops | tests/Tester/Tester/SimpleServer.cpp:573-586 | a packet decodes exactly when none of the records the walk visits stops it |
| Records.WalkAt | tests/Tester/Tester/SimpleServer.cpp:573-577 | the record under the cursor is the next one the walk lists |
| Records.WalkStops | tests/Tester/Tester/SimpleServer.cpp:579 | a record that stops the walk is the last one listed, and the packet does not decode |
| Records.WalkGoesOn | tests/Tester/Tester/SimpleServer.cpp:583 | after a record that does not stop it, the walk goes on from the next record |
| Records.WalkEnds | tests/Tester/Tester/SimpleServer.cpp:573-586 | at the packet's last octet the walk has listed every record and the packet decodes |
| Records.DecodeNextRecord | tests/Tester/Tester/SimpleServer.cpp:577 | decoding the record at the cursor returns its header-determined length and adds a report that shows it |
| Records.DecodeStep | tests/Tester/Tester/SimpleServer.cpp:573-584 | a loop turn either ends the walk (result 0, every listed record shown) or keeps the loop state at the next record |
| Records.DecodeRecords | tests/Tester/Tester/SimpleServer.cpp:563-586 | returns the packet length when the walk never stops, else 0; each report shows the record at the matching walk offset |
| Records.DecodePacket | tests/Tester/Tester/SimpleServer.cpp:558-587 | dumps the whole packet, with no highlight and a caption for a non-empty title, then returns what the record loop returns, with its reports |
| Records.DoneThenAlertDecodes | tests/Tester/Tester/SimpleServer.cpp:558-587 | a ServerHelloDone record followed by an alert is walked at offsets 0 and 9 and decodes to its full length |
| Records.ChangeCipherSpecStops | tests/Tester/Tester/SimpleServer.cpp:660-671 | a ChangeCipherSpec record is the only record shown, and the packet does not decode |
| CommandLine.FindOptionFrom | src/tls/cmitls.c:94-96 | the table scan finds the first row at or after `from` with the switch, or reports that none has it |
| CommandLine.FindOption | src/tls/cmitls.c:94-96 | the parser's row is the first row with the switch; None means no row has it |
| CommandLine.ApplyOption | src/tls/cmitls.c:90-113 | the parser returns -1, 1 or 2; -1 leaves the option variables unchanged; 2 needs a following argument |
| CommandLine.ApplyOptionByRow | src/tls/cmitls.c:90-113 | with distinct switches the row carrying the switch decides: a string option stores the next argument and consumes 2, or fails when none is left; a boolean option sets its flag and consumes 1 |
| CommandLine.UnknownOptionFails | src/tls/cmitls.c:111-112 | an unknown switch fails and changes nothing |
| CommandLine.Scan | src/tls/cmitls.c:117-151 | the argument loop returns 0 or -1 |
| CommandLine.ConsumedIgnoresValues | src/tls/cmitls.c:90-113 | how many arguments the parser consumes does not depend on option values already set |
| CommandLine.ScanFillsSlots | src/tls/cmitls.c:123-138 | the loop succeeds exactly when every switch parses and the positionals fit the free slots; the slots then hold the old positionals followed by the new ones, in order, with switch values skipped |
| CommandLine.ScanKeepsFlags | src/tls/cmitls.c:123-138 | the loop never clears a flag |
| CommandLine.ApplyOptionKeepsFlags | src/tls/cmitls.c:104-105 | the parser only ever adds flags |
| CommandLine.LeadingDigits | src/tls/cmitls.c:146 | the port conversion reads the longest run of digits at the front of the argument |
| CommandLine.DecimalString | src/tls/cmitls.c:146 | a decimal spelling is non-empty and made of digits |
| CommandLine.LeadingDigitsOfDigits | src/tls/cmitls.c:146 | an all-digit argument is read to its end |
| CommandLine.AtoiReadsDecimal | src/tls/cmitls.c:146 | a port written in decimal is read back as that number |
| CommandLine.DigitsValueOfDecimal | src/tls/cmitls.c:146 | the value of a number's decimal spelling is the number |
| CommandLine.Arguments.constructor | src/tls/cmitls.c:45-50 | at program start no option is set and no positional slot is filled |
| CommandLine.Arguments.ParseArg | src/tls/cmitls.c:90-113 | the option parser's return value and new option variables are those ApplyOption gives; the positionals are untouched |
| CommandLine.Arguments.ScanArgs | src/tls/cmitls.c:121-138 | the loop from argument 1 returns the status, and leaves the state, that Scan gives from the old state |
| TlsCli.OptionsDistinct | src/tls/cmitls.c:25-43 | no two switches of the driver's table coincide |
| TlsCli.Driver.constructor | src/tls/cmitls.c:22-23 | the driver starts with its 18-row table, two positional slots and nothing set |
| TlsCli.Driver.ParseArgs | src/tls/cmitls.c:117-151 | runs the loop; on success the hostname is the first positional or "0.0.0.0"/"127.0.0.1" for server/client, and the port is atoi of the second positional or 443; on failure hostname and port are unchanged |
| TlsCli.ParseFromStart | src/tls/cmitls.c:117-151 | from program start the parser succeeds exactly when every switch parses and at most two positionals remain, which are then the hostname and port, in order |
| TlsCli.ServerCommandLine | src/tls/cmitls.c:117-151 | `cmitls -s -v 1.3` succeeds, with the server flag set, the version 1.3 recorded and no positional |
| TlsCli.ThirdPositionalRefused | src/tls/cmitls.c:132-135 | a third positional argument makes the parser fail |
| TlsCli.MissingValueRefused | src/tls/cmitls.c:97-102 | a string switch with nothing after it makes the parser fail |
| TlsCli.CheckClientComplete | src/tls/cmitls.c:553-559 | 1 exactly for client completion, with or without early data; otherwise 0 |
| TlsCli.CheckServerComplete | src/tls/cmitls.c:567-573 | 1 exactly for server completion; otherwise 0 |
| TlsCli.CheckIsTicketed | src/tls/cmitls.c:561-565 | always 1: the check is not implemented |
| TlsCli.CheckTrue | src/tls/cmitls.c:575-578 | always 1 |
| TlsCli.CompletionsDisjoint | src/tls/cmitls.c:553-573 | no result completes both the client and the server wait |
| AppCli.OptionsDistinct | apps/cmitls/cmitls.c:30-49 | no two switches of the application's 19-row table coincide |
| AppCli.Driver.constructor | apps/cmitls/cmitls.c:26-28 | the driver starts with its table, three positional slots and nothing set |
| AppCli.Driver.ParseArgs | apps/cmitls/cmitls.c:125-165 | runs the loop; on success the hostname is positional 1 or "0.0.0.0"/"localhost", the port is atoi of positional 2 or 443, and the file is positional 3 or ""; on failure all three are unchanged |
| AppCli.ParseFromStart | apps/cmitls/cmitls.c:125-165 | from program start the parser succeeds exactly when every switch parses and at most three positionals remain: hostname, port and file, in order |
| AppCli.ClientCommandLine | apps/cmitls/cmitls.c:125-165 | `cmitls -hrr example.org 4433 /index.html` succeeds, with the retry flag set and all three slots filled in order |
| AppCli.FourthPositionalRefused | apps/cmitls/cmitls.c:141-146 | a fourth positional argument makes the parser fail |
| AppCli.PvNameAgreesWithDecoder | apps/cmitls/cmitls.c:176-187 | TLS 1.0..1.3 are named as the packet printer names their wire version (3, minor) |
| AppCli.PvNameDistinguishes | apps/cmitls/cmitls.c:176-187 | only versions outside SSL 3.0..TLS 1.3 are "(unknown)", and distinct known versions get distinct names |
| AppCli.LowerHexDigit | apps/cmitls/cmitls.c:171 | a lower-case hex digit whose value reads back as the nibble |
| AppCli.HexText | apps/cmitls/cmitls.c:170-173 | two characters per octet |
| AppCli.HexTextAppend | apps/cmitls/cmitls.c:170-173 | hex text splits where the octets split |
| AppCli.DumpTextAppend | apps/cmitls/cmitls.c:170-173 | a dump splits after any whole number of 32-octet lines |
| AppCli.Dump | apps/cmitls/cmitls.c:167-174 | the dump loop writes lower-case hex pairs with a newline after every 32nd octet and after the last |
| AppCli.ReadHex | apps/cmitls/cmitls.c:171 | reading hex pairs back gives one value per pair |
| AppCli.HexPairReads | apps/cmitls/cmitls.c:171 | a hex pair reads back as its octet |
| AppCli.ReadHexText | apps/cmitls/cmitls.c:170-173 | hex text reads back as the octets |
| AppCli.HexTextHasNoNewline | apps/cmitls/cmitls.c:171 | hex text holds no newline |
| AppCli.DumpReadsBack | apps/cmitls/cmitls.c:167-174 | with its newlines removed, the dump reads back to exactly the buffer dumped |
| AppCli.DumpIsHexText | apps/cmitls/cmitls.c:167-174 | with its newlines removed, the dump is the plain hex text of the buffer |
| AppCli.NegoCallback | apps/cmitls/cmitls.c:189-223 | the callback adds no custom extension; with no cookie it hands out "Hello World" and asks for a retry when retries are forced; otherwise it keeps the cookie and accepts |
| AppCli.RetryThenAccept | apps/cmitls/cmitls.c:205-222 | a retry happens exactly on a first connection with retries forced; it hands out an 11-octet cookie; the callback for the retried hello, which carries that cookie back, accepts and keeps it |

## Left out

- Console output is not modelled: printf/fprintf text, colours, the console copy file, column alignment of the comment strings, and the usage and help printers of both drivers. Reports and dump lines record *what* is shown, not its formatting. A highlighted dump cell is a flag, not a colour escape.
- Bounds checks: the packet printer reads wherever the length fields point and never checks the captured length. The decoders therefore *require* that every octet they read is inside the buffer (`…Readable`). What the C code does on an over-long length field (an out-of-bounds read) is not modelled.
- Enumerator values from headers that are not part of this model (`Tester.h`, `mitlsffi.h`) use the registry values of TLS (RFC 8446 and the IANA TLS registries). The sentinels are 0xFFFF for extension types, cipher suites, signature algorithms and groups, and 255 for TLS_AD_UNKNOWN. The QUIC transport-parameters extension is 0x1A, as apps/cmitls/cmitls.c uses it. `quic_result`, `mitls_version` and `mitls_nego_action` are datatypes, not their numeric codes.
- The message loop inside a handshake record is commented out in the source: only the first message of each handshake record is decoded. The model does the same.
- Certificate contents: the ASN.1 dump (`DecodeASN`) is not modelled beyond the one octet it reads. Certificate k is handed to it at `&Certificate->Certificate[k]`, k octets into its data, and it reads that octet; the readable precondition covers it. Only the certificate lengths are walked.
- Zero-length packets: the C loop bound is computed as `PacketLength - 1` on an unsigned length. The model reads it as "loop while the cursor is before the last octet", so a packet of length 0 or 1 runs no record and returns its length.
- HexDump.DumpPacket: the C reads the octet of every one of a printed line's 16 columns before it tests the column against the packet length. So the last line of a dump reads up to 15 octets past that length: the full-packet dump of the packet decoder, and each Client Hello field dump with the message length as its packet length. The model's `length <= |packet|` does not cover those reads. The capacity of the two output buffers is not modelled either. The whole dump is collected in a 400,001-character buffer, and a printed line with its colour escapes takes about 200 characters, so a dump of roughly 29 KB of packet or more overflows it. The caption is formatted into a 200-character line buffer, so a title longer than about 170 characters overflows that one. The model has no buffer and shows every line and any title.
- Handshake.ShowSessionId: both Hello decoders write the text terminator at positions 2L and 2L + 1 of a global buffer sized for MAX_SESSION_IDENTIFIER_LENGTH octets (the TLS maximum, 32). A wire length L above that maximum (the length octet allows up to 255) therefore writes past that buffer. The model shows the hex of min(L, 28) octets for every L and does not model that out-of-bounds write.
- Sockets, the QUIC and TLS test loops, `main`, the library calls (`FFI_mitls_*`) and the threads of both drivers are I/O or foreign calls and are left out. libs/ffi/ffi.c is not part of this model.
- AppCli.NegoCallback: the transport-parameter lookup it makes through the foreign `FFI_mitls_find_custom_extension`, and the dumps it prints, are left out. The hello-retry option is passed as the parameter `hrr` instead of being read from a global.
- The `ParseArg` of apps/cmitls/cmitls.c:100-121 is the same code as the one in src/tls/cmitls.c. Both drivers use the one `CommandLine.Arguments.ParseArg`, each with its own table.
- CommandLine.LeadingDigits / CommandLine.Atoi: the C `atoi` also skips leading white space, accepts a sign and overflows on long inputs. The model reads only the leading decimal digits, unbounded.
- Argument strings are whole Dafny strings. A C string with an embedded NUL, or a NULL `argv` entry, cannot be expressed.
- HexDump.DumpPacket: the 32-bit `unsigned int` arithmetic of the highlight bounds and the line counter is modelled with unbounded naturals. No realistic packet reaches the wrap-around.
- The extension and record reports store codes only. The table rows and version names printed beside them are derived functions (`Extensions.Title`, `NamedLists.ItemName`, `Records.AlertShown`).

The C code never checks a read against the captured length; the model states the length it needs as a precondition instead.
