/**
 * The record layer of the decoder (RFC 8446 section 5.1): a packet is a run
 * of records, each a 5-octet header (content type, protocol version, 2-octet
 * content length) and its content. Handshake records have their first
 * message decoded; alert records have their level and description shown;
 * every other content type is named and stops the walk.
 */
module Records {

  import opened Bytes
  import opened Wrappers
  import opened Tables
  import opened Handshake
  import opened HexDump

  const ChangeCipherSpecContent: Byte := 20
  const AlertContent: Byte := 21
  const HandshakeContent: Byte := 22
  const ApplicationDataContent: Byte := 23
  const HeartbeatContent: Byte := 24

  /** Octets of a record header: type, version, 2-octet content length. */
  const RecordHeaderLength: nat := 5

  /** What the decoder shows for one record. */
  datatype RecordReport =
    | HandshakeRecord(version: VersionField, contentLength: nat, message: HandshakeReport)
    | AlertRecord(version: VersionField, contentLength: nat, level: Byte, description: Byte)
    | ChangeCipherSpecRecord
    | ApplicationDataRecord
    | HeartbeatRecord
    | UnknownRecord(contentType: Byte)

  /**
   * The alert table row whose text is printed beside an alert's description
   * code; nothing is printed when the scan finds no row.
   */
  function AlertShown(r: RecordReport): Option<AlertEntry>
    requires r.AlertRecord?
  {
    FindAlert(r.description)
  }

  /**
   * The octets the record decoder reads for the record at the start of
   * `rec` lie inside the buffer: the type octet always; the header and the
   * first message for a handshake record; the header, level and description
   * for an alert.
   */
  ghost predicate RecordReadable(rec: seq<Byte>)
  {
    && 1 <= |rec|
    && (rec[0] == HandshakeContent ==> RecordHeaderLength <= |rec| && HandshakeReadable(rec[RecordHeaderLength..]))
    && (rec[0] == AlertContent ==> RecordHeaderLength + 2 <= |rec|)
  }

  /**
   * What the record decoder returns: the content length plus the header for
   * a handshake or alert record, 0 ("stop") for any other content type.
   */
  function RecordLength(rec: seq<Byte>): nat
    requires RecordReadable(rec)
  {
    if rec[0] == HandshakeContent || rec[0] == AlertContent then Be16(rec, 3) + RecordHeaderLength else 0
  }

  /** `r` is what the decoder shows for the record at the start of `rec`. */
  ghost predicate RecordDescribes(r: RecordReport, rec: seq<Byte>)
    requires RecordReadable(rec)
  {
    var contentType := rec[0];
    if contentType == HandshakeContent then
      && r.HandshakeRecord?
      && r.version == VersionAt(rec, 1) && r.contentLength == Be16(rec, 3)
      && HandshakeDescribes(r.message, rec[RecordHeaderLength..])
    else if contentType == AlertContent then
      r == AlertRecord(VersionAt(rec, 1), Be16(rec, 3), rec[5], rec[6])
    else if contentType == ChangeCipherSpecContent then r == ChangeCipherSpecRecord
    else if contentType == ApplicationDataContent then r == ApplicationDataRecord
    else if contentType == HeartbeatContent then r == HeartbeatRecord
    else r == UnknownRecord(contentType)
  }

  /**
   * Decodes the record at the start of `rec`. A handshake record's content
   * length is shown but only its first message is decoded (the message
   * loop is commented out in the decoder); the message decoder never
   * returns 0, so its failure check never fires.
   */
  method DecodeRecord(rec: seq<Byte>) returns (length: nat, report: RecordReport)
    requires RecordReadable(rec)
    ensures length == RecordLength(rec)
    ensures RecordDescribes(report, rec)
  {
    var contentType := rec[0];
    length := 0;
    if contentType == HandshakeContent {
      var contentLength := Be16(rec, 3);
      var consumed, message := DecodeHandshakeRecord(rec[RecordHeaderLength..]);
      report := HandshakeRecord(VersionAt(rec, 1), contentLength, message);
      length := contentLength + RecordHeaderLength;
    } else if contentType == ChangeCipherSpecContent {
      report := ChangeCipherSpecRecord;
    } else if contentType == AlertContent {
      var contentLength := Be16(rec, 3);
      report := AlertRecord(VersionAt(rec, 1), contentLength, rec[5], rec[6]);
      length := contentLength + RecordHeaderLength;
    } else if contentType == ApplicationDataContent {
      report := ApplicationDataRecord;
    } else if contentType == HeartbeatContent {
      report := HeartbeatRecord;
    } else {
      report := UnknownRecord(contentType);
    }
  }

  /** The decoder stops at a record exactly when it is neither a handshake nor an alert record. */
  lemma RecordStops(rec: seq<Byte>)
    requires RecordReadable(rec)
    ensures RecordLength(rec) == 0 <==> rec[0] != HandshakeContent && rec[0] != AlertContent
    ensures RecordLength(rec) != 0 ==> RecordLength(rec) >= RecordHeaderLength
  {
  }

  // ---------------------------------------------------------------------
  // The packet walk

  /** The octets the record decoder reads to find its return value: the type, and the length for 21 and 22. */
  ghost predicate HeaderReadable(packet: seq<Byte>, at: nat)
  {
    && at < |packet|
    && (packet[at] == HandshakeContent || packet[at] == AlertContent ==> at + RecordHeaderLength <= |packet|)
  }

  /** What the record decoder returns for the record at `at`, read from its header alone. */
  function RecordLengthAt(packet: seq<Byte>, at: nat): nat
    requires HeaderReadable(packet, at)
  {
    if packet[at] == HandshakeContent || packet[at] == AlertContent then Be16(packet, at + 3) + RecordHeaderLength else 0
  }

  lemma RecordLengthAtHeader(packet: seq<Byte>, at: nat)
    requires at < |packet| && RecordReadable(packet[at..])
    ensures HeaderReadable(packet, at) && RecordLength(packet[at..]) == RecordLengthAt(packet, at)
  {
    var rec := packet[at..];
    if rec[0] == HandshakeContent || rec[0] == AlertContent {
      assert rec[3] == packet[at + 3] && rec[4] == packet[at + 4];
    }
  }

  /**
   * The record headers the packet loop reads from `cursor` lie inside the
   * buffer. The loop runs while the cursor is before the packet's last
   * octet and stops after a record whose decoder returned 0.
   */
  ghost predicate PacketWalkable(packet: seq<Byte>, length: nat, cursor: nat)
    decreases length - cursor
  {
    cursor + 1 < length ==>
      && HeaderReadable(packet, cursor)
      && (RecordLengthAt(packet, cursor) > 0 ==> PacketWalkable(packet, length, cursor + RecordLengthAt(packet, cursor)))
  }

  /** The offsets of the records the loop decodes from `cursor`, in order. */
  ghost function RecordOffsets(packet: seq<Byte>, length: nat, cursor: nat): seq<nat>
    requires PacketWalkable(packet, length, cursor)
    decreases length - cursor
  {
    if cursor + 1 >= length then []
    else
      var step := RecordLengthAt(packet, cursor);
      [cursor] + (if step == 0 then [] else RecordOffsets(packet, length, cursor + step))
  }

  /** Whether the loop from `cursor` reaches the end of the packet without a record that stops it. */
  ghost predicate PacketDecodes(packet: seq<Byte>, length: nat, cursor: nat)
    requires PacketWalkable(packet, length, cursor)
    decreases length - cursor
  {
    cursor + 1 >= length
    || (var step := RecordLengthAt(packet, cursor);
        step > 0 && PacketDecodes(packet, length, cursor + step))
  }

  /** The record at offset `at` lies readable inside the buffer. */
  ghost predicate RecordReadableAt(packet: seq<Byte>, at: nat)
  {
    at < |packet| && RecordReadable(packet[at..])
  }

  /** Everything the packet decoder reads lies inside the buffer: the headers it walks and the records it decodes. */
  ghost predicate PacketReadable(packet: seq<Byte>, length: nat)
  {
    && PacketWalkable(packet, length, 0)
    && forall k {:trigger RecordReadableAt(packet, RecordOffsets(packet, length, 0)[k])} ::
         0 <= k < |RecordOffsets(packet, length, 0)| ==> RecordReadableAt(packet, RecordOffsets(packet, length, 0)[k])
  }

  /** `r` is what the record decoder shows for the record at offset `at` of the packet. */
  ghost predicate RecordShownAt(r: RecordReport, packet: seq<Byte>, at: nat)
  {
    RecordReadableAt(packet, at) && RecordDescribes(r, packet[at..])
  }

  /** Each of `records` is what the decoder shows for the record at the matching offset. */
  ghost predicate RecordsShown(records: seq<RecordReport>, packet: seq<Byte>, offsets: seq<nat>)
  {
    && |records| == |offsets|
    && forall k {:trigger RecordShownAt(records[k], packet, offsets[k])} ::
         0 <= k < |offsets| ==> RecordShownAt(records[k], packet, offsets[k])
  }

  lemma RecordsShownExtend(records: seq<RecordReport>, r: RecordReport, packet: seq<Byte>, offsets: seq<nat>, at: nat)
    requires RecordsShown(records, packet, offsets) && RecordShownAt(r, packet, at)
    ensures RecordsShown(records + [r], packet, offsets + [at])
  {
    var rs, os := records + [r], offsets + [at];
    forall k | 0 <= k < |os|
      ensures RecordShownAt(rs[k], packet, os[k])
    {
      if k < |offsets| {
        assert rs[k] == records[k] && os[k] == offsets[k];
        assert RecordShownAt(records[k], packet, offsets[k]);
      }
    }
  }

  /** Decoding the record at `cursor` is one step of the walk. */
  lemma RecordOffsetsStep(packet: seq<Byte>, length: nat, cursor: nat) returns (step: nat)
    requires PacketWalkable(packet, length, cursor) && cursor + 1 < length
    ensures step == RecordLengthAt(packet, cursor)
    ensures step > 0 ==> PacketWalkable(packet, length, cursor + step)
    ensures RecordOffsets(packet, length, cursor)
      == [cursor] + (if step == 0 then [] else RecordOffsets(packet, length, cursor + step))
    ensures PacketDecodes(packet, length, cursor) == (step > 0 && PacketDecodes(packet, length, cursor + step))
  {
    step := RecordLengthAt(packet, cursor);
  }

  /**
   * The shape of the walk from `cursor`: it starts there, every record it
   * lists starts before the packet's last octet with a readable header,
   * and each next record starts right after the one before, whose decoder
   * therefore did not return 0.
   */
  ghost predicate OffsetsLayout(packet: seq<Byte>, length: nat, cursor: nat, offsets: seq<nat>)
  {
    && (|offsets| > 0 ==> offsets[0] == cursor)
    && (forall k :: 0 <= k < |offsets| ==> cursor <= offsets[k] && offsets[k] + 1 < length && HeaderReadable(packet, offsets[k]))
    && (forall k :: 0 <= k < |offsets| - 1 ==>
          && HeaderReadable(packet, offsets[k])
          && RecordLengthAt(packet, offsets[k]) > 0
          && offsets[k + 1] == offsets[k] + RecordLengthAt(packet, offsets[k]))
  }

  lemma {:induction false} RecordOffsetsLayout(packet: seq<Byte>, length: nat, cursor: nat)
    requires PacketWalkable(packet, length, cursor)
    ensures OffsetsLayout(packet, length, cursor, RecordOffsets(packet, length, cursor))
    decreases length - cursor
  {
    if cursor + 1 < length {
      var step := RecordLengthAt(packet, cursor);
      var offsets := RecordOffsets(packet, length, cursor);
      if step > 0 {
        var rest := RecordOffsets(packet, length, cursor + step);
        RecordOffsetsLayout(packet, length, cursor + step);
        assert offsets == [cursor] + rest;
        forall k | 0 < k < |offsets|
          ensures offsets[k] == rest[k - 1]
        {
        }
      }
    }
  }

  /** No record at `offsets` makes the decoder return 0. */
  ghost predicate NoneStops(packet: seq<Byte>, offsets: seq<nat>)
  {
    forall k :: 0 <= k < |offsets| ==> HeaderReadable(packet, offsets[k]) && RecordLengthAt(packet, offsets[k]) > 0
  }

  /** The packet decodes exactly when none of the records the walk lists stops it. */
  lemma {:induction false} DecodesIffNoneStops(packet: seq<Byte>, length: nat, cursor: nat)
    requires PacketWalkable(packet, length, cursor)
    ensures PacketDecodes(packet, length, cursor) <==> NoneStops(packet, RecordOffsets(packet, length, cursor))
    decreases length - cursor
  {
    if cursor + 1 < length {
      var step := RecordLengthAt(packet, cursor);
      var offsets := RecordOffsets(packet, length, cursor);
      if step > 0 {
        var rest := RecordOffsets(packet, length, cursor + step);
        DecodesIffNoneStops(packet, length, cursor + step);
        assert offsets == [cursor] + rest;
        if NoneStops(packet, offsets) {
          forall k | 0 <= k < |rest|
            ensures HeaderReadable(packet, rest[k]) && RecordLengthAt(packet, rest[k]) > 0
          {
            assert rest[k] == offsets[k + 1];
          }
        }
      } else {
        assert offsets[0] == cursor;
      }
    }
  }

  /**
   * Where the packet loop stands at `cursor`: its headers from there are
   * readable, it has listed `offsets` of `all` the offsets, and the packet
   * decodes (`decodes`) exactly when the rest of the walk does.
   */
  ghost predicate WalkState(packet: seq<Byte>, length: nat, cursor: nat, all: seq<nat>, offsets: seq<nat>, decodes: bool)
  {
    && PacketWalkable(packet, length, cursor)
    && all == offsets + RecordOffsets(packet, length, cursor)
    && decodes == PacketDecodes(packet, length, cursor)
  }

  /** The record at `cursor` is the next one the walk lists. */
  lemma WalkAt(packet: seq<Byte>, length: nat, cursor: nat, all: seq<nat>, offsets: seq<nat>, decodes: bool)
    requires WalkState(packet, length, cursor, all, offsets, decodes) && cursor + 1 < length
    ensures HeaderReadable(packet, cursor)
    ensures |offsets| < |all| && all[|offsets|] == cursor
  {
    var step := RecordOffsetsStep(packet, length, cursor);
  }

  /** A record that stops the walk is the last one listed, and the packet does not decode. */
  lemma WalkStops(packet: seq<Byte>, length: nat, cursor: nat, all: seq<nat>, offsets: seq<nat>, decodes: bool)
    requires WalkState(packet, length, cursor, all, offsets, decodes) && cursor + 1 < length
    requires RecordLengthAt(packet, cursor) == 0
    ensures all == offsets + [cursor] && !decodes
  {
    var step := RecordOffsetsStep(packet, length, cursor);
  }

  /** After a record that does not stop it, the walk goes on from the next record. */
  lemma WalkGoesOn(packet: seq<Byte>, length: nat, cursor: nat, all: seq<nat>, offsets: seq<nat>, decodes: bool)
    requires WalkState(packet, length, cursor, all, offsets, decodes) && cursor + 1 < length
    requires RecordLengthAt(packet, cursor) > 0
    ensures WalkState(packet, length, cursor + RecordLengthAt(packet, cursor), all, offsets + [cursor], decodes)
  {
    var step := RecordOffsetsStep(packet, length, cursor);
    var rest := RecordOffsets(packet, length, cursor + step);
    assert offsets + ([cursor] + rest) == (offsets + [cursor]) + rest;
  }

  /** At the packet's last octet the walk has listed every offset and the packet decodes. */
  lemma WalkEnds(packet: seq<Byte>, length: nat, cursor: nat, all: seq<nat>, offsets: seq<nat>, decodes: bool)
    requires WalkState(packet, length, cursor, all, offsets, decodes) && cursor + 1 >= length
    ensures all == offsets && decodes
  {
  }

  /** The records the walk has yet to reach, from index `from` of `all` on, are readable. */
  ghost predicate RestReadable(packet: seq<Byte>, all: seq<nat>, from: nat)
  {
    forall k {:trigger RecordReadableAt(packet, all[k])} :: from <= k < |all| ==> RecordReadableAt(packet, all[k])
  }

  /** One iteration of the packet loop: decode the record at `cursor` and add its report. */
  method DecodeNextRecord(packet: seq<Byte>, cursor: nat, records: seq<RecordReport>, ghost offsets: seq<nat>)
    returns (recordLength: nat, extended: seq<RecordReport>)
    requires RecordReadableAt(packet, cursor)
    requires RecordsShown(records, packet, offsets)
    ensures HeaderReadable(packet, cursor) && recordLength == RecordLengthAt(packet, cursor)
    ensures RecordsShown(extended, packet, offsets + [cursor])
  {
    var report;
    recordLength, report := DecodeRecord(packet[cursor..]);
    RecordLengthAtHeader(packet, cursor);
    RecordsShownExtend(records, report, packet, offsets, cursor);
    extended := records + [report];
  }

  /**
   * What holds at the head of the record loop: the walk stands at `cursor`
   * having listed `offsets`, the records still ahead are readable, and
   * `records` shows the records listed so far.
   */
  ghost predicate LoopState(packet: seq<Byte>, length: nat, cursor: nat, all: seq<nat>, offsets: seq<nat>,
                            decodes: bool, records: seq<RecordReport>)
  {
    && WalkState(packet, length, cursor, all, offsets, decodes)
    && RestReadable(packet, all, |offsets|)
    && RecordsShown(records, packet, offsets)
  }

  /**
   * One turn of the record loop: decodes the record at `cursor`. When its
   * decoder returns 0 the walk is over and the packet does not decode;
   * otherwise the loop goes on from the next record.
   */
  method DecodeStep(packet: seq<Byte>, length: nat, cursor: nat, records: seq<RecordReport>,
                    ghost all: seq<nat>, ghost offsets: seq<nat>, ghost decodes: bool)
    returns (recordLength: nat, extended: seq<RecordReport>)
    requires cursor + 1 < length && LoopState(packet, length, cursor, all, offsets, decodes, records)
    ensures recordLength == 0 ==> !decodes && RecordsShown(extended, packet, all)
    ensures recordLength > 0 ==>
      LoopState(packet, length, cursor + recordLength, all, offsets + [cursor], decodes, extended)
  {
    WalkAt(packet, length, cursor, all, offsets, decodes);
    assert RecordReadableAt(packet, all[|offsets|]);
    recordLength, extended := DecodeNextRecord(packet, cursor, records, offsets);
    if recordLength == 0 {
      WalkStops(packet, length, cursor, all, offsets, decodes);
    } else {
      WalkGoesOn(packet, length, cursor, all, offsets, decodes);
    }
  }

  /**
   * The record loop of the packet decoder: decodes records from the start
   * of the packet while the cursor is before its last octet. Returns the
   * packet length when every record decoded, else 0 right after the record
   * that stopped the walk.
   */
  method DecodeRecords(packet: seq<Byte>, length: nat) returns (result: nat, records: seq<RecordReport>)
    requires length <= |packet| && PacketReadable(packet, length)
    ensures result == (if PacketDecodes(packet, length, 0) then length else 0)
    ensures RecordsShown(records, packet, RecordOffsets(packet, length, 0))
  {
    ghost var all := RecordOffsets(packet, length, 0);
    ghost var decodes := PacketDecodes(packet, length, 0);
    var cursor := 0;
    records := [];
    ghost var offsets: seq<nat> := [];
    while cursor + 1 < length
      invariant LoopState(packet, length, cursor, all, offsets, decodes, records)
      decreases length - cursor
    {
      var recordLength;
      recordLength, records := DecodeStep(packet, length, cursor, records, all, offsets, decodes);
      if recordLength == 0 {
        result := 0;
        return;
      }
      offsets := offsets + [cursor];
      cursor := cursor + recordLength;
    }
    WalkEnds(packet, length, cursor, all, offsets, decodes);
    result := length;
  }

  /**
   * Decodes a packet: dumps all of it (no highlight), then runs the record
   * loop over it.
   */
  method DecodePacket(packet: seq<Byte>, length: nat, title: string)
    returns (result: nat, dump: Dump, records: seq<RecordReport>)
    requires length <= |packet| && PacketReadable(packet, length)
    ensures dump.caption == (if |title| > 0 then Some(Caption(title, length)) else None)
    ensures dump.lines == DumpLines(packet, length, 0, 0, 0)
    ensures result == (if PacketDecodes(packet, length, 0) then length else 0)
    ensures RecordsShown(records, packet, RecordOffsets(packet, length, 0))
  {
    dump := DumpPacket(packet, length, 0, 0, title);
    result, records := DecodeRecords(packet, length);
  }

  /** A packet holding a ServerHelloDone handshake record followed by an alert record. */
  function DoneThenAlert(): seq<Byte>
  {
    [22, 3, 3, 0, 4, 14, 0, 0, 0, 21, 3, 3, 0, 2, 2, 10]
  }

  /** The loop visits both records, at 0 and at 9, and the packet decodes to its full length. */
  lemma DoneThenAlertDecodes()
    ensures PacketReadable(DoneThenAlert(), 16)
    ensures RecordOffsets(DoneThenAlert(), 16, 0) == [0, 9]
    ensures PacketDecodes(DoneThenAlert(), 16, 0)
  {
    var p := DoneThenAlert();
    assert RecordLengthAt(p, 0) == 9;
    assert RecordLengthAt(p, 9) == 7;
    assert p[9..][0] == AlertContent;
  }

  /** A ChangeCipherSpec record stops the loop: it is the only record shown and the packet does not decode. */
  lemma ChangeCipherSpecStops()
    ensures PacketReadable([20, 3, 3, 0, 1, 1], 6)
    ensures RecordOffsets([20, 3, 3, 0, 1, 1], 6, 0) == [0]
    ensures !PacketDecodes([20, 3, 3, 0, 1, 1], 6, 0)
  {
    assert RecordLengthAt([20, 3, 3, 0, 1, 1], 0) == 0;
  }
}
