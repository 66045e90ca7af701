/**
 * The hex/ASCII dump the decoder prints for a whole packet and, with a
 * highlight range, for the fields of a Client Hello. The dump has one line
 * per 16 octets: the line's address, a hex column and a character column.
 * Colours and the address's printf text are not modelled; a highlighted
 * octet is recorded as such in the line's cells.
 */
module HexDump {

  import opened Bytes
  import opened Wrappers

  /** Octets per dump line. */
  const OctetCount: nat := 16

  /** One column of a dump line: an octet of the packet, or a blank past its end. */
  datatype Cell = Octet(value: Byte, highlighted: bool) | Blank

  /** A printed line: the offset of its first octet, its cells and its two text columns. */
  datatype DumpLine = DumpLine(address: nat, cells: seq<Cell>, hex: string, ascii: string)

  /** The caption printed before the lines when the title is not empty. */
  datatype Caption = Caption(title: string, packetLength: nat)

  datatype Dump = Dump(caption: Option<Caption>, lines: seq<DumpLine>)

  /** The cell shown for position `pos`; octets in [start, end] are highlighted unless end is 0. */
  function CellAt(packet: seq<Byte>, length: nat, start: nat, end: nat, pos: nat): Cell
    requires length <= |packet|
  {
    if pos < length then Octet(packet[pos], pos >= start && pos <= end && end != 0) else Blank
  }

  /** A cell's three characters in the hex column: two digits and a space, or three spaces. */
  function HexCell(c: Cell): string
  {
    match c
    case Octet(v, _) => [HexDigit(v / 16), HexDigit(v % 16), ' ']
    case Blank => "   "
  }

  /** The hex column, cell by cell, with one more space after every eighth cell. */
  function HexColumn(cells: seq<Cell>): string
  {
    if |cells| == 0 then ""
    else
      var n := |cells| - 1;
      HexColumn(cells[..n]) + HexCell(cells[n]) + (if n % 8 == 7 then " " else "")
  }

  /** A cell's character: printable ASCII (32..126) as itself, another octet as '.', a blank as ' '. */
  function AsciiChar(c: Cell): char
  {
    match c
    case Octet(v, _) => if v > 31 && v < 127 then v as char else '.'
    case Blank => ' '
  }

  function AsciiColumn(cells: seq<Cell>): (text: string)
    ensures |text| == |cells|
  {
    seq(|cells|, i requires 0 <= i < |cells| => AsciiChar(cells[i]))
  }

  /** The cells of the line starting at `address`. */
  function LineCells(packet: seq<Byte>, length: nat, start: nat, end: nat, address: nat): (cells: seq<Cell>)
    requires length <= |packet|
    ensures |cells| == OctetCount
  {
    seq(OctetCount, i requires 0 <= i < OctetCount => CellAt(packet, length, start, end, address + i))
  }

  function LineAt(packet: seq<Byte>, length: nat, start: nat, end: nat, address: nat): DumpLine
    requires length <= |packet|
  {
    var cells := LineCells(packet, length, start, end, address);
    DumpLine(address, cells, HexColumn(cells), AsciiColumn(cells))
  }

  /**
   * Whether the line at `address` is printed: every line when there is no
   * highlight (end 0), else the lines from the one holding `start` to the
   * one holding `end`.
   */
  predicate LinePrinted(start: nat, end: nat, address: nat)
  {
    end == 0 || ((start / OctetCount) * OctetCount <= address && address <= (end / OctetCount) * OctetCount)
  }

  /** The printed lines from `address` on, in address order. */
  function DumpLines(packet: seq<Byte>, length: nat, start: nat, end: nat, address: nat): seq<DumpLine>
    requires length <= |packet|
    decreases length - address
  {
    if address >= length then []
    else
      (if LinePrinted(start, end, address) then [LineAt(packet, length, start, end, address)] else [])
      + DumpLines(packet, length, start, end, address + OctetCount)
  }

  /** The hex column of a line, built cell by cell. */
  method RenderHexColumn(packet: seq<Byte>, length: nat, start: nat, end: nat, address: nat)
    returns (cells: seq<Cell>, hex: string)
    requires length <= |packet|
    ensures cells == LineCells(packet, length, start, end, address)
    ensures hex == HexColumn(cells)
  {
    cells := [];
    hex := "";
    var index := 0;
    while index < OctetCount
      invariant index <= OctetCount
      invariant cells == LineCells(packet, length, start, end, address)[..index]
      invariant hex == HexColumn(cells)
    {
      var cell := CellAt(packet, length, start, end, address + index);
      assert (cells + [cell])[..index] == cells;
      hex := hex + HexCell(cell) + (if index % 8 == 7 then " " else "");
      cells := cells + [cell];
      index := index + 1;
    }
  }

  /** The character column of a line, one character per cell. */
  method RenderAsciiColumn(cells: seq<Cell>) returns (ascii: string)
    ensures ascii == AsciiColumn(cells)
  {
    ascii := "";
    var index := 0;
    while index < |cells|
      invariant index <= |cells|
      invariant ascii == AsciiColumn(cells[..index])
    {
      assert cells[..index + 1] == cells[..index] + [cells[index]];
      ascii := ascii + [AsciiChar(cells[index])];
      index := index + 1;
    }
    assert cells[..index] == cells;
  }

  /** Builds one line: the hex column cell by cell, then the character column. */
  method RenderLine(packet: seq<Byte>, length: nat, start: nat, end: nat, address: nat) returns (line: DumpLine)
    requires length <= |packet|
    ensures line == LineAt(packet, length, start, end, address)
  {
    var cells, hex := RenderHexColumn(packet, length, start, end, address);
    var ascii := RenderAsciiColumn(cells);
    line := DumpLine(address, cells, hex, ascii);
  }

  /**
   * Renders `packet[..length]`: the caption when the title is not empty,
   * then each line that is to be printed.
   */
  method DumpPacket(packet: seq<Byte>, length: nat, start: nat, end: nat, title: string) returns (dump: Dump)
    requires length <= |packet|
    ensures dump.caption == (if |title| > 0 then Some(Caption(title, length)) else None)
    ensures dump.lines == DumpLines(packet, length, start, end, 0)
  {
    var caption := if |title| > 0 then Some(Caption(title, length)) else None;
    var lines: seq<DumpLine> := [];
    var count := 0;
    while count < length
      invariant lines + DumpLines(packet, length, start, end, count) == DumpLines(packet, length, start, end, 0)
      decreases length - count
    {
      if LinePrinted(start, end, count) {
        var line := RenderLine(packet, length, start, end, count);
        lines := lines + [line];
      }
      count := count + OctetCount;
    }
    dump := Dump(caption, lines);
  }

  /** Where cell `i` starts in the hex column: three characters per earlier cell, one more after each eighth. */
  function HexOffset(i: nat): nat
  {
    3 * i + i / 8
  }

  lemma HexOffsetStep(n: nat)
    ensures HexOffset(n + 1) == HexOffset(n) + 3 + (if n % 8 == 7 then 1 else 0)
  {
    assert (n + 1) / 8 == n / 8 + (if n % 8 == 7 then 1 else 0);
  }

  lemma HexOffsetMonotone(i: nat, j: nat)
    requires i < j
    ensures HexOffset(i) + 3 + (if i % 8 == 7 then 1 else 0) <= HexOffset(j)
  {
    HexOffsetStep(i);
    assert (i + 1) / 8 <= j / 8;
  }

  /** The hex column of `n` cells is HexOffset(n) characters long. */
  lemma {:induction false} HexColumnLength(cells: seq<Cell>)
    ensures |HexColumn(cells)| == HexOffset(|cells|)
  {
    if |cells| > 0 {
      HexColumnLength(cells[..|cells| - 1]);
      HexOffsetStep(|cells| - 1);
    }
  }

  /** The last cell's text closes the column, after the text of the others. */
  lemma HexColumnLast(cells: seq<Cell>)
    requires |cells| > 0
    ensures var n := |cells| - 1;
      HexColumn(cells) == HexColumn(cells[..n]) + HexCell(cells[n]) + (if n % 8 == 7 then " " else "")
  {
  }

  lemma SliceOfAppend(a: string, b: string, lo: nat, hi: nat)
    requires lo <= hi <= |a|
    ensures (a + b)[lo .. hi] == a[lo .. hi]
  {
  }

  /** Adding cells leaves the text of the earlier cells in place. */
  lemma HexColumnPrefix(cells: seq<Cell>, lo: nat, hi: nat)
    requires |cells| > 0 && lo <= hi <= |HexColumn(cells[..|cells| - 1])|
    ensures hi <= |HexColumn(cells)|
    ensures HexColumn(cells)[lo .. hi] == HexColumn(cells[..|cells| - 1])[lo .. hi]
  {
    var n := |cells| - 1;
    var head := HexColumn(cells[..n]);
    var cell := HexCell(cells[n]);
    var gap: string := if n % 8 == 7 then " " else "";
    HexColumnLast(cells);
    SliceOfAppend(head + cell, gap, lo, hi);
    SliceOfAppend(head, cell, lo, hi);
  }

  /** The last cell's three characters follow the text of the others. */
  lemma HexColumnLastCell(cells: seq<Cell>)
    requires |cells| > 0
    ensures HexOffset(|cells| - 1) + 3 <= |HexColumn(cells)|
    ensures HexColumn(cells)[HexOffset(|cells| - 1) .. HexOffset(|cells| - 1) + 3] == HexCell(cells[|cells| - 1])
  {
    var n := |cells| - 1;
    var head := HexColumn(cells[..n]);
    var cell := HexCell(cells[n]);
    var gap: string := if n % 8 == 7 then " " else "";
    HexColumnLast(cells);
    HexColumnLength(cells[..n]);
    var o := HexOffset(n);
    SliceOfAppend(head + cell, gap, o, o + 3);
    assert (head + cell)[o .. o + 3] == cell;
  }

  /** Cell `i` occupies the three characters from HexOffset(i). */
  lemma {:induction false} HexColumnCell(cells: seq<Cell>, i: nat)
    requires i < |cells|
    ensures HexOffset(i) + 3 <= |HexColumn(cells)|
    ensures HexColumn(cells)[HexOffset(i) .. HexOffset(i) + 3] == HexCell(cells[i])
  {
    var n := |cells| - 1;
    if i < n {
      var prefix := cells[..n];
      HexColumnCell(prefix, i);
      assert prefix[i] == cells[i];
      HexColumnPrefix(cells, HexOffset(i), HexOffset(i) + 3);
    } else {
      HexColumnLastCell(cells);
    }
  }

  /** After every eighth cell the column holds one more space. */
  lemma {:induction false} HexColumnGap(cells: seq<Cell>, i: nat)
    requires i < |cells| && i % 8 == 7
    ensures HexOffset(i) + 4 <= |HexColumn(cells)|
    ensures HexColumn(cells)[HexOffset(i) + 3] == ' '
  {
    var n := |cells| - 1;
    var prefix := cells[..n];
    HexColumnLast(cells);
    HexColumnLength(prefix);
    if i < n {
      HexColumnGap(prefix, i);
      HexOffsetMonotone(i, n);
    }
  }

  /**
   * Layout of the hex column: three characters per cell (two digits and a
   * space, or three spaces) plus one extra space after every eighth cell.
   */
  lemma HexColumnLayout(cells: seq<Cell>)
    ensures |HexColumn(cells)| == HexOffset(|cells|)
    ensures forall i :: 0 <= i < |cells| ==> HexColumn(cells)[HexOffset(i) .. HexOffset(i) + 3] == HexCell(cells[i])
    ensures forall i :: 0 <= i < |cells| && i % 8 == 7 ==> HexColumn(cells)[HexOffset(i) + 3] == ' '
  {
    HexColumnLength(cells);
    forall i | 0 <= i < |cells|
      ensures HexColumn(cells)[HexOffset(i) .. HexOffset(i) + 3] == HexCell(cells[i])
      ensures i % 8 == 7 ==> HexColumn(cells)[HexOffset(i) + 3] == ' '
    {
      HexColumnCell(cells, i);
      if i % 8 == 7 {
        HexColumnGap(cells, i);
      }
    }
  }

  /**
   * What column `i` of the line at `address` shows: an octet inside the
   * packet as two hex digits that read back as the octet and as itself or
   * '.' in the character column, highlighted exactly when it lies in a
   * non-empty highlight range; a position past the end as blanks in both
   * columns.
   */
  lemma LineColumns(packet: seq<Byte>, length: nat, start: nat, end: nat, address: nat, i: nat)
    requires length <= |packet| && i < OctetCount
    ensures var line := LineAt(packet, length, start, end, address);
      var h := HexOffset(i);
      && |line.hex| == HexOffset(OctetCount) && |line.ascii| == OctetCount
      && (address + i < length ==>
            && ParseHex(line.hex[h .. h + 2]) == [packet[address + i]]
            && line.hex[h + 2] == ' '
            && line.ascii[i] == (if 32 <= packet[address + i] <= 126 then packet[address + i] as char else '.')
            && line.cells[i] == Octet(packet[address + i], end != 0 && start <= address + i <= end))
      && (address + i >= length ==> line.hex[h .. h + 3] == "   " && line.ascii[i] == ' ' && line.cells[i] == Blank)
  {
    var line := LineAt(packet, length, start, end, address);
    var h := HexOffset(i);
    HexColumnLayout(line.cells);
    assert line.hex[h .. h + 3] == HexCell(line.cells[i]);
    if address + i < length {
      var v := packet[address + i];
      assert line.hex[h .. h + 2] == line.hex[h .. h + 3][..2];
      assert line.cells == LineCells(packet, length, start, end, address);
      assert line.cells[i] == CellAt(packet, length, start, end, address + i);
      assert IsHexOf(line.hex[h .. h + 2], [v]);
      HexRoundTrip(line.hex[h .. h + 2], [v]);
    } else {
      assert line.cells == LineCells(packet, length, start, end, address);
      assert line.cells[i] == CellAt(packet, length, start, end, address + i);
      assert line.ascii[i] == AsciiChar(line.cells[i]);
    }
  }

  /**
   * Each of `lines` is the line LineAt renders at a multiple of 16 from
   * `address` up to the length, and one that LinePrinted selects.
   */
  ghost predicate LinesSound(lines: seq<DumpLine>, packet: seq<Byte>, length: nat, start: nat, end: nat, address: nat)
    requires length <= |packet|
  {
    forall k :: 0 <= k < |lines| ==>
      && lines[k] == LineAt(packet, length, start, end, lines[k].address)
      && lines[k].address % OctetCount == 0
      && address <= lines[k].address < length
      && LinePrinted(start, end, lines[k].address)
  }

  /** Every printed line from `address` on is a selected line, rendered by LineAt. */
  lemma {:induction false} DumpLinesSound(packet: seq<Byte>, length: nat, start: nat, end: nat, address: nat)
    requires length <= |packet| && address % OctetCount == 0
    ensures LinesSound(DumpLines(packet, length, start, end, address), packet, length, start, end, address)
    decreases length - address
  {
    if address < length {
      var lines := DumpLines(packet, length, start, end, address);
      var rest := DumpLines(packet, length, start, end, address + OctetCount);
      var first := if LinePrinted(start, end, address) then [LineAt(packet, length, start, end, address)] else [];
      assert lines == first + rest;
      DumpLinesSound(packet, length, start, end, address + OctetCount);
      forall k | |first| <= k < |lines|
        ensures lines[k] == rest[k - |first|]
      {
      }
    }
  }

  /** Every line LinePrinted selects at a multiple of 16 below the length is printed. */
  lemma {:induction false} DumpLinesComplete(packet: seq<Byte>, length: nat, start: nat, end: nat, address: nat, a: nat)
    requires length <= |packet| && address % OctetCount == 0
    requires a % OctetCount == 0 && address <= a < length && LinePrinted(start, end, a)
    ensures exists k :: 0 <= k < |DumpLines(packet, length, start, end, address)|
                     && DumpLines(packet, length, start, end, address)[k].address == a
    decreases length - address
  {
    var lines := DumpLines(packet, length, start, end, address);
    var rest := DumpLines(packet, length, start, end, address + OctetCount);
    var first := if LinePrinted(start, end, address) then [LineAt(packet, length, start, end, address)] else [];
    assert lines == first + rest;
    if a == address {
      assert lines[0].address == a;
    } else {
      DumpLinesComplete(packet, length, start, end, address + OctetCount, a);
      var k :| 0 <= k < |rest| && rest[k].address == a;
      assert lines[|first| + k] == rest[k];
    }
  }

  predicate AddressesIncreasing(lines: seq<DumpLine>)
  {
    forall k, l :: 0 <= k < l < |lines| ==> lines[k].address < lines[l].address
  }

  /** The printed lines come in strictly increasing address order. */
  lemma {:induction false} DumpLinesOrdered(packet: seq<Byte>, length: nat, start: nat, end: nat, address: nat)
    requires length <= |packet| && address % OctetCount == 0
    ensures AddressesIncreasing(DumpLines(packet, length, start, end, address))
    decreases length - address
  {
    if address < length {
      var lines := DumpLines(packet, length, start, end, address);
      var rest := DumpLines(packet, length, start, end, address + OctetCount);
      var first := if LinePrinted(start, end, address) then [LineAt(packet, length, start, end, address)] else [];
      assert lines == first + rest;
      DumpLinesOrdered(packet, length, start, end, address + OctetCount);
      DumpLinesSound(packet, length, start, end, address + OctetCount);
      forall k, l | 0 <= k < l < |lines|
        ensures lines[k].address < lines[l].address
      {
        assert lines[l] == rest[l - |first|];
        if k >= |first| {
          assert lines[k] == rest[k - |first|];
        }
      }
    }
  }

  /** Without a highlight range every line is printed: one per 16 octets, rounded up. */
  lemma {:induction false} UnhighlightedLineCount(packet: seq<Byte>, length: nat, start: nat, address: nat)
    requires length <= |packet| && address % OctetCount == 0 && address <= length
    ensures |DumpLines(packet, length, start, 0, address)| == (length - address + OctetCount - 1) / OctetCount
    decreases length - address
  {
    if address < length {
      if address + OctetCount <= length {
        UnhighlightedLineCount(packet, length, start, address + OctetCount);
      } else {
        assert DumpLines(packet, length, start, 0, address + OctetCount) == [];
      }
    }
  }
}
