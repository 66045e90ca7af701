/**
 * The command line and the negotiation hook of the TLS client/server
 * driver (apps/cmitls/cmitls.c): its option table, its argument parser with
 * three positional slots (hostname, port, file) and their defaults, the
 * protocol-version names, the hex dump of a buffer, and the decision the
 * negotiation callback takes about cookies and hello retries.
 */
module AppCli {

  import opened Bytes
  import opened Wrappers
  import opened CommandLine
  import opened Versions

  /** The driver's switches, in table order. */
  const Options: seq<OptionDef> := [
      OptionDef("-v", "version", StringOption),
      OptionDef("-mv", "minversion", StringOption),
      OptionDef("-s", "isserver", BoolOption),
      OptionDef("-0rtt", "0rtt", BoolOption),
      OptionDef("-hrr", "hrr", BoolOption),
      OptionDef("-psk", "psk", StringOption),
      OptionDef("-ticket", "ticket", StringOption),
      OptionDef("-offerpsk", "offerpsk", StringOption),
      OptionDef("-verify", "verify", BoolOption),
      OptionDef("-noems", "noems", BoolOption),
      OptionDef("-ciphers", "ciphers", StringOption),
      OptionDef("-sigalgs", "sigalgs", StringOption),
      OptionDef("-alpn", "alpn", StringOption),
      OptionDef("-reconnect", "reconnect", BoolOption),
      OptionDef("-groups", "groups", StringOption),
      OptionDef("-cert", "cert", StringOption),
      OptionDef("-key", "key", StringOption),
      OptionDef("-CAFile", "cafile", StringOption),
      OptionDef("-quiet", "quiet", BoolOption)
    ]

  /** Positional slots: hostname, then port, then file. */
  const Slots: nat := 3

  /** The port used when the command line names none. */
  const DefaultPort: int := 443

  /** No two switches of the table coincide, so each switch selects exactly one row. */
  lemma OptionsDistinct()
    ensures DistinctNames(Options)
  {
    forall i, j | 0 <= i < j < |Options|
      ensures Options[i].name != Options[j].name
    {
      // the length and the letter after the dash already tell the switches apart
      assert |Options[i].name| != |Options[j].name| || Options[i].name[1] != Options[j].name[1];
    }
  }

  /** The host used when the command line names none: any interface for a server, localhost for a client. */
  function DefaultHostname(isServer: bool): string
  {
    if isServer then "0.0.0.0" else "localhost"
  }

  /** The driver's settings: its option variables, and the hostname, port and file it ends up with. */
  class Driver {
    const args: Arguments
    var hostname: string
    var port: int
    var file: string

    constructor ()
      ensures fresh(args) && args.table == Options && args.slots == Slots
      ensures args.State() == ScanState(map[], {}, [])
    {
      args := new Arguments(Options, Slots);
    }

    /**
     * Parses the command line: runs the argument loop, and on success sets
     * the hostname, port and file from the first three positionals, or
     * else the default for the mode, 443 and the empty file name. Returns
     * 0, or -1 with the three settings left as they were.
     */
    method ParseArgs(argv: seq<string>) returns (result: int)
      requires args.table == Options && args.slots == Slots
      modifies this, args
      ensures ScanOutcome(result, args.State()) == Scan(Options, Slots, argv, 1, old(args.State()))
      ensures result == 0 ==>
        hostname == (if |args.positionals| >= 1 then args.positionals[0] else DefaultHostname("isserver" in args.flags))
      ensures result == 0 ==>
        port == (if |args.positionals| >= 2 then Atoi(args.positionals[1]) else DefaultPort)
      ensures result == 0 ==> file == (if |args.positionals| >= 3 then args.positionals[2] else "")
      ensures result != 0 ==> hostname == old(hostname) && port == old(port) && file == old(file)
    {
      result := args.ScanArgs(argv);
      if result == -1 {
        return;
      }
      if |args.positionals| >= 1 {
        hostname := args.positionals[0];
      } else {
        hostname := DefaultHostname("isserver" in args.flags);
      }
      if |args.positionals| >= 2 {
        port := Atoi(args.positionals[1]);
      } else {
        port := DefaultPort;
      }
      if |args.positionals| >= 3 {
        file := args.positionals[2];
      } else {
        file := "";
      }
    }
  }

  /**
   * From program start, the parser succeeds exactly when every switch
   * parses and at most three positionals remain once switch values are
   * skipped; those are then the hostname, port and file slots, in order.
   */
  lemma ParseFromStart(argv: seq<string>)
    ensures Scan(Options, Slots, argv, 1, ScanState(map[], {}, [])).status == 0 <==>
      Positionals(Options, argv, 1).Some? && |Positionals(Options, argv, 1).value| <= Slots
    ensures Scan(Options, Slots, argv, 1, ScanState(map[], {}, [])).status == 0 ==>
      Scan(Options, Slots, argv, 1, ScanState(map[], {}, [])).state.positionals == Positionals(Options, argv, 1).value
  {
    ScanFillsSlots(Options, Slots, argv, 1, ScanState(map[], {}, []));
  }

  /** A client given host, port and file, with hello retries forced, fills all three slots. */
  lemma ClientCommandLine()
    ensures Scan(Options, Slots, ["cmitls", "-hrr", "example.org", "4433", "/index.html"], 1, ScanState(map[], {}, []))
         == ScanOutcome(0, ScanState(map[], {"hrr"}, ["example.org", "4433", "/index.html"]))
  {
    var argv := ["cmitls", "-hrr", "example.org", "4433", "/index.html"];
    assert FindOption(Options, "-hrr") == Some(4);
    assert Scan(Options, Slots, argv, 1, ScanState(map[], {}, [])) == Scan(Options, Slots, argv, 2, ScanState(map[], {"hrr"}, []));
  }

  /** A fourth positional argument is refused. */
  lemma FourthPositionalRefused()
    ensures Scan(Options, Slots, ["cmitls", "localhost", "443", "f", "extra"], 1, ScanState(map[], {}, [])).status == -1
  {
  }

  /** The protocol versions the TLS library reports to the negotiation callback. */
  datatype ProtocolVersion = SSL3 | TLS1p0 | TLS1p1 | TLS1p2 | TLS1p3 | OtherVersion(code: int)

  /** The printed name of a protocol version. */
  function PvName(pv: ProtocolVersion): string
  {
    match pv
    case SSL3 => "SSL 3.0"
    case TLS1p0 => "TLS 1.0"
    case TLS1p1 => "TLS 1.1"
    case TLS1p2 => "TLS 1.2"
    case TLS1p3 => "TLS 1.3"
    case OtherVersion(_) => "(unknown)"
  }

  /** The version field on the wire (major 3) for the TLS versions. */
  function WireMinor(pv: ProtocolVersion): Byte
    requires pv.TLS1p0? || pv.TLS1p1? || pv.TLS1p2? || pv.TLS1p3?
  {
    match pv
    case TLS1p0 => 1
    case TLS1p1 => 2
    case TLS1p2 => 3
    case TLS1p3 => 4
  }

  /** The TLS versions are named as the packet decoder names their wire version (3, minor). */
  lemma PvNameAgreesWithDecoder(pv: ProtocolVersion)
    requires pv.TLS1p0? || pv.TLS1p1? || pv.TLS1p2? || pv.TLS1p3?
    ensures PvName(pv) == GetVersionString(3, WireMinor(pv))
  {
  }

  /** Only versions outside SSL 3.0 .. TLS 1.3 are unknown, and distinct known versions get distinct names. */
  lemma PvNameDistinguishes(a: ProtocolVersion, b: ProtocolVersion)
    ensures PvName(a) == "(unknown)" <==> a.OtherVersion?
    ensures !a.OtherVersion? && !b.OtherVersion? && a != b ==> PvName(a) != PvName(b)
  {
    if !a.OtherVersion? && !b.OtherVersion? && a != b {
      assert PvName(a)[|PvName(a)| - 1] != PvName(b)[|PvName(b)| - 1] || PvName(a)[0] != PvName(b)[0];
    }
    if !a.OtherVersion? {
      assert PvName(a)[0] != '(';
    }
  }

  /** The lower-case hex digit for 0..15. */
  function LowerHexDigit(n: nat): (c: char)
    requires n < 16
    ensures ('0' <= c <= '9' || 'a' <= c <= 'f') && LowerDigitValue(c) == n
  {
    if n < 10 then ('0' as int + n) as char else ('a' as int + n - 10) as char
  }

  /** An octet as two lower-case hex digits. */
  function HexPair(b: Byte): string
  {
    [LowerHexDigit(b / 16), LowerHexDigit(b % 16)]
  }

  /** Octets as hex digit pairs, in order, with nothing between them. */
  function HexText(octets: seq<Byte>): (text: string)
    ensures |text| == 2 * |octets|
  {
    if |octets| == 0 then ""
    else HexText(octets[..|octets| - 1]) + HexPair(octets[|octets| - 1])
  }

  /** The dump of a buffer: one line of hex pairs per 32 octets, each line ended by a newline, the last one shorter. */
  function DumpText(octets: seq<Byte>): string
  {
    if |octets| == 0 then ""
    else if |octets| <= 32 then HexText(octets) + "\n"
    else HexText(octets[..32]) + "\n" + DumpText(octets[32..])
  }

  /** Hex text splits where the octets split. */
  lemma {:induction false} HexTextAppend(xs: seq<Byte>, ys: seq<Byte>)
    ensures HexText(xs + ys) == HexText(xs) + HexText(ys)
    decreases |ys|
  {
    if |ys| == 0 {
      assert xs + ys == xs;
    } else {
      var last := |ys| - 1;
      var whole := xs + ys;
      assert whole[..|whole| - 1] == xs + ys[..last];
      assert whole[|whole| - 1] == ys[last];
      HexTextAppend(xs, ys[..last]);
      calc {
        HexText(whole);
        HexText(xs + ys[..last]) + HexPair(ys[last]);
        HexText(xs) + HexText(ys[..last]) + HexPair(ys[last]);
        HexText(xs) + HexText(ys);
      }
    }
  }

  /** A dump splits after any whole number of 32-octet lines. */
  lemma {:induction false} DumpTextAppend(xs: seq<Byte>, ys: seq<Byte>)
    requires |xs| % 32 == 0
    ensures DumpText(xs + ys) == DumpText(xs) + DumpText(ys)
    decreases |xs|
  {
    if |xs| == 0 {
      assert xs + ys == ys;
    } else {
      var whole := xs + ys;
      assert whole[..32] == xs[..32];
      assert whole[32..] == xs[32..] + ys;
      DumpTextAppend(xs[32..], ys);
      if |xs| == 32 {
        assert xs[32..] == [] && xs[..32] == xs;
        if |ys| == 0 {
          assert whole == xs;
        } else {
          calc {
            DumpText(whole);
            HexText(xs) + "\n" + DumpText(ys);
          }
        }
      } else {
        calc {
          DumpText(whole);
          HexText(xs[..32]) + "\n" + DumpText(xs[32..] + ys);
          HexText(xs[..32]) + "\n" + (DumpText(xs[32..]) + DumpText(ys));
        }
      }
    }
  }

  /** Ending the line that starts at `start` after octet `i` gives the dump of the octets up to and including `i`. */
  lemma EndLine(buffer: seq<Byte>, start: nat, i: nat, text: string)
    requires start % 32 == 0 && start <= i < |buffer| && i - start < 32
    requires text == DumpText(buffer[..start]) + HexText(buffer[start..i + 1])
    ensures text + "\n" == DumpText(buffer[..i + 1])
  {
    assert buffer[..i + 1] == buffer[..start] + buffer[start..i + 1];
    DumpTextAppend(buffer[..start], buffer[start..i + 1]);
  }

  /** Adding an octet to the current line adds its hex pair. */
  lemma ExtendLine(buffer: seq<Byte>, start: nat, i: nat, text: string)
    requires start <= i < |buffer|
    requires text == DumpText(buffer[..start]) + HexText(buffer[start..i])
    ensures text + HexPair(buffer[i]) == DumpText(buffer[..start]) + HexText(buffer[start..i + 1])
  {
    assert buffer[start..i + 1][..i - start] == buffer[start..i];
  }

  /** Where the octet after `i` falls in its 32-octet line. */
  lemma NextColumn(i: nat)
    ensures i % 32 == 31 ==> (i + 1) % 32 == 0
    ensures i % 32 != 31 ==> (i + 1) % 32 == i % 32 + 1
  {
  }

  /**
   * Dumps a buffer as lower-case hex, two digits per octet, with a newline
   * after every 32nd octet and after the last one.
   */
  method Dump(buffer: seq<Byte>) returns (text: string)
    ensures text == DumpText(buffer)
  {
    text := "";
    var i := 0;
    ghost var start := 0;
    assert buffer[..0] == [] && buffer[0..0] == [];
    while i < |buffer|
      invariant start <= i <= |buffer|
      invariant i < |buffer| ==> start % 32 == 0 && i - start == i % 32
      invariant i < |buffer| ==> text == DumpText(buffer[..start]) + HexText(buffer[start..i])
      invariant i == |buffer| ==> text == DumpText(buffer)
    {
      ExtendLine(buffer, start, i, text);
      NextColumn(i);
      text := text + HexPair(buffer[i]);
      if i % 32 == 31 || i == |buffer| - 1 {
        EndLine(buffer, start, i, text);
        text := text + "\n";
        if i + 1 < |buffer| {
          start := i + 1;
          assert buffer[start..start] == [];
        } else {
          assert buffer[..i + 1] == buffer;
        }
      }
      i := i + 1;
    }
  }

  /** The text with its newlines taken out. */
  function WithoutNewlines(text: string): string
  {
    if |text| == 0 then ""
    else if text[0] == '\n' then WithoutNewlines(text[1..])
    else [text[0]] + WithoutNewlines(text[1..])
  }

  lemma {:induction false} WithoutNewlinesAppend(a: string, b: string)
    ensures WithoutNewlines(a + b) == WithoutNewlines(a) + WithoutNewlines(b)
    decreases |a|
  {
    if |a| == 0 {
      assert a + b == b;
    } else {
      assert (a + b)[0] == a[0];
      assert (a + b)[1..] == a[1..] + b;
      WithoutNewlinesAppend(a[1..], b);
    }
  }

  /** A hex pair holds no newline. */
  lemma HexPairHasNoNewline(b: Byte)
    ensures WithoutNewlines(HexPair(b)) == HexPair(b)
  {
    var pair := HexPair(b);
    assert pair[1..][1..] == "";
    assert WithoutNewlines(pair[1..]) == [pair[1]];
  }

  /** Hex text holds no newline. */
  lemma {:induction false} HexTextHasNoNewline(octets: seq<Byte>)
    ensures WithoutNewlines(HexText(octets)) == HexText(octets)
    decreases |octets|
  {
    if |octets| > 0 {
      var pair := HexPair(octets[|octets| - 1]);
      HexTextHasNoNewline(octets[..|octets| - 1]);
      WithoutNewlinesAppend(HexText(octets[..|octets| - 1]), pair);
      HexPairHasNoNewline(octets[|octets| - 1]);
    }
  }

  /** The value of a lower-case hex digit. */
  function LowerDigitValue(c: char): int
  {
    if '0' <= c <= '9' then c as int - '0' as int
    else if 'a' <= c <= 'f' then c as int - 'a' as int + 10
    else 0
  }

  /** Reads hex text back into octet values, two digits per octet. */
  function ReadHex(text: string): (values: seq<int>)
    requires |text| % 2 == 0
    ensures |values| == |text| / 2
  {
    if |text| == 0 then []
    else ReadHex(text[..|text| - 2]) + [LowerDigitValue(text[|text| - 2]) * 16 + LowerDigitValue(text[|text| - 1])]
  }

  /** Reading a hex pair back gives its octet. */
  lemma HexPairReads(b: Byte)
    ensures LowerDigitValue(HexPair(b)[0]) * 16 + LowerDigitValue(HexPair(b)[1]) == b
  {
  }

  lemma {:induction false} ReadHexText(octets: seq<Byte>)
    ensures ReadHex(HexText(octets)) == octets
    decreases |octets|
  {
    if |octets| > 0 {
      var init := octets[..|octets| - 1];
      var last := octets[|octets| - 1];
      var text := HexText(octets);
      assert text == HexText(init) + HexPair(last);
      assert text[..|text| - 2] == HexText(init);
      assert text[|text| - 2..] == HexPair(last);
      ReadHexText(init);
      HexPairReads(last);
      assert octets == init + [last];
    }
  }

  /** The dump holds the whole buffer: with the newlines taken out, it reads back to the octets dumped. */
  lemma {:induction false} DumpReadsBack(octets: seq<Byte>)
    ensures |WithoutNewlines(DumpText(octets))| % 2 == 0
    ensures ReadHex(WithoutNewlines(DumpText(octets))) == octets
    decreases |octets|
  {
    DumpIsHexText(octets);
    ReadHexText(octets);
  }

  lemma {:induction false} DumpIsHexText(octets: seq<Byte>)
    ensures WithoutNewlines(DumpText(octets)) == HexText(octets)
    decreases |octets|
  {
    if |octets| > 0 {
      var line := if |octets| <= 32 then octets else octets[..32];
      HexTextHasNoNewline(line);
      WithoutNewlinesAppend(HexText(line), "\n");
      if |octets| > 32 {
        WithoutNewlinesAppend(HexText(line) + "\n", DumpText(octets[32..]));
        DumpIsHexText(octets[32..]);
        assert octets == line + octets[32..];
        HexTextAppend(line, octets[32..]);
      }
    }
  }

  /** What the negotiation callback tells the library. */
  datatype NegoAction = NegoAccept | NegoRetry

  /** "Hello World" as octets: the application cookie the callback hands out. */
  const HelloWorldCookie: seq<Byte> := [72, 101, 108, 108, 111, 32, 87, 111, 114, 108, 100]

  /** The callback's decision: the action, how many custom extensions it adds, and the cookie it leaves. */
  datatype NegoDecision = NegoDecision(action: NegoAction, customExtensions: nat, cookie: Option<seq<Byte>>)

  /**
   * The negotiation decision: never any custom extension; with no cookie
   * yet (a first connection) hand out "Hello World" and ask for a hello
   * retry when retries are forced; otherwise keep the cookie and accept.
   */
  function Negotiate(cookie: Option<seq<Byte>>, hrr: bool): NegoDecision
  {
    if cookie.None? then
      NegoDecision(if hrr then NegoRetry else NegoAccept, 0, Some(HelloWorldCookie))
    else NegoDecision(NegoAccept, 0, cookie)
  }

  /**
   * The negotiation callback for a handshake at `version` with the client's
   * extensions `offered`: writes its decision through the cookie and
   * custom-extension out-parameters and returns the action.
   */
  method NegoCallback(version: ProtocolVersion, offered: seq<Byte>, cookie: Option<seq<Byte>>, hrr: bool)
    returns (action: NegoAction, customExtensions: nat, newCookie: Option<seq<Byte>>)
    ensures NegoDecision(action, customExtensions, newCookie) == Negotiate(cookie, hrr)
  {
    customExtensions := 0;
    newCookie := cookie;
    if cookie.None? {
      newCookie := Some(HelloWorldCookie);
      if hrr {
        return NegoRetry, customExtensions, newCookie;
      }
    }
    action := NegoAccept;
  }

  /**
   * A retry happens exactly on a first connection with retries forced; it
   * hands out an 11-octet cookie, and the callback for the retried hello,
   * which carries that cookie back, accepts and keeps it.
   */
  lemma RetryThenAccept(cookie: Option<seq<Byte>>, hrr: bool)
    ensures Negotiate(cookie, hrr).action == NegoRetry <==> cookie.None? && hrr
    ensures Negotiate(cookie, hrr).customExtensions == 0
    ensures Negotiate(cookie, hrr).cookie.Some?
    ensures cookie.None? ==> |Negotiate(cookie, hrr).cookie.value| == 11
    ensures Negotiate(Negotiate(cookie, hrr).cookie, hrr) == NegoDecision(NegoAccept, 0, Negotiate(cookie, hrr).cookie)
  {
  }
}
