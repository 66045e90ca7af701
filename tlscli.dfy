/**
 * The command line of the QUIC/TLS test driver (src/tls/cmitls.c): its
 * option table, its argument parser with two positional slots (hostname,
 * port) and their defaults, and the predicates the QUIC receive loop waits on.
 */
module TlsCli {

  import opened Wrappers
  import opened CommandLine

  /** The driver's switches, in table order. */
  const Options: seq<OptionDef> := [
      OptionDef("-v", "version", StringOption),
      OptionDef("-mv", "minversion", StringOption),
      OptionDef("-s", "isserver", BoolOption),
      OptionDef("-0rtt", "0rtt", BoolOption),
      OptionDef("-psk", "psk", StringOption),
      OptionDef("-ticket", "ticket", StringOption),
      OptionDef("-offerpsk", "offerpsk", StringOption),
      OptionDef("-verify", "verify", BoolOption),
      OptionDef("-noems", "noems", BoolOption),
      OptionDef("-ciphers", "ciphers", StringOption),
      OptionDef("-sigalgs", "sigalgs", StringOption),
      OptionDef("-alpn", "alpn", StringOption),
      OptionDef("-quic", "quic", BoolOption),
      OptionDef("-reconnect", "reconnect", BoolOption),
      OptionDef("-groups", "groups", StringOption),
      OptionDef("-cert", "cert", StringOption),
      OptionDef("-key", "key", StringOption),
      OptionDef("-CAFile", "cafile", StringOption)
    ]

  /** Positional slots: hostname, then port. */
  const Slots: nat := 2

  /** The port used when the command line names none. */
  const DefaultPort: int := 443

  /** No two switches of the table coincide, so each switch selects exactly one row. */
  lemma OptionsDistinct()
    ensures DistinctNames(Options)
  {
    forall i, j | 0 <= i < j < |Options|
      ensures Options[i].name != Options[j].name
    {
      // the length and the letter after the dash already tell the switches apart
      assert |Options[i].name| != |Options[j].name| || Options[i].name[1] != Options[j].name[1];
    }
  }

  /** The address used when the command line names no hostname: any interface for a server, loopback for a client. */
  function DefaultHostname(isServer: bool): string
  {
    if isServer then "0.0.0.0" else "127.0.0.1"
  }

  /** The driver's settings: its option variables, and the hostname and port it ends up with. */
  class Driver {
    const args: Arguments
    var hostname: string
    var port: int

    constructor ()
      ensures fresh(args) && args.table == Options && args.slots == Slots
      ensures args.State() == ScanState(map[], {}, [])
    {
      args := new Arguments(Options, Slots);
    }

    /**
     * Parses the command line: runs the argument loop, and on success sets
     * the hostname from the first positional or the default for the mode,
     * and the port from the second positional or 443. Returns 0, or -1
     * with the hostname and port left as they were.
     */
    method ParseArgs(argv: seq<string>) returns (result: int)
      requires args.table == Options && args.slots == Slots
      modifies this, args
      ensures ScanOutcome(result, args.State()) == Scan(Options, Slots, argv, 1, old(args.State()))
      ensures result == 0 ==>
        hostname == (if |args.positionals| >= 1 then args.positionals[0] else DefaultHostname("isserver" in args.flags))
      ensures result == 0 ==>
        port == (if |args.positionals| >= 2 then Atoi(args.positionals[1]) else DefaultPort)
      ensures result != 0 ==> hostname == old(hostname) && port == old(port)
    {
      result := args.ScanArgs(argv);
      if result == -1 {
        return;
      }
      if |args.positionals| >= 1 {
        hostname := args.positionals[0];
      } else {
        hostname := DefaultHostname("isserver" in args.flags);
      }
      if |args.positionals| >= 2 {
        port := Atoi(args.positionals[1]);
      } else {
        port := DefaultPort;
      }
    }
  }

  /**
   * From program start, the parser succeeds exactly when every switch
   * parses and at most two positionals remain once switch values are
   * skipped; those are then the hostname and port slots, in order.
   */
  lemma ParseFromStart(argv: seq<string>)
    ensures Scan(Options, Slots, argv, 1, ScanState(map[], {}, [])).status == 0 <==>
      Positionals(Options, argv, 1).Some? && |Positionals(Options, argv, 1).value| <= Slots
    ensures Scan(Options, Slots, argv, 1, ScanState(map[], {}, [])).status == 0 ==>
      Scan(Options, Slots, argv, 1, ScanState(map[], {}, [])).state.positionals == Positionals(Options, argv, 1).value
  {
    ScanFillsSlots(Options, Slots, argv, 1, ScanState(map[], {}, []));
  }

  /** A server started with a version and no positionals listens on any interface, port 443, version recorded. */
  lemma ServerCommandLine()
    ensures Scan(Options, Slots, ["cmitls", "-s", "-v", "1.3"], 1, ScanState(map[], {}, []))
         == ScanOutcome(0, ScanState(map["version" := "1.3"], {"isserver"}, []))
  {
    var argv := ["cmitls", "-s", "-v", "1.3"];
    assert FindOption(Options, "-s") == Some(2);
    assert FindOption(Options, "-v") == Some(0);
    assert Scan(Options, Slots, argv, 1, ScanState(map[], {}, [])) == Scan(Options, Slots, argv, 2, ScanState(map[], {"isserver"}, []));
    assert argv[3..] == ["1.3"];
  }

  /** A third positional argument is refused. */
  lemma ThirdPositionalRefused()
    ensures Scan(Options, Slots, ["cmitls", "localhost", "443", "extra"], 1, ScanState(map[], {}, [])).status == -1
  {
  }

  /** A string switch at the end of the command line, with no value after it, is refused. */
  lemma MissingValueRefused()
    ensures Scan(Options, Slots, ["cmitls", "-ciphers"], 1, ScanState(map[], {}, [])).status == -1
  {
  }

  /** The outcomes of a QUIC handshake step that the receive loop distinguishes. */
  datatype QuicResult =
    | WouldBlock
    | ErrorLocal
    | ErrorAlert
    | ClientEarly
    | ClientComplete
    | ClientCompleteWithEarlyData
    | ServerAccept
    | ServerAcceptWithEarlyData
    | ServerComplete
    | ErrorOther

  /** 1 when the client side has completed its handshake, with or without early data; else 0. */
  function CheckClientComplete(r: QuicResult): (done: int)
    ensures done == 0 || done == 1
    ensures done == 1 <==> r == ClientComplete || r == ClientCompleteWithEarlyData
  {
    if r == ClientComplete || r == ClientCompleteWithEarlyData then 1 else 0
  }

  /** 1 when the server side has completed its handshake; else 0. */
  function CheckServerComplete(r: QuicResult): (done: int)
    ensures done == 0 || done == 1
    ensures done == 1 <==> r == ServerComplete
  {
    if r == ServerComplete then 1 else 0
  }

  /** Always 1: the ticket check is not implemented, so it accepts every result. */
  function CheckIsTicketed(r: QuicResult): (done: int)
    ensures done == 1
  {
    1
  }

  /** Always 1. */
  function CheckTrue(r: QuicResult): (done: int)
    ensures done == 1
  {
    1
  }

  /** No result completes both sides: the client and server waits stop on disjoint results. */
  lemma CompletionsDisjoint(r: QuicResult)
    ensures !(CheckClientComplete(r) == 1 && CheckServerComplete(r) == 1)
  {
  }
}
