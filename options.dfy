/**
 * The table-driven command-line scanner shared by the two cmitls drivers:
 * an option table of switches, the one-argument parser that looks a switch
 * up and stores its value through the table, and the argument loop that
 * hands switches to it and fills the positional slots in order.
 */
module CommandLine {

  import opened Wrappers

  /** A switch either takes the next argument as its value or sets a flag. */
  datatype OptionKind = StringOption | BoolOption

  /** A row of an option table: the switch as typed, the option variable it sets, and its kind. */
  datatype OptionDef = OptionDef(name: string, variable: string, kind: OptionKind)

  /** No two rows of the table share a switch. */
  predicate DistinctNames(table: seq<OptionDef>)
  {
    forall i, j :: 0 <= i < j < |table| ==> table[i].name != table[j].name
  }

  /** The index of the first row at or after `from` whose switch is `name`. */
  function FindOptionFrom(table: seq<OptionDef>, name: string, from: nat): (found: Option<nat>)
    requires from <= |table|
    ensures found.Some? ==> from <= found.value < |table| && table[found.value].name == name
    ensures found.Some? ==> forall j :: from <= j < found.value ==> table[j].name != name
    ensures found.None? ==> forall j :: from <= j < |table| ==> table[j].name != name
    decreases |table| - from
  {
    if from == |table| then None
    else if table[from].name == name then Some(from)
    else FindOptionFrom(table, name, from + 1)
  }

  /** The row the option parser stops at: the first whose switch is `name`. */
  function FindOption(table: seq<OptionDef>, name: string): (found: Option<nat>)
    ensures found.Some? ==> found.value < |table| && table[found.value].name == name
    ensures found.Some? ==> forall j :: 0 <= j < found.value ==> table[j].name != name
    ensures found.None? ==> forall j :: 0 <= j < |table| ==> table[j].name != name
  {
    FindOptionFrom(table, name, 0)
  }

  /** What one call of the option parser leaves behind: its return value and the option variables. */
  datatype ArgEffect = ArgEffect(consumed: int, strings: map<string, string>, flags: set<string>)

  /**
   * The option parser on switch `name` with the arguments after it: an
   * unknown switch fails (-1); a string option fails when no argument is
   * left and otherwise takes the next argument as its value (2); a boolean
   * option sets its flag (1).
   */
  function ApplyOption(table: seq<OptionDef>, name: string, remaining: seq<string>,
                       strings: map<string, string>, flags: set<string>): (e: ArgEffect)
    ensures e.consumed == -1 || e.consumed == 1 || e.consumed == 2
    ensures e.consumed == -1 ==> e.strings == strings && e.flags == flags
    ensures e.consumed == 2 ==> |remaining| > 0
  {
    match FindOption(table, name)
    case None => ArgEffect(-1, strings, flags)
    case Some(k) =>
      if table[k].kind == BoolOption then ArgEffect(1, strings, flags + {table[k].variable})
      else if |remaining| == 0 then ArgEffect(-1, strings, flags)
      else ArgEffect(2, strings[table[k].variable := remaining[0]], flags)
  }

  /**
   * In a table with distinct switches the parser's outcome is decided by the
   * one row carrying the switch: it fails exactly when there is no such row
   * or the row wants a value and none is left; a boolean row sets its flag
   * and consumes 1, a string row stores the next argument and consumes 2.
   */
  lemma {:induction false} ApplyOptionByRow(table: seq<OptionDef>, name: string, remaining: seq<string>,
                                            strings: map<string, string>, flags: set<string>, k: nat)
    requires DistinctNames(table) && k < |table| && table[k].name == name
    ensures ApplyOption(table, name, remaining, strings, flags) ==
      if table[k].kind == BoolOption then ArgEffect(1, strings, flags + {table[k].variable})
      else if |remaining| == 0 then ArgEffect(-1, strings, flags)
      else ArgEffect(2, strings[table[k].variable := remaining[0]], flags)
  {
    var found := FindOption(table, name);
    assert found.Some?;
    if found.value != k {
      assert false;
    }
  }

  /** An unknown switch fails and changes nothing. */
  lemma UnknownOptionFails(table: seq<OptionDef>, name: string, remaining: seq<string>,
                           strings: map<string, string>, flags: set<string>)
    requires forall j :: 0 <= j < |table| ==> table[j].name != name
    ensures ApplyOption(table, name, remaining, strings, flags) == ArgEffect(-1, strings, flags)
  {
  }

  /** An argument starting with a dash is handed to the option parser. */
  predicate IsSwitch(arg: string)
  {
    |arg| > 0 && arg[0] == '-'
  }

  /** The option variables and the filled positional slots (hostname, port, file, in that order). */
  datatype ScanState = ScanState(strings: map<string, string>, flags: set<string>, positionals: seq<string>)

  /** The argument loop's return value (0 or -1) and the state it leaves, including what it set before failing. */
  datatype ScanOutcome = ScanOutcome(status: int, state: ScanState)

  /**
   * The argument loop from argument `i`: a switch goes to the option parser,
   * whose failure ends the loop with -1 and whose count advances it; any
   * other argument fills the next free positional slot, and fails when all
   * `slots` are taken.
   */
  function Scan(table: seq<OptionDef>, slots: nat, argv: seq<string>, i: nat, s: ScanState): (r: ScanOutcome)
    ensures r.status == 0 || r.status == -1
    decreases |argv| - i
  {
    if i >= |argv| then ScanOutcome(0, s)
    else if IsSwitch(argv[i]) then
      var e := ApplyOption(table, argv[i], argv[i + 1..], s.strings, s.flags);
      var next := ScanState(e.strings, e.flags, s.positionals);
      if e.consumed == -1 then ScanOutcome(-1, next)
      else Scan(table, slots, argv, i + e.consumed, next)
    else if |s.positionals| < slots then
      Scan(table, slots, argv, i + 1, s.(positionals := s.positionals + [argv[i]]))
    else ScanOutcome(-1, s)
  }

  /**
   * The positional arguments the loop meets from `i` when every switch it
   * meets parses (None at the first switch that fails): switch values are
   * skipped, not counted as positionals.
   */
  function Positionals(table: seq<OptionDef>, argv: seq<string>, i: nat): Option<seq<string>>
    decreases |argv| - i
  {
    if i >= |argv| then Some([])
    else if IsSwitch(argv[i]) then
      var e := ApplyOption(table, argv[i], argv[i + 1..], map[], {});
      if e.consumed == -1 then None else Positionals(table, argv, i + e.consumed)
    else
      match Positionals(table, argv, i + 1)
      case None => None
      case Some(rest) => Some([argv[i]] + rest)
  }

  /** How many arguments the option parser consumes does not depend on the option values. */
  lemma ConsumedIgnoresValues(table: seq<OptionDef>, name: string, remaining: seq<string>,
                              strings: map<string, string>, flags: set<string>)
    ensures ApplyOption(table, name, remaining, strings, flags).consumed
         == ApplyOption(table, name, remaining, map[], {}).consumed
  {
  }

  /**
   * The loop succeeds exactly when every switch parses and the positional
   * arguments fit in the free slots; the slots then hold, in order, the
   * positionals already there followed by the ones met.
   */
  lemma {:induction false} ScanFillsSlots(table: seq<OptionDef>, slots: nat, argv: seq<string>, i: nat, s: ScanState)
    requires |s.positionals| <= slots
    ensures Scan(table, slots, argv, i, s).status == 0 <==>
      Positionals(table, argv, i).Some? && |s.positionals| + |Positionals(table, argv, i).value| <= slots
    ensures Scan(table, slots, argv, i, s).status == 0 ==>
      Scan(table, slots, argv, i, s).state.positionals == s.positionals + Positionals(table, argv, i).value
    decreases |argv| - i
  {
    if i < |argv| {
      if IsSwitch(argv[i]) {
        var e := ApplyOption(table, argv[i], argv[i + 1..], s.strings, s.flags);
        ConsumedIgnoresValues(table, argv[i], argv[i + 1..], s.strings, s.flags);
        if e.consumed != -1 {
          ScanFillsSlots(table, slots, argv, i + e.consumed, ScanState(e.strings, e.flags, s.positionals));
        }
      } else if |s.positionals| < slots {
        var s' := s.(positionals := s.positionals + [argv[i]]);
        ScanFillsSlots(table, slots, argv, i + 1, s');
        if Positionals(table, argv, i + 1).Some? {
          assert s'.positionals + Positionals(table, argv, i + 1).value
              == s.positionals + Positionals(table, argv, i).value;
        }
      } else {
        match Positionals(table, argv, i + 1)
        case None =>
        case Some(rest) => assert |Positionals(table, argv, i).value| == 1 + |rest|;
      }
    }
  }

  /** The loop never clears a flag. */
  lemma {:induction false} ScanKeepsFlags(table: seq<OptionDef>, slots: nat, argv: seq<string>, i: nat, s: ScanState)
    ensures s.flags <= Scan(table, slots, argv, i, s).state.flags
    decreases |argv| - i
  {
    if i < |argv| {
      if IsSwitch(argv[i]) {
        var e := ApplyOption(table, argv[i], argv[i + 1..], s.strings, s.flags);
        if e.consumed != -1 {
          ApplyOptionKeepsFlags(table, argv[i], argv[i + 1..], s.strings, s.flags);
          ScanKeepsFlags(table, slots, argv, i + e.consumed, ScanState(e.strings, e.flags, s.positionals));
        }
      } else if |s.positionals| < slots {
        ScanKeepsFlags(table, slots, argv, i + 1, s.(positionals := s.positionals + [argv[i]]));
      }
    }
  }

  /** The option parser only adds flags. */
  lemma ApplyOptionKeepsFlags(table: seq<OptionDef>, name: string, remaining: seq<string>,
                            strings: map<string, string>, flags: set<string>)
    ensures flags <= ApplyOption(table, name, remaining, strings, flags).flags
  {
  }

  /** A decimal digit character. */
  predicate IsDigit(c: char)
  {
    '0' <= c <= '9'
  }

  /** The digits at the front of `s`, where the C library's integer conversion stops reading. */
  function LeadingDigits(s: string): (d: string)
    ensures |d| <= |s| && d == s[..|d|]
    ensures forall k :: 0 <= k < |d| ==> IsDigit(d[k])
    ensures |d| < |s| ==> !IsDigit(s[|d|])
  {
    if |s| == 0 || !IsDigit(s[0]) then []
    else [s[0]] + LeadingDigits(s[1..])
  }

  /** The value of a string of decimal digits, most significant first. */
  function DigitsValue(d: string): (n: nat)
    requires forall k :: 0 <= k < |d| ==> IsDigit(d[k])
  {
    if |d| == 0 then 0
    else
      assert IsDigit(d[|d| - 1]);
      DigitsValue(d[..|d| - 1]) * 10 + (d[|d| - 1] as int - '0' as int)
  }

  /** The port number taken from a port argument: the value of its leading digits. */
  function Atoi(s: string): nat
  {
    DigitsValue(LeadingDigits(s))
  }

  /** The decimal spelling of a number, without leading zeros. */
  function DecimalString(n: nat): (s: string)
    ensures |s| > 0 && forall k :: 0 <= k < |s| ==> IsDigit(s[k])
  {
    if n < 10 then ["0123456789"[n]]
    else DecimalString(n / 10) + ["0123456789"[n % 10]]
  }

  /** A string made only of digits is read to its end. */
  lemma {:induction false} LeadingDigitsOfDigits(s: string)
    requires forall k :: 0 <= k < |s| ==> IsDigit(s[k])
    ensures LeadingDigits(s) == s
  {
    if |s| > 0 {
      LeadingDigitsOfDigits(s[1..]);
    }
  }

  /** Reading back a number's decimal spelling gives the number: a port written as digits is that port. */
  lemma {:induction false} AtoiReadsDecimal(n: nat)
    ensures Atoi(DecimalString(n)) == n
  {
    LeadingDigitsOfDigits(DecimalString(n));
    DigitsValueOfDecimal(n);
  }

  lemma {:induction false} DigitsValueOfDecimal(n: nat)
    ensures DigitsValue(DecimalString(n)) == n
  {
    var s := DecimalString(n);
    if n >= 10 {
      DigitsValueOfDecimal(n / 10);
      assert s[..|s| - 1] == DecimalString(n / 10);
    }
  }

  /**
   * The option variables and positional slots of a cmitls driver, which the
   * parsers update in place. The table and the number of positional slots
   * are fixed per driver.
   */
  class Arguments {
    const table: seq<OptionDef>
    const slots: nat
    var strings: map<string, string>
    var flags: set<string>
    var positionals: seq<string>

    /** Program start: no option set, no positional slot filled. */
    constructor (table: seq<OptionDef>, slots: nat)
      ensures this.table == table && this.slots == slots
      ensures strings == map[] && flags == {} && positionals == []
    {
      this.table := table;
      this.slots := slots;
      strings := map[];
      flags := {};
      positionals := [];
    }

    function State(): ScanState
      reads this
    {
      ScanState(strings, flags, positionals)
    }

    /**
     * Parses one switch `name` with the arguments after it: scans the table
     * for the switch and stores the value or sets the flag through the row
     * found. Returns -1 on failure, else the number of arguments consumed.
     */
    method ParseArg(name: string, remaining: seq<string>) returns (consumed: int)
      modifies this
      ensures ArgEffect(consumed, strings, flags) == ApplyOption(table, name, remaining, old(strings), old(flags))
      ensures positionals == old(positionals)
    {
      var i := 0;
      while i < |table|
        invariant 0 <= i <= |table|
        invariant forall j :: 0 <= j < i ==> table[j].name != name
        invariant strings == old(strings) && flags == old(flags) && positionals == old(positionals)
      {
        if table[i].name == name {
          assert FindOption(table, name) == Some(i);
          if table[i].kind == StringOption {
            if |remaining| > 0 {
              strings := strings[table[i].variable := remaining[0]];
            } else {
              return -1;
            }
            return 2;
          } else {
            flags := flags + {table[i].variable};
            return 1;
          }
        }
        i := i + 1;
      }
      return -1;
    }

    /**
     * The argument loop over `argv` from index 1 (index 0 is the program
     * name). Returns 0, or -1 as soon as a switch fails or a positional
     * finds every slot taken; what it set before failing stays set.
     */
    method ScanArgs(argv: seq<string>) returns (status: int)
      modifies this
      ensures Scan(table, slots, argv, 1, old(State())) == ScanOutcome(status, State())
    {
      var i := 1;
      while i < |argv|
        invariant Scan(table, slots, argv, i, State()) == Scan(table, slots, argv, 1, old(State()))
        decreases |argv| - i
      {
        if IsSwitch(argv[i]) {
          var result := ParseArg(argv[i], argv[i + 1..]);
          if result == -1 {
            return -1;
          }
          i := i + result;
        } else if |positionals| < slots {
          positionals := positionals + [argv[i]];
          i := i + 1;
        } else {
          return -1;
        }
      }
      return 0;
    }
  }
}
