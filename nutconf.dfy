/**
 * class NutConfOptions of common/nutconfbin.cpp as an object: the option
 * store it derives from (held here as the constant `opts`), the public result
 * fields and the two private diagnostics lists.  The constructor runs the
 * validator loop statement by statement and is proved equal to
 * Validation.Validate on the store; the accessors are stated against the
 * store and the command line.
 */
module NutConf {
  import opened Lexical
  import opened OptionStore
  import opened CommandLine
  import opened Validation
  import opened ValidationFacts
  import opened ValidationResults

  /** The six fields of one monitor definition, as getMonitor hands them out. */
  datatype MonitorDef = MonitorDef(ups: string, hostPort: string, powerValue: string,
                                   user: string, password: string, mode: string)

  /** getMonitor's outcome: the std::range_error, or the definition. */
  datatype MonitorLookup = IndexOverflow | Found(def: MonitorDef)

  /** reportInvalid's outcome: the std::logic_error, or the lines written to the error stream. */
  datatype Report = NothingToReport | Lines(lines: seq<string>)

  /** The six fields as a sequence, in getMonitor's order. */
  function Fields(m: MonitorDef): seq<string>
  {
    [m.ups, m.hostPort, m.powerValue, m.user, m.password, m.mode]
  }

  /**
   * The "keep existing definitions" flag passed on when a family was given:
   * existing ones are kept exactly when the add- variant was used.
   */
  function KeepExisting(c: Config, f: Family): bool
  {
    match f
    case Monitor => c.addMonitorCnt > 0
    case Listen => c.addListenCnt > 0
    case Device => c.addDeviceCnt > 0
  }

  /** Keep-existing in terms of the command line: some --add-<family> token is on it. */
  lemma KeepExistingFromArgv(argv: seq<string>)
    ensures KeepExisting(Validate(Scan(argv)), Monitor) <==> "--add-monitor" in argv
    ensures KeepExisting(Validate(Scan(argv)), Listen) <==> "--add-listen" in argv
    ensures KeepExisting(Validate(Scan(argv)), Device) <==> "--add-device" in argv
  {
    CountersFromArgv(argv);
  }

  /**
   * optMode on the command line: NOT_SPECIFIED when `--opt` occurs at most
   * order times, GETTER when its order-th occurrence has no arguments, and
   * otherwise SETTER with that occurrence's arguments.
   */
  lemma OptModeOnArgv(argv: seq<string>, opt: string, order: nat)
    ensures OptModeOf(Scan(argv).double, opt, order).0 == NotSpecified <==> order >= |OccRef(argv, Double, opt)|
    ensures OptModeOf(Scan(argv).double, opt, order).0 == Getter <==>
              order < |OccRef(argv, Double, opt)| && OccRef(argv, Double, opt)[order] == []
    ensures OptModeOf(Scan(argv).double, opt, order).0 != NotSpecified ==>
              OptModeOf(Scan(argv).double, opt, order).1 == OccRef(argv, Double, opt)[order]
  {
    ScanOccurrences(argv, Double, opt);
  }

  /** The error-stream lines for the option errors. */
  function ErrorLines(es: seq<OptionError>): seq<string>
  {
    seq(|es|, k requires 0 <= k < |es| => "Option error: " + Text(es[k]))
  }

  class NutConfOptions {
    /** The Options part of the object. */
    const opts: Options

    var valid: bool
    var autoconfigure: bool
    var isConfigured: bool
    var local: string
    var system: bool
    var mode: string
    var monitors: seq<string>
    var setMonitorCnt: nat
    var addMonitorCnt: nat
    var listenAddrs: seq<ListenAddr>
    var setListenCnt: nat
    var addListenCnt: nat
    var devices: seq<DeviceSpec>
    var setDeviceCnt: nat
    var addDeviceCnt: nat
    /** m_unknown */
    var unknown: seq<string>
    /** m_errors */
    var errors: seq<OptionError>

    /** The object's fields as a Config value. */
    function View(): Config
      reads this
    {
      Config(valid, autoconfigure, isConfigured, local, system, mode,
        monitors, setMonitorCnt, addMonitorCnt, listenAddrs, setListenCnt, addListenCnt,
        devices, setDeviceCnt, addDeviceCnt, unknown, errors)
    }

    /** The object holds what the validator computes from its option store. */
    ghost predicate Valid()
      reads this, opts
    {
      opts.Valid() && View() == Validate(opts.State())
    }

    /** NutConfOptions(argv, argc). */
    constructor (argv: seq<string>)
      ensures Valid() && opts.Argv == argv
      ensures View() == Validate(Scan(argv))
    {
      opts := new Options(argv);
      valid, autoconfigure, isConfigured, local, system, mode := true, false, false, "", false, "";
      monitors, setMonitorCnt, addMonitorCnt := [], 0, 0;
      listenAddrs, setListenCnt, addListenCnt := [], 0, 0;
      devices, setDeviceCnt, addDeviceCnt := [], 0, 0;
      unknown, errors := [], [];
      new;
      // No single-dashed option is known
      var list := opts.StringsSingle();
      CollectUnknownSingle(list);
      assert View() == Initial(opts.single);
      // The double-dashed options, one visit per occurrence, in name order
      list := opts.StringsDouble();
      VisitAll(list);
      assert View() == Fold(Initial(opts.single), LookupIn(opts.double), Names(opts.double));
      Conclude();
    }

    /** The first loop: "-" + name for every single-dashed occurrence. */
    method CollectUnknownSingle(list: seq<string>)
      modifies this
      ensures View() == old(View()).(unknown := old(unknown) + Prefixed("-", list))
    {
      var i := 0;
      while i < |list|
        invariant 0 <= i <= |list|
        invariant View() == old(View()).(unknown := old(unknown) + Prefixed("-", list[..i]))
      {
        unknown := unknown + ["-" + list[i]];
        assert list[..i + 1][..i] == list[..i];
        i := i + 1;
      }
      assert list[..i] == list;
    }

    /** The second loop: one visit per name of the list. */
    method VisitAll(list: seq<string>)
      requires opts.Valid()
      modifies this
      ensures View() == Fold(old(View()), LookupIn(opts.double), list)
    {
      var i := 0;
      while i < |list|
        invariant 0 <= i <= |list|
        invariant View() == Fold(old(View()), LookupIn(opts.double), list[..i])
      {
        VisitName(list[i]);
        assert list[..i + 1][..i] == list[..i];
        i := i + 1;
      }
      assert list[..i] == list;
    }

    /** NutConfOptions::optMode: how the order-th `--opt` occurrence was used. */
    method OptMode(opt: string, order: nat) returns (m: ModeType, args: seq<string>)
      requires opts.Valid()
      ensures (m, args) == OptModeOf(opts.double, opt, order)
    {
      var found;
      found, args := opts.GetDouble(opt, [], order);
      ScanOccurrences(opts.Argv, Double, opt);
      if !found {
        return NotSpecified, args;
      }
      if args == [] {
        return Getter, args;
      }
      return Setter, args;
    }

    /** One iteration of the double-dashed loop. */
    method VisitName(opt: string)
      requires opts.Valid()
      modifies this
      ensures View() == Visit(old(View()), LookupIn(opts.double), opt)
    {
      // BranchOf is the chain of name comparisons that picks the branch
      match BranchOf(opt)
      case Autoconfigure =>
        if autoconfigure {
          errors := errors + [Repeated("autoconfigure")];
        } else {
          autoconfigure := true;
        }
      case IsConfigured =>
        if isConfigured {
          errors := errors + [Repeated("is-configured")];
        } else {
          isConfigured := true;
        }
      case LocalDir =>
        VisitLocalOption();
      case SystemFlag =>
        if system {
          errors := errors + [Repeated("system")];
        } else {
          system := true;
        }
      case ModeName =>
        VisitModeOption();
      case MonitorFamily =>
        VisitMonitorOption(opt);
      case ListenFamily =>
        VisitListenOption(opt);
      case DeviceFamily =>
        VisitDeviceOption(opt);
      case UnknownName =>
        // Unknown option
        unknown := unknown + ["--" + opt];
    }

    method VisitLocalOption()
      requires opts.Valid()
      modifies this
      ensures View() == VisitLocal(old(View()), LookupIn(opts.double))
    {
      if local != "" {
        errors := errors + [Repeated("local")];
      } else {
        var m, args := OptMode("local", 0);
        if m != Setter {
          errors := errors + [NeedsArgument("local")];
        } else if |args| > 1 {
          errors := errors + [OneDirectory];
        } else {
          local := args[0];
        }
      }
    }

    method VisitModeOption()
      requires opts.Valid()
      modifies this
      ensures View() == VisitMode(old(View()), LookupIn(opts.double))
    {
      if mode != "" {
        errors := errors + [Repeated("mode")];
      } else {
        var m, args := OptMode("mode", 0);
        if m != Setter {
          errors := errors + [NeedsArgument("mode")];
        } else if |args| > 1 {
          errors := errors + [OneMode];
        } else if |args| == 1 && !CheckMode(args[0]) {
          errors := errors + [UnknownMode(args[0])];
        } else {
          mode := args[0];
        }
      }
    }

    /** The set/add counter of the variant is the order index, and grows on every visit. */
    method VisitMonitorOption(opt: string)
      requires opts.Valid() && opt != []
      modifies this
      ensures View() == VisitMonitor(old(View()), LookupIn(opts.double), opt)
    {
      var setter := 's' == opt[0];
      var m, args := OptMode(opt, if setter then setMonitorCnt else addMonitorCnt);
      ghost var c := ApplyMonitor(View(), opt, m, args);
      ApplyMonitorOption(opt, m, args);
      assert View() == c;
      if setter {
        setMonitorCnt := setMonitorCnt + 1;
      } else {
        addMonitorCnt := addMonitorCnt + 1;
      }
    }

    /** The checks on one monitor occurrence and, when it is well formed, the push_back loop. */
    method ApplyMonitorOption(opt: string, m: ModeType, args: seq<string>)
      modifies this
      ensures View() == ApplyMonitor(old(View()), opt, m, args)
    {
      if m != Setter {
        errors := errors + [NeedsArguments(opt)];
      } else if |args| != 6 {
        errors := errors + [NotSix(opt)];
      } else {
        var k := 0;
        while k < |args|
          invariant 0 <= k <= |args|
          invariant View() == old(View()).(monitors := old(monitors) + args[..k])
        {
          monitors := monitors + [args[k]];
          assert args[..k + 1] == args[..k] + [args[k]];
          k := k + 1;
        }
        assert args[..k] == args;
      }
    }

    method VisitListenOption(opt: string)
      requires opts.Valid() && opt != []
      modifies this
      ensures View() == VisitListen(old(View()), LookupIn(opts.double), opt)
    {
      var setter := 's' == opt[0];
      var m, args := OptMode(opt, if setter then setListenCnt else addListenCnt);
      ghost var c := ApplyListen(View(), opt, m, args);
      ApplyListenOption(opt, m, args);
      assert View() == c;
      if setter {
        setListenCnt := setListenCnt + 1;
      } else {
        addListenCnt := addListenCnt + 1;
      }
    }

    /** The checks on one listen occurrence and its address. */
    method ApplyListenOption(opt: string, m: ModeType, args: seq<string>)
      modifies this
      ensures View() == ApplyListen(old(View()), opt, m, args)
    {
      if m != Setter {
        errors := errors + [NeedsArguments(opt)];
      } else if |args| < 1 || |args| > 2 {
        errors := errors + [NotOneOrTwo(opt)];
      } else {
        listenAddrs := listenAddrs + [ListenAddr(args[0], if |args| > 1 then args[|args| - 1] else "")];
      }
    }

    method VisitDeviceOption(opt: string)
      requires opts.Valid() && opt != []
      modifies this
      ensures View() == VisitDevice(old(View()), LookupIn(opts.double), opt)
    {
      var setter := 's' == opt[0];
      var m, args := OptMode(opt, if setter then setDeviceCnt else addDeviceCnt);
      ghost var c := ApplyDevice(View(), opt, m, args);
      ApplyDeviceOption(opt, m, args);
      assert View() == c;
      if setter {
        setDeviceCnt := setDeviceCnt + 1;
      } else {
        addDeviceCnt := addDeviceCnt + 1;
      }
    }

    /** The checks on one device occurrence and its specification. */
    method ApplyDeviceOption(opt: string, m: ModeType, args: seq<string>)
      modifies this
      ensures View() == ApplyDevice(old(View()), opt, m, args)
    {
      if m != Setter {
        errors := errors + [NeedsArguments(opt)];
      } else if |args| < 3 {
        errors := errors + [TooFew(opt)];
      } else if |args| > 4 {
        errors := errors + [TooMany(opt), QuoteHint];
      } else {
        devices := devices + [DeviceSpec(args[0], args[1], args[2], if |args| > 3 then args[3] else "")];
      }
    }

    /** After the loop: validity, then the three set/add exclusion rules. */
    method Conclude()
      requires opts.Valid()
      modifies this
      ensures View() == Finish(old(View()), opts.State().free)
    {
      var c := View();
      valid := unknown == [] && errors == [] && opts.Get() == [];
      Exclude(c.setMonitorCnt, c.addMonitorCnt, Monitor);
      Exclude(c.setListenCnt, c.addListenCnt, Listen);
      Exclude(c.setDeviceCnt, c.addDeviceCnt, Device);
    }

    /** One exclusion rule, given the set and add counters of its family. */
    method Exclude(setCnt: nat, addCnt: nat, family: Family)
      modifies this
      ensures View() == Exclusive(old(View()), setCnt, addCnt, family)
    {
      if setCnt > 0 && addCnt > 0 {
        errors := errors + [Conflict(family)];
        valid := false;
      }
    }

    /** NutConfOptions::getMode: the first --mode occurrence's first argument, or "". */
    method GetMode() returns (r: string)
      requires opts.Valid()
      ensures r == if FirstArgs(opts.double, "mode") != [] then FirstArgs(opts.double, "mode")[0] else ""
    {
      var m, args := OptMode("mode", 0);
      if m != Setter {
        return "";
      }
      return args[0];
    }

    /** On a valid result, getMode agrees with the validated mode field. */
    lemma GetModeOnValid()
      requires Valid() && valid
      ensures mode == if FirstArgs(opts.double, "mode") != [] then FirstArgs(opts.double, "mode")[0] else ""
    {
      ValidModeIsFirst(opts.State());
    }

    /** NutConfOptions::getMonitor: definition `which`, or the range error. */
    function GetMonitor(which: nat): (r: MonitorLookup)
      reads this
      ensures r == IndexOverflow <==> which >= |monitors| / 6
      ensures r.Found? ==> Fields(r.def) == monitors[6 * which..6 * which + 6]
    {
      if which >= |monitors| / 6 then IndexOverflow
      else
        var base := 6 * which;
        assert base + 6 <= 6 * (|monitors| / 6) <= |monitors|;
        Found(MonitorDef(monitors[base], monitors[base + 1], monitors[base + 2],
                         monitors[base + 3], monitors[base + 4], monitors[base + 5]))
    }

    /**
     * On the object, getMonitor's bound is exact (every stored field belongs to
     * a reachable definition), and each definition is the six arguments of one
     * well-formed --set-monitor or --add-monitor occurrence.
     */
    lemma GetMonitorExact(which: nat)
      requires Valid()
      ensures GetMonitor(which).Found? <==> 6 * which + 6 <= |monitors|
      ensures GetMonitor(which).Found? ==>
        exists j :: 0 <= j < |opts.double| && BranchOf(opts.double[j].name) == MonitorFamily
                    && opts.double[j].args == Fields(GetMonitor(which).def)
    {
      MonitorsAreWhole(opts.State());
      ValidateAgrees(opts.State());
      if 6 * which + 6 <= |monitors| {
        MonitorBlock(opts.double, which);
      }
    }

    /**
     * NutConfOptions::reportInvalid: the logic error on a valid object, else
     * one line per unknown option, per error and per argument of the binary.
     */
    function ReportInvalid(): (r: Report)
      reads this, opts
      requires opts.Valid()
      ensures r == NothingToReport <==> valid
      ensures r.Lines? ==> |r.lines| == |unknown| + |errors| + |opts.Get()|
    {
      if valid then NothingToReport
      else Lines(Prefixed("Unknown option: ", unknown)
                 + ErrorLines(errors)
                 + Prefixed("Unexpected argument: ", opts.Get()))
    }

    /** An invalid object always has at least one line to report. */
    lemma ReportExplains()
      requires Valid() && !valid
      ensures ReportInvalid().Lines? && ReportInvalid().lines != []
    {
      ValidateAgrees(opts.State());
    }
  }
}
