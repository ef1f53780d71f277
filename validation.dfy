/**
 * The nutconf-specific option validator (class NutConfOptions in
 * common/nutconfbin.cpp) as values: the result record, the per-name visit
 * of the constructor loop, the fold over the double-dashed name list and the
 * final validity and mutual-exclusion step.  Module NutConf keeps the same
 * state in an object and is proved against Validate.
 */
module Validation {
  import opened Lexical
  import opened OptionStore

  /** NutConfOptions::mode_t: how an option was used. */
  datatype ModeType = NotSpecified | Getter | Setter

  /** NutConfOptions::ListenAddrSpec: address and port ("" when not given). */
  datatype ListenAddr = ListenAddr(addr: string, port: string)

  /** NutConfOptions::DeviceSpec. */
  datatype DeviceSpec = DeviceSpec(id: string, driver: string, port: string, desc: string)

  /**
   * The option errors the validator reports (m_errors), one constructor per
   * message form; Text gives each message's exact wording.
   */
  datatype OptionError =
    | Repeated(opt: string)          // a flag, --local or --mode given twice
    | NeedsArgument(opt: string)     // --local or --mode without its argument
    | OneDirectory                   // --local with more than one argument
    | OneMode                        // --mode with more than one argument
    | UnknownMode(arg: string)       // --mode with a name that is not a NUT mode
    | NeedsArguments(opt: string)    // a set/add option without arguments
    | NotSix(opt: string)            // a monitor without exactly 6 arguments
    | NotOneOrTwo(opt: string)       // a listen address with more than 2 arguments
    | TooFew(opt: string)            // a device with fewer than 3 arguments
    | TooMany(opt: string)           // a device with more than 4 arguments
    | QuoteHint                      // the hint that follows TooMany
    | Conflict(family: Family)       // set- and add- variants of one family both given

  /** The three set/add option families. */
  datatype Family = Monitor | Listen | Device

  function FamilyName(f: Family): string
  {
    match f
    case Monitor => "monitor"
    case Listen => "listen"
    case Device => "device"
  }

  function Text(e: OptionError): string
  {
    match e
    case Repeated(opt) => "--" + opt + " option specified more than once"
    case NeedsArgument(opt) => "--" + opt + " option requires an argument"
    case OneDirectory => "Only one directory may be specified with the --local option"
    case OneMode => "Only one argument allowed for the --mode option"
    case UnknownMode(arg) => "Unknown NUT mode: \"" + arg + "\""
    case NeedsArguments(opt) => "--" + opt + " option requires arguments"
    case NotSix(opt) => "--" + opt + " option requires exactly 6 arguments"
    case NotOneOrTwo(opt) => "--" + opt + " option requires 1 or 2 arguments"
    case TooFew(opt) => "--" + opt + " option requires at least 3 arguments"
    case TooMany(opt) => "--" + opt + " option takes at most 4 arguments"
    case QuoteHint => "    (perhaps you need to quote description?)"
    case Conflict(family) => "--set-" + FamilyName(family) + " and --add-" + FamilyName(family) + " options can't both be specified"
  }

  /** The public state NutConfOptions computes, plus its two private diagnostics lists. */
  datatype Config = Config(
    valid: bool,
    autoconfigure: bool,
    isConfigured: bool,
    local: string,
    system: bool,
    mode: string,
    monitors: seq<string>,
    setMonitorCnt: nat,
    addMonitorCnt: nat,
    listenAddrs: seq<ListenAddr>,
    setListenCnt: nat,
    addListenCnt: nat,
    devices: seq<DeviceSpec>,
    setDeviceCnt: nat,
    addDeviceCnt: nat,
    unknown: seq<string>,
    errors: seq<OptionError>)

  /**
   * NutConfOptions::optMode on the double-dashed map: whether the order-th
   * `--opt` occurrence exists and has arguments, and those arguments (the
   * callers' empty list when it does not exist).
   */
  function OptModeOf(d: seq<Entry>, opt: string, order: nat): (ModeType, seq<string>)
  {
    if order >= CountOf(d, opt) then (NotSpecified, [])
    else if Occurrences(d, opt)[order] == [] then (Getter, [])
    else (Setter, Occurrences(d, opt)[order])
  }

  /**
   * What the validator loop reads from the option store: optMode(opt, args,
   * order) as a function of the name and the order.  A SETTER answer always
   * comes with arguments, which is what lets the loop take args.front().
   */
  type Lookup = f: (string, nat) -> (ModeType, seq<string>) | forall o, k :: f(o, k).0 == Setter ==> f(o, k).1 != []
    witness (o: string, k: nat) => (NotSpecified, [])

  /** optMode on a given double-dashed map. */
  function LookupIn(d: seq<Entry>): Lookup
  {
    (opt: string, order: nat) => OptModeOf(d, opt, order)
  }

  /** The six NUT modes. */
  const Modes: set<string> := {"standalone", "netserver", "netclient", "controlled", "manual", "none"}

  /** NutConfOptions::checkMode. */
  function CheckMode(mode: string): (ok: bool)
    ensures ok <==> mode in Modes
  {
    if "standalone" == mode then true
    else if "netserver" == mode then true
    else if "netclient" == mode then true
    else if "controlled" == mode then true
    else if "manual" == mode then true
    else if "none" == mode then true
    else false
  }

  /** The option names the validator knows; every other name is unknown. */
  const Known: set<string> := {"autoconfigure", "is-configured", "local", "system", "mode",
    "set-monitor", "add-monitor", "set-listen", "add-listen", "set-device", "add-device"}

  /** Each name with a prefix (the "-" or "--" pushed before unknown names). */
  function Prefixed(p: string, names: seq<string>): (r: seq<string>)
    ensures |r| == |names| && forall i :: 0 <= i < |names| ==> r[i] == p + names[i]
  {
    if names == [] then [] else Prefixed(p, names[..|names| - 1]) + [p + names[|names| - 1]]
  }

  /** The state before the double-dashed loop: every single-dashed option is unknown. */
  function Initial(single: seq<Entry>): Config
  {
    Config(true, false, false, "", false, "", [], 0, 0, [], 0, 0, [], 0, 0,
      Prefixed("-", Names(single)), [])
  }

  function VisitLocal(c: Config, look: Lookup): Config
  {
    var (m, args) := look("local", 0);
    if c.local != "" then c.(errors := c.errors + [Repeated("local")])
    else if m != Setter then c.(errors := c.errors + [NeedsArgument("local")])
    else if |args| > 1 then c.(errors := c.errors + [OneDirectory])
    else c.(local := args[0])
  }

  function VisitMode(c: Config, look: Lookup): Config
  {
    var (m, args) := look("mode", 0);
    if c.mode != "" then c.(errors := c.errors + [Repeated("mode")])
    else if m != Setter then c.(errors := c.errors + [NeedsArgument("mode")])
    else if |args| > 1 then c.(errors := c.errors + [OneMode])
    else if |args| == 1 && !CheckMode(args[0]) then c.(errors := c.errors + [UnknownMode(args[0])])
    else c.(mode := args[0])
  }

  /** What one monitor occurrence, looked up as (m, args), does to the definitions or the errors. */
  function ApplyMonitor(c: Config, opt: string, m: ModeType, args: seq<string>): Config
  {
    if m != Setter then c.(errors := c.errors + [NeedsArguments(opt)])
    else if |args| != 6 then c.(errors := c.errors + [NotSix(opt)])
    else c.(monitors := c.monitors + args)
  }

  /** --set-monitor / --add-monitor: the counter of the variant is the order index. */
  function VisitMonitor(c: Config, look: Lookup, opt: string): Config
    requires opt != []
  {
    var setter := 's' == opt[0];
    var (m, args) := look(opt, if setter then c.setMonitorCnt else c.addMonitorCnt);
    var c' := ApplyMonitor(c, opt, m, args);
    if setter then c'.(setMonitorCnt := c'.setMonitorCnt + 1) else c'.(addMonitorCnt := c'.addMonitorCnt + 1)
  }

  /** What one listen occurrence does to the addresses or the errors. */
  function ApplyListen(c: Config, opt: string, m: ModeType, args: seq<string>): Config
  {
    if m != Setter then c.(errors := c.errors + [NeedsArguments(opt)])
    else if |args| < 1 || |args| > 2 then c.(errors := c.errors + [NotOneOrTwo(opt)])
    else c.(listenAddrs := c.listenAddrs + [ListenAddr(args[0], if |args| > 1 then args[|args| - 1] else "")])
  }

  /** --set-listen / --add-listen. */
  function VisitListen(c: Config, look: Lookup, opt: string): Config
    requires opt != []
  {
    var setter := 's' == opt[0];
    var (m, args) := look(opt, if setter then c.setListenCnt else c.addListenCnt);
    var c' := ApplyListen(c, opt, m, args);
    if setter then c'.(setListenCnt := c'.setListenCnt + 1) else c'.(addListenCnt := c'.addListenCnt + 1)
  }

  /** What one device occurrence does to the devices or the errors. */
  function ApplyDevice(c: Config, opt: string, m: ModeType, args: seq<string>): Config
  {
    if m != Setter then c.(errors := c.errors + [NeedsArguments(opt)])
    else if |args| < 3 then c.(errors := c.errors + [TooFew(opt)])
    else if |args| > 4 then c.(errors := c.errors + [TooMany(opt), QuoteHint])
    else c.(devices := c.devices + [DeviceSpec(args[0], args[1], args[2], if |args| > 3 then args[3] else "")])
  }

  /** --set-device / --add-device. */
  function VisitDevice(c: Config, look: Lookup, opt: string): Config
    requires opt != []
  {
    var setter := 's' == opt[0];
    var (m, args) := look(opt, if setter then c.setDeviceCnt else c.addDeviceCnt);
    var c' := ApplyDevice(c, opt, m, args);
    if setter then c'.(setDeviceCnt := c'.setDeviceCnt + 1) else c'.(addDeviceCnt := c'.addDeviceCnt + 1)
  }

  /** The branches of the double-dashed loop. */
  datatype Branch =
    | Autoconfigure | IsConfigured | LocalDir | SystemFlag | ModeName
    | MonitorFamily | ListenFamily | DeviceFamily | UnknownName

  /** The string comparisons that pick the branch for a name. */
  function BranchOf(opt: string): Branch
  {
    if "autoconfigure" == opt then Autoconfigure
    else if "is-configured" == opt then IsConfigured
    else if "local" == opt then LocalDir
    else if "system" == opt then SystemFlag
    else if "mode" == opt then ModeName
    else if "set-monitor" == opt || "add-monitor" == opt then MonitorFamily
    else if "set-listen" == opt || "add-listen" == opt then ListenFamily
    else if "set-device" == opt || "add-device" == opt then DeviceFamily
    else UnknownName
  }

  /** One iteration of the double-dashed loop. */
  function Visit(c: Config, look: Lookup, opt: string): Config
  {
    match BranchOf(opt)
    case Autoconfigure =>
      if c.autoconfigure then c.(errors := c.errors + [Repeated("autoconfigure")]) else c.(autoconfigure := true)
    case IsConfigured =>
      if c.isConfigured then c.(errors := c.errors + [Repeated("is-configured")]) else c.(isConfigured := true)
    case LocalDir => VisitLocal(c, look)
    case SystemFlag =>
      if c.system then c.(errors := c.errors + [Repeated("system")]) else c.(system := true)
    case ModeName => VisitMode(c, look)
    case MonitorFamily => VisitMonitor(c, look, opt)
    case ListenFamily => VisitListen(c, look, opt)
    case DeviceFamily => VisitDevice(c, look, opt)
    case UnknownName => c.(unknown := c.unknown + ["--" + opt])
  }

  /** The double-dashed loop over a name list. */
  function Fold(c: Config, look: Lookup, names: seq<string>): Config
  {
    if names == [] then c else Visit(Fold(c, look, names[..|names| - 1]), look, names[|names| - 1])
  }

  /** One set/add mutual-exclusion rule. */
  function Exclusive(c: Config, setCnt: nat, addCnt: nat, family: Family): Config
  {
    if setCnt > 0 && addCnt > 0 then
      c.(errors := c.errors + [Conflict(family)],
         valid := false)
    else c
  }

  /** After the loop: validity, then the three exclusion rules in order. */
  function Finish(c: Config, free: seq<string>): Config
  {
    var c0 := c.(valid := c.unknown == [] && c.errors == [] && free == []);
    var c1 := Exclusive(c0, c.setMonitorCnt, c.addMonitorCnt, Monitor);
    var c2 := Exclusive(c1, c.setListenCnt, c.addListenCnt, Listen);
    Exclusive(c2, c.setDeviceCnt, c.addDeviceCnt, Device)
  }

  /** What the NutConfOptions constructor computes from an option store. */
  function Validate(s: Store): Config
  {
    Finish(Fold(Initial(s.single), LookupIn(s.double), Names(s.double)), s.free)
  }
}
