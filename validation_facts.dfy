/**
 * What the NutConfOptions validator computes, stated without its loop state.
 *
 * Every field of the result is described directly by the double-dashed map
 * `d`: a flag by whether its name occurs, a counter by the number of
 * occurrences, a collection by the well-formed occurrences of its family in
 * map order, and the error list entry by entry, where each entry's messages
 * depend only on its own arguments, on how many earlier entries share its
 * name, and (for --local and --mode) on the first occurrence's arguments.
 * FoldAgrees proves the loop of module Validation equal to this description.
 */
module ValidationFacts {
  import opened Lexical
  import opened OptionStore
  import opened Validation

  /* ---------- Reference description ---------- */

  /** How many entries of `p` carry each name. */
  function Tally(p: seq<Entry>): multiset<string>
  {
    multiset(Names(p))
  }

  /** The contributions of a sequence of entries, concatenated in map order. */
  function FlatMap<T>(es: seq<Entry>, f: Entry -> seq<T>): seq<T>
  {
    if es == [] then [] else FlatMap(es[..|es| - 1], f) + f(es[|es| - 1])
  }

  /** A well-formed monitor occurrence contributes its six arguments. */
  function MonitorArgs(e: Entry): seq<string>
  {
    if BranchOf(e.name) == MonitorFamily && |e.args| == 6 then e.args else []
  }

  /** A well-formed listen occurrence contributes one address. */
  function ListenOf(e: Entry): seq<ListenAddr>
  {
    if BranchOf(e.name) == ListenFamily && 1 <= |e.args| <= 2 then
      [ListenAddr(e.args[0], if |e.args| > 1 then e.args[1] else "")]
    else []
  }

  /** A well-formed device occurrence contributes one device. */
  function DeviceOf(e: Entry): seq<DeviceSpec>
  {
    if BranchOf(e.name) == DeviceFamily && 3 <= |e.args| <= 4 then
      [DeviceSpec(e.args[0], e.args[1], e.args[2], if |e.args| == 4 then e.args[3] else "")]
    else []
  }

  /** An occurrence of an unknown name contributes that name, double-dashed. */
  function UnknownOf(e: Entry): seq<string>
  {
    if BranchOf(e.name) == UnknownName then ["--" + e.name] else []
  }

  /** The arguments of the first occurrence of `n` (none when `n` does not occur). */
  function FirstArgs(d: seq<Entry>, n: string): seq<string>
  {
    if CountOf(d, n) > 0 then Occurrences(d, n)[0] else []
  }

  /** The messages of the k-th --local visit, `a` being the first occurrence's arguments. */
  function LocalErrors(a: seq<string>, k: nat): seq<OptionError>
  {
    if a == [] then [NeedsArgument("local")]
    else if |a| > 1 then [OneDirectory]
    else if k > 0 && a[0] != "" then [Repeated("local")]
    else []
  }

  /** The messages of the k-th --mode visit. */
  function ModeErrors(a: seq<string>, k: nat): seq<OptionError>
  {
    if a == [] then [NeedsArgument("mode")]
    else if |a| > 1 then [OneMode]
    else if !CheckMode(a[0]) then [UnknownMode(a[0])]
    else if k > 0 then [Repeated("mode")]
    else []
  }

  function MonitorErrors(n: string, a: seq<string>): seq<OptionError>
  {
    if a == [] then [NeedsArguments(n)]
    else if |a| != 6 then [NotSix(n)]
    else []
  }

  function ListenErrors(n: string, a: seq<string>): seq<OptionError>
  {
    if a == [] then [NeedsArguments(n)]
    else if |a| > 2 then [NotOneOrTwo(n)]
    else []
  }

  function DeviceErrors(n: string, a: seq<string>): seq<OptionError>
  {
    if a == [] then [NeedsArguments(n)]
    else if |a| < 3 then [TooFew(n)]
    else if |a| > 4 then [TooMany(n), QuoteHint]
    else []
  }

  /** The messages caused by entry i of the double-dashed map. */
  function EntryErrors(d: seq<Entry>, i: nat): seq<OptionError>
    requires i < |d|
  {
    var e := d[i];
    var k := Tally(d[..i])[e.name];
    match BranchOf(e.name)
    case Autoconfigure => if k > 0 then [Repeated(e.name)] else []
    case IsConfigured => if k > 0 then [Repeated(e.name)] else []
    case SystemFlag => if k > 0 then [Repeated(e.name)] else []
    case LocalDir => LocalErrors(FirstArgs(d, "local"), k)
    case ModeName => ModeErrors(FirstArgs(d, "mode"), k)
    case MonitorFamily => MonitorErrors(e.name, e.args)
    case ListenFamily => ListenErrors(e.name, e.args)
    case DeviceFamily => DeviceErrors(e.name, e.args)
    case UnknownName => []
  }

  /** The contributions f(0), ..., f(n - 1), concatenated. */
  function Accumulate<T>(f: nat -> seq<T>, n: nat): seq<T>
  {
    if n == 0 then [] else Accumulate(f, n - 1) + f(n - 1)
  }

  /** The messages of each entry of the map, by index. */
  function MessagesOf(d: seq<Entry>): nat -> seq<OptionError>
  {
    (j: nat) => if j < |d| then EntryErrors(d, j) else []
  }

  /** The messages of the first i entries, in map order. */
  function ErrorsUpTo(d: seq<Entry>, i: nat): seq<OptionError>
    requires i <= |d|
  {
    Accumulate(MessagesOf(d), i)
  }

  /** --local after the first i entries: the first occurrence's only argument, once one was visited. */
  function LocalRef(d: seq<Entry>, i: nat): string
    requires i <= |d|
  {
    var a := FirstArgs(d, "local");
    if Tally(d[..i])["local"] > 0 && |a| == 1 then a[0] else ""
  }

  /** --mode after the first i entries: the first occurrence's only argument, if it is a NUT mode. */
  function ModeRef(d: seq<Entry>, i: nat): string
    requires i <= |d|
  {
    var a := FirstArgs(d, "mode");
    if Tally(d[..i])["mode"] > 0 && |a| == 1 && CheckMode(a[0]) then a[0] else ""
  }

  /** The three flags: set exactly when their name occurs in the prefix. */
  ghost predicate FlagsAgree(c: Config, t: multiset<string>)
  {
    && c.autoconfigure == (t["autoconfigure"] > 0)
    && c.isConfigured == (t["is-configured"] > 0)
    && c.system == (t["system"] > 0)
  }

  /** The six counters: the number of occurrences in the prefix. */
  ghost predicate CountsAgree(c: Config, t: multiset<string>)
  {
    && c.setMonitorCnt == t["set-monitor"] && c.addMonitorCnt == t["add-monitor"]
    && c.setListenCnt == t["set-listen"] && c.addListenCnt == t["add-listen"]
    && c.setDeviceCnt == t["set-device"] && c.addDeviceCnt == t["add-device"]
  }

  /** --local and --mode. */
  ghost predicate PicksAgree(c: Config, d: seq<Entry>, i: nat)
    requires i <= |d|
  {
    c.local == LocalRef(d, i) && c.mode == ModeRef(d, i)
  }

  /** The collected definitions and the unknown names. */
  ghost predicate CollectionsAgree(c: Config, single: seq<Entry>, p: seq<Entry>)
  {
    && c.monitors == FlatMap(p, MonitorArgs)
    && c.listenAddrs == FlatMap(p, ListenOf)
    && c.devices == FlatMap(p, DeviceOf)
    && c.unknown == Prefixed("-", Names(single)) + FlatMap(p, UnknownOf)
  }

  /** The loop state after the first i entries agrees with the reference description. */
  ghost predicate Agrees(c: Config, single: seq<Entry>, d: seq<Entry>, i: nat)
    requires i <= |d|
  {
    && c.valid
    && FlagsAgree(c, Tally(d[..i]))
    && CountsAgree(c, Tally(d[..i]))
    && PicksAgree(c, d, i)
    && CollectionsAgree(c, single, d[..i])
    && c.errors == ErrorsUpTo(d, i)
  }

  /* ---------- Step lemmas ---------- */

  lemma FlatMapSnoc<T>(es: seq<Entry>, e: Entry, f: Entry -> seq<T>)
    ensures FlatMap(es + [e], f) == FlatMap(es, f) + f(e)
  {
    assert (es + [e])[..|es|] == es;
  }

  /** One more entry adds its own contribution. */
  lemma FlatMapStep<T>(d: seq<Entry>, i: nat, f: Entry -> seq<T>)
    requires i < |d|
    ensures FlatMap(d[..i + 1], f) == FlatMap(d[..i], f) + f(d[i])
  {
    assert d[..i + 1] == d[..i] + [d[i]];
    FlatMapSnoc(d[..i], d[i], f);
  }

  /** One more entry adds one occurrence of its own name. */
  lemma TallyStep(d: seq<Entry>, i: nat)
    requires i < |d|
    ensures Tally(d[..i + 1]) == Tally(d[..i]) + multiset{d[i].name}
  {
    NamesStep(d, i);
  }

  lemma NamesStep(d: seq<Entry>, i: nat)
    requires i < |d|
    ensures Names(d[..i + 1]) == Names(d[..i]) + [d[i].name]
  {
  }

  /** What one more entry changes in the prefix descriptions. */
  lemma StepFacts(d: seq<Entry>, i: nat)
    requires i < |d|
    ensures Tally(d[..i + 1]) == Tally(d[..i]) + multiset{d[i].name}
    ensures FlatMap(d[..i + 1], MonitorArgs) == FlatMap(d[..i], MonitorArgs) + MonitorArgs(d[i])
    ensures FlatMap(d[..i + 1], ListenOf) == FlatMap(d[..i], ListenOf) + ListenOf(d[i])
    ensures FlatMap(d[..i + 1], DeviceOf) == FlatMap(d[..i], DeviceOf) + DeviceOf(d[i])
    ensures FlatMap(d[..i + 1], UnknownOf) == FlatMap(d[..i], UnknownOf) + UnknownOf(d[i])
  {
    TallyStep(d, i);
    FlatMapStep(d, i, MonitorArgs);
    FlatMapStep(d, i, ListenOf);
    FlatMapStep(d, i, DeviceOf);
    FlatMapStep(d, i, UnknownOf);
  }

  /** The loop over one more entry's name is one more visit. */
  lemma FoldStep(c: Config, look: Lookup, d: seq<Entry>, i: nat)
    requires i < |d|
    ensures Fold(c, look, Names(d[..i + 1])) == Visit(Fold(c, look, Names(d[..i])), look, d[i].name)
  {
    NamesStep(d, i);
    assert (Names(d[..i]) + [d[i].name])[..i] == Names(d[..i]);
  }

  /**
   * optMode at the k-th visit of a name, k counted by the entries before
   * entry i, reads entry i itself: the k-th occurrence exists, and its
   * arguments are entry i's.
   */
  lemma OptModeAt(d: seq<Entry>, i: nat)
    requires i < |d|
    ensures OptModeOf(d, d[i].name, Tally(d[..i])[d[i].name]) == (if d[i].args == [] then Getter else Setter, d[i].args)
  {
    NamesCount(d[..i], d[i].name);
    OccurrenceRank(d, i);
  }

  /** optMode at order 0 reads the first occurrence, which is entry i when none precedes it. */
  lemma FirstArgsOf(d: seq<Entry>, i: nat)
    requires i < |d|
    ensures OptModeOf(d, d[i].name, 0) == (if FirstArgs(d, d[i].name) == [] then Getter else Setter, FirstArgs(d, d[i].name))
    ensures Tally(d[..i])[d[i].name] == 0 ==> FirstArgs(d, d[i].name) == d[i].args
  {
    NamesCount(d[..i], d[i].name);
    OccurrenceRank(d, i);
  }

  /** The names of each branch. */
  lemma BranchNames(n: string)
    ensures BranchOf(n) == LocalDir <==> n == "local"
    ensures BranchOf(n) == ModeName <==> n == "mode"
    ensures BranchOf(n) == MonitorFamily <==> n == "set-monitor" || n == "add-monitor"
    ensures BranchOf(n) == ListenFamily <==> n == "set-listen" || n == "add-listen"
    ensures BranchOf(n) == DeviceFamily <==> n == "set-device" || n == "add-device"
    ensures BranchOf(n) == UnknownName <==> n !in Known
  {
  }

  /** 1 when the visited name is `x`: how the counter of `x` grows. */
  function Bump(n: string, x: string): nat
  {
    if n == x then 1 else 0
  }

  /** What visiting a name changes in the flags. */
  ghost predicate FlagsDelta(c: Config, c': Config, n: string)
  {
    && c'.autoconfigure == (c.autoconfigure || n == "autoconfigure")
    && c'.isConfigured == (c.isConfigured || n == "is-configured")
    && c'.system == (c.system || n == "system")
  }

  /** What visiting a name changes in the counters. */
  ghost predicate CountsDelta(c: Config, c': Config, n: string)
  {
    && c'.setMonitorCnt == c.setMonitorCnt + Bump(n, "set-monitor")
    && c'.addMonitorCnt == c.addMonitorCnt + Bump(n, "add-monitor")
    && c'.setListenCnt == c.setListenCnt + Bump(n, "set-listen")
    && c'.addListenCnt == c.addListenCnt + Bump(n, "add-listen")
    && c'.setDeviceCnt == c.setDeviceCnt + Bump(n, "set-device")
    && c'.addDeviceCnt == c.addDeviceCnt + Bump(n, "add-device")
  }

  /** What visiting entry i changes in --local and --mode. */
  ghost predicate PicksDelta(c: Config, c': Config, d: seq<Entry>, i: nat)
    requires i < |d|
  {
    && c'.local == (if d[i].name == "local" then LocalRef(d, i + 1) else c.local)
    && c'.mode == (if d[i].name == "mode" then ModeRef(d, i + 1) else c.mode)
  }

  /** What visiting an entry adds to the collections. */
  ghost predicate CollectionsDelta(c: Config, c': Config, e: Entry)
  {
    && c'.monitors == c.monitors + MonitorArgs(e)
    && c'.listenAddrs == c.listenAddrs + ListenOf(e)
    && c'.devices == c.devices + DeviceOf(e)
    && c'.unknown == c.unknown + UnknownOf(e)
  }

  /** What visiting entry i changes in the state, field by field. */
  ghost predicate Delta(c: Config, c': Config, d: seq<Entry>, i: nat)
    requires i < |d|
  {
    && c'.valid == c.valid
    && FlagsDelta(c, c', d[i].name)
    && CountsDelta(c, c', d[i].name)
    && PicksDelta(c, c', d, i)
    && CollectionsDelta(c, c', d[i])
    && c'.errors == c.errors + EntryErrors(d, i)
  }

  lemma FlagsStep(c: Config, c': Config, t: multiset<string>, n: string)
    requires FlagsAgree(c, t) && FlagsDelta(c, c', n)
    ensures FlagsAgree(c', t + multiset{n})
  {
  }

  lemma CountsStep(c: Config, c': Config, t: multiset<string>, n: string)
    requires CountsAgree(c, t) && CountsDelta(c, c', n)
    ensures CountsAgree(c', t + multiset{n})
  {
  }

  lemma PicksStep(c: Config, c': Config, d: seq<Entry>, i: nat)
    requires i < |d| && PicksAgree(c, d, i) && PicksDelta(c, c', d, i)
    ensures PicksAgree(c', d, i + 1)
  {
    TallyStep(d, i);
  }

  lemma CollectionsStep(c: Config, c': Config, single: seq<Entry>, d: seq<Entry>, i: nat)
    requires i < |d| && CollectionsAgree(c, single, d[..i]) && CollectionsDelta(c, c', d[i])
    ensures CollectionsAgree(c', single, d[..i + 1])
  {
    FlatMapStep(d, i, MonitorArgs);
    FlatMapStep(d, i, ListenOf);
    FlatMapStep(d, i, DeviceOf);
    FlatMapStep(d, i, UnknownOf);
  }

  /** A state that changes by entry i's delta agrees one entry further. */
  lemma DeltaAgrees(c: Config, c': Config, single: seq<Entry>, d: seq<Entry>, i: nat)
    requires i < |d| && Agrees(c, single, d, i) && Delta(c, c', d, i)
    ensures Agrees(c', single, d, i + 1)
  {
    TallyStep(d, i);
    FlagsStep(c, c', Tally(d[..i]), d[i].name);
    CountsStep(c, c', Tally(d[..i]), d[i].name);
    PicksStep(c, c', d, i);
    CollectionsStep(c, c', single, d, i);
  }

  lemma AutoconfigureDelta(c: Config, d: seq<Entry>, look: Lookup, i: nat)
    requires i < |d| && BranchOf(d[i].name) == Autoconfigure
    requires c.autoconfigure == (Tally(d[..i])["autoconfigure"] > 0)
    ensures Delta(c, Visit(c, look, d[i].name), d, i)
  {
  }

  lemma IsConfiguredDelta(c: Config, d: seq<Entry>, look: Lookup, i: nat)
    requires i < |d| && BranchOf(d[i].name) == IsConfigured
    requires c.isConfigured == (Tally(d[..i])["is-configured"] > 0)
    ensures Delta(c, Visit(c, look, d[i].name), d, i)
  {
  }

  lemma SystemDelta(c: Config, d: seq<Entry>, look: Lookup, i: nat)
    requires i < |d| && BranchOf(d[i].name) == SystemFlag
    requires c.system == (Tally(d[..i])["system"] > 0)
    ensures Delta(c, Visit(c, look, d[i].name), d, i)
  {
  }

  /** The --local visit of entry i. */
  lemma LocalDelta(c: Config, d: seq<Entry>, look: Lookup, i: nat)
    requires i < |d| && BranchOf(d[i].name) == LocalDir
    requires look("local", 0) == OptModeOf(d, "local", 0)
    requires c.local == LocalRef(d, i)
    ensures Delta(c, Visit(c, look, d[i].name), d, i)
  {
    BranchNames(d[i].name);
    TallyStep(d, i);
    LocalVisit(c, d, look, i);
  }

  lemma LocalVisit(c: Config, d: seq<Entry>, look: Lookup, i: nat)
    requires i < |d| && d[i].name == "local"
    requires look("local", 0) == OptModeOf(d, "local", 0)
    requires c.local == LocalRef(d, i)
    requires Tally(d[..i + 1]) == Tally(d[..i]) + multiset{"local"}
    ensures VisitLocal(c, look) == c.(local := LocalRef(d, i + 1), errors := c.errors + LocalErrors(FirstArgs(d, "local"), Tally(d[..i])["local"]))
  {
    FirstArgsOf(d, i);
  }

  /** The --mode visit of entry i. */
  lemma ModeDelta(c: Config, d: seq<Entry>, look: Lookup, i: nat)
    requires i < |d| && BranchOf(d[i].name) == ModeName
    requires look("mode", 0) == OptModeOf(d, "mode", 0)
    requires c.mode == ModeRef(d, i)
    ensures Delta(c, Visit(c, look, d[i].name), d, i)
  {
    BranchNames(d[i].name);
    TallyStep(d, i);
    ModeVisit(c, d, look, i);
  }

  lemma ModeVisit(c: Config, d: seq<Entry>, look: Lookup, i: nat)
    requires i < |d| && d[i].name == "mode"
    requires look("mode", 0) == OptModeOf(d, "mode", 0)
    requires c.mode == ModeRef(d, i)
    requires Tally(d[..i + 1]) == Tally(d[..i]) + multiset{"mode"}
    ensures VisitMode(c, look) == c.(mode := ModeRef(d, i + 1), errors := c.errors + ModeErrors(FirstArgs(d, "mode"), Tally(d[..i])["mode"]))
  {
    FirstArgsOf(d, i);
  }

  /** A monitor visit whose lookup gave (m, a). */
  lemma MonitorCall(c: Config, look: Lookup, n: string, m: ModeType, a: seq<string>)
    requires n == "set-monitor" || n == "add-monitor"
    requires look(n, if n == "set-monitor" then c.setMonitorCnt else c.addMonitorCnt) == (m, a)
    requires m == (if a == [] then Getter else Setter)
    ensures VisitMonitor(c, look, n) == c.(monitors := c.monitors + MonitorArgs(Entry(n, a)),
                                           errors := c.errors + MonitorErrors(n, a),
                                           setMonitorCnt := c.setMonitorCnt + Bump(n, "set-monitor"),
                                           addMonitorCnt := c.addMonitorCnt + Bump(n, "add-monitor"))
  {
    ApplyMonitorCall(c, n, m, a);
    if n == "set-monitor" {
      assert 's' == n[0];
    } else {
      assert 's' != n[0];
    }
  }

  /** The checks of a monitor visit, given what the lookup gave. */
  lemma ApplyMonitorCall(c: Config, n: string, m: ModeType, a: seq<string>)
    requires n == "set-monitor" || n == "add-monitor"
    requires m == (if a == [] then Getter else Setter)
    ensures ApplyMonitor(c, n, m, a) == c.(monitors := c.monitors + MonitorArgs(Entry(n, a)), errors := c.errors + MonitorErrors(n, a))
  {
  }

  /** A listen visit whose lookup gave (m, a). */
  lemma ListenCall(c: Config, look: Lookup, n: string, m: ModeType, a: seq<string>)
    requires n == "set-listen" || n == "add-listen"
    requires look(n, if n == "set-listen" then c.setListenCnt else c.addListenCnt) == (m, a)
    requires m == (if a == [] then Getter else Setter)
    ensures VisitListen(c, look, n) == c.(listenAddrs := c.listenAddrs + ListenOf(Entry(n, a)),
                                          errors := c.errors + ListenErrors(n, a),
                                          setListenCnt := c.setListenCnt + Bump(n, "set-listen"),
                                          addListenCnt := c.addListenCnt + Bump(n, "add-listen"))
  {
    ApplyListenCall(c, n, m, a);
    if n == "set-listen" {
      assert 's' == n[0];
    } else {
      assert 's' != n[0];
    }
  }

  /** The checks of a listen visit, given what the lookup gave. */
  lemma ApplyListenCall(c: Config, n: string, m: ModeType, a: seq<string>)
    requires n == "set-listen" || n == "add-listen"
    requires m == (if a == [] then Getter else Setter)
    ensures ApplyListen(c, n, m, a) == c.(listenAddrs := c.listenAddrs + ListenOf(Entry(n, a)), errors := c.errors + ListenErrors(n, a))
  {
  }

  /** A device visit whose lookup gave (m, a). */
  lemma DeviceCall(c: Config, look: Lookup, n: string, m: ModeType, a: seq<string>)
    requires n == "set-device" || n == "add-device"
    requires look(n, if n == "set-device" then c.setDeviceCnt else c.addDeviceCnt) == (m, a)
    requires m == (if a == [] then Getter else Setter)
    ensures VisitDevice(c, look, n) == c.(devices := c.devices + DeviceOf(Entry(n, a)),
                                          errors := c.errors + DeviceErrors(n, a),
                                          setDeviceCnt := c.setDeviceCnt + Bump(n, "set-device"),
                                          addDeviceCnt := c.addDeviceCnt + Bump(n, "add-device"))
  {
    ApplyDeviceCall(c, n, m, a);
    if n == "set-device" {
      assert 's' == n[0];
    } else {
      assert 's' != n[0];
    }
  }

  /** The checks of a device visit, given what the lookup gave. */
  lemma ApplyDeviceCall(c: Config, n: string, m: ModeType, a: seq<string>)
    requires n == "set-device" || n == "add-device"
    requires m == (if a == [] then Getter else Setter)
    ensures ApplyDevice(c, n, m, a) == c.(devices := c.devices + DeviceOf(Entry(n, a)), errors := c.errors + DeviceErrors(n, a))
  {
    assert BranchOf(n) == DeviceFamily;
  }

  lemma MonitorDelta(c: Config, d: seq<Entry>, look: Lookup, i: nat)
    requires i < |d| && BranchOf(d[i].name) == MonitorFamily
    requires look(d[i].name, Tally(d[..i])[d[i].name]) == OptModeOf(d, d[i].name, Tally(d[..i])[d[i].name])
    requires c.setMonitorCnt == Tally(d[..i])["set-monitor"] && c.addMonitorCnt == Tally(d[..i])["add-monitor"]
    ensures Delta(c, Visit(c, look, d[i].name), d, i)
  {
    BranchNames(d[i].name);
    OptModeAt(d, i);
    MonitorCall(c, look, d[i].name, if d[i].args == [] then Getter else Setter, d[i].args);
  }

  lemma ListenDelta(c: Config, d: seq<Entry>, look: Lookup, i: nat)
    requires i < |d| && BranchOf(d[i].name) == ListenFamily
    requires look(d[i].name, Tally(d[..i])[d[i].name]) == OptModeOf(d, d[i].name, Tally(d[..i])[d[i].name])
    requires c.setListenCnt == Tally(d[..i])["set-listen"] && c.addListenCnt == Tally(d[..i])["add-listen"]
    ensures Delta(c, Visit(c, look, d[i].name), d, i)
  {
    BranchNames(d[i].name);
    OptModeAt(d, i);
    ListenCall(c, look, d[i].name, if d[i].args == [] then Getter else Setter, d[i].args);
  }

  lemma DeviceDelta(c: Config, d: seq<Entry>, look: Lookup, i: nat)
    requires i < |d| && BranchOf(d[i].name) == DeviceFamily
    requires look(d[i].name, Tally(d[..i])[d[i].name]) == OptModeOf(d, d[i].name, Tally(d[..i])[d[i].name])
    requires c.setDeviceCnt == Tally(d[..i])["set-device"] && c.addDeviceCnt == Tally(d[..i])["add-device"]
    ensures Delta(c, Visit(c, look, d[i].name), d, i)
  {
    BranchNames(d[i].name);
    OptModeAt(d, i);
    DeviceCall(c, look, d[i].name, if d[i].args == [] then Getter else Setter, d[i].args);
  }

  lemma UnknownDelta(c: Config, d: seq<Entry>, look: Lookup, i: nat)
    requires i < |d| && BranchOf(d[i].name) == UnknownName
    ensures Delta(c, Visit(c, look, d[i].name), d, i)
  {
    BranchNames(d[i].name);
  }

  /** One visit keeps the state in agreement, one entry further. */
  lemma VisitAgrees(c: Config, single: seq<Entry>, d: seq<Entry>, i: nat)
    requires i < |d| && Agrees(c, single, d, i)
    ensures Agrees(Visit(c, LookupIn(d), d[i].name), single, d, i + 1)
  {
    var n, look := d[i].name, LookupIn(d);
    var k := Tally(d[..i])[n];
    match BranchOf(n) {
    case Autoconfigure => AutoconfigureDelta(c, d, look, i);
    case IsConfigured => IsConfiguredDelta(c, d, look, i);
    case SystemFlag => SystemDelta(c, d, look, i);
    case LocalDir =>
      assert look("local", 0) == OptModeOf(d, "local", 0);
      LocalDelta(c, d, look, i);
    case ModeName =>
      assert look("mode", 0) == OptModeOf(d, "mode", 0);
      ModeDelta(c, d, look, i);
    case MonitorFamily =>
      assert look(n, k) == OptModeOf(d, n, k);
      MonitorDelta(c, d, look, i);
    case ListenFamily =>
      assert look(n, k) == OptModeOf(d, n, k);
      ListenDelta(c, d, look, i);
    case DeviceFamily =>
      assert look(n, k) == OptModeOf(d, n, k);
      DeviceDelta(c, d, look, i);
    case UnknownName => UnknownDelta(c, d, look, i);
    }
    DeltaAgrees(c, Visit(c, look, n), single, d, i);
  }

  /** The loop after i entries. */
  lemma {:induction false} FoldAgrees(single: seq<Entry>, d: seq<Entry>, i: nat)
    requires i <= |d|
    ensures Agrees(Fold(Initial(single), LookupIn(d), Names(d[..i])), single, d, i)
  {
    if i > 0 {
      FoldAgrees(single, d, i - 1);
      FoldAgreesStep(single, d, i - 1);
    }
  }

  /** One more entry keeps the agreement. */
  lemma FoldAgreesStep(single: seq<Entry>, d: seq<Entry>, i: nat)
    requires i < |d| && Agrees(Fold(Initial(single), LookupIn(d), Names(d[..i])), single, d, i)
    ensures Agrees(Fold(Initial(single), LookupIn(d), Names(d[..i + 1])), single, d, i + 1)
  {
    var look := LookupIn(d);
    var c := Fold(Initial(single), look, Names(d[..i]));
    VisitAgrees(c, single, d, i);
    FoldStep(Initial(single), look, d, i);
  }
}
