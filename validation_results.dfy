/**
 * The NutConfOptions validator end to end: every field of its result in
 * terms of the double-dashed option map, and what a valid result says about
 * the command line the map was built from.
 */
module ValidationResults {
  import opened Lexical
  import opened OptionStore
  import opened Validation
  import opened ValidationFacts

  /** The mutual-exclusion messages, in the order the rules are checked. */
  function Conflicts(t: multiset<string>): seq<OptionError>
  {
    (if t["set-monitor"] > 0 && t["add-monitor"] > 0 then [Conflict(Monitor)] else [])
    + (if t["set-listen"] > 0 && t["add-listen"] > 0 then [Conflict(Listen)] else [])
    + (if t["set-device"] > 0 && t["add-device"] > 0 then [Conflict(Device)] else [])
  }

  /** The final step appends the exclusion messages, in rule order. */
  lemma FinishErrors(c: Config, free: seq<string>, t: multiset<string>)
    requires CountsAgree(c, t)
    ensures Finish(c, free).errors == c.errors + Conflicts(t)
  {
    var x := if t["set-monitor"] > 0 && t["add-monitor"] > 0 then [Conflict(Monitor)] else [];
    var y := if t["set-listen"] > 0 && t["add-listen"] > 0 then [Conflict(Listen)] else [];
    var z := if t["set-device"] > 0 && t["add-device"] > 0 then [Conflict(Device)] else [];
    ExclusionsInOrder(c, free, x, y, z);
    assert c.errors + x + y + z == c.errors + (x + y + z);
  }

  lemma ExclusionsInOrder(c: Config, free: seq<string>, x: seq<OptionError>, y: seq<OptionError>, z: seq<OptionError>)
    requires x == if c.setMonitorCnt > 0 && c.addMonitorCnt > 0 then [Conflict(Monitor)] else []
    requires y == if c.setListenCnt > 0 && c.addListenCnt > 0 then [Conflict(Listen)] else []
    requires z == if c.setDeviceCnt > 0 && c.addDeviceCnt > 0 then [Conflict(Device)] else []
    ensures Finish(c, free).errors == c.errors + x + y + z
  {
  }

  /** Valid: nothing unknown, no message, no free argument, and no family mixed. */
  lemma FinishValid(c: Config, free: seq<string>, t: multiset<string>)
    requires CountsAgree(c, t)
    ensures Finish(c, free).valid == (c.unknown == [] && c.errors == [] && free == [] && Conflicts(t) == [])
  {
    ConflictsEmpty(t);
  }

  /** No exclusion message exactly when no family has both a set and an add occurrence. */
  lemma ConflictsEmpty(t: multiset<string>)
    ensures Conflicts(t) == [] <==>
      && !(t["set-monitor"] > 0 && t["add-monitor"] > 0)
      && !(t["set-listen"] > 0 && t["add-listen"] > 0)
      && !(t["set-device"] > 0 && t["add-device"] > 0)
  {
    assert |Conflicts(t)| ==
      (if t["set-monitor"] > 0 && t["add-monitor"] > 0 then 1 else 0)
      + (if t["set-listen"] > 0 && t["add-listen"] > 0 then 1 else 0)
      + (if t["set-device"] > 0 && t["add-device"] > 0 then 1 else 0);
  }

  /** The final step changes nothing but validity and the messages. */
  lemma FinishKeeps(c: Config, free: seq<string>)
    ensures Finish(c, free) == c.(valid := Finish(c, free).valid, errors := Finish(c, free).errors)
  {
  }

  /** The loop and the final step, in terms of the field groups of the state. */
  lemma ValidateAgrees(s: Store)
    ensures var r, d := Validate(s), s.double;
      && FlagsAgree(r, Tally(d)) && CountsAgree(r, Tally(d))
      && PicksAgree(r, d, |d|)
      && CollectionsAgree(r, s.single, d)
      && r.errors == ErrorsUpTo(d, |d|) + Conflicts(Tally(d))
      && (r.valid <==> r.unknown == [] && ErrorsUpTo(d, |d|) == [] && s.free == [] && Conflicts(Tally(d)) == [])
  {
    var d := s.double;
    FoldAgrees(s.single, d, |d|);
    assert d[..|d|] == d;
    var c := Fold(Initial(s.single), LookupIn(d), Names(d));
    FinishErrors(c, s.free, Tally(d));
    FinishValid(c, s.free, Tally(d));
    FinishKeeps(c, s.free);
  }

  /** The flags and counters of the result, as occurrence counts of the map. */
  lemma ValidateCounts(s: Store)
    ensures FlagsAgree(Validate(s), Tally(s.double)) && CountsAgree(Validate(s), Tally(s.double))
  {
    ValidateAgrees(s);
  }

  /** --local and --mode of the result, from the map's first occurrences. */
  lemma ValidatePicks(s: Store)
    ensures PicksAgree(Validate(s), s.double, |s.double|)
  {
    ValidateAgrees(s);
  }

  /** The messages of the result: per entry, then the exclusion rules. */
  lemma ValidateErrors(s: Store)
    ensures Validate(s).errors == ErrorsUpTo(s.double, |s.double|) + Conflicts(Tally(s.double))
  {
    ValidateAgrees(s);
  }

  /** Every field of the validator's result, in terms of the option store. */
  lemma ValidateCharacterised(s: Store)
    ensures var r, d := Validate(s), s.double;
      && r.autoconfigure == (Tally(d)["autoconfigure"] > 0)
      && r.isConfigured == (Tally(d)["is-configured"] > 0)
      && r.system == (Tally(d)["system"] > 0)
      && r.local == LocalRef(d, |d|)
      && r.mode == ModeRef(d, |d|)
      && r.setMonitorCnt == Tally(d)["set-monitor"] && r.addMonitorCnt == Tally(d)["add-monitor"]
      && r.setListenCnt == Tally(d)["set-listen"] && r.addListenCnt == Tally(d)["add-listen"]
      && r.setDeviceCnt == Tally(d)["set-device"] && r.addDeviceCnt == Tally(d)["add-device"]
      && r.monitors == FlatMap(d, MonitorArgs)
      && r.listenAddrs == FlatMap(d, ListenOf)
      && r.devices == FlatMap(d, DeviceOf)
      && r.unknown == Prefixed("-", Names(s.single)) + FlatMap(d, UnknownOf)
      && r.errors == ErrorsUpTo(d, |d|) + Conflicts(Tally(d))
      && (r.valid <==> r.unknown == [] && ErrorsUpTo(d, |d|) == [] && s.free == [] && Conflicts(Tally(d)) == [])
  {
    ValidateAgrees(s);
  }

  /* ---------- Collections ---------- */

  lemma {:induction false} MonitorsWhole(es: seq<Entry>)
    ensures |FlatMap(es, MonitorArgs)| % 6 == 0
  {
    if es != [] {
      MonitorsWhole(es[..|es| - 1]);
    }
  }

  /** The monitor list is made of whole 6-field definitions, so getMonitor's index bound is exact. */
  lemma MonitorsAreWhole(s: Store)
    ensures |Validate(s).monitors| % 6 == 0
  {
    ValidateAgrees(s);
    MonitorsWhole(s.double);
  }

  /** An entry's contribution is part of the whole. */
  lemma {:induction false} FlatMapCovers<T>(es: seq<Entry>, f: Entry -> seq<T>, i: nat)
    requires i < |es|
    ensures FlatMap(es, f) == [] ==> f(es[i]) == []
  {
    if i < |es| - 1 {
      FlatMapCovers(es[..|es| - 1], f, i);
    }
  }

  /** A contribution that is part of an empty whole is empty. */
  lemma {:induction false} AccumulateCovers<T>(f: nat -> seq<T>, n: nat, i: nat)
    requires i < n
    ensures Accumulate(f, n) == [] ==> f(i) == []
  {
    if i < n - 1 {
      AccumulateCovers(f, n - 1, i);
    }
  }

  /** Every element of a contribution is an element of the whole. */
  lemma {:induction false} AccumulateContains<T>(f: nat -> seq<T>, n: nat, i: nat, e: T)
    requires i < n && e in f(i)
    ensures e in Accumulate(f, n)
  {
    if i < n - 1 {
      AccumulateContains(f, n - 1, i, e);
    }
  }

  /**
   * A valid result: no single-dashed option, no argument for the binary, every
   * double-dashed name known and error-free, and no set/add family mixed.
   */
  lemma ValidMeansClean(s: Store)
    requires Validate(s).valid
    ensures s.single == [] && s.free == []
    ensures forall i :: 0 <= i < |s.double| ==> s.double[i].name in Known && EntryErrors(s.double, i) == []
    ensures Conflicts(Tally(s.double)) == []
  {
    var d := s.double;
    ValidateAgrees(s);
    assert |Prefixed("-", Names(s.single))| == |s.single|;
    forall i | 0 <= i < |d|
      ensures d[i].name in Known && EntryErrors(d, i) == []
    {
      FlatMapCovers(d, UnknownOf, i);
      BranchNames(d[i].name);
      AccumulateCovers(MessagesOf(d), |d|, i);
    }
  }

  /* ---------- In terms of the command line ---------- */

  /** How often `--n` appears on the command line is how often the map holds `n`. */
  lemma ArgvTally(argv: seq<string>, n: string, tok: string)
    requires OptionName(n) && tok == "--" + n
    ensures Tally(Scan(argv).double)[n] == multiset(argv)[tok]
  {
    NamesCount(Scan(argv).double, n);
    ScanOccurrences(argv, Double, n);
    OccRefCount(argv, Double, n);
  }

  /** The three flags of the result, read off the command line. */
  lemma FlagsFromArgv(argv: seq<string>)
    ensures var r := Validate(Scan(argv));
      && (r.autoconfigure <==> "--autoconfigure" in argv)
      && (r.isConfigured <==> "--is-configured" in argv)
      && (r.system <==> "--system" in argv)
  {
    ValidateCounts(Scan(argv));
    FlagsOf(argv, Validate(Scan(argv)));
  }

  /** Flags that agree with the map's tallies, read off the command line. */
  lemma FlagsOf(argv: seq<string>, r: Config)
    requires FlagsAgree(r, Tally(Scan(argv).double))
    ensures (r.autoconfigure <==> "--autoconfigure" in argv)
      && (r.isConfigured <==> "--is-configured" in argv)
      && (r.system <==> "--system" in argv)
  {
    ArgvTally(argv, "autoconfigure", "--autoconfigure");
    ArgvTally(argv, "is-configured", "--is-configured");
    ArgvTally(argv, "system", "--system");
  }

  /** The six counters of the result: how often each set/add option appears. */
  lemma CountersFromArgv(argv: seq<string>)
    ensures var r := Validate(Scan(argv));
      && r.setMonitorCnt == multiset(argv)["--set-monitor"] && r.addMonitorCnt == multiset(argv)["--add-monitor"]
      && r.setListenCnt == multiset(argv)["--set-listen"] && r.addListenCnt == multiset(argv)["--add-listen"]
      && r.setDeviceCnt == multiset(argv)["--set-device"] && r.addDeviceCnt == multiset(argv)["--add-device"]
  {
    ValidateCounts(Scan(argv));
    SetCountersOf(argv, Validate(Scan(argv)));
    AddCountersOf(argv, Validate(Scan(argv)));
  }

  /** Set- counters that agree with the map's tallies, read off the command line. */
  lemma SetCountersOf(argv: seq<string>, r: Config)
    requires CountsAgree(r, Tally(Scan(argv).double))
    ensures r.setMonitorCnt == multiset(argv)["--set-monitor"]
      && r.setListenCnt == multiset(argv)["--set-listen"]
      && r.setDeviceCnt == multiset(argv)["--set-device"]
  {
    ArgvTally(argv, "set-monitor", "--set-monitor");
    ArgvTally(argv, "set-listen", "--set-listen");
    ArgvTally(argv, "set-device", "--set-device");
  }

  /** The same for the add- counters. */
  lemma AddCountersOf(argv: seq<string>, r: Config)
    requires CountsAgree(r, Tally(Scan(argv).double))
    ensures r.addMonitorCnt == multiset(argv)["--add-monitor"]
      && r.addListenCnt == multiset(argv)["--add-listen"]
      && r.addDeviceCnt == multiset(argv)["--add-device"]
  {
    ArgvTally(argv, "add-monitor", "--add-monitor");
    ArgvTally(argv, "add-listen", "--add-listen");
    ArgvTally(argv, "add-device", "--add-device");
  }

  /** A name the map holds belongs to some entry. */
  lemma Present(b: seq<Entry>, n: string)
    requires CountOf(b, n) > 0
    ensures exists i :: 0 <= i < |b| && b[i].name == n
  {
    NamesCount(b, n);
    assert n in multiset(Names(b));
    var i :| 0 <= i < |Names(b)| && Names(b)[i] == n;
  }

  /**
   * A valid command line: every option token on it is double-dashed with a
   * known name, and nothing on it is left over for the binary itself.
   */
  lemma ValidCommandLine(argv: seq<string>)
    requires Validate(Scan(argv)).valid
    ensures forall tok :: tok in argv && Classify(tok).Opt? ==> Classify(tok).dash == Double && Classify(tok).name in Known
    ensures FreeRef(argv) == []
  {
    var s := Scan(argv);
    ValidMeansClean(s);
    ScanFree(argv);
    forall tok | tok in argv && Classify(tok).Opt?
      ensures Classify(tok).dash == Double && Classify(tok).name in Known
    {
      var dash, n := Classify(tok).dash, Classify(tok).name;
      ClassifyOptions(tok);
      ScanOccurrences(argv, dash, n);
      OccRefCount(argv, dash, n);
      Present(Bucket(s, dash), n);
    }
  }

  /** --help is no nutconf option: a command line carrying it is reported invalid. */
  lemma HelpIsInvalid(argv: seq<string>)
    requires "--help" in argv
    ensures !Validate(Scan(argv)).valid
  {
    assert Classify("--help") == Opt(Double, "help");
    assert "help" !in Known;
    if Validate(Scan(argv)).valid {
      ValidCommandLine(argv);
      assert false;
    }
  }

  /**
   * --local is always read from its first occurrence, and "already given" is
   * judged by the directory being non-empty: after an empty first directory
   * every later --local is accepted silently and the result stays empty.
   */
  lemma LocalAfterEmptyFirst(s: Store)
    requires FirstArgs(s.double, "local") == [""]
    ensures Validate(s).local == ""
    ensures forall i :: 0 <= i < |s.double| && s.double[i].name == "local" ==> EntryErrors(s.double, i) == []
  {
    ValidatePicks(s);
  }

  /** A prefix holds no more of a name than the whole map. */
  lemma TallyPrefix(d: seq<Entry>, i: nat)
    requires i <= |d|
    ensures Tally(d[..i]) <= Tally(d)
  {
    assert d == d[..i] + d[i..];
    assert Names(d) == Names(d[..i]) + Names(d[i..]);
  }

  /** A --local entry after another, with a non-empty first directory, is a repeat. */
  lemma LocalRepeatEntry(d: seq<Entry>, i: nat)
    requires |FirstArgs(d, "local")| == 1 && FirstArgs(d, "local")[0] != ""
    requires i < |d| && d[i].name == "local" && Tally(d[..i])["local"] > 0
    ensures EntryErrors(d, i) == [Repeated("local")]
  {
  }

  /** With a non-empty first directory, any later --local is reported as a repeat. */
  lemma LocalRepeatReported(s: Store, i: nat)
    requires |FirstArgs(s.double, "local")| == 1 && FirstArgs(s.double, "local")[0] != ""
    requires i < |s.double| && s.double[i].name == "local" && Tally(s.double[..i])["local"] > 0
    ensures Repeated("local") in Validate(s).errors
    ensures Validate(s).local == FirstArgs(s.double, "local")[0]
  {
    var d := s.double;
    ValidatePicks(s);
    ValidateErrors(s);
    LocalRepeatEntry(d, i);
    AccumulateContains(MessagesOf(d), |d|, i, Repeated("local"));
    TallyPrefix(d, i);
    assert d[..|d|] == d;
  }

  /**
   * Block k of the monitor list is the six arguments of one well-formed
   * --set-monitor or --add-monitor occurrence.
   */
  lemma {:induction false} MonitorBlock(es: seq<Entry>, k: nat)
    requires 6 * k + 6 <= |FlatMap(es, MonitorArgs)|
    ensures exists j :: 0 <= j < |es| && BranchOf(es[j].name) == MonitorFamily && |es[j].args| == 6
                        && FlatMap(es, MonitorArgs)[6 * k..6 * k + 6] == es[j].args
  {
    var p, e := es[..|es| - 1], es[|es| - 1];
    MonitorsWhole(p);
    var fp := FlatMap(p, MonitorArgs);
    if 6 * k + 6 <= |fp| {
      MonitorBlock(p, k);
      var j :| 0 <= j < |p| && BranchOf(p[j].name) == MonitorFamily && |p[j].args| == 6
               && fp[6 * k..6 * k + 6] == p[j].args;
      assert FlatMap(es, MonitorArgs)[6 * k..6 * k + 6] == fp[6 * k..6 * k + 6];
      assert es[j] == p[j];
    } else {
      assert |fp| == 6 * (|fp| / 6);
      assert |fp| == 6 * k;
      assert FlatMap(es, MonitorArgs)[6 * k..6 * k + 6] == e.args;
    }
  }

  /** Without any per-entry message, --mode is the first --mode argument, or "". */
  lemma ModeWithoutErrors(d: seq<Entry>)
    requires forall i :: 0 <= i < |d| ==> EntryErrors(d, i) == []
    ensures ModeRef(d, |d|) == if FirstArgs(d, "mode") != [] then FirstArgs(d, "mode")[0] else ""
  {
    NamesCount(d, "mode");
    assert d[..|d|] == d;
    if CountOf(d, "mode") > 0 {
      Present(d, "mode");
      var i :| 0 <= i < |d| && d[i].name == "mode";
      assert EntryErrors(d, i) == [];
    }
  }

  /** When the result is valid, the validated --mode is the first --mode argument, or "". */
  lemma ValidModeIsFirst(s: Store)
    requires Validate(s).valid
    ensures Validate(s).mode == if FirstArgs(s.double, "mode") != [] then FirstArgs(s.double, "mode")[0] else ""
  {
    ValidatePicks(s);
    ValidMeansClean(s);
    ModeWithoutErrors(s.double);
  }
}
