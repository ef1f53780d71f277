# nutconf option engine in Dafny

This project models the command-line option engine in `common/nutconfbin.cpp` of
Network UPS Tools' `nutconf` tool, and proves properties of that model. The engine has two parts:

* class `Options` tokenises the argument vector. It keeps single-dashed and
  double-dashed options in two `std::multimap`s ordered by name, each occurrence
  with the arguments that follow it. It also keeps the arguments addressed to the
  binary itself and the "last opened option" pointer.
* class `NutConfOptions` derives from `Options`. It validates the options nutconf
  knows and collects the results:
  * flags: `--autoconfigure`, `--is-configured`, `--system`;
  * values: `--local`, `--mode`;
  * families: monitor, listen-address and device definitions, each with `set-` and `add-` counters;
  * diagnostics: the unknown options and the error messages.

  It then applies the validity rule and the three `set`/`add` exclusion rules.

## Modules

| module | file | content |
|---|---|---|
| `Lexical` | `lexical.dfy` | the `std::less<std::string>` key order of the multimaps, with its order laws |
| `OptionStore` | `store.dfy` | the store as values |
| `CommandLine` | `options.dfy` | class `Options` |
| `Validation` | `validation.dfy` | the validator as values |
| `ValidationFacts` | `validation_facts.dfy` | the induction over the map |
| `ValidationResults` | `validation_results.dfy` | what the validator computes, end to end |
| `NutConf` | `nutconf.dfy` | class `NutConfOptions` |

**`OptionStore`** holds the store as values:
* token classification (`Classify`);
* multimap insertion at the end of the equal range (`Insert`);
* `addArg` on the last occurrence (`AppendLast`);
* the left-to-right scan of the vector (`Scan`).

It also gives an independent reference description on the vector itself: `OccRef`, `FreeRef` and `OpenRef` say which tokens an occurrence owns. The scan is proved equal to this reference.

**`CommandLine`** is class `Options`. Its fields are the two maps, the free arguments and the target. The constructor and `add`/`addArg` update those fields. The read operations are the C++ iterator loops: `count` from `find`, the `get` walk, and `strings`. Each method is proved against the value model, and through it against the argument vector.

**`Validation`** is the validator as values:
* the result record `Config`;
* the per-name visit `Visit`, which takes the same branches as the constructor loop;
* the fold over the double-dashed name list;
* the final validity and exclusion step `Finish`;
* `Validate`.

**`ValidationFacts`** is the induction over the map. After the first `i` entries, every field of the state equals an independent reference definition. There are occurrence tallies, the first occurrence's arguments, per-entry contributions concatenated in map order, and per-entry messages.

**`ValidationResults`** states what the validator computes, end to end:
* every result field in terms of the map;
* the flags and counters in terms of the command line itself, and what a valid result says about the command line;
* the monitor list being made of whole definitions;
* the `--local` and `--mode` first-occurrence rules.

**`NutConf`** is class `NutConfOptions`. Its fields are updated in place:
* the constructor's two loops;
* the branch per name;
* the exclusion rules.

The constructor is proved to leave the object equal to `Validate` of its option store. It also has `optMode`, `getMode`, `getMonitor` and `reportInvalid`, and the "keep existing definitions" flag that `mainx` passes on.

Modelling choices:
* **Inheritance.** C++ inheritance is modelled as composition: `NutConfOptions` holds its `Options` part as the constant `opts`.
* **Strings.** Strings are `seq<char>`.
* **Counters.** The `size_t` counters are `nat`. They are bounded by `argc`, so they cannot wrap.
* **Error messages.** Each `m_errors` message is a constructor of `OptionError`. `Text` gives its exact wording, and `ErrorLines` gives the "Option error: " lines that `reportInvalid` writes.

## Model

| member | source | states |
|---|---|---|
| Lexical.LessEqReflexive | common/nutconfbin.cpp:95 | the multimap key order is reflexive |
| Lexical.LessEqAntisymmetric | common/nutconfbin.cpp:95 | the key order is antisymmetric, so equal keys are the same string |
| Lexical.LessEqTransitive | common/nutconfbin.cpp:95 | the key order is transitive |
| Lexical.LessEqTotal | common/nutconfbin.cpp:95 | any two keys are comparable |
| OptionStore.Classify | common/nutconfbin.cpp:422-440 | definition: a token is an argument, the "--" separator, or a single- or double-dashed option with its name |
| OptionStore.Insert | common/nutconfbin.cpp:335 | definition: multimap insert places the new entry after every entry whose name is not greater |
| OptionStore.AddOpt | common/nutconfbin.cpp:320-337 | definition: insert an empty occurrence into the chosen map and make it the target |
| OptionStore.AppendLast | common/nutconfbin.cpp:124-128 | definition: the argument joins the last entry of the open name |
| OptionStore.AddArgTo | common/nutconfbin.cpp:124-128 | definition: the argument goes to the target occurrence, or to the binary's arguments when there is none |
| OptionStore.Step | common/nutconfbin.cpp:418-440 | definition: one iteration of the constructor loop, by the token's class |
| OptionStore.Scan | common/nutconfbin.cpp:416-441 | definition: the constructor loop as a left fold of the step over the vector |
| OptionStore.ClassifyOptions | common/nutconfbin.cpp:416-441 | a token is the separator exactly when it is "--"; an option token is exactly `-name` or `--name` for a name that is non-empty and does not start with '-' |
| OptionStore.ClassifyArguments | common/nutconfbin.cpp:421-439 | a token is an argument exactly when it is empty, does not start with '-', is a lone "-", or starts with "---" |
| OptionStore.ClassifySpelling | common/nutconfbin.cpp:428-435 | spelling a valid name with one or two dashes gives back that option |
| OptionStore.InsertElements | common/nutconfbin.cpp:335 | multimap insert adds exactly the new entry and keeps every old one: the result's multiset is the old one plus the new entry |
| OptionStore.InsertSorted | common/nutconfbin.cpp:335 | insert keeps the map ordered by name |
| OptionStore.InsertOccurrences | common/nutconfbin.cpp:335 | the new occurrence goes after every existing occurrence of its name; other names are unchanged |
| OptionStore.AppendLastOccurrences | common/nutconfbin.cpp:124-128 | addArg extends the last occurrence of the open name and leaves every other name's occurrences unchanged |
| OptionStore.ScanSorted | common/nutconfbin.cpp:416-441 | after the constructor loop both maps are ordered by name |
| OptionStore.ScanTarget | common/nutconfbin.cpp:416-441 | m_last is the last option token, unless a "--" or nothing came after it |
| OptionStore.ScanFree | common/nutconfbin.cpp:416-441 | the binary's arguments are those before the first option and those after each "--" |
| OptionStore.ScanOccurrences | common/nutconfbin.cpp:416-441 | the occurrences of each name in each map are the option's tokens in command-line order, each owning the arguments up to the next option or separator |
| OptionStore.ScanMatchesReference | common/nutconfbin.cpp:416-441 | the loop's store agrees with the reference description, field by field |
| OptionStore.ScanTargetExists | common/nutconfbin.cpp:336 | when m_last is set, it points at an existing occurrence |
| OptionStore.ScanConservesTokens | common/nutconfbin.cpp:416-441 | the store holds every token of the vector exactly once, except the "--" separators |
| OptionStore.OccRefCount | common/nutconfbin.cpp:416-441 | the number of occurrences of an option is how often its spelling appears on the command line |
| OptionStore.EqualRange | common/nutconfbin.cpp:343-347 | in an ordered map, `find` starts the equal range of a name, and that range holds exactly its occurrences |
| OptionStore.NamesCount | common/nutconfbin.cpp:376-379 | the name list holds each name as often as it occurs in the map |
| CommandLine.Options.constructor | common/nutconfbin.cpp:416-441 | the object holds the store the scan computes from the vector, with both maps ordered |
| CommandLine.Options.Add | common/nutconfbin.cpp:320-337 | a new empty occurrence is inserted in the chosen map and becomes the target; nothing else changes |
| CommandLine.Options.AddArg | common/nutconfbin.cpp:124-128 | the argument goes to the target occurrence, or to the binary's arguments when there is no target |
| CommandLine.Options.CountIn | common/nutconfbin.cpp:341-350 | the walk from `find` counts exactly the occurrences of the name |
| CommandLine.Options.GetIn | common/nutconfbin.cpp:353-373 | found exactly when order is below the count; then the order-th occurrence's arguments; otherwise the caller's list is unchanged |
| CommandLine.Options.StringsOf | common/nutconfbin.cpp:376-379 | appends every entry's name in map order |
| CommandLine.Options.CountSingle | common/nutconfbin.cpp:187-189 | how often `-opt` appears on the command line |
| CommandLine.Options.CountDouble | common/nutconfbin.cpp:198-200 | how often `--opt` appears on the command line |
| CommandLine.Options.CountEither | common/nutconfbin.cpp:209-211 | the sum converted to bool: true exactly when `-opt` or `--opt` appears |
| CommandLine.Options.ExistsSingle | common/nutconfbin.cpp:221-223 | true exactly when `-opt` appears |
| CommandLine.Options.ExistsDouble | common/nutconfbin.cpp:233-235 | true exactly when `--opt` appears |
| CommandLine.Options.Exists | common/nutconfbin.cpp:245-247 | true exactly when `-opt` or `--opt` appears |
| CommandLine.Options.GetSingle | common/nutconfbin.cpp:259-261 | the order-th `-opt` occurrence's arguments on the command line, or failure with the list unchanged |
| CommandLine.Options.GetDouble | common/nutconfbin.cpp:273-275 | the same for `--opt` |
| CommandLine.Options.Get | common/nutconfbin.cpp:282 | the binary's arguments as the reference description gives them |
| CommandLine.Options.StringsSingle | common/nutconfbin.cpp:289-295 | the single-dashed names, ordered, each listed as often as `-name` appears |
| CommandLine.Options.StringsDouble | common/nutconfbin.cpp:302-308 | the double-dashed names, ordered, each listed as often as `--name` appears |
| CommandLine.Options.Strings | common/nutconfbin.cpp:448-454 | single-dashed names then double-dashed names, each counted by its appearances |
| Validation.Text | common/nutconfbin.cpp:673-820 | definition: the wording of each message the validator logs |
| Validation.OptModeOf | common/nutconfbin.cpp:632-640 | definition: NOT_SPECIFIED without an order-th occurrence, GETTER when it has no arguments, SETTER otherwise |
| Validation.Initial | common/nutconfbin.cpp:656-664 | definition: the state before the double-dashed loop, each single-dashed name listed as unknown |
| Validation.VisitLocal | common/nutconfbin.cpp:683-697 | definition: the --local branch |
| Validation.VisitMode | common/nutconfbin.cpp:704-721 | definition: the --mode branch |
| Validation.ApplyMonitor | common/nutconfbin.cpp:727-735 | definition: the checks of one monitor occurrence and the six arguments it appends |
| Validation.VisitMonitor | common/nutconfbin.cpp:722-738 | definition: the counter picks the occurrence and grows by one |
| Validation.ApplyListen | common/nutconfbin.cpp:744-754 | definition: the checks of one listen occurrence and the address it appends |
| Validation.VisitListen | common/nutconfbin.cpp:739-757 | definition: the counter picks the occurrence and grows by one |
| Validation.ApplyDevice | common/nutconfbin.cpp:763-789 | definition: the checks of one device occurrence and the device it appends |
| Validation.VisitDevice | common/nutconfbin.cpp:758-792 | definition: the counter picks the occurrence and grows by one |
| Validation.BranchOf | common/nutconfbin.cpp:669-798 | definition: the chain of name comparisons that picks the branch |
| Validation.Visit | common/nutconfbin.cpp:669-798 | definition: one iteration of the double-dashed loop |
| Validation.Fold | common/nutconfbin.cpp:666-798 | definition: the double-dashed loop over the name list |
| Validation.Exclusive | common/nutconfbin.cpp:804-809 | definition: one set/add exclusion rule |
| Validation.Finish | common/nutconfbin.cpp:800-823 | definition: validity, then the three exclusion rules |
| Validation.Validate | common/nutconfbin.cpp:643-824 | definition: what the constructor computes from an option store |
| Validation.CheckMode | common/nutconfbin.cpp:854-863 | true exactly for the six NUT modes |
| Validation.Prefixed | common/nutconfbin.cpp:662-664 | one prefixed name per name, in order |
| ValidationFacts.FoldAgrees | common/nutconfbin.cpp:669-798 | after the first i names, every field matches its reference definition: flags and counters from tallies, local and mode from the first occurrence, collections and messages per entry in map order |
| ValidationResults.FinishErrors | common/nutconfbin.cpp:804-823 | the final step appends the three conflict messages, in rule order |
| ValidationResults.FinishValid | common/nutconfbin.cpp:800-823 | valid exactly when nothing is unknown, no message was logged, the binary has no arguments and no family mixes set and add |
| ValidationResults.FinishKeeps | common/nutconfbin.cpp:800-823 | the final step changes only validity and the messages |
| ValidationResults.ValidateCharacterised | common/nutconfbin.cpp:643-824 | every result field in terms of the double-dashed map |
| ValidationResults.MonitorsAreWhole | common/nutconfbin.cpp:722-737 | the monitor list length is a multiple of six |
| ValidationResults.MonitorBlock | common/nutconfbin.cpp:733-735 | block k of the monitor list is the six arguments of one monitor occurrence |
| ValidationResults.ValidMeansClean | common/nutconfbin.cpp:800-823 | a valid result has no single-dashed option, no binary argument, only known names with no message, and no conflict |
| ValidationResults.FlagsFromArgv | common/nutconfbin.cpp:671-682 | each flag is set exactly when its token appears on the command line (also line 698-703 for --system) |
| ValidationResults.CountersFromArgv | common/nutconfbin.cpp:722-792 | each set/add counter is how often its token appears on the command line |
| ValidationResults.ValidCommandLine | common/nutconfbin.cpp:659-802 | on a valid command line every option is double-dashed and known, and nothing is left for the binary |
| ValidationResults.HelpIsInvalid | common/nutconfbin.cpp:795-802 | a command line carrying `--help` is invalid |
| ValidationResults.LocalAfterEmptyFirst | common/nutconfbin.cpp:683-697 | with `--local ""` first, local stays empty and no later --local is reported |
| ValidationResults.LocalRepeatReported | common/nutconfbin.cpp:683-697 | with a non-empty first directory, a second --local is reported as repeated, and local is the first directory |
| ValidationResults.ValidModeIsFirst | common/nutconfbin.cpp:704-721 | on a valid result, mode is the only argument of the first --mode, or "" |
| NutConf.KeepExisting | common/nutconfbin.cpp:1259-1275 | definition: existing definitions of a family are kept when an add counter is positive |
| NutConf.ErrorLines | common/nutconfbin.cpp:838-841 | definition: one "Option error: " line per logged message |
| NutConf.KeepExistingFromArgv | common/nutconfbin.cpp:1259-1275 | existing definitions of a family are kept exactly when its `--add-` token appears on the command line |
| NutConf.OptModeOnArgv | common/nutconfbin.cpp:632-640 | NOT_SPECIFIED when there is no order-th occurrence; GETTER when it has no arguments; otherwise SETTER with its arguments from the command line |
| NutConf.NutConfOptions.constructor | common/nutconfbin.cpp:643-824 | the object's fields are what the validator computes from the store of the vector |
| NutConf.NutConfOptions.CollectUnknownSingle | common/nutconfbin.cpp:659-664 | "-" + name is appended to the unknown list for each single-dashed name, in order; nothing else changes |
| NutConf.NutConfOptions.VisitAll | common/nutconfbin.cpp:666-798 | the loop's state is the fold of the visit over the name list |
| NutConf.NutConfOptions.OptMode | common/nutconfbin.cpp:632-640 | the mode and arguments of the optMode function on the double-dashed map |
| NutConf.NutConfOptions.VisitName | common/nutconfbin.cpp:669-798 | one iteration takes the branch and effect of the visit function |
| NutConf.NutConfOptions.VisitLocalOption | common/nutconfbin.cpp:683-697 | repeated, missing-argument and too-many-arguments errors, else local is set |
| NutConf.NutConfOptions.VisitModeOption | common/nutconfbin.cpp:704-721 | the --local checks, plus the unknown-mode check |
| NutConf.NutConfOptions.VisitMonitorOption | common/nutconfbin.cpp:722-738 | the variant's counter picks the occurrence and grows by one |
| NutConf.NutConfOptions.ApplyMonitorOption | common/nutconfbin.cpp:727-735 | missing or wrong-count arguments give an error; otherwise the push_back loop appends all six arguments |
| NutConf.NutConfOptions.VisitListenOption | common/nutconfbin.cpp:739-757 | the variant's counter picks the occurrence and grows by one |
| NutConf.NutConfOptions.ApplyListenOption | common/nutconfbin.cpp:744-754 | one or two arguments make an address (port "" when absent); otherwise an error |
| NutConf.NutConfOptions.VisitDeviceOption | common/nutconfbin.cpp:758-792 | the variant's counter picks the occurrence and grows by one |
| NutConf.NutConfOptions.ApplyDeviceOption | common/nutconfbin.cpp:763-789 | three or four arguments make a device (description "" when absent); fewer gives an error; more gives an error plus the quoting hint |
| NutConf.NutConfOptions.Conclude | common/nutconfbin.cpp:800-823 | validity, then the three exclusion rules, as the final step computes them |
| NutConf.NutConfOptions.Exclude | common/nutconfbin.cpp:804-809 | when both counters are positive, the conflict message is appended and the object becomes invalid |
| NutConf.NutConfOptions.GetMode | common/nutconfbin.cpp:586-594 | the first argument of the first --mode occurrence, or "" |
| NutConf.NutConfOptions.GetModeOnValid | common/nutconfbin.cpp:586-594 | on a valid object, getMode and the mode field agree |
| NutConf.NutConfOptions.GetMonitor | common/nutconfbin.cpp:866-887 | the range error exactly when which >= size / 6; otherwise the six fields from index 6 * which |
| NutConf.NutConfOptions.GetMonitorExact | common/nutconfbin.cpp:866-887 | on the object the bound is exact, and each definition is the arguments of one monitor occurrence |
| NutConf.NutConfOptions.ReportInvalid | common/nutconfbin.cpp:827-851 | the logic error exactly when valid; otherwise one line per unknown option, per error and per binary argument |
| NutConf.NutConfOptions.ReportExplains | common/nutconfbin.cpp:827-851 | an invalid object always reports at least one line |

## Left out

- `Options::dump`, `Usage`, the configuration-file readers and writers, numeric parsing and `main`/`mainx`: not part of the option engine. The `set*` calls of `mainx` are modelled only through the flag they receive (`KeepExisting`).
- Output streams: `reportInvalid` returns the lines it would write instead of writing them to `std::cerr`.
- Exceptions: the `std::logic_error` and the `std::range_error` are the `NothingToReport` and `IndexOverflow` outcomes.
- `std::multimap::find`: modelled as returning the first element of the equal range. This is libstdc++'s behaviour; the C++ standard only promises some element with that key.
- Characters: they compare by their code. This agrees with `std::char_traits<char>` on single-byte text; locale and signed-char effects are not modelled.
- `NutConfOptions.GetMode`: stated against the raw first `--mode` argument, as the source reads it. It agrees with the validated `mode` field only on a valid object (`GetModeOnValid`).
- The `--local ""` case: an empty first directory makes later `--local` options pass silently. It is shown as-is by `ValidationResults.LocalAfterEmptyFirst`, not treated as a defect.
- Validation beyond the argument count: the monitor mode and power value, and the listen and device fields, are not checked. The source does not check them either.
