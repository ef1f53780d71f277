/**
 * class Options of common/nutconfbin.cpp: the command-line option store as an
 * object.  Its fields are the two multimaps, the free arguments and the
 * m_last target; the constructor fills them token by token, and the read
 * operations walk the maps the way the C++ iterator loops do.  Every method is
 * proved against the value model of module OptionStore, and through it
 * against the argument vector itself.
 */
module CommandLine {
  import opened Lexical
  import opened OptionStore

  class Options {
    /** Single-dashed options (m_single), ordered by name. */
    var single: seq<Entry>
    /** Double-dashed options (m_double), ordered by name. */
    var double: seq<Entry>
    /** Arguments of the binary itself (m_args). */
    var args: seq<string>
    /** Where the next argument goes (m_last; Free is the NULL pointer). */
    var last: Target
    /** The argument vector the store was built from, program name excluded. */
    ghost var Argv: seq<string>

    function State(): Store
      reads this
    {
      Store(single, double, args, last)
    }

    ghost predicate Valid()
      reads this
    {
      State() == Scan(Argv) && Sorted(single) && Sorted(double)
    }

    /** Options(argv, argc): classify every token after the program name. */
    constructor (argv: seq<string>)
      ensures Valid() && Argv == argv
    {
      single, double, args, last := [], [], [], Free;
      Argv := argv;
      new;
      var i := 0;
      while i < |argv|
        invariant 0 <= i <= |argv|
        invariant State() == Scan(argv[..i]) && Argv == argv
      {
        var arg := argv[i];
        // The empty token and a lone "-" are arguments too
        if |arg| == 0 || arg[0] != '-' || |arg| == 1 {
          AddArg(arg);
        } else if arg[1] != '-' {
          Add(Single, arg[1..]);
        } else if |arg| == 2 {
          // "--" hands what follows back to the binary
          last := Free;
        } else if arg[2] != '-' {
          Add(Double, arg[2..]);
        } else {
          // "---" prefix: an argument
          AddArg(arg);
        }
        assert argv[..i + 1][..i] == argv[..i];
        i := i + 1;
      }
      assert argv[..i] == argv;
      ScanSorted(argv);
    }

    /** Options::add: a new, empty occurrence of `opt`, which becomes the target. */
    method Add(dash: Dash, opt: string)
      modifies this
      ensures State() == AddOpt(old(State()), dash, opt) && Argv == old(Argv)
    {
      match dash {
        case Single => single := Insert(single, Entry(opt, []));
        case Double => double := Insert(double, Entry(opt, []));
      }
      last := Open(dash, opt);
    }

    /** Options::addArg: append to the last option's arguments, or to the binary's. */
    method AddArg(arg: string)
      modifies this
      ensures State() == AddArgTo(old(State()), arg) && Argv == old(Argv)
    {
      match last {
        case Free => args := args + [arg];
        case Open(Single, n) => single := AppendLast(single, n, arg);
        case Open(Double, n) => double := AppendLast(double, n, arg);
      }
    }

    /** Options::count(map, opt): walk the equal range from find(opt). */
    static method CountIn(b: seq<Entry>, opt: string) returns (cnt: nat)
      requires Sorted(b)
      ensures cnt == CountOf(b, opt)
    {
      EqualRange(b, opt);
      cnt := 0;
      var entry := Find(b, opt);
      while entry < |b| && b[entry].name == opt
        invariant Find(b, opt) <= entry <= |b|
        invariant cnt == entry - Find(b, opt) <= CountOf(b, opt)
        decreases |b| - entry
      {
        cnt := cnt + 1;
        entry := entry + 1;
      }
    }

    /**
     * Options::get(map, opt, args, order): the order-th occurrence's arguments.
     * On failure `args` comes back as it was passed.
     */
    static method GetIn(b: seq<Entry>, opt: string, args: seq<string>, order: nat) returns (found: bool, result: seq<string>)
      requires Sorted(b)
      ensures found <==> order < CountOf(b, opt)
      ensures result == if found then Occurrences(b, opt)[order] else args
    {
      EqualRange(b, opt);
      var entry := Find(b, opt);
      if entry == |b| {
        return false, args;
      }
      var k := order;
      while k > 0
        invariant 0 <= k <= order
        invariant entry == Find(b, opt) + (order - k) < Find(b, opt) + CountOf(b, opt)
      {
        var next := entry + 1;
        if next == |b| || b[next].name != opt {
          return false, args;
        }
        entry := next;
        k := k - 1;
      }
      EqualRangeAt(b, opt, order);
      return true, b[entry].args;
    }

    /** Options::strings(map, list): push every entry's name, in map order. */
    static method StringsOf(b: seq<Entry>, list: seq<string>) returns (result: seq<string>)
      ensures result == list + Names(b)
    {
      result := list;
      var i := 0;
      while i < |b|
        invariant 0 <= i <= |b|
        invariant result == list + Names(b[..i])
      {
        assert Names(b[..i + 1]) == Names(b[..i]) + [b[i].name];
        result := result + [b[i].name];
        i := i + 1;
      }
      assert b[..i] == b;
    }

    /** Options::countSingle: how many times `-opt` appears on the command line. */
    method CountSingle(opt: string) returns (n: nat)
      requires Valid()
      ensures n == CountOf(single, opt)
      ensures n == if OptionName(opt) then multiset(Argv)[Spelling(Single, opt)] else 0
    {
      n := CountIn(single, opt);
      ScanOccurrences(Argv, Single, opt);
      OccRefCount(Argv, Single, opt);
    }

    /** Options::countDouble: how many times `--opt` appears on the command line. */
    method CountDouble(opt: string) returns (n: nat)
      requires Valid()
      ensures n == CountOf(double, opt)
      ensures n == if OptionName(opt) then multiset(Argv)[Spelling(Double, opt)] else 0
    {
      n := CountIn(double, opt);
      ScanOccurrences(Argv, Double, opt);
      OccRefCount(Argv, Double, opt);
    }

    /**
     * Options::count(opt): the sum of both counts, converted to the declared
     * bool return type, so it only says whether the option appeared at all.
     */
    method CountEither(opt: string) returns (r: bool)
      requires Valid()
      ensures r <==> OptionName(opt) && (Spelling(Single, opt) in Argv || Spelling(Double, opt) in Argv)
    {
      var s := CountSingle(opt);
      var d := CountDouble(opt);
      r := s + d != 0;
    }

    /** Options::existsSingle. */
    function ExistsSingle(opt: string): (r: bool)
      reads this
      requires Valid()
      ensures r <==> OptionName(opt) && Spelling(Single, opt) in Argv
    {
      ScanOccurrences(Argv, Single, opt);
      OccRefCount(Argv, Single, opt);
      CountOf(single, opt) > 0
    }

    /** Options::existsDouble. */
    function ExistsDouble(opt: string): (r: bool)
      reads this
      requires Valid()
      ensures r <==> OptionName(opt) && Spelling(Double, opt) in Argv
    {
      ScanOccurrences(Argv, Double, opt);
      OccRefCount(Argv, Double, opt);
      CountOf(double, opt) > 0
    }

    /** Options::exists: single- or double-dashed. */
    function Exists(opt: string): (r: bool)
      reads this
      requires Valid()
      ensures r <==> OptionName(opt) && (Spelling(Single, opt) in Argv || Spelling(Double, opt) in Argv)
    {
      ExistsSingle(opt) || ExistsDouble(opt)
    }

    /** Options::getSingle: the order-th `-opt` occurrence's arguments. */
    method GetSingle(opt: string, args: seq<string>, order: nat) returns (found: bool, result: seq<string>)
      requires Valid()
      ensures found <==> order < |OccRef(Argv, Single, opt)|
      ensures result == if found then OccRef(Argv, Single, opt)[order] else args
    {
      found, result := GetIn(single, opt, args, order);
      ScanOccurrences(Argv, Single, opt);
    }

    /** Options::getDouble: the order-th `--opt` occurrence's arguments. */
    method GetDouble(opt: string, args: seq<string>, order: nat) returns (found: bool, result: seq<string>)
      requires Valid()
      ensures found <==> order < |OccRef(Argv, Double, opt)|
      ensures result == if found then OccRef(Argv, Double, opt)[order] else args
    {
      found, result := GetIn(double, opt, args, order);
      ScanOccurrences(Argv, Double, opt);
    }

    /** Options::get(): the arguments of the binary itself. */
    function Get(): (r: seq<string>)
      reads this
      requires Valid()
      ensures r == FreeRef(Argv)
    {
      ScanFree(Argv);
      args
    }

    /**
     * Options::stringsSingle: one name per occurrence, ordered by name, each
     * name listed as often as `-name` appears.
     */
    method StringsSingle() returns (list: seq<string>)
      requires Valid()
      ensures list == Names(single)
      ensures forall i, j :: 0 <= i < j < |list| ==> LessEq(list[i], list[j])
      ensures forall n :: multiset(list)[n] == |OccRef(Argv, Single, n)|
    {
      list := StringsOf(single, []);
      NamesSorted(single);
      NamesTally(Argv, Single);
    }

    /** Options::stringsDouble: the same for the double-dashed options. */
    method StringsDouble() returns (list: seq<string>)
      requires Valid()
      ensures list == Names(double)
      ensures forall i, j :: 0 <= i < j < |list| ==> LessEq(list[i], list[j])
      ensures forall n :: multiset(list)[n] == |OccRef(Argv, Double, n)|
    {
      list := StringsOf(double, []);
      NamesSorted(double);
      NamesTally(Argv, Double);
    }

    /** Options::strings(): the single-dashed names followed by the double-dashed ones. */
    method Strings() returns (list: seq<string>)
      requires Valid()
      ensures list == Names(single) + Names(double)
      ensures forall n :: multiset(list)[n] == |OccRef(Argv, Single, n)| + |OccRef(Argv, Double, n)|
    {
      list := StringsSingle();
      list := StringsOf(double, list);
      NamesTally(Argv, Single);
      NamesTally(Argv, Double);
    }
  }
}
