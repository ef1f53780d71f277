/**
 * The generic command-line option store of nutconf (class Options in
 * common/nutconfbin.cpp) as values: token classification, the two option
 * multimaps, the free-argument list and the "last opened option" target,
 * the left-to-right scan of the argument vector that fills them, and an
 * independent reference description of what the scan stores.
 */
module OptionStore {
  import opened Lexical

  /** Which of the two option maps an option goes to. */
  datatype Dash = Single | Double

  /** What one command-line token is. */
  datatype Token = Arg | Opt(dash: Dash, name: string) | Separator

  /** One occurrence of an option: its name and the arguments that followed it. */
  datatype Entry = Entry(name: string, args: seq<string>)

  /**
   * Where the next argument goes (the m_last pointer): the free arguments, or
   * the most recently inserted occurrence of `name` in the `dash` map.
   */
  datatype Target = Free | Open(dash: Dash, name: string)

  /** The whole store: m_single, m_double, m_args and m_last. */
  datatype Store = Store(single: seq<Entry>, double: seq<Entry>, free: seq<string>, last: Target)

  /** The token that opens an option of that name. */
  function Spelling(d: Dash, name: string): string
  {
    if d == Single then "-" + name else "--" + name
  }

  /** A name an option token can carry: non-empty and not starting with a dash. */
  predicate OptionName(name: string)
  {
    name != [] && name[0] != '-'
  }

  /** Token classification of the Options constructor loop. */
  function Classify(tok: string): Token
  {
    if |tok| == 0 || tok[0] != '-' || |tok| == 1 then Arg
    else if tok[1] != '-' then Opt(Single, tok[1..])
    else if |tok| == 2 then Separator
    else if tok[2] != '-' then Opt(Double, tok[2..])
    else Arg
  }

  /** An option token is exactly the spelling of a valid name; the separator is exactly "--". */
  lemma ClassifyOptions(tok: string)
    ensures Classify(tok) == Separator <==> tok == "--"
    ensures Classify(tok).Opt? ==> OptionName(Classify(tok).name) && tok == Spelling(Classify(tok).dash, Classify(tok).name)
  {
    var k := Classify(tok);
    if k.Opt? {
      assert tok == [tok[0]] + tok[1..];
      assert |tok| > 2 ==> tok == [tok[0], tok[1]] + tok[2..];
    }
  }

  /**
   * Everything else is an argument: the empty token, one not starting with a
   * dash, a lone "-", and one with three or more leading dashes.
   */
  lemma ClassifyArguments(tok: string)
    ensures Classify(tok) == Arg <==> tok == [] || tok[0] != '-' || tok == "-" || (|tok| >= 3 && tok[..3] == "---")
  {
  }

  /** Every valid name's spelling opens exactly that option. */
  lemma ClassifySpelling(d: Dash, n: string)
    requires OptionName(n)
    ensures Classify(Spelling(d, n)) == Opt(d, n)
  {
    var tok := Spelling(d, n);
    if d == Single {
      assert tok[1..] == n;
    } else {
      assert tok[2..] == n;
    }
  }

  /** The entries of a map are ordered by name (the multimap's key order). */
  ghost predicate Sorted(b: seq<Entry>)
  {
    forall i, j :: 0 <= i < j < |b| ==> LessEq(b[i].name, b[j].name)
  }

  /** The argument lists of the occurrences of `n`, in map order. */
  function Occurrences(b: seq<Entry>, n: string): seq<seq<string>>
  {
    if b == [] then []
    else (if b[0].name == n then [b[0].args] else []) + Occurrences(b[1..], n)
  }

  /** Number of occurrences of `n` (Options::count on one map). */
  function CountOf(b: seq<Entry>, n: string): nat
  {
    |Occurrences(b, n)|
  }

  /** One name per entry, in map order (what Options::strings appends). */
  function Names(b: seq<Entry>): seq<string>
  {
    seq(|b|, i requires 0 <= i < |b| => b[i].name)
  }

  /** std::multimap::insert: the new entry goes after every entry with an equal name. */
  function Insert(b: seq<Entry>, e: Entry): seq<Entry>
  {
    if b == [] then [e]
    else if Less(e.name, b[0].name) then [e] + b
    else [b[0]] + Insert(b[1..], e)
  }

  /** Append `arg` to the argument list of the last entry named `n`. */
  function AppendLast(b: seq<Entry>, n: string, arg: string): seq<Entry>
  {
    if b == [] then []
    else if b[0].name == n && CountOf(b[1..], n) == 0 then [Entry(n, b[0].args + [arg])] + b[1..]
    else [b[0]] + AppendLast(b[1..], n, arg)
  }

  /** Append `arg` to the last of a sequence of argument lists. */
  function ExtendLast(s: seq<seq<string>>, arg: string): seq<seq<string>>
  {
    if s == [] then [] else s[..|s| - 1] + [s[|s| - 1] + [arg]]
  }

  function Bucket(s: Store, d: Dash): seq<Entry>
  {
    if d == Single then s.single else s.double
  }

  /** Options::add: insert an empty occurrence and make it the target. */
  function AddOpt(s: Store, d: Dash, n: string): Store
  {
    if d == Single then s.(single := Insert(s.single, Entry(n, [])), last := Open(Single, n))
    else s.(double := Insert(s.double, Entry(n, [])), last := Open(Double, n))
  }

  /** Options::addArg: append to the target, or to the free arguments. */
  function AddArgTo(s: Store, arg: string): Store
  {
    match s.last
    case Free => s.(free := s.free + [arg])
    case Open(d, n) =>
      if d == Single then s.(single := AppendLast(s.single, n, arg))
      else s.(double := AppendLast(s.double, n, arg))
  }

  /** One iteration of the constructor loop. */
  function Step(s: Store, tok: string): Store
  {
    match Classify(tok)
    case Arg => AddArgTo(s, tok)
    case Opt(d, n) => AddOpt(s, d, n)
    case Separator => s.(last := Free)
  }

  const Empty := Store([], [], [], Free)

  /** The store after the constructor has processed `argv` (program name excluded). */
  function Scan(argv: seq<string>): Store
  {
    if argv == [] then Empty else Step(Scan(argv[..|argv| - 1]), argv[|argv| - 1])
  }

  // ---------------------------------------------------------------------
  // Reference description of the store, stated on the argument vector.
  // ---------------------------------------------------------------------

  /** Index of the last token that is not an argument, or -1. */
  function LastBreak(argv: seq<string>): (j: int)
    ensures -1 <= j < |argv|
    ensures forall i :: j < i < |argv| ==> Classify(argv[i]) == Arg
    ensures 0 <= j ==> Classify(argv[j]) != Arg
  {
    if argv == [] then -1
    else if Classify(argv[|argv| - 1]) != Arg then |argv| - 1
    else LastBreak(argv[..|argv| - 1])
  }

  /**
   * The occurrences of option `n` in the `d` map: one per token spelling it, in
   * command-line order, each owning exactly the arguments up to the next
   * option or separator.
   */
  function OccRef(argv: seq<string>, d: Dash, n: string): seq<seq<string>>
    decreases |argv|
  {
    var j := LastBreak(argv);
    if j < 0 then []
    else OccRef(argv[..j], d, n) + (if Classify(argv[j]) == Opt(d, n) then [argv[j + 1..]] else [])
  }

  /** The free arguments: those before the first option and those after each separator. */
  function FreeRef(argv: seq<string>): seq<string>
    decreases |argv|
  {
    var j := LastBreak(argv);
    if j < 0 then argv
    else FreeRef(argv[..j]) + (if Classify(argv[j]) == Separator then argv[j + 1..] else [])
  }

  /** The target after `argv`: the last option token, unless a separator (or nothing) came later. */
  function OpenRef(argv: seq<string>): Target
  {
    var j := LastBreak(argv);
    if 0 <= j && Classify(argv[j]).Opt? then Open(Classify(argv[j]).dash, Classify(argv[j]).name) else Free
  }

  /** The tokens a store holds: option spellings, their arguments and the free arguments. */
  function Rendered(b: seq<Entry>, d: Dash): multiset<string>
  {
    if b == [] then multiset{}
    else multiset{Spelling(d, b[0].name)} + multiset(b[0].args) + Rendered(b[1..], d)
  }

  function Tokens(s: Store): multiset<string>
  {
    Rendered(s.single, Single) + Rendered(s.double, Double) + multiset(s.free)
  }

  // ---------------------------------------------------------------------
  // Lemmas about the map operations
  // ---------------------------------------------------------------------

  lemma {:induction false} OccurrencesAppend(a: seq<Entry>, b: seq<Entry>, n: string)
    ensures Occurrences(a + b, n) == Occurrences(a, n) + Occurrences(b, n)
  {
    if a == [] {
      assert a + b == b;
    } else {
      assert (a + b)[1..] == a[1..] + b;
      OccurrencesAppend(a[1..], b, n);
    }
  }

  lemma {:induction false} OccurrencesAbsent(b: seq<Entry>, n: string)
    requires forall i :: 0 <= i < |b| ==> b[i].name != n
    ensures Occurrences(b, n) == []
  {
    if b != [] {
      OccurrencesAbsent(b[1..], n);
    }
  }

  /** Every name of `b` is strictly above `n`, so `n` does not occur. */
  lemma AboveAbsent(b: seq<Entry>, n: string)
    requires Sorted(b) && b != [] && Less(n, b[0].name)
    ensures Occurrences(b, n) == []
  {
    forall i | 0 <= i < |b| ensures b[i].name != n {
      if i > 0 {
        LessLessEqTransitive(n, b[0].name, b[i].name);
      }
    }
    OccurrencesAbsent(b, n);
  }

  lemma SortedTail(b: seq<Entry>)
    requires Sorted(b) && b != []
    ensures Sorted(b[1..])
  {
  }

  /** A sorted sequence preceded by a name below all its entries is sorted. */
  lemma SortedCons(x: Entry, b: seq<Entry>)
    requires Sorted(b)
    requires forall i :: 0 <= i < |b| ==> LessEq(x.name, b[i].name)
    ensures Sorted([x] + b)
  {
    var c := [x] + b;
    forall i, j | 0 <= i < j < |c| ensures LessEq(c[i].name, c[j].name) {
      if i > 0 {
        assert c[i] == b[i - 1] && c[j] == b[j - 1];
      } else {
        assert c[j] == b[j - 1];
      }
    }
  }

  lemma {:induction false} InsertElements(b: seq<Entry>, e: Entry)
    ensures |Insert(b, e)| == |b| + 1
    ensures forall i :: 0 <= i < |Insert(b, e)| ==> Insert(b, e)[i] == e || Insert(b, e)[i] in b
    ensures multiset(Insert(b, e)) == multiset(b) + multiset{e}
  {
    if b != [] && !Less(e.name, b[0].name) {
      InsertElements(b[1..], e);
      assert b == [b[0]] + b[1..];
      var r := Insert(b, e);
      forall i | 0 <= i < |r| ensures r[i] == e || r[i] in b {
        if i > 0 {
          assert r[i] == Insert(b[1..], e)[i - 1];
          assert Insert(b[1..], e)[i - 1] in b[1..] ==> r[i] in b;
        }
      }
    }
  }

  /** Insertion keeps the map ordered. */
  lemma {:induction false} InsertSorted(b: seq<Entry>, e: Entry)
    requires Sorted(b)
    ensures Sorted(Insert(b, e))
  {
    if b == [] {
    } else if Less(e.name, b[0].name) {
      forall i | 0 <= i < |b| ensures LessEq(e.name, b[i].name) {
        LessEqReflexive(b[0].name);
        LessEqTransitive(e.name, b[0].name, b[i].name);
      }
      SortedCons(e, b);
    } else {
      SortedTail(b);
      InsertSorted(b[1..], e);
      InsertElements(b[1..], e);
      var r := Insert(b[1..], e);
      NotLessIsLessEq(e.name, b[0].name);
      forall i | 0 <= i < |r| ensures LessEq(b[0].name, r[i].name) {
        if r[i] != e {
          var k :| 0 <= k < |b[1..]| && b[1..][k] == r[i];
          assert b[k + 1] == r[i];
        }
      }
      SortedCons(b[0], r);
    }
  }

  /** Insertion adds one occurrence at the end of its name's range and leaves other names alone. */
  lemma {:induction false} InsertOccurrences(b: seq<Entry>, e: Entry, n: string)
    requires Sorted(b)
    ensures Occurrences(Insert(b, e), n) == Occurrences(b, n) + (if n == e.name then [e.args] else [])
  {
    if b == [] {
    } else if Less(e.name, b[0].name) {
      OccurrencesCons(e, b, n);
      if n == e.name {
        AboveAbsent(b, e.name);
      }
    } else {
      SortedTail(b);
      InsertOccurrences(b[1..], e, n);
      OccurrencesCons(b[0], Insert(b[1..], e), n);
    }
  }

  lemma OccurrencesCons(e: Entry, b: seq<Entry>, n: string)
    ensures Occurrences([e] + b, n) == (if e.name == n then [e.args] else []) + Occurrences(b, n)
  {
    assert ([e] + b)[1..] == b;
  }

  lemma {:induction false} InsertRendered(b: seq<Entry>, e: Entry, d: Dash)
    ensures Rendered(Insert(b, e), d) == Rendered(b, d) + multiset{Spelling(d, e.name)} + multiset(e.args)
  {
    if b == [] {
    } else if Less(e.name, b[0].name) {
      assert ([e] + b)[1..] == b;
    } else {
      InsertRendered(b[1..], e, d);
      assert ([b[0]] + Insert(b[1..], e))[1..] == Insert(b[1..], e);
    }
  }

  /** Two maps whose entries carry the same names position by position. */
  ghost predicate SameNames(a: seq<Entry>, b: seq<Entry>)
  {
    |a| == |b| && forall i :: 0 <= i < |a| ==> a[i].name == b[i].name
  }

  lemma {:induction false} AppendLastNames(b: seq<Entry>, n: string, arg: string)
    ensures SameNames(AppendLast(b, n, arg), b)
  {
    if b != [] && !(b[0].name == n && CountOf(b[1..], n) == 0) {
      AppendLastNames(b[1..], n, arg);
      var r := AppendLast(b, n, arg);
      assert r == [b[0]] + AppendLast(b[1..], n, arg);
      forall i | 0 < i < |r| ensures r[i].name == b[i].name {
        assert r[i] == AppendLast(b[1..], n, arg)[i - 1];
      }
    }
  }

  lemma SortedBySameNames(a: seq<Entry>, b: seq<Entry>)
    requires SameNames(a, b) && Sorted(a)
    ensures Sorted(b)
  {
  }

  lemma ExtendLastAppend(x: seq<seq<string>>, y: seq<seq<string>>, arg: string)
    requires y != []
    ensures ExtendLast(x + y, arg) == x + ExtendLast(y, arg)
  {
    assert (x + y)[..|x + y| - 1] == x + y[..|y| - 1];
  }

  /** Appending an argument extends exactly the last occurrence of that name. */
  lemma {:induction false} AppendLastOccurrences(b: seq<Entry>, n: string, arg: string, m: string)
    ensures Occurrences(AppendLast(b, n, arg), m) == if m == n then ExtendLast(Occurrences(b, n), arg) else Occurrences(b, m)
  {
    if b == [] {
    } else if b[0].name == n && CountOf(b[1..], n) == 0 {
      AppendLastOccurrencesHead(b, n, arg, m);
    } else {
      AppendLastOccurrences(b[1..], n, arg, m);
      AppendLastOccurrencesStep(b, n, arg, m);
    }
  }

  lemma AppendLastOccurrencesHead(b: seq<Entry>, n: string, arg: string, m: string)
    requires b != [] && b[0].name == n && CountOf(b[1..], n) == 0
    ensures Occurrences(AppendLast(b, n, arg), m) == if m == n then ExtendLast(Occurrences(b, n), arg) else Occurrences(b, m)
  {
    OccurrencesCons(Entry(n, b[0].args + [arg]), b[1..], m);
    if m == n {
      assert Occurrences(b, n) == [b[0].args];
    }
  }

  lemma AppendLastOccurrencesStep(b: seq<Entry>, n: string, arg: string, m: string)
    requires b != [] && !(b[0].name == n && CountOf(b[1..], n) == 0)
    requires Occurrences(AppendLast(b[1..], n, arg), m) == if m == n then ExtendLast(Occurrences(b[1..], n), arg) else Occurrences(b[1..], m)
    ensures Occurrences(AppendLast(b, n, arg), m) == if m == n then ExtendLast(Occurrences(b, n), arg) else Occurrences(b, m)
  {
    OccurrencesCons(b[0], AppendLast(b[1..], n, arg), m);
    if m == n && b[0].name == n {
      ExtendLastAppend([b[0].args], Occurrences(b[1..], n), arg);
    }
  }

  lemma {:induction false} AppendLastRendered(b: seq<Entry>, n: string, arg: string, d: Dash)
    ensures Rendered(AppendLast(b, n, arg), d) == Rendered(b, d) + (if CountOf(b, n) > 0 then multiset{arg} else multiset{})
  {
    if b == [] {
    } else if b[0].name == n && CountOf(b[1..], n) == 0 {
      AppendLastRenderedHead(b, n, arg, d);
    } else {
      AppendLastRendered(b[1..], n, arg, d);
      RenderedCons(b[0], AppendLast(b[1..], n, arg), d);
      CountOfHead(b, n);
    }
  }

  lemma CountOfHead(b: seq<Entry>, n: string)
    requires b != []
    ensures CountOf(b, n) == (if b[0].name == n then 1 else 0) + CountOf(b[1..], n)
  {
  }

  lemma AppendLastRenderedHead(b: seq<Entry>, n: string, arg: string, d: Dash)
    requires b != [] && b[0].name == n && CountOf(b[1..], n) == 0
    ensures Rendered(AppendLast(b, n, arg), d) == Rendered(b, d) + multiset{arg}
  {
    var e := Entry(n, b[0].args + [arg]);
    RenderedCons(e, b[1..], d);
    assert multiset(e.args) == multiset(b[0].args) + multiset{arg};
  }

  lemma RenderedCons(e: Entry, b: seq<Entry>, d: Dash)
    ensures Rendered([e] + b, d) == multiset{Spelling(d, e.name)} + multiset(e.args) + Rendered(b, d)
  {
    assert ([e] + b)[1..] == b;
  }

  // ---------------------------------------------------------------------
  // The scan agrees with the reference description
  // ---------------------------------------------------------------------

  lemma LastBreakOfArg(argv: seq<string>)
    requires argv != [] && Classify(argv[|argv| - 1]) == Arg
    ensures LastBreak(argv) == LastBreak(argv[..|argv| - 1])
  {
  }

  lemma SliceBeforeLast(argv: seq<string>, j: int)
    requires 0 <= j < |argv| - 1
    ensures argv[..j] == argv[..|argv| - 1][..j] && argv[j] == argv[..|argv| - 1][j]
    ensures argv[j + 1..] == argv[..|argv| - 1][j + 1..] + [argv[|argv| - 1]]
  {
  }

  /** Splitting off the last token when it is an argument. */
  lemma ArgSplit(argv: seq<string>, j: int)
    requires argv != [] && Classify(argv[|argv| - 1]) == Arg
    requires j == LastBreak(argv[..|argv| - 1])
    ensures LastBreak(argv) == j
    ensures j >= 0 ==> argv[..j] == argv[..|argv| - 1][..j] && argv[j] == argv[..|argv| - 1][j]
    ensures j >= 0 ==> argv[j + 1..] == argv[..|argv| - 1][j + 1..] + [argv[|argv| - 1]]
  {
    LastBreakOfArg(argv);
    if j >= 0 {
      SliceBeforeLast(argv, j);
    }
  }

  /** Splitting off the last token when it is an option or the separator. */
  lemma BreakSplit(argv: seq<string>)
    requires argv != [] && Classify(argv[|argv| - 1]) != Arg
    ensures LastBreak(argv) == |argv| - 1
    ensures argv[..LastBreak(argv)] == argv[..|argv| - 1] && argv[LastBreak(argv) + 1..] == []
  {
  }

  /** The reference target after one more token. */
  lemma OpenRefStep(argv: seq<string>)
    requires argv != []
    ensures OpenRef(argv) == match Classify(argv[|argv| - 1])
      case Arg => OpenRef(argv[..|argv| - 1])
      case Opt(d, n) => Open(d, n)
      case Separator => Free
  {
    if Classify(argv[|argv| - 1]) == Arg {
      ArgSplit(argv, LastBreak(argv[..|argv| - 1]));
    } else {
      BreakSplit(argv);
    }
  }

  /** The reference free arguments after one more token. */
  lemma FreeRefStep(argv: seq<string>)
    requires argv != []
    ensures FreeRef(argv) == (
      var p := argv[..|argv| - 1];
      if Classify(argv[|argv| - 1]) == Arg && OpenRef(p) == Free then FreeRef(p) + [argv[|argv| - 1]]
      else FreeRef(p))
  {
    if Classify(argv[|argv| - 1]) == Arg {
      FreeRefArg(argv);
    } else {
      BreakSplit(argv);
    }
  }

  /** An argument is free exactly when no option is open before it. */
  lemma FreeRefArg(argv: seq<string>)
    requires argv != [] && Classify(argv[|argv| - 1]) == Arg
    ensures FreeRef(argv) == if OpenRef(argv[..|argv| - 1]) == Free then FreeRef(argv[..|argv| - 1]) + [argv[|argv| - 1]]
                             else FreeRef(argv[..|argv| - 1])
  {
    var p := argv[..|argv| - 1];
    var j := LastBreak(p);
    ArgSplit(argv, j);
    if j < 0 {
      FreeRefNoBreak(argv);
    } else {
      FreeRefAfterBreak(argv, j);
    }
  }

  /** Only arguments so far: all of them are free. */
  lemma FreeRefNoBreak(argv: seq<string>)
    requires argv != [] && LastBreak(argv) < 0 && LastBreak(argv[..|argv| - 1]) < 0
    ensures FreeRef(argv) == FreeRef(argv[..|argv| - 1]) + [argv[|argv| - 1]]
    ensures OpenRef(argv[..|argv| - 1]) == Free
  {
    LastSplit(argv);
  }

  /** An argument after the last option or separator, at j. */
  lemma FreeRefAfterBreak(argv: seq<string>, j: int)
    requires argv != [] && 0 <= j == LastBreak(argv) == LastBreak(argv[..|argv| - 1])
    requires argv[..j] == argv[..|argv| - 1][..j] && argv[j] == argv[..|argv| - 1][j]
    requires argv[j + 1..] == argv[..|argv| - 1][j + 1..] + [argv[|argv| - 1]]
    ensures FreeRef(argv) == if OpenRef(argv[..|argv| - 1]) == Free then FreeRef(argv[..|argv| - 1]) + [argv[|argv| - 1]]
                             else FreeRef(argv[..|argv| - 1])
  {
    var p, t := argv[..|argv| - 1], argv[|argv| - 1];
    var h, k := FreeRef(p[..j]), Classify(p[j]);
    var tail := p[j + 1..];
    assert FreeRef(argv) == h + (if k == Separator then tail + [t] else []);
    assert FreeRef(p) == h + (if k == Separator then tail else []);
    assert OpenRef(p) == if k.Opt? then Open(k.dash, k.name) else Free;
    if k == Separator {
      ConcatAssoc(h, tail, [t]);
    }
  }

  lemma ConcatAssoc(a: seq<string>, b: seq<string>, c: seq<string>)
    ensures a + (b + c) == (a + b) + c
  {
  }

  lemma LastSplit(s: seq<string>)
    requires s != []
    ensures s == s[..|s| - 1] + [s[|s| - 1]]
  {
  }

  /** The reference occurrences after one more token. */
  lemma OccRefStep(argv: seq<string>, d: Dash, n: string)
    requires argv != []
    ensures OccRef(argv, d, n) == (
      var p := argv[..|argv| - 1];
      var t := argv[|argv| - 1];
      if Classify(t) == Arg then
        (if OpenRef(p) == Open(d, n) then ExtendLast(OccRef(p, d, n), t) else OccRef(p, d, n))
      else OccRef(p, d, n) + (if Classify(t) == Opt(d, n) then [[]] else []))
  {
    var p := argv[..|argv| - 1];
    var t := argv[|argv| - 1];
    if Classify(t) == Arg {
      var j := LastBreak(p);
      ArgSplit(argv, j);
      if j >= 0 {
        var h := OccRef(p[..j], d, n);
        assert OccRef(argv, d, n) == h + (if Classify(p[j]) == Opt(d, n) then [p[j + 1..] + [t]] else []);
        if Classify(p[j]) == Opt(d, n) {
          assert OccRef(p, d, n) == h + [p[j + 1..]];
          assert ExtendLast(h + [p[j + 1..]], t) == h + [p[j + 1..] + [t]];
        }
      }
    } else {
      BreakSplit(argv);
    }
  }

  /** The scan keeps both maps ordered by name. */
  lemma {:induction false} ScanSorted(argv: seq<string>)
    ensures Sorted(Scan(argv).single) && Sorted(Scan(argv).double)
  {
    if argv != [] {
      var p := argv[..|argv| - 1];
      var t := argv[|argv| - 1];
      ScanSorted(p);
      var s := Scan(p);
      match Classify(t)
      case Arg =>
        if s.last.Open? {
          AppendLastNames(Bucket(s, s.last.dash), s.last.name, t);
          SortedBySameNames(Bucket(s, s.last.dash), AppendLast(Bucket(s, s.last.dash), s.last.name, t));
        }
      case Opt(d0, n0) =>
        InsertSorted(Bucket(s, d0), Entry(n0, []));
      case Separator =>
    }
  }

  /** The scan's target is the last option token, unless a separator came after it. */
  lemma {:induction false} ScanTarget(argv: seq<string>)
    ensures Scan(argv).last == OpenRef(argv)
  {
    if argv != [] {
      ScanTarget(argv[..|argv| - 1]);
      OpenRefStep(argv);
    }
  }

  /** The free arguments are those before any option and those after each separator. */
  lemma {:induction false} ScanFree(argv: seq<string>)
    ensures Scan(argv).free == FreeRef(argv)
  {
    if argv != [] {
      var p := argv[..|argv| - 1];
      ScanFree(p);
      ScanTarget(p);
      FreeRefStep(argv);
    }
  }

  /**
   * Occurrences of one name in one map, as the scan stores them, are the
   * reference occurrences: command-line order, each with its own arguments.
   */
  lemma {:induction false} ScanOccurrences(argv: seq<string>, d: Dash, n: string)
    ensures Occurrences(Bucket(Scan(argv), d), n) == OccRef(argv, d, n)
  {
    if argv == [] {
      return;
    }
    var p := argv[..|argv| - 1];
    var t := argv[|argv| - 1];
    ScanOccurrences(p, d, n);
    ScanTarget(p);
    ScanSorted(p);
    OccRefStep(argv, d, n);
    StepOccurrences(Scan(p), t, d, n);
  }

  /** What one step of the scan does to the occurrences of one name. */
  lemma StepOccurrences(s: Store, t: string, d: Dash, n: string)
    requires Sorted(s.single) && Sorted(s.double)
    ensures Occurrences(Bucket(Step(s, t), d), n) == (
      if Classify(t) == Arg then
        (if s.last == Open(d, n) then ExtendLast(Occurrences(Bucket(s, d), n), t) else Occurrences(Bucket(s, d), n))
      else Occurrences(Bucket(s, d), n) + (if Classify(t) == Opt(d, n) then [[]] else []))
  {
    match Classify(t)
    case Arg =>
      if s.last.Open? && s.last.dash == d {
        AppendLastOccurrences(Bucket(s, d), s.last.name, t, n);
      }
    case Opt(d0, n0) =>
      if d0 == d {
        InsertOccurrences(Bucket(s, d0), Entry(n0, []), n);
      }
    case Separator =>
  }

  /**
   * The scan keeps both maps ordered, and what it stores is the reference
   * description: occurrences in command-line order with the arguments that
   * follow each one, the free arguments, and the open target.
   */
  lemma ScanMatchesReference(argv: seq<string>)
    ensures Sorted(Scan(argv).single) && Sorted(Scan(argv).double)
    ensures Scan(argv).last == OpenRef(argv)
    ensures Scan(argv).free == FreeRef(argv)
    ensures forall d, n :: Occurrences(Bucket(Scan(argv), d), n) == OccRef(argv, d, n)
  {
    ScanSorted(argv);
    ScanTarget(argv);
    ScanFree(argv);
    forall d, n ensures Occurrences(Bucket(Scan(argv), d), n) == OccRef(argv, d, n) {
      ScanOccurrences(argv, d, n);
    }
  }

  /** While an option is open, its name has at least one occurrence. */
  lemma OpenHasOccurrence(argv: seq<string>)
    requires OpenRef(argv).Open?
    ensures |OccRef(argv, OpenRef(argv).dash, OpenRef(argv).name)| > 0
  {
  }

  lemma StepTokensArg(s: Store, t: string)
    requires Classify(t) == Arg
    requires s.last.Open? ==> CountOf(Bucket(s, s.last.dash), s.last.name) > 0
    ensures Tokens(Step(s, t)) == Tokens(s) + multiset{t}
  {
    assert Step(s, t) == AddArgTo(s, t);
    AddArgTokens(s, t);
  }

  lemma AddArgTokens(s: Store, t: string)
    requires s.last.Open? ==> CountOf(Bucket(s, s.last.dash), s.last.name) > 0
    ensures Tokens(AddArgTo(s, t)) == Tokens(s) + multiset{t}
  {
    match s.last {
      case Free =>
        assert multiset(s.free + [t]) == multiset(s.free) + multiset{t};
      case Open(d0, n0) =>
        if d0 == Single {
          AddArgTokensSingle(s, n0, t);
        } else {
          AddArgTokensDouble(s, n0, t);
        }
    }
  }

  lemma AddArgTokensSingle(s: Store, n: string, t: string)
    requires CountOf(s.single, n) > 0
    ensures Tokens(s.(single := AppendLast(s.single, n, t))) == Tokens(s) + multiset{t}
  {
    AppendLastRendered(s.single, n, t, Single);
  }

  lemma AddArgTokensDouble(s: Store, n: string, t: string)
    requires CountOf(s.double, n) > 0
    ensures Tokens(s.(double := AppendLast(s.double, n, t))) == Tokens(s) + multiset{t}
  {
    AppendLastRendered(s.double, n, t, Double);
  }

  lemma StepTokensOpt(s: Store, t: string)
    requires Classify(t).Opt?
    ensures Tokens(Step(s, t)) == Tokens(s) + multiset{t}
  {
    ClassifyOptions(t);
    InsertRendered(Bucket(s, Classify(t).dash), Entry(Classify(t).name, []), Classify(t).dash);
  }

  /** One step of the scan stores its token, unless it is the separator. */
  lemma StepTokens(s: Store, t: string)
    requires s.last.Open? ==> CountOf(Bucket(s, s.last.dash), s.last.name) > 0
    ensures Tokens(Step(s, t)) == Tokens(s) + (if t == "--" then multiset{} else multiset{t})
  {
    ClassifyOptions(t);
    if Classify(t) == Arg {
      StepTokensArg(s, t);
    } else if Classify(t).Opt? {
      StepTokensOpt(s, t);
    }
  }

  lemma DropSeparators(argv: seq<string>)
    requires argv != []
    ensures multiset(argv)["--" := 0] == multiset(argv[..|argv| - 1])["--" := 0] + (if argv[|argv| - 1] == "--" then multiset{} else multiset{argv[|argv| - 1]})
  {
    LastSplit(argv);
    assert multiset(argv) == multiset(argv[..|argv| - 1]) + multiset{argv[|argv| - 1]};
  }

  /** The scan's target always names an occurrence that exists. */
  lemma ScanTargetExists(argv: seq<string>)
    ensures Scan(argv).last.Open? ==> CountOf(Bucket(Scan(argv), Scan(argv).last.dash), Scan(argv).last.name) > 0
  {
    ScanTarget(argv);
    if OpenRef(argv).Open? {
      OpenHasOccurrence(argv);
      ScanOccurrences(argv, OpenRef(argv).dash, OpenRef(argv).name);
    }
  }

  /**
   * Conservation: every token except a bare "--" is stored exactly once
   * (an option under its spelling, an argument as itself), and "--" never is.
   */
  lemma {:induction false} ScanConservesTokens(argv: seq<string>)
    ensures Tokens(Scan(argv)) == multiset(argv)["--" := 0]
  {
    if argv != [] {
      var p := argv[..|argv| - 1];
      var t := argv[|argv| - 1];
      ScanConservesTokens(p);
      ScanTargetExists(p);
      StepTokens(Scan(p), t);
      assert Scan(argv) == Step(Scan(p), t);
      DropSeparators(argv);
    }
  }

  /** How many occurrences a name has: the number of tokens spelling that option. */
  lemma {:induction false} OccRefCount(argv: seq<string>, d: Dash, n: string)
    ensures |OccRef(argv, d, n)| == if OptionName(n) then multiset(argv)[Spelling(d, n)] else 0
  {
    if argv != [] {
      var p := argv[..|argv| - 1];
      var t := argv[|argv| - 1];
      OccRefCount(p, d, n);
      OccRefStep(argv, d, n);
      LastSplit(argv);
      assert multiset(argv) == multiset(p) + multiset{t};
      ClassifyOptions(t);
      if OptionName(n) {
        ClassifySpelling(d, n);
      }
    }
  }

  // ---------------------------------------------------------------------
  // Lookup in an ordered map: std::multimap::find and the equal range
  // ---------------------------------------------------------------------

  /**
   * std::multimap::find: the first entry named `n`, or |b| (end) if none.
   * (The first of the equal range, as the usual red-black tree implementation returns.)
   */
  function Find(b: seq<Entry>, n: string): (f: nat)
    ensures f <= |b|
    ensures f < |b| ==> b[f].name == n
    ensures forall i :: 0 <= i < f ==> b[i].name != n
  {
    if b == [] then 0 else if b[0].name == n then 0 else 1 + Find(b[1..], n)
  }

  /**
   * In an ordered map the occurrences of a name are CountOf consecutive entries
   * starting at Find, and the entry after them has another name.
   */
  lemma {:induction false} EqualRange(b: seq<Entry>, n: string)
    requires Sorted(b)
    ensures Run(b, n, Find(b, n), CountOf(b, n))
  {
    if b == [] {
      return;
    }
    var t := b[1..];
    SortedTail(b);
    EqualRange(t, n);
    CountOfHead(b, n);
    if b[0].name != n {
      RunSkip(b, n, Find(t, n), CountOf(t, n));
    } else {
      if CountOf(t, n) > 0 {
        FindAfterHead(b, n);
      }
      RunHead(b, n, CountOf(t, n));
    }
  }

  /**
   * Entries f .. f + c - 1 all carry `n` and fit in the map, the run is empty
   * exactly when f is past the end, and the entry right after it carries
   * another name.
   */
  ghost predicate Run(b: seq<Entry>, n: string, f: nat, c: nat)
  {
    && f + c <= |b|
    && (f < |b| <==> c > 0)
    && (forall k :: f <= k < f + c ==> b[k].name == n)
    && (f + c < |b| ==> b[f + c].name != n)
  }

  lemma RunSkip(b: seq<Entry>, n: string, f: nat, c: nat)
    requires b != [] && b[0].name != n && Run(b[1..], n, f, c)
    ensures Run(b, n, f + 1, c)
  {
    forall k | f + 1 <= k < f + 1 + c ensures b[k].name == n {
      assert b[k] == b[1..][k - 1];
    }
  }

  lemma RunHead(b: seq<Entry>, n: string, c: nat)
    requires b != [] && b[0].name == n
    requires Run(b[1..], n, if c > 0 then 0 else |b| - 1, c)
    requires c == 0 && |b| > 1 ==> b[1].name != n
    ensures Run(b, n, 0, c + 1)
  {
    forall k | 0 < k < c + 1 ensures b[k].name == n {
      assert b[k] == b[1..][k - 1];
    }
    if c + 1 < |b| {
      assert b[c + 1] == b[1..][c];
    }
  }

  /** When the head and some later entry are named n, so is the entry right after the head. */
  lemma FindAfterHead(b: seq<Entry>, n: string)
    requires Sorted(b) && b != [] && b[0].name == n && CountOf(b[1..], n) > 0
    requires Find(b[1..], n) < |b[1..]|
    ensures Find(b[1..], n) == 0
  {
    var t := b[1..];
    var f := Find(t, n);
    assert LessEq(t[0].name, t[f].name) by {
      if f == 0 { LessEqReflexive(t[0].name); }
    }
    LessEqAntisymmetric(b[0].name, b[1].name);
  }

  /** The k-th occurrence of a name is the k-th entry of its equal range. */
  lemma {:induction false} EqualRangeAt(b: seq<Entry>, n: string, k: nat)
    requires Sorted(b) && k < CountOf(b, n)
    ensures Find(b, n) + k < |b| && Occurrences(b, n)[k] == b[Find(b, n) + k].args
  {
    var t := b[1..];
    SortedTail(b);
    if b[0].name != n {
      assert Occurrences(b, n) == Occurrences(t, n);
      EqualRangeAt(t, n, k);
      assert t[Find(t, n) + k] == b[Find(b, n) + k];
    } else if k > 0 {
      assert Occurrences(b, n) == [b[0].args] + Occurrences(t, n);
      EqualRangeAt(t, n, k - 1);
      FindAfterHead(b, n);
      assert t[k - 1] == b[k];
    } else {
      assert Occurrences(b, n) == [b[0].args] + Occurrences(t, n);
    }
  }

  /** Options::strings lists one name per occurrence: each name as often as it occurs. */
  lemma {:induction false} NamesCount(b: seq<Entry>, n: string)
    ensures multiset(Names(b))[n] == CountOf(b, n)
  {
    if b != [] {
      NamesCount(b[1..], n);
      assert Names(b) == [b[0].name] + Names(b[1..]);
    }
  }

  /** The name list of a sorted bucket is in order. */
  lemma NamesSorted(b: seq<Entry>)
    requires Sorted(b)
    ensures forall i, j :: 0 <= i < j < |Names(b)| ==> LessEq(Names(b)[i], Names(b)[j])
  {
  }

  /** The name list of a bucket holds each name once per occurrence on the command line. */
  lemma NamesTally(argv: seq<string>, d: Dash)
    ensures forall n :: multiset(Names(Bucket(Scan(argv), d)))[n] == |OccRef(argv, d, n)|
  {
    forall n ensures multiset(Names(Bucket(Scan(argv), d)))[n] == |OccRef(argv, d, n)| {
      NamesCount(Bucket(Scan(argv), d), n);
      ScanOccurrences(argv, d, n);
    }
  }

  /**
   * For the entry at position i, the number of earlier entries with the same
   * name is its rank: that entry is the rank-th occurrence of its name.
   */
  lemma OccurrenceRank(b: seq<Entry>, i: nat)
    requires i < |b|
    ensures CountOf(b[..i], b[i].name) < CountOf(b, b[i].name)
    ensures Occurrences(b, b[i].name)[CountOf(b[..i], b[i].name)] == b[i].args
  {
    var n := b[i].name;
    assert b == b[..i] + b[i..];
    OccurrencesAppend(b[..i], b[i..], n);
    assert Occurrences(b[i..], n) == [b[i].args] + Occurrences(b[i + 1..], n) by {
      assert b[i..][1..] == b[i + 1..];
    }
  }

  /** The rank of a prefix grows by one exactly at the entries with that name. */
  lemma RankStep(b: seq<Entry>, i: nat, n: string)
    requires i < |b|
    ensures CountOf(b[..i + 1], n) == CountOf(b[..i], n) + (if b[i].name == n then 1 else 0)
  {
    assert b[..i + 1] == b[..i] + [b[i]];
    OccurrencesAppend(b[..i], [b[i]], n);
  }
}
