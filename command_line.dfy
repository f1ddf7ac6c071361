/** The command line of sample/__main__.py: the exit code table and the scan of
    `sys.argv` that yields the gunicorn options, an exit, or a crash. */
module CommandLine {
  import opened Runtime

  /** `EXIT_CODES`, in its insertion order. */
  const ExitCodes: map<int, string> := map[
    -5 := "Incorrect bind format, example: --bind=127.0.0.1:5000",
    -6 := "Incorrect workers format, example: --workers=4"]

  /** What the scan prints: a row of the exit code table (from `make_table`), or a
      message on standard error. */
  datatype Printed = TableRow(code: int, description: string) | StdErr(text: string)

  /** The rows `make_table` prints, one per exit code, in the table's order. */
  const Table: seq<Printed> := [TableRow(-5, ExitCodes[-5]), TableRow(-6, ExitCodes[-6])]

  /** `make_table` prints one row per exit code, each with its message. */
  lemma TableListsExitCodes()
    ensures |Table| == |ExitCodes| == 2
    ensures forall i :: 0 <= i < |Table| ==> Table[i].code in ExitCodes && Table[i].description == ExitCodes[Table[i].code]
    ensures forall code :: code in ExitCodes ==> exists i :: 0 <= i < |Table| && Table[i].code == code
  {
    assert ExitCodes.Keys == {-5, -6};
    assert Table[0].code == -5 && Table[1].code == -6;
  }

  /** How the scan ends: the options dictionary `{'bind': ..., 'workers': ...}`, a
      `sys.exit` with its code, or the UnboundLocalError raised by reading `parts`
      before any assignment. */
  datatype Outcome = Options(bind: string, workers: int) | Exit(code: int) | Crash

  const DefaultBind := "127.0.0. 1:5000"
  const Workers := 4

  /** `str.startswith`. */
  predicate StartsWith(s: string, prefix: string)
  {
    |prefix| <= |s| && s[..|prefix|] == prefix
  }

  // The prefixes the loop tests, each written out character by character (which
  // keeps the proofs about the scan small); FlagsAreStartsWith states that each is
  // the `startswith` test of the source.

  predicate Dashes(arg: string) { |arg| >= 2 && arg[0] == '-' && arg[1] == '-' }

  /** `arg.startswith('--bind=')`. */
  predicate IsBind(arg: string)
  {
    Dashes(arg) && |arg| >= 7 && arg[2] == 'b' && arg[3] == 'i' && arg[4] == 'n' && arg[5] == 'd' && arg[6] == '='
  }

  /** `arg.startswith('--workers=')`. */
  predicate IsWorkers(arg: string)
  {
    Dashes(arg) && |arg| >= 10 && arg[2] == 'w' && arg[3] == 'o' && arg[4] == 'r' && arg[5] == 'k'
    && arg[6] == 'e' && arg[7] == 'r' && arg[8] == 's' && arg[9] == '='
  }

  /** `arg.startswith('--help')`. */
  predicate IsHelp(arg: string)
  {
    Dashes(arg) && |arg| >= 6 && arg[2] == 'h' && arg[3] == 'e' && arg[4] == 'l' && arg[5] == 'p'
  }

  /** `arg.startswith('--codes')`. */
  predicate IsCodes(arg: string)
  {
    Dashes(arg) && |arg| >= 7 && arg[2] == 'c' && arg[3] == 'o' && arg[4] == 'd' && arg[5] == 'e' && arg[6] == 's'
  }

  /** `arg.startswith('--no-start')`. */
  predicate IsNoStart(arg: string)
  {
    Dashes(arg) && |arg| >= 10 && arg[2] == 'n' && arg[3] == 'o' && arg[4] == '-' && arg[5] == 's'
    && arg[6] == 't' && arg[7] == 'a' && arg[8] == 'r' && arg[9] == 't'
  }

  predicate PrintsCodes(arg: string) { IsCodes(arg) || IsHelp(arg) }
  predicate Stops(arg: string) { IsNoStart(arg) || IsHelp(arg) }

  lemma StartsWithAt(s: string, prefix: string)
    ensures StartsWith(s, prefix) <==> |prefix| <= |s| && forall i :: 0 <= i < |prefix| ==> s[i] == prefix[i]
  {
    if |prefix| <= |s| && forall i :: 0 <= i < |prefix| ==> s[i] == prefix[i] {
      assert s[..|prefix|] == prefix;
    }
  }

  /** Each flag test is the `startswith` test of its prefix. */
  lemma FlagsAreStartsWith(arg: string)
    ensures IsBind(arg) <==> StartsWith(arg, "--bind=")
    ensures IsWorkers(arg) <==> StartsWith(arg, "--workers=")
    ensures IsHelp(arg) <==> StartsWith(arg, "--help")
    ensures IsCodes(arg) <==> StartsWith(arg, "--codes")
    ensures IsNoStart(arg) <==> StartsWith(arg, "--no-start")
  {
    StartsWithAt(arg, "--bind=");
    StartsWithAt(arg, "--workers=");
    StartsWithAt(arg, "--help");
    StartsWithAt(arg, "--codes");
    StartsWithAt(arg, "--no-start");
  }

  /** The text of `s` before its first `sep`, or all of it. */
  function TakeUntil(s: string, sep: char): (r: string)
    ensures |r| <= |s| && r == s[..|r|] && sep !in r
    ensures |r| < |s| ==> s[|r|] == sep
  {
    if s == [] || s[0] == sep then [] else [s[0]] + TakeUntil(s[1..], sep)
  }

  /** `s.split(sep)`: the pieces between the separators, empty ones included. */
  function Split(s: string, sep: char): (r: seq<string>)
    ensures |r| >= 1
    ensures r[0] == TakeUntil(s, sep)
  {
    if s == [] then [[]]
    else if s[0] == sep then [[]] + Split(s[1..], sep)
    else
      var rest := Split(s[1..], sep);
      [[s[0]] + rest[0]] + rest[1..]
  }

  /** Splitting at a separator preceded by `p`: `p` is the first piece and the rest
      is the split of what follows. */
  lemma {:induction false} SplitAt(p: string, q: string, sep: char)
    requires sep !in p
    ensures Split(p + [sep] + q, sep) == [p] + Split(q, sep)
    decreases |p|
  {
    if p == [] {
      assert p + [sep] + q == [sep] + q;
      assert ([sep] + q)[1..] == q;
    } else {
      SplitAt(p[1..], q, sep);
      assert (p + [sep] + q)[1..] == p[1..] + [sep] + q;
      assert [p[0]] + p[1..] == p;
    }
  }

  /** A `--bind=` argument splits into at least two pieces, the second being the
      text between its first and second '='. */
  lemma BindParts(arg: string)
    requires IsBind(arg)
    ensures var parts := Split(arg, '=');
      |parts| >= 2 && parts[1] == TakeUntil(arg[7..], '=')
  {
    assert arg == "--bind" + ['='] + arg[7..];
    SplitAt("--bind", arg[7..], '=');
  }

  /** No argument is both a `--bind=` and a `--workers=` argument. */
  lemma BindIsNotWorkers(arg: string)
    ensures !(IsBind(arg) && IsWorkers(arg))
  {
    if IsBind(arg) {
      assert arg[..7][2] == arg[2];
    }
    if IsWorkers(arg) {
      assert arg[..10][2] == arg[2];
    }
  }

  /** What one argument does to the scan: it ends the scan with an outcome, or
      hands the next argument `bind` and `parts`; either way with what it printed. */
  datatype Step =
    | Done(outcome: Outcome, out: seq<Printed>)
    | Next(bind: string, parts: Option<seq<string>>, out: seq<Printed>)

  /** The body of the loop of `handel_user_arguments` for the argument `arg`, with
      the current `bind` and `parts` (None while unassigned). */
  function ScanArg(arg: string, bind: string, parts: Option<seq<string>>): (st: Step)
    ensures st.Next? ==> !Stops(arg)
    ensures st.Done? && st.outcome.Exit? ==> st.outcome.code in {0, -5}
    ensures st.Done? && st.outcome == Exit(0) ==> Stops(arg)
    ensures st.Done? && st.outcome == Crash ==> IsWorkers(arg)
  {
    var split := Split(arg, '=');
    if IsBind(arg) && |split| < 2 then Done(Exit(-5), [StdErr(ExitCodes[-5])])
    else
      var parts := if IsBind(arg) then Some(split) else parts;
      var bind := if IsBind(arg) then split[1] else bind;
      if IsWorkers(arg) && parts.None? then Done(Crash, [])
      else if IsWorkers(arg) && |parts.value| < 2 then Done(Exit(-5), [StdErr(ExitCodes[-5])])
      else
        var printed := if PrintsCodes(arg) then Table else [];
        if Stops(arg) then Done(Exit(0), printed) else Next(bind, parts, printed)
  }

  /** The loop over the remaining arguments `args`: the outcome and everything printed. */
  function Scan(args: seq<string>, bind: string, parts: Option<seq<string>>): (r: (Outcome, seq<Printed>))
    ensures r.0.Options? ==> r.0.workers == Workers
    ensures r.0.Exit? ==> r.0.code in {0, -5}
    ensures r.0 == Crash ==> exists i :: 0 <= i < |args| && IsWorkers(args[i])
    decreases |args|
  {
    if args == [] then (Options(bind, Workers), [])
    else match ScanArg(args[0], bind, parts)
      case Done(outcome, out) => (outcome, out)
      case Next(bind', parts', out) =>
        var rest := Scan(args[1..], bind', parts');
        (rest.0, out + rest.1)
  }

  /** One argument, while `parts` is unassigned or holds two pieces or more: it
      crashes exactly when it is `--workers=` and `parts` is unassigned; otherwise
      it ends the scan only when it asks to stop, and then with 0 after its table;
      an argument that does not end the scan takes the bind of a `--bind=` argument,
      assigns `parts` from it, and prints its table. */
  lemma ScanArgFacts(arg: string, bind: string, parts: Option<seq<string>>)
    requires parts.Some? ==> |parts.value| >= 2
    ensures var st := ScanArg(arg, bind, parts);
      && (st.Done? <==> Stops(arg) || (IsWorkers(arg) && parts.None?))
      && (st.Done? ==> (st.outcome == Crash <==> IsWorkers(arg) && parts.None?))
      && (st.Done? && st.outcome == Crash ==> st.out == [])
      && (st.Done? && st.outcome != Crash ==> st.outcome == Exit(0))
      && (!(st.Done? && st.outcome == Crash) ==> st.out == if PrintsCodes(arg) then Table else [])
      && (st.Next? ==>
            && st.bind == (if IsBind(arg) then TakeUntil(arg[7..], '=') else bind)
            && (st.parts.Some? ==> |st.parts.value| >= 2)
            && (st.parts.None? <==> parts.None? && !IsBind(arg)))
  {
    if IsBind(arg) {
      BindParts(arg);
    }
    BindIsNotWorkers(arg);
  }

  /** `handel_user_arguments()` on `argv`. */
  function Run(argv: seq<string>): (r: (Outcome, seq<Printed>))
    ensures r.0.Options? ==> r.0.workers == 4
    ensures r.0 != Exit(-6)
  {
    Scan(argv, DefaultBind, None)
  }

  /** The bind after the arguments `args` from `bind`: each `--bind=` argument
      replaces it with its second '='-piece. */
  function LastBind(args: seq<string>, bind: string): string
    decreases |args|
  {
    if args == [] then bind
    else LastBind(args[1..], if IsBind(args[0]) then TakeUntil(args[0][7..], '=') else bind)
  }

  /** The last `--bind=` argument decides the bind; with none, it stays. */
  lemma {:induction false} LastBindWins(args: seq<string>, bind: string, i: int)
    requires 0 <= i < |args| && IsBind(args[i])
    requires forall j :: i < j < |args| ==> !IsBind(args[j])
    ensures LastBind(args, bind) == TakeUntil(args[i][7..], '=')
    decreases |args|
  {
    var next := if IsBind(args[0]) then TakeUntil(args[0][7..], '=') else bind;
    if i == 0 {
      NoBindKeeps(args[1..], next);
    } else {
      LastBindWins(args[1..], next, i - 1);
    }
  }

  lemma {:induction false} NoBindKeeps(args: seq<string>, bind: string)
    requires forall j :: 0 <= j < |args| ==> !IsBind(args[j])
    ensures LastBind(args, bind) == bind
    decreases |args|
  {
    if args != [] {
      NoBindKeeps(args[1..], bind);
    }
  }

  /** The tables the arguments `args` print: one per `--codes` or `--help`. */
  function TablesFor(args: seq<string>): seq<Printed>
    decreases |args|
  {
    if args == [] then [] else (if PrintsCodes(args[0]) then Table else []) + TablesFor(args[1..])
  }

  lemma {:induction false} TablesForSnoc(args: seq<string>, i: int)
    requires 0 <= i < |args|
    ensures TablesFor(args[..i + 1]) == TablesFor(args[..i]) + (if PrintsCodes(args[i]) then Table else [])
    decreases i
  {
    if i > 0 {
      TablesForSnoc(args[1..], i - 1);
      assert args[..i + 1][1..] == args[1..][..i];
      assert args[..i][1..] == args[1..][..i - 1];
    } else {
      assert args[..1][1..] == [];
    }
  }

  /** The scan reads an unassigned `parts` at argument `i`: a `--workers=` argument
      with no `--bind=` before it, reached because nothing before it exits. */
  ghost predicate CrashesAt(args: seq<string>, i: int)
  {
    && 0 <= i < |args| && IsWorkers(args[i])
    && forall j :: 0 <= j < i ==> !IsBind(args[j]) && !Stops(args[j])
  }

  /** When the scan returns options, workers is 4, the bind is the last `--bind=`
      value, no argument asked to stop, and a table was printed per `--codes` or
      `--help`. */
  lemma {:induction false} ScanOptions(args: seq<string>, bind: string, parts: Option<seq<string>>)
    requires parts.Some? ==> |parts.value| >= 2
    ensures var r := Scan(args, bind, parts);
      r.0.Options? ==>
        && r.0.workers == Workers
        && r.0.bind == LastBind(args, bind)
        && (forall i :: 0 <= i < |args| ==> !Stops(args[i]))
        && r.1 == TablesFor(args)
    decreases |args|
  {
    if args != [] {
      ScanArgFacts(args[0], bind, parts);
      var st := ScanArg(args[0], bind, parts);
      if st.Next? {
        ScanOptions(args[1..], st.bind, st.parts);
        var r := Scan(args, bind, parts);
        if r.0.Options? {
          forall i | 0 <= i < |args| ensures !Stops(args[i]) {
            if i > 0 {
              assert args[i] == args[1..][i - 1];
            }
          }
        }
      }
    }
  }

  /** The index of the first argument that asks to stop, or `|args|`. */
  function FirstStop(args: seq<string>): (r: int)
    ensures 0 <= r <= |args|
    ensures forall j :: 0 <= j < r ==> !Stops(args[j])
    ensures r < |args| ==> Stops(args[r])
    decreases |args|
  {
    if args == [] || Stops(args[0]) then 0 else 1 + FirstStop(args[1..])
  }

  /** When the scan exits, the code is 0 and it stopped at the first argument that
      asks to stop, after printing a table per `--codes` or `--help` up to it. */
  lemma {:induction false} ScanExit(args: seq<string>, bind: string, parts: Option<seq<string>>)
    requires parts.Some? ==> |parts.value| >= 2
    ensures var r := Scan(args, bind, parts);
      r.0.Exit? ==>
        && r.0.code == 0
        && FirstStop(args) < |args|
        && r.1 == TablesFor(args[..FirstStop(args) + 1])
    decreases |args|
  {
    if args != [] {
      ScanArgFacts(args[0], bind, parts);
      var st := ScanArg(args[0], bind, parts);
      if st.Next? {
        var rest := Scan(args[1..], st.bind, st.parts);
        assert Scan(args, bind, parts) == (rest.0, st.out + rest.1);
        ScanExit(args[1..], st.bind, st.parts);
        if rest.0.Exit? {
          var k := FirstStop(args[1..]);
          assert FirstStop(args) == k + 1;
          TablesForPrefix(args, k);
        }
      } else if st.outcome != Crash {
        assert Scan(args, bind, parts) == (st.outcome, st.out);
        assert FirstStop(args) == 0;
        TablesForPrefix(args, -1);
      }
    }
  }

  /** The tables printed up to argument `k + 1`, split into the first argument's and
      the rest's. */
  lemma TablesForPrefix(args: seq<string>, k: int)
    requires -1 <= k < |args| - 1
    ensures TablesFor(args[..k + 2])
         == (if PrintsCodes(args[0]) then Table else []) + TablesFor(args[1..][..k + 1])
  {
    assert args[..k + 2][1..] == args[1..][..k + 1];
  }

  /** The scan crashes exactly when `parts` is unassigned and a `--workers=`
      argument comes before any `--bind=` and any argument that stops. */
  lemma {:induction false} ScanCrash(args: seq<string>, bind: string, parts: Option<seq<string>>)
    requires parts.Some? ==> |parts.value| >= 2
    ensures Scan(args, bind, parts).0 == Crash <==> parts.None? && exists i :: CrashesAt(args, i)
    decreases |args|
  {
    if args != [] {
      ScanArgFacts(args[0], bind, parts);
      var st := ScanArg(args[0], bind, parts);
      if IsWorkers(args[0]) && parts.None? {
        assert CrashesAt(args, 0);
      } else if st.Done? {
        forall i | 0 <= i < |args| && parts.None? ensures !CrashesAt(args, i) {
        }
      } else {
        ScanCrash(args[1..], st.bind, st.parts);
        if st.parts.None? {
          if Scan(args, bind, parts).0 == Crash {
            var k :| CrashesAt(args[1..], k);
            assert args[k + 1] == args[1..][k];
            assert forall j :: 1 <= j < k + 1 ==> args[j] == args[1..][j - 1];
            assert CrashesAt(args, k + 1);
          } else {
            forall i | 0 <= i < |args| ensures !CrashesAt(args, i) {
              if i > 0 && CrashesAt(args, i) {
                assert forall j :: 0 <= j < i - 1 ==> args[1..][j] == args[j + 1];
                assert CrashesAt(args[1..], i - 1);
              }
            }
          }
        } else {
          forall i | 0 <= i < |args| && parts.None? ensures !CrashesAt(args, i) {
          }
        }
      }
    }
  }

  lemma {:induction false} TablesAreRows(args: seq<string>)
    ensures forall p :: p in TablesFor(args) ==> p.TableRow?
    decreases |args|
  {
    if args != [] {
      TablesAreRows(args[1..]);
    }
  }

  // ---------------------------------------------------------------------------
  // Properties of `handel_user_arguments`
  // ---------------------------------------------------------------------------

  /** With no recognised flag the options are the default bind with its embedded
      space and 4 workers, and nothing is printed. */
  lemma DefaultOptions(argv: seq<string>)
    requires forall i :: 0 <= i < |argv| ==> !IsBind(argv[i]) && !IsWorkers(argv[i]) && !PrintsCodes(argv[i]) && !Stops(argv[i])
    ensures Run(argv) == (Options("127.0.0. 1:5000", 4), [])
  {
    ScanOptions(argv, DefaultBind, None);
    ScanExit(argv, DefaultBind, None);
    ScanCrash(argv, DefaultBind, None);
    NoBindKeeps(argv, DefaultBind);
    NoTables(argv);
  }

  lemma {:induction false} NoTables(args: seq<string>)
    requires forall i :: 0 <= i < |args| ==> !PrintsCodes(args[i])
    ensures TablesFor(args) == []
    decreases |args|
  {
    if args != [] {
      assert forall i :: 0 <= i < |args[1..]| ==> args[1..][i] == args[i + 1];
      NoTables(args[1..]);
    }
  }

  /** The options carry the text between the first and second '=' of the last
      `--bind=` argument, or the default bind when there is none; workers is always 4. */
  lemma OptionsBind(argv: seq<string>)
    requires Run(argv).0.Options?
    ensures Run(argv).0.workers == 4
    ensures forall i :: 0 <= i < |argv| && IsBind(argv[i]) && (forall j :: i < j < |argv| ==> !IsBind(argv[j])) ==>
      |Split(argv[i], '=')| >= 2 && Run(argv).0.bind == Split(argv[i], '=')[1]
    ensures (forall i :: 0 <= i < |argv| ==> !IsBind(argv[i])) ==> Run(argv).0.bind == DefaultBind
  {
    ScanOptions(argv, DefaultBind, None);
    forall i | 0 <= i < |argv| && IsBind(argv[i]) && (forall j :: i < j < |argv| ==> !IsBind(argv[j]))
      ensures |Split(argv[i], '=')| >= 2 && Run(argv).0.bind == Split(argv[i], '=')[1]
    {
      LastBindWins(argv, DefaultBind, i);
      BindParts(argv[i]);
    }
    if forall i :: 0 <= i < |argv| ==> !IsBind(argv[i]) {
      NoBindKeeps(argv, DefaultBind);
    }
  }

  /** Neither listed exit code is ever used, and nothing goes to standard error:
      a `--bind=` argument always has two pieces, and `parts` is only ever
      assigned from one. */
  lemma ExitCodesUnused(argv: seq<string>)
    ensures Run(argv).0 != Exit(-5) && Run(argv).0 != Exit(-6)
    ensures Run(argv).0.Crash? || forall p :: p in Run(argv).1 ==> p.TableRow?
  {
    ScanOptions(argv, DefaultBind, None);
    ScanExit(argv, DefaultBind, None);
    var r := Run(argv);
    TablesAreRows(argv);
    if r.0.Exit? {
      TablesAreRows(argv[..FirstStop(argv) + 1]);
    }
  }

  /** `--workers=` before any `--bind=` (and before anything that exits) crashes,
      and nothing else does. */
  lemma WorkersBeforeBindCrashes(argv: seq<string>)
    ensures Run(argv).0 == Crash <==> exists i :: CrashesAt(argv, i)
  {
    ScanCrash(argv, DefaultBind, None);
  }

  /** Unless it crashes first, the scan exits with 0 exactly when some argument,
      the program name included, starts with `--help` or `--no-start`. */
  lemma StopFlagsExit(argv: seq<string>)
    requires Run(argv).0 != Crash
    ensures Run(argv).0 == Exit(0) <==> exists i :: 0 <= i < |argv| && Stops(argv[i])
  {
    ScanOptions(argv, DefaultBind, None);
    ScanExit(argv, DefaultBind, None);
  }

  /** When the first argument that stops starts with `--help`, the scan exits with 0
      after printing the table once more for it. */
  lemma HelpPrintsTable(argv: seq<string>, i: int)
    requires Run(argv).0 != Crash
    requires 0 <= i < |argv| && IsHelp(argv[i])
    requires forall j :: 0 <= j < i ==> !Stops(argv[j])
    ensures Run(argv) == (Exit(0), TablesFor(argv[..i]) + Table)
  {
    ScanOptions(argv, DefaultBind, None);
    ScanExit(argv, DefaultBind, None);
    assert FirstStop(argv) == i;
    assert Run(argv).0.Exit?;
    TablesForSnoc(argv, i);
  }

  /** The body of the loop of `handel_user_arguments` for one argument. */
  method HandleArgument(arg: string, bind: string, parts: Option<seq<string>>) returns (step: Step)
    ensures step == ScanArg(arg, bind, parts)
  {
    var bind, parts := bind, parts;
    if IsBind(arg) {
      parts := Some(Split(arg, '='));
      if |parts.value| < 2 {
        return Done(Exit(-5), [StdErr(ExitCodes[-5])]);
      }
      bind := parts.value[1];
    }
    if IsWorkers(arg) {
      if parts.None? {
        return Done(Crash, []);
      }
      if |parts.value| < 2 {
        return Done(Exit(-5), [StdErr(ExitCodes[-5])]);
      }
    }
    var printed: seq<Printed> := [];
    if PrintsCodes(arg) {
      printed := Table;
    }
    if Stops(arg) {
      return Done(Exit(0), printed);
    }
    step := Next(bind, parts, printed);
  }

  /** `handel_user_arguments()`, over `sys.argv` given as `argv`. */
  method HandleUserArguments(argv: seq<string>) returns (r: Outcome, printed: seq<Printed>)
    ensures (r, printed) == Run(argv)
  {
    var bind := DefaultBind;
    var parts: Option<seq<string>> := None;
    printed := [];
    var i := 0;
    assert argv[0..] == argv && [] + Run(argv).1 == Run(argv).1;
    while i < |argv|
      invariant 0 <= i <= |argv|
      invariant Run(argv) == (Scan(argv[i..], bind, parts).0, printed + Scan(argv[i..], bind, parts).1)
    {
      assert argv[i..][0] == argv[i] && argv[i..][1..] == argv[i + 1..];
      var step := HandleArgument(argv[i], bind, parts);
      if step.Done? {
        return step.outcome, printed + step.out;
      }
      ghost var rest := Scan(argv[i + 1..], step.bind, step.parts);
      assert printed + (step.out + rest.1) == (printed + step.out) + rest.1;
      printed := printed + step.out;
      bind, parts := step.bind, step.parts;
      i := i + 1;
    }
    assert printed + [] == printed;
    r := Options(bind, Workers);
  }
}
