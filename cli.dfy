/**
  The command line of `cli.c`: a program name, then either a global option
  (`-h`/`--help`, `-v`/`--version`) or a command (`backup`, `merge`)
  followed by its options. Only the exit code and which text is shown are
  modelled; the printing itself is not.
*/
module Cli {
  /** `Cmd`: the command chosen so far. */
  datatype Cmd = NoCmd | Backup | Merge

  /** Which text the program prints before it exits. */
  datatype Screen = Usage | BackupUsage | MergeUsage | Version

  /** How `main` ends: the exit code, whether an `[ERROR]` line came first, and the text shown. */
  datatype Exit = Exit(code: int, error: bool, shown: Screen)

  predicate IsHelp(arg: string)
  {
    arg == "--help" || arg == "-h"
  }

  predicate IsVersion(arg: string)
  {
    arg == "--version" || arg == "-v"
  }

  function CommandUsage(cmd: Cmd): Screen
  {
    match cmd
    case NoCmd => Usage
    case Backup => BackupUsage
    case Merge => MergeUsage
  }

  /** The arguments pointer of `main`: `argc` and what `argv` points to. */
  class Args {
    var argc: int
    var argv: seq<string>

    constructor (args: seq<string>)
      ensures argc == |args| && argv == args
    {
      argc := |args|;
      argv := args;
    }

    /** `_shift_args`: take the first argument; there must be one. */
    method Shift() returns (first: string)
      requires 0 < argc <= |argv|
      modifies this
      ensures first == old(argv)[0]
      ensures argc == old(argc) - 1 && argv == old(argv)[1..]
    {
      first := argv[0];
      argc := argc - 1;
      argv := argv[1..];
    }
  }

  /**
    The loop of `main` over the remaining arguments with command `cmd`
    chosen so far. Without a command, a help or version flag ends the run
    with 0, a command name is taken, and anything else is an error; after a
    command, help ends with 0 and anything else is an error. Running out of
    arguments is an error, since no command option is ever counted.
  */
  function Dispatch(cmd: Cmd, args: seq<string>): Exit
    requires cmd != NoCmd || args != []
    decreases |args|
  {
    if args == [] then Exit(1, true, CommandUsage(cmd))
    else
      var arg := args[0];
      match cmd
      case NoCmd =>
        if IsHelp(arg) then Exit(0, false, Usage)
        else if IsVersion(arg) then Exit(0, false, Version)
        else if arg == "backup" then Dispatch(Backup, args[1..])
        else if arg == "merge" then Dispatch(Merge, args[1..])
        else Exit(1, true, Usage)
      case Backup =>
        if IsHelp(arg) then Exit(0, false, BackupUsage) else Exit(1, true, BackupUsage)
      case Merge =>
        if IsHelp(arg) then Exit(0, false, MergeUsage) else Exit(1, true, MergeUsage)
  }

  /** `main` on `argv`, whose first element is the program name. */
  function Run(argv: seq<string>): Exit
    requires |argv| >= 1
  {
    if |argv| < 2 then Exit(1, true, Usage) else Dispatch(NoCmd, argv[1..])
  }

  /**
    `main`: shift the program name, then one argument per pass of the loop.
    `command_option_count` is never incremented, so the loop running out of
    arguments always ends in the error branch.
  */
  method Execute(argv: seq<string>) returns (r: Exit)
    requires |argv| >= 1
    ensures r == Run(argv)
  {
    var args := new Args(argv);
    var programName := args.Shift();
    var current := NoCmd;
    if args.argc < 1 {
      return Exit(1, true, Usage);
    }
    while args.argc > 0
      invariant 0 <= args.argc == |args.argv|
      invariant current == NoCmd ==> args.argv == argv[1..] && args.argv != []
      invariant Dispatch(current, args.argv) == Run(argv)
      decreases args.argc
    {
      var arg := args.Shift();
      match current {
        case NoCmd =>
          if IsHelp(arg) {
            return Exit(0, false, Usage);
          }
          if IsVersion(arg) {
            return Exit(0, false, Version);
          }
          if arg == "backup" {
            current := Backup;
          } else if arg == "merge" {
            current := Merge;
          } else {
            return Exit(1, true, Usage);
          }
        case Backup =>
          if IsHelp(arg) {
            return Exit(0, false, BackupUsage);
          } else {
            return Exit(1, true, BackupUsage);
          }
        case Merge =>
          if IsHelp(arg) {
            return Exit(0, false, MergeUsage);
          } else {
            return Exit(1, true, MergeUsage);
          }
      }
    }
    r := Exit(1, true, CommandUsage(current));
  }

  /* ---------- What the exit code tells ---------- */

  /**
    The program succeeds exactly when it is asked for help or the version
    first, or for a command's help right after the command; every other
    run prints an error and exits with 1.
  */
  lemma SucceedsExactly(argv: seq<string>)
    requires |argv| >= 1
    ensures Run(argv).code == 0 <==>
      |argv| >= 2 &&
      (IsHelp(argv[1]) || IsVersion(argv[1]) ||
       ((argv[1] == "backup" || argv[1] == "merge") && |argv| >= 3 && IsHelp(argv[2])))
    ensures Run(argv).code == 0 || Run(argv).code == 1
    ensures Run(argv).error <==> Run(argv).code == 1
  {
    if |argv| >= 2 {
      var args := argv[1..];
      if args[0] == "backup" || args[0] == "merge" {
        assert !IsHelp(args[0]) && !IsVersion(args[0]);
        var cmd := if args[0] == "backup" then Backup else Merge;
        assert Run(argv) == Dispatch(cmd, argv[2..]);
      }
    }
  }

  /**
    A command with nothing after it is an error, shown with that command's
    usage; after a command only the next argument is looked at.
  */
  lemma CommandNeedsOption(argv: seq<string>)
    requires |argv| >= 2 && (argv[1] == "backup" || argv[1] == "merge")
    ensures var cmd := if argv[1] == "backup" then Backup else Merge;
      && Run(argv).shown == CommandUsage(cmd)
      && (|argv| == 2 ==> Run(argv) == Exit(1, true, CommandUsage(cmd)))
      && (|argv| > 2 ==> Run(argv) == Run(argv[..3]))
  {
    var cmd := if argv[1] == "backup" then Backup else Merge;
    assert !IsHelp(argv[1]) && !IsVersion(argv[1]);
    assert Run(argv) == Dispatch(cmd, argv[2..]);
    if |argv| > 2 {
      assert argv[..3][1] == argv[1];
      assert Run(argv[..3]) == Dispatch(cmd, argv[..3][2..]);
      assert argv[..3][2..][0] == argv[2..][0];
    }
  }
}
