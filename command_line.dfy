/**
 * The command line of the front end: the argument-count check, the choice
 * between disassembling, debugging and running, and the start-address check
 * of the disassembly path. `args[0]` is the program's own name.
 */
module CommandLine {
  import opened Results
  import opened Bytes
  import EventLoop

  /** The load address of CHIP-8 programs: byte 0 of the file sits here. */
  const PROGRAM_BASE: int := 0x200

  /** The usage error: what was expected, and the number of arguments found. */
  datatype UsageError = UsageError(expected: string, found: nat)

  /** What `main` goes on to do once the arguments are accepted. */
  datatype Command =
    | Disassemble(path: string, startHex: string)
    | Launch(path: string, mode: EventLoop.RunMode)

  /** The argument count each form of the command line needs. */
  function RequiredCount(args: seq<string>): nat
    requires |args| >= 2
  {
    if args[1] == "D" then 4 else if args[1] == "DBG" then 3 else 2
  }

  /** `validate_args`: an error for fewer than two arguments or a count that does not match the mode. */
  function ValidateArgs(args: seq<string>): (r: Result<(), UsageError>)
    ensures r.Ok? <==> |args| >= 2 && |args| == RequiredCount(args)
    ensures |args| < 2 ==> r == Err(UsageError("at least 1", |args|))
    ensures r.Err? ==> r.error.found == |args|
  {
    if |args| < 2 then
      Err(UsageError("at least 1", |args|))
    else if args[1] == "D" then
      if |args| != 4 then Err(UsageError("4", |args|)) else Ok(())
    else if args[1] == "DBG" then
      if |args| != 3 then Err(UsageError("3", |args|)) else Ok(())
    else
      if |args| != 2 then Err(UsageError("2", |args|)) else Ok(())
  }

  /** The choice `main` makes after `validate_args`; a usage error ends the program cleanly. */
  function Plan(args: seq<string>): (r: Result<Command, UsageError>)
    ensures r.Ok? <==> ValidateArgs(args).Ok?
    ensures r.Err? ==> r == Err(ValidateArgs(args).error)
  {
    match ValidateArgs(args)
    case Err(e) => Err(e)
    case Ok(_) =>
      if args[1] == "D" then Ok(Disassemble(args[2], args[3]))
      else if args[1] == "DBG" then Ok(Launch(args[2], EventLoop.DebugStep))
      else Ok(Launch(args[1], EventLoop.Normal))
  }

  /** What `main` does with a valid command line, in terms of the arguments given. */
  lemma PlanCases(args: seq<string>)
    requires ValidateArgs(args).Ok?
    ensures |args| == 4 && args[1] == "D" ==> Plan(args) == Ok(Disassemble(args[2], args[3]))
    ensures |args| == 3 && args[1] == "DBG" ==> Plan(args) == Ok(Launch(args[2], EventLoop.DebugStep))
    ensures |args| == 2 ==> Plan(args) == Ok(Launch(args[1], EventLoop.Normal))
    ensures Plan(args).value.Launch? ==> (Plan(args).value.mode == EventLoop.DebugStep <==> args[1] == "DBG")
  {
  }

  /** A valid command line gives a disassembly exactly when the mode argument is "D". */
  lemma PlanDisassemblesOnlyForD(args: seq<string>)
    ensures Plan(args).Ok? ==> (Plan(args).value.Disassemble? <==> args[1] == "D")
  {
  }

  /**
   * The start-address check of the disassembly path: an address below the
   * load address aborts (the `panic!`), otherwise the byte offset into the
   * program file is `start - 0x200`.
   */
  function DisassemblyOffset(start: u16): (r: Result<nat, string>)
    ensures r.Ok? <==> start as int >= PROGRAM_BASE
    ensures r.Ok? ==> r.value + PROGRAM_BASE == start as int
    ensures r.Ok? ==> r.value < 0x1_0000 - PROGRAM_BASE
    ensures r.Err? ==> r.error == "Starting address should be at least 0x200"
  {
    if start < 0x200 then
      Err("Starting address should be at least 0x200")
    else
      Ok((start - 0x200) as nat)
  }
}
