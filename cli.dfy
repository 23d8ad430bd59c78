/** The command line of calc_my_coins.py: how the arguments choose the
    ledger file and the token, and what the run shows. */
module CoinCli {
  import opened CoinLedger

  /** What the arguments ask for. A `Run` names the file and the token
      handed to `calc_coins`, and whether `check_token` is called on the
      token first. */
  datatype Command =
    | Help
    | Usage
    | Run(file: string, token: string, checkTokenFirst: bool)

  /** The arguments after the program name, sorted out in the source's order
      of cases: `--help`; none; one single character (a token); one longer
      argument (a file); two (file and token); anything else shows the
      usage text. */
  function Dispatch(args: seq<string>): (cmd: Command)
    ensures cmd == Help <==> args == ["--help"]
    ensures cmd == Usage <==> |args| > 2
    ensures cmd.Run? ==> (cmd.checkTokenFirst <==> |args| == 2 || (|args| == 1 && |args[0]| == 1))
    ensures cmd.Run? ==> cmd.token == if cmd.checkTokenFirst then args[|args| - 1] else TOKEN
    ensures cmd.Run? ==> cmd.file == if |args| == 2 || (|args| == 1 && |args[0]| != 1) then args[0] else FILE
  {
    if |args| == 1 && args[0] == "--help" then Help
    else if |args| == 0 then Run(FILE, TOKEN, false)
    else if |args| == 1 && |args[0]| == 1 then Run(FILE, args[0], true)
    else if |args| == 1 then Run(args[0], TOKEN, false)
    else if |args| == 2 then Run(args[0], args[1], true)
    else Usage
  }

  /** What a run shows: the usage text, the result or the message of a known
      error, or an error the program does not catch (the token-length
      `ValueError`), which is re-raised. */
  datatype Report = UsageText | Shown(outcome: Outcome) | Unhandled(outcome: Outcome)

  /** The file system as far as the program sees it: the files that exist
      and their lines. */
  type Files = map<string, seq<string>>

  function Lookup(fs: Files, file: string): Option<seq<string>> {
    if file in fs then Some(fs[file]) else None
  }

  /** Runs a command. A token given on the command line goes through
      `check_token` first. */
  function Execute(cmd: Command, fs: Files): (r: Report)
    ensures cmd.Help? || cmd.Usage? <==> r == UsageText
    ensures r.Unhandled? <==>
      cmd.Run? && |cmd.token| != 1 && (!cmd.checkTokenFirst || CheckToken(cmd.token))
    ensures r.Unhandled? ==> r.outcome == TokenLengthError
    ensures cmd.Run? && cmd.checkTokenFirst && !CheckToken(cmd.token) ==> r == Shown(ReservedToken)
    ensures cmd.Run? && (!cmd.checkTokenFirst || CheckToken(cmd.token)) ==>
      r.outcome == Interpret(Lookup(fs, cmd.file), cmd.token)
  {
    if !cmd.Run? then UsageText
    else if cmd.checkTokenFirst && !CheckToken(cmd.token) then Shown(ReservedToken)
    else
      var o := Interpret(Lookup(fs, cmd.file), cmd.token);
      InterpretErrors(Lookup(fs, cmd.file), cmd.token);
      if o == TokenLengthError then Unhandled(o) else Shown(o)
  }

  /** A reserved token is refused before the file is looked at. */
  lemma ReservedTokenBeforeFile(args: seq<string>, fs: Files, other: Files)
    requires |args| == 2 && !CheckToken(args[1])
    ensures Execute(Dispatch(args), fs) == Execute(Dispatch(args), other) == Shown(ReservedToken)
  {
  }

  /** Two arguments with a token longer than one character end in the
      uncaught `ValueError`, whether or not the file exists. */
  lemma LongTokenUnhandled(file: string, token: string, fs: Files)
    requires |token| > 1
    ensures Execute(Dispatch([file, token]), fs) == Unhandled(TokenLengthError)
  {
    assert CheckToken(token);
  }

  /** A digit passes `check_token` as written, so a digit token given with
      a file reaches `calc_coins`. */
  lemma DigitTokenReachesLedger(file: string, fs: Files)
    ensures Execute(Dispatch([file, "5"]), fs) == Shown(Interpret(Lookup(fs, file), "5"))
  {
    assert CheckToken("5");
  }

  /** A token given alone is checked and used on the default file. */
  lemma TokenAloneUsesDefaultFile(tok: char, fs: Files)
    requires CheckToken([tok])
    ensures Execute(Dispatch([[tok]]), fs) == Shown(Interpret(Lookup(fs, FILE), [tok]))
  {
  }

  /** Without arguments the default file is read with the default token. */
  lemma NoArgumentsUsesDefaults(fs: Files)
    ensures Execute(Dispatch([]), fs) == Shown(Interpret(Lookup(fs, FILE), TOKEN))
    ensures FILE !in fs ==> Execute(Dispatch([]), fs) == Shown(FileNotFound)
  {
  }
}
