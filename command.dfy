/**
 * The command classifier: one trimmed input line becomes a typed command,
 * or the argument error of a malformed `exit`.
 */
module Command {
  import opened Wrappers
  import opened Text
  import opened Int32

  /** One parsed input line; the strings are slices of that line. */
  datatype Cmd =
    | Exit(code: i32)
    | Echo(msg: string)
    | Type(name: string)
    | Pwd
    | Cd(path: string)
    | External(cmd: string, args: Option<string>)

  /** The classifier's only error: a missing or malformed `exit` code. */
  datatype AppError = BadArg(msg: string)

  const EXIT_CODE_REQUIRED: string := "exit code is required"
  const EXIT_CODE_INVALID: string := "failed to parse exit code"

  /** The words recognised as built-ins when a space follows them. */
  predicate IsKeyword(word: string)
  {
    word == "exit" || word == "echo" || word == "type" || word == "cd"
  }

  /** `s` starts with `p`; `Rest(s, p)` is then what follows. */
  predicate StartsWith(s: string, p: string)
  {
    |p| <= |s| && s[..|p|] == p
  }

  function Rest(s: string, p: string): string
    requires StartsWith(s, p)
  {
    s[|p|..]
  }

  /** The argument of `exit`: required, and an `i32` after leading whitespace. */
  function ExitArg(args: string): Result<Cmd, AppError>
  {
    var arg := TrimStart(args);
    if arg == [] then Err(BadArg(EXIT_CODE_REQUIRED))
    else
      match ParseI32(arg)
      case Some(code) => Ok(Exit(code))
      case None => Err(BadArg(EXIT_CODE_INVALID))
  }

  /** A command word followed by a space and the raw remainder of the line. */
  function WithArgs(cmd: string, args: string): Result<Cmd, AppError>
  {
    if cmd == "exit" then ExitArg(args)
    else if cmd == "echo" then Ok(Echo(args))
    else if cmd == "type" then Ok(Type(TrimStart(args)))
    else if cmd == "cd" then Ok(Cd(TrimStart(args)))
    else Ok(External(cmd, Some(args)))
  }

  /**
   * `Cmd::try_from`. The line is split at its first space only; a line with
   * no space is `pwd` or an external command without arguments.
   */
  function Parse(input: string): Result<Cmd, AppError>
  {
    match SplitOnce(input, ' ')
    case Some((cmd, args)) => WithArgs(cmd, args)
    case None => if input == "pwd" then Ok(Pwd) else Ok(External(input, None))
  }

  /** The classifier as the shell applies it: to the line with its trailing whitespace trimmed. */
  function Classify(line: string): Result<Cmd, AppError>
  {
    Parse(TrimEnd(line))
  }

  /** Splitting at the first space hands the word and the untouched remainder to `WithArgs`. */
  lemma {:induction false} ParseWithSpace(cmd: string, args: string)
    requires ' ' !in cmd
    ensures Parse(cmd + " " + args) == WithArgs(cmd, args)
  {
    assert cmd + " " + args == cmd + [' '] + args;
    SplitOnceAt(cmd, ' ', args);
  }

  /**
   * Each keyword prefix is the keyword and the space that ends it. A fact
   * about string literals only, kept apart so that the solver proves it in a
   * small context.
   */
  lemma {:induction false} KeywordSpaces()
    ensures "exit " == "exit" + " " && "echo " == "echo" + " "
    ensures "type " == "type" + " " && "cd " == "cd" + " "
  {
  }

  lemma {:induction false} KeywordPrefix(cmd: string, args: string)
    ensures StartsWith(cmd + " " + args, cmd + " ") && Rest(cmd + " " + args, cmd + " ") == args
  {
    var p := cmd + " ";
    assert cmd + " " + args == p + args;
    assert (p + args)[..|p|] == p;
  }

  /** A line with a space is its first word, that space and the rest, and `WithArgs` decides it. */
  lemma {:induction false} ParseSplitAt(input: string, cmd: string, args: string)
    requires SplitOnce(input, ' ') == Some((cmd, args))
    ensures StartsWith(input, cmd + " ") && Rest(input, cmd + " ") == args
    ensures Parse(input) == WithArgs(cmd, args)
  {
    SplitOnceSpec(input, ' ');
    assert input == cmd + " " + args;
    KeywordPrefix(cmd, args);
  }

  /**
   * What each result says about the line it came from. Only the exact line
   * `pwd` is `Pwd`, and a command without arguments is the whole line.
   */
  lemma {:induction false} ParseBareInverse(input: string)
    ensures Parse(input) == Ok(Pwd) <==> input == "pwd"
    ensures var r := Parse(input);
            r.Ok? && r.value.External? && r.value.args.None? ==>
              input == r.value.cmd && ' ' !in input
  {
    SplitOnceSpec(input, ' ');
    match SplitOnce(input, ' ')
    case None =>
    case Some((cmd, args)) =>
  }

  /**
   * The text before the first space names the command: an external command's
   * name holds no space and is not a keyword, and its argument text, like
   * `echo`'s message, is the rest of the line verbatim.
   */
  lemma {:induction false} ParseVerbatimInverse(input: string)
    ensures var r := Parse(input);
            r.Ok? && r.value.External? && r.value.args.Some? ==>
              ' ' !in r.value.cmd && !IsKeyword(r.value.cmd) &&
              input == r.value.cmd + " " + r.value.args.value
    ensures var r := Parse(input);
            r.Ok? && r.value.Echo? ==> input == "echo " + r.value.msg
  {
    SplitOnceSpec(input, ' ');
    match SplitOnce(input, ' ')
    case None =>
    case Some((cmd, args)) =>
      assert input == cmd + " " + args;
  }

  /** `type` and `cd` carry the rest of the line without its leading whitespace. */
  lemma {:induction false} ParseTrimmedInverse(input: string)
    ensures var r := Parse(input);
            r.Ok? && r.value.Type? ==>
              StartsWith(input, "type ") && r.value.name == TrimStart(Rest(input, "type "))
    ensures var r := Parse(input);
            r.Ok? && r.value.Cd? ==>
              StartsWith(input, "cd ") && r.value.path == TrimStart(Rest(input, "cd "))
  {
    SplitOnceSpec(input, ' ');
    match SplitOnce(input, ' ')
    case None =>
    case Some((cmd, args)) =>
      ParseSplitAt(input, cmd, args);
      KeywordSpaces();
  }

  /**
   * Only a line starting `exit ` exits or fails, and the error tells an empty
   * argument from one that is not an `i32`.
   */
  lemma {:induction false} ParseExitInverse(input: string)
    ensures var r := Parse(input);
            r.Ok? && r.value.Exit? ==>
              StartsWith(input, "exit ") && ParseI32(TrimStart(Rest(input, "exit "))) == Some(r.value.code)
    ensures var r := Parse(input);
            r.Err? ==>
              StartsWith(input, "exit ") &&
              (r.error == BadArg(EXIT_CODE_REQUIRED) <==> TrimStart(Rest(input, "exit ")) == []) &&
              (r.error == BadArg(EXIT_CODE_INVALID) <==>
                 TrimStart(Rest(input, "exit ")) != [] && ParseI32(TrimStart(Rest(input, "exit "))).None?)
  {
    SplitOnceSpec(input, ' ');
    match SplitOnce(input, ' ')
    case None =>
    case Some((cmd, args)) =>
      assert input == cmd + " " + args;
      KeywordPrefix(cmd, args);
  }

  /** A line that misses its exit code ends in whitespace: `exit ` and nothing visible after it. */
  lemma {:induction false} ExitMissingEndsInSpace(input: string)
    ensures Parse(input) == Err(BadArg(EXIT_CODE_REQUIRED)) ==>
              input != [] && IsSpace(input[|input| - 1])
  {
    ParseExitInverse(input);
    if Parse(input) == Err(BadArg(EXIT_CODE_REQUIRED)) {
      var rest := Rest(input, "exit ");
      assert input[|input| - 1] == if rest == [] then ' ' else rest[|rest| - 1];
    }
  }

  /** Without a space only `pwd` is a built-in: a bare `exit` or `echo` is an external command. */
  lemma {:induction false} ParseNoSpace(input: string)
    requires ' ' !in input
    ensures input != "pwd" ==> Parse(input) == Ok(External(input, None))
  {
    SplitOnceSpec(input, ' ');
  }

  lemma {:induction false} ParseEcho(msg: string)
    ensures Parse("echo " + msg) == Ok(Echo(msg))
  {
    KeywordSpaces();
    ParseWithSpace("echo", msg);
  }

  lemma {:induction false} ParseType(arg: string)
    ensures Parse("type " + arg) == Ok(Type(TrimStart(arg)))
  {
    KeywordSpaces();
    ParseWithSpace("type", arg);
  }

  lemma {:induction false} ParseCd(arg: string)
    ensures Parse("cd " + arg) == Ok(Cd(TrimStart(arg)))
  {
    KeywordSpaces();
    ParseWithSpace("cd", arg);
  }

  /** A word other than the four keywords keeps its argument text untouched. */
  lemma {:induction false} ParseExternal(cmd: string, args: string)
    requires ' ' !in cmd && !IsKeyword(cmd)
    ensures Parse(cmd + " " + args) == Ok(External(cmd, Some(args)))
  {
    ParseWithSpace(cmd, args);
  }

  /** The classifier's view of a whole line whose trimmed text starts with a keyword. */
  lemma {:induction false} ClassifyEcho(line: string, msg: string)
    requires TrimEnd(line) == "echo " + msg
    ensures Classify(line) == Ok(Echo(msg))
  {
    ParseEcho(msg);
  }

  lemma {:induction false} ClassifyType(line: string, arg: string)
    requires TrimEnd(line) == "type " + arg
    ensures Classify(line) == Ok(Type(TrimStart(arg)))
  {
    ParseType(arg);
  }

  lemma {:induction false} ClassifyCd(line: string, arg: string)
    requires TrimEnd(line) == "cd " + arg
    ensures Classify(line) == Ok(Cd(TrimStart(arg)))
  {
    ParseCd(arg);
  }

  lemma {:induction false} ClassifyExternal(line: string, cmd: string, args: string)
    requires ' ' !in cmd && !IsKeyword(cmd) && TrimEnd(line) == cmd + " " + args
    ensures Classify(line) == Ok(External(cmd, Some(args)))
  {
    ParseExternal(cmd, args);
  }

  /** A line starting `exit ` is decided by its argument alone. */
  lemma {:induction false} ParseExit(arg: string)
    ensures Parse("exit " + arg) == ExitArg(arg)
  {
    KeywordSpaces();
    ParseWithSpace("exit", arg);
  }

  /** `exit` followed only by whitespace reports the missing code. */
  lemma {:induction false} ParseExitMissing(arg: string)
    requires forall i :: 0 <= i < |arg| ==> IsSpace(arg[i])
    ensures Parse("exit " + arg) == Err(BadArg(EXIT_CODE_REQUIRED))
  {
    ParseExit(arg);
    TrimStartOfSpaces(arg, []);
    assert arg + [] == arg;
  }

  /** `exit` followed by text that is not an `i32` reports the parse failure. */
  lemma {:induction false} ParseExitInvalid(arg: string)
    requires TrimStart(arg) != [] && ParseI32(TrimStart(arg)) == None
    ensures Parse("exit " + arg) == Err(BadArg(EXIT_CODE_INVALID))
  {
    ParseExit(arg);
  }

  /** Whatever spelling `i32` parsing accepts (`+5`, `007`, `-0`) is the exit code. */
  lemma {:induction false} ParseExitValid(arg: string, n: i32)
    requires ParseI32(TrimStart(arg)) == Some(n)
    ensures Parse("exit " + arg) == Ok(Exit(n))
  {
    ParseExit(arg);
  }

  /** `exit`, any run of whitespace, then an `i32` written out, exits with that code. */
  lemma {:induction false} ParseExitCode(lead: string, n: i32)
    requires forall i :: 0 <= i < |lead| ==> IsSpace(lead[i])
    ensures Parse("exit " + lead + Show(n)) == Ok(Exit(n))
  {
    var text := Show(n);
    assert ExitArg(lead + text) == Ok(Exit(n)) by {
      assert !IsSpace(text[0]);
      TrimStartOfSpaces(lead, text);
      ParseShow(n);
    }
    assert "exit " + lead + text == "exit " + (lead + text);
    ParseExit(lead + text);
  }
}
