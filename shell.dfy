/**
 * What the shell does with one input line: the classifier, then the built-in
 * answers (`type`, `cd ~`), the lookup of an external program and its
 * argument vector. The environment and the filesystem are values; the
 * effects themselves (printing, exiting, changing directory, spawning) are
 * returned as an `Action` instead of being performed.
 */
module Shell {
  import opened Wrappers
  import opened Text
  import opened Int32
  import opened Command
  import opened SearchPath

  /** The process environment one line is evaluated in. */
  datatype Env = Env(path: Option<string>, home: Option<string>, fs: FileSystem)

  /** The errors that end the shell with "fatal error". */
  datatype Fatal =
    | BadCommand(reason: AppError)
    | Io(cause: IoError)
    | HomeUnset

  /** The effect one line has. */
  datatype Action =
    | Terminate(code: i32)
    | Print(line: string)
    | PrintCwd
    | ChangeDir(target: string)
    | Launch(program: string, argv: seq<string>)
    | Abort(err: Fatal)

  /** The names `type` reports as built-ins. */
  predicate IsBuiltin(name: string)
  {
    name == "exit" || name == "echo" || name == "type" || name == "pwd" || name == "cd"
  }

  /** The line `type name` prints, or the I/O error that aborts it. */
  function TypeAnswer(env: Env, name: string): Result<string, IoError>
  {
    if IsBuiltin(name) then Ok(name + " is a shell builtin")
    else
      match Locate(env.fs, env.path, name)
      case Hit(dir) => Ok(name + " is " + dir + "/" + name)
      case Miss => Ok(name + " not found")
      case Failed(e) => Err(e)
  }

  /** The directory `cd path` changes to: `~` alone stands for `HOME`, which must be set. */
  function CdTarget(home: Option<string>, path: string): Result<string, Fatal>
  {
    if path == "~" then
      match home
      case Some(h) => Ok(h)
      case None => Err(HomeUnset)
    else Ok(path)
  }

  /** `Path::join` of a directory and a plain file name: a `/` between them unless one is there. */
  function JoinPath(dir: string, name: string): (r: string)
    ensures |dir| + |name| <= |r| <= |dir| + 1 + |name|
    ensures r[..|dir|] == dir && r[|r| - |name|..] == name
    ensures dir != [] ==> r[|dir| - 1] == '/' || (|r| > |dir| && r[|dir|] == '/')
    ensures r == dir + name || r == dir + "/" + name
    ensures dir == [] || dir[|dir| - 1] == '/' ==> r == dir + name
  {
    if dir == [] || dir[|dir| - 1] == '/' then dir + name else dir + "/" + name
  }

  /** Where an external command's program is. */
  datatype Resolution = Program(path: string) | Unknown | Unusable(err: IoError)

  /** A name that exists as a path is used as it is; otherwise the first match on `PATH`. */
  function Resolve(env: Env, cmd: string): Resolution
  {
    if cmd in env.fs.existing then Program(cmd)
    else
      match Locate(env.fs, env.path, cmd)
      case Hit(dir) => Program(JoinPath(dir, cmd))
      case Miss => Unknown
      case Failed(e) => Unusable(e)
  }

  /** The message for an external command that cannot be found: the whole trimmed line. */
  function NotFoundLine(input: string): string
  {
    input + ": command not found"
  }

  /** The argument vector of an external command: the raw argument text split on whitespace. */
  function Argv(args: Option<string>): (r: seq<string>)
    ensures args.None? ==> r == []
    ensures forall k :: 0 <= k < |r| ==> IsWord(r[k])
  {
    match args
    case None => []
    case Some(text) => Tokens(text)
  }

  /** What a classified command does; `input` is the trimmed line it came from. */
  function Eval(env: Env, input: string, cmd: Cmd): Action
  {
    match cmd
    case Exit(code) => Terminate(code)
    case Echo(msg) => Print(msg)
    case Type(name) =>
      (match TypeAnswer(env, name)
       case Ok(answer) => Print(answer)
       case Err(e) => Abort(Io(e)))
    case Pwd => PrintCwd
    case Cd(path) =>
      (match CdTarget(env.home, path)
       case Ok(target) => ChangeDir(target)
       case Err(f) => Abort(f))
    case External(name, args) =>
      match Resolve(env, name)
      case Program(p) => Launch(p, Argv(args))
      case Unknown => Print(NotFoundLine(input))
      case Unusable(e) => Abort(Io(e))
  }

  /** One turn of the loop on the line read, trailing whitespace included. */
  function Decide(env: Env, line: string): Action
  {
    match Classify(line)
    case Err(e) => Abort(BadCommand(e))
    case Ok(cmd) => Eval(env, TrimEnd(line), cmd)
  }

  /** The evaluation of one command, with the search path scanned in place. */
  method Run(env: Env, input: string, cmd: Cmd) returns (a: Action)
    ensures a == Eval(env, input, cmd)
  {
    match cmd
    case Exit(code) =>
      a := Terminate(code);
    case Echo(msg) =>
      a := Print(msg);
    case Type(name) =>
      if IsBuiltin(name) {
        return Print(name + " is a shell builtin");
      }
      var found := ScanPath(env.fs, env.path, name);
      match found {
        case Hit(dir) => a := Print(name + " is " + dir + "/" + name);
        case Miss => a := Print(name + " not found");
        case Failed(e) => a := Abort(Io(e));
      }
    case Pwd =>
      a := PrintCwd;
    case Cd(path) =>
      if path == "~" {
        if env.home.None? {
          return Abort(HomeUnset);
        }
        a := ChangeDir(env.home.value);
      } else {
        a := ChangeDir(path);
      }
    case External(name, args) =>
      var program := name;
      if name !in env.fs.existing {
        var found := ScanPath(env.fs, env.path, name);
        match found {
          case Hit(dir) =>
            program := JoinPath(dir, name);
          case Miss =>
            return Print(NotFoundLine(input));
          case Failed(e) =>
            return Abort(Io(e));
        }
      }
      a := Launch(program, Argv(args));
  }

  /** The loop body after reading a line: trim it, classify it, run it. */
  method Dispatch(env: Env, line: string) returns (a: Action)
    ensures a == Decide(env, line)
  {
    var input := TrimEnd(line);
    var parsed := Parse(input);
    if parsed.Err? {
      return Abort(BadCommand(parsed.error));
    }
    a := Run(env, input, parsed.value);
  }

  /** A line that classifies as `cmd` does what `cmd` does. */
  lemma {:induction false} DecideClassified(env: Env, line: string, cmd: Cmd)
    requires Classify(line) == Ok(cmd)
    ensures Decide(env, line) == Eval(env, TrimEnd(line), cmd)
  {
  }

  lemma {:induction false} DecideType(env: Env, line: string, name: string)
    requires Classify(line) == Ok(Type(name))
    ensures Decide(env, line) ==
              match TypeAnswer(env, name)
              case Ok(answer) => Print(answer)
              case Err(e) => Abort(Io(e))
  {
    DecideClassified(env, line, Type(name));
  }

  lemma {:induction false} DecideCd(env: Env, line: string, path: string)
    requires Classify(line) == Ok(Cd(path))
    ensures Decide(env, line) ==
              match CdTarget(env.home, path)
              case Ok(target) => ChangeDir(target)
              case Err(f) => Abort(f)
  {
    DecideClassified(env, line, Cd(path));
  }

  lemma {:induction false} DecideExternal(env: Env, line: string, cmd: string, args: Option<string>)
    requires Classify(line) == Ok(External(cmd, args))
    ensures Decide(env, line) ==
              match Resolve(env, cmd)
              case Program(p) => Launch(p, Argv(args))
              case Unknown => Print(NotFoundLine(TrimEnd(line)))
              case Unusable(e) => Abort(Io(e))
  {
    DecideClassified(env, line, External(cmd, args));
  }

  /**
   * `type` answers "shell builtin" for the five built-in names whatever the
   * search path holds.
   */
  lemma {:induction false} TypeBuiltinWins(env: Env, line: string, name: string)
    requires IsBuiltin(name) && TrimEnd(line) == "type " + name
    ensures Decide(env, line) == Print(name + " is a shell builtin")
  {
    ClassifyType(line, name);
    BuiltinUntrimmed(name);
    DecideBuiltinType(env, line, name);
  }

  lemma {:induction false} BuiltinUntrimmed(name: string)
    requires IsBuiltin(name)
    ensures TrimStart(name) == name
  {
  }

  lemma {:induction false} DecideBuiltinType(env: Env, line: string, name: string)
    requires IsBuiltin(name) && Classify(line) == Ok(Type(name))
    ensures Decide(env, line) == Print(name + " is a shell builtin")
  {
    DecideType(env, line, name);
  }

  /**
   * `type` names the first directory on the search path that lists the name,
   * provided no directory before it fails to read or lists it.
   */
  lemma {:induction false} TypeFindsFirst(env: Env, name: string, i: nat, j: nat)
    requires !IsBuiltin(name) && env.path.Some?
    requires var dirs := Split(env.path.value, PATH_SEPARATOR);
             i < |dirs| && ReadDir(env.fs, dirs[i]).Entries? &&
             j < |ReadDir(env.fs, dirs[i]).entries| &&
             ReadDir(env.fs, dirs[i]).entries[j] == Named(name) &&
             (forall e :: 0 <= e < j ==> Passes(ReadDir(env.fs, dirs[i]).entries[e], name)) &&
             forall k :: 0 <= k < i ==>
               ReadDir(env.fs, dirs[k]).Entries? &&
               forall e :: e in ReadDir(env.fs, dirs[k]).entries ==> Passes(e, name)
    ensures TypeAnswer(env, name) ==
              Ok(name + " is " + Split(env.path.value, PATH_SEPARATOR)[i] + "/" + name)
  {
    EarlierDirectoryWins(env.fs, Split(env.path.value, PATH_SEPARATOR), name, i, j);
  }

  /**
   * A name that is neither a built-in, nor an existing path, nor listed in any
   * directory of the search path: `type` says "not found", and running it
   * prints the command-not-found message.
   */
  lemma {:induction false} UnknownName(env: Env, name: string)
    requires |name| > 0 && NoSpace(name)
    requires !IsBuiltin(name) && name !in env.fs.existing
    requires env.path.Some? ==>
               forall k :: 0 <= k < |Split(env.path.value, PATH_SEPARATOR)| ==>
                 ScanDir(env.fs, Split(env.path.value, PATH_SEPARATOR)[k], name) == DirMiss
    ensures Decide(env, "type " + name) == Print(name + " not found")
    ensures Decide(env, name) == Print(name + ": command not found")
  {
    if env.path.Some? {
      FirstMatchMiss(env.fs, Split(env.path.value, PATH_SEPARATOR), name);
    }
    assert Locate(env.fs, env.path, name) == Miss;
    assert Classify("type " + name) == Ok(Type(name)) by {
      TrimEndFixed("type " + name);
      assert TrimStart(name) == name;
      ParseType(name);
    }
    DecideType(env, "type " + name, name);
    assert Classify(name) == Ok(External(name, None)) by {
      TrimEndFixed(name);
      assert ' ' !in name by {
        assert forall i :: 0 <= i < |name| ==> name[i] != ' ';
      }
      ParseNoSpace(name);
    }
    DecideExternal(env, name, name, None);
    TrimEndFixed(name);
  }

  /**
   * A directory that cannot be read, or an entry that cannot be read, met on
   * the search path before any match aborts both `type name` and running
   * `name`: the error propagates out of the scan instead of being skipped.
   */
  lemma {:induction false} ScanFailureAborts(env: Env, name: string, i: nat, e: IoError)
    requires |name| > 0 && NoSpace(name)
    requires !IsBuiltin(name) && name !in env.fs.existing && env.path.Some?
    requires var dirs := Split(env.path.value, PATH_SEPARATOR);
             i < |dirs| && ScanDir(env.fs, dirs[i], name) == DirFailed(e) &&
             forall k :: 0 <= k < i ==> ScanDir(env.fs, dirs[k], name) == DirMiss
    ensures Decide(env, "type " + name) == Abort(Io(e))
    ensures Decide(env, name) == Abort(Io(e))
  {
    FirstMatchStops(env.fs, Split(env.path.value, PATH_SEPARATOR), name, i);
    assert Locate(env.fs, env.path, name) == Failed(e);
    assert Classify("type " + name) == Ok(Type(name)) by {
      TrimEndFixed("type " + name);
      assert TrimStart(name) == name;
      ParseType(name);
    }
    DecideType(env, "type " + name, name);
    assert Classify(name) == Ok(External(name, None)) by {
      TrimEndFixed(name);
      assert ' ' !in name by {
        assert forall k :: 0 <= k < |name| ==> name[k] != ' ';
      }
      ParseNoSpace(name);
    }
    DecideExternal(env, name, name, None);
  }

  /**
   * A line of whitespace only, the empty line included, is an external
   * command with the empty name; unless the empty name is found, the shell
   * reports it as not found with an empty name before the colon.
   */
  lemma {:induction false} EmptyLine(env: Env, w: string)
    requires forall i :: 0 <= i < |w| ==> IsSpace(w[i])
    requires "" !in env.fs.existing && Locate(env.fs, env.path, "") == Miss
    ensures Decide(env, w) == Print(": command not found")
  {
    TrimEndSuffix([], w);
    assert [] + w == w;
    ParseNoSpace([]);
    DecideExternal(env, w, [], None);
  }

  /**
   * The command-not-found message repeats the whole line, arguments and all,
   * not only the command name.
   */
  lemma {:induction false} NotFoundShowsWholeLine(env: Env, line: string, cmd: string, args: string)
    requires ' ' !in cmd && !IsKeyword(cmd) && TrimEnd(line) == cmd + " " + args
    requires cmd !in env.fs.existing && Locate(env.fs, env.path, cmd) == Miss
    ensures Decide(env, line) == Print(cmd + " " + args + ": command not found")
  {
    ClassifyExternal(line, cmd, args);
    DecideExternal(env, line, cmd, Some(args));
  }

  /**
   * The trimmed line is the external command `cmd`: either the whole line,
   * space-free and not `pwd`, or a non-keyword word, a space and its argument text.
   */
  predicate ExternalLine(line: string, cmd: string, args: Option<string>)
  {
    ' ' !in cmd &&
    match args
    case None => cmd != "pwd" && TrimEnd(line) == cmd
    case Some(text) => !IsKeyword(cmd) && TrimEnd(line) == cmd + " " + text
  }

  lemma {:induction false} ClassifyExternalLine(line: string, cmd: string, args: Option<string>)
    requires ExternalLine(line, cmd, args)
    ensures Classify(line) == Ok(External(cmd, args))
  {
    match args
    case None => ParseNoSpace(cmd);
    case Some(text) => ClassifyExternal(line, cmd, text);
  }

  /**
   * A command that exists as a path runs as it is, even when the search path
   * also lists it, with its arguments split on whitespace (none for a bare line).
   */
  lemma {:induction false} ExistingPathRunsDirectly(env: Env, line: string, cmd: string, args: Option<string>)
    requires ExternalLine(line, cmd, args)
    requires cmd in env.fs.existing
    ensures Decide(env, line) == Launch(cmd, Argv(args))
  {
    ClassifyExternalLine(line, cmd, args);
    DecideExternal(env, line, cmd, args);
  }

  /** Otherwise the program is the first match on the search path, joined to its directory. */
  lemma {:induction false} SearchPathRunsFirstMatch(env: Env, line: string, cmd: string, args: Option<string>, dir: string)
    requires ExternalLine(line, cmd, args)
    requires cmd !in env.fs.existing && Locate(env.fs, env.path, cmd) == Hit(dir)
    ensures Decide(env, line) == Launch(JoinPath(dir, cmd), Argv(args))
  {
    ClassifyExternalLine(line, cmd, args);
    DecideExternal(env, line, cmd, args);
  }

  /** `echo` prints its message as typed: no trimming at the front, no splitting. */
  lemma {:induction false} EchoVerbatim(env: Env, line: string, msg: string)
    requires TrimEnd(line) == "echo " + msg
    ensures Decide(env, line) == Print(msg)
  {
    ClassifyEcho(line, msg);
    DecideClassified(env, line, Echo(msg));
  }

  /** `cd ~`, with any whitespace before the `~`, goes to `HOME`, and without `HOME` the shell stops. */
  lemma {:induction false} CdHome(env: Env, line: string, arg: string)
    requires TrimEnd(line) == "cd " + arg && TrimStart(arg) == "~"
    ensures env.home.Some? ==> Decide(env, line) == ChangeDir(env.home.value)
    ensures env.home.None? ==> Decide(env, line) == Abort(HomeUnset)
  {
    ClassifyCd(line, arg);
    DecideCd(env, line, "~");
  }

  /** Any other `cd` target is used as typed, after its leading whitespace. */
  lemma {:induction false} CdPath(env: Env, line: string, arg: string)
    requires TrimEnd(line) == "cd " + arg && TrimStart(arg) != "~"
    ensures Decide(env, line) == ChangeDir(TrimStart(arg))
  {
    ClassifyCd(line, arg);
    DecideCd(env, line, TrimStart(arg));
  }

  /** `exit n`, with the line's trailing newline, terminates with status `n`. */
  lemma {:induction false} ExitWithCode(env: Env, n: i32, w: string)
    requires forall i :: 0 <= i < |w| ==> IsSpace(w[i])
    ensures Decide(env, "exit " + Show(n) + w) == Terminate(n)
  {
    var input := "exit " + Show(n);
    assert TrimEnd(input + w) == input by {
      TrimEndSuffix(input, w);
      assert input[|input| - 1] == Show(n)[|Show(n)| - 1];
      TrimEndFixed(input);
    }
    assert input == "exit " + [] + Show(n);
    ParseExitCode([], n);
    DecideClassified(env, input + w, Exit(n));
  }

  /**
   * The shell never reports a missing exit code: the line has lost its
   * trailing whitespace before it is classified, so `exit` with nothing after
   * it has no space and is an external command.
   */
  lemma {:induction false} ExitCodeNeverMissing(line: string)
    ensures Classify(line) != Err(BadArg(EXIT_CODE_REQUIRED))
  {
    ExitMissingEndsInSpace(TrimEnd(line));
  }

  /** A few whole lines and what they do. */
  lemma {:induction false} Transcript(env: Env)
    ensures Decide(env, "echo hello world\n") == Print("hello world")
    ensures Decide(env, "type echo\n") == Print("echo is a shell builtin")
    ensures Decide(env, "exit 3\n") == Terminate(3)
    ensures Decide(env, "pwd\n") == PrintCwd
  {
    EchoHelloWorld(env);
    TypeEcho(env);
    ExitThree(env);
    PwdLine(env);
  }

  lemma {:induction false} EchoHelloWorld(env: Env)
    ensures Decide(env, "echo hello world\n") == Print("hello world")
  {
    HelloWorldText();
    TrimEndSuffix("echo hello world", "\n");
    TrimEndFixed("echo hello world");
    EchoVerbatim(env, "echo hello world\n", "hello world");
  }

  /** Literal identities for the `echo` line, kept apart so the solver proves them in a small context. */
  lemma {:induction false} HelloWorldText()
    ensures "echo hello world\n" == "echo hello world" + "\n"
    ensures "echo hello world" == "echo " + "hello world"
  {
  }

  lemma {:induction false} TypeEcho(env: Env)
    ensures Decide(env, "type echo\n") == Print("echo is a shell builtin")
  {
    EchoIsBuiltinText();
    assert TrimEnd("type echo\n") == "type " + "echo" by {
      TrimEndSuffix("type echo", "\n");
      TrimEndFixed("type echo");
      assert "type echo\n" == "type echo" + "\n";
    }
    TypeBuiltinWins(env, "type echo\n", "echo");
  }

  /** A literal identity for the `type echo` answer, kept apart for the solver as above. */
  lemma {:induction false} EchoIsBuiltinText()
    ensures "echo" + " is a shell builtin" == "echo is a shell builtin"
  {
  }

  lemma {:induction false} ExitThree(env: Env)
    ensures Decide(env, "exit 3\n") == Terminate(3)
  {
    assert Show(3) == "3";
    assert "exit 3\n" == "exit " + Show(3) + "\n";
    ExitWithCode(env, 3, "\n");
  }

  lemma {:induction false} PwdLine(env: Env)
    ensures Decide(env, "pwd\n") == PrintCwd
  {
    TrimEndSuffix("pwd", "\n");
    TrimEndFixed("pwd");
    assert "pwd\n" == "pwd" + "\n";
    ParseBareInverse("pwd");
    DecideClassified(env, "pwd\n", Pwd);
  }
}
