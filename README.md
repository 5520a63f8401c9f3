# cc-shell-rs: the command classifier and the lookup around it

`cc-shell-rs` is a small interactive shell. Each turn it reads a line and
trims its trailing whitespace. It then classifies the line as one of the
built-ins `exit`, `echo`, `type`, `pwd` and `cd`, or as an external program.
An external program is looked up first as a literal path and then in the
directories of `PATH`, in order. The shell runs the command and repeats.

This project models the decision part of one turn:

- `Command.Parse` models `Cmd::try_from`: the split at the first space, the
  five built-in forms, the `External` fallback and the two `BadArg` errors
  of `exit`. `Command.Classify` applies it to the line after `trim_end`.
- `Int32.ParseI32` models Rust's `i32` parser as `exit` uses it: an optional
  sign, at least one ASCII digit, and a value in the 32-bit range.
- `Text` models the string primitives: `trim_start`, `trim_end`,
  `split_once(' ')`, `split(':')` and `split_whitespace`.
- `SearchPath` models the `PATH` scan. The environment and the filesystem
  are values:
  - `PATH` is an optional string;
  - each directory maps to its `read_dir` entries in enumeration order,
    where an entry can itself be an I/O error, or to `Unreadable`;
  - a set lists the literal paths that exist.

  `SearchPath.ScanPath` is the scan written as the source writes it: two
  nested loops with a labelled `break` and early error returns. It is
  proved equal to the first-match function `SearchPath.Locate`.
- `Shell.Decide` is one turn as a pure function: the line read, in a given
  environment, yields an `Action`. An action is printing a line, exiting
  with a code, changing to a directory, launching a program with an
  argument vector, or aborting with a fatal error. `Shell.Dispatch` and
  `Shell.Run` compute the same action as a method, scanning `PATH` in place.

One branch of the parser is unreachable from the shell. `Cmd::try_from`
rejects `exit` with an empty argument, reporting "exit code is required"
(src/main.rs:42-44). But `trim_end` (src/main.rs:103) runs before
classification and turns `exit ` into `exit`. That line has no space, so it
is looked up as an external program. `Shell.ExitCodeNeverMissing` proves
that no line the shell reads produces that error.

## Model

| member | source | states |
|---|---|---|
| Command.Parse | src/main.rs:34-81 | no contract of its own: `ParseBareInverse`, `ParseVerbatimInverse`, `ParseTrimmedInverse` and `ParseExitInverse` state what each result says about the line; `ParseNoSpace`, `ParseEcho`, `ParseType`, `ParseCd`, `ParseExternal` and the `ParseExit*` lemmas state what each kind of line gives |
| Command.Classify | src/main.rs:103-104 | no contract of its own: the `Classify*` lemmas and `Shell.ExitCodeNeverMissing` state it on whole read lines |
| SearchPath.Locate | src/main.rs:157-168 | no contract of its own: `ScanPath` is proved equal to it; `FirstMatchMiss`, `FirstMatchStops`, `FirstMatchSound`, `EarlierDirectoryWins` and `UnreadableIsFatal` state it |
| Shell.TypeAnswer | src/main.rs:111-127 | no contract of its own: `TypeBuiltinWins`, `TypeFindsFirst`, `UnknownName` and `ScanFailureAborts` state it |
| Shell.CdTarget | src/main.rs:131-135 | no contract of its own: `CdHome` and `CdPath` state it |
| Shell.Resolve | src/main.rs:150-178 | no contract of its own: `ExistingPathRunsDirectly`, `SearchPathRunsFirstMatch`, `UnknownName`, `EmptyLine` and `ScanFailureAborts` state it |
| Shell.JoinPath | src/main.rs:163 | the program path is the directory followed by the name, with a `/` between them exactly when the directory is non-empty and does not already end in `/`; nothing else is ever inserted |
| Shell.NotFoundLine | src/main.rs:173 | no contract of its own: `NotFoundShowsWholeLine` and `UnknownName` state it |
| Shell.Argv | src/main.rs:182-184 | no arguments without argument text; every argument is a non-empty whitespace-free token |
| Shell.Eval | src/main.rs:107-188 | no contract of its own: `Run` computes it in place; the `Shell` lemmas state it |
| Shell.Decide | src/main.rs:102-188 | no contract of its own: `Dispatch` computes it; `TypeBuiltinWins` through `Transcript` state it on whole lines |
| Text.TrimStart | src/main.rs:40 | the result is no longer than the input; everything removed is whitespace; the result does not start with whitespace |
| Text.TrimStartSuffix | src/main.rs:40 | what is kept is the input's own tail |
| Text.TrimEnd | src/main.rs:103 | the result is no longer than the input; everything removed is whitespace; the result does not end with whitespace |
| Text.TrimEndPrefix | src/main.rs:103 | what is kept is the input's own head |
| Text.TrimEndSuffix | src/main.rs:103 | whitespace after a line, such as its newline, does not change the trimmed line |
| Text.SplitOnceSpec | src/main.rs:37 | no result exactly when the separator is absent; otherwise the head has no separator and head + separator + rest is the input |
| Text.SplitOnceAt | src/main.rs:37-38 | the split point is unique: a separator-free head and any rest come back as they were joined |
| Text.Split | src/main.rs:117 | at least one piece, and no piece contains the separator |
| Text.JoinSplit | src/main.rs:158 | joining the pieces of `PATH` with `:` gives back `PATH` |
| Text.SplitJoin | src/main.rs:158 | splitting separator-free pieces joined with `:` gives back exactly those pieces, in order |
| Text.Tokens | src/main.rs:183 | every argument token is non-empty and holds no whitespace |
| Text.TokensKeepVisible | src/main.rs:183 | the tokens laid end to end are the input's non-whitespace characters in order |
| Text.TokensOfWord | src/main.rs:183 | a single whitespace-free word is one token |
| Text.TokensSkipSpace | src/main.rs:183 | a leading run of whitespace, of any kind and length, yields no token |
| Text.TokensOfHead | src/main.rs:183 | a word followed by any non-empty whitespace run is the first token, and tokenising continues after the run |
| Text.TokensOfJoin | src/main.rs:183 | tokenising words joined by single spaces gives back those words in order |
| Int32.ParseI32 | src/main.rs:46-48 | a successful parse never comes from the empty text or a lone sign |
| Int32.ParseWellFormed | src/main.rs:46-48 | a sign (none, `+` or `-`) followed by digits parses exactly when its value fits in 32 bits, and then to that value |
| Int32.ParseRejectsJunk | src/main.rs:46-48 | a character that is neither a digit nor a leading sign makes the parse fail |
| Int32.ParseShow | src/main.rs:46-50 | every `i32`, written in decimal, parses back to itself |
| Command.ParseBareInverse | src/main.rs:68-77 | `Pwd` exactly for the line `pwd`; an argument-less external command is the whole line and contains no space |
| Command.ParseVerbatimInverse | src/main.rs:37-66 | an external command's name precedes the first space, is not a keyword and, followed by a space and its argument text, rebuilds the line; `echo`'s message is the rest of the line verbatim |
| Command.ParseTrimmedInverse | src/main.rs:53-62 | `type` and `cd` come only from lines starting `type ` and `cd `, and carry the rest with its leading whitespace removed |
| Command.ParseExitInverse | src/main.rs:39-51 | `Exit(n)` and both errors come only from lines starting `exit `; `n` is the parse of the trimmed argument; the error is "exit code is required" exactly when that argument is empty, and "failed to parse exit code" exactly when it is non-empty and not an `i32` |
| Command.ParseNoSpace | src/main.rs:68-77 | a line without a space other than `pwd` is external with no arguments, so a bare `exit` or `echo` is not a built-in |
| Command.ParseEcho | src/main.rs:52 | `echo ` followed by any text is `Echo` of that text, untrimmed |
| Command.ParseType | src/main.rs:53-57 | `type ` followed by any text is `Type` of that text without its leading whitespace |
| Command.ParseCd | src/main.rs:58-62 | `cd ` followed by any text is `Cd` of that text without its leading whitespace |
| Command.ParseExternal | src/main.rs:63-66 | a space-free word other than the four keywords, a space and any text is external, with the text kept verbatim |
| Command.ClassifyEcho | src/main.rs:103-104 | a read line whose trimmed text is `echo ` + message classifies as `Echo` of that message |
| Command.ClassifyType | src/main.rs:103-104 | a read line whose trimmed text is `type ` + text classifies as `Type` of the text without its leading whitespace |
| Command.ClassifyCd | src/main.rs:103-104 | a read line whose trimmed text is `cd ` + text classifies as `Cd` of the text without its leading whitespace |
| Command.ClassifyExternal | src/main.rs:103-104 | a read line whose trimmed text is a non-keyword word, a space and text classifies as external with that text |
| Command.ParseExitMissing | src/main.rs:40-44 | `exit ` followed only by whitespace fails with "exit code is required" |
| Command.ParseExitInvalid | src/main.rs:46-48 | `exit ` followed by text that does not parse as an `i32` fails with "failed to parse exit code" |
| Command.ParseExitValid | src/main.rs:46-50 | `exit ` followed by any text whose trimmed form parses as an `i32` (`+5`, `007`, `-0` included) gives `Exit` of that value |
| Command.ParseExitCode | src/main.rs:39-50 | `exit `, any whitespace, then a written-out `i32` gives `Exit` of that value |
| SearchPath.ScanPath | src/main.rs:155-168 | the nested loops return the first-match lookup: the first directory in `PATH` order holding the name, the first read error met before it, or no match |
| SearchPath.ScanEntriesMiss | src/main.rs:159-166 | a directory yields nothing exactly when every entry is readable and differently named |
| SearchPath.ScanEntriesStops | src/main.rs:159-166 | the first entry that is an error or the name decides the directory's outcome |
| SearchPath.FirstMatchMiss | src/main.rs:157-168 | the search finds nothing exactly when every directory yields nothing |
| SearchPath.FirstMatchStops | src/main.rs:158-164 | the first directory that yields a match or an error decides the search |
| SearchPath.FirstMatchSound | src/main.rs:162-163 | a hit names a directory on the search path whose listing contains the name |
| SearchPath.EarlierDirectoryWins | src/main.rs:158-164 | when two directories hold the name, the one listed first wins if everything scanned before it is clean |
| SearchPath.UnreadableIsFatal | src/main.rs:159 | an unreadable directory reached before any match aborts the search with its read error |
| Shell.Run | src/main.rs:107-188 | evaluating a classified command in place gives the action `Eval` specifies |
| Shell.Dispatch | src/main.rs:102-107 | trimming, classifying and evaluating a line gives the action `Decide` specifies |
| Shell.TypeBuiltinWins | src/main.rs:111-114 | `type` of any of the five built-in names prints "<name> is a shell builtin", whatever the search path holds |
| Shell.TypeFindsFirst | src/main.rs:116-124 | `type` prints "<name> is <dir>/<name>" for the first `PATH` directory listing the name |
| Shell.UnknownName | src/main.rs:111-175 | for a name that is no built-in, no existing path and in no directory, `type` prints "<name> not found" and running it prints "<name>: command not found" |
| Shell.ScanFailureAborts | src/main.rs:116-160 | a `read_dir` error or an entry error met on the search path before any match aborts `type name` (the `?`s at lines 118-119) and running `name` (the `?`s at lines 159-160) with that I/O error |
| Shell.EmptyLine | src/main.rs:68-76 | a line of whitespace only, the empty line included, is the external command with the empty name, and unless that name is found it prints ": command not found" (line 173) |
| Shell.NotFoundShowsWholeLine | src/main.rs:170-175 | the command-not-found message repeats the whole trimmed line, arguments included |
| Shell.ExistingPathRunsDirectly | src/main.rs:150-153 | an external command line, bare (`/bin/ls`) or with arguments, whose name exists as a path launches that name as it is, whatever `PATH` holds, with its arguments split on whitespace (none for a bare line) |
| Shell.SearchPathRunsFirstMatch | src/main.rs:154-171 | for an external command line, bare (`ls`) or with arguments, whose name is not an existing path, the program launched is the first `PATH` match joined to its directory, with the same argument vector |
| Shell.EchoVerbatim | src/main.rs:109 | `echo` prints its message exactly as typed |
| Shell.CdHome | src/main.rs:131-132 | `cd ~`, with any whitespace before the `~` (removed by the `trim_start` at line 59), changes to `HOME`, and aborts when `HOME` is unset |
| Shell.CdPath | src/main.rs:131-135 | any other `cd` target is used unchanged, after its leading whitespace |
| Shell.ExitWithCode | src/main.rs:108 | `exit <n>` followed by its newline terminates with status `n` |
| Command.ExitMissingEndsInSpace | src/main.rs:40-44 | a line that gets "exit code is required" ends in whitespace |
| Shell.ExitCodeNeverMissing | src/main.rs:40-44 | no line read by the shell can produce "exit code is required" |
| Shell.Transcript | src/main.rs:102-129 | `echo hello world`, `type echo`, `exit 3` and `pwd` print `hello world`, print `echo is a shell builtin`, exit with 3 and print the working directory |

## Left out

- The loop itself (src/main.rs:91-100): the prompt, `flush`, `read_line` and the reuse of the buffer. The model evaluates one line that has already been read.
- Process effects (src/main.rs:108, 129, 137, 180-187) become `Action` values and are not performed. These are `process::exit`, `current_dir`, `set_current_dir`, spawning, capturing the child's output and decoding it as UTF-8. The exit status is the `i32` as given, before the operating system truncates it.
- What follows a failed `set_current_dir` (src/main.rs:137-144) is not modelled. This is the "No such file or directory" message versus the fatal error. The model stops at the directory `cd` tries.
- The "fatal error: ..." line that `main` prints (src/main.rs:84-88) is not modelled. `Abort` carries the error value instead, because I/O error texts come from the operating system.
- `AppError::Io` (src/main.rs:15-16) is left out, because no code path in the file constructs it. I/O errors reach the top level boxed, and the model's `Fatal` type stands for them.
- `env::var` and `fs::read_dir` are replaced by values. An unset or non-Unicode `PATH` or `HOME` becomes `None`. An entry that fails becomes `Broken`. A failed `try_exists` counts as a path that does not exist.
- Whitespace is ASCII: tab, line feed, vertical tab, form feed, carriage return and space. Rust's `trim_start`, `trim_end` and `split_whitespace` also treat the other Unicode space characters as whitespace.
- The `filter(|arg| !arg.is_empty())` after `split_whitespace` (src/main.rs:183) is a no-op. `Text.Tokens` is proved never to yield an empty token, so `Shell.Argv` does not repeat the filter.
- The `type` answer joins directory and name with a literal `/`, as `println!` does. The program path is built with `Path::join`, which does not double a trailing `/`. Both are modelled as written, so for a `PATH` entry ending in `/` the two texts differ.
