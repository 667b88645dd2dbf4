# A Dafny model of the rusty_bash parsing and execution core

rusty_bash is an interactive shell written in Rust. This project models the
part of it that turns input text into command objects and decides what those
commands do when they run:

- the brace group `{ script }` (`src/elements/command/brace.rs`): its
  statement-boundary check `tail_check`, its parser with the retry loop that
  reads more lines from the terminal, the redirect loop, and the exit
  decision taken after the inner script has run;
- the `if ... then ... elif ... else ... fi` command
  (`src/elements/command/if_command.rs`): the choice of the branch to run,
  the parser, and the body loops that keep reading lines until a body is
  followed by the next keyword;
- the `while ... do ... done` command (`src/elem_compound_while.rs`): the loop
  rule, the choice between running in the shell and running in a child, the
  parser and its blank-skipping `next_line` step;
- the pipeline (`src/elem_pipeline.rs`): the chain of commands joined by a
  trailing `|` argument, the execution of its last command, the mapping of a
  wait status to the `?` variable, and the captured output with one trailing
  newline removed;
- the simple command (`src/elem_command.rs`): words split at single spaces,
  and the three execution paths (`exit`, `cd`, fork and `execvp`);
- the first-generation line parser (`src/parser.rs`): a line becomes a tree
  whose leaves are its words.

The input cursor (`Feeder`) is a class with the unconsumed text and the lines
the terminal will still deliver. Its `Stream()` is both of these joined, and
`State()` is the same pair as a value, an `Input`. Every parser is first
defined as a function on `Input` (`BraceSpec`, `IfSpec`, `WhileSpec` and the
functions they are built from), and each parsing method is proved to return
exactly what that function gives for the input it started from, and to leave
the input that function gives. The properties of the parsers are then proved
about those functions: the text a command reports is exactly what left the
stream, a failure leaves the unconsumed text as it was, and the scripts read
are nonempty. A snapshot restores the unconsumed text only: a line read from
the terminal after the snapshot is not given back by a rewind, as with
`feed_additional_line` followed by `rewind`.

Some sub-parsers are not part of this model: `Script::parse`,
`Redirect::parse`, `Eoc::parse`, `ArgDelimiter::parse` and the pipeline's
`Command::parse`. They are parameters: a `Recognizer` gives the length of the
match, and a `CommandReader` gives the command read. Running a nested script
is also a parameter, a `Runner` from the variables before to the variables
after. Process creation, waiting and pipes are parameters too (the child's pid,
the wait status, the captured output), or the model returns the decision the
code takes (`Flow`, `ExecPath`, `Action`).

Two behaviours of the code that the model keeps as they are:

- `Pipeline::exec` (src/elem_pipeline.rs:22-42) runs only the last command of
  the pipeline, and opens at most one pipe, to capture that command's output.
- A simple command's `exec` (src/elem_command.rs:20-47) ignores the result of
  `waitpid` and never sets `?`.

## Model

| member | source | states |
|---|---|---|
| Brace.TailCheck | src/elements/command/brace.rs:14-25 | the check passes only on a nonempty text whose last character is a newline, `;`, tab or space |
| Brace.TailCheckMeaning | src/elements/command/brace.rs:14-25 | the check holds exactly when some newline, `;` or tab is followed only by spaces up to the end |
| Brace.TailCheckAllSpaces | src/elements/command/brace.rs:15-24 | a text of spaces only, the empty text included, fails the check |
| Brace.TailCheckTrailingSpace | src/elements/command/brace.rs:17 | appending a space never changes the verdict |
| Brace.ExitRequest | src/elements/command/brace.rs:38-43 | the shell continues exactly when the group has no pipe end and no redirect; an exit carries the i32 that `?` holds, within the i32 range |
| Brace.ExitCarriesStatus | src/elements/command/brace.rs:38-43 | a group with a pipe end or a redirect exits with exactly the 32-bit status the script left in `?` |
| Brace.ConnectedNeverContinues | src/elements/command/brace.rs:40-42 | a connected group never continues in the shell after its script |
| Brace.BraceLoop | src/elements/command/brace.rs:89-124 | the retry loop on the input as a value: rejected at the boundary check with the stream unchanged, exhausted with everything consumed, or closed with the stream equal to `{` + script + `}` + rest and a script that passes the check |
| Brace.BraceSpec | src/elements/command/brace.rs:84-137 | `parse` on the input as a value: no `{` leaves the input alone; a failure is a rejection with the stream unchanged or the input used up; a group's text is `{` script `}` and the redirect run, exactly what left the stream |
| Brace.BraceRejectRestores | src/elements/command/brace.rs:95-99 | a script that fails the boundary check gives no command and the input as it was |
| Brace.BraceNoMoreInput | src/elements/command/brace.rs:104-120 | an unclosed group with no line left gives no command and consumes everything |
| Brace.BraceReadFacts | src/elements/command/brace.rs:121-137 | a closed group is the command: its text is `{` script `}` with blanks and redirects woven after it, and the script passes the check |
| Brace.CommandBrace.New | src/elements/command/brace.rs:73-82 | the script is kept; text empty, no pid, nothing connected, not a group leader |
| Brace.CommandBrace.ExecElems | src/elements/command/brace.rs:38-43 | the variables are what the script leaves; then continue in the shell, exit with the status, or fail when `?` is not an i32 |
| Brace.CommandBrace.SetPid | src/elements/command/brace.rs:45 | the pid is set |
| Brace.CommandBrace.GetPid | src/elements/command/brace.rs:59 | reads the pid field; it has no contract of its own, and SetPid's ensures is what a later read sees |
| Brace.CommandBrace.SetGroupLeader | src/elements/command/brace.rs:52 | the group-leader flag is set |
| Brace.CommandBrace.SetPipe | src/elements/command/brace.rs:61-65 | the three pipe ends are set and the redirects stay |
| Brace.CommandBrace.GetPipeEnd | src/elements/command/brace.rs:67 | returns the input pipe end |
| Brace.CommandBrace.GetPipeOut | src/elements/command/brace.rs:68 | returns the output pipe end |
| Brace.CommandBrace.GetText | src/elements/command/brace.rs:69 | reads the text field; Parse's ensures states what that text is |
| Brace.CommandBrace.ReadGroup | src/elements/command/brace.rs:93-123 | one attempt: after `{`, no script, or the recognised script and the rest; and which way that attempt decides BraceLoop: rejected, closed, or the next round after one more line |
| Brace.CommandBrace.ParseBody | src/elements/command/brace.rs:89-124 | the outcome and the input left are exactly those of BraceLoop on the input it started from |
| Brace.CommandBrace.ParseGroup | src/elements/command/brace.rs:89-137 | BraceLoop's outcome; when closed, the redirect run after `}`, its redirects and blanks, and the input after it |
| Brace.CommandBrace.Parse | src/elements/command/brace.rs:84-145 | the outcome is BraceSpec's on the input it started from; no `{`: nothing consumed; failure: rejected with the stream unchanged, or everything consumed; success: the text is exactly what was consumed, `{` script `}` then blanks and redirects, and only the redirects are connected |
| Elements.RedirectRun | src/elements/command/brace.rs:128-137 | the redirect loop on text as a value: what it takes is a prefix of the text |
| Elements.RedirectRunWoven | src/elements/command/brace.rs:128-137 | that prefix is the loop's blank runs woven with its redirects, one more blank run than redirects; every blank run is blank and every redirect has text |
| Elements.TakeRedirect | src/elements/command/brace.rs:129-133 | one step of the loop: no redirect and nothing consumed, or a nonempty redirect and the blanks after it, which is the next step of RedirectRun |
| Elements.ParseRedirects | src/elements/command/brace.rs:128-137 | returns RedirectRun and its blanks: blank runs alternate with nonempty redirects; their text is exactly what was consumed |
| IfCommand.IfRun | src/elements/command/if_command.rs:24-37 | the variables after `exec_elems`; it has no contract of its own, and FirstTrueBranchRuns and NoTrueBranchRunsElse state which script runs |
| IfCommand.FirstTrueBranchRuns | src/elements/command/if_command.rs:25-31 | the first condition that leaves `?` at "0" selects its body, which runs on the variables that condition left; nothing runs after it |
| IfCommand.NoTrueBranchRunsElse | src/elements/command/if_command.rs:25-36 | when no condition succeeds, the `else` part (if any) runs after all the conditions |
| IfCommand.BodyRetry | src/elements/command/if_command.rs:95-117 | the body loop on the input as a value: when it settles, the body is nonempty, a keyword follows, and no more lines were read than there were |
| IfCommand.SettledConsumesBody | src/elements/command/if_command.rs:95-117 | a body loop that settles consumed exactly its nonempty body, a keyword follows, and it read no more lines than there were |
| IfCommand.NoLinesSettlesAtOnce | src/elements/command/if_command.rs:95-117 | with no line left, the loop settles at its first attempt or never, exactly when that attempt fails |
| IfCommand.TryOnce | src/elements/command/if_command.rs:96-116 | one round: a hit is the settled outcome; a miss leaves the cursor as the line read made it and the outcome is that of the next round |
| IfCommand.RetryBody | src/elements/command/if_command.rs:95-117 | the body loop: returns nothing exactly when it would spin forever, otherwise the settled body, which is nonempty, followed by a keyword and exactly what left the stream |
| IfCommand.RetryBodyAsWritten | src/elements/command/if_command.rs:95-117 | the loop as written: the command text gains every abandoned body before the settled one |
| IfCommand.AbandonedBodyIsRepeated | src/elements/command/if_command.rs:99-116 | for input `echo a` then `fi` on the next line, the as-written loop adds `echo a` to the text twice |
| IfCommand.EchoAbandonedFirst | src/elements/command/if_command.rs:99-116 | on that input the first round parses `echo a`, finds no keyword and abandons it |
| IfCommand.EchoSettlesSecond | src/elements/command/if_command.rs:96-111 | after the next line is read the same body settles before `fi` |
| IfCommand.ThenOf | src/elements/command/if_command.rs:89-93 | after one more line, `then` is taken exactly when it comes next, and what is taken left the stream |
| IfCommand.IfThenPair | src/elements/command/if_command.rs:79-119 | `parse_if_then_pair` on the input as a value: fails only when no condition parses after the line read, leaving that input; otherwise hangs, or reads a branch with nonempty condition and body, `then` or nothing, followed by `fi`, `else` or `elif`, its text exactly what left the stream |
| IfCommand.ElseFi | src/elements/command/if_command.rs:121-141 | `parse_else_fi` on the input as a value: hangs, or a nonempty body and `fi` left the stream |
| IfCommand.IfChain | src/elements/command/if_command.rs:152-172 | the keyword loop on the input as a value: a failed branch or a missing keyword fails, a hanging body hangs, otherwise at least one branch and a nonempty `else` body if any |
| IfCommand.IfChainParts | src/elements/command/if_command.rs:152-172 | every branch of a finished chain is well formed, and the branches, `elif`s, `else` part and `fi` are exactly what left the stream |
| IfCommand.ElifTextSnoc | src/elements/command/if_command.rs:161-163 | the text of the branches so far grows by one branch and `elif` per round |
| IfCommand.ChainTextSnoc | src/elements/command/if_command.rs:158-167 | the last branch, the `else` part and `fi` complete that text into the chain's text |
| IfCommand.IfSpec | src/elements/command/if_command.rs:143-191 | `parse` on the input as a value: no `if` leaves the input alone; a failure puts back the unconsumed text; otherwise the branches, `else` part, text and redirects, the text exactly what left the stream |
| IfCommand.IfRewindDropsLine | src/elements/command/if_command.rs:149-155 | a condition that does not parse after a line was read: the text goes back to `if`, and the line read is lost |
| IfCommand.CommandIf.New | src/elements/command/if_command.rs:67-76 | no branches, no `else`, empty text, no pid, nothing connected |
| IfCommand.CommandIf.ExecElems | src/elements/command/if_command.rs:24-37 | the variables become what IfRun gives: the first successful branch, else the `else` part |
| IfCommand.CommandIf.SetPid | src/elements/command/if_command.rs:39 | the pid is set |
| IfCommand.CommandIf.GetPid | src/elements/command/if_command.rs:53 | reads the pid field; it has no contract of its own, and SetPid's ensures is what a later read sees |
| IfCommand.CommandIf.SetGroupLeader | src/elements/command/if_command.rs:46 | the group-leader flag is set |
| IfCommand.CommandIf.SetPipe | src/elements/command/if_command.rs:55-59 | the three pipe ends are set and the redirects stay |
| IfCommand.CommandIf.GetPipeEnd | src/elements/command/if_command.rs:61 | returns the input pipe end |
| IfCommand.CommandIf.GetPipeOut | src/elements/command/if_command.rs:62 | returns the output pipe end |
| IfCommand.CommandIf.GetText | src/elements/command/if_command.rs:63 | reads the text field; Parse's ensures states what that text is |
| IfCommand.CommandIf.ReadCondition | src/elements/command/if_command.rs:80-87 | after one more line, no condition exactly when no script is recognised, the input then being the fed one; otherwise the recognised condition and the input after it |
| IfCommand.CommandIf.ReadThenBody | src/elements/command/if_command.rs:89-117 | the keyword is ThenOf's; no body exactly when BodyRetry spins, otherwise BodyRetry's body and the input it leaves |
| IfCommand.CommandIf.ParseIfThenPair | src/elements/command/if_command.rs:79-119 | fails, hangs or reads exactly as IfThenPair on the input it started from, with the input it leaves and the branch it reads |
| IfCommand.CommandIf.ParseElseFi | src/elements/command/if_command.rs:121-141 | never fails; hangs exactly when ElseFi does, otherwise ElseFi's body and the input after `fi` |
| IfCommand.CommandIf.ParseBranchEnd | src/elements/command/if_command.rs:158-168 | after a branch: `fi` ends the command, `elif` starts another branch, each consuming only the keyword; `else` takes ElseFi's body, `else` body `fi` being the text taken |
| IfCommand.CommandIf.ParseBranch | src/elements/command/if_command.rs:153-168 | one round of the keyword loop: the pair read is the branch's scripts; a last round ends as IfChain does, any other round leaves IfChain of the rest to the next, on a shorter stream |
| IfCommand.CommandIf.ParseChain | src/elements/command/if_command.rs:152-172 | fails, hangs or finishes exactly as IfChain on the input it started from; the pairs are the branches' scripts and the text is the chain's text |
| IfCommand.CommandIf.ParseAfterIf | src/elements/command/if_command.rs:152-183 | as ParseChain, then the redirect run after `fi`, its redirects and blanks |
| IfCommand.CommandIf.Parse | src/elements/command/if_command.rs:143-191 | no `if`: nothing changes; no command exactly when IfSpec gives none, with the input IfSpec leaves; diverges exactly when IfSpec hangs; success: the command is IfSpec's, its text is `if`, the chain and the redirects, exactly what was consumed, each pair and the `else` body nonempty, and only the redirects are connected |
| WhileCommand.WhileRun | src/elem_compound_while.rs:88-98 | the loop within a number of rounds: when it stops, the last condition left `?` other than "0" |
| WhileCommand.WhileRunFuelMonotone | src/elem_compound_while.rs:88-98 | a loop that stops within some number of rounds stops the same way with more |
| WhileCommand.EmptyWhileNeverStops | src/elem_compound_while.rs:89-97 | without a condition and body, `loop` never stops |
| WhileCommand.WhileStopsAfter | src/elem_compound_while.rs:89-97 | when the condition succeeds k times and then fails, the body has run k times and the loop stops with what that failing condition left |
| WhileCommand.WhileStopShape | src/elem_compound_while.rs:89-97 | conversely, every loop that stops did so at the first failing condition, after some k successful rounds |
| WhileCommand.NextLineOf | src/elem_compound_while.rs:131-141 | `next_line` on the input as a value: the leading blanks, all of them, and they left the stream |
| WhileCommand.NextLine | src/elem_compound_while.rs:131-141 | the leading blanks move into the text; a line is read exactly when the text is used up or a newline comes next; false only when that read fails; the result is NextLineOf's |
| WhileCommand.LineScript | src/elem_compound_while.rs:101-108 | blanks, a line when needed, then a script: fails at the input `next_line` left, or reads blanks and a nonempty script that left the stream |
| WhileCommand.DoOf | src/elem_compound_while.rs:110-114 | blanks, then `do` exactly when it comes next, and what is taken left the stream |
| WhileCommand.CondDoPair | src/elem_compound_while.rs:100-129 | `parse_cond_do_pair` on the input as a value: four blank runs, a nonempty condition, `do` or nothing and a nonempty body, exactly what left the stream |
| WhileCommand.DoneTail | src/elem_compound_while.rs:158-179 | nothing exactly when `done` does not come next; otherwise `done`, the redirect run and an end of command whenever one is recognised, exactly what left the stream |
| WhileCommand.WhileSpec | src/elem_compound_while.rs:143-182 | `parse` on the input as a value: no `while` leaves the input alone; a failure puts back the unconsumed text; otherwise a command with nonempty scripts whose text is exactly what left the stream |
| WhileCommand.WhileRewindDropsLine | src/elem_compound_while.rs:146-155 | a condition that does not parse after a line was read: the text goes back to `while`, and the line read is lost |
| WhileCommand.WhileReadFacts | src/elem_compound_while.rs:143-182 | a pair and `done` read by the parser are WhileSpec's command, whose text is `while`, the pair with its blanks, `done`, the woven redirects and the end of command |
| WhileCommand.WhileFailFacts | src/elem_compound_while.rs:146-163 | a pair that fails, or a missing `done`, gives no command, with the unconsumed text as it was and the lines read meanwhile gone |
| WhileCommand.CompoundWhile.New | src/elem_compound_while.rs:75-86 | no condition and body, empty text, no pid, no redirects, pipe ends -1, no end of command |
| WhileCommand.CompoundWhile.NoConnection | src/elem_compound_while.rs:29-30 | the test that chooses the in-shell path: no pipe end and no redirect; it has no contract of its own, and Exec's ensures says what each answer leads to |
| WhileCommand.CompoundWhile.ExecDoCompound | src/elem_compound_while.rs:88-98 | the loop stops within the rounds allowed exactly when WhileRun does, and then leaves what WhileRun gives |
| WhileCommand.CompoundWhile.Exec | src/elem_compound_while.rs:28-50 | unconnected: the loop runs in the shell; connected: the shell records the child's pid and its variables do not change |
| WhileCommand.CompoundWhile.ChildExec | src/elem_compound_while.rs:37-41 | the child exits, with status 0 whatever `?` says, exactly when the loop stops |
| WhileCommand.CompoundWhile.GetPid | src/elem_compound_while.rs:52 | reads the pid field; it has no contract of its own, and Exec's ensures says when it is set |
| WhileCommand.CompoundWhile.SetPipe | src/elem_compound_while.rs:54-58 | the three pipe ends are set |
| WhileCommand.CompoundWhile.GetPipeEnd | src/elem_compound_while.rs:60 | returns the input pipe end |
| WhileCommand.CompoundWhile.GetPipeOut | src/elem_compound_while.rs:61 | returns the output pipe end |
| WhileCommand.CompoundWhile.GetEocString | src/elem_compound_while.rs:63-69 | the text of the end of command, or "" when there is none |
| WhileCommand.CompoundWhile.GetText | src/elem_compound_while.rs:71 | reads the text field; Parse's ensures states what that text is |
| WhileCommand.CompoundWhile.ParseCondDoPair | src/elem_compound_while.rs:100-129 | succeeds exactly when CondDoPair reads a pair, returning its scripts, keyword, blanks and text and the input it leaves; otherwise leaves CondDoPair's failing input |
| WhileCommand.CompoundWhile.ReadCondition | src/elem_compound_while.rs:101-114 | LineScript's outcome for the condition, then DoOf's blanks, keyword and input |
| WhileCommand.CompoundWhile.ReadDo | src/elem_compound_while.rs:110-114 | exactly DoOf on the input it started from |
| WhileCommand.CompoundWhile.ReadBody | src/elem_compound_while.rs:116-125 | LineScript's outcome for the body, then NextLineOf's blanks and input |
| WhileCommand.CompoundWhile.ReadDoneTail | src/elem_compound_while.rs:158-179 | succeeds exactly when DoneTail reads, returning its text, redirects, end of command and input; otherwise nothing is consumed |
| WhileCommand.CompoundWhile.ParseAfterWhile | src/elem_compound_while.rs:153-179 | the outcome is CondDoPair's then DoneTail's: each failure leaves the input where that part failed; success returns the pair, the text and what DoneTail read |
| WhileCommand.CompoundWhile.Parse | src/elem_compound_while.rs:143-182 | the outcome is WhileSpec's on the input it started from; no `while`: nothing changes; any failure puts back the unconsumed text; success: the text is exactly what was consumed, the scripts are nonempty, and only the redirects are connected |
| Pipelines.Chain | src/elem_pipeline.rs:95-133 | the chain of commands `parse` reads, as a value; it has no contract of its own, and ChainShape states what it is |
| Pipelines.ChainShape | src/elem_pipeline.rs:95-133 | the chain's text is a prefix of the input; the chain is empty exactly when no command parses; every command but the last has a pipe sign as its last argument; any other command takes no delimiter |
| Pipelines.ChainStopsAtPlainCommand | src/elem_pipeline.rs:105-107 | a first command whose last argument is not a pipe sign is the whole chain |
| Pipelines.ApplyWait | src/elem_pipeline.rs:67-82 | only `?` can change; it is set on a normal exit or a signal; any other report changes nothing |
| Pipelines.WaitStatusReadsBack | src/elem_pipeline.rs:69-76 | `?` reads back as the exit code, or as 128 plus the signal number |
| Pipelines.SuccessMeansExitZero | src/elem_pipeline.rs:69-76 | `?` is "0" exactly when the command exited normally with code 0 |
| Pipelines.StripNewline | src/elem_pipeline.rs:84-89 | a prefix at most one character shorter; equal to the input exactly when that does not end in a newline |
| Pipelines.StripNewlineInverse | src/elem_pipeline.rs:84-89 | removing undoes one appended newline and never removes two |
| Pipelines.Prepared | src/elem_pipeline.rs:27-32 | only the last command changes: it takes the pipeline's capture flag and, with capture on, the new pipe's ends |
| Pipelines.Pipeline.New | src/elem_pipeline.rs:46-52 | no commands, empty text, capture off |
| Pipelines.Pipeline.WaitCommand | src/elem_pipeline.rs:54-90 | the variables get the wait status; the output is the captured text without one trailing newline, or "" when capture is off |
| Pipelines.Pipeline.Exec | src/elem_pipeline.rs:22-42 | an empty pipeline does nothing; otherwise the last command is prepared, and when it started, the shell waits for it and `?` and the output follow WaitCommand |
| Pipelines.Pipeline.TakeLink | src/elem_pipeline.rs:96-111 | one turn of the loop: a command and, after a pipe sign, the delimiter; that is what left the input, and it is the head of the chain |
| Pipelines.Pipeline.Parse | src/elem_pipeline.rs:92-134 | a pipeline exactly when a first command parses; its commands are the chain's, and its text is the chain's text, which left the input |
| SimpleCommand.Words | src/elem_command.rs:51-55 | at least one word, and no word contains a space |
| SimpleCommand.WordsJoin | src/elem_command.rs:51-55 | the words joined with spaces give back the line without trailing whitespace |
| SimpleCommand.DoubleSpaceKeepsEmptyWord | src/elem_command.rs:53 | two spaces in a row leave an empty word |
| SimpleCommand.Parse | src/elem_command.rs:49-67 | consumes the whole line and always yields a command whose argument vectors are its words |
| SimpleCommand.Dispatch | src/elem_command.rs:20-47 | a forked child runs the argument vector, or exits with 127 |
| SimpleCommand.DispatchCases | src/elem_command.rs:21-39 | exactly `exit` and a newline terminates with 0; `cd` with an argument changes to that argument; everything else forks |
| SimpleCommand.ExitWithoutNewlineForks | src/elem_command.rs:21-23 | `exit` without a newline is run as a program |
| SimpleCommand.BareCdForks | src/elem_command.rs:24 | `cd` alone is handed to a child |
| SimpleCommand.CdTakesFirstArgument | src/elem_command.rs:24-31 | `cd dir` changes to exactly `dir` |
| TopLevel.CommandTree | src/parser.rs:13-30 | the tree `command_with_args` builds, as a value; it has no contract of its own, and CommandTreeText and CommandTreeLeaves state what it is |
| TopLevel.LeavesAreWords | src/parser.rs:24-27 | each leaf is the word at its place, with no children and position 0 |
| TopLevel.CommandTreeText | src/parser.rs:13-29 | the tree's text is the untrimmed line; it has at least one leaf; the leaves joined with spaces give the trimmed line |
| TopLevel.CommandTreeLeaves | src/parser.rs:24-27 | every child is a leaf at position 0 whose word has no space |
| TopLevel.BlankLineGivesOneEmptyLeaf | src/parser.rs:17-21 | a blank line gives one leaf with empty text |
| TopLevel.CommandWithArgsOf | src/parser.rs:13-30 | the loop builds the tree of leaves for the trimmed line's words |
| TopLevel.TopLevelElement | src/parser.rs:8-11 | only a command is recognised, so the result is that of `command_with_args` |

## Left out

- Operating-system calls are not modelled: `fork`, `execvp`, `waitpid`,
  `pipe`, `read`, `close`, `setpgid`, `getpid`, `set_current_dir` and
  `exit`. The model returns the decision the code takes, or takes the
  outcome as a parameter (child pid, wait status, captured text).
- `set_group`, `set_child_io` and `no_connection` of the brace and if
  commands depend on the file-descriptor code, which is not part of this
  model. `no_connection` is the predicate `Elements.NoConnection`.
- The grammars of `Script`, `Redirect`, `Eoc`, `ArgDelimiter` and the
  pipeline's `Command` are not part of this model. They are recognizers on the
  text, and running a script is a function on the variables.
- Diagnostics written with `eprintln!` and `println!` are left out.
- Whitespace for trimming is ASCII only (space, tab, newline, carriage
  return, form feed, vertical tab). Rust's `trim` also removes Unicode
  whitespace.
- The capture loop reads in chunks of 1000 bytes and decodes UTF-8. That
  loop is not modelled, and the captured text is a parameter.
- `CString::new` fails on a word holding a NUL character. The model keeps
  the words as they are.
- `Tree::new` is not part of this model. The root tree is taken to start
  with no children and position 0.
- IfCommand.CommandIf.ExecElems: a missing `?` counts as a failed condition.
  In the code, indexing the map panics.
- WhileCommand.CompoundWhile.ExecDoCompound: a missing `?` stops the loop.
  In the code, indexing the map panics. The loop is also bounded by a `fuel`
  count of rounds: `false` means it had not stopped within that many rounds,
  not that it never stops.
- WhileCommand.CompoundWhile.Exec: the in-shell path is bounded by the same
  fuel. The forked child's side is `ChildExec`.
- The body loops of `if` repeat forever once the terminal has no more lines
  and the attempt fails. The model reports this as `Hang` or `Diverges`
  instead of not returning.
- IfCommand.CommandIf.Parse: the command text is built as the code
  evidently intends, with each body once. How the code really builds it is
  under Findings.
- Pipelines.Pipeline.Exec: the last command's own `exec` is a parameter.
  What that `exec` does to the variables before the wait is not modelled.
  Only the wait's update is.
- When a parser goes back to a snapshot, the unconsumed text of the snapshot
  comes back, but lines read from the terminal since the snapshot are lost:
  they are no longer to be read and are not in the text either.
  `WhileCommand.WhileRewindDropsLine` and `IfCommand.IfRewindDropsLine` show
  one such input each. The model keeps this behaviour of `rewind`.

## Findings

| source | as written | input that shows it | evidently intended | confidence | as-written member | corrected member |
|---|---|---|---|---|---|---|
| src/elements/command/if_command.rs:99-116 (and 126-138 for `else`) | a body that parses is appended to the command text before the keyword check; going back to the snapshot does not undo that | a body `echo a` on one line with `fi` on the next line, still to be read: the first round parses `echo a`, finds no `fi` and goes back; the second round settles on the same body | each body appears once, so the text is what was consumed | not executed | IfCommand.RetryBodyAsWritten, IfCommand.AbandonedBodyIsRepeated | IfCommand.RetryBody |
