/**
 * The simple command of src/elem_command.rs: the whole input line becomes
 * one command whose words are the line, trimmed at the end, split at every
 * single space; executing it picks one of three paths.
 */
module SimpleCommand {
  import opened Text
  import opened Feeding

  /** A parsed command: its source text, its words and the argument vector handed to `execvp`. */
  datatype Command = Command(text: string, args: seq<string>, cargs: seq<string>)

  /** The words of a line: trailing whitespace dropped, then split at each space. */
  function Words(line: string): (ws: seq<string>)
    ensures |ws| >= 1
    ensures forall i :: 0 <= i < |ws| ==> ' ' !in ws[i]
  {
    Split(TrimEnd(line), ' ')
  }

  /** No word is lost and none is invented: joining the words with spaces gives the trimmed line back. */
  lemma WordsJoin(line: string)
    ensures Join(Words(line), ' ') == TrimEnd(line)
  {
    JoinSplit(TrimEnd(line), ' ');
  }

  /** Two spaces in a row leave an empty word between them. */
  lemma DoubleSpaceKeepsEmptyWord()
    ensures Words("ls  -l\n") == ["ls", "", "-l"]
  {
    assert TrimEnd("ls  -l\n") == "ls  -l" by {
      assert "ls  -l\n"[..6] == "ls  -l";
    }
    SplitWordThen("ls", ' ', " -l");
    SplitWordThen("", ' ', "-l");
    SplitWord("-l", ' ');
    assert "ls  -l" == "ls" + [' '] + " -l";
    assert " -l" == "" + [' '] + "-l";
  }

  /**
   * `Command::parse`: consumes everything that remains and always yields a
   * command, since splitting never gives an empty list.
   */
  method Parse(f: Feeder) returns (c: Command)
    modifies f`remaining
    ensures f.remaining == [] && c.text == old(f.remaining)
    ensures c.args == Words(c.text) && c.cargs == c.args && |c.args| >= 1
  {
    var line := f.Consume(f.Len());
    var args := Words(line);
    var cargs := args;
    c := Command(line, args, cargs);
  }

  /** The exit status of a child whose `execvp` fails. */
  const ExecFailedStatus: int := 127

  /** The path `Command::exec` takes. */
  datatype Action =
    | Terminate(status: int)                      // `exit`: the shell ends
    | ChangeDir(path: string)                     // `cd dir`: in the shell, no child
    | ForkExec(argv: seq<string>, onFailure: int) // a child runs `argv`, or exits with `onFailure`

  /**
   * `Command::exec`: the exact text `exit` plus a newline ends the shell
   * with status 0 before anything else is looked at; `cd` with an argument
   * changes directory in the shell; everything else forks. The words are
   * read only when the text is not `exit`.
   */
  function Dispatch(c: Command): (a: Action)
    requires c.text == "exit\n" || |c.args| >= 1
    ensures a.ForkExec? ==> a.argv == c.cargs && a.onFailure == ExecFailedStatus
  {
    if c.text == "exit\n" then Terminate(0)
    else if c.args[0] == "cd" && |c.args| > 1 then ChangeDir(c.args[1])
    else ForkExec(c.cargs, ExecFailedStatus)
  }

  /** The three paths and exactly when each is taken. */
  lemma DispatchCases(c: Command)
    requires c.text == "exit\n" || |c.args| >= 1
    ensures Dispatch(c).Terminate? <==> c.text == "exit\n"
    ensures Dispatch(c).Terminate? ==> Dispatch(c).status == 0
    ensures Dispatch(c).ChangeDir? <==> c.text != "exit\n" && c.args[0] == "cd" && |c.args| >= 2
    ensures Dispatch(c).ChangeDir? ==> Dispatch(c).path == c.args[1]
    ensures Dispatch(c).ForkExec? <==> c.text != "exit\n" && (c.args[0] != "cd" || |c.args| == 1)
  {
  }

  /** `exit` without the newline, as on the last line of a file, is run as a program. */
  lemma ExitWithoutNewlineForks()
    ensures Dispatch(Command("exit", Words("exit"), Words("exit"))) == ForkExec(["exit"], 127)
  {
    assert TrimEnd("exit") == "exit";
    SplitWord("exit", ' ');
  }

  /** A bare `cd` has no argument and is handed to a child like any program. */
  lemma BareCdForks()
    ensures Dispatch(Command("cd\n", Words("cd\n"), Words("cd\n"))).ForkExec?
  {
    assert TrimEnd("cd\n") == "cd" by {
      assert "cd\n"[..2] == "cd";
    }
    SplitWord("cd", ' ');
  }

  /** `cd` followed by a directory changes to exactly that directory. */
  lemma CdTakesFirstArgument(dir: string)
    requires dir != [] && ' ' !in dir && !IsWhitespace(dir[|dir| - 1])
    ensures Dispatch(Command("cd " + dir + "\n", Words("cd " + dir + "\n"), Words("cd " + dir + "\n"))) == ChangeDir(dir)
  {
    var line := "cd " + dir + "\n";
    assert TrimEnd(line) == "cd " + dir by {
      assert line[..|line| - 1] == "cd " + dir;
    }
    assert "cd " + dir == "cd" + [' '] + dir;
    SplitWordThen("cd", ' ', dir);
    SplitWord(dir, ' ');
  }
}
