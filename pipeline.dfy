/**
 * The pipeline of src/elem_pipeline.rs: a run of commands chained by a
 * trailing `|` argument, the execution of its last command, and how the
 * wait status of that command becomes `?`.
 *
 * The commands of this layout are known by the values `Command::parse`
 * builds (`Stage`); their parser and their own `exec` are not part of this
 * model and appear as parameters.
 */
module Pipelines {
  import opened Wrappers
  import opened Text
  import opened Feeding
  import opened Elements

  /**
   * A command of the pipeline: its text, the texts of its arguments, and
   * the capture settings the pipeline gives it.
   */
  datatype Stage = Stage(text: string, args: seq<string>, expansion: bool, infdExpansion: int, outfdExpansion: int)

  /** The text of the last argument, or "" when there is none. */
  function LastArg(c: Stage): string {
    if c.args == [] then "" else c.args[|c.args| - 1]
  }

  /** `Command::parse` as a parameter: the command read from the front of the text, if any. */
  type CommandReader = string -> Option<Stage>

  /**
   * A command is taken only when its text is a nonempty prefix of the
   * input: a parser consumes what its text says and makes progress.
   */
  function ReadCommand(reader: CommandReader, s: string): (r: Option<Stage>)
    ensures r.Some? ==> r.value.text != [] && r.value.text <= s
  {
    match reader(s)
    case Some(c) => if c.text != [] && c.text <= s then Some(c) else None
    case None => None
  }

  /** One command of the chain and the delimiter text taken after it. */
  datatype Link = Link(command: Stage, delimiter: string)

  function LinksText(links: seq<Link>): string
    decreases |links|
  {
    if links == [] then [] else links[0].command.text + links[0].delimiter + LinksText(links[1..])
  }

  function Commands(links: seq<Link>): (cs: seq<Stage>)
    ensures |cs| == |links|
    decreases |links|
  {
    if links == [] then [] else Commands(links[..|links| - 1]) + [links[|links| - 1].command]
  }

  /**
   * The chain `parse` reads from `s`: a command, and while its last
   * argument is `|`, the delimiter after it and the next command.
   */
  function Chain(reader: CommandReader, delimiter: Recognizer, s: string): (links: seq<Link>)
    decreases |s|
  {
    match ReadCommand(reader, s)
    case None => []
    case Some(c) =>
      var rest := s[|c.text|..];
      if LastArg(c) != "|" then [Link(c, "")]
      else
        var d := Recognize(delimiter, rest);
        [Link(c, rest[..d])] + Chain(reader, delimiter, rest[d..])
  }

  /**
   * What the chain is: the input starts with its text; every command but
   * the last ends in `|`, and only those are followed by a delimiter; it is
   * empty exactly when no command can be read at the start.
   */
  lemma {:induction false} ChainShape(reader: CommandReader, delimiter: Recognizer, s: string)
    ensures LinksText(Chain(reader, delimiter, s)) <= s
    ensures Chain(reader, delimiter, s) == [] <==> ReadCommand(reader, s).None?
    ensures var links := Chain(reader, delimiter, s);
      forall i :: 0 <= i < |links| - 1 ==> LastArg(links[i].command) == "|"
    ensures var links := Chain(reader, delimiter, s);
      forall i :: 0 <= i < |links| ==> (LastArg(links[i].command) != "|" ==> links[i].delimiter == [])
    decreases |s|
  {
    match ReadCommand(reader, s)
    case None =>
    case Some(c) =>
      var rest := s[|c.text|..];
      if LastArg(c) == "|" {
        var d := Recognize(delimiter, rest);
        var tail := Chain(reader, delimiter, rest[d..]);
        ChainShape(reader, delimiter, rest[d..]);
        var links := [Link(c, rest[..d])] + tail;
        assert links[1..] == tail;
        assert s == c.text + rest[..d] + rest[d..];
        forall i | 0 <= i < |links| - 1
          ensures LastArg(links[i].command) == "|"
        {
          if i > 0 {
            assert links[i] == tail[i - 1];
          }
        }
        forall i | 0 <= i < |links|
          ensures LastArg(links[i].command) != "|" ==> links[i].delimiter == []
        {
          if i > 0 {
            assert links[i] == tail[i - 1];
          }
        }
      }
  }

  /** The chain stops at the first command that does not end in `|`. */
  lemma ChainStopsAtPlainCommand(reader: CommandReader, delimiter: Recognizer, s: string)
    requires ReadCommand(reader, s).Some? && LastArg(ReadCommand(reader, s).value) != "|"
    ensures Chain(reader, delimiter, s) == [Link(ReadCommand(reader, s).value, "")]
  {
  }

  /** How `waitpid` reported the end of the child. */
  datatype WaitStatus =
    | Exited(pid: int, code: int)      // normal exit with a 32-bit status
    | Signaled(pid: int, signal: int)  // killed by a signal
    | Other                            // stopped, continued, ...

  /** The status as a 32-bit exit code and a signal number as the kernel reports them. */
  predicate InRange(w: WaitStatus) {
    match w
    case Exited(_, code) => I32Min <= code <= I32Max
    case Signaled(_, signal) => 0 < signal < 128
    case Other => true
  }

  /**
   * The update `wait_command` makes to the variables: `?` becomes the
   * decimal exit code, or 128 plus the signal number; any other report
   * leaves the variables as they are. No other variable changes.
   */
  function ApplyWait(vars: Vars, w: WaitStatus): (r: Vars)
    ensures forall k :: k != "?" ==> (k in r <==> k in vars)
    ensures forall k :: k != "?" && k in vars ==> r[k] == vars[k]
    ensures !w.Other? ==> "?" in r
    ensures w.Other? ==> r == vars
  {
    match w
    case Exited(_, code) => vars["?" := IntToString(code)]
    case Signaled(_, signal) => vars["?" := IntToString(128 + signal)]
    case Other => vars
  }

  /** The stored status reads back as the exit code, or as 128 plus the signal. */
  lemma WaitStatusReadsBack(vars: Vars, w: WaitStatus)
    requires InRange(w) && !w.Other?
    ensures "?" in ApplyWait(vars, w)
    ensures ParseI32(ApplyWait(vars, w)["?"]) == Some(if w.Exited? then w.code else 128 + w.signal)
  {
    if w.Exited? {
      ParseIntToString(w.code);
    } else {
      ParseIntToString(128 + w.signal);
    }
  }

  /** Only a normal exit with code 0 counts as success; a signal never does. */
  lemma SuccessMeansExitZero(vars: Vars, w: WaitStatus)
    requires InRange(w) && !w.Other?
    ensures LastSucceeded(ApplyWait(vars, w)) <==> w.Exited? && w.code == 0
  {
    WaitStatusReadsBack(vars, w);
    assert IntToString(0) == "0";
    ParseIntToString(0);
  }

  /** Drops one trailing newline, if there is one. */
  function StripNewline(s: string): (r: string)
    ensures r <= s && |s| - 1 <= |r|
    ensures r == s <==> s == [] || s[|s| - 1] != '\n'
  {
    if s != [] && s[|s| - 1] == '\n' then s[..|s| - 1] else s
  }

  /** Stripping undoes appending a newline, and removes no more than that one. */
  lemma StripNewlineInverse(t: string)
    ensures StripNewline(t + "\n") == t
    ensures StripNewline(t + "\n\n") == t + "\n"
  {
    assert (t + "\n")[..|t|] == t;
    assert (t + "\n\n")[..|t| + 1] == t + "\n";
  }

  /** What `exec` gives the last command: the pipeline's flag and, with it, a fresh pipe. */
  function Prepared(cs: seq<Stage>, expansion: bool, pipe: (int, int)): (r: seq<Stage>)
    requires cs != []
    ensures |r| == |cs| && r[..|r| - 1] == cs[..|cs| - 1]
    ensures var c, c' := cs[|cs| - 1], r[|r| - 1];
      c'.text == c.text && c'.args == c.args && c'.expansion == expansion
      && (expansion ==> c'.infdExpansion == pipe.0 && c'.outfdExpansion == pipe.1)
      && (!expansion ==> c'.infdExpansion == c.infdExpansion && c'.outfdExpansion == c.outfdExpansion)
  {
    var c := cs[|cs| - 1];
    var c' := if expansion then c.(expansion := true, infdExpansion := pipe.0, outfdExpansion := pipe.1)
              else c.(expansion := false);
    cs[..|cs| - 1] + [c']
  }

  class Pipeline {
    var commands: seq<Stage>
    var text: string
    var expansion: bool

    constructor New()
      ensures commands == [] && text == "" && !expansion
    {
      commands := [];
      text := "";
      expansion := false;
    }

    /** A pipeline holding the commands and text the parser collected. */
    constructor Assembled(commands: seq<Stage>, text: string)
      ensures this.commands == commands && this.text == text && !expansion
    {
      this.commands := commands;
      this.text := text;
      expansion := false;
    }

    /**
     * `wait_command`: with capture on, the output read from the pipe (given
     * here as `captured`) without its trailing newline; the wait status
     * goes into `?`.
     */
    method WaitCommand(com: Stage, core: ShellCore, status: WaitStatus, captured: string) returns (ans: string)
      modifies core
      ensures core.vars == ApplyWait(old(core.vars), status)
      ensures ans == if com.expansion then StripNewline(captured) else ""
    {
      ans := "";
      if com.expansion {
        ans := captured;
      }
      core.vars := ApplyWait(core.vars, status);
      if ans != [] && ans[|ans| - 1] == '\n' {
        ans := ans[..|ans| - 1];
      }
    }

    /**
     * `exec`: only the last command runs. `pipe` is the pipe opened for
     * capture, `launched` what the command's own `exec` returned, `status`
     * what waiting for it reports and `captured` what it wrote.
     */
    method Exec(core: ShellCore, pipe: (int, int), launched: Option<int>, status: WaitStatus, captured: string)
      returns (pid: Option<int>, out: string)
      modifies this`commands, core
      ensures pid == None
      ensures old(commands) == [] ==> commands == [] && out == "" && core.vars == old(core.vars)
      ensures old(commands) != [] ==> commands == Prepared(old(commands), expansion, pipe)
      ensures old(commands) != [] && launched.None? ==> out == "" && core.vars == old(core.vars)
      ensures old(commands) != [] && launched.Some? ==>
        core.vars == ApplyWait(old(core.vars), status)
        && out == if expansion then StripNewline(captured) else ""
    {
      var x := |commands|;
      if x == 0 {
        return None, "";
      }
      var c := commands[x - 1].(expansion := expansion);
      if expansion {
        c := c.(infdExpansion := pipe.0, outfdExpansion := pipe.1);
      }
      commands := commands[x - 1 := c];
      assert commands == Prepared(old(commands), expansion, pipe);
      if launched.Some? {
        out := WaitCommand(commands[x - 1], core, status, captured);
      } else {
        out := "";
      }
      pid := None;
    }

    /**
     * One turn of the `parse` loop: a command and, when it ends in `|`, the
     * delimiter after it.
     */
    static method TakeLink(f: Feeder, reader: CommandReader, delimiter: Recognizer) returns (link: Option<Link>)
      modifies f`remaining
      ensures link.None? ==> ReadCommand(reader, old(f.remaining)).None? && f.remaining == old(f.remaining)
      ensures link.Some? ==> ReadCommand(reader, old(f.remaining)) == Some(link.value.command)
      ensures link.Some? ==> old(f.remaining) == link.value.command.text + link.value.delimiter + f.remaining
      ensures link.Some? && LastArg(link.value.command) != "|" ==>
        Chain(reader, delimiter, old(f.remaining)) == [link.value]
      ensures link.Some? && LastArg(link.value.command) == "|" ==>
        Chain(reader, delimiter, old(f.remaining)) == [link.value] + Chain(reader, delimiter, f.remaining)
    {
      var c := ReadCommand(reader, f.remaining);
      if c.None? {
        return None;
      }
      var consumed := f.Consume(|c.value.text|);
      if LastArg(c.value) != "|" {
        return Some(Link(c.value, ""));
      }
      ghost var rest := f.remaining;
      var d := f.Parse(delimiter);
      var dt := if d.Some? then d.value else "";
      assert rest == dt + f.remaining;
      assert rest[..|dt|] == dt && rest[|dt|..] == f.remaining;
      link := Some(Link(c.value, dt));
    }

    /** `parse`: commands chained by a final `|` argument, with the delimiters between them. */
    static method Parse(f: Feeder, reader: CommandReader, delimiter: Recognizer) returns (r: Option<Pipeline>)
      modifies f`remaining
      ensures r.Some? <==> ReadCommand(reader, old(f.remaining)).Some?
      ensures r.Some? ==> fresh(r.value) && !r.value.expansion
      ensures r.Some? ==> r.value.commands == Commands(Chain(reader, delimiter, old(f.remaining)))
      ensures r.Some? ==> r.value.text == LinksText(Chain(reader, delimiter, old(f.remaining)))
      ensures old(f.remaining) == (if r.Some? then r.value.text else "") + f.remaining
    {
      var commands: seq<Stage>, text := [], "";
      ghost var links: seq<Link> := [];
      ghost var all := Chain(reader, delimiter, f.remaining);
      while true
        invariant commands == Commands(links) && text == LinksText(links)
        invariant old(f.remaining) == text + f.remaining
        invariant all == links + Chain(reader, delimiter, f.remaining)
        decreases |f.remaining|
      {
        var link := TakeLink(f, reader, delimiter);
        if link.None? {
          assert Chain(reader, delimiter, f.remaining) == [];
          assert all == links by {
            assert links + [] == links;
          }
          break;
        }
        var l := link.value;
        ghost var next := if LastArg(l.command) == "|" then Chain(reader, delimiter, f.remaining) else [];
        Regroup(all, links, [l], next);
        Regroup(old(f.remaining), text, l.command.text + l.delimiter, f.remaining);
        LinkTaken(links, l);
        text := text + (l.command.text + l.delimiter);
        commands := commands + [l.command];
        links := links + [l];
        if LastArg(l.command) != "|" {
          assert all == links by {
            assert links + next == links;
          }
          break;
        }
      }
      assert commands == [] <==> ReadCommand(reader, old(f.remaining)).None? by {
        ChainShape(reader, delimiter, old(f.remaining));
      }
      if commands == [] {
        return None;
      }
      var ans := new Pipeline.Assembled(commands, text);
      r := Some(ans);
    }
  }

  /** Bookkeeping of the `parse` loop: what was read so far grows by one piece. */
  lemma Regroup<T>(whole: seq<T>, done: seq<T>, piece: seq<T>, rest: seq<T>)
    requires whole == done + (piece + rest)
    ensures whole == (done + piece) + rest
  {
  }

  lemma LinkTaken(links: seq<Link>, l: Link)
    ensures Commands(links + [l]) == Commands(links) + [l.command]
    ensures LinksText(links + [l]) == LinksText(links) + (l.command.text + l.delimiter)
  {
    assert (links + [l])[..|links|] == links;
    LinksTextSnoc(links, l);
  }

  lemma {:induction false} LinksTextSnoc(links: seq<Link>, l: Link)
    ensures LinksText(links + [l]) == LinksText(links) + (l.command.text + l.delimiter)
    decreases |links|
  {
    if links != [] {
      LinksTextSnoc(links[1..], l);
      assert (links + [l])[1..] == links[1..] + [l];
    }
  }
}
