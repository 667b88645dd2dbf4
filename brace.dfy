/**
 * The brace group `{ script }` of src/elements/command/brace.rs: its
 * statement-boundary check, its parser, and the exit decision taken after
 * the inner script has run.
 */
module Brace {
  import opened Wrappers
  import opened Text
  import opened Feeding
  import opened Elements

  /** Characters that close a statement before the `}`. */
  predicate IsBoundary(c: char) {
    c == '\n' || c == ';' || c == '\t'
  }

  /**
   * `tail_check`: scanning backwards over trailing spaces, is the first
   * other character a newline, `;` or tab?
   */
  function TailCheck(s: string): (r: bool)
    ensures r ==> s != [] && (IsBoundary(s[|s| - 1]) || s[|s| - 1] == ' ')
    decreases |s|
  {
    if s == [] then false
    else match s[|s| - 1]
      case ' ' => TailCheck(s[..|s| - 1])
      case '\n' => true
      case ';' => true
      case '\t' => true
      case _ => false
  }

  /** The check holds exactly when a boundary character is followed by spaces only. */
  lemma {:induction false} TailCheckMeaning(s: string)
    ensures TailCheck(s) <==>
      exists i :: 0 <= i < |s| && IsBoundary(s[i]) && forall j :: i < j < |s| ==> s[j] == ' '
    decreases |s|
  {
    if s != [] {
      var n := |s| - 1;
      var p := s[..n];
      if s[n] == ' ' {
        TailCheckMeaning(p);
        if TailCheck(s) {
          var i :| 0 <= i < |p| && IsBoundary(p[i]) && forall j :: i < j < |p| ==> p[j] == ' ';
          assert IsBoundary(s[i]) && forall j :: i < j < |s| ==> s[j] == ' ';
        } else {
          forall i | 0 <= i < |s| && IsBoundary(s[i])
            ensures exists j :: i < j < |s| && s[j] != ' '
          {
            assert i < n;
            assert !(forall j :: i < j < |p| ==> p[j] == ' ');
            var j :| i < j < |p| && p[j] != ' ';
            assert s[j] == p[j];
          }
        }
      } else if IsBoundary(s[n]) {
        assert IsBoundary(s[|s| - 1]);
      } else {
        forall i | 0 <= i < |s| && IsBoundary(s[i])
          ensures exists j :: i < j < |s| && s[j] != ' '
        {
          assert i < n && s[n] != ' ';
        }
      }
    }
  }

  /** A string of spaces only, the empty string included, never passes. */
  lemma {:induction false} TailCheckAllSpaces(s: string)
    requires forall i :: 0 <= i < |s| ==> s[i] == ' '
    ensures !TailCheck(s)
    decreases |s|
  {
    if s != [] {
      TailCheckAllSpaces(s[..|s| - 1]);
    }
  }

  /** Trailing spaces do not matter. */
  lemma TailCheckTrailingSpace(s: string)
    ensures TailCheck(s + " ") == TailCheck(s)
  {
    assert (s + " ")[..|s|] == s;
  }

  /** What the shell does once `exec_elems` has run the inner script. */
  datatype Flow =
    | Continue          // no connection: the group ran in the shell itself
    | Exit(status: int) // `exit` with the status the script left in `?`
    | Panic             // `?` missing or not an i32: the `unwrap` fails

  /**
   * `exec_elems` after the script: a group with a pipe end or a redirect
   * runs in a child of its own and ends it with the status in `?`.
   */
  function ExitRequest(fds: FileDescs, vars: Vars): (r: Flow)
    ensures r == Continue <==> NoConnection(fds)
    ensures r.Exit? ==> "?" in vars && ParseI32(vars["?"]) == Some(r.status)
    ensures r.Exit? ==> I32Min <= r.status <= I32Max
  {
    if NoConnection(fds) then Continue
    else if "?" !in vars then Panic
    else match ParseI32(vars["?"])
      case Some(n) => Exit(n)
      case None => Panic
  }

  /** A connected group exits with exactly the status the script stored. */
  lemma ExitCarriesStatus(fds: FileDescs, vars: Vars, status: int)
    requires !NoConnection(fds)
    requires I32Min <= status <= I32Max
    ensures ExitRequest(fds, vars["?" := IntToString(status)]) == Exit(status)
  {
    ParseIntToString(status);
  }

  /** A group with a connection never continues in the shell. */
  lemma ConnectedNeverContinues(fds: FileDescs, vars: Vars)
    requires !NoConnection(fds)
    ensures ExitRequest(fds, vars) != Continue
  {
  }

  /** Whether the script after `{` fails the boundary check. */
  predicate TailRejected(script: Recognizer, s: string)
    requires "{" <= s
  {
    var n := Recognize(script, s[1..]);
    n > 0 && !TailCheck(s[1..][..n])
  }

  /** How the retry loop of the parser ended. */
  datatype BodyResult =
    | Closed(inner: Script) // script and `}` read
    | Rejected              // the script does not end at a statement boundary
    | Exhausted             // the terminal has no more lines

  /** Whether the script after `{` is followed by `}`. */
  predicate Closes(script: Recognizer, s: string)
    requires "{" <= s
  {
    var n := Recognize(script, s[1..]);
    n > 0 && "}" <= s[1..][n..]
  }

  /**
   * The retry loop of the parser on the input as a value: how it ends and
   * the input it leaves. A rejected script goes back to the last snapshot,
   * which already holds every line read so far; an unclosed group reads
   * one more line; a terminal with no more lines has its text consumed.
   */
  function BraceLoop(script: Recognizer, st: Input): (r: (BodyResult, Input))
    requires "{" <= st.remaining
    ensures r.0.Rejected? ==>
      InputStream(r.1) == InputStream(st) && st.remaining <= r.1.remaining
      && "{" <= r.1.remaining && TailRejected(script, r.1.remaining)
    ensures r.0.Exhausted? ==> r.1 == Input([], [])
    ensures r.0.Closed? ==>
      r.0.inner.text != [] && TailCheck(r.0.inner.text)
      && InputStream(st) == "{" + r.0.inner.text + "}" + InputStream(r.1)
    decreases |st.lines|
  {
    var t := st.remaining[1..];
    var n := Recognize(script, t);
    if n > 0 && !TailCheck(t[..n]) then (Rejected, st)
    else if n > 0 && "}" <= t[n..] then
      assert st.remaining == "{" + t[..n] + "}" + t[n..][1..];
      (Closed(Script(t[..n])), Input(t[n..][1..], st.lines))
    else if st.lines == [] then (Exhausted, Input([], []))
    else BraceLoop(script, Fed(st))
  }

  /**
   * `CommandBrace::parse` on the input as a value: no `{`, a group that is
   * rejected or never closed (with the input left behind), or the group,
   * its text and redirects, and the input after them.
   */
  datatype BraceOutcome =
    | NoBrace(rest: Input)
    | BraceRead(inner: Script, text: string, redirects: seq<Redirect>, rest: Input)

  function BraceSpec(script: Recognizer, redirect: Recognizer, st: Input): (r: BraceOutcome)
    ensures !("{" <= st.remaining) ==> r == NoBrace(st)
    ensures "{" <= st.remaining && r.NoBrace? ==>
      r.rest == Input([], [])
      || (InputStream(r.rest) == InputStream(st) && st.remaining <= r.rest.remaining
          && TailRejected(script, r.rest.remaining))
    ensures r.BraceRead? ==>
      r.inner.text != [] && TailCheck(r.inner.text) &&
      InputStream(st) == r.text + InputStream(r.rest)
      && r.text == "{" + r.inner.text + "}" + RedirectRun(redirect, BraceLoop(script, st).1.remaining).0
  {
    if !("{" <= st.remaining) then NoBrace(st)
    else
      var (b, after) := BraceLoop(script, st);
      if !b.Closed? then NoBrace(after)
      else
        var run := RedirectRun(redirect, after.remaining);
        var rest := after.remaining[|run.0|..];
        assert after.remaining == run.0 + rest;
        BraceRead(b.inner, "{" + b.inner.text + "}" + run.0, run.1, Input(rest, after.lines))
  }

  /** A script that fails the boundary check: nothing is built and the input is as it was. */
  lemma BraceRejectRestores(script: Recognizer, redirect: Recognizer, st: Input)
    requires "{" <= st.remaining && TailRejected(script, st.remaining)
    ensures BraceSpec(script, redirect, st) == NoBrace(st)
  {
  }

  /**
   * A group that is not closed on the text read so far, with no more lines
   * to read: nothing is built and every character is consumed.
   */
  lemma BraceNoMoreInput(script: Recognizer, redirect: Recognizer, st: Input)
    requires "{" <= st.remaining && st.lines == []
    requires !TailRejected(script, st.remaining) && !Closes(script, st.remaining)
    ensures BraceSpec(script, redirect, st) == NoBrace(Input([], []))
  {
  }

  /** What a group read by the parser satisfies, stated on the values it returns. */
  lemma BraceReadFacts(script: Recognizer, redirect: Recognizer, st: Input, inner: Script,
                       tail: string, rs: seq<Redirect>, blanks: seq<string>, rest: Input)
    requires "{" <= st.remaining && BraceLoop(script, st).0 == Closed(inner)
    requires var after := BraceLoop(script, st).1;
      tail == RedirectRun(redirect, after.remaining).0 && rs == RedirectRun(redirect, after.remaining).1
      && blanks == RunBlanks(redirect, after.remaining)
      && rest == Input(after.remaining[|tail|..], after.lines)
    ensures BraceSpec(script, redirect, st) == BraceRead(inner, "{" + inner.text + "}" + tail, rs, rest)
    ensures InputStream(st) == "{" + inner.text + "}" + tail + InputStream(rest)
    ensures inner.text != [] && TailCheck(inner.text)
    ensures |blanks| == |rs| + 1 && tail == Weave(blanks, rs)
  {
    RedirectRunWoven(redirect, BraceLoop(script, st).1.remaining);
  }

  class CommandBrace {
    var script: Script
    var text: string
    var pid: Option<int>
    var substitutionText: string
    var fds: FileDescs
    var groupLeader: bool

    constructor New(script: Script)
      ensures this.script == script && text == "" && pid == None && substitutionText == ""
      ensures fds == NewFileDescs() && !groupLeader
    {
      this.script := script;
      text := "";
      pid := None;
      substitutionText := "";
      fds := NewFileDescs();
      groupLeader := false;
    }

    /** Runs the inner script, then decides whether to end the process. */
    method ExecElems(core: ShellCore, run: Runner) returns (flow: Flow)
      modifies core
      ensures core.vars == run(script, old(core.vars))
      ensures flow == ExitRequest(fds, core.vars)
    {
      core.vars := run(script, core.vars);
      flow := ExitRequest(fds, core.vars);
    }

    method SetPid(p: int)
      modifies this`pid
      ensures pid == Some(p)
    {
      pid := Some(p);
    }

    function GetPid(): Option<int>
      reads this
    {
      pid
    }

    method SetGroupLeader()
      modifies this`groupLeader
      ensures groupLeader
    {
      groupLeader := true;
    }

    /** Connects the group to pipes; the redirects and every other field stay. */
    method SetPipe(pin: int, pout: int, pprev: int)
      modifies this`fds
      ensures fds.pipein == pin && fds.pipeout == pout && fds.prevpipein == pprev
      ensures fds.redirects == old(fds.redirects)
    {
      fds := fds.(pipein := pin, pipeout := pout, prevpipein := pprev);
    }

    method GetPipeEnd() returns (fd: int)
      ensures fd == fds.pipein
    {
      fd := fds.pipein;
    }

    method GetPipeOut() returns (fd: int)
      ensures fd == fds.pipeout
    {
      fd := fds.pipeout;
    }

    function GetText(): string
      reads this
    {
      text
    }

    /**
     * One attempt of the parser's retry loop: `{`, then the inner script.
     * The `}` is not consumed.
     */
    static method ReadGroup(f: Feeder, script: Recognizer) returns (s: Option<string>)
      requires "{" <= f.remaining
      modifies f`remaining
      ensures s.None? ==> Recognize(script, old(f.remaining)[1..]) == 0
      ensures s.Some? ==> s.value != [] && old(f.remaining) == "{" + s.value + f.remaining
      ensures s.Some? ==> s.value == old(f.remaining)[1..][..Recognize(script, old(f.remaining)[1..])]
      // how this attempt decides the retry loop
      ensures s.Some? && !TailCheck(s.value) ==> BraceLoop(script, old(f.State())) == (Rejected, old(f.State()))
      ensures s.Some? && TailCheck(s.value) && "}" <= f.remaining ==>
        BraceLoop(script, old(f.State())) == (Closed(Script(s.value)), Input(f.remaining[1..], f.lines))
      ensures (s.None? || (TailCheck(s.value) && !("}" <= f.remaining))) ==>
        BraceLoop(script, old(f.State())) ==
          if f.lines == [] then (Exhausted, Input([], [])) else BraceLoop(script, Fed(old(f.State())))
    {
      var brace := f.Consume(1);
      s := f.Parse(script);
      if s.Some? {
        assert old(f.remaining) == "{" + s.value + f.remaining;
        assert old(f.remaining)[1..][|s.value|..] == f.remaining;
      }
    }

    /**
     * The retry loop of `CommandBrace::parse`: while the inner script does
     * not parse or no `}` follows it, rewinds to the last snapshot, reads
     * one more line and tries again.
     */
    static method ParseBody(f: Feeder, script: Recognizer) returns (b: BodyResult)
      requires "{" <= f.remaining
      modifies f
      ensures (b, f.State()) == BraceLoop(script, old(f.State()))
    {
      var backup := f.Clone();
      while true
        invariant f.remaining == backup.remaining && "{" <= f.remaining
        invariant BraceLoop(script, f.State()) == BraceLoop(script, old(f.State()))
        decreases |f.lines|
      {
        ghost var here := f.State();
        var s := ReadGroup(f, script);
        if s.Some? && !TailCheck(s.value) {
          f.Rewind(backup);
          return Rejected;
        }
        if s.Some? && f.StartsWith("}") {
          var close := f.Consume(1);
          return Closed(Script(s.value));
        }
        var ok;
        backup, ok := f.RewindFeedBackup(backup);
        if !ok {
          var rest := f.Consume(f.Len());
          return Exhausted;
        }
      }
    }

    /** The group and the redirects after it, before the command is built. */
    static method ParseGroup(f: Feeder, script: Recognizer, redirect: Recognizer)
      returns (b: BodyResult, tail: string, rs: seq<Redirect>, ghost blanks: seq<string>)
      requires "{" <= f.remaining
      modifies f
      ensures b == BraceLoop(script, old(f.State())).0
      ensures !b.Closed? ==> f.State() == BraceLoop(script, old(f.State())).1
      ensures b.Closed? ==>
        var after := BraceLoop(script, old(f.State())).1;
        tail == RedirectRun(redirect, after.remaining).0 && rs == RedirectRun(redirect, after.remaining).1
        && blanks == RunBlanks(redirect, after.remaining)
        && f.State() == Input(after.remaining[|tail|..], after.lines)
    {
      tail, rs, blanks := [], [], [];
      b := ParseBody(f, script);
      if b.Closed? {
        ghost var after := f.remaining;
        tail, rs, blanks := ParseRedirects(f, redirect);
        assert after[|tail|..] == f.remaining;
      }
    }

    /** `CommandBrace::parse`: the group, then the redirects that follow it. */
    static method Parse(f: Feeder, script: Recognizer, redirect: Recognizer)
      returns (r: Option<CommandBrace>, ghost blanks: seq<string>)
      modifies f
      ensures r.Some? ==> fresh(r.value)
      // no `{`: nothing happens
      ensures !old(f.StartsWith("{")) ==> r.None? && f.remaining == old(f.remaining) && f.lines == old(f.lines)
      // a script that is not closed at a statement boundary: back to the last snapshot
      // (the start, extended by the lines read meanwhile); no more input: everything consumed
      ensures r.None? && old(f.StartsWith("{")) ==>
        (f.remaining == [] && f.lines == [])
        || (f.Stream() == old(f.Stream()) && "{" <= f.remaining && TailRejected(script, f.remaining))
      // success: the text is what was consumed, `{` script `}` then blanks and redirects
      ensures r.Some? ==> old(f.Stream()) == r.value.text + f.Stream()
      ensures r.Some? ==> r.value.script.text != [] && TailCheck(r.value.script.text)
      ensures r.Some? ==>
        |blanks| == |r.value.fds.redirects| + 1
        && r.value.text == "{" + r.value.script.text + "}" + Weave(blanks, r.value.fds.redirects)
      ensures r.Some? ==>
        r.value.fds == NewFileDescs().(redirects := r.value.fds.redirects)
        && r.value.pid == None && !r.value.groupLeader
      // the outcome, the group and the input left are those of the specification
      ensures r.None? ==> BraceSpec(script, redirect, old(f.State())) == NoBrace(f.State())
      ensures r.Some? ==>
        BraceSpec(script, redirect, old(f.State()))
        == BraceRead(r.value.script, r.value.text, r.value.fds.redirects, f.State())
    {
      blanks := [];
      if !f.StartsWith("{") {
        return None, blanks;
      }
      ghost var st := f.State();
      var body, tail, rs, bl := ParseGroup(f, script, redirect);
      if !body.Closed? {
        return None, blanks;
      }
      BraceReadFacts(script, redirect, st, body.inner, tail, rs, bl, f.State());
      var ans := new CommandBrace.New(body.inner);
      ans.text := "{" + body.inner.text + "}" + tail;
      ans.fds := ans.fds.(redirects := ans.fds.redirects + rs);
      assert ans.fds.redirects == rs;
      r, blanks := Some(ans), bl;
    }
  }
}
