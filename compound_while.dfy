/**
 * The `while ... do ... done` command of src/elem_compound_while.rs: the
 * loop rule, the choice between running in the shell and running in a
 * child, and the parser with its blank-skipping `next_line` step.
 */
module WhileCommand {
  import opened Wrappers
  import opened Feeding
  import opened Elements

  // ---------------------------------------------------------------------
  // Execution
  // ---------------------------------------------------------------------

  /** One round that goes on: the condition, then the body. */
  function Round(cond: Script, body: Script, run: Runner, vars: Vars): Vars {
    run(body, run(cond, vars))
  }

  /** The variables after `k` rounds that all went on. */
  function Iterate(cond: Script, body: Script, run: Runner, vars: Vars, k: nat): Vars
    decreases k
  {
    if k == 0 then vars else Iterate(cond, body, run, Round(cond, body, run, vars), k - 1)
  }

  /**
   * `exec_do_compound` with at most `fuel` rounds: run the condition, stop
   * when it leaves `?` other than "0", otherwise run the body and repeat.
   * `None` when the loop has not stopped within `fuel` rounds; without a
   * condition and body the loop goes round doing nothing and never stops.
   */
  function WhileRun(conddo: Option<(Script, Script)>, run: Runner, vars: Vars, fuel: nat): (r: Option<Vars>)
    ensures r.Some? ==> !LastSucceeded(r.value)
    decreases fuel
  {
    if fuel == 0 then None
    else match conddo
      case None => WhileRun(conddo, run, vars, fuel - 1)
      case Some((cond, body)) =>
        var v := run(cond, vars);
        if !LastSucceeded(v) then Some(v)
        else WhileRun(conddo, run, run(body, v), fuel - 1)
  }

  /** A loop that has stopped with some fuel stops the same way with more. */
  lemma {:induction false} WhileRunFuelMonotone(conddo: Option<(Script, Script)>, run: Runner, vars: Vars, fuel: nat, more: nat)
    requires WhileRun(conddo, run, vars, fuel).Some?
    requires fuel <= more
    ensures WhileRun(conddo, run, vars, more) == WhileRun(conddo, run, vars, fuel)
    decreases fuel
  {
    match conddo {
      case None =>
        WhileRunFuelMonotone(conddo, run, vars, fuel - 1, more - 1);
      case Some((cond, body)) =>
        var v := run(cond, vars);
        if LastSucceeded(v) {
          WhileRunFuelMonotone(conddo, run, run(body, v), fuel - 1, more - 1);
        }
    }
  }

  /** Without a condition and body the loop never stops. */
  lemma {:induction false} EmptyWhileNeverStops(run: Runner, vars: Vars, fuel: nat)
    ensures WhileRun(None, run, vars, fuel) == None
    decreases fuel
  {
    if fuel > 0 {
      EmptyWhileNeverStops(run, vars, fuel - 1);
    }
  }

  /**
   * The loop stops at round `k`: the condition succeeded in the `k` rounds
   * before and fails in this one.
   */
  predicate StopsAt(cond: Script, body: Script, run: Runner, vars: Vars, k: nat) {
    (forall i :: 0 <= i < k ==> LastSucceeded(run(cond, Iterate(cond, body, run, vars, i))))
    && !LastSucceeded(run(cond, Iterate(cond, body, run, vars, k)))
  }

  /**
   * When the condition succeeds in the first `k` rounds and fails in the
   * next one, the body has run exactly `k` times and the loop stops with
   * what that last condition left, given enough fuel.
   */
  lemma {:induction false} WhileStopsAfter(cond: Script, body: Script, run: Runner, vars: Vars, k: nat, fuel: nat)
    requires k < fuel
    requires StopsAt(cond, body, run, vars, k)
    ensures WhileRun(Some((cond, body)), run, vars, fuel) == Some(run(cond, Iterate(cond, body, run, vars, k)))
    decreases k
  {
    if k > 0 {
      var next := Round(cond, body, run, vars);
      assert LastSucceeded(run(cond, Iterate(cond, body, run, vars, 0)));
      forall i | 0 <= i < k - 1
        ensures LastSucceeded(run(cond, Iterate(cond, body, run, next, i)))
      {
        assert Iterate(cond, body, run, vars, i + 1) == Iterate(cond, body, run, next, i);
      }
      assert Iterate(cond, body, run, vars, k) == Iterate(cond, body, run, next, k - 1);
      assert StopsAt(cond, body, run, next, k - 1);
      WhileStopsAfter(cond, body, run, next, k - 1, fuel - 1);
    }
  }

  /**
   * Conversely, a loop that stops did so after some number `k` of rounds
   * that went on, at the first condition that failed.
   */
  lemma {:induction false} WhileStopShape(cond: Script, body: Script, run: Runner, vars: Vars, fuel: nat)
    requires WhileRun(Some((cond, body)), run, vars, fuel).Some?
    ensures exists k :: (0 <= k < fuel && StopsAt(cond, body, run, vars, k)
      && WhileRun(Some((cond, body)), run, vars, fuel) == Some(run(cond, Iterate(cond, body, run, vars, k))))
    decreases fuel
  {
    var v := run(cond, vars);
    if !LastSucceeded(v) {
      assert Iterate(cond, body, run, vars, 0) == vars;
      assert StopsAt(cond, body, run, vars, 0);
    } else {
      var next := Round(cond, body, run, vars);
      WhileStopShape(cond, body, run, next, fuel - 1);
      var k :| 0 <= k < fuel - 1 && StopsAt(cond, body, run, next, k)
        && WhileRun(Some((cond, body)), run, next, fuel - 1) == Some(run(cond, Iterate(cond, body, run, next, k)));
      forall i | 0 <= i < k + 1
        ensures LastSucceeded(run(cond, Iterate(cond, body, run, vars, i)))
      {
        if i > 0 {
          assert Iterate(cond, body, run, vars, i) == Iterate(cond, body, run, next, i - 1);
        }
      }
      assert Iterate(cond, body, run, vars, k + 1) == Iterate(cond, body, run, next, k);
      assert StopsAt(cond, body, run, vars, k + 1);
    }
  }

  /** Which way `exec` went. */
  datatype ExecPath =
    | InProcess(finished: bool) // the loop ran in the shell; false: not stopped within the fuel
    | Forked                    // a child runs the loop; the shell only records its pid

  // ---------------------------------------------------------------------
  // Parsing
  // ---------------------------------------------------------------------

  /** Whether `next_line` has to ask for another line: nothing left, or at a newline. */
  predicate NeedsLine(rest: string) {
    rest == [] || rest[0] == '\n'
  }

  /**
   * `next_line` on the input as a value: the leading blanks, and the input
   * after them, with one more line read when the text is used up or a
   * newline comes next.
   */
  function NextLineOf(st: Input): (r: (string, Input))
    ensures AllBlank(r.0) && |r.0| == BlankRun(st.remaining) && InputStream(st) == r.0 + InputStream(r.1)
  {
    var b := BlankRun(st.remaining);
    var rest := Input(st.remaining[b..], st.lines);
    StreamSplit(st, b);
    LeadingBlanks(st.remaining);
    (st.remaining[..b], if NeedsLine(rest.remaining) then Fed(rest) else rest)
  }
  /** Blanks, a line read when needed, then a script: what was read, or the input where the script failed. */
  datatype Piece =
    | PieceFailed(at: Input)
    | PieceRead(blanks: string, text: string, rest: Input)

  function LineScript(script: Recognizer, st: Input): (r: Piece)
    ensures r.PieceFailed? ==> r.at == NextLineOf(st).1
    ensures r.PieceRead? ==>
      AllBlank(r.blanks) && r.text != [] && InputStream(st) == r.blanks + r.text + InputStream(r.rest)
  {
    var line := NextLineOf(st);
    var s := line.1;
    var n := Recognize(script, s.remaining);
    if n == 0 then PieceFailed(s)
    else
      var rest := Input(s.remaining[n..], s.lines);
      StreamSplit(s, n);
      PieceStream(InputStream(st), InputStream(s), InputStream(rest), line.0, s.remaining[..n]);
      PieceRead(line.0, s.remaining[..n], rest)
  }

  /** Blanks, a line read when needed, then `do` when it comes next. */
  function DoOf(st: Input): (r: (string, string, Input))
    ensures AllBlank(r.0) && (r.1 == "" || r.1 == "do")
    ensures InputStream(st) == r.0 + r.1 + InputStream(r.2)
    ensures r.1 == "do" <==> "do" <= NextLineOf(st).1.remaining
  {
    var line := NextLineOf(st);
    var s := line.1;
    if "do" <= s.remaining then
      var rest := Input(s.remaining[2..], s.lines);
      StreamSplit(s, 2);
      assert s.remaining[..2] == "do";
      PieceStream(InputStream(st), InputStream(s), InputStream(rest), line.0, "do");
      (line.0, "do", rest)
    else (line.0, "", s)
  }

  /** `parse_cond_do_pair` on the input as a value: the pair and the four blank runs, or where it failed. */
  datatype PairResult =
    | PairFailed(at: Input)
    | PairRead(cond: string, kw: string, body: string, blanks: seq<string>, rest: Input)

  /** The text of a pair: blanks, condition, blanks, `do` or nothing, blanks, body, blanks. */
  function PairText(cond: string, kw: string, body: string, blanks: seq<string>): string
    requires |blanks| == 4
  {
    blanks[0] + cond + blanks[1] + kw + blanks[2] + body + blanks[3]
  }

  function CondDoPair(script: Recognizer, st: Input): (r: PairResult)
    ensures r.PairRead? ==>
      r.cond != [] && r.body != [] && (r.kw == "" || r.kw == "do")
      && |r.blanks| == 4
      && AllBlank(r.blanks[0]) && AllBlank(r.blanks[1]) && AllBlank(r.blanks[2]) && AllBlank(r.blanks[3])
      && InputStream(st) == PairText(r.cond, r.kw, r.body, r.blanks) + InputStream(r.rest)
  {
    var c := LineScript(script, st);
    if c.PieceFailed? then PairFailed(c.at)
    else
      var d := DoOf(c.rest);
      var b := LineScript(script, d.2);
      if b.PieceFailed? then PairFailed(b.at)
      else
        var e := NextLineOf(b.rest);
        PairStream(InputStream(st), InputStream(c.rest), InputStream(d.2), InputStream(b.rest), InputStream(e.1),
                   c.blanks, c.text, d.0, d.1, b.blanks, b.text, e.0);
        PairRead(c.text, d.1, b.text, [c.blanks, d.0, b.blanks, e.0], e.1)
  }

  lemma PieceStream(whole: string, after: string, rest: string, b: string, text: string)
    requires whole == b + after && after == text + rest
    ensures whole == b + text + rest
  {
  }

  lemma PairStream(s0: string, s1: string, s3: string, s5: string, s6: string,
                    b0: string, c: string, b1: string, k: string, b2: string, d: string, b3: string)
    requires s0 == b0 + c + s1 && s1 == b1 + k + s3 && s3 == b2 + d + s5 && s5 == b3 + s6
    ensures s0 == b0 + c + b1 + k + b2 + d + b3 + s6
  {
  }

  lemma DoneStream(whole: string, afterDone: string, afterRun: string, rest: string, run: string, eoc: string)
    requires whole == "done" + afterDone && afterDone == run + afterRun && afterRun == eoc + rest
    ensures whole == ("done" + run + eoc) + rest
  {
  }

  /** `DoneTail` when `done` comes next, read off its definition. */
  lemma DoneTailUnfold(redirect: Recognizer, endOfCommand: Recognizer, st: Input)
    requires "done" <= st.remaining
    ensures var t := st.remaining[4..]; var run := RedirectRun(redirect, t); var u := t[|run.0|..];
      var m := Recognize(endOfCommand, u);
      var e := if m > 0 then Some(Eoc(u[..m])) else None;
      DoneTail(redirect, endOfCommand, st) == Some(DoneRead("done" + run.0 + EocText(e), run.1, e, Input(u[m..], st.lines)))
  {
  }

  lemma WhileStream(whole: string, afterWhile: string, afterPair: string, rest: string, pair: string, tail: string)
    requires whole == "while" + afterWhile && afterWhile == pair + afterPair && afterPair == tail + rest
    ensures whole == ("while" + pair + tail) + rest
  {
  }

  /** The text of an optional end of command. */
  function EocText(e: Option<Eoc>): string {
    if e.Some? then e.value.text else ""
  }

  /** What follows a pair: `done`, the redirects and an optional end of command. */
  datatype DoneRead = DoneRead(text: string, redirects: seq<Redirect>, eoc: Option<Eoc>, rest: Input)

  /**
   * The tail of `CompoundWhile::parse` on the input as a value: nothing
   * without `done`; otherwise `done`, the redirect loop, and the end of
   * command whenever one is recognised.
   */
  function DoneTail(redirect: Recognizer, endOfCommand: Recognizer, st: Input): (r: Option<DoneRead>)
    ensures r.None? <==> !("done" <= st.remaining)
    ensures r.Some? ==>
      InputStream(st) == r.value.text + InputStream(r.value.rest)
      && r.value.text == "done" + RedirectRun(redirect, st.remaining[4..]).0 + EocText(r.value.eoc)
      && r.value.redirects == RedirectRun(redirect, st.remaining[4..]).1
      && (r.value.eoc.Some? ==> r.value.eoc.value.text != [])
      && (r.value.eoc.None? ==> Recognize(endOfCommand, r.value.rest.remaining) == 0)
  {
    if !("done" <= st.remaining) then None
    else
      var t := st.remaining[4..];
      var run := RedirectRun(redirect, t);
      var u := t[|run.0|..];
      var m := Recognize(endOfCommand, u);
      var e := if m > 0 then Some(Eoc(u[..m])) else None;
      var rest := Input(u[m..], st.lines);
      assert st.remaining[..4] == "done" && t[..|run.0|] == run.0 && EocText(e) == u[..m];
      StreamSplit(st, 4);
      StreamSplit(Input(t, st.lines), |run.0|);
      StreamSplit(Input(u, st.lines), m);
      DoneStream(InputStream(st), InputStream(Input(t, st.lines)), InputStream(Input(u, st.lines)),
                 InputStream(rest), run.0, EocText(e));
      Some(DoneRead("done" + run.0 + EocText(e), run.1, e, rest))
  }

  /** `CompoundWhile::parse` on the input as a value. */
  datatype WhileOutcome =
    | NoWhile(rest: Input)
    | WhileRead(cond: Script, kw: string, body: Script, pairBlanks: seq<string>, text: string,
                redirects: seq<Redirect>, eoc: Option<Eoc>, rest: Input)

  /**
   * No `while`: nothing happens. A pair that does not parse or a missing
   * `done`: the text goes back to where `while` started, but the lines
   * read meanwhile stay read. Otherwise the command, its text, and the
   * input after it.
   */
  function WhileSpec(script: Recognizer, redirect: Recognizer, endOfCommand: Recognizer, st: Input): (r: WhileOutcome)
    ensures !("while" <= st.remaining) ==> r == NoWhile(st)
    ensures r.NoWhile? ==> r.rest.remaining == st.remaining
    ensures r.WhileRead? ==>
      r.cond.text != [] && r.body.text != [] && (r.kw == "" || r.kw == "do")
      && |r.pairBlanks| == 4
      && AllBlank(r.pairBlanks[0]) && AllBlank(r.pairBlanks[1]) && AllBlank(r.pairBlanks[2]) && AllBlank(r.pairBlanks[3])
      && InputStream(st) == r.text + InputStream(r.rest)
  {
    if |st.remaining| < 5 || !("while" <= st.remaining) then NoWhile(st)
    else
      match CondDoPair(script, Input(st.remaining[5..], st.lines))
      case PairFailed(at) => NoWhile(Input(st.remaining, at.lines))
      case PairRead(cond, kw, body, blanks, s6) =>
        match DoneTail(redirect, endOfCommand, s6)
        case None => NoWhile(Input(st.remaining, s6.lines))
        case Some(d) =>
          var text := "while" + PairText(cond, kw, body, blanks) + d.text;
          var after := Input(st.remaining[5..], st.lines);
          StreamSplit(st, 5);
          WhileStream(InputStream(st), InputStream(Input(st.remaining[5..], st.lines)), InputStream(s6),
                      InputStream(d.rest), PairText(cond, kw, body, blanks), d.text);
          WhileRead(Script(cond), kw, Script(body), blanks, text, d.redirects, d.eoc, d.rest)
  }

  /**
   * A pair that fails after a line was read: the text goes back to the
   * start and the line read is lost. Here the condition never parses and
   * the newline after `while` makes `next_line` read the next line.
   */
  lemma WhileRewindDropsLine(redirect: Recognizer, endOfCommand: Recognizer)
    ensures WhileSpec((s: string) => 0, redirect, endOfCommand, Input("while\n", ["x\n"]))
         == NoWhile(Input("while\n", []))
  {
    var st := Input("while\n", ["x\n"]);
    assert st.remaining[5..] == "\n";
    assert BlankRun("\n") == 0;
  }

  /**
   * `next_line`: move the leading blanks into the text; then, when the
   * text is used up or a newline comes next, read one more line. False
   * only when that read fails.
   */
  method NextLine(f: Feeder) returns (blanks: string, ok: bool, ghost rest: string)
    modifies f
    ensures old(f.remaining) == blanks + rest && AllBlank(blanks) && BlankRun(rest) == 0
    ensures f.State() == (if NeedsLine(rest) then Fed(Input(rest, old(f.lines))) else Input(rest, old(f.lines)))
    ensures ok == !(NeedsLine(rest) && old(f.lines) == [])
    ensures old(f.Stream()) == blanks + f.Stream()
    ensures blanks == NextLineOf(old(f.State())).0 && f.State() == NextLineOf(old(f.State())).1
  {
    blanks := f.ConsumeBlank();
    rest := f.remaining;
    ok := true;
    if f.Len() == 0 || f.Nth(0) == '\n' {
      ok := f.FeedAdditionalLine();
    }
  }

  /** What a loop read by the parser satisfies, stated on the values it returns. */
  lemma WhileReadFacts(script: Recognizer, redirect: Recognizer, endOfCommand: Recognizer, st: Input,
                       cond: Script, kw: string, body: Script, pairBlanks: seq<string>, text: string,
                       rs: seq<Redirect>, e: Option<Eoc>, blanks: seq<string>, rest: Input)
    requires "while" <= st.remaining
    requires var p := CondDoPair(script, Input(st.remaining[5..], st.lines));
      p.PairRead? && DoneTail(redirect, endOfCommand, p.rest).Some?
      && var d := DoneTail(redirect, endOfCommand, p.rest).value;
      cond == Script(p.cond) && kw == p.kw && body == Script(p.body) && pairBlanks == p.blanks
      && text == "while" + PairText(p.cond, p.kw, p.body, p.blanks) + d.text
      && rs == d.redirects && e == d.eoc && rest == d.rest
      && blanks == RunBlanks(redirect, p.rest.remaining[4..])
    ensures WhileSpec(script, redirect, endOfCommand, st) == WhileRead(cond, kw, body, pairBlanks, text, rs, e, rest)
    ensures |blanks| == |rs| + 1
      && text == "while" + pairBlanks[0] + cond.text + pairBlanks[1] + kw + pairBlanks[2] + body.text + pairBlanks[3]
                 + "done" + Weave(blanks, rs) + EocText(e)
    ensures cond.text != [] && body.text != [] && (kw == "" || kw == "do") && |pairBlanks| == 4
      && AllBlank(pairBlanks[0]) && AllBlank(pairBlanks[1]) && AllBlank(pairBlanks[2]) && AllBlank(pairBlanks[3])
      && InputStream(st) == text + InputStream(rest)
  {
    var p := CondDoPair(script, Input(st.remaining[5..], st.lines));
    var d := DoneTail(redirect, endOfCommand, p.rest).value;
    RedirectRunWoven(redirect, p.rest.remaining[4..]);
    var w := Weave(blanks, rs);
    assert d.text == "done" + w + EocText(e);
    WhileText(text, PairText(p.cond, p.kw, p.body, p.blanks), d.text, pairBlanks[0], cond.text, pairBlanks[1], kw,
              pairBlanks[2], body.text, pairBlanks[3], w, EocText(e));
  }

  /** The failing outcomes of `WhileSpec`: back to the start, with the lines read kept read. */
  lemma WhileFailFacts(script: Recognizer, redirect: Recognizer, endOfCommand: Recognizer, st: Input, at: Input)
    requires "while" <= st.remaining
    requires var p := CondDoPair(script, Input(st.remaining[5..], st.lines));
      (p.PairFailed? && at == p.at)
      || (p.PairRead? && DoneTail(redirect, endOfCommand, p.rest).None? && at == p.rest)
    ensures WhileSpec(script, redirect, endOfCommand, st) == NoWhile(Input(st.remaining, at.lines))
  {
  }

  lemma WhileText(text: string, pair: string, tail: string, b0: string, c: string, b1: string, k: string,
                  b2: string, d: string, b3: string, w: string, e: string)
    requires text == "while" + pair + tail && pair == b0 + c + b1 + k + b2 + d + b3 && tail == "done" + w + e
    ensures text == "while" + b0 + c + b1 + k + b2 + d + b3 + "done" + w + e
  {
  }

  class CompoundWhile {
    var conddo: Option<(Script, Script)>
    var text: string
    var pid: Option<int>
    var redirects: seq<Redirect>
    var pipein: int
    var pipeout: int
    var prevpipein: int
    var eoc: Option<Eoc>

    constructor New()
      ensures conddo == None && text == "" && pid == None && redirects == []
      ensures pipein == -1 && pipeout == -1 && prevpipein == -1 && eoc == None
    {
      conddo := None;
      text := "";
      pid := None;
      redirects := [];
      pipein := -1;
      pipeout := -1;
      prevpipein := -1;
      eoc := None;
    }

    /** The command that `parse` has assembled once it succeeds. */
    constructor Assembled(conddo: Option<(Script, Script)>, text: string, redirects: seq<Redirect>, eoc: Option<Eoc>)
      ensures this.conddo == conddo && this.text == text && this.redirects == redirects && this.eoc == eoc
      ensures pid == None && pipein == -1 && pipeout == -1 && prevpipein == -1
    {
      this.conddo := conddo;
      this.text := text;
      pid := None;
      this.redirects := redirects;
      pipein := -1;
      pipeout := -1;
      prevpipein := -1;
      this.eoc := eoc;
    }

    /** No pipe end is set and there is no redirection. */
    predicate NoConnection()
      reads this
    {
      pipeout == -1 && pipein == -1 && prevpipein == -1 && |redirects| == 0
    }

    /**
     * `exec_do_compound`, allowed at most `fuel` rounds. `finished` says
     * whether the loop stopped; then the variables are what it left.
     */
    method ExecDoCompound(core: ShellCore, run: Runner, fuel: nat) returns (finished: bool)
      modifies core
      ensures finished <==> WhileRun(conddo, run, old(core.vars), fuel).Some?
      ensures finished ==> core.vars == WhileRun(conddo, run, old(core.vars), fuel).value
    {
      var n := 0;
      while n < fuel
        invariant 0 <= n <= fuel
        invariant WhileRun(conddo, run, core.vars, fuel - n) == WhileRun(conddo, run, old(core.vars), fuel)
      {
        match conddo {
          case Some((cond, body)) =>
            core.vars := run(cond, core.vars);
            if !LastSucceeded(core.vars) {
              return true;
            }
            core.vars := run(body, core.vars);
          case None =>
        }
        n := n + 1;
      }
      return false;
    }

    /**
     * `exec`: without any connection the loop runs in the shell; otherwise
     * the shell forks and records the child's pid, and the variables of the
     * shell stay as they were.
     */
    method Exec(core: ShellCore, run: Runner, fuel: nat, child: int) returns (path: ExecPath)
      modifies core, this`pid
      ensures NoConnection() ==>
        path.InProcess? && pid == old(pid)
        && (path.finished <==> WhileRun(conddo, run, old(core.vars), fuel).Some?)
        && (path.finished ==> core.vars == WhileRun(conddo, run, old(core.vars), fuel).value)
      ensures !NoConnection() ==> path == Forked && pid == Some(child) && core.vars == old(core.vars)
    {
      if pipeout == -1 && pipein == -1 && prevpipein == -1 && |redirects| == 0 {
        var finished := ExecDoCompound(core, run, fuel);
        return InProcess(finished);
      }
      pid := Some(child);
      return Forked;
    }

    /**
     * The child's side of the fork in `exec`: run the loop, then exit with
     * status 0 whatever the loop left in `?`.
     */
    method ChildExec(core: ShellCore, run: Runner, fuel: nat) returns (status: Option<int>)
      modifies core
      ensures status.Some? <==> WhileRun(conddo, run, old(core.vars), fuel).Some?
      ensures status.Some? ==> status.value == 0
    {
      var finished := ExecDoCompound(core, run, fuel);
      status := if finished then Some(0) else None;
    }

    function GetPid(): Option<int>
      reads this
    {
      pid
    }

    /** Connects the loop to pipes; the other fields stay. */
    method SetPipe(pin: int, pout: int, pprev: int)
      modifies this`pipein, this`pipeout, this`prevpipein
      ensures pipein == pin && pipeout == pout && prevpipein == pprev
    {
      pipein := pin;
      pipeout := pout;
      prevpipein := pprev;
    }

    method GetPipeEnd() returns (fd: int)
      ensures fd == pipein
    {
      fd := pipein;
    }

    method GetPipeOut() returns (fd: int)
      ensures fd == pipeout
    {
      fd := pipeout;
    }

    /** The text of the end-of-command element, or "" when there is none. */
    function GetEocString(): (s: string)
      reads this
      ensures eoc.Some? ==> s == eoc.value.text
      ensures eoc.None? ==> s == ""
    {
      match eoc
      case Some(e) => e.text
      case None => ""
    }

    function GetText(): string
      reads this
    {
      text
    }

    /**
     * `parse_cond_do_pair`: blanks, the condition, blanks, an optional
     * `do`, blanks, the body, blanks, each blank run followed by a line
     * read when needed. Both scripts must parse.
     */
    static method ParseCondDoPair(f: Feeder, script: Recognizer)
      returns (ok: bool, cond: string, body: string, text: string, ghost kw: string, ghost blanks: seq<string>)
      modifies f
      ensures var p := CondDoPair(script, old(f.State()));
        ok == p.PairRead? && (!ok ==> f.State() == p.at)
        && (ok ==> cond == p.cond && kw == p.kw && body == p.body && blanks == p.blanks
                   && text == PairText(cond, kw, body, blanks) && f.State() == p.rest)
    {
      ok, cond, body, text, kw, blanks := false, [], [], [], [], [];
      var b0, c, b1, k := ReadCondition(f, script);
      if c.None? {
        return;
      }
      var b2, d, b3 := ReadBody(f, script);
      if d.None? {
        return;
      }
      ok, cond, body, kw, blanks := true, c.value, d.value, k, [b0, b1, b2, b3];
      text := b0 + cond + b1 + k + b2 + body + b3;
    }

    /** The first half of `parse_cond_do_pair`: up to and including the optional `do`. */
    static method ReadCondition(f: Feeder, script: Recognizer)
      returns (b0: string, c: Option<string>, b1: string, kw: string)
      modifies f
      ensures var p := LineScript(script, old(f.State()));
        (p.PieceFailed? ==> c.None? && f.State() == p.at)
        && (p.PieceRead? ==> c == Some(p.text) && b0 == p.blanks && (b1, kw, f.State()) == DoOf(p.rest))
    {
      b1, kw := [], [];
      var ok;
      ghost var rest;
      b0, ok, rest := NextLine(f);
      c := f.Parse(script);
      if c.None? {
        return;
      }
      b1, kw := ReadDo(f);
    }

    /** Blanks, a line read when needed, then `do` if it comes next. */
    static method ReadDo(f: Feeder) returns (b1: string, kw: string)
      modifies f
      ensures (b1, kw, f.State()) == DoOf(old(f.State()))
    {
      kw := [];
      var ok;
      ghost var rest;
      b1, ok, rest := NextLine(f);
      ghost var r2 := f.remaining;
      if f.Compare(0, "do") {
        kw := f.Consume(2);
        assert kw == "do" by {
          assert r2 == kw + f.remaining;
          assert r2[..2] == kw;
        }
        assert f.remaining == r2[2..];
      }
    }

    /** The second half of `parse_cond_do_pair`: blanks, the body, blanks. */
    static method ReadBody(f: Feeder, script: Recognizer) returns (b2: string, d: Option<string>, b3: string)
      modifies f
      ensures var p := LineScript(script, old(f.State()));
        (p.PieceFailed? ==> d.None? && f.State() == p.at)
        && (p.PieceRead? ==> d == Some(p.text) && b2 == p.blanks && (b3, f.State()) == NextLineOf(p.rest))
    {
      b3 := [];
      var ok;
      ghost var rest;
      b2, ok, rest := NextLine(f);
      d := f.Parse(script);
      if d.None? {
        return;
      }
      b3, ok, rest := NextLine(f);
    }

    /** `done`, then the redirects and an optional end of command. */
    static method ReadDoneTail(f: Feeder, redirect: Recognizer, endOfCommand: Recognizer)
      returns (ok: bool, text: string, rs: seq<Redirect>, e: Option<Eoc>, ghost blanks: seq<string>)
      modifies f
      ensures var d := DoneTail(redirect, endOfCommand, old(f.State()));
        ok == d.Some? && (!ok ==> f.State() == old(f.State()))
        && (ok ==> text == d.value.text && rs == d.value.redirects && e == d.value.eoc && f.State() == d.value.rest
                   && blanks == RunBlanks(redirect, old(f.remaining)[4..]))
    {
      text, rs, e, blanks := [], [], None, [[]];
      if !f.Compare(0, "done") {
        return false, text, rs, e, blanks;
      }
      ok := true;
      DoneTailUnfold(redirect, endOfCommand, f.State());
      var done := f.Consume(4);
      assert done == "done" && f.remaining == old(f.remaining)[4..] by {
        assert old(f.remaining)[..4] == "done";
      }
      ghost var t := f.remaining;
      var tail;
      tail, rs, blanks := ParseRedirects(f, redirect);
      ghost var u := f.remaining;
      assert u == t[|tail|..];
      var end := f.Parse(endOfCommand);
      var endText := "";
      if end.Some? {
        e, endText := Some(Eoc(end.value)), end.value;
        assert end.value == u[..|end.value|] && f.remaining == u[|end.value|..];
      }
      text := done + tail + endText;
    }

    /** Everything `parse` reads after `while`: the pair, `done`, the redirects and the end of command. */
    static method ParseAfterWhile(f: Feeder, script: Recognizer, redirect: Recognizer, endOfCommand: Recognizer)
      returns (ok: bool, conddo: Option<(Script, Script)>, text: string, rs: seq<Redirect>, e: Option<Eoc>,
               ghost kw: string, ghost pairBlanks: seq<string>, ghost blanks: seq<string>)
      modifies f
      ensures var p := CondDoPair(script, old(f.State()));
        (p.PairFailed? ==> !ok && f.State() == p.at)
        && (p.PairRead? ==>
              var d := DoneTail(redirect, endOfCommand, p.rest);
              ok == d.Some? && (!ok ==> f.State() == p.rest)
              && (ok ==>
                    conddo == Some((Script(p.cond), Script(p.body))) && kw == p.kw && pairBlanks == p.blanks
                    && text == PairText(p.cond, p.kw, p.body, p.blanks) + d.value.text
                    && rs == d.value.redirects && e == d.value.eoc && f.State() == d.value.rest
                    && blanks == RunBlanks(redirect, p.rest.remaining[4..])))
    {
      conddo, text, rs, e, kw, pairBlanks, blanks := None, [], [], None, [], [], [];
      var cond, body, pairText;
      ok, cond, body, pairText, kw, pairBlanks := ParseCondDoPair(f, script);
      if !ok {
        return;
      }
      var tail;
      ok, tail, rs, e, blanks := ReadDoneTail(f, redirect, endOfCommand);
      if ok {
        conddo := Some((Script(cond), Script(body)));
        text := pairText + tail;
      }
    }

    /**
     * `CompoundWhile::parse`: `while`, the condition and body, `done`,
     * the redirects and an optional end of command. Any failure after
     * `while` sends the cursor back to the start.
     */
    static method Parse(f: Feeder, script: Recognizer, redirect: Recognizer, endOfCommand: Recognizer)
      returns (r: Option<CompoundWhile>, ghost kw: string, ghost pairBlanks: seq<string>, ghost blanks: seq<string>)
      modifies f
      ensures !old(f.StartsWith("while")) ==> r == None && f.State() == old(f.State())
      ensures r.None? ==> f.remaining == old(f.remaining)
      ensures r.Some? ==> fresh(r.value) && old(f.Stream()) == r.value.text + f.Stream()
      ensures r.Some? ==>
        r.value.conddo.Some? && r.value.conddo.value.0.text != [] && r.value.conddo.value.1.text != []
        && (kw == "" || kw == "do") && |pairBlanks| == 4
        && AllBlank(pairBlanks[0]) && AllBlank(pairBlanks[1]) && AllBlank(pairBlanks[2]) && AllBlank(pairBlanks[3])
      // the text: `while`, the pair with its blanks, `done`, blanks and redirects, the end of command
      ensures r.Some? ==>
        |blanks| == |r.value.redirects| + 1
        && r.value.text ==
          "while" + pairBlanks[0] + r.value.conddo.value.0.text + pairBlanks[1] + kw
          + pairBlanks[2] + r.value.conddo.value.1.text + pairBlanks[3]
          + "done" + Weave(blanks, r.value.redirects) + r.value.GetEocString()
      ensures r.Some? ==>
        r.value.pid == None && r.value.pipein == -1 && r.value.pipeout == -1 && r.value.prevpipein == -1
      // the outcome, the command and the input left are those of the specification
      ensures r.None? ==> WhileSpec(script, redirect, endOfCommand, old(f.State())) == NoWhile(f.State())
      ensures r.Some? ==>
        WhileSpec(script, redirect, endOfCommand, old(f.State()))
        == WhileRead(r.value.conddo.value.0, kw, r.value.conddo.value.1, pairBlanks, r.value.text,
                     r.value.redirects, r.value.eoc, f.State())
    {
      kw, pairBlanks, blanks := [], [], [];
      if f.Len() < 5 || !f.Compare(0, "while") {
        return None, kw, pairBlanks, blanks;
      }
      ghost var st := f.State();
      var backup := f.Clone();
      var word := f.Consume(5);
      assert word == "while" by {
        assert backup.remaining == word + f.remaining;
        assert backup.remaining[..5] == word;
      }
      assert f.State() == Input(st.remaining[5..], st.lines);
      var ok, conddo, rest, rs, e;
      ok, conddo, rest, rs, e, kw, pairBlanks, blanks := ParseAfterWhile(f, script, redirect, endOfCommand);
      if !ok {
        WhileFailFacts(script, redirect, endOfCommand, st, f.State());
        f.Rewind(backup);
        return None, kw, pairBlanks, blanks;
      }
      WhileReadFacts(script, redirect, endOfCommand, st, conddo.value.0, kw, conddo.value.1, pairBlanks,
                     word + rest, rs, e, blanks, f.State());
      var ans := new CompoundWhile.Assembled(conddo, word + rest, rs, e);
      r := Some(ans);
    }
  }
}
