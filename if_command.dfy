/**
 * The `if ... then ... elif ... else ... fi` command of
 * src/elements/command/if_command.rs: the choice of the branch to run, and
 * the parser with its retry loops that read more lines from the terminal
 * until a body is followed by the next keyword.
 */
module IfCommand {
  import opened Wrappers
  import opened Feeding
  import opened Elements

  // ---------------------------------------------------------------------
  // Execution
  // ---------------------------------------------------------------------

  /**
   * What `exec_elems` does to the variables: run the conditions in order
   * until one leaves `?` at "0", then run its body; when none does, run the
   * `else` part, if any.
   */
  function IfRun(pairs: seq<(Script, Script)>, elseDo: Option<Script>, run: Runner, vars: Vars): Vars
    decreases |pairs|
  {
    if pairs == [] then
      match elseDo
      case Some(s) => run(s, vars)
      case None => vars
    else
      var v := run(pairs[0].0, vars);
      if LastSucceeded(v) then run(pairs[0].1, v) else IfRun(pairs[1..], elseDo, run, v)
  }

  /**
   * The variables after each condition when the conditions are run one
   * after the other, whatever their results.
   */
  function Conditions(pairs: seq<(Script, Script)>, run: Runner, vars: Vars): (trace: seq<Vars>)
    ensures |trace| == |pairs|
    decreases |pairs|
  {
    if pairs == [] then []
    else
      var v := run(pairs[0].0, vars);
      [v] + Conditions(pairs[1..], run, v)
  }

  /** The variables after the last condition, or the starting ones when there is none. */
  function AfterAll(trace: seq<Vars>, vars: Vars): Vars {
    if trace == [] then vars else trace[|trace| - 1]
  }

  /**
   * The first condition that succeeds selects its body: the body runs on
   * the variables that condition left, and nothing else runs after it.
   */
  lemma {:induction false} FirstTrueBranchRuns(pairs: seq<(Script, Script)>, elseDo: Option<Script>, run: Runner, vars: Vars, k: nat)
    requires k < |pairs|
    requires forall i :: 0 <= i < k ==> !LastSucceeded(Conditions(pairs, run, vars)[i])
    requires LastSucceeded(Conditions(pairs, run, vars)[k])
    ensures IfRun(pairs, elseDo, run, vars) == run(pairs[k].1, Conditions(pairs, run, vars)[k])
    decreases k
  {
    var v := run(pairs[0].0, vars);
    var trace := Conditions(pairs, run, vars);
    assert trace == [v] + Conditions(pairs[1..], run, v);
    if k > 0 {
      assert !LastSucceeded(trace[0]);
      forall i | 0 <= i < k - 1
        ensures !LastSucceeded(Conditions(pairs[1..], run, v)[i])
      {
        assert trace[i + 1] == Conditions(pairs[1..], run, v)[i];
      }
      assert trace[k] == Conditions(pairs[1..], run, v)[k - 1];
      FirstTrueBranchRuns(pairs[1..], elseDo, run, v, k - 1);
    }
  }

  /** When no condition succeeds, the `else` part runs after all of them. */
  lemma {:induction false} NoTrueBranchRunsElse(pairs: seq<(Script, Script)>, elseDo: Option<Script>, run: Runner, vars: Vars)
    requires forall i :: 0 <= i < |pairs| ==> !LastSucceeded(Conditions(pairs, run, vars)[i])
    ensures var last := AfterAll(Conditions(pairs, run, vars), vars);
      IfRun(pairs, elseDo, run, vars) == match elseDo case Some(s) => run(s, last) case None => last
    decreases |pairs|
  {
    if pairs != [] {
      var v := run(pairs[0].0, vars);
      var trace := Conditions(pairs, run, vars);
      var rest := Conditions(pairs[1..], run, v);
      assert trace == [v] + rest;
      assert !LastSucceeded(trace[0]);
      forall i | 0 <= i < |pairs| - 1
        ensures !LastSucceeded(rest[i])
      {
        assert trace[i + 1] == rest[i];
      }
      NoTrueBranchRunsElse(pairs[1..], elseDo, run, v);
      assert AfterAll(trace, vars) == AfterAll(rest, v);
    }
  }

  // ---------------------------------------------------------------------
  // The retry loop of the parser
  // ---------------------------------------------------------------------

  /** Whether `s` starts with one of `keys`. */
  function AnyPrefix(keys: seq<string>, s: string): bool
    decreases |keys|
  {
    keys != [] && (keys[0] <= s || AnyPrefix(keys[1..], s))
  }

  /** The keywords that end the body of an `if` or `elif` branch. */
  const PairKeys: seq<string> := ["fi", "else", "elif"]

  /** The keyword that ends the `else` part. */
  const ElseKeys: seq<string> := ["fi"]

  /** Which keyword ends an `if` or `elif` body. */
  lemma PairKeyCases(s: string)
    requires AnyPrefix(PairKeys, s)
    ensures "fi" <= s || "else" <= s || "elif" <= s
  {
    assert PairKeys[1..] == ["else", "elif"] && PairKeys[1..][1..] == ["elif"];
  }

  lemma ElseKeyCase(s: string)
    requires AnyPrefix(ElseKeys, s)
    ensures "fi" <= s
  {
  }

  /**
   * How the retry loop ends: a body followed by one of the keywords, with
   * the bodies that were parsed on the way but were not followed by one,
   * and the cursor after the body; or never.
   */
  datatype Retry =
    | Settled(tried: seq<string>, body: string, rest: Input)
    | Spins

  function Prepend(tried: seq<string>, r: Retry): Retry {
    match r
    case Settled(t, b, rest) => Settled(tried + t, b, rest)
    case Spins => Spins
  }

  /**
   * The body loops of `parse_if_then_pair` and `parse_else_fi`: read one
   * more line, snapshot, parse a script; when it parses and one of `keys`
   * follows, stop there; otherwise go back to the snapshot and repeat.
   * Once the terminal has no more lines a failing attempt is repeated
   * unchanged forever.
   */
  function BodyRetry(script: Recognizer, keys: seq<string>, st: Input): (r: Retry)
    ensures r.Settled? ==> r.body != [] && AnyPrefix(keys, r.rest.remaining) && |r.rest.lines| <= |st.lines|
    decreases |st.lines|
  {
    var fed := Fed(st);
    var n := Recognize(script, fed.remaining);
    if n > 0 && AnyPrefix(keys, fed.remaining[n..]) then
      Settled([], fed.remaining[..n], Input(fed.remaining[n..], fed.lines))
    else if st.lines == [] then Spins
    else Prepend(if n > 0 then [fed.remaining[..n]] else [], BodyRetry(script, keys, fed))
  }

  /**
   * A settled loop consumed exactly its body, a keyword follows it, no more
   * lines were read than there were, and every abandoned attempt had parsed
   * something.
   */
  lemma {:induction false} SettledConsumesBody(script: Recognizer, keys: seq<string>, st: Input)
    requires BodyRetry(script, keys, st).Settled?
    ensures var r := BodyRetry(script, keys, st);
      r.body != [] && AnyPrefix(keys, r.rest.remaining)
      && InputStream(st) == r.body + InputStream(r.rest)
      && |r.rest.lines| <= |st.lines|
      && forall i :: 0 <= i < |r.tried| ==> r.tried[i] != []
    decreases |st.lines|
  {
    var fed := Fed(st);
    var n := Recognize(script, fed.remaining);
    if n > 0 && AnyPrefix(keys, fed.remaining[n..]) {
      assert fed.remaining == fed.remaining[..n] + fed.remaining[n..];
    } else {
      SettledConsumesBody(script, keys, fed);
    }
  }

  /** With no line left to read, the loop ends at once or never. */
  lemma NoLinesSettlesAtOnce(script: Recognizer, keys: seq<string>, st: Input)
    requires st.lines == []
    ensures BodyRetry(script, keys, st).Settled? ==> BodyRetry(script, keys, st).tried == []
    ensures BodyRetry(script, keys, st).Spins? <==>
      var n := Recognize(script, st.remaining);
      n == 0 || !AnyPrefix(keys, st.remaining[n..])
  {
  }

  function Attempted(s: Option<string>): seq<string> {
    match s
    case Some(t) => [t]
    case None => []
  }

  /**
   * One round of the loop: read a line, snapshot, parse a script and look
   * for a keyword; on a miss, back to the snapshot.
   */
  method TryOnce(f: Feeder, script: Recognizer, keys: seq<string>)
    returns (s: Option<string>, hit: bool, more: bool)
    modifies f
    ensures more == (old(f.lines) != [])
    ensures hit ==> s.Some? && BodyRetry(script, keys, old(f.State())) == Settled([], s.value, f.State())
    ensures !hit ==> f.State() == Fed(old(f.State()))
    ensures !hit && !more ==> BodyRetry(script, keys, old(f.State())) == Spins
    ensures !hit && more ==>
      BodyRetry(script, keys, old(f.State())) == Prepend(Attempted(s), BodyRetry(script, keys, f.State()))
  {
    more := f.FeedAdditionalLine();
    var backup := f.Clone();
    ghost var fed := f.State();
    s := f.Parse(script);
    if s.Some? {
      assert fed.remaining[..|s.value|] == s.value && fed.remaining[|s.value|..] == f.remaining;
    }
    hit := s.Some? && AnyPrefix(keys, f.remaining);
    if !hit {
      f.Rewind(backup);
    }
  }

  lemma PrependPrepend(a: seq<string>, b: seq<string>, r: Retry)
    ensures Prepend(a, Prepend(b, r)) == Prepend(a + b, r)
  {
    match r {
      case Settled(t, body, rest) => assert a + (b + t) == (a + b) + t;
      case Spins =>
    }
  }

  /** The loop as a method: the result is the body the loop settles on. */
  method RetryBody(f: Feeder, script: Recognizer, keys: seq<string>)
    returns (body: Option<string>, ghost tried: seq<string>)
    modifies f
    ensures body.None? <==> BodyRetry(script, keys, old(f.State())).Spins?
    ensures body.Some? ==> BodyRetry(script, keys, old(f.State())) == Settled(tried, body.value, f.State())
    ensures body.Some? ==>
      body.value != [] && AnyPrefix(keys, f.remaining) && old(f.Stream()) == body.value + f.Stream()
  {
    ghost var start := f.State();
    tried := [];
    while true
      invariant BodyRetry(script, keys, start) == Prepend(tried, BodyRetry(script, keys, f.State()))
      invariant f.Stream() == InputStream(start)
      decreases |f.lines|
    {
      var s, hit, more := TryOnce(f, script, keys);
      if hit {
        SettledConsumesBody(script, keys, start);
        return s, tried;
      }
      if !more {
        return None, tried;
      }
      PrependPrepend(tried, Attempted(s), BodyRetry(script, keys, f.State()));
      tried := tried + Attempted(s);
    }
  }

  lemma AppendAttempt(text0: string, tried: seq<string>, text: string, attempt: string)
    requires text == text0 + Flatten(tried)
    ensures text + attempt == text0 + Flatten(tried + [attempt])
  {
    FlattenSnoc(tried, attempt);
  }

  /**
   * The body loop as the source writes it: the text of every body that
   * parses is appended to the command's text (`ans.text`, threaded here
   * as `text`) at once, also when the keyword check then fails and the
   * cursor goes back to the snapshot.
   */
  method RetryBodyAsWritten(f: Feeder, script: Recognizer, keys: seq<string>, text0: string)
    returns (body: Option<string>, text: string, ghost tried: seq<string>)
    modifies f
    ensures body.None? <==> BodyRetry(script, keys, old(f.State())).Spins?
    ensures body.Some? ==>
      BodyRetry(script, keys, old(f.State())) == Settled(tried, body.value, f.State())
      && text == text0 + Flatten(tried) + body.value
  {
    ghost var start := f.State();
    tried, text := [], text0;
    while true
      invariant BodyRetry(script, keys, start) == Prepend(tried, BodyRetry(script, keys, f.State()))
      invariant text == text0 + Flatten(tried)
      decreases |f.lines|
    {
      var s, hit, more := TryOnce(f, script, keys);
      if hit {
        return s, text + s.value, tried;
      }
      if !more {
        return None, text, tried;
      }
      PrependPrepend(tried, Attempted(s), BodyRetry(script, keys, f.State()));
      if s.Some? {
        AppendAttempt(text0, tried, text, s.value);
        text, tried := text + s.value, tried + [s.value];
      } else {
        assert tried + [] == tried;
      }
    }
  }

  /** A recognizer for the script `echo a` written on a line of its own. */
  function EchoLine(s: string): nat {
    if "echo a\n" <= s then 7 else 0
  }

  /**
   * A body that the next keyword follows only on the next line: the first
   * round parses `echo a`, finds no keyword after it and goes back; the
   * second round reads the `fi` line and settles on the same body. The
   * loop as written has then appended `echo a` twice to the command's
   * text, while the input holds it once.
   */
  lemma AbandonedBodyIsRepeated()
    ensures BodyRetry(EchoLine, PairKeys, Input("", ["echo a\n", "fi\n"]))
      == Settled(["echo a\n"], "echo a\n", Input("fi\n", []))
    ensures var r := BodyRetry(EchoLine, PairKeys, Input("", ["echo a\n", "fi\n"]));
      Flatten(r.tried) + r.body == "echo a\necho a\n" != r.body
  {
    EchoAbandonedFirst();
    EchoSettlesSecond();
    assert Flatten(["echo a\n"]) == "echo a\n";
  }

  /** The first round: `echo a` parses but no keyword follows it yet. */
  lemma EchoAbandonedFirst()
    ensures BodyRetry(EchoLine, PairKeys, Input("", ["echo a\n", "fi\n"]))
      == Prepend(["echo a\n"], BodyRetry(EchoLine, PairKeys, Input("echo a\n", ["fi\n"])))
  {
    var line, fi := "echo a\n", "fi\n";
    var st := Input("", [line, fi]);
    var fed := Input(line, [fi]);
    assert Fed(st) == fed by {
      assert st.lines[1..] == [fi];
    }
    assert Recognize(EchoLine, fed.remaining) == 7;
    assert fed.remaining[..7] == line && fed.remaining[7..] == "";
    assert !AnyPrefix(PairKeys, "");
  }

  /** The second round: the line is read again, and now `fi` follows it. */
  lemma EchoSettlesSecond()
    ensures BodyRetry(EchoLine, PairKeys, Input("echo a\n", ["fi\n"])) == Settled([], "echo a\n", Input("fi\n", []))
  {
    var line, fi := "echo a\n", "fi\n";
    var fed := Input(line, [fi]);
    var fed2 := Input(line + fi, []);
    assert Fed(fed) == fed2 by {
      assert fed.lines[1..] == [];
    }
    assert line <= fed2.remaining;
    assert Recognize(EchoLine, fed2.remaining) == 7;
    assert fed2.remaining[..7] == line && fed2.remaining[7..] == fi;
    assert PairKeys[0] <= fi;
  }

  // ---------------------------------------------------------------------
  // The parser on the input as a value
  // ---------------------------------------------------------------------

  /** One `if` or `elif` branch as read: the condition, `then` or nothing, the body. */
  datatype Branch = Branch(cond: string, kw: string, body: string)

  function BranchText(b: Branch): string {
    b.cond + b.kw + b.body
  }

  /** Both scripts were parsed from some text and the keyword is `then` or absent. */
  predicate WellFormedBranch(b: Branch) {
    b.cond != [] && b.body != [] && (b.kw == "" || b.kw == "then")
  }

  /** A line read, then `then` when it comes next. */
  function ThenOf(st: Input): (r: (string, Input))
    ensures (r.0 == "then") == ("then" <= Fed(st).remaining) && (r.0 == "" || r.0 == "then")
    ensures InputStream(st) == r.0 + InputStream(r.1)
  {
    var s := Fed(st);
    if "then" <= s.remaining then
      StreamSplit(s, 4);
      ("then", Input(s.remaining[4..], s.lines))
    else ("", s)
  }

  /** `parse_if_then_pair` on the input as a value. */
  datatype PairOutcome =
    | PairFailed(at: Input)                 // the condition did not parse
    | PairHangs                             // the body loop never settles
    | PairRead(branch: Branch, rest: Input) // a keyword follows the body

  function IfThenPair(script: Recognizer, st: Input): (r: PairOutcome)
    ensures r.PairFailed? ==> r.at == Fed(st) && Recognize(script, r.at.remaining) == 0
    ensures r.PairRead? ==>
      WellFormedBranch(r.branch) && AnyPrefix(PairKeys, r.rest.remaining)
      && InputStream(st) == BranchText(r.branch) + InputStream(r.rest)
  {
    var s1 := Fed(st);
    var n := Recognize(script, s1.remaining);
    if n == 0 then PairFailed(s1)
    else
      var s2 := Input(s1.remaining[n..], s1.lines);
      var t := ThenOf(s2);
      match BodyRetry(script, PairKeys, t.1)
      case Spins => PairHangs
      case Settled(_, body, rest) =>
        StreamSplit(s1, n);
        SettledConsumesBody(script, PairKeys, t.1);
        BranchStream(InputStream(st), InputStream(s2), InputStream(t.1), InputStream(rest),
                     s1.remaining[..n], t.0, body);
        PairRead(Branch(s1.remaining[..n], t.0, body), rest)
  }

  lemma BranchStream(whole: string, afterCond: string, afterThen: string, rest: string,
                     cond: string, kw: string, body: string)
    requires whole == cond + afterCond && afterCond == kw + afterThen && afterThen == body + rest
    ensures whole == (cond + kw + body) + rest
  {
  }

  /** `parse_else_fi` on the input as a value: the body and the `fi` after it, or never. */
  datatype ElseOutcome =
    | ElseHangs
    | ElseRead(body: string, rest: Input)

  function ElseFi(script: Recognizer, st: Input): (r: ElseOutcome)
    ensures r.ElseRead? ==> r.body != [] && InputStream(st) == r.body + "fi" + InputStream(r.rest)
  {
    match BodyRetry(script, ElseKeys, st)
    case Spins => ElseHangs
    case Settled(_, body, rest) =>
      SettledConsumesBody(script, ElseKeys, st);
      ElseKeyCase(rest.remaining);
      StreamSplit(rest, 2);
      ElseRead(body, Input(rest.remaining[2..], rest.lines))
  }

  /** The `else` part of the text: `else`, the body, or nothing. */
  function ElsePart(e: Option<Script>): string {
    match e
    case Some(s) => "else" + s.text
    case None => ""
  }

  /**
   * The text after `if` up to and including `fi`: the branches separated by
   * `elif`, then the `else` part, then `fi`.
   */
  function ChainText(bs: seq<Branch>, e: Option<Script>): string
    requires |bs| >= 1
    decreases |bs|
  {
    if |bs| == 1 then BranchText(bs[0]) + ElsePart(e) + "fi"
    else BranchText(bs[0]) + "elif" + ChainText(bs[1..], e)
  }

  /** The keyword loop of `CommandIf::parse` on the input as a value. */
  datatype ChainOutcome =
    | ChainFailed(at: Input) // a condition did not parse, or no keyword after a branch
    | ChainHangs             // a body loop never settles
    | ChainDone(branches: seq<Branch>, elseDo: Option<Script>, rest: Input)

  function IfChain(script: Recognizer, st: Input): (r: ChainOutcome)
    ensures r.ChainDone? ==> |r.branches| >= 1 && (r.elseDo.Some? ==> r.elseDo.value.text != [])
    decreases |InputStream(st)|
  {
    match IfThenPair(script, st)
    case PairFailed(at) => ChainFailed(at)
    case PairHangs => ChainHangs
    case PairRead(b, s) =>
      var t := s.remaining;
      if "fi" <= t then ChainDone([b], None, Input(t[2..], s.lines))
      else if "elif" <= t then
        StreamSplit(s, 4);
        match IfChain(script, Input(t[4..], s.lines))
        case ChainDone(bs, e, rest) => ChainDone([b] + bs, e, rest)
        case other => other
      else if "else" <= t then
        match ElseFi(script, Input(t[4..], s.lines))
        case ElseHangs => ChainHangs
        case ElseRead(body, rest) => ChainDone([b], Some(Script(body)), rest)
      else ChainFailed(s)
  }

  /**
   * A chain read to its `fi` consists of well-formed branches, and its text
   * is exactly what was consumed.
   */
  lemma {:induction false} IfChainParts(script: Recognizer, st: Input)
    requires IfChain(script, st).ChainDone?
    ensures var r := IfChain(script, st);
      (forall i :: 0 <= i < |r.branches| ==> WellFormedBranch(r.branches[i]))
      && InputStream(st) == ChainText(r.branches, r.elseDo) + InputStream(r.rest)
    decreases |InputStream(st)|
  {
    var p := IfThenPair(script, st);
    var t := p.rest.remaining;
    if "fi" <= t {
      FiParts(script, st);
    } else if "elif" <= t {
      StreamSplit(p.rest, 4);
      IfChainParts(script, Input(t[4..], p.rest.lines));
      ElifParts(script, st);
    } else {
      ElseParts(script, st);
    }
  }

  lemma FiParts(script: Recognizer, st: Input)
    requires IfThenPair(script, st).PairRead? && "fi" <= IfThenPair(script, st).rest.remaining
    ensures var r := IfChain(script, st);
      (forall i :: 0 <= i < |r.branches| ==> WellFormedBranch(r.branches[i]))
      && InputStream(st) == ChainText(r.branches, r.elseDo) + InputStream(r.rest)
  {
    var p := IfThenPair(script, st);
    var b, s := p.branch, p.rest;
    var c := IfChain(script, st);
    StreamSplit(s, 2);
    assert c == ChainDone([b], None, Input(s.remaining[2..], s.lines));
    assert ChainText([b], None) == BranchText(b) + "fi";
    EndStream(InputStream(st), InputStream(s), InputStream(c.rest), BranchText(b), "fi");
  }

  lemma ElifParts(script: Recognizer, st: Input)
    requires IfThenPair(script, st).PairRead?
    requires var s := IfThenPair(script, st).rest;
      !("fi" <= s.remaining) && "elif" <= s.remaining
    requires IfChain(script, st).ChainDone?
    requires var s := IfThenPair(script, st).rest;
      var d := IfChain(script, Input(s.remaining[4..], s.lines));
      (forall i :: 0 <= i < |d.branches| ==> WellFormedBranch(d.branches[i]))
      && InputStream(Input(s.remaining[4..], s.lines)) == ChainText(d.branches, d.elseDo) + InputStream(d.rest)
    ensures var r := IfChain(script, st);
      (forall i :: 0 <= i < |r.branches| ==> WellFormedBranch(r.branches[i]))
      && InputStream(st) == ChainText(r.branches, r.elseDo) + InputStream(r.rest)
  {
    var p := IfThenPair(script, st);
    var b, s := p.branch, p.rest;
    var c := IfChain(script, st);
    StreamSplit(s, 4);
    var next := Input(s.remaining[4..], s.lines);
    var d := IfChain(script, next);
    assert c == ChainDone([b] + d.branches, d.elseDo, d.rest);
    ChainCons(b, d.branches, d.elseDo);
    ChainStream(InputStream(st), InputStream(s), InputStream(next), InputStream(d.rest),
                BranchText(b), ChainText(d.branches, d.elseDo));
    forall i | 0 <= i < |c.branches|
      ensures WellFormedBranch(c.branches[i])
    {
      if i > 0 { assert c.branches[i] == d.branches[i - 1]; }
    }
  }

  lemma ElseParts(script: Recognizer, st: Input)
    requires IfThenPair(script, st).PairRead?
    requires var s := IfThenPair(script, st).rest;
      !("fi" <= s.remaining) && !("elif" <= s.remaining)
    requires IfChain(script, st).ChainDone?
    ensures var r := IfChain(script, st);
      (forall i :: 0 <= i < |r.branches| ==> WellFormedBranch(r.branches[i]))
      && InputStream(st) == ChainText(r.branches, r.elseDo) + InputStream(r.rest)
  {
    var p := IfThenPair(script, st);
    var b, s := p.branch, p.rest;
    PairKeyCases(s.remaining);
    ChainUnfold(script, st);
    var e := ElseFi(script, Input(s.remaining[4..], s.lines));
    StreamSplit(s, 4);
    var c := IfChain(script, st);
    assert c == ChainDone([b], Some(Script(e.body)), e.rest);
    assert ChainText([b], c.elseDo) == BranchText(b) + ("else" + e.body + "fi");
    assert s.remaining[..4] == "else";
    ElseStream(InputStream(s), InputStream(Input(s.remaining[4..], s.lines)), InputStream(e.rest), e.body);
    EndStream(InputStream(st), InputStream(s), InputStream(c.rest), BranchText(b), "else" + e.body + "fi");
  }

  lemma ElseStream(afterBranch: string, afterElse: string, rest: string, body: string)
    requires afterBranch == "else" + afterElse && afterElse == body + "fi" + rest
    ensures afterBranch == ("else" + body + "fi") + rest
  {
  }

  lemma EndStream(whole: string, afterBranch: string, rest: string, branch: string, end: string)
    requires whole == branch + afterBranch && afterBranch == end + rest
    ensures whole == (branch + end) + rest
  {
  }

  lemma ChainCons(b: Branch, bs: seq<Branch>, e: Option<Script>)
    requires |bs| >= 1
    ensures ChainText([b] + bs, e) == BranchText(b) + "elif" + ChainText(bs, e)
  {
    assert ([b] + bs)[1..] == bs;
  }

  lemma ChainStream(whole: string, afterBranch: string, afterElif: string, rest: string, branch: string, chain: string)
    requires whole == branch + afterBranch && afterBranch == "elif" + afterElif && afterElif == chain + rest
    ensures whole == (branch + "elif" + chain) + rest
  {
  }

  /** The branches as the command stores them: condition and body scripts. */
  function Pairs(bs: seq<Branch>): (pairs: seq<(Script, Script)>)
    ensures |pairs| == |bs|
  {
    seq(|bs|, i requires 0 <= i < |bs| => (Script(bs[i].cond), Script(bs[i].body)))
  }

  /** A chain outcome with branches read before it put in front. */
  function Extend(bs: seq<Branch>, c: ChainOutcome): ChainOutcome {
    match c
    case ChainDone(more, e, rest) => ChainDone(bs + more, e, rest)
    case other => other
  }

  lemma ExtendExtend(bs: seq<Branch>, cs: seq<Branch>, c: ChainOutcome)
    ensures Extend(bs, Extend(cs, c)) == Extend(bs + cs, c)
  {
    if c.ChainDone? {
      assert bs + (cs + c.branches) == (bs + cs) + c.branches;
    }
  }

  /** The text of branches each followed by `elif`. */
  function ElifText(bs: seq<Branch>): string
    decreases |bs|
  {
    if |bs| == 0 then "" else BranchText(bs[0]) + "elif" + ElifText(bs[1..])
  }

  lemma {:induction false} ElifTextSnoc(bs: seq<Branch>, b: Branch)
    ensures ElifText(bs + [b]) == ElifText(bs) + (BranchText(b) + "elif")
    decreases |bs|
  {
    if |bs| == 0 {
      assert bs + [b] == [b];
      assert ElifText([b]) == BranchText(b) + "elif" + ElifText([]);
    } else {
      assert (bs + [b])[1..] == bs[1..] + [b];
      ElifTextSnoc(bs[1..], b);
    }
  }

  /** The chain text with one more branch at the end: the earlier branches end in `elif`. */
  lemma {:induction false} ChainTextSnoc(bs: seq<Branch>, b: Branch, e: Option<Script>)
    ensures ChainText(bs + [b], e) == ElifText(bs) + (BranchText(b) + (ElsePart(e) + "fi"))
    decreases |bs|
  {
    if |bs| == 0 {
      assert bs + [b] == [b];
    } else {
      assert (bs + [b])[1..] == bs[1..] + [b];
      ChainTextSnoc(bs[1..], b, e);
    }
  }

  lemma PairsSnoc(bs: seq<Branch>, b: Branch)
    ensures Pairs(bs + [b]) == Pairs(bs) + [(Script(b.cond), Script(b.body))]
  {
    assert forall i :: 0 <= i < |bs| ==> (bs + [b])[i] == bs[i];
  }

  lemma PairsWellFormed(bs: seq<Branch>)
    requires forall i :: 0 <= i < |bs| ==> WellFormedBranch(bs[i])
    ensures forall i :: 0 <= i < |bs| ==> WellFormedPair(Pairs(bs)[i])
  {
  }

  /** One step of the keyword loop, read off `IfChain`. */
  lemma ChainUnfold(script: Recognizer, st: Input)
    ensures var p := IfThenPair(script, st);
      (p.PairFailed? ==> IfChain(script, st) == ChainFailed(p.at))
      && (p.PairHangs? ==> IfChain(script, st) == ChainHangs)
    ensures var p := IfThenPair(script, st);
      p.PairRead? ==> var t := p.rest.remaining; "fi" <= t ==>
        IfChain(script, st) == ChainDone([p.branch], None, Input(t[2..], p.rest.lines))
    ensures var p := IfThenPair(script, st);
      p.PairRead? ==> var t := p.rest.remaining; !("fi" <= t) && "elif" <= t ==>
        IfChain(script, st) == Extend([p.branch], IfChain(script, Input(t[4..], p.rest.lines)))
    ensures var p := IfThenPair(script, st);
      p.PairRead? ==> var t := p.rest.remaining; !("fi" <= t) && !("elif" <= t) && "else" <= t ==>
        var e := ElseFi(script, Input(t[4..], p.rest.lines));
        IfChain(script, st) == if e.ElseHangs? then ChainHangs else ChainDone([p.branch], Some(Script(e.body)), e.rest)
  {
  }

  /** `CommandIf::parse` on the input as a value. */
  datatype IfOutcome =
    | NoIf(rest: Input)
    | IfHangs
    | IfRead(branches: seq<Branch>, elseDo: Option<Script>, text: string, redirects: seq<Redirect>, rest: Input)

  /**
   * No `if`: nothing happens. A condition that does not parse: the text
   * goes back to where `if` started, but the lines read meanwhile stay
   * read. A body loop that never settles: the parser never returns.
   * Otherwise the branches, the `else` part, the text and the redirects.
   */
  function IfSpec(script: Recognizer, redirect: Recognizer, st: Input): (r: IfOutcome)
    ensures !("if" <= st.remaining) ==> r == NoIf(st)
    ensures r.NoIf? ==> r.rest.remaining == st.remaining
    ensures r.IfRead? ==>
      |r.branches| >= 1 && (r.elseDo.Some? ==> r.elseDo.value.text != [])
      && InputStream(st) == r.text + InputStream(r.rest)
  {
    if |st.remaining| < 2 || !("if" <= st.remaining) then NoIf(st)
    else
      var after := Input(st.remaining[2..], st.lines);
      match IfChain(script, after)
      case ChainFailed(at) => NoIf(Input(st.remaining, at.lines))
      case ChainHangs => IfHangs
      case ChainDone(bs, e, s) =>
        var run := RedirectRun(redirect, s.remaining);
        IfChainParts(script, after);
        IfDoneStream(st, s, ChainText(bs, e), run.0);
        IfRead(bs, e, "if" + ChainText(bs, e) + run.0, run.1, Input(s.remaining[|run.0|..], s.lines))
  }

  lemma IfDoneStream(st: Input, s: Input, chain: string, tail: string)
    requires "if" <= st.remaining && tail <= s.remaining
    requires InputStream(Input(st.remaining[2..], st.lines)) == chain + InputStream(s)
    ensures InputStream(st) == ("if" + chain + tail) + InputStream(Input(s.remaining[|tail|..], s.lines))
  {
    StreamSplit(st, 2);
    StreamSplit(s, |tail|);
    assert s.remaining[..|tail|] == tail;
    IfStream(InputStream(st), InputStream(Input(st.remaining[2..], st.lines)), InputStream(s),
             InputStream(Input(s.remaining[|tail|..], s.lines)), chain, tail);
  }

  lemma IfSpecDone(script: Recognizer, redirect: Recognizer, st: Input)
    requires "if" <= st.remaining && IfChain(script, Input(st.remaining[2..], st.lines)).ChainDone?
    ensures var c := IfChain(script, Input(st.remaining[2..], st.lines));
      var run := RedirectRun(redirect, c.rest.remaining);
      IfSpec(script, redirect, st)
      == IfRead(c.branches, c.elseDo, "if" + ChainText(c.branches, c.elseDo) + run.0, run.1,
                Input(c.rest.remaining[|run.0|..], c.rest.lines))
  {
  }

  lemma IfStream(whole: string, afterIf: string, afterFi: string, rest: string, chain: string, tail: string)
    requires whole == "if" + afterIf && afterIf == chain + afterFi && afterFi == tail + rest
    ensures whole == ("if" + chain + tail) + rest
  {
  }

  /**
   * A condition that fails after a line was read: the text goes back to
   * the start and the line read is lost. Here the condition never parses
   * and the terminal has one more line.
   */
  lemma IfRewindDropsLine(redirect: Recognizer)
    ensures IfSpec((s: string) => 0, redirect, Input("if ", ["x\n"])) == NoIf(Input("if ", []))
  {
    var st := Input("if ", ["x\n"]);
    assert st.remaining[2..] == " ";
    var after := Input(" ", ["x\n"]);
    assert Fed(after) == Input(" x\n", []);
  }

  /** Whether the parser has settled, failed, or would wait for input forever. */
  datatype Attempt =
    | Parsed(c: CommandIf)
    | NoMatch
    | Diverges

  /** Both scripts of a branch were parsed from some text. */
  predicate WellFormedPair(pair: (Script, Script)) {
    pair.0.text != [] && pair.1.text != []
  }

  class CommandIf {
    var ifthen: seq<(Script, Script)>
    var elseDo: Option<Script>
    var text: string
    var pid: Option<int>
    var fds: FileDescs
    var groupLeader: bool

    constructor New()
      ensures ifthen == [] && elseDo == None && text == "" && pid == None
      ensures fds == NewFileDescs() && !groupLeader
    {
      ifthen := [];
      elseDo := None;
      text := "";
      pid := None;
      fds := NewFileDescs();
      groupLeader := false;
    }

    /**
     * The command `CommandIf::parse` has built once it succeeds: `new()`,
     * then the branches, the `else` part, the text and the redirects.
     */
    constructor Assembled(pairs: seq<(Script, Script)>, elseDo: Option<Script>, text: string, rs: seq<Redirect>)
      ensures ifthen == pairs && this.elseDo == elseDo && this.text == text && pid == None
      ensures fds == NewFileDescs().(redirects := rs) && !groupLeader
    {
      ifthen := pairs;
      this.elseDo := elseDo;
      this.text := text;
      pid := None;
      fds := NewFileDescs().(redirects := rs);
      groupLeader := false;
    }

    /** Runs the first branch whose condition succeeds, or the `else` part. */
    method ExecElems(core: ShellCore, run: Runner)
      modifies core
      ensures core.vars == IfRun(ifthen, elseDo, run, old(core.vars))
    {
      var i := 0;
      while i < |ifthen|
        invariant 0 <= i <= |ifthen|
        invariant IfRun(ifthen[i..], elseDo, run, core.vars) == IfRun(ifthen, elseDo, run, old(core.vars))
      {
        assert ifthen[i..][1..] == ifthen[i + 1..];
        core.vars := run(ifthen[i].0, core.vars);
        if !LastSucceeded(core.vars) {
          i := i + 1;
          continue;
        }
        core.vars := run(ifthen[i].1, core.vars);
        return;
      }
      match elseDo {
        case Some(s) => core.vars := run(s, core.vars);
        case None =>
      }
    }

    method SetPid(p: int)
      modifies this`pid
      ensures pid == Some(p)
    {
      pid := Some(p);
    }

    function GetPid(): Option<int>
      reads this
    {
      pid
    }

    method SetGroupLeader()
      modifies this`groupLeader
      ensures groupLeader
    {
      groupLeader := true;
    }

    /** Connects the command to pipes; the redirects and every other field stay. */
    method SetPipe(pin: int, pout: int, pprev: int)
      modifies this`fds
      ensures fds.pipein == pin && fds.pipeout == pout && fds.prevpipein == pprev
      ensures fds.redirects == old(fds.redirects)
    {
      fds := fds.(pipein := pin, pipeout := pout, prevpipein := pprev);
    }

    method GetPipeEnd() returns (fd: int)
      ensures fd == fds.pipein
    {
      fd := fds.pipein;
    }

    method GetPipeOut() returns (fd: int)
      ensures fd == fds.pipeout
    {
      fd := fds.pipeout;
    }

    function GetText(): string
      reads this
    {
      text
    }


    /** The first half of `parse_if_then_pair`: read a line, parse the condition. */
    static method ReadCondition(f: Feeder, script: Recognizer) returns (c: Option<string>)
      modifies f
      ensures var s := Fed(old(f.State())); var n := Recognize(script, s.remaining);
        (c.None? <==> n == 0) && (c.None? ==> f.State() == s)
        && (c.Some? ==> c.value == s.remaining[..n] && f.State() == Input(s.remaining[n..], s.lines))
    {
      var more := f.FeedAdditionalLine();
      c := f.Parse(script);
      if c.Some? {
        assert c.value == Fed(old(f.State())).remaining[..|c.value|];
      }
    }

    /**
     * The second half of `parse_if_then_pair`: read a line, take `then`
     * when it comes next, run the body loop.
     */
    static method ReadThenBody(f: Feeder, script: Recognizer) returns (kw: string, b: Option<string>)
      modifies f
      ensures var t := ThenOf(old(f.State())); var retry := BodyRetry(script, PairKeys, t.1);
        kw == t.0 && (b.None? <==> retry.Spins?)
        && (b.Some? ==> b.value == retry.body && f.State() == retry.rest)
    {
      kw := [];
      var more := f.FeedAdditionalLine();
      if f.StartsWith("then") {
        kw := f.Consume(4);
      }
      ghost var tried;
      b, tried := RetryBody(f, script, PairKeys);
    }

    /**
     * `parse_if_then_pair`: the condition, `then` when present, and the body.
     * The branch and its text, which the source adds to the command under
     * construction, are returned; the text is each part once.
     */
    static method ParseIfThenPair(f: Feeder, script: Recognizer)
      returns (step: Step, cond: string, kw: string, body: string)
      modifies f
      ensures var p := IfThenPair(script, old(f.State()));
        (step.Failure? <==> p.PairFailed?) && (step.Hang? <==> p.PairHangs?)
        && (step.Failure? ==> f.State() == p.at)
        && (step.Success? ==> p == PairRead(Branch(cond, kw, body), f.State()))
    {
      cond, kw, body := [], [], [];
      var c := ReadCondition(f, script);
      if c.None? {
        return Failure, cond, kw, body;
      }
      cond := c.value;
      var b;
      kw, b := ReadThenBody(f, script);
      if b.None? {
        return Hang, cond, kw, body;
      }
      body := b.value;
      step := Success;
    }

    /** `parse_else_fi`: the body loop, then the `fi` that follows it. */
    static method ParseElseFi(f: Feeder, script: Recognizer) returns (step: Step, body: string)
      modifies f
      ensures var e := ElseFi(script, old(f.State()));
        !step.Failure? && (step.Hang? <==> e.ElseHangs?)
        && (step.Success? ==> e == ElseRead(body, f.State()))
    {
      body := [];
      ghost var tried;
      var b;
      b, tried := RetryBody(f, script, ElseKeys);
      if b.None? {
        return Hang, body;
      }
      body := b.value;
      ElseKeyCase(f.remaining);
      var fi := f.Consume(2);
      step := Success;
    }

    /**
     * What follows a branch in `CommandIf::parse`: `fi` ends the command,
     * `elif` starts another branch, `else` is followed by a body and `fi`.
     * One of the three always comes next, since the body loop only settles
     * on a body followed by one of them.
     */
    static method ParseBranchEnd(f: Feeder, script: Recognizer)
      returns (step: Step, elseDo: Option<Script>, text: string, done: bool)
      requires AnyPrefix(PairKeys, f.remaining)
      modifies f
      ensures !step.Failure?
      ensures var t := old(f.remaining);
        "fi" <= t ==>
          step == Success && done && elseDo == None && text == "fi" && f.State() == Input(t[2..], old(f.lines))
      ensures var t := old(f.remaining);
        !("fi" <= t) && "elif" <= t ==>
          step == Success && !done && elseDo == None && text == "elif" && f.State() == Input(t[4..], old(f.lines))
      ensures var t := old(f.remaining);
        !("fi" <= t) && !("elif" <= t) ==> "else" <= t && done
      ensures var t := old(f.remaining);
        !("fi" <= t) && !("elif" <= t) && "else" <= t ==>
          var e := ElseFi(script, Input(t[4..], old(f.lines)));
          (step.Hang? <==> e.ElseHangs?)
          && (step.Success? ==> elseDo == Some(Script(e.body)) && text == "else" + e.body + "fi" && f.State() == e.rest)
    {
      elseDo, done := None, true;
      PairKeyCases(f.remaining);
      if f.StartsWith("fi") {
        text := f.Consume(2);
        return Success, elseDo, text, done;
      } else if f.StartsWith("elif") {
        text := f.Consume(4);
        return Success, elseDo, text, false;
      }
      var k := f.Consume(4);
      var body;
      step, body := ParseElseFi(f, script);
      text := k + body + "fi";
      if step.Success? {
        elseDo := Some(Script(body));
      }
    }

    /**
     * One round of the keyword loop of `CommandIf::parse`: a branch, then
     * `fi`, `elif`, or `else` with its body and `fi`. Returns the branch as
     * the command stores it, the `else` part and the text of the round.
     */
    static method ParseBranch(f: Feeder, script: Recognizer)
      returns (step: Step, pair: (Script, Script), elseDo: Option<Script>, text: string, done: bool,
               ghost b: Branch)
      modifies f
      ensures var c := IfChain(script, old(f.State()));
        (step.Failure? ==> c == ChainFailed(f.State()))
        && (step.Hang? ==> c == ChainHangs)
        && (step.Success? ==> pair == (Script(b.cond), Script(b.body)))
        && (step.Success? && done ==>
              c == ChainDone([b], elseDo, f.State()) && text == BranchText(b) + (ElsePart(elseDo) + "fi"))
        && (step.Success? && !done ==>
              c == Extend([b], IfChain(script, f.State())) && text == BranchText(b) + "elif"
              && |InputStream(f.State())| < |InputStream(old(f.State()))|)
    {
      ghost var here := f.State();
      ChainUnfold(script, here);
      var cond, kw, body;
      step, cond, kw, body := ParseIfThenPair(f, script);
      b := Branch(cond, kw, body);
      pair, elseDo, text, done := (Script(cond), Script(body)), None, [], true;
      if !step.Success? {
        return;
      }
      var t;
      ghost var mid := f.State();
      step, elseDo, t, done := ParseBranchEnd(f, script);
      text := (cond + kw + body) + t;
      if step.Success? && !done {
        StreamSplit(mid, 4);
      }
    }

    /**
     * The keyword loop of `CommandIf::parse`: branches separated by `elif`,
     * ended by `fi`, or by `else`, a body and `fi`. Returns the branches,
     * the `else` part and the text consumed, `fi` included.
     */
    static method ParseChain(f: Feeder, script: Recognizer)
      returns (step: Step, pairs: seq<(Script, Script)>, elseDo: Option<Script>, text: string,
               ghost branches: seq<Branch>)
      modifies f
      ensures var c := IfChain(script, old(f.State()));
        (step.Failure? <==> c.ChainFailed?) && (step.Hang? <==> c.ChainHangs?)
        && (step.Failure? ==> f.State() == c.at)
        && (step.Success? ==>
              c == ChainDone(branches, elseDo, f.State()) && pairs == Pairs(branches)
              && text == ChainText(branches, elseDo))
    {
      ghost var start := f.State();
      pairs, elseDo, text, branches := [], None, [], [];
      while true
        invariant IfChain(script, start) == Extend(branches, IfChain(script, f.State()))
        invariant pairs == Pairs(branches) && text == ElifText(branches)
        decreases |InputStream(f.State())|
      {
        ghost var here := f.State();
        var round, pair, e, t, done, b := ParseBranch(f, script);
        if !round.Success? {
          return round, pairs, elseDo, text, branches;
        }
        PairsSnoc(branches, b);
        if done {
          ChainTextSnoc(branches, b, e);
          return Success, pairs + [pair], e, text + t, branches + [b];
        }
        ElifTextSnoc(branches, b);
        ExtendExtend(branches, [b], IfChain(script, f.State()));
        pairs, text, branches := pairs + [pair], text + t, branches + [b];
      }
    }

    /** Everything `CommandIf::parse` reads after `if`: the branches up to `fi`, then the redirects. */
    static method ParseAfterIf(f: Feeder, script: Recognizer, redirect: Recognizer)
      returns (step: Step, pairs: seq<(Script, Script)>, elseDo: Option<Script>, text: string,
               rs: seq<Redirect>, ghost branches: seq<Branch>, ghost blanks: seq<string>)
      modifies f
      ensures var c := IfChain(script, old(f.State()));
        (step.Failure? <==> c.ChainFailed?) && (step.Hang? <==> c.ChainHangs?)
        && (step.Failure? ==> f.State() == c.at)
        && (step.Success? ==>
              var run := RedirectRun(redirect, c.rest.remaining);
              c == ChainDone(branches, elseDo, c.rest) && pairs == Pairs(branches)
              && text == ChainText(branches, elseDo) + run.0 && rs == run.1
              && blanks == RunBlanks(redirect, c.rest.remaining)
              && |blanks| == |rs| + 1 && run.0 == Weave(blanks, rs)
              && f.State() == Input(c.rest.remaining[|run.0|..], c.rest.lines))
    {
      var chain;
      step, pairs, elseDo, chain, branches := ParseChain(f, script);
      text, rs, blanks := chain, [], [[]];
      if step.Success? {
        var tail;
        tail, rs, blanks := ParseRedirects(f, redirect);
        text := chain + tail;
      }
    }

    /**
     * `CommandIf::parse`: `if`, the branches up to `fi`, then the redirects.
     * A branch whose condition does not parse sends the cursor back to the
     * start; a body loop that never settles never returns.
     */
    static method Parse(f: Feeder, script: Recognizer, redirect: Recognizer)
      returns (r: Attempt, ghost branches: seq<Branch>, ghost blanks: seq<string>)
      modifies f
      ensures !old(f.StartsWith("if")) ==> r == NoMatch && f.State() == old(f.State())
      ensures var sp := IfSpec(script, redirect, old(f.State()));
        (r.NoMatch? <==> sp.NoIf?) && (r.Diverges? <==> sp.IfHangs?)
        && (r.NoMatch? ==> f.State() == sp.rest)
      ensures r.Parsed? ==>
        fresh(r.c) && r.c.ifthen == Pairs(branches)
        && IfSpec(script, redirect, old(f.State()))
           == IfRead(branches, r.c.elseDo, r.c.text, r.c.fds.redirects, f.State())
      ensures r.Parsed? ==>
        |blanks| == |r.c.fds.redirects| + 1
        && r.c.text == "if" + ChainText(branches, r.c.elseDo) + Weave(blanks, r.c.fds.redirects)
      ensures r.Parsed? ==>
        |r.c.ifthen| >= 1 && (forall i :: 0 <= i < |r.c.ifthen| ==> WellFormedPair(r.c.ifthen[i]))
        && (r.c.elseDo.Some? ==> r.c.elseDo.value.text != [])
      ensures r.Parsed? ==>
        r.c.fds == NewFileDescs().(redirects := r.c.fds.redirects) && r.c.pid == None && !r.c.groupLeader
    {
      branches, blanks := [], [];
      if f.Len() < 2 || !f.StartsWith("if") {
        return NoMatch, branches, blanks;
      }
      ghost var st := f.State();
      var backup := f.Clone();
      var kw := f.Consume(2);
      assert kw == "if" by {
        assert backup.remaining == kw + f.remaining;
        assert backup.remaining[..2] == kw;
      }
      var step, pairs, elseDo, rest, rs;
      step, pairs, elseDo, rest, rs, branches, blanks := ParseAfterIf(f, script, redirect);
      if step.Failure? {
        f.Rewind(backup);
        return NoMatch, branches, blanks;
      }
      if step.Hang? {
        return Diverges, branches, blanks;
      }
      ghost var after := Input(st.remaining[2..], st.lines);
      IfChainParts(script, after);
      PairsWellFormed(branches);
      IfSpecDone(script, redirect, st);
      ghost var run := RedirectRun(redirect, IfChain(script, after).rest.remaining);
      assert kw + rest == "if" + ChainText(branches, elseDo) + run.0;
      var ans := new CommandIf.Assembled(pairs, elseDo, kw + rest, rs);
      r := Parsed(ans);
    }
  }
}
