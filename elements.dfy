/**
 * Collaborators shared by the command elements: the nested script, the
 * redirect and the end-of-command elements (kept down to their text), the
 * descriptor set of a command, and the shell-wide variable map.
 *
 * `Script`, `Redirect`, `Eoc`, `FileDescs` and `ShellCore` are defined in
 * files that are not part of this model; only what the command elements
 * rely on is kept here.
 */
module Elements {
  import opened Wrappers
  import opened Feeding

  /** A nested script, known by its source text. */
  datatype Script = Script(text: string)

  /** One I/O redirection, known by its source text. */
  datatype Redirect = Redirect(text: string)

  /** An end-of-command element (`;`, newline, ...), known by its source text. */
  datatype Eoc = Eoc(text: string)

  /** Shell variables; `?` holds the exit status of the last foreground job. */
  type Vars = map<string, string>

  /** `conf.vars["?"] == "0"`: the last command succeeded. */
  predicate LastSucceeded(vars: Vars) {
    "?" in vars && vars["?"] == "0"
  }

  /** What executing a script does to the variables (`Script::exec`). */
  type Runner = (Script, Vars) -> Vars

  /** The process-wide shell state, reduced to its variables. */
  class ShellCore {
    var vars: Vars

    constructor (initial: Vars)
      ensures vars == initial
    {
      vars := initial;
    }
  }

  /**
   * The descriptors a command is connected through: the pipe it reads
   * from, the pipe it writes to, the previous stage's read end, and its
   * redirections. -1 marks an unused pipe end.
   */
  datatype FileDescs = FileDescs(pipein: int, pipeout: int, prevpipein: int, redirects: seq<Redirect>)

  /** `FileDescs::new()`: nothing connected. */
  function NewFileDescs(): FileDescs {
    FileDescs(-1, -1, -1, [])
  }

  /** `no_connection`: no pipe end is set and there is no redirection. */
  predicate NoConnection(fds: FileDescs) {
    fds.pipein == -1 && fds.pipeout == -1 && fds.prevpipein == -1 && fds.redirects == []
  }

  /** The text of a redirect run: blank runs with a redirect between neighbours. */
  function Weave(blanks: seq<string>, rs: seq<Redirect>): string
    requires |blanks| == |rs| + 1
    decreases |rs|
  {
    if rs == [] then blanks[0] else blanks[0] + rs[0].text + Weave(blanks[1..], rs[1..])
  }

  /**
   * What the redirect loop takes from the front of `s`: the leading blanks,
   * then, as long as a redirect follows, that redirect and the blanks after
   * it. The text taken and the redirects, in order.
   */
  function RedirectRun(redirect: Recognizer, s: string): (r: (string, seq<Redirect>))
    ensures r.0 <= s
    decreases |s|, 1
  {
    var b := BlankRun(s);
    var after := RedirectsAfterBlank(redirect, s[b..]);
    assert s == s[..b] + s[b..];
    (s[..b] + after.0, after.1)
  }

  /** The redirect loop after a blank run: a redirect and the loop again, or nothing. */
  function RedirectsAfterBlank(redirect: Recognizer, t: string): (r: (string, seq<Redirect>))
    ensures r.0 <= t
    decreases |t|, 0
  {
    var n := Recognize(redirect, t);
    if n == 0 then ("", [])
    else
      var more := RedirectRun(redirect, t[n..]);
      assert t == t[..n] + t[n..];
      (t[..n] + more.0, [Redirect(t[..n])] + more.1)
  }

  /** The blank runs of `RedirectRun(redirect, s)`, in order. */
  ghost function RunBlanks(redirect: Recognizer, s: string): seq<string>
    decreases |s|, 1
  {
    var b := BlankRun(s);
    [s[..b]] + BlanksAfterBlank(redirect, s[b..])
  }

  /** The blank runs of `RedirectsAfterBlank(redirect, t)`, in order. */
  ghost function BlanksAfterBlank(redirect: Recognizer, t: string): seq<string>
    decreases |t|, 0
  {
    var n := Recognize(redirect, t);
    if n == 0 then [] else RunBlanks(redirect, t[n..])
  }

  /**
   * A redirect run is its blank runs woven with its redirects: every blank
   * run is blank and every redirect has text.
   */
  lemma {:induction false} RedirectRunWoven(redirect: Recognizer, s: string)
    ensures var blanks, rs := RunBlanks(redirect, s), RedirectRun(redirect, s).1;
      |blanks| == |rs| + 1 && RedirectRun(redirect, s).0 == Weave(blanks, rs)
      && (forall i :: 0 <= i < |blanks| ==> AllBlank(blanks[i]))
      && (forall i :: 0 <= i < |rs| ==> rs[i].text != [])
  {
    var b := BlankRun(s);
    AfterBlankWoven(redirect, s[b..], s[..b]);
    AfterBlankParts(redirect, s[b..]);
  }

  lemma {:induction false} AfterBlankWoven(redirect: Recognizer, t: string, lead: string)
    ensures var blanks, rs := [lead] + BlanksAfterBlank(redirect, t), RedirectsAfterBlank(redirect, t).1;
      |blanks| == |rs| + 1 && lead + RedirectsAfterBlank(redirect, t).0 == Weave(blanks, rs)
    decreases |t|
  {
    var n := Recognize(redirect, t);
    if n == 0 {
      assert [lead] + BlanksAfterBlank(redirect, t) == [lead];
      assert lead + RedirectsAfterBlank(redirect, t).0 == lead;
    } else {
      var u := t[n..];
      var c := BlankRun(u);
      var tail := BlanksAfterBlank(redirect, u[c..]);
      var after := RedirectsAfterBlank(redirect, u[c..]);
      AfterBlankWoven(redirect, u[c..], u[..c]);
      var w := Weave([u[..c]] + tail, after.1);
      var blanks, rs := [lead] + ([u[..c]] + tail), [Redirect(t[..n])] + after.1;
      assert blanks[1..] == [u[..c]] + tail && rs[1..] == after.1;
      assert Weave(blanks, rs) == lead + t[..n] + w;
      assert RedirectRun(redirect, u) == (u[..c] + after.0, after.1);
      assert BlanksAfterBlank(redirect, t) == [u[..c]] + tail;
      assert RedirectsAfterBlank(redirect, t) == (t[..n] + w, rs);
    }
  }

  lemma {:induction false} AfterBlankParts(redirect: Recognizer, t: string)
    ensures var blanks, rs := BlanksAfterBlank(redirect, t), RedirectsAfterBlank(redirect, t).1;
      (forall i :: 0 <= i < |blanks| ==> AllBlank(blanks[i]))
      && (forall i :: 0 <= i < |rs| ==> rs[i].text != [])
    decreases |t|
  {
    var n := Recognize(redirect, t);
    if n > 0 {
      var u := t[n..];
      var c := BlankRun(u);
      AfterBlankParts(redirect, u[c..]);
      var tail := BlanksAfterBlank(redirect, u[c..]);
      var more := RedirectsAfterBlank(redirect, u[c..]).1;
      AfterBlankUnfold(redirect, t);
      LeadingBlanks(u);
      BlanksCons(u[..c], tail);
      RedirectsCons(Redirect(t[..n]), more);
    }
  }

  lemma LeadingBlanks(u: string)
    ensures AllBlank(u[..BlankRun(u)])
  {
    var c := BlankRun(u);
    assert forall j :: 0 <= j < c ==> u[..c][j] == u[j];
  }

  lemma BlanksCons(h: string, tail: seq<string>)
    requires AllBlank(h) && forall k :: 0 <= k < |tail| ==> AllBlank(tail[k])
    ensures forall i :: 0 <= i < |[h] + tail| ==> AllBlank(([h] + tail)[i])
  {
    forall i | 0 <= i < |[h] + tail|
      ensures AllBlank(([h] + tail)[i])
    {
      if i > 0 { assert ([h] + tail)[i] == tail[i - 1]; }
    }
  }

  lemma RedirectsCons(r: Redirect, more: seq<Redirect>)
    requires r.text != [] && forall k :: 0 <= k < |more| ==> more[k].text != []
    ensures forall i :: 0 <= i < |[r] + more| ==> ([r] + more)[i].text != []
  {
    forall i | 0 <= i < |[r] + more|
      ensures ([r] + more)[i].text != []
    {
      if i > 0 { assert ([r] + more)[i] == more[i - 1]; }
    }
  }

  /** One redirect and the blank run after it, read off the loop's definitions. */
  lemma AfterBlankUnfold(redirect: Recognizer, t: string)
    requires Recognize(redirect, t) > 0
    ensures var n := Recognize(redirect, t); var u := t[n..]; var c := BlankRun(u);
      BlanksAfterBlank(redirect, t) == [u[..c]] + BlanksAfterBlank(redirect, u[c..])
      && RedirectsAfterBlank(redirect, t).1 == [Redirect(t[..n])] + RedirectsAfterBlank(redirect, u[c..]).1
  {
  }

  /** One step of the redirect loop: a redirect and the blank run after it. */
  method TakeRedirect(f: Feeder, redirect: Recognizer) returns (r: Option<string>, b: string)
    modifies f`remaining
    ensures r.None? ==> b == [] && f.remaining == old(f.remaining) && Recognize(redirect, f.remaining) == 0
    ensures r.Some? ==> r.value != [] && AllBlank(b) && BlankRun(f.remaining) == 0
    ensures r.Some? ==> old(f.remaining) == r.value + b + f.remaining
    ensures r.None? ==> RedirectsAfterBlank(redirect, old(f.remaining)) == ("", [])
    ensures r.Some? ==>
      RedirectsAfterBlank(redirect, old(f.remaining)).0 == r.value + b + RedirectsAfterBlank(redirect, f.remaining).0
      && RedirectsAfterBlank(redirect, old(f.remaining)).1 == [Redirect(r.value)] + RedirectsAfterBlank(redirect, f.remaining).1
  {
    b := [];
    r := f.Parse(redirect);
    if r.Some? {
      b := f.ConsumeBlank();
      assert old(f.remaining) == r.value + (b + f.remaining);
      AfterBlankStep(redirect, old(f.remaining), r.value, b, f.remaining);
    }
  }

  /**
   * The redirect loop that ends the brace, if and while parsers: consume a
   * blank run, then, as long as a redirect follows, take it and the next
   * blank run. Everything taken is returned as text, in input order.
   */
  method ParseRedirects(f: Feeder, redirect: Recognizer)
    returns (text: string, redirects: seq<Redirect>, ghost blanks: seq<string>)
    modifies f`remaining
    ensures text == RedirectRun(redirect, old(f.remaining)).0 && redirects == RedirectRun(redirect, old(f.remaining)).1
    ensures blanks == RunBlanks(redirect, old(f.remaining))
    ensures |blanks| == |redirects| + 1 && text == Weave(blanks, redirects)
    ensures forall i :: 0 <= i < |blanks| ==> AllBlank(blanks[i])
    ensures forall i :: 0 <= i < |redirects| ==> redirects[i].text != []
    ensures old(f.remaining) == text + f.remaining
    ensures BlankRun(f.remaining) == 0 && Recognize(redirect, f.remaining) == 0
  {
    ghost var whole := f.remaining;
    var b := f.ConsumeBlank();
    text, redirects := b, [];
    RedirectRunStart(redirect, whole, b, f.remaining);
    while true
      invariant RedirectRun(redirect, whole).0 == text + RedirectsAfterBlank(redirect, f.remaining).0
      invariant RedirectRun(redirect, whole).1 == redirects + RedirectsAfterBlank(redirect, f.remaining).1
      invariant whole == text + f.remaining
      invariant BlankRun(f.remaining) == 0
      decreases |f.remaining|
    {
      var r;
      r, b := TakeRedirect(f, redirect);
      if r.None? {
        break;
      }
      RedirectLoopStep(whole, text, redirects, r.value, b, f.remaining, RedirectsAfterBlank(redirect, f.remaining));
      text, redirects := text + r.value + b, redirects + [Redirect(r.value)];
    }
    blanks := RunBlanks(redirect, whole);
    RedirectRunWoven(redirect, whole);
  }

  /** The redirect loop on the specification starts with the leading blank run. */
  lemma RedirectRunStart(redirect: Recognizer, s: string, b: string, rest: string)
    requires s == b + rest && |b| == BlankRun(s)
    ensures RedirectRun(redirect, s).0 == b + RedirectsAfterBlank(redirect, rest).0
    ensures RedirectRun(redirect, s).1 == RedirectsAfterBlank(redirect, rest).1
  {
    assert s[..|b|] == b && s[|b|..] == rest;
  }

  /** Regrouping of the text and the redirects after one turn of `ParseRedirects`. */
  lemma RedirectLoopStep(whole: string, text: string, redirects: seq<Redirect>, r: string, b: string,
                         rest: string, after: (string, seq<Redirect>))
    requires whole == text + (r + b + rest)
    ensures whole == text + r + b + rest
    ensures text + (r + b + after.0) == text + r + b + after.0
    ensures redirects + ([Redirect(r)] + after.1) == redirects + [Redirect(r)] + after.1
  {
  }

  /** One turn of the redirect loop on the specification: a redirect, then the blanks after it. */
  lemma AfterBlankStep(redirect: Recognizer, t: string, r: string, b: string, rest: string)
    requires |r| == Recognize(redirect, t) > 0 && t == r + b + rest && |b| == BlankRun(t[|r|..])
    ensures RedirectsAfterBlank(redirect, t).0 == r + b + RedirectsAfterBlank(redirect, rest).0
    ensures RedirectsAfterBlank(redirect, t).1 == [Redirect(r)] + RedirectsAfterBlank(redirect, rest).1
  {
    var u := t[|r|..];
    assert t[..|r|] == r && u == b + rest;
    assert u[..|b|] == b && u[|b|..] == rest;
    var after := RedirectsAfterBlank(redirect, rest);
    assert RedirectRun(redirect, u) == (b + after.0, after.1);
    assert r + (b + after.0) == r + b + after.0;
  }
}
