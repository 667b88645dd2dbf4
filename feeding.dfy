/**
 * The input cursor (`Feeder`) every parser works on, and the sub-parsers
 * that are not part of this model.
 *
 * A `Feeder` holds the text read so far and not yet consumed. When a
 * construct spans lines, the parser asks the terminal for another line;
 * the lines the terminal still has to deliver are kept in `lines`. A
 * snapshot (`clone`) copies the unconsumed text only: `rewind` puts that
 * text back, but a line that has been read from the terminal stays read.
 *
 * `Stream()` is everything the parser can still see: the unconsumed text
 * followed by the lines still to come. Consuming removes a prefix of it;
 * feeding a line and rewinding to a snapshot taken since the last feed
 * leave it unchanged. The round-trip property of every parser is stated
 * on it: what a parser reports as its text is exactly what left the
 * stream.
 */
module Feeding {
  import opened Wrappers

  /** The lines one after the other. */
  function Flatten(lines: seq<string>): string
    decreases |lines|
  {
    if lines == [] then [] else lines[0] + Flatten(lines[1..])
  }

  lemma {:induction false} FlattenSnoc(lines: seq<string>, line: string)
    ensures Flatten(lines + [line]) == Flatten(lines) + line
    decreases |lines|
  {
    if lines != [] {
      FlattenSnoc(lines[1..], line);
      assert (lines + [line])[1..] == lines[1..] + [line];
    }
  }

  /**
   * The cursor as a value: the unconsumed text and the lines the terminal
   * still has to deliver.
   */
  datatype Input = Input(remaining: string, lines: seq<string>)

  function InputStream(st: Input): string {
    st.remaining + Flatten(st.lines)
  }

  /** Cutting the text at `k` cuts the stream there too. */
  lemma StreamSplit(st: Input, k: nat)
    requires k <= |st.remaining|
    ensures InputStream(st) == st.remaining[..k] + InputStream(Input(st.remaining[k..], st.lines))
  {
    assert st.remaining == st.remaining[..k] + st.remaining[k..];
  }

  /** `feed_additional_line` on a value: the next line, if any, moves into the text. */
  function Fed(st: Input): (r: Input)
    ensures InputStream(r) == InputStream(st)
    ensures st.lines != [] ==> |r.lines| < |st.lines|
  {
    if st.lines == [] then st
    else Input(st.remaining + st.lines[0], st.lines[1..])
  }

  /** Characters of `consume_blank` and of `scanner_while(text, 0, " \t")`. */
  predicate IsBlank(c: char) { c == ' ' || c == '\t' }

  predicate AllBlank(s: string) {
    forall j :: 0 <= j < |s| ==> IsBlank(s[j])
  }

  /** Length of the leading run of blanks. */
  function BlankRun(s: string): (n: nat)
    ensures n <= |s|
    ensures forall i :: 0 <= i < n ==> IsBlank(s[i])
    ensures n == |s| || !IsBlank(s[n])
    decreases |s|
  {
    if s != [] && IsBlank(s[0]) then 1 + BlankRun(s[1..]) else 0
  }

  /**
   * A sub-parser whose grammar is not part of this model (`Script::parse`,
   * `Redirect::parse`, `Eoc::parse`, ...). Given the unconsumed text it
   * says how many characters it recognises; a count of zero, or one larger
   * than the text, means no match. A match always makes progress.
   */
  type Recognizer = string -> nat

  function Recognize(p: Recognizer, s: string): (n: nat)
    ensures n <= |s|
  {
    if p(s) <= |s| then p(s) else 0
  }

  /** A copy of the cursor taken by `clone`. */
  datatype Snapshot = Snapshot(remaining: string)

  /** How a parse attempt that may wait for input forever ended. */
  datatype Step = Success | Failure | Hang

  class Feeder {
    var remaining: string
    var lines: seq<string>

    constructor (text: string, pending: seq<string>)
      ensures remaining == text && lines == pending
    {
      remaining := text;
      lines := pending;
    }

    function Stream(): string
      reads this
    {
      remaining + Flatten(lines)
    }

    function State(): Input
      reads this
    {
      Input(remaining, lines)
    }

    function Len(): nat
      reads this
    {
      |remaining|
    }

    function Nth(i: nat): char
      reads this
      requires i < |remaining|
    {
      remaining[i]
    }

    predicate StartsWith(lit: string)
      reads this
    {
      lit <= remaining
    }

    /** `compare(offset, lit)`: the text at `offset` reads `lit`. */
    predicate Compare(offset: nat, lit: string)
      reads this
    {
      offset + |lit| <= |remaining| && remaining[offset..offset + |lit|] == lit
    }

    function Clone(): Snapshot
      reads this
    {
      Snapshot(remaining)
    }

    method Rewind(backup: Snapshot)
      modifies this`remaining
      ensures remaining == backup.remaining
    {
      remaining := backup.remaining;
    }

    /** Removes and returns the first `n` characters; returns "" when fewer remain. */
    method Consume(n: nat) returns (s: string)
      modifies this`remaining
      ensures n <= |old(remaining)| ==> |s| == n && old(remaining) == s + remaining
      ensures n > |old(remaining)| ==> s == "" && remaining == old(remaining)
      ensures old(Stream()) == s + Stream()
    {
      if n <= |remaining| {
        s := remaining[..n];
        remaining := remaining[n..];
        assert old(remaining) == s + remaining;
      } else {
        s := "";
      }
    }

    /** Removes and returns the leading run of spaces and tabs. */
    method ConsumeBlank() returns (s: string)
      modifies this`remaining
      ensures old(remaining) == s + remaining && AllBlank(s) && BlankRun(remaining) == 0
      ensures |s| == BlankRun(old(remaining))
      ensures old(Stream()) == s + Stream()
    {
      ghost var before := remaining;
      var n := BlankRun(remaining);
      s := Consume(n);
      assert s == before[..n] && remaining == before[n..];
    }

    /** Appends the terminal's next line; false when the terminal has none. */
    method FeedAdditionalLine() returns (ok: bool)
      modifies this
      ensures ok == (old(lines) != [])
      ensures ok ==> remaining == old(remaining) + old(lines)[0] && lines == old(lines)[1..]
      ensures !ok ==> remaining == old(remaining) && lines == old(lines)
      ensures Stream() == old(Stream()) && State() == Fed(old(State()))
    {
      ok := lines != [];
      if ok {
        remaining := remaining + lines[0];
        lines := lines[1..];
      }
    }

    /** Goes back to `backup`, reads one more line and takes a new snapshot. */
    method RewindFeedBackup(backup: Snapshot) returns (next: Snapshot, ok: bool)
      modifies this
      ensures ok == (old(lines) != [])
      ensures ok ==> remaining == backup.remaining + old(lines)[0] && lines == old(lines)[1..]
      ensures !ok ==> remaining == backup.remaining && lines == old(lines)
      ensures next == Clone()
    {
      Rewind(backup);
      ok := FeedAdditionalLine();
      next := Clone();
    }

    /** Runs a sub-parser: on a match its text is consumed and returned. */
    method Parse(p: Recognizer) returns (t: Option<string>)
      modifies this`remaining
      ensures Recognize(p, old(remaining)) == 0 ==> t == None && remaining == old(remaining)
      ensures Recognize(p, old(remaining)) > 0 ==>
        t.Some? && |t.value| == Recognize(p, old(remaining)) && old(remaining) == t.value + remaining
      ensures t.Some? ==> t.value != [] && old(Stream()) == t.value + Stream()
    {
      var n := Recognize(p, remaining);
      if n == 0 {
        t := None;
      } else {
        var s := Consume(n);
        t := Some(s);
      }
    }
  }
}
