/**
 * The first-generation parser of src/parser.rs: a line becomes a tree whose
 * children are the words of the trimmed line, one leaf per word.
 */
module TopLevel {
  import opened Wrappers
  import opened Text

  /** A node of the syntax tree: its children, its text and its position in the line. */
  datatype Tree = Tree(elems: seq<Tree>, text: string, textPos: nat)

  /** The command node: a tree whose children are the words. */
  datatype CommandWithArgs = CommandWithArgs(tree: Tree)

  /** A word as a tree: no children, position 0. */
  function Leaf(w: string): Tree {
    Tree([], w, 0)
  }

  /** One leaf per word, in order. */
  function Leaves(words: seq<string>): (ts: seq<Tree>)
    ensures |ts| == |words|
    decreases |words|
  {
    if words == [] then [] else Leaves(words[..|words| - 1]) + [Leaf(words[|words| - 1])]
  }

  /** The texts of a list of trees. */
  function Texts(ts: seq<Tree>): (r: seq<string>)
    ensures |r| == |ts|
    decreases |ts|
  {
    if ts == [] then [] else Texts(ts[..|ts| - 1]) + [ts[|ts| - 1].text]
  }

  /** The tree `command_with_args` builds for a line. */
  function CommandTree(line: string): CommandWithArgs {
    CommandWithArgs(Tree(Leaves(Split(Trim(line), ' ')), line, 0))
  }

  /** Every leaf is the word at its place, with no children and position 0. */
  lemma {:induction false} LeavesAreWords(words: seq<string>)
    ensures forall i :: 0 <= i < |words| ==> Leaves(words)[i] == Tree([], words[i], 0)
    ensures Texts(Leaves(words)) == words
    decreases |words|
  {
    if words != [] {
      var n := |words| - 1;
      LeavesAreWords(words[..n]);
      assert Leaves(words)[..n] == Leaves(words[..n]);
      assert words == words[..n] + [words[n]];
    }
  }

  /**
   * What the tree says about the line: its text is the line itself,
   * untrimmed, and its leaves, joined with spaces, give the trimmed line.
   */
  lemma CommandTreeText(line: string)
    ensures CommandTree(line).tree.text == line && CommandTree(line).tree.textPos == 0
    ensures |CommandTree(line).tree.elems| >= 1
    ensures Join(Texts(CommandTree(line).tree.elems), ' ') == Trim(line)
  {
    var words := Split(Trim(line), ' ');
    assert Texts(Leaves(words)) == words by {
      LeavesAreWords(words);
    }
    JoinSplit(Trim(line), ' ');
  }

  /** Every child is a leaf at position 0 holding one word, which has no space in it. */
  lemma CommandTreeLeaves(line: string)
    ensures forall i :: 0 <= i < |CommandTree(line).tree.elems| ==>
      CommandTree(line).tree.elems[i].elems == [] && CommandTree(line).tree.elems[i].textPos == 0
      && ' ' !in CommandTree(line).tree.elems[i].text
  {
    var words := Split(Trim(line), ' ');
    var ts := CommandTree(line).tree.elems;
    assert ts == Leaves(words);
    forall i | 0 <= i < |ts|
      ensures ts[i].elems == [] && ts[i].textPos == 0 && ' ' !in ts[i].text
    {
      LeafAt(words, i);
    }
  }

  /** The leaf at a place is the word there. */
  lemma LeafAt(words: seq<string>, i: nat)
    requires i < |words|
    ensures Leaves(words)[i] == Leaf(words[i])
  {
    LeavesAreWords(words);
  }

  /** A blank line still gives one leaf, with empty text. */
  lemma BlankLineGivesOneEmptyLeaf()
    ensures CommandTree(" \n").tree.elems == [Tree([], "", 0)]
  {
    assert TrimEnd(" \n") == [] by {
      assert " \n"[..1] == " ";
      assert " "[..0] == [];
    }
  }

  /** `command_with_args`: the words of the trimmed line, pushed one by one as leaves. */
  method CommandWithArgsOf(line: string) returns (r: Option<CommandWithArgs>)
    ensures r == Some(CommandTree(line))
  {
    var elems: seq<Tree> := [];
    var words := Split(Trim(line), ' ');
    for i := 0 to |words|
      invariant elems == Leaves(words[..i])
    {
      assert words[..i + 1][..i] == words[..i];
      elems := elems + [Tree([], words[i], 0)];
    }
    assert words[..|words|] == words;
    r := Some(CommandWithArgs(Tree(elems, line, 0)));
  }

  /** `top_level_element`: only a command is recognised, so it is `command_with_args`. */
  method TopLevelElement(line: string) returns (r: Option<CommandWithArgs>)
    ensures r == Some(CommandTree(line))
  {
    r := CommandWithArgsOf(line);
  }
}
