/** The clean-up after the message parser (utils.rs, `parser_message`): the
    markdown engine's node list loses its last node when that is a plain
    line break, and then once more. The engine's own output is a parameter. */
module ParserOutput {
  /** The nodes the engine returns: text, a bridge mention, a Discord user. */
  datatype MarkdownAst =
    | Plain(text: string)
    | At(username: string)
    | AtInDiscordUser(id: string)

  predicate IsLineBreak(node: MarkdownAst) {
    node.Plain? && node.text == "\n"
  }

  /** The number of line-break nodes the list ends with. */
  function TrailingLineBreaks(nodes: seq<MarkdownAst>): (k: nat)
    ensures k <= |nodes|
    ensures forall i :: |nodes| - k <= i < |nodes| ==> IsLineBreak(nodes[i])
    ensures k < |nodes| ==> !IsLineBreak(nodes[|nodes| - 1 - k])
  {
    if |nodes| == 0 || !IsLineBreak(nodes[|nodes| - 1]) then 0
    else 1 + TrailingLineBreaks(nodes[..|nodes| - 1])
  }

  function Min(a: nat, b: nat): nat { if a < b then a else b }

  /** `parser_message` after the engine call: drop the last node if it is a
      line break, then look again and drop one more. */
  method TrimTrailingLineBreaks(engineOutput: seq<MarkdownAst>) returns (result: seq<MarkdownAst>)
    ensures result == engineOutput[..|engineOutput| - Min(TrailingLineBreaks(engineOutput), 2)]
  {
    result := engineOutput;
    if |result| > 0 && result[|result| - 1].Plain? && result[|result| - 1].text == "\n" {
      result := result[..|result| - 1];
    }
    if |result| > 0 && result[|result| - 1].Plain? && result[|result| - 1].text == "\n" {
      result := result[..|result| - 1];
    }
    if |engineOutput| > 0 && IsLineBreak(engineOutput[|engineOutput| - 1]) {
      var once := engineOutput[..|engineOutput| - 1];
      assert TrailingLineBreaks(engineOutput) == 1 + TrailingLineBreaks(once);
      if |once| > 0 && IsLineBreak(once[|once| - 1]) {
        assert TrailingLineBreaks(once) == 1 + TrailingLineBreaks(once[..|once| - 1]);
        assert once[..|once| - 1] == engineOutput[..|engineOutput| - 2];
      }
    }
  }

  /** What the clean-up keeps: a prefix of the engine's output, shorter by at
      most two; only line-break nodes go, and all of them when there are at
      most two, exactly two when there are more. */
  lemma TrimSpec(nodes: seq<MarkdownAst>)
    ensures var r := nodes[..|nodes| - Min(TrailingLineBreaks(nodes), 2)];
      |nodes| - 2 <= |r| <= |nodes|
      && (forall i :: |r| <= i < |nodes| ==> IsLineBreak(nodes[i]))
      && (TrailingLineBreaks(nodes) <= 2 ==> |r| == 0 || !IsLineBreak(r[|r| - 1]))
      && (TrailingLineBreaks(nodes) >= 3 ==> |r| == |nodes| - 2)
      && (|nodes| > 0 && !IsLineBreak(nodes[|nodes| - 1]) ==> r == nodes)
  {
  }
}
