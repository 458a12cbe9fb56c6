/** The bridge commands as the command parser yields them
    (bridge/command/mod.rs and bridge_cmd/mod.rs declare the same four), the
    command words, and the normalisation every help handler applies to the
    command a help request names. */
module Commands {
  import opened Wrappers
  import opened Bridge

  const CMD_TIP: string := "!help"
  const CMD_BIND: string := "!绑定"
  const CMD_UNBIND: string := "!解除绑定"
  const CMD_CONFIRM_BIND: string := "!确认绑定"

  /** A parsed command: help (optionally about one command), bind a user
      of a platform, unbind a platform, confirm a bind. */
  datatype BridgeCommand =
    | Tips(command: Option<string>)
    | Bind(platform: string, user: string)
    | Unbind(platform: string)
    | ConfirmBind

  /** What a command handler answers: message elements, or a failure text. */
  type Feedback = Result<MessageChain, string>

  /** The command a help request is about, with '!' put in front when it is
      missing; no command is the empty subject. */
  function HelpSubject(command: Option<string>): (r: string)
    ensures command.None? <==> r == ""
    ensures command.Some? ==> |r| > 0 && r[0] == '!'
    ensures command.Some? ==> r == command.value || r == "!" + command.value
  {
    match command
    case None => ""
    case Some(c) => if |c| > 0 && c[0] == '!' then c else "!" + c
  }

  /** Asking for help on a command with or without its '!' is the same
      request, and normalising twice changes nothing. */
  lemma HelpSubjectNormalises(c: string)
    ensures !(|c| > 0 && c[0] == '!') ==> HelpSubject(Some(c)) == HelpSubject(Some("!" + c))
    ensures HelpSubject(Some(HelpSubject(Some(c)))) == HelpSubject(Some(c))
    ensures |c| > 0 && c[0] == '!' ==> HelpSubject(Some(c)) == c
  {
    assert ("!" + c)[0] == '!';
  }

  /** The word occurs in the text at position `i`. */
  predicate OccursAt(text: string, word: string, i: nat) {
    i + |word| <= |text| && text[i..i + |word|] == word
  }

  /** The text contains the command word. */
  ghost predicate Mentions(text: string, word: string) {
    exists i: nat :: OccursAt(text, word, i)
  }

  lemma MentionsInside(before: string, word: string, after: string)
    ensures Mentions(before + word + after, word)
  {
    var t := before + word + after;
    assert t[|before|..|before| + |word|] == word;
    assert OccursAt(t, word, |before|);
  }

  /** A text without the second character of the word does not mention it. */
  lemma MissingCharNotMentioned(text: string, word: string)
    requires |word| > 1 && word[1] !in text
    ensures !Mentions(text, word)
  {
    forall i: nat | i + |word| <= |text|
      ensures !OccursAt(text, word, i)
    {
      assert text[i..i + |word|][1] == text[i + 1] && text[i + 1] in text;
    }
  }

  /** `simple_feedback`: a reply of one plain element with the text. */
  function SimpleFeedback(text: string): (r: Feedback)
    ensures r.Ok? && |r.value| == 1 && r.value[0] == Plain(text)
  {
    Ok([Plain(text)])
  }
}
