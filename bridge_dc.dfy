/** The Discord side of the bridge (bridge_dc/mod.rs): how a mention of a
    bridge user is written in a message sent to Discord, how the message a
    Discord message replies to is quoted, and the user record a Discord
    member is registered as. The user table lookups (`get`, and the user
    linked on Discord) are a directory given as a parameter. */
module DiscordBridge {
  import opened Wrappers
  import opened Text
  import opened Decimal
  import opened Bridge
  import MM = MessageManager
  import UM = UserManager

  /** A user linked to a bridge user on another platform: its id there and
      how it is written. */
  datatype RefUser = RefUser(originId: string, shown: string)

  /** What the bridge knows of a bridge user: its display text, how it is
      written, and the user linked to it on Discord, if any. */
  datatype KnownUser = KnownUser(displayText: string, shown: string, dcRef: Option<RefUser>)

  type Directory = map<string, KnownUser>

  /** A mention in a message sent to Discord: an unknown user as "[UN]"
      text, a user linked on Discord as a real Discord mention, anyone else
      by name. */
  function OutboundAt(id: string, dir: Directory): (r: string)
    ensures id !in dir ==> r == "@[UN] " + id
    ensures id in dir && dir[id].dcRef.Some? ==> r == "<@" + dir[id].dcRef.value.originId + ">"
    ensures id in dir && dir[id].dcRef.None? ==> r == "@" + dir[id].shown
  {
    if id !in dir then "@[UN] " + id
    else match dir[id].dcRef
      case Some(ref) => "<@" + ref.originId + ">"
      case None => "@" + dir[id].shown
  }

  /** A mention inside a quoted reply: always plain text, the linked
      Discord user's name when there is one. */
  function ReplyAt(id: string, dir: Directory): (r: string)
    ensures id !in dir ==> r == "@[UN] " + id
    ensures id in dir && dir[id].dcRef.Some? ==> r == "@" + dir[id].dcRef.value.shown
    ensures id in dir && dir[id].dcRef.None? ==> r == "@" + dir[id].shown
  {
    if id !in dir then "@[UN] " + id
    else match dir[id].dcRef
      case Some(ref) => "@" + ref.shown
      case None => "@" + dir[id].shown
  }

  /** Only an unknown user or one linked on Discord is written differently
      in a quote than in a message; a quote never holds a Discord mention
      tag unless the text itself does. */
  lemma AtRulesAgree(id: string, dir: Directory)
    ensures id !in dir || dir[id].dcRef.None? ==> OutboundAt(id, dir) == ReplyAt(id, dir)
    ensures id in dir && dir[id].dcRef.Some? ==> OutboundAt(id, dir)[..2] == "<@" && ReplyAt(id, dir)[0] == '@'
    ensures OutboundAt(id, dir)[0] in "@<" && ReplyAt(id, dir)[0] == '@'
  {
  }

  /** The text one element of the replied-to message contributes. */
  function ReplyPiece(c: MessageContent, dir: Directory): string {
    match c
    case Plain(text) => text
    case ImageContent(_) => "[图片]"
    case Reply(_) => "[回复消息]"
    case At(id) => ReplyAt(id, dir)
    case _ => ""
  }

  /** The replied-to message's elements, written one after the other. */
  function ReplyBody(chain: MessageChain, dir: Directory): string
    decreases |chain|
  {
    if |chain| == 0 then ""
    else ReplyBody(chain[..|chain| - 1], dir) + ReplyPiece(chain[|chain| - 1], dir)
  }

  /** The replied-to sender: the display text of a known user, "[UN]" and
      the id otherwise. */
  function ReplyName(senderId: string, dir: Directory): string {
    if senderId in dir then dir[senderId].displayText else "[UN] " + senderId
  }

  function ReplyHeader(name: string): string {
    "回复 @" + name + " 的消息\n"
  }

  /** The text that is quoted. */
  function ReplyText(reply: MM.MessagePO, dir: Directory): string {
    ReplyHeader(ReplyName(reply.senderId, dir)) + ReplyBody(reply.chain, dir)
  }

  /** Each line as a quote line. */
  function Quote(lines: seq<string>): (q: seq<string>)
    ensures |q| == |lines| && forall i :: 0 <= i < |lines| ==> q[i] == "> " + lines[i] + "\n"
  {
    seq(|lines|, i requires 0 <= i < |lines| => "> " + lines[i] + "\n")
  }

  /** `to_reply_content`: write the header and the elements into one text,
      then quote it line by line. */
  method ToReplyContent(reply: MM.MessagePO, dir: Directory) returns (result: seq<string>)
    ensures result == Quote(Split(ReplyText(reply, dir), '\n'))
  {
    var user := if reply.senderId in dir then dir[reply.senderId].displayText else "[UN] " + reply.senderId;
    var content := "回复 @" + user + " 的消息\n";
    content := WriteElements(content, reply.chain, dir);
    var splis := Split(content, '\n');
    result := QuoteLines(splis);
  }

  /** The element loop of `to_reply_content`: append each element's text. */
  method WriteElements(start: string, chain: MessageChain, dir: Directory) returns (content: string)
    ensures content == start + ReplyBody(chain, dir)
  {
    content := start;
    var i := 0;
    while i < |chain|
      invariant 0 <= i <= |chain|
      invariant content == start + ReplyBody(chain[..i], dir)
    {
      assert chain[..i + 1][..i] == chain[..i];
      var piece := "";
      match chain[i] {
        case Plain(text) => piece := text;
        case ImageContent(_) => piece := "[图片]";
        case Reply(_) => piece := "[回复消息]";
        case At(id) =>
          if id !in dir {
            piece := "@[UN] " + id;
          } else if dir[id].dcRef.Some? {
            piece := "@" + dir[id].dcRef.value.shown;
          } else {
            piece := "@" + dir[id].shown;
          }
        case _ =>
      }
      assert piece == ReplyPiece(chain[i], dir);
      AppendPiece(start, content, chain[..i + 1], dir);
      content := content + piece;
      i := i + 1;
    }
    assert chain[..i] == chain;
  }

  lemma AppendPiece(start: string, content: string, chain: MessageChain, dir: Directory)
    requires |chain| > 0 && content == start + ReplyBody(chain[..|chain| - 1], dir)
    ensures content + ReplyPiece(chain[|chain| - 1], dir) == start + ReplyBody(chain, dir)
  {
  }

  /** The quoting loop of `to_reply_content`. */
  method QuoteLines(splis: seq<string>) returns (result: seq<string>)
    ensures result == Quote(splis)
  {
    result := [];
    var j := 0;
    while j < |splis|
      invariant 0 <= j <= |splis|
      invariant result == Quote(splis[..j])
    {
      result := result + ["> " + splis[j] + "\n"];
      j := j + 1;
    }
    assert splis[..j] == splis;
  }

  /** The inside of a quote line. */
  function Unquote(line: string): string
    requires |line| >= 3
  {
    line[2..|line| - 1]
  }

  /** Quoting loses nothing: every line is "> ", one line of the text
      without a line break, and "\n"; the insides joined with line breaks
      give the text back; and the first line is the header when the sender's
      name has no line break. */
  lemma {:induction false} QuoteSpec(text: string, name: string, body: string)
    requires text == ReplyHeader(name) + body
    ensures var q := Quote(Split(text, '\n'));
      |q| >= 2
      && (forall i :: 0 <= i < |q| ==> |q[i]| >= 3 && q[i][..2] == "> " && q[i][|q[i]| - 1] == '\n'
                                        && '\n' !in Unquote(q[i]))
      && Join(seq(|q|, i requires 0 <= i < |q| => Unquote(q[i])), '\n') == text
      && ('\n' !in name ==> q[0] == "> 回复 @" + name + " 的消息\n")
  {
    var lines := Split(text, '\n');
    var q := Quote(lines);
    SplitPiecesFree(text, '\n');
    JoinSplit(text, '\n');
    forall i | 0 <= i < |q|
      ensures |q[i]| >= 3 && Unquote(q[i]) == lines[i]
    {
      assert q[i] == "> " + lines[i] + "\n";
    }
    assert seq(|q|, i requires 0 <= i < |q| => Unquote(q[i])) == lines;
    HeaderFirstLine(name, body);
  }

  /** The reply text has at least two lines, and the first is the header
      line when the name has no line break. */
  lemma HeaderFirstLine(name: string, body: string)
    ensures |Split(ReplyHeader(name) + body, '\n')| >= 2
    ensures '\n' !in name ==> Split(ReplyHeader(name) + body, '\n')[0] == "回复 @" + name + " 的消息"
  {
    var text := ReplyHeader(name) + body;
    var head := "回复 @" + name + " 的消息";
    assert text == head + ['\n'] + body;
    if '\n' !in name {
      assert '\n' !in head by {
        forall k | 0 <= k < |head| ensures head[k] != '\n' {
          if 4 <= k < 4 + |name| { assert head[k] == name[k - 4]; }
        }
      }
      SplitAfterPiece(head, '\n', body);
    } else {
      var k :| 0 <= k < |name| && name[k] == '\n';
      assert head[4 + k] == '\n';
      SplitTwoSeparators(text, 4 + k, |head|);
    }
    SplitAtLeastTwo(text, |head|);
  }

  /** A text with a line break has at least two lines. */
  lemma {:induction false} SplitAtLeastTwo(s: string, k: nat)
    requires k < |s| && s[k] == '\n'
    ensures |Split(s, '\n')| >= 2
    decreases |s|
  {
    if k > 0 {
      SplitAtLeastTwo(s[1..], k - 1);
    }
  }

  lemma {:induction false} SplitTwoSeparators(s: string, j: nat, k: nat)
    requires j < |s| && k < |s| && s[j] == '\n'
    ensures |Split(s, '\n')| >= 2
  {
    SplitAtLeastTwo(s, j);
  }

  /** The display text a Discord member is registered with: name, '#',
      discriminator. */
  function DcDisplay(name: string, discriminator: nat): string {
    name + "#" + NatToString(discriminator)
  }

  /** `apply_bridge_user`: the save form for a Discord member. */
  function ApplyBridgeUser(id: nat, name: string, discriminator: nat): (f: UM.SaveForm)
    requires id <= U64_MAX && discriminator <= U16_MAX
    ensures f.platform == "DC" && ParseU64(f.originId) == Some(id)
  {
    ParseUnsignedOfString(id, U64_MAX);
    UM.SaveForm(NatToString(id), "DC", DcDisplay(name, discriminator))
  }

  /** The text after the last '#'. */
  function AfterLastHash(s: string): string
    decreases |s|
  {
    if |s| == 0 then s
    else if s[|s| - 1] == '#' then ""
    else AfterLastHash(s[..|s| - 1]) + [s[|s| - 1]]
  }

  /** The discriminator can be read back from the display text, whatever
      the name (a '#' in it included). */
  lemma DisplayDiscriminator(name: string, discriminator: nat)
    requires discriminator <= U16_MAX
    ensures AfterLastHash(DcDisplay(name, discriminator)) == NatToString(discriminator)
    ensures ParseUnsigned(AfterLastHash(DcDisplay(name, discriminator)), U16_MAX) == Some(discriminator)
    ensures DcDisplay(name, discriminator)[..|name|] == name
  {
    var d := NatToString(discriminator);
    AfterLastHashDigits(name + "#", d);
    ParseUnsignedOfString(discriminator, U16_MAX);
    assert DcDisplay(name, discriminator) == name + "#" + d;
  }

  lemma {:induction false} AfterLastHashDigits(pre: string, d: string)
    requires |pre| > 0 && pre[|pre| - 1] == '#' && AllDigits(d)
    ensures AfterLastHash(pre + d) == d
    decreases |d|
  {
    if |d| == 0 {
      assert pre + d == pre;
    } else {
      var s := pre + d;
      assert s[..|s| - 1] == pre + d[..|d| - 1];
      assert s[|s| - 1] == d[|d| - 1] != '#';
      AfterLastHashDigits(pre, d[..|d| - 1]);
      assert d[..|d| - 1] + [d[|d| - 1]] == d;
    }
  }
}
