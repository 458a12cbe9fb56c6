/** The help handler of the bridge commands (bridge/command/handler.rs;
    bridge_cmd/default_process.rs holds the same table and the same two
    handlers): a help request answers with the text for the command it
    names, or the list of commands; every other command is not handled yet. */
module CommandHandler {
  import opened Wrappers
  import opened Commands

  const CONFIRM_TIP: string := "【接收绑定申请】无参，用例: " + CMD_CONFIRM_BIND
  const BIND_TIP: string := "【申请绑定桥用户】\n" + CMD_BIND + " qq dong(1111)\n" + CMD_BIND + " dc dong#2222"
  const UNBIND_TIP: string := "【解除桥用户绑定】\n" + CMD_UNBIND + " qq\n" + CMD_UNBIND + " dc"
  const COMMAND_LIST: string :=
    "可用指令：\n【申请绑定桥用户】" + CMD_BIND + " qq dong(1111)\n【解除桥用户绑定】" + CMD_UNBIND
    + " qq\n【接收绑定申请】" + CMD_CONFIRM_BIND

  /** `get_tip_ctx` as written: the unbind word selects the text about
      confirming, and the confirm word the text about unbinding. */
  function TipCtxAsWritten(cmd: string): string {
    if cmd == CMD_UNBIND then CONFIRM_TIP
    else if cmd == CMD_BIND then BIND_TIP
    else if cmd == CMD_CONFIRM_BIND then UNBIND_TIP
    else COMMAND_LIST
  }

  /** `get_tip_ctx` with each text under the command it describes (the
      command list pairs the same headings with the same commands). */
  function TipCtx(cmd: string): string {
    if cmd == CMD_UNBIND then UNBIND_TIP
    else if cmd == CMD_BIND then BIND_TIP
    else if cmd == CMD_CONFIRM_BIND then CONFIRM_TIP
    else COMMAND_LIST
  }

  lemma TipsDistinct()
    ensures COMMAND_LIST != CONFIRM_TIP && COMMAND_LIST != BIND_TIP && COMMAND_LIST != UNBIND_TIP
    ensures CMD_BIND != CMD_UNBIND && CMD_BIND != CMD_CONFIRM_BIND && CMD_UNBIND != CMD_CONFIRM_BIND
  {
    assert COMMAND_LIST[0] == '可' && CONFIRM_TIP[0] == '【' && BIND_TIP[0] == '【' && UNBIND_TIP[0] == '【';
    assert CMD_BIND[1] == '绑' && CMD_UNBIND[1] == '解' && CMD_CONFIRM_BIND[1] == '确';
  }

  lemma TipsMention()
    ensures Mentions(CONFIRM_TIP, CMD_CONFIRM_BIND)
    ensures Mentions(BIND_TIP, CMD_BIND)
    ensures Mentions(UNBIND_TIP, CMD_UNBIND)
  {
    MentionsInside("【接收绑定申请】无参，用例: ", CMD_CONFIRM_BIND, "");
    assert CONFIRM_TIP == "【接收绑定申请】无参，用例: " + CMD_CONFIRM_BIND + "";
    assert BIND_TIP == "【申请绑定桥用户】\n" + CMD_BIND + (" qq dong(1111)\n" + CMD_BIND + " dc dong#2222");
    MentionsInside("【申请绑定桥用户】\n", CMD_BIND, " qq dong(1111)\n" + CMD_BIND + " dc dong#2222");
    assert UNBIND_TIP == "【解除桥用户绑定】\n" + CMD_UNBIND + (" qq\n" + CMD_UNBIND + " dc");
    MentionsInside("【解除桥用户绑定】\n", CMD_UNBIND, " qq\n" + CMD_UNBIND + " dc");
  }

  lemma ListMentions()
    ensures Mentions(COMMAND_LIST, CMD_BIND) && Mentions(COMMAND_LIST, CMD_UNBIND)
            && Mentions(COMMAND_LIST, CMD_CONFIRM_BIND)
  {
    var head := "可用指令：\n【申请绑定桥用户】";
    var mid := " qq dong(1111)\n【解除桥用户绑定】";
    var tail := " qq\n【接收绑定申请】";
    assert COMMAND_LIST == head + CMD_BIND + (mid + CMD_UNBIND + tail + CMD_CONFIRM_BIND);
    MentionsInside(head, CMD_BIND, mid + CMD_UNBIND + tail + CMD_CONFIRM_BIND);
    assert COMMAND_LIST == (head + CMD_BIND + mid) + CMD_UNBIND + (tail + CMD_CONFIRM_BIND);
    MentionsInside(head + CMD_BIND + mid, CMD_UNBIND, tail + CMD_CONFIRM_BIND);
    assert COMMAND_LIST == (head + CMD_BIND + mid + CMD_UNBIND + tail) + CMD_CONFIRM_BIND + "";
    MentionsInside(head + CMD_BIND + mid + CMD_UNBIND + tail, CMD_CONFIRM_BIND, "");
  }

  /** Every command has a text, and the list of commands is the answer
      exactly for a subject that is none of the three commands; the text of
      each command mentions that command, and so does the list. */
  lemma TipCtxSpec(cmd: string)
    ensures TipCtx(cmd) == COMMAND_LIST <==> cmd !in {CMD_BIND, CMD_UNBIND, CMD_CONFIRM_BIND}
    ensures cmd in {CMD_BIND, CMD_UNBIND, CMD_CONFIRM_BIND} ==> Mentions(TipCtx(cmd), cmd)
    ensures Mentions(COMMAND_LIST, CMD_BIND) && Mentions(COMMAND_LIST, CMD_UNBIND)
            && Mentions(COMMAND_LIST, CMD_CONFIRM_BIND)
  {
    TipsDistinct();
    TipsMention();
    ListMentions();
  }

  /** As written, the help on unbinding does not mention the unbind word and
      the help on confirming does not mention the confirm word: the two
      texts are swapped. */
  lemma TipCtxAsWrittenSwapped()
    ensures TipCtxAsWritten(CMD_UNBIND) == TipCtx(CMD_CONFIRM_BIND)
    ensures TipCtxAsWritten(CMD_CONFIRM_BIND) == TipCtx(CMD_UNBIND)
    ensures !Mentions(TipCtxAsWritten(CMD_UNBIND), CMD_UNBIND)
    ensures !Mentions(TipCtxAsWritten(CMD_CONFIRM_BIND), CMD_CONFIRM_BIND)
  {
    TipsDistinct();
    assert CMD_UNBIND[1] == '解' && CMD_CONFIRM_BIND[1] == '确';
    assert forall k :: 0 <= k < |CONFIRM_TIP| ==> CONFIRM_TIP[k] != '解';
    MissingCharNotMentioned(CONFIRM_TIP, CMD_UNBIND);
    assert forall k :: 0 <= k < |UNBIND_TIP| ==> UNBIND_TIP[k] != '确';
    MissingCharNotMentioned(UNBIND_TIP, CMD_CONFIRM_BIND);
  }

  /** The subject `get_help` looks up: the named command with one leading
      '!', or nothing. */
  function Subject(token: BridgeCommand): (sub: string)
    ensures sub == "" <==> !(token.Tips? && token.command.Some?)
  {
    if token.Tips? then HelpSubject(token.command) else ""
  }

  /** `get_help` as written: the normalised subject looked up in the
      as-written table. */
  function GetHelpAsWritten(token: BridgeCommand): (r: Feedback)
    ensures r.Ok? && |r.value| == 1 && r.value[0].Plain?
  {
    SimpleFeedback(TipCtxAsWritten(Subject(token)))
  }

  /** `get_help` with each text under the command it describes. */
  function GetHelp(token: BridgeCommand): (r: Feedback)
    ensures r.Ok? && |r.value| == 1 && r.value[0].Plain?
  {
    SimpleFeedback(TipCtx(Subject(token)))
  }

  /** As written, a help request on unbinding answers with the text on
      confirming and the reverse; every other request gets the same answer
      from both tables. */
  lemma GetHelpAsWrittenSwapped(token: BridgeCommand)
    ensures GetHelpAsWritten(Tips(Some("解除绑定"))) == SimpleFeedback(CONFIRM_TIP)
    ensures GetHelp(Tips(Some("解除绑定"))) == SimpleFeedback(UNBIND_TIP)
    ensures GetHelpAsWritten(Tips(Some("确认绑定"))) == SimpleFeedback(UNBIND_TIP)
    ensures GetHelp(Tips(Some("确认绑定"))) == SimpleFeedback(CONFIRM_TIP)
    ensures Subject(token) != CMD_UNBIND && Subject(token) != CMD_CONFIRM_BIND ==>
              GetHelpAsWritten(token) == GetHelp(token)
  {
    TipsDistinct();
    assert HelpSubject(Some("解除绑定")) == CMD_UNBIND;
    assert HelpSubject(Some("确认绑定")) == CMD_CONFIRM_BIND;
  }

  /** Corrected, the help on each of the three commands mentions that
      command. */
  lemma GetHelpMentions(c: string)
    ensures Subject(Tips(Some(c))) in {CMD_BIND, CMD_UNBIND, CMD_CONFIRM_BIND} ==>
              Mentions(GetHelp(Tips(Some(c))).value[0].text, Subject(Tips(Some(c))))
  {
    var sub := Subject(Tips(Some(c)));
    TipCtxSpec(sub);
    assert GetHelp(Tips(Some(c))).value[0].text == TipCtx(sub);
  }

  /** As written, the help on unbinding and the help on confirming do not
      mention their own command. */
  lemma GetHelpAsWrittenMisses()
    ensures !Mentions(GetHelpAsWritten(Tips(Some("解除绑定"))).value[0].text, CMD_UNBIND)
    ensures !Mentions(GetHelpAsWritten(Tips(Some("确认绑定"))).value[0].text, CMD_CONFIRM_BIND)
  {
    TipCtxAsWrittenSwapped();
    assert HelpSubject(Some("解除绑定")) == CMD_UNBIND;
    assert HelpSubject(Some("确认绑定")) == CMD_CONFIRM_BIND;
  }

  /** A help request names a command with or without '!' to the same
      effect, and a request that names no known command gets the list. */
  lemma GetHelpSpec(c: string)
    ensures !(|c| > 0 && c[0] == '!') ==> GetHelp(Tips(Some(c))) == GetHelp(Tips(Some("!" + c)))
    ensures GetHelp(Tips(None)) == SimpleFeedback(COMMAND_LIST)
    ensures HelpSubject(Some(c)) !in {CMD_BIND, CMD_UNBIND, CMD_CONFIRM_BIND} ==>
              GetHelp(Tips(Some(c))) == SimpleFeedback(COMMAND_LIST)
    ensures GetHelp(Tips(Some("绑定"))) == SimpleFeedback(BIND_TIP)
    ensures !(|c| > 0 && c[0] == '!') ==>
              GetHelpAsWritten(Tips(Some(c))) == GetHelpAsWritten(Tips(Some("!" + c)))
    ensures GetHelpAsWritten(Tips(None)) == SimpleFeedback(COMMAND_LIST)
    ensures HelpSubject(Some(c)) !in {CMD_BIND, CMD_UNBIND, CMD_CONFIRM_BIND} ==>
              GetHelpAsWritten(Tips(Some(c))) == SimpleFeedback(COMMAND_LIST)
  {
    HelpSubjectNormalises(c);
    TipsDistinct();
    assert HelpSubject(Some("绑定")) == CMD_BIND;
    assert "" != CMD_BIND && "" != CMD_UNBIND && "" != CMD_CONFIRM_BIND;
  }

  /** `process` as written: help is answered from the as-written table,
      every other command fails with "TODO". */
  function ProcessAsWritten(token: BridgeCommand): (r: Feedback)
    ensures r.Ok? <==> token.Tips?
    ensures r.Err? ==> r.error == "TODO"
    ensures r.Ok? ==> r == GetHelpAsWritten(token)
  {
    match token
    case Tips(_) => GetHelpAsWritten(token)
    case _ => Err("TODO")
  }

  /** `process` answering help from the corrected table. */
  function Process(token: BridgeCommand): (r: Feedback)
    ensures r.Ok? <==> token.Tips?
    ensures r.Err? ==> r.error == "TODO"
    ensures r.Ok? ==> r == GetHelp(token)
  {
    match token
    case Tips(_) => GetHelp(token)
    case _ => Err("TODO")
  }
}
