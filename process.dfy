/** The command process (bridge_cmd/process/mod.rs): each command is handed to
    one handler, which calls at most one operation of the bind sessions and
    turns its outcome into a reply. The operation itself is outside this
    module: `CallOf` names the call a command makes, and `Process` takes its
    outcome as a parameter (a token for a new session, nothing otherwise). */
module CommandProcess {
  import opened Wrappers
  import opened Text
  import opened Commands

  /** The commands this process reads: binding carries the optional token
      of a session to answer. */
  datatype ProcCommand =
    | Tips(command: Option<string>)
    | Bind(token: Option<string>)
    | Unbind(platform: string)
    | ConfirmBind

  /** The command, the client it came from and the sender. */
  datatype Context = Context(token: ProcCommand, client: string, senderId: string)

  /** The bind session operations a command can call. */
  datatype BindCall =
    | CreateSession(senderId: string)
    | UpdateResp(token: string, senderId: string)
    | Confirm(senderId: string)
    | Release(senderId: string, platform: string)

  /** The one bind session operation each command calls, if any: a help
      request and an unbind naming the sender's own client call none. */
  function CallOf(ctx: Context): Option<BindCall> {
    match ctx.token
    case Bind(Some(t)) => Some(UpdateResp(t, ctx.senderId))
    case Bind(None) => Some(CreateSession(ctx.senderId))
    case ConfirmBind => Some(Confirm(ctx.senderId))
    case Unbind(p) => if p == ctx.client then None else Some(Release(ctx.senderId, p))
    case Tips(_) => None
  }

  const BIND_HELP: string :=
    "申请关联，获取验证码；或者用验证码回应申请\n用法：" + CMD_BIND + " [口令]\n口令\t\t选填。无口令时申请；有口令时回应申请\n【申请关联】"
    + CMD_BIND + "\n【回应申请】" + CMD_BIND + " 1a2b3c"
  const CONFIRM_HELP: string := "确定保存关联。无参\n用法: " + CMD_CONFIRM_BIND
  const UNBIND_HELP: string :=
    "【解除桥用户关联】解除指定平台的关联\n用法：" + CMD_UNBIND + " <平台>\n平台\t\t必填，单选。选项：QQ、DC=Discord、TG=Telegram\n【用例】"
    + CMD_UNBIND + " DC"
  const COMMAND_LIST: string :=
    "桥的可用指令：\n【申请/回应关联桥用户】" + CMD_BIND + " [口令]\n【确认关联】" + CMD_CONFIRM_BIND
    + "\n【解除桥用户关联】" + CMD_UNBIND + " <平台>"

  /** The help text for a normalised subject. */
  function HelpText(sub: string): string {
    if sub == CMD_BIND then BIND_HELP
    else if sub == CMD_CONFIRM_BIND then CONFIRM_HELP
    else if sub == CMD_UNBIND then UNBIND_HELP
    else COMMAND_LIST
  }

  /** `get_help`: the text for the command a help request names, with '!'
      added when missing. */
  function GetHelp(token: ProcCommand): (r: Feedback)
    ensures r.Ok? && |r.value| == 1 && r.value[0].Plain?
  {
    var sub := if token.Tips? then HelpSubject(token.command) else "";
    SimpleFeedback(HelpText(sub))
  }

  lemma HelpTextsDistinct()
    ensures COMMAND_LIST !in {BIND_HELP, CONFIRM_HELP, UNBIND_HELP}
    ensures CMD_BIND != CMD_UNBIND && CMD_BIND != CMD_CONFIRM_BIND && CMD_UNBIND != CMD_CONFIRM_BIND
    ensures "" !in {CMD_BIND, CMD_UNBIND, CMD_CONFIRM_BIND}
  {
    assert COMMAND_LIST[0] == '桥' && BIND_HELP[0] == '申' && CONFIRM_HELP[0] == '确' && UNBIND_HELP[0] == '【';
    assert CMD_BIND[1] == '绑' && CMD_UNBIND[1] == '解' && CMD_CONFIRM_BIND[1] == '确';
  }

  lemma HelpTextsMention()
    ensures Mentions(BIND_HELP, CMD_BIND)
    ensures Mentions(CONFIRM_HELP, CMD_CONFIRM_BIND)
    ensures Mentions(UNBIND_HELP, CMD_UNBIND)
  {
    var b0 := "申请关联，获取验证码；或者用验证码回应申请\n用法：";
    var b1 := " [口令]\n口令\t\t选填。无口令时申请；有口令时回应申请\n【申请关联】" + CMD_BIND + "\n【回应申请】" + CMD_BIND + " 1a2b3c";
    assert BIND_HELP == b0 + CMD_BIND + b1;
    MentionsInside(b0, CMD_BIND, b1);
    assert CONFIRM_HELP == "确定保存关联。无参\n用法: " + CMD_CONFIRM_BIND + "";
    MentionsInside("确定保存关联。无参\n用法: ", CMD_CONFIRM_BIND, "");
    var u0 := "【解除桥用户关联】解除指定平台的关联\n用法：";
    var u1 := " <平台>\n平台\t\t必填，单选。选项：QQ、DC=Discord、TG=Telegram\n【用例】" + CMD_UNBIND + " DC";
    assert UNBIND_HELP == u0 + CMD_UNBIND + u1;
    MentionsInside(u0, CMD_UNBIND, u1);
  }

  /** Help on a command with or without its '!' is the same reply; a help
      request without a command, or naming no known command, gets the
      command list; each command's help mentions the command. */
  lemma GetHelpSpec(c: string)
    ensures !(|c| > 0 && c[0] == '!') ==> GetHelp(ProcCommand.Tips(Some(c))) == GetHelp(ProcCommand.Tips(Some("!" + c)))
    ensures GetHelp(ProcCommand.Tips(None)) == SimpleFeedback(COMMAND_LIST)
    ensures GetHelp(ProcCommand.Tips(Some(c))) == SimpleFeedback(COMMAND_LIST)
            <==> HelpSubject(Some(c)) !in {CMD_BIND, CMD_UNBIND, CMD_CONFIRM_BIND}
    ensures HelpSubject(Some(c)) in {CMD_BIND, CMD_UNBIND, CMD_CONFIRM_BIND} ==>
              Mentions(GetHelp(ProcCommand.Tips(Some(c))).value[0].text, HelpSubject(Some(c)))
  {
    HelpSubjectNormalises(c);
    HelpTextsDistinct();
    HelpTextsMention();
  }

  /** `process_command` with the outcome of the call `CallOf` names. */
  function Process(ctx: Context, outcome: Result<string, string>): Feedback {
    match ctx.token
    case Bind(Some(_)) =>
      if outcome.Err? then Err("提交失败，请联系管理员处理。")
      else SimpleFeedback("OK，请回到原客户端进行确认。")
    case Bind(None) =>
      if outcome.Err? then Err("申请失败，请联系管理员处理。")
      else SimpleFeedback("申请成功。请切换客户端，使用验证码回应请求: " + outcome.value)
    case ConfirmBind =>
      if outcome.Err? then Err("关联失败，请联系管理员处理。")
      else SimpleFeedback("完成关联。")
    case Unbind(p) =>
      if p == ctx.client then Err("不要做自引用操作")
      else if outcome.Err? then Err("操作失败，请联系管理员处理。")
      else SimpleFeedback("已取消关联。")
    case Tips(_) => GetHelp(ctx.token)
  }

  /** The dispatch: a command that calls no bind operation answers the same
      whatever the outcome; one that calls an operation fails exactly when
      the operation failed; an unbind of the sender's own client is refused
      without a call; a reply is always one plain element, and a new
      session's reply carries its token. */
  lemma ProcessSpec(ctx: Context, outcome: Result<string, string>, other: Result<string, string>)
    ensures CallOf(ctx).None? ==> Process(ctx, outcome) == Process(ctx, other)
    ensures CallOf(ctx).Some? ==> (Process(ctx, outcome).Err? <==> outcome.Err?)
    ensures ctx.token.Unbind? && ctx.token.platform == ctx.client ==>
              CallOf(ctx).None? && Process(ctx, outcome) == Err("不要做自引用操作")
    ensures Process(ctx, outcome).Err? ==> ctx.token.Unbind? || CallOf(ctx).Some?
    ensures Process(ctx, outcome).Ok? ==>
              |Process(ctx, outcome).value| == 1 && Process(ctx, outcome).value[0].Plain?
    ensures ctx.token == ProcCommand.Bind(None) && outcome.Ok? ==>
              EndsWith(Process(ctx, outcome).value[0].text, outcome.value)
  {
    if ctx.token == ProcCommand.Bind(None) && outcome.Ok? {
      var pre := "申请成功。请切换客户端，使用验证码回应请求: ";
      assert (pre + outcome.value)[|pre|..] == outcome.value;
    }
  }
}
