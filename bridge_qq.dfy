/** The QQ side of the bridge (bridge_qq/mod.rs): how a bridge message is
    turned into the QQ message chain sent to the group, how a mention of a
    bridge user becomes a QQ mention or text, and the user record a QQ
    member is registered as. The user table lookups are a directory given
    as a parameter, and the image upload a map from URL to the uploaded
    group image (a URL missing from it failed to upload). */
module QQBridge {
  import opened Wrappers
  import opened Decimal
  import opened Bridge
  import UM = UserManager

  /** The QQ message elements the bridge sends. */
  datatype QQElem = Text(text: string) | AtMember(target: int) | GroupImage(image: string)

  /** What the bridge knows of a bridge user: its platform, its display
      text, and the id of the user linked to it on QQ, if any. */
  datatype KnownUser = KnownUser(platform: string, displayText: string, qqRef: Option<string>)

  type Directory = map<string, KnownUser>
  type Uploads = map<string, string>

  /** The element a mention of `target` becomes: "[UN]" text for an unknown
      user, a QQ mention when the linked QQ id is a number, the user's
      platform and display text otherwise. */
  function AtElem(target: string, dir: Directory): (e: QQElem)
    ensures target !in dir ==> e == Text("@[UN] " + target)
    ensures e.AtMember? <==> target in dir && dir[target].qqRef.Some? && ParseI64(dir[target].qqRef.value).Some?
    ensures e.AtMember? ==> e.target == ParseI64(dir[target].qqRef.value).value && I64_MIN <= e.target <= I64_MAX
    ensures target in dir && !e.AtMember? ==>
              e == Text("@[" + dir[target].platform + "] " + dir[target].displayText)
  {
    if target !in dir then Text("@[UN] " + target)
    else
      var user := dir[target];
      if user.qqRef.Some? && ParseI64(user.qqRef.value).Some? then AtMember(ParseI64(user.qqRef.value).value)
      else Text("@[" + user.platform + "] " + user.displayText)
  }

  /** A QQ message chain being assembled. */
  class SendContent {
    var elems: seq<QQElem>

    constructor ()
      ensures elems == []
    {
      elems := [];
    }

    method Push(e: QQElem)
      modifies this
      ensures elems == old(elems) + [e]
    {
      elems := elems + [e];
    }
  }

  /** `proc_at`: append the element for a mention, and nothing else. */
  method ProcAt(target: string, content: SendContent, dir: Directory)
    modifies content
    ensures content.elems == old(content.elems) + [AtElem(target, dir)]
  {
    if target !in dir {
      content.Push(Text("@[UN] " + target));
      return;
    }
    var user := dir[target];
    if user.qqRef.Some? {
      var parsed := ParseI64(user.qqRef.value);
      if parsed.Some? {
        content.Push(AtMember(parsed.value));
        return;
      }
    }
    content.Push(Text("@[" + user.platform + "] " + user.displayText));
  }

  /** The elements one bridge element becomes: text stays text, a mention
      goes through `AtElem`, an image by URL is the uploaded image (nothing
      when the upload failed), an image by path nothing, and anything else
      the placeholder text. */
  function SyncedElems(c: MessageContent, dir: Directory, uploads: Uploads): seq<QQElem> {
    match c
    case Plain(text) => [Text(text)]
    case At(id) => [AtElem(id, dir)]
    case ImageContent(image) =>
      if image.Url? && image.url in uploads then [GroupImage(uploads[image.url])] else []
    case _ => [Text("{未处理的桥信息}")]
  }

  /** The elements of a whole bridge chain, in order. */
  function SyncedChain(chain: MessageChain, dir: Directory, uploads: Uploads): seq<QQElem>
    decreases |chain|
  {
    if |chain| == 0 then []
    else SyncedChain(chain[..|chain| - 1], dir, uploads) + SyncedElems(chain[|chain| - 1], dir, uploads)
  }

  /** The sender's avatar (when it uploads) and name line. */
  function SenderHeader(user: User, uploads: Uploads): seq<QQElem> {
    (if user.avatarUrl.Some? && user.avatarUrl.value in uploads then [GroupImage(uploads[user.avatarUrl.value])] else [])
    + [Text(user.name + "\n")]
  }

  /** The body of the `sync_message` loop for one bridge message: the
      sender header, then each element of the chain. */
  method SyncMessage(user: User, chain: MessageChain, dir: Directory, uploads: Uploads) returns (sent: seq<QQElem>)
    ensures sent == SenderHeader(user, uploads) + SyncedChain(chain, dir, uploads)
  {
    var content := new SendContent();
    if user.avatarUrl.Some? && user.avatarUrl.value in uploads {
      content.Push(GroupImage(uploads[user.avatarUrl.value]));
    }
    content.Push(Text(user.name + "\n"));
    PushChain(chain, content, dir, uploads);
    sent := content.elems;
  }

  /** The element loop of `sync_message`. */
  method PushChain(chain: MessageChain, content: SendContent, dir: Directory, uploads: Uploads)
    modifies content
    ensures content.elems == old(content.elems) + SyncedChain(chain, dir, uploads)
  {
    ghost var start := content.elems;
    var i := 0;
    while i < |chain|
      invariant 0 <= i <= |chain|
      invariant content.elems == start + SyncedChain(chain[..i], dir, uploads)
    {
      PushElement(chain[i], content, dir, uploads);
      SyncedStep(chain, i, dir, uploads);
      AppendAssoc(start, SyncedChain(chain[..i], dir, uploads), SyncedElems(chain[i], dir, uploads));
      i := i + 1;
    }
    assert chain[..i] == chain;
  }

  lemma SyncedStep(chain: MessageChain, i: nat, dir: Directory, uploads: Uploads)
    requires i < |chain|
    ensures SyncedChain(chain[..i + 1], dir, uploads) == SyncedChain(chain[..i], dir, uploads) + SyncedElems(chain[i], dir, uploads)
  {
    assert chain[..i + 1][..i] == chain[..i];
  }

  lemma AppendAssoc(a: seq<QQElem>, b: seq<QQElem>, c: seq<QQElem>)
    ensures a + b + c == a + (b + c)
  {
  }

  /** One turn of the element loop of `sync_message`. */
  method PushElement(c: MessageContent, content: SendContent, dir: Directory, uploads: Uploads)
    modifies content
    ensures content.elems == old(content.elems) + SyncedElems(c, dir, uploads)
  {
    match c {
      case Plain(text) => content.Push(Text(text));
      case At(id) => ProcAt(id, content, dir);
      case ImageContent(image) =>
        if image.Url? && image.url in uploads {
          content.Push(GroupImage(uploads[image.url]));
        }
      case _ => content.Push(Text("{未处理的桥信息}"));
    }
  }

  /** Every bridge element becomes at most one QQ element, exactly one
      unless it is an image that is not sent; mentions and texts keep their
      order; no placeholder text comes from a text, mention or image. */
  lemma {:induction false} SyncedChainSpec(chain: MessageChain, dir: Directory, uploads: Uploads)
    ensures |SyncedChain(chain, dir, uploads)| <= |chain|
    ensures (forall i :: 0 <= i < |chain| ==> !chain[i].ImageContent?) ==>
              |SyncedChain(chain, dir, uploads)| == |chain|
    ensures (forall i :: 0 <= i < |chain| ==> chain[i].Plain?) ==>
              SyncedChain(chain, dir, uploads) == seq(|chain|, i requires 0 <= i < |chain| => Text(chain[i].text))
    decreases |chain|
  {
    if |chain| > 0 {
      var init := chain[..|chain| - 1];
      SyncedChainSpec(init, dir, uploads);
      if forall i :: 0 <= i < |chain| ==> chain[i].Plain? {
        var s := SyncedChain(chain, dir, uploads);
        var t := seq(|chain|, i requires 0 <= i < |chain| => Text(chain[i].text));
        assert forall i :: 0 <= i < |init| ==> init[i] == chain[i];
        assert SyncedChain(init, dir, uploads) == t[..|init|];
        assert s == t[..|init|] + [t[|chain| - 1]];
        assert t == t[..|init|] + [t[|chain| - 1]];
      }
    }
  }

  /** The display text a QQ member is registered with: name and id in
      parentheses. */
  function QQDisplay(name: string, id: nat): string {
    name + "(" + NatToString(id) + ")"
  }

  /** `apply_bridge_user`: the save form for a QQ member; the id is its
      decimal text, and the display text ends with it in parentheses. */
  function ApplyBridgeUser(id: nat, name: string): (f: UM.SaveForm)
    requires id <= U64_MAX
    ensures f.platform == "QQ" && ParseU64(f.originId) == Some(id)
    ensures f.displayText == name + "(" + f.originId + ")"
  {
    ParseUnsignedOfString(id, U64_MAX);
    UM.SaveForm(NatToString(id), "QQ", QQDisplay(name, id))
  }

  /** A registered QQ member mentioned through a bridge user linked to it
      becomes a real QQ mention of that member. */
  lemma LinkedMemberIsMentioned(target: string, dir: Directory, id: nat)
    requires id <= I64_MAX
    requires target in dir && dir[target].qqRef == Some(NatToString(id))
    ensures AtElem(target, dir) == AtMember(id)
  {
    ParseSignedOfString(id, I64_MIN, I64_MAX);
    assert IntToString(id) == NatToString(id);
  }
}
