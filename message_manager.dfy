/** The store of bridge messages with their sender (bridge/manager/message_manager.rs):
    each bridge message records the platform messages it was relayed as
    (its refs). The list is kept in memory and rewritten to disk after each
    change; the write is not modelled. The uuid of a new message is a
    parameter. */
module MessageManager {
  import opened Wrappers
  import opened Bridge

  /** A platform message a bridge message is relayed as. */
  datatype MessageRef = MessageRef(platform: string, originId: string)

  datatype MessagePO = MessagePO(
    id: string,
    refs: seq<MessageRef>,
    senderId: string,
    avatarUrl: Option<string>,
    chain: MessageChain)

  /** What `save` receives (the form's sender field is read as `sender_id`). */
  datatype SendForm = SendForm(senderId: string, avatarUrl: Option<string>, chain: MessageChain, origin: MessageRef)

  /** What `ref_bridge_message` receives. */
  datatype RefForm = RefForm(bridgeMessageId: string, platform: string, originId: string)

  /** The position of the first occurrence of `id`. */
  function FirstIndexOf(ids: seq<string>, id: string): (r: Option<nat>)
    ensures r.Some? ==> r.value < |ids| && ids[r.value] == id && forall j :: 0 <= j < r.value ==> ids[j] != id
    ensures r.None? <==> id !in ids
  {
    if |ids| == 0 then None
    else if ids[0] == id then Some(0)
    else
      match FirstIndexOf(ids[1..], id)
      case None => None
      case Some(k) => Some(k + 1)
  }

  function Ids(msgs: seq<MessagePO>): (r: seq<string>)
    ensures |r| == |msgs| && forall i :: 0 <= i < |msgs| ==> r[i] == msgs[i].id
  {
    seq(|msgs|, i requires 0 <= i < |msgs| => msgs[i].id)
  }

  /** `get`: the first message with the id. */
  function Find(msgs: seq<MessagePO>, id: string): Option<MessagePO> {
    match FirstIndexOf(Ids(msgs), id)
    case None => None
    case Some(i) => Some(msgs[i])
  }

  /** What `get` answers: the first message with the id, and nothing
      exactly when no message has it. */
  lemma FindSpec(msgs: seq<MessagePO>, id: string)
    ensures Find(msgs, id).None? <==> forall i :: 0 <= i < |msgs| ==> msgs[i].id != id
    ensures Find(msgs, id).Some? ==>
      exists i :: 0 <= i < |msgs| && msgs[i] == Find(msgs, id).value && msgs[i].id == id
                  && forall j :: 0 <= j < i ==> msgs[j].id != id
  {
    if FirstIndexOf(Ids(msgs), id).None? {
      forall i | 0 <= i < |msgs|
        ensures msgs[i].id != id
      {
        assert Ids(msgs)[i] == msgs[i].id;
      }
    }
  }

  /** A message saved under a new id is what `get` then finds, and `get`
      of any other id is unaffected. */
  lemma FindAfterAppend(msgs: seq<MessagePO>, m: MessagePO, id: string)
    requires m.id !in Ids(msgs)
    ensures Find(msgs + [m], m.id) == Some(m)
    ensures id != m.id ==> Find(msgs + [m], id) == Find(msgs, id)
  {
    assert Ids(msgs + [m]) == Ids(msgs) + [m.id];
    FirstIndexAppend(Ids(msgs), m.id, m.id);
    FirstIndexAppend(Ids(msgs), m.id, id);
  }

  lemma {:induction false} FirstIndexAppend(ids: seq<string>, x: string, id: string)
    ensures FirstIndexOf(ids + [x], id) ==
      (if id in ids then FirstIndexOf(ids, id) else if id == x then Some(|ids|) else None)
    decreases |ids|
  {
    if |ids| > 0 && ids[0] != id {
      assert (ids + [x])[1..] == ids[1..] + [x];
      FirstIndexAppend(ids[1..], x, id);
    }
  }

  /** The message has a ref from that platform message. */
  predicate HasRef(m: MessagePO, originId: string, platform: string) {
    exists k :: 0 <= k < |m.refs| && m.refs[k].originId == originId && m.refs[k].platform == platform
  }

  /** The messages with a ref from that platform message, in order. */
  function Referencing(msgs: seq<MessagePO>, originId: string, platform: string): seq<MessagePO>
    decreases |msgs|
  {
    if |msgs| == 0 then []
    else
      var last := msgs[|msgs| - 1];
      Referencing(msgs[..|msgs| - 1], originId, platform)
      + (if HasRef(last, originId, platform) then [last] else [])
  }

  lemma {:induction false} ReferencingMembers(msgs: seq<MessagePO>, originId: string, platform: string)
    ensures |Referencing(msgs, originId, platform)| <= |msgs|
    ensures forall m :: m in Referencing(msgs, originId, platform) <==> m in msgs && HasRef(m, originId, platform)
    decreases |msgs|
  {
    if |msgs| > 0 {
      ReferencingMembers(msgs[..|msgs| - 1], originId, platform);
      assert msgs == msgs[..|msgs| - 1] + [msgs[|msgs| - 1]];
    }
  }

  /** `find_by_ref_and_platform` on the matching messages: more than one is
      an error, one is the answer, none is no answer. */
  function FindResult(matches: seq<MessagePO>): Result<Option<MessagePO>, string> {
    if |matches| > 1 then Err("关联的消息查询到了多条")
    else if |matches| == 1 then Ok(Some(matches[0]))
    else Ok(None)
  }

  /** A message saved from a platform message no other message refers to is
      the one `find_by_ref_and_platform` returns for it. */
  lemma FindByRefAfterSave(msgs: seq<MessagePO>, m: MessagePO)
    requires |m.refs| == 1
    requires forall i :: 0 <= i < |msgs| ==> !HasRef(msgs[i], m.refs[0].originId, m.refs[0].platform)
    ensures FindResult(Referencing(msgs + [m], m.refs[0].originId, m.refs[0].platform)) == Ok(Some(m))
  {
    var o, p := m.refs[0].originId, m.refs[0].platform;
    assert (msgs + [m])[..|msgs|] == msgs;
    ReferencingNone(msgs, o, p);
    assert HasRef(m, o, p) by { assert m.refs[0].originId == o; }
    assert Referencing(msgs + [m], o, p) == [] + [m];
  }

  lemma {:induction false} ReferencingNone(msgs: seq<MessagePO>, originId: string, platform: string)
    requires forall i :: 0 <= i < |msgs| ==> !HasRef(msgs[i], originId, platform)
    ensures Referencing(msgs, originId, platform) == []
    decreases |msgs|
  {
    if |msgs| > 0 {
      ReferencingNone(msgs[..|msgs| - 1], originId, platform);
    }
  }

  /** `ref_bridge_message` on the list: the ref is appended to the first
      message with the id; an unknown id changes nothing. */
  function AddRef(msgs: seq<MessagePO>, id: string, r: MessageRef): seq<MessagePO> {
    match FirstIndexOf(Ids(msgs), id)
    case None => msgs
    case Some(i) => msgs[i := msgs[i].(refs := msgs[i].refs + [r])]
  }

  /** Adding a ref changes one message only, and only by the new ref at the
      end of its refs; the message then has the ref. */
  lemma AddRefSpec(msgs: seq<MessagePO>, id: string, r: MessageRef)
    ensures |AddRef(msgs, id, r)| == |msgs| && Ids(AddRef(msgs, id, r)) == Ids(msgs)
    ensures id !in Ids(msgs) ==> AddRef(msgs, id, r) == msgs
    ensures id in Ids(msgs) ==>
      var i := FirstIndexOf(Ids(msgs), id).value;
      AddRef(msgs, id, r)[i].refs == msgs[i].refs + [r]
      && HasRef(AddRef(msgs, id, r)[i], r.originId, r.platform)
      && (forall j :: 0 <= j < |msgs| && j != i ==> AddRef(msgs, id, r)[j] == msgs[j])
  {
    if id in Ids(msgs) {
      var i := FirstIndexOf(Ids(msgs), id).value;
      var m := AddRef(msgs, id, r)[i];
      assert m.refs[|m.refs| - 1] == r;
    }
  }

  class BridgeMessageManager {
    var messages: seq<MessagePO>

    /** The list as loaded from disk (empty when there is none). */
    constructor (loaded: seq<MessagePO>)
      ensures messages == loaded
    {
      messages := loaded;
    }

    /** `get`: scan for the first message with the id. */
    method Get(id: string) returns (r: Option<MessagePO>)
      ensures r == Find(messages, id)
    {
      var i := 0;
      while i < |messages|
        invariant 0 <= i <= |messages|
        invariant forall j :: 0 <= j < i ==> messages[j].id != id
      {
        if messages[i].id == id {
          assert Ids(messages)[i] == id;
          return Some(messages[i]);
        }
        i := i + 1;
      }
      assert id !in Ids(messages);
      return None;
    }

    /** `save`: append a message with the new id, the form's sender, avatar
        and chain, and the origin as its one ref; return the id. */
    method Save(form: SendForm, newId: string) returns (id: string)
      modifies this
      ensures id == newId
      ensures messages == old(messages) + [MessagePO(newId, [form.origin], form.senderId, form.avatarUrl, form.chain)]
    {
      id := newId;
      var message := MessagePO(id, [], form.senderId, form.avatarUrl, form.chain);
      message := message.(refs := message.refs + [form.origin]);
      assert message.refs == [form.origin];
      messages := messages + [message];
    }

    /** `ref_bridge_message`: true and the ref appended to the message with
        the id when there is one; false and nothing changed otherwise. */
    method RefBridgeMessage(form: RefForm) returns (found: bool)
      modifies this
      ensures found <==> form.bridgeMessageId in Ids(old(messages))
      ensures messages == AddRef(old(messages), form.bridgeMessageId, MessageRef(form.platform, form.originId))
    {
      var i := 0;
      while i < |messages|
        invariant 0 <= i <= |messages|
        invariant forall j :: 0 <= j < i ==> messages[j].id != form.bridgeMessageId
      {
        if messages[i].id == form.bridgeMessageId {
          assert Ids(messages)[i] == form.bridgeMessageId;
          messages := messages[i := messages[i].(refs := messages[i].refs + [MessageRef(form.platform, form.originId)])];
          return true;
        }
        i := i + 1;
      }
      assert form.bridgeMessageId !in Ids(messages);
      return false;
    }

    /** `find_by_ref_and_platform`: collect the messages with a matching
        ref, then decide on their number. */
    method FindByRefAndPlatform(originId: string, platform: string) returns (r: Result<Option<MessagePO>, string>)
      ensures r == FindResult(Referencing(messages, originId, platform))
    {
      var refs: seq<MessagePO> := [];
      var i := 0;
      while i < |messages|
        invariant 0 <= i <= |messages|
        invariant refs == Referencing(messages[..i], originId, platform)
      {
        assert messages[..i + 1][..i] == messages[..i];
        if exists k :: 0 <= k < |messages[i].refs| && messages[i].refs[k].originId == originId && messages[i].refs[k].platform == platform {
          refs := refs + [messages[i]];
        }
        i := i + 1;
      }
      assert messages[..i] == messages;
      if |refs| > 1 {
        return Err("关联的消息查询到了多条");
      }
      if |refs| == 1 {
        return Ok(Some(refs[0]));
      }
      return Ok(None);
    }
  }
}
