/** The store of bridge messages without sender (bridge/bridge_message_manager.rs):
    bridge messages with their refs and chain, appended by `save` and
    `save_and_ref` and given new refs by `ref_bridge_message`. The disk
    write is not modelled; the uuid of a new message is a parameter. */
module BridgeMessageStore {
  import opened Bridge
  import MM = MessageManager

  type MessageRef = MM.MessageRef

  datatype StoredMessage = StoredMessage(id: string, refs: seq<MessageRef>, chain: MessageChain)

  /** What `save` receives. */
  datatype SendForm = SendForm(chain: MessageChain, origin: MessageRef)

  /** What `save_and_ref` receives; its chain is not stored. */
  datatype SaveAndRefForm = SaveAndRefForm(platform: string, originId: string, chain: MessageChain)

  function Ids(msgs: seq<StoredMessage>): (r: seq<string>)
    ensures |r| == |msgs| && forall i :: 0 <= i < |msgs| ==> r[i] == msgs[i].id
  {
    seq(|msgs|, i requires 0 <= i < |msgs| => msgs[i].id)
  }

  /** `ref_bridge_message` on the list: the ref is appended to the first
      message with the id; an unknown id changes nothing. */
  function AddRef(msgs: seq<StoredMessage>, id: string, r: MessageRef): seq<StoredMessage> {
    match MM.FirstIndexOf(Ids(msgs), id)
    case None => msgs
    case Some(i) => msgs[i := msgs[i].(refs := msgs[i].refs + [r])]
  }

  /** The message `save` stores: the form's chain, the origin as its one ref. */
  function Saved(form: SendForm, id: string): StoredMessage {
    StoredMessage(id, [form.origin], form.chain)
  }

  /** The message `save_and_ref` stores: one ref built from the form, and an
      empty chain whatever the form carries. */
  function SavedAndRefed(form: SaveAndRefForm, id: string): (m: StoredMessage)
    ensures m.chain == [] && |m.refs| == 1
    ensures m.refs[0].platform == form.platform && m.refs[0].originId == form.originId
  {
    StoredMessage(id, [MM.MessageRef(form.platform, form.originId)], [])
  }

  /** `after` keeps every message of `before`, at its place, with its id and
      chain, and with its refs extended at most at the end. */
  ghost predicate Extends(before: seq<StoredMessage>, after: seq<StoredMessage>) {
    |before| <= |after|
    && forall i :: 0 <= i < |before| ==>
         after[i].id == before[i].id && after[i].chain == before[i].chain
         && |before[i].refs| <= |after[i].refs| && after[i].refs[..|before[i].refs|] == before[i].refs
  }

  lemma ExtendsTransitive(a: seq<StoredMessage>, b: seq<StoredMessage>, c: seq<StoredMessage>)
    requires Extends(a, b) && Extends(b, c)
    ensures Extends(a, c)
  {
    forall i | 0 <= i < |a|
      ensures |a[i].refs| <= |c[i].refs| && c[i].refs[..|a[i].refs|] == a[i].refs
    {
      assert c[i].refs[..|b[i].refs|][..|a[i].refs|] == c[i].refs[..|a[i].refs|];
    }
  }

  /** No operation removes, reorders or rewrites a stored message: saving
      appends one, and adding a ref touches one message's refs only, at the
      end; an unknown id changes nothing. */
  lemma OperationsExtend(msgs: seq<StoredMessage>, m: StoredMessage, id: string, r: MessageRef)
    ensures Extends(msgs, msgs + [m])
    ensures Extends(msgs, AddRef(msgs, id, r)) && |AddRef(msgs, id, r)| == |msgs|
    ensures id !in Ids(msgs) ==> AddRef(msgs, id, r) == msgs
    ensures id in Ids(msgs) ==>
      var i := MM.FirstIndexOf(Ids(msgs), id).value;
      AddRef(msgs, id, r)[i].refs == msgs[i].refs + [r]
      && forall j :: 0 <= j < |msgs| && j != i ==> AddRef(msgs, id, r)[j] == msgs[j]
  {
    var a := msgs + [m];
    forall i | 0 <= i < |msgs|
      ensures a[i] == msgs[i]
    {
    }
    if id in Ids(msgs) {
      var k := MM.FirstIndexOf(Ids(msgs), id).value;
      var after := AddRef(msgs, id, r);
      assert after[k].refs[..|msgs[k].refs|] == msgs[k].refs;
    }
  }

  class BridgeMessageManager {
    var messages: seq<StoredMessage>

    /** The list as loaded from disk (empty when there is none). */
    constructor (loaded: seq<StoredMessage>)
      ensures messages == loaded
    {
      messages := loaded;
    }

    /** `save`: append the form's message under the new id and return it. */
    method Save(form: SendForm, newId: string) returns (id: string)
      modifies this
      ensures id == newId && messages == old(messages) + [Saved(form, newId)]
    {
      id := newId;
      var message := StoredMessage(id, [], form.chain);
      message := message.(refs := message.refs + [form.origin]);
      assert message.refs == [form.origin];
      messages := messages + [message];
    }

    /** `save_and_ref`: append a message with the form's platform message as
        its one ref and an empty chain, and return the new id. */
    method SaveAndRef(form: SaveAndRefForm, newId: string) returns (id: string)
      modifies this
      ensures id == newId && messages == old(messages) + [SavedAndRefed(form, newId)]
    {
      id := newId;
      var message := StoredMessage(id, [], []);
      message := message.(refs := message.refs + [MM.MessageRef(form.platform, form.originId)]);
      assert message.refs == [MM.MessageRef(form.platform, form.originId)];
      messages := messages + [message];
    }

    /** `ref_bridge_message`: true and the ref appended to the message with
        the id when there is one; false and nothing changed otherwise. */
    method RefBridgeMessage(form: MM.RefForm) returns (found: bool)
      modifies this
      ensures found <==> form.bridgeMessageId in Ids(old(messages))
      ensures messages == AddRef(old(messages), form.bridgeMessageId, MM.MessageRef(form.platform, form.originId))
    {
      var i := 0;
      while i < |messages|
        invariant 0 <= i <= |messages|
        invariant forall j :: 0 <= j < i ==> messages[j].id != form.bridgeMessageId
      {
        if messages[i].id == form.bridgeMessageId {
          assert Ids(messages)[i] == form.bridgeMessageId;
          messages := messages[i := messages[i].(refs := messages[i].refs + [MM.MessageRef(form.platform, form.originId)])];
          return true;
        }
        i := i + 1;
      }
      assert form.bridgeMessageId !in Ids(messages);
      return false;
    }
  }
}
