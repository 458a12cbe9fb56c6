/** The bridge message history (bridge_message_history.rs): a list of
    histories, each a bridge message id with the platform messages it was
    sent as. `insert` refuses an id the list already has and otherwise
    appends a history with one platform message. The list is held here
    instead of being read from and written back to its file. */
module MessageHistory {
  import opened Wrappers

  /** The history's own platform enum. */
  datatype HistoryPlatform = Discord | QQ

  datatype HistoryMessage = HistoryMessage(platform: HistoryPlatform, messageId: string)

  datatype History = History(id: string, messages: seq<HistoryMessage>)

  function HistoryIds(list: seq<History>): (r: seq<string>)
    ensures |r| == |list| && forall i :: 0 <= i < |list| ==> r[i] == list[i].id
  {
    seq(|list|, i requires 0 <= i < |list| => list[i].id)
  }

  /** `insert` on the list: the error for a known id, else the list with the
      new history at the end. */
  function Inserted(list: seq<History>, id: string, platform: HistoryPlatform, messageId: string): Result<seq<History>, string> {
    if id in HistoryIds(list) then Err("插入相同的消息id")
    else Ok(list + [History(id, [HistoryMessage(platform, messageId)])])
  }

  /** No two histories share an id. */
  ghost predicate DistinctIds(list: seq<History>) {
    forall i, j :: 0 <= i < j < |list| ==> list[i].id != list[j].id
  }

  /** What `insert` does: a known id is refused and nothing is saved;
      otherwise the list grows by one history at the end, with the id and
      exactly the one platform message, existing entries unchanged, and the
      ids stay distinct. */
  lemma InsertedSpec(list: seq<History>, id: string, platform: HistoryPlatform, messageId: string)
    ensures Inserted(list, id, platform, messageId).Err? <==> exists i :: 0 <= i < |list| && list[i].id == id
    ensures Inserted(list, id, platform, messageId).Ok? ==>
      var after := Inserted(list, id, platform, messageId).value;
      |after| == |list| + 1 && after[..|list|] == list
      && after[|list|].id == id && after[|list|].messages == [HistoryMessage(platform, messageId)]
    ensures DistinctIds(list) && Inserted(list, id, platform, messageId).Ok? ==>
      DistinctIds(Inserted(list, id, platform, messageId).value)
  {
    if exists i :: 0 <= i < |list| && list[i].id == id {
      var i :| 0 <= i < |list| && list[i].id == id;
      assert HistoryIds(list)[i] == id;
    }
  }

  /** The same id inserted twice: the second insert is refused, whatever the
      platform messages. */
  lemma InsertTwiceFails(list: seq<History>, id: string, p1: HistoryPlatform, m1: string, p2: HistoryPlatform, m2: string)
    requires Inserted(list, id, p1, m1).Ok?
    ensures Inserted(Inserted(list, id, p1, m1).value, id, p2, m2) == Err("插入相同的消息id")
  {
    var after := Inserted(list, id, p1, m1).value;
    assert HistoryIds(after)[|list|] == id;
  }

  class BridgeMessageHistory {
    var list: seq<History>

    /** The history as stored (the file's content). */
    constructor (loaded: seq<History>)
      ensures list == loaded
    {
      list := loaded;
    }

    /** `insert`: build the history, look for the id, and either refuse or
        append. */
    method Insert(id: string, platform: HistoryPlatform, messageId: string) returns (r: Result<Unit, string>)
      modifies this
      ensures Inserted(old(list), id, platform, messageId).Err? ==>
                r == Err(Inserted(old(list), id, platform, messageId).error) && list == old(list)
      ensures Inserted(old(list), id, platform, messageId).Ok? ==>
                r == Ok(Unit) && list == Inserted(old(list), id, platform, messageId).value
    {
      var history := History(id, []);
      history := history.(messages := history.messages + [HistoryMessage(platform, messageId)]);
      var i := 0;
      while i < |list|
        invariant 0 <= i <= |list|
        invariant forall j :: 0 <= j < i ==> list[j].id != id
      {
        if list[i].id == id {
          assert HistoryIds(list)[i] == id;
          return Err("插入相同的消息id");
        }
        i := i + 1;
      }
      assert id !in HistoryIds(list);
      assert history.messages == [HistoryMessage(platform, messageId)];
      list := list + [history];
      return Ok(Unit);
    }
  }
}
