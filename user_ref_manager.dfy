/** The store of bridge user references (bridge/user_ref_manager.rs): a list
    of reference records, each only an id. `save` appends one under a new
    id. The disk load is the constructor's argument, the uuid a parameter. */
module UserRefManager {
  import opened Wrappers

  datatype BridgeUserRef = BridgeUserRef(id: string)

  function RefIds(refs: seq<BridgeUserRef>): (r: seq<string>)
    ensures |r| == |refs| && forall i :: 0 <= i < |refs| ==> r[i] == refs[i].id
  {
    seq(|refs|, i requires 0 <= i < |refs| => refs[i].id)
  }

  /** Saving a reference under an id no stored reference has keeps the ids
      distinct, and the new id is then the one at the end. */
  lemma {:induction false} SavedKeepsIdsDistinct(refs: seq<BridgeUserRef>, newId: string)
    requires forall i, j :: 0 <= i < j < |refs| ==> refs[i].id != refs[j].id
    requires newId !in RefIds(refs)
    ensures var after := refs + [BridgeUserRef(newId)];
      (forall i, j :: 0 <= i < j < |after| ==> after[i].id != after[j].id)
      && RefIds(after) == RefIds(refs) + [newId]
  {
    var after := refs + [BridgeUserRef(newId)];
    forall i, j | 0 <= i < j < |after|
      ensures after[i].id != after[j].id
    {
      if j == |refs| {
        assert RefIds(refs)[i] == refs[i].id;
      }
    }
  }

  class BridgeUserRefManager {
    var refs: seq<BridgeUserRef>

    /** The list as loaded from disk (empty when there is none). */
    constructor (loaded: seq<BridgeUserRef>)
      ensures refs == loaded
    {
      refs := loaded;
    }

    /** `save`: append one reference under the new id and answer that id;
        it never fails, and the references before it are kept in order. */
    method Save(newId: string) returns (r: Result<string, string>)
      modifies this
      ensures r == Ok(newId)
      ensures refs == old(refs) + [BridgeUserRef(newId)]
      ensures refs[..|old(refs)|] == old(refs) && refs[|refs| - 1].id == r.value
    {
      var user := BridgeUserRef(newId);
      refs := refs + [user];
      return Ok(user.id);
    }
  }
}
