/** The bridge user table (bridge/user_manager.rs): bridge users, each with a
    generated id, the platform, the id on that platform and a display text.
    `get` and `like` are scans; `save` refuses a user the table already has
    for that platform and otherwise appends one. The disk load is the
    constructor's argument; the uuid of a new user is a parameter. */
module UserManager {
  import opened Wrappers

  datatype BridgeUser = BridgeUser(id: string, platform: string, originId: string, displayText: string)

  /** What `save` receives. */
  datatype SaveForm = SaveForm(originId: string, platform: string, displayText: string)

  /** `get`: the first user with the bridge id. */
  function Get(users: seq<BridgeUser>, id: string): (r: Option<BridgeUser>)
    ensures r.Some? ==> r.value in users && r.value.id == id
    ensures r.None? <==> forall i :: 0 <= i < |users| ==> users[i].id != id
    ensures r.Some? ==> exists i :: 0 <= i < |users| && users[i] == r.value && forall j :: 0 <= j < i ==> users[j].id != id
  {
    if |users| == 0 then None
    else if users[0].id == id then Some(users[0])
    else
      var r := Get(users[1..], id);
      if r.Some? then
        var i :| 0 <= i < |users[1..]| && users[1..][i] == r.value && forall j :: 0 <= j < i ==> users[1..][j].id != id;
        assert users[i + 1] == r.value && forall j :: 0 <= j < i + 1 ==> users[j].id != id;
        r
      else r
  }

  /** `like` as written: the first user whose BRIDGE id equals the given
      origin id, on the platform. */
  function LikeAsWritten(users: seq<BridgeUser>, originId: string, platform: string): (r: Option<BridgeUser>)
    ensures r.Some? ==> r.value in users && r.value.id == originId && r.value.platform == platform
  {
    if |users| == 0 then None
    else if users[0].id == originId && users[0].platform == platform then Some(users[0])
    else LikeAsWritten(users[1..], originId, platform)
  }

  /** `like` as documented ("origin id and platform"): the first user with
      that id on that platform. */
  function Like(users: seq<BridgeUser>, originId: string, platform: string): (r: Option<BridgeUser>)
    ensures r.Some? ==> r.value in users && r.value.originId == originId && r.value.platform == platform
    ensures r.None? <==> forall i :: 0 <= i < |users| ==> !(users[i].originId == originId && users[i].platform == platform)
  {
    if |users| == 0 then None
    else if users[0].originId == originId && users[0].platform == platform then Some(users[0])
    else
      var r := Like(users[1..], originId, platform);
      if r.None? then
        assert forall i :: 1 <= i < |users| ==> users[i] == users[1..][i - 1];
        r
      else r
  }

  /** No two users share a platform id on the same platform. */
  ghost predicate UniqueOrigins(users: seq<BridgeUser>) {
    forall i, j :: 0 <= i < j < |users| ==>
      !(users[i].originId == users[j].originId && users[i].platform == users[j].platform)
  }

  function NewUser(form: SaveForm, newId: string): BridgeUser {
    BridgeUser(newId, form.platform, form.originId, form.displayText)
  }

  function DuplicateMessage(form: SaveForm): string {
    "该平台" + form.platform + "已存在用户id为" + form.originId + "的用户"
  }

  /** `save` on the table, with the documented `like`: a user the platform
      already has is refused with the message naming platform and id. */
  function Saved(users: seq<BridgeUser>, form: SaveForm, newId: string): (r: Result<seq<BridgeUser>, string>)
    ensures r.Err? <==> exists i :: 0 <= i < |users| && users[i].originId == form.originId && users[i].platform == form.platform
    ensures r.Err? ==> r.error == DuplicateMessage(form)
    ensures r.Ok? ==> r.value == users + [NewUser(form, newId)]
  {
    if Like(users, form.originId, form.platform).Some? then Err(DuplicateMessage(form))
    else Ok(users + [NewUser(form, newId)])
  }

  /** `save` with `like` as written. */
  function SavedAsWritten(users: seq<BridgeUser>, form: SaveForm, newId: string): Result<seq<BridgeUser>, string> {
    if LikeAsWritten(users, form.originId, form.platform).Some? then Err(DuplicateMessage(form))
    else Ok(users + [NewUser(form, newId)])
  }

  /** Saving never puts a second user with the same platform id on a
      platform into the table. */
  lemma SavedKeepsUnique(users: seq<BridgeUser>, form: SaveForm, newId: string)
    requires UniqueOrigins(users)
    ensures Saved(users, form, newId).Ok? ==> UniqueOrigins(Saved(users, form, newId).value)
  {
  }

  /** After a save, `like` finds the user for its platform id, and `get`
      finds it by its new id when that id was unused. */
  lemma SavedIsFound(users: seq<BridgeUser>, form: SaveForm, newId: string)
    requires Saved(users, form, newId).Ok?
    ensures Like(Saved(users, form, newId).value, form.originId, form.platform) == Some(NewUser(form, newId))
    ensures (forall i :: 0 <= i < |users| ==> users[i].id != newId) ==>
              Get(Saved(users, form, newId).value, newId) == Some(NewUser(form, newId))
  {
    var after := users + [NewUser(form, newId)];
    LikeAppend(users, NewUser(form, newId), form.originId, form.platform);
    if forall i :: 0 <= i < |users| ==> users[i].id != newId {
      GetAppend(users, NewUser(form, newId));
    }
  }

  lemma {:induction false} LikeAppend(users: seq<BridgeUser>, u: BridgeUser, originId: string, platform: string)
    requires Like(users, originId, platform).None? && u.originId == originId && u.platform == platform
    ensures Like(users + [u], originId, platform) == Some(u)
    decreases |users|
  {
    if |users| > 0 {
      assert (users + [u])[1..] == users[1..] + [u];
      LikeAppend(users[1..], u, originId, platform);
    }
  }

  lemma {:induction false} GetAppend(users: seq<BridgeUser>, u: BridgeUser)
    requires forall i :: 0 <= i < |users| ==> users[i].id != u.id
    ensures Get(users + [u], u.id) == Some(u)
    decreases |users|
  {
    if |users| > 0 {
      assert (users + [u])[1..] == users[1..] + [u];
      GetAppend(users[1..], u);
    }
  }

  /** With `like` as written the duplicate check compares the platform id
      with bridge ids, so a platform user is registered twice. */
  lemma SavedAsWrittenDuplicates()
    ensures var users := [BridgeUser("u1", "QQ", "123", "a(123)")];
      var form := SaveForm("123", "QQ", "a(123)");
      SavedAsWritten(users, form, "u2").Ok?
      && !UniqueOrigins(SavedAsWritten(users, form, "u2").value)
      && Saved(users, form, "u2") == Err("该平台QQ已存在用户id为123的用户")
  {
    var users := [BridgeUser("u1", "QQ", "123", "a(123)")];
    var form := SaveForm("123", "QQ", "a(123)");
    assert users[0].id != "123";
    assert LikeAsWritten(users[1..], "123", "QQ") == None;
    var after := SavedAsWritten(users, form, "u2").value;
    assert after[0].originId == after[1].originId && after[0].platform == after[1].platform;
    assert !UniqueOrigins(after);
    assert Like(users, "123", "QQ").Some?;
    assert DuplicateMessage(form) == "该平台QQ已存在用户id为123的用户";
  }

  class BridgeUserManager {
    var bridgeUsers: seq<BridgeUser>

    ghost predicate Valid()
      reads this
    {
      UniqueOrigins(bridgeUsers)
    }

    /** The table as loaded from disk (empty when there is none), whatever
        it holds. */
    constructor (loaded: seq<BridgeUser>)
      ensures bridgeUsers == loaded
    {
      bridgeUsers := loaded;
    }

    /** `save`: refuse a user the platform already has, otherwise append it
        under the new id. */
    method Save(form: SaveForm, newId: string) returns (r: Result<bool, string>)
      modifies this
      ensures old(Valid()) ==> Valid()
      ensures Saved(old(bridgeUsers), form, newId).Err? ==>
                r == Err(Saved(old(bridgeUsers), form, newId).error) && bridgeUsers == old(bridgeUsers)
      ensures Saved(old(bridgeUsers), form, newId).Ok? ==>
                r == Ok(true) && bridgeUsers == Saved(old(bridgeUsers), form, newId).value
    {
      if Like(bridgeUsers, form.originId, form.platform).Some? {
        return Err(DuplicateMessage(form));
      }
      var user := BridgeUser(newId, form.platform, form.originId, form.displayText);
      bridgeUsers := bridgeUsers + [user];
      if old(Valid()) {
        SavedKeepsUnique(old(bridgeUsers), form, newId);
      }
      return Ok(true);
    }
  }
}
