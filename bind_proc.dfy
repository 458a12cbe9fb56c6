/** The bind sessions of the command process (bridge_cmd/process/bind_proc.rs):
    a requester is given a six-character token, a responder answers with the
    token, the requester confirms, and both bridge users then share one
    reference id. `CACHE_REQ` maps tokens to sessions; the user table maps a
    bridge user id to its platform and reference id. The uuid source is a
    parameter: the candidate tokens, and the fresh reference id. */
module BindProc {
  import opened Wrappers

  /** A session: the requester, and the responder once there is one. */
  datatype Mapping = Mapping(req: string, resp: Option<string>)

  /** The part of a bridge user these operations read and write. */
  datatype BridgeUser = BridgeUser(platform: string, refId: Option<string>)

  type Sessions = map<string, Mapping>
  type UserTable = map<string, BridgeUser>

  /** `is_bound`: both users exist and carry the same reference id. */
  predicate IsBound(users: UserTable, a: string, b: string) {
    a in users && b in users && users[a].refId.Some? && users[b].refId.Some?
    && users[a].refId == users[b].refId
  }

  /** Being bound is symmetric and transitive. */
  lemma IsBoundEquivalence(users: UserTable, a: string, b: string, c: string)
    ensures IsBound(users, a, b) ==> IsBound(users, b, a)
    ensures IsBound(users, a, b) && IsBound(users, b, c) ==> IsBound(users, a, c)
    ensures a in users && users[a].refId.Some? ==> IsBound(users, a, a)
  {
  }

  /** Each requester has at most one session. */
  ghost predicate OnePerRequester(c: Sessions) {
    forall t1, t2 :: t1 in c && t2 in c && c[t1].req == c[t2].req ==> t1 == t2
  }

  /** No session names its requester as its responder. */
  ghost predicate NoSelfReference(c: Sessions) {
    forall t :: t in c ==> c[t].resp != Some(c[t].req)
  }

  /** The sessions with the requester's sessions removed (the `retain`). */
  function WithoutReq(c: Sessions, req: string): Sessions {
    map t | t in c && c[t].req != req :: c[t]
  }

  /** With one session per requester, removing the requester's session by
      its token is removing all of the requester's sessions, and keeps the
      sessions valid. */
  lemma RemoveSession(c: Sessions, req: string, token: string)
    requires OnePerRequester(c) && NoSelfReference(c)
    requires token in c && c[token].req == req
    ensures (map t | t in c && t != token :: c[t]) == WithoutReq(c, req)
    ensures OnePerRequester(WithoutReq(c, req)) && NoSelfReference(WithoutReq(c, req))
    ensures forall t :: t in c && c[t].req == req ==> t == token
  {
  }

  /** The sessions after `add_req` opened `token` for `req`. */
  function Requested(c: Sessions, req: string, token: string): Sessions {
    WithoutReq(c, req)[token := Mapping(req, None)]
  }

  /** After a request the requester has exactly one session, under the new
      token and without a responder; other requesters keep theirs. */
  lemma RequestedSpec(c: Sessions, req: string, token: string)
    requires token !in c
    ensures token in Requested(c, req, token) && Requested(c, req, token)[token] == Mapping(req, None)
    ensures forall t :: t in Requested(c, req, token) && Requested(c, req, token)[t].req == req ==> t == token
    ensures forall t :: t in c && c[t].req != req ==> t in Requested(c, req, token) && Requested(c, req, token)[t] == c[t]
    ensures forall t :: t in Requested(c, req, token) ==> t == token || (t in c && c[t].req != req)
    ensures OnePerRequester(c) && NoSelfReference(c) ==>
              OnePerRequester(Requested(c, req, token)) && NoSelfReference(Requested(c, req, token))
  {
  }

  /** The reference id both users take on confirmation: the requester's,
      else the responder's, else a fresh one. */
  function SharedRef(users: UserTable, a: string, b: string, newRef: string): (r: Option<string>)
    requires a in users && b in users
    ensures r.Some?
  {
    if users[a].refId.Some? then users[a].refId
    else if users[b].refId.Some? then users[b].refId
    else Some(newRef)
  }

  /** The user table after `confirm_bind` linked `a` and `b`. */
  function Linked(users: UserTable, a: string, b: string, newRef: string): UserTable
    requires a in users && b in users
  {
    var r := SharedRef(users, a, b, newRef);
    users[a := users[a].(refId := r)][b := users[b].(refId := r)]
  }

  /** Linking binds the two users, changes no other user, and keeps the
      requester's group: whoever was bound to the requester still is. */
  lemma LinkedSpec(users: UserTable, a: string, b: string, newRef: string)
    requires a in users && b in users
    ensures IsBound(Linked(users, a, b, newRef), a, b)
    ensures Linked(users, a, b, newRef).Keys == users.Keys
    ensures forall u :: u in users && u != a && u != b ==> Linked(users, a, b, newRef)[u] == users[u]
    ensures forall u :: u in users ==> Linked(users, a, b, newRef)[u].platform == users[u].platform
    ensures forall u :: IsBound(users, a, u) ==> IsBound(Linked(users, a, b, newRef), a, u)
    ensures users[a].refId.None? && users[b].refId.None? ==> Linked(users, a, b, newRef)[a].refId == Some(newRef)
  {
  }

  /** A user with the given reference id on the given platform
      (`findByRefAndPlatform`). */
  predicate InGroupOn(users: UserTable, t: string, ref: string, platform: string) {
    t in users && users[t].refId == Some(ref) && users[t].platform == platform
  }

  class BindSessions {
    var cache: Sessions
    var users: UserTable

    ghost predicate Valid()
      reads this
    {
      OnePerRequester(cache) && NoSelfReference(cache)
    }

    constructor (users: UserTable)
      ensures cache == map[] && this.users == users && Valid()
    {
      cache := map[];
      this.users := users;
    }

    /** `add_req`: draw tokens until one is free, drop the requester's old
        sessions and open a session under the token. `candidates` are the
        tokens the uuid source yields, one of which is free. */
    method AddReq(reqUserId: string, candidates: seq<string>) returns (token: string)
      requires Valid()
      requires exists k :: 0 <= k < |candidates| && candidates[k] !in cache
      modifies this
      ensures Valid()
      ensures token !in old(cache)
      ensures exists k :: 0 <= k < |candidates| && candidates[k] == token
                          && forall j :: 0 <= j < k ==> candidates[j] in old(cache)
      ensures cache == Requested(old(cache), reqUserId, token) && users == old(users)
    {
      var i := 0;
      while candidates[i] in cache
        invariant 0 <= i < |candidates|
        invariant forall j :: 0 <= j < i ==> candidates[j] in cache
        invariant exists k :: i <= k < |candidates| && candidates[k] !in cache
        decreases |candidates| - i
      {
        i := i + 1;
      }
      token := candidates[i];
      cache := map t | t in cache && cache[t].req != reqUserId :: cache[t];
      cache := cache[token := Mapping(reqUserId, None)];
      RequestedSpec(old(cache), reqUserId, token);
    }

    /** `update_resp`: answer the session of `token` as `respUserId`. An
        unknown token, a self-reference, and a second responder already bound
        to the requester are refused; the same responder again is accepted
        without change. The bound check is made only when the session already
        had a different responder. */
    method UpdateResp(token: string, respUserId: string) returns (r: Result<Unit, string>)
      requires Valid()
      modifies this
      ensures Valid() && users == old(users)
      ensures token !in old(cache) ==> r == Err("无效的口令！") && cache == old(cache)
      ensures token in old(cache) ==>
        var m := old(cache)[token];
        if m.req == respUserId then r == Err("不要自引用") && cache == old(cache)
        else if m.resp == Some(respUserId) then r == Ok(Unit) && cache == old(cache)
        else if m.resp.Some? && IsBound(users, m.req, respUserId) then
          r == Err("您与该账户已经存在关联。如有疑问请联系管理员。") && cache == old(cache)
        else r == Ok(Unit) && cache == old(cache)[token := Mapping(m.req, Some(respUserId))]
    {
      if token !in cache {
        return Err("无效的口令！");
      }
      var mapping := cache[token];
      if mapping.req == respUserId {
        return Err("不要自引用");
      } else if mapping.resp.Some? {
        if mapping.resp.value == respUserId {
          return Ok(Unit);
        } else if IsBound(users, mapping.req, respUserId) {
          return Err("您与该账户已经存在关联。如有疑问请联系管理员。");
        }
      }
      cache := cache[token := Mapping(mapping.req, Some(respUserId))];
      return Ok(Unit);
    }

    /** `confirm_bind`: the requester's session must exist and have a
        responder; it is then removed, and if both users exist they are
        linked under one reference id (`newRef` is the uuid drawn when
        neither has one). */
    method ConfirmBind(reqUserId: string, newRef: string) returns (r: Result<Unit, string>)
      requires Valid()
      modifies this
      ensures Valid()
      ensures (forall t :: t in old(cache) ==> old(cache)[t].req != reqUserId) ==>
                r == Err("您未申请绑定，或申请已被重置。") && cache == old(cache) && users == old(users)
      ensures (exists t :: t in old(cache) && old(cache)[t].req == reqUserId && old(cache)[t].resp.None?) ==>
                r == Err("您的关联申请暂未收获回应！") && cache == old(cache) && users == old(users)
      ensures forall t :: t in old(cache) && old(cache)[t].req == reqUserId && old(cache)[t].resp.Some? ==>
                var resp := old(cache)[t].resp.value;
                cache == WithoutReq(old(cache), reqUserId)
                && (reqUserId !in old(users) || resp !in old(users) ==>
                      r == Err("关联用户不存在！") && users == old(users))
                && (reqUserId in old(users) && resp in old(users) ==>
                      r == Ok(Unit) && users == Linked(old(users), reqUserId, resp, newRef))
    {
      if forall t :: t in cache ==> cache[t].req != reqUserId {
        return Err("您未申请绑定，或申请已被重置。");
      }
      var token :| token in cache && cache[token].req == reqUserId;
      var m := cache[token];
      if m.resp.None? {
        return Err("您的关联申请暂未收获回应！");
      }
      var resp := m.resp.value;
      RemoveSession(cache, reqUserId, token);
      cache := map t | t in cache && t != token :: cache[t];
      if reqUserId !in users || resp !in users {
        return Err("关联用户不存在！");
      }
      var ref := if users[reqUserId].refId.Some? then users[reqUserId].refId
                 else if users[resp].refId.Some? then users[resp].refId
                 else Some(newRef);
      users := users[reqUserId := users[reqUserId].(refId := ref)];
      users := users[resp := users[resp].(refId := ref)];
      assert users == Linked(old(users), reqUserId, resp, newRef);
      return Ok(Unit);
    }

    /** `unbind`: clear the reference id of one user in the caller's group on
        the named platform. A caller without a reference id, or a group with
        nobody on that platform, is left alone with success. Which user is
        cleared when several qualify is up to the lookup. */
    method Unbind(userId: string, platform: string) returns (r: Result<Unit, string>)
      modifies this
      ensures cache == old(cache) && users.Keys == old(users).Keys
      ensures userId !in old(users) ==> r == Err("获取用户信息失败") && users == old(users)
      ensures userId in old(users) ==> r == Ok(Unit)
      ensures userId in old(users) && old(users)[userId].refId.None? ==> users == old(users)
      ensures userId in old(users) && old(users)[userId].refId.Some? ==>
        var ref := old(users)[userId].refId.value;
        ((forall t :: !InGroupOn(old(users), t, ref, platform)) && users == old(users))
        || (exists t :: InGroupOn(old(users), t, ref, platform)
                        && users == old(users)[t := old(users)[t].(refId := None)])
    {
      if userId !in users {
        return Err("获取用户信息失败");
      }
      if users[userId].refId.None? {
        return Ok(Unit);
      }
      var ref := users[userId].refId.value;
      if forall t :: t in users ==> !(users[t].refId == Some(ref) && users[t].platform == platform) {
        return Ok(Unit);
      }
      var target :| target in users && users[target].refId == Some(ref) && users[target].platform == platform;
      users := users[target := users[target].(refId := None)];
      return Ok(Unit);
    }
  }

  /** The whole workflow: a request answered by another user and confirmed
      by the requester leaves the two users bound. */
  lemma RequestAnswerConfirm(c: Sessions, users: UserTable, req: string, resp: string, token: string, newRef: string)
    requires token !in c && req != resp && req in users && resp in users
    ensures var answered := Requested(c, req, token)[token := Mapping(req, Some(resp))];
      WithoutReq(answered, req) == WithoutReq(c, req)
      && IsBound(Linked(users, req, resp, newRef), req, resp)
  {
    var answered := Requested(c, req, token)[token := Mapping(req, Some(resp))];
    assert WithoutReq(answered, req).Keys == WithoutReq(c, req).Keys;
    LinkedSpec(users, req, resp, newRef);
  }
}
