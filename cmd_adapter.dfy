/** The command channel (cmd_adapter.rs): the help text, the parsing of bind
    arguments, the bind-request cache that lives for 30 seconds, and the
    bind, confirm and unbind replies. The clock is a parameter `now`
    (milliseconds); the bind store is abstract: `get_bind` and `rm_bind`
    are function parameters, and the pair `add_bind` would store is
    returned. */
module CmdAdapter {
  import opened Wrappers
  import opened Text
  import opened Decimal
  import opened Bridge
  import opened BridgeCmd

  /** Lifetime of a cached bind request, in milliseconds. */
  const CACHE_TIMEOUT: int := 30000

  /** The cache: when each request was made, and the request. */
  type CacheBind = seq<(int, BindMeta)>

  /** `get_bind(from, platform)`: the user `from` is bound to on `platform`. */
  type BindLookup = ((Platform, nat), Platform) -> Option<User>

  /** `rm_bind(from, platform)`: whether a binding was removed. */
  type BindRemover = ((Platform, nat), Platform) -> bool

  // ---------------------------------------------------------------------
  // Help

  /** The bind line of the help: a Discord user is told how to bind a QQ
      account and a QQ user how to bind a Discord account. */
  function BindHint(p: Platform): string {
    match p
    case Discord => "!绑定 qq [qq号]"
    case QQ => "!绑定 dc [#9617(仅填写数字)]"
    case _ => ""
  }

  function HelpLines(p: Platform): seq<string> {
    ["!帮助", "!ping", BindHint(p), "!确认绑定", "!解除绑定", "!查看绑定状态"]
  }

  /** `get_help`. */
  function GetHelp(user: User): string {
    "!帮助" + "\n" + "!ping" + "\n" + BindHint(user.platform) + "\n" + "!确认绑定" + "\n" + "!解除绑定" + "\n" + "!查看绑定状态"
  }

  /** The help has six lines; the third is the bind hint of the caller's
      platform, which names the other platform, and is empty for any
      platform other than Discord and QQ. */
  lemma GetHelpLines(user: User)
    ensures Split(GetHelp(user), '\n') == HelpLines(user.platform)
    ensures user.platform == Discord ==> StartsWith(Split(GetHelp(user), '\n')[2], "!绑定 qq")
    ensures user.platform == QQ ==> StartsWith(Split(GetHelp(user), '\n')[2], "!绑定 dc")
    ensures user.platform != Discord && user.platform != QQ ==> Split(GetHelp(user), '\n')[2] == ""
  {
    HelpIsJoin(user.platform);
    HelpLinesOneLine(user.platform);
    SplitJoin(HelpLines(user.platform), '\n');
    BindHintNamesOther();
  }

  lemma BindHintNamesOther()
    ensures StartsWith(BindHint(Discord), "!绑定 qq")
    ensures StartsWith(BindHint(QQ), "!绑定 dc")
  {
  }

  lemma HelpIsJoin(p: Platform)
    ensures Join(HelpLines(p), '\n') == "!帮助" + "\n" + "!ping" + "\n" + BindHint(p) + "\n" + "!确认绑定" + "\n" + "!解除绑定" + "\n" + "!查看绑定状态"
  {
    JoinSix("!帮助", "!ping", BindHint(p), "!确认绑定", "!解除绑定", "!查看绑定状态", '\n');
  }

  lemma HelpLinesOneLine(p: Platform)
    ensures forall i :: 0 <= i < |HelpLines(p)| ==> '\n' !in HelpLines(p)[i]
  {
    var ps := HelpLines(p);
    forall i | 0 <= i < |ps|
      ensures '\n' !in ps[i]
    {
    }
  }

  // ---------------------------------------------------------------------
  // Arguments and lookups

  /** `parse_bind_args`: a platform name and a u64 id. The source indexes
      `args[1]` only after the platform parsed. */
  function ParseBindArgs(args: seq<string>): (r: Option<(Platform, nat)>)
    requires |args| >= 1 && (ParsePlatform(args[0]).Ok? ==> |args| >= 2)
    ensures r.Some? <==> ParsePlatform(args[0]).Ok? && ParseU64(args[1]).Some?
    ensures r.Some? ==> r.value.0 == ParsePlatform(args[0]).value && r.value.1 == ParseU64(args[1]).value
  {
    match ParsePlatform(args[0])
    case Err(_) => None
    case Ok(p) =>
      match ParseU64(args[1])
      case None => None
      case Some(u) => Some((p, u))
  }

  /** The arguments of a recognised Bind command parse whenever the platform
      does and the id has at most 19 digits; a 20-digit id above the u64
      range does not. */
  lemma BindArgsParse(platform: string, id: string)
    requires 4 <= |id| <= 19 && AllDigits(id) && ParsePlatform(platform).Ok?
    ensures ParseBindArgs([platform, id]) == Some((ParsePlatform(platform).value, DigitsValue(id)))
  {
    ShortDigitsParseU64(id);
  }

  lemma TwentyNinesDoNotParse()
    ensures ParseBindArgs(["qq", "99999999999999999999"]) == None
  {
    ParsesQQ();
    TwentyNinesValue();
  }

  lemma ParsesQQ()
    ensures ParsePlatform("qq") == Ok(QQ)
  {
    var lq, ld := ToLowerAscii("qq"), ToLowerAscii("dc");
    assert lq[0] == 'q' && lq[1] == 'q' && ld[0] == 'd';
    assert lq == "qq" && lq != ld;
  }

  lemma TwentyNinesValue()
    ensures AllDigits("99999999999999999999") && DigitsValue("99999999999999999999") > U64_MAX
  {
    var s := "99999999999999999999";
    assert |s| == 20 && forall i :: 0 <= i < |s| ==> s[i] == '9';
    NinesValue(s);
    PowTwenty();
  }

  /** A run of nines is worth one less than the next power of ten. */
  lemma {:induction false} NinesValue(s: string)
    requires forall i :: 0 <= i < |s| ==> s[i] == '9'
    ensures AllDigits(s) && DigitsValue(s) == Pow10(|s|) - 1
    decreases |s|
  {
    if |s| > 0 {
      NinesValue(s[..|s| - 1]);
    }
  }

  lemma PowTwenty()
    ensures Pow10(20) == 100000000000000000000
  {
    assert Pow10(5) == 100000;
    assert Pow10(10) == 10000000000;
    assert Pow10(15) == 1000000000000000;
  }

  /** `is_mapping`: the requester is already bound, on the target platform,
      to the named id (its unique or its display id). */
  predicate IsMapping(getBind: BindLookup, from: (Platform, nat), to: (Platform, nat)) {
    var mapping := getBind((from.0, from.1), to.0);
    mapping.Some? && (mapping.value.uniqueId == to.1 || mapping.value.displayId == to.1)
  }

  // ---------------------------------------------------------------------
  // The cache of bind requests

  /** An entry made at `t` is out of date at `now`. `try_bind` writes the
      same test as `t < now - CACHE_TIMEOUT`. */
  predicate Expired(t: int, now: int) { now - t > CACHE_TIMEOUT }

  /** The cache after `try_cache_bind`'s `retain`: out-of-date entries and
      requests equal to the new one are dropped, order kept. */
  function Refreshed(c: CacheBind, now: int, meta: BindMeta): CacheBind
    decreases |c|
  {
    if |c| == 0 then []
    else
      var e := c[|c| - 1];
      Refreshed(c[..|c| - 1], now, meta) + (if !Expired(e.0, now) && !MetaEq(meta, e.1) then [e] else [])
  }

  /** The request targets `user`: the platform matches, and the id is the
      user's unique id or display id. */
  predicate Targets(m: BindMeta, user: User) {
    m.to.platform == user.platform && (m.to.user == user.uniqueId || m.to.user == user.displayId)
  }

  predicate Claims(e: (int, BindMeta), now: int, user: User) {
    !Expired(e.0, now) && Targets(e.1, user)
  }

  /** The cache after `try_bind`'s `retain`: out-of-date entries and the
      requests targeting the user are dropped, order kept. */
  function Claimed(c: CacheBind, now: int, user: User): CacheBind
    decreases |c|
  {
    if |c| == 0 then []
    else
      var e := c[|c| - 1];
      Claimed(c[..|c| - 1], now, user) + (if !Expired(e.0, now) && !Targets(e.1, user) then [e] else [])
  }

  /** The request `try_bind` completes: the first live one targeting the user. */
  function FirstClaim(c: CacheBind, now: int, user: User): Option<BindMeta>
    decreases |c|
  {
    if |c| == 0 then None
    else
      var first := FirstClaim(c[..|c| - 1], now, user);
      if first.Some? then first
      else if Claims(c[|c| - 1], now, user) then Some(c[|c| - 1].1)
      else None
  }

  /** What survives a refresh: exactly the live entries not equal to the new
      request, and never more entries than before. */
  lemma {:induction false} RefreshedMembers(c: CacheBind, now: int, meta: BindMeta)
    ensures |Refreshed(c, now, meta)| <= |c|
    ensures forall e :: e in Refreshed(c, now, meta) <==> e in c && !Expired(e.0, now) && !MetaEq(meta, e.1)
    decreases |c|
  {
    if |c| > 0 {
      RefreshedMembers(c[..|c| - 1], now, meta);
      assert c == c[..|c| - 1] + [c[|c| - 1]];
    }
  }

  /** After a request is cached it is the last entry, and no other entry is
      out of date or equal to it. */
  lemma CachedRequestIsLast(c: CacheBind, now: int, meta: BindMeta)
    ensures var r := Refreshed(c, now, meta) + [(now, meta)];
      r[|r| - 1] == (now, meta)
      && forall j :: 0 <= j < |r| - 1 ==> !Expired(r[j].0, now) && !MetaEq(meta, r[j].1)
  {
    var r := Refreshed(c, now, meta) + [(now, meta)];
    RefreshedMembers(c, now, meta);
    forall j | 0 <= j < |r| - 1
      ensures !Expired(r[j].0, now) && !MetaEq(meta, r[j].1)
    {
      assert r[j] in Refreshed(c, now, meta);
    }
  }

  /** What survives a claim: exactly the live entries not targeting the user. */
  lemma {:induction false} ClaimedMembers(c: CacheBind, now: int, user: User)
    ensures |Claimed(c, now, user)| <= |c|
    ensures forall e :: e in Claimed(c, now, user) <==> e in c && !Expired(e.0, now) && !Targets(e.1, user)
    decreases |c|
  {
    if |c| > 0 {
      ClaimedMembers(c[..|c| - 1], now, user);
      assert c == c[..|c| - 1] + [c[|c| - 1]];
    }
  }

  /** The request completed is the first live entry targeting the user, and
      there is one exactly when some live entry targets the user. */
  lemma {:induction false} FirstClaimIsFirst(c: CacheBind, now: int, user: User)
    ensures FirstClaim(c, now, user).Some? <==> exists i :: 0 <= i < |c| && Claims(c[i], now, user)
    ensures FirstClaim(c, now, user).Some? ==>
      exists i :: 0 <= i < |c| && Claims(c[i], now, user) && c[i].1 == FirstClaim(c, now, user).value
                  && forall j :: 0 <= j < i ==> !Claims(c[j], now, user)
    decreases |c|
  {
    if |c| > 0 {
      var init := c[..|c| - 1];
      FirstClaimIsFirst(init, now, user);
      assert forall i :: 0 <= i < |init| ==> init[i] == c[i];
      if FirstClaim(init, now, user).Some? {
        var i :| 0 <= i < |init| && Claims(init[i], now, user) && init[i].1 == FirstClaim(init, now, user).value
                  && forall j :: 0 <= j < i ==> !Claims(init[j], now, user);
        assert Claims(c[i], now, user);
      } else if Claims(c[|c| - 1], now, user) {
        assert forall j :: 0 <= j < |c| - 1 ==> !Claims(c[j], now, user) by {
          forall j | 0 <= j < |c| - 1
            ensures !Claims(c[j], now, user)
          {
            assert init[j] == c[j];
          }
        }
      } else {
        forall i | 0 <= i < |c|
          ensures !Claims(c[i], now, user)
        {
          if i < |c| - 1 {
            assert init[i] == c[i];
          }
        }
      }
    }
  }

  /** The arguments each command's handler indexes: two for Bind, one for
      Unbind, none for Help and ConfirmBind. */
  predicate Fits(cmd: Cmd, args: Option<seq<string>>) {
    match cmd
    case Bind => args.Some? && |args.value| == 2
    case Unbind => args.Some? && |args.value| == 1
    case _ => args.None?
  }

  /** Every command `kind` recognises carries the arguments its handler
      indexes, so the handlers' `unwrap` and indexing cannot fail. */
  lemma KindFits(chain: MessageChain)
    ensures KindOf(chain).Some? ==> Fits(KindOf(chain).value.0, KindOf(chain).value.1)
  {
    KindFromArgs(chain, 0, false);
  }

  /** With `get_args` as written, the unbind command arrives as a Bind with
      no arguments, and `parse_bind_args` would index an empty list. */
  lemma UnbindAsWrittenDoesNotFit()
    ensures ClassifyAsWritten("!解除绑定 dc") == Some((Bind, Some([])))
    ensures !Fits(Bind, Some([]))
  {
    UnbindTextExample();
  }

  /** `try_unbind`: the platform named must differ from the caller's; the
      store's answer picks the reply; a name that is no platform gets the
      help text. */
  function TryUnbind(user: User, args: seq<string>, rmBind: BindRemover): string
    requires |args| >= 1
  {
    match ParsePlatform(args[0])
    case Ok(p) =>
      if p == user.platform then "原地TP？"
      else if rmBind((user.platform, user.uniqueId), p) then "已解除绑定"
      else "未向此平台绑定用户"
    case Err(_) => GetHelp(user)
  }

  /** The unbind reply is never empty, so the caller always gets feedback;
      the store is asked only for a platform other than the caller's. */
  lemma TryUnbindReplies(user: User, args: seq<string>, rmBind: BindRemover, rmOther: BindRemover)
    requires |args| >= 1
    requires forall p :: p != user.platform ==> rmBind((user.platform, user.uniqueId), p) == rmOther((user.platform, user.uniqueId), p)
    ensures TryUnbind(user, args, rmBind) != ""
    ensures TryUnbind(user, args, rmBind) == TryUnbind(user, args, rmOther)
    ensures ParsePlatform(args[0]) == Ok(user.platform) ==> TryUnbind(user, args, rmBind) == "原地TP？"
  {
    assert |GetHelp(user)| > 0;
  }

  /** The command channel's state: the cache of bind requests. */
  class Adapter {
    var cache: CacheBind

    constructor ()
      ensures cache == []
    {
      cache := [];
    }

    /** `try_cache_bind`: refuse a pair already bound, answer the help text
        when the arguments do not parse, and otherwise cache the request at
        `now` after dropping out-of-date and equal requests. */
    method TryCacheBind(user: User, args: Option<seq<string>>, now: int, getBind: BindLookup) returns (reply: string)
      requires args.Some? && |args.value| >= 1 && (ParsePlatform(args.value[0]).Ok? ==> |args.value| >= 2)
      modifies this
      ensures ParseBindArgs(args.value).None? ==> reply == GetHelp(user) && cache == old(cache)
      ensures ParseBindArgs(args.value).Some? && IsMapping(getBind, (user.platform, user.uniqueId), ParseBindArgs(args.value).value)
              ==> reply == "此用户已绑定" && cache == old(cache)
      ensures ParseBindArgs(args.value).Some? && !IsMapping(getBind, (user.platform, user.uniqueId), ParseBindArgs(args.value).value)
              ==> var meta := NewBindMeta((user.platform, user.uniqueId), ParseBindArgs(args.value).value);
                  cache == Refreshed(old(cache), now, meta) + [(now, meta)]
                  && reply == "已记录，" + NatToString(CACHE_TIMEOUT / 1000) + "秒后失效。"
    {
      var bindTo := ParseBindArgs(args.value);
      if bindTo.None? {
        return GetHelp(user);
      }
      if IsMapping(getBind, (user.platform, user.uniqueId), bindTo.value) {
        return "此用户已绑定";
      }
      var newMeta := NewBindMeta((user.platform, user.uniqueId), bindTo.value);
      var kept: CacheBind := [];
      var i := 0;
      while i < |cache|
        invariant 0 <= i <= |cache|
        invariant kept == Refreshed(cache[..i], now, newMeta)
      {
        assert cache[..i + 1][..i] == cache[..i];
        if !Expired(cache[i].0, now) && !MetaEq(newMeta, cache[i].1) {
          kept := kept + [cache[i]];
        }
        i := i + 1;
      }
      assert cache[..i] == cache;
      cache := kept + [(now, newMeta)];
      return "已记录，" + NatToString(CACHE_TIMEOUT / 1000) + "秒后失效。";
    }

    /** `try_bind`: drop out-of-date requests and every request targeting
        the user; the first live one targeting the user is completed: its
        requester is bound to the user (`bound` is the pair `add_bind`
        stores) and the reply is "绑定完成"; with none the reply is empty. */
    method TryBind(user: User, now: int) returns (reply: string, bound: Option<(User, User)>)
      modifies this
      ensures cache == Claimed(old(cache), now, user)
      ensures FirstClaim(old(cache), now, user).Some? ==>
        reply == "绑定完成" && bound == Some((ToUser(FirstClaim(old(cache), now, user).value.from), user))
      ensures FirstClaim(old(cache), now, user).None? ==> reply == "" && bound.None?
    {
      var deadline := now - CACHE_TIMEOUT;
      var opt: Option<BindMeta> := None;
      var kept: CacheBind := [];
      var i := 0;
      while i < |cache|
        invariant 0 <= i <= |cache|
        invariant kept == Claimed(cache[..i], now, user)
        invariant opt == FirstClaim(cache[..i], now, user)
      {
        assert cache[..i + 1][..i] == cache[..i];
        var (t, m) := cache[i];
        if t < deadline {
        } else if m.to.platform == user.platform && (m.to.user == user.uniqueId || m.to.user == user.displayId) {
          if opt == None {
            opt := Some(m);
          }
        } else {
          kept := kept + [cache[i]];
        }
        i := i + 1;
      }
      assert cache[..i] == cache;
      cache := kept;
      if opt.Some? {
        var from := ToUser(opt.value.from);
        return "绑定完成", Some((from, user));
      }
      return "", None;
    }

    /** One turn of `listen`: the reply to a recognised command, sent back
        only when it is not empty. */
    method Respond(user: User, cmd: Cmd, args: Option<seq<string>>, now: int,
                   getBind: BindLookup, rmBind: BindRemover)
      returns (feedback: Option<string>, bound: Option<(User, User)>)
      requires Fits(cmd, args)
      modifies this
      ensures feedback.Some? ==> feedback.value != ""
      ensures cmd == Help ==> feedback == Some(GetHelp(user)) && cache == old(cache)
      ensures cmd == Unbind ==> feedback == Some(TryUnbind(user, args.value, rmBind)) && cache == old(cache)
      ensures cmd == Bind ==>
        var to := ParseBindArgs(args.value);
        var from := (user.platform, user.uniqueId);
        (to.None? ==> feedback == Some(GetHelp(user)) && cache == old(cache))
        && (to.Some? && IsMapping(getBind, from, to.value) ==> feedback == Some("此用户已绑定") && cache == old(cache))
        && (to.Some? && !IsMapping(getBind, from, to.value) ==>
              feedback == Some("已记录，" + NatToString(CACHE_TIMEOUT / 1000) + "秒后失效。")
              && cache == Refreshed(old(cache), now, NewBindMeta(from, to.value)) + [(now, NewBindMeta(from, to.value))])
      ensures cmd == ConfirmBind ==> cache == Claimed(old(cache), now, user)
      ensures cmd == ConfirmBind && FirstClaim(old(cache), now, user).Some? ==>
        feedback == Some("绑定完成") && bound == Some((ToUser(FirstClaim(old(cache), now, user).value.from), user))
      ensures cmd == ConfirmBind && FirstClaim(old(cache), now, user).None? ==> feedback.None? && bound.None?
      ensures cmd != ConfirmBind ==> bound.None?
    {
      var result: string;
      bound := None;
      match cmd {
        case Help =>
          result := GetHelp(user);
        case Bind =>
          result := TryCacheBind(user, args, now, getBind);
        case ConfirmBind =>
          result, bound := TryBind(user, now);
        case Unbind =>
          result := TryUnbind(user, args.value, rmBind);
          TryUnbindReplies(user, args.value, rmBind, rmBind);
      }
      if result == "" {
        return None, bound;
      }
      return Some(result), bound;
    }
  }
}
