/** The bridge core (bridge/mod.rs): the client platform enumeration with
    its bit values, display names and parsing, the message and user types
    every adapter exchanges, and the service that registers named clients
    and fans a message out to every client but the sender. A client's
    broadcast channel is modelled as the sequence of messages queued on it. */
module Bridge {
  import opened Wrappers
  import opened Text

  // ---------------------------------------------------------------------
  // Platforms

  datatype Platform = Discord | QQ | Cmd | Telegram

  /** The `#[repr(u64)]` discriminant as a u64. */
  function Bits(p: Platform): bv64 {
    match p
    case Discord => 1
    case QQ => 2
    case Cmd => 4
    case Telegram => 8
  }

  /** The discriminant's value: one bit per platform. */
  function Discriminant(p: Platform): (n: nat)
    ensures n == 1 || n == 2 || n == 4 || n == 8
  {
    Bits(p) as nat
  }

  /** Distinct platforms have distinct bits. */
  lemma DiscriminantInjective(a: Platform, b: Platform)
    ensures Discriminant(a) == Discriminant(b) <==> a == b
  {
  }

  /** `BitOr`: the bitwise or of the two discriminants, as a u64. */
  function BitOr(a: Platform, b: Platform): nat {
    (Bits(a) | Bits(b)) as nat
  }

  /** The or of two platforms is commutative, and it is the sum of the two
      bits for distinct platforms (the bit itself for one platform). */
  lemma BitOrIsSum(a: Platform, b: Platform)
    ensures BitOr(a, b) == BitOr(b, a)
    ensures BitOr(a, b) == (if a == b then Discriminant(a) else Discriminant(a) + Discriminant(b))
  {
    match a {
      case Discord => OrOfDiscord(b);
      case QQ => OrOfQQ(b);
      case Cmd => OrOfCmd(b);
      case Telegram => OrOfTelegram(b);
    }
  }

  lemma OrOfDiscord(b: Platform)
    ensures BitOr(Discord, b) == BitOr(b, Discord)
    ensures BitOr(Discord, b) == (if b == Discord then 1 else 1 + Discriminant(b))
  {
    match b {
      case Discord =>
      case QQ =>
      case Cmd =>
      case Telegram =>
    }
  }

  lemma OrOfQQ(b: Platform)
    ensures BitOr(QQ, b) == BitOr(b, QQ)
    ensures BitOr(QQ, b) == (if b == QQ then 2 else 2 + Discriminant(b))
  {
    match b {
      case Discord =>
      case QQ =>
      case Cmd =>
      case Telegram =>
    }
  }

  lemma OrOfCmd(b: Platform)
    ensures BitOr(Cmd, b) == BitOr(b, Cmd)
    ensures BitOr(Cmd, b) == (if b == Cmd then 4 else 4 + Discriminant(b))
  {
    match b {
      case Discord =>
      case QQ =>
      case Cmd =>
      case Telegram =>
    }
  }

  lemma OrOfTelegram(b: Platform)
    ensures BitOr(Telegram, b) == BitOr(b, Telegram)
    ensures BitOr(Telegram, b) == (if b == Telegram then 8 else 8 + Discriminant(b))
  {
    match b {
      case Discord =>
      case QQ =>
      case Cmd =>
      case Telegram =>
    }
  }

  /** `Display`. */
  function PlatformName(p: Platform): string {
    match p
    case Discord => "DC"
    case QQ => "QQ"
    case Cmd => "CMD"
    case Telegram => "TG"
  }

  /** `FromStr`: "dc" or "qq" in any letter case; anything else is an error
      naming the text. */
  function ParsePlatform(s: string): (r: Result<Platform, string>)
    ensures r.Ok? ==> r.value == Discord || r.value == QQ
    ensures r.Err? ==> r.error == "平台'" + s + "'未定义"
  {
    if EqIgnoreAsciiCase(s, "dc") then Ok(Discord)
    else if EqIgnoreAsciiCase(s, "qq") then Ok(QQ)
    else Err("平台'" + s + "'未定义")
  }

  /** Parsing ignores ASCII letter case. */
  lemma ParsePlatformIgnoresCase(s: string, t: string)
    requires ToLowerAscii(s) == ToLowerAscii(t)
    ensures ParsePlatform(s).Ok? <==> ParsePlatform(t).Ok?
    ensures ParsePlatform(s).Ok? ==> ParsePlatform(s) == ParsePlatform(t)
  {
  }

  /** Parsing the display name gives the platform back for Discord and QQ
      only; "CMD" and "TG" do not parse. */
  lemma ParsePlatformName(p: Platform)
    ensures ParsePlatform(PlatformName(p)) == Ok(p) <==> p == Discord || p == QQ
    ensures p == Cmd || p == Telegram ==> ParsePlatform(PlatformName(p)).Err?
  {
    var low := ToLowerAscii(PlatformName(p));
    if p == Cmd {
      assert low[0] == 'c' && |low| == 3;
    } else if p == Telegram {
      assert low[0] == 't';
    } else if p == Discord {
      assert low == "dc";
    } else {
      assert low == "qq" && low[0] != 'd';
    }
  }

  /** `by`: 1 is Discord, 2 is QQ, every other value is None. */
  function PlatformBy(v: nat): (r: Option<Platform>)
    ensures r.Some? <==> v == 1 || v == 2
    ensures r.Some? ==> Discriminant(r.value) == v
  {
    if v == 1 then Some(Discord) else if v == 2 then Some(QQ) else None
  }

  /** `by` inverts the discriminant for Discord and QQ only. */
  lemma PlatformByDiscriminant(p: Platform)
    ensures PlatformBy(Discriminant(p)) == Some(p) <==> p == Discord || p == QQ
  {
  }

  // ---------------------------------------------------------------------
  // Messages and users

  datatype Image = Url(url: string) | Path(path: string) | Buff(data: seq<bv8>)

  datatype MessageContent =
    | Reply(replyId: Option<string>)
    | Plain(text: string)
    | At(id: string)
    | AtAll
    | ImageContent(image: Image)
    | ErrContent(message: string)
    | Othen

  type MessageChain = seq<MessageContent>

  datatype User = User(
    name: string,
    avatarUrl: Option<string>,
    uniqueId: nat,
    displayId: nat,
    platformId: nat,
    platform: Platform)

  // ---------------------------------------------------------------------
  // The service and its clients

  /** A registered client: its name and the messages queued on its channel. */
  class BridgeClient<M> {
    const name: string
    var inbox: seq<M>

    constructor (name: string)
      ensures this.name == name && inbox == []
    {
      this.name := name;
      inbox := [];
    }
  }

  class BridgeService<M> {
    var clients: seq<BridgeClient<M>>

    /** Client names are unique, so distinct positions hold distinct clients. */
    ghost predicate Valid()
      reads this, clients
    {
      forall i, j :: 0 <= i < j < |clients| ==> clients[i].name != clients[j].name
    }

    function Names(): (r: seq<string>)
      reads this, clients
      ensures |r| == |clients| && forall i :: 0 <= i < |r| ==> r[i] == clients[i].name
    {
      seq(|clients|, i reads this, clients requires 0 <= i < |clients| => clients[i].name)
    }

    constructor ()
      ensures clients == [] && Valid()
    {
      clients := [];
    }

    /** `create_client`: a duplicate name is refused (the source panics with
        this message) and changes nothing; otherwise a new client is appended. */
    method CreateClient(name: string) returns (r: Result<BridgeClient<M>, string>)
      requires Valid()
      modifies this
      ensures Valid()
      ensures r.Err? <==> name in old(Names())
      ensures r.Err? ==> r.error == "存在同一个桥名: " + name && clients == old(clients)
      ensures r.Ok? ==> fresh(r.value) && r.value.name == name && r.value.inbox == []
                        && clients == old(clients) + [r.value]
    {
      var i := 0;
      while i < |clients|
        invariant 0 <= i <= |clients|
        invariant forall k :: 0 <= k < i ==> clients[k].name != name
      {
        if clients[i].name == name {
          return Err("存在同一个桥名: " + name);
        }
        i := i + 1;
      }
      var c := new BridgeClient(name);
      clients := clients + [c];
      return Ok(c);
    }

    /** `send_message` (and the older `send`): queue the message on the
        channel of every registered client whose name differs from the
        sender's. Nothing else changes. */
    method SendMessage(sender: string, msg: M)
      requires Valid()
      modifies set i | 0 <= i < |clients| :: clients[i]
      ensures forall i :: 0 <= i < |clients| ==>
        clients[i].inbox == old(clients[i].inbox) + (if clients[i].name != sender then [msg] else [])
    {
      var i := 0;
      while i < |clients|
        invariant 0 <= i <= |clients|
        invariant forall k :: 0 <= k < i ==>
          clients[k].inbox == old(clients[k].inbox) + (if clients[k].name != sender then [msg] else [])
        invariant forall k :: i <= k < |clients| ==> clients[k].inbox == old(clients[k].inbox)
      {
        if clients[i].name != sender {
          clients[i].inbox := clients[i].inbox + [msg];
        }
        i := i + 1;
      }
    }

    /** `send_to` of the older service: queue the message on the client with
        the given name; with no such client nothing is sent. */
    method SendTo(target: string, msg: M)
      requires Valid()
      modifies set i | 0 <= i < |clients| :: clients[i]
      ensures forall i :: 0 <= i < |clients| ==>
        clients[i].inbox == old(clients[i].inbox) + (if clients[i].name == target then [msg] else [])
    {
      var i := 0;
      while i < |clients|
        invariant 0 <= i <= |clients|
        invariant forall k :: 0 <= k < i ==> clients[k].name != target
      {
        if clients[i].name == target {
          clients[i].inbox := clients[i].inbox + [msg];
          return;
        }
        i := i + 1;
      }
    }
  }
}
