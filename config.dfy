/** The QQ login settings (config.rs): how the bot authenticates and which
    client protocol it announces, both chosen by a case-insensitive name in
    the configuration file. */
module QQSettings {
  import opened Wrappers
  import opened Text

  type Byte = x: nat | x < 0x100

  /** The configuration entry. The password is held as its UTF-8 bytes,
      which is what its length check and copy read. */
  datatype QQConfig = QQConfig(botId: Option<int>, password: Option<seq<Byte>>, version: string, auth: string)

  /** The login methods: account and password digest, or QR code. */
  datatype Authentication = UinPasswordMd5(uin: int, md5: seq<Byte>) | QRCode

  /** The client protocols. */
  datatype Version = IPad | MacOS | QiDian | AndroidPhone | AndroidWatch

  const MISSING_ACCOUNT := "[QQ] 需配置账号(botId)密码(password)！"
  const BAD_DIGEST := "[QQ] 密码请使用16位MD5加密"
  const UNKNOWN_AUTH := "[QQ] 登录方式目前仅支持：二维码(qr)、账号密码(pwd)"

  /** `get_auth`, as a decision on the configuration. */
  function Auth(cfg: QQConfig): Result<Authentication, string> {
    var a := ToLowerAscii(cfg.auth);
    if a == "pwd" then
      if cfg.botId.None? || cfg.password.None? then Err(MISSING_ACCOUNT)
      else if |cfg.password.value| != 16 then Err(BAD_DIGEST)
      else Ok(UinPasswordMd5(cfg.botId.value, cfg.password.value))
    else if a == "qr" then Ok(QRCode)
    else Err(UNKNOWN_AUTH)
  }

  /** `get_auth`: the password bytes are copied into a 16-byte buffer by a
      counting loop that stops at the buffer's end. */
  method GetAuth(cfg: QQConfig) returns (r: Result<Authentication, string>)
    ensures r == Auth(cfg)
  {
    var a := ToLowerAscii(cfg.auth);
    if a == "pwd" {
      if cfg.botId.None? || cfg.password.None? {
        return Err(MISSING_ACCOUNT);
      }
      var pwd := cfg.password.value;
      if |pwd| != 16 {
        return Err(BAD_DIGEST);
      }
      var buf := new Byte[16](_ => 0);
      var x := 0;
      var k := 0;
      while k < |pwd|
        invariant 0 <= k <= |pwd| && x == k
        invariant buf[..x] == pwd[..x]
      {
        if x > 15 {
          break;
        }
        buf[x] := pwd[k];
        x := x + 1;
        k := k + 1;
      }
      assert buf[..] == buf[..16] == pwd[..16] == pwd;
      return Ok(UinPasswordMd5(cfg.botId.value, buf[..]));
    } else if a == "qr" {
      return Ok(QRCode);
    }
    return Err(UNKNOWN_AUTH);
  }

  /** The outcomes of `get_auth`: the account method needs both an account
      and a 16-byte password, and then carries exactly those; QR needs
      nothing; any other name is refused. The name's case never matters. */
  lemma AuthSpec(cfg: QQConfig)
    ensures Auth(cfg).Ok? && Auth(cfg).value.UinPasswordMd5? <==>
      ToLowerAscii(cfg.auth) == "pwd" && cfg.botId.Some? && cfg.password.Some? && |cfg.password.value| == 16
    ensures Auth(cfg).Ok? && Auth(cfg).value.UinPasswordMd5? ==>
      Auth(cfg).value.uin == cfg.botId.value && Auth(cfg).value.md5 == cfg.password.value
      && |Auth(cfg).value.md5| == 16
    ensures Auth(cfg) == Ok(QRCode) <==> ToLowerAscii(cfg.auth) == "qr"
    ensures Auth(cfg).Err? ==>
      Auth(cfg).error in {MISSING_ACCOUNT, BAD_DIGEST, UNKNOWN_AUTH}
    ensures Auth(cfg) == Err(UNKNOWN_AUTH) <==> ToLowerAscii(cfg.auth) !in {"pwd", "qr"}
    ensures forall name :: EqIgnoreAsciiCase(name, cfg.auth) ==> Auth(cfg.(auth := name)) == Auth(cfg)
  {
    assert "pwd" != "qr";
  }

  /** "PWD" and "Qr" are the account and QR methods. */
  lemma AuthIgnoresCase(id: int, pwd: seq<Byte>)
    requires |pwd| == 16
    ensures Auth(QQConfig(Some(id), Some(pwd), "ipad", "PWD")) == Ok(UinPasswordMd5(id, pwd))
    ensures Auth(QQConfig(None, None, "ipad", "Qr")) == Ok(QRCode)
    ensures Auth(QQConfig(Some(id), None, "ipad", "pwd")) == Err(MISSING_ACCOUNT)
    ensures Auth(QQConfig(Some(id), Some(pwd[..15]), "ipad", "pwd")) == Err(BAD_DIGEST)
  {
    assert ToLowerAscii("PWD") == "pwd";
    assert ToLowerAscii("Qr") == "qr";
    assert ToLowerAscii("pwd") == "pwd";
  }

  /** The configuration name of each protocol. */
  function VersionName(v: Version): string {
    match v
    case IPad => "ipad"
    case MacOS => "macos"
    case QiDian => "qidian"
    case AndroidPhone => "androidphone"
    case AndroidWatch => "androidwatch"
  }

  /** `get_version`: the protocol named, in any case; any other name is
      refused with the lower-cased name in the message. */
  function GetVersion(name: string): (r: Result<Version, string>)
    ensures r.Ok? ==> VersionName(r.value) == ToLowerAscii(name)
    ensures r.Err? ==> (forall v: Version :: VersionName(v) != ToLowerAscii(name))
                       && r.error == "[QQ] 暂不支持[" + ToLowerAscii(name) + "]协议，请更换！"
  {
    var v := ToLowerAscii(name);
    if v == "ipad" then Ok(IPad)
    else if v == "macos" then Ok(MacOS)
    else if v == "qidian" then Ok(QiDian)
    else if v == "androidphone" then Ok(AndroidPhone)
    else if v == "androidwatch" then Ok(AndroidWatch)
    else Err("[QQ] 暂不支持[" + v + "]协议，请更换！")
  }

  /** Every protocol is selected by its own name, whatever its case. */
  lemma GetVersionOfName(v: Version, name: string)
    requires EqIgnoreAsciiCase(name, VersionName(v))
    ensures GetVersion(name) == Ok(v)
  {
    LowerOfLower(VersionName(v));
  }

  /** The protocol names are already lower case. */
  lemma LowerOfLower(s: string)
    requires forall i :: 0 <= i < |s| ==> !('A' <= s[i] <= 'Z')
    ensures ToLowerAscii(s) == s
  {
  }
}
