/** The older bridge module (bridge.rs): a message tells its platform by the
    tag at the start of its user name, "[DC] ..." or "[QQ] ...". Its client
    registry, `send` and `send_to` are the service of the `Bridge` module. */
module BridgeLegacy {
  import opened Wrappers
  import opened Text

  datatype LegacyPlatform = Discord | QQ

  /** The tag the adapters write before a user name. */
  function Tag(p: LegacyPlatform): string {
    match p
    case Discord => "[DC]"
    case QQ => "[QQ]"
  }

  /** `from_platform`: characters 1 and 2 of the user name pick the platform;
      a name shorter than three characters has none. The source slices
      bytes, so names are taken to be ASCII. */
  function FromPlatform(name: string): (r: Option<LegacyPlatform>)
    requires AllAscii(name)
    ensures |name| < 3 ==> r.None?
    ensures r == Some(Discord) <==> |name| >= 3 && name[1..3] == "DC"
    ensures r == Some(QQ) <==> |name| >= 3 && name[1..3] == "QQ"
  {
    if |name| == 0 || |name| < 3 then None
    else if name[1..3] == "DC" then Some(Discord)
    else if name[1..3] == "QQ" then Some(QQ)
    else None
  }

  /** A name carrying a platform's tag is recognised as coming from that platform. */
  lemma FromTaggedName(p: LegacyPlatform, rest: string)
    requires AllAscii(rest)
    ensures AllAscii(Tag(p) + rest)
    ensures FromPlatform(Tag(p) + rest) == Some(p)
  {
    var s := Tag(p) + rest;
    assert s[1..3] == Tag(p)[1..3];
  }
}
