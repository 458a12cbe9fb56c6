/** Recognition of user commands in a message chain (bridge_cmd.rs): the
    four command patterns, the extraction of their arguments, the
    classification of a chain, and the bind request record `BindMeta`.

    The patterns are those of the Rust `regex` crate, in which `\s` is the
    Unicode White_Space property and `$` is the end of the text; each is
    written here as a matcher returning the capture groups. */
module BridgeCmd {
  import opened Wrappers
  import opened Text
  import Bridge

  datatype Cmd = Help | Bind | Unbind | ConfirmBind

  /** A recognised command and its arguments (`CmdMeta`). */
  type CmdMeta = (Cmd, Option<seq<string>>)

  /** `[!！]`: the ASCII and the full-width exclamation mark. */
  predicate IsBang(c: char) { c == '!' || c == '\U{FF01}' }

  predicate StartsWithBang(s: string) { |s| > 0 && IsBang(s[0]) }

  /** The keywords after the bang, in the order of each pattern's alternation. */
  function Keywords(cmd: Cmd): seq<string> {
    match cmd
    case Help => ["帮助", "help"]
    case Bind => ["绑定", "bind"]
    case Unbind => ["解除绑定", "unbind"]
    case ConfirmBind => ["确认绑定", "confirm-bind"]
  }

  /** The position after `^[!！](?:kw1|kw2)`, if the text starts that way:
      there is one exactly when the text starts with a bang and a non-empty
      keyword, and it ends that keyword. */
  function KeywordEnd(t: string, kws: seq<string>): (r: Option<nat>)
    ensures r.Some? <==> StartsWithBang(t) && exists i :: 0 <= i < |kws| && 0 < |kws[i]| && StartsWith(t[1..], kws[i])
    ensures r.Some? ==> StartsWithBang(t) && 1 < r.value <= |t|
    ensures r.Some? ==> exists i :: 0 <= i < |kws| && r.value == 1 + |kws[i]| && StartsWith(t[1..], kws[i])
  {
    if !StartsWithBang(t) || |kws| == 0 then None
    else if 0 < |kws[0]| && StartsWith(t[1..], kws[0]) then Some(1 + |kws[0]|)
    else
      var r := KeywordEnd(t, kws[1..]);
      assert forall i :: 1 <= i < |kws| ==> kws[i] == kws[1..][i - 1];
      if r.Some? then
        var i :| 0 <= i < |kws[1..]| && r.value == 1 + |kws[1..][i]| && StartsWith(t[1..], kws[1..][i]);
        assert r.value == 1 + |kws[i + 1]| && StartsWith(t[1..], kws[i + 1]);
        r
      else r
  }

  /** The length of the longest run of non-white-space characters at `i` (`\S`). */
  function NonSpaceRun(s: string, i: nat): (n: nat)
    requires i <= |s|
    ensures i + n <= |s|
    ensures forall k :: i <= k < i + n ==> !IsWhiteSpace(s[k])
    ensures i + n == |s| || IsWhiteSpace(s[i + n])
    decreases |s| - i
  {
    if i < |s| && !IsWhiteSpace(s[i]) then 1 + NonSpaceRun(s, i + 1) else 0
  }

  predicate NoWhiteSpace(s: string) { forall k :: 0 <= k < |s| ==> !IsWhiteSpace(s[k]) }

  /** A run of exactly `n` non-white-space characters, then white space or
      the end, is what `NonSpaceRun` measures. */
  lemma {:induction false} NonSpaceExact(s: string, i: nat, n: nat)
    requires i + n <= |s|
    requires forall k :: i <= k < i + n ==> !IsWhiteSpace(s[k])
    requires i + n == |s| || IsWhiteSpace(s[i + n])
    ensures NonSpaceRun(s, i) == n
    decreases n
  {
    if n > 0 {
      NonSpaceExact(s, i + 1, n - 1);
    }
  }

  /** The whole match and the groups of a command's pattern on `t`:
      - Help `^[!！](?:帮助|help)` is a prefix match;
      - ConfirmBind `^[!！](?:确认绑定|confirm-bind)$` must cover the text;
      - Bind `^[!！](?:绑定|bind) (\S+?) (\d{4,20})$`;
      - Unbind `^[!！](?:解除绑定|unbind) (\S+?)$`.
      A lazy `\S+?` cannot pass a space, so it ends at the first space. */
  function Captures(cmd: Cmd, t: string): (r: Option<seq<string>>)
    ensures r.Some? ==> StartsWithBang(t) && |r.value| >= 1
    ensures r.Some? && cmd == Bind ==>
      |r.value| == 3 && 0 < |r.value[1]| && NoWhiteSpace(r.value[1])
      && 4 <= |r.value[2]| <= 20 && AllDigits(r.value[2])
    ensures r.Some? && cmd == Unbind ==> |r.value| == 2 && 0 < |r.value[1]| && NoWhiteSpace(r.value[1])
    ensures r.Some? && (cmd == Help || cmd == ConfirmBind) ==> |r.value| == 1
  {
    match KeywordEnd(t, Keywords(cmd))
    case None => None
    case Some(p) =>
      match cmd
      case Help => Some([t[..p]])
      case ConfirmBind => if p == |t| then Some([t]) else None
      case Bind =>
        if p < |t| && t[p] == ' ' then
          var n := NonSpaceRun(t, p + 1);
          if n >= 1 && p + 1 + n < |t| && t[p + 1 + n] == ' '
             && 4 <= |t| - (p + 2 + n) <= 20 && AllDigits(t[p + 2 + n..])
          then Some([t, t[p + 1..p + 1 + n], t[p + 2 + n..]])
          else None
        else None
      case Unbind =>
        if p < |t| && t[p] == ' ' && NoWhiteSpace(t[p + 1..]) && p + 1 < |t|
        then Some([t, t[p + 1..]])
        else None
  }

  /** A text that starts with a bang and one of a command's keywords ends
      the keyword part right after that keyword (the keywords of a command
      start with different characters). */
  lemma KeywordEndAt(t: string, cmd: Cmd, kw: string)
    requires StartsWithBang(t) && kw in Keywords(cmd) && StartsWith(t[1..], kw)
    ensures KeywordEnd(t, Keywords(cmd)) == Some(1 + |kw|)
  {
    var kws := Keywords(cmd);
    assert |kws| == 2 && 0 < |kws[0]| && 0 < |kws[1]| && kws[0][0] != kws[1][0];
    if kw != kws[0] {
      assert t[1..][0] == kw[0] == kws[1][0];
      DiffersAt(t[1..], kws[0], 0);
      assert kws[1..] == [kw];
      assert KeywordEnd(t, kws[1..]) == Some(1 + |kw|);
    }
  }

  /** What a match spells: the bang, a keyword of the command, then (Bind)
      a space, the platform group, a space and the id group, or (Unbind) a
      space and the platform group. The whole match is the text, except for
      Help, whose match is the bang and keyword at its start. */
  lemma CapturesSpell(cmd: Cmd, t: string)
    requires Captures(cmd, t).Some?
    ensures var g := Captures(cmd, t).value;
      exists kw :: kw in Keywords(cmd) && StartsWith(t, [t[0]] + kw) &&
        match cmd
        case Help => g == [[t[0]] + kw]
        case ConfirmBind => g == [t] && t == [t[0]] + kw
        case Bind => g[0] == t && t == [t[0]] + kw + " " + g[1] + " " + g[2]
        case Unbind => g[0] == t && t == [t[0]] + kw + " " + g[1]
  {
    var kw := KeywordSpelled(t, cmd);
    var g := Captures(cmd, t).value;
    var p := 1 + |kw|;
    assert StartsWith(t, [t[0]] + kw);
    match cmd {
      case Help =>
      case ConfirmBind =>
      case Bind => BindSpelled(t, kw);
      case Unbind => UnbindSpelled(t, kw);
    }
  }

  /** The keyword a text's keyword part ends. */
  lemma KeywordSpelled(t: string, cmd: Cmd) returns (kw: string)
    requires KeywordEnd(t, Keywords(cmd)).Some?
    ensures kw in Keywords(cmd) && KeywordEnd(t, Keywords(cmd)).value == 1 + |kw| <= |t|
    ensures t[..1 + |kw|] == [t[0]] + kw
  {
    var kws := Keywords(cmd);
    var i :| 0 <= i < |kws| && KeywordEnd(t, kws).value == 1 + |kws[i]| && StartsWith(t[1..], kws[i]);
    kw := kws[i];
    PrefixAfterFirst(t, kw);
  }

  /** A text whose tail starts with `kw` starts with its first character and `kw`. */
  lemma PrefixAfterFirst(t: string, kw: string)
    requires 0 < |t| && StartsWith(t[1..], kw)
    ensures t[..1 + |kw|] == [t[0]] + kw
  {
    assert t[1..1 + |kw|] == t[1..][..|kw|];
    assert t[..1 + |kw|] == [t[0]] + t[1..1 + |kw|];
  }

  lemma BindSpelled(t: string, kw: string)
    requires Captures(Bind, t).Some? && KeywordEnd(t, Keywords(Bind)).value == 1 + |kw| <= |t|
    requires t[..1 + |kw|] == [t[0]] + kw
    ensures var g := Captures(Bind, t).value; g[0] == t && t == [t[0]] + kw + " " + g[1] + " " + g[2]
  {
    var p := 1 + |kw|;
    var n := BindGroups(t, p);
    SplitAround(t, p, n);
  }

  /** Where the Bind groups sit: a space at `p`, the platform run of length
      `n`, a space, then the id to the end. */
  lemma BindGroups(t: string, p: nat) returns (n: nat)
    requires Captures(Bind, t).Some? && KeywordEnd(t, Keywords(Bind)) == Some(p)
    ensures p + 2 + n <= |t| && t[p] == ' ' && t[p + 1 + n] == ' '
    ensures Captures(Bind, t).value == [t, t[p + 1..p + 1 + n], t[p + 2 + n..]]
  {
    n := NonSpaceRun(t, p + 1);
  }

  /** A text cut around two positions. */
  lemma SplitAround(t: string, p: nat, n: nat)
    requires p + 2 + n <= |t|
    ensures t == t[..p] + [t[p]] + t[p + 1..p + 1 + n] + [t[p + 1 + n]] + t[p + 2 + n..]
  {
    assert t == t[..p] + t[p..];
  }

  lemma UnbindSpelled(t: string, kw: string)
    requires Captures(Unbind, t).Some? && KeywordEnd(t, Keywords(Unbind)).value == 1 + |kw| <= |t|
    requires t[..1 + |kw|] == [t[0]] + kw
    ensures var g := Captures(Unbind, t).value; g[0] == t && t == [t[0]] + kw + " " + g[1]
  {
    var p := 1 + |kw|;
    UnbindGroup(t, p);
    SplitAt(t, p);
  }

  /** A text cut around one position. */
  lemma SplitAt(t: string, p: nat)
    requires p < |t|
    ensures t == t[..p] + [t[p]] + t[p + 1..]
  {
    assert t == t[..p] + t[p..];
  }

  lemma UnbindGroup(t: string, p: nat)
    requires Captures(Unbind, t).Some? && KeywordEnd(t, Keywords(Unbind)) == Some(p)
    ensures p + 1 < |t| && t[p] == ' ' && Captures(Unbind, t).value == [t, t[p + 1..]]
  {
  }

  /** Every bind command is matched, with its platform and id groups. */
  lemma CapturesBind(b: char, kw: string, p: string, d: string)
    requires IsBang(b) && kw in Keywords(Bind)
    requires 0 < |p| && NoWhiteSpace(p) && 4 <= |d| <= 20 && AllDigits(d)
    ensures Captures(Bind, [b] + kw + " " + p + " " + d) == Some([[b] + kw + " " + p + " " + d, p, d])
  {
    var t := [b] + kw + " " + p + " " + d;
    BindLayout(t, b, kw, p, d);
    BindMatchAt(t, kw, |p|);
  }

  /** Where the pieces of a bind command sit in its text. */
  lemma BindLayout(t: string, b: char, kw: string, p: string, d: string)
    requires t == [b] + kw + " " + p + " " + d
    requires IsBang(b) && NoWhiteSpace(p)
    ensures var q, n := 1 + |kw|, |p|;
      StartsWithBang(t) && StartsWith(t[1..], kw) && q + 2 + n + |d| == |t|
      && t[q] == ' ' && t[q + 1 + n] == ' ' && NonSpaceRun(t, q + 1) == n
      && t[q + 1..q + 1 + n] == p && t[q + 2 + n..] == d
  {
    var q, n := 1 + |kw|, |p|;
    assert t[1..][..|kw|] == kw;
    forall k | q + 1 <= k < q + 1 + n ensures !IsWhiteSpace(t[k]) {
      assert t[k] == p[k - q - 1];
    }
    NonSpaceExact(t, q + 1, n);
    assert t[q + 1..q + 1 + n] == p;
    assert t[q + 2 + n..] == d;
  }

  /** The Bind pattern on a text laid out as bang, keyword, space, a run of
      `n` non-space characters, space and the digits. */
  lemma BindMatchAt(t: string, kw: string, n: nat)
    requires kw in Keywords(Bind) && StartsWithBang(t) && StartsWith(t[1..], kw)
    requires var q := 1 + |kw|;
      (q + 2 + n <= |t| && n >= 1
       && t[q] == ' ' && t[q + 1 + n] == ' ' && NonSpaceRun(t, q + 1) == n
       && 4 <= |t| - (q + 2 + n) <= 20 && AllDigits(t[q + 2 + n..]))
    ensures var q := 1 + |kw|; Captures(Bind, t) == Some([t, t[q + 1..q + 1 + n], t[q + 2 + n..]])
  {
    KeywordEndAt(t, Bind, kw);
  }

  /** Every unbind command is matched, with its platform group. */
  lemma CapturesUnbind(b: char, kw: string, w: string)
    requires IsBang(b) && kw in Keywords(Unbind)
    requires 0 < |w| && NoWhiteSpace(w)
    ensures Captures(Unbind, [b] + kw + " " + w) == Some([[b] + kw + " " + w, w])
  {
    var t := [b] + kw + " " + w;
    assert t[1..][..|kw|] == kw;
    KeywordEndAt(t, Unbind, kw);
    assert t[1 + |kw|] == ' ' && t[2 + |kw|..] == w;
  }

  /** The confirm command alone is matched. */
  lemma CapturesConfirmBind(b: char, kw: string)
    requires IsBang(b) && kw in Keywords(ConfirmBind)
    ensures Captures(ConfirmBind, [b] + kw) == Some([[b] + kw])
  {
    var t := [b] + kw;
    assert t[1..] == kw;
    KeywordEndAt(t, ConfirmBind, kw);
  }

  /** The help command is matched whatever follows it. */
  lemma CapturesHelp(b: char, kw: string, rest: string)
    requires IsBang(b) && kw in Keywords(Help)
    ensures Captures(Help, [b] + kw + rest) == Some([[b] + kw])
  {
    var t := [b] + kw + rest;
    assert t[1..][..|kw|] == kw;
    KeywordEndAt(t, Help, kw);
    assert t[..1 + |kw|] == [b] + kw;
  }

  /** `is_match`. */
  predicate Matches(cmd: Cmd, t: string) { Captures(cmd, t).Some? }

  /** The arguments of a command in the trimmed input: the groups of its
      pattern; no match means the input is not that command; a pattern
      without groups has no arguments to give. */
  function Args(cmd: Cmd, input: string): (r: Option<seq<string>>)
    ensures r.Some? ==> Captures(cmd, Trim(input)).Some? && r.value == Captures(cmd, Trim(input)).value[1..]
    ensures r.Some? <==> (cmd == Bind || cmd == Unbind) && Matches(cmd, Trim(input))
  {
    match Captures(cmd, Trim(input))
    case None => None
    case Some(cap) => if |cap| < 2 then None else Some(cap[1..])
  }

  /** `get_args` as the source writes it: a text the pattern does not match
      yields `Some([])` instead of `None`. */
  function ArgsAsWritten(cmd: Cmd, input: string): Option<seq<string>> {
    match Captures(cmd, Trim(input))
    case None => Some([])
    case Some(cap) => if |cap| < 2 then None else Some(cap[1..])
  }

  /** As written, the Bind arguments are never `None`, so `kind` stops at
      Bind for every bang text that is neither ConfirmBind nor Help: an
      unbind command becomes a Bind with no arguments. */
  lemma ArgsAsWrittenSwallowsUnbind(input: string)
    ensures ArgsAsWritten(Bind, input).Some?
    ensures !Matches(Bind, Trim(input)) ==> ArgsAsWritten(Bind, input) == Some([])
  {
  }

  /** The classification of one text with `get_args` as written. */
  function ClassifyAsWritten(text: string): Option<CmdMeta> {
    if Matches(ConfirmBind, text) then Some((ConfirmBind, None))
    else if Matches(Help, text) then Some((Help, None))
    else if ArgsAsWritten(Bind, text).Some? then Some((Bind, ArgsAsWritten(Bind, text)))
    else if ArgsAsWritten(Unbind, text).Some? then Some((Unbind, ArgsAsWritten(Unbind, text)))
    else None
  }

  /** The unbind command is read as a Bind without arguments as written,
      and as an Unbind of "dc" once a failed match yields `None`. */
  lemma UnbindTextExample()
    ensures ArgsAsWritten(Bind, "!解除绑定 dc") == Some([])
    ensures ClassifyAsWritten("!解除绑定 dc") == Some((Bind, Some([])))
    ensures Classify("!解除绑定 dc") == Some((Unbind, Some(["dc"])))
  {
    UnbindTextCaptures();
  }

  lemma UnbindTextCaptures()
    ensures Trim("!解除绑定 dc") == "!解除绑定 dc"
    ensures !Matches(ConfirmBind, "!解除绑定 dc") && !Matches(Help, "!解除绑定 dc")
    ensures Captures(Bind, "!解除绑定 dc") == None
    ensures Captures(Unbind, "!解除绑定 dc") == Some(["!解除绑定 dc", "dc"])
  {
    TrimUnpadded("!解除绑定 dc");
    UnbindTextMisses();
    UnbindTextNotBind();
    UnbindTextUnbind();
  }

  lemma UnbindTextMisses()
    ensures !Matches(ConfirmBind, "!解除绑定 dc") && !Matches(Help, "!解除绑定 dc")
  {
    var t := "!解除绑定 dc";
    assert t[1] == '解';
    KeywordsMissed(t, ConfirmBind);
    KeywordsMissed(t, Help);
  }

  lemma UnbindTextNotBind()
    ensures Captures(Bind, "!解除绑定 dc") == None
  {
    var t := "!解除绑定 dc";
    assert t[1] == '解';
    KeywordsMissed(t, Bind);
  }

  lemma UnbindTextUnbind()
    ensures Captures(Unbind, "!解除绑定 dc") == Some(["!解除绑定 dc", "dc"])
  {
    var t := "!解除绑定 dc";
    assert StartsWith(t[1..], "解除绑定") by { assert t[1..][..4] == "解除绑定"; }
    assert KeywordEnd(t, Keywords(Unbind)) == Some(5);
    assert t[5] == ' ' && t[6..] == "dc";
  }

  /** A text whose second character starts no keyword of a command matches
      none of them. */
  lemma KeywordsMissed(t: string, cmd: Cmd)
    requires |t| >= 2 && forall kw :: kw in Keywords(cmd) ==> |kw| > 0 && kw[0] != t[1]
    ensures KeywordEnd(t, Keywords(cmd)) == None
  {
    var kws := Keywords(cmd);
    assert forall i :: 0 <= i < |kws| ==> kws[i] in kws;
    NoKeywordStarts(t, kws);
  }

  lemma {:induction false} NoKeywordStarts(t: string, kws: seq<string>)
    requires |t| >= 2 && forall i :: 0 <= i < |kws| ==> |kws[i]| > 0 && kws[i][0] != t[1]
    ensures KeywordEnd(t, kws) == None
  {
    if StartsWithBang(t) && |kws| > 0 {
      assert !StartsWith(t[1..], kws[0]) by { assert t[1..][0] == t[1]; }
      NoKeywordStarts(t, kws[1..]);
    }
  }

  /** The loop of `get_args` over the groups of a match: every group after
      the whole match, in order. */
  method CollectGroups(cap: seq<string>) returns (param: seq<string>)
    requires |cap| >= 1
    ensures param == cap[1..]
  {
    param := [];
    var x := 1;
    while x < |cap|
      invariant 1 <= x <= |cap|
      invariant param == cap[1..x]
    {
      param := param + [cap[x]];
      x := x + 1;
    }
    assert cap[1..x] == cap[1..];
  }

  /** `get_args`: the groups of the single, anchored match. */
  method GetArgs(cmd: Cmd, input: string) returns (r: Option<seq<string>>)
    ensures r == Args(cmd, input)
  {
    var caps := Captures(cmd, Trim(input));
    if caps.None? || |caps.value| < 2 {
      return None;
    }
    var param := CollectGroups(caps.value);
    return Some(param);
  }

  /** The classification of one text, in the order of the source: the
      ConfirmBind and Help patterns on the text itself, then Bind and Unbind
      arguments of the trimmed text. */
  function Classify(text: string): Option<CmdMeta> {
    if Matches(ConfirmBind, text) then Some((ConfirmBind, None))
    else if Matches(Help, text) then Some((Help, None))
    else if Args(Bind, text).Some? then Some((Bind, Args(Bind, text)))
    else if Args(Unbind, text).Some? then Some((Unbind, Args(Unbind, text)))
    else None
  }

  /** `kind` from element `i` on: elements other than text are skipped; the
      first text must start with a bang; a text that is no command passes
      the turn to the next text. */
  function KindFrom(chain: Bridge.MessageChain, i: nat, isCmd: bool): Option<CmdMeta>
    requires i <= |chain|
    decreases |chain| - i
  {
    if i == |chain| then None
    else if chain[i].Plain? then
      if !isCmd && !StartsWithBang(chain[i].text) then None
      else match Classify(chain[i].text)
        case Some(m) => Some(m)
        case None => KindFrom(chain, i + 1, true)
    else KindFrom(chain, i + 1, isCmd)
  }

  function KindOf(chain: Bridge.MessageChain): Option<CmdMeta> {
    KindFrom(chain, 0, false)
  }

  /** `kind`: the loop with its `is_cmd` flag. */
  method Kind(chain: Bridge.MessageChain) returns (r: Option<CmdMeta>)
    ensures r == KindOf(chain)
  {
    var isCmd := false;
    var i := 0;
    while i < |chain|
      invariant 0 <= i <= |chain|
      invariant KindFrom(chain, i, isCmd) == KindOf(chain)
    {
      if chain[i].Plain? {
        var text := chain[i].text;
        if !isCmd && !StartsWithBang(text) {
          return None;
        }
        isCmd := true;
        if Matches(ConfirmBind, text) {
          return Some((ConfirmBind, None));
        }
        if Matches(Help, text) {
          return Some((Help, None));
        }
        var param := GetArgs(Bind, text);
        if param.Some? {
          return Some((Bind, param));
        }
        param := GetArgs(Unbind, text);
        if param.Some? {
          return Some((Unbind, param));
        }
      }
      i := i + 1;
    }
    return None;
  }

  /** The arguments a recognised command carries: a platform token and a 4
      to 20 digit id for Bind, one token for Unbind, none for the others. */
  predicate ArgsShaped(m: CmdMeta) {
    (m.0 == Bind ==> m.1.Some? && |m.1.value| == 2 && 4 <= |m.1.value[1]| <= 20 && AllDigits(m.1.value[1]))
    && (m.0 == Unbind ==> m.1.Some? && |m.1.value| == 1)
    && (m.0 == Help || m.0 == ConfirmBind ==> m.1.None?)
  }

  lemma ClassifyShaped(text: string)
    ensures Classify(text).Some? ==> ArgsShaped(Classify(text).value)
  {
    if !Matches(ConfirmBind, text) && !Matches(Help, text) {
      if Args(Bind, text).Some? {
        var g := Captures(Bind, Trim(text)).value;
        assert Args(Bind, text).value == [g[1], g[2]];
      } else if Args(Unbind, text).Some? {
        var g := Captures(Unbind, Trim(text)).value;
        assert Args(Unbind, text).value == [g[1]];
      }
    }
  }

  /** Whatever `kind` recognises is a command that some text of the chain
      spells, with the arguments its pattern captured. */
  lemma {:induction false} KindFromArgs(chain: Bridge.MessageChain, i: nat, isCmd: bool)
    requires i <= |chain|
    ensures KindFrom(chain, i, isCmd).Some? ==> ArgsShaped(KindFrom(chain, i, isCmd).value)
    decreases |chain| - i
  {
    if i < |chain| {
      if chain[i].Plain? && (isCmd || StartsWithBang(chain[i].text)) {
        ClassifyShaped(chain[i].text);
        if Classify(chain[i].text).None? {
          KindFromArgs(chain, i + 1, true);
        }
      } else if !chain[i].Plain? {
        KindFromArgs(chain, i + 1, isCmd);
      }
    }
  }

  /** When the first text does not start with a bang, the chain is no command. */
  lemma {:induction false} KindNeedsBang(chain: Bridge.MessageChain, j: nat)
    requires j < |chain| && chain[j].Plain? && !StartsWithBang(chain[j].text)
    requires forall k :: 0 <= k < j ==> !chain[k].Plain?
    ensures KindOf(chain) == None
  {
    var i := 0;
    while i < j
      invariant 0 <= i <= j
      invariant KindFrom(chain, i, false) == KindOf(chain)
    {
      i := i + 1;
    }
  }

  /** The Help pattern is a prefix match; the ConfirmBind pattern is not. */
  lemma PatternAnchoring()
    ensures Matches(Help, "!helpx")
    ensures Matches(ConfirmBind, "!confirm-bind")
    ensures !Matches(ConfirmBind, "!confirm-bindx")
  {
    CapturesHelp('!', "help", "x");
    assert ['!'] + "help" + "x" == "!helpx";
    CapturesConfirmBind('!', "confirm-bind");
    assert ['!'] + "confirm-bind" == "!confirm-bind";
    var d := "!confirm-bindx";
    assert StartsWith(d[1..], "confirm-bind") by { assert d[1..][..12] == "confirm-bind"; }
    KeywordEndAt(d, ConfirmBind, "confirm-bind");
  }

  // ---------------------------------------------------------------------
  // Bind requests

  /** One side of a bind request: a platform and a user id (u64). */
  datatype MetaUnit = MetaUnit(platform: Bridge.Platform, user: nat)

  /** `BindMeta`: the requesting side and the side it points to. */
  datatype BindMeta = BindMeta(from: MetaUnit, to: MetaUnit)

  function NewBindMeta(a: (Bridge.Platform, nat), b: (Bridge.Platform, nat)): (m: BindMeta)
    ensures m.from.platform == a.0 && m.from.user == a.1
    ensures m.to.platform == b.0 && m.to.user == b.1
  {
    BindMeta(MetaUnit(a.0, a.1), MetaUnit(b.0, b.1))
  }

  /** `PartialEq` of `BindMeta`: the same pair of sides in either order. */
  predicate MetaEq(x: BindMeta, y: BindMeta) {
    (x.from == y.from && x.to == y.to) || (x.from == y.to && x.to == y.from)
  }

  /** The equality ignores direction and is an equivalence. */
  lemma MetaEqUnordered(a: (Bridge.Platform, nat), b: (Bridge.Platform, nat), x: BindMeta, y: BindMeta, z: BindMeta)
    ensures MetaEq(NewBindMeta(a, b), NewBindMeta(b, a))
    ensures MetaEq(x, x)
    ensures MetaEq(x, y) ==> MetaEq(y, x)
    ensures MetaEq(x, y) && MetaEq(y, z) ==> MetaEq(x, z)
  {
  }

  /** `MetaUnit::to_user`: the platform and the id, every other field empty or zero. */
  function ToUser(u: MetaUnit): (r: Bridge.User)
    ensures r.platform == u.platform && r.uniqueId == u.user
    ensures r.name == "" && r.avatarUrl.None? && r.platformId == 0 && r.displayId == 0
  {
    Bridge.User("", None, u.user, 0, 0, u.platform)
  }
}
