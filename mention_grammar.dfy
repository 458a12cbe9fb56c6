/** The mention and emoji grammar of the markdown parsing service
    (server.ts): one anchored matcher per rule, the node each rule builds,
    the emoji render strings, and a first-match tokenizer over an explicit
    rule priority list.

    Each matcher stands for one regular expression; it is written as a
    prefix matcher over the remaining input and returns the capture array of
    `RegExp.exec` (index 0 the whole match, then the groups). The scan loop
    and the rule sorting belong to the external markdown engine; here the
    priority is a parameter of `Tokenize`. */
module MentionGrammar {
  import opened Wrappers
  import opened Text

  /** The array `RegExp.exec` returns: the whole match, then each group. */
  type Capture = seq<string>

  /** The rules registered with the engine. */
  datatype Rule =
    | AtDC | AtQQ | AtKHL | DiscordUser | DiscordEveryone | DiscordHere | DiscordEmoji | Plain

  /** The `order` each rule declares: a literal, or one inherited from an engine rule. */
  datatype OrderDecl = Literal(n: int) | EngineStrongOrder | EngineTextOrder

  /** The nodes the rules build. */
  datatype Node =
    | At(username: string)                                              // atDC, atQQ
    | SourcedAt(source: string, username: string, discriminator: string) // atKHL
    | PlainText(text: string)                                           // Plain
    | UserMention(id: string)                                           // discordUser
    | AtAll                                                             // discordEveryone, discordHere
    | Emoji(animated: bool, name: string, id: string)                   // DiscordEmoji

  /** One tokenizer step: the rule that won, the text it consumed, the node it built. */
  datatype Lexeme = Lexeme(rule: Rule, span: string, node: Node)

  const DC_TAG: string := "@[DC] "
  const QQ_TAG: string := "@[QQ] "
  const KHL_TAG: string := "@[KHL] "
  const EVERYONE: string := "@everyone"
  const HERE: string := "@here"
  const EMOJI_CDN: string := "https://cdn.discordapp.com/emojis/"

  /** The rules in the order `parseDiscrodMarkdown` registers them. */
  const Registered: seq<Rule> :=
    [AtDC, AtQQ, AtKHL, DiscordUser, DiscordEveryone, DiscordHere, DiscordEmoji, Plain]

  /** The three tagged mention rules declare order 0; `Plain` keeps the
      order of the engine's text rule it extends; the Discord rules take the
      engine's `strong` order. */
  function DeclaredOrder(r: Rule): (o: OrderDecl)
    ensures o.Literal? <==> r in {AtDC, AtQQ, AtKHL}
    ensures o.Literal? ==> o.n == 0
    ensures o == EngineTextOrder <==> r == Plain
  {
    match r
    case AtDC => Literal(0)
    case AtKHL => Literal(0)
    case AtQQ => Literal(0)
    case Plain => EngineTextOrder
    case _ => EngineStrongOrder
  }

  /** Success means: the whole match is a non-empty prefix of the input. */
  ghost predicate Anchored(r: Option<Capture>, src: string) {
    r.Some? ==> |r.value| >= 1 && 0 < |r.value[0]| <= |src| && r.value[0] == src[..|r.value[0]|]
  }

  // ---------------------------------------------------------------------
  // Character runs

  datatype CharClass = Digit | Word | NameChar

  predicate InClass(c: char, cls: CharClass) {
    match cls
    case Digit => IsAsciiDigit(c)
    case Word => IsWordChar(c)
    case NameChar => c != '\n' && c != '#'   // [^\n#]
  }

  /** The length of the longest run of `cls` characters starting at `i`. */
  function Run(s: string, i: nat, cls: CharClass): (n: nat)
    requires i <= |s|
    ensures i + n <= |s|
    decreases |s| - i
  {
    if i < |s| && InClass(s[i], cls) then 1 + Run(s, i + 1, cls) else 0
  }

  /** The run is of `cls` characters and cannot be extended. */
  lemma {:induction false} RunFacts(s: string, i: nat, cls: CharClass)
    requires i <= |s|
    ensures forall k :: i <= k < i + Run(s, i, cls) ==> InClass(s[k], cls)
    ensures i + Run(s, i, cls) == |s| || !InClass(s[i + Run(s, i, cls)], cls)
    decreases |s| - i
  {
    if i < |s| && InClass(s[i], cls) {
      RunFacts(s, i + 1, cls);
    }
  }

  /** The word run at `i`, cut out of the text, holds word characters only. */
  lemma WordRunSlice(s: string, i: nat, w: string)
    requires i <= |s| && w == s[i..i + Run(s, i, Word)]
    ensures forall k :: 0 <= k < |w| ==> IsWordChar(w[k])
  {
    RunFacts(s, i, Word);
    forall k | 0 <= k < |w| ensures IsWordChar(w[k]) {
      assert w[k] == s[i + k] && InClass(s[i + k], Word);
    }
  }

  predicate NoNewlineIn(s: string, a: nat, b: nat) {
    forall i | a <= i < b :: i < |s| && s[i] != '\n'
  }

  /** `#\d\d\d\d` at position j. */
  predicate DiscriminatorAt(s: string, j: nat) {
    j + 5 <= |s| && s[j] == '#'
    && IsAsciiDigit(s[j + 1]) && IsAsciiDigit(s[j + 2]) && IsAsciiDigit(s[j + 3]) && IsAsciiDigit(s[j + 4])
  }

  // ---------------------------------------------------------------------
  // The lazy rules atDC and atQQ: a tag, `[^\n]+?`, then a fixed tail

  /** The part after the lazy run: `#\d\d\d\d` (atDC) or `\([0-9]+\)` (atQQ). */
  datatype Tail = Discriminator | QqId

  /** The length of the tail matched at position j, if it matches there. */
  function TailLen(t: Tail, s: string, j: nat): (r: Option<nat>)
    requires j <= |s|
    ensures r.Some? ==> 0 < r.value && j + r.value <= |s|
  {
    match t
    case Discriminator => if DiscriminatorAt(s, j) then Some(5) else None
    case QqId =>
      if j < |s| && s[j] == '(' then
        var n := Run(s, j + 1, Digit);
        if n >= 1 && j + 1 + n < |s| && s[j + 1 + n] == ')' then Some(n + 2) else None
      else None
  }

  /** Where the lazy run begun at `start` can end: it is non-empty, has no
      newline, and the tail matches right after it. */
  ghost predicate IsLazyEnd(t: Tail, s: string, start: nat, j: nat) {
    start < j <= |s| && NoNewlineIn(s, start, j) && TailLen(t, s, j).Some?
  }

  /** The lazy run: the first end, trying j, j+1, ... in turn. */
  function LazyEnd(t: Tail, s: string, start: nat, j: nat): (r: Option<nat>)
    requires start < j <= |s|
    requires NoNewlineIn(s, start, j - 1)
    ensures r.Some? ==> j <= r.value && IsLazyEnd(t, s, start, r.value)
    ensures r.Some? ==> forall k :: j <= k < r.value ==> !IsLazyEnd(t, s, start, k)
    ensures r.None? ==> forall k :: j <= k ==> !IsLazyEnd(t, s, start, k)
    decreases |s| - j
  {
    if s[j - 1] == '\n' then
      assert forall k :: j <= k ==> !NoNewlineIn(s, start, k) by {
        forall k | j <= k ensures !NoNewlineIn(s, start, k) {
          assert start <= j - 1 < k;
        }
      }
      None
    else if TailLen(t, s, j).Some? then Some(j)
    else if j < |s| then LazyEnd(t, s, start, j + 1)
    else None
  }

  /** `^tag [^\n]+?tail`: the whole match runs from the tag to the end of the
      tail at the first place the lazy run can stop. */
  function MatchLazy(tag: string, t: Tail, src: string): (r: Option<Capture>)
    ensures Anchored(r, src)
    ensures r.Some? <==> StartsWith(src, tag) && exists j: nat :: IsLazyEnd(t, src, |tag|, j)
    ensures r.Some? ==> exists j: nat :: IsLazyEnd(t, src, |tag|, j)
                          && (forall k: nat :: k < j ==> !IsLazyEnd(t, src, |tag|, k))
                          && r.value == [src[..j + TailLen(t, src, j).value]]
  {
    if StartsWith(src, tag) && |tag| < |src| then
      match LazyEnd(t, src, |tag|, |tag| + 1)
      case Some(j) => Some([src[..j + TailLen(t, src, j).value]])
      case None => None
    else None
  }

  /** `/^@\[DC\] [^\n]+?#\d\d\d\d/` */
  function MatchAtDC(src: string): Option<Capture> { MatchLazy(DC_TAG, Discriminator, src) }

  /** `/^@\[QQ\] [^\n]+?\([0-9]+\)/` */
  function MatchAtQQ(src: string): Option<Capture> { MatchLazy(QQ_TAG, QqId, src) }

  // ---------------------------------------------------------------------
  // The other rules

  /** `/^@\[KHL\] ([^\n#]+)#(\d\d\d\d)/`: the name is the longest run without
      newline or '#'; a '#' and four digits must follow it. */
  function MatchAtKHL(src: string): (r: Option<Capture>)
    ensures Anchored(r, src)
    ensures r.Some? ==> |r.value| == 3 && 0 < |r.value[1]| && |r.value[2]| == 4
    ensures r.Some? ==> r.value[0] == KHL_TAG + r.value[1] + "#" + r.value[2]
    ensures r.Some? ==> '#' !in r.value[1] && '\n' !in r.value[1] && AllDigits(r.value[2])
  {
    if StartsWith(src, KHL_TAG) then
      var n := Run(src, 7, NameChar);
      RunFacts(src, 7, NameChar);
      if n >= 1 && DiscriminatorAt(src, 7 + n) then
        var c := [src[..12 + n], src[7..7 + n], src[8 + n..12 + n]];
        assert forall i :: 0 <= i < n ==> c[1][i] == src[7 + i];
        assert c[0] == KHL_TAG + c[1] + "#" + c[2];
        Some(c)
      else None
    else None
  }

  /** `/^<@!?([0-9]*)>/`: the digit run may be empty. */
  function MatchDiscordUser(src: string): (r: Option<Capture>)
    ensures Anchored(r, src)
    ensures r.Some? ==> |r.value| == 2 && AllDigits(r.value[1])
    ensures r.Some? ==> r.value[0] == "<@" + r.value[1] + ">" || r.value[0] == "<@!" + r.value[1] + ">"
  {
    if StartsWith(src, "<@") then
      var i := if 2 < |src| && src[2] == '!' then 3 else 2;
      var n := Run(src, i, Digit);
      RunFacts(src, i, Digit);
      if i + n < |src| && src[i + n] == '>' then
        var c := [src[..i + n + 1], src[i..i + n]];
        assert c[0] == src[..i] + c[1] + ">";
        Some(c)
      else None
    else None
  }

  /** `/^@everyone/` */
  function MatchEveryone(src: string): (r: Option<Capture>)
    ensures Anchored(r, src)
    ensures r.Some? <==> StartsWith(src, EVERYONE)
  {
    if StartsWith(src, EVERYONE) then Some([EVERYONE]) else None
  }

  /** `/^@here/` */
  function MatchHere(src: string): (r: Option<Capture>)
    ensures Anchored(r, src)
    ensures r.Some? <==> StartsWith(src, HERE)
  {
    if StartsWith(src, HERE) then Some([HERE]) else None
  }

  /** `/^<(a?):(\w+):(\d+)>/` */
  function MatchEmoji(src: string): (r: Option<Capture>)
    ensures Anchored(r, src)
    ensures r.Some? ==> |r.value| == 4 && (r.value[1] == "a" || r.value[1] == "")
    ensures r.Some? ==> r.value[0] == "<" + r.value[1] + ":" + r.value[2] + ":" + r.value[3] + ">"
    ensures r.Some? ==> (r.value[1] == "a" <==> src[1] == 'a')
    ensures r.Some? ==> |r.value[2]| > 0 && |r.value[3]| > 0 && AllDigits(r.value[3])
    ensures r.Some? ==> forall k :: 0 <= k < |r.value[2]| ==> IsWordChar(r.value[2][k])
  {
    if 0 < |src| && src[0] == '<' then
      var i := if 1 < |src| && src[1] == 'a' then 2 else 1;
      if i < |src| && src[i] == ':' then
        var r := EmojiAfterColon(src, i);
        assert src[1..i] == (if i == 2 then "a" else "");
        r
      else None
    else None
  }

  /** The emoji pattern from its first ':' at `i` on: a word run, ':', a
      digit run and '>'. */
  function EmojiAfterColon(src: string, i: nat): (r: Option<Capture>)
    requires 1 <= i < |src| && src[0] == '<' && src[i] == ':'
    ensures r.Some? ==> |r.value| == 4 && r.value[1] == src[1..i]
    ensures r.Some? ==> 0 < |r.value[0]| <= |src| && r.value[0] == src[..|r.value[0]|]
    ensures r.Some? ==> r.value[0] == "<" + r.value[1] + ":" + r.value[2] + ":" + r.value[3] + ">"
    ensures r.Some? ==> |r.value[2]| > 0 && |r.value[3]| > 0 && AllDigits(r.value[3])
    ensures r.Some? ==> forall k :: 0 <= k < |r.value[2]| ==> IsWordChar(r.value[2][k])
  {
    var n := Run(src, i + 1, Word);
    if n >= 1 && i + 1 + n < |src| && src[i + 1 + n] == ':' then
      var m := Run(src, i + 2 + n, Digit);
      if m >= 1 && i + 2 + n + m < |src| && src[i + 2 + n + m] == '>' then
        WordRunSlice(src, i + 1, src[i + 1..i + 1 + n]);
        RunFacts(src, i + 2 + n, Digit);
        EmojiWhole(src, i, n, m);
        Some([src[..i + 3 + n + m], src[1..i], src[i + 1..i + 1 + n], src[i + 2 + n..i + 2 + n + m]])
      else None
    else None
  }

  /** The whole emoji match is its pieces with the punctuation between them. */
  lemma EmojiWhole(src: string, i: nat, n: nat, m: nat)
    requires 1 <= i && i + 3 + n + m <= |src|
    requires src[0] == '<' && src[i] == ':' && src[i + 1 + n] == ':' && src[i + 2 + n + m] == '>'
    ensures src[..i + 3 + n + m]
            == "<" + src[1..i] + ":" + src[i + 1..i + 1 + n] + ":" + src[i + 2 + n..i + 2 + n + m] + ">"
  {
    var w := src[..i + 3 + n + m];
    var v := "<" + src[1..i] + ":" + src[i + 1..i + 1 + n] + ":" + src[i + 2 + n..i + 2 + n + m] + ">";
    assert |w| == |v|;
    forall k | 0 <= k < |w| ensures w[k] == v[k] {
      if k == 0 {
      } else if k < i {
        assert v[k] == src[1..i][k - 1];
      } else if k == i {
      } else if k < i + 1 + n {
        assert v[k] == src[i + 1..i + 1 + n][k - i - 1];
      } else if k == i + 1 + n {
      } else if k < i + 2 + n + m {
        assert v[k] == src[i + 2 + n..i + 2 + n + m][k - i - 2 - n];
      }
    }
  }

  /** A run of exactly `n` class characters, then the end or another
      character, is what `Run` measures. */
  lemma {:induction false} RunExact(s: string, i: nat, n: nat, cls: CharClass)
    requires i + n <= |s|
    requires forall k :: i <= k < i + n ==> InClass(s[k], cls)
    requires i + n == |s| || !InClass(s[i + n], cls)
    ensures Run(s, i, cls) == n
    decreases n
  {
    if n > 0 {
      RunExact(s, i + 1, n - 1, cls);
    }
  }

  /** Every KHL mention is matched: a non-empty name without '#' or line
      break, '#' and four digits give those two groups, whatever follows. */
  lemma KhlMatches(name: string, d: string, rest: string)
    requires |name| > 0 && '#' !in name && '\n' !in name
    requires |d| == 4 && AllDigits(d)
    ensures MatchAtKHL(KHL_TAG + name + "#" + d + rest) == Some([KHL_TAG + name + "#" + d, name, d])
  {
    var s := KHL_TAG + name + "#" + d + rest;
    var n := |name|;
    assert s[..7] == KHL_TAG;
    assert forall k :: 7 <= k < 7 + n ==> s[k] == name[k - 7];
    assert s[7 + n] == '#';
    RunExact(s, 7, n, NameChar);
    assert forall k :: 0 <= k < 4 ==> s[8 + n + k] == d[k];
    assert DiscriminatorAt(s, 7 + n);
    assert s[..12 + n] == KHL_TAG + name + "#" + d;
    assert s[7..7 + n] == name;
    assert s[8 + n..12 + n] == d;
  }

  /** Every user mention is matched, with or without '!', and its id group
      is the digit run, empty or not. */
  lemma UserMentionMatches(d: string, rest: string)
    requires AllDigits(d)
    ensures MatchDiscordUser("<@" + d + ">" + rest) == Some(["<@" + d + ">", d])
    ensures MatchDiscordUser("<@!" + d + ">" + rest) == Some(["<@!" + d + ">", d])
  {
    UserMentionAfter("<@", d, rest);
    UserMentionAfter("<@!", d, rest);
  }

  lemma UserMentionAfter(lead: string, d: string, rest: string)
    requires lead == "<@" || lead == "<@!"
    requires AllDigits(d)
    ensures MatchDiscordUser(lead + d + ">" + rest) == Some([lead + d + ">", d])
  {
    var s := lead + d + ">" + rest;
    var i := |lead|;
    assert s[..2] == "<@";
    assert forall k :: i <= k < i + |d| ==> s[k] == d[k - i];
    assert s[i + |d|] == '>';
    assert 2 < |s| && (s[2] == '!' <==> lead == "<@!");
    RunExact(s, i, |d|, Digit);
    assert s[..i + |d| + 1] == lead + d + ">";
    assert s[i..i + |d|] == d;
  }

  /** Every custom emoji is matched: the optional "a", the word-character
      name and the digit id give the three groups, whatever follows. */
  lemma EmojiMatches(a: string, w: string, d: string, rest: string)
    requires a == "" || a == "a"
    requires |w| > 0 && forall k :: 0 <= k < |w| ==> IsWordChar(w[k])
    requires |d| > 0 && AllDigits(d)
    ensures MatchEmoji("<" + a + ":" + w + ":" + d + ">" + rest)
            == Some(["<" + a + ":" + w + ":" + d + ">", a, w, d])
  {
    var head := "<" + a + ":" + w + ":" + d + ">";
    EmojiLayout(head, a, w, d);
    EmojiPrefixMatch(head, rest, 1 + |a|, |w|, |d|);
  }

  /** An emoji laid out at the front of a text is matched, whatever follows. */
  lemma EmojiPrefixMatch(head: string, rest: string, i: nat, n: nat, m: nat)
    requires (i == 1 || i == 2) && |head| == i + 3 + n + m && n >= 1 && m >= 1
    requires head[0] == '<' && (head[1] == 'a' <==> i == 2) && head[i] == ':'
    requires head[i + 1 + n] == ':' && head[i + 2 + n + m] == '>'
    requires forall k :: i + 1 <= k < i + 1 + n ==> IsWordChar(head[k])
    requires forall k :: i + 2 + n <= k < i + 2 + n + m ==> IsAsciiDigit(head[k])
    ensures MatchEmoji(head + rest) == Some([head, head[1..i], head[i + 1..i + 1 + n], head[i + 2 + n..i + 2 + n + m]])
  {
    EmojiPrefixLayout(head, rest, i, n, m);
    EmojiMatchAt(head + rest, i, n, m);
  }

  /** The layout of an emoji at the front of a text, read in the whole text. */
  lemma EmojiPrefixLayout(head: string, rest: string, i: nat, n: nat, m: nat)
    requires (i == 1 || i == 2) && |head| == i + 3 + n + m && n >= 1 && m >= 1
    requires head[0] == '<' && (head[1] == 'a' <==> i == 2) && head[i] == ':'
    requires head[i + 1 + n] == ':' && head[i + 2 + n + m] == '>'
    requires forall k :: i + 1 <= k < i + 1 + n ==> IsWordChar(head[k])
    requires forall k :: i + 2 + n <= k < i + 2 + n + m ==> IsAsciiDigit(head[k])
    ensures var s := head + rest;
      s[0] == '<' && (s[1] == 'a' <==> i == 2) && s[i] == ':' && s[i + 1 + n] == ':' && s[i + 2 + n + m] == '>'
      && Run(s, i + 1, Word) == n && Run(s, i + 2 + n, Digit) == m
      && s[..i + 3 + n + m] == head && s[1..i] == head[1..i]
      && s[i + 1..i + 1 + n] == head[i + 1..i + 1 + n] && s[i + 2 + n..i + 2 + n + m] == head[i + 2 + n..i + 2 + n + m]
  {
    var s := head + rest;
    forall k | i + 1 <= k < i + 1 + n ensures InClass(s[k], Word) {
      assert s[k] == head[k];
    }
    forall k | i + 2 + n <= k < i + 2 + n + m ensures InClass(s[k], Digit) {
      assert s[k] == head[k];
    }
    RunExact(s, i + 1, n, Word);
    RunExact(s, i + 2 + n, m, Digit);
    assert s[..i + 3 + n + m] == head;
  }

  /** Where the pieces of an emoji sit in its text. */
  lemma EmojiLayout(head: string, a: string, w: string, d: string)
    requires head == "<" + a + ":" + w + ":" + d + ">"
    requires a == "" || a == "a"
    requires forall k :: 0 <= k < |w| ==> IsWordChar(w[k])
    requires AllDigits(d)
    ensures var i, n, m := 1 + |a|, |w|, |d|;
      |head| == i + 3 + n + m && head[0] == '<' && (head[1] == 'a' <==> i == 2) && head[i] == ':'
      && head[i + 1 + n] == ':' && head[i + 2 + n + m] == '>'
      && head[1..i] == a && head[i + 1..i + 1 + n] == w && head[i + 2 + n..i + 2 + n + m] == d
      && (forall k :: i + 1 <= k < i + 1 + n ==> IsWordChar(head[k]))
      && (forall k :: i + 2 + n <= k < i + 2 + n + m ==> IsAsciiDigit(head[k]))
  {
    var p1 := "<" + a + ":";
    var p2 := p1 + w;
    var p3 := p2 + ":";
    var p4 := p3 + d;
    var i, n, m := 1 + |a|, |w|, |d|;
    assert head == p4 + ">";
    assert head[1..i] == p1[1..i] == a;
    assert head[i + 1..i + 1 + n] == p2[i + 1..] == w;
    assert head[i + 2 + n..i + 2 + n + m] == p4[i + 2 + n..] == d;
    forall k | i + 1 <= k < i + 1 + n ensures IsWordChar(head[k]) {
      assert head[k] == head[i + 1..i + 1 + n][k - i - 1];
    }
    forall k | i + 2 + n <= k < i + 2 + n + m ensures IsAsciiDigit(head[k]) {
      assert head[k] == head[i + 2 + n..i + 2 + n + m][k - i - 2 - n];
    }
  }

  /** The emoji matcher on a text laid out as `<`, an optional 'a', ':', a
      word run of length n, ':', a digit run of length m and '>'. */
  lemma EmojiMatchAt(src: string, i: nat, n: nat, m: nat)
    requires (i == 1 || i == 2) && i + 3 + n + m <= |src| && n >= 1 && m >= 1
    requires src[0] == '<' && (src[1] == 'a' <==> i == 2) && src[i] == ':'
    requires src[i + 1 + n] == ':' && src[i + 2 + n + m] == '>'
    requires Run(src, i + 1, Word) == n && Run(src, i + 2 + n, Digit) == m
    ensures MatchEmoji(src) == Some([src[..i + 3 + n + m], src[1..i], src[i + 1..i + 1 + n], src[i + 2 + n..i + 2 + n + m]])
  {
    assert (if 1 < |src| && src[1] == 'a' then 2 else 1) == i;
    assert EmojiAfterColon(src, i) == Some([src[..i + 3 + n + m], src[1..i], src[i + 1..i + 1 + n], src[i + 2 + n..i + 2 + n + m]]);
  }

  /** A bridged KHL mention splits into name and discriminator. */
  lemma KhlMentionExample()
    ensures MatchAtKHL("@[KHL] name#1234") == Some(["@[KHL] name#1234", "name", "1234"])
    ensures Parse(AtKHL, MatchAtKHL("@[KHL] name#1234").value) == SourcedAt("KHL", "name", "1234")
  {
    var s := "@[KHL] name#1234";
    assert StartsWith(s, KHL_TAG);
    KhlExampleName();
    assert DiscriminatorAt(s, 11);
    assert s[..16] == s && s[7..11] == "name" && s[12..16] == "1234";
  }

  lemma KhlExampleName()
    ensures Run("@[KHL] name#1234", 7, NameChar) == 4
  {
    var s := "@[KHL] name#1234";
    assert Run(s, 11, NameChar) == 0;
    assert Run(s, 10, NameChar) == 1;
    assert Run(s, 9, NameChar) == 2;
    assert Run(s, 8, NameChar) == 3;
  }

  /** The digit run of a user mention may be empty. */
  lemma EmptyUserMentionExample()
    ensures MatchDiscordUser("<@>") == Some(["<@>", ""])
    ensures MatchDiscordUser("<@!42>") == Some(["<@!42>", "42"])
  {
    var e := "<@>";
    assert StartsWith(e, "<@") && e[2] != '!';
    assert Run(e, 2, Digit) == 0;
    assert e[..3] == e && e[2..2] == "";
    var s := "<@!42>";
    assert StartsWith(s, "<@") && s[2] == '!';
    assert Run(s, 5, Digit) == 0;
    assert Run(s, 3, Digit) == 2;
    assert s[..6] == s && s[3..5] == "42";
  }

  /** The lazy DC rule stops at the first discriminator: the sample message
      of the service yields the mention alone, not the rest of the text. */
  lemma DcMentionExample()
    ensures MatchAtDC("@[DC] ab#4700#1234") == Some(["@[DC] ab#4700"])
  {
    var s := "@[DC] ab#4700#1234";
    assert StartsWith(s, DC_TAG);
    assert !DiscriminatorAt(s, 7);
    assert DiscriminatorAt(s, 8);
    assert TailLen(Discriminator, s, 8) == Some(5);
    assert LazyEnd(Discriminator, s, 6, 8) == Some(8);
    assert LazyEnd(Discriminator, s, 6, 7) == Some(8);
    assert s[..13] == "@[DC] ab#4700";
  }

  // ---------------------------------------------------------------------
  // Plain: /^[\s\S]+?(?=[^0-9A-Za-z\sÀ-￿-]|\n\n|\n|\w+:\S|$)/

  /** A character outside [0-9A-Za-z\sÀ-￿-]. A character above
      U+FFFF is two UTF-16 units in JavaScript, both inside À-￿,
      so it is never a stop character. */
  predicate IsStopChar(c: char) {
    !(IsAsciiDigit(c) || IsAsciiLetter(c) || IsJsSpace(c) || c >= '\U{C0}' || c == '-')
  }

  /** `\w+:\S` at position k. */
  predicate WordColonAt(s: string, k: nat)
    requires k <= |s|
  {
    var n := Run(s, k, Word);
    n >= 1 && k + n + 1 < |s| && s[k + n] == ':' && !IsJsSpace(s[k + n + 1])
  }

  /** The look-ahead of the Plain rule holds at position k. */
  predicate PlainBoundary(s: string, k: nat)
    requires k <= |s|
  {
    k == |s|
    || IsStopChar(s[k])
    || (k + 1 < |s| && s[k] == '\n' && s[k + 1] == '\n')
    || s[k] == '\n'
    || WordColonAt(s, k)
  }

  /** The lazy `[\s\S]+?`: the first boundary at or after k. */
  function PlainEnd(s: string, k: nat): (r: nat)
    requires 1 <= k <= |s|
    ensures k <= r <= |s| && PlainBoundary(s, r)
    ensures forall m :: k <= m < r ==> !PlainBoundary(s, m)
    decreases |s| - k
  {
    if PlainBoundary(s, k) then k else PlainEnd(s, k + 1)
  }

  /** Plain matches every non-empty input: at least its first character, up
      to the first boundary after it. */
  function MatchPlain(src: string): (r: Option<Capture>)
    ensures Anchored(r, src)
    ensures r.Some? <==> |src| > 0
    ensures r.Some? ==> |r.value| == 1 && PlainBoundary(src, |r.value[0]|)
    ensures r.Some? ==> forall m :: 1 <= m < |r.value[0]| ==> !PlainBoundary(src, m)
  {
    if |src| == 0 then None else Some([src[..PlainEnd(src, 1)]])
  }

  // ---------------------------------------------------------------------
  // The rule table

  function Match(rule: Rule, src: string): (r: Option<Capture>)
    ensures Anchored(r, src)
  {
    match rule
    case AtDC => MatchAtDC(src)
    case AtQQ => MatchAtQQ(src)
    case AtKHL => MatchAtKHL(src)
    case DiscordUser => MatchDiscordUser(src)
    case DiscordEveryone => MatchEveryone(src)
    case DiscordHere => MatchHere(src)
    case DiscordEmoji => MatchEmoji(src)
    case Plain => MatchPlain(src)
  }

  /** How many groups each rule's capture holds after the whole match. */
  function GroupCount(rule: Rule): nat {
    match rule
    case AtKHL => 2
    case DiscordUser => 1
    case DiscordEmoji => 3
    case _ => 0
  }

  lemma MatchGroupCount(rule: Rule, src: string)
    requires Match(rule, src).Some?
    ensures |Match(rule, src).value| == GroupCount(rule) + 1
  {
  }

  /** Each rule's `parse`: the node built from a capture of its own matcher. */
  function Parse(rule: Rule, c: Capture): Node
    requires |c| == GroupCount(rule) + 1
  {
    match rule
    case AtDC => At(c[0])
    case AtQQ => At(c[0])
    case AtKHL => SourcedAt("KHL", c[1], c[2])
    case DiscordUser => UserMention(c[1])
    case DiscordEveryone => AtAll
    case DiscordHere => AtAll
    case DiscordEmoji => Emoji(c[1] == "a", c[2], c[3])
    case Plain => PlainText(c[0])
  }

  // ---------------------------------------------------------------------
  // Emoji rendering

  function EmojiSrc(n: Node): string
    requires n.Emoji?
  {
    EMOJI_CDN + n.id + "." + (if n.animated then "gif" else "png")
  }

  function EmojiAlt(n: Node): string
    requires n.Emoji?
  {
    ":" + n.name + ":"
  }

  function EmojiClass(n: Node): string
    requires n.Emoji?
  {
    "d-emoji" + (if n.animated then " d-emoji-animated" else "")
  }

  /** The image address names a GIF exactly for animated emoji, a PNG otherwise. */
  lemma EmojiSrcExtension(n: Node)
    requires n.Emoji?
    ensures EndsWith(EmojiSrc(n), ".gif") <==> n.animated
    ensures EndsWith(EmojiSrc(n), ".png") <==> !n.animated
    ensures StartsWith(EmojiSrc(n), EMOJI_CDN + n.id + ".")
  {
    var s := EmojiSrc(n);
    assert s[|s| - 4..] == (if n.animated then ".gif" else ".png");
    assert s[..|EMOJI_CDN + n.id + "."|] == EMOJI_CDN + n.id + ".";
  }

  // ---------------------------------------------------------------------
  // First-match tokenizer

  /** The position in the priority list, from `i` on, of the first rule that
      matches at the start of `src`. */
  function FirstMatchFrom(src: string, priority: seq<Rule>, i: nat): (r: Option<nat>)
    requires i <= |priority|
    ensures r.Some? ==> i <= r.value < |priority| && Match(priority[r.value], src).Some?
    ensures r.Some? ==> forall j :: i <= j < r.value ==> Match(priority[j], src).None?
    ensures r.None? <==> forall j :: i <= j < |priority| ==> Match(priority[j], src).None?
    decreases |priority| - i
  {
    if i == |priority| then None
    else if Match(priority[i], src).Some? then Some(i)
    else FirstMatchFrom(src, priority, i + 1)
  }

  /** The first rule of the priority list that matches at the start of
      `src`, with its capture. */
  function FirstMatch(src: string, priority: seq<Rule>): (r: Option<(Rule, Capture)>)
    ensures r.Some? ==> Match(r.value.0, src) == Some(r.value.1)
    ensures r.Some? ==> exists i :: 0 <= i < |priority| && priority[i] == r.value.0
                          && forall j :: 0 <= j < i ==> Match(priority[j], src).None?
    ensures r.None? <==> forall i :: 0 <= i < |priority| ==> Match(priority[i], src).None?
  {
    match FirstMatchFrom(src, priority, 0)
    case None => None
    case Some(i) => Some((priority[i], Match(priority[i], src).value))
  }

  /** The text the lexemes consumed, in order. */
  function Spans(ls: seq<Lexeme>): string {
    if |ls| == 0 then "" else ls[0].span + Spans(ls[1..])
  }

  /** Tokenize: at each position, the first rule of `priority` that matches
      consumes its whole match and contributes its node; `None` when no rule
      matches somewhere (the engine's "no rule matched" defect). */
  function Tokenize(src: string, priority: seq<Rule>): (r: Option<seq<Lexeme>>)
    ensures r.Some? ==> Spans(r.value) == src
    ensures r.Some? ==> forall i :: 0 <= i < |r.value| ==> r.value[i].rule in priority && r.value[i].span != ""
    decreases |src|
  {
    if |src| == 0 then Some([])
    else
      var m := FirstMatch(src, priority);
      if m.None? then None
      else
        FirstMatchSplits(src, priority);
        var rule, c := m.value.0, m.value.1;
        var rest := Tokenize(src[|c[0]|..], priority);
        if rest.None? then None
        else Some(Prepend(Lexeme(rule, c[0], Parse(rule, c)), rest.value))
  }

  /** The winning rule's whole match is a non-empty prefix of the input, and
      its capture has the groups the rule's `parse` reads. */
  lemma FirstMatchSplits(src: string, priority: seq<Rule>)
    requires FirstMatch(src, priority).Some?
    ensures var (rule, c) := FirstMatch(src, priority).value;
      rule in priority && |c| == GroupCount(rule) + 1
      && 0 < |c[0]| <= |src| && src == c[0] + src[|c[0]|..]
  {
    var (rule, c) := FirstMatch(src, priority).value;
    MatchGroupCount(rule, src);
    assert src == src[..|c[0]|] + src[|c[0]|..];
  }

  /** A lexeme in front of others: its span comes first. */
  function Prepend(l: Lexeme, ls: seq<Lexeme>): (r: seq<Lexeme>)
    ensures Spans(r) == l.span + Spans(ls)
    ensures |r| == |ls| + 1 && r[0] == l && forall i :: 0 <= i < |ls| ==> r[i + 1] == ls[i]
  {
    assert ([l] + ls)[1..] == ls;
    [l] + ls
  }

  /** The lexeme is the first rule's match at the start of `s`: its rule,
      its whole match as the span, and the node that rule's `parse` builds. */
  predicate IsFirstMatchLexeme(s: string, priority: seq<Rule>, l: Lexeme) {
    var m := FirstMatch(s, priority);
    m.Some? && l.rule == m.value.0 && |m.value.1| == GroupCount(m.value.0) + 1
    && l.span == m.value.1[0] && l.node == Parse(m.value.0, m.value.1)
  }

  lemma SpansCons(l: Lexeme, ls: seq<Lexeme>)
    ensures Spans([l] + ls) == l.span + Spans(ls)
  {
    assert ([l] + ls)[1..] == ls;
  }

  /** Each lexeme is the first rule's match at the offset where the
      lexemes before it end. */
  ghost predicate FirstMatchTiling(src: string, priority: seq<Rule>, ls: seq<Lexeme>) {
    forall k :: 0 <= k < |ls| ==>
      |Spans(ls[..k])| <= |src| && IsFirstMatchLexeme(src[|Spans(ls[..k])|..], priority, ls[k])
  }

  /** A first-match lexeme in front of a first-match tiling of the rest. */
  lemma ConsTiling(src: string, priority: seq<Rule>, l: Lexeme, ls: seq<Lexeme>)
    requires IsFirstMatchLexeme(src, priority, l) && |l.span| <= |src|
    requires FirstMatchTiling(src[|l.span|..], priority, ls)
    ensures FirstMatchTiling(src, priority, [l] + ls)
  {
    var all := [l] + ls;
    forall k | 0 <= k < |all|
      ensures |Spans(all[..k])| <= |src| && IsFirstMatchLexeme(src[|Spans(all[..k])|..], priority, all[k])
    {
      if k == 0 {
        assert all[..0] == [];
        assert src[0..] == src;
      } else {
        var tail := src[|l.span|..];
        assert |Spans(ls[..k - 1])| <= |tail| && IsFirstMatchLexeme(tail[|Spans(ls[..k - 1])|..], priority, ls[k - 1]);
        TilingShift(src, l, ls, k);
      }
    }
  }

  /** The k-th lexeme behind `l` is the (k-1)-th of the rest, and it
      starts where that one does, shifted by `l`'s span. */
  lemma TilingShift(src: string, l: Lexeme, ls: seq<Lexeme>, k: nat)
    requires 0 < k <= |ls| && |l.span| <= |src| && |Spans(ls[..k - 1])| <= |src| - |l.span|
    ensures var all := [l] + ls;
      all[k] == ls[k - 1] && |Spans(all[..k])| == |l.span| + |Spans(ls[..k - 1])|
      && src[|Spans(all[..k])|..] == src[|l.span|..][|Spans(ls[..k - 1])|..]
  {
    var all := [l] + ls;
    assert all[..k] == [l] + ls[..k - 1];
    SpansCons(l, ls[..k - 1]);
  }

  /** The first-match policy: each lexeme is what the first matching rule of
      the priority list gives at the offset where the lexemes before it
      end; and tokenizing fails only where no rule matches some remainder. */
  lemma {:induction false} TokenizeFirstMatch(src: string, priority: seq<Rule>)
    ensures Tokenize(src, priority).Some? ==> FirstMatchTiling(src, priority, Tokenize(src, priority).value)
    ensures Tokenize(src, priority).None? ==>
      exists off :: 0 <= off < |src| && FirstMatch(src[off..], priority).None?
    decreases |src|
  {
    if |src| > 0 {
      var m := FirstMatch(src, priority);
      if m.None? {
        assert src[0..] == src;
      } else {
        FirstMatchSplits(src, priority);
        var rule, c := m.value.0, m.value.1;
        var tail := src[|c[0]|..];
        TokenizeFirstMatch(tail, priority);
        var rest := Tokenize(tail, priority);
        if rest.None? {
          assert Tokenize(src, priority).None?;
          UnmatchedInTail(src, priority, |c[0]|);
        } else {
          TokenizeStep(src, priority, rule, c, rest.value);
          ConsTiling(src, priority, Lexeme(rule, c[0], Parse(rule, c)), rest.value);
        }
      }
    }
  }

  /** A remainder of the tail where no rule matches is one of the text. */
  lemma UnmatchedInTail(src: string, priority: seq<Rule>, cut: nat)
    requires cut <= |src|
    requires exists off :: 0 <= off < |src[cut..]| && FirstMatch(src[cut..][off..], priority).None?
    ensures exists off :: 0 <= off < |src| && FirstMatch(src[off..], priority).None?
  {
    var off :| 0 <= off < |src[cut..]| && FirstMatch(src[cut..][off..], priority).None?;
    assert src[cut + off..] == src[cut..][off..];
  }

  /** A user mention at the front of a text: the tagged rules do not apply
      (it starts with '<'), so the user mention rule is the first match. */
  lemma UserMentionFirst(d: string, rest: string)
    requires AllDigits(d)
    ensures FirstMatch("<@" + d + ">" + rest, Registered) == Some((DiscordUser, ["<@" + d + ">", d]))
  {
    var s := "<@" + d + ">" + rest;
    UserMentionMatches(d, rest);
    assert s[0] == '<';
    DiffersAt(s, DC_TAG, 0);
    DiffersAt(s, QQ_TAG, 0);
    DiffersAt(s, KHL_TAG, 0);
    assert Registered[0] == AtDC && Registered[1] == AtQQ && Registered[2] == AtKHL && Registered[3] == DiscordUser;
    assert MatchAtDC(s).None? && MatchAtQQ(s).None? && MatchAtKHL(s).None?;
    assert FirstMatchFrom(s, Registered, 0) == Some(3);
  }

  /** At "@everyone" the everyone rule is the first that matches. */
  lemma ExampleEveryoneFirst()
    ensures FirstMatch("@everyone", Registered) == Some((DiscordEveryone, ["@everyone"]))
  {
    var e := "@everyone";
    DiffersAt(e, DC_TAG, 1);
    DiffersAt(e, QQ_TAG, 1);
    DiffersAt(e, KHL_TAG, 1);
    DiffersAt(e, "<@", 0);
    assert e[..|EVERYONE|] == EVERYONE;
    assert Registered[0] == AtDC && Registered[1] == AtQQ && Registered[2] == AtKHL;
    assert Registered[3] == DiscordUser && Registered[4] == DiscordEveryone;
    assert MatchAtDC(e).None? && MatchAtQQ(e).None? && MatchAtKHL(e).None? && MatchDiscordUser(e).None?;
    assert FirstMatchFrom(e, Registered, 0) == Some(4);
  }

  /** One step of the tokenizer: the first match's lexeme, then the lexemes
      of the rest of the text. */
  lemma TokenizeStep(src: string, priority: seq<Rule>, rule: Rule, c: Capture, rest: seq<Lexeme>)
    requires FirstMatch(src, priority) == Some((rule, c))
    requires |c| == GroupCount(rule) + 1 && 0 < |c[0]| <= |src|
    requires Tokenize(src[|c[0]|..], priority) == Some(rest)
    ensures Tokenize(src, priority) == Some([Lexeme(rule, c[0], Parse(rule, c))] + rest)
  {
  }

  /** A text the first match and then the next first match consume
      exactly tokenizes to those two lexemes. */
  lemma TokenizeTwo(s: string, priority: seq<Rule>, r1: Rule, c1: Capture, r2: Rule, c2: Capture)
    requires FirstMatch(s, priority) == Some((r1, c1)) && |c1| == GroupCount(r1) + 1 && 0 < |c1[0]| <= |s|
    requires FirstMatch(s[|c1[0]|..], priority) == Some((r2, c2)) && |c2| == GroupCount(r2) + 1
    requires |c2[0]| == |s| - |c1[0]| > 0
    ensures Tokenize(s, priority) == Some([Lexeme(r1, c1[0], Parse(r1, c1)), Lexeme(r2, c2[0], Parse(r2, c2))])
  {
    var e := s[|c1[0]|..];
    var l1, l2 := Lexeme(r1, c1[0], Parse(r1, c1)), Lexeme(r2, c2[0], Parse(r2, c2));
    assert Tokenize(e[|c2[0]|..], priority) == Some([]);
    TokenizeStep(e, priority, r2, c2, []);
    assert [l2] + [] == [l2];
    TokenizeStep(s, priority, r1, c1, [l2]);
    assert [l1] + [l2] == [l1, l2];
  }

  /** A user mention followed by "@everyone": the registered rules give the
      mention, then the everyone mention. */
  lemma TokenizeExample(d: string)
    requires AllDigits(d)
    ensures Tokenize("<@" + d + ">" + "@everyone", Registered)
            == Some([Lexeme(DiscordUser, "<@" + d + ">", UserMention(d)), Lexeme(DiscordEveryone, "@everyone", AtAll)])
  {
    var m := "<@" + d + ">";
    var s := m + "@everyone";
    UserMentionFirst(d, "@everyone");
    assert s[|m|..] == "@everyone";
    ExampleEveryoneFirst();
    TokenizeTwo(s, Registered, DiscordUser, [m, d], DiscordEveryone, ["@everyone"]);
  }

  /** With Plain among the rules, tokenizing never fails: Plain matches every
      non-empty remainder, so some rule always consumes a prefix. */
  lemma {:induction false} TokenizeTotal(src: string, priority: seq<Rule>)
    requires Plain in priority
    ensures Tokenize(src, priority).Some?
    decreases |src|
  {
    if |src| > 0 {
      var i :| 0 <= i < |priority| && priority[i] == Plain;
      assert Match(priority[i], src).Some?;
      var m := FirstMatch(src, priority);
      assert m.Some?;
      TokenizeTotal(src[|m.value.1[0]|..], priority);
    }
  }

  /** The registered rule set covers every input: the lexemes' spans tile it. */
  lemma RegisteredCoversInput(src: string)
    ensures Tokenize(src, Registered).Some?
    ensures Spans(Tokenize(src, Registered).value) == src
  {
    assert Registered[7] == Plain;
    TokenizeTotal(src, Registered);
  }
}
