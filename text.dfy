/** Character classes and string operations shared by the model: the Rust
    standard library's `starts_with`, `trim`, `split`, `to_lowercase` on
    ASCII keywords, and the character classes of the JavaScript and Rust
    regular-expression engines. Strings are sequences of Unicode scalar
    values. */
module Text {

  predicate IsAsciiDigit(c: char) { '0' <= c <= '9' }

  predicate IsAsciiLetter(c: char) { 'a' <= c <= 'z' || 'A' <= c <= 'Z' }

  predicate IsAscii(c: char) { c < '\U{80}' }

  predicate AllAscii(s: string) { forall i :: 0 <= i < |s| ==> IsAscii(s[i]) }

  predicate AllDigits(s: string) { forall i :: 0 <= i < |s| ==> IsAsciiDigit(s[i]) }

  /** `\w` of both regular-expression dialects without Unicode mode: [A-Za-z0-9_]. */
  predicate IsWordChar(c: char) { IsAsciiDigit(c) || IsAsciiLetter(c) || c == '_' }

  /** `\s` of JavaScript regular expressions. */
  predicate IsJsSpace(c: char) {
    ('\t' <= c <= '\r') || c == ' ' || c == '\U{A0}' || c == '\U{1680}'
    || ('\U{2000}' <= c <= '\U{200A}') || c == '\U{2028}' || c == '\U{2029}'
    || c == '\U{202F}' || c == '\U{205F}' || c == '\U{3000}' || c == '\U{FEFF}'
  }

  /** The Unicode White_Space property: Rust's `char::is_whitespace`, used by
      `str::trim`, and the `\s` class of the Rust `regex` crate. */
  predicate IsWhiteSpace(c: char) {
    ('\t' <= c <= '\r') || c == ' ' || c == '\U{85}' || c == '\U{A0}' || c == '\U{1680}'
    || ('\U{2000}' <= c <= '\U{200A}') || c == '\U{2028}' || c == '\U{2029}'
    || c == '\U{202F}' || c == '\U{205F}' || c == '\U{3000}'
  }

  predicate StartsWith(s: string, prefix: string) {
    |prefix| <= |s| && s[..|prefix|] == prefix
  }

  /** A text whose k-th character differs from the prefix's does not start with it. */
  lemma DiffersAt(s: string, prefix: string, k: nat)
    requires k < |s| && k < |prefix| && s[k] != prefix[k]
    ensures !StartsWith(s, prefix)
  {
  }

  predicate EndsWith(s: string, suffix: string) {
    |suffix| <= |s| && s[|s| - |suffix|..] == suffix
  }

  /** The index of the first character at or after `i` that is not white space. */
  function TrimStartIndex(s: string, i: nat): (r: nat)
    requires i <= |s|
    ensures i <= r <= |s|
    ensures forall k :: i <= k < r ==> IsWhiteSpace(s[k])
    ensures r == |s| || !IsWhiteSpace(s[r])
    decreases |s| - i
  {
    if i < |s| && IsWhiteSpace(s[i]) then TrimStartIndex(s, i + 1) else i
  }

  /** The end of `s[lo..j]` once its trailing white space is dropped. */
  function TrimEndIndex(s: string, lo: nat, j: nat): (r: nat)
    requires lo <= j <= |s|
    ensures lo <= r <= j
    ensures forall k :: r <= k < j ==> IsWhiteSpace(s[k])
    ensures r == lo || !IsWhiteSpace(s[r - 1])
  {
    if lo < j && IsWhiteSpace(s[j - 1]) then TrimEndIndex(s, lo, j - 1) else j
  }

  /** `str::trim`: the input without its leading and trailing white space. */
  function Trim(s: string): (r: string)
    ensures r == [] || (!IsWhiteSpace(r[0]) && !IsWhiteSpace(r[|r| - 1]))
  {
    var a := TrimStartIndex(s, 0);
    s[a..TrimEndIndex(s, a, |s|)]
  }

  lemma TrimUnpadded(s: string)
    requires s == [] || (!IsWhiteSpace(s[0]) && !IsWhiteSpace(s[|s| - 1]))
    ensures Trim(s) == s
  {
  }

  function LowerAscii(c: char): (r: char)
    ensures IsAscii(c) <==> IsAscii(r)
    ensures !('A' <= r <= 'Z')
  {
    if 'A' <= c <= 'Z' then c - 'A' + 'a' else c
  }

  /** `to_ascii_lowercase`; compared with an all-ASCII lower-case keyword it
      decides the same as Rust's Unicode `to_lowercase` (the one non-ASCII
      character that lower-cases to ASCII is the Kelvin sign, which becomes
      'k', and no keyword compared in this model contains 'k'). */
  function ToLowerAscii(s: string): (r: string)
    ensures |r| == |s|
    ensures forall i :: 0 <= i < |s| ==> r[i] == LowerAscii(s[i])
  {
    seq(|s|, i requires 0 <= i < |s| => LowerAscii(s[i]))
  }

  /** `str::eq_ignore_ascii_case`. */
  predicate EqIgnoreAsciiCase(s: string, t: string) {
    ToLowerAscii(s) == ToLowerAscii(t)
  }

  /** `str::split` on a single character: the pieces between separators,
      keeping empty pieces; there is always at least one piece. */
  function Split(s: string, sep: char): (r: seq<string>)
    ensures |r| >= 1
    decreases |s|
  {
    if |s| == 0 then [""]
    else
      var rest := Split(s[1..], sep);
      if s[0] == sep then [""] + rest
      else [[s[0]] + rest[0]] + rest[1..]
  }

  /** The pieces joined back with the separator between them. */
  function Join(parts: seq<string>, sep: char): string
    requires |parts| >= 1
  {
    if |parts| == 1 then parts[0] else parts[0] + [sep] + Join(parts[1..], sep)
  }

  /** Joining puts the separator right after the first piece. */
  lemma JoinCons(p: string, ps: seq<string>, sep: char)
    requires |ps| >= 1
    ensures Join([p] + ps, sep) == p + [sep] + Join(ps, sep)
  {
    assert ([p] + ps)[1..] == ps;
  }

  lemma JoinFive(a: string, b: string, c: string, d: string, e: string, sep: char)
    ensures Join([a, b, c, d, e], sep) == a + [sep] + b + [sep] + c + [sep] + d + [sep] + e
  {
    JoinCons(d, [e], sep);
    assert [c] + [d, e] == [c, d, e];
    JoinCons(c, [d, e], sep);
    assert [b] + [c, d, e] == [b, c, d, e];
    JoinCons(b, [c, d, e], sep);
    assert [a] + [b, c, d, e] == [a, b, c, d, e];
    JoinCons(a, [b, c, d, e], sep);
  }

  lemma JoinSix(a: string, b: string, c: string, d: string, e: string, f: string, sep: char)
    ensures Join([a, b, c, d, e, f], sep) == a + [sep] + b + [sep] + c + [sep] + d + [sep] + e + [sep] + f
  {
    JoinFive(b, c, d, e, f, sep);
    assert [a] + [b, c, d, e, f] == [a, b, c, d, e, f];
    JoinCons(a, [b, c, d, e, f], sep);
  }

  lemma {:induction false} SplitNoSeparator(p: string, sep: char)
    requires sep !in p
    ensures Split(p, sep) == [p]
    decreases |p|
  {
    if |p| > 0 {
      SplitNoSeparator(p[1..], sep);
      assert [p[0]] + p[1..] == p;
    }
  }

  /** A piece without the separator, then the separator: the piece is split off first. */
  lemma {:induction false} SplitAfterPiece(p: string, sep: char, rest: string)
    requires sep !in p
    ensures Split(p + [sep] + rest, sep) == [p] + Split(rest, sep)
    decreases |p|
  {
    var s := p + [sep] + rest;
    if |p| == 0 {
      assert s[1..] == rest;
    } else {
      assert s[1..] == p[1..] + [sep] + rest;
      SplitAfterPiece(p[1..], sep, rest);
      assert [p[0]] + p[1..] == p;
    }
  }

  /** Splitting loses nothing: joining the pieces gives the input back. */
  lemma {:induction false} JoinSplit(s: string, sep: char)
    ensures Join(Split(s, sep), sep) == s
    decreases |s|
  {
    if |s| > 0 {
      JoinSplit(s[1..], sep);
      var rest := Split(s[1..], sep);
      if s[0] == sep {
        assert [""] + rest != [] && ([""] + rest)[1..] == rest;
        assert s == [sep] + s[1..];
      } else {
        var r := [[s[0]] + rest[0]] + rest[1..];
        if |rest| == 1 {
          assert r == [[s[0]] + rest[0]];
        } else {
          assert r[1..] == rest[1..];
          assert Join(rest, sep) == rest[0] + [sep] + Join(rest[1..], sep);
        }
        assert s == [s[0]] + s[1..];
      }
    }
  }

  /** Joining pieces that do not contain the separator and splitting again
      gives the pieces back. */
  lemma {:induction false} SplitJoin(ps: seq<string>, sep: char)
    requires |ps| >= 1 && forall i :: 0 <= i < |ps| ==> sep !in ps[i]
    ensures Split(Join(ps, sep), sep) == ps
    decreases |ps|
  {
    if |ps| == 1 {
      SplitNoSeparator(ps[0], sep);
    } else {
      SplitJoin(ps[1..], sep);
      SplitAfterPiece(ps[0], sep, Join(ps[1..], sep));
      assert [ps[0]] + ps[1..] == ps;
    }
  }

  /** No piece contains the separator. */
  lemma {:induction false} SplitPiecesFree(s: string, sep: char)
    ensures forall i :: 0 <= i < |Split(s, sep)| ==> sep !in Split(s, sep)[i]
    decreases |s|
  {
    if |s| > 0 {
      SplitPiecesFree(s[1..], sep);
      var rest := Split(s[1..], sep);
      if s[0] != sep {
        var r := [[s[0]] + rest[0]] + rest[1..];
        forall i | 0 <= i < |r| ensures sep !in r[i] {
          if i > 0 { assert r[i] == rest[i]; }
        }
      }
    }
  }
}
