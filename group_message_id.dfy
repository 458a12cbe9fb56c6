/** The bridge-side identifier of a QQ group message
    (bridge_qq/group_message_id.rs): the group number, the message sequence
    number and the send time, written as "|group|seqs|time|". `new` is the
    datatype constructor. */
module GroupMessageIds {
  import opened Wrappers
  import opened Text
  import opened Decimal

  datatype GroupMessageId = GroupMessageId(groupId: nat, seqs: int, time: int)

  /** The field widths of the source: u64, i32 and i64. */
  predicate InRange(g: GroupMessageId) {
    g.groupId <= U64_MAX && I32_MIN <= g.seqs <= I32_MAX && I64_MIN <= g.time <= I64_MAX
  }

  /** `Display`: "|group|seqs|time|". */
  function ToString(g: GroupMessageId): string {
    "|" + NatToString(g.groupId) + "|" + IntToString(g.seqs) + "|" + IntToString(g.time) + "|"
  }

  /** What `from_bridge_message_id` needs to not panic: at least four
      '|'-separated fields, and fields 1, 2 and 3 parse as u64, i32 and i64. */
  predicate WellFormed(s: string) {
    var f := Split(s, '|');
    |f| >= 4 && ParseU64(f[1]).Some? && ParseI32(f[2]).Some? && ParseI64(f[3]).Some?
  }

  /** `from_bridge_message_id`: fields 1, 2 and 3 of the '|'-split; field 0
      and any fields after the fourth are ignored. */
  function FromBridgeMessageId(s: string): (g: GroupMessageId)
    requires WellFormed(s)
    ensures InRange(g)
  {
    var f := Split(s, '|');
    GroupMessageId(ParseU64(f[1]).value, ParseI32(f[2]).value, ParseI64(f[3]).value)
  }

  lemma NoBarInInt(i: int)
    ensures '|' !in IntToString(i)
  {
    if '|' in IntToString(i) {
      IntToStringChars(i, '|');
    }
  }

  lemma NoBarInNat(n: nat)
    ensures '|' !in NatToString(n)
  {
  }

  /** The written identifier is its fields joined with '|', between two empty fields. */
  lemma ToStringIsJoin(g: GroupMessageId)
    ensures ToString(g) == Join(["", NatToString(g.groupId), IntToString(g.seqs), IntToString(g.time), ""], '|')
  {
    JoinFive("", NatToString(g.groupId), IntToString(g.seqs), IntToString(g.time), "", '|');
  }

  /** The written identifier splits into an empty field, the three numbers
      and an empty field. */
  lemma ToStringFields(g: GroupMessageId)
    ensures Split(ToString(g), '|')
            == ["", NatToString(g.groupId), IntToString(g.seqs), IntToString(g.time), ""]
  {
    var ps := ["", NatToString(g.groupId), IntToString(g.seqs), IntToString(g.time), ""];
    NoBarInNat(g.groupId);
    NoBarInInt(g.seqs);
    NoBarInInt(g.time);
    ToStringIsJoin(g);
    SplitJoin(ps, '|');
  }

  /** Reading back a written identifier gives the same fields, negative
      sequence numbers and times included (the source's own test). */
  lemma RoundTrip(g: GroupMessageId)
    requires InRange(g)
    ensures WellFormed(ToString(g))
    ensures FromBridgeMessageId(ToString(g)) == g
  {
    ToStringFields(g);
    ParseUnsignedOfString(g.groupId, U64_MAX);
    ParseSignedOfString(g.seqs, I32_MIN, I32_MAX);
    ParseSignedOfString(g.time, I64_MIN, I64_MAX);
  }

  /** The texts `Display` writes: five '|'-separated fields, the outer two
      empty, the inner three without a '+' sign or leading zeros. */
  predicate Canonical(s: string) {
    var f := Split(s, '|');
    |f| == 5 && f[0] == "" && f[4] == ""
    && CanonicalDigits(f[1]) && CanonicalSigned(f[2]) && CanonicalSigned(f[3])
  }

  /** Every written identifier is canonical. */
  lemma ToStringCanonical(g: GroupMessageId)
    ensures Canonical(ToString(g))
  {
    ToStringFields(g);
    NatToStringCanonical(g.groupId);
    IntToStringCanonical(g.seqs);
    IntToStringCanonical(g.time);
  }

  /** Writing back what was read from a canonical identifier gives the same
      text: on the texts `Display` can write, reading and writing are
      inverse both ways. */
  lemma CanonicalRoundTrip(s: string)
    requires WellFormed(s) && Canonical(s)
    ensures ToString(FromBridgeMessageId(s)) == s
  {
    var f := Split(s, '|');
    var g := FromBridgeMessageId(s);
    UnsignedOfCanonical(f[1], U64_MAX);
    SignedOfCanonical(f[2], I32_MIN, I32_MAX);
    SignedOfCanonical(f[3], I64_MIN, I64_MAX);
    ToStringIsJoin(g);
    assert f == ["", NatToString(g.groupId), IntToString(g.seqs), IntToString(g.time), ""];
    JoinSplit(s, '|');
  }

  /** Two identifiers with the same text have the same fields. */
  lemma ToStringInjective(g: GroupMessageId, h: GroupMessageId)
    requires InRange(g) && InRange(h) && ToString(g) == ToString(h)
    ensures g == h
  {
    RoundTrip(g);
    RoundTrip(h);
  }
}
