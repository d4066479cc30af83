/** The byte string that identifies a claimed inbox batch before it is hashed. */
module InboxIdentity {
  type byte = b: int | 0 <= b < 256

  const COLON: byte := 58

  /** "bazilion-inbox-turn-v1" and a zero byte */
  const PREFIX: seq<byte> := [
    98, 97, 122, 105, 108, 105, 111, 110, 45, 105, 110, 98, 111, 120, 45,
    116, 117, 114, 110, 45, 118, 49, 0]

  /** A length in decimal. */
  function Decimal(n: nat): (d: seq<byte>)
    ensures d != [] && forall i | 0 <= i < |d| :: 48 <= d[i] <= 57
  {
    if n < 10 then [(48 + n) as byte] else Decimal(n / 10) + [(48 + n % 10) as byte]
  }

  function Field(value: seq<byte>): seq<byte> {
    Decimal(|value|) + [COLON] + value
  }

  function Fields(values: seq<seq<byte>>): seq<byte> {
    if values == [] then [] else Fields(values[..|values| - 1]) + Field(values[|values| - 1])
  }

  function Identity(agentId: seq<byte>, messageIds: seq<seq<byte>>): seq<byte> {
    PREFIX + Fields([agentId] + messageIds)
  }

  /** What the running hash has been fed when the digest is taken. */
  method InboxAttemptBytes(agentId: seq<byte>, messageIds: seq<seq<byte>>) returns (fed: seq<byte>)
    ensures fed == Identity(agentId, messageIds)
  {
    fed := PREFIX;
    fed := fed + Decimal(|agentId|) + [COLON];
    fed := fed + agentId;
    assert [agentId][..0] == [] && ([agentId] + messageIds)[..1] == [agentId];
    for i := 0 to |messageIds|
      invariant fed == PREFIX + Fields(([agentId] + messageIds)[..i + 1])
    {
      var id := messageIds[i];
      ghost var values := ([agentId] + messageIds)[..i + 2];
      assert values[..|values| - 1] == ([agentId] + messageIds)[..i + 1];
      fed := fed + Decimal(|id|) + [COLON];
      fed := fed + id;
    }
    assert ([agentId] + messageIds)[..|messageIds| + 1] == [agentId] + messageIds;
  }

  /** The prefix as text. */
  lemma PrefixIs()
    ensures var text := "bazilion-inbox-turn-v1\0";
            |PREFIX| == |text| && forall i | 0 <= i < |text| :: PREFIX[i] == text[i] as int
  {
  }

  // ---------------------------------------------------------------- it is injective

  lemma {:induction false} DecimalInjective(m: nat, n: nat)
    requires Decimal(m) == Decimal(n)
    ensures m == n
  {
    var d, e := Decimal(m), Decimal(n);
    assert d[|d| - 1] == e[|e| - 1];
    if m >= 10 && n >= 10 {
      assert Decimal(m / 10) == d[..|d| - 1] && Decimal(n / 10) == e[..|e| - 1];
      DecimalInjective(m / 10, n / 10);
    }
  }

  function FieldsFromFront(values: seq<seq<byte>>): seq<byte> {
    if values == [] then [] else Field(values[0]) + FieldsFromFront(values[1..])
  }

  lemma {:induction false} OneMore(front: seq<seq<byte>>, value: seq<byte>)
    ensures FieldsFromFront(front + [value]) == FieldsFromFront(front) + Field(value)
  {
    if front == [] {
      assert front + [value] == [value] && [value][1..] == [];
    } else {
      OneMore(front[1..], value);
      assert (front + [value])[1..] == front[1..] + [value];
    }
  }

  lemma {:induction false} SameFromFront(values: seq<seq<byte>>)
    ensures Fields(values) == FieldsFromFront(values)
  {
    if values != [] {
      var front, last := values[..|values| - 1], values[|values| - 1];
      SameFromFront(front);
      OneMore(front, last);
      assert values == front + [last];
    }
  }

  /** A field can be told from what follows it. */
  lemma FieldCut(a: seq<byte>, b: seq<byte>, s: seq<byte>, t: seq<byte>)
    requires Field(a) + s == Field(b) + t
    ensures a == b && s == t
  {
    var u, v, x := Decimal(|a|), Decimal(|b|), Field(a) + s;
    assert x == u + [COLON] + a + s && x == v + [COLON] + b + t;
    assert x[|u|] == COLON && x[|v|] == COLON;
    assert forall i | 0 <= i < |u| :: x[i] == u[i];
    assert forall i | 0 <= i < |v| :: x[i] == v[i];
    assert |u| == |v|;
    assert u == x[..|u|] == v;
    DecimalInjective(|a|, |b|);
    assert x[|u| + 1..][..|a|] == a && x[|u| + 1..][..|b|] == b;
    assert x[|u| + 1 + |a|..] == s && x[|u| + 1 + |b|..] == t;
  }

  lemma {:induction false} FieldsInjective(xs: seq<seq<byte>>, ys: seq<seq<byte>>)
    requires FieldsFromFront(xs) == FieldsFromFront(ys)
    ensures xs == ys
  {
    if xs != [] && ys != [] {
      FieldCut(xs[0], ys[0], FieldsFromFront(xs[1..]), FieldsFromFront(ys[1..]));
      FieldsInjective(xs[1..], ys[1..]);
      assert xs == [xs[0]] + xs[1..] && ys == [ys[0]] + ys[1..];
    }
  }

  /** Different agents or different ordered batches never feed the same bytes to the hash. */
  lemma IdentityInjective(agent1: seq<byte>, ids1: seq<seq<byte>>, agent2: seq<byte>, ids2: seq<seq<byte>>)
    requires Identity(agent1, ids1) == Identity(agent2, ids2)
    ensures agent1 == agent2 && ids1 == ids2
  {
    var xs, ys := [agent1] + ids1, [agent2] + ids2;
    assert Identity(agent1, ids1)[|PREFIX|..] == Fields(xs);
    assert Identity(agent2, ids2)[|PREFIX|..] == Fields(ys);
    SameFromFront(xs);
    SameFromFront(ys);
    FieldsInjective(xs, ys);
    assert agent1 == xs[0] && ids1 == xs[1..] && agent2 == ys[0] && ids2 == ys[1..];
  }
}
