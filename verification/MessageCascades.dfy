/**
 Cascades of wakes: each wake claims unread messages, may read more of them as it runs, and sends
 finitely many of its own. Why a cascade ends in which no turn replies to a message further back
 than what it came to know.
 */
module MessageCascades {
  import opened Wrappers
  import opened MessageCausality
  import opened Descent

  /**
   A wake in progress: what it claimed, what it has read since (its inbox, or a reply it waited
   for), and how many more messages it is going to send.
   */
  datatype Turn = Turn(claimed: seq<Id>, taken: seq<Id>, left: nat) {
    function Known(): seq<Id> {
      claimed + taken
    }
  }

  datatype World = World(store: Store, turns: seq<Turn>)

  datatype Act =
    | Wake(agent: string, policy: Policy, sends: nat)
    | Send(turn: nat, q: Input, id: Id, maxHops: nat, enforcing: bool, decision: Decision)
    | Read(turn: nat, id: Id)
    | Settle(id: Id, blocked: bool)   // read outside any wake, or blocked by the policy when listed

  function Rows(s: Store, ids: seq<Id>): seq<Message>
    requires forall id | id in ids :: id in s.messages
  {
    seq(|ids|, i requires 0 <= i < |ids| => s.messages[ids[i]])
  }

  function Handled(s: Store, agent: string, p: Policy): set<Id> {
    set id | id in s.messages && s.messages[id].Awaits(agent) && p.Of(id) != Hold
  }

  /** A wake does something when some unread message is not merely held for approval. */
  ghost predicate Enabled(w: World, a: Act, ceiling: nat) {
    match a
    case Wake(agent, p, _) => Handled(w.store, agent, p) != {}
    case Send(turn, q, id, maxHops, _, _) =>
      && turn < |w.turns| && w.turns[turn].left > 0
      && id !in w.store.messages && id != ""
      && maxHops <= ceiling
      && (forall i | i in w.turns[turn].claimed :: i in w.store.messages)
      && q.causalParent.Some? && IsCausalParent(Rows(w.store, w.turns[turn].claimed), q.causalParent)
    case Read(turn, id) => turn < |w.turns| && id in w.store.messages && w.store.messages[id].Unread()
    case Settle(id, _) => id in w.store.messages && w.store.messages[id].Unread()
  }

  /** The turn replies, if at all, to a message it claimed or has read. */
  ghost predicate OwnReply(w: World, a: Act) {
    a.Send? && a.turn < |w.turns| && a.q.replyTo.Some? ==> a.q.replyTo.value in w.turns[a.turn].Known()
  }

  /** A stored message replied to is at most `d` hops short of the lowest one the turn knows. */
  ghost predicate Near(w: World, a: Act, d: nat) {
    a.Send? && a.turn < |w.turns| && TurnOk(w.store, w.turns[a.turn])
    && a.q.replyTo.Some? && a.q.replyTo.value in w.store.messages
    ==> w.store.messages[a.q.replyTo.value].hop + d >= Lowest(w.store, w.turns[a.turn].Known())
  }

  function MarkRead(s: Store, id: Id): Store
    requires id in s.messages
  {
    s.(messages := s.messages[id := s.messages[id].(read := true)])
  }

  function MarkBlocked(s: Store, id: Id): Store
    requires id in s.messages
  {
    s.(messages := s.messages[id := s.messages[id].(blocked := true)])
  }

  function Next(w: World, a: Act): World {
    match a
    case Wake(agent, p, sends) =>
      var got := Got(w.store, agent, p);
      World(Claim(w.store, agent, p), if got == [] then w.turns else w.turns + [Turn(got, [], sends)])
    case Send(turn, q, id, maxHops, enforcing, decision) =>
      if turn < |w.turns| && w.turns[turn].left > 0 then
        World(Post(w.store, q, id, maxHops, enforcing, decision).0,
              w.turns[turn := w.turns[turn].(left := w.turns[turn].left - 1)])
      else w
    case Read(turn, id) =>
      if turn < |w.turns| && id in w.store.messages then
        World(MarkRead(w.store, id), w.turns[turn := w.turns[turn].(taken := w.turns[turn].taken + [id])])
      else w
    case Settle(id, blocked) =>
      if id !in w.store.messages then w
      else w.(store := if blocked then MarkBlocked(w.store, id) else MarkRead(w.store, id))
  }

  ghost predicate TurnOk(s: Store, t: Turn) {
    t.claimed != [] && forall id | id in t.Known() :: id in s.messages && s.messages[id].read
  }

  ghost predicate Inv(w: World) {
    Sound(w.store) && forall t | t in w.turns :: TurnOk(w.store, t)
  }

  ghost predicate Bounded(s: Store, ceiling: nat) {
    forall id | id in s.messages :: s.messages[id].hop <= ceiling
  }

  /** What every step leaves as it was. */
  ghost predicate Grows(s: Store, t: Store) {
    forall id | id in s.messages ::
      && id in t.messages && t.messages[id].hop == s.messages[id].hop
      && (s.messages[id].read ==> t.messages[id].read)
      && (!s.messages[id].Unread() ==> !t.messages[id].Unread())
  }

  lemma StoreGrows(w: World, a: Act, ceiling: nat)
    requires Enabled(w, a, ceiling)
    ensures Grows(w.store, Next(w, a).store)
  {
  }

  lemma StepKeepsInv(w: World, a: Act, ceiling: nat)
    requires Inv(w) && Enabled(w, a, ceiling)
    ensures Inv(Next(w, a))
    ensures Bounded(w.store, ceiling) ==> Bounded(Next(w, a).store, ceiling)
  {
    StoreGrows(w, a, ceiling);
    var v := Next(w, a);
    match a
    case Wake(agent, p, _) =>
      ClaimKeepsSound(w.store, agent, p);
      WakeTurnsOk(w, agent, p, a.sends);
    case Send(turn, q, id, maxHops, enforcing, decision) =>
      PostKeepsSound(w.store, q, id, maxHops, enforcing, decision);
      StoredWithinLimit(w.store, q, id, maxHops, enforcing, decision);
      forall t | t in v.turns ensures TurnOk(v.store, t) {
        if t !in w.turns { assert TurnOk(w.store, w.turns[turn]); }
      }
    case Read(turn, id) => ReadKeepsInv(w, turn, id);
    case Settle(id, blocked) => MarkKeepsSound(w.store, id);
  }

  lemma MarkKeepsSound(s: Store, id: Id)
    requires Sound(s) && id in s.messages && s.messages[id].Unread()
    ensures Sound(MarkRead(s, id)) && Sound(MarkBlocked(s, id))
  {
    forall i | i in s.messages
      ensures RowOk(MarkRead(s, id).messages, i) && RowOk(MarkBlocked(s, id).messages, i)
    {
      assert RowOk(s.messages, i);
    }
  }

  lemma ReadKeepsInv(w: World, turn: nat, id: Id)
    requires Inv(w) && turn < |w.turns| && id in w.store.messages && w.store.messages[id].Unread()
    ensures Inv(Next(w, Read(turn, id)))
  {
    var v := Next(w, Read(turn, id));
    MarkKeepsSound(w.store, id);
    forall t | t in v.turns ensures TurnOk(v.store, t) {
      if t !in w.turns {
        assert TurnOk(w.store, w.turns[turn]) && t.Known() == w.turns[turn].Known() + [id];
      }
    }
  }

  lemma WakeTurnsOk(w: World, agent: string, p: Policy, sends: nat)
    requires Inv(w)
    ensures forall t | t in Next(w, Wake(agent, p, sends)).turns :: TurnOk(Next(w, Wake(agent, p, sends)).store, t)
  {
    var v := Next(w, Wake(agent, p, sends));
    forall t | t in v.turns ensures TurnOk(v.store, t) {
      if t in w.turns {
        assert TurnOk(w.store, t);
      } else {
        forall id | id in t.claimed ensures id in v.store.messages && v.store.messages[id].read {
          GotIs(w.store, agent, p, id);
          assert RowOk(w.store.messages, id);
        }
      }
    }
  }

  // The measure: for each hop, the messages still unread there and the messages still owed by
  // turns whose lowest known hop it is.

  ghost function UnreadAt(s: Store, h: nat): set<Id> {
    set id | id in s.messages && s.messages[id].Unread() && s.messages[id].hop == h
  }

  function Lowest(s: Store, ids: seq<Id>): nat
    requires ids != [] && forall id | id in ids :: id in s.messages
  {
    var last := s.messages[ids[|ids| - 1]].hop;
    if |ids| == 1 then last
    else
      var rest := Lowest(s, ids[..|ids| - 1]);
      if last < rest then last else rest
  }

  lemma {:induction false} LowestIsLowest(s: Store, ids: seq<Id>)
    requires ids != [] && forall id | id in ids :: id in s.messages
    ensures forall id | id in ids :: Lowest(s, ids) <= s.messages[id].hop
    ensures exists id :: id in ids && Lowest(s, ids) == s.messages[id].hop
  {
    var last := ids[|ids| - 1];
    assert last in ids;
    if |ids| > 1 {
      var front := ids[..|ids| - 1];
      LowestIsLowest(s, front);
      forall id | id in ids ensures Lowest(s, ids) <= s.messages[id].hop {
        assert id in front || id == last;
      }
      var id :| id in front && Lowest(s, front) == s.messages[id].hop;
      assert id in ids;
    }
  }

  lemma {:induction false} LowestStays(s: Store, t: Store, ids: seq<Id>)
    requires ids != [] && (forall id | id in ids :: id in s.messages) && Grows(s, t)
    ensures Lowest(t, ids) == Lowest(s, ids)
  {
    if |ids| > 1 { LowestStays(s, t, ids[..|ids| - 1]); }
  }

  ghost function Due(s: Store, t: Turn, h: nat): nat {
    if TurnOk(s, t) && Lowest(s, t.Known()) == h then t.left else 0
  }

  ghost function Owed(s: Store, turns: seq<Turn>, h: nat): nat {
    if turns == [] then 0 else Owed(s, turns[..|turns| - 1], h) + Due(s, turns[|turns| - 1], h)
  }

  lemma {:induction false} OwedStays(s: Store, t: Store, turns: seq<Turn>, h: nat)
    requires Grows(s, t) && forall u | u in turns :: TurnOk(s, u)
    ensures Owed(t, turns, h) == Owed(s, turns, h)
  {
    if turns != [] {
      var last := turns[|turns| - 1];
      assert TurnOk(s, last);
      LowestStays(s, t, last.Known());
      OwedStays(s, t, turns[..|turns| - 1], h);
    }
  }

  lemma {:induction false} OwedAfterChange(s: Store, turns: seq<Turn>, k: nat, u: Turn, h: nat)
    requires k < |turns|
    ensures Owed(s, turns[k := u], h) == Owed(s, turns, h) - Due(s, turns[k], h) + Due(s, u, h)
  {
    var n := |turns| - 1;
    if k == n {
      assert turns[k := u][..n] == turns[..n];
    } else {
      OwedAfterChange(s, turns[..n], k, u, h);
      assert turns[k := u][..n] == turns[..n][k := u];
    }
  }

  ghost function Measure(w: World, levels: nat): (r: seq<nat>)
    ensures |r| == 2 * levels
  {
    if levels == 0 then []
    else Measure(w, levels - 1) + [|UnreadAt(w.store, levels - 1)|, Owed(w.store, w.turns, levels - 1)]
  }

  ghost predicate SameAt(v: World, w: World, h: nat) {
    |UnreadAt(v.store, h)| == |UnreadAt(w.store, h)| && Owed(v.store, v.turns, h) == Owed(w.store, w.turns, h)
  }

  ghost predicate LowerAt(v: World, w: World, h: nat) {
    || |UnreadAt(v.store, h)| < |UnreadAt(w.store, h)|
    || (|UnreadAt(v.store, h)| == |UnreadAt(w.store, h)| && Owed(v.store, v.turns, h) < Owed(w.store, w.turns, h))
  }

  ghost predicate DescendsAt(v: World, w: World, level: nat) {
    (forall h: nat | h < level :: SameAt(v, w, h)) && LowerAt(v, w, level)
  }

  lemma {:induction false} MeasureSame(v: World, w: World, levels: nat)
    requires forall h: nat | h < levels :: SameAt(v, w, h)
    ensures Measure(v, levels) == Measure(w, levels)
  {
    if levels > 0 {
      MeasureSame(v, w, levels - 1);
      assert SameAt(v, w, levels - 1);
    }
  }

  lemma {:induction false} MeasureDrops(v: World, w: World, level: nat, levels: nat)
    requires level < levels && DescendsAt(v, w, level)
    ensures Below(Measure(v, levels), Measure(w, levels))
  {
    var a, b := Measure(v, levels - 1), Measure(w, levels - 1);
    if level == levels - 1 {
      MeasureSame(v, w, level);
      assert DropsAt(Measure(v, levels), Measure(w, levels), 2 * level)
          || DropsAt(Measure(v, levels), Measure(w, levels), 2 * level + 1);
    } else {
      MeasureDrops(v, w, level, levels - 1);
      var k :| 0 <= k < |a| && DropsAt(a, b, k);
      assert DropsAt(Measure(v, levels), Measure(w, levels), k);
    }
  }

  // One step goes down

  lemma ClaimAt(s: Store, agent: string, p: Policy, id: Id)
    requires Sound(s) && id in s.messages
    ensures var m, n := s.messages[id], Claim(s, agent, p).messages[id];
            n.hop == m.hop && (n.Unread() <==> m.Unread() && id !in Handled(s, agent, p))
  {
    assert RowOk(s.messages, id);
  }

  lemma PickLowest(s: Store, ids: set<Id>) returns (low: Id)
    requires ids != {} && forall id | id in ids :: id in s.messages
    ensures low in ids && forall id | id in ids :: s.messages[low].hop <= s.messages[id].hop
  {
    low :| low in ids;
    var seen := {low};
    while seen != ids
      invariant low in seen && seen <= ids && forall id | id in seen :: s.messages[low].hop <= s.messages[id].hop
      decreases ids - seen
    {
      assert ids == seen + (ids - seen);
      var id :| id in ids - seen;
      seen := seen + {id};
      if s.messages[id].hop < s.messages[low].hop { low := id; }
    }
  }

  lemma Smaller<T>(a: set<T>, b: set<T>, x: T)
    requires a <= b && x in b && x !in a
    ensures |a| < |b|
  {
    assert b == a + (b - a);
    assert x in b - a;
  }

  /** A wake goes down at the lowest hop it handled. */
  lemma {:induction false} WakeDescends(w: World, agent: string, p: Policy, sends: nat, ceiling: nat)
    returns (level: nat)
    requires Inv(w) && Bounded(w.store, ceiling) && Handled(w.store, agent, p) != {}
    requires Grows(w.store, Claim(w.store, agent, p))
    ensures level <= ceiling && DescendsAt(Next(w, Wake(agent, p, sends)), w, level)
  {
    var low := PickLowest(w.store, Handled(w.store, agent, p));
    level := w.store.messages[low].hop;
    UnreadShrinks(w.store, agent, p, low);
    var v := Next(w, Wake(agent, p, sends));
    assert v.store == Claim(w.store, agent, p);
    forall h: nat | h < level ensures SameAt(v, w, h) {
      UnreadBelow(w.store, agent, p, h);
      OwedBelow(w, agent, p, sends, h);
    }
  }

  lemma UnreadShrinks(s: Store, agent: string, p: Policy, low: Id)
    requires Sound(s) && low in Handled(s, agent, p)
    ensures |UnreadAt(Claim(s, agent, p), s.messages[low].hop)| < |UnreadAt(s, s.messages[low].hop)|
  {
    var level := s.messages[low].hop;
    ClaimAt(s, agent, p, low);
    forall i | i in UnreadAt(Claim(s, agent, p), level) ensures i in UnreadAt(s, level) {
      ClaimAt(s, agent, p, i);
    }
    Smaller(UnreadAt(Claim(s, agent, p), level), UnreadAt(s, level), low);
  }

  lemma UnreadBelow(s: Store, agent: string, p: Policy, h: nat)
    requires Sound(s) && forall id | id in Handled(s, agent, p) :: h < s.messages[id].hop
    ensures UnreadAt(Claim(s, agent, p), h) == UnreadAt(s, h)
  {
    forall id | id in s.messages ensures id in UnreadAt(Claim(s, agent, p), h) <==> id in UnreadAt(s, h) {
      ClaimAt(s, agent, p, id);
    }
  }

  lemma OwedBelow(w: World, agent: string, p: Policy, sends: nat, h: nat)
    requires Inv(w) && forall id | id in Handled(w.store, agent, p) :: h < w.store.messages[id].hop
    requires Grows(w.store, Claim(w.store, agent, p))
    ensures Owed(Claim(w.store, agent, p), Next(w, Wake(agent, p, sends)).turns, h) == Owed(w.store, w.turns, h)
  {
    var v := Next(w, Wake(agent, p, sends));
    OwedStays(w.store, v.store, w.turns, h);
    var got := Got(w.store, agent, p);
    if got != [] {
      forall id | id in got ensures id in v.store.messages && h < v.store.messages[id].hop {
        GotIs(w.store, agent, p, id);
      }
      LowestIsLowest(v.store, got);
      assert Turn(got, [], sends).Known() == got;
      assert v.turns[..|v.turns| - 1] == w.turns;
    }
  }

  /**
   What a turn sends because of, or in reply to, something no further back than it knows has a
   higher hop than the lowest it knows; replying to an id that is not stored, it stores nothing.
   */
  lemma ChildIsAbove(w: World, a: Act, ceiling: nat)
    requires Inv(w) && a.Send? && Enabled(w, a, ceiling) && Near(w, a, 0)
    ensures TurnOk(w.store, w.turns[a.turn])
    ensures Next(w, a).store.messages == w.store.messages
            || Hop(ResolveMessageCausality(w.store.messages, a.q)) > Lowest(w.store, w.turns[a.turn].Known())
  {
    var t := w.turns[a.turn];
    assert TurnOk(w.store, t);
    LowestIsLowest(w.store, t.Known());
    if a.q.replyTo.None? {
      var rows := Rows(w.store, t.claimed);
      var k :| 0 <= k < |rows| && Tops(rows, k) && a.q.causalParent == Some(rows[k].id);
      assert t.claimed[k] in t.Known() && RowOk(w.store.messages, t.claimed[k]);
    } else if a.q.replyTo.value in w.store.messages {
      assert RowOk(w.store.messages, a.q.replyTo.value);
    }
  }

  ghost predicate StoresAbove(w: World, a: Act, h: nat)
    requires a.Send?
  {
    Next(w, a).store.messages == w.store.messages || h < Hop(ResolveMessageCausality(w.store.messages, a.q))
  }

  lemma SendSame(w: World, a: Act, ceiling: nat, h: nat)
    requires Inv(w) && a.Send? && Enabled(w, a, ceiling) && TurnOk(w.store, w.turns[a.turn])
    requires Grows(w.store, Next(w, a).store)
    requires h <= Lowest(w.store, w.turns[a.turn].Known()) && StoresAbove(w, a, h)
    ensures h < Lowest(w.store, w.turns[a.turn].Known()) ==> SameAt(Next(w, a), w, h)
    ensures h == Lowest(w.store, w.turns[a.turn].Known()) ==> LowerAt(Next(w, a), w, h)
  {
    UnreadAfterSend(w, a, ceiling, h);
    OwedWhenSent(w, a, ceiling, h);
  }

  /** A message sent goes down at the lowest hop its turn knows. */
  lemma SendDescends(w: World, a: Act, ceiling: nat) returns (level: nat)
    requires Inv(w) && Bounded(w.store, ceiling) && a.Send? && Enabled(w, a, ceiling)
             && TurnOk(w.store, w.turns[a.turn])
    requires Grows(w.store, Next(w, a).store)
    requires StoresAbove(w, a, Lowest(w.store, w.turns[a.turn].Known()))
    ensures level <= ceiling && DescendsAt(Next(w, a), w, level)
  {
    level := Lowest(w.store, w.turns[a.turn].Known());
    LowestIsLowest(w.store, w.turns[a.turn].Known());
    forall h: nat | h < level ensures SameAt(Next(w, a), w, h) {
      SendSame(w, a, ceiling, h);
    }
    SendSame(w, a, ceiling, level);
  }

  lemma UnreadAfterSend(w: World, a: Act, ceiling: nat, h: nat)
    requires Inv(w) && a.Send? && Enabled(w, a, ceiling) && StoresAbove(w, a, h)
    ensures UnreadAt(Next(w, a).store, h) == UnreadAt(w.store, h)
  {
  }

  lemma OwedWhenSent(w: World, a: Act, ceiling: nat, h: nat)
    requires Inv(w) && a.Send? && Enabled(w, a, ceiling) && TurnOk(w.store, w.turns[a.turn])
    requires Grows(w.store, Next(w, a).store)
    ensures Owed(Next(w, a).store, Next(w, a).turns, h)
            == Owed(w.store, w.turns, h) - (if h == Lowest(w.store, w.turns[a.turn].Known()) then 1 else 0)
  {
    var v := Next(w, a);
    var u := v.turns[a.turn];
    assert u.Known() == w.turns[a.turn].Known();
    OwedAfterChange(w.store, w.turns, a.turn, u, h);
    forall x | x in v.turns ensures TurnOk(w.store, x) {
      assert x == u || x in w.turns;
    }
    OwedStays(w.store, v.store, v.turns, h);
  }

  /** A message marked read or blocked leaves the unread ones of its own hop. */
  lemma MarkingDescends(s: Store, t: Store, id: Id)
    requires id in s.messages && s.messages[id].Unread() && (t == MarkRead(s, id) || t == MarkBlocked(s, id))
    ensures |UnreadAt(t, s.messages[id].hop)| < |UnreadAt(s, s.messages[id].hop)|
    ensures forall h: nat | h != s.messages[id].hop :: UnreadAt(t, h) == UnreadAt(s, h)
  {
    var level := s.messages[id].hop;
    Smaller(UnreadAt(t, level), UnreadAt(s, level), id);
    forall h: nat | h != level ensures UnreadAt(t, h) == UnreadAt(s, h) {
      forall i ensures i in UnreadAt(t, h) <==> i in UnreadAt(s, h) {}
    }
  }

  /** What a turn owes stays where it was, or moves up to the hop of the message it has read. */
  lemma OwedWhenRead(w: World, turn: nat, id: Id, h: nat)
    requires Inv(w) && turn < |w.turns| && id in w.store.messages && w.store.messages[id].Unread()
    requires Grows(w.store, MarkRead(w.store, id)) && h < w.store.messages[id].hop
    ensures Owed(MarkRead(w.store, id), Next(w, Read(turn, id)).turns, h) == Owed(w.store, w.turns, h)
  {
    var s := MarkRead(w.store, id);
    var t := w.turns[turn];
    var u := t.(taken := t.taken + [id]);
    assert TurnOk(w.store, t) && u.Known() == t.Known() + [id];
    OwedStays(w.store, s, w.turns, h);
    OwedAfterChange(s, w.turns, turn, u, h);
    LowestWithOneMore(s, t.Known(), id);
  }

  lemma LowestWithOneMore(s: Store, ids: seq<Id>, id: Id)
    requires ids != [] && (forall i | i in ids :: i in s.messages) && id in s.messages
    ensures var low := Lowest(s, ids);
            Lowest(s, ids + [id]) == if s.messages[id].hop < low then s.messages[id].hop else low
  {
    assert (ids + [id])[..|ids|] == ids;
  }

  lemma ReadDescends(w: World, turn: nat, id: Id, ceiling: nat) returns (level: nat)
    requires Inv(w) && Bounded(w.store, ceiling) && Enabled(w, Read(turn, id), ceiling)
    requires Grows(w.store, MarkRead(w.store, id))
    ensures level <= ceiling && DescendsAt(Next(w, Read(turn, id)), w, level)
  {
    level := w.store.messages[id].hop;
    MarkingDescends(w.store, MarkRead(w.store, id), id);
    forall h: nat | h < level ensures SameAt(Next(w, Read(turn, id)), w, h) {
      OwedWhenRead(w, turn, id, h);
    }
  }

  lemma SettleDescends(w: World, id: Id, blocked: bool, ceiling: nat) returns (level: nat)
    requires Inv(w) && Bounded(w.store, ceiling) && Enabled(w, Settle(id, blocked), ceiling)
    requires Grows(w.store, Next(w, Settle(id, blocked)).store)
    ensures level <= ceiling && DescendsAt(Next(w, Settle(id, blocked)), w, level)
  {
    var v := Next(w, Settle(id, blocked));
    level := w.store.messages[id].hop;
    MarkingDescends(w.store, v.store, id);
    forall h: nat | h < level ensures SameAt(v, w, h) {
      OwedStays(w.store, v.store, w.turns, h);
    }
  }

  lemma StepDescends(w: World, a: Act, ceiling: nat)
    requires Inv(w) && Bounded(w.store, ceiling) && Enabled(w, a, ceiling) && Near(w, a, 0)
    ensures Below(Measure(Next(w, a), ceiling + 1), Measure(w, ceiling + 1))
  {
    StoreGrows(w, a, ceiling);
    var level: nat;
    match a {
      case Wake(agent, p, sends) => level := WakeDescends(w, agent, p, sends, ceiling);
      case Send(_, _, _, _, _, _) =>
        ChildIsAbove(w, a, ceiling);
        level := SendDescends(w, a, ceiling);
      case Read(turn, id) => level := ReadDescends(w, turn, id, ceiling);
      case Settle(id, blocked) => level := SettleDescends(w, id, blocked, ceiling);
    }
    MeasureDrops(Next(w, a), w, level, ceiling + 1);
  }

  // Whole runs

  ghost predicate Steps(run: nat -> World, acts: nat -> Act, ceiling: nat, n: nat) {
    Enabled(run(n), acts(n), ceiling) && run(n + 1) == Next(run(n), acts(n))
  }

  lemma {:induction false} RunKeepsInv(run: nat -> World, acts: nat -> Act, ceiling: nat, n: nat)
    requires Inv(run(0)) && Bounded(run(0).store, ceiling)
    requires forall k | 0 <= k < n :: Steps(run, acts, ceiling, k)
    ensures Inv(run(n)) && Bounded(run(n).store, ceiling)
  {
    if n > 0 {
      RunKeepsInv(run, acts, ceiling, n - 1);
      assert Steps(run, acts, ceiling, n - 1);
      StepKeepsInv(run(n - 1), acts(n - 1), ceiling);
    }
  }

  ghost predicate TakesStep(run: nat -> World, acts: nat -> Act, ceiling: nat, d: nat, n: nat) {
    Steps(run, acts, ceiling, n) && Near(run(n), acts(n), d)
  }

  /** From a sound start within the ceiling, the run comes to a step it cannot take. */
  ghost predicate Ends(run: nat -> World, acts: nat -> Act, ceiling: nat, d: nat) {
    Inv(run(0)) && Bounded(run(0).store, ceiling) ==> exists n: nat :: !TakesStep(run, acts, ceiling, d, n)
  }

  /**
   However many agents wake, whatever the policy decides and however the limit moves below the
   ceiling, no cascade goes on for ever in which replies reach back at most `d` hops.
   */
  ghost predicate AlwaysEnds(ceiling: nat, d: nat) {
    forall run: nat -> World, acts: nat -> Act :: Ends(run, acts, ceiling, d)
  }

  lemma RunGoesDown(run: nat -> World, acts: nat -> Act, ceiling: nat, n: nat)
    requires Inv(run(0)) && Bounded(run(0).store, ceiling)
    requires forall k: nat :: TakesStep(run, acts, ceiling, 0, k)
    ensures Below(Measure(run(n + 1), ceiling + 1), Measure(run(n), ceiling + 1))
  {
    forall k: nat ensures Steps(run, acts, ceiling, k) { assert TakesStep(run, acts, ceiling, 0, k); }
    RunKeepsInv(run, acts, ceiling, n);
    assert TakesStep(run, acts, ceiling, 0, n);
    StepDescends(run(n), acts(n), ceiling);
  }

  lemma NearbyRepliesEnd(run: nat -> World, acts: nat -> Act, ceiling: nat)
    ensures Ends(run, acts, ceiling, 0)
  {
    if Inv(run(0)) && Bounded(run(0).store, ceiling) && forall n: nat :: TakesStep(run, acts, ceiling, 0, n) {
      var f := (n: nat) => Measure(run(n), ceiling + 1);
      forall n: nat ensures Drops(f, n) && |f(n)| == 2 * (ceiling + 1) {
        RunGoesDown(run, acts, ceiling, n);
        assert f(n) == Measure(run(n), ceiling + 1) && f(n + 1) == Measure(run(n + 1), ceiling + 1);
      }
      NoInfiniteDescent(f, 2 * (ceiling + 1));
    }
  }

  /** At limit zero every stored message is near to every other. */
  lemma AllNearAtZero(w: World, a: Act, d: nat)
    requires Bounded(w.store, 0)
    ensures Near(w, a, d)
  {
    if a.Send? && a.turn < |w.turns| && TurnOk(w.store, w.turns[a.turn]) {
      LowestIsLowest(w.store, w.turns[a.turn].Known());
    }
  }

  lemma LimitZeroEnds(run: nat -> World, acts: nat -> Act, d: nat)
    ensures Ends(run, acts, 0, d)
  {
    if Inv(run(0)) && Bounded(run(0).store, 0) && forall n: nat :: TakesStep(run, acts, 0, d, n) {
      forall n: nat ensures Steps(run, acts, 0, n) { assert TakesStep(run, acts, 0, d, n); }
      forall n: nat ensures TakesStep(run, acts, 0, 0, n) {
        RunKeepsInv(run, acts, 0, n);
        AllNearAtZero(run(n), acts(n), 0);
      }
      NearbyRepliesEnd(run, acts, 0);
    }
  }

  ghost predicate TakesOwnStep(run: nat -> World, acts: nat -> Act, ceiling: nat, n: nat) {
    Steps(run, acts, ceiling, n) && OwnReply(run(n), acts(n))
  }

  lemma OwnReplyIsNear(w: World, a: Act)
    requires OwnReply(w, a)
    ensures Near(w, a, 0)
  {
    if a.Send? && a.turn < |w.turns| && TurnOk(w.store, w.turns[a.turn]) {
      LowestIsLowest(w.store, w.turns[a.turn].Known());
    }
  }

  /** In particular, a run ends in which turns reply only to what they claimed or have read. */
  lemma CascadesEnd(run: nat -> World, acts: nat -> Act, ceiling: nat)
    requires Inv(run(0)) && Bounded(run(0).store, ceiling)
    ensures exists n: nat :: !TakesOwnStep(run, acts, ceiling, n)
  {
    NearbyRepliesEnd(run, acts, ceiling);
    var n: nat :| !TakesStep(run, acts, ceiling, 0, n);
    if TakesOwnStep(run, acts, ceiling, n) { OwnReplyIsNear(run(n), acts(n)); }
  }

  /** Whatever one wake claimed, no later wake claims again. */
  lemma {:induction false} ReadStaysRead(run: nat -> World, acts: nat -> Act, ceiling: nat, m: nat, n: nat, id: Id)
    requires m <= n && forall k | m <= k < n :: Steps(run, acts, ceiling, k)
    requires ReadIn(run(m), id)
    ensures ReadIn(run(n), id)
    decreases n - m
  {
    if m < n {
      ReadStaysRead(run, acts, ceiling, m, n - 1, id);
      assert Steps(run, acts, ceiling, n - 1);
      StoreGrows(run(n - 1), acts(n - 1), ceiling);
    }
  }

  ghost predicate Claims(w: World, a: Act, id: Id) {
    a.Wake? && id in Got(w.store, a.agent, a.policy)
  }

  ghost predicate ReadIn(w: World, id: Id) {
    id in w.store.messages && w.store.messages[id].read
  }

  lemma ClaimedIsRead(w: World, a: Act, id: Id)
    requires Inv(w) && Claims(w, a, id)
    ensures ReadIn(Next(w, a), id) && !ReadIn(w, id)
  {
    GotIs(w.store, a.agent, a.policy, id);
    assert RowOk(w.store.messages, id);
  }

  lemma ReadAfterClaim(run: nat -> World, acts: nat -> Act, ceiling: nat, m: nat, id: Id)
    requires forall k: nat | k <= m :: Steps(run, acts, ceiling, k)
    requires Inv(run(0)) && Bounded(run(0).store, ceiling) && Claims(run(m), acts(m), id)
    ensures ReadIn(run(m + 1), id) && !ReadIn(run(m), id)
  {
    RunKeepsInv(run, acts, ceiling, m);
    ClaimedIsRead(run(m), acts(m), id);
    assert Steps(run, acts, ceiling, m);
  }

  lemma ClaimedAtMostOnce(run: nat -> World, acts: nat -> Act, ceiling: nat, m: nat, n: nat, id: Id)
    requires m < n && (forall k: nat | k <= n :: Steps(run, acts, ceiling, k))
    requires Inv(run(0)) && Bounded(run(0).store, ceiling)
    requires Claims(run(m), acts(m), id)
    ensures !Claims(run(n), acts(n), id)
  {
    ReadAfterClaim(run, acts, ceiling, m, id);
    ReadStaysRead(run, acts, ceiling, m + 1, n, id);
    if Claims(run(n), acts(n), id) { ReadAfterClaim(run, acts, ceiling, n, id); }
  }
}
