/**
 When the hop limit ends every cascade. A message's hop follows the message it replies to, which
 may be any stored one: two agents that keep replying to the same old message wake each other for
 ever, and no hop ever reaches two. So cascades always end exactly when replies reach no further
 back than what their turn knows, or the limit is zero.
 */
module EndlessReplies {
  import opened Wrappers
  import opened MessageCausality
  import opened MessageCascades

  const ROOT := "root"

  function Everyone(): Policy {
    Policy(false, _ => Allow, {})
  }

  function NthId(k: nat): (id: Id)
    ensures |id| == k + 1 && id != ROOT
  {
    var id := seq(k + 1, _ => 'x');
    assert id[0] != ROOT[0];
    id
  }

  function Partner(k: nat): string {
    if k % 2 == 0 then "b" else "a"
  }

  function Start(): World {
    World(
      Store(map[ROOT := Message(ROOT, "a", "b", None, ROOT, 0, None, true, false, false),
                NthId(0) := Message(NthId(0), "a", "b", None, NthId(0), 0, None, false, false, false)],
            [ROOT, NthId(0)], {"a", "b"}, _ => true, []),
      [])
  }

  function WakeAct(k: nat): Act {
    Wake(Partner(k), Everyone(), 1)
  }

  /** Every message sent replies to the root. */
  function SendAct(k: nat, limit: nat): Act {
    Send(k, Input(Partner(k), Partner(k + 1), Some(ROOT), Some(NthId(k))), NthId(k + 1), limit, false, Allow)
  }

  /** What holds throughout; `k` messages have been sent. */
  ghost predicate Playing(w: World, k: nat) {
    var s := w.store;
    && Sound(s) && s.agents == {"a", "b"} && s.breaks == []
    && ROOT in s.messages && s.messages[ROOT].hop == 0 && s.messages[ROOT].read
    && (forall id | id in s.messages :: id == ROOT || |id| <= k + 1)
    && NthId(k) in s.messages && s.messages[NthId(k)].id == NthId(k)
    && (forall id | id in s.messages :: s.messages[id].hop <= 1)
  }

  ghost predicate BeforeWake(w: World, k: nat) {
    && Playing(w, k) && |w.turns| == k
    && w.store.messages[NthId(k)].Unread() && w.store.messages[NthId(k)].recipient == Partner(k)
    && (forall id | id in w.store.messages && id != NthId(k) :: w.store.messages[id].read)
  }

  ghost predicate BeforeSend(w: World, k: nat) {
    && Playing(w, k) && |w.turns| == k + 1 && w.turns[k].left == 1
    && w.turns[k].taken == [] && w.turns[k].claimed != [] && (forall id | id in w.turns[k].claimed :: id == NthId(k))
    && (forall id | id in w.store.messages :: w.store.messages[id].read)
  }

  lemma WakeIsEnabled(w: World, k: nat, limit: nat)
    requires BeforeWake(w, k)
    ensures Enabled(w, WakeAct(k), limit)
  {
    assert Everyone().Of(NthId(k)) == Deliver;
    assert NthId(k) in Handled(w.store, Partner(k), Everyone());
  }

  /** Only the latest message is unread, and only it is claimed. */
  lemma OnlyTheLatest(w: World, k: nat)
    requires BeforeWake(w, k)
    ensures var got := Got(w.store, Partner(k), Everyone());
            got != [] && forall id | id in got :: id == NthId(k)
  {
    var got := Got(w.store, Partner(k), Everyone());
    GotIs(w.store, Partner(k), Everyone(), NthId(k));
    forall id | id in got ensures id == NthId(k) {
      GotIs(w.store, Partner(k), Everyone(), id);
    }
  }

  lemma LatestIsRead(w: World, k: nat)
    requires BeforeWake(w, k)
    ensures var m := w.store.messages[NthId(k)];
            Claim(w.store, Partner(k), Everyone()).messages == w.store.messages[NthId(k) := m.(read := true)]
  {
  }

  lemma {:induction false} WakeGoesOn(w: World, k: nat)
    requires BeforeWake(w, k)
    ensures BeforeSend(Next(w, WakeAct(k)), k)
  {
    OnlyTheLatest(w, k);
    LatestIsRead(w, k);
    ClaimKeepsSound(w.store, Partner(k), Everyone());
    var got := Got(w.store, Partner(k), Everyone());
    assert Next(w, WakeAct(k)).turns == w.turns + [Turn(got, [], 1)];
  }

  lemma SendIsEnabled(w: World, k: nat, limit: nat)
    requires BeforeSend(w, k)
    ensures Enabled(w, SendAct(k, limit), limit) && !OwnReply(w, SendAct(k, limit)) && Near(w, SendAct(k, limit), 1)
  {
    var t := w.turns[k];
    assert t.Known() == t.claimed;
    var rows := Rows(w.store, t.claimed);
    forall i | 0 <= i < |rows| ensures rows[i].id == NthId(k) && rows[i] == rows[0] {
      assert t.claimed[i] in t.claimed && t.claimed[0] in t.claimed;
    }
    assert Tops(rows, 0) && IsCausalParent(rows, Some(NthId(k)));
    if TurnOk(w.store, t) { LowestIsLowest(w.store, t.Known()); }
  }

  lemma {:induction false} SendGoesOn(w: World, k: nat, limit: nat)
    requires limit >= 1 && BeforeSend(w, k)
    ensures BeforeWake(Next(w, SendAct(k, limit)), k + 1)
  {
    var v := Next(w, SendAct(k, limit));
    PostKeepsSound(w.store, SendAct(k, limit).q, NthId(k + 1), limit, false, Allow);
    assert v.store.messages ==
           w.store.messages[NthId(k + 1) := NewMessage(w.store.messages, SendAct(k, limit).q, NthId(k + 1))];
  }

  lemma StartIsReady()
    ensures BeforeWake(Start(), 0)
  {
    StartIsSound();
  }

  ghost predicate Follows(run: nat -> World, limit: nat, k: nat) {
    run(2 * k + 1) == Next(run(2 * k), WakeAct(k)) && run(2 * k + 2) == Next(run(2 * k + 1), SendAct(k, limit))
  }

  lemma {:induction false} Round(run: nat -> World, limit: nat, k: nat, next: nat)
    requires limit >= 1 && Follows(run, limit, k) && BeforeWake(run(2 * k), k) && next == k + 1
    ensures BeforeWake(run(2 * next), next)
  {
    WakeGoesOn(run(2 * k), k);
    SendGoesOn(run(2 * k + 1), k, limit);
    assert 2 * next == 2 * k + 2;
  }

  lemma {:induction false} GoesOn(run: nat -> World, limit: nat, k: nat)
    requires limit >= 1 && run(0) == Start() && forall i: nat :: Follows(run, limit, i)
    ensures BeforeWake(run(2 * k), k)
  {
    if k == 0 {
      StartIsReady();
    } else {
      GoesOn(run, limit, k - 1);
      Round(run, limit, k - 1, k);
    }
  }

  lemma StartIsSound()
    ensures Inv(Start()) && Bounded(Start().store, 1)
  {
    var s := Start().store;
    assert s.log[0] == ROOT && s.log[1] == NthId(0);
  }

  /** A wake, and a send that replies one hop further back than its turn knows: both can happen. */
  ghost predicate Goes(run: nat -> World, limit: nat, k: nat) {
    && Enabled(run(2 * k), WakeAct(k), limit)
    && Enabled(run(2 * k + 1), SendAct(k, limit), limit)
    && !OwnReply(run(2 * k + 1), SendAct(k, limit)) && Near(run(2 * k + 1), SendAct(k, limit), 1)
  }

  lemma GoesEachRound(run: nat -> World, limit: nat, k: nat)
    requires limit >= 1 && Follows(run, limit, k) && BeforeWake(run(2 * k), k)
    ensures Goes(run, limit, k)
  {
    WakeIsEnabled(run(2 * k), k, limit);
    WakeGoesOn(run(2 * k), k);
    SendIsEnabled(run(2 * k + 1), k, limit);
  }

  /** Every step is one the daemon takes, and no loop break is ever recorded. */
  lemma RepliesToOldMessagesGoOn(run: nat -> World, limit: nat, k: nat)
    requires limit >= 1 && run(0) == Start() && forall i: nat :: Follows(run, limit, i)
    ensures Goes(run, limit, k)
    ensures |run(2 * k).turns| == k && run(2 * k).store.breaks == [] && Bounded(run(2 * k).store, 1)
  {
    GoesOn(run, limit, k);
    GoesEachRound(run, limit, k);
  }

  ghost function Rounds(k: nat, limit: nat): World {
    if k == 0 then Start() else Next(Next(Rounds(k - 1, limit), WakeAct(k - 1)), SendAct(k - 1, limit))
  }

  ghost predicate IsRounds(rounds: nat -> World, limit: nat, k: nat) {
    rounds(k + 1) == Next(Next(rounds(k), WakeAct(k)), SendAct(k, limit))
  }

  /** The worlds before each wake, and the worlds between. */
  ghost function Interleaved(rounds: nat -> World, n: nat): World {
    if n % 2 == 0 then rounds(n / 2) else Next(rounds(n / 2), WakeAct(n / 2))
  }

  lemma InterleavedIs(rounds: nat -> World, k: nat)
    ensures Interleaved(rounds, 2 * k) == rounds(k)
    ensures Interleaved(rounds, 2 * k + 1) == Next(rounds(k), WakeAct(k))
  {
    assert (2 * k) / 2 == k && (2 * k + 1) / 2 == k;
  }

  lemma InterleavedNext(rounds: nat -> World, k: nat)
    ensures Interleaved(rounds, 2 * k + 2) == rounds(k + 1)
  {
    assert (2 * k + 2) / 2 == k + 1 && (2 * k + 2) % 2 == 0;
  }

  lemma RoundsExist(limit: nat) returns (rounds: nat -> World)
    ensures rounds(0) == Rounds(0, limit) && forall k: nat :: IsRounds(rounds, limit, k)
  {
    rounds := (k: nat) => Rounds(k, limit);
  }

  lemma FollowsInterleaved(rounds: nat -> World, run: nat -> World, limit: nat, k: nat)
    requires IsRounds(rounds, limit, k)
    requires run(2 * k) == Interleaved(rounds, 2 * k) && run(2 * k + 1) == Interleaved(rounds, 2 * k + 1)
    requires run(2 * k + 2) == Interleaved(rounds, 2 * k + 2)
    ensures Follows(run, limit, k)
  {
    InterleavedIs(rounds, k);
    InterleavedNext(rounds, k);
  }

  lemma RunExists(limit: nat) returns (run: nat -> World)
    ensures run(0) == Start() && forall k: nat :: Follows(run, limit, k)
  {
    var rounds := RoundsExist(limit);
    run := (n: nat) => Interleaved(rounds, n);
    forall k: nat ensures Follows(run, limit, k) {
      assert IsRounds(rounds, limit, k);
      FollowsInterleaved(rounds, run, limit, k);
    }
    InterleavedIs(rounds, 0);
  }

  ghost predicate Endless(run: nat -> World, limit: nat) {
    forall k: nat :: Follows(run, limit, k) && Goes(run, limit, k)
  }

  /** From a sound start there is an endless run of wakes and sends, whatever the limit above zero. */
  lemma RepliesToOldMessagesNeverEnd(limit: nat)
    requires limit >= 1
    ensures exists run: nat -> World :: Inv(run(0)) && Bounded(run(0).store, limit) && Endless(run, limit)
  {
    var run := RunExists(limit);
    forall k: nat ensures Follows(run, limit, k) && Goes(run, limit, k) { RepliesToOldMessagesGoOn(run, limit, k); }
    StartIsSound();
    assert Endless(run, limit);
  }

  /** Wakes and sends take turns. */
  function ActAt(n: nat, limit: nat): Act {
    if n % 2 == 0 then WakeAct(n / 2) else SendAct(n / 2, limit)
  }

  lemma ActAtEven(k: nat, limit: nat)
    ensures ActAt(2 * k, limit) == WakeAct(k) && ActAt(2 * k + 1, limit) == SendAct(k, limit)
  {
    assert (2 * k) / 2 == k && (2 * k + 1) / 2 == k;
  }

  ghost predicate Alternates(acts: nat -> Act, limit: nat, k: nat) {
    acts(2 * k) == WakeAct(k) && acts(2 * k + 1) == SendAct(k, limit)
  }

  lemma RoundTakesSteps(run: nat -> World, acts: nat -> Act, limit: nat, d: nat, k: nat)
    requires d >= 1 && Alternates(acts, limit, k) && Follows(run, limit, k) && Goes(run, limit, k)
    ensures TakesStep(run, acts, limit, d, 2 * k) && TakesStep(run, acts, limit, d, 2 * k + 1)
  {
  }

  lemma EndlessTakesSteps(run: nat -> World, acts: nat -> Act, limit: nat, d: nat, n: nat)
    requires d >= 1 && Endless(run, limit) && forall k: nat :: Alternates(acts, limit, k)
    ensures TakesStep(run, acts, limit, d, n)
  {
    var k := n / 2;
    RoundOfEndless(run, acts, limit, d, k);
    assert n == 2 * k || n == 2 * k + 1;
  }

  lemma RoundOfEndless(run: nat -> World, acts: nat -> Act, limit: nat, d: nat, k: nat)
    requires d >= 1 && Endless(run, limit) && forall j: nat :: Alternates(acts, limit, j)
    ensures TakesStep(run, acts, limit, d, 2 * k) && TakesStep(run, acts, limit, d, 2 * k + 1)
  {
    assert Alternates(acts, limit, k) && Follows(run, limit, k) && Goes(run, limit, k);
    RoundTakesSteps(run, acts, limit, d, k);
  }

  /** One hop is enough: above limit zero, replies that reach back at all can go on for ever. */
  lemma FartherRepliesNeedNotEnd(limit: nat, d: nat)
    requires limit >= 1 && d >= 1
    ensures !AlwaysEnds(limit, d)
  {
    RepliesToOldMessagesNeverEnd(limit);
    var run: nat -> World :| Inv(run(0)) && Bounded(run(0).store, limit) && Endless(run, limit);
    var acts := (i: nat) => ActAt(i, limit);
    forall k: nat ensures Alternates(acts, limit, k) { ActAtEven(k, limit); }
    forall n: nat ensures TakesStep(run, acts, limit, d, n) { EndlessTakesSteps(run, acts, limit, d, n); }
    assert !Ends(run, acts, limit, d);
  }

  /**
   Every cascade ends exactly when no reply reaches further back than what its turn knows, or
   the hop limit is zero.
   */
  lemma CascadesAlwaysEndExactlyWhen(ceiling: nat, d: nat)
    ensures AlwaysEnds(ceiling, d) <==> d == 0 || ceiling == 0
  {
    if d == 0 {
      forall run: nat -> World, acts: nat -> Act ensures Ends(run, acts, ceiling, 0) {
        NearbyRepliesEnd(run, acts, ceiling);
      }
    } else if ceiling == 0 {
      forall run: nat -> World, acts: nat -> Act ensures Ends(run, acts, 0, d) { LimitZeroEnds(run, acts, d); }
    } else {
      FartherRepliesNeedNotEnd(ceiling, d);
    }
  }
}
