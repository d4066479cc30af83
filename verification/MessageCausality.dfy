/**
 Agent messages: the hop count that breaks loops, sending one message, and claiming an inbox for
 a wake.
 */
module MessageCausality {
  import opened Wrappers

  type Id = string

  /** `cause` is the message this one was resolved to follow; the table itself keeps only `replyTo`. */
  datatype Message = Message(
    id: Id, sender: string, recipient: string, replyTo: Option<Id>,
    chain: string, hop: nat, cause: Option<Id>,
    read: bool, claimed: bool, blocked: bool)
  {
    predicate Unread() {
      !read && !claimed && !blocked
    }

    predicate Awaits(agent: string) {
      Unread() && recipient == agent
    }
  }

  datatype LoopBreak = LoopBreak(
    chain: string, parent: Option<Id>, sender: string, recipient: string, attemptedHop: nat, maxHops: nat)

  /**
   `log` lists the messages by age. `agents` are the rows a message may refer to; `found` is the
   wider look-up by id, name or prefix.
   */
  datatype Store = Store(
    messages: map<Id, Message>, log: seq<Id>, agents: set<string>, found: string -> bool, breaks: seq<LoopBreak>)

  datatype Input = Input(sender: string, recipient: string, replyTo: Option<Id>, causalParent: Option<Id>)

  datatype Causality = Causality(chain: Option<string>, hop: Option<nat>, parent: Option<Id>)

  datatype Decision = Allow | Deny | ApprovalRequired

  /** `Rejected` is a foreign-key failure: the transaction rolls back. */
  datatype Outcome = Sent(message: Message) | Broken(event: LoopBreak) | Denied | Held | Rejected

  // Sending

  function ResolveMessageCausality(messages: map<Id, Message>, q: Input): Causality {
    var parentId := if q.replyTo.Some? then q.replyTo else q.causalParent;
    if parentId.None? || parentId.value == "" then Causality(None, None, None)
    else if parentId.value !in messages then Causality(None, None, None)
    else
      var parent := messages[parentId.value];
      Causality(Some(parent.chain), Some(parent.hop + 1), parentId)
  }

  function Hop(c: Causality): nat {
    if c.hop.Some? then c.hop.value else 0
  }

  predicate OverLimit(s: Store, q: Input, maxHops: nat) {
    Hop(ResolveMessageCausality(s.messages, q)) > maxHops && s.found(q.sender) && s.found(q.recipient)
  }

  /** What the insert needs: both agents, and the message replied to, exist. */
  predicate ReferencesOk(s: Store, q: Input) {
    && q.sender in s.agents && q.recipient in s.agents
    && (q.replyTo.Some? ==> q.replyTo.value in s.messages)
  }

  function NewMessage(messages: map<Id, Message>, q: Input, id: Id): Message {
    var c := ResolveMessageCausality(messages, q);
    Message(id, q.sender, q.recipient, q.replyTo, if c.chain.Some? then c.chain.value else id,
            Hop(c), c.parent, false, false, false)
  }

  function Post(s: Store, q: Input, id: Id, maxHops: nat, enforcing: bool, decision: Decision): (Store, Outcome) {
    if OverLimit(s, q, maxHops) then
      var c := ResolveMessageCausality(s.messages, q);
      var event := LoopBreak(c.chain.value, c.parent, q.sender, q.recipient, Hop(c), maxHops);
      (s.(breaks := s.breaks + [event]), Broken(event))
    else if enforcing && decision == Deny then (s, Denied)
    else if enforcing && decision == ApprovalRequired then (s, Held)
    else if !ReferencesOk(s, q) then (s, Rejected)
    else
      var m := NewMessage(s.messages, q, id);
      (s.(messages := s.messages[id := m], log := s.log + [id]), Sent(m))
  }

  /** One hop after its cause, in its cause's chain; or the start of a chain of its own. */
  ghost predicate LineageOf(messages: map<Id, Message>, id: Id)
    requires id in messages
  {
    var m := messages[id];
    if m.cause.None? then m.hop == 0 && m.chain == id
    else
      && m.cause.value in messages
      && m.chain == messages[m.cause.value].chain
      && m.hop == messages[m.cause.value].hop + 1
  }

  ghost predicate RowOk(messages: map<Id, Message>, id: Id)
    requires id in messages
  {
    id != "" && messages[id].id == id && (messages[id].claimed ==> messages[id].read) && LineageOf(messages, id)
  }

  ghost predicate Sound(s: Store) {
    && (forall id {:trigger RowOk(s.messages, id)} | id in s.messages :: RowOk(s.messages, id))
    && (forall id :: id in s.messages <==> id in s.log)
    && (forall i, j | 0 <= i < j < |s.log| :: s.log[i] != s.log[j])
    && (forall a | a in s.agents :: s.found(a))
  }

  /** The `k`-th message back along the causes. */
  ghost function Ancestor(messages: map<Id, Message>, id: Id, k: nat): (a: Id)
    requires id in messages && (forall i {:trigger RowOk(messages, i)} | i in messages :: RowOk(messages, i))
             && k <= messages[id].hop
    ensures a in messages && messages[a].hop == messages[id].hop - k && messages[a].chain == messages[id].chain
    decreases k
  {
    if k == 0 then id
    else
      assert RowOk(messages, id);
      Ancestor(messages, messages[id].cause.value, k - 1)
  }

  /** A message's hop is its distance from the message whose id names its chain. */
  lemma ChainLeadsToItsStart(s: Store, id: Id)
    requires Sound(s) && id in s.messages
    ensures Ancestor(s.messages, id, s.messages[id].hop) == s.messages[id].chain
  {
    var start := Ancestor(s.messages, id, s.messages[id].hop);
    assert RowOk(s.messages, start);
  }

  lemma PostKeepsSound(s: Store, q: Input, id: Id, maxHops: nat, enforcing: bool, decision: Decision)
    requires Sound(s) && id !in s.messages && id != ""
    ensures Sound(Post(s, q, id, maxHops, enforcing, decision).0)
  {
    var t := Post(s, q, id, maxHops, enforcing, decision).0;
    if t.messages != s.messages {
      forall i | i in t.messages ensures RowOk(t.messages, i) {
        if i != id { assert RowOk(s.messages, i); }
      }
    }
  }

  /** Nothing over the limit is ever stored; a message is broken exactly when it would be. */
  lemma StoredWithinLimit(s: Store, q: Input, id: Id, maxHops: nat, enforcing: bool, decision: Decision)
    requires Sound(s) && id !in s.messages
    ensures Post(s, q, id, maxHops, enforcing, decision).1.Sent?
            ==> Post(s, q, id, maxHops, enforcing, decision).1.message.hop <= maxHops
    ensures ReferencesOk(s, q) && Hop(ResolveMessageCausality(s.messages, q)) > maxHops
            ==> Post(s, q, id, maxHops, enforcing, decision).1.Broken?
    ensures forall i | i in Post(s, q, id, maxHops, enforcing, decision).0.messages && i !in s.messages ::
              Post(s, q, id, maxHops, enforcing, decision).0.messages[i].hop <= maxHops
  {
  }

  /** The stored message that a new one follows: what it replies to, or else what its turn handled. */
  function CauseOf(s: Store, q: Input): Option<Id> {
    var parent := if q.replyTo.Some? then q.replyTo else q.causalParent;
    if parent.Some? && parent.value in s.messages then parent else None
  }

  function Depth(s: Store, q: Input): nat {
    if CauseOf(s, q).Some? then s.messages[CauseOf(s, q).value].hop + 1 else 0
  }

  /** The chain that a message following the cause belongs to. */
  function ChainOf(s: Store, q: Input, own: string): string {
    if CauseOf(s, q).Some? then s.messages[CauseOf(s, q).value].chain else own
  }

  predicate TooDeep(s: Store, q: Input, maxHops: nat) {
    Depth(s, q) > maxHops && s.found(q.sender) && s.found(q.recipient)
  }

  lemma Resolved(s: Store, q: Input)
    requires Sound(s)
    ensures var c := ResolveMessageCausality(s.messages, q);
            && c.parent == CauseOf(s, q) && Hop(c) == Depth(s, q)
            && c.chain == if c.parent.Some? then Some(s.messages[c.parent.value].chain) else None
  {
    if CauseOf(s, q).Some? { assert RowOk(s.messages, CauseOf(s, q).value); }
  }

  /** Which answer a send gets: the limit comes first, then the policy, then the references. */
  lemma AnswerExactlyWhen(s: Store, q: Input, id: Id, maxHops: nat, enforcing: bool, decision: Decision)
    requires Sound(s)
    ensures var answer := Post(s, q, id, maxHops, enforcing, decision).1;
            var allowed := !enforcing || decision == Allow;
            && (answer.Broken? <==> TooDeep(s, q, maxHops))
            && (answer.Denied? <==> !TooDeep(s, q, maxHops) && enforcing && decision == Deny)
            && (answer.Held? <==> !TooDeep(s, q, maxHops) && enforcing && decision == ApprovalRequired)
            && (answer.Rejected? <==> !TooDeep(s, q, maxHops) && allowed && !ReferencesOk(s, q))
            && (answer.Sent? <==> ReferencesOk(s, q) && Depth(s, q) <= maxHops && allowed)
  {
    Resolved(s, q);
  }

  /** What a send leaves behind: one message more, one break more, or nothing. */
  lemma SendLeaves(s: Store, q: Input, id: Id, maxHops: nat, enforcing: bool, decision: Decision)
    requires Sound(s)
    ensures var (t, answer) := Post(s, q, id, maxHops, enforcing, decision);
            match answer
            case Sent(m) =>
              && t == s.(messages := s.messages[id := m], log := s.log + [id])
              && m == Message(id, q.sender, q.recipient, q.replyTo, ChainOf(s, q, id), Depth(s, q), CauseOf(s, q),
                              false, false, false)
            case Broken(e) =>
              && t == s.(breaks := s.breaks + [e]) && CauseOf(s, q).Some?
              && e == LoopBreak(ChainOf(s, q, ""), CauseOf(s, q), q.sender, q.recipient, Depth(s, q), maxHops)
            case _ => t == s
  {
    Resolved(s, q);
  }

  // Waking

  datatype Verdict = Deliver | Hold | Block

  /** What the policy says of each unread message; approvals already granted let a message through. */
  datatype Policy = Policy(enforcing: bool, decide: Id -> Decision, granted: set<Id>)
  {
    function Of(id: Id): Verdict {
      if !enforcing || decide(id) == Allow || (decide(id) == ApprovalRequired && id in granted) then Deliver
      else if decide(id) == ApprovalRequired then Hold
      else Block
    }

    function ClaimMark(m: Message): Message {
      match Of(m.id)
      case Deliver => m.(claimed := true)
      case Hold => m
      case Block => m.(blocked := true)
    }

    function Mark(m: Message): Message {
      match Of(m.id)
      case Deliver => m.(read := true, claimed := enforcing)
      case Hold => m
      case Block => m.(blocked := true)
    }

    function Pick(ids: seq<Id>, v: Verdict): seq<Id> {
      if ids == [] then []
      else Pick(ids[..|ids| - 1], v) + if Of(ids[|ids| - 1]) == v then [ids[|ids| - 1]] else []
    }

    lemma {:induction false} PickIs(ids: seq<Id>, v: Verdict, id: Id)
      ensures id in Pick(ids, v) <==> id in ids && Of(id) == v
    {
      if ids != [] {
        PickIs(ids[..|ids| - 1], v, id);
        assert ids == ids[..|ids| - 1] + [ids[|ids| - 1]];
      }
    }
  }

  function UnreadInbox(messages: map<Id, Message>, log: seq<Id>, agent: string): seq<Id> {
    if log == [] then []
    else
      var id := log[|log| - 1];
      UnreadInbox(messages, log[..|log| - 1], agent) + if id in messages && messages[id].Awaits(agent) then [id] else []
  }

  lemma {:induction false} UnreadInboxIs(messages: map<Id, Message>, log: seq<Id>, agent: string, id: Id)
    ensures id in UnreadInbox(messages, log, agent) <==> id in log && id in messages && messages[id].Awaits(agent)
  {
    if log != [] {
      UnreadInboxIs(messages, log[..|log| - 1], agent, id);
      assert log == log[..|log| - 1] + [log[|log| - 1]];
    }
  }

  function Inbox(s: Store, agent: string): seq<Id> {
    UnreadInbox(s.messages, s.log, agent)
  }

  /** What a wake of the agent is handed, oldest first. */
  function Got(s: Store, agent: string, p: Policy): seq<Id> {
    p.Pick(Inbox(s, agent), Deliver)
  }

  lemma GotIs(s: Store, agent: string, p: Policy, id: Id)
    requires Sound(s)
    ensures id in Got(s, agent, p) <==> id in s.messages && s.messages[id].Awaits(agent) && p.Of(id) == Deliver
  {
    UnreadInboxIs(s.messages, s.log, agent, id);
    p.PickIs(Inbox(s, agent), Deliver, id);
  }

  function Claim(s: Store, agent: string, p: Policy): Store {
    s.(messages := map id | id in s.messages ::
         if s.messages[id].Awaits(agent) then p.Mark(s.messages[id]) else s.messages[id])
  }

  lemma ClaimKeepsSound(s: Store, agent: string, p: Policy)
    requires Sound(s)
    ensures Sound(Claim(s, agent, p))
  {
    var t := Claim(s, agent, p);
    forall i | i in t.messages ensures RowOk(t.messages, i) {
      assert RowOk(s.messages, i);
    }
  }

  /**
   What a wake makes of one message. What the policy allows, or an operator has granted, is handed over
   and read; what still needs approval stays as it is and is asked for; what is denied is blocked.
   */
  lemma ClaimedMessage(s: Store, agent: string, p: Policy, id: Id)
    requires Sound(s) && id in s.messages
    ensures var m, n := s.messages[id], Claim(s, agent, p).messages[id];
            var granted := p.decide(id) == ApprovalRequired && id in p.granted;
            var through := !p.enforcing || p.decide(id) == Allow || granted;
            if m.recipient != agent || m.read || m.claimed || m.blocked then
              n == m && id !in Got(s, agent, p) && id !in p.Pick(Inbox(s, agent), Hold)
            else if through then
              n == m.(read := true, claimed := p.enforcing) && id in Got(s, agent, p)
            else
              && id !in Got(s, agent, p)
              && (p.decide(id) == ApprovalRequired ==> n == m && id in p.Pick(Inbox(s, agent), Hold))
              && (p.decide(id) == Deny ==> n == m.(blocked := true) && id !in p.Pick(Inbox(s, agent), Hold))
  {
    assert RowOk(s.messages, id);
    GotIs(s, agent, p, id);
    UnreadInboxIs(s.messages, s.log, agent, id);
    p.PickIs(Inbox(s, agent), Hold, id);
  }

  /** Every element of the one is found in the other, in the same order. */
  ghost predicate InOrder(part: seq<Id>, whole: seq<Id>) {
    part == [] ||
    exists k :: 0 <= k < |whole| && whole[k] == part[|part| - 1] && InOrder(part[..|part| - 1], whole[..k])
  }

  lemma InOrderMore(part: seq<Id>, whole: seq<Id>, id: Id)
    requires InOrder(part, whole)
    ensures InOrder(part + [id], whole + [id])
  {
    assert (part + [id])[..|part|] == part && (whole + [id])[..|whole|] == whole;
    assert (whole + [id])[|whole|] == (part + [id])[|part|];
  }

  lemma {:induction false} InOrderLonger(part: seq<Id>, whole: seq<Id>, more: seq<Id>)
    requires InOrder(part, whole)
    ensures InOrder(part, whole + more)
  {
    if part != [] {
      var k :| 0 <= k < |whole| && whole[k] == part[|part| - 1] && InOrder(part[..|part| - 1], whole[..k]);
      assert (whole + more)[k] == part[|part| - 1] && (whole + more)[..k] == whole[..k];
    }
  }

  lemma PickOneMore(p: Policy, ids: seq<Id>, id: Id, v: Verdict)
    ensures p.Pick(ids + [id], v) == p.Pick(ids, v) + if p.Of(id) == v then [id] else []
  {
    assert (ids + [id])[..|ids|] == ids;
  }

  lemma PickedOneMore(messages: map<Id, Message>, front: seq<Id>, id: Id, agent: string, p: Policy, v: Verdict)
    ensures var one := id in messages && messages[id].Awaits(agent) && p.Of(id) == v;
            p.Pick(UnreadInbox(messages, front + [id], agent), v)
            == p.Pick(UnreadInbox(messages, front, agent), v) + if one then [id] else []
  {
    var inbox := UnreadInbox(messages, front, agent);
    assert (front + [id])[..|front|] == front && inbox + [] == inbox && p.Pick(inbox, v) + [] == p.Pick(inbox, v);
    PickOneMore(p, inbox, id, v);
  }

  lemma InOrderStep(part: seq<Id>, whole: seq<Id>, id: Id, more: seq<Id>)
    requires InOrder(part, whole) && (more == [] || more == [id])
    ensures InOrder(part + more, whole + [id])
  {
    InOrderLonger(part, whole, [id]);
    InOrderMore(part, whole, id);
    assert part + [] == part;
  }

  lemma {:induction false} InboxInOrder(messages: map<Id, Message>, log: seq<Id>, agent: string, p: Policy, v: Verdict)
    ensures InOrder(p.Pick(UnreadInbox(messages, log, agent), v), log)
  {
    if log != [] {
      var front, id := log[..|log| - 1], log[|log| - 1];
      InboxInOrder(messages, front, agent, p, v);
      assert log == front + [id];
      PickedOneMore(messages, front, id, agent, p, v);
      var one := id in messages && messages[id].Awaits(agent) && p.Of(id) == v;
      InOrderStep(p.Pick(UnreadInbox(messages, front, agent), v), front, id, if one then [id] else []);
    }
  }

  /** A wake is handed its messages oldest first. */
  lemma OldestFirst(s: Store, agent: string, p: Policy)
    ensures InOrder(Got(s, agent, p), s.log)
  {
    InboxInOrder(s.messages, s.log, agent, p, Deliver);
  }

  /** The first of the messages with the highest hop. */
  ghost predicate IsCausalParent(ms: seq<Message>, selected: Option<Id>) {
    if ms == [] then selected == None
    else exists k :: 0 <= k < |ms| && Tops(ms, k) && selected == Some(ms[k].id)
  }

  ghost predicate Tops(ms: seq<Message>, k: int) {
    0 <= k < |ms| && (forall j | 0 <= j < k :: ms[j].hop < ms[k].hop)
    && (forall j | k <= j < |ms| :: ms[j].hop <= ms[k].hop)
  }

  method SelectCausalParent(ms: seq<Message>) returns (selected: Option<Id>)
    ensures IsCausalParent(ms, selected)
  {
    var best: Option<Message> := None;
    ghost var k := 0;
    for i := 0 to |ms|
      invariant i == 0 ==> best == None
      invariant i > 0 ==> k < i && best == Some(ms[k]) && Tops(ms[..i], k)
    {
      if best.None? || ms[i].hop > best.value.hop {
        best := Some(ms[i]);
        k := i;
      }
    }
    assert ms[..|ms|] == ms;
    selected := if best.Some? then Some(best.value.id) else None;
  }

  function Marked(ms: map<Id, Message>, ids: seq<Id>, p: Policy): map<Id, Message> {
    map id | id in ms :: if id in ids then p.ClaimMark(ms[id]) else ms[id]
  }

  function Delivered(ms: map<Id, Message>, ids: seq<Id>): map<Id, Message> {
    map id | id in ms :: if id in ids then ms[id].(read := true) else ms[id]
  }

  lemma MarkOne(ms: map<Id, Message>, ids: seq<Id>, i: nat, p: Policy)
    requires i < |ids| && ids[i] in ms && forall id | id in ms :: ms[id].id == id
    ensures Marked(ms, ids[..i + 1], p)
            == Marked(ms, ids[..i], p)[ids[i] := p.ClaimMark(Marked(ms, ids[..i], p)[ids[i]])]
  {
    assert ids[..i + 1] == ids[..i] + [ids[i]];
  }

  /** Marking in two passes is marking at once. */
  lemma TwoPasses(s: Store, agent: string, p: Policy)
    requires Sound(s) && p.enforcing
    ensures Delivered(Marked(s.messages, Inbox(s, agent), p), Got(s, agent, p)) == Claim(s, agent, p).messages
  {
    forall id | id in s.messages
      ensures s.messages[id].id == id && (id in Inbox(s, agent) <==> s.messages[id].Awaits(agent))
      ensures id in Got(s, agent, p) <==> s.messages[id].Awaits(agent) && p.Of(id) == Deliver
    {
      assert RowOk(s.messages, id);
      UnreadInboxIs(s.messages, s.log, agent, id);
      GotIs(s, agent, p, id);
    }
  }

  lemma OnePass(s: Store, agent: string, p: Policy)
    requires Sound(s) && !p.enforcing
    ensures Delivered(s.messages, Inbox(s, agent)) == Claim(s, agent, p).messages
    ensures Got(s, agent, p) == Inbox(s, agent) && p.Pick(Inbox(s, agent), Hold) == []
  {
    PickAll(p, Inbox(s, agent));
    forall id | id in s.messages ensures id in Inbox(s, agent) <==> s.messages[id].Awaits(agent) {
      UnreadInboxIs(s.messages, s.log, agent, id);
    }
  }

  lemma {:induction false} PickAll(p: Policy, ids: seq<Id>)
    requires !p.enforcing
    ensures p.Pick(ids, Deliver) == ids && p.Pick(ids, Hold) == []
  {
    if ids != [] {
      PickAll(p, ids[..|ids| - 1]);
      assert ids == ids[..|ids| - 1] + [ids[|ids| - 1]];
    }
  }

  lemma InboxRows(s: Store, agent: string, p: Policy)
    requires Sound(s)
    ensures forall id | id in s.messages :: s.messages[id].id == id
    ensures forall id | id in Inbox(s, agent) || id in Got(s, agent, p) :: id in s.messages
  {
    forall id | id in s.messages ensures s.messages[id].id == id { assert RowOk(s.messages, id); }
    forall id | id in Inbox(s, agent) || id in Got(s, agent, p) ensures id in s.messages {
      UnreadInboxIs(s.messages, s.log, agent, id);
      GotIs(s, agent, p, id);
    }
  }

  class MessageDb {
    var messages: map<Id, Message>
    var log: seq<Id>
    var agents: set<string>
    var breaks: seq<LoopBreak>
    const found: string -> bool

    ghost function Model(): Store
      reads this
    {
      Store(messages, log, agents, found, breaks)
    }

    /** A break is recorded only when both agents are found. The chain is always the parent's. */
    method EnforceMessageCausality(q: Input, c: Causality, maxHops: nat, fallback: string)
      returns (event: Option<LoopBreak>)
      requires c == ResolveMessageCausality(messages, q)
      modifies this`breaks
      ensures event.Some? <==> OverLimit(old(Model()), q, maxHops)
      ensures event.Some? ==>
                event.value == LoopBreak(c.chain.value, c.parent, q.sender, q.recipient, Hop(c), maxHops)
      ensures breaks == if event.Some? then old(breaks) + [event.value] else old(breaks)
    {
      if Hop(c) <= maxHops { return None; }
      if !found(q.sender) || !found(q.recipient) { return None; }
      var chain := ValueOr(c.chain, ValueOr(c.parent, fallback));
      event := Some(LoopBreak(chain, c.parent, q.sender, q.recipient, Hop(c), maxHops));
      breaks := breaks + [event.value];
    }

    /** One transaction. */
    method SendAgentMessage(q: Input, id: Id, maxHops: nat, enforcing: bool, decision: Decision, fallback: string)
      returns (outcome: Outcome)
      requires Sound(Model()) && id !in messages && id != ""
      modifies this
      ensures Sound(Model())
      ensures (Model(), outcome) == Post(old(Model()), q, id, maxHops, enforcing, decision)
      ensures outcome.Sent? ==> outcome.message.hop <= maxHops
    {
      PostKeepsSound(Model(), q, id, maxHops, enforcing, decision);
      StoredWithinLimit(Model(), q, id, maxHops, enforcing, decision);
      var causality := ResolveMessageCausality(messages, q);
      var loopBreak := EnforceMessageCausality(q, causality, maxHops, fallback);
      if loopBreak.Some? { return Broken(loopBreak.value); }
      if enforcing {
        if decision == Deny { return Denied; }
        if decision == ApprovalRequired { return Held; }
      }
      if q.sender !in agents || q.recipient !in agents || (q.replyTo.Some? && q.replyTo.value !in messages) {
        return Rejected;
      }
      var m := NewMessage(messages, q, id);
      messages := messages[id := m];
      log := log + [id];
      outcome := Sent(m);
    }

    /**
     Each unread message is delivered, held for approval or blocked; what is delivered is read
     before anyone else can claim it. `onAllowed` runs once, and only when something is delivered.
     */
    method ClaimDeliverableInbox(agent: string, p: Policy)
      returns (allowed: seq<Id>, approvals: seq<Id>, onAllowed: nat)
      requires Sound(Model())
      modifies this`messages
      ensures Model() == Claim(old(Model()), agent, p)
      ensures allowed == Got(old(Model()), agent, p)
      ensures approvals == p.Pick(old(Inbox(Model(), agent)), Hold)
      ensures onAllowed == if allowed == [] then 0 else 1
      ensures Sound(Model())
    {
      ghost var was := Model();
      ClaimKeepsSound(was, agent, p);
      InboxRows(was, agent, p);
      var inbox := UnreadInbox(messages, log, agent);
      if !p.enforcing {
        OnePass(was, agent, p);
        messages := Delivered(messages, inbox);
        return inbox, [], if inbox == [] then 0 else 1;
      }
      allowed, approvals := MarkClaimed(inbox, p);
      onAllowed := if allowed != [] then 1 else 0;
      MarkDelivered(allowed);
      TwoPasses(was, agent, p);
    }

    /** The first pass: claim marks and blocks. */
    method MarkClaimed(inbox: seq<Id>, p: Policy) returns (allowed: seq<Id>, approvals: seq<Id>)
      requires forall id | id in inbox :: id in messages
      requires forall id | id in messages :: messages[id].id == id
      modifies this`messages
      ensures messages == Marked(old(messages), inbox, p)
      ensures allowed == p.Pick(inbox, Deliver) && approvals == p.Pick(inbox, Hold)
    {
      allowed, approvals := [], [];
      ghost var was := messages;
      for i := 0 to |inbox|
        invariant messages == Marked(was, inbox[..i], p)
        invariant allowed == p.Pick(inbox[..i], Deliver) && approvals == p.Pick(inbox[..i], Hold)
      {
        var id := inbox[i];
        MarkOne(was, inbox, i, p);
        assert inbox[..i + 1][..i] == inbox[..i];
        var m := messages[id];
        match p.Of(id)
        case Deliver =>
          messages := messages[id := m.(claimed := true)];
          allowed := allowed + [id];
        case Hold =>
          approvals := approvals + [id];
        case Block =>
          messages := messages[id := m.(blocked := true)];
      }
      assert inbox[..|inbox|] == inbox;
    }

    /** The second pass: whatever was claimed is read. */
    method MarkDelivered(allowed: seq<Id>)
      requires forall id | id in allowed :: id in messages
      modifies this`messages
      ensures messages == Delivered(old(messages), allowed)
    {
      ghost var was := messages;
      for i := 0 to |allowed|
        invariant messages == Delivered(was, allowed[..i])
      {
        var id := allowed[i];
        assert allowed[..i + 1] == allowed[..i] + [id];
        messages := messages[id := messages[id].(read := true)];
      }
      assert allowed[..|allowed|] == allowed;
    }
  }
}
