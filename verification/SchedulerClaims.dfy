/** Claiming one scheduled occurrence of a trigger, with or without an operator's approval. */
module SchedulerClaims {
  import opened Wrappers

  datatype Trigger = Trigger(lastFired: Option<int>, message: string)

  datatype Status = Pending | Approved | Denied | Expired | Cancelled | Delivering | Delivered | DeliveryFailed

  /** `message` is absent when what was stored is not a string. */
  datatype Payload = Payload(
    dispatch: Option<string>, trigger: string, occurrence: int, agent: string, message: Option<string>)

  datatype Approval = Approval(
    operation: string, payloadKind: string, payload: Option<Payload>, status: Status,
    policyRefs: seq<string>, requiredEdges: seq<string>)

  /** `<trigger id>:<occurrence>` */
  datatype Attempt = Attempt(trigger: string, occurrence: int)

  datatype Db = Db(triggers: map<string, Trigger>, approvals: map<Attempt, Approval>)

  datatype Decision = Allow | Deny | ApprovalRequired

  datatype Ruling = Ruling(decision: Decision, policyRefs: seq<string>, requiredEdges: seq<string>)

  /** An approval for the same attempt that another writer stored in the meantime. */
  datatype Race = NoRace | Same(approval: Approval) | Different(approval: Approval)

  /** `fails`: `onAllowed`, or recording the denial, throws. */
  datatype Call = Call(
    dispatch: Option<string>, trigger: string, agent: string, occurrence: int, materialized: bool,
    enforcing: bool, ruling: Ruling, race: Race, fails: bool)
  {
    function Key(): Attempt {
      Attempt(trigger, occurrence)
    }
  }

  /** The last three are exceptions; `Refused` is the policy's denial. */
  datatype Result =
    | Claimed | AlreadyClaimed | ApprovalPending | ApprovalTerminal(reason: Reason)
    | NotFound | Refused | Failed

  datatype Reason = Mismatch | OfStatus(status: Status) | MessageChanged | PolicyChanged

  const SCHEDULER_TRIGGER := "scheduler_trigger"

  predicate Matches(a: Approval, c: Call) {
    && a.operation == SCHEDULER_TRIGGER && a.payloadKind == SCHEDULER_TRIGGER
    && a.payload.Some?
    && var p := a.payload.value;
       p.dispatch == c.dispatch && p.trigger == c.trigger && p.occurrence == c.occurrence && p.agent == c.agent
       && p.message.Some?
  }

  predicate Open(s: Status) {
    s == Pending || s == Approved || s == Delivering
  }

  /** The approval of this attempt settles the call before the trigger is looked at. */
  function Settled(db: Db, c: Call): Option<Result> {
    if c.Key() !in db.approvals then None
    else
      var a := db.approvals[c.Key()];
      if !Matches(a, c) then Some(ApprovalTerminal(Mismatch))
      else if Open(a.status) then Some(ApprovalPending)
      else if a.status != Delivered then Some(ApprovalTerminal(OfStatus(a.status)))
      else None
  }

  /** The occurrence is behind the last one fired. */
  predicate Behind(t: Trigger, c: Call) {
    t.lastFired.Some? && t.lastFired.value >= c.occurrence
  }

  function Fire(db: Db, c: Call): Db
    requires c.trigger in db.triggers
  {
    var t := db.triggers[c.trigger];
    if Behind(t, c) then db
    else db.(triggers := db.triggers[c.trigger := t.(lastFired := Some(c.occurrence))])
  }

  function NewApproval(c: Call, t: Trigger): Approval {
    Approval(SCHEDULER_TRIGGER, SCHEDULER_TRIGGER,
             Some(Payload(c.dispatch, c.trigger, c.occurrence, c.agent, Some(t.message))),
             Pending, c.ruling.policyRefs, c.ruling.requiredEdges)
  }

  /** Asking for approval, after the transaction has committed. */
  function Ask(db: Db, c: Call, t: Trigger): (Db, Result) {
    match c.race
    case NoRace => (db.(approvals := db.approvals[c.Key() := NewApproval(c, t)]), ApprovalPending)
    case Same(a) =>
      (db.(approvals := db.approvals[c.Key() := a]),
       if Open(a.status) || a.status == Delivered then ApprovalPending else ApprovalTerminal(OfStatus(a.status)))
    case Different(a) => (db.(approvals := db.approvals[c.Key() := a]), Failed)
  }

  function Allowed(db: Db, c: Call): (Db, Result)
    requires c.trigger in db.triggers
  {
    if c.fails then (db, Failed) else (Fire(db, c), Claimed)
  }

  function Enforced(db: Db, c: Call): (Db, Result)
    requires c.trigger in db.triggers
  {
    var t := db.triggers[c.trigger];
    var delivered := c.Key() in db.approvals;
    match c.ruling.decision
    case Deny => if c.fails then (db, Failed) else (Fire(db, c), Refused)
    case Allow => if delivered then (Fire(db, c), ApprovalTerminal(PolicyChanged)) else Allowed(db, c)
    case ApprovalRequired =>
      if !delivered then Ask(Fire(db, c), c, t)
      else
        var a := db.approvals[c.Key()];
        if a.payload.None? || a.payload.value.message != Some(t.message)
          then (Fire(db, c), ApprovalTerminal(MessageChanged))
        else if a.policyRefs != c.ruling.policyRefs || a.requiredEdges != c.ruling.requiredEdges then
          (Fire(db, c), ApprovalTerminal(PolicyChanged))
        else Allowed(db, c)
  }

  function Claim(db: Db, c: Call): (Db, Result) {
    if Settled(db, c).Some? then (db, Settled(db, c).value)
    else if c.trigger !in db.triggers then (db, NotFound)
    else if !c.materialized && Behind(db.triggers[c.trigger], c) then (db, AlreadyClaimed)
    else if !c.enforcing then Allowed(db, c)
    else Enforced(db, c)
  }

  class SchedulerDb {
    var triggers: map<string, Trigger>
    var approvals: map<Attempt, Approval>

    ghost function Model(): Db
      reads this
    {
      Db(triggers, approvals)
    }

    method MarkFired(trigger: string, occurrence: int)
      requires trigger in triggers
      modifies this`triggers
      ensures triggers == old(triggers)[trigger := old(triggers)[trigger].(lastFired := Some(occurrence))]
    {
      triggers := triggers[trigger := triggers[trigger].(lastFired := Some(occurrence))];
    }

    /** `onAllowed` runs to its end exactly once when the result is `Claimed`, and otherwise not at all. */
    method ClaimSchedulerTrigger(c: Call) returns (result: Result, onAllowed: nat)
      modifies this
      ensures (Model(), result) == Claim(old(Model()), c)
      ensures onAllowed == if result == Claimed then 1 else 0
    {
      onAllowed := 0;
      var attempt := c.Key();
      var existing := if attempt in approvals then Some(approvals[attempt]) else None;
      if existing.Some? && !Matches(existing.value, c) { return ApprovalTerminal(Mismatch), 0; }
      if existing.Some? && Open(existing.value.status) { return ApprovalPending, 0; }
      if existing.Some? && existing.value.status != Delivered {
        return ApprovalTerminal(OfStatus(existing.value.status)), 0;
      }
      if c.trigger !in triggers { return NotFound, 0; }
      var current := triggers[c.trigger];
      if !c.materialized && current.lastFired.Some? && current.lastFired.value >= c.occurrence {
        return AlreadyClaimed, 0;
      }
      if !c.enforcing {
        result, onAllowed := RunAllowed(c);
        return;
      }
      match c.ruling.decision
      case Deny =>
        if c.fails { return Failed, 0; }
        FireForward(c);
        return Refused, 0;
      case Allow =>
        if existing.Some? {
          FireForward(c);
          return ApprovalTerminal(PolicyChanged), 0;
        }
        result, onAllowed := RunAllowed(c);
      case ApprovalRequired =>
        if existing.None? {
          FireForward(c);
          result := RequestApproval(c, current);
          return;
        }
        var approved := existing.value;
        if approved.payload.None? || approved.payload.value.message != Some(current.message) {
          FireForward(c);
          return ApprovalTerminal(MessageChanged), 0;
        }
        if approved.policyRefs != c.ruling.policyRefs || approved.requiredEdges != c.ruling.requiredEdges {
          FireForward(c);
          return ApprovalTerminal(PolicyChanged), 0;
        }
        result, onAllowed := RunAllowed(c);
    }

    /** The mark only ever moves forward. */
    method FireForward(c: Call)
      requires c.trigger in triggers
      modifies this`triggers
      ensures Model() == Fire(old(Model()), c)
    {
      var current := triggers[c.trigger];
      if current.lastFired.None? || current.lastFired.value < c.occurrence {
        MarkFired(c.trigger, c.occurrence);
      }
    }

    /** The end of the transaction; when `onAllowed` throws, nothing is kept. */
    method RunAllowed(c: Call) returns (result: Result, onAllowed: nat)
      requires c.trigger in triggers
      modifies this`triggers
      ensures (Model(), result) == Allowed(old(Model()), c)
      ensures onAllowed == if result == Claimed then 1 else 0
    {
      if c.fails { return Failed, 0; }
      FireForward(c);
      return Claimed, 1;
    }

    method RequestApproval(c: Call, current: Trigger) returns (result: Result)
      modifies this`approvals
      ensures (Model(), result) == Ask(old(Model()), c, current)
    {
      match c.race
      case NoRace =>
        approvals := approvals[c.Key() := NewApproval(c, current)];
        result := ApprovalPending;
      case Same(a) =>
        approvals := approvals[c.Key() := a];
        if Open(a.status) { return ApprovalPending; }
        if a.status == Delivered { return ApprovalPending; }
        result := ApprovalTerminal(OfStatus(a.status));
      case Different(a) =>
        approvals := approvals[c.Key() := a];
        result := Failed;
    }
  }

  /**
   A call is claimed exactly when the trigger exists, its occurrence is not behind unless
   materialized, and either no policy is enforced and nothing stands against it, or the policy
   allows what nobody was asked to approve, or an operator approved this very occurrence, with
   this message, under these rules, and it still needs approval.
   */
  lemma ClaimedExactlyWhen(db: Db, c: Call)
    ensures Claim(db, c).1 == Claimed <==>
            && c.trigger in db.triggers && (c.materialized || !Behind(db.triggers[c.trigger], c)) && !c.fails
            && (c.Key() in db.approvals ==> Granted(db.approvals[c.Key()], c))
            && (c.enforcing ==>
                  if c.Key() in db.approvals then
                    c.ruling.decision == ApprovalRequired
                    && StillHolds(db.approvals[c.Key()], c.ruling, db.triggers[c.trigger].message)
                  else c.ruling.decision == Allow)
  {
  }

  predicate Granted(a: Approval, c: Call) {
    Matches(a, c) && a.status == Delivered
  }

  predicate StillHolds(a: Approval, r: Ruling, message: string) {
    a.payload.Some? && a.payload.value.message == Some(message)
    && a.policyRefs == r.policyRefs && a.requiredEdges == r.requiredEdges
  }

  // What a call leaves behind

  /** Nothing stands against the call before the policy is asked. */
  predicate Reached(db: Db, c: Call) {
    && (c.Key() in db.approvals ==> Granted(db.approvals[c.Key()], c))
    && c.trigger in db.triggers && (c.materialized || !Behind(db.triggers[c.trigger], c))
  }

  /** The policy wants an approval that nobody has been asked for. */
  predicate Asks(db: Db, c: Call) {
    c.enforcing && c.ruling.decision == ApprovalRequired && c.Key() !in db.approvals
  }

  /** There was an approval, but what was approved is no longer what would run. */
  predicate Stale(db: Db, c: Call)
    requires c.trigger in db.triggers
  {
    c.enforcing && c.Key() in db.approvals && c.ruling.decision != Deny
    && (c.ruling.decision == Allow
        || !StillHolds(db.approvals[c.Key()], c.ruling, db.triggers[c.trigger].message))
  }

  /** Nothing throws before the transaction ends. */
  predicate Kept(db: Db, c: Call)
    requires c.trigger in db.triggers
  {
    !c.fails || Asks(db, c) || Stale(db, c)
  }

  /** The tables with that one trigger's mark at the occurrence, unless it is already later. */
  function Marked(db: Db, c: Call): Db
    requires c.trigger in db.triggers
  {
    var was := db.triggers[c.trigger].lastFired;
    var mark := if was.Some? && was.value > c.occurrence then was.value else c.occurrence;
    db.(triggers := db.triggers[c.trigger := db.triggers[c.trigger].(lastFired := Some(mark))])
  }

  lemma SameMark(db: Db, c: Call)
    requires c.trigger in db.triggers
    ensures Fire(db, c) == Marked(db, c)
  {
    var t := db.triggers[c.trigger];
    if Behind(t, c) {
      assert t == t.(lastFired := Some(t.lastFired.value));
      assert db.triggers == db.triggers[c.trigger := t];
    }
  }

  /** Before the policy is asked: whose fault it is, and nothing changes. */
  lemma StoppedExactlyWhen(db: Db, c: Call)
    ensures var (t, r) := Claim(db, c);
            var known := c.Key() in db.approvals;
            && (!Reached(db, c) ==> t == db)
            && (r == NotFound <==> (known ==> Granted(db.approvals[c.Key()], c)) && c.trigger !in db.triggers)
            && (r == AlreadyClaimed <==>
                  && (known ==> Granted(db.approvals[c.Key()], c)) && c.trigger in db.triggers
                  && !c.materialized && Behind(db.triggers[c.trigger], c))
            && (r == ApprovalTerminal(Mismatch) <==> known && !Matches(db.approvals[c.Key()], c))
            && (known && Matches(db.approvals[c.Key()], c) ==>
                  var status := db.approvals[c.Key()].status;
                  && (status in {Pending, Approved, Delivering} ==> r == ApprovalPending)
                  && (status in {Denied, Expired, Cancelled, DeliveryFailed} ==>
                        r == ApprovalTerminal(OfStatus(status))))
  {
  }

  /** Once it is: what each ruling leads to, and what is then marked. */
  lemma RuledExactlyWhen(db: Db, c: Call)
    requires Reached(db, c)
    ensures var (t, r) := Claim(db, c);
            if !Kept(db, c) then t == db && r == Failed
            else if Asks(db, c) then
              && t.triggers == Marked(db, c).triggers && t.approvals.Keys == db.approvals.Keys + {c.Key()}
              && (forall k | k in db.approvals :: t.approvals[k] == db.approvals[k])
              && (match c.race
                  case NoRace =>
                    && r == ApprovalPending
                    && t.approvals[c.Key()] ==
                       Approval("scheduler_trigger", "scheduler_trigger",
                                Some(Payload(c.dispatch, c.trigger, c.occurrence, c.agent,
                                             Some(db.triggers[c.trigger].message))),
                                Pending, c.ruling.policyRefs, c.ruling.requiredEdges)
                  case Same(a) =>
                    && t.approvals[c.Key()] == a
                    && r == if a.status in {Pending, Approved, Delivering, Delivered} then ApprovalPending
                            else ApprovalTerminal(OfStatus(a.status))
                  case Different(a) => t.approvals[c.Key()] == a && r == Failed)
            else if Stale(db, c) then
              && t == Marked(db, c)
              && r == ApprovalTerminal(
                   if c.ruling.decision == ApprovalRequired
                      && db.approvals[c.Key()].payload.value.message != Some(db.triggers[c.trigger].message)
                   then MessageChanged else PolicyChanged)
            else t == Marked(db, c) && r == if c.enforcing && c.ruling.decision == Deny then Refused else Claimed
  {
    SameMark(db, c);
  }

  /** Under an approval, what runs is just what was approved, in every respect. */
  lemma ClaimedAsApproved(db: Db, c: Call)
    requires Claim(db, c).1 == Claimed && c.Key() in db.approvals
    ensures var a := db.approvals[c.Key()];
            && a.operation == "scheduler_trigger" && a.payloadKind == "scheduler_trigger" && a.status == Delivered
            && a.payload.Some? && a.payload.value.dispatch == c.dispatch && a.payload.value.trigger == c.trigger
            && a.payload.value.occurrence == c.occurrence && a.payload.value.agent == c.agent
            && (c.enforcing ==>
                  && c.trigger in db.triggers && a.payload.value.message == Some(db.triggers[c.trigger].message)
                  && a.policyRefs == c.ruling.policyRefs && a.requiredEdges == c.ruling.requiredEdges)
  {
  }

  /** A claim marks its occurrence and changes nothing else. */
  lemma ClaimMarksTheOccurrence(db: Db, c: Call)
    requires Claim(db, c).1 == Claimed || Claim(db, c).1 == Refused
    ensures c.trigger in db.triggers && Claim(db, c).0 == Marked(db, c)
  {
    SameMark(db, c);
  }

  /** The approval has been delivered to the scheduler. */
  function WithDelivery(db: Db, key: Attempt): Db
    requires key in db.approvals
  {
    db.(approvals := db.approvals[key := db.approvals[key].(status := Delivered)])
  }

  /**
   There and back: an occurrence held for approval stays pending, and once the operator's approval has
   been delivered, the very same call, now materialized, is claimed.
   */
  lemma ApprovedOccurrenceRuns(db: Db, c: Call)
    requires Reached(db, c) && c.Key() !in db.approvals && c.enforcing
    requires c.ruling.decision == ApprovalRequired && c.race.NoRace?
    ensures var t := Claim(db, c).0;
            var again := c.(materialized := true, fails := false);
            && Claim(db, c).1 == ApprovalPending && Claim(t, again).1 == ApprovalPending
            && c.Key() in t.approvals && Claim(WithDelivery(t, c.Key()), again).1 == Claimed
  {
    SameMark(db, c);
    var again := c.(materialized := true, fails := false);
    assert again.Key() == c.Key();
  }

  // Whole histories

  /**
   What else happens to the tables: triggers come, under ids never used before, and go, or have
   their message edited; approvals are decided, expire and are delivered.
   */
  datatype Event =
    | Claiming(call: Call)
    | Insert(id: string, message: string)
    | Edit(id: string, message: string)
    | Remove(id: string)
    | Decide(approvals: map<Attempt, Approval>)

  /** `used` remembers every trigger id there has been. */
  datatype World = World(db: Db, used: set<string>)

  function Next(w: World, e: Event): World {
    match e
    case Claiming(c) => w.(db := Claim(w.db, c).0)
    case Insert(id, message) =>
      if id in w.used then w
      else World(w.db.(triggers := w.db.triggers[id := Trigger(None, message)]), w.used + {id})
    case Edit(id, message) =>
      if id !in w.db.triggers then w
      else w.(db := w.db.(triggers := w.db.triggers[id := w.db.triggers[id].(message := message)]))
    case Remove(id) => w.(db := w.db.(triggers := w.db.triggers - {id}))
    case Decide(approvals) => w.(db := w.db.(approvals := approvals))
  }

  function Run(w: World, es: seq<Event>): World {
    if es == [] then w else Next(Run(w, es[..|es| - 1]), es[|es| - 1])
  }

  ghost predicate Inv(w: World) {
    forall id | id in w.db.triggers :: id in w.used
  }

  /** The occurrence has been fired, or the trigger is gone for good. */
  ghost predicate Passed(w: World, trigger: string, occurrence: int) {
    && trigger in w.used
    && (trigger in w.db.triggers ==>
          w.db.triggers[trigger].lastFired.Some? && w.db.triggers[trigger].lastFired.value >= occurrence)
  }

  lemma StepKeeps(w: World, e: Event)
    requires Inv(w)
    ensures Inv(Next(w, e))
    ensures forall t, n :: Passed(w, t, n) ==> Passed(Next(w, e), t, n)
  {
  }

  lemma {:induction false} RunKeepsInv(w: World, es: seq<Event>)
    requires Inv(w)
    ensures Inv(Run(w, es))
  {
    if es != [] {
      RunKeepsInv(w, es[..|es| - 1]);
      StepKeeps(Run(w, es[..|es| - 1]), es[|es| - 1]);
    }
  }

  /** The mark never moves back: whatever it has passed stays passed. */
  lemma {:induction false} LastFiredNeverMovesBack(w: World, es: seq<Event>, i: nat, trigger: string, occurrence: int)
    requires Inv(w) && i <= |es| && Passed(Run(w, es[..i]), trigger, occurrence)
    ensures Passed(Run(w, es), trigger, occurrence)
    decreases |es|
  {
    if i < |es| {
      var front := es[..|es| - 1];
      assert front[..i] == es[..i];
      LastFiredNeverMovesBack(w, front, i, trigger, occurrence);
      RunKeepsInv(w, front);
      StepKeeps(Run(w, front), es[|es| - 1]);
    } else {
      assert es[..i] == es;
    }
  }

  function ResultAt(w: World, es: seq<Event>, i: nat): Result
    requires i < |es| && es[i].Claiming?
  {
    Claim(Run(w, es[..i]).db, es[i].call).1
  }

  /** The call got as far as the policy, and its transaction was kept. */
  predicate GotThrough(w: World, es: seq<Event>, i: nat)
    requires i < |es| && es[i].Claiming?
  {
    Reached(Run(w, es[..i]).db, es[i].call) && Kept(Run(w, es[..i]).db, es[i].call)
  }

  lemma ThroughIsPassed(w: World, es: seq<Event>, i: nat)
    requires Inv(w) && i < |es| && es[i].Claiming? && GotThrough(w, es, i)
    ensures Passed(Run(w, es[..i + 1]), es[i].call.trigger, es[i].call.occurrence)
  {
    RunKeepsInv(w, es[..i]);
    assert es[..i + 1][..i] == es[..i];
    FiredAfterClaim(Run(w, es[..i]), es[i].call);
  }

  lemma FiredAfterClaim(w: World, c: Call)
    requires Inv(w) && Reached(w.db, c) && Kept(w.db, c)
    ensures Passed(Next(w, Claiming(c)), c.trigger, c.occurrence)
  {
    RuledExactlyWhen(w.db, c);
  }

  /**
   Once a call got through to the policy with an occurrence, whether it was claimed, denied or
   held, no later call that is not materialized claims that occurrence or an earlier one.
   */
  lemma ClaimsStrictlyIncrease(w: World, es: seq<Event>, i: nat, j: nat)
    requires Inv(w) && i < j < |es| && es[i].Claiming? && es[j].Claiming?
    requires es[i].call.trigger == es[j].call.trigger && !es[j].call.materialized
    requires GotThrough(w, es, i) && ResultAt(w, es, j) == Claimed
    ensures es[i].call.occurrence < es[j].call.occurrence
  {
    ThroughIsPassed(w, es, i);
    assert es[..j][..i + 1] == es[..i + 1];
    LastFiredNeverMovesBack(w, es[..j], i + 1, es[i].call.trigger, es[i].call.occurrence);
    ClaimedExactlyWhen(Run(w, es[..j]).db, es[j].call);
  }

  /** The mark is one that the trigger had at the start, or an occurrence that some call got through with. */
  ghost predicate Accounted(w: World, es: seq<Event>, trigger: string, mark: int) {
    || (trigger in w.db.triggers && w.db.triggers[trigger].lastFired == Some(mark))
    || exists i | 0 <= i < |es| ::
         es[i].Claiming? && es[i].call.trigger == trigger && es[i].call.occurrence == mark && GotThrough(w, es, i)
  }

  lemma GotThroughInFront(w: World, es: seq<Event>, i: nat)
    requires i < |es| - 1 && es[i].Claiming? && GotThrough(w, es[..|es| - 1], i)
    ensures GotThrough(w, es, i)
  {
    assert es[..|es| - 1][..i] == es[..i];
  }

  lemma AccountedInFront(w: World, es: seq<Event>, trigger: string, mark: int)
    requires es != [] && Accounted(w, es[..|es| - 1], trigger, mark)
    ensures Accounted(w, es, trigger, mark)
  {
    var front := es[..|es| - 1];
    if !(trigger in w.db.triggers && w.db.triggers[trigger].lastFired == Some(mark)) {
      var i :| 0 <= i < |front| && front[i].Claiming? && front[i].call.trigger == trigger
               && front[i].call.occurrence == mark && GotThrough(w, front, i);
      GotThroughInFront(w, es, i);
      assert es[i] == front[i];
    }
  }

  /** One event leaves a mark where it is, or moves it to the occurrence of a call that got through. */
  lemma MarkAfter(w: World, e: Event, trigger: string)
    requires trigger in Next(w, e).db.triggers && Next(w, e).db.triggers[trigger].lastFired.Some?
    ensures var mark := Next(w, e).db.triggers[trigger].lastFired;
            || (trigger in w.db.triggers && w.db.triggers[trigger].lastFired == mark)
            || (&& e.Claiming? && e.call.trigger == trigger && mark == Some(e.call.occurrence)
                && Reached(w.db, e.call) && Kept(w.db, e.call))
  {
    if e.Claiming? {
      var c := e.call;
      StoppedExactlyWhen(w.db, c);
      if Reached(w.db, c) { RuledExactlyWhen(w.db, c); }
    }
  }

  lemma {:induction false} EveryMarkIsAccounted(w: World, es: seq<Event>, trigger: string)
    requires trigger in Run(w, es).db.triggers && Run(w, es).db.triggers[trigger].lastFired.Some?
    ensures Accounted(w, es, trigger, Run(w, es).db.triggers[trigger].lastFired.value)
  {
    if es != [] {
      var front, e := es[..|es| - 1], es[|es| - 1];
      var was := Run(w, front);
      var mark := Run(w, es).db.triggers[trigger].lastFired;
      MarkAfter(was, e, trigger);
      if trigger in was.db.triggers && was.db.triggers[trigger].lastFired == mark {
        EveryMarkIsAccounted(w, front, trigger);
        AccountedInFront(w, es, trigger, mark.value);
      } else {
        assert GotThrough(w, es, |es| - 1);
      }
    }
  }

  /**
   The converse: an occurrence later than the mark at the start and than every one that got through
   is not behind. No occurrence is lost to another.
   */
  lemma LaterIsNotBehind(w: World, es: seq<Event>, c: Call)
    requires c.trigger in Run(w, es).db.triggers
    requires c.trigger in w.db.triggers ==> !Behind(w.db.triggers[c.trigger], c)
    requires forall i | 0 <= i < |es| && es[i].Claiming? && es[i].call.trigger == c.trigger && GotThrough(w, es, i) ::
               es[i].call.occurrence < c.occurrence
    ensures !Behind(Run(w, es).db.triggers[c.trigger], c)
  {
    if Run(w, es).db.triggers[c.trigger].lastFired.Some? { EveryMarkIsAccounted(w, es, c.trigger); }
  }

  /** So an occurrence held for approval is only ever run by a materialized call. */
  lemma HeldNeedsMaterialized(w: World, es: seq<Event>, i: nat, j: nat)
    requires Inv(w) && i < j < |es| && es[i].Claiming? && es[j].Claiming?
    requires es[i].call.Key() == es[j].call.Key()
    requires GotThrough(w, es, i) && ResultAt(w, es, i) == ApprovalPending && ResultAt(w, es, j) == Claimed
    ensures es[j].call.materialized
  {
    if !es[j].call.materialized { ClaimsStrictlyIncrease(w, es, i, j); }
  }

  /** A materialized call may claim one occurrence as often as it is made. */
  lemma MaterializedMayRepeat(w: World, c: Call)
    requires c.materialized && Claim(w.db, c).1 == Claimed
    ensures Claim(Next(w, Claiming(c)).db, c).1 == Claimed
  {
    ClaimedExactlyWhen(w.db, c);
    ClaimedExactlyWhen(Next(w, Claiming(c)).db, c);
  }
}
