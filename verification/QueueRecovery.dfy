/**
 What a restore does to the tables of the restored database: whatever the backup left in flight is
 marked as uncertain, paused or closed, since nobody can tell what happened to it later.
 */
module QueueRecovery {
  import opened Wrappers

  type Id = string

  datatype ItemStatus = Pending | Claimed | Running | Held | Completed | Failed | Cancelled | Uncertain | Superseded

  datatype Item = Item(
    agent: string, status: ItemStatus, revision: int, diagnostic: Option<string>,
    updatedAt: int, finishedAt: Option<int>, text: string)

  datatype Control = Control(paused: bool, revision: int, reason: Option<string>, nextPosition: int)

  datatype Settings = Settings(
    revision: int, enabled: bool, restorePaused: bool, historyUncertain: bool, kinds: seq<string>, updatedAt: int)

  datatype ReceiptState = Deferred | Sending | Delivered | SendFailed | Unsure | Suppressed

  datatype Receipt = Receipt(state: ReceiptState, diagnostic: Option<string>, updatedAt: int, source: string)

  datatype QuestionStatus = Asked | Answered | Skipped | Expired | Closed

  datatype Continuation = Waiting | Unconfirmed | Consumed | Interrupted

  datatype Question = Question(
    status: QuestionStatus, noAnswerReason: Option<string>, settledAt: Option<int>, continuation: Continuation,
    revision: int, deliveryApproval: Option<Id>, answerApproval: Option<Id>)

  datatype ApprovalStatus = Waits | Decided(status: string)

  datatype Approval = Approval(
    payloadKind: string, status: ApprovalStatus, decidedAt: Option<int>, decidedBy: Option<string>,
    reason: Option<string>, updatedAt: int)

  datatype Event = Event(approval: Id, event: string, actor: string, detail: string, createdAt: int)

  datatype Db = Db(
    items: map<Id, Item>, controls: map<string, Control>, settings: Option<Settings>, receipts: map<Id, Receipt>,
    questions: map<Id, Question>, approvals: map<Id, Approval>, events: seq<Event>)

  const RESTORED := "restored_backup"
  const NO_CONTINUATION := "Restored question has no live continuation"
  const MAY_HAVE_ACTED := "Restored backup: this input may already have acted; reconcile before resuming"
  const NOTIFICATION_KINDS :=
    ["communication_approval", "lesson_proposal", "review_failure", "trigger_failure", "agent_loop_break"]

  predicate Unresolved(s: ItemStatus) {
    s == Pending || s == Claimed || s == Running || s == Held || s == Uncertain
  }

  function Later(updatedAt: int, now: int): int {
    if updatedAt + 1 > now then updatedAt + 1 else now
  }

  // The updates, table by table

  function Affected(items: map<Id, Item>): set<string> {
    set id | id in items && Unresolved(items[id].status) :: items[id].agent
  }

  function ControlOf(controls: map<string, Control>, agent: string): Control {
    if agent in controls then controls[agent] else Control(false, 0, None, 1)
  }

  function PauseControl(c: Control): Control {
    c.(paused := true, revision := c.revision + 1, reason := Some(RESTORED))
  }

  function Controls(controls: map<string, Control>, affected: set<string>): map<string, Control> {
    map a | a in controls.Keys + affected ::
      if a in affected then PauseControl(ControlOf(controls, a)) else controls[a]
  }

  function PauseNotifications(s: Option<Settings>, now: int): Settings {
    if s.None? then Settings(0, false, true, true, NOTIFICATION_KINDS, now)
    else s.value.(enabled := false, restorePaused := true, historyUncertain := true,
                  revision := s.value.revision + 1, updatedAt := Later(s.value.updatedAt, now))
  }

  function RecoverReceipt(r: Receipt, now: int): Receipt {
    match r.state
    case Sending => r.(state := Unsure, diagnostic := Some(RESTORED), updatedAt := Later(r.updatedAt, now))
    case Deferred => r.(state := Suppressed, diagnostic := Some("restore_paused"), updatedAt := Later(r.updatedAt, now))
    case _ => r
  }

  function CloseQuestion(q: Question, now: int): Question {
    if q.status == Asked then
      q.(status := Closed, noAnswerReason := Some(RESTORED), settledAt := Some(now), continuation := Interrupted,
         revision := q.revision + 1)
    else q
  }

  function Interrupt(q: Question): Question {
    if q.continuation == Unconfirmed then q.(continuation := Interrupted, revision := q.revision + 1) else q
  }

  predicate Owns(q: Question, approval: Id) {
    q.deliveryApproval == Some(approval) || q.answerApproval == Some(approval)
  }

  predicate ForQuestion(a: Approval) {
    a.status == Waits && (a.payloadKind == "question_delivery" || a.payloadKind == "question_answer")
  }

  /** The pending approvals that belong to questions no longer asked. */
  function Orphans(questions: map<Id, Question>, approvals: map<Id, Approval>): set<Id> {
    set id | id in approvals && ForQuestion(approvals[id])
             && exists q :: q in questions && questions[q].status != Asked && Owns(questions[q], id)
  }

  function CancelApproval(a: Approval, now: int): Approval {
    if a.status == Waits then
      a.(status := Decided("cancelled"), decidedAt := Some(now), decidedBy := Some("system"),
         reason := Some(NO_CONTINUATION), updatedAt := now)
    else a
  }

  function CancelledEvent(approval: Id, now: int): Event {
    Event(approval, "cancelled", "system", NO_CONTINUATION, now)
  }

  function RecoverItem(i: Item, now: int): Item {
    if Unresolved(i.status) then
      i.(status := Uncertain, revision := i.revision + 1, diagnostic := Some(MAY_HAVE_ACTED),
         updatedAt := now, finishedAt := Some(now))
    else i
  }

  function CancelAll(db: Db, order: seq<Id>, now: int): Db {
    if order == [] then db
    else
      var t := CancelAll(db, order[..|order| - 1], now);
      var id := order[|order| - 1];
      t.(approvals :=
           if id in t.approvals then t.approvals[id := CancelApproval(t.approvals[id], now)] else t.approvals,
         events := t.events + [CancelledEvent(id, now)])
  }

  function BeforeApprovals(db: Db, now: int): Db {
    db.(controls := Controls(db.controls, Affected(db.items)),
        settings := Some(PauseNotifications(db.settings, now)),
        receipts := map id | id in db.receipts :: RecoverReceipt(db.receipts[id], now),
        questions := map id | id in db.questions :: Interrupt(CloseQuestion(db.questions[id], now)))
  }

  function OrphansOf(db: Db, now: int): set<Id> {
    Orphans(BeforeApprovals(db, now).questions, db.approvals)
  }

  function RecoverItems(db: Db, now: int): Db {
    db.(items := map id | id in db.items :: RecoverItem(db.items[id], now))
  }

  /** `order` is the order in which the orphans were found. */
  function Recover(db: Db, now: int, order: seq<Id>): Db {
    RecoverItems(CancelAll(BeforeApprovals(db, now), order, now), now)
  }

  ghost predicate Enumerates(order: seq<Id>, ids: set<Id>) {
    (forall id :: id in order <==> id in ids) && forall i, j | 0 <= i < j < |order| :: order[i] != order[j]
  }

  class RestoredDb {
    var items: map<Id, Item>
    var controls: map<string, Control>
    var settings: Option<Settings>
    var receipts: map<Id, Receipt>
    var questions: map<Id, Question>
    var approvals: map<Id, Approval>
    var events: seq<Event>

    ghost function Model(): Db
      reads this
    {
      Db(items, controls, settings, receipts, questions, approvals, events)
    }

    /** One transaction, statement by statement. `order` is the result of the one query it makes. */
    method PauseRestoredUserQueue(now: int) returns (order: seq<Id>)
      modifies this
      ensures Enumerates(order, OrphansOf(old(Model()), now))
      ensures Model() == Recover(old(Model()), now, order)
    {
      ghost var was := Model();
      PauseControls();
      settings := Some(PauseNotifications(settings, now));
      MarkReceipts(now);
      CloseQuestions(now);
      assert Model() == BeforeApprovals(was, now);
      var orphans := Orphans(questions, approvals);
      order := CancelOrphans(orphans, now);
      items := map id | id in items :: RecoverItem(items[id], now);
    }

    /** Rows are added for the agents that lack one, and then all of them are paused. */
    method PauseControls()
      modifies this`controls
      ensures controls == Controls(old(controls), Affected(items))
    {
      var affected := Affected(items);
      controls := map a | a in controls.Keys + affected :: ControlOf(controls, a);
      controls := map a | a in controls :: if a in affected then PauseControl(controls[a]) else controls[a];
    }

    method MarkReceipts(now: int)
      modifies this`receipts
      ensures receipts == map id | id in old(receipts) :: RecoverReceipt(old(receipts)[id], now)
    {
      receipts := map id | id in receipts ::
        if receipts[id].state == Sending then
          receipts[id].(state := Unsure, diagnostic := Some(RESTORED), updatedAt := Later(receipts[id].updatedAt, now))
        else receipts[id];
      receipts := map id | id in receipts ::
        if receipts[id].state == Deferred then
          receipts[id].(state := Suppressed, diagnostic := Some("restore_paused"),
                        updatedAt := Later(receipts[id].updatedAt, now))
        else receipts[id];
    }

    method CloseQuestions(now: int)
      modifies this`questions
      ensures questions == map id | id in old(questions) :: Interrupt(CloseQuestion(old(questions)[id], now))
    {
      questions := map id | id in questions :: CloseQuestion(questions[id], now);
      questions := map id | id in questions :: Interrupt(questions[id]);
    }

    method CancelOrphans(orphans: set<Id>, now: int) returns (order: seq<Id>)
      requires forall id | id in orphans :: id in approvals
      modifies this`approvals, this`events
      ensures Enumerates(order, orphans)
      ensures Model() == CancelAll(old(Model()), order, now)
    {
      ghost var was := Model();
      order := [];
      var rest := orphans;
      while rest != {}
        invariant rest <= orphans && Enumerates(order, orphans - rest)
        invariant Model() == CancelAll(was, order, now) && approvals.Keys == was.approvals.Keys
        decreases rest
      {
        var id :| id in rest;
        if approvals[id].status == Waits {
          approvals := approvals[id := CancelApproval(approvals[id], now)];
        }
        events := events + [CancelledEvent(id, now)];
        assert (order + [id])[..|order|] == order;
        order := order + [id];
        rest := rest - {id};
      }
    }
  }

  // What holds afterwards

  lemma {:induction false} CancelAllIs(db: Db, order: seq<Id>, now: int)
    requires forall id | id in order :: id in db.approvals
    ensures var t := CancelAll(db, order, now);
            && t == db.(approvals := t.approvals, events := t.events)
            && t.approvals.Keys == db.approvals.Keys
            && (forall id | id in db.approvals ::
                  t.approvals[id] == if id in order then CancelApproval(db.approvals[id], now) else db.approvals[id])
            && |t.events| == |db.events| + |order| && t.events[..|db.events|] == db.events
            && (forall k | 0 <= k < |order| :: t.events[|db.events| + k] == CancelledEvent(order[k], now))
  {
    if order != [] {
      var front := order[..|order| - 1];
      CancelAllIs(db, front, now);
      assert order == front + [order[|order| - 1]];
    }
  }

  lemma {:induction false} CancelAllKeeps(db: Db, order: seq<Id>, now: int)
    ensures var t := CancelAll(db, order, now); t == db.(approvals := t.approvals, events := t.events)
  {
    if order != [] { CancelAllKeeps(db, order[..|order| - 1], now); }
  }

  lemma RecoverTables(db: Db, now: int, order: seq<Id>)
    ensures var t, u := Recover(db, now, order), BeforeApprovals(db, now);
            && t.questions == u.questions && t.receipts == u.receipts
            && t.controls == u.controls && t.settings == u.settings && t.items == RecoverItems(db, now).items
  {
    CancelAllKeeps(BeforeApprovals(db, now), order, now);
  }

  lemma RecoverApprovals(db: Db, now: int, order: seq<Id>)
    requires Enumerates(order, OrphansOf(db, now))
    ensures var t := Recover(db, now, order);
            && t.approvals.Keys == db.approvals.Keys
            && (forall id | id in db.approvals ::
                  t.approvals[id] ==
                    if id in OrphansOf(db, now) then CancelApproval(db.approvals[id], now) else db.approvals[id])
            && |t.events| == |db.events| + |order| && t.events[..|db.events|] == db.events
            && (forall k | 0 <= k < |order| :: t.events[|db.events| + k] == CancelledEvent(order[k], now))
  {
    CancelAllIs(BeforeApprovals(db, now), order, now);
  }

  /**
   Every item that was in flight is uncertain, under an agent that is paused; every other item,
   and the control of every other agent, is as it was.
   */
  lemma ItemsSettled(db: Db, now: int, order: seq<Id>)
    ensures var t := Recover(db, now, order);
            && t.items.Keys == db.items.Keys
            && (forall id | id in t.items :: t.items[id].status !in {Pending, Claimed, Running, Held})
            && (forall id | id in db.items && Unresolved(db.items[id].status) ::
                  var i := db.items[id];
                  && t.items[id]
                     == Item(i.agent, Uncertain, i.revision + 1, Some(MAY_HAVE_ACTED), now, Some(now), i.text)
                  && i.agent in t.controls && t.controls[i.agent].paused
                  && t.controls[i.agent].reason == Some(RESTORED))
            && (forall id | id in db.items && !Unresolved(db.items[id].status) :: t.items[id] == db.items[id])
            && (forall a | a in db.controls && a !in Affected(db.items) ::
                  a in t.controls && t.controls[a] == db.controls[a])
  {
    RecoverTables(db, now, order);
  }

  /** Controls exist for the agents that had one and for those with items in flight, which alone are touched. */
  lemma ControlsSettled(db: Db, now: int, order: seq<Id>, a: string)
    ensures var t := Recover(db, now, order);
            var busy := exists id :: id in db.items && Unresolved(db.items[id].status) && db.items[id].agent == a;
            && (a in t.controls <==> a in db.controls || busy)
            && (a in t.controls ==>
                  t.controls[a] ==
                    if !busy then db.controls[a]
                    else if a in db.controls then
                      Control(true, db.controls[a].revision + 1, Some(RESTORED), db.controls[a].nextPosition)
                    else Control(true, 1, Some(RESTORED), 1))
  {
    RecoverTables(db, now, order);
  }

  /** No question is pending or unconfirmed; what was settled keeps its outcome. */
  lemma QuestionsSettled(db: Db, now: int, order: seq<Id>)
    ensures var t := Recover(db, now, order);
            && t.questions.Keys == db.questions.Keys
            && (forall id | id in t.questions ::
                  t.questions[id].status != Asked && t.questions[id].continuation != Unconfirmed)
            && (forall id | id in db.questions && db.questions[id].status == Asked ::
                  t.questions[id] ==
                    db.questions[id].(
                      status := Closed, noAnswerReason := Some(RESTORED), settledAt := Some(now),
                      continuation := Interrupted, revision := db.questions[id].revision + 1))
            && (forall id | id in db.questions && db.questions[id].status != Asked ::
                  t.questions[id] ==
                    if db.questions[id].continuation == Unconfirmed then
                      db.questions[id].(continuation := Interrupted, revision := db.questions[id].revision + 1)
                    else db.questions[id])
  {
    RecoverTables(db, now, order);
  }

  /** Whatever belongs to some question, since none is left pending. */
  lemma OrphansAre(db: Db, now: int)
    ensures forall id :: id in OrphansOf(db, now) <==>
              id in db.approvals && ForQuestion(db.approvals[id])
              && exists q :: q in db.questions && Owns(db.questions[q], id)
  {
    var questions := BeforeApprovals(db, now).questions;
    forall id
      ensures id in OrphansOf(db, now) <==>
                id in db.approvals && ForQuestion(db.approvals[id])
                && exists q :: q in db.questions && Owns(db.questions[q], id)
    {
      if q :| q in db.questions && Owns(db.questions[q], id) {
        assert questions[q].status != Asked && Owns(questions[q], id);
      }
      if q :| q in questions && Owns(questions[q], id) {
        assert Owns(db.questions[q], id);
      }
    }
  }

  function CancelledEvents(events: seq<Event>, id: Id): nat {
    if events == [] then 0
    else CancelledEvents(events[..|events| - 1], id)
         + if events[|events| - 1].approval == id && events[|events| - 1].event == "cancelled" then 1 else 0
  }

  lemma {:induction false} CountEvents(before: seq<Event>, after: seq<Event>, order: seq<Id>, now: int, id: Id)
    requires forall i, j | 0 <= i < j < |order| :: order[i] != order[j]
    requires |after| == |before| + |order| && after[..|before|] == before
    requires forall k | 0 <= k < |order| :: after[|before| + k] == CancelledEvent(order[k], now)
    ensures CancelledEvents(after, id) == CancelledEvents(before, id) + if id in order then 1 else 0
    decreases |order|
  {
    if order == [] {
      assert after == before;
    } else {
      var front, last := order[..|order| - 1], order[|order| - 1];
      var mid := after[..|after| - 1];
      assert mid[..|before|] == before;
      CountEvents(before, mid, front, now, id);
      assert after[|before| + |order| - 1] == CancelledEvent(last, now);
      assert order == front + [last] && last !in front;
    }
  }

  /** Some question refers to the approval. */
  ghost predicate Referred(db: Db, id: Id) {
    exists q ::
      q in db.questions && (db.questions[q].deliveryApproval == Some(id) || db.questions[q].answerApproval == Some(id))
  }

  ghost predicate Orphaned(db: Db, id: Id)
    requires id in db.approvals
  {
    && db.approvals[id].status == Waits && Referred(db, id)
    && db.approvals[id].payloadKind in {"question_delivery", "question_answer"}
  }

  lemma OrphanedAre(db: Db, now: int, id: Id)
    requires id in db.approvals
    ensures id in OrphansOf(db, now) <==> Orphaned(db, id)
  {
    OrphansAre(db, now);
    if q :| q in db.questions && Owns(db.questions[q], id) { assert Referred(db, id); }
    if q :| q in db.questions && (db.questions[q].deliveryApproval == Some(id)
                                  || db.questions[q].answerApproval == Some(id)) {
      assert Owns(db.questions[q], id);
    }
  }

  /**
   A pending approval that belongs to a question is cancelled, with exactly one event of its own;
   every other approval keeps its row and gets no event.
   */
  lemma ApprovalsSettled(db: Db, now: int, order: seq<Id>, id: Id)
    requires Enumerates(order, OrphansOf(db, now)) && id in db.approvals
    ensures var t := Recover(db, now, order);
            && id in t.approvals
            && (t.approvals[id] ==
                  if Orphaned(db, id) then
                    Approval(db.approvals[id].payloadKind, Decided("cancelled"), Some(now), Some("system"),
                             Some(NO_CONTINUATION), now)
                  else db.approvals[id])
            && CancelledEvents(t.events, id) == CancelledEvents(db.events, id) + (if Orphaned(db, id) then 1 else 0)
  {
    RecoverApprovals(db, now, order);
    OrphanedAre(db, now, id);
    CountEvents(db.events, Recover(db, now, order).events, order, now, id);
  }

  /** Events are only added, and what is added are cancellations by the system. */
  lemma EventsAdded(db: Db, now: int, order: seq<Id>, k: nat)
    requires Enumerates(order, OrphansOf(db, now)) && k < |Recover(db, now, order).events|
    ensures var t := Recover(db, now, order);
            && |db.events| <= |t.events| && t.events[..|db.events|] == db.events
            && (k >= |db.events| ==>
                  t.events[k] == Event(t.events[k].approval, "cancelled", "system", NO_CONTINUATION, now))
  {
    RecoverApprovals(db, now, order);
    if k >= |db.events| {
      var i := k - |db.events|;
      assert Recover(db, now, order).events[|db.events| + i] == CancelledEvent(order[i], now);
    }
  }

  /** A receipt as it was left: what was being sent is uncertain, what was put off is suppressed. */
  predicate ReceiptSettled(before: Receipt, after: Receipt, now: int) {
    && after.source == before.source
    && match before.state
       case Sending => && after.state == Unsure && after.diagnostic == Some("restored_backup")
                       && after.updatedAt > before.updatedAt && after.updatedAt >= now
                       && (after.updatedAt == now || after.updatedAt == before.updatedAt + 1)
       case Deferred => && after.state == Suppressed && after.diagnostic == Some("restore_paused")
                        && after.updatedAt > before.updatedAt && after.updatedAt >= now
                        && (after.updatedAt == now || after.updatedAt == before.updatedAt + 1)
       case _ => after == before
  }

  lemma NotificationsSettled(db: Db, now: int, order: seq<Id>)
    ensures var t := Recover(db, now, order);
            && t.settings.Some? && !t.settings.value.enabled && t.settings.value.restorePaused
            && t.settings.value.historyUncertain
            && (match db.settings
                case None => && t.settings.value.kinds == NOTIFICATION_KINDS && t.settings.value.revision == 0
                             && t.settings.value.updatedAt == now
                case Some(was) => && t.settings.value.kinds == was.kinds
                                  && t.settings.value.revision == was.revision + 1
                                  && t.settings.value.updatedAt > was.updatedAt && t.settings.value.updatedAt >= now)
            && t.receipts.Keys == db.receipts.Keys
            && (forall id | id in db.receipts :: ReceiptSettled(db.receipts[id], t.receipts[id], now))
  {
    RecoverTables(db, now, order);
  }

  // Running it again

  function EraseItem(i: Item): Item {
    i.(revision := 0, updatedAt := 0, finishedAt := None)
  }

  function EraseControl(c: Control): Control {
    c.(revision := 0)
  }

  function EraseSettings(s: Settings): Settings {
    s.(revision := 0, updatedAt := 0)
  }

  /** A database without the revisions and timestamps that a second run may move. */
  function Erase(db: Db): Db {
    db.(items := EraseItems(db.items), controls := EraseControls(db.controls),
        settings := if db.settings.None? then None else Some(EraseSettings(db.settings.value)))
  }

  lemma NothingLeftOver(db: Db, now: int, order: seq<Id>, again: int)
    requires Enumerates(order, OrphansOf(db, now))
    ensures OrphansOf(Recover(db, now, order), again) == {}
  {
    var t := Recover(db, now, order);
    OrphansAre(t, again);
    forall id ensures id !in OrphansOf(t, again) {
      if id in t.approvals {
        RecoverApprovals(db, now, order);
        RecoverTables(db, now, order);
        if q :| q in t.questions && Owns(t.questions[q], id) {
          assert Owns(db.questions[q], id);
          ApprovalsSettled(db, now, order, id);
        }
      }
    }
  }

  lemma SameAffected(items: map<Id, Item>, now: int)
    ensures Affected(map id | id in items :: RecoverItem(items[id], now)) == Affected(items)
  {
    var after := map id | id in items :: RecoverItem(items[id], now);
    forall id | id in items
      ensures after[id].agent == items[id].agent && (Unresolved(after[id].status) <==> Unresolved(items[id].status))
    {
    }
  }

  function EraseItems(items: map<Id, Item>): map<Id, Item> {
    map id | id in items :: EraseItem(items[id])
  }

  function EraseControls(controls: map<string, Control>): map<string, Control> {
    map a | a in controls :: EraseControl(controls[a])
  }

  lemma ControlsTwice(controls: map<string, Control>, affected: set<string>)
    ensures EraseControls(Controls(Controls(controls, affected), affected))
            == EraseControls(Controls(controls, affected))
  {
  }

  lemma ItemsTwice(items: map<Id, Item>, now: int, again: int)
    ensures var once := map id | id in items :: RecoverItem(items[id], now);
            EraseItems(map id | id in once :: RecoverItem(once[id], again)) == EraseItems(once)
  {
  }

  lemma MarksTwice(r: Receipt, q: Question, s: Option<Settings>, now: int, again: int)
    ensures RecoverReceipt(RecoverReceipt(r, now), again) == RecoverReceipt(r, now)
    ensures Interrupt(CloseQuestion(Interrupt(CloseQuestion(q, now)), again)) == Interrupt(CloseQuestion(q, now))
    ensures EraseSettings(PauseNotifications(Some(PauseNotifications(s, now)), again))
            == EraseSettings(PauseNotifications(s, now))
  {
  }

  /** The tables that do not depend on the approvals, run through again. */
  lemma TablesTwice(db: Db, t: Db, u: Db, now: int, again: int)
    requires t.questions == BeforeApprovals(db, now).questions && t.receipts == BeforeApprovals(db, now).receipts
    requires u.questions == BeforeApprovals(t, again).questions && u.receipts == BeforeApprovals(t, again).receipts
    ensures u.questions == t.questions && u.receipts == t.receipts
  {
    forall id | id in db.questions ensures u.questions[id] == t.questions[id] {
      MarksTwice(Receipt(Sending, None, 0, ""), db.questions[id], None, now, again);
    }
    forall id | id in db.receipts ensures u.receipts[id] == t.receipts[id] {
      MarksTwice(db.receipts[id], Question(Asked, None, None, Waiting, 0, None, None), None, now, again);
    }
  }

  lemma AgainApprovals(db: Db, now: int, order: seq<Id>, again: int)
    requires Enumerates(order, OrphansOf(db, now))
    ensures var t, u := Recover(db, now, order), Recover(Recover(db, now, order), again, []);
            u.approvals == t.approvals && u.events == t.events
  {
    NothingLeftOver(db, now, order, again);
  }

  lemma SomeOrder(order: seq<Id>, ids: set<Id>)
    requires Enumerates(order, ids) && order != []
    ensures ids != {}
  {
    assert order[0] in order;
  }

  /** A second run finds no approval to cancel and changes nothing but revisions and timestamps. */
  lemma SecondRunOnlyTouches(db: Db, now: int, order: seq<Id>, again: int, order2: seq<Id>)
    requires Enumerates(order, OrphansOf(db, now))
    requires Enumerates(order2, OrphansOf(Recover(db, now, order), again))
    ensures order2 == []
    ensures Erase(Recover(Recover(db, now, order), again, order2)) == Erase(Recover(db, now, order))
  {
    var t := Recover(db, now, order);
    NothingLeftOver(db, now, order, again);
    if order2 != [] { SomeOrder(order2, OrphansOf(t, again)); }
    var u := Recover(t, again, order2);
    RecoverTables(db, now, order);
    RecoverTables(t, again, order2);
    AgainApprovals(db, now, order, again);
    SameTables(db, t, u, now, again);
  }

  lemma {:induction false} SameTables(db: Db, t: Db, u: Db, now: int, again: int)
    requires t == BeforeApprovals(db, now).(
               items := RecoverItems(db, now).items, approvals := t.approvals, events := t.events)
    requires u == BeforeApprovals(t, again).(
               items := RecoverItems(t, again).items, approvals := t.approvals, events := t.events)
    ensures Erase(u) == Erase(t)
  {
    TablesTwice(db, t, u, now, again);
    SameAffected(db.items, now);
    ControlsTwice(db.controls, Affected(db.items));
    ItemsTwice(db.items, now, again);
    MarksTwice(Receipt(Sending, None, 0, ""), Question(Asked, None, None, Waiting, 0, None, None),
               db.settings, now, again);
  }
}
