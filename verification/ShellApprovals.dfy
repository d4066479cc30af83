/**
 The registry of shell-command approvals of one daemon: requests, timeouts, aborts, responses,
 tombstones, and the exactly-once claim on each (turn, tool call).

 The audit callback may throw, whenever it is called. It is called after a request has ceased to be
 pending and before its tombstone and its promise are reached; what threw an error is never tried again.
 */
module ShellApprovals {
  import opened Wrappers

  type Id = string
  type Signal = nat

  datatype Decision = Allow | Deny
  datatype Reason = ByUser | AutoDeny | TimedOut | WasCancelled
  datatype Result = Result(decision: Decision, reason: Reason)
  datatype Status = Allowed | Denied | AutoDenied | Expired | Cancelled

  datatype Request = Request(id: Id, turnId: string, toolCallId: string, autoDeny: bool, signal: Option<Signal>)

  /** The claim of a request on its tool call. */
  datatype Attempt = Attempt(approvalId: Id, signal: Option<Signal>)

  datatype Response = Accepted | AlreadyApplied | Conflict | NotFound

  /** `statusForDecision` */
  function StatusFor(r: Result): Status {
    if r.reason.AutoDeny? then AutoDenied
    else if r.reason.TimedOut? then Expired
    else if r.reason.WasCancelled? then Cancelled
    else if r.decision.Allow? then Allowed else Denied
  }

  function KeyOf(turnId: string, toolCallId: string): string {
    turnId + "\0" + toolCallId
  }

  /**
   `audits` and `decided` list, for each request, what the audit callback was called with and what
   the promise was resolved with; `begun` are the ids accepted so far, `thrown` those whose audit threw.
   */
  datatype Registry = Registry(
    pending: map<Id, Request>,
    attempts: map<string, Attempt>,
    terminal: map<Id, Result>,
    audits: map<Id, seq<Status>>,
    decided: map<Id, seq<Result>>,
    aborted: set<Signal>,
    begun: set<Id>,
    thrown: set<Id>)
  {
    function Audits(id: Id): seq<Status> {
      if id in audits then audits[id] else []
    }
    function Decided(id: Id): seq<Result> {
      if id in decided then decided[id] else []
    }
    predicate Aborted(signal: Option<Signal>) {
      signal.Some? && signal.value in aborted
    }
  }

  const EMPTY := Registry(map[], map[], map[], map[], map[], {}, {}, {})

  /** `throws` are the ids with which the audit callback throws, should it be called with them. */
  datatype Event =
    | Begin(request: Request, throws: set<Id>)
    | Respond(id: Id, decision: Decision, throws: set<Id>)
    | Timeout(id: Id, throws: set<Id>)
    | ExpireTombstone(id: Id, throws: set<Id>)
    | Abort(signal: Signal, throws: set<Id>)
    | CancelAll(order: seq<Id>, throws: set<Id>)      // in the order in which the requests are kept

  /** One more entry for each of `ids`. */
  function Log<T>(m: map<Id, seq<T>>, ids: set<Id>, entry: T): map<Id, seq<T>> {
    m + map id | id in ids :: (if id in m then m[id] else []) + [entry]
  }

  /** One tombstone for each of `ids`. */
  function Entomb(m: map<Id, Result>, ids: set<Id>, r: Result): map<Id, Result> {
    m + map id | id in ids :: r
  }

  /** The requests `ids` are audited; unless that throws, they get a tombstone and their promise. */
  function Decide(s: Registry, ids: set<Id>, r: Result, throws: set<Id>): Registry {
    s.(terminal := Entomb(s.terminal, ids - throws, r),
       audits := Log(s.audits, ids, StatusFor(r)),
       decided := Log(s.decided, ids - throws, r),
       thrown := s.thrown + ids * throws)
  }

  /** Settling is a no-op for a request that is not pending. */
  function Settle(s: Registry, ids: set<Id>, r: Result, throws: set<Id>): Registry {
    Decide(s, ids * s.pending.Keys, r, throws).(pending := s.pending - ids)
  }

  predicate Refused(s: Registry, q: Request) {
    q.id in s.pending || q.id in s.terminal || KeyOf(q.turnId, q.toolCallId) in s.attempts
  }

  function DoBegin(s: Registry, q: Request, throws: set<Id>): Registry {
    var key := KeyOf(q.turnId, q.toolCallId);
    var claim := s.attempts[key := Attempt(q.id, q.signal)];
    if Refused(s, q) then s
    else if q.autoDeny then
      Decide(s, {q.id}, Result(Deny, AutoDeny), throws)
        .(attempts := if s.Aborted(q.signal) then s.attempts else claim, begun := s.begun + {q.id})
    else if s.Aborted(q.signal) then
      Decide(s, {q.id}, Result(Deny, WasCancelled), throws).(begun := s.begun + {q.id})
    else
      s.(pending := s.pending[q.id := q], attempts := claim, begun := s.begun + {q.id})
  }

  /** The claims a signal's listeners are attached to. */
  function ClaimsOn(s: Registry, signal: Signal): set<string> {
    set k | k in s.attempts && s.attempts[k].signal == Some(signal)
  }

  function IdsOf(s: Registry, keys: set<string>): set<Id> {
    set k | k in keys && k in s.attempts :: s.attempts[k].approvalId
  }

  /** Settling the request of a claim throws. */
  predicate Stuck(s: Registry, key: string, throws: set<Id>)
    requires key in s.attempts
  {
    s.attempts[key].approvalId in s.pending && s.attempts[key].approvalId in throws
  }

  function Freed(s: Registry, keys: set<string>, throws: set<Id>): set<string> {
    set k | k in keys && k in s.attempts && !Stuck(s, k, throws)
  }

  /** Abort listeners, each on its own: settle what is pending, then release the claim. */
  function Release(s: Registry, keys: set<string>, throws: set<Id>): Registry {
    Settle(s, IdsOf(s, keys), Result(Deny, WasCancelled), throws).(attempts := s.attempts - Freed(s, keys, throws))
  }

  /** Those that a loop over `order` comes to before an audit throws, that one included. */
  function Reached(order: seq<Id>, throws: set<Id>): set<Id> {
    if order == [] then {}
    else if order[0] in throws then {order[0]}
    else {order[0]} + Reached(order[1..], throws)
  }

  /** A loop over `order` runs into an audit that throws. */
  predicate Stops(order: seq<Id>, throws: set<Id>) {
    exists id :: id in order && id in throws
  }

  function DoCancelAll(s: Registry, order: seq<Id>, throws: set<Id>): Registry {
    var t := Settle(s, Reached(order, throws), Result(Deny, WasCancelled), throws);
    if Stops(order, throws) then t else t.(terminal := map[], attempts := map[])
  }

  function Next(s: Registry, e: Event): Registry {
    match e
    case Begin(q, throws) => DoBegin(s, q, throws)
    case Respond(id, decision, throws) => Settle(s, {id}, Result(decision, ByUser), throws)
    case Timeout(id, throws) => Settle(s, {id}, Result(Deny, TimedOut), throws)
    case ExpireTombstone(id, _) => s.(terminal := s.terminal - {id})
    case Abort(signal, throws) =>
      var t := s.(aborted := s.aborted + {signal});
      if signal in s.aborted then t else Release(t, ClaimsOn(s, signal), throws)
    case CancelAll(order, throws) => DoCancelAll(s, order, throws)
  }

  /** What `respond` answers. */
  function Answer(s: Registry, id: Id, decision: Decision): Response {
    if id in s.pending then Accepted
    else if id !in s.terminal then NotFound
    else if s.terminal[id] == Result(decision, ByUser) then AlreadyApplied
    else Conflict
  }

  lemma DecideAt(s: Registry, ids: set<Id>, r: Result, throws: set<Id>, id: Id)
    ensures var t := Decide(s, ids, r, throws);
            && t.Audits(id) == s.Audits(id) + (if id in ids then [StatusFor(r)] else [])
            && (id in t.thrown <==> id in s.thrown || (id in ids && id in throws))
            && if id in ids && id !in throws then
                 t.Decided(id) == s.Decided(id) + [r] && id in t.terminal && t.terminal[id] == r
               else
                 && t.Decided(id) == s.Decided(id)
                 && (id in t.terminal <==> id in s.terminal) && (id in s.terminal ==> t.terminal[id] == s.terminal[id])
  {
  }

  lemma SettleAt(s: Registry, ids: set<Id>, r: Result, throws: set<Id>, id: Id)
    ensures var t := Settle(s, ids, r, throws);
            && t.Decided(id) == s.Decided(id) + (if id in ids && id in s.pending && id !in throws then [r] else [])
            && t.Audits(id) == s.Audits(id) + (if id in ids && id in s.pending then [StatusFor(r)] else [])
            && (id in t.thrown <==> id in s.thrown || (id in ids && id in s.pending && id in throws))
  {
    DecideAt(s, ids * s.pending.Keys, r, throws, id);
  }

  // ---------------------------------------------------------------- the invariant

  /** A pending request owns the claim on its tool call. */
  ghost predicate PendingOk(s: Registry, id: Id)
    requires id in s.pending
  {
    var q := s.pending[id];
    var key := KeyOf(q.turnId, q.toolCallId);
    && q.id == id && id in s.begun && id !in s.terminal && id !in s.thrown
    && key in s.attempts && s.attempts[key] == Attempt(id, q.signal)
  }

  /** Audited exactly once if begun and no longer pending, and then decided unless the audit threw. */
  ghost predicate DecidedOk(s: Registry, id: Id) {
    if id !in s.begun || id in s.pending then
      s.Decided(id) == [] && s.Audits(id) == [] && id !in s.terminal && id !in s.thrown
    else if id in s.thrown then
      s.Decided(id) == [] && |s.Audits(id)| == 1 && id !in s.terminal
    else
      && |s.Decided(id)| == 1
      && s.Audits(id) == [StatusFor(s.Decided(id)[0])]
      && (id in s.terminal ==> s.terminal[id] == s.Decided(id)[0])
  }

  /** A claim carries the signal of its request. */
  predicate ClaimTied(s: Registry, key: string)
    requires key in s.attempts
  {
    var claim := s.attempts[key];
    && claim.approvalId in s.begun
    && (claim.approvalId in s.pending ==> s.pending[claim.approvalId].signal == claim.signal)
  }

  /** It outlives that signal only where its listener was stopped by the audit. */
  predicate ClaimOk(s: Registry, key: string)
    requires key in s.attempts
  {
    ClaimTied(s, key) && (s.Aborted(s.attempts[key].signal) ==> s.attempts[key].approvalId in s.thrown)
  }

  ghost predicate Inv(s: Registry) {
    && (forall id {:trigger PendingOk(s, id)} | id in s.pending :: PendingOk(s, id))
    && (forall id: Id {:trigger DecidedOk(s, id)} :: DecidedOk(s, id))
    && (forall k {:trigger ClaimOk(s, k)} | k in s.attempts :: ClaimOk(s, k))
  }

  ghost predicate Enumerates(order: seq<Id>, ids: set<Id>) {
    (forall id :: id in order <==> id in ids) && forall i, j | 0 <= i < j < |order| :: order[i] != order[j]
  }

  /** Approval ids are fresh: no accepted id is accepted again. What is cancelled is what is pending. */
  ghost predicate Proper(s: Registry, e: Event) {
    && (e.Begin? && !Refused(s, e.request) ==> e.request.id !in s.begun)
    && (e.CancelAll? ==> Enumerates(e.order, s.pending.Keys))
  }

  lemma SettledOneMore(s: Registry, ids: set<Id>, r: Result, throws: set<Id>, id: Id)
    requires DecidedOk(s, id) && (id in s.pending ==> PendingOk(s, id))
    ensures DecidedOk(Settle(s, ids, r, throws), id)
  {
    SettleAt(s, ids, r, throws, id);
    DecideAt(s, ids * s.pending.Keys, r, throws, id);
  }

  lemma SettleKeepsInv(s: Registry, ids: set<Id>, r: Result, throws: set<Id>)
    requires Inv(s)
    ensures Inv(Settle(s, ids, r, throws))
  {
    var t := Settle(s, ids, r, throws);
    forall id | id in t.pending ensures PendingOk(t, id) {
      assert PendingOk(s, id);
      DecideAt(s, ids * s.pending.Keys, r, throws, id);
    }
    forall id: Id ensures DecidedOk(t, id) {
      assert DecidedOk(s, id);
      if id in s.pending { assert PendingOk(s, id); }
      SettledOneMore(s, ids, r, throws, id);
    }
    forall k | k in t.attempts ensures ClaimOk(t, k) { assert ClaimOk(s, k); }
  }

  /** What a release leaves: no claim of a request that is still pending is given up. */
  lemma StillClaimed(s: Registry, keys: set<string>, throws: set<Id>, id: Id)
    requires id in s.pending && PendingOk(s, id)
    ensures id in Release(s, keys, throws).pending ==> PendingOk(Release(s, keys, throws), id)
  {
    var key := KeyOf(s.pending[id].turnId, s.pending[id].toolCallId);
    assert key in keys ==> s.attempts[key].approvalId in IdsOf(s, keys);
    DecideAt(s, IdsOf(s, keys) * s.pending.Keys, Result(Deny, WasCancelled), throws, id);
  }

  /** The claims of the signal that has just fired are given up or stuck. */
  lemma ReleasedClaimOk(s: Registry, keys: set<string>, throws: set<Id>, k: string)
    requires k in s.attempts && ClaimTied(s, k) && (k !in keys ==> ClaimOk(s, k))
    requires k in Release(s, keys, throws).attempts
    ensures ClaimOk(Release(s, keys, throws), k)
  {
    var id := s.attempts[k].approvalId;
    if k in keys {
      assert Stuck(s, k, throws) && id in IdsOf(s, keys);
    }
    SettleAt(s, IdsOf(s, keys), Result(Deny, WasCancelled), throws, id);
  }

  lemma ReleaseKeepsInv(s: Registry, keys: set<string>, throws: set<Id>)
    requires (forall id {:trigger PendingOk(s, id)} | id in s.pending :: PendingOk(s, id))
             && (forall id: Id {:trigger DecidedOk(s, id)} :: DecidedOk(s, id))
    requires forall k {:trigger ClaimOk(s, k)} | k in s.attempts && k !in keys :: ClaimOk(s, k)
    requires forall k {:trigger ClaimTied(s, k)} | k in s.attempts :: ClaimTied(s, k)
    ensures Inv(Release(s, keys, throws))
  {
    var t := Release(s, keys, throws);
    forall id | id in t.pending ensures PendingOk(t, id) {
      assert PendingOk(s, id);
      StillClaimed(s, keys, throws, id);
    }
    forall id: Id ensures DecidedOk(t, id) {
      assert DecidedOk(s, id);
      if id in s.pending { assert PendingOk(s, id); }
      SettledOneMore(s, IdsOf(s, keys), Result(Deny, WasCancelled), throws, id);
      assert DecidedOk(Settle(s, IdsOf(s, keys), Result(Deny, WasCancelled), throws), id);
    }
    forall k | k in t.attempts ensures ClaimOk(t, k) {
      assert ClaimTied(s, k);
      if k !in keys { assert ClaimOk(s, k); }
      ReleasedClaimOk(s, keys, throws, k);
    }
  }

  /** A request decided as it begins. */
  lemma DecidedAtOnceKeepsInv(s: Registry, q: Request, r: Result, throws: set<Id>, attempts: map<string, Attempt>)
    requires Inv(s) && q.id !in s.begun && !Refused(s, q)
    requires attempts == s.attempts || (attempts == s.attempts[KeyOf(q.turnId, q.toolCallId) := Attempt(q.id, q.signal)]
                                        && !s.Aborted(q.signal))
    ensures Inv(Decide(s, {q.id}, r, throws).(attempts := attempts, begun := s.begun + {q.id}))
  {
    var t := Decide(s, {q.id}, r, throws).(attempts := attempts, begun := s.begun + {q.id});
    forall id | id in t.pending ensures PendingOk(t, id) {
      assert PendingOk(s, id);
      StillPending(s, q, r, throws, attempts, id);
    }
    forall id: Id ensures DecidedOk(t, id) {
      assert DecidedOk(s, id);
      DecidedOneMore(s, q.id, r, throws, attempts, id);
    }
    forall k | k in t.attempts ensures ClaimOk(t, k) { assert k in s.attempts ==> ClaimOk(s, k); }
  }

  lemma StillPending(
    s: Registry, q: Request, r: Result, throws: set<Id>, attempts: map<string, Attempt>, id: Id)
    requires id in s.pending && PendingOk(s, id) && q.id !in s.begun && !Refused(s, q)
    requires attempts == s.attempts || attempts == s.attempts[KeyOf(q.turnId, q.toolCallId) := Attempt(q.id, q.signal)]
    ensures PendingOk(Decide(s, {q.id}, r, throws).(attempts := attempts, begun := s.begun + {q.id}), id)
  {
    DecideAt(s, {q.id}, r, throws, id);
  }

  lemma DecidedOneMore(
    s: Registry, now: Id, r: Result, throws: set<Id>, attempts: map<string, Attempt>, id: Id)
    requires DecidedOk(s, id) && now !in s.begun && now !in s.pending
    ensures DecidedOk(Decide(s, {now}, r, throws).(attempts := attempts, begun := s.begun + {now}), id)
  {
    var u := Decide(s, {now}, r, throws);
    var t := u.(attempts := attempts, begun := s.begun + {now});
    DecideAt(s, {now}, r, throws, id);
    assert t.Decided(id) == u.Decided(id) && t.Audits(id) == u.Audits(id);
  }

  lemma PendingFromNowKeepsInv(s: Registry, q: Request)
    requires Inv(s) && q.id !in s.begun && !Refused(s, q) && !q.autoDeny && !s.Aborted(q.signal)
    ensures Inv(DoBegin(s, q, {}))
  {
    var t := DoBegin(s, q, {});
    assert DecidedOk(s, q.id);
    forall id | id in t.pending ensures PendingOk(t, id) { assert id != q.id ==> PendingOk(s, id); }
    forall id: Id ensures DecidedOk(t, id) { assert DecidedOk(s, id); }
    forall k | k in t.attempts ensures ClaimOk(t, k) { assert k in s.attempts ==> ClaimOk(s, k); }
  }

  lemma BeginKeepsInv(s: Registry, q: Request, throws: set<Id>)
    requires Inv(s) && Proper(s, Begin(q, throws))
    ensures Inv(DoBegin(s, q, throws))
  {
    if Refused(s, q) {
    } else if q.autoDeny {
      DecidedAtOnceKeepsInv(s, q, Result(Deny, AutoDeny), throws, DoBegin(s, q, throws).attempts);
    } else if s.Aborted(q.signal) {
      DecidedAtOnceKeepsInv(s, q, Result(Deny, WasCancelled), throws, s.attempts);
    } else {
      PendingFromNowKeepsInv(s, q);
    }
  }

  /** Forgetting tombstones leaves everything else as sound as it was. */
  lemma ForgettingKeepsInv(s: Registry, t: Registry)
    requires Inv(s) && t == s.(terminal := t.terminal, attempts := t.attempts)
    requires t.terminal.Keys <= s.terminal.Keys && forall id | id in t.terminal :: t.terminal[id] == s.terminal[id]
    requires t.attempts == s.attempts || (t.attempts == map[] && t.pending == map[])
    ensures Inv(t)
  {
    forall i | i in t.pending ensures PendingOk(t, i) { assert PendingOk(s, i); }
    forall i: Id ensures DecidedOk(t, i) {
      assert DecidedOk(s, i);
      assert t.Decided(i) == s.Decided(i) && t.Audits(i) == s.Audits(i);
    }
    forall k | k in t.attempts ensures ClaimOk(t, k) { assert ClaimOk(s, k); }
  }

  lemma AbortKeepsInv(s: Registry, signal: Signal, throws: set<Id>)
    requires Inv(s)
    ensures Inv(Next(s, Abort(signal, throws)))
  {
    var t := s.(aborted := s.aborted + {signal});
    if signal in s.aborted {
      assert t == s;
    } else {
      forall i | i in t.pending ensures PendingOk(t, i) { assert PendingOk(s, i); }
      forall i: Id ensures DecidedOk(t, i) { assert DecidedOk(s, i); }
      forall k | k in t.attempts && k !in ClaimsOn(s, signal) ensures ClaimOk(t, k) { assert ClaimOk(s, k); }
      forall k | k in t.attempts ensures ClaimTied(t, k) { assert ClaimOk(s, k); }
      ReleaseKeepsInv(t, ClaimsOn(s, signal), throws);
    }
  }

  lemma {:induction false} ReachedAll(order: seq<Id>, throws: set<Id>)
    requires !Stops(order, throws)
    ensures forall id :: id in Reached(order, throws) <==> id in order
  {
    if order != [] {
      assert order == [order[0]] + order[1..];
      ReachedAll(order[1..], throws);
    }
  }

  /** A loop that is stopped has come to exactly one id that throws. */
  lemma {:induction false} ReachedOne(order: seq<Id>, throws: set<Id>) returns (stop: Id)
    requires Stops(order, throws)
    ensures stop in order && stop in throws && stop in Reached(order, throws)
    ensures forall id | id in Reached(order, throws) :: id in order && (id in throws ==> id == stop)
  {
    if order[0] in throws {
      stop := order[0];
    } else {
      assert order == [order[0]] + order[1..];
      stop := ReachedOne(order[1..], throws);
    }
  }

  lemma WholeCancellation(s: Registry, order: seq<Id>, throws: set<Id>)
    requires Enumerates(order, s.pending.Keys) && !Stops(order, throws)
    ensures Reached(order, throws) == s.pending.Keys && s.pending - Reached(order, throws) == map[]
    ensures s.pending.Keys !! throws
  {
    ReachedAll(order, throws);
    forall id | id in s.pending ensures id !in throws { assert id in order; }
  }

  lemma CancelAllKeepsInv(s: Registry, order: seq<Id>, throws: set<Id>)
    requires Inv(s) && Enumerates(order, s.pending.Keys)
    ensures Inv(DoCancelAll(s, order, throws))
  {
    var t := Settle(s, Reached(order, throws), Result(Deny, WasCancelled), throws);
    SettleKeepsInv(s, Reached(order, throws), Result(Deny, WasCancelled), throws);
    if !Stops(order, throws) {
      WholeCancellation(s, order, throws);
      ForgettingKeepsInv(t, t.(terminal := map[], attempts := map[]));
    }
  }

  lemma NextKeepsInv(s: Registry, e: Event)
    requires Inv(s) && Proper(s, e)
    ensures Inv(Next(s, e))
  {
    match e
    case Begin(q, throws) => BeginKeepsInv(s, q, throws);
    case Respond(id, decision, throws) => SettleKeepsInv(s, {id}, Result(decision, ByUser), throws);
    case Timeout(id, throws) => SettleKeepsInv(s, {id}, Result(Deny, TimedOut), throws);
    case ExpireTombstone(id, _) => ForgettingKeepsInv(s, Next(s, e));
    case Abort(signal, throws) => AbortKeepsInv(s, signal, throws);
    case CancelAll(order, throws) => CancelAllKeepsInv(s, order, throws);
  }

  /** Different tool calls have different keys, as long as turn ids hold no zero character. */
  lemma KeysDiffer(turn1: string, call1: string, turn2: string, call2: string)
    requires '\0' !in turn1 && '\0' !in turn2 && KeyOf(turn1, call1) == KeyOf(turn2, call2)
    ensures turn1 == turn2 && call1 == call2
  {
    var k := KeyOf(turn1, call1);
    assert k[|turn1|] == '\0' && k[|turn2|] == '\0';
    assert forall i | 0 <= i < |turn1| :: k[i] == turn1[i];
    assert forall i | 0 <= i < |turn2| :: k[i] == turn2[i];
    assert turn1 == k[..|turn1|] && turn2 == k[..|turn2|];
    assert call1 == k[|turn1| + 1..] && call2 == k[|turn2| + 1..];
  }

  // ---------------------------------------------------------------- what each event ends, and how

  /** The request has ended, with this status and this decision, but for what an audit that throws stops. */
  ghost predicate EndsWith(s: Registry, t: Registry, id: Id, status: Status, r: Result, throws: set<Id>) {
    && id !in t.pending && t.Audits(id) == s.Audits(id) + [status]
    && if id in throws then
         t.Decided(id) == s.Decided(id) && (id in t.terminal <==> id in s.terminal)
       else
         t.Decided(id) == s.Decided(id) + [r] && id in t.terminal && t.terminal[id] == r
  }

  ghost predicate SameTombstone(s: Registry, t: Registry, id: Id) {
    (id in t.terminal <==> id in s.terminal) && (id in s.terminal ==> t.terminal[id] == s.terminal[id])
  }

  /** Nothing has happened to it. */
  ghost predicate Untouched(s: Registry, t: Registry, id: Id) {
    && (id in t.pending <==> id in s.pending) && (id in s.pending ==> t.pending[id] == s.pending[id])
    && t.Audits(id) == s.Audits(id) && t.Decided(id) == s.Decided(id) && SameTombstone(s, t, id)
  }

  lemma SettleEnds(s: Registry, ids: set<Id>, r: Result, throws: set<Id>, id: Id)
    ensures var t := Settle(s, ids, r, throws);
            if id in ids && id in s.pending then EndsWith(s, t, id, StatusFor(r), r, throws) else Untouched(s, t, id)
  {
    DecideAt(s, ids * s.pending.Keys, r, throws, id);
  }

  /** A timer that fires ends its own request, denied and audited as expired; claims stay. */
  lemma TimeoutEnds(s: Registry, id: Id, throws: set<Id>, other: Id)
    ensures var t := Next(s, Timeout(id, throws));
            && (id in s.pending ==> EndsWith(s, t, id, Expired, Result(Deny, TimedOut), throws))
            && (other != id || id !in s.pending ==> Untouched(s, t, other))
            && t.attempts == s.attempts && t.aborted == s.aborted && t.begun == s.begun
  {
    SettleEnds(s, {id}, Result(Deny, TimedOut), throws, id);
    SettleEnds(s, {id}, Result(Deny, TimedOut), throws, other);
  }

  /** An answer ends its own request as the user said; claims stay. */
  lemma ResponseEnds(s: Registry, id: Id, decision: Decision, throws: set<Id>, other: Id)
    ensures var t := Next(s, Respond(id, decision, throws));
            var status := if decision == Allow then Allowed else Denied;
            && (id in s.pending ==> EndsWith(s, t, id, status, Result(decision, ByUser), throws))
            && (other != id || id !in s.pending ==> Untouched(s, t, other))
            && t.attempts == s.attempts && t.aborted == s.aborted && t.begun == s.begun
  {
    SettleEnds(s, {id}, Result(decision, ByUser), throws, id);
    SettleEnds(s, {id}, Result(decision, ByUser), throws, other);
  }

  /** Neither the claims nor the signals fired are any part of what happens to a request. */
  lemma OnlyClaimsDiffer(
    s: Registry, t: Registry, aborted: set<Signal>, attempts: map<string, Attempt>, begun: set<Id>,
    id: Id, status: Status, r: Result, throws: set<Id>)
    ensures EndsWith(s.(aborted := aborted), t, id, status, r, throws) ==>
              EndsWith(s, t.(attempts := attempts, begun := begun), id, status, r, throws)
    ensures Untouched(s.(aborted := aborted), t, id) ==> Untouched(s, t.(attempts := attempts, begun := begun), id)
  {
    var u, v := t.(attempts := attempts, begun := begun), s.(aborted := aborted);
    assert u.Audits(id) == t.Audits(id) && u.Decided(id) == t.Decided(id);
    assert v.Audits(id) == s.Audits(id) && v.Decided(id) == s.Decided(id);
  }

  lemma DecideEnds(s: Registry, now: Id, r: Result, throws: set<Id>, id: Id)
    requires now !in s.pending
    ensures var t := Decide(s, {now}, r, throws);
            if id == now then EndsWith(s, t, id, StatusFor(r), r, throws) else Untouched(s, t, id)
  {
    DecideAt(s, {now}, r, throws, id);
  }

  /** A call to begin with a known id, or for a tool call that is claimed, changes nothing. */
  lemma DuplicateChangesNothing(s: Registry, q: Request, throws: set<Id>)
    requires q.id in s.pending || q.id in s.terminal || KeyOf(q.turnId, q.toolCallId) in s.attempts
    ensures Next(s, Begin(q, throws)) == s
  {
  }

  /** A request that denies by its mode, or whose signal has fired, ends as it begins. */
  lemma {:induction false} BeginEndsAtOnce(s: Registry, q: Request, throws: set<Id>, other: Id)
    requires q.id !in s.pending && q.id !in s.terminal && KeyOf(q.turnId, q.toolCallId) !in s.attempts
    requires q.autoDeny || s.Aborted(q.signal)
    ensures var t := Next(s, Begin(q, throws));
            && (if q.autoDeny then EndsWith(s, t, q.id, AutoDenied, Result(Deny, AutoDeny), throws)
                else EndsWith(s, t, q.id, Cancelled, Result(Deny, WasCancelled), throws))
            && (other != q.id ==> Untouched(s, t, other))
            && t.begun == s.begun + {q.id} && t.aborted == s.aborted
            && t.attempts == if s.Aborted(q.signal) then s.attempts
                             else s.attempts[KeyOf(q.turnId, q.toolCallId) := Attempt(q.id, q.signal)]
  {
    var t := Next(s, Begin(q, throws));
    var r := Result(Deny, if q.autoDeny then AutoDeny else WasCancelled);
    DecideEnds(s, q.id, r, throws, q.id);
    DecideEnds(s, q.id, r, throws, other);
    OnlyClaimsDiffer(s, Decide(s, {q.id}, r, throws), s.aborted, t.attempts, t.begun, q.id, StatusFor(r), r, throws);
    OnlyClaimsDiffer(s, Decide(s, {q.id}, r, throws), s.aborted, t.attempts, t.begun, other, StatusFor(r), r, throws);
  }

  /** Any other request waits, with its claim made. */
  lemma BeginWaits(s: Registry, q: Request, throws: set<Id>)
    requires q.id !in s.pending && q.id !in s.terminal && KeyOf(q.turnId, q.toolCallId) !in s.attempts
    requires !q.autoDeny && !s.Aborted(q.signal)
    ensures var t := Next(s, Begin(q, throws));
            && t.pending == s.pending[q.id := q]
            && t.attempts == s.attempts[KeyOf(q.turnId, q.toolCallId) := Attempt(q.id, q.signal)]
            && t.begun == s.begun + {q.id} && t.aborted == s.aborted && t.terminal == s.terminal
            && t.audits == s.audits && t.decided == s.decided
  {
  }

  lemma OnTheSignal(s: Registry, signal: Signal, id: Id)
    requires Inv(s) && id in s.pending
    ensures id in IdsOf(s, ClaimsOn(s, signal)) <==> s.pending[id].signal == Some(signal)
  {
    var key := KeyOf(s.pending[id].turnId, s.pending[id].toolCallId);
    assert PendingOk(s, id);
    if s.pending[id].signal == Some(signal) {
      assert key in ClaimsOn(s, signal) && s.attempts[key].approvalId == id;
    }
    if id in IdsOf(s, ClaimsOn(s, signal)) {
      var k :| k in ClaimsOn(s, signal) && s.attempts[k].approvalId == id;
      assert ClaimOk(s, k);
    }
  }

  /** A signal that fires ends exactly the requests that are waiting under it. */
  lemma {:induction false} AbortEnds(s: Registry, signal: Signal, throws: set<Id>, id: Id)
    requires Inv(s) && signal !in s.aborted
    ensures var t := Next(s, Abort(signal, throws));
            && t.aborted == s.aborted + {signal}
            && if id in s.pending && s.pending[id].signal == Some(signal)
               then EndsWith(s, t, id, Cancelled, Result(Deny, WasCancelled), throws) else Untouched(s, t, id)
  {
    var now := s.(aborted := s.aborted + {signal});
    var r := Result(Deny, WasCancelled);
    var t := Next(s, Abort(signal, throws));
    var u := Settle(now, IdsOf(now, ClaimsOn(s, signal)), r, throws);
    if id in s.pending { OnTheSignal(s, signal, id); }
    SettleEnds(now, IdsOf(now, ClaimsOn(s, signal)), r, throws, id);
    OnlyClaimsDiffer(s, u, now.aborted, t.attempts, t.begun, id, Cancelled, r, throws);
  }

  /** It frees exactly the claims on it, but for one whose request's audit throws. */
  lemma AbortFrees(s: Registry, signal: Signal, throws: set<Id>, key: string)
    requires Inv(s) && signal !in s.aborted && key in s.attempts
    ensures var t := Next(s, Abort(signal, throws));
            var claim := s.attempts[key];
            key !in t.attempts <==>
            claim.signal == Some(signal) && !(claim.approvalId in s.pending && claim.approvalId in throws)
  {
  }

  /** A tombstone that expires is forgotten, and nothing else. */
  lemma TombstoneExpires(s: Registry, id: Id, throws: set<Id>, other: Id)
    ensures var t := Next(s, ExpireTombstone(id, throws));
            && id !in t.terminal && (other != id ==> Untouched(s, t, other))
            && t.pending == s.pending && t.attempts == s.attempts && t.Decided(id) == s.Decided(id)
  {
  }

  // ---------------------------------------------------------------- over whole runs

  ghost predicate IsRun(run: seq<Registry>, es: seq<Event>) {
    && |run| == |es| + 1
    && run[0] == EMPTY
    && forall i: nat {:trigger Follows(run, es, i)} | i < |es| :: Follows(run, es, i)
  }

  ghost predicate Follows(run: seq<Registry>, es: seq<Event>, i: nat)
    requires i < |es| && |run| == |es| + 1
  {
    Proper(run[i], es[i]) && run[i + 1] == Next(run[i], es[i])
  }

  lemma {:induction false} RunKeepsInv(run: seq<Registry>, es: seq<Event>, i: nat)
    requires IsRun(run, es) && i < |run|
    ensures Inv(run[i])
  {
    if i > 0 {
      RunKeepsInv(run, es, i - 1);
      assert Follows(run, es, i - 1);
      NextKeepsInv(run[i - 1], es[i - 1]);
    }
  }

  /** The `j`-th event audited the request, and that threw. */
  ghost predicate AuditThrew(run: seq<Registry>, es: seq<Event>, j: nat, id: Id)
    requires j < |es| && |run| == |es| + 1
  {
    run[j + 1].Audits(id) != run[j].Audits(id) && id in es[j].throws
  }

  /** One of the first `n` events did. */
  ghost predicate Threw(run: seq<Registry>, es: seq<Event>, n: nat, id: Id)
    requires n <= |es| && |run| == |es| + 1
  {
    exists j: nat :: j < n && AuditThrew(run, es, j, id)
  }

  lemma ThrewOneMore(run: seq<Registry>, es: seq<Event>, n: nat, id: Id)
    requires n < |es| && |run| == |es| + 1
    ensures Threw(run, es, n + 1, id) <==> Threw(run, es, n, id) || AuditThrew(run, es, n, id)
  {
  }

  lemma BeginThrows(s: Registry, q: Request, throws: set<Id>, id: Id)
    ensures var t := DoBegin(s, q, throws);
            id in t.thrown <==> id in s.thrown || (t.Audits(id) != s.Audits(id) && id in throws)
  {
    if Refused(s, q) {
    } else if q.autoDeny {
      DecideAt(s, {q.id}, Result(Deny, AutoDeny), throws, id);
    } else if s.Aborted(q.signal) {
      DecideAt(s, {q.id}, Result(Deny, WasCancelled), throws, id);
    }
  }

  lemma SettledForAll(s: Registry, t: Registry, ids: set<Id>, r: Result, throws: set<Id>, id: Id)
    requires t == Settle(s, ids, r, throws).(attempts := t.attempts)
    ensures t.Decided(id) == s.Decided(id) + (if id in ids && id in s.pending && id !in throws then [r] else [])
    ensures id in t.thrown <==> id in s.thrown || (t.Audits(id) != s.Audits(id) && id in throws)
  {
    var u := Settle(s, ids, r, throws);
    SettleAt(s, ids, r, throws, id);
    assert t.Decided(id) == u.Decided(id) && t.Audits(id) == u.Audits(id);
  }

  /** An abort audits some of the requests, denying those for which that does not throw. */
  lemma AbortAt(s: Registry, signal: Signal, throws: set<Id>, id: Id)
    ensures var t := Next(s, Abort(signal, throws));
            && (t.Decided(id) == s.Decided(id) || t.Decided(id) == s.Decided(id) + [Result(Deny, WasCancelled)])
            && (id in t.thrown <==> id in s.thrown || (t.Audits(id) != s.Audits(id) && id in throws))
  {
    var now := s.(aborted := s.aborted + {signal});
    var ids := IdsOf(now, ClaimsOn(s, signal));
    assert now.Decided(id) == s.Decided(id) && now.Audits(id) == s.Audits(id);
    if signal !in s.aborted {
      SettledForAll(now, Next(s, Abort(signal, throws)), ids, Result(Deny, WasCancelled), throws, id);
    }
  }

  lemma NextThrows(s: Registry, e: Event, id: Id)
    ensures var t := Next(s, e);
            id in t.thrown <==> id in s.thrown || (t.Audits(id) != s.Audits(id) && id in e.throws)
  {
    match e
    case Begin(q, throws) => BeginThrows(s, q, throws, id);
    case Respond(other, decision, throws) => SettleAt(s, {other}, Result(decision, ByUser), throws, id);
    case Timeout(other, throws) => SettleAt(s, {other}, Result(Deny, TimedOut), throws, id);
    case ExpireTombstone(_, _) =>
    case Abort(signal, throws) => AbortAt(s, signal, throws, id);
    case CancelAll(order, throws) => SettleAt(s, Reached(order, throws), Result(Deny, WasCancelled), throws, id);
  }

  lemma {:induction false} ThrownExactlyWhen(run: seq<Registry>, es: seq<Event>, i: nat, id: Id)
    requires IsRun(run, es) && i < |run|
    ensures id in run[i].thrown <==> Threw(run, es, i, id)
  {
    if i > 0 {
      ThrownExactlyWhen(run, es, i - 1, id);
      ThrewOneMore(run, es, i - 1, id);
      assert Follows(run, es, i - 1);
      NextThrows(run[i - 1], es[i - 1], id);
    }
  }

  /**
   Over every interleaving, a request is audited exactly once as soon as it is no longer pending,
   and never before; and then it is resolved exactly once, with the outcome that was audited, unless
   that audit threw.
   */
  lemma DecidedExactlyOnce(run: seq<Registry>, es: seq<Event>, i: nat, id: Id)
    requires IsRun(run, es) && i < |run|
    ensures var ended := id in run[i].begun && id !in run[i].pending;
            && |run[i].Audits(id)| == (if ended then 1 else 0)
            && |run[i].Decided(id)| == (if ended && !Threw(run, es, i, id) then 1 else 0)
            && (Threw(run, es, i, id) ==> ended)
    ensures |run[i].Decided(id)| == 1 ==> run[i].Audits(id)[0] == StatusFor(run[i].Decided(id)[0])
    ensures !(id in run[i].pending && id in run[i].terminal)
  {
    RunKeepsInv(run, es, i);
    ThrownExactlyWhen(run, es, i, id);
    assert DecidedOk(run[i], id);
  }

  /** Whoever waits for a request whose audit threw waits for ever, whatever happens next. */
  lemma LostForEver(run: seq<Registry>, es: seq<Event>, j: nat, i: nat, id: Id)
    requires IsRun(run, es) && j < i < |run| && AuditThrew(run, es, j, id)
    ensures run[i].Decided(id) == [] && id !in run[i].pending && id !in run[i].terminal
  {
    RunKeepsInv(run, es, i);
    ThrownExactlyWhen(run, es, i, id);
    assert DecidedOk(run[i], id);
  }

  /** Nothing decided, or one denial more. */
  ghost predicate SameOrDenied(before: seq<Result>, after: seq<Result>) {
    after == before || (|after| == |before| + 1 && before <= after && after[|before|].decision == Deny)
  }

  lemma BeginAt(s: Registry, q: Request, throws: set<Id>, id: Id)
    ensures SameOrDenied(s.Decided(id), DoBegin(s, q, throws).Decided(id))
  {
    if Refused(s, q) {
    } else if q.autoDeny {
      DecideAt(s, {q.id}, Result(Deny, AutoDeny), throws, id);
    } else if s.Aborted(q.signal) {
      DecideAt(s, {q.id}, Result(Deny, WasCancelled), throws, id);
    }
  }

  /** Whatever is not an answer of the user only ever denies. */
  lemma {:induction false} OthersDeny(s: Registry, e: Event, id: Id)
    requires !e.Respond?
    ensures SameOrDenied(s.Decided(id), Next(s, e).Decided(id))
  {
    if e.Begin? { BeginAt(s, e.request, e.throws, id); }
    else if e.Timeout? { SettleAt(s, {e.id}, Result(Deny, TimedOut), e.throws, id); }
    else if e.Abort? { AbortAt(s, e.signal, e.throws, id); }
    else if e.CancelAll? { SettleAt(s, Reached(e.order, e.throws), Result(Deny, WasCancelled), e.throws, id); }
  }

  lemma DecidedGrows(s: Registry, e: Event, id: Id)
    ensures s.Decided(id) <= Next(s, e).Decided(id)
  {
    if e.Respond? { SettleAt(s, {e.id}, Result(e.decision, ByUser), e.throws, id); } else { OthersDeny(s, e, id); }
  }

  lemma {:induction false} GrowsOverOneStep(run: seq<Registry>, es: seq<Event>, j: nat, id: Id)
    requires IsRun(run, es) && j < |es|
    ensures run[j].Decided(id) <= run[j + 1].Decided(id)
  {
    assert Follows(run, es, j);
    DecidedGrows(run[j], es[j], id);
  }

  lemma DecidedAtMostOnce(run: seq<Registry>, es: seq<Event>, i: nat, id: Id)
    requires IsRun(run, es) && i < |run|
    ensures |run[i].Decided(id)| <= 1
  {
    RunKeepsInv(run, es, i);
    assert DecidedOk(run[i], id);
  }

  /** A decision, once made, is never revised. */
  lemma {:induction false} DecisionsStand(run: seq<Registry>, es: seq<Event>, i: nat, j: nat, id: Id)
    requires IsRun(run, es) && i <= j < |run| && run[i].Decided(id) != []
    ensures run[j].Decided(id) == run[i].Decided(id)
    decreases j
  {
    if i < j {
      DecisionsStand(run, es, i, j - 1, id);
      GrowsOverOneStep(run, es, j - 1, id);
      DecidedAtMostOnce(run, es, j - 1, id);
      DecidedAtMostOnce(run, es, j, id);
    }
  }

  /** The user allowed it, and the audit of that returned. */
  predicate AllowsIt(e: Event, id: Id) {
    e.Respond? && e.id == id && e.decision == Allow && id !in e.throws
  }

  /** A command is allowed only where a user answered so, while the request was pending. */
  lemma {:induction false} AllowOnlyFromTheUser(run: seq<Registry>, es: seq<Event>, i: nat, id: Id) returns (j: nat)
    requires IsRun(run, es) && i < |run|
    requires run[i].Decided(id) != [] && run[i].Decided(id)[0].decision == Allow
    ensures j < i && AllowsIt(es[j], id) && id in run[j].pending
    ensures run[i].Decided(id) == [Result(Allow, ByUser)]
  {
    RunKeepsInv(run, es, i);
    assert DecidedOk(run[i], id);
    if run[i - 1].Decided(id) != [] {
      DecisionsStand(run, es, i - 1, i, id);
      j := AllowOnlyFromTheUser(run, es, i - 1, id);
    } else {
      j := i - 1;
      assert Follows(run, es, j);
      AllowedByThisEvent(run[j], es[j], id);
    }
  }

  lemma {:induction false} AllowedByThisEvent(s: Registry, e: Event, id: Id)
    requires s.Decided(id) == [] && Next(s, e).Decided(id) != [] && Next(s, e).Decided(id)[0].decision == Allow
    ensures AllowsIt(e, id) && id in s.pending
    ensures Next(s, e).Decided(id) == [Result(Allow, ByUser)]
  {
    if e.Respond? { SettleAt(s, {e.id}, Result(e.decision, ByUser), e.throws, id); } else { OthersDeny(s, e, id); }
  }

  /** At most one request is pending for one tool call of one turn. */
  lemma OnePendingPerToolCall(run: seq<Registry>, es: seq<Event>, i: nat, a: Id, b: Id)
    requires IsRun(run, es) && i < |run| && a in run[i].pending && b in run[i].pending
    requires run[i].pending[a].turnId == run[i].pending[b].turnId
    requires run[i].pending[a].toolCallId == run[i].pending[b].toolCallId
    ensures a == b
  {
    RunKeepsInv(run, es, i);
    assert PendingOk(run[i], a) && PendingOk(run[i], b);
  }

  ghost predicate AllDenied(s: Registry, ids: set<Id>) {
    forall id {:trigger s.Decided(id)} | id in ids :: s.Decided(id) == [Result(Deny, WasCancelled)]
  }

  lemma CancelledAt(s: Registry, order: seq<Id>, throws: set<Id>, id: Id)
    requires DecidedOk(s, id) && id in s.pending
    ensures DoCancelAll(s, order, throws).Decided(id)
            == if id in Reached(order, throws) && id !in throws then [Result(Deny, WasCancelled)] else []
  {
    SettleAt(s, Reached(order, throws), Result(Deny, WasCancelled), throws, id);
  }

  /** Whoever the cancellation came to is denied, but for the one whose audit threw. */
  lemma CancelAllDenies(s: Registry, order: seq<Id>, throws: set<Id>)
    requires Inv(s) && Enumerates(order, s.pending.Keys)
    ensures AllDenied(DoCancelAll(s, order, throws), s.pending.Keys * Reached(order, throws) - throws)
    ensures AllDenied(DoCancelAll(s, order, throws), s.pending.Keys) <==> !Stops(order, throws)
  {
    forall id | id in s.pending
      ensures DoCancelAll(s, order, throws).Decided(id)
              == if id in Reached(order, throws) && id !in throws then [Result(Deny, WasCancelled)] else []
    {
      assert DecidedOk(s, id);
      CancelledAt(s, order, throws, id);
    }
    if Stops(order, throws) {
      var stop := ReachedOne(order, throws);
      assert stop in s.pending && DoCancelAll(s, order, throws).Decided(stop) == [];
    } else {
      WholeCancellation(s, order, throws);
    }
  }

  lemma ClaimsStay(s: Registry, order: seq<Id>, throws: set<Id>)
    requires Inv(s) && Enumerates(order, s.pending.Keys) && Stops(order, throws)
    ensures !(s.pending.Keys !! throws) && s.attempts != map[]
    ensures DoCancelAll(s, order, throws).attempts == s.attempts
  {
    var stop := ReachedOne(order, throws);
    assert stop in s.pending && PendingOk(s, stop);
  }

  /**
   A cancellation decides everyone who waits, denies them all, and gives up every claim and
   tombstone, exactly when no audit throws.
   */
  lemma {:induction false} CancelAllFailsClosed(s: Registry, order: seq<Id>, throws: set<Id>)
    requires Inv(s) && Enumerates(order, s.pending.Keys)
    ensures var t := Next(s, CancelAll(order, throws));
            && (AllDenied(t, s.pending.Keys) <==> s.pending.Keys !! throws)
            && (s.pending.Keys !! throws ==> t.pending == map[] && t.attempts == map[] && t.terminal == map[])
            && (t.attempts == map[] ==> s.pending.Keys !! throws)
  {
    CancelAllDenies(s, order, throws);
    if Stops(order, throws) { ClaimsStay(s, order, throws); } else { WholeCancellation(s, order, throws); }
  }

  /**
   A cancellation that an audit stops denies those it came to before, loses that one request, and
   leaves those behind it waiting, and every claim and tombstone where it was.
   */
  lemma CancelAllStopped(s: Registry, order: seq<Id>, throws: set<Id>) returns (stop: Id)
    requires Inv(s) && Enumerates(order, s.pending.Keys) && !(s.pending.Keys !! throws)
    ensures var t := Next(s, CancelAll(order, throws));
            && stop in s.pending && stop in throws && stop in Reached(order, throws)
            && t.thrown == s.thrown + {stop} && t.pending == s.pending - Reached(order, throws)
            && t.attempts == s.attempts && s.terminal.Keys <= t.terminal.Keys
            && AllDenied(t, s.pending.Keys * Reached(order, throws) - {stop})
  {
    assert Stops(order, throws) by {
      var id :| id in s.pending && id in throws;
      assert id in order;
    }
    stop := ReachedOne(order, throws);
    var reached := Reached(order, throws);
    CancelAllDenies(s, order, throws);
    assert (reached * s.pending.Keys) * throws == {stop};
    assert s.pending.Keys * reached - {stop} == s.pending.Keys * reached - throws;
    assert s.terminal.Keys <= Entomb(s.terminal, reached * s.pending.Keys - throws, Result(Deny, WasCancelled)).Keys;
  }

  /**
   The same answer twice is applied once; a different one conflicts; neither changes anything. An
   answer whose audit threw is not found the second time.
   */
  lemma {:induction false} SecondAnswer(
    s: Registry, id: Id, first: Decision, second: Decision, throws: set<Id>, later: set<Id>)
    requires Inv(s) && Answer(s, id, first) == Accepted
    ensures var t := Next(s, Respond(id, first, throws));
            && Answer(t, id, second)
               == (if id in throws then NotFound else if first == second then AlreadyApplied else Conflict)
            && Next(t, Respond(id, second, later)).pending == t.pending
            && Next(t, Respond(id, second, later)).Decided(id) == t.Decided(id)
  {
    var t := Next(s, Respond(id, first, throws));
    assert PendingOk(s, id);
    DecideAt(s, {id} * s.pending.Keys, Result(first, ByUser), throws, id);
    AnsweredTwice(t, id, Result(second, ByUser), later);
  }

  lemma AnsweredTwice(t: Registry, id: Id, r: Result, throws: set<Id>)
    requires id !in t.pending
    ensures Settle(t, {id}, r, throws).pending == t.pending && Settle(t, {id}, r, throws).Decided(id) == t.Decided(id)
  {
    SettleAt(t, {id}, r, throws, id);
    assert t.pending - {id} == t.pending;
  }

  // ---------------------------------------------------------------- the implementation

  /** How a call to begin ends: with a handle, refused, or with what the audit threw. */
  datatype Opening = Opened | Duplicate | AuditFailed

  /** `throws`, wherever it is given: the ids with which the audit callback throws during the call. */
  class CommandApprovalRegistry {
    var pending: map<Id, Request>
    var attemptKeys: map<string, Attempt>
    var terminal: map<Id, Result>
    var audits: map<Id, seq<Status>>     // what the audit callback was given
    var decided: map<Id, seq<Result>>    // what the promises were resolved with
    var aborted: set<Signal>
    ghost var begun: set<Id>
    ghost var thrown: set<Id>

    ghost function Model(): Registry
      reads this
    {
      Registry(pending, attemptKeys, terminal, audits, decided, aborted, begun, thrown)
    }

    constructor ()
      ensures Model() == EMPTY
    {
      pending, attemptKeys, terminal, audits, decided, aborted := map[], map[], map[], map[], map[], {};
      begun, thrown := {}, {};
    }

    /** Audit, then leave a tombstone, unless the audit throws; the promise is resolved by the caller. */
    method RecordTerminal(id: Id, r: Result, throws: set<Id>) returns (ok: bool)
      modifies this`audits, this`terminal, this`thrown
      ensures ok <==> id !in throws
      ensures terminal == if ok then old(terminal)[id := r] else old(terminal)
      ensures audits == old(audits)[id := old(Model()).Audits(id) + [StatusFor(r)]]
      ensures thrown == if ok then old(thrown) else old(thrown) + {id}
    {
      audits := audits[id := (if id in audits then audits[id] else []) + [StatusFor(r)]];
      if id in throws {
        thrown := thrown + {id};
        return false;
      }
      terminal := terminal[id := r];
      return true;
    }

    method Resolve(id: Id, r: Result)
      modifies this`decided
      ensures decided == old(decided)[id := old(Model()).Decided(id) + [r]]
    {
      decided := decided[id := (if id in decided then decided[id] else []) + [r]];
    }

    /** `settled` is whether an approval is returned; `ok` is false where the call throws. */
    method SettleOne(id: Id, r: Result, throws: set<Id>) returns (settled: bool, ok: bool)
      modifies this`pending, this`audits, this`terminal, this`decided, this`thrown
      ensures ok <==> !(id in old(pending) && id in throws)
      ensures settled <==> id in old(pending) && ok
      ensures Model() == Settle(old(Model()), {id}, r, throws)
    {
      ghost var was := Model();
      if id !in pending {
        SettleNone(was, {id}, r, throws);
        return false, true;
      }
      SettleSingle(was, id, r, throws);
      pending := pending - {id};
      ok := RecordTerminal(id, r, throws);
      settled := ok;
      if ok { Resolve(id, r); }
    }

    method ReleaseAttempt(key: string, approvalId: Id)
      modifies this`attemptKeys
      ensures attemptKeys == if key in old(attemptKeys) && old(attemptKeys)[key].approvalId == approvalId
                             then old(attemptKeys) - {key} else old(attemptKeys)
    {
      if key !in attemptKeys || attemptKeys[key].approvalId != approvalId { return; }
      attemptKeys := attemptKeys - {key};
    }

    /** The listener: a claim is released unless settling its request throws. */
    method OnAbort(key: string, approvalId: Id, throws: set<Id>) returns (ok: bool)
      requires key in attemptKeys && attemptKeys[key].approvalId == approvalId
      modifies this`pending, this`audits, this`terminal, this`decided, this`thrown, this`attemptKeys
      ensures ok <==> !(approvalId in old(pending) && approvalId in throws)
      ensures Model() == Settle(old(Model()), {approvalId}, Result(Deny, WasCancelled), throws)
                           .(attempts := if ok then old(attemptKeys) - {key} else old(attemptKeys))
    {
      var _, returned := SettleOne(approvalId, Result(Deny, WasCancelled), throws);
      ok := returned;
      if ok { ReleaseAttempt(key, approvalId); }
    }

    /** With an abort listener; a signal that has already fired settles and releases at once. */
    method ClaimAttempt(key: string, approvalId: Id, signal: Option<Signal>, throws: set<Id>) returns (ok: bool)
      modifies this
      ensures ok <==> !(old(Model()).Aborted(signal) && approvalId in old(pending) && approvalId in throws)
      ensures var claimed := old(attemptKeys)[key := Attempt(approvalId, signal)];
              Model() ==
              if old(Model()).Aborted(signal) then
                Settle(old(Model()), {approvalId}, Result(Deny, WasCancelled), throws)
                  .(attempts := if ok then old(attemptKeys) - {key} else claimed)
              else old(Model()).(attempts := claimed)
    {
      ghost var was := Model();
      attemptKeys := attemptKeys[key := Attempt(approvalId, signal)];
      ok := true;
      if signal.Some? && signal.value in aborted {
        SettleIgnoresClaims(was, {approvalId}, Result(Deny, WasCancelled), throws, attemptKeys);
        assert attemptKeys - {key} == was.attempts - {key};
        ok := OnAbort(key, approvalId, throws);
      }
    }

    method DecideAtOnce(id: Id, r: Result, throws: set<Id>) returns (ok: bool)
      modifies this`audits, this`terminal, this`decided, this`thrown
      ensures ok <==> id !in throws
      ensures Model() == Decide(old(Model()), {id}, r, throws)
    {
      DecideSingle(Model(), id, r, throws);
      ok := RecordTerminal(id, r, throws);
      if ok { Resolve(id, r); }
    }

    /** A mode that denies at once; the claim is made first, and kept. */
    method DenyAtOnce(q: Request, throws: set<Id>) returns (ok: bool)
      requires !Refused(Model(), q) && q.autoDeny
      modifies this
      ensures ok <==> q.id !in throws
      ensures Model() == DoBegin(old(Model()), q, throws)
    {
      ghost var was := Model();
      begun := begun + {q.id};
      var _ := ClaimAttempt(KeyOf(q.turnId, q.toolCallId), q.id, q.signal, throws);
      SettleNone(was.(begun := begun), {q.id}, Result(Deny, WasCancelled), throws);
      assert was.attempts - {KeyOf(q.turnId, q.toolCallId)} == was.attempts;
      ok := DecideAtOnce(q.id, Result(Deny, AutoDeny), throws);
    }

    method BeginApproval(q: Request, throws: set<Id>) returns (outcome: Opening)
      modifies this
      ensures Model() == Next(old(Model()), Begin(q, throws))
      ensures outcome.Duplicate? <==> Refused(old(Model()), q)
      ensures outcome.AuditFailed? <==>
              !Refused(old(Model()), q) && (q.autoDeny || old(Model()).Aborted(q.signal)) && q.id in throws
    {
      var key := KeyOf(q.turnId, q.toolCallId);
      if q.id in pending || q.id in terminal { return Duplicate; }
      if key in attemptKeys { return Duplicate; }
      var ok := true;
      if q.autoDeny {
        ok := DenyAtOnce(q, throws);
      } else if q.signal.Some? && q.signal.value in aborted {
        begun := begun + {q.id};
        ok := DecideAtOnce(q.id, Result(Deny, WasCancelled), throws);
      } else {
        begun := begun + {q.id};
        pending := pending[q.id := q];
        ok := ClaimAttempt(key, q.id, q.signal, throws);
      }
      return if ok then Opened else AuditFailed;
    }

    /** `None` where the call throws. */
    method RespondTo(id: Id, decision: Decision, throws: set<Id>) returns (answer: Option<Response>)
      modifies this
      ensures Model() == Next(old(Model()), Respond(id, decision, throws))
      ensures answer ==
              if id in old(pending) && id in throws then None else Some(Answer(old(Model()), id, decision))
    {
      if id in pending {
        var settled, ok := SettleOne(id, Result(decision, ByUser), throws);
        return if !ok then None else if settled then Some(Accepted) else Some(NotFound);
      }
      SettleNone(Model(), {id}, Result(decision, ByUser), throws);
      if id !in terminal { return Some(NotFound); }
      if terminal[id].reason == ByUser && terminal[id].decision == decision { return Some(AlreadyApplied); }
      return Some(Conflict);
    }

    /** The request's timer fires. */
    method FireTimeout(id: Id, throws: set<Id>)
      modifies this
      ensures Model() == Next(old(Model()), Timeout(id, throws))
    {
      var _, _ := SettleOne(id, Result(Deny, TimedOut), throws);
    }

    /** The tombstone's timer fires. */
    method FireTombstone(id: Id)
      modifies this
      ensures Model() == Next(old(Model()), ExpireTombstone(id, {}))
    {
      terminal := terminal - {id};
    }

    /** One listener for each: what one of them throws does not keep the others from being called. */
    method SettleEach(ids: set<Id>, r: Result, throws: set<Id>)
      modifies this`pending, this`audits, this`terminal, this`decided, this`thrown
      ensures Model() == Settle(old(Model()), ids, r, throws)
    {
      ghost var was := Model();
      ghost var done: set<Id> := {};
      var todo := ids;
      SettleNone(was, {}, r, throws);
      while todo != {}
        invariant done + todo == ids && done !! todo
        invariant Model() == Settle(was, done, r, throws)
      {
        var id :| id in todo;
        var _, _ := SettleOne(id, r, throws);
        SettleTwice(was, done, {id}, r, throws);
        todo, done := todo - {id}, done + {id};
      }
      assert done == ids;
    }

    /** A loop, which ends at the first error; `ok` says that there was none. */
    method SettleInOrder(order: seq<Id>, r: Result, throws: set<Id>) returns (ok: bool)
      requires Enumerates(order, pending.Keys)
      modifies this`pending, this`audits, this`terminal, this`decided, this`thrown
      ensures ok <==> !Stops(order, throws)
      ensures Model() == Settle(old(Model()), Reached(order, throws), r, throws)
    {
      ghost var was := Model();
      ghost var done: set<Id> := {};
      SettleNone(was, {}, r, throws);
      for i := 0 to |order|
        invariant CameTo(order, throws, done, i)
        invariant Model() == Settle(was, done, r, throws)
      {
        var id := order[i];
        ComesToNext(order, throws, was.pending.Keys, done, i);
        var _, returned := SettleOne(id, r, throws);
        SettleTwice(was, done, {id}, r, throws);
        if !returned { return false; }
        done := done + {id};
      }
      ComesToTheEnd(order, throws, done);
      return true;
    }

    method ReleaseEach(keys: set<string>)
      requires keys <= attemptKeys.Keys
      modifies this`attemptKeys
      ensures attemptKeys == old(attemptKeys) - keys
    {
      var todo := keys;
      while todo != {}
        invariant todo <= keys && attemptKeys == old(attemptKeys) - (keys - todo)
      {
        var k :| k in todo;
        ReleaseAttempt(k, attemptKeys[k].approvalId);
        todo := todo - {k};
      }
    }

    /** A signal fires: each claim's listener settles its request and, unless that throws, releases the claim. */
    method FireAbort(signal: Signal, throws: set<Id>)
      modifies this
      ensures Model() == Next(old(Model()), Abort(signal, throws))
    {
      if signal in aborted {
        assert aborted + {signal} == aborted;
        return;
      }
      ghost var was := Model();
      aborted := aborted + {signal};
      ghost var now := Model();
      var keys := set k | k in attemptKeys && attemptKeys[k].signal == Some(signal);
      var freed := set k | k in keys && k in attemptKeys
                           && !(attemptKeys[k].approvalId in pending && attemptKeys[k].approvalId in throws);
      assert keys == ClaimsOn(was, signal) && freed == Freed(now, keys, throws);
      var ids := set k | k in keys && k in attemptKeys :: attemptKeys[k].approvalId;
      SettleEach(ids, Result(Deny, WasCancelled), throws);
      ReleaseEach(freed);
    }

    /** `order` is that in which the pending requests came. `ok` is false where the call throws. */
    method CancelEverything(order: seq<Id>, throws: set<Id>) returns (ok: bool)
      requires Enumerates(order, pending.Keys)
      modifies this
      ensures ok <==> !Stops(order, throws)
      ensures Model() == Next(old(Model()), CancelAll(order, throws))
    {
      ok := SettleInOrder(order, Result(Deny, WasCancelled), throws);
      if !ok { return; }
      terminal := map[];
      ReleaseEach(attemptKeys.Keys);
      assert attemptKeys == map[];
    }
  }

  /** What a loop over `order` has come to, nothing having thrown yet. */
  ghost predicate CameTo(order: seq<Id>, throws: set<Id>, done: set<Id>, i: nat)
    requires i <= |order|
  {
    && (forall id :: id in done <==> id in order[..i])
    && done !! throws && Reached(order, throws) == done + Reached(order[i..], throws)
  }

  lemma ComesToNext(order: seq<Id>, throws: set<Id>, ids: set<Id>, done: set<Id>, i: nat)
    requires i < |order| && CameTo(order, throws, done, i) && Enumerates(order, ids)
    ensures order[i] in ids && order[i] !in done
    ensures if order[i] in throws then Stops(order, throws) && Reached(order, throws) == done + {order[i]}
            else CameTo(order, throws, done + {order[i]}, i + 1)
  {
    assert order[i] in order && order[i..][0] == order[i];
    assert order[i..][1..] == order[i + 1..] && order[..i + 1] == order[..i] + [order[i]];
  }

  lemma ComesToTheEnd(order: seq<Id>, throws: set<Id>, done: set<Id>)
    requires CameTo(order, throws, done, |order|)
    ensures Reached(order, throws) == done && !Stops(order, throws)
  {
    assert order[..|order|] == order;
  }

  lemma {:induction false} DecideSingle(s: Registry, id: Id, r: Result, throws: set<Id>)
    ensures Decide(s, {id}, r, throws) ==
            if id in throws then
              s.(audits := s.audits[id := s.Audits(id) + [StatusFor(r)]], thrown := s.thrown + {id})
            else
              s.(terminal := s.terminal[id := r],
                 audits := s.audits[id := s.Audits(id) + [StatusFor(r)]],
                 decided := s.decided[id := s.Decided(id) + [r]])
  {
    LogSingle(s.audits, id, StatusFor(r));
    if id in throws {
      assert {id} - throws == {} && {id} * throws == {id};
      LogNone(s.decided, r);
      EntombNone(s.terminal, r);
    } else {
      assert {id} - throws == {id} && {id} * throws == {} && s.thrown + {} == s.thrown;
      LogSingle(s.decided, id, r);
      EntombSingle(s.terminal, id, r);
    }
  }

  lemma {:induction false} SettleSingle(s: Registry, id: Id, r: Result, throws: set<Id>)
    requires id in s.pending
    ensures Settle(s, {id}, r, throws) ==
            if id in throws then
              s.(pending := s.pending - {id},
                 audits := s.audits[id := s.Audits(id) + [StatusFor(r)]], thrown := s.thrown + {id})
            else
              s.(pending := s.pending - {id},
                 terminal := s.terminal[id := r],
                 audits := s.audits[id := s.Audits(id) + [StatusFor(r)]],
                 decided := s.decided[id := s.Decided(id) + [r]])
  {
    assert {id} * s.pending.Keys == {id};
    DecideSingle(s, id, r, throws);
  }

  lemma SettleNone(s: Registry, ids: set<Id>, r: Result, throws: set<Id>)
    requires ids !! s.pending.Keys
    ensures Settle(s, ids, r, throws) == s
  {
    assert ids * s.pending.Keys == {} && {} - throws == {};
    var t := Decide(s, {}, r, throws);
    assert t.terminal == s.terminal && t.audits == s.audits && t.decided == s.decided && t.thrown == s.thrown;
    assert s.pending - ids == s.pending;
  }

  lemma {:induction false} SettleTwice(s: Registry, ids: set<Id>, more: set<Id>, r: Result, throws: set<Id>)
    requires ids !! more
    ensures Settle(Settle(s, ids, r, throws), more, r, throws) == Settle(s, ids + more, r, throws)
  {
    var first, second := ids * s.pending.Keys, more * s.pending.Keys;
    var s1 := Settle(s, ids, r, throws);
    assert more * s1.pending.Keys == second && (ids + more) * s.pending.Keys == first + second;
    assert s1.pending - more == s.pending - (ids + more);
    DecideTwice(s, first, second, r, throws);
    assert Decide(s1, second, r, throws)
        == Decide(Decide(s, first, r, throws), second, r, throws).(pending := s1.pending);
  }

  lemma SettleIgnoresClaims(s: Registry, ids: set<Id>, r: Result, throws: set<Id>, attempts: map<string, Attempt>)
    ensures Settle(s.(attempts := attempts), ids, r, throws) == Settle(s, ids, r, throws).(attempts := attempts)
  {
  }

  lemma {:induction false} DecideTwice(s: Registry, ids: set<Id>, more: set<Id>, r: Result, throws: set<Id>)
    requires ids !! more
    ensures Decide(Decide(s, ids, r, throws), more, r, throws) == Decide(s, ids + more, r, throws)
  {
    LogTwice(s.audits, ids, more, StatusFor(r));
    LogTwice(s.decided, ids - throws, more - throws, r);
    EntombTwice(s.terminal, ids - throws, more - throws, r);
    assert (ids - throws) + (more - throws) == ids + more - throws;
    assert s.thrown + ids * throws + more * throws == s.thrown + (ids + more) * throws;
  }

  lemma EntombTwice(m: map<Id, Result>, ids: set<Id>, more: set<Id>, r: Result)
    ensures Entomb(Entomb(m, ids, r), more, r) == Entomb(m, ids + more, r)
  {
  }

  lemma EntombSingle(m: map<Id, Result>, id: Id, r: Result)
    ensures Entomb(m, {id}, r) == m[id := r]
  {
  }

  lemma EntombNone(m: map<Id, Result>, r: Result)
    ensures Entomb(m, {}, r) == m
  {
  }

  lemma LogSingle<T>(m: map<Id, seq<T>>, id: Id, entry: T)
    ensures Log(m, {id}, entry) == m[id := (if id in m then m[id] else []) + [entry]]
  {
  }

  lemma LogNone<T>(m: map<Id, seq<T>>, entry: T)
    ensures Log(m, {}, entry) == m
  {
  }

  lemma LogTwice<T>(m: map<Id, seq<T>>, ids: set<Id>, more: set<Id>, entry: T)
    requires ids !! more
    ensures Log(Log(m, ids, entry), more, entry) == Log(m, ids + more, entry)
  {
  }
}
