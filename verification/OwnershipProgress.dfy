/**
 What the protocol achieves: that whoever comes alone gets the home, when an owner gives its record
 up, and that an uninstall never does before it is complete.
 */
module OwnershipProgress {
  import opened Wrappers
  import opened OwnershipRecord
  import opened OwnershipProtocol

  // ---------------------------------------------------------------- giving the record up

  /** What an owner that releases leaves behind for the next one to find at the path. */
  predicate MayLeave(q: Proc) {
    match q.kind
    case Daemon => true
    case Restore => q.memory in {Restoring, Installed}
    case Uninstall => q.uninstallComplete
  }

  /**
   A release by itself moves nothing. The record is then unlinked exactly if a daemon holds it, or a
   restore with nothing half done, or an uninstall that is complete; otherwise it is never touched again.
   */
  lemma ReleaseUnlinksExactlyWhen(s: State, p: Instance, ok: bool)
    requires Inv(s) && Enabled(s, Release(p))
    ensures var t := Do(s, Release(p));
            && t.path == Some(p) && t.contents == s.contents
            && (Enabled(t, Unlink(p, ok)) <==> MayLeave(s.procs[p]))
            && (!MayLeave(s.procs[p]) ==> t.procs[p].pc == Finished)
  {
    assert ProcOk(s, p, s.procs[p]);
  }

  /** An uninstall that is marked complete may leave, and the mark does nothing else. */
  lemma CompletionLetsLeave(s: State, p: Instance)
    requires Inv(s) && Enabled(s, CompleteUninstall(p))
    ensures var t := Do(s, CompleteUninstall(p));
            && MayLeave(t.procs[p]) && Enabled(t, Release(p))
            && t == s.(procs := s.procs[p := s.procs[p].(uninstallComplete := true)])
  {
    assert ProcOk(s, p, s.procs[p]);
  }

  /** A crash changes nothing but that the process is gone. */
  lemma CrashLeavesEverything(s: State, p: Instance)
    requires Enabled(s, Crash(p))
    ensures Do(s, Crash(p)) == s.(procs := s.procs[p := s.procs[p].(alive := false)]) && !Live(Do(s, Crash(p)), p)
  {
  }

  /** A contender that gives up before it owns anything is through, and leaves nothing behind. */
  lemma GivingUpLeavesNothing(s: State, p: Instance)
    requires Enabled(s, GiveUp(p))
    ensures Do(s, GiveUp(p)) == s.(procs := s.procs[p := s.procs[p].(pc := Finished)])
  {
  }

  /** An unlink that succeeds frees the path. */
  lemma UnlinkFreesThePath(s: State, p: Instance, ok: bool)
    requires Inv(s) && Enabled(s, Unlink(p, ok))
    ensures Do(s, Unlink(p, ok)).path == (if ok then None else Some(p)) && Do(s, Unlink(p, ok)).procs[p].pc == Finished
  {
    assert ProcOk(s, p, s.procs[p]);
  }

  /** An uninstall that has held the home either still does, is through, or is complete. */
  predicate HasHeld(q: Proc) {
    q.kind.Uninstall? && (q.pc.Holding? || q.pc.Finished? || (q.pc.Unlinking? && q.uninstallComplete))
  }

  lemma HasHeldStays(s: State, a: Action, p: Instance)
    requires Inv(s) && Enabled(s, a) && p in s.procs && HasHeld(s.procs[p])
    ensures p in Do(s, a).procs && HasHeld(Do(s, a).procs[p])
  {
    if a.p != p { OthersUntouched(s, a, p); } else { assert ProcOk(s, p, s.procs[p]); }
  }

  lemma CompletedBy(s: State, a: Action, p: Instance)
    requires Inv(s) && Enabled(s, a) && p in Do(s, a).procs && Do(s, a).procs[p].uninstallComplete
    ensures (p in s.procs && s.procs[p].uninstallComplete) || a == CompleteUninstall(p)
  {
    if p !in s.procs && a.p != p { OnlySpawnAdds(s, a, p); }
    else if a.p != p { OthersUntouched(s, a, p); }
    else if a.Look? {
      var pc := s.procs[p].pc;
      if pc.Claiming? {} else if pc.Renaming? {} else if pc.Closing? {} else {}
    }
  }

  lemma {:induction false} CompleteOnlyByMark(run: seq<State>, acts: seq<Action>, i: nat, p: Instance) returns (k: nat)
    requires IsRun(run, acts) && i < |run| && p in run[i].procs && run[i].procs[p].uninstallComplete
    ensures k < i && acts[k] == CompleteUninstall(p)
  {
    RunKeepsInv(run, acts, i - 1);
    assert Follows(run, acts, i - 1);
    CompletedBy(run[i - 1], acts[i - 1], p);
    if acts[i - 1] == CompleteUninstall(p) { k := i - 1; } else { k := CompleteOnlyByMark(run, acts, i - 1, p); }
  }

  lemma {:induction false} HasHeldFrom(run: seq<State>, acts: seq<Action>, i: nat, j: nat, p: Instance)
    requires IsRun(run, acts) && i <= j < |run| && p in run[i].procs && HasHeld(run[i].procs[p])
    ensures p in run[j].procs && HasHeld(run[j].procs[p])
    decreases j
  {
    if i < j {
      HasHeldFrom(run, acts, i, j - 1, p);
      RunKeepsInv(run, acts, j - 1);
      assert Follows(run, acts, j - 1);
      HasHeldStays(run[j - 1], acts[j - 1], p);
    }
  }

  /** Once an uninstall holds the home, it removes its record only after it has been completed. */
  lemma UninstallLeavesOnlyComplete(
    run: seq<State>, acts: seq<Action>, i: nat, j: nat, p: Instance, ok: bool) returns (k: nat)
    requires IsRun(run, acts) && i <= j < |acts|
    requires p in run[i].procs && run[i].procs[p].kind.Uninstall? && run[i].procs[p].pc.Holding?
    requires acts[j] == Unlink(p, ok)
    ensures k < j && acts[k] == CompleteUninstall(p)
  {
    HasHeldFrom(run, acts, i, j, p);
    assert Follows(run, acts, j);
    k := CompleteOnlyByMark(run, acts, j, p);
  }

  /** Until then, what it leaves at the path stays there, unless another uninstall takes over from it. */
  lemma UnfinishedUninstallStays(run: seq<State>, acts: seq<Action>, i: nat, j: nat, p: Instance)
    requires IsRun(run, acts) && i <= j < |acts|
    requires p in run[i].procs && run[i].procs[p].kind.Uninstall? && run[i].procs[p].pc.Holding?
    requires run[j].path == Some(p) && run[j + 1].path != Some(p)
    requires forall k: nat | k < j :: acts[k] != CompleteUninstall(p)
    ensures acts[j].Look? && acts[j].p in run[j].procs && run[j].procs[acts[j].p].kind.Uninstall? && Dead(run[j], p)
  {
    RunKeepsInv(run, acts, j);
    assert Follows(run, acts, j);
    HowARecordLeaves(run[j], acts[j], p);
    if acts[j] == Unlink(p, true) {
      var k := UninstallLeavesOnlyComplete(run, acts, i, j, p, true);
    } else {
      HasHeldFrom(run, acts, i, j, p);
      assert ProcOk(run[j], acts[j].p, run[j].procs[acts[j].p]);
      assert ContentOk(p, run[j].procs[p], run[j].contents[p]);
    }
  }

  // ---------------------------------------------------------------- alone, with nothing failing

  /** The state after some steps, if each was possible. */
  ghost function DoAll(s: State, acts: seq<Action>): Option<State>
    decreases |acts|
  {
    if acts == [] then Some(s)
    else if Enabled(s, acts[0]) then DoAll(Do(s, acts[0]), acts[1..])
    else None
  }

  lemma DoFirst(s: State, a: Action, rest: seq<Action>)
    requires Enabled(s, a)
    ensures DoAll(s, [a] + rest) == DoAll(Do(s, a), rest)
  {
    assert ([a] + rest)[1..] == rest;
  }

  lemma {:induction false} DoBoth(s: State, first: seq<Action>, second: seq<Action>)
    requires DoAll(s, first).Some?
    ensures DoAll(s, first + second) == DoAll(DoAll(s, first).value, second)
    decreases |first|
  {
    if first == [] {
      assert first + second == second;
    } else {
      assert (first + second)[1..] == first[1..] + second;
      DoBoth(Do(s, first[0]), first[1..], second);
    }
  }

  lemma {:induction false} DoAllKeepsInv(s: State, acts: seq<Action>)
    requires Inv(s) && DoAll(s, acts).Some?
    ensures Inv(DoAll(s, acts).value)
    decreases |acts|
  {
    if acts != [] {
      StepKeepsInv(s, acts[0]);
      DoAllKeepsInv(Do(s, acts[0]), acts[1..]);
    }
  }

  /** Of what one process has become in turn, the last is what counts. */
  lemma LastCounts(s: State, p: Instance, was: Proc, q: Proc)
    ensures SetProc(SetProc(s, p, was), p, q) == SetProc(s, p, q)
  {
  }

  function FirstRecord(p: Instance, q: Proc): Record {
    match q.kind
    case Daemon => Record(p, q.pid, DaemonOwner, Starting)
    case Restore => Record(p, q.pid, RestoreOwner, Restoring)
    case Uninstall => Record(p, q.pid, RestoreOwner, Uninstalling)
  }

  /** From the create to the handle: the record is written, and then its entry is made durable. */
  ghost function Acquiring(p: Instance, ino: Ino): seq<Action> {
    Creating(p, ino) + Settling(p)
  }

  ghost function Creating(p: Instance, ino: Ino): seq<Action> {
    [Open(p, ino)] + ([Publish(p, true, true)] + [])
  }

  ghost function Settling(p: Instance): seq<Action> {
    [SyncEntry(p, true)] + ([DropClaim(p, true, true)] + [])
  }

  lemma RecordIsCreated(s: State, p: Instance, ino: Ino)
    requires Inv(s) && Live(s, p) && s.procs[p].pc.Opening? && s.path == None
    ensures var t := DoAll(s, Creating(p, ino));
            && t.Some? && t.value.path == Some(p) && p in t.value.contents && t.value.claims == s.claims
            && t.value.contents[p] == Full(FirstRecord(p, s.procs[p]))
            && p in t.value.procs && t.value.procs[p] == s.procs[p].(pc := SyncingEntry)
  {
    var s1 := Do(s, Open(p, ino));
    DoFirst(s1, Publish(p, true, true), []);
    DoFirst(s, Open(p, ino), [Publish(p, true, true)] + []);
  }

  lemma RecordIsSettled(s: State, p: Instance)
    requires Inv(s) && Live(s, p) && s.procs[p].pc.SyncingEntry?
    ensures var t := DoAll(s, Settling(p));
            && t.Some? && t.value.path == s.path && t.value.contents == s.contents
            && p in t.value.procs && t.value.procs[p].pc == Holding
            && t.value.claims == s.claims - (if s.procs[p].reclaimed.Some? then {s.procs[p].reclaimed.value} else {})
  {
    var s1 := Do(s, SyncEntry(p, true));
    DoFirst(s1, DropClaim(p, true, true), []);
    DoFirst(s, SyncEntry(p, true), [DropClaim(p, true, true)] + []);
  }

  /** A contender that finds the path free gets the home, with its own first record at the path. */
  lemma FreePathIsTaken(s: State, p: Instance, ino: Ino)
    requires Inv(s) && Live(s, p) && s.procs[p].pc.Opening? && s.path == None
    ensures var t := DoAll(s, Acquiring(p, ino));
            && t.Some? && t.value.path == Some(p) && p in t.value.procs && t.value.procs[p].pc == Holding
            && p in t.value.contents && t.value.contents[p] == Full(FirstRecord(p, s.procs[p]))
            && t.value.claims == s.claims - (if s.procs[p].reclaimed.Some? then {s.procs[p].reclaimed.value} else {})
  {
    RecordIsCreated(s, p, ino);
    DoBoth(s, Creating(p, ino), Settling(p));
    DoAllKeepsInv(s, Creating(p, ino));
    RecordIsSettled(DoAll(s, Creating(p, ino)).value, p);
  }

  /** From the create that finds a record to the decision about it. */
  ghost function Inspecting(p: Instance, ino: Ino, live: bool): seq<Action> {
    [Open(p, ino)] + ([Look(p)] + ([Look(p)] + ([Probe(p, live)] + [])))
  }

  lemma RecordIsInspected(s: State, p: Instance, ino: Ino, live: bool)
    requires Inv(s) && Live(s, p) && s.procs[p].pc.Opening? && s.path.Some? && (Live(s, s.path.value) ==> live)
    ensures var q := s.procs[p];
            var c := At(s);
            DoAll(s, Inspecting(p, ino, live)) ==
            Some(SetProc(s, p, q.(pc := if Decide(q.kind, ReadBack(c), live) == Reclaim then Claiming(Seen(InoAt(s), c))
                                        else Finished)))
  {
    assert ContentOk(s.path.value, s.procs[s.path.value], At(s));
    var q, seen := s.procs[p], Seen(InoAt(s), At(s));
    var s1 := SetProc(s, p, q.(pc := StattingExisting));
    var s2 := SetProc(s, p, q.(pc := ReadingExisting(InoAt(s))));
    var s3 := SetProc(s, p, q.(pc := Probing(seen)));
    var last := q.(pc := if Decide(q.kind, ReadBack(At(s)), live) == Reclaim then Claiming(seen) else Finished);
    LastCounts(s, p, q.(pc := StattingExisting), q.(pc := ReadingExisting(InoAt(s))));
    LastCounts(s, p, q.(pc := ReadingExisting(InoAt(s))), q.(pc := Probing(seen)));
    LastCounts(s, p, q.(pc := Probing(seen)), last);
    assert Do(s, Open(p, ino)) == s1 && Do(s1, Look(p)) == s2 && Do(s2, Look(p)) == s3;
    assert Do(s3, Probe(p, live)) == SetProc(s, p, last);
    DoFirst(s3, Probe(p, live), []);
    DoFirst(s2, Look(p), [Probe(p, live)] + []);
    DoFirst(s1, Look(p), [Look(p)] + ([Probe(p, live)] + []));
    DoFirst(s, Open(p, ino), [Look(p)] + ([Look(p)] + ([Probe(p, live)] + [])));
  }

  /** Made to wait by anything but a readable record of a dead process in a phase it may take over. */
  lemma RefusedExactlyWhen(s: State, p: Instance, ino: Ino, live: bool)
    requires Inv(s) && Live(s, p) && s.procs[p].pc.Opening? && s.path.Some? && (Live(s, s.path.value) ==> live)
    ensures var t := DoAll(s, Inspecting(p, ino, live));
            && t.Some? && t.value.path == s.path && t.value.contents == s.contents && p in t.value.procs
            && (t.value.procs[p].pc == Finished <==>
                live || Blocked(At(s)) || (At(s).record.phase == Uninstalling && !s.procs[p].kind.Uninstall?))
  {
    RecordIsInspected(s, p, ino, live);
    assert ContentOk(s.path.value, s.procs[s.path.value], At(s));
  }

  /** From the claim to the rename. */
  ghost function Taking(p: Instance): seq<Action> {
    [Look(p)] + ([Look(p)] + ([Look(p)] + ([Look(p)] + [])))
  }

  /** A record decided upon, and not claimed by anyone, is moved; the contender then starts over. */
  lemma VettedRecordIsMoved(s: State, p: Instance)
    requires Inv(s) && Live(s, p) && s.procs[p].pc.Claiming? && s.procs[p].attempt + 1 < 8
    requires s.path.Some? && s.procs[p].pc.seen == Seen(InoAt(s), At(s))
    requires At(s).Full? && ClaimOf(s.procs[p].pc.seen) !in s.claims
    ensures var claim := ClaimOf(s.procs[p].pc.seen);
            var q := s.procs[p];
            DoAll(s, Taking(p)) ==
            Some(SetProc(s, p, q.(pc := Opening, attempt := q.attempt + 1, reclaimed := Some(claim)))
                   .(path := None, claims := s.claims + {claim}))
  {
    var q, seen := s.procs[p], s.procs[p].pc.seen;
    var claim := ClaimOf(seen);
    var s0 := s.(claims := s.claims + {claim});
    var s1 := SetProc(s0, p, q.(pc := StattingCurrent(seen)));
    var s2 := SetProc(s0, p, q.(pc := ReadingCurrent(seen, seen.ino)));
    var s3 := SetProc(s0, p, q.(pc := Renaming(seen)));
    var last := q.(pc := Opening, attempt := q.attempt + 1, reclaimed := Some(claim));
    LastCounts(s0, p, q.(pc := StattingCurrent(seen)), q.(pc := ReadingCurrent(seen, seen.ino)));
    LastCounts(s0, p, q.(pc := ReadingCurrent(seen, seen.ino)), q.(pc := Renaming(seen)));
    LastCounts(s0, p, q.(pc := Renaming(seen)), last);
    assert Do(s, Look(p)) == s1 && Do(s1, Look(p)) == s2 && Do(s2, Look(p)) == s3;
    assert Do(s3, Look(p)) == SetProc(s0, p, last).(path := None);
    DoFirst(s3, Look(p), []);
    DoFirst(s2, Look(p), [Look(p)] + []);
    DoFirst(s1, Look(p), [Look(p)] + ([Look(p)] + []));
    DoFirst(s, Look(p), [Look(p)] + ([Look(p)] + ([Look(p)] + [])));
  }

  /**
   A contender that is alone, and none of whose calls fails, takes the home over from a dead process
   whose record it may reclaim and nobody has claimed; and of its own claim nothing is left.
   */
  lemma LoneContenderTakesOver(s: State, p: Instance, ino: Ino, again: Ino)
    requires Inv(s) && Live(s, p) && s.procs[p].pc.Opening? && s.procs[p].attempt + 1 < 8
    requires s.path.Some? && Dead(s, s.path.value) && !Blocked(At(s))
    requires At(s).record.phase == Uninstalling ==> s.procs[p].kind.Uninstall?
    requires Claim(s.path.value, InoAt(s)) !in s.claims
    ensures var t := DoAll(s, Inspecting(p, ino, false) + (Taking(p) + Acquiring(p, again)));
            && t.Some? && t.value.path == Some(p) && p in t.value.procs && t.value.procs[p].pc == Holding
            && p in t.value.contents && t.value.contents[p] == Full(FirstRecord(p, s.procs[p]))
            && t.value.claims == s.claims
  {
    RecordIsInspected(s, p, ino, false);
    RefusedExactlyWhen(s, p, ino, false);
    assert ContentOk(s.path.value, s.procs[s.path.value], At(s));
    DoBoth(s, Inspecting(p, ino, false), Taking(p) + Acquiring(p, again));
    DoAllKeepsInv(s, Inspecting(p, ino, false));
    var s1 := DoAll(s, Inspecting(p, ino, false)).value;
    VettedRecordIsMoved(s1, p);
    DoBoth(s1, Taking(p), Acquiring(p, again));
    DoAllKeepsInv(s1, Taking(p));
    FreePathIsTaken(DoAll(s1, Taking(p)).value, p, again);
  }

  // ---------------------------------------------------------------- and it does not go on for ever

  predicate AttemptsOk(q: Proc) {
    q.attempt <= MAX_ATTEMPTS && (!q.pc.Finished? ==> q.attempt < MAX_ATTEMPTS)
  }

  lemma AttemptsStayOk(s: State, a: Action, p: Instance)
    requires Inv(s) && Enabled(s, a) && p in Do(s, a).procs && (p in s.procs ==> AttemptsOk(s.procs[p]))
    ensures AttemptsOk(Do(s, a).procs[p])
  {
    if a.p != p {
      if p in s.procs { OthersUntouched(s, a, p); } else { OnlySpawnAdds(s, a, p); }
    } else if a.Look? {
      var pc := s.procs[p].pc;
      if pc.Claiming? {} else if pc.Renaming? {} else if pc.Closing? {} else {}
    }
  }

  /** Nobody goes round the loop more than eight times. */
  lemma {:induction false} EightAttempts(run: seq<State>, acts: seq<Action>, i: nat, p: Instance)
    requires IsRun(run, acts) && i < |run| && p in run[i].procs
    ensures run[i].procs[p].attempt <= 8 && (run[i].procs[p].pc.Opening? ==> run[i].procs[p].attempt < 8)
    ensures AttemptsOk(run[i].procs[p])
  {
    RunKeepsInv(run, acts, i - 1);
    assert Follows(run, acts, i - 1);
    if p in run[i - 1].procs { EightAttempts(run, acts, i - 1, p); }
    AttemptsStayOk(run[i - 1], acts[i - 1], p);
  }
}
