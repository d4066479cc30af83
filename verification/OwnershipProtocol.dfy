/**
 The home-ownership protocol: daemons, restores and uninstalls compete for one sibling record.

 Every file-system call is a step of its own (`lstat` and `readFile` of one read included), any
 process may crash between two steps, and any call that can throw may throw. A file is named by
 the instance that created it; the inode NUMBER it gets is arbitrary, so numbers may be reused
 at once. Creation, `mkdir` and `rename` are atomic, instance ids are fresh, a dead process
 stays dead, and the claim directory's name is injective in (instance id, inode).
 */
module OwnershipProtocol {
  import opened Wrappers
  import opened OwnershipRecord

  type Instance = string
  type Ino = nat

  /** A file's content as a reader sees it; `Torn` is whatever does not parse, empty included. */
  datatype Content = Torn | Full(record: Record)

  /** What `readRecord` returned: the stat of one call, the text of the next. */
  datatype Seen = Seen(ino: Ino, content: Content)

  datatype Claim = Claim(instance: Instance, ino: Ino)

  datatype PC =
    | Opening                                  // about to open with 'wx'
    | StattingExisting                         // it existed: about to lstat it
    | ReadingExisting(ino: Ino)                // about to read it
    | Probing(seen: Seen)                      // about to test the owner's pid and decide
    | Claiming(seen: Seen)                     // about to mkdir the claim directory
    | StattingCurrent(seen: Seen)              // claim made: about to lstat the path again
    | ReadingCurrent(seen: Seen, ino: Ino)     // about to read it again
    | Renaming(seen: Seen)                     // unchanged: about to rename it away
    | Publishing                               // file created, still empty
    | SyncingEntry
    | DroppingClaim
    | Holding                                  // the handle is in the caller's hands
    | Closing                                  // acquisition failed after the create
    | Unlinking                                // about to remove the path
    | Finished

  datatype Proc = Proc(
    kind: Kind, pid: int, alive: bool, pc: PC, attempt: nat,
    reclaimed: Option<Claim>, memory: Phase, uninstallComplete: bool)

  datatype State = State(
    path: Option<Instance>,
    inodes: map<Instance, Ino>,
    contents: map<Instance, Content>,
    claims: set<Claim>,
    procs: map<Instance, Proc>)

  datatype Action =
    | Spawn(p: Instance, kind: Kind, pid: int)
    | Crash(p: Instance)
    | GiveUp(p: Instance)                                 // an unexpected error before the create
    | Open(p: Instance, ino: Ino)
    | Look(p: Instance)                                   // the one call the pc announces
    | Probe(p: Instance, live: bool)
    | Publish(p: Instance, written: bool, ok: bool)
    | SyncEntry(p: Instance, ok: bool)
    | DropClaim(p: Instance, removed: bool, ok: bool)
    | Write(p: Instance, content: Content, memory: Phase) // one effect of a mark* or publishEndpoint call
    | CompleteUninstall(p: Instance)
    | Release(p: Instance)
    | Unlink(p: Instance, ok: bool)

  const MAX_ATTEMPTS := 8

  function InitialPhase(kind: Kind): Phase {
    match kind case Daemon => Starting case Restore => Restoring case Uninstall => Uninstalling
  }

  function PhasesOf(kind: Kind): set<Phase> {
    match kind
    case Daemon => {Starting, Listening}
    case Restore => {Restoring, Swapping, Installed, RecoveryRequired}
    case Uninstall => {Uninstalling}
  }

  function OwnRecord(p: Instance, q: Proc, phase: Phase): Record {
    Record(p, q.pid, if q.kind.Daemon? then DaemonOwner else RestoreOwner, phase)
  }

  function ReadBack(c: Content): Option<Record> {
    if c.Torn? then None else Some(c.record)
  }

  function ClaimOf(seen: Seen): Claim
    requires seen.content.Full?
  {
    Claim(seen.content.record.instanceId, seen.ino)
  }

  /** The loop goes round again, at most `MAX_ATTEMPTS` times in all. */
  function Retry(q: Proc): Proc {
    q.(attempt := q.attempt + 1, pc := if q.attempt + 1 < MAX_ATTEMPTS then Opening else Finished)
  }

  /** Between the create and the end of release or cleanup. */
  predicate Owns(pc: PC) {
    pc in {Publishing, SyncingEntry, DroppingClaim, Holding, Closing, Unlinking}
  }

  /** `sameFile(lstatSync(path), ownedStat)`: it compares inode numbers only. */
  predicate StillOwnsPath(s: State, p: Instance) {
    s.path.Some? && s.path.value in s.inodes && p in s.inodes && s.inodes[s.path.value] == s.inodes[p]
  }

  predicate Live(s: State, p: Instance) {
    p in s.procs && s.procs[p].alive
  }

  function At(s: State): Content
    requires s.path.Some?
  {
    if s.path.value in s.contents then s.contents[s.path.value] else Torn
  }

  function InoAt(s: State): Ino
    requires s.path.Some?
  {
    if s.path.value in s.inodes then s.inodes[s.path.value] else 0
  }

  predicate RetainsRecord(q: Proc) {
    && !q.kind.Daemon?
    && (q.memory in {Swapping, RecoveryRequired} || (q.memory.Uninstalling? && !q.uninstallComplete))
  }

  predicate Enabled(s: State, a: Action) {
    match a
    case Spawn(p, _, _) => p !in s.procs
    case Crash(p) => Live(s, p)
    case GiveUp(p) => Live(s, p) && !Owns(s.procs[p].pc)
    case Open(p, _) => Live(s, p) && s.procs[p].pc.Opening?
    case Look(p) =>
      && Live(s, p)
      && var pc := s.procs[p].pc;
         || pc.StattingExisting? || pc.ReadingExisting? || (pc.Claiming? && pc.seen.content.Full?)
         || pc.StattingCurrent? || pc.ReadingCurrent? || (pc.Renaming? && pc.seen.content.Full?) || pc.Closing?
    case Probe(p, live) =>
      // A live owner always answers; a dead one's pid may have been given to someone else.
      && Live(s, p) && s.procs[p].pc.Probing?
      && var c := s.procs[p].pc.seen.content;
         (c.Full? && Live(s, c.record.instanceId) ==> live)
    case Publish(p, written, ok) => Live(s, p) && s.procs[p].pc.Publishing? && (ok ==> written)
    case SyncEntry(p, _) => Live(s, p) && s.procs[p].pc.SyncingEntry?
    case DropClaim(p, removed, ok) => Live(s, p) && s.procs[p].pc.DroppingClaim? && (ok ==> removed)
    case Write(p, content, memory) =>
      && Live(s, p) && s.procs[p].pc.Holding? && StillOwnsPath(s, p)
      && memory in PhasesOf(s.procs[p].kind)
      && (content.Full? ==> content.record.phase in PhasesOf(s.procs[p].kind)
                            && content.record == OwnRecord(p, s.procs[p], content.record.phase))
    case CompleteUninstall(p) => Live(s, p) && s.procs[p].pc.Holding? && s.procs[p].memory.Uninstalling?
    case Release(p) => Live(s, p) && s.procs[p].pc.Holding?
    case Unlink(p, _) => Live(s, p) && s.procs[p].pc.Unlinking?
  }

  function SetProc(s: State, p: Instance, q: Proc): State {
    s.(procs := s.procs[p := q])
  }

  function DoOpen(s: State, p: Instance, ino: Ino): State
    requires p in s.procs
  {
    var q := s.procs[p];
    if s.path.None? then
      State(Some(p), s.inodes[p := ino], s.contents[p := Torn], s.claims, s.procs[p := q.(pc := Publishing)])
    else SetProc(s, p, q.(pc := StattingExisting))
  }

  function DoLook(s: State, p: Instance): State
    requires Enabled(s, Look(p))
  {
    var q := s.procs[p];
    match q.pc
    case StattingExisting =>
      SetProc(s, p, if s.path.None? then Retry(q) else q.(pc := ReadingExisting(InoAt(s))))
    case ReadingExisting(ino) =>
      SetProc(s, p, if s.path.None? then Retry(q) else q.(pc := Probing(Seen(ino, At(s)))))
    case Claiming(seen) =>
      if ClaimOf(seen) in s.claims then SetProc(s, p, Retry(q))
      else SetProc(s, p, q.(pc := StattingCurrent(seen))).(claims := s.claims + {ClaimOf(seen)})
    case StattingCurrent(seen) =>
      SetProc(s, p, if s.path.None? then Retry(q) else q.(pc := ReadingCurrent(seen, InoAt(s))))
    case ReadingCurrent(seen, ino) =>
      SetProc(s, p,
              if s.path.Some? && ino == seen.ino && At(s) == seen.content then q.(pc := Renaming(seen)) else Retry(q))
    case Renaming(seen) =>
      // Whatever is at the path is moved.
      if s.path.None? then SetProc(s, p, Retry(q))
      else SetProc(s, p, Retry(q).(reclaimed := Some(ClaimOf(seen)))).(path := None)
    case Closing =>
      SetProc(s, p, q.(pc := if StillOwnsPath(s, p) then Unlinking else Finished))
  }

  function Do(s: State, a: Action): State
    requires Enabled(s, a)
  {
    match a
    case Spawn(p, kind, pid) =>
      SetProc(s, p, Proc(kind, pid, true, Opening, 0, None, InitialPhase(kind), false))
    case Crash(p) => SetProc(s, p, s.procs[p].(alive := false))
    case GiveUp(p) => SetProc(s, p, s.procs[p].(pc := Finished))
    case Open(p, ino) => DoOpen(s, p, ino)
    case Look(p) => DoLook(s, p)
    case Probe(p, live) =>
      var q := s.procs[p];
      var reclaim := Decide(q.kind, ReadBack(q.pc.seen.content), live) == Reclaim;
      SetProc(s, p, q.(pc := if reclaim then Claiming(q.pc.seen) else Finished))
    case Publish(p, written, ok) =>
      var q := s.procs[p];
      var c := if written then Full(OwnRecord(p, q, InitialPhase(q.kind))) else Torn;
      SetProc(s, p, q.(pc := if ok then SyncingEntry else Closing)).(contents := s.contents[p := c])
    case SyncEntry(p, ok) => SetProc(s, p, s.procs[p].(pc := if ok then DroppingClaim else Closing))
    case DropClaim(p, removed, ok) =>
      var q := s.procs[p];
      var gone := if removed && q.reclaimed.Some? then {q.reclaimed.value} else {};
      SetProc(s, p, q.(pc := if ok then Holding else Closing)).(claims := s.claims - gone)
    case Write(p, content, memory) =>
      SetProc(s, p, s.procs[p].(memory := memory)).(contents := s.contents[p := content])
    case CompleteUninstall(p) => SetProc(s, p, s.procs[p].(uninstallComplete := true))
    case Release(p) =>
      var q := s.procs[p];
      SetProc(s, p, q.(pc := if StillOwnsPath(s, p) && !RetainsRecord(q) then Unlinking else Finished))
    case Unlink(p, ok) =>
      SetProc(s, p, s.procs[p].(pc := Finished)).(path := if ok then None else s.path)
  }

  // ---------------------------------------------------------------- the invariant

  predicate Vetted(pc: PC) {
    pc.Claiming? || Claimed(pc)
  }

  /** The process has made the claim directory and has not renamed yet. */
  predicate Claimed(pc: PC) {
    pc.StattingCurrent? || pc.ReadingCurrent? || pc.Renaming?
  }

  ghost predicate FilesOk(s: State) {
    && s.contents.Keys == s.inodes.Keys
    && s.inodes.Keys <= s.procs.Keys
    && (s.path.Some? ==> s.path.value in s.inodes)
  }

  /** A file is torn, or carries a record its creator wrote. */
  ghost predicate ContentOk(p: Instance, q: Proc, c: Content) {
    c.Full? ==> c.record.phase in PhasesOf(q.kind) && c.record == OwnRecord(p, q, c.record.phase)
  }

  /** `b` created a file and is dead. */
  ghost predicate Dead(s: State, b: Instance) {
    b in s.inodes && b in s.procs && !s.procs[b].alive
  }

  /** The vetted record is still at the path, and its inode is the one that was vetted. */
  ghost predicate Standing(s: State, seen: Seen) {
    && seen.content.Full?
    && s.path == Some(seen.content.record.instanceId)
    && InoAt(s) == seen.ino
  }

  /** A live owner's file is the one at the path. */
  ghost predicate OwnerOk(s: State, p: Instance, q: Proc) {
    && (Owns(q.pc) ==> p in s.inodes && (q.alive ==> s.path == Some(p)))
    && (!Owns(q.pc) && !q.pc.Finished? ==> p !in s.inodes)
    && q.memory in PhasesOf(q.kind)
  }

  /** Whoever passed the decision saw the record of a dead process that it may reclaim. */
  ghost predicate VettedOk(s: State, q: Proc)
    requires Vetted(q.pc)
  {
    && q.pc.seen.content.Full?
    && Dead(s, q.pc.seen.content.record.instanceId)
    && Decide(q.kind, Some(q.pc.seen.content.record), false) == Reclaim
  }

  ghost predicate SeenOk(s: State, q: Proc) {
    && (q.pc.Probing? && q.pc.seen.content.Full? ==> q.pc.seen.content.record.instanceId in s.inodes)
    && (Vetted(q.pc) ==> VettedOk(s, q))
    && (q.pc.ReadingCurrent? && s.path == Some(q.pc.seen.content.record.instanceId) ==> InoAt(s) == q.pc.ino)
    && (q.pc.Renaming? ==> Standing(s, q.pc.seen) && At(s) == q.pc.seen.content)
    && (Claimed(q.pc) && Standing(s, q.pc.seen) ==> ClaimOf(q.pc.seen) in s.claims)
  }

  /** A claim directory that some process may still delete belongs to a record long gone. */
  ghost predicate TombstoneOk(s: State, q: Proc) {
    q.reclaimed.Some? ==> q.reclaimed.value.instance in s.inodes && s.path != Some(q.reclaimed.value.instance)
  }

  ghost predicate ProcOk(s: State, p: Instance, q: Proc) {
    OwnerOk(s, p, q) && SeenOk(s, q) && TombstoneOk(s, q)
  }

  ghost predicate AllProcsOk(s: State) {
    forall p {:trigger ProcOk(s, p, s.procs[p])} | p in s.procs :: ProcOk(s, p, s.procs[p])
  }

  ghost predicate AllContentsOk(s: State)
    requires FilesOk(s)
  {
    forall p {:trigger ContentOk(p, s.procs[p], s.contents[p])} | p in s.contents
      :: ContentOk(p, s.procs[p], s.contents[p])
  }

  /** Two processes never hold the claim on one record that still stands. */
  ghost predicate Rivals(s: State, q: Proc, r: Proc) {
    && Claimed(q.pc) && Claimed(r.pc) && Standing(s, q.pc.seen) && Standing(s, r.pc.seen)
  }

  ghost predicate ClaimsExclusive(s: State) {
    forall p, r {:trigger Rivals(s, s.procs[p], s.procs[r])} | p in s.procs && r in s.procs && p != r ::
      !Rivals(s, s.procs[p], s.procs[r])
  }

  ghost predicate Inv(s: State) {
    FilesOk(s) && AllContentsOk(s) && AllProcsOk(s) && ClaimsExclusive(s)
  }

  // ---------------------------------------------------------------- it is kept by every step

  /** Files nobody wrote are as sound as before. */
  lemma ContentsStay(s: State, t: State)
    requires FilesOk(s) && AllContentsOk(s) && FilesOk(t) && t.contents == s.contents
    requires forall r | r in s.procs ::
               r in t.procs && t.procs[r].kind == s.procs[r].kind && t.procs[r].pid == s.procs[r].pid
    ensures AllContentsOk(t)
  {
    forall r | r in t.contents ensures ContentOk(r, t.procs[r], t.contents[r]) {
      assert ContentOk(r, s.procs[r], s.contents[r]);
    }
  }

  /** No claim has been made, so no two processes have come to hold one record's. */
  lemma ClaimsStayExclusive(s: State, t: State)
    requires ClaimsExclusive(s) && t.path == s.path && t.inodes == s.inodes && t.procs.Keys == s.procs.Keys
    requires forall r | r in t.procs && Claimed(t.procs[r].pc) ::
               Claimed(s.procs[r].pc) && t.procs[r].pc.seen == s.procs[r].pc.seen
    ensures ClaimsExclusive(t)
  {
    forall r, w | r in t.procs && w in t.procs && r != w ensures !Rivals(t, t.procs[r], t.procs[w]) {
      assert !Rivals(s, s.procs[r], s.procs[w]);
    }
  }

  /** A step that touches only its own program counter and flags. */
  lemma PrivateStep(s: State, p: Instance, q: Proc)
    requires Inv(s) && p in s.procs
    requires var old_ := s.procs[p]; q.kind == old_.kind && q.pid == old_.pid && (q.alive ==> old_.alive)
    requires ProcOk(s, p, q)
    requires Claimed(q.pc) ==> Claimed(s.procs[p].pc) && q.pc.seen == s.procs[p].pc.seen
    ensures Inv(SetProc(s, p, q))
  {
    var t := SetProc(s, p, q);
    ContentsStay(s, t);
    forall r | r in t.procs ensures ProcOk(t, r, t.procs[r]) {
      assert r != p ==> ProcOk(s, r, s.procs[r]);
    }
    ClaimsStayExclusive(s, t);
  }

  lemma SpawnStep(s: State, p: Instance, q: Proc)
    requires Inv(s) && p !in s.procs && q.pc.Opening? && q.reclaimed.None? && q.memory in PhasesOf(q.kind)
    ensures Inv(SetProc(s, p, q))
  {
    var t := SetProc(s, p, q);
    ContentsStay(s, t);
    forall r | r in t.procs ensures ProcOk(t, r, t.procs[r]) {
      assert r != p ==> ProcOk(s, r, s.procs[r]);
    }
    forall r, w | r in t.procs && w in t.procs && r != w ensures !Rivals(t, t.procs[r], t.procs[w]) {
      assert r != p && w != p ==> !Rivals(s, s.procs[r], s.procs[w]);
    }
  }

  lemma CreateStep(s: State, p: Instance, ino: Ino)
    requires Inv(s) && Enabled(s, Open(p, ino)) && s.path.None?
    ensures Inv(Do(s, Open(p, ino)))
  {
    var t := Do(s, Open(p, ino));
    assert ProcOk(s, p, s.procs[p]);
    forall r | r in t.procs ensures ProcOk(t, r, t.procs[r]) {
      assert ProcOk(s, r, s.procs[r]);
    }
    forall r, w | r in t.procs && w in t.procs && r != w ensures !Rivals(t, t.procs[r], t.procs[w]) {
      assert ProcOk(s, r, s.procs[r]) && ProcOk(s, w, s.procs[w]);
    }
    forall r | r in t.contents ensures ContentOk(r, t.procs[r], t.contents[r]) {
      assert r != p ==> ContentOk(r, s.procs[r], s.contents[r]);
    }
  }

  lemma MkdirStep(s: State, p: Instance)
    requires Inv(s) && Enabled(s, Look(p)) && s.procs[p].pc.Claiming? && ClaimOf(s.procs[p].pc.seen) !in s.claims
    ensures Inv(Do(s, Look(p)))
  {
    var t := Do(s, Look(p));
    ContentsStay(s, t);
    assert ProcOk(s, p, s.procs[p]);
    forall r | r in t.procs ensures ProcOk(t, r, t.procs[r]) {
      assert ProcOk(s, r, s.procs[r]);
    }
    forall r, w | r in t.procs && w in t.procs && r != w ensures !Rivals(t, t.procs[r], t.procs[w]) {
      assert !Rivals(s, s.procs[r], s.procs[w]);
      assert ProcOk(s, r, s.procs[r]) && ProcOk(s, w, s.procs[w]);
    }
  }

  /** The path is emptied: by the rename of a dead process's record, or by its own live owner. */
  lemma EmptyPathStep(s: State, p: Instance, q: Proc)
    requires Inv(s) && p in s.procs && s.procs[p].alive && s.path.Some?
    requires var o := s.procs[p]; q.kind == o.kind && q.pid == o.pid && q.alive && q.memory == o.memory
    requires !Claimed(q.pc) && !Vetted(q.pc) && !q.pc.Probing? && !Owns(q.pc)
    requires q.pc.Finished? || p !in s.inodes
    requires s.path == Some(p)
             || (s.procs[p].pc.Renaming? && s.procs[p].pc.seen.content.Full?
                 && q.reclaimed == Some(ClaimOf(s.procs[p].pc.seen)))
    requires s.path == Some(p) ==> q.reclaimed == s.procs[p].reclaimed
    ensures Inv(SetProc(s, p, q).(path := None))
  {
    var t := SetProc(s, p, q).(path := None);
    ContentsStay(s, t);
    assert ProcOk(s, p, s.procs[p]);
    forall r | r in t.procs ensures ProcOk(t, r, t.procs[r]) {
      assert ProcOk(s, r, s.procs[r]);
      assert r != p ==> !Rivals(s, s.procs[p], s.procs[r]);
    }
    forall r, w | r in t.procs && w in t.procs && r != w ensures !Rivals(t, t.procs[r], t.procs[w]) {
      assert ProcOk(s, r, s.procs[r]) && ProcOk(s, w, s.procs[w]);
    }
  }

  lemma ContentStep(s: State, p: Instance, q: Proc, c: Content)
    requires Inv(s) && p in s.procs && s.procs[p].alive && Owns(s.procs[p].pc) && Owns(q.pc)
    requires q == s.procs[p].(pc := q.pc, memory := q.memory) && q.memory in PhasesOf(q.kind)
    requires ContentOk(p, q, c)
    ensures Inv(SetProc(s, p, q).(contents := s.contents[p := c]))
  {
    var t := SetProc(s, p, q).(contents := s.contents[p := c]);
    assert ProcOk(s, p, s.procs[p]);
    forall r | r in t.procs ensures ProcOk(t, r, t.procs[r]) {
      assert ProcOk(s, r, s.procs[r]);
    }
    ClaimsStayExclusive(s, t);
    forall r | r in t.contents ensures ContentOk(r, t.procs[r], t.contents[r]) {
      assert r != p ==> ContentOk(r, s.procs[r], s.contents[r]);
    }
  }

  lemma DropClaimStep(s: State, p: Instance, removed: bool, ok: bool)
    requires Inv(s) && Enabled(s, DropClaim(p, removed, ok))
    ensures Inv(Do(s, DropClaim(p, removed, ok)))
  {
    var t := Do(s, DropClaim(p, removed, ok));
    ContentsStay(s, t);
    assert ProcOk(s, p, s.procs[p]);
    forall r | r in t.procs ensures ProcOk(t, r, t.procs[r]) {
      assert ProcOk(s, r, s.procs[r]);
    }
    forall r, w | r in t.procs && w in t.procs && r != w ensures !Rivals(t, t.procs[r], t.procs[w]) {
      assert !Rivals(s, s.procs[r], s.procs[w]);
    }
  }

  lemma FirstLookStep(s: State, p: Instance)
    requires Inv(s) && Enabled(s, Look(p))
    requires s.procs[p].pc.StattingExisting? || s.procs[p].pc.ReadingExisting? || s.procs[p].pc.Closing?
    ensures Inv(Do(s, Look(p)))
  {
    var q := s.procs[p];
    assert ProcOk(s, p, q);
    if q.pc.Closing? {
      PrivateStep(s, p, q.(pc := if StillOwnsPath(s, p) then Unlinking else Finished));
    } else if s.path.None? {
      PrivateStep(s, p, Retry(q));
    } else if q.pc.StattingExisting? {
      PrivateStep(s, p, q.(pc := ReadingExisting(InoAt(s))));
    } else {
      assert ContentOk(s.path.value, s.procs[s.path.value], At(s));
      PrivateStep(s, p, q.(pc := Probing(Seen(q.pc.ino, At(s)))));
    }
  }

  lemma SecondLookStep(s: State, p: Instance)
    requires Inv(s) && Enabled(s, Look(p))
    requires s.procs[p].pc.StattingCurrent? || s.procs[p].pc.ReadingCurrent?
    ensures Inv(Do(s, Look(p)))
  {
    assert ProcOk(s, p, s.procs[p]);
    if s.path.Some? {
      assert ContentOk(s.path.value, s.procs[s.path.value], At(s));
    }
    PrivateStep(s, p, DoLook(s, p).procs[p]);
  }

  lemma LookStep(s: State, p: Instance)
    requires Inv(s) && Enabled(s, Look(p))
    ensures Inv(Do(s, Look(p)))
  {
    var q := s.procs[p];
    assert ProcOk(s, p, q);
    if q.pc.Claiming? {
      if ClaimOf(q.pc.seen) in s.claims { PrivateStep(s, p, Retry(q)); } else { MkdirStep(s, p); }
    } else if q.pc.Renaming? {
      EmptyPathStep(s, p, Retry(q).(reclaimed := Some(ClaimOf(q.pc.seen))));
    } else if q.pc.StattingCurrent? || q.pc.ReadingCurrent? {
      SecondLookStep(s, p);
    } else {
      FirstLookStep(s, p);
    }
  }

  lemma ProbeStep(s: State, p: Instance, live: bool)
    requires Inv(s) && Enabled(s, Probe(p, live))
    ensures Inv(Do(s, Probe(p, live)))
  {
    var q := s.procs[p];
    assert ProcOk(s, p, q);
    if q.pc.seen.content.Full? {
      var b := q.pc.seen.content.record.instanceId;
      if Decide(q.kind, ReadBack(q.pc.seen.content), live) == Reclaim {
        assert b in s.procs && !live;
      }
    }
    PrivateStep(s, p, Do(s, Probe(p, live)).procs[p]);
  }

  lemma OwnerStep(s: State, a: Action)
    requires Inv(s) && Enabled(s, a)
    requires a.SyncEntry? || a.CompleteUninstall? || a.Release? || a.Crash? || a.GiveUp?
    ensures Inv(Do(s, a))
  {
    assert ProcOk(s, a.p, s.procs[a.p]);
    PrivateStep(s, a.p, Do(s, a).procs[a.p]);
  }

  lemma UnlinkStep(s: State, p: Instance, ok: bool)
    requires Inv(s) && Enabled(s, Unlink(p, ok))
    ensures Inv(Do(s, Unlink(p, ok)))
  {
    var q := s.procs[p].(pc := Finished);
    assert ProcOk(s, p, s.procs[p]);
    if ok { EmptyPathStep(s, p, q); } else { PrivateStep(s, p, q); }
  }

  lemma FileStep(s: State, a: Action)
    requires Inv(s) && Enabled(s, a) && (a.Publish? || a.Write?)
    ensures Inv(Do(s, a))
  {
    assert ProcOk(s, a.p, s.procs[a.p]);
    ContentStep(s, a.p, Do(s, a).procs[a.p], Do(s, a).contents[a.p]);
  }

  lemma OpenStep(s: State, p: Instance, ino: Ino)
    requires Inv(s) && Enabled(s, Open(p, ino))
    ensures Inv(Do(s, Open(p, ino)))
  {
    assert ProcOk(s, p, s.procs[p]);
    if s.path.None? { CreateStep(s, p, ino); } else { PrivateStep(s, p, s.procs[p].(pc := StattingExisting)); }
  }

  lemma WriteTouchesOneFile(s: State, p: Instance, c: Content, m: Phase)
    requires Enabled(s, Write(p, c, m))
    ensures Do(s, Write(p, c, m)) ==
            State(s.path, s.inodes, s.contents[p := c], s.claims, s.procs[p := s.procs[p].(memory := m)])
  {
  }

  lemma StepKeepsInv(s: State, a: Action)
    requires Inv(s) && Enabled(s, a)
    ensures Inv(Do(s, a))
  {
    match a
    case Spawn(p, _, _) => SpawnStep(s, p, Do(s, a).procs[p]);
    case Open(p, ino) => OpenStep(s, p, ino);
    case Look(p) => LookStep(s, p);
    case Probe(p, live) => ProbeStep(s, p, live);
    case Publish(_, _, _) => FileStep(s, a);
    case Write(_, _, _) => FileStep(s, a);
    case DropClaim(p, removed, ok) => DropClaimStep(s, p, removed, ok);
    case Unlink(p, ok) => UnlinkStep(s, p, ok);
    case _ => OwnerStep(s, a);
  }

  /** After a loss of power every process is gone; the path, the files and the claims are given. */
  function PowerCut(s: State, path: Option<Instance>, contents: map<Instance, Content>, claims: set<Claim>): State {
    State(path, s.inodes, contents, claims,
          map p | p in s.procs :: s.procs[p].(alive := false, pc := Finished, reclaimed := None))
  }

  lemma PowerCutKeepsInv(s: State, path: Option<Instance>, contents: map<Instance, Content>, claims: set<Claim>)
    requires Inv(s) && (path.Some? ==> path.value in s.inodes) && contents.Keys == s.contents.Keys
    requires forall p {:trigger ContentOk(p, s.procs[p], contents[p])} | p in contents ::
               ContentOk(p, s.procs[p], contents[p])
    ensures Inv(PowerCut(s, path, contents, claims))
  {
    var t := PowerCut(s, path, contents, claims);
    forall p | p in t.contents ensures ContentOk(p, t.procs[p], t.contents[p]) {
      assert ContentOk(p, s.procs[p], contents[p]);
    }
    forall p | p in t.procs ensures ProcOk(t, p, t.procs[p]) {
      assert ProcOk(s, p, s.procs[p]);
    }
  }

  // ---------------------------------------------------------------- over whole runs

  const INITIAL := State(None, map[], map[], {}, map[])

  ghost predicate IsRun(run: seq<State>, acts: seq<Action>) {
    && |run| == |acts| + 1
    && run[0] == INITIAL
    && forall i: nat {:trigger Follows(run, acts, i)} | i < |acts| :: Follows(run, acts, i)
  }

  ghost predicate Follows(run: seq<State>, acts: seq<Action>, i: nat)
    requires i < |acts| && |run| == |acts| + 1
  {
    Enabled(run[i], acts[i]) && run[i + 1] == Do(run[i], acts[i])
  }

  lemma {:induction false} RunKeepsInv(run: seq<State>, acts: seq<Action>, i: nat)
    requires IsRun(run, acts) && i < |run|
    ensures Inv(run[i])
  {
    if i > 0 {
      RunKeepsInv(run, acts, i - 1);
      assert Follows(run, acts, i - 1);
      StepKeepsInv(run[i - 1], acts[i - 1]);
    }
  }

  /** At most one live process is between creating its record and giving it up. */
  lemma MutualExclusion(run: seq<State>, acts: seq<Action>, i: nat, p: Instance, q: Instance)
    requires IsRun(run, acts) && i < |run|
    requires Live(run[i], p) && Owns(run[i].procs[p].pc)
    requires Live(run[i], q) && Owns(run[i].procs[q].pc)
    ensures p == q
    ensures run[i].path == Some(p) && StillOwnsPath(run[i], p)
  {
    RunKeepsInv(run, acts, i);
    assert ProcOk(run[i], p, run[i].procs[p]) && ProcOk(run[i], q, run[i].procs[q]);
  }

  /** The reclaiming rename moves the very record that was vetted, and its owner is dead. */
  lemma ReclaimMovesWhatItVetted(run: seq<State>, acts: seq<Action>, i: nat)
    requires IsRun(run, acts) && i < |acts|
    requires acts[i].Look? && acts[i].p in run[i].procs && run[i].procs[acts[i].p].pc.Renaming?
    ensures var s, q := run[i], run[i].procs[acts[i].p];
            var seen := q.pc.seen;
            && seen.content.Full?
            && var b := seen.content.record.instanceId;
            && s.path == Some(b) && b in s.contents && s.contents[b] == seen.content
            && b in s.inodes && s.inodes[b] == seen.ino
            && b in s.procs && !s.procs[b].alive
            && Decide(q.kind, Some(seen.content.record), false) == Reclaim
            && run[i + 1].path == None
  {
    RunKeepsInv(run, acts, i);
    assert Follows(run, acts, i);
    assert ProcOk(run[i], acts[i].p, run[i].procs[acts[i].p]);
  }

  lemma OthersLeaveThePath(s: State, a: Action)
    requires Enabled(s, a) && s.path.Some?
    requires !a.Unlink? && !(a.Look? && s.procs[a.p].pc.Renaming?)
    ensures Do(s, a).path == s.path
  {
    match a
    case Look(p) => match s.procs[p].pc { case Claiming(_) => case _ => }
    case _ =>
  }

  /** The only two ways a record leaves the path. */
  lemma HowARecordLeaves(s: State, a: Action, b: Instance)
    requires Inv(s) && Enabled(s, a) && s.path == Some(b) && Do(s, a).path != Some(b)
    ensures Do(s, a).path == None
    ensures || (a == Unlink(b, true) && Live(s, b))
            || (&& a.Look? && s.procs[a.p].pc.Renaming? && Dead(s, b) && s.contents[b].Full?
                && Decide(s.procs[a.p].kind, Some(s.contents[b].record), false) == Reclaim)
  {
    if a.Unlink? || (a.Look? && s.procs[a.p].pc.Renaming?) {
      assert ProcOk(s, a.p, s.procs[a.p]);
    } else {
      OthersLeaveThePath(s, a);
    }
  }

  /** Only its own live creator changes a record. */
  lemma OnlyTheOwnerWrites(s: State, a: Action, b: Instance)
    requires Inv(s) && Enabled(s, a) && b in s.contents
    ensures b in Do(s, a).contents && (Do(s, a).contents[b] != s.contents[b] ==> a.p == b && Live(s, b))
  {
    if !a.Spawn? { assert ProcOk(s, a.p, s.procs[a.p]); }
  }

  /** Left behind by a dead process, this is no longer any contender's to move. */
  predicate Blocked(c: Content) {
    c.Torn? || Blocking(c.record.phase)
  }

  lemma BlockedRecordStaysOneStep(s: State, a: Action, b: Instance)
    requires Inv(s) && Enabled(s, a)
    requires s.path == Some(b) && Dead(s, b) && b in s.contents && Blocked(s.contents[b])
    ensures Do(s, a).path == Some(b)
    ensures b in Do(s, a).contents && Do(s, a).contents[b] == s.contents[b]
  {
    OnlyTheOwnerWrites(s, a, b);
    assert ContentOk(b, s.procs[b], s.contents[b]);
    if Do(s, a).path != Some(b) {
      HowARecordLeaves(s, a, b);
    }
  }

  /** A step changes no process but the one that takes it, and forgets no file. */
  lemma OthersUntouched(s: State, a: Action, b: Instance)
    requires Enabled(s, a) && b in s.procs && b != a.p
    ensures b in Do(s, a).procs && Do(s, a).procs[b] == s.procs[b]
    ensures b in s.inodes ==> b in Do(s, a).inodes && Do(s, a).inodes[b] == s.inodes[b]
  {
    if a.Look? {
      var pc := s.procs[a.p].pc;
      if pc.Claiming? {} else if pc.Renaming? {} else {}
    }
  }

  lemma DeadStayDead(s: State, a: Action, b: Instance)
    requires Inv(s) && Enabled(s, a) && Dead(s, b)
    ensures Dead(Do(s, a), b)
  {
    if a.Spawn? { assert a.p !in s.procs; } else { assert Live(s, a.p); }
    OthersUntouched(s, a, b);
  }

  lemma {:induction false} BlockedRecordsStay(run: seq<State>, acts: seq<Action>, i: nat, j: nat, b: Instance)
    requires IsRun(run, acts) && i <= j < |run|
    requires run[i].path == Some(b) && Dead(run[i], b) && b in run[i].contents && Blocked(run[i].contents[b])
    ensures run[j].path == Some(b) && Dead(run[j], b)
    ensures b in run[j].contents && run[j].contents[b] == run[i].contents[b]
    decreases j
  {
    if i < j {
      BlockedRecordsStay(run, acts, i, j - 1, b);
      RunKeepsInv(run, acts, j - 1);
      assert Follows(run, acts, j - 1);
      BlockedRecordStaysOneStep(run[j - 1], acts[j - 1], b);
      DeadStayDead(run[j - 1], acts[j - 1], b);
    }
  }

  /** An interrupted uninstall's record is taken away by another uninstall and by nothing else. */
  lemma InterruptedUninstallYieldsToUninstall(run: seq<State>, acts: seq<Action>, i: nat, b: Instance)
    requires IsRun(run, acts) && i < |acts|
    requires run[i].path == Some(b) && Dead(run[i], b) && b in run[i].contents
    requires run[i].contents[b].Full? && run[i].contents[b].record.phase == Uninstalling
    requires run[i + 1].path != Some(b)
    ensures acts[i].Look? && acts[i].p in run[i].procs && run[i].procs[acts[i].p].kind == Uninstall
  {
    RunKeepsInv(run, acts, i);
    assert Follows(run, acts, i);
    HowARecordLeaves(run[i], acts[i], b);
    assert ContentOk(b, run[i].procs[b], run[i].contents[b]);
    assert ProcOk(run[i], acts[i].p, run[i].procs[acts[i].p]);
  }

  // ---------------------------------------------------------------- what is not promised

  /** The uninstall's rename leaves the path free for whoever creates a file there next. */
  lemma RetryLeavesThePathFree(s: State, u: Instance, d: Instance, ino: Ino)
    requires Inv(s) && Enabled(s, Look(u)) && s.procs[u].pc.Renaming? && s.procs[u].kind == Uninstall
    requires u != d && Enabled(s, Open(d, ino)) && s.procs[d].kind == Daemon
    ensures var t := Do(s, Look(u));
            && t.path == None && Enabled(t, Open(d, ino))
            && Do(t, Open(d, ino)).path == Some(d) && Do(t, Open(d, ino)).procs[d].pc == Publishing
  {
    assert ProcOk(s, u, s.procs[u]);
  }

  /**
   The claim on a dead process's record was made, and nobody alive is on the way from that
   `mkdir` to the rename.
   */
  ghost predicate Abandoned(s: State, b: Instance) {
    && s.path == Some(b) && Dead(s, b) && Claim(b, s.inodes[b]) in s.claims
    && forall p {:trigger Reclaiming(s, p, b)} | Live(s, p) :: !Reclaiming(s, p, b)
  }

  ghost predicate Reclaiming(s: State, p: Instance, b: Instance) {
    && b in s.inodes && p in s.procs && Claimed(s.procs[p].pc)
    && s.procs[p].pc.seen.content.Full? && ClaimOf(s.procs[p].pc.seen) == Claim(b, s.inodes[b])
  }

  lemma OnlyReclaimersMove(s: State, a: Action, b: Instance)
    requires Inv(s) && Enabled(s, a) && s.path == Some(b) && Dead(s, b) && Do(s, a).path != Some(b)
    ensures Live(s, a.p) && Reclaiming(s, a.p, b)
  {
    HowARecordLeaves(s, a, b);
    assert ProcOk(s, a.p, s.procs[a.p]);
  }

  lemma AbandonedPathStays(s: State, a: Action, b: Instance)
    requires Inv(s) && Enabled(s, a) && Abandoned(s, b)
    ensures Do(s, a).path == Some(b)
  {
    if Do(s, a).path != Some(b) { OnlyReclaimersMove(s, a, b); }
  }

  /** A claim that some process will still delete is never the one on a record that stands. */
  lemma AbandonedClaimStays(s: State, a: Action, b: Instance)
    requires Inv(s) && Enabled(s, a) && Abandoned(s, b)
    ensures Claim(b, s.inodes[b]) in Do(s, a).claims
  {
    if a.DropClaim? { assert ProcOk(s, a.p, s.procs[a.p]); }
    if a.Look? { var pc := s.procs[a.p].pc; if pc.Claiming? {} else if pc.Renaming? {} else {} }
  }

  lemma NobodyReclaims(s: State, a: Action, b: Instance, p: Instance)
    requires Inv(s) && Enabled(s, a) && Abandoned(s, b) && Live(Do(s, a), p)
    requires b in Do(s, a).inodes && Do(s, a).inodes[b] == s.inodes[b]
    ensures !Reclaiming(Do(s, a), p, b)
  {
    if p != a.p {
      if p in s.procs {
        OthersUntouched(s, a, p);
        assert !Reclaiming(s, p, b);
      } else {
        OnlySpawnAdds(s, a, p);
      }
    } else if !a.Spawn? {
      assert !Reclaiming(s, p, b);
      if a.Look? {
        var pc := s.procs[p].pc;
        if pc.Claiming? {} else if pc.StattingCurrent? {} else if pc.ReadingCurrent? {} else {}
      }
    }
  }

  lemma OnlySpawnAdds(s: State, a: Action, r: Instance)
    requires Enabled(s, a) && r != a.p && r !in s.procs
    ensures r !in Do(s, a).procs
  {
    if a.Look? { var pc := s.procs[a.p].pc; if pc.Claiming? {} else if pc.Renaming? {} else {} }
  }

  lemma AbandonedStaysOneStep(s: State, a: Action, b: Instance)
    requires Inv(s) && Enabled(s, a) && Abandoned(s, b)
    ensures Abandoned(Do(s, a), b)
  {
    AbandonedPathStays(s, a, b);
    AbandonedClaimStays(s, a, b);
    DeadStayDead(s, a, b);
    if b != a.p { OthersUntouched(s, a, b); }
    forall p | Live(Do(s, a), p) ensures !Reclaiming(Do(s, a), p, b) { NobodyReclaims(s, a, b, p); }
  }

  /** A claim directory left behind by a crashed reclaimer keeps the dead record in place for good. */
  lemma {:induction false} AbandonedClaimBlocksForEver(run: seq<State>, acts: seq<Action>, i: nat, j: nat, b: Instance)
    requires IsRun(run, acts) && i <= j < |run| && Abandoned(run[i], b)
    ensures Abandoned(run[j], b)
    decreases j
  {
    if i < j {
      AbandonedClaimBlocksForEver(run, acts, i, j - 1, b);
      RunKeepsInv(run, acts, j - 1);
      assert Follows(run, acts, j - 1);
      AbandonedStaysOneStep(run[j - 1], acts[j - 1], b);
    }
  }
}
