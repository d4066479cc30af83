/**
 Ownership and swapping together: any number of daemons, restores and uninstalls, crashes and
 losses of power anywhere, and restores that replace the home while they hold the record.

 While it swaps, a restore walks along a `SwapTrace`, which is what every run of
 `HomeSwap.HomeDisk.SwapAndClean` is proved to leave, whatever fails. A loss of power ends every
 process and leaves one of the texts and layouts that are durable at that moment; a path entry
 that no directory sync has followed may be gone, or an earlier one may be back.
 */
module HomeOwnership {
  import opened Wrappers
  import opened OwnershipRecord
  import P = OwnershipProtocol
  import S = HomeSwap

  datatype Swap = Swap(trace: seq<S.Snapshot>, at: nat, oldHome: Option<S.Home>, newHome: S.Home) {
    ghost predicate Ok() {
      at < |trace| && S.SwapTrace(trace, oldHome, newHome)
    }
    function Current(): S.Snapshot
      requires at < |trace|
    {
      trace[at]
    }
  }

  datatype World = World(
    own: P.State,
    target: Option<S.Home>,
    last: Option<S.Home>,                       // the last home there was at the target
    durable: set<Option<S.Home>>,               // what a loss of power may leave at the target
    synced: set<P.Instance>,                    // whose entry at the path has been made durable
    staged: map<P.Instance, Option<S.Home>>,    // what a loss of power left in a swap's staging
    swaps: map<P.Instance, Swap>)

  /** What is found after a loss of power; `text` and `layout` are those of a swap under way. */
  datatype Remains = Remains(
    path: Option<P.Instance>, contents: map<P.Instance, P.Content>, claims: set<P.Claim>,
    target: Option<S.Home>, text: S.Text, layout: S.Layout)

  datatype Event =
    | Protocol(a: P.Action)
    | Begin(p: P.Instance, swap: Swap)
    | Advance(p: P.Instance)
    | PowerLoss(found: Remains)

  /** The record file as the other processes read it. */
  function TextAsContent(p: P.Instance, q: P.Proc, t: S.Text): P.Content {
    if t.None? then P.Torn else P.Full(P.OwnRecord(p, q, t.value))
  }

  function Targets(s: S.Snapshot): set<Option<S.Home>> {
    set l | l in s.durableLayouts :: l.target
  }

  function WriteOf(w: World, p: P.Instance): P.Action
    requires p in w.own.procs && p in w.swaps && w.swaps[p].at + 1 < |w.swaps[p].trace|
  {
    var next := w.swaps[p].trace[w.swaps[p].at + 1];
    P.Write(p, TextAsContent(p, w.own.procs[p], next.text), next.memory)
  }

  predicate Unfinished(w: World, p: P.Instance) {
    p in w.swaps && w.swaps[p].at + 1 < |w.swaps[p].trace|
  }

  /** The record at the path is that of a restore which has begun to swap. */
  predicate SwapAtPath(w: World) {
    w.own.path.Some? && w.own.path.value in w.swaps
  }

  /** Every file is torn or carries a record its creator wrote; what a loss left before is still so. */
  ghost predicate FilesFound(w: World, contents: map<P.Instance, P.Content>) {
    && contents.Keys == w.own.contents.Keys
    && contents.Keys <= w.own.procs.Keys
    && (forall r {:trigger P.ContentOk(r, w.own.procs[r], contents[r])} | r in contents ::
          P.ContentOk(r, w.own.procs[r], contents[r]))
    && (forall r | r in contents && r in w.staged && r !in w.swaps :: contents[r] == w.own.contents[r])
  }

  ghost predicate Possible(w: World, f: Remains) {
    && FilesFound(w, f.contents)
    && (f.path.Some? ==> f.path.value in w.own.inodes)
    && (w.own.path.Some? && w.own.path.value in w.synced ==> f.path == w.own.path)
    && f.target in w.durable
    && (SwapAtPath(w) ==>
          var p := w.own.path.value;
          && w.swaps[p].at < |w.swaps[p].trace|
          && f.text in w.swaps[p].Current().durableTexts && f.layout in w.swaps[p].Current().durableLayouts
          && f.target == f.layout.target
          && p in f.contents && f.contents[p] == TextAsContent(p, w.own.procs[p], f.text))
  }

  ghost predicate Enabled(w: World, e: Event) {
    match e
    case Protocol(a) =>
      // A restore marks its record only by swapping, and releases it only after the swap's end.
      && P.Enabled(w.own, a)
      && (a.Write? ==> !w.own.procs[a.p].kind.Restore?)
      && (a.Release? ==> !Unfinished(w, a.p))
    case Begin(p, swap) =>
      && P.Live(w.own, p) && w.own.procs[p].pc.Holding? && w.own.procs[p].kind.Restore?
      && p !in w.swaps
      && swap.at == 0 && swap.Ok() && swap.oldHome == w.target
    case Advance(p) =>
      && P.Live(w.own, p) && Unfinished(w, p) && P.Enabled(w.own, WriteOf(w, p))
    case PowerLoss(f) => Possible(w, f)
  }

  function SyncedBy(a: P.Action): set<P.Instance> {
    if a.SyncEntry? && a.ok then {a.p} else {}
  }

  /** A loss of power may undo the move of a new home; the last home is then again the old one. */
  function AfterPowerLoss(w: World, f: Remains): World {
    World(
      P.PowerCut(w.own, f.path, f.contents, f.claims),
      f.target,
      if !SwapAtPath(w) then w.last
      else if f.target.Some? then f.target else w.swaps[w.own.path.value].oldHome,
      {f.target},
      if f.path.Some? then w.synced + {f.path.value} else w.synced,
      if SwapAtPath(w) then w.staged[w.own.path.value := f.layout.previous] else w.staged,
      map[])
  }

  ghost function Do(w: World, e: Event): World
    requires Enabled(w, e)
  {
    match e
    case Protocol(a) => w.(own := P.Do(w.own, a), synced := w.synced + SyncedBy(a))
    case Begin(p, swap) => w.(swaps := w.swaps[p := swap])
    case Advance(p) =>
      var next := w.swaps[p].(at := w.swaps[p].at + 1);
      var found := next.Current().layout.target;
      w.(own := P.Do(w.own, WriteOf(w, p)), target := found, last := if found.Some? then found else w.last,
         durable := Targets(next.Current()), swaps := w.swaps[p := next])
    case PowerLoss(f) => AfterPowerLoss(w, f)
  }

  // ---------------------------------------------------------------- the invariant

  /** The target is what it last was, if it ever held a home. */
  ghost predicate Whole(w: World) {
    w.target == w.last
  }

  /** Whole, and a loss of power would leave it so. */
  ghost predicate Firm(w: World) {
    Whole(w) && w.durable == {w.target}
  }

  /** What is in the staging directory of `p`. */
  function Staged(w: World, p: P.Instance): Option<S.Home> {
    if p in w.swaps && w.swaps[p].at < |w.swaps[p].trace| then w.swaps[p].Current().layout.previous
    else if p in w.staged then w.staged[p]
    else None
  }

  /** The last home is in the staging directory of `p`, whose record blocks everyone. */
  ghost predicate Recoverable(w: World, p: P.Instance) {
    && w.own.path == Some(p)
    && p in w.own.contents && P.Blocked(w.own.contents[p])
    && w.last.Some? && Staged(w, p) == w.last
  }

  /** What a loss of power may leave of a swap whose record is at the path. */
  ghost predicate Stranded(w: World, p: P.Instance) {
    && Recoverable(w, p) && w.target.None? && w.durable == {None}
    && P.Dead(w.own, p) && p in w.staged && p in w.synced && p !in w.swaps
  }

  /** A restore that has not begun to swap still has its first record, or none that parses. */
  ghost predicate Untouched(w: World, p: P.Instance, q: P.Proc) {
    && q.memory == Restoring
    && (p in w.own.contents && w.own.contents[p].Full? ==> w.own.contents[p].record.phase == Restoring)
    && (q.pc in {P.SyncingEntry, P.DroppingClaim, P.Holding} ==> p in w.own.contents && w.own.contents[p].Full?)
  }

  /** The swap's current snapshot is what the record and the target show. */
  ghost predicate Shown(w: World, p: P.Instance, q: P.Proc, x: Swap)
    requires x.Ok()
  {
    && p in w.own.contents
    && w.own.contents[p] == TextAsContent(p, q, x.Current().text)
    && w.target == x.Current().layout.target
    && w.durable == Targets(x.Current())
    && w.last == if w.target == Some(x.newHome) then w.target else x.oldHome
  }

  ghost predicate InStep(w: World, p: P.Instance, q: P.Proc) {
    && p in w.swaps && w.swaps[p].Ok()
    && (q.pc.Holding? || q.pc.Unlinking? || q.pc.Finished?)
    && q.memory == w.swaps[p].Current().memory
    && (q.pc.Unlinking? ==> S.Steady(w.swaps[p].Current(), w.swaps[p].oldHome, w.swaps[p].newHome))
    && (w.own.path == Some(p) ==> Shown(w, p, q, w.swaps[p]))
  }

  ghost predicate RestoreOk(w: World, p: P.Instance, q: P.Proc) {
    && (if p in w.swaps then q.kind.Restore? && InStep(w, p, q)
        else q.kind.Restore? && q.alive ==> Untouched(w, p, q))
    && (q.pc.DroppingClaim? || q.pc.Holding? || p in w.swaps ==> p in w.synced)
  }

  ghost predicate Inv(w: World) {
    && P.Inv(w.own)
    && w.swaps.Keys <= w.own.inodes.Keys
    && (forall p {:trigger RestoreOk(w, p, w.own.procs[p])} | p in w.own.procs :: RestoreOk(w, p, w.own.procs[p]))
    && (SwapAtPath(w) || Firm(w) || (w.own.path.Some? && Stranded(w, w.own.path.value)))
  }

  lemma SteadyMeansOneTarget(s: S.Snapshot, old_: Option<S.Home>, new_: S.Home)
    requires S.Steady(s, old_, new_) && s.layout in s.durableLayouts
    ensures Targets(s) == {s.layout.target}
  {
    assert s.layout.target in Targets(s);
  }

  /** What the world shows of a swap at the path. */
  lemma SwapShows(w: World, p: P.Instance)
    requires Inv(w) && w.own.path == Some(p) && p in w.swaps
    ensures p in w.own.procs && w.swaps[p].Ok() && Shown(w, p, w.own.procs[p], w.swaps[p])
    ensures Whole(w) || (Recoverable(w, p) && w.target.None?)
    ensures P.Blocked(w.own.contents[p]) || Firm(w)
    ensures S.Steady(w.swaps[p].Current(), w.swaps[p].oldHome, w.swaps[p].newHome) ==> Firm(w)
    ensures p in w.synced
  {
    var q, x := w.own.procs[p], w.swaps[p];
    assert RestoreOk(w, p, q);
    S.TraceAtAnyPoint(x.trace, x.at, x.oldHome, x.newHome);
    S.SafeThroughout(x.trace, x.at, x.oldHome, x.newHome);
    if S.Steady(x.Current(), x.oldHome, x.newHome) { SteadyMeansOneTarget(x.Current(), x.oldHome, x.newHome); }
  }

  /** The home is never stranded. */
  lemma NeverStranded(w: World)
    requires Inv(w)
    ensures Whole(w) || (w.own.path.Some? && Recoverable(w, w.own.path.value) && w.target.None?)
  {
    if SwapAtPath(w) { SwapShows(w, w.own.path.value); }
  }

  // ---------------------------------------------------------------- it is kept by every event

  lemma PathAfter(s: P.State, a: P.Action)
    requires P.Inv(s) && P.Enabled(s, a)
    ensures || P.Do(s, a).path == s.path
            || P.Do(s, a).path == None
            || (P.Do(s, a).path == Some(a.p) && a.p !in s.inodes)
  {
    if s.path.Some? {
      if P.Do(s, a).path != s.path { P.HowARecordLeaves(s, a, s.path.value); }
    } else {
      if a.Open? { assert P.ProcOk(s, a.p, s.procs[a.p]); }
      if a.Look? { var pc := s.procs[a.p].pc; if pc.Claiming? {} else if pc.Renaming? {} else {} }
    }
  }

  lemma OtherRestoresKept(w: World, a: P.Action, r: P.Instance)
    requires Inv(w) && Enabled(w, Protocol(a)) && r in w.own.procs && r != a.p
    ensures var v := Do(w, Protocol(a)); r in v.own.procs && RestoreOk(v, r, v.own.procs[r])
  {
    P.OthersUntouched(w.own, a, r);
    PathAfter(w.own, a);
    if r in w.own.contents {
      P.OnlyTheOwnerWrites(w.own, a, r);
    } else {
      NoFileAppearsFor(w.own, a, r);
    }
    SameRestore(w, Do(w, Protocol(a)), r, a.p);
  }

  /** Nothing that concerns `r` has changed, except that its record may have left the path. */
  lemma SameRestore(w: World, v: World, r: P.Instance, other: P.Instance)
    requires r != other && r in w.own.procs && r in v.own.procs && RestoreOk(w, r, w.own.procs[r])
    requires v.own.procs[r] == w.own.procs[r]
    requires v.swaps == w.swaps && v.target == w.target && v.last == w.last && v.durable == w.durable
    requires w.synced <= v.synced
    requires r in w.own.contents <==> r in v.own.contents
    requires r in w.own.contents ==> v.own.contents[r] == w.own.contents[r]
    requires v.own.path == w.own.path || v.own.path == None || v.own.path == Some(other)
    ensures RestoreOk(v, r, v.own.procs[r])
  {
  }

  lemma NoFileAppearsFor(s: P.State, a: P.Action, r: P.Instance)
    requires P.Inv(s) && P.Enabled(s, a) && r !in s.contents && r != a.p
    ensures r !in P.Do(s, a).contents
  {
    if a.Look? { var pc := s.procs[a.p].pc; if pc.Claiming? {} else if pc.Renaming? {} else {} }
  }

  /** A restore between its swap's begin and its own end can only crash, release and unlink. */
  lemma SwappingRestoreActs(w: World, a: P.Action)
    requires Inv(w) && Enabled(w, Protocol(a)) && a.p in w.swaps
    ensures a.Crash? || a.GiveUp? || a.Release? || a.Unlink?
  {
    assert RestoreOk(w, a.p, w.own.procs[a.p]);
    assert P.ProcOk(w.own, a.p, w.own.procs[a.p]);
  }

  lemma SwappingRestoreKept(w: World, a: P.Action)
    requires Inv(w) && Enabled(w, Protocol(a)) && a.p in w.swaps
    ensures var v := Do(w, Protocol(a)); a.p in v.own.procs && RestoreOk(v, a.p, v.own.procs[a.p])
  {
    SwappingRestoreActs(w, a);
    assert RestoreOk(w, a.p, w.own.procs[a.p]);
    var x := w.swaps[a.p];
    if a.Release? {
      assert x.at == |x.trace| - 1;
      assert Blocking(x.Current().memory) == (x.Current().memory in {Swapping, RecoveryRequired});
    }
  }

  lemma PlainRestoreKept(w: World, a: P.Action)
    requires Inv(w) && Enabled(w, Protocol(a)) && a.p !in w.swaps && !a.Spawn? && !a.Look? && !a.Probe?
    ensures var v := Do(w, Protocol(a)); a.p in v.own.procs && RestoreOk(v, a.p, v.own.procs[a.p])
  {
    assert RestoreOk(w, a.p, w.own.procs[a.p]);
    assert P.ProcOk(w.own, a.p, w.own.procs[a.p]);
  }

  /** What a contender looks at changes no file and nothing of its own handle. */
  lemma LookingChangesNoFile(s: P.State, p: P.Instance)
    requires P.Enabled(s, P.Look(p))
    ensures var t := P.Do(s, P.Look(p));
            && p in t.procs && t.contents == s.contents
            && t.procs[p].kind == s.procs[p].kind && t.procs[p].memory == s.procs[p].memory
            && t.procs[p].alive == s.procs[p].alive
            && t.procs[p].pc !in {P.SyncingEntry, P.DroppingClaim, P.Holding}
  {
    var pc := s.procs[p].pc;
    if pc.Claiming? {} else if pc.Renaming? {} else if pc.Closing? {} else {}
  }

  lemma LookingRestoreKept(w: World, a: P.Action)
    requires Inv(w) && Enabled(w, Protocol(a)) && a.p !in w.swaps && (a.Look? || a.Probe?)
    ensures var v := Do(w, Protocol(a)); a.p in v.own.procs && RestoreOk(v, a.p, v.own.procs[a.p])
  {
    assert RestoreOk(w, a.p, w.own.procs[a.p]);
    if a.Look? { LookingChangesNoFile(w.own, a.p); }
  }

  lemma SpawnedRestoreOk(w: World, a: P.Action)
    requires Inv(w) && Enabled(w, Protocol(a)) && a.Spawn?
    ensures var v := Do(w, Protocol(a)); a.p in v.own.procs && RestoreOk(v, a.p, v.own.procs[a.p])
  {
  }

  /** While the home is not firmly in place, the record of the swap that moved it stays where it is. */
  lemma UnfirmHomeIsGuarded(w: World, a: P.Action)
    requires Inv(w) && Enabled(w, Protocol(a)) && !Firm(w)
    ensures P.Do(w.own, a).path == w.own.path
  {
    var p := w.own.path.value;
    if SwapAtPath(w) {
      SwapShows(w, p);
      assert RestoreOk(w, p, w.own.procs[p]);
      if P.Do(w.own, a).path != Some(p) { P.HowARecordLeaves(w.own, a, p); }
    } else {
      P.BlockedRecordStaysOneStep(w.own, a, p);
    }
  }

  lemma StrandedStays(w: World, a: P.Action, p: P.Instance)
    requires Inv(w) && Enabled(w, Protocol(a)) && Stranded(w, p)
    ensures Stranded(Do(w, Protocol(a)), p)
  {
    P.BlockedRecordStaysOneStep(w.own, a, p);
    P.DeadStayDead(w.own, a, p);
  }

  /** Whatever was at the path, the home is firm, or a swap's record or a stranded one is there. */
  lemma ProtocolGuardsTheHome(w: World, a: P.Action)
    requires Inv(w) && Enabled(w, Protocol(a))
    ensures var v := Do(w, Protocol(a));
            SwapAtPath(v) || Firm(v) || (v.own.path.Some? && Stranded(v, v.own.path.value))
  {
    if !Firm(w) {
      UnfirmHomeIsGuarded(w, a);
      if !SwapAtPath(w) { StrandedStays(w, a, w.own.path.value); }
    }
  }

  lemma ProtocolKeepsInv(w: World, a: P.Action)
    requires Inv(w) && Enabled(w, Protocol(a))
    ensures Inv(Do(w, Protocol(a)))
  {
    var v := Do(w, Protocol(a));
    P.StepKeepsInv(w.own, a);
    forall r | r in v.own.procs ensures RestoreOk(v, r, v.own.procs[r]) {
      if r == a.p {
        if a.Spawn? { SpawnedRestoreOk(w, a); }
        else if a.p in w.swaps { SwappingRestoreKept(w, a); }
        else if a.Look? || a.Probe? { LookingRestoreKept(w, a); }
        else { PlainRestoreKept(w, a); }
      } else {
        if r !in w.own.procs { P.OnlySpawnAdds(w.own, a, r); }
        OtherRestoresKept(w, a, r);
      }
    }
    forall r | r in w.swaps ensures r in v.own.inodes {
      if r != a.p { P.OthersUntouched(w.own, a, r); } else { P.OnlyTheOwnerWrites(w.own, a, r); }
    }
    ProtocolGuardsTheHome(w, a);
  }

  /** A restore about to swap owns the path, and finds the home firm. */
  lemma FirmBeforeTheSwap(w: World, p: P.Instance)
    requires Inv(w) && P.Live(w.own, p) && w.own.procs[p].pc.Holding? && p !in w.swaps
    ensures w.own.path == Some(p) && Firm(w)
  {
    assert P.ProcOk(w.own, p, w.own.procs[p]);
  }

  lemma BegunInStep(w: World, p: P.Instance, swap: Swap)
    requires Inv(w) && Enabled(w, Begin(p, swap))
    ensures RestoreOk(Do(w, Begin(p, swap)), p, w.own.procs[p])
  {
    FirmBeforeTheSwap(w, p);
    assert RestoreOk(w, p, w.own.procs[p]);
    assert P.ContentOk(p, w.own.procs[p], w.own.contents[p]);
    S.TraceAtAnyPoint(swap.trace, 0, swap.oldHome, swap.newHome);
    S.SafeThroughout(swap.trace, 0, swap.oldHome, swap.newHome);
    SteadyMeansOneTarget(swap.trace[0], swap.oldHome, swap.newHome);
  }

  lemma BeginKeepsInv(w: World, p: P.Instance, swap: Swap)
    requires Inv(w) && Enabled(w, Begin(p, swap))
    ensures Inv(Do(w, Begin(p, swap)))
  {
    var v := Do(w, Begin(p, swap));
    FirmBeforeTheSwap(w, p);
    BegunInStep(w, p, swap);
    forall r | r in v.own.procs ensures RestoreOk(v, r, v.own.procs[r]) {
      assert RestoreOk(w, r, w.own.procs[r]);
    }
  }

  /** A swap can always take its next step: the record at the path is its own. */
  lemma AdvanceIsPossible(w: World, p: P.Instance)
    requires Inv(w) && P.Live(w.own, p) && w.own.procs[p].pc.Holding? && Unfinished(w, p)
    ensures Enabled(w, Advance(p))
  {
    var x := w.swaps[p];
    assert RestoreOk(w, p, w.own.procs[p]);
    assert P.ProcOk(w.own, p, w.own.procs[p]);
    S.TraceAtAnyPoint(x.trace, x.at + 1, x.oldHome, x.newHome);
  }

  /** What one step of a swap changes. */
  lemma AdvanceEffect(w: World, p: P.Instance)
    requires Enabled(w, Advance(p)) && w.swaps[p].Ok()
    ensures var x := w.swaps[p].(at := w.swaps[p].at + 1);
            var q := w.own.procs[p];
            var found := x.Current().layout.target;
            Do(w, Advance(p)) ==
            World(
              P.State(w.own.path, w.own.inodes,
                      w.own.contents[p := TextAsContent(p, q, x.Current().text)],
                      w.own.claims, w.own.procs[p := q.(memory := x.Current().memory)]),
              found, if found.Some? then found else w.last, Targets(x.Current()),
              w.synced, w.staged, w.swaps[p := x])
  {
    P.WriteTouchesOneFile(w.own, p, WriteOf(w, p).content, WriteOf(w, p).memory);
  }

  lemma AdvancedInStep(w: World, v: World, p: P.Instance, q: P.Proc, x: Swap)
    requires p in w.swaps && InStep(w, p, q) && q.pc.Holding?
    requires w.own.path == Some(p) && x == w.swaps[p].(at := w.swaps[p].at + 1) && x.Ok()
    requires v.own.path == w.own.path && v.swaps == w.swaps[p := x]
    requires v.own.contents == w.own.contents[p := TextAsContent(p, q, x.Current().text)]
    requires v.target == x.Current().layout.target && v.durable == Targets(x.Current())
    requires v.last == if v.target.Some? then v.target else w.last
    ensures InStep(v, p, q.(memory := x.Current().memory))
  {
    S.TraceAtAnyPoint(x.trace, x.at - 1, x.oldHome, x.newHome);
    S.TraceAtAnyPoint(x.trace, x.at, x.oldHome, x.newHome);
  }

  lemma AdvancedSwapInStep(w: World, p: P.Instance)
    requires Inv(w) && Enabled(w, Advance(p))
    ensures var v := Do(w, Advance(p));
            && w.own.path == Some(p) && v.own.path == Some(p)
            && p in v.own.procs && RestoreOk(v, p, v.own.procs[p])
  {
    var q := w.own.procs[p];
    assert RestoreOk(w, p, q);
    assert P.ProcOk(w.own, p, q);
    AdvanceEffect(w, p);
    AdvancedInStep(w, Do(w, Advance(p)), p, q, w.swaps[p].(at := w.swaps[p].at + 1));
  }

  lemma AdvanceLeavesOthers(w: World, p: P.Instance, r: P.Instance)
    requires Inv(w) && Enabled(w, Advance(p)) && w.own.path == Some(p) && w.swaps[p].Ok()
    requires r in w.own.procs && r != p
    ensures var v := Do(w, Advance(p)); r in v.own.procs && RestoreOk(v, r, v.own.procs[r])
  {
    AdvanceEffect(w, p);
    assert RestoreOk(w, r, w.own.procs[r]);
  }

  lemma AdvanceKeepsInv(w: World, p: P.Instance)
    requires Inv(w) && Enabled(w, Advance(p))
    ensures Inv(Do(w, Advance(p)))
  {
    P.StepKeepsInv(w.own, WriteOf(w, p));
    assert RestoreOk(w, p, w.own.procs[p]);
    AdvancedSwapInStep(w, p);
    AdvanceEffect(w, p);
    var v := Do(w, Advance(p));
    forall r | r in v.own.procs ensures RestoreOk(v, r, v.own.procs[r]) {
      if r != p { AdvanceLeavesOthers(w, p, r); }
    }
  }

  /** What a loss of power makes of a swap whose record is at the path. */
  lemma PowerLossDuringASwap(w: World, f: Remains, p: P.Instance)
    requires Inv(w) && Enabled(w, PowerLoss(f)) && w.own.path == Some(p) && p in w.swaps
    ensures var v := Do(w, PowerLoss(f)); Firm(v) || Stranded(v, p)
    ensures f.target in {w.swaps[p].oldHome, Some(w.swaps[p].newHome), None}
    ensures !P.Blocked(w.own.contents[p]) ==> f.target == w.target
  {
    var x := w.swaps[p];
    SwapShows(w, p);
    S.PowerLossAtAnyPoint(x.trace, x.at, f.layout, f.text, x.oldHome, x.newHome);
    assert P.ProcOk(w.own, p, w.own.procs[p]);
  }

  lemma PowerLossKeepsInv(w: World, f: Remains)
    requires Inv(w) && Enabled(w, PowerLoss(f))
    ensures Inv(Do(w, PowerLoss(f)))
  {
    var v := Do(w, PowerLoss(f));
    P.PowerCutKeepsInv(w.own, f.path, f.contents, f.claims);
    if SwapAtPath(w) {
      SwapShows(w, w.own.path.value);
      PowerLossDuringASwap(w, f, w.own.path.value);
    }
  }

  /** Any durable text and layout of the swap at the path can be what a loss of power leaves. */
  lemma PowerLossIsPossible(w: World, p: P.Instance, t: S.Text, l: S.Layout)
    requires Inv(w) && w.own.path == Some(p) && p in w.swaps && w.swaps[p].at < |w.swaps[p].trace|
    requires t in w.swaps[p].Current().durableTexts && l in w.swaps[p].Current().durableLayouts
    ensures var c := w.own.contents[p := TextAsContent(p, w.own.procs[p], t)];
            Enabled(w, PowerLoss(Remains(Some(p), c, w.own.claims, l.target, t, l)))
  {
    var x, q := w.swaps[p], w.own.procs[p];
    SwapShows(w, p);
    assert RestoreOk(w, p, q);
    S.TraceAtAnyPoint(x.trace, x.at, x.oldHome, x.newHome);
    assert S.RestoreText(t);
    var c := w.own.contents[p := TextAsContent(p, q, t)];
    forall r | r in c ensures P.ContentOk(r, w.own.procs[r], c[r]) {
      if r != p { assert P.ContentOk(r, w.own.procs[r], w.own.contents[r]); }
    }
  }

  lemma EventKeepsInv(w: World, e: Event)
    requires Inv(w) && Enabled(w, e)
    ensures Inv(Do(w, e))
  {
    match e
    case Protocol(a) => ProtocolKeepsInv(w, a);
    case Begin(p, swap) => BeginKeepsInv(w, p, swap);
    case Advance(p) => AdvanceKeepsInv(w, p);
    case PowerLoss(f) => PowerLossKeepsInv(w, f);
  }

  /**
   How the home at the target goes: into the staging directory behind a record that blocks; or
   for the new home, then in place; or by a loss of power, which takes back a new home that no
   durable record calls installed, and leaves the one it replaced at the target or in staging.
   */
  lemma HowAHomeLeaves(w: World, e: Event, h: S.Home)
    requires Inv(w) && Enabled(w, e) && w.target == Some(h) && Do(w, e).target != Some(h)
    ensures var v := Do(w, e);
            && SwapAtPath(w)
            && var p := w.own.path.value;
               var x := w.swaps[p];
               && v.own.path == Some(p)
               && (e == Advance(p) || (e.PowerLoss? && P.Blocked(w.own.contents[p])))
               && ((v.target.None? && v.last == Some(h) && Recoverable(v, p))
                   || v.target == Some(x.newHome)
                   || (e.PowerLoss? && h == x.newHome && v.last == x.oldHome && (Whole(v) || Recoverable(v, p))))
  {
    var v := Do(w, e);
    match e
    case Advance(p) =>
      AdvancedSwapInStep(w, p);
      AdvancedTarget(w, p, h);
    case PowerLoss(f) =>
      if SwapAtPath(w) {
        var p := w.own.path.value;
        SwapShows(w, p);
        PowerLossDuringASwap(w, f, p);
      }
    case _ =>
  }

  lemma AdvancedTarget(w: World, p: P.Instance, h: S.Home)
    requires Inv(w) && Enabled(w, Advance(p)) && w.own.path == Some(p) && w.target == Some(h)
    requires Do(w, Advance(p)).target != Some(h)
    ensures var v := Do(w, Advance(p));
            (v.target.None? && v.last == Some(h) && Recoverable(v, p)) || v.target == Some(w.swaps[p].newHome)
  {
    var x := w.swaps[p];
    SwapShows(w, p);
    AdvanceKeepsInv(w, p);
    AdvanceEffect(w, p);
    S.TraceAtAnyPoint(x.trace, x.at, x.oldHome, x.newHome);
    SwapShows(Do(w, Advance(p)), p);
  }

  // ---------------------------------------------------------------- over whole runs

  function Start(target: Option<S.Home>): World {
    World(P.INITIAL, target, target, {target}, {}, map[], map[])
  }

  ghost predicate IsRun(ws: seq<World>, es: seq<Event>, target: Option<S.Home>) {
    && |ws| == |es| + 1
    && ws[0] == Start(target)
    && forall i | 0 <= i < |es| :: Enabled(ws[i], es[i]) && ws[i + 1] == Do(ws[i], es[i])
  }

  lemma {:induction false} RunKeepsInv(ws: seq<World>, es: seq<Event>, target: Option<S.Home>, i: nat)
    requires IsRun(ws, es, target) && i < |ws|
    ensures Inv(ws[i])
  {
    if i > 0 {
      RunKeepsInv(ws, es, target, i - 1);
      EventKeepsInv(ws[i - 1], es[i - 1]);
    }
  }

  /**
   At every moment of every run, the last home there was is at the target, or it lies in the
   staging directory behind a record that no contender moves.
   */
  lemma HomeIsNeverStranded(ws: seq<World>, es: seq<Event>, target: Option<S.Home>, i: nat)
    requires IsRun(ws, es, target) && i < |ws|
    ensures Whole(ws[i]) || (ws[i].own.path.Some? && Recoverable(ws[i], ws[i].own.path.value))
  {
    RunKeepsInv(ws, es, target, i);
    NeverStranded(ws[i]);
  }

  /** Nor are there two owners, losses of power or not. */
  lemma OneOwner(ws: seq<World>, es: seq<Event>, target: Option<S.Home>, i: nat, p: P.Instance, q: P.Instance)
    requires IsRun(ws, es, target) && i < |ws|
    requires P.Live(ws[i].own, p) && P.Owns(ws[i].own.procs[p].pc)
    requires P.Live(ws[i].own, q) && P.Owns(ws[i].own.procs[q].pc)
    ensures p == q && ws[i].own.path == Some(p)
  {
    RunKeepsInv(ws, es, target, i);
    assert P.ProcOk(ws[i].own, p, ws[i].own.procs[p]) && P.ProcOk(ws[i].own, q, ws[i].own.procs[q]);
  }

  /** Whoever owns the home and is not itself swapping finds the last home there. */
  lemma NextOwnerFindsAWholeHome(ws: seq<World>, es: seq<Event>, target: Option<S.Home>, i: nat, q: P.Instance)
    requires IsRun(ws, es, target) && i < |ws|
    requires P.Live(ws[i].own, q) && P.Owns(ws[i].own.procs[q].pc) && !Unfinished(ws[i], q)
    ensures Whole(ws[i]) || (q in ws[i].swaps && Recoverable(ws[i], q))
    ensures q !in ws[i].swaps ==> Firm(ws[i])
  {
    RunKeepsInv(ws, es, target, i);
    assert P.ProcOk(ws[i].own, q, ws[i].own.procs[q]);
    NeverStranded(ws[i]);
  }

  // ---------------------------------------------------------------- which home it is

  /** The home that was there at the start, or one that a swap brought. */
  ghost predicate Supplied(es: seq<Event>, n: nat, target: Option<S.Home>, h: S.Home)
    requires n <= |es|
  {
    target == Some(h) || exists k | 0 <= k < n :: es[k].Begin? && es[k].swap.newHome == h
  }

  ghost predicate SwapSupplied(es: seq<Event>, n: nat, target: Option<S.Home>, x: Swap)
    requires n <= |es|
  {
    Supplied(es, n, target, x.newHome) && (x.oldHome.Some? ==> Supplied(es, n, target, x.oldHome.value))
  }

  ghost predicate AllSupplied(w: World, es: seq<Event>, n: nat, target: Option<S.Home>)
    requires n <= |es|
  {
    && (w.last.Some? ==> Supplied(es, n, target, w.last.value))
    && (forall p {:trigger w.swaps[p]} | p in w.swaps :: SwapSupplied(es, n, target, w.swaps[p]))
  }

  lemma StillSupplied(es: seq<Event>, n: nat, target: Option<S.Home>, h: S.Home)
    requires n < |es| && Supplied(es, n, target, h)
    ensures Supplied(es, n + 1, target, h)
  {
  }

  lemma SwapStillSupplied(es: seq<Event>, n: nat, target: Option<S.Home>, x: Swap)
    requires n < |es| && SwapSupplied(es, n, target, x)
    ensures SwapSupplied(es, n + 1, target, x)
  {
    StillSupplied(es, n, target, x.newHome);
    if x.oldHome.Some? { StillSupplied(es, n, target, x.oldHome.value); }
  }

  /** A swap that is new at this event brings its home; one that is not has moved on at most. */
  lemma SwapSuppliedAfter(w: World, es: seq<Event>, n: nat, target: Option<S.Home>, p: P.Instance)
    requires n < |es| && Inv(w) && Enabled(w, es[n]) && AllSupplied(w, es, n, target)
    requires p in Do(w, es[n]).swaps
    ensures SwapSupplied(es, n + 1, target, Do(w, es[n]).swaps[p])
  {
    if p in w.swaps { SwapStillSupplied(es, n, target, w.swaps[p]); }
    if es[n].Begin? && es[n].p == p {
      FirmBeforeTheSwap(w, p);
      assert Supplied(es, n + 1, target, es[n].swap.newHome);
      if w.last.Some? { StillSupplied(es, n, target, w.last.value); }
    }
  }

  /** The last home is the one before the event, or the old or the new one of the swap at the path. */
  lemma LastHomeAfter(w: World, e: Event)
    requires Inv(w) && Enabled(w, e)
    ensures var last := Do(w, e).last;
            || last == w.last
            || (SwapAtPath(w) && last in {w.swaps[w.own.path.value].oldHome, Some(w.swaps[w.own.path.value].newHome)})
  {
    match e
    case Advance(p) =>
      AdvancedSwapInStep(w, p);
      AdvanceKeepsInv(w, p);
      SwapShows(Do(w, e), p);
    case PowerLoss(f) =>
      if SwapAtPath(w) { PowerLossDuringASwap(w, f, w.own.path.value); }
    case _ =>
  }

  lemma {:induction false} RunKeepsSupplied(ws: seq<World>, es: seq<Event>, target: Option<S.Home>, i: nat)
    requires IsRun(ws, es, target) && i < |ws|
    ensures AllSupplied(ws[i], es, i, target)
  {
    if i > 0 {
      RunKeepsSupplied(ws, es, target, i - 1);
      RunKeepsInv(ws, es, target, i - 1);
      var w, v := ws[i - 1], ws[i];
      LastHomeAfter(w, es[i - 1]);
      if w.last.Some? { StillSupplied(es, i - 1, target, w.last.value); }
      if SwapAtPath(w) { SwapStillSupplied(es, i - 1, target, w.swaps[w.own.path.value]); }
      forall p | p in v.swaps ensures SwapSupplied(es, i, target, v.swaps[p]) {
        SwapSuppliedAfter(w, es, i - 1, target, p);
      }
    }
  }

  /** Whatever fails, the target holds nothing but the first home or one that some swap brought. */
  lemma {:induction false} NoHomeFromNowhere(ws: seq<World>, es: seq<Event>, target: Option<S.Home>, i: nat, h: S.Home)
    requires IsRun(ws, es, target) && i < |ws| && (ws[i].target == Some(h) || ws[i].last == Some(h))
    ensures Supplied(es, i, target, h)
  {
    RunKeepsSupplied(ws, es, target, i);
    RunKeepsInv(ws, es, target, i);
    NeverStranded(ws[i]);
  }

  // ---------------------------------------------------------------- a swap that died half way

  /** A process died while its swap had the home out of place. */
  ghost predicate DiedHalfWay(w: World, p: P.Instance) {
    !Whole(w) && w.own.path == Some(p) && P.Dead(w.own, p)
  }

  lemma SwappingOwnsThePath(w: World, e: Event)
    requires Inv(w) && Enabled(w, e) && (e.Begin? || e.Advance?)
    ensures w.own.path == Some(e.p) && !P.Dead(w.own, e.p)
  {
    assert P.ProcOk(w.own, e.p, w.own.procs[e.p]);
  }

  /** Only a loss of power changes anything then, by leaving the target as it was or is to be. */
  lemma HalfWayOneStep(w: World, e: Event, p: P.Instance)
    requires Inv(w) && Enabled(w, e) && DiedHalfWay(w, p)
    ensures var v := Do(w, e);
            || (DiedHalfWay(v, p) && v.last == w.last)
            || (e.PowerLoss? && Firm(v) && (v.last == w.last || v.last == Some(w.swaps[p].newHome)))
  {
    NeverStranded(w);
    match e
    case Protocol(a) =>
      UnfirmHomeIsGuarded(w, a);
      P.DeadStayDead(w.own, a, p);
    case PowerLoss(f) =>
      if p in w.swaps {
        SwapShows(w, p);
        PowerLossDuringASwap(w, f, p);
      }
    case Begin(_, _) => SwappingOwnsThePath(w, e);
    case Advance(_) => SwappingOwnsThePath(w, e);
  }

  /** Some loss of power since has ended it. */
  ghost predicate PowerBroughtItBack(ws: seq<World>, es: seq<Event>, i: nat, j: nat, p: P.Instance)
    requires i <= j < |ws| && |ws| == |es| + 1
  {
    exists k | i <= k < j :: es[k].PowerLoss? && BroughtBack(ws, k, p)
  }

  /** The record stayed until then, and the target then held the home before the swap or the new one. */
  ghost predicate BroughtBack(ws: seq<World>, k: nat, p: P.Instance)
    requires k + 1 < |ws|
  {
    && Recoverable(ws[k], p) && Firm(ws[k + 1])
    && (ws[k + 1].last == ws[k].last || (p in ws[k].swaps && ws[k + 1].last == Some(ws[k].swaps[p].newHome)))
  }

  lemma {:induction false} HalfWayStands(
    ws: seq<World>, es: seq<Event>, target: Option<S.Home>, i: nat, j: nat, p: P.Instance)
    requires IsRun(ws, es, target) && i <= j < |ws| && DiedHalfWay(ws[i], p)
    ensures (DiedHalfWay(ws[j], p) && ws[j].last == ws[i].last) || PowerBroughtItBack(ws, es, i, j, p)
    decreases j
  {
    if i < j {
      HalfWayStands(ws, es, target, i, j - 1, p);
      RunKeepsInv(ws, es, target, j - 1);
      if PowerBroughtItBack(ws, es, i, j - 1, p) {
        var k :| i <= k < j - 1 && es[k].PowerLoss? && BroughtBack(ws, k, p);
        assert PowerBroughtItBack(ws, es, i, j, p);
      } else {
        NeverStranded(ws[j - 1]);
        HalfWayOneStep(ws[j - 1], es[j - 1], p);
        if !DiedHalfWay(ws[j], p) { assert BroughtBack(ws, j - 1, p); }
      }
    }
  }

  /**
   Once a swap has died half way, the last home stays in its staging directory, and its record
   at the path, for good: only a loss of power may put a home firmly back at the target.
   */
  lemma {:induction false} RecoveryDataStays(
    ws: seq<World>, es: seq<Event>, target: Option<S.Home>, i: nat, j: nat, p: P.Instance)
    requires IsRun(ws, es, target) && i <= j < |ws| && DiedHalfWay(ws[i], p)
    ensures Recoverable(ws[i], p)
    ensures || (Recoverable(ws[j], p) && ws[j].last == ws[i].last && Staged(ws[j], p) == Staged(ws[i], p))
            || PowerBroughtItBack(ws, es, i, j, p)
  {
    RunKeepsInv(ws, es, target, i);
    NeverStranded(ws[i]);
    HalfWayStands(ws, es, target, i, j, p);
    RunKeepsInv(ws, es, target, j);
    NeverStranded(ws[j]);
  }
}
