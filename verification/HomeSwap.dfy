/**
 Installing a validated payload over a home, under a held ownership record.

 Every primitive may fail, and leaves a snapshot of the disk in `history`: a crash, or a loss of
 power, between any two primitives finds one of these snapshots. After a power loss a rename not
 yet followed by a directory sync may be undone, and a record write not yet followed by a sync
 may have left the old text, the new text or neither.
 */
module HomeSwap {
  import opened Wrappers
  import opened OwnershipRecord

  type Home = string

  datatype Slot = Target | Previous | Payload

  datatype Layout = Layout(target: Option<Home>, previous: Option<Home>, payload: Option<Home>) {
    function Get(s: Slot): Option<Home> {
      match s case Target => target case Previous => previous case Payload => payload
    }
    function Set(s: Slot, h: Option<Home>): Layout {
      match s
      case Target => this.(target := h)
      case Previous => this.(previous := h)
      case Payload => this.(payload := h)
    }
    function Move(src: Slot, dst: Slot): Layout {
      Set(dst, Get(src)).Set(src, None)
    }
  }

  /** What the record file says: a phase, or nothing that parses. */
  type Text = Option<Phase>

  datatype Snapshot = Snapshot(
    text: Text,                    // what a reader sees now
    durableTexts: set<Text>,       // what may be read after a power loss
    memory: Phase,                 // the handle's own copy of the phase
    layout: Layout,
    durableLayouts: set<Layout>,   // what may be there after a power loss
    linked: bool)                  // the record is still at its path

  // ---------------------------------------------------------------- what safe means

  /** The target is the old home, untouched, or the new one. */
  predicate Settled(l: Layout, old_: Option<Home>, new_: Home) {
    l.target == old_ || l.target == Some(new_)
  }

  /** The old home survives until the new one is installed and durably marked so. */
  predicate Kept(l: Layout, texts: set<Text>, old_: Option<Home>, new_: Home) {
    old_.Some? ==>
      || l.target == old_
      || l.previous == old_
      || (l.target == Some(new_) && texts == {Some(Installed)})
  }

  predicate BlockedText(t: Text) {
    t.None? || Blocking(t.value)
  }

  predicate RestorePhase(p: Phase) {
    p in {Restoring, Swapping, Installed, RecoveryRequired}
  }

  predicate RestoreText(t: Text) {
    t.Some? ==> RestorePhase(t.value)
  }

  ghost predicate RestoreTexts(ts: set<Text>) {
    forall t {:trigger RestoreText(t)} | t in ts :: RestoreText(t)
  }

  ghost predicate CrashSafe(s: Snapshot, old_: Option<Home>, new_: Home) {
    && Kept(s.layout, s.durableTexts, old_, new_)
    && (Settled(s.layout, old_, new_) || (s.layout.target.None? && s.linked && BlockedText(s.text)))
  }

  ghost predicate PowerLossSafe(s: Snapshot, old_: Option<Home>, new_: Home) {
    forall l, t | l in s.durableLayouts && t in s.durableTexts ::
      && Kept(l, s.durableTexts, old_, new_)
      && (Settled(l, old_, new_) || (l.target.None? && s.linked && BlockedText(t)))
  }

  /** The target is settled, and a loss of power would not change what is there. */
  ghost predicate Steady(s: Snapshot, old_: Option<Home>, new_: Home) {
    Settled(s.layout, old_, new_) && forall l | l in s.durableLayouts :: l.target == s.layout.target
  }

  ghost predicate Safe(s: Snapshot, old_: Option<Home>, new_: Home) {
    && s.layout in s.durableLayouts && s.text in s.durableTexts
    && CrashSafe(s, old_, new_) && PowerLossSafe(s, old_, new_)
    && (BlockedText(s.text) || Steady(s, old_, new_))
    && RestorePhase(s.memory) && RestoreTexts(s.durableTexts)
  }

  predicate DurablySwapping(s: Snapshot, old_: Option<Home>) {
    s.durableTexts == {Some(Swapping)} && s.durableLayouts == {s.layout} && s.layout.target == old_
  }

  /** Some snapshot shows `swapping` durable while nothing has moved. */
  ghost predicate Announced(h: seq<Snapshot>, old_: Option<Home>) {
    h != [] && (DurablySwapping(h[|h| - 1], old_) || Announced(h[..|h| - 1], old_))
  }

  ghost predicate AllLinked(h: seq<Snapshot>) {
    h == [] || (h[|h| - 1].linked && AllLinked(h[..|h| - 1]))
  }

  /**
   Every snapshot is safe; the target leaves its first place only after the announcement; and
   the new home, once installed, is not moved again.
   */
  ghost predicate Story(h: seq<Snapshot>, old_: Option<Home>, new_: Home) {
    h == [] ||
    var n := |h| - 1;
    && Story(h[..n], old_, new_)
    && Safe(h[n], old_, new_)
    && (h[n].layout.target != old_ ==> Announced(h[..n], old_))
    && (n > 0 && h[n - 1].layout.target == Some(new_) ==> h[n].layout.target == Some(new_))
  }

  /** What a swap shows the other processes until it gives the record up. */
  ghost predicate SwapTrace(h: seq<Snapshot>, old_: Option<Home>, new_: Home) {
    && h != []
    && h[0].text == Some(Restoring) && h[0].memory == Restoring && h[0].layout.target == old_
    && Story(h, old_, new_) && AllLinked(h)
    && (Blocking(h[|h| - 1].memory) || Steady(h[|h| - 1], old_, new_))
  }

  // ---------------------------------------------------------------- what a story tells

  lemma {:induction false} SafeThroughout(h: seq<Snapshot>, i: nat, old_: Option<Home>, new_: Home)
    requires Story(h, old_, new_) && i < |h|
    ensures Safe(h[i], old_, new_)
  {
    if i < |h| - 1 {
      SafeThroughout(h[..|h| - 1], i, old_, new_);
    }
  }

  lemma {:induction false} AnnouncedSomewhere(h: seq<Snapshot>, old_: Option<Home>) returns (w: nat)
    requires Announced(h, old_)
    ensures w < |h| && DurablySwapping(h[w], old_)
  {
    if DurablySwapping(h[|h| - 1], old_) {
      w := |h| - 1;
    } else {
      w := AnnouncedSomewhere(h[..|h| - 1], old_);
    }
  }

  /** Write-ahead order: before the target moves, `swapping` was durable over the untouched layout. */
  lemma {:induction false} SwappingIsDurableBeforeTheFirstMove(h: seq<Snapshot>, i: nat, old_: Option<Home>, new_: Home)
    returns (w: nat)
    requires Story(h, old_, new_) && i < |h| && h[i].layout.target != old_
    ensures w < i && DurablySwapping(h[w], old_)
  {
    if i < |h| - 1 {
      w := SwappingIsDurableBeforeTheFirstMove(h[..|h| - 1], i, old_, new_);
    } else {
      w := AnnouncedSomewhere(h[..i], old_);
    }
  }

  /**
   After a loss of power at any point: if the record then reads `installed` (or `restoring`),
   the layout is exactly the old one or exactly the new one; otherwise the record blocks; and
   in every case the old home is at the target, or in staging, or durably replaced.
   */
  lemma PowerLossAtAnyPoint(h: seq<Snapshot>, i: nat, l: Layout, t: Text, old_: Option<Home>, new_: Home)
    requires Story(h, old_, new_) && i < |h| && l in h[i].durableLayouts && t in h[i].durableTexts
    ensures t.Some? && !Blocking(t.value) ==> l.target == old_ || l.target == Some(new_)
    ensures l.target != old_ && l.target != Some(new_) ==> l.target.None? && BlockedText(t)
    ensures old_.Some? ==> l.target == old_ || l.previous == old_
                           || (l.target == Some(new_) && h[i].durableTexts == {Some(Installed)})
  {
    SafeThroughout(h, i, old_, new_);
  }

  lemma {:induction false} NewHomeStays(h: seq<Snapshot>, i: nat, j: nat, old_: Option<Home>, new_: Home)
    requires Story(h, old_, new_) && i <= j < |h| && h[i].layout.target == Some(new_)
    ensures h[j].layout.target == Some(new_)
    decreases |h|
  {
    if i < j {
      if j < |h| - 1 {
        NewHomeStays(h[..|h| - 1], i, j, old_, new_);
      } else {
        NewHomeStays(h[..|h| - 1], i, j - 1, old_, new_);
      }
    }
  }

  /** What the other processes can rely on at every point of a swap. */
  lemma TraceAtAnyPoint(h: seq<Snapshot>, i: nat, old_: Option<Home>, new_: Home)
    requires SwapTrace(h, old_, new_) && i < |h|
    ensures RestorePhase(h[i].memory) && RestoreText(h[i].text) && RestoreTexts(h[i].durableTexts)
    ensures || Settled(h[i].layout, old_, new_)
            || (h[i].layout.target.None? && BlockedText(h[i].text) && (old_.Some? ==> h[i].layout.previous == old_))
    ensures BlockedText(h[i].text) || Steady(h[i], old_, new_)
    ensures i + 1 < |h| && h[i].layout.target == Some(new_) ==> h[i + 1].layout.target == Some(new_)
  {
    SafeThroughout(h, i, old_, new_);
    LinkedThroughout(h, i);
    assert RestoreText(h[i].text);
    if i + 1 < |h| && h[i].layout.target == Some(new_) { NewHomeStays(h, i, i + 1, old_, new_); }
  }

  lemma {:induction false} LinkedThroughout(h: seq<Snapshot>, i: nat)
    requires AllLinked(h) && i < |h|
    ensures h[i].linked
  {
    if i < |h| - 1 {
      LinkedThroughout(h[..|h| - 1], i);
    }
  }

  lemma StoryBegins(s: Snapshot, old_: Option<Home>, new_: Home)
    requires Safe(s, old_, new_) && s.layout.target == old_ && s.linked
    ensures Story([s], old_, new_) && AllLinked([s])
  {
    assert [s][..0] == [];
  }

  datatype Outcome = Done | Failed | RecoveryNeeded(at: Slot)

  // ---------------------------------------------------------------- which failure ends it how

  /** None of the `n` calls from this one on fails. */
  predicate Quiet(fails: nat -> bool, from: nat, n: nat) {
    forall k: nat | from <= k < from + n :: !fails(k)
  }

  /** How a swap ends that starts with call `c`: five calls announce it, and the rest moves and marks. */
  function EndingOf(fails: nat -> bool, c: nat, hadPrevious: bool): Outcome {
    if !Quiet(fails, c, 5) then Failed
    else if !hadPrevious then InstallOf(fails, c + 5, false)
    else if fails(c + 5) then Failed
    else if !Quiet(fails, c + 6, 2) then RecoveryNeeded(Previous)
    else InstallOf(fails, c + 8, true)
  }

  /** From the move of the payload on. */
  function InstallOf(fails: nat -> bool, c: nat, hadPrevious: bool): Outcome {
    if !fails(c) then
      if Quiet(fails, c + 1, 5) then Done else RecoveryNeeded(if hadPrevious then Previous else Target)
    else if hadPrevious then RollBackOf(fails, c + 1)
    else Failed
  }

  function RollBackOf(fails: nat -> bool, c: nat): Outcome {
    if fails(c) then RecoveryNeeded(Previous)
    else if Quiet(fails, c + 1, 5) then Failed
    else RecoveryNeeded(Target)
  }

  /** The handle's phase after a swap that failed and needs no recovery. */
  function PhaseLeft(fails: nat -> bool, c: nat): Phase {
    if fails(c) then Restoring
    else if !Quiet(fails, c + 1, 4) then Swapping
    else if fails(c + 5) && fails(c + 6) then Swapping
    else Installed
  }

  /** The new home is installed exactly when nothing fails. */
  lemma DoneExactlyWhen(fails: nat -> bool, c: nat, hadPrevious: bool)
    ensures EndingOf(fails, c, hadPrevious) == Done <==> Quiet(fails, c, if hadPrevious then 14 else 11)
  {
    if Quiet(fails, c, if hadPrevious then 14 else 11) {
      assert !fails(c + 5) && (hadPrevious ==> !fails(c + 8));
    }
  }

  /**
   What the first call that fails leads to: before anything has moved, a plain failure; between
   the moves and after them, recovery; only a failure of the second move leaves it to the roll-back.
   */
  lemma FirstFailureDecides(fails: nat -> bool, c: nat, hadPrevious: bool, k: nat)
    requires Quiet(fails, c, k) && fails(c + k) && k < if hadPrevious then 14 else 11
    ensures EndingOf(fails, c, hadPrevious) ==
            if k <= 5 then Failed
            else if !hadPrevious then RecoveryNeeded(Target)
            else if k != 8 then RecoveryNeeded(Previous)
            else RollBackOf(fails, c + 9)
  {
    if k > 5 { assert !fails(c + 5); }
    if k > 8 { assert !fails(c + 8); }
  }

  class HomeDisk {
    const fails: nat -> bool       // which call fails: any pattern at all
    var calls: nat
    var text: Text
    var durableTexts: set<Text>
    var memory: Phase
    var recoveryAt: Slot           // what the handle's `recoveryPath` was last set to, beside the staged home
    var layout: Layout
    var durableLayouts: set<Layout>
    var linked: bool

    ghost const oldHome: Option<Home>
    ghost const newHome: Home
    ghost var history: seq<Snapshot>

    ghost function Now(): Snapshot
      reads this
    {
      Snapshot(text, durableTexts, memory, layout, durableLayouts, linked)
    }

    ghost predicate Valid()
      reads this
    {
      history != [] && history[|history| - 1] == Now() && Story(history, oldHome, newHome)
    }

    /** The record has been at its path in every snapshot so far. */
    ghost predicate Held()
      reads this
    {
      Valid() && AllLinked(history)
    }

    ghost predicate AllSettled()
      reads this
    {
      Steady(Now(), oldHome, newHome)
    }

    ghost predicate AllBlocked()
      reads this
    {
      BlockedText(text) && forall t | t in durableTexts :: BlockedText(t)
    }

    /** Every layout still has the old home in one of its two places. */
    ghost predicate OldKept()
      reads this
    {
      oldHome.Some? ==> forall l | l in durableLayouts :: l.target == oldHome || l.previous == oldHome
    }

    /** Only snapshots are added, and an announcement stays made. */
    twostate predicate Grown()
      reads this
    {
      && old(history) != [] && history != [] && history[0] == old(history[0])
      && (old(Announced(history, oldHome)) ==> Announced(history, oldHome))
    }

    /** The record is held in phase `restoring`, the payload is staged, nothing has moved. */
    constructor (fails: nat -> bool, target: Option<Home>, payload: Home)
      requires target != Some(payload)
      ensures this.oldHome == target && this.newHome == payload
      ensures Held() && Fresh() && history == [Now()]
    {
      this.fails := fails;
      calls := 0;
      text, durableTexts, memory, recoveryAt := Some(Restoring), {Some(Restoring)}, Restoring, Previous;
      layout := Layout(target, None, Some(payload));
      durableLayouts := {Layout(target, None, Some(payload))};
      linked := true;
      oldHome, newHome := target, payload;
      history := [Snapshot(Some(Restoring), {Some(Restoring)}, Restoring,
                           Layout(target, None, Some(payload)), {Layout(target, None, Some(payload))}, true)];
      new;
      StoryBegins(Now(), oldHome, newHome);
    }

    method Attempt() returns (ok: bool)
      modifies this`calls
      ensures ok == !fails(old(calls)) && calls == old(calls) + 1
    {
      ok := !fails(calls);
      calls := calls + 1;
    }

    ghost method Record()
      requires history != [] && Story(history, oldHome, newHome)
      requires Safe(Now(), oldHome, newHome)
      requires layout.target != oldHome ==> Announced(history, oldHome)
      requires history[|history| - 1].layout.target == Some(newHome) ==> layout.target == Some(newHome)
      modifies this`history
      ensures Valid() && Grown() && history == old(history) + [Now()]
      ensures DurablySwapping(Now(), oldHome) ==> Announced(history, oldHome)
      ensures old(AllLinked(history)) && linked ==> Held()
    {
      history := history + [Now()];
      assert history[..|history| - 1] == old(history);
    }

    // ------------------------------------------------------------ the calls that can fail

    /** A write may or may not survive a power loss until it is synced. */
    method SetText(t: Text, phase: Phase, synced: bool)
      requires Held() && linked && OldKept()
      requires RestorePhase(phase) && RestoreText(t)
      requires AllSettled() || (AllBlocked() && BlockedText(t))
      modifies this`text, this`durableTexts, this`memory, this`history
      ensures Held() && Grown()
      ensures text == t && durableTexts == (if synced then {t} else old(durableTexts) + {t}) && memory == phase
      ensures layout == old(layout) && durableLayouts == old(durableLayouts) && linked
      ensures OldKept() && (AllSettled() || (AllBlocked() && BlockedText(t)))
      ensures DurablySwapping(Now(), oldHome) ==> Announced(history, oldHome)
    {
      assert Safe(history[|history| - 1], oldHome, newHome);
      text, memory := t, phase;
      durableTexts := if synced then {t} else durableTexts + {t};
      Record();
    }

    /** `ftruncate`; the handle's own copy of the phase changes first. */
    method Truncate(phase: Phase) returns (ok: bool)
      requires Held() && linked && RestorePhase(phase) && OldKept()
      requires AllSettled() || (AllBlocked() && Blocking(phase))
      modifies this`calls, this`text, this`durableTexts, this`memory, this`history
      ensures Held() && Grown() && memory == phase && OldKept()
      ensures layout == old(layout) && durableLayouts == old(durableLayouts) && linked
      ensures AllSettled() || AllBlocked()
      ensures text == (if ok then None else old(text)) && durableTexts <= old(durableTexts) + {None}
      ensures ok == !fails(old(calls)) && calls == old(calls) + 1
    {
      assert Safe(history[|history| - 1], oldHome, newHome);
      SetText(text, phase, false);
      ok := Attempt();
      if ok { SetText(None, phase, false); }
    }

    /** The truncation and the `write`, neither yet synced. */
    method FillRecord(phase: Phase) returns (ok: bool)
      requires Held() && linked && RestorePhase(phase) && OldKept()
      requires AllSettled() || (AllBlocked() && Blocking(phase))
      modifies this`calls, this`text, this`durableTexts, this`memory, this`history
      ensures Held() && Grown() && memory == phase
      ensures layout == old(layout) && durableLayouts == old(durableLayouts) && linked
      ensures AllSettled() || AllBlocked()
      ensures text in {old(text), None, Some(phase)} && durableTexts <= old(durableTexts) + {None, Some(phase)}
      ensures ok == Quiet(fails, old(calls), 2) && (ok ==> calls == old(calls) + 2)
    {
      ok := Truncate(phase);
      if ok { ok := Attempt(); }
      if ok { SetText(Some(phase), phase, false); }
    }

    method WriteRecord(phase: Phase) returns (ok: bool)
      requires Held() && linked && RestorePhase(phase) && OldKept()
      requires AllSettled() || (AllBlocked() && Blocking(phase))
      modifies this`calls, this`text, this`durableTexts, this`memory, this`history
      ensures Held() && Grown() && memory == phase
      ensures layout == old(layout) && durableLayouts == old(durableLayouts) && linked
      ensures ok ==> text == Some(phase) && durableTexts == {Some(phase)}
      ensures text in {old(text), None, Some(phase)} && durableTexts <= old(durableTexts) + {None, Some(phase)}
      ensures ok && DurablySwapping(Now(), oldHome) ==> Announced(history, oldHome)
      ensures ok == Quiet(fails, old(calls), 3) && (ok ==> calls == old(calls) + 3)
    {
      ok := FillRecord(phase);
      if ok { ok := Attempt(); }   // fsync
      if ok { SetText(Some(phase), phase, true); }
    }

    /** `renameSync`: atomic, and durable only after the next directory sync. */
    method Rename(src: Slot, dst: Slot) returns (ok: bool)
      requires Held() && linked && src != dst && layout.Get(src).Some? && layout.Get(dst).None?
      requires var moved := layout.Move(src, dst);
               && OldKept() && (oldHome.Some? ==> moved.target == oldHome || moved.previous == oldHome)
               && AllBlocked() && (Settled(moved, oldHome, newHome) || moved.target.None?)
               && (layout.target == Some(newHome) ==> moved.target == layout.target)
               && (moved.target != oldHome ==> Announced(history, oldHome))
      modifies this`calls, this`layout, this`durableLayouts, this`history
      ensures Held() && Grown()
      ensures text == old(text) && durableTexts == old(durableTexts) && memory == old(memory) && linked
      ensures if ok then layout == old(layout).Move(src, dst) && durableLayouts == old(durableLayouts) + {layout}
              else layout == old(layout) && durableLayouts == old(durableLayouts)
      ensures ok == !fails(old(calls)) && calls == old(calls) + 1
    {
      assert Safe(history[|history| - 1], oldHome, newHome);
      ok := Attempt();
      if !ok { return; }
      layout := layout.Move(src, dst);
      durableLayouts := durableLayouts + {layout};
      Record();
    }

    /** `fsyncDirectory(targetParent)` */
    method SyncDirectory() returns (ok: bool)
      requires Held() && linked
      modifies this`calls, this`durableLayouts, this`history
      ensures Held() && Grown()
      ensures text == old(text) && durableTexts == old(durableTexts) && memory == old(memory)
      ensures layout == old(layout) && linked
      ensures durableLayouts == if ok then {layout} else old(durableLayouts)
      ensures ok == !fails(old(calls)) && calls == old(calls) + 1
    {
      assert Safe(history[|history| - 1], oldHome, newHome);
      ok := Attempt();
      if !ok { return; }
      durableLayouts := {layout};
      Record();
    }

    // ------------------------------------------------------------ the handle's phases

    /** A mark first checks that the path is still ours; then it writes. */
    method Mark(phase: Phase) returns (ok: bool)
      requires Held() && linked && RestorePhase(phase) && OldKept()
      requires AllSettled() || (AllBlocked() && Blocking(phase))
      modifies this`calls, this`text, this`durableTexts, this`memory, this`history
      ensures Held() && Grown() && memory == (if fails(old(calls)) then old(memory) else phase)
      ensures layout == old(layout) && durableLayouts == old(durableLayouts) && linked
      ensures ok ==> text == Some(phase) && durableTexts == {Some(phase)} && memory == phase
      ensures text in {old(text), None, Some(phase)} && durableTexts <= old(durableTexts) + {None, Some(phase)}
      ensures ok && DurablySwapping(Now(), oldHome) ==> Announced(history, oldHome)
      ensures ok == Quiet(fails, old(calls), 4) && (ok ==> calls == old(calls) + 4)
    {
      ok := Attempt();
      if ok { ok := WriteRecord(phase); }
    }

    method MarkSwapping() returns (ok: bool)
      requires Held() && linked && OldKept() && AllSettled()
      modifies this`calls, this`text, this`durableTexts, this`memory, this`history
      ensures Held() && Grown()
      ensures layout == old(layout) && durableLayouts == old(durableLayouts) && linked
      ensures text in {old(text), None, Some(Swapping)}
      ensures ok ==> text == Some(Swapping) && durableTexts == {Some(Swapping)} && memory == Swapping
      ensures memory == if fails(old(calls)) then old(memory) else Swapping
      ensures ok && DurablySwapping(Now(), oldHome) ==> Announced(history, oldHome)
      ensures ok == Quiet(fails, old(calls), 5) && (ok ==> calls == old(calls) + 5)
    {
      ok := Mark(Swapping);
      if ok { ok := Attempt(); }   // the sync of the record's own directory
    }

    /** The failure that must be recovered by hand; its marker may fail too. */
    method RecoveryError(at: Slot) returns (o: Outcome)
      requires Held() && linked && OldKept() && (AllSettled() || (AllBlocked() && Blocking(memory)))
      modifies this
      ensures Held() && Grown() && linked && o == RecoveryNeeded(at) && recoveryAt == at
      ensures text in {old(text), None, Some(RecoveryRequired)}
      ensures layout == old(layout) && durableLayouts == old(durableLayouts)
      ensures memory == if fails(old(calls)) then old(memory) else RecoveryRequired
      ensures Quiet(fails, old(calls), 4) ==> text == Some(RecoveryRequired)
    {
      recoveryAt := at;
      var _ := Mark(RecoveryRequired);
      o := RecoveryNeeded(at);
    }

    // ------------------------------------------------------------ the swap

    /** Nothing has moved yet and the payload is staged. */
    ghost predicate Fresh()
      reads this
    {
      && linked && text == Some(Restoring) && durableTexts == {text} && memory == Restoring
      && layout == Layout(oldHome, None, Some(newHome)) && durableLayouts == {layout}
      && oldHome != Some(newHome)
    }

    /** `swapping` is durable and nothing is pending. */
    ghost predicate Underway()
      reads this
    {
      && linked && text == Some(Swapping) && durableTexts == {text} && memory == Swapping
      && durableLayouts == {layout} && oldHome != Some(newHome) && Announced(history, oldHome)
    }

    /** What every ending of a swap leaves behind. */
    ghost predicate Ended(o: Outcome)
      reads this
    {
      && linked && (Blocking(memory) || AllSettled())
      && (o.Done? ==> && layout == Layout(Some(newHome), oldHome, None) && durableLayouts == {layout}
                      && text == Some(Installed) && durableTexts == {text} && memory == Installed)
      && (o.Failed? ==> layout == Layout(oldHome, None, Some(newHome)) && durableLayouts == {layout})
      && (o.RecoveryNeeded? ==> layout.Get(o.at).Some? && (oldHome.Some? ==> layout.Get(o.at) == oldHome))
      && (o.RecoveryNeeded? && oldHome.Some? ==> o.at == Previous || (o.at == Target && layout.previous.None?))
      && (text == Some(RecoveryRequired) ==> o.RecoveryNeeded? && recoveryAt == o.at)
    }

    /** Where the record says that the recovery data is, if it blocks. */
    function NamedPath(): Option<Slot>
      reads this
    {
      if text == Some(Swapping) then Some(Previous)
      else if text == Some(RecoveryRequired) then Some(recoveryAt)
      else None
    }

    /** What is at the target is made durable, and then marked so; or recovery is called for. */
    method MarkDurable(at: Slot) returns (ok: bool)
      requires Held() && linked && text == Some(Swapping) && durableTexts == {text} && memory == Swapping
      requires OldKept() && Settled(layout, oldHome, newHome)
      modifies this
      ensures Held() && Grown() && linked && layout == old(layout)
      ensures ok == Quiet(fails, old(calls), 5)
      ensures ok ==> durableLayouts == {layout} && text == Some(Installed) && durableTexts == {text}
      ensures ok ==> memory == Installed
      ensures !ok ==> recoveryAt == at && (Blocking(memory) || AllSettled())
    {
      ok := SyncDirectory();
      if ok { ok := Mark(Installed); }
      if !ok {
        var _ := RecoveryError(at);
      }
    }

    /** The install rename failed: the previous home goes back. */
    method RollBack() returns (o: Outcome)
      requires Held() && Underway() && oldHome.Some? && layout == Layout(None, oldHome, Some(newHome))
      modifies this
      ensures Held() && Grown() && Ended(o) && o == RollBackOf(fails, old(calls))
      ensures o.Failed? ==> memory == Installed && text == Some(Installed)
    {
      var ok := Rename(Previous, Target);
      if !ok {
        o := RecoveryError(Previous);
        return;
      }
      ok := MarkDurable(Target);
      return if ok then Failed else RecoveryNeeded(Target);
    }

    /** The new home is in place: make that durable, then say so. */
    method Confirm() returns (o: Outcome)
      requires Held() && linked && text == Some(Swapping) && durableTexts == {text} && memory == Swapping
      requires layout == Layout(Some(newHome), oldHome, None)
      requires durableLayouts == {Layout(None, oldHome, Some(newHome)), layout}
      modifies this
      ensures Held() && Grown() && Ended(o)
      ensures o == if Quiet(fails, old(calls), 5) then Done
                   else RecoveryNeeded(if oldHome.Some? then Previous else Target)
    {
      var at := if layout.previous.Some? then Previous else Target;
      var ok := MarkDurable(at);
      return if ok then Done else RecoveryNeeded(at);
    }

    /** The old home moves into staging; `None` means that the swap goes on. */
    method MoveAside() returns (stop: Option<Outcome>)
      requires Held() && Underway() && oldHome.Some? && layout == Layout(oldHome, None, Some(newHome))
      modifies this
      ensures Held() && Grown()
      ensures stop.Some? ==> Ended(stop.value)
      ensures stop.None? ==> Underway() && layout == Layout(None, oldHome, Some(newHome)) && calls == old(calls) + 3
      ensures stop == if fails(old(calls)) then Some(Failed)
                      else if Quiet(fails, old(calls) + 1, 2) then None else Some(RecoveryNeeded(Previous))
      ensures fails(old(calls)) ==> memory == if fails(old(calls) + 1) then Swapping else Installed
    {
      var ok := Rename(Target, Previous);
      if !ok {
        var _ := Mark(Installed);
        return Some(Failed);
      }
      ok := SyncDirectory();
      if ok { ok := Attempt(); }   // the hook between the two moves
      if !ok {
        var o := RecoveryError(Previous);
        return Some(o);
      }
      return None;
    }

    /** The move of the payload, once nothing is in its way. */
    method MoveIn(hadPrevious: bool) returns (o: Outcome)
      requires Held() && Underway() && layout == Layout(None, oldHome, Some(newHome)) && hadPrevious == oldHome.Some?
      modifies this
      ensures Held() && Grown() && Ended(o)
      ensures o == InstallOf(fails, old(calls), hadPrevious)
      ensures o.Failed? ==>
                memory == if !hadPrevious && fails(old(calls) + 1) then Swapping else Installed
    {
      var ok := Rename(Payload, Target);
      if ok {
        o := Confirm();
      } else if hadPrevious {
        o := RollBack();
      } else {
        var _ := Mark(Installed);
        o := Failed;
      }
    }

    /** Up to the move of the payload; `None` means that it goes on. */
    method MakeRoom(hadPrevious: bool) returns (stop: Option<Outcome>)
      requires Held() && Fresh() && hadPrevious == oldHome.Some?
      modifies this
      ensures Held() && Grown()
      ensures stop.Some? ==> Ended(stop.value) && stop.value == EndingOf(fails, old(calls), hadPrevious)
      ensures stop == Some(Failed) ==> memory == PhaseLeft(fails, old(calls))
      ensures stop.None? ==>
                && Underway() && layout == Layout(None, oldHome, Some(newHome))
                && calls == old(calls) + (if hadPrevious then 8 else 5)
                && Quiet(fails, old(calls), if hadPrevious then 8 else 5)
    {
      var ok := MarkSwapping();
      if !ok { return Some(Failed); }
      if !hadPrevious { return None; }
      stop := MoveAside();
    }

    method InstallValidatedPayload() returns (o: Outcome)
      requires Held() && Fresh()
      modifies this
      ensures Held() && Grown() && Ended(o)
      ensures o == EndingOf(fails, old(calls), oldHome.Some?)
      ensures o.Failed? ==> memory == PhaseLeft(fails, old(calls))
    {
      var hadPrevious := layout.target.Some?;
      var stop := MakeRoom(hadPrevious);
      if stop.Some? { return stop.value; }
      o := MoveIn(hadPrevious);
    }

    // ------------------------------------------------------------ around the swap

    /** `rmSync(staging)`; when it fails, count everything staged as lost. */
    method RemoveStaging() returns (ok: bool)
      requires Held() && linked && durableLayouts == {layout}
      requires layout.target == oldHome || (layout.target == Some(newHome) && durableTexts == {Some(Installed)})
      modifies this`calls, this`layout, this`durableLayouts, this`history
      ensures Held() && Grown() && linked
      ensures text == old(text) && durableTexts == old(durableTexts) && memory == old(memory)
      ensures layout == Layout(old(layout).target, None, None)
              && forall l | l in durableLayouts :: l.target == layout.target
      ensures ok == !fails(old(calls)) && calls == old(calls) + 1
    {
      assert Safe(history[|history| - 1], oldHome, newHome);
      ok := Attempt();
      layout := Layout(layout.target, None, None);
      durableLayouts := durableLayouts + {layout};
      Record();
    }

    /** Swap, then remove the staging directory unless it holds the recovery data. */
    method SwapAndClean() returns (o: Outcome, cleaned: bool)
      requires Held() && Fresh() && history == [Now()]
      modifies this
      ensures Held() && linked && SwapTrace(history, oldHome, newHome)
      ensures Blocking(memory) || AllSettled()
      ensures o == EndingOf(fails, old(calls), oldHome.Some?) && (o.Failed? ==> memory == PhaseLeft(fails, old(calls)))
      ensures (forall n: nat :: !fails(n)) ==> o.Done? && cleaned
      ensures o.Done? ==> layout.target == Some(newHome) && text == Some(Installed) && durableTexts == {text}
      ensures o.Done? ==> memory == Installed
      ensures o.Failed? ==> layout.target == oldHome
      ensures !o.RecoveryNeeded? ==> layout.previous.None? && layout.payload.None?
      ensures o.RecoveryNeeded? ==> layout.Get(o.at).Some? && (oldHome.Some? ==> layout.Get(o.at) == oldHome)
      // A record that blocks names the old home exactly when recovery was called for, and the
      // record was brought to say so or need not have been.
      ensures oldHome.Some? && NamedPath().Some? ==>
                (layout.Get(NamedPath().value) == oldHome
                 <==> o.RecoveryNeeded? && (text == Some(RecoveryRequired) || o.at == Previous))
    {
      o := InstallValidatedPayload();
      cleaned := true;
      if !o.RecoveryNeeded? {
        cleaned := RemoveStaging();
      }
    }

    /** `release`: the record stays when the phase in memory says that recovery is needed. */
    method Release()
      requires Held() && linked && (Blocking(memory) || AllSettled())
      modifies this
      ensures Valid() && Grown()
      ensures layout == old(layout) && durableLayouts == old(durableLayouts)
      ensures !linked ==> AllSettled() && !Blocking(memory)
      ensures linked == (fails(old(calls)) || Blocking(memory) || fails(old(calls) + 1))
      ensures text == old(text) && durableTexts == old(durableTexts) && memory == old(memory)
    {
      assert Safe(history[|history| - 1], oldHome, newHome);
      var ownsPath := Attempt();
      if ownsPath && !Blocking(memory) {
        var ok := Attempt();
        if ok {
          linked := false;
          Record();
        }
      }
    }

    /**
     `restore` and `rotate-bootstrap` from the swap to their end. `rotate-bootstrap` does not
     catch a failing clean-up, and then never releases.
     */
    method RestoreHome(rotating: bool) returns (o: Outcome)
      requires Held() && Fresh() && history == [Now()]
      modifies this
      ensures Valid()
      ensures o == EndingOf(fails, old(calls), oldHome.Some?)
      ensures (forall n: nat :: !fails(n)) ==> o.Done? && !linked && text == Some(Installed)
      ensures Blocking(memory) ==> linked
      ensures o.Failed? ==> memory == PhaseLeft(fails, old(calls))
      ensures o.Done? ==> layout.target == Some(newHome)
      ensures o.Failed? ==> layout.target == oldHome
      ensures o.RecoveryNeeded? ==> layout.Get(o.at).Some? && (oldHome.Some? ==> layout.Get(o.at) == oldHome)
      ensures !linked ==> AllSettled()
    {
      var cleaned;
      o, cleaned := SwapAndClean();
      if cleaned || !rotating {
        Release();
      }
    }
  }
}
