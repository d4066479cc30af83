/**
 The per-home ownership record: its two readers (the CLI's and the daemon's), its writers,
 and what each contender decides about a record it finds at the path.
 */
module OwnershipRecord {
  import opened Wrappers
  import opened Json

  datatype Owner = DaemonOwner | RestoreOwner

  datatype Phase =
    | Starting | Listening
    | Restoring | Uninstalling | Swapping | Installed | RecoveryRequired

  datatype Record = Record(instanceId: string, pid: int, owner: Owner, phase: Phase)

  function PhaseName(p: Phase): string {
    match p
    case Starting => "starting"
    case Listening => "listening"
    case Restoring => "restoring"
    case Uninstalling => "uninstalling"
    case Swapping => "swapping"
    case Installed => "installed"
    case RecoveryRequired => "recovery-required"
  }

  function OwnerName(o: Owner): string {
    if o.DaemonOwner? then "daemon" else "restore"
  }

  function PhaseOf(v: Option<Value>): Option<Phase> {
    if IsExactly(v, "starting") then Some(Starting)
    else if IsExactly(v, "listening") then Some(Listening)
    else if IsExactly(v, "restoring") then Some(Restoring)
    else if IsExactly(v, "uninstalling") then Some(Uninstalling)
    else if IsExactly(v, "swapping") then Some(Swapping)
    else if IsExactly(v, "installed") then Some(Installed)
    else if IsExactly(v, "recovery-required") then Some(RecoveryRequired)
    else None
  }

  function OwnerOf(v: Option<Value>): Option<Owner> {
    if IsExactly(v, "daemon") then Some(DaemonOwner)
    else if IsExactly(v, "restore") then Some(RestoreOwner)
    else None
  }

  predicate ValidPort(v: Option<Value>) {
    IsSafeInteger(v) && 1 <= AsInt(v) <= 65535
  }

  /**
   The CLI reader. `json` is what `JSON.parse` made of the file: `None` when it threw, which
   is also what an empty, torn or non-regular file gives.
   */
  function ParseRecord(json: Option<Value>): Option<Record> {
    if json.None? || json.value.Null? then None
    else
      var v := json.value;
      var owner := OwnerOf(Get(v, "owner"));
      var phase := PhaseOf(Get(v, "state"));
      if || Get(v, "version") != Some(IntValue(1))
         || !IsNonEmptyText(Get(v, "instanceId"))
         || !IsSafeInteger(Get(v, "pid"))
         || AsInt(Get(v, "pid")) <= 0
         || owner.None?
         || phase.None?
         || !IsFinite(Get(v, "startedAt"))
      then None
      else if || (owner.value.DaemonOwner? && phase.value !in {Starting, Listening})
              || (owner.value.RestoreOwner? && phase.value in {Starting, Listening})
      then None
      else if && owner.value.RestoreOwner?
              && phase.value in {Swapping, RecoveryRequired}
              && !(IsNonEmptyText(Get(v, "recoveryPath")) && IsBool(Get(v, "hadPrevious")))
      then None
      else if && owner.value.DaemonOwner?
              && phase.value.Listening?
              && !(IsNonEmptyText(Get(v, "host")) && ValidPort(Get(v, "port")))
      then None
      else Some(Record(Get(v, "instanceId").value.text, AsInt(Get(v, "pid")), owner.value, phase.value))
  }

  /** What the daemon's reader keeps: every field is optional. */
  datatype Existing = Existing(
    versionOne: bool,
    instanceId: Option<string>,
    pid: Option<int>,
    owner: Option<Owner>,
    phase: Option<Phase>,
    startedAt: Option<real>)

  /** The daemon acts on a record only when none of these fields is missing. */
  predicate Usable(e: Existing) {
    && e.instanceId.Some? && e.versionOne && e.pid.Some?
    && e.owner.Some? && e.phase.Some? && e.startedAt.Some?
  }

  function AsRecord(e: Existing): Record
    requires Usable(e)
  {
    Record(e.instanceId.value, e.pid.value, e.owner.value, e.phase.value)
  }

  /**
   The daemon reader, field by field. It accepts exactly the records the CLI reader accepts
   and reads the same record out of them.
   */
  method ReadExisting(json: Option<Value>) returns (e: Existing)
    ensures Usable(e) <==> ParseRecord(json).Some?
    ensures Usable(e) ==> AsRecord(e) == ParseRecord(json).value
  {
    var versionOne := false;
    var instanceId: Option<string> := None;
    var pid: Option<int> := None;
    var owner: Option<Owner> := None;
    var phase: Option<Phase> := None;
    var recoveryPath: Option<string> := None;
    var hadPrevious: Option<bool> := None;
    var host: Option<string> := None;
    var port: Option<int> := None;
    var startedAt: Option<real> := None;
    if json.Some? && !json.value.Null? {
      var parsed := json.value;
      if Get(parsed, "version") == Some(IntValue(1)) { versionOne := true; }
      var f := Get(parsed, "instanceId");
      if IsNonEmptyText(f) { instanceId := Some(f.value.text); }
      f := Get(parsed, "pid");
      if IsSafeInteger(f) && AsInt(f) > 0 { pid := Some(AsInt(f)); }
      owner := OwnerOf(Get(parsed, "owner"));
      phase := PhaseOf(Get(parsed, "state"));
      f := Get(parsed, "recoveryPath");
      if IsNonEmptyText(f) { recoveryPath := Some(f.value.text); }
      f := Get(parsed, "hadPrevious");
      if IsBool(f) { hadPrevious := Some(f.value.flag); }
      f := Get(parsed, "host");
      if IsNonEmptyText(f) { host := Some(f.value.text); }
      f := Get(parsed, "port");
      if IsSafeInteger(f) && 0 < AsInt(f) <= 65535 { port := Some(AsInt(f)); }
      f := Get(parsed, "startedAt");
      if IsFinite(f) { startedAt := Some(f.value.num.magnitude); }

      var validOwnerState :=
        || (&& owner == Some(DaemonOwner) && phase.Some? && phase.value in {Starting, Listening}
            && (phase.value != Listening || (host.Some? && port.Some?)))
        || (&& owner == Some(RestoreOwner) && phase.Some?
            && phase.value in {Restoring, Uninstalling, Swapping, Installed, RecoveryRequired}
            && (phase.value !in {Swapping, RecoveryRequired} || (recoveryPath.Some? && hadPrevious.Some?)));
      if !validOwnerState {
        owner := None;
        phase := None;
      }
    }
    e := Existing(versionOne, instanceId, pid, owner, phase, startedAt);
  }

  predicate ListensOk(v: Value) {
    IsNonEmptyText(Get(v, "host")) && ValidPort(Get(v, "port"))
  }

  predicate RecoveryOk(v: Value) {
    IsNonEmptyText(Get(v, "recoveryPath")) && IsBool(Get(v, "hadPrevious"))
  }

  /** What a file says, if it is a record at all. */
  predicate Says(v: Value, r: Record) {
    && Get(v, "version") == Some(IntValue(1))
    && r.instanceId != "" && Get(v, "instanceId") == Some(Str(r.instanceId))
    && IsSafeInteger(Get(v, "pid")) && AsInt(Get(v, "pid")) == r.pid && r.pid > 0
    && Get(v, "owner") == Some(Str(OwnerName(r.owner))) && Get(v, "state") == Some(Str(PhaseName(r.phase)))
    && IsFinite(Get(v, "startedAt"))
  }

  lemma NamesAreFound(v: Option<Value>, o: Owner, p: Phase)
    ensures OwnerOf(v) == Some(o) <==> v == Some(Str(OwnerName(o)))
    ensures PhaseOf(v) == Some(p) <==> v == Some(Str(PhaseName(p)))
  {
    NamesAreReadBack(o, p);
  }

  /**
   A file is read as a record exactly when it says so, in every field, with a phase that goes with its
   owner, an endpoint if it listens, and a recovery path if something is to be recovered.
   */
  lemma ReadExactlyWhen(v: Value, r: Record)
    ensures ParseRecord(Some(v)) == Some(r) <==>
            && Says(v, r)
            && (r.phase in {Starting, Listening} <==> r.owner == DaemonOwner)
            && (r.phase == Listening ==> ListensOk(v))
            && (r.phase in {Swapping, RecoveryRequired} ==> RecoveryOk(v))
  {
    NamesAreFound(Get(v, "owner"), r.owner, r.phase);
    NamesAreFound(Get(v, "state"), r.owner, r.phase);
  }

  // ---------------------------------------------------------------- the writers

  /** The shapes in which a record is written, with the fields each shape carries. */
  datatype Written =
    | OfDaemon(starting: bool, host: string, port: int)
    | OfRestore(phase: Phase, recoveryPath: string, hadPrevious: bool)

  predicate NeedsRecoveryPath(phase: Phase) {
    phase in {Swapping, RecoveryRequired}
  }

  function OwnerOfWritten(w: Written): Owner {
    if w.OfDaemon? then DaemonOwner else RestoreOwner
  }

  function PhaseOfWritten(w: Written): Phase {
    if w.OfRestore? then w.phase else if w.starting then Starting else Listening
  }

  function Extras(w: Written): map<string, Value> {
    if w.OfDaemon? then
      if w.starting then map[] else map["host" := Str(w.host), "port" := IntValue(w.port)]
    else if NeedsRecoveryPath(w.phase) then
      map["recoveryPath" := Str(w.recoveryPath), "hadPrevious" := Bool(w.hadPrevious)]
    else map[]
  }

  /** The object handed to `JSON.stringify`. */
  function ToJson(instanceId: string, pid: int, startedAt: real, w: Written): Value {
    Obj(Extras(w)
        ["version" := IntValue(1)]
        ["instanceId" := Str(instanceId)]
        ["pid" := IntValue(pid)]
        ["owner" := Str(OwnerName(OwnerOfWritten(w)))]
        ["state" := Str(PhaseName(PhaseOfWritten(w)))]
        ["startedAt" := Num(Finite(startedAt))])
  }

  lemma NamesAreReadBack(o: Owner, p: Phase)
    ensures OwnerOf(Some(Str(OwnerName(o)))) == Some(o)
    ensures PhaseOf(Some(Str(PhaseName(p)))) == Some(p)
  {
    assert "daemon"[0] != "restore"[0];
    match p {
      case Starting =>
      case Listening => assert |"starting"| != |"listening"|;
      case Restoring => assert "restoring"[0] != "listening"[0]; assert |"starting"| != |"restoring"|;
      case Uninstalling =>
      case Swapping => assert "swapping"[1] != "starting"[1];
      case Installed => assert "installed"[0] != "listening"[0]; assert "installed"[0] != "restoring"[0];
      case RecoveryRequired =>
    }
  }

  lemma FieldsAreReadBack(instanceId: string, pid: int, startedAt: real, w: Written)
    ensures var v := ToJson(instanceId, pid, startedAt, w);
            && Get(v, "version") == Some(IntValue(1))
            && Get(v, "instanceId") == Some(Str(instanceId))
            && Get(v, "pid") == Some(IntValue(pid))
            && Get(v, "owner") == Some(Str(OwnerName(OwnerOfWritten(w))))
            && Get(v, "state") == Some(Str(PhaseName(PhaseOfWritten(w))))
            && Get(v, "startedAt") == Some(Num(Finite(startedAt)))
            && Get(v, "host") == Get(Obj(Extras(w)), "host")
            && Get(v, "port") == Get(Obj(Extras(w)), "port")
            && Get(v, "recoveryPath") == Get(Obj(Extras(w)), "recoveryPath")
            && Get(v, "hadPrevious") == Get(Obj(Extras(w)), "hadPrevious")
  {
  }

  /** A daemon publishing no host, or a port outside 1..65535, writes what no reader accepts. */
  predicate Readable(w: Written) {
    w.OfDaemon? && !w.starting ==> w.host != "" && 1 <= w.port <= 65535
  }

  /**
   Both readers read back what a writer wrote, except an endpoint that is not `Readable`:
   that record is unusable, and so blocks.
   */
  lemma WrittenRecordIsReadBack(instanceId: string, pid: int, startedAt: real, w: Written)
    requires instanceId != "" && 0 < pid <= MAX_SAFE_INTEGER
    requires w.OfRestore? ==> w.phase !in {Starting, Listening} && w.recoveryPath != ""
    requires w.OfDaemon? ==> -MAX_SAFE_INTEGER <= w.port <= MAX_SAFE_INTEGER
    ensures ParseRecord(Some(ToJson(instanceId, pid, startedAt, w))) ==
            if Readable(w) then Some(Record(instanceId, pid, OwnerOfWritten(w), PhaseOfWritten(w))) else None
  {
    var v := ToJson(instanceId, pid, startedAt, w);
    NamesAreReadBack(OwnerOfWritten(w), PhaseOfWritten(w));
    FieldsAreReadBack(instanceId, pid, startedAt, w);
    assert AsInt(Get(v, "pid")) == pid;
    if w.OfDaemon? && !w.starting {
      assert AsInt(Get(v, "port")) == w.port;
    }
  }

  // ---------------------------------------------------------------- the decisions

  datatype Kind = Daemon | Restore | Uninstall

  datatype Verdict = Refuse | Reclaim

  /** `acquireHomeRestoreLock`, from the record it found to the call of `reclaimRecord`. */
  function CliVerdict(uninstalling: bool, record: Option<Record>, live: bool): Verdict {
    if record.None? then Refuse
    else
      var r := record.value;
      if r.owner.RestoreOwner? && r.phase.Uninstalling? && live then Refuse
      else if r.owner.RestoreOwner? && r.phase.Uninstalling? && !uninstalling then Refuse
      else if r.owner.RestoreOwner? && r.phase in {Swapping, RecoveryRequired} then Refuse
      else if live then Refuse
      else Reclaim
  }

  /** `acquireDaemonLiveness`, likewise. */
  function DaemonVerdict(record: Option<Record>, live: bool): Verdict {
    if record.None? then Refuse
    else
      var r := record.value;
      if r.owner.RestoreOwner? && r.phase.Uninstalling? then Refuse
      else if r.owner.RestoreOwner? && r.phase in {Swapping, RecoveryRequired} then Refuse
      else if live then Refuse
      else Reclaim
  }

  function Decide(kind: Kind, record: Option<Record>, live: bool): Verdict {
    match kind
    case Daemon => DaemonVerdict(record, live)
    case Restore => CliVerdict(false, record, live)
    case Uninstall => CliVerdict(true, record, live)
  }

  /** No contender ever moves a record in one of these phases. */
  predicate Blocking(phase: Phase) {
    phase in {Swapping, RecoveryRequired}
  }

  /**
   Whatever is in the file, a contender reclaims only a readable record of a dead process that
   is in no blocking phase, and an interrupted uninstall yields to another uninstall alone.
   */
  lemma ReclaimExactlyWhen(kind: Kind, json: Option<Value>, live: bool)
    ensures Decide(kind, ParseRecord(json), live) == Reclaim <==>
            && ParseRecord(json).Some?
            && !live
            && !Blocking(ParseRecord(json).value.phase)
            && (ParseRecord(json).value.phase == Uninstalling ==> kind == Uninstall)
  {
    if ParseRecord(json).Some? {
      var r := ParseRecord(json).value;
      assert r.phase in {Uninstalling, Swapping, RecoveryRequired} ==> r.owner.RestoreOwner?;
    }
  }
}
