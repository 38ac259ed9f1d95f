/** Prepare, Unprepare and restart as a crash-tolerant protocol over the node's disk. Each durable write is
    one step; a crash may fall between any two steps, and a restart runs the zombie cleaner. */
module ClaimProtocol {
  type Claim = string
  type Uuid = string

  datatype PreparedDevice = PreparedDevice(
    requestName: string, poolName: string, deviceName: string, pciAddress: string, isVf: bool)

  /** A folder under the config or under the metrics host path, named by a UUID. */
  datatype Folder = ConfigFolder(id: Uuid) | MetricsFolder(id: Uuid)

  datatype ContainerPath = ConfigPath | MetricsPath | OtherPath

  datatype Mount = Mount(container: ContainerPath, host: Folder)

  datatype Spec = Spec(devices: seq<string>, mounts: seq<Mount>)

  /** The checkpoint file, the CDI spec of each claim, and the config and metrics folders. A claim without
      a device of this driver is stored as an empty entry. */
  type Checkpoint = map<Claim, seq<PreparedDevice>>

  datatype Disk = Disk(checkpoint: Checkpoint, specs: map<Claim, Spec>, folders: set<Folder>)

  /** The operation under the mutex, at its next durable write; `cp` is the checkpoint it has loaded. The cleaner
      works with the mounts it has collected; the specs of the `skipped` claims it could not read. */
  datatype Op =
    | Idle
    | PrepFolder(c: Claim, devices: seq<PreparedDevice>, cp: Checkpoint)
    | PrepConfig(c: Claim, devices: seq<PreparedDevice>, cp: Checkpoint, id: Uuid)
    | PrepMetrics(c: Claim, devices: seq<PreparedDevice>, cp: Checkpoint, id: Uuid)
    | PrepSpec(c: Claim, devices: seq<PreparedDevice>, cp: Checkpoint, id: Uuid)
    | PrepCommit(c: Claim, devices: seq<PreparedDevice>, cp: Checkpoint)
    | UnprepRead(c: Claim, cp: Checkpoint)
    | UnprepRemove(c: Claim, cp: Checkpoint, left: seq<Mount>)
    | UnprepSpec(c: Claim)
    | Down
    | Cleaning(mounted: set<Folder>, skipped: set<Claim>, todo: set<Uuid>)
    | CleanMetrics(mounted: set<Folder>, skipped: set<Claim>, todo: set<Uuid>, id: Uuid)

  /** `used` holds every UUID that was ever handed out; `tearing` every claim whose folders an Unprepare has
      begun to remove; `stripped` every claim of whose folders the cleaner has removed one since the claim's last
      Prepare. They are bookkeeping of the proof. */
  datatype State = State(disk: Disk, op: Op, used: set<Uuid>, tearing: set<Claim>, stripped: set<Claim>)

  /** `ok` tells whether the write or read succeeds; `skipped` are the claims whose specs the cleaner's walk
      fails to read. */
  datatype Action =
    | BeginPrepare(claim: Claim, prepared: seq<PreparedDevice>)
    | MakeConfig(id: Uuid, ok: bool)
    | WriteConfig(ok: bool)
    | MakeMetrics(ok: bool)
    | WriteSpec(ok: bool)
    | WriteCheckpoint(ok: bool)
    | BeginUnprepare(claim: Claim)
    | ReadSpec(ok: bool)
    | RemoveMount(ok: bool)
    | RemoveSpec(ok: bool)
    | Crash
    | Restart(ok: bool, skipped: set<Claim>)
    | CleanConfig(id: Uuid, ok: bool)
    | CleanOther(ok: bool)
    | CleanDone

  function Init(): State {
    State(Disk(map[], map[], {}), Down, {}, {}, {})
  }

  /** The nil test on a checkpoint entry. */
  predicate Holds(cp: Checkpoint, c: Claim) {
    c in cp && cp[c] != []
  }

  function Names(devices: seq<PreparedDevice>): seq<string> {
    seq(|devices|, i requires 0 <= i < |devices| => devices[i].deviceName)
  }

  /** The two mounts of a claim: its metrics folder has the name of its config folder. */
  function StandardMounts(id: Uuid): seq<Mount> {
    [Mount(ConfigPath, ConfigFolder(id)), Mount(MetricsPath, MetricsFolder(id))]
  }

  predicate IsHostMounted(path: ContainerPath) {
    path == ConfigPath || path == MetricsPath
  }

  /** All folders mounted by some spec on disk. */
  function MountedFolders(specs: map<Claim, Spec>): set<Folder> {
    set c, m | c in specs && m in specs[c].mounts :: m.host
  }

  predicate IsId(sp: Spec, id: Uuid) {
    sp.mounts != [] && sp.mounts[0].host.id == id
  }

  /** The claims whose specs mount the folders of an id. */
  function Owners(specs: map<Claim, Spec>, id: Uuid): set<Claim> {
    set c | c in specs && IsId(specs[c], id)
  }

  function ConfigIds(folders: set<Folder>): set<Uuid> {
    set f | f in folders && f.ConfigFolder? :: f.id
  }

  function RemoveFolder(d: Disk, f: Folder, ok: bool): Disk {
    if ok then d.(folders := d.folders - {f}) else d
  }

  /** Which action may follow in a state. UUIDs are fresh; a crash may come at any time. */
  predicate Enabled(s: State, a: Action) {
    match a
    case BeginPrepare(_, _) => s.op.Idle?
    case MakeConfig(id, _) => s.op.PrepFolder? && id !in s.used
    case WriteConfig(_) => s.op.PrepConfig?
    case MakeMetrics(_) => s.op.PrepMetrics?
    case WriteSpec(_) => s.op.PrepSpec?
    case WriteCheckpoint(_) => s.op.PrepCommit? || (s.op.UnprepRemove? && s.op.left == [])
    case BeginUnprepare(_) => s.op.Idle?
    case ReadSpec(_) => s.op.UnprepRead?
    case RemoveMount(_) => s.op.UnprepRemove? && s.op.left != []
    case RemoveSpec(_) => s.op.UnprepSpec?
    case Crash => true
    case Restart(_, _) => s.op.Down?
    case CleanConfig(id, _) => s.op.Cleaning? && id in s.op.todo
    case CleanOther(_) => s.op.CleanMetrics?
    case CleanDone => s.op.Cleaning? && s.op.todo == {}
  }

  function Step(s: State, a: Action): State
    requires Enabled(s, a)
  {
    var d, op := s.disk, s.op;
    match a
    case BeginPrepare(c, devices) =>
      if Holds(d.checkpoint, c) then s else s.(op := PrepFolder(c, devices, d.checkpoint))
    case MakeConfig(id, ok) =>
      if ok
      then s.(disk := d.(folders := d.folders + {ConfigFolder(id)}),
              op := PrepConfig(op.c, op.devices, op.cp, id), used := s.used + {id})
      else s.(op := Idle)
    case WriteConfig(ok) =>
      s.(op := if ok then PrepMetrics(op.c, op.devices, op.cp, op.id) else Idle)
    case MakeMetrics(ok) =>
      if ok
      then s.(disk := d.(folders := d.folders + {MetricsFolder(op.id)}),
              op := PrepSpec(op.c, op.devices, op.cp, op.id))
      else s.(op := Idle)
    case WriteSpec(ok) =>
      if ok
      then s.(disk := d.(specs := d.specs[op.c := Spec(Names(op.devices), StandardMounts(op.id))]),
              op := PrepCommit(op.c, op.devices, op.cp))
      else s.(op := Idle)
    case WriteCheckpoint(ok) =>
      if !ok then s.(op := Idle)
      else if op.PrepCommit?
      then s.(disk := d.(checkpoint := op.cp[op.c := op.devices]), op := Idle,
              tearing := s.tearing - {op.c}, stripped := s.stripped - {op.c})
      else s.(disk := d.(checkpoint := op.cp - {op.c}), op := UnprepSpec(op.c))
    case BeginUnprepare(c) =>
      if Holds(d.checkpoint, c) then s.(op := UnprepRead(c, d.checkpoint)) else s
    case ReadSpec(ok) =>
      s.(op := UnprepRemove(op.c, op.cp, if ok && op.c in d.specs then d.specs[op.c].mounts else []),
         tearing := s.tearing + {op.c})
    case RemoveMount(ok) =>
      s.(disk := RemoveFolder(d, op.left[0].host, ok && IsHostMounted(op.left[0].container)),
         op := UnprepRemove(op.c, op.cp, op.left[1..]))
    case RemoveSpec(ok) =>
      if ok then s.(disk := d.(specs := d.specs - {op.c}), op := Idle) else s.(op := Idle)
    case Crash => s.(op := Down)
    case Restart(ok, skipped) =>
      s.(op := if ok then Cleaning(MountedFolders(d.specs - skipped), skipped, ConfigIds(d.folders)) else Idle)
    case CleanConfig(id, ok) =>
      if ConfigFolder(id) in op.mounted then s.(op := Cleaning(op.mounted, op.skipped, op.todo - {id}))
      else s.(disk := RemoveFolder(d, ConfigFolder(id), ok),
              op := CleanMetrics(op.mounted, op.skipped, op.todo - {id}, id),
              stripped := s.stripped + if ok then Owners(d.specs, id) else {})
    case CleanOther(ok) =>
      s.(disk := RemoveFolder(d, MetricsFolder(op.id), ok), op := Cleaning(op.mounted, op.skipped, op.todo),
         stripped := s.stripped + if ok then Owners(d.specs, op.id) else {})
    case CleanDone => s.(op := Idle)
  }

  /** s leads to t by the given actions, each enabled in its turn. */
  ghost predicate Leads(s: State, acts: seq<Action>, t: State)
    decreases |acts|
  {
    if acts == [] then s == t
    else Enabled(s, acts[0]) && Leads(Step(s, acts[0]), acts[1..], t)
  }

  // ----- What every step keeps -----

  ghost function IdOf(sp: Spec): Uuid
    requires |sp.mounts| > 0
  {
    sp.mounts[0].host.id
  }

  ghost predicate Shaped(sp: Spec) {
    |sp.mounts| == 2 && sp.mounts == StandardMounts(IdOf(sp))
  }

  predicate OpHasId(op: Op) {
    op.PrepConfig? || op.PrepMetrics? || op.PrepSpec?
  }

  ghost predicate OpHasCheckpoint(op: Op) {
    op.PrepFolder? || OpHasId(op) || op.PrepCommit? || op.UnprepRead? || op.UnprepRemove?
  }

  ghost predicate SpecAt(s: State, c: Claim) {
    c in s.disk.specs ==> Shaped(s.disk.specs[c]) && IdOf(s.disk.specs[c]) in s.used
  }

  ghost predicate ApartAt(s: State, c: Claim, e: Claim) {
    && c in s.disk.specs && e in s.disk.specs && c != e
    && s.disk.specs[c].mounts != [] && s.disk.specs[e].mounts != [] ==>
      IdOf(s.disk.specs[c]) != IdOf(s.disk.specs[e])
  }

  /** The id of a Prepare under way is used, but by no spec yet. */
  ghost predicate OpIdAt(s: State, c: Claim) {
    OpHasId(s.op) ==>
      s.op.id in s.used && (c in s.disk.specs && s.disk.specs[c].mounts != [] ==> IdOf(s.disk.specs[c]) != s.op.id)
  }

  /** Every spec has the standard mounts of a used id, and no two specs share one. */
  ghost predicate SpecsAreApart(s: State) {
    && (forall c {:trigger SpecAt(s, c)} :: SpecAt(s, c))
    && (forall c, e {:trigger ApartAt(s, c, e)} :: ApartAt(s, c, e))
    && (forall c {:trigger OpIdAt(s, c)} :: OpIdAt(s, c))
    && (forall f | f in s.disk.folders :: f.id in s.used)
  }

  /** The loaded checkpoint is the one on disk; a Prepare under way is for a claim that is not held, an
      Unprepare before its commit for one that is. */
  ghost predicate OpIsCurrent(s: State) {
    match s.op
    case Idle => true
    case PrepFolder(c, _, cp) => cp == s.disk.checkpoint && !Holds(cp, c)
    case PrepConfig(c, _, cp, _) => cp == s.disk.checkpoint && !Holds(cp, c)
    case PrepMetrics(c, _, cp, _) => cp == s.disk.checkpoint && !Holds(cp, c)
    case PrepSpec(c, _, cp, _) => cp == s.disk.checkpoint && !Holds(cp, c)
    case PrepCommit(c, devices, cp) =>
      && cp == s.disk.checkpoint && !Holds(cp, c)
      && c in s.disk.specs && s.disk.specs[c].devices == Names(devices)
    case UnprepRead(c, cp) => cp == s.disk.checkpoint && Holds(cp, c)
    case UnprepRemove(c, cp, left) =>
      && cp == s.disk.checkpoint && Holds(cp, c) && c in s.tearing
      && (left == [] || (c in s.disk.specs && IsSuffix(left, s.disk.specs[c].mounts)))
    case UnprepSpec(c) => c !in s.disk.checkpoint
    case Down => true
    case Cleaning(_, _, _) => true
    case CleanMetrics(mounted, _, _, id) => ConfigFolder(id) !in mounted
  }

  /** While the cleaner runs, the mounts it has collected are those of the specs it could read, and the entries it
      has still to look at exist. */
  ghost predicate CleanerIsCurrent(s: State) {
    s.op.Cleaning? || s.op.CleanMetrics? ==>
      && s.op.mounted == MountedFolders(s.disk.specs - s.op.skipped)
      && (forall u | u in s.op.todo :: ConfigFolder(u) in s.disk.folders)
      && (s.op.CleanMetrics? ==> s.op.id !in s.op.todo)
  }

  predicate IsSuffix(left: seq<Mount>, mounts: seq<Mount>) {
    |left| <= |mounts| && left == mounts[|mounts| - |left|..]
  }

  ghost predicate EntryAt(s: State, c: Claim) {
    c in s.disk.checkpoint ==>
      c in s.disk.specs && (s.disk.checkpoint[c] != [] ==> s.disk.specs[c].devices == Names(s.disk.checkpoint[c]))
  }

  /** Every checkpointed claim has its spec on disk, and the spec lists the devices the checkpoint records. */
  ghost predicate CheckpointHasSpecs(s: State) {
    forall c {:trigger EntryAt(s, c)} :: EntryAt(s, c)
  }

  ghost predicate HasFolders(folders: set<Folder>, sp: Spec) {
    sp.mounts != [] && ConfigFolder(IdOf(sp)) in folders && MetricsFolder(IdOf(sp)) in folders
  }

  ghost predicate FoldersAt(s: State, c: Claim) {
    Holds(s.disk.checkpoint, c) && c !in s.tearing ==>
      c in s.disk.specs && (HasFolders(s.disk.folders, s.disk.specs[c]) <==> c !in s.stripped)
  }

  /** Until an Unprepare of it starts to remove them, a held claim has both its folders if and only if the
      cleaner has not stripped it. */
  ghost predicate HeldClaimsHaveFolders(s: State) {
    && (forall c {:trigger FoldersAt(s, c)} :: FoldersAt(s, c))
    && (OpHasId(s.op) ==> ConfigFolder(s.op.id) in s.disk.folders)
    && (s.op.PrepSpec? ==> MetricsFolder(s.op.id) in s.disk.folders)
    && (s.op.PrepCommit? ==> s.op.c in s.disk.specs && HasFolders(s.disk.folders, s.disk.specs[s.op.c]))
  }

  ghost predicate Inv(s: State) {
    SpecsAreApart(s) && OpIsCurrent(s) && CleanerIsCurrent(s) && CheckpointHasSpecs(s) && HeldClaimsHaveFolders(s)
  }

  lemma InitInv()
    ensures Inv(Init())
  {
  }

  lemma StandardIsShaped(devices: seq<string>, id: Uuid)
    ensures var sp := Spec(devices, StandardMounts(id)); Shaped(sp) && IdOf(sp) == id
  {
  }

  lemma ApartKept(s: State, a: Action)
    requires SpecsAreApart(s) && Enabled(s, a)
    ensures SpecsAreApart(Step(s, a))
  {
    var t := Step(s, a);
    if OpHasId(s.op) { assert OpIdAt(s, s.op.c); }
    if a.WriteSpec? { StandardIsShaped(Names(s.op.devices), s.op.id); }
    forall c ensures SpecAt(t, c) {
      assert SpecAt(s, c) && OpIdAt(s, c);
    }
    forall c, e ensures ApartAt(t, c, e) {
      assert ApartAt(s, c, e) && OpIdAt(s, c) && OpIdAt(s, e);
    }
    forall c ensures OpIdAt(t, c) {
      assert SpecAt(s, c) && OpIdAt(s, c);
    }
  }

  lemma CurrentKept(s: State, a: Action)
    requires OpIsCurrent(s) && Enabled(s, a)
    ensures OpIsCurrent(Step(s, a))
  {
    if a.RemoveMount? { assert IsSuffix(s.op.left[1..], s.disk.specs[s.op.c].mounts); }
  }

  lemma CleanerKept(s: State, a: Action)
    requires CleanerIsCurrent(s) && Enabled(s, a)
    ensures CleanerIsCurrent(Step(s, a))
  {
    var t := Step(s, a);
    assert t.op.Cleaning? || t.op.CleanMetrics? ==> t.disk.specs == s.disk.specs;
  }

  lemma SpecsOfEntriesKept(s: State, a: Action)
    requires CheckpointHasSpecs(s) && OpIsCurrent(s) && Enabled(s, a)
    ensures CheckpointHasSpecs(Step(s, a))
  {
    forall c ensures EntryAt(Step(s, a), c) {
      assert EntryAt(s, c);
    }
  }

  lemma FoldersKept(s: State, a: Action)
    requires Inv(s) && Enabled(s, a)
    ensures HeldClaimsHaveFolders(Step(s, a))
  {
    var t := Step(s, a);
    forall c ensures FoldersAt(t, c) {
      if t.disk == s.disk && t.stripped == s.stripped {
        assert FoldersAt(s, c);
      } else {
        FoldersAtKept(s, a, c);
      }
    }
  }

  lemma FoldersAtKept(s: State, a: Action, c: Claim)
    requires Inv(s) && Enabled(s, a)
    requires !(Step(s, a).disk == s.disk && Step(s, a).stripped == s.stripped)
    ensures FoldersAt(Step(s, a), c)
  {
    assert FoldersAt(s, c) && EntryAt(s, c) && OpIdAt(s, c) && SpecAt(s, c);
    if a.RemoveMount? {
      assert ApartAt(s, c, s.op.c) && SpecAt(s, s.op.c);
    }
  }

  /** The folders that the cleaner takes for mounted: those of the specs it could read. */
  lemma MountedIffRead(s: State, skipped: set<Claim>, f: Folder)
    requires SpecsAreApart(s)
    ensures f in MountedFolders(s.disk.specs - skipped) <==>
              exists c :: c in s.disk.specs && IsId(s.disk.specs[c], f.id) && c !in skipped
  {
    var specs := s.disk.specs - skipped;
    if f in MountedFolders(specs) {
      var c, m :| c in specs && m in specs[c].mounts && m.host == f;
      assert SpecAt(s, c) && c in s.disk.specs && IsId(s.disk.specs[c], f.id) && c !in skipped;
    }
    if c :| c in s.disk.specs && IsId(s.disk.specs[c], f.id) && c !in skipped {
      assert SpecAt(s, c) && c in specs;
      var mounts := specs[c].mounts;
      assert mounts[0] == Mount(ConfigPath, ConfigFolder(f.id)) && mounts[1] == Mount(MetricsPath, MetricsFolder(f.id));
      assert mounts[0] in mounts && mounts[1] in mounts;
    }
  }

  lemma MountedIffSpec(s: State, f: Folder)
    requires SpecsAreApart(s)
    ensures f in MountedFolders(s.disk.specs) <==> exists c :: c in s.disk.specs && IsId(s.disk.specs[c], f.id)
  {
    MountedIffRead(s, {}, f);
    assert s.disk.specs - {} == s.disk.specs;
  }

  /** A folder of c's spec counts as mounted in a pass if and only if the pass could read that spec. */
  lemma MountedIffNotSkipped(s: State, skipped: set<Claim>, c: Claim, f: Folder)
    requires SpecsAreApart(s) && c in s.disk.specs && IsId(s.disk.specs[c], f.id)
    ensures f in MountedFolders(s.disk.specs - skipped) <==> c !in skipped
  {
    MountedIffRead(s, skipped, f);
    forall e | e in s.disk.specs && IsId(s.disk.specs[e], f.id) ensures e == c {
      assert ApartAt(s, c, e);
    }
  }

  lemma StepKeepsInv(s: State, a: Action)
    requires Inv(s) && Enabled(s, a)
    ensures Inv(Step(s, a))
  {
    ApartKept(s, a);
    CurrentKept(s, a);
    CleanerKept(s, a);
    SpecsOfEntriesKept(s, a);
    FoldersKept(s, a);
  }

  lemma {:induction false} RunsKeepInv(s: State, acts: seq<Action>, t: State)
    requires Inv(s) && Leads(s, acts, t)
    ensures Inv(t)
    decreases |acts|
  {
    if acts != [] {
      StepKeepsInv(s, acts[0]);
      RunsKeepInv(Step(s, acts[0]), acts[1..], t);
    }
  }

  /** In every reachable state, whatever crashed before: each checkpointed claim has its spec on disk, no two
      specs share a folder, and a held claim that no Unprepare has touched has both its folders if and only if
      no cleaner pass has stripped it. */
  lemma ReachableStatesAreConsistent(acts: seq<Action>, s: State, c: Claim, e: Claim)
    requires Leads(Init(), acts, s)
    ensures c in s.disk.checkpoint ==> c in s.disk.specs
    ensures Holds(s.disk.checkpoint, c) ==> s.disk.specs[c].devices == Names(s.disk.checkpoint[c])
    ensures c in s.disk.specs && e in s.disk.specs && c != e ==>
              forall m, n | m in s.disk.specs[c].mounts && n in s.disk.specs[e].mounts :: m.host.id != n.host.id
    ensures Holds(s.disk.checkpoint, c) && c !in s.tearing ==>
              ((forall m | m in s.disk.specs[c].mounts :: m.host in s.disk.folders) <==> c !in s.stripped)
  {
    InitInv();
    RunsKeepInv(Init(), acts, s);
    assert EntryAt(s, c) && SpecAt(s, c) && SpecAt(s, e) && ApartAt(s, c, e) && FoldersAt(s, c);
    if c in s.disk.specs { MountsOfSpec(s.disk.specs[c], s.disk.folders); }
  }

  /** What a spec holds in every reachable state: the config folder mounted at the config path, the metrics folder
      of the same id at the metrics path, and the names of the devices that the checkpoint records. */
  lemma ReachableSpecsAreComplete(acts: seq<Action>, s: State, c: Claim)
    requires Leads(Init(), acts, s) && c in s.disk.specs
    ensures exists u ::
              s.disk.specs[c].mounts == [Mount(ConfigPath, ConfigFolder(u)), Mount(MetricsPath, MetricsFolder(u))]
    ensures c in s.disk.checkpoint && s.disk.checkpoint[c] != [] ==>
              var names, devices := s.disk.specs[c].devices, s.disk.checkpoint[c];
              |names| == |devices| && forall i | 0 <= i < |devices| :: names[i] == devices[i].deviceName
  {
    InitInv();
    RunsKeepInv(Init(), acts, s);
    assert SpecAt(s, c) && EntryAt(s, c);
    var u := IdOf(s.disk.specs[c]);
    assert s.disk.specs[c].mounts == [Mount(ConfigPath, ConfigFolder(u)), Mount(MetricsPath, MetricsFolder(u))];
  }

  /** An entry without devices counts as absent: Prepare sets to work, Unprepare does nothing. */
  lemma EmptyEntriesCountAsAbsent(s: State, c: Claim, devices: seq<PreparedDevice>)
    requires s.op.Idle?
    ensures Step(s, BeginPrepare(c, devices)).op.PrepFolder? <==>
              c !in s.disk.checkpoint || s.disk.checkpoint[c] == []
    ensures Step(s, BeginUnprepare(c)) == s <==> c !in s.disk.checkpoint || s.disk.checkpoint[c] == []
  {
  }

  lemma MountsOfSpec(sp: Spec, folders: set<Folder>)
    requires Shaped(sp)
    ensures (forall m | m in sp.mounts :: m.host in folders) <==> HasFolders(folders, sp)
  {
    assert sp.mounts[0] in sp.mounts && sp.mounts[1] in sp.mounts;
  }

  // ----- The checkpoint refines a map from claims to devices -----

  type Held = map<Claim, seq<PreparedDevice>>

  datatype Commit = Prepared(c: Claim, devices: seq<PreparedDevice>) | Unprepared(c: Claim)

  /** The entries that are not nil. */
  ghost function Abs(s: State): Held {
    map c | c in s.disk.checkpoint && Holds(s.disk.checkpoint, c) :: s.disk.checkpoint[c]
  }

  /** The abstract operation that takes effect with an action, if any: only checkpoint writes commit. */
  ghost function CommitsOf(s: State, a: Action): seq<Commit> {
    if a != WriteCheckpoint(true) then []
    else if s.op.PrepCommit? && s.op.devices != [] then [Prepared(s.op.c, s.op.devices)]
    else if s.op.UnprepRemove? then [Unprepared(s.op.c)]
    else []
  }

  ghost function Commits(s: State, acts: seq<Action>): seq<Commit>
    decreases |acts|
  {
    if acts == [] || !Enabled(s, acts[0]) then [] else CommitsOf(s, acts[0]) + Commits(Step(s, acts[0]), acts[1..])
  }

  /** The abstract machine: Prepare of a claim that is not held, Unprepare of one that is. */
  ghost predicate AbsLeads(m: Held, commits: seq<Commit>, n: Held)
    decreases |commits|
  {
    if commits == [] then m == n
    else
      match commits[0]
      case Prepared(c, devices) => c !in m && devices != [] && AbsLeads(m[c := devices], commits[1..], n)
      case Unprepared(c) => c in m && AbsLeads(m - {c}, commits[1..], n)
  }

  lemma StepRefines(s: State, a: Action)
    requires Inv(s) && Enabled(s, a)
    ensures AbsLeads(Abs(s), CommitsOf(s, a), Abs(Step(s, a)))
  {
    var t := Step(s, a);
    var k := CommitsOf(s, a);
    if a == WriteCheckpoint(true) && s.op.PrepCommit? {
      if s.op.devices == [] {
        assert Abs(t) == Abs(s);
      } else {
        assert Abs(t) == Abs(s)[s.op.c := s.op.devices];
        assert k[1..] == [];
      }
    } else if a == WriteCheckpoint(true) && s.op.UnprepRemove? {
      assert Abs(t) == Abs(s) - {s.op.c};
      assert k[1..] == [];
    } else {
      assert t.disk.checkpoint == s.disk.checkpoint;
      assert Abs(t) == Abs(s);
    }
  }

  lemma {:induction false} AbsLeadsAppend(m: Held, k: seq<Commit>, n: Held, l: seq<Commit>, o: Held)
    requires AbsLeads(m, k, n) && AbsLeads(n, l, o)
    ensures AbsLeads(m, k + l, o)
    decreases |k|
  {
    if k == [] {
      assert k + l == l;
    } else {
      assert (k + l)[1..] == k[1..] + l;
      var next := if k[0].Prepared? then m[k[0].c := k[0].devices] else m - {k[0].c};
      AbsLeadsAppend(next, k[1..], n, l, o);
    }
  }

  /** Crash-atomicity: over every run, crashes and restarts included, the non-nil checkpoint entries go
      through exactly the committed operations, each in one step. */
  lemma {:induction false} RunsRefine(s: State, acts: seq<Action>, t: State)
    requires Inv(s) && Leads(s, acts, t)
    ensures AbsLeads(Abs(s), Commits(s, acts), Abs(t))
    decreases |acts|
  {
    if acts != [] {
      var next := Step(s, acts[0]);
      StepKeepsInv(s, acts[0]);
      StepRefines(s, acts[0]);
      RunsRefine(next, acts[1..], t);
      AbsLeadsAppend(Abs(s), CommitsOf(s, acts[0]), Abs(next), Commits(next, acts[1..]), Abs(t));
    }
  }

  lemma {:induction false} UncommittedEntryStays(m: Held, k: seq<Commit>, n: Held, c: Claim)
    requires AbsLeads(m, k, n) && c in m && Unprepared(c) !in k
    ensures c in n && n[c] == m[c]
    decreases |k|
  {
    if k != [] {
      var next := if k[0].Prepared? then m[k[0].c := k[0].devices] else m - {k[0].c};
      assert k[0] in k && forall x | x in k[1..] :: x in k;
      UncommittedEntryStays(next, k[1..], n, c);
    }
  }

  /** A repeated Prepare, across any crashes and restarts before its Unprepare commits, finds the same devices
      and changes nothing. */
  lemma RepeatedPrepareChangesNothing(s: State, acts: seq<Action>, t: State, c: Claim, devices: seq<PreparedDevice>)
    requires Inv(s) && Leads(s, acts, t) && t.op.Idle?
    requires Holds(s.disk.checkpoint, c) && Unprepared(c) !in Commits(s, acts)
    ensures Holds(t.disk.checkpoint, c) && t.disk.checkpoint[c] == s.disk.checkpoint[c]
    ensures Step(t, BeginPrepare(c, devices)) == t
  {
    RunsRefine(s, acts, t);
    UncommittedEntryStays(Abs(s), Commits(s, acts), Abs(t), c);
  }

  // ----- Claim isolation -----

  /** Entry, spec and folders of a claim are the same in two states. */
  ghost predicate SameFor(s: State, t: State, c: Claim) {
    SameEntryAndSpec(s.disk, t.disk, c) && SameFolders(s, t, c)
  }

  ghost predicate SameEntryAndSpec(d: Disk, e: Disk, c: Claim) {
    && (c in d.checkpoint <==> c in e.checkpoint)
    && (c in d.checkpoint ==> e.checkpoint[c] == d.checkpoint[c])
    && (c in d.specs <==> c in e.specs)
    && (c in d.specs ==> e.specs[c] == d.specs[c])
  }

  ghost predicate SameFolders(s: State, t: State, c: Claim) {
    c in s.disk.specs && s.disk.specs[c].mounts != [] ==>
      forall f: Folder | f.id == IdOf(s.disk.specs[c]) :: f in t.disk.folders <==> f in s.disk.folders
  }

  predicate WorksOn(op: Op, c: Claim) {
    match op
    case PrepFolder(e, _, _) => e == c
    case PrepConfig(e, _, _, _) => e == c
    case PrepMetrics(e, _, _, _) => e == c
    case PrepSpec(e, _, _, _) => e == c
    case PrepCommit(e, _, _) => e == c
    case UnprepRead(e, _) => e == c
    case UnprepRemove(e, _, _) => e == c
    case UnprepSpec(e) => e == c
    case _ => false
  }

  predicate IsRemoval(a: Action) {
    a.CleanConfig? || a.CleanOther?
  }

  /** The folder that a removal of the cleaner is for. */
  function Target(s: State, a: Action): Folder
    requires Enabled(s, a) && IsRemoval(a)
  {
    if a.CleanConfig? then ConfigFolder(a.id) else MetricsFolder(s.op.id)
  }

  /** The cleaner removes a folder of c's spec, which this pass could not read. */
  ghost predicate Strips(s: State, a: Action, c: Claim)
    requires Enabled(s, a)
  {
    && IsRemoval(a) && a.ok && c in s.op.skipped
    && Target(s, a) in s.disk.folders && c in s.disk.specs && IsId(s.disk.specs[c], Target(s, a).id)
  }

  /** A step touches the claims it does not work on if and only if it is the cleaner stripping one of them. */
  lemma StepLeavesOthersAlone(s: State, a: Action, c: Claim)
    requires Inv(s) && Enabled(s, a) && !WorksOn(s.op, c)
    ensures SameFor(s, Step(s, a), c) <==> !Strips(s, a, c)
    ensures WorksOn(Step(s, a).op, c) ==> (a.BeginPrepare? || a.BeginUnprepare?) && a.claim == c
  {
    StepLeavesEntryAlone(s, a, c);
    StepLeavesBothFoldersAlone(s, a, c);
  }

  lemma StepLeavesBothFoldersAlone(s: State, a: Action, c: Claim)
    requires Inv(s) && Enabled(s, a) && !WorksOn(s.op, c)
    ensures SameFolders(s, Step(s, a), c) <==> !Strips(s, a, c)
  {
    assert SpecAt(s, c);
    if c in s.disk.specs {
      forall f: Folder | f.id == IdOf(s.disk.specs[c])
        ensures f in Step(s, a).disk.folders <==> f in s.disk.folders && !(Strips(s, a, c) && f == Target(s, a))
      {
        StepLeavesFoldersAlone(s, a, c, f);
      }
    }
  }

  lemma StepLeavesEntryAlone(s: State, a: Action, c: Claim)
    requires Inv(s) && Enabled(s, a) && !WorksOn(s.op, c)
    ensures SameEntryAndSpec(s.disk, Step(s, a).disk, c)
    ensures WorksOn(Step(s, a).op, c) ==> (a.BeginPrepare? || a.BeginUnprepare?) && a.claim == c
  {
  }

  /** Of the folders of a claim that it does not work on, a step can remove only what the cleaner takes for
      unmounted, and it creates none. */
  lemma StepLeavesFoldersAlone(s: State, a: Action, c: Claim, f: Folder)
    requires Inv(s) && Enabled(s, a) && !WorksOn(s.op, c)
    requires c in s.disk.specs && IsId(s.disk.specs[c], f.id)
    ensures f in Step(s, a).disk.folders <==> f in s.disk.folders && !(Strips(s, a, c) && f == Target(s, a))
  {
    assert SpecAt(s, c) && OpIdAt(s, c);
    if IsRemoval(a) {
      MountedIffNotSkipped(s, s.op.skipped, c, ConfigFolder(f.id));
    } else if a.RemoveMount? {
      LeftIsOfSpec(s);
      assert ApartAt(s, c, s.op.c);
    }
  }

  ghost predicate StripsIn(s: State, acts: seq<Action>, c: Claim)
    decreases |acts|
  {
    acts != [] && Enabled(s, acts[0]) && (Strips(s, acts[0], c) || StripsIn(Step(s, acts[0]), acts[1..], c))
  }

  predicate LeavesAlone(acts: seq<Action>, c: Claim) {
    forall a | a in acts && (a.BeginPrepare? || a.BeginUnprepare?) :: a.claim != c
  }

  /** Work on other claims, crashes, restarts and cleaning never bring a folder of c back. */
  lemma {:induction false} RunsAddNoFolder(s: State, acts: seq<Action>, t: State, c: Claim, f: Folder)
    requires Inv(s) && Leads(s, acts, t) && !WorksOn(s.op, c) && LeavesAlone(acts, c)
    requires c in s.disk.specs && IsId(s.disk.specs[c], f.id) && f !in s.disk.folders
    ensures f !in t.disk.folders
    decreases |acts|
  {
    if acts != [] {
      assert acts[0] in acts;
      StepKeepsInv(s, acts[0]);
      StepLeavesOthersAlone(s, acts[0], c);
      StepLeavesFoldersAlone(s, acts[0], c, f);
      StepLeavesEntryAlone(s, acts[0], c);
      RunsAddNoFolder(Step(s, acts[0]), acts[1..], t, c, f);
    }
  }

  /** Work on other claims, crashes, restarts and cleaning leave a claim's checkpoint entry, spec and folders
      untouched if and only if no pass strips it. */
  lemma {:induction false} RunsLeaveOthersAlone(s: State, acts: seq<Action>, t: State, c: Claim)
    requires Inv(s) && Leads(s, acts, t) && !WorksOn(s.op, c) && LeavesAlone(acts, c)
    ensures SameFor(s, t, c) <==> !StripsIn(s, acts, c)
    decreases |acts|
  {
    if acts != [] {
      var next := Step(s, acts[0]);
      assert acts[0] in acts;
      StepKeepsInv(s, acts[0]);
      StepLeavesOthersAlone(s, acts[0], c);
      RunsLeaveOthersAlone(next, acts[1..], t, c);
      if Strips(s, acts[0], c) {
        var f := Target(s, acts[0]);
        StepLeavesFoldersAlone(s, acts[0], c, f);
        StepLeavesEntryAlone(s, acts[0], c);
        RunsAddNoFolder(next, acts[1..], t, c, f);
      }
    }
  }

  /** The pass under way could not read c's spec. */
  predicate Overlooks(op: Op, c: Claim) {
    (op.Cleaning? || op.CleanMetrics?) && c in op.skipped
  }

  predicate ReadInEveryPass(acts: seq<Action>, c: Claim) {
    forall a | a in acts && a.Restart? && a.ok :: c !in a.skipped
  }

  /** A claim whose spec is readable in every pass is never stripped. */
  lemma {:induction false} ReadClaimsAreNotStripped(s: State, acts: seq<Action>, t: State, c: Claim)
    requires Inv(s) && Leads(s, acts, t) && !Overlooks(s.op, c) && ReadInEveryPass(acts, c)
    ensures !StripsIn(s, acts, c)
    ensures c in t.stripped ==> c in s.stripped
    decreases |acts|
  {
    if acts != [] {
      var a := acts[0];
      assert a in acts;
      StepKeepsInv(s, a);
      if IsRemoval(a) && c in Owners(s.disk.specs, Target(s, a).id) {
        MountedIffNotSkipped(s, s.op.skipped, c, ConfigFolder(Target(s, a).id));
      }
      ReadClaimsAreNotStripped(Step(s, a), acts[1..], t, c);
    }
  }

  // ----- The zombie cleaner -----

  /** What the cleaner removes of the folders that a spec on disk mounts: exactly those of a spec that this pass
      could not read. */
  lemma CleanerSparesMountedFolders(s: State, a: Action, c: Claim, m: Mount)
    requires Inv(s) && Enabled(s, a) && IsRemoval(a)
    requires c in s.disk.specs && m in s.disk.specs[c].mounts && m.host in s.disk.folders
    ensures m.host !in Step(s, a).disk.folders <==> a.ok && m.host == Target(s, a) && c in s.op.skipped
  {
    assert SpecAt(s, c);
    StepLeavesFoldersAlone(s, a, c, m.host);
  }

  /** The removals that the cleaner has still to make. */
  predicate Doomed(op: Op, f: Folder) {
    && (op.Cleaning? || op.CleanMetrics?)
    && ((f.id in op.todo && ConfigFolder(f.id) !in op.mounted) || (CleanerIsAt(op, f.id) && f.MetricsFolder?))
  }

  /** A removal that succeeds as far as f is concerned. */
  predicate RemovalFor(a: Action, f: Folder) {
    IsRemoval(a) && (a.CleanConfig? || f.MetricsFolder? ==> a.ok)
  }

  lemma PassStep(s: State, a: Action, f: Folder)
    requires OpIsCurrent(s) && CleanerIsCurrent(s) && Enabled(s, a) && RemovalFor(a, f)
    ensures var t := Step(s, a);
            f in t.disk.folders && !Doomed(t.op, f) <==> f in s.disk.folders && !Doomed(s.op, f)
  {
  }

  /** From its walk to its last entry, a pass removes exactly what it found doomed. */
  lemma {:induction false} PassRemovesDoomed(s: State, acts: seq<Action>, t: State, f: Folder)
    requires OpIsCurrent(s) && CleanerIsCurrent(s) && (s.op.Cleaning? || s.op.CleanMetrics?)
    requires Leads(s, acts, t) && Enabled(t, CleanDone) && forall a | a in acts :: RemovalFor(a, f)
    ensures t.disk.specs == s.disk.specs
    ensures f in t.disk.folders <==> f in s.disk.folders && !Doomed(s.op, f)
    decreases |acts|
  {
    if acts != [] {
      assert acts[0] in acts;
      PassStep(s, acts[0], f);
      CurrentKept(s, acts[0]);
      CleanerKept(s, acts[0]);
      PassRemovesDoomed(Step(s, acts[0]), acts[1..], t, f);
    }
  }

  /** s restarts, its cleaner cannot read the specs of the skipped claims, and goes on by these actions to its
      last entry at t, with every removal that concerns f successful. */
  ghost predicate Pass(s: State, skipped: set<Claim>, acts: seq<Action>, t: State, f: Folder) {
    && s.op.Down? && Leads(Step(s, Restart(true, skipped)), acts, t) && Enabled(t, CleanDone)
    && forall a | a in acts :: RemovalFor(a, f)
  }

  lemma PassRemoves(s: State, skipped: set<Claim>, acts: seq<Action>, t: State, f: Folder)
    requires Inv(s) && Pass(s, skipped, acts, t, f)
    ensures t.disk.specs == s.disk.specs
    ensures f in t.disk.folders <==>
              f in s.disk.folders
              && (ConfigFolder(f.id) in s.disk.folders ==> ConfigFolder(f.id) in MountedFolders(s.disk.specs - skipped))
  {
    var start := Step(s, Restart(true, skipped));
    StepKeepsInv(s, Restart(true, skipped));
    PassRemovesDoomed(start, acts, t, f);
    assert f.id in start.op.todo <==> ConfigFolder(f.id) in s.disk.folders by {
      assert ConfigFolder(f.id).id == f.id;
    }
  }

  /** The exact condition: a pass whose removals succeed removes the folders of a claim's spec if and only if it
      could not read that spec. */
  lemma PassRemovesIffSkipped(s: State, skipped: set<Claim>, acts: seq<Action>, t: State, c: Claim, m: Mount)
    requires Inv(s) && Pass(s, skipped, acts, t, m.host)
    requires c in s.disk.specs && m in s.disk.specs[c].mounts
    requires m.host in s.disk.folders && ConfigFolder(m.host.id) in s.disk.folders
    ensures m.host !in t.disk.folders <==> c in skipped
  {
    assert SpecAt(s, c);
    PassRemoves(s, skipped, acts, t, m.host);
    MountedIffNotSkipped(s, skipped, c, ConfigFolder(m.host.id));
  }

  /** Sparing mounted folders does fail: whenever the node is down with a held claim in possession of its folders,
      a restart that cannot read the claim's spec removes both while the claim stays checkpointed. */
  lemma SkippedClaimLosesItsFolders(s: State, c: Claim) returns (acts: seq<Action>, t: State)
    requires Inv(s) && s.op.Down? && Holds(s.disk.checkpoint, c) && c !in s.tearing && c !in s.stripped
    ensures Leads(s, acts, t) && t.disk.checkpoint == s.disk.checkpoint && t.disk.specs == s.disk.specs
    ensures c in t.disk.specs && forall m | m in t.disk.specs[c].mounts :: m.host !in t.disk.folders
  {
    assert EntryAt(s, c) && SpecAt(s, c) && FoldersAt(s, c);
    var u := IdOf(s.disk.specs[c]);
    MountedIffNotSkipped(s, {c}, c, ConfigFolder(u));
    assert u in ConfigIds(s.disk.folders) by { assert ConfigFolder(u).id == u; }
    var s1 := Step(s, Restart(true, {c}));
    var s2 := Step(s1, CleanConfig(u, true));
    t := Step(s2, CleanOther(true));
    assert Leads(t, [], t);
    acts := Prepend(s2, CleanOther(true), [], t);
    acts := Prepend(s1, CleanConfig(u, true), acts, t);
    acts := Prepend(s, Restart(true, {c}), acts, t);
  }

  /** Whatever failed or crashed before, a pass whose config removals succeed leaves no unmounted config folder. */
  lemma PassLeavesOnlyMountedConfigFolders(s: State, skipped: set<Claim>, acts: seq<Action>, t: State, u: Uuid)
    requires Inv(s) && Pass(s, skipped, acts, t, ConfigFolder(u)) && ConfigFolder(u) in t.disk.folders
    ensures ConfigFolder(u) in MountedFolders(t.disk.specs)
  {
    PassRemoves(s, skipped, acts, t, ConfigFolder(u));
    MountedIffRead(s, skipped, ConfigFolder(u));
    MountedIffSpec(s, ConfigFolder(u));
  }

  /** ... and when its metrics removals succeed too, the unmounted folders it leaves are exactly the metrics folders
      that were out of its reach before. */
  lemma PassLeavesOnlyStrandedFolders(s: State, skipped: set<Claim>, acts: seq<Action>, t: State, f: Folder)
    requires Inv(s) && Pass(s, skipped, acts, t, f)
    ensures f in t.disk.folders && f !in MountedFolders(t.disk.specs) <==> f.MetricsFolder? && Stranded(s, f.id)
  {
    PassRemoves(s, skipped, acts, t, f);
    MountedIffRead(s, skipped, ConfigFolder(f.id));
    MountedIffSpec(s, f);
  }

  // ----- Metrics folders out of the cleaner's reach -----

  predicate CleanerIsAt(op: Op, u: Uuid) {
    op.CleanMetrics? && op.id == u
  }

  /** A metrics folder that no spec mounts and whose config sibling, by which the cleaner would find it, is gone. */
  ghost predicate Stranded(s: State, u: Uuid) {
    && MetricsFolder(u) in s.disk.folders
    && ConfigFolder(u) !in s.disk.folders
    && MetricsFolder(u) !in MountedFolders(s.disk.specs)
    && !CleanerIsAt(s.op, u)
  }

  /** The actions that strand u: a crash or a failed removal between the cleaner's two removals when no spec mounts
      u, and removing or replacing the spec that mounts u when only u's config folder could be removed before. */
  ghost predicate Strands(s: State, a: Action, u: Uuid) {
    && MetricsFolder(u) in s.disk.folders
    && ConfigFolder(u) !in s.disk.folders
    && (|| (CleanerIsAt(s.op, u) && !MountedId(s.disk.specs, u) && (a == Crash || a == CleanOther(false)))
        || (s.op.UnprepSpec? && a == RemoveSpec(true) && s.op.c in s.disk.specs && IsId(s.disk.specs[s.op.c], u))
        || (s.op.PrepSpec? && a == WriteSpec(true) && s.op.c in s.disk.specs && IsId(s.disk.specs[s.op.c], u)))
  }

  ghost predicate MountedId(specs: map<Claim, Spec>, u: Uuid) {
    exists c :: c in specs && IsId(specs[c], u)
  }

  /** Replacing or removing the spec of c frees its id and, when replaced, takes the new one. */
  lemma MountedIdAfter(s: State, t: State, c: Claim, u: Uuid)
    requires SpecsAreApart(s) && SpecsAreApart(t)
    requires t.disk.specs - {c} == s.disk.specs - {c}
    ensures MountedId(t.disk.specs, u) <==>
              (c in t.disk.specs && IsId(t.disk.specs[c], u)) ||
              (MountedId(s.disk.specs, u) && !(c in s.disk.specs && IsId(s.disk.specs[c], u)))
  {
    forall e | e != c
      ensures e in t.disk.specs <==> e in s.disk.specs
      ensures e in t.disk.specs ==> t.disk.specs[e] == s.disk.specs[e]
    {
      assert e in t.disk.specs <==> e in t.disk.specs - {c};
      assert e in s.disk.specs <==> e in s.disk.specs - {c};
      assert e in t.disk.specs ==> (t.disk.specs - {c})[e] == (s.disk.specs - {c})[e];
    }
    if e :| e in t.disk.specs && IsId(t.disk.specs[e], u) && e != c {
      assert ApartAt(s, c, e);
      assert SpecAt(s, c);
    }
    if e :| e in s.disk.specs && IsId(s.disk.specs[e], u) && e != c {
      assert e in t.disk.specs && IsId(t.disk.specs[e], u);
    }
  }

  /** Prepare's folders come with a fresh id, the config folder first. */
  lemma StrandedByMake(s: State, a: Action, u: Uuid)
    requires Enabled(s, a) && Inv(s) && (a.MakeConfig? || a.MakeMetrics?)
    ensures Stranded(Step(s, a), u) <==> Stranded(s, u) || Strands(s, a, u)
  {
    assert Step(s, a).disk.specs == s.disk.specs;
    if a.MakeMetrics? { assert ConfigFolder(s.op.id) in s.disk.folders; }
  }

  /** What is left to remove are mounts of the claim's spec: the whole list, the metrics mount, or nothing. */
  lemma LeftIsOfSpec(s: State)
    requires SpecsAreApart(s) && OpIsCurrent(s) && s.op.UnprepRemove? && s.op.left != []
    ensures s.op.c in s.disk.specs && IsId(s.disk.specs[s.op.c], s.op.left[0].host.id)
    ensures var u := IdOf(s.disk.specs[s.op.c]);
            s.op.left[0].host == if |s.op.left| == 2 then ConfigFolder(u) else MetricsFolder(u)
    ensures IsHostMounted(s.op.left[0].container) && |s.op.left| <= 2
  {
    assert SpecAt(s, s.op.c);
    var mounts := s.disk.specs[s.op.c].mounts;
    assert s.op.left[0] == mounts[2 - |s.op.left|];
  }

  /** Unprepare removes folders that its spec still mounts. */
  lemma StrandedByRemoveMount(s: State, a: Action, u: Uuid)
    requires Enabled(s, a) && Inv(s) && a.RemoveMount?
    ensures Stranded(Step(s, a), u) <==> Stranded(s, u) || Strands(s, a, u)
  {
    var id, t := s.op.left[0].host.id, Step(s, a);
    assert t.disk.specs == s.disk.specs;
    if u == id {
      LeftIsOfSpec(s);
      MountedIffSpec(s, MetricsFolder(u));
    } else {
      assert forall f: Folder | f.id != id :: f in t.disk.folders <==> f in s.disk.folders;
    }
  }

  /** The cleaner removes the config folder first and the metrics folder next. */
  lemma StrandedByCleaner(s: State, a: Action, u: Uuid)
    requires Enabled(s, a) && Inv(s) && (a.CleanConfig? || a.CleanOther? || a.Crash?)
    ensures Stranded(Step(s, a), u) <==> Stranded(s, u) || Strands(s, a, u)
  {
    MountedIffSpec(s, MetricsFolder(u));
    MountedIffSpec(s, ConfigFolder(u));
    assert Step(s, a).disk.specs == s.disk.specs;
  }

  lemma StrandedBySpec(s: State, a: Action, u: Uuid)
    requires Enabled(s, a) && Inv(s) && Inv(Step(s, a)) && (a == RemoveSpec(true) || a == WriteSpec(true))
    ensures Stranded(Step(s, a), u) <==> Stranded(s, u) || Strands(s, a, u)
  {
    var t, c := Step(s, a), s.op.c;
    assert t.disk.specs - {c} == s.disk.specs - {c};
    MountedIdAfter(s, t, c, u);
    MountedIffSpec(s, MetricsFolder(u));
    MountedIffSpec(t, MetricsFolder(u));
    assert MountedId(s.disk.specs, u) <==> MetricsFolder(u) in MountedFolders(s.disk.specs);
    assert MountedId(t.disk.specs, u) <==> MetricsFolder(u) in MountedFolders(t.disk.specs);
    if a.WriteSpec? { StandardIsShaped(Names(s.op.devices), s.op.id); }
  }

  /** Exactly these actions strand a metrics folder, and nothing ever frees it again. */
  lemma StrandedStep(s: State, a: Action, u: Uuid)
    requires Inv(s) && Enabled(s, a)
    ensures Stranded(Step(s, a), u) <==> Stranded(s, u) || Strands(s, a, u)
  {
    if a == RemoveSpec(true) || a == WriteSpec(true) {
      StepKeepsInv(s, a);
      StrandedBySpec(s, a, u);
    } else if a.MakeConfig? || a.MakeMetrics? {
      StrandedByMake(s, a, u);
    } else if a.RemoveMount? {
      StrandedByRemoveMount(s, a, u);
    } else if a.CleanConfig? || a.CleanOther? || a.Crash? {
      StrandedByCleaner(s, a, u);
    } else {
      var t := Step(s, a);
      assert t.disk.specs == s.disk.specs && t.disk.folders == s.disk.folders;
    }
  }

  ghost predicate StrandsIn(s: State, acts: seq<Action>, u: Uuid)
    decreases |acts|
  {
    acts != [] && Enabled(s, acts[0]) && (Strands(s, acts[0], u) || StrandsIn(Step(s, acts[0]), acts[1..], u))
  }

  lemma {:induction false} StrandedByRun(s: State, acts: seq<Action>, t: State, u: Uuid)
    requires Inv(s) && Leads(s, acts, t)
    ensures Stranded(t, u) <==> Stranded(s, u) || StrandsIn(s, acts, u)
    decreases |acts|
  {
    if acts != [] {
      StepKeepsInv(s, acts[0]);
      StrandedStep(s, acts[0], u);
      StrandedByRun(Step(s, acts[0]), acts[1..], t, u);
    }
  }

  /** The exact condition: a metrics folder on disk is mounted, has its config sibling, or is the cleaner's next
      removal, if and only if no action of the run has stranded it. */
  lemma MetricsFoldersAreFindableIffNeverStranded(acts: seq<Action>, t: State, u: Uuid)
    requires Leads(Init(), acts, t) && MetricsFolder(u) in t.disk.folders
    ensures !StrandsIn(Init(), acts, u) <==>
              || MetricsFolder(u) in MountedFolders(t.disk.specs) || ConfigFolder(u) in t.disk.folders
              || CleanerIsAt(t.op, u)
  {
    InitInv();
    StrandedByRun(Init(), acts, t, u);
  }

  /** The property does fail: from any idle state, let a Prepare crash before its spec is written and the next
      restart crash between its two removals. */
  lemma CrashesStrandAMetricsFolder(s: State, c: Claim, devices: seq<PreparedDevice>, u: Uuid)
    returns (acts: seq<Action>, t: State)
    requires Inv(s) && s.op.Idle? && !Holds(s.disk.checkpoint, c) && u !in s.used
    ensures Leads(s, acts, t) && Stranded(t, u)
  {
    var both := s.disk.(folders := s.disk.folders + {ConfigFolder(u)} + {MetricsFolder(u)});
    var s4 := State(both, Down, s.used + {u}, s.tearing, s.stripped);
    assert MetricsFolder(u) !in MountedFolders(s.disk.specs) && ConfigFolder(u) !in MountedFolders(s.disk.specs) by {
      MountedIffSpec(s, MetricsFolder(u));
      MountedIffSpec(s, ConfigFolder(u));
      forall e | e in s.disk.specs ensures !IsId(s.disk.specs[e], u) { assert SpecAt(s, e); }
    }
    var tail;
    tail, t := RestartStrands(s4, u);
    var s0 := Step(s, BeginPrepare(c, devices));
    var s1 := Step(s0, MakeConfig(u, true));
    var s2 := Step(s1, WriteConfig(true));
    var s3 := Step(s2, MakeMetrics(true));
    acts := Prepend(s3, Crash, tail, t);
    acts := Prepend(s2, MakeMetrics(true), acts, t);
    acts := Prepend(s1, WriteConfig(true), acts, t);
    acts := Prepend(s0, MakeConfig(u, true), acts, t);
    acts := Prepend(s, BeginPrepare(c, devices), acts, t);
  }

  lemma RestartStrands(s: State, u: Uuid) returns (acts: seq<Action>, t: State)
    requires s.op.Down? && ConfigFolder(u) in s.disk.folders && MetricsFolder(u) in s.disk.folders
    requires ConfigFolder(u) !in MountedFolders(s.disk.specs)
    ensures Leads(s, acts, t) && t.disk.specs == s.disk.specs
    ensures MetricsFolder(u) in t.disk.folders && ConfigFolder(u) !in t.disk.folders && t.op.Down?
  {
    var s1 := Step(s, Restart(true, {}));
    assert u in ConfigIds(s.disk.folders) by { assert ConfigFolder(u).id == u; }
    assert s.disk.specs - {} == s.disk.specs;
    var s2 := Step(s1, CleanConfig(u, true));
    t := Step(s2, Crash);
    assert Leads(t, [], t);
    acts := Prepend(s2, Crash, [], t);
    acts := Prepend(s1, CleanConfig(u, true), acts, t);
    acts := Prepend(s, Restart(true, {}), acts, t);
  }

  lemma Prepend(s: State, a: Action, acts: seq<Action>, t: State) returns (more: seq<Action>)
    requires Enabled(s, a) && Leads(Step(s, a), acts, t)
    ensures more == [a] + acts && Leads(s, more, t)
  {
    more := [a] + acts;
    assert more[1..] == acts;
  }

  // ----- Runs in which every removal succeeds -----

  /** Folder removals and spec reads succeed, and no crash falls between the cleaner's two removals. */
  predicate Smooth(s: State, a: Action) {
    && (a.RemoveMount? || a.CleanConfig? || a.CleanOther? || a.ReadSpec? ==> a.ok)
    && (a.Crash? ==> !s.op.CleanMetrics?)
  }

  /** As far as it works on c, Unprepare can read the spec and remove the folders that it mounts. */
  predicate Removes(s: State, a: Action, c: Claim) {
    WorksOn(s.op, c) && (a.RemoveMount? || a.ReadSpec?) ==> a.ok
  }

  predicate SmoothRun(s: State, acts: seq<Action>)
    decreases |acts|
  {
    acts != [] ==> Enabled(s, acts[0]) && Smooth(s, acts[0]) && SmoothRun(Step(s, acts[0]), acts[1..])
  }

  /** The folders of the mounts that an Unprepare of c has already gone through are gone. */
  ghost predicate RemovedSoFar(s: State, c: Claim) {
    WorksOn(s.op, c) && c in s.disk.specs && s.disk.specs[c].mounts != [] ==>
      var u := IdOf(s.disk.specs[c]);
      && (s.op.UnprepRemove? && |s.op.left| <= 1 ==> ConfigFolder(u) !in s.disk.folders)
      && (s.op.UnprepRemove? && |s.op.left| == 0 ==> MetricsFolder(u) !in s.disk.folders)
      && (s.op.UnprepSpec? ==> ConfigFolder(u) !in s.disk.folders && MetricsFolder(u) !in s.disk.folders)
  }

  /** A spec whose claim is not held has both its folders or no metrics folder, but for the moment between the
      cleaner's two removals. */
  ghost predicate LeftoverAt(s: State, c: Claim) {
    c in s.disk.specs && !Holds(s.disk.checkpoint, c) && s.disk.specs[c].mounts != [] ==>
      var u := IdOf(s.disk.specs[c]);
      MetricsFolder(u) in s.disk.folders && !CleanerIsAt(s.op, u) ==> ConfigFolder(u) in s.disk.folders
  }

  ghost predicate ZombiesAreListed(s: State) {
    s.op.Cleaning? || s.op.CleanMetrics? ==>
      forall u | ConfigFolder(u) in s.disk.folders :: ConfigFolder(u) in s.op.mounted || u in s.op.todo
  }

  ghost predicate SmoothInv(s: State) {
    && (forall c {:trigger RemovedSoFar(s, c)} :: RemovedSoFar(s, c))
    && (forall c {:trigger LeftoverAt(s, c)} :: LeftoverAt(s, c))
    && ZombiesAreListed(s)
    && forall u {:trigger Stranded(s, u)} :: !Stranded(s, u)
  }

  lemma RemovalKept(s: State, a: Action, c: Claim)
    requires Inv(s) && Enabled(s, a) && Removes(s, a, c) && RemovedSoFar(s, c)
    ensures RemovedSoFar(Step(s, a), c)
  {
    if !WorksOn(s.op, c) {
      assert !Step(s, a).op.UnprepRemove? || Step(s, a).op.c != c;
    } else if a.RemoveMount? {
      LeftIsOfSpec(s);
      assert Step(s, a).disk.folders == s.disk.folders - {s.op.left[0].host};
    } else if a.ReadSpec? {
      assert SpecAt(s, c) && EntryAt(s, c);
      assert |Step(s, a).op.left| == 2;
    } else if s.op.UnprepRemove? || s.op.UnprepSpec? {
      assert Step(s, a).disk.folders == s.disk.folders;
    }
  }

  lemma LeftoverKeptByFolders(s: State, a: Action, c: Claim)
    requires Inv(s) && Enabled(s, a) && Smooth(s, a) && LeftoverAt(s, c)
    requires a.MakeConfig? || a.MakeMetrics? || a.RemoveMount? || a.CleanConfig? || a.CleanOther?
    ensures LeftoverAt(Step(s, a), c)
  {
    assert SpecAt(s, c) && OpIdAt(s, c);
    if a.RemoveMount? { assert ApartAt(s, c, s.op.c) && SpecAt(s, s.op.c); }
  }

  lemma LeftoverKept(s: State, a: Action, c: Claim)
    requires Inv(s) && Enabled(s, a) && Smooth(s, a) && RemovedSoFar(s, c) && LeftoverAt(s, c)
    ensures LeftoverAt(Step(s, a), c)
  {
    if a.MakeConfig? || a.MakeMetrics? || a.RemoveMount? || a.CleanConfig? || a.CleanOther? {
      LeftoverKeptByFolders(s, a, c);
    } else {
      if a.WriteSpec? { StandardIsShaped(Names(s.op.devices), s.op.id); }
      assert Step(s, a).disk.folders == s.disk.folders;
    }
  }

  lemma ZombiesKept(s: State, a: Action)
    requires Inv(s) && Enabled(s, a) && Smooth(s, a) && ZombiesAreListed(s)
    ensures ZombiesAreListed(Step(s, a))
  {
    if a.Restart? && a.ok {
      forall u | ConfigFolder(u) in s.disk.folders ensures u in ConfigIds(s.disk.folders) {
        assert ConfigFolder(u).id == u;
      }
    }
  }

  lemma SmoothStepKeeps(s: State, a: Action)
    requires Inv(s) && SmoothInv(s) && Enabled(s, a) && Smooth(s, a)
    ensures SmoothInv(Step(s, a))
  {
    var t := Step(s, a);
    ZombiesKept(s, a);
    forall c ensures RemovedSoFar(t, c) && LeftoverAt(t, c) {
      assert RemovedSoFar(s, c) && LeftoverAt(s, c);
      RemovalKept(s, a, c);
      LeftoverKept(s, a, c);
    }
    forall u ensures !Stranded(t, u) {
      StrandedStep(s, a, u);
      assert !Stranded(s, u);
      if s.op.PrepSpec? || s.op.UnprepSpec? { assert LeftoverAt(s, s.op.c) && RemovedSoFar(s, s.op.c); }
    }
  }

  lemma {:induction false} SmoothRunsKeep(s: State, acts: seq<Action>, t: State)
    requires Inv(s) && SmoothInv(s) && Leads(s, acts, t) && SmoothRun(s, acts)
    ensures Inv(t) && SmoothInv(t)
    decreases |acts|
  {
    if acts != [] {
      StepKeepsInv(s, acts[0]);
      SmoothStepKeeps(s, acts[0]);
      SmoothRunsKeep(Step(s, acts[0]), acts[1..], t);
    }
  }

  lemma InitSmooth()
    ensures SmoothInv(Init())
  {
  }

  /** When every removal succeeds, a metrics folder never leaves the cleaner's reach, and once a restart's
      cleaner is done every folder on disk is mounted by some spec. */
  lemma CleanerLeavesOnlyMountedFolders(acts: seq<Action>, t: State, f: Folder)
    requires Leads(Init(), acts, t) && SmoothRun(Init(), acts)
    ensures f.MetricsFolder? && f in t.disk.folders ==>
              f in MountedFolders(t.disk.specs) || ConfigFolder(f.id) in t.disk.folders || CleanerIsAt(t.op, f.id)
    ensures Enabled(t, CleanDone) && f in t.disk.folders ==> f in MountedFolders(t.disk.specs)
  {
    InitInv();
    InitSmooth();
    SmoothRunsKeep(Init(), acts, t);
    assert !Stranded(t, f.id);
    MountedIffSpec(t, f);
    MountedIffSpec(t, ConfigFolder(f.id));
  }

  // ----- Unprepare converges -----

  predicate Prepares(op: Op) {
    op.PrepFolder? || OpHasId(op) || op.PrepCommit?
  }

  /** While c is being unprepared it is either still held, its spec mounting the folders of u, or it is out of
      the checkpoint and neither folder exists any more. */
  ghost predicate Phase(s: State, c: Claim, u: Uuid) {
    && OpLeavesPhase(s, c, u)
    && (c in s.disk.specs ==> IsId(s.disk.specs[c], u))
    && if Holds(s.disk.checkpoint, c) then c in s.disk.specs && !AtSpecRemoval(s.op, c)
       else c !in s.disk.checkpoint && ConfigFolder(u) !in s.disk.folders && MetricsFolder(u) !in s.disk.folders
  }

  /** No Prepare is under way that works on c or with the folders of u. */
  ghost predicate OpLeavesPhase(s: State, c: Claim, u: Uuid) {
    && u in s.used && (OpHasId(s.op) ==> s.op.id != u)
    && (Prepares(s.op) ==> s.op.c != c)
  }

  predicate AtSpecRemoval(op: Op, c: Claim) {
    op.UnprepSpec? && op.c == c
  }

  /** The checkpoint write of an Unprepare of c comes when both folders are gone. */
  lemma PhaseCommits(s: State, c: Claim, u: Uuid)
    requires Inv(s) && RemovedSoFar(s, c) && Phase(s, c, u)
    requires s.op.UnprepRemove? && s.op.left == [] && s.op.c == c
    ensures Phase(Step(s, WriteCheckpoint(true)), c, u)
  {
    assert SpecAt(s, c);
  }

  /** Every other action leaves c's checkpoint entry alone, creates no folder of u, and keeps c's spec or removes
      it at the end. */
  lemma PhaseKeptWithoutCommit(s: State, a: Action, c: Claim, u: Uuid)
    requires Inv(s) && Enabled(s, a) && Phase(s, c, u) && (a.BeginPrepare? ==> a.claim != c)
    requires !(a == WriteCheckpoint(true) && s.op.UnprepRemove? && s.op.c == c)
    ensures Phase(Step(s, a), c, u)
  {
    var t := Step(s, a);
    assert OpLeavesPhase(t, c, u);
    PhaseMakesNoFolder(s, a, c, u);
    PhaseKeepsEntry(s, a, c, u);
  }

  lemma PhaseMakesNoFolder(s: State, a: Action, c: Claim, u: Uuid)
    requires Enabled(s, a) && OpLeavesPhase(s, c, u)
    ensures ConfigFolder(u) in Step(s, a).disk.folders ==> ConfigFolder(u) in s.disk.folders
    ensures MetricsFolder(u) in Step(s, a).disk.folders ==> MetricsFolder(u) in s.disk.folders
  {
  }

  lemma PhaseKeepsEntry(s: State, a: Action, c: Claim, u: Uuid)
    requires OpIsCurrent(s) && Enabled(s, a) && OpLeavesPhase(s, c, u)
    requires !(a == WriteCheckpoint(true) && s.op.UnprepRemove? && s.op.c == c)
    ensures var m, n := s.disk.checkpoint, Step(s, a).disk.checkpoint;
            && (c in n <==> c in m) && (Holds(n, c) <==> Holds(m, c))
    ensures var m, n := s.disk.specs, Step(s, a).disk.specs;
            && (c in n ==> c in m && n[c] == m[c])
            && (c in m ==> c in n || (a == RemoveSpec(true) && AtSpecRemoval(s.op, c)))
  {
  }

  /** The spec of c outlived its checkpoint entry, and no step is left that would remove it. */
  ghost predicate Leftover(s: State, c: Claim) {
    c !in s.disk.checkpoint && c in s.disk.specs && !AtSpecRemoval(s.op, c)
  }

  /** A crash or failed removal between the checkpoint write of an Unprepare of c and the removal of the spec. */
  predicate CutsShort(s: State, a: Action, c: Claim) {
    AtSpecRemoval(s.op, c) && (a == Crash || a == RemoveSpec(false))
  }

  ghost predicate CutShort(s: State, acts: seq<Action>, c: Claim)
    decreases |acts|
  {
    acts != [] && Enabled(s, acts[0]) && (CutsShort(s, acts[0], c) || CutShort(Step(s, acts[0]), acts[1..], c))
  }

  /** A run that does not prepare c again and in which c's Unprepares can read its spec and remove its folders.
      Anything may happen to other claims, and crashes, restarts and failed writes may come at any time. */
  ghost predicate Unpreparing(s: State, acts: seq<Action>, c: Claim)
    decreases |acts|
  {
    acts != [] ==>
      && Enabled(s, acts[0]) && Removes(s, acts[0], c) && (acts[0].BeginPrepare? ==> acts[0].claim != c)
      && Unpreparing(Step(s, acts[0]), acts[1..], c)
  }

  lemma PhaseKept(s: State, a: Action, c: Claim, u: Uuid)
    requires Inv(s) && RemovedSoFar(s, c) && Phase(s, c, u) && Enabled(s, a) && (a.BeginPrepare? ==> a.claim != c)
    ensures Phase(Step(s, a), c, u)
    ensures Leftover(Step(s, a), c) ==> Leftover(s, c) || CutsShort(s, a, c)
  {
    if a == WriteCheckpoint(true) && s.op.UnprepRemove? && s.op.c == c {
      PhaseCommits(s, c, u);
    } else {
      PhaseKeptWithoutCommit(s, a, c, u);
    }
  }

  lemma {:induction false} UnprepareRunsKeepPhase(s: State, acts: seq<Action>, t: State, c: Claim, u: Uuid)
    requires Inv(s) && RemovedSoFar(s, c) && Phase(s, c, u)
    requires Leads(s, acts, t) && Unpreparing(s, acts, c)
    ensures Inv(t) && RemovedSoFar(t, c) && Phase(t, c, u)
    ensures Leftover(t, c) ==> Leftover(s, c) || CutShort(s, acts, c)
    decreases |acts|
  {
    if acts != [] {
      StepKeepsInv(s, acts[0]);
      RemovalKept(s, acts[0], c);
      PhaseKept(s, acts[0], c, u);
      UnprepareRunsKeepPhase(Step(s, acts[0]), acts[1..], t, c, u);
    }
  }

  /** Unprepare converges: take a held claim, interrupt its Unprepare any number of times, with any work on other
      claims in between, restart as often as needed, and let one more Unprepare of it succeed (a). Then the claim is
      out of the checkpoint and neither of its folders exists; its spec can only be left over when a crash or failed
      removal fell right after a checkpoint write, and then it mounts no existing folder. */
  lemma UnprepareConverges(s: State, acts: seq<Action>, t: State, a: Action, c: Claim)
    requires Inv(s) && s.op.Idle? && Holds(s.disk.checkpoint, c)
    requires Leads(s, acts, t) && Unpreparing(s, acts, c) && Enabled(t, a)
    requires (a == RemoveSpec(true) && AtSpecRemoval(t.op, c)) || (a == BeginUnprepare(c) && Step(t, a).op.Idle?)
    ensures c in s.disk.specs && s.disk.specs[c].mounts != []
    ensures var u, d := IdOf(s.disk.specs[c]), Step(t, a).disk;
            && c !in d.checkpoint
            && ConfigFolder(u) !in d.folders && MetricsFolder(u) !in d.folders
            && (c in d.specs ==> CutShort(s, acts, c) && forall m | m in d.specs[c].mounts :: m.host !in d.folders)
  {
    assert EntryAt(s, c) && SpecAt(s, c);
    var u := IdOf(s.disk.specs[c]);
    UnprepareRunsKeepPhase(s, acts, t, c, u);
    assert SpecAt(t, c);
    if a == RemoveSpec(true) { assert c !in Step(t, a).disk.specs; }
  }
}
