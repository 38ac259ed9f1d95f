/** The device-health goroutines as a transition system: the Start call, any number of listeners and
    reconnectors, and the update loop, interleaved step by step over two atomic flags, the client's
    mutex-protected map and the one-slot update channel. */
module HealthProtocol {
  import opened Addresses
  import opened DeviceHealth
  import opened DeviceTypes
  import opened Wrappers

  /** What is fixed before Start: the first published table, its base states, the reconnect limit. */
  datatype Conf = Conf(table: Allocatable, base: Healths, maxReconnectAttempts: int)

  /** The program counter inside Register. */
  datatype RegPC = CheckRunning | LoadCreds | NewClient | OpenStream | MarkRunning | GoListen

  datatype StartPC = StartRegister(pc: RegPC) | StartDone

  /** attemptReconnect: before the compare-and-swap, at the top of attempt n, inside Register, before the
      deferred reconnecting.Store(false), and gone. */
  datatype ReconPC = Spawned | Attempt(n: nat) | Registering(n: nat, pc: RegPC) | Leaving | Finished

  /** listen: about to receive message `next` of its stream, before the deferred running.Store(false), gone. */
  datatype ListenPC = Receiving(next: nat) | Exiting | Ended

  /** The update loop: waiting for a token, token taken, map built, monitor updated, table stamped. */
  datatype LoopPC = Waiting | Taken | Built(healths: Healths) | Stored | Publishing | Stopped

  datatype Threads = Threads(
    start: StartPC, listeners: map<nat, ListenPC>, recons: map<nat, ReconPC>,
    running: bool, reconnecting: bool, nextId: nat)

  /** One report applied to the client's map: which stream, which message of it, and what it said. */
  datatype Applied = Applied(stream: nat, index: nat, healths: Healths)

  /** `holder` is the listener that has stored a changed map and still has to trigger, holding the mutex. */
  datatype Data = Data(
    client: Healths, holder: Option<nat>, token: bool, loop: LoopPC, monitor: Healths,
    table: Allocatable, published: Allocatable, applied: seq<Applied>)

  datatype State = State(th: Threads, d: Data)

  datatype Action =
    | StartStep(ok: bool)
    | ReconStep(id: nat, ok: bool)            // ok: the step's call succeeds; at the top of an attempt: no quit
    | Receive(id: nat, report: seq<Reported>)
    | Trigger
    | StreamFails(id: nat)                    // EOF or a stream error: a reconnector is spawned
    | ListenerQuits(id: nat)                  // quit, cancelled context or recovered panic
    | ListenerExit(id: nat)                   // the deferred running.Store(false)
    | LoopTake | LoopBuild | LoopStore | LoopStamp | LoopPublish | LoopStop

  function Init(c: Conf): State {
    State(
      Threads(StartRegister(CheckRunning), map[], map[], false, false, 0),
      Data(map[], None, false, Waiting, c.base, c.table, c.table, []))
  }

  /** The outcome of one step inside Register. */
  datatype RegResult = Continue(pc: RegPC) | Registered | Failed

  function RegStep(pc: RegPC, running: bool, ok: bool): RegResult {
    match pc
    case CheckRunning => if running then Registered else Continue(LoadCreds)
    case LoadCreds => if ok then Continue(NewClient) else Failed
    case NewClient => if ok then Continue(OpenStream) else Failed
    case OpenStream => if ok then Continue(MarkRunning) else Failed
    case MarkRunning => Continue(GoListen)
    case GoListen => Registered
  }

  /** The shared effects of a step inside Register: the flag and the spawned listener. */
  function RegEffect(t: Threads, pc: RegPC): Threads {
    match pc
    case MarkRunning => t.(running := true)
    case GoListen => t.(listeners := t.listeners[t.nextId := Receiving(0)], nextId := t.nextId + 1)
    case _ => t
  }

  function SpawnReconnector(t: Threads): Threads {
    t.(recons := t.recons[t.nextId := Spawned], nextId := t.nextId + 1)
  }

  function StartThread(t: Threads, ok: bool): Option<Threads> {
    match t.start
    case StartDone => None
    case StartRegister(pc) =>
      var u := RegEffect(t, pc);
      match RegStep(pc, t.running, ok)
      case Continue(next) => Some(u.(start := StartRegister(next)))
      case Registered => Some(u.(start := StartDone))
      case Failed => Some(SpawnReconnector(u.(start := StartDone)))
  }

  function SetRecon(t: Threads, id: nat, pc: ReconPC): Threads {
    t.(recons := t.recons[id := pc])
  }

  /** The pc at the head of the retry loop: attempt n, or out of the loop. */
  function LoopHead(c: Conf, n: nat): ReconPC {
    if n <= c.maxReconnectAttempts then Attempt(n) else Leaving
  }

  function ReconThread(c: Conf, t: Threads, id: nat, ok: bool): Option<Threads> {
    if id !in t.recons then None
    else
      match t.recons[id]
      case Spawned =>
        if t.reconnecting then Some(SetRecon(t, id, Finished))
        else Some(SetRecon(t, id, LoopHead(c, 1)).(reconnecting := true))
      case Attempt(n) => Some(SetRecon(t, id, if ok then Registering(n, CheckRunning) else Leaving))
      case Registering(n, pc) =>
        var u := RegEffect(t, pc);
        (match RegStep(pc, t.running, ok)
         case Continue(next) => Some(SetRecon(u, id, Registering(n, next)))
         case Registered => Some(SetRecon(u, id, Leaving))
         case Failed => Some(SetRecon(u, id, LoopHead(c, n + 1))))
      case Leaving => Some(SetRecon(t, id, Finished).(reconnecting := false))
      case Finished => None
  }

  function SetListener(t: Threads, id: nat, pc: ListenPC): Threads {
    t.(listeners := t.listeners[id := pc])
  }

  predicate IsReceiving(t: Threads, id: nat) {
    id in t.listeners && t.listeners[id].Receiving?
  }

  function ListenerThread(t: Threads, a: Action): Option<Threads> {
    match a
    case Receive(id, report) =>
      if !IsReceiving(t, id) then None
      else if WellFormed(report) then Some(SetListener(t, id, Receiving(t.listeners[id].next + 1)))
      else Some(SetListener(t, id, Exiting))
    case StreamFails(id) =>
      if IsReceiving(t, id) then Some(SpawnReconnector(SetListener(t, id, Exiting))) else None
    case ListenerQuits(id) =>
      if IsReceiving(t, id) then Some(SetListener(t, id, Exiting)) else None
    case ListenerExit(id) =>
      if id in t.listeners && t.listeners[id].Exiting? then Some(SetListener(t, id, Ended).(running := false)) else None
    case _ => None
  }

  function ThreadStep(c: Conf, t: Threads, a: Action): Option<Threads> {
    match a
    case StartStep(ok) => StartThread(t, ok)
    case ReconStep(id, ok) => ReconThread(c, t, id, ok)
    case Receive(_, _) => ListenerThread(t, a)
    case StreamFails(_) => ListenerThread(t, a)
    case ListenerQuits(_) => ListenerThread(t, a)
    case ListenerExit(_) => ListenerThread(t, a)
    case _ => Some(t)
  }

  /** setAndNotify up to the store: a changed map keeps the mutex held until the trigger. */
  ghost function Apply(d: Data, id: nat, index: nat, report: seq<Reported>): Data
    requires WellFormed(report)
  {
    var m := ReportMap(report);
    d.(client := m,
       holder := if m == d.client then None else Some(id),
       applied := d.applied + [Applied(id, index, m)])
  }

  /** The effect of an action on the shared data; `t` is the thread state before it. */
  ghost function DataStep(c: Conf, t: Threads, d: Data, a: Action): Option<Data> {
    match a
    case Receive(id, report) =>
      if d.holder.Some? || !IsReceiving(t, id) then None
      else if WellFormed(report) then Some(Apply(d, id, t.listeners[id].next, report))
      else Some(d)
    case StreamFails(id) => if d.holder == Some(id) then None else Some(d)
    case ListenerQuits(id) => if d.holder == Some(id) then None else Some(d)
    case Trigger => if d.holder.Some? then Some(d.(holder := None, token := true)) else None
    case LoopTake => if d.loop.Waiting? && d.token then Some(d.(loop := Taken, token := false)) else None
    case LoopBuild =>
      if d.loop.Taken? && d.holder.None? then Some(d.(loop := Built(Overlay(c.base, d.client)))) else None
    case LoopStore => if d.loop.Built? then Some(d.(loop := Stored, monitor := d.loop.healths)) else None
    case LoopStamp =>
      if !d.loop.Stored? then None
      else
        var table := Stamp(d.table, StateNames(d.monitor));
        Some(d.(table := table, loop := if table == d.table then Waiting else Publishing))
    case LoopPublish => if d.loop.Publishing? then Some(d.(published := d.table, loop := Waiting)) else None
    case LoopStop => if d.loop.Waiting? then Some(d.(loop := Stopped)) else None
    case _ => Some(d)
  }

  ghost function Step(c: Conf, s: State, a: Action): Option<State> {
    match (ThreadStep(c, s.th, a), DataStep(c, s.th, s.d, a))
    case (Some(t), Some(d)) => Some(State(t, d))
    case _ => None
  }

  /** The state after a schedule of actions; None when some action was not enabled. */
  ghost function Run(c: Conf, s: State, acts: seq<Action>): Option<State> {
    if acts == [] then Some(s)
    else
      match Run(c, s, acts[..|acts| - 1])
      case None => None
      case Some(t) => Step(c, t, acts[|acts| - 1])
  }

  // ----- Mutual exclusion of listeners -----

  predicate Live(pc: ListenPC) {
    pc.Receiving? || pc.Exiting?
  }

  /** Between a successful compare-and-swap and the deferred reconnecting.Store(false). */
  predicate Inside(pc: ReconPC) {
    pc.Attempt? || pc.Registering? || pc.Leaving?
  }

  /** Past the check of `running` and before its store. */
  predicate Critical(pc: RegPC) {
    pc != CheckRunning && pc != GoListen
  }

  ghost predicate IsLive(t: Threads, i: nat) {
    i in t.listeners && Live(t.listeners[i])
  }

  ghost predicate IsInside(t: Threads, i: nat) {
    i in t.recons && Inside(t.recons[i])
  }

  ghost predicate AtGoListen(t: Threads, i: nat) {
    i in t.recons && t.recons[i].Registering? && t.recons[i].pc == GoListen
  }

  ghost predicate AtCritical(t: Threads, i: nat) {
    i in t.recons && t.recons[i].Registering? && Critical(t.recons[i].pc)
  }

  /** While Start is in Register no other goroutine exists. */
  ghost predicate StartAlone(t: Threads) {
    t.start.StartRegister? ==>
      && t.listeners == map[] && t.recons == map[] && !t.reconnecting
      && (t.running <==> t.start.pc == GoListen)
  }

  ghost predicate IdsAreOld(t: Threads) {
    && (forall i | i in t.listeners :: i < t.nextId)
    && (forall i | i in t.recons :: i < t.nextId)
  }

  /** At most one reconnector is past its compare-and-swap, and `reconnecting` says whether one is. */
  ghost predicate OneReconnector(t: Threads) {
    && (forall i, j | IsInside(t, i) && IsInside(t, j) :: i == j)
    && (t.reconnecting <==> exists i :: IsInside(t, i))
  }

  /** At most one listener is live, and `running` is true exactly when one is or is about to be. */
  ghost predicate OneListener(t: Threads) {
    && (forall i, j | IsLive(t, i) && IsLive(t, j) :: i == j)
    && (forall i | IsLive(t, i) :: t.running)
    && (forall i | AtCritical(t, i) :: !t.running)
    && (forall i | AtGoListen(t, i) :: t.running)
    && (forall i, j | AtGoListen(t, i) && IsLive(t, j) :: false)
    && (t.running ==> t.start.StartRegister? || (exists i :: IsLive(t, i)) || exists i :: AtGoListen(t, i))
  }

  ghost predicate ThreadInv(t: Threads) {
    StartAlone(t) && IdsAreOld(t) && OneReconnector(t) && OneListener(t)
  }

  lemma StartKeeps(t: Threads, ok: bool)
    requires ThreadInv(t) && StartThread(t, ok).Some?
    ensures ThreadInv(StartThread(t, ok).value)
  {
    var u := StartThread(t, ok).value;
    if t.start.pc == GoListen { assert IsLive(u, t.nextId); }
  }

  lemma ReconKeepsIds(c: Conf, t: Threads, id: nat, ok: bool)
    requires ThreadInv(t) && ReconThread(c, t, id, ok).Some?
    ensures var u := ReconThread(c, t, id, ok).value; StartAlone(u) && IdsAreOld(u)
  {
    ReconListeners(c, t, id, ok);
    assert !t.start.StartRegister?;
  }

  /** A reconnector's step as far as the other reconnectors are concerned. */
  lemma ReconKeepsOthers(c: Conf, t: Threads, id: nat, ok: bool, j: nat)
    requires ReconThread(c, t, id, ok).Some? && j != id
    ensures var u := ReconThread(c, t, id, ok).value;
            && (IsInside(u, j) <==> IsInside(t, j))
            && (AtGoListen(u, j) <==> AtGoListen(t, j))
            && (AtCritical(u, j) <==> AtCritical(t, j))
  {
  }

  lemma ReconKeepsReconnector(c: Conf, t: Threads, id: nat, ok: bool)
    requires ThreadInv(t) && ReconThread(c, t, id, ok).Some?
    ensures OneReconnector(ReconThread(c, t, id, ok).value)
  {
    var u := ReconThread(c, t, id, ok).value;
    forall j | j != id ensures IsInside(u, j) <==> IsInside(t, j) {
      ReconKeepsOthers(c, t, id, ok, j);
    }
    assert IsInside(t, id) ==> t.reconnecting;
    assert IsInside(u, id) <==> u.reconnecting && (IsInside(t, id) || !t.reconnecting);
    if u.reconnecting && !IsInside(u, id) {
      var j :| IsInside(t, j);
      assert IsInside(u, j);
    }
  }

  /** When a step touches neither listeners nor `running`, only the stepping reconnector can matter. */
  lemma ListenersUntouched(t: Threads, u: Threads, id: nat)
    requires OneListener(t)
    requires u.listeners == t.listeners && u.running == t.running && u.start == t.start
    requires forall j | j != id :: (AtGoListen(u, j) <==> AtGoListen(t, j)) && (AtCritical(u, j) <==> AtCritical(t, j))
    requires !AtGoListen(t, id) && !AtGoListen(u, id)
    requires AtCritical(u, id) ==> !t.running
    ensures OneListener(u)
  {
    forall j ensures IsLive(u, j) <==> IsLive(t, j) {}
    if j :| AtGoListen(t, j) { assert AtGoListen(u, j); }
    if j :| IsLive(t, j) { assert IsLive(u, j); }
  }

  lemma ReconMarksRunning(c: Conf, t: Threads, id: nat, ok: bool)
    requires ThreadInv(t) && AtCritical(t, id) && t.recons[id].pc == MarkRunning
    ensures OneListener(ReconThread(c, t, id, ok).value)
  {
    var u := ReconThread(c, t, id, ok).value;
    assert IsInside(t, id);
    forall j ensures AtGoListen(u, j) || AtCritical(u, j) ==> j == id {
      if j != id {
        ReconKeepsOthers(c, t, id, ok, j);
        assert AtGoListen(t, j) || AtCritical(t, j) ==> IsInside(t, j);
      }
    }
    assert AtGoListen(u, id);
    forall j ensures !IsLive(u, j) { assert IsLive(u, j) <==> IsLive(t, j); }
  }

  lemma ReconGoesListening(c: Conf, t: Threads, id: nat, ok: bool)
    requires ThreadInv(t) && AtGoListen(t, id)
    ensures OneListener(ReconThread(c, t, id, ok).value)
  {
    var u := ReconThread(c, t, id, ok).value;
    assert IsInside(t, id);
    forall j ensures !AtGoListen(u, j) && !AtCritical(u, j) {
      if j != id {
        ReconKeepsOthers(c, t, id, ok, j);
        assert AtGoListen(t, j) || AtCritical(t, j) ==> IsInside(t, j);
      }
    }
    forall j ensures IsLive(u, j) <==> j == t.nextId { assert !IsLive(t, j); }
    assert IsLive(u, t.nextId);
  }

  lemma ReconKeepsListener(c: Conf, t: Threads, id: nat, ok: bool)
    requires ThreadInv(t) && ReconThread(c, t, id, ok).Some?
    ensures OneListener(ReconThread(c, t, id, ok).value)
  {
    if AtGoListen(t, id) {
      ReconGoesListening(c, t, id, ok);
    } else if AtCritical(t, id) && t.recons[id].pc == MarkRunning {
      ReconMarksRunning(c, t, id, ok);
    } else {
      forall j | j != id
        ensures var u := ReconThread(c, t, id, ok).value;
                (AtGoListen(u, j) <==> AtGoListen(t, j)) && (AtCritical(u, j) <==> AtCritical(t, j))
      {
        ReconKeepsOthers(c, t, id, ok, j);
      }
      ListenersUntouched(t, ReconThread(c, t, id, ok).value, id);
    }
  }

  lemma ListenerKeeps(t: Threads, a: Action)
    requires ThreadInv(t) && ListenerThread(t, a).Some?
    ensures ThreadInv(ListenerThread(t, a).value)
  {
    var u := ListenerThread(t, a).value;
    var id := a.id;
    forall j | j in t.recons ensures j in u.recons && u.recons[j] == t.recons[j] {}
    forall j ensures IsInside(u, j) <==> IsInside(t, j) {}
    forall j ensures (AtGoListen(u, j) <==> AtGoListen(t, j)) && (AtCritical(u, j) <==> AtCritical(t, j)) {}
    forall j ensures j != id ==> (IsLive(u, j) <==> IsLive(t, j)) {}
    assert IsLive(t, id);
    if a.ListenerExit? {
      assert !IsLive(u, id);
    } else {
      assert IsLive(u, id);
    }
  }

  lemma ThreadStepKeeps(c: Conf, t: Threads, a: Action)
    requires ThreadInv(t) && ThreadStep(c, t, a).Some?
    ensures ThreadInv(ThreadStep(c, t, a).value)
  {
    match a
    case StartStep(ok) => StartKeeps(t, ok);
    case ReconStep(id, ok) =>
      ReconKeepsIds(c, t, id, ok);
      ReconKeepsReconnector(c, t, id, ok);
      ReconKeepsListener(c, t, id, ok);
    case Receive(_, _) => ListenerKeeps(t, a);
    case StreamFails(_) => ListenerKeeps(t, a);
    case ListenerQuits(_) => ListenerKeeps(t, a);
    case ListenerExit(_) => ListenerKeeps(t, a);
    case _ =>
  }

  // ----- Reports are applied in the order of one stream after the other -----

  predicate Before(a: Applied, b: Applied) {
    a.stream < b.stream || (a.stream == b.stream && a.index < b.index)
  }

  /** What the client knows: the last report applied, or nothing. */
  function Latest(applied: seq<Applied>): Healths {
    if applied == [] then map[] else applied[|applied| - 1].healths
  }

  ghost predicate OrderInv(t: Threads, d: Data) {
    && (forall k | 0 <= k < |d.applied| :: d.applied[k].stream < t.nextId)
    && (forall j, k | 0 <= j < k < |d.applied| :: Before(d.applied[j], d.applied[k]))
    && (forall i, k | IsReceiving(t, i) && 0 <= k < |d.applied| ::
          Before(d.applied[k], Applied(i, t.listeners[i].next, map[])))
    && (d.holder.Some? ==> IsReceiving(t, d.holder.value))
    && d.client == Latest(d.applied)
  }

  /** Apart from receiving, a step only ends receivers it names, and only starts one under a new id. */
  lemma ReceiverSurvives(c: Conf, t: Threads, a: Action, i: nat)
    requires IdsAreOld(t) && ThreadStep(c, t, a).Some? && !a.Receive?
    ensures var u := ThreadStep(c, t, a).value;
            && t.nextId <= u.nextId
            && (IsReceiving(u, i) ==>
                  (i == t.nextId && i < u.nextId) || (IsReceiving(t, i) && u.listeners[i] == t.listeners[i]))
            && (IsReceiving(t, i) && a != StreamFails(i) && a != ListenerQuits(i) ==> IsReceiving(u, i))
  {
    assert i in t.listeners ==> i < t.nextId;
    match a
    case StartStep(ok) => SpawnedListener(t, StartThread(t, ok).value, i);
    case ReconStep(id, ok) =>
      ReconListeners(c, t, id, ok);
      SpawnedListener(t, ReconThread(c, t, id, ok).value, i);
    case _ =>
  }

  /** A reconnector spawns at most one listener, under the next id. */
  lemma ReconListeners(c: Conf, t: Threads, id: nat, ok: bool)
    requires ReconThread(c, t, id, ok).Some?
    ensures var u := ReconThread(c, t, id, ok).value;
            && u.start == t.start && u.recons.Keys == t.recons.Keys
            && ((u.listeners == t.listeners && u.nextId == t.nextId)
                || (u.listeners == t.listeners[t.nextId := Receiving(0)] && u.nextId == t.nextId + 1))
  {
    var u := ReconThread(c, t, id, ok).value;
    assert u.recons == t.recons[id := u.recons[id]];
    if t.recons[id].Registering? {
      var e := RegEffect(t, t.recons[id].pc);
      assert u.listeners == e.listeners && u.nextId == e.nextId;
    }
  }

  lemma SpawnedListener(t: Threads, u: Threads, i: nat)
    requires IdsAreOld(t) && t.nextId <= u.nextId
    requires u.listeners == t.listeners || (u.listeners == t.listeners[t.nextId := Receiving(0)] && t.nextId < u.nextId)
    ensures IsReceiving(u, i) ==>
              (i == t.nextId && i < u.nextId) || (IsReceiving(t, i) && u.listeners[i] == t.listeners[i])
    ensures IsReceiving(t, i) ==> IsReceiving(u, i)
  {
  }

  lemma ReceiveKeepsOrder(c: Conf, s: State, a: Action)
    requires ThreadInv(s.th) && OrderInv(s.th, s.d) && Step(c, s, a).Some? && a.Receive?
    ensures OrderInv(Step(c, s, a).value.th, Step(c, s, a).value.d)
  {
    var t, u := s.th, Step(c, s, a).value;
    assert IsLive(t, a.id) && a.id < t.nextId;
    forall i: nat | IsReceiving(u.th, i) ensures i == a.id {
      assert IsLive(t, i);
    }
  }

  lemma OrderKeeps(c: Conf, s: State, a: Action)
    requires ThreadInv(s.th) && OrderInv(s.th, s.d) && Step(c, s, a).Some?
    ensures OrderInv(Step(c, s, a).value.th, Step(c, s, a).value.d)
  {
    if a.Receive? {
      ReceiveKeepsOrder(c, s, a);
    } else {
      var t, d, u := s.th, s.d, Step(c, s, a).value;
      assert u.d.applied == d.applied && u.d.client == d.client && (u.d.holder == d.holder || u.d.holder == None);
      assert t.nextId <= u.th.nextId by { ReceiverSurvives(c, t, a, 0); }
      forall i: nat | IsReceiving(u.th, i)
        ensures forall k | 0 <= k < |d.applied| :: Before(d.applied[k], Applied(i, u.th.listeners[i].next, map[]))
      {
        ReceiverSurvives(c, t, a, i);
      }
      if u.d.holder.Some? { ReceiverSurvives(c, t, a, d.holder.value); }
    }
  }

  // ----- No lost update -----

  ghost predicate GoodConf(c: Conf) {
    && c.base.Keys == BaseOf(c.table)
    && (forall a | a in c.base :: c.base[a].state == ONLINE)
    && forall n | n in c.table ::
         DEVICE_STATE in c.table[n].attributes && c.table[n].attributes[DEVICE_STATE] == ONLINE
  }

  /** A notification is under way: in the channel, or about to be put there. */
  predicate Pending(d: Data) {
    d.token || d.holder.Some?
  }

  /** The map that the update loop has most recently built. */
  function InHand(d: Data): Healths {
    if d.loop.Built? then d.loop.healths else d.monitor
  }

  ghost predicate StampedAt(table: Allocatable, healths: Healths, n: string) {
    n in table ==>
      && table[n].addr in healths
      && DEVICE_STATE in table[n].attributes
      && table[n].attributes[DEVICE_STATE] == healths[table[n].addr].StateName()
  }

  /** Every device of the table carries the name of its state. */
  ghost predicate Stamped(table: Allocatable, healths: Healths) {
    forall n {:trigger StampedAt(table, healths, n)} :: StampedAt(table, healths, n)
  }

  ghost predicate SameDeviceAt(table: Allocatable, other: Allocatable, n: string) {
    n in table && n in other ==>
      && table[n].addr == other[n].addr
      && table[n].deviceType == other[n].deviceType
      && table[n].attributes - {DEVICE_STATE} == other[n].attributes - {DEVICE_STATE}
  }

  /** Two tables list the same devices, which differ in nothing but the device state attribute. */
  ghost predicate SameDevices(table: Allocatable, other: Allocatable) {
    && table.Keys == other.Keys
    && forall n {:trigger SameDeviceAt(table, other, n)} :: SameDeviceAt(table, other, n)
  }

  ghost predicate DataInv(c: Conf, d: Data) {
    && InHand(d).Keys == d.monitor.Keys == c.base.Keys
    && SameDevices(d.table, c.table)
    // Whatever the loop has built since the last notification is the base overlaid with the client's map.
    && (!Pending(d) && !d.loop.Taken? && !d.loop.Stopped? ==> InHand(d) == Overlay(c.base, d.client))
    && (!d.loop.Stored? ==> Stamped(d.table, d.monitor))
    && (!d.loop.Publishing? ==> d.published == d.table)
  }

  lemma StampedByStamp(table: Allocatable, healths: Healths, n: string)
    requires n in table && table[n].addr in healths
    ensures var stamped := Stamp(table, StateNames(healths));
            StampedAt(stamped, healths, n) && SameDeviceAt(stamped, table, n)
  {
    var d := StampDevice(table[n], StateNames(healths));
    assert d.attributes == table[n].attributes[DEVICE_STATE := healths[table[n].addr].StateName()];
    assert d.attributes - {DEVICE_STATE} == table[n].attributes - {DEVICE_STATE};
  }

  lemma InitIsGood(c: Conf)
    requires GoodConf(c)
    ensures ThreadInv(Init(c).th) && OrderInv(Init(c).th, Init(c).d) && DataInv(c, Init(c).d)
  {
    assert Overlay(c.base, map[]) == c.base;
    forall n ensures StampedAt(c.table, c.base, n) {
      if n in c.table { BaseHasAddress(c.table, n); }
    }
  }

  lemma BaseHasAddress(table: Allocatable, n: string)
    requires n in table
    ensures table[n].addr in BaseOf(table)
  {
  }

  lemma StampKeepsTable(c: Conf, table: Allocatable, monitor: Healths, n: string)
    requires GoodConf(c) && monitor.Keys == c.base.Keys && SameDevices(table, c.table)
    ensures var stamped := Stamp(table, StateNames(monitor));
            StampedAt(stamped, monitor, n) && SameDeviceAt(stamped, c.table, n)
  {
    if n in table {
      assert SameDeviceAt(table, c.table, n);
      BaseHasAddress(c.table, n);
      StampedByStamp(table, monitor, n);
    }
  }

  lemma StampKeeps(c: Conf, d: Data)
    requires GoodConf(c) && DataInv(c, d) && d.loop.Stored?
    ensures Stamped(Stamp(d.table, StateNames(d.monitor)), d.monitor)
    ensures SameDevices(Stamp(d.table, StateNames(d.monitor)), c.table)
  {
    var stamped := Stamp(d.table, StateNames(d.monitor));
    forall n ensures StampedAt(stamped, d.monitor, n) && SameDeviceAt(stamped, c.table, n) {
      StampKeepsTable(c, d.table, d.monitor, n);
    }
  }

  lemma DataKeeps(c: Conf, s: State, a: Action)
    requires GoodConf(c) && DataInv(c, s.d) && Step(c, s, a).Some?
    ensures DataInv(c, Step(c, s, a).value.d)
  {
    if a.LoopStamp? { StampKeeps(c, s.d); }
  }

  ghost predicate Inv(c: Conf, s: State) {
    ThreadInv(s.th) && OrderInv(s.th, s.d) && DataInv(c, s.d)
  }

  lemma {:induction false} RunsKeepInv(c: Conf, s: State, acts: seq<Action>)
    requires GoodConf(c) && Inv(c, s) && Run(c, s, acts).Some?
    ensures Inv(c, Run(c, s, acts).value)
  {
    if acts != [] {
      var init, a := acts[..|acts| - 1], acts[|acts| - 1];
      RunsKeepInv(c, s, init);
      var t := Run(c, s, init).value;
      ThreadStepKeeps(c, t.th, a);
      OrderKeeps(c, t, a);
      DataKeeps(c, t, a);
    }
  }

  lemma ReachableStatesAreGood(c: Conf, acts: seq<Action>)
    requires GoodConf(c) && Run(c, Init(c), acts).Some?
    ensures Inv(c, Run(c, Init(c), acts).value)
  {
    InitIsGood(c);
    RunsKeepInv(c, Init(c), acts);
  }

  /** In every interleaving at most one listener is before its own running.Store(false), at most one
      reconnector is past its compare-and-swap, and a live listener means that `running` is set. */
  lemma ListenersExcludeEachOther(c: Conf, acts: seq<Action>, i: nat, j: nat)
    requires GoodConf(c) && Run(c, Init(c), acts).Some?
    ensures var t := Run(c, Init(c), acts).value.th;
            && (i in t.listeners && j in t.listeners && !t.listeners[i].Ended? && !t.listeners[j].Ended? ==> i == j)
            && (IsInside(t, i) && IsInside(t, j) ==> i == j)
            && (i in t.listeners && !t.listeners[i].Ended? ==> t.running)
  {
    ReachableStatesAreGood(c, acts);
    var t := Run(c, Init(c), acts).value.th;
    assert i in t.listeners && !t.listeners[i].Ended? <==> IsLive(t, i);
    assert j in t.listeners && !t.listeners[j].Ended? <==> IsLive(t, j);
  }

  /** Reports are applied stream by stream, and in message order within a stream; the client's map is the
      last report applied. */
  lemma ReportsAreAppliedInOrder(c: Conf, acts: seq<Action>)
    requires GoodConf(c) && Run(c, Init(c), acts).Some?
    ensures var d := Run(c, Init(c), acts).value.d;
            && (forall j, k | 0 <= j < k < |d.applied| :: Before(d.applied[j], d.applied[k]))
            && d.client == Latest(d.applied)
  {
    ReachableStatesAreGood(c, acts);
  }

  /** No update is lost: when no notification is pending and the loop waits, the monitor and the published
      state of every device reflect the client's latest report over the base. */
  lemma NoLostUpdate(c: Conf, acts: seq<Action>)
    requires GoodConf(c) && Run(c, Init(c), acts).Some?
    ensures var d := Run(c, Init(c), acts).value.d;
            !Pending(d) && d.loop.Waiting? ==>
              && d.monitor == Overlay(c.base, Latest(d.applied))
              && SameDevices(d.published, c.table)
              && Stamped(d.published, d.monitor)
  {
    ReachableStatesAreGood(c, acts);
  }

  // ----- The update loop catches up -----

  predicate IsLoopAction(a: Action) {
    a.LoopTake? || a.LoopBuild? || a.LoopStore? || a.LoopStamp? || a.LoopPublish?
  }

  /** How many steps the loop is away from waiting on an empty channel, at most. */
  function Work(d: Data): nat {
    (match d.loop
     case Waiting => 0
     case Taken => 4
     case Built(_) => 3
     case Stored => 2
     case Publishing => 1
     case Stopped => 0)
    + if d.token then 5 else 0
  }

  function NextLoopAction(d: Data): Action {
    match d.loop
    case Waiting => LoopTake
    case Taken => LoopBuild
    case Built(_) => LoopStore
    case Stored => LoopStamp
    case Publishing => LoopPublish
    case Stopped => LoopTake
  }

  lemma LoopStepProgresses(c: Conf, s: State)
    requires !s.d.loop.Stopped? && s.d.holder.None? && (!s.d.loop.Waiting? || s.d.token)
    ensures var r := Step(c, s, NextLoopAction(s.d));
            && r.Some? && r.value.th == s.th && r.value.d.applied == s.d.applied
            && !r.value.d.loop.Stopped? && r.value.d.holder.None? && Work(r.value.d) < Work(s.d)
  {
  }

  lemma {:induction false} RunPrefix(c: Conf, s: State, a: Action, acts: seq<Action>)
    requires Step(c, s, a).Some?
    ensures Run(c, s, [a] + acts) == Run(c, Step(c, s, a).value, acts)
  {
    if acts == [] {
      assert [a] + acts == [a] && [a][..0] == [];
      assert Run(c, s, []) == Some(s);
    } else {
      var init := acts[..|acts| - 1];
      RunPrefix(c, s, a, init);
      assert ([a] + acts)[..|acts|] == [a] + init;
    }
  }

  /** Unless it was stopped or a listener is between its store and its trigger, the loop can finish alone: in
      at most nine of its own steps it waits on an empty channel, with the client's map untouched. */
  lemma {:induction false} LoopCatchesUp(c: Conf, s: State) returns (acts: seq<Action>)
    requires !s.d.loop.Stopped? && s.d.holder.None?
    ensures |acts| <= Work(s.d) && forall i | 0 <= i < |acts| :: IsLoopAction(acts[i])
    ensures Run(c, s, acts).Some?
    ensures var u := Run(c, s, acts).value;
            u.th == s.th && u.d.applied == s.d.applied && u.d.loop.Waiting? && !Pending(u.d)
    decreases Work(s.d)
  {
    if s.d.loop.Waiting? && !s.d.token {
      acts := [];
    } else {
      var a := NextLoopAction(s.d);
      LoopStepProgresses(c, s);
      var t := Step(c, s, a).value;
      var rest := LoopCatchesUp(c, t);
      RunPrefix(c, s, a, rest);
      acts := [a] + rest;
    }
  }

  lemma {:induction false} RunAppend(c: Conf, s: State, acts: seq<Action>, more: seq<Action>)
    requires Run(c, s, acts).Some?
    ensures Run(c, s, acts + more) == Run(c, Run(c, s, acts).value, more)
  {
    if more == [] {
      assert acts + more == acts;
    } else {
      RunAppend(c, s, acts, more[..|more| - 1]);
      assert (acts + more)[..|acts + more| - 1] == acts + more[..|more| - 1];
    }
  }

  /** From every reachable state with the loop alive and the mutex free, at most nine loop steps publish the
      client's latest report. */
  lemma LatestReportGetsPublished(c: Conf, acts: seq<Action>) returns (loopActs: seq<Action>)
    requires GoodConf(c) && Run(c, Init(c), acts).Some?
    requires var d := Run(c, Init(c), acts).value.d; !d.loop.Stopped? && d.holder.None?
    ensures |loopActs| <= 9 && forall i | 0 <= i < |loopActs| :: IsLoopAction(loopActs[i])
    ensures Run(c, Init(c), acts + loopActs).Some?
    ensures var d := Run(c, Init(c), acts + loopActs).value.d;
            Stamped(d.published, Overlay(c.base, Latest(Run(c, Init(c), acts).value.d.applied)))
  {
    loopActs := LoopCatchesUp(c, Run(c, Init(c), acts).value);
    RunAppend(c, Init(c), acts, loopActs);
    NoLostUpdate(c, acts + loopActs);
  }

  // ----- The methods are uninterrupted runs of the steps -----

  lemma {:induction false} RunOne(c: Conf, s: State, a: Action)
    ensures Run(c, s, [a]) == Step(c, s, a)
  {
    assert [a][..0] == [];
    assert Run(c, s, []) == Some(s);
  }

  /** Receiving a report and triggering, without interruption, has the effect that SetAndNotify ensures. */
  lemma ReceiveIsSetAndNotify(c: Conf, s: State, id: nat, report: seq<Reported>)
    requires IsReceiving(s.th, id) && s.d.holder.None? && WellFormed(report)
    ensures var changed := ReportMap(report) != s.d.client;
            var r := Run(c, s, [Receive(id, report)] + if changed then [Trigger] else []);
            && r.Some? && r.value.d.holder.None?
            && r.value.d.client == ReportMap(report)
            && r.value.d.token == (s.d.token || changed)
  {
    var t := Step(c, s, Receive(id, report)).value;
    var rest := if ReportMap(report) != s.d.client then [Trigger] else [];
    RunPrefix(c, s, Receive(id, report), rest);
    if rest == [] { assert Run(c, t, []) == Some(t); } else { RunOne(c, t, Trigger); }
  }

  /** The end of a turn: stamp the table and publish it if that changed it. */
  lemma LoopTurnEnds(c: Conf, s: State) returns (acts: seq<Action>)
    requires s.d.loop.Stored?
    ensures var table := Stamp(s.d.table, StateNames(s.d.monitor));
            Run(c, s, acts) == Some(State(s.th, s.d.(
              loop := Waiting, table := table, published := if table == s.d.table then s.d.published else table)))
  {
    var table := Stamp(s.d.table, StateNames(s.d.monitor));
    var stamped := State(s.th, s.d.(table := table, loop := if table == s.d.table then Waiting else Publishing));
    var done := State(s.th, s.d.(
      loop := Waiting, table := table, published := if table == s.d.table then s.d.published else table));
    if table == s.d.table {
      acts := [];
      assert stamped == done && Run(c, stamped, []) == Some(done);
    } else {
      acts := [LoopPublish];
      RunOne(c, stamped, LoopPublish);
    }
    acts := RunFirst(c, s, LoopStamp, stamped, acts, done);
  }

  /** One turn of the loop, without interruption, has the effect that ProcessUpdate ensures. */
  lemma LoopTurnIsProcessUpdate(c: Conf, s: State) returns (acts: seq<Action>)
    requires s.d.loop.Waiting? && s.d.token && s.d.holder.None?
    ensures var healths := Overlay(c.base, s.d.client);
            var table := Stamp(s.d.table, StateNames(healths));
            Run(c, s, acts) == Some(State(s.th, s.d.(
              token := false, monitor := healths, table := table,
              published := if table == s.d.table then s.d.published else table)))
  {
    var healths := Overlay(c.base, s.d.client);
    var s1 := State(s.th, s.d.(loop := Taken, token := false));
    var s2 := State(s.th, s1.d.(loop := Built(healths)));
    var s3 := State(s.th, s2.d.(loop := Stored, monitor := healths));
    acts := LoopTurnEnds(c, s3);
    var u := Run(c, s3, acts).value;
    acts := RunFirst(c, s2, LoopStore, s3, acts, u);
    acts := RunFirst(c, s1, LoopBuild, s2, acts, u);
    acts := RunFirst(c, s, LoopTake, s1, acts, u);
  }

  lemma RunFirst(c: Conf, s: State, a: Action, t: State, acts: seq<Action>, u: State) returns (more: seq<Action>)
    requires Step(c, s, a) == Some(t) && Run(c, t, acts) == Some(u)
    ensures Run(c, s, more) == Some(u)
  {
    RunPrefix(c, s, a, acts);
    more := [a] + acts;
  }

  // ----- Reconnection is not guaranteed -----

  ghost predicate NobodyIsLeft(t: Threads) {
    && t.start.StartDone? && !t.running && !t.reconnecting
    && (forall i | i in t.listeners :: t.listeners[i].Ended?)
    && (forall i | i in t.recons :: t.recons[i].Finished?)
  }

  /** No quit, no cancellation and no failing call. */
  predicate Faultless(a: Action) {
    !a.ListenerQuits? && (a.StartStep? || a.ReconStep? ==> a.ok)
  }

  lemma RunOn(c: Conf, acts: seq<Action>, s: State, a: Action, t: State) returns (more: seq<Action>)
    requires Run(c, Init(c), acts) == Some(s) && Step(c, s, a) == Some(t)
    requires Faultless(a) && forall b | b in acts :: Faultless(b)
    ensures Run(c, Init(c), more) == Some(t) && forall b | b in more :: Faultless(b)
  {
    more := acts + [a];
    assert more[..|acts|] == acts;
  }

  lemma StartRegisters(c: Conf) returns (acts: seq<Action>, s: State)
    ensures Run(c, Init(c), acts) == Some(s) && s.d == Init(c).d && forall b | b in acts :: Faultless(b)
    ensures s.th == Threads(StartDone, map[0 := Receiving(0)], map[], true, false, 1)
  {
    var d := Init(c).d;
    var pcs := [CheckRunning, LoadCreds, NewClient, OpenStream, MarkRunning];
    acts, s := [], Init(c);
    for i := 0 to 4
      invariant Run(c, Init(c), acts) == Some(s) && forall b | b in acts :: Faultless(b)
      invariant s == State(Threads(StartRegister(pcs[i]), map[], map[], false, false, 0), d)
    {
      var t := State(Threads(StartRegister(pcs[i + 1]), map[], map[], false, false, 0), d);
      acts := RunOn(c, acts, s, StartStep(true), t);
      s := t;
    }
    var marked := State(Threads(StartRegister(GoListen), map[], map[], true, false, 0), d);
    acts := RunOn(c, acts, s, StartStep(true), marked);
    s := State(Threads(StartDone, map[0 := Receiving(0)], map[], true, false, 1), d);
    acts := RunOn(c, acts, marked, StartStep(true), s);
  }

  /** A stream failure need not lead to a reconnection, however many attempts are allowed: the reconnector that
      the listener spawns may run before the listener's deferred running.Store(false), take the stale flag for
      success and leave. In the end nobody listens and nobody tries, with no quit and no failing call. */
  lemma ReconnectionCanBeMissed(c: Conf) returns (acts: seq<Action>, s: State)
    requires c.maxReconnectAttempts >= 1
    ensures Run(c, Init(c), acts) == Some(s) && NobodyIsLeft(s.th) && forall b | b in acts :: Faultless(b)
  {
    acts, s := StartRegisters(c);
    var d, exiting := s.d, map[0 := Exiting];
    var s1 := State(Threads(StartDone, exiting, map[1 := Spawned], true, false, 2), d);
    assert s.th.listeners[0 := Exiting] == exiting;
    acts := RunOn(c, acts, s, StreamFails(0), s1);
    var pcs := [Spawned, Attempt(1), Registering(1, CheckRunning), Leaving];
    for i := 0 to 3
      invariant Run(c, Init(c), acts) == Some(s1) && forall b | b in acts :: Faultless(b)
      invariant s1 == State(Threads(StartDone, exiting, map[1 := pcs[i]], true, i > 0, 2), d)
    {
      var next := State(Threads(StartDone, exiting, map[1 := pcs[i + 1]], true, true, 2), d);
      assert s1.th.recons[1 := pcs[i + 1]] == next.th.recons;
      acts := RunOn(c, acts, s1, ReconStep(1, true), next);
      s1 := next;
    }
    var s2 := State(Threads(StartDone, exiting, map[1 := Finished], true, false, 2), d);
    assert s1.th.recons[1 := Finished] == s2.th.recons;
    acts := RunOn(c, acts, s1, ReconStep(1, true), s2);
    s := State(Threads(StartDone, map[0 := Ended], map[1 := Finished], false, false, 2), d);
    assert s2.th.listeners[0 := Ended] == s.th.listeners;
    acts := RunOn(c, acts, s2, ListenerExit(0), s);
  }
}
