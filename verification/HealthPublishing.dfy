/** From the stream to the slice: what every published device shows, said of the schedule itself. */
module HealthPublishing {
  import opened Addresses
  import opened DeviceHealth
  import opened DeviceTypes
  import opened HealthProtocol
  import opened Wrappers

  /** Every entry of a report has a device ID; a report without panics its listener. */
  ghost predicate IsUsable(report: seq<Reported>) {
    forall j | 0 <= j < |report| :: report[j].id.Some?
  }

  ghost predicate ReceivesAt(acts: seq<Action>, i: int) {
    0 <= i < |acts| && acts[i].Receive? && IsUsable(acts[i].report)
  }

  /** The i-th action of the schedule received the latest report. */
  ghost predicate LatestAt(acts: seq<Action>, i: int) {
    ReceivesAt(acts, i) && forall k | ReceivesAt(acts, k) :: k <= i
  }

  ghost predicate SpeaksOf(report: seq<Reported>, j: int, a: Address) {
    0 <= j < |report| && report[j].id == Some(a)
  }

  /** The j-th entry is the last that the report has for a. */
  ghost predicate SpeaksLastOf(report: seq<Reported>, j: int, a: Address) {
    SpeaksOf(report, j, a) && forall k | SpeaksOf(report, k, a) :: k <= j
  }

  /** The latest report says that a is in this state, or says nothing of a, which then counts as online. */
  ghost predicate LatestState(acts: seq<Action>, a: Address, state: string) {
    if exists i, j :: LatestAt(acts, i) && SpeaksLastOf(acts[i].report, j, a)
    then exists i, j :: LatestAt(acts, i) && SpeaksLastOf(acts[i].report, j, a) && acts[i].report[j].state == state
    else state == "ONLINE"
  }

  /** A published device shows its latest state, and is otherwise as it was first published. */
  ghost predicate ShowsLatest(c: Conf, acts: seq<Action>, published: Allocatable, n: string) {
    n in published && n in c.table ==>
      && published[n].addr == c.table[n].addr && published[n].deviceType == c.table[n].deviceType
      && published[n].attributes - {"deviceState"} == c.table[n].attributes - {"deviceState"}
      && exists state :: LatestState(acts, c.table[n].addr, state) && ShowsState(published[n], state)
  }

  ghost predicate AllShowLatest(c: Conf, acts: seq<Action>, published: Allocatable) {
    && published.Keys == c.table.Keys
    && forall n {:trigger ShowsLatest(c, acts, published, n)} :: ShowsLatest(c, acts, published, n)
  }

  // ----- The client's map is the latest report of the schedule -----

  /** The map that the latest usable report makes. */
  ghost function LatestMap(acts: seq<Action>): Healths {
    if acts == [] then map[]
    else
      var a := acts[|acts| - 1];
      if a.Receive? && WellFormed(a.report) then ReportMap(a.report) else LatestMap(acts[..|acts| - 1])
  }

  lemma {:induction false} ClientHasLatestMap(c: Conf, acts: seq<Action>)
    requires Run(c, Init(c), acts).Some?
    ensures Run(c, Init(c), acts).value.d.client == LatestMap(acts)
  {
    if acts != [] {
      var init := acts[..|acts| - 1];
      ClientHasLatestMap(c, init);
      ClientAfterStep(c, Run(c, Init(c), init).value, acts[|acts| - 1]);
    }
  }

  lemma ClientAfterStep(c: Conf, s: State, a: Action)
    requires Step(c, s, a).Some?
    ensures Step(c, s, a).value.d.client ==
              if a.Receive? && WellFormed(a.report) then ReportMap(a.report) else s.d.client
  {
  }

  /** The latest map in terms of the schedule. */
  lemma {:induction false} LatestMapIsLatest(acts: seq<Action>, i: int)
    requires LatestAt(acts, i)
    ensures WellFormed(acts[i].report) && LatestMap(acts) == ReportMap(acts[i].report)
  {
    var init := acts[..|acts| - 1];
    if i < |init| {
      forall k ensures ReceivesAt(init, k) <==> ReceivesAt(acts, k) && k < |init| {}
      assert !ReceivesAt(acts, |init|);
      LatestMapIsLatest(init, i);
    }
  }

  lemma {:induction false} LatestExists(acts: seq<Action>)
    ensures LatestMap(acts) == map[] || exists i :: LatestAt(acts, i)
  {
    if acts != [] {
      var init, last := acts[..|acts| - 1], acts[|acts| - 1];
      LatestExists(init);
      forall k ensures ReceivesAt(init, k) <==> ReceivesAt(acts, k) && k < |init| {}
      if ReceivesAt(acts, |init|) {
        assert LatestAt(acts, |init|);
      } else if i :| LatestAt(init, i) {
        assert ReceivesAt(acts, i) && LatestAt(acts, i);
      }
    }
  }

  lemma {:induction false} LastEntry(report: seq<Reported>, a: Address, i: int) returns (j: int)
    requires SpeaksOf(report, i, a)
    ensures SpeaksLastOf(report, j, a)
    decreases |report| - i
  {
    if k :| k > i && SpeaksOf(report, k, a) {
      j := LastEntry(report, a, k);
    } else {
      j := i;
    }
  }

  /** What the client's map says of a is what the latest report says last. */
  lemma LatestMapSpeaks(acts: seq<Action>, a: Address)
    ensures a in LatestMap(acts) ==> LatestState(acts, a, LatestMap(acts)[a].state)
    ensures a !in LatestMap(acts) ==> LatestState(acts, a, "ONLINE")
  {
    LatestExists(acts);
    if i :| LatestAt(acts, i) {
      LatestMapIsLatest(acts, i);
      var report := acts[i].report;
      ReportedAddresses(report, a);
      if k :| 0 <= k < |report| && report[k].id == Some(a) {
        var j := LastEntry(report, a, k);
        forall m | j < m < |report| ensures report[m].id != report[j].id {
          assert !SpeaksOf(report, m, a);
        }
        LastEntryCounts(report, j);
        var state := LatestMap(acts)[a].state;
        assert LatestAt(acts, i) && SpeaksLastOf(acts[i].report, j, a) && acts[i].report[j].state == state;
      } else {
        assert forall m | LatestAt(acts, m) :: m == i;
      }
    }
  }

  /** A device stamped with the base overlaid by the latest report shows its latest state. */
  lemma StampedShowsLatest(c: Conf, acts: seq<Action>, published: Allocatable, n: string)
    requires GoodConf(c) && SameDevices(published, c.table)
    requires Stamped(published, Overlay(c.base, LatestMap(acts)))
    ensures ShowsLatest(c, acts, published, n)
  {
    if n in published && n in c.table {
      var healths, a := Overlay(c.base, LatestMap(acts)), c.table[n].addr;
      assert SameDeviceAt(published, c.table, n) && StampedAt(published, healths, n);
      LatestMapSpeaks(acts, a);
      StateNameIsName(healths[a]);
      assert LatestState(acts, a, healths[a].state) && ShowsState(published[n], healths[a].state);
    }
  }

  lemma StampedAllShowLatest(c: Conf, acts: seq<Action>, published: Allocatable)
    requires GoodConf(c) && SameDevices(published, c.table)
    requires Stamped(published, Overlay(c.base, LatestMap(acts)))
    ensures AllShowLatest(c, acts, published)
  {
    forall n ensures ShowsLatest(c, acts, published, n) {
      StampedShowsLatest(c, acts, published, n);
    }
  }

  /** No update is lost: in every interleaving, when no token is in the channel, no listener is about to put one
      there and the loop waits, every published device shows the latest state that a report of the schedule gave
      it. */
  lemma PublishedIsLatest(c: Conf, acts: seq<Action>)
    requires GoodConf(c) && Run(c, Init(c), acts).Some?
    ensures var d := Run(c, Init(c), acts).value.d;
            !d.token && d.holder.None? && d.loop.Waiting? ==> AllShowLatest(c, acts, d.published)
  {
    var d := Run(c, Init(c), acts).value.d;
    if !d.token && d.holder.None? && d.loop.Waiting? {
      NoLostUpdate(c, acts);
      ReportsAreAppliedInOrder(c, acts);
      ClientHasLatestMap(c, acts);
      StampedAllShowLatest(c, acts, d.published);
    }
  }

  /** The monitor's map likewise: known devices take the latest report's word, others keep their base state. */
  lemma MonitorIsLatest(c: Conf, acts: seq<Action>, a: Address)
    requires GoodConf(c) && Run(c, Init(c), acts).Some? && a in c.base
    requires var d := Run(c, Init(c), acts).value.d; !d.token && d.holder.None? && d.loop.Waiting?
    ensures var d := Run(c, Init(c), acts).value.d;
            a in d.monitor && LatestState(acts, a, d.monitor[a].state)
  {
    NoLostUpdate(c, acts);
    ReportsAreAppliedInOrder(c, acts);
    ClientHasLatestMap(c, acts);
    LatestMapSpeaks(acts, a);
  }

  lemma {:induction false} LoopReceivesNothing(acts: seq<Action>, loopActs: seq<Action>)
    requires forall i | 0 <= i < |loopActs| :: IsLoopAction(loopActs[i])
    ensures LatestMap(acts + loopActs) == LatestMap(acts)
  {
    if loopActs == [] {
      assert acts + loopActs == acts;
    } else {
      var init := loopActs[..|loopActs| - 1];
      LoopReceivesNothing(acts, init);
      assert (acts + loopActs)[..|acts + loopActs| - 1] == acts + init;
    }
  }

  /** From every reachable state with the loop alive and the mutex free, at most nine steps of the loop alone
      publish the latest report. */
  lemma LoopPublishesLatest(c: Conf, acts: seq<Action>) returns (loopActs: seq<Action>)
    requires GoodConf(c) && Run(c, Init(c), acts).Some?
    requires var d := Run(c, Init(c), acts).value.d; !d.loop.Stopped? && d.holder.None?
    ensures |loopActs| <= 9 && forall i | 0 <= i < |loopActs| :: IsLoopAction(loopActs[i])
    ensures Run(c, Init(c), acts + loopActs).Some?
    ensures AllShowLatest(c, acts, Run(c, Init(c), acts + loopActs).value.d.published)
  {
    var s := Run(c, Init(c), acts).value;
    loopActs := LoopCatchesUp(c, s);
    RunAppend(c, Init(c), acts, loopActs);
    LoopReceivesNothing(acts, loopActs);
    NoLostUpdate(c, acts + loopActs);
    ReportsAreAppliedInOrder(c, acts + loopActs);
    ClientHasLatestMap(c, acts + loopActs);
    StampedAllShowLatest(c, acts, Run(c, Init(c), acts + loopActs).value.d.published);
  }

  // ----- Registration -----

  /** Whatever Start's own registration came to, it leaves a listener or a reconnector behind. */
  ghost predicate SomebodyStarted(t: Threads) {
    if t.nextId == 0 then
      && t.listeners == map[] && t.recons == map[] && !t.start.StartDone?
      && (t.running ==> t.start == StartRegister(GoListen))
    else 0 in t.listeners || 0 in t.recons
  }

  lemma SomebodyStays(c: Conf, t: Threads, a: Action)
    requires SomebodyStarted(t) && ThreadStep(c, t, a).Some?
    ensures SomebodyStarted(ThreadStep(c, t, a).value)
  {
    if a.StartStep? { SomebodyStaysByStart(c, t, a); } else { SomebodyStaysByOthers(c, t, a); }
  }

  lemma SomebodyStaysByStart(c: Conf, t: Threads, a: Action)
    requires SomebodyStarted(t) && ThreadStep(c, t, a).Some? && a.StartStep?
    ensures SomebodyStarted(ThreadStep(c, t, a).value)
  {
  }

  lemma SomebodyStaysByOthers(c: Conf, t: Threads, a: Action)
    requires SomebodyStarted(t) && ThreadStep(c, t, a).Some? && !a.StartStep?
    ensures SomebodyStarted(ThreadStep(c, t, a).value)
  {
  }

  lemma {:induction false} StartLeavesSomebody(c: Conf, acts: seq<Action>)
    requires Run(c, Init(c), acts).Some?
    ensures SomebodyStarted(Run(c, Init(c), acts).value.th)
    ensures var t := Run(c, Init(c), acts).value.th;
            t.start.StartDone? ==> 0 in t.listeners || 0 in t.recons
  {
    if acts != [] {
      var init, a := acts[..|acts| - 1], acts[|acts| - 1];
      StartLeavesSomebody(c, init);
      SomebodyStays(c, Run(c, Init(c), init).value.th, a);
    }
  }

  /** A failed call in Start's registration, whichever of the three it is, ends Start and leaves a reconnector that
      is yet to run; nothing else changes. */
  lemma FailedStartLeavesReconnector(c: Conf, s: State, pc: RegPC)
    requires s.th.start == StartRegister(pc) && pc in {LoadCreds, NewClient, OpenStream}
    ensures var r := Step(c, s, StartStep(false));
            && r.Some? && r.value.d == s.d && r.value.th.start.StartDone?
            && r.value.th.recons.Keys == s.th.recons.Keys + {s.th.nextId}
            && r.value.th.recons[s.th.nextId].Spawned?
            && r.value.th.listeners == s.th.listeners && r.value.th.running == s.th.running
  {
  }

  /** The step ends a registration with its success. */
  predicate Registers(t: Threads, a: Action) {
    || (a.StartStep? && t.start == StartRegister(GoListen))
    || (a.ReconStep? && a.id in t.recons && t.recons[a.id].Registering? && t.recons[a.id].pc.GoListen?)
  }

  /** A call inside a registration fails. */
  predicate FailsAt(pc: RegPC, ok: bool) {
    !ok && pc in {LoadCreds, NewClient, OpenStream}
  }

  predicate StartFails(t: Threads, a: Action) {
    a.StartStep? && t.start.StartRegister? && FailsAt(t.start.pc, a.ok)
  }

  /** Who starts whom: a listener comes from a successful registration only, a reconnector from a failing stream or a
      failed Start only; a listener that quits starts nobody. */
  lemma GoroutinesAreStarted(c: Conf, t: Threads, a: Action)
    requires ThreadStep(c, t, a).Some?
    ensures ThreadStep(c, t, a).value.listeners.Keys ==
              t.listeners.Keys + if Registers(t, a) then {t.nextId} else {}
    ensures ThreadStep(c, t, a).value.recons.Keys ==
              t.recons.Keys + if a.StreamFails? || StartFails(t, a) then {t.nextId} else {}
  {
    if a.StartStep? {
      StartStarts(c, t, a);
    } else if a.ReconStep? {
      ReconnectorStarts(c, t, a);
    }
  }

  lemma StartStarts(c: Conf, t: Threads, a: Action)
    requires ThreadStep(c, t, a).Some? && a.StartStep?
    ensures ThreadStep(c, t, a).value.listeners.Keys ==
              t.listeners.Keys + if Registers(t, a) then {t.nextId} else {}
    ensures ThreadStep(c, t, a).value.recons.Keys == t.recons.Keys + if StartFails(t, a) then {t.nextId} else {}
  {
  }

  lemma ReconnectorStarts(c: Conf, t: Threads, a: Action)
    requires ThreadStep(c, t, a).Some? && a.ReconStep?
    ensures ThreadStep(c, t, a).value.listeners.Keys ==
              t.listeners.Keys + if Registers(t, a) then {t.nextId} else {}
    ensures ThreadStep(c, t, a).value.recons.Keys == t.recons.Keys
  {
  }

  /** How a reconnector fares: a second one leaves without an attempt, a quit ends the attempts, a failed call leads to
      the next attempt as long as there is one, and a registration, its own or one it finds, to the end. */
  lemma ReconnectorFares(c: Conf, t: Threads, id: nat, ok: bool)
    requires id in t.recons && ThreadStep(c, t, ReconStep(id, ok)).Some?
    ensures var was, pc := t.recons[id], ThreadStep(c, t, ReconStep(id, ok)).value.recons[id];
            && (was.Spawned? && t.reconnecting ==> pc.Finished?)
            && (was.Attempt? && !ok ==> pc.Leaving?)
            && (was.Registering? && FailsAt(was.pc, ok) ==>
                  pc == if was.n < c.maxReconnectAttempts then Attempt(was.n + 1) else Leaving)
            && (was.Registering? && (was.pc.GoListen? || (was.pc.CheckRunning? && t.running)) ==> pc.Leaving?)
            && (pc.Leaving? ==> was.Attempt? || was.Registering? || c.maxReconnectAttempts < 1)
  {
  }

  /** An attempt that finds no live listener and cannot load the credentials is followed by the next one, until the
      attempts are used up. */
  lemma FailedAttemptIsRepeated(c: Conf, s: State, id: nat, n: nat)
    requires id in s.th.recons && s.th.recons[id] == Attempt(n) && !s.th.running
    ensures var r := Run(c, s, [ReconStep(id, true), ReconStep(id, true), ReconStep(id, false)]);
            && r.Some? && r.value.d == s.d
            && r.value.th.recons.Keys == s.th.recons.Keys
            && r.value.th.recons[id] == if n < c.maxReconnectAttempts then Attempt(n + 1) else Leaving
  {
    var s1 := Step(c, s, ReconStep(id, true)).value;
    var s2 := Step(c, s1, ReconStep(id, true)).value;
    RunOne(c, s2, ReconStep(id, false));
    RunPrefix(c, s1, ReconStep(id, true), [ReconStep(id, false)]);
    RunPrefix(c, s, ReconStep(id, true), [ReconStep(id, true), ReconStep(id, false)]);
    assert [ReconStep(id, true)] + [ReconStep(id, false)] == [ReconStep(id, true), ReconStep(id, false)];
    assert [ReconStep(id, true)] + [ReconStep(id, true), ReconStep(id, false)] ==
           [ReconStep(id, true), ReconStep(id, true), ReconStep(id, false)];
  }

  /** A report with a missing device ID stores nothing and ends its listener. */
  lemma UnusableReportEndsListener(c: Conf, s: State, id: nat, report: seq<Reported>)
    requires IsReceiving(s.th, id) && s.d.holder.None? && !IsUsable(report)
    ensures var r := Step(c, s, Receive(id, report));
            r.Some? && r.value.d == s.d && id in r.value.th.listeners && r.value.th.listeners[id].Exiting?
  {
  }
}
