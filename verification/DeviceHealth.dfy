/** Device health as the health client, the monitor and the device table hold it, and the code that moves
    it from one to the next. Enum states stand for themselves by their generated names. */
module DeviceHealth {
  import opened Addresses
  import opened DeviceTypes
  import opened Wrappers

  datatype HealthState = HealthState(state: string, deviceType: DeviceType) {
    /** The name published for the state: only DEVICE_STATE_UNSPECIFIED carries the prefix that is dropped. */
    function StateName(): string {
      if STATE_PREFIX <= state then state[|STATE_PREFIX|..] else state
    }
  }

  type Healths = map<Address, HealthState>

  /** One device of a report; a message without a device ID has no address. */
  datatype Reported = Reported(id: Option<Address>, state: string, deviceType: DeviceType)

  datatype SpyreDevice = SpyreDevice(addr: Address, deviceType: DeviceType, attributes: map<string, string>)

  type Allocatable = map<string, SpyreDevice>

  const STATE_PREFIX := "DEVICE_STATE_"
  const DEVICE_STATE := "deviceState"

  /** A report without device IDs missing. */
  predicate WellFormed(report: seq<Reported>) {
    forall i | 0 <= i < |report| :: report[i].id.Some?
  }

  /** The states of a report by address. */
  ghost function ReportMap(report: seq<Reported>): Healths
    requires WellFormed(report)
  {
    if report == [] then map[]
    else
      var last := report[|report| - 1];
      ReportMap(report[..|report| - 1])[last.id.value := HealthState(last.state, last.deviceType)]
  }

  /** Of several entries for one address, the last one in the report counts. */
  lemma {:induction false} LastEntryCounts(report: seq<Reported>, i: nat)
    requires WellFormed(report) && i < |report|
    requires forall j | i < j < |report| :: report[j].id != report[i].id
    ensures report[i].id.value in ReportMap(report)
    ensures ReportMap(report)[report[i].id.value] == HealthState(report[i].state, report[i].deviceType)
  {
    if i < |report| - 1 {
      LastEntryCounts(report[..|report| - 1], i);
    }
  }

  /** ... and a report speaks of exactly the addresses of its entries. */
  lemma {:induction false} ReportedAddresses(report: seq<Reported>, a: Address)
    requires WellFormed(report)
    ensures a in ReportMap(report) <==> exists i :: 0 <= i < |report| && report[i].id == Some(a)
  {
    if report != [] {
      var init := report[..|report| - 1];
      ReportedAddresses(init, a);
      if i :| 0 <= i < |init| && init[i].id == Some(a) { assert report[i].id == Some(a); }
    }
  }

  /** The published name of a state: the state without the prefix, if it has it. */
  predicate IsNameOf(name: string, state: string) {
    state == "DEVICE_STATE_" + name || (state == name && !("DEVICE_STATE_" <= state))
  }

  lemma StateNameIsName(h: HealthState)
    ensures IsNameOf(h.StateName(), h.state)
  {
    if STATE_PREFIX <= h.state { assert h.state == STATE_PREFIX + h.state[|STATE_PREFIX|..]; }
  }

  /** Two names of one state are equal. */
  lemma NameIsUnique(name: string, other: string, state: string)
    requires IsNameOf(name, state) && IsNameOf(other, state)
    ensures name == other
  {
    assert state == "DEVICE_STATE_" + name ==> name == state[|"DEVICE_STATE_"|..];
    assert state == "DEVICE_STATE_" + other ==> other == state[|"DEVICE_STATE_"|..];
  }

  /** The base state of every known device, overwritten by the client's state where it has one. */
  ghost function Overlay(base: Healths, client: Healths): Healths {
    map a | a in base :: if a in client then client[a] else base[a]
  }

  ghost function StateNames(healths: Healths): map<Address, string> {
    map a | a in healths :: healths[a].StateName()
  }

  ghost function StampDevice(d: SpyreDevice, states: map<Address, string>): SpyreDevice {
    if d.addr in states then d.(attributes := d.attributes[DEVICE_STATE := states[d.addr]]) else d
  }

  /** The table whose listed devices carry the given states. */
  ghost function Stamp(table: Allocatable, states: map<Address, string>): Allocatable {
    map n | n in table :: StampDevice(table[n], states)
  }

  /** Listed devices carry the given states, and nothing else differs. */
  ghost predicate CarriesStates(before: Allocatable, states: map<Address, string>, after: Allocatable) {
    && after.Keys == before.Keys
    && forall n | n in before ::
         && after[n].addr == before[n].addr && after[n].deviceType == before[n].deviceType
         && after[n].attributes - {"deviceState"} == before[n].attributes - {"deviceState"}
         && if before[n].addr in states
            then "deviceState" in after[n].attributes && after[n].attributes["deviceState"] == states[before[n].addr]
            else after[n] == before[n]
  }

  lemma StampCarries(table: Allocatable, states: map<Address, string>)
    ensures CarriesStates(table, states, Stamp(table, states))
  {
    forall n | n in table
      ensures StampDevice(table[n], states).attributes - {"deviceState"} == table[n].attributes - {"deviceState"}
    {
    }
  }

  lemma StampTwice(table: Allocatable, states: map<Address, string>)
    ensures Stamp(Stamp(table, states), states) == Stamp(table, states)
  {
    forall n | n in table ensures StampDevice(StampDevice(table[n], states), states) == StampDevice(table[n], states) {
      var d := StampDevice(table[n], states);
      assert d.addr in states ==> d.attributes[DEVICE_STATE := states[d.addr]] == d.attributes;
    }
  }

  /** Go's comparison by length and one-sided lookup decides equality of maps. */
  method MapsEqual(a: Healths, b: Healths) returns (equal: bool)
    ensures equal <==> a == b
  {
    if |a| != |b| {
      return false;
    }
    var rest := a.Keys;
    while rest != {}
      invariant rest <= a.Keys
      invariant forall k | k in a.Keys - rest :: k in b && a[k] == b[k]
      decreases rest
    {
      var k :| k in rest;
      if k !in b || a[k] != b[k] {
        return false;
      }
      rest := rest - {k};
    }
    assert b.Keys == a.Keys + (b.Keys - a.Keys) && |b.Keys| == |a.Keys| + |b.Keys - a.Keys|;
    equal := true;
  }

  /** Every allocatable device, healthy. */
  ghost function BaseOf(table: Allocatable): set<Address> {
    set n | n in table :: table[n].addr
  }

  method InitHealthInfo(table: Allocatable) returns (base: Healths)
    ensures base.Keys == BaseOf(table)
    ensures forall a | a in base :: base[a].state == "ONLINE"
    ensures forall a | a in base ::
              exists n :: n in table && table[n].addr == a && base[a].deviceType == table[n].deviceType
  {
    base := map[];
    var rest := table.Keys;
    while rest != {}
      invariant rest <= table.Keys
      invariant base.Keys == set n | n in table.Keys - rest :: table[n].addr
      invariant forall a | a in base :: base[a].state == ONLINE
      invariant forall a | a in base ::
                  exists n :: n in table && table[n].addr == a && base[a].deviceType == table[n].deviceType
      decreases rest
    {
      var n :| n in rest;
      assert table.Keys - (rest - {n}) == table.Keys - rest + {n};
      base := base[table[n].addr := HealthState(ONLINE, table[n].deviceType)];
      rest := rest - {n};
    }
    assert table.Keys - rest == table.Keys;
  }

  /** The one-slot notification channel. */
  class UpdateChan {
    var token: bool

    constructor ()
      ensures !token
    {
      token := false;
    }

    /** SafeTriggerUpdate: never blocks; a token that is already there stands for this update too. */
    method Trigger()
      modifies this
      ensures token
    {
      if !token {
        token := true;
      }
    }

    /** The receive of the update loop, which only happens when a token is there. */
    method Take()
      requires token
      modifies this
      ensures !token
    {
      token := false;
    }
  }

  class SpyreHealthClient {
    var healthInfoMap: Healths

    constructor ()
      ensures healthInfoMap == map[]
    {
      healthInfoMap := map[];
    }

    /** A report replaces the client's map, and leaves a token behind unless nothing changed. A report with
        a missing device ID panics before anything is stored. */
    method SetAndNotify(report: seq<Reported>, updateChan: UpdateChan) returns (ok: bool)
      modifies this, updateChan
      ensures ok <==> WellFormed(report)
      ensures ok ==> healthInfoMap == ReportMap(report)
      ensures ok ==> updateChan.token == (old(updateChan.token) || ReportMap(report) != old(healthInfoMap))
      ensures !ok ==> healthInfoMap == old(healthInfoMap) && updateChan.token == old(updateChan.token)
    {
      var current: Healths := map[];
      for i := 0 to |report|
        invariant WellFormed(report[..i]) && current == ReportMap(report[..i])
      {
        if report[i].id.None? {
          return false;
        }
        assert report[..i + 1][..i] == report[..i];
        current := current[report[i].id.value := HealthState(report[i].state, report[i].deviceType)];
      }
      assert report[..|report|] == report;
      var equal := MapsEqual(healthInfoMap, current);
      if !equal {
        healthInfoMap := current;
        updateChan.Trigger();
      }
      ok := true;
    }

    /** Only devices that `healths` already lists are updated. */
    method UpdateHealths(healths: Healths) returns (updated: Healths)
      ensures updated == Overlay(healths, healthInfoMap)
      ensures updated.Keys == healths.Keys
      ensures forall a | a in healths :: updated[a] == if a in healthInfoMap then healthInfoMap[a] else healths[a]
    {
      updated := healths;
      var rest := healthInfoMap.Keys;
      while rest != {}
        invariant rest <= healthInfoMap.Keys
        invariant updated == map a | a in healths ::
                    if a in healthInfoMap.Keys - rest then healthInfoMap[a] else healths[a]
        decreases rest
      {
        var deviceID :| deviceID in rest;
        if deviceID in updated {
          updated := updated[deviceID := healthInfoMap[deviceID]];
        }
        rest := rest - {deviceID};
      }
    }
  }

  /** The device's published state is the name of the given one. */
  ghost predicate ShowsState(d: SpyreDevice, state: string) {
    "deviceState" in d.attributes && IsNameOf(d.attributes["deviceState"], state)
  }

  class DeviceTable {
    var allocatable: Allocatable

    constructor (devices: Allocatable)
      ensures allocatable == devices
    {
      allocatable := devices;
    }

    /** Stamps the given states; the answer tells whether any attribute changed. */
    method UpdateDeviceStates(states: map<Address, string>) returns (changed: bool)
      modifies this
      ensures allocatable == Stamp(old(allocatable), states)
      ensures CarriesStates(old(allocatable), states, allocatable)
      ensures changed <==> allocatable != old(allocatable)
    {
      changed := false;
      StampCarries(allocatable, states);
      ghost var was := allocatable;
      var rest := allocatable.Keys;
      while rest != {}
        invariant rest <= was.Keys
        invariant allocatable == map n | n in was ::
                    if n in rest then was[n] else StampDevice(was[n], states)
        invariant changed <==> exists n :: n in was && n !in rest && StampDevice(was[n], states) != was[n]
        decreases rest
      {
        var name :| name in rest;
        var device := allocatable[name];
        rest := rest - {name};
        if device.addr !in states {
          continue;
        }
        var newState := states[device.addr];
        if DEVICE_STATE in device.attributes && device.attributes[DEVICE_STATE] == newState {
          assert StampDevice(device, states) == device;
          continue;
        }
        var attributes := device.attributes[DEVICE_STATE := newState];
        assert StampDevice(device, states).attributes[DEVICE_STATE] == newState;
        allocatable := allocatable[name := device.(attributes := attributes)];
        changed := true;
      }
    }

    /** A listing of the table in some order, each device once. */
    method Devices() returns (devices: seq<(string, SpyreDevice)>)
      ensures multiset(devices) == multiset(allocatable.Items)
    {
      devices := [];
      var rest := allocatable.Keys;
      ghost var done: set<(string, SpyreDevice)> := {};
      while rest != {}
        invariant rest <= allocatable.Keys
        invariant forall i :: i in done <==> i in allocatable.Items && i.0 !in rest
        invariant multiset(devices) == multiset(done)
        decreases rest
      {
        var name :| name in rest;
        var item := (name, allocatable[name]);
        assert item in allocatable.Items && item !in done;
        devices := devices + [item];
        done := done + {item};
        rest := rest - {name};
      }
      assert done == allocatable.Items;
    }
  }

  class DeviceHealthMonitor {
    const client: SpyreHealthClient
    const updateChan: UpdateChan
    const table: DeviceTable
    const base: Healths
    var healths: Healths
    var published: Allocatable

    constructor (client: SpyreHealthClient, updateChan: UpdateChan, table: DeviceTable, base: Healths)
      ensures this.client == client && this.updateChan == updateChan && this.table == table
      ensures this.base == base && healths == base && published == table.allocatable
    {
      this.client, this.updateChan, this.table, this.base := client, updateChan, table, base;
      healths, published := base, table.allocatable;
    }

    /** One turn of the update loop, run without interruption: the token is consumed and what the client
        knows reaches the monitor, the device table and, when an attribute changed, the published slice. */
    method ProcessUpdate()
      requires updateChan.token
      modifies this, updateChan, table
      ensures !updateChan.token
      ensures healths == Overlay(base, client.healthInfoMap)
      ensures healths.Keys == base.Keys
      ensures forall a | a in base ::
                healths[a] == if a in client.healthInfoMap then client.healthInfoMap[a] else base[a]
      ensures forall n | n in table.allocatable && table.allocatable[n].addr in base ::
                ShowsState(table.allocatable[n], healths[table.allocatable[n].addr].state)
      ensures table.allocatable == Stamp(old(table.allocatable), StateNames(healths))
      ensures published == if table.allocatable == old(table.allocatable) then old(published) else table.allocatable
    {
      updateChan.Take();
      var latest := client.UpdateHealths(base);
      healths := latest;
      var names := NamesOf(latest);
      var changed := table.UpdateDeviceStates(names);
      forall n | n in table.allocatable && table.allocatable[n].addr in base
        ensures ShowsState(table.allocatable[n], healths[table.allocatable[n].addr].state)
      {
        assert table.allocatable[n].attributes["deviceState"] == names[table.allocatable[n].addr];
      }
      if changed {
        published := table.allocatable;
      }
    }
  }

  method NamesOf(healths: Healths) returns (names: map<Address, string>)
    ensures names == StateNames(healths)
    ensures names.Keys == healths.Keys && forall a | a in healths :: IsNameOf(names[a], healths[a].state)
  {
    names := map[];
    var rest := healths.Keys;
    while rest != {}
      invariant rest <= healths.Keys
      invariant names == map a | a in healths.Keys - rest :: healths[a].StateName()
      decreases rest
    {
      var addr :| addr in rest;
      names := names[addr := healths[addr].StateName()];
      rest := rest - {addr};
    }
    forall a | a in healths ensures IsNameOf(names[a], healths[a].state) {
      StateNameIsName(healths[a]);
    }
  }
}
