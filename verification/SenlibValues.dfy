/** What a generated configuration holds, key by key, and when there is none. */
module SenlibValues {
  import opened DeviceTypes
  import opened SenlibConfig

  /** Going down the tree along these keys leads to the value v. */
  ghost predicate HoldsAt(f: Fields, path: seq<string>, v: Json)
    decreases |path|
  {
    && path != [] && path[0] in f
    && if |path| == 1 then f[path[0]] == v else f[path[0]].Obj? && HoldsAt(f[path[0]].fields, path[1..], v)
  }

  ghost predicate IsThere(f: Fields, path: seq<string>) {
    exists v :: HoldsAt(f, path, v)
  }

  ghost predicate SameAt(f: Fields, g: Fields, path: seq<string>) {
    forall v :: HoldsAt(g, path, v) <==> HoldsAt(f, path, v)
  }

  lemma HoldsAt1(f: Fields, a: string, v: Json)
    ensures HoldsAt(f, [a], v) <==> a in f && f[a] == v
  {
  }

  lemma HoldsAt2(f: Fields, a: string, b: string, v: Json)
    ensures HoldsAt(f, [a, b], v) <==> HasObject(f, a) && b in f[a].fields && f[a].fields[b] == v
  {
    assert [a, b][1..] == [b];
    if HasObject(f, a) { HoldsAt1(f[a].fields, b, v); }
  }

  lemma HoldsAt3(f: Fields, a: string, b: string, c: string, v: Json)
    ensures HoldsAt(f, [a, b, c], v) <==>
              && HasObject(f, a) && HasObject(f[a].fields, b)
              && c in f[a].fields[b].fields && f[a].fields[b].fields[c] == v
  {
    assert [a, b, c][1..] == [b, c];
    if HasObject(f, a) { HoldsAt2(f[a].fields, b, c, v); }
  }

  lemma HoldsAt4(f: Fields, a: string, b: string, c: string, d: string, v: Json)
    ensures HoldsAt(f, [a, b, c, d], v) <==> HasObject(f, a) && HoldsAt(f[a].fields, [b, c, d], v)
  {
    assert [a, b, c, d][1..] == [b, c, d];
  }

  /** The bus ids are written in order, and doom tells a VF from a PF. */
  lemma DevicesAreWritten(f: Fields, product: DeviceType, busIds: seq<string>, g: Fields)
    requires Generated(Obj(f), product, busIds) == Done(g)
    ensures exists ids :: HoldsAt(g, ["GENERAL", "sen_bus_id"], Arr(ids)) && |ids| == |busIds| &&
              forall i | 0 <= i < |ids| :: ids[i] == Str(busIds[i])
    ensures HoldsAt(g, ["GENERAL", "doom"], Bool(product == VF))
  {
    GeneralHolds(f, product, busIds, g);
    var ids := BusIdList(busIds).elements;
    HoldsAt2(g, "GENERAL", "sen_bus_id", Arr(ids));
    assert HoldsAt(g, ["GENERAL", "sen_bus_id"], Arr(ids)) && forall i | 0 <= i < |ids| :: ids[i] == Str(busIds[i]);
    HoldsAt2(g, "GENERAL", "doom", Bool(product == VF));
  }

  lemma GeneralHolds(f: Fields, product: DeviceType, busIds: seq<string>, g: Fields)
    requires Generated(Obj(f), product, busIds) == Done(g)
    ensures HasObject(g, GENERAL) && BUS_ID in g[GENERAL].fields && DOOM in g[GENERAL].fields
    ensures g[GENERAL].fields[BUS_ID] == BusIdList(busIds) && g[GENERAL].fields[DOOM] == Bool(product == VF)
  {
    KeysDiffer();
    GeneratedInputs(f, product, busIds);
  }

  /** With metrics enabled, one device with an id writes to a file of its own, several devices share a folder. */
  lemma EnabledPaths(f: Fields, product: DeviceType, busIds: seq<string>, g: Fields)
    requires Generated(Obj(f), product, busIds) == Done(g)
    requires HoldsAt(f, ["METRICS", "general", "enable"], Bool(true))
    ensures |busIds| == 1 && busIds[0] != "" ==>
              HoldsAt(g, ["METRICS", "general", "path"], Str("/data/sentientmap_" + busIds[0]))
    ensures |busIds| == 0 || (|busIds| == 1 && busIds[0] == "") ==>
              HoldsAt(g, ["METRICS", "general", "path"], Str("/data/sentientmap_unknown"))
    ensures |busIds| > 1 ==>
              && HoldsAt(g, ["METRICS", "general", "path"], Str("/data/multi-aiu-sentientmap"))
              && HoldsAt(g, ["GENERAL", "multi_aiu_config_path"], Str("/data/multi-aiu-config"))
  {
    HoldsAt3(f, "METRICS", "general", "enable", Bool(true));
    assert MetricEnabled(f);
    MetricsAreWritten(f, product, busIds, g);
    assert SHARED_METRIC_PREFIX + UNKNOWN == "/data/sentientmap_unknown";
  }

  /** What the two objects hold whenever METRICS.general speaks of enabling or does not exist. */
  lemma MetricsAreWritten(f: Fields, product: DeviceType, busIds: seq<string>, g: Fields)
    requires Generated(Obj(f), product, busIds) == Done(g) && !MetricUnspecified(f)
    ensures HoldsAt(g, ["METRICS", "general", "path"], Str(MetricPath(MetricEnabled(f), busIds)))
    ensures |busIds| > 1 ==>
              HoldsAt(g, ["GENERAL", "multi_aiu_config_path"],
                      Str(if MetricEnabled(f) then SHARED_MULTI_PATH else LOCAL_MULTI_PATH))
  {
    KeysDiffer();
    GeneratedInputs(f, product, busIds);
    HoldsAt3(g, "METRICS", "general", "path", Str(MetricPath(MetricEnabled(f), busIds)));
    var multi := Str(if MetricEnabled(f) then SHARED_MULTI_PATH else LOCAL_MULTI_PATH);
    HoldsAt2(g, "GENERAL", "multi_aiu_config_path", multi);
  }

  /** With an enable flag that is not the value true, metrics stay local. */
  lemma DisabledPaths(f: Fields, product: DeviceType, busIds: seq<string>, g: Fields)
    requires Generated(Obj(f), product, busIds) == Done(g)
    requires IsThere(f, ["METRICS", "general", "enable"]) && !HoldsAt(f, ["METRICS", "general", "enable"], Bool(true))
    ensures HoldsAt(g, ["METRICS", "general", "path"], Str("./sentientmap"))
    ensures |busIds| > 1 ==> HoldsAt(g, ["GENERAL", "multi_aiu_config_path"], Str("/tmp/testing"))
  {
    var v :| HoldsAt(f, ["METRICS", "general", "enable"], v);
    HoldsAt3(f, "METRICS", "general", "enable", v);
    HoldsAt3(f, "METRICS", "general", "enable", Bool(true));
    assert !MetricEnabled(f);
    MetricsAreWritten(f, product, busIds, g);
  }

  /** Without METRICS.general one is made that disables metrics. */
  lemma MissingMetricsAreMade(f: Fields, product: DeviceType, busIds: seq<string>, g: Fields)
    requires Generated(Obj(f), product, busIds) == Done(g) && !IsThere(f, ["METRICS", "general"])
    ensures HoldsAt(g, ["METRICS", "general", "enable"], Bool(false))
    ensures HoldsAt(g, ["METRICS", "general", "path"], Str("./sentientmap"))
    ensures |busIds| > 1 ==> HoldsAt(g, ["GENERAL", "multi_aiu_config_path"], Str("/tmp/testing"))
  {
    if HasObject(f, "METRICS") && "general" in f["METRICS"].fields {
      HoldsAt2(f, "METRICS", "general", f["METRICS"].fields["general"]);
    }
    assert !HasObject(ObjectAt(f, METRICS), METRIC_GENERAL);
    MetricsAreWritten(f, product, busIds, g);
    KeysDiffer();
    GeneratedInputs(f, product, busIds);
    HoldsAt3(g, "METRICS", "general", "enable", Bool(false));
  }

  /** A METRICS.general that says nothing about enabling stays as it is, and so does the multi-device path. */
  lemma UnspecifiedMetricsStay(f: Fields, product: DeviceType, busIds: seq<string>, g: Fields)
    requires Generated(Obj(f), product, busIds) == Done(g)
    requires IsThere(f, ["METRICS", "general"]) && !IsThere(f, ["METRICS", "general", "enable"])
    ensures SameAt(f, g, ["METRICS"]) && SameAt(f, g, ["GENERAL", "multi_aiu_config_path"])
  {
    var v :| HoldsAt(f, ["METRICS", "general"], v);
    HoldsAt2(f, "METRICS", "general", v);
    var m := f["METRICS"].fields;
    if HasObject(m, "general") && "enable" in m["general"].fields {
      HoldsAt3(f, "METRICS", "general", "enable", m["general"].fields["enable"]);
    }
    KeysDiffer();
    GeneratedInputs(f, product, busIds);
    SetToItself(m, METRIC_GENERAL);
    assert g["METRICS"] == f["METRICS"];
    MultiPathStays(f, product, busIds, g);
  }

  /** One device or none leaves the multi-device path alone. */
  lemma MultiPathStays(f: Fields, product: DeviceType, busIds: seq<string>, g: Fields)
    requires Generated(Obj(f), product, busIds) == Done(g) && (|busIds| <= 1 || MetricUnspecified(f))
    ensures SameAt(f, g, ["GENERAL", "multi_aiu_config_path"])
  {
    KeysDiffer();
    GeneratedInputs(f, product, busIds);
    forall v ensures HoldsAt(g, ["GENERAL", "multi_aiu_config_path"], v) <==>
                       HoldsAt(f, ["GENERAL", "multi_aiu_config_path"], v)
    {
      HoldsAt2(f, "GENERAL", "multi_aiu_config_path", v);
      HoldsAt2(g, "GENERAL", "multi_aiu_config_path", v);
    }
  }

  /** A PF gets the RISCV switch at the end of its chain; a VF leaves the chain alone. */
  lemma SwitchIsWritten(f: Fields, product: DeviceType, busIds: seq<string>, g: Fields)
    requires Generated(Obj(f), product, busIds) == Done(g)
    ensures product == PF ==> HoldsAt(g, ["SNT_MCI", "DCR", "MCI_CTRL", "ENABLE_RISCV"], Str("0x0"))
    ensures product == VF ==> SameAt(f, g, ["SNT_MCI"])
  {
    KeysDiffer();
    GeneratedInputs(f, product, busIds);
    if product == PF {
      HoldsAt4(g, "SNT_MCI", "DCR", "MCI_CTRL", "ENABLE_RISCV", Str("0x0"));
      HoldsAt3(g["SNT_MCI"].fields, "DCR", "MCI_CTRL", "ENABLE_RISCV", Str("0x0"));
    }
  }

  // ----- When there is no configuration -----

  /** Some link of the chain is there and is no object. */
  ghost predicate ChainIsBroken(f: Fields) {
    exists path, v ::
      && path in [["SNT_MCI"], ["SNT_MCI", "DCR"], ["SNT_MCI", "DCR", "MCI_CTRL"]]
      && HoldsAt(f, path, v) && !v.Obj?
  }

  lemma BrokenIsUnsound(f: Fields)
    ensures ChainIsBroken(f) <==> !ChainIsSound(f)
  {
    forall v
      ensures HoldsAt(f, ["SNT_MCI", "DCR"], v) <==> DCR in ObjectAt(f, SNT_MCI) && ObjectAt(f, SNT_MCI)[DCR] == v
      ensures HoldsAt(f, ["SNT_MCI", "DCR", "MCI_CTRL"], v) <==> MCI_CTRL in Dcr(f) && Dcr(f)[MCI_CTRL] == v
    {
      HoldsAt2(f, "SNT_MCI", "DCR", v);
      HoldsAt3(f, "SNT_MCI", "DCR", "MCI_CTRL", v);
    }
    var paths := [["SNT_MCI"], ["SNT_MCI", "DCR"], ["SNT_MCI", "DCR", "MCI_CTRL"]];
    assert paths[0] in paths && paths[1] in paths && paths[2] in paths;
    if !ObjectOrAbsent(f, SNT_MCI) {
      assert HoldsAt(f, ["SNT_MCI"], f["SNT_MCI"]);
    } else if !ObjectOrAbsent(ObjectAt(f, SNT_MCI), DCR) {
      assert HoldsAt(f, ["SNT_MCI", "DCR"], ObjectAt(f, SNT_MCI)["DCR"]);
    } else if !ChainIsSound(f) {
      assert HoldsAt(f, ["SNT_MCI", "DCR", "MCI_CTRL"], Dcr(f)["MCI_CTRL"]);
    }
  }

  ghost predicate IsObjectAt(f: Fields, path: seq<string>) {
    exists h :: HoldsAt(f, path, Obj(h))
  }

  /** Each way of ending and its condition. A broken chain panics for a PF before a bad METRICS is reported. */
  lemma OutcomesAre(template: Json, product: DeviceType, busIds: seq<string>)
    ensures var r := Generated(template, product, busIds);
            && (r == Failed(NotAnObject) <==> !template.Null? && !template.Obj?)
            && (r == Failed(NoGeneral) <==> template.Null? || (template.Obj? && !IsThere(template.fields, ["GENERAL"])))
    ensures template.Obj? && IsThere(template.fields, ["GENERAL"]) ==>
              var r, f := Generated(template, product, busIds), template.fields;
              if !IsObjectAt(f, ["GENERAL"]) then r == Failed(BadGeneral)
              else if product == PF && ChainIsBroken(f) then r == Panicked
              else if IsThere(f, ["METRICS"]) && !IsObjectAt(f, ["METRICS"]) then r == Failed(BadMetrics)
              else if IsThere(f, ["METRICS", "general"]) && !IsObjectAt(f, ["METRICS", "general"])
              then r == Failed(BadMetricsGeneral)
              else r.Done?
  {
    if template.Obj? {
      var f := template.fields;
      BrokenIsUnsound(f);
      TopKeys(f, "GENERAL");
      TopKeys(f, "METRICS");
      SecondKeys(f, "METRICS", "general");
    }
  }

  lemma TopKeys(f: Fields, a: string)
    ensures IsThere(f, [a]) <==> a in f
    ensures IsObjectAt(f, [a]) <==> HasObject(f, a)
  {
    if a in f { assert HoldsAt(f, [a], f[a]); }
    if HasObject(f, a) { assert HoldsAt(f, [a], Obj(f[a].fields)); }
  }

  lemma SecondKeys(f: Fields, a: string, b: string)
    ensures IsThere(f, [a, b]) <==> b in ObjectAt(f, a)
    ensures IsObjectAt(f, [a, b]) <==> HasObject(ObjectAt(f, a), b)
  {
    var h := ObjectAt(f, a);
    forall v ensures HoldsAt(f, [a, b], v) <==> b in h && h[b] == v { HoldsAt2(f, a, b, v); }
    if b in h { assert HoldsAt(f, [a, b], h[b]); }
    if HasObject(h, b) { assert HoldsAt(f, [a, b], Obj(h[b].fields)); }
  }
}
