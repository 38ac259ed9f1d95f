/** The senlib configuration rewrite over a JSON tree. */
module SenlibConfig {
  import opened DeviceTypes
  import opened Wrappers

  datatype Json =
    | Null
    | Bool(b: bool)
    | Number(n: real)
    | Str(s: string)
    | Arr(elements: seq<Json>)
    | Obj(fields: Fields)

  type Fields = map<string, Json>

  datatype Error = NotAnObject | NoGeneral | BadGeneral | BadMetrics | BadMetricsGeneral

  /** A panic is the failed type assertion of modifyRISCVContent. */
  datatype Outcome = Done(config: Fields) | Failed(error: Error) | Panicked

  const GENERAL := "GENERAL"
  const METRICS := "METRICS"
  const RISCV := "RISCV"
  const SNT_MCI := "SNT_MCI"
  const METRIC_GENERAL := "general"
  const DCR := "DCR"
  const MCI_CTRL := "MCI_CTRL"
  const BUS_ID := "sen_bus_id"
  const DOOM := "doom"
  const ENABLE := "enable"
  const PATH := "path"
  const MULTI_PATH := "multi_aiu_config_path"
  const ENABLE_RISCV := "ENABLE_RISCV"

  const SHARED_METRIC_PATH := "/data/multi-aiu-sentientmap"
  const SHARED_METRIC_PREFIX := "/data/sentientmap_"
  const SHARED_MULTI_PATH := "/data/multi-aiu-config"
  const LOCAL_METRIC_PATH := "./sentientmap"
  const LOCAL_MULTI_PATH := "/tmp/testing"
  const UNKNOWN := "unknown"

  /** The METRICS.general that is written when there is none. */
  const DISABLED := Obj(map[ENABLE := Bool(false), PATH := Str(LOCAL_METRIC_PATH)])

  /** Keys of one object differ. */
  lemma KeysDiffer()
    ensures GENERAL != METRICS && GENERAL != SNT_MCI && METRICS != SNT_MCI
    ensures BUS_ID != DOOM && BUS_ID != MULTI_PATH && DOOM != MULTI_PATH
    ensures ENABLE != PATH
  {
    assert GENERAL[0] != METRICS[0] && GENERAL[0] != SNT_MCI[0] && METRICS[0] != SNT_MCI[0];
    assert BUS_ID[0] != DOOM[0] && BUS_ID[0] != MULTI_PATH[0] && DOOM[0] != MULTI_PATH[0];
    assert ENABLE[0] != PATH[0];
  }

  function BusIdList(busIds: seq<string>): Json {
    Arr(seq(|busIds|, i requires 0 <= i < |busIds| => Str(busIds[i])))
  }

  // ----- What the rewrite is to produce -----

  predicate HasObject(f: Fields, key: string) {
    key in f && f[key].Obj?
  }

  /** Absent, or an object. */
  predicate ObjectOrAbsent(f: Fields, key: string) {
    key !in f || f[key].Obj?
  }

  /** The object under a key; an absent one counts as empty. */
  function ObjectAt(f: Fields, key: string): Fields {
    if HasObject(f, key) then f[key].fields else map[]
  }

  /** Whether METRICS.general.enable is the JSON value true. */
  predicate MetricEnabled(f: Fields) {
    var g := ObjectAt(ObjectAt(f, METRICS), METRIC_GENERAL);
    ENABLE in g && g[ENABLE] == Bool(true)
  }

  /** METRICS.general exists but says nothing about enabling: its path and the multi path are left alone. */
  predicate MetricUnspecified(f: Fields) {
    HasObject(ObjectAt(f, METRICS), METRIC_GENERAL) && ENABLE !in ObjectAt(ObjectAt(f, METRICS), METRIC_GENERAL)
  }

  function MetricPath(enabled: bool, busIds: seq<string>): string {
    if !enabled then LOCAL_METRIC_PATH
    else if |busIds| > 1 then SHARED_METRIC_PATH
    else SHARED_METRIC_PREFIX + if |busIds| == 1 && busIds[0] != "" then busIds[0] else UNKNOWN
  }

  function GeneralAfter(f: Fields, product: DeviceType, busIds: seq<string>): Fields {
    var g := ObjectAt(f, GENERAL)[BUS_ID := BusIdList(busIds)][DOOM := Bool(product.VF?)];
    if |busIds| > 1 && !MetricUnspecified(f)
    then g[MULTI_PATH := Str(if MetricEnabled(f) then SHARED_MULTI_PATH else LOCAL_MULTI_PATH)]
    else g
  }

  function MetricGeneralAfter(f: Fields, busIds: seq<string>): Fields {
    var m := ObjectAt(f, METRICS);
    if !HasObject(m, METRIC_GENERAL) then map[ENABLE := Bool(false), PATH := Str(LOCAL_METRIC_PATH)]
    else if MetricUnspecified(f) then m[METRIC_GENERAL].fields
    else m[METRIC_GENERAL].fields[PATH := Str(MetricPath(MetricEnabled(f), busIds))]
  }

  function RiscvAfter(f: Fields): Json {
    var mci := ObjectAt(f, SNT_MCI);
    var dcr := ObjectAt(mci, DCR);
    Obj(mci[DCR := Obj(dcr[MCI_CTRL := Obj(ObjectAt(dcr, MCI_CTRL)[ENABLE_RISCV := Str("0x0")])])])
  }

  /** The SNT_MCI chain is absent or made of objects as far as it goes. */
  predicate ChainIsSound(f: Fields) {
    && ObjectOrAbsent(f, SNT_MCI)
    && ObjectOrAbsent(ObjectAt(f, SNT_MCI), DCR)
    && ObjectOrAbsent(ObjectAt(ObjectAt(f, SNT_MCI), DCR), MCI_CTRL)
  }

  function Generated(template: Json, product: DeviceType, busIds: seq<string>): Outcome {
    if template.Null? then Failed(NoGeneral)
    else if !template.Obj? then Failed(NotAnObject)
    else
      var f := template.fields;
      if GENERAL !in f then Failed(NoGeneral)
      else if !f[GENERAL].Obj? then Failed(BadGeneral)
      else if product.PF? && !ChainIsSound(f) then Panicked
      else if !ObjectOrAbsent(f, METRICS) then Failed(BadMetrics)
      else if !ObjectOrAbsent(ObjectAt(f, METRICS), METRIC_GENERAL) then Failed(BadMetricsGeneral)
      else
        var g := f[GENERAL := Obj(GeneralAfter(f, product, busIds))]
                  [METRICS := Obj(ObjectAt(f, METRICS)[METRIC_GENERAL := Obj(MetricGeneralAfter(f, busIds))])];
        Done(if product.PF? then g[SNT_MCI := RiscvAfter(f)] else g)
  }

  // ----- The rewrite, assignment by assignment -----

  /** configMap[a][k] = v, where configMap[a] is an object. */
  function Set2(f: Fields, a: string, k: string, v: Json): Fields
    requires HasObject(f, a)
  {
    f[a := Obj(f[a].fields[k := v])]
  }

  /** configMap[a][b][k] = v, where configMap[a][b] is an object. */
  function Set3(f: Fields, a: string, b: string, k: string, v: Json): Fields
    requires HasObject(f, a) && HasObject(f[a].fields, b)
  {
    Set2(f, a, b, Obj(f[a].fields[b].fields[k := v]))
  }

  /** GENERAL with the bus ids and the doom flag set, the first two assignments. */
  ghost function WithDevices(f: Fields, product: DeviceType, busIds: seq<string>): Fields {
    f[GENERAL := Obj(ObjectAt(f, GENERAL)[BUS_ID := BusIdList(busIds)][DOOM := Bool(product.VF?)])]
  }

  /** The first two assignments do not change what the later branches look at. */
  lemma DevicesLeaveTheRest(f: Fields, product: DeviceType, busIds: seq<string>)
    requires HasObject(f, GENERAL)
    ensures var h := WithDevices(f, product, busIds);
            && HasObject(h, GENERAL)
            && (METRICS in h <==> METRICS in f) && (METRICS in f ==> h[METRICS] == f[METRICS])
            && (SNT_MCI in h <==> SNT_MCI in f) && (SNT_MCI in f ==> h[SNT_MCI] == f[SNT_MCI])
            && MetricsSet(h, busIds) == f[GENERAL := Obj(GeneralAfter(f, product, busIds))]
                 [METRICS := Obj(ObjectAt(f, METRICS)[METRIC_GENERAL := Obj(MetricGeneralAfter(f, busIds))])]
  {
    KeysDiffer();
    var h := WithDevices(f, product, busIds);
    assert ObjectAt(h, METRICS) == ObjectAt(f, METRICS);
    assert MetricsSet(h, busIds)[GENERAL] == Obj(GeneralAfter(f, product, busIds));
  }

  method GenerateConfigContent(template: Json, product: DeviceType, busIds: seq<string>) returns (r: Outcome)
    ensures r == Generated(template, product, busIds)
  {
    if template.Null? {
      return Failed(NoGeneral);
    }
    if !template.Obj? {
      return Failed(NotAnObject);
    }
    var configMap := template.fields;
    if GENERAL !in configMap {
      return Failed(NoGeneral);
    }
    if !configMap[GENERAL].Obj? {
      return Failed(BadGeneral);
    }
    DevicesLeaveTheRest(configMap, product, busIds);
    configMap := Set2(configMap, GENERAL, BUS_ID, BusIdList(busIds));
    configMap := Set2(configMap, GENERAL, DOOM, Bool(product.VF?));
    assert configMap == WithDevices(template.fields, product, busIds);
    r := FinishConfig(template.fields, configMap, product, busIds);
  }

  /** The rest of GenerateConfigContent: the METRICS branch, then the device type, then the error check. */
  method FinishConfig(ghost f: Fields, config: Fields, product: DeviceType, busIds: seq<string>) returns (r: Outcome)
    requires HasObject(f, GENERAL) && config == WithDevices(f, product, busIds)
    ensures r == Generated(Obj(f), product, busIds)
  {
    DevicesLeaveTheRest(f, product, busIds);
    var configMap, error := RewriteMetrics(config, busIds);
    var riscv := ModifyRISCVContent(product, configMap);
    assert ObjectAt(configMap, SNT_MCI) == ObjectAt(f, SNT_MCI);
    if riscv.Panicked? {
      return Panicked;
    }
    if error.Some? {
      return Failed(error.value);
    }
    r := riscv;
  }

  /** The two objects that the METRICS branch assigns, in place. */
  ghost function MetricsSet(config: Fields, busIds: seq<string>): Fields
    requires HasObject(config, GENERAL)
  {
    var path := if MetricEnabled(config) then SHARED_MULTI_PATH else LOCAL_MULTI_PATH;
    var g := if |busIds| > 1 && !MetricUnspecified(config)
             then Obj(config[GENERAL].fields[MULTI_PATH := Str(path)])
             else config[GENERAL];
    var m := ObjectAt(config, METRICS)[METRIC_GENERAL := Obj(MetricGeneralAfter(config, busIds))];
    config[GENERAL := g][METRICS := Obj(m)]
  }

  /** The METRICS branch; an error is remembered while the rewrite goes on. */
  method RewriteMetrics(config: Fields, busIds: seq<string>) returns (configMap: Fields, error: Option<Error>)
    requires HasObject(config, GENERAL)
    ensures SNT_MCI in configMap <==> SNT_MCI in config
    ensures SNT_MCI in config ==> configMap[SNT_MCI] == config[SNT_MCI]
    ensures !ObjectOrAbsent(config, METRICS) ==> error == Some(BadMetrics)
    ensures ObjectOrAbsent(config, METRICS) && !ObjectOrAbsent(ObjectAt(config, METRICS), METRIC_GENERAL) ==>
              error == Some(BadMetricsGeneral)
    ensures ObjectOrAbsent(config, METRICS) && ObjectOrAbsent(ObjectAt(config, METRICS), METRIC_GENERAL) ==>
              error == None && configMap == MetricsSet(config, busIds)
  {
    KeysDiffer();
    configMap, error := config, None;
    if METRICS in configMap {
      if !configMap[METRICS].Obj? {
        return configMap, Some(BadMetrics);
      }
      var metricsConfig := configMap[METRICS].fields;
      if METRIC_GENERAL in metricsConfig {
        if !metricsConfig[METRIC_GENERAL].Obj? {
          return configMap, Some(BadMetricsGeneral);
        }
        configMap := RewriteMetricGeneral(config, busIds);
      } else {
        configMap := Set2(configMap, METRICS, METRIC_GENERAL, DISABLED);
        if |busIds| > 1 {
          configMap := Set2(configMap, GENERAL, MULTI_PATH, Str(LOCAL_MULTI_PATH));
        }
        assert configMap == MetricsSet(config, busIds);
      }
    } else {
      configMap := configMap[METRICS := Obj(map[METRIC_GENERAL := DISABLED])];
      if |busIds| > 1 {
        configMap := Set2(configMap, GENERAL, MULTI_PATH, Str(LOCAL_MULTI_PATH));
      }
      assert configMap == MetricsSet(config, busIds);
    }
  }

  /** The innermost branch, where METRICS.general is an object. */
  method RewriteMetricGeneral(config: Fields, busIds: seq<string>) returns (configMap: Fields)
    requires HasObject(config, GENERAL) && HasObject(config, METRICS)
    requires HasObject(config[METRICS].fields, METRIC_GENERAL)
    ensures configMap == MetricsSet(config, busIds)
  {
    KeysDiffer();
    configMap := config;
    var metricGeneral := config[METRICS].fields[METRIC_GENERAL].fields;
    if ENABLE in metricGeneral {
      var metricEnabled := false;
      if metricGeneral[ENABLE].Bool? {
        metricEnabled := metricGeneral[ENABLE].b;
      }
      assert metricEnabled == MetricEnabled(config);
      if metricEnabled {
        if |busIds| <= 1 {
          var busId0 := UNKNOWN;
          if |busIds| == 1 && busIds[0] != "" {
            busId0 := busIds[0];
          }
          configMap := Set3(configMap, METRICS, METRIC_GENERAL, PATH, Str(SHARED_METRIC_PREFIX + busId0));
        } else if |busIds| > 1 {
          configMap := Set3(configMap, METRICS, METRIC_GENERAL, PATH, Str(SHARED_METRIC_PATH));
          configMap := Set2(configMap, GENERAL, MULTI_PATH, Str(SHARED_MULTI_PATH));
        }
      } else {
        configMap := Set3(configMap, METRICS, METRIC_GENERAL, PATH, Str(LOCAL_METRIC_PATH));
        if |busIds| > 1 {
          configMap := Set2(configMap, GENERAL, MULTI_PATH, Str(LOCAL_MULTI_PATH));
        }
      }
      assert configMap == MetricsSet(config, busIds);
    } else {
      SetToItself(config[METRICS].fields, METRIC_GENERAL);
      SetToItself(config, METRICS);
      SetToItself(config, GENERAL);
    }
  }

  lemma SetToItself(f: Fields, key: string)
    requires key in f
    ensures f[key := f[key]] == f
  {
  }

  lemma SetTwice(f: Fields, key: string, v: Json, w: Json)
    ensures f[key := v][key := w] == f[key := w]
  {
  }

  /** VF: nothing. PF: missing objects of the chain are created, and a present non-object panics. */
  method ModifyRISCVContent(product: DeviceType, config: Fields) returns (r: Outcome)
    ensures product.VF? ==> r == Done(config)
    ensures product.PF? ==> r == if ChainIsSound(config) then Done(config[SNT_MCI := RiscvAfter(config)]) else Panicked
  {
    if product.VF? {
      return Done(config);
    }
    var configMap := config;
    if SNT_MCI !in configMap {
      configMap := configMap[SNT_MCI := Obj(map[])];
    }
    if !configMap[SNT_MCI].Obj? {
      return Panicked;
    }
    ghost var mci := ObjectAt(config, SNT_MCI);
    assert configMap == config[SNT_MCI := Obj(mci)];
    if DCR !in configMap[SNT_MCI].fields {
      configMap := Set2(configMap, SNT_MCI, DCR, Obj(map[]));
    }
    if !configMap[SNT_MCI].fields[DCR].Obj? {
      return Panicked;
    }
    ghost var dcr := ObjectAt(mci, DCR);
    assert mci[DCR := Obj(dcr)] == configMap[SNT_MCI].fields;
    assert configMap == config[SNT_MCI := Obj(mci[DCR := Obj(dcr)])];
    if MCI_CTRL !in configMap[SNT_MCI].fields[DCR].fields {
      configMap := Set3(configMap, SNT_MCI, DCR, MCI_CTRL, Obj(map[]));
    }
    var ctrl := configMap[SNT_MCI].fields[DCR].fields[MCI_CTRL];
    if !ctrl.Obj? {
      return Panicked;
    }
    assert ctrl.fields == ObjectAt(dcr, MCI_CTRL);
    assert configMap[SNT_MCI].fields[DCR].fields == dcr[MCI_CTRL := ctrl];
    var last := Obj(ctrl.fields[ENABLE_RISCV := Str("0x0")]);
    configMap := Set3(configMap, SNT_MCI, DCR, MCI_CTRL, last);
    SetTwice(dcr, MCI_CTRL, ctrl, last);
    assert configMap[SNT_MCI].fields == mci[DCR := Obj(dcr[MCI_CTRL := last])];
    assert configMap[SNT_MCI] == RiscvAfter(config);
    assert configMap == config[SNT_MCI := RiscvAfter(config)];
    r := Done(configMap);
  }

  // ----- Only the documented keys change -----

  /** Two objects differ at most in the values of some keys. */
  predicate SameBut(f: Fields, g: Fields, keys: set<string>) {
    f - keys == g - keys
  }

  function MetricGeneral(f: Fields): Fields {
    ObjectAt(ObjectAt(f, METRICS), METRIC_GENERAL)
  }

  function Dcr(f: Fields): Fields {
    ObjectAt(ObjectAt(f, SNT_MCI), DCR)
  }

  /** On success, level by level, nothing differs but GENERAL.{sen_bus_id, doom}, the multi-device path when
      there are several devices, the metrics path unless METRICS.general leaves it open, the enable flag when
      METRICS.general was missing, and for a PF the RISCV switch at the end of the SNT_MCI chain. */
  lemma OnlyDocumentedKeysChange(f: Fields, product: DeviceType, busIds: seq<string>)
    requires Generated(Obj(f), product, busIds).Done?
    ensures var g := Generated(Obj(f), product, busIds).config;
            && SameBut(f, g, {GENERAL, METRICS} + if product.PF? then {SNT_MCI} else {})
            && SameBut(ObjectAt(f, GENERAL), ObjectAt(g, GENERAL),
                       {BUS_ID, DOOM} + if |busIds| > 1 && !MetricUnspecified(f) then {MULTI_PATH} else {})
            && SameBut(ObjectAt(f, METRICS), ObjectAt(g, METRICS), {METRIC_GENERAL})
            && SameBut(MetricGeneral(f), MetricGeneral(g),
                       (if MetricUnspecified(f) then {} else {PATH})
                       + if HasObject(ObjectAt(f, METRICS), METRIC_GENERAL) then {} else {ENABLE})
            && SameBut(ObjectAt(f, SNT_MCI), ObjectAt(g, SNT_MCI), if product.PF? then {DCR} else {})
            && SameBut(Dcr(f), Dcr(g), if product.PF? then {MCI_CTRL} else {})
            && SameBut(ObjectAt(Dcr(f), MCI_CTRL), ObjectAt(Dcr(g), MCI_CTRL),
                       if product.PF? then {ENABLE_RISCV} else {})
  {
    KeysDiffer();
    var g := Generated(Obj(f), product, busIds).config;
    assert ObjectAt(g, GENERAL) == GeneralAfter(f, product, busIds);
    MetricsChangePathOnly(f, g, busIds);
    if product.VF? {
      assert ObjectAt(g, SNT_MCI) == ObjectAt(f, SNT_MCI);
    } else {
      RiscvChangesOneSwitch(f, g);
    }
  }

  lemma MetricsChangePathOnly(f: Fields, g: Fields, busIds: seq<string>)
    requires HasObject(g, METRICS) && ObjectOrAbsent(ObjectAt(f, METRICS), METRIC_GENERAL)
    requires g[METRICS].fields == ObjectAt(f, METRICS)[METRIC_GENERAL := Obj(MetricGeneralAfter(f, busIds))]
    ensures SameBut(ObjectAt(f, METRICS), ObjectAt(g, METRICS), {METRIC_GENERAL})
    ensures SameBut(MetricGeneral(f), MetricGeneral(g),
                    (if MetricUnspecified(f) then {} else {PATH})
                    + if HasObject(ObjectAt(f, METRICS), METRIC_GENERAL) then {} else {ENABLE})
  {
    assert MetricGeneral(g) == MetricGeneralAfter(f, busIds);
  }

  lemma RiscvChangesOneSwitch(f: Fields, g: Fields)
    requires ChainIsSound(f) && SNT_MCI in g && g[SNT_MCI] == RiscvAfter(f)
    ensures SameBut(ObjectAt(f, SNT_MCI), ObjectAt(g, SNT_MCI), {DCR})
    ensures SameBut(Dcr(f), Dcr(g), {MCI_CTRL})
    ensures SameBut(ObjectAt(Dcr(f), MCI_CTRL), ObjectAt(Dcr(g), MCI_CTRL), {ENABLE_RISCV})
  {
    var dcr := Dcr(f)[MCI_CTRL := Obj(ObjectAt(Dcr(f), MCI_CTRL)[ENABLE_RISCV := Str("0x0")])];
    assert Dcr(g) == dcr;
  }

  // ----- Generating again changes nothing -----

  lemma GeneratedInputs(f: Fields, product: DeviceType, busIds: seq<string>)
    requires Generated(Obj(f), product, busIds).Done?
    ensures var g := Generated(Obj(f), product, busIds).config;
            && g[GENERAL] == Obj(GeneralAfter(f, product, busIds))
            && HasObject(g, METRICS) && HasObject(g[METRICS].fields, METRIC_GENERAL)
            && g[METRICS].fields == ObjectAt(f, METRICS)[METRIC_GENERAL := Obj(MetricGeneralAfter(f, busIds))]
            && MetricEnabled(g) == MetricEnabled(f) && MetricUnspecified(g) == MetricUnspecified(f)
            && (product.PF? ==> g[SNT_MCI] == RiscvAfter(f))
  {
    KeysDiffer();
  }

  lemma RiscvTwice(f: Fields, g: Fields)
    requires ChainIsSound(f) && SNT_MCI in g && g[SNT_MCI] == RiscvAfter(f)
    ensures ChainIsSound(g) && RiscvAfter(g) == RiscvAfter(f)
  {
    var mci, dcr := ObjectAt(f, SNT_MCI), Dcr(f);
    var ctrl := ObjectAt(dcr, MCI_CTRL)[ENABLE_RISCV := Str("0x0")];
    assert Dcr(g) == dcr[MCI_CTRL := Obj(ctrl)];
    assert ctrl[ENABLE_RISCV := Str("0x0")] == ctrl;
    assert Dcr(g)[MCI_CTRL := Obj(ctrl)] == Dcr(g);
    assert ObjectAt(g, SNT_MCI)[DCR := Obj(Dcr(g))] == ObjectAt(g, SNT_MCI);
  }

  /** The output is a fixed point: generating from it with the same devices gives it back. */
  lemma GeneratingAgainChangesNothing(f: Fields, product: DeviceType, busIds: seq<string>)
    requires Generated(Obj(f), product, busIds).Done?
    ensures var g := Generated(Obj(f), product, busIds).config;
            Generated(Obj(g), product, busIds) == Done(g)
  {
    KeysDiffer();
    var g := Generated(Obj(f), product, busIds).config;
    GeneratedInputs(f, product, busIds);
    if product.PF? { RiscvTwice(f, g); }
    assert GeneralAfter(g, product, busIds) == GeneralAfter(f, product, busIds);
    assert MetricGeneralAfter(g, busIds) == MetricGeneralAfter(f, busIds);
    assert ObjectAt(g, METRICS)[METRIC_GENERAL := Obj(MetricGeneralAfter(g, busIds))] == ObjectAt(g, METRICS);
    SetToItself(g, GENERAL);
    SetToItself(g, METRICS);
    if product.PF? { SetToItself(g, SNT_MCI); }
  }
}
