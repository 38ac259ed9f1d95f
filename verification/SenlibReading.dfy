/** Reading a generated configuration back into the typed struct. The JSON decoder visits the keys of an object in
    the sorted order in which they are written, and a key belongs to a struct field already when the two agree up to
    case, so a template may hold further keys for a field. */
module SenlibReading {
  import opened Addresses
  import opened DeviceTypes
  import opened SenlibConfig
  import opened Wrappers

  // ----- Keys and the types of their fields -----

  /** Simple case folding, as far as it leads to an ASCII letter: the long s and the Kelvin sign fold too. */
  function FoldChar(c: char): char {
    if 'A' <= c <= 'Z' then c - 'A' + 'a'
    else if c == '\U{017F}' then 's'
    else if c == '\U{212A}' then 'k'
    else c
  }

  predicate Folds(key: string, name: string) {
    |key| == |name| && forall i | 0 <= i < |key| :: FoldChar(key[i]) == FoldChar(name[i])
  }

  /** The same letter up to case, the long s and the Kelvin sign counting as s and k. */
  predicate SameLetter(c: char, n: char) {
    || c == n
    || ('A' <= c <= 'Z' && n as int == c as int + 32)
    || ('a' <= c <= 'z' && n as int == c as int - 32)
    || (c == '\U{017F}' && n in ['s', 'S'])
    || (c == '\U{212A}' && n in ['k', 'K'])
  }

  /** A key folds to an ASCII name exactly when they agree letter by letter. */
  lemma FoldsLetterByLetter(key: string, name: string)
    requires forall i | 0 <= i < |name| :: name[i] as int < 128
    ensures Folds(key, name) <==> |key| == |name| && forall i | 0 <= i < |key| :: SameLetter(key[i], name[i])
  {
    if |key| == |name| {
      forall i | 0 <= i < |key| ensures FoldChar(key[i]) == FoldChar(name[i]) <==> SameLetter(key[i], name[i]) {
        assert name[i] as int < 128;
        FoldsToAscii(key[i], name[i]);
      }
    }
  }

  lemma FoldsToAscii(c: char, n: char)
    requires n as int < 128
    ensures FoldChar(c) == FoldChar(n) <==> SameLetter(c, n)
  {
  }

  datatype Struct = Root | General | Metrics | MetricsGeneral

  datatype Kind = Nested(s: Struct) | AnyObject | Text | Flag | Texts | Ignored

  function Depth(s: Struct): nat {
    match s
    case Root => 2
    case General => 1
    case Metrics => 1
    case MetricsGeneral => 0
  }

  /** The type of the field that a key belongs to. */
  function KindOf(s: Struct, key: string): (k: Kind)
    ensures k.Nested? ==> Depth(k.s) < Depth(s)
  {
    match s
    case Root =>
      if Folds(key, GENERAL) then Nested(General) else if Folds(key, METRICS) then Nested(Metrics)
      else if Folds(key, RISCV) then AnyObject else Ignored
    case General =>
      if Folds(key, BUS_ID) then Texts else if Folds(key, MULTI_PATH) then Text
      else if Folds(key, DOOM) then Flag else Ignored
    case Metrics => if Folds(key, METRIC_GENERAL) then Nested(MetricsGeneral) else Ignored
    case MetricsGeneral => if Folds(key, ENABLE) then Flag else if Folds(key, PATH) then Text else Ignored
  }

  predicate IsStringList(j: Json) {
    j.Arr? && forall i | 0 <= i < |j.elements| :: j.elements[i].Str? || j.elements[i].Null?
  }

  /** A value decodes into a field when it has the field's type or is null. */
  predicate Fits(j: Json, kind: Kind)
    decreases if kind.Nested? then 2 * Depth(kind.s) + 2 else 0
  {
    j.Null? ||
    match kind
    case Nested(s) => j.Obj? && Typed(j.fields, s, {})
    case AnyObject => j.Obj?
    case Text => j.Str?
    case Flag => j.Bool?
    case Texts => IsStringList(j)
    case Ignored => true
  }

  /** All keys of an object, but for some, hold values that decode. */
  predicate Typed(h: Fields, s: Struct, but: set<string>)
    decreases 2 * Depth(s) + 1
  {
    forall key | key in h && key !in but :: Fits(h[key], KindOf(s, key))
  }

  /** The struct's field types: sen_bus_id is a list of strings, multi_aiu_config_path a string, doom a flag. */
  lemma GeneralFieldTypes(h: Fields)
    ensures Typed(h, General, {}) <==>
              forall key | key in h && !h[key].Null? ::
                && (Folds(key, "sen_bus_id") ==>
                      h[key].Arr? && forall e | e in h[key].elements :: e.Str? || e.Null?)
                && (Folds(key, "multi_aiu_config_path") ==> h[key].Str?)
                && (Folds(key, "doom") ==> h[key].Bool?)
  {
    forall key | key in h && h[key].Arr?
      ensures IsStringList(h[key]) <==> forall e | e in h[key].elements :: e.Str? || e.Null?
    {
    }
  }

  /** enable is a flag and path a string. */
  lemma MetricsGeneralFieldTypes(h: Fields)
    ensures Typed(h, MetricsGeneral, {}) <==>
              forall key | key in h && !h[key].Null? ::
                && (Folds(key, "enable") ==> h[key].Bool?)
                && (Folds(key, "path") ==> h[key].Str?)
  {
  }

  lemma MetricsFieldTypes(h: Fields)
    ensures Typed(h, Metrics, {}) <==>
              forall key | key in h && !h[key].Null? ::
                Folds(key, "general") ==> h[key].Obj? && Typed(h[key].fields, MetricsGeneral, {})
  {
  }

  /** The fields of the root are objects, RISCV of any content. */
  lemma RootFieldTypes(h: Fields)
    ensures Typed(h, Root, {}) <==>
              forall key | key in h && !h[key].Null? ::
                && (Folds(key, "GENERAL") ==> h[key].Obj? && Typed(h[key].fields, General, {}))
                && (Folds(key, "METRICS") ==> h[key].Obj? && Typed(h[key].fields, Metrics, {}))
                && (Folds(key, "RISCV") ==> h[key].Obj?)
  {
    forall key | key in h && !h[key].Null?
      ensures Fits(h[key], KindOf(Root, key)) <==>
                && (Folds(key, "GENERAL") ==> h[key].Obj? && Typed(h[key].fields, General, {}))
                && (Folds(key, "METRICS") ==> h[key].Obj? && Typed(h[key].fields, Metrics, {}))
                && (Folds(key, "RISCV") ==> h[key].Obj?)
    {
      RootFieldType(key, h[key]);
    }
  }

  lemma RootFieldType(key: string, v: Json)
    requires !v.Null?
    ensures Fits(v, KindOf(Root, key)) <==>
              && (Folds(key, "GENERAL") ==> v.Obj? && Typed(v.fields, General, {}))
              && (Folds(key, "METRICS") ==> v.Obj? && Typed(v.fields, Metrics, {}))
              && (Folds(key, "RISCV") ==> v.Obj?)
  {
    assert FoldChar("GENERAL"[0]) != FoldChar("METRICS"[0]);
  }

  lemma TypedAfterSet(h: Fields, s: Struct, but: set<string>, key: string, v: Json)
    requires key !in but
    ensures Typed(h[key := v], s, but) <==> Typed(h, s, but + {key}) && Fits(v, KindOf(s, key))
  {
    var g := h[key := v];
    if Typed(g, s, but) {
      forall k | k in h && k !in but + {key} ensures Fits(h[k], KindOf(s, k)) {
        assert k in g && g[k] == h[k];
      }
      assert g[key] == v;
    }
  }

  // ----- Reading -----

  /** A place of the tree that is decoded into the list of bus ids: a key of the root and a key below it. */
  type Place = (string, string)

  const WRITTEN: Place := (GENERAL, BUS_ID)

  predicate HoldsBusIds(f: Fields, p: Place) {
    && p.0 in f && Folds(p.0, GENERAL) && f[p.0].Obj?
    && p.1 in f[p.0].fields && Folds(p.1, BUS_ID)
  }

  function At(f: Fields, p: Place): Json
    requires HoldsBusIds(f, p)
  {
    f[p.0].fields[p.1]
  }

  /** The order in which the decoder comes to two places. */
  predicate Before(p: Place, q: Place) {
    Less(p.0, q.0) || (p.0 == q.0 && Less(p.1, q.1))
  }

  ghost predicate IsLast(f: Fields, p: Place) {
    HoldsBusIds(f, p) && forall q | HoldsBusIds(f, q) :: q == p || Before(q, p)
  }

  /** The list that a value decodes to: null is the empty list, a null element the empty string. */
  function ListOf(j: Json): seq<string> {
    if IsStringList(j)
    then seq(|j.elements|, i requires 0 <= i < |j.elements| => if j.elements[i].Str? then j.elements[i].s else "")
    else []
  }

  lemma ListsAreRead(j: Json)
    ensures j.Null? ==> ListOf(j) == []
    ensures IsStringList(j) ==> |ListOf(j)| == |j.elements|
    ensures IsStringList(j) ==>
              forall i | 0 <= i < |j.elements| ::
                ListOf(j)[i] == if j.elements[i].Null? then "" else j.elements[i].s
  {
  }

  /** ReadSenlibConfig: None when decoding reports a type error, else the bus ids that were decoded last. */
  ghost function ReadSenlibConfig(f: Fields): Option<seq<string>> {
    if !Typed(f, Root, {}) then None
    else if exists p :: IsLast(f, p) then
      var p :| IsLast(f, p);
      Some(ListOf(At(f, p)))
    else Some([])
  }

  lemma BeforeIsAnOrder(p: Place, q: Place, r: Place)
    ensures p == q || Before(p, q) || Before(q, p)
    ensures Before(p, q) ==> p != q && !Before(q, p)
    ensures Before(p, q) && Before(q, r) ==> Before(p, r)
  {
    Trichotomy(p.0, q.0);
    Trichotomy(p.1, q.1);
    if Less(p.0, q.0) && Less(q.0, r.0) { LessIsTransitive(p.0, q.0, r.0); }
    if Less(p.1, q.1) && Less(q.1, r.1) { LessIsTransitive(p.1, q.1, r.1); }
  }

  lemma {:induction false} LastOf(places: set<Place>) returns (p: Place)
    requires places != {}
    ensures p in places && forall q | q in places :: q == p || Before(q, p)
  {
    var q :| q in places;
    p := q;
    if places != {q} {
      assert places - {q} != {};
      p := LastOf(places - {q});
      if Before(p, q) {
        forall r | r in places ensures r == q || Before(r, q) {
          BeforeIsAnOrder(r, p, q);
        }
        p := q;
      } else {
        BeforeIsAnOrder(p, q, q);
      }
    }
  }

  lemma LastExists(f: Fields, q: Place) returns (p: Place)
    requires HoldsBusIds(f, q)
    ensures IsLast(f, p)
  {
    var places := set a, b | a in f && b in ObjectAt(f, a) && HoldsBusIds(f, (a, b)) :: (a, b);
    assert q.1 in ObjectAt(f, q.0) && HoldsBusIds(f, (q.0, q.1)) && q == (q.0, q.1);
    assert q in places;
    p := LastOf(places);
    forall r | HoldsBusIds(f, r) ensures r == p || Before(r, p) {
      assert r.1 in ObjectAt(f, r.0) && HoldsBusIds(f, (r.0, r.1)) && r == (r.0, r.1);
      assert r in places;
    }
  }

  lemma ReadsTheLast(f: Fields, p: Place)
    requires Typed(f, Root, {}) && IsLast(f, p)
    ensures ReadSenlibConfig(f) == Some(ListOf(At(f, p)))
  {
    forall q | IsLast(f, q) ensures q == p {
      BeforeIsAnOrder(p, q, p);
    }
  }

  // ----- The round trip -----

  /** What the template has to offer for its output to decode: the keys that the rewrite does not overwrite fit the
      struct, those that match a field only up to case included. */
  predicate TemplateDecodes(f: Fields, busIds: seq<string>) {
    && Typed(f, Root, {GENERAL, METRICS})
    && Typed(ObjectAt(f, GENERAL), General,
             {BUS_ID, DOOM} + if |busIds| > 1 && !MetricUnspecified(f) then {MULTI_PATH} else {})
    && Typed(ObjectAt(f, METRICS), Metrics, {METRIC_GENERAL})
    && Typed(MetricGeneral(f), MetricsGeneral, if MetricUnspecified(f) then {} else {PATH})
  }

  /** The template's last place for bus ids comes after the written one, so that it is what is read. */
  ghost predicate Overrides(f: Fields, p: Place) {
    IsLast(f, p) && Before(WRITTEN, p)
  }

  lemma KeysFoldApart()
    ensures Folds(GENERAL, GENERAL) && Folds(BUS_ID, BUS_ID)
    ensures !Folds(METRICS, GENERAL) && !Folds(SNT_MCI, GENERAL)
    ensures !Folds(DOOM, BUS_ID) && !Folds(MULTI_PATH, BUS_ID)
  {
    assert FoldChar(METRICS[0]) != FoldChar(GENERAL[0]) && FoldChar(SNT_MCI[0]) != FoldChar(GENERAL[0]);
  }

  lemma KindsOfKeys()
    ensures KindOf(Root, GENERAL) == Nested(General) && KindOf(Root, METRICS) == Nested(Metrics)
    ensures KindOf(Root, SNT_MCI) == Ignored
    ensures KindOf(General, BUS_ID) == Texts && KindOf(General, DOOM) == Flag && KindOf(General, MULTI_PATH) == Text
    ensures KindOf(Metrics, METRIC_GENERAL) == Nested(MetricsGeneral)
    ensures KindOf(MetricsGeneral, ENABLE) == Flag && KindOf(MetricsGeneral, PATH) == Text
  {
    KeysFoldApart();
    assert FoldChar(SNT_MCI[0]) != FoldChar(METRICS[0]);
  }

  lemma BusIdsReadBack(busIds: seq<string>)
    ensures IsStringList(BusIdList(busIds)) && ListOf(BusIdList(busIds)) == busIds
  {
  }

  lemma GeneralDecodes(f: Fields, product: DeviceType, busIds: seq<string>)
    ensures Typed(GeneralAfter(f, product, busIds), General, {}) <==>
            Typed(ObjectAt(f, GENERAL), General,
                  {BUS_ID, DOOM} + if |busIds| > 1 && !MetricUnspecified(f) then {MULTI_PATH} else {})
  {
    KindsOfKeys();
    KeysDiffer();
    BusIdsReadBack(busIds);
    var path := Str(if MetricEnabled(f) then SHARED_MULTI_PATH else LOCAL_MULTI_PATH);
    TypedAfterTwo(ObjectAt(f, GENERAL), General, {}, BUS_ID, BusIdList(busIds), DOOM, Bool(product.VF?));
    TypedAfterTwo(ObjectAt(f, GENERAL), General, {MULTI_PATH}, BUS_ID, BusIdList(busIds), DOOM, Bool(product.VF?));
    var g := ObjectAt(f, GENERAL)[BUS_ID := BusIdList(busIds)][DOOM := Bool(product.VF?)];
    TypedAfterSet(g, General, {}, MULTI_PATH, path);
    assert {} + {MULTI_PATH} == {MULTI_PATH};
  }

  lemma TypedAfterTwo(h: Fields, s: Struct, but: set<string>, k: string, v: Json, l: string, w: Json)
    requires k !in but && l !in but && k != l
    ensures Typed(h[k := v][l := w], s, but) <==>
              Typed(h, s, {k, l} + but) && Fits(v, KindOf(s, k)) && Fits(w, KindOf(s, l))
  {
    TypedAfterSet(h[k := v], s, but, l, w);
    TypedAfterSet(h, s, but + {l}, k, v);
    assert but + {l} + {k} == {k, l} + but;
  }

  lemma MetricGeneralDecodes(f: Fields, busIds: seq<string>)
    ensures Typed(MetricGeneralAfter(f, busIds), MetricsGeneral, {}) <==>
            Typed(MetricGeneral(f), MetricsGeneral, if MetricUnspecified(f) then {} else {PATH})
  {
    KindsOfKeys();
    KeysDiffer();
    if HasObject(ObjectAt(f, METRICS), METRIC_GENERAL) && !MetricUnspecified(f) {
      TypedAfterSet(MetricGeneral(f), MetricsGeneral, {}, PATH, Str(MetricPath(MetricEnabled(f), busIds)));
    }
  }

  lemma MetricsDecode(f: Fields, busIds: seq<string>)
    ensures Typed(ObjectAt(f, METRICS)[METRIC_GENERAL := Obj(MetricGeneralAfter(f, busIds))], Metrics, {}) <==>
            && Typed(ObjectAt(f, METRICS), Metrics, {METRIC_GENERAL})
            && Typed(MetricGeneral(f), MetricsGeneral, if MetricUnspecified(f) then {} else {PATH})
  {
    KindsOfKeys();
    MetricGeneralDecodes(f, busIds);
    TypedAfterSet(ObjectAt(f, METRICS), Metrics, {}, METRIC_GENERAL, Obj(MetricGeneralAfter(f, busIds)));
    assert {} + {METRIC_GENERAL} == {METRIC_GENERAL};
  }

  /** The output decodes if and only if the template allows it. */
  lemma OutputDecodes(f: Fields, product: DeviceType, busIds: seq<string>)
    requires Generated(Obj(f), product, busIds).Done?
    ensures Typed(Generated(Obj(f), product, busIds).config, Root, {}) <==> TemplateDecodes(f, busIds)
  {
    var general := GeneralAfter(f, product, busIds);
    var metrics := ObjectAt(f, METRICS)[METRIC_GENERAL := Obj(MetricGeneralAfter(f, busIds))];
    GeneralDecodes(f, product, busIds);
    MetricsDecode(f, busIds);
    RootDecodes(f, general, metrics);
    IgnoredKey(f[GENERAL := Obj(general)][METRICS := Obj(metrics)], RiscvAfter(f));
  }

  lemma RootDecodes(f: Fields, general: Fields, metrics: Fields)
    ensures Typed(f[GENERAL := Obj(general)][METRICS := Obj(metrics)], Root, {}) <==>
              Typed(f, Root, {GENERAL, METRICS}) && Typed(general, General, {}) && Typed(metrics, Metrics, {})
  {
    KindsOfKeys();
    KeysDiffer();
    TypedAfterTwo(f, Root, {}, GENERAL, Obj(general), METRICS, Obj(metrics));
    assert {GENERAL, METRICS} + {} == {GENERAL, METRICS};
  }

  lemma IgnoredKey(h: Fields, v: Json)
    ensures Typed(h[SNT_MCI := v], Root, {}) <==> Typed(h, Root, {})
  {
    KindsOfKeys();
    TypedAfterSet(h, Root, {}, SNT_MCI, v);
    assert Typed(h, Root, {} + {SNT_MCI}) <==> Typed(h, Root, {});
  }

  /** The output holds bus ids where the template does, with the same values, and at the written place. */
  lemma OutputPlaces(f: Fields, product: DeviceType, busIds: seq<string>, p: Place)
    requires Generated(Obj(f), product, busIds).Done?
    ensures var g := Generated(Obj(f), product, busIds).config;
            && (HoldsBusIds(g, p) <==> p == WRITTEN || HoldsBusIds(f, p))
            && (HoldsBusIds(g, p) ==> At(g, p) == if p == WRITTEN then BusIdList(busIds) else At(f, p))
  {
    KeysFoldApart();
    KeysDiffer();
    GeneratedInputs(f, product, busIds);
    var g := Generated(Obj(f), product, busIds).config;
    if p.0 == GENERAL {
      var after := GeneralAfter(f, product, busIds);
      assert g[p.0].fields == after;
      assert after[BUS_ID] == BusIdList(busIds);
      assert Folds(p.1, BUS_ID) && p.1 != BUS_ID ==> (p.1 in after <==> p.1 in ObjectAt(f, GENERAL));
    } else if Folds(p.0, GENERAL) {
      assert p.0 in g <==> p.0 in f;
    }
  }

  /** Unless the template overrides it, the written list is the last one. */
  lemma LastOfOutput(f: Fields, product: DeviceType, busIds: seq<string>) returns (p: Place)
    requires Generated(Obj(f), product, busIds).Done?
    ensures IsLast(Generated(Obj(f), product, busIds).config, p)
    ensures if exists q :: Overrides(f, q) then Overrides(f, p) else p == WRITTEN
  {
    var g := Generated(Obj(f), product, busIds).config;
    if q :| Overrides(f, q) {
      p := q;
    } else {
      p := WRITTEN;
    }
    forall r | HoldsBusIds(g, r) ensures r == p || Before(r, p) {
      OutputPlaces(f, product, busIds, r);
      BeforeIsAnOrder(r, WRITTEN, WRITTEN);
      if p == WRITTEN && Before(WRITTEN, r) {
        var last := LastExists(f, r);
        BeforeIsAnOrder(WRITTEN, r, last);
        assert Overrides(f, last);
      }
    }
    OutputPlaces(f, product, busIds, p);
  }

  /** What is read is the last list, unless something does not decode. */
  lemma OutputReads(f: Fields, product: DeviceType, busIds: seq<string>) returns (p: Place)
    requires Generated(Obj(f), product, busIds).Done?
    ensures (forall q | Overrides(f, q) :: q == p) && (p == WRITTEN || Overrides(f, p))
    ensures ReadSenlibConfig(Generated(Obj(f), product, busIds).config) ==
              if !TemplateDecodes(f, busIds) then None
              else if p == WRITTEN then Some(busIds)
              else Some(ListOf(At(f, p)))
  {
    OutputDecodes(f, product, busIds);
    p := LastOfOutput(f, product, busIds);
    OutputPlaces(f, product, busIds, p);
    BusIdsReadBack(busIds);
    var g := Generated(Obj(f), product, busIds).config;
    if Typed(g, Root, {}) { ReadsTheLast(g, p); }
    forall q | Overrides(f, q) ensures q == p {
      BeforeIsAnOrder(p, q, p);
    }
  }

  /** The round trip and its exact condition. Reading a generated file fails if and only if some key that stays
      does not fit the struct, and gives the same bus ids in the same order if and only if it does not fail and no
      further key of the template, decoded later, holds another list. A null element of such a later list keeps what
      an earlier list has left in memory; templates with one are not covered. */
  lemma ReadBackIffTemplateDecodes(f: Fields, product: DeviceType, busIds: seq<string>)
    requires Generated(Obj(f), product, busIds).Done?
    requires forall p | Overrides(f, p) && At(f, p).Arr? :: Null !in At(f, p).elements
    ensures var r := ReadSenlibConfig(Generated(Obj(f), product, busIds).config);
            && (r == None <==> !TemplateDecodes(f, busIds))
            && (r == Some(busIds) <==>
                  TemplateDecodes(f, busIds) && forall p | Overrides(f, p) :: ListOf(At(f, p)) == busIds)
  {
    var p := OutputReads(f, product, busIds);
    BeforeIsAnOrder(WRITTEN, p, p);
  }

  /** A template whose multi-device path is a number generates without error for one device and cannot be
      read back. */
  lemma UnreadableOutputExists(busId: string)
    ensures var f := map[GENERAL := Obj(map[MULTI_PATH := Number(1.0)])];
            && Generated(Obj(f), VF, [busId]).Done?
            && ReadSenlibConfig(Generated(Obj(f), VF, [busId]).config) == None
  {
    var general := map[MULTI_PATH := Number(1.0)];
    var f := map[GENERAL := Obj(general)];
    assert METRICS !in f && f[GENERAL] == Obj(general) by { KeysDiffer(); }
    assert !Typed(general, General, {BUS_ID, DOOM}) by {
      KeysDiffer();
      KindsOfKeys();
      assert !Fits(general[MULTI_PATH], KindOf(General, MULTI_PATH));
    }
    MisTypedGeneralFails(f, busId);
  }

  lemma MisTypedGeneralFails(f: Fields, busId: string)
    requires HasObject(f, GENERAL) && METRICS !in f && !Typed(f[GENERAL].fields, General, {BUS_ID, DOOM})
    ensures Generated(Obj(f), VF, [busId]).Done?
    ensures ReadSenlibConfig(Generated(Obj(f), VF, [busId]).config) == None
  {
    OutputDecodes(f, VF, [busId]);
  }

  // ----- A second general object -----

  const LOWER_GENERAL := "general"

  /** A template with an empty GENERAL and a lower-case object of the same field. */
  ghost function TwoGenerals(other: string): Fields {
    map[GENERAL := Obj(map[]), LOWER_GENERAL := Obj(map[BUS_ID := BusIdList([other])])]
  }

  lemma LowerGeneralOverrides(other: string)
    ensures Overrides(TwoGenerals(other), (LOWER_GENERAL, BUS_ID))
    ensures ListOf(At(TwoGenerals(other), (LOWER_GENERAL, BUS_ID))) == [other]
  {
    KeysFoldApart();
    BusIdsReadBack([other]);
    assert LOWER_GENERAL[0] != GENERAL[0];
    var f, p := TwoGenerals(other), (LOWER_GENERAL, BUS_ID);
    assert Folds(LOWER_GENERAL, GENERAL);
    assert f[LOWER_GENERAL] == Obj(map[BUS_ID := BusIdList([other])]) && f[GENERAL] == Obj(map[]);
    forall q | HoldsBusIds(f, q) ensures q == p {
      assert q.0 == GENERAL || q.0 == LOWER_GENERAL;
    }
  }

  /** A template without METRICS, and without more in GENERAL than the struct allows, generates and decodes when its
      other keys do. */
  lemma MinimalTemplateDecodes(f: Fields, busId: string)
    requires HasObject(f, GENERAL) && METRICS !in f
    requires Typed(f, Root, {GENERAL, METRICS}) && Typed(f[GENERAL].fields, General, {BUS_ID, DOOM})
    ensures Generated(Obj(f), VF, [busId]).Done? && TemplateDecodes(f, [busId])
  {
  }

  lemma TwoGeneralsDecode(busId: string, other: string)
    ensures Generated(Obj(TwoGenerals(other)), VF, [busId]).Done? && TemplateDecodes(TwoGenerals(other), [busId])
  {
    var f, second := TwoGenerals(other), map[BUS_ID := BusIdList([other])];
    assert LOWER_GENERAL[0] != GENERAL[0] && LOWER_GENERAL[0] != METRICS[0] && GENERAL[0] != METRICS[0];
    assert f[GENERAL] == Obj(map[]) && f[LOWER_GENERAL] == Obj(second);
    assert KindOf(Root, LOWER_GENERAL) == Nested(General) by { assert Folds(LOWER_GENERAL, GENERAL); }
    assert Typed(second, General, {}) by {
      KeysFoldApart();
      BusIdsReadBack([other]);
    }
    MinimalTemplateDecodes(f, busId);
  }

  /** Its bus ids are read instead of the written ones. */
  lemma LowerCaseKeyOverrides(busId: string, other: string)
    ensures Generated(Obj(TwoGenerals(other)), VF, [busId]).Done?
    ensures ReadSenlibConfig(Generated(Obj(TwoGenerals(other)), VF, [busId]).config) == Some([other])
  {
    LowerGeneralOverrides(other);
    TwoGeneralsDecode(busId, other);
    var p := OutputReads(TwoGenerals(other), VF, [busId]);
    assert LOWER_GENERAL[0] != GENERAL[0];
  }
}
